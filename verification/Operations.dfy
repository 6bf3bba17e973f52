/** The MariaDB reconcile loop as far as its long-running operations go: restoring a logical backup, resizing
    storage and updating. Each announces itself in a status condition that keeps the other two out. A pass is a
    sequence of single reads and writes over the Status, Init, Storage, StatefulSet and Restore phases; it may
    stop after any of them, and the cluster and the user act in between. */
module Operations {
  import opened Prelude

  datatype Content = Logical | Physical

  datatype Spec = Spec(
    size: nat,               // storage.size, in bytes
    replicas: nat,
    resizeInUse: bool,
    waitForResize: bool,
    ephemeral: bool,
    bootstrap: Option<Content>
  )

  /** The conditions BackupRestored, StorageResized and Updated; PrimarySwitched and GaleraReady as flags. */
  datatype Backup = BackupUnset | Restoring | Restored
  datatype Resize = ResizeUnset | Resizing | WaitingResize | Resized
  datatype Update = UpdateUnset | PendingUpdate | Updating | Updated

  datatype Conditions = Conditions(
    backup: Backup, resize: Resize, update: Update, switching: bool, galeraNotReady: bool, initialized: bool)

  datatype StatefulSet = StatefulSet(size: nat, readyReplicas: nat, updateRevision: string, deleting: bool)

  datatype PVC = PVC(request: nat, resizing: bool)

  /** The next thing the operator does. */
  datatype Pc =
    | Idle
    | StatusPhase
    | InitPhase
    | StoragePhase
    | ListPVCs(desired: nat)
    | PatchPVCs(desired: nat, todo: set<nat>)
    | DeleteStatefulSet(desired: nat)
    | RecreateStatefulSet(desired: nat)
    | AnnounceWaiting
    | ScanPVCs
    | CheckReady
    | StatefulSetPhase
    | RestorePhase
    | CreateRestore
    | MarkRestored

  /** What has happened so far in the run. */
  datatype History = History(
    stsSize: nat,            // size of the last StatefulSet created
    restores: nat,           // bootstrap Restore objects created
    initRan: bool            // the physical init path has written something
  )

  datatype State = State(
    pc: Pc,
    spec: Spec,
    mem: Spec,               // the spec of the object the pass holds in memory
    c: Conditions,
    sts: Option<StatefulSet>,
    pods: seq<Option<string>>, // the controller-revision-hash label of each listed Pod
    pvcs: map<nat, PVC>,
    restore: Option<bool>,   // the bootstrap Restore object, and whether it is complete
    healthy: bool,
    maxScaleMissing: bool,
    h: History
  )

  datatype Event =
    | Operator
    | EndPass                            // an error, a requeue or a crash
    | PatchPVC(pvc: nat)
    | InitPVC(pvc: nat)
    | InitStatefulSet
    | FinishInit
    | LookupFails                        // the Restore lookup fails for another reason than NotFound
    | EditSize(size: nat)
    | EditReplicas(replicas: nat)
    | SetSwitching(switching: bool)
    | SetGaleraNotReady(notReady: bool)
    | SetPods(pods: seq<Option<string>>)
    | SetStatefulSetStatus(ready: nat, revision: string)
    | FinishDelete
    | AddPVC(pvc: nat)
    | RemovePVC(pvc: nat)
    | MarkPVC(pvc: nat, resizing: bool)
    | CompleteRestore
    | RemoveRestore
    | SetHealthy(healthy: bool)
    | SetMaxScaleMissing(missing: bool)

  // ---------------------------------------------------------------------------------------------
  // The decisions of the phases
  // ---------------------------------------------------------------------------------------------

  predicate IsResizing(c: Conditions) {
    c.resize.Resizing? || c.resize.WaitingResize?
  }

  predicate StatusKeepsConditions(s: State) {
    || s.maxScaleMissing
    || s.c.backup.Restoring? || IsResizing(s.c) || s.c.switching || s.c.galeraNotReady
  }

  function CountUpdated(pods: seq<Option<string>>, revision: string): nat {
    if pods == [] then 0
    else CountUpdated(pods[..|pods| - 1], revision) + if pods[|pods| - 1] == Some(revision) then 1 else 0
  }

  /** setUpdatedCondition; a missing StatefulSet or an empty revision leaves the condition alone. */
  function UpdateAfter(s: State): Update {
    if s.sts.None? || s.sts.value.updateRevision == "" then s.c.update
    else
      var n := CountUpdated(s.pods, s.sts.value.updateRevision);
      if n >= s.mem.replicas then Updated else if n > 0 then Updating else PendingUpdate
  }

  predicate ShouldReconcileStorage(s: State) {
    !s.c.backup.Restoring? && !s.c.update.Updating? && !s.c.switching && !s.c.galeraNotReady && !s.mem.ephemeral
  }

  predicate ShouldReconcileRestore(s: State) {
    && !s.c.update.Updating? && !IsResizing(s.c) && !s.c.switching && !s.c.galeraNotReady
    && !s.c.backup.Restored?
    && s.mem.bootstrap == Some(Logical)
  }

  predicate AnyResizing(pvcs: map<nat, PVC>) {
    exists i :: i in pvcs && pvcs[i].resizing
  }

  function NewStatefulSet(size: nat): StatefulSet {
    StatefulSet(size, 0, "", false)
  }

  /** ReconcileWithUpdates: create the StatefulSet if there is none; its volume claim template never changes. */
  function EnsureStatefulSet(s: State): State {
    if s.sts.Some? then s
    else s.(sts := Some(NewStatefulSet(s.mem.size)), h := s.h.(stsSize := s.mem.size))
  }

  /** Status patches refresh the object in memory from the server's answer. */
  function PatchStatus(s: State, c: Conditions): State {
    s.(c := c, mem := s.spec)
  }

  // ---------------------------------------------------------------------------------------------
  // Steps
  // ---------------------------------------------------------------------------------------------

  /** reconcileStorage, up to the announcement of a resize. */
  function StorageStep(s: State): State {
    if !ShouldReconcileStorage(s) then s.(pc := StatefulSetPhase)
    else if s.c.resize.WaitingResize? then s.(pc := ScanPVCs)
    else if s.sts.None? then s.(pc := StatefulSetPhase)
    else if s.mem.size == s.sts.value.size then s.(pc := StatefulSetPhase)
    else if s.mem.size < s.sts.value.size then s.(pc := Idle)
    else PatchStatus(s, s.c.(resize := Resizing)).(pc := ListPVCs(s.mem.size))
  }

  predicate IsResizeStep(pc: Pc) {
    || pc.ListPVCs? || pc.PatchPVCs? || pc.DeleteStatefulSet? || pc.RecreateStatefulSet? || pc.AnnounceWaiting?
    || pc.ScanPVCs? || pc.CheckReady?
  }

  /** resizeInUsePVCs, resizeStatefulSet and waitForStorageResize. */
  function ResizeStep(s: State): State
    requires IsResizeStep(s.pc)
  {
    match s.pc
    case ListPVCs(d) => s.(pc := PatchPVCs(d, if s.mem.resizeInUse then s.pvcs.Keys else {}))
    case PatchPVCs(d, todo) => if todo == {} then s.(pc := DeleteStatefulSet(d)) else s
    case DeleteStatefulSet(d) =>
      s.(pc := RecreateStatefulSet(d), sts := if s.sts.Some? then Some(s.sts.value.(deleting := true)) else None)
    case RecreateStatefulSet(d) => EnsureStatefulSet(s).(pc := AnnounceWaiting)
    case AnnounceWaiting => PatchStatus(s, s.c.(resize := WaitingResize)).(pc := ScanPVCs)
    case ScanPVCs =>
      s.(pc := if s.mem.resizeInUse && s.mem.waitForResize && AnyResizing(s.pvcs) then Idle else CheckReady)
    case CheckReady =>
      if s.sts.None? then s.(pc := StatefulSetPhase)
      else if s.sts.value.readyReplicas != s.mem.replicas then s.(pc := Idle)
      else PatchStatus(s, s.c.(resize := Resized)).(pc := StatefulSetPhase)
  }

  predicate IsRestoreStep(pc: Pc) {
    pc.RestorePhase? || pc.CreateRestore? || pc.MarkRestored?
  }

  /** reconcileRestore. */
  function RestoreStep(s: State): State
    requires IsRestoreStep(s.pc)
  {
    match s.pc
    case CreateRestore =>
      if s.restore.Some? then s.(pc := Idle)
      else s.(restore := Some(false), pc := Idle, h := s.h.(restores := s.h.restores + 1))
    case MarkRestored => PatchStatus(s, s.c.(backup := Restored)).(pc := Idle)
    case RestorePhase =>
      if !ShouldReconcileRestore(s) then s.(pc := Idle)
      else if s.c.backup.Restoring? then
        (if s.restore == Some(true) then s.(restore := None, pc := MarkRestored) else s.(pc := Idle))
      else if !s.healthy || s.restore.Some? then s.(pc := Idle)
      else PatchStatus(s, s.c.(backup := Restoring)).(pc := CreateRestore)
  }

  function Step(s: State): State {
    if IsResizeStep(s.pc) then ResizeStep(s)
    else if IsRestoreStep(s.pc) then RestoreStep(s)
    else
      match s.pc
      case Idle => s.(pc := StatusPhase, mem := s.spec)
      case StatusPhase =>
        PatchStatus(s, if StatusKeepsConditions(s) then s.c else s.c.(update := UpdateAfter(s))).(pc := InitPhase)
      case InitPhase =>
        s.(pc := if s.mem.bootstrap == Some(Physical) && !s.c.initialized then Idle else StoragePhase)
      case StoragePhase => StorageStep(s)
      case StatefulSetPhase => EnsureStatefulSet(s).(pc := RestorePhase)
  }

  predicate Enabled(s: State, e: Event) {
    match e
    case PatchPVC(i) => s.pc.PatchPVCs? && i in s.pc.todo
    case InitPVC(_) => s.pc.InitPhase? && s.mem.bootstrap == Some(Physical) && !s.c.initialized
    case InitStatefulSet => s.pc.InitPhase? && s.mem.bootstrap == Some(Physical) && !s.c.initialized
    case FinishInit => s.pc.InitPhase? && s.mem.bootstrap == Some(Physical) && !s.c.initialized
    case LookupFails => s.pc.RestorePhase? && ShouldReconcileRestore(s) && s.c.backup.BackupUnset? && s.healthy
    case EditSize(n) => s.spec.size <= n
    case SetStatefulSetStatus(_, _) => s.sts.Some?
    case FinishDelete => s.sts.Some? && s.sts.value.deleting
    case AddPVC(i) => s.sts.Some? && !s.sts.value.deleting && i !in s.pvcs
    case MarkPVC(i, _) => i in s.pvcs
    case CompleteRestore => s.restore.Some?
    case _ => true
  }

  function Apply(s: State, e: Event): State
    requires Enabled(s, e)
  {
    match e
    case Operator => Step(s)
    case EndPass => s.(pc := Idle)
    case PatchPVC(i) =>
      s.(pc := s.pc.(todo := s.pc.todo - {i}),
         pvcs := if i in s.pvcs then s.pvcs[i := s.pvcs[i].(request := s.pc.desired)] else s.pvcs)
    case InitPVC(i) =>
      s.(pvcs := if i in s.pvcs then s.pvcs else s.pvcs[i := PVC(s.mem.size, false)], h := s.h.(initRan := true))
    case InitStatefulSet => EnsureStatefulSet(s).(h := EnsureStatefulSet(s).h.(initRan := true))
    case FinishInit =>
      PatchStatus(s, s.c.(backup := Restored, initialized := true)).(pc := StoragePhase, h := s.h.(initRan := true))
    case LookupFails => PatchStatus(s, s.c.(backup := Restoring)).(pc := CreateRestore)
    case EditSize(n) => s.(spec := s.spec.(size := n))
    case EditReplicas(n) => s.(spec := s.spec.(replicas := n))
    case SetSwitching(b) => s.(c := s.c.(switching := b))
    case SetGaleraNotReady(b) => s.(c := s.c.(galeraNotReady := b))
    case SetPods(pods) => s.(pods := pods)
    case SetStatefulSetStatus(n, r) => s.(sts := Some(s.sts.value.(readyReplicas := n, updateRevision := r)))
    case FinishDelete => s.(sts := None)
    case AddPVC(i) => s.(pvcs := s.pvcs[i := PVC(s.sts.value.size, false)])
    case RemovePVC(i) => s.(pvcs := s.pvcs - {i})
    case MarkPVC(i, b) => s.(pvcs := s.pvcs[i := s.pvcs[i].(resizing := b)])
    case CompleteRestore => s.(restore := Some(true))
    case RemoveRestore => s.(restore := None)
    case SetHealthy(b) => s.(healthy := b)
    case SetMaxScaleMissing(b) => s.(maxScaleMissing := b)
  }

  ghost predicate Reaches(s: State, es: seq<Event>, t: State)
    decreases |es|
  {
    if es == [] then s == t else Enabled(s, es[0]) && Reaches(Apply(s, es[0]), es[1..], t)
  }

  lemma {:induction false} ReachesTrans(s: State, es1: seq<Event>, t: State, es2: seq<Event>, u: State)
    requires Reaches(s, es1, t) && Reaches(t, es2, u)
    ensures Reaches(s, es1 + es2, u)
    decreases |es1|
  {
    if es1 == [] {
      assert es1 + es2 == es2;
    } else {
      ReachesTrans(Apply(s, es1[0]), es1[1..], t, es2, u);
      assert (es1 + es2)[1..] == es1[1..] + es2;
    }
  }

  lemma ReachesAppend(s: State, es: seq<Event>, t: State, e: Event)
    requires Reaches(s, es, t) && Enabled(t, e)
    ensures Reaches(s, es + [e], Apply(t, e))
  {
    assert Reaches(Apply(t, e), [e][1..], Apply(t, e));
    assert Reaches(t, [e], Apply(t, e));
    ReachesTrans(s, es, t, [e], Apply(t, e));
  }

  /** A MariaDB that has just been admitted. Pods, PVCs and even a Restore object may be left over. */
  ghost predicate Init(s: State) {
    && s.pc == Idle && s.sts == None
    && s.c == Conditions(BackupUnset, ResizeUnset, UpdateUnset, s.c.switching, s.c.galeraNotReady, false)
    && s.h == History(0, 0, false)
    && s.mem.bootstrap == s.spec.bootstrap
  }

  /** What each part of the pass leaves alone. */
  lemma ResizeFrame(s: State)
    requires IsResizeStep(s.pc)
    ensures var t := ResizeStep(s);
            && t.spec == s.spec && (t.mem == s.mem || t.mem == s.spec)
            && t.c == s.c.(resize := t.c.resize)
            && t.pods == s.pods && t.pvcs == s.pvcs && t.restore == s.restore
            && t.healthy == s.healthy && t.maxScaleMissing == s.maxScaleMissing
            && t.h == s.h.(stsSize := t.h.stsSize)
            && !IsRestoreStep(t.pc)
  {
    match s.pc {
      case ListPVCs(_) =>
      case PatchPVCs(_, _) =>
      case DeleteStatefulSet(_) =>
      case RecreateStatefulSet(_) =>
      case AnnounceWaiting =>
      case ScanPVCs =>
      case CheckReady =>
    }
  }

  lemma RestoreFrame(s: State)
    requires IsRestoreStep(s.pc)
    ensures var t := RestoreStep(s);
            && t.spec == s.spec && (t.mem == s.mem || t.mem == s.spec)
            && t.c == s.c.(backup := t.c.backup)
            && t.sts == s.sts && t.pods == s.pods && t.pvcs == s.pvcs
            && t.healthy == s.healthy && t.maxScaleMissing == s.maxScaleMissing
            && t.h == s.h.(restores := t.h.restores)
            && (t.pc.Idle? || t.pc.CreateRestore? || t.pc.MarkRestored?)
  {
    match s.pc {
      case CreateRestore =>
      case MarkRestored =>
      case RestorePhase =>
    }
  }

  // ---------------------------------------------------------------------------------------------
  // Exclusion
  // ---------------------------------------------------------------------------------------------

  /** At most one of restoring, resizing and updating. */
  predicate Exclusive(c: Conditions) {
    && !(c.backup.Restoring? && (c.resize.Resizing? || c.resize.WaitingResize?))
    && !(c.backup.Restoring? && c.update.Updating?)
    && !((c.resize.Resizing? || c.resize.WaitingResize?) && c.update.Updating?)
  }

  /** The condition that announces what the pass is in the middle of. */
  predicate Announced(s: State) {
    match s.pc
    case ListPVCs(_) => s.c.resize.Resizing?
    case PatchPVCs(_, _) => s.c.resize.Resizing?
    case DeleteStatefulSet(_) => s.c.resize.Resizing?
    case RecreateStatefulSet(_) => s.c.resize.Resizing?
    case AnnounceWaiting => s.c.resize.Resizing?
    case ScanPVCs => s.c.resize.WaitingResize?
    case CheckReady => s.c.resize.WaitingResize?
    case CreateRestore => s.c.backup.Restoring?
    case MarkRestored => s.c.backup.Restoring?
    case _ => true
  }

  lemma StepKeepsExclusion(s: State)
    requires Exclusive(s.c) && Announced(s)
    ensures Exclusive(Step(s).c) && Announced(Step(s))
  {
    if IsResizeStep(s.pc) {
      ResizeFrame(s);
    } else if IsRestoreStep(s.pc) {
      RestoreFrame(s);
    } else {
      match s.pc {
        case Idle =>
        case StatusPhase =>
        case InitPhase =>
        case StoragePhase =>
        case StatefulSetPhase =>
      }
    }
  }

  lemma EventKeepsExclusion(s: State, e: Event)
    requires Exclusive(s.c) && Announced(s) && Enabled(s, e)
    ensures Exclusive(Apply(s, e).c) && Announced(Apply(s, e))
  {
    var t := Apply(s, e);
    match e {
      case Operator => StepKeepsExclusion(s);
      case _ =>
    }
  }

  lemma {:induction false} RunKeepsExclusion(s: State, es: seq<Event>, t: State)
    requires Exclusive(s.c) && Announced(s) && Reaches(s, es, t)
    ensures Exclusive(t.c) && Announced(t)
    decreases |es|
  {
    if es != [] {
      EventKeepsExclusion(s, es[0]);
      RunKeepsExclusion(Apply(s, es[0]), es[1..], t);
    }
  }

  /** In every reachable state at most one of the three operations is under way. */
  lemma OperationExclusion(s: State, es: seq<Event>, t: State)
    requires Init(s) && Reaches(s, es, t)
    ensures Exclusive(t.c)
  {
    RunKeepsExclusion(s, es, t);
  }

  // ---------------------------------------------------------------------------------------------
  // When an operation may begin
  // ---------------------------------------------------------------------------------------------

  /** A resize is announced only by the Storage phase, and only when nothing is restoring, updating or switching over,
      Galera is ready and the storage is not ephemeral. */
  lemma ResizeBeginsOnlyWhenFree(s: State, e: Event)
    requires Enabled(s, e) && !s.c.resize.Resizing? && Apply(s, e).c.resize.Resizing?
    ensures e == Operator && s.pc.StoragePhase?
    ensures !s.c.backup.Restoring? && !s.c.update.Updating? && !s.c.switching && !s.c.galeraNotReady && !s.mem.ephemeral
    ensures !s.c.resize.WaitingResize? && s.sts.Some? && s.sts.value.size < s.mem.size
  {
    if e.Operator? {
      if IsResizeStep(s.pc) {
        NoResizeStepAnnounces(s);
      } else if IsRestoreStep(s.pc) {
        RestoreFrame(s);
      }
    }
  }

  lemma NoResizeStepAnnounces(s: State)
    requires IsResizeStep(s.pc)
    ensures ResizeStep(s).c.resize.Resizing? ==> s.c.resize.Resizing?
  {
  }

  /** An update is announced only by the Status phase, and only when nothing is restoring, resizing or switching over,
      Galera is ready and the MaxScale that is referred to exists. */
  lemma UpdateBeginsOnlyWhenFree(s: State, e: Event)
    requires Enabled(s, e) && s.c.update != Apply(s, e).c.update
    ensures e == Operator && s.pc.StatusPhase?
    ensures !s.c.backup.Restoring? && !s.c.resize.Resizing? && !s.c.resize.WaitingResize? && !s.c.switching && !s.c.galeraNotReady
    ensures !s.maxScaleMissing && s.sts.Some? && s.sts.value.updateRevision != ""
  {
    if e.Operator? {
      if IsResizeStep(s.pc) {
        ResizeFrame(s);
      } else if IsRestoreStep(s.pc) {
        RestoreFrame(s);
      }
    }
  }

  /** A restore is announced only by the Restore phase, only for a logical bootstrap source that was not restored yet,
      and only when nothing is updating, resizing or switching over, Galera is ready and the MariaDB healthy. */
  lemma RestoreBeginsOnlyWhenFree(s: State, e: Event)
    requires Enabled(s, e) && !s.c.backup.Restoring? && Apply(s, e).c.backup.Restoring?
    ensures (e == Operator || e == LookupFails) && s.pc.RestorePhase? && s.healthy
    ensures !s.c.update.Updating? && !s.c.resize.Resizing? && !s.c.resize.WaitingResize? && !s.c.switching && !s.c.galeraNotReady
    ensures s.c.backup.BackupUnset? && s.mem.bootstrap == Some(Logical)
  {
    if e.Operator? && IsResizeStep(s.pc) {
      ResizeFrame(s);
    }
  }

  // ---------------------------------------------------------------------------------------------
  // At most one restore
  // ---------------------------------------------------------------------------------------------

  ghost predicate RestoreInv(s: State) {
    && s.mem.bootstrap == s.spec.bootstrap
    && s.h.restores <= 1
    && (s.c.backup.BackupUnset? ==> s.h.restores == 0)
    && (s.pc.CreateRestore? ==> s.h.restores == 0 && s.c.backup.Restoring? && s.spec.bootstrap == Some(Logical))
    && (s.h.restores > 0 ==> s.spec.bootstrap == Some(Logical))
    && (s.h.initRan ==> s.spec.bootstrap == Some(Physical))
  }

  lemma StepKeepsRestoreInv(s: State)
    requires RestoreInv(s)
    ensures RestoreInv(Step(s))
  {
    if IsResizeStep(s.pc) {
      ResizeFrame(s);
    } else if IsRestoreStep(s.pc) {
      RestoreFrame(s);
    } else {
      match s.pc {
        case Idle =>
        case StatusPhase =>
        case InitPhase =>
        case StoragePhase =>
        case StatefulSetPhase =>
      }
    }
  }

  lemma EventKeepsRestoreInv(s: State, e: Event)
    requires RestoreInv(s) && Enabled(s, e)
    ensures RestoreInv(Apply(s, e))
  {
    match e {
      case Operator => StepKeepsRestoreInv(s);
      case _ =>
    }
  }

  lemma {:induction false} RunKeepsRestoreInv(s: State, es: seq<Event>, t: State)
    requires RestoreInv(s) && Reaches(s, es, t)
    ensures RestoreInv(t)
    decreases |es|
  {
    if es != [] {
      EventKeepsRestoreInv(s, es[0]);
      RunKeepsRestoreInv(Apply(s, es[0]), es[1..], t);
    }
  }

  /** Whatever fails, and whoever completes or deletes the Restore object: the operator creates at most one, and a
      run that restores logically never initializes physically. */
  lemma AtMostOneRestore(s: State, es: seq<Event>, t: State)
    requires Init(s) && Reaches(s, es, t)
    ensures t.h.restores <= 1
    ensures !(t.h.restores > 0 && t.h.initRan)
  {
    RunKeepsRestoreInv(s, es, t);
  }
}

/** What the storage resize keeps over whole runs: the StatefulSet's size never shrinks, and the PVCs stay at least
    as large as the StatefulSet says, up to the two races shown at the end. */
module StorageResize {
  import opened Prelude
  import opened Operations

  // ---------------------------------------------------------------------------------------------
  // The size of the StatefulSet
  // ---------------------------------------------------------------------------------------------

  /** The pass is between announcing a resize and recreating the StatefulSet. */
  predicate InWindow(pc: Pc) {
    pc.ListPVCs? || pc.PatchPVCs? || pc.DeleteStatefulSet? || pc.RecreateStatefulSet?
  }

  ghost predicate SizeInv(s: State) {
    && (s.sts.Some? ==> s.sts.value.size == s.h.stsSize)
    && s.h.stsSize <= s.spec.size
    && (!s.pc.Idle? ==> s.h.stsSize <= s.mem.size <= s.spec.size)
    && (InWindow(s.pc) ==> s.h.stsSize < s.pc.desired <= s.mem.size)
  }

  lemma ResizeKeepsSizeInv(s: State)
    requires SizeInv(s) && IsResizeStep(s.pc)
    ensures SizeInv(ResizeStep(s)) && s.h.stsSize <= ResizeStep(s).h.stsSize
  {
    match s.pc {
      case ListPVCs(_) =>
      case PatchPVCs(_, _) =>
      case DeleteStatefulSet(_) =>
      case RecreateStatefulSet(_) =>
      case AnnounceWaiting =>
      case ScanPVCs =>
      case CheckReady =>
    }
  }

  lemma StepKeepsSizeInv(s: State)
    requires SizeInv(s)
    ensures SizeInv(Step(s)) && s.h.stsSize <= Step(s).h.stsSize
  {
    if IsResizeStep(s.pc) {
      ResizeKeepsSizeInv(s);
    } else if IsRestoreStep(s.pc) {
      RestoreFrame(s);
    } else {
      match s.pc {
        case Idle =>
        case StatusPhase =>
        case InitPhase =>
        case StoragePhase =>
        case StatefulSetPhase =>
      }
    }
  }

  lemma EventKeepsSizeInv(s: State, e: Event)
    requires SizeInv(s) && Enabled(s, e)
    ensures SizeInv(Apply(s, e)) && s.h.stsSize <= Apply(s, e).h.stsSize
  {
    match e {
      case Operator => StepKeepsSizeInv(s);
      case _ =>
    }
  }

  lemma {:induction false} RunKeepsSizeInv(s: State, es: seq<Event>, t: State)
    requires SizeInv(s) && Reaches(s, es, t)
    ensures SizeInv(t) && s.h.stsSize <= t.h.stsSize
    decreases |es|
  {
    if es != [] {
      EventKeepsSizeInv(s, es[0]);
      RunKeepsSizeInv(Apply(s, es[0]), es[1..], t);
    }
  }

  /** As long as the admitted sizes do not decrease, neither does the StatefulSet's, through every deletion and
      recreation and every interrupted pass; and no pass ever meets the "cannot decrease" error. */
  lemma StatefulSetNeverShrinks(s: State, es1: seq<Event>, t: State, es2: seq<Event>, u: State)
    requires Init(s) && Reaches(s, es1, t) && Reaches(t, es2, u)
    ensures t.sts.Some? && u.sts.Some? ==> t.sts.value.size <= u.sts.value.size
    ensures u.sts.Some? ==> u.sts.value.size <= u.spec.size
    ensures u.pc.StoragePhase? && u.sts.Some? ==> u.sts.value.size <= u.mem.size
  {
    RunKeepsSizeInv(s, es1, t);
    RunKeepsSizeInv(t, es2, u);
  }

  // ---------------------------------------------------------------------------------------------
  // The sizes of the PVCs
  // ---------------------------------------------------------------------------------------------

  predicate AllAtLeast(pvcs: map<nat, PVC>, size: nat) {
    forall i :: i in pvcs ==> size <= pvcs[i].request
  }

  /** No PVC requests less than the StatefulSet's template. */
  predicate Covered(s: State) {
    s.sts.Some? ==> AllAtLeast(s.pvcs, s.sts.value.size)
  }

  /** The StatefulSet is there to stay. */
  predicate Standing(s: State) {
    s.sts.Some? && !s.sts.value.deleting
  }

  /** The size is edited only between passes and while the StatefulSet stands, and no PVC appears between the
      listing of the PVCs and the deletion of the StatefulSet. */
  predicate Undisturbed(s: State, e: Event) {
    && (e.EditSize? ==> s.pc.Idle? && Standing(s))
    && (e.AddPVC? ==> !s.pc.PatchPVCs? && !s.pc.DeleteStatefulSet?)
  }

  ghost predicate UndisturbedRun(s: State, es: seq<Event>)
    decreases |es|
  {
    es == [] || (Enabled(s, es[0]) && Undisturbed(s, es[0]) && UndisturbedRun(Apply(s, es[0]), es[1..]))
  }

  ghost predicate PVCInv(s: State) {
    && SizeInv(s)
    && s.spec.resizeInUse
    && (!s.pc.Idle? ==> s.mem.size == s.spec.size && s.mem.resizeInUse)
    && (Standing(s) ==> AllAtLeast(s.pvcs, s.sts.value.size))
    && (s.pc.RecreateStatefulSet? ==> !Standing(s))
    && (!Standing(s) || s.pc.DeleteStatefulSet? ==> AllAtLeast(s.pvcs, s.spec.size))
    && (InWindow(s.pc) ==> s.pc.desired == s.spec.size)
    && (s.pc.PatchPVCs? ==> forall i :: i in s.pvcs && i !in s.pc.todo ==> s.spec.size <= s.pvcs[i].request)
  }

  lemma ResizeKeepsPVCInv(s: State)
    requires PVCInv(s) && IsResizeStep(s.pc)
    ensures PVCInv(ResizeStep(s))
  {
    ResizeKeepsSizeInv(s);
    match s.pc {
      case ListPVCs(_) =>
      case PatchPVCs(_, _) =>
      case DeleteStatefulSet(_) =>
      case RecreateStatefulSet(_) =>
      case AnnounceWaiting =>
      case ScanPVCs =>
      case CheckReady =>
    }
  }

  lemma PassKeepsPVCInv(s: State)
    requires PVCInv(s) && !IsResizeStep(s.pc) && !IsRestoreStep(s.pc)
    requires SizeInv(Step(s))
    ensures PVCInv(Step(s))
  {
    match s.pc {
      case Idle =>
      case StatusPhase =>
      case InitPhase =>
      case StoragePhase =>
      case StatefulSetPhase =>
    }
  }

  lemma StepKeepsPVCInv(s: State)
    requires PVCInv(s)
    ensures PVCInv(Step(s))
  {
    if IsResizeStep(s.pc) {
      ResizeKeepsPVCInv(s);
    } else if IsRestoreStep(s.pc) {
      StepKeepsSizeInv(s);
      RestoreFrame(s);
    } else {
      StepKeepsSizeInv(s);
      PassKeepsPVCInv(s);
    }
  }

  lemma PVCEventKeepsPVCInv(s: State, e: Event)
    requires PVCInv(s) && Enabled(s, e) && Undisturbed(s, e) && SizeInv(Apply(s, e))
    requires e.PatchPVC? || e.InitPVC? || e.AddPVC? || e.RemovePVC? || e.MarkPVC?
    ensures PVCInv(Apply(s, e))
  {
    match e {
      case PatchPVC(_) =>
      case InitPVC(_) =>
      case AddPVC(_) =>
      case RemovePVC(_) =>
      case MarkPVC(_, _) =>
    }
  }

  lemma SizeEventKeepsPVCInv(s: State, e: Event)
    requires PVCInv(s) && Enabled(s, e) && Undisturbed(s, e) && SizeInv(Apply(s, e))
    requires e.InitStatefulSet? || e.FinishInit? || e.FinishDelete? || e.SetStatefulSetStatus? || e.EditSize?
    ensures PVCInv(Apply(s, e))
  {
    match e {
      case InitStatefulSet =>
      case FinishInit =>
      case FinishDelete =>
      case SetStatefulSetStatus(_, _) =>
      case EditSize(_) =>
    }
  }

  lemma OtherEventKeepsPVCInv(s: State, e: Event)
    requires PVCInv(s) && Enabled(s, e) && SizeInv(Apply(s, e))
    requires e.EndPass? || e.LookupFails? || e.EditReplicas? || e.SetSwitching? || e.SetGaleraNotReady? || e.SetPods?
             || e.CompleteRestore? || e.RemoveRestore? || e.SetHealthy? || e.SetMaxScaleMissing?
    ensures PVCInv(Apply(s, e))
  {
    var t := Apply(s, e);
    assert t.pvcs == s.pvcs && t.sts == s.sts && t.spec.size == s.spec.size;
  }

  lemma EventKeepsPVCInv(s: State, e: Event)
    requires PVCInv(s) && Enabled(s, e) && Undisturbed(s, e)
    ensures PVCInv(Apply(s, e))
  {
    EventKeepsSizeInv(s, e);
    if e.Operator? {
      StepKeepsPVCInv(s);
    } else if e.PatchPVC? || e.InitPVC? || e.AddPVC? || e.RemovePVC? || e.MarkPVC? {
      PVCEventKeepsPVCInv(s, e);
    } else if e.InitStatefulSet? || e.FinishInit? || e.FinishDelete? || e.SetStatefulSetStatus? || e.EditSize? {
      SizeEventKeepsPVCInv(s, e);
    } else {
      OtherEventKeepsPVCInv(s, e);
    }
  }

  lemma {:induction false} RunKeepsPVCInv(s: State, es: seq<Event>, t: State)
    requires PVCInv(s) && Reaches(s, es, t) && UndisturbedRun(s, es)
    ensures PVCInv(t)
    decreases |es|
  {
    if es != [] {
      EventKeepsPVCInv(s, es[0]);
      RunKeepsPVCInv(Apply(s, es[0]), es[1..], t);
    }
  }

  /** With in-use resizing on, and no PVCs left over that are too small to begin with: every undisturbed run keeps
      every PVC at least as large as the StatefulSet, however often passes are interrupted. */
  lemma PVCsCoverStatefulSet(s: State, es: seq<Event>, t: State)
    requires Init(s) && s.spec.resizeInUse && AllAtLeast(s.pvcs, s.spec.size)
    requires Reaches(s, es, t) && UndisturbedRun(s, es)
    ensures Covered(t)
  {
    RunKeepsPVCInv(s, es, t);
  }

  // ---------------------------------------------------------------------------------------------
  // When StorageResized is announced
  // ---------------------------------------------------------------------------------------------

  /** No PVC that has to be waited for is resizing. */
  predicate NothingToWaitFor(s: State) {
    !(s.mem.resizeInUse && s.mem.waitForResize && AnyResizing(s.pvcs))
  }

  /** Resized is set only by a pass that has got past the scan and sees all replicas ready. */
  lemma ResizedOnlyWhenReady(s: State, e: Event)
    requires Enabled(s, e) && !s.c.resize.Resized? && Apply(s, e).c.resize.Resized?
    ensures e == Operator && s.pc.CheckReady? && s.sts.Some? && s.sts.value.readyReplicas == s.mem.replicas
  {
    if !e.Operator? {
      OnlyOperatorResizes(s, e);
    } else if IsResizeStep(s.pc) {
      ResizeStepResizes(s);
    } else if IsRestoreStep(s.pc) {
      RestoreFrame(s);
    } else {
      PassStepResizes(s);
    }
  }

  lemma ResizeStepResizes(s: State)
    requires IsResizeStep(s.pc) && !s.c.resize.Resized? && ResizeStep(s).c.resize.Resized?
    ensures s.pc.CheckReady? && s.sts.Some? && s.sts.value.readyReplicas == s.mem.replicas
  {
  }

  lemma PassStepResizes(s: State)
    requires !IsResizeStep(s.pc) && !IsRestoreStep(s.pc)
    ensures Step(s).c.resize == s.c.resize || Step(s).c.resize.Resizing?
  {
  }

  lemma OnlyOperatorResizes(s: State, e: Event)
    requires Enabled(s, e) && !e.Operator?
    ensures Apply(s, e).c.resize == s.c.resize
  {
  }

  lemma CheckReadyOnlyAfterScan(s: State, e: Event)
    requires Enabled(s, e) && !s.pc.CheckReady? && Apply(s, e).pc.CheckReady?
    ensures e == Operator && s.pc.ScanPVCs? && NothingToWaitFor(s)
  {
    if e.Operator? && IsRestoreStep(s.pc) {
      RestoreFrame(s);
    }
  }

  /** The state in which event k of a run happens. */
  function StateAt(s: State, es: seq<Event>, k: nat): State
    requires k <= |es|
    decreases k
  {
    if k == 0 || !Enabled(s, es[0]) then s else StateAt(Apply(s, es[0]), es[1..], k - 1)
  }

  /** The last scan of a run that is at CheckReady, or -1 if it has been there from the start. */
  lemma {:induction false} LastScan(s: State, es: seq<Event>, t: State) returns (k: int)
    requires Reaches(s, es, t) && t.pc.CheckReady?
    ensures -1 <= k < |es|
    ensures k >= 0 ==> es[k] == Operator && StateAt(s, es, k).pc.ScanPVCs? && NothingToWaitFor(StateAt(s, es, k))
    ensures forall j :: k < j <= |es| ==> StateAt(s, es, j).pc.CheckReady?
    decreases |es|
  {
    if es == [] {
      return -1;
    }
    var u, rest := Apply(s, es[0]), es[1..];
    k := LastScan(u, rest, t);
    forall j | k + 1 < j <= |es|
      ensures StateAt(s, es, j).pc.CheckReady?
    {
      assert StateAt(s, es, j) == StateAt(u, rest, j - 1);
    }
    if k >= 0 {
      assert StateAt(s, es, k + 1) == StateAt(u, rest, k);
      return k + 1;
    }
    assert StateAt(u, rest, 0).pc.CheckReady?;
    if !s.pc.CheckReady? {
      CheckReadyOnlyAfterScan(s, es[0]);
      return 0;
    }
  }

  /** In every run, when Resized is set all replicas are ready, and the same pass has earlier seen that no PVC it has to
      wait for is resizing. */
  lemma ResizedAfterScanAndReady(s: State, es: seq<Event>, t: State, e: Event) returns (k: nat)
    requires Init(s) && Reaches(s, es, t) && Enabled(t, e) && !t.c.resize.Resized? && Apply(t, e).c.resize.Resized?
    ensures t.sts.Some? && t.sts.value.readyReplicas == t.mem.replicas
    ensures k < |es| && es[k] == Operator && StateAt(s, es, k).pc.ScanPVCs? && NothingToWaitFor(StateAt(s, es, k))
    ensures forall j :: k < j <= |es| ==> StateAt(s, es, j).pc.CheckReady?
  {
    ResizedOnlyWhenReady(t, e);
    var last := LastScan(s, es, t);
    assert StateAt(s, es, 0) == s;
    k := last;
  }

  // ---------------------------------------------------------------------------------------------
  // The races that Undisturbed excludes
  // ---------------------------------------------------------------------------------------------

  /** The operator alone, for `n` steps. */
  function Steps(s: State, n: nat): State
    decreases n
  {
    if n == 0 then s else Steps(Step(s), n - 1)
  }

  /** A pass up to the Init phase changes only the Updated condition. */
  lemma PassUpToInit(s: State) returns (b: State)
    requires s.pc.Idle?
    ensures b == Step(Step(s)) && b == s.(pc := InitPhase, mem := s.spec, c := s.c.(update := b.c.update))
  {
    var a := Step(s);
    assert a == s.(pc := StatusPhase, mem := s.spec);
    b := Step(a);
  }

  /** From the Init phase to the end of the StatefulSet phase, when there is no StatefulSet and nothing waits for one. */
  lemma RestOfPassCreatesStatefulSet(b: State)
    requires b.pc.InitPhase? && b.sts.None? && !b.c.resize.WaitingResize?
    requires !(b.mem.bootstrap == Some(Physical) && !b.c.initialized)
    ensures var t := Step(Step(Step(b)));
            t.sts == Some(NewStatefulSet(b.mem.size)) && t.pvcs == b.pvcs
  {
    var c := Step(b);
    assert c == b.(pc := StoragePhase);
    var d := Step(c);
    assert d == c.(pc := StatefulSetPhase);
  }

  lemma PassCreatesStatefulSet(s: State)
    requires s.pc.Idle? && s.sts.None? && !s.c.resize.WaitingResize?
    requires !(s.spec.bootstrap == Some(Physical) && !s.c.initialized)
    ensures Steps(s, 5).sts == Some(NewStatefulSet(s.spec.size)) && Steps(s, 5).pvcs == s.pvcs
  {
    var b := PassUpToInit(s);
    RestOfPassCreatesStatefulSet(b);
    FiveSteps(s);
  }

  lemma FiveSteps(s: State)
    ensures Steps(s, 5) == Step(Step(Step(Step(Step(s)))))
  {
    var b := Step(Step(s));
    assert Steps(s, 5) == Steps(Step(s), 4) == Steps(b, 3);
    assert Steps(b, 3) == Steps(Step(b), 2) == Steps(Step(Step(b)), 1) == Steps(Step(Step(Step(b))), 0);
  }

  /** The size is edited while the StatefulSet is absent. The Storage phase skips the missing StatefulSet, the
      StatefulSet phase creates it with the new size, and the PVCs are never resized: the outcome is covered exactly
      when no PVC was smaller than the new size to begin with. */
  lemma EditWhileAbsent(s: State, size: nat)
    requires s.pc.Idle? && s.sts.None? && !s.c.resize.WaitingResize? && s.spec.size <= size
    requires !(s.spec.bootstrap == Some(Physical) && !s.c.initialized)
    ensures Covered(Steps(Apply(s, EditSize(size)), 5)) <==> AllAtLeast(s.pvcs, size)
  {
    PassCreatesStatefulSet(Apply(s, EditSize(size)));
  }

  /** Once the listed PVCs are patched: delete, let the deletion finish, recreate. */
  function Recreated(s: State): State
    requires s.pc.PatchPVCs? && s.pc.todo == {} && s.sts.Some?
  {
    Step(Apply(Step(Step(s)), FinishDelete))
  }

  /** The outcome is covered exactly when every PVC, listed or not, has the size that the object in memory has by
      now. */
  lemma RecreatedIsCoveredIff(s: State)
    requires s.pc.PatchPVCs? && s.pc.todo == {} && s.sts.Some?
    ensures Recreated(s).sts == Some(NewStatefulSet(s.mem.size)) && Recreated(s).pvcs == s.pvcs
    ensures Covered(Recreated(s)) <==> AllAtLeast(s.pvcs, s.mem.size)
  {
    var b := Step(s);
    var c := Step(b);
    assert c.pc.RecreateStatefulSet? && c.pvcs == s.pvcs && c.mem == s.mem;
  }

  /** A PVC that appears after the PVCs were listed and before the StatefulSet is deleted, as when the StatefulSet is
      being scaled up, keeps the size of the old template under the new StatefulSet. */
  lemma PVCAddedBehindTheList(s: State, i: nat)
    requires s.pc.PatchPVCs? && s.pc.todo == {} && Standing(s) && i !in s.pvcs && s.sts.value.size < s.mem.size
    ensures !Covered(Recreated(Apply(s, AddPVC(i))))
  {
    var a := Apply(s, AddPVC(i));
    RecreatedIsCoveredIff(a);
    assert a.pvcs[i].request < a.mem.size;
  }

  /** The PVCs that are left get the announced size, one by one. */
  lemma {:induction false} PatchRemaining(s: State) returns (es: seq<Event>, t: State)
    requires s.pc.PatchPVCs? && s.pc.todo <= s.pvcs.Keys
    ensures Reaches(s, es, t) && forall e :: e in es ==> e.PatchPVC?
    ensures t == s.(pc := PatchPVCs(s.pc.desired, {}), pvcs := t.pvcs) && t.pvcs.Keys == s.pvcs.Keys
    ensures forall i :: i in s.pvcs ==> t.pvcs[i].request == if i in s.pc.todo then s.pc.desired else s.pvcs[i].request
    decreases s.pc.todo
  {
    if s.pc.todo == {} {
      return [], s;
    }
    var i :| i in s.pc.todo;
    var u := Apply(s, PatchPVC(i));
    var rest;
    rest, t := PatchRemaining(u);
    es := [PatchPVC(i)] + rest;
    assert es[1..] == rest;
  }

  /** From the Storage phase to the point where every listed PVC is patched, with a size that is raised again after
      the pass has read it and before it announces the resize. */
  lemma EditedRun(s: State, size: nat) returns (es: seq<Event>, t: State)
    requires s.pc.StoragePhase? && ShouldReconcileStorage(s) && !s.c.resize.WaitingResize?
    requires s.sts.Some? && s.sts.value.size < s.mem.size <= s.spec.size < size && s.spec.resizeInUse
    ensures Reaches(s, [EditSize(size), Operator, Operator] + es, t)
    ensures t.pc == PatchPVCs(s.mem.size, {}) && t.sts == s.sts && t.mem.size == size && t.pvcs.Keys == s.pvcs.Keys
    ensures forall i :: i in t.pvcs ==> t.pvcs[i].request == s.mem.size
  {
    var edited := Apply(s, EditSize(size));
    assert ShouldReconcileStorage(edited);
    var announced := Step(edited);
    assert announced.pc == ListPVCs(s.mem.size) && announced.mem == edited.spec && announced.pvcs == s.pvcs && announced.sts == s.sts;
    var listed := Step(announced);
    assert listed == announced.(pc := PatchPVCs(s.mem.size, s.pvcs.Keys));
    es, t := PatchRemaining(listed);
    var all := [EditSize(size), Operator, Operator] + es;
    assert all[1..][1..][1..] == es;
    assert Reaches(listed, all[1..][1..][1..], t);
    assert Reaches(announced, all[1..][1..], t);
    assert Reaches(edited, all[1..], t);
  }

  /** Such an edit leaves every PVC smaller than the recreated StatefulSet: they get the size that was read, the
      StatefulSet the later one. */
  lemma EditBeforeAnnouncement(s: State, size: nat) returns (es: seq<Event>, t: State)
    requires s.pc.StoragePhase? && ShouldReconcileStorage(s) && !s.c.resize.WaitingResize?
    requires s.sts.Some? && s.sts.value.size < s.mem.size <= s.spec.size < size && s.spec.resizeInUse
    ensures Reaches(s, [EditSize(size), Operator, Operator] + es, t)
    ensures t.pc.PatchPVCs? && t.pc.todo == {} && t.sts.Some?
    ensures Covered(Recreated(t)) <==> s.pvcs == map[]
  {
    es, t := EditedRun(s, size);
    RecreatedIsCoveredIff(t);
    if s.pvcs != map[] {
      var i :| i in s.pvcs;
      assert i in t.pvcs && t.pvcs[i].request < t.mem.size;
    }
  }
}

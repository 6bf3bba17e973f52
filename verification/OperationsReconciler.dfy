/** The phases of Operations as the code runs them: loops over Pods and PVCs, early returns, writes in order. */
module OperationsReconciler {
  import opened Prelude
  import opened Operations

  lemma CountUpdatedPrefix(pods: seq<Option<string>>, revision: string, i: nat)
    requires i < |pods|
    ensures CountUpdated(pods[..i + 1], revision) ==
            CountUpdated(pods[..i], revision) + if pods[i] == Some(revision) then 1 else 0
  {
    assert pods[..i + 1][..i] == pods[..i];
  }

  /** The listed Pods that carry the update revision. */
  function UpdatedPods(pods: seq<Option<string>>, revision: string): set<int> {
    set i | 0 <= i < |pods| && pods[i] == Some(revision)
  }

  lemma {:induction false} CountUpdatedIsCardinality(pods: seq<Option<string>>, revision: string)
    ensures CountUpdated(pods, revision) == |UpdatedPods(pods, revision)|
  {
    if pods != [] {
      var n := |pods| - 1;
      CountUpdatedIsCardinality(pods[..n], revision);
      var rest := UpdatedPods(pods[..n], revision);
      assert n !in rest;
      assert UpdatedPods(pods, revision) == if pods[n] == Some(revision) then rest + {n} else rest;
    }
  }

  /** The condition says what it seems to say: an update is in progress exactly when some Pod, but not as many as
      there are replicas, has the update revision. */
  lemma UpdateConditionMeaning(s: State)
    requires s.sts.Some? && s.sts.value.updateRevision != ""
    ensures var updated := UpdatedPods(s.pods, s.sts.value.updateRevision);
            && (UpdateAfter(s).Updated? <==> |updated| >= s.mem.replicas)
            && (UpdateAfter(s).Updating? <==> updated != {} && |updated| < s.mem.replicas)
            && (UpdateAfter(s).PendingUpdate? <==> updated == {} && s.mem.replicas > 0)
  {
    CountUpdatedIsCardinality(s.pods, s.sts.value.updateRevision);
  }

  /** Every PVC asks for exactly `size`; nothing else about them changes. */
  ghost predicate ResizedTo(before: map<nat, PVC>, after: map<nat, PVC>, size: nat) {
    && after.Keys == before.Keys
    && forall i :: i in before ==> after[i] == before[i].(request := size)
  }

  /** Nothing stands in the way of a resize and the object in memory asks for one. */
  predicate ResizeDue(s: State) {
    && !s.c.backup.Restoring? && !s.c.update.Updating? && !s.c.switching && !s.c.galeraNotReady && !s.mem.ephemeral
    && !s.c.resize.WaitingResize?
    && s.sts.Some? && s.sts.value.size < s.mem.size
  }

  /** A resize that has only to be reported. */
  predicate StorageSettled(s: State) {
    && !s.c.backup.Restoring? && !s.c.update.Updating? && !s.c.switching && !s.c.galeraNotReady && !s.mem.ephemeral
    && s.c.resize.WaitingResize?
    && !AnyResizing(s.pvcs) && s.sts.Some? && s.sts.value.readyReplicas == s.mem.replicas
  }

  predicate SizesAgree(s: State) {
    !s.c.resize.WaitingResize? && s.sts.Some? && s.sts.value.size == s.mem.size
  }

  /** No other operation is under way and the bootstrap source is a logical backup. */
  predicate RestoreAllowed(s: State) {
    && !s.c.update.Updating? && !s.c.resize.Resizing? && !s.c.resize.WaitingResize?
    && !s.c.switching && !s.c.galeraNotReady && s.mem.bootstrap == Some(Logical)
  }

  predicate RestoreDue(s: State) {
    RestoreAllowed(s) && s.c.backup.BackupUnset? && s.healthy && s.restore.None?
  }

  predicate RestoreFinished(s: State) {
    RestoreAllowed(s) && s.c.backup.Restoring? && s.restore == Some(true)
  }

  /** The phases of a pass, in order. */
  function Phase(i: nat): Pc {
    match i
    case 0 => StatusPhase
    case 1 => InitPhase
    case 2 => StoragePhase
    case 3 => StatefulSetPhase
    case 4 => RestorePhase
    case _ => Idle
  }

  /** Nothing is left to do in any phase. */
  predicate Settled(s: State) {
    && (StatusKeepsConditions(s) || UpdateAfter(s.(mem := s.spec)) == s.c.update)
    && !(s.spec.bootstrap == Some(Physical) && !s.c.initialized)
    && (ShouldReconcileStorage(s.(mem := s.spec)) ==> SizesAgree(s.(mem := s.spec)))
    && s.sts.Some?
    && !RestoreDue(s.(mem := s.spec)) && !RestoreFinished(s.(mem := s.spec))
  }

  lemma SettledAtPhase(s: State, pc: Pc)
    requires Settled(s)
    ensures Settled(s.(pc := pc, mem := s.spec))
  {
    var t := s.(pc := pc, mem := s.spec);
    assert UpdateAfter(t) == UpdateAfter(s.(mem := s.spec));
    assert t.(mem := t.spec) == t;
  }

  class MariaDBReconciler {
    var cluster: State

    constructor (cluster: State)
      ensures this.cluster == cluster
    {
      this.cluster := cluster;
    }

    /** setUpdatedCondition: counts the Pods whose revision label is the StatefulSet's update revision. */
    method SetUpdatedCondition() returns (update: Update)
      ensures update == UpdateAfter(cluster)
    {
      if cluster.sts.None? || cluster.sts.value.updateRevision == "" {
        return cluster.c.update;
      }
      var revision := cluster.sts.value.updateRevision;
      var podsUpdated := 0;
      for i := 0 to |cluster.pods|
        invariant podsUpdated == CountUpdated(cluster.pods[..i], revision)
      {
        CountUpdatedPrefix(cluster.pods, revision, i);
        if cluster.pods[i] == Some(revision) {
          podsUpdated := podsUpdated + 1;
        }
      }
      assert cluster.pods[..|cluster.pods|] == cluster.pods;
      if podsUpdated >= cluster.mem.replicas {
        update := Updated;
      } else if podsUpdated > 0 {
        update := Updating;
      } else {
        update := PendingUpdate;
      }
    }

    method ReconcileStatus() returns (ghost es: seq<Event>)
      requires cluster.pc.StatusPhase?
      modifies this
      ensures Reaches(old(cluster), es, cluster) && cluster.pc == InitPhase
      ensures cluster == old(cluster).(pc := InitPhase, mem := cluster.spec, c := cluster.c)
      ensures cluster.c == old(cluster.c).(update := cluster.c.update)
      ensures var s := old(cluster);
              if s.maxScaleMissing || s.c.backup.Restoring? || s.c.resize.Resizing? || s.c.resize.WaitingResize?
                 || s.c.switching || s.c.galeraNotReady || s.sts.None? || s.sts.value.updateRevision == ""
              then cluster.c == s.c
              else
                var updated := UpdatedPods(s.pods, s.sts.value.updateRevision);
                && (cluster.c.update.Updated? <==> |updated| >= s.mem.replicas)
                && (cluster.c.update.Updating? <==> updated != {} && |updated| < s.mem.replicas)
                && (cluster.c.update.PendingUpdate? <==> updated == {} && s.mem.replicas > 0)
      ensures cluster.c.update == if StatusKeepsConditions(old(cluster)) then old(cluster.c.update) else UpdateAfter(old(cluster))
    {
      ghost var start := cluster;
      ReachesAppend(start, [], start, Operator);
      es := [] + [Operator];
      var update := cluster.c.update;
      if !StatusKeepsConditions(cluster) {
        update := SetUpdatedCondition();
        if start.sts.Some? && start.sts.value.updateRevision != "" {
          UpdateConditionMeaning(start);
        }
      }
      cluster := PatchStatus(cluster, cluster.c.(update := update)).(pc := InitPhase);
    }

    /** resizeInUsePVCs: afterwards every PVC requests the desired size. */
    method ResizeInUsePVCs() returns (ghost es: seq<Event>)
      requires cluster.pc.ListPVCs?
      modifies this
      ensures Reaches(old(cluster), es, cluster)
      ensures cluster == old(cluster).(pc := DeleteStatefulSet(old(cluster.pc.desired)), pvcs := cluster.pvcs)
      ensures if cluster.mem.resizeInUse then ResizedTo(old(cluster.pvcs), cluster.pvcs, old(cluster.pc.desired))
              else cluster.pvcs == old(cluster.pvcs)
    {
      ghost var start := cluster;
      var size := cluster.pc.desired;
      var todo := if cluster.mem.resizeInUse then cluster.pvcs.Keys else {};
      ReachesAppend(start, [], start, Operator);
      es := [] + [Operator];
      cluster := cluster.(pc := PatchPVCs(size, todo));
      ghost var all := todo;
      while todo != {}
        invariant todo <= all <= start.pvcs.Keys
        invariant cluster == start.(pc := PatchPVCs(size, todo), pvcs := cluster.pvcs)
        invariant cluster.pvcs.Keys == start.pvcs.Keys
        invariant forall i :: i in start.pvcs ==>
                    cluster.pvcs[i] == if i in all - todo then start.pvcs[i].(request := size) else start.pvcs[i]
        invariant Reaches(start, es, cluster)
        decreases todo
      {
        var i :| i in todo;
        ReachesAppend(start, es, cluster, PatchPVC(i));
        es := es + [PatchPVC(i)];
        todo := todo - {i};
        cluster := cluster.(pc := PatchPVCs(size, todo), pvcs := cluster.pvcs[i := cluster.pvcs[i].(request := size)]);
      }
      ReachesAppend(start, es, cluster, Operator);
      es := es + [Operator];
      cluster := cluster.(pc := DeleteStatefulSet(size));
      assert !cluster.mem.resizeInUse ==> cluster.pvcs == start.pvcs;
    }

    /** resizeStatefulSet. `gone` says whether the orphaning deletion finishes before the StatefulSet is read again;
        otherwise the recreation is left to a later pass. */
    method ResizeStatefulSet(gone: bool) returns (ghost es: seq<Event>)
      requires cluster.pc.DeleteStatefulSet? && cluster.sts.Some?
      modifies this
      ensures Reaches(old(cluster), es, cluster)
      ensures cluster == old(cluster).(pc := AnnounceWaiting, sts := cluster.sts,
                                       h := old(cluster.h).(stsSize := cluster.h.stsSize))
      ensures cluster.sts == Some(if gone then NewStatefulSet(cluster.mem.size) else old(cluster.sts.value).(deleting := true))
    {
      ghost var start := cluster;
      ReachesAppend(start, [], start, Operator);
      es := [] + [Operator];
      var size := cluster.pc.desired;
      cluster := cluster.(sts := Some(cluster.sts.value.(deleting := true)), pc := RecreateStatefulSet(size));
      if gone {
        ReachesAppend(start, es, cluster, FinishDelete);
        es := es + [FinishDelete];
        cluster := cluster.(sts := None);
      }
      ReachesAppend(start, es, cluster, Operator);
      es := es + [Operator];
      cluster := EnsureStatefulSet(cluster).(pc := AnnounceWaiting);
    }

    /** The scan of waitForStorageResize: stops at the first PVC that is resizing. */
    method PVCResizing() returns (resizing: bool)
      ensures resizing == AnyResizing(cluster.pvcs)
      ensures resizing <==> exists i :: i in cluster.pvcs && cluster.pvcs[i].resizing
    {
      var todo := cluster.pvcs.Keys;
      while todo != {}
        invariant todo <= cluster.pvcs.Keys
        invariant forall i :: i in cluster.pvcs.Keys - todo ==> !cluster.pvcs[i].resizing
        decreases todo
      {
        var i :| i in todo;
        if cluster.pvcs[i].resizing {
          return true;
        }
        todo := todo - {i};
      }
      return false;
    }

    /** waitForStorageResize: Resized is announced exactly when no PVC that has to be waited for is resizing and all
        replicas are ready. */
    method WaitForStorageResize() returns (outcome: Outcome, ghost es: seq<Event>)
      requires cluster.pc.ScanPVCs?
      modifies this
      ensures Reaches(old(cluster), es, cluster)
      ensures cluster == old(cluster).(pc := cluster.pc, mem := cluster.mem, c := old(cluster.c).(resize := cluster.c.resize))
      ensures cluster.c.resize.Resized? && !old(cluster.c.resize).Resized? ==>
                outcome == Proceed && cluster.sts.Some? && cluster.sts.value.readyReplicas == old(cluster.mem.replicas)
      ensures outcome == Proceed <==>
                && !(old(cluster.mem.resizeInUse) && old(cluster.mem.waitForResize) && AnyResizing(cluster.pvcs))
                && cluster.sts.Some? && cluster.sts.value.readyReplicas == old(cluster.mem.replicas)
      ensures outcome == Proceed ==> cluster.c.resize.Resized?
      ensures cluster.pc == if outcome == Proceed || outcome == SkipPhase then StatefulSetPhase else Idle
      ensures outcome != Proceed ==> cluster.c == old(cluster.c)
    {
      ghost var start := cluster;
      es := [];
      var resizing := PVCResizing();
      if cluster.mem.resizeInUse && cluster.mem.waitForResize && resizing {
        ReachesAppend(start, [], cluster, Operator);
        es := [] + [Operator];
        cluster := cluster.(pc := Idle);
        return RequeueAfter(1), es;
      }
      ReachesAppend(start, [], cluster, Operator);
      es := [] + [Operator];
      cluster := cluster.(pc := CheckReady);
      ReachesAppend(start, es, cluster, Operator);
      es := es + [Operator];
      if cluster.sts.None? {
        cluster := cluster.(pc := StatefulSetPhase);
        return SkipPhase, es;
      }
      if cluster.sts.value.readyReplicas != cluster.mem.replicas {
        cluster := cluster.(pc := Idle);
        return RequeueAfter(1), es;
      }
      cluster := PatchStatus(cluster, cluster.c.(resize := Resized)).(pc := StatefulSetPhase);
      outcome := Proceed;
    }

    /** reconcileStorage. */
    method ReconcileStorage(gone: bool) returns (outcome: Outcome, ghost es: seq<Event>)
      requires cluster.pc.StoragePhase?
      modifies this
      ensures Reaches(old(cluster), es, cluster)
      ensures cluster.pc == if outcome == Proceed || outcome == SkipPhase then StatefulSetPhase else Idle
      ensures cluster == old(cluster).(pc := cluster.pc, mem := cluster.mem, c := old(cluster.c).(resize := cluster.c.resize),
                                       sts := cluster.sts, pvcs := cluster.pvcs, h := old(cluster.h).(stsSize := cluster.h.stsSize))
      ensures ResizeDue(old(cluster)) ==>
                && (if cluster.spec.resizeInUse then ResizedTo(old(cluster.pvcs), cluster.pvcs, old(cluster.mem.size))
                    else cluster.pvcs == old(cluster.pvcs))
                && cluster.sts == Some(if gone then NewStatefulSet(cluster.spec.size) else old(cluster.sts.value).(deleting := true))
                && (cluster.c.resize.WaitingResize? || cluster.c.resize.Resized?)
      ensures !ResizeDue(old(cluster)) ==>
                && cluster.sts == old(cluster.sts) && cluster.pvcs == old(cluster.pvcs)
                && (cluster.c != old(cluster.c) ==>
                      && old(cluster.c.resize).WaitingResize? && cluster.c.resize.Resized?
                      && !(old(cluster.mem.resizeInUse) && old(cluster.mem.waitForResize) && AnyResizing(cluster.pvcs))
                      && cluster.sts.Some? && cluster.sts.value.readyReplicas == old(cluster.mem.replicas))
      ensures StorageSettled(old(cluster)) ==> cluster.c.resize.Resized? && outcome == Proceed
      ensures var s := old(cluster);
              s.c.backup.Restoring? || s.c.update.Updating? || s.c.switching || s.c.galeraNotReady || s.mem.ephemeral
              || SizesAgree(s) ==>
                outcome == Proceed && cluster == s.(pc := StatefulSetPhase)
      ensures var s := old(cluster);
              && !s.c.backup.Restoring? && !s.c.update.Updating? && !s.c.switching && !s.c.galeraNotReady && !s.mem.ephemeral
              && !s.c.resize.WaitingResize? ==>
                && (s.sts.None? ==> outcome == SkipPhase && cluster == s.(pc := StatefulSetPhase))
                && (s.sts.Some? && s.mem.size < s.sts.value.size ==> outcome == Failed && cluster == s.(pc := Idle))
    {
      ghost var start := cluster;
      ReachesAppend(start, [], start, Operator);
      es := [] + [Operator];
      if !ShouldReconcileStorage(cluster) {
        cluster := cluster.(pc := StatefulSetPhase);
        return Proceed, es;
      }
      ghost var es1;
      if cluster.c.resize.WaitingResize? {
        cluster := cluster.(pc := ScanPVCs);
        ghost var scanning := cluster;
        outcome, es1 := WaitForStorageResize();
        ReachesTrans(start, es, scanning, es1, cluster);
        es := es + es1;
        return;
      }
      if cluster.sts.None? {
        cluster := cluster.(pc := StatefulSetPhase);
        return SkipPhase, es;
      }
      if cluster.mem.size == cluster.sts.value.size {
        cluster := cluster.(pc := StatefulSetPhase);
        return Proceed, es;
      }
      if cluster.mem.size < cluster.sts.value.size {
        cluster := cluster.(pc := Idle);
        return Failed, es;
      }
      cluster := PatchStatus(cluster, cluster.c.(resize := Resizing)).(pc := ListPVCs(cluster.mem.size));
      ghost var announced := cluster;
      outcome, es1 := Resize(gone);
      ReachesTrans(start, es, announced, es1, cluster);
      es := es + es1;
    }

    /** The part of reconcileStorage after the announcement. */
    method Resize(gone: bool) returns (outcome: Outcome, ghost es: seq<Event>)
      requires cluster.pc.ListPVCs? && cluster.sts.Some? && cluster.mem == cluster.spec
      modifies this
      ensures Reaches(old(cluster), es, cluster)
      ensures cluster.pc == if outcome == Proceed || outcome == SkipPhase then StatefulSetPhase else Idle
      ensures cluster == old(cluster).(pc := cluster.pc, mem := cluster.mem, c := old(cluster.c).(resize := cluster.c.resize),
                                       sts := cluster.sts, pvcs := cluster.pvcs, h := old(cluster.h).(stsSize := cluster.h.stsSize))
      ensures if cluster.spec.resizeInUse then ResizedTo(old(cluster.pvcs), cluster.pvcs, old(cluster.pc.desired))
              else cluster.pvcs == old(cluster.pvcs)
      ensures cluster.sts == Some(if gone then NewStatefulSet(cluster.spec.size) else old(cluster.sts.value).(deleting := true))
      ensures cluster.c.resize.WaitingResize? || cluster.c.resize.Resized?
    {
      ghost var start := cluster;
      es := ResizeInUsePVCs();
      ghost var patched := cluster;
      ghost var es1 := ResizeStatefulSet(gone);
      ReachesTrans(start, es, patched, es1, cluster);
      es := es + es1;
      ReachesAppend(start, es, cluster, Operator);
      es := es + [Operator];
      cluster := PatchStatus(cluster, cluster.c.(resize := WaitingResize)).(pc := ScanPVCs);
      ghost var waiting := cluster;
      outcome, es1 := WaitForStorageResize();
      ReachesTrans(start, es, waiting, es1, cluster);
      es := es + es1;
    }

    method ReconcileStatefulSet() returns (ghost es: seq<Event>)
      requires cluster.pc.StatefulSetPhase?
      modifies this
      ensures Reaches(old(cluster), es, cluster)
      ensures cluster == old(cluster).(pc := RestorePhase, sts := cluster.sts, h := cluster.h)
      ensures cluster.sts == if old(cluster.sts).Some? then old(cluster.sts) else Some(NewStatefulSet(cluster.mem.size))
      ensures old(cluster.sts).None? ==> cluster.sts.value.size == cluster.mem.size && !cluster.sts.value.deleting
      ensures cluster.h == old(cluster.h).(stsSize := cluster.h.stsSize) && (old(cluster.sts).Some? ==> cluster.h == old(cluster.h))
    {
      ReachesAppend(cluster, [], cluster, Operator);
      es := [] + [Operator];
      if cluster.sts.None? {
        cluster := cluster.(sts := Some(NewStatefulSet(cluster.mem.size)), h := cluster.h.(stsSize := cluster.mem.size));
      }
      cluster := cluster.(pc := RestorePhase);
    }

    /** reconcileRestore: creates the Restore object exactly when one is due, and reports the backup restored exactly
        when a restore under way has completed. */
    method ReconcileRestore() returns (ghost es: seq<Event>)
      requires cluster.pc.RestorePhase?
      modifies this
      ensures Reaches(old(cluster), es, cluster) && cluster.pc == Idle
      ensures cluster == old(cluster).(pc := Idle, mem := cluster.mem, c := old(cluster.c).(backup := cluster.c.backup),
                                       restore := cluster.restore, h := old(cluster.h).(restores := cluster.h.restores))
      ensures RestoreDue(old(cluster)) ==>
                && cluster.restore == Some(false) && cluster.c.backup.Restoring?
                && cluster.h.restores == old(cluster.h.restores) + 1
      ensures RestoreFinished(old(cluster)) ==>
                cluster.restore == None && cluster.c.backup.Restored? && cluster.h == old(cluster.h)
      ensures !RestoreDue(old(cluster)) && !RestoreFinished(old(cluster)) ==> cluster == old(cluster).(pc := Idle)
    {
      ghost var start := cluster;
      ReachesAppend(start, [], start, Operator);
      es := [] + [Operator];
      if !ShouldReconcileRestore(cluster) {
        cluster := cluster.(pc := Idle);
        return;
      }
      if cluster.c.backup.Restoring? {
        if cluster.restore != Some(true) {
          cluster := cluster.(pc := Idle);
          return;
        }
        cluster := cluster.(restore := None, pc := MarkRestored);
        ReachesAppend(start, es, cluster, Operator);
        es := es + [Operator];
        cluster := PatchStatus(cluster, cluster.c.(backup := Restored)).(pc := Idle);
        return;
      }
      if !cluster.healthy || cluster.restore.Some? {
        cluster := cluster.(pc := Idle);
        return;
      }
      cluster := PatchStatus(cluster, cluster.c.(backup := Restoring)).(pc := CreateRestore);
      ReachesAppend(start, es, cluster, Operator);
      es := es + [Operator];
      cluster := cluster.(restore := Some(false), pc := Idle, h := cluster.h.(restores := cluster.h.restores + 1));
    }

    /** The Init phase, as far as the later phases see it: a physical init that has not finished ends the pass. */
    method ReconcileInit() returns (outcome: Outcome, ghost es: seq<Event>)
      requires cluster.pc.InitPhase?
      modifies this
      ensures Reaches(old(cluster), es, cluster)
      ensures outcome == if cluster.mem.bootstrap == Some(Physical) && !cluster.c.initialized then RequeueAfter(1) else Proceed
      ensures cluster == old(cluster).(pc := if outcome == Proceed then StoragePhase else Idle)
    {
      ReachesAppend(cluster, [], cluster, Operator);
      es := [] + [Operator];
      if cluster.mem.bootstrap == Some(Physical) && !cluster.c.initialized {
        cluster := cluster.(pc := Idle);
        return RequeueAfter(1), es;
      }
      cluster := cluster.(pc := StoragePhase);
      return Proceed, es;
    }

    /** The phase the pass is at. */
    method ReconcilePhase(i: nat, gone: bool) returns (outcome: Outcome, ghost es: seq<Event>)
      requires i < 5 && cluster.pc == Phase(i)
      modifies this
      ensures Reaches(old(cluster), es, cluster)
      ensures cluster.pc == if outcome == Proceed || outcome == SkipPhase then Phase(i + 1) else Idle
      ensures Settled(old(cluster)) && old(cluster.mem) == old(cluster.spec) ==>
                outcome == Proceed && cluster == old(cluster).(pc := cluster.pc)
    {
      outcome := Proceed;
      match cluster.pc {
        case StatusPhase =>
          es := ReconcileStatus();
        case InitPhase =>
          outcome, es := ReconcileInit();
        case StoragePhase =>
          outcome, es := ReconcileStorage(gone);
        case StatefulSetPhase =>
          es := ReconcileStatefulSet();
        case RestorePhase =>
          es := ReconcileRestore();
      }
    }

    /** One pass over the phases, in order: a phase that asks for a requeue or fails ends the pass, a phase that is
        skipped does not. A settled MariaDB is left as it is. */
    method Reconcile(gone: bool) returns (ghost es: seq<Event>)
      requires cluster.pc.Idle?
      modifies this
      ensures Reaches(old(cluster), es, cluster) && cluster.pc == Idle
      ensures Settled(old(cluster)) ==> cluster == old(cluster).(mem := cluster.spec)
    {
      ghost var start := cluster;
      ReachesAppend(start, [], start, Operator);
      es := [] + [Operator];
      cluster := cluster.(pc := StatusPhase, mem := cluster.spec);
      var i := 0;
      while i < 5
        invariant 0 <= i <= 5 && cluster.pc == Phase(i)
        invariant Reaches(start, es, cluster)
        invariant Settled(start) ==> cluster == start.(pc := Phase(i), mem := start.spec)
      {
        if Settled(start) {
          SettledAtPhase(start, Phase(i));
        }
        ghost var before := cluster;
        var outcome, es1 := ReconcilePhase(i, gone);
        ReachesTrans(start, es, before, es1, cluster);
        es := es + es1;
        if outcome != Proceed && outcome != SkipPhase {
          return;
        }
        i := i + 1;
      }
    }
  }

  /** The cluster does its part: the volumes finish resizing and the Pods become ready. */
  function ClusterSettles(s: State): State
    requires s.sts.Some?
  {
    s.(sts := Some(s.sts.value.(readyReplicas := s.spec.replicas)),
       pvcs := map i | i in s.pvcs :: s.pvcs[i].(resizing := false))
  }

  /** Progress: once a pass gets through the writes of a resize uninterrupted and the cluster settles, the next pass
      reports the storage resized, with the StatefulSet and every PVC at the desired size. */
  method ResizeToCompletion(r: MariaDBReconciler)
    requires r.cluster.pc.StoragePhase? && ResizeDue(r.cluster) && r.cluster.mem == r.cluster.spec
    requires r.cluster.spec.resizeInUse && !(r.cluster.spec.bootstrap == Some(Physical) && !r.cluster.c.initialized)
    modifies r
    ensures r.cluster.c == old(r.cluster.c).(resize := Resized) && r.cluster.spec == old(r.cluster.spec)
    ensures r.cluster.sts.Some? && r.cluster.sts.value.size == r.cluster.spec.size
    ensures r.cluster.pvcs.Keys == old(r.cluster.pvcs.Keys)
    ensures forall i :: i in r.cluster.pvcs ==> r.cluster.pvcs[i].request == r.cluster.spec.size
  {
    var first, _ := r.ReconcileStorage(true);
    if r.cluster.c.resize.Resized? {
      return;
    }
    r.cluster := ClusterSettles(r.cluster).(pc := StatusPhase, mem := r.cluster.spec);
    ghost var _ := r.ReconcileStatus();
    var initialized, _ := r.ReconcileInit();
    assert !AnyResizing(r.cluster.pvcs);
    var second, _ := r.ReconcileStorage(true);
  }
}

/** Bootstrapping from a physical backup: PVCs, one restore Job per index, and a StatefulSet that grows one Pod
    at a time behind the completed Jobs. A pass of the operator is a sequence of single writes, any of which may
    be the last one before a crash, interleaved with everything else that happens in the cluster. */
module PhysicalInit {
  import opened Prelude

  /** The Initialized condition: absent, False/Initializing, False/InitError, True. */
  datatype Condition = Unset | Initializing | InitError | Initialized

  /** Where the pass is; `n` is spec.replicas as read at the start of the pass. */
  datatype Pc =
    | Idle
    | Provisioning(n: nat, i: nat)   // reconcilePVCs
    | Rolling(n: nat, i: nat)        // about to look at init Job i
    | Waiting(n: nat, i: nat)        // about to look at Pod i
    | Cleaning(n: nat, i: nat)       // cleanupInitJobs
    | Finishing(n: nat)              // staging PVC cleanup and the final status patch

  /** What has happened so far in the run. */
  datatype History = History(
    sawNoPVCs: bool,          // some pass listed zero storage PVCs while not initializing or in error
    restored: set<nat>,       // indices whose init Job has completed
    started: set<nat>,        // indices whose Pod has existed
    scheduled: set<nat>,      // indices whose Pod has been scheduled
    cleaned: bool,            // some pass has started to delete the Jobs
    overwritten: set<nat>     // indices whose Job was created although their Pod had already started
  )

  datatype State = State(
    pc: Pc,
    replicas: nat,
    fromSnapshot: bool,
    snapshotReady: bool,
    condition: Condition,
    pvcs: set<nat>,
    jobs: map<nat, bool>,     // init Jobs, and whether they have completed
    sts: Option<nat>,         // spec.replicas of the StatefulSet
    stsStatus: nat,           // status.replicas of the StatefulSet
    pods: map<nat, bool>,     // Pods, and whether they have been scheduled
    h: History
  )

  datatype Event =
    | Operator
    | Crash
    | StatefulSetPhase        // runs in the passes in which the Init phase proceeds
    | CompleteJob(job: nat)
    | StartPod(pod: nat)
    | SchedulePod(pod: nat)
    | LosePod(pod: nat)
    | ObserveReplicas(count: nat)
    | EditReplicas(desired: nat)
    | RemovePVC(pvc: nat)
    | SetSnapshotReady(ready: bool)

  /** The operator's next write. */
  function Step(s: State): State {
    match s.pc
    case Idle =>
      if s.condition.Initialized? then s
      else if !s.condition.Initializing? && s.pvcs != {} then s.(condition := InitError)
      else s.(condition := Initializing, pc := Provisioning(s.replicas, 0),
              h := s.h.(sawNoPVCs := s.h.sawNoPVCs || !s.condition.Initializing?))
    case Provisioning(n, i) =>
      if s.fromSnapshot && !s.snapshotReady && i == 0 then s.(pc := Idle)
      else if i < n then s.(pvcs := s.pvcs + {i}, pc := Provisioning(n, i + 1))
      else s.(pc := if s.fromSnapshot then Finishing(n) else Rolling(n, 0))
    case Rolling(n, i) =>
      if i >= n then s.(pc := Cleaning(n, 0))
      else if i !in s.jobs then
        s.(jobs := s.jobs[i := false], pc := Idle,
           h := s.h.(overwritten := s.h.overwritten + if i in s.h.started then {i} else {}))
      else if !s.jobs[i] then s.(pc := Idle)
      else s.(sts := if s.sts.Some? && s.stsStatus >= i + 1 then s.sts else Some(i + 1), pc := Waiting(n, i))
    case Waiting(n, i) =>
      if i in s.pods && s.pods[i] then s.(pc := Rolling(n, i + 1)) else s.(pc := Idle)
    case Cleaning(n, i) =>
      if i < n then s.(jobs := s.jobs - {i}, pc := Cleaning(n, i + 1), h := s.h.(cleaned := true))
      else s.(pc := Finishing(n))
    case Finishing(n) => s.(condition := Initialized, pc := Idle)
  }

  predicate Enabled(s: State, e: Event) {
    match e
    case StatefulSetPhase => s.pc.Idle? && s.condition.Initialized?
    case CompleteJob(i) => i in s.jobs
    case StartPod(i) => s.sts.Some? && i < s.sts.value && i !in s.pods
    case SchedulePod(i) => i in s.pods
    case _ => true
  }

  function Apply(s: State, e: Event): State
    requires Enabled(s, e)
  {
    match e
    case Operator => Step(s)
    case Crash => s.(pc := Idle)
    case StatefulSetPhase => s.(sts := Some(s.replicas))
    case CompleteJob(i) => s.(jobs := s.jobs[i := true], h := s.h.(restored := s.h.restored + {i}))
    case StartPod(i) => s.(pods := s.pods[i := false], h := s.h.(started := s.h.started + {i}))
    case SchedulePod(i) => s.(pods := s.pods[i := true], h := s.h.(scheduled := s.h.scheduled + {i}))
    case LosePod(i) => s.(pods := s.pods - {i})
    case ObserveReplicas(k) => s.(stsStatus := k)
    case EditReplicas(n) => s.(replicas := n)
    case RemovePVC(i) => s.(pvcs := s.pvcs - {i})
    case SetSnapshotReady(b) => s.(snapshotReady := b)
  }

  ghost predicate Reaches(s: State, es: seq<Event>, t: State)
    decreases |es|
  {
    if es == [] then s == t else Enabled(s, es[0]) && Reaches(Apply(s, es[0]), es[1..], t)
  }

  /** A MariaDB that has just been created, possibly in a namespace with leftover PVCs. */
  ghost predicate Init(s: State) {
    && s.pc == Idle && s.condition == Unset && s.jobs == map[] && s.sts == None && s.pods == map[]
    && s.h == History(false, {}, {}, {}, false, {})
  }

  // ---------------------------------------------------------------------------------------------
  // The invariant
  // ---------------------------------------------------------------------------------------------

  predicate Completed(s: State, i: nat) {
    i in s.jobs && s.jobs[i]
  }

  /** The Jobs 0..k-1 have completed. */
  ghost predicate CompletedPrefix(s: State, k: nat) {
    forall j: nat :: j < k ==> Completed(s, j)
  }

  ghost predicate AllDone(s: State, k: nat) {
    forall j: nat :: j < k ==> j in s.h.restored && j in s.h.scheduled
  }

  ghost predicate PcOk(s: State) {
    && (!s.pc.Idle? ==> s.condition == Initializing)
    && (s.pc.Rolling? || s.pc.Waiting? || s.pc.Cleaning? ==> !s.fromSnapshot)
    && (s.pc.Rolling? && !s.h.cleaned ==> CompletedPrefix(s, s.pc.i))
    && (s.pc.Waiting? && !s.h.cleaned ==> CompletedPrefix(s, s.pc.i + 1))
    && (s.pc.Rolling? ==> s.pc.i <= s.pc.n && AllDone(s, s.pc.i))
    && (s.pc.Waiting? ==> s.pc.i < s.pc.n && AllDone(s, s.pc.i) && s.pc.i in s.h.restored)
    && (s.pc.Cleaning? ==> AllDone(s, s.pc.n))
    && (s.pc.Finishing? && !s.fromSnapshot ==> AllDone(s, s.pc.n))
    && (InCleanup(s) ==> 0 !in s.jobs)
  }

  /** The pass has deleted a Job and has not set Initialized yet. */
  predicate InCleanup(s: State) {
    (s.pc.Cleaning? && s.pc.i > 0 && s.pc.n > 0) || (s.pc.Finishing? && !s.fromSnapshot && s.pc.n > 0)
  }

  ghost predicate HistoryOk(s: State) {
    && (forall i :: Completed(s, i) ==> i in s.h.restored)
    && (forall i :: i in s.pods ==> i in s.h.started && (s.pods[i] ==> i in s.h.scheduled))
    && s.h.scheduled <= s.h.started
    && (s.condition == Initializing || s.condition == Initialized || s.jobs != map[] ==> s.h.sawNoPVCs)
    && (!s.pc.Idle? ==> s.h.sawNoPVCs)
    && (s.fromSnapshot ==> s.jobs == map[])
  }

  /** Up to the first Job clean-up: the StatefulSet and everything it has ever started stay behind the Jobs. */
  ghost predicate BehindJobs(s: State) {
    && (s.sts.Some? ==> CompletedPrefix(s, s.sts.value))
    && (forall i :: i in s.h.started ==> Completed(s, i))
    && s.h.overwritten == {}
  }

  ghost predicate Inv(s: State) {
    PcOk(s) && HistoryOk(s) && (!s.h.cleaned && s.condition != Initialized ==> BehindJobs(s))
  }

  /** Looking at Job i: it is created, waited for, or lets the StatefulSet grow to i + 1. */
  lemma RollingKeepsInv(s: State)
    requires Inv(s) && s.pc.Rolling?
    ensures Inv(Step(s))
  {
    var t, i := Step(s), s.pc.i;
    assert forall j :: Completed(t, j) <==> Completed(s, j);
    if t.pc.Waiting? {
      assert Completed(s, i);
      assert !s.h.cleaned ==> CompletedPrefix(t, i + 1);
    }
  }

  lemma CleaningKeepsInv(s: State)
    requires Inv(s) && s.pc.Cleaning?
    ensures Inv(Step(s))
  {
    var t := Step(s);
    assert forall j :: Completed(t, j) ==> Completed(s, j);
    assert t.jobs != map[] ==> s.jobs != map[];
    if s.pc.i >= s.pc.n {
      assert forall j :: Completed(s, j) ==> Completed(t, j);
    }
  }

  lemma WaitingKeepsInv(s: State)
    requires Inv(s) && s.pc.Waiting?
    ensures Inv(Step(s))
  {
    assert forall j :: Completed(Step(s), j) <==> Completed(s, j);
  }

  lemma ProvisioningKeepsInv(s: State)
    requires Inv(s) && s.pc.Provisioning?
    ensures Inv(Step(s))
  {
    assert forall j :: Completed(Step(s), j) <==> Completed(s, j);
  }

  lemma EdgesKeepInv(s: State)
    requires Inv(s) && (s.pc.Idle? || s.pc.Finishing?)
    ensures Inv(Step(s))
  {
    assert forall j :: Completed(Step(s), j) <==> Completed(s, j);
  }

  lemma OperatorKeepsInv(s: State)
    requires Inv(s)
    ensures Inv(Step(s))
  {
    match s.pc {
      case Rolling(_, _) => RollingKeepsInv(s);
      case Waiting(_, _) => WaitingKeepsInv(s);
      case Cleaning(_, _) => CleaningKeepsInv(s);
      case Provisioning(_, _) => ProvisioningKeepsInv(s);
      case _ => EdgesKeepInv(s);
    }
  }

  lemma EventKeepsInv(s: State, e: Event)
    requires Inv(s) && Enabled(s, e)
    ensures Inv(Apply(s, e))
  {
    var t := Apply(s, e);
    match e {
      case Operator => OperatorKeepsInv(s);
      case CompleteJob(i) =>
        assert forall j :: Completed(s, j) ==> Completed(t, j);
        assert forall j :: Completed(t, j) ==> Completed(s, j) || j == i;
      case _ =>
        assert t.jobs == s.jobs;
        assert forall j :: Completed(t, j) <==> Completed(s, j);
    }
  }

  lemma {:induction false} RunKeepsInv(s: State, es: seq<Event>, t: State)
    requires Inv(s) && Reaches(s, es, t)
    ensures Inv(t)
    decreases |es|
  {
    if es != [] {
      EventKeepsInv(s, es[0]);
      RunKeepsInv(Apply(s, es[0]), es[1..], t);
    }
  }

  lemma InitEstablishesInv(s: State)
    requires Init(s)
    ensures Inv(s)
  {
  }

  // ---------------------------------------------------------------------------------------------
  // Safety over whole runs
  // ---------------------------------------------------------------------------------------------

  /** Restore before start. Until a pass starts to delete the Jobs, the StatefulSet never asks for more Pods than
      there are leading completed Jobs, every Pod that ever existed has its data restored, and no Job was ever
      created under a Pod that had started. */
  lemma RestoreBeforeStart(s: State, es: seq<Event>, t: State)
    requires Init(s) && Reaches(s, es, t) && !t.h.cleaned && t.condition != Initialized
    ensures t.sts.Some? ==> forall j :: 0 <= j < t.sts.value ==> Completed(t, j)
    ensures forall i :: i in t.h.started ==> Completed(t, i)
    ensures t.h.overwritten == {}
  {
    InitEstablishesInv(s);
    RunKeepsInv(s, es, t);
  }

  /** The step that sets Initialized, on the path with Jobs: every index of the pass has been restored and its Pod
      scheduled. */
  lemma InitializedOnlyAfterAllJobs(s: State, es: seq<Event>, t: State, e: Event)
    requires Init(s) && Reaches(s, es, t) && Enabled(t, e) && !t.fromSnapshot
    requires t.condition != Initialized && Apply(t, e).condition == Initialized
    ensures e == Operator && t.pc.Finishing?
    ensures forall j :: 0 <= j < t.pc.n ==> j in t.h.restored && j in t.h.scheduled
  {
    InitEstablishesInv(s);
    RunKeepsInv(s, es, t);
  }

  /** A Job is created only while initializing, in a run that has seen the namespace without storage PVCs. */
  lemma JobsNeedEmptyStorage(s: State, es: seq<Event>, t: State, e: Event, i: nat)
    requires Init(s) && Reaches(s, es, t) && Enabled(t, e)
    requires i !in t.jobs && i in Apply(t, e).jobs
    ensures e == Operator && t.pc.Rolling? && t.pc.i == i < t.pc.n
    ensures t.h.sawNoPVCs && t.condition == Initializing && !t.fromSnapshot
  {
    InitEstablishesInv(s);
    RunKeepsInv(s, es, t);
  }

  /** Initialized is final: nothing that happens later creates a Job or takes the condition back. */
  lemma {:induction false} InitializedIsFinal(s: State, es: seq<Event>, t: State)
    requires Inv(s) && s.condition == Initialized && Reaches(s, es, t)
    ensures t.condition == Initialized && t.pc == Idle
    ensures t.jobs.Keys == s.jobs.Keys && t.h.overwritten == s.h.overwritten
    decreases |es|
  {
    if es != [] {
      EventKeepsInv(s, es[0]);
      InitializedIsFinal(Apply(s, es[0]), es[1..], t);
    }
  }

  // ---------------------------------------------------------------------------------------------
  // The clean-up window
  // ---------------------------------------------------------------------------------------------

  /** No pass dies after its first Job deletion and before the final status patch. */
  ghost predicate NoCrashInCleanup(s: State, es: seq<Event>)
    decreases |es|
  {
    es == [] ||
    (&& Enabled(s, es[0])
     && (es[0] == Crash ==> !InCleanup(s))
     && NoCrashInCleanup(Apply(s, es[0]), es[1..]))
  }

  ghost predicate CleanedOnce(s: State) {
    && Inv(s)
    && s.h.overwritten == {}
    && (s.h.cleaned ==> InCleanup(s) || s.condition == Initialized)
  }

  lemma {:induction false} RunKeepsCleanedOnce(s: State, es: seq<Event>, t: State)
    requires CleanedOnce(s) && Reaches(s, es, t) && NoCrashInCleanup(s, es)
    ensures CleanedOnce(t)
    decreases |es|
  {
    if es != [] {
      EventKeepsInv(s, es[0]);
      RunKeepsCleanedOnce(Apply(s, es[0]), es[1..], t);
    }
  }

  /** Without such a crash no started Pod is ever restored over. */
  lemma NothingIsOverwritten(s: State, es: seq<Event>, t: State)
    requires Init(s) && Reaches(s, es, t) && NoCrashInCleanup(s, es)
    ensures t.h.overwritten == {}
  {
    InitEstablishesInv(s);
    RunKeepsCleanedOnce(s, es, t);
  }

  /** `k` consecutive operator writes. */
  function Steps(s: State, k: nat): State
    decreases k
  {
    if k == 0 then s else Steps(Step(s), k - 1)
  }

  lemma {:induction false} ProvisioningSteps(s: State) returns (k: nat)
    requires s.pc.Provisioning? && s.pc.i <= s.pc.n && !s.fromSnapshot
    ensures Steps(s, k) == s.(pc := Rolling(s.pc.n, 0), pvcs := Steps(s, k).pvcs)
    decreases s.pc.n - s.pc.i
  {
    if s.pc.i < s.pc.n {
      k := ProvisioningSteps(Step(s));
      k := k + 1;
    } else {
      StepsAppend(s, 0);
      k := 1;
    }
  }

  /** With it, every such crash ends badly: the next undisturbed pass finds no Job 0, creates it again and restores
      over a Pod that has already started. */
  lemma CrashInCleanupOverwrites(s: State)
    requires Inv(s) && InCleanup(s) && s.replicas > 0
    ensures exists k: nat :: 0 in Steps(Apply(s, Crash), k).h.overwritten
  {
    assert 0 in s.h.scheduled;
    var crashed := Apply(s, Crash);
    var begun := Step(crashed);
    var k := ProvisioningSteps(begun);
    var t := Steps(begun, k);
    StepsAppend(begun, k);
    assert Step(t).h.overwritten == t.h.overwritten + {0};
    assert Steps(crashed, k + 2) == Steps(begun, k + 1) == Step(t);
  }

  lemma {:induction false} StepsAppend(s: State, k: nat)
    ensures Steps(s, k + 1) == Step(Steps(s, k))
    decreases k
  {
    if k > 0 {
      StepsAppend(Step(s), k - 1);
    } else {
      assert Steps(Step(s), 0) == Step(s);
    }
  }

  // ---------------------------------------------------------------------------------------------
  // A pass, as the code loops over it
  // ---------------------------------------------------------------------------------------------

  lemma {:induction false} StepsAdd(s: State, k: nat, m: nat)
    ensures Steps(s, k + m) == Steps(Steps(s, k), m)
    decreases k
  {
    if k > 0 {
      StepsAdd(Step(s), k - 1, m);
    }
  }

  /** What is proved of every run holds of these passes. */
  lemma {:induction false} StepsAreRuns(s: State, k: nat)
    ensures Reaches(s, seq(k, _ => Operator), Steps(s, k))
    decreases k
  {
    if k > 0 {
      StepsAreRuns(Step(s), k - 1);
      assert seq(k, _ => Operator)[1..] == seq(k - 1, _ => Operator);
    }
  }

  /** Index i needs nothing more from the rolling init. */
  predicate Settled(s: State, i: nat) {
    Completed(s, i) && i in s.pods && s.pods[i]
  }

  /** The first index that is not settled, if any. */
  ghost predicate FirstUnsettled(s: State, n: nat, i: nat) {
    i < n && !Settled(s, i) && forall j :: 0 <= j < i ==> Settled(s, j)
  }

  class Initializer {
    var cluster: State

    constructor (cluster: State)
      ensures this.cluster == cluster
    {
      this.cluster := cluster;
    }

    /** reconcilePVCs. */
    method ReconcilePVCs() returns (outcome: Outcome, ghost k: nat)
      requires cluster.pc.Provisioning? && cluster.pc.i == 0
      modifies this
      ensures cluster == Steps(old(cluster), k)
      ensures outcome == if cluster.fromSnapshot && !cluster.snapshotReady then RequeueAfter(5) else Proceed
      ensures outcome == RequeueAfter(5) ==> cluster == old(cluster).(pc := Idle)
      ensures outcome == Proceed ==>
                && cluster == old(cluster).(pvcs := cluster.pvcs, pc := cluster.pc)
                && (forall j: nat :: j in cluster.pvcs <==> j in old(cluster.pvcs) || j < old(cluster.pc.n))
                && cluster.pc == if cluster.fromSnapshot then Finishing(old(cluster.pc.n)) else Rolling(old(cluster.pc.n), 0)
    {
      ghost var start := cluster;
      k := 0;
      if cluster.fromSnapshot && !cluster.snapshotReady {
        StepsAppend(start, k);
        cluster := cluster.(pc := Idle);
        return RequeueAfter(5), 1;
      }
      var n := cluster.pc.n;
      for i := 0 to n
        invariant cluster == start.(pvcs := cluster.pvcs, pc := Provisioning(n, i))
        invariant forall j: nat :: j in cluster.pvcs <==> j in start.pvcs || j < i
        invariant cluster == Steps(start, k)
      {
        StepsAppend(start, k);
        k := k + 1;
        cluster := cluster.(pvcs := cluster.pvcs + {i}, pc := Provisioning(n, i + 1));
      }
      StepsAppend(start, k);
      k := k + 1;
      cluster := cluster.(pc := if cluster.fromSnapshot then Finishing(n) else Rolling(n, 0));
      outcome := Proceed;
    }

    /** One index of reconcileRollingInit: reconcileAndWaitForInitJob, upscaleStatefulSet, waitForPodScheduled. */
    method InitIndex() returns (outcome: Outcome, ghost k: nat)
      requires cluster.pc.Rolling? && cluster.pc.i < cluster.pc.n
      modifies this
      ensures cluster == Steps(old(cluster), k)
      ensures outcome == if Settled(old(cluster), old(cluster.pc.i)) then Proceed else RequeueAfter(1)
      ensures cluster == old(cluster).(pc := cluster.pc, jobs := cluster.jobs, sts := cluster.sts, h := cluster.h)
      ensures cluster.pc == if outcome == Proceed then Rolling(old(cluster.pc.n), old(cluster.pc.i) + 1) else Idle
      ensures outcome == Proceed ==> cluster.jobs == old(cluster.jobs) && cluster.h == old(cluster.h)
      ensures cluster.jobs == if old(cluster.pc.i) in old(cluster.jobs) then old(cluster.jobs)
                              else old(cluster.jobs)[old(cluster.pc.i) := false]
      ensures cluster.sts == if Completed(old(cluster), old(cluster.pc.i))
                                && (old(cluster.sts).None? || cluster.stsStatus < old(cluster.pc.i) + 1)
                             then Some(old(cluster.pc.i) + 1) else old(cluster.sts)
    {
      ghost var start := cluster;
      var n, i := cluster.pc.n, cluster.pc.i;
      StepsAppend(start, 0);
      if i !in cluster.jobs {
        cluster := cluster.(jobs := cluster.jobs[i := false], pc := Idle,
          h := cluster.h.(overwritten := cluster.h.overwritten + if i in cluster.h.started then {i} else {}));
        return RequeueAfter(1), 1;
      }
      if !cluster.jobs[i] {
        cluster := cluster.(pc := Idle);
        return RequeueAfter(1), 1;
      }
      if cluster.sts.None? || cluster.stsStatus < i + 1 {
        cluster := cluster.(sts := Some(i + 1));
      }
      cluster := cluster.(pc := Waiting(n, i));
      StepsAppend(start, 1);
      if i !in cluster.pods || !cluster.pods[i] {
        cluster := cluster.(pc := Idle);
        return RequeueAfter(1), 2;
      }
      cluster := cluster.(pc := Rolling(n, i + 1));
      return Proceed, 2;
    }

    /** reconcileRollingInit gets past exactly the settled indices and stops at the first one that is not. */
    method ReconcileRollingInit() returns (outcome: Outcome, ghost k: nat)
      requires cluster.pc.Rolling? && cluster.pc.i == 0
      modifies this
      ensures cluster == Steps(old(cluster), k)
      ensures cluster == old(cluster).(pc := cluster.pc, jobs := cluster.jobs, sts := cluster.sts, h := cluster.h)
      ensures outcome == Proceed || outcome == RequeueAfter(1)
      ensures outcome == Proceed <==> forall j :: 0 <= j < old(cluster.pc.n) ==> Settled(old(cluster), j)
      ensures outcome == Proceed ==> cluster.pc == Cleaning(old(cluster.pc.n), 0) && cluster.jobs == old(cluster.jobs)
      ensures outcome == Proceed && cluster.stsStatus < old(cluster.pc.n) ==> cluster.sts == Some(old(cluster.pc.n))
      ensures outcome == RequeueAfter(1) ==>
                && cluster.pc == Idle
                && exists i: nat ::
                     && FirstUnsettled(old(cluster), old(cluster.pc.n), i)
                     && cluster.jobs == if i in old(cluster.jobs) then old(cluster.jobs) else old(cluster.jobs)[i := false]
    {
      ghost var start := cluster;
      k := 0;
      var n := cluster.pc.n;
      for i := 0 to n
        invariant cluster == Steps(start, k)
        invariant cluster == start.(pc := Rolling(n, i), sts := cluster.sts)
        invariant forall j :: 0 <= j < i ==> Settled(start, j)
        invariant start.stsStatus < i ==> cluster.sts == Some(i)
      {
        assert Settled(cluster, i) <==> Settled(start, i);
        ghost var m;
        outcome, m := InitIndex();
        StepsAdd(start, k, m);
        k := k + m;
        if outcome != Proceed {
          assert FirstUnsettled(start, n, i);
          return;
        }
      }
      StepsAppend(start, k);
      k := k + 1;
      cluster := cluster.(pc := Cleaning(n, 0));
      outcome := Proceed;
    }

    /** cleanupInitJobs: the Jobs of every index of the pass are gone, other Jobs stay. */
    method CleanupInitJobs() returns (ghost k: nat)
      requires cluster.pc.Cleaning? && cluster.pc.i == 0
      modifies this
      ensures cluster == Steps(old(cluster), k)
      ensures cluster == old(cluster).(jobs := cluster.jobs, pc := Finishing(old(cluster.pc.n)), h := cluster.h)
      ensures forall j :: j in cluster.jobs <==> j in old(cluster.jobs) && j >= old(cluster.pc.n)
      ensures forall j :: j in cluster.jobs ==> cluster.jobs[j] == old(cluster.jobs)[j]
    {
      ghost var start := cluster;
      k := 0;
      var n := cluster.pc.n;
      for i := 0 to n
        invariant cluster == start.(jobs := cluster.jobs, pc := Cleaning(n, i), h := cluster.h)
        invariant forall j :: j in cluster.jobs <==> j in start.jobs && j >= i
        invariant forall j :: j in cluster.jobs ==> cluster.jobs[j] == start.jobs[j]
        invariant cluster == Steps(start, k)
      {
        StepsAppend(start, k);
        k := k + 1;
        cluster := cluster.(jobs := cluster.jobs - {i}, pc := Cleaning(n, i + 1), h := cluster.h.(cleaned := true));
      }
      StepsAppend(start, k);
      k := k + 1;
      cluster := cluster.(pc := Finishing(n));
    }

    /** The branch for backups that are not snapshots: roll, then clean up. */
    method RestoreAndCleanup() returns (outcome: Outcome, ghost k: nat)
      requires cluster.pc.Rolling? && cluster.pc.i == 0
      modifies this
      ensures cluster == Steps(old(cluster), k)
      ensures cluster == old(cluster).(pc := cluster.pc, jobs := cluster.jobs, sts := cluster.sts, h := cluster.h)
      ensures outcome == Proceed || outcome == RequeueAfter(1)
      ensures outcome == Proceed <==> forall j :: 0 <= j < old(cluster.pc.n) ==> Settled(old(cluster), j)
      ensures cluster.pc == if outcome == Proceed then Finishing(old(cluster.pc.n)) else Idle
    {
      ghost var start := cluster;
      outcome, k := ReconcileRollingInit();
      if outcome == Proceed {
        ghost var m := CleanupInitJobs();
        StepsAdd(start, k, m);
        k := k + m;
      }
    }

    /** From the PVCs to the final status patch. */
    method Initialize() returns (outcome: Outcome, ghost k: nat)
      requires cluster.pc.Provisioning? && cluster.pc.i == 0
      modifies this
      ensures cluster == Steps(old(cluster), k) && cluster.pc == Idle
      ensures outcome == Proceed <==>
                if cluster.fromSnapshot then cluster.snapshotReady
                else forall j :: 0 <= j < old(cluster.pc.n) ==> Settled(old(cluster), j)
      ensures cluster.fromSnapshot == old(cluster.fromSnapshot) && cluster.snapshotReady == old(cluster.snapshotReady)
      ensures cluster.condition == if outcome == Proceed then Initialized else old(cluster.condition)
      ensures outcome == Proceed || outcome == RequeueAfter(1) || outcome == RequeueAfter(5)
    {
      ghost var start := cluster;
      outcome, k := ReconcilePVCs();
      if outcome != Proceed {
        return;
      }
      if !cluster.fromSnapshot {
        assert forall j :: Settled(cluster, j) <==> Settled(start, j);
        ghost var m;
        outcome, m := RestoreAndCleanup();
        StepsAdd(start, k, m);
        k := k + m;
        if outcome != Proceed {
          return;
        }
      }
      StepsAppend(start, k);
      k := k + 1;
      cluster := cluster.(condition := Initialized, pc := Idle);
    }

    /** reconcilePhysicalBackupInit, undisturbed: a run of operator writes that ends Initialized exactly when the
        data was already initialized, or storage was provisioned and every index is settled. */
    method ReconcilePhysicalBackupInit() returns (outcome: Outcome, ghost k: nat)
      requires cluster.pc.Idle?
      modifies this
      ensures cluster == Steps(old(cluster), k) && cluster.pc == Idle
      ensures outcome == Proceed <==> cluster.condition == Initialized
      ensures old(cluster.condition) == Initialized ==> cluster == old(cluster)
      ensures old(cluster.condition) != Initialized ==>
                (outcome == RequeueAfter(30) <==> old(cluster.condition) != Initializing && old(cluster.pvcs) != {})
      ensures outcome == RequeueAfter(30) ==> cluster == old(cluster).(condition := InitError)
      ensures old(cluster.condition) != Initialized && outcome != RequeueAfter(30) ==>
                && (outcome == Proceed <==>
                     if cluster.fromSnapshot then cluster.snapshotReady
                     else forall j :: 0 <= j < old(cluster.replicas) ==> Settled(old(cluster), j))
                && (outcome != Proceed ==> cluster.condition == Initializing)
    {
      ghost var start := cluster;
      if cluster.condition.Initialized? {
        return Proceed, 0;
      }
      StepsAppend(start, 0);
      if !cluster.condition.Initializing? && cluster.pvcs != {} {
        cluster := cluster.(condition := InitError);
        return RequeueAfter(30), 1;
      }
      cluster := cluster.(condition := Initializing, pc := Provisioning(cluster.replicas, 0),
        h := cluster.h.(sawNoPVCs := cluster.h.sawNoPVCs || !cluster.condition.Initializing?));
      assert forall j :: Settled(cluster, j) <==> Settled(start, j);
      outcome, k := Initialize();
      StepsAdd(start, 1, k);
      k := 1 + k;
    }
  }
}

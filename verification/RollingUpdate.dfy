/** The ReplicasFirstPrimaryLast update: which Pod a pass of the updater deletes, and what whole runs of passes
    interleaved with the cluster's own moves can do. */
module RollingUpdate {
  import opened Prelude
  import opened Names

  datatype ReplicationState = Master | Slave | NotConfigured

  /** `revision` is the controller-revision-hash label. */
  datatype Pod = Pod(revision: Option<string>, ready: bool)

  datatype Config = Config(
    name: string,
    replicas: nat,
    roleAware: bool,          // spec.updateStrategy.type is ReplicasFirstPrimaryLast
    replication: bool,
    galera: bool,
    automaticFailover: bool,
    maxScale: bool
  )

  /** Pods by StatefulSet index; `locked` is any of restoring, resizing, switching primary and Galera not ready.
      `requested` is spec.replication.primary.podIndex. */
  datatype State = State(
    pods: map<nat, Pod>,
    updateRevision: string,
    readyReplicas: nat,
    locked: bool,
    currentPrimary: Option<nat>,
    requested: nat,
    replicationStatus: map<string, ReplicationState>,
    maxScaleReady: bool
  )

  datatype Action =
    | Stop(outcome: Outcome)
    | DeletePod(pod: nat)
    | RequestSwitchover(target: nat)

  predicate Updated(s: State, i: nat)
    requires i in s.pods
  {
    s.pods[i].revision == Some(s.updateRevision)
  }

  function StalePods(s: State): set<nat> {
    set i | i in s.pods && !Updated(s, i)
  }

  /** Some Pod's recorded replication state is Slave. */
  predicate AnyReplica(s: State) {
    exists n :: n in s.replicationStatus && s.replicationStatus[n] == Slave
  }

  predicate IsReplica(s: State, podName: string) {
    podName in s.replicationStatus && s.replicationStatus[podName] == Slave
  }

  // ---------------------------------------------------------------------------------------------
  // Ordering Pods by name
  // ---------------------------------------------------------------------------------------------

  /** Go's string comparison. */
  predicate StringLess(a: string, b: string) {
    if b == "" then false
    else if a == "" then true
    else a[0] < b[0] || (a[0] == b[0] && StringLess(a[1..], b[1..]))
  }

  lemma {:induction false} StringLessTotal(a: string, b: string)
    ensures a != b ==> StringLess(a, b) || StringLess(b, a)
    ensures StringLess(a, b) ==> a != b && !StringLess(b, a)
  {
    if a != "" && b != "" {
      StringLessTotal(a[1..], b[1..]);
      assert a == [a[0]] + a[1..] && b == [b[0]] + b[1..];
    }
  }

  lemma {:induction false} StringLessTrans(a: string, b: string, c: string)
    requires StringLess(a, b) && StringLess(b, c)
    ensures StringLess(a, c)
  {
    if a != "" && a[0] == b[0] == c[0] {
      StringLessTrans(a[1..], b[1..], c[1..]);
    }
  }

  /** What that order is: the first difference decides, and a proper prefix comes first. */
  lemma {:induction false} StringLessMeaning(a: string, b: string)
    ensures StringLess(a, b) <==>
              exists k :: && 0 <= k <= |a| && k < |b| && a[..k] == b[..k]
                          && (k == |a| || a[k] < b[k])
  {
    if StringLess(a, b) {
      var k := StringLessWitness(a, b);
    }
    if k :| 0 <= k <= |a| && k < |b| && a[..k] == b[..k] && (k == |a| || a[k] < b[k]) {
      StringLessFromWitness(a, b, k);
    }
  }

  lemma {:induction false} StringLessWitness(a: string, b: string) returns (k: nat)
    requires StringLess(a, b)
    ensures k <= |a| && k < |b| && a[..k] == b[..k] && (k == |a| || a[k] < b[k])
  {
    if a == "" || a[0] < b[0] {
      return 0;
    }
    k := StringLessWitness(a[1..], b[1..]);
    assert a[..k + 1] == [a[0]] + a[1..][..k] && b[..k + 1] == [b[0]] + b[1..][..k];
    k := k + 1;
  }

  lemma {:induction false} StringLessFromWitness(a: string, b: string, k: nat)
    requires k <= |a| && k < |b| && a[..k] == b[..k] && (k == |a| || a[k] < b[k])
    ensures StringLess(a, b)
  {
    if k > 0 {
      assert a[0] == a[..k][0] == b[..k][0] == b[0];
      assert a[1..][..k - 1] == a[..k][1..] && b[1..][..k - 1] == b[..k][1..];
      StringLessFromWitness(a[1..], b[1..], k - 1);
    }
  }

  predicate Before(name: string, i: nat, j: nat) {
    StringLess(PodName(name, i), PodName(name, j))
  }

  /** Indices in descending order of Pod name. */
  ghost predicate Descending(name: string, s: seq<nat>) {
    forall i, j :: 0 <= i < j < |s| ==> Before(name, s[j], s[i])
  }

  function InsertByName(name: string, s: seq<nat>, x: nat): seq<nat> {
    if s == [] then [x]
    else if Before(name, s[0], x) then [x] + s
    else [s[0]] + InsertByName(name, s[1..], x)
  }

  lemma {:induction false} InsertByNameSorts(name: string, s: seq<nat>, x: nat)
    requires Descending(name, s) && x !in s
    ensures Descending(name, InsertByName(name, s, x))
    ensures forall y :: y in InsertByName(name, s, x) <==> y == x || y in s
    ensures |InsertByName(name, s, x)| == |s| + 1
  {
    if s != [] {
      var r := InsertByName(name, s, x);
      if Before(name, s[0], x) {
        forall j | 1 <= j < |r|
          ensures Before(name, r[j], x)
        {
          if j > 1 {
            assert r[j] == s[j - 1];
            StringLessTrans(PodName(name, s[j - 1]), PodName(name, s[0]), PodName(name, x));
          }
        }
      } else {
        InsertByNameSorts(name, s[1..], x);
        PodNameInjective(name, s[0], x);
        StringLessTotal(PodName(name, s[0]), PodName(name, x));
        var rest := InsertByName(name, s[1..], x);
        forall j | 0 <= j < |rest|
          ensures Before(name, rest[j], s[0])
        {
          assert rest[j] in rest;
          if rest[j] != x {
            var k :| 0 <= k < |s[1..]| && s[1..][k] == rest[j];
            assert s[k + 1] == rest[j];
          }
        }
      }
    }
  }

  /** In a descending list, what is listed from `k` on does not come after the element at `k`. */
  lemma DescendingPosition(name: string, s: seq<nat>, k: nat, x: nat)
    requires Descending(name, s) && k < |s| && x in s
    ensures Before(name, x, s[k]) ==> x in s[k + 1..]
    ensures Before(name, s[k], x) ==> x in s[..k]
  {
    var m :| 0 <= m < |s| && s[m] == x;
    StringLessTotal(PodName(name, x), PodName(name, s[k]));
    if m > k {
      assert s[k + 1..][m - k - 1] == x;
    } else if m < k {
      assert s[..k][m] == x;
    }
  }

  // ---------------------------------------------------------------------------------------------
  // The updater
  // ---------------------------------------------------------------------------------------------

  /** The cluster as the updater needs to see it before it touches a Pod. */
  predicate ReadyToUpdate(cfg: Config, s: State) {
    && !s.locked && cfg.roleAware
    && s.updateRevision != ""
    && s.currentPrimary.Some? && s.currentPrimary.value in s.pods
    && |s.pods| == cfg.replicas > 0
    && ((cfg.replication || cfg.galera) ==> cfg.replicas > 1)
    && s.readyReplicas == cfg.replicas
    && (cfg.maxScale ==> s.maxScaleReady)
  }

  /** A stale primary is to be switched over instead of deleted. */
  predicate SwitchoverApplies(cfg: Config, s: State) {
    cfg.replication && cfg.automaticFailover && !cfg.maxScale && AnyReplica(s)
  }

  /** A healthy, configured replica: what a switchover may target. */
  predicate Promotable(cfg: Config, s: State, i: nat) {
    i in s.pods && s.currentPrimary != Some(i) && s.pods[i].ready && IsReplica(s, PodName(cfg.name, i))
  }

  /** What the documentation promises of one pass, without saying how it is computed. */
  ghost predicate Allowed(cfg: Config, s: State, a: Action) {
    match a
    case Stop(_) => true
    case DeletePod(i) =>
      && ReadyToUpdate(cfg, s)
      && i in StalePods(s)
      && (Some(i) != s.currentPrimary ==>
            forall j :: j in s.pods && Some(j) != s.currentPrimary && Before(cfg.name, i, j) ==> Updated(s, j))
      && (Some(i) == s.currentPrimary ==>
            && StalePods(s) == {i}
            && (cfg.replication ==> AnyReplica(s))
            && !SwitchoverApplies(cfg, s))
    case RequestSwitchover(i) =>
      && ReadyToUpdate(cfg, s)
      && SwitchoverApplies(cfg, s)
      && s.currentPrimary.value in StalePods(s) && StalePods(s) == {s.currentPrimary.value}
      && Promotable(cfg, s, i)
      && forall j :: j in s.pods && Before(cfg.name, j, i) ==> !Promotable(cfg, s, j)
  }

  /** When the updater must act: it never idles while the cluster is ready and a stale Pod can be moved on. */
  ghost predicate MustAct(cfg: Config, s: State) {
    && ReadyToUpdate(cfg, s)
    && StalePods(s) != {}
    && (StalePods(s) == {s.currentPrimary.value} && cfg.replication ==>
          AnyReplica(s) && (SwitchoverApplies(cfg, s) ==> exists i :: Promotable(cfg, s, i)))
  }

  /** Why a pass may stop, and what it then hands to the phase loop. */
  ghost predicate StopsFor(cfg: Config, s: State, outcome: Outcome) {
    if s.locked || !cfg.roleAware then outcome == Proceed
    else if s.updateRevision == "" || s.currentPrimary.None? then outcome == RequeueAfter(1)
    else if cfg.replicas == 0 then outcome == RequeueAfter(5)
    else if |s.pods| != cfg.replicas then outcome == RequeueAfter(1)
    else if s.currentPrimary.value !in s.pods || ((cfg.replication || cfg.galera) && cfg.replicas == 1) then outcome == Failed
    else if StalePods(s) == {} then outcome == Proceed
    else if s.readyReplicas != cfg.replicas || (cfg.maxScale && !s.maxScaleReady) then outcome == RequeueAfter(1)
    else
      && StalePods(s) == {s.currentPrimary.value} && cfg.replication
      && (if !AnyReplica(s) then outcome == SkipPhase
          else outcome == Failed && SwitchoverApplies(cfg, s) && !exists i :: Promotable(cfg, s, i))
  }

  class Updater {
    const cfg: Config
    var cluster: State

    constructor (cfg: Config, initial: State)
      ensures this.cfg == cfg && cluster == initial
    {
      this.cfg := cfg;
      cluster := initial;
    }

    /** getPodsByRole: the Pods split into the primary and the replicas, replicas in descending name order. */
    method GetPodsByRole() returns (outcome: Outcome, replicas: seq<nat>, primary: nat)
      ensures outcome == Proceed <==>
                && cluster.currentPrimary.Some? && cfg.replicas > 0 && |cluster.pods| == cfg.replicas
                && cluster.currentPrimary.value in cluster.pods
                && ((cfg.replication || cfg.galera) ==> cfg.replicas > 1)
      ensures cluster.currentPrimary.None? ==> outcome == RequeueAfter(1)
      ensures cluster.currentPrimary.Some? && cfg.replicas == 0 ==> outcome == RequeueAfter(5)
      ensures cluster.currentPrimary.Some? && cfg.replicas > 0 ==>
                if |cluster.pods| != cfg.replicas then outcome == RequeueAfter(1) else outcome == Proceed || outcome == Failed
      ensures outcome == Proceed ==>
                && Some(primary) == cluster.currentPrimary && primary !in replicas
                && (forall i :: i in cluster.pods <==> i == primary || i in replicas)
                && |replicas| == cfg.replicas - 1
                && Descending(cfg.name, replicas)
    {
      replicas, primary := [], 0;
      if cluster.currentPrimary.None? {
        return RequeueAfter(1), replicas, primary;
      }
      var currentPrimary := PodName(cfg.name, cluster.currentPrimary.value);
      if cfg.replicas == 0 {
        return RequeueAfter(5), replicas, primary;
      }
      if |cluster.pods| != cfg.replicas {
        return RequeueAfter(1), replicas, primary;
      }
      var found := false;
      var todo := cluster.pods.Keys;
      while todo != {}
        invariant todo <= cluster.pods.Keys
        invariant found <==> cluster.currentPrimary.value in cluster.pods && cluster.currentPrimary.value !in todo
        invariant found ==> primary == cluster.currentPrimary.value
        invariant forall i :: i in replicas <==> i in cluster.pods && i !in todo && i != cluster.currentPrimary.value
        invariant |replicas| + |todo| + (if found then 1 else 0) == |cluster.pods|
        invariant Descending(cfg.name, replicas)
        decreases |todo|
      {
        var i :| i in todo;
        PodNameInjective(cfg.name, i, cluster.currentPrimary.value);
        if PodName(cfg.name, i) == currentPrimary {
          found, primary := true, i;
        } else {
          InsertByNameSorts(cfg.name, replicas, i);
          replicas := InsertByName(cfg.name, replicas, i);
        }
        todo := todo - {i};
      }
      if (cfg.replication || cfg.galera) && |replicas| == 0 {
        return Failed, replicas, primary;
      }
      if !found {
        return Failed, replicas, primary;
      }
      return Proceed, replicas, primary;
    }

    /** The Pods sorted by name (here from the last to the first). */
    method SortedPods() returns (sorted: seq<nat>)
      ensures Descending(cfg.name, sorted)
      ensures forall i :: i in sorted <==> i in cluster.pods
    {
      sorted := [];
      var todo := cluster.pods.Keys;
      while todo != {}
        invariant todo <= cluster.pods.Keys
        invariant forall i :: i in sorted <==> i in cluster.pods && i !in todo
        invariant Descending(cfg.name, sorted)
        decreases |todo|
      {
        var i :| i in todo;
        InsertByNameSorts(cfg.name, sorted, i);
        sorted := InsertByName(cfg.name, sorted, i);
        todo := todo - {i};
      }
    }

    /** health.ReplicaPodHealthyIndex: the first promotable Pod in ascending name order. */
    method ReplicaPodHealthyIndex() returns (r: Option<nat>)
      ensures r.None? <==> !exists i :: Promotable(cfg, cluster, i)
      ensures r.Some? ==>
                && Promotable(cfg, cluster, r.value)
                && forall j :: j in cluster.pods && Before(cfg.name, j, r.value) ==> !Promotable(cfg, cluster, j)
    {
      var sorted := SortedPods();
      var k := |sorted|;
      while k > 0
        invariant 0 <= k <= |sorted|
        invariant forall i :: i in sorted[k..] ==> !Promotable(cfg, cluster, i)
      {
        k := k - 1;
        var i := sorted[k];
        assert i in sorted;
        if Promotable(cfg, cluster, i) {
          forall j | j in cluster.pods && Before(cfg.name, j, i)
            ensures !Promotable(cfg, cluster, j)
          {
            DescendingPosition(cfg.name, sorted, k, j);
          }
          return Some(i);
        }
        assert sorted[k..] == [i] + sorted[k + 1..];
      }
      assert sorted[0..] == sorted;
      return None;
    }

    predicate ShouldReconcileUpdates()
      reads this
    {
      !cluster.locked && cfg.roleAware
    }

    method HasConfiguredReplica() returns (found: bool)
      ensures found <==> AnyReplica(cluster)
    {
      var todo := cluster.replicationStatus.Keys;
      while todo != {}
        invariant todo <= cluster.replicationStatus.Keys
        invariant forall n :: n in cluster.replicationStatus && n !in todo ==> cluster.replicationStatus[n] != Slave
        decreases |todo|
      {
        var n :| n in todo;
        if cluster.replicationStatus[n] == Slave {
          return true;
        }
        todo := todo - {n};
      }
      return false;
    }

    method ShouldTriggerSwitchover() returns (b: bool)
      ensures b <==> SwitchoverApplies(cfg, cluster)
    {
      if cfg.maxScale {
        return false;
      }
      var configured := HasConfiguredReplica();
      return cfg.replication && cfg.automaticFailover && configured;
    }

    /** reconcileUpdates up to its single write: the action that the pass takes. It stops at once while another
        operation holds a lock or under another update strategy, and otherwise for exactly one of the reasons listed. */
    method PlanUpdate() returns (a: Action)
      ensures Allowed(cfg, cluster, a)
      ensures MustAct(cfg, cluster) ==> !a.Stop?
      ensures cluster.locked || !cfg.roleAware ==> a == Stop(Proceed)
      ensures a.Stop? ==> StopsFor(cfg, cluster, a.outcome)
    {
      if !ShouldReconcileUpdates() {
        return Stop(Proceed);
      }
      if cluster.updateRevision == "" {
        return Stop(RequeueAfter(1));
      }
      var outcome, replicas, primary := GetPodsByRole();
      if outcome != Proceed {
        return Stop(outcome);
      }
      if StalePods(cluster) == {} {
        return Stop(Proceed);
      }
      if cluster.readyReplicas != cfg.replicas {
        return Stop(RequeueAfter(1));
      }
      if cfg.maxScale && !cluster.maxScaleReady {
        return Stop(RequeueAfter(1));
      }
      assert ReadyToUpdate(cfg, cluster);
      var k := 0;
      while k < |replicas|
        invariant 0 <= k <= |replicas|
        invariant forall i :: i in replicas[..k] ==> Updated(cluster, i)
      {
        var i := replicas[k];
        assert i in replicas;
        if !Updated(cluster, i) {
          forall j | j in cluster.pods && Some(j) != cluster.currentPrimary && Before(cfg.name, i, j)
            ensures Updated(cluster, j)
          {
            DescendingPosition(cfg.name, replicas, k, j);
          }
          return DeletePod(i);
        }
        assert replicas[..k + 1] == replicas[..k] + [i];
        k := k + 1;
      }
      assert replicas[..k] == replicas;
      assert StalePods(cluster) == {primary} by {
        assert forall i :: i in cluster.pods && i != primary ==> i in replicas && Updated(cluster, i);
        var i :| i in StalePods(cluster);
      }
      if cfg.replication {
        var configured := HasConfiguredReplica();
        if !configured {
          return Stop(SkipPhase);
        }
      }
      var switchover := ShouldTriggerSwitchover();
      if switchover {
        var target := ReplicaPodHealthyIndex();
        if target.None? {
          return Stop(Failed);
        }
        return RequestSwitchover(target.value);
      }
      return DeletePod(primary);
    }

    /** reconcileUpdates: plan, then at most one write. A deleted Pod comes back as an environment step. */
    method ReconcileUpdates() returns (a: Action)
      modifies this
      ensures Allowed(cfg, old(cluster), a) && (MustAct(cfg, old(cluster)) ==> !a.Stop?)
      ensures cluster == Perform(old(cluster), a)
      ensures a.Stop? ==> cluster == old(cluster)
      ensures a.DeletePod? ==> cluster == old(cluster).(pods := old(cluster.pods) - {a.pod})
      ensures a.RequestSwitchover? ==> cluster == old(cluster).(requested := a.target)
      ensures old(cluster).locked || !cfg.roleAware ==> cluster == old(cluster)
    {
      a := PlanUpdate();
      cluster := Perform(cluster, a);
    }
  }

  function Perform(s: State, a: Action): State {
    match a
    case Stop(_) => s
    case DeletePod(i) => s.(pods := s.pods - {i})
    case RequestSwitchover(i) => s.(requested := i)
  }

  // ---------------------------------------------------------------------------------------------
  // Single passes
  // ---------------------------------------------------------------------------------------------

  /** Replicas first, primary last: the primary is deleted only when the other replicas-1 Pods, all of them
      present, are at the update revision, and only after all replicas were seen ready. */
  lemma PrimaryIsDeletedLast(cfg: Config, s: State, i: nat)
    requires Allowed(cfg, s, DeletePod(i)) && s.currentPrimary == Some(i)
    ensures |s.pods.Keys - {i}| == cfg.replicas - 1
    ensures forall j :: j in s.pods && j != i ==> Updated(s, j)
    ensures s.readyReplicas == cfg.replicas
  {
    assert s.pods.Keys == s.pods.Keys - {i} + {i};
    assert forall j :: j in s.pods && j != i ==> j !in StalePods(s);
  }

  /** With replication, automatic failover and no MaxScale, the updater never deletes the current primary. */
  lemma PrimaryIsNeverDeletedUnderFailover(cfg: Config, s: State, a: Action)
    requires cfg.replication && cfg.automaticFailover && !cfg.maxScale
    requires Allowed(cfg, s, a) && a.DeletePod?
    ensures Some(a.pod) != s.currentPrimary
  {
  }

  /** A switchover is asked for only with replication, automatic failover and no MaxScale, while nothing is locked; and
      it lands on a ready replica that is already at the update revision. */
  lemma SwitchoverTargetIsUpdated(cfg: Config, s: State, i: nat)
    requires Allowed(cfg, s, RequestSwitchover(i))
    ensures !s.locked && cfg.roleAware && cfg.replication && cfg.automaticFailover && !cfg.maxScale
    ensures i in s.pods && s.pods[i].ready && s.pods[i].revision == Some(s.updateRevision) && Some(i) != s.currentPrimary
    ensures PodName(cfg.name, i) in s.replicationStatus && s.replicationStatus[PodName(cfg.name, i)] == Slave
  {
    assert i !in StalePods(s);
  }

  // ---------------------------------------------------------------------------------------------
  // Runs
  // ---------------------------------------------------------------------------------------------

  datatype Event =
    | UpdaterPass(action: Action)
    | FinishSwitchover
    | RecreatePod(index: nat)        // StatefulSets with OnDelete recreate Pods at the update revision
    | LosePod(index: nat)
    | SetReady(index: nat, podReady: bool)
    | Observe(readyReplicas: nat)
    | SetLocked(locked: bool)
    | SetReplicationStatus(status: map<string, ReplicationState>)
    | SetMaxScaleReady(mxsReady: bool)

  ghost predicate Enabled(cfg: Config, s: State, e: Event) {
    match e
    case UpdaterPass(a) => Allowed(cfg, s, a)
    case FinishSwitchover => s.currentPrimary.Some? && s.requested != s.currentPrimary.value
    case RecreatePod(i) => i !in s.pods
    case SetReady(i, _) => i in s.pods
    case _ => true
  }

  function Apply(s: State, e: Event): State {
    match e
    case UpdaterPass(a) => Perform(s, a)
    case FinishSwitchover => s.(currentPrimary := Some(s.requested))
    case RecreatePod(i) => s.(pods := s.pods[i := Pod(Some(s.updateRevision), false)])
    case LosePod(i) => s.(pods := s.pods - {i})
    case SetReady(i, b) => if i in s.pods then s.(pods := s.pods[i := s.pods[i].(ready := b)]) else s
    case Observe(n) => s.(readyReplicas := n)
    case SetLocked(b) => s.(locked := b)
    case SetReplicationStatus(m) => s.(replicationStatus := m)
    case SetMaxScaleReady(b) => s.(maxScaleReady := b)
  }

  ghost predicate Reaches(cfg: Config, s: State, es: seq<Event>, t: State)
    decreases |es|
  {
    if es == [] then s == t else Enabled(cfg, s, es[0]) && Reaches(cfg, Apply(s, es[0]), es[1..], t)
  }

  /** The strategy asks for it, no other operation holds a lock, Pod i is stale, and all replicas are seen ready; and if
      Pod i is the current primary, the other replicas-1 Pods are all there and updated, and automatic failover does not
      apply. */
  ghost predicate ReplicasFirst(cfg: Config, s: State, i: nat) {
    && !s.locked && cfg.roleAware
    && i in s.pods && s.updateRevision != "" && s.pods[i].revision != Some(s.updateRevision)
    && s.readyReplicas == cfg.replicas && (cfg.maxScale ==> s.maxScaleReady)
    && (s.currentPrimary == Some(i) ==>
          && !(cfg.replication && cfg.automaticFailover && !cfg.maxScale)
          && |s.pods.Keys - {i}| == cfg.replicas - 1
          && forall j :: j in s.pods && j != i ==> s.pods[j].revision == Some(s.updateRevision))
  }

  lemma AllowedDeletion(cfg: Config, s: State, i: nat)
    requires Allowed(cfg, s, DeletePod(i))
    ensures ReplicasFirst(cfg, s, i)
  {
    if s.currentPrimary == Some(i) {
      PrimaryIsDeletedLast(cfg, s, i);
    }
  }

  /** Everything that can happen besides, when neither the revision nor the spec nor the primary is fixed. */
  datatype Move =
    | ClusterEvent(event: Event)
    | Failover(index: nat)              // the primary changes without a switchover
    | NewRevision(revision: string)
    | EditSpec(cfg: Config)             // replicas, failover, strategy, MaxScale

  datatype World = World(cfg: Config, s: State)

  ghost predicate CanMove(w: World, m: Move) {
    m.ClusterEvent? ==> Enabled(w.cfg, w.s, m.event)
  }

  function ApplyMove(w: World, m: Move): World {
    match m
    case ClusterEvent(e) => w.(s := Apply(w.s, e))
    case Failover(i) => w.(s := w.s.(currentPrimary := Some(i)))
    case NewRevision(r) => w.(s := w.s.(updateRevision := r))
    case EditSpec(cfg) => w.(cfg := cfg)
  }

  /** The world in which move k happens. */
  function WorldAt(w: World, ms: seq<Move>, k: nat): World
    requires k <= |ms|
    decreases k
  {
    if k == 0 then w else WorldAt(ApplyMove(w, ms[0]), ms[1..], k - 1)
  }

  ghost predicate IsRun(w: World, ms: seq<Move>)
    decreases |ms|
  {
    ms == [] || (CanMove(w, ms[0]) && IsRun(ApplyMove(w, ms[0]), ms[1..]))
  }

  lemma {:induction false} CanMoveAt(w: World, ms: seq<Move>, k: nat)
    requires IsRun(w, ms) && k < |ms|
    ensures CanMove(WorldAt(w, ms, k), ms[k])
    decreases k
  {
    if k > 0 {
      var u, rest := ApplyMove(w, ms[0]), ms[1..];
      assert IsRun(u, rest);
      CanMoveAt(u, rest, k - 1);
      assert WorldAt(w, ms, k) == WorldAt(u, rest, k - 1);
    }
  }

  /** Whatever the cluster and the user do in between, failovers, scaling and new revisions included, each deletion
      in a run happens in such a state. */
  lemma PrimaryLastInEveryRun(w: World, ms: seq<Move>, k: nat, i: nat)
    requires IsRun(w, ms) && k < |ms| && ms[k] == ClusterEvent(UpdaterPass(DeletePod(i)))
    ensures ReplicasFirst(WorldAt(w, ms, k).cfg, WorldAt(w, ms, k).s, i)
  {
    CanMoveAt(w, ms, k);
    AllowedDeletion(WorldAt(w, ms, k).cfg, WorldAt(w, ms, k).s, i);
  }

  /** The Pods that the updater deletes along a run, in order. */
  function Deletions(es: seq<Event>): seq<nat> {
    if es == [] then []
    else (if es[0].UpdaterPass? && es[0].action.DeletePod? then [es[0].action.pod] else []) + Deletions(es[1..])
  }

  function Switchovers(es: seq<Event>): nat {
    if es == [] then 0 else (if es[0].FinishSwitchover? then 1 else 0) + Switchovers(es[1..])
  }

  ghost predicate NoRepeats(s: seq<nat>) {
    forall i, j :: 0 <= i < j < |s| ==> s[i] != s[j]
  }

  lemma StaleOnlyShrinks(cfg: Config, s: State, e: Event)
    requires Enabled(cfg, s, e)
    ensures StalePods(Apply(s, e)) <= StalePods(s)
    ensures e.UpdaterPass? && e.action.DeletePod? ==>
              e.action.pod in StalePods(s) && StalePods(Apply(s, e)) == StalePods(s) - {e.action.pod}
  {
  }

  /** Over any run at a fixed revision, the updater deletes each initially stale Pod at most once and no other
      Pod at all; so the number of deletions is bounded by the number of stale Pods at the start. */
  lemma {:induction false} EachStalePodIsDeletedAtMostOnce(cfg: Config, s: State, es: seq<Event>, t: State)
    requires Reaches(cfg, s, es, t)
    ensures NoRepeats(Deletions(es))
    ensures forall i :: i in Deletions(es) ==> i in StalePods(s) && i !in StalePods(t)
    ensures StalePods(t) <= StalePods(s)
    ensures |Deletions(es)| + |StalePods(t)| <= |StalePods(s)|
    decreases |es|
  {
    if es != [] {
      var s1 := Apply(s, es[0]);
      StaleOnlyShrinks(cfg, s, es[0]);
      EachStalePodIsDeletedAtMostOnce(cfg, s1, es[1..], t);
      CardinalityMonotone(StalePods(s1), StalePods(s));
      if es[0].UpdaterPass? && es[0].action.DeletePod? {
        var i := es[0].action.pod;
        assert StalePods(s) == StalePods(s1) + {i};
        assert i !in Deletions(es[1..]);
      }
    }
  }

  lemma {:induction false} CardinalityMonotone<T>(a: set<T>, b: set<T>)
    requires a <= b
    ensures |a| <= |b|
    decreases a
  {
    if a != {} {
      var x :| x in a;
      CardinalityMonotone(a - {x}, b - {x});
    }
  }

  /** The primary is settled: no switchover is under way, or the one under way goes to an updated Pod. */
  ghost predicate SwitchoverSafe(s: State) {
    s.currentPrimary.Some? && (s.requested != s.currentPrimary.value ==> s.requested !in StalePods(s))
  }

  predicate PrimaryStale(s: State) {
    s.currentPrimary.Some? && s.currentPrimary.value in StalePods(s)
  }

  /** When nobody but the updater asks for switchovers, at most one completes in a run, and only if the primary
      was stale (or a switchover was already under way): afterwards the primary is at the update revision. */
  lemma {:induction false} AtMostOneSwitchover(cfg: Config, s: State, es: seq<Event>, t: State)
    requires Reaches(cfg, s, es, t) && SwitchoverSafe(s)
    ensures SwitchoverSafe(t)
    ensures Switchovers(es) <= if PrimaryStale(s) || s.requested != s.currentPrimary.value then 1 else 0
    ensures Switchovers(es) > 0 ==> !PrimaryStale(t)
    ensures !PrimaryStale(s) && s.requested == s.currentPrimary.value ==> !PrimaryStale(t) && t.requested == t.currentPrimary.value
    decreases |es|
  {
    if es != [] {
      var s1 := Apply(s, es[0]);
      StaleOnlyShrinks(cfg, s, es[0]);
      if es[0].UpdaterPass? && es[0].action.RequestSwitchover? {
        SwitchoverTargetIsUpdated(cfg, s, es[0].action.target);
      }
      AtMostOneSwitchover(cfg, s1, es[1..], t);
    }
  }

  // ---------------------------------------------------------------------------------------------
  // Termination
  // ---------------------------------------------------------------------------------------------

  /** A cluster at rest: every Pod present and ready, no operation or switchover under way, and, with replication,
      every Pod but the primary a configured replica. */
  ghost predicate Settled(cfg: Config, s: State) {
    && cfg.roleAware && cfg.replicas > 0 && ((cfg.replication || cfg.galera) ==> cfg.replicas > 1)
    && s.pods.Keys == IndicesBelow(cfg.replicas)
    && (forall i :: i in s.pods ==> s.pods[i].ready)
    && s.readyReplicas == cfg.replicas
    && s.updateRevision != "" && !s.locked && (cfg.maxScale ==> s.maxScaleReady)
    && s.currentPrimary == Some(s.requested) && s.requested in s.pods
    && (cfg.replication ==> forall i :: i in s.pods && i != s.requested ==> IsReplica(s, PodName(cfg.name, i)))
  }

  /** Galera clusters of any size settle too; they have no replication status. */
  lemma GaleraClusterIsSettled(cfg: Config, pods: map<nat, Pod>, revision: string, primary: nat)
    requires cfg.galera && !cfg.replication && cfg.roleAware && !cfg.maxScale && cfg.replicas > 1 && revision != ""
    requires pods.Keys == IndicesBelow(cfg.replicas) && (forall i :: i in pods ==> pods[i].ready) && primary in pods
    ensures Settled(cfg, State(pods, revision, cfg.replicas, false, Some(primary), primary, map[], false))
  {
  }

  /** What a healthy cluster does after an action: the deleted Pod comes back ready, the switchover completes
      and the old primary becomes a replica. */
  function Recovered(cfg: Config, s: State, a: Action): State
    requires a.RequestSwitchover? ==> s.currentPrimary.Some?
  {
    match a
    case Stop(_) => s
    case DeletePod(i) => s.(pods := s.pods[i := Pod(Some(s.updateRevision), true)])
    case RequestSwitchover(i) =>
      s.(currentPrimary := Some(i),
         replicationStatus := s.replicationStatus[PodName(cfg.name, s.currentPrimary.value) := Slave][PodName(cfg.name, i) := Master])
  }

  lemma SettledMustAct(cfg: Config, s: State)
    requires Settled(cfg, s) && StalePods(s) != {}
    ensures MustAct(cfg, s)
  {
    assert |s.pods| == |s.pods.Keys| == cfg.replicas;
    if cfg.replication {
      var i := if s.requested == 0 then 1 else 0;
      assert i in s.pods && Promotable(cfg, s, i);
    }
  }

  lemma SettledFrame(cfg: Config, s: State, pods: map<nat, Pod>)
    requires Settled(cfg, s) && pods.Keys == s.pods.Keys
    requires forall i :: i in pods ==> pods[i].ready
    ensures Settled(cfg, s.(pods := pods))
  {
    var t := s.(pods := pods);
    if cfg.replication {
      forall i | i in t.pods && i != t.requested
        ensures IsReplica(t, PodName(cfg.name, i))
      {
        assert IsReplica(s, PodName(cfg.name, i));
      }
    }
  }

  lemma ReplacedPodIsNotStale(s: State, i: nat)
    requires i in StalePods(s)
    ensures var pods := (s.pods - {i})[i := Pod(Some(s.updateRevision), true)];
            pods.Keys == s.pods.Keys && StalePods(s.(pods := pods)) == StalePods(s) - {i}
  {
  }

  lemma DeleteRound(cfg: Config, s: State, i: nat)
    requires Settled(cfg, s) && i in StalePods(s)
    ensures var t := Recovered(cfg, Perform(s, DeletePod(i)), DeletePod(i));
            Settled(cfg, t) && StalePods(t) == StalePods(s) - {i}
  {
    var pods := (s.pods - {i})[i := Pod(Some(s.updateRevision), true)];
    ReplacedPodIsNotStale(s, i);
    SettledFrame(cfg, s, pods);
    assert Recovered(cfg, Perform(s, DeletePod(i)), DeletePod(i)) == s.(pods := pods);
  }

  lemma SwitchoverRound(cfg: Config, s: State, i: nat)
    requires Settled(cfg, s) && Allowed(cfg, s, RequestSwitchover(i))
    ensures var t := Recovered(cfg, Perform(s, RequestSwitchover(i)), RequestSwitchover(i));
            Settled(cfg, t) && StalePods(t) == StalePods(s) && PrimaryStale(s) && !PrimaryStale(t)
  {
    var t := Recovered(cfg, Perform(s, RequestSwitchover(i)), RequestSwitchover(i));
    SwitchoverTargetIsUpdated(cfg, s, i);
    assert t.pods == s.pods;
    assert StalePods(t) == StalePods(s);
    forall j | j in t.pods && j != i
      ensures IsReplica(t, PodName(cfg.name, j))
    {
      PodNameInjective(cfg.name, i, j);
      PodNameInjective(cfg.name, s.requested, j);
    }
  }

  /** Each round decreases (number of stale Pods, is the primary stale) lexicographically and settles again. */
  lemma RoundDecreases(cfg: Config, s: State, a: Action)
    requires Settled(cfg, s) && Allowed(cfg, s, a) && !a.Stop?
    ensures var t := Recovered(cfg, Perform(s, a), a);
            && Settled(cfg, t)
            && t.updateRevision == s.updateRevision
            && (|StalePods(t)| < |StalePods(s)| || (StalePods(t) == StalePods(s) && PrimaryStale(s) && !PrimaryStale(t)))
  {
    match a {
      case DeletePod(i) => DeleteRound(cfg, s, i);
      case RequestSwitchover(i) => SwitchoverRound(cfg, s, i);
    }
  }

  /** The update finishes: passes of the updater, each followed by the recovery of what it touched, bring every
      Pod to the update revision. */
  method Rollout(updater: Updater)
    requires Settled(updater.cfg, updater.cluster)
    modifies updater
    ensures Settled(updater.cfg, updater.cluster) && StalePods(updater.cluster) == {}
    ensures updater.cluster.updateRevision == old(updater.cluster.updateRevision)
    ensures forall i: nat :: i < updater.cfg.replicas ==> i in updater.cluster.pods && Updated(updater.cluster, i)
  {
    while StalePods(updater.cluster) != {}
      invariant Settled(updater.cfg, updater.cluster)
      invariant updater.cluster.updateRevision == old(updater.cluster.updateRevision)
      decreases |StalePods(updater.cluster)|, PrimaryStale(updater.cluster)
    {
      SettledMustAct(updater.cfg, updater.cluster);
      ghost var before := updater.cluster;
      var a := updater.ReconcileUpdates();
      RoundDecreases(updater.cfg, before, a);
      updater.cluster := Recovered(updater.cfg, updater.cluster, a);
    }
    assert forall i :: i in updater.cluster.pods ==> i !in StalePods(updater.cluster);
  }
}

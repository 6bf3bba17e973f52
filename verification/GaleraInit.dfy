/** The Galera init container: N of them run concurrently, each deciding from the files on its own volumes and one
    early look at the MariaDB object whether to bootstrap the cluster and whom to wait for. */
module GaleraInit {
  import opened Prelude

  datatype StateFile = Grastate | Gvwstate | SstPid | SstInProgress

  /** What the container read of the MariaDB object when it started. It is not read again. */
  datatype Seen = Seen(configured: bool, snapshot: bool)

  datatype Pc =
    | Absent
    | Begun                              // about to read the MariaDB object
    | CleaningState(seen: Seen, k: nat)  // cleanupStateForVolumeSnapshot, k files done
    | Configuring(seen: Seen)            // configureGalera
    | Bootstrapping(seen: Seen)          // configureGaleraBootstrap
    | Awaiting(seen: Seen)               // waitForPreviousPod
    | CleaningSst(seen: Seen, k: nat)    // cleanupPreviousSST, k files done
    | InitDone

  datatype Pod = Pod(pc: Pc, files: set<StateFile>, config: bool, bootstrap: bool, ready: bool)

  const GaleraStateFiles: seq<StateFile> := [Grastate, Gvwstate]
  const SstFiles: seq<StateFile> := [SstPid, SstInProgress]

  predicate HasGaleraState(p: Pod) {
    Grastate in p.files || Gvwstate in p.files
  }

  /** The container's next step. `previousReady` is what a poll of the previous Pod would see. */
  function PodStep(p: Pod, i: nat, previousReady: bool): Pod {
    match p.pc
    case CleaningState(seen, k) =>
      if seen.configured || !seen.snapshot || k >= 2 then p.(pc := Configuring(seen))
      else p.(files := p.files - {GaleraStateFiles[k]}, pc := CleaningState(seen, k + 1))
    case Configuring(seen) => p.(config := true, pc := Bootstrapping(seen))
    case Bootstrapping(seen) =>
      p.(bootstrap := p.bootstrap || !(seen.configured || HasGaleraState(p) || i != 0), pc := Awaiting(seen))
    case Awaiting(seen) =>
      if seen.configured || HasGaleraState(p) || i == 0 || previousReady then p.(pc := CleaningSst(seen, 0)) else p
    case CleaningSst(seen, k) =>
      if k < 2 then p.(files := p.files - {SstFiles[k]}, pc := CleaningSst(seen, k + 1))
      else p.(pc := InitDone)
    case _ => p
  }

  // ---------------------------------------------------------------------------------------------
  // The cluster
  // ---------------------------------------------------------------------------------------------

  datatype History = History(
    everConfigured: bool,     // GaleraConfigured has been set
    skipped: bool,            // some container has finished on the path for a failed lookup
    finished: set<nat>,       // Pods whose init has finished
    everReady: set<nat>,
    served: set<nat>,         // Pods whose server has started on the current volume
    rebootstrapped: bool      // the bootstrap file was written for a Pod that had already served
  )

  datatype State = State(configured: bool, snapshot: bool, pods: seq<Pod>, h: History)

  datatype Event =
    | Begin(i: nat)                      // a Pod, new or restarted, starts its init container
    | Lookup(i: nat)                     // the container reads the MariaDB object
    | LookupFails(i: nat)
    | Container(i: nat)                  // the container's next step
    | BootstrapFails(i: nat)             // the error is logged and the container goes on
    | Serve(i: nat)                      // the server starts and writes its state file
    | WriteFile(i: nat, file: StateFile) // the server, or an SST it takes part in
    | DropGvwstate(i: nat)               // the server shuts down cleanly
    | SetReady(i: nat, isReady: bool)
    | Stop(i: nat)                       // the Pod goes away, its volumes stay
    | DisableBootstrap(i: nat)           // the agent removes the bootstrap file
    | WipeVolumes(i: nat)
    | SetConfigured(value: bool)

  predicate PreviousReady(s: State, i: nat) {
    0 < i <= |s.pods| && s.pods[i - 1].ready
  }

  predicate Enabled(s: State, e: Event) {
    match e
    case Begin(i) => i < |s.pods|
    case Lookup(i) => i < |s.pods| && s.pods[i].pc.Begun?
    case LookupFails(i) => i < |s.pods| && s.pods[i].pc.Begun?
    case Container(i) => i < |s.pods|
    case BootstrapFails(i) => i < |s.pods| && s.pods[i].pc.Bootstrapping?
    case Serve(i) => i < |s.pods| && s.pods[i].pc.InitDone?
    case WriteFile(i, _) => i < |s.pods| && s.pods[i].pc.InitDone?
    case DropGvwstate(i) => i < |s.pods| && s.pods[i].pc.InitDone?
    case SetReady(i, r) => i < |s.pods| && (r ==> s.pods[i].pc.InitDone?)
    case Stop(i) => i < |s.pods|
    case DisableBootstrap(i) => i < |s.pods|
    case WipeVolumes(i) => i < |s.pods| && s.pods[i].pc.Absent?
    case SetConfigured(_) => true
  }

  function SetPod(s: State, i: nat, p: Pod): State
    requires i < |s.pods|
  {
    s.(pods := s.pods[i := p])
  }

  function Apply(s: State, e: Event): State
    requires Enabled(s, e)
  {
    match e
    case Begin(i) => SetPod(s, i, s.pods[i].(pc := Begun, ready := false))
    case Lookup(i) => SetPod(s, i, s.pods[i].(pc := CleaningState(Seen(s.configured, s.snapshot), 0)))
    case LookupFails(i) =>
      if s.pods[i].config
      then SetPod(s, i, s.pods[i].(pc := InitDone)).(h := s.h.(skipped := true, finished := s.h.finished + {i}))
      else s
    case Container(i) =>
      var p := PodStep(s.pods[i], i, PreviousReady(s, i));
      SetPod(s, i, p).(h := s.h.(
        finished := if p.pc.InitDone? then s.h.finished + {i} else s.h.finished,
        rebootstrapped := s.h.rebootstrapped || (p.bootstrap && !s.pods[i].bootstrap && i in s.h.served)))
    case BootstrapFails(i) => SetPod(s, i, s.pods[i].(pc := Awaiting(s.pods[i].pc.seen)))
    case Serve(i) =>
      SetPod(s, i, s.pods[i].(files := s.pods[i].files + {Grastate})).(h := s.h.(served := s.h.served + {i}))
    case WriteFile(i, f) => SetPod(s, i, s.pods[i].(files := s.pods[i].files + {f}))
    case DropGvwstate(i) => SetPod(s, i, s.pods[i].(files := s.pods[i].files - {Gvwstate}))
    case SetReady(i, r) =>
      SetPod(s, i, s.pods[i].(ready := r)).(h := s.h.(everReady := if r then s.h.everReady + {i} else s.h.everReady))
    case Stop(i) => SetPod(s, i, s.pods[i].(pc := Absent, ready := false))
    case DisableBootstrap(i) => SetPod(s, i, s.pods[i].(bootstrap := false))
    case WipeVolumes(i) =>
      SetPod(s, i, s.pods[i].(files := {}, config := false, bootstrap := false)).(h := s.h.(served := s.h.served - {i}))
    case SetConfigured(b) => s.(configured := b, h := s.h.(everConfigured := s.h.everConfigured || b))
  }

  ghost predicate Reaches(s: State, es: seq<Event>, t: State)
    decreases |es|
  {
    if es == [] then s == t else Enabled(s, es[0]) && Reaches(Apply(s, es[0]), es[1..], t)
  }

  /** A fresh cluster: no Pods yet, and Galera state on the volumes only if they come from a snapshot. */
  ghost predicate Init(s: State) {
    && !s.configured
    && s.h == History(false, false, {}, {}, {}, false)
    && forall i :: 0 <= i < |s.pods| ==>
         && s.pods[i].pc == Absent && !s.pods[i].ready && !s.pods[i].bootstrap
         && (!s.snapshot ==> !HasGaleraState(s.pods[i]))
  }

  // ---------------------------------------------------------------------------------------------
  // Who bootstraps
  // ---------------------------------------------------------------------------------------------

  /** Whatever happens in the cluster, lookups that fail included: the bootstrap file appears only on Pod 0, in a
      container that read GaleraConfigured as unset and finds no Galera state left. */
  lemma OnlyPodZeroBootstraps(s: State, e: Event, i: nat)
    requires Enabled(s, e) && i < |s.pods|
    requires !s.pods[i].bootstrap && Apply(s, e).pods[i].bootstrap
    ensures i == 0 && e == Container(0) && s.pods[0].pc.Bootstrapping?
    ensures !s.pods[0].pc.seen.configured && Grastate !in s.pods[0].files && Gvwstate !in s.pods[0].files
  {
  }

  /** What holds of Pod i: in particular, a container that is past the clean-up knows no Galera state that its own
      server did not write. */
  ghost predicate PodOk(p: Pod, i: nat, snapshot: bool, h: History) {
    && (p.bootstrap ==> i == 0)
    && (p.ready ==> p.pc.InitDone? && i in h.everReady)
    && (p.pc.InitDone? || i in h.everReady ==> i in h.finished)
    && (SeenOf(p).Some? ==> (SeenOf(p).value.configured ==> h.everConfigured) && SeenOf(p).value.snapshot == snapshot)
    && (!snapshot && HasGaleraState(p) ==> i in h.finished)
    && (!snapshot && i in h.served ==> Grastate in p.files)
    && (snapshot && p.pc.CleaningState? && !p.pc.seen.configured ==>
          (p.pc.k >= 1 ==> Grastate !in p.files) && (p.pc.k >= 2 ==> Gvwstate !in p.files))
    && (PastCleanup(p) && !SeenOf(p).value.configured && HasGaleraState(p) ==> i in h.finished)
  }

  function SeenOf(p: Pod): Option<Seen> {
    match p.pc
    case CleaningState(seen, _) => Some(seen)
    case Configuring(seen) => Some(seen)
    case Bootstrapping(seen) => Some(seen)
    case Awaiting(seen) => Some(seen)
    case CleaningSst(seen, _) => Some(seen)
    case _ => None
  }

  predicate PastCleanup(p: Pod) {
    p.pc.Configuring? || p.pc.Bootstrapping? || p.pc.Awaiting? || p.pc.CleaningSst?
  }

  ghost predicate AllBefore(i: nat, ready: set<nat>) {
    forall j: nat :: j < i ==> j in ready
  }

  /** Until GaleraConfigured is set: finishing implies that everyone before has been ready. */
  ghost predicate Ordered(s: State) {
    && (forall i: nat :: i in s.h.finished ==> AllBefore(i, s.h.everReady))
    && (forall i: nat :: i < |s.pods| && s.pods[i].pc.CleaningSst? ==> AllBefore(i, s.h.everReady))
  }

  ghost predicate Inv(s: State) {
    && (forall i: nat :: i < |s.pods| ==> PodOk(s.pods[i], i, s.snapshot, s.h))
    && (s.configured ==> s.h.everConfigured)
    && (!s.h.everConfigured && !s.h.skipped ==> Ordered(s))
    && (!s.snapshot ==> !s.h.rebootstrapped)
  }

  /** The history may grow, but for Pod i nothing else has happened. */
  ghost predicate SameFor(i: nat, h: History, h': History) {
    && (h.everConfigured ==> h'.everConfigured)
    && (i in h.finished ==> i in h'.finished)
    && (i in h'.everReady <==> i in h.everReady)
    && (i in h'.served ==> i in h.served)
  }

  lemma PodFrame(p: Pod, i: nat, snapshot: bool, h: History, h': History)
    requires PodOk(p, i, snapshot, h) && SameFor(i, h, h')
    ensures PodOk(p, i, snapshot, h')
  {
  }

  lemma PodStepKeepsPodOk(p: Pod, i: nat, previousReady: bool, snapshot: bool, h: History, h': History)
    requires PodOk(p, i, snapshot, h) && SameFor(i, h, h')
    requires PodStep(p, i, previousReady).pc.InitDone? ==> i in h'.finished
    ensures PodOk(PodStep(p, i, previousReady), i, snapshot, h')
  {
    match p.pc {
      case CleaningState(_, _) =>
      case Configuring(_) =>
      case Bootstrapping(_) =>
      case Awaiting(_) =>
      case CleaningSst(_, _) =>
      case _ =>
    }
  }

  /** The container starts, or reads the MariaDB object, or fails to. */
  lemma StartKeepsPodOk(s: State, e: Event, i: nat)
    requires Enabled(s, e) && (e.Begin? || e.Lookup? || e.LookupFails? || e.BootstrapFails?) && i == e.i
    requires PodOk(s.pods[i], i, s.snapshot, s.h) && (s.configured ==> s.h.everConfigured)
    ensures PodOk(Apply(s, e).pods[i], i, s.snapshot, Apply(s, e).h)
  {
    match e {
      case Begin(_) =>
      case Lookup(_) =>
      case LookupFails(_) =>
      case BootstrapFails(_) =>
    }
  }

  /** The server writes its files. */
  lemma ServerKeepsPodOk(s: State, e: Event, i: nat)
    requires Enabled(s, e) && (e.Serve? || e.WriteFile? || e.DropGvwstate?) && i == e.i
    requires PodOk(s.pods[i], i, s.snapshot, s.h)
    ensures PodOk(Apply(s, e).pods[i], i, s.snapshot, Apply(s, e).h)
  {
    match e {
      case Serve(_) =>
      case WriteFile(_, _) =>
      case DropGvwstate(_) =>
    }
  }

  /** Kubernetes, the agent and the user. */
  lemma ClusterKeepsPodOk(s: State, e: Event, i: nat)
    requires Enabled(s, e) && (e.SetReady? || e.Stop? || e.DisableBootstrap? || e.WipeVolumes?) && i == e.i
    requires PodOk(s.pods[i], i, s.snapshot, s.h)
    ensures PodOk(Apply(s, e).pods[i], i, s.snapshot, Apply(s, e).h)
  {
    match e {
      case SetReady(_, _) =>
      case Stop(_) =>
      case DisableBootstrap(_) =>
      case WipeVolumes(_) =>
    }
  }

  lemma TouchedPodOk(s: State, e: Event, i: nat)
    requires Enabled(s, e) && !e.SetConfigured? && i == e.i
    requires PodOk(s.pods[i], i, s.snapshot, s.h) && (s.configured ==> s.h.everConfigured)
    ensures PodOk(Apply(s, e).pods[i], i, s.snapshot, Apply(s, e).h)
  {
    if e.Container? {
      PodStepKeepsPodOk(s.pods[i], i, PreviousReady(s, i), s.snapshot, s.h, Apply(s, e).h);
    } else if e.Begin? || e.Lookup? || e.LookupFails? || e.BootstrapFails? {
      StartKeepsPodOk(s, e, i);
    } else if e.Serve? || e.WriteFile? || e.DropGvwstate? {
      ServerKeepsPodOk(s, e, i);
    } else {
      ClusterKeepsPodOk(s, e, i);
    }
  }

  lemma EventKeepsPods(s: State, e: Event, i: nat)
    requires Inv(s) && Enabled(s, e) && i < |s.pods|
    ensures PodOk(Apply(s, e).pods[i], i, s.snapshot, Apply(s, e).h)
  {
    assert PodOk(s.pods[i], i, s.snapshot, s.h);
    if !e.SetConfigured? && e.i == i {
      TouchedPodOk(s, e, i);
    } else {
      PodFrame(s.pods[i], i, s.snapshot, s.h, Apply(s, e).h);
    }
  }

  /** Until GaleraConfigured is set, only a container that is past the wait finishes, and it gets past the wait only
      as Pod 0, behind a Pod that is ready, or having finished before. */
  lemma EventKeepsOrder(s: State, e: Event)
    requires Inv(s) && Enabled(s, e) && !Apply(s, e).h.everConfigured && !Apply(s, e).h.skipped
    ensures Ordered(Apply(s, e))
  {
    var t := Apply(s, e);
    assert Ordered(s) && s.h.everReady <= t.h.everReady;
    forall i: nat | i in t.h.finished
      ensures AllBefore(i, t.h.everReady)
    {
      if i !in s.h.finished {
        assert e == Container(i) && s.pods[i].pc.CleaningSst?;
      }
      assert AllBefore(i, s.h.everReady);
    }
    forall i: nat | i < |t.pods| && t.pods[i].pc.CleaningSst?
      ensures AllBefore(i, t.h.everReady)
    {
      if s.pods[i].pc.CleaningSst? {
        assert AllBefore(i, s.h.everReady);
      } else {
        assert e == Container(i) && s.pods[i].pc.Awaiting?;
        assert PodOk(s.pods[i], i, s.snapshot, s.h);
        if HasGaleraState(s.pods[i]) {
          assert i in s.h.finished;
        } else if i > 0 {
          assert PodOk(s.pods[i - 1], i - 1, s.snapshot, s.h);
          assert AllBefore(i - 1, s.h.everReady) && i - 1 in s.h.everReady;
        }
      }
    }
  }

  lemma EventKeepsInv(s: State, e: Event)
    requires Inv(s) && Enabled(s, e)
    ensures Inv(Apply(s, e))
  {
    var t := Apply(s, e);
    forall i: nat | i < |t.pods|
      ensures PodOk(t.pods[i], i, t.snapshot, t.h)
    {
      EventKeepsPods(s, e, i);
    }
    if !t.h.everConfigured && !t.h.skipped {
      EventKeepsOrder(s, e);
    }
    if !s.snapshot && t.h.rebootstrapped {
      assert PodOk(s.pods[e.i], e.i, s.snapshot, s.h);
    }
  }

  lemma {:induction false} RunKeepsInv(s: State, es: seq<Event>, t: State)
    requires Inv(s) && Reaches(s, es, t)
    ensures Inv(t) && t.snapshot == s.snapshot && |t.pods| == |s.pods|
    decreases |es|
  {
    if es != [] {
      EventKeepsInv(s, es[0]);
      RunKeepsInv(Apply(s, es[0]), es[1..], t);
    }
  }

  // ---------------------------------------------------------------------------------------------
  // Main results
  // ---------------------------------------------------------------------------------------------

  /** One after the other: in a fresh cluster, as long as GaleraConfigured has not been set and no container took the
      path for a failed lookup, a Pod that has finished its init has been preceded by every lower Pod becoming
      ready. */
  lemma PodsJoinInOrder(s: State, es: seq<Event>, t: State, i: nat, j: nat)
    requires Init(s) && Reaches(s, es, t) && !t.h.everConfigured && !t.h.skipped
    requires i in t.h.finished && j < i
    ensures j in t.h.everReady
  {
    RunKeepsInv(s, es, t);
    assert AllBefore(i, t.h.everReady);
  }

  /** Without a snapshot, nobody bootstraps over data that a server has already joined a cluster with. */
  lemma ServedPodIsNotBootstrapped(s: State, es: seq<Event>, t: State)
    requires Init(s) && Reaches(s, es, t) && !s.snapshot
    ensures !t.h.rebootstrapped
  {
    RunKeepsInv(s, es, t);
  }

  // ---------------------------------------------------------------------------------------------
  // What the provisos exclude
  // ---------------------------------------------------------------------------------------------

  /** The next `n` steps of container i, with nothing else happening. */
  function Steps(s: State, i: nat, n: nat): State
    requires i < |s.pods|
    decreases n
  {
    if n == 0 then s else Steps(Apply(s, Container(i)), i, n - 1)
  }

  /** With a snapshot every restart of Pod 0 before GaleraConfigured does: the clean-up deletes the state its own
      server has written, and the container takes the cluster for a new one. */
  lemma SnapshotRestartRebootstraps(s: State)
    requires |s.pods| > 0 && s.snapshot && !s.configured && 0 in s.h.served && !s.pods[0].bootstrap
    ensures var begun := Apply(s, Begin(0));
            Steps(Apply(begun, Lookup(0)), 0, 5).h.rebootstrapped
  {
    var seen := Seen(false, true);
    var a := Apply(Apply(s, Begin(0)), Lookup(0));
    assert a.pods[0].pc == CleaningState(seen, 0);
    var b := Apply(a, Container(0));
    assert b.pods[0].pc == CleaningState(seen, 1);
    var c := Apply(b, Container(0));
    assert c.pods[0].pc == CleaningState(seen, 2) && !HasGaleraState(c.pods[0]) && !c.pods[0].bootstrap;
    var d := Apply(c, Container(0));
    var e := Apply(d, Container(0));
    assert e.pods[0].pc == Bootstrapping(seen) && !HasGaleraState(e.pods[0]) && !e.pods[0].bootstrap && 0 in e.h.served;
    var f := Apply(e, Container(0));
    assert f.h.rebootstrapped;
    assert Steps(f, 0, 0) == Steps(e, 0, 1) == Steps(d, 0, 2) == Steps(c, 0, 3) == Steps(b, 0, 4) == Steps(a, 0, 5);
  }

  /** The MariaDB object is read once: a container that read it before GaleraConfigured was set still bootstraps
      afterwards. */
  lemma StaleReadBootstraps(s: State)
    requires |s.pods| > 0 && s.pods[0].pc == Bootstrapping(Seen(false, s.snapshot)) && !HasGaleraState(s.pods[0])
    ensures var t := Apply(Apply(s, SetConfigured(true)), Container(0));
            t.configured && t.pods[0].bootstrap
  {
  }

  /** A container that cannot read the MariaDB object finishes without waiting if and only if a configuration file is
      left from before; nobody has to have become ready. */
  lemma FailedLookupFinishesIff(s: State, i: nat)
    requires Enabled(s, LookupFails(i))
    ensures var t := Apply(s, LookupFails(i));
            (t.pods[i].pc.InitDone? <==> s.pods[i].config) && (s.pods[i].config ==> i in t.h.finished) && t.h.everReady == s.h.everReady
  {
  }

  /** In a fresh cluster that breaks the order. */
  lemma FailedLookupJumpsTheQueue() returns (s: State, es: seq<Event>, t: State)
    ensures Init(s) && Reaches(s, es, t) && !t.h.everConfigured
    ensures 1 in t.h.finished && 0 !in t.h.everReady
  {
    var left := Pod(Absent, {}, true, false, false);
    s := State(false, false, [left, left], History(false, false, {}, {}, {}, false));
    es := [Begin(1), LookupFails(1)];
    var u := Apply(s, Begin(1));
    t := Apply(u, LookupFails(1));
    assert es[1..] == [LookupFails(1)] && es[1..][1..] == [];
    assert Reaches(t, es[1..][1..], t);
    assert Reaches(u, es[1..], t);
  }

  // ---------------------------------------------------------------------------------------------
  // The container's own code
  // ---------------------------------------------------------------------------------------------

  /** PodStep, once for each observation of the previous Pod. */
  function PodSteps(p: Pod, i: nat, observed: seq<bool>): Pod {
    if observed == [] then p else PodStep(PodSteps(p, i, observed[..|observed| - 1]), i, observed[|observed| - 1])
  }

  lemma PodStepsAppend(p: Pod, i: nat, observed: seq<bool>, b: bool)
    ensures PodSteps(p, i, observed + [b]) == PodStep(PodSteps(p, i, observed), i, b)
  {
    assert (observed + [b])[..|observed|] == observed;
  }

  lemma {:induction false} PodStepsConcat(p: Pod, i: nat, first: seq<bool>, rest: seq<bool>)
    ensures PodSteps(p, i, first + rest) == PodSteps(PodSteps(p, i, first), i, rest)
    decreases |rest|
  {
    if rest == [] {
      assert first + rest == first;
    } else {
      var n := |rest| - 1;
      PodStepsConcat(p, i, first, rest[..n]);
      assert (first + rest)[..|first + rest| - 1] == first + rest[..n];
    }
  }

  lemma CleaningStateSteps(p: Pod, i: nat) returns (observed: seq<bool>)
    requires p.pc.CleaningState? && p.pc.k == 0 && !p.pc.seen.configured && p.pc.seen.snapshot
    ensures PodSteps(p, i, observed) == p.(pc := Configuring(p.pc.seen), files := p.files - {Grastate, Gvwstate})
  {
    var one, two := p.(pc := CleaningState(p.pc.seen, 1), files := p.files - {Grastate}),
                    p.(pc := CleaningState(p.pc.seen, 2), files := p.files - {Grastate, Gvwstate});
    PodStepsAppend(p, i, [], false);
    assert PodSteps(p, i, [] + [false]) == one;
    PodStepsAppend(p, i, [] + [false], false);
    assert one.files - {Gvwstate} == two.files;
    assert PodSteps(p, i, [] + [false] + [false]) == two;
    PodStepsAppend(p, i, [] + [false] + [false], false);
    observed := [] + [false] + [false] + [false];
  }

  lemma CleaningSstSteps(p: Pod, i: nat) returns (observed: seq<bool>)
    requires p.pc.CleaningSst? && p.pc.k == 0
    ensures PodSteps(p, i, observed) == p.(pc := InitDone, files := p.files - {SstPid, SstInProgress})
  {
    var one, two := p.(pc := CleaningSst(p.pc.seen, 1), files := p.files - {SstPid}),
                    p.(pc := CleaningSst(p.pc.seen, 2), files := p.files - {SstPid, SstInProgress});
    PodStepsAppend(p, i, [], false);
    assert PodSteps(p, i, [] + [false]) == one;
    PodStepsAppend(p, i, [] + [false], false);
    assert one.files - {SstInProgress} == two.files;
    assert PodSteps(p, i, [] + [false] + [false]) == two;
    PodStepsAppend(p, i, [] + [false] + [false], false);
    observed := [] + [false] + [false] + [false];
  }

  class InitContainer {
    const index: nat
    var pod: Pod

    constructor (index: nat, pod: Pod)
      ensures this.index == index && this.pod == pod
    {
      this.index, this.pod := index, pod;
    }

    /** The loop over cleanupStateFile: exactly the given files go. */
    method DeleteStateFiles(files: seq<StateFile>)
      modifies this`pod
      ensures pod == old(pod).(files := old(pod.files) - (set f | f in files))
    {
      ghost var start := pod;
      for k := 0 to |files|
        invariant pod == start.(files := pod.files)
        invariant forall f :: f in pod.files <==> f in start.files && f !in files[..k]
      {
        pod := pod.(files := pod.files - {files[k]});
      }
      assert pod.files == start.files - (set f | f in files);
    }

    method CleanupStateForVolumeSnapshot() returns (ghost seen: seq<bool>)
      requires pod.pc.CleaningState? && pod.pc.k == 0
      modifies this`pod
      ensures pod == PodSteps(old(pod), index, seen)
      ensures var was := old(pod);
              pod == was.(pc := Configuring(was.pc.seen),
                          files := if !was.pc.seen.configured && was.pc.seen.snapshot then was.files - {Grastate, Gvwstate}
                                   else was.files)
    {
      ghost var start := pod;
      var mdb := pod.pc.seen;
      if mdb.configured || !mdb.snapshot {
        PodStepsAppend(start, index, [], false);
        pod := pod.(pc := Configuring(mdb));
        return [] + [false];
      }
      DeleteStateFiles(GaleraStateFiles);
      assert pod.files == start.files - {Grastate, Gvwstate};
      seen := CleaningStateSteps(start, index);
      pod := pod.(pc := Configuring(mdb));
    }

    /** configureGalera and configureGaleraBootstrap. */
    method ConfigureGalera() returns (ghost seen: seq<bool>)
      requires pod.pc.Configuring?
      modifies this`pod
      ensures pod == PodSteps(old(pod), index, seen)
      ensures pod == old(pod).(pc := Awaiting(old(pod.pc.seen)), config := true, bootstrap := pod.bootstrap)
      ensures pod.bootstrap <==>
                old(pod.bootstrap) || (index == 0 && !old(pod.pc.seen.configured) && Grastate !in pod.files && Gvwstate !in pod.files)
    {
      ghost var start := pod;
      var mdb := pod.pc.seen;
      PodStepsAppend(start, index, [], false);
      pod := pod.(config := true, pc := Bootstrapping(mdb));
      PodStepsAppend(start, index, [] + [false], false);
      seen := [] + [false] + [false];
      if mdb.configured || HasGaleraState(pod) || index != 0 {
        pod := pod.(pc := Awaiting(mdb));
        return;
      }
      pod := pod.(bootstrap := true, pc := Awaiting(mdb));
    }

    /** waitForPreviousPod: `polls` is what successive polls see before the context is cancelled. */
    method WaitForPreviousPod(polls: seq<bool>) returns (ok: bool, ghost seen: seq<bool>)
      requires pod.pc.Awaiting?
      modifies this`pod
      ensures pod == PodSteps(old(pod), index, seen)
      ensures ok <==>
                old(pod.pc.seen.configured) || Grastate in old(pod.files) || Gvwstate in old(pod.files) || index == 0 || true in polls
      ensures pod == if ok then old(pod).(pc := CleaningSst(old(pod.pc.seen), 0)) else old(pod)
    {
      ghost var start := pod;
      var mdb := pod.pc.seen;
      seen := [];
      if mdb.configured || HasGaleraState(pod) || index == 0 {
        PodStepsAppend(start, index, seen, false);
        pod := pod.(pc := CleaningSst(mdb, 0));
        return true, seen + [false];
      }
      for n := 0 to |polls|
        invariant pod == start && pod == PodSteps(start, index, seen)
        invariant true !in polls[..n]
      {
        PodStepsAppend(start, index, seen, polls[n]);
        seen := seen + [polls[n]];
        if polls[n] {
          pod := pod.(pc := CleaningSst(mdb, 0));
          return true, seen;
        }
      }
      assert polls[..|polls|] == polls;
      return false, seen;
    }

    method CleanupPreviousSST() returns (ghost seen: seq<bool>)
      requires pod.pc.CleaningSst? && pod.pc.k == 0
      modifies this`pod
      ensures pod == PodSteps(old(pod), index, seen)
      ensures pod == old(pod).(pc := InitDone, files := old(pod.files) - {SstPid, SstInProgress})
    {
      seen := CleaningSstSteps(pod, index);
      ghost var start := pod;
      DeleteStateFiles(SstFiles);
      assert pod.files == start.files - {SstPid, SstInProgress};
      pod := pod.(pc := InitDone);
    }

    /** The whole container once the MariaDB object has been read: exit code 0 exactly when it need not wait or the
        previous Pod was seen ready; the bootstrap file exactly as OnlyPodZeroBootstraps says. */
    method Run(polls: seq<bool>) returns (exitCode: int, ghost seen: seq<bool>)
      requires pod.pc.CleaningState? && pod.pc.k == 0
      modifies this`pod
      ensures pod == PodSteps(old(pod), index, seen)
      ensures pod.pc.InitDone? <==> exitCode == 0
      ensures var mdb := old(pod.pc.seen);
              var kept := !mdb.snapshot && (Grastate in old(pod.files) || Gvwstate in old(pod.files));
              && (exitCode == 0 <==> mdb.configured || kept || index == 0 || true in polls)
              && (pod.bootstrap <==> old(pod.bootstrap) || (index == 0 && !mdb.configured && !kept))
    {
      ghost var start := pod;
      seen := CleanupStateForVolumeSnapshot();
      ghost var more := ConfigureGalera();
      PodStepsConcat(start, index, seen, more);
      seen := seen + more;
      var ok;
      ok, more := WaitForPreviousPod(polls);
      PodStepsConcat(start, index, seen, more);
      seen := seen + more;
      if !ok {
        return 1, seen;
      }
      more := CleanupPreviousSST();
      PodStepsConcat(start, index, seen, more);
      seen := seen + more;
      exitCode := 0;
    }
  }
}

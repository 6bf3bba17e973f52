/** Certificates that wait without end: a leaf that waits ends the TLS phase, and with it the pass, before the bundle is
    merged and before Pods are rolled onto it, which is what it may be waiting for. */
module TlsStuck {
  import opened Prelude
  import opened Pki
  import opened TlsRotation
  import opened TlsReconciler

  /** The leaf of kind k is due and has a current CA to be renewed by. */
  predicate Held(s: State, k: Kind) {
    k in s.ca && s.mariadbReady && s.bundle != [] && LeafDue(s, k) && !CADue(s, k)
  }

  /** It waits for a CA that only the bundle merge, later in the pass, can distribute. */
  predicate Stuck(s: State, k: Kind) {
    Held(s, k) && !CAInBundle(s, s.ca[k])
  }

  /** It waits for Pods that only the StatefulSet phase, later in the pass, can put onto the bundle: neither the
      template nor any Pod has the bundle's hash. */
  predicate RollStuck(s: State, k: Kind) {
    && Held(s, k) && CAInBundle(s, s.ca[k]) && s.replicas > 0
    && s.template != Some(Digest(s.bundle))
    && forall i :: i in s.pods ==> s.pods[i].caAnnotation != Digest(s.bundle)
  }

  /** Both end the phase: the leaf waits, or fails if Pods are missing. */
  lemma StuckBlocks(s: State, k: Kind)
    requires Stuck(s, k) || RollStuck(s, k)
    ensures Waits(s, k) || Fails(s, k)
  {
    if RollStuck(s, k) && |s.pods| == s.replicas {
      assert s.pods.Keys != {};
      var i :| i in s.pods;
    }
  }

  /** CA and leaf of kind k are due for renewal in the same pass. */
  predicate BothDue(s: State, k: Kind) {
    k in s.ca && s.mariadbReady && s.bundle != [] && LeafDue(s, k) && CADue(s, k)
  }

  predicate UnusedInBundle(s: State, serial: nat) {
    forall c :: c in s.bundle ==> c.serial != serial
  }

  lemma BothDuePairIsStuck(s: State, sharedCA: bool, k: Kind, serial: nat)
    requires BothDue(s, k) && FreshSerial(s, serial) && UnusedInBundle(s, serial)
    ensures Waits(AfterCA(s, sharedCA, k, serial), k)
    ensures Stuck(AfterPair(s, sharedCA, k, serial), k) && AfterPair(s, sharedCA, k, serial).leaf == s.leaf
  {
    var t := AfterCA(s, sharedCA, k, serial);
    assert t.ca[k].serial == serial && !CAInBundle(t, t.ca[k]) && LeafDue(t, k);
  }

  /** A pass that finds a server CA and the server leaf due replaces the CA and ends there. */
  lemma ServerBothDueEndsStuck(s: State, sharedCA: bool, serverSerial: nat, clientSerial: nat)
    requires FreshSerials(s, serverSerial, clientSerial) && BothDue(s, Server) && UnusedInBundle(s, serverSerial)
    ensures var t := TlsPass(s, sharedCA, serverSerial, clientSerial);
            Stuck(t, Server) && t.bundle == s.bundle && t.ca[Server].serial == serverSerial
  {
    BothDuePairIsStuck(s, sharedCA, Server, serverSerial);
    PairFrame(s, sharedCA, Server, serverSerial);
  }

  /** The same for the client, with a CA of its own or with one that the server's turn has just replaced; unless the
      server pair already ends the phase. */
  lemma ClientBothDueEndsStuck(s: State, sharedCA: bool, serverSerial: nat, clientSerial: nat)
    requires FreshSerials(s, serverSerial, clientSerial) && SharedConsistent(s, sharedCA) && BothDue(s, Client)
    requires UnusedInBundle(s, serverSerial) && UnusedInBundle(s, clientSerial)
    requires !Blocked(s, sharedCA, Server, serverSerial)
    ensures var t := TlsPass(s, sharedCA, serverSerial, clientSerial);
            Stuck(t, Client) && t.bundle == s.bundle
  {
    PairFrame(s, sharedCA, Server, serverSerial);
    var mid := AfterPair(s, sharedCA, Server, serverSerial);
    if sharedCA {
      assert CADue(s, Server) && mid.ca[Client].serial == serverSerial;
      assert Stuck(mid, Client);
      assert AfterCA(mid, sharedCA, Client, clientSerial) == mid;
    } else {
      assert BothDue(mid, Client);
      BothDuePairIsStuck(mid, sharedCA, Client, clientSerial);
      PairFrame(mid, sharedCA, Client, clientSerial);
    }
  }

  /** The certificate of kind k, its CA and the bundle are as before. */
  predicate SameFor(s: State, t: State, k: Kind) {
    && k in s.ca && k in t.ca && t.ca[k] == s.ca[k]
    && k in s.leaf && k in t.leaf && t.leaf[k] == s.leaf[k]
    && t.bundle == s.bundle && t.mariadbReady == s.mariadbReady
  }

  /** How far a pass gets that dies before the bundle: after the server's CA, the server's leaf, the client's CA or the
      client's leaf. */
  function PassPrefix(s: State, sharedCA: bool, serverSerial: nat, clientSerial: nat, progress: nat): State
    requires FreshSerials(s, serverSerial, clientSerial)
  {
    var server := AfterPair(s, sharedCA, Server, serverSerial);
    if progress == 0 then AfterCA(s, sharedCA, Server, serverSerial)
    else if progress == 1 || Blocked(s, sharedCA, Server, serverSerial) then server
    else if progress == 2 then AfterCA(server, sharedCA, Client, clientSerial)
    else AfterPair(server, sharedCA, Client, clientSerial)
  }

  /** Nothing but CAs and leaves is written before the bundle. */
  lemma PrefixFrame(s: State, sharedCA: bool, serverSerial: nat, clientSerial: nat, progress: nat)
    requires FreshSerials(s, serverSerial, clientSerial)
    ensures var t := PassPrefix(s, sharedCA, serverSerial, clientSerial, progress);
            t == s.(ca := t.ca, issuedCAs := t.issuedCAs, leaf := t.leaf, granted := t.granted)
  {
    CAFrame(s, sharedCA, Server, serverSerial);
    PairFrame(s, sharedCA, Server, serverSerial);
    var server := AfterPair(s, sharedCA, Server, serverSerial);
    CAFrame(server, sharedCA, Client, clientSerial);
    PairFrame(server, sharedCA, Client, clientSerial);
  }

  /** A certificate that waits or fails under a current CA is not touched by a pass, however far it gets, and the pass
      does not get to the bundle. */
  lemma ServerHoldsPass(s: State, sharedCA: bool, serverSerial: nat, clientSerial: nat, progress: nat)
    requires FreshSerials(s, serverSerial, clientSerial) && SharedConsistent(s, sharedCA)
    requires Server in s.ca && !CADue(s, Server) && (Waits(s, Server) || Fails(s, Server))
    ensures PassPrefix(s, sharedCA, serverSerial, clientSerial, progress) == s
    ensures !ReachesMerge(s, sharedCA, serverSerial, clientSerial)
  {
    assert AfterCA(s, sharedCA, Server, serverSerial) == s && AfterCert(s, Server) == s;
  }

  lemma ClientHoldsPass(s: State, sharedCA: bool, serverSerial: nat, clientSerial: nat, progress: nat)
    requires FreshSerials(s, serverSerial, clientSerial) && SharedConsistent(s, sharedCA)
    requires Client in s.ca && !CADue(s, Client) && (Waits(s, Client) || Fails(s, Client))
    ensures var t := PassPrefix(s, sharedCA, serverSerial, clientSerial, progress);
            SameFor(s, t, Client) && SharedConsistent(t, sharedCA)
    ensures !ReachesMerge(s, sharedCA, serverSerial, clientSerial)
  {
    CAFrame(s, sharedCA, Server, serverSerial);
    PairFrame(s, sharedCA, Server, serverSerial);
    var server := AfterPair(s, sharedCA, Server, serverSerial);
    assert SameFor(s, server, Client) && (Waits(server, Client) || Fails(server, Client));
    assert AfterCA(server, sharedCA, Client, clientSerial) == server && AfterCert(server, Client) == server;
  }

  lemma HeldPass(s: State, sharedCA: bool, k: Kind, serverSerial: nat, clientSerial: nat, progress: nat)
    requires FreshSerials(s, serverSerial, clientSerial) && SharedConsistent(s, sharedCA)
    requires k in s.ca && !CADue(s, k) && (Waits(s, k) || Fails(s, k))
    ensures var t := PassPrefix(s, sharedCA, serverSerial, clientSerial, progress);
            && SameFor(s, t, k) && SharedConsistent(t, sharedCA)
            && t == s.(ca := t.ca, issuedCAs := t.issuedCAs, leaf := t.leaf, granted := t.granted)
    ensures !ReachesMerge(s, sharedCA, serverSerial, clientSerial)
  {
    PrefixFrame(s, sharedCA, serverSerial, clientSerial, progress);
    match k {
      case Server => ServerHoldsPass(s, sharedCA, serverSerial, clientSerial, progress);
      case Client => ClientHoldsPass(s, sharedCA, serverSerial, clientSerial, progress);
    }
  }

  /** A whole pass changes nothing about a stuck certificate and does not touch the bundle. */
  lemma PassKeepsStuck(s: State, sharedCA: bool, k: Kind, serverSerial: nat, clientSerial: nat)
    requires Stuck(s, k) || RollStuck(s, k)
    requires SharedConsistent(s, sharedCA) && FreshSerials(s, serverSerial, clientSerial)
    ensures var t := TlsPass(s, sharedCA, serverSerial, clientSerial);
            && !ReachesMerge(s, sharedCA, serverSerial, clientSerial)
            && SameFor(s, t, k) && (Stuck(s, k) ==> Stuck(t, k)) && (RollStuck(s, k) ==> RollStuck(t, k))
  {
    StuckBlocks(s, k);
    HeldPass(s, sharedCA, k, serverSerial, clientSerial, 3);
    assert TlsPass(s, sharedCA, serverSerial, clientSerial) == PassPrefix(s, sharedCA, serverSerial, clientSerial, 3);
  }

  /** What goes on while the operator keeps passing: complete passes, passes that die on the way to the bundle, and
      everything else that happens in the cluster. */
  datatype Move =
    | Pass(serverSerial: nat, clientSerial: nat)
    | DyingPass(serverSerial: nat, clientSerial: nat, progress: nat)
    | Elsewhere(event: Event)

  /** Events that are not writes of the TLS phase and do not make the MariaDB not ready. */
  predicate IsElsewhere(e: Event) {
    || e.Tick? || e.AnnotateTemplate? || e.StartPod? || e.StopPod? || e.SetPodReady? || e.Scale? || e.AbandonRenewal?
    || e == SetMariaDBReady(true)
  }

  predicate CanMove(s: State, m: Move) {
    match m
    case Pass(serverSerial, clientSerial) => FreshSerials(s, serverSerial, clientSerial)
    case DyingPass(serverSerial, clientSerial, _) => FreshSerials(s, serverSerial, clientSerial)
    case Elsewhere(e) => IsElsewhere(e) && Enabled(s, e)
  }

  function ApplyMove(s: State, sharedCA: bool, m: Move): State
    requires CanMove(s, m)
  {
    match m
    case Pass(serverSerial, clientSerial) => TlsPass(s, sharedCA, serverSerial, clientSerial)
    case DyingPass(serverSerial, clientSerial, progress) => PassPrefix(s, sharedCA, serverSerial, clientSerial, progress)
    case Elsewhere(e) => Apply(s, e)
  }

  ghost predicate Moves(s: State, sharedCA: bool, ms: seq<Move>, t: State)
    decreases |ms|
  {
    if ms == [] then s == t else CanMove(s, ms[0]) && Moves(ApplyMove(s, sharedCA, ms[0]), sharedCA, ms[1..], t)
  }

  lemma MoveKeepsTime(s: State, sharedCA: bool, m: Move)
    requires CanMove(s, m)
    ensures s.now <= ApplyMove(s, sharedCA, m).now
  {
    match m {
      case Pass(serverSerial, clientSerial) => PassFrame(s, sharedCA, serverSerial, clientSerial);
      case DyingPass(serverSerial, clientSerial, progress) => PrefixFrame(s, sharedCA, serverSerial, clientSerial, progress);
      case Elsewhere(_) =>
    }
  }

  lemma {:induction false} TimeGoesOn(s: State, sharedCA: bool, ms: seq<Move>, t: State)
    requires Moves(s, sharedCA, ms, t)
    ensures s.now <= t.now
    decreases |ms|
  {
    if ms != [] {
      MoveKeepsTime(s, sharedCA, ms[0]);
      TimeGoesOn(ApplyMove(s, sharedCA, ms[0]), sharedCA, ms[1..], t);
    }
  }

  /** Every part of a pass keeps a shared CA shared. */
  lemma PrefixKeepsShared(s: State, sharedCA: bool, serverSerial: nat, clientSerial: nat, progress: nat)
    requires FreshSerials(s, serverSerial, clientSerial) && SharedConsistent(s, sharedCA)
    ensures SharedConsistent(PassPrefix(s, sharedCA, serverSerial, clientSerial, progress), sharedCA)
  {
    SharedCAStaysShared(s, sharedCA, Server, serverSerial);
    SharedCAStaysShared(AfterPair(s, sharedCA, Server, serverSerial), sharedCA, Client, clientSerial);
  }

  /** And so does every run: with one CA Secret the two kinds never have different CAs. */
  lemma {:induction false} RunKeepsShared(s: State, sharedCA: bool, ms: seq<Move>, t: State)
    requires SharedConsistent(s, sharedCA) && Moves(s, sharedCA, ms, t)
    ensures SharedConsistent(t, sharedCA)
    decreases |ms|
  {
    if ms != [] {
      match ms[0] {
        case Pass(serverSerial, clientSerial) =>
          PrefixKeepsShared(s, sharedCA, serverSerial, clientSerial, 3);
          assert AfterCerts(s, sharedCA, serverSerial, clientSerial) == PassPrefix(s, sharedCA, serverSerial, clientSerial, 3);
        case DyingPass(serverSerial, clientSerial, progress) =>
          PrefixKeepsShared(s, sharedCA, serverSerial, clientSerial, progress);
        case Elsewhere(_) =>
      }
      RunKeepsShared(ApplyMove(s, sharedCA, ms[0]), sharedCA, ms[1..], t);
    }
  }

  /** At `now` neither the leaf, nor the CA that signed it, nor its new CA has come to its end. */
  predicate NothingExpires(s: State, k: Kind, now: int)
    requires k in s.ca && k in s.leaf
  {
    && now <= s.leaf[k].notAfter && now <= s.leaf[k].issuer.notAfter && now <= s.ca[k].notAfter
    && !AfterRenewal(s.ca[k].notBefore, s.ca[k].notAfter, now)
  }

  lemma NothingExpiresEarlier(s: State, k: Kind, earlier: int, later: int)
    requires k in s.ca && k in s.leaf && earlier <= later && NothingExpires(s, k, later)
    ensures NothingExpires(s, k, earlier)
  {
  }

  /** Time and the same certificate: the leaf stays due. */
  lemma HeldLater(s: State, t: State, k: Kind)
    requires Held(s, k) && SameFor(s, t, k) && s.now <= t.now && NothingExpires(s, k, t.now)
    ensures Held(t, k)
  {
  }

  lemma MoveKeepsHeld(s: State, sharedCA: bool, k: Kind, m: Move)
    requires (Stuck(s, k) || RollStuck(s, k)) && SharedConsistent(s, sharedCA) && CanMove(s, m)
    requires NothingExpires(s, k, ApplyMove(s, sharedCA, m).now)
    ensures var t := ApplyMove(s, sharedCA, m);
            SameFor(s, t, k) && Held(t, k) && SharedConsistent(t, sharedCA)
    ensures var t := ApplyMove(s, sharedCA, m);
            !m.Elsewhere? ==> t.pods == s.pods && t.template == s.template && t.replicas == s.replicas
  {
    StuckBlocks(s, k);
    MoveKeepsTime(s, sharedCA, m);
    match m {
      case Pass(serverSerial, clientSerial) => HeldPass(s, sharedCA, k, serverSerial, clientSerial, 3);
      case DyingPass(serverSerial, clientSerial, progress) =>
        HeldPass(s, sharedCA, k, serverSerial, clientSerial, progress);
      case Elsewhere(e) => assert SameFor(s, Apply(s, e), k);
    }
    HeldLater(s, ApplyMove(s, sharedCA, m), k);
  }

  /** As long as the MariaDB stays ready and nothing expires, no number of passes frees a stuck certificate: the new CA
      does not reach the bundle, whatever happens to the Pods. */
  lemma {:induction false} StuckPersists(s: State, sharedCA: bool, k: Kind, ms: seq<Move>, t: State)
    requires Stuck(s, k) && SharedConsistent(s, sharedCA) && Moves(s, sharedCA, ms, t)
    requires NothingExpires(s, k, t.now)
    ensures Stuck(t, k) && SameFor(s, t, k)
    decreases |ms|
  {
    if ms != [] {
      var u := ApplyMove(s, sharedCA, ms[0]);
      TimeGoesOn(u, sharedCA, ms[1..], t);
      NothingExpiresEarlier(s, k, u.now, t.now);
      MoveKeepsHeld(s, sharedCA, k, ms[0]);
      StuckPersists(u, sharedCA, k, ms[1..], t);
    }
  }

  /** The template is written by the StatefulSet phase of passes that get through the TLS phase, and at least one
      replica is asked for. */
  predicate KeepsTemplate(m: Move) {
    m.Elsewhere? ==> !m.event.AnnotateTemplate? && (m.event.Scale? ==> m.event.newReplicas > 0)
  }

  lemma MoveKeepsRollStuck(s: State, sharedCA: bool, k: Kind, m: Move)
    requires RollStuck(s, k) && SharedConsistent(s, sharedCA) && CanMove(s, m) && KeepsTemplate(m)
    requires NothingExpires(s, k, ApplyMove(s, sharedCA, m).now)
    ensures RollStuck(ApplyMove(s, sharedCA, m), k)
  {
    MoveKeepsHeld(s, sharedCA, k, m);
    if m.Elsewhere? {
      var t := Apply(s, m.event);
      assert forall i :: i in t.pods ==>
        (i in s.pods && t.pods[i].caAnnotation == s.pods[i].caAnnotation) || Some(t.pods[i].caAnnotation) == s.template;
    }
  }

  /** The second wait without end: a bundle that was merged, but never annotated (the pass died in between, or the
      update strategy keeps the template), under Pods that restart from the old template. */
  lemma {:induction false} RollStuckPersists(s: State, sharedCA: bool, k: Kind, ms: seq<Move>, t: State)
    requires RollStuck(s, k) && SharedConsistent(s, sharedCA) && Moves(s, sharedCA, ms, t)
    requires NothingExpires(s, k, t.now) && forall m :: m in ms ==> KeepsTemplate(m)
    ensures RollStuck(t, k) && SameFor(s, t, k)
    decreases |ms|
  {
    if ms != [] {
      var u := ApplyMove(s, sharedCA, ms[0]);
      assert ms[0] in ms;
      TimeGoesOn(u, sharedCA, ms[1..], t);
      NothingExpiresEarlier(s, k, u.now, t.now);
      MoveKeepsHeld(s, sharedCA, k, ms[0]);
      MoveKeepsRollStuck(s, sharedCA, k, ms[0]);
      RollStuckPersists(u, sharedCA, k, ms[1..], t);
    }
  }

  /** A MariaDB that is not ready gets to the merge whatever waits. */
  lemma NotReadyReachesMerge(s: State, sharedCA: bool, serverSerial: nat, clientSerial: nat)
    requires FreshSerials(s, serverSerial, clientSerial) && !s.mariadbReady
    ensures ReachesMerge(s, sharedCA, serverSerial, clientSerial)
  {
    PairFrame(s, sharedCA, Server, serverSerial);
  }

  /** That is the way out: after one such pass neither kind is stuck when the MariaDB is ready again. */
  lemma NotReadyFrees(s: State, sharedCA: bool, serverSerial: nat, clientSerial: nat, k: Kind)
    requires FreshSerials(s, serverSerial, clientSerial) && !s.mariadbReady
    ensures ReachesMerge(s, sharedCA, serverSerial, clientSerial)
    ensures var t := TlsPass(s, sharedCA, serverSerial, clientSerial);
            k in t.ca && CAInBundle(t, t.ca[k]) && !Stuck(t.(mariadbReady := true), k)
  {
    NotReadyReachesMerge(s, sharedCA, serverSerial, clientSerial);
    MergeGetsCurrentCAs(s, sharedCA, serverSerial, clientSerial);
    var t := TlsPass(s, sharedCA, serverSerial, clientSerial);
    assert CAInBundle(t, t.ca[k]);
    assert CAInBundle(t.(mariadbReady := true), t.ca[k]);
  }

  // ---------------------------------------------------------------------------------------------
  // How it comes about
  // ---------------------------------------------------------------------------------------------

  const DAY := 24 * HOUR
  const REQUEUE := 300 * SECOND

  /** One Pod, running since the leaves were issued, and one CA for both kinds. */
  function Aged(ca: Cert, issued: int, now: int): State {
    var leaves := map[Server := IssueLeaf(ca, issued), Client := IssueLeaf(ca, issued)];
    State(now, map[Server := ca, Client := ca], leaves, [ca], Some(Digest([ca])),
          map[0 := Pod([ca], leaves, Digest([ca]), true)], 1, true, {}, {ca})
  }

  lemma ReachesCons(s: State, e: Event, es: seq<Event>, t: State)
    requires Enabled(s, e) && Reaches(Apply(s, e), es, t)
    ensures Reaches(s, [e] + es, t)
  {
    assert ([e] + es)[1..] == es;
  }

  lemma PodStarts(s: State) returns (es: seq<Event>)
    requires s.template == None && s.pods == map[]
    ensures Reaches(s, es, s.(template := Some(Digest(s.bundle)),
                              pods := map[0 := Pod(s.bundle, s.leaf, Digest(s.bundle), true)]))
  {
    var a := Apply(s, AnnotateTemplate);
    var b := Apply(a, StartPod(0));
    var c := Apply(b, SetPodReady(0, true));
    assert c.pods == map[0 := Pod(s.bundle, s.leaf, Digest(s.bundle), true)];
    assert Reaches(c, [], c);
    ReachesCons(b, SetPodReady(0, true), [], c);
    es := [SetPodReady(0, true)] + [];
    ReachesCons(a, StartPod(0), es, c);
    es := [StartPod(0)] + es;
    ReachesCons(s, AnnotateTemplate, es, c);
    es := [AnnotateTemplate] + es;
  }

  lemma ReadyAndOlder(s: State, elapsed: nat) returns (es: seq<Event>)
    ensures Reaches(s, es, s.(mariadbReady := true, now := s.now + elapsed))
  {
    var a := Apply(s, SetMariaDBReady(true));
    var t := Apply(a, Tick(elapsed));
    assert Reaches(t, [], t);
    ReachesCons(a, Tick(elapsed), [], t);
    es := [Tick(elapsed)] + [];
    ReachesCons(s, SetMariaDBReady(true), es, t);
    es := [SetMariaDBReady(true)] + es;
  }

  lemma AgedIsReachable(ca: Cert, issued: int, now: int) returns (s: State, es: seq<Event>)
    requires ca.notBefore <= issued <= now
    ensures Init(s) && Reaches(s, es, Aged(ca, issued, now))
  {
    var u := Aged(ca, issued, now);
    s := u.(now := issued, template := None, pods := map[], mariadbReady := false);
    var es1 := PodStarts(s);
    var c := s.(template := u.template, pods := u.pods);
    var es2 := ReadyAndOlder(c, now - issued);
    ReachesTrans(s, es1, c, es2, u);
    es := es1 + es2;
  }

  /** The renewal times of a CA and of a leaf that it signs late enough can coincide. */
  lemma RenewalsCoincide() returns (ca: Cert, issued: int, due: int)
    ensures ca == NewCA(0, 1) && 0 < issued < due
    ensures var leaf := IssueLeaf(ca, issued);
            && !AfterRenewal(ca.notBefore, ca.notAfter, due) && !AfterRenewal(leaf.notBefore, leaf.notAfter, due)
            && AfterRenewal(ca.notBefore, ca.notAfter, due + REQUEUE)
            && AfterRenewal(leaf.notBefore, leaf.notAfter, due + REQUEUE)
            && due + REQUEUE < leaf.notAfter < ca.notAfter
    ensures var later := IssueLeaf(ca, issued + DAY);
            && issued + DAY < due
            && !AfterRenewal(later.notBefore, later.notAfter, due + REQUEUE)
            && AfterRenewal(later.notBefore, later.notAfter, due + REQUEUE + DAY)
            && due + REQUEUE + DAY < later.notAfter < ca.notAfter
  {
    ca := NewCA(0, 1);
    due := RenewalTime(ca.notBefore, ca.notAfter, DEFAULT_RENEW_BEFORE_PERCENTAGE);
    issued := due - DEFAULT_CERT_LIFETIME + (DEFAULT_CERT_LIFETIME + HOUR) * DEFAULT_RENEW_BEFORE_PERCENTAGE / 100;
  }

  /** So a CA and its leaf can come due between two passes five minutes apart: a reachable state in which neither is
      due, and both are after the next tick. */
  lemma BothDueArises() returns (ca: Cert, issued: int, s: State, es: seq<Event>, u: State, v: State)
    ensures Init(s) && Reaches(s, es, u) && v == Apply(u, Tick(REQUEUE))
    ensures forall k :: k in u.ca && !CADue(u, k) && !Ungated(u, k) && !LeafDue(u, k)
    ensures forall k :: BothDue(v, k)
    ensures v == Aged(ca, issued, v.now) && ca.serial == 1 && ca.notBefore <= issued <= v.now
  {
    var due;
    ca, issued, due := RenewalsCoincide();
    s, es := AgedIsReachable(ca, issued, due);
    u, v := Aged(ca, issued, due), Aged(ca, issued, due + REQUEUE);
    forall k: Kind
      ensures k in u.ca && !CADue(u, k) && !Ungated(u, k) && !LeafDue(u, k) && BothDue(v, k)
    {
      assert k == Server || k == Client;
      assert u.ca[k] == ca && u.leaf[k] == IssueLeaf(ca, issued) && u.bundle == [ca];
    }
  }

  /** What a pass writes at all. */
  lemma PassWrites(s: State, sharedCA: bool, serverSerial: nat, clientSerial: nat)
    requires FreshSerials(s, serverSerial, clientSerial)
    ensures var t := TlsPass(s, sharedCA, serverSerial, clientSerial);
            t == s.(ca := t.ca, issuedCAs := t.issuedCAs, leaf := t.leaf, granted := t.granted, bundle := t.bundle)
  {
    PrefixFrame(s, sharedCA, serverSerial, clientSerial, 3);
    assert AfterCerts(s, sharedCA, serverSerial, clientSerial) == PassPrefix(s, sharedCA, serverSerial, clientSerial, 3);
  }

  /** A merge that is not followed by its annotation, and a leaf that comes due afterwards: the second wait. */
  lemma MergeWithoutAnnotation(s: State, sharedCA: bool, serverSerial: nat, clientSerial: nat, elapsed: nat, k: Kind)
    requires FreshSerials(s, serverSerial, clientSerial) && ReachesMerge(s, sharedCA, serverSerial, clientSerial)
    requires s.replicas > 0 && s.template == Some(Digest(s.bundle))
    requires forall i :: i in s.pods ==> s.pods[i].caAnnotation == Digest(s.bundle)
    requires var t := Apply(TlsPass(s, sharedCA, serverSerial, clientSerial), Tick(elapsed));
             t.bundle != s.bundle && Held(t, k)
    ensures RollStuck(Apply(TlsPass(s, sharedCA, serverSerial, clientSerial), Tick(elapsed)), k)
  {
    PassWrites(s, sharedCA, serverSerial, clientSerial);
    MergeGetsCurrentCAs(s, sharedCA, serverSerial, clientSerial);
    var t := TlsPass(s, sharedCA, serverSerial, clientSerial);
    assert CAInBundle(t, t.ca[k]);
    assert CAInBundle(Apply(t, Tick(elapsed)), t.ca[k]);
  }

  /** A CA that comes due alone is replaced and merged by one pass. */
  lemma CADueAlone(ca: Cert, issued: int, now: int) returns (w: State)
    requires var u := Aged(ca, issued, now);
             ca.serial == 1 && CADue(u, Server) && InWindow(ca, now) && !Ungated(u, Server) && !LeafDue(u, Server)
    ensures var u := Aged(ca, issued, now);
            && FreshSerials(u, 2, 3) && ReachesMerge(u, true, 2, 3) && w == TlsPass(u, true, 2, 3)
            && Server in w.ca && w.ca[Server] == NewCA(now, 2) && w.leaf == u.leaf && w.now == now && w.mariadbReady
            && ca in w.bundle && NewCA(now, 2) in w.bundle
  {
    var u := Aged(ca, issued, now);
    var a := AfterCA(u, true, Server, 2);
    assert a.ca[Server] == a.ca[Client] == NewCA(now, 2) && a.leaf == u.leaf;
    assert u.leaf[Client] == u.leaf[Server] && !Ungated(a, Server) && !LeafDue(a, Server);
    assert AfterPair(u, true, Server, 2) == a && AfterCA(a, true, Client, 3) == a;
    assert !Ungated(a, Client) && !LeafDue(a, Client);
    w := TlsPass(u, true, 2, 3);
    assert w == a.(bundle := Merged(a));
    assert (set c | c in [ca]) + {NewCA(now, 2)} == {ca, NewCA(now, 2)};
    MergedBundleIsLiveUnion([ca], NewCA(now, 2), NewCA(now, 2), now);
  }

  lemma HeldAfter(w: State, leaf: Leaf, newCA: Cert, elapsed: nat)
    requires Server in w.ca && w.ca[Server] == newCA && Server in w.leaf && w.leaf[Server] == leaf && w.mariadbReady
    requires leaf.issuer in w.bundle && newCA == NewCA(w.now, newCA.serial) && elapsed <= DAY
    requires leaf.notBefore <= w.now && leaf.issuer.notBefore <= w.now
    requires w.now + elapsed < leaf.notAfter < leaf.issuer.notAfter && AfterRenewal(leaf.notBefore, leaf.notAfter, w.now + elapsed)
    ensures Held(Apply(w, Tick(elapsed)), Server)
  {
    var t := Apply(w, Tick(elapsed));
    assert !Ungated(t, Server);
    assert !CADue(t, Server);
  }

  /** So the second wait is reachable as well: a CA that is merged but not annotated, a day before its leaf is due. */
  lemma RollStuckArises() returns (s: State, es: seq<Event>, u: State, t: State)
    ensures Init(s) && Reaches(s, es, u)
    ensures FreshSerials(u, 2, 3) && ReachesMerge(u, true, 2, 3)
    ensures t == Apply(TlsPass(u, true, 2, 3), Tick(DAY)) && RollStuck(t, Server)
  {
    var ca, issued, due := RenewalsCoincide();
    var leaf, now := IssueLeaf(ca, issued + DAY), due + REQUEUE;
    s, es := AgedIsReachable(ca, issued + DAY, now);
    u := Aged(ca, issued + DAY, now);
    assert u.leaf[Server] == leaf && u.bundle == [ca] && u.ca[Server] == ca;
    var w := CADueAlone(ca, issued + DAY, now);
    HeldAfter(w, leaf, NewCA(now, 2), DAY);
    t := Apply(w, Tick(DAY));
    assert t.bundle != u.bundle;
    MergeWithoutAnnotation(u, true, 2, 3, DAY, Server);
  }

  /** A leaf that expires under a CA the Pods do not know yet is reissued without the gate; the next Pod to start
      presents it to a Pod that does not trust it. */
  lemma ExpiryBreaksClosure(s: State, sharedCA: bool, serverSerial: nat, clientSerial: nat, p: nat, q: nat)
    requires FreshSerials(s, serverSerial, clientSerial)
    requires Server in s.ca && !CADue(s, Server) && Ungated(s, Server)
    requires p in s.pods && s.ca[Server] !in s.pods[p].bundle && q !in s.pods && s.template.Some?
    ensures var t := TlsPass(s, sharedCA, serverSerial, clientSerial);
            && Enabled(t, StartPod(q))
            && var u := Apply(t, StartPod(q));
               && p in u.pods && Server in u.pods[q].leaf && ChainLive(u.pods[q].leaf[Server], u.now)
               && u.pods[q].leaf[Server].issuer !in u.pods[p].bundle
  {
    PassWrites(s, sharedCA, serverSerial, clientSerial);
    PairFrame(s, sharedCA, Server, serverSerial);
    var server := AfterPair(s, sharedCA, Server, serverSerial);
    assert server.leaf[Server] == IssueLeaf(s.ca[Server], s.now);
    PairFrame(server, sharedCA, Client, clientSerial);
    assert TlsPass(s, sharedCA, serverSerial, clientSerial).leaf[Server] == server.leaf[Server];
  }

  /** The pass that finds both due: the new CA is in no bundle and the old leaf stays. */
  lemma FirstPass(ca: Cert, issued: int, now: int) returns (w: State)
    requires ca.serial == 1 && BothDue(Aged(ca, issued, now), Server)
    ensures FreshSerials(Aged(ca, issued, now), 2, 3) && w == TlsPass(Aged(ca, issued, now), true, 2, 3) && Stuck(w, Server)
    ensures w.ca[Server] == NewCA(now, 2) && w.leaf == Aged(ca, issued, now).leaf && w.now == now
    ensures w.pods == Aged(ca, issued, now).pods && w.template.Some? && w.bundle == [ca]
    ensures forall c :: c in w.issuedCAs ==> c.serial == 1 || c.serial == 2
  {
    var v := Aged(ca, issued, now);
    ServerBothDueEndsStuck(v, true, 2, 3);
    BothDuePairIsStuck(v, true, Server, 2);
    PassWrites(v, true, 2, 3);
    w := TlsPass(v, true, 2, 3);
    assert AfterCA(v, true, Server, 2).ca[Server] == NewCA(now, 2);
  }

  /** The leaf's end comes long before the new CA is due. */
  lemma LeafEndsFirst(w: State, issued: int, now: int) returns (elapsed: nat)
    requires Server in w.ca && w.ca[Server] == NewCA(now, 2) && w.now == now && issued <= now
    requires Server in w.leaf && w.leaf[Server].notAfter == issued + DEFAULT_CERT_LIFETIME >= now
    ensures var x := Apply(w, Tick(elapsed));
            Server in x.ca && !CADue(x, Server) && Ungated(x, Server)
  {
    elapsed := w.leaf[Server].notAfter + 1 - now;
    var x := Apply(w, Tick(elapsed));
    assert x.now <= now + DEFAULT_CERT_LIFETIME + 1;
  }

  lemma MovesCons(s: State, sharedCA: bool, m: Move, ms: seq<Move>, t: State)
    requires CanMove(s, m) && Moves(ApplyMove(s, sharedCA, m), sharedCA, ms, t)
    ensures Moves(s, sharedCA, [m] + ms, t)
  {
    assert ([m] + ms)[1..] == ms;
  }

  /** A whole run into the loss of trust closure: both due, a pass, the leaf's end, a second pass, a new Pod. */
  lemma ClosureLostAfterBothDue() returns (s: State, es: seq<Event>, u: State, ms: seq<Move>, t: State)
    ensures Init(s) && Reaches(s, es, u) && Moves(u, true, ms, t)
    ensures 0 in t.pods && 1 in t.pods && Server in t.pods[1].leaf && ChainLive(t.pods[1].leaf[Server], t.now)
    ensures t.pods[1].leaf[Server].issuer !in t.pods[0].bundle
  {
    var ca, issued, v;
    ca, issued, s, es, u, v := BothDueArises();
    var w := FirstPass(ca, issued, v.now);
    assert !Ungated(v, Server);
    var elapsed := LeafEndsFirst(w, issued, v.now);
    var x := Apply(w, Tick(elapsed));
    assert x.pods == v.pods && x.ca[Server].serial == 2;
    ExpiryBreaksClosure(x, true, 4, 5, 0, 1);
    var y := TlsPass(x, true, 4, 5);
    t := Apply(y, StartPod(1));
    MovesCons(y, true, Elsewhere(StartPod(1)), [], t);
    ms := [Elsewhere(StartPod(1))] + [];
    MovesCons(x, true, Pass(4, 5), ms, t);
    ms := [Pass(4, 5)] + ms;
    MovesCons(w, true, Elsewhere(Tick(elapsed)), ms, t);
    ms := [Elsewhere(Tick(elapsed))] + ms;
    MovesCons(v, true, Pass(2, 3), ms, t);
    ms := [Pass(2, 3)] + ms;
    MovesCons(u, true, Elsewhere(Tick(REQUEUE)), ms, t);
    ms := [Elsewhere(Tick(REQUEUE))] + ms;
  }
}

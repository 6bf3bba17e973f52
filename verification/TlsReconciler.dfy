/** One TLS phase of the MariaDB reconciler: CA, server leaf, CA, client leaf, bundle, in this order. A certificate
    that waits ends the phase before the bundle, which is what it may be waiting for. */
module TlsReconciler {
  import opened Prelude
  import opened Pki
  import opened TlsRotation

  /** What ShouldRenewCert answers. */
  datatype Decision =
    | Renew          // (true, nil)
    | Wait           // (false, nil): requeue in 10 seconds
    | SkipRenewal    // ErrSkipCertRenewal: MariaDB not ready
    | DecisionError  // the bundle or some Pods are missing

  // ---------------------------------------------------------------------------------------------
  // When a certificate is replaced, waits or fails
  // ---------------------------------------------------------------------------------------------

  predicate CAInBundle(s: State, ca: Cert) {
    exists c :: c in s.bundle && c.serial == ca.serial
  }

  predicate CADue(s: State, k: Kind) {
    k !in s.ca || !InWindow(s.ca[k], s.now) || AfterRenewal(s.ca[k].notBefore, s.ca[k].notAfter, s.now)
  }

  /** getCABundle: the bundle Secret if it exists, else the CA itself. */
  function Trusted(s: State, ca: Cert): seq<Cert> {
    if s.bundle != [] then s.bundle else [ca]
  }

  /** The leaf is absent or does not validate: it is replaced without asking ShouldRenewCert. */
  predicate Ungated(s: State, k: Kind)
    requires k in s.ca
  {
    k !in s.leaf || !LeafValid(s.leaf[k], Trusted(s, s.ca[k]), s.now)
  }

  /** The leaf is valid and in its renewal period. */
  predicate LeafDue(s: State, k: Kind)
    requires k in s.ca
  {
    !Ungated(s, k) && AfterRenewal(s.leaf[k].notBefore, s.leaf[k].notAfter, s.now)
  }

  predicate PodsTrust(s: State) {
    AllPodsTrustBundle(s.pods, s.replicas, Digest(s.bundle))
  }

  /** A due leaf waits for its CA to reach the bundle, or for the Pods to be rolled onto the bundle. */
  predicate Waits(s: State, k: Kind)
    requires k in s.ca
  {
    && s.mariadbReady && LeafDue(s, k) && s.bundle != []
    && (!CAInBundle(s, s.ca[k]) || (|s.pods| == s.replicas && !PodsTrust(s)))
  }

  predicate Fails(s: State, k: Kind)
    requires k in s.ca
  {
    && s.mariadbReady && LeafDue(s, k)
    && (s.bundle == [] || (CAInBundle(s, s.ca[k]) && |s.pods| != s.replicas))
  }

  // ---------------------------------------------------------------------------------------------
  // What a pass does
  // ---------------------------------------------------------------------------------------------

  predicate FreshSerial(s: State, serial: nat) {
    forall c :: c in s.issuedCAs ==> c.serial != serial
  }

  function NewCA(now: int, serial: nat): Cert {
    Cert("ca", serial, now - HOUR, now + DEFAULT_CA_LIFETIME)
  }

  /** By default the server and the client certificate are issued by one CA Secret. */
  function KindsOf(sharedCA: bool, k: Kind): (kinds: set<Kind>)
    ensures k in kinds
  {
    assert k == Server || k == Client;
    if sharedCA then {Server, Client} else {k}
  }

  function AfterCA(s: State, sharedCA: bool, k: Kind, serial: nat): (t: State)
    requires FreshSerial(s, serial)
    ensures k in t.ca && !CADue(t, k)
    ensures forall c :: c in t.issuedCAs ==> c in s.issuedCAs || c.serial == serial
  {
    if CADue(s, k) then Apply(s, ReplaceCA(KindsOf(sharedCA, k), NewCA(s.now, serial))) else s
  }

  function AfterCert(s: State, k: Kind): State
    requires k in s.ca
  {
    if Ungated(s, k) then Reissued(s, k)
    else if LeafDue(s, k) && ShouldRenewCert(s, s.ca[k]) then Reissued(s, k).(granted := s.granted - {s.ca[k]})
    else s
  }

  function AfterPair(s: State, sharedCA: bool, k: Kind, serial: nat): (t: State)
    requires FreshSerial(s, serial)
    ensures forall c :: c in t.issuedCAs ==> c in s.issuedCAs || c.serial == serial
  {
    AfterCert(AfterCA(s, sharedCA, k, serial), k)
  }

  /** The key pair of kind k ends the phase. */
  predicate Blocked(s: State, sharedCA: bool, k: Kind, serial: nat)
    requires FreshSerial(s, serial)
  {
    Waits(AfterCA(s, sharedCA, k, serial), k) || Fails(AfterCA(s, sharedCA, k, serial), k)
  }

  predicate FreshSerials(s: State, serverSerial: nat, clientSerial: nat) {
    serverSerial != clientSerial && FreshSerial(s, serverSerial) && FreshSerial(s, clientSerial)
  }

  function AfterCerts(s: State, sharedCA: bool, serverSerial: nat, clientSerial: nat): State
    requires FreshSerials(s, serverSerial, clientSerial)
  {
    var t := AfterPair(s, sharedCA, Server, serverSerial);
    if Blocked(s, sharedCA, Server, serverSerial) then t else AfterPair(t, sharedCA, Client, clientSerial)
  }

  /** Neither pair ends the phase, so that it gets to the bundle. */
  predicate ReachesMerge(s: State, sharedCA: bool, serverSerial: nat, clientSerial: nat)
    requires FreshSerials(s, serverSerial, clientSerial)
  {
    && !Blocked(s, sharedCA, Server, serverSerial)
    && !Blocked(AfterPair(s, sharedCA, Server, serverSerial), sharedCA, Client, clientSerial)
  }

  function TlsPass(s: State, sharedCA: bool, serverSerial: nat, clientSerial: nat): State
    requires FreshSerials(s, serverSerial, clientSerial)
  {
    var t := AfterCerts(s, sharedCA, serverSerial, clientSerial);
    if ReachesMerge(s, sharedCA, serverSerial, clientSerial) then t.(bundle := Merged(t)) else t
  }

  /** One CA Secret: both kinds have the same CA. */
  predicate SharedConsistent(s: State, sharedCA: bool) {
    sharedCA ==> (Server in s.ca <==> Client in s.ca) && (Server in s.ca && Client in s.ca ==> s.ca[Server] == s.ca[Client])
  }

  /** A shared CA is replaced for both kinds at once, so they go on sharing it. */
  lemma SharedCAStaysShared(s: State, sharedCA: bool, k: Kind, serial: nat)
    requires FreshSerial(s, serial) && SharedConsistent(s, sharedCA)
    ensures SharedConsistent(AfterCA(s, sharedCA, k, serial), sharedCA)
    ensures SharedConsistent(AfterPair(s, sharedCA, k, serial), sharedCA)
    ensures sharedCA ==> !CADue(AfterPair(s, sharedCA, k, serial), Server) && !CADue(AfterPair(s, sharedCA, k, serial), Client)
  {
    CertFrame(AfterCA(s, sharedCA, k, serial), k);
  }

  lemma ServerPairIssues(s: State, serial: nat)
    requires FreshSerial(s, serial) && SharedConsistent(s, true)
    ensures var t := AfterPair(s, true, Server, serial);
            && Server in t.ca && Client in t.ca
            && t.issuedCAs == (if CADue(s, Server) then s.issuedCAs + {NewCA(s.now, serial)} else s.issuedCAs)
            && (CADue(s, Server) ==> t.ca[Server] == t.ca[Client] == NewCA(s.now, serial))
  {
    CertFrame(AfterCA(s, true, Server, serial), Server);
  }

  lemma CurrentPairIssuesNothing(s: State, k: Kind, serial: nat)
    requires FreshSerial(s, serial) && !CADue(s, k)
    ensures AfterPair(s, true, k, serial).ca == s.ca && AfterPair(s, true, k, serial).issuedCAs == s.issuedCAs
  {
    CertFrame(s, k);
  }

  /** Every pass keeps it so, and issues at most one CA. */
  lemma SharedPassIssuesAtMostOneCA(s: State, serverSerial: nat, clientSerial: nat)
    requires FreshSerials(s, serverSerial, clientSerial) && SharedConsistent(s, true)
    ensures var t := TlsPass(s, true, serverSerial, clientSerial);
            && SharedConsistent(t, true)
            && s.issuedCAs <= t.issuedCAs <= s.issuedCAs + {NewCA(s.now, serverSerial)}
            && (t.issuedCAs != s.issuedCAs ==>
                  CADue(s, Server) && Server in t.ca && Client in t.ca && t.ca[Server] == t.ca[Client] == NewCA(s.now, serverSerial))
  {
    SharedCAStaysShared(s, true, Server, serverSerial);
    ServerPairIssues(s, serverSerial);
    CurrentPairIssuesNothing(AfterPair(s, true, Server, serverSerial), Client, clientSerial);
  }

  /** What each step leaves alone. */
  lemma CAFrame(s: State, sharedCA: bool, k: Kind, serial: nat)
    requires FreshSerial(s, serial)
    ensures var t := AfterCA(s, sharedCA, k, serial);
            && t == s.(ca := t.ca, issuedCAs := t.issuedCAs)
            && (forall j :: j in s.ca ==> j in t.ca)
            && (forall j :: j != k && j in s.ca && !(sharedCA && CADue(s, k)) ==> t.ca[j] == s.ca[j])
            && (forall j :: j in t.ca && !CADue(s, j) ==> !CADue(t, j))
  {
  }

  lemma CertFrame(s: State, k: Kind)
    requires k in s.ca
    ensures var t := AfterCert(s, k);
            && t == s.(leaf := t.leaf, granted := t.granted)
            && k in t.leaf && (forall j :: j in s.leaf ==> j in t.leaf)
            && (forall j :: j != k && j in s.leaf ==> t.leaf[j] == s.leaf[j])
  {
  }

  lemma PairFrame(s: State, sharedCA: bool, k: Kind, serial: nat)
    requires FreshSerial(s, serial)
    ensures var t := AfterPair(s, sharedCA, k, serial);
            && t == s.(ca := t.ca, issuedCAs := t.issuedCAs, leaf := t.leaf, granted := t.granted)
            && k in t.ca && k in t.leaf && !CADue(t, k)
            && (forall j :: j in s.ca ==> j in t.ca) && (forall j :: j in s.leaf ==> j in t.leaf)
            && (forall j :: j != k && j in s.leaf ==> t.leaf[j] == s.leaf[j])
            && (forall j :: j != k && j in s.ca && !(sharedCA && CADue(s, k)) ==> t.ca[j] == s.ca[j])
            && (forall j :: j in t.ca && !CADue(s, j) ==> !CADue(t, j))
  {
    var mid := AfterCA(s, sharedCA, k, serial);
    CAFrame(s, sharedCA, k, serial);
    CertFrame(mid, k);
    assert forall j :: CADue(AfterCert(mid, k), j) <==> CADue(mid, j);
  }

  /** The certificates of both kinds exist after a pass that reaches the merge, and both CAs are current; so the merge
      is never empty and has both. */
  lemma MergeGetsCurrentCAs(s: State, sharedCA: bool, serverSerial: nat, clientSerial: nat)
    requires FreshSerials(s, serverSerial, clientSerial) && ReachesMerge(s, sharedCA, serverSerial, clientSerial)
    ensures var t := AfterCerts(s, sharedCA, serverSerial, clientSerial);
            && Server in t.ca && Client in t.ca && Server in t.leaf && Client in t.leaf
            && Merged(t) != []
    ensures var t := TlsPass(s, sharedCA, serverSerial, clientSerial);
            Server in t.ca && Client in t.ca && CAInBundle(t, t.ca[Server]) && CAInBundle(t, t.ca[Client])
  {
    PairFrame(s, sharedCA, Server, serverSerial);
    var mid := AfterPair(s, sharedCA, Server, serverSerial);
    PairFrame(mid, sharedCA, Client, clientSerial);
    var t := AfterCerts(s, sharedCA, serverSerial, clientSerial);
    MergeHasCurrentCAs(t.bundle, t.ca[Server], t.ca[Client], t.now);
    forall k | k in {Server, Client}
      ensures exists c :: c in Merged(t) && c.serial == t.ca[k].serial
    {
      assert CertId(t.ca[k]) in Ids(Merged(t));
    }
  }

  // ---------------------------------------------------------------------------------------------
  // The reconciler
  // ---------------------------------------------------------------------------------------------

  /** A MariaDB before its first pass: no Secrets, no StatefulSet, no Pods. */
  predicate Unprovisioned(s: State) {
    s.ca == map[] && s.leaf == map[] && s.bundle == [] && s.template == None && s.pods == map[] && s.granted == {}
    && s.issuedCAs == {}
  }

  /** The first pass brings the MariaDB into an initial state of the rotation. */
  lemma FirstPassInitializes(s: State, sharedCA: bool, serverSerial: nat, clientSerial: nat)
    requires FreshSerials(s, serverSerial, clientSerial) && Unprovisioned(s)
    ensures ReachesMerge(s, sharedCA, serverSerial, clientSerial)
    ensures Init(TlsPass(s, sharedCA, serverSerial, clientSerial))
  {
    var mid := AfterPair(s, sharedCA, Server, serverSerial);
    assert Ungated(AfterCA(s, sharedCA, Server, serverSerial), Server);
    assert Ungated(AfterCA(mid, sharedCA, Client, clientSerial), Client);
    var t := AfterCerts(s, sharedCA, serverSerial, clientSerial);
    assert (set c | c in t.bundle) + {t.ca[Server], t.ca[Client]} == t.issuedCAs;
    MergedBundleIsLiveUnion(t.bundle, t.ca[Server], t.ca[Client], t.now);
  }

  class Reconciler {
    var cluster: State
    const sharedCA: bool

    constructor (sharedCA: bool, initial: State)
      ensures this.sharedCA == sharedCA && cluster == initial
    {
      this.sharedCA := sharedCA;
      cluster := initial;
    }

    method EnsureAllPodsTrustingCABundle(bundleHash: Digest<seq<Cert>>) returns (r: Option<bool>)
      ensures r.None? <==> |cluster.pods| != cluster.replicas
      ensures r.Some? ==>
                (r.value <==> forall i :: i in cluster.pods ==> cluster.pods[i].ready && cluster.pods[i].caAnnotation == bundleHash)
    {
      if |cluster.pods| != cluster.replicas {
        return None;
      }
      var todo := cluster.pods.Keys;
      while todo != {}
        invariant todo <= cluster.pods.Keys
        invariant forall i :: i in cluster.pods && i !in todo ==>
                    cluster.pods[i].ready && cluster.pods[i].caAnnotation == bundleHash
        decreases |todo|
      {
        var i :| i in todo;
        var pod := cluster.pods[i];
        if !pod.ready {
          return Some(false);
        }
        if pod.caAnnotation != bundleHash {
          return Some(false);
        }
        todo := todo - {i};
      }
      return Some(true);
    }

    /** ShouldRenewCert. A missing bundle Secret is an error. */
    method ShouldRenew(ca: Cert) returns (d: Decision)
      ensures d == Renew <==> ShouldRenewCert(cluster, ca)
      ensures d == SkipRenewal <==> !cluster.mariadbReady
      ensures d == DecisionError <==>
                cluster.mariadbReady && (cluster.bundle == [] || (CAInBundle(cluster, ca) && |cluster.pods| != cluster.replicas))
      ensures d == Wait <==>
                && cluster.mariadbReady && cluster.bundle != []
                && (!CAInBundle(cluster, ca) || (|cluster.pods| == cluster.replicas && !PodsTrust(cluster)))
      ensures d == Renew <==>
                && cluster.mariadbReady && (exists c :: c in cluster.bundle && c.serial == ca.serial)
                && |cluster.pods| == cluster.replicas
                && forall i :: i in cluster.pods ==> cluster.pods[i].ready && cluster.pods[i].caAnnotation == Digest(cluster.bundle)
    {
      if !cluster.mariadbReady {
        return SkipRenewal;
      }
      if cluster.bundle == [] {
        return DecisionError;
      }
      var hasSerialNo := false;
      var i := 0;
      while i < |cluster.bundle|
        invariant 0 <= i <= |cluster.bundle|
        invariant !hasSerialNo
        invariant forall j :: 0 <= j < i ==> cluster.bundle[j].serial != ca.serial
      {
        if cluster.bundle[i].serial == ca.serial {
          hasSerialNo := true;
          break;
        }
        i := i + 1;
      }
      assert hasSerialNo <==> CAInBundle(cluster, ca) by {
        if hasSerialNo {
          assert cluster.bundle[i] in cluster.bundle;
        }
      }
      if !hasSerialNo {
        return Wait;
      }
      var trusting := EnsureAllPodsTrustingCABundle(Digest(cluster.bundle));
      match trusting
      case None => d := DecisionError;
      case Some(b) => d := if b then Renew else Wait;
    }

    /** reconcileCA: create the CA, or renew it when it is invalid or past its renewal time. */
    method ReconcileCA(k: Kind, serial: nat) returns (ca: Cert, ghost es: seq<Event>)
      requires FreshSerial(cluster, serial)
      modifies this
      ensures Reaches(old(cluster), es, cluster)
      ensures cluster == AfterCA(old(cluster), sharedCA, k, serial) && ca == cluster.ca[k]
      ensures var s := old(cluster);
              if k in s.ca && s.ca[k].notBefore <= s.now <= s.ca[k].notAfter
                 && s.now <= RenewalTime(s.ca[k].notBefore, s.ca[k].notAfter, 33)
              then cluster == s
              else
                && ca == Cert("ca", serial, s.now - HOUR, s.now + DEFAULT_CA_LIFETIME) && OperatorIssuedCA(ca)
                && cluster == s.(ca := cluster.ca, issuedCAs := s.issuedCAs + {ca})
                && cluster.ca.Keys == s.ca.Keys + (if sharedCA then {Server, Client} else {k})
                && (forall j :: j in cluster.ca ==> cluster.ca[j] == if sharedCA || j == k then ca else s.ca[j])
      ensures sharedCA && CADue(old(cluster), k) ==>
                Server in cluster.ca && Client in cluster.ca && cluster.ca[Server] == cluster.ca[Client] == ca
      ensures SharedConsistent(old(cluster), sharedCA) ==> SharedConsistent(cluster, sharedCA)
    {
      es := [];
      if CADue(cluster, k) {
        var e := ReplaceCA(KindsOf(sharedCA, k), NewCA(cluster.now, serial));
        ReachesOne(cluster, e);
        es := [e];
        cluster := Apply(cluster, e);
        assert forall j :: j in cluster.ca ==> j == Server || j == Client;
      }
      ca := cluster.ca[k];
    }

    /** reconcileCert waits exactly when the leaf is due and its CA is not in the bundle or the Pods are not on it yet,
        fails exactly when the bundle or Pods are missing, and otherwise proceeds. A leaf is replaced exactly when
        ungated or behind an open gate; the latter is a run of the rotation. */
    method ReconcileCert(k: Kind) returns (outcome: Outcome, ungated: bool, ghost es: seq<Event>)
      requires k in cluster.ca
      modifies this
      ensures ungated <==> Ungated(old(cluster), k)
      ensures var s := old(cluster);
              ungated <==>
                || k !in s.leaf || s.now < s.leaf[k].notBefore || s.now > s.leaf[k].notAfter
                || s.leaf[k].issuer !in (if s.bundle != [] then s.bundle else [s.ca[k]])
                || s.now < s.leaf[k].issuer.notBefore || s.now > s.leaf[k].issuer.notAfter
      ensures var s := old(cluster);
              if ungated || (s.now > RenewalTime(s.leaf[k].notBefore, s.leaf[k].notAfter, 33) && ShouldRenewCert(s, s.ca[k]))
              then cluster.leaf == s.leaf[k := Leaf(s.ca[k], s.now - HOUR, s.now + DEFAULT_CERT_LIFETIME)]
              else cluster == s
      ensures !ungated ==> Reaches(old(cluster), es, cluster)
      ensures outcome == RequeueAfter(10) <==> Waits(old(cluster), k)
      ensures outcome == Failed <==> Fails(old(cluster), k)
      ensures outcome == Proceed || outcome == Failed || outcome == RequeueAfter(10)
      ensures cluster == AfterCert(old(cluster), k)
    {
      es := [];
      var ca := cluster.ca[k];
      if k !in cluster.leaf || !LeafValid(cluster.leaf[k], Trusted(cluster, ca), cluster.now) {
        cluster := cluster.(leaf := cluster.leaf[k := IssueLeaf(ca, cluster.now)]);
        return Proceed, true, es;
      }
      var leaf := cluster.leaf[k];
      if !AfterRenewal(leaf.notBefore, leaf.notAfter, cluster.now) {
        return Proceed, false, es;
      }
      var decision := ShouldRenew(ca);
      match decision
      case SkipRenewal => outcome, ungated := Proceed, false;
      case DecisionError => outcome, ungated := Failed, false;
      case Wait => outcome, ungated := RequeueAfter(10), false;
      case Renew =>
        es := GrantAndRenew(cluster, k);
        cluster := cluster.(leaf := cluster.leaf[k := IssueLeaf(ca, cluster.now)], granted := cluster.granted - {ca});
        outcome, ungated := Proceed, false;
    }

    /** reconcileTLSCABundle. */
    method ReconcileCABundle() returns (outcome: Outcome, ghost es: seq<Event>)
      requires Server in cluster.ca && Client in cluster.ca
      modifies this
      ensures Reaches(old(cluster), es, cluster)
      ensures outcome == if Merged(old(cluster)) == [] then Failed else Proceed
      ensures cluster == if outcome == Proceed then old(cluster).(bundle := Merged(old(cluster))) else old(cluster)
    {
      es := [];
      var bundle, ok := BundleCertificatePEMs([cluster.bundle, [cluster.ca[Server]], [cluster.ca[Client]]], cluster.now);
      if !ok {
        return Failed, es;
      }
      ReachesOne(cluster, MergeBundle);
      cluster := cluster.(bundle := bundle);
      return Proceed, [MergeBundle];
    }

    /** One CertReconciler.Reconcile call: the CA, then the leaf it signs. */
    method ReconcileKeyPairs(k: Kind, serial: nat) returns (outcome: Outcome, ungated: bool, ghost es: seq<Event>)
      requires FreshSerial(cluster, serial)
      modifies this
      ensures !ungated ==> Reaches(old(cluster), es, cluster)
      ensures cluster == AfterPair(old(cluster), sharedCA, k, serial)
      ensures outcome == RequeueAfter(10) <==> Waits(AfterCA(old(cluster), sharedCA, k, serial), k)
      ensures outcome == Failed <==> Fails(AfterCA(old(cluster), sharedCA, k, serial), k)
      ensures outcome == Proceed || outcome == Failed || outcome == RequeueAfter(10)
    {
      ghost var start := cluster;
      var ca, es1 := ReconcileCA(k, serial);
      ghost var mid := cluster;
      ghost var es2;
      outcome, ungated, es2 := ReconcileCert(k);
      es := es1 + es2;
      if !ungated {
        ReachesTrans(start, es1, mid, es2, cluster);
      }
    }

    /** reconcileTLSCerts: the server key pair, then, unless that waits or fails, the client one. */
    method ReconcileTLSCerts(serverSerial: nat, clientSerial: nat) returns (outcome: Outcome, ungated: bool, ghost es: seq<Event>)
      requires FreshSerials(cluster, serverSerial, clientSerial)
      modifies this
      ensures !ungated ==> Reaches(old(cluster), es, cluster)
      ensures cluster == AfterCerts(old(cluster), sharedCA, serverSerial, clientSerial)
      ensures outcome == Proceed <==> ReachesMerge(old(cluster), sharedCA, serverSerial, clientSerial)
      ensures outcome == Proceed || outcome == Failed || outcome == RequeueAfter(10)
    {
      ghost var start := cluster;
      outcome, ungated, es := ReconcileKeyPairs(Server, serverSerial);
      if outcome != Proceed {
        return;
      }
      ghost var mid := cluster;
      var ungatedClient;
      ghost var es2;
      outcome, ungatedClient, es2 := ReconcileKeyPairs(Client, clientSerial);
      if !ungated && !ungatedClient {
        ReachesTrans(start, es, mid, es2, cluster);
      }
      es := es + es2;
      ungated := ungated || ungatedClient;
    }

    /** reconcileTLS, with operator-issued CAs: the bundle, which is last, is merged exactly when neither certificate
        waits or fails; then it holds both current CAs. */
    method ReconcileTLS(serverSerial: nat, clientSerial: nat) returns (outcome: Outcome, ungated: bool, ghost es: seq<Event>)
      requires FreshSerials(cluster, serverSerial, clientSerial)
      modifies this
      ensures !ungated ==> Reaches(old(cluster), es, cluster)
      ensures cluster == TlsPass(old(cluster), sharedCA, serverSerial, clientSerial)
      ensures outcome == Proceed <==> ReachesMerge(old(cluster), sharedCA, serverSerial, clientSerial)
      ensures outcome == Proceed ==>
                && Server in cluster.ca && Client in cluster.ca && Server in cluster.leaf && Client in cluster.leaf
                && cluster.bundle == MergedBundle(old(cluster.bundle), cluster.ca[Server], cluster.ca[Client], cluster.now)
                && CAInBundle(cluster, cluster.ca[Server]) && CAInBundle(cluster, cluster.ca[Client])
      ensures outcome != Proceed ==> cluster.bundle == old(cluster.bundle)
    {
      ghost var start := cluster;
      PassFrame(start, sharedCA, serverSerial, clientSerial);
      outcome, ungated, es := ReconcileTLSCerts(serverSerial, clientSerial);
      if outcome != Proceed {
        return;
      }
      ghost var late := cluster;
      MergeGetsCurrentCAs(start, sharedCA, serverSerial, clientSerial);
      ghost var es2;
      outcome, es2 := ReconcileCABundle();
      if !ungated {
        ReachesTrans(start, es, late, es2, cluster);
      }
      es := es + es2;
    }
  }

  /** Neither the certificates nor the clock touch the bundle. */
  lemma PassFrame(s: State, sharedCA: bool, serverSerial: nat, clientSerial: nat)
    requires FreshSerials(s, serverSerial, clientSerial)
    ensures AfterCerts(s, sharedCA, serverSerial, clientSerial).bundle == s.bundle
    ensures AfterCerts(s, sharedCA, serverSerial, clientSerial).now == s.now
  {
    PairFrame(s, sharedCA, Server, serverSerial);
    PairFrame(AfterPair(s, sharedCA, Server, serverSerial), sharedCA, Client, clientSerial);
  }

  /** A renewal behind the open gate, as two events of the rotation. */
  lemma GrantAndRenew(s: State, k: Kind) returns (es: seq<Event>)
    requires k in s.ca && ShouldRenewCert(s, s.ca[k])
    ensures Reaches(s, es, s.(leaf := s.leaf[k := IssueLeaf(s.ca[k], s.now)], granted := s.granted - {s.ca[k]}))
  {
    var grant, renew := GrantRenewal(k), RenewLeaf(k, s.ca[k]);
    var mid := Apply(s, grant);
    ReachesOne(s, grant);
    ReachesOne(mid, renew);
    ReachesTrans(s, [grant], mid, [renew], Apply(mid, renew));
    assert mid.granted - {s.ca[k]} == s.granted - {s.ca[k]};
    es := [grant] + [renew];
  }
}

/** CA and leaf rotation as a transition system: the operator's TLS writes interleaved, one write at a time,
    with the StatefulSet controller, the kubelet, the user and the clock. */
module TlsRotation {
  import opened Prelude
  import opened Pki

  datatype Kind = Server | Client

  /** A running MariaDB Pod: what it loaded when it started, and the CA annotation of the template it was
      created from. Secrets are read when the Pod starts, which may be after the template was written. */
  datatype Pod = Pod(bundle: seq<Cert>, leaf: map<Kind, Leaf>, caAnnotation: Digest<seq<Cert>>, ready: bool)

  /** `granted` holds the decisions taken by ShouldRenewCert that have not been followed by the Secret patch yet. */
  datatype State = State(
    now: int,
    ca: map<Kind, Cert>,
    leaf: map<Kind, Leaf>,
    bundle: seq<Cert>,
    template: Option<Digest<seq<Cert>>>,
    pods: map<nat, Pod>,
    replicas: nat,
    mariadbReady: bool,
    granted: set<Cert>,
    issuedCAs: set<Cert>
  )

  datatype Event =
    | Tick(elapsed: nat)
    | ReplaceCA(kinds: set<Kind>, newCA: Cert)
    | MergeBundle
    | AnnotateTemplate
    | GrantRenewal(kind: Kind)
    | RenewLeaf(kind: Kind, signer: Cert)
    | AbandonRenewal(signer: Cert)
    | StartPod(index: nat)
    | StopPod(index: nat)
    | SetPodReady(index: nat, podReady: bool)
    | SetMariaDBReady(isReady: bool)
    | Scale(newReplicas: nat)

  /** certHandler.ShouldRenewCert: the MariaDB is ready, the bundle has a certificate with the CA's serial,
      and all Pods (exactly spec.replicas of them) are ready and annotated with the bundle's hash. */
  predicate ShouldRenewCert(s: State, ca: Cert) {
    && s.mariadbReady
    && (exists c :: c in s.bundle && c.serial == ca.serial)
    && AllPodsTrustBundle(s.pods, s.replicas, Digest(s.bundle))
  }

  predicate AllPodsTrustBundle(pods: map<nat, Pod>, replicas: nat, bundleHash: Digest<seq<Cert>>) {
    && |pods| == replicas
    && forall i :: i in pods ==> pods[i].ready && pods[i].caAnnotation == bundleHash
  }

  predicate Enabled(s: State, e: Event)
  {
    match e
    case ReplaceCA(kinds, newCA) => forall c :: c in s.issuedCAs ==> c.serial != newCA.serial
    case MergeBundle => Merged(s) != []
    case GrantRenewal(k) => k in s.ca && ShouldRenewCert(s, s.ca[k])
    case RenewLeaf(k, signer) => signer in s.granted
    case StartPod(i) => i !in s.pods && s.template.Some?
    case SetPodReady(i, r) => i in s.pods
    case _ => true
  }

  function Merged(s: State): seq<Cert> {
    if Server in s.ca && Client in s.ca then MergedBundle(s.bundle, s.ca[Server], s.ca[Client], s.now) else s.bundle
  }

  function Apply(s: State, e: Event): State
    requires Enabled(s, e)
  {
    match e
    case Tick(d) => s.(now := s.now + d)
    case ReplaceCA(kinds, c) =>
      s.(ca := map k | k in s.ca.Keys + kinds :: if k in kinds then c else s.ca[k], issuedCAs := s.issuedCAs + {c})
    case MergeBundle => s.(bundle := Merged(s))
    case AnnotateTemplate => s.(template := Some(Digest(s.bundle)))
    case GrantRenewal(k) => s.(granted := s.granted + {s.ca[k]})
    case RenewLeaf(k, signer) => s.(leaf := s.leaf[k := IssueLeaf(signer, s.now)], granted := s.granted - {signer})
    case AbandonRenewal(signer) => s.(granted := s.granted - {signer})
    case StartPod(i) => s.(pods := s.pods[i := Pod(s.bundle, s.leaf, s.template.value, false)])
    case StopPod(i) => s.(pods := s.pods - {i})
    case SetPodReady(i, r) => s.(pods := s.pods[i := s.pods[i].(ready := r)])
    case SetMariaDBReady(r) => s.(mariadbReady := r)
    case Scale(n) => s.(replicas := n)
  }

  /** `t` is reached from `s` by the events `es`, in this order. */
  ghost predicate Reaches(s: State, es: seq<Event>, t: State)
    decreases |es|
  {
    if es == [] then s == t
    else Enabled(s, es[0]) && Reaches(Apply(s, es[0]), es[1..], t)
  }

  /** The state after the first TLS pass and before any Pod exists (TlsReconciler.FirstPassInitializes). */
  ghost predicate Init(s: State) {
    && s.pods == map[]
    && s.template == None
    && s.granted == {}
    && (forall k :: k in s.ca ==> s.ca[k] in s.issuedCAs)
    && (forall c :: c in s.bundle ==> c in s.issuedCAs && c.notBefore <= s.now)
    && SerialsIdentify(s.issuedCAs)
    && (forall k :: k in s.leaf ==> s.leaf[k].issuer in s.bundle)
  }

  // ---------------------------------------------------------------------------------------------
  // The invariant
  // ---------------------------------------------------------------------------------------------

  predicate Expired(c: Cert, now: int) {
    now > c.notAfter
  }

  /** A leaf that a peer can still accept: neither it nor the CA that signed it has expired. */
  predicate ChainLive(l: Leaf, now: int) {
    now <= l.notAfter && !Expired(l.issuer, now)
  }

  /** The CA is in the bundle Secret and in the bundle of every running Pod. */
  ghost predicate TrustedEverywhere(s: State, ca: Cert) {
    && ca in s.bundle
    && forall i :: i in s.pods ==> ca in s.pods[i].bundle
  }

  ghost predicate LeavesTrusted(s: State, leaves: map<Kind, Leaf>) {
    forall k :: k in leaves && !Expired(leaves[k].issuer, s.now) ==> TrustedEverywhere(s, leaves[k].issuer)
  }

  /** Whoever loads `loaded` knows every certificate of `annotated` that has not expired. */
  ghost predicate CoversLive(loaded: seq<Cert>, annotated: seq<Cert>, now: int) {
    forall c :: c in annotated && !Expired(c, now) ==> c in loaded
  }

  ghost predicate PodOk(s: State, p: Pod) {
    CoversLive(p.bundle, p.caAnnotation.content, s.now) && LeavesTrusted(s, p.leaf)
  }

  ghost predicate CAsOk(s: State) {
    && SerialsIdentify(s.issuedCAs)
    && (forall k :: k in s.ca ==> s.ca[k] in s.issuedCAs)
    && (forall c :: c in s.bundle ==> c in s.issuedCAs && c.notBefore <= s.now)
  }

  ghost predicate Inv(s: State) {
    && CAsOk(s)
    && LeavesTrusted(s, s.leaf)
    && (s.template.Some? ==> CoversLive(s.bundle, s.template.value.content, s.now))
    && (forall i :: i in s.pods ==> PodOk(s, s.pods[i]))
    && (forall c :: c in s.granted && !Expired(c, s.now) ==> TrustedEverywhere(s, c))
  }

  /** The gate does what its name says: a CA that passes it is already trusted by every running Pod. */
  lemma GateImpliesTrust(s: State, k: Kind)
    requires Inv(s) && k in s.ca && ShouldRenewCert(s, s.ca[k])
    ensures !Expired(s.ca[k], s.now) ==> TrustedEverywhere(s, s.ca[k])
  {
    var ca := s.ca[k];
    var c :| c in s.bundle && c.serial == ca.serial;
    assert c == ca;
    forall i | i in s.pods && !Expired(ca, s.now)
      ensures ca in s.pods[i].bundle
    {
      assert PodOk(s, s.pods[i]);
    }
  }

  lemma MergeKeepsTrust(s: State)
    requires Inv(s) && Enabled(s, MergeBundle)
    ensures forall c :: c in s.bundle && !Expired(c, s.now) ==> c in Merged(s)
    ensures CAsOk(Apply(s, MergeBundle))
  {
    if Server in s.ca && Client in s.ca {
      assert (set c | c in s.bundle) + {s.ca[Server], s.ca[Client]} <= s.issuedCAs;
      MergedBundleIsLiveUnion(s.bundle, s.ca[Server], s.ca[Client], s.now);
    }
  }

  /** How a step may change what is trusted: time only advances, the bundle only loses expired certificates,
      and a Pod of `t` is a Pod of `s` or has just loaded the bundle Secret. */
  ghost predicate Carries(s: State, t: State) {
    && s.now <= t.now
    && CoversLive(t.bundle, s.bundle, t.now)
    && forall i :: i in t.pods ==>
         || t.pods[i].bundle == s.bundle
         || (i in s.pods && t.pods[i].bundle == s.pods[i].bundle)
  }

  lemma TrustCarries(s: State, t: State, c: Cert)
    requires Carries(s, t) && TrustedEverywhere(s, c) && !Expired(c, t.now)
    ensures TrustedEverywhere(t, c)
  {
  }

  lemma LeavesCarry(s: State, t: State, leaves: map<Kind, Leaf>)
    requires Carries(s, t) && LeavesTrusted(s, leaves)
    ensures LeavesTrusted(t, leaves)
  {
    forall k | k in leaves && !Expired(leaves[k].issuer, t.now)
      ensures TrustedEverywhere(t, leaves[k].issuer)
    {
      TrustCarries(s, t, leaves[k].issuer);
    }
  }

  lemma PodsCarry(s: State, t: State)
    requires Inv(s) && Carries(s, t)
    requires forall i :: i in t.pods ==> i in s.pods && t.pods[i] == s.pods[i].(ready := t.pods[i].ready)
    ensures forall i :: i in t.pods ==> PodOk(t, t.pods[i])
  {
    forall i | i in t.pods
      ensures PodOk(t, t.pods[i])
    {
      assert PodOk(s, s.pods[i]);
      LeavesCarry(s, t, s.pods[i].leaf);
    }
  }

  lemma GrantsCarry(s: State, t: State)
    requires Inv(s) && Carries(s, t)
    ensures forall c :: c in s.granted && !Expired(c, t.now) ==> TrustedEverywhere(t, c)
  {
    forall c | c in s.granted && !Expired(c, t.now)
      ensures TrustedEverywhere(t, c)
    {
      TrustCarries(s, t, c);
    }
  }

  lemma StartPodKeepsInv(s: State, i: nat)
    requires Inv(s) && Enabled(s, StartPod(i))
    ensures Inv(Apply(s, StartPod(i)))
  {
    var t := Apply(s, StartPod(i));
    LeavesCarry(s, t, s.leaf);
    GrantsCarry(s, t);
    forall j | j in t.pods
      ensures PodOk(t, t.pods[j])
    {
      if j != i {
        assert PodOk(s, s.pods[j]);
        LeavesCarry(s, t, s.pods[j].leaf);
      }
    }
  }

  lemma StepCarries(s: State, e: Event)
    requires Inv(s) && Enabled(s, e) && !e.StartPod?
    ensures Carries(s, Apply(s, e)) && CAsOk(Apply(s, e))
  {
    if e.MergeBundle? {
      MergeKeepsTrust(s);
    }
  }

  /** What is written besides the bundle and the Pods: the template, a leaf, a grant. */
  lemma WritesKeepInv(s: State, e: Event)
    requires Inv(s) && Enabled(s, e) && !e.StartPod?
    requires Carries(s, Apply(s, e)) && CAsOk(Apply(s, e))
    requires forall i :: i in Apply(s, e).pods ==> PodOk(Apply(s, e), Apply(s, e).pods[i])
    ensures Inv(Apply(s, e))
  {
    var t := Apply(s, e);
    LeavesCarry(s, t, s.leaf);
    GrantsCarry(s, t);
    if e.GrantRenewal? {
      GateImpliesTrust(s, e.kind);
    }
  }

  /** Every write of the operator and every move of its environment keeps the invariant. */
  lemma StepKeepsInv(s: State, e: Event)
    requires Inv(s) && Enabled(s, e)
    ensures Inv(Apply(s, e))
  {
    if e.StartPod? {
      StartPodKeepsInv(s, e.index);
    } else {
      StepCarries(s, e);
      PodsCarry(s, Apply(s, e));
      WritesKeepInv(s, e);
    }
  }

  lemma {:induction false} RunKeepsInv(s: State, es: seq<Event>, t: State)
    requires Inv(s) && Reaches(s, es, t)
    ensures Inv(t)
    decreases |es|
  {
    if es != [] {
      StepKeepsInv(s, es[0]);
      RunKeepsInv(Apply(s, es[0]), es[1..], t);
    }
  }

  // ---------------------------------------------------------------------------------------------
  // Main results
  // ---------------------------------------------------------------------------------------------

  /** Trust closure: after any run, every running Pod trusts the CA behind every live certificate that any
      running Pod presents, whatever the interleaving of rotation, merge, expiry, Pod rolls and renewal. */
  lemma TrustClosure(s0: State, es: seq<Event>, s: State, p: nat, q: nat, k: Kind)
    requires Init(s0) && Reaches(s0, es, s)
    requires p in s.pods && q in s.pods && k in s.pods[q].leaf
    requires ChainLive(s.pods[q].leaf[k], s.now)
    ensures s.pods[q].leaf[k].issuer in s.pods[p].bundle
  {
    assert Inv(s0);
    RunKeepsInv(s0, es, s);
    assert PodOk(s, s.pods[q]);
    assert TrustedEverywhere(s, s.pods[q].leaf[k].issuer);
  }

  /** No leaf outlives the CA that signed it. */
  ghost predicate WithinCA(leaves: map<Kind, Leaf>) {
    forall k :: k in leaves ==> leaves[k].notAfter <= leaves[k].issuer.notAfter
  }

  ghost predicate AllWithinCA(s: State) {
    WithinCA(s.leaf) && forall i :: i in s.pods ==> WithinCA(s.pods[i].leaf)
  }

  /** Leaves are signed by CAs that the operator issued and that are not due for renewal at that time. */
  ghost predicate SignersNotDue(s: State, es: seq<Event>)
    decreases |es|
  {
    es == [] ||
    (&& Enabled(s, es[0])
     && (es[0].RenewLeaf? ==>
           OperatorIssuedCA(es[0].signer) && !AfterRenewal(es[0].signer.notBefore, es[0].signer.notAfter, s.now))
     && SignersNotDue(Apply(s, es[0]), es[1..]))
  }

  lemma StepKeepsWithinCA(s: State, e: Event)
    requires AllWithinCA(s) && Enabled(s, e)
    requires e.RenewLeaf? ==> OperatorIssuedCA(e.signer) && !AfterRenewal(e.signer.notBefore, e.signer.notAfter, s.now)
    ensures AllWithinCA(Apply(s, e))
  {
    if e.RenewLeaf? {
      LeafNeverOutlivesOperatorCA(e.signer, s.now);
    }
  }

  lemma {:induction false} RunKeepsWithinCA(s: State, es: seq<Event>, t: State)
    requires AllWithinCA(s) && Reaches(s, es, t) && SignersNotDue(s, es)
    ensures AllWithinCA(t)
    decreases |es|
  {
    if es != [] {
      StepKeepsWithinCA(s, es[0]);
      RunKeepsWithinCA(Apply(s, es[0]), es[1..], t);
    }
  }

  /** Trust closure for every unexpired leaf: along runs whose signers are not due when they sign, the CA behind an
      unexpired leaf has not expired either, so the chain condition is no restriction. */
  lemma UnexpiredTrustClosure(s0: State, es: seq<Event>, s: State, p: nat, q: nat, k: Kind)
    requires Init(s0) && WithinCA(s0.leaf) && Reaches(s0, es, s) && SignersNotDue(s0, es)
    requires p in s.pods && q in s.pods && k in s.pods[q].leaf
    requires s.now <= s.pods[q].leaf[k].notAfter
    ensures s.pods[q].leaf[k].issuer in s.pods[p].bundle
  {
    RunKeepsWithinCA(s0, es, s);
    assert WithinCA(s.pods[q].leaf);
    TrustClosure(s0, es, s, p, q, k);
  }

  /** The gate compares serial numbers only. Without any assumption on serials, a CA that passes it is trusted
      by the running Pods exactly when the CA itself, and not a namesake, is in the bundle. */
  lemma GateExactCondition(s: State, k: Kind)
    requires forall i :: i in s.pods ==> CoversLive(s.pods[i].bundle, s.pods[i].caAnnotation.content, s.now)
    requires k in s.ca && ShouldRenewCert(s, s.ca[k]) && !Expired(s.ca[k], s.now)
    ensures TrustedEverywhere(s, s.ca[k]) <==> s.ca[k] in s.bundle
  {
  }

  /** Two CAs with one serial number: the gate opens although no Pod trusts the new CA. */
  lemma SerialCollisionOpensGate() returns (s: State)
    ensures Server in s.ca && ShouldRenewCert(s, s.ca[Server]) && !Expired(s.ca[Server], s.now) && s.pods != map[]
    ensures forall i :: i in s.pods ==>
              CoversLive(s.pods[i].bundle, s.pods[i].caAnnotation.content, s.now) && s.ca[Server] !in s.pods[i].bundle
  {
    var known := Cert("ca-a", 7, 0, 100);
    var namesake := Cert("ca-b", 7, 0, 200);
    var leaf := Leaf(known, 0, 50);
    var pod := Pod([known], map[Server := leaf], Digest([known]), true);
    s := State(10, map[Server := namesake, Client := known], map[Server := leaf], [known], Some(Digest([known])),
               map[0 := pod], 1, true, {}, {known, namesake});
    assert known in s.bundle && s.pods.Keys == {0};
  }

  /** The leaf of kind k, issued anew by the current CA. */
  function Reissued(s: State, k: Kind): State
    requires k in s.ca
  {
    s.(leaf := s.leaf[k := IssueLeaf(s.ca[k], s.now)])
  }

  /** Replacing a leaf without the gate, as the code does with an expired one, keeps the invariant exactly when the
      gate's promise holds anyway: the CA is trusted everywhere, or has itself expired. */
  lemma UngatedReplacementKeepsInvIff(s: State, k: Kind)
    requires Inv(s) && k in s.ca
    ensures Inv(Reissued(s, k)) <==> (!Expired(s.ca[k], s.now) ==> TrustedEverywhere(s, s.ca[k]))
  {
    var t := Reissued(s, k);
    assert forall ca :: TrustedEverywhere(t, ca) <==> TrustedEverywhere(s, ca);
    assert t.leaf[k].issuer == s.ca[k];
    forall i | i in t.pods
      ensures PodOk(t, t.pods[i])
    {
      assert PodOk(s, s.pods[i]);
    }
  }

  /** Otherwise the closure is lost as soon as a Pod starts: whichever running Pod lacks the CA, the new Pod presents a
      live certificate that it does not trust. */
  lemma UngatedReplacementBreaksClosure(s: State, k: Kind, p: nat, q: nat)
    requires k in s.ca && !Expired(s.ca[k], s.now)
    requires p in s.pods && s.ca[k] !in s.pods[p].bundle && q !in s.pods && s.template.Some?
    ensures var t := Apply(Reissued(s, k), StartPod(q));
            && p in t.pods && k in t.pods[q].leaf && ChainLive(t.pods[q].leaf[k], t.now)
            && t.pods[q].leaf[k].issuer !in t.pods[p].bundle
  {
  }

  /** What the certificate reconciler checks before it takes the ungated branch: the leaf, and the CA that
      signed it, are inside their validity and the CA is one of the trusted ones. */
  predicate LeafValid(l: Leaf, trusted: seq<Cert>, now: int) {
    l.notBefore <= now <= l.notAfter && l.issuer in trusted && InWindow(l.issuer, now)
  }

  /** In every reachable state the ungated branch is closed for a live leaf: it validates against the bundle.
      (A leaf is issued with a start of validity in the past, by a CA taken from the bundle.) */
  lemma LiveLeafIsNeverReplacedUngated(s0: State, es: seq<Event>, s: State, k: Kind)
    requires Init(s0) && Reaches(s0, es, s)
    requires k in s.leaf && s.leaf[k].notBefore <= s.now && ChainLive(s.leaf[k], s.now)
    ensures LeafValid(s.leaf[k], s.bundle, s.now)
  {
    assert Inv(s0);
    RunKeepsInv(s0, es, s);
    assert TrustedEverywhere(s, s.leaf[k].issuer);
  }

  lemma {:induction false} ReachesTrans(s: State, es1: seq<Event>, t: State, es2: seq<Event>, u: State)
    requires Reaches(s, es1, t) && Reaches(t, es2, u)
    ensures Reaches(s, es1 + es2, u)
    decreases |es1|
  {
    if es1 == [] {
      assert es1 + es2 == es2;
    } else {
      ReachesTrans(Apply(s, es1[0]), es1[1..], t, es2, u);
      assert (es1 + es2)[1..] == es1[1..] + es2;
    }
  }

  lemma ReachesOne(s: State, e: Event)
    requires Enabled(s, e)
    ensures Reaches(s, [e], Apply(s, e))
  {
    assert [e][1..] == [];
  }
}

/** Certificates, the CA bundle and renewal times. Certificates are abstracted to who signed them and when
    they are valid; times are nanoseconds, as in Go's time package. */
module Pki {

  const SECOND := 1_000_000_000
  const HOUR := 3600 * SECOND
  const DEFAULT_CA_LIFETIME := 3 * 365 * 24 * HOUR
  const DEFAULT_CERT_LIFETIME := 3 * 30 * 24 * HOUR
  const DEFAULT_RENEW_BEFORE_PERCENTAGE := 33

  datatype Cert = Cert(commonName: string, serial: nat, notBefore: int, notAfter: int)

  /** A leaf certificate together with the CA certificate that signed it. */
  datatype Leaf = Leaf(issuer: Cert, notBefore: int, notAfter: int)

  predicate InWindow(c: Cert, now: int) {
    c.notBefore <= now <= c.notAfter
  }

  /** Common name and serial: what the bundle uses to tell certificates apart. */
  function CertId(c: Cert): (string, nat) {
    (c.commonName, c.serial)
  }

  function Ids(certs: seq<Cert>): set<(string, nat)> {
    set c | c in certs :: CertId(c)
  }

  // ---------------------------------------------------------------------------------------------
  // The CA bundle
  // ---------------------------------------------------------------------------------------------

  /** One PEM appended to a bundle: known ids and certificates outside their validity window are skipped. */
  function AppendPem(bundle: seq<Cert>, pem: seq<Cert>, now: int): seq<Cert>
    decreases |pem|
  {
    if pem == [] then bundle
    else if CertId(pem[0]) in Ids(bundle) || !InWindow(pem[0], now) then AppendPem(bundle, pem[1..], now)
    else AppendPem(bundle + [pem[0]], pem[1..], now)
  }

  function AppendPems(bundle: seq<Cert>, pems: seq<seq<Cert>>, now: int): seq<Cert>
    decreases |pems|
  {
    if pems == [] then bundle else AppendPems(AppendPem(bundle, pems[0], now), pems[1..], now)
  }

  /** The bundle that reconcileTLSCABundle writes: old bundle, then server CA, then client CA. */
  function MergedBundle(bundle: seq<Cert>, serverCA: Cert, clientCA: Cert, now: int): seq<Cert> {
    AppendPems([], [bundle, [serverCA], [clientCA]], now)
  }

  /** Distinct ids: the bundle never lists a certificate twice. */
  ghost predicate DistinctIds(certs: seq<Cert>) {
    forall i, j :: 0 <= i < j < |certs| ==> CertId(certs[i]) != CertId(certs[j])
  }

  /** The loop of BundleCertificatePEMs and appendPEM, with its set of ids already emitted. */
  method BundleCertificatePEMs(pems: seq<seq<Cert>>, now: int) returns (bundle: seq<Cert>, ok: bool)
    ensures bundle == AppendPems([], pems, now)
    ensures ok <==> bundle != []
  {
    bundle := [];
    var existing: set<(string, nat)> := {};
    for i := 0 to |pems|
      invariant existing == Ids(bundle)
      invariant AppendPems([], pems, now) == AppendPems(bundle, pems[i..], now)
    {
      assert pems[i..][1..] == pems[i + 1..];
      ghost var before := bundle;
      var pem := pems[i];
      while pem != []
        invariant existing == Ids(bundle)
        invariant AppendPem(before, pems[i], now) == AppendPem(bundle, pem, now)
        decreases |pem|
      {
        var cert := pem[0];
        if CertId(cert) !in existing && InWindow(cert, now) {
          existing := existing + {CertId(cert)};
          IdsSnoc(bundle, cert);
          bundle := bundle + [cert];
        }
        pem := pem[1..];
      }
    }
    ok := bundle != [];
  }

  lemma IdsSnoc(certs: seq<Cert>, c: Cert)
    ensures Ids(certs + [c]) == Ids(certs) + {CertId(c)}
  {
    assert forall d :: d in certs + [c] <==> d in certs || d == c;
  }

  /** What one append keeps and drops, for every bundle and every PEM. */
  lemma {:induction false} AppendPemMembers(bundle: seq<Cert>, pem: seq<Cert>, now: int)
    ensures bundle <= AppendPem(bundle, pem, now)
    ensures forall c :: c in AppendPem(bundle, pem, now) ==> c in bundle || (c in pem && InWindow(c, now))
    ensures forall c :: c in pem && InWindow(c, now) ==> CertId(c) in Ids(AppendPem(bundle, pem, now))
    ensures DistinctIds(bundle) ==> DistinctIds(AppendPem(bundle, pem, now))
    decreases |pem|
  {
    if pem != [] {
      var rest := if CertId(pem[0]) in Ids(bundle) || !InWindow(pem[0], now) then bundle else bundle + [pem[0]];
      IdsSnoc(bundle, pem[0]);
      AppendPemMembers(rest, pem[1..], now);
      var out := AppendPem(bundle, pem, now);
      assert Ids(rest) <= Ids(out) by {
        assert forall c :: c in rest ==> c in out;
      }
      assert forall c :: c in pem <==> c == pem[0] || c in pem[1..];
    }
  }

  /** In particular a certificate gives way only to one with the same common name and the same serial. */
  lemma AppendPemKeepsNames(bundle: seq<Cert>, pem: seq<Cert>, now: int, c: Cert)
    requires c in pem && c.notBefore <= now <= c.notAfter
    ensures exists d :: d in AppendPem(bundle, pem, now) && d.commonName == c.commonName && d.serial == c.serial
  {
    AppendPemMembers(bundle, pem, now);
    var d :| d in AppendPem(bundle, pem, now) && CertId(d) == CertId(c);
  }

  /** A bundle whose members are all inside their window and have distinct ids is left alone. */
  lemma {:induction false} AppendPemFresh(bundle: seq<Cert>, pem: seq<Cert>, now: int)
    requires DistinctIds(bundle + pem)
    requires forall c :: c in pem ==> InWindow(c, now)
    ensures AppendPem(bundle, pem, now) == bundle + pem
    decreases |pem|
  {
    if pem == [] {
      assert bundle + pem == bundle;
    } else {
      var all := bundle + pem;
      forall i | 0 <= i < |bundle|
        ensures CertId(bundle[i]) != CertId(pem[0])
      {
        assert all[i] == bundle[i] && all[|bundle|] == pem[0];
      }
      assert CertId(pem[0]) !in Ids(bundle);
      assert bundle + [pem[0]] + pem[1..] == all;
      AppendPemFresh(bundle + [pem[0]], pem[1..], now);
    }
  }

  lemma AppendPemKnown(bundle: seq<Cert>, c: Cert, now: int)
    requires CertId(c) in Ids(bundle) || !InWindow(c, now)
    ensures AppendPem(bundle, [c], now) == bundle
  {
    assert AppendPem(bundle, [c][1..], now) == bundle;
  }

  lemma MergedBundleUnfold(bundle: seq<Cert>, serverCA: Cert, clientCA: Cert, now: int)
    ensures MergedBundle(bundle, serverCA, clientCA, now)
         == AppendPem(AppendPem(AppendPem([], bundle, now), [serverCA], now), [clientCA], now)
  {
    var pems := [bundle, [serverCA], [clientCA]];
    var b1 := AppendPem([], bundle, now);
    var b2 := AppendPem(b1, [serverCA], now);
    var b3 := AppendPem(b2, [clientCA], now);
    assert pems[1..] == [[serverCA], [clientCA]] && pems[1..][1..] == [[clientCA]] && pems[1..][1..][1..] == [];
    calc {
      AppendPems([], pems, now);
      AppendPems(b1, pems[1..], now);
      AppendPems(b2, pems[1..][1..], now);
      AppendPems(b3, pems[1..][1..][1..], now);
      b3;
    }
  }

  /** The union-minus-expired reading of the merge, when serial numbers identify certificates:
      exactly the inputs inside their validity window survive. */
  lemma MergedBundleIsLiveUnion(bundle: seq<Cert>, serverCA: Cert, clientCA: Cert, now: int)
    requires SerialsIdentify((set c | c in bundle) + {serverCA, clientCA})
    ensures forall c ::
              c in MergedBundle(bundle, serverCA, clientCA, now)
              <==> (c in bundle || c == serverCA || c == clientCA) && c.notBefore <= now <= c.notAfter
    ensures DistinctIds(MergedBundle(bundle, serverCA, clientCA, now))
  {
    MergedBundleUnfold(bundle, serverCA, clientCA, now);
    var all := (set c | c in bundle) + {serverCA, clientCA};
    var b1 := AppendPem([], bundle, now);
    var b2 := AppendPem(b1, [serverCA], now);
    var b3 := AppendPem(b2, [clientCA], now);
    AppendPemMembers([], bundle, now);
    AppendPemMembers(b1, [serverCA], now);
    AppendPemMembers(b2, [clientCA], now);
    assert forall c :: c in b1 ==> c in b2;
    assert forall c :: c in b2 ==> c in b3;
    assert forall c :: c in b3 ==> c in all && InWindow(c, now);
    forall c | c in all && InWindow(c, now)
      ensures c in b3
    {
      assert CertId(c) in Ids(b3) by {
        if c in bundle {
          assert CertId(c) in Ids(b1);
        } else if c == serverCA {
          assert c in [serverCA];
        } else {
          assert c in [clientCA];
        }
      }
      var d :| d in b3 && CertId(d) == CertId(c);
      assert d in all;
    }
  }

  /** With no assumption on serials: the ids of current CAs inside their window are in the merge. */
  lemma MergeHasCurrentCAs(bundle: seq<Cert>, serverCA: Cert, clientCA: Cert, now: int)
    ensures InWindow(serverCA, now) ==> CertId(serverCA) in Ids(MergedBundle(bundle, serverCA, clientCA, now))
    ensures InWindow(clientCA, now) ==> CertId(clientCA) in Ids(MergedBundle(bundle, serverCA, clientCA, now))
  {
    MergedBundleUnfold(bundle, serverCA, clientCA, now);
    var b1 := AppendPem([], bundle, now);
    var b2 := AppendPem(b1, [serverCA], now);
    var b3 := AppendPem(b2, [clientCA], now);
    AppendPemMembers(b1, [serverCA], now);
    AppendPemMembers(b2, [clientCA], now);
    assert forall c :: c in b2 ==> c in b3;
    assert serverCA in [serverCA] && clientCA in [clientCA];
  }

  /** Serial numbers identify CAs (unique across issuers, as the renewal gate assumes). */
  ghost predicate SerialsIdentify(certs: set<Cert>) {
    forall c, d :: c in certs && d in certs && c.serial == d.serial ==> c == d
  }

  /** Re-merging right after a merge writes the same bytes, so the pods are not rolled a second time. */
  lemma MergeIsIdempotent(bundle: seq<Cert>, serverCA: Cert, clientCA: Cert, now: int)
    ensures var m := MergedBundle(bundle, serverCA, clientCA, now);
            MergedBundle(m, serverCA, clientCA, now) == m
  {
    var m := MergedBundle(bundle, serverCA, clientCA, now);
    MergedBundleUnfold(bundle, serverCA, clientCA, now);
    MergedBundleUnfold(m, serverCA, clientCA, now);
    var b1 := AppendPem([], bundle, now);
    var b2 := AppendPem(b1, [serverCA], now);
    AppendPemMembers([], bundle, now);
    AppendPemMembers(b1, [serverCA], now);
    AppendPemMembers(b2, [clientCA], now);
    assert forall c :: c in b2 ==> c in m;
    assert serverCA in [serverCA] && clientCA in [clientCA];
    assert [] + m == m;
    AppendPemFresh([], m, now);
    AppendPemKnown(m, serverCA, now);
    AppendPemKnown(m, clientCA, now);
  }

  // ---------------------------------------------------------------------------------------------
  // Renewal times
  // ---------------------------------------------------------------------------------------------

  /** Certificates with a negative lifetime are refused when they are created, so the division never truncates
      a negative number. */
  function RenewalTime(notBefore: int, notAfter: int, renewBeforePercentage: int): int
    requires 10 <= renewBeforePercentage <= 90
  {
    var renewalDuration := (notAfter - notBefore) * renewBeforePercentage / 100;
    var t := notAfter - renewalDuration;
    t - t % SECOND
  }

  /** The renewal time is on a whole second, and what is left from there is the given share of the lifetime, rounded up
      to that second. */
  lemma RenewalTimeMeaning(notBefore: int, notAfter: int, renewBeforePercentage: int)
    requires notBefore <= notAfter && 10 <= renewBeforePercentage <= 90
    ensures var t := RenewalTime(notBefore, notAfter, renewBeforePercentage);
            && t % SECOND == 0
            && (notAfter - t) * 100 > (notAfter - notBefore) * renewBeforePercentage - 100
            && (notAfter - t - SECOND) * 100 < (notAfter - notBefore) * renewBeforePercentage
  {
    var share := (notAfter - notBefore) * renewBeforePercentage;
    var t := notAfter - share / 100;
    assert share - 100 < share / 100 * 100 <= share;
    assert 0 <= t % SECOND < SECOND;
    RoundedDown(t);
  }

  lemma RoundedDown(t: int)
    ensures (t - t % SECOND) % SECOND == 0
  {
  }

  predicate AfterRenewal(notBefore: int, notAfter: int, now: int) {
    now > RenewalTime(notBefore, notAfter, DEFAULT_RENEW_BEFORE_PERCENTAGE)
  }

  /** The validity that the operator gives to a CA it issues. */
  predicate OperatorIssuedCA(c: Cert) {
    c.notAfter - c.notBefore == DEFAULT_CA_LIFETIME + HOUR
  }

  function IssueLeaf(ca: Cert, now: int): Leaf {
    Leaf(ca, now - HOUR, now + DEFAULT_CERT_LIFETIME)
  }

  /** A CA that the operator did not have to renew at `now` outlives every leaf it signs at `now`,
      and so does a CA issued at `now`. */
  lemma LeafNeverOutlivesOperatorCA(ca: Cert, now: int)
    requires OperatorIssuedCA(ca)
    requires !AfterRenewal(ca.notBefore, ca.notAfter, now)
    ensures IssueLeaf(ca, now).notAfter < ca.notAfter
  {
    var d := ca.notAfter - ca.notBefore;
    assert d * 33 / 100 > DEFAULT_CERT_LIFETIME;
  }
}

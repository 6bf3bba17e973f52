/** The hash in the status as a cache of "the API already agrees with this spec": when skipping on a match does the
    same as reconciling, and when it does not. */
module HashGate {
  import opened Prelude
  import opened MaxScaleSync
  import opened MaxScaleReconciler

  datatype State = State(
    servers: seq<ServerSpec>,                        // spec.servers
    api: map<string, Server>,
    hash: Option<Digest<seq<ServerSpec>>>,           // status.serversSpec
    dirty: bool                                      // the API was written to since the hash was, and the hash not since
  )

  datatype Event =
    | Edit(servers: seq<ServerSpec>)
    | Pass                                           // reconcileChangedServers gets through
    | FailedPass(after: map<string, Server>)         // a call fails on the way
    | LostPatch                                      // all calls succeed, the status patch fails
    | InitPass(after: map<string, Server>)           // reconcileInitInPod, complete or not

  predicate Skips(s: State) {
    s.hash == Some(Digest(s.servers))
  }

  ghost predicate Enabled(s: State, e: Event) {
    match e
    case FailedPass(after) => !Skips(s) && ServersBetween(s.api, after, DesiredServers(s.servers))
    case LostPatch => !Skips(s)
    case InitPass(after) => ServersBetween(s.api, after, DesiredServers(s.servers))
    case _ => true
  }

  function Apply(s: State, e: Event): State {
    match e
    case Edit(servers) => s.(servers := servers)
    case Pass => if Skips(s) then s else Reconciled(s)
    case FailedPass(after) => s.(api := after, dirty := true)
    case LostPatch => s.(api := DesiredServers(s.servers), dirty := true)
    case InitPass(after) => s.(api := after, dirty := true)
  }

  /** What a pass does that does not look at the hash. */
  function Reconciled(s: State): State {
    State(s.servers, DesiredServers(s.servers), Some(Digest(s.servers)), false)
  }

  ghost predicate Reaches(s: State, es: seq<Event>, t: State)
    decreases |es|
  {
    if es == [] then s == t else Enabled(s, es[0]) && Reaches(Apply(s, es[0]), es[1..], t)
  }

  ghost predicate Inv(s: State) {
    s.hash.Some? && !s.dirty ==> s.api == DesiredServers(s.hash.value.content)
  }

  lemma {:induction false} RunKeepsInv(s: State, es: seq<Event>, t: State)
    requires Inv(s) && Reaches(s, es, t)
    ensures Inv(t)
    decreases |es|
  {
    if es != [] {
      RunKeepsInv(Apply(s, es[0]), es[1..], t);
    }
  }

  /** The gate refines always-reconcile: starting without a hash, after any run in which no attempt has failed and no
      init has written since the hash was stored, a gated pass and an ungated one leave the same servers. */
  lemma GateRefinesReconcile(s: State, es: seq<Event>, t: State)
    requires s.hash == None && Reaches(s, es, t) && !t.dirty
    ensures Apply(t, Pass).api == Reconciled(t).api == DesiredServers(t.servers)
  {
    RunKeepsInv(s, es, t);
  }

  /** In general the gate is right for whatever spec comes next exactly when the API agrees with the spec that was
      hashed. */
  lemma GateIsRightIff(s: State)
    ensures (forall servers :: Apply(Apply(s, Edit(servers)), Pass).api == DesiredServers(servers)) <==>
            (s.hash.Some? ==> s.api == DesiredServers(s.hash.value.content))
  {
    if s.hash.Some? {
      var hashed := s.hash.value.content;
      var reverted := Apply(s, Edit(hashed));
      assert Skips(reverted) && Apply(reverted, Pass).api == s.api;
    }
    forall servers | s.hash.Some? ==> s.api == DesiredServers(s.hash.value.content)
      ensures Apply(Apply(s, Edit(servers)), Pass).api == DesiredServers(servers)
    {
    }
  }

  /** So a failed attempt followed by a revert goes unnoticed: for every hashed spec and every other spec that wants
      different servers, an attempt at the other that gets to the end but for the status patch, or a complete init,
      leaves the other's servers in place under the old spec. */
  lemma RevertGoesUnnoticed(hashed: seq<ServerSpec>, other: seq<ServerSpec>, viaInit: bool) returns (s: State, es: seq<Event>, t: State)
    requires DesiredServers(other) != DesiredServers(hashed)
    ensures s == State(hashed, DesiredServers(hashed), Some(Digest(hashed)), false)
    ensures Reaches(s, es, t) && t.servers == hashed
    ensures Apply(t, Pass) == t && t.api == DesiredServers(other) != Reconciled(t).api
  {
    s := State(hashed, DesiredServers(hashed), Some(Digest(hashed)), false);
    var attempt := if viaInit then InitPass(DesiredServers(other)) else LostPatch;
    es := [Edit(other), attempt, Edit(hashed)];
    var a := Apply(s, es[0]);
    assert !Skips(a);
    assert Enabled(a, attempt);
    var b := Apply(a, attempt);
    t := Apply(b, es[2]);
    assert es[1..][1..][1..] == [];
    assert Reaches(t, es[1..][1..][1..], t);
    assert Reaches(b, es[1..][1..], t);
    assert Reaches(a, es[1..], t);
  }

  /** The controller's own method stays within this model. */
  method GatedPass(c: Controller, ghost dirty: bool) returns (outcome: Outcome, ghost e: Event)
    modifies c`api, c`calls, c`status
    ensures c.spec == old(c.spec)
    ensures outcome == Proceed || outcome == Failed ==>
              var was := State(c.spec.servers, old(c.api.servers), old(c.status.serversSpec), dirty);
              && Enabled(was, e)
              && var now := Apply(was, e);
                 c.api.servers == now.api && c.status.serversSpec == now.hash
  {
    outcome := c.ReconcileChangedServers();
    e := if outcome == Proceed then Pass else FailedPass(c.api.servers);
  }
}

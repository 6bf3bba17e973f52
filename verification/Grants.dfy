/** The Grant controller: privileges of one account on one database and table, tracked by a list in the status. */
module Grants {
  import opened Prelude

  type Privilege = string

  function ToSet(s: seq<Privilege>): set<Privilege> {
    set p | p in s
  }

  datatype State = State(
    granted: set<Privilege>,     // what the database holds for the account
    status: seq<Privilege>,      // status.currentPrivileges; an absent list is empty
    spec: seq<Privilege>,        // spec.privileges
    pending: bool                // the last attempt granted without recording it
  )

  /** How far an attempt gets. */
  datatype Progress = Nothing | Revoked | Granted | Recorded

  datatype Event = Edit(privileges: seq<Privilege>) | Attempt(progress: Progress)

  function ToRevoke(s: State): set<Privilege> {
    ToSet(s.status) - ToSet(s.spec)
  }

  function Apply(s: State, e: Event): State {
    match e
    case Edit(privileges) => s.(spec := privileges)
    case Attempt(Nothing) => s
    case Attempt(Revoked) => s.(granted := s.granted - ToRevoke(s))
    case Attempt(Granted) => s.(granted := s.granted - ToRevoke(s) + ToSet(s.spec), pending := true)
    case Attempt(Recorded) => s.(granted := s.granted - ToRevoke(s) + ToSet(s.spec), status := s.spec, pending := false)
  }

  function Run(s: State, es: seq<Event>): State
    decreases |es|
  {
    if es == [] then s else Run(Apply(s, es[0]), es[1..])
  }

  // ---------------------------------------------------------------------------------------------
  // When a completed reconcile is exact
  // ---------------------------------------------------------------------------------------------

  /** A completed reconcile leaves exactly the listed privileges if and only if every privilege held beforehand was
      recorded or is listed. */
  lemma CompletedReconcileIsExactIff(s: State)
    ensures var t := Apply(s, Attempt(Recorded));
            t.status == s.spec && (t.granted == ToSet(s.spec) <==> s.granted <= ToSet(s.status) + ToSet(s.spec))
  {
    var t := Apply(s, Attempt(Recorded));
    if t.granted == ToSet(s.spec) {
      forall p | p in s.granted
        ensures p in ToSet(s.status) + ToSet(s.spec)
      {
        if p !in ToSet(s.status) {
          assert p in t.granted;
        }
      }
    }
  }

  /** The list changes only when every grant has been recorded. */
  ghost predicate Disciplined(s: State, es: seq<Event>)
    decreases |es|
  {
    es == [] || ((es[0].Edit? ==> !s.pending) && Disciplined(Apply(s, es[0]), es[1..]))
  }

  ghost predicate Tracked(s: State) {
    s.granted <= ToSet(s.status) + if s.pending then ToSet(s.spec) else {}
  }

  lemma {:induction false} RunStaysTracked(s: State, es: seq<Event>)
    requires Tracked(s) && Disciplined(s, es)
    ensures Tracked(Run(s, es))
    decreases |es|
  {
    if es != [] {
      RunStaysTracked(Apply(s, es[0]), es[1..]);
    }
  }

  /** From an empty database, over any lists, with repetitions and in any order, and any interruptions: if the list
      is never changed between a grant and its recording, each completed reconcile leaves exactly the listed
      privileges and records them. */
  lemma GrantsFollowTheList(s: State, es: seq<Event>)
    requires s.granted == {} && s.status == [] && !s.pending && Disciplined(s, es)
    ensures var t := Run(s, es + [Attempt(Recorded)]);
            t.granted == ToSet(t.spec) && t.status == t.spec && t.spec == Run(s, es).spec
  {
    RunStaysTracked(s, es);
    RunAppend(s, es, Attempt(Recorded));
    CompletedReconcileIsExactIff(Run(s, es));
  }

  lemma {:induction false} RunAppend(s: State, es: seq<Event>, e: Event)
    ensures Run(s, es + [e]) == Apply(Run(s, es), e)
    decreases |es|
  {
    if es == [] {
      assert Run(Apply(s, e), (es + [e])[1..]) == Apply(s, e);
    } else {
      RunAppend(Apply(s, es[0]), es[1..], e);
      assert (es + [e])[1..] == es[1..] + [e];
    }
  }

  /** What the discipline prevents: a privilege granted by an interrupted attempt and gone from the list before the
      grant was recorded stays granted, however often reconciling completes, until a list names it again. */
  lemma {:induction false} UnrecordedGrantStays(s: State, p: Privilege, es: seq<Event>)
    requires p in s.granted && p !in s.status && p !in s.spec
    requires forall e :: e in es && e.Edit? ==> p !in e.privileges
    ensures p in Run(s, es).granted && p !in Run(s, es).status
    decreases |es|
  {
    if es != [] {
      assert es[0] in es;
      forall e | e in es[1..] && e.Edit?
        ensures p !in e.privileges
      {
        assert e in es;
      }
      UnrecordedGrantStays(Apply(s, es[0]), p, es[1..]);
    }
  }

  /** And how such a state comes about, for any privilege and any list without it. */
  lemma InterruptedGrantLeaks(p: Privilege, next: seq<Privilege>)
    requires p !in next
    ensures var t := Run(State({}, [], [p], false), [Attempt(Granted), Edit(next), Attempt(Recorded)]);
            p in t.granted && t.status == next == t.spec
  {
    var s := State({}, [], [p], false);
    var es := [Attempt(Granted), Edit(next), Attempt(Recorded)];
    assert es[1..] == [Edit(next), Attempt(Recorded)] && es[1..][1..] == [Attempt(Recorded)] && es[1..][1..][1..] == [];
    var a := Apply(s, es[0]);
    var b := Apply(a, es[1]);
    assert Run(b, es[1..][1..]) == Apply(b, Attempt(Recorded));
    assert Run(a, es[1..]) == Run(b, es[1..][1..]);
  }

  // ---------------------------------------------------------------------------------------------
  // The reconciler
  // ---------------------------------------------------------------------------------------------

  class GrantReconciler {
    var granted: set<Privilege>
    var status: Option<seq<Privilege>>
    var spec: seq<Privilege>

    constructor (granted: set<Privilege>, status: Option<seq<Privilege>>, spec: seq<Privilege>)
      ensures this.granted == granted && this.status == status && this.spec == spec
    {
      this.granted, this.status, this.spec := granted, status, spec;
    }

    function Current(): seq<Privilege>
      reads this
    {
      if status.Some? then status.value else []
    }

    ghost function Abstract(pending: bool): State
      reads this
    {
      State(granted, Current(), spec, pending)
    }

    method PrivilegesToRevoke() returns (revoke: seq<Privilege>)
      ensures ToSet(revoke) == ToSet(Current()) - ToSet(spec)
      ensures |revoke| <= |Current()|
    {
      revoke := [];
      var current := Current();
      if current == spec {
        return;
      }
      for i := 0 to |current|
        invariant forall p :: p in revoke <==> p in current[..i] && p !in spec
        invariant |revoke| <= i
      {
        if current[i] !in spec {
          revoke := revoke + [current[i]];
        }
      }
      assert current[..|current|] == current;
    }

    /** One attempt; `calls` is how many of its three calls succeed before one fails. */
    method Reconcile(calls: nat, ghost pending: bool) returns (ok: bool, ghost e: Event)
      modifies this`granted, this`status
      ensures e.Attempt? && (ok <==> e.progress == Recorded)
      ensures calls >= 3 ==> ok
      ensures ok ==> status.Some? || spec == []
      ensures var t := Apply(old(Abstract(pending)), e);
              granted == t.granted && Current() == t.status
    {
      var left := calls;
      e := Attempt(Nothing);
      if status.Some? {
        var revoke := PrivilegesToRevoke();
        if |revoke| > 0 {
          if left == 0 {
            return false, e;
          }
          left := left - 1;
          granted := granted - ToSet(revoke);
        } else {
          assert ToRevoke(Abstract(pending)) == ToSet(revoke) == {};
        }
      }
      assert granted == old(granted) - ToRevoke(old(Abstract(pending)));
      if left == 0 {
        return false, Attempt(Revoked);
      }
      left := left - 1;
      granted := granted + ToSet(spec);
      if Current() != spec {
        if left == 0 {
          return false, Attempt(Granted);
        }
        status := Some(spec);
      }
      return true, Attempt(Recorded);
    }
  }
}

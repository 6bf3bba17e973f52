/** The physical backup scheduler: when a pass creates a backup object, and when it asks to be called again. */
module Scheduler {
  import opened Prelude

  /** A cron schedule, given by its Next function: the first tick strictly after a time. */
  ghost predicate IsCron(next: int -> int) {
    && (forall t :: next(t) > t)
    && (forall t, u :: t <= u ==> next(t) <= next(u))
    && (forall t, u :: t <= u < next(t) ==> next(u) == next(t))
  }

  ghost predicate IsTick(next: int -> int, x: int) {
    exists t :: next(t) == x
  }

  /** Some tick lies in (from, to]. */
  ghost predicate TickBetween(next: int -> int, from: int, to: int) {
    exists x :: IsTick(next, x) && from < x <= to
  }

  /** How the callback that creates the object ends. Jobs are created after the status is recorded,
      VolumeSnapshots before it, so an interruption between the two writes differs. */
  datatype Callback =
    | Completed          // object created and LastScheduleCheckTime recorded
    | NothingDone        // no target Pod, or an error before the first write
    | RecordedOnly       // the Job path, interrupted between its two writes
    | CreatedOnly        // the VolumeSnapshot path, interrupted or timed out between its two writes

  datatype Pass = Pass(now: int, suspended: bool, immediate: bool, callback: Callback)

  datatype Decision = Idle | RecordAndWait(delay: int) | WaitFor(delay: int) | Call

  /** What the scheduled branch decides from the recorded time. */
  function Decide(lastCheck: Option<int>, p: Pass, next: int -> int): Decision {
    if p.suspended then Idle
    else if lastCheck.None? then (if p.immediate then Call else RecordAndWait(next(p.now) - p.now))
    else if p.now < next(lastCheck.value) then WaitFor(next(lastCheck.value) - p.now)
    else Call
  }

  const SECOND := 1_000_000_000

  /** The second that the name of an object created at `now` is formatted from (times are in nanoseconds). */
  function SecondOf(now: int): int {
    now / SECOND
  }

  predicate Creates(c: Callback) {
    c.Completed? || c.CreatedOnly?
  }

  predicate Records(c: Callback) {
    c.Completed? || c.RecordedOnly?
  }

  /** What the passes leave behind: the recorded time, and the seconds that name the objects created so far. */
  datatype Track = Track(check: Option<int>, objects: set<int>)

  /** A pass fires when it creates an object; one whose name exists already is found instead. */
  predicate Fires(t: Track, p: Pass, next: int -> int) {
    Decide(t.check, p, next).Call? && Creates(p.callback) && SecondOf(p.now) !in t.objects
  }

  function After(t: Track, p: Pass, next: int -> int): Track {
    match Decide(t.check, p, next)
    case RecordAndWait(_) => t.(check := Some(p.now))
    case Call =>
      Track(if Records(p.callback) then Some(p.now) else t.check,
            if Creates(p.callback) then t.objects + {SecondOf(p.now)} else t.objects)
    case _ => t
  }

  class PhysicalBackup {
    var lastScheduleCheckTime: Option<int>
    var lastScheduleTime: Option<int>
    var nextScheduleTime: Option<int>
    /** The Jobs or VolumeSnapshots of this backup, by the second in their names. */
    var objects: set<int>

    constructor ()
      ensures lastScheduleCheckTime == None && objects == {}
    {
      lastScheduleCheckTime, lastScheduleTime, nextScheduleTime, objects := None, None, None, {};
    }

    function Tracked(): Track
      reads this
    {
      Track(lastScheduleCheckTime, objects)
    }

    /** reconcileTemplateScheduled, with the callback's effects. `created` tells whether an object was created. */
    method ReconcileScheduled(p: Pass, next: int -> int) returns (requeueAfter: Option<int>, created: bool)
      modifies this
      ensures Tracked() == After(old(Tracked()), p, next)
      ensures created <==> Fires(old(Tracked()), p, next)
      ensures match Decide(old(lastScheduleCheckTime), p, next)
              case RecordAndWait(d) => requeueAfter == Some(d) && nextScheduleTime == Some(p.now + d)
              case WaitFor(d) => requeueAfter == Some(d) && nextScheduleTime == old(nextScheduleTime)
              case _ => requeueAfter == None
      ensures lastScheduleCheckTime != old(lastScheduleCheckTime) ==> nextScheduleTime == Some(next(p.now))
      // suspended: nothing at all
      ensures p.suspended ==> !created && requeueAfter == None && unchanged(this)
      // never checked, not immediate: only the check is recorded
      ensures !p.suspended && old(lastScheduleCheckTime).None? && !p.immediate ==>
                && !created && requeueAfter == Some(next(p.now) - p.now)
                && lastScheduleCheckTime == Some(p.now) && nextScheduleTime == Some(next(p.now))
                && unchanged(this`lastScheduleTime, this`objects)
      // before the next tick: nothing but a requeue
      ensures !p.suspended && old(lastScheduleCheckTime).Some? && p.now < next(old(lastScheduleCheckTime).value) ==>
                !created && requeueAfter == Some(next(old(lastScheduleCheckTime).value) - p.now) && unchanged(this)
      // never checked and immediate, or at or after the next tick: the callback runs
      ensures !p.suspended && (if old(lastScheduleCheckTime).None? then p.immediate else p.now >= next(old(lastScheduleCheckTime).value)) ==>
                && requeueAfter == None
                && (created <==> (p.callback.Completed? || p.callback.CreatedOnly?) && SecondOf(p.now) !in old(objects))
                && lastScheduleCheckTime == (if p.callback.Completed? || p.callback.RecordedOnly? then Some(p.now) else old(lastScheduleCheckTime))
                && lastScheduleTime == (if p.callback.Completed? || p.callback.RecordedOnly? then Some(p.now) else old(lastScheduleTime))
      ensures objects == if created then old(objects) + {SecondOf(p.now)} else old(objects)
    {
      created := false;
      if p.suspended {
        return None, created;
      }
      if p.immediate && lastScheduleCheckTime.None? {
        created := RunCallback(p, next);
        return None, created;
      }
      if lastScheduleCheckTime.None? {
        var nextTime := next(p.now);
        lastScheduleCheckTime, nextScheduleTime := Some(p.now), Some(nextTime);
        return Some(nextTime - p.now), created;
      }
      var nextTime := next(lastScheduleCheckTime.value);
      if p.now < nextTime {
        return Some(nextTime - p.now), created;
      }
      created := RunCallback(p, next);
      return None, created;
    }

    /** createJob and scheduleSnapshot. An object whose name is taken is not created a second time: the snapshot path
        looks it up first, and the create of the Job path would be refused. */
    method RunCallback(p: Pass, next: int -> int) returns (created: bool)
      modifies this
      ensures created <==> (p.callback.Completed? || p.callback.CreatedOnly?) && SecondOf(p.now) !in old(objects)
      ensures objects == if created then old(objects) + {SecondOf(p.now)} else old(objects)
      ensures if p.callback.Completed? || p.callback.RecordedOnly?
              then lastScheduleCheckTime == Some(p.now) && lastScheduleTime == Some(p.now) && nextScheduleTime == Some(next(p.now))
              else unchanged(this`lastScheduleCheckTime, this`lastScheduleTime, this`nextScheduleTime)
    {
      created := Creates(p.callback) && SecondOf(p.now) !in objects;
      if created {
        objects := objects + {SecondOf(p.now)};
      }
      if Records(p.callback) {
        lastScheduleCheckTime, lastScheduleTime, nextScheduleTime := Some(p.now), Some(p.now), Some(next(p.now));
      }
    }
  }

  // ---------------------------------------------------------------------------------------------
  // Runs
  // ---------------------------------------------------------------------------------------------

  /** What is left behind before pass `n` of a run that starts with nothing. */
  function TrackAt(ps: seq<Pass>, n: nat, next: int -> int): Track
    requires n <= |ps|
  {
    if n == 0 then Track(None, {}) else After(TrackAt(ps, n - 1, next), ps[n - 1], next)
  }

  function CheckAt(ps: seq<Pass>, n: nat, next: int -> int): Option<int>
    requires n <= |ps|
  {
    TrackAt(ps, n, next).check
  }

  ghost predicate TimesNondecreasing(ps: seq<Pass>) {
    forall i, j :: 0 <= i <= j < |ps| ==> ps[i].now <= ps[j].now
  }

  predicate FiresAt(ps: seq<Pass>, i: nat, next: int -> int)
    requires i < |ps|
  {
    Fires(TrackAt(ps, i, next), ps[i], next)
  }

  /** A suspended pass neither fires nor leaves anything behind, anywhere in a run. */
  lemma SuspendedPassesDoNothing(ps: seq<Pass>, i: nat, next: int -> int)
    requires i < |ps| && ps[i].suspended
    ensures !FiresAt(ps, i, next) && TrackAt(ps, i + 1, next) == TrackAt(ps, i, next)
  {
  }

  /** The first pass that is not suspended: with `immediate` it calls, without it only the check is recorded. */
  lemma FirstCheck(ps: seq<Pass>, i: nat, next: int -> int)
    requires i < |ps| && !ps[i].suspended && forall j :: 0 <= j < i ==> ps[j].suspended
    ensures if ps[i].immediate then FiresAt(ps, i, next) <==> ps[i].callback.Completed? || ps[i].callback.CreatedOnly?
            else !FiresAt(ps, i, next) && CheckAt(ps, i + 1, next) == Some(ps[i].now)
  {
    NothingBehind(ps, i, next);
  }

  lemma {:induction false} NothingBehind(ps: seq<Pass>, n: nat, next: int -> int)
    requires n <= |ps| && forall j :: 0 <= j < n ==> ps[j].suspended
    ensures TrackAt(ps, n, next) == Track(None, {})
  {
    if n > 0 {
      NothingBehind(ps, n - 1, next);
      SuspendedPassesDoNothing(ps, n - 1, next);
    }
  }

  /** The recorded time never moves back and is never ahead of the clock. */
  lemma {:induction false} CheckNondecreasing(ps: seq<Pass>, i: nat, j: nat, next: int -> int)
    requires TimesNondecreasing(ps) && i <= j <= |ps|
    ensures CheckAt(ps, i, next).Some? ==>
              CheckAt(ps, j, next).Some? && CheckAt(ps, i, next).value <= CheckAt(ps, j, next).value
    ensures CheckAt(ps, j, next).Some? ==> j > 0 && CheckAt(ps, j, next).value <= ps[j - 1].now
    decreases j
  {
    if j > 0 {
      CheckNondecreasing(ps, if i < j then i else j - 1, j - 1, next);
    }
  }

  /** No object is named after a second that has not begun. */
  lemma {:induction false} ObjectsAreInThePast(ps: seq<Pass>, n: nat, now: int, next: int -> int)
    requires n <= |ps| && forall i :: 0 <= i < n ==> ps[i].now <= now
    ensures forall x :: x in TrackAt(ps, n, next).objects ==> x <= SecondOf(now)
  {
    if n > 0 {
      ObjectsAreInThePast(ps, n - 1, now, next);
      SecondMonotone(ps[n - 1].now, now);
    }
  }

  /** A pass with a recorded time calls back exactly when a tick has passed since that time: ticks missed in
      between count once, and the first unsuspended pass at or after a tick is the one that calls. */
  lemma CallsExactlyAfterATick(check: int, p: Pass, next: int -> int)
    requires IsCron(next) && !p.suspended
    ensures Decide(Some(check), p, next).Call? <==> TickBetween(next, check, p.now)
  {
    if p.now >= next(check) {
      assert IsTick(next, next(check));
    }
    if x :| IsTick(next, x) && check < x <= p.now {
      var t :| next(t) == x;
      if t < check {
        assert next(check) == next(t);
      }
    }
  }

  /** Any two firings of a run have a tick between them, unless the earlier one was not recorded. */
  lemma TickBetweenFirings(ps: seq<Pass>, i: nat, j: nat, next: int -> int)
    requires IsCron(next) && TimesNondecreasing(ps)
    requires i < j < |ps| && FiresAt(ps, i, next) && FiresAt(ps, j, next)
    requires !ps[i].callback.CreatedOnly?
    ensures TickBetween(next, ps[i].now, ps[j].now)
  {
    RecordedAfterFiring(ps, i, j, next);
    var c := CheckAt(ps, j, next).value;
    CallsExactlyAfterATick(c, ps[j], next);
    TickBetweenWidens(next, ps[i].now, c, ps[j].now);
  }

  lemma RecordedAfterFiring(ps: seq<Pass>, i: nat, j: nat, next: int -> int)
    requires TimesNondecreasing(ps) && i < j < |ps| && FiresAt(ps, i, next) && !ps[i].callback.CreatedOnly?
    ensures CheckAt(ps, j, next).Some? && ps[i].now <= CheckAt(ps, j, next).value
  {
    assert CheckAt(ps, i + 1, next) == Some(ps[i].now);
    CheckNondecreasing(ps, i + 1, j, next);
  }

  lemma TickBetweenWidens(next: int -> int, earlier: int, from: int, to: int)
    requires earlier <= from && TickBetween(next, from, to)
    ensures TickBetween(next, earlier, to)
  {
    var x :| IsTick(next, x) && from < x <= to;
  }

  lemma {:induction false} TrackOfPrefix(ps: seq<Pass>, p: Pass, n: nat, next: int -> int)
    requires n <= |ps|
    ensures TrackAt(ps + [p], n, next) == TrackAt(ps, n, next)
  {
    if n > 0 {
      TrackOfPrefix(ps, p, n - 1, next);
    }
  }

  /** The exact condition, for the pass after a firing: under an unchanged schedule it creates another object if and
      only if it is in a later second and there was a tick in between, or the firing was not recorded. */
  lemma NextPassFiresIff(ps: seq<Pass>, p: Pass, next: int -> int)
    requires IsCron(next) && ps != [] && TimesNondecreasing(ps + [p]) && FiresAt(ps, |ps| - 1, next)
    requires !p.suspended && Creates(p.callback) && p.immediate == ps[|ps| - 1].immediate
    ensures var n := |ps|;
            FiresAt(ps + [p], n, next) <==>
              && SecondOf(ps[n - 1].now) != SecondOf(p.now)
              && (ps[n - 1].callback.CreatedOnly? || TickBetween(next, ps[n - 1].now, p.now))
  {
    var n := |ps|;
    var last := ps[n - 1];
    var before := TrackAt(ps, n - 1, next);
    PrefixNondecreasing(ps, p);
    ObjectsAreInThePast(ps, n - 1, last.now, next);
    NextFiringIff(before, last, p, next);
    TrackOfPrefix(ps, p, n, next);
    assert TrackAt(ps, n, next) == After(before, last, next);
    assert (ps + [p])[n] == p;
  }

  lemma NextFiringIff(before: Track, last: Pass, p: Pass, next: int -> int)
    requires IsCron(next) && Fires(before, last, next) && last.now <= p.now
    requires forall x :: x in before.objects ==> x <= SecondOf(last.now)
    requires !p.suspended && Creates(p.callback) && p.immediate == last.immediate
    ensures Fires(After(before, last, next), p, next) <==>
              && SecondOf(last.now) != SecondOf(p.now)
              && (last.callback.CreatedOnly? || TickBetween(next, last.now, p.now))
  {
    ObjectAfterFiring(before, last, p.now, next);
    if last.callback.CreatedOnly? {
      CallsAgain(before.check, last, p, next);
    } else {
      CallsExactlyAfterATick(last.now, p, next);
    }
  }

  /** After a firing the name of a later pass is taken exactly if it is in the same second. */
  lemma ObjectAfterFiring(t: Track, last: Pass, now: int, next: int -> int)
    requires Fires(t, last, next) && last.now <= now && forall x :: x in t.objects ==> x <= SecondOf(last.now)
    ensures SecondOf(now) in After(t, last, next).objects <==> SecondOf(last.now) == SecondOf(now)
  {
    SecondMonotone(last.now, now);
    FiringAddsItsSecond(t, last, next);
    TakenIff(t.objects, SecondOf(last.now), SecondOf(now));
  }

  lemma FiringAddsItsSecond(t: Track, p: Pass, next: int -> int)
    requires Fires(t, p, next)
    ensures After(t, p, next).objects == t.objects + {SecondOf(p.now)}
  {
  }

  lemma TakenIff(objects: set<int>, last: int, now: int)
    requires (forall x :: x in objects ==> x <= last) && last <= now
    ensures now in objects + {last} <==> last == now
  {
  }

  lemma SecondMonotone(a: int, b: int)
    requires a <= b
    ensures SecondOf(a) <= SecondOf(b)
  {
  }

  lemma PrefixNondecreasing(ps: seq<Pass>, p: Pass)
    requires TimesNondecreasing(ps + [p])
    ensures TimesNondecreasing(ps) && (ps != [] ==> ps[|ps| - 1].now <= p.now)
  {
    var all := ps + [p];
    forall i, j | 0 <= i <= j < |ps|
      ensures ps[i].now <= ps[j].now
    {
      assert all[i] == ps[i] && all[j] == ps[j];
    }
    if ps != [] {
      assert all[|ps| - 1] == ps[|ps| - 1] && all[|ps|] == p;
    }
  }

  /** A pass that called without recording is followed by another call. */
  lemma CallsAgain(check: Option<int>, last: Pass, p: Pass, next: int -> int)
    requires Decide(check, last, next).Call? && last.now <= p.now && !p.suspended && p.immediate == last.immediate
    ensures Decide(check, p, next).Call?
  {
  }

  lemma NoTickBeforeNext(next: int -> int, from: int, to: int)
    requires IsCron(next) && from <= to < next(from)
    ensures !TickBetween(next, from, to)
  {
    CallsExactlyAfterATick(from, Pass(to, false, true, Completed), next);
  }

  /** So a snapshot that was created but not recorded is followed by another one without any tick in between, by every
      pass that comes in a later second and before the next tick. */
  lemma UnrecordedFiringRepeats(ps: seq<Pass>, p: Pass, next: int -> int)
    requires IsCron(next) && ps != [] && TimesNondecreasing(ps + [p]) && FiresAt(ps, |ps| - 1, next)
    requires ps[|ps| - 1].callback.CreatedOnly?
    requires !p.suspended && Creates(p.callback) && p.immediate == ps[|ps| - 1].immediate
    requires SecondOf(ps[|ps| - 1].now) != SecondOf(p.now) && p.now < next(ps[|ps| - 1].now)
    ensures FiresAt(ps + [p], |ps|, next) && !TickBetween(next, ps[|ps| - 1].now, p.now)
  {
    NextPassFiresIff(ps, p, next);
    assert (ps + [p])[|ps| - 1].now <= (ps + [p])[|ps|].now;
    NoTickBeforeNext(next, ps[|ps| - 1].now, p.now);
  }

  /** Every delay returned by a waiting branch is positive and ends exactly at the first tick after now. */
  lemma RequeueEndsAtNextTick(ps: seq<Pass>, i: nat, next: int -> int)
    requires IsCron(next) && TimesNondecreasing(ps) && i < |ps|
    ensures match Decide(CheckAt(ps, i, next), ps[i], next)
            case RecordAndWait(d) => d > 0 && ps[i].now + d == next(ps[i].now)
            case WaitFor(d) => d > 0 && ps[i].now + d == next(ps[i].now)
            case _ => true
  {
    CheckNondecreasing(ps, i, i, next);
    var check := CheckAt(ps, i, next);
    if check.Some? {
      assert check.value <= ps[i].now;
    }
  }
}

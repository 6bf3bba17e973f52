/** Ordering backup objects by the time in their names. */
module BackupObjects {
  import opened Prelude
  import opened Names

  /** A number that orders valid UTC times as time.Time.After does. */
  function Instant(t: Time): nat {
    (((((t.year * 13 + t.month) * 32 + t.day) * 24 + t.hour) * 60 + t.minute) * 60 + t.second) * 1_000_000_000 + t.nanos
  }

  predicate Earlier(t: Time, u: Time) {
    if t.year != u.year then t.year < u.year
    else if t.month != u.month then t.month < u.month
    else if t.day != u.day then t.day < u.day
    else if t.hour != u.hour then t.hour < u.hour
    else if t.minute != u.minute then t.minute < u.minute
    else if t.second != u.second then t.second < u.second
    else t.nanos < u.nanos
  }

  lemma InstantOrdersTimes(t: Time, u: Time)
    requires ValidTime(t) && ValidTime(u)
    ensures Earlier(t, u) <==> Instant(t) < Instant(u)
  {
    var dt, du := (t.year * 13 + t.month) * 32 + t.day, (u.year * 13 + u.month) * 32 + u.day;
    var mt, mu := (dt * 24 + t.hour) * 60 + t.minute, (du * 24 + u.hour) * 60 + u.minute;
    assert dt < du <==> (t.year < u.year || (t.year == u.year && (t.month < u.month || (t.month == u.month && t.day < u.day))));
    assert mt < mu <==> (dt < du || (dt == du && (t.hour < u.hour || (t.hour == u.hour && t.minute < u.minute))));
    assert dt == du <==> t.year == u.year && t.month == u.month && t.day == u.day;
  }

  // ---------------------------------------------------------------------------------------------
  // Sorting with a comparison that can fail
  // ---------------------------------------------------------------------------------------------

  /** Newest first; only objects whose time parses can be in order. */
  predicate InOrder<T>(a: T, b: T, time: T -> Option<nat>) {
    time(a).Some? && time(b).Some? && time(b).value <= time(a).value
  }

  ghost predicate NewestFirst<T>(s: seq<T>, time: T -> Option<nat>) {
    forall i, j :: 0 <= i < j < |s| ==> InOrder(s[i], s[j], time)
  }

  ghost predicate SameObjects<T>(s: seq<T>, t: seq<T>) {
    multiset(s) == multiset(t)
  }

  lemma SameObjectsMember<T>(s: seq<T>, t: seq<T>, x: T)
    requires SameObjects(s, t) && x in s
    ensures x in t
  {
    assert x in multiset(s);
  }

  lemma SameObjectsTrans<T>(s: seq<T>, t: seq<T>, u: seq<T>)
    requires SameObjects(s, t) && SameObjects(t, u)
    ensures SameObjects(s, u)
  {
  }

  method Swap<T>(objects: array<T>, i: nat, j: nat)
    requires i < objects.Length && j < objects.Length
    modifies objects
    ensures objects[..] == old(objects[..])[i := old(objects[j])][j := old(objects[i])]
    ensures SameObjects(objects[..], old(objects[..]))
  {
    objects[i], objects[j] := objects[j], objects[i];
  }

  /** The comparison closure: it records the first name that does not parse and answers false. */
  method Less<T>(a: T, b: T, time: T -> Option<nat>) returns (less: bool, parseErr: bool)
    ensures parseErr == (time(a).None? || time(b).None?)
    ensures less <==> !parseErr && time(a).value > time(b).value
  {
    if time(a).None? {
      return false, true;
    }
    if time(b).None? {
      return false, true;
    }
    return time(a).value > time(b).value, false;
  }

  /** s[..i] was in order before the object now at `j` started to move left from `i`. */
  ghost predicate Inserting<T>(s: seq<T>, i: nat, j: nat, time: T -> Option<nat>) {
    && j <= i < |s|
    && (forall k :: 0 <= k <= i ==> time(s[k]).Some?)
    && (forall a, b :: 0 <= a < b <= i && a != j && b != j ==> time(s[b]).value <= time(s[a]).value)
    && (forall k :: j < k <= i ==> time(s[k]).value <= time(s[j]).value)
  }

  lemma InsertingStep<T>(s: seq<T>, i: nat, j: nat, time: T -> Option<nat>)
    requires Inserting(s, i, j, time) && j >= 1 && time(s[j]).value > time(s[j - 1]).value
    ensures Inserting(s[j := s[j - 1]][j - 1 := s[j]], i, j - 1, time)
  {
  }

  lemma InsertingDone<T>(s: seq<T>, i: nat, j: nat, time: T -> Option<nat>)
    requires Inserting(s, i, j, time) && (j == 0 || time(s[j]).value <= time(s[j - 1]).value)
    ensures Inserted(s, i, time)
  {
    forall a, b | 0 <= a < b < i + 1
      ensures InOrder(s[a], s[b], time)
    {
      if b == j && a < j - 1 {
        assert time(s[j - 1]).value <= time(s[a]).value;
      }
    }
  }

  /** The object at `i` moves left while the closure says that it is newer than its neighbour. */
  method MoveLeft<T>(objects: array<T>, i: nat, time: T -> Option<nat>)
    requires Inserting(objects[..], i, i, time)
    modifies objects
    ensures SameObjects(objects[..], old(objects[..]))
    ensures Inserted(objects[..], i, time)
  {
    var j := i;
    ghost var was := objects[..];
    while j > 0
      invariant 0 <= j <= i
      invariant SameObjects(objects[..], was)
      invariant Inserting(objects[..], i, j, time)
    {
      var less, _ := Less(objects[j], objects[j - 1], time);
      if !less {
        break;
      }
      ghost var before := objects[..];
      InsertingStep(before, i, j, time);
      Swap(objects, j, j - 1);
      SameObjectsTrans(objects[..], before, was);
      j := j - 1;
    }
    InsertingDone(objects[..], i, j, time);
  }

  ghost predicate Inserted<T>(s: seq<T>, i: nat, time: T -> Option<nat>) {
    && i < |s|
    && (forall k :: 0 <= k <= i ==> time(s[k]).Some?)
    && NewestFirst(s[..i + 1], time)
  }

  /** One insertion: the object at `i` moves left while the closure says that it is newer than its neighbour. */
  method Insert<T>(objects: array<T>, i: nat, time: T -> Option<nat>) returns (parseErr: bool)
    requires 1 <= i < objects.Length
    requires i >= 2 ==> Inserted(objects[..], i - 1, time)
    modifies objects
    ensures SameObjects(objects[..], old(objects[..]))
    ensures parseErr <==> time(old(objects[i])).None? || time(old(objects[i - 1])).None?
    ensures parseErr ==> objects[..] == old(objects[..])
    ensures !parseErr ==> Inserted(objects[..], i, time)
  {
    var less: bool;
    less, parseErr := Less(objects[i], objects[i - 1], time);
    if parseErr {
      // From here on the closure answers false, so nothing moves any more.
      return;
    }
    assert Inserting(objects[..], i, i, time) by {
      assert forall a :: 0 <= a < i ==> objects[..i][a] == objects[a];
    }
    if less {
      MoveLeft(objects, i, time);
    } else {
      InsertingDone(objects[..], i, i, time);
    }
  }

  /** sortByObjectTime. With up to twelve objects sort.Slice is this insertion sort; what the contract states
      does not depend on the algorithm. */
  method SortByTime<T>(objects: array<T>, time: T -> Option<nat>) returns (parseErr: bool)
    modifies objects
    ensures SameObjects(objects[..], old(objects[..]))
    ensures parseErr <==> objects.Length >= 2 && exists x :: x in old(objects[..]) && time(x).None?
    ensures !parseErr ==> objects.Length <= 1 || NewestFirst(objects[..], time)
  {
    parseErr := false;
    var i := 1;
    while i < objects.Length && !parseErr
      invariant 1 <= i && (i <= objects.Length || objects.Length == 0)
      invariant SameObjects(objects[..], old(objects[..]))
      invariant !parseErr && 2 <= i <= objects.Length ==> Inserted(objects[..], i - 1, time)
      invariant parseErr ==> objects.Length >= 2 && exists k :: 0 <= k < objects.Length && time(objects[k]).None?
    {
      parseErr := Insert(objects, i, time);
      i := i + 1;
    }
    ghost var was, sorted := old(objects[..]), objects[..];
    if parseErr {
      var k :| 0 <= k < objects.Length && time(objects[k]).None?;
      SameObjectsMember(sorted, was, sorted[k]);
    } else if objects.Length >= 2 {
      assert objects[..i] == sorted;
      forall x | x in was
        ensures time(x).Some?
      {
        SameObjectsMember(was, sorted, x);
      }
    }
  }

  /** The time of an object, read from its name. */
  function ObjectInstant(name: string): Option<nat> {
    var t := ParsePhysicalBackupTime(name);
    if t.None? then None else Some(Instant(t.value))
  }

  method SortByObjectTime(objects: array<string>) returns (parseErr: bool)
    modifies objects
    ensures SameObjects(objects[..], old(objects[..]))
    ensures parseErr <==> objects.Length >= 2 && exists x :: x in old(objects[..]) && ParsePhysicalBackupTime(x).None?
    ensures !parseErr && objects.Length >= 2 ==> NewestFirst(objects[..], ObjectInstant)
    ensures !parseErr ==>
              forall i, j :: 0 <= i < j < objects.Length ==> NotEarlier(objects[i], objects[j])
  {
    parseErr := SortByTime(objects, ObjectInstant);
    ghost var was := old(objects[..]);
    assert forall x :: ObjectInstant(x).None? <==> ParsePhysicalBackupTime(x).None?;
    if !parseErr {
      forall i, j | 0 <= i < j < objects.Length
        ensures NotEarlier(objects[i], objects[j])
      {
        assert InOrder(objects[..][i], objects[..][j], ObjectInstant);
        InOrderMeaning(objects[i], objects[j]);
      }
    }
  }

  /** Both names carry a time, and the first one's is not before the second one's. */
  predicate NotEarlier(a: string, b: string) {
    var t, u := ParsePhysicalBackupTime(a), ParsePhysicalBackupTime(b);
    t.Some? && u.Some? && !Earlier(t.value, u.value)
  }

  lemma InOrderMeaning(a: string, b: string)
    requires InOrder(a, b, ObjectInstant)
    ensures NotEarlier(a, b)
  {
    ParsedTimeIsValid(a);
    ParsedTimeIsValid(b);
    InstantOrdersTimes(ParsePhysicalBackupTime(a).value, ParsePhysicalBackupTime(b).value);
  }

  lemma ParsedTimeIsValid(name: string)
    requires ParsePhysicalBackupTime(name).Some?
    ensures ValidTime(ParsePhysicalBackupTime(name).value)
  {
    ParsedFractionIsBelowASecond(LastPart(name)[14..]);
  }

  lemma ParsedFractionIsBelowASecond(s: string)
    requires ParseFraction(s).Some?
    ensures ParseFraction(s).value < 1_000_000_000
  {
    if s != "" {
      var digits := if |s| > 10 then s[1..10] else s[1..];
      assert AllDigits(s[1..]) && (|s| > 10 ==> digits == s[1..][..9]);
      ValueBelow(digits);
      PowProduct(|digits|, 9 - |digits|);
      PowNine();
      assert Value(digits) * Pow10(9 - |digits|) < Pow10(|digits|) * Pow10(9 - |digits|) by {
        Pow10Positive(9 - |digits|);
      }
    }
  }

  lemma {:induction false} PowProduct(a: nat, b: nat)
    ensures Pow10(a) * Pow10(b) == Pow10(a + b)
  {
    if a > 0 {
      PowProduct(a - 1, b);
      assert Pow10(a) * Pow10(b) == 10 * (Pow10(a - 1) * Pow10(b));
    }
  }

  lemma PowNine()
    ensures Pow10(9) == 1_000_000_000
  {
    assert Pow10(3) == 1_000;
    PowProduct(3, 3);
    PowProduct(6, 3);
  }
}

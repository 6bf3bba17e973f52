/** Convergence of the MaxScale REST API on the spec: keyed diffs applied call by call, where any call may fail. */
module MaxScaleSync {
  import opened Prelude

  // ---------------------------------------------------------------------------------------------
  // Keyed collections
  // ---------------------------------------------------------------------------------------------

  /** NewIndex: later items replace earlier ones with the same key. */
  function IndexOf<T>(items: seq<T>, id: T -> string): map<string, T> {
    if items == [] then map[]
    else
      var last := items[|items| - 1];
      IndexOf(items[..|items| - 1], id)[id(last) := last]
  }

  method NewIndex<T>(items: seq<T>, id: T -> string) returns (index: map<string, T>)
    ensures index == IndexOf(items, id)
  {
    index := map[];
    for i := 0 to |items|
      invariant index == IndexOf(items[..i], id)
    {
      assert items[..i + 1][..i] == items[..i];
      index := index[id(items[i]) := items[i]];
    }
    assert items[..|items|] == items;
  }

  /** Under each key is the last item that has it, and nothing else is in the index. */
  lemma {:induction false} IndexHoldsLast<T>(items: seq<T>, id: T -> string, key: string)
    ensures key in IndexOf(items, id) <==> exists i :: 0 <= i < |items| && id(items[i]) == key
    ensures key in IndexOf(items, id) ==>
              exists i :: && 0 <= i < |items| && IndexOf(items, id)[key] == items[i] && id(items[i]) == key
                          && forall j :: i < j < |items| ==> id(items[j]) != key
  {
    if items != [] {
      var n := |items| - 1;
      IndexHoldsLast(items[..n], id, key);
      if id(items[n]) == key {
        assert IndexOf(items, id)[key] == items[n];
      } else if key in IndexOf(items[..n], id) {
        var i :| && 0 <= i < n && IndexOf(items[..n], id)[key] == items[..n][i] && id(items[..n][i]) == key
                 && forall j :: i < j < n ==> id(items[..n][j]) != key;
        assert items[i] == items[..n][i];
        forall j | i < j < |items|
          ensures id(items[j]) != key
        {
          if j < n {
            assert items[..n][j] == items[j];
          }
        }
      } else {
        forall i | 0 <= i < |items|
          ensures id(items[i]) != key
        {
          if i < n {
            assert items[..n][i] == items[i];
          }
        }
      }
    }
  }

  ghost predicate UniqueKeys<T>(items: seq<T>, id: T -> string) {
    forall i, j :: 0 <= i < j < |items| ==> id(items[i]) != id(items[j])
  }

  lemma IndexOfUnique<T>(items: seq<T>, id: T -> string, i: nat)
    requires UniqueKeys(items, id) && i < |items|
    ensures id(items[i]) in IndexOf(items, id) && IndexOf(items, id)[id(items[i])] == items[i]
  {
    IndexHoldsLast(items, id, id(items[i]));
  }

  /** Diff, up to the order of its three lists. */
  method Diff(current: set<string>, previous: set<string>) returns (added: set<string>, deleted: set<string>, rest: set<string>)
    ensures added == current - previous && deleted == previous - current && rest == current * previous
  {
    added, deleted, rest := {}, {}, {};
    var todo := current;
    while todo != {}
      invariant todo <= current
      invariant added == (current - todo) - previous && rest == (current - todo) * previous
      decreases todo
    {
      var k :| k in todo;
      if k in previous {
        rest := rest + {k};
      } else {
        added := added + {k};
      }
      todo := todo - {k};
    }
    todo := previous;
    while todo != {}
      invariant todo <= previous
      invariant added == current - previous && rest == current * previous
      invariant deleted == (previous - todo) - current
      decreases todo
    {
      var k :| k in todo;
      if k in current {
        rest := rest + {k};
      } else {
        deleted := deleted + {k};
      }
      todo := todo - {k};
    }
  }

  // ---------------------------------------------------------------------------------------------
  // Applying a diff
  // ---------------------------------------------------------------------------------------------

  /** How far an apply that did not finish can have got: nothing that is wanted is lost, nothing that is unwanted is
      changed, and what differs from before is as wanted. */
  ghost predicate Between<V>(before: map<string, V>, after: map<string, V>, desired: map<string, V>) {
    && (forall k :: k in before && k in desired ==> k in after)
    && (forall k :: k in after ==> (k in before && after[k] == before[k]) || (k in desired && after[k] == desired[k]))
  }

  /** The keys that are done are as wanted, the others as before. */
  ghost predicate Progress<V>(before: map<string, V>, after: map<string, V>, desired: map<string, V>, done: set<string>) {
    forall k ::
      if k in done then (k in after <==> k in desired) && (k in after ==> after[k] == desired[k])
      else (k in after <==> k in before) && (k in after ==> after[k] == before[k])
  }

  lemma ProgressPut<V>(before: map<string, V>, after: map<string, V>, desired: map<string, V>, done: set<string>, key: string)
    requires Progress(before, after, desired, done) && key in desired
    ensures Progress(before, after[key := desired[key]], desired, done + {key})
  {
  }

  lemma ProgressTrans<V>(a: map<string, V>, b: map<string, V>, c: map<string, V>, desired: map<string, V>,
                         first: set<string>, second: set<string>)
    requires Progress(a, b, desired, first) && Progress(b, c, desired, second) && first !! second
    ensures Progress(a, c, desired, first + second)
  {
  }

  lemma ProgressIsBetween<V>(before: map<string, V>, after: map<string, V>, desired: map<string, V>, done: set<string>)
    requires Progress(before, after, desired, done)
    ensures Between(before, after, desired)
    ensures done == desired.Keys + before.Keys ==> after == desired
  {
    if done == desired.Keys + before.Keys {
      assert after.Keys == desired.Keys;
    }
  }

  /** A loop that creates or patches, one call per key. `calls` is how many API calls succeed before one fails, and
      `left` how many are still to come. */
  method PutAll<V>(before: map<string, V>, desired: map<string, V>, keys: set<string>, calls: nat)
    returns (ok: bool, after: map<string, V>, left: nat, ghost done: set<string>)
    requires keys <= desired.Keys
    ensures Progress(before, after, desired, done) && done <= keys
    ensures ok <==> done == keys
    ensures ok <==> |keys| <= calls
    ensures left == if ok then calls - |keys| else 0
  {
    var todo := keys;
    after, left, done := before, calls, {};
    while todo != {} && left > 0
      invariant todo <= keys && done == keys - todo
      invariant Progress(before, after, desired, done)
      invariant |keys| - |todo| == calls - left
      decreases todo
    {
      var k :| k in todo;
      ProgressPut(before, after, desired, done, k);
      after, left := after[k := desired[k]], left - 1;
      todo, done := todo - {k}, done + {k};
    }
    ok := todo == {};
  }

  /** A loop that deletes, one call per key. */
  method RemoveAll<V>(before: map<string, V>, desired: map<string, V>, keys: set<string>, calls: nat)
    returns (ok: bool, after: map<string, V>, left: nat, ghost done: set<string>)
    requires keys !! desired.Keys
    ensures Progress(before, after, desired, done) && done <= keys
    ensures ok <==> done == keys
    ensures ok <==> |keys| <= calls
    ensures left == if ok then calls - |keys| else 0
  {
    var todo := keys;
    after, left, done := before, calls, {};
    while todo != {} && left > 0
      invariant todo <= keys && done == keys - todo
      invariant Progress(before, after, desired, done)
      invariant |keys| - |todo| == calls - left
      decreases todo
    {
      var k :| k in todo;
      after, left := after - {k}, left - 1;
      todo, done := todo - {k}, done + {k};
    }
    ok := todo == {};
  }

  lemma DiffSize(current: set<string>, previous: set<string>)
    ensures |current + previous| == |current - previous| + |previous - current| + |current * previous|
    ensures current + previous == (current - previous) + (previous - current) + current * previous
  {
    assert current + previous == (current - previous) + (previous - current) + current * previous;
  }

  /** The three loops of reconcileServices and reconcileListeners: for any contents of the API, success leaves exactly
      what is wanted, and it takes one call for each key on either side. */
  method ApplyDiff<V>(before: map<string, V>, desired: map<string, V>, calls: nat)
    returns (ok: bool, after: map<string, V>, left: nat)
    ensures ok ==> after == desired
    ensures Between(before, after, desired)
    ensures ok <==> |desired.Keys + before.Keys| <= calls
    ensures left == if ok then calls - |desired.Keys + before.Keys| else 0
  {
    var added, deleted, rest := Diff(desired.Keys, before.Keys);
    DiffSize(desired.Keys, before.Keys);
    ghost var done, more;
    ok, after, left, done := PutAll(before, desired, added, calls);
    if !ok {
      ProgressIsBetween(before, after, desired, done);
      return;
    }
    var created := after;
    ok, after, left, more := RemoveAll(created, desired, deleted, left);
    ProgressTrans(before, created, after, desired, done, more);
    done := done + more;
    if !ok {
      ProgressIsBetween(before, after, desired, done);
      return;
    }
    var pruned := after;
    ok, after, left, more := PutAll(pruned, desired, rest, left);
    ProgressTrans(before, pruned, after, desired, done, more);
    done := done + more;
    ProgressIsBetween(before, after, desired, done);
  }

  // ---------------------------------------------------------------------------------------------
  // Servers: two calls each, attributes first and then the maintenance state
  // ---------------------------------------------------------------------------------------------

  datatype Server = Server(attrs: string, maintenance: bool)

  /** Like Between, but the server whose second call failed may have its old maintenance state, or none. */
  ghost predicate ServersBetween(before: map<string, Server>, after: map<string, Server>, desired: map<string, Server>) {
    && (forall k :: k in before && k in desired ==> k in after)
    && (forall k :: k in after ==>
          (k in before && after[k] == before[k]) || (k in desired && after[k].attrs == desired[k].attrs))
  }

  /** The Added and Rest loops of reconcileServers: createServer or patchServer, then updateServerState. */
  method PutServers(before: map<string, Server>, desired: map<string, Server>, keys: set<string>, calls: nat)
    returns (ok: bool, after: map<string, Server>, left: nat)
    requires keys <= desired.Keys
    ensures ok ==> Progress(before, after, desired, keys)
    ensures ServersBetween(before, after, desired) && after.Keys >= before.Keys
    ensures ok <==> 2 * |keys| <= calls
    ensures ok ==> left == calls - 2 * |keys|
  {
    var todo := keys;
    after, left := before, calls;
    ghost var done: set<string> := {};
    while todo != {}
      invariant todo <= keys && done == keys - todo
      invariant Progress(before, after, desired, done)
      invariant 2 * (|keys| - |todo|) == calls - left
      decreases todo
    {
      ProgressIsServersBetween(before, after, desired, done);
      if left == 0 {
        return false, after, 0;
      }
      var k :| k in todo;
      ProgressPut(before, after, desired, done, k);
      if left == 1 {
        after := after[k := Server(desired[k].attrs, if k in after then after[k].maintenance else false)];
        return false, after, 0;
      }
      after, left := after[k := desired[k]], left - 2;
      todo, done := todo - {k}, done + {k};
    }
    ProgressIsServersBetween(before, after, desired, keys);
    ok := true;
  }

  lemma ProgressIsServersBetween(before: map<string, Server>, after: map<string, Server>, desired: map<string, Server>, done: set<string>)
    requires Progress(before, after, desired, done)
    ensures ServersBetween(before, after, desired)
    ensures done <= desired.Keys ==> after.Keys >= before.Keys
  {
  }

  /** The body of reconcileServers: for any contents of the API, success leaves exactly the wanted servers with their
      attributes and maintenance states. */
  method ApplyServers(before: map<string, Server>, desired: map<string, Server>, calls: nat)
    returns (ok: bool, after: map<string, Server>, left: nat)
    ensures ok ==> after == desired
    ensures ServersBetween(before, after, desired)
    ensures 2 * |desired.Keys + before.Keys| <= calls ==> ok
    ensures ok ==> left <= calls
  {
    var added, deleted, rest := Diff(desired.Keys, before.Keys);
    DiffSize(desired.Keys, before.Keys);
    ok, after, left := PutServers(before, desired, added, calls);
    if !ok {
      return;
    }
    var created := after;
    ghost var more;
    ok, after, left, more := RemoveAll(created, desired, deleted, left);
    ProgressTrans(before, created, after, desired, added, more);
    ProgressIsServersBetween(before, after, desired, added + more);
    if !ok {
      return;
    }
    var pruned := after;
    ok, after, left := PutServers(pruned, desired, rest, left);
    if ok {
      ProgressTrans(before, pruned, after, desired, added + deleted, rest);
      ProgressIsBetween(before, after, desired, added + deleted + rest);
    }
  }
}

/** ID lookup tables. Both the client (`viaMap[via.ID] = via`, `names.X[enum[k]] = k`)
    and the server (`instanceMap[inst.ID] = inst`, ...) build a table by a loop that
    stores every element of a list under its key, so that a later element with the
    same key overwrites an earlier one. */
module Index {

  /** The element at `i` is the last one in `s` carrying its key. */
  predicate LastWithKey<T>(s: seq<T>, key: T -> int, i: int)
    requires 0 <= i < |s|
  {
    forall j :: i < j < |s| ==> key(s[j]) != key(s[i])
  }

  /** The table the loop leaves behind: every key of the list, each bound to the
      last element carrying it. */
  function IndexBy<T>(s: seq<T>, key: T -> int): (m: map<int, T>)
    ensures forall k :: k in m <==> exists i :: 0 <= i < |s| && key(s[i]) == k
    ensures forall k :: k in m ==> exists i :: 0 <= i < |s| && s[i] == m[k]
  {
    if s == [] then map[]
    else
      var m0 := IndexBy(s[..|s| - 1], key);
      assert forall i :: 0 <= i < |s| - 1 ==> s[..|s| - 1][i] == s[i];
      m0[key(s[|s| - 1]) := s[|s| - 1]]
  }

  /** The last element carrying a key is the one the table holds for it. */
  lemma {:induction false} IndexByLast<T>(s: seq<T>, key: T -> int, i: int)
    requires 0 <= i < |s| && LastWithKey(s, key, i)
    ensures key(s[i]) in IndexBy(s, key) && IndexBy(s, key)[key(s[i])] == s[i]
  {
    if i < |s| - 1 {
      var init := s[..|s| - 1];
      assert init[i] == s[i];
      assert LastWithKey(init, key, i) by {
        forall j | i < j < |init| ensures key(init[j]) != key(init[i]) {
          assert init[j] == s[j];
        }
      }
      IndexByLast(init, key, i);
    }
  }

  /** Conversely, what the table holds for a key is the last element
      carrying that key. */
  lemma {:induction false} IndexByFinds<T>(s: seq<T>, key: T -> int, k: int)
    requires k in IndexBy(s, key)
    ensures exists i :: 0 <= i < |s| && LastWithKey(s, key, i) && s[i] == IndexBy(s, key)[k] && key(s[i]) == k
  {
    var n := |s| - 1;
    if key(s[n]) != k {
      var init := s[..n];
      assert forall i :: 0 <= i < n ==> init[i] == s[i];
      IndexByFinds(init, key, k);
      var i :| 0 <= i < n && LastWithKey(init, key, i) && init[i] == IndexBy(init, key)[k] && key(init[i]) == k;
      assert LastWithKey(s, key, i);
    } else {
      assert LastWithKey(s, key, n);
    }
  }

  /** With distinct keys every element is found under its own key. */
  lemma IndexByInjective<T>(s: seq<T>, key: T -> int)
    requires forall i, j :: 0 <= i < j < |s| ==> key(s[i]) != key(s[j])
    ensures forall i :: 0 <= i < |s| ==> key(s[i]) in IndexBy(s, key) && IndexBy(s, key)[key(s[i])] == s[i]
  {
    forall i | 0 <= i < |s|
      ensures key(s[i]) in IndexBy(s, key) && IndexBy(s, key)[key(s[i])] == s[i]
    {
      IndexByLast(s, key, i);
    }
  }

  /** Filling one table from two lists in turn is a union in which the second
      list wins on a shared key (`viaMap` holds the ViaDefinition, not the
      RoutingVia, when both carry the same ID). */
  lemma {:induction false} IndexByAppend<T>(a: seq<T>, b: seq<T>, key: T -> int)
    ensures IndexBy(a + b, key) == IndexBy(a, key) + IndexBy(b, key)
  {
    if b == [] {
      assert a + b == a;
    } else {
      var b0, x := b[..|b| - 1], b[|b| - 1];
      assert (a + b)[..|a + b| - 1] == a + b0;
      assert (a + b)[|a + b| - 1] == x;
      IndexByAppend(a, b0, key);
      var ma, mb := IndexBy(a, key), IndexBy(b0, key);
      calc {
        IndexBy(a + b, key);
        IndexBy(a + b0, key)[key(x) := x];
        (ma + mb)[key(x) := x];
        { MapUnionUpdate(ma, mb, key(x), x); }
        ma + mb[key(x) := x];
        ma + IndexBy(b, key);
      }
    }
  }

  lemma MapUnionUpdate<T>(m: map<int, T>, n: map<int, T>, k: int, x: T)
    ensures (m + n)[k := x] == m + n[k := x]
  {
  }

  /** The loop itself: `for x of s { m[key(x)] = x }`. */
  method BuildIndex<T>(s: seq<T>, key: T -> int) returns (m: map<int, T>)
    ensures m == IndexBy(s, key)
  {
    m := map[];
    var i := 0;
    while i < |s|
      invariant 0 <= i <= |s|
      invariant m == IndexBy(s[..i], key)
    {
      assert s[..i + 1][..i] == s[..i];
      m := m[key(s[i]) := s[i]];
      i := i + 1;
    }
    assert s[..|s|] == s;
  }
}

/** Stable ascending sort by a numeric key, the behaviour of
    `Array.prototype.sort((a, b) => key(a) - key(b))` (stable since ES2019). */
module Sorting {

  ghost predicate SortedBy<T>(s: seq<T>, key: T -> real)
  {
    forall i, j :: 0 <= i < j < |s| ==> key(s[i]) <= key(s[j])
  }

  ghost predicate Ascending(s: seq<real>)
  {
    forall i, j :: 0 <= i < j < |s| ==> s[i] <= s[j]
  }

  function Identity(x: real): real
  {
    x
  }

  /** The elements of `s` whose key is `k`, in their order in `s`. */
  function WithKey<T>(s: seq<T>, key: T -> real, k: real): seq<T>
  {
    if |s| == 0 then []
    else (if key(s[0]) == k then [s[0]] else []) + WithKey(s[1..], key, k)
  }

  /** Inserts `x` after every element whose key is not above `key(x)`. */
  function InsertBy<T>(x: T, s: seq<T>, key: T -> real): (r: seq<T>)
    requires SortedBy(s, key)
    ensures SortedBy(r, key)
    ensures multiset(r) == multiset(s) + multiset{x}
    ensures |r| == |s| + 1
    ensures forall y :: y in r ==> y == x || y in s
  {
    if |s| == 0 then [x]
    else if key(x) < key(s[0]) then
      assert [x] + s == [x] + s[0..];
      [x] + s
    else
      assert SortedBy(s[1..], key);
      var t := InsertBy(x, s[1..], key);
      InsertByHead(x, s, t, key);
      assert s == [s[0]] + s[1..];
      [s[0]] + t
  }

  /** The step of `InsertBy` that keeps the head of `s` in front. */
  lemma InsertByHead<T>(x: T, s: seq<T>, t: seq<T>, key: T -> real)
    requires SortedBy(s, key) && |s| > 0 && key(s[0]) <= key(x)
    requires SortedBy(t, key)
    requires forall y :: y in t ==> y == x || y in s[1..]
    ensures SortedBy([s[0]] + t, key)
  {
    forall i | 0 <= i < |t| ensures key(s[0]) <= key(t[i]) {
      assert t[i] in t;
      if t[i] != x {
        var j :| 0 <= j < |s[1..]| && s[1..][j] == t[i];
        assert s[1..][j] == s[j + 1];
      }
    }
    var r := [s[0]] + t;
    forall i, j | 0 <= i < j < |r| ensures key(r[i]) <= key(r[j]) {
      if i == 0 {
        assert r[j] == t[j - 1];
      } else {
        assert r[i] == t[i - 1] && r[j] == t[j - 1];
      }
    }
  }

  /** Insertion sort: each element, in input order, is inserted into the sorted prefix. */
  function SortBy<T>(s: seq<T>, key: T -> real): (r: seq<T>)
    ensures SortedBy(r, key)
    ensures multiset(r) == multiset(s)
    ensures |r| == |s|
  {
    if |s| == 0 then []
    else
      assert s == s[..|s| - 1] + [s[|s| - 1]];
      InsertBy(s[|s| - 1], SortBy(s[..|s| - 1], key), key)
  }

  lemma SortedByIdentity(s: seq<real>)
    ensures SortedBy(s, Identity) <==> Ascending(s)
  {
  }

  lemma {:induction false} WithKeyConcat<T>(a: seq<T>, b: seq<T>, key: T -> real, k: real)
    ensures WithKey(a + b, key, k) == WithKey(a, key, k) + WithKey(b, key, k)
  {
    if |a| == 0 {
      assert a + b == b;
    } else {
      var ab := a + b;
      var head := if key(a[0]) == k then [a[0]] else [];
      assert ab[0] == a[0];
      assert ab[1..] == a[1..] + b;
      assert WithKey(ab, key, k) == head + WithKey(a[1..] + b, key, k);
      WithKeyConcat(a[1..], b, key, k);
      assert WithKey(a, key, k) == head + WithKey(a[1..], key, k);
    }
  }

  lemma {:induction false} InsertByWithKey<T>(x: T, s: seq<T>, key: T -> real, k: real)
    requires SortedBy(s, key)
    ensures WithKey(InsertBy(x, s, key), key, k)
         == WithKey(s, key, k) + (if key(x) == k then [x] else [])
  {
    if |s| == 0 {
    } else if key(x) < key(s[0]) {
      // every element of s has a key above key(x), so none has key k when key(x) == k
      WithKeyAbove(s, key, key(x));
      WithKeyConcat([x], s, key, k);
      if key(x) == k {
        assert WithKey(s, key, k) == [];
      }
    } else {
      assert SortedBy(s[1..], key);
      InsertByWithKey(x, s[1..], key, k);
      assert ([s[0]] + InsertBy(x, s[1..], key))[1..] == InsertBy(x, s[1..], key);
    }
  }

  /** In a sorted list starting above `v`, no element has key `v`. */
  lemma {:induction false} WithKeyAbove<T>(s: seq<T>, key: T -> real, v: real)
    requires SortedBy(s, key)
    requires |s| > 0 && key(s[0]) > v
    ensures WithKey(s, key, v) == []
  {
    if |s| > 1 {
      assert SortedBy(s[1..], key);
      WithKeyAbove(s[1..], key, v);
    }
  }

  /** Stability: the elements sharing one key keep their input order. */
  lemma {:induction false} SortByStable<T>(s: seq<T>, key: T -> real, k: real)
    ensures WithKey(SortBy(s, key), key, k) == WithKey(s, key, k)
  {
    if |s| > 0 {
      var init, last := s[..|s| - 1], s[|s| - 1];
      var sortedInit := SortBy(init, key);
      var tail := if key(last) == k then [last] else [];
      calc {
        WithKey(SortBy(s, key), key, k);
        WithKey(InsertBy(last, sortedInit, key), key, k);
        { InsertByWithKey(last, sortedInit, key, k); }
        WithKey(sortedInit, key, k) + tail;
        { SortByStable(init, key, k); }
        WithKey(init, key, k) + tail;
        { WithKeyConcat(init, [last], key, k); }
        WithKey(init + [last], key, k);
        { assert s == init + [last]; }
        WithKey(s, key, k);
      }
    }
  }

  lemma AscendingHeadIsLeast(s: seq<real>, x: real)
    requires Ascending(s) && x in s
    ensures s[0] <= x
  {
    var i :| 0 <= i < |s| && s[i] == x;
    if i > 0 {
      assert s[0] <= s[i];
    }
  }

  /** Two ascending lists with the same elements are the same list. */
  lemma {:induction false} AscendingUnique(a: seq<real>, b: seq<real>)
    requires Ascending(a) && Ascending(b)
    requires multiset(a) == multiset(b)
    ensures a == b
  {
    if |a| == 0 || |b| == 0 {
      assert |a| == |multiset(a)| == |multiset(b)| == |b|;
    } else {
      assert a[0] in multiset(b) by { assert a[0] in multiset(a); }
      assert b[0] in multiset(a) by { assert b[0] in multiset(b); }
      AscendingHeadIsLeast(b, a[0]);
      AscendingHeadIsLeast(a, b[0]);
      assert a[0] == b[0];
      assert a == [a[0]] + a[1..];
      assert b == [b[0]] + b[1..];
      var ta, tb := a[1..], b[1..];
      assert multiset(ta) == multiset(tb) by {
        assert a == [a[0]] + ta && b == [a[0]] + tb;
        assert multiset(a) == multiset([a[0]]) + multiset(ta);
        assert multiset(b) == multiset([a[0]]) + multiset(tb);
        forall v ensures multiset(ta)[v] == multiset(tb)[v] {
          assert multiset(a)[v] == multiset([a[0]])[v] + multiset(ta)[v];
          assert multiset(b)[v] == multiset([a[0]])[v] + multiset(tb)[v];
        }
      }
      AscendingTail(a);
      AscendingTail(b);
      AscendingUnique(a[1..], b[1..]);
    }
  }

  lemma AscendingTail(s: seq<real>)
    requires Ascending(s) && |s| > 0
    ensures Ascending(s[1..])
  {
    forall i, j | 0 <= i < j < |s| - 1 ensures s[1..][i] <= s[1..][j] {
      assert s[1..][i] == s[i + 1] && s[1..][j] == s[j + 1];
    }
  }
}

/** Array operations the pages use on their record lists: `filter`, `splice(k, 1)`
    and a stable comparison `sort` keyed by a string field. */
module Lists {
  import opened Text

  /** `a` is `b` with some elements left out, the rest in their original order. */
  predicate IsSubsequence<T(==)>(a: seq<T>, b: seq<T>)
    decreases |b|
  {
    a == [] || (b != [] && (if a[0] == b[0] then IsSubsequence(a[1..], b[1..]) else IsSubsequence(a, b[1..])))
  }

  /** `s.filter(p)`. */
  function Filter<T(==,!new)>(s: seq<T>, p: T -> bool): (r: seq<T>)
    ensures |r| <= |s|
    ensures forall x :: x in r <==> x in s && p(x)
    ensures forall i :: 0 <= i < |r| ==> p(r[i])
    ensures IsSubsequence(r, s)
    ensures forall x :: multiset(r)[x] == if p(x) then multiset(s)[x] else 0
  {
    if s == [] then []
    else
      var rest := Filter(s[1..], p);
      assert s == [s[0]] + s[1..];
      if p(s[0]) then [s[0]] + rest else rest
  }

  lemma {:induction false} FilterAll<T(!new)>(s: seq<T>, p: T -> bool)
    requires forall x :: x in s ==> p(x)
    ensures Filter(s, p) == s
  {
    if s != [] {
      FilterAll(s[1..], p);
    }
  }

  /** The start index JavaScript's `splice` computes from its first argument. */
  function SpliceStart(len: nat, k: int): (start: nat)
    ensures start <= len || start == k
  {
    if k < 0 then (if len + k < 0 then 0 else len + k) else k
  }

  /** `s.splice(k, 1)` on a copy: removes the element at the start index `k` denotes
      (counted from the end when negative), and nothing when that index is past the end. */
  function Splice1<T>(s: seq<T>, k: int): (r: seq<T>)
    ensures var start := SpliceStart(|s|, k);
            && |r| == (if start < |s| then |s| - 1 else |s|)
            && (forall j :: 0 <= j < |r| && j < start ==> r[j] == s[j])
            && (forall j :: start <= j < |r| ==> r[j] == s[j + 1])
  {
    var start := SpliceStart(|s|, k);
    if start < |s| then s[..start] + s[start + 1..] else s
  }

  /** The comparator `sortAZ ? a.localeCompare(b) : b.localeCompare(a)` as "x may come before y". */
  predicate Before<T>(key: T -> string, ascending: bool, x: T, y: T)
  {
    if ascending then LexLe(key(x), key(y)) else LexLe(key(y), key(x))
  }

  predicate SortedBy<T>(s: seq<T>, key: T -> string, ascending: bool)
  {
    forall i, j :: 0 <= i < j < |s| ==> Before(key, ascending, s[i], s[j])
  }

  function Insert<T>(x: T, t: seq<T>, key: T -> string, ascending: bool): (r: seq<T>)
    ensures |r| == |t| + 1
    ensures multiset(r) == multiset(t) + multiset{x}
    ensures forall y :: y in r ==> y in t || y == x
  {
    if t == [] then [x]
    else if Before(key, ascending, x, t[0]) then [x] + t
    else
      assert t == [t[0]] + t[1..];
      [t[0]] + Insert(x, t[1..], key, ascending)
  }

  lemma {:induction false} InsertSorted<T>(x: T, t: seq<T>, key: T -> string, ascending: bool)
    requires SortedBy(t, key, ascending)
    ensures SortedBy(Insert(x, t, key, ascending), key, ascending)
  {
    if t != [] {
      if Before(key, ascending, x, t[0]) {
        InsertAtFront(x, t, key, ascending);
      } else {
        InsertSorted(x, t[1..], key, ascending);
        InsertAfterHead(x, t, key, ascending);
      }
    }
  }

  /** An element that may come before the head of a sorted list keeps it sorted in front. */
  lemma InsertAtFront<T>(x: T, t: seq<T>, key: T -> string, ascending: bool)
    requires SortedBy(t, key, ascending) && t != [] && Before(key, ascending, x, t[0])
    ensures SortedBy([x] + t, key, ascending)
  {
    var r := [x] + t;
    forall j | 1 < j < |r| ensures Before(key, ascending, x, r[j]) {
      BeforeTrans(key, ascending, x, t[0], r[j]);
    }
  }

  /** An element placed after the head lands in a sorted tail, all of which the head may
      precede. */
  lemma InsertAfterHead<T>(x: T, t: seq<T>, key: T -> string, ascending: bool)
    requires SortedBy(t, key, ascending) && t != [] && !Before(key, ascending, x, t[0])
    requires SortedBy(Insert(x, t[1..], key, ascending), key, ascending)
    ensures SortedBy(Insert(x, t, key, ascending), key, ascending)
  {
    var rest := Insert(x, t[1..], key, ascending);
    var r := Insert(x, t, key, ascending);
    BeforeTotal(key, ascending, x, t[0]);
    assert r == [t[0]] + rest;
    forall j | 0 <= j < |rest| ensures Before(key, ascending, t[0], rest[j]) {
      assert rest[j] in rest;
      if rest[j] != x {
        var k :| 0 <= k < |t[1..]| && t[1..][k] == rest[j];
        assert t[k + 1] == rest[j];
      }
    }
  }

  /** The elements of `s` whose key is `k`, in their order in `s`. A sort is stable when it
      leaves this list the same for every key. */
  function WithKey<T>(s: seq<T>, key: T -> string, k: string): seq<T>
  {
    if s == [] then [] else (if key(s[0]) == k then [s[0]] else []) + WithKey(s[1..], key, k)
  }

  /** Insertion goes before the first element with the same key, so among equal keys the
      inserted element comes first. */
  lemma {:induction false} InsertWithKey<T>(x: T, t: seq<T>, key: T -> string, ascending: bool, k: string)
    ensures WithKey(Insert(x, t, key, ascending), key, k) == (if key(x) == k then [x] else []) + WithKey(t, key, k)
  {
    if t == [] {
      assert [x][1..] == [];
    } else if Before(key, ascending, x, t[0]) {
      assert ([x] + t)[1..] == t;
    } else {
      LexLeTotal(key(x), key(x));
      var rest := Insert(x, t[1..], key, ascending);
      InsertWithKey(x, t[1..], key, ascending, k);
      WithKeyBehindHead(x, t, rest, Insert(x, t, key, ascending), key, k);
    }
  }

  /** `x` placed somewhere after the head of `t`, where the head's key differs from `x`'s:
      among the elements with key `k`, `x` still comes first. */
  lemma WithKeyBehindHead<T>(x: T, t: seq<T>, rest: seq<T>, r: seq<T>, key: T -> string, k: string)
    requires t != [] && key(t[0]) != key(x) && r == [t[0]] + rest
    requires WithKey(rest, key, k) == (if key(x) == k then [x] else []) + WithKey(t[1..], key, k)
    ensures WithKey(r, key, k) == (if key(x) == k then [x] else []) + WithKey(t, key, k)
  {
    WithKeyCons(t[0], rest, key, k);
    assert t == [t[0]] + t[1..];
    WithKeyCons(t[0], t[1..], key, k);
    SwapEmpty(if key(t[0]) == k then [t[0]] else [], if key(x) == k then [x] else [], WithKey(t[1..], key, k));
  }

  /** Of two lists at least one of which is empty, either may go first. */
  lemma SwapEmpty<T>(a: seq<T>, b: seq<T>, w: seq<T>)
    requires a == [] || b == []
    ensures a + (b + w) == b + (a + w)
  {
    assert [] + w == w;
    if a == [] {
      assert b + w == b + ([] + w);
    } else {
      assert a + w == [] + (a + w);
    }
  }

  lemma WithKeyCons<T>(y: T, s: seq<T>, key: T -> string, k: string)
    ensures WithKey([y] + s, key, k) == (if key(y) == k then [y] else []) + WithKey(s, key, k)
  {
    assert ([y] + s)[1..] == s;
  }

  /** `[...s].sort(comparator)` as an insertion sort: an ordered permutation, stable as
      `Array.prototype.sort` is. */
  function SortBy<T>(s: seq<T>, key: T -> string, ascending: bool): (r: seq<T>)
    ensures |r| == |s|
    ensures multiset(r) == multiset(s)
    ensures SortedBy(r, key, ascending)
    ensures forall k :: WithKey(r, key, k) == WithKey(s, key, k)
  {
    if s == [] then []
    else
      var rest := SortBy(s[1..], key, ascending);
      SortStep(s, rest, key, ascending);
      Insert(s[0], rest, key, ascending)
  }

  /** Inserting the head into the sorted tail sorts the whole list and keeps the order of
      equal keys. */
  lemma SortStep<T>(s: seq<T>, rest: seq<T>, key: T -> string, ascending: bool)
    requires s != [] && multiset(rest) == multiset(s[1..]) && SortedBy(rest, key, ascending)
    requires forall k :: WithKey(rest, key, k) == WithKey(s[1..], key, k)
    ensures multiset(Insert(s[0], rest, key, ascending)) == multiset(s)
    ensures SortedBy(Insert(s[0], rest, key, ascending), key, ascending)
    ensures forall k :: WithKey(Insert(s[0], rest, key, ascending), key, k) == WithKey(s, key, k)
  {
    InsertSorted(s[0], rest, key, ascending);
    assert s == [s[0]] + s[1..];
    forall k
      ensures WithKey(Insert(s[0], rest, key, ascending), key, k) == WithKey(s, key, k)
    {
      InsertWithKey(s[0], rest, key, ascending, k);
    }
  }

  /** Lists that are permutations of each other have the same members. */
  lemma SameMembers<T>(a: seq<T>, b: seq<T>)
    requires multiset(a) == multiset(b)
    ensures forall x :: x in a <==> x in b
  {
    forall x
      ensures x in a <==> x in b
    {
      assert x in a <==> x in multiset(a);
      assert x in b <==> x in multiset(b);
    }
  }

  lemma BeforeTotal<T>(key: T -> string, ascending: bool, x: T, y: T)
    ensures Before(key, ascending, x, y) || Before(key, ascending, y, x)
  {
    LexLeTotal(key(x), key(y));
  }

  lemma BeforeTrans<T>(key: T -> string, ascending: bool, x: T, y: T, z: T)
    requires Before(key, ascending, x, y) && Before(key, ascending, y, z)
    ensures Before(key, ascending, x, z)
  {
    if ascending {
      LexLeTrans(key(x), key(y), key(z));
    } else {
      LexLeTrans(key(z), key(y), key(x));
    }
  }
}

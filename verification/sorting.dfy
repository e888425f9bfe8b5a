/** `Array.prototype.sort` with a numeric comparator `(a, b) => key(a) - key(b)`
    (ascending) or `key(b) - key(a)` (descending). The runtime's sort is
    stable, and so is this insertion sort: an element is placed before the
    first element it may precede, so ties keep their original order. */
module Sorting {
  import opened Common

  datatype Order = Asc | Desc

  /** `a` may come before `b` in a list sorted by `key` in `order`. */
  predicate InOrder<T>(key: T -> int, order: Order, a: T, b: T) {
    if order == Asc then key(a) <= key(b) else key(a) >= key(b)
  }

  ghost predicate Sorted<T>(s: seq<T>, key: T -> int, order: Order) {
    forall i, j :: 0 <= i < j < |s| ==> InOrder(key, order, s[i], s[j])
  }

  /** A lower bound of every element of `t` and of `x` bounds every
      element of any arrangement of `t` with `x` added. */
  lemma BoundByMultiset<T>(a: T, r: seq<T>, t: seq<T>, x: T, key: T -> int, order: Order)
    requires multiset(r) == multiset(t) + multiset{x}
    requires forall j :: 0 <= j < |t| ==> InOrder(key, order, a, t[j])
    requires InOrder(key, order, a, x)
    ensures forall j :: 0 <= j < |r| ==> InOrder(key, order, a, r[j])
  {
    forall j | 0 <= j < |r|
      ensures InOrder(key, order, a, r[j])
    {
      assert r[j] in multiset(t) + multiset{x};
      if r[j] != x {
        assert r[j] in t;
      }
    }
  }

  lemma SortedCons<T>(a: T, r: seq<T>, key: T -> int, order: Order)
    requires Sorted(r, key, order)
    requires forall j :: 0 <= j < |r| ==> InOrder(key, order, a, r[j])
    ensures Sorted([a] + r, key, order)
  {
    var s := [a] + r;
    assert forall i :: 0 < i < |s| ==> s[i] == r[i - 1];
  }

  function Insert<T>(x: T, s: seq<T>, key: T -> int, order: Order): (r: seq<T>)
    requires Sorted(s, key, order)
    ensures Sorted(r, key, order)
    ensures multiset(r) == multiset(s) + multiset{x}
    decreases |s|
  {
    if |s| == 0 || InOrder(key, order, x, s[0]) then
      assert forall j :: 0 < j < |s| ==> InOrder(key, order, s[0], s[j]);
      [x] + s
    else
      var rest := Insert(x, s[1..], key, order);
      assert s == [s[0]] + s[1..];
      BoundByMultiset(s[0], rest, s[1..], x, key, order);
      SortedCons(s[0], rest, key, order);
      [s[0]] + rest
  }

  /** The test "has key `k`": filtering by it lists the ties at `k`. */
  function HasKey<T>(key: T -> int, k: int): T -> bool {
    x => key(x) == k
  }

  /** Inserting `x` adds it in front of its ties and leaves every other
      group of ties alone: it only passes elements with a different key. */
  lemma {:induction false} InsertStable<T(!new)>(x: T, s: seq<T>, key: T -> int, order: Order, k: int)
    requires Sorted(s, key, order)
    ensures Filter(Insert(x, s, key, order), HasKey(key, k)) ==
            (if key(x) == k then [x] else []) + Filter(s, HasKey(key, k))
    decreases |s|
  {
    if |s| == 0 || InOrder(key, order, x, s[0]) {
      assert ([x] + s)[1..] == s;
    } else {
      var rest := Insert(x, s[1..], key, order);
      InsertStable(x, s[1..], key, order, k);
      assert ([s[0]] + rest)[1..] == rest;
      assert key(s[0]) != key(x);
    }
  }

  /** The list sorted by `key` in `order`, ties in their original order. */
  function SortByKey<T(!new)>(s: seq<T>, key: T -> int, order: Order): (r: seq<T>)
    ensures Sorted(r, key, order)
    ensures multiset(r) == multiset(s)
    ensures |r| == |s|
    ensures forall k :: Filter(r, HasKey(key, k)) == Filter(s, HasKey(key, k))
    decreases |s|
  {
    if |s| == 0 then []
    else
      var tail := SortByKey(s[1..], key, order);
      assert s == [s[0]] + s[1..];
      assert forall k :: Filter(Insert(s[0], tail, key, order), HasKey(key, k)) == Filter(s, HasKey(key, k)) by {
        forall k ensures Filter(Insert(s[0], tail, key, order), HasKey(key, k)) == Filter(s, HasKey(key, k)) {
          InsertStable(s[0], tail, key, order, k);
        }
      }
      Insert(s[0], tail, key, order)
  }

  /** `[...s].sort((a, b) => key(b) - key(a))[0]`: the first element with
      the largest key, or nothing for an empty list. */
  function TopByKey<T(!new)>(s: seq<T>, key: T -> int): (r: Option<T>)
    ensures r.Some? <==> |s| > 0
    ensures r.Some? ==> r.value in s
    ensures r.Some? ==> forall i :: 0 <= i < |s| ==> key(s[i]) <= key(r.value)
    ensures r.Some? ==> exists i :: 0 <= i < |s| && s[i] == r.value && forall j :: 0 <= j < i ==> key(s[j]) < key(r.value)
  {
    if |s| == 0 then None
    else
      var sorted := SortByKey(s, key, Desc);
      assert sorted[0] in multiset(s);
      assert forall i :: 0 <= i < |s| ==> s[i] in multiset(sorted);
      FirstOfTies(s, sorted, key);
      Some(sorted[0])
  }

  /** The head of the stable descending sort is the first of its ties in
      the original list. */
  lemma FirstOfTies<T(!new)>(s: seq<T>, sorted: seq<T>, key: T -> int)
    requires |sorted| > 0
    requires forall i :: 0 <= i < |s| ==> key(s[i]) <= key(sorted[0])
    requires Filter(sorted, HasKey(key, key(sorted[0]))) == Filter(s, HasKey(key, key(sorted[0])))
    ensures exists i :: 0 <= i < |s| && s[i] == sorted[0] && forall j :: 0 <= j < i ==> key(s[j]) < key(sorted[0])
  {
    var p := HasKey(key, key(sorted[0]));
    assert Filter(sorted, p)[0] == sorted[0];
    FilterHead(s, p);
  }

  // ----- cutting a sorted list -----

  lemma SortedPrefix<T>(s: seq<T>, key: T -> int, order: Order, p: seq<T>)
    requires Sorted(s, key, order) && p <= s
    ensures Sorted(p, key, order)
  {
  }

  lemma PrefixMultiset<T>(s: seq<T>, n: nat)
    requires n <= |s|
    ensures multiset(s) == multiset(s[..n]) + multiset(s[n..])
  {
    assert s == s[..n] + s[n..];
  }

  /** In a sorted list, whatever stands before a cut may precede whatever
      stands after it. */
  lemma SortedSplit<T>(s: seq<T>, key: T -> int, order: Order, n: nat, a: T, b: T)
    requires Sorted(s, key, order) && n <= |s|
    requires a in s[..n] && b in s[n..]
    ensures InOrder(key, order, a, b)
  {
    var i :| 0 <= i < n && s[..n][i] == a;
    var j :| 0 <= j < |s| - n && s[n..][j] == b;
    assert s[i] == a && s[n + j] == b;
  }

  /** Sorting then applying a limit gives a top-n: every element the limit
      cut off may follow every element it kept. */
  lemma LimitIsTopN<T(!new)>(s: seq<T>, key: T -> int, order: Order, limit: Option<int>, kept: T, dropped: T)
    requires kept in ApplyLimit(SortByKey(s, key, order), limit)
    requires multiset(s)[dropped] > multiset(ApplyLimit(SortByKey(s, key, order), limit))[dropped]
    ensures InOrder(key, order, kept, dropped)
  {
    var sorted := SortByKey(s, key, order);
    var r := ApplyLimit(sorted, limit);
    var n := |r|;
    assert sorted[..n] == r;
    PrefixMultiset(sorted, n);
    assert dropped in multiset(sorted[n..]);
    SortedSplit(sorted, key, order, n, kept, dropped);
  }

  /** Applying a limit to a stable sort keeps, within every group of ties,
      a prefix of that group in its original order. */
  lemma LimitKeepsTieOrder<T(!new)>(sorted: seq<T>, r: seq<T>, key: T -> int, k: int)
    requires r <= sorted
    ensures Filter(r, HasKey(key, k)) <= Filter(sorted, HasKey(key, k))
  {
    assert sorted == r + sorted[|r|..];
    FilterAppend(r, sorted[|r|..], HasKey(key, k));
  }
}

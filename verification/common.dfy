/** Shared vocabulary of the dashboard's list and record logic: optional
    values, JavaScript's slice semantics, order-preserving filters, decimal
    digit strings, keyed tallies and the string helpers of the runtime
    (trim, ASCII case mapping, substring search). */
module Common {

  datatype Option<+T> = None | Some(value: T)

  datatype Result<+T, +E> = Ok(value: T) | Err(error: E)

  /** The four severities shared by notifications and activity entries. */
  datatype Severity = Info | Success | Warning | Error

  function SeverityName(s: Severity): string {
    match s
    case Info => "info"
    case Success => "success"
    case Warning => "warning"
    case Error => "error"
  }

  /** Durations in milliseconds, as `Date` arithmetic counts them. */
  const SecondMs := 1000
  const MinuteMs := 60 * 1000
  const HourMs := 60 * 60 * 1000
  const DayMs := 24 * 60 * 60 * 1000

  function Min(a: int, b: int): int { if a <= b then a else b }

  function Max(a: int, b: int): int { if a >= b then a else b }

  // ---------------------------------------------------------------------
  // JavaScript Array.prototype.slice / String.prototype.slice
  // ---------------------------------------------------------------------

  /** Index normalisation of `slice`: a negative index counts from the end,
      and the result is clamped into [0, len]. */
  function ClampIndex(i: int, len: nat): (r: nat)
    ensures r <= len
    ensures 0 <= i ==> r == Min(i, len)
    ensures i < 0 ==> r == Max(len + i, 0)
  {
    if i < 0 then (if len + i < 0 then 0 else len + i)
    else if i > len then len
    else i
  }

  /** `s.slice(start, end)`. */
  function JsSlice<T>(s: seq<T>, start: int, end: int): (r: seq<T>)
    ensures |r| <= |s|
    ensures start <= end ==> |r| <= end - start
    ensures 0 <= start <= end ==> r == s[Min(start, |s|)..Min(end, |s|)]
    ensures start == 0 ==> r <= s
  {
    var a := ClampIndex(start, |s|);
    var b := ClampIndex(end, |s|);
    if a < b then s[a..b] else []
  }

  /** The `if (options?.limit) result = result.slice(0, options.limit)` idiom:
      an absent or zero limit is falsy and leaves the list alone. */
  function ApplyLimit<T>(s: seq<T>, limit: Option<int>): (r: seq<T>)
    ensures r <= s
    ensures limit == None || limit == Some(0) ==> r == s
    ensures limit.Some? && limit.value > 0 ==> |r| == Min(limit.value, |s|)
    ensures limit.Some? && limit.value < 0 ==> |r| == Max(|s| + limit.value, 0)
  {
    if limit.Some? && limit.value != 0 then JsSlice(s, 0, limit.value) else s
  }

  /** `Math.round(a / b)` for integers with `b != 0`: the nearest integer to
      the exact quotient, halves rounded up. */
  function RoundDiv(a: int, b: int): (r: int)
    requires b != 0
    ensures b > 0 ==> b * (2 * r - 1) <= 2 * a < b * (2 * r + 1)
    ensures b < 0 ==> -b * (2 * r - 1) <= -2 * a < -b * (2 * r + 1)
  {
    var n := if b > 0 then a else -a;
    var d := if b > 0 then b else -b;
    var r := (2 * n + d) / (2 * d);
    assert 2 * d * r <= 2 * n + d < 2 * d * r + 2 * d;
    r
  }

  lemma MulMonotone(b: int, x: int, y: int)
    requires b > 0 && x <= y
    ensures b * x <= b * y
  {
    assert b * y - b * x == b * (y - x);
  }

  /** The rounding bound pins the result down: no other integer meets it. */
  lemma RoundDivUnique(a: int, b: int, k: int)
    requires b > 0
    requires b * (2 * k - 1) <= 2 * a < b * (2 * k + 1)
    ensures k == RoundDiv(a, b)
  {
    var r := RoundDiv(a, b);
    if k < r {
      MulMonotone(b, 2 * k + 1, 2 * r - 1);
    } else if k > r {
      MulMonotone(b, 2 * r + 1, 2 * k - 1);
    }
  }

  // ---------------------------------------------------------------------
  // Order-preserving filters
  // ---------------------------------------------------------------------

  /** `a` occurs in `b` in order, possibly with gaps. */
  ghost predicate SubseqOf<T>(a: seq<T>, b: seq<T>)
    decreases |b|
  {
    if |a| == 0 then true
    else if |b| == 0 then false
    else if a[0] == b[0] then SubseqOf(a[1..], b[1..])
    else SubseqOf(a, b[1..])
  }

  /** `Array.prototype.filter`. */
  function Filter<T(!new)>(s: seq<T>, p: T -> bool): (r: seq<T>)
    ensures |r| <= |s|
    ensures forall i :: 0 <= i < |r| ==> p(r[i])
    ensures forall x :: x in r <==> x in s && p(x)
    ensures SubseqOf(r, s)
  {
    if |s| == 0 then []
    else if p(s[0]) then [s[0]] + Filter(s[1..], p)
    else Filter(s[1..], p)
  }

  lemma {:induction false} SubseqOfSelf<T>(s: seq<T>)
    ensures SubseqOf(s, s)
    decreases |s|
  {
    if |s| > 0 {
      SubseqOfSelf(s[1..]);
    }
  }

  /** A filter that keeps everything is the identity. */
  lemma {:induction false} FilterKeepsAll<T(!new)>(s: seq<T>, p: T -> bool)
    requires forall i :: 0 <= i < |s| ==> p(s[i])
    ensures Filter(s, p) == s
    decreases |s|
  {
    if |s| > 0 {
      FilterKeepsAll(s[1..], p);
    }
  }

  /** Filtering distributes over concatenation. */
  lemma {:induction false} FilterAppend<T(!new)>(a: seq<T>, b: seq<T>, p: T -> bool)
    ensures Filter(a + b, p) == Filter(a, p) + Filter(b, p)
    decreases |a|
  {
    if |a| == 0 {
      assert a + b == b;
    } else {
      assert (a + b)[1..] == a[1..] + b;
      FilterAppend(a[1..], b, p);
    }
  }

  /** The first element a filter passes is the list's first element that
      passes the test. */
  lemma {:induction false} FilterHead<T(!new)>(s: seq<T>, p: T -> bool)
    requires |Filter(s, p)| > 0
    ensures exists i :: 0 <= i < |s| && s[i] == Filter(s, p)[0] && forall j :: 0 <= j < i ==> !p(s[j])
    decreases |s|
  {
    if !p(s[0]) {
      FilterHead(s[1..], p);
      var i :| 0 <= i < |s[1..]| && s[1..][i] == Filter(s[1..], p)[0] && forall j :: 0 <= j < i ==> !p(s[1..][j]);
      assert s[i + 1] == Filter(s, p)[0];
      assert forall j :: 0 <= j < i + 1 ==> !p(s[j]) by {
        forall j | 0 <= j < i + 1 ensures !p(s[j]) {
          if j > 0 { assert s[j] == s[1..][j - 1]; }
        }
      }
    }
  }

  /** A filter keeps every copy of what passes. */
  lemma {:induction false} FilterMultiplicity<T(!new)>(s: seq<T>, p: T -> bool, x: T)
    requires p(x)
    ensures multiset(Filter(s, p))[x] == multiset(s)[x]
    decreases |s|
  {
    if |s| > 0 {
      var t := Filter(s[1..], p);
      FilterMultiplicity(s[1..], p, x);
      assert multiset(s)[x] == multiset([s[0]])[x] + multiset(s[1..])[x] by {
        assert s == [s[0]] + s[1..];
      }
      if p(s[0]) {
        assert Filter(s, p) == [s[0]] + t;
        assert multiset(Filter(s, p))[x] == multiset([s[0]])[x] + multiset(t)[x];
      } else {
        assert Filter(s, p) == t;
      }
    }
  }

  /** `FilterMultiplicity` for every value that passes at once. */
  lemma FilterKeepsCopies<T(!new)>(s: seq<T>, p: T -> bool)
    ensures forall x :: p(x) ==> multiset(Filter(s, p))[x] == multiset(s)[x]
  {
    forall x | p(x) ensures multiset(Filter(s, p))[x] == multiset(s)[x] {
      FilterMultiplicity(s, p, x);
    }
  }

  /** The indices of `s` whose element passes `p`. */
  ghost function PassingIndices<T>(s: seq<T>, p: T -> bool): (r: set<int>)
    ensures forall i :: i in r <==> 0 <= i < |s| && p(s[i])
    decreases |s|
  {
    if |s| == 0 then {}
    else
      var n := |s| - 1;
      var before := PassingIndices(s[..n], p);
      assert forall i :: 0 <= i < n ==> s[..n][i] == s[i];
      before + if p(s[n]) then {n} else {}
  }

  /** A filter keeps as many elements as there are indices whose element
      passes the test. */
  lemma {:induction false} FilterCountsIndices<T(!new)>(s: seq<T>, p: T -> bool)
    ensures |Filter(s, p)| == |PassingIndices(s, p)|
    decreases |s|
  {
    if |s| > 0 {
      var n := |s| - 1;
      FilterCountsIndices(s[..n], p);
      FilterDropLast(s, p);
      PassingIndicesDropLast(s, p);
    } else {
      assert Filter(s, p) == [];
      assert PassingIndices(s, p) == {};
    }
  }

  /** The passing indices, one last element at a time. */
  lemma PassingIndicesDropLast<T>(s: seq<T>, p: T -> bool)
    requires |s| > 0
    ensures |PassingIndices(s, p)| == |PassingIndices(s[..|s| - 1], p)| + if p(s[|s| - 1]) then 1 else 0
  {
    var n := |s| - 1;
    var before := PassingIndices(s[..n], p);
    assert n !in before;
    assert PassingIndices(s, p) == before + if p(s[n]) then {n} else {};
  }

  /** Filtering a list with one more element at the end. */
  lemma FilterSnoc<T(!new)>(s: seq<T>, x: T, p: T -> bool)
    ensures Filter(s + [x], p) == Filter(s, p) + if p(x) then [x] else []
  {
    FilterAppend(s, [x], p);
    assert [x][1..] == [];
  }

  /** The length of a filter, one last element at a time. */
  lemma FilterDropLast<T(!new)>(s: seq<T>, p: T -> bool)
    requires |s| > 0
    ensures |Filter(s, p)| == |Filter(s[..|s| - 1], p)| + if p(s[|s| - 1]) then 1 else 0
  {
    var n := |s| - 1;
    assert s == s[..n] + [s[n]];
    FilterSnoc(s[..n], s[n], p);
  }

  /** Two filters in a row are one filter by both tests. */
  lemma {:induction false} FilterFilter<T(!new)>(s: seq<T>, p: T -> bool, q: T -> bool, both: T -> bool)
    requires forall x :: both(x) == (p(x) && q(x))
    ensures Filter(Filter(s, p), q) == Filter(s, both)
    decreases |s|
  {
    if |s| > 0 {
      FilterFilter(s[1..], p, q, both);
      if p(s[0]) {
        assert Filter(s, p) == [s[0]] + Filter(s[1..], p);
        assert ([s[0]] + Filter(s[1..], p))[1..] == Filter(s[1..], p);
      }
    }
  }

  /** A filter that nothing passes is empty. */
  lemma {:induction false} FilterDropsAll<T(!new)>(s: seq<T>, p: T -> bool)
    requires forall i :: 0 <= i < |s| ==> !p(s[i])
    ensures Filter(s, p) == []
    decreases |s|
  {
    if |s| > 0 {
      FilterDropsAll(s[1..], p);
    }
  }

  /** A filter drops something exactly when some element fails the test. */
  lemma {:induction false} FilterShrinksIff<T(!new)>(s: seq<T>, p: T -> bool)
    ensures |Filter(s, p)| < |s| <==> exists i :: 0 <= i < |s| && !p(s[i])
    decreases |s|
  {
    if |s| > 0 {
      FilterShrinksIff(s[1..], p);
      if !p(s[0]) {
        assert !p(s[0]);
      } else if exists i :: 0 <= i < |s| && !p(s[i]) {
        var i :| 0 <= i < |s| && !p(s[i]);
        assert s[1..][i - 1] == s[i];
      } else {
        assert forall i :: 0 <= i < |s[1..]| ==> p(s[1..][i]) by {
          forall i | 0 <= i < |s[1..]| ensures p(s[1..][i]) {
            assert s[1..][i] == s[i + 1];
          }
        }
      }
    }
  }

  /** A weaker test keeps a superset, in the same order. */
  lemma {:induction false} FilterMonotone<T(!new)>(s: seq<T>, p: T -> bool, q: T -> bool)
    requires forall x :: p(x) ==> q(x)
    ensures SubseqOf(Filter(s, p), Filter(s, q))
    decreases |s|
  {
    if |s| > 0 {
      FilterMonotone(s[1..], p, q);
      var a := Filter(s[1..], p);
      var b := Filter(s[1..], q);
      if p(s[0]) {
        assert Filter(s, p) == [s[0]] + a;
        assert Filter(s, q) == [s[0]] + b;
        assert ([s[0]] + a)[1..] == a;
        assert ([s[0]] + b)[1..] == b;
      } else if q(s[0]) {
        assert Filter(s, p) == a;
        assert Filter(s, q) == [s[0]] + b;
        assert ([s[0]] + b)[1..] == b;
        SubseqDropHead(a, b, s[0]);
      } else {
        assert Filter(s, p) == a;
        assert Filter(s, q) == b;
      }
    }
  }

  /** Prepending to the longer sequence keeps a subsequence a subsequence. */
  lemma {:induction false} SubseqDropHead<T>(a: seq<T>, b: seq<T>, x: T)
    requires SubseqOf(a, b)
    ensures SubseqOf(a, [x] + b)
    decreases |b|, 1
  {
    assert ([x] + b)[1..] == b;
    if |a| > 0 && a[0] == x {
      // the greedy match uses x; a[1..] still fits into b
      SubseqTail(a, b);
    }
  }

  /** Dropping the head of a non-empty subsequence keeps the rest inside. */
  lemma {:induction false} SubseqTail<T>(a: seq<T>, b: seq<T>)
    requires |a| > 0 && SubseqOf(a, b)
    ensures SubseqOf(a[1..], b)
    decreases |b|, 0
  {
    if a[0] == b[0] {
      SubseqDropHead(a[1..], b[1..], b[0]);
      assert [b[0]] + b[1..] == b;
    } else {
      SubseqTail(a, b[1..]);
      SubseqDropHead(a[1..], b[1..], b[0]);
      assert [b[0]] + b[1..] == b;
    }
  }

  /** Being a subsequence is transitive. */
  lemma {:induction false} SubseqTrans<T>(a: seq<T>, b: seq<T>, c: seq<T>)
    requires SubseqOf(a, b) && SubseqOf(b, c)
    ensures SubseqOf(a, c)
    decreases |c|
  {
    if |a| > 0 {
      if b[0] == c[0] {
        if a[0] == b[0] {
          SubseqTrans(a[1..], b[1..], c[1..]);
        } else {
          SubseqTrans(a, b[1..], c[1..]);
        }
      } else {
        SubseqTrans(a, b, c[1..]);
        if a[0] == c[0] {
          SubseqTail(a, c[1..]);
        }
      }
    }
  }

  /** A prefix of a subsequence is a subsequence. */
  lemma {:induction false} SubseqPrefix<T>(a: seq<T>, b: seq<T>, c: seq<T>)
    requires a <= b && SubseqOf(b, c)
    ensures SubseqOf(a, c)
    decreases |c|
  {
    if |a| > 0 {
      if b[0] == c[0] {
        SubseqPrefix(a[1..], b[1..], c[1..]);
      } else {
        SubseqPrefix(a, b, c[1..]);
      }
    }
  }

  /** Splitting a list by a test and its negation loses and invents nothing. */
  lemma {:induction false} FilterPartition<T(!new)>(s: seq<T>, p: T -> bool, q: T -> bool)
    requires forall x :: q(x) == !p(x)
    ensures |Filter(s, p)| + |Filter(s, q)| == |s|
    decreases |s|
  {
    if |s| > 0 {
      FilterPartition(s[1..], p, q);
    }
  }

  /** Filters with tests that agree on every value agree. */
  lemma {:induction false} FilterExt<T(!new)>(s: seq<T>, p: T -> bool, q: T -> bool)
    requires forall x :: p(x) == q(x)
    ensures Filter(s, p) == Filter(s, q)
    decreases |s|
  {
    if |s| > 0 {
      FilterExt(s[1..], p, q);
    }
  }

  /** A subsequence passes no more elements through a filter than the
      sequence it is drawn from. */
  lemma {:induction false} FilterCountSubseq<T(!new)>(a: seq<T>, b: seq<T>, p: T -> bool)
    requires SubseqOf(a, b)
    ensures |Filter(a, p)| <= |Filter(b, p)|
    decreases |b|
  {
    if |a| > 0 {
      if a[0] == b[0] {
        FilterCountSubseq(a[1..], b[1..], p);
      } else {
        FilterCountSubseq(a, b[1..], p);
      }
    }
  }

  /** If `b` passes the test only where `a` does, `b` passes no more often. */
  lemma {:induction false} FilterCountPointwise<T(!new)>(a: seq<T>, b: seq<T>, p: T -> bool)
    requires |a| == |b|
    requires forall i :: 0 <= i < |b| && p(b[i]) ==> p(a[i])
    ensures |Filter(b, p)| <= |Filter(a, p)|
    decreases |a|
  {
    if |a| > 0 {
      assert forall i :: 0 <= i < |b| - 1 && p(b[1..][i]) ==> p(a[1..][i]) by {
        forall i | 0 <= i < |b| - 1 && p(b[1..][i]) ensures p(a[1..][i]) {
          assert b[1..][i] == b[i + 1] && a[1..][i] == a[i + 1];
        }
      }
      FilterCountPointwise(a[1..], b[1..], p);
    }
  }

  // ---------------------------------------------------------------------
  // Decimal digit strings (`String(n)` for a non-negative integer)
  // ---------------------------------------------------------------------

  predicate IsDigit(c: char) { '0' <= c <= '9' }

  predicate AllDigits(s: string) {
    forall i :: 0 <= i < |s| ==> IsDigit(s[i])
  }

  function DigitChar(d: nat): (c: char)
    requires d < 10
    ensures IsDigit(c)
  {
    ('0' as int + d) as char
  }

  function DigitValue(c: char): (d: nat)
    requires IsDigit(c)
    ensures d < 10
  {
    c as int - '0' as int
  }

  /** The decimal spelling of `n`, without leading zeros. */
  function NatToString(n: nat): (r: string)
    ensures |r| >= 1 && AllDigits(r)
    ensures r[0] == '0' ==> n == 0 && |r| == 1
    decreases n
  {
    if n < 10 then [DigitChar(n)]
    else NatToString(n / 10) + [DigitChar(n % 10)]
  }

  /** The value of a string of decimal digits (empty reads as 0). */
  function DigitsValue(s: string): nat
    requires AllDigits(s)
    decreases |s|
  {
    if |s| == 0 then 0
    else DigitsValue(s[..|s| - 1]) * 10 + DigitValue(s[|s| - 1])
  }

  lemma {:induction false} NatToStringRoundTrip(n: nat)
    ensures DigitsValue(NatToString(n)) == n
    decreases n
  {
    if n >= 10 {
      var front := NatToString(n / 10);
      var s := front + [DigitChar(n % 10)];
      assert s[..|s| - 1] == front;
      NatToStringRoundTrip(n / 10);
    }
  }

  lemma NatToStringInjective(a: nat, b: nat)
    ensures NatToString(a) == NatToString(b) <==> a == b
  {
    NatToStringRoundTrip(a);
    NatToStringRoundTrip(b);
  }

  /** `String(i)` for any integer. */
  function IntToString(i: int): (r: string)
    ensures |r| >= 1
    ensures i >= 0 ==> AllDigits(r)
    ensures i < 0 ==> r[0] == '-' && AllDigits(r[1..])
  {
    if i < 0 then "-" + NatToString(-i) else NatToString(i)
  }

  // ---------------------------------------------------------------------
  // Keyed tallies: `data.reduce((acc, x) => { acc[k] = (acc[k] || 0) + w; ... }, {})`
  // ---------------------------------------------------------------------

  function Accumulate<K(==,!new)>(entries: seq<(K, int)>): (m: map<K, int>)
    ensures forall k :: k in m <==> exists i :: 0 <= i < |entries| && entries[i].0 == k
    ensures forall k :: k in m ==> m[k] == KeyWeight(entries, k)
    decreases |entries|
  {
    if |entries| == 0 then map[]
    else
      var prev := Accumulate(entries[..|entries| - 1]);
      var last := entries[|entries| - 1];
      assert forall i :: 0 <= i < |entries| - 1 ==> entries[..|entries| - 1][i] == entries[i];
      assert forall k :: k !in prev ==> KeyWeight(entries[..|entries| - 1], k) == 0 by {
        forall k | k !in prev ensures KeyWeight(entries[..|entries| - 1], k) == 0 {
          AbsentKeyWeighsNothing(entries[..|entries| - 1], k);
        }
      }
      Bump(prev, last.0, last.1)
  }

  /** The total weight of the entries with key `k`. */
  ghost function KeyWeight<K>(entries: seq<(K, int)>, k: K): int
    decreases |entries|
  {
    if |entries| == 0 then 0
    else
      var last := entries[|entries| - 1];
      KeyWeight(entries[..|entries| - 1], k) + (if last.0 == k then last.1 else 0)
  }

  lemma {:induction false} AbsentKeyWeighsNothing<K>(entries: seq<(K, int)>, k: K)
    requires forall i :: 0 <= i < |entries| ==> entries[i].0 != k
    ensures KeyWeight(entries, k) == 0
    decreases |entries|
  {
    if |entries| > 0 {
      var front := entries[..|entries| - 1];
      assert forall i :: 0 <= i < |front| ==> front[i] == entries[i];
      AbsentKeyWeighsNothing(front, k);
    }
  }

  /** `acc[k] = (acc[k] || 0) + w`. */
  function Bump<K>(m: map<K, int>, k: K, w: int): map<K, int> {
    m[k := (if k in m then m[k] else 0) + w]
  }

  ghost function WeightTotal<K>(entries: seq<(K, int)>): int
    decreases |entries|
  {
    if |entries| == 0 then 0
    else WeightTotal(entries[..|entries| - 1]) + entries[|entries| - 1].1
  }

  /** Some key of a non-empty map, chosen once and for all. */
  ghost function PickKey<K>(m: map<K, int>): (k: K)
    requires |m| > 0
    ensures k in m
  {
    var k :| k in m; k
  }

  ghost function MapSum<K>(m: map<K, int>): int
    decreases |m|
  {
    if |m| == 0 then 0
    else
      var k := PickKey(m);
      assert |m - {k}| < |m| by { MapRemoveSize(m, k); }
      m[k] + MapSum(m - {k})
  }

  lemma MapRemoveSize<K>(m: map<K, int>, k: K)
    requires k in m
    ensures |m - {k}| == |m| - 1
  {
    assert (m - {k}).Keys == m.Keys - {k};
  }

  /** The sum of a map's values does not depend on the order keys are visited. */
  lemma {:induction false} MapSumRemove<K>(m: map<K, int>, k: K)
    requires k in m
    ensures MapSum(m) == m[k] + MapSum(m - {k})
    decreases |m|
  {
    MapRemoveSize(m, k);
    var j := PickKey(m);
    if j != k {
      MapRemoveSize(m, j);
      MapSumRemove(m - {j}, k);
      MapSumRemove(m - {k}, j);
      assert m - {j} - {k} == m - {k} - {j};
    }
  }

  lemma MapSumBump<K>(m: map<K, int>, k: K, w: int)
    ensures MapSum(Bump(m, k, w)) == MapSum(m) + w
  {
    var m' := Bump(m, k, w);
    MapSumRemove(m', k);
    BumpElsewhere(m, k, w);
    if k in m {
      MapSumRemove(m, k);
    } else {
      RemoveAbsent(m, k);
    }
  }

  lemma BumpElsewhere<K>(m: map<K, int>, k: K, w: int)
    ensures Bump(m, k, w) - {k} == m - {k}
  {
  }

  lemma RemoveAbsent<K>(m: map<K, int>, k: K)
    requires k !in m
    ensures m - {k} == m
  {
  }

  /** The tallies add up to the total weight of the entries. */
  lemma {:induction false} AccumulateSum<K(!new)>(entries: seq<(K, int)>)
    ensures MapSum(Accumulate(entries)) == WeightTotal(entries)
    decreases |entries|
  {
    if |entries| > 0 {
      var front := entries[..|entries| - 1];
      AccumulateSum(front);
      var last := entries[|entries| - 1];
      MapSumBump(Accumulate(front), last.0, last.1);
    }
  }

  /** Occurrence counts: every entry weighs 1. */
  function Tally<K(==,!new)>(keys: seq<K>): (m: map<K, int>)
    ensures forall k :: k in m <==> k in keys
    ensures forall k :: k in m ==> m[k] == multiset(keys)[k]
  {
    var entries := seq(|keys|, i requires 0 <= i < |keys| => (keys[i], 1));
    var m := Accumulate(entries);
    forall k
      ensures k in m <==> k in keys
    {
      if k in keys {
        var i :| 0 <= i < |keys| && keys[i] == k;
        assert entries[i].0 == k;
      }
      if k in m {
        var i :| 0 <= i < |entries| && entries[i].0 == k;
        assert keys[i] == k;
      }
    }
    forall k | k in m ensures m[k] == multiset(keys)[k] {
      UnitKeyWeight(keys, k);
    }
    m
  }

  /** With unit weights, a key weighs as many times as it occurs. */
  lemma {:induction false} UnitKeyWeight<K>(keys: seq<K>, k: K)
    ensures KeyWeight(seq(|keys|, i requires 0 <= i < |keys| => (keys[i], 1)), k) == multiset(keys)[k]
    decreases |keys|
  {
    if |keys| > 0 {
      var e := seq(|keys|, i requires 0 <= i < |keys| => (keys[i], 1));
      var front := keys[..|keys| - 1];
      assert e[..|e| - 1] == seq(|front|, i requires 0 <= i < |front| => (front[i], 1));
      UnitKeyWeight(front, k);
      assert keys == front + [keys[|keys| - 1]];
    }
  }

  lemma {:induction false} UnitWeightTotal<K>(keys: seq<K>)
    ensures WeightTotal(seq(|keys|, i requires 0 <= i < |keys| => (keys[i], 1))) == |keys|
    decreases |keys|
  {
    if |keys| > 0 {
      var e := seq(|keys|, i requires 0 <= i < |keys| => (keys[i], 1));
      var front := keys[..|keys| - 1];
      assert e[..|e| - 1] == seq(|front|, i requires 0 <= i < |front| => (front[i], 1));
      UnitWeightTotal(front);
    }
  }

  /** The occurrence counts sum to the number of keys tallied. */
  lemma TallySum<K(!new)>(keys: seq<K>)
    ensures MapSum(Tally(keys)) == |keys|
  {
    AccumulateSum(seq(|keys|, i requires 0 <= i < |keys| => (keys[i], 1)));
    UnitWeightTotal(keys);
  }

  // ---------------------------------------------------------------------
  // String helpers of the runtime
  // ---------------------------------------------------------------------

  /** The characters `String.prototype.trim` strips: WhiteSpace and
      LineTerminator of ECMA-262. */
  predicate IsJsWhitespace(c: char) {
    c == '\t' || c == '\n' || c == '\U{B}' || c == '\U{C}' || c == '\r' || c == ' '
    || c == '\U{A0}' || c == '\U{1680}' || ('\U{2000}' <= c <= '\U{200A}')
    || c == '\U{2028}' || c == '\U{2029}' || c == '\U{202F}' || c == '\U{205F}'
    || c == '\U{3000}' || c == '\U{FEFF}'
  }

  predicate Blank(s: string) {
    forall i :: 0 <= i < |s| ==> IsJsWhitespace(s[i])
  }

  function TrimStart(s: string): (r: string)
    ensures |r| <= |s| && r == s[|s| - |r|..]
    ensures Blank(s[..|s| - |r|])
    ensures |r| > 0 ==> !IsJsWhitespace(r[0])
    decreases |s|
  {
    if |s| > 0 && IsJsWhitespace(s[0]) then TrimStart(s[1..]) else s
  }

  function TrimEnd(s: string): (r: string)
    ensures r <= s
    ensures Blank(s[|r|..])
    ensures |r| > 0 ==> !IsJsWhitespace(r[|r| - 1])
    decreases |s|
  {
    if |s| > 0 && IsJsWhitespace(s[|s| - 1]) then TrimEnd(s[..|s| - 1]) else s
  }

  /** `s.trim()`. */
  function Trim(s: string): string {
    TrimEnd(TrimStart(s))
  }

  /** Trimming leaves nothing exactly when the string is all whitespace. */
  lemma TrimEmptyIffBlank(s: string)
    ensures Trim(s) == "" <==> Blank(s)
  {
    var t := TrimStart(s);
    if Trim(s) == "" {
      assert Blank(t[0..]);
      assert s == s[..|s| - |t|] + t;
    }
    if Blank(s) {
      BlankTrimStart(s);
    }
  }

  lemma {:induction false} BlankTrimStart(s: string)
    requires Blank(s)
    ensures TrimStart(s) == ""
    decreases |s|
  {
    if |s| > 0 {
      BlankTrimStart(s[1..]);
    }
  }

  /** ASCII case mapping (letters outside A-Z / a-z are left alone). */
  function ToLowerChar(c: char): char {
    if 'A' <= c <= 'Z' then (c as int + 32) as char else c
  }

  function ToUpperChar(c: char): char {
    if 'a' <= c <= 'z' then (c as int - 32) as char else c
  }

  function ToLower(s: string): (r: string)
    ensures |r| == |s|
    ensures forall i :: 0 <= i < |s| ==> r[i] == ToLowerChar(s[i])
  {
    seq(|s|, i requires 0 <= i < |s| => ToLowerChar(s[i]))
  }

  /** `needle` occurs in `hay` starting at index `i`. */
  ghost predicate MatchAt(hay: string, needle: string, i: int) {
    0 <= i && i + |needle| <= |hay| && hay[i..i + |needle|] == needle
  }

  /** `hay.includes(needle)`, by scanning every start position. */
  function Contains(hay: string, needle: string): (b: bool)
    ensures b <==> exists i :: MatchAt(hay, needle, i)
    decreases |hay|
  {
    if |needle| <= |hay| && hay[..|needle|] == needle then
      assert MatchAt(hay, needle, 0);
      true
    else if |hay| == 0 then false
    else
      MatchShift(hay, needle);
      Contains(hay[1..], needle)
  }

  /** Without a match at the start, a match in `hay` is a match in its tail. */
  lemma MatchShift(hay: string, needle: string)
    requires |hay| > 0 && !MatchAt(hay, needle, 0)
    ensures (exists i :: MatchAt(hay, needle, i)) <==> (exists j :: MatchAt(hay[1..], needle, j))
  {
    if exists j :: MatchAt(hay[1..], needle, j) {
      var j :| MatchAt(hay[1..], needle, j);
      assert hay[j + 1..j + 1 + |needle|] == hay[1..][j..j + |needle|];
      assert MatchAt(hay, needle, j + 1);
    }
    if exists i :: MatchAt(hay, needle, i) {
      var i :| MatchAt(hay, needle, i);
      assert hay[i..i + |needle|] == hay[1..][i - 1..i - 1 + |needle|];
      assert MatchAt(hay[1..], needle, i - 1);
    }
  }

  /** `s.split(sep)[0]`: the text before the first `sep`, or all of `s`. */
  function BeforeFirst(s: string, sep: char): (r: string)
    ensures r <= s
    ensures sep !in r
    ensures |r| < |s| ==> s[|r|] == sep
    decreases |s|
  {
    if |s| == 0 || s[0] == sep then "" else [s[0]] + BeforeFirst(s[1..], sep)
  }

  /** `parts.join(sep)`. */
  function Join(parts: seq<string>, sep: string): string
    decreases |parts|
  {
    if |parts| == 0 then ""
    else if |parts| == 1 then parts[0]
    else parts[0] + sep + Join(parts[1..], sep)
  }

  /** A character absent from the separator and from every part is absent
      from the joined text. */
  lemma {:induction false} JoinAvoids(parts: seq<string>, sep: string, c: char)
    requires c !in sep
    requires forall i :: 0 <= i < |parts| ==> c !in parts[i]
    ensures c !in Join(parts, sep)
    decreases |parts|
  {
    if |parts| > 1 {
      JoinAvoids(parts[1..], sep, c);
    }
  }

  /** `s.split(sep)` for a one-character separator. */
  function SplitOn(s: string, sep: char): (r: seq<string>)
    ensures |r| >= 1
    ensures r[0] == BeforeFirst(s, sep)
    decreases |s|
  {
    var head := BeforeFirst(s, sep);
    if |head| == |s| then [s] else [head] + SplitOn(s[|head| + 1..], sep)
  }

  lemma {:induction false} BeforeFirstAppend(a: string, b: string, sep: char)
    requires sep !in a
    ensures BeforeFirst(a + b, sep) == a + BeforeFirst(b, sep)
    decreases |a|
  {
    if |a| > 0 {
      assert a[0] in a;
      assert (a + b)[0] == a[0];
      assert (a + b)[1..] == a[1..] + b;
      BeforeFirstAppend(a[1..], b, sep);
      assert [a[0]] + a[1..] == a;
    } else {
      assert a + b == b;
    }
  }

  /** Splitting what was joined by a separator no part contains gives the
      parts back. */
  lemma {:induction false} SplitJoin(parts: seq<string>, sep: char)
    requires |parts| >= 1
    requires forall i :: 0 <= i < |parts| ==> sep !in parts[i]
    ensures SplitOn(Join(parts, [sep]), sep) == parts
    decreases |parts|
  {
    if |parts| == 1 {
      BeforeFirstAppend(parts[0], "", sep);
      assert parts[0] + "" == parts[0];
    } else {
      var rest := Join(parts[1..], [sep]);
      var s := parts[0] + [sep] + rest;
      assert s == parts[0] + ([sep] + rest);
      BeforeFirstAppend(parts[0], [sep] + rest, sep);
      assert parts[0] + "" == parts[0];
      assert s[|parts[0]| + 1..] == rest;
      SplitJoin(parts[1..], sep);
      assert [parts[0]] + parts[1..] == parts;
    }
  }

  function CountChar(s: string, c: char): nat
    decreases |s|
  {
    if |s| == 0 then 0 else (if s[0] == c then 1 else 0) + CountChar(s[1..], c)
  }

  lemma {:induction false} CountCharConcat(a: string, b: string, c: char)
    ensures CountChar(a + b, c) == CountChar(a, c) + CountChar(b, c)
    decreases |a|
  {
    if |a| > 0 {
      assert (a + b)[1..] == a[1..] + b;
      CountCharConcat(a[1..], b, c);
    } else {
      assert a + b == b;
    }
  }

  lemma {:induction false} CountCharAbsent(s: string, c: char)
    requires c !in s
    ensures CountChar(s, c) == 0
    decreases |s|
  {
    if |s| > 0 {
      CountCharAbsent(s[1..], c);
    }
  }
}

/** The array built-ins the application uses: `filter`, index-wise `map` and removal, sums. */
module Seqs {

  /** `s.filter(keep)`: the kept elements, in their original order. */
  function Filter<T>(s: seq<T>, keep: T -> bool): (r: seq<T>)
    ensures |r| <= |s|
    ensures forall i :: 0 <= i < |r| ==> keep(r[i])
  {
    if s == [] then [] else (if keep(s[0]) then [s[0]] else []) + Filter(s[1..], keep)
  }

  /** Filtering a concatenation filters each part. */
  lemma {:induction false} FilterConcat<T>(a: seq<T>, b: seq<T>, keep: T -> bool)
    ensures Filter(a + b, keep) == Filter(a, keep) + Filter(b, keep)
  {
    if a == [] {
      assert a + b == b;
    } else {
      assert (a + b)[0] == a[0] && (a + b)[1..] == a[1..] + b;
      FilterConcat(a[1..], b, keep);
    }
  }

  /** An element occurs in the result as often as in the input when kept, never otherwise. */
  lemma {:induction false} FilterCount<T>(s: seq<T>, keep: T -> bool, x: T)
    ensures multiset(Filter(s, keep))[x] == if keep(x) then multiset(s)[x] else 0
  {
    if s != [] {
      FilterCount(s[1..], keep, x);
      assert s == [s[0]] + s[1..];
    }
  }

  /** A sequence whose every element is kept filters to itself; so filtering twice is filtering once. */
  lemma {:induction false} FilterAllKept<T>(s: seq<T>, keep: T -> bool)
    requires forall i :: 0 <= i < |s| ==> keep(s[i])
    ensures Filter(s, keep) == s
  {
    if s != [] {
      FilterAllKept(s[1..], keep);
    }
  }

  lemma FilterIdempotent<T>(s: seq<T>, keep: T -> bool)
    ensures Filter(Filter(s, keep), keep) == Filter(s, keep)
  {
    FilterAllKept(Filter(s, keep), keep);
  }

  /** `s.map((x, j) => j === i ? v : x)`: index `i` replaced, nothing else changed. */
  function SetAt<T>(s: seq<T>, i: int, v: T): (r: seq<T>)
    ensures |r| == |s|
    ensures forall j :: 0 <= j < |s| ==> r[j] == if j == i then v else s[j]
  {
    if 0 <= i < |s| then s[i := v] else s
  }

  /** `s.filter((_, j) => j !== i)`: index `i` dropped, the others kept in order. */
  function RemoveAt<T>(s: seq<T>, i: int): (r: seq<T>)
    ensures |r| == if 0 <= i < |s| then |s| - 1 else |s|
    ensures forall j :: 0 <= j < |r| ==> r[j] == if 0 <= i <= j then s[j + 1] else s[j]
  {
    if 0 <= i < |s| then s[..i] + s[i + 1..] else s
  }

  /** The sum of a sequence of counts. */
  function Sum(s: seq<int>): int {
    if s == [] then 0 else s[0] + Sum(s[1..])
  }

  lemma {:induction false} SumConcat(a: seq<int>, b: seq<int>)
    ensures Sum(a + b) == Sum(a) + Sum(b)
  {
    if a == [] {
      assert a + b == b;
    } else {
      assert (a + b)[0] == a[0] && (a + b)[1..] == a[1..] + b;
      SumConcat(a[1..], b);
    }
  }

  /** A count among non-negative counts is at most their sum. */
  lemma {:induction false} SumBound(s: seq<int>, i: nat)
    requires i < |s| && forall k :: 0 <= k < |s| ==> s[k] >= 0
    ensures 0 <= s[i] <= Sum(s)
  {
    if i == 0 {
      SumNonNegative(s[1..]);
    } else {
      SumBound(s[1..], i - 1);
    }
  }

  lemma {:induction false} SumNonNegative(s: seq<int>)
    requires forall k :: 0 <= k < |s| ==> s[k] >= 0
    ensures Sum(s) >= 0
  {
    if s != [] {
      SumNonNegative(s[1..]);
    }
  }

  /** Incrementing one slot raises the sum by one. */
  lemma {:induction false} SumIncrement(s: seq<int>, i: nat)
    requires i < |s|
    ensures Sum(s[i := s[i] + 1]) == Sum(s) + 1
  {
    if i == 0 {
      assert s[i := s[i] + 1][1..] == s[1..];
    } else {
      assert s[i := s[i] + 1][1..] == s[1..][i - 1 := s[i] + 1];
      SumIncrement(s[1..], i - 1);
    }
  }

  /** `Array(n).fill(0)`. */
  function Zeros(n: nat): (r: seq<int>)
    ensures |r| == n && forall i :: 0 <= i < n ==> r[i] == 0
  {
    seq(n, _ => 0)
  }

  lemma {:induction false} SumZeros(n: nat)
    ensures Sum(Zeros(n)) == 0
  {
    if n > 0 {
      assert Zeros(n)[1..] == Zeros(n - 1);
      SumZeros(n - 1);
    }
  }

  /** How many times `x` occurs in `s`. */
  function Count<T(==)>(s: seq<T>, x: T): (c: nat)
    ensures c == multiset(s)[x]
  {
    if s == [] then 0
    else
      assert s == [s[0]] + s[1..];
      (if s[0] == x then 1 else 0) + Count(s[1..], x)
  }

  /** A non-empty set of integers has a least element. */
  lemma {:induction false} LeastKey(ks: set<int>) returns (k: int)
    requires ks != {}
    ensures k in ks && forall j :: j in ks ==> k <= j
    decreases |ks|
  {
    if forall y :: y !in ks {
      assert false;
    }
    var x :| x in ks;
    if ks == {x} {
      k := x;
    } else {
      var rest := ks - {x};
      var m := LeastKey(rest);
      k := if x < m then x else m;
      forall j | j in ks
        ensures k <= j
      {
        if j != x {
          assert j in rest;
        }
      }
    }
  }

  lemma LeastKeyExists(ks: set<int>)
    requires ks != {}
    ensures exists k :: k in ks && forall j :: j in ks ==> k <= j
  {
    var k := LeastKey(ks);
  }

  /** The integers of a set in ascending order. */
  function SortedKeys(ks: set<int>): (r: seq<int>)
    ensures forall k :: k in ks <==> k in r
    ensures forall i, j :: 0 <= i < j < |r| ==> r[i] < r[j]
    decreases |ks|
  {
    if ks == {} then []
    else
      LeastKeyExists(ks);
      var k :| k in ks && forall j :: j in ks ==> k <= j;
      var rest := SortedKeys(ks - {k});
      LeastBeforeRest(ks, k, rest);
      [k] + rest
  }

  /** The least key followed by the others in ascending order lists the set in ascending order. */
  lemma LeastBeforeRest(ks: set<int>, k: int, rest: seq<int>)
    requires k in ks && forall j :: j in ks ==> k <= j
    requires forall x :: x in ks - {k} <==> x in rest
    requires forall i, j :: 0 <= i < j < |rest| ==> rest[i] < rest[j]
    ensures forall x :: x in ks <==> x in [k] + rest
    ensures forall i, j :: 0 <= i < j < |[k] + rest| ==> ([k] + rest)[i] < ([k] + rest)[j]
  {
    var r := [k] + rest;
    forall i, j | 0 <= i < j < |r|
      ensures r[i] < r[j]
    {
      assert r[j] == rest[j - 1] && r[j] in ks - {k};
      if i > 0 {
        assert r[i] == rest[i - 1];
      }
    }
  }

}

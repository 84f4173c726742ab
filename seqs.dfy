/**
 * Order-preserving filtering, the one sequence operation the workflow code uses everywhere
 * (`Array.prototype.filter`), with the facts about it that the other modules rely on.
 */
module Seqs {
  import opened Wrappers

  /** `sub` is obtained from `s` by deleting zero or more elements and keeping the order of the rest. */
  ghost predicate IsSubsequence<T>(sub: seq<T>, s: seq<T>)
    decreases |s|
  {
    if sub == [] then true
    else if s == [] then false
    else if sub[0] == s[0] then IsSubsequence(sub[1..], s[1..])
    else IsSubsequence(sub, s[1..])
  }

  /**
   * The elements of `s` that satisfy `p`, in their original order: every kept element satisfies `p`
   * and comes from `s`, and every element of `s` that satisfies `p` is kept. `FilterIsSubsequence` and
   * `FilterMultiplicity` complete the picture (order and multiplicities).
   */
  function Filter<T>(p: T -> bool, s: seq<T>): (r: seq<T>)
    ensures |r| <= |s|
    ensures forall i :: 0 <= i < |r| ==> p(r[i]) && r[i] in s
    ensures forall i :: 0 <= i < |s| && p(s[i]) ==> s[i] in r
  {
    if s == [] then []
    else if p(s[0]) then [s[0]] + Filter(p, s[1..])
    else Filter(p, s[1..])
  }

  /** The filtered sequence keeps the order of `s`. */
  lemma {:induction false} FilterIsSubsequence<T>(p: T -> bool, s: seq<T>)
    ensures IsSubsequence(Filter(p, s), s)
  {
    if s != [] {
      FilterIsSubsequence(p, s[1..]);
      var rest := Filter(p, s[1..]);
      if p(s[0]) {
        assert ([s[0]] + rest)[1..] == rest;
      }
    }
  }

  /** An element that satisfies `p` is kept exactly as often as it occurs in `s`; any other is dropped. */
  lemma {:induction false} FilterMultiplicity<T>(p: T -> bool, s: seq<T>, x: T)
    ensures multiset(Filter(p, s))[x] == if p(x) then multiset(s)[x] else 0
  {
    if s != [] {
      FilterMultiplicity(p, s[1..], x);
      assert s == [s[0]] + s[1..];
      assert multiset(s) == multiset{s[0]} + multiset(s[1..]);
      if p(s[0]) {
        assert multiset(Filter(p, s)) == multiset{s[0]} + multiset(Filter(p, s[1..]));
      }
    }
  }

  /** `FilterMultiplicity` for every value at once. */
  lemma FilterMultiplicities<T>(p: T -> bool, s: seq<T>)
    ensures forall x :: multiset(Filter(p, s))[x] == if p(x) then multiset(s)[x] else 0
  {
    forall x {
      FilterMultiplicity(p, s, x);
    }
  }

  /** The number of elements of `s` that satisfy `p`. */
  function Count<T>(p: T -> bool, s: seq<T>): nat {
    |Filter(p, s)|
  }

  /** The positions of `s` whose element satisfies `p`. */
  ghost function Positions<T>(p: T -> bool, s: seq<T>): set<int> {
    set i | 0 <= i < |s| && p(s[i])
  }

  /** Counting by `p` gives the number of positions whose element satisfies `p`. */
  lemma {:induction false} CountIsPositions<T>(p: T -> bool, s: seq<T>)
    ensures Count(p, s) == |Positions(p, s)|
    decreases |s|
  {
    if s != [] {
      var t := s[..|s| - 1];
      var x := s[|s| - 1];
      assert s == t + [x];
      CountIsPositions(p, t);
      FilterSnoc(p, t, x);
      if p(x) {
        assert Positions(p, s) == Positions(p, t) + {|t|};
      } else {
        assert Positions(p, s) == Positions(p, t);
      }
    }
  }

  /** Filtering distributes over concatenation. */
  lemma {:induction false} FilterAppend<T>(p: T -> bool, a: seq<T>, b: seq<T>)
    ensures Filter(p, a + b) == Filter(p, a) + Filter(p, b)
  {
    if a == [] {
      assert a + b == b;
    } else {
      assert (a + b)[1..] == a[1..] + b;
      FilterAppend(p, a[1..], b);
    }
  }

  /** Filtering a sequence around one element: the parts before and after are filtered, the element is kept when it satisfies `p`. */
  lemma FilterAround<T>(p: T -> bool, before: seq<T>, x: T, after: seq<T>)
    ensures Filter(p, before + [x] + after) == Filter(p, before) + (if p(x) then [x] else []) + Filter(p, after)
  {
    FilterAppend(p, before + [x], after);
    FilterAppend(p, before, [x]);
    assert Filter(p, [x]) == if p(x) then [x] else [];
  }

  /** Appending one element adds it to the filtered sequence exactly when it satisfies `p`. */
  lemma FilterSnoc<T>(p: T -> bool, s: seq<T>, x: T)
    ensures Filter(p, s + [x]) == if p(x) then Filter(p, s) + [x] else Filter(p, s)
  {
    FilterAppend(p, s, [x]);
    assert Filter(p, [x]) == if p(x) then [x] else [];
  }

  /** When every element satisfies `p`, filtering keeps the whole sequence. */
  lemma {:induction false} FilterKeepsAll<T>(p: T -> bool, s: seq<T>)
    requires forall i :: 0 <= i < |s| ==> p(s[i])
    ensures Filter(p, s) == s
  {
    if s != [] {
      FilterKeepsAll(p, s[1..]);
    }
  }

  /** Two predicates that agree on the elements of `s` filter it alike. */
  lemma {:induction false} FilterAgree<T>(p: T -> bool, q: T -> bool, s: seq<T>)
    requires forall i :: 0 <= i < |s| ==> p(s[i]) == q(s[i])
    ensures Filter(p, s) == Filter(q, s)
  {
    if s != [] {
      FilterAgree(p, q, s[1..]);
    }
  }

  /** Counting by two disjoint predicates adds up to counting by their disjunction `pq`. */
  lemma {:induction false} CountDisjointUnion<T>(p: T -> bool, q: T -> bool, pq: T -> bool, s: seq<T>)
    requires forall i :: 0 <= i < |s| ==> pq(s[i]) == (p(s[i]) || q(s[i]))
    requires forall i :: 0 <= i < |s| ==> !(p(s[i]) && q(s[i]))
    ensures Count(pq, s) == Count(p, s) + Count(q, s)
  {
    if s != [] {
      CountDisjointUnion(p, q, pq, s[1..]);
    }
  }

  /** A predicate and its negation `q` split `s` into two parts whose counts add up to `|s|`. */
  lemma {:induction false} CountComplement<T>(p: T -> bool, q: T -> bool, s: seq<T>)
    requires forall i :: 0 <= i < |s| ==> q(s[i]) == !p(s[i])
    ensures Count(p, s) + Count(q, s) == |s|
  {
    if s != [] {
      CountComplement(p, q, s[1..]);
    }
  }

  /** Counting by a stronger predicate never gives more. */
  lemma {:induction false} CountMonotone<T>(p: T -> bool, q: T -> bool, s: seq<T>)
    requires forall i :: 0 <= i < |s| ==> p(s[i]) ==> q(s[i])
    ensures Count(p, s) <= Count(q, s)
  {
    if s != [] {
      CountMonotone(p, q, s[1..]);
    }
  }

  /**
   * `s.map(x => p(x) ? f(x) : x)`: the elements that satisfy `p` are replaced by their image under `f`,
   * all others stay as they are, in place.
   */
  function MapWhere<T>(p: T -> bool, f: T -> T, s: seq<T>): (r: seq<T>)
    ensures |r| == |s|
    ensures forall i :: 0 <= i < |s| ==> r[i] == if p(s[i]) then f(s[i]) else s[i]
  {
    if s == [] then [] else [if p(s[0]) then f(s[0]) else s[0]] + MapWhere(p, f, s[1..])
  }

  /** Position `i` holds the first element of `s` that satisfies `p`. */
  ghost predicate IsFirst<T>(p: T -> bool, s: seq<T>, i: int) {
    0 <= i < |s| && p(s[i]) && forall j :: 0 <= j < i ==> !p(s[j])
  }

  /** `s.find(p)`: the first element that satisfies `p`, or nothing when none does. */
  function Find<T>(p: T -> bool, s: seq<T>): (r: Option<T>)
    ensures r.None? <==> forall i :: 0 <= i < |s| ==> !p(s[i])
    ensures r.Some? ==> exists i :: IsFirst(p, s, i) && s[i] == r.value
  {
    if s == [] then None
    else if p(s[0]) then
      assert IsFirst(p, s, 0);
      Some(s[0])
    else
      assert forall i :: IsFirst(p, s[1..], i) ==> IsFirst(p, s, i + 1);
      Find(p, s[1..])
  }

  /** `Find` returns the element at the first position that satisfies `p`. */
  lemma {:induction false} FindAt<T>(p: T -> bool, s: seq<T>, i: int)
    requires IsFirst(p, s, i)
    ensures Find(p, s) == Some(s[i])
  {
    if i > 0 {
      assert !p(s[0]);
      assert IsFirst(p, s[1..], i - 1);
      FindAt(p, s[1..], i - 1);
    }
  }

  /** Filtering out the one element that fails `p` shortens the sequence by exactly one. */
  lemma {:induction false} FilterDropsOne<T>(p: T -> bool, s: seq<T>, k: int)
    requires 0 <= k < |s| && !p(s[k])
    requires forall i :: 0 <= i < |s| && i != k ==> p(s[i])
    ensures |Filter(p, s)| == |s| - 1
  {
    if k == 0 {
      FilterKeepsAll(p, s[1..]);
    } else {
      FilterDropsOne(p, s[1..], k - 1);
    }
  }
}

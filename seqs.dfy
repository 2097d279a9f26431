/** The array operations the engagement engine is built from: JavaScript's
    `filter`, a summing `reduce` and `join`, as functions over sequences,
    with the facts about them that the rest of the model relies on. */
module Seqs {

  /** `s.filter(p)`: the elements of `s` that satisfy `p`, in their original
      order. Defined from the back so that it follows the left-to-right walk
      of `filter`. */
  function Filter<T>(s: seq<T>, p: T -> bool): (r: seq<T>)
    ensures |r| <= |s|
  {
    if s == [] then []
    else
      var kept := Filter(s[..|s| - 1], p);
      if p(s[|s| - 1]) then kept + [s[|s| - 1]] else kept
  }

  /** `filter` keeps every occurrence of an element that satisfies `p` and
      drops every occurrence of one that does not. */
  lemma {:induction false} FilterKeeps<T>(s: seq<T>, p: T -> bool, x: T)
    ensures multiset(Filter(s, p))[x] == if p(x) then multiset(s)[x] else 0
    ensures x in Filter(s, p) <==> x in s && p(x)
  {
    if s != [] {
      var n := |s| - 1;
      assert s == s[..n] + [s[n]];
      FilterKeeps(s[..n], p, x);
    }
  }

  /** Nothing survives a predicate that never holds. */
  lemma {:induction false} FilterNone<T>(s: seq<T>, p: T -> bool)
    requires forall x :: !p(x)
    ensures Filter(s, p) == []
  {
    if s != [] {
      FilterNone(s[..|s| - 1], p);
    }
  }

  /** A filter that every element passes keeps the whole sequence. */
  lemma {:induction false} FilterKeepsAll<T>(s: seq<T>, p: T -> bool)
    requires forall i :: 0 <= i < |s| ==> p(s[i])
    ensures Filter(s, p) == s
  {
    if s != [] {
      FilterKeepsAll(s[..|s| - 1], p);
      assert s[..|s| - 1] + [s[|s| - 1]] == s;
    }
  }

  lemma FilterSingleton<T>(x: T, p: T -> bool)
    ensures Filter([x], p) == if p(x) then [x] else []
  {
    assert [x][..0] == [];
  }

  /** The elements of a filter are exactly the elements of the input that
      satisfy `p`. */
  lemma FilterMembers<T>(s: seq<T>, p: T -> bool)
    ensures forall x :: x in Filter(s, p) <==> x in s && p(x)
  {
    forall x ensures x in Filter(s, p) <==> x in s && p(x) {
      FilterKeeps(s, p, x);
    }
  }

  /** The positions of `s` whose element satisfies `p`. */
  ghost function Positions<T>(s: seq<T>, p: T -> bool): set<int>
  {
    set i | 0 <= i < |s| && p(s[i])
  }

  /** `filter(p).length` is the number of positions that satisfy `p`. */
  lemma {:induction false} FilterCountsPositions<T>(s: seq<T>, p: T -> bool)
    ensures |Filter(s, p)| == |Positions(s, p)|
  {
    if s != [] {
      var n := |s| - 1;
      FilterCountsPositions(s[..n], p);
      var before, now := Positions(s[..n], p), Positions(s, p);
      assert n !in before;
      forall i | i in now ensures i in before || (i == n && p(s[n])) {
        if i < n { assert s[..n][i] == s[i]; }
      }
      forall i | i in before ensures i in now {
        assert s[..n][i] == s[i];
      }
      assert now == before + (if p(s[n]) then {n} else {});
    }
  }

  /** Filtering a concatenation filters each part: the kept elements keep
      their relative order. */
  lemma {:induction false} FilterAppend<T>(a: seq<T>, b: seq<T>, p: T -> bool)
    ensures Filter(a + b, p) == Filter(a, p) + Filter(b, p)
  {
    if b == [] {
      assert a + b == a;
    } else {
      var n := |b| - 1;
      assert (a + b)[..|a + b| - 1] == a + b[..n];
      FilterAppend(a, b[..n], p);
    }
  }

  /** Filtering by two predicates that never hold together keeps as many
      elements as filtering by their disjunction. */
  lemma {:induction false} FilterDisjointUnion<T>(s: seq<T>, p: T -> bool, q: T -> bool, either: T -> bool)
    requires forall x :: either(x) == (p(x) || q(x))
    requires forall x :: !(p(x) && q(x))
    ensures |Filter(s, either)| == |Filter(s, p)| + |Filter(s, q)|
  {
    if s != [] {
      FilterDisjointUnion(s[..|s| - 1], p, q, either);
    }
  }

  /** `s.reduce((acc, x) => acc + f(x), 0)`. */
  function SumOf<T>(s: seq<T>, f: T -> nat): (r: nat)
    ensures s == [] ==> r == 0
    ensures |s| == 1 ==> r == f(s[0])
  {
    if s == [] then 0 else SumOf(s[..|s| - 1], f) + f(s[|s| - 1])
  }

  lemma {:induction false} SumOfAppend<T>(a: seq<T>, b: seq<T>, f: T -> nat)
    ensures SumOf(a + b, f) == SumOf(a, f) + SumOf(b, f)
  {
    if b == [] {
      assert a + b == a;
    } else {
      var n := |b| - 1;
      assert (a + b)[..|a + b| - 1] == a + b[..n];
      assert (a + b)[|a + b| - 1] == b[n];
      SumOfAppend(a, b[..n], f);
      assert SumOf(a + b, f) == SumOf(a + b[..n], f) + f(b[n]);
    }
  }

  /** A sum does not depend on the order of its terms. */
  lemma {:induction false} SumOfPermutation<T>(r: seq<T>, s: seq<T>, f: T -> nat)
    requires multiset(r) == multiset(s)
    ensures SumOf(r, f) == SumOf(s, f)
    decreases |s|
  {
    if s != [] {
      var n := |s| - 1;
      var x := s[n];
      assert s == s[..n] + [x];
      assert x in multiset(r);
      var k :| 0 <= k < |r| && r[k] == x;
      var rest := r[..k] + r[k + 1..];
      SumOfRemove(r, k, f);
      RemoveFromPermutation(r, s, k);
      SumOfPermutation(rest, s[..n], f);
    }
  }

  /** Taking one term out of a sum. */
  lemma SumOfRemove<T>(r: seq<T>, k: int, f: T -> nat)
    requires 0 <= k < |r|
    ensures SumOf(r, f) == SumOf(r[..k] + r[k + 1..], f) + f(r[k])
  {
    var pre, rest, post := r[..k], r[k..], r[k + 1..];
    assert pre + rest == r;
    assert [r[k]] + post == rest;
    SumOfAppend(pre, rest, f);
    assert SumOf(r, f) == SumOf(pre, f) + SumOf(rest, f);
    SumOfAppend([r[k]], post, f);
    assert SumOf(rest, f) == f(r[k]) + SumOf(post, f);
    SumOfAppend(pre, post, f);
    assert SumOf(pre + post, f) == SumOf(pre, f) + SumOf(post, f);
  }

  /** Taking the last element of `s` out of a permutation `r` of it leaves a
      permutation of the rest of `s`. */
  lemma RemoveFromPermutation<T>(r: seq<T>, s: seq<T>, k: int)
    requires multiset(r) == multiset(s) && s != []
    requires 0 <= k < |r| && r[k] == s[|s| - 1]
    ensures multiset(r[..k] + r[k + 1..]) == multiset(s[..|s| - 1])
  {
    var n, x := |s| - 1, s[|s| - 1];
    var rest := r[..k] + r[k + 1..];
    assert s == s[..n] + [x];
    assert r == r[..k] + [x] + r[k + 1..];
    assert multiset(r) == multiset(rest) + multiset{x};
    assert multiset(s) == multiset(s[..n]) + multiset{x};
    forall y ensures multiset(rest)[y] == multiset(s[..n])[y] {
      calc {
        multiset(rest)[y] + multiset{x}[y];
        (multiset(rest) + multiset{x})[y];
        multiset(r)[y];
        multiset(s)[y];
        (multiset(s[..n]) + multiset{x})[y];
        multiset(s[..n])[y] + multiset{x}[y];
      }
    }
  }

  /** A sum of equal terms. */
  lemma {:induction false} SumOfConstant<T>(s: seq<T>, f: T -> nat, k: nat)
    requires forall i :: 0 <= i < |s| ==> f(s[i]) == k
    ensures SumOf(s, f) == |s| * k
  {
    if s != [] {
      SumOfConstant(s[..|s| - 1], f, k);
    }
  }

  /** Sums of two sequences that agree term by term are equal. */
  lemma {:induction false} SumOfPointwise<T, U>(s: seq<T>, f: T -> nat, t: seq<U>, g: U -> nat)
    requires |s| == |t|
    requires forall i :: 0 <= i < |s| ==> f(s[i]) == g(t[i])
    ensures SumOf(s, f) == SumOf(t, g)
  {
    if s != [] {
      SumOfPointwise(s[..|s| - 1], f, t[..|t| - 1], g);
    }
  }

  /** A term-by-term smaller summand gives a smaller sum. */
  lemma {:induction false} SumOfMonotone<T>(s: seq<T>, f: T -> nat, g: T -> nat)
    requires forall x :: f(x) <= g(x)
    ensures SumOf(s, f) <= SumOf(s, g)
  {
    if s != [] {
      SumOfMonotone(s[..|s| - 1], f, g);
    }
  }

  /** `parts.join(sep)`: the parts in order with `sep` between neighbours;
      no parts give the empty string and one part gives itself. */
  function Join(parts: seq<string>, sep: string): (r: string)
    ensures parts == [] ==> r == ""
    ensures |parts| == 1 ==> r == parts[0]
  {
    if |parts| == 0 then ""
    else if |parts| == 1 then parts[0]
    else Join(parts[..|parts| - 1], sep) + sep + parts[|parts| - 1]
  }

  /** Joining two non-empty lists of parts is joining each and putting one
      separator between them. */
  lemma {:induction false} JoinConcat(a: seq<string>, b: seq<string>, sep: string)
    requires a != [] && b != []
    ensures Join(a + b, sep) == Join(a, sep) + sep + Join(b, sep)
    decreases |b|
  {
    var n := |b| - 1;
    assert (a + b)[..|a + b| - 1] == a + b[..n];
    assert (a + b)[|a + b| - 1] == b[n];
    if n == 0 {
      assert a + b[..n] == a;
    } else {
      JoinConcat(a, b[..n], sep);
    }
  }

  /** The length of a join: the parts' lengths plus one separator between
      each pair of neighbours. */
  lemma {:induction false} JoinLength(parts: seq<string>, sep: string)
    requires parts != []
    ensures |Join(parts, sep)| == SumOf(parts, Length) + (|parts| - 1) * |sep|
  {
    if |parts| > 1 {
      JoinLength(parts[..|parts| - 1], sep);
    }
  }

  function Length(s: string): nat
  {
    |s|
  }
}

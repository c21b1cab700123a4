/** Sequence helpers standing in for the Python built-ins the evaluator leans on:
    list comprehensions, `sorted(..., reverse=True)`, the key order of a
    `collections.Counter`, and sums of multiplicities. */
module Seqs {

  predicate NoDuplicates<T(==)>(s: seq<T>) {
    forall i, j :: 0 <= i < j < |s| ==> s[i] != s[j]
  }

  /** `[f(x) for x in s]` */
  function Project<A, B>(s: seq<A>, f: A -> B): (r: seq<B>)
    ensures |r| == |s|
    ensures forall i :: 0 <= i < |s| ==> r[i] == f(s[i])
  {
    seq(|s|, i requires 0 <= i < |s| => f(s[i]))
  }

  /** The distinct elements of `s` in order of first occurrence: the key order
      of a Python `Counter` built from `s`. */
  function Dedup<T(==)>(s: seq<T>): (d: seq<T>)
    ensures NoDuplicates(d)
    ensures forall i :: 0 <= i < |d| ==> d[i] in s
    ensures forall i :: 0 <= i < |s| ==> s[i] in d
    ensures |d| <= |s|
    decreases |s|
  {
    if s == [] then []
    else
      var d := Dedup(s[..|s| - 1]);
      assert s == s[..|s| - 1] + [s[|s| - 1]];
      if s[|s| - 1] in d then d else d + [s[|s| - 1]]
  }

  /** The elements of `s` other than `v`, in order. */
  function Without(s: seq<int>, v: int): (r: seq<int>)
    ensures forall x :: x in r <==> x in s && x != v
    ensures NoDuplicates(s) ==> NoDuplicates(r)
    ensures |r| <= |s|
    ensures v !in s ==> r == s
    ensures NoDuplicates(s) && v in s ==> |r| == |s| - 1
  {
    if s == [] then []
    else if s[0] == v then Without(s[1..], v)
    else
      var t := Without(s[1..], v);
      assert NoDuplicates(s) ==> s[0] !in s[1..] && NoDuplicates(s[1..]);
      [s[0]] + t
  }

  predicate Descending(s: seq<int>) {
    forall i, j :: 0 <= i < j < |s| ==> s[i] >= s[j]
  }

  function InsertDescending(x: int, s: seq<int>): (r: seq<int>)
    requires Descending(s)
    ensures Descending(r)
    ensures multiset(r) == multiset(s) + multiset{x}
  {
    if s == [] || x >= s[0] then
      DescendingPrepend(x, s);
      [x] + s
    else
      var t := InsertDescending(x, s[1..]);
      assert s == [s[0]] + s[1..];
      AtMost(t, s[1..], x, s[0]);
      DescendingPrepend(s[0], t);
      [s[0]] + t
  }

  /** Putting a value no smaller than the first in front keeps the order. */
  lemma DescendingPrepend(x: int, t: seq<int>)
    requires Descending(t)
    requires t == [] || x >= t[0]
    ensures Descending([x] + t)
  {
    var u := [x] + t;
    forall i, j | 0 <= i < j < |u|
      ensures u[i] >= u[j]
    {
      if i == 0 {
        assert u[j] == t[j - 1] && t[0] >= t[j - 1];
      } else {
        assert u[i] == t[i - 1] && u[j] == t[j - 1];
      }
    }
  }

  /** Adding `x` to elements that are all at most `top` keeps them so when `x`
      is at most `top` too. */
  lemma AtMost(t: seq<int>, s: seq<int>, x: int, top: int)
    requires multiset(t) == multiset(s) + multiset{x}
    requires x <= top && forall k :: 0 <= k < |s| ==> s[k] <= top
    ensures forall k :: 0 <= k < |t| ==> t[k] <= top
  {
    forall k | 0 <= k < |t|
      ensures t[k] <= top
    {
      assert t[k] in multiset(t);
      if t[k] != x {
        assert t[k] in multiset(s);
      }
    }
  }

  /** `sorted(s, reverse=True)`: the same integers, largest first. */
  function SortDescending(s: seq<int>): (r: seq<int>)
    ensures Descending(r)
    ensures multiset(r) == multiset(s)
    ensures |r| == |s|
  {
    if s == [] then []
    else
      assert s == [s[0]] + s[1..];
      InsertDescending(s[0], SortDescending(s[1..]))
  }

  /** A sorted order is unique: two descending sequences with the same
      elements are equal. */
  lemma {:induction false} DescendingUnique(a: seq<int>, b: seq<int>)
    requires Descending(a) && Descending(b)
    requires multiset(a) == multiset(b)
    ensures a == b
    decreases |a|
  {
    assert |a| == |multiset(a)| == |multiset(b)| == |b|;
    if a != [] {
      assert a[0] in multiset(b) && b[0] in multiset(a);
      assert a[0] == b[0];
      assert a == [a[0]] + a[1..];
      assert b == [b[0]] + b[1..];
      assert multiset(a[1..]) == multiset(a) - multiset{a[0]};
      assert multiset(b[1..]) == multiset(b) - multiset{b[0]};
      DescendingUnique(a[1..], b[1..]);
    }
  }

  /** In a sequence without duplicates every element occurs exactly once. */
  lemma {:induction false} MultiplicityInDistinct<T>(s: seq<T>, x: T)
    requires NoDuplicates(s)
    ensures multiset(s)[x] == if x in s then 1 else 0
  {
    if s != [] {
      assert s == [s[0]] + s[1..];
      assert NoDuplicates(s[1..]);
      MultiplicityInDistinct(s[1..], x);
      if x == s[0] {
        assert x !in s[1..];
      }
    }
  }

  /** Two equal elements at distinct positions make a multiplicity of at least two. */
  lemma RepeatedElement<T>(s: seq<T>, i: int, j: int)
    requires 0 <= i < j < |s| && s[i] == s[j]
    ensures multiset(s)[s[i]] >= 2
  {
    assert s == s[..j] + s[j..];
    assert s[i] in s[..j];
    assert s[j..][0] == s[j];
    assert multiset(s) == multiset(s[..j]) + multiset(s[j..]);
  }

  /** A sequence in which nothing occurs twice has no duplicates. */
  lemma MultiplicitiesAtMostOne<T>(s: seq<T>)
    requires forall x :: multiset(s)[x] <= 1
    ensures NoDuplicates(s)
  {
    forall i, j | 0 <= i < j < |s|
      ensures s[i] != s[j]
    {
      if s[i] == s[j] {
        RepeatedElement(s, i, j);
        assert false;
      }
    }
  }

  /** Permuting a sequence without duplicates gives a sequence without duplicates. */
  lemma PermutationKeepsDistinct<T>(s: seq<T>, t: seq<T>)
    requires NoDuplicates(s)
    requires multiset(s) == multiset(t)
    ensures NoDuplicates(t)
  {
    forall i, j | 0 <= i < j < |t|
      ensures t[i] != t[j]
    {
      if t[i] == t[j] {
        RepeatedElement(t, i, j);
        MultiplicityInDistinct(s, t[i]);
        assert false;
      }
    }
  }

  /** A sequence without duplicates has as many elements as the set of its elements. */
  lemma {:induction false} DistinctCardinality<T>(s: seq<T>)
    requires NoDuplicates(s)
    ensures |set x | x in s| == |s|
  {
    if s != [] {
      var init := s[..|s| - 1];
      assert NoDuplicates(init);
      DistinctCardinality(init);
      assert s == init + [s[|s| - 1]];
      assert (set x | x in s) == (set x | x in init) + {s[|s| - 1]};
      assert s[|s| - 1] !in init;
    }
  }

  /** `Dedup` lists as many elements as the sequence has different elements. */
  lemma DedupLength<T>(s: seq<T>)
    ensures |Dedup(s)| == |set x | x in s|
  {
    DistinctCardinality(Dedup(s));
    assert (set x | x in Dedup(s)) == (set x | x in s);
  }

  /** Permuting a sequence does not change what `Dedup` keeps: the same
      elements, as many of them. */
  lemma DedupOfPermutation<T>(s: seq<T>, t: seq<T>)
    requires multiset(s) == multiset(t)
    ensures |Dedup(s)| == |Dedup(t)|
    ensures forall x :: x in Dedup(s) <==> x in t
  {
    SameElements(s, t);
    DedupLength(s);
    DedupLength(t);
    assert (set x | x in s) == (set x | x in t);
  }

  /** Under a one-to-one `f`, removing repeats commutes with projecting. */
  lemma {:induction false} DedupProjectInjective<A, B>(s: seq<A>, f: A -> B)
    requires forall x, y :: f(x) == f(y) ==> x == y
    ensures Dedup(Project(s, f)) == Project(Dedup(s), f)
    decreases |s|
  {
    if s != [] {
      var init := s[..|s| - 1];
      assert Project(s, f)[..|s| - 1] == Project(init, f);
      DedupProjectInjective(init, f);
      var d := Dedup(init);
      var last := s[|s| - 1];
      assert f(last) in Project(d, f) <==> last in d;
      if last !in d {
        assert Project(d + [last], f) == Project(d, f) + [f(last)];
      }
    }
  }

  /** A sequence that `Dedup` leaves whole has no duplicates. */
  lemma {:induction false} DedupFull<T>(s: seq<T>)
    requires |Dedup(s)| == |s|
    ensures NoDuplicates(s)
    decreases |s|
  {
    if s != [] {
      var init := s[..|s| - 1];
      var last := s[|s| - 1];
      assert |Dedup(init)| == |init| && last !in Dedup(init);
      DedupFull(init);
      assert s == init + [last];
      assert last !in init;
    }
  }

  /** Two strictly descending sequences with the same elements are equal. */
  lemma SameElementsDescending(a: seq<int>, b: seq<int>)
    requires forall i, j :: 0 <= i < j < |a| ==> a[i] > a[j]
    requires forall i, j :: 0 <= i < j < |b| ==> b[i] > b[j]
    requires forall x :: x in a <==> x in b
    ensures a == b
  {
    assert NoDuplicates(a) && NoDuplicates(b);
    forall x
      ensures multiset(a)[x] == multiset(b)[x]
    {
      MultiplicityInDistinct(a, x);
      MultiplicityInDistinct(b, x);
    }
    assert multiset(a) == multiset(b);
    DescendingUnique(a, b);
  }

  /** A subset is no larger than the set that holds it. */
  lemma {:induction false} SubsetCardinality<T>(a: set<T>, b: set<T>)
    requires a <= b
    ensures |a| <= |b|
    decreases a
  {
    if a != {} {
      var x :| x in a;
      SubsetCardinality(a - {x}, b - {x});
    }
  }

  /** A descending sequence without duplicates descends strictly. */
  lemma StrictlyDescending(s: seq<int>)
    requires Descending(s) && NoDuplicates(s)
    ensures forall i, j :: 0 <= i < j < |s| ==> s[i] > s[j]
  {
  }

  /** Two sequences with the same multiset have the same elements. */
  lemma SameElements<T>(s: seq<T>, t: seq<T>)
    requires multiset(s) == multiset(t)
    ensures forall x :: x in s <==> x in t
  {
    forall x
      ensures x in s <==> x in t
    {
      assert x in s <==> x in multiset(s);
      assert x in t <==> x in multiset(t);
    }
  }

  /** Removing the element at position `j` removes one copy of it. */
  lemma RemoveAt<T>(b: seq<T>, j: int)
    requires 0 <= j < |b|
    ensures multiset(b[..j] + b[j + 1..]) == multiset(b) - multiset{b[j]}
  {
    assert b == b[..j] + [b[j]] + b[j + 1..];
    assert multiset(b) == multiset(b[..j]) + multiset{b[j]} + multiset(b[j + 1..]);
  }

  /** Projecting commutes with removing the element at position `j`. */
  lemma ProjectRemoveAt<A, B>(b: seq<A>, j: int, f: A -> B)
    requires 0 <= j < |b|
    ensures Project(b, f)[..j] + Project(b, f)[j + 1..] == Project(b[..j] + b[j + 1..], f)
  {
    var pb, rest := Project(b, f), b[..j] + b[j + 1..];
    var l, r := pb[..j] + pb[j + 1..], Project(rest, f);
    assert |l| == |r|;
    forall k | 0 <= k < |l|
      ensures l[k] == r[k]
    {
      if k < j {
        assert l[k] == pb[k] && rest[k] == b[k];
      } else {
        assert l[k] == pb[k + 1] && rest[k] == b[k + 1];
      }
    }
  }

  /** The projection of `b` is that of `b` without position `j`, plus `f(b[j])`. */
  lemma ProjectSplit<A, B>(b: seq<A>, j: int, f: A -> B)
    requires 0 <= j < |b|
    ensures multiset(Project(b, f)) ==
      multiset(Project(b[..j] + b[j + 1..], f)) + multiset{f(b[j])}
  {
    var pb := Project(b, f);
    RemoveAt(pb, j);
    ProjectRemoveAt(b, j, f);
    assert pb[j] in multiset(pb);
  }

  /** Matching the first element of `a` with position `j` of `b`: if the rest
      of their projections are permutations of each other, so are the wholes. */
  lemma ProjectMatch<A, B>(a: seq<A>, b: seq<A>, j: int, f: A -> B)
    requires a != [] && 0 <= j < |b| && b[j] == a[0]
    requires multiset(Project(a[1..], f)) == multiset(Project(b[..j] + b[j + 1..], f))
    ensures multiset(Project(a, f)) == multiset(Project(b, f))
  {
    ProjectHead(a, f);
    ProjectSplit(b, j, f);
  }

  /** The projection of a non-empty `a` is `f(a[0])` followed by that of the rest. */
  lemma ProjectHead<A, B>(a: seq<A>, f: A -> B)
    requires a != []
    ensures multiset(Project(a, f)) == multiset(Project(a[1..], f)) + multiset{f(a[0])}
  {
    assert Project(a, f) == [f(a[0])] + Project(a[1..], f);
  }

  /** Permuting a sequence permutes its projection. */
  lemma {:induction false} ProjectPermutation<A, B>(a: seq<A>, b: seq<A>, f: A -> B)
    requires multiset(a) == multiset(b)
    ensures multiset(Project(a, f)) == multiset(Project(b, f))
    decreases |a|
  {
    assert |a| == |multiset(a)| == |multiset(b)| == |b|;
    if a != [] {
      assert a[0] in multiset(b);
      var j :| 0 <= j < |b| && b[j] == a[0];
      RemoveAt(b, j);
      assert a == [a[0]] + a[1..];
      ProjectPermutation(a[1..], b[..j] + b[j + 1..], f);
      ProjectMatch(a, b, j, f);
    }
  }

  /** The sum of the multiplicities in `m` of the elements of `d`. */
  function CountsSum<T>(d: seq<T>, m: multiset<T>): nat
  {
    if d == [] then 0 else m[d[0]] + CountsSum(d[1..], m)
  }

  /** Adding one copy of `x` to `m` adds one to the sum exactly when `d` lists `x`. */
  lemma {:induction false} CountsSumAdd<T>(d: seq<T>, m: multiset<T>, x: T)
    requires NoDuplicates(d)
    ensures CountsSum(d, m + multiset{x}) == CountsSum(d, m) + if x in d then 1 else 0
  {
    if d != [] {
      assert d == [d[0]] + d[1..];
      assert NoDuplicates(d[1..]);
      CountsSumAdd(d[1..], m, x);
    }
  }

  /** When `d` lists every element of `m` once, the sum of its multiplicities is `|m|`. */
  lemma {:induction false} CountsSumCovers<T>(d: seq<T>, m: multiset<T>)
    requires NoDuplicates(d)
    requires forall x :: x in m ==> x in d
    ensures CountsSum(d, m) == |m|
    decreases |m|
  {
    if m == multiset{} {
      CountsSumOfEmpty(d);
    } else {
      var x :| x in m;
      var rest := m - multiset{x};
      assert m == rest + multiset{x};
      CountsSumCovers(d, rest);
      CountsSumAdd(d, rest, x);
    }
  }

  /** One step of the sum, taken at position `i`. */
  lemma CountsSumStep<T>(d: seq<T>, m: multiset<T>, i: int)
    requires 0 <= i < |d|
    ensures CountsSum(d[i..], m) == m[d[i]] + CountsSum(d[i + 1..], m)
  {
    assert d[i..][1..] == d[i + 1..];
  }

  lemma {:induction false} CountsSumOfEmpty<T>(d: seq<T>)
    ensures CountsSum(d, multiset{}) == 0
  {
    if d != [] {
      CountsSumOfEmpty(d[1..]);
    }
  }
}

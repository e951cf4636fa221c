/** Generic vocabulary shared by the news-core modules: optional values,
    error-carrying results, integer clamps, order-preserving sub-sequences and
    the list-comprehension filter `[x for x in s if p(x)]`. */
module Common {

  datatype Option<T> = None | Some(value: T)

  datatype Result<T, E> = Ok(value: T) | Err(error: E)

  function Min(a: int, b: int): int { if a <= b then a else b }

  function Max(a: int, b: int): int { if a >= b then a else b }

  /** `a` is obtained from `b` by deleting elements, keeping the order of the
      rest. Matching is greedy from the end, which loses no solutions. */
  predicate IsSubseq<T(==)>(a: seq<T>, b: seq<T>)
    decreases |b|
  {
    if a == [] then true
    else if b == [] then false
    else if a[|a| - 1] == b[|b| - 1] then IsSubseq(a[..|a| - 1], b[..|b| - 1])
    else IsSubseq(a, b[..|b| - 1])
  }

  lemma {:induction false} SubseqDropLast<T>(a: seq<T>, b: seq<T>)
    requires a != [] && IsSubseq(a, b)
    ensures IsSubseq(a[..|a| - 1], b)
    decreases |b|
  {
    var a', b' := a[..|a| - 1], b[..|b| - 1];
    if a' != [] {
      assert a'[..|a'| - 1] == a[..|a| - 2];
      if a[|a| - 1] == b[|b| - 1] {
        if a'[|a'| - 1] == b[|b| - 1] {
          SubseqDropLast(a', b');
        }
      } else {
        SubseqDropLast(a, b');
        if a'[|a'| - 1] == b[|b| - 1] {
          SubseqDropLast(a', b');
        }
      }
    }
  }

  /** Appending an element to the longer sequence keeps a sub-sequence one. */
  lemma SubseqExtend<T>(a: seq<T>, b: seq<T>, x: T)
    requires IsSubseq(a, b)
    ensures IsSubseq(a, b + [x])
  {
    var b' := b + [x];
    assert b'[..|b'| - 1] == b;
    if a != [] && a[|a| - 1] == x {
      SubseqDropLast(a, b);
    }
  }

  /** Appending the same element to both sides keeps a sub-sequence one. */
  lemma SubseqAppendBoth<T>(a: seq<T>, b: seq<T>, x: T)
    requires IsSubseq(a, b)
    ensures IsSubseq(a + [x], b + [x])
  {
    assert (a + [x])[..|a + [x]| - 1] == a;
    assert (b + [x])[..|b + [x]| - 1] == b;
  }

  /** A sub-sequence is no longer than, and draws its elements (with
      multiplicity) from, the sequence it came from. */
  lemma {:induction false} SubseqMultiset<T>(a: seq<T>, b: seq<T>)
    requires IsSubseq(a, b)
    ensures |a| <= |b|
    ensures multiset(a) <= multiset(b)
    ensures forall x :: x in a ==> x in b
    decreases |b|
  {
    if a != [] && b != [] {
      var a', b' := a[..|a| - 1], b[..|b| - 1];
      assert a == a' + [a[|a| - 1]];
      assert b == b' + [b[|b| - 1]];
      if a[|a| - 1] == b[|b| - 1] {
        SubseqMultiset(a', b');
      } else {
        SubseqMultiset(a, b');
      }
    }
  }

  /** Python's `set(s)`. */
  function ElementSet<T(==,!new)>(s: seq<T>): (r: set<T>)
    ensures forall x :: x in r <==> x in s
    decreases |s|
  {
    if s == [] then {} else ElementSet(s[..|s| - 1]) + {s[|s| - 1]}
  }

  /** `len(set(s) & set(other))`, counted along `s`: an element counts
      at its first occurrence when `other` has it too. */
  function DistinctShared<T(==)>(s: seq<T>, other: seq<T>): nat
    decreases |s|
  {
    if s == [] then 0
    else
      var init, last := s[..|s| - 1], s[|s| - 1];
      DistinctShared(init, other) + (if last in other && last !in init then 1 else 0)
  }

  /** The count agrees with the size of the intersection of the sets. */
  lemma {:induction false} DistinctSharedCard<T(!new)>(s: seq<T>, other: seq<T>)
    ensures DistinctShared(s, other) == |ElementSet(s) * ElementSet(other)|
    decreases |s|
  {
    if s != [] {
      var init, last := s[..|s| - 1], s[|s| - 1];
      DistinctSharedCard(init, other);
      var before := ElementSet(init) * ElementSet(other);
      if last in other && last !in init {
        assert ElementSet(s) * ElementSet(other) == before + {last};
        assert last !in before;
      } else {
        assert ElementSet(s) * ElementSet(other) == before;
      }
    }
  }

  /** Python's `[x for x in s if p(x)]`. */
  function Filter<T>(s: seq<T>, p: T -> bool): (r: seq<T>)
    ensures |r| <= |s|
    ensures forall x :: x in r ==> x in s && p(x)
    decreases |s|
  {
    if s == [] then []
    else Filter(s[..|s| - 1], p) + (if p(s[|s| - 1]) then [s[|s| - 1]] else [])
  }

  /** The filter keeps order and keeps every element that satisfies `p`. */
  lemma {:induction false} FilterSpec<T>(s: seq<T>, p: T -> bool)
    ensures IsSubseq(Filter(s, p), s)
    ensures forall x :: x in s && p(x) ==> x in Filter(s, p)
    decreases |s|
  {
    if s != [] {
      var s' := s[..|s| - 1];
      assert s == s' + [s[|s| - 1]];
      FilterSpec(s', p);
      if p(s[|s| - 1]) {
        SubseqAppendBoth(Filter(s', p), s', s[|s| - 1]);
      } else {
        assert Filter(s, p) == Filter(s', p);
        SubseqExtend(Filter(s', p), s', s[|s| - 1]);
      }
    }
  }

  /** Python's `s[:n]`: a negative `n` counts from the end. */
  function PyPrefix<T>(s: seq<T>, n: int): (r: seq<T>)
    ensures n >= 0 ==> |r| == Min(n, |s|)
    ensures n < 0 ==> |r| == Max(|s| + n, 0)
    ensures r == s[..|r|]
  {
    if n >= 0 then (if n <= |s| then s[..n] else s)
    else if |s| + n >= 0 then s[..|s| + n]
    else []
  }
}

// Specification functions over plain sequences, with the properties that the
// immutable list's operations inherit from them. Every recursive definition here
// peels off the LAST element, so that the list's loops, which extend a prefix
// a[..i] to a[..i+1], unfold them in one step.

/** The sequence read back to front. */
function Reversal<T>(s: seq<T>): (r: seq<T>)
  ensures |r| == |s|
{
  if |s| == 0 then [] else [s[|s| - 1]] + Reversal(s[..|s| - 1])
}

/** Element i of the reversal is element |s|-1-i of the original. */
lemma {:induction false} ReversalAt<T>(s: seq<T>, i: int)
  requires 0 <= i < |s|
  ensures Reversal(s)[i] == s[|s| - 1 - i]
{
  if i > 0 {
    ReversalAt(s[..|s| - 1], i - 1);
  }
}

/** Reversing twice gives back the original sequence. */
lemma ReversalTwice<T>(s: seq<T>)
  ensures Reversal(Reversal(s)) == s
{
  forall i | 0 <= i < |s|
    ensures Reversal(Reversal(s))[i] == s[i]
  {
    ReversalAt(Reversal(s), i);
    ReversalAt(s, |s| - 1 - i);
  }
}

/** The elements of s that satisfy p, in their original relative order. */
function Filtered<T>(s: seq<T>, p: T -> bool): (r: seq<T>)
  ensures |r| <= |s|
{
  if |s| == 0 then []
  else Filtered(s[..|s| - 1], p) + (if p(s[|s| - 1]) then [s[|s| - 1]] else [])
}

/** Filtering distributes over concatenation: the relative order of the kept elements is the original one. */
lemma {:induction false} FilteredAppend<T>(a: seq<T>, b: seq<T>, p: T -> bool)
  ensures Filtered(a + b, p) == Filtered(a, p) + Filtered(b, p)
{
  if |b| == 0 {
    assert a + b == a;
  } else {
    var b', y := b[..|b| - 1], b[|b| - 1];
    var tail := if p(y) then [y] else [];
    FilteredAppend(a, b', p);
    assert (a + b)[..|a + b| - 1] == a + b';
    calc {
      Filtered(a + b, p);
      Filtered(a + b', p) + tail;
      (Filtered(a, p) + Filtered(b', p)) + tail;
      Filtered(a, p) + (Filtered(b', p) + tail);
      Filtered(a, p) + Filtered(b, p);
    }
  }
}

/**
  Filtering keeps exactly the elements satisfying p: each such value occurs as
  often as in s, and every other value not at all.
*/
lemma {:induction false} FilteredCounts<T>(s: seq<T>, p: T -> bool)
  ensures forall x :: multiset(Filtered(s, p))[x] == if p(x) then multiset(s)[x] else 0
{
  if |s| > 0 {
    var s' := s[..|s| - 1];
    FilteredCounts(s', p);
    assert s == s' + [s[|s| - 1]];
  }
}

/** Filtering a single element keeps it iff it satisfies p. */
lemma FilteredSingleton<T>(x: T, p: T -> bool)
  ensures Filtered([x], p) == if p(x) then [x] else []
{
  assert [x][..0] == [];
}

/** A value is in the filtered sequence iff it is in s and satisfies p. */
lemma FilteredMembers<T>(s: seq<T>, p: T -> bool, x: T)
  ensures x in Filtered(s, p) <==> x in s && p(x)
{
  FilteredCounts(s, p);
  assert x in Filtered(s, p) <==> multiset(Filtered(s, p))[x] > 0;
  assert x in s <==> multiset(s)[x] > 0;
}

/** f applied to every element of s, position by position. */
function Mapped<T, R>(s: seq<T>, f: T -> R): (r: seq<R>)
  ensures |r| == |s|
{
  if |s| == 0 then [] else Mapped(s[..|s| - 1], f) + [f(s[|s| - 1])]
}

/** Element i of the mapped sequence is f of element i. */
lemma {:induction false} MappedAt<T, R>(s: seq<T>, f: T -> R, i: int)
  requires 0 <= i < |s|
  ensures Mapped(s, f)[i] == f(s[i])
{
  if i < |s| - 1 {
    MappedAt(s[..|s| - 1], f, i);
  }
}

/** The left fold of g over s, starting from seed: g(...g(g(seed, s[0]), s[1])..., s[|s|-1]). */
function LeftFold<A, T>(seed: A, s: seq<T>, g: (A, T) -> A): A
{
  if |s| == 0 then seed else g(LeftFold(seed, s[..|s| - 1], g), s[|s| - 1])
}

/** The textbook left-fold equation: the first element is combined into the seed first. */
lemma {:induction false} LeftFoldCons<A, T>(seed: A, x: T, s: seq<T>, g: (A, T) -> A)
  ensures LeftFold(seed, [x] + s, g) == LeftFold(g(seed, x), s, g)
{
  if |s| > 0 {
    var s' := s[..|s| - 1];
    LeftFoldCons(seed, x, s', g);
    assert ([x] + s)[..|[x] + s| - 1] == [x] + s';
  }
}

ghost predicate Associative<T(!new)>(g: (T, T) -> T)
{
  forall a, b, c :: g(g(a, b), c) == g(a, g(b, c))
}

ghost predicate Commutative<T(!new)>(g: (T, T) -> T)
{
  forall a, b :: g(a, b) == g(b, a)
}

/** With an associative g, a seed built by g can be pulled out of the fold. */
lemma {:induction false} LeftFoldSeed<T(!new)>(a: T, b: T, s: seq<T>, g: (T, T) -> T)
  requires Associative(g)
  ensures LeftFold(g(a, b), s, g) == g(a, LeftFold(b, s, g))
{
  if |s| > 0 {
    LeftFoldSeed(a, b, s[..|s| - 1], g);
  }
}

/**
  Folding a non-empty sequence seeded with its first element gives the same
  result as folding its reversal, when g is associative and commutative.
*/
lemma {:induction false} LeftFoldReversal<T(!new)>(s: seq<T>, g: (T, T) -> T)
  requires |s| > 0
  requires Associative(g) && Commutative(g)
  ensures LeftFold(Reversal(s)[0], Reversal(s)[1..], g) == LeftFold(s[0], s[1..], g)
{
  if |s| > 1 {
    var t, x := s[..|s| - 1], s[|s| - 1];
    var rt := Reversal(t);
    assert Reversal(s) == [x] + rt;
    calc {
      LeftFold(Reversal(s)[0], Reversal(s)[1..], g);
      { assert Reversal(s)[1..] == [rt[0]] + rt[1..]; }
      LeftFold(x, [rt[0]] + rt[1..], g);
      { LeftFoldCons(x, rt[0], rt[1..], g); }
      LeftFold(g(x, rt[0]), rt[1..], g);
      { LeftFoldSeed(x, rt[0], rt[1..], g); }
      g(x, LeftFold(rt[0], rt[1..], g));
      { LeftFoldReversal(t, g); }
      g(x, LeftFold(t[0], t[1..], g));
      g(LeftFold(t[0], t[1..], g), x);
      { assert s[1..][..|s[1..]| - 1] == t[1..]; }
      LeftFold(s[0], s[1..], g);
    }
  }
}

/**
  The least index holding x, or -1 when x does not occur in s.
*/
function FirstIndex<T(==)>(s: seq<T>, x: T): (i: int)
  ensures -1 <= i < |s|
  ensures i >= 0 ==> s[i] == x && forall j :: 0 <= j < i ==> s[j] != x
  ensures i == -1 <==> x !in s
{
  if |s| == 0 then -1
  else if s[0] == x then 0
  else
    var k := FirstIndex(s[1..], x);
    if k < 0 then -1 else k + 1
}

/**
  The greatest index holding x, or -1 when x does not occur in s.
*/
function LastIndex<T(==)>(s: seq<T>, x: T): (i: int)
  ensures -1 <= i < |s|
  ensures i >= 0 ==> s[i] == x && forall j :: i < j < |s| ==> s[j] != x
  ensures i == -1 <==> x !in s
{
  if |s| == 0 then -1
  else if s[|s| - 1] == x then |s| - 1
  else LastIndex(s[..|s| - 1], x)
}

/** The last occurrence in s is the mirror image of the first occurrence in its reversal. */
lemma LastIndexMirrorsFirst<T>(s: seq<T>, x: T)
  ensures LastIndex(s, x) == if FirstIndex(Reversal(s), x) < 0 then -1 else |s| - 1 - FirstIndex(Reversal(s), x)
{
  var r := Reversal(s);
  forall k | 0 <= k < |s|
    ensures r[k] == s[|s| - 1 - k]
  {
    ReversalAt(s, k);
  }
  LastIndexMirrorOf(s, r, x);
}

/**
  The proof of LastIndexMirrorsFirst, for any r that holds the elements of s back
  to front. It takes r as a parameter so that the definition of Reversal stays out
  of the solver's view.
*/
lemma LastIndexMirrorOf<T>(s: seq<T>, r: seq<T>, x: T)
  requires |r| == |s|
  requires forall k :: 0 <= k < |s| ==> r[k] == s[|s| - 1 - k]
  ensures LastIndex(s, x) == if FirstIndex(r, x) < 0 then -1 else |s| - 1 - FirstIndex(r, x)
{
  var n, i := |s|, FirstIndex(r, x);
  if i < 0 {
    forall k | 0 <= k < n
      ensures s[k] != x
    {
      assert r[n - 1 - k] == s[k];
    }
  } else {
    var m := n - 1 - i;
    assert s[m] == x;
    forall k | m < k < n
      ensures s[k] != x
    {
      assert r[n - 1 - k] == s[k];
    }
  }
}

/** The first occurrence never comes after the last one, and they agree on absence. */
lemma FirstIndexAtMostLast<T>(s: seq<T>, x: T)
  ensures FirstIndex(s, x) <= LastIndex(s, x)
  ensures FirstIndex(s, x) == -1 <==> LastIndex(s, x) == -1
{
}

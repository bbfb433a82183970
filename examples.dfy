// The scenarios of the list's unit tests, stated over the specification
// functions, and client methods showing what callers of the list and its
// iterator can rely on.

/** Integer addition. Java throws NullPointerException on a null operand; here that case gives None, and no lemma uses it. */
function Plus(x: Option<int>, y: Option<int>): Option<int>
{
  if x.Some? && y.Some? then Some(x.value + y.value) else None
}

/** Java's string `+`: a null operand is written as "null", and the result is never null. */
function Concat(x: Option<string>, y: Option<string>): Option<string>
{
  Some(Text(x) + Text(y))
}

function Text(x: Option<string>): string
{
  if x.Some? then x.value else "null"
}

predicate IsEven(x: Option<int>)
{
  x.Some? && x.value % 2 == 0
}

/** Reversing ["bond", "equity", "gold", "real estate"]. */
lemma ReverseExample()
  ensures Reversal([Some("bond"), Some("equity"), Some("gold"), Some("real estate")])
       == [Some("real estate"), Some("gold"), Some("equity"), Some("bond")]
{
  var s := [Some("bond"), Some("equity"), Some("gold"), Some("real estate")];
  assert s[..2][..1] == s[..1];
  assert Reversal(s[..2]) == [Some("equity"), Some("bond")];
  assert s[..3][..2] == s[..2];
  assert Reversal(s[..3]) == [Some("gold"), Some("equity"), Some("bond")];
  assert s[..4] == s;
}

/** Folding 1..10 with addition gives 55. */
lemma FoldSumExample()
  ensures LeftFold(Some(1), [Some(2), Some(3), Some(4), Some(5), Some(6), Some(7), Some(8), Some(9), Some(10)], Plus)
       == Some(55)
{
  var s := [Some(2), Some(3), Some(4), Some(5), Some(6), Some(7), Some(8), Some(9), Some(10)];
  assert LeftFold(Some(1), s[..1], Plus) == Some(3);
  assert s[..2][..1] == s[..1];
  assert LeftFold(Some(1), s[..2], Plus) == Some(6);
  assert s[..3][..2] == s[..2];
  assert LeftFold(Some(1), s[..3], Plus) == Some(10);
  assert s[..4][..3] == s[..3];
  assert LeftFold(Some(1), s[..4], Plus) == Some(15);
  assert s[..5][..4] == s[..4];
  assert LeftFold(Some(1), s[..5], Plus) == Some(21);
  assert s[..6][..5] == s[..5];
  assert LeftFold(Some(1), s[..6], Plus) == Some(28);
  assert s[..7][..6] == s[..6];
  assert LeftFold(Some(1), s[..7], Plus) == Some(36);
  assert s[..8][..7] == s[..7];
  assert LeftFold(Some(1), s[..8], Plus) == Some(45);
  assert s[..9][..8] == s[..8];
  assert s[..9] == s;
}

/** Folding the reversal of 1..10 gives 55 as well, because addition is associative and commutative. */
lemma FoldSumReversedExample()
  ensures LeftFold(Some(10), [Some(9), Some(8), Some(7), Some(6), Some(5), Some(4), Some(3), Some(2), Some(1)], Plus)
       == Some(55)
{
  var s := [Some(1), Some(2), Some(3), Some(4), Some(5), Some(6), Some(7), Some(8), Some(9), Some(10)];
  var r := Reversal(s);
  forall i | 0 <= i < 10
    ensures r[i] == s[9 - i]
  {
    ReversalAt(s, i);
  }
  assert r[0] == Some(10);
  assert r[1..] == [Some(9), Some(8), Some(7), Some(6), Some(5), Some(4), Some(3), Some(2), Some(1)];
  assert s[0] == Some(1);
  assert s[1..] == [Some(2), Some(3), Some(4), Some(5), Some(6), Some(7), Some(8), Some(9), Some(10)];
  FoldSumExample();
  LeftFoldReversal(s, Plus);
}

/** Folding ["sub", "way", " station"] with concatenation gives "subway station". */
lemma FoldStringExample()
  ensures LeftFold(Some("sub"), [Some("way"), Some(" station")], Concat) == Some("subway station")
{
  var s := [Some("way"), Some(" station")];
  assert s[..1] == [Some("way")] && s[..1][..0] == [];
  assert "sub" + "way" == "subway";
  assert LeftFold(Some("sub"), s[..1], Concat) == Some("subway");
  assert "subway" + " station" == "subway station";
}

/** Filtering [x, y, z] is filtering each of them in turn. */
lemma FilteredTriple<T>(x: T, y: T, z: T, p: T -> bool)
  ensures Filtered([x, y, z], p) == (if p(x) then [x] else []) + (if p(y) then [y] else []) + (if p(z) then [z] else [])
{
  FilteredSingleton(x, p);
  assert [x, y][..1] == [x];
  assert Filtered([x, y], p) == Filtered([x], p) + (if p(y) then [y] else []);
  assert [x, y, z][..2] == [x, y];
  assert Filtered([x, y, z], p) == Filtered([x, y], p) + (if p(z) then [z] else []);
}

/** Keeping the even values of the test's fifteen numbers. */
lemma FilterExample()
  ensures Filtered([Some(97), Some(44), Some(67), Some(3), Some(22), Some(90), Some(1), Some(77),
                    Some(98), Some(1078), Some(6), Some(64), Some(6), Some(79), Some(42)], IsEven)
       == [Some(44), Some(22), Some(90), Some(98), Some(1078), Some(6), Some(64), Some(6), Some(42)]
{
  var a, b, c := [Some(97), Some(44), Some(67)], [Some(3), Some(22), Some(90)], [Some(1), Some(77), Some(98)];
  var d, e := [Some(1078), Some(6), Some(64)], [Some(6), Some(79), Some(42)];
  var ab, abc, abcd := a + b, a + b + c, a + b + c + d;
  assert Filtered(ab, IsEven) == [Some(44), Some(22), Some(90)] by {
    FilteredTriple(Some(97), Some(44), Some(67), IsEven);
    FilteredTriple(Some(3), Some(22), Some(90), IsEven);
    FilteredAppend(a, b, IsEven);
  }
  assert Filtered(abc, IsEven) == [Some(44), Some(22), Some(90), Some(98)] by {
    FilteredTriple(Some(1), Some(77), Some(98), IsEven);
    FilteredAppend(ab, c, IsEven);
  }
  assert Filtered(abcd, IsEven) == [Some(44), Some(22), Some(90), Some(98), Some(1078), Some(6), Some(64)] by {
    FilteredTriple(Some(1078), Some(6), Some(64), IsEven);
    FilteredAppend(abc, d, IsEven);
  }
  assert Filtered(abcd + e, IsEven) == [Some(44), Some(22), Some(90), Some(98), Some(1078), Some(6), Some(64), Some(6), Some(42)] by {
    FilteredTriple(Some(6), Some(79), Some(42), IsEven);
    FilteredAppend(abcd, e, IsEven);
  }
  assert abcd + e == [Some(97), Some(44), Some(67), Some(3), Some(22), Some(90), Some(1), Some(77),
                      Some(98), Some(1078), Some(6), Some(64), Some(6), Some(79), Some(42)];
}

/** The array a list exports is a copy: writing to it leaves the list as it was. */
method ExportIsCopy(list: ImmutableList<int>, x: Option<int>) returns (exported: array<Option<int>>)
  ensures fresh(exported)
  ensures exported.Length == |list.Elements()|
  ensures exported.Length > 0 ==> exported[0] == x
  ensures list.Elements() == old(list.Elements())
{
  exported := list.ToArray();
  if exported.Length > 0 {
    exported[0] := x;
  }
}

/** A list built from an array is a copy: writing to the array afterwards leaves the list as it was. */
method ConstructionCopies(src: array<Option<int>>, x: Option<int>) returns (list: ImmutableList<int>)
  modifies src
  ensures fresh(list.data)
  ensures list.Elements() == old(src[..])
{
  list := new ImmutableList.FromArray(src);
  if src.Length > 0 {
    src[0] := x;
  }
}

/** next() then previous() puts the cursor back, but reads list[c+1] and then list[c]. */
method NextThenPrevious<T(==)>(it: ImmutableListIterator<T>) returns (first: Result<Option<T>>, second: Result<Option<T>>)
  modifies it
  ensures it.cursor == old(it.cursor)
  ensures first == it.list.Get(it.cursor + 1)
  ensures second == it.list.Get(it.cursor)
{
  first := it.Next();
  second := it.Previous();
}

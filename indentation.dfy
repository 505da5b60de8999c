/** The three-valued indentation delta of html_writer.py (class Indent):
    the change of nesting level that takes effect after a line. */
module Indentation {

  datatype Indent = Dedent | Nothing | Indent

  /** Indent.from_int: classifies an integer by its sign. Out-of-range values
      are not an error; they are clamped to the nearest delta. */
  function FromInt(v: int): Indent
  {
    if v > 0 then Indent else if v < 0 then Dedent else Nothing
  }

  /** Indent.to_int. */
  function ToInt(x: Indent): int
  {
    match x
    case Indent => 1
    case Dedent => -1
    case Nothing => 0
  }

  /** Indent.__add__: the integer sum mapped back by from_int. The sign test
      of from_int is written out here rather than called, which keeps the
      scope proofs cheap for the prover; AddIsFromIntOfSum states that the
      two agree. */
  function Add(a: Indent, b: Indent): Indent
  {
    var s: int := ToInt(a) + ToInt(b);
    if s > 0 then Indent else if s < 0 then Dedent else Nothing
  }

  /** The sign of an integer, the reference that FromInt and Add are checked against. */
  function Sign(v: int): int
  {
    if v > 0 then 1 else if v < 0 then -1 else 0
  }

  lemma ToIntRange(x: Indent)
    ensures -1 <= ToInt(x) <= 1
    ensures ToInt(x) == 1 <==> x == Indent
    ensures ToInt(x) == -1 <==> x == Dedent
    ensures ToInt(x) == 0 <==> x == Nothing
  {
  }

  /** from_int undoes to_int, so to_int is injective. */
  lemma FromIntToInt(x: Indent)
    ensures FromInt(ToInt(x)) == x
  {
  }

  lemma ToIntInjective(a: Indent, b: Indent)
    ensures ToInt(a) == ToInt(b) <==> a == b
  {
  }

  /** from_int keeps exactly the sign of its argument. */
  lemma ToIntFromInt(v: int)
    ensures ToInt(FromInt(v)) == Sign(v)
    ensures FromInt(v) == FromInt(Sign(v))
  {
  }

  /** a + b == from_int(a.to_int() + b.to_int()). */
  lemma AddIsFromIntOfSum(a: Indent, b: Indent)
    ensures Add(a, b) == FromInt(ToInt(a) + ToInt(b))
  {
  }

  /** The sum is the integer sum clamped into -1..1; it is exact when no
      clamping is needed. */
  lemma AddIsClampedSum(a: Indent, b: Indent)
    ensures ToInt(Add(a, b)) == Sign(ToInt(a) + ToInt(b))
    ensures -1 <= ToInt(a) + ToInt(b) <= 1 ==> ToInt(Add(a, b)) == ToInt(a) + ToInt(b)
  {
  }

  lemma AddCommutative(a: Indent, b: Indent)
    ensures Add(a, b) == Add(b, a)
  {
  }

  /** nothing is the identity of the sum. */
  lemma AddIdentity(a: Indent)
    ensures Add(a, Nothing) == a && Add(Nothing, a) == a
  {
  }

  /** indent and dedent cancel. */
  lemma AddCancels()
    ensures Add(Indent, Dedent) == Nothing && Add(Dedent, Indent) == Nothing
  {
  }

  /** A repeated delta is clamped: indent + indent == indent. */
  lemma IndentClamps()
    ensures Add(Indent, Indent) == Indent
  {
  }

  /** A repeated delta is clamped: dedent + dedent == dedent. */
  lemma DedentClamps()
    ensures Add(Dedent, Dedent) == Dedent
  {
  }

  /** Because of the clamping the sum is not associative: folding the same
      deltas in another grouping gives another delta. */
  lemma AddNotAssociative()
    ensures Add(Add(Indent, Indent), Dedent) != Add(Indent, Add(Indent, Dedent))
  {
  }
}

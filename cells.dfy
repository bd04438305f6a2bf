/** Cell values as the consolidator sees them, and the rounding applied to every data cell. */
module Cells {

  /** The value of one spreadsheet cell. Python's int, float, bool, str and None; floats are
      modelled as exact reals. */
  datatype Cell = Int(i: int) | Num(x: real) | Bool(b: bool) | Text(s: string) | Empty

  type Row = seq<Cell>

  /** Python's built-in round() on a number: the nearest integer, ties going to the even one. */
  function RoundHalfEven(x: real): (n: int)
    ensures -0.5 <= x - n as real <= 0.5
    ensures (x - n as real == 0.5 || n as real - x == 0.5) ==> n % 2 == 0
  {
    var f := x.Floor;
    var d := x - f as real;
    if d < 0.5 then f
    else if d > 0.5 then f + 1
    else if f % 2 == 0 then f else f + 1
  }

  /** The two properties of RoundHalfEven pin its result down: no other integer has them. */
  lemma RoundHalfEvenUnique(x: real, n: int)
    requires -0.5 <= x - n as real <= 0.5
    requires (x - n as real == 0.5 || n as real - x == 0.5) ==> n % 2 == 0
    ensures n == RoundHalfEven(x)
  {
  }

  /** round() of a value that is already an integer gives that integer back. */
  lemma RoundHalfEvenOfInteger(k: int)
    ensures RoundHalfEven(k as real) == k
  {
    RoundHalfEvenUnique(k as real, k);
  }

  /** The per-cell rule of the row comprehension: a number that is not a bool goes through
      round() (which gives an int back unchanged); booleans, text and empty cells are kept as
      they are. */
  function Normalize(c: Cell): (d: Cell)
    ensures !d.Num?
    ensures c.Num? ==> d.Int? && -0.5 <= c.x - d.i as real <= 0.5
    ensures c.Num? && (c.x - d.i as real == 0.5 || d.i as real - c.x == 0.5) ==> d.i % 2 == 0
    ensures !c.Num? ==> d == c
  {
    match c
    case Num(x) => Int(RoundHalfEven(x))
    case _ => c
  }

  /** The row comprehension: every cell normalised, in place, the width unchanged. */
  function NormalizeRow(row: Row): (r: Row)
    ensures |r| == |row|
    ensures forall k :: 0 <= k < |row| ==> r[k] == Normalize(row[k])
  {
    if row == [] then [] else [Normalize(row[0])] + NormalizeRow(row[1..])
  }

  /** A row every number of which is an integer. */
  predicate Normalized(row: Row)
  {
    forall k :: 0 <= k < |row| ==> !row[k].Num?
  }

  /** After normalisation no cell holds a non-integral number. */
  lemma NormalizeRowIsNormalized(row: Row)
    ensures Normalized(NormalizeRow(row))
  {
  }

  /** Normalising a row that is already normalised changes nothing. */
  lemma {:induction false} NormalizedRowFixed(row: Row)
    requires Normalized(row)
    ensures NormalizeRow(row) == row
  {
    if row != [] {
      assert Normalized(row[1..]) by {
        forall k | 0 <= k < |row[1..]| ensures !row[1..][k].Num? {
          assert row[1..][k] == row[k + 1];
        }
      }
      NormalizedRowFixed(row[1..]);
      assert row == [row[0]] + row[1..];
    }
  }

  /** Normalisation is idempotent. */
  lemma NormalizeRowIdempotent(row: Row)
    ensures NormalizeRow(NormalizeRow(row)) == NormalizeRow(row)
  {
    NormalizeRowIsNormalized(row);
    NormalizedRowFixed(NormalizeRow(row));
  }

  /** Ties go to the even neighbour, on both sides of zero; booleans are not numbers here. */
  lemma NormalizeExamples()
    ensures Normalize(Num(2.5)) == Int(2)
    ensures Normalize(Num(3.5)) == Int(4)
    ensures Normalize(Num(-0.5)) == Int(0)
    ensures Normalize(Num(-1.5)) == Int(-2)
    ensures Normalize(Num(1.4)) == Int(1)
    ensures Normalize(Num(2.6)) == Int(3)
    ensures Normalize(Int(7)) == Int(7)
    ensures Normalize(Bool(true)) == Bool(true)
    ensures Normalize(Text("text")) == Text("text")
  {
    RoundHalfEvenUnique(2.5, 2);
    RoundHalfEvenUnique(3.5, 4);
    RoundHalfEvenUnique(-0.5, 0);
    RoundHalfEvenUnique(-1.5, -2);
    RoundHalfEvenUnique(1.4, 1);
    RoundHalfEvenUnique(2.6, 3);
  }
}

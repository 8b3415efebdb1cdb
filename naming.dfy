/**
 * Node ids as the simulation builds them: the letter `n` followed by the
 * decimal digits of the node's number, as Python's `str(int)` writes a
 * non-negative integer (no sign, no leading zeros).
 */
module Naming {

  predicate IsDigit(c: char) {
    '0' <= c <= '9'
  }

  function Digit(d: nat): (c: char)
    requires d < 10
    ensures IsDigit(c) && c as int - '0' as int == d
  {
    ['0', '1', '2', '3', '4', '5', '6', '7', '8', '9'][d]
  }

  /** `str(n)` for a non-negative integer. */
  function Decimal(n: nat): (s: string)
    ensures |s| > 0
    ensures forall i :: 0 <= i < |s| ==> IsDigit(s[i])
    ensures s[0] == '0' ==> n == 0
    decreases n
  {
    if n < 10 then [Digit(n)] else Decimal(n / 10) + [Digit(n % 10)]
  }

  /** Reads a string of decimal digits back as a number. */
  function ParseDecimal(s: string): (n: nat)
    requires forall i :: 0 <= i < |s| ==> IsDigit(s[i])
    decreases |s|
  {
    if s == [] then 0
    else
      var last := s[|s| - 1];
      assert IsDigit(last);
      ParseDecimal(s[..|s| - 1]) * 10 + (last as int - '0' as int)
  }

  /** Reading the digits of `n` gives back `n`. */
  lemma {:induction false} ParseDecimalOfDecimal(n: nat)
    ensures ParseDecimal(Decimal(n)) == n
    decreases n
  {
    var s := Decimal(n);
    if n >= 10 {
      ParseDecimalOfDecimal(n / 10);
      assert s[..|s| - 1] == Decimal(n / 10);
    }
  }

  /** Distinct numbers have distinct decimal spellings. */
  lemma DecimalInjective(i: nat, j: nat)
    requires Decimal(i) == Decimal(j)
    ensures i == j
  {
    ParseDecimalOfDecimal(i);
    ParseDecimalOfDecimal(j);
  }

  /** The id of the `i`-th node of a new simulation, `f"n{i}"`. */
  function NodeName(i: nat): (s: string)
    ensures |s| > 1 && s[0] == 'n'
  {
    "n" + Decimal(i)
  }

  /** Different node numbers give different ids. */
  lemma NodeNameInjective(i: nat, j: nat)
    requires NodeName(i) == NodeName(j)
    ensures i == j
  {
    assert NodeName(i)[1..] == Decimal(i);
    assert NodeName(j)[1..] == Decimal(j);
    DecimalInjective(i, j);
  }

  /** The ids of the first `n` nodes, in creation order. */
  function NodeNames(n: nat): (ids: seq<string>)
    ensures |ids| == n
    ensures forall i :: 0 <= i < n ==> ids[i] == NodeName(i)
    ensures forall i, j :: 0 <= i < j < n ==> ids[i] != ids[j]
  {
    var ids := seq(n, i requires 0 <= i => NodeName(i));
    forall i, j | 0 <= i < j < n
      ensures ids[i] != ids[j]
    {
      if ids[i] == ids[j] {
        NodeNameInjective(i, j);
      }
    }
    ids
  }
}

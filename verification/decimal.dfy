/** Decimal rendering of a non-negative integer, as Swift's string interpolation
    `"\(n)"` writes it, and the matching reader used to state what a request asks for. */
module Decimal {
  import opened Base

  predicate IsDigit(c: char) {
    '0' <= c <= '9'
  }

  function DigitChar(d: nat): (c: char)
    requires d < 10
    ensures IsDigit(c)
  {
    ('0' as int + d) as char
  }

  /** `"\(n)"` for `n >= 0`: base ten, most significant digit first, no leading zero. */
  function Show(n: nat): (r: string)
    ensures |r| >= 1
    ensures forall i :: 0 <= i < |r| ==> IsDigit(r[i])
    ensures |r| > 1 ==> r[0] != '0'
    decreases n
  {
    if n < 10 then [DigitChar(n)] else Show(n / 10) + [DigitChar(n % 10)]
  }

  function DigitValue(c: char): (d: nat)
    requires IsDigit(c)
    ensures d < 10
  {
    c as int - '0' as int
  }

  function Value(s: string): nat
    requires forall i :: 0 <= i < |s| ==> IsDigit(s[i])
  {
    if s == [] then 0 else Value(s[..|s| - 1]) * 10 + DigitValue(s[|s| - 1])
  }

  /** Reads back a non-empty run of digits. */
  function Read(s: string): Option<nat> {
    if s != [] && forall i :: 0 <= i < |s| ==> IsDigit(s[i]) then Some(Value(s)) else None
  }

  /** Rendering loses nothing: reading the digits back gives the number. */
  lemma {:induction false} ReadShow(n: nat)
    ensures Read(Show(n)) == Some(n)
    decreases n
  {
    var s := Show(n);
    if n < 10 {
      assert s[..|s| - 1] == [];
      assert DigitValue(s[0]) == n;
      assert Value(s) == Value(s[..|s| - 1]) * 10 + DigitValue(s[0]);
    } else {
      ReadShow(n / 10);
      assert s[..|s| - 1] == Show(n / 10);
      assert DigitValue(s[|s| - 1]) == n % 10;
    }
  }
}

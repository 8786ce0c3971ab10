// Decimal rendering and parsing of integers: Python's `str` and Rust's `{}`
// formatting of an integer on one side, Rust's `str::parse::<i64>` on the
// other. The multi-valued consumer (src/mdd.rs:125-133) reads an integer
// token with the parser; the fault-tree manager (dd/src/ftnode.rs:110)
// renders occurrence counters with the formatter.
module Decimal {
  import opened Wrappers

  predicate IsDigit(c: char)
  {
    '0' <= c <= '9'
  }

  predicate AllDigits(s: string)
  {
    forall i :: 0 <= i < |s| ==> IsDigit(s[i])
  }

  function DigitChar(d: nat): char
    requires d < 10
  {
    ['0', '1', '2', '3', '4', '5', '6', '7', '8', '9'][d]
  }

  function DigitValue(c: char): nat
    requires IsDigit(c)
  {
    (c as int - '0' as int) as nat
  }

  /** The value of a string of decimal digits, most significant first. */
  function DigitsValue(s: string): nat
    requires AllDigits(s)
  {
    if s == [] then 0 else 10 * DigitsValue(s[..|s| - 1]) + DigitValue(s[|s| - 1])
  }

  /** The shortest decimal rendering of a natural number. */
  function NatStr(n: nat): (s: string)
    ensures s != [] && AllDigits(s)
  {
    if n < 10 then [DigitChar(n)] else NatStr(n / 10) + [DigitChar(n % 10)]
  }

  /** `str(i)` / `format!("{}", i)`: a minus sign for a negative number. */
  function IntStr(i: int): string
  {
    if i < 0 then "-" + NatStr(-i) else NatStr(i)
  }

  const I64Min: int := -0x8000_0000_0000_0000
  const I64Max: int := 0x7fff_ffff_ffff_ffff

  /** `s.parse::<i64>()`: an optional `+` or `-`, then at least one decimal
      digit and nothing else, with a value in the 64-bit signed range. */
  function ParseI64(s: string): Option<int>
  {
    var negative := |s| > 0 && s[0] == '-';
    var body := if |s| > 0 && (s[0] == '-' || s[0] == '+') then s[1..] else s;
    if body == [] || !AllDigits(body) then None
    else
      var v: int := if negative then 0 - DigitsValue(body) else DigitsValue(body);
      if I64Min <= v <= I64Max then Some(v) else None
  }

  lemma {:induction false} NatStrValue(n: nat)
    ensures DigitsValue(NatStr(n)) == n
  {
    if n >= 10 {
      NatStrValue(n / 10);
      var s := NatStr(n);
      assert s[..|s| - 1] == NatStr(n / 10);
    }
  }

  /** The parser reads back every rendered 64-bit integer. */
  lemma {:induction false} ParseRendered(i: int)
    requires I64Min <= i <= I64Max
    ensures ParseI64(IntStr(i)) == Some(i)
  {
    if i < 0 {
      NatStrValue(-i);
      assert ("-" + NatStr(-i))[1..] == NatStr(-i);
    } else {
      NatStrValue(i);
    }
  }

  /** Rendering is injective, so distinct counters give distinct names. */
  lemma {:induction false} NatStrInjective(m: nat, n: nat)
    requires NatStr(m) == NatStr(n)
    ensures m == n
  {
    NatStrValue(m);
    NatStrValue(n);
  }
}

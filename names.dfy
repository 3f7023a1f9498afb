/**
 * NonDuplicateNumber (bnf_rules_parser/src/lib.rs): the counter that names the synthetic rules
 * produced by desugaring `( )`, `{ }` and `[ ]` groups. A name is a space followed by the
 * decimal form of the counter, so it can never be a user identifier and never repeats.
 */
module SymbolNames {
  import opened Grammar

  function DigitChar(d: nat): (c: char)
    requires d < 10
    ensures '0' <= c <= '9'
  {
    "0123456789"[d]
  }

  predicate IsDigit(c: char) {
    '0' <= c <= '9'
  }

  function DigitValue(c: char): (d: nat)
    requires IsDigit(c)
    ensures d < 10
  {
    (c as int - '0' as int) as nat
  }

  /** The decimal form of `n` as `format!("{}", n)` writes it. */
  function Decimal(n: nat): (s: string)
    ensures |s| >= 1
    ensures forall i :: 0 <= i < |s| ==> IsDigit(s[i])
  {
    if n < 10 then [DigitChar(n)] else Decimal(n / 10) + [DigitChar(n % 10)]
  }

  /** Reads a string of digits back as a number: the inverse of `Decimal`. */
  function ParseDecimal(s: string): nat
    requires forall i :: 0 <= i < |s| ==> IsDigit(s[i])
  {
    if s == [] then 0 else ParseDecimal(s[..|s| - 1]) * 10 + DigitValue(s[|s| - 1])
  }

  lemma {:induction false} DecimalRoundTrip(n: nat)
    ensures ParseDecimal(Decimal(n)) == n
  {
    var s := Decimal(n);
    if n < 10 {
      assert s[..|s| - 1] == [];
    } else {
      assert s[..|s| - 1] == Decimal(n / 10);
      DecimalRoundTrip(n / 10);
    }
  }

  /** The name `as_symbol_name` builds from the counter value `n`. */
  function SymbolName(n: nat): (name: string)
    ensures IsSynthetic(name)
    ensures name != SOURCE_RULE_NAME
  {
    var name := " " + Decimal(n);
    assert IsDigit(name[1]);
    name
  }

  /** Distinct counter values give distinct names. */
  lemma SymbolNameInjective(m: nat, n: nat)
    requires m != n
    ensures SymbolName(m) != SymbolName(n)
  {
    if SymbolName(m) == SymbolName(n) {
      assert Decimal(m) == SymbolName(m)[1..];
      assert Decimal(n) == SymbolName(n)[1..];
      DecimalRoundTrip(m);
      DecimalRoundTrip(n);
    }
  }

  /** A counter that only counts up (NonDuplicateNumber). */
  class NonDuplicateNumber {
    var number: nat

    /** NonDuplicateNumber::new */
    constructor ()
      ensures number == 0
    {
      number := 0;
    }

    /** NonDuplicateNumber::next: increments first, then returns the new value. */
    method Next() returns (n: nat)
      modifies this
      ensures number == old(number) + 1
      ensures n == number
    {
      number := number + 1;
      n := number;
    }

    /** NonDuplicateNumber::as_symbol_name: `" n"` for the incremented counter `n`. */
    method AsSymbolName() returns (name: string)
      modifies this
      ensures number == old(number) + 1
      ensures name == SymbolName(number)
      ensures IsSynthetic(name)
    {
      var n := Next();
      name := " " + Decimal(n);
    }
  }
}

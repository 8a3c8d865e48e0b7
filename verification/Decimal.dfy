/** Decimal numerals, printed and read back. */
module Decimal {
  import opened Wrappers

  const DIGITS := "0123456789"

  function PrintNat(n: nat): (s: string)
    ensures s != "" && forall c :: c in s ==> c in DIGITS
  {
    if n < 10 then [DIGITS[n]] else PrintNat(n / 10) + [DIGITS[n % 10]]
  }

  function Digit(c: char): Option<nat> {
    if '0' <= c <= '9' then Some(c as int - '0' as int) else None
  }

  /** `int(float(s))` on a decimal integer; anything else is not of this tool's making. */
  function ParseNat(s: string): Option<nat> {
    if s == "" then None
    else
      var last := Digit(s[|s| - 1]);
      if last.None? then None
      else if |s| == 1 then last
      else
        var init := ParseNat(s[..|s| - 1]);
        if init.None? then None else Some(10 * init.value + last.value)
  }

  lemma {:induction false} ParsePrinted(n: nat)
    ensures ParseNat(PrintNat(n)) == Some(n)
  {
    DigitPrinted(n % 10);
    if n >= 10 {
      ParsePrinted(n / 10);
      var s := PrintNat(n);
      assert s[..|s| - 1] == PrintNat(n / 10);
    }
  }

  lemma DigitPrinted(d: nat)
    requires d < 10
    ensures Digit(DIGITS[d]) == Some(d)
  {
  }
}

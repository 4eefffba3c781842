/** The case codes of `CreatePratica`: "VST-%d-%06d" of the year and a counter that never goes back. */
module CaseCodes {
  import opened Basics

  function Digit(d: nat): char
    requires d < 10
  {
    "0123456789"[d]
  }

  /** %d of a non-negative number. */
  function Decimal(n: nat): (s: string)
    ensures s != [] && forall c <- s :: '0' <= c <= '9'
  {
    if n < 10 then [Digit(n)] else Decimal(n / 10) + [Digit(n % 10)]
  }

  /** %06d: zeros on the left up to six digits, longer numbers in full. */
  function Padded(n: nat): (s: string)
    ensures |s| >= 6 && forall c <- s :: '0' <= c <= '9'
  {
    var digits := Decimal(n);
    if |digits| >= 6 then digits else seq(6 - |digits|, _ => '0') + digits
  }

  function Render(year: nat, number: nat): string {
    "VST-" + Decimal(year) + "-" + Padded(number)
  }

  // --------------------------------------------------------------- reading

  function DigitValue(c: char): Option<nat> {
    if '0' <= c <= '9' then Some((c - '0') as nat) else None
  }

  function Number(s: string): Option<nat> {
    if s == [] then Some(0)
    else match (Number(s[..|s| - 1]), DigitValue(s[|s| - 1]))
      case (Some(n), Some(d)) => Some(10 * n + d)
      case _ => None
  }

  /** The position of the first dash, or the length of the text. */
  function DashAt(s: string): (i: nat)
    ensures i <= |s| && (i < |s| ==> s[i] == '-') && forall j | 0 <= j < i :: s[j] != '-'
  {
    if s == [] || s[0] == '-' then 0 else 1 + DashAt(s[1..])
  }

  /** What follows "VST-": a year, a dash and a number. */
  function ParseBody(s: string): Option<(nat, nat)> {
    var dash := DashAt(s);
    if dash == |s| then None
    else
      var year, number := Number(s[..dash]), Number(s[dash + 1..]);
      if year.Some? && number.Some? then Some((year.value, number.value)) else None
  }

  function Parse(code: string): Option<(nat, nat)> {
    if "VST-" <= code then ParseBody(code[4..]) else None
  }

  lemma {:induction false} NumberOfDecimal(n: nat)
    ensures Number(Decimal(n)) == Some(n)
  {
    var s := Decimal(n);
    if n < 10 {
      assert s[..0] == [];
    } else {
      assert s[..|s| - 1] == Decimal(n / 10);
      NumberOfDecimal(n / 10);
    }
  }

  lemma {:induction false} LeadingZeros(zeros: nat, digits: string)
    ensures Number(seq(zeros, _ => '0') + digits) == Number(digits)
    decreases zeros + |digits|
  {
    var s := seq(zeros, _ => '0') + digits;
    if digits != [] {
      assert s[..|s| - 1] == seq(zeros, _ => '0') + digits[..|digits| - 1];
      LeadingZeros(zeros, digits[..|digits| - 1]);
    } else if zeros > 0 {
      assert s[..|s| - 1] == seq(zeros - 1, _ => '0') + [];
      LeadingZeros(zeros - 1, []);
    }
  }

  lemma {:induction false} NumberOfPadded(n: nat)
    ensures Number(Padded(n)) == Some(n)
  {
    NumberOfDecimal(n);
    if |Decimal(n)| < 6 {
      LeadingZeros(6 - |Decimal(n)|, Decimal(n));
    }
  }

  lemma {:induction false} FirstDash(a: string, b: string)
    requires '-' !in a
    ensures DashAt(a + "-" + b) == |a|
  {
    var s := a + "-" + b;
    if a != [] {
      assert s[0] == a[0] && a[0] in a;
      assert s[1..] == a[1..] + "-" + b;
      FirstDash(a[1..], b);
    }
  }

  lemma ParseParts(a: string, b: string, year: nat, number: nat)
    requires '-' !in a && Number(a) == Some(year) && Number(b) == Some(number)
    ensures ParseBody(a + "-" + b) == Some((year, number))
  {
    var s := a + "-" + b;
    FirstDash(a, b);
    assert s[..|a|] == a;
    assert s[|a| + 1..] == b;
  }

  /** A code can be read back to its year and its number, whatever their sizes. */
  lemma ParseRender(year: nat, number: nat)
    ensures Parse(Render(year, number)) == Some((year, number))
  {
    NumberOfDecimal(year);
    NumberOfPadded(number);
    ParseParts(Decimal(year), Padded(number), year, number);
    assert Render(year, number)[4..] == Decimal(year) + "-" + Padded(number);
  }

  /** The same code means the same year and the same number. */
  lemma RenderInjective(year: nat, number: nat, year': nat, number': nat)
    requires Render(year, number) == Render(year', number')
    ensures year == year' && number == number'
  {
    ParseRender(year, number);
    ParseRender(year', number');
  }

  // -------------------------------------------------------------- numbering

  /** The codes of a run of creations, given the year of each: the counter is bumped before it is used. */
  function Codes(start: nat, years: seq<nat>): (codes: seq<string>)
    ensures |codes| == |years|
    ensures forall i | 0 <= i < |years| :: codes[i] == Render(years[i], start + i + 1)
  {
    seq(|years|, i requires 0 <= i < |years| => Render(years[i], start + i + 1))
  }

  /** No two cases ever get the same code, in whatever years they are created. */
  lemma {:induction false} CodesDistinct(start: nat, years: seq<nat>, i: nat, j: nat)
    requires i < j < |years|
    ensures Codes(start, years)[i] != Codes(start, years)[j]
  {
    if Codes(start, years)[i] == Codes(start, years)[j] {
      RenderInjective(years[i], start + i + 1, years[j], start + j + 1);
    }
  }

  /** Six digits hold the numbers up to 999999, and those alone. */
  lemma {:induction false} DigitsNeeded(n: nat, k: nat, bound: nat)
    requires k >= 1 && bound == Power(k)
    ensures |Decimal(n)| <= k <==> n < bound
    decreases k
  {
    assert n >= 10 ==> |Decimal(n)| == |Decimal(n / 10)| + 1;
    if k == 1 {
      assert Power(1) == 10 * Power(0);
    } else {
      DigitsNeeded(n / 10, k - 1, Power(k - 1));
    }
  }

  function Power(k: nat): nat {
    if k == 0 then 1 else 10 * Power(k - 1)
  }

  lemma Million()
    ensures Power(6) == 1_000_000
  {
    assert Power(1) == 10 && Power(2) == 100 && Power(3) == 1_000;
    assert Power(4) == 10_000 && Power(5) == 100_000;
  }

  /** A number is padded to exactly six digits when it needs no more, and written out otherwise. */
  lemma PaddedToSix(n: nat)
    ensures n < 1_000_000 ==> |Padded(n)| == 6
    ensures n >= 1_000_000 ==> Padded(n) == Decimal(n)
  {
    Million();
    DigitsNeeded(n, 6, 1_000_000);
  }
}

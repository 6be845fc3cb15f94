/**
 Integers as the text the property table holds.
 */
module Decimals {
  import opened Wrappers

  const U32_LIMIT: nat := 0x1_0000_0000
  const I64_MAX: int := 0x7FFF_FFFF_FFFF_FFFF

  predicate IsDigit(c: char) { '0' <= c <= '9' }

  function Decimal(n: nat): (s: string)
    ensures |s| > 0 && forall i | 0 <= i < |s| :: IsDigit(s[i])
  {
    var d := [('0' as int + n % 10) as char];
    if n < 10 then d else Decimal(n / 10) + d
  }

  function ParseDigits(s: string): Option<nat> {
    if s == [] then None
    else
      var c := s[|s| - 1];
      if !IsDigit(c) then None
      else if |s| == 1 then Some(c as int - '0' as int)
      else
        match ParseDigits(s[..|s| - 1])
        case None => None
        case Some(n) => Some(n * 10 + (c as int - '0' as int))
  }

  /** `str::parse::<u32>`: an optional plus sign, digits, no overflow. */
  function ParseU32(s: string): Option<nat> {
    match ParseDigits(if s != [] && s[0] == '+' then s[1..] else s)
    case Some(n) => if n < U32_LIMIT then Some(n) else None
    case None => None
  }

  /** `str::parse::<i64>`: an optional sign, digits, no overflow. */
  function ParseI64(s: string): Option<int> {
    var signed := s != [] && (s[0] == '+' || s[0] == '-');
    match ParseDigits(if signed then s[1..] else s)
    case None => None
    case Some(n) =>
      var v: int := if signed && s[0] == '-' then 0 - n else n;
      if -I64_MAX - 1 <= v <= I64_MAX then Some(v) else None
  }

  function DigitPrefix(s: string): string {
    if s == [] || !IsDigit(s[0]) then [] else [s[0]] + DigitPrefix(s[1..])
  }

  /** SQLite's CAST AS INTEGER: blanks, a sign, and as many digits as follow; 0 without any. */
  function CastInteger(s: string): int
    decreases |s|
  {
    if s != [] && s[0] == ' ' then CastInteger(s[1..]) else LeadingNumber(s)
  }

  function LeadingNumber(s: string): int {
    var signed := s != [] && (s[0] == '+' || s[0] == '-');
    match ParseDigits(DigitPrefix(if signed then s[1..] else s))
    case None => 0
    case Some(n) => var v: int := n; if signed && s[0] == '-' then -v else v
  }

  function Signed(n: int): string { if n < 0 then "-" + Decimal(-n) else Decimal(n) }

  lemma {:induction false} ParseDecimal(n: nat)
    ensures ParseDigits(Decimal(n)) == Some(n)
  {
    var s := Decimal(n);
    if n >= 10 {
      ParseDecimal(n / 10);
      assert s[..|s| - 1] == Decimal(n / 10);
    }
  }

  lemma DecimalInjective(a: nat, b: nat)
    requires Decimal(a) == Decimal(b)
    ensures a == b
  {
    ParseDecimal(a);
    ParseDecimal(b);
  }

  lemma {:induction false} PrefixOfDigits(s: string)
    requires forall i | 0 <= i < |s| :: IsDigit(s[i])
    ensures DigitPrefix(s) == s
  {
    if s != [] {
      PrefixOfDigits(s[1..]);
    }
  }

  /** What is printed is read back, by the program and by the database alike. */
  lemma ReadBack(n: nat)
    ensures n < U32_LIMIT ==> ParseU32(Decimal(n)) == Some(n)
    ensures n <= I64_MAX ==> ParseI64(Decimal(n)) == Some(n)
    ensures CastInteger(Decimal(n)) == n
  {
    var s := Decimal(n);
    ParseDecimal(n);
    PrefixOfDigits(s);
    assert IsDigit(s[0]);
  }

  /** Signed integers too, and their text holds no separator. */
  lemma SignedReadBack(n: int)
    requires -I64_MAX - 1 <= n <= I64_MAX
    ensures ParseI64(Signed(n)) == Some(n) && ':' !in Signed(n)
  {
    var m: nat := if n < 0 then -n else n;
    ParseDecimal(m);
    assert IsDigit(Decimal(m)[0]);
    if n < 0 {
      assert Signed(n)[1..] == Decimal(m);
    }
  }

  lemma {:induction false} ParsedAreDigits(s: string)
    requires ParseDigits(s).Some?
    ensures forall i | 0 <= i < |s| :: IsDigit(s[i])
  {
    if |s| > 1 {
      ParsedAreDigits(s[..|s| - 1]);
      assert forall i | 0 <= i < |s| - 1 :: s[..|s| - 1][i] == s[i];
    }
  }

  /** Where the program reads a number, the database's cast reads the same one. */
  lemma CastAgrees(s: string)
    requires ParseI64(s).Some?
    ensures CastInteger(s) == ParseI64(s).value
  {
    var signed := s != [] && (s[0] == '+' || s[0] == '-');
    var digits := if signed then s[1..] else s;
    ParsedAreDigits(digits);
    PrefixOfDigits(digits);
    assert s != [] && (!signed ==> IsDigit(s[0]));
  }

  lemma {:induction false} DigitsParse(s: string)
    requires s != "" && forall i | 0 <= i < |s| :: IsDigit(s[i])
    ensures ParseDigits(s).Some?
  {
    if |s| > 1 {
      DigitsParse(s[..|s| - 1]);
    }
  }

  predicate AllDigits(s: string) { s != "" && forall i | 0 <= i < |s| :: IsDigit(s[i]) }

  /** What the program's parsers accept: digits behind an optional sign, within the width. */
  lemma AcceptedIff(s: string)
    ensures ParseDigits(s).Some? <==> AllDigits(s)
    ensures ParseU32(s).Some? ==> AllDigits(s) || (s != "" && s[0] == '+' && AllDigits(s[1..]))
    ensures ParseI64(s).Some? ==> AllDigits(s) || (s != "" && s[0] in "+-" && AllDigits(s[1..]))
    ensures ParseU32(s).Some? ==> ParseU32(s).value < 0x1_0000_0000
    ensures ParseI64(s).Some? ==> -0x8000_0000_0000_0000 <= ParseI64(s).value < 0x8000_0000_0000_0000
  {
    forall t
      ensures ParseDigits(t).Some? <==> AllDigits(t)
    {
      if AllDigits(t) {
        DigitsParse(t);
      }
      if ParseDigits(t).Some? {
        ParsedAreDigits(t);
      }
    }
  }

  lemma {:induction false} PrefixStops(s: string, tail: string)
    requires (forall i | 0 <= i < |s| :: IsDigit(s[i])) && (tail != "" ==> !IsDigit(tail[0]))
    ensures DigitPrefix(s + tail) == s
  {
    if s == "" {
      assert s + tail == tail;
    } else {
      assert (s + tail)[1..] == s[1..] + tail;
      PrefixStops(s[1..], tail);
    }
  }

  function Blanks(n: nat): string { seq(n, _ => ' ') }

  lemma {:induction false} CastSkipsBlanks(n: nat, s: string)
    ensures CastInteger(Blanks(n) + s) == CastInteger(s)
  {
    if n == 0 {
      assert Blanks(0) + s == s;
    } else {
      assert (Blanks(n) + s)[1..] == Blanks(n - 1) + s;
      CastSkipsBlanks(n - 1, s);
    }
  }

  /** The database's cast reads a number behind blanks and ignores what follows it. */
  lemma CastReadsPrefix(blanks: nat, n: int, tail: string)
    requires tail != "" ==> !IsDigit(tail[0])
    ensures CastInteger(Blanks(blanks) + (Signed(n) + tail)) == n
  {
    hide *;
    CastSkipsBlanks(blanks, Signed(n) + tail);
    CastSigned(n, tail);
  }

  lemma CastSigned(n: int, tail: string)
    requires tail != "" ==> !IsDigit(tail[0])
    ensures CastInteger(Signed(n) + tail) == n
  {
    hide Decimal, ParseDigits, DigitPrefix, CastInteger, LeadingNumber;
    var digits := Decimal(if n < 0 then -n else n);
    assert IsDigit(digits[0]);
    ParseDecimal(if n < 0 then -n else n);
    PrefixStops(digits, tail);
    var s := Signed(n) + tail;
    if n < 0 {
      assert s == ['-'] + (digits + tail) && s[1..] == digits + tail;
    }
    assert s[0] == if n < 0 then '-' else digits[0];
    NumberLeads(s, n, digits);
    hide *;
    NoBlanks(s);
  }

  lemma NoBlanks(s: string)
    ensures s != "" && s[0] != ' ' ==> CastInteger(s) == LeadingNumber(s)
  {
  }

  lemma NumberLeads(s: string, n: int, digits: string)
    requires s != "" && (n < 0 <==> s[0] == '-') && (n >= 0 ==> IsDigit(s[0]))
    requires DigitPrefix(if n < 0 then s[1..] else s) == digits && ParseDigits(digits) == Some(if n < 0 then -n else n)
    ensures LeadingNumber(s) == n
  {
    hide DigitPrefix, ParseDigits;
  }
}

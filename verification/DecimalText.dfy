/**
 Decimal printing and parsing of identifiers. Order, client and execution ids travel as
 64-bit integers on the websocket side and as text on the FIX side and in the cache keys,
 so the cache is only consistent as far as printing and parsing agree.
 */
module DecimalText {
  import opened Wrappers

  const TWO63: int := 0x8000_0000_0000_0000

  type int64 = n: int | -TWO63 <= n < TWO63

  predicate IsDigit(c: char) {
    '0' <= c <= '9'
  }

  predicate AllDigits(s: string) {
    forall i :: 0 <= i < |s| ==> IsDigit(s[i])
  }

  function Digit(d: int): (c: char)
    requires 0 <= d < 10
    ensures IsDigit(c)
  {
    (48 + d) as char
  }

  function DigitValue(c: char): (d: int)
    requires IsDigit(c)
    ensures 0 <= d < 10
  {
    c as int - 48
  }

  /** Printing never yields an empty text nor a superfluous leading zero. */
  function FormatNat(n: nat): (s: string)
    ensures s != "" && AllDigits(s)
    ensures s[0] == '0' ==> s == "0"
  {
    if n < 10 then [Digit(n)] else FormatNat(n / 10) + [Digit(n % 10)]
  }

  /** strconv.FormatInt in base 10. */
  function FormatInt(n: int): (s: string)
    ensures s != ""
  {
    if n < 0 then "-" + FormatNat(-n) else FormatNat(n)
  }

  function ParseNat(s: string): (n: nat)
    requires AllDigits(s)
  {
    if s == "" then 0 else ParseNat(s[..|s| - 1]) * 10 + DigitValue(s[|s| - 1])
  }

  /** The digits of an integer literal, after its optional sign. */
  function Magnitude(s: string): (digits: string)
    requires s != ""
  {
    if s[0] == '-' || s[0] == '+' then s[1..] else s
  }

  /** strconv.ParseInt in base 10 and 64 bits: an optional sign, digits, and a range check. */
  function ParseInt(s: string): (r: Option<int64>)
  {
    if s == "" then None
    else
      var digits := Magnitude(s);
      if digits == "" || !AllDigits(digits) then None
      else
        var n: int := if s[0] == '-' then -(ParseNat(digits) as int) else ParseNat(digits);
        if -TWO63 <= n < TWO63 then Some(n) else None
  }

  /** The texts a 64-bit integer prints as: no plus sign, no leading zero, no "-0", in range. */
  predicate Canonical(s: string) {
    && s != ""
    && s[0] != '+'
    && Magnitude(s) != ""
    && AllDigits(Magnitude(s))
    && (Magnitude(s)[0] == '0' ==> s == "0")
    && (if s[0] == '-' then ParseNat(Magnitude(s)) <= TWO63 else ParseNat(Magnitude(s)) < TWO63)
  }

  lemma {:induction false} ParseFormatNat(n: nat)
    ensures ParseNat(FormatNat(n)) == n
  {
    if n >= 10 {
      ParseFormatNat(n / 10);
      var s := FormatNat(n);
      assert s[..|s| - 1] == FormatNat(n / 10);
    }
  }

  lemma FormatNatDiffers(a: nat, b: nat)
    requires a != b
    ensures FormatNat(a) != FormatNat(b)
  {
    ParseFormatNat(a);
    ParseFormatNat(b);
  }

  lemma FormatSnoc(n: nat, d: int)
    requires n > 0 && 0 <= d < 10
    ensures FormatNat(n * 10 + d) == FormatNat(n) + [Digit(d)]
  {
    var m := n * 10 + d;
    assert m >= 10;
    assert m / 10 == n && m % 10 == d;
  }

  lemma ParseSnoc(s: string, c: char)
    requires AllDigits(s) && IsDigit(c)
    ensures AllDigits(s + [c]) && ParseNat(s + [c]) == ParseNat(s) * 10 + DigitValue(c)
  {
    assert (s + [c])[..|s|] == s;
  }

  lemma FormatParseDigit(c: char)
    requires IsDigit(c)
    ensures AllDigits([c]) && FormatNat(ParseNat([c])) == [c]
    ensures c != '0' ==> ParseNat([c]) > 0
  {
    ParseSnoc("", c);
    assert "" + [c] == [c];
  }

  lemma FormatParseSnoc(s: string, c: char)
    requires AllDigits(s) && IsDigit(c) && ParseNat(s) > 0 && FormatNat(ParseNat(s)) == s
    ensures AllDigits(s + [c]) && ParseNat(s + [c]) > 0 && FormatNat(ParseNat(s + [c])) == s + [c]
  {
    ParseSnoc(s, c);
    FormatSnoc(ParseNat(s), DigitValue(c));
  }

  lemma {:induction false} FormatParseNat(s: string)
    requires s != "" && AllDigits(s)
    requires s[0] == '0' ==> s == "0"
    ensures FormatNat(ParseNat(s)) == s
    ensures s != "0" ==> ParseNat(s) > 0
    decreases |s|
  {
    var init, last := s[..|s| - 1], s[|s| - 1];
    if |s| == 1 {
      assert s == [last];
      FormatParseDigit(last);
    } else {
      assert s == init + [last];
      FormatParseNat(init);
      FormatParseSnoc(init, last);
    }
  }

  /** The shape of a printed integer: its sign and the digits of its absolute value. */
  lemma {:induction false} FormatShape(n: int)
    ensures n < 0 ==> FormatInt(n)[0] == '-' && Magnitude(FormatInt(n)) == FormatNat(-n)
    ensures n >= 0 ==> FormatInt(n)[0] != '-' && FormatInt(n)[0] != '+' && Magnitude(FormatInt(n)) == FormatNat(n)
    ensures ParseNat(Magnitude(FormatInt(n))) == if n < 0 then -n else n
  {
    ParseFormatNat(if n < 0 then -n else n);
  }

  /** Parsing inverts printing on every 64-bit integer. */
  lemma ParseFormat(n: int)
    requires -TWO63 <= n < TWO63
    ensures ParseInt(FormatInt(n)) == Some(n)
  {
    FormatShape(n);
  }

  lemma FormatInjective(a: int, b: int)
    requires FormatInt(a) == FormatInt(b)
    ensures a == b
  {
    FormatShape(a);
    FormatShape(b);
  }

  lemma PrintedIsCanonical(n: int)
    requires -TWO63 <= n < TWO63
    ensures Canonical(FormatInt(n))
  {
    FormatShape(n);
    if Magnitude(FormatInt(n)) == "0" {
      assert ParseNat("0") == 0;
    }
  }

  /** Printing a parsed text gives the text back for canonical texts and for no others. */
  lemma FormatParseExactly(s: string)
    ensures (ParseInt(s).Some? && FormatInt(ParseInt(s).value) == s) <==> Canonical(s)
  {
    if ParseInt(s).Some? && FormatInt(ParseInt(s).value) == s {
      PrintedIsCanonical(ParseInt(s).value);
    }
    if Canonical(s) {
      FormatParseNat(Magnitude(s));
      if s[0] == '-' {
        assert s == "-" + Magnitude(s);
      }
    }
  }

  lemma {:induction false} LeadingZero(s: string)
    requires AllDigits(s)
    ensures AllDigits("0" + s) && ParseNat("0" + s) == ParseNat(s)
  {
    if s == "" {
      assert "0" + s == "0" && "0"[..0] == "";
      assert ParseNat("0") == ParseNat("") * 10 + DigitValue('0');
    } else {
      LeadingZero(s[..|s| - 1]);
      assert ("0" + s)[..|s|] == "0" + s[..|s| - 1];
    }
  }

  /** Besides its printed form an integer may be spelled with a plus sign and with leading zeros. */
  lemma OtherSpellings(n: int)
    requires 0 <= n < TWO63
    ensures ParseInt("+" + FormatInt(n)) == Some(n)
    ensures ParseInt("0" + FormatInt(n)) == Some(n)
    ensures ParseInt("-" + FormatInt(n)) == Some(-n)
    ensures !Canonical("+" + FormatInt(n)) && !Canonical("0" + FormatInt(n))
  {
    var s := FormatInt(n);
    ParseFormatNat(n);
    LeadingZero(s);
    assert ("+" + s)[1..] == s && ("-" + s)[1..] == s;
    assert ("0" + s)[0] == '0';
  }

  /** What is no integer in 64 bits does not parse: no digits, another sign, or too large. */
  lemma NotParsed(n: int)
    requires n > TWO63
    ensures ParseInt("").None? && ParseInt("+").None? && ParseInt("-").None?
    ensures ParseInt(FormatInt(n)).None? && ParseInt(FormatInt(-n)).None? && ParseInt("A" + FormatInt(n)).None?
  {
    FormatShape(n);
    FormatShape(-n);
    assert ("A" + FormatInt(n))[0] == 'A';
    assert !IsDigit('A');
  }
}

/** Turkish phone numbers: `formatTurkishPhone` and `isValidTurkishPhone`
    of the helpers. The canonical form of a mobile number is "+90", the
    mobile prefix '5' and nine more digits. */
module Phone {
  import opened Common

  /** The characters the regular expression class `\d` matches. */
  predicate IsDigit(c: char) {
    '0' <= c <= '9'
  }

  predicate AllDigits(s: string) {
    forall i :: 0 <= i < |s| ==> IsDigit(s[i])
  }

  /** `phone.replace(/\D/g, '')`: the decimal digits of `s`, in order. */
  function Digits(s: string): (d: string)
    ensures AllDigits(d)
    ensures |d| <= |s|
  {
    if |s| == 0 then ""
    else if IsDigit(s[0]) then [s[0]] + Digits(s[1..])
    else Digits(s[1..])
  }

  lemma {:induction false} DigitsAppend(a: string, b: string)
    ensures Digits(a + b) == Digits(a) + Digits(b)
  {
    if |a| == 0 {
      assert a + b == b;
    } else {
      assert (a + b)[1..] == a[1..] + b;
      DigitsAppend(a[1..], b);
    }
  }

  /** Stripping non-digits removes nothing from a string of digits. */
  lemma {:induction false} DigitsOfDigits(s: string)
    requires AllDigits(s)
    ensures Digits(s) == s
  {
    if |s| > 0 {
      DigitsOfDigits(s[1..]);
    }
  }

  /** `formatTurkishPhone`: strip every non-digit, then recognise an
      international "90…", a ten-digit national "5…" or an eleven-digit
      trunk "0…" number; anything else is returned exactly as given. */
  function Format(raw: string): (r: string)
    ensures r == raw || (|r| >= 3 && r[..3] == "+90" && AllDigits(r[1..]))
  {
    var d := Digits(raw);
    if StartsWith(d, "90") then "+" + d
    else if StartsWith(d, "5") && |d| == 10 then "+90" + d
    else if StartsWith(d, "0") && |d| == 11 then "+90" + d[1..]
    else raw
  }

  /** One position of a regular expression without repetition operators. */
  datatype CharClass = Literal(c: char) | AnyDigit

  predicate ClassMatches(k: CharClass, c: char) {
    match k
    case Literal(l) => c == l
    case AnyDigit => IsDigit(c)
  }

  /** `/^\+90[5][0-9]{9}$/`, one class per character. */
  function MobilePattern(): seq<CharClass> {
    [Literal('+'), Literal('9'), Literal('0'), Literal('5')] + seq(9, _ => AnyDigit)
  }

  /** An anchored match of a pattern of single-character classes. */
  predicate MatchesWhole(pattern: seq<CharClass>, s: string) {
    |pattern| == |s| && forall i :: 0 <= i < |s| ==> ClassMatches(pattern[i], s[i])
  }

  /** `isValidTurkishPhone`: exactly "+905" followed by nine decimal digits. */
  function IsValid(p: string): (b: bool)
    ensures b <==> |p| == 13 && StartsWith(p, "+905") && AllDigits(p[4..])
  {
    var pat := MobilePattern();
    assert forall i :: 4 <= i < 13 ==> pat[i] == AnyDigit;
    if MatchesWhole(pat, p) then
      assert forall i :: 4 <= i < |p| ==> IsDigit(p[i]) by {
        forall i | 4 <= i < |p| ensures IsDigit(p[i]) {
          assert ClassMatches(pat[i], p[i]);
        }
      }
      true
    else
      assert !(|p| == 13 && StartsWith(p, "+905") && AllDigits(p[4..])) by {
        if |p| == 13 && StartsWith(p, "+905") && AllDigits(p[4..]) {
          assert p[..4] == "+905";
          forall i | 0 <= i < |p| ensures ClassMatches(pat[i], p[i]) {
            if i >= 4 {
              assert p[4..][i - 4] == p[i];
            } else {
              assert p[..4][i] == p[i];
            }
          }
          assert MatchesWhole(pat, p);
        }
      }
      false
  }

  /** A country code in front of digits adds only its own digits. */
  lemma DigitsOfPlusDigits(prefix: string, d: string)
    requires prefix == "+" || prefix == "+90"
    requires AllDigits(d)
    ensures Digits(prefix + d) == prefix[1..] + d
  {
    DigitsAppend(prefix, d);
    DigitsOfDigits(d);
    assert Digits(prefix) == prefix[1..] by {
      DigitsOfDigits(prefix[1..]);
      assert prefix == [prefix[0]] + prefix[1..];
      assert !IsDigit(prefix[0]);
    }
  }

  /** Formatting is idempotent, for every input: either the number was
      recognised and its canonical form is recognised again as itself,
      or the input came back untouched. */
  lemma FormatIdempotent(raw: string)
    ensures Format(Format(raw)) == Format(raw)
  {
    var d := Digits(raw);
    if StartsWith(d, "90") {
      DigitsOfPlusDigits("+", d);
    } else if StartsWith(d, "5") && |d| == 10 {
      DigitsOfPlusDigits("+90", d);
      assert ("90" + d)[..2] == "90";
    } else if StartsWith(d, "0") && |d| == 11 {
      DigitsOfPlusDigits("+90", d[1..]);
      assert ("90" + d[1..])[..2] == "90";
    }
  }

  /** The digits of a canonical number are everything after its '+'. */
  lemma DigitsOfValid(p: string)
    requires IsValid(p)
    ensures Digits(p) == p[1..]
    ensures StartsWith(p[1..], "905")
  {
    assert p == "+" + p[1..];
    assert AllDigits(p[1..]) by {
      assert p[..4] == "+905";
      forall i | 0 <= i < |p[1..]| ensures IsDigit(p[1..][i]) {
        if i >= 3 {
          assert p[1..][i] == p[4..][i - 3];
        } else {
          assert p[1..][i] == p[..4][i + 1];
        }
      }
    }
    DigitsOfPlusDigits("+", p[1..]);
    assert p[1..][..3] == p[1..4];
  }

  /** A number already in canonical form is left as it is. */
  lemma FormatKeepsValid(p: string)
    requires IsValid(p)
    ensures Format(p) == p
  {
    DigitsOfValid(p);
    assert p[1..][..2] == p[1..][..3][..2];
    assert p == "+" + p[1..];
  }

  /** The digit strings the helpers accept as a Turkish mobile number:
      international "905…" (12 digits), national "5…" (10 digits) or
      trunk "05…" (11 digits). */
  predicate MobileDigits(d: string) {
    || (|d| == 12 && StartsWith(d, "905"))
    || (|d| == 10 && StartsWith(d, "5"))
    || (|d| == 11 && StartsWith(d, "05"))
  }

  lemma ValidInternational(d: string)
    requires AllDigits(d) && StartsWith(d, "90")
    ensures IsValid("+" + d) <==> MobileDigits(d)
  {
    var r := "+" + d;
    if IsValid(r) {
      assert d[..3] == r[1..4];
      assert r[1..4] == r[..4][1..];
    }
    if MobileDigits(d) {
      assert d[0] == d[..2][0] == '9';
      assert |d| == 12 && d[..3] == "905";
      assert r[..4] == "+" + d[..3];
      assert r[4..] == d[3..];
    }
  }

  lemma ValidNational(d: string)
    requires AllDigits(d) && StartsWith(d, "5") && |d| == 10
    ensures IsValid("+90" + d) && MobileDigits(d)
  {
    var r := "+90" + d;
    assert r[..4] == "+90" + d[..1];
    assert r[4..] == d[1..];
  }

  lemma ValidTrunk(d: string)
    requires AllDigits(d) && StartsWith(d, "0") && |d| == 11
    ensures IsValid("+90" + d[1..]) <==> MobileDigits(d)
  {
    var r := "+90" + d[1..];
    if IsValid(r) {
      assert r[..4] == "+905";
      assert d[1] == r[3];
      assert d[..2] == [d[0], d[1]];
    }
    if MobileDigits(d) {
      assert d[..2] == "05";
      assert d[1] == '5';
      assert r[..4] == "+90" + d[1..2];
      assert r[4..] == d[2..];
    }
  }

  /** Formatting followed by validation accepts a raw input exactly when
      its digits, whatever separators surround them, spell a mobile
      number in one of the three recognised layouts. */
  lemma ValidAfterFormatIff(raw: string)
    ensures IsValid(Format(raw)) <==> MobileDigits(Digits(raw))
  {
    var d := Digits(raw);
    if StartsWith(d, "90") {
      ValidInternational(d);
    } else if StartsWith(d, "5") && |d| == 10 {
      ValidNational(d);
    } else if StartsWith(d, "0") && |d| == 11 {
      ValidTrunk(d);
    } else {
      if IsValid(raw) {
        DigitsOfValid(raw);
        assert false;
      }
      if MobileDigits(d) {
        assert false;
      }
    }
  }
}

/** The amount cleaner of `clean_amount` (converter.py): remove commas and
    double quotes, strip whitespace, parse a decimal number, and turn
    anything unparseable into an absent value instead of an exception.
    Amounts are exact rationals. */
module AmountCleaner {
  import opened Wrappers
  import opened Text
  import opened Digits

  /** An accepted unsigned number: digits with an optional fractional part,
      or a fractional part alone (`12`, `12.`, `12.5`, `.5`). */
  function ParseUnsigned(s: string): (r: Option<real>)
    ensures r.Some? ==> r.value >= 0.0 && s != []
  {
    var k := DigitRun(s);
    if k == |s| then
      if k == 0 then None else Some(DigitsValue(s) as real)
    else if s[k] != '.' then None
    else ParseFraction(s[..k], s[k + 1..])
  }

  /** Only digits and points make an accepted unsigned number. */
  lemma UnsignedAlphabet(s: string)
    requires ParseUnsigned(s).Some?
    ensures forall i :: 0 <= i < |s| ==> IsDigit(s[i]) || s[i] == '.'
  {
    var k := DigitRun(s);
    if k == |s| {
      assert s[..k] == s;
    } else {
      assert forall i :: 0 <= i < k ==> s[i] == s[..k][i];
      assert forall i :: k + 1 <= i < |s| ==> s[i] == s[k + 1..][i - k - 1];
    }
  }

  /** The part after the integer digits and the point: `whole` digits, then
      only digits, and at least one digit on one side of the point. */
  function ParseFraction(whole: string, frac: string): (r: Option<real>)
    requires AllDigits(whole)
    ensures r.Some? ==> r.value >= 0.0 && AllDigits(frac) && (whole != [] || frac != [])
  {
    if DigitRun(frac) != |frac| || (whole == [] && frac == []) then None
    else
      assert frac[..|frac|] == frac;
      Some(DigitsValue(whole) as real + Scaled(DigitsValue(frac), |frac|))
  }

  /** v / 10^k, computed by k divisions by ten so that it stays linear. */
  function Scaled(v: nat, k: nat): (r: real)
    ensures r >= 0.0
  {
    if k == 0 then v as real else Scaled(v, k - 1) / 10.0
  }

  lemma {:induction false} ScaledIsQuotient(v: nat, k: nat)
    ensures Scaled(v, k) == v as real / Pow10(k) as real
  {
    if k > 0 {
      ScaledIsQuotient(v, k - 1);
      var p := Pow10(k - 1) as real;
      assert Pow10(k) as real == 10.0 * p;
      assert (v as real / p) / 10.0 == v as real / (10.0 * p);
    }
  }

  lemma {:induction false} ScaledAdd(x: nat, y: nat, k: nat)
    ensures Scaled(x + y, k) == Scaled(x, k) + Scaled(y, k)
  {
    if k > 0 {
      ScaledAdd(x, y, k - 1);
    }
  }

  lemma {:induction false} ScaledShift(a: nat, k: nat)
    ensures Scaled(Shift(a, k), k) == a as real
  {
    if k > 0 {
      ScaledTen(Shift(a, k - 1), k - 1);
      ScaledShift(a, k - 1);
    }
  }

  lemma {:induction false} ScaledTen(x: nat, k: nat)
    ensures Scaled(10 * x, k + 1) == Scaled(x, k)
  {
    if k > 0 {
      ScaledTen(x, k - 1);
    }
  }

  /** `float(s)` restricted to plain decimal notation: an optional sign and an
      unsigned number. */
  function ParseDecimal(s: string): (r: Option<real>)
    ensures r.Some? ==> s != []
    ensures r.Some? && r.value < 0.0 ==> s[0] == '-'
  {
    if s != [] && (s[0] == '+' || s[0] == '-') then
      match ParseUnsigned(s[1..])
      case None => None
      case Some(v) => Some(if s[0] == '-' then -v else v)
    else ParseUnsigned(s)
  }

  /** An accepted number is made of digits, points and signs only. */
  lemma DecimalAlphabet(s: string)
    requires ParseDecimal(s).Some?
    ensures forall i :: 0 <= i < |s| ==> IsDigit(s[i]) || s[i] == '.' || s[i] == '+' || s[i] == '-'
  {
    if s[0] == '+' || s[0] == '-' {
      UnsignedAlphabet(s[1..]);
      assert forall i :: 1 <= i < |s| ==> s[i] == s[1..][i - 1];
    } else {
      UnsignedAlphabet(s);
    }
  }

  /** `clean_amount`: a missing cell or the empty string is absent; otherwise
      the cell with separators removed and whitespace stripped is parsed, and
      a parse failure is absent too. */
  function CleanAmount(cell: Option<string>): (r: Option<real>)
    ensures cell.None? || cell == Some("") ==> r.None?
  {
    match cell
    case None => None
    case Some(s) => if s == "" then None else ParseDecimal(Cleaned(s))
  }

  /** The text `float` is applied to. */
  function Cleaned(s: string): string {
    Strip(Unquote(s))
  }

  /** Inserting a comma or a double quote anywhere never changes the
      cleaned amount, even in an empty cell. */
  lemma IgnoresSeparator(s: string, i: nat, c: char)
    requires i <= |s| && IsSeparator(c)
    ensures CleanAmount(Some(s[..i] + [c] + s[i..])) == CleanAmount(Some(s))
  {
    var t := s[..i] + [c] + s[i..];
    UnquoteConcat(s[..i] + [c], s[i..]);
    UnquoteConcat(s[..i], [c]);
    UnquoteConcat(s[..i], s[i..]);
    assert s[..i] + s[i..] == s;
    assert Unquote([c]) == [];
    assert Unquote(t) == Unquote(s);
    if s == "" {
      assert Unquote(s) == [];
    }
  }

  /** Cleaning is idempotent: cleaning the cleaned text gives the same amount. */
  lemma CleanIdempotent(s: string)
    ensures CleanAmount(Some(Cleaned(s))) == CleanAmount(Some(s))
  {
    CleanedIsFixed(s);
    if s == "" {
      assert Unquote(s) == [];
    }
  }

  /** The cleaned text has nothing left to clean. */
  lemma CleanedIsFixed(s: string)
    ensures Cleaned(Cleaned(s)) == Cleaned(s)
  {
    var u := Unquote(s);
    var t := Strip(u);
    assert forall i :: 0 <= i < |t| ==> t[i] == u[LeadingSpaces(u) + i];
    UnquoteNoSeparators(t);
    StripIdempotent(u);
  }

  function Abs(m: int): nat {
    if m < 0 then -m else m
  }

  /** A digit string with a point placed before its last k digits (no
      point when k = 0). */
  function PointAt(digits: string, k: nat): (r: string)
    requires |digits| > k
    ensures r != [] && r[0] == digits[0]
  {
    var split := |digits| - k;
    digits[..split] + (if k == 0 then "" else "." + digits[split..])
  }

  /** n / 10^k without a sign: at least one integer digit, then a point and
      exactly k fractional digits when k > 0. */
  function RenderUnsigned(n: nat, k: nat): (r: string)
    ensures r != [] && IsDigit(r[0])
  {
    PointAt(PadLeft(n, k + 1), k)
  }

  /** The plain rendering of m / 10^k, with a minus sign for negatives
      (`-4.50` is RenderDecimal(-450, 2)). */
  function RenderDecimal(m: int, k: nat): (r: string)
    ensures r != []
  {
    (if m < 0 then "-" else "") + RenderUnsigned(Abs(m), k)
  }

  /** Digits, a point and digits split at the point. */
  lemma ParseSplitsAtPoint(whole: string, frac: string)
    requires AllDigits(whole)
    ensures ParseUnsigned(whole + "." + frac) == ParseFraction(whole, frac)
  {
    var s := whole + "." + frac;
    var k := DigitRun(s);
    assert k == |whole| && s[..k] == whole && s[k] == '.' && s[k + 1..] == frac by {
      assert s == whole + ("." + frac);
      DigitRunPrefix(whole, "." + frac);
    }
  }

  lemma FractionValue(whole: string, frac: string)
    requires AllDigits(whole) && AllDigits(frac) && (whole != [] || frac != [])
    ensures ParseFraction(whole, frac) == Some(DigitsValue(whole) as real + Scaled(DigitsValue(frac), |frac|))
  {
    DigitRunAllDigits(frac);
  }

  /** Digits, a point and at least one more digit parse to the value of
      all the digits divided by 10^(number after the point). */
  lemma PointedParses(whole: string, frac: string)
    requires whole != [] && AllDigits(whole) && AllDigits(frac)
    ensures AllDigits(whole + frac)
    ensures ParseUnsigned(whole + "." + frac) == Some(Scaled(DigitsValue(whole + frac), |frac|))
  {
    DigitsValueConcat(whole, frac);
    var a, b, k := DigitsValue(whole), DigitsValue(frac), |frac|;
    assert DigitsValue(whole + frac) == Shift(a, k) + b;
    assert a as real + Scaled(b, k) == Scaled(DigitsValue(whole + frac), k) by {
      JoinedValue(a, b, k);
    }
    PointedValue(whole, frac);
  }

  /** a + b / 10^k is the number with a's digits followed by k digits of b,
      divided by 10^k. */
  lemma JoinedValue(a: nat, b: nat, k: nat)
    ensures a as real + Scaled(b, k) == Scaled(Shift(a, k) + b, k)
  {
    ScaledAdd(Shift(a, k), b, k);
    ScaledShift(a, k);
  }

  /** A digit string with a point placed before its last k digits parses to
      its value divided by 10^k. */
  lemma PointAtParses(digits: string, k: nat)
    requires AllDigits(digits) && |digits| > k
    ensures ParseUnsigned(PointAt(digits, k)) == Some(Scaled(DigitsValue(digits), k))
  {
    if k == 0 {
      assert PointAt(digits, k) == digits;
      WholeValue(digits);
    } else {
      var split := |digits| - k;
      PointAtSplit(digits, k);
      assert digits == digits[..split] + digits[split..];
      PointedParses(digits[..split], digits[split..]);
    }
  }

  lemma PointAtSplit(digits: string, k: nat)
    requires AllDigits(digits) && |digits| > k > 0
    ensures PointAt(digits, k) == digits[..|digits| - k] + "." + digits[|digits| - k..]
    ensures digits[..|digits| - k] != [] && AllDigits(digits[..|digits| - k]) && AllDigits(digits[|digits| - k..])
  {
    var split := |digits| - k;
    assert forall i :: 0 <= i < split ==> digits[..split][i] == digits[i];
    assert forall i :: 0 <= i < k ==> digits[split..][i] == digits[split + i];
  }

  /** The signed value m / 10^k in terms of the linear `Scaled`. */
  lemma SignedQuotient(m: int, k: nat)
    ensures (if m < 0 then -Scaled(Abs(m), k) else Scaled(Abs(m), k)) == m as real / Pow10(k) as real
  {
    ScaledIsQuotient(Abs(m), k);
    var p := Pow10(k) as real;
    assert p > 0.0;
    if m < 0 {
      assert Abs(m) as real == -(m as real);
      assert -((-(m as real)) / p) == m as real / p;
    }
  }

  /** The exact number m / 10^k. */
  function DecimalValue(m: int, k: nat): (r: real)
    ensures r == m as real / Pow10(k) as real
  {
    SignedQuotient(m, k);
    if m < 0 then -Scaled(Abs(m), k) else Scaled(Abs(m), k)
  }

  /** Rendering and parsing are inverse: the rendered text parses back to
      exactly m / 10^k. */
  lemma RenderRoundTrip(m: int, k: nat)
    ensures ParseDecimal(RenderDecimal(m, k)) == Some(DecimalValue(m, k))
  {
    var body := RenderUnsigned(Abs(m), k);
    assert ParseUnsigned(body) == Some(Scaled(Abs(m), k)) by {
      PointAtParses(PadLeft(Abs(m), k + 1), k);
    }
    if m < 0 {
      assert RenderDecimal(m, k) == ['-'] + body;
      SignedValue('-', body);
    } else {
      assert RenderDecimal(m, k) == body;
      UnsignedValue(body);
    }
  }

  /** The plain decimal grammar, stated on its own: only digits and points,
      at most one point, and at least one digit. */
  predicate PlainUnsigned(s: string) {
    (forall i :: 0 <= i < |s| ==> IsDigit(s[i]) || s[i] == '.')
    && (forall i, j :: 0 <= i < j < |s| && s[i] == '.' ==> s[j] != '.')
    && (exists i :: 0 <= i < |s| && IsDigit(s[i]))
  }

  /** An optional `+` or `-` in front of a plain unsigned number. */
  predicate PlainDecimal(s: string) {
    if s != [] && (s[0] == '+' || s[0] == '-') then PlainUnsigned(s[1..]) else PlainUnsigned(s)
  }

  /** The unsigned parser accepts exactly the plain unsigned numbers. */
  lemma UnsignedAccepts(s: string)
    ensures ParseUnsigned(s).Some? <==> PlainUnsigned(s)
  {
    if ParseUnsigned(s).Some? {
      AcceptedIsPlain(s);
    }
    if PlainUnsigned(s) {
      PlainIsAccepted(s);
    }
  }

  lemma AcceptedIsPlain(s: string)
    requires ParseUnsigned(s).Some?
    ensures PlainUnsigned(s)
  {
    UnsignedAlphabet(s);
    var k := DigitRun(s);
    assert forall i :: 0 <= i < k ==> s[i] == s[..k][i];
    if k == |s| {
      assert IsDigit(s[0]);
    } else {
      var frac := s[k + 1..];
      assert AllDigits(frac) && (k > 0 || frac != []);
      assert forall i :: k + 1 <= i < |s| ==> s[i] == frac[i - k - 1];
      if k > 0 {
        assert IsDigit(s[0]);
      } else {
        assert IsDigit(s[k + 1]);
      }
    }
  }

  lemma PlainIsAccepted(s: string)
    requires PlainUnsigned(s)
    ensures ParseUnsigned(s).Some?
  {
    var k := DigitRun(s);
    if k < |s| {
      assert s[k] == '.';
      var frac := s[k + 1..];
      assert AllDigits(frac) by {
        forall i | 0 <= i < |frac| ensures IsDigit(frac[i]) {
          assert frac[i] == s[k + 1 + i];
        }
      }
      DigitRunAllDigits(frac);
    }
  }

  /** Digits without a point are worth their value. */
  lemma WholeValue(w: string)
    requires w != [] && AllDigits(w)
    ensures ParseUnsigned(w) == Some(DigitsValue(w) as real)
  {
    DigitRunAllDigits(w);
  }

  /** Digits, a point and digits, with a digit on at least one side, are
      worth the integer digits plus the fraction digits over 10^(their
      count); `5.` and `.5` included. */
  lemma PointedValue(w: string, f: string)
    requires AllDigits(w) && AllDigits(f) && (w != [] || f != [])
    ensures ParseUnsigned(w + "." + f) == Some(DigitsValue(w) as real + Scaled(DigitsValue(f), |f|))
  {
    ParseSplitsAtPoint(w, f);
    FractionValue(w, f);
  }

  /** The decimal parser accepts exactly the plain decimals. */
  lemma DecimalAccepts(s: string)
    ensures ParseDecimal(s).Some? <==> PlainDecimal(s)
  {
    if s != [] && (s[0] == '+' || s[0] == '-') {
      UnsignedAccepts(s[1..]);
    } else {
      UnsignedAccepts(s);
    }
  }

  /** A leading sign negates (`-`) or keeps (`+`) the unsigned value; an
      unsigned number with no sign is parsed as it stands. */
  lemma SignedValue(sign: char, body: string)
    requires sign == '+' || sign == '-'
    ensures ParseDecimal([sign] + body) ==
      match ParseUnsigned(body) case None => None case Some(v) => Some(if sign == '-' then -v else v)
  {
    assert ([sign] + body)[0] == sign && ([sign] + body)[1..] == body;
  }

  lemma UnsignedValue(body: string)
    requires body == [] || (body[0] != '+' && body[0] != '-')
    ensures ParseDecimal(body) == ParseUnsigned(body)
  {
  }

  /** `.5`, `5.` and `+3` are accepted with their values. */
  lemma ExampleLooseForms()
    ensures ParseDecimal(".5") == Some(0.5)
    ensures ParseDecimal("5.") == Some(5.0)
    ensures ParseDecimal("+3") == Some(3.0)
  {
    PointedValue("", "5");
    assert "" + "." + "5" == ".5";
    PointedValue("5", "");
    assert "5" + "." + "" == "5.";
    WholeValue("3");
    SignedValue('+', "3");
    assert ['+'] + "3" == "+3";
  }

  /** `1.2.3`, `.` and `--5` are rejected. */
  lemma ExampleRejected()
    ensures ParseDecimal("1.2.3") == None
    ensures ParseDecimal(".") == None
    ensures ParseDecimal("--5") == None
  {
    DecimalAccepts("1.2.3");
    assert "1.2.3"[1] == '.' && "1.2.3"[3] == '.';
    DecimalAccepts(".");
    DecimalAccepts("--5");
    assert "--5"[1..][0] == '-';
  }

  /** Digits, points and signs are neither separators nor whitespace. */
  lemma NumberCharsArePlain(s: string)
    requires forall i :: 0 <= i < |s| ==> IsDigit(s[i]) || s[i] == '.' || s[i] == '+' || s[i] == '-'
    ensures forall i :: 0 <= i < |s| ==> !IsSeparator(s[i]) && !IsSpace(s[i])
  {
  }

  /** Any plainly rendered amount cleans to its exact value. */
  lemma CleanRendered(m: int, k: nat)
    ensures CleanAmount(Some(RenderDecimal(m, k))) == Some(DecimalValue(m, k))
  {
    var r := RenderDecimal(m, k);
    RenderRoundTrip(m, k);
    DecimalAlphabet(r);
    NumberCharsArePlain(r);
    UnquoteNoSeparators(r);
    StripUnpadded(r);
  }

  lemma ExampleDigits()
    ensures AllDigits("123456") && DigitsValue("123456") == 123456
  {
    assert "12"[..1] == "1";
    assert "123"[..2] == "12";
    assert "1234"[..3] == "123";
    assert "12345"[..4] == "1234";
    assert "123456"[..5] == "12345";
  }

  lemma ExampleParse()
    ensures ParseDecimal("1234.56") == Some(1234.56)
  {
    ExampleDigits();
    assert PointAt("123456", 2) == "1234.56";
    PointAtParses("123456", 2);
    assert Scaled(123456, 2) == 1234.56;
  }

  lemma ExampleSplit()
    ensures "1234.56"[..1] + [','] + "1234.56"[1..] == "1,234.56"
  {
    assert "1234.56"[..1] == "1" && "1234.56"[1..] == "234.56";
  }

  lemma ExampleCleaned()
    ensures Cleaned("1234.56") == "1234.56"
  {
    UnquoteNoSeparators("1234.56");
    StripUnpadded("1234.56");
  }

  /** The thousands-separator example: "1,234.56" cleans to 1234.56. */
  lemma CleanThousands()
    ensures CleanAmount(Some("1,234.56")) == Some(1234.56)
  {
    var plain := "1234.56";
    ExampleCleaned();
    ExampleParse();
    assert CleanAmount(Some(plain)) == Some(1234.56);
    IgnoresSeparator(plain, 1, ',');
    ExampleSplit();
  }

  /** A rendered amount with a comma inserted anywhere, as in a thousands
      separator, still cleans to its exact value. */
  lemma CleanRenderedWithComma(m: int, k: nat, i: nat)
    requires i <= |RenderDecimal(m, k)|
    ensures CleanAmount(Some(RenderDecimal(m, k)[..i] + [','] + RenderDecimal(m, k)[i..])) == Some(DecimalValue(m, k))
  {
    CleanRendered(m, k);
    IgnoresSeparator(RenderDecimal(m, k), i, ',');
  }
}

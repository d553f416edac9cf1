/** Which texts the persisted decimal accepts, and what number each stands for, told from the text alone. */
module DecimalReading {
  import opened DecimalText
  import opened Rounding

  function Pow10(n: nat): (p: nat)
    ensures p > 0
  {
    if n == 0 then 1 else 10 * Pow10(n - 1)
  }

  lemma {:induction false} Pow10Adds(a: nat, b: nat)
    ensures Pow10(a + b) == Pow10(a) * Pow10(b)
  {
    if a > 0 {
      Pow10Adds(a - 1, b);
      assert 10 * (Pow10(a - 1) * Pow10(b)) == 10 * Pow10(a - 1) * Pow10(b);
    }
  }

  lemma AppendZero(s: string)
    requires AllDigits(s)
    ensures AllDigits(s + "0") && Number(s + "0") == Number(s) * 10
  {
    assert (s + "0")[..|s|] == s;
  }

  lemma TenMore(x: int, n: nat)
    ensures x * Pow10(n) * 10 == x * Pow10(n + 1)
  {
    assert x * (10 * Pow10(n)) == x * Pow10(n) * 10;
  }

  /** Zeros behind a number scale it. */
  lemma {:induction false} NumberWithZeros(s: string, n: nat)
    requires AllDigits(s)
    ensures AllDigits(s + Zeros(n)) && Number(s + Zeros(n)) == Number(s) * Pow10(n)
  {
    hide Number;
    if n == 0 {
      assert s + Zeros(0) == s;
    } else {
      NumberWithZeros(s, n - 1);
      AppendZero(s + Zeros(n - 1));
      assert s + Zeros(n) == s + Zeros(n - 1) + "0";
      TenMore(Number(s), n - 1);
    }
  }

  // ---------- Space around a text ----------

  predicate AllSpace(s: string) {
    forall i :: 0 <= i < |s| ==> IsSpace(s[i])
  }

  /** A text with no space at either end. */
  predicate Bare(s: string) {
    s == "" || (!IsSpace(s[0]) && !IsSpace(s[|s| - 1]))
  }

  /** What trimming takes away is space, and what it leaves is bare. */
  lemma {:induction false} TrimSpaceParts(s: string) returns (lead: string, tail: string)
    ensures AllSpace(lead) && AllSpace(tail) && Bare(TrimSpace(s)) && s == lead + TrimSpace(s) + tail
    decreases |s|
  {
    hide IsSpace;
    lead, tail := "", "";
    if s != "" && IsSpace(s[0]) {
      var inner;
      inner, tail := TrimSpaceParts(s[1..]);
      lead := [s[0]] + inner;
    } else if s != "" && IsSpace(s[|s| - 1]) {
      var inner;
      lead, inner := TrimSpaceParts(s[..|s| - 1]);
      tail := inner + [s[|s| - 1]];
    }
  }

  /** Space around a bare text is trimmed away. */
  lemma {:induction false} TrimSpaceOf(lead: string, core: string, tail: string)
    requires AllSpace(lead) && AllSpace(tail) && Bare(core) && core != ""
    ensures TrimSpace(lead + core + tail) == core
    decreases |lead| + |tail|
  {
    hide IsSpace;
    var s := lead + core + tail;
    if lead != "" {
      assert s[0] == lead[0] && s[1..] == lead[1..] + core + tail;
      TrimSpaceOf(lead[1..], core, tail);
    } else if tail != "" {
      var last := |tail| - 1;
      assert s[0] == core[0] && s[|s| - 1] == tail[last] && s[..|s| - 1] == lead + core + tail[..last];
      TrimSpaceOf(lead, core, tail[..last]);
    } else {
      assert s == core;
    }
  }

  // ---------- A magnitude ----------

  /** Digits, and after an optional point up to 18 more. */
  predicate Written(body: string, whole: string, fraction: string) {
    && AllDigits(whole) && whole != "" && AllDigits(fraction) && |fraction| <= SCALE
    && (body == whole + "." + fraction || (fraction == "" && body == whole))
  }

  /** units stands for the digits with the point before the fraction. */
  predicate Counts(units: int, whole: string, fraction: string) {
    && AllDigits(whole) && AllDigits(fraction)
    && units * Pow10(|fraction|) == Number(whole + fraction) * Pow10(SCALE)
  }

  lemma {:induction false} SplitBack(s: string, c: char)
    ensures var parts := Split(s, c);
      && (|parts| == 1 ==> s == parts[0] && c !in s)
      && (|parts| == 2 ==> s == parts[0] + [c] + parts[1] && c !in parts[0] && c !in parts[1])
  {
    if s != "" {
      SplitBack(s[1..], c);
      var rest, parts := Split(s[1..], c), Split(s, c);
      assert s == [s[0]] + s[1..];
      if s[0] == c && |rest| == 1 {
        assert s == "" + [c] + rest[0];
      } else if s[0] != c && |rest| == 2 {
        assert s == [s[0]] + rest[0] + [c] + rest[1];
      }
    }
  }

  lemma DigitsHaveNoPoint(s: string)
    requires AllDigits(s)
    ensures '.' !in s && 'e' !in s && 'E' !in s
  {
  }

  lemma ScaledIff(units: int, n: int, k: nat, f: nat)
    ensures units * Pow10(f) == n * Pow10(k + f) <==> units == n * Pow10(k)
  {
    Pow10Adds(k, f);
    var p, q := Pow10(k), Pow10(f);
    assert n * (p * q) == n * p * q;
    MulOrder(units, n * p, q);
  }

  lemma ScaledCounts(whole: string, fraction: string)
    requires AllDigits(whole) && AllDigits(fraction) && |fraction| <= SCALE
    ensures AllDigits(whole + fraction + Zeros(SCALE - |fraction|))
    ensures forall units :: Counts(units, whole, fraction) <==>
              units == Number(whole + fraction + Zeros(SCALE - |fraction|))
  {
    hide Number, Pow10;
    var n, k := Number(whole + fraction), SCALE - |fraction|;
    NumberWithZeros(whole + fraction, k);
    forall units
      ensures Counts(units, whole, fraction) <==> units == Number(whole + fraction + Zeros(k))
    {
      ScaledIff(units, n, k, |fraction|);
    }
  }

  lemma WrittenIsRead(body: string, whole: string, fraction: string)
    requires Written(body, whole, fraction)
    ensures AllDigits(whole + fraction + Zeros(SCALE - |fraction|))
    ensures ParseMagnitude(body) == Parsed(Number(whole + fraction + Zeros(SCALE - |fraction|)))
  {
    DigitsHaveNoPoint(whole);
    DigitsHaveNoPoint(fraction);
    if body == whole + "." + fraction {
      SplitOnce(whole, fraction, '.');
    } else {
      SplitWithoutSeparator(whole, '.');
    }
  }

  lemma ReadIsWritten(body: string) returns (whole: string, fraction: string)
    requires ParseMagnitude(body).Parsed?
    ensures Written(body, whole, fraction)
  {
    SplitBack(body, '.');
    var parts := Split(body, '.');
    whole := parts[0];
    fraction := if |parts| == 2 then parts[1] else "";
    var digits := whole + fraction + Zeros(SCALE - Bytes(fraction));
    assert forall i :: 0 <= i < |whole| ==> digits[i] == whole[i];
    assert forall i :: 0 <= i < |fraction| ==> digits[|whole| + i] == fraction[i];
  }

  /** A magnitude is accepted exactly when it is so written, and then stands for its digits. */
  lemma MagnitudeIff(body: string, units: int)
    ensures ParseMagnitude(body) == Parsed(units) <==>
      exists whole, fraction :: Written(body, whole, fraction) && Counts(units, whole, fraction)
  {
    hide ParseMagnitude, Counts, Written;
    if ParseMagnitude(body) == Parsed(units) {
      var whole, fraction := ReadIsWritten(body);
      DigitsOf(body, whole, fraction);
      WrittenIsRead(body, whole, fraction);
      ScaledCounts(whole, fraction);
    }
    if whole, fraction :| Written(body, whole, fraction) && Counts(units, whole, fraction) {
      DigitsOf(body, whole, fraction);
      WrittenIsRead(body, whole, fraction);
      ScaledCounts(whole, fraction);
    }
  }

  lemma DigitsOf(body: string, whole: string, fraction: string)
    requires Written(body, whole, fraction)
    ensures AllDigits(whole) && AllDigits(fraction) && whole != "" && |fraction| <= SCALE
  {
  }

  // ---------- A whole text ----------

  /** An optional sign. */
  predicate IsSign(sign: string) {
    sign == "" || sign == "+" || sign == "-"
  }

  /** Space, a sign, digits with an optional point, and space. */
  ghost predicate Shaped(input: string, sign: string, whole: string, fraction: string) {
    && IsSign(sign)
    && exists lead, body, tail :: AllSpace(lead) && AllSpace(tail) && Written(body, whole, fraction)
                                && input == lead + (sign + body) + tail
  }

  lemma WrittenEnds(body: string, whole: string, fraction: string)
    requires Written(body, whole, fraction)
    ensures body != "" && IsDigit(body[0]) && Bare(body) && 'e' !in body && 'E' !in body
  {
    DigitsHaveNoPoint(whole);
    DigitsHaveNoPoint(fraction);
  }

  lemma ParseSigned(input: string, sign: string, body: string)
    requires IsSign(sign) && body != "" && IsDigit(body[0]) && 'e' !in body && 'E' !in body
    requires TrimSpace(input) == sign + body
    ensures Parse(input) == if sign == "-" then Negated(ParseMagnitude(body)) else ParseMagnitude(body)
  {
    var text := sign + body;
    if sign == "" {
      assert text == body;
    } else {
      assert text[1..] == body && text[0] == sign[0];
    }
  }

  /** What an accepted text stands for, read from its own characters: its digits scaled by the length of the
      fraction, negative after a minus sign. */
  lemma ShapedIsRead(input: string, sign: string, whole: string, fraction: string)
    requires Shaped(input, sign, whole, fraction)
    ensures Parse(input).Parsed?
    ensures Counts(if sign == "-" then -Parse(input).units else Parse(input).units, whole, fraction)
  {
    hide Written, Counts, ParseMagnitude, Parse, TrimSpace;
    var lead, body, tail :| AllSpace(lead) && AllSpace(tail) && Written(body, whole, fraction)
                            && input == lead + (sign + body) + tail;
    DigitsOf(body, whole, fraction);
    WrittenEnds(body, whole, fraction);
    assert Bare(sign + body) by {
      assert (sign + body)[|sign + body| - 1] == body[|body| - 1];
    }
    TrimSpaceOf(lead, sign + body, tail);
    ParseSigned(input, sign, body);
    WrittenIsRead(body, whole, fraction);
    ScaledCounts(whole, fraction);
  }

  lemma ReadIsShaped(input: string) returns (sign: string, whole: string, fraction: string)
    requires Parse(input).Parsed?
    ensures Shaped(input, sign, whole, fraction)
  {
    var text := TrimSpace(input);
    sign := if text[0] == '-' then "-" else if text[0] == '+' then "+" else "";
    var body := if sign == "" then text else text[1..];
    assert text == sign + body;
    hide ParseMagnitude, Written;
    whole, fraction := ReadIsWritten(body);
    var lead, tail := TrimSpaceParts(input);
    assert input == lead + (sign + body) + tail;
  }

  /** Exactly which texts are accepted. */
  lemma AcceptedIff(input: string)
    ensures Parse(input).Parsed? <==> exists sign, whole, fraction :: Shaped(input, sign, whole, fraction)
  {
    hide Parse, Shaped;
    if Parse(input).Parsed? {
      var sign, whole, fraction := ReadIsShaped(input);
    }
    if sign, whole, fraction :| Shaped(input, sign, whole, fraction) {
      ShapedIsRead(input, sign, whole, fraction);
    }
  }

  // ---------- What does not change the number ----------

  lemma PaddedScale(units: int, d: int, p: int, q: int, scale: int)
    requires q > 0
    ensures units * (p * q) == d * q * scale <==> units * p == d * scale
  {
    assert units * (p * q) == (units * p) * q;
    assert d * q * scale == (d * scale) * q;
    MulOrder(units * p, d * scale, q);
  }

  lemma PaddedDigits(n: nat, whole: string, fraction: string, m: nat, units: int)
    requires AllDigits(whole) && AllDigits(fraction) && |fraction| + m <= SCALE
    ensures AllDigits(Zeros(n) + whole) && AllDigits(fraction + Zeros(m))
    ensures Counts(units, Zeros(n) + whole, fraction + Zeros(m)) <==> Counts(units, whole, fraction)
  {
    hide Number, Pow10;
    var digits := whole + fraction;
    LeadingZerosDoNotCount(n, digits + Zeros(m));
    NumberWithZeros(digits, m);
    assert Zeros(n) + whole + (fraction + Zeros(m)) == Zeros(n) + (digits + Zeros(m));
    Pow10Adds(|fraction|, m);
    PaddedScale(units, Number(digits), Pow10(|fraction|), Pow10(m), Pow10(SCALE));
  }

  lemma ShapedAs(lead: string, sign: string, body: string, tail: string, whole: string, fraction: string)
    requires IsSign(sign) && AllSpace(lead) && AllSpace(tail) && Written(body, whole, fraction)
    ensures Shaped(lead + (sign + body) + tail, sign, whole, fraction)
  {
  }

  /** Space around a number, a plus sign, zeros before it and zeros behind its fraction do not change it. */
  lemma PaddingDoesNotCount(lead: string, sign: string, n: nat, whole: string, fraction: string, m: nat, tail: string)
    requires AllSpace(lead) && AllSpace(tail) && IsSign(sign)
    requires AllDigits(whole) && whole != "" && AllDigits(fraction) && |fraction| + m <= SCALE
    ensures var plain := (if sign == "-" then "-" else "") + (whole + "." + fraction);
      var padded := lead + (sign + (Zeros(n) + whole + "." + (fraction + Zeros(m)))) + tail;
      Parse(plain).Parsed? && Parse(padded) == Parse(plain)
  {
    hide Parse, Counts, TrimSpace;
    var minus := if sign == "-" then "-" else "";
    var plain := minus + (whole + "." + fraction);
    var padded := lead + (sign + (Zeros(n) + whole + "." + (fraction + Zeros(m)))) + tail;
    assert plain == "" + (minus + (whole + "." + fraction)) + "";
    ShapedAs("", minus, whole + "." + fraction, "", whole, fraction);
    PaddedDigits(n, whole, fraction, m, 0);
    ShapedAs(lead, sign, Zeros(n) + whole + "." + (fraction + Zeros(m)), tail, Zeros(n) + whole, fraction + Zeros(m));
    ShapedIsRead(plain, minus, whole, fraction);
    ShapedIsRead(padded, sign, Zeros(n) + whole, fraction + Zeros(m));
    var units := if sign == "-" then -Parse(padded).units else Parse(padded).units;
    PaddedDigits(n, whole, fraction, m, units);
    ScaledCounts(whole, fraction);
  }

  /** The scale error is for a text that is otherwise in two parts but has too long a fraction. */
  lemma ScaleExceededIff(body: string)
    ensures ParseMagnitude(body) == Failed(ScaleExceeded) <==>
      exists whole, fraction :: body == whole + "." + fraction && whole != "" && '.' !in whole && '.' !in fraction
                             && Bytes(fraction) > SCALE
  {
    hide Bytes;
    SplitBack(body, '.');
    var parts := Split(body, '.');
    if whole, fraction :| body == whole + "." + fraction && whole != "" && '.' !in whole && '.' !in fraction
                          && Bytes(fraction) > SCALE {
      SplitOnce(whole, fraction, '.');
    }
    if ParseMagnitude(body) == Failed(ScaleExceeded) {
      BytesOfNothing();
      assert body == parts[0] + "." + parts[1];
    }
  }

  lemma BytesOfNothing()
    ensures Bytes("") == 0
  {
  }
}

/** The persisted decimal: an integer count of 10^-18 units, printed and parsed as text. */
module DecimalText {
  import opened Rounding

  const SCALE: nat := 18

  datatype ParseError = InvalidDecimal | ScaleExceeded
  datatype ParseResult = Parsed(units: int) | Failed(error: ParseError)

  // ---------- Integers as digit strings ----------

  predicate IsDigit(c: char) {
    '0' <= c <= '9'
  }

  predicate AllDigits(s: string) {
    forall i :: 0 <= i < |s| ==> IsDigit(s[i])
  }

  function DigitOf(n: nat): char
    requires n < 10
  {
    '0' + n as char
  }

  /** The decimal digits of n without leading zeros. */
  function Digits(n: nat): (s: string)
    ensures |s| > 0 && AllDigits(s)
    ensures s[0] == '0' ==> s == "0"
    ensures n > 0 ==> s[0] != '0'
  {
    if n < 10 then [DigitOf(n)] else Digits(n / 10) + [DigitOf(n % 10)]
  }

  /** The number a digit string denotes. */
  function Number(s: string): nat
    requires AllDigits(s)
  {
    if s == "" then 0
    else Number(s[..|s| - 1]) * 10 + (s[|s| - 1] - '0') as nat
  }

  function Zeros(n: nat): (s: string)
    ensures |s| == n && AllDigits(s) && forall i :: 0 <= i < n ==> s[i] == '0'
  {
    seq(n, _ => '0')
  }

  lemma NumberOfDigits(n: nat)
    ensures Number(Digits(n)) == n
  {
    if n >= 10 {
      var s := Digits(n);
      assert s[..|s| - 1] == Digits(n / 10);
      NumberOfDigits(n / 10);
    }
  }

  lemma {:induction false} LeadingZerosDoNotCount(n: nat, s: string)
    requires AllDigits(s)
    ensures AllDigits(Zeros(n) + s) && Number(Zeros(n) + s) == Number(s)
  {
    var t := Zeros(n) + s;
    if s != "" {
      assert t[..|t| - 1] == Zeros(n) + s[..|s| - 1];
      LeadingZerosDoNotCount(n, s[..|s| - 1]);
    } else if n > 0 {
      assert t[..n - 1] == Zeros(n - 1) + "";
      LeadingZerosDoNotCount(n - 1, "");
    }
  }

  lemma {:induction false} DigitsOfNumber(s: string)
    requires AllDigits(s) && s != "" && (s[0] == '0' ==> s == "0")
    ensures Digits(Number(s)) == s
    ensures s[0] != '0' ==> Number(s) > 0
  {
    var last := |s| - 1;
    if last > 0 {
      DigitsOfNumber(s[..last]);
      DigitsStep(Number(s[..last]), (s[last] - '0') as nat);
      assert s == s[..last] + [s[last]];
    }
  }

  lemma DigitsStep(n: nat, d: nat)
    requires n > 0 && d < 10
    ensures Digits(n * 10 + d) == Digits(n) + [DigitOf(d)]
  {
    assert (n * 10 + d) / 10 == n && (n * 10 + d) % 10 == d;
  }

  // ---------- Trimming ----------

  /** s without its trailing run of c. */
  function TrimRight(s: string, c: char): (t: string)
    ensures t <= s
    ensures t == "" || t[|t| - 1] != c
    ensures forall i :: |t| <= i < |s| ==> s[i] == c
  {
    if s != "" && s[|s| - 1] == c then TrimRight(s[..|s| - 1], c) else s
  }

  /** Unicode White_Space, the characters strings.TrimSpace removes. */
  predicate IsSpace(c: char) {
    c in "\t\n\U{0B}\U{0C}\r \U{85}\U{A0}\U{1680}\U{2028}\U{2029}\U{202F}\U{205F}\U{3000}"
    || '\U{2000}' <= c <= '\U{200A}'
  }

  function TrimSpace(s: string): string
    decreases |s|
  {
    if s != "" && IsSpace(s[0]) then TrimSpace(s[1..])
    else if s != "" && IsSpace(s[|s| - 1]) then TrimSpace(s[..|s| - 1])
    else s
  }

  // ---------- Printing ----------

  /** Text of a nonnegative count of units: the digits padded to 19 or more, split before the last
      18, then stripped of trailing zeros and of a trailing point. */
  function PrintMagnitude(units: nat): string {
    var digits := Padded(Digits(units));
    var point := |digits| - SCALE;
    TrimRight(TrimRight(digits[..point] + "." + digits[point..], '0'), '.')
  }

  function Padded(digits: string): (s: string)
    requires AllDigits(digits)
    ensures AllDigits(s) && |s| > SCALE
  {
    if |digits| > SCALE then digits else Zeros(SCALE + 1 - |digits|) + digits
  }

  /** A minus sign, except on "0". */
  function Signed(negative: bool, magnitude: string): string {
    if negative && magnitude != "0" then "-" + magnitude else magnitude
  }

  function Print(units: int): string {
    Signed(units < 0, PrintMagnitude(Abs(units)))
  }

  // ---------- Parsing ----------

  /** The pieces of s between separators; one more piece than there are separators. */
  function Split(s: string, separator: char): (parts: seq<string>)
    ensures |parts| > 0
  {
    if s == "" then [""]
    else
      var rest := Split(s[1..], separator);
      if s[0] == separator then [""] + rest else [[s[0]] + rest[0]] + rest[1..]
  }

  function Parse(input: string): ParseResult {
    var text := TrimSpace(input);
    if text == "" || 'e' in text || 'E' in text then Failed(InvalidDecimal)
    else
      var negative := text[0] == '-';
      var body := if negative || text[0] == '+' then text[1..] else text;
      match ParseMagnitude(body)
      case Failed(error) => Failed(error)
      case Parsed(units) => Parsed(if negative then -units else units)
  }

  /** The length of a character in UTF-8. */
  function Width(c: char): nat {
    if c < '\U{80}' then 1 else if c < '\U{800}' then 2 else if c < '\U{10000}' then 3 else 4
  }

  /** The length of a text in bytes, which is what len counts. */
  function Bytes(s: string): (n: nat)
    ensures n >= |s| && (AllDigits(s) ==> n == |s|)
  {
    if s == "" then 0 else Bytes(s[..|s| - 1]) + Width(s[|s| - 1])
  }

  function ParseMagnitude(body: string): (r: ParseResult)
    ensures r.Parsed? ==> r.units >= 0
  {
    var parts := Split(body, '.');
    if |parts| > 2 || parts[0] == "" then Failed(InvalidDecimal)
    else
      var fraction := if |parts| == 2 then parts[1] else "";
      if Bytes(fraction) > SCALE then Failed(ScaleExceeded)
      else
        var digits := parts[0] + fraction + Zeros(SCALE - Bytes(fraction));
        if AllDigits(digits) then Parsed(Number(digits)) else Failed(InvalidDecimal)
  }

  // ---------- The canonical form ----------

  /** Whole part without leading zeros; a fraction, if any, of 1 to 18 digits not ending in zero. */
  ghost predicate CanonicalMagnitude(s: string, whole: string, fraction: string) {
    && AllDigits(whole) && whole != "" && (whole[0] == '0' ==> whole == "0")
    && AllDigits(fraction) && |fraction| <= SCALE
    && (fraction != "" ==> fraction[|fraction| - 1] != '0')
    && s == if fraction == "" then whole else whole + "." + fraction
  }

  /** The 18-place digits of a magnitude and the units they count. */
  ghost predicate Denotes(whole: string, fraction: string, units: nat) {
    && AllDigits(whole) && AllDigits(fraction) && |fraction| <= SCALE
    && Number(whole + fraction + Zeros(SCALE - |fraction|)) == units
  }

  /** No padding, no plus sign, no trailing fraction zeros, and no "-0". */
  ghost predicate Canonical(s: string) {
    if s != "" && s[0] == '-' then
      s != "-0" && exists whole, fraction :: CanonicalMagnitude(s[1..], whole, fraction)
    else
      exists whole, fraction :: CanonicalMagnitude(s, whole, fraction)
  }

  lemma TrimRightStops(s: string, t: string, c: char)
    requires AllCharsAre(t, c)
    requires s == "" || s[|s| - 1] != c
    ensures TrimRight(s + t, c) == s
  {
    if t == "" {
      assert s + t == s;
    } else {
      assert (s + t)[..|s + t| - 1] == s + t[..|t| - 1];
      TrimRightStops(s, t[..|t| - 1], c);
    }
  }

  ghost predicate AllCharsAre(s: string, c: char) {
    forall i :: 0 <= i < |s| ==> s[i] == c
  }

  /** Stripping zeros and then a point leaves the significant part of a split digit string. */
  lemma StripFraction(whole: string, fraction: string, zeros: string)
    requires AllDigits(whole) && whole != "" && AllDigits(fraction) && AllCharsAre(zeros, '0')
    requires fraction == "" || fraction[|fraction| - 1] != '0'
    ensures TrimRight(TrimRight(whole + "." + (fraction + zeros), '0'), '.')
         == if fraction == "" then whole else whole + "." + fraction
  {
    var kept := whole + "." + fraction;
    assert whole + "." + (fraction + zeros) == kept + zeros;
    TrimRightStops(kept, zeros, '0');
    if fraction == "" {
      assert kept == whole + ".";
      TrimRightStops(whole, ".", '.');
    } else {
      TrimRightStops(kept, "", '.');
      assert kept + "" == kept;
    }
  }

  lemma PaddedKeepsNumber(units: nat)
    ensures Number(Padded(Digits(units))) == units
    ensures var whole := Padded(Digits(units))[..|Padded(Digits(units))| - SCALE];
      whole != "" && (whole[0] == '0' ==> whole == "0")
  {
    NumberOfDigits(units);
    var digits := Digits(units);
    if |digits| <= SCALE {
      LeadingZerosDoNotCount(SCALE + 1 - |digits|, digits);
    }
  }

  /** Digits without their trailing zeros, and the zeros that restore them. */
  lemma TrimmedZeros(tail: string)
    requires AllDigits(tail)
    ensures AllDigits(TrimRight(tail, '0'))
    ensures tail == TrimRight(tail, '0') + Zeros(|tail| - |TrimRight(tail, '0')|)
  {
  }

  lemma SplitPadded(whole: string, tail: string) returns (fraction: string)
    requires AllDigits(whole) && whole != "" && AllDigits(tail) && |tail| == SCALE
    ensures AllDigits(fraction) && |fraction| <= SCALE
    ensures fraction != "" ==> fraction[|fraction| - 1] != '0'
    ensures whole + tail == whole + fraction + Zeros(SCALE - |fraction|)
    ensures TrimRight(TrimRight(whole + "." + tail, '0'), '.')
         == if fraction == "" then whole else whole + "." + fraction
  {
    TrimmedZeros(tail);
    fraction := TrimRight(tail, '0');
    StripFraction(whole, fraction, Zeros(SCALE - |fraction|));
  }

  /** The whole part and the fraction a printed magnitude shows. */
  lemma PrintMagnitudeShape(units: nat) returns (whole: string, fraction: string)
    ensures Denotes(whole, fraction, units)
    ensures CanonicalMagnitude(PrintMagnitude(units), whole, fraction)
  {
    hide Digits, Number, Padded, TrimRight, Bytes;
    PaddedKeepsNumber(units);
    var digits := Padded(Digits(units));
    var point := |digits| - SCALE;
    whole := digits[..point];
    fraction := SplitPadded(whole, digits[point..]);
    assert digits == whole + digits[point..];
  }

  lemma {:induction false} SplitWithoutSeparator(s: string, c: char)
    requires c !in s
    ensures Split(s, c) == [s]
  {
    if s != "" {
      SplitWithoutSeparator(s[1..], c);
      assert s == [s[0]] + s[1..];
    }
  }

  lemma {:induction false} SplitOnce(s: string, t: string, c: char)
    requires c !in s && c !in t
    ensures Split(s + [c] + t, c) == [s, t]
  {
    var whole := s + [c] + t;
    if s == "" {
      assert whole[1..] == t;
      SplitWithoutSeparator(t, c);
    } else {
      assert whole[1..] == s[1..] + [c] + t;
      SplitOnce(s[1..], t, c);
      assert s == [s[0]] + s[1..];
    }
  }

  lemma ParseCanonicalMagnitude(s: string, whole: string, fraction: string)
    requires CanonicalMagnitude(s, whole, fraction)
    ensures AllDigits(whole + fraction + Zeros(SCALE - |fraction|))
    ensures ParseMagnitude(s) == Parsed(Number(whole + fraction + Zeros(SCALE - |fraction|)))
    ensures s != "" && IsDigit(s[0]) && IsDigit(s[|s| - 1]) && 'e' !in s && 'E' !in s
  {
    if fraction == "" {
      SplitWithoutSeparator(whole, '.');
    } else {
      SplitOnce(whole, fraction, '.');
    }
  }

  /** TrimSpace leaves text alone that neither starts nor ends with a space. */
  lemma ParseUnsigned(text: string)
    requires text != "" && IsDigit(text[0]) && IsDigit(text[|text| - 1]) && 'e' !in text && 'E' !in text
    ensures Parse(text) == ParseMagnitude(text)
  {
    assert TrimSpace(text) == text;
  }

  function Negated(r: ParseResult): ParseResult {
    match r
    case Failed(error) => Failed(error)
    case Parsed(units) => Parsed(-units)
  }

  lemma ParseNegative(text: string)
    requires text != "" && IsDigit(text[0]) && IsDigit(text[|text| - 1]) && 'e' !in text && 'E' !in text
    ensures Parse("-" + text) == Negated(ParseMagnitude(text))
  {
    var signed := "-" + text;
    assert signed[0] == '-' && signed[1..] == text && signed[|signed| - 1] == text[|text| - 1];
    assert TrimSpace(signed) == signed;
  }

  lemma ParseOfSigned(text: string, negative: bool)
    requires text != "" && IsDigit(text[0]) && IsDigit(text[|text| - 1]) && 'e' !in text && 'E' !in text
    ensures Parse(Signed(negative, text))
         == if negative && text != "0" then Negated(ParseMagnitude(text)) else ParseMagnitude(text)
  {
    if negative && text != "0" {
      ParseNegative(text);
    } else {
      ParseUnsigned(text);
    }
  }

  /** Whatever is printed reads back as the same number. */
  lemma ParseOfPrint(units: int)
    ensures Parse(Print(units)) == Parsed(units)
  {
    hide Parse, ParseMagnitude, TrimSpace, Split, PrintMagnitude, Number, TrimRight, Bytes;
    var result := PrintMagnitude(Abs(units));
    var whole, fraction := PrintMagnitudeShape(Abs(units));
    ParseCanonicalMagnitude(result, whole, fraction);
    ParseOfSigned(result, units < 0);
    if result == "0" {
      ParseZero();
    }
  }

  lemma ParseZero()
    ensures ParseMagnitude("0") == Parsed(0)
  {
    SplitWithoutSeparator("0", '.');
    assert "0" + "" + Zeros(SCALE) == Zeros(SCALE + 1) + "";
    LeadingZerosDoNotCount(SCALE + 1, "");
  }

  // ---------- Canonical texts are exactly the printed ones ----------

  lemma PrintIsCanonical(units: int)
    ensures Canonical(Print(units))
  {
    var result := PrintMagnitude(Abs(units));
    var whole, fraction := PrintMagnitudeShape(Abs(units));
    ParseCanonicalMagnitude(result, whole, fraction);
    assert ("-" + result)[1..] == result;
  }

  /** Two canonical magnitudes with the same digits are the same text. */
  lemma CanonicalMagnitudeUnique(s: string, whole: string, fraction: string,
                                 t: string, whole': string, fraction': string)
    requires CanonicalMagnitude(s, whole, fraction) && CanonicalMagnitude(t, whole', fraction')
    requires whole + fraction + Zeros(SCALE - |fraction|) == whole' + fraction' + Zeros(SCALE - |fraction'|)
    ensures s == t
  {
    var digits := whole + fraction + Zeros(SCALE - |fraction|);
    assert |whole| == |digits| - SCALE == |whole'|;
    assert whole == digits[..|whole|] == whole';
    assert forall i :: |whole| + |fraction| <= i < |digits| ==> digits[i] == '0';
    assert forall i :: |whole| + |fraction'| <= i < |digits| ==> digits[i] == '0';
    if fraction != "" {
      assert digits[|whole| + |fraction| - 1] == fraction[|fraction| - 1];
    }
    if fraction' != "" {
      assert digits[|whole| + |fraction'| - 1] == fraction'[|fraction'| - 1];
    }
    assert fraction == digits[|whole|..|whole| + |fraction|];
    assert fraction' == digits[|whole|..|whole| + |fraction'|];
  }

  /** Same length past a common 18-digit fraction, or not: equal numbers have equal digits. */
  lemma EqualNumbersEqualDigits(s: string, t: string)
    requires AllDigits(s) && AllDigits(t) && |s| > SCALE && |t| > SCALE
    requires s[0] == '0' ==> |s| == SCALE + 1
    requires t[0] == '0' ==> |t| == SCALE + 1
    requires Number(s) == Number(t)
    ensures s == t
  {
    if |s| == |t| {
      SameLengthDigits(s, t);
    } else if |s| < |t| {
      LongerIsGreater(s, t);
    } else {
      LongerIsGreater(t, s);
    }
  }

  lemma {:induction false} SameLengthDigits(s: string, t: string)
    requires AllDigits(s) && AllDigits(t) && |s| == |t| && Number(s) == Number(t)
    ensures s == t
  {
    if s != "" {
      var last := |s| - 1;
      SameLengthDigits(s[..last], t[..last]);
      assert s == s[..last] + [s[last]] && t == t[..last] + [t[last]];
    }
  }

  lemma {:induction false} LongerIsGreater(s: string, t: string)
    requires AllDigits(s) && AllDigits(t) && |s| < |t| && t[0] != '0'
    ensures Number(s) < Number(t)
  {
    if s != "" {
      LongerIsGreater(s[..|s| - 1], t[..|t| - 1]);
    } else if |t| > 1 {
      LongerIsGreater(s, t[..|t| - 1]);
    }
  }

  lemma PrintOfCanonicalMagnitude(s: string, whole: string, fraction: string)
    requires CanonicalMagnitude(s, whole, fraction)
    ensures AllDigits(whole + fraction + Zeros(SCALE - |fraction|))
    ensures PrintMagnitude(Number(whole + fraction + Zeros(SCALE - |fraction|))) == s
  {
    var digits := whole + fraction + Zeros(SCALE - |fraction|);
    var whole', fraction' := PrintMagnitudeShape(Number(digits));
    EqualNumbersEqualDigits(digits, whole' + fraction' + Zeros(SCALE - |fraction'|));
    CanonicalMagnitudeUnique(s, whole, fraction, PrintMagnitude(Number(digits)), whole', fraction');
  }

  /** Every canonical text is what its own value prints as. */
  lemma PrintOfCanonical(s: string)
    requires Canonical(s)
    ensures Parse(s).Parsed? && Print(Parse(s).units) == s
  {
    var negative := s != "" && s[0] == '-';
    var body := if negative then s[1..] else s;
    var whole, fraction :| CanonicalMagnitude(body, whole, fraction);
    ParseCanonicalMagnitude(body, whole, fraction);
    PrintOfCanonicalMagnitude(body, whole, fraction);
    if negative {
      assert s == "-" + body;
      assert body != "0";
      ZeroPrintsAsZero();
      ParseNegative(body);
    } else {
      ParseUnsigned(body);
    }
  }

  lemma ZeroPrintsAsZero()
    ensures PrintMagnitude(0) == "0"
  {
    var zero, none := "0", "";
    assert CanonicalMagnitude(zero, zero, none);
    hide *;
    ParseZero();
    ParseCanonicalMagnitude(zero, zero, none);
    PrintOfCanonicalMagnitude(zero, zero, none);
  }

  /** The printer's image is exactly the canonical texts. */
  lemma CanonicalIffPrinted(s: string)
    ensures Canonical(s) <==> exists units :: Print(units) == s
  {
    if Canonical(s) {
      PrintOfCanonical(s);
    }
    forall units | Print(units) == s ensures Canonical(s) {
      PrintIsCanonical(units);
    }
  }

  /** Two accepted inputs denote one number exactly when they have one canonical text, and that
      text is accepted again as the same number. */
  lemma CanonicalTextDecides(s: string, t: string)
    requires Parse(s).Parsed? && Parse(t).Parsed?
    ensures Parse(s) == Parse(t) <==> Print(Parse(s).units) == Print(Parse(t).units)
    ensures Parse(Print(Parse(s).units)) == Parse(s) && Canonical(Print(Parse(s).units))
  {
    ParseOfPrint(Parse(s).units);
    ParseOfPrint(Parse(t).units);
    PrintIsCanonical(Parse(s).units);
  }

  // ---------- The program's loops and its database cell ----------

  /** The padding loop of Decimal.String. */
  method Pad(shown: string) returns (digits: string)
    requires AllDigits(shown)
    ensures digits == Padded(shown)
  {
    digits := shown;
    while |digits| <= SCALE
      invariant |shown| <= |digits|
      invariant |digits| > |shown| ==> |digits| <= SCALE + 1
      invariant digits == Zeros(|digits| - |shown|) + shown
    {
      digits := "0" + digits;
    }
  }

  method FormatMagnitude(units: nat) returns (result: string)
    ensures result == PrintMagnitude(units)
  {
    var digits := Pad(Digits(units));
    var point := |digits| - SCALE;
    result := TrimRight(TrimRight(digits[..point] + "." + digits[point..], '0'), '.');
  }

  /** Decimal.String. */
  method Format(units: int) returns (result: string)
    ensures result == Print(units)
    ensures Parse(result) == Parsed(units) && Canonical(result)
  {
    ParseOfPrint(units);
    PrintIsCanonical(units);
    result := FormatMagnitude(Abs(units));
    result := Signed(units < 0, result);
  }

  /** Parse, with its digit-checking loop. */
  method Read(input: string) returns (r: ParseResult)
    ensures r == Parse(input)
  {
    var text := TrimSpace(input);
    if text == "" || 'e' in text || 'E' in text {
      return Failed(InvalidDecimal);
    }
    var negative := text[0] == '-';
    if negative || text[0] == '+' {
      text := text[1..];
    }
    var parts := Split(text, '.');
    if |parts| > 2 || parts[0] == "" {
      return Failed(InvalidDecimal);
    }
    var fraction := "";
    if |parts| == 2 {
      fraction := parts[1];
    }
    if Bytes(fraction) > SCALE {
      return Failed(ScaleExceeded);
    }
    var digits := parts[0] + fraction + Zeros(SCALE - Bytes(fraction));
    for i := 0 to |digits|
      invariant AllDigits(digits[..i])
    {
      if !IsDigit(digits[i]) {
        return Failed(InvalidDecimal);
      }
    }
    assert digits[..|digits|] == digits;
    var value: int := Number(digits);
    if negative {
      value := -value;
    }
    r := Parsed(value);
  }

  datatype Column = Null | Text(text: string)

  /** A nullable Decimal as the database driver reads and writes it. */
  class Cell {
    var valid: bool
    var units: int

    constructor ()
      ensures !valid && units == 0
    {
      valid, units := false, 0;
    }

    /** What is written to the column. */
    method Value() returns (column: Column)
      ensures column == if valid then Text(Print(units)) else Null
    {
      if !valid {
        return Null;
      }
      var text := Format(units);
      column := Text(text);
    }

    /** Reads a column; a text that is not a decimal leaves the cell as it was. */
    method Scan(column: Column) returns (ok: bool)
      modifies this
      ensures column.Null? ==> ok && !valid && units == 0
      ensures column.Text? ==> ok == Parse(column.text).Parsed?
      ensures column.Text? && ok ==> valid && units == Parse(column.text).units
      ensures !ok ==> valid == old(valid) && units == old(units)
    {
      if column.Null? {
        valid, units := false, 0;
        return true;
      }
      var parsed := Read(column.text);
      if parsed.Failed? {
        return false;
      }
      valid, units := true, parsed.units;
      ok := true;
    }

    /** Writing this cell and scanning the column into another cell copies it, null or not. */
    method CopyThroughColumn(target: Cell)
      modifies target
      ensures target.valid == old(valid)
      ensures target.valid ==> target.units == old(units)
    {
      var column := Value();
      ParseOfPrint(units);
      var ok := target.Scan(column);
    }
  }
}

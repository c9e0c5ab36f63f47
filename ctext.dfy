/**
 * The pieces of the C library's text handling that the modelled code relies
 * on: isspace in the "C" locale, decimal digit runs, strtol in base 10, and the
 * %d, %lf and %c conversions of sscanf. Strings are C strings: they hold no
 * NUL character, so the end of a Dafny string is where C meets the terminator.
 */
module CText {
  import opened Wrappers

  /** isspace() in the "C" locale. */
  predicate IsSpace(c: char) {
    c == ' ' || c == '\t' || c == '\n' || c == '\U{B}' || c == '\U{C}' || c == '\r'
  }

  predicate IsDigit(c: char) {
    '0' <= c <= '9'
  }

  predicate AllDigits(ds: string) {
    forall j | 0 <= j < |ds| :: IsDigit(ds[j])
  }

  function DigitValue(c: char): nat
    requires IsDigit(c)
  {
    c as int - '0' as int
  }

  function DigitChar(d: nat): (c: char)
    requires d < 10
    ensures IsDigit(c) && DigitValue(c) == d
  {
    ('0' as int + d) as char
  }

  /** Index of the first character at or after i that is not white space. */
  function SkipSpace(s: string, i: nat): (k: nat)
    requires i <= |s|
    ensures i <= k <= |s|
    ensures forall j | i <= j < k :: IsSpace(s[j])
    ensures k < |s| ==> !IsSpace(s[k])
    decreases |s| - i
  {
    if i < |s| && IsSpace(s[i]) then SkipSpace(s, i + 1) else i
  }

  /** End of the longest run of decimal digits that starts at i. */
  function DigitRun(s: string, i: nat): (k: nat)
    requires i <= |s|
    ensures i <= k <= |s|
    ensures AllDigits(s[i..k])
    ensures k < |s| ==> !IsDigit(s[k])
    decreases |s| - i
  {
    if i < |s| && IsDigit(s[i]) then DigitRun(s, i + 1) else i
  }

  /** The value of a string of decimal digits, most significant first. */
  function DigitsValue(ds: string): nat
    requires AllDigits(ds)
  {
    if ds == [] then 0 else DigitsValue(ds[..|ds| - 1]) * 10 + DigitValue(ds[|ds| - 1])
  }

  /** The decimal text of n without leading zeros, as printf's %d writes it. */
  function DecimalText(n: nat): (ds: string)
    ensures |ds| > 0 && AllDigits(ds)
  {
    if n < 10 then [DigitChar(n)] else DecimalText(n / 10) + [DigitChar(n % 10)]
  }

  /** The text printf's %d writes for n. */
  function IntText(n: int): (t: string)
    ensures |t| > 0 && (t[0] == '-' || IsDigit(t[0]))
    ensures forall j | 0 < j < |t| :: IsDigit(t[j])
  {
    if n < 0 then "-" + DecimalText(-n) else DecimalText(n)
  }

  /** Reading back the decimal text of a number gives the number. */
  lemma {:induction false} DecimalTextValue(n: nat)
    ensures DigitsValue(DecimalText(n)) == n
  {
    if n >= 10 {
      var ds := DecimalText(n);
      assert ds[..|ds| - 1] == DecimalText(n / 10);
      DecimalTextValue(n / 10);
    }
  }

  /** A digit run ends exactly where the digits stop. */
  lemma {:induction false} DigitRunEnds(s: string, i: nat, e: nat)
    requires i <= e <= |s|
    requires AllDigits(s[i..e])
    requires e == |s| || !IsDigit(s[e])
    ensures DigitRun(s, i) == e
    decreases e - i
  {
    if i < e {
      assert IsDigit(s[i..e][0]);
      assert s[i + 1..e] == s[i..e][1..];
      DigitRunEnds(s, i + 1, e);
    }
  }

  /** A number as a prefix of text: its value and the index just past it. */
  datatype Number = Number(value: int, end: nat)

  /**
   * A signed decimal integer after optional white space: the part that
   * strtol(s, &tail, 10) and sscanf's %d have in common. None when no digit follows
   * the white space and the optional sign.
   */
  function SignedDecimal(s: string, i: nat): (r: Option<Number>)
    requires i <= |s|
    ensures r.Some? ==> i < r.value.end <= |s|
    ensures r.Some? ==> r.value.end == |s| || !IsDigit(s[r.value.end])
  {
    var k := SkipSpace(s, i);
    var d := if k < |s| && (s[k] == '-' || s[k] == '+') then k + 1 else k;
    var e := DigitRun(s, d);
    if e == d then None
    else
      var v: int := DigitsValue(s[d..e]);
      Some(Number(if k < |s| && s[k] == '-' then -v else v, e))
  }

  /** The text printf writes for n reads back as n, up to the first non-digit. */
  lemma SignedDecimalOfText(s: string, i: nat, n: int)
    requires i + |IntText(n)| <= |s| && s[i..i + |IntText(n)|] == IntText(n)
    requires i + |IntText(n)| == |s| || !IsDigit(s[i + |IntText(n)|])
    ensures SignedDecimal(s, i) == Some(Number(n, i + |IntText(n)|))
  {
    var t := IntText(n);
    var e := i + |t|;
    var d := if n < 0 then i + 1 else i;
    DigitsOfText(s, i, n);
    DigitRunEnds(s, d, e);
    DecimalTextValue(if n < 0 then -n else n);
  }

  /** Where the sign and the digits of printf's %d text sit when it appears in s at i. */
  lemma DigitsOfText(s: string, i: nat, n: int)
    requires i + |IntText(n)| <= |s| && s[i..i + |IntText(n)|] == IntText(n)
    ensures SkipSpace(s, i) == i
    ensures s[i] == '-' <==> n < 0
    ensures s[i] != '+'
    ensures var d := if n < 0 then i + 1 else i;
      s[d..i + |IntText(n)|] == DecimalText(if n < 0 then -n else n)
  {
    var t := IntText(n);
    assert s[i] == t[0];
    if n < 0 {
      assert s[i + 1..i + |t|] == s[i..i + |t|][1..];
    }
  }

  /** strtol(s, &tail, 10): the value, already clamped to the range of a 64-bit long, and the index tail points at. */
  datatype Strtol = Strtol(value: int, tail: nat)

  const LONG_MIN: int := -0x8000_0000_0000_0000
  const LONG_MAX: int := 0x7FFF_FFFF_FFFF_FFFF

  /**
   * strtol(s, &tail, 10). Without digits nothing is converted and tail points
   * at the start of s; a value out of range is clamped to LONG_MIN or LONG_MAX.
   */
  function StrToL(s: string): (r: Strtol)
    ensures r.tail <= |s|
    ensures LONG_MIN <= r.value <= LONG_MAX
    ensures r.tail == 0 ==> r.value == 0
    ensures SignedDecimal(s, 0).None? ==> r == Strtol(0, 0)
    ensures SignedDecimal(s, 0).Some? ==> r.tail == SignedDecimal(s, 0).value.end
    ensures SignedDecimal(s, 0).Some? && LONG_MIN <= SignedDecimal(s, 0).value.value <= LONG_MAX
        ==> r.value == SignedDecimal(s, 0).value.value
    ensures SignedDecimal(s, 0).Some? && SignedDecimal(s, 0).value.value > LONG_MAX ==> r.value == LONG_MAX
    ensures SignedDecimal(s, 0).Some? && SignedDecimal(s, 0).value.value < LONG_MIN ==> r.value == LONG_MIN
  {
    match SignedDecimal(s, 0)
    case None => Strtol(0, 0)
    case Some(n) =>
      Strtol(if n.value < LONG_MIN then LONG_MIN else if n.value > LONG_MAX then LONG_MAX else n.value, n.end)
  }

  /** The outcome of one sscanf conversion. */
  datatype Conversion<T> =
    | InputFailure           // the text ended first
    | MatchFailure           // the next character cannot start the conversion
    | Converted(value: T, next: nat)

  /** sscanf's %d at index i. */
  function ScanInt(s: string, i: nat): (r: Conversion<int>)
    requires i <= |s|
    ensures r.Converted? ==> i < r.next <= |s|
    ensures r.Converted? ==> r.next == |s| || !IsDigit(s[r.next])
    ensures r.InputFailure? <==> SkipSpace(s, i) == |s|
  {
    if SkipSpace(s, i) == |s| then InputFailure
    else match SignedDecimal(s, i)
      case None => MatchFailure
      case Some(n) => Converted(n.value, n.end)
  }

  /** sscanf's %d reads the text printf's %d writes for n back as n, up to the first non-digit. */
  lemma ScanIntOfText(s: string, i: nat, n: int)
    requires i + |IntText(n)| <= |s| && s[i..i + |IntText(n)|] == IntText(n)
    requires i + |IntText(n)| == |s| || !IsDigit(s[i + |IntText(n)|])
    ensures ScanInt(s, i) == Converted(n, i + |IntText(n)|)
  {
    SignedDecimalOfText(s, i, n);
    assert s[i] == IntText(n)[0];
  }

  /** End of the longest decimal floating-point literal starting at k: [sign] digits [. digits] [exponent]. */
  function FloatEnd(s: string, k: nat): (r: Option<nat>)
    requires k <= |s|
    ensures r.Some? ==> k < r.value <= |s|
    ensures r.Some? ==> r.value == |s| || !IsDigit(s[r.value])
  {
    var d := if k < |s| && (s[k] == '-' || s[k] == '+') then k + 1 else k;
    var e1 := DigitRun(s, d);
    var dot := e1 < |s| && s[e1] == '.';
    var e2 := if dot then DigitRun(s, e1 + 1) else e1;
    if e1 == d && (!dot || e2 == e1 + 1) then None
    else
      var x := e2 + 1;
      var x' := if x < |s| && (s[x] == '-' || s[x] == '+') then x + 1 else x;
      if e2 < |s| && (s[e2] == 'e' || s[e2] == 'E') && x' < |s| && IsDigit(s[x'])
      then Some(DigitRun(s, x'))
      else Some(e2)
  }

  /** sscanf's %lf at index i; the value is the text of the literal, converted by the caller. */
  function ScanFloat(s: string, i: nat): (r: Conversion<string>)
    requires i <= |s|
    ensures r.Converted? ==> i < r.next <= |s| && |r.value| > 0
  {
    var k := SkipSpace(s, i);
    if k == |s| then InputFailure
    else match FloatEnd(s, k)
      case None => MatchFailure
      case Some(e) => Converted(s[k..e], e)
  }

  /** sscanf's %c at index i: the next character, white space included. */
  function ScanChar(s: string, i: nat): (r: Conversion<char>)
    requires i <= |s|
    ensures r.Converted? ==> r.next == i + 1 <= |s| && r.value == s[i]
    ensures r.InputFailure? <==> i == |s|
  {
    if i == |s| then InputFailure else Converted(s[i], i + 1)
  }
}

/**
 * The setsar video filter: `init` reads a sample aspect ratio from the
 * filter's argument text into its private context, checks and reduces it, and
 * `setsar_config_props` copies it onto the input link during negotiation.
 */
module Aspect {
  import opened Wrappers
  import opened CText
  import opened Rationals

  /** AVERROR(EINVAL) on Linux. */
  const AVERROR_EINVAL: int := -22

  /** What sscanf(args, "%d:%d%c", &num, &den, &c) returns and which targets it assigned. */
  datatype PairScan = PairScan(count: int, num: Option<int>, den: Option<int>, c: Option<char>)

  /**
   * sscanf(s, "%d:%d%c", ...). EOF (-1) when the text holds only white space;
   * otherwise the number of conversions done before the first failure. The
   * literal ':' does not skip white space, the second %d does, %c does not.
   */
  function ScanIntPair(s: string): (r: PairScan)
    ensures -1 <= r.count <= 3
    ensures r.num.Some? <==> r.count >= 1
    ensures r.den.Some? <==> r.count >= 2
    ensures r.c.Some? <==> r.count == 3
  {
    match ScanInt(s, 0)
    case InputFailure => PairScan(-1, None, None, None)
    case MatchFailure => PairScan(0, None, None, None)
    case Converted(n, i) =>
      if i == |s| || s[i] != ':' then PairScan(1, Some(n), None, None)
      else
        match ScanInt(s, i + 1)
        case Converted(d, j) =>
          (match ScanChar(s, j)
           case Converted(ch, _) => PairScan(3, Some(n), Some(d), Some(ch))
           case _ => PairScan(2, Some(n), Some(d), None))
        case _ => PairScan(1, Some(n), None, None)
  }

  /** What sscanf(args, "%lf%c", &ratio, &c) returns: the literal read for ratio, and c if assigned. */
  datatype RatioScan = RatioScan(count: int, text: Option<string>, c: Option<char>)

  /** sscanf(s, "%lf%c", ...) */
  function ScanRatio(s: string): (r: RatioScan)
    ensures -1 <= r.count <= 2
    ensures r.text.Some? <==> r.count >= 1
    ensures r.c.Some? <==> r.count == 2
  {
    match ScanFloat(s, 0)
    case InputFailure => RatioScan(-1, None, None)
    case MatchFailure => RatioScan(0, None, None)
    case Converted(t, i) =>
      match ScanChar(s, i)
      case Converted(ch, _) => RatioScan(2, Some(t), Some(ch))
      case _ => RatioScan(1, Some(t), None)
  }

  /** The return value of init and the aspect it leaves in the context. */
  datatype InitResult = InitResult(ret: int, aspect: Rational)

  /** A zero denominator stands for "unset" and is replaced by 0/1. */
  function Unset(a: Rational): (r: Rational)
    ensures r.den != 0
    ensures a.den != 0 ==> r == a
    ensures a.den == 0 ==> r == Rational(0, 1)
  {
    if a.den == 0 then Rational(0, 1) else a
  }

  /**
   * What init returns and leaves in the context, given the argument text
   * (None for NULL), the aspect the context held before, and d2q, the
   * rational av_d2q(strtod(text), 100) gives for the text of a decimal literal.
   */
  function InitOutcome(args: Option<string>, start: Rational, d2q: string -> Rational): (r: InitResult)
    ensures r.ret == 0 || r.ret == AVERROR_EINVAL
    ensures r.ret == 0 ==> r.aspect.den != 0
    ensures args.Some? && r.ret == 0 ==>
      r.aspect.num > 0 && r.aspect.den > 0 && Gcd(r.aspect.num, r.aspect.den) == 1
    ensures args.None? ==> r == InitResult(0, Unset(start))
  {
    if args.None? then InitResult(0, Unset(start))
    else
      var s := args.value;
      var p := ScanIntPair(s);
      var scanned := Rational(if p.num.Some? then p.num.value else start.num,
                              if p.den.Some? then p.den.value else start.den);
      var q := ScanRatio(s);
      var a := if p.count != 2 && q.count == 1 then d2q(q.text.value) else scanned;
      var c := if p.count != 2 && q.c.Some? then q.c else p.c;
      if c.Some? || a.num <= 0 || a.den <= 0 then InitResult(AVERROR_EINVAL, a)
      else
        GcdReducedCoprime(a.num, a.den);
        var g := Gcd(a.num, a.den);
        InitResult(0, Unset(Rational(a.num / g, a.den / g)))
  }

  /** The text "N:D" for two numbers. */
  function PairText(n: int, d: int): string {
    IntText(n) + ":" + IntText(d)
  }

  /**
   * sscanf's "%d:%d%c" reads N:D back as exactly two conversions; after it, the
   * first character of any text that does not extend D is read into c.
   */
  lemma ScanIntPairOfText(n: int, d: int, tail: string)
    requires tail == [] || !IsDigit(tail[0])
    ensures ScanIntPair(PairText(n, d) + tail) ==
      if tail == [] then PairScan(2, Some(n), Some(d), None)
      else PairScan(3, Some(n), Some(d), Some(tail[0]))
  {
    var tn, td := IntText(n), IntText(d);
    var s := PairText(n, d) + tail;
    PairSlices(tn, td, tail);
    ScanIntOfText(s, 0, n);
    ScanIntOfText(s, |tn| + 1, d);
  }

  /** Where the parts of "N:D" followed by a tail sit. */
  lemma PairSlices(tn: string, td: string, tail: string)
    ensures var s := tn + ":" + td + tail;
      s[..|tn|] == tn && s[|tn|] == ':' &&
      s[|tn| + 1..|tn| + 1 + |td|] == td &&
      (tail != [] ==> s[|tn| + 1 + |td|] == tail[0])
  {
  }

  /** An argument that is exactly N:D with N > 0 and D > 0 is accepted and reduced by gcd(N, D). */
  lemma InitExactPair(n: int, d: int, start: Rational, d2q: string -> Rational)
    requires n > 0 && d > 0
    ensures Gcd(n, d) > 0
    ensures InitOutcome(Some(PairText(n, d)), start, d2q) ==
      InitResult(0, Rational(n / Gcd(n, d), d / Gcd(n, d)))
  {
    ScanIntPairOfText(n, d, []);
    assert PairText(n, d) + [] == PairText(n, d);
    GcdReducedCoprime(n, d);
  }

  /** Any text after N:D that does not extend D, a single space included, makes init fail with EINVAL. */
  lemma InitTrailingText(n: int, d: int, tail: string, start: Rational, d2q: string -> Rational)
    requires |tail| > 0 && !IsDigit(tail[0])
    ensures InitOutcome(Some(PairText(n, d) + tail), start, d2q).ret == AVERROR_EINVAL
  {
    ScanIntPairOfText(n, d, tail);
  }

  /**
   * From the zero-filled context, init succeeds only when "%d:%d%c" stops after
   * exactly two conversions or "%lf%c" after exactly one: either way c was
   * never assigned, so the conversions used up the whole text.
   */
  lemma InitSuccessNeedsWholeText(s: string, d2q: string -> Rational)
    ensures InitOutcome(Some(s), Rational(0, 0), d2q).ret == 0 ==>
      ScanIntPair(s).count == 2 || (ScanIntPair(s).count != 2 && ScanRatio(s).count == 1)
  {
  }

  /**
   * A single decimal number: when "%d:%d%c" does not get past the first
   * number and "%lf%c" converts the number alone, the ratio av_d2q gives is
   * taken and, when both of its terms are positive, reduced by their gcd.
   */
  lemma InitDecimal(s: string, start: Rational, d2q: string -> Rational, a: Rational)
    requires ScanIntPair(s).count <= 1 && ScanRatio(s).count == 1
    requires a == d2q(ScanRatio(s).text.value) && a.num > 0 && a.den > 0
    ensures Gcd(a.num, a.den) > 0
    ensures InitOutcome(Some(s), start, d2q) ==
      InitResult(0, Rational(a.num / Gcd(a.num, a.den), a.den / Gcd(a.num, a.den)))
  {
    GcdReducedCoprime(a.num, a.den);
  }

  /** A decimal number followed by anything fails with EINVAL, whatever the context held. */
  lemma InitRatioTrailing(s: string, start: Rational, d2q: string -> Rational)
    requires ScanIntPair(s).count != 2 && ScanRatio(s).count == 2
    ensures InitOutcome(Some(s), start, d2q).ret == AVERROR_EINVAL
  {
  }

  /** N:D with a numerator or a denominator that is not positive makes init fail with EINVAL. */
  lemma InitNonPositive(n: int, d: int, start: Rational, d2q: string -> Rational)
    requires n <= 0 || d <= 0
    ensures InitOutcome(Some(PairText(n, d)), start, d2q).ret == AVERROR_EINVAL
  {
    ScanIntPairOfText(n, d, []);
    assert PairText(n, d) + [] == PairText(n, d);
  }

  /**
   * Text that neither sscanf can start converting leaves the aspect as it was,
   * so from the zero-filled context the filter starts with it is an error.
   */
  lemma InitUnparsable(s: string, d2q: string -> Rational)
    requires ScanIntPair(s).count <= 0 && ScanRatio(s).count <= 0
    ensures InitOutcome(Some(s), Rational(0, 0), d2q) == InitResult(AVERROR_EINVAL, Rational(0, 0))
  {
  }

  /** "abc" is neither N:D nor a decimal number, so init fails with EINVAL. */
  lemma InitLetters(d2q: string -> Rational)
    ensures InitOutcome(Some("abc"), Rational(0, 0), d2q).ret == AVERROR_EINVAL
  {
    assert SkipSpace("abc", 0) == 0;
    assert DigitRun("abc", 0) == 0;
    assert ScanInt("abc", 0) == MatchFailure;
    assert FloatEnd("abc", 0) == None;
    InitUnparsable("abc", d2q);
  }

  /** The filter's private context (AspectContext): the aspect it will set. */
  class AspectContext {
    var aspect: Rational

    /** The framework hands the filter a zero-filled private context. */
    constructor ()
      ensures aspect == Rational(0, 0)
    {
      aspect := Rational(0, 0);
    }

    /**
     * init(ctx, args, opaque). Each sscanf writes the targets it converts
     * straight into the context; the checks and the reduction follow.
     */
    method Init(args: Option<string>, d2q: string -> Rational) returns (ret: int)
      modifies this
      ensures InitResult(ret, aspect) == InitOutcome(args, old(aspect), d2q)
    {
      if args.Some? {
        var s := args.value;
        var c: Option<char> := None;
        var p := ScanIntPair(s);
        if p.num.Some? {
          aspect := aspect.(num := p.num.value);
        }
        if p.den.Some? {
          aspect := aspect.(den := p.den.value);
        }
        c := p.c;
        if p.count != 2 {
          var q := ScanRatio(s);
          if q.c.Some? {
            c := q.c;
          }
          if q.count == 1 {
            aspect := d2q(q.text.value);
          }
        }
        if c.Some? || aspect.num <= 0 || aspect.den <= 0 {
          return AVERROR_EINVAL;
        }
        var gcd := Gcd(Abs(aspect.num), Abs(aspect.den));
        GcdReducedCoprime(aspect.num, aspect.den);
        if gcd != 0 {
          // both are positive here, so C's truncating division agrees with Dafny's
          aspect := Rational(aspect.num / gcd, aspect.den / gcd);
        }
      }
      if aspect.den == 0 {
        aspect := Rational(0, 1);
      }
      ret := 0;
    }
  }

  /** The input link of the filter: the property negotiated on it and the filter it leads to. */
  class FilterLink {
    var sampleAspectRatio: Rational
    const dst: AspectContext

    constructor (dst: AspectContext, sar: Rational)
      ensures this.dst == dst && sampleAspectRatio == sar
    {
      this.dst := dst;
      sampleAspectRatio := sar;
    }

    /** setsar_config_props: the link takes the filter's aspect; nothing else changes. */
    method ConfigProps() returns (ret: int)
      modifies this`sampleAspectRatio
      ensures sampleAspectRatio == dst.aspect
      ensures ret == 0
    {
      sampleAspectRatio := dst.aspect;
      ret := 0;
    }
  }
}

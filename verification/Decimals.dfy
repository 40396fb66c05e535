/**
  Money as the extraction jobs compute it: decimal strings are read as integers of
  micro-units, added, and written back as decimal strings. A numeric(18,6) column rounds
  what it stores where the conversion cuts, and a cost that comes in micro-units has a
  second way to become text. The lemmas say how far these readings and writings agree.
 */
module Decimals {
  import opened Options
  import opened Text

  const SCALE := 6
  const UNIT := 1_000_000

  datatype NumberError = NotANumber

  // ------------------------------------------------------------- digits

  predicate Digit(c: char) {
    '0' <= c <= '9'
  }

  predicate Digits(s: string) {
    forall i :: 0 <= i < |s| ==> Digit(s[i])
  }

  function DigitValue(c: char): nat
    requires Digit(c)
  {
    c as int - '0' as int
  }

  function Pow10(n: nat): (p: nat)
    ensures p >= 1
  {
    if n == 0 then 1 else 10 * Pow10(n - 1)
  }

  /** The number a string of digits denotes; the empty string is 0, as for BigInt. */
  function NatOf(s: string): nat
    requires Digits(s)
  {
    if s == "" then 0 else 10 * NatOf(s[..|s| - 1]) + DigitValue(s[|s| - 1])
  }

  function DigitChar(d: nat): (c: char)
    requires d < 10
    ensures Digit(c) && DigitValue(c) == d
  {
    ('0' as int + d) as char
  }

  /** BigInt.prototype.toString of a natural number. */
  function NatText(n: nat): string {
    if n < 10 then [DigitChar(n)] else NatText(n / 10) + [DigitChar(n % 10)]
  }

  function IntText(n: int): string {
    if n < 0 then "-" + NatText(-n) else NatText(n)
  }

  function Zeros(n: nat): string {
    if n == 0 then "" else Zeros(n - 1) + "0"
  }

  function PadStart(s: string, n: nat): string {
    if |s| >= n then s else Zeros(n - |s|) + s
  }

  /** fraction.padEnd(6, '0').slice(0, 6) */
  function FirstSix(fraction: string): string {
    if |fraction| >= SCALE then fraction[..SCALE] else fraction + Zeros(SCALE - |fraction|)
  }

  /** BigInt(s) for decimal notation: blanks around it are ignored, a sign is allowed. */
  function BigIntOf(s: string): Result<int, NumberError> {
    var t := Trimmed(s);
    if Digits(t) then Ok(NatOf(t))
    else if |t| > 1 && (t[0] == '-' || t[0] == '+') && Digits(t[1..]) then
      var n: int := NatOf(t[1..]);
      Ok(if t[0] == '-' then -n else n)
    else Err(NotANumber)
  }

  // ------------------------------------------------------------- the conversions

  /** s.split('.')[0] */
  function BeforeDot(s: string): string {
    if s == "" || s[0] == '.' then "" else [s[0]] + BeforeDot(s[1..])
  }

  /** What follows the first dot. */
  function AfterDot(s: string): string {
    if s == "" then "" else if s[0] == '.' then s[1..] else AfterDot(s[1..])
  }

  function ScaledUnsigned(unsigned: string): Result<int, NumberError> {
    var whole := BeforeDot(unsigned);
    var fraction := BeforeDot(AfterDot(unsigned));
    var w := BigIntOf(if whole == "" then "0" else whole);
    var f := BigIntOf(FirstSix(fraction));
    if w.Err? || f.Err? then Err(NotANumber) else Ok(w.value * UNIT + f.value)
  }

  function Signed(negative: bool, r: Result<int, NumberError>): Result<int, NumberError> {
    if r.Ok? && negative then Ok(-r.value) else r
  }

  /** decimalStringToScaledInt */
  function ScaledInt(value: Option<string>): Result<int, NumberError> {
    var normalized := Trimmed(value.GetOr(""));
    if normalized == "" then Ok(0)
    else if normalized[0] == '-' then Signed(true, ScaledUnsigned(normalized[1..]))
    else ScaledUnsigned(normalized)
  }

  /** scaledIntToDecimalString */
  function ScaledText(value: int): string {
    var absolute := if value < 0 then -value else value;
    (if value < 0 then "-" else "") + NatText(absolute / UNIT) + "." + PadStart(NatText(absolute % UNIT), SCALE)
  }

  /** JavaScript's / and % on BigInt truncate toward zero. */
  function TruncDiv(a: int): int {
    if a < 0 then -(-a / UNIT) else a / UNIT
  }

  function TruncMod(a: int): int {
    a - TruncDiv(a) * UNIT
  }

  /** microsToDecimalString */
  function MicrosText(micros: int): string {
    IntText(TruncDiv(micros)) + "." + PadStart(IntText(TruncMod(micros)), SCALE)
  }

  // ------------------------------------------------------------- digit strings

  lemma TenTimes(x: nat, y: nat)
    ensures 10 * (x * y) == x * (10 * y)
  {
  }

  lemma {:induction false} NatOfAppend(a: string, b: string)
    requires Digits(a) && Digits(b)
    ensures Digits(a + b) && NatOf(a + b) == NatOf(a) * Pow10(|b|) + NatOf(b)
  {
    if b == "" {
      assert a + b == a;
    } else {
      var front := b[..|b| - 1];
      NatOfAppend(a, front);
      assert (a + b)[..|a + b| - 1] == a + front;
      calc {
        NatOf(a + b);
        10 * NatOf(a + front) + DigitValue(b[|b| - 1]);
        10 * (NatOf(a) * Pow10(|front|)) + NatOf(b);
        { TenTimes(NatOf(a), Pow10(|front|)); }
        NatOf(a) * Pow10(|b|) + NatOf(b);
      }
    }
  }

  lemma {:induction false} NatOfBound(s: string)
    requires Digits(s)
    ensures NatOf(s) < Pow10(|s|)
  {
    if s != "" {
      NatOfBound(s[..|s| - 1]);
    }
  }

  lemma {:induction false} NatTextDigits(n: nat)
    ensures NatText(n) != "" && Digits(NatText(n)) && NatOf(NatText(n)) == n
    ensures n < Pow10(SCALE) ==> |NatText(n)| <= SCALE
    decreases n
  {
    if n < 10 {
      assert NatText(n)[..0] == "";
    } else {
      NatTextDigits(n / 10);
      assert NatText(n)[..|NatText(n)| - 1] == NatText(n / 10);
      NatTextLength(n, SCALE);
    }
  }

  lemma {:induction false} NatTextLength(n: nat, k: nat)
    requires k >= 1
    ensures n < Pow10(k) ==> |NatText(n)| <= k
    decreases n
  {
    if n >= 10 {
      if k > 1 { NatTextLength(n / 10, k - 1); }
    }
  }

  lemma {:induction false} ZerosAreZero(n: nat)
    ensures |Zeros(n)| == n && Digits(Zeros(n)) && NatOf(Zeros(n)) == 0
  {
    if n > 0 {
      ZerosAreZero(n - 1);
      assert Zeros(n)[..n - 1] == Zeros(n - 1);
    }
  }

  lemma {:induction false} SplitAtDot(a: string, b: string)
    requires Digits(a)
    ensures BeforeDot(a + "." + b) == a && AfterDot(a + "." + b) == b
  {
    var s := a + "." + b;
    if a == "" {
      assert s[0] == '.' && s[1..] == b;
    } else {
      SplitAtDot(a[1..], b);
      assert s[1..] == a[1..] + "." + b;
    }
  }

  lemma {:induction false} NoDot(a: string)
    requires Digits(a)
    ensures BeforeDot(a) == a && AfterDot(a) == ""
  {
    if a != "" { NoDot(a[1..]); }
  }

  lemma DigitsStayTrimmed(s: string)
    requires Digits(s)
    ensures Trimmed(s) == s && BigIntOf(s) == Ok(NatOf(s))
  {
  }

  // ------------------------------------------------------------- plain decimals

  /** [-]digits or [-]digits.digits, with at least one digit in front. */
  datatype Plain = Plain(negative: bool, whole: string, dot: bool, fraction: string)

  predicate PlainOk(d: Plain) {
    && d.whole != "" && Digits(d.whole) && Digits(d.fraction)
    && (d.dot <==> d.fraction != "")
  }

  function PlainText(d: Plain): string {
    (if d.negative then "-" else "") + d.whole + (if d.dot then "." + d.fraction else "")
  }

  /** The digits of a fraction as micro-units; from the seventh on they are cut off. */
  function FractionMicros(fraction: string): nat
    requires Digits(fraction)
  {
    if |fraction| <= SCALE then NatOf(fraction) * Pow10(SCALE - |fraction|) else NatOf(fraction[..SCALE])
  }

  function Magnitude(d: Plain): nat
    requires PlainOk(d)
  {
    NatOf(d.whole) * UNIT + FractionMicros(d.fraction)
  }

  function Micros(d: Plain): int
    requires PlainOk(d)
  {
    var m: int := Magnitude(d);
    if d.negative then -m else m
  }

  function Unsigned(d: Plain): string {
    d.whole + (if d.dot then "." + d.fraction else "")
  }

  lemma FirstSixDigits(f: string)
    requires Digits(f)
    ensures Digits(FirstSix(f)) && NatOf(FirstSix(f)) == FractionMicros(f)
  {
    assert Pow10(0) == 1;
    if |f| < SCALE {
      ZerosAreZero(SCALE - |f|);
      NatOfAppend(f, Zeros(SCALE - |f|));
    } else if |f| == SCALE {
      assert f[..SCALE] == f;
    }
  }

  lemma UnsignedSplits(d: Plain)
    requires PlainOk(d)
    ensures BeforeDot(Unsigned(d)) == d.whole && AfterDot(Unsigned(d)) == d.fraction
            && BeforeDot(d.fraction) == d.fraction
  {
    NoDot(d.fraction);
    if d.dot {
      SplitAtDot(d.whole, d.fraction);
      assert d.whole + ("." + d.fraction) == d.whole + "." + d.fraction;
    } else {
      assert d.whole + "" == d.whole;
      NoDot(d.whole);
    }
  }

  lemma PlainParts(d: Plain)
    requires PlainOk(d)
    ensures Unsigned(d) != "" && Digit(Unsigned(d)[0])
    ensures d.negative ==> PlainText(d) == "-" + Unsigned(d) && PlainText(d)[1..] == Unsigned(d)
    ensures !d.negative ==> PlainText(d) == Unsigned(d)
  {
    assert Unsigned(d)[0] == d.whole[0];
    assert "" + d.whole == d.whole;
    assert d.negative ==> PlainText(d) == "-" + Unsigned(d);
  }

  /** Whether the text starts with a minus or a digit, and what follows the minus. */
  lemma PlainStart(d: Plain)
    requires PlainOk(d)
    ensures PlainText(d) != ""
    ensures if d.negative then PlainText(d)[0] == '-' && PlainText(d)[1..] == Unsigned(d)
            else Digit(PlainText(d)[0]) && PlainText(d) == Unsigned(d)
  {
    PlainParts(d);
  }

  lemma PlainIsTrimmed(d: Plain)
    requires PlainOk(d)
    ensures PlainText(d) != "" && Trimmed(PlainText(d)) == PlainText(d)
  {
    PlainParts(d);
    var s, u := PlainText(d), Unsigned(d);
    assert s[|s| - 1] == u[|u| - 1];
    assert u[|u| - 1] == if d.dot then d.fraction[|d.fraction| - 1] else d.whole[|d.whole| - 1];
  }

  lemma ScaledUnsignedOfPlain(d: Plain)
    requires PlainOk(d)
    ensures ScaledUnsigned(Unsigned(d)) == Ok(Magnitude(d))
  {
    UnsignedSplits(d);
    FirstSixDigits(d.fraction);
    DigitsStayTrimmed(d.whole);
    DigitsStayTrimmed(FirstSix(d.fraction));
  }

  lemma ScaledIntOfNegative(t: string)
    requires t != "" && Trimmed(t) == t && t[0] == '-'
    ensures ScaledInt(Some(t)) == Signed(true, ScaledUnsigned(t[1..]))
  {
    assert Some(t).GetOr("") == t;
  }

  lemma ScaledIntOfUnsigned(t: string)
    requires t != "" && Trimmed(t) == t && t[0] != '-'
    ensures ScaledInt(Some(t)) == ScaledUnsigned(t)
  {
    assert Some(t).GetOr("") == t;
  }

  /** On plain decimals the conversion keeps exactly the first six decimals. */
  lemma ScaledIntOfPlain(d: Plain)
    requires PlainOk(d)
    ensures ScaledInt(Some(PlainText(d))) == Ok(Micros(d))
  {
    PlainStart(d);
    PlainIsTrimmed(d);
    ScaledUnsignedOfPlain(d);
    if d.negative { ScaledIntOfNegative(PlainText(d)); } else { ScaledIntOfUnsigned(PlainText(d)); }
  }

  // ------------------------------------------------------------- round trips

  /** decimalStringToScaledInt undoes scaledIntToDecimalString on every integer. */
  lemma ScaledRoundTrip(v: int)
    ensures ScaledInt(Some(ScaledText(v))) == Ok(v)
  {
    var d := PlainOf(v);
    PlainOfOk(v);
    ScaledIntOfPlain(d);
  }

  function PlainOf(v: int): Plain {
    var a := if v < 0 then -v else v;
    Plain(v < 0, NatText(a / UNIT), true, PadStart(NatText(a % UNIT), SCALE))
  }

  lemma SixDigits(n: nat)
    requires n < UNIT
    ensures var t := PadStart(NatText(n), SCALE); |t| == SCALE && Digits(t) && NatOf(t) == n
  {
    assert Pow10(SCALE) == UNIT;
    NatTextDigits(n);
    ZerosAreZero(SCALE - |NatText(n)|);
    NatOfAppend(Zeros(SCALE - |NatText(n)|), NatText(n));
  }

  lemma PlainOfDigits(v: int)
    ensures var a, d := if v < 0 then -v else v, PlainOf(v);
            && PlainOk(d) && |d.fraction| == SCALE
            && NatOf(d.whole) == a / UNIT && NatOf(d.fraction) == a % UNIT
  {
    var a := if v < 0 then -v else v;
    NatTextDigits(a / UNIT);
    SixDigits(a % UNIT);
  }

  lemma PlainOfText(v: int)
    ensures PlainText(PlainOf(v)) == ScaledText(v)
  {
    var d := PlainOf(v);
    var sign := if v < 0 then "-" else "";
    assert sign + d.whole + ("." + d.fraction) == sign + d.whole + "." + d.fraction;
  }

  lemma PlainOfOk(v: int)
    ensures PlainOk(PlainOf(v)) && PlainText(PlainOf(v)) == ScaledText(v) && Micros(PlainOf(v)) == v
  {
    PlainOfDigits(v);
    PlainOfText(v);
    assert Pow10(0) == 1;
    var a := if v < 0 then -v else v;
    assert a == a / UNIT * UNIT + a % UNIT;
  }

  lemma SuffixesDiffer(prefix: string, a: string, b: string, i: nat)
    requires i < |a| && Digits(b) && !Digit(a[i])
    ensures prefix + a != prefix + b
  {
    assert (prefix + a)[|prefix| + i] == a[i];
    assert i < |b| ==> (prefix + b)[|prefix| + i] == b[i];
  }

  lemma NegativeTexts(m: int, q: int, r: int)
    requires m < 0 && 0 <= q && 0 <= r && q == -m / UNIT && r == -m % UNIT
    ensures MicrosText(m) == IntText(-q) + "." + PadStart(IntText(-r), SCALE)
    ensures ScaledText(m) == "-" + NatText(q) + "." + PadStart(NatText(r), SCALE)
  {
    NegativeQuotient(m, q, r);
  }

  lemma NegativeQuotient(m: int, q: int, r: int)
    requires m < 0 && q == -m / UNIT && r == -m % UNIT
    ensures TruncDiv(m) == -q && TruncMod(m) == -r
    ensures (m % UNIT == 0 <==> r == 0) && (r == 0 ==> q > 0)
  {
  }

  lemma NonNegativeTexts(m: nat)
    ensures MicrosText(m) == ScaledText(m)
  {
    assert TruncDiv(m) == m / UNIT && TruncMod(m) == m % UNIT;
    assert "" + NatText(m / UNIT) == NatText(m / UNIT);
  }

  /**
    The text written for an ad's cost is the text written for a campaign's cost
    exactly when the cost is not negative or is a whole unit.
   */
  lemma MicrosTextAgrees(m: int)
    ensures MicrosText(m) == ScaledText(m) <==> m >= 0 || m % UNIT == 0
  {
    if m >= 0 {
      NonNegativeTexts(m);
    } else {
      var q, r := -m / UNIT, -m % UNIT;
      NegativeTexts(m, q, r);
      NegativeQuotient(m, q, r);
      if r > 0 { NegativeFraction(q, r); }
    }
  }

  lemma PadStartKeeps(t: string, n: nat)
    requires t != ""
    ensures |PadStart(t, n)| >= |t| && PadStart(t, n)[|PadStart(t, n)| - |t|] == t[0]
  {
    if |t| < n { ZerosAreZero(n - |t|); }
  }

  lemma FirstsDiffer(a: string, b: string, c: string, d: string)
    requires a != "" && c != "" && a[0] != c[0]
    ensures a + b != c + d
  {
    assert (a + b)[0] == a[0] && (c + d)[0] == c[0];
  }

  lemma NegativeFraction(q: int, r: int)
    requires 0 <= q && 0 < r < UNIT
    ensures IntText(-q) + "." + PadStart(IntText(-r), SCALE) != "-" + NatText(q) + "." + PadStart(NatText(r), SCALE)
  {
    var t := IntText(-r);
    var a, b := PadStart(t, SCALE), PadStart(NatText(r), SCALE);
    PadStartKeeps(t, SCALE);
    SixDigits(r);
    if q > 0 {
      SuffixesDiffer("-" + NatText(q) + ".", a, b, |a| - |t|);
    } else {
      FirstsDiffer(IntText(0) + ".", a, "-" + NatText(q) + ".", b);
    }
  }

  // ------------------------------------------------------------- the numeric(18,6) column

  /** A numeric column rounds its input half away from zero at the sixth decimal. */
  function RoundedFraction(fraction: string): nat
    requires Digits(fraction)
  {
    FractionMicros(fraction) + if |fraction| > SCALE && fraction[SCALE] >= '5' then 1 else 0
  }

  function DbUnsigned(unsigned: string): Result<int, NumberError> {
    var whole, fraction := BeforeDot(unsigned), AfterDot(unsigned);
    if Digits(whole) && Digits(fraction) && |whole| + |fraction| > 0
    then Ok(NatOf(whole) * UNIT + RoundedFraction(fraction)) else Err(NotANumber)
  }

  /** What the column holds after a decimal string is stored, in micro-units. */
  function DbNumeric(s: string): Result<int, NumberError> {
    var t := Trimmed(s);
    if t == "" then Err(NotANumber)
    else if t[0] == '-' || t[0] == '+' then Signed(t[0] == '-', DbUnsigned(t[1..]))
    else DbUnsigned(t)
  }

  function Rounded(d: Plain): nat
    requires PlainOk(d)
  {
    NatOf(d.whole) * UNIT + RoundedFraction(d.fraction)
  }

  lemma DbUnsignedOfPlain(d: Plain)
    requires PlainOk(d)
    ensures DbUnsigned(Unsigned(d)) == Ok(Rounded(d))
  {
    UnsignedSplits(d);
  }

  lemma DbNumericOfNegative(t: string)
    requires t != "" && Trimmed(t) == t && t[0] == '-'
    ensures DbNumeric(t) == Signed(true, DbUnsigned(t[1..]))
  {
  }

  lemma DbNumericOfUnsigned(t: string)
    requires t != "" && Trimmed(t) == t && Digit(t[0])
    ensures DbNumeric(t) == DbUnsigned(t)
  {
  }

  lemma DbNumericOfPlain(d: Plain)
    requires PlainOk(d)
    ensures DbNumeric(PlainText(d)) == Signed(d.negative, Ok(Rounded(d)))
  {
    PlainStart(d);
    PlainIsTrimmed(d);
    DbUnsignedOfPlain(d);
    if d.negative { DbNumericOfNegative(PlainText(d)); } else { DbNumericOfUnsigned(PlainText(d)); }
  }

  /** The stored value is the aggregated one exactly when the seventh decimal, if any, is below five. */
  lemma StoredEqualsAggregated(d: Plain)
    requires PlainOk(d)
    ensures DbNumeric(PlainText(d)).Ok?
    ensures DbNumeric(PlainText(d)) == ScaledInt(Some(PlainText(d)))
            <==> |d.fraction| <= SCALE || d.fraction[SCALE] < '5'
  {
    var stored := Signed(d.negative, Ok(Rounded(d)));
    var cut := Ok(Micros(d));
    assert stored.Ok? && (stored == cut <==> |d.fraction| <= SCALE || d.fraction[SCALE] < '5') by {
      SignedDiffers(d.negative, Rounded(d), Magnitude(d));
    }
    assert DbNumeric(PlainText(d)) == stored by { DbNumericOfPlain(d); }
    assert ScaledInt(Some(PlainText(d))) == cut by { ScaledIntOfPlain(d); }
  }

  lemma SignedDiffers(negative: bool, a: int, b: int)
    ensures Signed(negative, Ok(a)).Ok?
    ensures Signed(negative, Ok(a)) == Ok(if negative then -b else b) <==> a == b
  {
  }

  /** A campaign's cost is read back from its text without loss. */
  lemma StoredScaledText(v: int)
    ensures DbNumeric(ScaledText(v)) == Ok(v)
  {
    PlainOfOk(v);
    SixDigits((if v < 0 then -v else v) % UNIT);
    StoredEqualsAggregated(PlainOf(v));
    ScaledIntOfPlain(PlainOf(v));
  }

  // ------------------------------------------------------------- truncation

  lemma {:induction false} Pow10Adds(a: nat, b: nat)
    ensures Pow10(a) * Pow10(b) == Pow10(a + b)
  {
    if a > 0 {
      Pow10Adds(a - 1, b);
      assert Pow10(a) * Pow10(b) == 10 * (Pow10(a - 1) * Pow10(b));
    }
  }

  /** The digits of a plain decimal without the dot. */
  function Numerator(d: Plain): nat
    requires PlainOk(d)
  {
    NatOf(d.whole) * Pow10(|d.fraction|) + NatOf(d.fraction)
  }

  /** The exact number a plain decimal denotes. */
  function Value(d: Plain): real
    requires PlainOk(d)
  {
    var v := Numerator(d) as real / Pow10(|d.fraction|) as real;
    if d.negative then -v else v
  }

  lemma CutBounds(h: nat, t: nat, p: nat)
    requires t < p
    ensures h * (UNIT * p) <= (h * p + t) * UNIT < (h + 1) * (UNIT * p)
  {
    assert (h * p + t) * UNIT == h * (UNIT * p) + t * UNIT;
    assert (h + 1) * (UNIT * p) == h * (UNIT * p) + UNIT * p;
  }

  lemma LongFractionCut(f: string)
    requires Digits(f) && |f| > SCALE
    ensures NatOf(f[..SCALE]) * Pow10(|f|) <= NatOf(f) * UNIT < (NatOf(f[..SCALE]) + 1) * Pow10(|f|)
  {
    var head, tail := f[..SCALE], f[SCALE..];
    assert f == head + tail;
    assert Pow10(SCALE) == UNIT;
    NatOfAppend(head, tail);
    NatOfBound(tail);
    Pow10Adds(SCALE, |tail|);
    CutBounds(NatOf(head), NatOf(tail), Pow10(|tail|));
  }

  lemma ShortFractionCut(f: string)
    requires Digits(f) && |f| <= SCALE
    ensures NatOf(f) * Pow10(SCALE - |f|) * Pow10(|f|) == NatOf(f) * UNIT
  {
    assert Pow10(SCALE) == UNIT;
    Pow10Adds(SCALE - |f|, |f|);
    assert NatOf(f) * Pow10(SCALE - |f|) * Pow10(|f|) == NatOf(f) * (Pow10(SCALE - |f|) * Pow10(|f|));
  }

  lemma ScaleBounds(w: nat, m: nat, f: nat, p: nat)
    requires p >= 1
    ensures m * p <= f * UNIT < (m + 1) * p ==> (w * UNIT + m) * p <= (w * p + f) * UNIT < (w * UNIT + m + 1) * p
    ensures m * p == f * UNIT ==> (w * UNIT + m) * p == (w * p + f) * UNIT < (w * UNIT + m + 1) * p
  {
    assert (w * UNIT + m) * p == w * UNIT * p + m * p;
    assert (w * UNIT + m + 1) * p == w * UNIT * p + m * p + p;
    assert (m + 1) * p == m * p + p;
    assert (w * p + f) * UNIT == w * UNIT * p + f * UNIT;
  }

  /** The cut in whole numbers: magnitude <= exact value in micro-units < magnitude + 1. */
  lemma MagnitudeBounds(d: Plain)
    requires PlainOk(d)
    ensures Magnitude(d) * Pow10(|d.fraction|) <= Numerator(d) * UNIT < (Magnitude(d) + 1) * Pow10(|d.fraction|)
    ensures |d.fraction| <= SCALE ==> Magnitude(d) * Pow10(|d.fraction|) == Numerator(d) * UNIT
  {
    if |d.fraction| <= SCALE {
      ShortFractionCut(d.fraction);
    } else {
      LongFractionCut(d.fraction);
    }
    ScaleBounds(NatOf(d.whole), FractionMicros(d.fraction), NatOf(d.fraction), Pow10(|d.fraction|));
  }

  lemma DivideBounds(m: nat, n: nat, p: nat)
    requires p >= 1 && m * p <= n * UNIT < (m + 1) * p
    ensures m as real <= n as real / p as real * UNIT as real < (m + 1) as real
    ensures m * p == n * UNIT ==> m as real == n as real / p as real * UNIT as real
  {
    var x := n as real / p as real * UNIT as real;
    assert x * p as real == (n * UNIT) as real;
    assert m as real * p as real == (m * p) as real;
    assert (m + 1) as real * p as real == ((m + 1) * p) as real;
  }

  /**
    The conversion rounds toward zero and is off by less than one micro-unit; six
    decimals or fewer are exact.
   */
  lemma TruncatesTowardZero(d: Plain)
    requires PlainOk(d)
    ensures ScaledInt(Some(PlainText(d))) == Ok(Micros(d))
    ensures var exact := Value(d) * UNIT as real;
            if d.negative then exact <= Micros(d) as real < exact + 1.0 else exact - 1.0 < Micros(d) as real <= exact
    ensures |d.fraction| <= SCALE ==> Micros(d) as real == Value(d) * UNIT as real
  {
    ScaledIntOfPlain(d);
    MagnitudeBounds(d);
    DivideBounds(Magnitude(d), Numerator(d), Pow10(|d.fraction|));
  }

  // ------------------------------------------------------------- sums

  ghost predicate AllPlain(ds: seq<Plain>) {
    forall i :: 0 <= i < |ds| ==> PlainOk(ds[i])
  }

  function SumMicros(ds: seq<Plain>): int
    requires AllPlain(ds)
  {
    if ds == [] then 0 else SumMicros(ds[..|ds| - 1]) + Micros(ds[|ds| - 1])
  }

  function SumValues(ds: seq<Plain>): real
    requires AllPlain(ds)
  {
    if ds == [] then 0.0 else SumValues(ds[..|ds| - 1]) + Value(ds[|ds| - 1])
  }

  /** An aggregate over n rows is within n micro-units of the exact sum. */
  lemma {:induction false} AggregateError(ds: seq<Plain>)
    requires AllPlain(ds)
    ensures var diff := SumMicros(ds) as real - SumValues(ds) * UNIT as real;
            -(|ds| as real) <= diff <= |ds| as real && (ds != [] ==> -(|ds| as real) < diff < |ds| as real)
  {
    if ds != [] {
      AggregateError(ds[..|ds| - 1]);
      TruncatesTowardZero(ds[|ds| - 1]);
    }
  }

  lemma {:induction false} SumAppend(a: seq<Plain>, b: seq<Plain>)
    requires AllPlain(a) && AllPlain(b)
    ensures AllPlain(a + b) && SumMicros(a + b) == SumMicros(a) + SumMicros(b)
  {
    if b == [] {
      assert a + b == a;
    } else {
      SumAppend(a, b[..|b| - 1]);
      assert (a + b)[..|a + b| - 1] == a + b[..|b| - 1];
    }
  }

  lemma Parted(ds: seq<Plain>, i: nat)
    requires i < |ds|
    ensures ds[..i] + [ds[i]] + ds[i + 1..] == ds
  {
  }

  lemma PlainParted(ds: seq<Plain>, i: nat)
    requires AllPlain(ds) && i < |ds|
    ensures AllPlain(ds[..i]) && AllPlain([ds[i]]) && AllPlain(ds[i + 1..]) && SumMicros([ds[i]]) == Micros(ds[i])
  {
    assert [ds[i]][..0] == [];
  }

  lemma SumOfThree(a: seq<Plain>, b: seq<Plain>, c: seq<Plain>)
    requires AllPlain(a) && AllPlain(b) && AllPlain(c)
    ensures AllPlain(a + b + c) && AllPlain(a + c) && SumMicros(a + b + c) == SumMicros(a + c) + SumMicros(b)
  {
    SumAppend(a, c);
    SumAppend(a, b);
    SumAppend(a + b, c);
  }

  lemma SumWithout(ds: seq<Plain>, i: nat)
    requires AllPlain(ds) && i < |ds|
    ensures AllPlain(ds[..i] + ds[i + 1..])
    ensures SumMicros(ds) == SumMicros(ds[..i] + ds[i + 1..]) + Micros(ds[i])
  {
    PlainParted(ds, i);
    SumOfThree(ds[..i], [ds[i]], ds[i + 1..]);
    Parted(ds, i);
  }

  lemma MultisetWithout(ds: seq<Plain>, i: nat)
    requires i < |ds|
    ensures multiset(ds[..i] + ds[i + 1..]) == multiset(ds) - multiset{ds[i]}
  {
    assert ds == ds[..i] + [ds[i]] + ds[i + 1..];
  }

  lemma OneMoreElement(a: seq<Plain>, b: seq<Plain>)
    requires a != [] && multiset(a) == multiset(b)
    ensures a[|a| - 1] in b
  {
    assert a[|a| - 1] in multiset(b);
  }

  /** The aggregate does not depend on the order of the rows. */
  lemma {:induction false} AggregateIgnoresOrder(a: seq<Plain>, b: seq<Plain>)
    requires AllPlain(a) && AllPlain(b) && multiset(a) == multiset(b)
    ensures SumMicros(a) == SumMicros(b)
    decreases |a|
  {
    assert |a| == |multiset(a)| == |multiset(b)| == |b|;
    if a != [] {
      var n := |a| - 1;
      OneMoreElement(a, b);
      var i :| 0 <= i < |b| && b[i] == a[n];
      SumWithout(b, i);
      MultisetWithout(b, i);
      MultisetWithout(a, n);
      assert a[..n] + a[n + 1..] == a[..n];
      AggregateIgnoresOrder(a[..n], b[..i] + b[i + 1..]);
    }
  }
}

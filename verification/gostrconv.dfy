/**
 * strconv.ParseInt(s, 10, 64) from Go's standard library: an optional sign,
 * then base-10 digits only (no underscores, no prefix).  A syntax error yields
 * 0; a value outside int64 yields the nearest int64 bound, as ParseInt does
 * when it reports a range error.
 */
module GoStrconv {

  const MaxUint64: int := 0xFFFF_FFFF_FFFF_FFFF
  const MaxInt64: int := 0x7FFF_FFFF_FFFF_FFFF
  const MinInt64: int := -0x8000_0000_0000_0000

  /** What ParseUint's digit loop ends with: a value, a syntax error, or a range error. */
  datatype Scan = Done(n: nat) | BadSyntax | OutOfRange

  predicate IsDigit(c: char)
  {
    '0' <= c <= '9'
  }

  function DigitValue(c: char): (d: nat)
    requires IsDigit(c)
    ensures d <= 9
  {
    c as int - '0' as int
  }

  predicate AllDigits(s: string)
  {
    forall k :: 0 <= k < |s| ==> IsDigit(s[k])
  }

  /**
   * The value of a run of decimal digits appended to `n`, read left to right
   * (Horner's rule); the mathematical meaning of a digit string, without any
   * width limit.
   */
  function Horner(n: nat, s: string): nat
    requires AllDigits(s)
    decreases |s|
  {
    if s == [] then n else Horner(10 * n + DigitValue(s[0]), s[1..])
  }

  /**
   * ParseUint's loop over the bytes: a non-digit is a syntax error as soon as it
   * is met, and the first step whose result would exceed 2^64-1 is a range
   * error (so later bytes are not looked at).
   */
  function ScanDigits(s: string, n: nat): Scan
    requires n <= MaxUint64
  {
    if s == [] then Done(n)
    else if !IsDigit(s[0]) then BadSyntax
    else if 10 * n + DigitValue(s[0]) > MaxUint64 then OutOfRange
    else ScanDigits(s[1..], 10 * n + DigitValue(s[0]))
  }

  /** strconv.ParseUint(s, 10, 64). */
  function ParseUint(s: string): Scan
  {
    if s == [] then BadSyntax else ScanDigits(s, 0)
  }

  /** The int64 returned by strconv.ParseInt(s, 10, 64), whatever error it reports alongside. */
  function ParseInt(s: string): (r: int)
    ensures MinInt64 <= r <= MaxInt64
  {
    if s == [] then 0
    else
      var neg := s[0] == '-';
      var body := if s[0] == '+' || s[0] == '-' then s[1..] else s;
      match ParseUint(body)
      case BadSyntax => 0
      case OutOfRange => if neg then MinInt64 else MaxInt64
      case Done(un) =>
        if !neg && un > MaxInt64 then MaxInt64
        else if neg && un > -MinInt64 then MinInt64
        else if neg then -(un as int) else un
  }

  /** `s` without its leading sign, if it has one. */
  function Unsigned(s: string): string
  {
    if s != [] && (s[0] == '+' || s[0] == '-') then s[1..] else s
  }

  /** Text that is an optional sign followed by at least one decimal digit. */
  predicate IsDecimal(s: string)
  {
    Unsigned(s) != [] && AllDigits(Unsigned(s))
  }

  /** The digits before the first non-digit of the unsigned part denote at most 2^64-1. */
  predicate DigitPrefixFits(s: string)
  {
    Horner(0, DigitPrefix(Unsigned(s))) <= MaxUint64
  }

  /** The integer an IsDecimal text denotes, unbounded. */
  function DecimalValue(s: string): int
    requires IsDecimal(s)
  {
    if s[0] == '-' then -(Horner(0, s[1..]) as int)
    else if s[0] == '+' then Horner(0, s[1..])
    else Horner(0, s)
  }

  function Clamp(v: int): int
  {
    if v < MinInt64 then MinInt64 else if v > MaxInt64 then MaxInt64 else v
  }

  lemma {:induction false} HornerGrows(n: nat, s: string)
    requires AllDigits(s)
    ensures Horner(n, s) >= n
    decreases |s|
  {
    if s != [] {
      HornerGrows(10 * n + DigitValue(s[0]), s[1..]);
    }
  }

  /** On digits only, the scan is exact until the value passes 2^64-1. */
  lemma {:induction false} ScanDigitsExact(s: string, n: nat)
    requires n <= MaxUint64 && AllDigits(s)
    ensures ScanDigits(s, n) == if Horner(n, s) <= MaxUint64 then Done(Horner(n, s)) else OutOfRange
  {
    if s != [] {
      var m := 10 * n + DigitValue(s[0]);
      assert AllDigits(s[1..]);
      HornerGrows(m, s[1..]);
      if m <= MaxUint64 {
        ScanDigitsExact(s[1..], m);
      }
    }
  }

  /**
   * ParseInt on well-formed decimal text returns its value, saturated to the
   * int64 range when it does not fit.
   */
  lemma ParseIntDecimal(s: string)
    requires IsDecimal(s)
    ensures ParseInt(s) == Clamp(DecimalValue(s))
  {
    var body := if s[0] == '+' || s[0] == '-' then s[1..] else s;
    ScanDigitsExact(body, 0);
  }

  /** The leading run of digits of `s`. */
  function DigitPrefix(s: string): (p: string)
    ensures |p| <= |s| && p == s[..|p|] && AllDigits(p)
    ensures |p| < |s| ==> !IsDigit(s[|p|])
  {
    if s != [] && IsDigit(s[0]) then [s[0]] + DigitPrefix(s[1..]) else []
  }

  lemma {:induction false} ScanDigitsSyntax(s: string, n: nat)
    requires n <= MaxUint64
    requires |DigitPrefix(s)| < |s|
    requires Horner(n, DigitPrefix(s)) <= MaxUint64
    ensures ScanDigits(s, n) == BadSyntax
  {
    if IsDigit(s[0]) {
      var m := 10 * n + DigitValue(s[0]);
      assert DigitPrefix(s) == [s[0]] + DigitPrefix(s[1..]);
      assert Horner(n, DigitPrefix(s)) == Horner(m, DigitPrefix(s[1..]));
      HornerGrows(m, DigitPrefix(s[1..]));
      ScanDigitsSyntax(s[1..], m);
    }
  }

  /**
   * Text that is not a decimal integer gives 0 -- unless its run of digits
   * before the first offending byte already exceeds 2^64-1, in which case
   * ParseUint stops with a range error first and ParseInt saturates.
   */
  lemma ParseIntMalformed(s: string)
    requires !IsDecimal(s) && DigitPrefixFits(s)
    ensures ParseInt(s) == 0
  {
    if s != [] {
      var body := if s[0] == '+' || s[0] == '-' then s[1..] else s;
      if body != [] {
        ScanDigitsSyntax(body, 0);
      }
    }
  }

  /** The saturating case above, on a concrete input: twenty nines and then a letter. */
  lemma ParseIntOverflowBeforeSyntaxError()
    ensures ParseInt("99999999999999999999x") == MaxInt64
  {
    TwentyNinesOverflow();
    assert ParseUint("99999999999999999999x") == OutOfRange;
  }

  lemma TwentyNinesOverflow()
    ensures ScanDigits("99999999999999999999x", 0) == OutOfRange
  {
    TwentyNines();
    TwentyNinesPrefix();
    OverflowPrefixSaturates("99999999999999999999x", 0);
  }

  lemma TwentyNinesPrefix()
    ensures DigitPrefix("99999999999999999999x") == "99999999999999999999"
  {
    TwentyNinesDigits();
    var nines := "99999999999999999999";
    assert nines + "x" == "99999999999999999999x";
    DigitPrefixOf(nines, 'x');
  }

  lemma TwentyNines()
    ensures AllDigits("99999999999999999999") && Horner(0, "99999999999999999999") > MaxUint64
  {
    TwentyNinesDigits();
    NinesBound("99999999999999999999");
  }

  lemma TwentyNinesDigits()
    ensures AllDigits("99999999999999999999") && "99999999999999999999"[0] == '9'
  {
    var five := "99999";
    assert AllDigits(five);
    AllDigitsAppend(five, five);
    AllDigitsAppend(five + five, five);
    AllDigitsAppend(five + five + five, five);
    assert five + five + five + five == "99999999999999999999";
  }

  /** Twenty digits led by a nine are more than 2^64-1. */
  lemma NinesBound(s: string)
    requires |s| == 20 && AllDigits(s) && s[0] == '9'
    ensures Horner(0, s) > MaxUint64
  {
    assert Horner(0, s) == Horner(9, s[1..]);
    HornerScales(9, s[1..]);
    Pow10Add(5, 5);
    Pow10Add(10, 5);
    Pow10Add(15, 4);
    assert Pow10(5) == 100000 && Pow10(4) == 10000;
  }

  lemma AllDigitsAppend(a: string, b: string)
    requires AllDigits(a) && AllDigits(b)
    ensures AllDigits(a + b)
  {
    assert forall k :: 0 <= k < |a + b| ==> (a + b)[k] == if k < |a| then a[k] else b[k - |a|];
  }

  lemma {:induction false} Pow10Add(a: nat, b: nat)
    ensures Pow10(a + b) == Pow10(a) * Pow10(b)
    decreases a
  {
    if a > 0 {
      Pow10Add(a - 1, b);
    }
  }

  function Pow10(k: nat): nat
  {
    if k == 0 then 1 else 10 * Pow10(k - 1)
  }

  /** Each further digit multiplies what was accumulated so far by ten (at least). */
  lemma {:induction false} HornerScales(n: nat, s: string)
    requires AllDigits(s)
    ensures Horner(n, s) >= n * Pow10(|s|)
    decreases |s|
  {
    if s != [] {
      HornerScales(10 * n + DigitValue(s[0]), s[1..]);
    }
  }

  lemma {:induction false} DigitPrefixOf(ds: string, c: char)
    requires AllDigits(ds) && !IsDigit(c)
    ensures DigitPrefix(ds + [c]) == ds
  {
    if ds != [] {
      assert (ds + [c])[1..] == ds[1..] + [c];
      DigitPrefixOf(ds[1..], c);
    }
  }

  lemma {:induction false} HornerConcat(n: nat, a: string, b: string)
    requires AllDigits(a) && AllDigits(b)
    ensures AllDigits(a + b) && Horner(n, a + b) == Horner(Horner(n, a), b)
    decreases |a|
  {
    if a != [] {
      assert (a + b)[1..] == a[1..] + b;
      HornerConcat(10 * n + DigitValue(a[0]), a[1..], b);
    } else {
      assert a + b == b;
    }
  }

  lemma {:induction false} OverflowPrefixSaturates(s: string, n: nat)
    requires n <= MaxUint64
    requires Horner(n, DigitPrefix(s)) > MaxUint64
    ensures ScanDigits(s, n) == OutOfRange
  {
    if s == [] || !IsDigit(s[0]) {
      assert false;
    } else {
      var m := 10 * n + DigitValue(s[0]);
      assert DigitPrefix(s) == [s[0]] + DigitPrefix(s[1..]);
      assert Horner(n, DigitPrefix(s)) == Horner(m, DigitPrefix(s[1..]));
      if m <= MaxUint64 {
        OverflowPrefixSaturates(s[1..], m);
      }
    }
  }

  /** Half the range of a `bits`-bit signed integer: 2^(bits-1). */
  function Half(bits: nat): (h: int)
    requires bits in {8, 16, 32, 64}
    ensures h > 0
  {
    if bits == 8 then 0x80
    else if bits == 16 then 0x8000
    else if bits == 32 then 0x8000_0000
    else 0x8000_0000_0000_0000
  }

  /** Go's conversion of an int64 to a signed integer type of `bits` bits: keep the low bits, two's complement. */
  function Wrap(x: int, bits: nat): (r: int)
    requires bits in {8, 16, 32, 64}
    ensures -Half(bits) <= r < Half(bits)
    ensures -Half(bits) <= x < Half(bits) ==> r == x
    ensures (x - r) % (2 * Half(bits)) == 0
  {
    var h := Half(bits);
    var r := (x + h) % (2 * h) - h;
    assert x - r == ((x + h) / (2 * h)) * (2 * h);
    MultipleMod((x + h) / (2 * h), 2 * h);
    r
  }

  /** A multiple of the modulus of a Go integer width leaves no remainder. */
  lemma MultipleMod(q: int, m: int)
    requires m in {0x100, 0x1_0000, 0x1_0000_0000, 0x1_0000_0000_0000_0000}
    ensures (q * m) % m == 0
  {
    if m == 0x100 {
      assert (q * 0x100) % 0x100 == 0;
    } else if m == 0x1_0000 {
      assert (q * 0x1_0000) % 0x1_0000 == 0;
    } else if m == 0x1_0000_0000 {
      assert (q * 0x1_0000_0000) % 0x1_0000_0000 == 0;
    } else {
      assert (q * 0x1_0000_0000_0000_0000) % 0x1_0000_0000_0000_0000 == 0;
    }
  }
}

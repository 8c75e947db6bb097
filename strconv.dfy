/** Decimal conversions the core relies on: Go's `strconv.Itoa`,
    `strconv.Atoi` (with its syntax and range errors) and the `fmt` verb
    `%0Wd` used for zero-filled expansions.  Go's `int` is 64 bits wide. */
module Strconv {
  import opened Wrappers

  const MIN_INT64: int := -0x8000_0000_0000_0000
  const MAX_INT64: int := 0x7fff_ffff_ffff_ffff
  const MAX_UINT64: int := 0xffff_ffff_ffff_ffff

  /** Go's `int` on a 64-bit platform. */
  type int64 = x: int | MIN_INT64 <= x <= MAX_INT64

  predicate IsDigit(c: char)
  {
    '0' <= c <= '9'
  }

  predicate AllDigits(s: string)
  {
    forall i :: 0 <= i < |s| ==> IsDigit(s[i])
  }

  function DigitValue(c: char): (d: nat)
    requires IsDigit(c)
    ensures d < 10
  {
    (c as int - '0' as int) as nat
  }

  function DigitChar(d: nat): (c: char)
    requires d < 10
    ensures IsDigit(c) && DigitValue(c) == d
  {
    ('0' as int + d) as char
  }

  /** The decimal digits of `n`, most significant first, without leading zeros. */
  function Digits(n: nat): (r: string)
    ensures |r| >= 1 && AllDigits(r)
    ensures |r| > 1 ==> r[0] != '0'
    decreases n
  {
    if n < 10 then [DigitChar(n)] else Digits(n / 10) + [DigitChar(n % 10)]
  }

  /** Reads the digits `ds` after the already-read value `acc`. */
  function FoldDigits(acc: nat, ds: string): nat
    requires AllDigits(ds)
    decreases |ds|
  {
    if |ds| == 0 then acc else FoldDigits(acc * 10 + DigitValue(ds[0]), ds[1..])
  }

  /** The value of a string of decimal digits. */
  function ValueOf(ds: string): nat
    requires AllDigits(ds)
  {
    FoldDigits(0, ds)
  }

  /** strconv.Itoa */
  function Itoa(i: int64): string
  {
    if i < 0 then "-" + Digits(-(i as int)) else Digits(i)
  }

  /** strconv.Quote, without its escaping of special characters. */
  function Quote(s: string): string
  {
    "\"" + s + "\""
  }

  function SyntaxError(s: string): string
  {
    "strconv.Atoi: parsing " + Quote(s) + ": invalid syntax"
  }

  function RangeError(s: string): string
  {
    "strconv.Atoi: parsing " + Quote(s) + ": value out of range"
  }

  /** The outcome of the digit scan of strconv.ParseUint. */
  datatype Scan = Read(value: nat) | NotDigit | Overflow

  /** The digit loop of strconv.ParseUint in base 10: a non-digit is a syntax
      error and a value beyond 64 unsigned bits a range error, whichever the
      scan meets first. */
  function ParseUint(ds: string, acc: nat): Scan
    decreases |ds|
  {
    if |ds| == 0 then Read(acc)
    else if !IsDigit(ds[0]) then NotDigit
    else
      var n := acc * 10 + DigitValue(ds[0]);
      if n > MAX_UINT64 then Overflow else ParseUint(ds[1..], n)
  }

  /** strconv.Atoi: an optional sign, at least one digit, and a value that
      fits in 64 bits. */
  function Atoi(s: string): Result<int64>
  {
    var neg := |s| > 0 && s[0] == '-';
    var body := if |s| > 0 && (s[0] == '+' || s[0] == '-') then s[1..] else s;
    if |body| == 0 then Failure(SyntaxError(s))
    else
      match ParseUint(body, 0)
      case NotDigit => Failure(SyntaxError(s))
      case Overflow => Failure(RangeError(s))
      case Read(u) =>
        var v: int := if neg then -(u as int) else u;
        if MIN_INT64 <= v <= MAX_INT64 then Success(v) else Failure(RangeError(s))
  }

  function Zeros(k: int): (r: string)
    ensures |r| == if k < 0 then 0 else k
    ensures forall i :: 0 <= i < |r| ==> r[i] == '0'
  {
    seq(if k < 0 then 0 else k, _ => '0')
  }

  function Max(a: int, b: int): int
  {
    if a < b then b else a
  }

  /** fmt.Sprintf("%0<width>d", n): the digits of `n` left-padded with zeros so
      that, sign included, the text is at least `width` long. */
  function ZeroPad(n: int64, width: nat): string
  {
    if n < 0 then "-" + Zeros(width - 1 - |Digits(-(n as int))|) + Digits(-(n as int))
    else Zeros(width - |Digits(n)|) + Digits(n)
  }

  // ---------------------------------------------------------------------
  // Decimal arithmetic

  lemma {:induction false} FoldGrows(acc: nat, ds: string)
    requires AllDigits(ds)
    ensures FoldDigits(acc, ds) >= acc
    decreases |ds|
  {
    if |ds| > 0 {
      FoldGrows(acc * 10 + DigitValue(ds[0]), ds[1..]);
    }
  }

  lemma {:induction false} FoldSnoc(acc: nat, ds: string, c: char)
    requires AllDigits(ds) && IsDigit(c)
    ensures AllDigits(ds + [c])
    ensures FoldDigits(acc, ds + [c]) == FoldDigits(acc, ds) * 10 + DigitValue(c)
    decreases |ds|
  {
    if |ds| > 0 {
      assert (ds + [c])[1..] == ds[1..] + [c];
      FoldSnoc(acc * 10 + DigitValue(ds[0]), ds[1..], c);
    }
  }

  /** Reading the digits of `n` gives `n` back. */
  lemma {:induction false} DigitsValue(n: nat)
    ensures ValueOf(Digits(n)) == n
    decreases n
  {
    if n >= 10 {
      var c := DigitChar(n % 10);
      DigitsValue(n / 10);
      FoldSnoc(0, Digits(n / 10), c);
      assert Digits(n) == Digits(n / 10) + [c];
      assert ValueOf(Digits(n)) == ValueOf(Digits(n / 10)) * 10 + DigitValue(c);
    } else {
      var c := DigitChar(n);
      assert FoldDigits(0, [c]) == FoldDigits(DigitValue(c), []);
    }
  }

  /** Leading zeros do not change the value of a digit string. */
  lemma {:induction false} ZerosValue(k: int, ds: string)
    requires AllDigits(ds)
    ensures AllDigits(Zeros(k) + ds)
    ensures ValueOf(Zeros(k) + ds) == ValueOf(ds)
    decreases if k < 0 then 0 else k
  {
    if k > 0 {
      assert Zeros(k) + ds == ['0'] + (Zeros(k - 1) + ds);
      ZerosValue(k - 1, ds);
    } else {
      assert Zeros(k) + ds == ds;
    }
  }

  /** The scan of strconv.ParseUint accepts any digit string whose value fits. */
  lemma {:induction false} ParseUintDigits(ds: string, acc: nat)
    requires AllDigits(ds) && FoldDigits(acc, ds) <= MAX_UINT64
    ensures ParseUint(ds, acc) == Read(FoldDigits(acc, ds))
    decreases |ds|
  {
    if |ds| > 0 {
      var n := acc * 10 + DigitValue(ds[0]);
      FoldGrows(n, ds[1..]);
      ParseUintDigits(ds[1..], n);
    }
  }

  /** A sign followed by digits of a value within 64 bits reads back as that value. */
  lemma {:induction false} AtoiSigned(n: int64, ds: string)
    requires |ds| > 0 && AllDigits(ds)
    requires ValueOf(ds) == (if n < 0 then -(n as int) else n)
    ensures Atoi(if n < 0 then "-" + ds else ds) == Success(n)
  {
    ParseUintDigits(ds, 0);
    var s := if n < 0 then "-" + ds else ds;
    if n < 0 {
      assert s[1..] == ds;
    } else {
      assert s[0] != '+' && s[0] != '-' by { assert IsDigit(ds[0]); }
    }
  }

  // ---------------------------------------------------------------------
  // Properties of the conversions

  /** Atoi is the inverse of Itoa on every 64-bit integer. */
  lemma {:induction false} AtoiItoa(i: int64)
    ensures Atoi(Itoa(i)) == Success(i)
  {
    var m: nat := if i < 0 then -(i as int) else i;
    DigitsValue(m);
    AtoiSigned(i, Digits(m));
  }

  /** Itoa writes a minus sign exactly for negative numbers, then digits only. */
  lemma {:induction false} ItoaShape(i: int64)
    ensures i < 0 ==> Itoa(i)[0] == '-' && AllDigits(Itoa(i)[1..])
    ensures i >= 0 ==> AllDigits(Itoa(i))
  {
    if i < 0 {
      assert Itoa(i)[1..] == Digits(-(i as int));
    }
  }

  /** Zero-filling pads to at least `width` characters and never truncates:
      the text is exactly as long as the wider of `width` and the plain
      decimal form, and ends with the digits of the magnitude. */
  lemma {:induction false} ZeroPadLength(n: int64, width: nat)
    ensures |ZeroPad(n, width)| == Max(width, |Itoa(n)|)
    ensures var ds := Digits(if n < 0 then -(n as int) else n);
            |ds| <= |ZeroPad(n, width)| && ZeroPad(n, width)[|ZeroPad(n, width)| - |ds|..] == ds
    ensures width <= |Itoa(n)| ==> ZeroPad(n, width) == Itoa(n)
  {
    var m: nat := if n < 0 then -(n as int) else n;
    var ds := Digits(m);
    if n < 0 {
      var k := width - 1 - |ds|;
      assert ZeroPad(n, width) == "-" + Zeros(k) + ds;
      assert Itoa(n) == "-" + ds;
      PadPieces("-", k, ds);
    } else {
      var k := width - |ds|;
      assert ZeroPad(n, width) == "" + Zeros(k) + ds;
      assert Itoa(n) == ds;
      PadPieces("", k, ds);
    }
  }

  /** A sign, then `k` zeros, then the digits: how long it is, where the
      digits sit, and that no zeros are added when `k` is not positive. */
  lemma {:induction false} PadPieces(sign: string, k: int, ds: string)
    ensures var p := sign + Zeros(k) + ds;
            && |p| == |sign| + (if k < 0 then 0 else k) + |ds|
            && p[|p| - |ds|..] == ds
            && (k <= 0 ==> p == sign + ds)
  {
    var p := sign + Zeros(k) + ds;
    assert p[|p| - |ds|..] == ds;
    if k <= 0 {
      assert Zeros(k) == [];
    }
  }

  /** Zero-filling keeps the value: Atoi reads the padded text back as `n`. */
  lemma {:induction false} AtoiZeroPad(n: int64, width: nat)
    ensures Atoi(ZeroPad(n, width)) == Success(n)
  {
    var m: nat := if n < 0 then -(n as int) else n;
    var k := if n < 0 then width - 1 - |Digits(m)| else width - |Digits(m)|;
    var ds := Zeros(k) + Digits(m);
    DigitsValue(m);
    ZerosValue(k, Digits(m));
    AtoiSigned(n, ds);
    if n < 0 {
      assert ZeroPad(n, width) == "-" + ds;
    } else {
      assert ZeroPad(n, width) == ds;
    }
  }

  /** A one-character text reads as a number exactly when it is a decimal
      digit, and then as that digit's value. */
  lemma {:induction false} AtoiSingle(c: char)
    ensures Atoi([c]) == if IsDigit(c) then Success(DigitValue(c) as int64) else Failure(SyntaxError([c]))
  {
    if IsDigit(c) {
      assert ParseUint([c][1..], DigitValue(c)) == Read(DigitValue(c));
    }
  }
}

/** The integer-literal parser of the generator (`text_to_number` and
    `string_to_number` in `src/utils.rs`): base prefix, digit run, optional
    width suffix, accumulated in a 128-bit register with a wrap guard. */
module Numbers {
  import opened Wrappers
  import opened Utils

  const U128_MODULUS: nat := 0x1_0000_0000_0000_0000_0000_0000_0000_0000

  /** A `u128`. */
  type U128 = x: nat | x < U128_MODULUS

  function Pow(b: nat, e: nat): nat
  {
    if e == 0 then 1 else b * Pow(b, e - 1)
  }

  // ---------------------------------------------------------------------
  // The scan as written

  /** The loop of `text_to_number` from position `index` with accumulator
      `result`: an unknown character fails, a suffix marker ends the scan
      (failing unless the rest is a valid width), and each digit updates the
      accumulator modulo 2^128, failing when the wrapped value is smaller
      than the previous one. */
  function Scan(value: seq<Byte>, radix: Radix, index: nat, result: U128): Option<U128>
    requires index <= |value|
    decreases |value| - index
  {
    if index == |value| then Some(result)
    else
      var v := Classify(radix, value[index]);
      if v == UNKNOWN_CHAR then None
      else if v == SUFFIX_MARKER then
        if ValidateSuffix(value[index + 1..]) then Some(result) else None
      else
        var res := (result * Base(radix) + v as int) % U128_MODULUS;
        if res < result then None else Scan(value, radix, index + 1, res)
  }

  /** `text_to_number`. */
  method TextToNumber(value: seq<Byte>, radix: Radix) returns (r: Option<U128>)
    ensures r == Scan(value, radix, 0, 0)
  {
    var result: U128 := 0;
    var len := |value|;
    var index := 0;
    while index < len
      invariant 0 <= index <= len
      invariant Scan(value, radix, 0, 0) == Scan(value, radix, index, result)
    {
      var v := Classify(radix, value[index]);
      if v == UNKNOWN_CHAR {
        return None;
      }
      if v == SUFFIX_MARKER {
        if !ValidateSuffix(value[index + 1..]) {
          return None;
        }
        break;
      }
      var res := (result * Base(radix) + v as int) % U128_MODULUS;
      if res < result {
        return None;
      }
      result := res;
      index := index + 1;
    }
    return Some(result);
  }

  /** The prefix dispatch of `string_to_number`, on the literal's bytes. */
  function ParseNumber(b: seq<Byte>): Option<U128>
  {
    if |b| == 0 then None
    else if |b| >= 2 && b[0] == '0' as Byte && b[1] == 'x' as Byte then Scan(b[2..], Hex, 0, 0)
    else if |b| >= 2 && b[0] == '0' as Byte && b[1] == 'o' as Byte then Scan(b[2..], Oct, 0, 0)
    else if |b| >= 2 && b[0] == '0' as Byte && b[1] == 'b' as Byte then Scan(b[2..], Bin, 0, 0)
    else Scan(b, Dec, 0, 0)
  }

  /** `string_to_number`. */
  method StringToNumber(value: string) returns (r: Option<U128>)
    ensures r == ParseNumber(AsBytes(value))
  {
    var b := AsBytes(value);
    if |b| == 0 {
      return None;
    }
    if |b| >= 2 && b[0] == '0' as Byte {
      if b[1] == 'x' as Byte {
        r := TextToNumber(b[2..], Hex);
        return;
      } else if b[1] == 'o' as Byte {
        r := TextToNumber(b[2..], Oct);
        return;
      } else if b[1] == 'b' as Byte {
        r := TextToNumber(b[2..], Bin);
        return;
      }
    }
    r := TextToNumber(b, Dec);
  }

  // ---------------------------------------------------------------------
  // Reference: the value of a digit run

  predicate AllDigits(radix: Radix, s: seq<Byte>)
  {
    forall i :: 0 <= i < |s| ==> (Classify(radix, s[i]) as int) < Base(radix)
  }

  /** Horner's rule from accumulator `acc`, most significant digit first,
      in unbounded arithmetic. */
  function Horner(radix: Radix, acc: nat, s: seq<Byte>): nat
    requires AllDigits(radix, s)
    decreases |s|
  {
    if s == [] then acc
    else Horner(radix, acc * Base(radix) + Classify(radix, s[0]) as int, s[1..])
  }

  /** The mathematical value of a digit run. */
  function DigitsValue(radix: Radix, s: seq<Byte>): nat
    requires AllDigits(radix, s)
  {
    Horner(radix, 0, s)
  }

  lemma {:induction false} HornerGrows(radix: Radix, acc: nat, s: seq<Byte>)
    requires AllDigits(radix, s)
    ensures Horner(radix, acc, s) >= acc
    decreases |s|
  {
    if s != [] {
      HornerGrows(radix, acc * Base(radix) + Classify(radix, s[0]) as int, s[1..]);
    }
  }

  /** Appending a digit multiplies by the base and adds the digit. */
  lemma {:induction false} HornerSnoc(radix: Radix, acc: nat, s: seq<Byte>, c: Byte)
    requires AllDigits(radix, s) && (Classify(radix, c) as int) < Base(radix)
    ensures AllDigits(radix, s + [c])
    ensures Horner(radix, acc, s + [c]) == Horner(radix, acc, s) * Base(radix) + Classify(radix, c) as int
    decreases |s|
  {
    assert forall i :: 0 <= i < |s + [c]| ==> (s + [c])[i] == if i < |s| then s[i] else c;
    if s != [] {
      assert (s + [c])[1..] == s[1..] + [c];
      HornerSnoc(radix, acc * Base(radix) + Classify(radix, s[0]) as int, s[1..], c);
    }
  }

  /** While the running value stays below 2^128 the wrap guard never fires
      and the accumulator is exact. */
  lemma {:induction false} ScanDigits(value: seq<Byte>, radix: Radix, i: nat, k: nat, acc: U128)
    requires i <= k <= |value|
    requires AllDigits(radix, value[i..k])
    requires Horner(radix, acc, value[i..k]) < U128_MODULUS
    ensures Scan(value, radix, i, acc) == Scan(value, radix, k, Horner(radix, acc, value[i..k]))
    decreases k - i
  {
    if i < k {
      var d := Classify(radix, value[i]) as int;
      assert value[i..k][0] == value[i];
      assert value[i..k][1..] == value[i + 1..k];
      var next := acc * Base(radix) + d;
      HornerGrows(radix, next, value[i + 1..k]);
      ScanStep(value, radix, i, acc);
      ScanDigits(value, radix, i + 1, k, next);
    }
  }

  /** A digit whose step stays below 2^128 moves the scan on by one. */
  lemma ScanStep(value: seq<Byte>, radix: Radix, i: nat, acc: U128)
    requires i < |value| && (Classify(radix, value[i]) as int) < Base(radix)
    requires acc * Base(radix) + Classify(radix, value[i]) as int < U128_MODULUS
    ensures Scan(value, radix, i, acc) == Scan(value, radix, i + 1, acc * Base(radix) + Classify(radix, value[i]) as int)
  {
    AccumulateStep(acc, Base(radix), Classify(radix, value[i]) as int);
  }

  /** One accumulation step that stays below 2^128 is exact and does not
      decrease the accumulator. */
  lemma AccumulateStep(acc: U128, base: nat, d: nat)
    requires base >= 1 && acc * base + d < U128_MODULUS
    ensures (acc * base + d) % U128_MODULUS == acc * base + d >= acc
  {
    assert acc * base >= acc * 1;
  }

  /** A run of digits whose value fits in 128 bits parses to that value. */
  lemma TextToNumberExact(radix: Radix, s: seq<Byte>)
    requires AllDigits(radix, s) && DigitsValue(radix, s) < U128_MODULUS
    ensures Scan(s, radix, 0, 0) == Some(DigitsValue(radix, s))
  {
    assert s[0..|s|] == s;
    ScanDigits(s, radix, 0, |s|, 0);
  }

  /** Digits followed by a 'u' or 'i' marker: the value of the digits when
      the rest is one of the five widths, failure otherwise. In particular
      an empty digit run before a valid suffix ("u8") gives 0. */
  lemma TextToNumberWithSuffix(radix: Radix, digits: seq<Byte>, marker: Byte, width: seq<Byte>)
    requires AllDigits(radix, digits) && DigitsValue(radix, digits) < U128_MODULUS
    requires marker == 'u' as Byte || marker == 'i' as Byte
    ensures Scan(digits + [marker] + width, radix, 0, 0)
         == if ValidateSuffix(width) then Some(DigitsValue(radix, digits)) else None
  {
    var s := digits + [marker] + width;
    assert s[0..|digits|] == digits;
    ScanDigits(s, radix, 0, |digits|, 0);
    ClassifyOutcomes(radix, marker);
    assert s[|digits|] == marker;
    assert s[|digits| + 1..] == width;
  }

  /** A character that is neither a digit of the base nor a suffix marker
      makes the parse fail, whatever the value of the digits before it. */
  lemma {:induction false} TextToNumberRejectsUnknown(value: seq<Byte>, radix: Radix, i: nat, j: nat, acc: U128)
    requires i <= j < |value|
    requires AllDigits(radix, value[i..j])
    requires Classify(radix, value[j]) == UNKNOWN_CHAR
    ensures Scan(value, radix, i, acc) == None
    decreases j - i
  {
    if i < j {
      assert value[i..j][0] == value[i];
      assert value[i + 1..j] == value[i..j][1..];
      var res := (acc * Base(radix) + Classify(radix, value[i]) as int) % U128_MODULUS;
      if res >= acc {
        TextToNumberRejectsUnknown(value, radix, i + 1, j, res);
      }
    }
  }

  // ---------------------------------------------------------------------
  // The prefix dispatch

  /** The literal prefix that selects each base. */
  function Prefix(radix: Radix): seq<Byte>
  {
    match radix
    case Hex => AsBytes("0x")
    case Oct => AsBytes("0o")
    case Bin => AsBytes("0b")
    case Dec => []
  }

  /** `0x`, `0o` and `0b` select bases 16, 8 and 2 for the rest of the
      literal; without a prefix the literal is decimal. */
  lemma ParseNumberDispatch(radix: Radix, rest: seq<Byte>)
    requires radix != Dec
    ensures ParseNumber(Prefix(radix) + rest) == Scan(rest, radix, 0, 0)
  {
    var b := Prefix(radix) + rest;
    assert b[2..] == rest;
  }

  /** Empty text is not a number. */
  lemma ParseNumberEmpty()
    ensures ParseNumber([]) == None
  {
  }

  /** A decimal literal (no prefix) is scanned in base 10. */
  lemma ParseNumberDecimal(b: seq<Byte>)
    requires |b| > 0
    requires |b| >= 2 && b[0] == '0' as Byte ==> b[1] !in {'x' as Byte, 'o' as Byte, 'b' as Byte}
    ensures ParseNumber(b) == Scan(b, Dec, 0, 0)
  {
  }

  /** Every well-formed literal parses to the value of its digits, for each
      base, with or without a width suffix. */
  lemma ParseNumberLiteral(radix: Radix, digits: seq<Byte>, marker: Byte, width: seq<Byte>)
    requires AllDigits(radix, digits) && DigitsValue(radix, digits) < U128_MODULUS
    requires marker == 'u' as Byte || marker == 'i' as Byte
    requires ValidateSuffix(width)
    ensures radix != Dec || |digits| > 0 ==> ParseNumber(Prefix(radix) + digits) == Some(DigitsValue(radix, digits))
    ensures ParseNumber(Prefix(radix) + digits + [marker] + width) == Some(DigitsValue(radix, digits))
  {
    TextToNumberWithSuffix(radix, digits, marker, width);
    if radix != Dec {
      TextToNumberExact(radix, digits);
      ParseNumberDispatch(radix, digits);
      assert Prefix(radix) + digits + [marker] + width == Prefix(radix) + (digits + [marker] + width);
      ParseNumberDispatch(radix, digits + [marker] + width);
    } else {
      assert Prefix(radix) + digits == digits;
      var b := digits + [marker] + width;
      assert Prefix(radix) + digits + [marker] + width == b;
      if |digits| > 0 {
        TextToNumberExact(radix, digits);
        ClassifyOutcomes(Dec, digits[0]);
        if |digits| >= 2 {
          ClassifyOutcomes(Dec, digits[1]);
        }
      }
      if |b| >= 2 && b[0] == '0' as Byte {
        if |digits| >= 2 {
          ClassifyOutcomes(Dec, digits[1]);
        } else if |digits| == 1 {
          assert b[1] == marker;
        }
      }
    }
  }

  // ---------------------------------------------------------------------
  // Printing a number (`format!("{}", value)` and `format!("{:x}", value)`)

  /** The digits of `v` in the given base, most significant first, without
      leading zeros (a single "0" for zero). */
  function DigitString(radix: Radix, v: nat): string
    decreases v
  {
    if v < Base(radix) then [DIGIT_CHARS[v]]
    else DigitString(radix, v / Base(radix)) + [DIGIT_CHARS[v % Base(radix)]]
  }

  /** Printing and parsing digits are inverse: the printed digits are
      digits of the base and their value is the number printed. */
  lemma {:induction false} DigitStringValue(radix: Radix, v: nat)
    ensures |DigitString(radix, v)| > 0
    ensures AllDigits(radix, AsBytes(DigitString(radix, v)))
    ensures DigitsValue(radix, AsBytes(DigitString(radix, v))) == v
    decreases v
  {
    var b := Base(radix);
    if v < b {
      DigitStringSingle(radix, v);
    } else {
      var q, r := v / b, v % b;
      DigitStringValue(radix, q);
      ClassifyDigitChar(radix, r);
      DigitStringSnoc(radix, v);
      HornerSnoc(radix, 0, AsBytes(DigitString(radix, q)), DigitChar(radix, r));
      DivMod(v, b);
    }
  }

  /** A number below the base prints as its one digit. */
  lemma DigitStringSingle(radix: Radix, v: nat)
    requires v < Base(radix)
    ensures AllDigits(radix, AsBytes(DigitString(radix, v)))
    ensures DigitsValue(radix, AsBytes(DigitString(radix, v))) == v
  {
    ClassifyDigitChar(radix, v);
    var c := DigitChar(radix, v);
    assert AsBytes(DigitString(radix, v)) == [c];
    assert [c][1..] == [];
    assert Horner(radix, 0, [c]) == Horner(radix, Classify(radix, c) as int, []);
  }

  /** The last printed digit is the remainder. */
  lemma DigitStringSnoc(radix: Radix, v: nat)
    requires v >= Base(radix)
    ensures AsBytes(DigitString(radix, v))
         == AsBytes(DigitString(radix, v / Base(radix))) + [DigitChar(radix, v % Base(radix))]
  {
    var r := v % Base(radix);
    var c := DIGIT_CHARS[r];
    DigitCharIsAscii(radix, r);
    AsBytesAppend(DigitString(radix, v / Base(radix)), [c]);
    assert AsBytes([c]) == [DigitChar(radix, r)];
  }

  lemma DivMod(v: nat, b: nat)
    requires b > 0
    ensures (v / b) * b + v % b == v
  {
  }

  // ---------------------------------------------------------------------
  // The wrap guard misses overflows

  /** `k` copies of the hexadecimal digit 'F'. */
  function HexFs(k: nat): seq<Byte>
  {
    seq(k, _ => 'F' as Byte)
  }

  lemma {:induction false} PowAdd(b: nat, m: nat, n: nat)
    ensures Pow(b, m + n) == Pow(b, m) * Pow(b, n)
  {
    if m > 0 {
      PowAdd(b, m - 1, n);
      assert Pow(b, m + n) == b * Pow(b, m - 1 + n);
    }
  }

  lemma Pow16Is128Bits()
    ensures Pow(16, 32) == U128_MODULUS
  {
    assert Pow(16, 1) == 16;
    PowAdd(16, 1, 1);
    PowAdd(16, 2, 2);
    PowAdd(16, 4, 4);
    PowAdd(16, 8, 8);
    PowAdd(16, 16, 16);
  }

  lemma {:induction false} HornerHexFs(acc: nat, k: nat)
    ensures AllDigits(Hex, HexFs(k))
    ensures Horner(Hex, acc, HexFs(k)) == (acc + 1) * Pow(16, k) - 1
    decreases k
  {
    if k > 0 {
      assert HexFs(k)[1..] == HexFs(k - 1);
      HornerHexFs(acc * 16 + 15, k - 1);
      assert (acc * 16 + 16) * Pow(16, k - 1) == (acc + 1) * (16 * Pow(16, k - 1));
    }
  }

  /** The literal 0x followed by 33 'F' digits is 16^33 - 1, far above
      2^128, yet the wrap guard lets it through as 2^128 - 1: the last
      step wraps (2^128 - 1) * 16 + 15 to 2^128 - 1, which is not smaller
      than the previous value. */
  lemma OverflowGuardMisses()
    ensures AllDigits(Hex, HexFs(33)) && DigitsValue(Hex, HexFs(33)) >= U128_MODULUS
    ensures ParseNumber(AsBytes("0x") + HexFs(33)) == Some(U128_MODULUS - 1)
  {
    var v := HexFs(33);
    HexFsValues(32);
    assert v[0..32] == HexFs(32);
    ScanDigits(v, Hex, 0, 32, 0);
    LastStepWraps();
    ParseNumberDispatch(Hex, v);
  }

  lemma HexFsValues(k: nat)
    requires k == 32
    ensures AllDigits(Hex, HexFs(k)) && Horner(Hex, 0, HexFs(k)) == U128_MODULUS - 1
    ensures AllDigits(Hex, HexFs(k + 1)) && Horner(Hex, 0, HexFs(k + 1)) >= U128_MODULUS
  {
    HornerHexFs(0, k + 1);
    HornerHexFs(0, k);
    Pow16Is128Bits();
    assert Pow(16, k + 1) == 16 * Pow(16, k);
  }

  lemma LastStepWraps()
    ensures Scan(HexFs(33), Hex, 32, U128_MODULUS - 1) == Some(U128_MODULUS - 1)
  {
    var v := HexFs(33);
    assert v[32] == 'F' as Byte;
    var max := U128_MODULUS - 1;
    assert max * 16 + 15 == U128_MODULUS * 15 + max;
    assert (max * 16 + 15) % U128_MODULUS == max;
  }

  /** The scan with the overflow test the guard evidently intends: fail as
      soon as `result * base + digit` does not fit in 128 bits. */
  function ScanChecked(value: seq<Byte>, radix: Radix, index: nat, result: U128): Option<U128>
    requires index <= |value|
    decreases |value| - index
  {
    if index == |value| then Some(result)
    else
      var v := Classify(radix, value[index]);
      if v == UNKNOWN_CHAR then None
      else if v == SUFFIX_MARKER then
        if ValidateSuffix(value[index + 1..]) then Some(result) else None
      else
        var next := result * Base(radix) + v as int;
        if next >= U128_MODULUS then None else ScanChecked(value, radix, index + 1, next)
  }

  /** With the exact test a digit run parses to its value if that value
      fits in 128 bits, and fails otherwise. */
  lemma {:induction false} ScanCheckedExact(value: seq<Byte>, radix: Radix, i: nat, acc: U128)
    requires i <= |value| && AllDigits(radix, value[i..])
    ensures ScanChecked(value, radix, i, acc)
         == if Horner(radix, acc, value[i..]) < U128_MODULUS then Some(Horner(radix, acc, value[i..])) else None
    decreases |value| - i
  {
    if i < |value| {
      var d := Classify(radix, value[i]) as int;
      assert value[i..][0] == value[i];
      assert value[i..][1..] == value[i + 1..];
      var next := acc * Base(radix) + d;
      HornerGrows(radix, next, value[i + 1..]);
      if next < U128_MODULUS {
        ScanCheckedExact(value, radix, i + 1, next);
      }
    }
  }
}

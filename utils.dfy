/** Byte-level helpers of the generator: the case-folding table, the FNV-1a
    name hash, the identifier check, the width-suffix check and the digit
    classifiers used by the literal parser (`src/utils.rs`). */
module Utils {

  /** A byte, `u8`. */
  newtype Byte = b: int | 0 <= b < 256

  /** The bytes of a text, as `str::as_bytes` gives them for ASCII text.
      A character outside ASCII is reduced to its code modulo 256. */
  function AsBytes(s: string): seq<Byte>
  {
    seq(|s|, i requires 0 <= i < |s| => (s[i] as int % 256) as Byte)
  }

  lemma AsBytesAppend(a: string, b: string)
    ensures AsBytes(a + b) == AsBytes(a) + AsBytes(b)
  {
    assert forall i :: 0 <= i < |a + b| ==> AsBytes(a + b)[i] == (AsBytes(a) + AsBytes(b))[i];
  }

  // ---------------------------------------------------------------------
  // Case folding

  /** The 256-entry table the hash folds every byte through, written as
      sixteen rows of sixteen entries. */
  const LOWER_ROW_0: seq<Byte> := [0, 1, 2, 3, 4, 5, 6, 7, 8, 9, 10, 11, 12, 13, 14, 15]
  const LOWER_ROW_1: seq<Byte> := [16, 17, 18, 19, 20, 21, 22, 23, 24, 25, 26, 27, 28, 29, 30, 31]
  const LOWER_ROW_2: seq<Byte> := [32, 33, 34, 35, 36, 37, 38, 39, 40, 41, 42, 43, 44, 45, 46, 47]
  const LOWER_ROW_3: seq<Byte> := [48, 49, 50, 51, 52, 53, 54, 55, 56, 57, 58, 59, 60, 61, 62, 63]
  const LOWER_ROW_4: seq<Byte> := [64, 97, 98, 99, 100, 101, 102, 103, 104, 105, 106, 107, 108, 109, 110, 111]
  const LOWER_ROW_5: seq<Byte> := [112, 113, 114, 115, 116, 117, 118, 119, 120, 121, 122, 91, 92, 93, 94, 95]
  const LOWER_ROW_6: seq<Byte> := [96, 97, 98, 99, 100, 101, 102, 103, 104, 105, 106, 107, 108, 109, 110, 111]
  const LOWER_ROW_7: seq<Byte> := [112, 113, 114, 115, 116, 117, 118, 119, 120, 121, 122, 123, 124, 125, 126, 127]
  const LOWER_ROW_8: seq<Byte> := [128, 129, 130, 131, 132, 133, 134, 135, 136, 137, 138, 139, 140, 141, 142, 143]
  const LOWER_ROW_9: seq<Byte> := [144, 145, 146, 147, 148, 149, 150, 151, 152, 153, 154, 155, 156, 157, 158, 159]
  const LOWER_ROW_A: seq<Byte> := [160, 161, 162, 163, 164, 165, 166, 167, 168, 169, 170, 171, 172, 173, 174, 175]
  const LOWER_ROW_B: seq<Byte> := [176, 177, 178, 179, 180, 181, 182, 183, 184, 185, 186, 187, 188, 189, 190, 191]
  const LOWER_ROW_C: seq<Byte> := [192, 193, 194, 195, 196, 197, 198, 199, 200, 201, 202, 203, 204, 205, 206, 207]
  const LOWER_ROW_D: seq<Byte> := [208, 209, 210, 211, 212, 213, 214, 215, 216, 217, 218, 219, 220, 221, 222, 223]
  const LOWER_ROW_E: seq<Byte> := [224, 225, 226, 227, 228, 229, 230, 231, 232, 233, 234, 235, 236, 237, 238, 239]
  const LOWER_ROW_F: seq<Byte> := [240, 241, 242, 243, 244, 245, 246, 247, 248, 249, 250, 251, 252, 253, 254, 255]

  /** `LOWER_CASE_TABLE`, indexed by row (high nibble) and column (low
      nibble). */
  const LowerCaseTable: seq<seq<Byte>> :=
    [LOWER_ROW_0, LOWER_ROW_1, LOWER_ROW_2, LOWER_ROW_3, LOWER_ROW_4, LOWER_ROW_5, LOWER_ROW_6, LOWER_ROW_7,
     LOWER_ROW_8, LOWER_ROW_9, LOWER_ROW_A, LOWER_ROW_B, LOWER_ROW_C, LOWER_ROW_D, LOWER_ROW_E, LOWER_ROW_F]

  /** `LOWER_CASE_TABLE[b as usize]`. */
  function Lower(b: Byte): Byte
  {
    LowerCaseTable[b / 16][b % 16]
  }

  /** The byte view of `s` with every byte folded through the table. */
  function LowerAll(s: seq<Byte>): (r: seq<Byte>)
    ensures |r| == |s|
  {
    seq(|s|, i requires 0 <= i < |s| => Lower(s[i]))
  }

  /** The table maps the upper-case ASCII letters 'A'..'Z' (65..90) to
      'a'..'z' (97..122) and every other byte to itself. */
  lemma LowerCaseTableMapsAsciiLetters(b: Byte)
    ensures 65 <= b <= 90 ==> Lower(b) == b + 32
    ensures !(65 <= b <= 90) ==> Lower(b) == b
  {
    if b < 16 {
      LowerCaseRow0(b);
    } else if b < 32 {
      LowerCaseRow1(b);
    } else if b < 48 {
      LowerCaseRow2(b);
    } else if b < 64 {
      LowerCaseRow3(b);
    } else if b < 80 {
      LowerCaseRow4(b);
    } else if b < 96 {
      LowerCaseRow5(b);
    } else if b < 112 {
      LowerCaseRow6(b);
    } else if b < 128 {
      LowerCaseRow7(b);
    } else if b < 144 {
      LowerCaseRow8(b);
    } else if b < 160 {
      LowerCaseRow9(b);
    } else if b < 176 {
      LowerCaseRowA(b);
    } else if b < 192 {
      LowerCaseRowB(b);
    } else if b < 208 {
      LowerCaseRowC(b);
    } else if b < 224 {
      LowerCaseRowD(b);
    } else if b < 240 {
      LowerCaseRowE(b);
    } else {
      LowerCaseRowF(b);
    }
  }

  // The table checked one row of sixteen entries at a time.
  lemma LowerCaseRow0(b: Byte)
    requires b < 16
    ensures Lower(b) as int == if 65 <= b as int <= 90 then b as int + 32 else b as int
  {
    assert b / 16 == 0 && LowerCaseTable[0] == LOWER_ROW_0;
  }

  lemma LowerCaseRow1(b: Byte)
    requires 16 <= b < 32
    ensures Lower(b) as int == if 65 <= b as int <= 90 then b as int + 32 else b as int
  {
    assert b / 16 == 1 && LowerCaseTable[1] == LOWER_ROW_1;
  }

  lemma LowerCaseRow2(b: Byte)
    requires 32 <= b < 48
    ensures Lower(b) as int == if 65 <= b as int <= 90 then b as int + 32 else b as int
  {
    assert b / 16 == 2 && LowerCaseTable[2] == LOWER_ROW_2;
  }

  lemma LowerCaseRow3(b: Byte)
    requires 48 <= b < 64
    ensures Lower(b) as int == if 65 <= b as int <= 90 then b as int + 32 else b as int
  {
    assert b / 16 == 3 && LowerCaseTable[3] == LOWER_ROW_3;
  }

  lemma LowerCaseRow4(b: Byte)
    requires 64 <= b < 80
    ensures Lower(b) as int == if 65 <= b as int <= 90 then b as int + 32 else b as int
  {
    assert b / 16 == 4 && LowerCaseTable[4] == LOWER_ROW_4;
  }

  lemma LowerCaseRow5(b: Byte)
    requires 80 <= b < 96
    ensures Lower(b) as int == if 65 <= b as int <= 90 then b as int + 32 else b as int
  {
    assert b / 16 == 5 && LowerCaseTable[5] == LOWER_ROW_5;
  }

  lemma LowerCaseRow6(b: Byte)
    requires 96 <= b < 112
    ensures Lower(b) as int == if 65 <= b as int <= 90 then b as int + 32 else b as int
  {
    assert b / 16 == 6 && LowerCaseTable[6] == LOWER_ROW_6;
  }

  lemma LowerCaseRow7(b: Byte)
    requires 112 <= b < 128
    ensures Lower(b) as int == if 65 <= b as int <= 90 then b as int + 32 else b as int
  {
    assert b / 16 == 7 && LowerCaseTable[7] == LOWER_ROW_7;
  }

  lemma LowerCaseRow8(b: Byte)
    requires 128 <= b < 144
    ensures Lower(b) as int == if 65 <= b as int <= 90 then b as int + 32 else b as int
  {
    assert b / 16 == 8 && LowerCaseTable[8] == LOWER_ROW_8;
  }

  lemma LowerCaseRow9(b: Byte)
    requires 144 <= b < 160
    ensures Lower(b) as int == if 65 <= b as int <= 90 then b as int + 32 else b as int
  {
    assert b / 16 == 9 && LowerCaseTable[9] == LOWER_ROW_9;
  }

  lemma LowerCaseRowA(b: Byte)
    requires 160 <= b < 176
    ensures Lower(b) as int == if 65 <= b as int <= 90 then b as int + 32 else b as int
  {
    assert b / 16 == 10 && LowerCaseTable[10] == LOWER_ROW_A;
  }

  lemma LowerCaseRowB(b: Byte)
    requires 176 <= b < 192
    ensures Lower(b) as int == if 65 <= b as int <= 90 then b as int + 32 else b as int
  {
    assert b / 16 == 11 && LowerCaseTable[11] == LOWER_ROW_B;
  }

  lemma LowerCaseRowC(b: Byte)
    requires 192 <= b < 208
    ensures Lower(b) as int == if 65 <= b as int <= 90 then b as int + 32 else b as int
  {
    assert b / 16 == 12 && LowerCaseTable[12] == LOWER_ROW_C;
  }

  lemma LowerCaseRowD(b: Byte)
    requires 208 <= b < 224
    ensures Lower(b) as int == if 65 <= b as int <= 90 then b as int + 32 else b as int
  {
    assert b / 16 == 13 && LowerCaseTable[13] == LOWER_ROW_D;
  }

  lemma LowerCaseRowE(b: Byte)
    requires 224 <= b < 240
    ensures Lower(b) as int == if 65 <= b as int <= 90 then b as int + 32 else b as int
  {
    assert b / 16 == 14 && LowerCaseTable[14] == LOWER_ROW_E;
  }

  lemma LowerCaseRowF(b: Byte)
    requires 240 <= b
    ensures Lower(b) as int == if 65 <= b as int <= 90 then b as int + 32 else b as int
  {
    assert b / 16 == 15 && LowerCaseTable[15] == LOWER_ROW_F;
  }

  /** Folding twice is folding once. */
  lemma LowerAllIdempotent(s: seq<Byte>)
    ensures LowerAll(LowerAll(s)) == LowerAll(s)
  {
    forall i | 0 <= i < |s|
      ensures LowerAll(LowerAll(s))[i] == LowerAll(s)[i]
    {
      LowerCaseTableMapsAsciiLetters(s[i]);
      LowerCaseTableMapsAsciiLetters(Lower(s[i]));
    }
  }

  // ---------------------------------------------------------------------
  // FNV-1a, 64 bits

  /** `u64` values, whose arithmetic wraps modulo 2^64. */
  const U64_MODULUS: nat := 0x1_0000_0000_0000_0000
  type U64 = x: nat | x < U64_MODULUS

  const FNV_OFFSET_BASIS: U64 := 0xcbf29ce484222325
  const FNV_PRIME: U64 := 0x100000001B3

  /** `h ^ (b as u64)`: a byte only reaches the low eight bits. */
  function XorByte(h: U64, b: Byte): U64
  {
    h - h % 256 + (((h % 256) as bv8) ^ (b as bv8)) as int
  }

  /** One FNV-1a round: xor the byte in, then `wrapping_mul` by the prime. */
  function FnvRound(h: U64, b: Byte): U64
  {
    (XorByte(h, b) * FNV_PRIME) % U64_MODULUS
  }

  /** The textbook 64-bit FNV-1a hash of a byte string: one round per byte,
      starting from the offset basis. */
  function Fnv1a64(s: seq<Byte>): U64
    decreases |s|
  {
    if s == [] then FNV_OFFSET_BASIS else FnvRound(Fnv1a64(s[..|s| - 1]), s[|s| - 1])
  }

  /** The name fingerprint: 0 for the empty name, otherwise FNV-1a over the
      case-folded bytes. */
  function StringHash(buf: seq<Byte>): U64
  {
    if |buf| == 0 then 0 else Fnv1a64(LowerAll(buf))
  }

  /** `compute_string_hash`: a loop over the bytes that folds each one
      through the table before mixing it in. */
  method ComputeStringHash(buf: seq<Byte>) returns (hash: U64)
    ensures hash == StringHash(buf)
  {
    if |buf| == 0 {
      return 0;
    }
    hash := FNV_OFFSET_BASIS;
    var idx := 0;
    while idx < |buf|
      invariant 0 <= idx <= |buf|
      invariant hash == Fnv1a64(LowerAll(buf[..idx]))
    {
      ghost var folded := LowerAll(buf[..idx + 1]);
      assert folded[..idx] == LowerAll(buf[..idx]);
      assert folded[idx] == Lower(buf[idx]);
      hash := FnvRound(hash, Lower(buf[idx]));
      idx := idx + 1;
    }
    assert buf[..idx] == buf;
  }

  /** The hash ignores ASCII letter case: a name and its lower-case form
      always collide. */
  lemma {:induction false} StringHashIgnoresCase(s: seq<Byte>)
    ensures StringHash(s) == StringHash(LowerAll(s))
  {
    LowerAllIdempotent(s);
  }

  /** "AB" and "ab" receive the same fingerprint, so the parser reports
      them as the same variant. */
  lemma StringHashCollidesOnCase()
    ensures StringHash(AsBytes("AB")) == StringHash(AsBytes("ab"))
  {
    var upper, lower := AsBytes("AB"), AsBytes("ab");
    assert upper == [65, 66] && lower == [97, 98];
    LowerCaseTableMapsAsciiLetters(65);
    LowerCaseTableMapsAsciiLetters(66);
    LowerCaseTableMapsAsciiLetters(97);
    LowerCaseTableMapsAsciiLetters(98);
    assert LowerAll(upper) == LowerAll(lower);
  }

  // ---------------------------------------------------------------------
  // Identifier check

  predicate IsAsciiLetter(c: char) { 'A' <= c <= 'Z' || 'a' <= c <= 'z' }
  predicate IsAsciiDigit(c: char) { '0' <= c <= '9' }
  predicate IsIdentChar(c: char) { IsAsciiLetter(c) || IsAsciiDigit(c) || c == '_' }

  /** A legal variant name: non-empty, letters, digits and '_' only, and
      not starting with a digit. */
  predicate IsVariantName(name: string)
  {
    |name| > 0 && !IsAsciiDigit(name[0]) && forall i :: 0 <= i < |name| ==> IsIdentChar(name[i])
  }

  /** `validate_enum_variant_name`: a scan over the characters that stops at
      the first illegal one. */
  method ValidateEnumVariantName(name: string) returns (ok: bool)
    ensures ok <==> IsVariantName(name)
  {
    if |name| == 0 {
      return false;
    }
    for index := 0 to |name|
      invariant forall i :: 0 <= i < index ==> IsIdentChar(name[i])
      invariant index > 0 ==> !IsAsciiDigit(name[0])
    {
      var ch := name[index];
      if IsAsciiLetter(ch) {
        continue;
      }
      if IsAsciiDigit(ch) {
        if index == 0 {
          return false;
        } else {
          continue;
        }
      }
      if ch == '_' {
        continue;
      }
      return false;
    }
    return true;
  }

  // ---------------------------------------------------------------------
  // Width suffix

  /** `validate_suffix`: the digits after a 'u' or 'i' marker, dispatched
      on their length. */
  function ValidateSuffix(suffix: seq<Byte>): (ok: bool)
    ensures ok <==> suffix in {AsBytes("8"), AsBytes("16"), AsBytes("32"), AsBytes("64"), AsBytes("128")}
  {
    assert AsBytes("8") == [56];
    assert AsBytes("16") == [49, 54];
    assert AsBytes("32") == [51, 50];
    assert AsBytes("64") == [54, 52];
    assert AsBytes("128") == [49, 50, 56];
    match |suffix|
    case 1 =>
      assert suffix == [suffix[0]];
      suffix[0] == '8' as Byte
    case 2 =>
      assert suffix == [suffix[0], suffix[1]];
      (suffix[0] == '1' as Byte && suffix[1] == '6' as Byte)
      || (suffix[0] == '3' as Byte && suffix[1] == '2' as Byte)
      || (suffix[0] == '6' as Byte && suffix[1] == '4' as Byte)
    case 3 =>
      assert suffix == [suffix[0], suffix[1], suffix[2]];
      suffix[0] == '1' as Byte && suffix[1] == '2' as Byte && suffix[2] == '8' as Byte
    case _ => false
  }

  // ---------------------------------------------------------------------
  // Digit classifiers

  const SUFFIX_MARKER: Byte := 254
  const UNKNOWN_CHAR: Byte := 255

  function CharToHex(ch: Byte): Byte
  {
    if '0' as Byte <= ch <= '9' as Byte then ch - 48
    else if 'a' as Byte <= ch <= 'f' as Byte then ch - 'a' as Byte + 10
    else if 'A' as Byte <= ch <= 'F' as Byte then ch - 'A' as Byte + 10
    else if ch == 'u' as Byte || ch == 'i' as Byte then SUFFIX_MARKER
    else UNKNOWN_CHAR
  }

  function CharToDec(ch: Byte): Byte
  {
    if '0' as Byte <= ch <= '9' as Byte then ch - 48
    else if ch == 'u' as Byte || ch == 'i' as Byte then SUFFIX_MARKER
    else UNKNOWN_CHAR
  }

  function CharToOct(ch: Byte): Byte
  {
    if '0' as Byte <= ch <= '7' as Byte then ch - 48
    else if ch == 'u' as Byte || ch == 'i' as Byte then SUFFIX_MARKER
    else UNKNOWN_CHAR
  }

  function CharToBin(ch: Byte): Byte
  {
    if ch == '0' as Byte then 0
    else if ch == '1' as Byte then 1
    else if ch == 'u' as Byte || ch == 'i' as Byte then SUFFIX_MARKER
    else UNKNOWN_CHAR
  }

  /** The four (base, classifier) pairs `string_to_number` hands to
      `text_to_number`. */
  datatype Radix = Hex | Dec | Oct | Bin

  function Base(radix: Radix): nat
  {
    match radix
    case Hex => 16
    case Dec => 10
    case Oct => 8
    case Bin => 2
  }

  function Classify(radix: Radix, ch: Byte): Byte
  {
    match radix
    case Hex => CharToHex(ch)
    case Dec => CharToDec(ch)
    case Oct => CharToOct(ch)
    case Bin => CharToBin(ch)
  }

  /** The digits of each base, lower-case, as the reference the classifiers
      are checked against. */
  const DIGIT_CHARS: string := "0123456789abcdef"
  const UPPER_DIGIT_CHARS: string := "0123456789ABCDEF"

  function DigitChar(radix: Radix, d: nat): Byte
    requires d < Base(radix)
  {
    DIGIT_CHARS[d] as Byte
  }

  /** A digit character is ASCII, so its byte is its code. */
  lemma DigitCharIsAscii(radix: Radix, d: nat)
    requires d < Base(radix)
    ensures DIGIT_CHARS[d] as int < 128 && DigitChar(radix, d) as int == DIGIT_CHARS[d] as int
  {
  }

  /** Every classifier gives back the value of each digit of its base, and
      the hexadecimal one also accepts upper-case digits. */
  lemma ClassifyDigitChar(radix: Radix, d: nat)
    requires d < Base(radix)
    ensures Classify(radix, DigitChar(radix, d)) as int == d
    ensures radix == Hex ==> CharToHex(UPPER_DIGIT_CHARS[d] as Byte) as int == d
  {
  }

  /** Every classifier answers a digit of its base, the suffix marker for
      exactly 'u' and 'i', or the unknown-character marker; a digit answer
      comes only from the character of that digit. */
  lemma ClassifyOutcomes(radix: Radix, ch: Byte)
    ensures var v := Classify(radix, ch);
      (v as int) < Base(radix) || v == SUFFIX_MARKER || v == UNKNOWN_CHAR
    ensures Classify(radix, ch) == SUFFIX_MARKER <==> ch == 'u' as Byte || ch == 'i' as Byte
    ensures var v := Classify(radix, ch);
      (v as int) < Base(radix) ==>
        ch == DigitChar(radix, v as int) || (radix == Hex && ch == UPPER_DIGIT_CHARS[v] as Byte)
  {
  }
}

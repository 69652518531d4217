/** The storage width of a generated flag type (`src/flags_type.rs`). */
module FlagsTypes {
  import opened Wrappers
  import opened Utils
  import opened Numbers

  datatype FlagsType = U8 | U16 | U32 | U64 | U128

  /** The number of bits each width stores. */
  function Bits(t: FlagsType): nat
  {
    match t
    case U8 => 8
    case U16 => 16
    case U32 => 32
    case U64 => 64
    case U128 => 128
  }

  /** `FlagsType::as_str`: the Rust name of the storage type. */
  function AsStr(t: FlagsType): string
  {
    match t
    case U8 => "u8"
    case U16 => "u16"
    case U32 => "u32"
    case U64 => "u64"
    case U128 => "u128"
  }

  /** Each name is 'u' followed by the decimal number of bits. */
  lemma AsStrNamesWidth(t: FlagsType)
    ensures AsStr(t) == "u" + DigitString(Dec, Bits(t))
  {
    match t
    case U8 =>
    case U16 =>
      assert DigitString(Dec, 16) == DigitString(Dec, 1) + ['6'];
    case U32 =>
      assert DigitString(Dec, 32) == DigitString(Dec, 3) + ['2'];
    case U64 =>
      assert DigitString(Dec, 64) == DigitString(Dec, 6) + ['4'];
    case U128 =>
      assert DigitString(Dec, 128) == DigitString(Dec, 12) + ['8'];
      assert DigitString(Dec, 12) == DigitString(Dec, 1) + ['2'];
  }

  /** Distinct widths have distinct names. */
  lemma AsStrInjective(a: FlagsType, b: FlagsType)
    ensures AsStr(a) == AsStr(b) <==> a == b
  {
    if a != b {
      assert AsStr(a)[1..] != AsStr(b)[1..] || |AsStr(a)| != |AsStr(b)|;
    }
  }

  /** Each name is a 'u' marker followed by a width the literal parser
      accepts as a suffix. */
  lemma AsStrIsLiteralSuffix(t: FlagsType)
    ensures |AsStr(t)| >= 2 && AsStr(t)[0] == 'u'
    ensures ValidateSuffix(AsBytes(AsStr(t)[1..]))
  {
  }

  /** So the name can follow the digits of a literal: "1" + name parses
      to 1. */
  lemma OneWithWidthParses(t: FlagsType)
    ensures ParseNumber(AsBytes("1" + AsStr(t))) == Some(1)
  {
    var digits := AsBytes("1");
    var width := AsBytes(AsStr(t)[1..]);
    AsStrIsLiteralSuffix(t);
    assert AsBytes("1" + AsStr(t)) == Prefix(Dec) + digits + ['u' as Byte] + width;
    assert digits[1..] == [];
    assert DigitsValue(Dec, digits) == Horner(Dec, 1, []);
    ParseNumberLiteral(Dec, digits, 'u' as Byte, width);
  }

  /** Each name is a legal identifier and holds no '$', so substituting it
      into the output cannot create a template placeholder. */
  lemma AsStrIsPlainIdentifier(t: FlagsType)
    ensures IsVariantName(AsStr(t))
    ensures '$' !in AsStr(t)
  {
  }
}

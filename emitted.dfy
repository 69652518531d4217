/** The Rust text the parser writes (`src/parser.rs`), as template pieces:
    fixed text, text computed from the input, and the placeholders that
    `replace_template_parameters` fills in afterwards. */
module Emitted {
  import opened Utils
  import opened Numbers
  import opened FlagsTypes
  import opened Templates

  /** The struct and the start of its impl (`validate_expect_enum`). */
  const STRUCT_HEADER: seq<Piece> := [
    Fixed("\n#[derive("), Fixed("Copy"), Fixed(",Clone"), Fixed(",Debug)]\n"),
    Hole(VisibilityHole), Fixed(" struct "), Hole(NameHole), Fixed(" {\n"), Fixed("value: "),
    Hole(BitsHole), Fixed("\n}\n"), Fixed("impl "), Hole(NameHole), Fixed(" {\n")]

  /** The start of a flag's constant, up to its value. */
  function ConstantHeader(flag: string): seq<Piece>
  {
    [Fixed("\tpub const"), Fixed(" "), Text(flag), Fixed(": "), Hole(NameHole), Fixed(" = "),
     Hole(NameHole), Fixed(" { value: ")]
  }

  /** `format!("0x{}{}", value, width)`: the value printed in DECIMAL after
      a "0x" prefix, then the width name. */
  function ValueLiteral(v: U128, t: FlagsType): string
  {
    "0x" + DigitString(Dec, v) + AsStr(t)
  }

  function ConstantTail(v: U128, t: FlagsType): seq<Piece>
  {
    [Text(ValueLiteral(v, t)), Fixed(" };\n")]
  }

  /** The constant for "no bit set", named by the empty-case placeholder. */
  const EMPTY_CONSTANT: seq<Piece> := [
    Fixed("\npub const"), Fixed(" "), Hole(EmptyHole), Fixed(": "), Hole(NameHole), Fixed(" = "),
    Hole(NameHole), Fixed(" { value:"), Fixed(" 0 };\n")]

  const CONTAINS: seq<Piece> := [
    Fixed("\npub fn"), Fixed(" contains("), Fixed("&self,"), Fixed(" obj: "), Hole(NameHole),
    Fixed(") -> bool"), Fixed(" {\n"), Fixed("return (("), Fixed("self"), Fixed(".value"),
    Fixed(" & obj"), Fixed(".value)"), Fixed(" == obj"), Fixed(".value)"), Fixed(" && (obj"),
    Fixed(".value"), Fixed("!=0);\n"), Fixed("}\n")]

  const CONTAINS_ONE: seq<Piece> := [
    Fixed("pub fn"), Fixed(" contains"), Fixed("_one("), Fixed("&self,"), Fixed(" obj: "), Hole(NameHole),
    Fixed(") -> bool"), Fixed(" {\n"), Fixed("return ("), Fixed("self"), Fixed(".value"),
    Fixed(" & obj"), Fixed(".value) !="), Fixed(" 0;\n"), Fixed("}\n")]

  const IS_EMPTY: seq<Piece> := [
    Fixed("pub fn"), Fixed(" is_empty("), Fixed("&self)"), Fixed(" -> bool {"), Fixed("\n"),
    Fixed("return"), Fixed(" self"), Fixed(".value =="), Fixed(" 0;\n"), Fixed("}\n")]

  const CLEAR: seq<Piece> := [
    Fixed("pub fn"), Fixed(" clear("), Fixed("&mut"), Fixed(" self) {\n"), Fixed("self.value"),
    Fixed(" = 0;\n"), Fixed("}\n")]

  const REMOVE: seq<Piece> := [
    Fixed("pub fn"), Fixed(" remove("), Fixed("&mut"), Fixed(" self,"), Fixed(" obj: "),
    Hole(NameHole), Fixed(") {\n"), Fixed("self.value"), Fixed(" = self"), Fixed(".value"),
    Fixed(" - (self"), Fixed(".value &"), Fixed(" obj"), Fixed(".value);\n"), Fixed("}\n")]

  /** `set`, then the brace that closes the impl. */
  const SET: seq<Piece> := [
    Fixed("pub fn"), Fixed(" set(&mut"), Fixed(" self,"), Fixed(" obj: "), Hole(NameHole),
    Fixed(") {\n"), Fixed("self.value"), Fixed(" |= obj"), Fixed(".value;\n"), Fixed("}\n"),
    Fixed("}\n")]

  /** The methods `add_methods` always writes. */
  const METHODS: seq<Piece> := CONTAINS + CONTAINS_ONE + IS_EMPTY + CLEAR + REMOVE + SET

  const BIT_OR: seq<Piece> := [
    Fixed("\nimpl std"), Fixed("::ops"), Fixed("::BitOr"), Fixed(" for "), Hole(NameHole),
    Fixed(" {\n"), Fixed("type"), Fixed(" Output ="), Fixed(" Self;\n"), Fixed("#[inline]\n"),
    Fixed("fn bitor("), Fixed("self,"), Fixed(" rhs:"), Fixed(" Self)"), Fixed(" -> Self"),
    Fixed("::Output {"), Fixed(" "), Hole(NameHole), Fixed(" {value:"), Fixed(" self"),
    Fixed(".value"), Fixed(" |"), Fixed(" rhs.value"), Fixed(" } }\n"), Fixed("}")]

  const BIT_OR_ASSIGN: seq<Piece> := [
    Fixed("\nimpl std"), Fixed("::ops"), Fixed("::BitOr"), Fixed("Assign"), Fixed(" for "),
    Hole(NameHole), Fixed(" {\n"), Fixed("#[inline]\n"), Fixed("fn"), Fixed(" bitor"),
    Fixed("_assign("), Fixed("&mut"), Fixed(" self,"), Fixed(" rhs:"), Fixed(" Self)"), Fixed(" { self"),
    Fixed(".value |="), Fixed(" rhs"), Fixed(".value; }\n"), Fixed("}")]

  const BIT_AND: seq<Piece> := [
    Fixed("\nimpl std"), Fixed("::ops"), Fixed("::BitAnd"), Fixed(" for "), Hole(NameHole),
    Fixed(" {\n"), Fixed("type"), Fixed(" Output ="), Fixed(" Self;\n"), Fixed("#[inline]\n"),
    Fixed("fn bitand("), Fixed("self,"), Fixed(" rhs:"), Fixed(" Self)"), Fixed(" -> Self"),
    Fixed("::Output {"), Fixed(" "), Hole(NameHole), Fixed(" {value:"), Fixed(" self"),
    Fixed(".value"), Fixed(" &"), Fixed(" rhs.value"), Fixed(" } }\n"), Fixed("}")]

  const BIT_AND_ASSIGN: seq<Piece> := [
    Fixed("\nimpl std"), Fixed("::ops"), Fixed("::BitAnd"), Fixed("Assign"), Fixed(" for "),
    Hole(NameHole), Fixed(" {\n"), Fixed("#[inline]\n"), Fixed("fn"), Fixed(" bitand"),
    Fixed("_assign("), Fixed("&mut"), Fixed(" self,"), Fixed(" rhs:"), Fixed(" Self)"), Fixed(" { self"),
    Fixed(".value &="), Fixed(" rhs"), Fixed(".value; }\n"), Fixed("}")]

  const PARTIAL_EQ: seq<Piece> := [
    Fixed("\nimpl std"), Fixed("::cmp"), Fixed("::PartialEq"), Fixed(" for "),
    Hole(NameHole), Fixed(" {\n"), Fixed("#[inline]\n"), Fixed("fn"), Fixed(" eq(&self,"),
    Fixed(" other:"), Fixed(" &Self)"), Fixed(" -> bool"), Fixed(" { self"), Fixed(".value =="),
    Fixed(" other"), Fixed(".value }\n"), Fixed("}")]

  const DEFAULT: seq<Piece> := [
    Fixed("\nimpl std"), Fixed("::default"), Fixed("::Default"), Fixed(" for "), Hole(NameHole),
    Fixed(" {\n"), Fixed("fn"), Fixed(" default()"), Fixed(" -> Self {"), Fixed(" "),
    Hole(NameHole), Fixed(" { value:"), Fixed(" 0 } }\n"), Fixed("}")]

  /** The `Display` impl up to the body of `fmt`. */
  const DISPLAY_HEAD: seq<Piece> := [
    Fixed("\nimpl std"), Fixed("::fmt"), Fixed("::Display"), Fixed(" for "), Hole(NameHole),
    Fixed(" {\n"), Fixed("fn fmt("), Fixed("&self,"), Fixed(" f: &mut"), Fixed(" std"),
    Fixed("::fmt::"), Fixed("Formatter<"), Fixed("'_>)"), Fixed(" -> std"), Fixed("::fmt"),
    Fixed("::Result {"), Fixed("\n")]

  /** The type name, then the empty-case name when no bit is set. */
  const DISPLAY_EMPTY: seq<Piece> := [
    Fixed("write!(f,"), Fixed(" \""), Hole(NameHole),
    Fixed(" (\")?;\n"), Fixed("if self"), Fixed(".value =="), Fixed(" 0 {\n"),
    Fixed("write!(f,\""), Hole(EmptyHole), Fixed(")\")?;\n"), Fixed("} else {\n"),
    Fixed("let mut"), Fixed(" first ="), Fixed(" true;\n")]

  /** Everything `add_operators` writes before the flag tests. */
  const OPERATORS: seq<Piece> :=
    BIT_OR + BIT_OR_ASSIGN + BIT_AND + BIT_AND_ASSIGN + PARTIAL_EQ + DEFAULT + DISPLAY_HEAD + DISPLAY_EMPTY
    + [Fixed("\n")]

  /** The Display test for one flag: its bits all set, written after a
      " | " unless it is the first. */
  function VariantCheck(value: U128, name: string, t: FlagsType): seq<Piece>
  {
    [Fixed("\t\tif (self"), Fixed(".value & "), Text(ValueLiteral(value, t)), Fixed(") == "),
     Text(ValueLiteral(value, t)), Fixed(" { if"), Fixed(" !first {"), Fixed(" write!("),
     Fixed("f,\" |"), Fixed(" \")?; }"), Fixed(" else {"), Fixed(" first ="), Fixed(" false; };"),
     Fixed(" write!(f,"), Fixed(" \""), Text(name), Fixed("\")?; }\n")]
  }

  function VariantChecks(variants: seq<(U128, string)>, t: FlagsType): seq<Piece>
  {
    if variants == [] then []
    else
      var last := variants[|variants| - 1];
      VariantChecks(variants[..|variants| - 1], t) + VariantCheck(last.0, last.1, t)
  }

  const DISPLAY_TAIL: seq<Piece> := [
    Fixed("\nwrite!("), Fixed("f,\")\")?;\n"), Fixed("}\n"), Fixed("Ok(())\n"), Fixed("}\n"),
    Fixed("}\n")]

  // ---------------------------------------------------------------------
  // The fixed text holds no placeholder

  lemma {:induction false} DigitStringNoDollar(radix: Radix, v: nat)
    ensures '$' !in DigitString(radix, v) && DigitString(radix, v)[0] != '('
    decreases v
  {
    var b := Base(radix);
    DigitCharsArePlain();
    if v >= b {
      var front := DigitString(radix, v / b);
      DigitStringNoDollar(radix, v / b);
      assert DigitString(radix, v) == front + [DIGIT_CHARS[v % b]];
      assert DigitString(radix, v)[0] == front[0];
    } else {
      assert DigitString(radix, v) == [DIGIT_CHARS[v]];
    }
  }

  lemma DigitCharsArePlain()
    ensures forall i :: 0 <= i < |DIGIT_CHARS| ==> DIGIT_CHARS[i] != '$' && DIGIT_CHARS[i] != '('
  {
  }

  // The lemmas from here to `TemplatesArePlain` make no claims of their
  // own: each restates, for one template, a piece of what
  // `TemplatesArePlain`, `MethodsArePlain` and `OperatorsArePlain` state,
  // so that no single proof has to unfold every long literal at once.

  /** Each fixed template holds no computed text; stated one template at a
      time, as each is a long literal. */
  lemma StructHeaderIsPlain()
    ensures AllPlain(STRUCT_HEADER)
  {
  }

  lemma EmptyConstantIsPlain()
    ensures AllPlain(EMPTY_CONSTANT)
    ensures HasHole(EMPTY_CONSTANT, EmptyHole)
  {
  }

  lemma ContainsIsPlain()
    ensures AllPlain(CONTAINS)
  {
  }

  lemma ContainsHasNoEmptyHole()
    ensures !HasHole(CONTAINS, EmptyHole)
  {
  }

  lemma ContainsOneIsPlain()
    ensures AllPlain(CONTAINS_ONE)
  {
  }

  lemma ContainsOneHasNoEmptyHole()
    ensures !HasHole(CONTAINS_ONE, EmptyHole)
  {
  }

  lemma IsEmptyIsPlain()
    ensures AllPlain(IS_EMPTY)
  {
  }

  lemma IsEmptyHasNoEmptyHole()
    ensures !HasHole(IS_EMPTY, EmptyHole)
  {
  }

  lemma ClearIsPlain()
    ensures AllPlain(CLEAR)
  {
  }

  lemma ClearHasNoEmptyHole()
    ensures !HasHole(CLEAR, EmptyHole)
  {
  }

  lemma RemoveIsPlain()
    ensures AllPlain(REMOVE)
  {
  }

  lemma RemoveHasNoEmptyHole()
    ensures !HasHole(REMOVE, EmptyHole)
  {
  }

  lemma SetIsPlain()
    ensures AllPlain(SET)
  {
  }

  lemma SetHasNoEmptyHole()
    ensures !HasHole(SET, EmptyHole)
  {
  }

  lemma BitOrIsPlain()
    ensures AllPlain(BIT_OR)
  {
  }

  lemma BitOrAssignIsPlain()
    ensures AllPlain(BIT_OR_ASSIGN)
  {
  }

  lemma BitAndIsPlain()
    ensures AllPlain(BIT_AND)
  {
  }

  lemma BitAndAssignIsPlain()
    ensures AllPlain(BIT_AND_ASSIGN)
  {
  }

  lemma PartialEqIsPlain()
    ensures AllPlain(PARTIAL_EQ)
  {
  }

  lemma DefaultIsPlain()
    ensures AllPlain(DEFAULT)
  {
  }

  lemma DisplayHeadIsPlain()
    ensures AllPlain(DISPLAY_HEAD)
  {
  }

  lemma DisplayEmptyIsPlain()
    ensures AllPlain(DISPLAY_EMPTY)
    ensures HasHole(DISPLAY_EMPTY, EmptyHole)
  {
  }

  lemma DisplayTailIsPlain()
    ensures AllPlain(DISPLAY_TAIL)
  {
  }

  lemma TemplatesArePlain()
    ensures AllPlain(STRUCT_HEADER) && AllPlain(EMPTY_CONSTANT) && AllPlain(METHODS)
    ensures AllPlain(OPERATORS) && AllPlain(DISPLAY_TAIL)
    ensures HasHole(EMPTY_CONSTANT, EmptyHole) && !HasHole(METHODS, EmptyHole)
    ensures HasHole(OPERATORS, EmptyHole)
  {
    StructHeaderIsPlain();
    EmptyConstantIsPlain();
    DisplayTailIsPlain();
    MethodsArePlain();
    OperatorsArePlain();
  }

  lemma MethodsArePlain()
    ensures AllPlain(METHODS)
    ensures !HasHole(METHODS, EmptyHole)
  {
    ContainsIsPlain();
    ContainsOneIsPlain();
    IsEmptyIsPlain();
    ClearIsPlain();
    RemoveIsPlain();
    SetIsPlain();
    ContainsHasNoEmptyHole();
    ContainsOneHasNoEmptyHole();
    IsEmptyHasNoEmptyHole();
    ClearHasNoEmptyHole();
    RemoveHasNoEmptyHole();
    SetHasNoEmptyHole();
  }

  lemma OperatorsArePlain()
    ensures AllPlain(OPERATORS)
    ensures HasHole(OPERATORS, EmptyHole)
  {
    BitOrIsPlain();
    BitOrAssignIsPlain();
    BitAndIsPlain();
    BitAndAssignIsPlain();
    PartialEqIsPlain();
    DefaultIsPlain();
    DisplayHeadIsPlain();
    DisplayEmptyIsPlain();
  }

  lemma ValueLiteralIsPlain(v: U128, t: FlagsType)
    ensures Plain(ValueLiteral(v, t))
  {
    DigitStringNoDollar(Dec, v);
    AsStrIsPlainIdentifier(t);
  }

  lemma ConstantHeaderIsPlain(flag: string)
    requires Plain(flag)
    ensures AllPlain(ConstantHeader(flag))
  {
  }

  lemma ConstantTailIsPlain(v: U128, t: FlagsType)
    requires Plain(ValueLiteral(v, t))
    ensures AllPlain(ConstantTail(v, t))
  {
  }

  lemma VariantCheckIsPlain(v: U128, name: string, t: FlagsType)
    requires Plain(ValueLiteral(v, t)) && Plain(name)
    ensures AllPlain(VariantCheck(v, name, t))
  {
  }

  lemma {:induction false} VariantChecksPlain(vs: seq<(U128, string)>, t: FlagsType)
    requires forall i :: 0 <= i < |vs| ==> Plain(vs[i].1)
    ensures AllPlain(VariantChecks(vs, t))
  {
    if vs != [] {
      var last := vs[|vs| - 1];
      VariantChecksPlain(vs[..|vs| - 1], t);
      ValueLiteralIsPlain(last.0, t);
      VariantCheckIsPlain(last.0, last.1, t);
      AllPlainAppend(VariantChecks(vs[..|vs| - 1], t), VariantCheck(last.0, last.1, t));
    }
  }
}

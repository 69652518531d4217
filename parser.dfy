/** The declaration parser and code generator (`src/parser.rs`): a
    seven-state token machine over the enum declaration that records every
    flag's name and value and appends the text of the generated struct,
    its constants, its methods and its operator impls, and finally
    substitutes the template placeholders. */
module Parsing {
  import opened Wrappers
  import opened Utils
  import opened Numbers
  import opened FlagsTypes
  import opened Tokens
  import opened Templates
  import opened Emitted
  import Args

  datatype ParserState =
    ExpectEnum | ExpectName | ExpectOpenBrace | ExpectFlag | ExpectEqual | ExpectValue | ExpectComma

  /** The attribute arguments, moved into the parser. */
  datatype Config = Config(
    flagsType: FlagsType,
    noneCase: string,
    disableEmptyGeneration: bool,
    hasEmptyValue: bool)

  /** The hash `map_names` keys a flag name by (`utils::hash` of its bytes). */
  function NameHash(s: string): U64
  {
    StringHash(AsBytes(s))
  }

  /** Every field of the parser; the output is kept as template pieces. */
  datatype Snapshot = Snapshot(
    output: seq<Piece>,
    name: string,
    state: ParserState,
    args: Config,
    lastFlag: string,
    visibility: string,
    lastFlagHash: U64,
    mapValues: map<U128, string>,
    mapNames: map<U64, U128>,
    hasEmptyValue: bool)

  /** `Parser::new`. */
  function Initial(args: Config): Snapshot
  {
    Snapshot([], "", ExpectEnum, args, "", "", 0, map[], map[], false)
  }

  // ---------------------------------------------------------------------
  // Width check

  /** The four width tests of `validate_expect_value`; a `u128` value
      always fits. */
  predicate ExceedsWidth(v: U128, t: FlagsType)
  {
    (v > 0xFF && t == U8) || (v > 0xFFFF && t == U16)
    || (v > 0xFFFF_FFFF && t == U32) || (v > 0xFFFF_FFFF_FFFF_FFFF && t == U64)
  }

  // ---------------------------------------------------------------------
  // The token machine as a function

  /** One transition; `None` stands for the panic that aborts the macro.
      An open brace parses the group's stream in place. */
  function Step(p: Snapshot, token: Token): Option<Snapshot>
    decreases token
  {
    match p.state
    case ExpectEnum =>
      if !token.Ident? then None
      else if token.text == "pub" then Some(p.(visibility := p.visibility + "pub"))
      else if token.text != "enum" then None
      else Some(p.(output := p.output + STRUCT_HEADER, state := ExpectName))
    case ExpectName =>
      if token.Ident? then Some(p.(name := token.text, state := ExpectOpenBrace)) else None
    case ExpectOpenBrace =>
      if token.Group? && token.delimiter == Brace then Run(p.(state := ExpectFlag), token.stream)
      else None
    case ExpectFlag => FlagStep(p, token)
    case ExpectEqual =>
      if token == Punct('=') then Some(p.(state := ExpectValue)) else None
    case ExpectValue => ValueStep(p, token)
    case ExpectComma =>
      if token == Punct(',') then Some(p.(state := ExpectFlag)) else None
  }

  /** A flag's name: an identifier whose hash is not taken yet; the
      constant's header goes out at once. */
  function FlagStep(p: Snapshot, token: Token): Option<Snapshot>
  {
    if !token.Ident? then None
    else if NameHash(token.text) in p.mapNames then None
    else Some(p.(lastFlag := token.text, lastFlagHash := NameHash(token.text),
                 output := p.output + ConstantHeader(token.text), state := ExpectEqual))
  }

  /** A flag's value: a literal that parses, fits the width, is not taken
      yet and, when zero, is allowed as the empty case. */
  function ValueStep(p: Snapshot, token: Token): Option<Snapshot>
  {
    if !token.Literal? then None
    else
      match ParseNumber(AsBytes(token.text))
      case None => None
      case Some(v) => Admit(p, v)
  }

  function Admit(p: Snapshot, v: U128): Option<Snapshot>
  {
    if ExceedsWidth(v, p.args.flagsType) || v in p.mapValues then None
    else if v == 0 && (p.args.disableEmptyGeneration || p.args.hasEmptyValue) then None
    else Some(Record(p, v))
  }

  /** The flag is recorded under its value and its name's hash; a zero
      flag becomes the empty case. */
  function Record(p: Snapshot, v: U128): Snapshot
  {
    p.(hasEmptyValue := p.hasEmptyValue || v == 0,
       args := if v == 0 then p.args.(noneCase := p.lastFlag) else p.args,
       mapValues := p.mapValues[v := p.lastFlag],
       mapNames := p.mapNames[p.lastFlagHash := v],
       output := p.output + ConstantTail(v, p.args.flagsType),
       state := ExpectComma)
  }

  /** `Parser::parse`: the machine over a token stream, stopping at the
      first failure. */
  function Run(p: Snapshot, input: seq<Token>): Option<Snapshot>
    decreases input
  {
    if input == [] then Some(p)
    else
      match Step(p, input[0])
      case None => None
      case Some(q) => Run(q, input[1..])
  }

  /** `add_methods`: the empty constant unless a zero flag exists or its
      generation is disabled, then the methods. */
  function WithMethods(p: Snapshot): Snapshot
  {
    p.(output := p.output
                 + (if !p.hasEmptyValue && !p.args.disableEmptyGeneration then EMPTY_CONSTANT else [])
                 + METHODS)
  }

  /** `add_operators`, given the order in which the value map yields its
      entries: the operator impls, then one Display test per flag, sorted
      by name. */
  function WithOperators(p: Snapshot, order: seq<(U128, string)>): Snapshot
  {
    p.(output := p.output + OPERATORS + VariantChecks(SortByName(order), p.args.flagsType) + DISPLAY_TAIL)
  }

  /** `replace_template_parameters` on a text. */
  function Expand(text: string, p: Snapshot): string
  {
    var named := Replace(text, Marker(NameHole), p.name);
    var emptied := Replace(named, Marker(EmptyHole), p.args.noneCase);
    var sized := Replace(emptied, Marker(BitsHole), AsStr(p.args.flagsType));
    Replace(sized, Marker(VisibilityHole), p.visibility)
  }

  // ---------------------------------------------------------------------
  // Ordering by name

  /** `String`'s ordering: lexicographic by character. */
  predicate NameLess(a: string, b: string)
    decreases |a|
  {
    |b| > 0 && (|a| == 0 || a[0] < b[0] || (a[0] == b[0] && NameLess(a[1..], b[1..])))
  }

  predicate NameAtMost(a: string, b: string)
  {
    a == b || NameLess(a, b)
  }

  function InsertByName(e: (U128, string), sorted: seq<(U128, string)>): seq<(U128, string)>
  {
    if sorted == [] || NameAtMost(e.1, sorted[0].1) then [e] + sorted
    else [sorted[0]] + InsertByName(e, sorted[1..])
  }

  /** `sort_by` on the flag names (stable). */
  function SortByName(s: seq<(U128, string)>): seq<(U128, string)>
  {
    if s == [] then [] else InsertByName(s[0], SortByName(s[1..]))
  }

  /** The sequence lists each entry of the map exactly once, as iterating
      a `HashMap` does, in some order. */
  predicate Enumerates(order: seq<(U128, string)>, m: map<U128, string>)
  {
    (forall i :: 0 <= i < |order| ==> order[i].0 in m && m[order[i].0] == order[i].1)
    && (forall v :: v in m ==> exists i :: 0 <= i < |order| && order[i].0 == v)
    && (forall i, j :: 0 <= i < j < |order| ==> order[i].0 != order[j].0)
  }

  // ---------------------------------------------------------------------
  // The parser object

  class Parser {
    var output: string
    ghost var pieces: seq<Piece>
    var name: string
    var state: ParserState
    var args: Config
    var lastFlag: string
    var visibility: string
    var lastFlagHash: U64
    var mapValues: map<U128, string>
    var mapNames: map<U64, U128>
    var hasEmptyValue: bool

    ghost function Current(): Snapshot
      reads this
    {
      Snapshot(pieces, name, state, args, lastFlag, visibility, lastFlagHash,
               mapValues, mapNames, hasEmptyValue)
    }

    /** The output string is the rendering of the pieces. */
    ghost predicate Valid()
      reads this
    {
      output == Render(pieces)
    }

    /** `Parser::new`: takes over the arguments, empty everything else. */
    constructor (arguments: Args.Arguments)
      ensures Valid()
      ensures Current() == Initial(Config(arguments.flagsType, arguments.noneCase,
                                          arguments.disableEmptyGeneration, arguments.hasEmptyValue))
    {
      output := "";
      pieces := [];
      name := "";
      visibility := "";
      state := ExpectEnum;
      args := Config(arguments.flagsType, arguments.noneCase,
                     arguments.disableEmptyGeneration, arguments.hasEmptyValue);
      lastFlag := "";
      lastFlagHash := 0;
      mapValues := map[];
      mapNames := map[];
      hasEmptyValue := false;
    }

    /** `push_str` of a piece of the template. */
    method Push(ps: seq<Piece>)
      requires Valid()
      modifies this`output, this`pieces
      ensures Valid() && pieces == old(pieces) + ps
    {
      RenderAppend(pieces, ps);
      output := output + Render(ps);
      pieces := pieces + ps;
    }

    method ValidateExpectEnum(token: Token) returns (ok: bool)
      requires Valid() && state == ExpectEnum
      modifies this
      ensures Valid()
      ensures Step(old(Current()), token) == if ok then Some(Current()) else None
    {
      if token.Ident? {
        var txt := token.text;
        if txt == "pub" {
          state := ExpectEnum;
          visibility := visibility + "pub";
          return true;
        }
        if txt != "enum" {
          return false;
        }
        Push(STRUCT_HEADER);
        state := ExpectName;
        return true;
      }
      return false;
    }

    method ValidateExpectEnumName(token: Token) returns (ok: bool)
      requires Valid() && state == ExpectName
      modifies this
      ensures Valid()
      ensures Step(old(Current()), token) == if ok then Some(Current()) else None
    {
      if token.Ident? {
        name := token.text;
        state := ExpectOpenBrace;
        return true;
      }
      return false;
    }

    method ValidateExpectOpenBrace(token: Token) returns (ok: bool)
      requires Valid() && state == ExpectOpenBrace
      modifies this
      ensures Valid()
      ensures Step(old(Current()), token) == if ok then Some(Current()) else None
      decreases token
    {
      if token.Group? {
        if token.delimiter != Brace {
          return false;
        }
        state := ExpectFlag;
        ok := Parse(token.stream);
        return;
      }
      return false;
    }

    method ValidateExpectFlag(token: Token) returns (ok: bool)
      requires Valid() && state == ExpectFlag
      modifies this
      ensures Valid()
      ensures FlagStep(old(Current()), token) == if ok then Some(Current()) else None
    {
      ok := false;
      if token.Ident? {
        ghost var p := Current();
        lastFlag := token.text;
        lastFlagHash := ComputeStringHash(AsBytes(lastFlag));
        if lastFlagHash !in mapNames {
          Push(ConstantHeader(lastFlag));
          state := ExpectEqual;

          ok := true;
        }
      }
    }

    method ValidateExpectEqual(token: Token) returns (ok: bool)
      requires Valid() && state == ExpectEqual
      modifies this
      ensures Valid()
      ensures Step(old(Current()), token) == if ok then Some(Current()) else None
    {
      if token.Punct? {
        if token.ch != '=' {
          return false;
        }
        state := ExpectValue;
        return true;
      }
      return false;
    }

    method ValidateExpectValue(token: Token) returns (ok: bool)
      requires Valid() && state == ExpectValue
      modifies this
      ensures Valid()
      ensures Step(old(Current()), token) == if ok then Some(Current()) else None
    {
      if token.Literal? {
        ghost var before := Current();
        var value := StringToNumber(token.text);
        if value.None? {
          return false;
        }
        var v := value.value;
        assert Step(before, token) == Admit(before, v);
        assert ExceedsWidth(v, args.flagsType) <==>
          (v > 0xFF && args.flagsType == U8) || (v > 0xFFFF && args.flagsType == U16)
          || (v > 0xFFFF_FFFF && args.flagsType == U32)
          || (v > 0xFFFF_FFFF_FFFF_FFFF && args.flagsType == U64);
        if v > 0xFF && args.flagsType == U8 {
          return false;
        }
        if v > 0xFFFF && args.flagsType == U16 {
          return false;
        }
        if v > 0xFFFF_FFFF && args.flagsType == U32 {
          return false;
        }
        if v > 0xFFFF_FFFF_FFFF_FFFF && args.flagsType == U64 {
          return false;
        }
        if v in mapValues {
          return false;
        }
        if v == 0 {
          if args.disableEmptyGeneration {
            return false;
          }
          if args.hasEmptyValue {
            return false;
          }
        }
        RecordFlag(v);
        return true;
      }
      return false;
    }

    /** The tail of `validate_expect_value` once every check has passed. */
    method RecordFlag(v: U128)
      requires Valid()
      modifies this
      ensures Valid()
      ensures Current() == Record(old(Current()), v)
    {
      if v == 0 {
        hasEmptyValue := true;
        args := args.(noneCase := lastFlag);
      }
      mapValues := mapValues[v := lastFlag];
      mapNames := mapNames[lastFlagHash := v];
      Push(ConstantTail(v, args.flagsType));
      state := ExpectComma;
    }

    method ValidateExpectComma(token: Token) returns (ok: bool)
      requires Valid() && state == ExpectComma
      modifies this
      ensures Valid()
      ensures Step(old(Current()), token) == if ok then Some(Current()) else None
    {
      if token.Punct? {
        if token.ch != ',' {
          return false;
        }
        state := ExpectFlag;
        return true;
      }
      return false;
    }

    /** `Parser::parse`: each token goes to the handler of the current
        state; a failing handler aborts. */
    method Parse(input: seq<Token>) returns (ok: bool)
      requires Valid()
      modifies this
      ensures Valid()
      ensures Run(old(Current()), input) == if ok then Some(Current()) else None
      decreases input
    {
      assert input[0..] == input;
      for i := 0 to |input|
        invariant Valid()
        invariant Run(old(Current()), input) == Run(Current(), input[i..])
      {
        var token := input[i];
        assert input[i..][0] == token && input[i..][1..] == input[i + 1..];
        var stepped: bool;
        match state {
          case ExpectEnum => stepped := ValidateExpectEnum(token);
          case ExpectName => stepped := ValidateExpectEnumName(token);
          case ExpectOpenBrace => stepped := ValidateExpectOpenBrace(token);
          case ExpectFlag => stepped := ValidateExpectFlag(token);
          case ExpectEqual => stepped := ValidateExpectEqual(token);
          case ExpectValue => stepped := ValidateExpectValue(token);
          case ExpectComma => stepped := ValidateExpectComma(token);
        }
        if !stepped {
          return false;
        }
      }
      return true;
    }

    /** `add_methods`. */
    method AddMethods()
      requires Valid()
      modifies this`output, this`pieces
      ensures Valid()
      ensures Current() == WithMethods(old(Current()))
    {
      ghost var p := Current();
      if !hasEmptyValue && !args.disableEmptyGeneration {
        Push(EMPTY_CONSTANT);
        assert pieces == p.output + EMPTY_CONSTANT;
      } else {
        assert pieces == p.output + [];
      }
      Push(METHODS);
    }

    /** `add_operators`; `order` is the order in which the value map
        yields its entries. */
    method AddOperators(order: seq<(U128, string)>)
      requires Valid() && Enumerates(order, mapValues)
      modifies this`output, this`pieces
      ensures Valid()
      ensures Current() == WithOperators(old(Current()), order)
    {
      ghost var p := Current();
      Push(OPERATORS);
      var variants := SortByName(order);
      PushVariantChecks(variants, args.flagsType);
      assert pieces == p.output + OPERATORS + VariantChecks(variants, p.args.flagsType);
      Push(DISPLAY_TAIL);
    }

    /** The loop of `add_operators` that writes one Display test per flag. */
    method PushVariantChecks(variants: seq<(U128, string)>, t: FlagsType)
      requires Valid()
      modifies this`output, this`pieces
      ensures Valid()
      ensures pieces == old(pieces) + VariantChecks(variants, t)
    {
      ghost var start := pieces;
      for i := 0 to |variants|
        invariant Valid()
        invariant pieces == start + VariantChecks(variants[..i], t)
      {
        Push(VariantCheck(variants[i].0, variants[i].1, t));
        VariantChecksSnoc(start, variants, i, t);
      }
      assert variants[..|variants|] == variants;
    }

    /** `replace_template_parameters`: the four placeholders, in order. */
    method ReplaceTemplateParameters()
      modifies this`output
      ensures output == Expand(old(output), Current())
    {
      output := Replace(output, Marker(NameHole), name);
      output := Replace(output, Marker(EmptyHole), args.noneCase);
      output := Replace(output, Marker(BitsHole), AsStr(args.flagsType));
      output := Replace(output, Marker(VisibilityHole), visibility);
    }
  }

  lemma VariantChecksSnoc(start: seq<Piece>, vs: seq<(U128, string)>, i: nat, t: FlagsType)
    requires i < |vs|
    ensures start + VariantChecks(vs[..i], t) + VariantCheck(vs[i].0, vs[i].1, t)
            == start + VariantChecks(vs[..i + 1], t)
  {
    assert vs[..i + 1][..i] == vs[..i];
  }

  // ---------------------------------------------------------------------
  // Width check against the number of bits

  lemma PowersOfTwo()
    ensures Pow(2, 8) == 0x100 && Pow(2, 16) == 0x1_0000 && Pow(2, 32) == 0x1_0000_0000
    ensures Pow(2, 64) == 0x1_0000_0000_0000_0000 && Pow(2, 128) == U128_MODULUS
  {
    assert Pow(2, 1) == 2;
    PowAdd(2, 1, 1);
    PowAdd(2, 2, 2);
    PowAdd(2, 4, 4);
    PowAdd(2, 8, 8);
    PowAdd(2, 16, 16);
    PowAdd(2, 32, 32);
    PowAdd(2, 64, 64);
  }

  /** A value is refused exactly when it needs more bits than the width
      stores. */
  lemma ExceedsWidthIffTooWide(v: U128, t: FlagsType)
    ensures ExceedsWidth(v, t) <==> v >= Pow(2, Bits(t))
  {
    PowersOfTwo();
  }

  // ---------------------------------------------------------------------
  // What the parser keeps true

  /** `map_names` is the inverse of `map_values` through the name hash. */
  predicate Indexed(values: map<U128, string>, names: map<U64, U128>, hash: string -> U64)
  {
    (forall v :: v in values ==> hash(values[v]) in names && names[hash(values[v])] == v)
    && (forall h :: h in names ==> names[h] in values && hash(values[names[h]]) == h)
  }

  predicate NamesIndexed(p: Snapshot)
  {
    Indexed(p.mapValues, p.mapNames, NameHash)
  }

  /** Recording a fresh value under a fresh name keeps the two maps each
      other's inverse, and each grows by one entry. */
  lemma IndexedInsert(values: map<U128, string>, names: map<U64, U128>, hash: string -> U64,
                      v: U128, name: string)
    requires Indexed(values, names, hash) && v !in values && hash(name) !in names
    ensures Indexed(values[v := name], names[hash(name) := v], hash)
    ensures |values[v := name]| == |values| + 1 && |names[hash(name) := v]| == |names| + 1
  {
    var values' := values[v := name];
    var names' := names[hash(name) := v];
    forall u | u in values'
      ensures hash(values'[u]) in names' && names'[hash(values'[u])] == u
    {
      if u != v {
        assert values'[u] == values[u];
        assert hash(values[u]) in names && hash(values[u]) != hash(name);
      }
    }
    forall h | h in names'
      ensures names'[h] in values' && hash(values'[names'[h]]) == h
    {
      if h != hash(name) {
        assert names'[h] == names[h] && names[h] in values && names[h] != v;
      }
    }
    assert v !in values.Keys && hash(name) !in names.Keys;
  }

  /** The state invariant of the parser: both maps index the same flags,
      every recorded value fits the width, the zero flag (if any) is the
      empty case, and every text that ends up in the output is plain. */
  ghost predicate Inv(p: Snapshot)
  {
    TextsPlain(p) && FlagsRecorded(p) && EmptyCaseKept(p) && PendingFlag(p)
  }

  /** Every text that ends up in the output is plain. */
  ghost predicate TextsPlain(p: Snapshot)
  {
    AllPlain(p.output) && Plain(p.name) && Plain(p.visibility) && Plain(p.args.noneCase)
    && Plain(p.lastFlag)
  }

  /** Both maps index the same flags, and every recorded value fits the
      width. */
  predicate FlagsRecorded(p: Snapshot)
  {
    NamesIndexed(p) && |p.mapValues| == |p.mapNames|
    && (forall v :: v in p.mapValues ==> Plain(p.mapValues[v]) && !ExceedsWidth(v, p.args.flagsType))
  }

  /** The zero flag, if any, is the empty case, and only when the
      arguments allow one. */
  predicate EmptyCaseKept(p: Snapshot)
  {
    (p.hasEmptyValue <==> 0 in p.mapValues)
    && (p.hasEmptyValue ==>
          p.args.noneCase == p.mapValues[0] && !p.args.disableEmptyGeneration && !p.args.hasEmptyValue)
  }

  /** Between a flag's name and its value, the name's hash is known and
      not yet taken. */
  predicate PendingFlag(p: Snapshot)
  {
    p.state == ExpectEqual || p.state == ExpectValue ==>
      p.lastFlagHash == NameHash(p.lastFlag) && p.lastFlagHash !in p.mapNames
  }

  /** What a run never undoes: the output only grows, the width and the
      empty-generation switch stay, and a recorded flag keeps its value. */
  predicate Extends(p: Snapshot, q: Snapshot)
  {
    |p.output| <= |q.output| && q.output[..|p.output|] == p.output
    && q.args.flagsType == p.args.flagsType
    && q.args.disableEmptyGeneration == p.args.disableEmptyGeneration
    && (forall v :: v in p.mapValues ==> v in q.mapValues && q.mapValues[v] == p.mapValues[v])
  }

  /** A fresh parser satisfies the invariant (so, by `RunKeepsInv`, does
      every parse that starts from one). */
  lemma InitialInv(args: Config)
    requires Plain(args.noneCase)
    ensures Inv(Initial(args))
  {
  }

  lemma IdentIsPlain(s: string)
    requires '$' !in s && '(' !in s
    ensures Plain(s)
  {
  }

  lemma RecordKeepsInv(p: Snapshot, v: U128)
    requires Inv(p) && p.state == ExpectValue && Admit(p, v).Some?
    ensures Inv(Record(p, v)) && Extends(p, Record(p, v))
  {
    RecordKeepsTexts(p, v);
    RecordKeepsFlags(p, v);
    RecordKeepsEmptyCase(p, v);
    RecordExtends(p, v);
  }

  lemma RecordKeepsTexts(p: Snapshot, v: U128)
    requires TextsPlain(p)
    ensures TextsPlain(Record(p, v))
  {
    ValueLiteralIsPlain(v, p.args.flagsType);
    ConstantTailIsPlain(v, p.args.flagsType);
    AllPlainAppend(p.output, ConstantTail(v, p.args.flagsType));
  }

  lemma RecordKeepsFlags(p: Snapshot, v: U128)
    requires FlagsRecorded(p) && PendingFlag(p) && p.state == ExpectValue && Plain(p.lastFlag)
    requires !ExceedsWidth(v, p.args.flagsType) && v !in p.mapValues
    ensures FlagsRecorded(Record(p, v))
  {
    IndexedInsert(p.mapValues, p.mapNames, NameHash, v, p.lastFlag);
  }

  lemma RecordKeepsEmptyCase(p: Snapshot, v: U128)
    requires EmptyCaseKept(p) && Admit(p, v).Some?
    ensures EmptyCaseKept(Record(p, v))
  {
  }

  lemma RecordExtends(p: Snapshot, v: U128)
    requires v !in p.mapValues
    ensures Extends(p, Record(p, v))
  {
    assert Record(p, v).output[..|p.output|] == p.output;
  }

  /** Every transition from an invariant state, on a well-lexed token, lands
      in an invariant state that extends it. */
  lemma {:induction false} StepKeepsInv(p: Snapshot, token: Token)
    requires Inv(p) && WellLexed(token) && Step(p, token).Some?
    ensures Inv(Step(p, token).value) && Extends(p, Step(p, token).value)
    decreases token
  {
    match p.state
    case ExpectEnum =>
      EnumStepKeepsInv(p, token);
    case ExpectName =>
      IdentIsPlain(token.text);
    case ExpectOpenBrace =>
      RunKeepsInv(p.(state := ExpectFlag), token.stream);
    case ExpectFlag =>
      FlagStepKeepsInv(p, token);
    case ExpectEqual =>
    case ExpectValue =>
      var v := ParseNumber(AsBytes(token.text)).value;
      RecordKeepsInv(p, v);
    case ExpectComma =>
  }

  lemma EnumStepKeepsInv(p: Snapshot, token: Token)
    requires Inv(p) && p.state == ExpectEnum && Step(p, token).Some?
    ensures Inv(Step(p, token).value) && Extends(p, Step(p, token).value)
  {
    if token.text != "pub" {
      StructHeaderIsPlain();
      AllPlainAppend(p.output, STRUCT_HEADER);
      assert Step(p, token).value.output[..|p.output|] == p.output;
    }
  }

  lemma FlagStepKeepsInv(p: Snapshot, token: Token)
    requires Inv(p) && p.state == ExpectFlag && WellLexed(token) && Step(p, token).Some?
    ensures Inv(Step(p, token).value) && Extends(p, Step(p, token).value)
  {
    IdentIsPlain(token.text);
    ConstantHeaderIsPlain(token.text);
    AllPlainAppend(p.output, ConstantHeader(token.text));
    assert Step(p, token).value.output[..|p.output|] == p.output;
  }

  lemma {:induction false} RunKeepsInv(p: Snapshot, input: seq<Token>)
    requires Inv(p) && (forall i :: 0 <= i < |input| ==> WellLexed(input[i]))
    requires Run(p, input).Some?
    ensures Inv(Run(p, input).value) && Extends(p, Run(p, input).value)
    decreases input
  {
    if input != [] {
      StepKeepsInv(p, input[0]);
      var q := Step(p, input[0]).value;
      RunKeepsInv(q, input[1..]);
      var r := Run(q, input[1..]).value;
      assert r.output[..|p.output|] == r.output[..|q.output|][..|p.output|];
    }
  }

  // ---------------------------------------------------------------------
  // Duplicates and the empty case

  /** Two recorded flags never have names equal up to ASCII case. */
  lemma NamesDistinctIgnoringCase(p: Snapshot, v: U128, w: U128)
    requires Inv(p) && v in p.mapValues && w in p.mapValues && v != w
    ensures LowerAll(AsBytes(p.mapValues[v])) != LowerAll(AsBytes(p.mapValues[w]))
  {
  }

  /** A flag whose name equals a recorded one up to ASCII case is refused. */
  lemma DuplicateNameRejected(p: Snapshot, flag: string, v: U128)
    requires Inv(p) && p.state == ExpectFlag && v in p.mapValues
    requires LowerAll(AsBytes(flag)) == LowerAll(AsBytes(p.mapValues[v]))
    ensures Step(p, Ident(flag)) == None
  {
    assert NameHash(flag) == NameHash(p.mapValues[v]);
  }

  /** A value is accepted exactly when it parses, fits the width, is not
      taken and, when zero, may be the empty case; a zero flag then becomes
      the empty case. */
  lemma ValueAcceptedIff(p: Snapshot, text: string)
    requires p.state == ExpectValue
    ensures Step(p, Literal(text)).Some? <==>
      ParseNumber(AsBytes(text)).Some?
      && var v := ParseNumber(AsBytes(text)).value;
         v < Pow(2, Bits(p.args.flagsType)) && v !in p.mapValues
         && (v == 0 ==> !p.args.disableEmptyGeneration && !p.args.hasEmptyValue)
    ensures Step(p, Literal(text)).Some? ==>
      var v := ParseNumber(AsBytes(text)).value;
      var q := Step(p, Literal(text)).value;
      q.mapValues == p.mapValues[v := p.lastFlag] && q.mapNames == p.mapNames[p.lastFlagHash := v]
      && (v == 0 ==> q.hasEmptyValue && q.args.noneCase == p.lastFlag)
  {
    if ParseNumber(AsBytes(text)).Some? {
      ExceedsWidthIffTooWide(ParseNumber(AsBytes(text)).value, p.args.flagsType);
    }
  }

  /** `add_methods` emits the empty constant exactly when no zero flag was
      declared and its generation is not disabled. */
  lemma EmptyConstantIff(p: Snapshot)
    ensures HasHole(WithMethods(p).output[|p.output|..], EmptyHole)
        <==> !p.hasEmptyValue && !p.args.disableEmptyGeneration
  {
    var added := WithMethods(p).output[|p.output|..];
    TemplatesArePlain();
    if !p.hasEmptyValue && !p.args.disableEmptyGeneration {
      assert added == EMPTY_CONSTANT + METHODS;
    } else {
      assert added == METHODS;
    }
  }


  // ---------------------------------------------------------------------
  // Ordering of the Display tests

  predicate SortedByName(s: seq<(U128, string)>)
  {
    forall i :: 0 <= i < |s| - 1 ==> NameAtMost(s[i].1, s[i + 1].1)
  }

  lemma {:induction false} NameOrderTotal(a: string, b: string)
    ensures NameAtMost(a, b) || NameAtMost(b, a)
    decreases |a|
  {
    if a != b && |a| > 0 && |b| > 0 && a[0] == b[0] {
      NameOrderTotal(a[1..], b[1..]);
    }
  }

  lemma {:induction false} InsertByNameFacts(e: (U128, string), s: seq<(U128, string)>)
    requires SortedByName(s)
    ensures SortedByName(InsertByName(e, s))
    ensures multiset(InsertByName(e, s)) == multiset(s) + multiset{e}
    ensures |InsertByName(e, s)| > 0
    ensures InsertByName(e, s)[0] == e || (s != [] && InsertByName(e, s)[0] == s[0])
  {
    if s != [] && !NameAtMost(e.1, s[0].1) {
      InsertByNameFacts(e, s[1..]);
      NameOrderTotal(e.1, s[0].1);
      assert s == [s[0]] + s[1..];
      var r := InsertByName(e, s[1..]);
      assert InsertByName(e, s) == [s[0]] + r;
      forall i | 0 <= i < |r|
        ensures NameAtMost(([s[0]] + r)[i].1, ([s[0]] + r)[i + 1].1)
      {
        if i > 0 {
          assert ([s[0]] + r)[i] == r[i - 1];
        }
      }
    }
  }

  /** The sort yields the entries in ascending name order, as a
      permutation of its input. */
  lemma {:induction false} SortByNameFacts(s: seq<(U128, string)>)
    ensures SortedByName(SortByName(s))
    ensures multiset(SortByName(s)) == multiset(s)
  {
    if s != [] {
      SortByNameFacts(s[1..]);
      InsertByNameFacts(s[0], SortByName(s[1..]));
      assert s == [s[0]] + s[1..];
    }
  }

  /** An enumeration of a map has exactly as many entries as the map. */
  lemma {:induction false} EnumeratesSize(order: seq<(U128, string)>, m: map<U128, string>)
    requires Enumerates(order, m)
    ensures |order| == |m|
    decreases |order|
  {
    if order == [] {
      assert m.Keys == {};
    } else {
      var k := order[0].0;
      EnumeratesTail(order, m);
      EnumeratesSize(order[1..], m - {k});
      assert m.Keys == (m - {k}).Keys + {k};
    }
  }

  /** Dropping the first entry of an enumeration enumerates the map
      without that entry's key. */
  lemma EnumeratesTail(order: seq<(U128, string)>, m: map<U128, string>)
    requires Enumerates(order, m) && order != []
    ensures Enumerates(order[1..], m - {order[0].0})
  {
    var k := order[0].0;
    var rest := order[1..];
    var m' := m - {k};
    forall v | v in m'
      ensures exists i :: 0 <= i < |rest| && rest[i].0 == v
    {
      var i :| 0 <= i < |order| && order[i].0 == v;
      assert rest[i - 1].0 == v;
    }
    forall i | 0 <= i < |rest|
      ensures rest[i].0 in m' && m'[rest[i].0] == rest[i].1
    {
      assert order[i + 1] == rest[i];
    }
  }

  /** `add_operators` writes one Display test per flag of the value map,
      and no other, in ascending name order. */
  lemma DisplayTestsFollowNames(p: Snapshot, order: seq<(U128, string)>)
    requires Enumerates(order, p.mapValues)
    ensures SortedByName(SortByName(order))
    ensures forall e :: e in SortByName(order) <==> e.0 in p.mapValues && p.mapValues[e.0] == e.1
    ensures |SortByName(order)| == |p.mapValues|
  {
    SortByNameFacts(order);
    EnumeratesSize(order, p.mapValues);
    assert |SortByName(order)| == |multiset(SortByName(order))| == |multiset(order)|;
    forall e
      ensures e in SortByName(order) <==> e.0 in p.mapValues && p.mapValues[e.0] == e.1
    {
      assert e in SortByName(order) <==> e in multiset(SortByName(order));
      assert e in order <==> e in multiset(order);
      if e.0 in p.mapValues && p.mapValues[e.0] == e.1 {
        var i :| 0 <= i < |order| && order[i].0 == e.0;
        assert order[i] == e;
      }
    }
  }

  // ---------------------------------------------------------------------
  // No placeholder survives the substitution

  /** After `add_methods`, `add_operators` and the substitution, the text
      holds no placeholder: every piece that was a placeholder is replaced
      by plain text, and plain text cannot form a new one. */
  lemma GeneratedCodeHasNoPlaceholder(p: Snapshot, order: seq<(U128, string)>)
    requires Inv(p) && Enumerates(order, p.mapValues)
    ensures forall h :: !Contains(Expand(Render(WithOperators(WithMethods(p), order).output), p), Marker(h))
  {
    assert TextsPlain(p) && FlagsRecorded(p);
    GeneratedCodeIsPlain(p, order);
    ExpandLeavesNoMarker(WithOperators(WithMethods(p), order).output, p);
  }

  /** Everything the parser writes, from an invariant state, is plain. */
  lemma GeneratedCodeIsPlain(p: Snapshot, order: seq<(U128, string)>)
    requires TextsPlain(p) && FlagsRecorded(p) && Enumerates(order, p.mapValues)
    ensures AllPlain(WithOperators(WithMethods(p), order).output)
  {
    var vs := SortByName(order);
    var t := p.args.flagsType;
    TemplatesArePlain();
    DisplayTestsFollowNames(p, order);
    forall i | 0 <= i < |vs|
      ensures Plain(vs[i].1)
    {
      assert vs[i] in vs;
    }
    VariantChecksPlain(vs, t);
    var empty := if !p.hasEmptyValue && !p.args.disableEmptyGeneration then EMPTY_CONSTANT else [];
    AllPlainAppend(p.output, empty);
    AllPlainAppend(p.output + empty, METHODS);
    AllPlainAppend(p.output + empty + METHODS, OPERATORS);
    AllPlainAppend(p.output + empty + METHODS + OPERATORS, VariantChecks(vs, t));
    AllPlainAppend(p.output + empty + METHODS + OPERATORS + VariantChecks(vs, t), DISPLAY_TAIL);
  }

  /** Substituting plain text for the four placeholders, in order, leaves
      none behind and forms no new one. */
  lemma ExpandLeavesNoMarker(ps: seq<Piece>, p: Snapshot)
    requires AllPlain(ps) && Plain(p.name) && Plain(p.args.noneCase) && Plain(p.visibility)
    ensures forall h :: !Contains(Expand(Render(ps), p), Marker(h))
  {
    AsStrIsPlainIdentifier(p.args.flagsType);
    var ps1 := Subst(ps, NameHole, p.name);
    var ps2 := Subst(ps1, EmptyHole, p.args.noneCase);
    var ps3 := Subst(ps2, BitsHole, AsStr(p.args.flagsType));
    var ps4 := Subst(ps3, VisibilityHole, p.visibility);
    ReplaceRender(ps, NameHole, p.name);
    SubstFacts(ps, NameHole, p.name);
    ReplaceRender(ps1, EmptyHole, p.args.noneCase);
    SubstFacts(ps1, EmptyHole, p.args.noneCase);
    ReplaceRender(ps2, BitsHole, AsStr(p.args.flagsType));
    SubstFacts(ps2, BitsHole, AsStr(p.args.flagsType));
    ReplaceRender(ps3, VisibilityHole, p.visibility);
    SubstFacts(ps3, VisibilityHole, p.visibility);
    forall h
      ensures !HasHole(ps4, h)
    {
    }
    RenderNoDollar(ps4);
    forall h
      ensures !Contains(Render(ps4), Marker(h))
    {
      NoDollarNoMarker(Render(ps4), h);
    }
  }


  // ---------------------------------------------------------------------
  // The constant literals

  /** As written, the value 10 of a `u32` flag is emitted as "0x10u32",
      which Rust (and the literal parser) reads as 16. */
  lemma DecimalLiteralMisread()
    ensures ValueLiteral(10, U32) == "0x10u32"
    ensures ParseNumber(AsBytes(ValueLiteral(10, U32))) == Some(16)
  {
    TenPrintsAsTen();
    HexTenParsesAsSixteen();
  }

  lemma TenPrintsAsTen()
    ensures ValueLiteral(10, U32) == "0x10u32"
  {
    assert DigitString(Dec, 10) == DigitString(Dec, 1) + ['0'];
  }

  lemma HexTenParsesAsSixteen()
    ensures ParseNumber(AsBytes("0x10u32")) == Some(16)
  {
    var digits := AsBytes("10");
    assert AsBytes("0x10u32") == Prefix(Hex) + digits + ['u' as Byte] + AsBytes("32");
    assert digits[1..][1..] == [];
    assert DigitsValue(Hex, digits) == Horner(Hex, 16, []);
    ParseNumberLiteral(Hex, digits, 'u' as Byte, AsBytes("32"));
  }

  /** The evidently intended literal: the value in hexadecimal after the
      "0x" prefix. */
  function HexValueLiteral(v: U128, t: FlagsType): string
  {
    "0x" + DigitString(Hex, v) + AsStr(t)
  }

  /** The hexadecimal literal reads back as the value, for every value and
      every width. */
  lemma HexValueLiteralRoundTrip(v: U128, t: FlagsType)
    ensures ParseNumber(AsBytes(HexValueLiteral(v, t))) == Some(v)
  {
    var digits := AsBytes(DigitString(Hex, v));
    DigitStringValue(Hex, v);
    AsStrIsLiteralSuffix(t);
    var width := AsBytes(AsStr(t)[1..]);
    AsBytesAppend("0x", DigitString(Hex, v));
    AsBytesAppend("0x" + DigitString(Hex, v), AsStr(t));
    AsBytesAppend("u", AsStr(t)[1..]);
    assert AsStr(t) == "u" + AsStr(t)[1..];
    assert AsBytes(HexValueLiteral(v, t)) == Prefix(Hex) + digits + ['u' as Byte] + width;
    ParseNumberLiteral(Hex, digits, 'u' as Byte, width);
  }
}

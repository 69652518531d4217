# EnumBitFlags in Dafny

EnumBitFlags is a Rust attribute macro. It turns a declaration such as

    #[EnumBitFlags(bits = 8, empty = None)]
    enum Test { V1 = 1, V2 = 2, V3 = 128 }

into a struct `Test { value: u8 }` with one constant per flag, the methods
`contains`, `contains_one`, `is_empty`, `clear`, `remove` and `set`, and the
impls `BitOr`, `BitOrAssign`, `BitAnd`, `BitAndAssign`, `PartialEq`,
`Default` and `Display`. This project models the generator's core and
proves properties of it:

- `utils.dfy` (module `Utils`) covers these helpers:
  - the case-folding table;
  - the FNV-1a name hash, `compute_string_hash`, a loop proved against a hash function;
  - the identifier check;
  - the width-suffix check;
  - the four digit classifiers.
- `numbers.dfy` (module `Numbers`) models the integer-literal parser `text_to_number` / `string_to_number`:
  - a loop over the bytes, with release-mode wrapping `u128` arithmetic and the "smaller than before" overflow guard;
  - a reference definition, the value of the digits by Horner's rule;
  - decimal and hexadecimal printing.
- `flags_type.dfy` (module `FlagsTypes`) models the storage widths and their Rust names.
- `tokens.dfy` (module `Tokens`) holds the token trees the macro receives.
- `arguments.dfy` (module `Args`) models the attribute-argument parser: a class whose four handlers move a four-state machine, proved against a transition function.
- `templates.dfy` (module `Templates`) models the generated text and `replace_template_parameters`:
  - the text is kept as pieces: computed text, fixed template text, or one of the four placeholders;
  - `str::replace` is modelled exactly, and substituting into the rendered string is proved the same as substituting the placeholder pieces.
- `emitted.dfy` (module `Emitted`) holds the text the generator writes, one template at a time.
- `parser.dfy` (module `Parsing`) models the declaration parser:
  - a class whose seven handlers are proved against a transition function `Step`;
  - `add_methods`, `add_operators` and the placeholder substitution;
  - the invariant the parse keeps: the two maps index the same flags, every value fits the width, and the zero flag is the empty case;
  - the theorem that no placeholder survives in the generated code.
- `generated.dfy` (module `Generated`) models what the generated code computes when it runs: the methods, the operators and `Display`, on the struct's value. The bitwise operators are defined bit by bit on naturals, and their laws are proved by induction.

Panics of the macro (a compile error for the user) are the `None` outcome
of a step. `HashMap` iteration order is a parameter `order` that lists the
value map's entries once each in some order (`Parsing.Enumerates`).
`map_names` is keyed by the name hash `Parsing.NameHash`.

Where the code and the crate's own tests disagree, the model follows the code:
- The tests pass `bits`, `empty`, `disable_empty_generation` and `debug` as arguments (tests/test_macro.rs:4, :11, :26, :33). `arguments.rs` never interprets a key or a value, so none of them takes effect. The width stays `u32` and the empty case stays `None`.
- The assignment check of `validate_expect_equal` rejects every character, so any argument list with an assignment fails (see Findings).
- The parser reads two flags of the arguments, `disable_empty_generation` and `has_empty_value`, that `arguments.rs` does not declare. They are modelled as fields that start out false.
- Values are emitted as `0x` followed by their decimal digits (see Findings).

## Model

| member | source | states |
|---|---|---|
| Utils.LowerCaseTableMapsAsciiLetters | src/utils.rs:3-17 | the table maps 'A'..'Z' to 'a'..'z' and every other byte to itself |
| Utils.LowerAllIdempotent | src/utils.rs:3-17 | folding a byte string twice is folding it once |
| Utils.ComputeStringHash | src/utils.rs:19-33 | the loop returns 0 for an empty buffer, otherwise the 64-bit FNV-1a hash (offset basis 0xcbf29ce484222325, prime 0x100000001B3, xor then wrapping multiply) of the case-folded bytes |
| Utils.StringHashIgnoresCase | src/utils.rs:19-33 | a name and its lower-case form always have the same hash |
| Utils.StringHashCollidesOnCase | src/utils.rs:19-33 | "AB" and "ab" have the same hash, so they count as the same variant |
| Utils.ValidateEnumVariantName | src/utils.rs:34-56 | true exactly for a non-empty name of ASCII letters, digits and '_' that does not start with a digit |
| Utils.ValidateSuffix | src/utils.rs:62-79 | true exactly for the suffixes "8", "16", "32", "64" and "128" |
| Utils.ClassifyDigitChar | src/utils.rs:82-160 | each classifier returns the value of every digit of its base; the hexadecimal one also accepts 'A'..'F' |
| Utils.ClassifyOutcomes | src/utils.rs:82-160 | each classifier answers a digit of its base, the suffix marker exactly for 'u' and 'i', or the unknown marker; a digit answer comes only from that digit's character |
| Numbers.TextToNumber | src/utils.rs:162-186 | the loop returns what the scan `Scan` gives from position 0 with accumulator 0 |
| Numbers.StringToNumber | src/utils.rs:187-207 | the method returns `ParseNumber` of the literal's bytes: empty fails, `0x`/`0o`/`0b` select bases 16/8/2, otherwise decimal |
| Numbers.ScanDigits | src/utils.rs:166-184 | while the exact running value stays below 2^128 the overflow guard never fires and the accumulator equals the Horner value |
| Numbers.TextToNumberExact | src/utils.rs:162-186 | a digit run whose value is below 2^128 parses to that value |
| Numbers.TextToNumberWithSuffix | src/utils.rs:171-176 | digits, then 'u' or 'i', then a width: the digits' value if the width is valid, failure otherwise |
| Numbers.TextToNumberRejectsUnknown | src/utils.rs:167-170 | a character that is neither a digit nor a suffix marker makes the parse fail |
| Numbers.ParseNumberDispatch | src/utils.rs:192-204 | `0x`, `0o` and `0b` hand the rest to the base-16, base-8 and base-2 scan |
| Numbers.ParseNumberEmpty | src/utils.rs:189-191 | empty text is not a number |
| Numbers.ParseNumberDecimal | src/utils.rs:206 | text without a base prefix is scanned in base 10 |
| Numbers.ParseNumberLiteral | src/utils.rs:187-207 | every well-formed literal parses to the value of its digits, in each base, with or without a width suffix |
| Numbers.DigitStringValue | src/parser.rs:165-166 | the printed digits of a number are digits of the base and parse back to that number |
| Numbers.OverflowGuardMisses | src/utils.rs:177-181 | `0x` followed by 33 'F's exceeds 2^128 yet is accepted as 2^128 - 1 |
| Numbers.ScanCheckedExact | src/utils.rs:177-181 | with an exact overflow test, a digit run parses to its value when that fits in 128 bits and fails otherwise |
| FlagsTypes.AsStrNamesWidth | src/flags_type.rs:12-20 | each width's name is 'u' followed by its number of bits in decimal |
| FlagsTypes.AsStrInjective | src/flags_type.rs:12-20 | distinct widths have distinct names |
| FlagsTypes.AsStrIsLiteralSuffix | src/flags_type.rs:12-20 | each name is a 'u' marker followed by a suffix the literal parser accepts |
| FlagsTypes.OneWithWidthParses | src/flags_type.rs:12-20 | "1" followed by a width name parses to 1 |
| FlagsTypes.AsStrIsPlainIdentifier | src/flags_type.rs:12-20 | each name is an identifier with no '$' |
| Args.Arguments.constructor | src/arguments.rs:26-34 | width `u32`, empty case "None", state ExpectKey, empty key and value |
| Args.Arguments.ValidateExpectKey | src/arguments.rs:35-42 | succeeds exactly on an identifier, stores it as the key and expects an assignment; a failure changes nothing |
| Args.Arguments.ValidateExpectEqual | src/arguments.rs:43-52 | fails on every token, '=' and ':' included |
| Args.Arguments.ValidateExpectValue | src/arguments.rs:53-60 | succeeds exactly on an identifier, stores it as the value and expects a comma |
| Args.Arguments.ValidateExpectComma | src/arguments.rs:61-70 | succeeds exactly on ',' and then expects a key; nothing else changes |
| Args.Arguments.Parse | src/arguments.rs:71-80 | the fields end as the transition function run over the stream gives them, and the parse fails exactly when that run fails |
| Args.EqualNeverAccepted | src/arguments.rs:43-52 | no token is accepted where an assignment sign is expected |
| Args.RunFromStart | src/arguments.rs:71-80 | from the start, exactly the empty stream and a single identifier are accepted |
| Args.AssignmentsRejected | src/arguments.rs:45 | every non-empty list `k = v, ...` is rejected |
| Args.IntendedRunAcceptsAssignments | src/arguments.rs:45 | with the guard `c != '=' && c != ':'`, every such list is accepted and ends holding the last key and value |
| Templates.ReplaceSkips | src/parser.rs:321-332 | `str::replace` copies unchanged a prefix in which the pattern starts nowhere |
| Templates.PlainHostsNoMarker | src/parser.rs:321-332 | no placeholder starts inside text without '$' |
| Templates.MarkerHostsNoOtherMarker | src/parser.rs:321-332 | no placeholder starts inside a different placeholder that is followed by safe text |
| Templates.ReplaceRender | src/parser.rs:321-332 | replacing a placeholder's marker in the rendered text equals rendering after substituting the placeholder pieces |
| Templates.SubstFacts | src/parser.rs:321-332 | substituting plain text removes that placeholder, keeps the text plain and creates no other placeholder |
| Templates.RenderNoDollar | src/parser.rs:321-332 | plain pieces without placeholders render to text with no '$' |
| Templates.NoDollarNoMarker | src/parser.rs:321-332 | text without '$' contains no marker |
| Emitted.TemplatesArePlain | src/parser.rs:196-320 | all fixed templates are plain; the empty constant and the Display impl name the empty case, the methods text does not |
| Emitted.MethodsArePlain | src/parser.rs:205-228 | the methods text is plain and does not name the empty case |
| Emitted.OperatorsArePlain | src/parser.rs:230-294 | the operator impls up to the flag tests are plain, and name the empty case (in the zero-value branch of `Display`) |
| Emitted.DigitStringNoDollar | src/parser.rs:165-166 | printed digits hold no '$' and do not start with '(' |
| Emitted.ValueLiteralIsPlain | src/parser.rs:165-166 | the emitted value literal is plain |
| Emitted.ConstantHeaderIsPlain | src/parser.rs:103-105 | a constant's header is plain when the flag name is |
| Emitted.ConstantTailIsPlain | src/parser.rs:165-167 | a constant's value and closing text are plain |
| Emitted.VariantCheckIsPlain | src/parser.rs:299-309 | one flag's Display test is plain when its name is |
| Emitted.VariantChecksPlain | src/parser.rs:298-310 | all Display tests are plain when all names are |
| Parsing.Parser.constructor | src/parser.rs:32-45 | the parser starts in ExpectEnum with the given arguments, empty text, name, visibility and maps, and no empty value |
| Parsing.Parser.ValidateExpectEnum | src/parser.rs:46-70 | "pub" is added to the visibility; "enum" writes the struct header and expects the name; anything else fails |
| Parsing.Parser.ValidateExpectEnumName | src/parser.rs:71-78 | an identifier becomes the type name; anything else fails |
| Parsing.Parser.ValidateExpectOpenBrace | src/parser.rs:79-95 | a brace group's stream is parsed in place from ExpectFlag; any other token fails |
| Parsing.Parser.ValidateExpectFlag | src/parser.rs:96-110 | an identifier whose hash is not taken is recorded as the pending flag and its constant's header is written; anything else fails |
| Parsing.Parser.ValidateExpectEqual | src/parser.rs:111-123 | succeeds exactly on '=' |
| Parsing.Parser.ValidateExpectValue | src/parser.rs:124-172 | a literal that parses, fits the width, is not taken and, when zero, is allowed as the empty case is recorded; anything else fails |
| Parsing.Parser.RecordFlag | src/parser.rs:150-168 | records the flag under its value and its name's hash, makes a zero flag the empty case, and writes the constant's value |
| Parsing.Parser.ValidateExpectComma | src/parser.rs:173-182 | succeeds exactly on ',' and then expects a flag |
| Parsing.Parser.Parse | src/parser.rs:183-195 | the parser ends as the transition function run over the stream gives it, and fails exactly when that run fails |
| Parsing.Parser.AddMethods | src/parser.rs:196-229 | writes the empty constant unless a zero flag exists or its generation is disabled, then the methods |
| Parsing.Parser.AddOperators | src/parser.rs:230-320 | writes the operator impls, then one Display test per flag sorted by name, then the tail |
| Parsing.Parser.PushVariantChecks | src/parser.rs:298-310 | the loop writes the Display tests of the flags in the given order |
| Parsing.Parser.ReplaceTemplateParameters | src/parser.rs:321-332 | the output becomes the result of replacing the four placeholders, in order |
| Parsing.ExceedsWidthIffTooWide | src/parser.rs:131-142 | a value is refused exactly when it needs more bits than the width stores |
| Parsing.IndexedInsert | src/parser.rs:163-164 | recording a fresh value under a fresh name hash keeps the two maps each other's inverse, each growing by one |
| Parsing.InitialInv | src/parser.rs:32-45 | a fresh parser satisfies the invariant |
| Parsing.RecordKeepsInv | src/parser.rs:150-168 | recording an admitted value keeps the invariant and loses nothing recorded |
| Parsing.StepKeepsInv | src/parser.rs:183-195 | every successful transition keeps the invariant and loses nothing recorded, for every token the compiler can produce (no identifier holds '$' or '(') |
| Parsing.RunKeepsInv | src/parser.rs:183-195 | so does every successful parse of any stream the compiler can produce |
| Parsing.NamesDistinctIgnoringCase | src/parser.rs:96-102 | no two recorded flags have names equal up to ASCII case |
| Parsing.DuplicateNameRejected | src/parser.rs:99-102 | a flag whose name equals a recorded one up to ASCII case is refused |
| Parsing.ValueAcceptedIff | src/parser.rs:124-172 | a value is accepted exactly when it parses, fits, is new, and is not a forbidden or second zero; an accepted zero flag becomes the empty case |
| Parsing.EmptyConstantIff | src/parser.rs:198-204 | the empty constant is written exactly when no zero flag exists and its generation is not disabled |
| Parsing.EnumeratesSize | src/parser.rs:296 | a list that enumerates the value map has exactly as many entries as the map |
| Parsing.SortByNameFacts | src/parser.rs:296-297 | the sort yields ascending names and is a permutation of its input |
| Parsing.DisplayTestsFollowNames | src/parser.rs:296-310 | the Display tests are in ascending name order, hold exactly the entries of the value map, and are as many as the map has entries, so each appears once |
| Parsing.GeneratedCodeIsPlain | src/parser.rs:196-320 | everything written from an invariant state is plain |
| Parsing.ExpandLeavesNoMarker | src/parser.rs:321-332 | substituting plain text for the four placeholders leaves none and forms none |
| Parsing.GeneratedCodeHasNoPlaceholder | src/parser.rs:321-332 | the final generated code of an invariant state contains no placeholder |
| Parsing.DecimalLiteralMisread | src/parser.rs:165-166 | the value 10 is emitted as "0x10u32", which reads back as 16 |
| Parsing.HexValueLiteralRoundTrip | src/parser.rs:165-166 | a hexadecimal literal reads back as the value, for every value and width |
| Generated.SubtractCommonBits | src/parser.rs:220 | subtracting the common bits from a value clears exactly the bits of the other operand |
| Generated.Contains | src/parser.rs:207-209 | true exactly when `obj` is non-zero and `self \| obj == self` |
| Generated.ContainsOne | src/parser.rs:210-212 | true exactly when removing `obj` changes `self` |
| Generated.IsEmpty | src/parser.rs:213-215 | true exactly for the default value |
| Generated.Remove | src/parser.rs:219-221 | the result holds exactly the bits of `self` that are not bits of `obj`, without underflow |
| Generated.BitOr | src/parser.rs:233-237 | the result is at least either operand (also the value after `set` and `\|=`) |
| Generated.BitAnd | src/parser.rs:250-254 | the result is at most either operand (also the value after `&=`) |
| Generated.Eq | src/parser.rs:268-271 | equal exactly when the structs are equal |
| Generated.Default | src/parser.rs:277-279 | no flag is set in the default value (also the value after `clear`) |
| Generated.OperationsKeepWidth | src/parser.rs:219-261 | `\|`, `&` and `remove` keep a value within the storage width |
| Generated.OperatorsCommute | src/parser.rs:233-254 | `\|` and `&` are commutative |
| Generated.BitOrIsUnion | src/parser.rs:233-237 | `a \| b` contains both operands, and whatever contains both contains it |
| Generated.BitAndIsIntersection | src/parser.rs:250-254 | `a & b` is contained in both operands, and contains whatever both contain |
| Generated.SetThenContains | src/parser.rs:222-224 | after `set(obj)` the value contains `obj`, and removing `obj` gives what removing it from the old value gives |
| Generated.SetRemoveRoundTrip | src/parser.rs:219-224 | removing a contained flag and setting it again restores the value, and setting an absent flag and removing it again does too |
| Generated.RemoveLeavesNoBitOf | src/parser.rs:219-221 | after `remove(obj)` no bit of `obj` is left, and flags disjoint from `obj` are kept |
| Generated.ContainsAndContainsOne | src/parser.rs:207-212 | `contains` implies `contains_one`, and the two agree on single-bit flags |
| Generated.ClearIsEmpty | src/parser.rs:213-218 | the cleared or default value is empty, and a value is empty exactly when no flag is set in it |
| Generated.TestBitOr | tests/test_macro.rs:64-71 | the expectations of `test_bit_or` |
| Generated.TestRemoveMethod | tests/test_macro.rs:137-158 | the first removals of `test_remove_method` |
| Generated.TestContainsAndCompare | tests/test_macro.rs:168-186 | the expectations of `test_contains` and `test_cmp_opes` |
| Generated.WriteTestsJoins | src/parser.rs:298-313 | the written tests show the passing flags' names separated by " \| " |
| Generated.ZeroFlagAlwaysShown | src/parser.rs:299-304 | as written, a zero-valued flag passes its test for every value |
| Generated.EmptyFlagDisplayedWithOthers | tests/test_macro.rs:18-24 | as written, `Test3::V1` displays as "Test3 (Nothing \| V1)" |
| Generated.ShownIffContains | src/parser.rs:299-304 | corrected, a flag is shown exactly when `contains` reports it |
| Generated.EmptyFlagNotDisplayedWithOthers | tests/test_macro.rs:18-24 | corrected, `Test3::V1` displays as "Test3 (V1)" |
| Generated.DisplayMatchesTestSuite | tests/test_macro.rs:188-194 | with the declared values 1, 2 and 128, `V1 \| V2` displays as "Test (V1 \| V2)" and the default as "Test (None)" |

## Left out

- `src/lib.rs`, `Parser::stream` and the compiler's token trees are not modelled beyond their contents. The two token streams are parameters, and the output is the generated text.
- The text of panic messages is not modelled: a panic is the `None` outcome of a step.
- Whitespace, tabs and line breaks of the templates are abridged. Every placeholder and every computed piece is kept exactly.
- `HashMap` hashing and iteration order are not modelled: the order is a parameter listing the map's entries once each.
- Non-ASCII text: the parser accepts any identifier the compiler produces, including non-ASCII and raw (`r#type`) ones, and the invariant lemmas ask of them only that they hold no '$' or '(' (`Tokens.WellLexed`). But `AsBytes` keeps a character's code modulo 256, which matches `as_bytes` only on ASCII, so the name hash of a non-ASCII name is not modelled exactly.
- Overflow panics of debug builds are not modelled: the literal parser uses the release-mode wrapping arithmetic.
- Keys and values of the attribute arguments are not interpreted, because the code does not interpret them.
- The methods `get_value`, `new` and `from_value` that the tests call are not generated by this code.
- `pub(crate)` visibility groups are not modelled: `ValidateExpectEnum` accepts only `pub` and `enum` identifiers, as the code does.
- Generated.Remove, Generated.BitOr, Generated.BitAnd and Generated.Default: the `&mut self` methods (`remove`, `set`, `clear`, `|=`, `&=`) are modelled as functions that return the new value of `self`.
- Generated: a flag's value is whatever number the struct holds. The lemmas about the crate's tests (`TestBitOr`, `TestRemoveMethod`, `TestContainsAndCompare`, `DisplayMatchesTestSuite`) take the declared values, which is what the corrected hexadecimal literal emits. As written, `V3 = 128` under `u8` would be emitted as `0x128u8` (296), which does not fit the width. The expectations hold either way, because 296 shares no bit with 1, 2 or 3.
- Parsing.RunKeepsInv: the invariant is proved for every run from an invariant state, and `InitialInv` gives it for a fresh parser. The two are not composed into one lemma about `Run(Initial(args), ...)`.

## Findings

| source | as written | input that shows it | evidently intended | confidence | as-written member | corrected member |
|---|---|---|---|---|---|---|
| src/utils.rs:177-181 | the overflow guard only checks that the wrapped accumulator did not decrease | `0x` followed by 33 'F' digits is accepted as 2^128 - 1 | fail when `result * base + digit` exceeds 128 bits | high, not executed | Numbers.OverflowGuardMisses | Numbers.ScanCheckedExact |
| src/parser.rs:165-166 | `format!("0x{}", value)` prints the value in decimal after a hexadecimal prefix | value 10 of a `u32` flag is emitted as `0x10u32`, which is 16 | print the value in hexadecimal (`{:x}`) | high, not executed | Parsing.DecimalLiteralMisread | Parsing.HexValueLiteralRoundTrip |
| src/arguments.rs:45 | `c != '=' \|\| c != ':'` holds for every character | `bits = 8` panics at '=' | `c != '=' && c != ':'` | high, not executed | Args.AssignmentsRejected | Args.IntendedRunAcceptsAssignments |
| src/parser.rs:299-304 | the Display test of a zero-valued flag always passes | `Test3::V1` displays as "Test3 (Nothing \| V1)" | show a flag only when `contains` reports it | medium, not executed | Generated.EmptyFlagDisplayedWithOthers | Generated.ShownIffContains |

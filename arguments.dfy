/** The attribute-argument parser (`src/arguments.rs`): a four-state token
    machine that records the last key and value it saw. It never interprets
    them, so the width and the empty-case name keep their defaults. */
module Args {
  import opened Wrappers
  import opened Tokens
  import opened FlagsTypes

  datatype ArgState = ExpectKey | ExpectEqual | ExpectValue | ExpectComma

  /** The fields the token machine moves. */
  datatype Position = Position(state: ArgState, key: string, value: string)

  const START := Position(ExpectKey, "", "")

  /** One transition of the machine as written; `None` stands for the
      panic that aborts the macro. The assignment check tests
      `c != '=' || c != ':'`, which holds for every character. */
  function Step(p: Position, token: Token): Option<Position>
  {
    match p.state
    case ExpectKey =>
      if token.Ident? then Some(Position(ExpectEqual, token.text, p.value)) else None
    case ExpectEqual =>
      if token.Punct? then
        if token.ch != '=' || token.ch != ':' then None else Some(p.(state := ExpectValue))
      else None
    case ExpectValue =>
      if token.Ident? then Some(Position(ExpectComma, p.key, token.text)) else None
    case ExpectComma =>
      if token.Punct? then
        if token.ch != ',' then None else Some(p.(state := ExpectKey))
      else None
  }

  /** The machine over a token stream, stopping at the first failure. */
  function Run(p: Position, tokens: seq<Token>): Option<Position>
    decreases |tokens|
  {
    if tokens == [] then Some(p)
    else
      match Step(p, tokens[0])
      case None => None
      case Some(q) => Run(q, tokens[1..])
  }

  class Arguments {
    var flagsType: FlagsType
    var noneCase: string
    var disableEmptyGeneration: bool
    var hasEmptyValue: bool
    var state: ArgState
    var key: string
    var value: string

    function Current(): Position
      reads this
    {
      Position(state, key, value)
    }

    /** `Arguments::new`. The two flags are read by the declaration parser;
        they start out false. */
    constructor ()
      ensures flagsType == U32 && noneCase == "None"
      ensures !disableEmptyGeneration && !hasEmptyValue
      ensures Current() == START
    {
      flagsType := U32;
      noneCase := "None";
      disableEmptyGeneration := false;
      hasEmptyValue := false;
      state := ExpectKey;
      key := "";
      value := "";
    }

    /** Only an identifier is a key; it is stored and an assignment sign is
        expected next. */
    method ValidateExpectKey(token: Token) returns (ok: bool)
      requires state == ExpectKey
      modifies this`key, this`state
      ensures ok <==> token.Ident?
      ensures ok ==> key == token.text && state == ExpectEqual
      ensures !ok ==> Current() == old(Current())
      ensures Step(old(Current()), token) == if ok then Some(Current()) else None
    {
      if token.Ident? {
        key := token.text;
        state := ExpectEqual;
        return true;
      }
      return false;
    }

    /** Every token fails here: a non-punctuation token by kind, and every
        punctuation character, '=' and ':' included, by the guard. */
    method ValidateExpectEqual(token: Token) returns (ok: bool)
      requires state == ExpectEqual
      ensures !ok
      ensures Step(old(Current()), token) == None
    {
      if token.Punct? {
        if token.ch != '=' || token.ch != ':' {
          return false;
        }
        // The state change to ExpectValue that follows is unreachable.
        assert false;
      }
      return false;
    }

    /** Only an identifier is a value, so a numeric literal such as `8`
        fails. */
    method ValidateExpectValue(token: Token) returns (ok: bool)
      requires state == ExpectValue
      modifies this`value, this`state
      ensures ok <==> token.Ident?
      ensures ok ==> value == token.text && state == ExpectComma
      ensures !ok ==> Current() == old(Current())
      ensures Step(old(Current()), token) == if ok then Some(Current()) else None
    {
      if token.Ident? {
        value := token.text;
        state := ExpectComma;
        return true;
      }
      return false;
    }

    /** Only ',' separates two assignments; it leads back to a key. */
    method ValidateExpectComma(token: Token) returns (ok: bool)
      requires state == ExpectComma
      modifies this`state
      ensures ok <==> token == Punct(',')
      ensures ok ==> state == ExpectKey
      ensures Current() == (if ok then old(Current()).(state := ExpectKey) else old(Current()))
      ensures Step(old(Current()), token) == if ok then Some(Current()) else None
    {
      if token.Punct? {
        if token.ch != ',' {
          return false;
        }
        state := ExpectKey;
        return true;
      }
      return false;
    }

    /** `Arguments::parse`: the machine over the whole stream, stopping at
        the first failure. The width, the empty-case name and the two flags
        are never touched. */
    method Parse(input: seq<Token>) returns (ok: bool)
      modifies this`state, this`key, this`value
      ensures Run(old(Current()), input) == if ok then Some(Current()) else None
    {
      assert input[0..] == input;
      for i := 0 to |input|
        invariant Run(old(Current()), input) == Run(Current(), input[i..])
      {
        var token := input[i];
        assert input[i..][0] == token && input[i..][1..] == input[i + 1..];
        var stepped: bool;
        match state {
          case ExpectKey => stepped := ValidateExpectKey(token);
          case ExpectEqual => stepped := ValidateExpectEqual(token);
          case ExpectValue => stepped := ValidateExpectValue(token);
          case ExpectComma => stepped := ValidateExpectComma(token);
        }
        if !stepped {
          return false;
        }
      }
      return true;
    }
  }

  // ---------------------------------------------------------------------
  // What the machine accepts

  /** An assignment sign is never accepted. */
  lemma EqualNeverAccepted(p: Position, token: Token)
    requires p.state == ExpectEqual
    ensures Step(p, token) == None
  {
  }

  /** Hence from the start the parser accepts exactly the empty stream and
      a single identifier: any argument list with an assignment fails. */
  lemma {:induction false} RunFromStart(tokens: seq<Token>)
    ensures Run(START, tokens).Some? <==> tokens == [] || (|tokens| == 1 && tokens[0].Ident?)
  {
    if tokens != [] && tokens[0].Ident? {
      var p := Position(ExpectEqual, tokens[0].text, "");
      assert Step(START, tokens[0]) == Some(p);
      if |tokens| > 1 {
        EqualNeverAccepted(p, tokens[1]);
        assert tokens[1..][0] == tokens[1];
      } else {
        assert tokens[1..] == [];
      }
    }
  }

  // ---------------------------------------------------------------------
  // The assignment check as evidently intended

  /** The tokens of `k1 = v1, k2 = v2, ...`. */
  function AssignmentTokens(pairs: seq<(string, string)>): seq<Token>
  {
    if pairs == [] then []
    else
      [Ident(pairs[0].0), Punct('='), Ident(pairs[0].1)]
      + (if |pairs| > 1 then [Punct(',')] + AssignmentTokens(pairs[1..]) else [])
  }

  /** The transition with the guard `c != '=' && c != ':'`. */
  function IntendedStep(p: Position, token: Token): Option<Position>
  {
    if p.state == ExpectEqual then
      if token.Punct? && (token.ch == '=' || token.ch == ':') then Some(p.(state := ExpectValue)) else None
    else Step(p, token)
  }

  function IntendedRun(p: Position, tokens: seq<Token>): Option<Position>
    decreases |tokens|
  {
    if tokens == [] then Some(p)
    else
      match IntendedStep(p, tokens[0])
      case None => None
      case Some(q) => IntendedRun(q, tokens[1..])
  }

  lemma {:induction false} IntendedRunAppend(p: Position, a: seq<Token>, b: seq<Token>)
    ensures IntendedRun(p, a + b)
         == if IntendedRun(p, a).Some? then IntendedRun(IntendedRun(p, a).value, b) else None
    decreases |a|
  {
    if a == [] {
      assert a + b == b;
    } else {
      assert (a + b)[0] == a[0] && (a + b)[1..] == a[1..] + b;
      var s := IntendedStep(p, a[0]);
      if s.Some? {
        IntendedRunAppend(s.value, a[1..], b);
      }
    }
  }

  /** With the intended guard every non-empty list of identifier
      assignments is accepted, ending after the last value with the last
      key and value recorded. */
  lemma {:induction false} IntendedRunAcceptsAssignments(p: Position, pairs: seq<(string, string)>)
    requires p.state == ExpectKey && pairs != []
    ensures IntendedRun(p, AssignmentTokens(pairs))
         == Some(Position(ExpectComma, pairs[|pairs| - 1].0, pairs[|pairs| - 1].1))
    decreases |pairs|
  {
    var head := [Ident(pairs[0].0), Punct('='), Ident(pairs[0].1)];
    var q := Position(ExpectComma, pairs[0].0, pairs[0].1);
    assert IntendedRun(p, head) == Some(q) by {
      var p1 := Position(ExpectEqual, pairs[0].0, p.value);
      var p2 := p1.(state := ExpectValue);
      assert head[1..] == [Punct('='), Ident(pairs[0].1)];
      assert head[1..][1..] == [Ident(pairs[0].1)];
      assert head[1..][1..][1..] == [];
      assert IntendedRun(q, []) == Some(q);
      assert IntendedRun(p2, [Ident(pairs[0].1)]) == Some(q);
      assert IntendedRun(p1, head[1..]) == Some(q);
    }
    if |pairs| == 1 {
      assert AssignmentTokens(pairs) == head + [];
      IntendedRunAppend(p, head, []);
    } else {
      var rest := AssignmentTokens(pairs[1..]);
      assert AssignmentTokens(pairs) == head + ([Punct(',')] + rest);
      IntendedRunAppend(p, head, [Punct(',')] + rest);
      assert ([Punct(',')] + rest)[1..] == rest;
      IntendedRunAcceptsAssignments(q.(state := ExpectKey), pairs[1..]);
    }
  }

  /** As written, the same lists are all rejected. */
  lemma AssignmentsRejected(pairs: seq<(string, string)>)
    requires pairs != []
    ensures Run(START, AssignmentTokens(pairs)) == None
  {
    var t := AssignmentTokens(pairs);
    assert t[0] == Ident(pairs[0].0) && |t| > 1;
    RunFromStart(t);
  }
}

/** The generated text and its placeholders (`$$(NAME)$$`, `$$(EMPTY)$$`,
    `$$(BITS)$$`, `$$(VISIBILITY)$$`), and the text substitution
    `replace_template_parameters` performs with `str::replace`
    (`src/parser.rs`). The text is tracked as a list of pieces, plain text
    or placeholder, whose concatenation is the output string. */
module Templates {

  datatype Placeholder = NameHole | EmptyHole | BitsHole | VisibilityHole

  function Marker(h: Placeholder): string
  {
    match h
    case NameHole => "$$(NAME)$$"
    case EmptyHole => "$$(EMPTY)$$"
    case BitsHole => "$$(BITS)$$"
    case VisibilityHole => "$$(VISIBILITY)$$"
  }

  /** A character of the generator's fixed template text, which never
      holds a '$' outside a placeholder. */
  type TemplateChar = c: char | c != '$' witness ' '

  /** Fixed template text: no '$', and it does not open with '(', so it
      cannot complete a placeholder that precedes it. */
  type FixedText = s: seq<TemplateChar> | |s| == 0 || s[0] != '(' witness []

  /** Text computed at run time (names, literals), fixed template text, or
      a placeholder. */
  datatype Piece = Text(text: string) | Fixed(fixed: FixedText) | Hole(hole: Placeholder)

  function PieceText(p: Piece): string
  {
    match p
    case Text(t) => t
    case Fixed(t) => t
    case Hole(h) => Marker(h)
  }

  function Render(ps: seq<Piece>): string
  {
    if ps == [] then "" else PieceText(ps[0]) + Render(ps[1..])
  }

  lemma {:induction false} RenderAppend(a: seq<Piece>, b: seq<Piece>)
    ensures Render(a + b) == Render(a) + Render(b)
  {
    if a == [] {
      assert a + b == b;
    } else {
      assert (a + b)[0] == a[0] && (a + b)[1..] == a[1..] + b;
      RenderAppend(a[1..], b);
      calc {
        Render(a + b);
        PieceText(a[0]) + Render(a[1..] + b);
        PieceText(a[0]) + (Render(a[1..]) + Render(b));
        (PieceText(a[0]) + Render(a[1..])) + Render(b);
      }
    }
  }

  /** Text that can stand next to a placeholder without forming another
      one: it holds no '$' and does not open with '('. Identifiers, the
      width names and the fixed template text all have this shape. */
  predicate Plain(s: string)
  {
    '$' !in s && (|s| > 0 ==> s[0] != '(')
  }

  ghost predicate AllPlain(ps: seq<Piece>)
  {
    forall t :: Text(t) in ps ==> Plain(t)
  }

  lemma AllPlainAppend(a: seq<Piece>, b: seq<Piece>)
    requires AllPlain(a) && AllPlain(b)
    ensures AllPlain(a + b)
  {
  }

  predicate HasHole(ps: seq<Piece>, h: Placeholder)
  {
    Hole(h) in ps
  }

  /** `str::replace`: every non-overlapping occurrence of `pat`, scanning
      from the left, is replaced by `rep`. */
  function Replace(s: string, pat: string, rep: string): string
    requires |pat| > 0
    decreases |s|
  {
    if |s| < |pat| then s
    else if s[..|pat|] == pat then rep + Replace(s[|pat|..], pat, rep)
    else [s[0]] + Replace(s[1..], pat, rep)
  }

  /** Every placeholder replaced by a text. */
  function Subst(ps: seq<Piece>, h: Placeholder, rep: string): (r: seq<Piece>)
    ensures |r| == |ps|
  {
    if ps == [] then []
    else [if ps[0] == Hole(h) then Text(rep) else ps[0]] + Subst(ps[1..], h, rep)
  }

  predicate OccursAt(s: string, pat: string, i: nat)
  {
    i + |pat| <= |s| && s[i..i + |pat|] == pat
  }

  predicate Contains(s: string, pat: string)
  {
    exists i :: 0 <= i <= |s| && OccursAt(s, pat, i)
  }

  // ---------------------------------------------------------------------
  // Replacing over a concatenation

  lemma OccursShift(x: string, b: string, pat: string, i: nat)
    requires |x| > 0
    ensures OccursAt(x + b, pat, i + 1) <==> OccursAt(x[1..] + b, pat, i)
  {
    var s := x + b;
    assert s[1..] == x[1..] + b;
    if i + 1 + |pat| <= |s| {
      assert s[i + 1..i + 1 + |pat|] == s[1..][i..i + |pat|];
    }
  }

  /** A prefix in which the pattern starts nowhere is copied unchanged. */
  lemma {:induction false} ReplaceSkips(x: string, b: string, pat: string, rep: string)
    requires |pat| > 0
    requires forall i: nat :: i < |x| ==> !OccursAt(x + b, pat, i)
    ensures Replace(x + b, pat, rep) == x + Replace(b, pat, rep)
    decreases |x|
  {
    if x == [] {
      assert x + b == b;
    } else {
      var s := x + b;
      assert s[1..] == x[1..] + b;
      forall i: nat | i < |x[1..]|
        ensures !OccursAt(x[1..] + b, pat, i)
      {
        OccursShift(x, b, pat, i);
      }
      ReplaceSkips(x[1..], b, pat, rep);
      if |s| < |pat| {
        assert |b| < |pat|;
        assert Replace(s, pat, rep) == s;
        assert Replace(b, pat, rep) == b;
      } else {
        assert !OccursAt(s, pat, 0);
        assert s[0..|pat|] == s[..|pat|];
        assert Replace(s, pat, rep) == [s[0]] + Replace(s[1..], pat, rep);
      }
    }
  }

  /** A plain text never hosts the start of a placeholder. */
  lemma PlainHostsNoMarker(x: string, b: string, h: Placeholder)
    requires '$' !in x
    ensures forall i: nat :: i < |x| ==> !OccursAt(x + b, Marker(h), i)
  {
    forall i: nat | i < |x|
      ensures !OccursAt(x + b, Marker(h), i)
    {
      if i + |Marker(h)| <= |x + b| {
        assert (x + b)[i..i + |Marker(h)|][0] == x[i];
      }
    }
  }

  /** What can follow a placeholder: nothing, text that does not open
      with '(' or '$', or another placeholder. */
  predicate SafeAfterMarker(b: string)
  {
    |b| == 0 || (b[0] != '(' && (b[0] == '$' ==> |b| >= 3 && b[..3] == "$$("))
  }

  lemma MarkerShape(h: Placeholder)
    ensures |Marker(h)| >= 10
    ensures Marker(h)[0] == '$' && Marker(h)[1] == '$' && Marker(h)[2] == '('
    ensures Marker(h)[|Marker(h)| - 2] == '$' && Marker(h)[|Marker(h)| - 1] == '$'
    ensures forall k :: 2 <= k < |Marker(h)| - 2 ==> Marker(h)[k] != '$'
  {
  }

  lemma MarkersDifferEarly(q: Placeholder, h: Placeholder)
    requires q != h
    ensures Marker(q)[3] != Marker(h)[3]
  {
  }

  /** Inside a different placeholder, followed by safe text, a placeholder
      starts nowhere: the markers differ at their fourth character, the
      interior holds no '$', and the closing "$$" is not followed by '('. */
  lemma MarkerHostsNoOtherMarker(q: Placeholder, h: Placeholder, b: string)
    requires q != h && SafeAfterMarker(b)
    ensures forall i: nat :: i < |Marker(q)| ==> !OccursAt(Marker(q) + b, Marker(h), i)
  {
    var Q, P := Marker(q), Marker(h);
    MarkerShape(q);
    MarkerShape(h);
    MarkersDifferEarly(q, h);
    forall i: nat | i < |Q|
      ensures !OccursAt(Q + b, P, i)
    {
      NoMarkerStartsInside(Q, P, b, i);
    }
  }

  /** The case analysis of `MarkerHostsNoOtherMarker` on the two markers'
      shapes alone. */
  lemma NoMarkerStartsInside(Q: string, P: string, b: string, i: nat)
    requires |Q| >= 10 && |P| >= 10 && i < |Q|
    requires Q[2] == '(' && Q[|Q| - 2] == '$' && Q[|Q| - 1] == '$'
    requires P[0] == '$' && P[1] == '$' && P[2] == '('
    requires forall k :: 2 <= k < |Q| - 2 ==> Q[k] != '$'
    requires Q[3] != P[3] && SafeAfterMarker(b)
    ensures !OccursAt(Q + b, P, i)
  {
    if i + |P| <= |Q + b| {
      var w := (Q + b)[i..i + |P|];
      if i == 0 {
        assert w[3] == Q[3];
      } else if i == 1 {
        assert w[1] == Q[2];
      } else if i < |Q| - 2 {
        assert w[0] == Q[i];
      } else if i == |Q| - 2 {
        assert w[2] == b[0];
      } else if b[0] != '$' {
        assert w[1] == b[0];
      } else {
        assert b[..3] == "$$(";
        assert w[2] == b[1] == '$';
      }
    }
  }

  lemma {:induction false} RenderSafeAfterMarker(ps: seq<Piece>)
    requires AllPlain(ps)
    ensures SafeAfterMarker(Render(ps))
  {
    if ps != [] {
      var r, rest := Render(ps), Render(ps[1..]);
      assert r == PieceText(ps[0]) + rest;
      match ps[0]
      case Hole(h) =>
        MarkerShape(h);
        assert r[..3] == Marker(h)[..3];
        assert Marker(h)[..3] == "$$(";
      case Text(t) =>
        assert Text(t) in ps;
        if t == "" {
          assert r == rest;
          TailAllPlain(ps);
          RenderSafeAfterMarker(ps[1..]);
        } else {
          assert r[0] == t[0] && t[0] in t;
        }
      case Fixed(t) =>
        if t == [] {
          assert r == rest;
          TailAllPlain(ps);
          RenderSafeAfterMarker(ps[1..]);
        } else {
          assert r[0] == t[0];
        }
    }
  }

  lemma TailAllPlain(ps: seq<Piece>)
    requires ps != [] && AllPlain(ps)
    ensures AllPlain(ps[1..])
  {
    forall t | Text(t) in ps[1..]
      ensures Plain(t)
    {
      assert Text(t) in ps;
    }
  }

  /** Replacing the marker of `h` in the rendered text is the same as
      replacing the placeholder piece, provided every text piece is plain. */
  lemma {:induction false} ReplaceRender(ps: seq<Piece>, h: Placeholder, rep: string)
    requires AllPlain(ps)
    ensures Replace(Render(ps), Marker(h), rep) == Render(Subst(ps, h, rep))
  {
    var P := Marker(h);
    if ps == [] {
      assert Render(ps) == "";
    } else {
      var rest := Render(ps[1..]);
      ReplaceRender(ps[1..], h, rep);
      match ps[0]
      case Text(t) =>
        PlainHostsNoMarker(t, rest, h);
        ReplaceSkips(t, rest, P, rep);
      case Fixed(t) =>
        PlainHostsNoMarker(t, rest, h);
        ReplaceSkips(t, rest, P, rep);
      case Hole(q) =>
        if q == h {
          assert (P + rest)[..|P|] == P;
          assert (P + rest)[|P|..] == rest;
        } else {
          RenderSafeAfterMarker(ps[1..]);
          MarkerHostsNoOtherMarker(q, h, rest);
          ReplaceSkips(Marker(q), rest, P, rep);
        }
    }
  }

  /** Substituting plain text keeps every text piece plain, removes the
      placeholder and keeps the others. */
  lemma {:induction false} SubstFacts(ps: seq<Piece>, h: Placeholder, rep: string)
    requires AllPlain(ps) && Plain(rep)
    ensures AllPlain(Subst(ps, h, rep))
    ensures !HasHole(Subst(ps, h, rep), h)
    ensures forall q :: q != h && HasHole(Subst(ps, h, rep), q) ==> HasHole(ps, q)
  {
    if ps != [] {
      SubstFacts(ps[1..], h, rep);
      var r := Subst(ps, h, rep);
      var head := if ps[0] == Hole(h) then Text(rep) else ps[0];
      assert ps == [ps[0]] + ps[1..];
      assert r == [head] + Subst(ps[1..], h, rep);
      forall t | Text(t) in r
        ensures Plain(t)
      {
        if Text(t) != head {
          assert Text(t) in Subst(ps[1..], h, rep);
        } else if ps[0] != Hole(h) {
          assert Text(t) in ps;
        }
      }
      forall q | q != h && HasHole(r, q)
        ensures HasHole(ps, q)
      {
        if Hole(q) != head {
          assert HasHole(Subst(ps[1..], h, rep), q);
          assert Hole(q) in ps[1..];
        }
      }
    }
  }


  /** Text rendered from plain pieces and no placeholder holds no '$'. */
  lemma {:induction false} RenderNoDollar(ps: seq<Piece>)
    requires AllPlain(ps)
    requires forall h :: !HasHole(ps, h)
    ensures '$' !in Render(ps)
  {
    if ps != [] {
      assert ps == [ps[0]] + ps[1..];
      assert !ps[0].Hole? by {
        if ps[0].Hole? {
          assert HasHole(ps, ps[0].hole);
        }
      }
      forall t | Text(t) in ps[1..]
        ensures Plain(t)
      {
        assert Text(t) in ps;
      }
      forall h
        ensures !HasHole(ps[1..], h)
      {
        assert !HasHole(ps, h);
      }
      RenderNoDollar(ps[1..]);
    }
  }


  /** Without a '$' no marker can occur. */
  lemma NoDollarNoMarker(s: string, h: Placeholder)
    requires '$' !in s
    ensures !Contains(s, Marker(h))
  {
    forall i | 0 <= i <= |s|
      ensures !OccursAt(s, Marker(h), i)
    {
      if i + |Marker(h)| <= |s| {
        assert s[i..i + |Marker(h)|][0] == s[i];
      }
    }
  }
}

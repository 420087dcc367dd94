/** The part of Python's `re` that the host patterns of the `redirects`
    command use: literal characters, `\` escapes of punctuation, `.`, the
    anchors `^` and `$`, and the repetitions `?` and `*` on a single
    character. `Matches` is `re.match` (anchored at the start of the text,
    free at its end). */
module Regex {
  import opened Basics

  /** The characters one pattern position accepts. */
  datatype CharSet = Exactly(c: char) | AnyButNewline

  /** One element of a compiled pattern. */
  datatype Piece =
    | One(cs: CharSet)        // `c`, `\c` or `.`
    | Optional(cs: CharSet)   // followed by `?`
    | Many(cs: CharSet)       // followed by `*`
    | AtStart                 // `^`
    | AtEnd                   // `$`

  type Pattern = seq<Piece>

  predicate Accepts(cs: CharSet, c: char) {
    match cs
    case Exactly(d) => c == d
    case AnyButNewline => c != '\n'
  }

  predicate IsAsciiAlnum(c: char) {
    'a' <= c <= 'z' || 'A' <= c <= 'Z' || '0' <= c <= '9'
  }

  /** Characters with a meaning in `re` that the subset does not cover (or a
      repetition with nothing before it). */
  predicate IsUnsupported(c: char) {
    c in "+{}[]()|?*"
  }

  predicate NoEscapeOrRepeat(t: string) {
    forall k :: 0 <= k < |t| ==> t[k] != '\\' && t[k] != '?' && t[k] != '*'
  }

  /** The pattern element at the start of `t` and how many characters it uses. */
  function CompileAtom(t: string): (r: Option<(Piece, nat)>)
    requires t != []
    ensures r.Some? ==> 1 <= r.value.1 <= |t|
  {
    var c := t[0];
    if c == '\\' then
      if |t| >= 2 && !IsAsciiAlnum(t[1]) then Some((One(Exactly(t[1])), 2)) else None
    else if c == '.' then Some((One(AnyButNewline), 1))
    else if c == '^' then Some((AtStart, 1))
    else if c == '$' then Some((AtEnd, 1))
    else if IsUnsupported(c) then None
    else Some((One(Exactly(c)), 1))
  }

  /** `re.compile` on the subset; `None` for a pattern outside it. Every
      element uses at least one character of the text, and exactly one when
      the text has no escape and no repetition. A text that starts with a
      character the subset does not cover is refused. */
  function Compile(t: string): (r: Option<Pattern>)
    ensures r.Some? ==> |r.value| <= |t|
    ensures r.Some? && NoEscapeOrRepeat(t) ==> |r.value| == |t|
    ensures t != [] && IsUnsupported(t[0]) ==> r.None?
    decreases |t|
  {
    if t == [] then Some([])
    else match CompileAtom(t)
      case None => None
      case Some((piece, n)) =>
        if n < |t| && (t[n] == '?' || t[n] == '*') then
          if !piece.One? || (n + 1 < |t| && (t[n + 1] == '?' || t[n + 1] == '*')) then None
          else
            var repeated := if t[n] == '?' then Optional(piece.cs) else Many(piece.cs);
            match Compile(t[n + 1..])
            case None => None
            case Some(rest) => Some([repeated] + rest)
        else
          match Compile(t[n..])
          case None => None
          case Some(rest) => Some([piece] + rest)
  }

  /** Characters that stand for themselves only when escaped. */
  predicate NeedsEscape(c: char) {
    c == '\\' || c == '.' || c == '^' || c == '$' || IsUnsupported(c)
  }

  function RenderSet(cs: CharSet): string {
    match cs
    case AnyButNewline => "."
    case Exactly(c) => if NeedsEscape(c) then ['\\', c] else [c]
  }

  function RenderPiece(x: Piece): string {
    match x
    case One(cs) => RenderSet(cs)
    case Optional(cs) => RenderSet(cs) + "?"
    case Many(cs) => RenderSet(cs) + "*"
    case AtStart => "^"
    case AtEnd => "$"
  }

  /** The text of a pattern, the inverse of `Compile` (see `CompileRender`). */
  function Render(p: Pattern): string {
    if p == [] then "" else RenderPiece(p[0]) + Render(p[1..])
  }

  predicate StartsWithRepeat(t: string) {
    t != [] && (t[0] == '?' || t[0] == '*')
  }

  lemma {:induction false} RenderStart(p: Pattern)
    ensures !StartsWithRepeat(Render(p))
  {
    if p != [] {
      var r := RenderPiece(p[0]);
      assert r != [] && r[0] != '?' && r[0] != '*';
      assert (r + Render(p[1..]))[0] == r[0];
    }
  }

  lemma CompileAtomSet(cs: CharSet, rest: string)
    ensures CompileAtom(RenderSet(cs) + rest) == Some((One(cs), |RenderSet(cs)|))
  {
    var t := RenderSet(cs) + rest;
    match cs
    case AnyButNewline =>
      assert t[0] == '.';
    case Exactly(c) =>
      if NeedsEscape(c) {
        assert t[0] == '\\' && t[1] == c;
        assert !IsAsciiAlnum(c);
      } else {
        assert t[0] == c;
      }
  }

  /** Compiling the text of one element followed by text that does not begin
      with a repetition gives that element in front of the rest's compilation. */
  lemma CompilePiece(x: Piece, rest: string)
    requires !StartsWithRepeat(rest)
    ensures Compile(RenderPiece(x) + rest) == match Compile(rest)
      case None => None
      case Some(q) => Some([x] + q)
  {
    var t := RenderPiece(x) + rest;
    match x
    case One(cs) =>
      var r := RenderSet(cs);
      CompileAtomSet(cs, rest);
      assert t[|r|..] == rest;
    case Optional(cs) =>
      var r := RenderSet(cs);
      assert t == r + ("?" + rest);
      CompileAtomSet(cs, "?" + rest);
      assert t[|r|] == '?';
      assert t[|r| + 1..] == rest;
    case Many(cs) =>
      var r := RenderSet(cs);
      assert t == r + ("*" + rest);
      CompileAtomSet(cs, "*" + rest);
      assert t[|r|] == '*';
      assert t[|r| + 1..] == rest;
    case AtStart =>
      assert t[0] == '^';
      assert t[1..] == rest;
    case AtEnd =>
      assert t[0] == '$';
      assert t[1..] == rest;
  }

  /** Round trip: every pattern compiles back from its text. */
  lemma {:induction false} CompileRender(p: Pattern)
    ensures Compile(Render(p)) == Some(p)
  {
    if p != [] {
      RenderStart(p[1..]);
      CompilePiece(p[0], Render(p[1..]));
      CompileRender(p[1..]);
      assert [p[0]] + p[1..] == p;
    }
  }

  /** `p` matches the text `s` from position `i` on (some prefix of `s[i..]`). */
  predicate MatchFrom(p: Pattern, s: string, i: nat)
    requires i <= |s|
    decreases |p|, |s| - i
  {
    if p == [] then true
    else match p[0]
      case AtStart => i == 0 && MatchFrom(p[1..], s, i)
      case AtEnd => (i == |s| || (i + 1 == |s| && s[i] == '\n')) && MatchFrom(p[1..], s, i)
      case One(cs) => i < |s| && Accepts(cs, s[i]) && MatchFrom(p[1..], s, i + 1)
      case Optional(cs) =>
        (i < |s| && Accepts(cs, s[i]) && MatchFrom(p[1..], s, i + 1)) || MatchFrom(p[1..], s, i)
      case Many(cs) =>
        (i < |s| && Accepts(cs, s[i]) && MatchFrom(p, s, i + 1)) || MatchFrom(p[1..], s, i)
  }

  /** `re.match(p, s)` succeeds. The empty pattern matches every text, and
      the match is anchored: a first element that takes one character must
      accept the first character of the text. */
  predicate Matches(p: Pattern, s: string)
    ensures p == [] ==> Matches(p, s)
    ensures Matches(p, s) && p != [] && p[0].One? ==> s != [] && Accepts(p[0].cs, s[0])
  {
    MatchFrom(p, s, 0)
  }

  predicate HasNoEndAnchor(p: Pattern) {
    forall k :: 0 <= k < |p| ==> p[k] != AtEnd
  }

  /** `re.match` tests a prefix: a pattern without `$` that matches a text
      also matches every extension of it. */
  lemma {:induction false} MatchFromExtends(p: Pattern, s: string, t: string, i: nat)
    requires i <= |s|
    requires HasNoEndAnchor(p)
    requires MatchFrom(p, s, i)
    ensures MatchFrom(p, s + t, i)
    decreases |p|, |s| - i
  {
    if p != [] {
      assert HasNoEndAnchor(p[1..]);
      match p[0]
      case AtStart => MatchFromExtends(p[1..], s, t, i);
      case One(cs) =>
        assert (s + t)[i] == s[i];
        MatchFromExtends(p[1..], s, t, i + 1);
      case Optional(cs) =>
        if i < |s| && Accepts(cs, s[i]) && MatchFrom(p[1..], s, i + 1) {
          assert (s + t)[i] == s[i];
          MatchFromExtends(p[1..], s, t, i + 1);
        } else {
          MatchFromExtends(p[1..], s, t, i);
        }
      case Many(cs) =>
        if i < |s| && Accepts(cs, s[i]) && MatchFrom(p, s, i + 1) {
          assert (s + t)[i] == s[i];
          MatchFromExtends(p, s, t, i + 1);
        } else {
          MatchFromExtends(p[1..], s, t, i);
        }
    }
  }

  lemma MatchesExtends(p: Pattern, s: string, t: string)
    requires HasNoEndAnchor(p)
    requires Matches(p, s)
    ensures Matches(p, s + t)
  {
    MatchFromExtends(p, s, t, 0);
  }

  /** The pattern that matches the characters of `w` one after another. */
  function Literal(w: string): (p: Pattern)
    ensures |p| == |w|
    ensures forall k :: 0 <= k < |w| ==> p[k] == One(Exactly(w[k]))
  {
    seq(|w|, k requires 0 <= k < |w| => One(Exactly(w[k])))
  }

  lemma {:induction false} RenderConcat(p: Pattern, q: Pattern)
    ensures Render(p + q) == Render(p) + Render(q)
  {
    if p != [] {
      assert (p + q)[0] == p[0];
      assert (p + q)[1..] == p[1..] + q;
      RenderConcat(p[1..], q);
    } else {
      assert p + q == q;
    }
  }

  /** A literal followed by more pattern matches at `i` exactly when the text
      holds `w` at `i` and the rest matches after it. */
  lemma {:induction false} LiteralMatchFrom(w: string, rest: Pattern, s: string, i: nat)
    requires i <= |s|
    ensures MatchFrom(Literal(w) + rest, s, i) <==>
      i + |w| <= |s| && s[i..i + |w|] == w && MatchFrom(rest, s, i + |w|)
    decreases |w|
  {
    if w != [] {
      var p := Literal(w) + rest;
      assert p[0] == One(Exactly(w[0]));
      assert p[1..] == Literal(w[1..]) + rest;
      if i < |s| {
        LiteralMatchFrom(w[1..], rest, s, i + 1);
        if i + |w| <= |s| {
          assert s[i..i + |w|] == [s[i]] + s[i + 1..i + |w|];
        }
      }
    } else {
      assert Literal(w) + rest == rest;
    }
  }

  /** `re.match` with a plain literal is a prefix test. */
  lemma LiteralMatches(w: string, s: string)
    ensures Matches(Literal(w), s) <==> |w| <= |s| && s[..|w|] == w
  {
    assert Literal(w) + [] == Literal(w);
    LiteralMatchFrom(w, [], s, 0);
  }

  /** A pattern that begins with a literal character only matches texts that
      begin with that character. */
  lemma MatchesLeadingLiteral(p: Pattern, c: char, s: string)
    requires p != [] && p[0] == One(Exactly(c))
    requires Matches(p, s)
    ensures s != [] && s[0] == c
  {
  }

  /** The text of a literal without special characters is the word itself. */
  lemma {:induction false} RenderLiteral(w: string)
    requires forall k :: 0 <= k < |w| ==> !NeedsEscape(w[k])
    ensures Render(Literal(w)) == w
  {
    if w != [] {
      assert Literal(w)[1..] == Literal(w[1..]);
      RenderLiteral(w[1..]);
      assert w == [w[0]] + w[1..];
    }
  }
}

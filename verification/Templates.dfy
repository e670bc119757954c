/**
 The placeholder language of the workflow texts: {{ name }} and {{ name | fallback }}.

 The two regular expressions are modelled as scanners.  Neither can backtrack to a different match:
 every repetition stops at a character the continuation cannot start with.
 */
module Templates {
  import opened Text

  /** First position at or after `i` that is not whitespace. */
  function SkipSpaces(s: string, i: nat): (k: nat)
    requires i <= |s|
    ensures i <= k <= |s|
    ensures forall j :: i <= j < k ==> IsSpace(s[j])
    ensures k < |s| ==> !IsSpace(s[k])
    decreases |s| - i
  {
    if i < |s| && IsSpace(s[i]) then SkipSpaces(s, i + 1) else i
  }

  /** First position at or after `i` that is not an identifier character. */
  function SkipIdent(s: string, i: nat): (k: nat)
    requires i <= |s|
    ensures i <= k <= |s|
    ensures forall j :: i <= j < k ==> IsIdent(s[j])
    ensures k < |s| ==> !IsIdent(s[k])
    decreases |s| - i
  {
    if i < |s| && IsIdent(s[i]) then SkipIdent(s, i + 1) else i
  }

  /** First position at or after `i` that holds '}', or the length. */
  function FindClose(s: string, i: nat): (k: nat)
    requires i <= |s|
    ensures i <= k <= |s|
    ensures forall j :: i <= j < k ==> s[j] != '}'
    ensures k < |s| ==> s[k] == '}'
    decreases |s| - i
  {
    if i < |s| && s[i] != '}' then FindClose(s, i + 1) else i
  }

  predicate OpensAt(s: string) { |s| >= 2 && s[0] == '{' && s[1] == '{' }

  predicate ClosesAt(s: string, i: nat) { i + 2 <= |s| && s[i] == '}' && s[i + 1] == '}' }

  datatype Placeholder = Placeholder(name: string, fallback: Option<string>, length: nat)

  /** Where the name starts, where it ends, and where the blanks after it end. */
  function MatchName(s: string): (m: Option<(nat, nat, nat)>)
    requires OpensAt(s)
    ensures m.Some? ==> 2 <= m.value.0 < m.value.1 <= m.value.2 <= |s|
    ensures m.Some? ==> forall i :: 0 <= i < m.value.2 ==> s[i] != '}'
  {
    var a := SkipSpaces(s, 2);
    if a == |s| || !IsIdentStart(s[a]) then None else
    var b := SkipIdent(s, a);
    var c := SkipSpaces(s, b);
    Some((a, b, c))
  }

  /** The rest of the placeholder from position `c` on: its fallback and where the match ends. */
  function MatchTail(s: string, c: nat): (m: Option<(Option<string>, nat)>)
    requires c <= |s|
    ensures m.Some? ==> c + 2 <= m.value.1 <= |s| && ClosesAt(s, m.value.1 - 2)
    ensures m.Some? ==> forall i :: c <= i < m.value.1 - 2 ==> s[i] != '}'
  {
    if c < |s| && s[c] == '|' then
      var d := FindClose(s, c + 1);
      if ClosesAt(s, d) then Some((Some(s[c + 1..d]), d + 2)) else None
    else if ClosesAt(s, c) then Some((None, c + 2))
    else None
  }

  /** The valid-placeholder pattern, anchored at the front of `s`. */
  function MatchPlaceholder(s: string): (m: Option<Placeholder>)
    ensures m.Some? ==> 4 < m.value.length <= |s| && OpensAt(s)
    ensures m.Some? ==> m.value.length == FindClose(s, 0) + 2 && ClosesAt(s, FindClose(s, 0))
  {
    if !OpensAt(s) then None else
    match MatchName(s)
    case None => None
    case Some((a, b, c)) =>
      match MatchTail(s, c)
      case None => None
      case Some((fallback, n)) =>
        CloseUnique(s, n - 2);
        Some(Placeholder(s[a..b], fallback, n))
  }

  lemma CloseUnique(s: string, k: nat)
    requires k < |s| && s[k] == '}'
    requires forall i :: 0 <= i < k ==> s[i] != '}'
    ensures FindClose(s, 0) == k
  {}

  /** The catch-all pattern: length of the chunk it takes when `s` opens with two braces. It ends with the first closing
      brace, and with a second one right behind it; a chunk never closed is all of `s`. */
  function ChunkLength(s: string): (n: nat)
    requires OpensAt(s)
    ensures 2 <= n <= |s| && forall i :: 0 <= i < n - 2 ==> s[i] != '}'
    ensures s[n - 2] == '}' ==> s[n - 1] == '}'
    ensures n < |s| ==> s[n - 1] == '}' && (s[n - 2] == '}' || s[n] != '}')
  {
    var k := FindClose(s, 0);
    if ClosesAt(s, k) then k + 2 else if k < |s| then k + 1 else k
  }

  // ---------------------------------------------------------------- the three operations

  function TemplateVariables(text: string): set<string> {
    if text == "" then {}
    else match MatchPlaceholder(text)
      case Some(p) => {p.name} + TemplateVariables(text[p.length..])
      case None => TemplateVariables(text[1..])
  }

  /** Chunks the catch-all pattern finds that are not, as a whole, a valid placeholder. */
  function MalformedTemplates(text: string): seq<string> {
    if text == "" then []
    else if !OpensAt(text) then MalformedTemplates(text[1..])
    else
      var n := ChunkLength(text);
      var p := MatchPlaceholder(text[..n]);
      (if p.Some? && p.value.length == n then [] else [text[..n]]) + MalformedTemplates(text[n..])
  }

  function Substitution(p: Placeholder, variables: map<string, string>): string {
    if p.name in variables && variables[p.name] != "" then variables[p.name]
    else match p.fallback
      case Some(f) => Strip(f)
      case None => ""
  }

  function Substitute(text: string, variables: map<string, string>): string {
    if text == "" then ""
    else match MatchPlaceholder(text)
      case Some(p) => Substitution(p, variables) + Substitute(text[p.length..], variables)
      case None => [text[0]] + Substitute(text[1..], variables)
  }

  function DropBraces(text: string): string {
    if text == "" then ""
    else if OpensAt(text) then DropBraces(text[ChunkLength(text)..])
    else [text[0]] + DropBraces(text[1..])
  }

  function Render(text: string, variables: map<string, string>): string {
    DropBraces(Substitute(text, variables))
  }

  // ---------------------------------------------------------------- no brace pair reaches speech

  lemma PairJoin(a: string, b: string)
    requires a != "" && PairFree(a, '{') && PairFree(b, '{')
    requires b != "" && b[0] == '{' ==> a[|a| - 1] != '{'
    ensures PairFree(a + b, '{')
  {
    var s := a + b;
    forall i | 0 <= i < |s| - 1 && s[i] == '{'
      ensures s[i + 1] != '{'
    {
      if i < |a| { assert s[i] == a[i]; } else { assert s[i] == b[i - |a|]; }
    }
  }

  lemma {:induction false} DropBracesHead(text: string)
    ensures text != "" && text[0] != '{' ==> DropBraces(text) != "" && DropBraces(text)[0] == text[0]
  {}

  lemma {:induction false} DropBracesNoPair(text: string)
    ensures PairFree(DropBraces(text), '{')
    decreases |text|
  {
    if text == "" {
    } else if OpensAt(text) {
      DropBracesNoPair(text[ChunkLength(text)..]);
    } else {
      var rest := text[1..];
      DropBracesNoPair(rest);
      DropBracesHead(rest);
      PairJoin([text[0]], DropBraces(rest));
    }
  }

  /** Whatever the text and the values, including values that contain braces, the result never
      contains two consecutive opening braces. */
  lemma RenderNeverShowsBraces(text: string, variables: map<string, string>)
    ensures PairFree(Render(text, variables), '{')
  {
    DropBracesNoPair(Substitute(text, variables));
  }

  /** The second pass deletes nothing exactly when its input has no pair of opening braces. */
  lemma {:induction false} DropBracesIdentity(text: string)
    ensures DropBraces(text) == text <==> PairFree(text, '{')
  {
    DropBracesNoPair(text);
    if PairFree(text, '{') { DropBracesKeeps(text); }
  }

  lemma {:induction false} DropBracesKeeps(text: string)
    requires PairFree(text, '{')
    ensures DropBraces(text) == text
  {
    if text != "" {
      assert forall i :: 0 <= i < |text| - 1 ==> text[1..][i] == text[i + 1];
      DropBracesKeeps(text[1..]);
    }
  }

  // ---------------------------------------------------------------- exact substitution

  /** A text cut into literal characters and placeholders; `source` is the placeholder as written. */
  datatype Piece = Literal(c: char) | Hole(source: string, name: string)

  function FirstLength(text: string): (n: nat)
    requires text != ""
    ensures 1 <= n <= |text|
  {
    match MatchPlaceholder(text) case Some(p) => p.length case None => 1
  }

  function FirstPiece(text: string): (p: Piece)
    requires text != ""
    ensures AsWritten(p) == text[..FirstLength(text)]
  {
    match MatchPlaceholder(text)
    case Some(p) => Hole(text[..p.length], p.name)
    case None => Literal(text[0])
  }

  function Pieces(text: string): seq<Piece> {
    if text == "" then [] else [FirstPiece(text)] + Pieces(text[FirstLength(text)..])
  }

  function AsWritten(p: Piece): string {
    match p case Literal(c) => [c] case Hole(s, _) => s
  }

  /** The text the pieces were cut from. */
  function Written(pieces: seq<Piece>): string {
    if pieces == [] then ""
    else AsWritten(pieces[0]) + Written(pieces[1..])
  }

  /** The pieces with every placeholder replaced by the value of its name. */
  function Filled(pieces: seq<Piece>, variables: map<string, string>): string
    requires HoleNames(pieces) <= variables.Keys
  {
    if pieces == [] then ""
    else (match pieces[0] case Literal(c) => [c] case Hole(_, n) => variables[n]) + Filled(pieces[1..], variables)
  }

  lemma CutWritten(text: string, n: nat, p: Piece, rest: seq<Piece>)
    requires n <= |text| && AsWritten(p) == text[..n] && Written(rest) == text[n..]
    ensures Written([p] + rest) == text
  {
    assert ([p] + rest)[1..] == rest;
    assert text == text[..n] + text[n..];
  }

  lemma {:induction false} PiecesWritten(text: string)
    ensures Written(Pieces(text)) == text
    decreases |text|
  {
    if text != "" {
      var n := FirstLength(text);
      PiecesWritten(text[n..]);
      CutWritten(text, n, FirstPiece(text), Pieces(text[n..]));
    }
  }

  ghost function HoleNames(pieces: seq<Piece>): set<string> {
    set p | p in pieces && p.Hole? :: p.name
  }

  /** The names a text uses are the names of its placeholders. */
  lemma {:induction false} PiecesNames(text: string)
    ensures HoleNames(Pieces(text)) == TemplateVariables(text)
    decreases |text|
  {
    if text != "" {
      match MatchPlaceholder(text)
      case Some(p) =>
        PiecesNames(text[p.length..]);
        HoleNamesCons(Hole(text[..p.length], p.name), Pieces(text[p.length..]));
      case None =>
        PiecesNames(text[1..]);
        HoleNamesCons(Literal(text[0]), Pieces(text[1..]));
    }
  }

  lemma HoleNamesCons(p: Piece, rest: seq<Piece>)
    ensures HoleNames([p] + rest) == (if p.Hole? then {p.name} else {}) + HoleNames(rest)
  {
    var all := [p] + rest;
    assert all[0] == p && all[1..] == rest;
    assert forall q :: q in all <==> q == p || q in rest;
    if p.Hole? { assert p in all; }
  }

  ghost predicate Supplies(variables: map<string, string>, names: set<string>) {
    forall v :: v in names ==> v in variables && variables[v] != "" && '{' !in variables[v]
  }

  lemma NamePrefix(s: string, n: nat)
    requires OpensAt(s) && 2 <= n <= |s|
    requires MatchName(s[..n]).Some? && MatchName(s[..n]).value.2 < n
    ensures MatchName(s) == MatchName(s[..n])
  {
    var (a, b, c) := MatchName(s[..n]).value;
    assert SkipSpaces(s, 2) == a;
    assert SkipIdent(s, a) == b;
    assert SkipSpaces(s, b) == c;
  }

  lemma TailPrefix(s: string, n: nat, c: nat)
    requires c < n <= |s| && MatchTail(s[..n], c).Some?
    ensures MatchTail(s, c) == MatchTail(s[..n], c)
  {
    var t := s[..n];
    if t[c] == '|' {
      var d := FindClose(t, c + 1);
      assert FindClose(s, c + 1) == d;
      assert s[c + 1..d] == t[c + 1..d];
    }
  }

  /** A chunk that is a placeholder as a whole is exactly what the placeholder pattern takes there. */
  lemma ChunkIsPlaceholder(text: string)
    requires OpensAt(text)
    requires MatchPlaceholder(text[..ChunkLength(text)]).Some?
    requires MatchPlaceholder(text[..ChunkLength(text)]).value.length == ChunkLength(text)
    ensures MatchPlaceholder(text) == MatchPlaceholder(text[..ChunkLength(text)])
  {
    var n := ChunkLength(text);
    NamePrefix(text, n);
    var (a, b, c) := MatchName(text).value;
    TailPrefix(text, n, c);
    assert text[..n][a..b] == text[a..b];
  }

  lemma {:induction false} SubstituteIsFilled(text: string, variables: map<string, string>)
    requires MalformedTemplates(text) == []
    requires Supplies(variables, TemplateVariables(text))
    ensures HoleNames(Pieces(text)) <= variables.Keys
    ensures Substitute(text, variables) == Filled(Pieces(text), variables)
    ensures PairFree(Substitute(text, variables), '{')
    ensures text != "" && !OpensAt(text) ==>
      Substitute(text, variables) != "" && Substitute(text, variables)[0] == text[0]
    ensures OpensAt(text) ==> Substitute(text, variables) != "" && Substitute(text, variables)[0] != '{'
    decreases |text|
  {
    if text == "" {
    } else if OpensAt(text) {
      var n := ChunkLength(text);
      assert MatchPlaceholder(text[..n]).Some? && MatchPlaceholder(text[..n]).value.length == n;
      ChunkIsPlaceholder(text);
      var p := MatchPlaceholder(text).value;
      SubstituteIsFilled(text[n..], variables);
      PairJoin(variables[p.name], Substitute(text[n..], variables));
      assert Pieces(text)[1..] == Pieces(text[n..]);
    } else {
      var rest := text[1..];
      SubstituteIsFilled(rest, variables);
      PairJoin([text[0]], Substitute(rest, variables));
      assert Pieces(text)[1..] == Pieces(rest);
    }
  }

  /** With no malformed chunk and a non-empty, brace-free value for every placeholder, rendering is
      exact substitution: every literal character survives in order, every placeholder becomes its
      value, and the neutralising pass deletes nothing. */
  lemma RenderIsExact(text: string, variables: map<string, string>)
    requires MalformedTemplates(text) == []
    requires Supplies(variables, TemplateVariables(text))
    ensures Written(Pieces(text)) == text
    ensures HoleNames(Pieces(text)) == TemplateVariables(text)
    ensures Render(text, variables) == Filled(Pieces(text), variables)
  {
    PiecesWritten(text);
    PiecesNames(text);
    SubstituteIsFilled(text, variables);
    DropBracesIdentity(Substitute(text, variables));
  }
}

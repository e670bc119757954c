/**
 Directive tags in the text a language model streams: [[NAME attributes]].

 `StreamBuffer` hands the text on piecewise, `DirectiveParser` strips the tags of a piece.  What is
 spoken piece by piece agrees with one parse of the whole text exactly when no piece ends inside a tag.
 */
module Directives {
  import opened Text

  // ---------------------------------------------------------------- the tag pattern

  predicate IsTagName(c: char) { IsUpper(c) || c == '_' }

  predicate OpensTag(s: string) { |s| >= 2 && s[0] == '[' && s[1] == '[' }

  /** First position at or after `i` that is not a tag-name character. */
  function NameEnd(s: string, i: nat): (k: nat)
    requires i <= |s|
    ensures i <= k <= |s|
    decreases |s| - i
  {
    if i < |s| && IsTagName(s[i]) then NameEnd(s, i + 1) else i
  }

  /** First position at or after `i` that holds ']', or the length. */
  function FindBracket(s: string, i: nat): (k: nat)
    requires i <= |s|
    ensures i <= k <= |s|
    ensures forall j :: i <= j < k ==> s[j] != ']'
    ensures k < |s| ==> s[k] == ']'
    decreases |s| - i
  {
    if i < |s| && s[i] != ']' then FindBracket(s, i + 1) else i
  }

  datatype Tag = Tag(name: string, attrs: string)

  /** Length of the tag at the front of `s`; zero when there is none. */
  function TagLength(s: string): (n: nat)
    ensures n <= |s|
    ensures n > 0 ==> OpensTag(s) && n >= 5
    ensures n > 0 ==> s[n - 2] == ']' && s[n - 1] == ']' && forall j :: 0 <= j < n - 2 ==> s[j] != ']'
  {
    if !OpensTag(s) || |s| == 2 || !IsTagName(s[2]) then 0
    else
      var k := FindBracket(s, 2);
      if k + 2 <= |s| && s[k + 1] == ']' then k + 2 else 0
  }

  function TagAt(s: string): Tag
    requires TagLength(s) > 0
  {
    var n := TagLength(s);
    var e := NameEnd(s[..n - 2], 2);
    Tag(s[2..e], s[e..n - 2])
  }

  /** The text with every tag removed, left to right. */
  function Untagged(s: string): string {
    if s == "" then ""
    else if TagLength(s) > 0 then Untagged(s[TagLength(s)..])
    else [s[0]] + Untagged(s[1..])
  }

  function Tags(s: string): seq<Tag> {
    if s == "" then []
    else if TagLength(s) > 0 then [TagAt(s)] + Tags(s[TagLength(s)..])
    else Tags(s[1..])
  }

  // ---------------------------------------------------------------- directives

  datatype TransferType = Warm | Cold | NoTransfer

  datatype Directive =
    | EndCall
    | Transfer(kind: TransferType, destination: string, reason: string)
    | Unknown(name: string, attrs: map<string, string>)

  predicate IsWord(c: char) { IsIdent(c) }

  function WordEnd(s: string, i: nat): (k: nat)
    requires i <= |s|
    ensures i <= k <= |s|
    decreases |s| - i
  {
    if i < |s| && IsWord(s[i]) then WordEnd(s, i + 1) else i
  }

  function FindQuote(s: string, i: nat): (k: nat)
    requires i <= |s|
    ensures i <= k <= |s|
    decreases |s| - i
  {
    if i < |s| && s[i] != '"' then FindQuote(s, i + 1) else i
  }

  /** Every name="value" in the attribute text; a later one wins. */
  function Attributes(s: string): map<string, string>
    decreases |s|
  {
    if s == "" then map[]
    else
      var j := WordEnd(s, 0);
      if j > 0 && j + 2 <= |s| && s[j] == '=' && s[j + 1] == '"' && FindQuote(s, j + 2) < |s| then
        var k := FindQuote(s, j + 2);
        map[s[..j] := s[j + 2..k]] + Attributes(s[k + 1..])
      else Attributes(s[1..])
  }

  function CoerceTransferType(raw: string): TransferType {
    if raw == "warm" then Warm else if raw == "cold" then Cold else NoTransfer
  }

  function GetOr(m: map<string, string>, key: string, default: string): string {
    if key in m then m[key] else default
  }

  function Build(t: Tag): Directive {
    var attrs := Attributes(t.attrs);
    if t.name == "END_CALL" then EndCall
    else if t.name == "TRANSFER" then
      Transfer(CoerceTransferType(GetOr(attrs, "type", "none")), GetOr(attrs, "destination", ""),
        GetOr(attrs, "reason", ""))
    else Unknown(t.name, attrs)
  }

  // ---------------------------------------------------------------- the parser

  predicate IsMarkdown(c: char) { c == '*' || c == '_' || c == '`' || c == '#' }

  function StripMarkdown(s: string): string {
    if s == "" then "" else (if IsMarkdown(s[0]) then "" else [s[0]]) + StripMarkdown(s[1..])
  }

  datatype DirectiveResult = DirectiveResult(cleanText: string, directives: seq<Directive>)

  function BuildAll(tags: seq<Tag>): seq<Directive> {
    seq(|tags|, i requires 0 <= i < |tags| => Build(tags[i]))
  }

  function Parse(text: string): DirectiveResult {
    DirectiveResult(StripMarkdown(Untagged(text)), BuildAll(Tags(text)))
  }

  lemma {:induction false} StripMarkdownConcat(a: string, b: string)
    ensures StripMarkdown(a + b) == StripMarkdown(a) + StripMarkdown(b)
  {
    if a == "" {
      assert a + b == b;
    } else {
      assert (a + b)[1..] == a[1..] + b;
      StripMarkdownConcat(a[1..], b);
    }
  }

  /** Stripping again, as the speech boundary does, changes nothing. */
  lemma {:induction false} StripMarkdownTwice(s: string)
    ensures StripMarkdown(StripMarkdown(s)) == StripMarkdown(s)
  {
    if s != "" {
      StripMarkdownTwice(s[1..]);
      StripMarkdownConcat(if IsMarkdown(s[0]) then "" else [s[0]], StripMarkdown(s[1..]));
    }
  }

  // ---------------------------------------------------------------- cutting a text in two

  /** How far one step of the scan goes: over a tag, or over one character. */
  function Advance(s: string): (n: nat)
    requires s != ""
    ensures 1 <= n <= |s| && (TagLength(s) > 0 ==> n == TagLength(s)) && (TagLength(s) == 0 ==> n == 1)
  {
    if TagLength(s) > 0 then TagLength(s) else 1
  }

  /** Position `c` is not strictly inside a tag the scan of `s` removes. */
  ghost predicate CleanCut(s: string, c: nat)
    requires c <= |s|
    decreases c
  {
    c == 0 || (Advance(s) <= c && CleanCut(s[Advance(s)..], c - Advance(s)))
  }

  lemma CleanCutStep(s: string, c: nat)
    requires 0 < c <= |s|
    ensures CleanCut(s, c) <==> Advance(s) <= c && CleanCut(s[Advance(s)..], c - Advance(s))
  {
    hide TagLength, Advance;
  }

  /** A tag at the front is decided by its own characters. */
  lemma TagExtends(a: string, b: string)
    ensures TagLength(a) > 0 ==> TagLength(a + b) == TagLength(a) && TagAt(a + b) == TagAt(a)
    ensures 0 < TagLength(a + b) <= |a| ==> TagLength(a) == TagLength(a + b)
  {
    var s := a + b;
    if TagLength(a) > 0 {
      var n := TagLength(a);
      BracketUnique(s, n - 2);
      assert s[..n - 2] == a[..n - 2];
      var e := NameEnd(a[..n - 2], 2);
      NameEndBound(a[..n - 2], 2);
      assert s[2..e] == a[2..e] && s[e..n - 2] == a[e..n - 2];
    }
    if 0 < TagLength(s) <= |a| {
      var n := TagLength(s);
      assert forall j :: 0 <= j < n ==> a[j] == s[j];
      BracketUnique(a, n - 2);
    }
  }

  lemma NameEndBound(s: string, i: nat)
    requires i <= |s|
    ensures NameEnd(s, i) <= |s|
  {}

  lemma BracketUnique(s: string, k: nat)
    requires 2 <= k < |s| && s[k] == ']' && forall j :: 0 <= j < k ==> s[j] != ']'
    ensures FindBracket(s, 2) == k
  {}

  lemma UntaggedStep(s: string)
    requires s != ""
    ensures Untagged(s) == (if TagLength(s) > 0 then "" else [s[0]]) + Untagged(s[Advance(s)..])
    ensures Tags(s) == (if TagLength(s) > 0 then [TagAt(s)] else []) + Tags(s[Advance(s)..])
  {
    hide TagLength, TagAt;
  }

  /** Cutting between tags loses nothing. */
  lemma {:induction false} CleanCutAgrees(a: string, b: string)
    requires CleanCut(a + b, |a|)
    ensures Untagged(a + b) == Untagged(a) + Untagged(b) && Tags(a + b) == Tags(a) + Tags(b)
    decreases |a|
  {
    hide TagLength, TagAt, CleanCut, Untagged, Tags;
    TagExtends(a, b);
    if a == "" {
      assert a + b == b;
      NothingTagged();
    } else {
      CleanCutStep(a + b, |a|);
      UntaggedStep(a + b);
      UntaggedStep(a);
      var n := Advance(a + b);
      assert (a + b)[n..] == a[n..] + b;
      CleanCutAgrees(a[n..], b);
    }
  }

  lemma NothingTagged()
    ensures Untagged("") == "" && Tags("") == []
  {}

  function Brackets(s: string): nat {
    if s == "" then 0 else (if s[0] == '[' then 1 else 0) + Brackets(s[1..])
  }

  lemma {:induction false} BracketsConcat(a: string, b: string)
    ensures Brackets(a + b) == Brackets(a) + Brackets(b)
  {
    if a == "" {
      assert a + b == b;
    } else {
      assert (a + b)[1..] == a[1..] + b;
      BracketsConcat(a[1..], b);
    }
  }

  lemma {:induction false} BracketsStripped(s: string)
    ensures Brackets(StripMarkdown(s)) == Brackets(s)
  {
    if s != "" {
      BracketsStripped(s[1..]);
      BracketsConcat(if IsMarkdown(s[0]) then "" else [s[0]], StripMarkdown(s[1..]));
    }
  }

  /** How many opening brackets are left after removing the tags. */
  function Left(s: string): nat { Brackets(Untagged(s)) }

  /** The rest of a tag swallows no more than itself: what follows is scanned from its own start. */
  lemma {:induction false} TagRest(r: string, y: string)
    requires r != "" && r[|r| - 1] == ']' && (|r| >= 2 ==> r[|r| - 2] == ']')
    requires forall j :: 0 <= j < |r| - 2 ==> r[j] != ']'
    ensures Left(r + y) >= Left(y)
    decreases |r|
  {
    var s := r + y;
    var n := TagLength(s);
    if n > 0 {
      assert n == |r| by {
        assert s[0] == '[';
        assert |r| >= 2;
        assert s[|r| - 2] == ']';
      }
      assert s[n..] == y;
    } else if |r| == 1 {
      assert s[1..] == y;
    } else {
      assert s[1..] == r[1..] + y;
      TagRest(r[1..], y);
    }
  }

  /** A proper, non-empty part of a tag is kept as it stands. */
  lemma {:induction false} PartOfTag(a: string)
    requires forall j :: 0 <= j < |a| - 1 ==> a[j] != ']'
    ensures Untagged(a) == a
  {
    if a != "" {
      assert TagLength(a) == 0;
      assert forall j :: 0 <= j < |a| - 2 ==> a[1..][j] == a[j + 1];
      PartOfTag(a[1..]);
    }
  }

  lemma LeftSkip(s: string)
    requires s != "" && TagLength(s) == 0
    ensures Left(s) == (if s[0] == '[' then 1 else 0) + Left(s[1..])
  {
    hide TagLength;
    BracketsConcat([s[0]], Untagged(s[1..]));
  }

  lemma BracketsHead(s: string)
    requires s != "" && s[0] == '['
    ensures Brackets(s) > 0
  {}

  lemma LeftTag(s: string)
    requires TagLength(s) > 0
    ensures Left(s) == Left(s[TagLength(s)..])
  {
    hide TagLength;
  }

  /** A cut inside the tag at the front. */
  lemma Straddled(a: string, b: string)
    requires a != "" && TagLength(a + b) > |a|
    ensures Left(a) + Left(b) > Left(a + b)
  {
    hide TagLength;
    var s := a + b;
    var n := TagLength(s);
    assert forall j :: 0 <= j < |a| ==> a[j] == s[j];
    PartOfTag(a);
    BracketsHead(a);
    var r, y := b[..n - |a|], b[n - |a|..];
    assert b == r + y && s[n..] == y;
    assert forall j :: 0 <= j < |r| ==> r[j] == s[|a| + j];
    TagRest(r, y);
    LeftTag(s);
  }

  /** Cutting never removes more; cutting inside a tag leaves an opening bracket behind. */
  lemma {:induction false} CutLeaves(a: string, b: string)
    ensures Left(a) + Left(b) >= Left(a + b)
    ensures !CleanCut(a + b, |a|) ==> Left(a) + Left(b) > Left(a + b)
    decreases |a|
  {
    hide TagLength, Left;
    TagExtends(a, b);
    var s := a + b;
    var n := TagLength(s);
    if a == "" {
      assert s == b;
      NothingLeft();
    } else if 0 < n <= |a| {
      assert s[n..] == a[n..] + b;
      LeftTag(s);
      LeftTag(a);
      CutLeaves(a[n..], b);
    } else if n > 0 {
      Straddled(a, b);
    } else {
      assert s[1..] == a[1..] + b;
      LeftSkip(s);
      LeftSkip(a);
      CutLeaves(a[1..], b);
    }
  }

  lemma NothingLeft()
    ensures Left("") == 0
  {}

  // ---------------------------------------------------------------- cutting a text into pieces

  function UntaggedPieces(ps: seq<string>): string {
    if ps == [] then "" else Untagged(ps[0]) + UntaggedPieces(ps[1..])
  }

  function TagsPieces(ps: seq<string>): seq<Tag> {
    if ps == [] then [] else Tags(ps[0]) + TagsPieces(ps[1..])
  }

  /** Every boundary between pieces is a clean cut of the whole. */
  ghost predicate CleanCuts(ps: seq<string>) {
    if ps == [] then true
    else CleanCut(ps[0] + Concat(ps[1..]), |ps[0]|) && CleanCuts(ps[1..])
  }

  lemma {:induction false} PiecesLeave(ps: seq<string>)
    ensures Brackets(UntaggedPieces(ps)) >= Left(Concat(ps))
    ensures !CleanCuts(ps) ==> Brackets(UntaggedPieces(ps)) > Left(Concat(ps))
  {
    if ps != [] {
      PiecesLeave(ps[1..]);
      CutLeaves(ps[0], Concat(ps[1..]));
      BracketsConcat(Untagged(ps[0]), UntaggedPieces(ps[1..]));
    }
  }

  lemma {:induction false} CleanCutsAgree(ps: seq<string>)
    requires CleanCuts(ps)
    ensures UntaggedPieces(ps) == Untagged(Concat(ps)) && TagsPieces(ps) == Tags(Concat(ps))
  {
    if ps != [] {
      CleanCutsAgree(ps[1..]);
      CleanCutAgrees(ps[0], Concat(ps[1..]));
    }
  }

  /** Parsing piece by piece gives the text and the tags of one parse of the whole exactly when no
      piece ends strictly inside a tag. */
  lemma PiecewiseAgreesIffCleanCuts(ps: seq<string>)
    ensures CleanCuts(ps) <==>
      StripMarkdown(UntaggedPieces(ps)) == StripMarkdown(Untagged(Concat(ps))) && TagsPieces(ps) == Tags(Concat(ps))
  {
    if CleanCuts(ps) { CleanCutsAgree(ps); }
    PiecesLeave(ps);
    BracketsStripped(UntaggedPieces(ps));
    BracketsStripped(Untagged(Concat(ps)));
  }

  // ---------------------------------------------------------------- the stream buffer

  /** Position of the last "[[" in `s`; -1 when there is none. */
  function LastOpen(s: string): (q: int)
    ensures q >= -1
    ensures q >= 0 ==> q <= |s| - 2 && s[q] == '[' && s[q + 1] == '['
    ensures forall j {:trigger s[j]} :: q < j < |s| - 1 && s[j] == '[' ==> s[j + 1] != '['
  {
    if |s| < 2 then -1
    else if s[|s| - 2] == '[' && s[|s| - 1] == '[' then |s| - 2
    else LastOpen(s[..|s| - 1])
  }

  predicate HasClose(s: string) { exists j {:trigger s[j]} :: 0 <= j < |s| - 1 && s[j] == ']' && s[j + 1] == ']' }

  /** How much of the pending text may be handed on. */
  function SafeLength(pending: string): (n: nat)
    ensures n <= |pending|
  {
    var q := LastOpen(pending);
    if q >= 0 && !HasClose(pending[q..]) then q else |pending|
  }

  class StreamBuffer {
    var pending: string

    constructor ()
      ensures pending == ""
    {
      pending := "";
    }

    /** Hands on what cannot be part of a tag still being streamed. */
    method Feed(chunk: string) returns (safe: string)
      modifies this
      ensures safe + pending == old(pending) + chunk
      ensures safe == (old(pending) + chunk)[..SafeLength(old(pending) + chunk)]
    {
      pending := pending + chunk;
      var lastOpen := LastOpen(pending);
      if lastOpen != -1 && !HasClose(pending[lastOpen..]) {
        safe, pending := pending[..lastOpen], pending[lastOpen..];
      } else {
        safe, pending := pending, "";
      }
    }

    /** What never closed into a tag is ordinary text after all. */
    method Flush() returns (remainder: string)
      modifies this
      ensures remainder == old(pending) && pending == ""
    {
      remainder, pending := pending, "";
    }
  }

  /** What a fresh buffer hands out for the chunks, feed by feed, and what it then holds. */
  function Fed(chunks: seq<string>): (r: (seq<string>, string))
    ensures |r.0| == |chunks|
  {
    if chunks == [] then ([], "")
    else
      var (outs, held) := Fed(chunks[..|chunks| - 1]);
      var p := held + chunks[|chunks| - 1];
      (outs + [p[..SafeLength(p)]], p[SafeLength(p)..])
  }

  method Stream(chunks: seq<string>) returns (outs: seq<string>, remainder: string)
    ensures (outs, remainder) == Fed(chunks)
  {
    var buffer := new StreamBuffer();
    outs := [];
    for i := 0 to |chunks|
      invariant (outs, buffer.pending) == Fed(chunks[..i])
      invariant fresh(buffer)
    {
      assert chunks[..i + 1][..i] == chunks[..i];
      var safe := buffer.Feed(chunks[i]);
      outs := outs + [safe];
    }
    assert chunks[..|chunks|] == chunks;
    remainder := buffer.Flush();
  }

  lemma {:induction false} ConcatSnoc(ps: seq<string>, p: string)
    ensures Concat(ps + [p]) == Concat(ps) + p
  {
    if ps == [] {
      assert ps + [p] == [p];
    } else {
      assert (ps + [p])[1..] == ps[1..] + [p];
      ConcatSnoc(ps[1..], p);
    }
  }

  lemma FedSnoc(chunks: seq<string>, c: string)
    ensures var (o, h) := Fed(chunks);
      Fed(chunks + [c]) == (o + [(h + c)[..SafeLength(h + c)]], (h + c)[SafeLength(h + c)..])
  {
    hide SafeLength;
    assert (chunks + [c])[..|chunks|] == chunks;
  }

  lemma ConservesSnoc(o: seq<string>, h: string, c: string, n: nat, text: string)
    requires n <= |h + c| && Concat(o) + h == text
    ensures Concat(o + [(h + c)[..n]]) + (h + c)[n..] == text + c
  {
    ConcatSnoc(o, (h + c)[..n]);
    assert (h + c)[..n] + (h + c)[n..] == h + c;
  }

  /** Nothing is lost, duplicated or reordered: the feeds and the flush make up the input. */
  lemma {:induction false} StreamConserves(chunks: seq<string>)
    ensures Concat(Fed(chunks).0) + Fed(chunks).1 == Concat(chunks)
  {
    hide SafeLength, Fed;
    if chunks == [] {
      FedNothing();
    } else {
      var init, last := chunks[..|chunks| - 1], chunks[|chunks| - 1];
      assert chunks == init + [last];
      StreamConserves(init);
      FedSnoc(init, last);
      var (o, h) := Fed(init);
      ConservesSnoc(o, h, last, SafeLength(h + last), Concat(init));
      ConcatSnoc(init, last);
    }
  }

  lemma FedNothing()
    ensures Fed([]) == ([], "") && Concat([]) == ""
  {}

  /** The pieces a consumer of the stream sees: every feed, then the flush. */
  function StreamPieces(chunks: seq<string>): seq<string> { Fed(chunks).0 + [Fed(chunks).1] }

  // ---------------------------------------------------------------- what is spoken and what is kept

  function CleanPieces(ps: seq<string>): string {
    if ps == [] then "" else StripMarkdown(Untagged(ps[0])) + CleanPieces(ps[1..])
  }

  /** The text handed to speech: every feed parsed, the flush taken as it is. */
  function Spoken(chunks: seq<string>): string { CleanPieces(Fed(chunks).0) + Fed(chunks).1 }

  function Heard(chunks: seq<string>): seq<Tag> { TagsPieces(Fed(chunks).0) }

  lemma TagCloses(s: string)
    ensures TagLength(s) > 0 ==> HasClose(s)
  {
    hide TagLength;
    if TagLength(s) > 0 {
      assert s[TagLength(s) - 2] == ']';
    }
  }

  lemma {:induction false} Unclosed(s: string)
    requires !HasClose(s)
    ensures Untagged(s) == s && Tags(s) == []
  {
    if s != "" {
      TagCloses(s);
      assert forall j :: 0 <= j < |s| - 1 ==> s[1..][j] == s[j + 1];
      Unclosed(s[1..]);
    }
  }

  lemma {:induction false} HeldUnclosed(chunks: seq<string>)
    ensures !HasClose(Fed(chunks).1)
  {
    if chunks != [] {
      var p := Fed(chunks[..|chunks| - 1]).1 + chunks[|chunks| - 1];
      assert p[|p|..] == "";
    }
  }

  lemma {:induction false} CleanPiecesStripped(ps: seq<string>)
    ensures StripMarkdown(CleanPieces(ps)) == StripMarkdown(UntaggedPieces(ps))
  {
    if ps != [] {
      CleanPiecesStripped(ps[1..]);
      StripMarkdownConcat(StripMarkdown(Untagged(ps[0])), CleanPieces(ps[1..]));
      StripMarkdownConcat(Untagged(ps[0]), UntaggedPieces(ps[1..]));
      StripMarkdownTwice(Untagged(ps[0]));
    }
  }

  lemma {:induction false} PiecesSnoc(ps: seq<string>, p: string)
    ensures UntaggedPieces(ps + [p]) == UntaggedPieces(ps) + Untagged(p)
    ensures TagsPieces(ps + [p]) == TagsPieces(ps) + Tags(p)
  {
    hide Untagged, Tags;
    if ps == [] {
      assert ps + [p] == [p] && [p][1..] == [];
    } else {
      assert (ps + [p])[1..] == ps[1..] + [p];
      PiecesSnoc(ps[1..], p);
    }
  }

  lemma SpokenPieces(chunks: seq<string>)
    ensures StripMarkdown(Spoken(chunks)) == StripMarkdown(UntaggedPieces(StreamPieces(chunks)))
    ensures Heard(chunks) == TagsPieces(StreamPieces(chunks))
    ensures Concat(StreamPieces(chunks)) == Concat(chunks)
  {
    hide Untagged, Tags, StripMarkdown, Fed;
    var (outs, held) := Fed(chunks);
    HeldUnclosed(chunks);
    Unclosed(held);
    PiecesSnoc(outs, held);
    CleanPiecesStripped(outs);
    StripMarkdownConcat(CleanPieces(outs), held);
    StripMarkdownConcat(UntaggedPieces(outs), held);
    StreamConserves(chunks);
    ConcatSnoc(outs, held);
  }

  /** The stream is parsed as the whole would be, in text and in tags, exactly when no release point
      falls strictly inside a tag. */
  lemma StreamAgreesIff(chunks: seq<string>)
    ensures CleanCuts(StreamPieces(chunks)) <==>
      StripMarkdown(Spoken(chunks)) == Parse(Concat(chunks)).cleanText && Heard(chunks) == Tags(Concat(chunks))
  {
    hide Untagged, Tags, StripMarkdown, CleanCuts, Spoken, Heard, StreamPieces;
    SpokenPieces(chunks);
    PiecewiseAgreesIffCleanCuts(StreamPieces(chunks));
  }

  // ---------------------------------------------------------------- a condition on the chunks alone

  /** The scan of the text meets a tag at `s`. */
  ghost predicate MetTag(text: string, s: nat) { s < |text| && CleanCut(text, s) && TagLength(text[s..]) > 0 }

  /** A second "[[" after the one at `s` is visible in front of `b`. */
  ghost predicate NestedBefore(text: string, s: nat, b: nat) {
    exists j {:trigger text[j]} :: s < j && j + 1 < b <= |text| && text[j] == '[' && text[j + 1] == '['
  }

  /** A boundary that makes the buffer release a part of the tag at `s`: between its two opening brackets, or inside
      it behind another "[[". */
  ghost predicate CutsTag(text: string, s: nat, b: nat) {
    s < b <= |text| && b < s + TagLength(text[s..]) && (b == s + 1 || NestedBefore(text, s, b))
  }

  ghost predicate KeepsTags(text: string, b: nat) {
    forall s: nat :: MetTag(text, s) ==> !CutsTag(text, s, b)
  }

  /** Scanning resumes at every clean cut. */
  lemma {:induction false} CleanCutSuffix(t: string, r: nat, c: nat)
    requires r <= c <= |t| && CleanCut(t, r)
    ensures CleanCut(t, c) <==> CleanCut(t[r..], c - r)
    decreases r
  {
    hide TagLength, Advance, CleanCut;
    if r == 0 {
      assert t[0..] == t;
    } else {
      CleanCutStep(t, r);
      CleanCutStep(t, c);
      var n := Advance(t);
      DropDrop(t, n, r - n);
      CleanCutSuffix(t[n..], r - n, c - n);
    }
  }

  /** A cut is clean once no tag met by the scan reaches across it. */
  lemma {:induction false} CleanIfNoTagAcross(t: string, c: nat)
    requires c <= |t|
    requires forall s :: 0 <= s < c && CleanCut(t, s) && TagLength(t[s..]) > 0 ==> s + TagLength(t[s..]) <= c
    ensures CleanCut(t, c)
    decreases c
  {
    hide TagLength;
    if c > 0 {
      assert t[0..] == t && CleanCut(t, 0);
      var n := Advance(t);
      forall s | 0 <= s < c - n && CleanCut(t[n..], s) && TagLength(t[n..][s..]) > 0
        ensures s + TagLength(t[n..][s..]) <= c - n
      {
        DropDrop(t, n, s);
        CleanCutStep(t, n + s);
      }
      CleanIfNoTagAcross(t[n..], c - n);
    }
  }

  /** The last "[[" seen is the tag's own, nested in it, or past it. */
  lemma LastOpenAtTag(text: string, b: nat, r: nat, s: nat)
    requires r <= s && s + 1 < b <= |text| && TagLength(text[s..]) > 0
    ensures
      var q, n := r + LastOpen(text[r..b]), TagLength(text[s..]);
      && q >= s
      && (s < q < s + n ==> NestedBefore(text, s, b))
      && (NestedBefore(text, s, b) ==> s < q)
      && (q < s + n ==> q + 4 <= s + n)
  {
    hide TagLength;
    var p, n := text[r..b], TagLength(text[s..]);
    assert forall j :: 0 <= j < |p| ==> p[j] == text[r + j];
    assert forall j :: 0 <= j < n ==> text[s..][j] == text[s + j];
    var q := LastOpen(p);
    assert p[s - r] == '[' && p[s - r + 1] == '[';
    assert text[r + q] == '[' && text[r + q + 1] == '[';
    assert text[s + n - 1] == ']' && text[s + n - 2] == ']';
    if NestedBefore(text, s, b) {
      var j: nat :| s < j && j + 1 < b && text[j] == '[' && text[j + 1] == '[';
      assert p[j - r] == '[' && p[j - r + 1] == '[';
    }
  }

  /** Behind an opening of the tag, the first "]]" is the tag's end. */
  lemma CloseAtTag(text: string, b: nat, s: nat, q: nat)
    requires s <= q < b <= |text| && TagLength(text[s..]) > 0 && q + 4 <= s + TagLength(text[s..])
    ensures HasClose(text[q..b]) <==> s + TagLength(text[s..]) <= b
  {
    hide TagLength;
    var p, n := text[q..b], TagLength(text[s..]);
    assert forall j :: 0 <= j < n ==> text[s..][j] == text[s + j];
    assert forall j :: 0 <= j < |p| ==> p[j] == text[q + j];
    if s + n <= b {
      assert p[s + n - 2 - q] == ']' && p[s + n - 2 - q + 1] == ']';
    }
  }

  /** Where the buffer stops releasing is past every tag that starts before it. */
  lemma ReleaseClearsTag(text: string, b: nat, r: nat, s: nat)
    requires r <= b <= |text| && CleanCut(text, r) && MetTag(text, s) && !CutsTag(text, s, b)
    requires s < r + SafeLength(text[r..b])
    ensures s + TagLength(text[s..]) <= r + SafeLength(text[r..b])
  {
    hide TagLength, CleanCut, LastOpen, HasClose, NestedBefore;
    if s < r {
      ClearOf(text, s, r);
    } else {
      assert s + 1 < b;
      LastOpenAtTag(text, b, r, s);
      var q := r + LastOpen(text[r..b]);
      assert text[r..b][q - r..] == text[q..b];
      if q < s + TagLength(text[s..]) { CloseAtTag(text, b, s, q); }
    }
  }

  lemma {:induction false} ClearOf(text: string, s: nat, r: nat)
    requires s < r <= |text| && CleanCut(text, s) && CleanCut(text, r) && TagLength(text[s..]) > 0
    ensures s + TagLength(text[s..]) <= r
  {
    hide TagLength;
    CleanCutSuffix(text, s, r);
  }

  lemma ReleaseIsClean(text: string, b: nat, r: nat)
    requires r <= b <= |text| && CleanCut(text, r) && KeepsTags(text, b)
    ensures CleanCut(text, r + SafeLength(text[r..b]))
  {
    hide TagLength, CleanCut, SafeLength, CutsTag;
    var c := r + SafeLength(text[r..b]);
    forall s | 0 <= s < c && CleanCut(text, s) && TagLength(text[s..]) > 0
      ensures s + TagLength(text[s..]) <= c
    {
      assert text[s..] != "";
      assert MetTag(text, s);
      ReleaseClearsTag(text, b, r, s);
    }
    CleanIfNoTagAcross(text, c);
  }

  /** Every "[[" of the text belongs to a tag. */
  ghost predicate OnlyTagsOpen(text: string) {
    forall j: nat {:trigger text[j]} :: j + 1 < |text| && text[j] == '[' && text[j + 1] == '[' ==> InTag(text, j)
  }

  ghost predicate InTag(text: string, j: nat) { exists s: nat :: MetTag(text, s) && s <= j < s + TagLength(text[s..]) }

  lemma InsideTag(text: string, s: nat, c: nat)
    requires MetTag(text, s) && s < c < s + TagLength(text[s..])
    ensures !CleanCut(text, c)
  {
    hide TagLength;
    if CleanCut(text, c) { ClearOf(text, s, c); }
  }

  /** At a boundary inside a tag and behind a nested "[[", the buffer releases up to that one. */
  lemma NestedIsUnclean(text: string, b: nat, r: nat, s: nat)
    requires r <= b <= |text| && CleanCut(text, r) && MetTag(text, s)
    requires s < b < s + TagLength(text[s..]) && NestedBefore(text, s, b)
    ensures !CleanCut(text, r + SafeLength(text[r..b]))
  {
    hide TagLength, CleanCut, LastOpen, HasClose;
    assert s + 1 < b;
    hide NestedBefore;
    if s < r { InsideTag(text, s, r); }
    LastOpenAtTag(text, b, r, s);
    var q := r + LastOpen(text[r..b]);
    assert text[r..b][q - r..] == text[q..b];
    CloseAtTag(text, b, s, q);
    InsideTag(text, s, q);
  }

  /** At a boundary between the two brackets of a tag, the buffer releases the first of them, when it holds nothing
      else. */
  lemma SplitIsUnclean(text: string, r: nat, s: nat)
    requires s + 1 < |text| && r <= s + 1 && MetTag(text, s) && OnlyTagsOpen(text)
    ensures !CleanCut(text, r + SafeLength(text[r..s + 1]))
  {
    InsideTag(text, s, s + 1);
    hide TagLength, CleanCut, LastOpen, HasClose, MetTag, InTag, OnlyTagsOpen;
    var p := text[r..s + 1];
    var q := LastOpen(p);
    if q >= 0 {
      EarlierCloses(text, r, s, q);
    }
  }

  lemma EarlierCloses(text: string, r: nat, s: nat, q: nat)
    requires s + 1 < |text| && r <= s + 1 && MetTag(text, s) && OnlyTagsOpen(text)
    requires var p := text[r..s + 1]; q + 1 < |p| && p[q] == '[' && p[q + 1] == '['
    ensures HasClose(text[r..s + 1][q..])
  {
    hide TagLength, CleanCut, HasClose, MetTag, InTag;
    assert text[r + q] == '[' && text[r + q + 1] == '[';
    ClosedBefore(text, s, r + q);
    assert text[r..s + 1][q..] == text[r + q..s + 1];
  }

  /** An opening of an earlier tag is closed where a later one starts. */
  lemma ClosedBefore(text: string, s: nat, q: nat)
    requires MetTag(text, s) && q + 1 <= s && InTag(text, q) && text[q] == '[' && text[q + 1] == '['
    ensures HasClose(text[q..s + 1])
  {
    hide TagLength, CleanCut;
    var a: nat :| MetTag(text, a) && a <= q < a + TagLength(text[a..]);
    var n := TagLength(text[a..]);
    ClearOf(text, a, s);
    assert text[a..][n - 2] == ']' && text[a..][n - 1] == ']';
    assert text[a + n - 2] == ']' && text[a + n - 1] == ']';
    CloseAtTag(text, s + 1, a, q);
  }

  lemma {:induction false} ConcatAppend(a: seq<string>, b: seq<string>)
    ensures Concat(a + b) == Concat(a) + Concat(b)
  {
    if a == [] {
      assert a + b == b;
    } else {
      assert (a + b)[1..] == a[1..] + b;
      ConcatAppend(a[1..], b);
    }
  }

  /** The first `i` chunks make up the front of the text. */
  lemma FrontOfText(chunks: seq<string>, i: nat)
    requires i <= |chunks|
    ensures |Concat(chunks[..i])| <= |Concat(chunks)|
    ensures Concat(chunks)[..|Concat(chunks[..i])|] == Concat(chunks[..i])
  {
    ConcatAppend(chunks[..i], chunks[i..]);
    assert chunks[..i] + chunks[i..] == chunks;
  }

  /** No chunk boundary cuts a tag. */
  ghost predicate NoTagCut(chunks: seq<string>) {
    forall i :: 0 <= i <= |chunks| ==> KeepsTags(Concat(chunks), |Concat(chunks[..i])|)
  }

  /** How much has been released after the first `i` chunks. */
  ghost function ReleasedAfter(chunks: seq<string>, i: nat): nat
    requires i <= |chunks|
  {
    |Concat(Fed(chunks[..i]).0)|
  }

  lemma ReleasedStep(chunks: seq<string>, i: nat)
    requires i < |chunks|
    ensures var text, b, r := Concat(chunks), |Concat(chunks[..i + 1])|, ReleasedAfter(chunks, i);
      r <= b <= |text| && ReleasedAfter(chunks, i + 1) == r + SafeLength(text[r..b])
  {
    hide SafeLength, Fed;
    var front := chunks[..i];
    TakeSnoc(chunks, i);
    FedSnoc(front, chunks[i]);
    FrontOfText(chunks, i + 1);
    ConcatSnoc(front, chunks[i]);
    StreamConserves(front);
    var (o, h) := Fed(front);
    var p := h + chunks[i];
    ConcatSnoc(o, p[..SafeLength(p)]);
    var text, b, r := Concat(chunks), |Concat(chunks[..i + 1])|, |Concat(o)|;
    assert text[..b] == Concat(o) + p;
    assert text[r..b] == text[..b][r..] == p;
  }

  lemma {:induction false} ReleasesAreClean(chunks: seq<string>, i: nat)
    requires i <= |chunks| && NoTagCut(chunks)
    ensures ReleasedAfter(chunks, i) <= |Concat(chunks)| && CleanCut(Concat(chunks), ReleasedAfter(chunks, i))
  {
    hide KeepsTags, SafeLength, Fed;
    if i == 0 {
      assert chunks[..0] == [];
      FedNothing();
    } else {
      ReleasesAreClean(chunks, i - 1);
      ReleasedStep(chunks, i - 1);
      ReleaseIsClean(Concat(chunks), |Concat(chunks[..i])|, ReleasedAfter(chunks, i - 1));
    }
  }

  lemma {:induction false} FedPrefix(chunks: seq<string>, i: nat)
    requires i <= |chunks|
    ensures Fed(chunks).0[..i] == Fed(chunks[..i]).0
  {
    hide SafeLength, Fed;
    var m := |chunks|;
    if i == m {
      TakeAll(chunks);
      TakeAll(Fed(chunks).0);
    } else {
      TakeSnoc(chunks, m - 1);
      TakeAll(chunks);
      FedSnoc(chunks[..m - 1], chunks[m - 1]);
      FedPrefix(chunks[..m - 1], i);
      assert chunks[..m - 1][..i] == chunks[..i];
      assert Fed(chunks).0[..i] == Fed(chunks[..m - 1]).0[..i];
    }
  }

  /** Pieces of a text cut at clean positions are cleanly cut. */
  lemma {:induction false} CleanPositions(ps: seq<string>, text: string, r: nat)
    requires r <= |text| && text[r..] == Concat(ps) && CleanCut(text, r)
    requires forall k :: 0 <= k <= |ps| ==> r + |Concat(ps[..k])| <= |text| && CleanCut(text, r + |Concat(ps[..k])|)
    ensures CleanCuts(ps)
  {
    hide CleanCut;
    if ps != [] {
      var n := |ps[0]|;
      assert ps[..1] == [ps[0]] && Concat([ps[0]]) == ps[0] by { assert [ps[0]][1..] == []; }
      assert CleanCut(text, r + n) by { assert r + |Concat(ps[..1])| == r + n; }
      CleanCutSuffix(text, r, r + n);
      assert text[r + n..] == Concat(ps[1..]) by { DropDrop(text, r, n); }
      forall k | 0 <= k <= |ps| - 1
        ensures r + n + |Concat(ps[1..][..k])| <= |text| && CleanCut(text, r + n + |Concat(ps[1..][..k])|)
      {
        assert ps[..k + 1] == [ps[0]] + ps[1..][..k];
        ConcatAppend([ps[0]], ps[1..][..k]);
        assert r + |Concat(ps[..k + 1])| == r + n + |Concat(ps[1..][..k])|;
      }
      CleanPositions(ps[1..], text, r + n);
    }
  }

  lemma BoundaryClean(chunks: seq<string>, k: nat)
    requires NoTagCut(chunks) && k <= |StreamPieces(chunks)|
    ensures |Concat(StreamPieces(chunks)[..k])| <= |Concat(chunks)|
    ensures CleanCut(Concat(chunks), |Concat(StreamPieces(chunks)[..k])|)
  {
    hide CleanCut, NoTagCut, Fed;
    var ps := StreamPieces(chunks);
    if k <= |chunks| {
      assert ps[..k] == Fed(chunks).0[..k];
      FedPrefix(chunks, k);
      ReleasesAreClean(chunks, k);
    } else {
      TakeAll(ps);
      SpokenPieces(chunks);
      WholeIsClean(Concat(chunks));
    }
  }

  lemma StreamCutsClean(chunks: seq<string>)
    requires NoTagCut(chunks)
    ensures CleanCuts(StreamPieces(chunks))
  {
    hide CleanCut, NoTagCut, StreamPieces;
    var ps, text := StreamPieces(chunks), Concat(chunks);
    SpokenPieces(chunks);
    forall k | 0 <= k <= |ps|
      ensures 0 + |Concat(ps[..k])| <= |text| && CleanCut(text, 0 + |Concat(ps[..k])|)
    {
      BoundaryClean(chunks, k);
    }
    assert text[0..] == text;
    StartIsClean(text);
    CleanPositions(ps, text, 0);
  }

  lemma StartIsClean(text: string)
    ensures CleanCut(text, 0)
  {}

  lemma {:induction false} WholeIsClean(text: string)
    ensures CleanCut(text, |text|)
    decreases |text|
  {
    hide TagLength;
    if text != "" {
      WholeIsClean(text[Advance(text)..]);
    }
  }

  /** What is spoken is what is kept, up to the markdown characters the speech boundary strips anyway, and the
      directives heard are those of the whole text. */
  ghost predicate Agrees(chunks: seq<string>) {
    StripMarkdown(Spoken(chunks)) == Parse(Concat(chunks)).cleanText && Heard(chunks) == Tags(Concat(chunks))
  }

  /** When no chunk boundary cuts a tag, speech and history agree. */
  lemma StreamAgrees(chunks: seq<string>)
    requires NoTagCut(chunks)
    ensures Agrees(chunks) && BuildAll(Heard(chunks)) == Parse(Concat(chunks)).directives
  {
    hide NoTagCut, StreamPieces, Spoken, Heard, CleanCuts;
    StreamCutsClean(chunks);
    StreamAgreesIff(chunks);
  }

  // ---------------------------------------------------------------- how far the condition is necessary

  lemma {:induction false} CleanPrefix(ps: seq<string>, k: nat)
    requires CleanCuts(ps) && k <= |ps|
    ensures |Concat(ps[..k])| <= |Concat(ps)| && CleanCut(Concat(ps), |Concat(ps[..k])|)
  {
    hide CleanCut;
    FrontOfText(ps, k);
    if k == 0 {
      assert ps[..0] == [];
      StartIsClean(Concat(ps));
    } else {
      CleanPrefix(ps[1..], k - 1);
      var n, t := |ps[0]|, Concat(ps);
      assert ps[..k] == [ps[0]] + ps[1..][..k - 1];
      ConcatAppend([ps[0]], ps[1..][..k - 1]);
      assert Concat([ps[0]]) == ps[0] by { assert [ps[0]][1..] == []; }
      assert t[n..] == Concat(ps[1..]);
      CleanCutSuffix(t, n, |Concat(ps[..k])|);
    }
  }

  /** A release point that is not a clean cut breaks agreement. */
  lemma UncleanBreaks(chunks: seq<string>, i: nat)
    requires i <= |chunks| && ReleasedAfter(chunks, i) <= |Concat(chunks)|
    requires !CleanCut(Concat(chunks), ReleasedAfter(chunks, i))
    ensures !Agrees(chunks)
  {
    hide CleanCut, CleanCuts, Fed, Spoken, Heard, StripMarkdown, Tags, Parse;
    var ps := StreamPieces(chunks);
    FedPrefix(chunks, i);
    assert ps[..i] == Fed(chunks).0[..i];
    SpokenPieces(chunks);
    if CleanCuts(ps) { CleanPrefix(ps, i); }
    StreamAgreesIff(chunks);
  }

  lemma ReleasedInside(chunks: seq<string>, i: nat)
    requires i <= |chunks|
    ensures ReleasedAfter(chunks, i) <= |Concat(chunks)|
  {
    hide Fed, SafeLength;
    if i == 0 {
      assert chunks[..0] == [];
      FedNothing();
    } else {
      ReleasedStep(chunks, i - 1);
    }
  }

  /** Whatever the text: a chunk that ends inside a tag, behind a second "[[", makes speech and history disagree. */
  lemma NestedAlwaysBreaks(chunks: seq<string>, i: nat, s: nat)
    requires i <= |chunks| && MetTag(Concat(chunks), s)
    requires
      var b := |Concat(chunks[..i])|;
      s < b < s + TagLength(Concat(chunks)[s..]) && NestedBefore(Concat(chunks), s, b)
    ensures !Agrees(chunks)
  {
    hide CleanCut, TagLength, NestedBefore, Fed, SafeLength, Agrees, MetTag;
    assert chunks[..0] == [];
    ReleasedInside(chunks, i - 1);
    ReleasedStep(chunks, i - 1);
    var text, r := Concat(chunks), ReleasedAfter(chunks, i - 1);
    if CleanCut(text, r) {
      NestedIsUnclean(text, |Concat(chunks[..i])|, r, s);
      UncleanBreaks(chunks, i);
    } else {
      UncleanBreaks(chunks, i - 1);
    }
  }

  lemma SplitBreaks(chunks: seq<string>, i: nat, s: nat)
    requires i <= |chunks| && MetTag(Concat(chunks), s) && OnlyTagsOpen(Concat(chunks))
    requires |Concat(chunks[..i])| == s + 1 < s + TagLength(Concat(chunks)[s..])
    ensures !Agrees(chunks)
  {
    hide CleanCut, Fed, SafeLength, Agrees, OnlyTagsOpen;
    assert chunks[..0] == [];
    ReleasedInside(chunks, i - 1);
    ReleasedStep(chunks, i - 1);
    var text, r := Concat(chunks), ReleasedAfter(chunks, i - 1);
    if CleanCut(text, r) {
      SplitIsUnclean(text, r, s);
      UncleanBreaks(chunks, i);
    } else {
      UncleanBreaks(chunks, i - 1);
    }
  }

  /** In a text whose every "[[" belongs to a tag, speech and history agree exactly when no chunk boundary falls
      between the brackets that open a tag, or inside a tag behind a second "[[". */
  lemma StreamAgreesOnChunks(chunks: seq<string>)
    requires OnlyTagsOpen(Concat(chunks))
    ensures NoTagCut(chunks) <==> Agrees(chunks)
  {
    hide CleanCut, TagLength, NestedBefore, Agrees, MetTag, OnlyTagsOpen;
    if NoTagCut(chunks) {
      StreamAgrees(chunks);
    } else {
      var i :| 0 <= i <= |chunks| && !KeepsTags(Concat(chunks), |Concat(chunks[..i])|);
      var s: nat :| MetTag(Concat(chunks), s) && CutsTag(Concat(chunks), s, |Concat(chunks[..i])|);
      if |Concat(chunks[..i])| == s + 1 { SplitBreaks(chunks, i, s); } else { NestedAlwaysBreaks(chunks, i, s); }
    }
  }

  // ---------------------------------------------------------------- both hypotheses are needed

  lemma ShortTag(c: char)
    requires IsUpper(c)
    ensures Tags(['[', '[', c, ']', ']']) == [Tag([c], "")]
  {
    var s := ['[', '[', c, ']', ']'];
    BracketUnique(s, 3);
    assert TagLength(s) == 5;
    assert s[..3] == ['[', '[', c] && NameEnd(['[', '[', c], 2) == 3;
    assert s[2..3] == [c] && s[3..3] == "" && s[5..] == "";
    UntaggedStep(s);
    NothingTagged();
  }

  lemma FeedStep(chunks: seq<string>, c: string, o: seq<string>, p: string, n: nat)
    requires Fed(chunks).0 == o && Fed(chunks).1 + c == p && n <= |p| && SafeLength(p) == n
    ensures Fed(chunks + [c]) == (o + [p[..n]], p[n..])
  {
    hide SafeLength, Fed;
    FedSnoc(chunks, c);
  }

  lemma ReleasesAll(p: string)
    requires LastOpen(p) == -1 || HasClose(p[LastOpen(p)..])
    ensures SafeLength(p) == |p| && p[..|p|] == p && p[|p|..] == ""
  {}

  lemma TagsTwo(a: string, b: string)
    ensures TagsPieces([a, b]) == Tags(a) + Tags(b) && Concat([a, b]) == a + b
  {
    hide Tags;
    assert [] + [a] == [a] && [a] + [b] == [a, b];
    PiecesSnoc([], a);
    PiecesSnoc([a], b);
    ConcatSnoc([], a);
    ConcatSnoc([a], b);
  }

  lemma TagsThree(a: string, b: string, c: string)
    ensures TagsPieces([a, b, c]) == Tags(a) + Tags(b) + Tags(c) && Concat([a, b, c]) == a + b + c
  {
    hide Tags, TagsPieces, Concat;
    TagsTwo(a, b);
    assert [a, b] + [c] == [a, b, c];
    PiecesSnoc([a, b], c);
    ConcatSnoc([a, b], c);
  }

  lemma OneBracket(d: string)
    requires forall j :: 1 <= j < |d| ==> d[j] != '['
    ensures LastOpen(d) == -1 && Tags(d) == []
  {
    NoOpenNoTags(d);
  }

  lemma {:induction false} NoOpenNoTags(d: string)
    requires forall j :: 1 <= j < |d| ==> d[j] != '['
    ensures Tags(d) == []
  {
    if d != "" {
      assert TagLength(d) == 0;
      assert forall j :: 1 <= j < |d| - 1 ==> d[1..][j] == d[j + 1];
      NoOpenNoTags(d[1..]);
    }
  }

  /** A boundary between the two brackets loses the directive. */
  lemma SplitOpenLosesDirective()
    ensures Heard(["[", "[A]]"]) == [] && Tags(Concat(["[", "[A]]"])) == [Tag("A", "")]
  {
    hide Tags, Fed, SafeLength, LastOpen, HasClose, Concat, TagsPieces;
    var c, d := "[", "[A]]";
    FedNothing();
    OneBracket(c);
    OneBracket(d);
    ReleasesAll(c);
    ReleasesAll(d);
    FeedStep([], c, [], c, 1);
    assert [] + [c] == [c];
    FeedStep([c], d, [c], d, 4);
    assert [c] + [d] == [c, d];
    TagsTwo(c, d);
    assert c + d == ['[', '[', 'A', ']', ']'];
    ShortTag('A');
  }

  lemma OuterTag()
    ensures |Tags("[[A [[B]]")| > 0 && Tags("[[A [[B]]")[0].name == "A"
  {
    hide Tags;
    var s := "[[A [[B]]";
    BracketUnique(s, 7);
    assert TagLength(s) == 9;
    assert s[..7] == "[[A [[B" && NameEnd("[[A [[B", 2) == 3;
    UntaggedStep(s);
  }

  lemma Openings()
    ensures SafeLength("[[A ") == 0 && SafeLength("[[A [[B") == 4
    ensures HasClose("[[B]]") && LastOpen("[[B]]") == 0 && !HasClose("[[A ")
  {
    var p, q, r := "[[A ", "[[A [[B", "[[B]]";
    assert LastOpen(p) == 0 by { assert p[0] == '[' && p[1] == '['; }
    assert p[0..] == p && !HasClose(p);
    assert LastOpen(q) == 4 by { assert q[4] == '[' && q[5] == '['; }
    assert q[4..] == "[[B" && !HasClose("[[B");
    assert r[3] == ']' && r[0] == '[' && r[1] == '[';
  }

  lemma NestedFed()
    ensures Fed(["[[A ", "[[B", "]]"]).0 == ["", "[[A ", "[[B]]"]
  {
    hide Fed, SafeLength, LastOpen, HasClose;
    var c, d, e := "[[A ", "[[B", "]]";
    Openings();
    FedNothing();
    FeedStep([], c, [], c, 0);
    assert [] + [c] == [c] && c[..0] == "" && c[0..] == c;
    assert c + d == "[[A [[B" && (c + d)[..4] == c && (c + d)[4..] == d;
    FeedStep([c], d, [""], c + d, 4);
    assert [c] + [d] == [c, d] && [""] + [c] == ["", c];
    assert d + e == "[[B]]" && (d + e)[0..] == d + e;
    ReleasesAll(d + e);
    FeedStep([c, d], e, ["", c], d + e, 5);
    assert [c, d] + [e] == [c, d, e] && ["", c] + [d + e] == ["", c, d + e];
  }

  /** A second "[[" inside an open tag makes the stream hear another directive than the whole text. */
  lemma NestedOpenChangesDirective()
    ensures var chunks := ["[[A ", "[[B", "]]"];
      Heard(chunks) == [Tag("B", "")] && Concat(chunks) == "[[A [[B]]" && |Tags("[[A [[B]]")| > 0
        && Tags("[[A [[B]]")[0].name == "A"
  {
    hide Tags, Fed, SafeLength, LastOpen, HasClose, Concat, TagsPieces;
    var c, d, e := "[[A ", "[[B", "]]";
    Openings();
    NestedFed();
    assert d + e == "[[B]]" && c + d + e == "[[A [[B]]";
    TagsThree("", c, d + e);
    TagsThree(c, d, e);
    NothingTagged();
    Unclosed(c);
    ShortTag('B');
    assert d + e == ['[', '[', 'B', ']', ']'];
    OuterTag();
  }
}

/**
 What a placeholder looks like and what it renders to, said without the scanners: the text of a match is written
 out, blanks and all, and so is the text that takes its place.
 */
module TemplateSyntax {
  import opened Text
  import opened Templates

  predicate IsName(n: string) { n != "" && IsIdentStart(n[0]) && forall i :: 0 <= i < |n| ==> IsIdent(n[i]) }

  /** What stands between the name and the closing braces. */
  function Tail(fallback: Option<string>): string { match fallback case Some(f) => "|" + f case None => "" }

  function Spelled(lead: string, name: string, trail: string, fallback: Option<string>): string {
    "{{" + lead + name + trail + Tail(fallback) + "}}"
  }

  ghost predicate IsSpelling(s: string, name: string, fallback: Option<string>) {
    exists lead, trail :: IsBlank(lead) && IsBlank(trail) && s == Spelled(lead, name, trail, fallback)
  }

  ghost predicate IsPlaceholder(s: string, p: Placeholder) {
    && p.length <= |s| && IsName(p.name) && (p.fallback.Some? ==> '}' !in p.fallback.value)
    && IsSpelling(s[..p.length], p.name, p.fallback)
  }

  lemma SpacesEnd(s: string, i: nat, k: nat)
    requires i <= k <= |s| && (forall j :: i <= j < k ==> IsSpace(s[j])) && (k < |s| ==> !IsSpace(s[k]))
    ensures SkipSpaces(s, i) == k
  {}

  lemma IdentEnd(s: string, i: nat, k: nat)
    requires i <= k <= |s| && (forall j :: i <= j < k ==> IsIdent(s[j])) && (k < |s| ==> !IsIdent(s[k]))
    ensures SkipIdent(s, i) == k
  {}

  lemma CloseAt(s: string, i: nat, k: nat)
    requires i <= k < |s| && s[k] == '}' && forall j :: i <= j < k ==> s[j] != '}'
    ensures FindClose(s, i) == k
  {}

  lemma SpelledName(s: string, a: nat, b: nat, c: nat)
    requires OpensAt(s) && 2 <= a < b <= c < |s|
    requires IsBlank(s[2..a]) && IsName(s[a..b]) && IsBlank(s[b..c]) && !IsSpace(s[c]) && !IsIdent(s[c])
    ensures MatchName(s) == Some((a, b, c))
  {
    assert forall j :: 2 <= j < a ==> s[j] == s[2..a][j - 2];
    assert forall j :: a <= j < b ==> s[j] == s[a..b][j - a];
    assert forall j :: b <= j < c ==> s[j] == s[b..c][j - b];
    hide IsSpace, IsIdent, IsIdentStart;
    assert !IsSpace(s[a]) && (b < |s| ==> !IsIdent(s[b])) by { NameEnds(s[a], s[b]); }
    SpacesEnd(s, 2, a);
    IdentEnd(s, a, b);
    SpacesEnd(s, b, c);
  }

  lemma NameEnds(first: char, next: char)
    ensures IsIdent(first) ==> !IsSpace(first)
    ensures IsSpace(next) ==> !IsIdent(next)
  {}

  lemma SpelledTail(s: string, c: nat, fallback: Option<string>, post: string)
    requires c <= |s| && s[c..] == Tail(fallback) + ("}}" + post)
    requires fallback.Some? ==> '}' !in fallback.value
    ensures MatchTail(s, c) == Some((fallback, c + |Tail(fallback)| + 2))
  {
    var t := s[c..];
    if fallback.Some? {
      hide MatchTail;
      var k := c + 1 + |fallback.value|;
      FallbackParts(t, fallback.value, post);
      assert s[c + 1..k] == t[1..k - c] && s[c] == t[0] && s[k] == t[k - c] && s[k + 1] == t[k - c + 1];
      FallbackEnds(s, c, k);
    } else {
      assert t == "}}" + post && ClosesAt(s, c);
    }
  }

  lemma FallbackParts(t: string, f: string, post: string)
    requires t == "|" + f + ("}}" + post)
    ensures |t| >= |f| + 3 && t[0] == '|' && t[1..1 + |f|] == f && t[1 + |f|] == '}' && t[2 + |f|] == '}'
  {}

  lemma FallbackEnds(s: string, c: nat, k: nat)
    requires c < k && k + 2 <= |s| && s[c] == '|' && s[k] == '}' && s[k + 1] == '}' && '}' !in s[c + 1..k]
    ensures MatchTail(s, c) == Some((Some(s[c + 1..k]), k + 2))
  {
    var f := s[c + 1..k];
    assert forall j :: c + 1 <= j < k ==> s[j] == f[j - c - 1];
    CloseAt(s, c + 1, k);
  }

  lemma MatchParts(s: string)
    ensures MatchPlaceholder(s).Some? <==> OpensAt(s) && MatchName(s).Some? && MatchTail(s, MatchName(s).value.2).Some?
    ensures MatchPlaceholder(s).Some? ==>
      var (a, b, c) := MatchName(s).value;
      var (fallback, n) := MatchTail(s, c).value;
      MatchPlaceholder(s).value == Placeholder(s[a..b], fallback, n)
  {
    hide MatchName, MatchTail;
  }

  /** The characters of a placeholder and what follows it. */
  lemma SpelledParts(lead: string, name: string, trail: string, tail: string, s: string)
    requires s == "{{" + lead + name + trail + tail
    ensures
      var a := 2 + |lead|;
      var b := a + |name|;
      var c := b + |trail|;
      c <= |s| && OpensAt(s) && s[2..a] == lead && s[a..b] == name && s[b..c] == trail && s[c..] == tail
  {
    assert s[..2] == "{{";
  }

  lemma Regroup(head: string, tail: string, post: string)
    ensures head + tail + "}}" + post == head + (tail + ("}}" + post))
  {}

  lemma TailStarts(fallback: Option<string>, post: string)
    ensures var rest := Tail(fallback) + ("}}" + post); rest != "" && !IsSpace(rest[0]) && !IsIdent(rest[0])
  {}

  lemma SpelledLength(lead: string, name: string, trail: string, fallback: Option<string>)
    ensures |Spelled(lead, name, trail, fallback)| == 2 + |lead| + |name| + |trail| + |Tail(fallback)| + 2
  {}

  /** However it is written, a placeholder is matched with its name, its fallback and its length. */
  lemma SpellingMatches(lead: string, name: string, trail: string, fallback: Option<string>, post: string)
    requires IsBlank(lead) && IsName(name) && IsBlank(trail) && (fallback.Some? ==> '}' !in fallback.value)
    ensures MatchPlaceholder(Spelled(lead, name, trail, fallback) + post)
      == Some(Placeholder(name, fallback, |Spelled(lead, name, trail, fallback)|))
  {
    assert name != "";
    hide MatchName, MatchTail, Tail, MatchPlaceholder, IsName, IsBlank, OpensAt, IsSpace, IsIdent, FindClose;
    var s := Spelled(lead, name, trail, fallback) + post;
    var rest := Tail(fallback) + ("}}" + post);
    Regroup("{{" + lead + name + trail, Tail(fallback), post);
    SpelledParts(lead, name, trail, rest, s);
    SpelledLength(lead, name, trail, fallback);
    TailStarts(fallback, post);
    hide Spelled;
    var a, b, c := 2 + |lead|, 2 + |lead| + |name|, 2 + |lead| + |name| + |trail|;
    assert s[c..] == rest && s[c] == rest[0];
    SpelledName(s, a, b, c);
    SpelledTail(s, c, fallback, post);
    MatchParts(s);
  }

  lemma Joined(s: string, a: nat, b: nat, c: nat, n: nat)
    requires 2 <= a <= b <= c <= n - 2 && n <= |s|
    ensures s[..n] == s[..2] + s[2..a] + s[a..b] + s[b..c] + s[c..n - 2] + s[n - 2..n]
  {}

  lemma NameIsName(s: string)
    requires OpensAt(s) && MatchName(s).Some?
    ensures var (a, b, c) := MatchName(s).value; IsBlank(s[2..a]) && IsName(s[a..b]) && IsBlank(s[b..c])
  {
    var (a, b, c) := MatchName(s).value;
    assert forall i :: 0 <= i < b - a ==> s[a..b][i] == s[a + i];
  }

  lemma TailIsTail(s: string, c: nat)
    requires c <= |s| && MatchTail(s, c).Some?
    ensures
      var (fallback, n) := MatchTail(s, c).value;
      s[c..n - 2] == Tail(fallback) && s[n - 2..n] == "}}" && (fallback.Some? ==> '}' !in fallback.value)
  {
    var (fallback, n) := MatchTail(s, c).value;
    assert ClosesAt(s, n - 2);
    hide FindClose;
    if s[c] == '|' {
      var f := s[c + 1..n - 2];
      assert s[c..n - 2] == "|" + f && forall x :: x in f ==> x != '}';
    }
  }

  /** What is matched is written that way. */
  lemma MatchIsSpelled(s: string)
    requires MatchPlaceholder(s).Some?
    ensures IsPlaceholder(s, MatchPlaceholder(s).value)
  {
    MatchParts(s);
    NameIsName(s);
    var (a, b, c) := MatchName(s).value;
    TailIsTail(s, c);
    var (fallback, n) := MatchTail(s, c).value;
    hide MatchName, MatchTail, Tail, MatchPlaceholder, IsName, IsBlank;
    Joined(s, a, b, c, n);
    assert s[..2] == "{{";
    assert s[..n] == Spelled(s[2..a], s[a..b], s[b..c], fallback);
  }

  /** A match is a placeholder written out: two braces, blanks, an identifier, blanks, an optional bar and fallback,
      two braces; and every text that starts that way is matched so. */
  lemma MatchIff(s: string, p: Placeholder)
    ensures MatchPlaceholder(s) == Some(p) <==> IsPlaceholder(s, p)
  {
    hide MatchPlaceholder, IsName, IsBlank;
    if MatchPlaceholder(s) == Some(p) { MatchIsSpelled(s); }
    if IsPlaceholder(s, p) {
      var lead, trail :| IsBlank(lead) && IsBlank(trail) && s[..p.length] == Spelled(lead, p.name, trail, p.fallback);
      assert s == s[..p.length] + s[p.length..];
      SpellingMatches(lead, p.name, trail, p.fallback, s[p.length..]);
    }
  }

  lemma Head(pre: string, post: string)
    requires pre != ""
    ensures (pre + post)[0] == pre[0] && (pre + post)[1..] == pre[1..] + post
    ensures pre + post == [pre[0]] + (pre[1..] + post)
  {}

  lemma PlainChar(s: string, variables: map<string, string>)
    requires s != "" && s[0] != '{'
    ensures Substitute(s, variables) == [s[0]] + Substitute(s[1..], variables)
    ensures TemplateVariables(s) == TemplateVariables(s[1..])
  {
    assert MatchPlaceholder(s).None? by { hide Substitute, TemplateVariables; }
    hide MatchPlaceholder, OpensAt, FindClose, ClosesAt, Substitution;
  }

  /** A text without an opening brace goes through unchanged. */
  lemma {:induction false} PlainText(pre: string, post: string, variables: map<string, string>)
    requires '{' !in pre
    ensures Substitute(pre + post, variables) == pre + Substitute(post, variables)
    ensures TemplateVariables(pre + post) == TemplateVariables(post)
  {
    hide Substitute, TemplateVariables;
    if pre == "" {
      assert pre + post == post && pre + Substitute(post, variables) == Substitute(post, variables);
    } else {
      Head(pre, post);
      Head(pre, Substitute(post, variables));
      PlainChar(pre + post, variables);
      PlainText(pre[1..], post, variables);
    }
  }

  /** The text that takes the place of a placeholder: the value of its name if it has one that is not empty, and its
      fallback, without the blanks around it, otherwise. */
  lemma PlaceholderRendered(pre: string, lead: string, name: string, trail: string, fallback: Option<string>,
                            post: string, variables: map<string, string>)
    requires '{' !in pre && IsBlank(lead) && IsName(name) && IsBlank(trail)
    requires fallback.Some? ==> '}' !in fallback.value
    ensures
      var text := pre + (Spelled(lead, name, trail, fallback) + post);
      && TemplateVariables(text) == {name} + TemplateVariables(post)
      && (name in variables && variables[name] != "" ==>
           Substitute(text, variables) == pre + (variables[name] + Substitute(post, variables)))
      && (!(name in variables && variables[name] != "") && fallback.Some? ==>
           Substitute(text, variables) == pre + (Strip(fallback.value) + Substitute(post, variables)))
      && (!(name in variables && variables[name] != "") && fallback.None? ==>
           Substitute(text, variables) == pre + Substitute(post, variables))
  {
    var s := Spelled(lead, name, trail, fallback);
    PlainText(pre, s + post, variables);
    SpellingMatches(lead, name, trail, fallback, post);
    assert (s + post)[|s|..] == post && s + post != "";
    hide Strip, MatchPlaceholder, Spelled;
    SubstituteStep(s + post, Placeholder(name, fallback, |s|), post, variables);
  }

  lemma SubstituteStep(text: string, p: Placeholder, post: string, variables: map<string, string>)
    requires text != "" && MatchPlaceholder(text) == Some(p) && text[p.length..] == post
    ensures TemplateVariables(text) == {p.name} + TemplateVariables(post)
    ensures p.name in variables && variables[p.name] != "" ==>
      Substitute(text, variables) == variables[p.name] + Substitute(post, variables)
    ensures !(p.name in variables && variables[p.name] != "") && p.fallback.Some? ==>
      Substitute(text, variables) == Strip(p.fallback.value) + Substitute(post, variables)
    ensures !(p.name in variables && variables[p.name] != "") && p.fallback.None? ==>
      Substitute(text, variables) == Substitute(post, variables)
  {
    hide Strip;
    assert "" + Substitute(post, variables) == Substitute(post, variables);
  }

  /** A whole text of one placeholder renders to that text, as long as it has no pair of braces for the second pass to
      take away. */
  lemma OnePlaceholder(lead: string, name: string, trail: string, fallback: Option<string>,
                       variables: map<string, string>)
    requires IsBlank(lead) && IsName(name) && IsBlank(trail) && (fallback.Some? ==> '}' !in fallback.value)
    ensures
      var shown := if name in variables && variables[name] != "" then variables[name]
                   else if fallback.Some? then Strip(fallback.value) else "";
      PairFree(shown, '{') ==> Render(Spelled(lead, name, trail, fallback), variables) == shown
  {
    var s := Spelled(lead, name, trail, fallback);
    var shown := if name in variables && variables[name] != "" then variables[name]
                 else if fallback.Some? then Strip(fallback.value) else "";
    PlaceholderRendered("", lead, name, trail, fallback, "", variables);
    assert "" + (s + "") == s;
    hide Strip, Spelled;
    assert Substitute("", variables) == "";
    assert "" + (shown + "") == shown;
    assert Substitute(s, variables) == shown;
    if PairFree(shown, '{') { DropBracesKeeps(shown); }
  }

  // ---------------------------------------------------------------- what counts as malformed

  ghost predicate WholePlaceholder(s: string) {
    exists name, fallback :: IsPlaceholder(s, Placeholder(name, fallback, |s|))
  }

  lemma WholeMatch(s: string)
    ensures WholePlaceholder(s) <==> MatchPlaceholder(s).Some? && MatchPlaceholder(s).value.length == |s|
  {
    hide IsPlaceholder, MatchPlaceholder;
    if WholePlaceholder(s) {
      var name, fallback :| IsPlaceholder(s, Placeholder(name, fallback, |s|));
      MatchIff(s, Placeholder(name, fallback, |s|));
    }
    if MatchPlaceholder(s).Some? && MatchPlaceholder(s).value.length == |s| {
      var p := MatchPlaceholder(s).value;
      MatchIff(s, p);
      assert p == Placeholder(p.name, p.fallback, |s|);
    }
  }

  lemma {:induction false} PlainNotMalformed(pre: string, post: string)
    requires '{' !in pre
    ensures MalformedTemplates(pre + post) == MalformedTemplates(post)
  {
    if pre == "" {
      assert pre + post == post;
    } else {
      assert (pre + post)[0] == pre[0] && (pre + post)[1..] == pre[1..] + post;
      PlainNotMalformed(pre[1..], post);
    }
  }

  /** The chunks reported are those the catch-all pattern takes that are not, as a whole, a placeholder written out. */
  lemma MalformedAt(pre: string, text: string)
    requires '{' !in pre && OpensAt(text)
    ensures
      var n := ChunkLength(text);
      MalformedTemplates(pre + text)
        == (if WholePlaceholder(text[..n]) then [] else [text[..n]]) + MalformedTemplates(text[n..])
  {
    PlainNotMalformed(pre, text);
    hide MatchPlaceholder, ChunkLength, WholePlaceholder;
    WholeMatch(text[..ChunkLength(text)]);
  }
}

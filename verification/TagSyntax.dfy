/**
 What a directive tag looks like and which directive it yields, said without the scanners: the tag is written out with
 its attributes, and so is the directive.
 */
module TagSyntax {
  import opened Text
  import opened Directives

  predicate IsTagText(n: string) { n != "" && forall i :: 0 <= i < |n| ==> IsTagName(n[i]) }

  /** What may follow the name: anything without a closing bracket that does not go on with the name. */
  predicate IsRest(attrs: string) { ']' !in attrs && (attrs != "" ==> !IsTagName(attrs[0])) }

  ghost predicate IsTag(s: string, n: nat, t: Tag) {
    n <= |s| && IsTagText(t.name) && IsRest(t.attrs) && s[..n] == "[[" + t.name + t.attrs + "]]"
  }

  lemma NameEndIs(s: string, i: nat, k: nat)
    requires i <= k <= |s| && (forall j :: i <= j < k ==> IsTagName(s[j])) && (k < |s| ==> !IsTagName(s[k]))
    ensures NameEnd(s, i) == k
    decreases k - i
  {
    hide IsTagName;
  }

  lemma {:induction false} NameEndNames(s: string, i: nat)
    requires i <= |s|
    ensures forall j :: i <= j < NameEnd(s, i) ==> IsTagName(s[j])
    ensures NameEnd(s, i) < |s| ==> !IsTagName(s[NameEnd(s, i)])
    decreases |s| - i
  {
    hide IsTagName;
    if i < |s| && IsTagName(s[i]) { NameEndNames(s, i + 1); }
  }

  lemma BracketIs(s: string, i: nat, k: nat)
    requires i <= k < |s| && s[k] == ']' && forall j :: i <= j < k ==> s[j] != ']'
    ensures FindBracket(s, i) == k
    decreases k - i
  {}

  lemma TagParts(s: string, n: nat, t: Tag)
    requires IsTag(s, n, t)
    ensures
      var e := 2 + |t.name|;
      && n == e + |t.attrs| + 2 && s[..2] == "[[" && s[2..e] == t.name && s[e..n - 2] == t.attrs
      && s[n - 2] == ']' && s[n - 1] == ']'
  {
    var w, e := s[..n], 2 + |t.name|;
    assert w[..2] == "[[" && w[2..e] == t.name && w[e..n - 2] == t.attrs && w[n - 2] == ']' && w[n - 1] == ']';
  }

  /** Whatever starts like a tag is met as that tag. */
  lemma TagMet(s: string, n: nat, t: Tag)
    requires IsTag(s, n, t)
    ensures TagLength(s) == n && TagAt(s) == t
  {
    TagParts(s, n, t);
    var e := 2 + |t.name|;
    assert forall j :: 2 <= j < e ==> s[j] == t.name[j - 2];
    assert forall j :: e <= j < n - 2 ==> s[j] == t.attrs[j - e];
    assert s[0] == s[..2][0] && s[1] == s[..2][1];
    BracketIs(s, 2, n - 2);
    assert TagLength(s) == n;
    var w := s[..n - 2];
    assert forall j :: 2 <= j < e ==> w[j] == s[j];
    assert e < |w| ==> w[e] == t.attrs[0];
    NameEndIs(w, 2, e);
    assert s[2..e] == t.name && s[e..n - 2] == t.attrs;
  }

  /** And whatever is met as a tag starts like it. */
  lemma MetTagIs(s: string)
    requires TagLength(s) > 0
    ensures IsTag(s, TagLength(s), TagAt(s))
  {
    var n := TagLength(s);
    var w := s[..n - 2];
    var e := NameEnd(w, 2);
    NameEndNames(w, 2);
    assert e > 2 by { assert w[2] == s[2]; }
    var t := TagAt(s);
    assert forall i :: 0 <= i < |t.name| ==> t.name[i] == w[2 + i];
    assert t.attrs != "" ==> t.attrs[0] == w[e];
    assert forall i :: 0 <= i < |t.attrs| ==> t.attrs[i] == s[e + i];
    assert s[..n] == s[..2] + s[2..e] + s[e..n - 2] + s[n - 2..n];
    assert s[..2] == "[[" && s[n - 2..n] == "]]";
  }

  /** A tag is two brackets, capital letters and underscores, attributes without a closing bracket, two brackets; and
      every text that starts that way is met as that tag. */
  lemma TagIff(s: string, n: nat, t: Tag)
    ensures (n > 0 && TagLength(s) == n && TagAt(s) == t) <==> IsTag(s, n, t)
  {
    hide TagLength, TagAt;
    if n > 0 && TagLength(s) == n && TagAt(s) == t { MetTagIs(s); }
    if IsTag(s, n, t) { TagMet(s, n, t); }
  }

  // ---------------------------------------------------------------- attributes

  datatype Attribute = Attribute(name: string, value: string)

  predicate IsAttribute(a: Attribute) {
    a.name != "" && (forall i :: 0 <= i < |a.name| ==> IsWord(a.name[i])) && '"' !in a.value
  }

  /** Attributes as a model writes them: each behind a blank, with its value in quotes. */
  function AttributeText(attrs: seq<Attribute>): string {
    if attrs == [] then ""
    else " " + (attrs[0].name + "=\"" + attrs[0].value + "\"") + AttributeText(attrs[1..])
  }

  lemma WordEndIs(s: string, k: nat, i: nat)
    requires i <= k < |s| && (forall j :: i <= j < k ==> IsWord(s[j])) && !IsWord(s[k])
    ensures WordEnd(s, i) == k
    decreases k - i
  {
    hide IsWord;
  }

  lemma QuoteIs(s: string, i: nat, k: nat)
    requires i <= k < |s| && s[k] == '"' && forall j :: i <= j < k ==> s[j] != '"'
    ensures FindQuote(s, i) == k
    decreases k - i
  {}

  lemma AttributeParts(a: Attribute, rest: string, s: string)
    requires s == a.name + "=\"" + a.value + "\"" + rest
    ensures
      var j := |a.name|;
      var k := j + 2 + |a.value|;
      && k < |s| && s[..j] == a.name && s[j] == '=' && s[j + 1] == '"' && s[j + 2..k] == a.value && s[k] == '"'
      && s[k + 1..] == rest
  {}

  /** One attribute at the front is read as written. */
  lemma AttributeRead(a: Attribute, rest: string)
    requires IsAttribute(a)
    ensures Attributes(a.name + "=\"" + a.value + "\"" + rest) == map[a.name := a.value] + Attributes(rest)
  {
    hide IsWord, Attributes;
    var s := a.name + "=\"" + a.value + "\"" + rest;
    AttributeParts(a, rest, s);
    AttributeAt(s, |a.name|, |a.name| + 2 + |a.value|);
  }

  lemma AttributeAt(s: string, j: nat, k: nat)
    requires 0 < j && j + 2 <= k < |s| && s[j] == '=' && s[j + 1] == '"' && s[k] == '"'
    requires (forall i :: 0 <= i < |s[..j]| ==> IsWord(s[..j][i])) && '"' !in s[j + 2..k]
    ensures Attributes(s) == map[s[..j] := s[j + 2..k]] + Attributes(s[k + 1..])
  {
    assert !IsWord('=');
    hide IsWord, Attributes;
    assert forall i :: 0 <= i < j ==> s[i] == s[..j][i];
    assert forall i :: j + 2 <= i < k ==> s[i] == s[j + 2..k][i - j - 2];
    WordEndIs(s, j, 0);
    QuoteIs(s, j + 2, k);
    AttributesStep(s, j, k);
  }

  lemma AttributesStep(s: string, j: nat, k: nat)
    requires 0 < j && j + 2 <= k < |s| && s[j] == '=' && s[j + 1] == '"'
    requires WordEnd(s, 0) == j && FindQuote(s, j + 2) == k
    ensures Attributes(s) == map[s[..j] := s[j + 2..k]] + Attributes(s[k + 1..])
  {
    hide WordEnd, FindQuote;
  }

  lemma BlankSkipped(rest: string)
    ensures Attributes(" " + rest) == Attributes(rest)
  {
    var s := " " + rest;
    assert s[0] == ' ' && s[1..] == rest && !IsWord(' ');
    assert WordEnd(s, 0) == 0;
  }

  /** The attribute stands at `i`, and its name does not come again. */
  ghost predicate LastOf(attrs: seq<Attribute>, i: int, a: Attribute) {
    0 <= i < |attrs| && attrs[i] == a && forall j :: i < j < |attrs| ==> attrs[j].name != a.name
  }

  /** Every attribute written is read, a later one of the same name winning, and nothing else is. */
  lemma {:induction false} AttributesRead(attrs: seq<Attribute>, key: string)
    requires forall i :: 0 <= i < |attrs| ==> IsAttribute(attrs[i])
    ensures
      var read := Attributes(AttributeText(attrs));
      && (key in read <==> exists i :: 0 <= i < |attrs| && attrs[i].name == key)
      && (key in read ==> exists i :: LastOf(attrs, i, Attribute(key, read[key])))
  {
    if attrs != [] {
      var a, rest := attrs[0], attrs[1..];
      AttributesRead(rest, key);
      var one := a.name + "=\"" + a.value + "\"";
      assert AttributeText(attrs) == " " + (one + AttributeText(rest));
      BlankSkipped(one + AttributeText(rest));
      AttributeRead(a, AttributeText(rest));
      hide Attributes, AttributeText, IsAttribute;
      assert forall i :: 0 <= i < |rest| ==> rest[i] == attrs[i + 1];
      var later := Attributes(AttributeText(rest));
      if key in later {
        var i :| LastOf(rest, i, Attribute(key, later[key]));
        forall j | i + 1 < j < |attrs| ensures attrs[j].name != key { assert attrs[j] == rest[j - 1]; }
        assert LastOf(attrs, i + 1, Attribute(key, later[key]));
      } else {
        forall j | 0 < j < |attrs| ensures attrs[j].name != key { assert attrs[j] == rest[j - 1]; }
        if a.name == key { assert LastOf(attrs, 0, Attribute(key, a.value)); }
      }
    }
  }

  ghost predicate DistinctNames(attrs: seq<Attribute>) {
    forall i, j :: 0 <= i < j < |attrs| ==> attrs[i].name != attrs[j].name
  }

  ghost predicate Given(attrs: seq<Attribute>, name: string, value: string) {
    exists i :: 0 <= i < |attrs| && attrs[i] == Attribute(name, value)
  }

  ghost predicate NotGiven(attrs: seq<Attribute>, name: string) {
    forall i :: 0 <= i < |attrs| ==> attrs[i].name != name
  }

  lemma ReadWritten(attrs: seq<Attribute>, key: string, default: string)
    requires (forall i :: 0 <= i < |attrs| ==> IsAttribute(attrs[i])) && DistinctNames(attrs)
    ensures
      var read := GetOr(Attributes(AttributeText(attrs)), key, default);
      (forall value :: Given(attrs, key, value) ==> read == value) && (NotGiven(attrs, key) ==> read == default)
  {
    AttributesRead(attrs, key);
    hide IsAttribute, Attributes, AttributeText;
  }

  lemma TransferParts(attrs: string)
    ensures
      var d, read := Build(Tag("TRANSFER", attrs)), Attributes(attrs);
      d == Transfer(CoerceTransferType(GetOr(read, "type", "none")), GetOr(read, "destination", ""),
                    GetOr(read, "reason", ""))
  {
    hide Attributes, GetOr, CoerceTransferType;
  }

  lemma TransferType(attrs: seq<Attribute>, raw: string)
    requires forall value :: Given(attrs, "type", value) ==> raw == value
    requires NotGiven(attrs, "type") ==> raw == "none"
    ensures Given(attrs, "type", "warm") ==> CoerceTransferType(raw) == Warm
    ensures Given(attrs, "type", "cold") ==> CoerceTransferType(raw) == Cold
    ensures forall value :: Given(attrs, "type", value) && value != "warm" && value != "cold" ==>
      CoerceTransferType(raw) == NoTransfer
    ensures NotGiven(attrs, "type") ==> CoerceTransferType(raw) == NoTransfer
  {
    hide Given, NotGiven;
  }

  /** A transfer tag with its attributes in any order yields the destination, reason and type written in it: warm or
      cold, and otherwise no type; a missing destination or reason is empty. */
  lemma TransferBuilt(attrs: seq<Attribute>)
    requires (forall i :: 0 <= i < |attrs| ==> IsAttribute(attrs[i])) && DistinctNames(attrs)
    ensures
      var d := Build(Tag("TRANSFER", AttributeText(attrs)));
      && d.Transfer?
      && (forall value :: Given(attrs, "destination", value) ==> d.destination == value)
      && (NotGiven(attrs, "destination") ==> d.destination == "")
      && (forall value :: Given(attrs, "reason", value) ==> d.reason == value)
      && (NotGiven(attrs, "reason") ==> d.reason == "")
      && (Given(attrs, "type", "warm") ==> d.kind == Warm)
      && (Given(attrs, "type", "cold") ==> d.kind == Cold)
      && (forall value :: Given(attrs, "type", value) && value != "warm" && value != "cold" ==> d.kind == NoTransfer)
      && (NotGiven(attrs, "type") ==> d.kind == NoTransfer)
  {
    var read := AttributeText(attrs);
    ReadWritten(attrs, "destination", "");
    ReadWritten(attrs, "reason", "");
    ReadWritten(attrs, "type", "none");
    hide IsAttribute, Attributes, AttributeText, DistinctNames, Given, NotGiven, GetOr, Build, CoerceTransferType;
    TransferParts(read);
    TransferType(attrs, GetOr(Attributes(read), "type", "none"));
  }

  /** The other tags: one ends the call, and any other keeps its name and attributes. */
  lemma OthersBuilt(t: Tag)
    ensures Build(t).EndCall? <==> t.name == "END_CALL"
    ensures Build(t).Transfer? <==> t.name == "TRANSFER"
    ensures t.name != "END_CALL" && t.name != "TRANSFER" ==> Build(t) == Unknown(t.name, Attributes(t.attrs))
  {}

  // ---------------------------------------------------------------- a whole text

  lemma {:induction false} PlainBefore(pre: string, post: string)
    requires '[' !in pre
    ensures Untagged(pre + post) == pre + Untagged(post) && Tags(pre + post) == Tags(post)
  {
    if pre == "" {
      assert pre + post == post;
    } else {
      var s := pre + post;
      assert s[0] == pre[0] && s[1..] == pre[1..] + post;
      PlainBefore(pre[1..], post);
      assert TagLength(s) == 0;
      assert pre == [pre[0]] + pre[1..];
    }
  }

  /** A tag in a text is taken out of it and heard, whatever stands around it. */
  lemma TagTakenOut(pre: string, t: Tag, post: string)
    requires '[' !in pre && IsTagText(t.name) && IsRest(t.attrs)
    ensures
      var s := pre + (("[[" + t.name + t.attrs + "]]") + post);
      Untagged(s) == pre + Untagged(post) && Tags(s) == [t] + Tags(post)
  {
    var w := "[[" + t.name + t.attrs + "]]";
    PlainBefore(pre, w + post);
    assert (w + post)[..|w|] == w && (w + post)[|w|..] == post && w + post != "";
    TagMet(w + post, |w|, t);
    hide TagLength, TagAt;
  }

  // ---------------------------------------------------------------- what the stream buffer holds back

  predicate OpensHere(s: string, q: nat) { q + 2 <= |s| && s[q] == '[' && s[q + 1] == '[' }

  /** The text from `q` on may still become a tag: it opens one, the last of the text, and nothing closes it. */
  ghost predicate StillOpen(s: string, q: nat) {
    && OpensHere(s, q) && !HasClose(s[q..])
    && forall j: nat :: q < j ==> !OpensHere(s, j)
  }

  /** The buffer holds back exactly the text from the last opening on, if it is not closed, and otherwise nothing. */
  lemma HeldBack(pending: string, n: nat)
    ensures SafeLength(pending) == n <==>
      StillOpen(pending, n) || (n == |pending| && forall q: nat :: !StillOpen(pending, q))
  {
    var q := LastOpen(pending);
    hide HasClose;
    forall j: nat | q < j ensures !OpensHere(pending, j) {}
    if q >= 0 {
      assert OpensHere(pending, q);
      assert StillOpen(pending, q) <==> !HasClose(pending[q..]);
    }
    forall r: nat | StillOpen(pending, r) ensures r == q {
      assert OpensHere(pending, r);
    }
    hide LastOpen, OpensHere;
  }
}

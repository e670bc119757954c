/** Character classes and string helpers shared by the scanners, following Python's `str`. */
module Text {

  datatype Option<+T> = None | Some(value: T)

  /** Whitespace as Python's `\s` and `str.strip()` see it. */
  predicate IsSpace(c: char) {
    || '\U{0009}' <= c <= '\U{000D}'
    || '\U{001C}' <= c <= '\U{0020}'
    || c == '\U{0085}' || c == '\U{00A0}' || c == '\U{1680}'
    || '\U{2000}' <= c <= '\U{200A}'
    || c == '\U{2028}' || c == '\U{2029}' || c == '\U{202F}' || c == '\U{205F}' || c == '\U{3000}'
  }

  predicate IsUpper(c: char) { 'A' <= c <= 'Z' }

  predicate IsLower(c: char) { 'a' <= c <= 'z' }

  predicate IsDigit(c: char) { '0' <= c <= '9' }

  predicate IsIdentStart(c: char) { IsUpper(c) || IsLower(c) || c == '_' }

  predicate IsIdent(c: char) { IsIdentStart(c) || IsDigit(c) }

  /** The two-character text "cc" does not occur in `s`. */
  ghost predicate PairFree(s: string, c: char) {
    forall i {:trigger s[i]} :: 0 <= i < |s| - 1 && s[i] == c ==> s[i + 1] != c
  }

  /** The first position at or after `i` that is not white space. */
  function SpaceEnd(s: string, i: nat): (k: nat)
    requires i <= |s|
    ensures i <= k <= |s| && (k < |s| ==> !IsSpace(s[k]))
    decreases |s| - i
  {
    if i < |s| && IsSpace(s[i]) then SpaceEnd(s, i + 1) else i
  }

  /** The end of `s[i..j]` without the white space it ends in. */
  function SpaceStart(s: string, i: nat, j: nat): (k: nat)
    requires i <= j <= |s|
    ensures i <= k <= j && (i < k ==> !IsSpace(s[k - 1]))
    decreases j
  {
    if i < j && IsSpace(s[j - 1]) then SpaceStart(s, i, j - 1) else j
  }

  function Strip(s: string): (r: string)
    ensures |r| <= |s|
    ensures r != "" ==> !IsSpace(r[0]) && !IsSpace(r[|r| - 1])
  {
    s[SpaceEnd(s, 0)..SpaceStart(s, SpaceEnd(s, 0), |s|)]
  }

  predicate IsBlank(s: string) { forall i :: 0 <= i < |s| ==> IsSpace(s[i]) }

  /** Stripping takes away the white space around a text and nothing else. */
  lemma StripExact(lead: string, s: string, trail: string)
    requires IsBlank(lead) && IsBlank(trail) && (s != "" ==> !IsSpace(s[0]) && !IsSpace(s[|s| - 1]))
    ensures Strip(lead + s + trail) == s
  {
    var t := lead + s + trail;
    hide IsSpace;
    assert forall i :: 0 <= i < |lead| ==> t[i] == lead[i];
    assert forall i :: 0 <= i < |s| ==> t[|lead| + i] == s[i];
    assert forall i :: 0 <= i < |trail| ==> t[|lead| + |s| + i] == trail[i];
    if s == "" {
      SpaceEndIs(t, 0, |t|);
    } else {
      SpaceEndIs(t, 0, |lead|);
      SpaceStartIs(t, |lead|, |t|, |lead| + |s|);
    }
  }

  lemma SpaceEndIs(s: string, i: nat, k: nat)
    requires i <= k <= |s| && (forall j :: i <= j < k ==> IsSpace(s[j])) && (k < |s| ==> !IsSpace(s[k]))
    ensures SpaceEnd(s, i) == k
    decreases k - i
  {
    hide IsSpace;
  }

  lemma SpaceStartIs(s: string, i: nat, j: nat, k: nat)
    requires i < k <= j <= |s| && (forall n :: k <= n < j ==> IsSpace(s[n])) && !IsSpace(s[k - 1])
    ensures SpaceStart(s, i, j) == k
    decreases j - k
  {
    hide IsSpace;
  }

  /** The concatenation of `parts`, in order. */
  function Concat(parts: seq<string>): string {
    if parts == [] then "" else parts[0] + Concat(parts[1..])
  }

  lemma TakeSnoc<T>(s: seq<T>, k: nat)
    requires k < |s|
    ensures s[..k + 1] == s[..k] + [s[k]]
    ensures s[k] in s
  {}

  lemma TakeAll<T>(s: seq<T>)
    ensures s[..|s|] == s
  {}

  lemma DropDrop<T>(s: seq<T>, n: nat, m: nat)
    requires n + m <= |s|
    ensures s[n..][m..] == s[n + m..]
  {}
}

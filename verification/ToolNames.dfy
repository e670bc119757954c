/**
 The names an agent calls connections by: the runs of letters and digits of the lowered label, joined by single
 underscores.
 */
module ToolNames {
  import opened Text
  import opened Validation

  function RunEnd(s: string, i: nat): (k: nat)
    requires i <= |s|
    ensures i <= k <= |s| && (forall j :: i <= j < k ==> IsSlug(s[j])) && (k < |s| ==> !IsSlug(s[k]))
    decreases |s| - i
  {
    if i < |s| && IsSlug(s[i]) then RunEnd(s, i + 1) else i
  }

  /** The longest runs of letters and digits, in order. */
  function Runs(s: string): (runs: seq<string>)
    ensures forall i :: 0 <= i < |runs| ==> IsRun(runs[i])
    decreases |s|
  {
    if s == "" then []
    else if !IsSlug(s[0]) then Runs(s[1..])
    else
      var k := RunEnd(s, 0);
      assert forall j :: 0 <= j < k ==> s[..k][j] == s[j];
      [s[..k]] + Runs(s[k..])
  }

  predicate IsRun(r: string) { r != "" && forall i :: 0 <= i < |r| ==> IsSlug(r[i]) }

  function Underscored(runs: seq<string>): string {
    if runs == [] then "" else if |runs| == 1 then runs[0] else runs[0] + "_" + Underscored(runs[1..])
  }

  // ---------------------------------------------------------------- collapsing

  lemma {:induction false} CollapseRun(run: string, rest: string)
    requires forall i :: 0 <= i < |run| ==> IsSlug(run[i])
    ensures Collapse(run + rest) == run + Collapse(rest)
    decreases |run|
  {
    if run == "" {
      assert run + rest == rest;
    } else {
      var s := run + rest;
      assert s[0] == run[0] && s[1..] == run[1..] + rest;
      CollapseRun(run[1..], rest);
      assert run == [run[0]] + run[1..];
    }
  }

  lemma {:induction false} DropKeepsRuns(s: string)
    ensures Runs(DropNonSlug(s)) == Runs(s)
    ensures DropNonSlug(s) != "" ==> IsSlug(DropNonSlug(s)[0])
    decreases |s|
  {
    if s != "" && !IsSlug(s[0]) { DropKeepsRuns(s[1..]); }
  }

  /** Collapsed, a text that starts with a letter or digit is its runs joined, with an underscore behind if something
      else comes last. */
  lemma {:induction false} CollapseRuns(s: string)
    requires s == "" || IsSlug(s[0])
    ensures Collapse(s) == Underscored(Runs(s)) || Collapse(s) == Underscored(Runs(s)) + "_"
    ensures s == "" ==> Collapse(s) == ""
    decreases |s|
  {
    if s != "" {
      var k := RunEnd(s, 0);
      var run, rest := s[..k], s[k..];
      assert s == run + rest;
      assert forall i :: 0 <= i < k ==> run[i] == s[i];
      CollapseRun(run, rest);
      if rest == "" {
        assert Runs(s) == [run] && Collapse(s) == run + "";
      } else {
        assert !IsSlug(rest[0]);
        var next := DropNonSlug(rest[1..]);
        assert Collapse(rest) == "_" + Collapse(next);
        DropKeepsRuns(rest[1..]);
        assert Runs(rest) == Runs(next);
        CollapseRuns(next);
        RunThenRest(s, run, next);
      }
    }
  }

  lemma RunThenRest(s: string, run: string, next: string)
    requires Runs(s) == [run] + Runs(next) && Collapse(s) == run + ("_" + Collapse(next))
    requires Collapse(next) == Underscored(Runs(next)) || Collapse(next) == Underscored(Runs(next)) + "_"
    requires next == "" || Runs(next) != []
    requires next == "" ==> Collapse(next) == "" && Runs(next) == []
    ensures Collapse(s) == Underscored(Runs(s)) || Collapse(s) == Underscored(Runs(s)) + "_"
  {
    hide Runs, Collapse;
    assert ([run] + Runs(next))[1..] == Runs(next);
  }

  // ---------------------------------------------------------------- trimming

  lemma {:induction false} UnderscoredEnds(runs: seq<string>)
    requires runs != [] && forall i :: 0 <= i < |runs| ==> IsRun(runs[i])
    ensures
      var u := Underscored(runs);
      u != "" && IsSlug(u[0]) && IsSlug(u[|u| - 1])
  {
    if |runs| > 1 {
      assert forall i :: 0 <= i < |runs[1..]| ==> runs[1..][i] == runs[i + 1];
      UnderscoredEnds(runs[1..]);
    }
  }

  lemma TrimNone(u: string)
    requires u == "" || (IsSlug(u[0]) && IsSlug(u[|u| - 1]))
    ensures TrimUnderscores(u) == u && TrimUnderscores(u + "_") == u
    ensures TrimUnderscores("_" + u) == u && TrimUnderscores("_" + (u + "_")) == u
  {
    assert (u + "_")[..|u|] == u && ("_" + u)[1..] == u && ("_" + (u + "_"))[1..] == u + "_";
    TrimBack(u);
  }

  lemma TrimBack(u: string)
    requires u == "" || (IsSlug(u[0]) && IsSlug(u[|u| - 1]))
    ensures TrimUnderscores(u) == u && TrimUnderscores(u + "_") == u
  {
    var v := u + "_";
    assert TrimUnderscores(u) == u;
    if u == "" {
      assert v[1..] == "";
    } else {
      assert v[0] == u[0] && v[|v| - 1] == '_' && v[..|v| - 1] == u;
    }
  }

  /** The name is the runs of letters and digits of the lowered label, joined by single underscores. */
  lemma ToolNameIs(labelText: string)
    ensures ToolName(labelText) == Underscored(Runs(Lower(labelText)))
  {
    var s := Lower(labelText);
    hide Lower;
    var core := if s != "" && !IsSlug(s[0]) then DropNonSlug(s[1..]) else s;
    if s != "" && !IsSlug(s[0]) { DropKeepsRuns(s[1..]); }
    CollapseRuns(core);
    var u := Underscored(Runs(s));
    assert Runs(core) == Runs(s);
    if Runs(s) != [] { UnderscoredEnds(Runs(s)); }
    TrimNone(u);
    assert Collapse(s) == if s != "" && !IsSlug(s[0]) then "_" + Collapse(core) else Collapse(core);
  }

  // ---------------------------------------------------------------- what that means for labels

  lemma RunNotShorter(a: string, b: string, x: string, y: string)
    requires IsRun(b) && a + x == b + y && (x == "" || x[0] == '_')
    ensures |b| <= |a|
  {
    var s := a + x;
    assert |s| == |a| + |x| && |s| == |b| + |y|;
    assert forall i :: 0 <= i < |b| ==> s[i] == b[i] by { assert s == b + y; }
    assert x != "" ==> s[|a|] == '_';
  }

  lemma RunPrefix(a: string, b: string, x: string, y: string)
    requires IsRun(a) && IsRun(b) && a + x == b + y
    requires (x == "" || x[0] == '_') && (y == "" || y[0] == '_')
    ensures a == b && x == y
  {
    RunNotShorter(a, b, x, y);
    RunNotShorter(b, a, y, x);
    assert (a + x)[..|a|] == a && (a + x)[|a|..] == x && (b + y)[..|b|] == b && (b + y)[|b|..] == y;
  }

  lemma UnderscoredHead(runs: seq<string>)
    requires runs != []
    ensures Underscored(runs) == runs[0] + (if |runs| == 1 then "" else "_" + Underscored(runs[1..]))
  {
    assert runs[0] + "" == runs[0];
  }

  lemma {:induction false} UnderscoredUnique(a: seq<string>, b: seq<string>)
    requires (forall i :: 0 <= i < |a| ==> IsRun(a[i])) && (forall i :: 0 <= i < |b| ==> IsRun(b[i]))
    requires Underscored(a) == Underscored(b)
    ensures a == b
    decreases |a|
  {
    assert Underscored([]) == "";
    hide Underscored, IsRun;
    if a != [] { UnderscoredEnds(a); }
    if b != [] { UnderscoredEnds(b); }
    if a != [] && b != [] {
      var x := if |a| == 1 then "" else "_" + Underscored(a[1..]);
      var y := if |b| == 1 then "" else "_" + Underscored(b[1..]);
      UnderscoredHead(a);
      UnderscoredHead(b);
      RunPrefix(a[0], b[0], x, y);
      if |a| > 1 && |b| > 1 {
        assert Underscored(a[1..]) == x[1..] && Underscored(b[1..]) == y[1..];
        assert forall i :: 0 <= i < |a[1..]| ==> a[1..][i] == a[i + 1];
        assert forall i :: 0 <= i < |b[1..]| ==> b[1..][i] == b[i + 1];
        UnderscoredUnique(a[1..], b[1..]);
      }
      assert a == [a[0]] + a[1..] && b == [b[0]] + b[1..];
    }
  }

  lemma {:induction false} NoRuns(s: string)
    ensures Runs(s) == [] <==> forall i :: 0 <= i < |s| ==> !IsSlug(s[i])
    decreases |s|
  {
    if s != "" && !IsSlug(s[0]) {
      NoRuns(s[1..]);
      assert forall i :: 1 <= i < |s| ==> s[i] == s[1..][i - 1];
      assert forall i :: 0 <= i < |s[1..]| ==> s[1..][i] == s[i + 1];
    }
  }

  /** Two labels look the same to the agent exactly when their runs of letters and digits agree; and a label has no name
      exactly when, lowered, it has neither a letter nor a digit. */
  lemma SharedNames(a: string, b: string)
    ensures ToolName(a) == ToolName(b) <==> Runs(Lower(a)) == Runs(Lower(b))
    ensures ToolName(a) == "" <==> forall i :: 0 <= i < |Lower(a)| ==> !IsSlug(Lower(a)[i])
  {
    ToolNameIs(a);
    ToolNameIs(b);
    NoRuns(Lower(a));
    if ToolName(a) == ToolName(b) { UnderscoredUnique(Runs(Lower(a)), Runs(Lower(b))); }
    if Runs(Lower(a)) != [] { UnderscoredEnds(Runs(Lower(a))); }
    hide ToolName, Lower;
  }
}

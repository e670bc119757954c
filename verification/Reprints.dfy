/**
 A value that is not fixed has an equal one that prints differently: a number as an integer or a float, a
 boolean as a number, a dictionary with two of its keys the other way round, and so on inside.
 */
module Reprints {
  import opened Text
  import opened Ordering
  import opened Sets
  import opened Json

  // ---------------------------------------------------------------- numbers

  predicate Numeral(c: char) { IsDigit(c) || c == '-' }

  predicate Marked(s: string) { exists i :: 0 <= i < |s| && (s[i] == '.' || s[i] == 'e') }

  lemma IntTextNumerals(n: int)
    ensures IntText(n) != "" && (forall i :: 0 <= i < |IntText(n)| ==> Numeral(IntText(n)[i]))
    ensures IsDigit(IntText(n)[|IntText(n)| - 1])
  {}

  lemma MarkedInside(a: string, c: char, b: string)
    requires c == '.' || c == 'e'
    ensures Marked(a + [c] + b)
  {
    assert (a + [c] + b)[|a|] == c;
  }

  /** Starts with a digit or a sign, ends with a digit, and has a point or an exponent. */
  ghost predicate LooksLikeFloat(s: string) {
    s != "" && Numeral(s[0]) && IsDigit(s[|s| - 1]) && Marked(s)
  }

  lemma PlacesLooks(head: string, p: Places)
    requires head != "" && Numeral(head[0])
    ensures LooksLikeFloat(head + PlacesText(p))
  {
    var tail := Zeros(p.zeros) + NatText(p.digits);
    assert head + PlacesText(p) == head + ['.'] + tail;
    MarkedInside(head, '.', tail);
  }

  lemma ExponentLooks(head: string, e: int)
    requires head != "" && Numeral(head[0])
    ensures LooksLikeFloat(head + (if e < 0 then "e-" + Padded(-e) else "e+" + Padded(e)))
  {
    var tail := if e < 0 then "-" + Padded(-e) else "+" + Padded(e);
    var text := if e < 0 then "e-" + Padded(-e) else "e+" + Padded(e);
    assert text == ['e'] + tail;
    assert head + text == head + ['e'] + tail;
    MarkedInside(head, 'e', tail);
  }

  lemma SignedNumeral(sign: string, n: nat)
    requires sign == "" || sign == "-"
    ensures sign + NatText(n) != "" && Numeral((sign + NatText(n))[0])
  {
    assert (sign + NatText(n))[0] == if sign == "" then NatText(n)[0] else '-';
  }

  lemma Assoc(a: string, b: string, c: string)
    ensures a + (b + c) == a + b + c
  {}

  lemma NotationLooks(n: Notation)
    ensures LooksLikeFloat(NotationText(n))
  {
    hide LooksLikeFloat, PlacesText, NatText, Padded, Numeral;
    var sign := if n.negative then "-" else "";
    match n {
      case Point(_, whole, places) =>
        SignedNumeral(sign, whole);
        PlacesLooks(sign + NatText(whole), places);
        Assoc(sign, NatText(whole), PlacesText(places));
      case Scientific(_, digit, more, e) =>
        var places := if more.Some? then PlacesText(more.value) else "";
        var tail := if e < 0 then "e-" + Padded(-e) else "e+" + Padded(e);
        var head := sign + (NatText(digit) + places);
        SignedNumeral(sign, digit);
        Assoc(sign, NatText(digit), places);
        assert head[0] == (sign + NatText(digit))[0];
        ExponentLooks(head, e);
        Assoc(sign, NatText(digit) + places, tail);
    }
  }

  lemma FloatLooks(x: real)
    ensures LooksLikeFloat(FloatText(x))
  {
    if Whole(x) && -1.0e16 < x < 1.0e16 {
      IntTextNumerals(x.Floor);
      assert IntText(x.Floor) + ".0" == IntText(x.Floor) + ['.'] + "0";
      MarkedInside(IntText(x.Floor), '.', "0");
    } else {
      NotationLooks(NOTATION(x));
    }
  }

  lemma FloatIsNoInt(x: real, n: int)
    ensures FloatText(x) != IntText(n)
  {
    FloatLooks(x);
    IntTextNumerals(n);
    var i :| 0 <= i < |FloatText(x)| && (FloatText(x)[i] == '.' || FloatText(x)[i] == 'e');
    assert FloatText(x) == IntText(n) ==> Numeral(FloatText(x)[i]);
  }

  lemma BoolIsNoInt(b: bool, n: int)
    ensures (if b then "True" else "False") != IntText(n)
  {
    IntTextNumerals(n);
  }

  // ---------------------------------------------------------------- quoted strings

  lemma EscapeShape(c: char, q: char)
    requires q == '\'' || q == '"'
    ensures Escape(c, q) != "" && Escape(c, q)[0] != q
    ensures Escape(c, q)[0] == '\\' ==> |Escape(c, q)| >= 2
  {}

  /** An escape is recognised by its first characters. */
  lemma EscapeUnique(c: char, d: char, q: char, x: string, y: string)
    requires q == '\'' || q == '"'
    requires Escape(c, q) + x == Escape(d, q) + y
    ensures c == d
  {
    var s, t := Escape(c, q) + x, Escape(d, q) + y;
    EscapeShape(c, q);
    EscapeShape(d, q);
    assert s[0] == Escape(c, q)[0] && t[0] == Escape(d, q)[0];
    if s[0] == '\\' {
      assert s[1] == Escape(c, q)[1] && t[1] == Escape(d, q)[1];
      if s[1] == 'x' {
        assert s[2] == Escape(c, q)[2] && s[3] == Escape(c, q)[3];
        assert t[2] == Escape(d, q)[2] && t[3] == Escape(d, q)[3];
        HexUnique(c, d);
      }
    }
  }

  lemma HexUnique(c: char, d: char)
    requires c as int < 256 && d as int < 256
    requires HexDigit(c as int / 16 % 16) == HexDigit(d as int / 16 % 16)
      && HexDigit(c as int % 16) == HexDigit(d as int % 16)
    ensures c == d
  {
    assert c as int == c as int / 16 * 16 + c as int % 16;
    assert d as int == d as int / 16 * 16 + d as int % 16;
  }

  lemma QuotedHead(s: string, q: char, x: string)
    requires q == '\'' || q == '"'
    ensures var u := Escaped(s, q) + [q] + x;
      u != "" && (u[0] == q <==> s == "")
  {
    if s != "" {
      EscapeShape(s[0], q);
      assert (Escaped(s, q) + [q] + x)[0] == Escape(s[0], q)[0];
    }
  }

  lemma QuotedRest(s: string, q: char, x: string)
    requires s != ""
    ensures Escaped(s, q) + [q] + x == Escape(s[0], q) + (Escaped(s[1..], q) + [q] + x)
  {
    hide Escape;
  }

  /** What stands between quotes is recognised before whatever follows. */
  lemma {:induction false} EscapedUnique(s: string, t: string, q: char, x: string, y: string)
    requires q == '\'' || q == '"'
    requires Escaped(s, q) + [q] + x == Escaped(t, q) + [q] + y
    ensures s == t
    decreases |s|
  {
    hide Escape, Escaped;
    QuotedHead(s, q, x);
    QuotedHead(t, q, y);
    if s != "" && t != "" {
      var x', y' := Escaped(s[1..], q) + [q] + x, Escaped(t[1..], q) + [q] + y;
      QuotedRest(s, q, x);
      QuotedRest(t, q, y);
      EscapeUnique(s[0], t[0], q, x', y');
      SameTail(Escape(s[0], q), x', y');
      EscapedUnique(s[1..], t[1..], q, x, y);
      assert s == [s[0]] + s[1..] && t == [t[0]] + t[1..];
    }
  }

  lemma SameTail(a: string, x: string, y: string)
    requires a + x == a + y
    ensures x == y
  {
    assert (a + x)[|a|..] == x && (a + y)[|a|..] == y;
  }

  lemma StrReprUnique(a: string, b: string, x: string, y: string)
    requires StrRepr(a) + x == StrRepr(b) + y
    ensures a == b
  {
    var u, v := StrRepr(a) + x, StrRepr(b) + y;
    assert u[0] == Quote(a) && v[0] == Quote(b);
    var q := Quote(a);
    assert u == [q] + (Escaped(a, q) + [q] + x) && v == [q] + (Escaped(b, q) + [q] + y);
    assert u[1..] == Escaped(a, q) + [q] + x && v[1..] == Escaped(b, q) + [q] + y;
    EscapedUnique(a, b, q, x, y);
  }

  // ---------------------------------------------------------------- joined texts

  lemma {:induction false} JoinReplaced(ts: seq<string>, i: nat, u: string)
    requires i < |ts| && u != ts[i]
    ensures Join(ts[i := u]) != Join(ts)
  {
    var us := ts[i := u];
    if |ts| > 1 {
      if i == 0 {
        var rest := ", " + Join(ts[1..]);
        assert us[1..] == ts[1..];
        assert Join(ts) == ts[0] + rest && Join(us) == u + rest by {
          Assoc(ts[0], ", ", Join(ts[1..]));
          Assoc(u, ", ", Join(ts[1..]));
        }
        SameHead(ts[0], u, rest);
      } else {
        JoinReplaced(ts[1..], i - 1, u);
        assert us[1..] == ts[1..][i - 1 := u] && us[0] == ts[0];
        var head := ts[0] + ", ";
        if Join(us) == Join(ts) { SameTail(head, Join(us[1..]), Join(ts[1..])); }
      }
    }
  }

  lemma SameHead(a: string, b: string, x: string)
    ensures a + x == b + x ==> a == b
  {
    assert |a + x| == |a| + |x| && |b + x| == |b| + |x|;
    assert (a + x)[..|a|] == a && (b + x)[..|b|] == b;
  }

  lemma Bracketed(open: string, a: string, b: string, close: string)
    requires open + a + close == open + b + close
    ensures a == b
  {
    SameHead(open + a, open + b, close);
    SameTail(open, a, b);
  }

  lemma JoinHead(ts: seq<string>)
    requires ts != []
    ensures exists x :: Join(ts) == ts[0] + x
  {
    assert ts[0] == ts[0] + "";
    assert |ts| > 1 ==> Join(ts) == ts[0] + (", " + Join(ts[1..]));
  }

  // ---------------------------------------------------------------- the other printing

  /** The keys with the first two the other way round. */
  function Swapped(keys: seq<string>): seq<string>
    requires |keys| >= 2
  {
    [keys[1], keys[0]] + keys[2..]
  }

  lemma SwappedIsOrder(r: seq<string>, keys: set<string>)
    requires IsOrderOf(r, keys) && |r| >= 2
    ensures IsOrderOf(Swapped(r), keys)
  {
    var t := Swapped(r);
    assert r == [r[0], r[1]] + r[2..];
    forall i | 0 <= i < |t| ensures t[i] == if i == 0 then r[1] else if i == 1 then r[0] else r[i] {}
    forall k ensures k in t <==> k in r {
      assert t[0] == r[1] && t[1] == r[0];
    }
  }

  ghost function Unfixed(items: seq<Json>, o: Origin): (i: nat)
    requires exists i :: 0 <= i < |items| && !Fixed(items[i], o)
    ensures i < |items| && !Fixed(items[i], o)
  {
    var i :| 0 <= i < |items| && !Fixed(items[i], o);
    i
  }

  ghost function AsFloat(n: int): (j: Json)
    requires IsDouble(n as real)
    ensures j.Float? && FloatValue(j.mantissa, j.exponent) == n as real
  {
    var m: Mantissa, e: Exponent :| FloatValue(m, e) == n as real;
    Float(m, e)
  }

  ghost predicate SomeUnfixed(fields: Fields, o: Origin) { exists k :: k in fields && !Fixed(fields[k], o) }

  ghost function UnfixedKey(fields: Fields, o: Origin): (k: string)
    requires SomeUnfixed(fields, o)
    ensures k in fields && !Fixed(fields[k], o)
  {
    var k :| k in fields && !Fixed(fields[k], o);
    k
  }

  /** A value equal to `j` that prints differently; `j` itself when there is none. */
  ghost function Reprinted(j: Json, o: Origin): Json
    decreases j
  {
    if Fixed(j, o) then j
    else
      match j
      case Bool(b) => Int(if b then 1 else 0)
      case Int(n) => AsFloat(n)
      case Float(m, e) => Int(FloatValue(m, e).Floor)
      case List(items) =>
        var i := Unfixed(items, o);
        List(items[i := Reprinted(items[i], o)])
      case Obj(fields, order) =>
        if SomeUnfixed(fields, o) then
          var k := UnfixedKey(fields, o);
          Obj(fields[k := Reprinted(fields[k], o)], order)
        else
          OrderLength(KeyOrder(fields.Keys, order), fields.Keys);
          assert |fields.Keys| == |fields|;
          Obj(fields, Swapped(KeyOrder(fields.Keys, order)))
  }

  lemma {:induction false} ReprintedEqual(j: Json, o: Origin)
    ensures Equal(j, Reprinted(j, o))
    decreases j
  {
    if Fixed(j, o) {
      EqualReflexive(j);
    } else {
      match j
      case List(items) =>
        ReprintedEqual(items[Unfixed(items, o)], o);
        forall i | 0 <= i < |items| ensures Equal(items[i], items[i]) { EqualReflexive(items[i]); }
      case Obj(fields, _) =>
        if SomeUnfixed(fields, o) { ReprintedEqual(fields[UnfixedKey(fields, o)], o); }
        forall k | k in fields ensures Equal(fields[k], fields[k]) { EqualReflexive(fields[k]); }
      case _ =>
    }
  }

  lemma ListDiffers(items: seq<Json>, i: nat, x: Json)
    requires i < |items| && Repr(x) != Repr(items[i])
    ensures Repr(List(items[i := x])) != Repr(List(items))
  {
    var ts := seq(|items|, k requires 0 <= k < |items| => Repr(items[k]));
    var changed := items[i := x];
    var us := seq(|changed|, k requires 0 <= k < |changed| => Repr(changed[k]));
    assert us == ts[i := Repr(x)];
    JoinReplaced(ts, i, Repr(x));
    assert Repr(List(items)) == "[" + Join(ts) + "]" && Repr(List(changed)) == "[" + Join(us) + "]";
    hide Repr, Join;
    if Repr(List(changed)) == Repr(List(items)) { Bracketed("[", Join(us), Join(ts), "]"); }
  }

  function EntryTexts(fields: Fields, keys: seq<string>): (ts: seq<string>)
    requires forall i :: 0 <= i < |keys| ==> keys[i] in fields
    ensures |ts| == |keys| && forall i :: 0 <= i < |keys| ==> ts[i] == StrRepr(keys[i]) + ": " + Repr(fields[keys[i]])
  {
    seq(|keys|, i requires 0 <= i < |keys| => StrRepr(keys[i]) + ": " + Repr(fields[keys[i]]))
  }

  lemma ObjText(fields: Fields, order: seq<string>)
    ensures forall i :: 0 <= i < |KeyOrder(fields.Keys, order)| ==> KeyOrder(fields.Keys, order)[i] in fields
    ensures Repr(Obj(fields, order)) == "{" + Join(EntryTexts(fields, KeyOrder(fields.Keys, order))) + "}"
  {
    hide StrRepr, Join, IsOrderOf;
    var keys := KeyOrder(fields.Keys, order);
    InOrder(keys, fields.Keys);
    assert EntryTexts(fields, keys) == seq(|keys|, i requires 0 <= i < |keys| => StrRepr(keys[i]) + ": "
      + Repr(fields[keys[i]]));
  }

  lemma EntryDiffers(fields: Fields, order: seq<string>, k: string, x: Json)
    requires k in fields && Repr(x) != Repr(fields[k])
    ensures Repr(Obj(fields[k := x], order)) != Repr(Obj(fields, order))
  {
    hide Repr, Join, StrRepr, Sorted;
    var changed := fields[k := x];
    assert changed.Keys == fields.Keys;
    var keys := KeyOrder(fields.Keys, order);
    assert k in keys;
    ObjText(fields, order);
    ObjText(changed, order);
    var i :| 0 <= i < |keys| && keys[i] == k;
    var ts, us := EntryTexts(fields, keys), EntryTexts(changed, keys);
    if us[i] == ts[i] { SameTail(StrRepr(k) + ": ", Repr(x), Repr(fields[k])); }
    assert us == ts[i := us[i]];
    JoinReplaced(ts, i, us[i]);
    if Repr(Obj(changed, order)) == Repr(Obj(fields, order)) { Bracketed("{", Join(us), Join(ts), "}"); }
  }

  /** Texts that start with different quoted keys are different once joined. */
  lemma FirstKeysDiffer(ts: seq<string>, us: seq<string>, a: string, p: string, b: string, q: string)
    requires ts != [] && us != [] && ts[0] == StrRepr(a) + p && us[0] == StrRepr(b) + q && a != b
    ensures Join(ts) != Join(us)
  {
    hide Join, StrRepr;
    JoinHead(ts);
    JoinHead(us);
    var x :| Join(ts) == ts[0] + x;
    var y :| Join(us) == us[0] + y;
    if Join(ts) == Join(us) {
      Assoc(StrRepr(a), p, x);
      Assoc(StrRepr(b), q, y);
      StrReprUnique(a, b, p + x, q + y);
    }
  }

  lemma SwapDiffers(fields: Fields, order: seq<string>)
    requires |KeyOrder(fields.Keys, order)| >= 2
    ensures Repr(Obj(fields, Swapped(KeyOrder(fields.Keys, order)))) != Repr(Obj(fields, order))
  {
    var keys := KeyOrder(fields.Keys, order);
    SwappedIsOrder(keys, fields.Keys);
    var swapped := Swapped(keys);
    assert KeyOrder(fields.Keys, swapped) == swapped;
    assert keys[0] != keys[1];
    hide Repr, Join, StrRepr, KeyOrder, IsOrderOf;
    ObjText(fields, order);
    ObjText(fields, swapped);
    var ts, us := EntryTexts(fields, keys), EntryTexts(fields, swapped);
    var p, q := ": " + Repr(fields[keys[0]]), ": " + Repr(fields[keys[1]]);
    Assoc(StrRepr(keys[0]), ": ", Repr(fields[keys[0]]));
    Assoc(StrRepr(keys[1]), ": ", Repr(fields[keys[1]]));
    FirstKeysDiffer(ts, us, keys[0], p, keys[1], q);
    BracketsApart("{", Join(us), Join(ts), "}");
  }

  lemma BracketsApart(open: string, a: string, b: string, close: string)
    requires a != b
    ensures open + a + close != open + b + close
  {
    if open + a + close == open + b + close { Bracketed(open, a, b, close); }
  }

  /** A value that is not fixed prints differently from the other printing of it. */
  lemma {:induction false} ReprintedDiffers(j: Json, o: Origin)
    ensures !Fixed(j, o) ==>
      !j.Str? && !Reprinted(j, o).Str? && Repr(Reprinted(j, o)) != Repr(j) && Shown(Reprinted(j, o)) != Shown(j)
    ensures Fixed(j, o) ==> Reprinted(j, o) == j
    decreases j
  {
    if !Fixed(j, o) {
      match j
      case Bool(b) => BoolIsNoInt(b, if b then 1 else 0);
      case Int(n) => FloatIsNoInt(n as real, n);
      case Float(m, e) => FloatIsNoInt(FloatValue(m, e), FloatValue(m, e).Floor);
      case List(items) =>
        var i := Unfixed(items, o);
        ReprintedDiffers(items[i], o);
        hide Repr;
        ListDiffers(items, i, Reprinted(items[i], o));
      case Obj(fields, order) =>
        hide Repr, KeyOrder, StrRepr;
        if SomeUnfixed(fields, o) {
          var k := UnfixedKey(fields, o);
          ReprintedDiffers(fields[k], o);
          EntryDiffers(fields, order, k, Reprinted(fields[k], o));
        } else {
          OrderLength(KeyOrder(fields.Keys, order), fields.Keys);
          assert |fields.Keys| == |fields|;
          SwapDiffers(fields, order);
        }
      case _ =>
    }
  }

  /** Apart from strings, nothing prints with blanks at its ends, or as nothing. */
  lemma PrintsTight(j: Json)
    requires !j.Str?
    ensures Repr(j) != "" && Strip(Repr(j)) == Repr(j)
  {
    hide Strip;
    PrintsEnds(j);
    hide Repr;
    TightStrip(Repr(j));
  }

  lemma PrintsEnds(j: Json)
    requires !j.Str?
    ensures var t := Repr(j); t != "" && !IsSpace(t[0]) && !IsSpace(t[|t| - 1])
  {
    var t := Repr(j);
    match j
    case Int(n) => IntTextNumerals(n);
    case Float(m, e) => FloatLooks(FloatValue(m, e));
    case List(_) => assert t[0] == '[' && t[|t| - 1] == ']';
    case Obj(_, _) => assert t[0] == '{' && t[|t| - 1] == '}';
    case _ =>
  }

  lemma TightStrip(s: string)
    requires s != "" && !IsSpace(s[0]) && !IsSpace(s[|s| - 1])
    ensures Strip(s) == s
  {}

  lemma {:induction false} ReprintedFrom(j: Json, o: Origin)
    requires From(j, o)
    ensures From(Reprinted(j, o), o)
    decreases j
  {
    if !Fixed(j, o) {
      match j
      case List(items) => ReprintedFrom(items[Unfixed(items, o)], o);
      case Obj(fields, _) =>
        if SomeUnfixed(fields, o) {
          var k := UnfixedKey(fields, o);
          ReprintedFrom(fields[k], o);
          assert fields[k := Reprinted(fields[k], o)].Keys == fields.Keys;
        }
      case _ =>
    }
  }

  /** Exactness for one value: it is fixed if and only if every equal value from there prints the same. */
  lemma FixedIff(j: Json, o: Origin)
    requires From(j, o)
    ensures Fixed(j, o) <==> forall x :: From(x, o) && Equal(j, x) ==> Shown(x) == Shown(j)
  {
    if Fixed(j, o) {
      forall x | From(x, o) && Equal(j, x) ensures Shown(x) == Shown(j) { FixedPrintsOneWay(j, x, o); }
    } else {
      ReprintedEqual(j, o);
      ReprintedDiffers(j, o);
      ReprintedFrom(j, o);
    }
  }

  /** What the values equal to a whole number print: the integer, the float if there is one, a truth value for 0
      and 1. */
  ghost function Printings(n: int, o: Origin): set<string> {
    {IntText(n)}
    + (if IsDouble(n as real) && !(o.Stored? && Large(n as real)) then {FloatText(n as real)} else {})
    + (if n == 1 then {"True"} else if n == 0 then {"False"} else {})
  }

  lemma PrintingsAre(n: int, o: Origin, text: string)
    ensures text in Printings(n, o) <==> exists x :: From(x, o) && Equal(Int(n), x) && Shown(x) == text
  {
    hide IntText, FloatText;
    if x :| From(x, o) && Equal(Int(n), x) && Shown(x) == text {
      WholeInt(n);
      match x
      case Float(m, e) => assert FloatValue(m, e) == n as real;
      case _ =>
    }
    if text in Printings(n, o) { PrintedBy(n, o, text); }
  }

  lemma PrintedBy(n: int, o: Origin, text: string)
    requires text in Printings(n, o)
    ensures exists x :: From(x, o) && Equal(Int(n), x) && Shown(x) == text
  {
    hide IntText, FloatText;
    if text == IntText(n) {
      assert From(Int(n), o) && Equal(Int(n), Int(n)) && Shown(Int(n)) == text;
    } else if IsDouble(n as real) && !(o.Stored? && Large(n as real)) && text == FloatText(n as real) {
      var x := AsFloat(n);
      assert From(x, o) && Equal(Int(n), x) && Shown(x) == text;
    } else {
      var x := Bool(n == 1);
      assert From(x, o) && Equal(Int(n), x) && Shown(x) == text;
    }
  }

  lemma PrintsHead(j: Json)
    requires !j.Str?
    ensures Repr(j) != "" && !IsLower(Repr(j)[0])
  {
    match j
    case Int(n) => IntTextNumerals(n);
    case Float(m, e) => FloatLooks(FloatValue(m, e));
    case List(_) => assert Repr(j)[0] == '[';
    case Obj(_, _) => assert Repr(j)[0] == '{';
    case _ =>
  }

  /** No value but a string prints as a word. */
  lemma PrintsNoWord(j: Json, word: string)
    requires !j.Str? && word != "" && IsLower(word[0])
    ensures Repr(j) != word
  {
    hide Repr;
    PrintsHead(j);
  }
}

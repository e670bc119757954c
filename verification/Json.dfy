/**
 JSON values as Python holds them after `json.loads`, when they are equal and what `str()` prints for them.

 Equality does not decide the text: 1, 1.0 and True are equal and print differently, and so do two equal
 dictionaries whose keys were inserted in different orders. A value is `Fixed` when equality does decide it, among
 the values that can come from the same place.
 */
module Json {
  import opened Text
  import opened Ordering
  import opened Sets

  /** Every finite double is a mantissa times a power of two. */
  type Mantissa = m: int | -0x20_0000_0000_0000 < m < 0x20_0000_0000_0000
  type Exponent = e: int | -1074 <= e <= 971

  /** `order` is the insertion order of the keys; where it is not an order of them, the sorted one stands in. */
  datatype Json =
    | Null
    | Bool(b: bool)
    | Int(n: int)
    | Float(mantissa: Mantissa, exponent: Exponent)
    | Str(s: string)
    | List(items: seq<Json>)
    | Obj(fields: map<string, Json>, order: seq<string>)

  type Fields = map<string, Json>

  function Power2(e: int): (r: real)
    ensures r > 0.0
    decreases if e < 0 then -e else e
  {
    if e == 0 then 1.0 else if e > 0 then 2.0 * Power2(e - 1) else Power2(e + 1) / 2.0
  }

  function FloatValue(m: Mantissa, e: Exponent): real { m as real * Power2(e) }

  /** The number a value compares as; only numbers and booleans have one. */
  function Amount(j: Json): Option<real> {
    match j
    case Bool(b) => Some(if b then 1.0 else 0.0)
    case Int(n) => Some(n as real)
    case Float(m, e) => Some(FloatValue(m, e))
    case _ => None
  }

  /** `bool(j)` */
  predicate Truthy(j: Json) {
    match j
    case Null => false
    case Bool(b) => b
    case Int(n) => n != 0
    case Float(m, e) => FloatValue(m, e) != 0.0
    case Str(s) => s != ""
    case List(items) => items != []
    case Obj(fields, _) => fields != map[]
  }

  /** `x == y` */
  predicate Equal(x: Json, y: Json) {
    match (x, y)
    case (Null, Null) => true
    case (Str(s), Str(t)) => s == t
    case (List(a), List(b)) => |a| == |b| && forall i :: 0 <= i < |a| ==> Equal(a[i], b[i])
    case (Obj(a, _), Obj(b, _)) => a.Keys == b.Keys && forall k :: k in a ==> Equal(a[k], b[k])
    case _ => Amount(x).Some? && Amount(x) == Amount(y)
  }

  predicate EqualFields(a: Fields, b: Fields) {
    a.Keys == b.Keys && forall k :: k in a ==> Equal(a[k], b[k])
  }

  // ---------------------------------------------------------------- numbers as text

  function Digit(d: nat): char
    requires d < 10
  {
    ('0' as int + d) as char
  }

  function NatText(n: nat): (s: string)
    ensures s != "" && forall i :: 0 <= i < |s| ==> IsDigit(s[i])
  {
    if n < 10 then [Digit(n)] else NatText(n / 10) + [Digit(n % 10)]
  }

  function IntText(n: int): string { if n < 0 then "-" + NatText(-n) else NatText(n) }

  function Zeros(n: nat): (s: string)
    ensures |s| == n && forall i :: 0 <= i < n ==> s[i] == '0'
  {
    seq(n, i => '0')
  }

  /** Decimal places: so many zeros, then a number. */
  datatype Places = Places(zeros: nat, digits: nat)

  /** The two shapes `repr` gives a float: with a point, or with an exponent. */
  datatype Notation =
    | Point(negative: bool, whole: nat, places: Places)
    | Scientific(negative: bool, digit: nat, more: Option<Places>, exponent: int)

  function PlacesText(p: Places): string { "." + Zeros(p.zeros) + NatText(p.digits) }

  /** Exponents have two digits at least. */
  function Padded(n: nat): (s: string)
    ensures s != "" && forall i :: 0 <= i < |s| ==> IsDigit(s[i])
  {
    if n < 10 then "0" + NatText(n) else NatText(n)
  }

  function NotationText(n: Notation): string {
    (if n.negative then "-" else "") +
    match n
    case Point(_, whole, places) => NatText(whole) + PlacesText(places)
    case Scientific(_, digit, more, exponent) =>
      NatText(digit) + (if more.Some? then PlacesText(more.value) else "")
      + (if exponent < 0 then "e-" + Padded(-exponent) else "e+" + Padded(exponent))
  }

  /** Which digits `repr` picks for a float is left open: any function of its value. */
  const NOTATION: real -> Notation

  function FloatText(x: real): string {
    if x.Floor as real == x && -1.0e16 < x < 1.0e16 then IntText(x.Floor) + ".0" else NotationText(NOTATION(x))
  }

  // ---------------------------------------------------------------- values as text

  function HexDigit(d: nat): char
    requires d < 16
  {
    if d < 10 then Digit(d) else ('a' as int + (d - 10)) as char
  }

  /** One character between quotes `q`. */
  function Escape(c: char, q: char): string {
    if c == q || c == '\\' then ['\\', c]
    else if c == '\n' then "\\n"
    else if c == '\r' then "\\r"
    else if c == '\t' then "\\t"
    else if c < ' ' || c == '\U{007F}' then ['\\', 'x', HexDigit(c as int / 16 % 16), HexDigit(c as int % 16)]
    else [c]
  }

  function Escaped(s: string, q: char): string {
    if s == "" then "" else Escape(s[0], q) + Escaped(s[1..], q)
  }

  function Quote(s: string): char { if '\'' in s && '"' !in s then '"' else '\'' }

  /** `repr(s)` */
  function StrRepr(s: string): string { [Quote(s)] + Escaped(s, Quote(s)) + [Quote(s)] }

  function Join(texts: seq<string>): string {
    if texts == [] then "" else if |texts| == 1 then texts[0] else texts[0] + ", " + Join(texts[1..])
  }

  function KeyOrder(keys: set<string>, order: seq<string>): (r: seq<string>)
    ensures IsOrderOf(r, keys)
  {
    if IsOrderOf(order, keys) then order else Sorted(keys)
  }

  /** `repr(j)` */
  function Repr(j: Json): string {
    match j
    case Null => "None"
    case Bool(b) => if b then "True" else "False"
    case Int(n) => IntText(n)
    case Float(m, e) => FloatText(FloatValue(m, e))
    case Str(s) => StrRepr(s)
    case List(items) => "[" + Join(seq(|items|, i requires 0 <= i < |items| => Repr(items[i]))) + "]"
    case Obj(fields, order) =>
      var keys := KeyOrder(fields.Keys, order);
      assert forall i :: 0 <= i < |keys| ==> keys[i] in keys;
      "{" + Join(seq(|keys|, i requires 0 <= i < |keys| => StrRepr(keys[i]) + ": " + Repr(fields[keys[i]]))) + "}"
  }

  /** `str(j)` */
  function Shown(j: Json): string { if j.Str? then j.s else Repr(j) }

  // ---------------------------------------------------------------- reading fields

  /** `str(fields.get(key) or "")` */
  function TextOr(fields: Fields, key: string): string {
    if key in fields && Truthy(fields[key]) then Shown(fields[key]) else ""
  }

  /** `None if fields.get(key) is None else str(...)` */
  function OptionalText(fields: Fields, key: string): Option<string> {
    if key in fields && !fields[key].Null? then Some(Shown(fields[key])) else None
  }

  /** `fields.get(key)` when it is a dictionary, otherwise an empty one */
  function SubObject(fields: Fields, key: string): Fields {
    if key in fields && fields[key].Obj? then fields[key].fields else map[]
  }

  /** `fields.get(key)` when it is a list, otherwise an empty one */
  function SubList(fields: Fields, key: string): seq<Json> {
    if key in fields && fields[key].List? then fields[key].items else []
  }

  // ---------------------------------------------------------------- values with one printing

  /** Some float compares as this number. */
  ghost predicate IsDouble(x: real) { exists m: Mantissa, e: Exponent :: FloatValue(m, e) == x }

  predicate Whole(x: real) { x.Floor as real == x }

  /** Where a value comes from: a request, or a column of the database. */
  datatype Origin = Sent | Stored

  /** A column gives the keys of a dictionary an order of its own, whatever order they were sent in: any order,
      depending on nothing but the keys. */
  const COLUMN_ORDER: set<string> -> seq<string>

  predicate Large(x: real) { !(-1.0e16 < x < 1.0e16) }

  /** What can come from there: a column has its own order of keys, and returns a large whole number, which is
      written to it with an exponent, as an integer. */
  predicate From(j: Json, o: Origin) {
    match j
    case Float(m, e) => o.Stored? && Whole(FloatValue(m, e)) ==> !Large(FloatValue(m, e))
    case List(items) => forall i :: 0 <= i < |items| ==> From(items[i], o)
    case Obj(fields, order) => (o.Stored? ==> order == COLUMN_ORDER(fields.Keys)) && forall k :: k in fields ==>
      From(fields[k], o)
    case _ => true
  }

  predicate FieldsFrom(fields: Fields, o: Origin) { forall k :: k in fields ==> From(fields[k], o) }

  /** Every equal value from there prints the same: no boolean, no integer that is also a float, no whole float, and
      of what is sent no dictionary of two keys, at any depth. */
  ghost predicate Fixed(j: Json, o: Origin) {
    match j
    case Null => true
    case Bool(_) => false
    case Int(n) => !IsDouble(n as real) || (o.Stored? && Large(n as real))
    case Float(m, e) => !Whole(FloatValue(m, e))
    case Str(_) => true
    case List(items) => forall i :: 0 <= i < |items| ==> Fixed(items[i], o)
    case Obj(fields, _) => (o.Sent? ==> |fields| <= 1) && forall k :: k in fields ==> Fixed(fields[k], o)
  }

  /** What `str(x or "")` prints is decided by equality. */
  ghost predicate FixedOr(fields: Fields, key: string, o: Origin) {
    key in fields ==> Fixed(fields[key], o) || !Truthy(fields[key])
  }

  /** What `None if x is None else str(x)` gives is decided by equality. */
  ghost predicate FixedOptional(fields: Fields, key: string, o: Origin) { key in fields ==> Fixed(fields[key], o) }

  // ---------------------------------------------------------------- equality

  lemma {:induction false} EqualSymmetric(x: Json, y: Json)
    requires Equal(x, y)
    ensures Equal(y, x)
    decreases x
  {
    match x
    case List(a) => forall i | 0 <= i < |a| ensures Equal(y.items[i], a[i]) { EqualSymmetric(a[i], y.items[i]); }
    case Obj(a, _) => forall k | k in a ensures Equal(y.fields[k], a[k]) { EqualSymmetric(a[k], y.fields[k]); }
    case _ =>
  }

  lemma {:induction false} EqualTransitive(x: Json, y: Json, z: Json)
    requires Equal(x, y) && Equal(y, z)
    ensures Equal(x, z)
    decreases x
  {
    match x
    case List(a) => forall i | 0 <= i < |a| ensures Equal(a[i],
      z.items[i]) { EqualTransitive(a[i], y.items[i], z.items[i]); }
    case Obj(a, _) => forall k | k in a ensures Equal(a[k],
      z.fields[k]) { EqualTransitive(a[k], y.fields[k], z.fields[k]); }
    case _ =>
  }

  lemma EqualReflexive(x: Json)
    ensures Equal(x, x)
  {}

  lemma EqualTruthy(x: Json, y: Json)
    requires Equal(x, y)
    ensures Truthy(x) == Truthy(y)
    ensures x.Null? == y.Null? && x.Str? == y.Str? && x.List? == y.List? && x.Obj? == y.Obj?
    ensures x.Str? ==> x == y
  {
    if x.Obj? {
      assert x.fields == map[] <==> x.fields.Keys == {};
      assert y.fields == map[] <==> y.fields.Keys == {};
    }
  }

  lemma EqualSubObject(a: Fields, b: Fields, key: string)
    requires EqualFields(a, b)
    ensures EqualFields(SubObject(a, key), SubObject(b, key))
  {
    if key in a { EqualTruthy(a[key], b[key]); }
  }

  lemma EqualSubList(a: Fields, b: Fields, key: string)
    requires EqualFields(a, b)
    ensures |SubList(a, key)| == |SubList(b, key)|
    ensures forall i :: 0 <= i < |SubList(a, key)| ==> Equal(SubList(a, key)[i], SubList(b, key)[i])
  {
    if key in a { EqualTruthy(a[key], b[key]); }
  }

  // ---------------------------------------------------------------- a fixed value prints one way

  lemma SingleOrder(keys: set<string>, order: seq<string>, other: seq<string>)
    requires |keys| <= 1
    ensures KeyOrder(keys, order) == KeyOrder(keys, other)
  {
    var r, s := KeyOrder(keys, order), KeyOrder(keys, other);
    OrderLength(r, keys);
    OrderLength(s, keys);
    if |keys| == 1 {
      assert r[0] in keys && s[0] in keys;
      assert keys == {r[0]} by { OnlyMember(keys, r[0]); }
    }
  }

  lemma OnlyMember(keys: set<string>, k: string)
    requires |keys| == 1 && k in keys
    ensures keys == {k}
  {
    assert |keys - {k}| == 0;
    assert keys - {k} == {};
  }

  lemma {:induction false} OrderLength(r: seq<string>, keys: set<string>)
    requires IsOrderOf(r, keys)
    ensures |r| == |keys|
  {
    if r == [] {
      if keys != {} { var k := Member(keys); assert false; }
    } else {
      var rest := r[1..];
      assert forall i :: 0 <= i < |rest| ==> rest[i] == r[i + 1];
      forall k | k in rest ensures k in keys - {r[0]} {
        var i :| 0 <= i < |rest| && rest[i] == k;
        assert r[i + 1] in r;
      }
      assert r == [r[0]] + rest;
      OrderLength(rest, keys - {r[0]});
    }
  }

  lemma WholeInt(n: int)
    ensures Whole(n as real)
  {}

  lemma ListPrints(a: seq<Json>, b: seq<Json>)
    requires |a| == |b| && forall i :: 0 <= i < |a| ==> Repr(a[i]) == Repr(b[i])
    ensures Repr(List(a)) == Repr(List(b))
  {
    assert seq(|a|, i requires 0 <= i < |a| => Repr(a[i])) == seq(|b|, i requires 0 <= i < |b| => Repr(b[i]));
  }

  lemma ObjPrints(a: Fields, b: Fields, order: seq<string>, other: seq<string>)
    requires a.Keys == b.Keys && KeyOrder(a.Keys, order) == KeyOrder(b.Keys, other)
    requires forall k :: k in a ==> Repr(a[k]) == Repr(b[k])
    ensures Repr(Obj(a, order)) == Repr(Obj(b, other))
  {
    hide StrRepr, IsOrderOf;
    var keys := KeyOrder(a.Keys, order);
    assert forall i :: 0 <= i < |keys| ==> keys[i] in keys && keys[i] in a by { InOrder(keys, a.Keys); }
    assert seq(|keys|, i requires 0 <= i < |keys| => StrRepr(keys[i]) + ": " + Repr(a[keys[i]]))
        == seq(|keys|, i requires 0 <= i < |keys| => StrRepr(keys[i]) + ": " + Repr(b[keys[i]]));
  }

  lemma InOrder(order: seq<string>, keys: set<string>)
    requires IsOrderOf(order, keys)
    ensures forall i :: 0 <= i < |order| ==> order[i] in keys
  {
    assert forall i :: 0 <= i < |order| ==> order[i] in order;
  }

  lemma FixedNumber(x: Json, y: Json, o: Origin)
    requires Fixed(x, o) && Equal(x, y) && (x.Int? || x.Float?) && From(y, o)
    ensures Repr(x) == Repr(y) && Fixed(y, o) && (y.Int? || y.Float?)
  {
    match x
    case Int(n) =>
      WholeInt(n);
      SmallTruths(o);
      assert y.Float? ==> FloatValue(y.mantissa, y.exponent) == n as real;
    case Float(m, e) =>
      WholeInt(if y.Int? then y.n else 0);
      assert Whole(1.0) && Whole(0.0);
  }

  /** A truth value equals a number that is not fixed. */
  lemma SmallTruths(o: Origin)
    ensures !Fixed(Int(0), o) && !Fixed(Int(1), o)
  {
    assert FloatValue(0, 0) == 0.0 && FloatValue(1, 0) == 1.0;
  }

  lemma SameOrder(x: Json, y: Json, o: Origin)
    requires x.Obj? && y.Obj? && x.fields.Keys == y.fields.Keys && From(x, o) && From(y, o)
    requires o.Sent? ==> |x.fields| <= 1
    ensures KeyOrder(x.fields.Keys, x.order) == KeyOrder(y.fields.Keys, y.order)
  {
    assert |x.fields.Keys| == |x.fields|;
    hide KeyOrder;
    if o.Sent? { SingleOrder(x.fields.Keys, x.order, y.order); }
  }

  /** Whatever equals a fixed value prints as it does, and is fixed too. */
  lemma {:induction false} FixedPrintsOneWay(x: Json, y: Json, o: Origin)
    requires Fixed(x, o) && Equal(x, y) && From(x, o) && From(y, o)
    ensures Repr(x) == Repr(y) && Shown(x) == Shown(y) && Fixed(y, o)
    decreases x
  {
    match x
    case List(a) =>
      forall i | 0 <= i < |a| ensures Repr(a[i]) == Repr(y.items[i]) && Fixed(y.items[i], o) {
        FixedPrintsOneWay(a[i], y.items[i], o);
      }
      hide Repr;
      ListPrints(a, y.items);
    case Obj(a, order) =>
      assert |a.Keys| == |y.fields.Keys|;
      forall k | k in a ensures Repr(a[k]) == Repr(y.fields[k]) && Fixed(y.fields[k], o) {
        FixedPrintsOneWay(a[k], y.fields[k], o);
      }
      hide Repr, KeyOrder;
      SameOrder(x, y, o);
      ObjPrints(a, y.fields, order, y.order);
    case Int(_) => hide Repr; FixedNumber(x, y, o);
    case Float(_, _) => hide Repr; FixedNumber(x, y, o);
    case _ =>
  }

  /** Anything can be sent. */
  lemma {:induction false} SentFrom(j: Json)
    ensures From(j, Sent)
    decreases j
  {
    match j
    case List(items) => forall i | 0 <= i < |items| ensures From(items[i], Sent) { SentFrom(items[i]); }
    case Obj(fields, _) => forall k | k in fields ensures From(fields[k], Sent) { SentFrom(fields[k]); }
    case _ =>
  }

  lemma SentFields(fields: Fields)
    ensures FieldsFrom(fields, Sent)
  {
    forall k | k in fields ensures From(fields[k], Sent) { SentFrom(fields[k]); }
  }

  lemma SubObjectFrom(f: Fields, key: string, o: Origin)
    requires FieldsFrom(f, o)
    ensures FieldsFrom(SubObject(f, key), o)
  {}

  lemma SubListFrom(f: Fields, key: string, o: Origin)
    requires FieldsFrom(f, o)
    ensures forall i :: 0 <= i < |SubList(f, key)| ==> From(SubList(f, key)[i], o)
  {}

  lemma EqualTextOr(a: Fields, b: Fields, key: string, o: Origin)
    requires EqualFields(a, b) && FixedOr(a, key, o) && FieldsFrom(a, o) && FieldsFrom(b, o)
    ensures TextOr(a, key) == TextOr(b, key) && FixedOr(b, key, o)
  {
    if key in a {
      EqualTruthy(a[key], b[key]);
      if Fixed(a[key], o) { FixedPrintsOneWay(a[key], b[key], o); }
    }
  }

  lemma EqualOptionalText(a: Fields, b: Fields, key: string, o: Origin)
    requires EqualFields(a, b) && FixedOptional(a, key, o) && FieldsFrom(a, o) && FieldsFrom(b, o)
    ensures OptionalText(a, key) == OptionalText(b, key) && FixedOptional(b, key, o)
  {
    if key in a {
      EqualTruthy(a[key], b[key]);
      FixedPrintsOneWay(a[key], b[key], o);
    }
  }
}

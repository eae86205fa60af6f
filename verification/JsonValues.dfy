/** JSON values as Python holds them, with Python's equality and truthiness. */
module JsonValues {

  datatype Option<+T> = None | Some(value: T)

  datatype Json =
    | Null
    | Bool(b: bool)
    | Int(n: int)
    | Float(r: real)
    | Str(s: string)
    | Arr(items: seq<Json>)
    | Obj(fields: map<string, Json>)

  /** A representative of the class of values that Python's `==` identifies:
      True, 1 and 1.0 are equal, and containers compare element by element. */
  function Canon(j: Json): Json {
    match j
    case Bool(b) => Float(if b then 1.0 else 0.0)
    case Int(n) => Float(n as real)
    case Arr(items) => Arr(seq(|items|, i requires 0 <= i < |items| => Canon(items[i])))
    case Obj(fields) => Obj(map k | k in fields :: Canon(fields[k]))
    case _ => j
  }

  predicate PyEq(a: Json, b: Json) {
    Canon(a) == Canon(b)
  }

  /** Python's `bool(x)`. */
  predicate Truthy(j: Json) {
    match j
    case Null => false
    case Bool(b) => b
    case Int(n) => n != 0
    case Float(r) => r != 0.0
    case Str(s) => s != ""
    case Arr(items) => items != []
    case Obj(fields) => fields != map[]
  }

  predicate Falsy(j: Json) {
    j in {Null, Bool(false), Int(0), Float(0.0), Str(""), Arr([]), Obj(map[])}
  }

  /** The values that count as false are the zeros and the empty ones. */
  lemma FalsyValues(j: Json)
    ensures !Truthy(j) <==> Falsy(j)
  {
  }

  /** Two dictionaries are equal in Python: same keys, equal values, order ignored. */
  predicate SameFields(a: map<string, Json>, b: map<string, Json>) {
    && a.Keys == b.Keys
    && forall k :: k in a ==> PyEq(a[k], b[k])
  }

  lemma SameFieldsIsPyEq(a: map<string, Json>, b: map<string, Json>)
    ensures SameFields(a, b) <==> PyEq(Obj(a), Obj(b))
  {
    var ca, cb := Canon(Obj(a)).fields, Canon(Obj(b)).fields;
    assert ca.Keys == a.Keys && cb.Keys == b.Keys;
    if ca == cb {
      forall k | k in a ensures k in b && PyEq(a[k], b[k]) {
        assert ca[k] == cb[k];
      }
    }
  }

  /** The value, if it is this number; True counts as 1 and False as 0. */
  predicate IsNumber(j: Json, x: real) {
    || (j.Bool? && x == if j.b then 1.0 else 0.0)
    || (j.Int? && x == j.n as real)
    || (j.Float? && x == j.r)
  }

  /** Two values are equal just when they are one number, the same text, or both none, or lists
      equal item by item, or dictionaries equal field by field. */
  lemma PyEqMeaning(a: Json, b: Json)
    ensures PyEq(a, b) <==>
            || (exists x :: IsNumber(a, x) && IsNumber(b, x))
            || (a.Str? && a == b) || (a.Null? && b.Null?)
            || (a.Arr? && b.Arr? && SameItems(a.items, b.items))
            || (a.Obj? && b.Obj? && SameFields(a.fields, b.fields))
  {
    if a.Arr? && b.Arr? {
      SameItemsIsPyEq(a.items, b.items);
    } else if a.Obj? && b.Obj? {
      SameFieldsIsPyEq(a.fields, b.fields);
    } else if Canon(a).Float? {
      assert IsNumber(a, Canon(a).r);
    }
  }

  predicate SameItems(a: seq<Json>, b: seq<Json>) {
    |a| == |b| && forall i :: 0 <= i < |a| ==> PyEq(a[i], b[i])
  }

  lemma SameItemsIsPyEq(a: seq<Json>, b: seq<Json>)
    ensures SameItems(a, b) <==> PyEq(Arr(a), Arr(b))
  {
    var ca, cb := Canon(Arr(a)).items, Canon(Arr(b)).items;
    assert |ca| == |a| && |cb| == |b|;
    if ca == cb {
      forall i | 0 <= i < |a| ensures PyEq(a[i], b[i]) {
        assert ca[i] == cb[i];
      }
    }
  }

  lemma SameFieldsTransitive(a: map<string, Json>, b: map<string, Json>, c: map<string, Json>)
    requires SameFields(a, b) && SameFields(b, c)
    ensures SameFields(a, c) && SameFields(b, a)
  {
    forall k | k in a ensures PyEq(a[k], c[k]) {
      assert PyEq(a[k], b[k]) && PyEq(b[k], c[k]);
    }
  }
}

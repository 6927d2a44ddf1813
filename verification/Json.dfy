/** JSON documents as Python sees them after json.loads: get, truth, equality and the tests the
  * evidence checkers make on values. */
module Json {
  datatype Json =
    | Null
    | Bool(b: bool)
    | Int(n: int)
    | Float(x: real)
    | Str(s: string)
    | Arr(items: seq<Json>)
    | Obj(fields: map<string, Json>)

  /** dict.get, and None on anything that is not a dict. */
  function Get(j: Json, key: string): Json {
    if j.Obj? && key in j.fields then j.fields[key] else Null
  }

  predicate Truthy(j: Json) {
    match j
    case Null => false
    case Bool(b) => b
    case Int(n) => n != 0
    case Float(x) => x != 0.0
    case Str(s) => s != ""
    case Arr(a) => a != []
    case Obj(m) => m != map[]
  }

  /** str(j or ""), where repr gives the text of a true value that is not a string. */
  function Text(j: Json, repr: Json -> string): string {
    if !Truthy(j) then "" else if j.Str? then j.s else repr(j)
  }

  predicate Number(j: Json) {
    j.Bool? || j.Int? || j.Float?
  }

  function NumberOf(j: Json): real
    requires Number(j)
  {
    match j
    case Bool(b) => if b then 1.0 else 0.0
    case Int(n) => n as real
    case Float(x) => x
  }

  /** Python's ==: True is 1 is 1.0, and dicts compare without order. */
  predicate Equal(a: Json, b: Json)
    decreases a
  {
    if Number(a) || Number(b) then Number(a) && Number(b) && NumberOf(a) == NumberOf(b)
    else match a
      case Null => b.Null?
      case Str(s) => b.Str? && s == b.s
      case Arr(xs) => b.Arr? && |xs| == |b.items| && forall i :: 0 <= i < |xs| ==> Equal(xs[i], b.items[i])
      case Obj(m) => b.Obj? && m.Keys == b.fields.Keys && forall k :: k in m ==> Equal(m[k], b.fields[k])
  }

  /** An int that is not a bool. */
  predicate PlainInt(j: Json) {
    j.Int?
  }

  /** isinstance(j, int), which a bool also is. */
  predicate AnyInt(j: Json) {
    j.Int? || j.Bool?
  }

  predicate HexChar(c: char) {
    '0' <= c <= '9' || 'a' <= c <= 'f' || 'A' <= c <= 'F'
  }

  predicate Hex(s: string) {
    forall i :: 0 <= i < |s| ==> HexChar(s[i])
  }

  predicate ValidSha256(j: Json) {
    j.Str? && |j.s| == 64 && Hex(j.s)
  }

  /** A dict that was read: not the stand-in a reader leaves behind on an error. */
  predicate Readable(j: Json) {
    j.Obj? && !Truthy(Get(j, "_readError"))
  }

  // ---- what equality gives ----

  lemma {:induction false} EqualRefl(a: Json)
    ensures Equal(a, a)
    decreases a
  {
    match a
    case Arr(xs) => forall i | 0 <= i < |xs| ensures Equal(xs[i], xs[i]) { EqualRefl(xs[i]); }
    case Obj(m) => forall k | k in m ensures Equal(m[k], m[k]) { EqualRefl(m[k]); }
    case _ =>
  }

  /** Equal documents have equal fields. */
  lemma EqualGet(a: Json, b: Json, key: string)
    requires Equal(a, b)
    ensures Equal(Get(a, key), Get(b, key))
  {
  }
}

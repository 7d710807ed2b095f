/**
 * The values `JSON.parse` produces, with the JavaScript semantics the response
 * normalisation relies on: truthiness, property access and `String()`.
 */
module JsonValue {
  import opened Wrappers
  import opened JsText

  /**
   * A parsed JSON value. A number keeps its value (an infinity, which an
   * out-of-range literal parses to, is carried as a non-zero value) and the text
   * `String()` prints for it; number formatting belongs to the engine and is
   * supplied with the value. An object keeps its fields in property order,
   * one field per key, as `JSON.parse` leaves them.
   */
  datatype Json =
    | Null
    | Bool(b: bool)
    | Num(value: real, text: JsString)
    | Str(s: JsString)
    | Arr(elems: seq<Json>)
    | Obj(fields: seq<Field>)

  datatype Field = Field(key: JsString, value: Json)

  /** JavaScript truthiness: "", 0, -0, false and null are falsy; arrays and objects never are. */
  predicate Truthy(v: Json)
    ensures !Truthy(v) <==> v == Null || v == Bool(false) || (v.Num? && v.value == 0.0) || v == Str([])
  {
    match v
    case Null => false
    case Bool(b) => b
    case Num(x, _) => x != 0.0
    case Str(s) => |s| > 0
    case Arr(_) => true
    case Obj(_) => true
  }

  /** Truthiness of a property read, where a missing property is `undefined` and falsy. */
  predicate TruthyProperty(p: Option<Json>)
    ensures TruthyProperty(p) ==> p.Some? && !p.value.Null?
    ensures p.Some? && Truthy(p.value) ==> TruthyProperty(p)
  {
    p.Some? && Truthy(p.value)
  }

  predicate HasKey(fields: seq<Field>, key: JsString)
  {
    exists i :: 0 <= i < |fields| && fields[i].key == key
  }

  /** The value of the first field named key; None when there is none. */
  function Lookup(fields: seq<Field>, key: JsString): (r: Option<Json>)
    ensures r.Some? <==> HasKey(fields, key)
    ensures r.Some? ==> exists i :: 0 <= i < |fields| && fields[i] == Field(key, r.value)
  {
    if |fields| == 0 then None
    else if fields[0].key == key then Some(fields[0].value)
    else
      var r := Lookup(fields[1..], key);
      assert HasKey(fields, key) ==> HasKey(fields[1..], key) by {
        if HasKey(fields, key) {
          var i :| 0 <= i < |fields| && fields[i].key == key;
          assert fields[1..][i - 1].key == key;
        }
      }
      assert r.Some? ==> HasKey(fields, key) by {
        if r.Some? {
          var i :| 0 <= i < |fields[1..]| && fields[1..][i].key == key;
          assert fields[i + 1].key == key;
        }
      }
      r
  }

  /**
   * `v.key` for a value that is not null: an object's own field, and
   * `undefined` for every other value, since none of the property names the
   * source reads exists on the prototypes of strings, numbers, booleans or arrays.
   */
  function Property(v: Json, key: JsString): (r: Option<Json>)
    ensures r.Some? <==> v.Obj? && HasKey(v.fields, key)
    ensures r.Some? ==> exists i :: 0 <= i < |v.fields| && v.fields[i] == Field(key, r.value)
  {
    if v.Obj? then Lookup(v.fields, key) else None
  }

  /** `Object.values(o)` for an object o, in property order. */
  function Values(fields: seq<Field>): (r: seq<Json>)
    ensures |r| == |fields|
    ensures forall i :: 0 <= i < |fields| ==> r[i] == fields[i].value
  {
    if |fields| == 0 then [] else [fields[0].value] + Values(fields[1..])
  }

  const ToStringKey: JsString := Ascii("toString")
  const ObjectTag: JsString := Ascii("[object Object]")
  const Comma: JsString := Ascii(",")

  /**
   * `String(v)`. None stands for the TypeError thrown when an object has an own
   * `toString` field: a parsed value is never callable, so the conversion
   * finds no usable `toString` and `valueOf` returns the object itself. An
   * array converts as `join(",")`, with null elements as "".
   */
  function StringOf(v: Json): (r: Option<JsString>)
    ensures v.Str? ==> r == Some(v.s)
    ensures v.Num? ==> r == Some(v.text)
    ensures v.Obj? ==> (r.None? <==> HasKey(v.fields, ToStringKey))
    decreases v, 1
  {
    match v
    case Null => Some(Ascii("null"))
    case Bool(b) => Some(if b then Ascii("true") else Ascii("false"))
    case Num(_, text) => Some(text)
    case Str(s) => Some(s)
    case Arr(elems) => JoinElements(v, elems)
    case Obj(fields) => if HasKey(fields, ToStringKey) then None else Some(ObjectTag)
  }

  /** `Array.prototype.join(",")` over the given elements of the array parent. */
  function JoinElements(ghost parent: Json, elems: seq<Json>): (r: Option<JsString>)
    requires forall i :: 0 <= i < |elems| ==> elems[i] < parent
    ensures |elems| == 0 ==> r == Some([])
    decreases parent, 0, |elems|
  {
    if |elems| == 0 then Some([])
    else
      var head := if elems[0].Null? then Some([]) else StringOf(elems[0]);
      if |elems| == 1 then head
      else
        match (head, JoinElements(parent, elems[1..]))
        case (Some(h), Some(t)) => Some(h + Comma + t)
        case _ => None
  }
}

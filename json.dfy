/**
 * The JavaScript values the route and the library exchange: what
 * `JSON.parse` produces, plus `undefined` for a property that is absent, and
 * the thrown `Error` objects.
 */
module Json {
  import opened Wrappers

  datatype Value =
    | Undefined
    | Null
    | Bool(b: bool)
    | Num(n: real)
    | Str(s: string)
    | Arr(items: seq<Value>)
    | Obj(fields: map<string, Value>)

  /** A thrown JavaScript error object, seen through its `name` and `message`. */
  datatype JsError = JsError(name: string, message: string)

  /** `new Error(message)`. */
  function PlainError(message: string): (e: JsError)
    ensures e.name == "Error" && e.message == message
  {
    JsError("Error", message)
  }

  /** The `TypeError` the engine throws for a property read on `null` or `undefined`
      (or for serialising `undefined`); the engine's wording is not modelled. */
  const RuntimeTypeError := JsError("TypeError", "")

  /**
   * `v[key]` for a key that is not an inherited property: an object yields its
   * own field or `undefined`, other non-null values yield `undefined`, and
   * `null` or `undefined` throw.
   */
  function Property(v: Value, key: string): (r: Result<Value, JsError>)
    ensures r.Err? <==> v.Null? || v.Undefined?
    ensures r.Ok? && v.Obj? && key in v.fields ==> r.value == v.fields[key]
    ensures r.Ok? && !(v.Obj? && key in v.fields) ==> r.value == Undefined
  {
    match v
    case Undefined => Err(RuntimeTypeError)
    case Null => Err(RuntimeTypeError)
    case Obj(m) => Ok(if key in m then m[key] else Undefined)
    case _ => Ok(Undefined)
  }

  /** The same read where `null` and `undefined` are known not to occur. */
  function Field(m: map<string, Value>, key: string): (r: Value)
    ensures key in m ==> r == m[key]
    ensures key !in m ==> r.Undefined?
  {
    if key in m then m[key] else Undefined
  }

  /**
   * `v` carries everything `e` does: every key of every object in `e` is
   * present in `v` at the same place with a covering value, arrays have the
   * same length and cover element by element, and every other value is equal.
   * Keys of `v` that `e` lacks, at any depth, are free.
   */
  predicate Covers(v: Value, e: Value)
    decreases e
  {
    match e
    case Obj(f) => v.Obj? && forall k :: k in f ==> k in v.fields && Covers(v.fields[k], f[k])
    case Arr(es) => v.Arr? && |v.items| == |es| && forall i :: 0 <= i < |es| ==> Covers(v.items[i], es[i])
    case _ => v == e
  }

  /** A covered object's field is covered by the same field of the covering object. */
  lemma CoversAt(v: Value, f: map<string, Value>, k: string)
    requires Covers(v, Obj(f)) && k in f
    ensures v.Obj? && k in v.fields && Covers(Field(v.fields, k), f[k])
  {
  }

  /** Covering is transitive: adding keys to a covering value keeps it covering. */
  lemma {:induction false} CoversTransitive(w: Value, v: Value, e: Value)
    requires Covers(w, v) && Covers(v, e)
    ensures Covers(w, e)
    decreases e
  {
    match e
    case Obj(f) =>
      forall k | k in f ensures k in w.fields && Covers(w.fields[k], f[k]) {
        CoversTransitive(w.fields[k], v.fields[k], f[k]);
      }
    case Arr(es) =>
      forall i | 0 <= i < |es| ensures Covers(w.items[i], es[i]) {
        CoversTransitive(w.items[i], v.items[i], es[i]);
      }
    case _ =>
  }

  function Join(parts: seq<string>, sep: string): string {
    if parts == [] then ""
    else if |parts| == 1 then parts[0]
    else parts[0] + sep + Join(parts[1..], sep)
  }

  /**
   * The text `${v}` interpolates: JavaScript's ToString. Arrays are joined with
   * `,`, writing `null` and `undefined` elements as empty; plain objects print
   * as `[object Object]`. Number formatting is supplied by `numberText`.
   */
  function TemplateText(v: Value, numberText: real -> string): string
    decreases v
  {
    match v
    case Undefined => "undefined"
    case Null => "null"
    case Bool(b) => if b then "true" else "false"
    case Num(n) => numberText(n)
    case Str(s) => s
    case Arr(items) =>
      Join(seq(|items|, i requires 0 <= i < |items| =>
        if items[i].Null? || items[i].Undefined? then "" else TemplateText(items[i], numberText)), ",")
    case Obj(_) => "[object Object]"
  }
}

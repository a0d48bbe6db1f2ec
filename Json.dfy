/**
 * A parsed JSON request body and the JavaScript property reads the handlers
 * perform on it: plain reads `v.key`, optional-chaining reads `v?.key`, and
 * truthiness tests.
 */
module Json {
  import opened Wrappers
  import opened JsError
  import opened JsText

  /** A value as `JSON.parse` produces it. Numbers are kept as exact reals: the handlers only test their type and echo them. */
  datatype Value =
    | Null
    | Bool(b: bool)
    | Num(n: real)
    | Str(s: string)
    | Arr(items: seq<Value>)
    | Obj(fields: map<string, Value>)

  /** The result of a property read: `undefined`, or a value. */
  datatype Prop = Undefined | Defined(value: Value) {

    /** `typeof p === 'string'`. */
    predicate IsString() {
      Defined? && value.Str?
    }

    /** `typeof p === 'number'`. */
    predicate IsNumber() {
      Defined? && value.Num?
    }

    /** `p === undefined || p === null`, the values at which `?.` stops. */
    predicate IsNullish() {
      Undefined? || value.Null?
    }

    /**
     * JavaScript truthiness. The falsy values JSON can produce are `null`,
     * `false`, `0` and `""`; `undefined` is falsy too. Objects and arrays,
     * even empty ones, are truthy.
     */
    predicate Truthy()
      ensures Truthy() <==> Defined? && value !in {Null, Bool(false), Num(0.0), Str("")}
    {
      match this
      case Undefined => false
      case Defined(v) =>
        match v
        case Null => false
        case Bool(b) => b
        case Num(n) => n != 0.0
        case Str(s) => s != ""
        case Arr(_) => true
        case Obj(_) => true
    }
  }

  /**
   * `v[key]` on a value that is not `null`. Only objects have own
   * properties; the keys the handlers read are not inherited by strings,
   * numbers, booleans or arrays, so on those the read gives `undefined`.
   */
  function Lookup(v: Value, key: string): (p: Prop)
    ensures p.Defined? <==> v.Obj? && key in v.fields
    ensures p.Defined? ==> p.value == v.fields[key]
  {
    if v.Obj? && key in v.fields then Defined(v.fields[key]) else Undefined
  }

  /** The message with which V8 reports a property read on `null`. */
  function NullReadMessage(key: string): string {
    "Cannot read properties of null (reading '" + key + "')"
  }

  /** The message of a read on `null` mentions `JSON` only if the key does: its fixed text has no `J`. */
  lemma {:induction false} NullReadMessageWithoutJson(key: string)
    requires forall i :: 0 <= i < |key| ==> key[i] != 'J'
    ensures !Contains(NullReadMessage(key), "JSON")
  {
    var head := "Cannot read properties of null (reading '";
    var tail := "')";
    assert forall i :: 0 <= i < |head| ==> head[i] != 'J';
    assert forall i :: 0 <= i < |tail| ==> tail[i] != 'J';
    var m := NullReadMessage(key);
    assert m == head + key + tail;
    forall i | 0 <= i < |m| ensures m[i] != 'J' {
      if i < |head| {
        assert m[i] == head[i];
      } else if i < |head| + |key| {
        assert m[i] == key[i - |head|];
      } else {
        assert m[i] == tail[i - |head| - |key|];
      }
    }
    NotContainsWithoutLead(m, "JSON");
  }

  /** `v.key`: throws a TypeError when `v` is `null`, otherwise reads the property. */
  function Read(v: Value, key: string): (r: Result<Prop, Thrown>)
    ensures r.Failure? <==> v.Null?
    ensures r.Failure? ==> r.error == ErrorObject(TypeError, NullReadMessage(key))
    ensures r.Success? ==> r.value == Lookup(v, key)
  {
    if v.Null? then Failure(ErrorObject(TypeError, NullReadMessage(key))) else Success(Lookup(v, key))
  }

  /** `p?.key`: `undefined` when `p` is nullish, otherwise the property read. */
  function ReadOptional(p: Prop, key: string): (r: Prop)
    ensures r.Defined? <==> p.Defined? && p.value.Obj? && key in p.value.fields
    ensures r.Defined? ==> r.value == p.value.fields[key]
  {
    if p.IsNullish() then Undefined else Lookup(p.value, key)
  }
}

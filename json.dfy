/** The JavaScript values the client receives: the decoded JSON bodies of server responses,
    plus `undefined`, which is what reading a missing property yields. Numbers are integers:
    every number the server sends is an integer. */
module Json {
  import opened Text

  datatype Json =
    | Undefined
    | Null
    | Bool(b: bool)
    | Num(n: int)
    | Str(s: string)
    | Arr(items: seq<Json>)
    | Obj(fields: map<string, Json>)
  {
    /** `v == null`: reading a property of such a value throws a TypeError. */
    predicate IsNullish() { this.Undefined? || this.Null? }

    /** JavaScript truthiness (`if (v)`, `v && …`, `v || …`). */
    predicate Truthy() {
      match this
      case Undefined => false
      case Null => false
      case Bool(b) => b
      case Num(n) => n != 0
      case Str(s) => s != ""
      case Arr(_) => true
      case Obj(_) => true
    }

    /** `Array.isArray(v)`. */
    predicate IsArray() { this.Arr? }

    /** `v.key` on a value that is not nullish: an object's own field, or `undefined`. */
    function Get(key: string): (r: Json)
      requires !IsNullish()
      ensures this.Obj? && key in fields ==> r == fields[key]
      ensures !(this.Obj? && key in fields) ==> r == Undefined
    {
      if this.Obj? && key in fields then fields[key] else Undefined
    }

    /** `v?.key`: `undefined` instead of a TypeError on a nullish value. */
    function OptGet(key: string): (r: Json)
      ensures IsNullish() ==> r == Undefined
      ensures !IsNullish() ==> r == Get(key)
    {
      if IsNullish() then Undefined else Get(key)
    }

    /** `v || other`. */
    function Or(other: Json): (r: Json)
      ensures Truthy() ==> r == this
      ensures !Truthy() ==> r == other
    {
      if Truthy() then this else other
    }
  }

  function ItemsString(items: seq<Json>, whole: Json): string
    requires forall i | 0 <= i < |items| :: items[i] < whole
    decreases whole, 0, |items|
  {
    if items == [] then ""
    else
      var last := items[|items| - 1];
      var lastString := if last.IsNullish() then "" else JsString(last);
      if |items| == 1 then lastString else ItemsString(items[..|items| - 1], whole) + "," + lastString
  }

  /** `String(v)`, which is what `localStorage.setItem` stores. Array elements that are
      nullish become the empty string, as `Array.prototype.join` does. */
  function JsString(v: Json): string
    decreases v, 1
  {
    match v
    case Undefined => "undefined"
    case Null => "null"
    case Bool(b) => if b then "true" else "false"
    case Num(n) => IntToString(n)
    case Str(s) => s
    case Arr(items) => ItemsString(items, v)
    case Obj(_) => "[object Object]"
  }
}

/**
 * JsSemantics: the few JavaScript behaviours the raw insert path relies on.
 * Values and their truthiness, plain objects used as records, optional
 * values inside template literals, and the index clamping of
 * `Array.prototype.slice` and `String.prototype.substr`.
 */
module JsSemantics {
  import opened Results

  /** A JavaScript value, as far as the insert path tells values apart. */
  datatype Value =
    | Undefined
    | Null
    | Bool(b: bool)
    | Num(x: real)     // every number except NaN; -0 and 0 are both 0.0
    | NaN
    | Str(s: string)
    | Obj(id: nat)     // any object, array or date: always truthy

  /** JavaScript truthiness: undefined, null, false, 0, NaN and "" are falsy. */
  predicate Truthy(v: Value)
  {
    match v
    case Undefined => false
    case Null => false
    case Bool(b) => b
    case Num(x) => x != 0.0
    case NaN => false
    case Str(s) => s != ""
    case Obj(_) => true
  }

  /**
   * A plain object used as one row: `keys` is what `Object.keys` returns
   * (integer-like keys first in ascending order, then the other own
   * enumerable string keys in creation order), `fields` holds the values.
   */
  datatype Record = Record(keys: seq<string>, fields: map<string, Value>)

  /**
   * Property access `record[field]`: a name that is not one of the record's
   * own fields reads as undefined.
   */
  function Get(r: Record, field: string): (v: Value)
    ensures field !in r.fields ==> v == Undefined
    ensures field in r.fields ==> v == r.fields[field]
  {
    if field in r.fields then r.fields[field] else Undefined
  }

  /** `${x}` for an optional string: an unset value renders as "undefined". */
  function TemplateText(x: Option<string>): string
  {
    match x
    case Some(s) => s
    case None => "undefined"
  }

  /** `Math.min` on integers. */
  function Min(a: int, b: int): int
  {
    if a <= b then a else b
  }

  /**
   * `s.slice(start, end)` for a non-negative start: a negative end counts
   * from the back, both ends are clamped to the length, and an end at or
   * before the start gives the empty slice.
   */
  function Slice<T>(s: seq<T>, start: nat, end: int): (r: seq<T>)
    ensures start <= end <= |s| ==> r == s[start..end]
    ensures 0 <= end <= start ==> r == []
  {
    var e := if end < 0 then (if |s| + end < 0 then 0 else |s| + end)
             else if end > |s| then |s| else end;
    if start >= e then [] else s[start..e]
  }

  /**
   * `s.substr(start, length)` for a non-negative start: a negative length
   * counts as 0, and the result stops at the end of the string.
   */
  function Substr(s: string, start: nat, length: int): (r: string)
    ensures start <= |s| && 0 <= length <= |s| - start ==> r == s[start..start + length]
    ensures length <= 0 ==> r == ""
  {
    var b := if start > |s| then |s| else start;
    var n := if length < 0 then 0 else if length > |s| - b then |s| - b else length;
    s[b..b + n]
  }
}

/** Small value types shared by the metrics store and the reporting orchestrator. */
module Values {

  /** A value that may be absent: a missing key, `undefined`, the literal `null`, or
      JavaScript's NaN. */
  datatype Option<+T> = None | Some(value: T)

  /** A JSON-like value, the shape of the free-form objects callers hand to the store
      (custom events, timing metadata). Numbers are modelled as integers. */
  datatype Value =
    | Null
    | Bool(b: bool)
    | Num(n: int)
    | Str(s: string)
    | Arr(items: seq<Value>)
    | Obj(fields: map<string, Value>)

  /** A JavaScript object used as a record: own property name to value. */
  type Object = map<string, Value>
}

// JSON values as encoding/json decodes them into `any`.
module Json {
  datatype Value =
    | Null
    | Bool(b: bool)
    | Number(text: string)
    | Str(s: string)
    | Arr(items: seq<Value>)
    | Obj(fields: map<string, Value>)
  {
    predicate Leaf() { !Arr? && !Obj? }
  }
}

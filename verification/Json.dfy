/** The parsed form of a client configuration.
    An object is a map: two objects are equal when they hold the same entries, whatever order those were
    inserted in. The order in which an object is walked is a separate parameter wherever it is observable. */
module Json {

  type I64 = n: int | -0x8000_0000_0000_0000 <= n < 0x8000_0000_0000_0000

  datatype Value =
    | Null
    | Bool(flag: bool)
    | Int(n: I64)
    | Str(text: string)
    | Arr(items: seq<Value>)
    | Obj(fields: map<string, Value>)

  type Path = seq<string>
}

/** Decoded JSON trees. Numbers keep their text; an object is the members of a Go map, listed in some order. */
module Json {
  datatype Json =
    | Null
    | Bool(b: bool)
    | Num(text: string)
    | Str(s: string)
    | Arr(elements: seq<Json>)
    | Obj(members: seq<Member>)

  datatype Member = Member(key: string, value: Json)
}

/** Decoded JSON values, and paths into them. */
module Json {
  import opened Base

  datatype Value =
    | Null
    | Bool(b: bool)
    | Num(literal: string)
    | Str(s: string)
    | Arr(items: seq<Value>)
    | Obj(fields: map<string, Value>)

  datatype Hop = Field(key: string) | Item(index: nat)
  type Path = seq<Hop>

  /** The value a path leads to, if there is one. */
  function At(v: Value, path: Path): Option<Value>
    decreases |path|
  {
    if path == [] then Some(v)
    else
      match (v, path[0])
      case (Obj(fields), Field(key)) => if key in fields then At(fields[key], path[1..]) else None
      case (Arr(items), Item(index)) => if index < |items| then At(items[index], path[1..]) else None
      case _ => None
  }

  lemma AtField(fields: map<string, Value>, key: string, path: Path)
    requires key in fields
    ensures At(Obj(fields), [Field(key)] + path) == At(fields[key], path)
  {
    assert ([Field(key)] + path)[1..] == path;
  }

  lemma AtItem(items: seq<Value>, index: nat, path: Path)
    requires index < |items|
    ensures At(Arr(items), [Item(index)] + path) == At(items[index], path)
  {
    assert ([Item(index)] + path)[1..] == path;
  }
}

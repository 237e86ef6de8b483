/** The values a configuration document holds. Mappings keep insertion order, as Python dictionaries do. */
module Values {

  /** A float is known by its `repr`; number formatting itself is not modelled. */
  datatype Value =
    | Null
    | Bool(b: bool)
    | Int(n: int)
    | Float(repr: string)
    | Str(s: string)
    | List(items: seq<Value>)
    | Map(fields: seq<Field>)

  datatype Field = Field(key: string, value: Value)

  /** No key occurs twice, which every Python dictionary guarantees. */
  predicate UniqueKeys(fields: seq<Field>) {
    forall i, j :: 0 <= i < j < |fields| ==> fields[i].key != fields[j].key
  }
}

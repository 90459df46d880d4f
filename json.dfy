/** The attachment reference a message carries is a JSON text
    `{"url": ..., "type": ..., "name": ...}`. The JSON grammar is not modelled:
    JSON.parse and JSON.stringify are a pair of functions tied by the round-trip
    law, and a parsed value is seen only through the three fields the client reads. */
module Json {
  import opened Js

  /** What a parsed JSON text looks like to the client code. A field is present
      only if it holds a string; an array reads as an object without fields. */
  datatype Value =
    | Null
    | Object(url: Option<string>, kind: Option<string>, name: Option<string>)
    | Primitive  // a string, number or boolean

  /** `parse` returns None where JSON.parse throws a SyntaxError. */
  datatype Codec = Codec(parse: string -> Option<Value>, stringify: Value -> string)

  /** JSON.parse rejects the empty text and inverts JSON.stringify. */
  ghost predicate Lawful(c: Codec)
  {
    && c.parse("") == None
    && forall v :: c.parse(c.stringify(v)) == Some(v)
  }

  /** The text of a value is never empty. */
  lemma StringifyNonEmpty(c: Codec, v: Value)
    requires Lawful(c)
    ensures c.stringify(v) != ""
  {
    assert c.parse(c.stringify(v)) == Some(v);
  }

  /** The attachment record JSON.stringify receives, with all three fields strings. */
  function Attachment(url: string, kind: string, name: string): Value
  {
    Object(Some(url), Some(kind), Some(name))
  }
}

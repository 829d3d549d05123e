/** Values shared by every layer: JavaScript's `undefined`, thrown parse
    errors, and the textual codec (JSON.stringify / JSON.parse) that every
    cookie goes through. */
module Values {

  /** `T | undefined`: `None` is JavaScript's `undefined`. */
  datatype Option<+T> = None | Some(value: T)

  /** The exception JSON.parse throws on text that is not valid JSON. */
  datatype ParseError = SyntaxError(text: string)

  /** A call that either returns a value or throws a parse error. */
  datatype Result<+T> = Ok(value: T) | Err(error: ParseError)

  /** A statement that returns nothing, or throws. */
  datatype Outcome = Pass | Fail(error: ParseError)

  /** The serialization capability: `encode` stands for JSON.stringify and
      `decode` for JSON.parse, which may throw. `encode` is total: the
      TypeError JSON.stringify throws on a BigInt or a cyclic value is
      outside the model, so every store here succeeds. */
  datatype Codec<!T> = Codec(encode: T -> string, decode: string -> Result<T>)

  /** The codec's round-trip law for one value. */
  ghost predicate RoundTrips<T>(codec: Codec<T>, v: T) {
    codec.decode(codec.encode(v)) == Ok(v)
  }

  /** The entry stored under `key`, or `undefined` when there is none. */
  function Lookup(m: map<string, string>, key: string): (r: Option<string>)
    ensures r.Some? <==> key in m
    ensures r.Some? ==> m[key] == r.value
  {
    if key in m then Some(m[key]) else None
  }
}

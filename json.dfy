/**
 * The outcome of `json.loads` on the vision model's reply, abstracted.
 * The parser itself is outside the model.
 */
module Json {

  /** A JSON value as far as the interpreter looks at it: a string, or any
      other value (number, boolean, null, array, object) kept as its text. */
  datatype JsonValue = JString(s: string) | JNonString(raw: string)

  /** What `json.loads(analysis_text)` produced: an object with its members,
      a valid JSON value that is not an object, or a `JSONDecodeError`. */
  datatype ParseResult =
    | ParsedObject(members: map<string, JsonValue>)
    | ParsedNonObject
    | DecodeError
}

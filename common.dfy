/** Values shared by every part of the relay model. */
module Common {

  /** One octet of a byte buffer. */
  type Byte = b: int | 0 <= b < 256

  /** An optional value; `None` is an absent (`undefined`) property, or a `null` result. */
  datatype Option<+T> = None | Some(value: T)

  /** The string JavaScript produces when an optional string is concatenated:
      an absent value prints as "undefined". */
  function JsText(v: Option<string>): string
  {
    match v
    case Some(s) => s
    case None => "undefined"
  }

  /** JavaScript truthiness of an optional string: present and non-empty. */
  predicate Truthy(v: Option<string>)
  {
    v.Some? && v.value != ""
  }
}

/** Java value conventions the research service relies on: references that may be
    null, string concatenation with a possibly-null operand, and exceptions seen only
    through their message. */
module JavaText {

  /** A reference that may be null: `None` is `null`. */
  datatype Option<+T> = None | Some(value: T)

  /** A Java `String` reference. */
  type JString = Option<string>

  /** A thrown exception, as far as the service observes it: `getMessage()`, which may be null. */
  datatype Exception = Thrown(message: JString)

  /** Java's `prefix + s` for a literal prefix and a `String` reference `s`:
      a null `s` is rendered as the four characters "null". */
  function Concat(prefix: string, s: JString): string {
    match s
    case Some(v) => prefix + v
    case None => prefix + "null"
  }
}

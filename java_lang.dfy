/** Java's null references and exceptions, as values.

    A Java reference that may be null becomes a `Nullable`; a Java method that
    either returns a value or throws becomes a function with an `Outcome`. */
module JavaLang {

  /** A reference that may be null. */
  datatype Nullable<+T> = Null | NonNull(value: T)

  /** The exceptions the modelled code can raise. */
  datatype Exception =
    | IllegalArgumentException(message: string)
    | NullPointerException

  /** What a call does: return normally with a value, or throw. */
  datatype Outcome<+T> = Returned(value: T) | Threw(exception: Exception)

  /** The text string concatenation produces for a string reference:
      Java's `"..." + s` writes "null" for a null `s`. */
  function ConcatText(s: Nullable<string>): string
  {
    match s
    case Null => "null"
    case NonNull(v) => v
  }
}

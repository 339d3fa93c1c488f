/** Failure-compatible wrappers shared by every codec: an optional value (the
    source's nullable fields) and a result that is either a value or one of the
    three error kinds the codecs raise. */
module Results {

  datatype Option<+T> = None | Some(value: T)

  /** The JVM's signed 64-bit integer (Kotlin Long): pagination offsets and counts. */
  newtype Long = x: int | -0x8000_0000_0000_0000 <= x < 0x8000_0000_0000_0000

  /** The largest size a JVM list can have (Kotlin Int.MAX_VALUE). */
  const MaxListSize: nat := 0x7fff_ffff

  /** The error kinds of the codec layer. */
  datatype Error =
    | ParseError(msg: string)          // unexpected token type or sequence in a document
    | IllegalArgument(field: string)   // a required field is missing or empty
    | StreamCorruption(msg: string)    // a binary source ended early or held the wrong shape

  datatype Result<+T> = Ok(value: T) | Err(error: Error) {
    predicate IsFailure() {
      Err?
    }

    function PropagateFailure<U>(): Result<U>
      requires Err?
    {
      Err(error)
    }

    function Extract(): T
      requires Ok?
    {
      value
    }
  }

  /** A required field must be present. */
  function Present<T>(field: string, value: Option<T>): (r: Result<T>)
    ensures r.Ok? <==> value.Some?
    ensures r.Ok? ==> r.value == value.value
    ensures r.Err? ==> r.error == IllegalArgument(field)
  {
    if value.Some? then Ok(value.value) else Err(IllegalArgument(field))
  }
}

/**
 * Small shared vocabulary: Java's nullable references as `Option`, and the
 * runtime exceptions the library throws or lets through, as values.
 */
module Common {

  /** A nullable reference: `None` stands for Java's `null`. */
  datatype Option<T> = None | Some(value: T)

  /**
   * The exceptions that the modelled code throws or catches, with their
   * messages (an exception built without one carries "null", as Java prints
   * it). `Runtime` is any other RuntimeException, such as one raised by
   * client code, identified by its class name and message (an `Error` is
   * not among these). `Multi` is
   * MultiFailureException, which carries the failures it collected.
   */
  datatype Exn =
    | IllegalState(message: string)
    | NullPointer(message: string)
    | Unsupported(message: string)
    | NoSuchElement(message: string)
    | IndexOutOfBounds(message: string)
    | Runtime(className: string, message: string)
    | Multi(failures: seq<Exn>)

  /** Outcome of an operation that either returns a value or throws. */
  datatype Result<T> = Ok(value: T) | Throws(exn: Exn)

  /** A prefix one longer is the prefix and the next element. */
  lemma TakeOneMore<X>(s: seq<X>, i: nat)
    requires i < |s|
    ensures s[..i + 1] == s[..i] + [s[i]]
  {
  }

  lemma ConcatAssoc<X>(a: seq<X>, b: seq<X>, c: seq<X>)
    ensures a + b + c == a + (b + c)
  {
  }

  /** Moving the first element of `rest` to the end of the front part. */
  lemma ShiftOne<X>(front: seq<X>, rest: seq<X>)
    requires rest != []
    ensures front + rest == (front + [rest[0]]) + rest[1..]
  {
    assert rest == [rest[0]] + rest[1..];
    ConcatAssoc(front, [rest[0]], rest[1..]);
  }
}

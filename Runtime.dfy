/**
 * The pieces of the Java runtime that the modelled classes lean on:
 * a nullable value (Option), a call that either returns or throws
 * (Result for a value-returning call, Outcome for a void call), the
 * exceptions that are thrown, a class descriptor, and the decimal
 * rendering of an integer used by the exception messages.
 */
module Runtime {

  /** A Java reference that may be null. */
  datatype Option<+T> = None | Some(value: T) {
    /** `ObjectUtils.defaultIfNull(this, other)`. */
    function GetOr(other: T): T {
      match this
      case Some(v) => v
      case None => other
    }
  }

  /** A call that returns a value or throws. */
  datatype Result<+R, +E> = Success(value: R) | Failure(error: E)

  /** A call returning void that completes or throws. */
  datatype Outcome<+E> = Pass | Fail(error: E)

  /** The kinds of exception the modelled code throws. */
  datatype Kind =
    | IllegalArgumentException
    | IllegalStateException
    | UnsupportedOperationException
    | NullPointerException
    | ClassCastException
    | ArrayIndexOutOfBoundsException
    | NoSuchElementException
    | EqualityException
    | IdentityException
    | IllegalPropertyValueException
    | PropertyNotFoundException

  /**
   * A thrown exception: its class and its message. The message is empty when
   * the JVM raises the exception or when its formatted text is not modelled.
   */
  datatype Exception = Exception(kind: Kind, message: string)

  /**
   * An exception whose text is not modelled (a null dereference, an index out
   * of bounds, a formatted message): the message is an empty placeholder.
   */
  function Raised(kind: Kind): Exception {
    Exception(kind, "")
  }

  /**
   * A `java.lang.Class`, reduced to what the string helpers read from it:
   * `getName()` (for example "java.lang.Object") and `getSimpleName()`
   * (for example "Object"). The type hierarchy is kept abstract: wherever
   * `isAssignableFrom` or `isInstance` is needed it is passed in as a relation.
   */
  datatype JClass = JClass(name: string, simpleName: string)

  /** `to.isAssignableFrom(from)`: the abstract subtype relation. */
  type Hierarchy = (JClass, JClass) -> bool

  /** The class of `java.lang.Void`. */
  const VoidClass := JClass("java.lang.Void", "Void")

  function DigitChar(d: nat): (c: char)
    requires d < 10
    ensures '0' <= c <= '9'
  {
    "0123456789"[d]
  }

  /** Decimal digits of a non-negative number, without leading zeros. */
  function NatToString(n: nat): (s: string)
    ensures |s| > 0
    ensures forall i :: 0 <= i < |s| ==> '0' <= s[i] <= '9'
  {
    if n < 10 then [DigitChar(n)] else NatToString(n / 10) + [DigitChar(n % 10)]
  }

  /** `Long.toString(n)`, the rendering of `%d` and of string concatenation. */
  function IntToString(n: int): (s: string)
    ensures |s| > 0
    ensures (s[0] == '-') <==> n < 0
  {
    if n < 0 then "-" + NatToString(-n) else NatToString(n)
  }
}

/**
 * `org.cp.elements.lang.Assert`: precondition checks. Each check passes
 * (returns normally) or throws. Every check has two overloads in Java: one
 * taking the exception to throw, modelled here as `...Throwing(…, e)`, and
 * one taking a message, which throws an exception of a fixed kind and is
 * modelled under the plain name. Message formatting (`MessageFormat` and
 * `String.format`) is not modelled: `message` stands for the formatted text.
 */
module Assert {
  import opened Runtime

  /** The exception a message overload throws: of the given kind, with that message. */
  function Thrown(kind: Kind, message: string): Exception {
    Exception(kind, message)
  }

  /** Passes when `condition` holds, otherwise throws `e`. */
  function Check(condition: bool, e: Exception): (r: Outcome<Exception>)
    ensures r.Pass? <==> condition
    ensures r.Fail? ==> r.error == e
  {
    if condition then Pass else Fail(e)
  }

  // ---------------------------------------------------------------- argument

  /** `argument(Boolean, RuntimeException)`: `Boolean.TRUE.equals(valid)`, so null fails. */
  function ArgumentThrowing(valid: Option<bool>, e: Exception): (r: Outcome<Exception>)
    ensures r == Pass <==> valid == Some(true)
    ensures r.Fail? ==> r.error == e
  {
    Check(valid == Some(true), e)
  }

  /** `argument(Boolean, String, Object...)`: throws IllegalArgumentException. */
  function Argument(valid: Option<bool>, message: string): (r: Outcome<Exception>)
    ensures r == Pass <==> valid == Some(true)
    ensures r.Fail? ==> r.error == Exception(IllegalArgumentException, message)
  {
    ArgumentThrowing(valid, Thrown(IllegalArgumentException, message))
  }

  // ---------------------------------------------------------------- equals

  /**
   * `equals(Object, Object, RuntimeException)`: `obj1 != null && obj1.equals(obj2)`.
   * `equals` is value equality of the model; a null first operand always fails.
   */
  function EqualsThrowing<T(==)>(obj1: Option<T>, obj2: Option<T>, e: Exception): (r: Outcome<Exception>)
    ensures r == Pass <==> obj1.Some? && obj1 == obj2
    ensures r.Fail? ==> r.error == e
  {
    Check(obj1 != None && obj1 == obj2, e)
  }

  /** `equals(Object, Object, String, Object...)`: throws EqualityException. */
  function Equals<T(==)>(obj1: Option<T>, obj2: Option<T>, message: string): (r: Outcome<Exception>)
    ensures r == Pass <==> obj1.Some? && obj1 == obj2
    ensures r.Fail? ==> r.error == Exception(EqualityException, message)
  {
    EqualsThrowing(obj1, obj2, Thrown(EqualityException, message))
  }

  // ---------------------------------------------------------------- isAssignableTo

  /** `isAssignableTo(Class, Class, RuntimeException)`: both non-null and `to.isAssignableFrom(from)`. */
  function IsAssignableToThrowing(from: Option<JClass>, to: Option<JClass>, assignable: Hierarchy, e: Exception)
    : (r: Outcome<Exception>)
    ensures r == Pass <==> from.Some? && to.Some? && assignable(from.value, to.value)
    ensures r.Fail? ==> r.error == e
  {
    Check(from != None && to != None && assignable(from.value, to.value), e)
  }

  /** `isAssignableTo(Class, Class, String, Object...)`: throws ClassCastException. */
  function IsAssignableTo(from: Option<JClass>, to: Option<JClass>, assignable: Hierarchy, message: string)
    : (r: Outcome<Exception>)
    ensures r == Pass <==> from.Some? && to.Some? && assignable(from.value, to.value)
    ensures r.Fail? ==> r.error == Exception(ClassCastException, message)
  {
    IsAssignableToThrowing(from, to, assignable, Thrown(ClassCastException, message))
  }

  // ---------------------------------------------------------------- isFalse

  /** `isFalse(Boolean, RuntimeException)`: `Boolean.FALSE.equals(value)`; null and true fail. */
  function IsFalseThrowing(value: Option<bool>, e: Exception): (r: Outcome<Exception>)
    ensures r == Pass <==> value == Some(false)
    ensures r.Fail? ==> r.error == e
  {
    Check(value == Some(false), e)
  }

  /** `isFalse(Boolean, String, Object...)`: throws IllegalArgumentException. */
  function IsFalse(value: Option<bool>, message: string): (r: Outcome<Exception>)
    ensures r == Pass <==> value == Some(false)
    ensures r.Fail? ==> r.error == Exception(IllegalArgumentException, message)
  {
    IsFalseThrowing(value, Thrown(IllegalArgumentException, message))
  }

  // ---------------------------------------------------------------- isInstanceOf

  /**
   * `isInstanceOf(Object, Class, RuntimeException)`: `type.isInstance(obj)`.
   * A null object is an instance of nothing; a null type is dereferenced and
   * raises NullPointerException instead of `e`.
   */
  function IsInstanceOfThrowing<O>(obj: Option<O>, typ: Option<JClass>, instance: (O, JClass) -> bool, e: Exception)
    : (r: Outcome<Exception>)
    ensures typ.None? ==> r == Fail(Raised(NullPointerException))
    ensures typ.Some? ==> (r == Pass <==> obj.Some? && instance(obj.value, typ.value))
    ensures typ.Some? && r.Fail? ==> r.error == e
  {
    if typ.None? then Fail(Raised(NullPointerException))
    else Check(obj.Some? && instance(obj.value, typ.value), e)
  }

  /** `isInstanceOf(Object, Class, String, Object...)`: throws IllegalArgumentException. */
  function IsInstanceOf<O>(obj: Option<O>, typ: Option<JClass>, instance: (O, JClass) -> bool, message: string)
    : (r: Outcome<Exception>)
    ensures typ.None? ==> r == Fail(Raised(NullPointerException))
    ensures typ.Some? ==> (r == Pass <==> obj.Some? && instance(obj.value, typ.value))
    ensures typ.Some? && r.Fail? ==> r.error == Exception(IllegalArgumentException, message)
  {
    IsInstanceOfThrowing(obj, typ, instance, Thrown(IllegalArgumentException, message))
  }

  // ---------------------------------------------------------------- isTrue

  /** `isTrue(Boolean, RuntimeException)`: `Boolean.TRUE.equals(value)`; null and false fail. */
  function IsTrueThrowing(value: Option<bool>, e: Exception): (r: Outcome<Exception>)
    ensures r == Pass <==> value == Some(true)
    ensures r.Fail? ==> r.error == e
  {
    Check(value == Some(true), e)
  }

  /** `isTrue(Boolean, String, Object...)`: throws IllegalArgumentException. */
  function IsTrue(value: Option<bool>, message: string): (r: Outcome<Exception>)
    ensures r == Pass <==> value == Some(true)
    ensures r.Fail? ==> r.error == Exception(IllegalArgumentException, message)
  {
    IsTrueThrowing(value, Thrown(IllegalArgumentException, message))
  }

  // ---------------------------------------------------------------- notBlank

  /** A character that `String.trim()` strips: any code point up to U+0020. */
  predicate IsTrimmed(c: char) {
    c <= ' '
  }

  /** `String.trim()` without its trailing part: drops the leading trimmed characters. */
  function TrimLeading(s: string): (r: string)
    ensures |r| <= |s| && r == s[|s| - |r|..]
    ensures r != [] ==> !IsTrimmed(r[0])
    ensures forall i :: 0 <= i < |s| - |r| ==> IsTrimmed(s[i])
  {
    if |s| > 0 && IsTrimmed(s[0]) then TrimLeading(s[1..]) else s
  }

  /** Drops the trailing trimmed characters. */
  function TrimTrailing(s: string): (r: string)
    ensures |r| <= |s| && r == s[..|r|]
    ensures r != [] ==> !IsTrimmed(r[|r| - 1])
    ensures forall i :: |r| <= i < |s| ==> IsTrimmed(s[i])
  {
    if |s| > 0 && IsTrimmed(s[|s| - 1]) then TrimTrailing(s[..|s| - 1]) else s
  }

  /** `String.trim()`: the string without leading and trailing characters up to U+0020. */
  function Trim(s: string): (r: string)
    ensures r == [] <==> forall i :: 0 <= i < |s| ==> IsTrimmed(s[i])
    ensures r != [] ==> !IsTrimmed(r[0]) && !IsTrimmed(r[|r| - 1])
  {
    var lead := TrimLeading(s);
    var r := TrimTrailing(lead);
    r
  }

  /** `notBlank(String, RuntimeException)`: fails for null or when `trim()` leaves nothing. */
  function NotBlankThrowing(value: Option<string>, e: Exception): (r: Outcome<Exception>)
    ensures r == Pass <==> value.Some? && exists i :: 0 <= i < |value.value| && !IsTrimmed(value.value[i])
    ensures r.Fail? ==> r.error == e
  {
    Check(value != None && Trim(value.value) != "", e)
  }

  /** `notBlank(String, String, Object...)`: throws IllegalArgumentException. */
  function NotBlank(value: Option<string>, message: string): (r: Outcome<Exception>)
    ensures r == Pass <==> value.Some? && exists i :: 0 <= i < |value.value| && !IsTrimmed(value.value[i])
    ensures r.Fail? ==> r.error == Exception(IllegalArgumentException, message)
  {
    NotBlankThrowing(value, Thrown(IllegalArgumentException, message))
  }

  // ---------------------------------------------------------------- notEmpty

  /** `notEmpty(String, RuntimeException)`: `"".equals(value)` fails; a null String passes. */
  function NotEmptyStringThrowing(value: Option<string>, e: Exception): (r: Outcome<Exception>)
    ensures r.Fail? <==> value == Some("")
    ensures r.Fail? ==> r.error == e
  {
    Check(value != Some(""), e)
  }

  /** `notEmpty(String, String, Object...)`: throws IllegalArgumentException. */
  function NotEmptyString(value: Option<string>, message: string): (r: Outcome<Exception>)
    ensures r.Fail? <==> value == Some("")
    ensures r.Fail? ==> r.error == Exception(IllegalArgumentException, message)
  {
    NotEmptyStringThrowing(value, Thrown(IllegalArgumentException, message))
  }

  /** `notEmpty(Object[], RuntimeException)`: fails on null or length 0; null elements count. */
  function NotEmptyArrayThrowing<T>(arr: Option<seq<T>>, e: Exception): (r: Outcome<Exception>)
    ensures r == Pass <==> arr.Some? && |arr.value| > 0
    ensures r.Fail? ==> r.error == e
  {
    Check(arr != None && |arr.value| != 0, e)
  }

  /** `notEmpty(Object[], String, Object...)`: throws IllegalArgumentException. */
  function NotEmptyArray<T>(arr: Option<seq<T>>, message: string): (r: Outcome<Exception>)
    ensures r == Pass <==> arr.Some? && |arr.value| > 0
    ensures r.Fail? ==> r.error == Exception(IllegalArgumentException, message)
  {
    NotEmptyArrayThrowing(arr, Thrown(IllegalArgumentException, message))
  }

  /** `notEmpty(Collection, RuntimeException)`: fails on null or `isEmpty()`. */
  function NotEmptyCollectionThrowing<T>(collection: Option<multiset<T>>, e: Exception): (r: Outcome<Exception>)
    ensures r == Pass <==> collection.Some? && exists x :: x in collection.value
    ensures r.Fail? ==> r.error == e
  {
    Check(collection != None && |collection.value| != 0, e)
  }

  /** `notEmpty(Collection, String, Object...)`: throws IllegalArgumentException. */
  function NotEmptyCollection<T>(collection: Option<multiset<T>>, message: string): (r: Outcome<Exception>)
    ensures r == Pass <==> collection.Some? && exists x :: x in collection.value
    ensures r.Fail? ==> r.error == Exception(IllegalArgumentException, message)
  {
    NotEmptyCollectionThrowing(collection, Thrown(IllegalArgumentException, message))
  }

  /** `notEmpty(Map, RuntimeException)`: fails on null or `isEmpty()`. */
  function NotEmptyMapThrowing<K, V>(m: Option<map<K, V>>, e: Exception): (r: Outcome<Exception>)
    ensures r == Pass <==> m.Some? && exists k :: k in m.value
    ensures r.Fail? ==> r.error == e
  {
    Check(m != None && |m.value| != 0, e)
  }

  /** `notEmpty(Map, String, Object...)`: throws IllegalArgumentException. */
  function NotEmptyMap<K, V>(m: Option<map<K, V>>, message: string): (r: Outcome<Exception>)
    ensures r == Pass <==> m.Some? && exists k :: k in m.value
    ensures r.Fail? ==> r.error == Exception(IllegalArgumentException, message)
  {
    NotEmptyMapThrowing(m, Thrown(IllegalArgumentException, message))
  }

  // ---------------------------------------------------------------- notNull

  /** `notNull(Object, RuntimeException)`. */
  function NotNullThrowing<T>(obj: Option<T>, e: Exception): (r: Outcome<Exception>)
    ensures r == Pass <==> obj.Some?
    ensures r.Fail? ==> r.error == e
  {
    Check(obj != None, e)
  }

  /** `notNull(Object, String, Object...)`: throws NullPointerException. */
  function NotNull<T>(obj: Option<T>, message: string): (r: Outcome<Exception>)
    ensures r == Pass <==> obj.Some?
    ensures r.Fail? ==> r.error == Exception(NullPointerException, message)
  {
    NotNullThrowing(obj, Thrown(NullPointerException, message))
  }

  // ---------------------------------------------------------------- same

  /** `same(Object, Object, RuntimeException)`: reference identity, so two nulls pass. */
  function SameThrowing(obj1: object?, obj2: object?, e: Exception): (r: Outcome<Exception>)
    ensures r == Pass <==> obj1 == obj2
    ensures r.Fail? ==> r.error == e
  {
    Check(obj1 == obj2, e)
  }

  /** `same(Object, Object, String, Object...)`: throws IdentityException. */
  function Same(obj1: object?, obj2: object?, message: string): (r: Outcome<Exception>)
    ensures r == Pass <==> obj1 == obj2
    ensures r.Fail? ==> r.error == Exception(IdentityException, message)
  {
    SameThrowing(obj1, obj2, Thrown(IdentityException, message))
  }

  // ---------------------------------------------------------------- state

  /** `state(Boolean, RuntimeException)`: `Boolean.TRUE.equals(valid)`. */
  function StateThrowing(valid: Option<bool>, e: Exception): (r: Outcome<Exception>)
    ensures r == Pass <==> valid == Some(true)
    ensures r.Fail? ==> r.error == e
  {
    Check(valid == Some(true), e)
  }

  /** `state(Boolean, String, Object...)`: throws IllegalStateException. */
  function State(valid: Option<bool>, message: string): (r: Outcome<Exception>)
    ensures r == Pass <==> valid == Some(true)
    ensures r.Fail? ==> r.error == Exception(IllegalStateException, message)
  {
    StateThrowing(valid, Thrown(IllegalStateException, message))
  }

  // ---------------------------------------------------------------- supported

  /** `supported(Boolean, RuntimeException)`: `Boolean.TRUE.equals(supported)`. */
  function SupportedThrowing(supported: Option<bool>, e: Exception): (r: Outcome<Exception>)
    ensures r == Pass <==> supported == Some(true)
    ensures r.Fail? ==> r.error == e
  {
    Check(supported == Some(true), e)
  }

  /** `supported(Boolean, String, Object...)`: throws UnsupportedOperationException. */
  function Supported(supported: Option<bool>, message: string): (r: Outcome<Exception>)
    ensures r == Pass <==> supported == Some(true)
    ensures r.Fail? ==> r.error == Exception(UnsupportedOperationException, message)
  {
    SupportedThrowing(supported, Thrown(UnsupportedOperationException, message))
  }

  // ---------------------------------------------------------------- edge cases

  /** The edge cases the test suite pins down for the Boolean and equality checks. */
  lemma NullConditionsFail(e: Exception, message: string)
    ensures ArgumentThrowing(None, e) == Fail(e)
    ensures IsTrueThrowing(None, e) == Fail(e)
    ensures IsFalseThrowing(None, e) == Fail(e) && IsFalseThrowing(Some(true), e) == Fail(e)
    ensures StateThrowing(None, e) == Fail(e)
    ensures SupportedThrowing(None, e) == Fail(e)
    ensures Equals<int>(None, None, message) == Fail(Exception(EqualityException, message))
    ensures Same(null, null, message) == Pass
  {
  }

  /** "\0", "\t", "\n", "  " and "" are blank, and so is null; "_" is not. */
  lemma BlankStrings(message: string)
    ensures NotBlank(Some("\0"), message).Fail? && NotBlank(Some("\t"), message).Fail?
    ensures NotBlank(Some("\n"), message).Fail? && NotBlank(Some("  "), message).Fail?
    ensures NotBlank(Some(""), message).Fail? && NotBlank(None, message).Fail?
  {
  }

  /** A string with a character above U+0020 is not blank, for example "_". */
  lemma NonBlankString(message: string)
    ensures NotBlank(Some("_"), message) == Pass
  {
    assert !IsTrimmed("_"[0]);
  }

  /** A null String and every non-empty string, blank or not, pass `notEmpty(String)`. */
  lemma OnlyTheEmptyStringIsEmpty(s: string, message: string)
    requires s != ""
    ensures NotEmptyString(None, message) == Pass && NotEmptyString(Some(s), message) == Pass
    ensures NotEmptyString(Some(""), message).Fail?
  {
  }

  /** A one-slot array holding null is not empty; the null reference and a zero-length array are. */
  lemma ArrayWithNullSlotIsNotEmpty(message: string)
    ensures NotEmptyArray<Option<int>>(Some([None]), message) == Pass
    ensures NotEmptyArray<int>(Some([]), message).Fail? && NotEmptyArray<int>(None, message).Fail?
  {
  }
}

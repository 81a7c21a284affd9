# cp-elements core, modelled in Dafny

This project models the self-contained core of the `cp-elements` Java utility
library and proves what that code promises:

- `ArrayUtils`: array insert/remove/append/prepend, in-place swap and
  transform, filter/find/count, sub-arrays and the index-cursor iterators.
- `Assert`: every precondition check except `holdsLock`, with the exception
  kind each check throws.
- `LangExtensions.IsExpression`: the `is(x)` comparison DSL and its `not()`
  flag.
- `ClassUtils`: `getResourceName`, `getMethodSignature`, and the null rules of
  `assignableTo`, `instanceOf` and `notInstanceOf`.
- `SorterFactory`, `OrderedComparator` and the `enums.TimeUnit` table.
- `PropertiesAdapter`: a read-only view of a `Properties` table.
- `ThreadUtils.WaitTask`: its configuration builder.
- `AbstractBean`: the audit-field state, the property-to-field and
  property-to-callback tables, and the veto / apply / notify order of
  `processChange`.

## How it is modelled

Java's null is modelled as `Option` (`None`), or as `array?` for arrays.
Thrown exceptions are values: a `Result` or an `Outcome` carries an
`Exception(kind, message)`. `Raised(kind)` is an exception raised by the JVM
or with a formatted text the model does not build: its message is an empty
placeholder, so a contract that names `Raised(kind)` pins the kind and that
placeholder, never the JVM's own text. Each `.dfy` file is one module named after
its Java class. `Runtime.dfy` holds these shared types.

Each source file keeps its own form:

- Pure code becomes functions and lemmas. This covers `Assert`,
  `LangExtensions`, `SorterFactory`, `OrderedComparator`, `TimeUnit`, the
  expression half of `ArrayUtils` and most of `PropertiesAdapter`.
- Loops and in-place updates become methods with loop invariants, each proved
  against a function over sequences:
  - `ArrayUtils.Swap` and `ArrayUtils.Transform` modify their `array`;
  - `count`, `filter`, `findAll`, `find` and `subArray` loop with
    accumulators;
  - `ClassUtils.GetMethodSignature` builds its buffer in a loop;
  - `ClassUtils.NotInstanceOf` stops at the first match;
  - `PropertiesAdapter.Filter` copies entries in a loop.
- Objects whose fields change in place become classes:
  - `ArrayUtils.ArrayCursor`, the cursor behind `asIterator` and
    `asEnumeration`;
  - `ThreadUtils.WaitTask`;
  - `AbstractBean.Bean`, which keeps a `trace` of the outside effects of each
    change: veto checks, the application, and notifications.

## Model

| member | source | states |
|---|---|---|
| Assert.Check | src/main/java/org/cp/elements/lang/Assert.java:64-68 | a check passes exactly when its condition holds and otherwise throws exactly the given exception |
| Assert.ArgumentThrowing | src/main/java/org/cp/elements/lang/Assert.java:64-68 | `argument` passes iff the Boolean is exactly true (null fails) and throws the supplied exception otherwise |
| Assert.Argument | src/main/java/org/cp/elements/lang/Assert.java:51-53 | the message overload of `argument` throws IllegalArgumentException |
| Assert.EqualsThrowing | src/main/java/org/cp/elements/lang/Assert.java:97-101 | `equals` passes iff the first operand is non-null and equal to the second, so two nulls fail |
| Assert.Equals | src/main/java/org/cp/elements/lang/Assert.java:82-84 | the message overload of `equals` throws EqualityException |
| Assert.IsAssignableToThrowing | src/main/java/org/cp/elements/lang/Assert.java:161-165 | `isAssignableTo` passes iff both classes are non-null and assignable, else the supplied exception |
| Assert.IsAssignableTo | src/main/java/org/cp/elements/lang/Assert.java:148-150 | the message overload of `isAssignableTo` throws ClassCastException |
| Assert.IsFalseThrowing | src/main/java/org/cp/elements/lang/Assert.java:189-193 | `isFalse` passes iff the value is exactly false; null and true fail |
| Assert.IsFalse | src/main/java/org/cp/elements/lang/Assert.java:177-179 | the message overload of `isFalse` throws IllegalArgumentException |
| Assert.IsInstanceOfThrowing | src/main/java/org/cp/elements/lang/Assert.java:221-225 | a null type throws NullPointerException; otherwise `isInstanceOf` passes iff the object is a non-null instance, else the supplied exception |
| Assert.IsInstanceOf | src/main/java/org/cp/elements/lang/Assert.java:207-209 | the message overload of `isInstanceOf` throws IllegalArgumentException on a non-instance |
| Assert.IsTrueThrowing | src/main/java/org/cp/elements/lang/Assert.java:249-253 | `isTrue` passes iff the value is exactly true; null fails |
| Assert.IsTrue | src/main/java/org/cp/elements/lang/Assert.java:237-239 | the message overload of `isTrue` throws IllegalArgumentException |
| Assert.TrimLeading | src/main/java/org/cp/elements/lang/Assert.java:277-281 | `String.trim` drops exactly the leading chars at or below U+0020 and keeps a suffix |
| Assert.TrimTrailing | src/main/java/org/cp/elements/lang/Assert.java:277-281 | `String.trim` drops exactly the trailing chars at or below U+0020 and keeps a prefix |
| Assert.Trim | src/main/java/org/cp/elements/lang/Assert.java:277-281 | the trimmed string is empty iff every char is at or below U+0020; otherwise its ends are not blank |
| Assert.NotBlankThrowing | src/main/java/org/cp/elements/lang/Assert.java:277-281 | `notBlank` passes iff the string is non-null and has a char above U+0020 |
| Assert.NotBlank | src/main/java/org/cp/elements/lang/Assert.java:265-267 | the message overload of `notBlank` throws IllegalArgumentException |
| Assert.NotEmptyStringThrowing | src/main/java/org/cp/elements/lang/Assert.java:305-309 | `notEmpty(String)` fails only for `""`; a null String passes |
| Assert.NotEmptyString | src/main/java/org/cp/elements/lang/Assert.java:293-295 | the message overload throws IllegalArgumentException |
| Assert.NotEmptyArrayThrowing | src/main/java/org/cp/elements/lang/Assert.java:335-339 | `notEmpty(Object[])` passes iff the array is non-null with length > 0 |
| Assert.NotEmptyArray | src/main/java/org/cp/elements/lang/Assert.java:322-324 | the message overload throws IllegalArgumentException |
| Assert.NotEmptyCollectionThrowing | src/main/java/org/cp/elements/lang/Assert.java:363-367 | `notEmpty(Collection)` passes iff the collection is non-null and has an element |
| Assert.NotEmptyCollection | src/main/java/org/cp/elements/lang/Assert.java:351-353 | the message overload throws IllegalArgumentException |
| Assert.NotEmptyMapThrowing | src/main/java/org/cp/elements/lang/Assert.java:391-395 | `notEmpty(Map)` passes iff the map is non-null and has a key |
| Assert.NotEmptyMap | src/main/java/org/cp/elements/lang/Assert.java:379-381 | the message overload throws IllegalArgumentException |
| Assert.NotNullThrowing | src/main/java/org/cp/elements/lang/Assert.java:422-426 | `notNull` passes iff the object is non-null |
| Assert.NotNull | src/main/java/org/cp/elements/lang/Assert.java:408-410 | the message overload of `notNull` throws NullPointerException |
| Assert.SameThrowing | src/main/java/org/cp/elements/lang/Assert.java:455-459 | `same` passes iff the two references are identical |
| Assert.Same | src/main/java/org/cp/elements/lang/Assert.java:440-442 | the message overload of `same` throws IdentityException |
| Assert.StateThrowing | src/main/java/org/cp/elements/lang/Assert.java:482-486 | `state` passes iff the Boolean is exactly true |
| Assert.State | src/main/java/org/cp/elements/lang/Assert.java:470-472 | the message overload of `state` throws IllegalStateException |
| Assert.SupportedThrowing | src/main/java/org/cp/elements/lang/Assert.java:511-515 | `supported` passes iff the Boolean is exactly true |
| Assert.Supported | src/main/java/org/cp/elements/lang/Assert.java:499-501 | the message overload of `supported` throws UnsupportedOperationException |
| Assert.NullConditionsFail | src/main/java/org/cp/elements/lang/Assert.java:64-515  | null fails `argument`, `isTrue`, `isFalse`, `state` and `supported`; `equals(null, null)` fails; `same(null, null)` passes |
| Assert.BlankStrings | src/main/java/org/cp/elements/lang/Assert.java:277-281 | `"\0"`, `"\t"`, `"\n"`, `"  "`, `""` and null all fail `notBlank` |
| Assert.NonBlankString | src/main/java/org/cp/elements/lang/Assert.java:277-281 | a string with a visible char passes `notBlank` |
| Assert.OnlyTheEmptyStringIsEmpty | src/main/java/org/cp/elements/lang/Assert.java:305-309 | null and every non-empty string pass `notEmpty(String)`; `""` fails |
| Assert.ArrayWithNullSlotIsNotEmpty | src/main/java/org/cp/elements/lang/Assert.java:335-339 | a one-slot array holding null passes `notEmpty`; empty and null arrays fail |
| LangExtensions.IsExpression.Not | src/main/java/org/cp/elements/lang/LangExtensions.java:410-412 | `not()` keeps the subject and flips the expected outcome |
| LangExtensions.IsExpression.NotNull | src/main/java/org/cp/elements/lang/LangExtensions.java:414-416 | `notNull()` is the negation of `Null()` |
| LangExtensions.IsExpression.NotSameAs | src/main/java/org/cp/elements/lang/LangExtensions.java:422-424 | `notSameAs(y)` is the negation of `sameAs(y)` |
| LangExtensions.IsExpression.EqualTo | src/main/java/org/cp/elements/lang/LangExtensions.java:350-352 | a null subject is never equal to anything; otherwise equality is compared with the expected outcome |
| LangExtensions.Is | src/main/java/org/cp/elements/lang/LangExtensions.java:45-47 | `is(x)` wraps the subject with an expected outcome of true |
| LangExtensions.IsExpression.GetOp | src/main/java/org/cp/elements/lang/LangExtensions.java:329-331 | under `not()` the opposite connective over the negated outcomes gives the negation of the original combination (De Morgan) |
| LangExtensions.IsExpression.GetOutcome | src/main/java/org/cp/elements/lang/LangExtensions.java:333-335 | the test itself under `is(x)`, its negation under `not()` |
| LangExtensions.IsExpression.Null | src/main/java/org/cp/elements/lang/LangExtensions.java:418-420 | holds iff the subject is null, or under `not()` iff it is not |
| LangExtensions.IsExpression.SameAs | src/main/java/org/cp/elements/lang/LangExtensions.java:426-428 | reference identity as expected, so two nulls are the same |
| LangExtensions.IsExpression.InstanceOf | src/main/java/org/cp/elements/lang/LangExtensions.java:382-384 | a null type or a null subject fails (as expected); otherwise `type.isInstance(obj)` as expected |
| LangExtensions.True | src/main/java/org/cp/elements/lang/LangExtensions.java:430-432 | `Boolean.TRUE.equals(obj)` as expected; null is not true |
| LangExtensions.False | src/main/java/org/cp/elements/lang/LangExtensions.java:354-356 | `Boolean.FALSE.equals(obj)` as expected; null is not false |
| LangExtensions.AssignableFrom | src/main/java/org/cp/elements/lang/LangExtensions.java:342-344 | a null subject or type fails; otherwise `obj.isAssignableFrom(type)` as expected |
| LangExtensions.LessThan | src/main/java/org/cp/elements/lang/LangExtensions.java:386-388 | `x < u` as expected; a null subject or bound throws NullPointerException |
| LangExtensions.LessThanEqualTo | src/main/java/org/cp/elements/lang/LangExtensions.java:398-400 | `x <= u` as expected; a null subject or bound throws NullPointerException |
| LangExtensions.GreaterThan | src/main/java/org/cp/elements/lang/LangExtensions.java:358-360 | `x > l` as expected; a null subject or bound throws NullPointerException |
| LangExtensions.GreaterThanEqualTo | src/main/java/org/cp/elements/lang/LangExtensions.java:370-372 | `x >= l` as expected; a null subject or bound throws NullPointerException |
| LangExtensions.EqualByComparison | src/main/java/org/cp/elements/lang/LangExtensions.java:346-348 | `compareTo(o) == 0` as expected; a null subject or operand throws NullPointerException |
| LangExtensions.Combine | src/main/java/org/cp/elements/lang/LangExtensions.java:362-364 | both operands are evaluated first, so the first exception wins; otherwise the connective (or its De Morgan dual under `not()`) of the two outcomes |
| LangExtensions.Relational | src/main/java/org/cp/elements/lang/LangExtensions.java:346-400 | a relational test throws NullPointerException when the subject or the bound is null (`compareTo` on null, `Integer.compareTo(null)`); otherwise the comparison is matched against the expected outcome |
| LangExtensions.GreaterThanAndLessThan | src/main/java/org/cp/elements/lang/LangExtensions.java:362-364 | holds iff `lower < x < upper` (negated under `not()`); a null subject or bound throws NullPointerException |
| LangExtensions.GreaterThanAndLessThanEqualTo | src/main/java/org/cp/elements/lang/LangExtensions.java:366-368 | holds iff `lower < x <= upper`; a null subject or bound throws NullPointerException |
| LangExtensions.GreaterThanEqualToAndLessThan | src/main/java/org/cp/elements/lang/LangExtensions.java:374-376 | holds iff `lower <= x < upper`; a null subject or bound throws NullPointerException |
| LangExtensions.GreaterThanEqualToAndLessThanEqualTo | src/main/java/org/cp/elements/lang/LangExtensions.java:378-380 | holds iff `lower <= x <= upper`; a null subject or bound throws NullPointerException |
| LangExtensions.LessThanOrGreaterThan | src/main/java/org/cp/elements/lang/LangExtensions.java:390-392 | holds iff `x < upper` or `x > lower`; a null subject or bound throws NullPointerException |
| LangExtensions.LessThanOrGreaterThanEqualTo | src/main/java/org/cp/elements/lang/LangExtensions.java:394-396 | holds iff `x < upper` or `x >= lower`; a null subject or bound throws NullPointerException |
| LangExtensions.LessThanEqualToOrGreaterThan | src/main/java/org/cp/elements/lang/LangExtensions.java:402-404 | holds iff `x <= upper` or `x > lower`; a null subject or bound throws NullPointerException |
| LangExtensions.LessThanEqualToOrGreaterThanEqualTo | src/main/java/org/cp/elements/lang/LangExtensions.java:406-408 | holds iff `x <= upper` or `x >= lower`; a null subject or bound throws NullPointerException |
| LangExtensions.NotNegatesSimplePredicates | src/main/java/org/cp/elements/lang/LangExtensions.java:333-335  | `is(x).not().P == !is(x).P` for `Null`, `sameAs`, `equalTo` and `instanceOf` |
| LangExtensions.NotNegatesTypedPredicates | src/main/java/org/cp/elements/lang/LangExtensions.java:333-432  | the same for `True`, `False`, `assignableFrom` and the relational tests, whose null failure is kept |
| LangExtensions.NotComplementsCompoundPredicates | src/main/java/org/cp/elements/lang/LangExtensions.java:329-408  | `not()` on every compound range test yields the complement of the plain test (AND becomes OR and vice versa) |
| LangExtensions.DoubleNegation | src/main/java/org/cp/elements/lang/LangExtensions.java:410-412  | `not().not()` is the original expression |
| LangExtensions.NullSubject | src/main/java/org/cp/elements/lang/LangExtensions.java:350-356  | a null subject is `Null()`, is never `equalTo`, and satisfies neither `True()` nor `False()` |
| ArrayUtils.Mapped | src/main/java/org/cp/elements/util/ArrayUtils.java:664-673 | `transform` keeps the length |
| ArrayUtils.Accepted | src/main/java/org/cp/elements/util/ArrayUtils.java:290-303 | the accepted elements are never more than the input |
| ArrayUtils.Elements | src/main/java/org/cp/elements/util/ArrayUtils.java:477-479 | `nullSafeArray`: a null array reads as empty, otherwise its contents |
| ArrayUtils.InsertedAtShape | src/main/java/org/cp/elements/util/ArrayUtils.java:414-439 | an insert has length + 1, the element at the index, the prefix kept and the suffix shifted by one |
| ArrayUtils.RemoveAfterInsert | src/main/java/org/cp/elements/util/ArrayUtils.java:414-563  | `remove(insert(e, a, i), i) == a` |
| ArrayUtils.InsertAfterRemove | src/main/java/org/cp/elements/util/ArrayUtils.java:414-563  | re-inserting the removed element at its index restores the array |
| ArrayUtils.RemovedAtShape | src/main/java/org/cp/elements/util/ArrayUtils.java:543-563 | a removal has length - 1, the prefix kept and the suffix shifted down by one |
| ArrayUtils.SwappedShape | src/main/java/org/cp/elements/util/ArrayUtils.java:647-652 | a swap exchanges exactly the two slots, changes nothing else and permutes the contents |
| ArrayUtils.SwapTwiceRestores | src/main/java/org/cp/elements/util/ArrayUtils.java:647-652 | swapping the same two slots twice restores the array |
| ArrayUtils.AcceptedAppend | src/main/java/org/cp/elements/util/ArrayUtils.java:290-303 | filtering distributes over concatenation, so the original order is kept |
| ArrayUtils.AcceptedMembers | src/main/java/org/cp/elements/util/ArrayUtils.java:290-303 | an element is in the filtered array iff it is in the input and the filter accepts it |
| ArrayUtils.AcceptedExtremes | src/main/java/org/cp/elements/util/ArrayUtils.java:290-303 | an accept-all filter keeps everything and a reject-all filter keeps nothing |
| ArrayUtils.Count | src/main/java/org/cp/elements/util/ArrayUtils.java:225-227 | `count(array)` is the length, 0 for null |
| ArrayUtils.IsEmpty | src/main/java/org/cp/elements/util/ArrayUtils.java:450-452 | `isEmpty` holds iff the array is null or has length 0 |
| ArrayUtils.IsNotEmpty | src/main/java/org/cp/elements/util/ArrayUtils.java:463-465 | `isNotEmpty` holds iff the array is non-null with at least one element |
| ArrayUtils.GetFirstOrDefault | src/main/java/org/cp/elements/util/ArrayUtils.java:396-398 | `getFirst(a, d)` is `a[0]`, or `d` for a null or empty array |
| ArrayUtils.GetFirst | src/main/java/org/cp/elements/util/ArrayUtils.java:383-385 | `getFirst(a)` is `a[0]`, or null for a null or empty array |
| ArrayUtils.DefaultIfEmpty | src/main/java/org/cp/elements/util/ArrayUtils.java:262-264 | a non-empty array is returned as is, otherwise the default array |
| ArrayUtils.Insert | src/main/java/org/cp/elements/util/ArrayUtils.java:414-439 | a null array is rejected, and so is an index outside [0, length] with ArrayIndexOutOfBoundsException; otherwise a fresh array equal to the input with the element inserted, the input untouched |
| ArrayUtils.Append | src/main/java/org/cp/elements/util/ArrayUtils.java:72-74 | `append` is insert at the end: it succeeds exactly for a non-null array, with a fresh array `a + [e]`; null throws NullPointerException |
| ArrayUtils.Prepend | src/main/java/org/cp/elements/util/ArrayUtils.java:528-530 | `prepend` is insert at 0: it succeeds exactly for a non-null array, with a fresh array `[e] + a`; null throws NullPointerException |
| ArrayUtils.Remove | src/main/java/org/cp/elements/util/ArrayUtils.java:543-563 | a null array is rejected, and so is an index outside [0, length); otherwise a fresh array with that one slot deleted |
| ArrayUtils.Swap | src/main/java/org/cp/elements/util/ArrayUtils.java:647-652 | succeeds exactly for a non-null array and two valid indexes, returning the same array with the two slots exchanged in place; null fails with NullPointerException, a bad index with ArrayIndexOutOfBoundsException, and either failure leaves the array unchanged |
| ArrayUtils.Transform | src/main/java/org/cp/elements/util/ArrayUtils.java:664-673 | succeeds exactly for a non-null array and transformer, and then every slot is rewritten in place to `f(old)`; a null array or transformer is rejected before anything changes |
| ArrayUtils.CountAccepted | src/main/java/org/cp/elements/util/ArrayUtils.java:240-252 | `count(a, f)` is the number of accepted elements (`findAll`'s size); a null array counts 0; a null filter is rejected |
| ArrayUtils.FindAll | src/main/java/org/cp/elements/util/ArrayUtils.java:359-371 | `findAll` lists exactly the accepted elements in order; a null array gives an empty list |
| ArrayUtils.Filter | src/main/java/org/cp/elements/util/ArrayUtils.java:290-303 | succeeds exactly for a non-null array and filter, returning a fresh array of exactly the accepted elements in order; a null array or filter is rejected |
| ArrayUtils.Find | src/main/java/org/cp/elements/util/ArrayUtils.java:334-344 | `find` returns the first accepted element, or nothing when none is accepted or the array is null; a null filter is rejected. Java returns null both for no match and for an accepted null element, which `Option` keeps apart |
| ArrayUtils.FirstAcceptedIsHead | src/main/java/org/cp/elements/util/ArrayUtils.java:290-344  | the element `find` returns is the head of what `filter` returns |
| ArrayUtils.NoneAccepted | src/main/java/org/cp/elements/util/ArrayUtils.java:290-303 | a filter that accepts no element keeps nothing |
| ArrayUtils.SubArray | src/main/java/org/cp/elements/util/ArrayUtils.java:626-636 | a fresh array of the elements at the given indexes, in index order; a null argument throws NullPointerException and a bad index ArrayIndexOutOfBoundsException |
| ArrayUtils.ArrayCursor.Next | src/main/java/org/cp/elements/util/ArrayUtils.java:210-216  | yields the element at the cursor and advances it; past the end it throws NoSuchElementException and stays put |
| ArrayUtils.ArrayCursor.HasNext | src/main/java/org/cp/elements/util/ArrayUtils.java:205-207 | a cursor with a next element is valid, and a valid cursor without one is at the end of its array (or over null) |
| ArrayUtils.AsIterator | src/main/java/org/cp/elements/util/ArrayUtils.java:199-221 | a fresh cursor at 0 over the array, which has a next element iff the array is non-null and non-empty |
| ArrayUtils.AsEnumeration | src/main/java/org/cp/elements/util/ArrayUtils.java:154-176 | the same for `asEnumeration` |
| ClassUtils.GetSimpleName | src/main/java/org/cp/elements/lang/ClassUtils.java:407-409 | the simple name, or null for a null class |
| ClassUtils.AssignableTo | src/main/java/org/cp/elements/lang/ClassUtils.java:65-67 | `assignableTo` is false when `toType` is null, true when only `fromType` is null, and otherwise follows the class hierarchy |
| ClassUtils.InstanceOf | src/main/java/org/cp/elements/lang/ClassUtils.java:421-423 | `instanceOf` is false when the type or the object is null, and otherwise `type.isInstance(obj)` |
| ClassUtils.NotInstanceOf | src/main/java/org/cp/elements/lang/ClassUtils.java:619-627 | true for a null or empty types array; otherwise true iff the object is an instance of none of the types, and the loop stops just after the first match |
| ClassUtils.GetResourceName | src/main/java/org/cp/elements/lang/ClassUtils.java:124-126 | null for null; otherwise the class name with no dots left, followed by `.class` |
| ClassUtils.ResourceNameRecoversClassName | src/main/java/org/cp/elements/lang/ClassUtils.java:124-126 | replacing the slashes with dots again recovers the class name (dots became slashes one for one) |
| ClassUtils.ObjectResourceName | src/main/java/org/cp/elements/lang/ClassUtils.java:124-126 | `java.lang.Object` gives `java/lang/Object.class` |
| ClassUtils.GetMethodSignature | src/main/java/org/cp/elements/lang/ClassUtils.java:367-385 | the buffer the loop builds is `name(:p1, :p2...):ret`; a null method name throws NullPointerException |
| ClassUtils.LaterParametersSnoc | src/main/java/org/cp/elements/lang/ClassUtils.java:375-378 | each later parameter adds `, :` and its simple name |
| ClassUtils.ParameterListIsJoined | src/main/java/org/cp/elements/lang/ClassUtils.java:372-379 | the loop's output is the first parameter behind `:` and every later one behind `, :` |
| ClassUtils.NoParameters | src/main/java/org/cp/elements/lang/ClassUtils.java:372-379 | null or empty parameter types give empty parentheses `name():ret` |
| ClassUtils.VoidReturn | src/main/java/org/cp/elements/lang/ClassUtils.java:382 | a null or `Void` return type renders as `void`, any other as its simple name |
| ClassUtils.TwoParameterSignature | src/main/java/org/cp/elements/lang/ClassUtils.java:367-385 | two parameters print as `name(:P1, :P2):R`, and a null parameter type prints as `null` |
| SorterFactory.Supported | src/main/java/org/cp/elements/util/sort/SorterFactory.java:63-76 | the switch has a case for exactly BUBBLE_SORT, HEAP_SORT, INSERTION_SORT, MERGE_SORT, QUICK_SORT, SELECTION_SORT and SHELL_SORT |
| SorterFactory.Unsupported | src/main/java/org/cp/elements/util/sort/SorterFactory.java:77-79 | an IllegalArgumentException whose message is the fixed prefix, the tag as `%s` prints it, and the fixed suffix |
| SorterFactory.TagTextInjective | src/main/java/org/cp/elements/util/sort/SorterFactory.java:78-79 | no two tags, null included, print alike |
| SorterFactory.UnsupportedNamesTheTag | src/main/java/org/cp/elements/util/sort/SorterFactory.java:77-79 | different tags give different messages, so the message identifies the rejected tag |
| SorterFactory.AlgorithmFor | src/main/java/org/cp/elements/util/sort/SorterFactory.java:62-79 | succeeds iff the tag is non-null and supported; otherwise IllegalArgumentException naming the tag |
| SorterFactory.CreateSorter | src/main/java/org/cp/elements/util/sort/SorterFactory.java:61-80 | every successful call returns a freshly allocated sorter for the tag's algorithm |
| SorterFactory.SupportedTags | src/main/java/org/cp/elements/util/sort/SorterFactory.java:63-76 | each of BUBBLE, HEAP, INSERTION, MERGE, QUICK, SELECTION and SHELL maps to its own sorter |
| SorterFactory.DistinctTagsDistinctAlgorithms | src/main/java/org/cp/elements/util/sort/SorterFactory.java:63-76 | distinct supported tags give distinct algorithms |
| SorterFactory.NeverCombSort | src/main/java/org/cp/elements/util/sort/SorterFactory.java:62-79 | no tag produces a CombSort |
| SorterFactory.NullTagRejected | src/main/java/org/cp/elements/util/sort/SorterFactory.java:62-79  | a null tag falls to the default branch and the message prints `null` |
| SorterFactory.UnknownAndCombTagsRejected | src/main/java/org/cp/elements/util/sort/SorterFactory.java:77-79 | UNKONWN and COMB_SORT throw IllegalArgumentException naming the tag |
| OrderedComparator.Compare | src/main/java/org/cp/elements/lang/support/OrderedComparator.java:42-44 | -1, 0 or 1 exactly as the first index is below, equal to or above the second; a null operand throws NullPointerException |
| OrderedComparator.Reflexive | src/main/java/org/cp/elements/lang/support/OrderedComparator.java:43 | `compare(a, a) == 0` |
| OrderedComparator.Antisymmetric | src/main/java/org/cp/elements/lang/support/OrderedComparator.java:43 | `compare(a, b) == -compare(b, a)` |
| OrderedComparator.Transitive | src/main/java/org/cp/elements/lang/support/OrderedComparator.java:43 | "before" and "not after" are transitive |
| OrderedComparator.EqualCompareAlike | src/main/java/org/cp/elements/lang/support/OrderedComparator.java:43 | objects that compare equal compare alike against every third object |
| TimeUnit.TimeUnit.Ordinal | src/main/java/org/cp/elements/enums/TimeUnit.java:28-41 | every constant sits at its ordinal in `values()` |
| TimeUnit.TimeUnit.ToString | src/main/java/org/cp/elements/enums/TimeUnit.java:86-88 | `toString()` is the display name |
| TimeUnit.Fold | src/main/java/org/cp/elements/enums/TimeUnit.java:55 | the key `equalsIgnoreCase` compares characters by: ASCII letters fold to lower case, and so do U+017F, U+0131, U+0130 and U+212A, the characters whose JDK case mapping reaches an ASCII letter |
| TimeUnit.Lookup | src/main/java/org/cp/elements/enums/TimeUnit.java:53-71 | the search returns a unit whose key equals the given one ignoring case with no earlier match, or null when no unit matches |
| TimeUnit.ValueOfAbbreviation | src/main/java/org/cp/elements/enums/TimeUnit.java:53-61 | a unit whose abbreviation equals the key ignoring case, or null when none does (always for a null key) |
| TimeUnit.ValueOfName | src/main/java/org/cp/elements/enums/TimeUnit.java:63-71 | a unit whose name equals the key ignoring case, or null when none does (always for a null key) |
| TimeUnit.AllUnitsListed | src/main/java/org/cp/elements/enums/TimeUnit.java:28-41 | every unit is in `values()` |
| TimeUnit.LookupFindsFirst | src/main/java/org/cp/elements/enums/TimeUnit.java:54-58  | a lookup returns the first match in declaration order |
| TimeUnit.LookupIgnoresCase | src/main/java/org/cp/elements/enums/TimeUnit.java:55  | keys that differ only in case find the same unit |
| TimeUnit.AbbreviationsDistinct | src/main/java/org/cp/elements/enums/TimeUnit.java:28-41 | the abbreviations are pairwise distinct ignoring case |
| TimeUnit.NamesDistinct | src/main/java/org/cp/elements/enums/TimeUnit.java:28-41 | the names are pairwise distinct ignoring case |
| TimeUnit.AbbreviationRoundTrip | src/main/java/org/cp/elements/enums/TimeUnit.java:53-61  | `valueOfAbbreviation(u.getAbbreviation()) == u` for every unit |
| TimeUnit.NameRoundTrip | src/main/java/org/cp/elements/enums/TimeUnit.java:63-71  | `valueOfName(u.getName()) == u` for every unit |
| TimeUnit.AbbreviationLookupIgnoresCase | src/main/java/org/cp/elements/enums/TimeUnit.java:53-61 | any case variant of an abbreviation (e.g. "MS") finds its unit |
| TimeUnit.NameLookupIgnoresCase | src/main/java/org/cp/elements/enums/TimeUnit.java:63-71 | any case variant of a name finds its unit |
| TimeUnit.NullKeys | src/main/java/org/cp/elements/enums/TimeUnit.java:53-71 | a null key returns null from both lookups |
| TimeUnit.UnknownKeys | src/main/java/org/cp/elements/enums/TimeUnit.java:53-71 | a key that matches no unit under the JDK's case folding returns null from both lookups |
| TimeUnit.NonAsciiCaseVariants | src/main/java/org/cp/elements/enums/TimeUnit.java:53-61 | U+017F finds SECOND, "w" with U+212A finds WEEK and "m" with U+0130 finds MINUTE, as `equalsIgnoreCase` folds them |
| TimeUnit.ToStringIsDisplayName | src/main/java/org/cp/elements/enums/TimeUnit.java:86-88 | `toString()` is the display name and never the constant's name |
| PropertiesAdapter.Restricted | src/main/java/org/cp/elements/util/PropertiesAdapter.java:142-152 | exactly the entries whose names the filter accepts, with identical values |
| PropertiesAdapter.PropertiesAdapter.Contains | src/main/java/org/cp/elements/util/PropertiesAdapter.java:96-98 | whether the name is one `iterator()` walks; a null name throws NullPointerException (`Hashtable` keys are non-null) |
| PropertiesAdapter.PropertiesAdapter.GetOrDefault | src/main/java/org/cp/elements/util/PropertiesAdapter.java:176-178 | `get(n, d)` is the stored value, or `d` when absent; a null name throws NullPointerException |
| PropertiesAdapter.PropertiesAdapter.Get | src/main/java/org/cp/elements/util/PropertiesAdapter.java:161-163 | `get(n)` is `get(n, null)`, null exactly when `contains(n)` is false |
| PropertiesAdapter.PropertiesAdapter.GetAsType | src/main/java/org/cp/elements/util/PropertiesAdapter.java:129-131 | a null name throws; a present name gives whatever the conversion of its value gives (a value, null or an exception); an absent one the default, with no conversion |
| PropertiesAdapter.PropertiesAdapter.GetAsTypeOrNull | src/main/java/org/cp/elements/util/PropertiesAdapter.java:188-190 | as `getAsType` with a null default: null for an absent name, the conversion's result for a present one |
| PropertiesAdapter.PropertiesAdapter.Filter | src/main/java/org/cp/elements/util/PropertiesAdapter.java:142-152 | a new adapter holding exactly the accepted names with identical values; the original is unchanged; a null filter fails only once there is a name to test |
| PropertiesAdapter.PropertiesAdapter.Size | src/main/java/org/cp/elements/util/PropertiesAdapter.java:239-241 | `size()` is the number of names `iterator()` walks |
| PropertiesAdapter.PropertiesAdapter.IsEmpty | src/main/java/org/cp/elements/util/PropertiesAdapter.java:215-217 | `isEmpty()` holds iff there is no name to walk |
| PropertiesAdapter.PropertiesAdapter.Names | src/main/java/org/cp/elements/util/PropertiesAdapter.java:228-230 | the names `iterator()` walks are exactly the stored names |
| PropertiesAdapter.From | src/main/java/org/cp/elements/util/PropertiesAdapter.java:51-64  | null Properties are rejected with NullPointerException; otherwise the adapter wraps them |
| PropertiesAdapter.EmptyIffSizeZero | src/main/java/org/cp/elements/util/PropertiesAdapter.java:215-241  | `isEmpty()` holds iff `size() == 0` |
| PropertiesAdapter.SubsetSize | src/main/java/org/cp/elements/util/PropertiesAdapter.java:142-152 | a subset of names is no larger than the whole |
| PropertiesAdapter.FilterShrinks | src/main/java/org/cp/elements/util/PropertiesAdapter.java:142-152 | a filtered adapter never holds more properties than the original |
| PropertiesAdapter.FilterExtremes | src/main/java/org/cp/elements/util/PropertiesAdapter.java:142-152 | an accept-all filter reproduces the map and a reject-all filter empties it |
| PropertiesAdapter.FilterComposes | src/main/java/org/cp/elements/util/PropertiesAdapter.java:142-152 | filtering is idempotent, and two filters compose as their conjunction |
| ThreadUtils.IntervalOf | src/main/java/org/cp/elements/lang/concurrent/ThreadUtils.java:405-408 | `getInterval` never exceeds the duration: the interval when it is positive and smaller, the duration otherwise |
| ThreadUtils.ValidInterval | src/main/java/org/cp/elements/lang/concurrent/ThreadUtils.java:431-433 | a positive interval is valid iff its milliseconds do not exceed the duration's; a missing duration unit throws NullPointerException |
| ThreadUtils.WaitTask.constructor | src/main/java/org/cp/elements/lang/concurrent/ThreadUtils.java:382-392 | a new task has zero duration and interval and no units |
| ThreadUtils.WaitTask.GetDuration | src/main/java/org/cp/elements/lang/concurrent/ThreadUtils.java:395-397 | in every reachable state the duration is never negative and is positive exactly when its unit is set |
| ThreadUtils.WaitTask.GetDurationTimeUnit | src/main/java/org/cp/elements/lang/concurrent/ThreadUtils.java:400-402 | in every reachable state the unit is null exactly until a positive duration is set |
| ThreadUtils.WaitTask.GetInterval | src/main/java/org/cp/elements/lang/concurrent/ThreadUtils.java:405-408 | `getInterval() <= getDuration()` always, and never more than a positive interval |
| ThreadUtils.WaitTask.GetIntervalTimeUnit | src/main/java/org/cp/elements/lang/concurrent/ThreadUtils.java:411-413 | the interval unit if set, otherwise the duration unit |
| ThreadUtils.WaitTask.IsValidInterval | src/main/java/org/cp/elements/lang/concurrent/ThreadUtils.java:431-433 | a non-positive interval is invalid; a valid one is positive and no longer than the duration in milliseconds; a configured task never throws, one without a duration throws NullPointerException |
| ThreadUtils.WaitTask.WaitFor | src/main/java/org/cp/elements/lang/concurrent/ThreadUtils.java:421-428 | a duration of 0 or less is rejected with nothing changed; otherwise the duration is stored with its unit, null becoming MILLISECONDS, and the same task is returned |
| ThreadUtils.WaitTask.WaitForMillis | src/main/java/org/cp/elements/lang/concurrent/ThreadUtils.java:416-418 | `waitFor(d)` uses MILLISECONDS |
| ThreadUtils.WaitTask.CheckEvery | src/main/java/org/cp/elements/lang/concurrent/ThreadUtils.java:441-452 | a null unit becomes MILLISECONDS; an accepted interval is stored and the same task returned; a rejection leaves the interval and its unit unchanged |
| ThreadUtils.WaitTask.CheckEveryMillis | src/main/java/org/cp/elements/lang/concurrent/ThreadUtils.java:436-438 | `checkEvery(i)` uses MILLISECONDS |
| ThreadUtils.NewWaitFor | src/main/java/org/cp/elements/lang/concurrent/ThreadUtils.java:373-375 | the static `waitFor(d, unit)` configures a fresh task or rejects the duration |
| ThreadUtils.NewWaitForMillis | src/main/java/org/cp/elements/lang/concurrent/ThreadUtils.java:358-360 | the static `waitFor(d)` does so in MILLISECONDS |
| ThreadUtils.ConfiguredTaskPolls | src/main/java/org/cp/elements/lang/concurrent/ThreadUtils.java:405-413 | for every state the builder can reach, the polling interval lies in [0, duration], is positive iff a duration is set, and has a unit |
| ThreadUtils.IntervalIgnoresUnits | src/main/java/org/cp/elements/lang/concurrent/ThreadUtils.java:405-413 | `waitFor(5, SECONDS).checkEvery(10)` accepts the 10 ms interval, yet the task reports a polling period of 5 in MILLISECONDS |
| ThreadUtils.RejectedIntervals | src/main/java/org/cp/elements/lang/concurrent/ThreadUtils.java:431-433 | 2 s against 500 ms, and a negative interval, are invalid |
| AbstractBean.FieldNamed | src/main/java/org/cp/elements/beans/AbstractBean.java:444-453 | the field `setField` finds has the given name; with none, no state field has that name |
| AbstractBean.FieldName | src/main/java/org/cp/elements/beans/AbstractBean.java:200-202 | `getFieldName(p)` is the mapped field name, or `p` itself when unmapped or mapped to null |
| AbstractBean.ApplicationFor | src/main/java/org/cp/elements/beans/AbstractBean.java:673-681 | a field is set only without a callback, and it is the field `getFieldName` names, with the new value; a failure is NullPointerException exactly for a null registered callback, else PropertyNotFoundException |
| AbstractBean.Notifies | src/main/java/org/cp/elements/beans/AbstractBean.java:548-578 | the JDK support classes skip an event whose old and new values are equal and non-null |
| AbstractBean.Vetoed | src/main/java/org/cp/elements/beans/AbstractBean.java:571-578 | a veto check runs only with dispatch enabled, vetoable listeners and a notifying change, and then a listener may reject it |
| AbstractBean.ChangeOutcome | src/main/java/org/cp/elements/beans/AbstractBean.java:667-690 | a change fails exactly when it is vetoed (IllegalPropertyValueException) or its application fails (with that failure) |
| AbstractBean.VetoAbortsChange | src/main/java/org/cp/elements/beans/AbstractBean.java:667-690 | a veto leaves only the veto check behind: nothing applied, nothing notified, IllegalPropertyValueException |
| AbstractBean.VetoThenApplyThenNotify | src/main/java/org/cp/elements/beans/AbstractBean.java:667-690 | a completed change is applied once, after every veto check and before every notification; a failed one applies nothing and notifies nobody |
| AbstractBean.CompletedChangeNotifies | src/main/java/org/cp/elements/beans/AbstractBean.java:667-690 | with dispatch enabled, a change that is not vetoed, applies and changes the value fires its property change right after the application, and then a change event exactly when change listeners exist and the tracker reports the bean modified |
| AbstractBean.DisabledDispatchOnlyApplies | src/main/java/org/cp/elements/beans/AbstractBean.java:487-578  | with dispatch disabled no listener is consulted or notified and the change is still applied |
| AbstractBean.EqualValueIsNotNotified | src/main/java/org/cp/elements/beans/AbstractBean.java:548-578 | setting a property to the non-null value it holds consults no vetoable listener and fires no property change, but is still applied |
| AbstractBean.ApplicationPrecedence | src/main/java/org/cp/elements/beans/AbstractBean.java:673-681  | an explicit callback wins, then a registered callback (a null one throws NullPointerException), then the field `getFieldName(p)`, else PropertyNotFoundException |
| AbstractBean.FieldNameRule | src/main/java/org/cp/elements/beans/AbstractBean.java:200-202  | an unmapped property names its own field; mapping redirects it; a null mapping falls back to the property name |
| AbstractBean.FieldNamedRoundTrip | src/main/java/org/cp/elements/beans/AbstractBean.java:444-453 | every state field is found under its own name |
| AbstractBean.FieldChangeIsWritten | src/main/java/org/cp/elements/beans/AbstractBean.java:667-690  | an unvetoed change of a property naming a state field completes and writes the new value to that field |
| AbstractBean.Bean.constructor | src/main/java/org/cp/elements/beans/AbstractBean.java:98-100 | a new bean has every state field null, dispatch enabled and empty tables |
| AbstractBean.Bean.WithId | src/main/java/org/cp/elements/beans/AbstractBean.java:109-112 | the id is assigned directly and every other field is null |
| AbstractBean.Bean.IsNew | src/main/java/org/cp/elements/beans/AbstractBean.java:349-351 | a bean is new exactly while its id is null |
| AbstractBean.Bean.IsEventDispatchEnabled | src/main/java/org/cp/elements/beans/AbstractBean.java:179-181 | the dispatch flag; `SetEventDispatchEnabled` sets it and `Processing` states what it governs |
| AbstractBean.Bean.SetEventDispatchEnabled | src/main/java/org/cp/elements/beans/AbstractBean.java:189-191 | sets the flag and nothing else |
| AbstractBean.Bean.MapPropertyNameToFieldName | src/main/java/org/cp/elements/beans/AbstractBean.java:602-606 | stores the mapping and returns true; nothing else changes |
| AbstractBean.Bean.UnmapPropertyNameToFieldName | src/main/java/org/cp/elements/beans/AbstractBean.java:764-766 | removes the mapping and returns the previously mapped name, or null |
| AbstractBean.Bean.MapPropertyNameToParameterizedStateChangeCallback | src/main/java/org/cp/elements/beans/AbstractBean.java:616-621 | stores the callback and returns true |
| AbstractBean.Bean.UnmapPropertyNameToParameterizedStateChangeCallback | src/main/java/org/cp/elements/beans/AbstractBean.java:775-777 | removes the callback and returns whether a non-null one was present |
| AbstractBean.Bean.SetField | src/main/java/org/cp/elements/beans/AbstractBean.java:444-447 | writes one state field and no other |
| AbstractBean.Bean.Written | src/main/java/org/cp/elements/beans/AbstractBean.java:444-447 | the value a field holds after a pending write: the written value for its field, the current value for every other |
| AbstractBean.Bean.Write | src/main/java/org/cp/elements/beans/AbstractBean.java:667-690 | a field is written iff the change completes and is applied by setting a field; it gets the new value and the field is the one `getFieldName` names |
| AbstractBean.Bean.Processing | src/main/java/org/cp/elements/beans/AbstractBean.java:667-690 | in the bean's current state, a failed change only runs veto checks; a completed one applies its application once, after the veto checks and before the notifications; with dispatch disabled only the application happens |
| AbstractBean.Bean.ProcessChange | src/main/java/org/cp/elements/beans/AbstractBean.java:667-690  | appends the change's steps to the trace, returns its outcome, and writes at most the one field `Write` names |
| AbstractBean.Bean.SetId | src/main/java/org/cp/elements/beans/AbstractBean.java:220-222 | `setId` is `processChange("id", id, newId)`; when that writes the id field the bean is new iff the new id is null, otherwise `isNew()` is unchanged |
| AbstractBean.Bean.SetCreatedBy | src/main/java/org/cp/elements/beans/AbstractBean.java:130-132 | `setCreatedBy` is `processChange("createdBy", ...)` |
| AbstractBean.Bean.SetCreatedOn | src/main/java/org/cp/elements/beans/AbstractBean.java:150-152 | `setCreatedOn` is `processChange("createdOn", ...)` |
| AbstractBean.Bean.SetCreatedWith | src/main/java/org/cp/elements/beans/AbstractBean.java:170-172 | `setCreatedWith` is `processChange("createdWith", ...)` |
| AbstractBean.Bean.SetModifiedBy | src/main/java/org/cp/elements/beans/AbstractBean.java:295-298 | after a completed change, `lastModifiedBy` takes `modifiedBy` only while it is null; once set it never changes (unless `modifiedBy` is remapped onto it) |
| AbstractBean.Bean.SetModifiedOn | src/main/java/org/cp/elements/beans/AbstractBean.java:316-319 | the same first-write-wins rule for `lastModifiedOn` |
| AbstractBean.Bean.SetModifiedWith | src/main/java/org/cp/elements/beans/AbstractBean.java:338-341 | the same first-write-wins rule for `lastModifiedWith` |
| AbstractBean.IdentifyNewBean | src/main/java/org/cp/elements/beans/AbstractBean.java:349-351  | a bean starts new, and an unvetoed `setId` with a non-null id makes `isNew()` false |
| AbstractBean.FirstModifierIsKept | src/main/java/org/cp/elements/beans/AbstractBean.java:295-298 | after two unvetoed `setModifiedBy` calls, `modifiedBy` is the second user and `lastModifiedBy` the first |

## Left out

- Sorting: the sorter classes are not part of this model, and neither is the sort order. `ArrayUtils.sort` only delegates to `Arrays.sort`, a library call.
- `ArrayUtils.shuffle`: it draws from a clock-seeded `java.util.Random`.
- `ArrayUtils.asArray`, `asIterable`, `emptyArray`, `nullSafeLength`, `filterAndTransform`: they sit outside the modelled core. `asArray` over iterables depends on `CollectionUtils`, which is not part of this model.
- Array component types (`Array.newInstance`, `getComponentType`): this is reflection, so arrays are typed by Dafny's generic `T`.
- The message text of an exception the JVM raises (ArrayIndexOutOfBoundsException in `SubArray` and `Swap`, NullPointerException on a null dereference): `Raised(kind)` carries an empty placeholder instead, so those contracts pin the kind only.
- ArrayUtils.ArrayCursor: `asIterator` and `asEnumeration` share one cursor class. The model does not distinguish `Iterator.remove`, which is unsupported in both.
- Assert message formatting (`MessageFormat`/`String.format` of the arguments): the message overloads take the already-formatted message.
- `Assert.holdsLock`: it is about thread monitors.
- The class hierarchy: `isInstanceOf` and `isAssignableTo` take it as a parameter (`Hierarchy`), as does `ClassUtils`.
- `ClassUtils` reflection and class loading (`findConstructor`, `getMethod`, `loadClass`, …): they need a JVM.
- `ClassUtils.getMethodSignature(Method)`: it reads the method's name, parameter and return types reflectively and then calls the modelled overload.
- Fold: the JDK case mappings are modelled only for the characters whose mapping reaches an ASCII letter (the ASCII letters, U+017F, U+0131, U+0130 and U+212A); every other character folds to itself. Every key in the table is ASCII, so lookups agree with the JDK on every input; only a comparison of two non-ASCII characters, which no lookup makes, could differ.
- `SortType`: its source is not part of this model. Its constants are taken to be those `createSorter` names plus `COMB_SORT` and `UNKONWN`, and `%s` is taken to print the constant name.
- `PropertiesAdapter`: the `Properties` defaults chain and entries whose key or value is not a `String` (which `getProperty` reads as absent) are left out. The `ConversionService` is the parameter `convert`, which may give a value, null or an exception; `iterator()` is modelled only as the name set `Names()`.
- The `WaitTask` wait itself (`on`, `run`): it waits on wall-clock time and a monitor.
- `java.util.concurrent.TimeUnit.toMillis`: it saturates at `Long.MAX_VALUE`. The model scales exactly over unbounded integers, so it also has no 64-bit overflow on `long` fields.
- Listener plumbing in AbstractBean: `PropertyChangeSupport`/`VetoableChangeSupport` lists and `ChangeSupport` are abstracted as the `Listeners` value. The `ChangeTracker`'s `isModified()` is an abstract function of the trace. The change tracker always listens, so a property change is always fired when dispatch is enabled and the values differ.
- Exceptions thrown by a filter or transformer, and the partial update they leave: `ArrayUtils.CountAccepted`, `Filter`, `Find`, `FindAll`, `Transform` and `PropertiesAdapter.PropertiesAdapter.Filter` take them as total Dafny functions. In Java an exception from `accept` or `transform` propagates out of the call, and a `transform` that throws at slot k leaves slots 0 to k-1 already rewritten; the model does not represent either.
- Callback effects in AbstractBean: a state-change callback is recorded in the trace but its effect on the bean is not modelled, and neither is an exception it throws.
- `ObjectUtils.setField`: it is taken to throw IllegalArgumentException for a missing field, which `changeState` turns into PropertyNotFoundException. `ObjectUtils` is not part of this model, and only the ten audit fields exist on the modelled bean.
- Null property names in AbstractBean's tables (which its `TreeMap`s reject): the model does not represent them.
- AbstractBean's `equals`, `hashCode` and `compareTo`: they depend on `ObjectUtils` and `ComparatorUtils`, which are not part of this model.
- The message text of IllegalPropertyValueException and PropertyNotFoundException: both carry the empty placeholder of `Raised(kind)`; the formatted text is not modelled.
- NumberConverter, file filters and CLI helpers: outside the modelled core.

Notes on the code where it differs from its own documentation:

- `ArrayUtils.insert` and `remove` document IllegalArgumentException for a null array, but they call `Assert.notNull`, which throws NullPointerException. The model follows the code (`ArrayUtils.ArrayIsNull`).
- `ArrayUtils.remove` reports an invalid index as outside `[0, n]` although the valid range is `[0, n)`. The model keeps the message as written.
- `WaitTask.getInterval` takes the minimum of the raw numbers, whatever their units (see `ThreadUtils.IntervalIgnoresUnits`).
- `lastModified*` keep their first value. This holds unless a property is remapped onto one of those fields, in which case `processChange` itself writes it.


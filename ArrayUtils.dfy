/**
 * `org.cp.elements.util.ArrayUtils`: helpers over Java object arrays.
 * A Java array is an `array?<T>` (null allowed); a Java `Filter` or
 * `Transformer` argument is an `Option` of a function, `None` standing for
 * null. The operations that build a new array (`insert`, `remove`,
 * `filter`, `subArray`) return a freshly allocated array; `swap` and
 * `transform` update the caller's array in place. Each operation is specified
 * by a function over the array's contents (`InsertedAt`, `RemovedAt`,
 * `Swapped`, `Mapped`, `Accepted`, `Picked`), and those functions carry the
 * lemmas.
 */
module ArrayUtils {
  import opened Runtime
  import LangExtensions

  // ---------------------------------------------------------------- specification functions

  /** The contents with `element` placed at `index` and the rest shifted right. */
  function InsertedAt<T>(s: seq<T>, index: nat, element: T): seq<T>
    requires index <= |s|
  {
    s[..index] + [element] + s[index..]
  }

  /** The contents without the slot at `index`. */
  function RemovedAt<T>(s: seq<T>, index: nat): seq<T>
    requires index < |s|
  {
    s[..index] + s[index + 1..]
  }

  /** The contents with the slots `i` and `j` exchanged. */
  function Swapped<T>(s: seq<T>, i: nat, j: nat): seq<T>
    requires i < |s| && j < |s|
  {
    s[i := s[j]][j := s[i]]
  }

  /** The contents with every slot rewritten by `f`. */
  function Mapped<T>(s: seq<T>, f: T -> T): (r: seq<T>)
    ensures |r| == |s|
  {
    seq(|s|, k requires 0 <= k < |s| => f(s[k]))
  }

  /** The elements `accept` takes, in their original order. */
  function Accepted<T>(s: seq<T>, accept: T -> bool): (r: seq<T>)
    ensures |r| <= |s|
  {
    if s == [] then []
    else Accepted(s[..|s| - 1], accept) + (if accept(s[|s| - 1]) then [s[|s| - 1]] else [])
  }

  /** The elements at the given indices, in the order of the indices. */
  function Picked<T>(s: seq<T>, indices: seq<int>): seq<T>
    requires forall k :: 0 <= k < |indices| ==> 0 <= indices[k] < |s|
  {
    seq(|indices|, k requires 0 <= k < |indices| => s[indices[k]])
  }

  /** `nullSafeArray(array)`: the contents of the array, or nothing for null. */
  function Elements<T>(a: array?<T>): (s: seq<T>)
    reads a
    ensures a == null ==> s == []
    ensures a != null ==> s == a[..]
  {
    if a == null then [] else a[..]
  }

  // ---------------------------------------------------------------- properties of the specifications

  /** `insert` gives one more slot, the element at `index`, the prefix kept and the suffix shifted by one. */
  lemma InsertedAtShape<T>(s: seq<T>, index: nat, element: T)
    requires index <= |s|
    ensures |InsertedAt(s, index, element)| == |s| + 1
    ensures InsertedAt(s, index, element)[index] == element
    ensures forall k :: 0 <= k < index ==> InsertedAt(s, index, element)[k] == s[k]
    ensures forall k :: index < k <= |s| ==> InsertedAt(s, index, element)[k] == s[k - 1]
  {
  }

  /** `remove(insert(e, a, i), i)` gives back `a`. */
  lemma RemoveAfterInsert<T>(s: seq<T>, index: nat, element: T)
    requires index <= |s|
    ensures RemovedAt(InsertedAt(s, index, element), index) == s
  {
    var t := InsertedAt(s, index, element);
    assert t[..index] == s[..index];
    assert t[index + 1..] == s[index..];
  }

  /** Putting a removed element back where it was restores the contents. */
  lemma InsertAfterRemove<T>(s: seq<T>, index: nat)
    requires index < |s|
    ensures InsertedAt(RemovedAt(s, index), index, s[index]) == s
  {
    var t := RemovedAt(s, index);
    assert t[..index] == s[..index];
    assert t[index..] == s[index + 1..];
    assert s == s[..index] + [s[index]] + s[index + 1..];
  }

  /** `remove` gives one slot fewer: the prefix kept and the suffix shifted left by one. */
  lemma RemovedAtShape<T>(s: seq<T>, index: nat)
    requires index < |s|
    ensures |RemovedAt(s, index)| == |s| - 1
    ensures forall k :: 0 <= k < index ==> RemovedAt(s, index)[k] == s[k]
    ensures forall k :: index <= k < |s| - 1 ==> RemovedAt(s, index)[k] == s[k + 1]
  {
  }

  /** `swap` exchanges exactly the two slots and keeps the multiset of elements. */
  lemma SwappedShape<T>(s: seq<T>, i: nat, j: nat)
    requires i < |s| && j < |s|
    ensures |Swapped(s, i, j)| == |s|
    ensures Swapped(s, i, j)[i] == s[j] && Swapped(s, i, j)[j] == s[i]
    ensures forall k :: 0 <= k < |s| && k != i && k != j ==> Swapped(s, i, j)[k] == s[k]
    ensures multiset(Swapped(s, i, j)) == multiset(s)
  {
  }

  /** Swapping the same two slots twice restores the contents. */
  lemma SwapTwiceRestores<T>(s: seq<T>, i: nat, j: nat)
    requires i < |s| && j < |s|
    ensures Swapped(Swapped(s, i, j), i, j) == s
  {
  }

  /** Filtering distributes over concatenation: it keeps the original order. */
  lemma {:induction false} AcceptedAppend<T>(s: seq<T>, t: seq<T>, accept: T -> bool)
    ensures Accepted(s + t, accept) == Accepted(s, accept) + Accepted(t, accept)
    decreases |t|
  {
    if t == [] {
      assert s + t == s;
    } else {
      var u := t[..|t| - 1];
      assert (s + t)[..|s + t| - 1] == s + u;
      AcceptedAppend(s, u, accept);
    }
  }

  /** An element is kept exactly when it occurs in the contents and is accepted. */
  lemma {:induction false} AcceptedMembers<T>(s: seq<T>, accept: T -> bool, x: T)
    ensures x in Accepted(s, accept) <==> x in s && accept(x)
  {
    if s != [] {
      var init := s[..|s| - 1];
      AcceptedMembers(init, accept, x);
      assert s == init + [s[|s| - 1]];
    }
  }

  /** An accept-all filter keeps everything; a reject-all filter keeps nothing. */
  lemma {:induction false} AcceptedExtremes<T>(s: seq<T>)
    ensures Accepted(s, _ => true) == s
    ensures Accepted(s, _ => false) == []
  {
    if s != [] {
      AcceptedExtremes(s[..|s| - 1]);
    }
  }

  // ---------------------------------------------------------------- null-safe queries

  /** `count(array)`: the length, or 0 for null. */
  function Count<T>(a: array?<T>): (n: nat)
    ensures n == |Elements(a)|
  {
    if a != null then a.Length else 0
  }

  /** `isEmpty(array)`: null or no elements. */
  predicate IsEmpty<T>(a: array?<T>)
    ensures IsEmpty(a) <==> a == null || a.Length == 0
  {
    Count(a) == 0
  }

  /** `isNotEmpty(array)`: a non-null array with at least one element. */
  predicate IsNotEmpty<T>(a: array?<T>)
    ensures IsNotEmpty(a) <==> a != null && a.Length > 0
  {
    !IsEmpty(a)
  }


  /** `getFirst(array, defaultValue)`: `array[0]`, or the default when the array is null or empty. */
  function GetFirstOrDefault<T>(a: array?<T>, defaultValue: T): (r: T)
    reads a
    ensures a != null && a.Length > 0 ==> r == a[0]
    ensures a == null || a.Length == 0 ==> r == defaultValue
  {
    if IsNotEmpty(a) then a[0] else defaultValue
  }

  /** `getFirst(T...)`: `getFirst(array, null)`. */
  function GetFirst<T>(a: array?<T>): (r: Option<T>)
    reads a
    ensures r.Some? <==> a != null && a.Length > 0
    ensures r.Some? ==> r.value == a[0]
  {
    if IsNotEmpty(a) then Some(a[0]) else None
  }

  /** `defaultIfEmpty(array, defaultArray)`. */
  function DefaultIfEmpty<T>(a: array?<T>, defaultArray: array?<T>): (r: array?<T>)
    ensures a != null && a.Length > 0 ==> r == a
    ensures a == null || a.Length == 0 ==> r == defaultArray
  {
    if IsNotEmpty(a) then a else defaultArray
  }

  // ---------------------------------------------------------------- insert, append, prepend, remove

  const ArrayIsNull := Exception(NullPointerException, "Array cannot be null")
  const FilterIsNull := Exception(NullPointerException, "Filter cannot be null")
  const TransformerIsNull := Exception(NullPointerException, "Transformer cannot be null")

  /** The message of the ArrayIndexOutOfBoundsException thrown by `insert` and `remove`. */
  function InvalidIndex(index: int, length: nat): Exception {
    Exception(ArrayIndexOutOfBoundsException,
      "[" + IntToString(index) + "] is not a valid index [0, " + IntToString(length) + "] in the array")
  }

  /** `insert(element, array, index)`: a new array with `element` at `index`, for `0 <= index <= length`. */
  method Insert<T>(element: T, a: array?<T>, index: int) returns (r: Result<array<T>, Exception>)
    ensures a == null ==> r == Failure(ArrayIsNull)
    ensures a != null && !(0 <= index <= a.Length) ==> r == Failure(InvalidIndex(index, a.Length))
    ensures r.Success? <==> a != null && 0 <= index <= a.Length
    ensures r.Success? ==> fresh(r.value) && r.value[..] == InsertedAt(a[..], index, element)
  {
    if a == null {
      return Failure(ArrayIsNull);
    }
    var inRange := LangExtensions.GreaterThanEqualToAndLessThanEqualTo(LangExtensions.Is(Some(index)), Some(0), Some(a.Length));
    if inRange != Success(true) {
      return Failure(InvalidIndex(index, a.Length));
    }
    var n := a.Length;
    var b := new T[n + 1](_ => element);
    forall k | 0 <= k < index {
      b[k] := a[k];
    }
    b[index] := element;
    forall k | index < k <= n {
      b[k] := a[k - 1];
    }
    r := Success(b);
  }

  /** `append(element, array)`: `insert` at `count(array)`. */
  method Append<T>(element: T, a: array?<T>) returns (r: Result<array<T>, Exception>)
    ensures a == null <==> r == Failure(ArrayIsNull)
    ensures r.Success? <==> a != null
    ensures r.Success? ==> a != null && fresh(r.value) && r.value[..] == a[..] + [element]
  {
    r := Insert(element, a, Count(a));
    if r.Success? {
      assert a[..a.Length] == a[..];
    }
  }

  /** `prepend(element, array)`: `insert` at 0. */
  method Prepend<T>(element: T, a: array?<T>) returns (r: Result<array<T>, Exception>)
    ensures a == null <==> r == Failure(ArrayIsNull)
    ensures r.Success? <==> a != null
    ensures r.Success? ==> a != null && fresh(r.value) && r.value[..] == [element] + a[..]
  {
    r := Insert(element, a, 0);
  }

  /** `remove(array, index)`: a new array without the slot at `index`, for `0 <= index < length`. */
  method Remove<T>(a: array?<T>, index: int) returns (r: Result<array<T>, Exception>)
    ensures a == null ==> r == Failure(ArrayIsNull)
    ensures a != null && !(0 <= index < a.Length) ==> r == Failure(InvalidIndex(index, a.Length))
    ensures r.Success? <==> a != null && 0 <= index < a.Length
    ensures r.Success? ==> fresh(r.value) && r.value[..] == RemovedAt(a[..], index)
  {
    if a == null {
      return Failure(ArrayIsNull);
    }
    var inRange := LangExtensions.GreaterThanEqualToAndLessThan(LangExtensions.Is(Some(index)), Some(0), Some(a.Length));
    if inRange != Success(true) {
      return Failure(InvalidIndex(index, a.Length));
    }
    var n := a.Length;
    var b := new T[n - 1](k requires 0 <= k < n - 1 reads a => a[k]);
    forall k | index <= k < n - 1 {
      b[k] := a[k + 1];
    }
    r := Success(b);
  }

  // ---------------------------------------------------------------- in-place updates

  /** `swap(array, i, j)`: exchanges two slots in place and returns the same array. */
  method Swap<T>(a: array?<T>, i: int, j: int) returns (r: Result<array<T>, Exception>)
    modifies a
    ensures a == null ==> r == Failure(Raised(NullPointerException))
    ensures a != null && !(0 <= i < a.Length && 0 <= j < a.Length)
        ==> r == Failure(Raised(ArrayIndexOutOfBoundsException)) && a[..] == old(a[..])
    ensures r.Success? <==> a != null && 0 <= i < a.Length && 0 <= j < a.Length
    ensures r.Success? ==> a != null && r.value == a
    ensures r.Success? ==> a[..] == Swapped(old(a[..]), i, j)
  {
    if a == null {
      return Failure(Raised(NullPointerException));
    }
    if !(0 <= i < a.Length) || !(0 <= j < a.Length) {
      return Failure(Raised(ArrayIndexOutOfBoundsException));
    }
    var elementAtIndexOne := a[i];
    a[i] := a[j];
    a[j] := elementAtIndexOne;
    r := Success(a);
  }

  /** `transform(array, transformer)`: rewrites every slot in place to `transformer(old value)`. */
  method Transform<T>(a: array?<T>, transformer: Option<T -> T>) returns (r: Result<array<T>, Exception>)
    modifies a
    ensures a == null ==> r == Failure(ArrayIsNull)
    ensures a != null && transformer.None? ==> r == Failure(TransformerIsNull)
    ensures r.Failure? ==> a == null || a[..] == old(a[..])
    ensures r.Success? <==> a != null && transformer.Some?
    ensures r.Success? ==> a != null && r.value == a
    ensures r.Success? ==> a[..] == Mapped(old(a[..]), transformer.value)
  {
    if a == null {
      return Failure(ArrayIsNull);
    }
    if transformer.None? {
      return Failure(TransformerIsNull);
    }
    var f := transformer.value;
    var index := 0;
    while index < a.Length
      invariant 0 <= index <= a.Length
      invariant forall k :: 0 <= k < index ==> a[k] == f(old(a[k]))
      invariant forall k :: index <= k < a.Length ==> a[k] == old(a[k])
    {
      a[index] := f(a[index]);
      index := index + 1;
    }
    r := Success(a);
  }

  // ---------------------------------------------------------------- searching and filtering

  /** `count(array, filter)`: how many elements the filter accepts; a null array counts as empty. */
  method CountAccepted<T>(a: array?<T>, filter: Option<T -> bool>) returns (r: Result<nat, Exception>)
    ensures filter.None? ==> r == Failure(FilterIsNull)
    ensures filter.Some? ==> r == Success(|Accepted(Elements(a), filter.value)|)
  {
    if filter.None? {
      return Failure(FilterIsNull);
    }
    var accept := filter.value;
    ghost var s := Elements(a);
    var count := 0;
    var i := 0;
    while i < Count(a)
      invariant 0 <= i <= |s|
      invariant count == |Accepted(s[..i], accept)|
    {
      assert s[..i + 1][..i] == s[..i];
      if accept(a[i]) {
        count := count + 1;
      }
      i := i + 1;
    }
    assert s[..i] == s;
    r := Success(count);
  }

  /** `findAll(array, filter)`: the accepted elements in order; a null array counts as empty. */
  method FindAll<T>(a: array?<T>, filter: Option<T -> bool>) returns (r: Result<seq<T>, Exception>)
    ensures filter.None? ==> r == Failure(FilterIsNull)
    ensures filter.Some? ==> r == Success(Accepted(Elements(a), filter.value))
  {
    if filter.None? {
      return Failure(FilterIsNull);
    }
    var accept := filter.value;
    ghost var s := Elements(a);
    var list := [];
    var i := 0;
    while i < Count(a)
      invariant 0 <= i <= |s|
      invariant list == Accepted(s[..i], accept)
    {
      assert s[..i + 1][..i] == s[..i];
      if accept(a[i]) {
        list := list + [a[i]];
      }
      i := i + 1;
    }
    assert s[..i] == s;
    r := Success(list);
  }

  /** `filter(array, filter)`: a new array of the accepted elements, in their original order. */
  method Filter<T>(a: array?<T>, filter: Option<T -> bool>) returns (r: Result<array<T>, Exception>)
    ensures a == null ==> r == Failure(ArrayIsNull)
    ensures a != null && filter.None? ==> r == Failure(FilterIsNull)
    ensures r.Success? <==> a != null && filter.Some?
    ensures r.Success? ==> fresh(r.value) && r.value[..] == Accepted(a[..], filter.value)
  {
    if a == null {
      return Failure(ArrayIsNull);
    }
    if filter.None? {
      return Failure(FilterIsNull);
    }
    var accept := filter.value;
    var list := [];
    var i := 0;
    while i < a.Length
      invariant 0 <= i <= a.Length
      invariant list == Accepted(a[..i], accept)
    {
      assert a[..i + 1][..i] == a[..i];
      if accept(a[i]) {
        list := list + [a[i]];
      }
      i := i + 1;
    }
    assert a[..i] == a[..];
    var b := new T[|list|](k requires 0 <= k < |list| => list[k]);
    r := Success(b);
  }

  /**
   * `find(array, filter)`: the first accepted element, or null when there is
   * none; a null array counts as empty.
   */
  method Find<T>(a: array?<T>, filter: Option<T -> bool>) returns (r: Result<Option<T>, Exception>)
    ensures filter.None? ==> r == Failure(FilterIsNull)
    ensures filter.Some? ==> r.Success?
    ensures r.Success? && r.value.Some? ==>
      exists i :: 0 <= i < |Elements(a)| && Elements(a)[i] == r.value.value && filter.value(Elements(a)[i])
        && (forall j :: 0 <= j < i ==> !filter.value(Elements(a)[j]))
    ensures r.Success? && r.value.None? ==> forall j :: 0 <= j < |Elements(a)| ==> !filter.value(Elements(a)[j])
  {
    if filter.None? {
      return Failure(FilterIsNull);
    }
    var accept := filter.value;
    ghost var s := Elements(a);
    var i := 0;
    while i < Count(a)
      invariant 0 <= i <= |s|
      invariant forall j :: 0 <= j < i ==> !accept(s[j])
    {
      if accept(a[i]) {
        return Success(Some(a[i]));
      }
      i := i + 1;
    }
    r := Success(None);
  }

  /** The first element `find` returns is the head of what `findAll` returns. */
  lemma {:induction false} FirstAcceptedIsHead<T>(s: seq<T>, accept: T -> bool, i: nat)
    requires i < |s| && accept(s[i])
    requires forall j :: 0 <= j < i ==> !accept(s[j])
    ensures Accepted(s, accept) != [] && Accepted(s, accept)[0] == s[i]
  {
    NoneAccepted(s[..i], accept);
    var prefix := s[..i + 1];
    assert prefix[..i] == s[..i];
    assert Accepted(prefix, accept) == [s[i]];
    assert s == prefix + s[i + 1..];
    AcceptedAppend(prefix, s[i + 1..], accept);
  }

  /** A filter that accepts none of the elements keeps nothing. */
  lemma {:induction false} NoneAccepted<T>(s: seq<T>, accept: T -> bool)
    requires forall j :: 0 <= j < |s| ==> !accept(s[j])
    ensures Accepted(s, accept) == []
  {
    if s != [] {
      NoneAccepted(s[..|s| - 1], accept);
    }
  }

  /**
   * `subArray(array, indices...)`: a new array of the elements at the given
   * indices. A null array or null indices raise NullPointerException, an index
   * outside the array ArrayIndexOutOfBoundsException.
   */
  method SubArray<T>(a: array?<T>, indices: array?<int>) returns (r: Result<array<T>, Exception>)
    ensures a == null || indices == null ==> r == Failure(Raised(NullPointerException))
    ensures a != null && indices != null ==>
      (r.Success? <==> forall k :: 0 <= k < indices.Length ==> 0 <= indices[k] < a.Length)
    ensures a != null && indices != null && r.Failure? ==> r == Failure(Raised(ArrayIndexOutOfBoundsException))
    ensures r.Success? ==> a != null && indices != null && fresh(r.value)
    ensures r.Success? ==> r.value[..] == Picked(a[..], indices[..])
  {
    if indices == null || a == null {
      return Failure(Raised(NullPointerException));
    }
    var list := [];
    var i := 0;
    while i < indices.Length
      invariant 0 <= i <= indices.Length
      invariant forall k :: 0 <= k < i ==> 0 <= indices[k] < a.Length
      invariant |list| == i && forall k :: 0 <= k < i ==> list[k] == a[indices[k]]
    {
      var index := indices[i];
      if !(0 <= index < a.Length) {
        return Failure(Raised(ArrayIndexOutOfBoundsException));
      }
      list := list + [a[index]];
      i := i + 1;
    }
    var b := new T[|list|](k requires 0 <= k < |list| => list[k]);
    r := Success(b);
  }

  // ---------------------------------------------------------------- index cursors

  /**
   * The object `asIterator(array)` and `asEnumeration(array)` return: a cursor
   * over the array (read at each step, so later writes to the array show). Its
   * `hasNext`/`hasMoreElements` is `HasNext` and its `next`/`nextElement` is
   * `Next`. For a null array it behaves as the JDK's empty iterator.
   */
  class ArrayCursor<T> {
    const source: array?<T>
    var index: nat

    ghost predicate Valid()
      reads this
    {
      (source == null ==> index == 0) && (source != null ==> index <= source.Length)
    }

    constructor (source: array?<T>)
      ensures this.source == source && index == 0 && Valid()
    {
      this.source := source;
      index := 0;
    }

    /** `hasNext()`: `index < array.length`; a valid cursor without a next element is exhausted. */
    predicate HasNext()
      reads this
      ensures HasNext() ==> Valid()
      ensures Valid() && !HasNext() ==> source == null || index == source.Length
    {
      source != null && index < source.Length
    }

    /** `next()`: `array[index++]`, or NoSuchElementException("No more elements") past the end. */
    method Next() returns (r: Result<T, Exception>)
      requires Valid()
      modifies this
      ensures Valid()
      ensures old(HasNext()) ==> r == Success(source[old(index)]) && index == old(index) + 1
      ensures !old(HasNext()) ==> index == old(index)
      ensures !old(HasNext()) && source == null ==> r == Failure(Raised(NoSuchElementException))
      ensures !old(HasNext()) && source != null ==> r == Failure(Exception(NoSuchElementException, "No more elements"))
    {
      if source == null {
        return Failure(Raised(NoSuchElementException));
      }
      if !HasNext() {
        return Failure(Exception(NoSuchElementException, "No more elements"));
      }
      r := Success(source[index]);
      index := index + 1;
    }
  }

  /** `asIterator(array)`: a cursor at the first element. */
  method AsIterator<T>(a: array?<T>) returns (it: ArrayCursor<T>)
    ensures fresh(it) && it.Valid() && it.source == a && it.index == 0
    ensures it.HasNext() <==> a != null && a.Length > 0
  {
    it := new ArrayCursor(a);
  }

  /** `asEnumeration(array)`: the same cursor under the names of `Enumeration`. */
  method AsEnumeration<T>(a: array?<T>) returns (en: ArrayCursor<T>)
    ensures fresh(en) && en.Valid() && en.source == a && en.index == 0
    ensures en.HasNext() <==> a != null && a.Length > 0
  {
    en := new ArrayCursor(a);
  }
}

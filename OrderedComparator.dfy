/**
 * `org.cp.elements.lang.support.OrderedComparator`: orders `Ordered` objects
 * by their integer index. Either operand may be null, and `getIndex()` on a
 * null operand throws NullPointerException.
 */
module OrderedComparator {
  import opened Runtime

  /** An `Ordered` object, known by its `getIndex()`. */
  datatype Ordered = Ordered(index: int)

  /** `compare(ordered1, ordered2)`: -1, 0 or 1 as the first index is below, equal to or above the second. */
  function Compare(ordered1: Option<Ordered>, ordered2: Option<Ordered>): (r: Result<int, Exception>)
    ensures ordered1.None? || ordered2.None? <==> r == Failure(Raised(NullPointerException))
    ensures r.Success? ==> r.value == -1 || r.value == 0 || r.value == 1
    ensures ordered1.Some? && ordered2.Some? ==>
      && r.Success?
      && (r.value == -1 <==> ordered1.value.index < ordered2.value.index)
      && (r.value == 0 <==> ordered1.value.index == ordered2.value.index)
      && (r.value == 1 <==> ordered1.value.index > ordered2.value.index)
  {
    match (ordered1, ordered2)
    case (Some(o1), Some(o2)) =>
      Success(if o1.index < o2.index then -1 else if o1.index > o2.index then 1 else 0)
    case _ => Failure(Raised(NullPointerException))
  }

  /** Every object compares equal to itself. */
  lemma Reflexive(a: Ordered)
    ensures Compare(Some(a), Some(a)) == Success(0)
  {
  }

  /** Swapping the arguments negates the result. */
  lemma Antisymmetric(a: Ordered, b: Ordered)
    ensures Compare(Some(a), Some(b)).value == -Compare(Some(b), Some(a)).value
  {
  }

  /** Both "before" and "not after" are transitive, as `Comparator` requires. */
  lemma Transitive(a: Ordered, b: Ordered, c: Ordered)
    ensures Compare(Some(a), Some(b)) == Success(-1) && Compare(Some(b), Some(c)) == Success(-1)
         ==> Compare(Some(a), Some(c)) == Success(-1)
    ensures Compare(Some(a), Some(b)).value <= 0 && Compare(Some(b), Some(c)).value <= 0
         ==> Compare(Some(a), Some(c)).value <= 0
  {
  }

  /** Objects that compare equal compare the same way with every third object. */
  lemma EqualCompareAlike(a: Ordered, b: Ordered, c: Ordered)
    requires Compare(Some(a), Some(b)) == Success(0)
    ensures Compare(Some(a), Some(c)) == Compare(Some(b), Some(c))
  {
  }
}

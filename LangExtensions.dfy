/**
 * `org.cp.elements.lang.LangExtensions.IsExpression`: the `is(x)` DSL.
 * An expression holds a subject (possibly null) and an expected outcome,
 * true for `is(x)` and flipped by every `not()`. A simple predicate reports
 * whether its test came out as expected; a compound range predicate combines
 * two simple predicates of the same expression with AND or OR, and swaps the
 * connective when the expected outcome is false.
 *
 * The relational predicates are modelled over a nullable integer subject and
 * nullable integer bounds (`Integer.compareTo`); a null subject or a null
 * bound makes `compareTo` throw NullPointerException.
 */
module LangExtensions {
  import opened Runtime

  /** `LogicalOperator`, reduced to the two connectives the expression uses. */
  datatype LogicalOperator = And | Or {
    /** `getOpposite()`: AND and OR swap. */
    function Opposite(): LogicalOperator {
      if And? then Or else And
    }

    /** `evaluate(boolean...)` on two operands. */
    function Evaluate(a: bool, b: bool): bool {
      if And? then a && b else a || b
    }
  }

  datatype IsExpression<T(==)> = IsExpression(obj: Option<T>, expectedOutcome: bool) {

    /**
     * `getOp(op)`: the connective itself when the outcome is expected to be
     * true, else its opposite, which by De Morgan combines two negated
     * outcomes into the negation of the original combination.
     */
    function GetOp(op: LogicalOperator): (r: LogicalOperator)
      ensures forall a: bool, b: bool :: r.Evaluate(a, b) == (if expectedOutcome then op.Evaluate(a, b) else !op.Evaluate(!a, !b))
    {
      if expectedOutcome then op else op.Opposite()
    }

    /** `getOutcome(actual)`: the test itself under `is(x)`, its negation under `not()`. */
    function GetOutcome(actualOutcome: bool): (r: bool)
      ensures expectedOutcome ==> r == actualOutcome
      ensures !expectedOutcome ==> r == !actualOutcome
    {
      actualOutcome == expectedOutcome
    }

    /** `not()`: the same subject with the expected outcome flipped. */
    function Not(): (r: IsExpression<T>)
      ensures r.obj == obj && r.expectedOutcome != expectedOutcome
    {
      IsExpression(obj, !expectedOutcome)
    }

    /** `Null()`: whether the subject is null, as expected. */
    function Null(): (r: bool)
      ensures expectedOutcome ==> (r <==> obj.None?)
      ensures !expectedOutcome ==> (r <==> obj.Some?)
    {
      GetOutcome(obj == None)
    }

    /** `notNull()`, defined in the source as `not().Null()`. */
    function NotNull(): (r: bool)
      ensures r == !Null()
    {
      Not().Null()
    }

    /** `sameAs(o)`: reference identity (Dafny `==` on a class type is identity), so two nulls are the same. */
    function SameAs(other: Option<T>): (r: bool)
      ensures obj.None? && other.None? ==> r == expectedOutcome
      ensures expectedOutcome ==> (r <==> obj == other)
      ensures !expectedOutcome ==> (r <==> obj != other)
    {
      GetOutcome(obj == other)
    }

    /** `notSameAs(o)`, defined in the source as `not().sameAs(o)`. */
    function NotSameAs(other: Option<T>): (r: bool)
      ensures r == !SameAs(other)
    {
      Not().SameAs(other)
    }

    /** `equalTo(o)`: `obj != null && obj.equals(o)`, so a null subject never equals anything. */
    function EqualTo(other: Option<T>): (r: bool)
      ensures obj.None? ==> r == !expectedOutcome
      ensures obj.Some? ==> r == ((obj == other) == expectedOutcome)
    {
      GetOutcome(obj != None && obj == other)
    }

    /** `instanceOf(type)`: `type != null && type.isInstance(obj)`; null is an instance of nothing. */
    function InstanceOf(typ: Option<JClass>, instance: (T, JClass) -> bool): (r: bool)
      ensures typ.None? || obj.None? ==> r == !expectedOutcome
      ensures typ.Some? && obj.Some? ==> r == (instance(obj.value, typ.value) == expectedOutcome)
    {
      GetOutcome(typ != None && obj != None && instance(obj.value, typ.value))
    }
  }

  /** `is(x)`: a fresh expression expecting a true outcome. */
  function Is<T(==)>(obj: Option<T>): (e: IsExpression<T>)
    ensures e.obj == obj && e.expectedOutcome
  {
    IsExpression(obj, true)
  }

  /** `True()`: `Boolean.TRUE.equals(obj)`, so null is neither true nor false. */
  function True(e: IsExpression<bool>): (r: bool)
    ensures e.obj.None? ==> r == !e.expectedOutcome
    ensures e.obj.Some? ==> r == (e.obj.value == e.expectedOutcome)
  {
    e.GetOutcome(e.obj == Some(true))
  }

  /** `False()`: `Boolean.FALSE.equals(obj)`. */
  function False(e: IsExpression<bool>): (r: bool)
    ensures e.obj.None? ==> r == !e.expectedOutcome
    ensures e.obj.Some? ==> r == (e.obj.value != e.expectedOutcome)
  {
    e.GetOutcome(e.obj == Some(false))
  }

  /** `assignableFrom(type)` on a Class subject: `obj != null && type != null && obj.isAssignableFrom(type)`. */
  function AssignableFrom(e: IsExpression<JClass>, typ: Option<JClass>, assignable: Hierarchy): (r: bool)
    ensures e.obj.None? || typ.None? ==> r == !e.expectedOutcome
    ensures e.obj.Some? && typ.Some? ==> r == (assignable(typ.value, e.obj.value) == e.expectedOutcome)
  {
    e.GetOutcome(e.obj != None && typ != None && assignable(typ.value, e.obj.value))
  }

  // ---------------------------------------------------------------- relational predicates

  /**
   * The outcome of a relational test `test(obj.compareTo(bound))`: `compareTo`
   * on a null subject, or `Integer.compareTo` given a null bound, throws.
   */
  function Relational(e: IsExpression<int>, bound: Option<int>, test: (int, int) -> bool): (r: Result<bool, Exception>)
    ensures e.obj.None? || bound.None? <==> r == Failure(Raised(NullPointerException))
    ensures e.obj.Some? && bound.Some? ==> r == Success(test(e.obj.value, bound.value) == e.expectedOutcome)
  {
    if e.obj == None || bound == None then Failure(Raised(NullPointerException))
    else Success(e.GetOutcome(test(e.obj.value, bound.value)))
  }

  /** `lessThan(u)`. */
  function LessThan(e: IsExpression<int>, upper: Option<int>): (r: Result<bool, Exception>)
    ensures e.obj.None? || upper.None? ==> r == Failure(Raised(NullPointerException))
    ensures e.obj.Some? && upper.Some? ==> r == Success((e.obj.value < upper.value) == e.expectedOutcome)
  {
    Relational(e, upper, (x, u) => x < u)
  }

  /** `lessThanEqualTo(u)`. */
  function LessThanEqualTo(e: IsExpression<int>, upper: Option<int>): (r: Result<bool, Exception>)
    ensures e.obj.None? || upper.None? ==> r == Failure(Raised(NullPointerException))
    ensures e.obj.Some? && upper.Some? ==> r == Success((e.obj.value <= upper.value) == e.expectedOutcome)
  {
    Relational(e, upper, (x, u) => x <= u)
  }

  /** `greaterThan(l)`. */
  function GreaterThan(e: IsExpression<int>, lower: Option<int>): (r: Result<bool, Exception>)
    ensures e.obj.None? || lower.None? ==> r == Failure(Raised(NullPointerException))
    ensures e.obj.Some? && lower.Some? ==> r == Success((e.obj.value > lower.value) == e.expectedOutcome)
  {
    Relational(e, lower, (x, l) => x > l)
  }

  /** `greaterThanEqualTo(l)`. */
  function GreaterThanEqualTo(e: IsExpression<int>, lower: Option<int>): (r: Result<bool, Exception>)
    ensures e.obj.None? || lower.None? ==> r == Failure(Raised(NullPointerException))
    ensures e.obj.Some? && lower.Some? ==> r == Success((e.obj.value >= lower.value) == e.expectedOutcome)
  {
    Relational(e, lower, (x, l) => x >= l)
  }

  /** `equalByComparison(o)`: `compareTo(o) == 0`. */
  function EqualByComparison(e: IsExpression<int>, other: Option<int>): (r: Result<bool, Exception>)
    ensures e.obj.None? || other.None? ==> r == Failure(Raised(NullPointerException))
    ensures e.obj.Some? && other.Some? ==> r == Success((e.obj.value == other.value) == e.expectedOutcome)
  {
    Relational(e, other, (x, o) => x == o)
  }

  /**
   * `getOp(op).evaluate(first, second)`: both operands are evaluated before
   * the connective, so the first one to throw decides the exception.
   */
  function Combine(e: IsExpression<int>, op: LogicalOperator, first: Result<bool, Exception>,
                   second: Result<bool, Exception>): (r: Result<bool, Exception>)
    ensures first.Failure? ==> r == first
    ensures first.Success? && second.Failure? ==> r == second
    ensures first.Success? && second.Success? && e.expectedOutcome
         ==> r == Success(op.Evaluate(first.value, second.value))
    ensures first.Success? && second.Success? && !e.expectedOutcome
         ==> r == Success(!op.Evaluate(!first.value, !second.value))
  {
    if first.Failure? then first
    else if second.Failure? then second
    else Success(e.GetOp(op).Evaluate(first.value, second.value))
  }

  /** Whether a subject or one of two bounds is null, which makes a range test throw. */
  predicate AnyNull(e: IsExpression<int>, a: Option<int>, b: Option<int>) {
    e.obj.None? || a.None? || b.None?
  }

  /** `greaterThanAndLessThan(l, u)`: as expected, `l < x < u`; a null subject or bound throws. */
  function GreaterThanAndLessThan(e: IsExpression<int>, lower: Option<int>, upper: Option<int>): (r: Result<bool, Exception>)
    ensures AnyNull(e, lower, upper) ==> r == Failure(Raised(NullPointerException))
    ensures !AnyNull(e, lower, upper) ==> var x := e.obj.value; r == Success((lower.value < x < upper.value) == e.expectedOutcome)
  {
    Combine(e, And, GreaterThan(e, lower), LessThan(e, upper))
  }

  /** `greaterThanAndLessThanEqualTo(l, u)`: as expected, `l < x <= u`; a null subject or bound throws. */
  function GreaterThanAndLessThanEqualTo(e: IsExpression<int>, lower: Option<int>, upper: Option<int>): (r: Result<bool, Exception>)
    ensures AnyNull(e, lower, upper) ==> r == Failure(Raised(NullPointerException))
    ensures !AnyNull(e, lower, upper) ==> var x := e.obj.value; r == Success((lower.value < x <= upper.value) == e.expectedOutcome)
  {
    Combine(e, And, GreaterThan(e, lower), LessThanEqualTo(e, upper))
  }

  /** `greaterThanEqualToAndLessThan(l, u)`: as expected, `l <= x < u`; a null subject or bound throws. */
  function GreaterThanEqualToAndLessThan(e: IsExpression<int>, lower: Option<int>, upper: Option<int>): (r: Result<bool, Exception>)
    ensures AnyNull(e, lower, upper) ==> r == Failure(Raised(NullPointerException))
    ensures !AnyNull(e, lower, upper) ==> var x := e.obj.value; r == Success((lower.value <= x < upper.value) == e.expectedOutcome)
  {
    Combine(e, And, GreaterThanEqualTo(e, lower), LessThan(e, upper))
  }

  /** `greaterThanEqualToAndLessThanEqualTo(l, u)`: as expected, `l <= x <= u`; a null subject or bound throws. */
  function GreaterThanEqualToAndLessThanEqualTo(e: IsExpression<int>, lower: Option<int>, upper: Option<int>): (r: Result<bool, Exception>)
    ensures AnyNull(e, lower, upper) ==> r == Failure(Raised(NullPointerException))
    ensures !AnyNull(e, lower, upper) ==> var x := e.obj.value; r == Success((lower.value <= x <= upper.value) == e.expectedOutcome)
  {
    Combine(e, And, GreaterThanEqualTo(e, lower), LessThanEqualTo(e, upper))
  }

  /** `lessThanOrGreaterThan(u, l)`: as expected, `x < u || x > l`; a null subject or bound throws. */
  function LessThanOrGreaterThan(e: IsExpression<int>, upper: Option<int>, lower: Option<int>): (r: Result<bool, Exception>)
    ensures AnyNull(e, lower, upper) ==> r == Failure(Raised(NullPointerException))
    ensures !AnyNull(e, lower, upper) ==> var x := e.obj.value; r == Success((x < upper.value || x > lower.value) == e.expectedOutcome)
  {
    Combine(e, Or, LessThan(e, upper), GreaterThan(e, lower))
  }

  /** `lessThanOrGreaterThanEqualTo(u, l)`: as expected, `x < u || x >= l`; a null subject or bound throws. */
  function LessThanOrGreaterThanEqualTo(e: IsExpression<int>, upper: Option<int>, lower: Option<int>): (r: Result<bool, Exception>)
    ensures AnyNull(e, lower, upper) ==> r == Failure(Raised(NullPointerException))
    ensures !AnyNull(e, lower, upper) ==> var x := e.obj.value; r == Success((x < upper.value || x >= lower.value) == e.expectedOutcome)
  {
    Combine(e, Or, LessThan(e, upper), GreaterThanEqualTo(e, lower))
  }

  /** `lessThanEqualToOrGreaterThan(u, l)`: as expected, `x <= u || x > l`; a null subject or bound throws. */
  function LessThanEqualToOrGreaterThan(e: IsExpression<int>, upper: Option<int>, lower: Option<int>): (r: Result<bool, Exception>)
    ensures AnyNull(e, lower, upper) ==> r == Failure(Raised(NullPointerException))
    ensures !AnyNull(e, lower, upper) ==> var x := e.obj.value; r == Success((x <= upper.value || x > lower.value) == e.expectedOutcome)
  {
    Combine(e, Or, LessThanEqualTo(e, upper), GreaterThan(e, lower))
  }

  /** `lessThanEqualToOrGreaterThanEqualTo(u, l)`: as expected, `x <= u || x >= l`; a null subject or bound throws. */
  function LessThanEqualToOrGreaterThanEqualTo(e: IsExpression<int>, upper: Option<int>, lower: Option<int>): (r: Result<bool, Exception>)
    ensures AnyNull(e, lower, upper) ==> r == Failure(Raised(NullPointerException))
    ensures !AnyNull(e, lower, upper) ==> var x := e.obj.value; r == Success((x <= upper.value || x >= lower.value) == e.expectedOutcome)
  {
    Combine(e, Or, LessThanEqualTo(e, upper), GreaterThanEqualTo(e, lower))
  }

  // ---------------------------------------------------------------- properties

  /** The negation of a relational outcome; an exception stays an exception. */
  function Negated(r: Result<bool, Exception>): Result<bool, Exception> {
    if r.Success? then Success(!r.value) else r
  }

  /** `is(x).not().P` is `!is(x).P` for every simple predicate P. */
  lemma NotNegatesSimplePredicates<T>(e: IsExpression<T>, other: Option<T>, typ: Option<JClass>,
                                          instance: (T, JClass) -> bool)
    ensures e.Not().Null() == !e.Null()
    ensures e.Not().SameAs(other) == !e.SameAs(other)
    ensures e.Not().EqualTo(other) == !e.EqualTo(other)
    ensures e.Not().InstanceOf(typ, instance) == !e.InstanceOf(typ, instance)
  {
  }

  /** The same for the Boolean, Class and relational predicates. */
  lemma NotNegatesTypedPredicates(b: IsExpression<bool>, c: IsExpression<JClass>, typ: Option<JClass>,
                                  h: Hierarchy, e: IsExpression<int>, bound: Option<int>)
    ensures True(b.Not()) == !True(b) && False(b.Not()) == !False(b)
    ensures AssignableFrom(c.Not(), typ, h) == !AssignableFrom(c, typ, h)
    ensures LessThan(e.Not(), bound) == Negated(LessThan(e, bound))
    ensures LessThanEqualTo(e.Not(), bound) == Negated(LessThanEqualTo(e, bound))
    ensures GreaterThan(e.Not(), bound) == Negated(GreaterThan(e, bound))
    ensures GreaterThanEqualTo(e.Not(), bound) == Negated(GreaterThanEqualTo(e, bound))
    ensures EqualByComparison(e.Not(), bound) == Negated(EqualByComparison(e, bound))
  {
  }

  /** Negating a compound range test gives the complement of the plain test (De Morgan). */
  lemma NotComplementsCompoundPredicates(e: IsExpression<int>, lower: Option<int>, upper: Option<int>)
    ensures GreaterThanAndLessThan(e.Not(), lower, upper) == Negated(GreaterThanAndLessThan(e, lower, upper))
    ensures GreaterThanAndLessThanEqualTo(e.Not(), lower, upper)
         == Negated(GreaterThanAndLessThanEqualTo(e, lower, upper))
    ensures GreaterThanEqualToAndLessThan(e.Not(), lower, upper)
         == Negated(GreaterThanEqualToAndLessThan(e, lower, upper))
    ensures GreaterThanEqualToAndLessThanEqualTo(e.Not(), lower, upper)
         == Negated(GreaterThanEqualToAndLessThanEqualTo(e, lower, upper))
    ensures LessThanOrGreaterThan(e.Not(), upper, lower) == Negated(LessThanOrGreaterThan(e, upper, lower))
    ensures LessThanOrGreaterThanEqualTo(e.Not(), upper, lower)
         == Negated(LessThanOrGreaterThanEqualTo(e, upper, lower))
    ensures LessThanEqualToOrGreaterThan(e.Not(), upper, lower)
         == Negated(LessThanEqualToOrGreaterThan(e, upper, lower))
    ensures LessThanEqualToOrGreaterThanEqualTo(e.Not(), upper, lower)
         == Negated(LessThanEqualToOrGreaterThanEqualTo(e, upper, lower))
  {
  }

  /** `not().not()` is the un-negated expression. */
  lemma DoubleNegation<T>(e: IsExpression<T>)
    ensures e.Not().Not() == e
  {
  }

  /** Null subjects: `equalTo` is false whatever the argument; `True()` and `False()` both fail. */
  lemma NullSubject<T>(other: Option<T>)
    ensures !Is<T>(None).EqualTo(other) && Is<T>(None).Null()
    ensures !True(Is(None)) && !False(Is(None))
    ensures True(Is(Some(true))) && False(Is(Some(false)))
  {
  }
}

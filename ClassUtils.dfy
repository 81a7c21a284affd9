/**
 * The non-reflective part of `org.cp.elements.lang.ClassUtils`: the class-file
 * resource name of a class, the printed signature of a method, and the null
 * rules of `assignableTo`, `instanceOf` and `notInstanceOf`. The subtype
 * relation and `Class.isInstance` are parameters (`Hierarchy`, `instance`).
 */
module ClassUtils {
  import opened Runtime

  /** `CLASS_FILE_EXTENSION`. */
  const ClassFileExtension := ".class"

  // ---------------------------------------------------------------- null rules

  /**
   * `assignableTo(fromType, toType)`: false for a null `toType`, true for a
   * null `fromType` and a non-null `toType`, and otherwise the class hierarchy.
   */
  predicate AssignableTo(fromType: Option<JClass>, toType: Option<JClass>, assignable: Hierarchy)
    ensures toType.None? ==> !AssignableTo(fromType, toType, assignable)
    ensures toType.Some? && fromType.None? ==> AssignableTo(fromType, toType, assignable)
    ensures fromType.Some? && toType.Some? ==>
      (AssignableTo(fromType, toType, assignable) <==> assignable(fromType.value, toType.value))
  {
    toType.Some? && (fromType.None? || assignable(fromType.value, toType.value))
  }

  /** `instanceOf(obj, type)`: nothing is an instance of the null type, and null is an instance of nothing. */
  predicate InstanceOf<O>(obj: Option<O>, typ: Option<JClass>, instance: (O, JClass) -> bool)
    ensures typ.None? ==> !InstanceOf(obj, typ, instance)
    ensures obj.None? ==> !InstanceOf(obj, typ, instance)
    ensures obj.Some? && typ.Some? ==> (InstanceOf(obj, typ, instance) <==> instance(obj.value, typ.value))
  {
    typ.Some? && obj.Some? && instance(obj.value, typ.value)
  }

  /** `getSimpleName(type)`: null for the null type. */
  function GetSimpleName(typ: Option<JClass>): (r: Option<string>)
    ensures r.Some? <==> typ.Some?
    ensures r.Some? ==> r.value == typ.value.simpleName
  {
    match typ
    case None => None
    case Some(t) => Some(t.simpleName)
  }


  /**
   * `notInstanceOf(obj, types...)`: true when the object is an instance of none
   * of the types; a null or empty types array gives true. The loop stops at
   * the first type the object is an instance of; `probes` counts the
   * `instanceOf` tests it made.
   */
  method NotInstanceOf<O>(obj: Option<O>, types: array?<Option<JClass>>, instance: (O, JClass) -> bool)
    returns (result: bool, ghost probes: nat)
    ensures types == null ==> result && probes == 0
    ensures types != null ==> (result <==> forall k :: 0 <= k < types.Length ==> !InstanceOf(obj, types[k], instance))
    ensures types != null && result ==> probes == types.Length
    ensures types != null && !result ==>
      1 <= probes <= types.Length && InstanceOf(obj, types[probes - 1], instance)
      && forall k :: 0 <= k < probes - 1 ==> !InstanceOf(obj, types[k], instance)
  {
    result := true;
    probes := 0;
    var index := 0;
    var length := if types == null then 0 else types.Length;
    while result && index < length
      invariant 0 <= index <= length
      invariant probes == index
      invariant types != null || index == 0
      invariant types != null ==> forall k :: 0 <= k < index - 1 ==> !InstanceOf(obj, types[k], instance)
      invariant types != null && result && index > 0 ==> !InstanceOf(obj, types[index - 1], instance)
      invariant !result ==> index > 0 && InstanceOf(obj, types[index - 1], instance)
    {
      result := result && !InstanceOf(obj, types[index], instance);
      index := index + 1;
      probes := probes + 1;
    }
  }

  // ---------------------------------------------------------------- resource names

  /** `replaceAll("\\.", "/")`: every dot becomes a slash. */
  function DotsToSlashes(s: string): string {
    seq(|s|, i requires 0 <= i < |s| => if s[i] == '.' then '/' else s[i])
  }

  /** The inverse rewriting, used to read a class name back from its resource name. */
  function SlashesToDots(s: string): string {
    seq(|s|, i requires 0 <= i < |s| => if s[i] == '/' then '.' else s[i])
  }

  /** `getResourceName(type)`: the class name as a path plus ".class"; null for the null type. */
  function GetResourceName(typ: Option<JClass>): (r: Option<string>)
    ensures r.Some? <==> typ.Some?
    ensures r.Some? ==> |r.value| == |typ.value.name| + |ClassFileExtension|
    ensures r.Some? ==> r.value[|typ.value.name|..] == ClassFileExtension
    ensures r.Some? ==> forall i :: 0 <= i < |typ.value.name| ==> r.value[i] != '.'
  {
    match typ
    case None => None
    case Some(t) => Some(DotsToSlashes(t.name) + ClassFileExtension)
  }

  /** A class name without slashes can be read back from its resource name. */
  lemma ResourceNameRecoversClassName(t: JClass)
    requires forall i :: 0 <= i < |t.name| ==> t.name[i] != '/'
    ensures GetResourceName(Some(t)).Some?
    ensures SlashesToDots(GetResourceName(Some(t)).value[..|t.name|]) == t.name
  {
    var r := GetResourceName(Some(t)).value;
    assert r[..|t.name|] == DotsToSlashes(t.name);
  }

  /** The documented example: `java.lang.Object` lives at "java/lang/Object.class". */
  lemma ObjectResourceName()
    ensures GetResourceName(Some(JClass("java.lang.Object", "Object"))) == Some("java/lang/Object.class")
  {
    assert DotsToSlashes("java.lang.Object") + ".class" == "java/lang/Object.class";
  }

  // ---------------------------------------------------------------- method signatures

  /** `getSimpleName(parameterType)` as appended to a StringBuilder: a null type prints "null". */
  function ParameterName(p: Option<JClass>): string {
    match p
    case None => "null"
    case Some(t) => t.simpleName
  }

  /** The printed return type: "void" for null or `Void.class`, otherwise the simple name. */
  function ReturnName(returnType: Option<JClass>): string {
    if returnType.None? || returnType.value == VoidClass then "void" else returnType.value.simpleName
  }

  /** The parameter list as the loop builds it: ":" before the first name, ", :" before each later one. */
  function ParameterList(parameterTypes: seq<Option<JClass>>): string {
    if parameterTypes == [] then ""
    else
      var init := parameterTypes[..|parameterTypes| - 1];
      ParameterList(init) + (if |init| > 0 then ", :" else ":") + ParameterName(parameterTypes[|parameterTypes| - 1])
  }

  /** The whole signature, `name(:P1, :P2):R`; null parameter types print as an empty list. */
  function Signature(methodName: string, parameterTypes: Option<seq<Option<JClass>>>, returnType: Option<JClass>): string {
    methodName + "(" + (if parameterTypes.Some? then ParameterList(parameterTypes.value) else "") + "):"
      + ReturnName(returnType)
  }

  /**
   * `getMethodSignature(methodName, parameterTypes, returnType)`, appending to a
   * buffer. A null method name fails in the StringBuilder constructor.
   */
  method GetMethodSignature(methodName: Option<string>, parameterTypes: array?<Option<JClass>>,
                            returnType: Option<JClass>) returns (r: Result<string, Exception>)
    ensures methodName.None? ==> r == Failure(Raised(NullPointerException))
    ensures methodName.Some? ==> r == Success(Signature(methodName.value,
      if parameterTypes == null then None else Some(parameterTypes[..]), returnType))
  {
    if methodName.None? {
      return Failure(Raised(NullPointerException));
    }
    var buffer := methodName.value;
    buffer := buffer + "(";
    ghost var parameters := if parameterTypes == null then None else Some(parameterTypes[..]);
    if parameterTypes == null {
      assert buffer == methodName.value + "(" + "";
    } else {
      var index := 0;
      while index < parameterTypes.Length
        invariant 0 <= index <= parameterTypes.Length
        invariant buffer == methodName.value + "(" + ParameterList(parameterTypes[..index])
      {
        assert parameterTypes[..index + 1][..index] == parameterTypes[..index];
        buffer := buffer + (if index > 0 then ", :" else ":");
        buffer := buffer + ParameterName(parameterTypes[index]);
        index := index + 1;
      }
      assert parameterTypes[..index] == parameterTypes[..];
    }
    assert buffer == methodName.value + "(" + (if parameters.Some? then ParameterList(parameters.value) else "");
    buffer := buffer + "):";
    buffer := buffer + ReturnName(returnType);
    r := Success(buffer);
  }

  /** The parameter list read left to right: the first name after ":", each later one after ", :". */
  function JoinedParameters(parameterTypes: seq<Option<JClass>>): string {
    if parameterTypes == [] then ""
    else ":" + ParameterName(parameterTypes[0]) + LaterParameters(parameterTypes[1..])
  }

  function LaterParameters(parameterTypes: seq<Option<JClass>>): string {
    if parameterTypes == [] then ""
    else ", :" + ParameterName(parameterTypes[0]) + LaterParameters(parameterTypes[1..])
  }

  lemma {:induction false} LaterParametersSnoc(ps: seq<Option<JClass>>, p: Option<JClass>)
    ensures LaterParameters(ps + [p]) == LaterParameters(ps) + ", :" + ParameterName(p)
  {
    if ps != [] {
      assert (ps + [p])[1..] == ps[1..] + [p];
      LaterParametersSnoc(ps[1..], p);
    } else {
      assert [] + [p] == [p];
      assert [p][1..] == [];
    }
  }

  /** The buffer the loop builds is the left-to-right form `:P1, :P2, …, :Pn`. */
  lemma {:induction false} ParameterListIsJoined(parameterTypes: seq<Option<JClass>>)
    ensures ParameterList(parameterTypes) == JoinedParameters(parameterTypes)
  {
    if |parameterTypes| > 1 {
      var init := parameterTypes[..|parameterTypes| - 1];
      var last := parameterTypes[|parameterTypes| - 1];
      ParameterListIsJoined(init);
      assert parameterTypes[1..] == init[1..] + [last];
      LaterParametersSnoc(init[1..], last);
    }
  }

  /** Null or empty parameter types give empty parentheses, `name():R`. */
  lemma NoParameters(methodName: string, returnType: Option<JClass>)
    ensures Signature(methodName, None, returnType) == methodName + "():" + ReturnName(returnType)
    ensures Signature(methodName, Some([]), returnType) == methodName + "():" + ReturnName(returnType)
  {
  }

  /** A null or `Void` return type prints as "void"; any other prints its simple name. */
  lemma VoidReturn(returnType: JClass)
    ensures ReturnName(None) == "void" && ReturnName(Some(VoidClass)) == "void"
    ensures returnType != VoidClass ==> ReturnName(Some(returnType)) == returnType.simpleName
  {
  }

  /** Two parameters print as `name(:P1, :P2):R`, a null second type as `:null`. */
  lemma TwoParameterSignature(methodName: string, first: JClass, second: Option<JClass>, returnType: Option<JClass>)
    ensures Signature(methodName, Some([Some(first), second]), returnType)
         == methodName + "(" + ":" + first.simpleName + ", :" + ParameterName(second) + "):" + ReturnName(returnType)
    ensures second.None? ==> ParameterName(second) == "null"
  {
    var ps: seq<Option<JClass>> := [Some(first), second];
    assert ps[..1] == [Some(first)];
    assert ps[..1][..0] == [];
    assert ParameterList(ps[..1]) == ParameterList([]) + ":" + first.simpleName;
    assert ParameterList(ps[..1]) == ":" + first.simpleName;
    assert ParameterList(ps) == ParameterList(ps[..1]) + ", :" + ParameterName(second);
    assert ParameterList(ps) == ":" + first.simpleName + ", :" + ParameterName(second);
  }
}

/**
 * `org.cp.elements.util.PropertiesAdapter`: a read-only view of a
 * `java.util.Properties` table, modelled as a map from property names to
 * values. The `ConversionService` is a parameter (`convert`) that may return
 * a value, null or an exception; the defaults chain of `Properties` is not
 * modelled.
 */
module PropertiesAdapter {
  import opened Runtime

  /** The message of the constructor's null check. */
  const PropertiesAreNull := Exception(NullPointerException, "The Properties to wrap cannot be null")

  /** The entries of `properties` whose names `accept` takes. */
  function Restricted(properties: map<string, string>, accept: string -> bool): (r: map<string, string>)
    ensures forall name :: name in r <==> name in properties && accept(name)
    ensures forall name :: name in r ==> r[name] == properties[name]
  {
    map name | name in properties && accept(name) :: properties[name]
  }

  datatype PropertiesAdapter = PropertiesAdapter(properties: map<string, string>)
  {
    /** `contains(propertyName)`: `Hashtable.containsKey`, which rejects a null name. */
    function Contains(propertyName: Option<string>): (r: Result<bool, Exception>)
      ensures propertyName.None? <==> r == Failure(Raised(NullPointerException))
      ensures propertyName.Some? ==> r == Success(propertyName.value in Names())
    {
      match propertyName
      case None => Failure(Raised(NullPointerException))
      case Some(name) => Success(name in properties)
    }

    /**
     * `get(propertyName, defaultValue)`: `Properties.getProperty`, the stored
     * value, or the default when the name is absent; a null name is rejected.
     */
    function GetOrDefault(propertyName: Option<string>, defaultValue: Option<string>): (r: Result<Option<string>, Exception>)
      ensures propertyName.None? ==> r == Failure(Raised(NullPointerException))
      ensures Contains(propertyName) == Success(true) ==> r == Success(Some(properties[propertyName.value]))
      ensures Contains(propertyName) == Success(false) ==> r == Success(defaultValue)
    {
      match propertyName
      case None => Failure(Raised(NullPointerException))
      case Some(name) => Success(if name in properties then Some(properties[name]) else defaultValue)
    }

    /** `get(propertyName)`: `get(propertyName, null)`, so null exactly when the name is absent. */
    function Get(propertyName: Option<string>): (r: Result<Option<string>, Exception>)
      ensures r == GetOrDefault(propertyName, None)
      ensures r.Success? ==> (r.value.Some? <==> Contains(propertyName) == Success(true))
    {
      GetOrDefault(propertyName, None)
    }

    /**
     * `getAsType(propertyName, defaultValue, type)` through `defaultIfNotExists`:
     * whatever the conversion service makes of the stored value (a value, null
     * or an exception) when the name is present; otherwise the default, with
     * no conversion at all. `contains` is asked first, so a null name fails
     * before anything else.
     */
    function GetAsType<T>(propertyName: Option<string>, defaultValue: Option<T>,
                          convert: string -> Result<Option<T>, Exception>): (r: Result<Option<T>, Exception>)
      ensures propertyName.None? ==> r == Failure(Raised(NullPointerException))
      ensures Contains(propertyName) == Success(true) ==> r == convert(properties[propertyName.value])
      ensures Contains(propertyName) == Success(false) ==> r == Success(defaultValue)
    {
      match Contains(propertyName)
      case Failure(e) => Failure(e)
      case Success(present) => if present then convert(Get(propertyName).value.value) else Success(defaultValue)
    }

    /** `getAsType(propertyName, type)`: no default, so an absent name gives null. */
    function GetAsTypeOrNull<T>(propertyName: Option<string>, convert: string -> Result<Option<T>, Exception>)
      : (r: Result<Option<T>, Exception>)
      ensures propertyName.None? ==> r == Failure(Raised(NullPointerException))
      ensures Contains(propertyName) == Success(true) ==> r == convert(properties[propertyName.value])
      ensures Contains(propertyName) == Success(false) ==> r == Success(None)
    {
      GetAsType(propertyName, None, convert)
    }

    /** `size()`: the number of names `iterator()` walks. */
    function Size(): (n: nat)
      ensures n == |Names()|
    {
      |properties|
    }

    /** `isEmpty()`: no name to walk. */
    predicate IsEmpty()
      ensures IsEmpty() <==> Names() == {}
    {
      properties == map[]
    }

    /** The names `iterator()` walks: exactly those `contains` reports. */
    function Names(): (names: set<string>)
      ensures forall name :: name in names <==> name in properties
    {
      properties.Keys
    }

    /**
     * `filter(filter)`: a new adapter over the entries whose names the filter
     * accepts. A null filter is only dereferenced inside the loop, so it fails
     * only when there is a name to test.
     */
    method Filter(filter: Option<string -> bool>) returns (r: Result<PropertiesAdapter, Exception>)
      ensures filter.None? && !IsEmpty() ==> r == Failure(Raised(NullPointerException))
      ensures filter.None? && IsEmpty() ==> r == Success(PropertiesAdapter(map[]))
      ensures filter.Some? ==> r == Success(PropertiesAdapter(Restricted(properties, filter.value)))
    {
      var filtered: map<string, string> := map[];
      var remaining := Names();
      while remaining != {}
        invariant remaining <= properties.Keys
        invariant filter.None? ==> remaining == properties.Keys && filtered == map[]
        invariant filter.Some? ==> filtered == Restricted(properties, name => name !in remaining && filter.value(name))
        decreases remaining
      {
        var propertyName :| propertyName in remaining;
        if filter.None? {
          return Failure(Raised(NullPointerException));
        }
        if filter.value(propertyName) {
          filtered := filtered[propertyName := Get(Some(propertyName)).value.value];
        }
        remaining := remaining - {propertyName};
      }
      if filter.Some? {
        assert Restricted(properties, name => name !in remaining && filter.value(name)) == Restricted(properties, filter.value);
      }
      r := Success(PropertiesAdapter(filtered));
    }
  }

  /** `new PropertiesAdapter(properties)` and `from(properties)`: null is rejected. */
  function From(properties: Option<map<string, string>>): (r: Result<PropertiesAdapter, Exception>)
    ensures properties.None? <==> r == Failure(PropertiesAreNull)
    ensures properties.Some? ==> r.Success? && r.value.properties == properties.value
  {
    match properties
    case None => Failure(PropertiesAreNull)
    case Some(p) => Success(PropertiesAdapter(p))
  }

  /** `isEmpty()` holds exactly when `size()` is 0. */
  lemma EmptyIffSizeZero(adapter: PropertiesAdapter)
    ensures adapter.IsEmpty() <==> adapter.Size() == 0
  {
    if adapter.Size() == 0 {
      assert adapter.Names() == {};
    }
  }

  lemma {:induction false} SubsetSize<T>(a: set<T>, b: set<T>)
    requires a <= b
    ensures |a| <= |b|
    decreases |b|
  {
    if a != {} {
      var x :| x in a;
      SubsetSize(a - {x}, b - {x});
    }
  }

  /** A filtered adapter never holds more properties than the original. */
  lemma FilterShrinks(properties: map<string, string>, accept: string -> bool)
    ensures |Restricted(properties, accept)| <= |properties|
  {
    var r := Restricted(properties, accept);
    SubsetSize(r.Keys, properties.Keys);
    assert |r| == |r.Keys| && |properties| == |properties.Keys|;
  }

  /** An accept-all filter reproduces the table; a reject-all filter empties it. */
  lemma FilterExtremes(properties: map<string, string>)
    ensures Restricted(properties, _ => true) == properties
    ensures Restricted(properties, _ => false) == map[]
  {
  }

  /** Filtering twice with the same filter is filtering once; two filters compose as their conjunction. */
  lemma FilterComposes(properties: map<string, string>, f: string -> bool, g: string -> bool)
    ensures Restricted(Restricted(properties, f), f) == Restricted(properties, f)
    ensures Restricted(Restricted(properties, f), g) == Restricted(properties, name => f(name) && g(name))
  {
  }
}

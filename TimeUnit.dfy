/**
 * `org.cp.elements.enums.TimeUnit`: a fixed table of time units, each with an
 * abbreviation, a display name and a description, and lookups by
 * abbreviation or by name that ignore case.
 */
module TimeUnit {
  import opened Runtime

  datatype TimeUnit =
    | Nanosecond
    | Microsecond
    | Millisecond
    | Second
    | Minute
    | Hour
    | Day
    | Week
    | Month
    | Year
    | Decade
    | Score
    | Century
    | Millenia
  {
    /** `getAbbreviation()`. */
    function Abbreviation(): string {
      match this
      case Nanosecond => "ns"
      case Microsecond => "us"
      case Millisecond => "ms"
      case Second => "s"
      case Minute => "mi"
      case Hour => "hr"
      case Day => "day"
      case Week => "wk"
      case Month => "mon"
      case Year => "yr"
      case Decade => "dec"
      case Score => "Score"
      case Century => "cent"
      case Millenia => "Millenia"
    }

    /** `getName()`. */
    function Name(): string {
      match this
      case Nanosecond => "Nanosecond"
      case Microsecond => "Microsecond"
      case Millisecond => "Millisecond"
      case Second => "Second"
      case Minute => "Minute"
      case Hour => "Hour"
      case Day => "Day"
      case Week => "Week"
      case Month => "Month"
      case Year => "Year"
      case Decade => "Decade"
      case Score => "Score"
      case Century => "Century"
      case Millenia => "Millenia"
    }

    /** `getDescription()`. */
    function Description(): string {
      match this
      case Nanosecond => "1 billionth of a second"
      case Microsecond => "1 millionth of a second"
      case Millisecond => "1 thousandth of a second"
      case Second => "1 second"
      case Minute => "60 seconds"
      case Hour => "60 minutes"
      case Day => "24 hours"
      case Week => "7 days"
      case Month => "28-31 days"
      case Year => "12 months, 365 days"
      case Decade => "10 years"
      case Score => "20 years"
      case Century => "100 years"
      case Millenia => "1000 years"
    }

    /** The enum constant's own name, as `Enum.name()` gives it. */
    function ConstantName(): string {
      match this
      case Nanosecond => "NANOSECOND"
      case Microsecond => "MICROSECOND"
      case Millisecond => "MILLISECOND"
      case Second => "SECOND"
      case Minute => "MINUTE"
      case Hour => "HOUR"
      case Day => "DAY"
      case Week => "WEEK"
      case Month => "MONTH"
      case Year => "YEAR"
      case Decade => "DECADE"
      case Score => "SCORE"
      case Century => "CENTURY"
      case Millenia => "MILLENIA"
    }

    /** `ordinal()`: the position in `values()`. */
    function Ordinal(): (i: nat)
      ensures i < |Values| && Values[i] == this
    {
      match this
      case Nanosecond => 0
      case Microsecond => 1
      case Millisecond => 2
      case Second => 3
      case Minute => 4
      case Hour => 5
      case Day => 6
      case Week => 7
      case Month => 8
      case Year => 9
      case Decade => 10
      case Score => 11
      case Century => 12
      case Millenia => 13
    }

    /** `toString()`: the display name. */
    function ToString(): (s: string)
      ensures s == Name()
    {
      Name()
    }
  }

  /** `values()`, in declaration order. */
  const Values: seq<TimeUnit> := [Nanosecond, Microsecond, Millisecond, Second, Minute, Hour, Day, Week,
                                  Month, Year, Decade, Score, Century, Millenia]

  /**
   * `Character.toUpperCase`, on the characters whose upper case is an ASCII
   * letter: the lower-case ASCII letters, U+017F LATIN SMALL LETTER LONG S
   * (to 'S') and U+0131 LATIN SMALL LETTER DOTLESS I (to 'I'). Every other
   * character is left as it is.
   */
  function UpperCase(c: char): char {
    if 'a' <= c <= 'z' then (c as int - 32) as char
    else if c == '\U{017F}' then 'S'
    else if c == '\U{0131}' then 'I'
    else c
  }

  /**
   * `Character.toLowerCase`, on the characters whose lower case is an ASCII
   * letter: the upper-case ASCII letters, U+0130 LATIN CAPITAL LETTER I WITH
   * DOT ABOVE (to 'i') and U+212A KELVIN SIGN (to 'k'). Every other character
   * is left as it is.
   */
  function LowerCase(c: char): char {
    if 'A' <= c <= 'Z' then (c as int + 32) as char
    else if c == '\U{0130}' then 'i'
    else if c == '\U{212A}' then 'k'
    else c
  }

  /**
   * The key `String.equalsIgnoreCase` compares two characters by: they match
   * when they are equal, when their upper cases are equal, or when the lower
   * cases of their upper cases are equal, and the last test implies the other
   * two. Against an ASCII character, such as every character of the table's
   * keys, the two mappings above give exactly the JDK's answer.
   */
  function Fold(c: char): (f: char)
    ensures 'A' <= c <= 'Z' ==> f == (c as int + 32) as char
    ensures 'a' <= c <= 'z' ==> f == c
  {
    LowerCase(UpperCase(c))
  }

  /** `s.equalsIgnoreCase(other)`: false for a null argument. */
  predicate EqualsIgnoreCase(s: string, other: Option<string>) {
    other.Some? && |s| == |other.value| && forall i :: 0 <= i < |s| ==> Fold(s[i]) == Fold(other.value[i])
  }

  /**
   * The loop of `valueOfAbbreviation` and `valueOfName`: the first unit whose
   * key equals the given one ignoring case, or null when there is none.
   */
  function Lookup(units: seq<TimeUnit>, keyOf: TimeUnit -> string, key: Option<string>): (r: Option<TimeUnit>)
    ensures r.Some? ==>
      exists i :: 0 <= i < |units| && units[i] == r.value && EqualsIgnoreCase(keyOf(units[i]), key)
        && (forall j :: 0 <= j < i ==> !EqualsIgnoreCase(keyOf(units[j]), key))
    ensures r.None? ==> forall j :: 0 <= j < |units| ==> !EqualsIgnoreCase(keyOf(units[j]), key)
  {
    if units == [] then None
    else if EqualsIgnoreCase(keyOf(units[0]), key) then Some(units[0])
    else
      var r := Lookup(units[1..], keyOf, key);
      assert r.Some? ==>
        exists i :: 1 <= i < |units| && units[i] == r.value && EqualsIgnoreCase(keyOf(units[i]), key)
          && (forall j :: 1 <= j < i ==> !EqualsIgnoreCase(keyOf(units[j]), key))
      by {
        if r.Some? {
          var i :| 0 <= i < |units[1..]| && units[1..][i] == r.value && EqualsIgnoreCase(keyOf(units[1..][i]), key)
            && (forall j :: 0 <= j < i ==> !EqualsIgnoreCase(keyOf(units[1..][j]), key));
          assert forall j :: 1 <= j < i + 1 ==> units[j] == units[1..][j - 1];
        }
      }
      r
  }

  /** A lookup over `values()` that finds nothing matched no unit at all. */
  lemma LookupMissesEveryUnit(keyOf: TimeUnit -> string, key: Option<string>)
    requires Lookup(Values, keyOf, key).None?
    ensures forall u: TimeUnit :: !EqualsIgnoreCase(keyOf(u), key)
  {
    forall u: TimeUnit
      ensures !EqualsIgnoreCase(keyOf(u), key)
    {
      assert Values[u.Ordinal()] == u;
    }
  }

  /** `valueOfAbbreviation(abbreviation)`: the unit with that abbreviation ignoring case, or null. */
  function ValueOfAbbreviation(abbreviation: Option<string>): (r: Option<TimeUnit>)
    ensures abbreviation.None? ==> r.None?
    ensures r.Some? ==> EqualsIgnoreCase(r.value.Abbreviation(), abbreviation)
    ensures r.None? ==> forall u: TimeUnit :: !EqualsIgnoreCase(u.Abbreviation(), abbreviation)
  {
    var r := Lookup(Values, (u: TimeUnit) => u.Abbreviation(), abbreviation);
    if r.None? then
      LookupMissesEveryUnit((u: TimeUnit) => u.Abbreviation(), abbreviation);
      assert forall u: TimeUnit :: ((v: TimeUnit) => v.Abbreviation())(u) == u.Abbreviation();
      r
    else r
  }

  /** `valueOfName(name)`: the unit with that name ignoring case, or null. */
  function ValueOfName(name: Option<string>): (r: Option<TimeUnit>)
    ensures name.None? ==> r.None?
    ensures r.Some? ==> EqualsIgnoreCase(r.value.Name(), name)
    ensures r.None? ==> forall u: TimeUnit :: !EqualsIgnoreCase(u.Name(), name)
  {
    var r := Lookup(Values, (u: TimeUnit) => u.Name(), name);
    if r.None? then
      LookupMissesEveryUnit((u: TimeUnit) => u.Name(), name);
      assert forall u: TimeUnit :: ((v: TimeUnit) => v.Name())(u) == u.Name();
      r
    else r
  }

  /** Every unit is in the table. */
  lemma AllUnitsListed(u: TimeUnit)
    ensures u in Values
  {
  }

  /** A lookup answers with the first unit whose key matches. */
  lemma {:induction false} LookupFindsFirst(units: seq<TimeUnit>, keyOf: TimeUnit -> string, key: Option<string>, i: nat)
    requires i < |units| && EqualsIgnoreCase(keyOf(units[i]), key)
    requires forall j :: 0 <= j < i ==> !EqualsIgnoreCase(keyOf(units[j]), key)
    ensures Lookup(units, keyOf, key) == Some(units[i])
  {
    if i > 0 {
      assert !EqualsIgnoreCase(keyOf(units[0]), key);
      assert units[1..][i - 1] == units[i];
      LookupFindsFirst(units[1..], keyOf, key, i - 1);
    }
  }

  /** Keys that are equal ignoring case find the same unit. */
  lemma {:induction false} LookupIgnoresCase(units: seq<TimeUnit>, keyOf: TimeUnit -> string, a: string, b: string)
    requires EqualsIgnoreCase(a, Some(b))
    ensures Lookup(units, keyOf, Some(a)) == Lookup(units, keyOf, Some(b))
  {
    if units != [] {
      var k := keyOf(units[0]);
      assert EqualsIgnoreCase(k, Some(a)) <==> EqualsIgnoreCase(k, Some(b));
      LookupIgnoresCase(units[1..], keyOf, a, b);
    }
  }

  /** The abbreviations are pairwise distinct ignoring case. */
  lemma AbbreviationsDistinct(i: nat, j: nat)
    requires i < |Values| && j < |Values| && i != j
    ensures !EqualsIgnoreCase(Values[i].Abbreviation(), Some(Values[j].Abbreviation()))
  {
    var a, b := Values[i].Abbreviation(), Values[j].Abbreviation();
    if |a| == |b| {
      assert Fold(a[0]) != Fold(b[0]) || (|a| > 1 && Fold(a[1]) != Fold(b[1]));
    }
  }

  /** The names are pairwise distinct ignoring case. */
  lemma NamesDistinct(i: nat, j: nat)
    requires i < |Values| && j < |Values| && i != j
    ensures !EqualsIgnoreCase(Values[i].Name(), Some(Values[j].Name()))
  {
    var a, b := Values[i].Name(), Values[j].Name();
    if |a| == |b| {
      assert Fold(a[0]) != Fold(b[0]) || (|a| > 1 && Fold(a[1]) != Fold(b[1])) || (|a| > 2 && Fold(a[2]) != Fold(b[2]));
    }
  }

  /** `valueOfAbbreviation(u.getAbbreviation()) == u` for every unit. */
  lemma AbbreviationRoundTrip(u: TimeUnit)
    ensures ValueOfAbbreviation(Some(u.Abbreviation())) == Some(u)
  {
    var i := u.Ordinal();
    forall j | 0 <= j < i
      ensures !EqualsIgnoreCase(Values[j].Abbreviation(), Some(u.Abbreviation()))
    {
      AbbreviationsDistinct(j, i);
    }
    LookupFindsFirst(Values, (u: TimeUnit) => u.Abbreviation(), Some(u.Abbreviation()), i);
  }

  /** `valueOfName(u.getName()) == u` for every unit. */
  lemma NameRoundTrip(u: TimeUnit)
    ensures ValueOfName(Some(u.Name())) == Some(u)
  {
    var i := u.Ordinal();
    forall j | 0 <= j < i
      ensures !EqualsIgnoreCase(Values[j].Name(), Some(u.Name()))
    {
      NamesDistinct(j, i);
    }
    LookupFindsFirst(Values, (u: TimeUnit) => u.Name(), Some(u.Name()), i);
  }

  /** Any spelling of an abbreviation that differs only in case finds its unit, e.g. "MS" finds MILLISECOND. */
  lemma AbbreviationLookupIgnoresCase(u: TimeUnit, key: string)
    requires EqualsIgnoreCase(key, Some(u.Abbreviation()))
    ensures ValueOfAbbreviation(Some(key)) == Some(u)
  {
    AbbreviationRoundTrip(u);
    LookupIgnoresCase(Values, (u: TimeUnit) => u.Abbreviation(), key, u.Abbreviation());
  }

  /** Any spelling of a name that differs only in case finds its unit, e.g. "SECOND" finds SECOND. */
  lemma NameLookupIgnoresCase(u: TimeUnit, key: string)
    requires EqualsIgnoreCase(key, Some(u.Name()))
    ensures ValueOfName(Some(key)) == Some(u)
  {
    NameRoundTrip(u);
    LookupIgnoresCase(Values, (u: TimeUnit) => u.Name(), key, u.Name());
  }

  /** A null key finds nothing. */
  lemma NullKeys()
    ensures ValueOfAbbreviation(None) == None && ValueOfName(None) == None
  {
  }

  /** A key that is no unit's abbreviation or name, ignoring case, finds nothing. */
  lemma UnknownKeys(key: string)
    requires forall u: TimeUnit :: !EqualsIgnoreCase(u.Abbreviation(), Some(key))
    requires forall u: TimeUnit :: !EqualsIgnoreCase(u.Name(), Some(key))
    ensures ValueOfAbbreviation(Some(key)) == None && ValueOfName(Some(key)) == None
  {
  }

  /**
   * Case folding reaches past ASCII: U+017F finds SECOND, "w" followed by
   * U+212A KELVIN SIGN finds WEEK, and "m" followed by U+0130 finds MINUTE.
   */
  lemma NonAsciiCaseVariants()
    ensures ValueOfAbbreviation(Some("\U{017F}")) == Some(Second)
    ensures ValueOfAbbreviation(Some("w\U{212A}")) == Some(Week)
    ensures ValueOfAbbreviation(Some("m\U{0130}")) == Some(Minute)
  {
    assert Fold('\U{017F}') == Fold('s') && Fold('\U{212A}') == Fold('k') && Fold('\U{0130}') == Fold('i');
    assert EqualsIgnoreCase("\U{017F}", Some(Second.Abbreviation()));
    assert EqualsIgnoreCase("w\U{212A}", Some(Week.Abbreviation()));
    assert EqualsIgnoreCase("m\U{0130}", Some(Minute.Abbreviation()));
    AbbreviationLookupIgnoresCase(Second, "\U{017F}");
    AbbreviationLookupIgnoresCase(Week, "w\U{212A}");
    AbbreviationLookupIgnoresCase(Minute, "m\U{0130}");
  }

  /** `toString()` is the display name, which never equals the constant's name. */
  lemma ToStringIsDisplayName(u: TimeUnit)
    ensures u.ToString() == u.Name()
    ensures u.ToString() != u.ConstantName()
  {
    assert u.Name()[1] != u.ConstantName()[1];
  }
}

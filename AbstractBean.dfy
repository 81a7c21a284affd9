/**
 * The state slice of `org.cp.elements.beans.AbstractBean`: the audit fields,
 * the property-to-field and property-to-callback tables, the event-dispatch
 * flag, and the order in which `processChange` consults listeners, applies a
 * change and notifies. All field types (ID, USER, PROCESS, LocalDateTime) are
 * one value type `V`; null is `None`.
 *
 * Listeners are abstract: which properties have vetoable listeners, whether a
 * veto is raised, whether change listeners exist and what the change tracker
 * reports are fixed functions given at construction. Callbacks are opaque;
 * the model records that one ran and with which value. Everything the bean
 * does to the outside world is recorded, in order, in `trace`.
 */
module AbstractBean {
  import opened Runtime

  /** An opaque `StateChangeCallback` or `ParameterizedStateChangeCallback`. */
  datatype Callback = Callback(id: nat)

  /** How a change is applied. */
  datatype Application<V> =
    | ByStateChangeCallback(callback: Callback)
    | ByParameterizedCallback(callback: Callback, newValue: Option<V>)
    | BySettingField(field: StateField, newValue: Option<V>)

  /** What one step of `processChange` does to the outside world. */
  datatype Step<V> =
    | VetoCheck(propertyName: string, oldValue: Option<V>, newValue: Option<V>)
    | Apply(application: Application<V>)
    | PropertyChangeFired(propertyName: string, oldValue: Option<V>, newValue: Option<V>)
    | ChangeFired

  /**
   * The listener side of the bean. `vetoable(p)` is whether a vetoable listener
   * is registered for `p`; `vetoes` whether one of them vetoes a change;
   * `hasChangeListeners` whether `ChangeSupport` has listeners; `isModified`
   * what the change tracker answers, given every step so far. The change
   * tracker is always a property-change listener (the constructors register it).
   */
  datatype Listeners<!V> = Listeners(
    vetoable: string -> bool,
    vetoes: (string, Option<V>, Option<V>) -> bool,
    hasChangeListeners: bool,
    isModified: seq<Step<V>> -> bool)

  /** The steps one `processChange` call adds, and how it ends. */
  datatype Processed<V> = Processed(steps: seq<Step<V>>, outcome: Outcome<Exception>)

  /** The fields a change can be written to, by their Java names. */
  datatype StateField =
    | Id | CreatedBy | CreatedOn | CreatedWith | ModifiedBy | ModifiedOn | ModifiedWith
    | LastModifiedBy | LastModifiedOn | LastModifiedWith
  {
    function Name(): string {
      match this
      case Id => "id"
      case CreatedBy => "createdBy"
      case CreatedOn => "createdOn"
      case CreatedWith => "createdWith"
      case ModifiedBy => "modifiedBy"
      case ModifiedOn => "modifiedOn"
      case ModifiedWith => "modifiedWith"
      case LastModifiedBy => "lastModifiedBy"
      case LastModifiedOn => "lastModifiedOn"
      case LastModifiedWith => "lastModifiedWith"
    }
  }

  /** The field `ObjectUtils.setField` finds under a name, or none. */
  function FieldNamed(name: string): (r: Option<StateField>)
    ensures r.Some? ==> r.value.Name() == name
    ensures r.None? ==> forall f: StateField :: f.Name() != name
  {
    if name == "id" then Some(Id)
    else if name == "createdBy" then Some(CreatedBy)
    else if name == "createdOn" then Some(CreatedOn)
    else if name == "createdWith" then Some(CreatedWith)
    else if name == "modifiedBy" then Some(ModifiedBy)
    else if name == "modifiedOn" then Some(ModifiedOn)
    else if name == "modifiedWith" then Some(ModifiedWith)
    else if name == "lastModifiedBy" then Some(LastModifiedBy)
    else if name == "lastModifiedOn" then Some(LastModifiedOn)
    else if name == "lastModifiedWith" then Some(LastModifiedWith)
    else None
  }

  /** `getFieldName(propertyName)`: the mapped field name, or the property name itself. */
  function FieldName(fieldNames: map<string, Option<string>>, propertyName: string): (f: string)
    ensures propertyName in fieldNames && fieldNames[propertyName].Some? ==> f == fieldNames[propertyName].value
    ensures !(propertyName in fieldNames && fieldNames[propertyName].Some?) ==> f == propertyName
  {
    if propertyName in fieldNames then fieldNames[propertyName].GetOr(propertyName) else propertyName
  }

  /**
   * The middle of `processChange`: an explicit callback if one is given, else
   * the callback registered for the property (a null registration fails), else
   * setting the field `getFieldName(propertyName)`, which fails with
   * PropertyNotFoundException when the bean has no such field.
   */
  function ApplicationFor<V>(propertyName: string, newValue: Option<V>, callback: Option<Callback>,
                             callbacks: map<string, Option<Callback>>, fieldNames: map<string, Option<string>>)
    : (r: Result<Application<V>, Exception>)
    ensures r.Success? && r.value.BySettingField? ==>
      && callback.None? && propertyName !in callbacks
      && r.value.field.Name() == FieldName(fieldNames, propertyName) && r.value.newValue == newValue
    ensures r.Failure? ==> callback.None? && (r.error == Raised(NullPointerException) <==> propertyName in callbacks)
    ensures r.Failure? ==> r.error == Raised(NullPointerException) || r.error == Raised(PropertyNotFoundException)
  {
    if callback.Some? then Success(ByStateChangeCallback(callback.value))
    else if propertyName in callbacks then
      match callbacks[propertyName]
      case None => Failure(Raised(NullPointerException))
      case Some(c) => Success(ByParameterizedCallback(c, newValue))
    else
      match FieldNamed(FieldName(fieldNames, propertyName))
      case Some(f) => Success(BySettingField(f, newValue))
      case None => Failure(Raised(PropertyNotFoundException))
  }

  /**
   * `PropertyChangeSupport` and `VetoableChangeSupport` skip an event whose old
   * and new values are equal and non-null.
   */
  predicate Notifies<V(==)>(oldValue: Option<V>, newValue: Option<V>) {
    oldValue.None? || newValue.None? || oldValue != newValue
  }

  /** Whether `fireVetoableChange` runs a veto check and a vetoable listener rejects the change. */
  predicate Vetoed<V(==)>(enabled: bool, listeners: Listeners<V>, propertyName: string,
                          oldValue: Option<V>, newValue: Option<V>) {
    enabled && listeners.vetoable(propertyName) && Notifies(oldValue, newValue)
    && listeners.vetoes(propertyName, oldValue, newValue)
  }

  /**
   * `processChange(propertyName, oldValue, newValue, callback)` as steps: the
   * veto check, then the application, then the property-change notification,
   * then the change notification. A veto becomes IllegalPropertyValueException
   * and stops everything after it, as does a failed application. With event
   * dispatch disabled only the application happens.
   */
  function ChangeOutcome<V(==)>(enabled: bool, listeners: Listeners<V>, history: seq<Step<V>>,
                                propertyName: string, oldValue: Option<V>, newValue: Option<V>,
                                application: Result<Application<V>, Exception>): (r: Processed<V>)
    ensures r.outcome.Fail? <==> Vetoed(enabled, listeners, propertyName, oldValue, newValue) || application.Failure?
    ensures Vetoed(enabled, listeners, propertyName, oldValue, newValue)
         ==> r.outcome == Fail(Raised(IllegalPropertyValueException))
    ensures !Vetoed(enabled, listeners, propertyName, oldValue, newValue) && application.Failure?
         ==> r.outcome == Fail(application.error)
  {
    var notifies := Notifies(oldValue, newValue);
    var vetoSteps := if enabled && listeners.vetoable(propertyName) && notifies
      then [VetoCheck(propertyName, oldValue, newValue)] else [];
    if vetoSteps != [] && listeners.vetoes(propertyName, oldValue, newValue) then
      Processed(vetoSteps, Fail(Raised(IllegalPropertyValueException)))
    else
      match application
      case Failure(e) => Processed(vetoSteps, Fail(e))
      case Success(a) =>
        var applied := vetoSteps + [Apply(a)];
        var fired := applied + (if enabled && notifies then [PropertyChangeFired(propertyName, oldValue, newValue)] else []);
        var changed := fired + (if enabled && listeners.hasChangeListeners && listeners.isModified(history + fired)
          then [ChangeFired] else []);
        Processed(changed, Pass)
  }

  // ---------------------------------------------------------------- properties of a change

  /** A veto aborts the change: nothing is applied, nothing is notified, IllegalPropertyValueException is thrown. */
  lemma VetoAbortsChange<V>(listeners: Listeners<V>, history: seq<Step<V>>, propertyName: string,
                                oldValue: Option<V>, newValue: Option<V>, application: Result<Application<V>, Exception>)
    requires listeners.vetoable(propertyName) && Notifies(oldValue, newValue)
    requires listeners.vetoes(propertyName, oldValue, newValue)
    ensures ChangeOutcome(true, listeners, history, propertyName, oldValue, newValue, application)
         == Processed([VetoCheck(propertyName, oldValue, newValue)], Fail(Raised(IllegalPropertyValueException)))
  {
  }

  /**
   * A change that completes is applied exactly once, after every veto check
   * and before every notification; one that fails applies nothing and
   * notifies nobody.
   */
  lemma VetoThenApplyThenNotify<V>(enabled: bool, listeners: Listeners<V>, history: seq<Step<V>>,
                                       propertyName: string, oldValue: Option<V>, newValue: Option<V>,
                                       application: Result<Application<V>, Exception>)
    ensures var r := ChangeOutcome(enabled, listeners, history, propertyName, oldValue, newValue, application);
      && (r.outcome.Pass? ==>
            application.Success?
            && exists k :: 0 <= k < |r.steps| && r.steps[k] == Apply(application.value)
                 && (forall i :: 0 <= i < k ==> r.steps[i].VetoCheck?)
                 && (forall i :: k < i < |r.steps| ==> r.steps[i].PropertyChangeFired? || r.steps[i].ChangeFired?))
      && (r.outcome.Fail? ==> forall i :: 0 <= i < |r.steps| ==> r.steps[i].VetoCheck?)
  {
    var r := ChangeOutcome(enabled, listeners, history, propertyName, oldValue, newValue, application);
    if r.outcome.Pass? {
      var vetoSteps := if enabled && listeners.vetoable(propertyName) && Notifies(oldValue, newValue)
        then [VetoCheck(propertyName, oldValue, newValue)] else [];
      var k := |vetoSteps|;
      assert r.steps[k] == Apply(application.value);
    }
  }

  /**
   * A change that is not vetoed, applies and changes the value notifies: with
   * dispatch enabled, the step right after the application fires the property
   * change, and a change event closes the call exactly when change listeners
   * exist and the change tracker, having heard every step so far, reports the
   * bean modified.
   */
  lemma CompletedChangeNotifies<V>(listeners: Listeners<V>, history: seq<Step<V>>, propertyName: string,
                                   oldValue: Option<V>, newValue: Option<V>, a: Application<V>)
    requires !Vetoed(true, listeners, propertyName, oldValue, newValue) && Notifies(oldValue, newValue)
    ensures var r := ChangeOutcome(true, listeners, history, propertyName, oldValue, newValue, Success(a));
      var k := if listeners.vetoable(propertyName) then 1 else 0;
      && r.outcome.Pass?
      && |r.steps| >= k + 2
      && r.steps[k] == Apply(a)
      && r.steps[k + 1] == PropertyChangeFired(propertyName, oldValue, newValue)
      && r.steps[k + 2..] == (if listeners.hasChangeListeners && listeners.isModified(history + r.steps[..k + 2])
                              then [ChangeFired] else [])
  {
  }

  /** With dispatch disabled no listener is consulted or notified, and the change is still applied. */
  lemma DisabledDispatchOnlyApplies<V>(listeners: Listeners<V>, history: seq<Step<V>>, propertyName: string,
                                           oldValue: Option<V>, newValue: Option<V>,
                                           application: Result<Application<V>, Exception>)
    ensures var r := ChangeOutcome(false, listeners, history, propertyName, oldValue, newValue, application);
      match application
      case Success(a) => r == Processed([Apply(a)], Pass)
      case Failure(e) => r == Processed([], Fail(e))
  {
  }

  /**
   * Setting a property to the non-null value it already holds consults no
   * vetoable listener and fires no property-change event; the change is still
   * applied, and the change listeners still hear of it if the tracker reports
   * the bean modified.
   */
  lemma EqualValueIsNotNotified<V>(listeners: Listeners<V>, history: seq<Step<V>>, propertyName: string,
                                   value: V, a: Application<V>)
    ensures !Notifies(Some(value), Some(value))
    ensures var r := ChangeOutcome(true, listeners, history, propertyName, Some(value), Some(value), Success(a));
      r.outcome.Pass? && r.steps[0] == Apply(a)
      && forall i :: 0 <= i < |r.steps| ==> !r.steps[i].VetoCheck? && !r.steps[i].PropertyChangeFired?
  {
  }

  /**
   * The application rule: an explicit callback wins, then a registered
   * callback, then the field named by `getFieldName`.
   */
  lemma ApplicationPrecedence<V>(propertyName: string, newValue: Option<V>, callback: Option<Callback>,
                                 callbacks: map<string, Option<Callback>>, fieldNames: map<string, Option<string>>)
    ensures callback.Some? ==>
      ApplicationFor(propertyName, newValue, callback, callbacks, fieldNames) == Success(ByStateChangeCallback(callback.value))
    ensures callback.None? && propertyName in callbacks && callbacks[propertyName].Some? ==>
      ApplicationFor(propertyName, newValue, callback, callbacks, fieldNames)
        == Success(ByParameterizedCallback(callbacks[propertyName].value, newValue))
    ensures callback.None? && propertyName in callbacks && callbacks[propertyName].None? ==>
      ApplicationFor(propertyName, newValue, callback, callbacks, fieldNames) == Failure(Raised(NullPointerException))
    ensures forall f: StateField :: callback.None? && propertyName !in callbacks && FieldName(fieldNames, propertyName) == f.Name() ==>
      ApplicationFor(propertyName, newValue, callback, callbacks, fieldNames) == Success(BySettingField(f, newValue))
    ensures callback.None? && propertyName !in callbacks && (forall f: StateField :: FieldName(fieldNames, propertyName) != f.Name()) ==>
      ApplicationFor(propertyName, newValue, callback, callbacks, fieldNames) == Failure(Raised(PropertyNotFoundException))
  {
  }

  /** Unmapped properties are set on the field of the same name; a mapping redirects them. */
  lemma FieldNameRule(fieldNames: map<string, Option<string>>, propertyName: string, fieldName: string)
    ensures propertyName !in fieldNames ==> FieldName(fieldNames, propertyName) == propertyName
    ensures FieldName(fieldNames[propertyName := Some(fieldName)], propertyName) == fieldName
    ensures FieldName(fieldNames[propertyName := None], propertyName) == propertyName
  {
  }

  // ---------------------------------------------------------------- the bean

  class Bean<V(==)> {
    var id: Option<V>
    var createdBy: Option<V>
    var createdOn: Option<V>
    var createdWith: Option<V>
    var modifiedBy: Option<V>
    var modifiedOn: Option<V>
    var modifiedWith: Option<V>
    var lastModifiedBy: Option<V>
    var lastModifiedOn: Option<V>
    var lastModifiedWith: Option<V>

    var eventDispatchEnabled: bool
    var fieldNames: map<string, Option<string>>
    var callbacks: map<string, Option<Callback>>
    var trace: seq<Step<V>>

    const listeners: Listeners<V>

    /** The value of one state field. */
    function Get(f: StateField): Option<V>
      reads this
    {
      match f
      case Id => id
      case CreatedBy => createdBy
      case CreatedOn => createdOn
      case CreatedWith => createdWith
      case ModifiedBy => modifiedBy
      case ModifiedOn => modifiedOn
      case ModifiedWith => modifiedWith
      case LastModifiedBy => lastModifiedBy
      case LastModifiedOn => lastModifiedOn
      case LastModifiedWith => lastModifiedWith
    }

    /** The value field `f` holds after the write `w`, if any, is made. */
    function Written(w: Option<(StateField, Option<V>)>, f: StateField): (v: Option<V>)
      reads this
      ensures w.Some? && w.value.0 == f ==> v == w.value.1
      ensures !(w.Some? && w.value.0 == f) ==> v == Get(f)
    {
      if w.Some? && w.value.0 == f then w.value.1 else Get(f)
    }

    /** `AbstractBean()`: no state, dispatch enabled, empty tables. */
    constructor (listeners: Listeners<V>)
      ensures this.listeners == listeners
      ensures forall f: StateField :: Get(f) == None
      ensures eventDispatchEnabled && fieldNames == map[] && callbacks == map[] && trace == []
    {
      this.listeners := listeners;
      id, createdBy, createdOn, createdWith := None, None, None, None;
      modifiedBy, modifiedOn, modifiedWith := None, None, None;
      lastModifiedBy, lastModifiedOn, lastModifiedWith := None, None, None;
      eventDispatchEnabled := true;
      fieldNames, callbacks, trace := map[], map[], [];
    }

    /** `AbstractBean(id)`: the id is assigned directly, without `processChange`. */
    constructor WithId(listeners: Listeners<V>, id: Option<V>)
      ensures this.listeners == listeners && Get(Id) == id
      ensures forall f: StateField :: f != Id ==> Get(f) == None
      ensures eventDispatchEnabled && fieldNames == map[] && callbacks == map[] && trace == []
    {
      this.listeners := listeners;
      this.id := id;
      createdBy, createdOn, createdWith := None, None, None;
      modifiedBy, modifiedOn, modifiedWith := None, None, None;
      lastModifiedBy, lastModifiedOn, lastModifiedWith := None, None, None;
      eventDispatchEnabled := true;
      fieldNames, callbacks, trace := map[], map[], [];
    }

    /** `isNew()`: no id yet. */
    predicate IsNew()
      reads this
      ensures IsNew() <==> Get(Id) == None
    {
      id.None?
    }

    /** `isEventDispatchEnabled()`. */
    predicate IsEventDispatchEnabled()
      reads this
    {
      eventDispatchEnabled
    }

    /** `setEventDispatchEnabled(enabled)`. */
    method SetEventDispatchEnabled(enabled: bool)
      modifies this
      ensures IsEventDispatchEnabled() == enabled
      ensures forall f: StateField :: Get(f) == old(Get(f))
      ensures fieldNames == old(fieldNames) && callbacks == old(callbacks) && trace == old(trace)
    {
      eventDispatchEnabled := enabled;
    }

    /** `getFieldName(propertyName)`: `FieldName` over this bean's own table. */
    function GetFieldName(propertyName: string): string
      reads this
    {
      FieldName(fieldNames, propertyName)
    }

    /** `mapPropertyNameToFieldName(propertyName, fieldName)`: stores the mapping and reports it present. */
    method MapPropertyNameToFieldName(propertyName: string, fieldName: Option<string>) returns (r: bool)
      modifies this
      ensures r && fieldNames == old(fieldNames)[propertyName := fieldName]
      ensures forall f: StateField :: Get(f) == old(Get(f))
      ensures callbacks == old(callbacks) && trace == old(trace) && eventDispatchEnabled == old(eventDispatchEnabled)
    {
      fieldNames := fieldNames[propertyName := fieldName];
      r := propertyName in fieldNames;
    }

    /** `unmapPropertyNameToFieldName(propertyName)`: removes the mapping and returns the field name it held. */
    method UnmapPropertyNameToFieldName(propertyName: string) returns (r: Option<string>)
      modifies this
      ensures fieldNames == old(fieldNames) - {propertyName}
      ensures r == (if propertyName in old(fieldNames) then old(fieldNames)[propertyName] else None)
      ensures forall f: StateField :: Get(f) == old(Get(f))
      ensures callbacks == old(callbacks) && trace == old(trace) && eventDispatchEnabled == old(eventDispatchEnabled)
    {
      r := if propertyName in fieldNames then fieldNames[propertyName] else None;
      fieldNames := fieldNames - {propertyName};
    }

    /** `mapPropertyNameToParameterizedStateChangeCallback(propertyName, callback)`. */
    method MapPropertyNameToParameterizedStateChangeCallback(propertyName: string, callback: Option<Callback>)
      returns (r: bool)
      modifies this
      ensures r && callbacks == old(callbacks)[propertyName := callback]
      ensures forall f: StateField :: Get(f) == old(Get(f))
      ensures fieldNames == old(fieldNames) && trace == old(trace) && eventDispatchEnabled == old(eventDispatchEnabled)
    {
      callbacks := callbacks[propertyName := callback];
      r := propertyName in callbacks;
    }

    /** `unmapPropertyNameToParameterizedStateChangeCallback(propertyName)`: whether a non-null callback was removed. */
    method UnmapPropertyNameToParameterizedStateChangeCallback(propertyName: string) returns (r: bool)
      modifies this
      ensures callbacks == old(callbacks) - {propertyName}
      ensures r <==> propertyName in old(callbacks) && old(callbacks)[propertyName].Some?
      ensures forall f: StateField :: Get(f) == old(Get(f))
      ensures fieldNames == old(fieldNames) && trace == old(trace) && eventDispatchEnabled == old(eventDispatchEnabled)
    {
      var removed := if propertyName in callbacks then callbacks[propertyName] else None;
      callbacks := callbacks - {propertyName};
      r := removed.Some?;
    }

    /** `ObjectUtils.setField(this, field, value)`: writes one field and no other. */
    method SetField(field: StateField, value: Option<V>)
      modifies this
      ensures forall f: StateField :: Get(f) == if f == field then value else old(Get(f))
      ensures eventDispatchEnabled == old(eventDispatchEnabled) && fieldNames == old(fieldNames)
      ensures callbacks == old(callbacks) && trace == old(trace)
    {
      match field
      case Id => id := value;
      case CreatedBy => createdBy := value;
      case CreatedOn => createdOn := value;
      case CreatedWith => createdWith := value;
      case ModifiedBy => modifiedBy := value;
      case ModifiedOn => modifiedOn := value;
      case ModifiedWith => modifiedWith := value;
      case LastModifiedBy => lastModifiedBy := value;
      case LastModifiedOn => lastModifiedOn := value;
      case LastModifiedWith => lastModifiedWith := value;
    }

    /**
     * What `processChange` will do in the current state: a failed change only
     * ran veto checks; a completed one applied its application once, after
     * the veto checks and before the notifications; with dispatch disabled no
     * listener is consulted or notified.
     */
    function Processing(propertyName: string, oldValue: Option<V>, newValue: Option<V>, callback: Option<Callback>)
      : (p: Processed<V>)
      reads this
      ensures p.outcome.Fail? ==> forall i :: 0 <= i < |p.steps| ==> p.steps[i].VetoCheck?
      ensures p.outcome.Pass? ==>
        var application := ApplicationFor(propertyName, newValue, callback, callbacks, fieldNames);
        && application.Success?
        && exists k :: 0 <= k < |p.steps| && p.steps[k] == Apply(application.value)
             && (forall i :: 0 <= i < k ==> p.steps[i].VetoCheck?)
             && (forall i :: k < i < |p.steps| ==> p.steps[i].PropertyChangeFired? || p.steps[i].ChangeFired?)
      ensures !IsEventDispatchEnabled() ==> forall i :: 0 <= i < |p.steps| ==> p.steps[i].Apply?
    {
      var application := ApplicationFor(propertyName, newValue, callback, callbacks, fieldNames);
      VetoThenApplyThenNotify(eventDispatchEnabled, listeners, trace, propertyName, oldValue, newValue, application);
      DisabledDispatchOnlyApplies(listeners, trace, propertyName, oldValue, newValue, application);
      ChangeOutcome(eventDispatchEnabled, listeners, trace, propertyName, oldValue, newValue, application)
    }

    /** The field write `processChange` makes in the current state: only a completed change applied by setting a field. */
    function Write(propertyName: string, oldValue: Option<V>, newValue: Option<V>, callback: Option<Callback>)
      : (w: Option<(StateField, Option<V>)>)
      reads this
      ensures w.Some? <==>
        Processing(propertyName, oldValue, newValue, callback).outcome.Pass?
        && ApplicationFor(propertyName, newValue, callback, callbacks, fieldNames).Success?
        && ApplicationFor(propertyName, newValue, callback, callbacks, fieldNames).value.BySettingField?
      ensures w.Some? ==> w.value.1 == newValue && w.value.0.Name() == FieldName(fieldNames, propertyName)
    {
      var application := ApplicationFor(propertyName, newValue, callback, callbacks, fieldNames);
      if Processing(propertyName, oldValue, newValue, callback).outcome.Pass?
         && application.Success? && application.value.BySettingField?
      then Some((application.value.field, application.value.newValue))
      else None
    }

    /**
     * `processChange(propertyName, oldValue, newValue, callback)`: records the
     * steps of `ChangeOutcome` and, when the change is applied by setting a
     * field, writes that field and nothing else.
     */
    method ProcessChange(propertyName: string, oldValue: Option<V>, newValue: Option<V>, callback: Option<Callback>)
      returns (r: Outcome<Exception>)
      modifies this
      ensures trace == old(trace) + old(Processing(propertyName, oldValue, newValue, callback)).steps
      ensures r == old(Processing(propertyName, oldValue, newValue, callback)).outcome
      ensures forall f: StateField :: Get(f) == old(Written(Write(propertyName, oldValue, newValue, callback), f))
      ensures eventDispatchEnabled == old(eventDispatchEnabled)
      ensures fieldNames == old(fieldNames) && callbacks == old(callbacks)
    {
      var processed := Processing(propertyName, oldValue, newValue, callback);
      var write := Write(propertyName, oldValue, newValue, callback);
      if write.Some? {
        SetField(write.value.0, write.value.1);
      }
      assert forall f: StateField :: Get(f) == old(Written(write, f));
      trace := trace + processed.steps;
      r := processed.outcome;
    }

    /** `setId(id)`. */
    method SetId(newId: Option<V>) returns (r: Outcome<Exception>)
      modifies this
      ensures trace == old(trace) + old(Processing("id", id, newId, None)).steps
      ensures r == old(Processing("id", id, newId, None)).outcome
      ensures fieldNames == old(fieldNames) && callbacks == old(callbacks) && eventDispatchEnabled == old(eventDispatchEnabled)
      ensures forall f: StateField :: Get(f) == old(Written(Write("id", id, newId, None), f))
      ensures old(Write("id", id, newId, None)) == Some((Id, newId)) ==> (IsNew() <==> newId.None?)
      ensures old(Write("id", id, newId, None)) != Some((Id, newId)) ==> IsNew() == old(IsNew())
    {
      r := ProcessChange("id", id, newId, None);
    }

    /** `setCreatedBy(createdBy)`. */
    method SetCreatedBy(value: Option<V>) returns (r: Outcome<Exception>)
      modifies this
      ensures trace == old(trace) + old(Processing("createdBy", createdBy, value, None)).steps
      ensures r == old(Processing("createdBy", createdBy, value, None)).outcome
      ensures fieldNames == old(fieldNames) && callbacks == old(callbacks) && eventDispatchEnabled == old(eventDispatchEnabled)
      ensures forall f: StateField :: Get(f) == old(Written(Write("createdBy", createdBy, value, None), f))
    {
      r := ProcessChange("createdBy", createdBy, value, None);
    }

    /** `setCreatedOn(createdOn)`. */
    method SetCreatedOn(value: Option<V>) returns (r: Outcome<Exception>)
      modifies this
      ensures trace == old(trace) + old(Processing("createdOn", createdOn, value, None)).steps
      ensures r == old(Processing("createdOn", createdOn, value, None)).outcome
      ensures fieldNames == old(fieldNames) && callbacks == old(callbacks) && eventDispatchEnabled == old(eventDispatchEnabled)
      ensures forall f: StateField :: Get(f) == old(Written(Write("createdOn", createdOn, value, None), f))
    {
      r := ProcessChange("createdOn", createdOn, value, None);
    }

    /** `setCreatedWith(creatingProcess)`. */
    method SetCreatedWith(value: Option<V>) returns (r: Outcome<Exception>)
      modifies this
      ensures trace == old(trace) + old(Processing("createdWith", createdWith, value, None)).steps
      ensures r == old(Processing("createdWith", createdWith, value, None)).outcome
      ensures fieldNames == old(fieldNames) && callbacks == old(callbacks) && eventDispatchEnabled == old(eventDispatchEnabled)
      ensures forall f: StateField :: Get(f) == old(Written(Write("createdWith", createdWith, value, None), f))
    {
      r := ProcessChange("createdWith", createdWith, value, None);
    }

    /**
     * `setModifiedBy(modifiedBy)`: after a completed change, `lastModifiedBy`
     * takes the (possibly new) `modifiedBy` only while it is still null.
     */
    method SetModifiedBy(value: Option<V>) returns (r: Outcome<Exception>)
      modifies this
      ensures trace == old(trace) + old(Processing("modifiedBy", modifiedBy, value, None)).steps
      ensures r == old(Processing("modifiedBy", modifiedBy, value, None)).outcome
      ensures fieldNames == old(fieldNames) && callbacks == old(callbacks) && eventDispatchEnabled == old(eventDispatchEnabled)
      ensures forall f: StateField :: f != LastModifiedBy ==>
        Get(f) == old(Written(Write("modifiedBy", modifiedBy, value, None), f))
      ensures var last := old(Written(Write("modifiedBy", modifiedBy, value, None), LastModifiedBy));
        lastModifiedBy == if r.Fail? || last.Some? then last else modifiedBy
      ensures old(lastModifiedBy).Some? && old(GetFieldName("modifiedBy")) != "lastModifiedBy"
        ==> lastModifiedBy == old(lastModifiedBy)
    {
      r := ProcessChange("modifiedBy", modifiedBy, value, None);
      if r.Pass? {
        lastModifiedBy := if lastModifiedBy.Some? then lastModifiedBy else modifiedBy;
      }
    }

    /** `setModifiedOn(modifiedOn)`: `lastModifiedOn` is written only while null. */
    method SetModifiedOn(value: Option<V>) returns (r: Outcome<Exception>)
      modifies this
      ensures trace == old(trace) + old(Processing("modifiedOn", modifiedOn, value, None)).steps
      ensures r == old(Processing("modifiedOn", modifiedOn, value, None)).outcome
      ensures fieldNames == old(fieldNames) && callbacks == old(callbacks) && eventDispatchEnabled == old(eventDispatchEnabled)
      ensures forall f: StateField :: f != LastModifiedOn ==>
        Get(f) == old(Written(Write("modifiedOn", modifiedOn, value, None), f))
      ensures var last := old(Written(Write("modifiedOn", modifiedOn, value, None), LastModifiedOn));
        lastModifiedOn == if r.Fail? || last.Some? then last else modifiedOn
      ensures old(lastModifiedOn).Some? && old(GetFieldName("modifiedOn")) != "lastModifiedOn"
        ==> lastModifiedOn == old(lastModifiedOn)
    {
      r := ProcessChange("modifiedOn", modifiedOn, value, None);
      if r.Pass? {
        lastModifiedOn := if lastModifiedOn.Some? then lastModifiedOn else modifiedOn;
      }
    }

    /** `setModifiedWith(modifyingProcess)`: `lastModifiedWith` is written only while null. */
    method SetModifiedWith(value: Option<V>) returns (r: Outcome<Exception>)
      modifies this
      ensures trace == old(trace) + old(Processing("modifiedWith", modifiedWith, value, None)).steps
      ensures r == old(Processing("modifiedWith", modifiedWith, value, None)).outcome
      ensures fieldNames == old(fieldNames) && callbacks == old(callbacks) && eventDispatchEnabled == old(eventDispatchEnabled)
      ensures forall f: StateField :: f != LastModifiedWith ==>
        Get(f) == old(Written(Write("modifiedWith", modifiedWith, value, None), f))
      ensures var last := old(Written(Write("modifiedWith", modifiedWith, value, None), LastModifiedWith));
        lastModifiedWith == if r.Fail? || last.Some? then last else modifiedWith
      ensures old(lastModifiedWith).Some? && old(GetFieldName("modifiedWith")) != "lastModifiedWith"
        ==> lastModifiedWith == old(lastModifiedWith)
    {
      r := ProcessChange("modifiedWith", modifiedWith, value, None);
      if r.Pass? {
        lastModifiedWith := if lastModifiedWith.Some? then lastModifiedWith else modifiedWith;
      }
    }
  }

  /** `setField` finds every state field under its own name. */
  lemma FieldNamedRoundTrip(f: StateField)
    ensures FieldNamed(f.Name()) == Some(f)
  {
  }

  /**
   * A change with no callback, whose property names a state field and which no
   * listener vetoes, completes and writes the new value to that field.
   */
  lemma FieldChangeIsWritten<V>(bean: Bean<V>, propertyName: string, oldValue: Option<V>, newValue: Option<V>,
                                f: StateField)
    requires propertyName !in bean.callbacks
    requires FieldName(bean.fieldNames, propertyName) == f.Name()
    requires !(bean.eventDispatchEnabled && bean.listeners.vetoable(propertyName) && Notifies(oldValue, newValue)
               && bean.listeners.vetoes(propertyName, oldValue, newValue))
    ensures bean.Processing(propertyName, oldValue, newValue, None).outcome == Pass
    ensures bean.Write(propertyName, oldValue, newValue, None) == Some((f, newValue))
  {
    FieldNamedRoundTrip(f);
  }

  /** A bean starts out new; a `setId` with a non-null id that is not vetoed makes it no longer new. */
  method IdentifyNewBean<V(==)>(listeners: Listeners<V>, newId: V) returns (wasNew: bool, r: Outcome<Exception>, isNew: bool)
    requires !listeners.vetoable("id")
    ensures wasNew && r == Pass && !isNew
  {
    var bean := new Bean(listeners);
    assert bean.Get(Id) == None;
    wasNew := bean.IsNew();
    FieldChangeIsWritten(bean, "id", bean.id, Some(newId), Id);
    r := bean.SetId(Some(newId));
    assert bean.Get(Id) == Some(newId);
    isNew := bean.IsNew();
  }

  /**
   * Two unvetoed `setModifiedBy` calls on a new bean: `modifiedBy` ends with
   * the second user, `lastModifiedBy` keeps the first.
   */
  method FirstModifierIsKept<V(==)>(listeners: Listeners<V>, first: V, second: V)
    returns (r1: Outcome<Exception>, r2: Outcome<Exception>, modifiedBy: Option<V>, lastModifiedBy: Option<V>)
    requires !listeners.vetoable("modifiedBy")
    ensures r1 == Pass && r2 == Pass
    ensures modifiedBy == Some(second) && lastModifiedBy == Some(first)
  {
    var bean := new Bean(listeners);
    assert bean.Get(LastModifiedBy) == None;
    FieldChangeIsWritten(bean, "modifiedBy", bean.modifiedBy, Some(first), ModifiedBy);
    r1 := bean.SetModifiedBy(Some(first));
    assert bean.Get(ModifiedBy) == Some(first) && bean.lastModifiedBy == Some(first);
    FieldChangeIsWritten(bean, "modifiedBy", bean.modifiedBy, Some(second), ModifiedBy);
    r2 := bean.SetModifiedBy(Some(second));
    assert bean.Get(ModifiedBy) == Some(second);
    modifiedBy, lastModifiedBy := bean.modifiedBy, bean.lastModifiedBy;
  }
}

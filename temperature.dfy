/** The temperature-unit store of the input forms: Celsius or Kelvin,
  * remembered in local storage under `temperatureUnit` as "0" or "1". */
module TemperatureStore {
  import opened Common

  const StorageKey := "temperatureUnit"

  datatype Unit = Celsius | Kelvin

  /** The enum's number, as `unit.toString()` writes it. */
  function Code(u: Unit): (r: string)
    ensures r == "0" || r == "1"
    ensures u.Celsius? == (r == "0")
  {
    match u
    case Celsius => "0"
    case Kelvin => "1"
  }

  /** `getDefaultUnit()`, given what `localStorage.getItem` returns:
    * only a stored "1" means Kelvin. */
  function DefaultUnit(stored: Option<string>): (r: Unit)
    ensures r == Kelvin <==> stored == Some("1")
  {
    if stored == Some("1") then Kelvin else Celsius
  }

  /** What the store holds for a unit: its name, its symbol and its unit. */
  datatype UnitState = UnitState(name: string, unit: Unit, prettyUnit: string)

  /** `kelvinState` and `celsiusState`; the Celsius symbol is the text the
    * source file holds. */
  function StateOf(u: Unit): (r: UnitState)
    ensures r.unit == u
  {
    match u
    case Kelvin => UnitState("Kelvin", Kelvin, "K")
    case Celsius => UnitState("Celsius", Celsius, "\U{00C2}\U{00B0}C")
  }

  /** `convertTo`: from Kelvin to the shown unit. */
  function ConvertTo(u: Unit, value: real): real
  {
    match u
    case Kelvin => value
    case Celsius => value - 273.0
  }

  /** `convertFrom`: from the shown unit to Kelvin. */
  function ConvertFrom(u: Unit, value: real): real
  {
    match u
    case Kelvin => value
    case Celsius => value + 273.0
  }

  /** Converting there and back, in either order, gives the value back;
    * Kelvin converts nothing. */
  lemma ConvertRoundTrip(u: Unit, value: real)
    ensures ConvertFrom(u, ConvertTo(u, value)) == value
    ensures ConvertTo(u, ConvertFrom(u, value)) == value
    ensures u == Kelvin ==> ConvertTo(u, value) == value && ConvertFrom(u, value) == value
    ensures u == Celsius ==> ConvertTo(u, value) == value - 273.0
  {
  }

  /** The other unit, as `nextUnit` picks it. */
  function Toggle(u: Unit): (r: Unit)
    ensures r != u
  {
    if u == Celsius then Kelvin else Celsius
  }

  /** What `setDefaultUnit` writes is read back as the same unit. */
  lemma DefaultUnitOfCode(u: Unit)
    ensures DefaultUnit(Some(Code(u))) == u
  {
  }

  /** The zustand store: the current unit's state and the stored code. */
  class Store {
    var state: UnitState
    var stored: Option<string>

    ghost predicate Valid()
      reads this
    {
      state == StateOf(state.unit)
    }

    /** `create(...)` spreading the state of the stored unit. */
    constructor(stored: Option<string>)
      ensures Valid() && state == StateOf(DefaultUnit(stored)) && this.stored == stored
    {
      state := StateOf(DefaultUnit(stored));
      this.stored := stored;
    }

    /** `nextUnit()`: switches to the other unit and stores its code. */
    method NextUnit()
      requires Valid()
      modifies this
      ensures Valid()
      ensures state == StateOf(Toggle(old(state.unit)))
      ensures stored == Some(Code(state.unit))
    {
      var newState := if state.unit == Celsius then StateOf(Kelvin) else StateOf(Celsius);
      stored := Some(Code(newState.unit));
      state := newState;
    }

    /** Switching twice restores the unit, and what is stored then reads
      * back as it. */
    method NextUnitTwice()
      requires Valid()
      modifies this
      ensures Valid() && state == old(state)
      ensures DefaultUnit(stored) == state.unit
    {
      NextUnit();
      NextUnit();
      DefaultUnitOfCode(state.unit);
    }
  }
}

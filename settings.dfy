/** The settings context: display units for values, the temperature unit
  * the user cycles through and keeps in local storage, and a cache of
  * free-form units by their symbol. */
module SettingsContext {
  import opened Common

  /** `Unit` and its subclasses. A plain unit converts nothing; Celsius
    * shows Kelvin values less 273. */
  datatype Unit = Plain(name: string, symbol: string) | Kelvin | Celsius
  {
    function Name(): string
    {
      match this
      case Plain(name, _) => name
      case Kelvin => "kelvin"
      case Celsius => "celsius"
    }

    /** The `unit` field; the Celsius symbol is the text the source files
      * hold. */
    function Symbol(): string
    {
      match this
      case Plain(_, symbol) => symbol
      case Kelvin => "K"
      case Celsius => "\U{00C2}\U{00B0}C"
    }

    /** `valueToNumber` */
    function ToNumber(value: real): real
    {
      if Celsius? then value - 273.0 else value
    }

    /** `valueFromNumber` */
    function FromNumber(value: real): real
    {
      if Celsius? then value + 273.0 else value
    }

    /** `valueToString`: the shown number, a space and the symbol; `show`
      * is JavaScript's number-to-text conversion. */
    function ToText(value: real, show: real -> string): (r: string)
      ensures r == show(ToNumber(value)) + " " + Symbol()
    {
      show(ToNumber(value)) + " " + Symbol()
    }
  }

  /** `new Unit(name, unit)`: a missing argument is the empty text. */
  function NewUnit(name: Option<string>, symbol: Option<string>): (u: Unit)
    ensures u.Name() == GetOpt(name, "") && u.Symbol() == GetOpt(symbol, "")
    ensures !u.Celsius? && !u.Kelvin?
  {
    Plain(GetOpt(name, ""), GetOpt(symbol, ""))
  }

  /** `x ?? fallback` */
  function GetOpt<T>(x: Option<T>, fallback: T): T
  {
    match x
    case Some(v) => v
    case None => fallback
  }

  /** The conversions are mutual inverses, and every unit other than
    * Celsius converts nothing. */
  lemma ConversionsInverse(u: Unit, value: real)
    ensures u.FromNumber(u.ToNumber(value)) == value
    ensures u.ToNumber(u.FromNumber(value)) == value
    ensures !u.Celsius? ==> u.ToNumber(value) == value && u.FromNumber(value) == value
  {
  }

  /** `[new Celsius(), new Kelvin()]` */
  const Temperatures: seq<Unit> := [Celsius, Kelvin]

  /** `units.find((unit) => unit.name === item)`, as a position. */
  function FindByName(units: seq<Unit>, item: Option<string>): (r: Option<nat>)
    ensures r.Some? ==> r.value < |units| && item == Some(units[r.value].Name()) &&
                        forall j :: 0 <= j < r.value ==> item != Some(units[j].Name())
    ensures r.None? ==> forall j :: 0 <= j < |units| ==> item != Some(units[j].Name())
    decreases |units|
  {
    if units == [] then None
    else if item == Some(units[0].Name()) then Some(0)
    else
      match FindByName(units[1..], item)
      case None => None
      case Some(k) => Some(k + 1)
  }

  /** `getDefault(units, keyName)`, given what is stored under the key:
    * the first unit of that name, else the first unit. */
  function GetDefault(units: seq<Unit>, stored: Option<string>): (r: Unit)
    requires units != []
    ensures r in units
    ensures match FindByName(units, stored)
            case Some(k) => r == units[k] && stored == Some(r.Name())
            case None => r == units[0]
  {
    match FindByName(units, stored)
    case Some(k) => units[k]
    case None => units[0]
  }

  /** `units.indexOf(current)`; -1 is `None`. */
  function IndexOf(units: seq<Unit>, current: Unit): (r: Option<nat>)
    ensures r.Some? ==> r.value < |units| && units[r.value] == current && current !in units[..r.value]
    ensures r.None? ==> current !in units
    decreases |units|
  {
    if units == [] then None
    else if units[0] == current then Some(0)
    else
      match IndexOf(units[1..], current)
      case None => None
      case Some(k) =>
        assert units[..k + 1] == [units[0]] + units[1..][..k];
        Some(k + 1)
  }

  /** `nextUnit(units, current, keyName)`: the unit after the current one,
    * wrapping to the first after the last or when the current one is not
    * in the list. Its name is what gets stored. */
  function NextUnit(units: seq<Unit>, current: Unit): (r: Unit)
    requires units != []
    ensures r in units
    ensures match IndexOf(units, current)
            case Some(i) => r == if i + 1 < |units| then units[i + 1] else units[0]
            case None => r == units[0]
  {
    match IndexOf(units, current)
    case Some(i) => if i + 1 >= |units| then units[0] else units[i + 1]
    case None => units[0]
  }

  /** Cycling the temperature units goes Celsius, Kelvin, Celsius, so two
    * steps come back; any other unit steps to Celsius. */
  lemma TemperatureCycle(u: Unit)
    ensures NextUnit(Temperatures, Celsius) == Kelvin
    ensures NextUnit(Temperatures, Kelvin) == Celsius
    ensures u in Temperatures ==> NextUnit(Temperatures, NextUnit(Temperatures, u)) == u
    ensures u !in Temperatures ==> NextUnit(Temperatures, u) == Celsius
  {
    assert IndexOf(Temperatures, Celsius) == Some(0);
    assert IndexOf(Temperatures[1..], Kelvin) == Some(0);
    assert IndexOf(Temperatures, Kelvin) == Some(1);
  }

  /** What `nextUnit` stores is read back by `getDefault` as the same
    * unit, for units with distinct names. */
  lemma StoredNameReadBack(units: seq<Unit>, current: Unit)
    requires units != []
    requires forall i, j :: 0 <= i < j < |units| ==> units[i].Name() != units[j].Name()
    ensures GetDefault(units, Some(NextUnit(units, current).Name())) == NextUnit(units, current)
  {
    var next := NextUnit(units, current);
    var k :| 0 <= k < |units| && units[k] == next;
    match FindByName(units, Some(next.Name()))
    case Some(j) =>
      assert units[j].Name() == units[k].Name();
    case None =>
  }

  /** The module-wide `customUnits` record, keyed by symbol. */
  class UnitCache {
    var customUnits: map<string, Unit>

    ghost predicate Valid()
      reads this
    {
      forall s :: s in customUnits ==> customUnits[s].Symbol() == s
    }

    constructor()
      ensures Valid() && customUnits == map[]
    {
      customUnits := map[];
    }

    /** The cached `getUnit(name, customUnit)`: the unit cached under the
      * symbol (a missing symbol is the empty one), made and cached with
      * this name when there is none. */
    method GetUnit(name: Option<string>, customUnit: Option<string>) returns (u: Unit)
      requires Valid()
      modifies this
      ensures Valid()
      ensures var key := GetOpt(customUnit, "");
              u.Symbol() == key &&
              if key in old(customUnits) then u == old(customUnits)[key] && customUnits == old(customUnits)
              else u == NewUnit(name, Some(key)) && customUnits == old(customUnits)[key := u]
    {
      var key := GetOpt(customUnit, "");
      if key in customUnits {
        return customUnits[key];
      }
      u := NewUnit(name, Some(key));
      customUnits := customUnits[key := u];
    }

    /** Asking twice for the same symbol gives the same unit, with the
      * first name asked for. */
    method GetUnitTwice(name1: Option<string>, name2: Option<string>, customUnit: Option<string>) returns (u1: Unit, u2: Unit)
      requires Valid() && GetOpt(customUnit, "") !in customUnits
      modifies this
      ensures Valid()
      ensures u1 == u2 && u1.Name() == GetOpt(name1, "")
    {
      u1 := GetUnit(name1, customUnit);
      u2 := GetUnit(name2, customUnit);
    }
  }

  /** `SettingsProvider`: the current temperature unit, what local storage
    * holds under `temperatureUnit`, and the shared unit cache. */
  class Provider {
    var temperature: Unit
    var stored: Option<string>
    const cache: UnitCache

    ghost predicate Valid()
      reads this, cache
    {
      temperature in Temperatures && cache.Valid()
    }

    /** `useState(getDefault(temperatures, "temperatureUnit"))` */
    constructor(stored: Option<string>, cache: UnitCache)
      requires cache.Valid()
      ensures Valid()
      ensures temperature == GetDefault(Temperatures, stored) && this.stored == stored && this.cache == cache
    {
      temperature := GetDefault(Temperatures, stored);
      this.stored := stored;
      this.cache := cache;
    }

    /** `nextTemperature()`: steps to the next unit and stores its name. */
    method NextTemperature()
      requires Valid()
      modifies this
      ensures Valid()
      ensures temperature == NextUnit(Temperatures, old(temperature))
      ensures stored == Some(temperature.Name())
    {
      var unit := NextUnit(Temperatures, temperature);
      stored := Some(unit.Name());
      temperature := unit;
    }

    /** The provider's `getUnit(name, customUnit)`: "kelvin" is the current
      * temperature unit; every other name goes to the cache. */
    method GetUnit(name: Option<string>, customUnit: Option<string>) returns (u: Unit)
      requires Valid()
      modifies cache
      ensures Valid()
      ensures name == Some("kelvin") ==> u == temperature && cache.customUnits == old(cache.customUnits)
      ensures name != Some("kelvin") ==>
                var key := GetOpt(customUnit, "");
                if key in old(cache.customUnits) then u == old(cache.customUnits)[key] && cache.customUnits == old(cache.customUnits)
                else u == NewUnit(name, Some(key)) && cache.customUnits == old(cache.customUnits)[key := u]
    {
      if name == Some("kelvin") {
        return temperature;
      }
      u := cache.GetUnit(name, customUnit);
    }
  }

  /** The default context's `getUnit` in the `.tsx` variant: a new unit on
    * every call, nothing cached. */
  function FreshUnit(name: Option<string>, customUnit: Option<string>): (u: Unit)
    ensures u == NewUnit(name, customUnit)
    ensures u.Symbol() == GetOpt(customUnit, "") && !u.Celsius?
  {
    Plain(GetOpt(name, ""), GetOpt(customUnit, ""))
  }
}

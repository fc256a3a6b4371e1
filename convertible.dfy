/** The number field that shows a value in a display unit, lets the user
  * type anything, and on leaving the field clamps the typed number to its
  * bounds and reports it. */
module ConvertibleField {
  import opened Common
  import SettingsContext

  /** A JavaScript number as the field meets it: `None` is `NaN`, what an
    * input that holds no number (such as "" or "-") reports. */
  type Num = Option<real>

  /** A display unit's two conversions: `valueToNumber` (stored value to
    * shown number) and `valueFromNumber` (back). */
  datatype Conversion = Conversion(toNumber: real -> real, fromNumber: real -> real)

  /** The conversions of a settings unit. */
  function Of(u: SettingsContext.Unit): (c: Conversion)
    ensures forall v :: c.fromNumber(c.toNumber(v)) == v && c.toNumber(c.fromNumber(v)) == v
  {
    forall v: real
      ensures u.FromNumber(u.ToNumber(v)) == v && u.ToNumber(u.FromNumber(v)) == v
    {
      SettingsContext.ConversionsInverse(u, v);
    }
    Conversion(v => u.ToNumber(v), v => u.FromNumber(v))
  }

  /** A conversion applied to a number; `NaN` stays `NaN`. */
  function Apply(f: real -> real, x: Num): Num
  {
    match x
    case None => None
    case Some(v) => Some(f(v))
  }

  /** The bounds: a missing `min` is `-Infinity` and a missing `max` is
    * `Infinity`, so `None` leaves that side open. */
  datatype Bounds = Bounds(min: Option<real>, max: Option<real>)

  /** `Math.max(Math.min(value, max), min)` */
  function Clamp(b: Bounds, v: real): real
  {
    var upper := match b.max case None => v case Some(hi) => if v < hi then v else hi;
    match b.min case None => upper case Some(lo) => if upper > lo then upper else lo
  }

  predicate Within(b: Bounds, v: real)
  {
    (b.min.None? || b.min.value <= v) && (b.max.None? || v <= b.max.value)
  }

  predicate Ordered(b: Bounds)
  {
    b.min.None? || b.max.None? || b.min.value <= b.max.value
  }

  /** `constrain(value)`: `null` for `NaN`, otherwise the value clamped to
    * the bounds; with bounds in order the result lies within them, and a
    * value within them is kept. */
  function Constrain(b: Bounds, x: Num): (r: Num)
    ensures x.None? <==> r.None?
    ensures x.Some? && Ordered(b) ==> Within(b, r.value)
    ensures x.Some? && Within(b, x.value) ==> r == x
    ensures x.Some? && b.min.None? && b.max.None? ==> r == x
  {
    match x
    case None => None
    case Some(v) => Some(Clamp(b, v))
  }

  /** The validity `handleChange` computes, `value === constrainedValue`,
    * is exactly "a number within the bounds" when the bounds are in
    * order. */
  lemma ChangeValidity(b: Bounds, x: Num)
    requires Ordered(b)
    ensures (Constrain(b, x) == x && x.Some?) <==> x.Some? && Within(b, x.value)
  {
  }

  /** The field's state: the text shown, whether it is marked valid, the
    * value it was given, and every value it has reported through
    * `onValueChange`. */
  class Field {
    var valueStr: string
    var valid: bool
    var value: real
    var reported: seq<real>
    const unit: Conversion
    const bounds: Bounds
    const listening: bool
    const show: real -> string

    /** The first render: `value ?? 0` shown in the display unit, valid. */
    constructor(value: Option<real>, unit: Conversion, bounds: Bounds, listening: bool, show: real -> string)
      ensures this.value == (if value.Some? then value.value else 0.0)
      ensures valueStr == show(unit.toNumber(this.value)) && valid && reported == []
      ensures this.unit == unit && this.bounds == bounds && this.listening == listening && this.show == show
    {
      this.value := if value.Some? then value.value else 0.0;
      this.unit := unit;
      this.bounds := bounds;
      this.listening := listening;
      this.show := show;
      valueStr := show(unit.toNumber(if value.Some? then value.value else 0.0));
      valid := true;
      reported := [];
    }

    /** The effect that re-shows a new `value` prop. */
    method ValueChanged(newValue: real)
      modifies this
      ensures value == newValue && valueStr == show(unit.toNumber(newValue))
      ensures valid == old(valid) && reported == old(reported)
    {
      value := newValue;
      valueStr := show(unit.toNumber(newValue));
    }

    /** `handleChange`: shows the typed text as it is and marks the field
      * invalid exactly when the typed number, converted back, is `NaN`
      * or outside the bounds. */
    method HandleChange(typed: Num, text: string)
      modifies this
      ensures valueStr == text && value == old(value) && reported == old(reported)
      ensures var v := Apply(unit.fromNumber, typed);
              valid == (v.Some? && Constrain(bounds, v) == v)
      ensures Ordered(bounds) ==> (valid <==> typed.Some? && Within(bounds, unit.fromNumber(typed.value)))
    {
      var v := Apply(unit.fromNumber, typed);
      var constrained := Constrain(bounds, v);
      valid := v.Some? && v == constrained;
      valueStr := text;
      if Ordered(bounds) {
        ChangeValidity(bounds, v);
      }
    }

    /** `handleBlur`: a typed `NaN` puts back the shown current value and
      * reports nothing; otherwise the clamped value is shown and reported.
      * Either way the field is valid again. */
    method HandleBlur(typed: Num)
      modifies this
      ensures valid && value == old(value)
      ensures typed.None? ==> valueStr == show(unit.toNumber(value)) && reported == old(reported)
      ensures typed.Some? ==>
                var v := Clamp(bounds, unit.fromNumber(typed.value));
                valueStr == show(unit.toNumber(v)) &&
                reported == old(reported) + (if listening then [v] else [])
    {
      var newValue := Constrain(bounds, Apply(unit.fromNumber, typed));
      if newValue.None? {
        valueStr := show(unit.toNumber(value));
      } else {
        valueStr := show(unit.toNumber(newValue.value));
        if listening {
          reported := reported + [newValue.value];
        }
      }
      valid := true;
    }
  }

  /** Typing 12345 into a field bounded above by 10 and leaving it shows
    * and reports 10. */
  method TypingPastMaximum(show: real -> string) returns (f: Field)
    ensures f.valueStr == show(10.0) && f.reported == [10.0] && f.valid
  {
    var plain := Of(SettingsContext.Plain("", ""));
    f := new Field(Some(0.0), plain, Bounds(None, Some(10.0)), true, show);
    f.HandleChange(Some(12345.0), "12345");
    assert !f.valid;
    f.HandleBlur(Some(12345.0));
  }

  /** A unit that shows values plus 100: the value 0 shows as 100, and
    * 123 typed in it is reported as 23. */
  method ShiftedUnit(show: real -> string) returns (f: Field)
    ensures f.reported == [23.0] && f.valueStr == show(123.0)
  {
    var dummy := Conversion(v => v + 100.0, v => v - 100.0);
    f := new Field(Some(0.0), dummy, Bounds(None, None), true, show);
    assert f.valueStr == show(100.0);
    f.HandleBlur(Some(123.0));
  }
}

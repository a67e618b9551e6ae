/**
 * The settings form that edits store entries: each field starts from the store or its
 * default, is validated by type and bounds and an optional custom check, and the form
 * is saved into the store only when no field has an error.
 */
module StoreUI {
  import opened Wrappers
  import opened Json
  import opened Strings

  datatype FieldType = StringField | IntegerField | FloatField | BooleanField

  /**
   * A field of the form. Absent bounds are None; `validate` returns what the author's
   * check returns (true, '' or a message, or anything else).
   */
  datatype FieldConfig = FieldConfig(
    kind: FieldType,
    storeKey: string,
    min: Option<real>,
    max: Option<real>,
    step: Option<real>,
    minLength: Option<real>,
    maxLength: Option<real>,
    validate: Option<Value -> Value>,
    defaultValue: Value)

  predicate IsNumeric(f: FieldConfig)
  {
    f.kind == IntegerField || f.kind == FloatField
  }

  /** `store?.[key] !== undefined ? store[key] : defaultValue`. */
  function InitialValue(f: FieldConfig, store: Store): (v: Value)
    ensures f.storeKey in store && store[f.storeKey] != Undefined ==> v == store[f.storeKey]
    ensures (f.storeKey !in store || store[f.storeKey] == Undefined) ==> v == f.defaultValue
  {
    if f.storeKey in store && store[f.storeKey] != Undefined then store[f.storeKey] else f.defaultValue
  }

  /** The initial values, assigned field by field in the order of the fields. */
  function InitialValues(fields: seq<FieldConfig>, store: Store): Record
  {
    if |fields| == 0 then []
    else
      var f := fields[|fields| - 1];
      Put(InitialValues(fields[..|fields| - 1], store), f.storeKey, InitialValue(f, store))
  }

  /** The keys of the fields. */
  function FieldKeys(fields: seq<FieldConfig>): (ks: set<string>)
    ensures forall i :: 0 <= i < |fields| ==> fields[i].storeKey in ks
  {
    if |fields| == 0 then {}
    else FieldKeys(fields[..|fields| - 1]) + {fields[|fields| - 1].storeKey}
  }

  /** The initial values hold exactly the fields' keys. */
  lemma {:induction false} InitialValuesHasKey(fields: seq<FieldConfig>, store: Store, k: string)
    ensures HasKey(InitialValues(fields, store), k) <==> k in FieldKeys(fields)
  {
    if |fields| > 0 {
      var n := |fields| - 1;
      var prev := InitialValues(fields[..n], store);
      InitialValuesHasKey(fields[..n], store, k);
      var f := fields[n];
      assert InitialValues(fields, store) == Put(prev, f.storeKey, InitialValue(f, store));
      assert HasKey(InitialValues(fields, store), k) <==> HasKey(prev, k) || k == f.storeKey;
    }
  }

  /**
   * Each field starts from the store's value when it is defined and from its default
   * otherwise; with two fields on one key the later one wins.
   */
  lemma {:induction false} InitialValuesGet(fields: seq<FieldConfig>, store: Store, i: nat)
    requires i < |fields|
    requires forall j :: i < j < |fields| ==> fields[j].storeKey != fields[i].storeKey
    ensures Get(InitialValues(fields, store), fields[i].storeKey) == InitialValue(fields[i], store)
  {
    var n := |fields| - 1;
    var f := fields[n];
    var prev := InitialValues(fields[..n], store);
    assert InitialValues(fields, store) == Put(prev, f.storeKey, InitialValue(f, store));
    var k := fields[i].storeKey;
    if i < n {
      assert fields[..n][i] == fields[i];
      InitialValuesGet(fields[..n], store, i);
      assert f.storeKey != k;
      assert Get(Put(prev, f.storeKey, InitialValue(f, store)), k) == Get(prev, k);
    } else {
      assert i == n;
      assert Get(Put(prev, k, InitialValue(f, store)), k) == InitialValue(f, store);
    }
  }

  /** JavaScript's `<` between a value and a number; `num` is the engine's ToNumber, None for NaN. */
  predicate Below(v: Value, bound: real, num: Value -> Option<real>)
  {
    num(v).Some? && num(v).value < bound
  }

  predicate Above(v: Value, bound: real, num: Value -> Option<real>)
  {
    num(v).Some? && num(v).value > bound
  }

  /**
   * `value.length`: throws on null and undefined, is undefined for values without one,
   * and counts a string's UTF-16 code units.
   */
  function LengthOf(v: Value): (r: Result<Option<real>>)
    ensures r.Err? <==> Nullish(v)
    ensures v.Str? ==> r.Ok? && r.value.Some? && |v.s| as real <= r.value.value <= (2 * |v.s|) as real
    ensures v.Str? && (forall i :: 0 <= i < |v.s| ==> v.s[i] as int <= 0xFFFF) ==> r == Ok(Some(|v.s| as real))
  {
    match v
    case Undefined => Err("TypeError: value.length of undefined")
    case Null => Err("TypeError: value.length of null")
    case Str(s) => Ok(Some(Utf16Length(s) as real))
    case Arr(es) => Ok(Some(|es| as real))
    case _ => Ok(None)
  }

  /** The type-specific checks: required and bounds for numbers, lengths for strings. */
  function BuiltinError(f: FieldConfig, v: Value, num: Value -> Option<real>, fmt: real -> string)
    : (r: Result<Option<string>>)
    ensures r.Err? <==> f.kind == StringField && !IsNumeric(f) && (f.minLength.Some? || f.maxLength.Some?) && Nullish(v)
    ensures r.Ok? && r.value.Some? ==> r.value.value != ""
    ensures IsNumeric(f) && (Nullish(v) || v == Str("")) ==> r == Ok(Some("This field is required"))
    ensures !IsNumeric(f) && f.kind != StringField ==> r == Ok(None)
  {
    if IsNumeric(f) then
      if Nullish(v) || v == Str("") then Ok(Some("This field is required"))
      else if f.min.Some? && Below(v, f.min.value, num) then Ok(Some("Value must be at least " + fmt(f.min.value)))
      else if f.max.Some? && Above(v, f.max.value, num) then Ok(Some("Value must be at most " + fmt(f.max.value)))
      else Ok(None)
    else if f.kind == StringField then
      if f.minLength.Some? then
        var len := LengthOf(v);
        if len.Err? then Err(len.message)
        else if len.value.Some? && len.value.value < f.minLength.value then
          Ok(Some("Must be at least " + fmt(f.minLength.value) + " characters"))
        else if f.maxLength.Some? && len.value.Some? && len.value.value > f.maxLength.value then
          Ok(Some("Must be at most " + fmt(f.maxLength.value) + " characters"))
        else Ok(None)
      else if f.maxLength.Some? then
        var len := LengthOf(v);
        if len.Err? then Err(len.message)
        else if len.value.Some? && len.value.value > f.maxLength.value then
          Ok(Some("Must be at most " + fmt(f.maxLength.value) + " characters"))
        else Ok(None)
      else Ok(None)
    else Ok(None)
  }

  /** The author's check: `true` and `''` pass, a string is the message, anything else is a generic one. */
  function CustomError(f: FieldConfig, v: Value): (e: Option<string>)
    ensures f.validate.None? ==> e.None?
    ensures e.Some? ==> e.value != ""
  {
    if f.validate.None? then None
    else
      var r := f.validate.value(v);
      if r == Bool(true) || r == Str("") then None
      else if r.Str? then Some(r.s)
      else Some("Invalid value")
  }

  /** `validateField`: the built-in checks first, the author's check only when they pass. */
  function ValidateField(f: FieldConfig, v: Value, num: Value -> Option<real>, fmt: real -> string)
    : (r: Result<Option<string>>)
    ensures r.Err? <==> BuiltinError(f, v, num, fmt).Err?
    ensures r.Ok? && BuiltinError(f, v, num, fmt).value.Some? ==> r == BuiltinError(f, v, num, fmt)
    ensures r.Ok? && BuiltinError(f, v, num, fmt).value.None? ==> r.value == CustomError(f, v)
    ensures r.Ok? && r.value.Some? ==> r.value.value != ""
  {
    var b := BuiltinError(f, v, num, fmt);
    if b.Err? then b
    else if b.value.Some? then b
    else Ok(CustomError(f, v))
  }

  /** A numeric field's value is accepted only when it is present and within its bounds. */
  lemma NumericAccepted(f: FieldConfig, v: Value, num: Value -> Option<real>, fmt: real -> string)
    requires IsNumeric(f) && ValidateField(f, v, num, fmt) == Ok(None)
    ensures !Nullish(v) && v != Str("")
    ensures num(v).Some? && f.min.Some? ==> num(v).value >= f.min.value
    ensures num(v).Some? && f.max.Some? ==> num(v).value <= f.max.value
    ensures f.validate.Some? ==> f.validate.value(v) == Bool(true) || f.validate.value(v) == Str("")
  {
  }

  /** A string field's value is accepted only when its length is within the bounds. */
  lemma StringAccepted(f: FieldConfig, v: Value, num: Value -> Option<real>, fmt: real -> string)
    requires f.kind == StringField && ValidateField(f, v, num, fmt) == Ok(None)
    ensures (f.minLength.Some? || f.maxLength.Some?) ==> !Nullish(v)
    ensures v.Str? && f.minLength.Some? ==> Utf16Length(v.s) as real >= f.minLength.value
    ensures v.Str? && f.maxLength.Some? ==> Utf16Length(v.s) as real <= f.maxLength.value
  {
  }

  /** A single character above U+FFFF is two code units long, so a maximum length of 1 refuses it. */
  lemma SupplementaryCountsTwice(f: FieldConfig, num: Value -> Option<real>, fmt: real -> string)
    requires f.kind == StringField && f.minLength.None? && f.maxLength == Some(1.0)
    ensures ValidateField(f, Str("\U{1F600}"), num, fmt) == Ok(Some("Must be at most " + fmt(1.0) + " characters"))
  {
    assert Utf16Length("\U{1F600}") == 2 by {
      assert "\U{1F600}"[1..] == [];
    }
  }

  /**
   * One field's turn in `handleSave`: a built-in error is written under the key, and
   * the author's check runs only when no error is recorded under the key yet.
   */
  function SaveStep(errs: map<string, string>, f: FieldConfig, v: Value, num: Value -> Option<real>,
                    fmt: real -> string): Result<map<string, string>>
  {
    var b := BuiltinError(f, v, num, fmt);
    if b.Err? then Err(b.message)
    else
      var errs1 := if b.value.Some? then errs[f.storeKey := b.value.value] else errs;
      if f.validate.Some? && (f.storeKey !in errs1 || errs1[f.storeKey] == "") then
        var c := CustomError(f, v);
        Ok(if c.Some? then errs1[f.storeKey := c.value] else errs1)
      else Ok(errs1)
  }

  /** A field's turn writes under its own key only. */
  lemma SaveStepKeys(errs: map<string, string>, f: FieldConfig, v: Value, num: Value -> Option<real>, fmt: real -> string)
    ensures SaveStep(errs, f, v, num, fmt).Ok? ==> SaveStep(errs, f, v, num, fmt).value.Keys <= errs.Keys + {f.storeKey}
  {
  }

  /** The errors `handleSave` collects over the fields, in order. */
  function SaveErrors(fields: seq<FieldConfig>, values: Record, num: Value -> Option<real>,
                      fmt: real -> string): (r: Result<map<string, string>>)
    ensures r.Ok? ==> forall k :: k in r.value ==> r.value[k] != ""
  {
    if |fields| == 0 then Ok(map[])
    else
      var n := |fields| - 1;
      var prev := SaveErrors(fields[..n], values, num, fmt);
      if prev.Err? then prev
      else SaveStep(prev.value, fields[n], Get(values, fields[n].storeKey), num, fmt)
  }

  predicate DistinctKeys(fields: seq<FieldConfig>)
  {
    forall i, j :: 0 <= i < j < |fields| ==> fields[i].storeKey != fields[j].storeKey
  }

  /** Collecting the errors throws exactly when some field's built-in check throws. */
  lemma {:induction false} SaveErrorsThrows(fields: seq<FieldConfig>, values: Record,
                                            num: Value -> Option<real>, fmt: real -> string)
    ensures SaveErrors(fields, values, num, fmt).Err? <==>
      exists i :: 0 <= i < |fields| && ValidateField(fields[i], Get(values, fields[i].storeKey), num, fmt).Err?
  {
    if |fields| > 0 {
      var n := |fields| - 1;
      var prev := SaveErrors(fields[..n], values, num, fmt);
      SaveErrorsThrows(fields[..n], values, num, fmt);
      if prev.Err? {
        var i :| 0 <= i < n && ValidateField(fields[..n][i], Get(values, fields[..n][i].storeKey), num, fmt).Err?;
        assert fields[..n][i] == fields[i];
        assert SaveErrors(fields, values, num, fmt) == prev;
      } else {
        var v := Get(values, fields[n].storeKey);
        assert SaveErrors(fields, values, num, fmt) == SaveStep(prev.value, fields[n], v, num, fmt);
        if ValidateField(fields[n], v, num, fmt).Err? {
          assert SaveStep(prev.value, fields[n], v, num, fmt).Err?;
        } else {
          assert SaveStep(prev.value, fields[n], v, num, fmt).Ok?;
          forall i | 0 <= i < |fields|
            ensures ValidateField(fields[i], Get(values, fields[i].storeKey), num, fmt).Ok?
          {
            if i < n {
              assert fields[..n][i] == fields[i];
            } else {
              assert i == n;
            }
          }
        }
      }
    }
  }

  /** Errors are recorded only under the keys of fields. */
  lemma {:induction false} SaveErrorsOnlyFields(fields: seq<FieldConfig>, values: Record,
                                                num: Value -> Option<real>, fmt: real -> string, k: string)
    requires SaveErrors(fields, values, num, fmt).Ok? && k in SaveErrors(fields, values, num, fmt).value
    ensures exists i :: 0 <= i < |fields| && fields[i].storeKey == k
  {
    var n := |fields| - 1;
    if fields[n].storeKey != k {
      var prev := SaveErrors(fields[..n], values, num, fmt);
      var v := Get(values, fields[n].storeKey);
      assert prev.Ok? && SaveErrors(fields, values, num, fmt) == SaveStep(prev.value, fields[n], v, num, fmt);
      SaveStepKeys(prev.value, fields[n], v, num, fmt);
      SaveErrorsOnlyFields(fields[..n], values, num, fmt, k);
      var i :| 0 <= i < n && fields[..n][i].storeKey == k;
      assert fields[i] == fields[..n][i];
    }
  }

  /**
   * With one field per key, the errors `handleSave` collects are the verdicts of
   * `validateField`: a field's key is listed if and only if the field is invalid, and
   * under it is the same message.
   */
  lemma {:induction false} SaveErrorsAt(fields: seq<FieldConfig>, values: Record,
                                        num: Value -> Option<real>, fmt: real -> string, i: nat)
    requires DistinctKeys(fields) && i < |fields|
    requires SaveErrors(fields, values, num, fmt).Ok?
    ensures var r := SaveErrors(fields, values, num, fmt).value;
      var e := ValidateField(fields[i], Get(values, fields[i].storeKey), num, fmt);
      && e.Ok?
      && (fields[i].storeKey in r <==> e.value.Some?)
      && (e.value.Some? ==> r[fields[i].storeKey] == e.value.value)
  {
    var n := |fields| - 1;
    var init := fields[..n];
    assert DistinctKeys(init);
    var prev := SaveErrors(init, values, num, fmt);
    assert prev.Ok?;
    if fields[n].storeKey in prev.value {
      SaveErrorsOnlyFields(init, values, num, fmt, fields[n].storeKey);
      assert false;
    }
    var v := Get(values, fields[n].storeKey);
    assert SaveErrors(fields, values, num, fmt) == SaveStep(prev.value, fields[n], v, num, fmt);
    SaveStepSpec(prev.value, fields[n], v, num, fmt);
    if i < n {
      assert init[i] == fields[i];
      SaveErrorsAt(init, values, num, fmt, i);
      assert fields[i].storeKey != fields[n].storeKey;
    } else {
      assert i == n;
    }
  }

  /** A field whose key has no error yet gets exactly the error `validateField` reports. */
  lemma SaveStepSpec(errs: map<string, string>, f: FieldConfig, v: Value, num: Value -> Option<real>, fmt: real -> string)
    requires f.storeKey !in errs
    ensures var r := SaveStep(errs, f, v, num, fmt);
      var e := ValidateField(f, v, num, fmt);
      && (r.Err? <==> e.Err?)
      && (r.Ok? ==> r.value == if e.value.Some? then errs[f.storeKey := e.value.value] else errs)
  {
  }

  /** With one field per key, the form is saved exactly when every field passes `validateField`. */
  lemma SaveIffAllValid(fields: seq<FieldConfig>, values: Record, num: Value -> Option<real>, fmt: real -> string)
    requires DistinctKeys(fields)
    ensures var r := SaveErrors(fields, values, num, fmt);
      r.Ok? && |r.value| == 0 <==>
        forall i :: 0 <= i < |fields| ==> ValidateField(fields[i], Get(values, fields[i].storeKey), num, fmt) == Ok(None)
  {
    var r := SaveErrors(fields, values, num, fmt);
    SaveErrorsThrows(fields, values, num, fmt);
    if r.Ok? {
      forall i | 0 <= i < |fields| { SaveErrorsAt(fields, values, num, fmt, i); }
      if |r.value| != 0 {
        var k :| k in r.value;
        SaveErrorsOnlyFields(fields, values, num, fmt, k);
      }
    }
  }

  /** `field.step || 1`: a missing or zero step is one. */
  function StepOf(f: FieldConfig): real
  {
    if f.step.Some? && f.step.value != 0.0 then f.step.value else 1.0
  }

  /** The − button: one step down, not below `min || 0`. */
  function StepDown(min: real, step: real, current: real): (r: real)
    ensures r >= min
    ensures current - step >= min ==> r == current - step
    ensures current - step < min ==> r == min
  {
    if current - step > min then current - step else min
  }

  /** The + button as written: one step up, not above `max || Infinity`, so a maximum of 0 is no bound. */
  function StepUp(max: real, step: real, current: real): (r: real)
    ensures max != 0.0 ==> r <= max
    ensures max != 0.0 && current + step <= max ==> r == current + step
    ensures max == 0.0 ==> r == current + step
  {
    Cap(max, current + step)
  }

  /** `Math.min(max || Infinity, sum)`. */
  function Cap(max: real, sum: real): (r: real)
    ensures max != 0.0 ==> r <= max && (sum <= max ==> r == sum)
    ensures max == 0.0 ==> r == sum
  {
    var bound := if max != 0.0 then Some(max) else None;
    if bound.Some? && bound.value < sum then bound.value else sum
  }

  /**
   * `(v || 0) + step` as the number `Math.min` reads from it; None stands for NaN.
   * A text, array or object operand is concatenated with the step's text first.
   */
  function PlusStep(v: Value, step: real, num: Value -> Option<real>, fmt: real -> string): Option<real>
  {
    if Truthy(v) && (v.Str? || IsObject(v)) then num(Str(ToJsString(v, fmt) + fmt(step)))
    else match CurrentNumber(v, num)
      case None => None
      case Some(x) => Some(x + step)
  }

  /** A stored text "5" stepped up by 1 becomes "51", which `Math.min` reads as 51. */
  lemma TextStepConcatenates(num: Value -> Option<real>, fmt: real -> string)
    requires fmt(1.0) == "1" && num(Str("51")) == Some(51.0)
    ensures PlusStep(Str("5"), 1.0, num, fmt) == Some(51.0)
  {
    assert Truthy(Str("5")) && ToJsString(Str("5"), fmt) == "5";
    assert "5" + "1" == "51";
  }

  /** The + button as intended: one step up, never above the maximum. */
  function StepUpCorrected(max: real, step: real, current: real): (r: real)
    ensures r <= max
    ensures current + step <= max ==> r == current + step
    ensures current + step > max ==> r == max
  {
    if max < current + step then max else current + step
  }

  /** On a field ranging from -5 to 0, the + button as written steps from 0 to 1, past the maximum. */
  lemma StepUpPastZeroMax()
    ensures StepUp(0.0, 1.0, 0.0) == 1.0 > 0.0
    ensures StepUpCorrected(0.0, 1.0, 0.0) == 0.0
  {
  }

  /** Inside the range, + then − is the identity, and so is − then +. */
  lemma StepRoundTrip(min: real, max: real, step: real, current: real)
    requires min <= current <= max && step > 0.0
    ensures current + step <= max ==> StepDown(min, step, StepUpCorrected(max, step, current)) == current
    ensures current - step >= min ==> StepUpCorrected(max, step, StepDown(min, step, current)) == current
  {
  }

  /** `values[key] || 0` as a number; None stands for NaN. */
  function CurrentNumber(v: Value, num: Value -> Option<real>): Option<real>
  {
    if Truthy(v) then num(v) else Some(0.0)
  }

  /** The form's state: values, errors and touched flags, and what a successful save handed on. */
  class Form {
    const fields: seq<FieldConfig>
    var values: Record
    var errors: map<string, string>
    var touched: map<string, bool>

    predicate Valid()
      reads this
    {
      WellFormed(values)
    }

    /** Mounting with the store: the initial values, every field untouched, no errors. */
    constructor (fields: seq<FieldConfig>, store: Store)
      ensures Valid()
      ensures this.fields == fields && values == InitialValues(fields, store)
      ensures touched == map k | k in FieldKeys(fields) :: false
      ensures errors == map[]
    {
      this.fields := fields;
      var initial := BuildInitialValues(fields, store);
      values := initial;
      touched := map k | k in FieldKeys(fields) :: false;
      errors := map[];
    }

    /** `handleChange(key, value)`: only that key's value and touched flag change. */
    method HandleChange(key: string, v: Value)
      requires Valid()
      modifies this
      ensures Valid()
      ensures values == Put(old(values), key, v)
      ensures Get(values, key) == v && forall j :: j != key ==> Get(values, j) == Get(old(values), j)
      ensures touched == old(touched)[key := true]
      ensures errors == old(errors)
    {
      values := Put(values, key, v);
      touched := touched[key := true];
    }

    /** The checkbox of a boolean field: the value becomes the negation of its truthiness. */
    method ToggleBoolean(i: nat)
      requires Valid() && i < |fields|
      modifies this
      ensures Valid()
      ensures Get(values, fields[i].storeKey) == Bool(!Truthy(Get(old(values), fields[i].storeKey)))
      ensures forall j :: j != fields[i].storeKey ==> Get(values, j) == Get(old(values), j)
      ensures touched == old(touched)[fields[i].storeKey := true] && errors == old(errors)
    {
      var k := fields[i].storeKey;
      HandleChange(k, Bool(!Truthy(Get(values, k))));
    }

    /**
     * Typing into a numeric field: an empty text stores '', a text the field's parser
     * (parseInt or parseFloat) reads as a number stores that number, any other text is
     * ignored.
     */
    method TypeNumber(i: nat, raw: string, parse: string -> Option<real>)
      requires Valid() && i < |fields| && IsNumeric(fields[i])
      modifies this
      ensures Valid()
      ensures raw == "" ==> values == Put(old(values), fields[i].storeKey, Str(""))
      ensures raw != "" && parse(raw).Some? ==> values == Put(old(values), fields[i].storeKey, Num(parse(raw).value))
      ensures raw != "" && parse(raw).None? ==> values == old(values) && touched == old(touched)
      ensures raw == "" || parse(raw).Some? ==> touched == old(touched)[fields[i].storeKey := true]
      ensures errors == old(errors)
    {
      if raw == "" {
        HandleChange(fields[i].storeKey, Str(""));
      } else if parse(raw).Some? {
        HandleChange(fields[i].storeKey, Num(parse(raw).value));
      }
    }

    /** The − stepper, shown when both bounds are set. */
    method StepperDown(i: nat, num: Value -> Option<real>)
      requires Valid() && i < |fields| && fields[i].min.Some? && fields[i].max.Some?
      requires CurrentNumber(Get(values, fields[i].storeKey), num).Some?
      modifies this
      ensures Valid()
      ensures var k := fields[i].storeKey;
        var r := StepDown(fields[i].min.value, StepOf(fields[i]), CurrentNumber(Get(old(values), k), num).value);
        values == Put(old(values), k, Num(r)) && r >= fields[i].min.value
      ensures touched == old(touched)[fields[i].storeKey := true] && errors == old(errors)
    {
      var k := fields[i].storeKey;
      var current := CurrentNumber(Get(values, k), num).value;
      HandleChange(k, Num(StepDown(fields[i].min.value, StepOf(fields[i]), current)));
    }

    /**
     * The + stepper as written, shown when both bounds are set. A number or a boolean
     * is stepped up arithmetically; a text is concatenated with the step first.
     */
    method StepperUp(i: nat, num: Value -> Option<real>, fmt: real -> string)
      requires Valid() && i < |fields| && fields[i].min.Some? && fields[i].max.Some?
      requires PlusStep(Get(values, fields[i].storeKey), StepOf(fields[i]), num, fmt).Some?
      modifies this
      ensures Valid()
      ensures var k := fields[i].storeKey;
        var r := Cap(fields[i].max.value, PlusStep(Get(old(values), k), StepOf(fields[i]), num, fmt).value);
        values == Put(old(values), k, Num(r)) && (fields[i].max.value != 0.0 ==> r <= fields[i].max.value)
      ensures var v := Get(old(values), fields[i].storeKey);
        !(Truthy(v) && (v.Str? || IsObject(v))) ==>
          Get(values, fields[i].storeKey) == Num(StepUp(fields[i].max.value, StepOf(fields[i]), CurrentNumber(v, num).value))
      ensures touched == old(touched)[fields[i].storeKey := true] && errors == old(errors)
    {
      var k := fields[i].storeKey;
      var sum := PlusStep(Get(values, k), StepOf(fields[i]), num, fmt).value;
      HandleChange(k, Num(Cap(fields[i].max.value, sum)));
    }

    /**
     * `handleSave`: every field becomes touched, the errors are collected, and the
     * values go to the store and on to the next trial only when there are none. A
     * check that throws leaves the errors as they were and saves nothing.
     */
    method HandleSave(num: Value -> Option<real>, fmt: real -> string) returns (saved: Option<Record>)
      requires Valid()
      modifies this
      ensures Valid()
      ensures values == old(values)
      ensures touched == map k | k in FieldKeys(fields) :: true
      ensures var r := SaveErrors(fields, values, num, fmt);
        && (r.Err? ==> errors == old(errors) && saved == None)
        && (r.Ok? ==> errors == r.value && (saved == if |r.value| == 0 then Some(values) else None))
    {
      touched := map k | k in FieldKeys(fields) :: true;
      var r := CollectErrors(fields, values, num, fmt);
      if r.Err? {
        return None;
      }
      errors := r.value;
      saved := if |r.value| == 0 then Some(values) else None;
    }

    /** The loop of `handleSave` over the fields; a throwing check ends it. */
    static method CollectErrors(fields: seq<FieldConfig>, values: Record, num: Value -> Option<real>,
                                fmt: real -> string) returns (r: Result<map<string, string>>)
      ensures r == SaveErrors(fields, values, num, fmt)
    {
      var newErrors: map<string, string> := map[];
      for i := 0 to |fields|
        invariant SaveErrors(fields[..i], values, num, fmt) == Ok(newErrors)
      {
        var step := CheckField(fields, i, values, newErrors, num, fmt);
        if step.Err? {
          assert fields[..|fields|][..i + 1] == fields[..i + 1];
          SaveErrorsFailed(fields, values, num, fmt, i + 1);
          assert fields[..|fields|] == fields;
          return step;
        }
        newErrors := step.value;
      }
      assert fields[..|fields|] == fields;
      return Ok(newErrors);
    }

    /** One field's turn in the loop of `handleSave`. */
    static method CheckField(fields: seq<FieldConfig>, i: nat, values: Record, errs: map<string, string>,
                             num: Value -> Option<real>, fmt: real -> string) returns (r: Result<map<string, string>>)
      requires i < |fields|
      ensures r == SaveStep(errs, fields[i], Get(values, fields[i].storeKey), num, fmt)
      ensures SaveErrors(fields[..i], values, num, fmt) == Ok(errs) ==> r == SaveErrors(fields[..i + 1], values, num, fmt)
    {
      assert fields[..i + 1][..i] == fields[..i];
      var f := fields[i];
      var v := Get(values, f.storeKey);
      var b := BuiltinError(f, v, num, fmt);
      if b.Err? {
        return Err(b.message);
      }
      var newErrors := errs;
      if b.value.Some? {
        newErrors := newErrors[f.storeKey := b.value.value];
      }
      if f.validate.Some? && (f.storeKey !in newErrors || newErrors[f.storeKey] == "") {
        var c := CustomError(f, v);
        if c.Some? {
          newErrors := newErrors[f.storeKey := c.value];
        }
      }
      return Ok(newErrors);
    }

    /** The initial-value loop of the mount effect. */
    static method BuildInitialValues(fields: seq<FieldConfig>, store: Store) returns (values: Record)
      ensures values == InitialValues(fields, store)
      ensures WellFormed(values)
    {
      values := [];
      for i := 0 to |fields|
        invariant values == InitialValues(fields[..i], store)
        invariant WellFormed(values)
      {
        assert fields[..i + 1][..i] == fields[..i];
        values := Put(values, fields[i].storeKey, InitialValue(fields[i], store));
      }
      assert fields[..|fields|] == fields;
    }
  }

  /** Once a prefix of the fields throws, the whole collection throws the same error. */
  lemma {:induction false} SaveErrorsFailed(fields: seq<FieldConfig>, values: Record,
                                            num: Value -> Option<real>, fmt: real -> string, n: nat)
    requires n <= |fields| && SaveErrors(fields[..n], values, num, fmt).Err?
    ensures SaveErrors(fields, values, num, fmt) == SaveErrors(fields[..n], values, num, fmt)
    decreases |fields| - n
  {
    if n < |fields| {
      assert fields[..n + 1][..n] == fields[..n];
      SaveErrorsFailed(fields, values, num, fmt, n + 1);
    } else {
      assert fields[..n] == fields;
    }
  }
}

/**
 * The settings screen that builds a link into the experiment: registered and custom
 * URL parameters, a trial subset to include or exclude, and either plain query
 * parameters or one base64 `_b` parameter holding a JSON object. The URL and
 * base64 encodings themselves are abstracted away; the model computes the
 * parameter list that is encoded.
 */
module Settings {
  import opened Wrappers
  import opened Strings
  import opened Json
  import opened Common

  /** A registered parameter; `defaultValue` is Undefined when none is registered. */
  datatype Param = Param(name: string, kind: string, defaultValue: Value)

  /** A parameter the experiment does not register, typed by the user or inferred. */
  datatype CustomParam = CustomParam(name: string, kind: string, value: Value)

  const IncludeSubset := "includeSubset"
  const ExcludeSubset := "excludeSubset"
  const Base64Key := "_b"

  /** A URL value is truthy when present and not empty. */
  predicate UrlHas(url: Query, name: string)
  {
    UrlGet(url, name).Some? && UrlGet(url, name).value != ""
  }

  // ---------------------------------------------------------------- trial selection

  /** The identifier of the trial at `index`: its 1-based position. */
  function TrialId(index: nat): string
  {
    NatToString(index + 1)
  }

  /** `s.filter(y => y !== x)`. */
  function Without(s: seq<string>, x: string): (r: seq<string>)
    ensures forall y :: y in r <==> y in s && y != x
    ensures x !in s ==> r == s
  {
    if |s| == 0 then []
    else (if s[0] == x then [] else [s[0]]) + Without(s[1..], x)
  }

  /** `toggleTrialSelection(index)`: the trial's id is removed when selected, appended otherwise. */
  function ToggleTrial(selected: seq<string>, index: nat): (r: seq<string>)
    ensures TrialId(index) in r <==> TrialId(index) !in selected
    ensures forall id :: id != TrialId(index) ==> (id in r <==> id in selected)
  {
    var id := TrialId(index);
    if id in selected then Without(selected, id) else selected + [id]
  }

  /** Toggling an unselected trial twice restores the selection, order included. */
  lemma ToggleTrialTwice(selected: seq<string>, index: nat)
    requires TrialId(index) !in selected
    ensures ToggleTrial(ToggleTrial(selected, index), index) == selected
  {
    WithoutAppended(selected, TrialId(index));
  }

  lemma {:induction false} WithoutAppended(s: seq<string>, x: string)
    requires x !in s
    ensures Without(s + [x], x) == s
  {
    if |s| > 0 {
      WithoutAppended(s[1..], x);
      assert (s + [x])[1..] == s[1..] + [x];
    }
  }

  /** Every trial of a timeline of length n: "1" to "n". */
  function AllIds(n: nat): (ids: seq<string>)
    ensures |ids| == n && forall i :: 0 <= i < n ==> ids[i] == TrialId(i)
  {
    seq(n, i requires 0 <= i < n => TrialId(i))
  }

  datatype Selection = Selection(exclude: bool, trials: seq<string>)

  /** A subset read from a URL value: "a,b" splits on commas. */
  function SplitIds(s: string): seq<string>
  {
    Split(s, ',')
  }

  /** The subset held by the plain parameters; exclusion wins. */
  function PlainSubset(url: Query): (r: Option<Selection>)
    ensures r.Some? <==> UrlHas(url, ExcludeSubset) || UrlHas(url, IncludeSubset)
    ensures r.Some? ==> (r.value.exclude <==> UrlHas(url, ExcludeSubset))
  {
    if UrlHas(url, ExcludeSubset) then Some(Selection(true, SplitIds(UrlGet(url, ExcludeSubset).value)))
    else if UrlHas(url, IncludeSubset) then Some(Selection(false, SplitIds(UrlGet(url, IncludeSubset).value)))
    else None
  }

  /**
   * The subset read on mounting, None when none was assigned. `decoded` is
   * `JSON.parse(atob(_b))`: None when `_b` is absent or empty or does not decode, which
   * falls back to the plain parameters. A null object, or a truthy subset entry that is
   * not a string, throws and falls back too; an exclude entry sets exclusion before it
   * throws, which stays when no plain parameter replaces it. A decoded object without a
   * subset entry assigns none, whatever the plain parameters hold.
   */
  function UrlSubset(url: Query, decoded: Option<Value>): (s: Option<Selection>)
    ensures decoded.None? ==> s == PlainSubset(url)
    ensures (decoded.Some? && decoded.value.Obj? && !Truthy(Get(decoded.value.fields, ExcludeSubset))
             && !Truthy(Get(decoded.value.fields, IncludeSubset))) ==> s.None?
    ensures (s.Some? && s.value.exclude && decoded.Some? && decoded.value.Obj? && PlainSubset(url).None?
             && !Get(decoded.value.fields, ExcludeSubset).Str?) ==> s.value.trials == []
  {
    if decoded.None? || Nullish(decoded.value) then PlainSubset(url)
    else
      var d := decoded.value;
      var ex := if d.Obj? then Get(d.fields, ExcludeSubset) else Undefined;
      var inc := if d.Obj? then Get(d.fields, IncludeSubset) else Undefined;
      if Truthy(ex) then
        if ex.Str? then Some(Selection(true, SplitIds(ex.s)))
        else if PlainSubset(url).Some? then PlainSubset(url)
        else Some(Selection(true, []))
      else if Truthy(inc) then
        if inc.Str? then Some(Selection(false, SplitIds(inc.s))) else PlainSubset(url)
      else None
  }

  /** A readable `_b` subset wins over the plain parameters. */
  lemma DecodedSubsetWins(url: Query, fields: Record)
    requires Get(fields, ExcludeSubset).Str? && Get(fields, ExcludeSubset).s != ""
    ensures UrlSubset(url, Some(Obj(fields))) == Some(Selection(true, SplitIds(Get(fields, ExcludeSubset).s)))
  {
  }

  /**
   * The selection on mounting as written: the parsed subset is used only when a plain
   * subset parameter is present; otherwise a non-empty timeline starts with every trial
   * included, or with nothing excluded when exclusion was parsed.
   */
  function InitialSelection(url: Query, decoded: Option<Value>, n: nat): (s: Selection)
    ensures s.exclude <==> UrlSubset(url, decoded).Some? && UrlSubset(url, decoded).value.exclude
    ensures UrlHas(url, ExcludeSubset) || UrlHas(url, IncludeSubset) ==>
      s.trials == if UrlSubset(url, decoded).Some? then UrlSubset(url, decoded).value.trials else []
  {
    var p := UrlSubset(url, decoded);
    var exclude := p.Some? && p.value.exclude;
    if UrlHas(url, ExcludeSubset) || UrlHas(url, IncludeSubset) then
      Selection(exclude, if p.Some? then p.value.trials else [])
    else if n > 0 then Selection(exclude, if exclude then [] else AllIds(n))
    else Selection(exclude, [])
  }

  /** Without any subset in the URL, a timeline starts with every trial included. */
  lemma InitialSelectsAll(url: Query, decoded: Option<Value>, n: nat)
    requires UrlSubset(url, decoded).None?
    ensures InitialSelection(url, decoded, n).exclude == false
    ensures !UrlHas(url, ExcludeSubset) && !UrlHas(url, IncludeSubset) ==>
      InitialSelection(url, decoded, n).trials == AllIds(n)
  {
  }

  /** Plain subset parameters alone are taken as the URL gives them. */
  lemma InitialSelectionPlain(url: Query, n: nat)
    requires UrlHas(url, ExcludeSubset) || UrlHas(url, IncludeSubset)
    ensures InitialSelection(url, None, n) == PlainSubset(url).value
  {
  }

  /**
   * A subset that only the `_b` object carries is read and then dropped: with
   * `{"includeSubset": "1,3"}` and three trials the screen selects all three.
   */
  lemma DecodedSubsetDropped()
    ensures var d := Obj([Field(IncludeSubset, Str("1,3"))]);
      && UrlSubset([], Some(d)) == Some(Selection(false, ["1", "3"]))
      && InitialSelection([], Some(d), 3) == Selection(false, ["1", "2", "3"])
  {
    var d := Obj([Field(IncludeSubset, Str("1,3"))]);
    assert Get(d.fields, ExcludeSubset) == Undefined;
    assert Get(d.fields, IncludeSubset) == Str("1,3");
    assert Join(["1", "3"], [',']) == "1,3";
    SplitJoin(["1", "3"], ',');
    assert AllIds(3) == ["1", "2", "3"];
  }

  /** The selection on mounting as intended: a subset from either source is kept. */
  function InitialSelectionCorrected(url: Query, decoded: Option<Value>, n: nat): (s: Selection)
    ensures UrlSubset(url, decoded).Some? ==> s == UrlSubset(url, decoded).value
    ensures UrlSubset(url, decoded).None? ==> s == Selection(false, AllIds(n))
  {
    var p := UrlSubset(url, decoded);
    if p.Some? then p.value else Selection(false, AllIds(n))
  }

  /**
   * The corrected selection differs from the one as written only where a subset was
   * read without a plain subset parameter, or a plain one was present but not read.
   */
  lemma InitialSelectionAgrees(url: Query, decoded: Option<Value>, n: nat)
    requires UrlSubset(url, decoded).Some? <==> UrlHas(url, ExcludeSubset) || UrlHas(url, IncludeSubset)
    ensures InitialSelectionCorrected(url, decoded, n) == InitialSelection(url, decoded, n)
  {
  }

  // ---------------------------------------------------------------- initial parameter values

  /**
   * The inferred type of a custom URL value: 'true' and 'false' are booleans, what
   * `Number` reads is a number, what `JSON.parse` reads is an array or a JSON value,
   * anything else a string. `num` is `Number` (None for NaN), `parse` is `JSON.parse`
   * (None when it throws).
   */
  function InferType(value: string, num: Value -> Option<real>, parse: string -> Option<Value>): (t: string)
    ensures t == "boolean" <==> value == "true" || value == "false"
    ensures t == "number" <==> value != "true" && value != "false" && num(Str(value)).Some?
    ensures t == "array" <==>
      value != "true" && value != "false" && num(Str(value)).None? && parse(value).Some? && parse(value).value.Arr?
    ensures t == "json" <==>
      value != "true" && value != "false" && num(Str(value)).None? && parse(value).Some? && !parse(value).value.Arr?
    ensures t == "string" <==> value != "true" && value != "false" && num(Str(value)).None? && parse(value).None?
    ensures t in {"boolean", "number", "array", "json", "string"}
  {
    if value == "true" || value == "false" then "boolean"
    else if num(Str(value)).Some? then "number"
    else if parse(value).Some? then (if parse(value).value.Arr? then "array" else "json")
    else "string"
  }

  function RegisteredNames(registry: seq<Param>): (names: seq<string>)
    ensures |names| == |registry| && forall i :: 0 <= i < |registry| ==> names[i] == registry[i].name
  {
    seq(|registry|, i requires 0 <= i < |registry| => registry[i].name)
  }

  /** `String(defaultValue)` for a boolean parameter with a default, which is written out. */
  predicate HasBooleanDefault(p: Param)
  {
    p.kind == "boolean" && p.defaultValue != Undefined
  }

  /** Registered values from plain parameters: the URL's value, else a boolean's default. */
  function RegularValues(registry: seq<Param>, url: Query, fmt: real -> string): (r: Record)
    ensures WellFormed(r)
    ensures forall k :: Get(r, k).Str? || Get(r, k) == Undefined
  {
    if |registry| == 0 then []
    else
      var n := |registry| - 1;
      var p := registry[n];
      var prev := RegularValues(registry[..n], url, fmt);
      var v := UrlGet(url, p.name);
      if v.Some? then Put(prev, p.name, Str(v.value))
      else if HasBooleanDefault(p) then Put(prev, p.name, Str(ToJsString(p.defaultValue, fmt)))
      else prev
  }

  /** Custom parameters from plain parameters: every unregistered name but `_b`, in URL order. */
  function RegularCustoms(registry: seq<Param>, url: Query, num: Value -> Option<real>,
                          parse: string -> Option<Value>): (cs: seq<CustomParam>)
    ensures |cs| <= |url|
    ensures forall i :: 0 <= i < |cs| ==>
      && cs[i].name !in RegisteredNames(registry) && cs[i].name != Base64Key
      && cs[i].value.Str? && cs[i].kind == InferType(cs[i].value.s, num, parse)
  {
    if |url| == 0 then []
    else
      var n := |url| - 1;
      var prev := RegularCustoms(registry, url[..n], num, parse);
      var (key, value) := url[n];
      if key !in RegisteredNames(registry) && key != Base64Key then
        prev + [CustomParam(key, InferType(value, num, parse), Str(value))]
      else prev
  }

  /** A name that becomes a custom parameter: unregistered, and not `_b`. */
  predicate IsCustomName(registry: seq<Param>, key: string)
  {
    key !in RegisteredNames(registry) && key != Base64Key
  }

  /** Every unregistered URL entry other than `_b` becomes a custom parameter with its inferred type. */
  lemma {:induction false} RegularCustomsComplete(registry: seq<Param>, url: Query, num: Value -> Option<real>,
                                                  parse: string -> Option<Value>, i: nat)
    requires i < |url| && IsCustomName(registry, url[i].0)
    ensures CustomParam(url[i].0, InferType(url[i].1, num, parse), Str(url[i].1)) in RegularCustoms(registry, url, num, parse)
  {
    var n := |url| - 1;
    if i < n {
      assert url[..n][i] == url[i];
      RegularCustomsComplete(registry, url[..n], num, parse, i);
    }
  }

  /** Every custom parameter comes from an unregistered URL entry other than `_b`. */
  lemma {:induction false} RegularCustomsFrom(registry: seq<Param>, url: Query, num: Value -> Option<real>,
                                              parse: string -> Option<Value>, c: CustomParam)
    requires c in RegularCustoms(registry, url, num, parse)
    ensures exists i :: (0 <= i < |url| && IsCustomName(registry, url[i].0)
                         && c == CustomParam(url[i].0, InferType(url[i].1, num, parse), Str(url[i].1)))
  {
    var n := |url| - 1;
    if c in RegularCustoms(registry, url[..n], num, parse) {
      RegularCustomsFrom(registry, url[..n], num, parse, c);
      var i :| 0 <= i < n && IsCustomName(registry, url[..n][i].0)
        && c == CustomParam(url[..n][i].0, InferType(url[..n][i].1, num, parse), Str(url[..n][i].1));
      assert url[..n][i] == url[i];
    }
  }

  /** Custom parameters keep URL order: those of earlier entries come first. */
  lemma {:induction false} RegularCustomsAppend(registry: seq<Param>, a: Query, b: Query, num: Value -> Option<real>,
                                                parse: string -> Option<Value>)
    ensures RegularCustoms(registry, a + b, num, parse)
      == RegularCustoms(registry, a, num, parse) + RegularCustoms(registry, b, num, parse)
  {
    if |b| == 0 {
      assert a + b == a;
    } else {
      var m := |b| - 1;
      assert (a + b)[..|a + b| - 1] == a + b[..m] && (a + b)[|a + b| - 1] == b[m];
      RegularCustomsAppend(registry, a, b[..m], num, parse);
    }
  }

  /** A registered parameter starts from its URL value, else from its boolean default. */
  lemma {:induction false} RegularValuesGet(registry: seq<Param>, url: Query, fmt: real -> string, i: nat)
    requires i < |registry|
    requires forall j :: i < j < |registry| ==> registry[j].name != registry[i].name
    ensures var p := registry[i];
      var r := RegularValues(registry, url, fmt);
      && (UrlGet(url, p.name).Some? ==> Get(r, p.name) == Str(UrlGet(url, p.name).value))
      && (UrlGet(url, p.name).None? && HasBooleanDefault(p) ==> Get(r, p.name) == Str(ToJsString(p.defaultValue, fmt)))
  {
    var n := |registry| - 1;
    var prev := RegularValues(registry[..n], url, fmt);
    if i < n {
      assert registry[..n][i] == registry[i];
      RegularValuesGet(registry[..n], url, fmt, i);
      assert registry[n].name != registry[i].name;
      assert Get(RegularValues(registry, url, fmt), registry[i].name) == Get(prev, registry[i].name);
    }
  }

  /**
   * A name has a registered value exactly when a parameter of that name has a URL
   * value or a boolean default; any other parameter gets no value.
   */
  lemma {:induction false} RegularValuesHasKey(registry: seq<Param>, url: Query, fmt: real -> string, name: string)
    ensures HasKey(RegularValues(registry, url, fmt), name) <==> ValuedAt(registry, url, name)
  {
    if |registry| > 0 {
      var n := |registry| - 1;
      var p := registry[n];
      var prev := RegularValues(registry[..n], url, fmt);
      RegularValuesHasKey(registry[..n], url, fmt, name);
      assert HasKey(RegularValues(registry, url, fmt), name) <==>
        HasKey(prev, name) || (p.name == name && (UrlGet(url, name).Some? || HasBooleanDefault(p))) by {
        var v := UrlGet(url, p.name);
        if v.Some? {
          PutHasKey(prev, p.name, Str(v.value), name);
        } else if HasBooleanDefault(p) {
          PutHasKey(prev, p.name, Str(ToJsString(p.defaultValue, fmt)), name);
        }
      }
      ValuedAtSnoc(registry, url, name);
    }
  }

  /** Some parameter named `name` has a URL value or a boolean default. */
  predicate ValuedAt(registry: seq<Param>, url: Query, name: string)
  {
    exists j :: 0 <= j < |registry| && registry[j].name == name && (UrlGet(url, name).Some? || HasBooleanDefault(registry[j]))
  }

  lemma ValuedAtSnoc(registry: seq<Param>, url: Query, name: string)
    requires |registry| > 0
    ensures var n := |registry| - 1;
      ValuedAt(registry, url, name) <==> (ValuedAt(registry[..n], url, name)
                                          || (registry[n].name == name && (UrlGet(url, name).Some? || HasBooleanDefault(registry[n]))))
  {
    var n := |registry| - 1;
    if ValuedAt(registry, url, name) {
      var j :| 0 <= j < |registry| && registry[j].name == name && (UrlGet(url, name).Some? || HasBooleanDefault(registry[j]));
      if j < n {
        assert registry[..n][j] == registry[j];
      }
    }
    if ValuedAt(registry[..n], url, name) {
      var j :| 0 <= j < n && registry[..n][j].name == name && (UrlGet(url, name).Some? || HasBooleanDefault(registry[..n][j]));
      assert registry[j] == registry[..n][j];
    }
  }

  /** `typeof` of a decoded value, as the screen names it. */
  function DecodedType(v: Value): string
  {
    match v
    case Bool(_) => "boolean"
    case Num(_) => "number"
    case Arr(_) => "array"
    case Obj(_) => "json"
    case Null => "json"
    case _ => "string"
  }

  /** A decoded value as text: objects (and null) through `JSON.stringify`, the rest through `String`. */
  function DecodedText(v: Value, stringify: Value -> string, fmt: real -> string): string
  {
    if IsObject(v) || v.Null? then stringify(v) else ToJsString(v, fmt)
  }

  /** The entries of the decoded `_b` object: registered ones as values, the others as custom parameters. */
  function DecodedEntries(registry: seq<Param>, entries: Record, stringify: Value -> string, fmt: real -> string)
    : (r: (Record, seq<CustomParam>))
    ensures forall i :: 0 <= i < |r.1| ==> r.1[i].name !in RegisteredNames(registry) && r.1[i].name != Base64Key
  {
    if |entries| == 0 then ([], [])
    else
      var n := |entries| - 1;
      var prev := DecodedEntries(registry, entries[..n], stringify, fmt);
      var e := entries[n];
      if e.key in RegisteredNames(registry) then
        (Put(prev.0, e.key, Str(ToJsString(e.val, fmt))), prev.1)
      else if e.key != Base64Key then
        (prev.0, prev.1 + [CustomParam(e.key, DecodedType(e.val), Str(DecodedText(e.val, stringify, fmt)))])
      else prev
  }

  /** Every unregistered key of the `_b` object other than `_b` becomes a custom parameter with its type and text. */
  lemma {:induction false} DecodedCustomsComplete(registry: seq<Param>, entries: Record, stringify: Value -> string,
                                                  fmt: real -> string, i: nat)
    requires i < |entries| && IsCustomName(registry, entries[i].key)
    ensures CustomParam(entries[i].key, DecodedType(entries[i].val), Str(DecodedText(entries[i].val, stringify, fmt)))
      in DecodedEntries(registry, entries, stringify, fmt).1
  {
    var n := |entries| - 1;
    if i < n {
      assert entries[..n][i] == entries[i];
      DecodedCustomsComplete(registry, entries[..n], stringify, fmt, i);
    }
  }

  /** Every custom parameter comes from an unregistered key of the `_b` object other than `_b`. */
  lemma {:induction false} DecodedCustomsFrom(registry: seq<Param>, entries: Record, stringify: Value -> string,
                                              fmt: real -> string, c: CustomParam)
    requires c in DecodedEntries(registry, entries, stringify, fmt).1
    ensures exists i :: (0 <= i < |entries| && IsCustomName(registry, entries[i].key)
                         && c == CustomParam(entries[i].key, DecodedType(entries[i].val),
                                             Str(DecodedText(entries[i].val, stringify, fmt))))
  {
    var n := |entries| - 1;
    if c in DecodedEntries(registry, entries[..n], stringify, fmt).1 {
      DecodedCustomsFrom(registry, entries[..n], stringify, fmt, c);
      var i :| 0 <= i < n && IsCustomName(registry, entries[..n][i].key)
        && c == CustomParam(entries[..n][i].key, DecodedType(entries[..n][i].val),
                            Str(DecodedText(entries[..n][i].val, stringify, fmt)));
      assert entries[..n][i] == entries[i];
    }
  }

  /** A name gets a value from the `_b` object exactly when it is registered and the object has it. */
  lemma {:induction false} DecodedValuesHasKey(registry: seq<Param>, entries: Record, stringify: Value -> string,
                                               fmt: real -> string, k: string)
    ensures HasKey(DecodedEntries(registry, entries, stringify, fmt).0, k) <==> k in RegisteredNames(registry) && HasKey(entries, k)
  {
    if |entries| > 0 {
      var n := |entries| - 1;
      var prev := DecodedEntries(registry, entries[..n], stringify, fmt);
      DecodedValuesHasKey(registry, entries[..n], stringify, fmt, k);
      var e := entries[n];
      assert HasKey(DecodedEntries(registry, entries, stringify, fmt).0, k) <==>
        HasKey(prev.0, k) || (e.key == k && k in RegisteredNames(registry)) by {
        if e.key in RegisteredNames(registry) {
          PutHasKey(prev.0, e.key, Str(ToJsString(e.val, fmt)), k);
        }
      }
      KeysPrefix(entries, k);
    }
  }

  /** A registered key of the `_b` object takes `String(value)` of its last binding. */
  lemma {:induction false} DecodedValuesGet(registry: seq<Param>, entries: Record, stringify: Value -> string,
                                            fmt: real -> string, i: nat)
    requires i < |entries| && entries[i].key in RegisteredNames(registry)
    requires forall j :: i < j < |entries| ==> entries[j].key != entries[i].key
    ensures Get(DecodedEntries(registry, entries, stringify, fmt).0, entries[i].key) == Str(ToJsString(entries[i].val, fmt))
  {
    var n := |entries| - 1;
    var prev := DecodedEntries(registry, entries[..n], stringify, fmt).0;
    var e := entries[n];
    var k := entries[i].key;
    var v := Str(ToJsString(entries[i].val, fmt));
    if i < n {
      assert Get(prev, k) == v by {
        assert entries[..n][i] == entries[i];
        assert forall j :: i < j < n ==> entries[..n][j].key != k by {
          forall j | i < j < n
            ensures entries[..n][j].key != k
          {
            assert entries[..n][j] == entries[j];
          }
        }
        DecodedValuesGet(registry, entries[..n], stringify, fmt, i);
      }
      assert e.key != k;
      if e.key in RegisteredNames(registry) {
        assert DecodedEntries(registry, entries, stringify, fmt).0 == Put(prev, e.key, Str(ToJsString(e.val, fmt)));
      } else {
        assert DecodedEntries(registry, entries, stringify, fmt).0 == prev;
      }
    } else {
      assert e == entries[i] && e.key in RegisteredNames(registry);
      assert DecodedEntries(registry, entries, stringify, fmt).0 == Put(prev, k, v);
    }
  }

  /** Registered parameters missing from the `_b` object: a boolean's default, else ''. */
  function DecodedDefaults(registry: seq<Param>, values: Record, fmt: real -> string): (r: Record)
    ensures WellFormed(values) ==> WellFormed(r)
  {
    if |registry| == 0 then values
    else
      var n := |registry| - 1;
      var prev := DecodedDefaults(registry[..n], values, fmt);
      var p := registry[n];
      if HasKey(prev, p.name) then prev else Put(prev, p.name, DefaultText(p, fmt))
  }

  /** The value a registered parameter missing from the `_b` object starts with. */
  function DefaultText(p: Param, fmt: real -> string): Value
  {
    Str(if HasBooleanDefault(p) then ToJsString(p.defaultValue, fmt) else "")
  }

  /** After the defaults every registered parameter has a value, and nothing else was added. */
  lemma {:induction false} DecodedDefaultsKeys(registry: seq<Param>, values: Record, fmt: real -> string, k: string)
    ensures HasKey(DecodedDefaults(registry, values, fmt), k) <==> HasKey(values, k) || k in RegisteredNames(registry)
  {
    if |registry| > 0 {
      var n := |registry| - 1;
      DecodedDefaultsKeys(registry[..n], values, fmt, k);
      RegisteredNamesSnoc(registry);
    }
  }

  /** The names of a registry are those of all but its last parameter, then the last one's. */
  lemma RegisteredNamesSnoc(registry: seq<Param>)
    requires |registry| > 0
    ensures var n := |registry| - 1;
      RegisteredNames(registry) == RegisteredNames(registry[..n]) + [registry[n].name]
  {
    var n := |registry| - 1;
    var whole, joined := RegisteredNames(registry), RegisteredNames(registry[..n]) + [registry[n].name];
    assert forall i :: 0 <= i < n ==> joined[i] == registry[..n][i].name;
    assert forall i :: 0 <= i < |whole| ==> whole[i] == joined[i];
  }

  /** A value the `_b` object gave is kept. */
  lemma {:induction false} DecodedDefaultsKeeps(registry: seq<Param>, values: Record, fmt: real -> string, k: string)
    requires HasKey(values, k)
    ensures Get(DecodedDefaults(registry, values, fmt), k) == Get(values, k)
  {
    if |registry| > 0 {
      var n := |registry| - 1;
      DecodedDefaultsKeeps(registry[..n], values, fmt, k);
      DecodedDefaultsKeys(registry[..n], values, fmt, k);
    }
  }

  /** A registered parameter missing from the `_b` object gets its boolean default's text, else ''. */
  lemma {:induction false} DecodedDefaultsGet(registry: seq<Param>, values: Record, fmt: real -> string, i: nat)
    requires i < |registry| && !HasKey(values, registry[i].name)
    requires forall j :: 0 <= j < i ==> registry[j].name != registry[i].name
    ensures Get(DecodedDefaults(registry, values, fmt), registry[i].name) == DefaultText(registry[i], fmt)
  {
    var n := |registry| - 1;
    var k := registry[i].name;
    var prev := DecodedDefaults(registry[..n], values, fmt);
    DecodedDefaultsKeys(registry[..n], values, fmt, k);
    if i < n {
      assert registry[..n][i] == registry[i];
      DecodedDefaultsGet(registry[..n], values, fmt, i);
      assert HasKey(prev, k) by {
        assert RegisteredNames(registry[..n])[i] == k;
      }
      var p := registry[n];
      assert DecodedDefaults(registry, values, fmt) == if HasKey(prev, p.name) then prev else Put(prev, p.name, DefaultText(p, fmt));
      if !HasKey(prev, p.name) {
        assert p.name != k;
        assert Get(Put(prev, p.name, DefaultText(p, fmt)), k) == Get(prev, k);
      }
    } else {
      assert i == n && registry[n] == registry[i];
      DecodedDefaultsGetLast(registry, values, fmt);
    }
  }

  lemma DecodedDefaultsGetLast(registry: seq<Param>, values: Record, fmt: real -> string)
    requires |registry| > 0 && !HasKey(values, registry[|registry| - 1].name)
    requires forall j :: 0 <= j < |registry| - 1 ==> registry[j].name != registry[|registry| - 1].name
    ensures Get(DecodedDefaults(registry, values, fmt), registry[|registry| - 1].name) == DefaultText(registry[|registry| - 1], fmt)
  {
    var n := |registry| - 1;
    var k := registry[n].name;
    DecodedDefaultsKeys(registry[..n], values, fmt, k);
    assert forall j :: 0 <= j < n ==> RegisteredNames(registry[..n])[j] == registry[j].name;
    assert !HasKey(DecodedDefaults(registry[..n], values, fmt), k);
  }

  // ---------------------------------------------------------------- the generated link

  /** The parameters with the subset entries set or deleted as the selection asks. */
  function SubsetParams(values: Record, selected: seq<string>, exclude: bool, n: nat): (r: Record)
    ensures forall k :: k != IncludeSubset && k != ExcludeSubset ==> Get(r, k) == Get(values, k)
    ensures WellFormed(values) ==> WellFormed(r)
  {
    if |selected| > 0 then
      if exclude then Remove(Put(values, ExcludeSubset, Str(Join(Sort(selected), ","))), IncludeSubset)
      else if |selected| != n then Remove(Put(values, IncludeSubset, Str(Join(Sort(selected), ","))), ExcludeSubset)
      else values
    else Remove(Remove(values, IncludeSubset), ExcludeSubset)
  }

  /** A custom parameter overrides when it has a name, a value, and is not a subset entry. */
  predicate Emittable(c: CustomParam)
  {
    c.name != "" && c.value != Str("") && c.name != IncludeSubset && c.name != ExcludeSubset
  }

  function WithCustoms(all: Record, customs: seq<CustomParam>): (r: Record)
    ensures WellFormed(all) ==> WellFormed(r)
  {
    if |customs| == 0 then all
    else
      var n := |customs| - 1;
      var prev := WithCustoms(all, customs[..n]);
      if Emittable(customs[n]) then Put(prev, customs[n].name, customs[n].value) else prev
  }

  /** `allParams`: the parameter values, the subset entries, then the custom parameters. */
  function AllParams(values: Record, selected: seq<string>, exclude: bool, n: nat, customs: seq<CustomParam>): Record
  {
    WithCustoms(SubsetParams(values, selected, exclude, n), customs)
  }

  /** Custom parameters never touch the subset entries. */
  lemma {:induction false} WithCustomsKeepsSubset(all: Record, customs: seq<CustomParam>, k: string)
    requires k == IncludeSubset || k == ExcludeSubset
    ensures Get(WithCustoms(all, customs), k) == Get(all, k)
    ensures HasKey(WithCustoms(all, customs), k) <==> HasKey(all, k)
  {
    if |customs| > 0 {
      var n := |customs| - 1;
      WithCustomsKeepsSubset(all, customs[..n], k);
    }
  }

  /** Some custom parameter with a name and a value, not a subset entry, is named k. */
  predicate Overrides(customs: seq<CustomParam>, k: string)
  {
    exists i :: 0 <= i < |customs| && Emittable(customs[i]) && customs[i].name == k
  }

  lemma OverridesSnoc(customs: seq<CustomParam>, k: string)
    requires |customs| > 0
    ensures var n := |customs| - 1;
      Overrides(customs, k) <==> Overrides(customs[..n], k) || (Emittable(customs[n]) && customs[n].name == k)
  {
    var n := |customs| - 1;
    if Overrides(customs, k) {
      var i :| 0 <= i < |customs| && Emittable(customs[i]) && customs[i].name == k;
      if i < n {
        assert customs[..n][i] == customs[i];
      }
    }
    if Overrides(customs[..n], k) {
      var i :| 0 <= i < n && Emittable(customs[..n][i]) && customs[..n][i].name == k;
      assert customs[i] == customs[..n][i];
    }
  }

  /** The link holds the parameter values' keys and the name of every emittable custom parameter. */
  lemma {:induction false} WithCustomsHasKey(all: Record, customs: seq<CustomParam>, k: string)
    ensures HasKey(WithCustoms(all, customs), k) <==> HasKey(all, k) || Overrides(customs, k)
  {
    if |customs| > 0 {
      var n := |customs| - 1;
      var c := customs[n];
      var prev := WithCustoms(all, customs[..n]);
      assert HasKey(WithCustoms(all, customs), k) <==> HasKey(prev, k) || (Emittable(c) && c.name == k) by {
        if Emittable(c) {
          PutHasKey(prev, c.name, c.value, k);
        }
      }
      WithCustomsHasKey(all, customs[..n], k);
      OverridesSnoc(customs, k);
    }
  }

  /** The last custom parameter with a name that may be emitted gives that name's value. */
  lemma {:induction false} WithCustomsGet(all: Record, customs: seq<CustomParam>, i: nat)
    requires i < |customs| && Emittable(customs[i])
    requires forall j :: i < j < |customs| && Emittable(customs[j]) ==> customs[j].name != customs[i].name
    ensures Get(WithCustoms(all, customs), customs[i].name) == customs[i].value
  {
    var n := |customs| - 1;
    var k, c := customs[i].name, customs[n];
    var prev := WithCustoms(all, customs[..n]);
    assert WithCustoms(all, customs) == if Emittable(c) then Put(prev, c.name, c.value) else prev;
    if i < n {
      assert customs[..n][i] == customs[i];
      WithCustomsGet(all, customs[..n], i);
      if Emittable(c) {
        assert c.name != k;
        assert Get(Put(prev, c.name, c.value), k) == Get(prev, k);
      }
    } else {
      assert i == n;
    }
  }

  /**
   * The subset entries of the link: excluded trials as a sorted comma list without an
   * include entry; included trials only when not all of them are, then without an
   * exclude entry; neither when nothing is selected. When every trial is included the
   * entries are those of the parameter values.
   */
  lemma SubsetEntries(values: Record, selected: seq<string>, exclude: bool, n: nat, customs: seq<CustomParam>)
    ensures var all := AllParams(values, selected, exclude, n, customs);
      && (|selected| > 0 && exclude ==>
            Get(all, ExcludeSubset) == Str(Join(Sort(selected), ",")) && !HasKey(all, IncludeSubset))
      && (|selected| > 0 && !exclude && |selected| != n ==>
            Get(all, IncludeSubset) == Str(Join(Sort(selected), ",")) && !HasKey(all, ExcludeSubset))
      && (|selected| > 0 && !exclude && |selected| == n ==>
            Get(all, IncludeSubset) == Get(values, IncludeSubset) && Get(all, ExcludeSubset) == Get(values, ExcludeSubset))
      && (|selected| == 0 ==> !HasKey(all, IncludeSubset) && !HasKey(all, ExcludeSubset))
  {
    var sub := SubsetParams(values, selected, exclude, n);
    WithCustomsKeepsSubset(sub, customs, IncludeSubset);
    WithCustomsKeepsSubset(sub, customs, ExcludeSubset);
  }

  /** `Array.prototype.find` by name: the first element whose name is `key`. */
  function Find<T(==)>(s: seq<T>, nameOf: T -> string, key: string): (r: Option<T>)
    ensures r.None? <==> forall i :: 0 <= i < |s| ==> nameOf(s[i]) != key
    ensures r.Some? ==> exists i :: 0 <= i < |s| && s[i] == r.value && nameOf(s[i]) == key
                                    && forall j :: 0 <= j < i ==> nameOf(s[j]) != key
  {
    if |s| == 0 then None
    else if nameOf(s[0]) == key then Some(s[0])
    else
      var r := Find(s[1..], nameOf, key);
      assert forall i :: 1 <= i < |s| ==> s[i] == s[1..][i - 1];
      assert r.Some? ==> exists i :: 0 <= i < |s| && s[i] == r.value && nameOf(s[i]) == key
                                     && forall j :: 0 <= j < i ==> nameOf(s[j]) != key by {
        if r.Some? {
          var i :| 0 <= i < |s[1..]| && s[1..][i] == r.value && nameOf(s[1..][i]) == key
                   && forall j :: 0 <= j < i ==> nameOf(s[1..][j]) != key;
          assert s[i + 1] == r.value;
        }
      }
      r
  }

  function ParamName(p: Param): string { p.name }

  function CustomName(c: CustomParam): string { c.name }

  /** A boolean-typed registered parameter whose value is its default's text. */
  predicate IsDefault(p: Option<Param>, kind: string, value: Value, fmt: real -> string)
  {
    kind == "boolean" && p.Some? && p.value.defaultValue != Undefined &&
    Str(ToJsString(p.value.defaultValue, fmt)) == value
  }

  /** Plain mode leaves out empty values and registered booleans at their default. */
  predicate SkippedPlain(registry: seq<Param>, key: string, value: Value, fmt: real -> string)
  {
    var p := Find(registry, ParamName, key);
    value == Str("") || IsDefault(p, if p.Some? then p.value.kind else "", value, fmt)
  }

  /**
   * The entries of `all` that `skip` does not reject, in order, each value passed
   * through `conv`: the loop both kinds of link share.
   */
  function Emit(all: Record, skip: (string, Value) -> bool, conv: (string, Value) -> Value): (r: Record)
    ensures WellFormed(r)
  {
    if |all| == 0 then []
    else
      var n := |all| - 1;
      var prev := Emit(all[..n], skip, conv);
      if skip(all[n].key, all[n].val) then prev
      else Put(prev, all[n].key, conv(all[n].key, all[n].val))
  }

  /** Plain query parameters: `searchParams.set(key, String(value))` for each entry kept. */
  function PlainParams(all: Record, registry: seq<Param>, fmt: real -> string): (r: Record)
    ensures WellFormed(r)
  {
    Emit(all, (key: string, v: Value) => SkippedPlain(registry, key, v, fmt),
         (key: string, v: Value) => Str(ToJsString(v, fmt)))
  }

  /** The type used for the `_b` object: registered, else custom, else string. */
  function ParamType(registry: seq<Param>, customs: seq<CustomParam>, key: string): (t: string)
    ensures t != ""
    ensures Find(registry, ParamName, key).Some? && Find(registry, ParamName, key).value.kind != "" ==> t == Find(registry, ParamName, key).value.kind
    ensures t == "string" || (Find(registry, ParamName, key).Some? && t == Find(registry, ParamName, key).value.kind)
            || (Find(customs, CustomName, key).Some? && t == Find(customs, CustomName, key).value.kind)
  {
    var p := Find(registry, ParamName, key);
    var c := Find(customs, CustomName, key);
    if p.Some? && p.value.kind != "" then p.value.kind
    else if c.Some? && c.value.kind != "" then c.value.kind
    else "string"
  }

  predicate SkippedEncoded(registry: seq<Param>, customs: seq<CustomParam>, key: string, value: Value,
                           fmt: real -> string)
  {
    value == Str("") || IsDefault(Find(registry, ParamName, key), ParamType(registry, customs, key), value, fmt)
  }

  /**
   * A value converted for the `_b` object: numbers through `Number` (NaN, which the
   * JSON text writes as null, is Null here), booleans by comparison with 'true',
   * arrays and JSON through `JSON.parse` with the text kept when it fails.
   */
  function Convert(kind: string, value: Value, num: Value -> Option<real>, parse: string -> Option<Value>,
                   fmt: real -> string): (v: Value)
    ensures kind == "number" ==> v.Num? || v == Null
    ensures kind == "boolean" ==> v.Bool? && (v.b <==> value == Str("true"))
    ensures (kind == "array" || kind == "json") && parse(ToJsString(value, fmt)).None? ==> v == value
    ensures kind != "number" && kind != "boolean" && kind != "array" && kind != "json" ==> v == value
  {
    if kind == "number" then (if num(value).Some? then Num(num(value).value) else Null)
    else if kind == "boolean" then Bool(value == Str("true"))
    else if kind == "array" || kind == "json" then
      var p := parse(ToJsString(value, fmt));
      if p.Some? then p.value else value
    else value
  }

  /** The `_b` object: each entry kept, converted by its type. */
  function EncodedParams(all: Record, registry: seq<Param>, customs: seq<CustomParam>,
                         num: Value -> Option<real>, parse: string -> Option<Value>, fmt: real -> string): (r: Record)
    ensures WellFormed(r)
  {
    Emit(all, (key: string, v: Value) => SkippedEncoded(registry, customs, key, v, fmt),
         (key: string, v: Value) => Convert(ParamType(registry, customs, key), v, num, parse, fmt))
  }

  /**
   * An inferred custom value survives the conversion: a boolean comes back as the same
   * text, a number as the number `Number` read, an array or JSON value as the parsed
   * value, and a string unchanged.
   */
  lemma InferredConverts(v: string, num: Value -> Option<real>, parse: string -> Option<Value>, fmt: real -> string)
    ensures var t := InferType(v, num, parse);
      var c := Convert(t, Str(v), num, parse, fmt);
      && (t == "boolean" ==> c == Bool(v == "true") && ToJsString(c, fmt) == v)
      && (t == "number" ==> c == Num(num(Str(v)).value))
      && (t == "array" ==> parse(v).Some? && c == parse(v).value && c.Arr?)
      && (t == "json" ==> parse(v).Some? && c == parse(v).value)
      && (t == "string" ==> c == Str(v))
  {
  }

  lemma {:induction false} KeysPrefix(r: Record, k: string)
    requires |r| > 0
    ensures HasKey(r, k) <==> HasKey(r[..|r| - 1], k) || r[|r| - 1].key == k
  {
    assert Keys(r) == Keys(r[..|r| - 1]) + [r[|r| - 1].key];
  }

  lemma {:induction false} WellFormedPrefix(r: Record)
    requires WellFormed(r) && |r| > 0
    ensures WellFormed(r[..|r| - 1]) && !HasKey(r[..|r| - 1], r[|r| - 1].key)
    ensures Get(r, r[|r| - 1].key) == r[|r| - 1].val
    ensures forall k :: k != r[|r| - 1].key ==> Get(r[..|r| - 1], k) == Get(r, k)
  {
    PrefixWellFormed(r);
    PrefixGet(r);
    GetAt(r, |r| - 1);
  }

  lemma {:induction false} PrefixWellFormed(r: Record)
    requires WellFormed(r) && |r| > 0
    ensures WellFormed(r[..|r| - 1]) && !HasKey(r[..|r| - 1], r[|r| - 1].key)
  {
    var n := |r| - 1;
    if n > 0 {
      var t, p := r[1..], r[..n];
      assert t[..n - 1] == p[1..];
      assert t[n - 1] == r[n];
      PrefixWellFormed(t);
      assert p == [r[0]] + t[..n - 1];
      KeysCons(r[0], t[..n - 1], r[n].key);
      KeysPrefix(t, r[0].key);
      assert !HasKey(t, r[0].key);
    }
  }

  /** Dropping the last field changes the lookup of no other key. */
  lemma {:induction false} PrefixGet(r: Record)
    requires |r| > 0
    ensures forall k :: k != r[|r| - 1].key ==> Get(r[..|r| - 1], k) == Get(r, k)
  {
    var n := |r| - 1;
    if n > 0 {
      var t, p := r[1..], r[..n];
      assert t[..n - 1] == p[1..];
      assert t[n - 1] == r[n];
      PrefixGet(t);
      forall k | k != r[n].key
        ensures Get(p, k) == Get(r, k)
      {
        if r[0].key != k {
          assert Get(p, k) == Get(t[..n - 1], k);
          assert Get(r, k) == Get(t, k);
        }
      }
    }
  }

  /** `Emit` keeps exactly the entries not skipped, each converted. */
  lemma {:induction false} EmitGet(all: Record, skip: (string, Value) -> bool, conv: (string, Value) -> Value, k: string)
    requires WellFormed(all)
    ensures HasKey(Emit(all, skip, conv), k) <==> HasKey(all, k) && !skip(k, Get(all, k))
    ensures HasKey(Emit(all, skip, conv), k) ==> Get(Emit(all, skip, conv), k) == conv(k, Get(all, k))
  {
    if |all| > 0 {
      var n := |all| - 1;
      var f, prev := all[n], Emit(all[..n], skip, conv);
      assert Emit(all, skip, conv) == if skip(f.key, f.val) then prev else Put(prev, f.key, conv(f.key, f.val));
      WellFormedPrefix(all);
      EmitGet(all[..n], skip, conv, k);
      KeysPrefix(all, k);
      if !skip(f.key, f.val) {
        PutHasKey(prev, f.key, conv(f.key, f.val), k);
      }
    }
  }

  /**
   * Plain mode emits a parameter exactly when it is an entry of `allParams` that is
   * not skipped, with the entry's text as its value.
   */
  lemma PlainParamsGet(all: Record, registry: seq<Param>, fmt: real -> string, k: string)
    requires WellFormed(all)
    ensures HasKey(PlainParams(all, registry, fmt), k) <==> HasKey(all, k) && !SkippedPlain(registry, k, Get(all, k), fmt)
    ensures HasKey(PlainParams(all, registry, fmt), k) ==> Get(PlainParams(all, registry, fmt), k) == Str(ToJsString(Get(all, k), fmt))
  {
    EmitGet(all, (key: string, v: Value) => SkippedPlain(registry, key, v, fmt),
            (key: string, v: Value) => Str(ToJsString(v, fmt)), k);
  }

  /**
   * The `_b` object holds exactly the entries of `allParams` that are not skipped,
   * each converted by its type.
   */
  lemma EncodedParamsGet(all: Record, registry: seq<Param>, customs: seq<CustomParam>,
                         num: Value -> Option<real>, parse: string -> Option<Value>,
                         fmt: real -> string, k: string)
    requires WellFormed(all)
    ensures var r := EncodedParams(all, registry, customs, num, parse, fmt);
      HasKey(r, k) <==> HasKey(all, k) && !SkippedEncoded(registry, customs, k, Get(all, k), fmt)
    ensures var r := EncodedParams(all, registry, customs, num, parse, fmt);
      HasKey(r, k) ==> Get(r, k) == Convert(ParamType(registry, customs, k), Get(all, k), num, parse, fmt)
  {
    EmitGet(all, (key: string, v: Value) => SkippedEncoded(registry, customs, key, v, fmt),
            (key: string, v: Value) => Convert(ParamType(registry, customs, key), v, num, parse, fmt), k);
  }

  /**
   * The `_b` object the screen builds in base64 mode, once decoded, reads back
   * through `getParam` as the converted value the screen wrote, whatever type the
   * reader asks for.
   */
  lemma EncodedReadBack(all: Record, registry: seq<Param>, customs: seq<CustomParam>,
                        num: Value -> Option<real>, parse: string -> Option<Value>, fmt: real -> string,
                        k: string, defaultValue: Value, kind: ParamKind, url: Query)
    requires WellFormed(all) && HasKey(all, k) && !SkippedEncoded(registry, customs, k, Get(all, k), fmt)
    ensures GetParam(k, defaultValue, kind, url, Some(Obj(EncodedParams(all, registry, customs, num, parse, fmt))), num, parse)
      == Convert(ParamType(registry, customs, k), Get(all, k), num, parse, fmt)
  {
    var obj := EncodedParams(all, registry, customs, num, parse, fmt);
    EncodedParamsGet(all, registry, customs, num, parse, fmt, k);
    assert Entries(Obj(obj)) == obj;
    assert DecodedEntry(Some(Obj(obj)), k) == Some(Get(obj, k));
  }

  /** A custom parameter the screen lists: the subset entries are handled separately. */
  predicate IsShown(c: CustomParam)
  {
    c.name != IncludeSubset && c.name != ExcludeSubset
  }

  /** `filteredCustomParams`: the custom parameters in the order the screen lists them. */
  function Shown(cs: seq<CustomParam>): (r: seq<CustomParam>)
    ensures |r| <= |cs|
  {
    if |cs| == 0 then [] else (if IsShown(cs[0]) then [cs[0]] else []) + Shown(cs[1..])
  }

  /** The position in the whole list of the parameter listed in row `row`. */
  function ShownIndex(cs: seq<CustomParam>, row: nat): (i: nat)
    requires row < |Shown(cs)|
    ensures i < |cs| && IsShown(cs[i]) && cs[i] == Shown(cs)[row]
  {
    if IsShown(cs[0]) then (if row == 0 then 0 else 1 + ShownIndex(cs[1..], row - 1))
    else 1 + ShownIndex(cs[1..], row)
  }

  /** Listing distributes over concatenation. */
  lemma {:induction false} ShownAppend(a: seq<CustomParam>, b: seq<CustomParam>)
    ensures Shown(a + b) == Shown(a) + Shown(b)
  {
    if |a| == 0 {
      assert a + b == b;
    } else {
      var head := if IsShown(a[0]) then [a[0]] else [];
      assert (a + b)[0] == a[0] && (a + b)[1..] == a[1..] + b;
      ShownAppend(a[1..], b);
      assert Shown(a + b) == head + Shown(a[1..] + b);
      assert Shown(a) == head + Shown(a[1..]);
    }
  }

  /** Row `row` is preceded by exactly `row` listed parameters. */
  lemma {:induction false} ShownIndexPrefix(cs: seq<CustomParam>, row: nat)
    requires row < |Shown(cs)|
    ensures |Shown(cs[..ShownIndex(cs, row)])| == row
  {
    var i := ShownIndex(cs, row);
    if i > 0 {
      var r := if IsShown(cs[0]) then row - 1 else row;
      assert ShownIndex(cs[1..], r) == i - 1;
      ShownIndexPrefix(cs[1..], r);
      assert cs[..i] == [cs[0]] + cs[1..][..i - 1];
      ShownAppend([cs[0]], cs[1..][..i - 1]);
    }
  }

  /** The list is the rows before row `row`, that row's parameter, and the rows after. */
  lemma ShownSplit(cs: seq<CustomParam>, row: nat)
    requires row < |Shown(cs)|
    ensures var i := ShownIndex(cs, row);
      && Shown(cs) == Shown(cs[..i]) + ([cs[i]] + Shown(cs[i + 1..]))
      && |Shown(cs[..i])| == row
  {
    var i := ShownIndex(cs, row);
    var head, x, tail := cs[..i], cs[i], cs[i + 1..];
    assert Shown(cs) == Shown(head) + ([x] + Shown(tail)) by {
      assert cs == head + ([x] + tail);
      ShownAppend([x], tail);
      assert Shown([x]) == [x];
      assert Shown([x] + tail) == [x] + Shown(tail);
      ShownAppend(head, [x] + tail);
    }
    assert |Shown(head)| == row by {
      ShownIndexPrefix(cs, row);
    }
  }

  /** Replacing the parameter of a row by a listed one changes exactly that row of the list. */
  lemma ShownUpdate(cs: seq<CustomParam>, row: nat, c: CustomParam)
    requires row < |Shown(cs)| && IsShown(c)
    ensures Shown(cs[ShownIndex(cs, row) := c]) == Shown(cs)[row := c]
  {
    var i := ShownIndex(cs, row);
    var before, after := Shown(cs[..i]), Shown(cs[i + 1..]);
    assert Shown(cs[i := c]) == before + ([c] + after) by {
      var head, tail := cs[..i], cs[i + 1..];
      SplitUpdate(cs, i, c);
      assert cs[i := c] == head + ([c] + tail);
      ShownAppend([c], tail);
      assert Shown([c]) == [c];
      assert Shown([c] + tail) == [c] + after;
      ShownAppend(head, [c] + tail);
    }
    assert Shown(cs)[row := c] == before + ([c] + after) by {
      ShownSplit(cs, row);
      JoinUpdate(before, cs[i], after, c);
    }
  }

  /** Updating position `i` of `s` puts `x` between the slices around it. */
  lemma SplitUpdate<T>(s: seq<T>, i: nat, x: T)
    requires i < |s|
    ensures s[i := x] == s[..i] + ([x] + s[i + 1..])
  {
    var split := s[..i] + ([x] + s[i + 1..]);
    assert forall k :: 0 <= k < |s| ==> s[i := x][k] == split[k];
  }

  /** Updating the element between two sequences replaces it in the concatenation. */
  lemma JoinUpdate<T>(p: seq<T>, y: T, q: seq<T>, x: T)
    ensures (p + ([y] + q))[|p| := x] == p + ([x] + q)
  {
    var joined := p + ([x] + q);
    assert forall k :: 0 <= k < |p| + 1 + |q| ==> (p + ([y] + q))[|p| := x][k] == joined[k];
  }

  /** Removing the parameter of a row removes exactly that row of the list. */
  lemma ShownRemove(cs: seq<CustomParam>, row: nat)
    requires row < |Shown(cs)|
    ensures var i := ShownIndex(cs, row);
      Shown(cs[..i] + cs[i + 1..]) == Shown(cs)[..row] + Shown(cs)[row + 1..]
  {
    var i := ShownIndex(cs, row);
    ShownSplit(cs, row);
    var before, after := Shown(cs[..i]), Shown(cs[i + 1..]);
    ShownAppend(cs[..i], cs[i + 1..]);
    assert (before + ([cs[i]] + after))[..row] == before;
    assert (before + ([cs[i]] + after))[row + 1..] == after;
  }

  /**
   * The row handlers index the whole list with the row number of the listed ones: when
   * a parameter named `includeSubset` comes first, editing the first listed row
   * changes the hidden parameter and leaves the listed one as it was.
   */
  lemma RowEditHitsHidden()
    ensures var cs := [CustomParam(IncludeSubset, "string", Str("1,3")), CustomParam("foo", "string", Str("bar"))];
      var edited := cs[0 := cs[0].(value := Str("baz"))];
      && Shown(cs) == [cs[1]]
      && Shown(edited) == Shown(cs)
      && edited[0] != cs[0]
  {
    var cs := [CustomParam(IncludeSubset, "string", Str("1,3")), CustomParam("foo", "string", Str("bar"))];
    var edited := cs[0 := cs[0].(value := Str("baz"))];
    assert cs[1..][1..] == [] && edited[1..][1..] == [];
    assert Shown(cs[1..]) == [cs[1]];
    assert edited[1..] == cs[1..];
  }

  /** What the link carries: plain parameters or the `_b` object. */
  datatype Link = Plain(params: Record) | Encoded(object: Record)

  /** The settings screen's state. */
  class Screen {
    const registry: seq<Param>
    const timelineLength: nat
    var paramValues: Record
    var customParams: seq<CustomParam>
    var useBase64: bool
    var isExcludeMode: bool
    var selectedTrials: seq<string>

    predicate Valid()
      reads this
    {
      WellFormed(paramValues)
    }

    /**
     * Mounting with the URL's parameters and its decoded `_b` object: the selection as
     * `InitialSelection` gives it; a readable `_b` object supplies the values, custom
     * parameters and base64 mode, the plain parameters do otherwise.
     */
    constructor (registry: seq<Param>, timelineLength: nat, url: Query, decoded: Option<Value>,
                 num: Value -> Option<real>, parse: string -> Option<Value>, stringify: Value -> string,
                 fmt: real -> string)
      ensures Valid()
      ensures this.registry == registry && this.timelineLength == timelineLength
      ensures Selection(isExcludeMode, selectedTrials) == InitialSelection(url, decoded, timelineLength)
      ensures useBase64 <==> decoded.Some? && !Nullish(decoded.value)
      ensures useBase64 ==>
        var d := DecodedEntries(registry, Entries(decoded.value), stringify, fmt);
        paramValues == DecodedDefaults(registry, d.0, fmt) && customParams == d.1
      ensures !useBase64 ==>
        paramValues == RegularValues(registry, url, fmt) && customParams == RegularCustoms(registry, url, num, parse)
    {
      this.registry, this.timelineLength := registry, timelineLength;
      var s := InitialSelection(url, decoded, timelineLength);
      isExcludeMode, selectedTrials := s.exclude, s.trials;
      if decoded.Some? && !Nullish(decoded.value) {
        var d := DecodedEntries(registry, Entries(decoded.value), stringify, fmt);
        assert WellFormed(d.0) by { DecodedEntriesWellFormed(registry, Entries(decoded.value), stringify, fmt); }
        paramValues := DecodedDefaults(registry, d.0, fmt);
        customParams := d.1;
        useBase64 := true;
      } else {
        var values, customs := ProcessRegularParams(registry, url, num, parse, fmt);
        paramValues, customParams, useBase64 := values, customs, false;
      }
    }

    /** `processRegularParams`: a loop over the registry, then one over the URL's parameters. */
    static method ProcessRegularParams(registry: seq<Param>, url: Query, num: Value -> Option<real>,
                                       parse: string -> Option<Value>, fmt: real -> string)
      returns (values: Record, customs: seq<CustomParam>)
      ensures values == RegularValues(registry, url, fmt) && WellFormed(values)
      ensures customs == RegularCustoms(registry, url, num, parse)
    {
      values := [];
      for i := 0 to |registry|
        invariant values == RegularValues(registry[..i], url, fmt) && WellFormed(values)
      {
        assert registry[..i + 1][..i] == registry[..i];
        var p := registry[i];
        var v := UrlGet(url, p.name);
        if v.Some? {
          values := Put(values, p.name, Str(v.value));
        } else if HasBooleanDefault(p) {
          values := Put(values, p.name, Str(ToJsString(p.defaultValue, fmt)));
        }
      }
      assert registry[..|registry|] == registry;
      var names := RegisteredNames(registry);
      customs := [];
      for i := 0 to |url|
        invariant customs == RegularCustoms(registry, url[..i], num, parse)
      {
        assert url[..i + 1][..i] == url[..i];
        var (key, value) := url[i];
        if key !in names && key != Base64Key {
          customs := customs + [CustomParam(key, InferType(value, num, parse), Str(value))];
        }
      }
      assert url[..|url|] == url;
    }

    /** `toggleTrialSelection(index)`. */
    method ToggleTrialSelection(index: nat)
      modifies this
      ensures selectedTrials == ToggleTrial(old(selectedTrials), index)
      ensures paramValues == old(paramValues) && customParams == old(customParams)
      ensures useBase64 == old(useBase64) && isExcludeMode == old(isExcludeMode)
    {
      selectedTrials := ToggleTrial(selectedTrials, index);
    }

    /** The include/exclude switch. */
    method ToggleSelectionMode()
      modifies this
      ensures isExcludeMode == !old(isExcludeMode)
      ensures selectedTrials == old(selectedTrials) && paramValues == old(paramValues)
      ensures customParams == old(customParams) && useBase64 == old(useBase64)
    {
      isExcludeMode := !isExcludeMode;
    }

    /** `handleParamChange(name, value)`: only that parameter's value changes. */
    method HandleParamChange(name: string, value: Value)
      requires Valid()
      modifies this
      ensures Valid()
      ensures paramValues == Put(old(paramValues), name, value)
      ensures Get(paramValues, name) == value && forall j :: j != name ==> Get(paramValues, j) == Get(old(paramValues), j)
      ensures selectedTrials == old(selectedTrials) && customParams == old(customParams)
      ensures useBase64 == old(useBase64) && isExcludeMode == old(isExcludeMode)
    {
      paramValues := Put(paramValues, name, value);
    }

    /** The on/off button of a boolean parameter: 'true' becomes 'false', anything else 'true'. */
    method ToggleBooleanParam(name: string)
      requires Valid()
      modifies this
      ensures Valid()
      ensures Get(paramValues, name) == Str(if Get(old(paramValues), name) == Str("true") then "false" else "true")
      ensures forall j :: j != name ==> Get(paramValues, j) == Get(old(paramValues), j)
      ensures selectedTrials == old(selectedTrials) && customParams == old(customParams)
      ensures useBase64 == old(useBase64) && isExcludeMode == old(isExcludeMode)
    {
      var flipped := if Get(paramValues, name) == Str("true") then "false" else "true";
      HandleParamChange(name, Str(flipped));
    }

    /** The "add parameter" button: an empty string parameter at the end. */
    method AddCustomParam()
      modifies this
      ensures customParams == old(customParams) + [CustomParam("", "string", Str(""))]
      ensures selectedTrials == old(selectedTrials) && paramValues == old(paramValues)
      ensures useBase64 == old(useBase64) && isExcludeMode == old(isExcludeMode)
    {
      customParams := customParams + [CustomParam("", "string", Str(""))];
    }

    /** `handleCustomParamChange(index, field, value)` for the name, type and value fields. */
    method SetCustomName(index: nat, name: string)
      requires index < |customParams|
      modifies this
      ensures customParams == old(customParams)[index := old(customParams)[index].(name := name)]
      ensures selectedTrials == old(selectedTrials) && paramValues == old(paramValues)
      ensures useBase64 == old(useBase64) && isExcludeMode == old(isExcludeMode)
    {
      customParams := customParams[index := customParams[index].(name := name)];
    }

    method SetCustomType(index: nat, kind: string)
      requires index < |customParams|
      modifies this
      ensures customParams == old(customParams)[index := old(customParams)[index].(kind := kind)]
      ensures selectedTrials == old(selectedTrials) && paramValues == old(paramValues)
      ensures useBase64 == old(useBase64) && isExcludeMode == old(isExcludeMode)
    {
      customParams := customParams[index := customParams[index].(kind := kind)];
    }

    method SetCustomValue(index: nat, value: Value)
      requires index < |customParams|
      modifies this
      ensures customParams == old(customParams)[index := old(customParams)[index].(value := value)]
      ensures selectedTrials == old(selectedTrials) && paramValues == old(paramValues)
      ensures useBase64 == old(useBase64) && isExcludeMode == old(isExcludeMode)
    {
      customParams := customParams[index := customParams[index].(value := value)];
    }

    /** `removeCustomParam(index)`: the parameter at that position goes, the others keep their order. */
    method RemoveCustomParam(index: nat)
      modifies this
      ensures customParams == if index < |old(customParams)|
                              then old(customParams)[..index] + old(customParams)[index + 1..] else old(customParams)
      ensures selectedTrials == old(selectedTrials) && paramValues == old(paramValues)
      ensures useBase64 == old(useBase64) && isExcludeMode == old(isExcludeMode)
    {
      if index < |customParams| {
        customParams := customParams[..index] + customParams[index + 1..];
      }
    }

    /**
     * A value edit in row `row` of the listed parameters, as the screen intends it:
     * that row, and nothing else of the list, changes.
     */
    method SetShownCustomValue(row: nat, value: Value)
      requires row < |Shown(customParams)|
      modifies this
      ensures Shown(customParams) == old(Shown(customParams))[row := old(Shown(customParams))[row].(value := value)]
      ensures |customParams| == |old(customParams)|
      ensures forall i :: 0 <= i < |customParams| && !IsShown(old(customParams)[i]) ==> customParams[i] == old(customParams)[i]
      ensures selectedTrials == old(selectedTrials) && paramValues == old(paramValues)
      ensures useBase64 == old(useBase64) && isExcludeMode == old(isExcludeMode)
    {
      var i := ShownIndex(customParams, row);
      ShownUpdate(customParams, row, customParams[i].(value := value));
      customParams := customParams[i := customParams[i].(value := value)];
    }

    /** Removing row `row` of the listed parameters, as the screen intends it. */
    method RemoveShownCustomParam(row: nat)
      requires row < |Shown(customParams)|
      modifies this
      ensures Shown(customParams) == old(Shown(customParams))[..row] + old(Shown(customParams))[row + 1..]
      ensures var i := old(ShownIndex(customParams, row));
        customParams == old(customParams)[..i] + old(customParams)[i + 1..]
      ensures |customParams| == |old(customParams)| - 1
      ensures selectedTrials == old(selectedTrials) && paramValues == old(paramValues)
      ensures useBase64 == old(useBase64) && isExcludeMode == old(isExcludeMode)
    {
      var i := ShownIndex(customParams, row);
      ShownRemove(customParams, row);
      customParams := customParams[..i] + customParams[i + 1..];
    }

    /** The URL-format switch. */
    method ToggleUrlFormat()
      modifies this
      ensures useBase64 == !old(useBase64)
      ensures selectedTrials == old(selectedTrials) && paramValues == old(paramValues)
      ensures customParams == old(customParams) && isExcludeMode == old(isExcludeMode)
    {
      useBase64 := !useBase64;
    }

    /**
     * The link effect. `selectedTrials.sort()` sorts the selection in place whenever a
     * subset entry is written.
     */
    method GenerateLink(num: Value -> Option<real>, parse: string -> Option<Value>, fmt: real -> string)
      returns (link: Link)
      requires Valid()
      modifies this
      ensures Valid()
      ensures var all := AllParams(paramValues, old(selectedTrials), isExcludeMode, timelineLength, customParams);
        link == if useBase64 then Encoded(EncodedParams(all, registry, customParams, num, parse, fmt))
                else Plain(PlainParams(all, registry, fmt))
      ensures selectedTrials ==
        if |old(selectedTrials)| > 0 && (isExcludeMode || |old(selectedTrials)| != timelineLength)
        then Sort(old(selectedTrials)) else old(selectedTrials)
      ensures paramValues == old(paramValues) && customParams == old(customParams)
      ensures useBase64 == old(useBase64) && isExcludeMode == old(isExcludeMode)
    {
      var all := paramValues;
      if |selectedTrials| > 0 {
        if isExcludeMode {
          selectedTrials := Sort(selectedTrials);
          all := Put(all, ExcludeSubset, Str(Join(selectedTrials, ",")));
          all := Remove(all, IncludeSubset);
        } else if |selectedTrials| != timelineLength {
          selectedTrials := Sort(selectedTrials);
          all := Put(all, IncludeSubset, Str(Join(selectedTrials, ",")));
          all := Remove(all, ExcludeSubset);
        }
      } else {
        all := Remove(all, IncludeSubset);
        all := Remove(all, ExcludeSubset);
      }
      all := AddCustoms(all, customParams);
      if useBase64 {
        var obj := EncodeEntries(all, registry, customParams, num, parse, fmt);
        link := Encoded(obj);
      } else {
        var params := PlainEntries(all, registry, fmt);
        link := Plain(params);
      }
    }
  }

  /** The loop over the custom parameters. */
  method AddCustoms(all0: Record, customs: seq<CustomParam>) returns (all: Record)
    ensures all == WithCustoms(all0, customs)
    ensures WellFormed(all0) ==> WellFormed(all)
  {
    all := all0;
    for i := 0 to |customs|
      invariant all == WithCustoms(all0, customs[..i])
      invariant WellFormed(all0) ==> WellFormed(all)
    {
      assert customs[..i + 1][..i] == customs[..i];
      if Emittable(customs[i]) {
        all := Put(all, customs[i].name, customs[i].value);
      }
    }
    assert customs[..|customs|] == customs;
  }

  /** The loop over `Object.entries(allParams)` in plain mode. */
  method PlainEntries(all: Record, registry: seq<Param>, fmt: real -> string) returns (params: Record)
    ensures params == PlainParams(all, registry, fmt)
  {
    params := [];
    for i := 0 to |all|
      invariant params == PlainParams(all[..i], registry, fmt)
    {
      assert all[..i + 1][..i] == all[..i];
      var e := all[i];
      if !SkippedPlain(registry, e.key, e.val, fmt) {
        params := Put(params, e.key, Str(ToJsString(e.val, fmt)));
      }
    }
    assert all[..|all|] == all;
  }

  /** The loop over `Object.entries(allParams)` in base64 mode. */
  method EncodeEntries(all: Record, registry: seq<Param>, customs: seq<CustomParam>,
                       num: Value -> Option<real>, parse: string -> Option<Value>, fmt: real -> string)
    returns (obj: Record)
    ensures obj == EncodedParams(all, registry, customs, num, parse, fmt)
  {
    obj := [];
    for i := 0 to |all|
      invariant obj == EncodedParams(all[..i], registry, customs, num, parse, fmt)
    {
      assert all[..i + 1][..i] == all[..i];
      var e := all[i];
      if !SkippedEncoded(registry, customs, e.key, e.val, fmt) {
        obj := Put(obj, e.key, Convert(ParamType(registry, customs, e.key), e.val, num, parse, fmt));
      }
    }
    assert all[..|all|] == all;
  }

  lemma {:induction false} DecodedEntriesWellFormed(registry: seq<Param>, entries: Record,
                                                    stringify: Value -> string, fmt: real -> string)
    ensures WellFormed(DecodedEntries(registry, entries, stringify, fmt).0)
  {
    if |entries| > 0 {
      DecodedEntriesWellFormed(registry, entries[..|entries| - 1], stringify, fmt);
    }
  }

}

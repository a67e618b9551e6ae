/**
 * Shared utilities: the in-place shuffle and `getParam`, which reads an experiment
 * parameter from the page URL, either from the base64 `_b` object or from a plain
 * query parameter converted to the requested type.
 */
module Common {
  import opened Wrappers
  import opened Strings
  import opened Json
  import Arrays

  /** The URL's query parameters in order, as name and value. */
  type Query = seq<(string, string)>

  /** `searchParams.get(name)`: the first value under the name. */
  function UrlGet(url: Query, name: string): (r: Option<string>)
    ensures r.Some? ==> exists i :: 0 <= i < |url| && url[i] == (name, r.value)
    ensures r.None? ==> forall i :: 0 <= i < |url| ==> url[i].0 != name
  {
    if |url| == 0 then None
    else if url[0].0 == name then Some(url[0].1)
    else
      var r := UrlGet(url[1..], name);
      assert forall i :: 0 <= i < |url| - 1 ==> url[1..][i] == url[i + 1];
      r
  }

  /** `shuffle(array)`: the Fisher–Yates shuffle in place; the same array is returned. */
  method Shuffle<T>(a: array<T>, random: seq<real>) returns (r: array<T>)
    requires a.Length <= |random| && Arrays.Draws(random)
    modifies a
    ensures r == a
    ensures a[..] == Arrays.Shuffled(old(a[..]), random)
  {
    Arrays.FisherYates(a, random);
    r := a;
  }

  datatype ParamKind = StringParam | NumberParam | BooleanParam | ArrayParam | JsonParam

  /**
   * The decoded `_b` object's value under name. `decoded` is `JSON.parse(atob(_b))`,
   * None when `_b` is absent or empty or does not decode; `name in` throws on a value
   * that is not an object, which falls through to the plain parameters.
   */
  function DecodedEntry(decoded: Option<Value>, name: string): (r: Option<Value>)
    ensures r.Some? <==> decoded.Some? && IsObject(decoded.value) && HasKey(Entries(decoded.value), name)
  {
    if decoded.Some? && IsObject(decoded.value) && HasKey(Entries(decoded.value), name)
    then Some(Get(Entries(decoded.value), name))
    else None
  }

  /**
   * The conversions of a plain value: `Number(v) || default` for numbers, a
   * case-insensitive comparison with 'true' for booleans, `JSON.parse` with the default
   * on failure for arrays and JSON. `num` is `Number` (None for NaN), `parse` is
   * `JSON.parse` (None when it throws).
   */
  function Conversion(kind: ParamKind, v: string, defaultValue: Value,
                      num: Value -> Option<real>, parse: string -> Option<Value>): Value
  {
    match kind
    case StringParam => Str(v)
    case NumberParam =>
      var x := num(Str(v));
      if x.Some? && x.value != 0.0 then Num(x.value) else defaultValue
    case BooleanParam => Bool(ToLower(v) == "true")
    case _ => if parse(v).Some? then parse(v).value else defaultValue
  }

  /**
   * `convertValue` of a URL value, which is always a string: a string parameter takes it
   * as it is; for the other types 'undefined' in any case is undefined and anything else
   * is converted.
   */
  function ConvertValue(kind: ParamKind, v: string, defaultValue: Value,
                        num: Value -> Option<real>, parse: string -> Option<Value>): Value
  {
    if kind == StringParam then Str(v)
    else if ToLower(v) == "undefined" then Undefined
    else Conversion(kind, v, defaultValue, num, parse)
  }

  /** `getParam(name, defaultValue, type)`. */
  function GetParam(name: string, defaultValue: Value, kind: ParamKind, url: Query, decoded: Option<Value>,
                    num: Value -> Option<real>, parse: string -> Option<Value>): (r: Value)
    ensures DecodedEntry(decoded, name).Some? ==> r == DecodedEntry(decoded, name).value
    ensures DecodedEntry(decoded, name).None? && UrlGet(url, name).None? ==> r == defaultValue
    ensures DecodedEntry(decoded, name).None? && UrlGet(url, name).Some? ==>
      r == ConvertValue(kind, UrlGet(url, name).value, defaultValue, num, parse)
  {
    var d := DecodedEntry(decoded, name);
    if d.Some? then d.value
    else
      match UrlGet(url, name)
      case None => defaultValue
      case Some(v) => ConvertValue(kind, v, defaultValue, num, parse)
  }

  /** A name in the decoded `_b` object is returned unconverted, whatever the plain parameters say. */
  lemma DecodedPrecedence(name: string, defaultValue: Value, kind: ParamKind, url: Query, fields: Record,
                          num: Value -> Option<real>, parse: string -> Option<Value>)
    requires HasKey(fields, name)
    ensures GetParam(name, defaultValue, kind, url, Some(Obj(fields)), num, parse) == Get(fields, name)
  {
  }

  /** A plain boolean parameter is true exactly when it reads 'true' ignoring case. */
  lemma BooleanConversion(name: string, defaultValue: Value, url: Query, num: Value -> Option<real>,
                          parse: string -> Option<Value>)
    requires UrlGet(url, name).Some? && ToLower(UrlGet(url, name).value) != "undefined"
    ensures var r := GetParam(name, defaultValue, BooleanParam, url, None, num, parse);
      && r.Bool?
      && (r.b <==> ToLower(UrlGet(url, name).value) == "true")
  {
  }

  /**
   * A plain number parameter is the number it reads unless that is zero or not a
   * number, which give the default.
   */
  lemma NumberConversion(name: string, defaultValue: Value, url: Query, num: Value -> Option<real>,
                         parse: string -> Option<Value>)
    requires UrlGet(url, name).Some? && ToLower(UrlGet(url, name).value) != "undefined"
    ensures var r := GetParam(name, defaultValue, NumberParam, url, None, num, parse);
      var x := num(Str(UrlGet(url, name).value));
      && (x.Some? && x.value != 0.0 ==> r == Num(x.value))
      && (x.None? || x.value == 0.0 ==> r == defaultValue)
  {
  }

  /** A plain array or JSON parameter that does not parse gives the default. */
  lemma ParseFailureDefault(name: string, defaultValue: Value, kind: ParamKind, url: Query,
                            num: Value -> Option<real>, parse: string -> Option<Value>)
    requires kind == ArrayParam || kind == JsonParam
    requires UrlGet(url, name).Some? && ToLower(UrlGet(url, name).value) != "undefined"
    ensures var v := UrlGet(url, name).value;
      GetParam(name, defaultValue, kind, url, None, num, parse) == if parse(v).Some? then parse(v).value else defaultValue
  {
  }

  /**
   * 'undefined', in any case, is undefined for every type but string, which returns
   * the text as it is.
   */
  lemma UndefinedText(name: string, defaultValue: Value, kind: ParamKind, url: Query,
                      num: Value -> Option<real>, parse: string -> Option<Value>)
    requires UrlGet(url, name).Some? && ToLower(UrlGet(url, name).value) == "undefined"
    ensures GetParam(name, defaultValue, kind, url, None, num, parse) ==
      if kind == StringParam then Str(UrlGet(url, name).value) else Undefined
  {
  }

  /** What a link writes for a boolean, 'true' or 'false', reads back as that boolean. */
  lemma BooleanRoundTrip(name: string, defaultValue: Value, b: bool, rest: Query,
                         num: Value -> Option<real>, parse: string -> Option<Value>)
    ensures GetParam(name, defaultValue, BooleanParam, [(name, if b then "true" else "false")] + rest, None, num, parse) == Bool(b)
  {
    var url := [(name, if b then "true" else "false")] + rest;
    assert UrlGet(url, name) == Some(url[0].1);
    assert ToLower("true") == "true";
    if !b {
      assert ToLower("false")[0] == 'f';
    }
  }
}

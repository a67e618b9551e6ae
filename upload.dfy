/**
 * The result-log serialisers of src/components/upload.tsx: CSV escaping, the CSV
 * writer with its header union, the default `transform` of a trial record, the
 * CanvasBlock flattener, the combination of trials into one or several CSV files,
 * the search for an unused session directory name and the session parameter
 * dictionary.
 */
module Upload {
  import opened Wrappers
  import opened Strings
  import opened Json

  // ---------------------------------------------------------------------------
  // CSV fields

  /** A field holding one of these characters is written between quotes. */
  predicate NeedsQuotes(s: string)
  {
    ',' in s || '"' in s || '\n' in s
  }

  /** `s.replace(/"/g, '""')`. */
  function DoubleQuotes(s: string): string
  {
    if |s| == 0 then ""
    else if s[0] == '"' then "\"\"" + DoubleQuotes(s[1..])
    else [s[0]] + DoubleQuotes(s[1..])
  }

  /** A CSV reader's view of a quoted body: each `""` stands for one `"`. */
  function UndoubleQuotes(s: string): string
  {
    if |s| == 0 then ""
    else if |s| >= 2 && s[0] == '"' && s[1] == '"' then "\"" + UndoubleQuotes(s[2..])
    else [s[0]] + UndoubleQuotes(s[1..])
  }

  lemma {:induction false} UndoubleDouble(s: string)
    ensures UndoubleQuotes(DoubleQuotes(s)) == s
  {
    if |s| > 0 {
      var d := DoubleQuotes(s[1..]);
      UndoubleDouble(s[1..]);
      if s[0] == '"' {
        assert ("\"\"" + d)[2..] == d;
      } else {
        assert ([s[0]] + d)[1..] == d;
      }
      assert s == [s[0]] + s[1..];
    }
  }

  /**
   * `escapeCsvValue`: null and undefined give an empty field; a field is either
   * free of commas, quotes and newlines or enclosed in quotes.
   */
  function EscapeCsvValue(v: Value, fmt: real -> string): (f: string)
    ensures Nullish(v) ==> f == ""
    ensures !NeedsQuotes(f) || (|f| >= 2 && f[0] == '"' && f[|f| - 1] == '"')
  {
    if Nullish(v) then ""
    else
      var s := ToJsString(v, fmt);
      if NeedsQuotes(s) then "\"" + DoubleQuotes(s) + "\"" else s
  }

  /** How a CSV reader recovers the text of one field. */
  function UnescapeCsvField(f: string): string
  {
    if |f| >= 2 && f[0] == '"' && f[|f| - 1] == '"' then UndoubleQuotes(f[1..|f| - 1]) else f
  }

  /**
   * Every defined value survives escaping: reading the field back gives its
   * string form, and a string form needing no quotes is written as it is.
   */
  lemma EscapeRoundTrip(v: Value, fmt: real -> string)
    requires !Nullish(v)
    ensures UnescapeCsvField(EscapeCsvValue(v, fmt)) == ToJsString(v, fmt)
    ensures !NeedsQuotes(ToJsString(v, fmt)) ==> EscapeCsvValue(v, fmt) == ToJsString(v, fmt)
  {
    var s := ToJsString(v, fmt);
    if NeedsQuotes(s) {
      var f := "\"" + DoubleQuotes(s) + "\"";
      assert f[1..|f| - 1] == DoubleQuotes(s);
      UndoubleDouble(s);
    } else if |s| >= 2 {
      assert s[0] != '"';
    }
  }

  // ---------------------------------------------------------------------------
  // Header union

  predicate Distinct(s: seq<string>)
  {
    forall i, j :: 0 <= i < j < |s| ==> s[i] != s[j]
  }

  /** `headerSet.add(k)` on a set kept in insertion order. */
  function AddKey(h: seq<string>, k: string): seq<string>
  {
    if k in h then h else h + [k]
  }

  /** Adds the keys one by one, in order. */
  function AddKeys(h: seq<string>, ks: seq<string>): (r: seq<string>)
    ensures forall k :: k in r <==> k in h || k in ks
    ensures h <= r
    ensures Distinct(h) ==> Distinct(r)
    decreases |ks|
  {
    if |ks| == 0 then h else AddKey(AddKeys(h, ks[..|ks| - 1]), ks[|ks| - 1])
  }

  /** The keys of all lists, each once, in first-seen order. */
  function Union(lists: seq<seq<string>>): (h: seq<string>)
  {
    if |lists| == 0 then [] else AddKeys(Union(lists[..|lists| - 1]), lists[|lists| - 1])
  }

  /** The union holds exactly the keys of the lists. */
  lemma {:induction false} UnionMembers(lists: seq<seq<string>>, k: string)
    ensures k in Union(lists) <==> exists i :: 0 <= i < |lists| && k in lists[i]
  {
    if |lists| > 0 {
      var n := |lists| - 1;
      var prev := lists[..n];
      assert k in Union(lists) <==> k in Union(prev) || k in lists[n];
      UnionMembers(prev, k);
      assert (exists i :: 0 <= i < |lists| && k in lists[i]) <==>
        (exists i :: 0 <= i < n && k in prev[i]) || k in lists[n] by {
        if exists i :: 0 <= i < n && k in prev[i] {
          var i :| 0 <= i < n && k in prev[i];
          assert prev[i] == lists[i];
        }
        if exists i :: 0 <= i < |lists| && k in lists[i] {
          var i :| 0 <= i < |lists| && k in lists[i];
          if i < n { assert prev[i] == lists[i]; }
        }
      }
    }
  }

  /** No key is listed twice. */
  lemma {:induction false} UnionDistinct(lists: seq<seq<string>>)
    ensures Distinct(Union(lists))
  {
    if |lists| > 0 {
      UnionDistinct(lists[..|lists| - 1]);
    }
  }

  /** Keys first seen in earlier lists come first: later lists only append. */
  lemma {:induction false} UnionPrefix(lists: seq<seq<string>>, n: nat)
    requires n <= |lists|
    ensures Union(lists[..n]) <= Union(lists)
  {
    if n < |lists| {
      var m := |lists| - 1;
      assert lists[..m][..n] == lists[..n];
      UnionPrefix(lists[..m], n);
    } else {
      assert lists[..n] == lists;
    }
  }

  function KeyLists(data: seq<Record>): (ls: seq<seq<string>>)
    ensures |ls| == |data|
    ensures forall i :: 0 <= i < |data| ==> ls[i] == Keys(data[i])
  {
    seq(|data|, i requires 0 <= i < |data| => Keys(data[i]))
  }

  /** The header of `convertArrayOfObjectsToCSV`: every key of every object, once. */
  function HeaderUnion(data: seq<Record>): (h: seq<string>)
    ensures Distinct(h)
    ensures forall k :: k in h <==> exists i :: 0 <= i < |data| && k in Keys(data[i])
  {
    UnionDistinct(KeyLists(data));
    assert forall k :: k in Union(KeyLists(data)) <==> exists i :: 0 <= i < |data| && k in Keys(data[i]) by {
      forall k
        ensures k in Union(KeyLists(data)) <==> exists i :: 0 <= i < |data| && k in Keys(data[i])
      {
        UnionMembers(KeyLists(data), k);
      }
    }
    Union(KeyLists(data))
  }

  /** The inner loop: `headerSet.add(key)` for each key of one object. */
  method AddAll(h: seq<string>, ks: seq<string>) returns (headers: seq<string>)
    ensures headers == AddKeys(h, ks)
  {
    headers := h;
    for j := 0 to |ks|
      invariant headers == AddKeys(h, ks[..j])
    {
      assert ks[..j + 1][..j] == ks[..j];
      if ks[j] !in headers {
        headers := headers + [ks[j]];
      }
    }
    assert ks[..|ks|] == ks;
  }

  /** Collecting the keys object by object and key by key builds the header union. */
  method CollectHeaders(data: seq<Record>) returns (headers: seq<string>)
    ensures headers == HeaderUnion(data)
  {
    headers := [];
    for i := 0 to |data|
      invariant headers == Union(KeyLists(data[..i]))
    {
      headers := AddAll(headers, Keys(data[i]));
      assert KeyLists(data[..i + 1])[..i] == KeyLists(data[..i]);
    }
    assert data[..|data|] == data;
  }

  // ---------------------------------------------------------------------------
  // CSV text

  /** The fields of one object under the given header; a key it lacks gives an empty field. */
  function Cells(obj: Record, headers: seq<string>, fmt: real -> string): (cells: seq<string>)
    ensures |cells| == |headers|
    ensures forall i :: 0 <= i < |headers| && !HasKey(obj, headers[i]) ==> cells[i] == ""
  {
    seq(|headers|, i requires 0 <= i < |headers| => EscapeCsvValue(Get(obj, headers[i]), fmt))
  }

  /** The header cells: every key escaped as a value would be. */
  function HeaderCells(headers: seq<string>, fmt: real -> string): (cells: seq<string>)
    ensures |cells| == |headers|
  {
    seq(|headers|, i requires 0 <= i < |headers| => EscapeCsvValue(Str(headers[i]), fmt))
  }

  function HeaderRow(headers: seq<string>, fmt: real -> string): string
  {
    Join(HeaderCells(headers, fmt), ",")
  }

  /** Each header cell reads back as its key, and a key without a comma, quote or newline is written as it is. */
  lemma HeaderCellReadBack(headers: seq<string>, fmt: real -> string, i: nat)
    requires i < |headers|
    ensures UnescapeCsvField(HeaderCells(headers, fmt)[i]) == headers[i]
    ensures !NeedsQuotes(headers[i]) ==> HeaderCells(headers, fmt)[i] == headers[i]
  {
    EscapeRoundTrip(Str(headers[i]), fmt);
  }

  /** A header row of plain keys splits back into the keys at its commas. */
  lemma HeaderRowSplits(headers: seq<string>, fmt: real -> string)
    requires |headers| >= 1 && forall i :: 0 <= i < |headers| ==> !NeedsQuotes(headers[i])
    ensures Split(HeaderRow(headers, fmt), ',') == headers
  {
    forall i | 0 <= i < |headers| ensures HeaderCells(headers, fmt)[i] == headers[i] {
      HeaderCellReadBack(headers, fmt, i);
    }
    assert HeaderCells(headers, fmt) == headers;
    SplitJoin(headers, ',');
  }

  function DataRows(data: seq<Record>, headers: seq<string>, fmt: real -> string): (rows: seq<string>)
    ensures |rows| == |data|
  {
    seq(|data|, r requires 0 <= r < |data| => Join(Cells(data[r], headers, fmt), ","))
  }

  /** The text `convertArrayOfObjectsToCSV` produces. */
  function CsvText(data: seq<Record>, fmt: real -> string): (csv: string)
    ensures csv == "" <==> |data| == 0
    ensures |data| > 0 ==> HeaderRow(HeaderUnion(data), fmt) <= csv
  {
    if |data| == 0 then ""
    else Join([HeaderRow(HeaderUnion(data), fmt)] + DataRows(data, HeaderUnion(data), fmt), "\n")
  }

  /**
   * `convertArrayOfObjectsToCSV`: nothing for no objects, otherwise the header row
   * of all keys in first-seen order followed by one row per object.
   */
  method ConvertArrayOfObjectsToCSV(data: seq<Record>, fmt: real -> string) returns (csv: string)
    ensures |data| == 0 ==> csv == ""
    ensures csv == CsvText(data, fmt)
  {
    if |data| == 0 {
      return "";
    }
    var headers := CollectHeaders(data);
    var rows := DataRows(data, headers, fmt);
    csv := Join([HeaderRow(headers, fmt)] + rows, "\n");
  }

  // ---------------------------------------------------------------------------
  // The default transform

  /** The entries of r with p put in front of every key. */
  function Prefixed(p: string, r: Record): (r': Record)
    ensures |r'| == |r|
  {
    if |r| == 0 then [] else [Field(p + r[0].key, r[0].val)] + Prefixed(p, r[1..])
  }

  /** `p + k` is a key of the prefixed entries exactly when k is a key of the entries. */
  lemma {:induction false} PrefixedLookup(p: string, r: Record, k: string)
    ensures HasKey(Prefixed(p, r), p + k) <==> HasKey(r, k)
    ensures Get(Prefixed(p, r), p + k) == Get(r, k)
  {
    if |r| > 0 {
      var f := Field(p + r[0].key, r[0].val);
      PrefixedLookup(p, r[1..], k);
      KeysCons(f, Prefixed(p, r[1..]), p + k);
      assert Keys(r) == [r[0].key] + Keys(r[1..]);
      assert ([f] + Prefixed(p, r[1..]))[1..] == Prefixed(p, r[1..]);
      if p + r[0].key == p + k {
        assert r[0].key == (p + r[0].key)[|p|..] == (p + k)[|p|..] == k;
      }
    }
  }

  /** Every key of the prefixed entries starts with the prefix. */
  lemma {:induction false} PrefixedOnly(p: string, r: Record, j: string)
    requires HasKey(Prefixed(p, r), j)
    ensures |p| <= |j| && j[..|p|] == p && HasKey(r, j[|p|..])
    ensures |p| > 0 ==> j[0] == p[0]
  {
    var f := Field(p + r[0].key, r[0].val);
    KeysCons(f, Prefixed(p, r[1..]), j);
    assert Keys(r) == [r[0].key] + Keys(r[1..]);
    if j != p + r[0].key {
      PrefixedOnly(p, r[1..], j);
    } else {
      assert j[|p|..] == r[0].key;
    }
  }

  lemma {:induction false} PrefixedWellFormed(p: string, r: Record)
    requires WellFormed(r)
    ensures WellFormed(Prefixed(p, r))
  {
    if |r| > 0 {
      var f := Field(p + r[0].key, r[0].val);
      PrefixedWellFormed(p, r[1..]);
      PrefixedLookup(p, r[1..], r[0].key);
      assert ([f] + Prefixed(p, r[1..]))[1..] == Prefixed(p, r[1..]);
    }
  }

  /** `Object.entries(responseData || {})`. */
  function ResponseEntries(item: Record): Record
  {
    var rd := Get(item, "responseData");
    if Truthy(rd) then Entries(rd) else []
  }

  /** The reduction that renames every response entry k to `data_k`. */
  function DataFields(item: Record): (r: Record)
    ensures WellFormed(r)
  {
    Spread([], Prefixed("data_", ResponseEntries(item)))
  }

  /**
   * `transform`: the record without `responseData`, followed by one `data_k` field
   * per entry k of the response.
   */
  function Transform(item: Record): (r: Record)
    ensures WellFormed(item) ==> WellFormed(r)
  {
    Spread(Remove(item, "responseData"), DataFields(item))
  }

  /** The transformed record never holds `responseData`. */
  lemma TransformDropsResponseData(item: Record)
    ensures !HasKey(Transform(item), "responseData")
  {
    var p := Prefixed("data_", ResponseEntries(item));
    assert !HasKey(p, "responseData") by {
      if HasKey(p, "responseData") {
        PrefixedOnly("data_", ResponseEntries(item), "responseData");
        assert false;
      }
    }
    SpreadHasKey([], p, "responseData");
    SpreadHasKey(Remove(item, "responseData"), DataFields(item), "responseData");
  }

  /** Each response entry k reappears as `data_k`, winning over a top-level field of that name. */
  lemma TransformData(item: Record, k: string)
    requires Get(item, "responseData").Obj? ==> WellFormed(Get(item, "responseData").fields)
    requires HasKey(ResponseEntries(item), k)
    ensures HasKey(Transform(item), "data_" + k)
    ensures Get(Transform(item), "data_" + k) == Get(ResponseEntries(item), k)
  {
    var es := ResponseEntries(item);
    var p := Prefixed("data_", es);
    EntriesWellFormed(Get(item, "responseData"));
    PrefixedWellFormed("data_", es);
    PrefixedLookup("data_", es, k);
    SpreadHasKey([], p, "data_" + k);
    SpreadGet([], p, "data_" + k);
    SpreadHasKey(Remove(item, "responseData"), DataFields(item), "data_" + k);
    SpreadGet(Remove(item, "responseData"), DataFields(item), "data_" + k);
  }

  /** A key that is no `data_k` of an entry k is not among the renamed entries. */
  lemma NotPrefixed(es: Record, j: string)
    requires forall k :: HasKey(es, k) ==> j != "data_" + k
    ensures !HasKey(Prefixed("data_", es), j)
  {
    if HasKey(Prefixed("data_", es), j) {
      PrefixedOnly("data_", es, j);
      assert false;
    }
  }

  /** A key that is no `data_k` of a response entry k is not among the renamed fields. */
  lemma NoDataField(item: Record, j: string)
    requires forall k :: HasKey(ResponseEntries(item), k) ==> j != "data_" + k
    ensures !HasKey(DataFields(item), j)
  {
    var es := ResponseEntries(item);
    NotPrefixed(es, j);
    SpreadHasKey([], Prefixed("data_", es), j);
  }

  /** Every other field of the record is kept with its value. */
  lemma TransformKeeps(item: Record, j: string)
    requires j != "responseData"
    requires forall k :: HasKey(ResponseEntries(item), k) ==> j != "data_" + k
    ensures HasKey(Transform(item), j) <==> HasKey(item, j)
    ensures Get(Transform(item), j) == Get(item, j)
  {
    var rem, d := Remove(item, "responseData"), DataFields(item);
    NoDataField(item, j);
    SpreadHasKey(rem, d, j);
    SpreadGet(rem, d, j);
    if HasKey(item, j) {
      RemoveKeeps(item, "responseData", j);
    }
  }

  // ---------------------------------------------------------------------------
  // The CanvasBlock flattener

  /** `defaultFlatteningFunctions.CanvasBlock`: one row per response, led by the block name. */
  function CanvasRows(item: Record): (rows: Value)
    ensures rows.Arr?
    ensures !Get(item, "responseData").Arr? ==> rows.elems == []
    ensures Get(item, "responseData").Arr? ==> |rows.elems| == |Get(item, "responseData").elems|
  {
    var rd := Get(item, "responseData");
    if rd.Arr? then
      Arr(seq(|rd.elems|, i requires 0 <= i < |rd.elems| =>
        Obj(Spread([Field("block", Get(item, "name"))], Entries(rd.elems[i])))))
    else Arr([])
  }

  /** A row holds the fields of its response, and `block` only where the response has none. */
  lemma CanvasRowFields(item: Record, i: nat, k: string)
    requires Get(item, "responseData").Arr? && i < |Get(item, "responseData").elems|
    requires var e := Get(item, "responseData").elems[i]; e.Obj? ==> WellFormed(e.fields)
    ensures var e := Entries(Get(item, "responseData").elems[i]);
      var row := CanvasRows(item).elems[i];
      && row.Obj?
      && (HasKey(row.fields, k) <==> HasKey(e, k) || k == "block")
      && Get(row.fields, k) == if HasKey(e, k) then Get(e, k) else if k == "block" then Get(item, "name") else Undefined
  {
    var el := Get(item, "responseData").elems[i];
    var head := [Field("block", Get(item, "name"))];
    EntriesWellFormed(el);
    SpreadHasKey(head, Entries(el), k);
    SpreadGet(head, Entries(el), k);
    KeysCons(head[0], [], k);
  }

  /** `defaultFlatteningFunctions`: only CanvasBlock trials have a flattener. */
  function DefaultFlatteners(): (fl: map<string, Record -> Value>)
    ensures fl.Keys == {"CanvasBlock"}
  {
    map["CanvasBlock" := CanvasRows]
  }

  // ---------------------------------------------------------------------------
  // Combining trials into CSV files

  datatype FileUpload = FileUpload(filename: string, content: string)

  /** `FileUpload | FileUpload[]`; `Multiple([])` is the empty array. */
  datatype Upload = Single(file: FileUpload) | Multiple(files: seq<FileUpload>)

  /** The flattener of the trial's type, or the default transform wrapped in an array. */
  function FlattenItem(item: Record, flatteners: map<string, Record -> Value>, fmt: real -> string): (v: Value)
    ensures !Truthy(Get(item, "type")) || ToJsString(Get(item, "type"), fmt) !in flatteners ==>
      v == Arr([Obj(Transform(item))]) && Kept(v)
  {
    var t := Get(item, "type");
    if Truthy(t) && ToJsString(t, fmt) in flatteners then flatteners[ToJsString(t, fmt)](item)
    else Arr([Obj(Transform(item))])
  }

  predicate NonEmptyArray(v: Value)
  {
    v.Arr? && |v.elems| > 0
  }

  /**
   * A flattener result that survives the filter: not an empty array, not an object
   * without a non-empty array value, and not null.
   */
  predicate Kept(v: Value)
  {
    && !(v.Arr? && |v.elems| == 0)
    && !(v.Obj? && forall i :: 0 <= i < |v.fields| ==> !NonEmptyArray(v.fields[i].val))
    && !v.Null?
  }

  /** The kept results of the trials named `name`, in data order. */
  function MatchingResults(data: seq<Record>, name: string, flatteners: map<string, Record -> Value>, fmt: real -> string): (rs: seq<Value>)
    ensures |rs| <= |data|
    ensures forall r :: r in rs ==> Kept(r)
  {
    if |data| == 0 then []
    else
      var rest := MatchingResults(data[1..], name, flatteners, fmt);
      if Get(data[0], "name") == Str(name) && Kept(FlattenItem(data[0], flatteners, fmt)) then
        [FlattenItem(data[0], flatteners, fmt)] + rest
      else rest
  }

  /** `allResults`: trials grouped by `names`, in the order of `names`. */
  function CollectResults(data: seq<Record>, names: seq<string>, flatteners: map<string, Record -> Value>, fmt: real -> string): (rs: seq<Value>)
  {
    if |names| == 0 then []
    else MatchingResults(data, names[0], flatteners, fmt) + CollectResults(data, names[1..], flatteners, fmt)
  }

  /** A result comes from a trial with a listed name, and every such trial with a kept result is present. */
  lemma {:induction false} MatchingResultsSpec(data: seq<Record>, name: string, flatteners: map<string, Record -> Value>, fmt: real -> string, i: nat)
    requires i < |data|
    ensures Get(data[i], "name") == Str(name) && Kept(FlattenItem(data[i], flatteners, fmt))
      ==> FlattenItem(data[i], flatteners, fmt) in MatchingResults(data, name, flatteners, fmt)
  {
    var x := FlattenItem(data[i], flatteners, fmt);
    if Get(data[i], "name") == Str(name) && Kept(x) {
      var rest := MatchingResults(data[1..], name, flatteners, fmt);
      var head := if Get(data[0], "name") == Str(name) && Kept(FlattenItem(data[0], flatteners, fmt))
                  then [FlattenItem(data[0], flatteners, fmt)] else [];
      assert MatchingResults(data, name, flatteners, fmt) == head + rest;
      if i > 0 {
        assert data[1..][i - 1] == data[i];
        MatchingResultsSpec(data[1..], name, flatteners, fmt, i - 1);
        InSuffix(x, head, rest);
      } else {
        InPrefix(x, head, rest);
      }
    }
  }

  /** Every result is the kept result of a trial named `name`. */
  lemma {:induction false} MatchingResultsOnly(data: seq<Record>, name: string, flatteners: map<string, Record -> Value>,
                                               fmt: real -> string, r: Value)
    requires r in MatchingResults(data, name, flatteners, fmt)
    ensures exists i :: (0 <= i < |data| && Get(data[i], "name") == Str(name) && Kept(FlattenItem(data[i], flatteners, fmt))
                         && r == FlattenItem(data[i], flatteners, fmt))
  {
    var rest := MatchingResults(data[1..], name, flatteners, fmt);
    if r in rest {
      MatchingResultsOnly(data[1..], name, flatteners, fmt, r);
      var i :| 0 <= i < |data[1..]| && Get(data[1..][i], "name") == Str(name) && Kept(FlattenItem(data[1..][i], flatteners, fmt))
        && r == FlattenItem(data[1..][i], flatteners, fmt);
      assert data[1..][i] == data[i + 1];
    } else {
      assert r == FlattenItem(data[0], flatteners, fmt);
    }
  }

  /** Results keep the order of the data: those of earlier trials come first. */
  lemma {:induction false} MatchingResultsAppend(a: seq<Record>, b: seq<Record>, name: string,
                                                 flatteners: map<string, Record -> Value>, fmt: real -> string)
    ensures MatchingResults(a + b, name, flatteners, fmt)
      == MatchingResults(a, name, flatteners, fmt) + MatchingResults(b, name, flatteners, fmt)
  {
    if |a| == 0 {
      assert a + b == b;
    } else {
      assert (a + b)[0] == a[0] && (a + b)[1..] == a[1..] + b;
      MatchingResultsAppend(a[1..], b, name, flatteners, fmt);
    }
  }

  lemma {:induction false} CollectedKept(data: seq<Record>, names: seq<string>, flatteners: map<string, Record -> Value>, fmt: real -> string)
    ensures forall r :: r in CollectResults(data, names, flatteners, fmt) ==> Kept(r)
  {
    if |names| > 0 {
      CollectedKept(data, names[1..], flatteners, fmt);
    }
  }

  /** The keys of an object result whose values are arrays. */
  function TableKeys(v: Value): (ks: seq<string>)
    ensures forall k :: k in ks ==> v.Obj? && HasKey(v.fields, k) && Get(v.fields, k).Arr?
  {
    if v.Obj? then TableKeysOf(v.fields, v.fields) else []
  }

  function TableKeysOf(obj: Record, fs: Record): (ks: seq<string>)
    requires forall i :: 0 <= i < |fs| ==> HasKey(obj, fs[i].key)
    ensures forall k :: k in ks ==> HasKey(obj, k) && Get(obj, k).Arr?
  {
    if |fs| == 0 then []
    else
      var rest := TableKeysOf(obj, fs[1..]);
      if Get(obj, fs[0].key).Arr? then [fs[0].key] + rest else rest
  }

  /** `hasMultiTable`. */
  predicate HasMultiTable(results: seq<Value>)
  {
    exists i :: 0 <= i < |results| && |TableKeys(results[i])| > 0
  }

  function ApplyFun(fun: Option<Value -> Value>, x: Value): Value
  {
    if fun.Some? then fun.value(x) else x
  }

  function MapFun(fun: Option<Value -> Value>, xs: seq<Value>): (ys: seq<Value>)
    ensures |ys| == |xs|
    ensures forall i :: 0 <= i < |xs| ==> ys[i] == ApplyFun(fun, xs[i])
  {
    seq(|xs|, i requires 0 <= i < |xs| => ApplyFun(fun, xs[i]))
  }

  /** The single-table rows: the elements of every array result, in order. */
  function PlainRows(results: seq<Value>): seq<Value>
  {
    if |results| == 0 then []
    else (if results[0].Arr? then results[0].elems else []) + PlainRows(results[1..])
  }

  /** What a result contributes to the table `key`. */
  function TablePart(r: Value, key: string): (part: seq<Value>)
    ensures r.Arr? ==> part == r.elems
    ensures r.Obj? && Truthy(Get(r.fields, key)) && !Get(r.fields, key).Arr? ==> part == [Get(r.fields, key)]
    ensures r.Obj? && Get(r.fields, key).Arr? ==> part == Get(r.fields, key).elems
    ensures !r.Arr? && !r.Obj? ==> part == []
    ensures r.Obj? && !Truthy(Get(r.fields, key)) ==> part == []
  {
    if r.Arr? then r.elems
    else if r.Obj? && Truthy(Get(r.fields, key)) then
      var t := Get(r.fields, key);
      if t.Arr? then t.elems else [t]
    else []
  }

  function TableRows(results: seq<Value>, key: string): seq<Value>
  {
    if |results| == 0 then [] else TablePart(results[0], key) + TableRows(results[1..], key)
  }

  /** Every row of a plain array result goes into every table. */
  lemma {:induction false} PlainRowsInEveryTable(results: seq<Value>, key: string, i: nat, j: nat)
    requires i < |results| && results[i].Arr? && j < |results[i].elems|
    ensures results[i].elems[j] in TableRows(results, key)
  {
    var x := results[i].elems[j];
    assert TableRows(results, key) == TablePart(results[0], key) + TableRows(results[1..], key);
    if i > 0 {
      assert results[1..][i - 1] == results[i];
      PlainRowsInEveryTable(results[1..], key, i - 1, j);
      InSuffix(x, TablePart(results[0], key), TableRows(results[1..], key));
    } else {
      assert x in TablePart(results[0], key);
      InPrefix(x, TablePart(results[0], key), TableRows(results[1..], key));
    }
  }

  /** The rows of the table found under `key` in an object result go into that table. */
  lemma {:induction false} TableRowsOfObject(results: seq<Value>, key: string, i: nat, j: nat)
    requires i < |results| && results[i].Obj?
    requires Get(results[i].fields, key).Arr? && j < |Get(results[i].fields, key).elems|
    ensures Get(results[i].fields, key).elems[j] in TableRows(results, key)
  {
    var x := Get(results[i].fields, key).elems[j];
    assert TableRows(results, key) == TablePart(results[0], key) + TableRows(results[1..], key);
    if i > 0 {
      assert results[1..][i - 1] == results[i];
      TableRowsOfObject(results[1..], key, i - 1, j);
      InSuffix(x, TablePart(results[0], key), TableRows(results[1..], key));
    } else {
      assert x in TablePart(results[0], key);
      InPrefix(x, TablePart(results[0], key), TableRows(results[1..], key));
    }
  }

  function RowRecords(rows: seq<Value>): (rs: seq<Record>)
    ensures |rs| == |rows|
  {
    seq(|rows|, i requires 0 <= i < |rows| => Entries(rows[i]))
  }

  /** `filename.replace(/\.csv$/, '')`. */
  function BaseFilename(filename: string): (b: string)
    ensures b <= filename
    ensures |filename| >= 4 && filename[|filename| - 4..] == ".csv" ==> b + ".csv" == filename
  {
    if |filename| >= 4 && filename[|filename| - 4..] == ".csv" then filename[..|filename| - 4] else filename
  }

  function TableFileName(base: string, key: string): string
  {
    base + "_" + key + ".csv"
  }

  lemma TableFileNameInjective(base: string, a: string, b: string)
    requires TableFileName(base, a) == TableFileName(base, b)
    ensures a == b
  {
    var n := TableFileName(base, a);
    assert a == n[|base| + 1..|n| - 4];
    assert b == TableFileName(base, b)[|base| + 1..|n| - 4];
  }

  /** The file of table `key`, if the table has rows. */
  function TableFile(results: seq<Value>, key: string, base: string, fun: Option<Value -> Value>, fmt: real -> string): (f: Option<FileUpload>)
    ensures f.Some? <==> |TableRows(results, key)| > 0
    ensures f.Some? ==> f.value.filename == TableFileName(base, key)
  {
    var rows := TableRows(results, key);
    if |rows| == 0 then None else Some(FileUpload(TableFileName(base, key), CsvText(RowRecords(MapFun(fun, rows)), fmt)))
  }

  /** The files of the tables, in key order, skipping tables without rows. */
  function TableFiles(results: seq<Value>, keys: seq<string>, base: string, fun: Option<Value -> Value>, fmt: real -> string): (files: seq<FileUpload>)
    ensures |files| <= |keys|
  {
    Present(keys, k => TableFile(results, k, base, fun, fmt))
  }

  /** The values `file` gives for the keys, in key order, skipping keys it gives none for. */
  function Present<K, T>(keys: seq<K>, file: K -> Option<T>): (files: seq<T>)
    ensures |files| <= |keys|
  {
    if |keys| == 0 then []
    else
      var n := |keys| - 1;
      Present(keys[..n], file) + OptionSeq(file(keys[n]))
  }

  /** An optional value as a sequence of zero or one elements. */
  function OptionSeq<T>(o: Option<T>): seq<T>
  {
    if o.Some? then [o.value] else []
  }

  lemma InPrefix<T>(x: T, s: seq<T>, t: seq<T>)
    requires x in s
    ensures x in s + t
  {
  }

  lemma InSuffix<T>(x: T, s: seq<T>, t: seq<T>)
    requires x in t
    ensures x in s + t
  {
  }

  /** A key the function gives a value for has that value among the present ones. */
  lemma {:induction false} PresentIncludes<K, T>(keys: seq<K>, file: K -> Option<T>, i: nat)
    requires i < |keys| && file(keys[i]).Some?
    ensures file(keys[i]).value in Present(keys, file)
  {
    var n := |keys| - 1;
    if i < n {
      assert keys[..n][i] == keys[i];
      PresentIncludes(keys[..n], file, i);
    } else {
      assert OptionSeq(file(keys[n])) == [file(keys[n]).value];
    }
  }

  /** Every file is named after one of the keys. */
  lemma {:induction false} TableFilesNames(results: seq<Value>, keys: seq<string>, base: string, fun: Option<Value -> Value>, fmt: real -> string, f: FileUpload)
    requires f in TableFiles(results, keys, base, fun, fmt)
    ensures exists k :: k in keys && f.filename == TableFileName(base, k)
  {
    var n := |keys| - 1;
    if f in TableFiles(results, keys[..n], base, fun, fmt) {
      TableFilesNames(results, keys[..n], base, fun, fmt, f);
      var k :| k in keys[..n] && f.filename == TableFileName(base, k);
      assert k in keys;
    } else {
      assert f.filename == TableFileName(base, keys[n]);
    }
  }

  /** The file of every table with rows is among the files. */
  lemma TableFileIncluded(results: seq<Value>, keys: seq<string>, base: string, fun: Option<Value -> Value>, fmt: real -> string, i: nat)
    requires i < |keys| && TableFile(results, keys[i], base, fun, fmt).Some?
    ensures TableFile(results, keys[i], base, fun, fmt).value in TableFiles(results, keys, base, fun, fmt)
  {
    PresentIncludes(keys, k => TableFile(results, k, base, fun, fmt), i);
  }

  /** A file named after a table exists only when that table has rows. */
  lemma {:induction false} TableFileOnlyWithRows(results: seq<Value>, keys: seq<string>, base: string, fun: Option<Value -> Value>, fmt: real -> string, k: string, f: FileUpload)
    requires f in TableFiles(results, keys, base, fun, fmt) && f.filename == TableFileName(base, k)
    ensures |TableRows(results, k)| > 0
  {
    var n := |keys| - 1;
    if f in TableFiles(results, keys[..n], base, fun, fmt) {
      TableFileOnlyWithRows(results, keys[..n], base, fun, fmt, k, f);
    } else {
      TableFileNameInjective(base, k, keys[n]);
    }
  }

  /** A table gets a file exactly when it has rows. */
  lemma TableFilesSpec(results: seq<Value>, keys: seq<string>, base: string, fun: Option<Value -> Value>, fmt: real -> string, k: string)
    requires k in keys
    ensures (exists f :: f in TableFiles(results, keys, base, fun, fmt) && f.filename == TableFileName(base, k))
      <==> |TableRows(results, k)| > 0
  {
    if |TableRows(results, k)| > 0 {
      var i :| 0 <= i < |keys| && keys[i] == k;
      TableFileIncluded(results, keys, base, fun, fmt, i);
    }
    forall f | f in TableFiles(results, keys, base, fun, fmt) && f.filename == TableFileName(base, k)
      ensures |TableRows(results, k)| > 0
    {
      TableFileOnlyWithRows(results, keys, base, fun, fmt, k, f);
    }
  }

  /** The table keys of all results, each once, in first-seen order. */
  function AllTableKeys(results: seq<Value>): seq<string>
  {
    Union(seq(|results|, i requires 0 <= i < |results| => TableKeys(results[i])))
  }

  /** Zero files are the empty array, one file is returned unwrapped. */
  function Wrap(files: seq<FileUpload>): (u: Upload)
    ensures u.Single? <==> |files| == 1
    ensures u.Single? ==> u.file == files[0]
    ensures u.Multiple? ==> u.files == files
  {
    if |files| == 1 then Single(files[0]) else Multiple(files)
  }

  /** The loop over the table keys that pushes one file per table with rows. */
  method WriteTables(results: seq<Value>, keys: seq<string>, base: string, fun: Option<Value -> Value>,
                     fmt: real -> string) returns (files: seq<FileUpload>)
    ensures files == TableFiles(results, keys, base, fun, fmt)
  {
    files := [];
    for t := 0 to |keys|
      invariant files == TableFiles(results, keys[..t], base, fun, fmt)
    {
      assert keys[..t + 1][..t] == keys[..t];
      var rows := TableRows(results, keys[t]);
      if |rows| == 0 {
        continue;
      }
      var content := ConvertArrayOfObjectsToCSV(RowRecords(MapFun(fun, rows)), fmt);
      files := files + [FileUpload(TableFileName(base, keys[t]), content)];
    }
    assert keys[..|keys|] == keys;
  }

  /** `combineTrialsToCsv`. */
  method CombineTrialsToCsv(data: seq<Record>, filename: string, names: seq<string>,
                            flatteners: map<string, Record -> Value>, fun: Option<Value -> Value>,
                            fmt: real -> string) returns (u: Upload)
    ensures var results := CollectResults(data, names, flatteners, fmt);
      var rows := MapFun(fun, PlainRows(results));
      && (!HasMultiTable(results) && |rows| == 0 ==> u == Multiple([]))
      && (!HasMultiTable(results) && |rows| > 0 ==> u == Single(FileUpload(filename, CsvText(RowRecords(rows), fmt))))
      && (HasMultiTable(results) ==>
            u == Wrap(TableFiles(results, AllTableKeys(results), BaseFilename(filename), fun, fmt)))
  {
    var results := CollectResults(data, names, flatteners, fmt);
    if !HasMultiTable(results) {
      var rows := MapFun(fun, PlainRows(results));
      if |rows| == 0 {
        return Multiple([]);
      }
      var content := ConvertArrayOfObjectsToCSV(RowRecords(rows), fmt);
      return Single(FileUpload(filename, content));
    }
    var files := WriteTables(results, AllTableKeys(results), BaseFilename(filename), fun, fmt);
    u := Wrap(files);
  }

  // ---------------------------------------------------------------------------
  // Session directory names

  /** `${base}_${n}`. */
  function Suffixed(base: string, n: nat): string
  {
    base + "_" + NatToString(n)
  }

  lemma SuffixedInjective(base: string, a: nat, b: nat)
    requires Suffixed(base, a) == Suffixed(base, b)
    ensures a == b
  {
    assert NatToString(a) == Suffixed(base, a)[|base| + 1..];
    assert NatToString(b) == Suffixed(base, b)[|base| + 1..];
    NatToStringInjective(a, b);
  }

  /** The suffixed names tried before counter c. */
  ghost function Tried(base: string, c: nat): set<string>
  {
    set j: nat | 1 <= j < c :: Suffixed(base, j)
  }

  /** Raising the counter by one tries one more name, and a new one. */
  lemma TriedStep(base: string, c: nat)
    requires c > 1
    ensures Tried(base, c) == Tried(base, c - 1) + {Suffixed(base, c - 1)}
    ensures Suffixed(base, c - 1) !in Tried(base, c - 1)
  {
    var t, t' := Tried(base, c), Tried(base, c - 1);
    forall x | x in t ensures x in t' + {Suffixed(base, c - 1)} {
      var j: nat :| 1 <= j < c && Suffixed(base, j) == x;
      if j < c - 1 { assert x in t'; }
    }
    if Suffixed(base, c - 1) in t' {
      var j: nat :| 1 <= j < c - 1 && Suffixed(base, j) == Suffixed(base, c - 1);
      SuffixedInjective(base, j, c - 1);
    }
  }

  lemma {:induction false} TriedSize(base: string, c: nat)
    requires c >= 1
    ensures |Tried(base, c)| == c - 1
  {
    if c > 1 {
      TriedSize(base, c - 1);
      TriedStep(base, c);
    } else {
      assert Tried(base, c) == {};
    }
  }

  /**
   * `getUniqueDirectoryName` over the finite set of existing directories: the base
   * name when it is free, else `base_k` for the least k >= 1 that is free.
   */
  method GetUniqueDirectoryName(existing: set<string>, base: string) returns (name: string)
    ensures name !in existing
    ensures base !in existing ==> name == base
    ensures base in existing ==>
      exists k: nat :: 1 <= k && name == Suffixed(base, k) && forall j: nat :: 1 <= j < k ==> Suffixed(base, j) in existing
  {
    name := base;
    if base in existing {
      var counter: nat := 1;
      name := Suffixed(base, counter);
      while name in existing
        invariant counter >= 1 && name == Suffixed(base, counter)
        invariant forall j: nat :: 1 <= j < counter ==> Suffixed(base, j) in existing
        invariant counter - 1 <= |existing|
        decreases |existing| - (counter - 1)
      {
        ghost var tried := Tried(base, counter + 1);
        assert tried <= existing;
        assert existing == tried + (existing - tried);
        TriedSize(base, counter + 1);
        counter := counter + 1;
        name := Suffixed(base, counter);
      }
    }
  }

  // ---------------------------------------------------------------------------
  // Session parameters

  /** A parameter description that has a `defaultValue`. */
  predicate HasDefault(details: Value)
  {
    Truthy(details) && IsObject(details) && HasKey(Entries(details), "defaultValue")
  }

  /** `paramDetails.value ?? paramDetails.defaultValue`. */
  function ChosenValue(details: Value): Value
  {
    var v := Get(Entries(details), "value");
    if Nullish(v) then Get(Entries(details), "defaultValue") else v
  }

  /** One `[paramName, paramDetails]` step of the reduction. */
  function ParamStep(acc: Record, e: Field): Record
  {
    if HasDefault(e.val) then Put(acc, e.key, ChosenValue(e.val)) else acc
  }

  function ReduceParams(acc: Record, es: Record): Record
    decreases |es|
  {
    if |es| == 0 then acc else ReduceParams(ParamStep(acc, es[0]), es[1..])
  }

  /** `data?.[0]?.responseData?.params`. */
  function ParamsSource(data: seq<Record>): Value
  {
    if |data| == 0 then Undefined else Get(Entries(Get(data[0], "responseData")), "params")
  }

  /** The session `paramsDict`. */
  function ParamsDict(data: seq<Record>): Record
  {
    var src := ParamsSource(data);
    if Truthy(src) && IsObject(src) then ReduceParams([], Entries(src)) else []
  }

  lemma {:induction false} ReduceParamsGet(acc: Record, es: Record, k: string)
    requires WellFormed(es)
    ensures HasKey(ReduceParams(acc, es), k) <==> HasKey(acc, k) || (HasKey(es, k) && HasDefault(Get(es, k)))
    ensures Get(ReduceParams(acc, es), k) == if HasKey(es, k) && HasDefault(Get(es, k)) then ChosenValue(Get(es, k)) else Get(acc, k)
    decreases |es|
  {
    if |es| > 0 {
      assert Keys(es) == [es[0].key] + Keys(es[1..]);
      ReduceParamsGet(ParamStep(acc, es[0]), es[1..], k);
    }
  }

  /**
   * A parameter enters the dictionary exactly when its description has a
   * `defaultValue`, and its value is `value ?? defaultValue`.
   */
  lemma ParamsDictGet(data: seq<Record>, k: string)
    requires ParamsSource(data).Obj? ==> WellFormed(ParamsSource(data).fields)
    ensures var src := ParamsSource(data);
      var es := Entries(src);
      && (HasKey(ParamsDict(data), k) <==> IsObject(src) && HasKey(es, k) && HasDefault(Get(es, k)))
      && (HasKey(ParamsDict(data), k) ==> Get(ParamsDict(data), k) == ChosenValue(Get(es, k)))
  {
    var src := ParamsSource(data);
    if IsObject(src) {
      EntriesWellFormed(src);
      ReduceParamsGet([], Entries(src), k);
    }
  }
}

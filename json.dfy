/**
 * The dynamically typed values the library passes around: trial records, response
 * payloads, store entries and CSV rows. An object is an ordered list of fields,
 * because both CSV writers rely on the key order of JavaScript objects for their
 * header row. JavaScript lists integer-like keys ("2", "10") first, in ascending
 * order, and other string keys in first-insertion order; this model keeps every
 * key in first-insertion order.
 */
module Json {
  import opened Strings

  datatype Value =
    | Undefined
    | Null
    | Bool(b: bool)
    | Num(n: real)
    | Str(s: string)
    | Arr(elems: seq<Value>)
    | Obj(fields: seq<Field>)

  datatype Field = Field(key: string, val: Value)

  /** A plain object: its own enumerable fields in insertion order. */
  type Record = seq<Field>

  /** The experiment store: a string-keyed dictionary whose order nobody observes. */
  type Store = map<string, Value>

  function Keys(r: Record): (ks: seq<string>)
    ensures |ks| == |r|
    ensures forall i :: 0 <= i < |r| ==> ks[i] == r[i].key
  {
    if |r| == 0 then [] else [r[0].key] + Keys(r[1..])
  }

  predicate HasKey(r: Record, k: string)
  {
    k in Keys(r)
  }

  lemma KeysCons(f: Field, t: Record, j: string)
    ensures Keys([f] + t) == [f.key] + Keys(t)
    ensures HasKey([f] + t, j) <==> j == f.key || HasKey(t, j)
  {
    assert ([f] + t)[1..] == t;
  }

  /** A record built by JavaScript never holds a key twice. */
  predicate WellFormed(r: Record)
  {
    |r| == 0 || (!HasKey(r[1..], r[0].key) && WellFormed(r[1..]))
  }

  /** `r[k]`: the value stored under k, or undefined. */
  function Get(r: Record, k: string): (v: Value)
    ensures !HasKey(r, k) ==> v == Undefined
  {
    if |r| == 0 then Undefined
    else if r[0].key == k then r[0].val
    else Get(r[1..], k)
  }

  /** In a well-formed record each field is found under its own key. */
  lemma {:induction false} GetAt(r: Record, i: nat)
    requires WellFormed(r) && i < |r|
    ensures Get(r, r[i].key) == r[i].val
  {
    if i > 0 {
      assert Keys(r[1..])[i - 1] == r[i].key;
      GetAt(r[1..], i - 1);
    }
  }

  /** `r[k] = v`: an existing key keeps its position, a new key goes last. */
  function Put(r: Record, k: string, v: Value): (r': Record)
    ensures Get(r', k) == v
    ensures forall j :: j != k ==> Get(r', j) == Get(r, j)
    ensures Keys(r') == if HasKey(r, k) then Keys(r) else Keys(r) + [k]
    ensures WellFormed(r) ==> WellFormed(r')
  {
    if |r| == 0 then [Field(k, v)]
    else if r[0].key == k then
      assert ([Field(k, v)] + r[1..])[1..] == r[1..];
      [Field(k, v)] + r[1..]
    else
      var t := Put(r[1..], k, v);
      PutCons(r[0], r[1..], t, k, v);
      assert [r[0]] + r[1..] == r;
      [r[0]] + t
  }

  /** After `r[k] = v` the keys are those of r and k. */
  lemma PutHasKey(r: Record, k: string, v: Value, j: string)
    ensures HasKey(Put(r, k, v), j) <==> HasKey(r, j) || j == k
  {
  }

  /** Putting into the tail of a record whose head has another key. */
  lemma PutCons(f: Field, rest: Record, t: Record, k: string, v: Value)
    requires f.key != k
    requires Get(t, k) == v && forall j :: j != k ==> Get(t, j) == Get(rest, j)
    requires Keys(t) == if HasKey(rest, k) then Keys(rest) else Keys(rest) + [k]
    requires WellFormed(rest) ==> WellFormed(t)
    ensures Get([f] + t, k) == v
    ensures forall j :: j != k ==> Get([f] + t, j) == Get([f] + rest, j)
    ensures Keys([f] + t) == if HasKey([f] + rest, k) then Keys([f] + rest) else Keys([f] + rest) + [k]
    ensures WellFormed([f] + rest) ==> WellFormed([f] + t)
  {
    forall j ensures Get([f] + t, j) == if j == f.key then f.val else Get(t, j) {
      ConsGet(f, t, j);
    }
    forall j ensures Get([f] + rest, j) == if j == f.key then f.val else Get(rest, j) {
      ConsGet(f, rest, j);
    }
    ConsWellFormed(f, t);
    ConsWellFormed(f, rest);
    PutConsKeys(f, rest, t, k);
  }

  lemma ConsGet(f: Field, t: Record, j: string)
    ensures Get([f] + t, j) == if j == f.key then f.val else Get(t, j)
  {
    assert ([f] + t)[1..] == t;
  }

  lemma ConsWellFormed(f: Field, t: Record)
    ensures WellFormed([f] + t) <==> !HasKey(t, f.key) && WellFormed(t)
  {
    assert ([f] + t)[1..] == t;
  }

  lemma PutConsKeys(f: Field, rest: Record, t: Record, k: string)
    requires f.key != k
    requires Keys(t) == if HasKey(rest, k) then Keys(rest) else Keys(rest) + [k]
    ensures Keys([f] + t) == if HasKey([f] + rest, k) then Keys([f] + rest) else Keys([f] + rest) + [k]
    ensures HasKey(t, f.key) <==> HasKey(rest, f.key)
  {
    KeysCons(f, t, k);
    KeysCons(f, rest, k);
    if !HasKey(rest, k) {
      assert [f.key] + (Keys(rest) + [k]) == ([f.key] + Keys(rest)) + [k];
    }
  }

  /** `{...a, ...b}`: the fields of b assigned one by one onto a copy of a. */
  function Spread(a: Record, b: Record): (r: Record)
    ensures WellFormed(a) ==> WellFormed(r)
    ensures |b| == 0 ==> r == a
    decreases |b|
  {
    if |b| == 0 then a
    else Spread(Put(a, b[0].key, b[0].val), b[1..])
  }

  /** `{...a, ...b}` has exactly the keys of a and of b. */
  lemma {:induction false} SpreadHasKey(a: Record, b: Record, k: string)
    ensures HasKey(Spread(a, b), k) <==> HasKey(a, k) || HasKey(b, k)
    decreases |b|
  {
    if |b| > 0 {
      assert Keys(b) == [b[0].key] + Keys(b[1..]);
      var a' := Put(a, b[0].key, b[0].val);
      SpreadHasKey(a', b[1..], k);
      assert HasKey(a', k) <==> HasKey(a, k) || k == b[0].key;
    }
  }

  /** In `{...a, ...b}` the fields of b win and the others are those of a. */
  lemma {:induction false} SpreadGet(a: Record, b: Record, k: string)
    requires WellFormed(b)
    ensures Get(Spread(a, b), k) == if HasKey(b, k) then Get(b, k) else Get(a, k)
    decreases |b|
  {
    if |b| > 0 {
      assert Keys(b) == [b[0].key] + Keys(b[1..]);
      SpreadGet(Put(a, b[0].key, b[0].val), b[1..], k);
    }
  }

  /** `const {k, ...rest} = r`: the record without key k, order kept. */
  function Remove(r: Record, k: string): (r': Record)
    ensures !HasKey(r', k)
    ensures forall j :: j != k ==> Get(r', j) == Get(r, j)
    ensures forall j :: HasKey(r', j) ==> HasKey(r, j) && j != k
    ensures WellFormed(r) ==> WellFormed(r')
  {
    if |r| == 0 then []
    else if r[0].key == k then Remove(r[1..], k)
    else
      var t := Remove(r[1..], k);
      assert ([r[0]] + t)[1..] == t;
      assert Keys(r) == [r[0].key] + Keys(r[1..]);
      assert forall j :: HasKey([r[0]] + t, j) <==> j == r[0].key || HasKey(t, j) by {
        forall j { KeysCons(r[0], t, j); }
      }
      [r[0]] + t
  }

  /** Removing k keeps every other key. */
  lemma {:induction false} RemoveKeeps(r: Record, k: string, j: string)
    requires HasKey(r, j) && j != k
    ensures HasKey(Remove(r, k), j)
  {
    assert Keys(r) == [r[0].key] + Keys(r[1..]);
    if r[0].key != j {
      RemoveKeeps(r[1..], k, j);
      var t := Remove(r[1..], k);
      if r[0].key != k {
        assert Keys([r[0]] + t) == [r[0].key] + Keys(t);
      }
    } else {
      var t := Remove(r[1..], k);
      assert ([r[0]] + t)[1..] == t;
      assert Keys([r[0]] + t)[0] == j;
    }
  }

  /** The dictionary view of a record. */
  function ToMap(r: Record): (m: Store)
    ensures forall k :: k in m <==> HasKey(r, k)
    ensures forall k :: k in m ==> m[k] == Get(r, k)
  {
    map k | k in Keys(r) :: Get(r, k)
  }

  /** Own enumerable entries, as `Object.entries` or an object spread reads them. */
  function Entries(v: Value): (r: Record)
    ensures v.Obj? ==> r == v.fields
    ensures v.Arr? ==> |r| == |v.elems| && forall i :: 0 <= i < |r| ==> r[i] == Field(NatToString(i), v.elems[i])
    ensures !v.Obj? && !v.Arr? && !v.Str? ==> r == []
  {
    match v
    case Obj(fs) => fs
    case Arr(es) => seq(|es|, i requires 0 <= i < |es| => Field(NatToString(i), es[i]))
    case Str(s) => seq(|s|, i requires 0 <= i < |s| => Field(NatToString(i), Str([s[i]])))
    case _ => []
  }

  /** Pairwise distinct keys make a well-formed record. */
  lemma {:induction false} DistinctKeysWellFormed(r: Record)
    requires forall i, j :: 0 <= i < j < |r| ==> r[i].key != r[j].key
    ensures WellFormed(r)
  {
    if |r| > 0 {
      DistinctKeysWellFormed(r[1..]);
    }
  }

  /** Index-keyed entries never repeat a key. */
  lemma EntriesWellFormed(v: Value)
    requires v.Obj? ==> WellFormed(v.fields)
    ensures WellFormed(Entries(v))
  {
    var r := Entries(v);
    if v.Arr? || v.Str? {
      forall i, j | 0 <= i < j < |r| ensures r[i].key != r[j].key {
        if r[i].key == r[j].key { NatToStringInjective(i, j); }
      }
      DistinctKeysWellFormed(r);
    }
  }

  /** JavaScript truthiness (NaN is not modelled). */
  predicate Truthy(v: Value)
  {
    match v
    case Undefined => false
    case Null => false
    case Bool(b) => b
    case Num(n) => n != 0.0
    case Str(s) => s != ""
    case _ => true
  }

  /** The left operand of `??` is replaced when it is null or undefined. */
  predicate Nullish(v: Value)
  {
    v.Undefined? || v.Null?
  }

  /** `typeof v === 'object' && v !== null`. */
  predicate IsObject(v: Value)
  {
    v.Arr? || v.Obj?
  }

  /** `String(v)`; numbers are rendered by fmt, the engine's number formatting. */
  function ToJsString(v: Value, fmt: real -> string): string
  {
    match v
    case Undefined => "undefined"
    case Null => "null"
    case Bool(b) => if b then "true" else "false"
    case Num(n) => fmt(n)
    case Str(s) => s
    case Arr(es) =>
      Join(seq(|es|, i requires 0 <= i < |es| => if Nullish(es[i]) then "" else ToJsString(es[i], fmt)), ",")
    case Obj(_) => "[object Object]"
  }
}

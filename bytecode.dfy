/**
 * The timeline compiler of src/utils/bytecode.ts. A nested timeline of markers,
 * conditional jumps, store updates, if-blocks, while-blocks and content items is
 * flattened into a linear list of ExecuteContent / IfGoto / UpdateStore instructions
 * and a table from marker names to instruction indices.
 *
 * The compiler never looks inside content, so the content type C is a parameter:
 * the main runner compiles JSON-like component descriptions, the canvas block
 * compiles slides.
 */
module Bytecode {
  import opened Strings
  import opened Json

  /** A condition as the experiment author writes it: `(data, store) => boolean`. */
  type UserCond = (seq<Record>, Store) -> bool
  /** A store update as the author writes it; it may return anything. */
  type UserUpdate = (seq<Record>, Store) -> Value

  /** A condition as the interpreters call it: `(store, data) => boolean`. */
  type Cond = (Store, seq<Record>) -> bool
  /** A store update as the interpreters call it: it returns the whole new store. */
  type Update = (Store, seq<Record>) -> Store

  datatype Item<C> =
    | Marker(id: string)
    | IfGotoItem(cond: UserCond, marker: string)
    | UpdateStoreItem(fun: UserUpdate)
    | IfBlock(cond: UserCond, timeline: seq<Item<C>>)
    | WhileBlock(cond: UserCond, timeline: seq<Item<C>>)
    /** Anything that is not an object tagged with one of the five control-flow types. */
    | Content(content: C)

  datatype Instr<C> =
    | ExecuteContent(content: C)
    | IfGoto(cond: Cond, marker: string)
    | UpdateStore(fun: Update)
    /** An instruction of any other type; the compiler never emits one. */
    | Unknown

  datatype Program<C> = Program(instructions: seq<Instr<C>>, markers: map<string, nat>)

  /** The compiler's mutable state: the instruction list, the marker table, the label counter. */
  datatype State<C> = State(instructions: seq<Instr<C>>, markers: map<string, nat>, counter: nat)

  const IfEnd: string := "if_end"
  const WhileStart: string := "while_start"
  const WhileEnd: string := "while_end"

  predicate AutoPrefix(p: string)
  {
    p == IfEnd || p == WhileStart || p == WhileEnd
  }

  /** `user_<id>`: the name under which a user marker is stored and jumped to. */
  function UserLabel(id: string): string
  {
    "user_" + id
  }

  /** `<prefix>_auto_<n>`: a synthetic label. */
  function Label(prefix: string, n: nat): string
  {
    prefix + "_auto_" + NatToString(n)
  }

  lemma LabelHead(p: string, n: nat)
    requires AutoPrefix(p)
    ensures Label(p, n)[0] == p[0] && Label(p, n)[6] == (p + "_")[6]
  {
  }

  /** Synthetic labels with the compiler's prefixes determine their prefix and number. */
  lemma LabelInjective(p: string, n: nat, q: string, m: nat)
    requires AutoPrefix(p) && AutoPrefix(q)
    requires Label(p, n) == Label(q, m)
    ensures p == q && n == m
  {
    if p == q {
      var s := Label(p, n);
      assert NatToString(n) == s[|p| + 6..] == NatToString(m);
      NatToStringInjective(n, m);
    } else {
      LabelHead(p, n);
      LabelHead(q, m);
    }
  }

  /** No synthetic label can be captured by a user marker. */
  lemma LabelNotUser(p: string, n: nat, id: string)
    requires AutoPrefix(p)
    ensures Label(p, n) != UserLabel(id)
  {
    assert Label(p, n)[0] == p[0] != 'u' == UserLabel(id)[0];
  }

  /** `adaptCondition`: the author's condition with its arguments swapped. */
  function AdaptCondition(cond: UserCond): (c: Cond)
    ensures forall store, data :: c(store, data) == cond(data, store)
  {
    (store: Store, data: seq<Record>) => cond(data, store)
  }

  function Negate(c: Cond): (n: Cond)
  {
    (store: Store, data: seq<Record>) => !c(store, data)
  }

  /** The back-jump of a while-block: `() => true`. */
  function Always(): (c: Cond)
  {
    (store: Store, data: seq<Record>) => true
  }

  /** `{...store, ...updates}` when the update is a non-null object, else the store. */
  function AdaptUpdate(fun: UserUpdate): (u: Update)
    ensures forall store, data, k :: k in u(store, data) <==>
      k in store || (IsObject(fun(data, store)) && HasKey(Entries(fun(data, store)), k))
  {
    assert forall store, data, k :: k in Assign(store, Entries(fun(data, store))) <==>
      k in store || HasKey(Entries(fun(data, store)), k);
    (store: Store, data: seq<Record>) =>
      var updates := fun(data, store);
      if IsObject(updates) then Assign(store, Entries(updates)) else store
  }

  /** Assigns the fields of r onto m, in order: the object-spread semantics. */
  function Assign(m: Store, r: Record): (m': Store)
    ensures forall k :: k in m' <==> k in m || HasKey(r, k)
    decreases |r|
  {
    if |r| == 0 then m
    else
      assert Keys(r) == [r[0].key] + Keys(r[1..]);
      Assign(m[r[0].key := r[0].val], r[1..])
  }

  /** For a record without repeated keys, spreading is map union with the record winning. */
  lemma {:induction false} AssignIsUnion(m: Store, r: Record)
    requires WellFormed(r)
    ensures Assign(m, r) == m + ToMap(r)
    decreases |r|
  {
    if |r| > 0 {
      assert Keys(r) == [r[0].key] + Keys(r[1..]);
      var k0, v0 := r[0].key, r[0].val;
      var t := ToMap(r[1..]);
      AssignIsUnion(m[k0 := v0], r[1..]);
      ToMapCons(r);
      UpdateThenUnion(m, t, k0, v0);
    }
  }

  lemma UpdateThenUnion(m: Store, t: Store, k: string, v: Value)
    requires k !in t
    ensures m[k := v] + t == m + t[k := v]
  {
  }

  lemma ToMapCons(r: Record)
    requires |r| > 0 && WellFormed(r)
    ensures ToMap(r) == ToMap(r[1..])[r[0].key := r[0].val]
  {
    var m, t := ToMap(r), ToMap(r[1..])[r[0].key := r[0].val];
    assert Keys(r) == [r[0].key] + Keys(r[1..]);
    assert m.Keys == t.Keys;
    forall k | k in m
      ensures m[k] == t[k]
    {
      if k != r[0].key {
        assert Get(r, k) == Get(r[1..], k);
      }
    }
  }

  /** A non-object update leaves the store as it was. */
  lemma AdaptUpdateNonObject(fun: UserUpdate, store: Store, data: seq<Record>)
    requires !IsObject(fun(data, store))
    ensures AdaptUpdate(fun)(store, data) == store
  {
  }

  /** An object update keeps every store key and every update key, the update winning. */
  lemma AdaptUpdateObject(fun: UserUpdate, store: Store, data: seq<Record>)
    requires fun(data, store).Obj? && WellFormed(fun(data, store).fields)
    ensures AdaptUpdate(fun)(store, data) == store + ToMap(fun(data, store).fields)
  {
    AssignIsUnion(store, fun(data, store).fields);
  }

  /** How many instructions an item emits. */
  function Count<C>(item: Item<C>): nat
    decreases item, 1
  {
    match item
    case Marker(_) => 0
    case IfBlock(_, body) => 1 + CountSeq(body)
    case WhileBlock(_, body) => 2 + CountSeq(body)
    case _ => 1
  }

  function CountSeq<C>(items: seq<Item<C>>): nat
    decreases items, 0
  {
    if |items| == 0 then 0 else Count(items[0]) + CountSeq(items[1..])
  }

  /** How many synthetic labels an item draws from the counter. */
  function Autos<C>(item: Item<C>): nat
    decreases item, 1
  {
    match item
    case IfBlock(_, body) => 1 + AutosSeq(body)
    case WhileBlock(_, body) => 2 + AutosSeq(body)
    case _ => 0
  }

  function AutosSeq<C>(items: seq<Item<C>>): nat
    decreases items, 0
  {
    if |items| == 0 then 0 else Autos(items[0]) + AutosSeq(items[1..])
  }

  /** The effect of one item of `processTimeline`'s loop on the compiler state. */
  function ProcessItem<C>(item: Item<C>, s: State<C>): (r: State<C>)
    ensures |r.instructions| == |s.instructions| + Count(item)
    ensures r.instructions[..|s.instructions|] == s.instructions
    ensures r.counter == s.counter + Autos(item)
    decreases item, 1
  {
    match item
    case Marker(id) =>
      s.(markers := s.markers[UserLabel(id) := |s.instructions|])
    case IfGotoItem(cond, m) =>
      s.(instructions := s.instructions + [IfGoto(AdaptCondition(cond), UserLabel(m))])
    case UpdateStoreItem(fun) =>
      s.(instructions := s.instructions + [UpdateStore(AdaptUpdate(fun))])
    case IfBlock(cond, body) =>
      var endMarker := Label(IfEnd, s.counter);
      var s1 := State(s.instructions + [IfGoto(Negate(AdaptCondition(cond)), endMarker)], s.markers, s.counter + 1);
      var s2 := Process(body, s1);
      assert s2.instructions[..|s.instructions|] == s2.instructions[..|s1.instructions|][..|s.instructions|];
      s2.(markers := s2.markers[endMarker := |s2.instructions|])
    case WhileBlock(cond, body) =>
      var startMarker := Label(WhileStart, s.counter);
      var endMarker := Label(WhileEnd, s.counter + 1);
      var s1 := State(s.instructions + [IfGoto(Negate(AdaptCondition(cond)), endMarker)],
                      s.markers[startMarker := |s.instructions|], s.counter + 2);
      var s2 := Process(body, s1);
      var s3 := s2.(instructions := s2.instructions + [IfGoto(Always(), startMarker)]);
      assert s3.instructions[..|s.instructions|] == s2.instructions[..|s1.instructions|][..|s.instructions|];
      s3.(markers := s3.markers[endMarker := |s3.instructions|])
    case Content(c) =>
      s.(instructions := s.instructions + [ExecuteContent(c)])
  }

  /** `processTimeline(items)`: the items processed in order. */
  function Process<C>(items: seq<Item<C>>, s: State<C>): (r: State<C>)
    ensures |r.instructions| == |s.instructions| + CountSeq(items)
    ensures r.instructions[..|s.instructions|] == s.instructions
    ensures r.counter == s.counter + AutosSeq(items)
    decreases items, 0
  {
    if |items| == 0 then s
    else
      var s1 := ProcessItem(items[0], s);
      var r := Process(items[1..], s1);
      assert r.instructions[..|s.instructions|] == r.instructions[..|s1.instructions|][..|s.instructions|];
      r
  }

  /** `compileTimeline(timeline)`. */
  function Compile<C>(timeline: seq<Item<C>>): (p: Program<C>)
    ensures |p.instructions| == CountSeq(timeline)
  {
    var s := Process(timeline, State([], map[], 0));
    Program(s.instructions, s.markers)
  }

  predicate MarkersWithin<C>(s: State<C>)
  {
    forall k :: k in s.markers ==> s.markers[k] <= |s.instructions|
  }

  /** Markers record the current length and the list only grows: no marker points past the end. */
  lemma {:induction false} ProcessMarkersWithin<C>(items: seq<Item<C>>, s: State<C>)
    requires MarkersWithin(s)
    ensures MarkersWithin(Process(items, s))
    decreases items, 0
  {
    if |items| > 0 {
      ItemMarkersWithin(items[0], s);
      ProcessMarkersWithin(items[1..], ProcessItem(items[0], s));
    }
  }

  lemma {:induction false} ItemMarkersWithin<C>(item: Item<C>, s: State<C>)
    requires MarkersWithin(s)
    ensures MarkersWithin(ProcessItem(item, s))
    decreases item, 1
  {
    match item
    case IfBlock(cond, body) =>
      var endMarker := Label(IfEnd, s.counter);
      var s1 := State(s.instructions + [IfGoto(Negate(AdaptCondition(cond)), endMarker)], s.markers, s.counter + 1);
      ProcessMarkersWithin(body, s1);
    case WhileBlock(cond, body) =>
      var startMarker := Label(WhileStart, s.counter);
      var endMarker := Label(WhileEnd, s.counter + 1);
      var s1 := State(s.instructions + [IfGoto(Negate(AdaptCondition(cond)), endMarker)],
                      s.markers[startMarker := |s.instructions|], s.counter + 2);
      ProcessMarkersWithin(body, s1);
    case _ =>
  }

  /** Every marker of a compiled program is an index in 0..|instructions|. */
  lemma CompileMarkersWithin<C>(timeline: seq<Item<C>>)
    ensures forall k :: k in Compile(timeline).markers ==>
      Compile(timeline).markers[k] <= |Compile(timeline).instructions|
  {
    ProcessMarkersWithin(timeline, State([], map[], 0));
  }

  /** The entry of a synthetic label drawn before processing started is never touched again. */
  lemma {:induction false} ProcessKeepsLabel<C>(items: seq<Item<C>>, s: State<C>, p: string, n: nat)
    requires AutoPrefix(p) && n < s.counter
    ensures var key := Label(p, n);
      (key in Process(items, s).markers <==> key in s.markers) &&
      (key in s.markers ==> Process(items, s).markers[key] == s.markers[key])
    decreases items, 0
  {
    if |items| > 0 {
      ItemKeepsLabel(items[0], s, p, n);
      ProcessKeepsLabel(items[1..], ProcessItem(items[0], s), p, n);
    }
  }

  lemma {:induction false} ItemKeepsLabel<C>(item: Item<C>, s: State<C>, p: string, n: nat)
    requires AutoPrefix(p) && n < s.counter
    ensures var key := Label(p, n);
      (key in ProcessItem(item, s).markers <==> key in s.markers) &&
      (key in s.markers ==> ProcessItem(item, s).markers[key] == s.markers[key])
    decreases item, 1
  {
    var key := Label(p, n);
    match item
    case Marker(id) =>
      LabelNotUser(p, n, id);
    case IfBlock(cond, body) =>
      var endMarker := Label(IfEnd, s.counter);
      var s1 := State(s.instructions + [IfGoto(Negate(AdaptCondition(cond)), endMarker)], s.markers, s.counter + 1);
      ProcessKeepsLabel(body, s1, p, n);
      if key == endMarker { LabelInjective(p, n, IfEnd, s.counter); }
    case WhileBlock(cond, body) =>
      var startMarker := Label(WhileStart, s.counter);
      var endMarker := Label(WhileEnd, s.counter + 1);
      var s1 := State(s.instructions + [IfGoto(Negate(AdaptCondition(cond)), endMarker)],
                      s.markers[startMarker := |s.instructions|], s.counter + 2);
      if key == startMarker { LabelInjective(p, n, WhileStart, s.counter); }
      if key == endMarker { LabelInjective(p, n, WhileEnd, s.counter + 1); }
      ProcessKeepsLabel(body, s1, p, n);
    case _ =>
  }

  /**
   * IF_BLOCK: a jump on the negated condition to a fresh `if_end_auto_k` label at
   * position p, then the body, and the label marks the instruction right after the body.
   */
  lemma IfBlockShape<C>(cond: UserCond, body: seq<Item<C>>, s: State<C>)
    ensures var r := ProcessItem(IfBlock(cond, body), s);
      var endMarker := Label(IfEnd, s.counter);
      && r.instructions[|s.instructions|] == IfGoto(Negate(AdaptCondition(cond)), endMarker)
      && endMarker in r.markers
      && r.markers[endMarker] == |r.instructions| == |s.instructions| + 1 + CountSeq(body)
  {
    var s1 := State(s.instructions + [IfGoto(Negate(AdaptCondition(cond)), Label(IfEnd, s.counter))], s.markers, s.counter + 1);
    var s2 := Process(body, s1);
    assert s2.instructions[|s.instructions|] == s2.instructions[..|s1.instructions|][|s.instructions|];
  }

  /**
   * WHILE_BLOCK: the start label marks the negated guard, the body is followed by an
   * unconditional jump back to the start label, and the end label marks the
   * instruction after that jump. Nothing in the body moves the start label.
   */
  lemma WhileBlockShape<C>(cond: UserCond, body: seq<Item<C>>, s: State<C>)
    ensures var r := ProcessItem(WhileBlock(cond, body), s);
      var startMarker := Label(WhileStart, s.counter);
      var endMarker := Label(WhileEnd, s.counter + 1);
      var back := |s.instructions| + 1 + CountSeq(body);
      && r.instructions[|s.instructions|] == IfGoto(Negate(AdaptCondition(cond)), endMarker)
      && startMarker in r.markers && r.markers[startMarker] == |s.instructions|
      && back < |r.instructions| && r.instructions[back] == IfGoto(Always(), startMarker)
      && endMarker in r.markers && r.markers[endMarker] == |r.instructions| == back + 1
  {
    var startMarker := Label(WhileStart, s.counter);
    var endMarker := Label(WhileEnd, s.counter + 1);
    var s1 := State(s.instructions + [IfGoto(Negate(AdaptCondition(cond)), endMarker)],
                    s.markers[startMarker := |s.instructions|], s.counter + 2);
    var s2 := Process(body, s1);
    var s3 := s2.(instructions := s2.instructions + [IfGoto(Always(), startMarker)]);
    var r := s3.(markers := s3.markers[endMarker := |s3.instructions|]);
    assert ProcessItem(WhileBlock(cond, body), s) == r;
    assert s2.instructions[|s.instructions|] == s2.instructions[..|s1.instructions|][|s.instructions|];
    assert r.instructions[|s.instructions|] == s2.instructions[|s.instructions|];
    ProcessKeepsLabel(body, s1, WhileStart, s.counter);
    if startMarker == endMarker { LabelInjective(WhileStart, s.counter, WhileEnd, s.counter + 1); }
    assert r.markers[startMarker] == s2.markers[startMarker];
  }

  /**
   * The compiler's working state. `processTimeline` pushes onto `instructions`, writes
   * into `markers` and draws synthetic labels from `counter`, recursing into blocks.
   */
  class Compiler<C> {
    var instructions: seq<Instr<C>>
    var markers: map<string, nat>
    var counter: nat

    function Current(): State<C>
      reads this
    {
      State(instructions, markers, counter)
    }

    constructor ()
      ensures Current() == State([], map[], 0)
    {
      instructions, markers, counter := [], map[], 0;
    }

    /** `getUniqueMarker(prefix)`: the label for the current counter, which then moves on. */
    method GetUniqueMarker(prefix: string) returns (name: string)
      modifies this
      ensures name == Label(prefix, old(counter))
      ensures Current() == old(Current()).(counter := old(counter) + 1)
    {
      name := Label(prefix, counter);
      counter := counter + 1;
    }

    method ProcessTimeline(items: seq<Item<C>>)
      modifies this
      ensures Current() == Process(items, old(Current()))
      decreases items, 0
    {
      for i := 0 to |items|
        invariant Process(items[i..], Current()) == Process(items, old(Current()))
      {
        assert items[i..][0] == items[i] && items[i..][1..] == items[i + 1..];
        ProcessEntry(items[i]);
      }
    }

    /** One pass of the loop in `processTimeline`: the switch over the item's kind. */
    method ProcessEntry(item: Item<C>)
      modifies this
      ensures Current() == ProcessItem(item, old(Current()))
      decreases item, 1
    {
      match item
      case Marker(id) =>
        markers := markers[UserLabel(id) := |instructions|];
      case IfGotoItem(cond, marker) =>
        instructions := instructions + [IfGoto(AdaptCondition(cond), UserLabel(marker))];
      case UpdateStoreItem(fun) =>
        instructions := instructions + [UpdateStore(AdaptUpdate(fun))];
      case IfBlock(cond, body) =>
        var endMarker := GetUniqueMarker(IfEnd);
        instructions := instructions + [IfGoto(Negate(AdaptCondition(cond)), endMarker)];
        ProcessTimeline(body);
        markers := markers[endMarker := |instructions|];
      case WhileBlock(cond, body) =>
        var startMarker := GetUniqueMarker(WhileStart);
        var endMarker := GetUniqueMarker(WhileEnd);
        markers := markers[startMarker := |instructions|];
        instructions := instructions + [IfGoto(Negate(AdaptCondition(cond)), endMarker)];
        ProcessTimeline(body);
        instructions := instructions + [IfGoto(Always(), startMarker)];
        markers := markers[endMarker := |instructions|];
      case Content(c) =>
        instructions := instructions + [ExecuteContent(c)];
    }
  }

  /** `compileTimeline(timeline)`: a fresh compiler run over the whole timeline. */
  method CompileTimeline<C>(timeline: seq<Item<C>>) returns (p: Program<C>)
    ensures p == Compile(timeline)
  {
    var compiler := new Compiler<C>();
    compiler.ProcessTimeline(timeline);
    p := Program(compiler.instructions, compiler.markers);
  }
}

/**
 * The main experiment runner of src/components/experimentrunner.tsx. Content items
 * are JSON-like component descriptions `{type, name?, props?}`; the runner keeps an
 * instruction pointer, the result log, the number of completed trials, the end time
 * of the last trial and the experiment store.
 */
module Runner {
  import opened Wrappers
  import opened Json
  import opened Bytecode
  import opened Interp

  /** `isRuntimeComponentContent`: a non-null object whose `type` is a string. */
  predicate IsComponent(content: Value)
  {
    content.Obj? && Get(content.fields, "type").Str?
  }

  /** The main runner stops at every content instruction. */
  predicate AnyContent(content: Value, store: Store)
  {
    true
  }

  /** Whether finishing the instruction at `pointer` appends a trial record. */
  predicate Records(p: Program<Value>, pointer: nat)
  {
    pointer < |p.instructions| && p.instructions[pointer].ExecuteContent?
    && IsComponent(p.instructions[pointer].content)
  }

  /** The record of a finished component trial of the given type and name. */
  function TrialRecord(index: nat, trialNumber: nat, start: real, end: real, kind: string, name: Value, response: Value): (r: Record)
  {
    [Field("index", Num(index as real)),
     Field("trialNumber", Num(trialNumber as real)),
     Field("start", Num(start)),
     Field("end", Num(end)),
     Field("duration", Num(end - start)),
     Field("type", Str(kind)),
     Field("name", if Nullish(name) then Str("") else name),
     Field("responseData", response)]
  }

  /** The record a component content produces: its `type` and its `name`. */
  function ContentRecord(index: nat, trialNumber: nat, start: real, end: real, content: Value, response: Value): Record
    requires IsComponent(content)
  {
    TrialRecord(index, trialNumber, start, end, Get(content.fields, "type").s, Get(content.fields, "name"), response)
  }

  /**
   * A trial record is a well-formed object: its index and trial number are the ones
   * given, its duration is end minus start, and its name is '' when the content's
   * name is null or undefined.
   */
  lemma TrialRecordFields(index: nat, trialNumber: nat, start: real, end: real, kind: string, name: Value, response: Value)
    ensures var r := TrialRecord(index, trialNumber, start, end, kind, name, response);
      && WellFormed(r)
      && Get(r, "index") == Num(index as real)
      && Get(r, "trialNumber") == Num(trialNumber as real)
      && Get(r, "duration") == Num(end - start)
      && Get(r, "type") == Str(kind)
      && Get(r, "name") == (if Nullish(name) then Str("") else name)
      && Get(r, "responseData") == response
  {
    var r := TrialRecord(index, trialNumber, start, end, kind, name, response);
    assert forall i, j :: 0 <= i < j < |r| ==> r[i].key != r[j].key;
    DistinctKeysWellFormed(r);
    GetAt(r, 0); GetAt(r, 1); GetAt(r, 4); GetAt(r, 5); GetAt(r, 6); GetAt(r, 7);
  }

  /** `progress`: pointer over instruction count, 0 for an empty program. */
  function Progress(pointer: nat, total: nat): (r: real)
    ensures total == 0 ==> r == 0.0
    ensures total > 0 ==> r * (total as real) == pointer as real
    ensures pointer <= total ==> 0.0 <= r <= 1.0
  {
    if total > 0 then (pointer as real) / (total as real) else 0.0
  }

  /** What the runner shows for the current pointer. */
  datatype Screen = Component(content: Value) | NonComponent | Finished | Blank

  /**
   * The render branch: a content instruction is shown (a component or a fallback
   * message), a pointer past the end shows an empty fragment, and any other
   * instruction shows nothing at all, with no component that could call `next`.
   */
  function Render(p: Program<Value>, pointer: nat): (s: Screen)
    ensures s.Blank? <==> pointer < |p.instructions| && !p.instructions[pointer].ExecuteContent?
  {
    if pointer < |p.instructions| && p.instructions[pointer].ExecuteContent? then
      var content := p.instructions[pointer].content;
      if IsComponent(content) then Component(content) else NonComponent
    else if pointer >= |p.instructions| then Finished
    else Blank
  }

  class Runner {
    const program: Program<Value>
    var pointer: nat
    var data: seq<Record>
    var completed: nat
    var lastTrialEnd: real
    var store: Store

    predicate Valid()
      reads this
    {
      InBounds(program)
    }

    /** Mounting the runner: the compiled timeline, pointer 0, an empty log and store. */
    constructor (timeline: seq<Item<Value>>, mountTime: real)
      ensures Valid()
      ensures program == Compile(timeline)
      ensures pointer == 0 && data == [] && completed == 0 && lastTrialEnd == mountTime && store == map[]
    {
      var p := CompileTimeline(timeline);
      CompileMarkersWithin(timeline);
      program := p;
      pointer, data, completed, lastTrialEnd, store := 0, [], 0, mountTime, map[];
    }

    /** `updateStore(update)`: update keys win over the store's. */
    method UpdateStore(update: Store)
      modifies this
      ensures store == old(store) + update
      ensures pointer == old(pointer) && data == old(data) && completed == old(completed)
      ensures lastTrialEnd == old(lastTrialEnd)
    {
      store := store + update;
    }

    /** The recording half of `next`: a finished component trial is appended and counted. */
    method RecordFinished(response: Value, start: real, end: real)
      modifies this
      ensures if Records(program, pointer) then
          && data == old(data) + [ContentRecord(pointer, old(completed), start, end,
                                              program.instructions[pointer].content, response)]
          && completed == old(completed) + 1
        else data == old(data) && completed == old(completed)
      ensures pointer == old(pointer) && store == old(store) && lastTrialEnd == old(lastTrialEnd)
    {
      if pointer < |program.instructions| && program.instructions[pointer].ExecuteContent? {
        var content := program.instructions[pointer].content;
        if IsComponent(content) {
          data := data + [ContentRecord(pointer, completed, start, end, content, response)];
          completed := completed + 1;
        }
      }
    }

    /**
     * `next(response, actualStart, actualEnd)` at time `now`. The finished trial is
     * recorded when it is a component; then the loop scans from pointer + 1 with the
     * log as it was on entry. The scan's fuel bounds a loop the program would run
     * without end; an out-of-fuel outcome leaves the pointer where it was.
     */
    method Next(response: Value, actualStart: Option<real>, actualEnd: Option<real>, now: real, fuel: nat)
      returns (outcome: Outcome)
      requires Valid()
      modifies this
      ensures Valid()
      ensures var start := actualStart.GetOr(old(lastTrialEnd));
        var end := actualEnd.GetOr(now);
        if Records(program, old(pointer)) then
          && data == old(data) + [ContentRecord(old(pointer), old(completed), start, end,
                                              program.instructions[old(pointer)].content, response)]
          && completed == old(completed) + 1
        else data == old(data) && completed == old(completed)
      ensures outcome == Scan(program, AnyContent, old(pointer) + 1, old(store), old(data), fuel)
      ensures store == outcome.store
      ensures pointer == if outcome.OutOfFuel? then old(pointer) else outcome.pc
      ensures lastTrialEnd == if outcome.Found? then now else old(lastTrialEnd)
      ensures old(pointer) < |program.instructions| ==> pointer <= |program.instructions|
    {
      var startTime := if actualStart.Some? then actualStart.value else lastTrialEnd;
      var endTime := if actualEnd.Some? then actualEnd.value else now;
      var entryData := data;
      RecordFinished(response, startTime, endTime);
      outcome := ControlFlow(pointer + 1, entryData, now, fuel);
    }

    /**
     * The loop of `next` from instruction `from`: IfGoto and UpdateStore are executed
     * with the log `entryData`; the first content instruction becomes the pointer and
     * resets the trial-end time; running off the end sets the pointer to the exit index.
     */
    method ControlFlow(from: nat, entryData: seq<Record>, now: real, fuel: nat) returns (outcome: Outcome)
      modifies this
      ensures outcome == Scan(program, AnyContent, from, old(store), entryData, fuel)
      ensures store == outcome.store && data == old(data) && completed == old(completed)
      ensures pointer == if outcome.OutOfFuel? then old(pointer) else outcome.pc
      ensures lastTrialEnd == if outcome.Found? then now else old(lastTrialEnd)
    {
      var pc: nat := from;
      var left := fuel;
      while pc < |program.instructions|
        invariant Scan(program, AnyContent, pc, store, entryData, left)
               == Scan(program, AnyContent, from, old(store), entryData, fuel)
        invariant data == old(data) && completed == old(completed)
        invariant pointer == old(pointer) && lastTrialEnd == old(lastTrialEnd)
        decreases left
      {
        match program.instructions[pc] {
        case ExecuteContent(_) =>
          lastTrialEnd := now;
          pointer := pc;
          return Found(pc, store);
        case IfGoto(cond, marker) =>
          if left == 0 { return OutOfFuel(pc, store); }
          if cond(store, entryData) && marker in program.markers {
            pc := program.markers[marker];
          } else {
            pc := pc + 1;
          }
        case UpdateStore(fun) =>
          if left == 0 { return OutOfFuel(pc, store); }
          store := store + fun(store, entryData);
          pc := pc + 1;
        case Unknown =>
          if left == 0 { return OutOfFuel(pc, store); }
          pc := pc + 1;
        }
        left := left - 1;
      }
      pointer := pc;
      return Exhausted(pc, store);
    }

    /**
     * The corrected start of a run: the control flow before the first content
     * instruction is executed on mount, as the canvas block does, so the first screen
     * is content or the end.
     */
    method Start(now: real, fuel: nat) returns (outcome: Outcome)
      requires Valid() && pointer == 0
      modifies this
      ensures Valid()
      ensures outcome == Scan(program, AnyContent, 0, old(store), old(data), fuel)
      ensures store == outcome.store && data == old(data) && completed == old(completed)
      ensures !outcome.OutOfFuel? ==> pointer == outcome.pc && !Render(program, pointer).Blank?
    {
      outcome := ControlFlow(0, data, now, fuel);
    }
  }

  /**
   * As written, a timeline that opens with a store update never reaches its content:
   * pointer 0 is an UpdateStore instruction, the runner renders nothing, and nothing
   * is left that would call `next`.
   */
  lemma LeadingUpdateStalls(fun: UserUpdate, content: Value)
    ensures var p := Compile([UpdateStoreItem(fun), Content(content)]);
      |p.instructions| == 2 && p.instructions[0].UpdateStore? && p.instructions[1] == ExecuteContent(content)
      && Render(p, 0) == Blank
  {
    var s0: State<Value> := State([], map[], 0);
    var s1 := ProcessItem(UpdateStoreItem(fun), s0);
    var s2 := ProcessItem(Content(content), s1);
    assert [UpdateStoreItem(fun), Content(content)][1..] == [Content(content)];
    assert Process([Content(content)], s1) == s2;
  }

  /** With the corrected start the same timeline shows its content first. */
  lemma LeadingUpdateStartsAtContent(fun: UserUpdate, content: Value, store: Store, data: seq<Record>)
    ensures var p := Compile([UpdateStoreItem(fun), Content(content)]);
      Scan(p, AnyContent, 0, store, data, 1).Found?
      && Scan(p, AnyContent, 0, store, data, 1).pc == 1
  {
    LeadingUpdateStalls(fun, content);
  }
}

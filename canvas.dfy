/**
 * The canvas block of src/components/canvasblock.tsx: a nested runner whose content
 * items are slides drawn on a canvas. Animation frames, key presses and the clock are
 * explicit events carrying a timestamp in milliseconds; drawing itself is left out.
 */
module Canvas {
  import opened Wrappers
  import opened Json
  import opened Bytecode
  import opened Interp

  /** `allowedKeys`: `true`, `false` (also when absent), or a list of key names. */
  datatype AllowedKeys = AnyKey | NoKey | OnlyKeys(keys: seq<string>)

  /**
   * A slide. An absent `displayDuration` or `responseTimeLimit` is infinite (None).
   * The boolean options carry the source's defaults for absent values:
   * `endSlideOnResponse` true, the others false.
   */
  datatype Slide = Slide(
    displayDuration: Option<real>,
    responseTimeLimit: Option<real>,
    endSlideOnResponse: bool,
    hideOnResponse: bool,
    ignoreData: bool,
    allowedKeys: AllowedKeys,
    metadata: Value,
    nestMetadata: bool)

  /**
   * Timeline content of a canvas block: a slide object (one with a `draw` function),
   * a generator called with `(data, store)` that yields a slide or nothing (a throw or
   * a falsy result), or anything else.
   */
  datatype SlideContent = Static(slide: Slide) | Generator(gen: (seq<Record>, Store) -> Option<Slide>) | Invalid

  /** The response registered for the current slide. */
  datatype Response = Response(key: string, time: real, reactionTime: real)

  /** What the block hands back to its parent runner when its timeline is exhausted. */
  datatype Exit = Exit(store: Store, data: seq<Record>)

  /** `resolveSlideContent`: the slide an instruction shows now, if any. */
  function Resolve(instr: Instr<SlideContent>, data: seq<Record>, store: Store): (r: Option<Slide>)
    ensures !instr.ExecuteContent? ==> r.None?
    ensures instr.ExecuteContent? && instr.content.Static? ==> r == Some(instr.content.slide)
    ensures instr.ExecuteContent? && instr.content.Invalid? ==> r.None?
  {
    if !instr.ExecuteContent? then None
    else match instr.content
      case Generator(gen) => gen(data, store)
      case Static(slide) => Some(slide)
      case Invalid => None
  }

  /** The control-flow loop of the canvas block stops only at content that resolves. */
  function Resolvable(data: seq<Record>): (accept: (SlideContent, Store) -> bool)
  {
    (c: SlideContent, store: Store) => Resolve(ExecuteContent(c), data, store).Some?
  }

  const RefreshRateKey: string := "_reactiveScreenRefreshRate"

  /** The frame interval: 1000 / rate for a numeric refresh rate in [20, 300], else none. */
  function FrameInterval(store: Store): (fi: Option<real>)
    ensures fi.Some? <==> RefreshRateKey in store && store[RefreshRateKey].Num?
                          && 20.0 <= store[RefreshRateKey].n <= 300.0
    ensures fi.Some? ==> 1000.0 / 300.0 <= fi.value <= 50.0
                         && fi.value * store[RefreshRateKey].n == 1000.0
  {
    if RefreshRateKey in store && store[RefreshRateKey].Num? && 20.0 <= store[RefreshRateKey].n <= 300.0
    then Some(1000.0 / store[RefreshRateKey].n)
    else None
  }

  /** Elapsed slide time, padded by half a frame when the frame interval is known. */
  function Elapsed(now: real, start: real, frameInterval: Option<real>): real
  {
    now - start + (if frameInterval.Some? then frameInterval.value * 0.5 else 0.0)
  }

  /** `allowedKeys === false` or an empty list. */
  predicate NoKeysAllowed(keys: AllowedKeys)
  {
    keys.NoKey? || (keys.OnlyKeys? && |keys.keys| == 0)
  }

  predicate KeyAllowed(keys: AllowedKeys, key: string)
  {
    keys.AnyKey? || (keys.OnlyKeys? && key in keys.keys)
  }

  /** Whether a finite limit has been reached. */
  predicate Reached(limit: Option<real>, elapsed: real)
  {
    limit.Some? && elapsed >= limit.value
  }

  /** Whether a finite limit is still ahead. */
  predicate Pending(limit: Option<real>, elapsed: real)
  {
    limit.Some? && elapsed < limit.value
  }

  /** What one animation frame decides: end the slide, keep it visible, request another frame. */
  datatype TickResult = TickResult(ends: bool, visible: bool, rearm: bool)

  /**
   * A frame ends the slide exactly when a visible slide's display duration is over and
   * no response can follow (no keys allowed or no response limit), or the response
   * limit is over. The display is hidden once its duration is over, and a frame is
   * requested again only while one of the two limits is still ahead.
   * The flags are computed in the order the source takes them.
   */
  function TickDecision(slide: Slide, visible: bool, elapsed: real): (d: TickResult)
    ensures var dd, rtl := slide.displayDuration, slide.responseTimeLimit;
      && (d.ends <==> (visible && Reached(dd, elapsed) && (NoKeysAllowed(slide.allowedKeys) || rtl.None?))
                      || Reached(rtl, elapsed))
      && (d.visible ==> visible && !Reached(dd, elapsed))
      && (!d.ends ==> d.visible == (visible && !Reached(dd, elapsed)))
      && (d.rearm <==> !d.ends && ((d.visible && Pending(dd, elapsed)) || Pending(rtl, elapsed)))
      && (dd.None? && rtl.None? ==> !d.ends && !d.rearm && d.visible == visible)
  {
    var dd, rtl := slide.displayDuration, slide.responseTimeLimit;
    var displayOver := visible && Reached(dd, elapsed);
    var end1 := displayOver && (NoKeysAllowed(slide.allowedKeys) || rtl.None?);
    var visible1 := visible && !displayOver;
    var end2 := !end1 && Reached(rtl, elapsed);
    var visible2 := if end2 && visible1 && Pending(dd, elapsed) then false else visible1;
    var ends := end1 || end2;
    TickResult(ends, visible2, !ends && ((visible2 && Pending(dd, elapsed)) || Pending(rtl, elapsed)))
  }

  /** The checks of `tick`, in the source's order, on local flags. */
  method Decide(slide: Slide, visible: bool, elapsed: real) returns (shouldEnd: bool, stillVisible: bool, rearm: bool)
    ensures TickResult(shouldEnd, stillVisible, rearm) == TickDecision(slide, visible, elapsed)
  {
    var dd, rtl := slide.displayDuration, slide.responseTimeLimit;
    shouldEnd, stillVisible := false, visible;
    if stillVisible && dd.Some? && elapsed >= dd.value {
      stillVisible := false;
      if NoKeysAllowed(slide.allowedKeys) || rtl.None? {
        shouldEnd := true;
      }
    }
    if !shouldEnd && rtl.Some? && elapsed >= rtl.value {
      shouldEnd := true;
      if stillVisible && dd.Some? && elapsed < dd.value {
        stillVisible := false;
      }
    }
    rearm := !shouldEnd && ((stillVisible && dd.Some? && elapsed < dd.value) || (rtl.Some? && elapsed < rtl.value));
  }

  /** The trial fields of a slide record, in the source's order. */
  function TrialFields(index: nat, trialNumber: int, start: real, end: real, response: Option<Response>): Record
  {
    [Field("index", Num(index as real)),
     Field("trialNumber", Num(trialNumber as real)),
     Field("start", Num(start)),
     Field("end", Num(end)),
     Field("duration", Num(end - start)),
     Field("key", if response.Some? then Str(response.value.key) else Null),
     Field("reactionTime", if response.Some? then Num(response.value.reactionTime) else Null)]
  }

  /** The record of a finished slide: metadata nested, or spread with the trial fields winning. */
  function SlideRecord(index: nat, trialNumber: int, start: real, end: real, response: Option<Response>, slide: Slide): Record
  {
    var trial := TrialFields(index, trialNumber, start, end, response);
    if slide.nestMetadata then Put(trial, "metadata", slide.metadata)
    else Spread(Spread([], Entries(slide.metadata)), trial)
  }

  predicate TrialKey(k: string)
  {
    k in {"index", "trialNumber", "start", "end", "duration", "key", "reactionTime"}
  }

  /**
   * The trial fields hold the trial number given, the duration end - start, and the
   * response's key and reaction time, or null for both without a response.
   */
  lemma TrialFieldsValues(index: nat, trialNumber: int, start: real, end: real, response: Option<Response>)
    ensures var t := TrialFields(index, trialNumber, start, end, response);
      && WellFormed(t)
      && (forall k :: HasKey(t, k) <==> TrialKey(k))
      && Get(t, "trialNumber") == Num(trialNumber as real)
      && Get(t, "duration") == Num(end - start)
      && Get(t, "key") == (if response.Some? then Str(response.value.key) else Null)
      && Get(t, "reactionTime") == (if response.Some? then Num(response.value.reactionTime) else Null)
  {
    var t := TrialFields(index, trialNumber, start, end, response);
    assert forall i, j :: 0 <= i < j < |t| ==> t[i].key != t[j].key;
    DistinctKeysWellFormed(t);
    var ks := ["index", "trialNumber", "start", "end", "duration", "key", "reactionTime"];
    assert Keys(t) == ks;
    assert forall k :: k in ks <==> TrialKey(k) by {
      assert forall k :: k in ks <==> exists i :: 0 <= i < 7 && ks[i] == k;
    }
    GetAt(t, 1); GetAt(t, 4); GetAt(t, 5); GetAt(t, 6);
  }

  /** With nested metadata the record is the trial fields plus `metadata`. */
  lemma NestedRecordFields(index: nat, trialNumber: int, start: real, end: real, response: Option<Response>,
                           slide: Slide, k: string)
    requires slide.nestMetadata
    ensures var r := SlideRecord(index, trialNumber, start, end, response, slide);
      var t := TrialFields(index, trialNumber, start, end, response);
      && WellFormed(r)
      && Get(r, "metadata") == slide.metadata
      && (TrialKey(k) ==> Get(r, k) == Get(t, k))
  {
    var t := TrialFields(index, trialNumber, start, end, response);
    var r := SlideRecord(index, trialNumber, start, end, response, slide);
    assert r == Put(t, "metadata", slide.metadata);
    assert WellFormed(r) by {
      TrialFieldsValues(index, trialNumber, start, end, response);
    }
    assert TrialKey(k) ==> Get(r, k) == Get(t, k) by {
      if TrialKey(k) {
        assert k != "metadata";
      }
    }
  }

  /**
   * With spread metadata every trial field keeps its value, and each metadata key that
   * is not a trial field keeps the metadata's value.
   */
  lemma SpreadRecordFields(index: nat, trialNumber: int, start: real, end: real, response: Option<Response>,
                           slide: Slide, k: string)
    requires !slide.nestMetadata
    ensures var r := SlideRecord(index, trialNumber, start, end, response, slide);
      var t := TrialFields(index, trialNumber, start, end, response);
      && WellFormed(r)
      && (TrialKey(k) ==> Get(r, k) == Get(t, k))
      && (!TrialKey(k) && WellFormed(Entries(slide.metadata)) ==> Get(r, k) == Get(Entries(slide.metadata), k))
  {
    TrialFieldsValues(index, trialNumber, start, end, response);
    var t := TrialFields(index, trialNumber, start, end, response);
    var base := Spread([], Entries(slide.metadata));
    SpreadGet(base, t, k);
    if !TrialKey(k) && WellFormed(Entries(slide.metadata)) {
      SpreadGet([], Entries(slide.metadata), k);
    }
  }

  /** The log after `handleSlideEnd`'s recording step. */
  function FinishedLog(p: Program<SlideContent>, pointer: nat, data: seq<Record>, store: Store,
                       completed: nat, start: real, response: Option<Response>, now: real): (log: seq<Record>)
    ensures log == data || (|log| == |data| + 1 && log[..|data|] == data)
  {
    if pointer < |p.instructions| && p.instructions[pointer].ExecuteContent? then
      var slide := Resolve(p.instructions[pointer], data, store);
      if slide.Some? && !slide.value.ignoreData
      then data + [SlideRecord(pointer, completed - 1, start, now, response, slide.value)]
      else data
    else data
  }

  /** The push of the finished slide's record onto the data of a content instruction. */
  method LogSlide(p: Program<SlideContent>, pointer: nat, data: seq<Record>, store: Store,
                  completed: nat, start: real, response: Option<Response>, now: real) returns (log: seq<Record>)
    requires pointer < |p.instructions| && p.instructions[pointer].ExecuteContent?
    ensures log == FinishedLog(p, pointer, data, store, completed, start, response, now)
  {
    log := data;
    var slide := Resolve(p.instructions[pointer], data, store);
    if slide.Some? && !slide.value.ignoreData {
      log := log + [SlideRecord(pointer, completed - 1, start, now, response, slide.value)];
    }
  }

  class CanvasBlock {
    const program: Program<SlideContent>
    var pointer: nat
    var start: real
    var visible: bool
    var response: Option<Response>
    var data: seq<Record>
    var store: Store
    var completed: nat
    var frameInterval: Option<real>
    var animating: bool
    var exit: Option<Exit>

    /**
     * Mounting: the compiled timeline, the parent's store, and the frame interval it
     * implies. The mount effect then runs the control-flow scan at once, so a mount
     * is this constructor followed by `ProcessControlFlow`.
     */
    constructor (timeline: seq<Item<SlideContent>>, parentStore: Store)
      ensures program == Compile(timeline) && InBounds(program)
      ensures pointer == 0 && start == 0.0 && visible && response.None? && data == []
      ensures store == parentStore && completed == 0 && frameInterval == FrameInterval(parentStore)
      ensures !animating && exit.None?
    {
      var p := CompileTimeline(timeline);
      CompileMarkersWithin(timeline);
      program := p;
      pointer, start, visible, response, data := 0, 0.0, true, None, [];
      store, completed, frameInterval := parentStore, 0, FrameInterval(parentStore);
      animating, exit := false, None;
    }

    /** `drawSlideInternal`'s bookkeeping: start time, visibility, no response, one more slide. */
    method Draw(now: real)
      modifies this
      ensures start == now && visible && response.None? && completed == old(completed) + 1
      ensures pointer == old(pointer) && data == old(data) && store == old(store)
      ensures animating == old(animating) && exit == old(exit) && frameInterval == old(frameInterval)
    {
      start, visible, response, completed := now, true, None, completed + 1;
    }

    /**
     * `processControlFlow` at time `now`: IfGoto and UpdateStore as in the main
     * runner, content whose slide does not resolve is skipped, the first slide that
     * resolves is drawn and its frames requested when it has a finite limit. When the
     * instructions run out, the store and the log are handed to the parent.
     */
    method ProcessControlFlow(now: real, fuel: nat) returns (outcome: Outcome)
      modifies this
      ensures outcome == Scan(program, Resolvable(old(data)), old(pointer), old(store), old(data), fuel)
      ensures pointer == outcome.pc && store == outcome.store && data == old(data)
      ensures frameInterval == old(frameInterval)
      ensures outcome.Found? ==>
        var slide := Resolve(program.instructions[pointer], data, store).value;
        && start == now && visible && response.None? && completed == old(completed) + 1
        && animating == (slide.displayDuration.Some? || slide.responseTimeLimit.Some?)
        && exit == old(exit)
      ensures outcome.Exhausted? ==> exit == Some(Exit(store, data)) && !animating
      ensures !outcome.Found? ==>
        start == old(start) && visible == old(visible) && response == old(response) && completed == old(completed)
      ensures outcome.OutOfFuel? ==> exit == old(exit) && !animating
    {
      animating := false;
      outcome := Advance(fuel);
      if outcome.Found? {
        var slide := Resolve(program.instructions[pointer], data, store).value;
        Draw(now);
        animating := slide.displayDuration.Some? || slide.responseTimeLimit.Some?;
      } else if outcome.Exhausted? {
        exit := Some(Exit(store, data));
      }
    }

    /**
     * The loop of `processControlFlow`: instructions are followed until a slide
     * resolves or the instructions run out; only the pointer and the store change.
     */
    method Advance(fuel: nat) returns (outcome: Outcome)
      modifies `pointer, `store
      ensures outcome == Scan(program, Resolvable(data), old(pointer), old(store), data, fuel)
      ensures pointer == outcome.pc && store == outcome.store
    {
      var pc: nat, st, left := pointer, store, fuel;
      while pc < |program.instructions|
        invariant Scan(program, Resolvable(data), pc, st, data, left)
               == Scan(program, Resolvable(data), old(pointer), old(store), data, fuel)
        decreases left
      {
        var instr := program.instructions[pc];
        if instr.ExecuteContent? && Resolve(instr, data, st).Some? {
          pointer, store := pc, st;
          return Found(pc, st);
        }
        if left == 0 {
          pointer, store := pc, st;
          return OutOfFuel(pc, st);
        }
        match instr {
        case IfGoto(cond, marker) =>
          if cond(st, data) && marker in program.markers {
            pc := program.markers[marker];
          } else {
            pc := pc + 1;
          }
        case UpdateStore(fun) =>
          st := st + fun(st, data);
          pc := pc + 1;
        case ExecuteContent(_) =>
          pc := pc + 1;
        case Unknown =>
          pc := pc + 1;
        }
        left := left - 1;
      }
      pointer, store := pc, st;
      return Exhausted(pc, st);
    }

    /**
     * The first half of `handleSlideEnd`: the slide's record is appended unless it
     * ignores data, the pointer moves on and the response is cleared. Off a content
     * instruction the pointer only moves on.
     */
    method FinishSlide(now: real)
      modifies this
      ensures data == FinishedLog(program, old(pointer), old(data), old(store), old(completed), old(start), old(response), now)
      ensures pointer == old(pointer) + 1 && !animating
      ensures response == if old(pointer) < |program.instructions| && program.instructions[old(pointer)].ExecuteContent?
                          then None else old(response)
      ensures store == old(store) && start == old(start) && visible == old(visible) && completed == old(completed)
      ensures exit == old(exit) && frameInterval == old(frameInterval)
    {
      var responseData := response;
      animating := false;
      if pointer >= |program.instructions| || !program.instructions[pointer].ExecuteContent? {
        pointer := pointer + 1;
        return;
      }
      data := LogSlide(program, pointer, data, store, completed, start, responseData, now);
      pointer := pointer + 1;
      response := None;
    }

    /**
     * The state a slide end leaves behind, for a slide that was entered with the
     * latched response `response0` and the visibility `visible0`: the slide's record
     * is logged, the scan resumes right after it from the store as it was, and then
     * either the next slide is drawn (its frames requested iff it has a limit), or the
     * store and the log are handed to the parent, or the scan gave up. The frame
     * interval never changes.
     */
    twostate predicate SlideEnded(response0: Option<Response>, visible0: bool, now: real, fuel: nat)
      reads this
    {
      var log := FinishedLog(program, old(pointer), old(data), old(store), old(completed), old(start), response0, now);
      var outcome := Scan(program, Resolvable(log), old(pointer) + 1, old(store), log, fuel);
      var content := old(pointer) < |program.instructions| && program.instructions[old(pointer)].ExecuteContent?;
      && data == log && pointer == outcome.pc && store == outcome.store
      && frameInterval == old(frameInterval)
      && (outcome.Found? ==>
            var slide := Resolve(program.instructions[pointer], data, store).value;
            && start == now && visible && response.None? && completed == old(completed) + 1
            && animating == (slide.displayDuration.Some? || slide.responseTimeLimit.Some?)
            && exit == old(exit))
      && (outcome.Exhausted? ==> exit == Some(Exit(store, data)) && !animating)
      && (outcome.OutOfFuel? ==> exit == old(exit) && !animating)
      && (!outcome.Found? ==>
            && start == old(start) && visible == visible0 && completed == old(completed)
            && response == if content then None else response0)
    }

    /** `handleSlideEnd`: finish the slide, then run the control flow from the next instruction. */
    method HandleSlideEnd(now: real, fuel: nat) returns (outcome: Outcome)
      modifies this
      ensures data == FinishedLog(program, old(pointer), old(data), old(store), old(completed), old(start), old(response), now)
      ensures outcome == Scan(program, Resolvable(data), old(pointer) + 1, old(store), data, fuel)
      ensures pointer == outcome.pc && store == outcome.store
      ensures SlideEnded(old(response), old(visible), now, fuel)
    {
      FinishSlide(now);
      outcome := ProcessControlFlow(now, fuel);
    }

    /**
     * One animation frame at time `now`: off a resolvable slide the frames stop;
     * otherwise the tick decision is applied and, when it ends the slide, the slide
     * end runs.
     */
    method Tick(now: real, fuel: nat)
      modifies this
      ensures old(pointer) >= |program.instructions|
              || Resolve(program.instructions[old(pointer)], old(data), old(store)).None? ==>
        && !animating && pointer == old(pointer) && data == old(data) && store == old(store)
        && visible == old(visible) && response == old(response) && start == old(start)
        && completed == old(completed) && exit == old(exit) && frameInterval == old(frameInterval)
      ensures old(pointer) < |program.instructions|
              && Resolve(program.instructions[old(pointer)], old(data), old(store)).Some? ==>
        var slide := Resolve(program.instructions[old(pointer)], old(data), old(store)).value;
        var d := TickDecision(slide, old(visible), Elapsed(now, old(start), old(frameInterval)));
        && (d.ends ==> SlideEnded(old(response), d.visible, now, fuel))
        && (!d.ends ==> && pointer == old(pointer) && data == old(data) && store == old(store)
                        && visible == d.visible && animating == d.rearm
                        && response == old(response) && start == old(start) && completed == old(completed)
                        && exit == old(exit) && frameInterval == old(frameInterval))
    {
      if pointer >= |program.instructions| {
        animating := false;
        return;
      }
      var current := Resolve(program.instructions[pointer], data, store);
      if current.None? {
        animating := false;
        return;
      }
      var ends := Frame(current.value, now);
      assert pointer == old(pointer) && data == old(data) && store == old(store);
      assert completed == old(completed) && start == old(start) && response == old(response);
      if ends {
        var _ := HandleSlideEnd(now, fuel);
      }
    }

    /**
     * The checks of `tick` on a slide that resolves: the visibility is updated and,
     * unless the slide ends, the next frame requested.
     */
    method Frame(slide: Slide, now: real) returns (ends: bool)
      modifies `visible, `animating
      ensures var d := TickDecision(slide, old(visible), Elapsed(now, start, frameInterval));
        ends == d.ends && visible == d.visible && (!ends ==> animating == d.rearm) && (ends ==> animating == old(animating))
    {
      var elapsed := Elapsed(now, start, frameInterval);
      var stillVisible, rearm;
      ends, stillVisible, rearm := Decide(slide, visible, elapsed);
      visible := stillVisible;
      if !ends {
        animating := rearm;
      }
    }

    /**
     * The registering half of `handleKeyPress`: on a visible slide, an allowed key
     * pressed strictly within the response limit latches the first response (unless
     * the slide ignores data) and may hide the slide. It reports whether the slide
     * ends now.
     */
    method RegisterKey(key: string, now: real) returns (end: bool)
      modifies this
      ensures var slide := if old(pointer) < |program.instructions|
                           then Resolve(program.instructions[old(pointer)], old(data), old(store)) else None;
        var accepted := old(pointer) < |program.instructions| && old(visible) && slide.Some?
                        && KeyAllowed(slide.value.allowedKeys, key)
                        && (slide.value.responseTimeLimit.None? || now - old(start) < slide.value.responseTimeLimit.value);
        var acts := accepted && (old(response).None? || !slide.value.endSlideOnResponse);
        && end == (acts && slide.value.endSlideOnResponse)
        && response == (if acts && old(response).None? && !slide.value.ignoreData
                        then Some(Response(key, now, now - old(start))) else old(response))
        && visible == (old(visible) && !(acts && slide.value.hideOnResponse))
      ensures old(response).Some? ==> response == old(response)
      ensures pointer == old(pointer) && data == old(data) && store == old(store) && start == old(start)
      ensures completed == old(completed) && animating == old(animating) && exit == old(exit)
      ensures frameInterval == old(frameInterval)
    {
      end := false;
      if pointer >= |program.instructions| || !visible { return; }
      var current := Resolve(program.instructions[pointer], data, store);
      if current.None? { return; }
      var slide := current.value;
      var withinLimit := slide.responseTimeLimit.None? || now - start < slide.responseTimeLimit.value;
      if KeyAllowed(slide.allowedKeys, key) && withinLimit {
        if response.None? || !slide.endSlideOnResponse {
          if response.None? && !slide.ignoreData {
            response := Some(Response(key, now, now - start));
          }
          if slide.hideOnResponse { visible := false; }
          end := slide.endSlideOnResponse;
        }
      }
    }

    /**
     * `handleKeyPress`: register the key, then end the slide when the slide says so.
     * A key that does not end the slide moves nothing; it latches the response and
     * sets the visibility as `RegisterKey` does. One that ends the slide logs the
     * record carrying the response just latched, with the slide hidden or not as the
     * key left it, and resumes the scan right after the slide.
     */
    method HandleKeyPress(key: string, now: real, fuel: nat) returns (ended: bool)
      modifies this
      ensures var slide := if old(pointer) < |program.instructions|
                           then Resolve(program.instructions[old(pointer)], old(data), old(store)) else None;
        var accepted := old(pointer) < |program.instructions| && old(visible) && slide.Some?
                        && KeyAllowed(slide.value.allowedKeys, key)
                        && (slide.value.responseTimeLimit.None? || now - old(start) < slide.value.responseTimeLimit.value);
        var acts := accepted && (old(response).None? || !slide.value.endSlideOnResponse);
        var latched := if acts && old(response).None? && !slide.value.ignoreData
                       then Some(Response(key, now, now - old(start))) else old(response);
        var shown := old(visible) && !(acts && slide.value.hideOnResponse);
        && ended == (acts && slide.value.endSlideOnResponse)
        && (!ended ==> && pointer == old(pointer) && data == old(data) && store == old(store)
                       && response == latched && visible == shown
                       && start == old(start) && completed == old(completed) && animating == old(animating)
                       && exit == old(exit) && frameInterval == old(frameInterval))
        && (ended ==> SlideEnded(latched, shown, now, fuel))
      ensures ended ==> old(pointer) < |program.instructions| && program.instructions[old(pointer)].ExecuteContent?
      ensures ended ==> data == old(data) || (|data| == |old(data)| + 1 && data[..|old(data)|] == old(data))
    {
      ended := RegisterKey(key, now);
      if ended {
        var _ := HandleSlideEnd(now, fuel);
      }
    }
  }
}

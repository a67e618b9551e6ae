/**
 * The jump/update loop shared by the two interpreters of compiled timelines: the
 * main runner's `next` (src/components/experimentrunner.tsx) and the canvas block's
 * `processControlFlow` (src/components/canvasblock.tsx). Both treat IfGoto and
 * UpdateStore alike; they differ only in which content instructions they stop at.
 */
module Interp {
  import opened Json
  import opened Bytecode

  /** Where the loop stands: the instruction pointer and the store. */
  datatype Config = Config(pc: nat, store: Store)

  /**
   * How a scan ends: at a content instruction it stops on, past the last instruction,
   * or with its fuel spent (the program itself would keep looping).
   */
  datatype Outcome = Found(pc: nat, store: Store) | Exhausted(pc: nat, store: Store) | OutOfFuel(pc: nat, store: Store)

  predicate InBounds<C>(p: Program<C>)
  {
    forall k :: k in p.markers ==> p.markers[k] <= |p.instructions|
  }

  /**
   * One non-content instruction. A true IfGoto whose marker exists jumps to it; a false
   * condition or a missing marker advances by one. UpdateStore shallow-merges the
   * function's result into the store. Any other instruction is skipped.
   */
  function Step<C>(p: Program<C>, pc: nat, store: Store, data: seq<Record>): (c: Config)
    requires pc < |p.instructions| && !p.instructions[pc].ExecuteContent?
    ensures c.pc == pc + 1 || (p.instructions[pc].IfGoto? && p.instructions[pc].marker in p.markers
                               && c.pc == p.markers[p.instructions[pc].marker])
    ensures !p.instructions[pc].UpdateStore? ==> c.store == store
    ensures InBounds(p) ==> c.pc <= |p.instructions|
  {
    match p.instructions[pc]
    case IfGoto(cond, m) =>
      if cond(store, data) && m in p.markers then Config(p.markers[m], store) else Config(pc + 1, store)
    case UpdateStore(fun) => Config(pc + 1, store + fun(store, data))
    case Unknown => Config(pc + 1, store)
  }

  /**
   * The loop from pc: stop at the first content instruction that `accept` takes, else
   * step. The data log is the one the caller passes and does not change during a scan.
   */
  function Scan<C>(p: Program<C>, accept: (C, Store) -> bool, pc: nat, store: Store, data: seq<Record>, fuel: nat): (o: Outcome)
    ensures o.Found? ==> o.pc < |p.instructions| && p.instructions[o.pc].ExecuteContent?
                         && accept(p.instructions[o.pc].content, o.store)
    ensures o.Exhausted? ==> o.pc >= |p.instructions|
    ensures o.OutOfFuel? ==> o.pc < |p.instructions|
    ensures InBounds(p) && pc <= |p.instructions| ==> o.pc <= |p.instructions|
    decreases fuel
  {
    if pc >= |p.instructions| then Exhausted(pc, store)
    else match p.instructions[pc]
      case ExecuteContent(c) =>
        if accept(c, store) then Found(pc, store)
        else if fuel == 0 then OutOfFuel(pc, store)
        else Scan(p, accept, pc + 1, store, data, fuel - 1)
      case _ =>
        if fuel == 0 then OutOfFuel(pc, store)
        else
          var c := Step(p, pc, store, data);
          Scan(p, accept, c.pc, c.store, data, fuel - 1)
  }

  /** Fuel only bounds the loop: a scan that finishes gives the same outcome with more fuel. */
  lemma {:induction false} ScanMoreFuel<C>(p: Program<C>, accept: (C, Store) -> bool, pc: nat, store: Store,
                                           data: seq<Record>, fuel: nat, more: nat)
    requires fuel <= more
    requires !Scan(p, accept, pc, store, data, fuel).OutOfFuel?
    ensures Scan(p, accept, pc, store, data, more) == Scan(p, accept, pc, store, data, fuel)
    decreases fuel
  {
    if pc < |p.instructions| && fuel > 0 {
      match p.instructions[pc]
      case ExecuteContent(c) =>
        if !accept(c, store) {
          ScanMoreFuel(p, accept, pc + 1, store, data, fuel - 1, more - 1);
        }
      case _ =>
        var c := Step(p, pc, store, data);
        ScanMoreFuel(p, accept, c.pc, c.store, data, fuel - 1, more - 1);
    }
  }

  /**
   * Merging the result of an adapted update into the store a second time, as the
   * runners do with `{...store, ...fun(store, data)}`, changes nothing: the adapted
   * update already returns the whole merged store.
   */
  lemma MergeAdaptedUpdate(fun: UserUpdate, store: Store, data: seq<Record>)
    ensures store + AdaptUpdate(fun)(store, data) == AdaptUpdate(fun)(store, data)
  {
    var updates := fun(data, store);
    if IsObject(updates) {
      var u := Assign(store, Entries(updates));
      assert forall k :: k in store ==> k in u;
      assert store + u == u;
    }
  }
}

/**
 * The legacy linear runner of src/components/experiment.tsx: a timeline of component
 * trials shown one after the other by a counter, with no control flow.
 */
module Experiment {
  import opened Wrappers
  import opened Json

  /** A trial definition: `{name, type, props?}`. */
  datatype Trial = Trial(name: string, kind: string, props: Value)

  /** What `transformExperiment` renders with component implementations of type K. */
  datatype View<K> = Empty | Show(component: K, props: Value, withCustomQuestions: bool)

  /** `{...defaults, ...user}`: the user's components override same-named defaults. */
  function ComponentsMap<K>(defaults: map<string, K>, user: map<string, K>): (m: map<string, K>)
    ensures forall k :: k in m <==> k in defaults || k in user
    ensures forall k :: k in user ==> m[k] == user[k]
    ensures forall k :: k in defaults && k !in user ==> m[k] == defaults[k]
  {
    defaults + user
  }

  /**
   * `transformExperiment`: nothing past the end of the timeline, an error for a trial
   * type without a component, else that component with the trial's props (and the
   * custom questions for `Quest`).
   */
  function TransformExperiment<K>(timeline: seq<Trial>, index: nat, components: map<string, K>): (r: Result<View<K>>)
    ensures index >= |timeline| <==> r == Ok(Empty)
    ensures r.Err? <==> index < |timeline| && timeline[index].kind !in components
    ensures r.Ok? && r.value.Show? ==>
      index < |timeline| && r.value.component == components[timeline[index].kind]
      && r.value.props == timeline[index].props
      && (r.value.withCustomQuestions <==> timeline[index].kind == "Quest")
  {
    if index >= |timeline| then Ok(Empty)
    else
      var def := timeline[index];
      if def.kind !in components then Err("No component found for type: " + def.kind)
      else Ok(Show(components[def.kind], def.props, def.kind == "Quest"))
  }

  /**
   * `trialCounter / (timeline.length - 1)`. A one-trial timeline divides by zero,
   * which JavaScript turns into Infinity or NaN; that case is None here.
   */
  function Progress(counter: nat, length: nat): (r: Option<real>)
    ensures r.None? <==> length == 1
    ensures length >= 2 && counter <= length - 1 ==> r.Some? && 0.0 <= r.value <= 1.0
    ensures r.Some? ==> r.value * ((length as int - 1) as real) == counter as real
  {
    if length == 1 then None else Some((counter as real) / ((length as int - 1) as real))
  }

  /** The record of a finished trial. */
  function TrialData(index: nat, trial: Trial, newData: Value, start: real, end: real): Record
  {
    [Field("index", Num(index as real)),
     Field("type", Str(trial.kind)),
     Field("name", Str(trial.name)),
     Field("data", newData),
     Field("start", Num(start)),
     Field("end", Num(end)),
     Field("duration", Num(end - start))]
  }

  class LegacyExperiment {
    const timeline: seq<Trial>
    var counter: nat
    var data: seq<Record>
    var trialStart: real

    /**
     * One record per trial shown so far, in order, each carrying its trial's index;
     * calls past the end of the timeline record nothing.
     */
    predicate Valid()
      reads this
    {
      && |data| == (if counter <= |timeline| then counter else |timeline|)
      && forall i :: 0 <= i < |data| ==> Get(data[i], "index") == Num(i as real)
    }

    constructor (timeline: seq<Trial>, mountTime: real)
      ensures Valid()
      ensures this.timeline == timeline && counter == 0 && data == [] && trialStart == mountTime
    {
      this.timeline := timeline;
      counter, data, trialStart := 0, [], mountTime;
    }

    /**
     * `next(newData)` at time `now`: the current trial, when there is one, is recorded
     * from the last start time to now; the counter always moves on by one and the
     * start time becomes now.
     */
    method Next(newData: Value, now: real)
      requires Valid()
      modifies this
      ensures Valid()
      ensures data == if old(counter) < |timeline|
                      then old(data) + [TrialData(old(counter), timeline[old(counter)], newData, old(trialStart), now)]
                      else old(data)
      ensures counter == old(counter) + 1 && trialStart == now
    {
      if counter < |timeline| {
        var trial := timeline[counter];
        TrialDataFields(counter, trial, newData, trialStart, now);
        data := data + [TrialData(counter, trial, newData, trialStart, now)];
      }
      trialStart := now;
      counter := counter + 1;
    }
  }

  /** The trial record holds the index, type and name of its trial and its duration. */
  lemma TrialDataFields(index: nat, trial: Trial, newData: Value, start: real, end: real)
    ensures var r := TrialData(index, trial, newData, start, end);
      && WellFormed(r)
      && Get(r, "index") == Num(index as real)
      && Get(r, "type") == Str(trial.kind) && Get(r, "name") == Str(trial.name)
      && Get(r, "data") == newData && Get(r, "duration") == Num(end - start)
  {
    var r := TrialData(index, trial, newData, start, end);
    assert forall i, j :: 0 <= i < j < |r| ==> r[i].key != r[j].key;
    DistinctKeysWellFormed(r);
    GetAt(r, 0); GetAt(r, 1); GetAt(r, 2); GetAt(r, 3); GetAt(r, 6);
  }
}

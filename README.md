# reactive — a Dafny model of the experiment runtime

`reactive` is a React library for browser experiments. Its core is a small bytecode
virtual machine for experiment timelines, plus the pure data processing around it.
This project models that core in Dafny and proves properties of the model:

- **Timeline compiler** (`bytecode.dfy`, from `src/utils/bytecode.ts`). It flattens a
  nested timeline into `ExecuteContent`, `IfGoto` and `UpdateStore` instructions and a
  marker table. If- and while-blocks get uniquely numbered synthetic labels. The
  compiler is a class with a label counter. The pure `Process`/`Compile` functions
  specify it, and the lemmas state where markers point and what shape each block emits.
- **The jump/update loop** (`interp.dfy`). The two interpreters share it. `Scan` runs
  jumps and store updates until a content instruction that the caller accepts, within
  a fuel bound.
- **Main runner** (`runner.dfy`, from `src/components/experimentrunner.tsx`). It covers
  `next` (record the finished trial, then run the loop), `updateStore`, progress and
  rendering.
- **Canvas block** (`canvas.dfy`, from `src/components/canvasblock.tsx`). It covers
  `processControlFlow`, the per-frame `tick` state machine for display time and
  response deadline, the first-key latch of `handleKeyPress`, and the result records
  that `handleSlideEnd` builds.
- **Legacy linear runner** (`experiment.dfy`, from `src/components/experiment.tsx`).
- **Result-log serialisers** (`upload.dfy`, from `src/components/upload.tsx`). It covers
  CSV escaping, the header union, the default trial transform, multi-table splitting
  with file names, and the unique-directory-name search.
- **Study converter** (`convert.dfy`, from `src/utils/convert.ts`). It covers the
  second CSV writer and the reshaping of a study log into its tables.
- **Mastermind game** (`mastermind.dfy`, from `src/components/mastermindlewrapper.tsx`).
  It covers the guess scorer, the round's button handlers and the game-state switching.
- **Store form** (`storeui.dfy`, from `src/components/storeui.tsx`). It covers the
  initial values, the validators, the save handler and the numeric steppers.
- **Settings screen** (`settings.dfy`, from `src/components/SettingsScreen.tsx`). It
  covers the trial-subset selection on mounting, type inference for custom parameters,
  the edit handlers, and assembly of plain and base64 links.
- **Helpers**: `getParam` and the in-place shuffle (`common.dfy`, from
  `src/utils/common.ts`), and `sample` and `shuffle` (`arrays.dfy`, from
  `src/utils/array.ts`).
- **Supporting modules**: JavaScript values as ordered objects with assignment and
  spread semantics (`json.dfy`), string helpers the runtime provides (`strings.dfy`),
  and Option/Result (`wrappers.dfy`).

How the model treats the parts of the source it cannot represent directly:

- Values that the source updates in place are class fields: the compiler's counter,
  the runners' pointer, store and data log, the canvas block's timers, the game round
  and the two forms.
- Every method states its new state, either outright or through a specification
  function with its own lemmas.
- The clock, animation frames, key presses, `Math.random()`, `Number`, `JSON.parse` and
  number formatting are parameters.
- User callbacks (conditions, updates, custom validators) are function-typed
  parameters of `(store, data)`.
- Numbers are exact reals.

## Model

| member | source | states |
|---|---|---|
| Arrays.RandomIndex | src/utils/array.ts:32 | `Math.floor(Math.random() * length)` for a draw in [0, 1) is an index below the length |
| Arrays.Swap | src/utils/array.ts:48 | the destructuring swap puts each of the two elements at the other's position and keeps the length |
| Arrays.SwapPermutes | src/utils/array.ts:48 | a swap only reorders: the multiset of elements is unchanged |
| Arrays.ShuffleSteps | src/utils/array.ts:46-49 | the first k iterations of the shuffle loop keep the length |
| Arrays.ShuffleStepsPermutes | src/utils/array.ts:44-51 | any number of shuffle iterations yields a permutation of the input |
| Arrays.Shuffled | src/utils/array.ts:44-51 | the complete shuffle has the input's length, is a permutation of it, and every element comes from it |
| Arrays.ShuffleStepsKeepsTail | src/utils/array.ts:46-49 | positions the loop has passed (from the back) are never changed by later iterations |
| Arrays.ShuffleStepsIdentity | src/utils/array.ts:46-49 | when every draw picks the current position, the shuffle leaves the array unchanged |
| Arrays.Sample | src/utils/array.ts:24-37 | an empty array gives []; otherwise n elements (none for n <= 0), element k being the one at `floor(draw_k * length)`; every element comes from the array |
| Arrays.Shuffle | src/utils/array.ts:44-51 | returns a fresh array holding the shuffle of the input and leaves the input alone |
| Arrays.FisherYates | src/utils/array.ts:46-49 | the in-place loop from the last index down turns the array into `Shuffled` of its old contents, hence a permutation of them |
| Common.UrlGet | src/utils/common.ts:110 | `searchParams.get(name)` gives a value present under the name in the query, and nothing exactly when no entry has that name |
| Common.Shuffle | src/utils/common.ts:6-12 | the in-place shuffle returns the same array, now holding `Shuffled` of its old contents |
| Common.DecodedEntry | src/utils/common.ts:56-67 | the `_b` object supplies a value exactly when it decoded to an object that has the name as a key |
| Common.GetParam | src/utils/common.ts:50-113 | a name in the decoded `_b` object wins unconverted; with no `_b` entry and no URL value the default is returned; otherwise the URL value is converted |
| Common.DecodedPrecedence | src/utils/common.ts:61-63 | a key of the decoded object is returned as stored there, whatever the plain parameters hold |
| Common.BooleanConversion | src/utils/common.ts:74 | a plain boolean parameter is a boolean, true exactly when its text is 'true' ignoring case |
| Common.NumberConversion | src/utils/common.ts:73 | a plain number parameter is the number it reads, and the default when that is 0 or NaN |
| Common.ParseFailureDefault | src/utils/common.ts:75-88 | an array or JSON parameter is what `JSON.parse` gives, and the default when parsing throws |
| Common.UndefinedText | src/utils/common.ts:92-105 | the text 'undefined' in any case gives undefined for every type except string, which gets the text itself |
| Common.BooleanRoundTrip | src/utils/common.ts:74 | the 'true'/'false' a link writes for a boolean reads back as the same boolean |
| Strings.NatToString | src/components/upload.tsx:337 | the counter in `${baseSessionId}_${counter}` renders as at least one decimal digit, and as one digit exactly below 10 |
| Strings.NatToStringInjective | src/components/upload.tsx:337-341 | different counters render differently, so each loop iteration tries a new name |
| Strings.Split | src/components/SettingsScreen.tsx:46-68 | `split(',')` never returns an empty list |
| Strings.SplitJoin | src/components/SettingsScreen.tsx:193-196 | the subset a link writes with `join(',')` splits back into the same names when no name holds a comma |
| Strings.JoinSplit | src/components/SettingsScreen.tsx:46-68 | joining the parts of a split restores the text |
| Strings.ToLower | src/utils/common.ts:74 | ASCII lowering, which decides the 'true' and 'undefined' comparisons exactly as `toLowerCase()` does |
| Strings.Utf16Length | src/components/storeui.tsx:88-91 | a string's `length` lies between its character count and twice that, and equals the character count exactly when no character is above U+FFFF |
| Strings.SupplementaryBeforeHighPlane | src/components/SettingsScreen.tsx:193 | the default sort puts U+1F600 before U+FF01, against character order, because it compares code units |
| Strings.UnitLessBmp | src/components/SettingsScreen.tsx:193 | below U+10000 the code-unit order is the character order |
| Strings.LessTotal | src/components/SettingsScreen.tsx:193 | the default sort order relates any two different strings |
| Strings.LessIrreflexive | src/components/SettingsScreen.tsx:193 | no string sorts before itself |
| Strings.LessTransitive | src/components/SettingsScreen.tsx:193 | the default sort order is transitive |
| Strings.LessEqTransitive | src/components/SettingsScreen.tsx:193 | its reflexive closure is transitive |
| Strings.Insert | src/components/SettingsScreen.tsx:193 | inserting into a sorted list gives a sorted list with one more copy of the element |
| Strings.Sort | src/components/SettingsScreen.tsx:193-196 | `selectedTrials.sort()` is sorted in UTF-16 code-unit order and a permutation of its input |
| Json.Keys | src/components/upload.tsx:73 | `Object.keys(obj)` lists each field's key, in field order |
| Json.KeysCons | src/components/upload.tsx:73 | the keys of an object with one more leading field are that field's key followed by the rest |
| Json.Get | src/components/upload.tsx:82 | `obj[header]` is undefined for a key the object lacks |
| Json.GetAt | src/components/upload.tsx:82 | in an object without repeated keys each field is found under its own key |
| Json.Put | src/components/upload.tsx:459 | `accumulator[paramName] = v` makes the key read v, changes no other key, appends only a new key, and keeps keys unique |
| Json.PutHasKey | src/components/upload.tsx:459 | after the assignment the keys are the old ones plus the assigned key |
| Json.Spread | src/components/upload.tsx:486 | `{ ...a, ...b }` keeps keys unique and is a copy of a when b is empty |
| Json.SpreadHasKey | src/components/upload.tsx:486 | a spread has exactly the keys of both objects |
| Json.SpreadGet | src/components/upload.tsx:486 | in a spread, b's value wins for its keys and a's value shows through for the others |
| Json.Remove | src/components/upload.tsx:105 | the rest pattern `({responseData, ...obj})` lacks the removed key, keeps every other key with its value, and adds nothing |
| Json.RemoveKeeps | src/components/upload.tsx:105 | every other key of the input survives the rest pattern |
| Json.ToMap | src/utils/bytecode.ts:1 | an object read as a `Store` dictionary has the object's keys and values |
| Json.Entries | src/components/upload.tsx:105 | `Object.entries` gives an object's fields, an array's elements under the keys "0", "1", ..., and nothing for other non-strings |
| Json.EntriesWellFormed | src/components/upload.tsx:105 | the entries of any value never repeat a key |
| Bytecode.LabelInjective | src/utils/bytecode.ts:64-66 | `${prefix}_auto_${n}` labels with the compiler's prefixes determine their prefix and number |
| Bytecode.LabelNotUser | src/utils/bytecode.ts:50-52 | no synthetic label equals a `user_` marker name |
| Bytecode.Assign | src/utils/bytecode.ts:82-85 | `{...runtimeStore, ...updates}` has exactly the store's keys and the update's keys |
| Bytecode.AssignIsUnion | src/utils/bytecode.ts:82-85 | for an update without repeated keys, the spread is the map union in which the update wins |
| Bytecode.AdaptCondition | src/utils/bytecode.ts:68-74 | the adapted condition gives the author's verdict with data and store swapped back |
| Bytecode.AdaptUpdate | src/utils/bytecode.ts:76-91 | after an update the store keys are the old ones plus, for an object result, the result's keys; no key is ever dropped |
| Bytecode.AdaptUpdateNonObject | src/utils/bytecode.ts:86-89 | an update that does not return a non-null object leaves the store unchanged |
| Bytecode.AdaptUpdateObject | src/utils/bytecode.ts:76-91 | an object update gives the store overridden by the update's fields |
| Bytecode.ProcessItem | src/utils/bytecode.ts:94-172 | one item appends exactly its instruction count (0 for a marker, 1 plus the body for an if-block, 2 plus the body for a while-block, 1 otherwise), never rewrites earlier instructions, and draws one label per if-block and two per while-block |
| Bytecode.Process | src/utils/bytecode.ts:93-173 | `processTimeline` appends the items' instructions and leaves the existing prefix as it was |
| Bytecode.Compile | src/utils/bytecode.ts:54-178 | the compiled program has one instruction per content, jump and update item, and the guard and back-jump instructions of the blocks |
| Bytecode.ProcessMarkersWithin | src/utils/bytecode.ts:93-173 | no marker ever points past the end of the instruction list |
| Bytecode.ItemMarkersWithin | src/utils/bytecode.ts:101-161 | each case records markers at the current length only |
| Bytecode.CompileMarkersWithin | src/utils/bytecode.ts:54-178 | every marker of a compiled program is an index between 0 and the number of instructions |
| Bytecode.ProcessKeepsLabel | src/utils/bytecode.ts:93-173 | a synthetic label drawn before a stretch of processing keeps its entry through it |
| Bytecode.ItemKeepsLabel | src/utils/bytecode.ts:101-161 | no case of the switch rewrites a label drawn earlier |
| Bytecode.IfBlockShape | src/utils/bytecode.ts:128-141 | an if-block starts with a jump on the negated condition to a fresh `if_end` label, which marks the instruction right after the body |
| Bytecode.WhileBlockShape | src/utils/bytecode.ts:142-161 | a while-block's start label marks its negated guard; the body is followed by an unconditional jump back to the start label; the end label marks the next instruction |
| Bytecode.Compiler.constructor | src/utils/bytecode.ts:60-62 | the compiler starts with no instructions, no markers and the counter at 0 |
| Bytecode.Compiler.GetUniqueMarker | src/utils/bytecode.ts:64-66 | returns the label for the current counter and advances the counter by one, changing nothing else |
| Bytecode.Compiler.ProcessTimeline | src/utils/bytecode.ts:93-173 | the loop over the items leaves the compiler in the state `Process` specifies |
| Bytecode.Compiler.ProcessEntry | src/utils/bytecode.ts:95-171 | one loop pass leaves the compiler in the state `ProcessItem` specifies |
| Bytecode.CompileTimeline | src/utils/bytecode.ts:54-178 | the imperative compiler returns exactly `Compile(timeline)` |
| Interp.Step | src/components/experimentrunner.tsx:139-168 | one control-flow instruction moves the pointer by one or to an existing marker, only an UpdateStore changes the store, and the pointer stays within the program |
| Interp.Scan | src/components/experimentrunner.tsx:135-170 | the loop stops only at content it accepts, or past the last instruction; from inside the program it never leaves it |
| Interp.ScanMoreFuel | src/components/experimentrunner.tsx:135-170 | the fuel bound does not change the outcome of a loop that finishes |
| Interp.MergeAdaptedUpdate | src/components/experimentrunner.tsx:92-94 | `updateStore` merging the adapted update's result into the store again changes nothing |
| Runner.TrialRecordFields | src/components/experimentrunner.tsx:112-121 | the trial record has unique keys, the given index and trial number, duration end minus start, and name '' when the content has none |
| Runner.Progress | src/components/experimentrunner.tsx:83-86 | progress is 0 for an empty program, pointer over total otherwise, and within [0, 1] while the pointer is in the program |
| Runner.Render | src/components/experimentrunner.tsx:212-248 | the runner shows nothing at all exactly when the pointer is at an instruction that is not content |
| Runner.Runner.constructor | src/components/experimentrunner.tsx:70-78 | a mounted runner holds the compiled timeline, pointer 0, an empty log and store, and its markers are in bounds |
| Runner.Runner.UpdateStore | src/components/experimentrunner.tsx:92-94 | the update's keys win over the store's, nothing else changes |
| Runner.Runner.RecordFinished | src/components/experimentrunner.tsx:109-130 | a finished component trial is appended to the log with the current pointer and trial count, which goes up by one; other content records nothing |
| Runner.Runner.Next | src/components/experimentrunner.tsx:96-175 | `next` records the finished trial, then the loop runs from the next instruction with the log as it was on entry; the pointer lands on the next content or past the end, and the trial-end time resets only when content is found |
| Runner.Runner.ControlFlow | src/components/experimentrunner.tsx:132-174 | the while loop ends in the outcome `Scan` specifies, leaving the log and count alone |
| Runner.Runner.Start | src/components/experimentrunner.tsx:74 | the corrected mount runs the control flow before the first content, so the first screen is never blank |
| Runner.LeadingUpdateStalls | src/components/experimentrunner.tsx:74 | a timeline that starts with a store update renders nothing at pointer 0, so nothing ever calls `next` |
| Runner.LeadingUpdateStartsAtContent | src/components/experimentrunner.tsx:74 | with the corrected start the same timeline shows its content first |
| Canvas.Resolve | src/components/canvasblock.tsx:78-100 | only content instructions resolve; a static slide resolves to itself and invalid content to nothing |
| Canvas.FrameInterval | src/components/canvasblock.tsx:70-76 | a frame interval exists exactly when the stored refresh rate is a number in [20, 300], and then lies between 1000/300 and 50 ms |
| Canvas.Decide | src/components/canvasblock.tsx:170-224 | the per-frame checks compute exactly the end/hide/re-arm decision of the tick specification |
| Canvas.TickDecision | src/components/canvasblock.tsx:170-224 | a slide ends iff its display is over (and no key or no response limit applies) or its response limit is over; it is hidden once its duration is over; a frame is re-requested iff neither holds and a limit is still ahead; a slide without limits never ends |
| Canvas.TrialFieldsValues | src/components/canvasblock.tsx:317-325 | the trial fields are exactly index, trialNumber, start, end, duration, key, reactionTime, with duration end - start and key/reactionTime null without a response |
| Canvas.NestedRecordFields | src/components/canvasblock.tsx:327-328 | with nested metadata the record keeps every trial field and adds the metadata under `metadata` |
| Canvas.SpreadRecordFields | src/components/canvasblock.tsx:329 | with spread metadata the trial fields override metadata keys, and every other metadata key keeps its value |
| Canvas.FinishedLog | src/components/canvasblock.tsx:313-332 | ending a slide leaves the log unchanged or appends exactly one record |
| Canvas.LogSlide | src/components/canvasblock.tsx:313-332 | the recording step of a slide end produces the finished log |
| Canvas.CanvasBlock.constructor | src/components/canvasblock.tsx:56-76 | a mounted block holds the compiled timeline with in-bounds markers, pointer 0, a visible slide, no response, an empty log, the parent store and the frame interval of that store |
| Canvas.CanvasBlock.Draw | src/components/canvasblock.tsx:121-149 | drawing a slide restarts its clock, shows it, clears the response and counts one more completed content instruction, changing nothing else |
| Canvas.CanvasBlock.ProcessControlFlow | src/components/canvasblock.tsx:227-297 | control flow stops at the scan's outcome: on content it draws and arms the frame loop iff a limit is set; past the end it hands store and log to the parent; the log is untouched |
| Canvas.CanvasBlock.Advance | src/components/canvasblock.tsx:232-289 | the loop over branches, store updates and unresolvable content ends where the reference scan ends, with the scan's store |
| Canvas.CanvasBlock.FinishSlide | src/components/canvasblock.tsx:299-335 | a slide end records the finished log, steps past the slide and clears the response of a content slide, changing nothing else |
| Canvas.CanvasBlock.HandleSlideEnd | src/components/canvasblock.tsx:299-337 | a slide end logs the slide's record and resumes the scan right after it, from the old store, with the new log; a slide found is drawn and its frame loop armed iff it has a limit; past the end the store and log go to the parent (`exit`); otherwise timing, visibility and count stay, the response is cleared after content, and the frame interval never changes |
| Canvas.CanvasBlock.Tick | src/components/canvasblock.tsx:154-225 | a tick off the program or on unresolvable content only stops the frame loop and changes nothing else; otherwise, when the tick decision ends the slide, the full slide-end state follows with the decided visibility; when it does not, only the visibility and re-arm change as decided |
| Canvas.CanvasBlock.Frame | src/components/canvasblock.tsx:178-224 | a frame applies the tick decision for the elapsed time to visibility and the frame loop |
| Canvas.CanvasBlock.RegisterKey | src/components/canvasblock.tsx:339-371 | an allowed key on a visible slide within the response limit latches the first response unless data is ignored, may hide the slide, and ends it iff the slide ends on response; a latched response is never replaced |
| Canvas.CanvasBlock.HandleKeyPress | src/components/canvasblock.tsx:339-374 | the key ends the slide iff it is accepted and the slide ends on response; a key that does not end it changes only the latched response and visibility, as the registering step computes them; one that does logs the record carrying that latched key and reaction time, then leaves the full slide-end state (scan resumed, next slide drawn or exit to the parent) |
| Experiment.ComponentsMap | src/components/experiment.tsx:103-104 | user components override same-named defaults; every other default stays available |
| Experiment.TransformExperiment | src/components/experiment.tsx:55-84 | nothing is rendered exactly past the end of the timeline; an error exactly for a trial type without a component; otherwise that component with the trial's props, and custom questions iff the type is Quest |
| Experiment.Progress | src/components/experiment.tsx:106 | progress is undefined exactly for a one-trial timeline; otherwise it is counter/(length-1), within [0, 1] while the counter is in the timeline |
| Experiment.LegacyExperiment.constructor | src/components/experiment.tsx:99-101 | a mounted experiment has counter 0, an empty log and the mount time as trial start |
| Experiment.LegacyExperiment.Next | src/components/experiment.tsx:112-131 | the current trial, if any, is appended as a record timed from the last start to now; the counter always advances and one record per shown trial, indexed in order, is kept |
| Experiment.TrialDataFields | src/components/experiment.tsx:117-125 | a trial record has unique keys and holds the trial's index, type, name, data and duration end - start |
| Upload.UndoubleDouble | src/components/upload.tsx:57 | doubling every quote is undone by collapsing doubled quotes |
| Upload.EscapeCsvValue | src/components/upload.tsx:49-62 | null and undefined become the empty field; a field that still contains a comma, quote or newline is wrapped in quotes |
| Upload.EscapeRoundTrip | src/components/upload.tsx:49-62 | unescaping an escaped value gives back its string form, and a value with no comma, quote or newline is written unchanged |
| Upload.AddKeys | src/components/upload.tsx:69-74 | adding keys to the header list keeps the old headers as a prefix, adds exactly the new keys, and keeps the list free of duplicates |
| Upload.UnionMembers | src/components/upload.tsx:69-75 | a key is a header iff some object has it |
| Upload.UnionDistinct | src/components/upload.tsx:69-75 | the header list has no duplicates, as a Set's iteration order gives |
| Upload.UnionPrefix | src/components/upload.tsx:69-75 | the headers of the first n objects are a prefix of all headers: headers appear in first-seen order |
| Upload.AddAll | src/components/upload.tsx:71-73 | the inner loop adds one object's keys exactly as the header specification does |
| Upload.CollectHeaders | src/components/upload.tsx:69-75 | the nested loops compute the header union of all objects |
| Upload.HeaderUnion | src/components/upload.tsx:69-75 | the header lists each key once, and exactly the keys of some object |
| Upload.HeaderCells | src/components/upload.tsx:77 | one escaped cell per header |
| Upload.HeaderCellReadBack | src/components/upload.tsx:77 | each header cell unescapes to its header, and is the header itself when no quoting is needed |
| Upload.HeaderRowSplits | src/components/upload.tsx:77 | a header row without cells needing quotes splits at commas back into the headers |
| Upload.Cells | src/components/upload.tsx:79-86 | a row has one cell per header, empty where the object lacks the key |
| Upload.DataRows | src/components/upload.tsx:79-86 | there is one CSV row per object |
| Upload.CsvText | src/components/upload.tsx:64-89 | the text is empty exactly when there are no objects, and otherwise starts with the header row |
| Upload.ConvertArrayOfObjectsToCSV | src/components/upload.tsx:64-89 | an empty array gives the empty text; otherwise the header row and one row per object, as the CSV text specification says |
| Upload.Prefixed | src/components/upload.tsx:105 | prefixing keys keeps one field per field |
| Upload.PrefixedLookup | src/components/upload.tsx:105 | `data_k` is present in the prefixed record iff `k` is in the original, with the same value |
| Upload.PrefixedOnly | src/components/upload.tsx:105 | every key of the prefixed record is the prefix followed by an original key |
| Upload.PrefixedWellFormed | src/components/upload.tsx:105 | prefixing keeps keys unique |
| Upload.DataFields | src/components/upload.tsx:105 | the reduced `data_` fields have unique keys |
| Upload.Transform | src/components/upload.tsx:105 | transforming a record with unique keys gives a record with unique keys |
| Upload.TransformDropsResponseData | src/components/upload.tsx:105 | the transformed record has no `responseData` field |
| Upload.TransformData | src/components/upload.tsx:105 | every key k of `responseData` appears as `data_k` with its value, overriding a same-named top-level field |
| Upload.TransformKeeps | src/components/upload.tsx:105 | every other top-level field is present after the transform iff it was before, with the same value |
| Upload.CanvasRows | src/components/upload.tsx:92-102 | the CanvasBlock flattener yields an array, empty for non-array `responseData`, else one row per response |
| Upload.CanvasRowFields | src/components/upload.tsx:96-99 | each row has the response's fields plus `block` set to the trial name, the response's own fields winning |
| Upload.DefaultFlatteners | src/components/upload.tsx:92-103 | the default flatteners exist for CanvasBlock only |
| Upload.FlattenItem | src/components/upload.tsx:120-121 | an item without a flattener for its type becomes one transformed row, which is never filtered out |
| Upload.MatchingResults | src/components/upload.tsx:117-139 | no more results than trials, and no result that is empty is kept |
| Upload.MatchingResultsSpec | src/components/upload.tsx:116-140 | every trial whose name matches and whose flattened result is not empty contributes that result |
| Upload.MatchingResultsOnly | src/components/upload.tsx:116-140 | every result is the flattened, non-empty result of some trial with that name |
| Upload.MatchingResultsAppend | src/components/upload.tsx:116-140 | results keep data order: the results of earlier trials come before those of later ones |
| Upload.CollectedKept | src/components/upload.tsx:116-140 | no collected result is an empty array or an object whose arrays are all empty |
| Upload.TableKeys | src/components/upload.tsx:170-179 | every table key names an array field of an object result |
| Upload.TableKeysOf | src/components/upload.tsx:173-177 | every key kept from an object holds an array |
| Upload.TablePart | src/components/upload.tsx:185-192 | an array result goes whole into the table; an object gives its entry under the key, spread when an array and as one row otherwise; a falsy entry or any other result gives nothing |
| Upload.MapFun | src/components/upload.tsx:154 | the post-processing function is applied to every row, one for one |
| Upload.PlainRowsInEveryTable | src/components/upload.tsx:185-188 | every row of a plain-array result goes into every table |
| Upload.TableRowsOfObject | src/components/upload.tsx:189-191 | every row an object result has under a table key goes into that table |
| Upload.RowRecords | src/components/upload.tsx:207 | each table row becomes one CSV record |
| Upload.BaseFilename | src/components/upload.tsx:202 | the base name is the file name with a trailing `.csv` removed, and nothing else removed |
| Upload.TableFileNameInjective | src/components/upload.tsx:205 | distinct table keys give distinct file names |
| Upload.TableFile | src/components/upload.tsx:185-208 | a table gets a file iff it has rows, named `<base>_<key>.csv` |
| Upload.TableFiles | src/components/upload.tsx:182-209 | there are at most as many files as table keys |
| Upload.TableFilesNames | src/components/upload.tsx:204-205 | every file is named after one of the table keys |
| Upload.TableFileIncluded | src/components/upload.tsx:197-208 | every table with rows gets its file |
| Upload.TableFileOnlyWithRows | src/components/upload.tsx:197-199 | a file for a table exists only if the table has rows |
| Upload.TableFilesSpec | src/components/upload.tsx:182-209 | a table key gets a file iff its table has rows |
| Upload.Wrap | src/components/upload.tsx:211-216 | one file is returned bare, any other number as the array |
| Upload.WriteTables | src/components/upload.tsx:184-209 | the loop over table keys writes exactly the specified table files in key order |
| Upload.CombineTrialsToCsv | src/components/upload.tsx:107-217 | without multi-table results: no file when there are no rows, else one file with all rows; with them, one file per table that has rows, bare when there is exactly one |
| Upload.SuffixedInjective | src/components/upload.tsx:337-341 | distinct counters give distinct candidate names |
| Upload.TriedSize | src/components/upload.tsx:336-342 | after counter c, c - 1 distinct names have been tried, which bounds the loop by the number of existing names |
| Upload.GetUniqueDirectoryName | src/components/upload.tsx:329-346 | the name returned is free; it is the base when the base is free, else `base_k` for the least k >= 1 that is free |
| Upload.ReduceParamsGet | src/components/upload.tsx:448-464 | the reduction adds exactly the entries with a default, each with `value ?? defaultValue`, keeping the accumulator otherwise |
| Upload.ParamsDictGet | src/components/upload.tsx:444-465 | a parameter enters the dictionary iff the source is an object and the parameter has a `defaultValue`, and its value is `value ?? defaultValue` |
| Convert.PlainCellAgrees | src/utils/convert.ts:26-31 | a field of `arrayToCSV` equals the upload writer's escaping for null, undefined and newline-free strings, but a string with a newline and no comma or quote is left unquoted where the upload writer quotes it |
| Convert.PlainCells | src/utils/convert.ts:23-33 | a row has one field per header, empty where the object lacks the key |
| Convert.ArrayToCsv | src/utils/convert.ts:14-37 | no rows give the empty text; otherwise the unescaped header union and one line per object |
| Convert.SurveyAnswers | src/utils/convert.ts:43-51 | the answers object has unique keys |
| Convert.SurveyAudios | src/utils/convert.ts:44-48 | there are no more recordings than questions |
| Convert.AudioEntry | src/utils/convert.ts:47 | reading `question.value.url` throws exactly when the value is null or undefined |
| Convert.SurveyAudiosThrows | src/utils/convert.ts:45-48 | the survey throws exactly when some recording question has a null or undefined value |
| Convert.SurveyAudiosFails | src/utils/convert.ts:45-48 | once a question throws, later questions do not change the outcome |
| Convert.SurveySnoc | src/utils/convert.ts:45-51 | one more question extends the answers or the recordings exactly as one loop iteration does |
| Convert.ProcessSurvey | src/utils/convert.ts:39-56 | the loop computes the specified answers object and recording list |
| Convert.AnsweredSnoc | src/utils/convert.ts:45-51 | a name is answered after one more question iff it was before or the new question is a non-recording one with that name |
| Convert.SurveyAnswersHasKey | src/utils/convert.ts:50 | a name gets an answer iff some non-recording question has it |
| Convert.SurveyAnswersLast | src/utils/convert.ts:50 | a repeated name keeps the value of its last non-recording question |
| Convert.SurveyAudiosSpec | src/utils/convert.ts:46-48 | in a survey that does not throw, every recording question has its audio entry `prefix_name` with its URL |
| Convert.SurveyAudiosOnlyVoice | src/utils/convert.ts:46-48 | every audio entry comes from a recording question |
| Convert.GuessFieldsValues | src/utils/convert.ts:107-118 | the guess row holds the index, game index, colours and results it was built from |
| Convert.GuessRow | src/utils/convert.ts:106-118 | a guess row throws exactly when some result is null or undefined; otherwise it carries the guess's index, the game index, and the colours and result statuses joined by `_` |
| Convert.Statuses | src/utils/convert.ts:117 | `results.map(res => res.status)` gives one status per result, in order, when it does not throw |
| Convert.StatusesThrow | src/utils/convert.ts:117 | reading the statuses throws exactly when some result is null or undefined |
| Convert.GuessRowsFail | src/utils/convert.ts:106-119 | one guess whose row throws makes the whole guess loop throw |
| Convert.GuessRows | src/utils/convert.ts:106-119 | one guess row per guess |
| Convert.FixSolution | src/utils/convert.ts:102-104 | an array solution becomes its elements joined by `_`; a falsy or string solution is kept; any other truthy solution is an error, as `join` is missing; no other metadata field changes |
| Convert.FixedSolutionSplits | src/utils/convert.ts:102-104 | a solution of colour names without `_` splits back at `_` into those names |
| Convert.SurveyRowFields | src/utils/convert.ts:122-141 | in a game row the answers win, then the last game's metadata, then the game index `(index - 1) / 2` and the type `survey` |
| Convert.ProcessGames | src/utils/convert.ts:95-143 | a block gives one game row per survey sub-trial and one guess row per guess of its game sub-trials |
| Convert.SurveyAfterGame | src/utils/convert.ts:94-141 | a survey right after a game merges in that game's fixed metadata |
| Convert.MergeGet | src/utils/convert.ts:127-141 | in a three-way spread the later object's fields win |
| Convert.RunFails | src/utils/convert.ts:68-163 | once an iteration fails, the whole conversion fails with that error |
| Convert.Run | src/utils/convert.ts:83-162 | the look-ahead flag is set exactly after a MasterMindleWrapper event |
| Convert.QuestAfterBlockSkipped | src/utils/convert.ts:147-150 | a Quest right after a block adds nothing, since the block already read it |
| Convert.QuestAdds | src/utils/convert.ts:147-156 | any other Quest adds one global row: its answers spread over the event's base fields |
| Convert.OtherEventsIgnored | src/utils/convert.ts:83-162 | events of any other type only clear the flag |
| Convert.ProcessBlock | src/utils/convert.ts:84-146 | the block branch computes the block row, its recordings and its game and guess rows as specified |
| Convert.ConvertData | src/utils/convert.ts:59-172 | the conversion returns the four tables as CSV and the recordings of the specified run |
| Convert.NullRecordingFails | src/utils/convert.ts:147-156 | a global Quest survey with a recording question whose value is null or undefined makes the conversion fail |
| Convert.NullResultFails | src/utils/convert.ts:106-119 | a game guess with a null or undefined result makes the sub-trial loop fail |
| Convert.ProcessQuest | src/utils/convert.ts:147-156 | a Quest event not preceded by a block adds its survey's row and recordings, or fails as the survey does |
| Convert.ProcessEvents | src/utils/convert.ts:68-163 | the loop computes the tables and flag of the run over all events |
| Convert.ProcessEvent | src/utils/convert.ts:69-162 | one iteration advances the run by one event, and a failure is final |
| Mastermind.Count | src/components/mastermindlewrapper.tsx:203-209 | a colour occurs no more often than the solution is long |
| Mastermind.Exact | src/components/mastermindlewrapper.tsx:212-218 | there are no more exact matches of a colour in the first n positions than n |
| Mastermind.ExactAtMostCount | src/components/mastermindlewrapper.tsx:212-218 | exact matches of a colour never outnumber its occurrences in the solution, so the first pass never drives a count below zero |
| Mastermind.Score | src/components/mastermindlewrapper.tsx:201-229 | one result per position with the guessed colour, correct exactly where guess and solution agree, and a wrong-position hint only for a colour the solution holds |
| Mastermind.Claimed | src/components/mastermindlewrapper.tsx:212-226 | a colour has at most as many non-incorrect results as results |
| Mastermind.ClaimedSnoc | src/components/mastermindlewrapper.tsx:212-218 | one more result claims one more peg of its colour exactly when it is not incorrect |
| Mastermind.ClaimedUpgrade | src/components/mastermindlewrapper.tsx:223-225 | turning an incorrect result into a wrong-position hint claims exactly one more peg of its colour |
| Mastermind.CountColors | src/components/mastermindlewrapper.tsx:203-209 | the reduce yields, for every colour, its number of occurrences in the solution (0 when absent) |
| Mastermind.MarkExact | src/components/mastermindlewrapper.tsx:212-218 | the first pass marks exactly the exact matches, and each colour's count becomes its occurrences minus its exact matches |
| Mastermind.Mark | src/components/mastermindlewrapper.tsx:213-217 | one position of the first pass appends its verdict and keeps count and claims in step |
| Mastermind.CheckGuess | src/components/mastermindlewrapper.tsx:201-229 | the scorer returns one result per guess position with that position's colour, correct exactly where guess and solution agree, and agrees with the scoring specification |
| Mastermind.CheckGuessCorrected | src/components/mastermindlewrapper.tsx:220-226 | the corrected scorer marks the same exact matches, hints only where the original hints, and claims exactly min(solution count, guess count) pegs of each colour, as standard scoring does |
| Mastermind.Hint | src/components/mastermindlewrapper.tsx:221-225 | one hint of the corrected second pass takes the colour off the count as its claim goes up |
| Mastermind.OverClaimed | src/components/mastermindlewrapper.tsx:220-226 | with solution red-green-green-green, the guess blue-red-red-green gets two red hints for one red peg |
| Mastermind.AllCorrectIffSolution | src/components/mastermindlewrapper.tsx:249 | a guess is judged correct iff it equals the solution |
| Mastermind.EmptyGuess | src/components/mastermindlewrapper.tsx:136 | the board starts as four empty slots |
| Mastermind.Colors | src/components/mastermindlewrapper.tsx:248 | a complete board reads as its four colours, slot by slot |
| Mastermind.ClickWithoutSelection | src/components/mastermindlewrapper.tsx:386-404 | without a selected colour a click can only empty a slot |
| Mastermind.ClickTwice | src/components/mastermindlewrapper.tsx:406-415 | with a colour selected a click toggles the slot between that colour and empty |
| Mastermind.ToggleSelection | src/components/mastermindlewrapper.tsx:528-537 | a palette click selects the colour iff it was not selected, and deselects it otherwise |
| Mastermind.LoggedAppend | src/components/mastermindlewrapper.tsx:251-269 | logging a scored guess at the next index keeps the two guess logs in step |
| Mastermind.Round.constructor | src/components/mastermindlewrapper.tsx:135-191 | a new round has an empty board, nothing selected, maxGuesses - 1 guesses left, the given time, empty logs and the drawn solution |
| Mastermind.Round.HandleCheck | src/components/mastermindlewrapper.tsx:231-304 | an incomplete guess changes nothing; otherwise the guess is scored and logged; a correct guess ends the round; a wrong one uses a guess, ends the round when none were left or time was out, empties the board and restarts the guess clock |
| Mastermind.Round.LogGuess | src/components/mastermindlewrapper.tsx:247-271 | a complete guess is scored, logged in both logs at the next index and the selection cleared; the result says whether it is the solution |
| Mastermind.Round.SlotClick | src/components/mastermindlewrapper.tsx:382-416 | a slot click changes only that slot, as the click rule says, and nothing once the round is over |
| Mastermind.Round.SelectColor | src/components/mastermindlewrapper.tsx:528-537 | a palette click toggles the selection, and does nothing once the round is over |
| Mastermind.Round.Clear | src/components/mastermindlewrapper.tsx:331-338 | CLEAR empties the board and changes nothing else |
| Mastermind.Round.Tick | src/components/mastermindlewrapper.tsx:151-180 | each second of a running round lowers the time left by one, stopping at zero |
| Mastermind.Round.HandleNext | src/components/mastermindlewrapper.tsx:306-315 | the round reports its solution, guesses, skip flag and starting time; it is solved iff some guess was correct, which is then the last guess of a finished round; the time left is handed back |
| Mastermind.Wrapper.constructor | src/components/mastermindlewrapper.tsx:574-579 | a block starts in the game phase with the full time budget, no trials, no skip and index 0 |
| Mastermind.Wrapper.SwitchGameState | src/components/mastermindlewrapper.tsx:581-612 | after a survey with no time left the block ends with all trials including this one; otherwise the trial is appended, the phase flips, the index advances and a survey clears the skip flag |
| Mastermind.Wrapper.FinishGame | src/components/mastermindlewrapper.tsx:306-315 | leaving a game hands its time left to the block, sets the skip flag when skipped and records the game, moving to the survey |
| StoreUI.InitialValue | src/components/storeui.tsx:63-66 | a field starts from the store's value when the store defines it, else from its default |
| StoreUI.FieldKeys | src/components/storeui.tsx:71-74 | every field's store key is a form key |
| StoreUI.InitialValuesHasKey | src/components/storeui.tsx:59-67 | the initial values hold exactly the fields' keys |
| StoreUI.InitialValuesGet | src/components/storeui.tsx:61-67 | each key gets the initial value of the last field with that key |
| StoreUI.LengthOf | src/components/storeui.tsx:88-91 | reading `length` fails exactly on null or undefined; a string's length counts UTF-16 code units, between its character count and twice that, and equal to it without characters above U+FFFF |
| StoreUI.CustomError | src/components/storeui.tsx:95-102 | there is no custom error without a custom check, and a custom error is never empty |
| StoreUI.BuiltinError | src/components/storeui.tsx:78-92 | the built-in checks throw exactly for a bounded-length string field holding null or undefined; an error message is never empty; an empty number field is required; other kinds have no built-in check |
| StoreUI.ValidateField | src/components/storeui.tsx:78-105 | validation throws exactly when the built-in checks throw; a built-in error wins; otherwise the custom check decides; an error message is never empty |
| StoreUI.NumericAccepted | src/components/storeui.tsx:79-86 | an accepted number field is present and non-empty, within its min and max, and passes its custom check |
| StoreUI.StringAccepted | src/components/storeui.tsx:87-92 | an accepted string field respects its minimum and maximum length, counted in UTF-16 code units |
| StoreUI.SupplementaryCountsTwice | src/components/storeui.tsx:88-91 | one character above U+FFFF is two code units, so a maximum length of 1 refuses it |
| StoreUI.SaveStepKeys | src/components/storeui.tsx:144-172 | one field's turn adds an error at most under its own key |
| StoreUI.SaveErrorsThrows | src/components/storeui.tsx:143-172 | saving throws iff some field's check throws |
| StoreUI.SaveErrorsOnlyFields | src/components/storeui.tsx:143-172 | every error belongs to a field of the form |
| StoreUI.SaveErrors | src/components/storeui.tsx:143-172 | every error collected is a non-empty message |
| StoreUI.SaveErrorsAt | src/components/storeui.tsx:143-172 | with one field per key, a field has an error iff its validation reports one, and the error is that message |
| StoreUI.SaveStepSpec | src/components/storeui.tsx:148-171 | a field without an earlier error gets exactly the error validation reports |
| StoreUI.SaveIffAllValid | src/components/storeui.tsx:136-180 | with one field per key, the form saves with no errors iff every field validates cleanly |
| StoreUI.StepDown | src/components/storeui.tsx:237-243 | the - stepper lowers by one step but never below the minimum |
| StoreUI.StepUp | src/components/storeui.tsx:275-281 | the + stepper as written stays at most the maximum unless the maximum is 0, which it treats as no bound |
| StoreUI.StepUpCorrected | src/components/storeui.tsx:275-281 | the corrected + stepper raises by one step but never above the maximum, 0 included |
| StoreUI.StepUpPastZeroMax | src/components/storeui.tsx:278 | with max 0, step 1 and value 0 the + stepper as written gives 1, above the maximum; the corrected one gives 0 |
| StoreUI.StepRoundTrip | src/components/storeui.tsx:237-281 | stepping up then down, or down then up, within the bounds returns to the start value |
| StoreUI.Form.constructor | src/components/storeui.tsx:53-76 | a mounted form holds the initial values, every field untouched and no errors |
| StoreUI.Form.HandleChange | src/components/storeui.tsx:124-134 | a change sets that key's value, marks it touched and changes no other value |
| StoreUI.Form.ToggleBoolean | src/components/storeui.tsx:211-222 | clicking a checkbox sets the value to the negation of its truthiness, touching only that key |
| StoreUI.Form.TypeNumber | src/components/storeui.tsx:232-266 | typing into the text input of an integer or float field stores '' for an empty input, the parsed number when it parses, and ignores the input otherwise |
| StoreUI.Form.StepperDown | src/components/storeui.tsx:236-243 | the - button stores the stepped-down value, at least the minimum |
| StoreUI.Form.StepperUp | src/components/storeui.tsx:274-281 | the + button stores `Math.min(max || Infinity, (v || 0) + step)` as a number, text operands concatenating first; at most the maximum when it is not 0, and one step up from a numeric value |
| StoreUI.Cap | src/components/storeui.tsx:278 | `Math.min(max || Infinity, sum)` is at most a non-zero maximum and is the sum when the maximum is 0 |
| StoreUI.TextStepConcatenates | src/components/storeui.tsx:278 | a stored text "5" stepped up by 1 reads as 51, because `+` concatenates |
| StoreUI.Form.HandleSave | src/components/storeui.tsx:136-180 | saving touches every field, sets the collected errors and passes the values on iff there are none; a throwing check saves nothing |
| StoreUI.Form.CollectErrors | src/components/storeui.tsx:143-172 | the loop over fields computes the specified errors, stopping at the first throw |
| StoreUI.Form.CheckField | src/components/storeui.tsx:144-171 | one field's turn applies the built-in checks, then the custom check when no error was set |
| StoreUI.Form.BuildInitialValues | src/components/storeui.tsx:59-67 | the mount loop builds the initial values, with unique keys |
| StoreUI.SaveErrorsFailed | src/components/storeui.tsx:143-172 | once a prefix of the fields throws, saving throws that error |
| Settings.Without | src/components/SettingsScreen.tsx:303-305 | removing an id keeps exactly the other ids, and changes nothing when the id is absent |
| Settings.ToggleTrial | src/components/SettingsScreen.tsx:299-309 | the trial's 1-based id is selected afterwards exactly when it was not before, and every other id keeps its membership |
| Settings.ToggleTrialTwice | src/components/SettingsScreen.tsx:299-309 | toggling an unselected trial on and off restores the selection, order included |
| Settings.WithoutAppended | src/components/SettingsScreen.tsx:303-305 | filtering out an id just appended to a selection without it gives that selection back |
| Settings.AllIds | src/components/SettingsScreen.tsx:79-83 | the full selection of n trials is "1" to "n" in order |
| Settings.PlainSubset | src/components/SettingsScreen.tsx:54-69 | a plain subset is read exactly when a subset parameter is present, and excludes exactly when excludeSubset is present |
| Settings.DecodedSubsetWins | src/components/SettingsScreen.tsx:38-52 | a non-empty excludeSubset string in the `_b` object is the subset read, whatever the plain parameters say |
| Settings.UrlSubset | src/components/SettingsScreen.tsx:38-69 | without a readable `_b` value the plain parameters decide; a `_b` object without a truthy subset entry assigns none; a truthy non-string exclude entry with no plain parameter excludes nothing |
| Settings.InitialSelection | src/components/SettingsScreen.tsx:27-85 | as written: exclusion follows the subset read; the trials read are kept only when a plain subset parameter is present |
| Settings.InitialSelectsAll | src/components/SettingsScreen.tsx:73-85 | with no subset read, the screen starts in include mode, with every trial when no plain subset parameter is present |
| Settings.InitialSelectionPlain | src/components/SettingsScreen.tsx:54-85 | plain subset parameters alone give exactly the selection they name |
| Settings.DecodedSubsetDropped | src/components/SettingsScreen.tsx:73-85 | as written: an include subset carried only by `_b` is read and then replaced by all three trials |
| Settings.InitialSelectionCorrected | src/components/SettingsScreen.tsx:27-85 | intended: the subset read, from either source, is the starting selection; without one every trial is included |
| Settings.InitialSelectionAgrees | src/components/SettingsScreen.tsx:27-85 | the written and intended starting selections agree whenever a subset is read exactly when a plain subset parameter is present |
| Settings.InferType | src/components/SettingsScreen.tsx:155-169 | a custom value is boolean exactly for 'true'/'false', number exactly when otherwise numeric, array exactly when otherwise it parses to an array, json exactly when it parses to anything else, and string exactly when it neither reads as a number nor parses |
| Settings.RegisteredNames | src/components/SettingsScreen.tsx:152 | the registered names are the registry's names, position by position |
| Settings.RegularCustoms | src/components/SettingsScreen.tsx:151-177 | every custom parameter from the URL has an unregistered name other than `_b`, a text value and the type inferred from that text; there are at most as many as URL parameters |
| Settings.RegularCustomsComplete | src/components/SettingsScreen.tsx:151-177 | every URL entry with an unregistered name other than `_b` becomes a custom parameter with its text and inferred type |
| Settings.RegularCustomsFrom | src/components/SettingsScreen.tsx:151-177 | every custom parameter comes from such a URL entry |
| Settings.RegularCustomsAppend | src/components/SettingsScreen.tsx:151-177 | the custom parameters of two joined queries are those of each, in URL order |
| Settings.RegularValues | src/components/SettingsScreen.tsx:141-149 | the registered values hold each key at most once, and every value held is text |
| Settings.RegularValuesGet | src/components/SettingsScreen.tsx:141-149 | a registered parameter starts from its URL value, else from its boolean default's text |
| Settings.RegularValuesHasKey | src/components/SettingsScreen.tsx:141-149 | a name has a value exactly when a parameter of that name has a URL value or a boolean default; otherwise it has none |
| Settings.DecodedEntries | src/components/SettingsScreen.tsx:96-116 | the custom parameters taken from `_b` are never registered names nor `_b` |
| Settings.DecodedEntriesWellFormed | src/components/SettingsScreen.tsx:96-116 | the values taken from `_b` hold each key at most once |
| Settings.DecodedCustomsComplete | src/components/SettingsScreen.tsx:96-116 | every `_b` entry with an unregistered name becomes a custom parameter with that name, the type of its decoded value and its text |
| Settings.DecodedCustomsFrom | src/components/SettingsScreen.tsx:96-116 | every custom parameter taken from `_b` comes from such an entry |
| Settings.DecodedValuesHasKey | src/components/SettingsScreen.tsx:96-116 | a key gets a value from `_b` exactly when it is a registered name that `_b` holds |
| Settings.DecodedValuesGet | src/components/SettingsScreen.tsx:96-116 | a registered name's value is `String` of the last `_b` entry with that name |
| Settings.DecodedDefaults | src/components/SettingsScreen.tsx:118-127 | filling in defaults keeps each key at most once |
| Settings.DecodedDefaultsKeys | src/components/SettingsScreen.tsx:118-127 | afterwards exactly the keys given by `_b` and the registered names have values |
| Settings.DecodedDefaultsKeeps | src/components/SettingsScreen.tsx:118-127 | a value that `_b` gave is never overwritten by a default |
| Settings.DecodedDefaultsGet | src/components/SettingsScreen.tsx:118-127 | a registered parameter missing from `_b` gets its boolean default's text, else the empty string |
| Settings.DecodedDefaultsGetLast | src/components/SettingsScreen.tsx:118-127 | the same for the last registered parameter |
| Settings.WithCustomsKeepsSubset | src/components/SettingsScreen.tsx:204-213 | custom parameters never set or add the subset entries |
| Settings.WithCustomsGet | src/components/SettingsScreen.tsx:204-213 | the last emittable custom parameter with a name decides that name's value |
| Settings.AddCustoms | src/components/SettingsScreen.tsx:204-213 | the loop over the custom parameters yields the custom overrides and keeps each key at most once |
| Settings.WithCustoms | src/components/SettingsScreen.tsx:204-213 | the custom overrides keep each key at most once |
| Settings.WithCustomsHasKey | src/components/SettingsScreen.tsx:204-213 | the link holds exactly the parameter values' keys and the names of the custom parameters with a name and a non-empty value, subset entries excepted |
| Settings.SubsetEntries | src/components/SettingsScreen.tsx:189-202 | exclusion writes the sorted excluded ids and drops includeSubset; inclusion of a strict non-empty subset writes the sorted ids and drops excludeSubset; an empty selection drops both; a full one leaves them as they were |
| Settings.SubsetParams | src/components/SettingsScreen.tsx:189-202 | the subset entries change no other parameter and keep each key at most once |
| Settings.Find | src/components/SettingsScreen.tsx:219-220 | `find` by name gives nothing iff no element has the name, otherwise the first element that has it |
| Settings.ParamType | src/components/SettingsScreen.tsx:221 | the type is never empty; a registered type wins, then a custom one, else `string` |
| Settings.Convert | src/components/SettingsScreen.tsx:231-249 | a number becomes a number or null (NaN), a boolean is true exactly for 'true', an array or json value that does not parse stays as it was, and any other type is kept |
| Settings.Emit | src/components/SettingsScreen.tsx:217-250 | the emitted entries hold each key at most once |
| Settings.EmitGet | src/components/SettingsScreen.tsx:217-250 | a key is emitted exactly when it is an entry not skipped, with its converted value |
| Settings.PlainParams | src/components/SettingsScreen.tsx:256-275 | the query parameters hold each key at most once |
| Settings.PlainParamsGet | src/components/SettingsScreen.tsx:256-275 | a plain link carries a parameter exactly when it is a non-skipped entry, as the entry's text |
| Settings.PlainEntries | src/components/SettingsScreen.tsx:259-272 | the loop builds exactly the plain query parameters |
| Settings.EncodedParams | src/components/SettingsScreen.tsx:215-255 | the `_b` object holds each key at most once |
| Settings.EncodedParamsGet | src/components/SettingsScreen.tsx:215-255 | the `_b` object holds a key exactly when it is a non-skipped entry, converted by its type |
| Settings.EncodeEntries | src/components/SettingsScreen.tsx:217-250 | the loop builds exactly the `_b` object |
| Settings.InferredConverts | src/components/SettingsScreen.tsx:155-169 | a custom value's inferred type converts it back to the same boolean text, the number read, the parsed value or the string itself |
| Settings.EncodedReadBack | src/components/SettingsScreen.tsx:215-255 | the `_b` object the screen builds, once decoded, reads back through getParam as the converted value the screen wrote, whatever type the reader asks for; the link text itself is not modelled (see "## Left out") |
| Settings.Shown | src/components/SettingsScreen.tsx:320-322 | the listed custom parameters are never longer than the full list |
| Settings.ShownIndex | src/components/SettingsScreen.tsx:618-619 | a listed row lies at a position of the full list holding a listed parameter, that row's parameter |
| Settings.ShownAppend | src/components/SettingsScreen.tsx:320-322 | the listing of two joined lists is the two listings joined |
| Settings.ShownIndexPrefix | src/components/SettingsScreen.tsx:618-619 | exactly `row` listed parameters come before the position of row `row` |
| Settings.ShownSplit | src/components/SettingsScreen.tsx:618-619 | the listing is the rows before, the row's parameter and the rows after |
| Settings.ShownUpdate | src/components/SettingsScreen.tsx:618-619 | replacing the parameter behind a row by a listed one changes exactly that row of the listing |
| Settings.ShownRemove | src/components/SettingsScreen.tsx:618-619 | removing the parameter behind a row removes exactly that row of the listing |
| Settings.RowEditHitsHidden | src/components/SettingsScreen.tsx:288-297 | as written: with includeSubset first, editing row 0 changes the hidden parameter and leaves the listing unchanged |
| Settings.Screen.constructor | src/components/SettingsScreen.tsx:27-182 | mounting gives the starting selection, base64 mode exactly for a readable `_b` value, and values and custom parameters from `_b` or else from the plain parameters |
| Settings.Screen.ProcessRegularParams | src/components/SettingsScreen.tsx:138-178 | the two loops yield the registered values and the custom parameters read from the URL |
| Settings.Screen.ToggleTrialSelection | src/components/SettingsScreen.tsx:299-309 | the selection becomes the toggled one; nothing else changes |
| Settings.Screen.ToggleSelectionMode | src/components/SettingsScreen.tsx:311-313 | the mode flips; nothing else changes |
| Settings.Screen.HandleParamChange | src/components/SettingsScreen.tsx:281-286 | that parameter takes the value, every other parameter keeps its value, and the rest of the state is unchanged |
| Settings.Screen.ToggleBooleanParam | src/components/SettingsScreen.tsx:360 | 'true' becomes 'false' and anything else 'true'; other parameters keep their values |
| Settings.Screen.AddCustomParam | src/components/SettingsScreen.tsx:315-317 | an empty string parameter is appended; nothing else changes |
| Settings.Screen.SetCustomName | src/components/SettingsScreen.tsx:288-297 | the name at that position of the full list changes; nothing else does |
| Settings.Screen.SetCustomType | src/components/SettingsScreen.tsx:288-297 | the type at that position of the full list changes; nothing else does |
| Settings.Screen.SetCustomValue | src/components/SettingsScreen.tsx:288-297 | as written: the value at that position of the full list changes; nothing else does |
| Settings.Screen.RemoveCustomParam | src/components/SettingsScreen.tsx:324-326 | as written: the parameter at that position of the full list goes and the others keep their order; out of range, nothing changes |
| Settings.Screen.SetShownCustomValue | src/components/SettingsScreen.tsx:618-619 | intended: exactly the edited row of the listing takes the value; hidden entries and the length are kept |
| Settings.Screen.RemoveShownCustomParam | src/components/SettingsScreen.tsx:618-619 | intended: the full list loses exactly the parameter behind the removed row, the others keeping their order, so exactly that row leaves the listing |
| Settings.Screen.ToggleUrlFormat | src/components/SettingsScreen.tsx:337-339 | the URL format flips; nothing else changes |
| Settings.Screen.GenerateLink | src/components/SettingsScreen.tsx:185-279 | the link is the plain or base64 form of `allParams` as the mode asks, and the selection is left sorted whenever a subset entry is written |

## Left out

- Rendering is left out: React rendering and asynchrony, canvas drawing, the DOM, styles, and the settings screen's copy button.
- Float arithmetic and rounding are left out: numbers are exact reals, and number-to-text conversion is a parameter `fmt`.
- Time and randomness are parameters: `Date.now()`, `performance.now()`, animation-frame timestamps, and `Math.random()`, which becomes a sequence of draws in [0, 1).
- Control-flow loops take a fuel bound, which the source does not have. A timeline that jumps forever ends in `OutOfFuel` instead of hanging the page.
- Foreign parsers are parameters: `Number`, `parseInt`, `parseFloat`, `JSON.parse` and `JSON.stringify`. So is URL and base64 decoding: the decoded `_b` object is an `Option` parameter.
- The settings screen does not build the URL string and does not base64-encode the JSON. The `Link` datatype carries the query parameters or the `_b` object instead.
- Settings.Screen.GenerateLink: always returns an `Encoded` link in base64 mode. In the source, `btoa` throws for a JSON text holding a character above U+00FF (a custom value such as "日本"), and then no link is produced. The base64 text is also put after `?_b=` without URL-encoding, so a `+` in it reads back as a space through `URLSearchParams.get`; `atob` then fails, and `getParam` falls back to the plain parameters. Neither failure is modelled, so `Settings.EncodedReadBack` holds for the decoded object, not for every link text.
- Sorting compares UTF-16 code units, as JavaScript's default `sort` does on strings (Strings.UnitLess; Strings.SupplementaryBeforeHighPlane shows where this differs from character order). `localeCompare` (used only for display order) is left out.
- Json.Entries: a string's entries are one per character, not one per UTF-16 code unit as `Object.entries` gives. A character above U+FFFF would be split into two lone surrogates, which a Dafny `char` cannot hold. Index keys of such a string are therefore not modelled.
- The upload component's network calls, FileUpload encoding and the backend are left out. The backend's existing directories are a finite set `existing`.
- Upload.ConvertArrayOfObjectsToCSV: a `null` or `undefined` row makes the source throw at `Object.keys(obj)`. Such a row can come from a flattener or a post-processing `fun` that returns it. The model writes it as a row of empty cells instead (Upload.RowRecords), because its entries are empty.
- Convert.ConvertData: a recording answer or guess result that is null or undefined makes the source throw a TypeError; the model returns an Err result with a message. The typed `Guess`, `SubTrial` and `Question` inputs rule out `guesses`, `colors` or `results` that are not arrays; those shapes are not modelled, and they do not become Err. A Quest's or a block survey's `data` that is not a list of questions is an Err in the model (`QuestStep`, `BlockStep`, `ProcessQuest`, `ProcessBlock`), whereas the source's `for…of` throws only when `data` is not iterable: a string `data` is iterated character by character without throwing, and that run is not modelled. The reading of the one element past the end, which the `<= length` loop bound produces and which the `!trial` check skips, is not modelled.
- Convert.ArrayToCsv: cells are not quoted when they contain newlines, as in the source. Convert.PlainCellAgrees states when its cells agree with Upload's escaping.
- StoreUI.Form.StepperUp: requires that the stepped sum reads as a number. A sum that `Math.min` reads as NaN is excluded, and so is storing NaN.
- StoreUI.Form.StepperDown: requires that the current value reads as a number. A value that `Number` turns into NaN is excluded, where the source stores NaN.
- StoreUI.Form.HandleSave: a built-in check that throws (it reads `length` of null or undefined) becomes an error result. Fields are marked touched, the errors stay as they were and nothing is saved; the exception that escapes the click handler is not modelled.
- StoreUI: the effect that recomputes errors when values change (src/components/storeui.tsx:107-122) is not modelled.
- Common.GetParam: for type 'string', the text "undefined" is returned as it is. Only other types turn it into `undefined`.
- Common.GetParam: `name in obj` on the prototype chain, and an array's `length`, are not modelled. Objects here hold only their own fields.
- Arrays.Sample: `n` is an integer. Fractional counts are not modelled.
- Experiment.Progress: a timeline of one trial gives None, where the source divides by zero (NaN or Infinity).
- Canvas.CanvasBlock.Advance: works on local copies of the pointer and store and writes them back once. The source writes refs during the loop, but no other code runs in between.
- Settings.Screen.SetCustomName: keeps full-list indexing, as written (see Findings).
- Settings.Screen.SetCustomType: keeps full-list indexing, as written (see Findings).
- Mastermind: the solution's random draw is a parameter `draw`. Timers are `Tick` calls.
- Json.Put: every new key goes last. JavaScript lists integer-like keys ("2", "10") first, in ascending order, so answers named "10" then "2" give the header order 10,2 here and 2,10 in the source; this also affects `Object.entries` order on the settings screen.
- Canvas.Resolve: generator slides are pure functions of (data, store). The source calls a generator again at the scan, at every tick, at a key press and at the slide end (src/components/canvasblock.tsx:163, 261, 314, 346). A generator that draws random numbers or reads the clock can show one slide and record the metadata or duration of another; that is not modelled.
- Components outside the core are not part of this model: device checks, fullscreen, microphone, voice recorder, quest, text and the plain input.

## Findings

| source | as written | input that shows it | evidently intended | confidence | as-written member | corrected member |
|---|---|---|---|---|---|---|
| src/components/experimentrunner.tsx:74 | the runner starts at pointer 0 and renders only content instructions; a leading `UpdateStore` or `IfGoto` renders nothing and nothing calls `next` | the timeline `[UPDATE_STORE, content]` | the mount runs the control-flow loop up to the first content | not executed | Runner.LeadingUpdateStalls | Runner.Runner.Start |
| src/components/mastermindlewrapper.tsx:220-226 | a misplaced colour is hinted whenever it occurs anywhere in the solution, so more hints than pegs can be given | solution red-green-green-green, guess blue-red-red-green | standard scoring: hints per colour limited by the unmatched pegs of that colour | not executed | Mastermind.OverClaimed | Mastermind.CheckGuessCorrected |
| src/components/storeui.tsx:278 | `field.max \|\| Infinity` treats a maximum of 0 as no maximum | max 0, step 1, value 0: + gives 1 | the stepper stops at the maximum, 0 included | not executed | StoreUI.StepUpPastZeroMax | StoreUI.StepUpCorrected |
| src/components/SettingsScreen.tsx:73-85 | a subset read from `_b` is kept only when a plain subset parameter is also present | `_b` = `{"includeSubset":"1,3"}`, three trials: all three are selected | the subset read from either source is the starting selection | not executed | Settings.DecodedSubsetDropped | Settings.InitialSelectionCorrected |
| src/components/SettingsScreen.tsx:618-619 | custom rows are numbered over the filtered list, but the edit and remove handlers index the full list | `?includeSubset=1,3&foo=bar`: editing row 0 (foo) changes the hidden includeSubset entry | a row's handlers change that row's parameter | not executed | Settings.RowEditHitsHidden | Settings.Screen.SetShownCustomValue |

/**
 * The Mastermind-like guessing game of the experiment: the guess scorer, one round
 * of the game as a class whose methods are its button handlers, and the wrapper
 * that alternates games with effort surveys until the time budget is spent.
 */
module Mastermind {
  import opened Wrappers
  import opened Json

  /** The palette. Grey stands for an empty slot and is never drawn into a solution. */
  datatype Color = Red | Blue | Yellow | Green | Grey

  datatype Status = Correct | WrongPosition | Incorrect

  datatype GuessResult = GuessResult(color: Color, status: Status)

  /** Occurrences of c in s. */
  function Count(s: seq<Color>, c: Color): (n: nat)
    ensures n <= |s|
  {
    if |s| == 0 then 0
    else Count(s[..|s| - 1], c) + (if s[|s| - 1] == c then 1 else 0)
  }

  /** A colour that occurs is in the sequence. */
  lemma {:induction false} CountedIn(s: seq<Color>, c: Color)
    requires Count(s, c) > 0
    ensures c in s
  {
    var n := |s| - 1;
    if s[n] != c {
      CountedIn(s[..n], c);
    }
  }

  /** Positions below n where both the guess and the solution hold c. */
  function Exact(solution: seq<Color>, guess: seq<Color>, n: nat, c: Color): (k: nat)
    requires n <= |solution| && n <= |guess|
    ensures k <= n
  {
    if n == 0 then 0
    else Exact(solution, guess, n - 1, c) + (if guess[n - 1] == c && solution[n - 1] == c then 1 else 0)
  }

  /** Exact matches of a colour never outnumber its occurrences in the solution. */
  lemma {:induction false} ExactAtMostCount(solution: seq<Color>, guess: seq<Color>, n: nat, c: Color)
    requires n <= |solution| && n <= |guess|
    ensures Exact(solution, guess, n, c) <= Count(solution[..n], c)
  {
    if n > 0 {
      ExactAtMostCount(solution, guess, n - 1, c);
      assert solution[..n][..n - 1] == solution[..n - 1];
    }
  }

  /** Occurrences of c in the solution that no exact match has used up. */
  function Leftover(solution: seq<Color>, guess: seq<Color>, c: Color): int
    requires |guess| == |solution|
  {
    Count(solution, c) - Exact(solution, guess, |guess|, c)
  }

  /**
   * The scorer's verdict. Every position keeps its colour; it is correct where guess
   * and solution agree, and otherwise a wrong-position hint whenever its colour has a
   * leftover occurrence in the solution.
   */
  function Score(solution: seq<Color>, guess: seq<Color>): (results: seq<GuessResult>)
    requires |guess| == |solution|
    ensures |results| == |guess|
    ensures forall i :: 0 <= i < |guess| ==> results[i].color == guess[i]
    ensures forall i :: 0 <= i < |guess| ==> (results[i].status == Correct <==> guess[i] == solution[i])
    ensures forall i :: 0 <= i < |guess| && results[i].status == WrongPosition ==> guess[i] in solution
  {
    assert forall c :: Leftover(solution, guess, c) > 0 ==> c in solution by {
      forall c | Leftover(solution, guess, c) > 0
        ensures c in solution
      {
        CountedIn(solution, c);
      }
    }
    seq(|guess|, i requires 0 <= i < |guess| =>
      GuessResult(guess[i],
        if guess[i] == solution[i] then Correct
        else if Leftover(solution, guess, guess[i]) > 0 then WrongPosition
        else Incorrect))
  }

  /** `counts[c] || 0`. */
  function Lookup(counts: map<Color, int>, c: Color): int
  {
    if c in counts then counts[c] else 0
  }

  /** The verdict of the first pass: exact matches only. */
  function FirstPass(solution: seq<Color>, guess: seq<Color>, i: nat): GuessResult
    requires i < |guess| && i < |solution|
  {
    GuessResult(guess[i], if guess[i] == solution[i] then Correct else Incorrect)
  }

  /** Results of colour c that are not incorrect, that is, the solution pegs they claim. */
  function Claimed(results: seq<GuessResult>, c: Color): (n: nat)
    ensures n <= |results|
  {
    if |results| == 0 then 0
    else
      var r := results[|results| - 1];
      Claimed(results[..|results| - 1], c) + (if r.color == c && r.status != Incorrect then 1 else 0)
  }

  lemma ClaimedSnoc(results: seq<GuessResult>, r: GuessResult, c: Color)
    ensures Claimed(results + [r], c) == Claimed(results, c) + (if r.color == c && r.status != Incorrect then 1 else 0)
  {
    assert (results + [r])[..|results|] == results;
  }

  /** Turning an incorrect result into a hint claims one more peg of its colour. */
  lemma {:induction false} ClaimedUpgrade(results: seq<GuessResult>, i: nat, c: Color)
    requires i < |results| && results[i].status == Incorrect
    ensures Claimed(results[i := GuessResult(results[i].color, WrongPosition)], c)
      == Claimed(results, c) + (if results[i].color == c then 1 else 0)
  {
    var n := |results|;
    var u := results[i := GuessResult(results[i].color, WrongPosition)];
    assert u[..n - 1] == if i < n - 1 then results[..n - 1][i := u[i]] else results[..n - 1];
    if i < n - 1 {
      ClaimedUpgrade(results[..n - 1], i, c);
    }
  }

  /** The reduce over the solution: how often each colour occurs in it. */
  method CountColors(solution: seq<Color>) returns (counts: map<Color, int>)
    ensures forall c :: Lookup(counts, c) == Count(solution, c)
  {
    counts := map[];
    for i := 0 to |solution|
      invariant forall c :: Lookup(counts, c) == Count(solution[..i], c)
    {
      assert solution[..i + 1][..i] == solution[..i];
      counts := counts[solution[i] := Lookup(counts, solution[i]) + 1];
    }
    assert solution[..|solution|] == solution;
  }

  /**
   * The first pass: exact matches are marked correct and taken off the counts, every
   * other position is marked incorrect. The marks claim exactly the exact matches.
   */
  method MarkExact(solution: seq<Color>, guess: seq<Color>, counts0: map<Color, int>)
    returns (counts: map<Color, int>, results: seq<GuessResult>)
    requires |guess| == |solution|
    requires forall c :: Lookup(counts0, c) == Count(solution, c)
    ensures |results| == |guess|
    ensures forall j :: 0 <= j < |guess| ==> results[j] == FirstPass(solution, guess, j)
    ensures forall c :: Lookup(counts, c) == Leftover(solution, guess, c)
    ensures forall c :: Claimed(results, c) == Exact(solution, guess, |guess|, c)
  {
    counts := counts0;
    results := [];
    for i := 0 to |guess|
      invariant Marking(solution, guess, counts, results, i)
    {
      counts, results := Mark(solution, guess, counts, results, i);
    }
  }

  /** What the first pass keeps after i positions: each exact match is marked and taken off its count. */
  predicate Marking(solution: seq<Color>, guess: seq<Color>, counts: map<Color, int>, results: seq<GuessResult>, i: nat)
    requires |guess| == |solution| && i <= |guess|
  {
    && |results| == i
    && (forall c :: Lookup(counts, c) == Count(solution, c) - Exact(solution, guess, i, c))
    && (forall c :: Claimed(results, c) == Exact(solution, guess, i, c))
    && (forall j :: 0 <= j < i ==> results[j] == FirstPass(solution, guess, j))
  }

  /** One position of the first pass. */
  method Mark(solution: seq<Color>, guess: seq<Color>, counts: map<Color, int>, results: seq<GuessResult>, i: nat)
    returns (counts': map<Color, int>, results': seq<GuessResult>)
    requires |guess| == |solution| && i < |guess|
    requires Marking(solution, guess, counts, results, i)
    ensures Marking(solution, guess, counts', results', i + 1)
    ensures results' == results + [FirstPass(solution, guess, i)]
  {
    var r := FirstPass(solution, guess, i);
    counts' := counts;
    if guess[i] == solution[i] {
      counts' := counts[guess[i] := Lookup(counts, guess[i]) - 1];
    }
    assert forall c :: Lookup(counts', c) == Lookup(counts, c) - (if guess[i] == c && solution[i] == c then 1 else 0);
    forall c ensures Claimed(results + [r], c) == Exact(solution, guess, i + 1, c) {
      ClaimedSnoc(results, r, c);
    }
    results' := results + [r];
  }

  /**
   * `checkGuess`: a count of the solution's colours, a first pass that marks exact
   * matches and takes them off the count, and a second pass that marks a remaining
   * position as a wrong-position hint when its colour's count is still positive.
   * The second pass leaves the count alone.
   */
  method CheckGuess(solution: seq<Color>, guess: seq<Color>) returns (results: seq<GuessResult>)
    requires |guess| == |solution|
    ensures results == Score(solution, guess)
    ensures |results| == |guess|
    ensures forall i :: 0 <= i < |guess| ==> results[i].color == guess[i]
    ensures forall i :: 0 <= i < |guess| ==> (results[i].status == Correct <==> guess[i] == solution[i])
  {
    var counts := CountColors(solution);
    counts, results := MarkExact(solution, guess, counts);
    for i := 0 to |guess|
      invariant |results| == |guess|
      invariant forall j :: 0 <= j < i ==> results[j] == Score(solution, guess)[j]
      invariant forall j :: i <= j < |guess| ==> results[j] == FirstPass(solution, guess, j)
    {
      if results[i].status == Correct {
        continue;
      }
      if Lookup(counts, guess[i]) > 0 {
        results := results[i := GuessResult(guess[i], WrongPosition)];
      }
    }
  }

  /**
   * The scorer as standard Mastermind feedback intends it: the second pass also takes
   * a hinted colour off the count, so no colour gets more correct or wrong-position
   * marks than it has pegs in the solution. Exact matches are scored as before, and
   * every hint it gives the original scorer gives too.
   */
  method CheckGuessCorrected(solution: seq<Color>, guess: seq<Color>) returns (results: seq<GuessResult>)
    requires |guess| == |solution|
    ensures |results| == |guess|
    ensures forall i :: 0 <= i < |guess| ==> results[i].color == guess[i]
    ensures forall i :: 0 <= i < |guess| ==> (results[i].status == Correct <==> guess[i] == solution[i])
    ensures forall i :: 0 <= i < |guess| && results[i].status == WrongPosition ==>
      Score(solution, guess)[i].status == WrongPosition
    ensures forall c :: Claimed(results, c) == Min(Count(solution, c), Count(guess, c))
  {
    var counts := CountColors(solution);
    counts, results := MarkExact(solution, guess, counts);
    forall c ensures Lookup(counts, c) >= 0 {
      ExactAtMostCount(solution, guess, |guess|, c);
      assert solution[..|guess|] == solution;
    }
    for i := 0 to |guess|
      invariant Hinting(solution, guess, counts, results, i)
    {
      if results[i].status == Correct {
        Skip(solution, guess, counts, results, i);
        continue;
      }
      var c := guess[i];
      if Lookup(counts, c) > 0 {
        counts, results := Hint(solution, guess, counts, results, i);
      } else {
        Skip(solution, guess, counts, results, i);
      }
    }
    forall c ensures Claimed(results, c) == Min(Count(solution, c), Count(guess, c)) {
      ClaimedAtMostGuessed(results, guess, c);
    }
  }

  function Min(a: int, b: int): int
  {
    if a <= b then a else b
  }

  /**
   * Results that keep the guess's colours claim at most as many pegs of a colour as
   * the guess holds, and exactly as many when none of its positions is incorrect.
   */
  lemma {:induction false} ClaimedAtMostGuessed(results: seq<GuessResult>, guess: seq<Color>, c: Color)
    requires |results| == |guess| && forall j :: 0 <= j < |guess| ==> results[j].color == guess[j]
    ensures Claimed(results, c) <= Count(guess, c)
    ensures (forall j :: 0 <= j < |guess| && guess[j] == c ==> results[j].status != Incorrect) ==>
      Claimed(results, c) == Count(guess, c)
  {
    if |guess| > 0 {
      var n := |guess| - 1;
      assert forall j :: 0 <= j < n ==> results[..n][j] == results[j] && guess[..n][j] == guess[j];
      ClaimedAtMostGuessed(results[..n], guess[..n], c);
    }
  }

  /**
   * What the second pass of the corrected scorer keeps after i positions: counts and
   * hints together account for each colour's pegs, and only positions already
   * visited that the original scorer hints are hinted.
   */
  predicate Hinting(solution: seq<Color>, guess: seq<Color>, counts: map<Color, int>, results: seq<GuessResult>, i: nat)
    requires |guess| == |solution|
  {
    && |results| == |guess|
    && (forall c :: 0 <= Lookup(counts, c) <= Leftover(solution, guess, c))
    && (forall c :: Lookup(counts, c) + Claimed(results, c) == Count(solution, c))
    && (forall j :: 0 <= j < |guess| ==> results[j].color == guess[j])
    && (forall j :: 0 <= j < |guess| ==> (results[j].status == Correct <==> guess[j] == solution[j]))
    && (forall j :: 0 <= j < |guess| && results[j].status == WrongPosition ==>
          j < i && Score(solution, guess)[j].status == WrongPosition)
    && (forall j :: 0 <= j < i && j < |guess| && results[j].status == Incorrect ==> Lookup(counts, guess[j]) == 0)
  }

  /** A position the corrected second pass leaves as it is: correct, or of a colour whose count is spent. */
  lemma Skip(solution: seq<Color>, guess: seq<Color>, counts: map<Color, int>, results: seq<GuessResult>, i: nat)
    requires |guess| == |solution| && i < |guess|
    requires Hinting(solution, guess, counts, results, i)
    requires results[i].status == Correct || Lookup(counts, guess[i]) <= 0
    ensures Hinting(solution, guess, counts, results, i + 1)
  {
  }

  /** One hint of the corrected second pass: the colour's count goes down as its claim goes up. */
  method Hint(solution: seq<Color>, guess: seq<Color>, counts: map<Color, int>, results: seq<GuessResult>, i: nat)
    returns (counts': map<Color, int>, results': seq<GuessResult>)
    requires |guess| == |solution| && i < |guess|
    requires Hinting(solution, guess, counts, results, i)
    requires results[i].status != Correct && Lookup(counts, guess[i]) > 0
    ensures Hinting(solution, guess, counts', results', i + 1)
    ensures results' == results[i := GuessResult(guess[i], WrongPosition)]
  {
    var c := guess[i];
    forall d ensures Claimed(results[i := GuessResult(c, WrongPosition)], d)
      == Claimed(results, d) + (if c == d then 1 else 0) {
      ClaimedUpgrade(results, i, d);
    }
    counts' := counts[c := Lookup(counts, c) - 1];
    assert forall d :: Lookup(counts', d) == Lookup(counts, d) - (if c == d then 1 else 0);
    results' := results[i := GuessResult(c, WrongPosition)];
  }

  /**
   * The original scorer can hand out more hints for a colour than the solution
   * holds: with one red peg, two red guesses off their positions are both hinted.
   */
  lemma OverClaimed()
    ensures var solution := [Red, Green, Green, Green];
      var guess := [Blue, Red, Red, Green];
      && Score(solution, guess)[1].status == WrongPosition
      && Score(solution, guess)[2].status == WrongPosition
      && Claimed(Score(solution, guess), Red) == 2 > Count(solution, Red) == 1
  {
    var solution := [Red, Green, Green, Green];
    var guess := [Blue, Red, Red, Green];
    assert Count([], Red) == 0;
    assert [Red][..0] == [];
    assert Count([Red], Red) == 1;
    assert [Red, Green][..1] == [Red];
    assert Count([Red, Green], Red) == 1;
    assert [Red, Green, Green][..2] == [Red, Green];
    assert Count([Red, Green, Green], Red) == 1;
    assert solution[..3] == [Red, Green, Green];
    assert Count(solution, Red) == 1;
    assert Exact(solution, guess, 1, Red) == 0;
    assert Exact(solution, guess, 2, Red) == 0;
    assert Exact(solution, guess, 3, Red) == 0;
    assert Exact(solution, guess, 4, Red) == 0;
    var s := Score(solution, guess);
    var b, r, g := GuessResult(Blue, Incorrect), GuessResult(Red, WrongPosition), GuessResult(Green, Correct);
    assert s == [b, r, r, g];
    assert Claimed([], Red) == 0;
    assert [b][..0] == [];
    assert Claimed([b], Red) == 0;
    assert [b, r][..1] == [b];
    assert Claimed([b, r], Red) == 1;
    assert [b, r, r][..2] == [b, r];
    assert Claimed([b, r, r], Red) == 2;
    assert [b, r, r, g][..3] == [b, r, r];
  }

  /** `results.every(r => r.status === 'correct')`. */
  predicate AllCorrect(results: seq<GuessResult>)
  {
    forall i :: 0 <= i < |results| ==> results[i].status == Correct
  }

  /** A guess is judged correct exactly when it is the solution. */
  lemma AllCorrectIffSolution(solution: seq<Color>, guess: seq<Color>)
    requires |guess| == |solution|
    ensures AllCorrect(Score(solution, guess)) <==> guess == solution
  {
    if AllCorrect(Score(solution, guess)) {
      forall i | 0 <= i < |guess| ensures guess[i] == solution[i] {
        assert Score(solution, guess)[i].status == Correct;
      }
    }
  }

  /** A guess as the board holds it: four slots, each empty or holding a colour. */
  type Slots = seq<Option<Color>>

  function EmptyGuess(): (g: Slots)
    ensures |g| == 4 && forall i :: 0 <= i < 4 ==> g[i].None?
  {
    [None, None, None, None]
  }

  /** `!guess.some(c => c === null)`. */
  predicate Complete(guess: Slots)
  {
    forall i :: 0 <= i < |guess| ==> guess[i].Some?
  }

  function Colors(guess: Slots): (cs: seq<Color>)
    requires Complete(guess)
    ensures |cs| == |guess| && forall i :: 0 <= i < |guess| ==> guess[i] == Some(cs[i])
  {
    seq(|guess|, i requires 0 <= i < |guess| => guess[i].value)
  }

  /**
   * A slot after a click. Without a real colour selected, a filled slot is emptied
   * and an empty one stays empty; clicking with the slot's own colour empties it;
   * any other click puts the selected colour there.
   */
  function SlotAfterClick(selected: Option<Color>, slot: Option<Color>): (r: Option<Color>)
  {
    if selected.None? || selected == Some(Grey) then
      if slot.Some? && slot != Some(Grey) then None else slot
    else if selected == slot then None
    else selected
  }

  /** With no colour selected a click can only empty the slot. */
  lemma ClickWithoutSelection(slot: Option<Color>)
    requires slot != Some(Grey)
    ensures SlotAfterClick(None, slot) == None
  {
  }

  /** With a colour selected, two clicks bring a slot back to what it was if it held that colour, and empty it otherwise. */
  lemma ClickTwice(c: Color, slot: Option<Color>)
    requires c != Grey
    ensures SlotAfterClick(Some(c), SlotAfterClick(Some(c), slot)) == if slot == Some(c) then slot else None
    ensures SlotAfterClick(Some(c), slot) == if slot == Some(c) then None else Some(c)
  {
  }

  /** A palette click: the selected colour is deselected, another one is selected. */
  function ToggleSelection(selected: Option<Color>, c: Color): (r: Option<Color>)
    ensures r == Some(c) <==> selected != Some(c)
    ensures r.None? <==> selected == Some(c)
  {
    if selected == Some(c) then None else Some(c)
  }

  /** One scored guess as the round passes it up. */
  datatype GuessData = GuessData(index: nat, colors: seq<Color>, results: seq<GuessResult>,
                                 isCorrect: bool, start: real, end: real, duration: real)

  /** One row of the guess history shown on the board. */
  datatype PastGuess = PastGuess(colors: seq<Color>, results: seq<GuessResult>)

  /** What `handleNext` passes up when the round is left. */
  datatype GameResult = GameResult(solution: seq<Color>, solved: bool, skipped: bool,
                                   timeLeft: int, guesses: seq<GuessData>)

  predicate ValidSolution(s: seq<Color>)
  {
    |s| == 4 && forall i :: 0 <= i < 4 ==> s[i] != Grey
  }

  predicate NoGrey(g: Slots)
  {
    forall i :: 0 <= i < |g| ==> g[i] != Some(Grey)
  }

  /**
   * The two guess logs grow together: each entry carries its position as index, four
   * colours and the scorer's verdict on them.
   */
  predicate Logged(solution: seq<Color>, accumulated: seq<GuessData>, previous: seq<PastGuess>)
    requires |solution| == 4
  {
    && |accumulated| == |previous|
    && (forall i :: 0 <= i < |accumulated| ==>
          && accumulated[i].index == i
          && accumulated[i].colors == previous[i].colors
          && accumulated[i].results == previous[i].results
          && |previous[i].colors| == 4
          && previous[i].results == Score(solution, previous[i].colors)
          && accumulated[i].isCorrect == AllCorrect(previous[i].results))
  }

  /** Logging a scored guess of four colours in both logs at the next index keeps them in step. */
  lemma LoggedAppend(solution: seq<Color>, accumulated: seq<GuessData>, previous: seq<PastGuess>, entry: GuessData)
    requires |solution| == 4 && Logged(solution, accumulated, previous)
    requires entry.index == |previous| && |entry.colors| == 4
    requires entry.results == Score(solution, entry.colors) && entry.isCorrect == AllCorrect(entry.results)
    ensures Logged(solution, accumulated + [entry], previous + [PastGuess(entry.colors, entry.results)])
  {
    var a, p := accumulated + [entry], previous + [PastGuess(entry.colors, entry.results)];
    assert a[|accumulated|] == entry && p[|previous|] == PastGuess(entry.colors, entry.results);
    assert forall i :: 0 <= i < |accumulated| ==> a[i] == accumulated[i] && p[i] == previous[i];
  }

  /** One round of the game (the `MasterMindle` component and its state hooks). */
  class Round {
    const solution: seq<Color>
    const maxGuesses: int
    /** The time budget the round was started with, reported unchanged. */
    const timeLeft: int
    var selectedColor: Option<Color>
    var currentGuess: Slots
    var localTimeLeft: int
    var guessesLeft: int
    var roundOver: bool
    var guessStartTime: real
    var accumulatedGuesses: seq<GuessData>
    var previousGuesses: seq<PastGuess>

    /**
     * The board has four slots and never shows grey as a choice; the two guess logs
     * grow together, each guess carries its position as index and the scorer's verdict
     * on it, a correct guess is the last one and ends the round, and with a positive
     * guess limit no more than that many guesses are scored.
     */
    predicate Valid()
      reads this
    {
      && ValidSolution(solution)
      && |currentGuess| == 4 && NoGrey(currentGuess)
      && selectedColor != Some(Grey)
      && Logged(solution, accumulatedGuesses, previousGuesses)
      && (forall i :: 0 <= i < |accumulatedGuesses| && accumulatedGuesses[i].isCorrect ==>
            roundOver && i == |accumulatedGuesses| - 1)
      && (maxGuesses >= 1 ==> |previousGuesses| <= maxGuesses)
      && (maxGuesses >= 1 && !roundOver ==> 0 <= guessesLeft && |previousGuesses| + guessesLeft + 1 == maxGuesses)
    }

    /** A fresh round: four empty slots, nothing selected, maxGuesses - 1 guesses left after the first. */
    constructor (draw: seq<Color>, maxGuesses: int, timeLeft: int, now: real)
      requires ValidSolution(draw)
      ensures Valid()
      ensures solution == draw && this.maxGuesses == maxGuesses && this.timeLeft == timeLeft
      ensures selectedColor == None && currentGuess == EmptyGuess() && localTimeLeft == timeLeft
      ensures guessesLeft == maxGuesses - 1 && !roundOver && guessStartTime == now
      ensures accumulatedGuesses == [] && previousGuesses == []
    {
      solution, this.maxGuesses, this.timeLeft := draw, maxGuesses, timeLeft;
      selectedColor, currentGuess, localTimeLeft := None, EmptyGuess(), timeLeft;
      guessesLeft, roundOver, guessStartTime := maxGuesses - 1, false, now;
      accumulatedGuesses, previousGuesses := [], [];
    }

    /**
     * The CHECK button at time `now`. An incomplete guess changes nothing. Otherwise
     * the guess is scored and logged and the selection cleared; a correct guess ends
     * the round and leaves guesses left, board and guess start alone. A wrong guess
     * uses up one guess and ends the round when, before that, none were left or the
     * time was out; the board is emptied and the next guess starts now.
     */
    method HandleCheck(now: real)
      requires Valid() && !roundOver
      modifies this
      ensures Valid()
      ensures !Complete(old(currentGuess)) ==> unchanged(this)
      ensures Complete(old(currentGuess)) ==>
        var colors := Colors(old(currentGuess));
        var results := Score(solution, colors);
        var correct := AllCorrect(results);
        && previousGuesses == old(previousGuesses) + [PastGuess(colors, results)]
        && accumulatedGuesses == old(accumulatedGuesses) + [GuessData(|old(previousGuesses)|, colors, results,
                                     correct, old(guessStartTime), now, now - old(guessStartTime))]
        && selectedColor == None && localTimeLeft == old(localTimeLeft)
        && (correct ==> && roundOver && guessesLeft == old(guessesLeft)
                        && currentGuess == old(currentGuess) && guessStartTime == old(guessStartTime))
        && (!correct ==> && guessesLeft == old(guessesLeft) - 1
                         && (roundOver <==> old(guessesLeft) == 0 || old(localTimeLeft) == 0)
                         && currentGuess == EmptyGuess() && guessStartTime == now)
    {
      if exists i :: 0 <= i < |currentGuess| && currentGuess[i].None? {
        return;
      }
      var isCorrect := LogGuess(now);
      if isCorrect {
        roundOver := true;
        return;
      }
      var before := guessesLeft;
      guessesLeft := guessesLeft - 1;
      if before == 0 {
        roundOver := true;
      }
      if localTimeLeft == 0 {
        roundOver := true;
      }
      currentGuess := EmptyGuess();
      guessStartTime := now;
    }

    /**
     * The part of the CHECK button every complete guess goes through: the guess is
     * scored, logged in both logs at the next index, and the selection cleared.
     */
    method LogGuess(now: real) returns (isCorrect: bool)
      requires Valid() && !roundOver && Complete(currentGuess)
      modifies this
      ensures var colors := Colors(old(currentGuess));
        var results := Score(solution, colors);
        && isCorrect == AllCorrect(results)
        && previousGuesses == old(previousGuesses) + [PastGuess(colors, results)]
        && accumulatedGuesses == old(accumulatedGuesses) + [GuessData(|old(previousGuesses)|, colors, results,
                                     isCorrect, old(guessStartTime), now, now - old(guessStartTime))]
      ensures Logged(solution, accumulatedGuesses, previousGuesses)
      ensures forall i :: 0 <= i < |accumulatedGuesses| && accumulatedGuesses[i].isCorrect ==>
        isCorrect && i == |accumulatedGuesses| - 1
      ensures selectedColor == None && currentGuess == old(currentGuess) && roundOver == old(roundOver)
      ensures localTimeLeft == old(localTimeLeft) && guessesLeft == old(guessesLeft)
      ensures guessStartTime == old(guessStartTime)
    {
      var colors := Colors(currentGuess);
      var results := CheckGuess(solution, colors);
      isCorrect := AllCorrect(results);
      var entry := GuessData(|previousGuesses|, colors, results, isCorrect, guessStartTime, now, now - guessStartTime);
      LoggedAppend(solution, accumulatedGuesses, previousGuesses, entry);
      accumulatedGuesses := accumulatedGuesses + [entry];
      previousGuesses := previousGuesses + [PastGuess(colors, results)];
      selectedColor := None;
    }

    /** A click on slot `index`; nothing happens once the round is over. */
    method SlotClick(index: nat)
      requires Valid() && index < 4
      modifies this
      ensures Valid()
      ensures currentGuess == if old(roundOver) then old(currentGuess)
        else old(currentGuess)[index := SlotAfterClick(selectedColor, old(currentGuess)[index])]
      ensures selectedColor == old(selectedColor) && roundOver == old(roundOver)
      ensures localTimeLeft == old(localTimeLeft) && guessesLeft == old(guessesLeft)
      ensures guessStartTime == old(guessStartTime)
      ensures accumulatedGuesses == old(accumulatedGuesses) && previousGuesses == old(previousGuesses)
    {
      if roundOver {
        return;
      }
      currentGuess := currentGuess[index := SlotAfterClick(selectedColor, currentGuess[index])];
    }

    /** A click on a palette colour (grey is not offered); nothing happens once the round is over. */
    method SelectColor(c: Color)
      requires Valid() && c != Grey
      modifies this
      ensures Valid()
      ensures selectedColor == if old(roundOver) then old(selectedColor) else ToggleSelection(old(selectedColor), c)
      ensures currentGuess == old(currentGuess) && roundOver == old(roundOver)
      ensures localTimeLeft == old(localTimeLeft) && guessesLeft == old(guessesLeft)
      ensures guessStartTime == old(guessStartTime)
      ensures accumulatedGuesses == old(accumulatedGuesses) && previousGuesses == old(previousGuesses)
    {
      if roundOver {
        return;
      }
      selectedColor := ToggleSelection(selectedColor, c);
    }

    /** The CLEAR button, shown while the round runs. */
    method Clear()
      requires Valid() && !roundOver
      modifies this
      ensures Valid()
      ensures currentGuess == EmptyGuess()
      ensures selectedColor == old(selectedColor) && roundOver == old(roundOver)
      ensures localTimeLeft == old(localTimeLeft) && guessesLeft == old(guessesLeft)
      ensures guessStartTime == old(guessStartTime)
      ensures accumulatedGuesses == old(accumulatedGuesses) && previousGuesses == old(previousGuesses)
    {
      currentGuess := EmptyGuess();
    }

    /** One second of the round's timer, which runs only while the round is not over and stops at zero. */
    method Tick()
      requires Valid() && !roundOver
      modifies this
      ensures Valid()
      ensures localTimeLeft == if old(localTimeLeft) - 1 > 0 then old(localTimeLeft) - 1 else 0
      ensures selectedColor == old(selectedColor) && roundOver == old(roundOver)
      ensures currentGuess == old(currentGuess) && guessesLeft == old(guessesLeft)
      ensures guessStartTime == old(guessStartTime)
      ensures accumulatedGuesses == old(accumulatedGuesses) && previousGuesses == old(previousGuesses)
    {
      localTimeLeft := if localTimeLeft - 1 > 0 then localTimeLeft - 1 else 0;
    }

    /**
     * `handleNext(skipped)`: the result passed up and the time left handed back to
     * the wrapper. The round counts as solved exactly when its last guess was correct,
     * which only a finished round can have.
     */
    method HandleNext(skipped: bool) returns (result: GameResult, remaining: int)
      requires Valid()
      ensures result == GameResult(solution, result.solved, skipped, timeLeft, accumulatedGuesses)
      ensures result.solved <==> exists i :: 0 <= i < |accumulatedGuesses| && accumulatedGuesses[i].isCorrect
      ensures result.solved <==>
        |accumulatedGuesses| > 0 && accumulatedGuesses[|accumulatedGuesses| - 1].isCorrect
      ensures result.solved ==> roundOver
      ensures remaining == localTimeLeft
    {
      var solved := exists i :: 0 <= i < |accumulatedGuesses| && accumulatedGuesses[i].isCorrect;
      result := GameResult(solution, solved, skipped, timeLeft, accumulatedGuesses);
      remaining := localTimeLeft;
    }
  }

  /** Which screen the wrapper shows. */
  datatype Phase = Game | Survey

  function Other(p: Phase): Phase
  {
    if p == Game then Survey else Game
  }

  /** What a game or a survey hands to `switchGameState`. */
  datatype Payload = GamePayload(game: GameResult) | SurveyPayload(answers: Value)

  datatype TrialData = TrialData(kind: Phase, index: nat, start: real, end: real, duration: real, data: Payload)

  /** The block's data, passed up when the last survey is done. */
  datatype BlockData = BlockData(blockIndex: int, feedbackType: int, timeLimit: int, data: seq<TrialData>)

  /** The phase of the trial with index i: games at even, surveys at odd indices. */
  function PhaseAt(i: nat): Phase
  {
    if i % 2 == 0 then Game else Survey
  }

  /** The `MasterMindleWrapper` component: games and surveys in turn, one time budget. */
  class Wrapper {
    const blockIndex: int
    const feedback: int
    const timeLimit: int
    var gameState: Phase
    var timeLeft: int
    var trialStartTime: real
    var accumulatedData: seq<TrialData>
    var quitLastGame: bool
    var trialIndex: nat
    /** What was passed to the experiment's `next`, once the block is over. */
    var finished: Option<BlockData>

    /** Trials alternate game, survey, game, ...; each carries its position as index. */
    predicate Valid()
      reads this
    {
      && trialIndex == |accumulatedData|
      && gameState == PhaseAt(trialIndex)
      && (forall i :: 0 <= i < |accumulatedData| ==>
            accumulatedData[i].index == i && accumulatedData[i].kind == PhaseAt(i))
      && (finished.Some? ==>
            && |finished.value.data| % 2 == 0 && |finished.value.data| > 0
            && forall i :: 0 <= i < |finished.value.data| ==>
                 finished.value.data[i].index == i && finished.value.data[i].kind == PhaseAt(i))
    }

    constructor (blockIndex: int, feedback: int, timeLimit: int, now: real)
      ensures Valid()
      ensures this.blockIndex == blockIndex && this.feedback == feedback && this.timeLimit == timeLimit
      ensures gameState == Game && timeLeft == timeLimit && trialStartTime == now
      ensures accumulatedData == [] && !quitLastGame && trialIndex == 0 && finished == None
    {
      this.blockIndex, this.feedback, this.timeLimit := blockIndex, feedback, timeLimit;
      gameState, timeLeft, trialStartTime := Game, timeLimit, now;
      accumulatedData, quitLastGame, trialIndex, finished := [], false, 0, None;
    }

    /**
     * `switchGameState(newData)` at time `now`. The finished trial is recorded; after
     * a survey with no time left the block ends with every trial. Otherwise the trial
     * is appended, the next one starts now with the next index in the other phase,
     * and a finished survey clears the skip flag.
     */
    method SwitchGameState(newData: Payload, now: real)
      requires Valid() && finished.None?
      modifies this
      ensures Valid()
      ensures var trial := TrialData(old(gameState), old(trialIndex), old(trialStartTime), now,
                                     now - old(trialStartTime), newData);
        if old(gameState) == Survey && old(timeLeft) <= 0 then
          && finished == Some(BlockData(blockIndex, feedback, timeLimit, old(accumulatedData) + [trial]))
          && accumulatedData == old(accumulatedData) && trialIndex == old(trialIndex)
          && gameState == old(gameState) && trialStartTime == old(trialStartTime)
          && quitLastGame == old(quitLastGame)
        else
          && finished == None
          && accumulatedData == old(accumulatedData) + [trial]
          && trialIndex == old(trialIndex) + 1
          && gameState == Other(old(gameState))
          && trialStartTime == now
          && quitLastGame == (old(quitLastGame) && old(gameState) == Game)
      ensures timeLeft == old(timeLeft)
    {
      var trial := TrialData(gameState, trialIndex, trialStartTime, now, now - trialStartTime, newData);
      if gameState == Survey && timeLeft <= 0 {
        finished := Some(BlockData(blockIndex, feedback, timeLimit, accumulatedData + [trial]));
        return;
      }
      accumulatedData := accumulatedData + [trial];
      if gameState == Survey {
        quitLastGame := false;
      }
      trialStartTime := now;
      trialIndex := trialIndex + 1;
      gameState := Other(gameState);
    }

    /**
     * A round's NEXT or SKIP button: skipping sets the skip flag, the round's time left
     * becomes the wrapper's, and the game's result is recorded.
     */
    method FinishGame(result: GameResult, remaining: int, skipped: bool, now: real)
      requires Valid() && finished.None? && gameState == Game
      modifies this
      ensures Valid()
      ensures finished == None && gameState == Survey && timeLeft == remaining
      ensures accumulatedData == old(accumulatedData) + [TrialData(Game, old(trialIndex), old(trialStartTime), now,
                                                                  now - old(trialStartTime), GamePayload(result))]
      ensures quitLastGame == (skipped || old(quitLastGame))
      ensures trialIndex == old(trialIndex) + 1 && trialStartTime == now
    {
      if skipped {
        quitLastGame := true;
      }
      timeLeft := remaining;
      SwitchGameState(GamePayload(result), now);
    }
  }
}

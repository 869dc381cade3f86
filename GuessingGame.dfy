/**
  The round engine of the number-guessing game: the difficulty table, the
  numbered difficulty menu, and one round of guessing against a secret
  target. Console reads become a finite sequence of inputs, each either a
  line that does not parse as an integer or an integer; the random target
  and the measured time are parameters.
 */
module GuessingGame {
  import opened Wrappers

  datatype Difficulty = Easy | Medium | Hard

  /** The difficulty levels in the order the menu lists them. */
  const Levels: seq<Difficulty> := [Easy, Medium, Hard]

  /** Number of chances a round of the given difficulty allows. */
  function MaxAttempts(d: Difficulty): (n: nat)
    ensures n > 0
  {
    match d
    case Easy => 10
    case Medium => 5
    case Hard => 3
  }

  /** The menu's list holds every level. */
  lemma EveryLevelIsListed(d: Difficulty)
    ensures d == Easy || d == Medium || d == Hard
    ensures d in Levels
  {
    match d
    case Easy =>
    case Medium =>
    case Hard =>
  }

  /** A harder level never allows more chances than an easier one. */
  lemma HarderLevelsAllowFewerAttempts(i: nat, j: nat)
    requires i < j < |Levels|
    ensures MaxAttempts(Levels[j]) < MaxAttempts(Levels[i])
  {
  }

  /** The number printed in front of a level in the difficulty menu. */
  function MenuNumber(d: Difficulty): (k: int)
    ensures 1 <= k <= |Levels| && Levels[k - 1] == d
  {
    match d
    case Easy => 1
    case Medium => 2
    case Hard => 3
  }

  /** The level picked by a menu choice, or None for a number outside 1..3. */
  function LevelOfChoice(choice: int): (r: Option<Difficulty>)
    ensures r.Some? <==> 1 <= choice <= |Levels|
    ensures r.Some? ==> MenuNumber(r.value) == choice
  {
    if 1 <= choice <= |Levels| then Some(Levels[choice - 1]) else None
  }

  /** Choosing the number shown next to a level selects that level (the other
      direction is LevelOfChoice's contract), and the menu lists every level
      exactly once. */
  lemma MenuRoundTrip(d: Difficulty)
    ensures LevelOfChoice(MenuNumber(d)) == Some(d)
    ensures forall i, j :: 0 <= i < j < |Levels| ==> Levels[i] != Levels[j]
  {
  }

  /** One line read from the console: not an integer, or an integer. */
  datatype Input = NotInt | Int(n: int)

  /** What the game answers to one input of a round. */
  datatype Feedback = NotANumber | OutOfRange | Higher | Lower | Correct

  /** The outcome of a finished round: the attempts used and, for a won
      round only, the time taken (in hundredths of a second). */
  datatype RoundResult = RoundResult(attempts: nat, time: Option<nat>)

  const Lowest := 1
  const Highest := 100

  /** An input that counts as a guess: an integer within 1..100. */
  predicate InRange(i: Input)
  {
    i.Int? && Lowest <= i.n <= Highest
  }

  /** The number of inputs in `s` that count as guesses. */
  function Guesses(s: seq<Input>): (n: nat)
    ensures n <= |s|
  {
    if s == [] then 0
    else Guesses(s[..|s| - 1]) + (if InRange(s[|s| - 1]) then 1 else 0)
  }

  /** Reading one more input adds one guess exactly when it is in range:
      a non-integer or an out-of-range integer costs no attempt. */
  lemma OnlyInRangeInputsCount(s: seq<Input>, i: Input)
    ensures InRange(i) ==> Guesses(s + [i]) == Guesses(s) + 1
    ensures !InRange(i) ==> Guesses(s + [i]) == Guesses(s)
  {
  }

  /** The same fact for the prefixes of one input stream. */
  lemma GuessesStep(s: seq<Input>, k: nat)
    requires k < |s|
    ensures Guesses(s[..k + 1]) == Guesses(s[..k]) + (if InRange(s[k]) then 1 else 0)
  {
    assert s[..k + 1] == s[..k] + [s[k]];
    OnlyInRangeInputsCount(s[..k], s[k]);
  }

  /** Reading more input never lowers the number of guesses. */
  lemma {:induction false} GuessesMonotone(s: seq<Input>, i: nat, j: nat)
    requires i <= j <= |s|
    ensures Guesses(s[..i]) <= Guesses(s[..j])
  {
    if i < j {
      GuessesMonotone(s, i, j - 1);
      GuessesStep(s, j - 1);
    }
  }

  /** The round was won by the k-th input read. */
  predicate SolvedAt(target: int, s: seq<Input>, k: nat)
  {
    0 < k <= |s| && s[k - 1] == Int(target)
  }

  /** After the first k inputs the round is over: the last of them was the
      target, or no attempt is left. */
  predicate Stops(target: int, maxAttempts: nat, s: seq<Input>, k: nat)
    requires k <= |s|
  {
    SolvedAt(target, s, k) || maxAttempts <= Guesses(s[..k])
  }

  /** At the first point where a round stops it has used at most the allowed
      attempts, a won round has used at least one, and a round stopped by its
      attempts has used exactly the allowed number. */
  lemma {:induction false} FirstStopBounds(target: int, maxAttempts: nat, s: seq<Input>, k: nat)
    requires Lowest <= target <= Highest
    requires k <= |s|
    requires forall j :: 0 <= j < k ==> !Stops(target, maxAttempts, s, j)
    ensures Guesses(s[..k]) <= maxAttempts
    ensures SolvedAt(target, s, k) ==> 1 <= Guesses(s[..k])
    ensures Stops(target, maxAttempts, s, k) && !SolvedAt(target, s, k) ==> Guesses(s[..k]) == maxAttempts
  {
    if k == 0 {
      assert s[..0] == [];
    } else {
      assert !Stops(target, maxAttempts, s, k - 1);
      GuessesStep(s, k - 1);
    }
  }

  /** Feedback f answers input i of a round whose target is `target`. */
  predicate Describes(target: int, i: Input, f: Feedback)
  {
    && (f == NotANumber <==> i.NotInt?)
    && (f == OutOfRange <==> i.Int? && !InRange(i))
    && (f == Correct <==> i == Int(target))
    && (f == Higher <==> InRange(i) && i.n < target)
    && (f == Lower <==> InRange(i) && i.n > target)
  }

  /** An input the difficulty menu accepts. */
  predicate IsChoice(i: Input)
  {
    i.Int? && LevelOfChoice(i.n).Some?
  }

  /**
    Re-prompts until an integer 1..3 is entered and returns the level it
    selects, or None when the input runs out first. `consumed` is the number
    of inputs read.
   */
  method SelectDifficulty(inputs: seq<Input>) returns (choice: Option<Difficulty>, consumed: nat)
    ensures consumed <= |inputs|
    ensures choice.Some? ==> 0 < consumed && inputs[consumed - 1].Int?
                             && choice == LevelOfChoice(inputs[consumed - 1].n)
    ensures choice.None? ==> consumed == |inputs|
    ensures choice.Some? ==> forall j :: 0 <= j < consumed - 1 ==> !IsChoice(inputs[j])
    ensures choice.None? ==> forall j :: 0 <= j < |inputs| ==> !IsChoice(inputs[j])
  {
    consumed := 0;
    while consumed < |inputs|
      invariant consumed <= |inputs|
      invariant forall j :: 0 <= j < consumed ==> !IsChoice(inputs[j])
    {
      var input := inputs[consumed];
      consumed := consumed + 1;
      if input.Int? && 1 <= input.n <= |Levels| {
        return LevelOfChoice(input.n), consumed;
      }
    }
    choice := None;
  }

  /**
    One round against `target`, allowing `maxAttempts` in-range guesses.
    Returns the round's result (None when the input ran out before the round
    was over), the number of inputs read and the feedback given to each.
    `elapsed` is the time, in hundredths of a second, measured at the
    winning guess.
   */
  method PlayRound(target: int, maxAttempts: nat, inputs: seq<Input>, elapsed: nat)
    returns (result: Option<RoundResult>, consumed: nat, feedback: seq<Feedback>)
    requires Lowest <= target <= Highest
    ensures consumed <= |inputs|
    // the round reads input up to the first point where it is over, no further
    ensures forall j :: 0 <= j < consumed ==> !Stops(target, maxAttempts, inputs, j)
    ensures result.Some? <==> Stops(target, maxAttempts, inputs, consumed)
    ensures result.None? ==> consumed == |inputs|
    // attempts: the in-range guesses read, never more than allowed
    ensures result.Some? ==> result.value.attempts == Guesses(inputs[..consumed])
    ensures result.Some? ==> result.value.attempts <= maxAttempts
    // won: the last input read is the target, and there is a time
    ensures result.Some? ==>
              (result.value.time == if SolvedAt(target, inputs, consumed) then Some(elapsed) else None)
    ensures result.Some? && result.value.time.Some? ==> 1 <= result.value.attempts
    ensures result.Some? && result.value.time.None? ==> result.value.attempts == maxAttempts
    // never guessed, with enough guesses: lost after exactly maxAttempts guesses
    ensures ((forall j :: 0 <= j < |inputs| ==> inputs[j] != Int(target)) && maxAttempts <= Guesses(inputs))
              ==> result == Some(RoundResult(maxAttempts, None))
    // one answer per input read
    ensures |feedback| == consumed
    ensures forall j :: 0 <= j < consumed ==> Describes(target, inputs[j], feedback[j])
  {
    var attempts := 0;
    consumed, feedback := 0, [];
    while attempts < maxAttempts
      invariant consumed <= |inputs|
      invariant attempts == Guesses(inputs[..consumed]) && attempts <= maxAttempts
      invariant forall j :: 0 <= j < consumed ==> !Stops(target, maxAttempts, inputs, j)
      invariant !SolvedAt(target, inputs, consumed)
      invariant |feedback| == consumed
      invariant forall j :: 0 <= j < consumed ==> Describes(target, inputs[j], feedback[j])
      decreases |inputs| - consumed
    {
      if consumed == |inputs| {
        assert inputs[..consumed] == inputs;
        return None, consumed, feedback;
      }
      var input := inputs[consumed];
      GuessesStep(inputs, consumed);
      consumed := consumed + 1;
      if input.NotInt? {
        feedback := feedback + [NotANumber];
      } else if input.n < Lowest || input.n > Highest {
        feedback := feedback + [OutOfRange];
      } else {
        attempts := attempts + 1;
        if input.n == target {
          feedback := feedback + [Correct];
          return Some(RoundResult(attempts, Some(elapsed))), consumed, feedback;
        }
        feedback := feedback + [if input.n < target then Higher else Lower];
      }
    }
    result := Some(RoundResult(attempts, None));
  }
}

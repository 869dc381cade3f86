# Number guessing game: round engine and score store

A Dafny model of a single-player console number-guessing game. It has two parts.

- **The round engine** (`GuessingGame`). There are three difficulty levels: easy allows 10 guesses, medium 5 and hard 3. A numbered menu selects the level. One round is played against a secret target in 1..100. An input that is not an integer, or an integer outside 1..100, is rejected and costs no attempt. Each in-range guess costs one attempt and gets the answer "higher", "lower" or "correct". The round ends at the first correct guess, with the attempts used and the time taken. It also ends when the attempts run out, with the maximum attempt count and no time.
- **The score store** (`HighScores`). It keeps one best score per difficulty. A result replaces the stored score only if it is lexicographically better: fewer attempts, or as many attempts in strictly less time. An unset record counts as infinitely bad. So does the time of a lost round. A new manager with no record file starts with every difficulty unset. After every improvement the whole table is written to the record file.

Modelling choices:

- Console reads are a finite `seq<Input>`, with `Input = NotInt | Int(n)`. When the input runs out before the round or the menu is over, the result is `None`. In the program, `input()` would raise an end-of-file error. That error is not a `ValueError`, so it leaves the loop.
- The random target, the clock and the `round(..., 2)` call are not modelled. The target is a parameter that must lie in 1..100. The time is a parameter counted in hundredths of a second (`nat`). This is the precision `round(..., 2)` keeps.
- Floating-point infinity becomes the extended naturals `ENat = Fin(n) | Inf` (module `Extended`). They have an exact strict order: `Inf` is above every finite value and `Inf < Inf` is false. Attempts and times are both `ENat` in a stored score.
- The record file is the ghost field `saved`. The ghost field `reported` keeps every result offered to each difficulty. With it, the class invariant `Valid()` states that each stored entry is the best of everything reported for that difficulty.

Three details of the program that the model keeps:

- The round result is the pair (attempts, time or None). The target is not returned (main.py:60, 71).
- The "no record" marker is infinity in both fields of an entry (main.py:82-84).
- At main.py:136, a measured time of exactly `0.0` is also turned into infinity, because `0.0` is falsy in Python. `TimeOrInf` and `ZeroTimeIsOfferedAsUnsolved` model this.

## Model

| member | source | states |
|---|---|---|
| `GuessingGame.MaxAttempts` | main.py:8-12 | every difficulty allows at least one guess; the table values are given by the function's body |
| `GuessingGame.HarderLevelsAllowFewerAttempts` | main.py:8-12 | in menu order, each harder level allows strictly fewer attempts |
| `GuessingGame.EveryLevelIsListed` | main.py:8-12 | the level table has exactly the three levels easy, medium and hard, all listed in the menu |
| `GuessingGame.MenuNumber` | main.py:17-18 | each level is shown with a number in 1..3, and that number picks the level back out of the list |
| `GuessingGame.LevelOfChoice` | main.py:23-27 | a choice selects a level exactly when it is in 1..3; the level selected is the one shown with that number |
| `GuessingGame.MenuRoundTrip` | main.py:17-25 | choosing the number shown next to a level selects that level, and the menu lists no level twice |
| `GuessingGame.SelectDifficulty` | main.py:20-29 | the menu re-prompts past every non-integer and every integer outside 1..3; it returns the level of the first accepted choice, or None if the input runs out without one |
| `GuessingGame.Guesses` | main.py:47-53 | the number of inputs that count as guesses is at most the number of inputs read |
| `GuessingGame.OnlyInRangeInputsCount` | main.py:47-53 | one more input adds one attempt if it is an integer in 1..100, and none if it is a non-integer or out of range |
| `GuessingGame.GuessesStep` | main.py:49-53 | the same step rule for successive prefixes of one input stream |
| `GuessingGame.GuessesMonotone` | main.py:53 | reading more input never lowers the attempt count |
| `GuessingGame.FirstStopBounds` | main.py:42-60 | where a round first stops, it has used at most the maximum attempts; a win has used at least one, and a stop without a win has used exactly the maximum |
| `GuessingGame.PlayRound` | main.py:31-71 | the round reads input up to the first point where it is won or out of attempts, and no further; attempts equal the in-range guesses read and never exceed the maximum; a win returns one or more attempts and the time; a stop without a win returns (max, None); if no input is the target and there are enough in-range guesses, the result is (max, None); each input read gets its answer: not a number, out of range, correct iff it equals the target, higher iff it is in range and below the target, lower iff it is in range and above it |
| `Extended.LessIsIrreflexive` | main.py:94-95 | no value is below itself, so the `inf < inf` comparison is false |
| `Extended.LessIsTransitive` | main.py:94-95 | the order used for attempts and times is transitive |
| `Extended.LessIsTrichotomous` | main.py:94-95 | any two attempt or time values are equal or strictly ordered one way, and never both ways |
| `Extended.InfIsTop` | main.py:82-84 | a value is below the "no record" infinity exactly when it is finite; nothing is above infinity |
| `HighScores.ImprovesIsStrictTotalOrder` | main.py:94-95 | the "better score" test is irreflexive and transitive, and of two distinct scores exactly one is better |
| `HighScores.NoWorseIsTotalOrder` | main.py:94-95 | "at least as good" is reflexive, total, transitive and antisymmetric |
| `HighScores.Merge` | main.py:92-97 | the entry kept after an offer is the candidate or the stored entry, and it is at least as good as both |
| `HighScores.RepeatedOfferIsNoImprovement` | main.py:94-95 | offering the same result a second time improves nothing and leaves the entry unchanged |
| `HighScores.MergeOrderIrrelevant` | main.py:92-97 | the entry kept after two offers does not depend on their order |
| `HighScores.BestOfIsBest` | main.py:90-104 | after any sequence of offers, the entry is at least as good as the starting entry and every offer, and it is one of them |
| `HighScores.DefaultScores` | main.py:80-85 | with no record file, every difficulty has the entry (inf, inf) |
| `HighScores.AnyResultImprovesUnrecorded` | main.py:82-84 | any result with a finite attempt count improves an unset entry and replaces it |
| `HighScores.TimeOrInf` | main.py:136 | the time becomes infinity exactly when the round was lost or took 0 time; otherwise it is the measured time |
| `HighScores.Candidate` | main.py:135-136 | a finished round is offered with its attempt count; a win in positive time keeps its time, while a lost round or a win in zero time is offered with time Inf |
| `HighScores.WonRoundBeatsLostRound` | main.py:94-95 | with equal attempts, a round won in positive time improves on a lost round, and a lost round never improves on it |
| `HighScores.LostRoundReplacesOnlyUnsetOrWorse` | main.py:94-95 | a lost round improves an entry exactly when that entry has more attempts or none; it always fills an unset entry |
| `HighScores.ZeroTimeIsOfferedAsUnsolved` | main.py:136 | a win in 0 time is offered exactly as a lost round with the same attempts |
| `HighScores.HighScoreManager.constructor` | main.py:74-85 | a new manager with no record file holds the default table, has written no file yet and has had nothing reported |
| `HighScores.HighScoreManager.EntryBeatsEveryReport` | main.py:90-104 | every stored entry is at least as good as every result ever offered for its difficulty |
| `HighScores.HighScoreManager.UpdateHighScore` | main.py:90-104 | returns true iff the candidate has fewer attempts, or as many attempts and strictly less time; on true it replaces that one entry and the record file then holds the whole table; on false nothing changes; other difficulties never change; the new entry is at least as good as both the old entry and the candidate |
| `HighScores.RecordRound` | main.py:135-136 | a finished round is offered with a missing or zero time turned into infinity; the table entry becomes the better of the old entry and the round; the record file holds the new table on improvement and is untouched otherwise; the round joins that difficulty's history |

## Left out

- Console output is not modelled: the prompts, "Remaining attempts", the congratulation and game-over texts, and the menu's error messages (main.py:16-18, 27, 29, 37-38, 45, 58-59, 70, 102). Only the round feedback is modelled, as `Feedback` values.
- `display_high_scores` (main.py:106-114) only formats text, so it is not modelled.
- The interactive menu loop `main`, the play-again prompt and the catch-all exception handler (main.py:116-157) are interaction, not logic, so they are not modelled.
- `random.randint(1, 100)` (main.py:33) is not modelled. The target is a parameter that must lie in 1..100.
- `time.time()` and `round(..., 2)` (main.py:40, 56-57) are not modelled. The winning time is one parameter in hundredths of a second.
- The file-exists branch of `load_high_scores` (main.py:87-88) and `json.dump` (main.py:99-100) are file I/O, so they are not modelled. The written file is the ghost snapshot `saved`, and the manager always starts from the default table.
- The `filename` constructor argument (main.py:74-75) only names that file, so it has no counterpart.
- The in-place mutation of the inner score dictionary (main.py:96-97) becomes a map update of the table field. Python's aliasing of that inner dictionary is not modelled.
- PlayRound: takes the maximum attempts as a parameter instead of looking up the difficulty (main.py:34). A caller passes `MaxAttempts(d)`. The model also allows a maximum of 0, which the table never holds.
- MaxAttempts: its contract states only that the count is positive. The values 10, 5 and 3 are given only by its body; `HarderLevelsAllowFewerAttempts` states only that they strictly decrease.
- PlayRound: the elapsed time is a `nat`, so the model does not capture a negative wall-clock difference. `time.time()` can step backwards, and a negative `time_taken` is truthy at main.py:136, so the program would store it as a record.
- Guesses: its own contract states only the bound by the input length. Its counting rule is stated by `OnlyInRangeInputsCount` and `GuessesStep`.

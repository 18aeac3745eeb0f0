# Arithmetic tower game: a verified model of its logic

The game (a browser game written in TypeScript) asks players to solve small
arithmetic problems. This project models its logic in Dafny and proves
properties of that model. That logic is:

- a small toolkit for equations, in `src/utils/`:
  - an evaluator that gives `x` and `/` precedence over `+` and `-`;
  - a syntax validator;
  - a backtracking generator of all equations of a given length whose
    value is a target;
- the game-state classes:
  - the player;
  - the boss and its phases;
  - the two basic-enemy classes;
  - the basic and boss screen models;
  - the speed game's model, which asks timed questions built from generated
    equations and keeps a score;
  - the speed game's controller, which turns keystrokes into answers and
    scores them.

One Dafny module per source file:

| file | module | models |
|---|---|---|
| `equation_solver.dfy` | `EquationSolver` | `src/utils/equationSolver.ts` |
| `validate_equation.dfy` | `ValidateEquation` | `src/utils/validateEquation.ts` |
| `generate_equation.dfy` | `GenerateEquation` | `src/utils/generateEquation.ts` |
| `parse_int.dfy` | `JsParseInt` | JavaScript's `parseInt` as the speed game uses it |
| `speed_game_model.dfy` | `SpeedGameScreen` | `src/screens/SpeedGameScreen/SpeedGameScreenModel.ts` |
| `speed_game_controller.dfy` | `SpeedGameInput` | `src/screens/SpeedGameScreen/SpeedGameScreenController.ts` |
| `player_model.dfy` | `PlayerModel` | `src/models/PlayerModel.ts` |
| `boss_enemy_model.dfy` | `BossEnemy` | `src/models/BossEnemyModel.ts` |
| `basic_game_enemy.dfy` | `BasicGameEnemy` | `src/screens/BasicGameScreen/BasicEnemyModel.ts` |
| `enemy_model.dfy` | `EnemyModel` | `src/models/BasicEnemyModel.ts` |
| `basic_game_screen_model.dfy` | `BasicGameScreen` | `src/screens/BasicGameScreen/BasicGameScreenModel.ts` |
| `boss_game_screen_model.dfy` | `BossGameScreen` | `src/screens/BossGameScreen/BossGameScreenModel.ts` |
| `wrappers.dfy` | `Wrappers`, `Ops`, `Scores` | `Option`, the operator datatype, and the clamped subtraction shared by the scores |

How the model represents things:

- **The three glyph tables are kept as the code has them.**
  - The evaluator knows `+ - x /`.
  - The validator accepts `+ - / x`.
  - The generator emits `+ - * /`.
  - So `"2*3"` evaluates to 2, because the term after `*` is dropped.
  - A generated equation that uses `*` or `/` is not recognised by the speed
    game's question parser, which searches for `+`, `-` and `x`. The game then
    falls back to a simple random question.
- **Numbers.**
  - The evaluator works on exact reals. A division by zero gives `NonFinite`,
    which stands for JavaScript's `Infinity`/`NaN`; every later step keeps it.
  - Counters and scores are unbounded integers.
  - `parseInt`'s NaN is `None`.
- **Randomness and the timer.**
  - Every `Math.random()` draw is a real parameter in `[0, 1)`, and
    `Math.floor(u * n)` is `SpeedGameScreen.Pick`.
  - The interval timer's callback is an explicit method, `OnTick`.
- **Classes.** The classes keep the source's fields and update them in place.
  The queries are methods that change nothing.

Where the repository's tests and the code disagree, the model follows the code:

- `tests/utils/equation.test.ts:21-22` and `tests/utils/validate.test.ts:8`
  expect `*` to be a multiplication.
- `tests/PlayerModel.test.ts:6` expects a maximum health of 5; the code has 3.
- `tests/BossGameScreen.test.ts` calls methods that do not exist.
- `SpeedGameScreenModel.ts:17` passes a fourth argument that
  `generateEquation` ignores.

## Model

| member | source | states |
|---|---|---|
| EquationSolver.StripWhitespace | src/utils/equationSolver.ts:6 | the stripped string holds no whitespace and is no longer than the input |
| EquationSolver.PendingOp | src/utils/equationSolver.ts:15-20 | a pending character selects an operator exactly when it is that operator's glyph, and none for any other character |
| EquationSolver.CloseTerm | src/utils/equationSolver.ts:15-20 | closing a term never meets an empty stack while the pending operator is '+'; any other pending character leaves the stack as it was; + and - push one signed term; x and / replace only the top term |
| EquationSolver.Step | src/utils/equationSolver.ts:11-24 | one character keeps the scan state in the form where an empty stack implies a pending '+', so no pop ever meets an empty stack |
| EquationSolver.ScanFrom | src/utils/equationSolver.ts:11-24 | the scan of a whole string preserves that form |
| EquationSolver.PushTerm | src/utils/equationSolver.ts:15-20 | the in-place push/pop on the stack gives the same stack as the term-closing rule |
| EquationSolver.Evaluate | src/utils/equationSolver.ts:5-35 | the scan loop, the final close and the sum of the stack give the value defined by the left-to-right scan of the stripped string |
| EquationSolver.WhitespaceIgnored | src/utils/equationSolver.ts:6 | removing whitespace does not change the value |
| EquationSolver.StripNoWhitespace | src/utils/equationSolver.ts:6 | stripping a string with no whitespace returns it unchanged |
| EquationSolver.ScanAppend | src/utils/equationSolver.ts:11-24 | scanning a concatenation is scanning the first part and then the second |
| EquationSolver.ScanDecimal | src/utils/equationSolver.ts:12-13 | a run of decimal digits accumulates exactly the number it spells |
| EquationSolver.Decimal | src/utils/equationSolver.ts:12-13 | the decimal spelling of a number is a non-empty run of digits |
| EquationSolver.EvaluateNumber | src/utils/equationSolver.ts:5-35 | the decimal spelling of a number (no leading zero) evaluates to that number |
| EquationSolver.ScanDigits | src/utils/equationSolver.ts:12-13 | scanning any run of digits, leading zeros included, accumulates the number it spells |
| EquationSolver.EvaluateDigits | src/utils/equationSolver.ts:5-35 | any non-empty string of digits evaluates to the number it spells, leading zeros included |
| EquationSolver.DigitsOfDecimal | src/utils/equationSolver.ts:12-13 | the canonical spelling of n is a digit run that spells n, so EvaluateNumber is the leading-zero-free case |
| EquationSolver.LeadingZeros | src/utils/equationSolver.ts:5-35 | "007" evaluates to 7 |
| EquationSolver.TermsFromSnoc | src/utils/equationSolver.ts:15-20 | in the reference semantics, one more operator and number extends the term list as that operator's precedence says |
| EquationSolver.ScanRendered | src/utils/equationSolver.ts:11-32 | for every equation of numbers and the four glyphs, the scan's closed stack equals the term list of the usual-precedence, left-associative reading |
| EquationSolver.RenderNoWhitespace | src/utils/equationSolver.ts:6 | a rendered equation contains no whitespace |
| EquationSolver.EvaluateRendered | src/utils/equationSolver.ts:5-35 | evaluate of any rendered equation is the sum of its usual-precedence terms |
| EquationSolver.DecimalSmall | src/utils/equationSolver.ts:12-13 | the spelling of a number below 100 is one or two digit characters |
| EquationSolver.EmptyIsZero | src/utils/equationSolver.ts:5-35 | the empty string evaluates to 0 |
| EquationSolver.SingleNumberExample | src/utils/equationSolver.ts:5-35 | "42" evaluates to 42 |
| EquationSolver.EvaluateOneOp | src/utils/equationSolver.ts:11-34 | a b with one operator evaluates to the terms of that one step |
| EquationSolver.EvaluateSum | src/utils/equationSolver.ts:5-35 | a+b evaluates to the sum |
| EquationSolver.EvaluateDifference | src/utils/equationSolver.ts:5-35 | a-b evaluates to the difference |
| EquationSolver.EvaluateTwoOps | src/utils/equationSolver.ts:11-34 | an equation with two operators evaluates to the sum of its usual-precedence terms |
| EquationSolver.TotalOfTwo | src/utils/equationSolver.ts:34 | the reduce over two terms adds them from 0 |
| EquationSolver.TotalOfThree | src/utils/equationSolver.ts:34 | the reduce over three terms adds them from 0, left to right |
| EquationSolver.AddExample | src/utils/equationSolver.ts:5-35 | "10+20+30" evaluates to 60 |
| EquationSolver.SubExample | src/utils/equationSolver.ts:5-35 | "10-5-2" evaluates to 3 (left-associative) |
| EquationSolver.DivThenAddExample | src/utils/equationSolver.ts:5-35 | "10/2+3" evaluates to 8 |
| EquationSolver.SubThenDivExample | src/utils/equationSolver.ts:5-35 | "14-3/2" evaluates to 12.5: / binds to the last term only |
| EquationSolver.RealDivisionExample | src/utils/equationSolver.ts:5-35 | "3+5/2" evaluates to 5.5: division is real, not truncating |
| EquationSolver.PrecedenceExample | src/utils/equationSolver.ts:5-35 | "3+2x2" evaluates to 7 |
| EquationSolver.StarDropsTerm | src/utils/equationSolver.ts:5-35 | "2*3" evaluates to 2: a term closed under a pending '*' is dropped |
| ValidateEquation.Glyph | src/utils/validateEquation.ts:16 | every operator's glyph is in the validator's operator list |
| ValidateEquation.Validate | src/utils/validateEquation.ts:5-39 | validate accepts a string exactly when it has more than two characters, digits at both ends and every adjacent pair passes the three checks; equivalently, exactly the alternating strings |
| ValidateEquation.AlternatesUpTo | src/utils/validateEquation.ts:18-36 | when every pair passes the checks, even indices hold digits and odd indices operators |
| ValidateEquation.ValidIffAlternating | src/utils/validateEquation.ts:7-38 | validate holds iff the length is odd and at least 3, digits sit at even indices and one of + - / x at odd ones |
| ValidateEquation.Rejections | src/utils/validateEquation.ts:23-35 | two adjacent digits, two adjacent operators, a leading or trailing operator, a space and '*' are all rejected |
| ValidateEquation.Acceptance | src/utils/validateEquation.ts:5-39 | "1+2", "8/4", "2x3" and "1+2-3x4/5+6" are accepted |
| GenerateEquation.DigitChar | src/utils/generateEquation.ts:33-34 | i.toString() for i in 1..9 is a digit that reads back as i |
| GenerateEquation.DigitRoundTrip | src/utils/generateEquation.ts:33-34 | reading a digit and writing it back gives the same character |
| GenerateEquation.FillAppend | src/utils/generateEquation.ts:16-23 | pushing two lists in turn under the count cutoff is pushing their concatenation |
| GenerateEquation.FillTake | src/utils/generateEquation.ts:16-23 | pushing under the cutoff keeps the first strings up to count in all |
| GenerateEquation.FirstDigit | src/utils/generateEquation.ts:36-39 | the first digit i starts a sum of i whose last term is i |
| GenerateEquation.OperatorStep | src/utils/generateEquation.ts:28-31 | after an operator, val and prev still are the sum and last term of the complete prefix |
| GenerateEquation.TermsExtend | src/utils/generateEquation.ts:41-49 | one more operator and digit changes the term list as that operator says |
| GenerateEquation.SumApply | src/utils/generateEquation.ts:41-49 | the updates of val and prev for + - * / match the sum and last term of the new term list; / is floor division |
| GenerateEquation.DigitStep | src/utils/generateEquation.ts:40-50 | the backtrack invariant: after a digit, the new val and prev are the term sum and last term of the longer string |
| GenerateEquation.Search.Backtrack | src/utils/generateEquation.ts:15-53 | the nested backtrack appends to res the solutions below curr in search order, stopping once res holds count strings |
| GenerateEquation.Search.BranchOperators | src/utils/generateEquation.ts:28-31 | the odd-index branch tries + - * / in that order |
| GenerateEquation.Search.Extend | src/utils/generateEquation.ts:30 | one operator branch |
| GenerateEquation.Search.BranchDigits | src/utils/generateEquation.ts:32-52 | the even-index branch tries 1..9 in order |
| GenerateEquation.Search.Descend | src/utils/generateEquation.ts:33-50 | one digit branch, with val and prev updated as the last operator says |
| GenerateEquation.BeforeIrreflexive | src/utils/generateEquation.ts:29-33 | no string comes before itself in search order |
| GenerateEquation.SolutionsSound | src/utils/generateEquation.ts:20-23 | every string the search tree holds has the full length, the digit/operator shape and the target value |
| GenerateEquation.SolutionsIncreasing | src/utils/generateEquation.ts:29-33 | the search tree lists its strings strictly increasing in search order |
| GenerateEquation.SolutionsComplete | src/utils/generateEquation.ts:15-53 | every shaped string of the full length with the target value is in the search tree |
| GenerateEquation.AllSolutions | src/utils/generateEquation.ts:15-55 | the whole tree is exactly the solutions, in increasing order |
| GenerateEquation.FirstSolutions | src/utils/generateEquation.ts:15-56 | the first count solutions are solutions, pairwise distinct, ordered, at most count, and all of them when fewer |
| GenerateEquation.GenerateEquation | src/utils/generateEquation.ts:4-57 | [] for length <= 2 or even; otherwise the first count solutions in search order: each of the given length, digits 1..9 at even and + - * / at odd positions, term sum equal to target, pairwise distinct, at most count, and all solutions when fewer than count |
| JsParseInt.TrimStart | src/screens/SpeedGameScreen/SpeedGameScreenModel.ts:42-43 | parseInt's leading-whitespace skip leaves nothing or a non-space first |
| JsParseInt.DigitRun | src/screens/SpeedGameScreen/SpeedGameScreenModel.ts:42-43 | the digits parseInt reads are all digits of the base |
| JsParseInt.ParseInt | src/screens/SpeedGameScreen/SpeedGameScreenModel.ts:42-43 | parseInt is a number only when the unsigned text has a digit |
| JsParseInt.Signed | src/screens/SpeedGameScreen/SpeedGameScreenModel.ts:42-43 | a sign applied to a magnitude; NaN stays NaN |
| JsParseInt.RunOfDigits | src/screens/SpeedGameScreen/SpeedGameScreenModel.ts:42-43 | the digit run stops exactly where the digits stop |
| JsParseInt.DecimalValue | src/screens/SpeedGameScreen/SpeedGameScreenModel.ts:42-43 | parseInt's digit value of a number's decimal spelling is that number |
| JsParseInt.ParseDecimal | src/screens/SpeedGameScreen/SpeedGameScreenModel.ts:42-43 | a number's decimal spelling, followed by text not starting with a digit or x, parses back to the number |
| JsParseInt.ParseNegativeDecimal | src/screens/SpeedGameScreen/SpeedGameScreenModel.ts:42-43 | after a '-', it parses back to the negation |
| JsParseInt.ParseDigits | src/screens/SpeedGameScreen/SpeedGameScreenView.ts:368 | a string of decimal digits parses to its value |
| JsParseInt.ParseNegativeDigits | src/screens/SpeedGameScreen/SpeedGameScreenView.ts:368 | '-' followed by decimal digits parses to minus their value |
| JsParseInt.LoneSignIsNaN | src/screens/SpeedGameScreen/SpeedGameScreenView.ts:368-369 | the empty string and a lone '-' parse to NaN |
| JsParseInt.ParseAfterSpace | src/screens/SpeedGameScreen/SpeedGameScreenModel.ts:42-43 | leading whitespace does not change the result |
| SpeedGameScreen.Pick | src/screens/SpeedGameScreen/SpeedGameScreenModel.ts:53-82 | Math.floor(u * n) for u in [0, 1) lies in 0..n-1 |
| SpeedGameScreen.SimpleQuestion | src/screens/SpeedGameScreen/SpeedGameScreenModel.ts:53-82 | the stored answer is a op b; '+' draws 1..50 twice; '-' draws a in 10..59 and 0 <= b < a, so the answer is positive; '*' draws 1..12 twice |
| SpeedGameScreen.IndexOf | src/screens/SpeedGameScreen/SpeedGameScreenModel.ts:33 | indexOf gives the first index holding c, or -1 when c does not occur |
| SpeedGameScreen.FirstOperator | src/screens/SpeedGameScreen/SpeedGameScreenModel.ts:32-39 | an operator is found exactly when the index is not -1, and then it is a searched operator at that index above 0; otherwise none of them occurs above index 0 |
| SpeedGameScreen.FindOperator | src/screens/SpeedGameScreen/SpeedGameScreenModel.ts:29-39 | the for...break loop finds what the ordered search defines |
| SpeedGameScreen.SpeedGameScreenModel.constructor | src/screens/SpeedGameScreen/SpeedGameScreenModel.ts:6-10 | the time starts at the duration, the score at 0 and there is no question; this establishes the invariant: score at least 0 and time within 0..duration |
| SpeedGameScreen.SpeedGameScreenModel.GenerateQuestion | src/screens/SpeedGameScreen/SpeedGameScreenModel.ts:12-24 | the question stored is the parsed first length-3 equation for a target in 1..100, or a simple question; time and score unchanged; keeps the invariant |
| SpeedGameScreen.SpeedGameScreenModel.ParseEquation | src/screens/SpeedGameScreen/SpeedGameScreenModel.ts:26-51 | the question stored splits around the first of + - x found above index 0, shows x as *, takes evaluate of the equation as answer, and falls back to a simple question; keeps the invariant |
| SpeedGameScreen.SpeedGameScreenModel.GenerateSimpleQuestion | src/screens/SpeedGameScreen/SpeedGameScreenModel.ts:53-82 | stores the simple question of the draws; keeps the invariant |
| SpeedGameScreen.SpeedGameScreenModel.GetCurrentQuestion | src/screens/SpeedGameScreen/SpeedGameScreenModel.ts:84-86 | returns the stored question |
| SpeedGameScreen.SpeedGameScreenModel.CheckAnswer | src/screens/SpeedGameScreen/SpeedGameScreenModel.ts:88-91 | false without a question, otherwise true iff the answer equals the stored answer |
| SpeedGameScreen.SpeedGameScreenModel.AddScore | src/screens/SpeedGameScreen/SpeedGameScreenModel.ts:93-95 | the score grows by exactly points; nothing else changes; keeps the invariant for points of at least 0 |
| SpeedGameScreen.SpeedGameScreenModel.DecrementScore | src/screens/SpeedGameScreen/SpeedGameScreenModel.ts:97-99 | the score becomes max(0, score - points); nothing else changes; keeps the invariant |
| SpeedGameScreen.SpeedGameScreenModel.GetScore | src/screens/SpeedGameScreen/SpeedGameScreenModel.ts:101-103 | returns the score |
| SpeedGameScreen.SpeedGameScreenModel.TickTimer | src/screens/SpeedGameScreen/SpeedGameScreenModel.ts:105-108 | the time becomes max(0, time - 1) and is returned; keeps the invariant |
| SpeedGameScreen.SpeedGameScreenModel.GetTimeRemaining | src/screens/SpeedGameScreen/SpeedGameScreenModel.ts:110-112 | returns the time left |
| SpeedGameScreen.SpeedGameScreenModel.Reset | src/screens/SpeedGameScreen/SpeedGameScreenModel.ts:114-117 | the time returns to the duration and the question is cleared, but the score is kept; keeps the invariant |
| Scores.ClampedSub | src/screens/SpeedGameScreen/SpeedGameScreenModel.ts:97-99 | max(0, score - points): at least 0 and at least score - points, and one of them |
| SpeedGameScreen.Tick | src/screens/SpeedGameScreen/SpeedGameScreenModel.ts:105-108 | a tick never goes below 0 and takes one second off a positive time |
| SpeedGameScreen.ScoreAndTimeStayValid | src/screens/SpeedGameScreen/SpeedGameScreenModel.ts:93-108 | decrementScore keeps a non-negative score non-negative, and a tick keeps the time within 0..duration |
| SpeedGameScreen.TicksReachZero | src/screens/SpeedGameScreen/SpeedGameScreenModel.ts:105-108 | once at 0 the time stays at 0; n ticks bring any time in 0..n to 0 |
| SpeedGameScreen.TicksCountDown | src/screens/SpeedGameScreen/SpeedGameScreenModel.ts:105-108 | before that, n ticks take exactly n seconds off |
| SpeedGameScreen.AcceptsExactlyTheAnswer | src/screens/SpeedGameScreen/SpeedGameScreenModel.ts:88-91 | a consistent question accepts exactly a op b |
| SpeedGameScreen.SearchOrderCases | src/screens/SpeedGameScreen/SpeedGameScreenModel.ts:32-39 | '+' is taken if it occurs above index 0, else '-', else 'x', else none; not the leftmost operator |
| SpeedGameScreen.ShapeOfThree | src/utils/generateEquation.ts:28-34 | a generated string of length 3 is digit, operator, digit |
| SpeedGameScreen.ValueOfThree | src/utils/generateEquation.ts:41-44 | the generator's value of d+e and d-e is the sum and the difference |
| SpeedGameScreen.EvaluateThree | src/utils/equationSolver.ts:5-35 | evaluate of d+e and d-e is the sum and the difference |
| SpeedGameScreen.OperatorOfThree | src/screens/SpeedGameScreen/SpeedGameScreenModel.ts:32-39 | in a generated equation of length 3 the search finds the middle character when it is + or -, and nothing for * and / |
| SpeedGameScreen.ParsedOperands | src/screens/SpeedGameScreen/SpeedGameScreenModel.ts:41-47 | around the middle operator, the operands parse to the two digits |
| SpeedGameScreen.ParsedSolution | src/screens/SpeedGameScreen/SpeedGameScreenModel.ts:26-51 | a generated equation of length 3 becomes a question with its two digits and operator when that operator is + or -, and none otherwise |
| SpeedGameScreen.AnswerOfThree | src/screens/SpeedGameScreen/SpeedGameScreenModel.ts:45 | for + and - the evaluator and the generator agree on the value of the equation |
| SpeedGameScreen.FirstParsedConsistent | src/screens/SpeedGameScreen/SpeedGameScreenModel.ts:15-20 | a question parsed from a generated equation has the target as its answer and is consistent |
| SpeedGameScreen.GeneratedQuestionConsistent | src/screens/SpeedGameScreen/SpeedGameScreenModel.ts:12-24 | whichever way it is made, the stored question's answer is a op b |
| SpeedGameInput.DigitKeyCases | src/screens/SpeedGameScreen/SpeedGameScreenController.ts:40 | the string test key >= '0' && key <= '9' holds exactly for names starting with '0'..'8' and for "9" |
| SpeedGameInput.DigitKeyIsDigit | src/screens/SpeedGameScreen/SpeedGameScreenController.ts:40 | for one-character names and names starting with a letter, it holds exactly for the single digits |
| SpeedGameInput.Scored | src/screens/SpeedGameScreen/SpeedGameScreenController.ts:58-64 | a correct answer adds 10, a wrong one takes 8 off but not below 0 |
| SpeedGameInput.SpeedGameScreenController.constructor | src/screens/SpeedGameScreen/SpeedGameScreenController.ts:11-18 | no timer, empty input, inactive, and a fresh model; this establishes the invariant: the model's invariant and a typed answer of the form -?[0-9]* |
| SpeedGameInput.SpeedGameScreenController.KeyDown | src/screens/SpeedGameScreen/SpeedGameScreenController.ts:37-52 | inactive: nothing changes; a digit key appends; Backspace drops the last character (empty stays empty); Enter on a non-empty answer submits it when it parses; '-' only on an empty answer; any other key changes nothing; for key names of one character or starting with a letter, keeps the invariant |
| SpeedGameInput.SpeedGameScreenController.TriggerSubmit | src/screens/SpeedGameScreen/SpeedGameScreenView.ts:367-372 | the typed answer is submitted when it parses to a number, and nothing happens for NaN; keeps the invariant |
| SpeedGameInput.SpeedGameScreenController.HandleSubmit | src/screens/SpeedGameScreen/SpeedGameScreenController.ts:55-76 | the score changes by +10 or the clamped -8 as the answer is right or wrong, the input is cleared and the next question is asked; keeps the invariant |
| SpeedGameInput.SpeedGameScreenController.StartGame | src/screens/SpeedGameScreen/SpeedGameScreenController.ts:78-98 | the time is reset, the score is kept, the input is empty, the game is active, a question is asked and the timer runs; keeps the invariant |
| SpeedGameInput.SpeedGameScreenController.OnTick | src/screens/SpeedGameScreen/SpeedGameScreenController.ts:103-113 | one clamped tick; at 0 the game ends and the timer is stopped; keeps the invariant |
| SpeedGameInput.SpeedGameScreenController.StopTimer | src/screens/SpeedGameScreen/SpeedGameScreenController.ts:115-120 | afterwards no timer runs; keeps the invariant |
| SpeedGameInput.SpeedGameScreenController.EndGame | src/screens/SpeedGameScreen/SpeedGameScreenController.ts:122-127 | the timer stops, the game is inactive and the final score is the model's; keeps the invariant |
| SpeedGameInput.SpeedGameScreenController.ReturnToMenu | src/screens/SpeedGameScreen/SpeedGameScreenController.ts:133-136 | the game ends; keeps the invariant |
| SpeedGameInput.KeyKeepsShape | src/screens/SpeedGameScreen/SpeedGameScreenController.ts:40-50 | every key edit keeps the typed answer of the form -?[0-9]* |
| SpeedGameInput.EnterIgnoredWithoutNumber | src/screens/SpeedGameScreen/SpeedGameScreenController.ts:46-47 | Enter on an empty answer or a lone '-' does nothing |
| SpeedGameInput.EnterSubmitsNumber | src/screens/SpeedGameScreen/SpeedGameScreenController.ts:46-47 | Enter on any other answer of that form submits its integer value |
| SpeedGameInput.ScoredNonNegative | src/screens/SpeedGameScreen/SpeedGameScreenController.ts:58-64 | a submit keeps a non-negative score non-negative |
| PlayerModel.Player.constructor | src/models/PlayerModel.ts:1-15 | health 3, the given name or null, score 0, tower 1 unlocked |
| PlayerModel.Player.GetHealth | src/models/PlayerModel.ts:17-19 | returns the health |
| PlayerModel.Player.ResetHealth | src/models/PlayerModel.ts:21-23 | health back to 3, score and tower unchanged |
| PlayerModel.Player.IsAlive | src/models/PlayerModel.ts:25-27 | true iff health > 0 |
| PlayerModel.Player.TakeDamage | src/models/PlayerModel.ts:29-31 | health drops by exactly the damage, with no floor; nothing else changes |
| PlayerModel.Player.IncreaseScore | src/models/PlayerModel.ts:33-38 | adds change and returns the new score |
| PlayerModel.Player.DecreaseScore | src/models/PlayerModel.ts:40-45 | stores and returns max(0, score - change) |
| PlayerModel.Player.GetScore | src/models/PlayerModel.ts:47-49 | returns the score |
| PlayerModel.Player.GetHighestTower | src/models/PlayerModel.ts:51-53 | returns the highest tower unlocked |
| PlayerModel.Player.UnlockNextTower | src/models/PlayerModel.ts:55-57 | one more tower, and every tower unlocked before stays unlocked |
| PlayerModel.Player.IsTowerUnlocked | src/models/PlayerModel.ts:59-61 | true iff the tower is at most the highest unlocked |
| PlayerModel.UnlockedAfterCount | src/models/PlayerModel.ts:55-57 | k unlocks raise the highest tower by exactly k |
| PlayerModel.TowerReached | src/models/PlayerModel.ts:10-61 | a new player reaches tower t after exactly t - 1 unlocks |
| BossEnemy.NextIndex | src/models/BossEnemyModel.ts:26-30 | at the final phase the index stays, otherwise it moves by one |
| BossEnemy.BossEnemyModel.constructor | src/models/BossEnemyModel.ts:11-16 | the phases given, index 0 |
| BossEnemy.BossEnemyModel.GetCurrentPhase | src/models/BossEnemyModel.ts:18-20 | the phase at the index; with a valid index and some phases always a phase |
| BossEnemy.BossEnemyModel.IsFinalPhase | src/models/BossEnemyModel.ts:22-24 | true iff the index is at least the number of phases minus 1 |
| BossEnemy.BossEnemyModel.NextPhase | src/models/BossEnemyModel.ts:26-30 | one phase further unless final, and the index stays in bounds |
| BossEnemy.BossEnemyModel.Reset | src/models/BossEnemyModel.ts:32-34 | the index returns to 0 |
| BossEnemy.NextInBounds | src/models/BossEnemyModel.ts:18-30 | nextPhase keeps the index readable |
| BossEnemy.FinalIsFixed | src/models/BossEnemyModel.ts:26-30 | at the final phase any number of nextPhase calls changes nothing |
| BossEnemy.AdvancedFromStart | src/models/BossEnemyModel.ts:11-30 | k calls from the start reach phase min(k, n - 1) for n phases, the final phase once k >= n - 1, always in bounds |
| BasicGameEnemy.AfterAnswer | src/screens/BasicGameScreen/BasicEnemyModel.ts:12-16 | the exact answer brings health to 0, any other leaves it |
| BasicGameEnemy.BasicEnemy.constructor | src/screens/BasicGameScreen/BasicEnemyModel.ts:6-9 | health as given, damage as given or 1 |
| BasicGameEnemy.BasicEnemy.TakeDamage | src/screens/BasicGameScreen/BasicEnemyModel.ts:12-16 | health becomes 0 exactly on a matching answer; damage never changes |
| BasicGameEnemy.BasicEnemy.IsAlive | src/screens/BasicGameScreen/BasicEnemyModel.ts:18-20 | true iff health > 0 |
| BasicGameEnemy.AnswerOutcome | src/screens/BasicGameScreen/BasicEnemyModel.ts:12-20 | afterwards health is the old value or 0, 0 exactly on a match (or if it was 0), and a match kills |
| BasicGameEnemy.AnswerIdempotent | src/screens/BasicGameScreen/BasicEnemyModel.ts:12-16 | the same answer twice has the effect of once |
| EnemyModel.BasicEnemy.constructor | src/models/BasicEnemyModel.ts:11-30 | health, damage (default 1), name and the four sprite paths are copied |
| EnemyModel.BasicEnemy.TakeDamage | src/models/BasicEnemyModel.ts:32-34 | health becomes 0, so the enemy is dead; nothing else changes |
| EnemyModel.BasicEnemy.IsAlive | src/models/BasicEnemyModel.ts:36-38 | true iff health > 0 |
| BasicGameScreen.BasicGameScreenModel.constructor | src/screens/BasicGameScreen/BasicGameScreenModel.ts:12-20 | level (default 0), tower (default 1) and the enemy as given, which may be null |
| BasicGameScreen.NewDefaultScreen | src/screens/BasicGameScreen/BasicGameScreenModel.ts:16-20 | the argument-free construction gives level 0, tower 1 and no enemy |
| BasicGameScreen.BasicGameScreenModel.IncrementLevel | src/screens/BasicGameScreen/BasicGameScreenModel.ts:22-24 | level + 1; tower and enemy unchanged |
| BasicGameScreen.BasicGameScreenModel.IncrementTower | src/screens/BasicGameScreen/BasicGameScreenModel.ts:26-29 | tower + 1 and level 0 |
| BasicGameScreen.BasicGameScreenModel.ResetLevel | src/screens/BasicGameScreen/BasicGameScreenModel.ts:31-33 | level back to 0; tower unchanged |
| BasicGameScreen.LevelAfterCount | src/screens/BasicGameScreen/BasicGameScreenModel.ts:22-24 | k calls raise the level by exactly k |
| BasicGameScreen.LevelUncapped | src/screens/BasicGameScreen/BasicGameScreenModel.ts:9-24 | nothing caps the level at LEVELS_PER_TOWER |
| BossGameScreen.BossGameScreenModel.constructor | src/screens/BossGameScreen/BossGameScreenModel.ts:5-6 | 4 phases and score 0 |
| BossGameScreen.BossGameScreenModel.DecrementPhases | src/screens/BossGameScreen/BossGameScreenModel.ts:8-10 | one phase fewer, no lower bound; score unchanged |
| BossGameScreen.BossGameScreenModel.GetPhases | src/screens/BossGameScreen/BossGameScreenModel.ts:12-14 | returns the phases and changes nothing |
| BossGameScreen.BossGameScreenModel.Reset | src/screens/BossGameScreen/BossGameScreenModel.ts:16-19 | 4 phases and score 0 again |
| BossGameScreen.BossGameScreenModel.GetScore | src/screens/BossGameScreen/BossGameScreenModel.ts:21-23 | returns the score, which is always 0 |
| BossGameScreen.PhasesAfterCount | src/screens/BossGameScreen/BossGameScreenModel.ts:8-10 | k calls take off exactly k phases |

## Left out

- Floating point: JavaScript numbers are IEEE doubles. The model uses exact reals and unbounded integers, so rounding, the 2^53 limit and `-0` are not modelled.
- EquationSolver.Evaluate: division by zero gives one `NonFinite` value; the model does not tell apart `Infinity`, `-Infinity` and `NaN`.
- Strings are sequences of characters. UTF-16 surrogate pairs, which `for...of` walks as one code point and `indexOf` and `substring` count as two units, are not distinguished.
- Randomness: `Math.random()` is a parameter in `[0, 1)`, not a generator.
- The interval timer: `setInterval`/`clearInterval` and the one-second period are left out. `OnTick` is the callback, and the timer id is a parameter of `StartGame`.
- SpeedGameInput.SpeedGameScreenController.StartGame: `startTimer` overwrites an interval that is still running without clearing it. The model only records the new id.
- SPEED_GAME_DURATION is imported but not defined in `src/constants.ts`. The model takes the duration as a constructor parameter.
- PlayerModel.Player.IncreaseScore: the `console.log` line at `src/models/PlayerModel.ts:34` is output only, so it is left out.
- SpeedGameScreen.SpeedGameScreenModel.AddScore: keeps the invariant only for points of at least 0. The source has no lower bound on points, and the controller only ever adds 10.
- SpeedGameInput.SpeedGameScreenController.KeyDown: keeps the invariant only for key names of one character or starting with a letter, for the reason given under KeyKeepsShape below.
- BasicGameScreen.BasicGameScreenModel.constructor: a missing enemy argument is `undefined` in the source. The model writes it as `null`, the field's declared default.
- The fourth argument that `SpeedGameScreenModel.ts:17` passes to `generateEquation` is ignored by the function, so it is not modelled.
- SpeedGameScreen.SimpleQuestion: the `default` branch of `generateSimpleQuestion` cannot be reached, because the operator is drawn from the three cases. It is not modelled.
- SpeedGameInput.KeyKeepsShape: the shape is proved for key names that are one character or start with a letter. That covers every name a keyboard reports. A name such as "0abc" would also pass the string digit test, and it is the one case left out.
- Views, rendering, feedback and colour updates are side effects on Konva nodes and are left out. The typed answer is taken to be the text the view shows, since `updateInput`, `clearInput` and the controller keep the two equal.
- The screen switch in `returnToMenu` and the `setOnSubmit`/`setOnRestart`/`setOnMenu` wiring are calls into code outside the model.
- The backend, the login and tower-selection screens, the thin controllers, `GlobalPlayer.ts`, `enemyFactory.ts`, `spriteUtils.ts` and the boss view's shuffle are not part of this model.
- JsParseInt.ParseInt: only base 10 and base 16 with a `0x` prefix are modelled, since no radix is ever passed. Digits beyond what a double holds exactly are not rounded.

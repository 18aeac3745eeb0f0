/** The input state machine of the speed game's controller
    (src/screens/SpeedGameScreen/SpeedGameScreenController.ts): keys typed
    while a game runs edit the answer being typed, Enter submits it, and a
    submit scores the answer and asks the next question. */
module SpeedGameInput {
  import opened Wrappers
  import JsParseInt
  import SpeedGameScreen
  import Scores

  /** JavaScript's `<=` on strings: code-unit lexicographic order, a prefix
      coming first. */
  predicate LexLe(a: string, b: string)
    decreases |a|
  {
    a == [] || (b != [] && (a[0] < b[0] || (a[0] == b[0] && LexLe(a[1..], b[1..]))))
  }

  /** The keydown handler's digit test `key >= '0' && key <= '9'`, a string
      comparison on the key's name. */
  predicate IsDigitKey(key: string) {
    LexLe("0", key) && LexLe(key, "9")
  }

  predicate IsLetter(c: char) {
    'a' <= c <= 'z' || 'A' <= c <= 'Z'
  }

  /** The string test lets through every name that starts with '0' to '8'
      and the name "9". */
  lemma DigitKeyCases(key: string)
    ensures IsDigitKey(key) <==> key != [] && ('0' <= key[0] < '9' || key == "9")
  {
    if key != [] && key[0] == '9' && LexLe(key, "9") {
      assert LexLe(key[1..], []);
      assert key == [key[0]] + key[1..];
    }
  }

  /** For the names a keyboard reports (one character, or a name such as
      "Backspace" that starts with a letter) it is exactly the single digits. */
  lemma DigitKeyIsDigit(key: string)
    requires |key| == 1 || (key != [] && IsLetter(key[0]))
    ensures IsDigitKey(key) <==> |key| == 1 && '0' <= key[0] <= '9'
  {
    DigitKeyCases(key);
  }

  /** What a keydown does to an active game. */
  datatype KeyEffect =
    | Edit(input: string)  // the typed answer becomes input
    | Submit(answer: int)  // the typed answer parsed and handed to handleSubmit
    | Ignore               // nothing changes

  /** The branches of the keydown handler, in their order, for the typed
      answer input. Enter goes through the view's triggerSubmit, which
      parses the text shown (always the typed answer) and submits only a
      number. */
  function KeyEffectOf(input: string, key: string): KeyEffect {
    if IsDigitKey(key) then Edit(input + key)
    else if key == "Backspace" then Edit(if input == [] then [] else input[..|input| - 1])
    else if key == "Enter" && input != [] then
      match JsParseInt.ParseInt(input)
      case Some(n) => Submit(n)
      case None => Ignore
    else if key == "-" && input == [] then Edit("-")
    else Ignore
  }

  /** The typed answer matches `-?[0-9]*`. */
  predicate InputShape(s: string) {
    forall i :: 0 <= i < |s| ==> '0' <= s[i] <= '9' || (i == 0 && s[i] == '-')
  }

  /** The score after a submit: 10 more for a correct answer, 8 fewer but
      not below 0 for a wrong one. */
  function Scored(score: int, correct: bool): (r: int)
    ensures correct ==> r == score + 10
    ensures !correct ==> r == Scores.ClampedSub(score, 8)
  {
    if correct then score + 10 else Scores.ClampedSub(score, 8)
  }

  class SpeedGameScreenController {
    const model: SpeedGameScreen.SpeedGameScreenModel
    /** The id of the running interval, if any. */
    var gameTimer: Option<int>
    var currentInput: string
    var isGameActive: bool

    constructor (duration: nat)
      ensures fresh(model) && model.duration == duration && model.timeRemaining == duration
      ensures model.score == 0 && model.currentQuestion == None
      ensures gameTimer == None && currentInput == [] && !isGameActive
      ensures Valid()
    {
      model := new SpeedGameScreen.SpeedGameScreenModel(duration);
      gameTimer := None;
      currentInput := [];
      isGameActive := false;
    }

    /** The model's invariant, and the typed answer has the shape the keys
        allow; the constructor establishes it and every method keeps it
        (keydown for the key names a keyboard reports). */
    predicate Valid()
      reads this, model
    {
      model.Valid() && InputShape(currentInput)
    }

    /** The keydown listener; u and d are the random draws a submit's next
        question takes. */
    method KeyDown(key: string, u: real, d: SpeedGameScreen.Draws)
      requires SpeedGameScreen.Unit(u) && SpeedGameScreen.ValidDraws(d)
      modifies this, model
      ensures !old(isGameActive) ==> unchanged(this) && unchanged(model)
      ensures old(isGameActive) && KeyEffectOf(old(currentInput), key).Ignore? ==>
                unchanged(this) && unchanged(model)
      ensures old(isGameActive) && KeyEffectOf(old(currentInput), key).Edit? ==>
                && currentInput == KeyEffectOf(old(currentInput), key).input
                && isGameActive && gameTimer == old(gameTimer) && unchanged(model)
      ensures old(isGameActive) && KeyEffectOf(old(currentInput), key).Submit? ==>
                && model.score == Scored(old(model.score),
                     SpeedGameScreen.Accepts(old(model.currentQuestion), KeyEffectOf(old(currentInput), key).answer))
                && model.currentQuestion == Some(SpeedGameScreen.QuestionFor(u, d))
                && model.timeRemaining == old(model.timeRemaining)
                && currentInput == [] && isGameActive && gameTimer == old(gameTimer)
      ensures old(Valid()) && (|key| == 1 || (key != [] && IsLetter(key[0]))) ==> Valid()
    {
      if !isGameActive {
        return;
      }
      if InputShape(currentInput) && (|key| == 1 || (key != [] && IsLetter(key[0]))) {
        KeyKeepsShape(currentInput, key);
      }
      if IsDigitKey(key) {
        currentInput := currentInput + key;
      } else if key == "Backspace" {
        currentInput := if currentInput == [] then [] else currentInput[..|currentInput| - 1];
      } else if key == "Enter" && currentInput != [] {
        TriggerSubmit(u, d);
      } else if key == "-" && currentInput == [] {
        currentInput := "-";
      }
    }

    /** The view's triggerSubmit: parse the typed answer and submit it
        unless it is NaN. */
    method TriggerSubmit(u: real, d: SpeedGameScreen.Draws)
      requires SpeedGameScreen.Unit(u) && SpeedGameScreen.ValidDraws(d)
      modifies this, model
      ensures JsParseInt.ParseInt(old(currentInput)).None? ==> unchanged(this) && unchanged(model)
      ensures JsParseInt.ParseInt(old(currentInput)).Some? ==>
                && model.score == Scored(old(model.score),
                     SpeedGameScreen.Accepts(old(model.currentQuestion), JsParseInt.ParseInt(old(currentInput)).value))
                && model.currentQuestion == Some(SpeedGameScreen.QuestionFor(u, d))
                && model.timeRemaining == old(model.timeRemaining)
                && currentInput == [] && isGameActive == old(isGameActive) && gameTimer == old(gameTimer)
      ensures old(Valid()) ==> Valid()
    {
      var answer := JsParseInt.ParseInt(currentInput);
      if answer.Some? {
        HandleSubmit(answer.value, u, d);
      }
    }

    /** handleSubmit: score the answer, clear the typed answer and ask the
        next question. */
    method HandleSubmit(answer: int, u: real, d: SpeedGameScreen.Draws)
      requires SpeedGameScreen.Unit(u) && SpeedGameScreen.ValidDraws(d)
      modifies this, model
      ensures model.score == Scored(old(model.score), SpeedGameScreen.Accepts(old(model.currentQuestion), answer))
      ensures model.currentQuestion == Some(SpeedGameScreen.QuestionFor(u, d))
      ensures model.timeRemaining == old(model.timeRemaining)
      ensures currentInput == [] && isGameActive == old(isGameActive) && gameTimer == old(gameTimer)
      ensures old(Valid()) ==> Valid()
    {
      var correct := model.CheckAnswer(answer);
      if correct {
        model.AddScore(10);
      } else {
        model.DecrementScore(8);
      }
      currentInput := [];
      model.GenerateQuestion(u, d);
    }

    /** startGame: the model is reset (its score is kept), the game becomes
        active with an empty answer, a first question is asked and the
        interval timer is started under the id timer. */
    method StartGame(u: real, d: SpeedGameScreen.Draws, timer: int)
      requires SpeedGameScreen.Unit(u) && SpeedGameScreen.ValidDraws(d)
      modifies this, model
      ensures model.timeRemaining == model.duration && model.score == old(model.score)
      ensures model.currentQuestion == Some(SpeedGameScreen.QuestionFor(u, d))
      ensures currentInput == [] && isGameActive && gameTimer == Some(timer)
      ensures old(Valid()) ==> Valid()
    {
      model.Reset();
      currentInput := [];
      isGameActive := true;
      model.GenerateQuestion(u, d);
      gameTimer := Some(timer);
    }

    /** The interval's callback: one tick of the model's timer, and the end
        of the game once it reaches 0. */
    method OnTick() returns (time: int)
      modifies this, model
      ensures model.timeRemaining == SpeedGameScreen.Tick(old(model.timeRemaining)) && time == model.timeRemaining
      ensures model.score == old(model.score) && model.currentQuestion == old(model.currentQuestion)
      ensures time <= 0 ==> !isGameActive && gameTimer == None
      ensures time > 0 ==> isGameActive == old(isGameActive) && gameTimer == old(gameTimer)
      ensures currentInput == old(currentInput)
      ensures old(Valid()) ==> Valid()
    {
      time := model.TickTimer();
      if time <= 0 {
        var _ := EndGame();
      }
    }

    /** stopTimer: the interval is cleared if there is one. */
    method StopTimer()
      modifies this
      ensures gameTimer == None
      ensures currentInput == old(currentInput) && isGameActive == old(isGameActive)
      ensures old(Valid()) ==> Valid()
    {
      if gameTimer != None {
        gameTimer := None;
      }
    }

    /** endGame: the timer stops and the game becomes inactive; the final
        score shown is the model's score. */
    method EndGame() returns (finalScore: int)
      modifies this
      ensures gameTimer == None && !isGameActive && currentInput == old(currentInput)
      ensures finalScore == model.score
      ensures old(Valid()) ==> Valid()
    {
      StopTimer();
      isGameActive := false;
      finalScore := model.GetScore();
    }

    /** returnToMenu: the game ends before the screen is switched. */
    method ReturnToMenu()
      modifies this
      ensures gameTimer == None && !isGameActive && currentInput == old(currentInput)
      ensures old(Valid()) ==> Valid()
    {
      var _ := EndGame();
    }
  }

  // ---------------------------------------------------------------------
  // Properties

  /** Every key a keyboard reports keeps the typed answer in the shape
      `-?[0-9]*`. */
  lemma KeyKeepsShape(input: string, key: string)
    requires InputShape(input)
    requires |key| == 1 || (key != [] && IsLetter(key[0]))
    ensures KeyEffectOf(input, key).Edit? ==> InputShape(KeyEffectOf(input, key).input)
  {
    DigitKeyIsDigit(key);
    if IsDigitKey(key) {
      var s := input + key;
      assert forall i :: 0 <= i < |input| ==> s[i] == input[i];
      assert s[|input|] == key[0];
    }
  }

  /** Enter on an empty answer or on a lone '-' does nothing. */
  lemma EnterIgnoredWithoutNumber(input: string)
    requires input == [] || input == "-"
    ensures KeyEffectOf(input, "Enter") == Ignore
  {
    DigitKeyCases("Enter");
    if input == "-" {
      JsParseInt.LoneSignIsNaN(input);
    }
  }

  /** The value of an answer of the shape `-?[0-9]*`. */
  function ShapeValue(s: string): int
    requires InputShape(s) && s != [] && s != "-"
  {
    if s[0] == '-' then -(JsParseInt.RunValue(s[1..], 10) as int) else JsParseInt.RunValue(s, 10) as int
  }

  /** Enter on any other answer of that shape submits its value. */
  lemma EnterSubmitsNumber(input: string)
    requires InputShape(input) && input != [] && input != "-"
    ensures KeyEffectOf(input, "Enter") == Submit(ShapeValue(input))
  {
    DigitKeyCases("Enter");
    if input[0] == '-' {
      assert JsParseInt.AllDigits(input[1..], 10) by {
        forall i | 0 <= i < |input[1..]| ensures '0' <= input[1..][i] <= '9' {
          assert input[1..][i] == input[i + 1];
        }
      }
      JsParseInt.ParseNegativeDigits(input);
    } else {
      JsParseInt.ParseDigits(input);
    }
  }

  /** A submit keeps the score non-negative. */
  lemma ScoredNonNegative(score: int, correct: bool)
    requires score >= 0
    ensures Scored(score, correct) >= 0
  {
  }
}

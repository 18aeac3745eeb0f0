/** The state of the speed game (src/screens/SpeedGameScreen/SpeedGameScreenModel.ts):
    the time left, the score and the current question, which comes either
    from the first equation the generator finds for a random target or from
    a simple random sum, difference or product. */
module SpeedGameScreen {
  import opened Wrappers
  import EquationSolver
  import JsParseInt
  import GenerateEquation
  import Scores

  /** `{ a, b, op, answer }`. The operands are parseInt results when the
      question comes from an equation, so either may be NaN (None). */
  datatype Question = Question(a: Option<int>, b: Option<int>, op: string, answer: EquationSolver.Num)

  /** The three `Math.random()` values a simple question draws, in order:
      the operator, the first operand, the second operand. */
  datatype Draws = Draws(op: real, first: real, second: real)

  /** A value `Math.random()` can return. */
  predicate Unit(u: real) {
    0.0 <= u < 1.0
  }

  predicate ValidDraws(d: Draws) {
    Unit(d.op) && Unit(d.first) && Unit(d.second)
  }

  /** `Math.floor(u * n)` for a random u. */
  function Pick(u: real, n: nat): (k: int)
    requires Unit(u) && n > 0
    ensures 0 <= k < n
  {
    assert u * (n as real) < n as real by {
      assert (1.0 - u) * (n as real) > 0.0;
    }
    (u * (n as real)).Floor
  }

  /** The value of `a op b` for the three operators a question can show. */
  function Combine(op: string, a: int, b: int): int
    requires op == "+" || op == "-" || op == "*"
  {
    if op == "+" then a + b else if op == "-" then a - b else a * b
  }

  /** A question whose stored answer is the value of its two operands under
      its operator. */
  predicate Consistent(q: Question) {
    && (q.op == "+" || q.op == "-" || q.op == "*")
    && q.a.Some? && q.b.Some?
    && q.answer == EquationSolver.Finite(Combine(q.op, q.a.value, q.b.value) as real)
  }

  /** generateSimpleQuestion: a + b with both in 1..50, a - b with a in
      10..59 and 0 <= b < a, or a * b with both in 1..12. */
  function SimpleQuestion(d: Draws): (q: Question)
    requires ValidDraws(d)
    ensures Consistent(q)
    ensures q.op == "+" ==> 1 <= q.a.value <= 50 && 1 <= q.b.value <= 50
    ensures q.op == "-" ==> 10 <= q.a.value <= 59 && 0 <= q.b.value < q.a.value && q.answer.v > 0.0
    ensures q.op == "*" ==> 1 <= q.a.value <= 12 && 1 <= q.b.value <= 12
  {
    var op := ["+", "-", "*"][Pick(d.op, 3)];
    if op == "+" then
      var a, b := Pick(d.first, 50) + 1, Pick(d.second, 50) + 1;
      Question(Some(a), Some(b), op, EquationSolver.Finite((a + b) as real))
    else if op == "-" then
      var a := Pick(d.first, 50) + 10;
      var b := Pick(d.second, a);
      Question(Some(a), Some(b), op, EquationSolver.Finite((a - b) as real))
    else
      var a, b := Pick(d.first, 12) + 1, Pick(d.second, 12) + 1;
      Question(Some(a), Some(b), op, EquationSolver.Finite((a * b) as real))
  }

  /** `s.indexOf(c)`: the first index of c, or -1. */
  function IndexOf(s: string, c: char): (r: int)
    ensures -1 <= r < |s|
    ensures r >= 0 ==> s[r] == c && forall i :: 0 <= i < r ==> s[i] != c
    ensures r == -1 ==> forall i :: 0 <= i < |s| ==> s[i] != c
  {
    if s == [] then -1
    else if s[0] == c then 0
    else
      var k := IndexOf(s[1..], c);
      if k < 0 then -1 else k + 1
  }

  /** The operators parseEquation looks for, in the order it tries them. */
  const SearchOrder: seq<char> := ['+', '-', 'x']

  /** The first operator of ops, in list order, that occurs in the equation
      at an index above 0, with that index; (-1, None) when there is none. */
  function FirstOperator(equation: string, ops: seq<char>): (r: (int, Option<char>))
    ensures r.1.Some? <==> r.0 != -1
    ensures r.1.Some? ==> 0 < r.0 < |equation| && equation[r.0] == r.1.value && r.1.value in ops
    ensures r.1.None? ==> forall c :: c in ops ==> IndexOf(equation, c) <= 0
    decreases |ops|
  {
    if ops == [] then (-1, None)
    else
      var idx := IndexOf(equation, ops[0]);
      if idx > 0 then (idx, Some(ops[0])) else FirstOperator(equation, ops[1..])
  }

  /** The loop of parseEquation: try each operator of the search order and
      stop at the first one found at an index above 0. */
  method FindOperator(equation: string) returns (opIndex: int, foundOp: Option<char>)
    ensures (opIndex, foundOp) == FirstOperator(equation, SearchOrder)
  {
    opIndex, foundOp := -1, None;
    for k := 0 to |SearchOrder|
      invariant opIndex == -1 && foundOp == None
      invariant FirstOperator(equation, SearchOrder) == FirstOperator(equation, SearchOrder[k..])
    {
      var idx := IndexOf(equation, SearchOrder[k]);
      if idx > 0 {
        opIndex, foundOp := idx, Some(SearchOrder[k]);
        break;
      }
      assert SearchOrder[k..][1..] == SearchOrder[k + 1..];
    }
  }

  /** The question parseEquation builds, or None when it falls back to a
      simple question. */
  function ParsedQuestion(equation: string): Option<Question> {
    QuestionAround(equation, FirstOperator(equation, SearchOrder))
  }

  /** The question built around the result of the operator search: the
      operands are parsed from the text on either side of the operator,
      'x' is shown as '*', and the answer is what the evaluator gives for
      the whole equation; None when no operator was found. */
  function QuestionAround(equation: string, found: (int, Option<char>)): Option<Question> {
    var (opIndex, foundOp) := found;
    if 0 < opIndex < |equation| && foundOp.Some? then
      var a := JsParseInt.ParseInt(equation[..opIndex]);
      var b := JsParseInt.ParseInt(equation[opIndex + 1..]);
      var op := if foundOp.value == 'x' then "*" else [foundOp.value];
      Some(Question(a, b, op, EquationSolver.Evaluation(equation)))
    else None
  }

  /** The question generateQuestion stores: the first equation of length 3
      the generator finds for a target in 1..100, parsed, or a simple
      question when there is no equation or it cannot be parsed. */
  ghost function QuestionFor(u: real, d: Draws): Question
    requires Unit(u) && ValidDraws(d)
  {
    var target := Pick(u, 100) + 1;
    QuestionFrom(GenerateEquation.Take(GenerateEquation.Solutions(target, 3, []), 1), d)
  }

  /** The question made from the generator's equations. */
  function QuestionFrom(equations: seq<string>, d: Draws): Question
    requires ValidDraws(d)
  {
    if |equations| > 0 && ParsedQuestion(equations[0]).Some? then ParsedQuestion(equations[0]).value
    else SimpleQuestion(d)
  }

  /** checkAnswer: no question means false; otherwise strict equality with
      the stored answer. */
  function Accepts(question: Option<Question>, userAnswer: int): bool {
    question.Some? && question.value.answer == EquationSolver.Finite(userAnswer as real)
  }


  /** `Math.max(0, time - 1)`. */
  function Tick(time: int): (r: int)
    ensures r >= 0
    ensures time >= 1 ==> r == time - 1
    ensures time <= 0 ==> r == 0
  {
    if time - 1 > 0 then time - 1 else 0
  }

  /** The time left after n ticks. */
  function Ticks(time: int, n: nat): int
    decreases n
  {
    if n == 0 then time else Ticks(Tick(time), n - 1)
  }

  class SpeedGameScreenModel {
    /** SPEED_GAME_DURATION. */
    const duration: nat
    var timeRemaining: int
    var score: int
    var currentQuestion: Option<Question>

    constructor (duration: nat)
      ensures this.duration == duration && timeRemaining == duration
      ensures score == 0 && currentQuestion == None
      ensures Valid()
    {
      this.duration := duration;
      timeRemaining := duration;
      score := 0;
      currentQuestion := None;
    }

    /** What the constructor establishes and every method keeps (addScore
        when the points are not negative): the score never goes negative and
        the time lies between 0 and the duration. */
    predicate Valid()
      reads this
    {
      score >= 0 && 0 <= timeRemaining <= duration
    }

    /** generateQuestion, with the target drawn from u and the draws of a
        fallback simple question in d. */
    method GenerateQuestion(u: real, d: Draws)
      requires Unit(u) && ValidDraws(d)
      modifies this
      ensures currentQuestion == Some(QuestionFor(u, d))
      ensures timeRemaining == old(timeRemaining) && score == old(score)
      ensures old(Valid()) ==> Valid()
    {
      var target := Pick(u, 100) + 1;
      var equations := GenerateEquation.GenerateEquation(target, 3, 1);
      assert equations == GenerateEquation.Take(GenerateEquation.Solutions(target, 3, []), 1);
      if |equations| > 0 {
        ParseEquation(equations[0], d);
      } else {
        GenerateSimpleQuestion(d);
      }
    }

    method ParseEquation(equation: string, d: Draws)
      requires ValidDraws(d)
      modifies this
      ensures currentQuestion == Some(match ParsedQuestion(equation) case Some(q) => q case None => SimpleQuestion(d))
      ensures timeRemaining == old(timeRemaining) && score == old(score)
      ensures old(Valid()) ==> Valid()
    {
      var opIndex, foundOp := FindOperator(equation);
      if opIndex > 0 && foundOp.Some? {
        var a := JsParseInt.ParseInt(equation[..opIndex]);
        var b := JsParseInt.ParseInt(equation[opIndex + 1..]);
        var op := if foundOp.value == 'x' then "*" else [foundOp.value];
        var answer := EquationSolver.Evaluate(equation);
        AroundParsed(equation, opIndex, foundOp.value, a, b);
        currentQuestion := Some(Question(a, b, op, answer));
      } else {
        GenerateSimpleQuestion(d);
      }
    }

    method GenerateSimpleQuestion(d: Draws)
      requires ValidDraws(d)
      modifies this
      ensures currentQuestion == Some(SimpleQuestion(d))
      ensures timeRemaining == old(timeRemaining) && score == old(score)
      ensures old(Valid()) ==> Valid()
    {
      currentQuestion := Some(SimpleQuestion(d));
    }

    method GetCurrentQuestion() returns (q: Option<Question>)
      ensures q == currentQuestion
    {
      q := currentQuestion;
    }

    method CheckAnswer(userAnswer: int) returns (correct: bool)
      ensures correct == Accepts(currentQuestion, userAnswer)
    {
      if currentQuestion == None {
        return false;
      }
      correct := currentQuestion.value.answer == EquationSolver.Finite(userAnswer as real);
    }

    method AddScore(points: int)
      modifies this
      ensures score == old(score) + points
      ensures timeRemaining == old(timeRemaining) && currentQuestion == old(currentQuestion)
      ensures old(Valid()) && points >= 0 ==> Valid()
    {
      score := score + points;
    }

    method DecrementScore(points: int)
      modifies this
      ensures score == Scores.ClampedSub(old(score), points)
      ensures timeRemaining == old(timeRemaining) && currentQuestion == old(currentQuestion)
      ensures old(Valid()) ==> Valid()
    {
      score := if score - points > 0 then score - points else 0;
    }

    method GetScore() returns (s: int)
      ensures s == score
    {
      s := score;
    }

    method TickTimer() returns (time: int)
      modifies this
      ensures timeRemaining == Tick(old(timeRemaining)) && time == timeRemaining
      ensures score == old(score) && currentQuestion == old(currentQuestion)
      ensures old(Valid()) ==> Valid()
    {
      timeRemaining := if timeRemaining - 1 > 0 then timeRemaining - 1 else 0;
      time := timeRemaining;
    }

    method GetTimeRemaining() returns (time: int)
      ensures time == timeRemaining
    {
      time := timeRemaining;
    }

    /** The time goes back to the duration and the question is cleared;
        the score is kept. */
    method Reset()
      modifies this
      ensures timeRemaining == duration && currentQuestion == None && score == old(score)
      ensures old(Valid()) ==> Valid()
    {
      timeRemaining := duration;
      currentQuestion := None;
    }
  }

  // ---------------------------------------------------------------------
  // Properties

  /** The clamped decrement and the tick keep the state valid; so does a
      non-negative addition. */
  lemma ScoreAndTimeStayValid(score: int, points: int, time: int, duration: nat)
    requires score >= 0 && 0 <= time <= duration
    ensures Scores.ClampedSub(score, points) >= 0
    ensures points >= 0 ==> score + points >= 0
    ensures 0 <= Tick(time) <= duration
  {
  }

  /** Once the time reaches 0 it stays there, and `time` ticks are enough to
      get there from any time in 0..duration. */
  lemma {:induction false} TicksReachZero(time: int, n: nat)
    requires 0 <= time <= n
    ensures Ticks(time, n) == 0
  {
    if n > 0 {
      TicksReachZero(Tick(time), n - 1);
    }
  }

  /** Until then, each tick takes exactly one second off. */
  lemma {:induction false} TicksCountDown(time: int, n: nat)
    requires n <= time
    ensures Ticks(time, n) == time - n
  {
    if n > 0 {
      TicksCountDown(Tick(time), n - 1);
    }
  }

  /** A consistent question accepts exactly the value of its operands. */
  lemma AcceptsExactlyTheAnswer(q: Question, userAnswer: int)
    requires Consistent(q)
    ensures Accepts(Some(q), userAnswer) <==> userAnswer == Combine(q.op, q.a.value, q.b.value)
  {
  }

  /** The search for the operator checks '+', then '-', then 'x', and takes
      the first one found at an index above 0, not the leftmost operator of
      the string. */
  lemma SearchOrderCases(equation: string)
    ensures var (i, f) := FirstOperator(equation, SearchOrder);
            var plus, minus, times := IndexOf(equation, '+'), IndexOf(equation, '-'), IndexOf(equation, 'x');
            && (f == Some('+') <==> plus > 0)
            && (f == Some('+') ==> i == plus)
            && (f == Some('-') <==> plus <= 0 && minus > 0)
            && (f == Some('-') ==> i == minus)
            && (f == Some('x') <==> plus <= 0 && minus <= 0 && times > 0)
            && (f == Some('x') ==> i == times)
            && (f == None <==> plus <= 0 && minus <= 0 && times <= 0)
            && (f == None ==> i == -1)
  {
    var s := SearchOrder;
    assert s[0] == '+' && s[1..][0] == '-' && s[1..][1..][0] == 'x' && s[1..][1..][1..] == [];
  }

  /** A decimal digit on its own parses to its value. */
  lemma ParseDigitChar(t: string)
    requires |t| == 1 && '0' <= t[0] <= '9'
    ensures JsParseInt.ParseInt(t) == Some(t[0] as int - '0' as int)
  {
    JsParseInt.ParseDigits(t);
    assert t[..0] == [];
  }

  lemma ValueOfThree(s: string)
    requires DigitOpDigit(s)
    ensures var x, y := s[0] as int - '0' as int, s[2] as int - '0' as int;
            && (s[1] == '+' ==> GenerateEquation.Value(s) == x + y)
            && (s[1] == '-' ==> GenerateEquation.Value(s) == x - y)
  {
    assert GenerateEquation.Shaped(s) by {
      forall i | 0 <= i < |s| ensures GenerateEquation.Fits(i, s[i]) {
        assert i == 0 || i == 1 || i == 2;
      }
    }
    assert [s[0]] + [s[1], s[2]] == s;
    GenerateEquation.TermsSnoc([s[0]], s[1], s[2]);
    var t := GenerateEquation.Terms([s[0]]);
    assert t == [GenerateEquation.DigitValue(s[0])];
    GenerateEquation.SumApply(t, s[1], GenerateEquation.DigitValue(s[2]));
    assert GenerateEquation.Sum(t) == GenerateEquation.Sum([]) + t[0];
  }

  /** The evaluator's value of a one-operator equation of two digits. */
  lemma EvaluateThree(s: string)
    requires |s| == 3 && '0' <= s[0] <= '9' && '0' <= s[2] <= '9'
    ensures var x, y := s[0] as int - '0' as int, s[2] as int - '0' as int;
            && (s[1] == '+' ==> EquationSolver.Evaluation(s) == EquationSolver.Finite((x + y) as real))
            && (s[1] == '-' ==> EquationSolver.Evaluation(s) == EquationSolver.Finite((x - y) as real))
  {
    var x: nat, y: nat := s[0] as int - '0' as int, s[2] as int - '0' as int;
    EquationSolver.DecimalSmall(x);
    EquationSolver.DecimalSmall(y);
    assert s == EquationSolver.Decimal(x) + [s[1]] + EquationSolver.Decimal(y);
    if s[1] == '+' {
      EquationSolver.EvaluateSum(x, y);
    } else if s[1] == '-' {
      EquationSolver.EvaluateDifference(x, y);
    }
  }

  /** A digit 1..9, one of + - * /, a digit 1..9: what the generator
      builds for length 3. */
  predicate DigitOpDigit(s: string) {
    |s| == 3 && GenerateEquation.IsDigit(s[0]) && GenerateEquation.IsOperator(s[1]) && GenerateEquation.IsDigit(s[2])
  }

  lemma ShapeOfThree(s: string)
    requires GenerateEquation.Shaped(s) && |s| == 3
    ensures DigitOpDigit(s)
  {
    assert GenerateEquation.Fits(0, s[0]) && GenerateEquation.Fits(1, s[1]) && GenerateEquation.Fits(2, s[2]);
  }

  /** Where the search finds an operator in such an equation. */
  lemma OperatorOfThree(s: string)
    requires DigitOpDigit(s)
    ensures FirstOperator(s, SearchOrder) == if s[1] == '+' || s[1] == '-' then (1, Some(s[1])) else (-1, None)
  {
    SearchOrderCases(s);
    var plus, minus, times := IndexOf(s, '+'), IndexOf(s, '-'), IndexOf(s, 'x');
    assert times == -1;
    if s[1] == '+' {
      assert plus == 1;
    } else if s[1] == '-' {
      assert plus == -1 && minus == 1;
    } else {
      assert plus == -1 && minus == -1;
    }
  }

  /** The question built around an operator at index i, once both sides
      have been parsed. */
  lemma AroundParsed(s: string, i: int, c: char, a: Option<int>, b: Option<int>)
    requires 0 < i < |s| && a == JsParseInt.ParseInt(s[..i]) && b == JsParseInt.ParseInt(s[i + 1..])
    ensures QuestionAround(s, (i, Some(c)))
            == Some(Question(a, b, if c == 'x' then "*" else [c], EquationSolver.Evaluation(s)))
  {
  }

  /** The question held around the middle character of "d op d". */
  lemma ParsedOperands(s: string)
    requires |s| == 3 && '0' <= s[0] <= '9' && '0' <= s[2] <= '9' && s[1] != 'x'
    ensures QuestionAround(s, (1, Some(s[1])))
            == Some(Question(Some(s[0] as int - '0' as int), Some(s[2] as int - '0' as int),
                             [s[1]], EquationSolver.Evaluation(s)))
  {
    var x, y := s[0] as int - '0' as int, s[2] as int - '0' as int;
    ParseDigitChar(s[..1]);
    ParseDigitChar(s[2..]);
    AroundParsed(s, 1, s[1], Some(x), Some(y));
  }

  /** An equation of length 3 from the generator is parsed exactly when its
      operator is '+' or '-' ('*' and '/' are not among the symbols searched
      for); the question then shows its two digits and that operator. */
  lemma ParsedSolution(s: string)
    requires DigitOpDigit(s)
    ensures ParsedQuestion(s)
            == if s[1] == '+' || s[1] == '-' then
                 Some(Question(Some(s[0] as int - '0' as int), Some(s[2] as int - '0' as int),
                               [s[1]], EquationSolver.Evaluation(s)))
               else None
  {
    OperatorOfThree(s);
    var found := FirstOperator(s, SearchOrder);
    assert ParsedQuestion(s) == QuestionAround(s, found);
    if s[1] == '+' || s[1] == '-' {
      ParsedOperands(s);
    }
  }

  /** For '+' and '-' the evaluator and the generator agree on "d op d". */
  lemma AnswerOfThree(target: int, s: string)
    requires DigitOpDigit(s) && GenerateEquation.Value(s) == target && (s[1] == '+' || s[1] == '-')
    ensures EquationSolver.Evaluation(s) == EquationSolver.Finite(target as real)
    ensures target == Combine([s[1]], s[0] as int - '0' as int, s[2] as int - '0' as int)
  {
    ValueOfThree(s);
    EvaluateThree(s);
    if s[1] == '+' {
      assert [s[1]] == "+";
    } else {
      assert [s[1]] == "-";
    }
  }

  /** Whichever way it is made, the question generateQuestion stores has
      the value of its operands as its answer. */
  lemma GeneratedQuestionConsistent(u: real, d: Draws)
    requires Unit(u) && ValidDraws(d)
    ensures Consistent(QuestionFor(u, d))
  {
    var target := Pick(u, 100) + 1;
    var equations := GenerateEquation.Take(GenerateEquation.Solutions(target, 3, []), 1);
    GenerateEquation.FirstSolutions(target, 3, 1);
    if |equations| > 0 && ParsedQuestion(equations[0]).Some? {
      assert equations[0] in equations;
      FirstParsedConsistent(target, equations[0], ParsedQuestion(equations[0]).value);
    }
  }

  /** A question parsed from an equation the generator returns for the
      target has the target as its answer. */
  lemma FirstParsedConsistent(target: int, s: string, q: Question)
    requires GenerateEquation.IsSolution(target, 3, s) && ParsedQuestion(s) == Some(q)
    ensures q.answer == EquationSolver.Finite(target as real)
    ensures Consistent(q)
  {
    ShapeOfThree(s);
    ParsedSolution(s);
    AnswerOfThree(target, s);
    ConsistentAnswer(target, q);
  }

  /** A question whose answer is the target and whose operands combine to
      it is consistent. */
  lemma ConsistentAnswer(target: int, q: Question)
    requires q.a.Some? && q.b.Some? && (q.op == "+" || q.op == "-")
    requires q.answer == EquationSolver.Finite(target as real) && target == Combine(q.op, q.a.value, q.b.value)
    ensures Consistent(q)
  {
  }
}

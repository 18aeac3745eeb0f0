/** The evaluator of src/utils/equationSolver.ts: one left-to-right scan over
    the equation with whitespace removed, keeping a digit accumulator, a
    pending operator character and a stack of signed terms. */
module EquationSolver {
  import opened Wrappers
  import opened Ops

  /** A JavaScript number as evaluate produces it: an exact real, or one of
      the non-finite values (Infinity, -Infinity, NaN) that a division by zero
      produces and that every later arithmetic step keeps non-finite. */
  datatype Num = Finite(v: real) | NonFinite

  function Plus(a: Num, b: Num): Num {
    if a.Finite? && b.Finite? then Finite(a.v + b.v) else NonFinite
  }

  function Times(a: Num, n: nat): Num {
    if a.Finite? then Finite(a.v * (n as real)) else NonFinite
  }

  /** Real (not truncating) division; x / 0 is Infinity or NaN. */
  function Quot(a: Num, n: nat): Num {
    if a.Finite? && n != 0 then Finite(a.v / (n as real)) else NonFinite
  }

  predicate IsDigit(c: char) {
    '0' <= c <= '9'
  }

  function DigitValue(c: char): (d: nat)
    requires IsDigit(c)
    ensures d < 10
  {
    c as int - '0' as int
  }

  function DigitChar(d: nat): (c: char)
    requires d < 10
    ensures IsDigit(c) && DigitValue(c) == d
  {
    ('0' as int + d) as char
  }

  /** The characters of the regular-expression class `\s`. */
  predicate IsWhitespace(c: char) {
    c == ' ' || c == '\t' || c == '\n' || c == '\r' || c == '\U{000B}' || c == '\U{000C}'
    || c == '\U{00A0}' || c == '\U{1680}' || ('\U{2000}' <= c <= '\U{200A}')
    || c == '\U{2028}' || c == '\U{2029}' || c == '\U{202F}' || c == '\U{205F}'
    || c == '\U{3000}' || c == '\U{FEFF}'
  }

  predicate NoWhitespace(s: string) {
    forall i :: 0 <= i < |s| ==> !IsWhitespace(s[i])
  }

  /** `equation.replace(/\s+/g, '')`: every whitespace character removed, the
      others kept in order. */
  function StripWhitespace(s: string): (r: string)
    ensures NoWhitespace(r)
    ensures |r| <= |s|
  {
    if s == [] then []
    else (if IsWhitespace(s[0]) then [] else [s[0]]) + StripWhitespace(s[1..])
  }

  /** The glyphs that evaluate's switch recognises. */
  function Glyph(op: Op): char {
    match op
    case Add => '+'
    case Sub => '-'
    case Mul => 'x'
    case Div => '/'
  }

  /** Which case of the switch a pending operator character selects; any
      other character selects none. */
  function PendingOp(c: char): (r: Option<Op>)
    ensures r.Some? ==> Glyph(r.value) == c
    ensures r.None? ==> forall op: Op :: Glyph(op) != c
  {
    if c == '+' then Some(Add)
    else if c == '-' then Some(Sub)
    else if c == 'x' then Some(Mul)
    else if c == '/' then Some(Div)
    else None
  }

  /** The loop state of evaluate. */
  datatype Scan = Scan(stack: seq<Num>, num: nat, pending: char)

  const Start := Scan([], 0, '+')

  /** The state in which closing a term never pops an empty stack: the stack
      is empty only before the first close, while the pending operator is
      still the initial '+'. */
  predicate Poppable(st: Scan) {
    st.stack == [] ==> st.pending == '+'
  }

  /** Closing the current term under the pending operator: '+' pushes num,
      '-' pushes -num, 'x' and '/' replace the top of the stack, and any other
      pending character drops the term. */
  function CloseTerm(stack: seq<Num>, num: nat, pending: char): (r: seq<Num>)
    requires stack == [] ==> pending == '+'
    ensures r != []
    ensures PendingOp(pending).None? ==> r == stack
    ensures (PendingOp(pending) == Some(Add) || PendingOp(pending) == Some(Sub))
              ==> r[..|r| - 1] == stack
    ensures (PendingOp(pending) == Some(Mul) || PendingOp(pending) == Some(Div))
              ==> |r| == |stack| && r[..|r| - 1] == stack[..|stack| - 1]
  {
    match PendingOp(pending)
    case Some(Add) => stack + [Finite(num as real)]
    case Some(Sub) => stack + [Finite(-(num as real))]
    case Some(Mul) => stack[..|stack| - 1] + [Times(stack[|stack| - 1], num)]
    case Some(Div) => stack[..|stack| - 1] + [Quot(stack[|stack| - 1], num)]
    case None => stack
  }

  /** One iteration of the scan loop. */
  function Step(st: Scan, c: char): (r: Scan)
    requires Poppable(st)
    ensures Poppable(r)
  {
    if IsDigit(c) then st.(num := st.num * 10 + DigitValue(c))
    else Scan(CloseTerm(st.stack, st.num, st.pending), 0, c)
  }

  /** The state after scanning s from st; every state reached can be closed
      without popping an empty stack. */
  function ScanFrom(st: Scan, s: string): (r: Scan)
    requires Poppable(st)
    ensures Poppable(r)
  {
    if s == [] then st else Step(ScanFrom(st, s[..|s| - 1]), s[|s| - 1])
  }

  /** The stack once the last term is closed. */
  function Closed(st: Scan): seq<Num>
    requires Poppable(st)
  {
    CloseTerm(st.stack, st.num, st.pending)
  }

  /** `stack.reduce((a, b) => a + b, 0)`. */
  function Total(terms: seq<Num>): Num {
    if terms == [] then Finite(0.0) else Plus(Total(terms[..|terms| - 1]), terms[|terms| - 1])
  }

  /** The value evaluate returns for equation. */
  function Evaluation(equation: string): Num {
    Total(Closed(ScanFrom(Start, StripWhitespace(equation))))
  }

  /** The switch of the source: close the term under the pending operator by
      pushing onto, or popping and re-pushing, the stack. */
  method PushTerm(stack: seq<Num>, num: nat, operator: char) returns (r: seq<Num>)
    requires stack == [] ==> operator == '+'
    ensures r == CloseTerm(stack, num, operator)
  {
    r := stack;
    if operator == '+' {
      r := r + [Finite(num as real)];
    } else if operator == '-' {
      r := r + [Finite(-(num as real))];
    } else if operator == 'x' {
      var top := r[|r| - 1];
      r := r[..|r| - 1];
      r := r + [Times(top, num)];
    } else if operator == '/' {
      var top := r[|r| - 1];
      r := r[..|r| - 1];
      r := r + [Quot(top, num)];
    }
  }

  /** evaluate(equation). */
  method Evaluate(equation: string) returns (r: Num)
    ensures r == Evaluation(equation)
  {
    var s := StripWhitespace(equation);
    var stack: seq<Num> := [];
    var num: nat := 0;
    var operator := '+';
    for i := 0 to |s|
      invariant Scan(stack, num, operator) == ScanFrom(Start, s[..i])
    {
      var c := s[i];
      assert s[..i + 1][..i] == s[..i];
      if IsDigit(c) {
        num := num * 10 + DigitValue(c);
      } else {
        stack := PushTerm(stack, num, operator);
        operator := c;
        num := 0;
      }
    }
    assert s[..|s|] == s;
    stack := PushTerm(stack, num, operator);
    r := Total(stack);
  }

  // ---------------------------------------------------------------------
  // Properties of the evaluation

  lemma {:induction false} StripNoWhitespace(s: string)
    requires NoWhitespace(s)
    ensures StripWhitespace(s) == s
  {
    if s != [] {
      StripNoWhitespace(s[1..]);
    }
  }

  /** Whitespace is ignored: removing it first changes nothing. */
  lemma WhitespaceIgnored(s: string)
    ensures Evaluation(StripWhitespace(s)) == Evaluation(s)
  {
    StripNoWhitespace(StripWhitespace(s));
  }

  lemma {:induction false} ScanAppend(st: Scan, a: string, b: string)
    requires Poppable(st)
    ensures ScanFrom(st, a + b) == ScanFrom(ScanFrom(st, a), b)
    decreases |b|
  {
    if b == [] {
      assert a + b == a;
    } else {
      assert (a + b)[..|a + b| - 1] == a + b[..|b| - 1];
      ScanAppend(st, a, b[..|b| - 1]);
    }
  }

  /** Scanning the decimal digits of n right after a close leaves n in the
      accumulator and nothing else changed. */
  lemma {:induction false} ScanDecimal(st: Scan, n: nat)
    requires Poppable(st) && st.num == 0
    ensures ScanFrom(st, Decimal(n)) == st.(num := n)
    decreases n
  {
    if n >= 10 {
      ScanDecimal(st, n / 10);
      var s := Decimal(n);
      assert s[..|s| - 1] == Decimal(n / 10);
    }
  }

  /** The decimal rendering of n, most significant digit first. */
  function Decimal(n: nat): (s: string)
    ensures s != [] && forall i :: 0 <= i < |s| ==> IsDigit(s[i])
  {
    if n < 10 then [DigitChar(n)] else Decimal(n / 10) + [DigitChar(n % 10)]
  }

  /** The decimal spelling of n, with no leading zero, evaluates to n. */
  lemma EvaluateNumber(n: nat)
    ensures Evaluation(Decimal(n)) == Finite(n as real)
  {
    var s := Decimal(n);
    StripNoWhitespace(s);
    ScanDecimal(Start, n);
    var st := ScanFrom(Start, s);
    assert st == Scan([], n, '+');
    var terms := CloseTerm(st.stack, st.num, st.pending);
    assert terms == [Finite(n as real)];
    assert Total(terms) == Plus(Total([]), Finite(n as real));
  }

  predicate AllDigits(s: string) {
    forall i :: 0 <= i < |s| ==> IsDigit(s[i])
  }

  /** The number a run of decimal digits spells, leading zeros allowed. */
  function DigitsValue(s: string): nat
    requires AllDigits(s)
  {
    if s == [] then 0 else DigitsValue(s[..|s| - 1]) * 10 + DigitValue(s[|s| - 1])
  }

  /** Scanning any digit run right after a close leaves its value in the
      accumulator and nothing else changed. */
  lemma {:induction false} ScanDigits(st: Scan, s: string)
    requires Poppable(st) && st.num == 0 && AllDigits(s)
    ensures ScanFrom(st, s) == st.(num := DigitsValue(s))
    decreases |s|
  {
    if s != [] {
      var p := s[..|s| - 1];
      assert AllDigits(p) by {
        forall i | 0 <= i < |p| ensures IsDigit(p[i]) {
          assert p[i] == s[i];
        }
      }
      ScanDigits(st, p);
    }
  }

  /** Any non-empty string of digits, leading zeros included, evaluates to
      the number it spells. */
  lemma EvaluateDigits(s: string)
    requires s != [] && AllDigits(s)
    ensures Evaluation(s) == Finite(DigitsValue(s) as real)
  {
    StripNoWhitespace(s);
    ScanDigits(Start, s);
    var n := DigitsValue(s);
    var st := ScanFrom(Start, s);
    assert st == Scan([], n, '+');
    var terms := CloseTerm(st.stack, st.num, st.pending);
    assert terms == [Finite(n as real)];
    assert Total(terms) == Plus(Total([]), Finite(n as real));
  }

  /** The canonical spelling of n spells n. */
  lemma {:induction false} DigitsOfDecimal(n: nat)
    ensures AllDigits(Decimal(n)) && DigitsValue(Decimal(n)) == n
    decreases n
  {
    if n >= 10 {
      DigitsOfDecimal(n / 10);
      var s := Decimal(n);
      assert s[..|s| - 1] == Decimal(n / 10);
    }
  }

  /** Leading zeros do not change the value: "007" is 7. */
  lemma LeadingZeros(s: string)
    requires s == "007"
    ensures Evaluation(s) == Finite(7.0)
  {
    assert AllDigits(s);
    var p, q := s[..2], s[..1];
    assert p == "00" && p[..1] == q && q[..0] == [];
    assert DigitsValue(q) == 0;
    assert DigitsValue(p) == 0;
    assert DigitsValue(s) == 7;
    EvaluateDigits(s);
  }

  // ---------------------------------------------------------------------
  // A reference semantics: usual precedence, left-associative

  /** An equation over the evaluator's glyphs: a leading number followed by
      (operator, number) pairs. */
  datatype Equation = Equation(first: nat, rest: seq<(Op, nat)>)

  function RenderRest(rest: seq<(Op, nat)>): string {
    if rest == [] then []
    else RenderRest(rest[..|rest| - 1]) + [Glyph(rest[|rest| - 1].0)] + Decimal(rest[|rest| - 1].1)
  }

  function Render(e: Equation): string {
    Decimal(e.first) + RenderRest(e.rest)
  }

  /** The signed additive terms of an equation read with the usual precedence:
      'x' and '/' extend the running term, '+' and '-' start a new one. */
  function TermsFrom(term: Num, rest: seq<(Op, nat)>): (r: seq<Num>)
    ensures r != []
    decreases |rest|
  {
    if rest == [] then [term]
    else
      var n := rest[0].1;
      match rest[0].0
      case Add => [term] + TermsFrom(Finite(n as real), rest[1..])
      case Sub => [term] + TermsFrom(Finite(-(n as real)), rest[1..])
      case Mul => TermsFrom(Times(term, n), rest[1..])
      case Div => TermsFrom(Quot(term, n), rest[1..])
  }

  function Terms(e: Equation): seq<Num> {
    TermsFrom(Finite(e.first as real), e.rest)
  }

  /** Appending one more operator and number to the terms. */
  function Extend(terms: seq<Num>, op: Op, n: nat): seq<Num>
    requires terms != []
  {
    match op
    case Add => terms + [Finite(n as real)]
    case Sub => terms + [Finite(-(n as real))]
    case Mul => terms[..|terms| - 1] + [Times(terms[|terms| - 1], n)]
    case Div => terms[..|terms| - 1] + [Quot(terms[|terms| - 1], n)]
  }

  lemma {:induction false} TermsFromSnoc(term: Num, rest: seq<(Op, nat)>, op: Op, n: nat)
    ensures TermsFrom(term, rest + [(op, n)]) == Extend(TermsFrom(term, rest), op, n)
    decreases |rest|
  {
    if rest != [] {
      var m := rest[0].1;
      assert (rest + [(op, n)])[1..] == rest[1..] + [(op, n)];
      assert (rest + [(op, n)])[0] == rest[0];
      match rest[0].0
      case Add =>
        TermsFromSnoc(Finite(m as real), rest[1..], op, n);
        ExtendCons(term, TermsFrom(Finite(m as real), rest[1..]), op, n);
      case Sub =>
        TermsFromSnoc(Finite(-(m as real)), rest[1..], op, n);
        ExtendCons(term, TermsFrom(Finite(-(m as real)), rest[1..]), op, n);
      case Mul =>
        TermsFromSnoc(Times(term, m), rest[1..], op, n);
      case Div =>
        TermsFromSnoc(Quot(term, m), rest[1..], op, n);
    }
  }

  /** Extending touches only the last term. */
  lemma ExtendCons(term: Num, terms: seq<Num>, op: Op, n: nat)
    requires terms != []
    ensures Extend([term] + terms, op, n) == [term] + Extend(terms, op, n)
  {
    var all := [term] + terms;
    assert all[..|all| - 1] == [term] + terms[..|terms| - 1];
    assert all[|all| - 1] == terms[|terms| - 1];
  }

  /** After scanning a rendered equation, closing the last term yields exactly
      its reference terms. */
  lemma {:induction false} ScanRendered(first: nat, rest: seq<(Op, nat)>)
    ensures Closed(ScanFrom(Start, Render(Equation(first, rest)))) == TermsFrom(Finite(first as real), rest)
    decreases |rest|
  {
    if rest == [] {
      assert Render(Equation(first, rest)) == Decimal(first);
      ScanDecimal(Start, first);
    } else {
      var init, op, n := rest[..|rest| - 1], rest[|rest| - 1].0, rest[|rest| - 1].1;
      assert rest == init + [(op, n)];
      ScanRendered(first, init);
      var a := Render(Equation(first, init));
      assert Render(Equation(first, rest)) == (a + [Glyph(op)]) + Decimal(n);
      var st := ScanFrom(Start, a);
      ScanAppend(Start, a, [Glyph(op)]);
      assert ScanFrom(st, [Glyph(op)]) == Step(st, Glyph(op));
      var mid := Scan(Closed(st), 0, Glyph(op));
      assert ScanFrom(Start, a + [Glyph(op)]) == mid;
      ScanAppend(Start, a + [Glyph(op)], Decimal(n));
      ScanDecimal(mid, n);
      assert ScanFrom(Start, Render(Equation(first, rest))) == mid.(num := n);
      TermsFromSnoc(Finite(first as real), init, op, n);
      assert Closed(mid.(num := n)) == Extend(Closed(st), op, n);
    }
  }

  lemma {:induction false} RenderNoWhitespace(rest: seq<(Op, nat)>)
    ensures NoWhitespace(RenderRest(rest))
    decreases |rest|
  {
    if rest != [] {
      RenderNoWhitespace(rest[..|rest| - 1]);
    }
  }

  /** The evaluator computes the usual precedence reading: 'x' and '/' bind
      tighter than '+' and '-', all four associate to the left, and the
      result is the sum of the signed terms. */
  lemma EvaluateRendered(e: Equation)
    ensures Evaluation(Render(e)) == Total(Terms(e))
  {
    RenderNoWhitespace(e.rest);
    assert NoWhitespace(Render(e));
    StripNoWhitespace(Render(e));
    ScanRendered(e.first, e.rest);
  }

  // ---------------------------------------------------------------------
  // Worked examples

  lemma DecimalSmall(n: nat)
    requires n < 100
    ensures Decimal(n) == if n < 10 then [DigitChar(n)] else [DigitChar(n / 10), DigitChar(n % 10)]
  {
  }

  lemma EmptyIsZero()
    ensures Evaluation("") == Finite(0.0)
  {
  }

  lemma SingleNumberExample()
    ensures Evaluation("42") == Finite(42.0)
  {
    EvaluateNumber(42);
    DecimalSmall(42);
  }

  lemma RenderOneOp(op1: Op, b: nat)
    ensures RenderRest([(op1, b)]) == [Glyph(op1)] + Decimal(b)
  {
    var rest: seq<(Op, nat)> := [(op1, b)];
    assert rest[..0] == [];
    assert RenderRest(rest[..0]) == [];
  }

  lemma EvaluateOneOp(a: nat, op: Op, b: nat)
    ensures Evaluation(Decimal(a) + [Glyph(op)] + Decimal(b))
            == Total(TermsFrom(Finite(a as real), [(op, b)]))
  {
    RenderOneOp(op, b);
    var e := Equation(a, [(op, b)]);
    assert Render(e) == Decimal(a) + ([Glyph(op)] + Decimal(b));
    assert Render(e) == Decimal(a) + [Glyph(op)] + Decimal(b);
    EvaluateRendered(e);
  }

  /** "a+b" evaluates to the sum. */
  lemma EvaluateSum(a: nat, b: nat)
    ensures Evaluation(Decimal(a) + ['+'] + Decimal(b)) == Finite((a + b) as real)
  {
    EvaluateOneOp(a, Add, b);
    var rest: seq<(Op, nat)> := [(Add, b)];
    assert rest[1..] == [];
    assert TermsFrom(Finite(a as real), rest) == [Finite(a as real), Finite(b as real)];
    TotalOfTwo(Finite(a as real), Finite(b as real));
  }

  /** "a-b" evaluates to the difference. */
  lemma EvaluateDifference(a: nat, b: nat)
    ensures Evaluation(Decimal(a) + ['-'] + Decimal(b)) == Finite((a - b) as real)
  {
    EvaluateOneOp(a, Sub, b);
    var rest: seq<(Op, nat)> := [(Sub, b)];
    assert rest[1..] == [];
    assert TermsFrom(Finite(a as real), rest) == [Finite(a as real), Finite(-(b as real))];
    TotalOfTwo(Finite(a as real), Finite(-(b as real)));
  }

  lemma RenderTwoOps(op1: Op, b: nat, op2: Op, c: nat)
    ensures RenderRest([(op1, b), (op2, c)]) == [Glyph(op1)] + Decimal(b) + [Glyph(op2)] + Decimal(c)
  {
    var rest: seq<(Op, nat)> := [(op1, b), (op2, c)];
    assert rest[..1] == [(op1, b)];
    RenderOneOp(op1, b);
  }

  lemma EvaluateTwoOps(a: nat, op1: Op, b: nat, op2: Op, c: nat)
    ensures Evaluation(Decimal(a) + [Glyph(op1)] + Decimal(b) + [Glyph(op2)] + Decimal(c))
            == Total(TermsFrom(Finite(a as real), [(op1, b), (op2, c)]))
  {
    RenderTwoOps(op1, b, op2, c);
    var e := Equation(a, [(op1, b), (op2, c)]);
    Associate(Decimal(a), [Glyph(op1)], Decimal(b), [Glyph(op2)], Decimal(c));
    EvaluateRendered(e);
  }

  lemma Associate(p: string, q: string, r: string, s: string, t: string)
    ensures p + (q + r + s + t) == p + q + r + s + t
  {
  }

  lemma TotalOfTwo(x: Num, y: Num)
    ensures Total([x, y]) == Plus(Plus(Finite(0.0), x), y)
  {
    assert [x, y][..1] == [x];
    assert [x][..0] == [];
    assert Total([x]) == Plus(Total([]), x);
  }

  lemma TotalOfThree(x: Num, y: Num, z: Num)
    ensures Total([x, y, z]) == Plus(Plus(Plus(Finite(0.0), x), y), z)
  {
    assert [x, y, z][..2] == [x, y];
    TotalOfTwo(x, y);
  }

  /** '+' and '-' terms accumulate from left to right. */
  lemma AddExample(s: string)
    requires s == "10+20+30"
    ensures Evaluation(s) == Finite(60.0)
  {
    assert s == Decimal(10) + [Glyph(Add)] + Decimal(20) + [Glyph(Add)] + Decimal(30) by {
      DecimalSmall(10); DecimalSmall(20); DecimalSmall(30);
    }
    assert TermsFrom(Finite(10.0), [(Add, 20), (Add, 30)]) == [Finite(10.0), Finite(20.0), Finite(30.0)] by {
      var rest: seq<(Op, nat)> := [(Add, 20), (Add, 30)];
      assert rest[1..] == [(Add, 30)] && rest[1..][1..] == [];
    }
    EvaluateTwoOps(10, Add, 20, Add, 30);
    TotalOfThree(Finite(10.0), Finite(20.0), Finite(30.0));
  }

  lemma SubExample(s: string)
    requires s == "10-5-2"
    ensures Evaluation(s) == Finite(3.0)
  {
    assert s == Decimal(10) + [Glyph(Sub)] + Decimal(5) + [Glyph(Sub)] + Decimal(2) by {
      DecimalSmall(10); DecimalSmall(5); DecimalSmall(2);
    }
    assert TermsFrom(Finite(10.0), [(Sub, 5), (Sub, 2)]) == [Finite(10.0), Finite(-5.0), Finite(-2.0)] by {
      var rest: seq<(Op, nat)> := [(Sub, 5), (Sub, 2)];
      assert rest[1..] == [(Sub, 2)] && rest[1..][1..] == [];
    }
    EvaluateTwoOps(10, Sub, 5, Sub, 2);
    TotalOfThree(Finite(10.0), Finite(-5.0), Finite(-2.0));
  }

  /** 'x' and '/' combine only with the top term. */
  lemma DivThenAddExample(s: string)
    requires s == "10/2+3"
    ensures Evaluation(s) == Finite(8.0)
  {
    assert s == Decimal(10) + [Glyph(Div)] + Decimal(2) + [Glyph(Add)] + Decimal(3) by {
      DecimalSmall(10); DecimalSmall(2); DecimalSmall(3);
    }
    assert TermsFrom(Finite(10.0), [(Div, 2), (Add, 3)]) == [Finite(5.0), Finite(3.0)] by {
      var rest: seq<(Op, nat)> := [(Div, 2), (Add, 3)];
      assert rest[1..] == [(Add, 3)] && rest[1..][1..] == [];
    }
    EvaluateTwoOps(10, Div, 2, Add, 3);
    TotalOfTwo(Finite(5.0), Finite(3.0));
  }

  lemma SubThenDivExample(s: string)
    requires s == "14-3/2"
    ensures Evaluation(s) == Finite(12.5)
  {
    assert s == Decimal(14) + [Glyph(Sub)] + Decimal(3) + [Glyph(Div)] + Decimal(2) by {
      DecimalSmall(14); DecimalSmall(3); DecimalSmall(2);
    }
    assert TermsFrom(Finite(14.0), [(Sub, 3), (Div, 2)]) == [Finite(14.0), Finite(-1.5)] by {
      var rest: seq<(Op, nat)> := [(Sub, 3), (Div, 2)];
      assert rest[1..] == [(Div, 2)] && rest[1..][1..] == [];
      assert TermsFrom(Finite(3.0), rest[1..]) == [Finite(1.5)];
      assert TermsFrom(Finite(-3.0), rest[1..]) == [Finite(-1.5)];
    }
    EvaluateTwoOps(14, Sub, 3, Div, 2);
    TotalOfTwo(Finite(14.0), Finite(-1.5));
  }

  /** Division is real, not truncating. */
  lemma RealDivisionExample(s: string)
    requires s == "3+5/2"
    ensures Evaluation(s) == Finite(5.5)
  {
    assert s == Decimal(3) + [Glyph(Add)] + Decimal(5) + [Glyph(Div)] + Decimal(2) by {
      DecimalSmall(3); DecimalSmall(5); DecimalSmall(2);
    }
    assert TermsFrom(Finite(3.0), [(Add, 5), (Div, 2)]) == [Finite(3.0), Finite(2.5)] by {
      var rest: seq<(Op, nat)> := [(Add, 5), (Div, 2)];
      assert rest[1..] == [(Div, 2)] && rest[1..][1..] == [];
    }
    EvaluateTwoOps(3, Add, 5, Div, 2);
    TotalOfTwo(Finite(3.0), Finite(2.5));
  }

  /** 'x' binds tighter than '+': "3+2x2" is 7, not 10. */
  lemma PrecedenceExample(s: string)
    requires s == "3+2x2"
    ensures Evaluation(s) == Finite(7.0)
  {
    assert s == Decimal(3) + [Glyph(Add)] + Decimal(2) + [Glyph(Mul)] + Decimal(2) by {
      DecimalSmall(3); DecimalSmall(2);
    }
    assert TermsFrom(Finite(3.0), [(Add, 2), (Mul, 2)]) == [Finite(3.0), Finite(4.0)] by {
      var rest: seq<(Op, nat)> := [(Add, 2), (Mul, 2)];
      assert rest[1..] == [(Mul, 2)] && rest[1..][1..] == [];
    }
    EvaluateTwoOps(3, Add, 2, Mul, 2);
    TotalOfTwo(Finite(3.0), Finite(4.0));
  }

  /** '*' is not one of the evaluator's glyphs: the term after it is dropped. */
  lemma StarDropsTerm()
    ensures Evaluation("2*3") == Finite(2.0)
  {
    var s := "2*3";
    StripNoWhitespace(s);
    assert s[..2][..1] == "2" && s[..1][..0] == [];
    assert ScanFrom(Start, s[..1]) == Scan([], 2, '+');
    assert ScanFrom(Start, s[..2]) == Scan([Finite(2.0)], 0, '*');
  }
}

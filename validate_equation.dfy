/** The syntax validator of src/utils/validateEquation.ts: single-digit operands
    alternating with one of the glyphs + - / x, starting and ending on a digit. */
module ValidateEquation {
  import opened Ops

  /** `/^\d$/`: an ASCII decimal digit. */
  predicate IsDigit(c: char) {
    '0' <= c <= '9'
  }

  /** The `operators` list of the validator. */
  predicate IsOperator(c: char) {
    c == '+' || c == '-' || c == '/' || c == 'x'
  }

  /** The validator's glyph for each operator. */
  function Glyph(op: Op): (c: char)
    ensures IsOperator(c)
  {
    match op
    case Add => '+'
    case Sub => '-'
    case Div => '/'
    case Mul => 'x'
  }

  /** The three checks made on each adjacent pair: the current character is
      a digit or an operator, and exactly one of the pair is a digit. */
  predicate PairOk(prev: char, curr: char) {
    && (IsDigit(curr) || IsOperator(curr))
    && !(IsDigit(curr) && IsDigit(prev))
    && !(!IsDigit(curr) && !IsDigit(prev))
  }

  /** What validate accepts, check by check. */
  predicate ValidSyntax(s: string) {
    && |s| > 2
    && IsDigit(s[0]) && IsDigit(s[|s| - 1])
    && forall i :: 1 <= i < |s| ==> PairOk(s[i - 1], s[i])
  }

  /** The shape the checks describe: an odd number (at least three) of
      characters, digits at even indices and operators at odd ones. */
  predicate Alternating(s: string) {
    && |s| >= 3 && |s| % 2 == 1
    && forall i :: 0 <= i < |s| ==> if i % 2 == 0 then IsDigit(s[i]) else IsOperator(s[i])
  }

  /** validate(equation). */
  method Validate(equation: string) returns (ok: bool)
    ensures ok == ValidSyntax(equation)
    ensures ok <==> Alternating(equation)
  {
    ValidIffAlternating(equation);
    if |equation| <= 2 {
      return false;
    }
    if !IsDigit(equation[0]) || !IsDigit(equation[|equation| - 1]) {
      return false;
    }
    for i := 1 to |equation|
      invariant forall j :: 1 <= j < i ==> PairOk(equation[j - 1], equation[j])
    {
      var curr := equation[i];
      var prev := equation[i - 1];
      if !IsDigit(curr) && !IsOperator(curr) {
        return false;
      }
      if IsDigit(curr) && IsDigit(prev) {
        return false;
      }
      if !IsDigit(curr) && !IsDigit(prev) {
        return false;
      }
    }
    return true;
  }

  lemma {:induction false} AlternatesUpTo(s: string, k: nat)
    requires |s| > 0 && IsDigit(s[0])
    requires forall i :: 1 <= i < |s| ==> PairOk(s[i - 1], s[i])
    requires k < |s|
    ensures if k % 2 == 0 then IsDigit(s[k]) else IsOperator(s[k])
  {
    if k > 0 {
      AlternatesUpTo(s, k - 1);
      assert PairOk(s[k - 1], s[k]);
    }
  }

  /** The checks accept exactly the alternating strings of odd length. */
  lemma ValidIffAlternating(s: string)
    ensures ValidSyntax(s) <==> Alternating(s)
  {
    if ValidSyntax(s) {
      forall k | 0 <= k < |s|
        ensures if k % 2 == 0 then IsDigit(s[k]) else IsOperator(s[k])
      {
        AlternatesUpTo(s, k);
      }
      assert IsDigit(s[|s| - 1]);
    }
    if Alternating(s) {
      forall i | 1 <= i < |s| ensures PairOk(s[i - 1], s[i]) {
        assert (i - 1) % 2 != i % 2;
      }
    }
  }

  /** Strings the checks reject, among them "2*3": '*' is not one of the
      validator's glyphs. */
  lemma Rejections(s: string)
    requires s in {"12+3", "1++2", "+1", "1+", "1 +2", "2*3"}
    ensures !ValidSyntax(s)
  {
    if s == "12+3" {
      assert !PairOk(s[0], s[1]);
    } else if s == "1++2" {
      assert !PairOk(s[1], s[2]);
    } else if s == "1 +2" {
      assert !PairOk(s[0], s[1]);
    } else if s == "2*3" {
      assert !PairOk(s[0], s[1]);
    }
  }

  lemma Acceptance(s: string)
    requires s in {"1+2", "8/4", "2x3", "1+2-3x4/5+6"}
    ensures ValidSyntax(s)
  {
    assert Alternating(s);
    ValidIffAlternating(s);
  }
}

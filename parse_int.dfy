/** JavaScript's global `parseInt(string)` with no radix, as the speed game
    uses it on operand substrings and on the typed answer: leading whitespace
    skipped, an optional sign, an optional 0x / 0X prefix selecting base 16,
    then the longest run of digits of the base; NaN when that run is empty. */
module JsParseInt {
  import opened Wrappers
  import EquationSolver

  /** `StrWhiteSpaceChar`: the same characters as `\s`. */
  predicate IsSpace(c: char) {
    EquationSolver.IsWhitespace(c)
  }

  /** The string with its leading whitespace removed. */
  function TrimStart(s: string): (r: string)
    ensures r == [] || !IsSpace(r[0])
  {
    if s != [] && IsSpace(s[0]) then TrimStart(s[1..]) else s
  }

  /** The value of c as a digit of the given base (10 or 16), if it is one. */
  function DigitIn(c: char, radix: nat): (r: Option<nat>)
    ensures r.Some? ==> r.value < radix
    ensures radix == 10 ==> (r.Some? <==> '0' <= c <= '9')
  {
    if '0' <= c <= '9' && (c as int - '0' as int) < radix then Some(c as int - '0' as int)
    else if radix == 16 && 'a' <= c <= 'f' then Some(c as int - 'a' as int + 10)
    else if radix == 16 && 'A' <= c <= 'F' then Some(c as int - 'A' as int + 10)
    else None
  }

  predicate AllDigits(s: string, radix: nat) {
    forall i :: 0 <= i < |s| ==> DigitIn(s[i], radix).Some?
  }

  /** The longest prefix of s made of digits of the base. */
  function DigitRun(s: string, radix: nat): (r: string)
    ensures AllDigits(r, radix)
  {
    if s != [] && DigitIn(s[0], radix).Some? then [s[0]] + DigitRun(s[1..], radix) else []
  }

  /** The value of a run of digits, most significant first. */
  function RunValue(s: string, radix: nat): (v: nat)
    requires AllDigits(s, radix)
  {
    if s == [] then 0
    else RunValue(s[..|s| - 1], radix) * radix + DigitIn(s[|s| - 1], radix).value
  }

  /** The sign a leading '-' or '+' gives. */
  function Sign(t: string): int {
    if t != [] && t[0] == '-' then -1 else 1
  }

  /** t without its sign character. */
  function Unsigned(t: string): string {
    if t != [] && (t[0] == '-' || t[0] == '+') then t[1..] else t
  }

  /** The 0x / 0X prefix that selects base 16. */
  predicate HexPrefixed(u: string) {
    |u| >= 2 && u[0] == '0' && (u[1] == 'x' || u[1] == 'X')
  }

  /** The digits of an unsigned string: a maximal run of base-16 digits after
      the prefix, or of base-10 digits. */
  function Magnitude(u: string): Option<nat> {
    var radix := if HexPrefixed(u) then 16 else 10;
    var digits := DigitRun(if HexPrefixed(u) then u[2..] else u, radix);
    if digits == [] then None else Some(RunValue(digits, radix))
  }

  /** `parseInt(s)`; None stands for NaN. The result for a negative sign and
      a zero value is -0 in JavaScript, which is 0 here. */
  function ParseInt(s: string): (r: Option<int>)
    ensures r.Some? ==> Magnitude(Unsigned(TrimStart(s))).Some?
  {
    var t := TrimStart(s);
    Signed(Sign(t), Magnitude(Unsigned(t)))
  }

  /** A magnitude with a sign applied; None (NaN) stays None. */
  function Signed(sign: int, m: Option<nat>): (r: Option<int>)
    ensures r.Some? <==> m.Some?
    ensures r.Some? ==> r.value == sign * m.value
  {
    match m
    case None => None
    case Some(v) => Some(sign * v)
  }

  // ---------------------------------------------------------------------
  // Properties

  lemma {:induction false} RunOfDigits(s: string, t: string)
    requires AllDigits(s, 10)
    requires t == [] || !('0' <= t[0] <= '9')
    ensures DigitRun(s + t, 10) == s
    decreases |s|
  {
    if s == [] {
      assert s + t == t;
    } else {
      assert (s + t)[1..] == s[1..] + t;
      RunOfDigits(s[1..], t);
      assert [s[0]] + s[1..] == s;
    }
  }

  lemma {:induction false} DecimalValue(n: nat)
    ensures AllDigits(EquationSolver.Decimal(n), 10)
    ensures RunValue(EquationSolver.Decimal(n), 10) == n
  {
    var s := EquationSolver.Decimal(n);
    if n >= 10 {
      DecimalValue(n / 10);
      assert s[..|s| - 1] == EquationSolver.Decimal(n / 10);
    }
  }

  /** What may follow a number without changing what it parses to. */
  predicate EndsNumber(t: string) {
    t == [] || !('0' <= t[0] <= '9' || t[0] == 'x' || t[0] == 'X')
  }

  lemma NoLeadingSpace(s: string)
    requires s == [] || !IsSpace(s[0])
    ensures TrimStart(s) == s
  {
  }

  /** Once trimmed, parseInt applies the sign to the magnitude. */
  lemma ParseTrimmed(t: string)
    requires TrimStart(t) == t
    ensures ParseInt(t) == Signed(Sign(t), Magnitude(Unsigned(t)))
  {
  }

  /** A string that starts with a digit parses to its magnitude. */
  lemma ParseUnsigned(u: string)
    requires u != [] && '0' <= u[0] <= '9'
    ensures ParseInt(u) == Signed(1, Magnitude(u))
  {
    NoLeadingSpace(u);
    ParseTrimmed(u);
    assert Unsigned(u) == u && Sign(u) == 1;
  }

  /** A leading '-' negates the magnitude of what follows it. */
  lemma ParseNegative(m: string)
    requires m != [] && m[0] == '-'
    ensures ParseInt(m) == Signed(-1, Magnitude(m[1..]))
  {
    NoLeadingSpace(m);
    ParseTrimmed(m);
  }

  /** A run of decimal digits followed by anything that does not start with
      a digit or an x parses to the run's value. */
  lemma ParseRun(d: string, t: string)
    requires d != [] && AllDigits(d, 10) && EndsNumber(t)
    ensures ParseInt(d + t) == Some(RunValue(d, 10) as int)
  {
    MagnitudeOfRun(d, t);
    assert (d + t)[0] == d[0];
    ParseUnsigned(d + t);
  }

  /** After a '-', to its negation. */
  lemma ParseNegativeRun(m: string, d: string, t: string)
    requires m != [] && m[0] == '-' && m[1..] == d + t
    requires d != [] && AllDigits(d, 10) && EndsNumber(t)
    ensures ParseInt(m) == Some(-(RunValue(d, 10) as int))
  {
    MagnitudeOfRun(d, t);
    ParseNegative(m);
  }

  lemma MagnitudeOfRun(d: string, t: string)
    requires d != [] && AllDigits(d, 10) && EndsNumber(t)
    ensures Magnitude(d + t) == Some(RunValue(d, 10))
  {
    var u := d + t;
    assert u[0] == d[0];
    if |d| >= 2 {
      assert u[1] == d[1] && DigitIn(d[1], 10).Some?;
    } else if |u| >= 2 {
      assert u[1] == t[0];
    }
    assert !HexPrefixed(u);
    RunOfDigits(d, t);
  }

  /** The decimal rendering of n, followed by anything that does not start
      with a digit or an x, parses back to n. */
  lemma ParseDecimal(n: nat, t: string)
    requires EndsNumber(t)
    ensures ParseInt(EquationSolver.Decimal(n) + t) == Some(n)
  {
    DecimalValue(n);
    ParseRun(EquationSolver.Decimal(n), t);
  }

  /** After a '-', it parses back to -n. */
  lemma ParseNegativeDecimal(n: nat, m: string, t: string)
    requires m != [] && m[0] == '-' && m[1..] == EquationSolver.Decimal(n) + t
    requires EndsNumber(t)
    ensures ParseInt(m) == Some(-(n as int))
  {
    DecimalValue(n);
    ParseNegativeRun(m, EquationSolver.Decimal(n), t);
  }

  /** A whole string of decimal digits parses to its value. */
  lemma ParseDigits(s: string)
    requires s != [] && AllDigits(s, 10)
    ensures ParseInt(s) == Some(RunValue(s, 10) as int)
  {
    assert s == s + [];
    ParseRun(s, []);
  }

  /** A '-' followed by a whole string of decimal digits parses to minus
      their value. */
  lemma ParseNegativeDigits(s: string)
    requires |s| >= 2 && s[0] == '-' && AllDigits(s[1..], 10)
    ensures ParseInt(s) == Some(-(RunValue(s[1..], 10) as int))
  {
    assert s[1..] == s[1..] + [];
    ParseNegativeRun(s, s[1..], []);
  }

  /** The empty string and a lone '-' are NaN. */
  lemma LoneSignIsNaN(s: string)
    requires s == [] || s == ['-']
    ensures ParseInt(s) == None
  {
    assert Magnitude([]) == None;
    if s == [] {
      assert TrimStart(s) == [] && Unsigned(TrimStart(s)) == [];
    } else {
      ParseNegative(s);
    }
  }

  /** Leading whitespace is skipped. */
  lemma ParseAfterSpace(c: char, u: string)
    requires IsSpace(c)
    ensures ParseInt([c] + u) == ParseInt(u)
  {
    assert ([c] + u)[1..] == u;
  }
}

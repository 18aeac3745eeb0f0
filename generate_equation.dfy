/** The generator of src/utils/generateEquation.ts: a depth-first backtracking
    search over strings of a fixed odd length with digits 1..9 at even
    positions and one of + - * / at odd positions, keeping those whose value
    equals the target and stopping once `count` have been found. */
module GenerateEquation {
  import opened Wrappers

  /** The `operations` list, in the order the search tries them. */
  const Operations: seq<char> := ['+', '-', '*', '/']

  predicate IsDigit(c: char) {
    '1' <= c <= '9'
  }

  predicate IsOperator(c: char) {
    c == '+' || c == '-' || c == '*' || c == '/'
  }

  /** `i.toString()` for a digit 1..9. */
  function DigitChar(i: int): (c: char)
    requires 1 <= i <= 9
    ensures IsDigit(c) && DigitValue(c) == i
  {
    ('0' as int + i) as char
  }

  function DigitValue(c: char): (d: int)
    requires IsDigit(c)
    ensures 1 <= d <= 9
  {
    c as int - '0' as int
  }

  lemma DigitRoundTrip(c: char)
    requires IsDigit(c)
    ensures DigitChar(DigitValue(c)) == c
  {
  }

  /** What the search puts at index i: a digit 1..9 at even indices, an
      operator at odd ones. */
  predicate Fits(i: int, c: char) {
    if i % 2 == 0 then IsDigit(c) else IsOperator(c)
  }

  /** Every character fits its index. */
  predicate Shaped(s: string) {
    forall i :: 0 <= i < |s| ==> Fits(i, s[i])
  }

  function Last(t: seq<int>): int
    requires t != []
  {
    t[|t| - 1]
  }

  function Sum(t: seq<int>): int {
    if t == [] then 0 else Sum(t[..|t| - 1]) + t[|t| - 1]
  }

  /** The terms after one more operator and digit: '+' and '-' start a
      term, '*' multiplies the last term and '/' floor-divides it
      (`Math.floor(prev / i)`; the divisor is 1..9, so Dafny's division is
      the floor). */
  function Apply(t: seq<int>, op: char, d: int): (u: seq<int>)
    requires t != [] && 1 <= d <= 9
    ensures u != []
  {
    if op == '+' then t + [d]
    else if op == '-' then t + [-d]
    else if op == '*' then t[..|t| - 1] + [Last(t) * d]
    else t[..|t| - 1] + [Last(t) / d]
  }

  /** The signed additive terms of a shaped string of odd length, as the
      search counts them. */
  function Terms(s: string): (t: seq<int>)
    requires Shaped(s) && |s| % 2 == 1
    ensures t != []
    decreases |s|
  {
    if |s| == 1 then [DigitValue(s[0])]
    else Apply(Terms(s[..|s| - 2]), s[|s| - 2], DigitValue(s[|s| - 1]))
  }

  /** The value the search assigns to a complete string: its term sum. */
  function Value(s: string): int
    requires Shaped(s) && |s| % 2 == 1
  {
    Sum(Terms(s))
  }

  /** The first n elements of xs (none when n <= 0). */
  function Take<T>(xs: seq<T>, n: int): seq<T> {
    if n <= 0 then [] else if n < |xs| then xs[..n] else xs
  }

  // ---------------------------------------------------------------------
  // The search tree, without the cutoff

  /** Every completion of curr to `length` characters whose value is the
      target, in the order the search visits them. */
  ghost function Solutions(target: int, length: nat, curr: string): seq<string>
    requires length % 2 == 1 && |curr| <= length && Shaped(curr)
    decreases length - |curr|, 10
  {
    if |curr| == length then (if Value(curr) == target then [curr] else [])
    else if |curr| % 2 == 1 then OpBranches(target, length, curr, 4)
    else DigitBranches(target, length, curr, 9)
  }

  /** The solutions below curr + Operations[j], for j < k in turn. */
  ghost function OpBranches(target: int, length: nat, curr: string, k: nat): seq<string>
    requires length % 2 == 1 && |curr| < length && |curr| % 2 == 1 && Shaped(curr) && k <= 4
    decreases length - |curr|, k
  {
    if k == 0 then []
    else OpBranches(target, length, curr, k - 1) + Solutions(target, length, curr + [Operations[k - 1]])
  }

  /** The solutions below curr + digit i, for 1 <= i <= k in turn. */
  ghost function DigitBranches(target: int, length: nat, curr: string, k: nat): seq<string>
    requires length % 2 == 1 && |curr| < length && |curr| % 2 == 0 && Shaped(curr) && k <= 9
    decreases length - |curr|, k
  {
    if k == 0 then []
    else DigitBranches(target, length, curr, k - 1) + Solutions(target, length, curr + [DigitChar(k)])
  }

  lemma ShapedAppend(s: string, c: char)
    requires Shaped(s) && Fits(|s|, c)
    ensures Shaped(s + [c])
  {
    assert (s + [c])[..|s|] == s;
  }

  /** r after pushing the elements of xs one by one while it holds fewer
      than count. */
  function Fill<T>(r: seq<T>, xs: seq<T>, count: int): seq<T>
    decreases |xs|
  {
    if xs == [] || |r| >= count then r else Fill(r + [xs[0]], xs[1..], count)
  }

  lemma {:induction false} FillAppend<T>(r: seq<T>, a: seq<T>, b: seq<T>, count: int)
    ensures Fill(Fill(r, a, count), b, count) == Fill(r, a + b, count)
    decreases |a|
  {
    if a == [] {
      assert a + b == b;
    } else if |r| >= count {
      FillFull(r, b, count);
      FillFull(r, a + b, count);
    } else {
      assert (a + b)[0] == a[0] && (a + b)[1..] == a[1..] + b;
      FillAppend(r + [a[0]], a[1..], b, count);
    }
  }

  lemma FillFull<T>(r: seq<T>, xs: seq<T>, count: int)
    requires |r| >= count
    ensures Fill(r, xs, count) == r
  {
  }

  lemma TakeCons<T>(xs: seq<T>, n: int)
    requires xs != [] && n >= 1
    ensures Take(xs, n) == [xs[0]] + Take(xs[1..], n - 1)
  {
    if n < |xs| {
      assert xs[..n] == [xs[0]] + xs[1..][..n - 1];
    } else {
      assert xs == [xs[0]] + xs[1..];
    }
  }

  /** Filling keeps the first count - |r| elements. */
  lemma {:induction false} FillTake<T>(r: seq<T>, xs: seq<T>, count: int)
    ensures Fill(r, xs, count) == r + Take(xs, count - |r|)
    decreases |xs|
  {
    if xs != [] && |r| < count {
      FillTake(r + [xs[0]], xs[1..], count);
      TakeCons(xs, count - |r|);
    }
  }

  lemma FirstDigit(i: int)
    requires 1 <= i <= 9
    ensures Shaped([DigitChar(i)]) && Value([DigitChar(i)]) == i && Last(Terms([DigitChar(i)])) == i
  {
    assert Terms([DigitChar(i)]) == [i];
    assert Sum([i]) == Sum([]) + i;
  }

  /** After an operator, the tracked sum and term are those of curr. */
  lemma OperatorStep(curr: string, val: int, prev: int, c: char)
    requires Shaped(curr) && |curr| % 2 == 1 && IsOperator(c)
    requires val == Value(curr) && prev == Last(Terms(curr))
    ensures Shaped(curr + [c])
    ensures Tracked(curr + [c], val, prev, Some(c))
  {
    ShapedAppend(curr, c);
    TrackedAppend(curr, c, val, prev);
  }

  /** The state after an operator is pushed onto a complete string. */
  lemma TrackedAppend(curr: string, c: char, val: int, prev: int)
    requires Shaped(curr) && |curr| % 2 == 1 && Shaped(curr + [c])
    requires val == Value(curr) && prev == Last(Terms(curr))
    ensures Tracked(curr + [c], val, prev, Some(c))
  {
    var w := curr + [c];
    assert w[..|w| - 1] == curr && w[|w| - 1] == c;
  }

  lemma TermsSnoc(s: string, op: char, c: char)
    requires |s| % 2 == 1 && IsDigit(c) && Shaped(s + [op, c])
    ensures Shaped(s)
    ensures Terms(s + [op, c]) == Apply(Terms(s), op, DigitValue(c))
  {
    var w := s + [op, c];
    assert w[..|w| - 2] == s;
  }

  lemma TermsExtend(s: string, op: char, d: int)
    requires Shaped(s) && |s| % 2 == 1 && IsOperator(op) && 1 <= d <= 9
    ensures Shaped(s + [op, DigitChar(d)])
    ensures Terms(s + [op, DigitChar(d)]) == Apply(Terms(s), op, d)
  {
    var c := DigitChar(d);
    ShapedPair(s, op, c);
    TermsSnoc(s, op, c);
  }

  lemma ShapedPair(s: string, op: char, c: char)
    requires Shaped(s) && |s| % 2 == 1 && IsOperator(op) && IsDigit(c)
    ensures Shaped(s + [op, c])
  {
    var w := s + [op, c];
    forall i | 0 <= i < |w| ensures Fits(i, w[i]) {
      if i < |s| {
        assert w[i] == s[i];
      }
    }
  }

  lemma SumReplaceLast(t: seq<int>, x: int)
    requires t != []
    ensures Sum(t[..|t| - 1] + [x]) == Sum(t) - Last(t) + x
  {
    assert (t[..|t| - 1] + [x])[..|t| - 1] == t[..|t| - 1];
  }

  /** The sum and last term after Apply: the update the search makes to
      val and prev. */
  lemma SumApply(t: seq<int>, op: char, d: int)
    requires t != [] && 1 <= d <= 9
    ensures var u, val, prev := Apply(t, op, d), Sum(t), Last(t);
            if op == '+' then Sum(u) == val + d && Last(u) == d
            else if op == '-' then Sum(u) == val - d && Last(u) == -d
            else if op == '*' then Sum(u) == val - prev + prev * d && Last(u) == prev * d
            else Sum(u) == val - prev + prev / d && Last(u) == prev / d
  {
    if op == '+' {
      assert (t + [d])[..|t|] == t;
    } else if op == '-' {
      assert (t + [-d])[..|t|] == t;
    } else if op == '*' {
      SumReplaceLast(t, Last(t) * d);
    } else {
      SumReplaceLast(t, Last(t) / d);
    }
  }

  // ---------------------------------------------------------------------
  // The search itself

  /** A digit after an operator: the term sum and last term of the longer
      string follow from val and prev by the rule of last_op. */
  lemma DigitStep(curr: string, val: int, prev: int, lastOp: Option<char>, i: int)
    requires Shaped(curr) && |curr| % 2 == 0 && |curr| > 0 && 1 <= i <= 9
    requires Tracked(curr, val, prev, lastOp)
    ensures Shaped(curr + [DigitChar(i)]) && |curr + [DigitChar(i)]| % 2 == 1
    ensures var u := curr + [DigitChar(i)];
            if lastOp == Some('+') then Value(u) == val + i && Last(Terms(u)) == i
            else if lastOp == Some('-') then Value(u) == val - i && Last(Terms(u)) == -i
            else if lastOp == Some('*') then Value(u) == val - prev + prev * i && Last(Terms(u)) == prev * i
            else Value(u) == val - prev + prev / i && Last(Terms(u)) == prev / i
  {
    var updated := curr + [DigitChar(i)];
    var body := curr[..|curr| - 1];
    assert curr == body + [curr[|curr| - 1]];
    assert updated == body + [curr[|curr| - 1], DigitChar(i)];
    TermsExtend(body, curr[|curr| - 1], i);
    SumApply(Terms(body), curr[|curr| - 1], i);
  }

  /** At an even index: curr ends with the operator last_op, and val and
      prev are the term sum and last term of what precedes it. */
  ghost predicate Tracked(curr: string, val: int, prev: int, lastOp: Option<char>)
    requires Shaped(curr) && |curr| % 2 == 0 && |curr| > 0
  {
    var body := curr[..|curr| - 1];
    && lastOp == Some(curr[|curr| - 1])
    && val == Value(body) && prev == Last(Terms(body))
  }

  /** The state of one call of generateEquation: its arguments and the
      result array that the nested `backtrack` appends to. */
  class Search {
    const target: int
    const length: nat
    const count: int
    var res: seq<string>

    constructor (target: int, length: nat, count: int)
      requires length % 2 == 1
      ensures this.target == target && this.length == length && this.count == count
      ensures res == []
    {
      this.target := target;
      this.length := length;
      this.count := count;
      res := [];
    }

    /** `backtrack(curr, idx, val, prev, last_op)`: appends to res the
        solutions below curr, in search order, until res holds count
        strings. val and prev are the term sum and last term of the last
        complete prefix of curr; last_op is the operator that ends curr. */
    method Backtrack(curr: string, idx: nat, val: int, prev: int, lastOp: Option<char>)
      requires length % 2 == 1 && idx == |curr| <= length && Shaped(curr)
      requires idx % 2 == 1 ==> val == Value(curr) && prev == Last(Terms(curr))
      requires idx % 2 == 0 && idx > 0 ==> Tracked(curr, val, prev, lastOp)
      modifies this
      ensures res == Fill(old(res), Solutions(target, length, curr), count)
      decreases length - idx, 3
    {
      if |res| >= count {
        return;
      }
      if idx == length {
        if val == target {
          res := res + [curr];
        }
        return;
      }
      if idx % 2 == 1 {
        BranchOperators(curr, idx, val, prev);
      } else {
        BranchDigits(curr, idx, val, prev, lastOp);
      }
    }

    /** The odd-index case: try each operator in turn. */
    method BranchOperators(curr: string, idx: nat, val: int, prev: int)
      requires length % 2 == 1 && idx == |curr| < length && idx % 2 == 1 && Shaped(curr)
      requires val == Value(curr) && prev == Last(Terms(curr))
      modifies this
      ensures res == Fill(old(res), OpBranches(target, length, curr, 4), count)
      decreases length - idx, 2
    {
      for k := 0 to 4
        invariant res == Fill(old(res), OpBranches(target, length, curr, k), count)
      {
        Extend(curr, idx, val, prev, k);
        FillAppend(old(res), OpBranches(target, length, curr, k),
                 Solutions(target, length, curr + [Operations[k]]), count);
      }
    }

    /** One operator after a complete prefix: the sum and last term carry
        over unchanged, and the operator becomes last_op. */
    method Extend(curr: string, idx: nat, val: int, prev: int, k: nat)
      requires length % 2 == 1 && idx == |curr| < length && idx % 2 == 1 && Shaped(curr) && k < 4
      requires val == Value(curr) && prev == Last(Terms(curr))
      modifies this
      ensures Shaped(curr + [Operations[k]])
      ensures res == Fill(old(res), Solutions(target, length, curr + [Operations[k]]), count)
      decreases length - idx, 1
    {
      var op := Operations[k];
      assert IsOperator(op);
      OperatorStep(curr, val, prev, op);
      Backtrack(curr + [op], idx + 1, val, prev, Some(op));
    }

    /** The even-index case: try each digit 1..9 in turn. */
    method BranchDigits(curr: string, idx: nat, val: int, prev: int, lastOp: Option<char>)
      requires length % 2 == 1 && idx == |curr| < length && idx % 2 == 0 && Shaped(curr)
      requires idx > 0 ==> Tracked(curr, val, prev, lastOp)
      modifies this
      ensures res == Fill(old(res), DigitBranches(target, length, curr, 9), count)
      decreases length - idx, 2
    {
      for i := 1 to 10
        invariant res == Fill(old(res), DigitBranches(target, length, curr, i - 1), count)
      {
        var updated := curr + [DigitChar(i)];
        ShapedAppend(curr, DigitChar(i));
        Descend(curr, idx, val, prev, lastOp, i);
        FillAppend(old(res), DigitBranches(target, length, curr, i - 1),
                 Solutions(target, length, updated), count);
      }
    }

    /** One digit: it starts the sum at index 0; later, the running sum
        and last term are updated as last_op says. Then recurse. */
    method Descend(curr: string, idx: nat, val: int, prev: int, lastOp: Option<char>, i: int)
      requires length % 2 == 1 && idx == |curr| < length && idx % 2 == 0 && Shaped(curr)
      requires idx > 0 ==> Tracked(curr, val, prev, lastOp)
      requires 1 <= i <= 9
      modifies this
      ensures Shaped(curr + [DigitChar(i)])
      ensures res == Fill(old(res), Solutions(target, length, curr + [DigitChar(i)]), count)
      decreases length - idx, 1
    {
      var updated := curr + [DigitChar(i)];
      if idx == 0 {
        assert updated == [DigitChar(i)];
        FirstDigit(i);
        Backtrack(updated, idx + 1, i, i, None);
        return;
      }
      DigitStep(curr, val, prev, lastOp, i);
      if lastOp == Some('+') {
        Backtrack(updated, idx + 1, val + i, i, None);
      } else if lastOp == Some('-') {
        Backtrack(updated, idx + 1, val - i, -i, None);
      } else if lastOp == Some('*') {
        Backtrack(updated, idx + 1, val - prev + prev * i, prev * i, None);
      } else {
        Backtrack(updated, idx + 1, val - prev + prev / i, prev / i, None);
      }
    }
  }

  // ---------------------------------------------------------------------
  // What the search tree holds

  /** Search order: digits ascending, operators in the order + - * /. */
  function Rank(c: char): int {
    if IsDigit(c) then c as int - '1' as int
    else if c == '+' then 0 else if c == '-' then 1 else if c == '*' then 2 else 3
  }

  /** a comes before b in search order: lexicographic by Rank. */
  predicate Before(a: string, b: string) {
    && a != [] && b != []
    && (Rank(a[0]) < Rank(b[0]) || (a[0] == b[0] && Before(a[1..], b[1..])))
  }

  ghost predicate Increasing(xs: seq<string>) {
    forall i, j :: 0 <= i < j < |xs| ==> Before(xs[i], xs[j])
  }

  /** What the search keeps: shaped strings of the full length with the
      target value. */
  ghost predicate IsSolution(target: int, length: nat, r: string) {
    |r| == length && length % 2 == 1 && Shaped(r) && Value(r) == target
  }

  lemma {:induction false} BeforeIrreflexive(a: string)
    ensures !Before(a, a)
    decreases |a|
  {
    if a != [] {
      BeforeIrreflexive(a[1..]);
    }
  }

  lemma {:induction false} BeforeAtFork(a: string, b: string, p: nat)
    requires p < |a| && p < |b| && a[..p] == b[..p] && Rank(a[p]) < Rank(b[p])
    ensures Before(a, b)
    decreases p
  {
    if p > 0 {
      assert a[1..][..p - 1] == a[..p][1..] && b[1..][..p - 1] == b[..p][1..];
      BeforeAtFork(a[1..], b[1..], p - 1);
    }
  }

  /** Everything below curr + [c] starts with curr, then c. */
  lemma BelowChild(target: int, length: nat, curr: string, c: char)
    requires length % 2 == 1 && |curr| < length && Shaped(curr + [c])
    ensures forall r :: r in Solutions(target, length, curr + [c]) ==>
              |curr| < |r| && r[..|curr|] == curr && r[|curr|] == c
    decreases length - |curr|, 0
  {
    var next := curr + [c];
    SolutionsSound(target, length, next);
    forall r | r in Solutions(target, length, next)
      ensures |curr| < |r| && r[..|curr|] == curr && r[|curr|] == c
    {
      assert r[..|next|][..|curr|] == r[..|curr|];
    }
  }

  /** Strings that share the prefix pre and then differ in rank are in
      search order. */
  lemma OrderedAcross(a: seq<string>, b: seq<string>, pre: string, k: int)
    requires forall x :: x in a ==> |pre| < |x| && x[..|pre|] == pre && Rank(x[|pre|]) < k
    requires forall y :: y in b ==> |pre| < |y| && y[..|pre|] == pre && Rank(y[|pre|]) == k
    ensures forall x, y :: x in a && y in b ==> Before(x, y)
  {
    forall x, y | x in a && y in b ensures Before(x, y) {
      BeforeAtFork(x, y, |pre|);
    }
  }

  /** Everything in the tree below curr is a solution that extends curr. */
  lemma {:induction false} SolutionsSound(target: int, length: nat, curr: string)
    requires length % 2 == 1 && |curr| <= length && Shaped(curr)
    ensures forall r :: r in Solutions(target, length, curr) ==>
              IsSolution(target, length, r) && |curr| <= |r| && r[..|curr|] == curr
    decreases length - |curr|, 10
  {
    if |curr| < length {
      if |curr| % 2 == 1 {
        OpBranchesSound(target, length, curr, 4);
      } else {
        DigitBranchesSound(target, length, curr, 9);
      }
    }
  }

  lemma {:induction false} OpBranchesSound(target: int, length: nat, curr: string, k: nat)
    requires length % 2 == 1 && |curr| < length && |curr| % 2 == 1 && Shaped(curr) && k <= 4
    ensures forall r :: r in OpBranches(target, length, curr, k) ==>
              IsSolution(target, length, r) && |curr| < |r| && r[..|curr|] == curr
              && Rank(r[|curr|]) < k
    decreases length - |curr|, k
  {
    if k > 0 {
      OpBranchesSound(target, length, curr, k - 1);
      var next := curr + [Operations[k - 1]];
      SolutionsSound(target, length, next);
      RankOfOperation(k - 1);
      BelowChild(target, length, curr, Operations[k - 1]);
    }
  }

  lemma {:induction false} DigitBranchesSound(target: int, length: nat, curr: string, k: nat)
    requires length % 2 == 1 && |curr| < length && |curr| % 2 == 0 && Shaped(curr) && k <= 9
    ensures forall r :: r in DigitBranches(target, length, curr, k) ==>
              IsSolution(target, length, r) && |curr| < |r| && r[..|curr|] == curr
              && Rank(r[|curr|]) < k
    decreases length - |curr|, k
  {
    if k > 0 {
      DigitBranchesSound(target, length, curr, k - 1);
      var next := curr + [DigitChar(k)];
      SolutionsSound(target, length, next);
      BelowChild(target, length, curr, DigitChar(k));
    }
  }

  /** Search order is the position in Operations. */
  lemma RankOfOperation(j: nat)
    requires j < 4
    ensures Rank(Operations[j]) == j
  {
  }

  lemma IncreasingConcat(a: seq<string>, b: seq<string>)
    requires Increasing(a) && Increasing(b)
    requires forall x, y :: x in a && y in b ==> Before(x, y)
    ensures Increasing(a + b)
  {
    forall i, j | 0 <= i < j < |a + b| ensures Before((a + b)[i], (a + b)[j]) {
      if j < |a| {
        assert (a + b)[i] == a[i] && (a + b)[j] == a[j];
      } else if i >= |a| {
        assert (a + b)[i] == b[i - |a|] && (a + b)[j] == b[j - |a|];
      } else {
        assert (a + b)[i] in a && (a + b)[j] in b;
      }
    }
  }

  /** The tree below curr lists its strings in strictly increasing search
      order; in particular no string is listed twice. */
  lemma {:induction false} SolutionsIncreasing(target: int, length: nat, curr: string)
    requires length % 2 == 1 && |curr| <= length && Shaped(curr)
    ensures Increasing(Solutions(target, length, curr))
    decreases length - |curr|, 10
  {
    if |curr| < length {
      if |curr| % 2 == 1 {
        OpBranchesIncreasing(target, length, curr, 4);
      } else {
        DigitBranchesIncreasing(target, length, curr, 9);
      }
    }
  }

  lemma {:induction false} OpBranchesIncreasing(target: int, length: nat, curr: string, k: nat)
    requires length % 2 == 1 && |curr| < length && |curr| % 2 == 1 && Shaped(curr) && k <= 4
    ensures Increasing(OpBranches(target, length, curr, k))
    decreases length - |curr|, k
  {
    if k > 0 {
      var a := OpBranches(target, length, curr, k - 1);
      var next := curr + [Operations[k - 1]];
      var b := Solutions(target, length, next);
      OpBranchesIncreasing(target, length, curr, k - 1);
      SolutionsIncreasing(target, length, next);
      OpBranchesSound(target, length, curr, k - 1);
      SolutionsSound(target, length, next);
      RankOfOperation(k - 1);
      BelowChild(target, length, curr, Operations[k - 1]);
      OrderedAcross(a, b, curr, k - 1);
      IncreasingConcat(a, b);
    }
  }

  lemma {:induction false} DigitBranchesIncreasing(target: int, length: nat, curr: string, k: nat)
    requires length % 2 == 1 && |curr| < length && |curr| % 2 == 0 && Shaped(curr) && k <= 9
    ensures Increasing(DigitBranches(target, length, curr, k))
    decreases length - |curr|, k
  {
    if k > 0 {
      var a := DigitBranches(target, length, curr, k - 1);
      var next := curr + [DigitChar(k)];
      var b := Solutions(target, length, next);
      DigitBranchesIncreasing(target, length, curr, k - 1);
      SolutionsIncreasing(target, length, next);
      DigitBranchesSound(target, length, curr, k - 1);
      SolutionsSound(target, length, next);
      BelowChild(target, length, curr, DigitChar(k));
      OrderedAcross(a, b, curr, k - 1);
      IncreasingConcat(a, b);
    }
  }

  /** Every solution that extends curr is in the tree below curr. */
  lemma {:induction false} SolutionsComplete(target: int, length: nat, curr: string, r: string)
    requires length % 2 == 1 && |curr| <= length && Shaped(curr)
    requires IsSolution(target, length, r) && r[..|curr|] == curr
    ensures r in Solutions(target, length, curr)
    decreases length - |curr|
  {
    if |curr| == length {
      assert r == r[..|curr|];
    } else {
      var c := r[|curr|];
      assert Fits(|curr|, c);
      ShapedAppend(curr, c);
      var next := curr + [c];
      assert r[..|next|] == next;
      SolutionsComplete(target, length, next, r);
      if |curr| % 2 == 1 {
        var j := if c == '+' then 0 else if c == '-' then 1 else if c == '*' then 2 else 3;
        assert Operations[j] == c;
        OpBranchesInclude(target, length, curr, 4, j, r);
      } else {
        DigitRoundTrip(c);
        DigitBranchesInclude(target, length, curr, 9, DigitValue(c), r);
      }
    }
  }

  lemma {:induction false} OpBranchesInclude(target: int, length: nat, curr: string, k: nat, j: nat, r: string)
    requires length % 2 == 1 && |curr| < length && |curr| % 2 == 1 && Shaped(curr) && j < k <= 4
    requires r in Solutions(target, length, curr + [Operations[j]])
    ensures r in OpBranches(target, length, curr, k)
    decreases k
  {
    var rest := OpBranches(target, length, curr, k - 1);
    if j < k - 1 {
      OpBranchesInclude(target, length, curr, k - 1, j, r);
      assert r in rest;
    } else {
      assert r in Solutions(target, length, curr + [Operations[k - 1]]);
    }
  }

  lemma {:induction false} DigitBranchesInclude(target: int, length: nat, curr: string, k: nat, d: int, r: string)
    requires length % 2 == 1 && |curr| < length && |curr| % 2 == 0 && Shaped(curr) && 1 <= d <= k <= 9
    requires r in Solutions(target, length, curr + [DigitChar(d)])
    ensures r in DigitBranches(target, length, curr, k)
    decreases k
  {
    var rest := DigitBranches(target, length, curr, k - 1);
    if d < k {
      DigitBranchesInclude(target, length, curr, k - 1, d, r);
      assert r in rest;
    } else {
      assert r in Solutions(target, length, curr + [DigitChar(k)]);
    }
  }

  /** The whole tree holds exactly the solutions, in increasing order. */
  lemma AllSolutions(target: int, length: nat)
    requires length % 2 == 1
    ensures Increasing(Solutions(target, length, []))
    ensures forall r :: r in Solutions(target, length, []) <==> IsSolution(target, length, r)
  {
    SolutionsSound(target, length, []);
    SolutionsIncreasing(target, length, []);
    forall r | IsSolution(target, length, r) ensures r in Solutions(target, length, []) {
      SolutionsComplete(target, length, [], r);
    }
  }

  lemma TakeFacts(xs: seq<string>, n: int)
    requires Increasing(xs)
    ensures Increasing(Take(xs, n)) && multiset(Take(xs, n)) <= multiset(xs)
    ensures forall r :: r in Take(xs, n) ==> r in xs
    ensures n > 0 && |Take(xs, n)| < n ==> Take(xs, n) == xs
    ensures |Take(xs, n)| <= if n < 0 then 0 else n
  {
    if 0 < n < |xs| {
      assert xs == xs[..n] + xs[n..];
      assert forall r :: r in xs[..n] ==> r in xs;
    }
  }

  /** The first count solutions, in search order: solutions, increasing,
      no repeats, and all of them when fewer than count exist. */
  lemma FirstSolutions(target: int, length: nat, count: int)
    requires length % 2 == 1
    ensures var res := Take(Solutions(target, length, []), count);
            && |res| <= (if count < 0 then 0 else count)
            && (forall r :: r in res ==> IsSolution(target, length, r))
            && (forall i, j :: 0 <= i < j < |res| ==> Before(res[i], res[j]))
            && (forall i, j :: 0 <= i < j < |res| ==> res[i] != res[j])
            && (|res| < count ==> forall r :: IsSolution(target, length, r) ==> r in res)
  {
    var all := Solutions(target, length, []);
    var res := Take(all, count);
    AllSolutions(target, length);
    TakeFacts(all, count);
    forall i, j | 0 <= i < j < |res| ensures res[i] != res[j] {
      BeforeIrreflexive(res[i]);
    }
  }

  /** `generateEquation(target, length, count)`: the first count strings of
      the given length, in search order, whose value is target; no string
      at all when length is at most 2 or even. */
  method GenerateEquation(target: int, length: int, count: int) returns (res: seq<string>)
    ensures length <= 2 || length % 2 == 0 ==> res == []
    ensures length > 2 && length % 2 == 1 ==> res == Take(Solutions(target, length, []), count)
    ensures |res| <= if count < 0 then 0 else count
    ensures forall r :: r in res ==> IsSolution(target, length, r)
    ensures forall i, j :: 0 <= i < j < |res| ==> Before(res[i], res[j])
    ensures forall i, j :: 0 <= i < j < |res| ==> res[i] != res[j]
    ensures length > 2 && |res| < count ==> forall r :: IsSolution(target, length, r) ==> r in res
  {
    if length <= 2 {
      return [];
    }
    if length % 2 == 0 {
      return [];
    }
    var search := new Search(target, length, count);
    search.Backtrack([], 0, 0, 0, None);
    res := search.res;
    FillTake([], Solutions(target, length, []), count);
    FirstSolutions(target, length, count);
  }
}

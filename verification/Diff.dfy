/**
 The line diff of the test runner: an aligner that decides each mismatch by a budgeted
 look-ahead, and the merge that prints removals and additions.
 */
module Diff {

  type Match<!T> = (T, T) -> bool

  function Max(x: nat, y: nat): nat {
    if x < y then y else x
  }

  /******* Common subsequences *******/

  /** Matching line pairs from `a[i..]` and `b[j..]`, increasing on both sides. */
  ghost predicate IsCommon<T>(eq: Match<T>, a: seq<T>, b: seq<T>, i: nat, j: nat, ps: seq<(nat, nat)>) {
    && (forall k | 0 <= k < |ps| ::
          i <= ps[k].0 < |a| && j <= ps[k].1 < |b| && eq(a[ps[k].0], b[ps[k].1]))
    && (forall k, l | 0 <= k < l < |ps| :: ps[k].0 < ps[l].0 && ps[k].1 < ps[l].1)
  }

  /** The length of a longest common subsequence of `a[i..]` and `b[j..]`. */
  ghost function Lcs<T>(eq: Match<T>, a: seq<T>, b: seq<T>, i: nat, j: nat): nat
    requires i <= |a| && j <= |b|
    decreases |a| - i + |b| - j
  {
    if i == |a| || j == |b| then 0
    else
      Max(if eq(a[i], b[j]) then 1 + Lcs(eq, a, b, i + 1, j + 1) else 0,
          Max(Lcs(eq, a, b, i + 1, j), Lcs(eq, a, b, i, j + 1)))
  }

  lemma {:induction false} LcsIsBound<T>(eq: Match<T>, a: seq<T>, b: seq<T>, i: nat, j: nat, ps: seq<(nat, nat)>)
    requires i <= |a| && j <= |b| && IsCommon(eq, a, b, i, j, ps)
    ensures |ps| <= Lcs(eq, a, b, i, j)
    decreases |a| - i + |b| - j
  {
    if ps != [] {
      if ps[0] == (i, j) {
        LcsIsBound(eq, a, b, i + 1, j + 1, ps[1..]);
      } else if ps[0].0 > i {
        LcsIsBound(eq, a, b, i + 1, j, ps);
      } else {
        LcsIsBound(eq, a, b, i, j + 1, ps);
      }
    }
  }

  lemma {:induction false} LcsIsAttained<T>(eq: Match<T>, a: seq<T>, b: seq<T>, i: nat, j: nat)
    returns (ps: seq<(nat, nat)>)
    requires i <= |a| && j <= |b|
    ensures IsCommon(eq, a, b, i, j, ps) && |ps| == Lcs(eq, a, b, i, j)
    decreases |a| - i + |b| - j
  {
    if i == |a| || j == |b| {
      ps := [];
    } else {
      LcsCases(eq, a, b, i, j);
      hide Lcs, IsCommon;
      var skip1 := LcsIsAttained(eq, a, b, i + 1, j);
      var skip2 := LcsIsAttained(eq, a, b, i, j + 1);
      CommonFromEarlier(eq, a, b, i, j, skip1, skip2);
      ps := if |skip1| >= |skip2| then skip1 else skip2;
      if eq(a[i], b[j]) {
        var rest := LcsIsAttained(eq, a, b, i + 1, j + 1);
        CommonWithMatch(eq, a, b, i, j, rest);
        if 1 + |rest| > |ps| {
          ps := [(i, j)] + rest;
        }
      }
    }
  }

  lemma LcsCases<T>(eq: Match<T>, a: seq<T>, b: seq<T>, i: nat, j: nat)
    requires i < |a| && j < |b|
    ensures Lcs(eq, a, b, i, j) ==
            Max(if eq(a[i], b[j]) then 1 + Lcs(eq, a, b, i + 1, j + 1) else 0,
                Max(Lcs(eq, a, b, i + 1, j), Lcs(eq, a, b, i, j + 1)))
  {
  }

  lemma CommonFromEarlier<T>(eq: Match<T>, a: seq<T>, b: seq<T>, i: nat, j: nat,
                             ps: seq<(nat, nat)>, qs: seq<(nat, nat)>)
    requires IsCommon(eq, a, b, i + 1, j, ps) && IsCommon(eq, a, b, i, j + 1, qs)
    ensures IsCommon(eq, a, b, i, j, ps) && IsCommon(eq, a, b, i, j, qs)
  {
  }

  lemma CommonWithMatch<T>(eq: Match<T>, a: seq<T>, b: seq<T>, i: nat, j: nat, ps: seq<(nat, nat)>)
    requires i < |a| && j < |b| && eq(a[i], b[j]) && IsCommon(eq, a, b, i + 1, j + 1, ps)
    ensures IsCommon(eq, a, b, i, j, [(i, j)] + ps)
  {
  }

  /** Skipping one line costs at most one match. */
  lemma {:induction false} SkipCostsOne<T>(eq: Match<T>, a: seq<T>, b: seq<T>, i: nat, j: nat)
    requires i <= |a| && j <= |b|
    ensures i < |a| ==> Lcs(eq, a, b, i, j) <= 1 + Lcs(eq, a, b, i + 1, j)
    ensures j < |b| ==> Lcs(eq, a, b, i, j) <= 1 + Lcs(eq, a, b, i, j + 1)
    decreases |a| - i + |b| - j
  {
    if i < |a| && j < |b| {
      SkipCostsOne(eq, a, b, i + 1, j);
      SkipCostsOne(eq, a, b, i, j + 1);
    }
  }

  /** Under any match relation it is optimal to match two lines that match. */
  lemma MatchIsOptimal<T>(eq: Match<T>, a: seq<T>, b: seq<T>, i: nat, j: nat)
    requires i < |a| && j < |b| && eq(a[i], b[j])
    ensures Lcs(eq, a, b, i, j) == 1 + Lcs(eq, a, b, i + 1, j + 1)
  {
    SkipCostsOne(eq, a, b, i + 1, j);
    SkipCostsOne(eq, a, b, i, j + 1);
  }

  /******* The look-ahead score *******/

  /** How many lines match in a row. */
  function Run<T>(eq: Match<T>, a: seq<T>, b: seq<T>, i: nat, j: nat): (n: nat)
    requires i <= |a| && j <= |b|
    ensures i + n <= |a| && j + n <= |b|
    decreases |a| - i
  {
    if i < |a| && j < |b| && eq(a[i], b[j]) then 1 + Run(eq, a, b, i + 1, j + 1) else 0
  }

  function Score<T>(eq: Match<T>, a: seq<T>, b: seq<T>, i: nat, j: nat, steps: real): nat
    requires i <= |a| && j <= |b|
    decreases |a| - i + |b| - j, 0
  {
    var n := Run(eq, a, b, i, j);
    var left := steps - n as real - 1.0;
    if left > 0.0 then
      n + Max(SkipFirst(eq, a, b, i + n + 1, j + n, left / 2.0), SkipSecond(eq, a, b, i + n, j + n + 1, left))
    else n
  }

  /** The best score after skipping lines of `a`, one budget step per line skipped. */
  function SkipFirst<T>(eq: Match<T>, a: seq<T>, b: seq<T>, i: nat, j: nat, st: real): nat
    requires j <= |b|
    decreases |a| - i + |b| - j, 1
  {
    if i < |a| && st > 0.0 then
      Max(Score(eq, a, b, i, j, st - 1.0), SkipFirst(eq, a, b, i + 1, j, st - 1.0))
    else 0
  }

  function SkipSecond<T>(eq: Match<T>, a: seq<T>, b: seq<T>, i: nat, j: nat, st: real): nat
    requires i <= |a|
    decreases |a| - i + |b| - j, 1
  {
    if j < |b| && st > 0.0 then
      Max(Score(eq, a, b, i, j, st - 1.0), SkipSecond(eq, a, b, i, j + 1, st - 1.0))
    else 0
  }

  lemma {:induction false} RunIsLcs<T>(eq: Match<T>, a: seq<T>, b: seq<T>, i: nat, j: nat)
    requires i <= |a| && j <= |b|
    ensures var n := Run(eq, a, b, i, j);
            && Lcs(eq, a, b, i, j) == n + Lcs(eq, a, b, i + n, j + n)
            && (i + n < |a| && j + n < |b| ==> !eq(a[i + n], b[j + n]))
    decreases |a| - i
  {
    if i < |a| && j < |b| && eq(a[i], b[j]) {
      MatchIsOptimal(eq, a, b, i, j);
      RunIsLcs(eq, a, b, i + 1, j + 1);
    }
  }

  /** For every start and every budget the score is at most the longest common subsequence. */
  lemma {:induction false} ScoreIsSound<T>(eq: Match<T>, a: seq<T>, b: seq<T>, i: nat, j: nat, steps: real)
    requires i <= |a| && j <= |b|
    ensures Score(eq, a, b, i, j, steps) <= Lcs(eq, a, b, i, j)
    decreases |a| - i + |b| - j, 0
  {
    hide Run, Score, SkipFirst, SkipSecond, Lcs;
    var n := Run(eq, a, b, i, j);
    var left := steps - n as real - 1.0;
    if i + n < |a| {
      SkipFirstIsSound(eq, a, b, i + n + 1, j + n, left / 2.0);
    }
    if j + n < |b| {
      SkipSecondIsSound(eq, a, b, i + n, j + n + 1, left);
    }
    SoundStep(eq, a, b, i, j, steps);
  }

  lemma SoundStep<T>(eq: Match<T>, a: seq<T>, b: seq<T>, i: nat, j: nat, steps: real)
    requires i <= |a| && j <= |b|
    requires var n := Run(eq, a, b, i, j);
             var left := steps - n as real - 1.0;
             && (i + n < |a| ==> SkipFirst(eq, a, b, i + n + 1, j + n, left / 2.0) <= Lcs(eq, a, b, i + n + 1, j + n))
             && (j + n < |b| ==> SkipSecond(eq, a, b, i + n, j + n + 1, left) <= Lcs(eq, a, b, i + n, j + n + 1))
    ensures Score(eq, a, b, i, j, steps) <= Lcs(eq, a, b, i, j)
  {
    hide Run, Score, Lcs;
    var n := Run(eq, a, b, i, j);
    RunIsLcs(eq, a, b, i, j);
    LcsShrinks(eq, a, b, i + n, j + n);
    ScoreTakesBest(eq, a, b, i, j, steps);
  }

  /** The score is the length of a common subsequence. */
  lemma ScoreIsRealised<T>(eq: Match<T>, a: seq<T>, b: seq<T>, i: nat, j: nat, steps: real)
    returns (ps: seq<(nat, nat)>)
    requires i <= |a| && j <= |b|
    ensures IsCommon(eq, a, b, i, j, ps) && |ps| == Score(eq, a, b, i, j, steps)
  {
    hide Score, Lcs;
    ScoreIsSound(eq, a, b, i, j, steps);
    var longest := LcsIsAttained(eq, a, b, i, j);
    ps := longest[..Score(eq, a, b, i, j, steps)];
  }

  lemma LcsShrinks<T>(eq: Match<T>, a: seq<T>, b: seq<T>, i: nat, j: nat)
    requires i <= |a| && j <= |b|
    ensures i < |a| ==> Lcs(eq, a, b, i + 1, j) <= Lcs(eq, a, b, i, j)
    ensures j < |b| ==> Lcs(eq, a, b, i, j + 1) <= Lcs(eq, a, b, i, j)
  {
  }

  lemma {:induction false} SkipFirstIsSound<T>(eq: Match<T>, a: seq<T>, b: seq<T>, i: nat, j: nat, st: real)
    requires i <= |a| && j <= |b|
    ensures SkipFirst(eq, a, b, i, j, st) <= Lcs(eq, a, b, i, j)
    decreases |a| - i + |b| - j, 1
  {
    if i < |a| && st > 0.0 {
      ScoreIsSound(eq, a, b, i, j, st - 1.0);
      SkipFirstIsSound(eq, a, b, i + 1, j, st - 1.0);
      LcsShrinks(eq, a, b, i, j);
    }
  }

  lemma {:induction false} SkipSecondIsSound<T>(eq: Match<T>, a: seq<T>, b: seq<T>, i: nat, j: nat, st: real)
    requires i <= |a| && j <= |b|
    ensures SkipSecond(eq, a, b, i, j, st) <= Lcs(eq, a, b, i, j)
    decreases |a| - i + |b| - j, 1
  {
    if j < |b| && st > 0.0 {
      ScoreIsSound(eq, a, b, i, j, st - 1.0);
      SkipSecondIsSound(eq, a, b, i, j + 1, st - 1.0);
      LcsShrinks(eq, a, b, i, j);
    }
  }

  /** A budget that lets the look-ahead explore `n` remaining lines to the end. */
  function Budget(n: nat): (r: real)
    ensures r >= n as real + 4.0
  {
    if n == 0 then 4.0 else 4.0 * Budget(n - 1)
  }

  lemma {:induction false} BudgetGrows(m: nat, n: nat)
    requires m <= n
    ensures Budget(m) <= Budget(n)
  {
    if m < n {
      BudgetGrows(m, n - 1);
    }
  }

  lemma BudgetSuffices(lines: nat, run: nat, steps: real)
    requires lines >= 2 * run + 2 && steps >= Budget(lines)
    ensures var left := steps - run as real - 1.0;
            left > 0.0 && left / 2.0 - 1.0 >= Budget(lines - 2 * run - 1) && left - 1.0 >= Budget(lines - 2 * run - 1)
  {
    BudgetGrows(lines - 2 * run - 1, lines - 1);
    var less := Budget(lines - 1);
    assert Budget(lines) == 4.0 * less;
    assert less >= lines as real + 3.0;
  }

  /** With enough budget the look-ahead score is the longest common subsequence. */
  lemma {:induction false} ScoreIsExact<T>(eq: Match<T>, a: seq<T>, b: seq<T>, i: nat, j: nat, steps: real)
    requires i <= |a| && j <= |b| && steps >= Budget(|a| - i + |b| - j)
    ensures Score(eq, a, b, i, j, steps) == Lcs(eq, a, b, i, j)
    decreases |a| - i + |b| - j
  {
    hide Run, Score, SkipFirst, SkipSecond, Lcs;
    var n := Run(eq, a, b, i, j);
    var left := steps - n as real - 1.0;
    if i + n < |a| && j + n < |b| {
      var lines := |a| - i + |b| - j;
      assert |a| - (i + n + 1) + |b| - (j + n) == lines - 2 * n - 1;
      assert |a| - (i + n) + |b| - (j + n + 1) == lines - 2 * n - 1;
      BudgetSuffices(lines, n, steps);
      ScoreIsExact(eq, a, b, i + n + 1, j + n, left / 2.0 - 1.0);
      ScoreIsExact(eq, a, b, i + n, j + n + 1, left - 1.0);
    }
    ExactStep(eq, a, b, i, j, steps);
  }

  lemma ExactStep<T>(eq: Match<T>, a: seq<T>, b: seq<T>, i: nat, j: nat, steps: real)
    requires i <= |a| && j <= |b|
    requires var n := Run(eq, a, b, i, j);
             var left := steps - n as real - 1.0;
             i + n < |a| && j + n < |b| ==>
               && left > 0.0
               && Score(eq, a, b, i + n + 1, j + n, left / 2.0 - 1.0) == Lcs(eq, a, b, i + n + 1, j + n)
               && Score(eq, a, b, i + n, j + n + 1, left - 1.0) == Lcs(eq, a, b, i + n, j + n + 1)
    ensures Score(eq, a, b, i, j, steps) == Lcs(eq, a, b, i, j)
  {
    hide Run, Score;
    var n := Run(eq, a, b, i, j);
    RunIsLcs(eq, a, b, i, j);
    ScoreIsSound(eq, a, b, i, j, steps);
    ScoreTakesBest(eq, a, b, i, j, steps);
    if i + n < |a| && j + n < |b| {
      SkipOneIsTried(eq, a, b, i + n, j + n, steps - n as real - 1.0);
    } else {
      ScoreAtLeastRun(eq, a, b, i, j, steps);
    }
  }

  lemma ScoreAtLeastRun<T>(eq: Match<T>, a: seq<T>, b: seq<T>, i: nat, j: nat, steps: real)
    requires i <= |a| && j <= |b|
    ensures Score(eq, a, b, i, j, steps) >= Run(eq, a, b, i, j)
  {
  }

  /** The look-ahead tries skipping one line on either side first. */
  lemma SkipOneIsTried<T>(eq: Match<T>, a: seq<T>, b: seq<T>, i: nat, j: nat, left: real)
    requires i < |a| && j < |b| && !eq(a[i], b[j]) && left > 0.0
    requires Score(eq, a, b, i + 1, j, left / 2.0 - 1.0) == Lcs(eq, a, b, i + 1, j)
    requires Score(eq, a, b, i, j + 1, left - 1.0) == Lcs(eq, a, b, i, j + 1)
    ensures Max(SkipFirst(eq, a, b, i + 1, j, left / 2.0), SkipSecond(eq, a, b, i, j + 1, left)) >= Lcs(eq, a, b, i, j)
  {
    assert i + 1 == |a| ==> Lcs(eq, a, b, i + 1, j) == 0;
    assert j + 1 == |b| ==> Lcs(eq, a, b, i, j + 1) == 0;
  }

  lemma ScoreTakesBest<T>(eq: Match<T>, a: seq<T>, b: seq<T>, i: nat, j: nat, steps: real)
    requires i <= |a| && j <= |b|
    ensures var n := Run(eq, a, b, i, j);
            var left := steps - n as real - 1.0;
            Score(eq, a, b, i, j, steps) ==
            if left > 0.0 then n + Max(SkipFirst(eq, a, b, i + n + 1, j + n, left / 2.0),
                                       SkipSecond(eq, a, b, i + n, j + n + 1, left))
            else n
  {
  }

  /******* What the budget buys *******/

  lemma {:induction false} SkipFirstTries<T>(eq: Match<T>, a: seq<T>, b: seq<T>, i: nat, j: nat, st: real, d: nat)
    requires j <= |b| && i + d < |a| && st > d as real
    ensures SkipFirst(eq, a, b, i, j, st) >= Score(eq, a, b, i + d, j, st - d as real - 1.0)
    decreases d
  {
    hide Score;
    if d > 0 {
      SkipFirstTries(eq, a, b, i + 1, j, st - 1.0, d - 1);
      assert st - 1.0 - (d - 1) as real - 1.0 == st - d as real - 1.0;
    }
  }

  lemma {:induction false} SkipSecondTries<T>(eq: Match<T>, a: seq<T>, b: seq<T>, i: nat, j: nat, st: real, d: nat)
    requires i <= |a| && j + d < |b| && st > d as real
    ensures SkipSecond(eq, a, b, i, j, st) >= Score(eq, a, b, i, j + d, st - d as real - 1.0)
    decreases d
  {
    hide Score;
    if d > 0 {
      SkipSecondTries(eq, a, b, i, j + 1, st - 1.0, d - 1);
      assert st - 1.0 - (d - 1) as real - 1.0 == st - d as real - 1.0;
    }
  }

  lemma {:induction false} SkipFirstIsTried<T>(eq: Match<T>, a: seq<T>, b: seq<T>, i: nat, j: nat, st: real)
    returns (d: nat)
    requires j <= |b| && SkipFirst(eq, a, b, i, j, st) > 0
    ensures i + d < |a| && st > d as real
    ensures SkipFirst(eq, a, b, i, j, st) == Score(eq, a, b, i + d, j, st - d as real - 1.0)
    decreases |a| - i
  {
    hide Score;
    d := 0;
    if SkipFirst(eq, a, b, i, j, st) != Score(eq, a, b, i, j, st - 1.0) {
      var e := SkipFirstIsTried(eq, a, b, i + 1, j, st - 1.0);
      d := e + 1;
      assert st - 1.0 - e as real - 1.0 == st - d as real - 1.0;
    }
  }

  lemma {:induction false} SkipSecondIsTried<T>(eq: Match<T>, a: seq<T>, b: seq<T>, i: nat, j: nat, st: real)
    returns (d: nat)
    requires i <= |a| && SkipSecond(eq, a, b, i, j, st) > 0
    ensures j + d < |b| && st > d as real
    ensures SkipSecond(eq, a, b, i, j, st) == Score(eq, a, b, i, j + d, st - d as real - 1.0)
    decreases |b| - j
  {
    hide Score;
    d := 0;
    if SkipSecond(eq, a, b, i, j, st) != Score(eq, a, b, i, j, st - 1.0) {
      var e := SkipSecondIsTried(eq, a, b, i, j + 1, st - 1.0);
      d := e + 1;
      assert st - 1.0 - e as real - 1.0 == st - d as real - 1.0;
    }
  }

  /** Skipping `d` lines of `a` after `n` matching ones is within a budget of `left`. */
  predicate FirstAffords<T>(a: seq<T>, i: nat, n: nat, left: real, d: nat) {
    d >= 1 && i + n + d < |a| && left > 0.0 && left / 2.0 > d as real - 1.0
  }

  predicate SecondAffords<T>(b: seq<T>, j: nat, n: nat, left: real, d: nat) {
    d >= 1 && j + n + d < |b| && left > 0.0 && left > d as real - 1.0
  }

  /** The score is at least what any skip of wanted lines within half the budget leads to. */
  lemma ScoreTriesFirst<T>(eq: Match<T>, a: seq<T>, b: seq<T>, i: nat, j: nat, steps: real, d: nat)
    requires i <= |a| && j <= |b|
    requires var n := Run(eq, a, b, i, j); FirstAffords(a, i, n, steps - n as real - 1.0, d)
    ensures var n := Run(eq, a, b, i, j);
            var left := steps - n as real - 1.0;
            Score(eq, a, b, i, j, steps) >= n + Score(eq, a, b, i + n + d, j + n, left / 2.0 - d as real)
  {
    ScoreTakesBest(eq, a, b, i, j, steps);
    hide Run, Score, SkipFirst, SkipSecond;
    var n := Run(eq, a, b, i, j);
    var half := (steps - n as real - 1.0) / 2.0;
    assert half - (d - 1) as real - 1.0 == half - d as real;
    SkipFirstTries(eq, a, b, i + n + 1, j + n, half, d - 1);
  }

  /** The score is at least what any skip of output lines within the budget leads to. */
  lemma ScoreTriesSecond<T>(eq: Match<T>, a: seq<T>, b: seq<T>, i: nat, j: nat, steps: real, d: nat)
    requires i <= |a| && j <= |b|
    requires var n := Run(eq, a, b, i, j); SecondAffords(b, j, n, steps - n as real - 1.0, d)
    ensures var n := Run(eq, a, b, i, j);
            var left := steps - n as real - 1.0;
            Score(eq, a, b, i, j, steps) >= n + Score(eq, a, b, i + n, j + n + d, left - d as real)
  {
    ScoreTakesBest(eq, a, b, i, j, steps);
    hide Run, Score, SkipFirst, SkipSecond;
    var n := Run(eq, a, b, i, j);
    var left := steps - n as real - 1.0;
    assert left - (d - 1) as real - 1.0 == left - d as real;
    SkipSecondTries(eq, a, b, i + n, j + n + 1, left, d - 1);
  }

  /** `score` is what a skip of `d` lines of one side within the budget leads to, after `n` matching lines. */
  predicate IsSkip<T>(eq: Match<T>, a: seq<T>, b: seq<T>, i: nat, j: nat, n: nat, left: real, d: nat, score: nat)
    requires i + n <= |a| && j + n <= |b|
  {
    || (FirstAffords(a, i, n, left, d) && score == n + Score(eq, a, b, i + n + d, j + n, left / 2.0 - d as real))
    || (SecondAffords(b, j, n, left, d) && score == n + Score(eq, a, b, i + n, j + n + d, left - d as real))
  }

  lemma BestIsSkip<T>(eq: Match<T>, a: seq<T>, b: seq<T>, i: nat, j: nat, n: nat, left: real) returns (d: nat)
    requires i + n <= |a| && j + n <= |b| && left > 0.0
    requires Max(SkipFirst(eq, a, b, i + n + 1, j + n, left / 2.0), SkipSecond(eq, a, b, i + n, j + n + 1, left)) > 0
    ensures IsSkip(eq, a, b, i, j, n, left, d,
                   n + Max(SkipFirst(eq, a, b, i + n + 1, j + n, left / 2.0),
                           SkipSecond(eq, a, b, i + n, j + n + 1, left)))
  {
    hide Score, SkipFirst, SkipSecond;
    if SkipFirst(eq, a, b, i + n + 1, j + n, left / 2.0) > SkipSecond(eq, a, b, i + n, j + n + 1, left) {
      var half := left / 2.0;
      var e := SkipFirstIsTried(eq, a, b, i + n + 1, j + n, half);
      d := e + 1;
      assert half - e as real - 1.0 == half - d as real && i + n + 1 + e == i + n + d;
    } else {
      var e := SkipSecondIsTried(eq, a, b, i + n, j + n + 1, left);
      d := e + 1;
      assert left - e as real - 1.0 == left - d as real && j + n + 1 + e == j + n + d;
    }
  }

  /** The score is the run of matching lines alone, or what one skip within the budget leads to. */
  lemma ScoreIsSomeSkip<T>(eq: Match<T>, a: seq<T>, b: seq<T>, i: nat, j: nat, steps: real) returns (d: nat)
    requires i <= |a| && j <= |b|
    ensures var n := Run(eq, a, b, i, j);
            var left := steps - n as real - 1.0;
            Score(eq, a, b, i, j, steps) == n || IsSkip(eq, a, b, i, j, n, left, d, Score(eq, a, b, i, j, steps))
  {
    ScoreTakesBest(eq, a, b, i, j, steps);
    hide Run, Score, SkipFirst, SkipSecond, IsSkip;
    var n := Run(eq, a, b, i, j);
    d := 0;
    if Score(eq, a, b, i, j, steps) != n {
      d := BestIsSkip(eq, a, b, i, j, n, steps - n as real - 1.0);
    }
  }

  /** The lines of a run match, and the next ones do not. */
  lemma {:induction false} RunIsMaximal<T>(eq: Match<T>, a: seq<T>, b: seq<T>, i: nat, j: nat)
    requires i <= |a| && j <= |b|
    ensures var n := Run(eq, a, b, i, j);
            && (forall k | i <= k < i + n :: eq(a[k], b[j + (k - i)]))
            && (i + n < |a| && j + n < |b| ==> !eq(a[i + n], b[j + n]))
    decreases |a| - i
  {
    if i < |a| && j < |b| && eq(a[i], b[j]) {
      RunIsMaximal(eq, a, b, i + 1, j + 1);
      var n := Run(eq, a, b, i, j);
      forall k | i <= k < i + n ensures eq(a[k], b[j + (k - i)]) {
        assert k > i ==> j + 1 + (k - (i + 1)) == j + (k - i);
      }
    }
  }

  /** Tries every number of lines of `a` to skip that the budget allows. */
  method BestSkipFirst<T>(eq: Match<T>, a: seq<T>, b: seq<T>, i: nat, j: nat, budget: real) returns (best: nat)
    requires j <= |b|
    ensures best == SkipFirst(eq, a, b, i, j, budget)
    decreases |a| - i + |b| - j, 1
  {
    best := 0;
    var ofs, st := i, budget;
    while ofs < |a| && st > 0.0
      invariant i <= ofs
      invariant Max(best, SkipFirst(eq, a, b, ofs, j, st)) == SkipFirst(eq, a, b, i, j, budget)
      decreases |a| - ofs
    {
      st := st - 1.0;
      var score := CountArrayDiff(eq, a, b, ofs, j, st);
      if score > best {
        best := score;
      }
      ofs := ofs + 1;
    }
  }

  method BestSkipSecond<T>(eq: Match<T>, a: seq<T>, b: seq<T>, i: nat, j: nat, budget: real) returns (best: nat)
    requires i <= |a|
    ensures best == SkipSecond(eq, a, b, i, j, budget)
    decreases |a| - i + |b| - j, 1
  {
    best := 0;
    var ofs, st := j, budget;
    while ofs < |b| && st > 0.0
      invariant j <= ofs
      invariant Max(best, SkipSecond(eq, a, b, i, ofs, st)) == SkipSecond(eq, a, b, i, j, budget)
      decreases |b| - ofs
    {
      st := st - 1.0;
      var score := CountArrayDiff(eq, a, b, i, ofs, st);
      if score > best {
        best := score;
      }
      ofs := ofs + 1;
    }
  }

  method CountRun<T>(eq: Match<T>, a: seq<T>, b: seq<T>, i: nat, j: nat) returns (equal: nat)
    requires i <= |a| && j <= |b|
    ensures equal == Run(eq, a, b, i, j)
  {
    equal := 0;
    while i + equal < |a| && j + equal < |b| && eq(a[i + equal], b[j + equal])
      invariant i + equal <= |a| && j + equal <= |b|
      invariant Run(eq, a, b, i, j) == equal + Run(eq, a, b, i + equal, j + equal)
      decreases |a| - equal
    {
      equal := equal + 1;
    }
  }

  method CountArrayDiff<T>(eq: Match<T>, a: seq<T>, b: seq<T>, i: nat, j: nat, budget: real)
    returns (equal: nat)
    requires i <= |a| && j <= |b|
    ensures equal == Score(eq, a, b, i, j, budget)
    ensures exists ps :: IsCommon(eq, a, b, i, j, ps) && |ps| == equal
    decreases |a| - i + |b| - j, 0
  {
    equal := CountRun(eq, a, b, i, j);
    ScoreTakesBest(eq, a, b, i, j, budget);
    var idx1, idx2 := i + equal, j + equal;
    var steps := budget - equal as real - 1.0;
    if steps > 0.0 {
      var eq1 := BestSkipFirst(eq, a, b, idx1 + 1, idx2, steps / 2.0);
      var eq2 := BestSkipSecond(eq, a, b, idx1, idx2 + 1, steps);
      if eq1 > eq2 {
        equal := equal + eq1;
      } else if eq2 > 0 {
        equal := equal + eq2;
      }
    }
    ghost var ps := ScoreIsRealised(eq, a, b, i, j, budget);
  }
}

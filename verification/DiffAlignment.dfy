/**
 The alignment the differ settles on: lines that match are kept, and each mismatch is
 decided by the look-ahead.
 */
module DiffAlignment {
  import opened Diff

  /** Where the aligner goes from lines `i` and `j`. */
  function After<T>(eq: Match<T>, a: seq<T>, b: seq<T>, i: nat, j: nat): (next: (nat, nat))
    requires i < |a| && j < |b|
    ensures i <= next.0 <= |a| && j <= next.1 <= |b| && i + j < next.0 + next.1
  {
    if eq(a[i], b[j]) then (i + 1, j + 1)
    else
      var c1, c2 := Score(eq, a, b, i + 1, j, 10.0), Score(eq, a, b, i, j + 1, 10.0);
      if c1 > c2 then (i + 1, j) else if c2 > 0 then (i, j + 1) else (i + 1, j + 1)
  }

  /** The pairs of lines kept from lines `i` and `j` on. */
  function Alignment<T>(eq: Match<T>, a: seq<T>, b: seq<T>, i: nat, j: nat): seq<(nat, nat)>
    requires i <= |a| && j <= |b|
    decreases |a| - i + |b| - j
  {
    if i == |a| || j == |b| then []
    else
      var next := After(eq, a, b, i, j);
      (if eq(a[i], b[j]) then [(i, j)] else []) + Alignment(eq, a, b, next.0, next.1)
  }

  /** A larger budget never lowers the score. */
  lemma {:induction false} ScoreGrows<T>(eq: Match<T>, a: seq<T>, b: seq<T>, i: nat, j: nat, s: real, s': real)
    requires i <= |a| && j <= |b| && s <= s'
    ensures Score(eq, a, b, i, j, s) <= Score(eq, a, b, i, j, s')
    decreases |a| - i + |b| - j
  {
    hide Run, Score;
    var n := Run(eq, a, b, i, j);
    var left, left' := s - n as real - 1.0, s' - n as real - 1.0;
    ScoreAtLeastRun(eq, a, b, i, j, s');
    var d := ScoreIsSomeSkip(eq, a, b, i, j, s);
    if Score(eq, a, b, i, j, s) != n {
      if FirstAffords(a, i, n, left, d)
         && Score(eq, a, b, i, j, s) == n + Score(eq, a, b, i + n + d, j + n, left / 2.0 - d as real) {
        assert left / 2.0 <= left' / 2.0;
        ScoreTriesFirst(eq, a, b, i, j, s', d);
        ScoreGrows(eq, a, b, i + n + d, j + n, left / 2.0 - d as real, left' / 2.0 - d as real);
      } else {
        ScoreTriesSecond(eq, a, b, i, j, s', d);
        ScoreGrows(eq, a, b, i + n, j + n + d, left - d as real, left' - d as real);
      }
    }
  }

  /** What a skip of `d` lines finds is still found after one of them is dropped. */
  lemma FoundAfterFirst<T>(eq: Match<T>, a: seq<T>, b: seq<T>, i: nat, j: nat, d: nat)
    requires j <= |b| && d >= 1 && i + d < |a| && 4.5 > d as real - 1.0
    requires Score(eq, a, b, i + d, j, 4.5 - d as real) > 0
    ensures Score(eq, a, b, i + 1, j, 10.0) > 0
  {
    hide Run, Score;
    if d == 1 {
      ScoreGrows(eq, a, b, i + 1, j, 3.5, 10.0);
    } else {
      ScoreAtLeastRun(eq, a, b, i + 1, j, 10.0);
      if Run(eq, a, b, i + 1, j) == 0 {
        ScoreTriesFirst(eq, a, b, i + 1, j, 10.0, d - 1);
        ScoreGrows(eq, a, b, i + d, j, 4.5 - d as real, 4.5 - (d - 1) as real);
      }
    }
  }

  lemma FoundAfterSecond<T>(eq: Match<T>, a: seq<T>, b: seq<T>, i: nat, j: nat, d: nat)
    requires i <= |a| && d >= 1 && j + d < |b| && 9.0 > d as real - 1.0
    requires Score(eq, a, b, i, j + d, 9.0 - d as real) > 0
    ensures Score(eq, a, b, i, j + 1, 10.0) > 0
  {
    hide Run, Score;
    if d == 1 {
      ScoreGrows(eq, a, b, i, j + 1, 8.0, 10.0);
    } else {
      ScoreAtLeastRun(eq, a, b, i, j + 1, 10.0);
      if Run(eq, a, b, i, j + 1) == 0 {
        ScoreTriesSecond(eq, a, b, i, j + 1, 10.0, d - 1);
        ScoreGrows(eq, a, b, i, j + d, 9.0 - d as real, 9.0 - (d - 1) as real);
      }
    }
  }

  /** At a mismatch, what the look-ahead finds it still finds after a line of one side is dropped. */
  lemma StillFound<T>(eq: Match<T>, a: seq<T>, b: seq<T>, i: nat, j: nat)
    requires i < |a| && j < |b| && !eq(a[i], b[j]) && Score(eq, a, b, i, j, 10.0) > 0
    ensures Score(eq, a, b, i + 1, j, 10.0) > 0 || Score(eq, a, b, i, j + 1, 10.0) > 0
  {
    assert Run(eq, a, b, i, j) == 0;
    hide Run, Score;
    var d := ScoreIsSomeSkip(eq, a, b, i, j, 10.0);
    if FirstAffords(a, i, 0, 9.0, d) && Score(eq, a, b, i + d, j, 4.5 - d as real) > 0 {
      FoundAfterFirst(eq, a, b, i, j, d);
    } else {
      assert SecondAffords(b, j, 0, 9.0, d) && Score(eq, a, b, i, j + d, 9.0 - d as real) > 0;
      FoundAfterSecond(eq, a, b, i, j, d);
    }
  }

  lemma NothingBeyond<T>(eq: Match<T>, a: seq<T>, b: seq<T>, i: nat, j: nat, steps: real)
    requires i <= |a| && j <= |b| && (i == |a| || j == |b|)
    ensures Score(eq, a, b, i, j, steps) == 0
  {
    ScoreIsSound(eq, a, b, i, j, steps);
  }

  /** Where the look-ahead finds a matching line the alignment keeps a pair from there on. */
  lemma {:induction false} FoundIsKept<T>(eq: Match<T>, a: seq<T>, b: seq<T>, i: nat, j: nat)
    requires i <= |a| && j <= |b| && Score(eq, a, b, i, j, 10.0) > 0
    ensures Alignment(eq, a, b, i, j) != []
    decreases |a| - i + |b| - j
  {
    hide Score;
    if i == |a| || j == |b| {
      NothingBeyond(eq, a, b, i, j, 10.0);
    } else if !eq(a[i], b[j]) {
      StillFound(eq, a, b, i, j);
      var next := After(eq, a, b, i, j);
      FoundIsKept(eq, a, b, next.0, next.1);
    }
  }

  /** A matching line within five wanted lines or nine output lines is found. */
  lemma NearMatchIsFound<T>(eq: Match<T>, a: seq<T>, b: seq<T>, i: nat, j: nat, d: nat)
    requires i <= |a| && j <= |b|
    requires || (i + d < |a| && j < |b| && eq(a[i + d], b[j]) && d <= 5)
             || (j + d < |b| && i < |a| && eq(a[i], b[j + d]) && d <= 9)
    ensures Score(eq, a, b, i, j, 10.0) > 0
  {
    ScoreAtLeastRun(eq, a, b, i, j, 10.0);
    if Run(eq, a, b, i, j) == 0 && d > 0 {
      if i + d < |a| && j < |b| && eq(a[i + d], b[j]) && d <= 5 {
        assert Run(eq, a, b, i + d, j) >= 1;
        ScoreAtLeastRun(eq, a, b, i + d, j, 4.5 - d as real);
        hide Run, Score;
        ScoreTriesFirst(eq, a, b, i, j, 10.0, d);
      } else {
        assert Run(eq, a, b, i, j + d) >= 1;
        ScoreAtLeastRun(eq, a, b, i, j + d, 9.0 - d as real);
        hide Run, Score;
        ScoreTriesSecond(eq, a, b, i, j, 10.0, d);
      }
    }
  }

  /** No wanted line matches any output line. */
  ghost predicate NoneMatch<T>(eq: Match<T>, a: seq<T>, b: seq<T>) {
    forall x, y | 0 <= x < |a| && 0 <= y < |b| :: !eq(a[x], b[y])
  }

  lemma {:induction false} NothingCommon<T>(eq: Match<T>, a: seq<T>, b: seq<T>, i: nat, j: nat)
    requires i <= |a| && j <= |b| && NoneMatch(eq, a, b)
    ensures Lcs(eq, a, b, i, j) == 0
    decreases |a| - i + |b| - j
  {
    if i < |a| && j < |b| {
      NothingCommon(eq, a, b, i + 1, j);
      NothingCommon(eq, a, b, i, j + 1);
    }
  }

  /** Where nothing matches the aligner drops a line of each side at a time. */
  lemma NothingToKeep<T>(eq: Match<T>, a: seq<T>, b: seq<T>, i: nat, j: nat)
    requires i < |a| && j < |b| && NoneMatch(eq, a, b)
    ensures !eq(a[i], b[j]) && After(eq, a, b, i, j) == (i + 1, j + 1)
  {
    ScoreIsSound(eq, a, b, i + 1, j, 10.0);
    ScoreIsSound(eq, a, b, i, j + 1, 10.0);
    NothingCommon(eq, a, b, i + 1, j);
    NothingCommon(eq, a, b, i, j + 1);
    hide Score, Lcs;
  }
}

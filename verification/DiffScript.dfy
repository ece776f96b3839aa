/** The edit script the diff prints, and why it is one. */
module DiffScript {
  import opened Diff
  import opened DiffAlignment

  /** A printed line: its 0-based index and its text. */
  datatype Edit = Removed(idx: nat, text: string) | Added(idx: nat, text: string)

  function Last<T>(s: seq<T>): T
    requires s != []
  {
    s[|s| - 1]
  }

  function Init<T>(s: seq<T>): seq<T>
    requires s != []
  {
    s[..|s| - 1]
  }

  /** The indices of the removed lines, in the order printed. */
  function Removals(diff: seq<Edit>): seq<nat> {
    if diff == [] then [] else Removals(Init(diff)) + if Last(diff).Removed? then [Last(diff).idx] else []
  }

  function Additions(diff: seq<Edit>): seq<nat> {
    if diff == [] then [] else Additions(Init(diff)) + if Last(diff).Added? then [Last(diff).idx] else []
  }

  /** The indices below `n` that are not listed. */
  function Complement(n: nat, listed: seq<nat>): seq<nat> {
    if n == 0 then [] else Complement(n - 1, listed) + if n - 1 in listed then [] else [n - 1]
  }

  ghost predicate Increasing(s: seq<nat>, limit: nat) {
    && (forall k | 0 <= k < |s| :: s[k] < limit)
    && (forall k, l | 0 <= k < l < |s| :: s[k] < s[l])
  }

  function Firsts(ps: seq<(nat, nat)>): seq<nat> {
    seq(|ps|, k requires 0 <= k < |ps| => ps[k].0)
  }

  function Seconds(ps: seq<(nat, nat)>): seq<nat> {
    seq(|ps|, k requires 0 <= k < |ps| => ps[k].1)
  }

  /******* Faithful scripts *******/

  /** Removing and adding what the script lists turns matching lines into matching lines. */
  ghost predicate Balanced(eq: Match<string>, a: seq<string>, b: seq<string>, diff: seq<Edit>, kept: seq<(nat, nat)>) {
    && Increasing(Removals(diff), |a|) && Increasing(Additions(diff), |b|)
    && Complement(|a|, Removals(diff)) == Firsts(kept)
    && Complement(|b|, Additions(diff)) == Seconds(kept)
    && IsCommon(eq, a, b, 0, 0, kept)
  }

  /** `e` has to come before `f`: by index, or because a kept pair lies between them. */
  ghost predicate MustPrecede(kept: seq<(nat, nat)>, e: Edit, f: Edit) {
    match (e, f)
    case (Removed(x, _), Removed(y, _)) => x < y
    case (Added(x, _), Added(y, _)) => x < y
    case (Removed(x, _), Added(y, _)) => exists k :: 0 <= k < |kept| && x < kept[k].0 && kept[k].1 < y
    case (Added(x, _), Removed(y, _)) => exists k :: 0 <= k < |kept| && x < kept[k].1 && kept[k].0 < y
  }

  ghost predicate InOrder(kept: seq<(nat, nat)>, diff: seq<Edit>) {
    forall u, v | 0 <= u < v < |diff| :: !MustPrecede(kept, diff[v], diff[u])
  }

  function LineAt(w: seq<string>, i: nat): string {
    if i < |w| then w[i] else ""
  }

  ghost predicate Texts(w: seq<string>, b: seq<string>, diff: seq<Edit>) {
    forall k | 0 <= k < |diff| ::
      diff[k].text == if diff[k].Removed? then LineAt(w, diff[k].idx) else LineAt(b, diff[k].idx)
  }

  /******* The alignment *******/

  ghost predicate Aligned(eq: Match<string>, a: seq<string>, b: seq<string>, i: nat, j: nat,
                          old1: seq<nat>, old2: seq<nat>, kept: seq<(nat, nat)>)
  {
    && i <= |a| && j <= |b| && IsCommon(eq, a, b, 0, 0, kept)
    && (forall k | 0 <= k < |kept| :: kept[k].0 < i && kept[k].1 < j)
    && Increasing(old1, i) && Increasing(old2, j)
    && Complement(i, old1) == Firsts(kept) && Complement(j, old2) == Seconds(kept)
  }

  lemma {:induction false} ComplementIgnores(n: nat, listed: seq<nat>, extra: seq<nat>)
    requires forall x | x in extra :: x >= n
    ensures Complement(n, listed + extra) == Complement(n, listed)
  {
    if n > 0 {
      ComplementIgnores(n - 1, listed, extra);
      assert n - 1 in listed + extra <==> n - 1 in listed;
    }
  }

  lemma KeepPair(eq: Match<string>, a: seq<string>, b: seq<string>, i: nat, j: nat,
                 old1: seq<nat>, old2: seq<nat>, kept: seq<(nat, nat)>)
    requires Aligned(eq, a, b, i, j, old1, old2, kept)
    requires i < |a| && j < |b| && eq(a[i], b[j])
    ensures Aligned(eq, a, b, i + 1, j + 1, old1, old2, kept + [(i, j)])
  {
    assert i !in old1 && j !in old2;
    assert Firsts(kept + [(i, j)]) == Firsts(kept) + [i];
    assert Seconds(kept + [(i, j)]) == Seconds(kept) + [j];
  }

  lemma DropFirst(eq: Match<string>, a: seq<string>, b: seq<string>, i: nat, j: nat,
                  old1: seq<nat>, old2: seq<nat>, kept: seq<(nat, nat)>)
    requires Aligned(eq, a, b, i, j, old1, old2, kept) && i < |a|
    ensures Aligned(eq, a, b, i + 1, j, old1 + [i], old2, kept)
  {
    ComplementIgnores(i, old1, [i]);
    assert i in old1 + [i];
  }

  lemma DropSecond(eq: Match<string>, a: seq<string>, b: seq<string>, i: nat, j: nat,
                   old1: seq<nat>, old2: seq<nat>, kept: seq<(nat, nat)>)
    requires Aligned(eq, a, b, i, j, old1, old2, kept) && j < |b|
    ensures Aligned(eq, a, b, i, j + 1, old1, old2 + [j], kept)
  {
    ComplementIgnores(j, old2, [j]);
    assert j in old2 + [j];
  }

  /** `m` splits the kept pairs of `a` the way the added line `y` splits those of `b`. */
  ghost predicate Splits(kept: seq<(nat, nat)>, y: nat, m: nat) {
    forall k | 0 <= k < |kept| ::
      && (kept[k].1 < y ==> kept[k].0 < m)
      && (y < kept[k].1 ==> m <= kept[k].0)
  }

  /** The mapping is right for the added lines before line number `limit`. */
  ghost predicate Mapped(kept: seq<(nat, nat)>, old2: seq<nat>, mapping: map<nat, nat>, i: nat, limit: nat) {
    forall y | y in old2 && y + 1 < limit ::
      y + 1 in mapping && mapping[y + 1] <= i && Splits(kept, y, mapping[y + 1])
  }

  /** On a mismatch, the look-ahead decides which side to drop a line from. */
  method Decide(eq: Match<string>, a: seq<string>, b: seq<string>, i: nat, j: nat) returns (drop1: bool, drop2: bool)
    requires i < |a| && j < |b|
    ensures drop1 || drop2
    ensures var c1, c2 := Score(eq, a, b, i + 1, j, 10.0), Score(eq, a, b, i, j + 1, 10.0);
            (drop1 <==> c1 > c2 || c2 == 0) && (drop2 <==> c1 <= c2)
  {
    var c1 := CountArrayDiff(eq, a, b, i + 1, j, 10.0);
    var c2 := CountArrayDiff(eq, a, b, i, j + 1, 10.0);
    if c1 > c2 {
      drop1, drop2 := true, false;
    } else if c2 > 0 {
      drop1, drop2 := false, true;
    } else {
      drop1, drop2 := true, true;
    }
  }

  /** Drops the mismatched line of one side or both. */
  method DropLines(eq: Match<string>, a: seq<string>, b: seq<string>, i: nat, j: nat, old1: seq<nat>, old2: seq<nat>,
                   ghost mapping: map<nat, nat>, ghost kept: seq<(nat, nat)>)
    returns (i': nat, j': nat, old1': seq<nat>, old2': seq<nat>)
    requires Aligned(eq, a, b, i, j, old1, old2, kept) && i < |a| && j < |b|
    requires Mapped(kept, old2, mapping, i, j + 1)
    ensures Aligned(eq, a, b, i', j', old1', old2', kept)
    ensures Mapped(kept, old2', mapping, i', j')
    ensures !eq(a[i], b[j]) ==> (i', j') == After(eq, a, b, i, j)
    ensures i <= i' && j <= j' && i + j < i' + j'
    ensures old1' == old1 + Range(i, i') && old2' == old2 + Range(j, j')
  {
    i', j', old1', old2' := i, j, old1, old2;
    var drop1, drop2 := Decide(eq, a, b, i, j);
    if drop1 {
      DropFirst(eq, a, b, i, j, old1, old2, kept);
      old1', i' := old1 + [i], i + 1;
    }
    if drop2 {
      DropSecond(eq, a, b, i', j, old1', old2, kept);
      DropMapped(kept, old2, mapping, i', j);
      old2', j' := old2 + [j], j + 1;
    }
  }

  ghost predicate AllKept(eq: Match<string>, a: seq<string>, b: seq<string>, i: nat, j: nat,
                          old1: seq<nat>, old2: seq<nat>)
  {
    SamePrefix(eq, a, b) ==> i == j && old1 == [] && old2 == []
  }

  /** Keys are printed line numbers: an entry is stored after its index was advanced. */
  method Align(eq: Match<string>, a: seq<string>, b: seq<string>)
    returns (i: nat, j: nat, old1: seq<nat>, old2: seq<nat>, mapping: map<nat, nat>, ghost kept: seq<(nat, nat)>)
    ensures Aligned(eq, a, b, i, j, old1, old2, kept) && (i == |a| || j == |b|)
    ensures Mapped(kept, old2, mapping, i, j + 1)
    ensures AllKept(eq, a, b, i, j, old1, old2)
    ensures kept == Alignment(eq, a, b, 0, 0)
    ensures NoneMatch(eq, a, b) ==> i == j && Diagonal(old1, old2, mapping, i, i + 1)
  {
    i, j, old1, old2, mapping, kept := 0, 0, [], [], map[], [];
    StartProgress(eq, a, b);
    hide Progress, Aligned, Mapped, Alignment, NoneMatch, Diagonal, AllKept;
    while i < |a| && j < |b|
      invariant i <= |a| && j <= |b| && Progress(eq, a, b, i, j, old1, old2, mapping, kept)
      decreases |a| - i + |b| - j
    {
      i, j, old1, old2, mapping, kept := AlignLines(eq, a, b, i, j, old1, old2, mapping, kept);
    }
    EndProgress(eq, a, b, i, j, old1, old2, mapping, kept);
    mapping := mapping[j := i];
  }

  /** Keeps a pair of lines that match, or drops lines. */
  method AlignLines(eq: Match<string>, a: seq<string>, b: seq<string>, i: nat, j: nat,
                    old1: seq<nat>, old2: seq<nat>, mapping: map<nat, nat>, ghost kept: seq<(nat, nat)>)
    returns (i': nat, j': nat, old1': seq<nat>, old2': seq<nat>, mapping': map<nat, nat>, ghost kept': seq<(nat, nat)>)
    requires i < |a| && j < |b| && Progress(eq, a, b, i, j, old1, old2, mapping, kept)
    ensures (i', j') == After(eq, a, b, i, j)
    ensures Progress(eq, a, b, i', j', old1', old2', mapping', kept')
  {
    hide Progress, Aligned, Mapped, Alignment, NoneMatch, Diagonal, AllKept, Range, Score;
    mapping', kept' := mapping[j := i], kept;
    if eq(a[i], b[j]) {
      KeepProgress(eq, a, b, i, j, old1, old2, mapping, kept);
      kept' := kept + [(i, j)];
      i', j', old1', old2' := i + 1, j + 1, old1, old2;
    } else {
      BeforeDrop(eq, a, b, i, j, old1, old2, mapping, kept);
      i', j', old1', old2' := DropLines(eq, a, b, i, j, old1, old2, mapping', kept);
      DropProgress(eq, a, b, i, j, old1, old2, mapping, kept, i', j');
    }
  }

  /** What the aligner keeps while it goes over the lines. */
  ghost predicate Progress(eq: Match<string>, a: seq<string>, b: seq<string>, i: nat, j: nat,
                           old1: seq<nat>, old2: seq<nat>, mapping: map<nat, nat>, kept: seq<(nat, nat)>)
    requires i <= |a| && j <= |b|
  {
    && Aligned(eq, a, b, i, j, old1, old2, kept) && Mapped(kept, old2, mapping, i, j)
    && AllKept(eq, a, b, i, j, old1, old2)
    && Alignment(eq, a, b, 0, 0) == kept + Alignment(eq, a, b, i, j)
    && (NoneMatch(eq, a, b) ==> i == j && Diagonal(old1, old2, mapping, i, i))
  }

  lemma StartProgress(eq: Match<string>, a: seq<string>, b: seq<string>)
    ensures Progress(eq, a, b, 0, 0, [], [], map[], [])
  {
    hide Alignment;
    assert [] + Alignment(eq, a, b, 0, 0) == Alignment(eq, a, b, 0, 0);
  }

  lemma KeepProgress(eq: Match<string>, a: seq<string>, b: seq<string>, i: nat, j: nat,
                     old1: seq<nat>, old2: seq<nat>, mapping: map<nat, nat>, kept: seq<(nat, nat)>)
    requires i < |a| && j < |b| && eq(a[i], b[j]) && Progress(eq, a, b, i, j, old1, old2, mapping, kept)
    ensures Progress(eq, a, b, i + 1, j + 1, old1, old2, mapping[j := i], kept + [(i, j)])
  {
    hide Aligned, Mapped, Alignment, Diagonal, Score;
    AlignedParts(eq, a, b, i, j, old1, old2, kept);
    MapHere(kept, old2, mapping, i, j);
    KeepPair(eq, a, b, i, j, old1, old2, kept);
    KeepMapped(kept, old2, mapping[j := i], i, j);
    AlignmentStep(eq, a, b, i, j, kept);
  }

  lemma BeforeDrop(eq: Match<string>, a: seq<string>, b: seq<string>, i: nat, j: nat,
                   old1: seq<nat>, old2: seq<nat>, mapping: map<nat, nat>, kept: seq<(nat, nat)>)
    requires i < |a| && j < |b| && Progress(eq, a, b, i, j, old1, old2, mapping, kept)
    ensures Aligned(eq, a, b, i, j, old1, old2, kept) && Mapped(kept, old2, mapping[j := i], i, j + 1)
  {
    hide Aligned, Mapped, Alignment, Diagonal;
    AlignedParts(eq, a, b, i, j, old1, old2, kept);
    MapHere(kept, old2, mapping, i, j);
  }

  lemma DropProgress(eq: Match<string>, a: seq<string>, b: seq<string>, i: nat, j: nat,
                     old1: seq<nat>, old2: seq<nat>, mapping: map<nat, nat>, kept: seq<(nat, nat)>, i': nat, j': nat)
    requires i < |a| && j < |b| && !eq(a[i], b[j]) && (i', j') == After(eq, a, b, i, j)
    requires Progress(eq, a, b, i, j, old1, old2, mapping, kept)
    requires Aligned(eq, a, b, i', j', old1 + Range(i, i'), old2 + Range(j, j'), kept)
    requires Mapped(kept, old2 + Range(j, j'), mapping[j := i], i', j')
    ensures Progress(eq, a, b, i', j', old1 + Range(i, i'), old2 + Range(j, j'), mapping[j := i], kept)
  {
    hide Aligned, Mapped, After, Alignment, Diagonal;
    AlignmentStep(eq, a, b, i, j, kept);
    if NoneMatch(eq, a, b) {
      NothingToKeep(eq, a, b, i, j);
      DiagonalStep(old1, old2, mapping, i);
    }
    Mismatch(eq, a, b, i, j, old1, old2, kept);
    hide NoneMatch;
  }

  /** A mismatch at lines that are aligned shows that the texts differ where both go on. */
  lemma Mismatch(eq: Match<string>, a: seq<string>, b: seq<string>, i: nat, j: nat,
                 old1: seq<nat>, old2: seq<nat>, kept: seq<(nat, nat)>)
    requires i < |a| && j < |b| && !eq(a[i], b[j]) && AllKept(eq, a, b, i, j, old1, old2)
    ensures !SamePrefix(eq, a, b)
  {
  }

  lemma EndProgress(eq: Match<string>, a: seq<string>, b: seq<string>, i: nat, j: nat,
                    old1: seq<nat>, old2: seq<nat>, mapping: map<nat, nat>, kept: seq<(nat, nat)>)
    requires i <= |a| && j <= |b| && (i == |a| || j == |b|) && Progress(eq, a, b, i, j, old1, old2, mapping, kept)
    ensures Aligned(eq, a, b, i, j, old1, old2, kept) && Mapped(kept, old2, mapping[j := i], i, j + 1)
    ensures AllKept(eq, a, b, i, j, old1, old2) && kept == Alignment(eq, a, b, 0, 0)
    ensures NoneMatch(eq, a, b) ==> i == j && Diagonal(old1, old2, mapping[j := i], i, i + 1)
  {
    hide Aligned, Mapped, Alignment, Diagonal, NoneMatch;
    AlignedParts(eq, a, b, i, j, old1, old2, kept);
    MapHere(kept, old2, mapping, i, j);
    AlignmentEnds(eq, a, b, i, j, kept);
    if NoneMatch(eq, a, b) {
      DiagonalStep(old1, old2, mapping, i);
    }
  }

  /** The lines dropped are the first `m` of both sides, and each line of `b` is mapped to its own number. */
  ghost predicate Diagonal(old1: seq<nat>, old2: seq<nat>, mapping: map<nat, nat>, m: nat, limit: nat) {
    && old1 == Range(0, m) && old2 == Range(0, m)
    && forall k | 0 <= k < limit :: k in mapping && mapping[k] == k
  }

  lemma DiagonalStep(old1: seq<nat>, old2: seq<nat>, mapping: map<nat, nat>, i: nat)
    requires Diagonal(old1, old2, mapping, i, i)
    ensures Diagonal(old1 + Range(i, i + 1), old2 + Range(i, i + 1), mapping[i := i], i + 1, i + 1)
    ensures Diagonal(old1, old2, mapping[i := i], i, i + 1)
  {
    assert Range(0, i) + Range(i, i + 1) == Range(0, i + 1);
  }

  lemma AlignedParts(eq: Match<string>, a: seq<string>, b: seq<string>, i: nat, j: nat,
                     old1: seq<nat>, old2: seq<nat>, kept: seq<(nat, nat)>)
    requires Aligned(eq, a, b, i, j, old1, old2, kept)
    ensures Increasing(old2, j) && forall k | 0 <= k < |kept| :: kept[k].0 < i && kept[k].1 < j
  {
  }

  lemma AlignmentStep(eq: Match<string>, a: seq<string>, b: seq<string>, i: nat, j: nat, kept: seq<(nat, nat)>)
    requires i < |a| && j < |b|
    ensures var next := After(eq, a, b, i, j);
            kept + Alignment(eq, a, b, i, j)
            == (if eq(a[i], b[j]) then kept + [(i, j)] else kept) + Alignment(eq, a, b, next.0, next.1)
  {
    hide Score;
    var rest := Alignment(eq, a, b, After(eq, a, b, i, j).0, After(eq, a, b, i, j).1);
    assert kept + ([(i, j)] + rest) == kept + [(i, j)] + rest && [] + rest == rest;
  }

  lemma AlignmentEnds(eq: Match<string>, a: seq<string>, b: seq<string>, i: nat, j: nat, kept: seq<(nat, nat)>)
    requires i <= |a| && j <= |b| && (i == |a| || j == |b|)
    ensures kept + Alignment(eq, a, b, i, j) == kept
  {
  }

  /** Lines match as far as both texts go. */
  ghost predicate SamePrefix(eq: Match<string>, a: seq<string>, b: seq<string>) {
    forall k | 0 <= k < |a| && k < |b| :: eq(a[k], b[k])
  }

  lemma MapHere(kept: seq<(nat, nat)>, old2: seq<nat>, mapping: map<nat, nat>, i: nat, j: nat)
    requires Mapped(kept, old2, mapping, i, j) && Increasing(old2, j)
    requires forall k | 0 <= k < |kept| :: kept[k].0 < i && kept[k].1 < j
    ensures Mapped(kept, old2, mapping[j := i], i, j + 1)
  {
  }

  lemma KeepMapped(kept: seq<(nat, nat)>, old2: seq<nat>, mapping: map<nat, nat>, i: nat, j: nat)
    requires Mapped(kept, old2, mapping, i, j + 1) && Increasing(old2, j)
    ensures Mapped(kept + [(i, j)], old2, mapping, i + 1, j + 1)
  {
  }

  lemma DropMapped(kept: seq<(nat, nat)>, old2: seq<nat>, mapping: map<nat, nat>, i: nat, j: nat)
    requires Mapped(kept, old2, mapping, i, j + 1)
    ensures Mapped(kept, old2 + [j], mapping, i, j + 1)
  {
    forall y | y in old2 + [j] && y + 1 < j + 1 ensures y in old2 {
    }
  }

  /******* Printing *******/

  function Range(lo: nat, hi: nat): (r: seq<nat>)
    requires lo <= hi
    ensures |r| == hi - lo && forall k | 0 <= k < |r| :: r[k] == lo + k
  {
    seq(hi - lo, k requires 0 <= k => lo + k)
  }

  /** No edit still to print has to come before a printed one. */
  ghost predicate Frontier(kept: seq<(nat, nat)>, diff: seq<Edit>, all1: seq<nat>, p1: nat, all2: seq<nat>, p2: nat) {
    && p1 <= |all1| && p2 <= |all2|
    && Removals(diff) == all1[..p1] && Additions(diff) == all2[..p2]
    && InOrder(kept, diff)
    && (forall u, q | 0 <= u < |diff| && p1 <= q < |all1| :: !MustPrecede(kept, Removed(all1[q], ""), diff[u]))
    && (forall u, q | 0 <= u < |diff| && p2 <= q < |all2| :: !MustPrecede(kept, Added(all2[q], ""), diff[u]))
  }

  lemma AppendEdit(diff: seq<Edit>, e: Edit)
    ensures Removals(diff + [e]) == Removals(diff) + if e.Removed? then [e.idx] else []
    ensures Additions(diff + [e]) == Additions(diff) + if e.Added? then [e.idx] else []
  {
    assert Init(diff + [e]) == diff && Last(diff + [e]) == e;
  }

  lemma PrecedenceIgnoresText(kept: seq<(nat, nat)>, e: Edit, f: Edit, g: Edit)
    requires e.idx == f.idx && (e.Removed? <==> f.Removed?)
    ensures MustPrecede(kept, e, g) <==> MustPrecede(kept, f, g)
    ensures MustPrecede(kept, g, e) <==> MustPrecede(kept, g, f)
  {
  }

  lemma EmitRemoval(kept: seq<(nat, nat)>, diff: seq<Edit>, all1: seq<nat>, p1: nat, all2: seq<nat>, p2: nat,
                    n1: nat, n2: nat, text: string)
    requires Frontier(kept, diff, all1, p1, all2, p2) && p1 < |all1|
    requires Increasing(all1, n1) && Increasing(all2, n2)
    requires p2 < |all2| ==> !MustPrecede(kept, Added(all2[p2], ""), Removed(all1[p1], ""))
    ensures Frontier(kept, diff + [Removed(all1[p1], text)], all1, p1 + 1, all2, p2)
  {
    var e := Removed(all1[p1], text);
    AppendEdit(diff, e);
    forall u | 0 <= u < |diff| ensures !MustPrecede(kept, e, diff[u]) {
      PrecedenceIgnoresText(kept, e, Removed(all1[p1], ""), diff[u]);
    }
    forall q | p2 <= q < |all2| ensures !MustPrecede(kept, Added(all2[q], ""), e) {
      assert all2[p2] <= all2[q];
    }
  }

  lemma EmitAddition(kept: seq<(nat, nat)>, diff: seq<Edit>, all1: seq<nat>, p1: nat, all2: seq<nat>, p2: nat,
                     n1: nat, n2: nat, text: string)
    requires Frontier(kept, diff, all1, p1, all2, p2) && p2 < |all2|
    requires Increasing(all1, n1) && Increasing(all2, n2)
    requires p1 < |all1| ==> !MustPrecede(kept, Removed(all1[p1], ""), Added(all2[p2], ""))
    ensures Frontier(kept, diff + [Added(all2[p2], text)], all1, p1, all2, p2 + 1)
  {
    var e := Added(all2[p2], text);
    AppendEdit(diff, e);
    forall u | 0 <= u < |diff| ensures !MustPrecede(kept, e, diff[u]) {
      PrecedenceIgnoresText(kept, e, Added(all2[p2], ""), diff[u]);
    }
    forall q | p1 <= q < |all1| ensures !MustPrecede(kept, Removed(all1[q], ""), e) {
      assert all1[p1] <= all1[q];
    }
  }

  lemma {:induction false} PrintedRemoval(diff: seq<Edit>, x: nat) returns (u: nat)
    requires x in Removals(diff)
    ensures u < |diff| && diff[u].Removed? && diff[u].idx == x
  {
    if Last(diff).Removed? && Last(diff).idx == x {
      u := |diff| - 1;
    } else {
      u := PrintedRemoval(Init(diff), x);
    }
  }

  lemma {:induction false} PrintedAddition(diff: seq<Edit>, y: nat) returns (u: nat)
    requires y in Additions(diff)
    ensures u < |diff| && diff[u].Added? && diff[u].idx == y
  {
    if Last(diff).Added? && Last(diff).idx == y {
      u := |diff| - 1;
    } else {
      u := PrintedAddition(Init(diff), y);
    }
  }

  /** A removal that continues a run of removals needs no addition before it. */
  lemma ContinueRemovals(kept: seq<(nat, nat)>, diff: seq<Edit>, all1: seq<nat>, p1: nat, all2: seq<nat>, p2: nat)
    requires Frontier(kept, diff, all1, p1, all2, p2) && 0 < p1 < |all1| && p2 < |all2|
    requires all1[p1] == all1[p1 - 1] + 1 && forall k | 0 <= k < |kept| :: kept[k].0 != all1[p1 - 1]
    ensures !MustPrecede(kept, Added(all2[p2], ""), Removed(all1[p1], ""))
  {
    assert all1[..p1][p1 - 1] in Removals(diff);
    var u := PrintedRemoval(diff, all1[p1 - 1]);
    assert !MustPrecede(kept, Added(all2[p2], ""), diff[u]);
  }

  lemma ContinueAdditions(kept: seq<(nat, nat)>, diff: seq<Edit>, all1: seq<nat>, p1: nat, all2: seq<nat>, p2: nat)
    requires Frontier(kept, diff, all1, p1, all2, p2) && 0 < p2 < |all2| && p1 < |all1|
    requires all2[p2] == all2[p2 - 1] + 1 && forall k | 0 <= k < |kept| :: kept[k].1 != all2[p2 - 1]
    ensures !MustPrecede(kept, Removed(all1[p1], ""), Added(all2[p2], ""))
  {
    assert all2[..p2][p2 - 1] in Additions(diff);
    var u := PrintedAddition(diff, all2[p2 - 1]);
    assert !MustPrecede(kept, Removed(all1[p1], ""), diff[u]);
  }

  /** What the aligner hands to the printer. */
  ghost predicate Printable(kept: seq<(nat, nat)>, i: nat, j: nat, old1: seq<nat>, old2: seq<nat>,
                            mapping: map<nat, nat>)
  {
    && Increasing(old1, i) && Increasing(old2, j)
    && (forall k | 0 <= k < |kept| :: kept[k].0 < i && kept[k].1 < j && kept[k].0 !in old1 && kept[k].1 !in old2)
    && Mapped(kept, old2, mapping, i, j + 1)
  }

  method MergeEdits(w: seq<string>, b: seq<string>, old1: seq<nat>, old2: seq<nat>, mapping: map<nat, nat>,
                    ghost kept: seq<(nat, nat)>, ghost i: nat, ghost j: nat, ghost n1: nat, ghost n2: nat)
    returns (diff: seq<Edit>)
    requires i <= n1 && j <= n2 && Printable(kept, i, j, old1, old2, mapping)
    ensures Frontier(kept, diff, old1 + Range(i, n1), |old1|, old2 + Range(j, n2), |old2|)
    ensures Texts(w, b, diff)
    ensures RunsTogether(diff, old1, old2)
    ensures Diagonal(old1, old2, mapping, |old1|, |old1| + 1) ==>
              diff == AddedLines(b, 0, |old1|) + RemovedLines(w, 0, |old1|)
  {
    var p1, p2, l1: int, l2: int := 0, 0, -2, -2;
    diff := [];
    StartPrinting(w, b, old1, old2, mapping, kept, i, j, n1, n2);
    hide Printing, Printable, Increasing, Mapped, Chosen, LineAt;
    while p1 < |old1| || p2 < |old2|
      invariant p1 <= |old1| && p2 <= |old2| && Printing(w, b, diff, old1, p1, old2, p2, mapping, kept, i, j, n1, n2)
      invariant l1 == LastKey(old1, p1) && l2 == LastKey(old2, p2)
      decreases |old1| - p1 + |old2| - p2
    {
      var removal := NextIsRemoval(old1, p1, l1, old2, p2, l2, mapping, kept, i, j);
      PrintNext(w, b, diff, old1, p1, old2, p2, mapping, kept, i, j, n1, n2, removal);
      if removal {
        diff := diff + [Removed(old1[p1], LineAt(w, old1[p1]))];
        l1 := old1[p1] + 1;
        p1 := p1 + 1;
      } else {
        diff := diff + [Added(old2[p2], LineAt(b, old2[p2]))];
        l2 := old2[p2] + 1;
        p2 := p2 + 1;
      }
    }
    EndPrinting(w, b, diff, old1, old2, mapping, kept, i, j, n1, n2);
  }

  /** What the merge keeps while it prints. */
  ghost predicate Printing(w: seq<string>, b: seq<string>, diff: seq<Edit>, old1: seq<nat>, p1: nat, old2: seq<nat>,
                           p2: nat, mapping: map<nat, nat>, kept: seq<(nat, nat)>, i: nat, j: nat, n1: nat, n2: nat)
    requires i <= n1 && j <= n2
  {
    && Frontier(kept, diff, old1 + Range(i, n1), p1, old2 + Range(j, n2), p2)
    && Texts(w, b, diff) && Together(diff, old1, p1, old2, p2)
    && (Diagonal(old1, old2, mapping, |old1|, |old1| + 1) ==> InBlocks(w, b, diff, p1, p2, |old1|))
  }

  lemma StartPrinting(w: seq<string>, b: seq<string>, old1: seq<nat>, old2: seq<nat>, mapping: map<nat, nat>,
                      kept: seq<(nat, nat)>, i: nat, j: nat, n1: nat, n2: nat)
    requires i <= n1 && j <= n2 && Printable(kept, i, j, old1, old2, mapping)
    ensures Printing(w, b, [], old1, 0, old2, 0, mapping, kept, i, j, n1, n2)
    ensures Increasing(old2, j) && Mapped(kept, old2, mapping, i, j + 1)
  {
    NothingPrinted(kept, old1 + Range(i, n1), old2 + Range(j, n2));
    hide Frontier, Diagonal;
    AddedFirst(w, b, |old1|);
  }

  lemma PrintNext(w: seq<string>, b: seq<string>, diff: seq<Edit>, old1: seq<nat>, p1: nat, old2: seq<nat>, p2: nat,
                  mapping: map<nat, nat>, kept: seq<(nat, nat)>, i: nat, j: nat, n1: nat, n2: nat, removal: bool)
    requires i <= n1 && j <= n2 && Printable(kept, i, j, old1, old2, mapping)
    requires p1 <= |old1| && p2 <= |old2| && (p1 < |old1| || p2 < |old2|)
    requires Printing(w, b, diff, old1, p1, old2, p2, mapping, kept, i, j, n1, n2)
    requires Chosen(old1, p1, old2, p2, mapping, removal)
    ensures removal ==> p1 < |old1| && Printing(w, b, diff + [Removed(old1[p1], LineAt(w, old1[p1]))],
                                                old1, p1 + 1, old2, p2, mapping, kept, i, j, n1, n2)
    ensures !removal ==> p2 < |old2| && Printing(w, b, diff + [Added(old2[p2], LineAt(b, old2[p2]))],
                                                 old1, p1, old2, p2 + 1, mapping, kept, i, j, n1, n2)
  {
    var all1, all2 := old1 + Range(i, n1), old2 + Range(j, n2);
    hide Frontier, MustPrecede, Increasing, Mapped, Chosen, LineAt, Texts, Together, Diagonal, InBlocks;
    NextIsFree(kept, diff, old1, p1, old2, p2, mapping, i, j, n1, n2, removal);
    PrintableLists(kept, i, j, old1, old2, mapping);
    var text1, text2 := LineAt(w, NextOf(old1, p1)), LineAt(b, NextOf(old2, p2));
    TogetherStep(diff, old1, p1, old2, p2, mapping, i, j, removal, text1, text2);
    if Diagonal(old1, old2, mapping, |old1|, |old1| + 1) {
      BlocksStep(w, b, diff, old1, p1, old2, p2, mapping, removal);
    }
    if removal {
      assert all1[p1] == old1[p1];
      EmitRemoval(kept, diff, all1, p1, all2, p2, n1, n2, text1);
      TextsAppend(w, b, diff, Removed(old1[p1], text1));
    } else {
      assert all2[p2] == old2[p2];
      EmitAddition(kept, diff, all1, p1, all2, p2, n1, n2, text2);
      TextsAppend(w, b, diff, Added(old2[p2], text2));
    }
  }

  lemma PrintableLists(kept: seq<(nat, nat)>, i: nat, j: nat, old1: seq<nat>, old2: seq<nat>, mapping: map<nat, nat>)
    requires Printable(kept, i, j, old1, old2, mapping)
    ensures Increasing(old1, i) && Increasing(old2, j)
  {
  }

  lemma EndPrinting(w: seq<string>, b: seq<string>, diff: seq<Edit>, old1: seq<nat>, old2: seq<nat>,
                    mapping: map<nat, nat>, kept: seq<(nat, nat)>, i: nat, j: nat, n1: nat, n2: nat)
    requires i <= n1 && j <= n2 && Printable(kept, i, j, old1, old2, mapping)
    requires Printing(w, b, diff, old1, |old1|, old2, |old2|, mapping, kept, i, j, n1, n2)
    ensures Frontier(kept, diff, old1 + Range(i, n1), |old1|, old2 + Range(j, n2), |old2|)
    ensures Texts(w, b, diff) && RunsTogether(diff, old1, old2)
    ensures Diagonal(old1, old2, mapping, |old1|, |old1| + 1) ==>
              diff == AddedLines(b, 0, |old1|) + RemovedLines(w, 0, |old1|)
  {
    hide Frontier, Texts, Together, Diagonal, InBlocks, RunsTogether, Increasing;
    PrintableLists(kept, i, j, old1, old2, mapping);
    TogetherEnds(diff, old1, old2, i, j);
    if Diagonal(old1, old2, mapping, |old1|, |old1| + 1) {
      BlocksEnd(w, b, diff, old1, old2, mapping);
    }
  }

  lemma TextsAppend(w: seq<string>, b: seq<string>, diff: seq<Edit>, e: Edit)
    requires Texts(w, b, diff) && e.text == if e.Removed? then LineAt(w, e.idx) else LineAt(b, e.idx)
    ensures Texts(w, b, diff + [e])
  {
  }

  /******* Runs of edits *******/

  function RemovedLines(w: seq<string>, lo: nat, hi: nat): seq<Edit>
    requires lo <= hi
  {
    seq(hi - lo, k requires 0 <= k => Removed(lo + k, LineAt(w, lo + k)))
  }

  function AddedLines(b: seq<string>, lo: nat, hi: nat): seq<Edit>
    requires lo <= hi
  {
    seq(hi - lo, k requires 0 <= k => Added(lo + k, LineAt(b, lo + k)))
  }

  /** An edit whose next line is listed on its side is followed by the edit of that line. */
  ghost predicate FollowedBy(diff: seq<Edit>, u: nat, old1: seq<nat>, old2: seq<nat>)
    requires u < |diff|
  {
    diff[u].idx + 1 in (if diff[u].Removed? then old1 else old2) ==>
      u + 1 < |diff| && diff[u + 1].Removed? == diff[u].Removed? && diff[u + 1].idx == diff[u].idx + 1
  }

  /** Edits of consecutive lines of one side stand together. */
  ghost predicate RunsTogether(diff: seq<Edit>, old1: seq<nat>, old2: seq<nat>) {
    forall u: nat | u < |diff| :: FollowedBy(diff, u, old1, old2)
  }

  function NextOf(listed: seq<nat>, p: nat): nat {
    if p < |listed| then listed[p] else 0
  }

  predicate Continues(listed: seq<nat>, p: nat) {
    0 < p < |listed| && listed[p] == listed[p - 1] + 1
  }

  /** Printed so far: runs stand together, and only the run printed last may go on. */
  ghost predicate Together(diff: seq<Edit>, old1: seq<nat>, p1: nat, old2: seq<nat>, p2: nat) {
    && (forall u: nat | u + 1 < |diff| :: FollowedBy(diff, u, old1, old2))
    && (diff != [] && Last(diff).Removed? ==> 0 < p1 <= |old1| && old1[p1 - 1] == Last(diff).idx)
    && (diff != [] && Last(diff).Added? ==> 0 < p2 <= |old2| && old2[p2 - 1] == Last(diff).idx && !Continues(old1, p1))
  }

  /** The next line, if listed, is the next entry of an increasing list. */
  lemma NextListed(listed: seq<nat>, limit: nat, p: nat)
    requires Increasing(listed, limit) && 0 < p <= |listed|
    ensures listed[p - 1] + 1 in listed <==> Continues(listed, p)
  {
    if listed[p - 1] + 1 in listed {
      var k :| 0 <= k < |listed| && listed[k] == listed[p - 1] + 1;
      assert k >= p;
    }
  }

  /** Extending by one edit: the edit before it is followed rightly. */
  lemma FollowExtends(diff: seq<Edit>, e: Edit, old1: seq<nat>, old2: seq<nat>)
    requires forall u: nat | u + 1 < |diff| :: FollowedBy(diff, u, old1, old2)
    requires diff != [] ==>
               (Last(diff).idx + 1 in (if Last(diff).Removed? then old1 else old2) ==>
                 e.Removed? == Last(diff).Removed? && e.idx == Last(diff).idx + 1)
    ensures forall u: nat | u + 1 < |diff + [e]| :: FollowedBy(diff + [e], u, old1, old2)
  {
    forall u: nat | u + 1 < |diff + [e]| ensures FollowedBy(diff + [e], u, old1, old2) {
      if u + 1 < |diff| {
        assert FollowedBy(diff, u, old1, old2);
      }
    }
  }

  lemma TogetherStep(diff: seq<Edit>, old1: seq<nat>, p1: nat, old2: seq<nat>, p2: nat, mapping: map<nat, nat>,
                     i: nat, j: nat, removal: bool, text1: string, text2: string)
    requires Increasing(old1, i) && Increasing(old2, j) && Together(diff, old1, p1, old2, p2)
    requires p1 <= |old1| && p2 <= |old2| && (p1 < |old1| || p2 < |old2|)
    requires Chosen(old1, p1, old2, p2, mapping, removal)
    ensures removal ==> p1 < |old1| && Together(diff + [Removed(old1[p1], text1)], old1, p1 + 1, old2, p2)
    ensures !removal ==> p2 < |old2| && Together(diff + [Added(old2[p2], text2)], old1, p1, old2, p2 + 1)
  {
    if diff != [] {
      if Last(diff).Removed? {
        NextListed(old1, i, p1);
      } else {
        NextListed(old2, j, p2);
      }
    }
    hide Increasing;
    FollowExtends(diff, if removal then Removed(old1[p1], text1) else Added(old2[p2], text2), old1, old2);
  }

  lemma TogetherEnds(diff: seq<Edit>, old1: seq<nat>, old2: seq<nat>, i: nat, j: nat)
    requires Increasing(old1, i) && Increasing(old2, j) && Together(diff, old1, |old1|, old2, |old2|)
    ensures RunsTogether(diff, old1, old2)
  {
    if diff != [] {
      if Last(diff).Removed? {
        NextListed(old1, i, |old1|);
      } else {
        NextListed(old2, j, |old2|);
      }
    }
    forall u: nat | u < |diff| ensures FollowedBy(diff, u, old1, old2) {
      assert u + 1 == |diff| ==> diff[u] == Last(diff);
    }
  }

  /** The additions first, and the removals once all additions are printed. */
  ghost predicate InBlocks(w: seq<string>, b: seq<string>, diff: seq<Edit>, p1: nat, p2: nat, m: nat) {
    diff == AddedLines(b, 0, p2) + RemovedLines(w, 0, p1) && (p1 > 0 ==> p2 == m)
  }

  lemma AddedFirst(w: seq<string>, b: seq<string>, m: nat)
    ensures forall n: nat :: InBlocks(w, b, [], 0, 0, n)
  {
    assert AddedLines(b, 0, 0) + RemovedLines(w, 0, 0) == [];
  }

  lemma OneLineMore(w: seq<string>, n: nat)
    ensures RemovedLines(w, 0, n + 1) == RemovedLines(w, 0, n) + [Removed(n, LineAt(w, n))]
    ensures AddedLines(w, 0, n + 1) == AddedLines(w, 0, n) + [Added(n, LineAt(w, n))]
  {
  }

  lemma BlocksStep(w: seq<string>, b: seq<string>, diff: seq<Edit>, old1: seq<nat>, p1: nat, old2: seq<nat>, p2: nat,
                   mapping: map<nat, nat>, removal: bool)
    requires Diagonal(old1, old2, mapping, |old1|, |old1| + 1) && InBlocks(w, b, diff, p1, p2, |old1|)
    requires p1 <= |old1| && p2 <= |old2| && (p1 < |old1| || p2 < |old2|)
    requires Chosen(old1, p1, old2, p2, mapping, removal)
    ensures removal ==>
              p1 < |old1| && InBlocks(w, b, diff + [Removed(old1[p1], LineAt(w, old1[p1]))], p1 + 1, p2, |old1|)
    ensures !removal ==>
              p2 < |old2| && InBlocks(w, b, diff + [Added(old2[p2], LineAt(b, old2[p2]))], p1, p2 + 1, |old1|)
  {
    hide LineAt;
    OneLineMore(w, p1);
    OneLineMore(b, p2);
    assert RemovedLines(w, 0, 0) == [];
    if removal {
      assert p2 == |old2| && old1[p1] == p1;
      assert diff + [Removed(p1, LineAt(w, p1))]
          == AddedLines(b, 0, p2) + (RemovedLines(w, 0, p1) + [Removed(p1, LineAt(w, p1))]);
    } else {
      assert p1 == 0 && old2[p2] == p2;
      assert AddedLines(b, 0, p2) + [] + [Added(p2, LineAt(b, p2))] == AddedLines(b, 0, p2 + 1) + [];
    }
  }

  lemma BlocksEnd(w: seq<string>, b: seq<string>, diff: seq<Edit>, old1: seq<nat>, old2: seq<nat>,
                  mapping: map<nat, nat>)
    requires Diagonal(old1, old2, mapping, |old1|, |old1| + 1) && InBlocks(w, b, diff, |old1|, |old2|, |old1|)
    ensures diff == AddedLines(b, 0, |old1|) + RemovedLines(w, 0, |old1|)
  {
  }

  lemma NothingPrinted(kept: seq<(nat, nat)>, all1: seq<nat>, all2: seq<nat>)
    ensures Frontier(kept, [], all1, 0, all2, 0)
  {
  }

  /** The line number printed last on one side. */
  function LastKey(listed: seq<nat>, p: nat): int
    requires p <= |listed|
  {
    if p == 0 then -2 else listed[p - 1] + 1
  }

  method NextIsRemoval(old1: seq<nat>, p1: nat, l1: int, old2: seq<nat>, p2: nat, l2: int, mapping: map<nat, nat>,
                       ghost kept: seq<(nat, nat)>, ghost i: nat, ghost j: nat)
    returns (removal: bool)
    requires p1 <= |old1| && p2 <= |old2| && (p1 < |old1| || p2 < |old2|)
    requires l1 == LastKey(old1, p1) && l2 == LastKey(old2, p2)
    requires Increasing(old2, j) && Mapped(kept, old2, mapping, i, j + 1)
    ensures Chosen(old1, p1, old2, p2, mapping, removal)
  {
    if p1 < |old1| && (old1[p1] + 1 == l1 + 1 || p2 == |old2|) {
      removal := true;
    } else if p2 < |old2| && (old2[p2] + 1 == l2 + 1 || p1 == |old1|) {
      removal := false;
    } else {
      MappedAt(kept, old2, mapping, i, j, p2);
      removal := old1[p1] + 1 < mapping[old2[p2] + 1];
    }
  }

  lemma MappedAt(kept: seq<(nat, nat)>, old2: seq<nat>, mapping: map<nat, nat>, i: nat, j: nat, p: nat)
    requires p < |old2| && Increasing(old2, j) && Mapped(kept, old2, mapping, i, j + 1)
    ensures old2[p] + 1 in mapping && Splits(kept, old2[p], mapping[old2[p] + 1])
  {
    assert old2[p] in old2;
  }

  /** The choice the merge makes between the next removal and the next addition. */
  ghost predicate Chosen(old1: seq<nat>, p1: nat, old2: seq<nat>, p2: nat, mapping: map<nat, nat>, removal: bool)
    requires p1 < |old1| || p2 < |old2|
  {
    if p1 < |old1| && (p2 == |old2| || (p1 > 0 && old1[p1] == old1[p1 - 1] + 1)) then removal
    else if p2 < |old2| && (p1 == |old1| || (p2 > 0 && old2[p2] == old2[p2 - 1] + 1)) then !removal
    else
      && p1 < |old1| && p2 < |old2| && old2[p2] + 1 in mapping
      && removal == (old1[p1] + 1 < mapping[old2[p2] + 1])
  }

  lemma NextIsFree(kept: seq<(nat, nat)>, diff: seq<Edit>, old1: seq<nat>, p1: nat, old2: seq<nat>, p2: nat,
                   mapping: map<nat, nat>, i: nat, j: nat, n1: nat, n2: nat, removal: bool)
    requires i <= n1 && j <= n2 && Printable(kept, i, j, old1, old2, mapping)
    requires p1 <= |old1| && p2 <= |old2| && (p1 < |old1| || p2 < |old2|)
    requires Frontier(kept, diff, old1 + Range(i, n1), p1, old2 + Range(j, n2), p2)
    requires Chosen(old1, p1, old2, p2, mapping, removal)
    ensures var all1, all2 := old1 + Range(i, n1), old2 + Range(j, n2);
            && Increasing(all1, n1) && Increasing(all2, n2)
            && (removal ==> p1 < |old1| && (p2 < |all2| ==>
                 !MustPrecede(kept, Added(all2[p2], ""), Removed(all1[p1], ""))))
            && (!removal ==> p2 < |old2| && (p1 < |all1| ==>
                 !MustPrecede(kept, Removed(all1[p1], ""), Added(all2[p2], ""))))
  {
    var all1, all2 := old1 + Range(i, n1), old2 + Range(j, n2);
    if p1 < |old1| && p2 < |old2| {
      if p1 > 0 && old1[p1] == old1[p1 - 1] + 1 {
        ContinueRemovals(kept, diff, all1, p1, all2, p2);
      } else if p2 > 0 && old2[p2] == old2[p2 - 1] + 1 {
        ContinueAdditions(kept, diff, all1, p1, all2, p2);
      } else {
        MappedAt(kept, old2, mapping, i, j, p2);
      }
    }
  }

  lemma {:induction false} ComplementMembers(n: nat, listed: seq<nat>, x: nat)
    requires x in Complement(n, listed)
    ensures x < n && x !in listed
  {
    if n > 0 && x in Complement(n - 1, listed) {
      ComplementMembers(n - 1, listed, x);
    }
  }

  lemma AlignedIsPrintable(eq: Match<string>, a: seq<string>, b: seq<string>, i: nat, j: nat,
                           old1: seq<nat>, old2: seq<nat>, mapping: map<nat, nat>, kept: seq<(nat, nat)>)
    requires Aligned(eq, a, b, i, j, old1, old2, kept) && Mapped(kept, old2, mapping, i, j + 1)
    ensures Printable(kept, i, j, old1, old2, mapping)
  {
    forall k | 0 <= k < |kept| ensures kept[k].0 !in old1 && kept[k].1 !in old2 {
      assert Firsts(kept)[k] in Complement(i, old1);
      ComplementMembers(i, old1, kept[k].0);
      assert Seconds(kept)[k] in Complement(j, old2);
      ComplementMembers(j, old2, kept[k].1);
    }
  }

  lemma {:induction false} ComplementTail(lo: nat, hi: nat, listed: seq<nat>)
    requires lo <= hi && forall x | lo <= x < hi :: x in listed
    ensures Complement(hi, listed) == Complement(lo, listed)
  {
    if lo < hi {
      ComplementTail(lo, hi - 1, listed);
    }
  }

  /** Listing every line from `i` on leaves the complement as it was. */
  lemma RestIsListed(i: nat, n: nat, listed: seq<nat>)
    requires i <= n && Increasing(listed, i)
    ensures Complement(n, listed + Range(i, n)) == Complement(i, listed)
    ensures Increasing(listed + Range(i, n), n) && CountsUp(listed + Range(i, n), |listed|, i, n)
  {
    forall x | i <= x < n ensures x in listed + Range(i, n) {
      assert (listed + Range(i, n))[|listed| + (x - i)] == x;
    }
    ComplementTail(i, n, listed + Range(i, n));
    ComplementIgnores(i, listed, Range(i, n));
  }

  lemma {:induction false} EditCount(diff: seq<Edit>)
    ensures |diff| == |Removals(diff)| + |Additions(diff)|
  {
    if diff != [] {
      EditCount(Init(diff));
    }
  }

  lemma {:induction false} FullComplement(n: nat)
    ensures |Complement(n, [])| == n && forall k | 0 <= k < n :: Complement(n, [])[k] == k
  {
    if n > 0 {
      FullComplement(n - 1);
    }
  }

  /** A script without edits says that the texts match line by line. */
  lemma EmptyScript(eq: Match<string>, a: seq<string>, b: seq<string>, kept: seq<(nat, nat)>)
    requires Balanced(eq, a, b, [], kept)
    ensures |a| == |b| && SamePrefix(eq, a, b)
  {
    FullComplement(|a|);
    FullComplement(|b|);
    forall k | 0 <= k < |a| ensures eq(a[k], b[k]) {
      assert Firsts(kept)[k] == k && Seconds(kept)[k] == k;
    }
  }

  /** Nothing has to be printed before the lines that follow the last kept pair. */
  lemma TailIsFree(kept: seq<(nat, nat)>, i: nat, j: nat, e: Edit, f: Edit)
    requires forall k | 0 <= k < |kept| :: kept[k].0 < i && kept[k].1 < j
    requires e.Removed? ==> f.Added? && e.idx >= i
    requires e.Added? ==> f.Removed? && e.idx >= j
    ensures !MustPrecede(kept, e, f)
  {
  }

  /** From `p` on, `listed` counts up from `i`. */
  ghost predicate CountsUp(listed: seq<nat>, p: nat, i: nat, n: nat) {
    i <= n && |listed| == p + (n - i) && forall k | p <= k < |listed| :: listed[k] == i + (k - p)
  }

  lemma RemovedMore(w: seq<string>, i: nat, idx: nat, first: seq<Edit>)
    requires i <= idx
    ensures first + RemovedLines(w, i, idx + 1) == first + RemovedLines(w, i, idx) + [Removed(idx, LineAt(w, idx))]
  {
  }

  lemma AddedMore(b: seq<string>, j: nat, idx: nat, first: seq<Edit>)
    requires j <= idx
    ensures first + AddedLines(b, j, idx + 1) == first + AddedLines(b, j, idx) + [Added(idx, LineAt(b, idx))]
  {
  }

  method PrintRemovedTail(w: seq<string>, b: seq<string>, first: seq<Edit>, i: nat, n1: nat,
                          ghost all1: seq<nat>, ghost p1: nat, ghost kept: seq<(nat, nat)>,
                          ghost j: nat, ghost n2: nat, ghost all2: seq<nat>, ghost p2: nat)
    returns (diff: seq<Edit>)
    requires Increasing(all1, n1) && Increasing(all2, n2) && CountsUp(all1, p1, i, n1)
    requires p2 < |all2| ==> all2[p2] >= j
    requires forall k | 0 <= k < |kept| :: kept[k].0 < i && kept[k].1 < j
    requires Frontier(kept, first, all1, p1, all2, p2) && Texts(w, b, first)
    ensures Frontier(kept, diff, all1, |all1|, all2, p2) && Texts(w, b, diff)
    ensures diff == first + RemovedLines(w, i, n1)
  {
    hide Frontier, Increasing, MustPrecede, LineAt;
    diff := first;
    for idx := i to n1
      invariant Frontier(kept, diff, all1, p1 + (idx - i), all2, p2) && Texts(w, b, diff)
      invariant diff == first + RemovedLines(w, i, idx)
    {
      RemovedMore(w, i, idx, first);
      if p2 < |all2| {
        TailIsFree(kept, i, j, Added(all2[p2], ""), Removed(idx, ""));
      }
      EmitRemoval(kept, diff, all1, p1 + (idx - i), all2, p2, n1, n2, LineAt(w, idx));
      diff := diff + [Removed(idx, LineAt(w, idx))];
    }
  }

  method PrintAddedTail(w: seq<string>, b: seq<string>, first: seq<Edit>, j: nat,
                        ghost all2: seq<nat>, ghost p2: nat, ghost kept: seq<(nat, nat)>,
                        ghost n1: nat, ghost all1: seq<nat>)
    returns (diff: seq<Edit>)
    requires Increasing(all1, n1) && Increasing(all2, |b|) && CountsUp(all2, p2, j, |b|)
    requires Frontier(kept, first, all1, |all1|, all2, p2) && Texts(w, b, first)
    ensures Frontier(kept, diff, all1, |all1|, all2, |all2|) && Texts(w, b, diff)
    ensures diff == first + AddedLines(b, j, |b|)
  {
    hide Frontier, Increasing, MustPrecede, LineAt;
    diff := first;
    for idx := j to |b|
      invariant Frontier(kept, diff, all1, |all1|, all2, p2 + (idx - j)) && Texts(w, b, diff)
      invariant diff == first + AddedLines(b, j, idx)
    {
      AddedMore(b, j, idx, first);
      EmitAddition(kept, diff, all1, |all1|, all2, p2 + (idx - j), n1, |b|, LineAt(b, idx));
      diff := diff + [Added(idx, LineAt(b, idx))];
    }
  }

  lemma EverythingPrinted(kept: seq<(nat, nat)>, diff: seq<Edit>, all1: seq<nat>, all2: seq<nat>)
    requires Frontier(kept, diff, all1, |all1|, all2, |all2|)
    ensures Removals(diff) == all1 && Additions(diff) == all2 && InOrder(kept, diff)
  {
    assert all1[..|all1|] == all1 && all2[..|all2|] == all2;
  }

  /** A script that prints everything listed keeps exactly the aligned pairs. */
  lemma PrintedIsBalanced(eq: Match<string>, a: seq<string>, b: seq<string>, i: nat, j: nat,
                          old1: seq<nat>, old2: seq<nat>, kept: seq<(nat, nat)>, diff: seq<Edit>)
    requires Aligned(eq, a, b, i, j, old1, old2, kept)
    requires Removals(diff) == old1 + Range(i, |a|) && Additions(diff) == old2 + Range(j, |b|)
    ensures Balanced(eq, a, b, diff, kept)
    ensures |diff| == |old1| + (|a| - i) + |old2| + (|b| - j)
  {
    RestIsListed(i, |a|, old1);
    RestIsListed(j, |b|, old2);
    EditCount(diff);
  }

  /**
   The diff of the wanted lines `a` and the output lines `b`; `w` holds the wanted lines as
   printed. No context lines are requested.
   */
  method GenerateArrayDiff(eq: Match<string>, a: seq<string>, b: seq<string>, w: seq<string>)
    returns (diff: seq<Edit>, ghost kept: seq<(nat, nat)>, ghost merged: seq<Edit>)
    ensures Balanced(eq, a, b, diff, kept) && kept == Alignment(eq, a, b, 0, 0)
    ensures InOrder(kept, diff)
    ensures Texts(w, b, diff) && OwnTexts(a, b, w, diff)
    ensures diff == [] <==> |a| == |b| && SamePrefix(eq, a, b)
    ensures RunsTogether(merged, Removals(merged), Additions(merged))
    ensures exists i: nat, j: nat :: OneTail(diff, merged, w, b, |a|, i, j)
    ensures NoneMatch(eq, a, b) ==>
              var m := if |a| < |b| then |a| else |b|;
              diff == AddedLines(b, 0, m) + RemovedLines(w, 0, m) + RemovedLines(w, m, |a|) + AddedLines(b, m, |b|)
  {
    var i, j, old1, old2, mapping;
    i, j, old1, old2, mapping, kept := Align(eq, a, b);
    hide Frontier, MustPrecede, InOrder, Mapped, Texts, Increasing, IsCommon, Balanced, Range, SamePrefix;
    hide RunsTogether, NoneMatch, Alignment, AddedLines, RemovedLines, Diagonal, OwnTexts;
    AlignedIsPrintable(eq, a, b, i, j, old1, old2, mapping, kept);
    diff := MergeEdits(w, b, old1, old2, mapping, kept, i, j, |a|, |b|);
    merged := diff;
    ghost var all1, all2 := old1 + Range(i, |a|), old2 + Range(j, |b|);
    MergedLists(kept, merged, all1, old1, all2, old2);
    RestIsListed(i, |a|, old1);
    RestIsListed(j, |b|, old2);
    diff := PrintRemovedTail(w, b, diff, i, |a|, all1, |old1|, kept, j, |b|, all2, |old2|);
    diff := PrintAddedTail(w, b, diff, j, all2, |old2|, kept, |a|, all1);
    EverythingPrinted(kept, diff, all1, all2);
    PrintedIsBalanced(eq, a, b, i, j, old1, old2, kept, diff);
    TextsAreOwn(eq, a, b, w, diff, kept);
    if diff == [] {
      EmptyScript(eq, a, b, kept);
    }
    assert OneTail(diff, merged, w, b, |a|, i, j);
    if NoneMatch(eq, a, b) {
      DiagonalLength(old1, old2, mapping, i);
    }
  }

  /** After the merged edits come the rest of the wanted lines from `i` or that of the output lines from `j`. */
  ghost predicate OneTail(diff: seq<Edit>, merged: seq<Edit>, w: seq<string>, b: seq<string>, n1: nat, i: nat, j: nat) {
    && i <= n1 && j <= |b| && (i == n1 || j == |b|)
    && diff == merged + RemovedLines(w, i, n1) + AddedLines(b, j, |b|)
  }

  /** An edit has the text of its own line: as wanted, if it is removed, and as output, if it is added. */
  ghost predicate OwnTexts(a: seq<string>, b: seq<string>, w: seq<string>, diff: seq<Edit>) {
    forall k | 0 <= k < |diff| ::
      && (diff[k].Added? ==> diff[k].idx < |b| && diff[k].text == b[diff[k].idx])
      && (diff[k].Removed? ==> diff[k].idx < |a| && (diff[k].idx < |w| ==> diff[k].text == w[diff[k].idx]))
  }

  lemma {:induction false} EditsAreListed(diff: seq<Edit>, k: nat)
    requires k < |diff|
    ensures diff[k].Removed? ==> diff[k].idx in Removals(diff)
    ensures diff[k].Added? ==> diff[k].idx in Additions(diff)
    decreases |diff|
  {
    if k < |diff| - 1 {
      assert Init(diff)[k] == diff[k];
      EditsAreListed(Init(diff), k);
    }
  }

  lemma TextsAreOwn(eq: Match<string>, a: seq<string>, b: seq<string>, w: seq<string>, diff: seq<Edit>,
                    kept: seq<(nat, nat)>)
    requires Balanced(eq, a, b, diff, kept) && Texts(w, b, diff)
    ensures OwnTexts(a, b, w, diff)
  {
    hide IsCommon, Complement;
    forall k | 0 <= k < |diff|
      ensures diff[k].Added? ==> diff[k].idx < |b| && diff[k].text == b[diff[k].idx]
      ensures diff[k].Removed? ==> diff[k].idx < |a| && (diff[k].idx < |w| ==> diff[k].text == w[diff[k].idx])
    {
      EditsAreListed(diff, k);
    }
  }

  lemma DiagonalLength(old1: seq<nat>, old2: seq<nat>, mapping: map<nat, nat>, m: nat)
    requires Diagonal(old1, old2, mapping, m, m + 1)
    ensures |old1| == m
  {
  }

  lemma MergedLists(kept: seq<(nat, nat)>, diff: seq<Edit>, all1: seq<nat>, old1: seq<nat>,
                    all2: seq<nat>, old2: seq<nat>)
    requires Frontier(kept, diff, all1, |old1|, all2, |old2|) && old1 <= all1 && old2 <= all2
    ensures Removals(diff) == old1 && Additions(diff) == old2
  {
  }
}

/** The order in which the scheduler sends out tests that have conflict keys in common. */
module SchedulerOrder {
  import opened Options
  import opened Sequences
  import opened Scheduler

  /** Without shuffling, the stack is the reverse of the tests given. */
  ghost predicate OrderedStart(c: Setup, tests: seq<string>, s: State) {
    Start(c, tests, s) && s.pending == Reverse(Filter(NotExclusive(c), tests))
  }

  /******* Groups of tests *******/

  predicate Meet(c: Setup, t: string, u: string) {
    exists x :: x in Keys(c, t) && x in Keys(c, u)
  }

  /** Tests that are not exclusive and any two of which have a key in common. */
  ghost predicate Group(c: Setup, p: string -> bool) {
    forall t, u :: p(t) && p(u) ==> !Exclusive(c, t) && Meet(c, t, u)
  }

  /** A test that can run beside others and holds back a test of the group. */
  ghost predicate Rival(c: Setup, p: string -> bool, v: string) {
    !Exclusive(c, v) && exists t :: p(t) && Meet(c, v, t)
  }

  /** Rivals never run on two workers at once. */
  ghost predicate OneAtATime(c: Setup, p: string -> bool) {
    forall v, w :: Rival(c, p, v) && Rival(c, p, w) ==> Meet(c, v, w)
  }

  /** The keys in use while `v` and `w` run. */
  function HeldBy(c: Setup, v: string, w: string): map<string, int> {
    map x | x in Keys(c, v) + Keys(c, w) :: 0
  }

  /** `t` and `u` are parked under the same key while `v` and `w` run. */
  predicate SameGate(c: Setup, t: string, u: string, v: string, w: string) {
    Blocker(Keys(c, t), HeldBy(c, v, w)) == Blocker(Keys(c, u), HeldBy(c, v, w))
  }

  ghost predicate OtherRival(c: Setup, p: string -> bool, v: string, t: string, u: string) {
    Rival(c, p, v) && v != t && v != u
  }

  /** Whichever two other rivals run, the tests of the group are parked under the same key. */
  ghost predicate OneGate(c: Setup, p: string -> bool) {
    forall t, u, v, w :: p(t) && p(u) && OtherRival(c, p, v, t, u) && OtherRival(c, p, w, t, u) ==>
      SameGate(c, t, u, v, w)
  }

  /** The same where a test may be given twice, so that it can hold itself back. */
  ghost predicate OneGateAlways(c: Setup, p: string -> bool) {
    forall t, u, v, w :: p(t) && p(u) && Rival(c, p, v) && Rival(c, p, w) ==> SameGate(c, t, u, v, w)
  }

  ghost predicate NoRepeats(ts: multiset<string>) {
    forall t :: ts[t] <= 1
  }

  ghost predicate Steady(c: Setup, p: string -> bool, ts: multiset<string>) {
    && Group(c, p) && OneAtATime(c, p)
    && (OneGateAlways(c, p) || (OneGate(c, p) && NoRepeats(ts)))
  }

  /******* Queues *******/

  /** The tests `p` selects that `k` holds back: those parked under `k`, then those in the stack. */
  ghost function Queue(p: string -> bool, k: string, waiting: map<string, seq<string>>,
                       pending: seq<string>): seq<string>
  {
    Filter(p, Waiting(waiting, k)) + Filter(p, Reverse(pending))
  }

  /** The selected tests are parked under `k` only. */
  ghost predicate ParkedUnder(p: string -> bool, k: string, waiting: map<string, seq<string>>) {
    forall x, t :: x in waiting && t in waiting[x] && p(t) ==> x == k
  }

  lemma ReleaseSame(p: string -> bool, s: State, k: string)
    ensures Queue(p, k, ReleaseKey(s, k).waiting, ReleaseKey(s, k).pending) == Queue(p, k, s.waiting, s.pending)
  {
    assert Filter(p, Waiting(s.waiting - {k}, k)) == [];
    hide Filter, Reverse;
    Released(p, s.pending, Waiting(s.waiting, k));
  }

  lemma ReleaseOther(p: string -> bool, s: State, j: string, k: string)
    requires j != k && forall t | t in Waiting(s.waiting, j) :: !p(t)
    ensures Queue(p, k, ReleaseKey(s, j).waiting, ReleaseKey(s, j).pending) == Queue(p, k, s.waiting, s.pending)
  {
    hide Filter, Reverse;
    FilterNone(p, Waiting(s.waiting, j));
    Released(p, s.pending, Waiting(s.waiting, j));
    assert Waiting(s.waiting - {j}, k) == Waiting(s.waiting, k);
  }

  lemma Released(p: string -> bool, pending: seq<string>, parked: seq<string>)
    ensures Filter(p, Reverse(pending + Reverse(parked))) == Filter(p, parked) + Filter(p, Reverse(pending))
  {
    hide Filter, Reverse;
    ReverseAppend(pending, Reverse(parked));
    ReverseTwice(parked);
    FilterAppend(p, parked, Reverse(pending));
  }

  /** Releasing keys keeps the queue. */
  lemma {:induction false} ReleaseKeysOrder(p: string -> bool, s: State, keys: seq<string>, k: string)
    requires ParkedUnder(p, k, s.waiting)
    ensures Queue(p, k, ReleaseKeys(s, keys).waiting, ReleaseKeys(s, keys).pending) == Queue(p, k, s.waiting, s.pending)
    decreases |keys|
  {
    if keys != [] {
      if keys[0] == k {
        ReleaseSame(p, s, k);
      } else {
        assert forall t | t in Waiting(s.waiting, keys[0]) :: !p(t);
        ReleaseOther(p, s, keys[0], k);
      }
      hide Queue;
      ReleaseKeysOrder(p, ReleaseKey(s, keys[0]), keys[1..], k);
    }
  }

  lemma SequentialOrder(c: Setup, p: string -> bool, s: State, k: string)
    requires ExclusiveOk(c, s) && Group(c, p)
    ensures Queue(p, k, TakeSequential(s).waiting, TakeSequential(s).pending) == Queue(p, k, s.waiting, s.pending)
  {
    hide Filter, Reverse;
    forall t | t in s.sequential ensures !p(t) {
      assert Exclusive(c, t);
    }
    NoneAdded(p, s.pending, s.sequential);
  }

  lemma NoneAdded(p: string -> bool, pending: seq<string>, more: seq<string>)
    requires forall t | t in more :: !p(t)
    ensures Filter(p, Reverse(pending + more)) == Filter(p, Reverse(pending))
  {
    ReverseAppend(pending, more);
    FilterAppend(p, Reverse(more), Reverse(pending));
    FilterReverse(p, more);
    FilterNone(p, more);
  }

  function One(p: string -> bool, t: string): seq<string> {
    if p(t) then [t] else []
  }

  lemma TopFiltered(p: string -> bool, pending: seq<string>)
    requires pending != []
    ensures Filter(p, Reverse(pending)) ==
            One(p, pending[|pending| - 1]) + Filter(p, Reverse(pending[..|pending| - 1]))
  {
    var t, rest := pending[|pending| - 1], pending[..|pending| - 1];
    assert pending == rest + [t];
    ReverseAppend(rest, [t]);
    assert Reverse([t]) == [t];
    FilterAppend(p, [t], Reverse(rest));
    assert Filter(p, [t]) == One(p, t);
  }

  lemma PushFiltered(p: string -> bool, ts: seq<string>, t: string)
    ensures Filter(p, ts + [t]) == Filter(p, ts) + One(p, t)
  {
    FilterAppend(p, ts, [t]);
    assert Filter(p, [t]) == One(p, t);
  }

  /** The selected tests of a round, in the order they will have been sent. */
  ghost function RoundLine(p: string -> bool, k: string, r: Round): seq<string> {
    Filter(p, r.files) + Queue(p, k, r.waiting, r.pending)
  }

  lemma ParkOne(p: string -> bool, r: Round, k: string)
    requires r.pending != [] && p(r.pending[|r.pending| - 1])
    ensures var t, rest := r.pending[|r.pending| - 1], r.pending[..|r.pending| - 1];
            RoundLine(p, k, Round(rest, r.waiting[k := Waiting(r.waiting, k) + [t]], r.files)) == RoundLine(p, k, r)
  {
    hide Filter, Reverse;
    var t, rest := r.pending[|r.pending| - 1], r.pending[..|r.pending| - 1];
    TopFiltered(p, r.pending);
    PushFiltered(p, Waiting(r.waiting, k), t);
    var parked, stacked := Filter(p, Waiting(r.waiting, k)), Filter(p, Reverse(rest));
    assert parked + ([t] + stacked) == (parked + [t]) + stacked;
  }

  lemma TakeOne(p: string -> bool, r: Round, k: string)
    requires r.pending != [] && p(r.pending[|r.pending| - 1]) && Filter(p, Waiting(r.waiting, k)) == []
    ensures var t, rest := r.pending[|r.pending| - 1], r.pending[..|r.pending| - 1];
            RoundLine(p, k, Round(rest, r.waiting, r.files + [t])) == RoundLine(p, k, r)
  {
    hide Filter, Reverse;
    var t, rest := r.pending[|r.pending| - 1], r.pending[..|r.pending| - 1];
    TopFiltered(p, r.pending);
    PushFiltered(p, r.files, t);
    Slide(Filter(p, r.files), t, Filter(p, Reverse(rest)));
  }

  lemma Slide(files: seq<string>, t: string, stacked: seq<string>)
    ensures (files + [t]) + ([] + stacked) == files + ([] + ([t] + stacked))
  {
  }

  lemma PassOther(p: string -> bool, r: Round, k: string, b: string)
    requires r.pending != [] && !p(r.pending[|r.pending| - 1])
    ensures var t, rest := r.pending[|r.pending| - 1], r.pending[..|r.pending| - 1];
            && RoundLine(p, k, Round(rest, r.waiting, r.files + [t])) == RoundLine(p, k, r)
            && RoundLine(p, k, Round(rest, r.waiting[b := Waiting(r.waiting, b) + [t]], r.files))
               == RoundLine(p, k, r)
  {
    hide Filter, Reverse;
    var t, rest := r.pending[|r.pending| - 1], r.pending[..|r.pending| - 1];
    TopFiltered(p, r.pending);
    PushFiltered(p, Waiting(r.waiting, k), t);
    PushFiltered(p, r.files, t);
    assert Filter(p, Reverse(r.pending)) == Filter(p, Reverse(rest));
    assert Filter(p, r.files + [t]) == Filter(p, r.files);
    assert Filter(p, Waiting(r.waiting, k) + [t]) == Filter(p, Waiting(r.waiting, k));
  }

  /** All tests of the group that are pending have the blocker `b`, and the parked ones wait for it. */
  ghost predicate Gated(c: Setup, p: string -> bool, holders: map<string, int>, r: Round, b: Option<string>) {
    && (forall t | t in r.pending :: p(t) ==> Blocker(Keys(c, t), holders) == b)
    && (forall x, t :: x in r.waiting && t in r.waiting[x] && p(t) ==> b == Some(x))
  }

  function GateKey(b: Option<string>): string {
    if b.Some? then b.value else ""
  }

  lemma NoneParked(p: string -> bool, waiting: map<string, seq<string>>, k: string)
    requires forall x, t :: x in waiting && t in waiting[x] ==> !p(t)
    ensures Filter(p, Waiting(waiting, k)) == []
  {
    FilterNone(p, Waiting(waiting, k));
  }

  lemma PopGated(c: Setup, p: string -> bool, holders: map<string, int>, r: Round, b: Option<string>)
    requires Gated(c, p, holders, r, b) && r.pending != []
    ensures Gated(c, p, holders, Pop(c, holders, r), b)
  {
    var t, rest := r.pending[|r.pending| - 1], r.pending[..|r.pending| - 1];
    assert t in r.pending && forall u | u in rest :: u in r.pending;
  }

  /** A batch takes from the front of the queue of a free group, and nothing from that of a blocked one. */
  lemma PopOrder(c: Setup, p: string -> bool, holders: map<string, int>, r: Round, b: Option<string>)
    requires Gated(c, p, holders, r, b) && r.pending != []
    ensures RoundLine(p, GateKey(b), Pop(c, holders, r)) == RoundLine(p, GateKey(b), r)
  {
    hide RoundLine, Blocker;
    var t := r.pending[|r.pending| - 1];
    assert t in r.pending;
    if !p(t) {
      var o := Blocker(Keys(c, t), holders);
      PassOther(p, r, GateKey(b), if o.Some? then o.value else "");
    } else if b.Some? {
      ParkOne(p, r, b.value);
    } else {
      NoneParked(p, r.waiting, "");
      TakeOne(p, r, "");
    }
  }

  lemma {:induction false} ComposeOrder(c: Setup, p: string -> bool, holders: map<string, int>, r: Round, size: nat,
                                        b: Option<string>)
    requires Gated(c, p, holders, r, b)
    ensures RoundLine(p, GateKey(b), Compose(c, holders, r, size)) == RoundLine(p, GateKey(b), r)
    ensures Gated(c, p, holders, Compose(c, holders, r, size), b)
    decreases |r.pending|
  {
    hide RoundLine, Gated, Pop;
    if |r.files| <= size && r.pending != [] {
      PopGated(c, p, holders, r, b);
      PopOrder(c, p, holders, r, b);
      assert |Pop(c, holders, r).pending| < |r.pending| by {
        PopShrinks(c, holders, r);
      }
      ComposeOrder(c, p, holders, Pop(c, holders, r), size, b);
    }
  }

  lemma PopShrinks(c: Setup, holders: map<string, int>, r: Round)
    requires r.pending != []
    ensures |Pop(c, holders, r).pending| == |r.pending| - 1
  {
  }

  /******* One gate at a time *******/

  /** No exclusive test is running. */
  ghost predicate OrdinaryBusy(c: Setup, busy: map<int, seq<string>>) {
    forall i, v :: i in busy && v in busy[i] ==> !Exclusive(c, v)
  }

  /** A key in use belongs to a running test, all of whose keys are held by its worker. */
  lemma HolderTest(c: Setup, s: State, x: string) returns (v: string)
    requires HoldersOk(c, s.holders, s.busy) && x in s.holders
    ensures s.holders[x] in s.busy && v in s.busy[s.holders[x]] && x in Keys(c, v)
    ensures forall y | y in Keys(c, v) :: Lookup(s.holders, y) == Some(s.holders[x])
  {
    var i := s.holders[x];
    v :| v in s.busy[i] && x in Keys(c, v);
    forall y | y in Keys(c, v) ensures Lookup(s.holders, y) == Some(i) {
      assert y in AllKeys(c, s.busy[i]);
    }
  }

  lemma {:induction false} BlockerWithin(keys: seq<string>, h: map<string, int>, h': map<string, int>)
    requires h'.Keys <= h.Keys
    requires Blocker(keys, h).Some? ==> Blocker(keys, h).value in h'
    ensures Blocker(keys, h') == Blocker(keys, h)
  {
    if keys != [] && keys[0] !in h {
      BlockerWithin(keys[1..], h, h');
    }
  }

  lemma {:induction false} BlockerSame(keys: seq<string>, h: map<string, int>, h': map<string, int>)
    requires forall x | x in keys :: x in h <==> x in h'
    ensures Blocker(keys, h) == Blocker(keys, h')
  {
    if keys != [] && keys[0] !in h {
      BlockerSame(keys[1..], h, h');
    }
  }

  lemma SharesKey(c: Setup, p: string -> bool, v: string, t: string, x: string)
    requires !Exclusive(c, v) && p(t) && x in Keys(c, v) && x in Keys(c, t)
    ensures Rival(c, p, v)
  {
    assert Meet(c, v, t);
  }

  /** A running test that has a key of a test of the group is a rival. */
  lemma HolderIsRival(c: Setup, p: string -> bool, s: State, t: string, x: string) returns (v: string)
    requires HoldersOk(c, s.holders, s.busy) && OrdinaryBusy(c, s.busy)
    requires p(t) && x in Keys(c, t) && x in s.holders
    ensures s.holders[x] in s.busy && v in s.busy[s.holders[x]] && x in Keys(c, v) && Rival(c, p, v)
    ensures forall y | y in Keys(c, v) :: Lookup(s.holders, y) == Some(s.holders[x])
  {
    hide HoldersOk, Exclusive;
    v := HolderTest(c, s, x);
    var i := s.holders[x];
    assert i in s.busy && v in s.busy[i];
    assert !Exclusive(c, v);
    SharesKey(c, p, v, t, x);
  }

  /** While rivals run one at a time, the keys in use of a group belong to one worker. */
  lemma OneHolder(c: Setup, p: string -> bool, s: State, t: string, x: string, u: string, y: string)
    requires OneAtATime(c, p) && HoldersOk(c, s.holders, s.busy) && OrdinaryBusy(c, s.busy)
    requires p(t) && x in Keys(c, t) && x in s.holders
    requires p(u) && y in Keys(c, u) && y in s.holders
    ensures s.holders[x] == s.holders[y]
  {
    var v := HolderIsRival(c, p, s, t, x);
    var w := HolderIsRival(c, p, s, u, y);
    assert Meet(c, v, w);
    var z :| z in Keys(c, v) && z in Keys(c, w);
    assert Lookup(s.holders, z) == Some(s.holders[x]) && Lookup(s.holders, z) == Some(s.holders[y]);
  }

  /** Tests apart from the running ones are parked under the same key. */
  lemma BothBlocked(c: Setup, s: State, t: string, u: string, v: string, w: string, x: string)
    requires HoldersOk(c, s.holders, s.busy) && SameGate(c, t, u, v, w)
    requires forall y | y in Keys(c, v) + Keys(c, w) :: y in s.holders
    requires Blocker(Keys(c, t), s.holders) == Some(x) && x in Keys(c, v)
    requires var b := Blocker(Keys(c, u), s.holders); b.Some? ==> b.value in Keys(c, w)
    ensures Blocker(Keys(c, u), s.holders) == Some(x)
  {
    var held := HeldBy(c, v, w);
    BlockerWithin(Keys(c, t), s.holders, held);
    BlockerWithin(Keys(c, u), s.holders, held);
  }

  lemma BlockedTogether(c: Setup, p: string -> bool, s: State, t: string, u: string)
    requires Steady(c, p, AllTests(s)) && HoldersOk(c, s.holders, s.busy) && OrdinaryBusy(c, s.busy)
    requires p(t) && p(u) && t in Undispatched(s) && u in Undispatched(s)
    requires Blocker(Keys(c, t), s.holders).Some?
    ensures Blocker(Keys(c, u), s.holders) == Blocker(Keys(c, t), s.holders)
  {
    hide HoldersOk, OrdinaryBusy, Group, OneAtATime, Rival, SameGate, NoRepeats, AllTests, Undispatched, Keys;
    var b := Blocker(Keys(c, u), s.holders);
    var x := Blocker(Keys(c, t), s.holders).value;
    var v := RunningRival(c, p, s, t, x, t, u);
    var w := v;
    if b.Some? {
      w := RunningRival(c, p, s, u, b.value, t, u);
    }
    assert SameGate(c, t, u, v, w);
    BothBlocked(c, s, t, u, v, w, x);
  }

  /** A running rival that holds `x`, apart from the tests `t` and `u` still to be sent. */
  lemma RunningRival(c: Setup, p: string -> bool, s: State, h: string, x: string, t: string, u: string)
    returns (v: string)
    requires HoldersOk(c, s.holders, s.busy) && OrdinaryBusy(c, s.busy)
    requires p(h) && x in Keys(c, h) && x in s.holders && t in Undispatched(s) && u in Undispatched(s)
    ensures Rival(c, p, v) && x in Keys(c, v) && forall y | y in Keys(c, v) :: y in s.holders
    ensures NoRepeats(AllTests(s)) ==> v != t && v != u
  {
    v := HolderIsRival(c, p, s, h, x);
    RunningApart(c, s, s.holders[x], v, t, u);
    forall y | y in Keys(c, v) ensures y in s.holders {
      assert Lookup(s.holders, y).Some?;
    }
  }

  /** A running test is not one still to be sent, unless it was given twice. */
  lemma RunningApart(c: Setup, s: State, i: int, v: string, t: string, u: string)
    requires i in s.busy && v in s.busy[i] && t in Undispatched(s) && u in Undispatched(s)
    ensures NoRepeats(AllTests(s)) ==> v != t && v != u
  {
    GatherHas(s.busy, i, v);
    assert v == t || v == u ==> AllTests(s)[v] >= Undispatched(s)[v] + Gather(s.busy)[v] >= 2;
  }

  /******* Steps *******/

  /** Exclusive tests run only while nothing is parked. */
  ghost predicate Alone(c: Setup, s: State) {
    s.waiting != map[] ==> OrdinaryBusy(c, s.busy)
  }

  /** Parked tests of the group are parked under `k`, the first of their keys in use. */
  ghost predicate Queued(c: Setup, p: string -> bool, s: State, k: string) {
    forall x, t :: x in s.waiting && t in s.waiting[x] && p(t) ==> x == k && Blocker(Keys(c, t), s.holders) == Some(k)
  }

  /** What was sent of the group, followed by what is to be sent. */
  ghost function Line(p: string -> bool, k: string, s: State): seq<string> {
    Filter(p, s.log) + Queue(p, k, s.waiting, s.pending)
  }

  lemma FreedQueued(c: Setup, p: string -> bool, s: State, m: Message, k: string)
    requires Invariant(c, s) && Alone(c, s) && Enabled(s, m) && OneAtATime(c, p) && Queued(c, p, s, k)
    ensures Queued(c, p, Freed(s, m), k)
  {
    if m.Finished? {
      var d := Freed(s, m);
      forall x, t | x in d.waiting && t in d.waiting[x] && p(t)
        ensures x == k && Blocker(Keys(c, t), d.holders) == Some(k)
      {
        assert x in s.waiting && s.waiting[x] == d.waiting[x];
        forall y | y in Keys(c, t) ensures y in s.holders <==> y in d.holders {
          if y in s.holders {
            OneHolder(c, p, s, t, k, t, y);
          }
        }
        BlockerSame(Keys(c, t), s.holders, d.holders);
      }
    }
  }

  lemma FreedOrder(c: Setup, p: string -> bool, s: State, m: Message, k: string)
    requires Enabled(s, m) && Queued(c, p, s, k)
    ensures Line(p, k, Freed(s, m)) == Line(p, k, s)
  {
    if m.Finished? {
      ReleaseKeysOrder(p, Finish(s, m.worker), m.keys, k);
    }
  }

  /** Where an idle worker asks for tests no exclusive test is running. */
  lemma IdleMeansOrdinary(c: Setup, s: State, i: int)
    requires Invariant(c, s) && i in s.live && i !in s.busy
    ensures OrdinaryBusy(c, s.busy)
  {
    forall j, v | j in s.busy && v in s.busy[j] ensures !Exclusive(c, v) {
      GatherHas(s.busy, j, v);
      assert v in Undispatched(s) + Gather(s.busy);
      assert {i, j} <= s.live && |s.live - {i, j}| == |s.live| - 2;
    }
  }

  lemma FreeOrOrdinary(c: Setup, s: State, i: int)
    requires Invariant(c, s) && i in s.live && i !in s.busy
    ensures s.holders == map[] || NoExclusive(c, s.pending)
  {
    if t :| t in s.pending && Exclusive(c, t) {
      assert t in Undispatched(s) + Gather(s.busy);
      assert |s.live - {i}| == |s.live| - 1;
      assert s.busy.Keys <= s.live - {i};
      assert s.busy.Keys == {};
      assert s.holders.Keys == {};
    }
  }

  ghost predicate NoExclusive(c: Setup, ts: seq<string>) {
    forall t | t in ts :: !Exclusive(c, t)
  }

  /** The common blocker of the tests of the group that are still to be sent. */
  lemma CommonBlocker(c: Setup, p: string -> bool, s: State, k: string) returns (b: Option<string>)
    requires Steady(c, p, AllTests(s)) && HoldersOk(c, s.holders, s.busy) && OrdinaryBusy(c, s.busy)
    requires Queued(c, p, s, k)
    ensures Gated(c, p, s.holders, Round(s.pending, s.waiting, []), b)
  {
    if t :| p(t) && t in Undispatched(s) && Blocker(Keys(c, t), s.holders).Some? {
      b := Blocker(Keys(c, t), s.holders);
      forall u | u in s.pending && p(u) ensures Blocker(Keys(c, u), s.holders) == b {
        BlockedTogether(c, p, s, t, u);
      }
      forall x, u | x in s.waiting && u in s.waiting[x] && p(u) ensures b == Some(x) {
        GatherHas(s.waiting, x, u);
        BlockedTogether(c, p, s, t, u);
      }
    } else {
      b := None;
      forall u | u in s.pending && p(u) ensures Blocker(Keys(c, u), s.holders) == None {
        assert u in Undispatched(s);
      }
      forall x, u | x in s.waiting && u in s.waiting[x] ensures !p(u) {
        GatherHas(s.waiting, x, u);
        assert u in Undispatched(s);
      }
    }
  }

  lemma DispatchOrder(c: Setup, p: string -> bool, s: State, i: int, k: string, b: Option<string>)
    requires i in s.live && Queued(c, p, s, k)
    requires Gated(c, p, s.holders, Round(s.pending, s.waiting, []), b)
    ensures Line(p, GateKey(b), Dispatch(c, s, i)) == Line(p, k, s)
  {
    SameQueue(c, p, s, k, b);
    ComposeOrder(c, p, s.holders, Round(s.pending, s.waiting, []), BatchSize(c, LiveCount(s)), b);
    var r, g := Batch(c, s), GateKey(b);
    FilterAppend(p, s.log, r.files);
    Reassociate(Filter(p, s.log), Filter(p, r.files),
                Queue(p, g, r.waiting, r.pending), Queue(p, g, s.waiting, s.pending));
  }

  lemma SameQueue(c: Setup, p: string -> bool, s: State, k: string, b: Option<string>)
    requires Queued(c, p, s, k) && Gated(c, p, s.holders, Round(s.pending, s.waiting, []), b)
    ensures Queue(p, GateKey(b), s.waiting, s.pending) == Queue(p, k, s.waiting, s.pending)
  {
    if GateKey(b) != k {
      FilterNone(p, Waiting(s.waiting, k));
      FilterNone(p, Waiting(s.waiting, GateKey(b)));
    }
  }

  lemma Reassociate(log: seq<string>, files: seq<string>, after: seq<string>, before: seq<string>)
    requires files + after == [] + before
    ensures (log + files) + after == log + before
    ensures files == [] ==> log + after == log + before
  {
    assert [] + before == before;
    assert (log + files) + after == log + (files + after);
  }

  /** While the group is blocked every rival is. */
  lemma RivalIsBlocked(c: Setup, p: string -> bool, s: State, f: string, t: string, x: string)
    requires OneAtATime(c, p) && HoldersOk(c, s.holders, s.busy) && OrdinaryBusy(c, s.busy)
    requires Rival(c, p, f) && p(t) && x in Keys(c, t) && x in s.holders
    ensures Blocker(Keys(c, f), s.holders).Some?
  {
    var v := HolderIsRival(c, p, s, t, x);
    hide HoldersOk, Rival;
    assert Meet(c, v, f);
    var z :| z in Keys(c, v) && z in Keys(c, f);
    assert Lookup(s.holders, z).Some?;
  }

  /** A batch taken while the group is blocked has none of the group's keys. */
  lemma BatchApart(c: Setup, p: string -> bool, s: State, files: seq<string>, t: string, x: string)
    requires OneAtATime(c, p) && HoldersOk(c, s.holders, s.busy) && OrdinaryBusy(c, s.busy)
    requires forall f | f in files :: Blocker(Keys(c, f), s.holders).None? && !Exclusive(c, f)
    requires p(t) && x in Keys(c, t) && x in s.holders
    ensures forall y | y in Keys(c, t) :: y !in AllKeys(c, files)
  {
    forall f | f in files && Rival(c, p, f) ensures Blocker(Keys(c, f), s.holders).Some? {
      RivalIsBlocked(c, p, s, f, t, x);
    }
    hide HoldersOk, OneAtATime, Blocker, Exclusive;
    forall f, y | f in files && y in Keys(c, t) ensures y !in Keys(c, f) {
      assert !Rival(c, p, f) && !Meet(c, f, t);
    }
  }

  /** Parked tests of the group wait for the first of their keys in use. */
  ghost predicate ParkedBlocked(c: Setup, p: string -> bool, holders: map<string, int>, r: Round) {
    forall x, t :: x in r.waiting && t in r.waiting[x] && p(t) ==> Blocker(Keys(c, t), holders) == Some(x)
  }

  lemma {:induction false} ComposeBlocked(c: Setup, p: string -> bool, holders: map<string, int>, r: Round, size: nat)
    requires ParkedBlocked(c, p, holders, r)
    ensures ParkedBlocked(c, p, holders, Compose(c, holders, r, size))
    decreases |r.pending|
  {
    if |r.files| <= size && r.pending != [] {
      assert ParkedBlocked(c, p, holders, Pop(c, holders, r));
      ComposeBlocked(c, p, holders, Pop(c, holders, r), size);
    }
  }

  lemma {:induction false} ComposeTakes(c: Setup, holders: map<string, int>, r: Round, size: nat)
    ensures forall f | f in Compose(c, holders, r, size).files :: f in r.files || f in r.pending
    decreases |r.pending|
  {
    if |r.files| <= size && r.pending != [] {
      ComposeTakes(c, holders, Pop(c, holders, r), size);
    }
  }

  lemma BatchIsOrdinary(c: Setup, s: State, i: int)
    requires Invariant(c, s) && i in s.live && i !in s.busy
    ensures s.holders == map[] || NoExclusive(c, Batch(c, s).files)
  {
    hide Invariant, Exclusive, Compose;
    FreeOrOrdinary(c, s, i);
    ComposeTakes(c, s.holders, Round(s.pending, s.waiting, []), BatchSize(c, LiveCount(s)));
  }

  lemma StillBlocked(c: Setup, p: string -> bool, s: State, i: int, t: string, x: string)
    requires Invariant(c, s) && i in s.live && i !in s.busy && OneAtATime(c, p)
    requires p(t) && Blocker(Keys(c, t), s.holders) == Some(x)
    ensures Blocker(Keys(c, t), Dispatch(c, s, i).holders) == Some(x)
  {
    var files := Batch(c, s).files;
    IdleMeansOrdinary(c, s, i);
    ComposeOk(c, s.holders, Round(s.pending, s.waiting, []), BatchSize(c, LiveCount(s)));
    BatchIsOrdinary(c, s, i);
    BatchApart(c, p, s, files, t, x);
    BlockerSame(Keys(c, t), s.holders, Dispatch(c, s, i).holders);
  }

  lemma DispatchQueued(c: Setup, p: string -> bool, s: State, i: int, k: string, b: Option<string>)
    requires Invariant(c, s) && i in s.live && i !in s.busy && OneAtATime(c, p) && Queued(c, p, s, k)
    requires Gated(c, p, s.holders, Round(s.pending, s.waiting, []), b)
    ensures Queued(c, p, Dispatch(c, s, i), GateKey(b))
  {
    hide Invariant, Compose, Blocker, Claim;
    var r0, size := Round(s.pending, s.waiting, []), BatchSize(c, LiveCount(s));
    ComposeOrder(c, p, s.holders, r0, size, b);
    ComposeBlocked(c, p, s.holders, r0, size);
    var d := Dispatch(c, s, i);
    forall x, t | x in d.waiting && t in d.waiting[x] && p(t)
      ensures x == GateKey(b) && Blocker(Keys(c, t), d.holders) == Some(GateKey(b))
    {
      StillBlocked(c, p, s, i, t, x);
    }
  }

  lemma DispatchAlone(c: Setup, s: State, i: int)
    requires Invariant(c, s) && i in s.live && i !in s.busy
    ensures Alone(c, Dispatch(c, s, i))
  {
    IdleMeansOrdinary(c, s, i);
    BatchIsOrdinary(c, s, i);
    if s.holders == map[] {
      assert s.waiting.Keys == {};
      assert s.waiting == map[];
      ComposeProgress(c, s.holders, Round(s.pending, s.waiting, []), BatchSize(c, LiveCount(s)));
    }
  }

  lemma SequentialQueued(c: Setup, p: string -> bool, s: State, k: string)
    requires ExclusiveOk(c, s) && Group(c, p) && Queued(c, p, s, k)
    ensures Queued(c, p, TakeSequential(s), k) && Line(p, k, TakeSequential(s)) == Line(p, k, s)
  {
    SequentialOrder(c, p, s, k);
  }

  lemma StepOrder(c: Setup, p: string -> bool, s: State, m: Message, k: string) returns (k': string)
    requires Invariant(c, s) && Alone(c, s) && Enabled(s, m) && Steady(c, p, AllTests(s)) && Queued(c, p, s, k)
    ensures Alone(c, Step(c, s, m)) && Queued(c, p, Step(c, s, m), k') && Line(p, k', Step(c, s, m)) == Line(p, k, s)
  {
    hide Invariant, Alone, Queued, Line, Freed, TakeSequential, Dispatch, Gated;
    var f := Freed(s, m);
    FreedInvariant(c, s, m);
    FreedQueued(c, p, s, m, k);
    FreedOrder(c, p, s, m, k);
    FreedConserves(s, m);
    var d := TakeSequential(f);
    InvariantParts(c, f);
    SequentialInvariant(c, f);
    SequentialQueued(c, p, f, k);
    SequentialConserves(f);
    IdleAfter(s, m);
    InvariantParts(c, d);
    IdleMeansOrdinary(c, d, m.worker);
    var b := CommonBlocker(c, p, d, k);
    DispatchOrder(c, p, d, m.worker, k, b);
    DispatchQueued(c, p, d, m.worker, k, b);
    DispatchAlone(c, d, m.worker);
    k' := GateKey(b);
  }

  lemma InvariantParts(c: Setup, s: State)
    requires Invariant(c, s)
    ensures HoldersOk(c, s.holders, s.busy) && ExclusiveOk(c, s)
  {
  }

  lemma IdleAfter(s: State, m: Message)
    requires Enabled(s, m)
    ensures m.worker in TakeSequential(Freed(s, m)).live && m.worker !in TakeSequential(Freed(s, m)).busy
  {
  }

  lemma {:induction false} RunOrder(c: Setup, p: string -> bool, s: State, ms: seq<Message>, k: string)
    returns (k': string)
    requires Invariant(c, s) && Alone(c, s) && Valid(c, s, ms) && Steady(c, p, AllTests(s)) && Queued(c, p, s, k)
    ensures Line(p, k', Exec(c, s, ms)) == Line(p, k, s)
    decreases |ms|
  {
    hide Invariant, Alone, Queued, Line, Step, Steady;
    k' := k;
    if ms != [] {
      var g := StepOrder(c, p, s, ms[0], k);
      StepInvariant(c, s, ms[0]);
      StepConserves(c, s, ms[0]);
      k' := RunOrder(c, p, Step(c, s, ms[0]), ms[1..], g);
    }
  }

  lemma {:induction false} FilterWithin(p: string -> bool, q: string -> bool, ts: seq<string>)
    requires forall t :: p(t) ==> q(t)
    ensures Filter(p, Filter(q, ts)) == Filter(p, ts)
  {
    if ts != [] {
      FilterWithin(p, q, ts[1..]);
      FilterAppend(p, if q(ts[0]) then [ts[0]] else [], Filter(q, ts[1..]));
      assert Filter(p, [ts[0]]) == if p(ts[0]) then [ts[0]] else [];
    }
  }

  /**
   The tests of a group whose rivals run one at a time and that are always parked under one
   key are sent in the order given, across parking, release and batching by different
   workers; once the loop exits all of them were sent.
   */
  lemma OrderIsKept(c: Setup, p: string -> bool, tests: seq<string>, s: State, ms: seq<Message>)
    requires OrderedStart(c, tests, s) && Valid(c, s, ms) && Steady(c, p, multiset(tests))
    ensures Filter(p, Exec(c, s, ms).log) <= Filter(p, tests)
    ensures !Looping(Exec(c, s, ms)) ==> Filter(p, Exec(c, s, ms).log) == Filter(p, tests)
  {
    hide Invariant, Steady, Exec, Valid;
    StartInvariant(c, tests, s);
    StartInLine(c, p, tests, s);
    var t := Exec(c, s, ms);
    var k := RunOrder(c, p, s, ms, "");
    assert Filter(p, t.log) <= Line(p, k, t);
    if !Looping(t) {
      EveryTestFinishes(c, tests, s, ms);
      assert Queue(p, k, t.waiting, t.pending) == [];
    }
  }

  lemma StartInLine(c: Setup, p: string -> bool, tests: seq<string>, s: State)
    requires OrderedStart(c, tests, s) && Steady(c, p, multiset(tests))
    ensures Alone(c, s) && Queued(c, p, s, "") && Line(p, "", s) == Filter(p, tests)
  {
    hide OneAtATime, OneGate, OneGateAlways, Exclusive, Meet;
    assert forall t | p(t) :: NotExclusive(c)(t);
    GivenInLine(p, NotExclusive(c), tests, s);
  }

  lemma GivenInLine(p: string -> bool, q: string -> bool, tests: seq<string>, s: State)
    requires s.log == [] && s.waiting == map[] && s.pending == Reverse(Filter(q, tests))
    requires forall t :: p(t) ==> q(t)
    ensures Line(p, "", s) == Filter(p, tests)
  {
    ReverseTwice(Filter(q, tests));
    FilterWithin(p, q, tests);
    assert Filter(p, []) == [];
  }

  /******* Tests with one key *******/

  /** The tests whose one conflict key is `k`. */
  function Only(c: Setup, k: string): string -> bool {
    t => k in Keys(c, t) && forall x | x in Keys(c, t) :: x == k
  }

  lemma OneKeyBlocker(c: Setup, holders: map<string, int>, t: string, k: string)
    requires Only(c, k)(t)
    ensures Blocker(Keys(c, t), holders) == if k in holders then Some(k) else None
  {
  }

  lemma OneKeyIsSteady(c: Setup, k: string, ts: multiset<string>)
    requires k != ALL
    ensures Steady(c, Only(c, k), ts)
  {
    var p := Only(c, k);
    forall t, u | p(t) && p(u) ensures !Exclusive(c, t) && Meet(c, t, u) {
      assert k in Keys(c, t) && k in Keys(c, u);
    }
    forall v | Rival(c, p, v) ensures k in Keys(c, v) {
      var t :| p(t) && Meet(c, v, t);
      var x :| x in Keys(c, v) && x in Keys(c, t);
    }
    forall t, u, v, w | p(t) && p(u) && Rival(c, p, v) && Rival(c, p, w) ensures SameGate(c, t, u, v, w) {
      OneKeyBlocker(c, HeldBy(c, v, w), t, k);
      OneKeyBlocker(c, HeldBy(c, v, w), u, k);
    }
    forall v, w | Rival(c, p, v) && Rival(c, p, w) ensures Meet(c, v, w) {
      assert k in Keys(c, v) && k in Keys(c, w);
    }
  }

  /** Tests whose only key is `k` are sent in the order given, whatever keys the others have. */
  lemma OrderPerKey(c: Setup, tests: seq<string>, s: State, ms: seq<Message>, k: string)
    requires OrderedStart(c, tests, s) && Valid(c, s, ms) && k != ALL
    ensures Filter(Only(c, k), Exec(c, s, ms).log) <= Filter(Only(c, k), tests)
    ensures !Looping(Exec(c, s, ms)) ==> Filter(Only(c, k), Exec(c, s, ms).log) == Filter(Only(c, k), tests)
  {
    OneKeyIsSteady(c, k, multiset(tests));
    OrderIsKept(c, Only(c, k), tests, s, ms);
  }
}

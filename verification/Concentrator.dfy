/**
 The span-concentrator cache under its read/write lock: threads look up, create, refresh and
 use entries while configuration updates arrive. Each step is one lock-protected section or
 one part of a section that another lock can interleave with.
 */
module Concentrator {
  import opened Options

  datatype Config = Config(peerTagKeys: seq<string>, spanKinds: seq<string>)

  /** `keySlices` are the views into the peer-tag keys handed to the callback. */
  datatype Conc = Conc(config: Config, keySlices: seq<string>, hasShm: bool)

  function Build(config: Config, hasShm: bool): Conc {
    Conc(config, config.peerTagKeys, hasShm)
  }

  /** An entry without shared memory is always stale; `reload` is what the memory reports. */
  predicate NeedsRefresh(c: Conc, reload: bool) {
    c.hasShm ==> reload
  }

  /** Where a lookup stands; Writing and HasConfig hold the write lock, Calling a read lock. */
  datatype Pc = Start | WantWrite | Writing | HasConfig(config: Config) | WantRead | Calling | Done(result: bool)

  datatype Call = Call(key: string, pc: Pc, callbacks: nat)

  /** `applying` holds the updates that changed the desired configuration but not yet the cache. */
  datatype State = State(
    cache: map<string, Conc>,
    desired: Config,
    writer: Option<int>,
    readers: set<int>,
    calls: map<int, Call>,
    applying: map<int, Config>)

  datatype Event =
    | Begin(t: int, key: string)
    | FastRead(t: int, reload: bool)
    | AcquireWrite(t: int, reload: bool)
    | ReadDesired(t: int)
    | Insert(t: int, hasShm: bool)
    | FinalRead(t: int)
    | EndCall(t: int)
    | ApplyDesired(t: int, config: Config)
    | ApplyCache(t: int)

  predicate At(s: State, t: int, pc: Pc) {
    t in s.calls && s.calls[t].pc == pc
  }

  predicate ReadFree(s: State) {
    s.writer.None?
  }

  predicate WriteFree(s: State) {
    s.writer.None? && s.readers == {}
  }

  predicate Enabled(s: State, e: Event) {
    match e
    case Begin(t, _) => t !in s.calls
    case FastRead(t, _) => At(s, t, Start) && ReadFree(s)
    case AcquireWrite(t, _) => At(s, t, WantWrite) && WriteFree(s)
    case ReadDesired(t) => At(s, t, Writing)
    case Insert(t, _) => t in s.calls && s.calls[t].pc.HasConfig?
    case FinalRead(t) => At(s, t, WantRead) && ReadFree(s)
    case EndCall(t) => At(s, t, Calling)
    case ApplyDesired(t, _) => t !in s.applying
    case ApplyCache(t) => t in s.applying && WriteFree(s)
  }

  function Move(s: State, t: int, pc: Pc): State
    requires t in s.calls
  {
    s.(calls := s.calls[t := s.calls[t].(pc := pc)])
  }

  /** Enters the callback under the read lock. */
  function EnterCall(s: State, t: int): State
    requires t in s.calls
  {
    Move(s, t, Calling).(readers := s.readers + {t})
  }

  function Step(s: State, e: Event): State
    requires Enabled(s, e)
  {
    match e
    case Begin(t, key) => s.(calls := s.calls[t := Call(key, Start, 0)])
    case FastRead(t, reload) =>
      var key := s.calls[t].key;
      if key in s.cache && !NeedsRefresh(s.cache[key], reload) then EnterCall(s, t) else Move(s, t, WantWrite)
    case AcquireWrite(t, reload) =>
      var key := s.calls[t].key;
      if key in s.cache && !NeedsRefresh(s.cache[key], reload) then Move(s, t, WantRead)
      else Move(s, t, Writing).(writer := Some(t), cache := s.cache - {key})
    case ReadDesired(t) => Move(s, t, HasConfig(s.desired))
    case Insert(t, hasShm) =>
      Move(s, t, WantRead).(writer := None,
                            cache := s.cache[s.calls[t].key := Build(s.calls[t].pc.config, hasShm)])
    case FinalRead(t) =>
      if s.calls[t].key in s.cache then EnterCall(s, t) else Move(s, t, Done(false))
    case EndCall(t) =>
      s.(readers := s.readers - {t},
         calls := s.calls[t := Call(s.calls[t].key, Done(true), s.calls[t].callbacks + 1)])
    case ApplyDesired(t, config) => s.(desired := config, applying := s.applying[t := config])
    case ApplyCache(t) =>
      s.(cache := map key | key in s.cache :: Build(s.applying[t], s.cache[key].hasShm),
         applying := s.applying - {t})
  }

  ghost predicate Valid(s: State, es: seq<Event>)
    decreases |es|
  {
    es == [] || (Enabled(s, es[0]) && Valid(Step(s, es[0]), es[1..]))
  }

  ghost function Exec(s: State, es: seq<Event>): State
    requires Valid(s, es)
    decreases |es|
  {
    if es == [] then s else Exec(Step(s, es[0]), es[1..])
  }

  function Init(desired: Config): State {
    State(map[], desired, None, {}, map[], map[])
  }

  /******* Locks and presence *******/

  predicate HoldsWrite(pc: Pc) {
    pc.Writing? || pc.HasConfig?
  }

  ghost predicate LocksOk(s: State) {
    && (forall t :: t in s.calls && HoldsWrite(s.calls[t].pc) <==> s.writer == Some(t))
    && (forall t :: t in s.calls && s.calls[t].pc.Calling? <==> t in s.readers)
    && (s.writer.Some? ==> s.readers == {})
  }

  /** A key is absent from the cache only while its lookup holds the write lock. */
  ghost predicate Present(s: State, key: string) {
    key in s.cache || (s.writer.Some? && s.writer.value in s.calls && s.calls[s.writer.value].key == key)
  }

  ghost predicate CallOk(s: State, call: Call) {
    && (call.pc.WantRead? || call.pc.Calling? || call.pc.Done? ==> Present(s, call.key))
    && (call.pc.Done? ==> call.pc.result)
    && call.callbacks == if call.pc.Done? then 1 else 0
  }

  ghost predicate CallsOk(s: State) {
    forall t :: t in s.calls ==> CallOk(s, s.calls[t])
  }

  ghost predicate SlicesOk(s: State) {
    forall key :: key in s.cache ==> s.cache[key].keySlices == s.cache[key].config.peerTagKeys
  }

  ghost predicate Invariant(s: State) {
    LocksOk(s) && CallsOk(s) && SlicesOk(s)
  }

  lemma StepLocks(s: State, e: Event)
    requires LocksOk(s) && Enabled(s, e)
    ensures LocksOk(Step(s, e))
  {
  }

  lemma StepCalls(s: State, e: Event)
    requires LocksOk(s) && CallsOk(s) && Enabled(s, e)
    ensures CallsOk(Step(s, e))
  {
    var s' := Step(s, e);
    forall t | t in s'.calls ensures CallOk(s', s'.calls[t]) {
      if t in s.calls {
        assert CallOk(s, s.calls[t]);
      }
      StepCall(s, e, t);
    }
  }

  lemma StepPresent(s: State, e: Event, key: string)
    requires LocksOk(s) && Enabled(s, e) && Present(s, key)
    ensures Present(Step(s, e), key)
  {
  }

  lemma StepCall(s: State, e: Event, t: int)
    requires LocksOk(s) && Enabled(s, e) && t in Step(s, e).calls && (t in s.calls ==> CallOk(s, s.calls[t]))
    ensures CallOk(Step(s, e), Step(s, e).calls[t])
  {
    if t in s.calls && Present(s, s.calls[t].key) {
      StepPresent(s, e, s.calls[t].key);
    }
  }

  lemma {:induction false} RunInvariant(s: State, es: seq<Event>)
    requires Invariant(s) && Valid(s, es)
    ensures Invariant(Exec(s, es))
    decreases |es|
  {
    if es != [] {
      StepLocks(s, es[0]);
      StepCalls(s, es[0]);
      RunInvariant(Step(s, es[0]), es[1..]);
    }
  }

  /** Under every interleaving a finished lookup ran its callback exactly once and returned true. */
  lemma LookupIsTotal(desired: Config, es: seq<Event>, t: int)
    requires Valid(Init(desired), es)
    requires t in Exec(Init(desired), es).calls && Exec(Init(desired), es).calls[t].pc.Done?
    ensures Exec(Init(desired), es).calls[t].pc.result && Exec(Init(desired), es).calls[t].callbacks == 1
  {
    RunInvariant(Init(desired), es);
  }

  /** The final read always finds its key. */
  lemma KeyIsPresentAtFinalRead(desired: Config, es: seq<Event>, t: int)
    requires Valid(Init(desired), es) && Enabled(Exec(Init(desired), es), FinalRead(t))
    ensures Exec(Init(desired), es).calls[t].key in Exec(Init(desired), es).cache
  {
    RunInvariant(Init(desired), es);
  }

  /** While a callback runs no step changes the entry it was given. */
  lemma EntryIsStableDuringCall(desired: Config, es: seq<Event>, e: Event, t: int)
    requires Valid(Init(desired), es) && Enabled(Exec(Init(desired), es), e)
    requires At(Exec(Init(desired), es), t, Calling)
    ensures var s := Exec(Init(desired), es);
            s.calls[t].key in s.cache
            && Lookup(Step(s, e).cache, s.calls[t].key) == Lookup(s.cache, s.calls[t].key)
            && s.cache[s.calls[t].key].keySlices == s.cache[s.calls[t].key].config.peerTagKeys
  {
    RunInvariant(Init(desired), es);
    var s := Exec(Init(desired), es);
    assert t in s.readers;
  }

  /******* Progress *******/

  function Rank(pc: Pc): nat {
    match pc
    case Start => 6
    case WantWrite => 5
    case Writing => 4
    case HasConfig(_) => 3
    case WantRead => 2
    case Calling => 1
    case Done(_) => 0
  }

  ghost predicate Pending(s: State) {
    s.applying != map[] || exists t :: t in s.calls && !s.calls[t].pc.Done?
  }

  /** Every step brings its own lookup closer to the end and no other lookup back. */
  lemma StepAdvances(s: State, e: Event, t: int)
    requires Enabled(s, e) && t in s.calls
    ensures t in Step(s, e).calls && Rank(Step(s, e).calls[t].pc) <= Rank(s.calls[t].pc)
    ensures e.t == t && !e.ApplyDesired? && !e.ApplyCache? && !e.Begin? ==>
              Rank(Step(s, e).calls[t].pc) < Rank(s.calls[t].pc)
  {
  }

  /** The two locks cannot deadlock: whatever is pending, some pending work can take a step. */
  lemma NeverDeadlocks(desired: Config, es: seq<Event>) returns (e: Event)
    requires Valid(Init(desired), es) && Pending(Exec(Init(desired), es))
    ensures Enabled(Exec(Init(desired), es), e) && !e.Begin? && !e.ApplyDesired?
  {
    RunInvariant(Init(desired), es);
    var s := Exec(Init(desired), es);
    if s.writer.Some? {
      var w := s.writer.value;
      assert HoldsWrite(s.calls[w].pc);
      e := if s.calls[w].pc.Writing? then ReadDesired(w) else Insert(w, false);
    } else if s.readers != {} {
      e := EndCall(AnyOf(s.readers));
    } else if s.applying.Keys != {} {
      e := ApplyCache(AnyOf(s.applying.Keys));
    } else {
      assert s.applying == map[];
      var t :| t in s.calls && !s.calls[t].pc.Done?;
      e := match s.calls[t].pc
        case Start => FastRead(t, false)
        case WantWrite => AcquireWrite(t, false)
        case _ => FinalRead(t);
    }
  }

  /******* Refreshing *******/

  /**
   A lookup enters its callback without the write lock exactly when its entry is present,
   has shared memory and the memory reports nothing new; under the write lock it rebuilds
   the entry exactly when one of these fails.
   */
  lemma RefreshIff(s: State, t: int, reload: bool)
    requires t in s.calls
    ensures Enabled(s, FastRead(t, reload)) ==>
              (At(Step(s, FastRead(t, reload)), t, Calling) <==>
                s.calls[t].key in s.cache && s.cache[s.calls[t].key].hasShm && !reload)
    ensures Enabled(s, AcquireWrite(t, reload)) ==>
              (At(Step(s, AcquireWrite(t, reload)), t, Writing) <==>
                !(s.calls[t].key in s.cache && s.cache[s.calls[t].key].hasShm && !reload))
  {
  }

  /** The position of a lookup after its slow path. */
  predicate PastRefresh(pc: Pc) {
    pc.WantRead? || pc.Calling? || pc.Done?
  }

  /** Lookups not among `earlier` that are past their refresh have an entry with shared memory. */
  ghost predicate Upgraded(s: State, earlier: set<int>) {
    forall t :: t in s.calls && t !in earlier && PastRefresh(s.calls[t].pc) && s.calls[t].key in s.cache ==>
      s.cache[s.calls[t].key].hasShm
  }

  lemma StepUpgrades(s: State, e: Event, earlier: set<int>)
    requires Enabled(s, e) && Upgraded(s, earlier) && (e.Insert? ==> e.hasShm)
    ensures Upgraded(Step(s, e), earlier)
  {
    var s' := Step(s, e);
    forall t | t in s'.calls && t !in earlier && PastRefresh(s'.calls[t].pc) && s'.calls[t].key in s'.cache
      ensures s'.cache[s'.calls[t].key].hasShm
    {
      assert t in s.calls;
    }
  }

  ghost predicate InsertsHaveMemory(es: seq<Event>) {
    forall i | 0 <= i < |es| && es[i].Insert? :: es[i].hasShm
  }

  lemma {:induction false} RunUpgrades(s: State, es: seq<Event>, earlier: set<int>)
    requires Valid(s, es) && Upgraded(s, earlier) && InsertsHaveMemory(es)
    ensures Upgraded(Exec(s, es), earlier)
    decreases |es|
  {
    hide Upgraded, Step, Enabled;
    if es != [] {
      StepUpgrades(s, es[0], earlier);
      assert forall i | 0 <= i < |es[1..]| :: es[1..][i] == es[i + 1];
      RunUpgrades(Step(s, es[0]), es[1..], earlier);
    }
  }

  /**
   Once shared memory can be shm, every lookup that begins afterwards runs its callback
   on an entry with shared memory, whatever the cache held.
   */
  lemma LookupsAreUpgraded(desired: Config, before: seq<Event>, es: seq<Event>, t: int)
    requires Valid(Init(desired), before) && Valid(Exec(Init(desired), before), es) && InsertsHaveMemory(es)
    requires t !in Exec(Init(desired), before).calls && At(Exec(Exec(Init(desired), before), es), t, Calling)
    ensures var s := Exec(Exec(Init(desired), before), es);
            s.calls[t].key in s.cache && s.cache[s.calls[t].key].hasShm
  {
    var s := Exec(Init(desired), before);
    RunInvariant(Init(desired), before);
    RunInvariant(s, es);
    RunUpgrades(s, es, s.calls.Keys);
    var s' := Exec(s, es);
    assert t in s'.readers;
  }

  /** Whether the last entry built for `key` was built with shared memory. */
  ghost function LastOpened(s: State, es: seq<Event>, key: string, shm: bool): bool
    requires Valid(s, es)
    decreases |es|
  {
    if es == [] then shm
    else
      LastOpened(Step(s, es[0]), es[1..], key,
                 if es[0].Insert? && s.calls[es[0].t].key == key then es[0].hasShm else shm)
  }

  lemma StepKeepsMemory(s: State, e: Event, key: string, shm: bool)
    requires Enabled(s, e) && (key in s.cache ==> s.cache[key].hasShm == shm)
    ensures key in Step(s, e).cache ==>
              Step(s, e).cache[key].hasShm == if e.Insert? && s.calls[e.t].key == key then e.hasShm else shm
  {
  }

  lemma {:induction false} RunKeepsMemory(s: State, es: seq<Event>, key: string, shm: bool)
    requires Valid(s, es) && (key in s.cache ==> s.cache[key].hasShm == shm)
    ensures key in Exec(s, es).cache ==> Exec(s, es).cache[key].hasShm == LastOpened(s, es, key, shm)
    decreases |es|
  {
    hide Step;
    if es != [] {
      StepKeepsMemory(s, es[0], key, shm);
      RunKeepsMemory(Step(s, es[0]), es[1..], key,
                     if es[0].Insert? && s.calls[es[0].t].key == key then es[0].hasShm else shm);
    }
  }

  /** In every run an entry has shared memory exactly when the lookup that built it last could open it. */
  lemma MemoryIsAsOpened(desired: Config, es: seq<Event>, key: string)
    requires Valid(Init(desired), es) && key in Exec(Init(desired), es).cache
    ensures Exec(Init(desired), es).cache[key].hasShm == LastOpened(Init(desired), es, key, false)
  {
    RunKeepsMemory(Init(desired), es, key, false);
  }

  ghost predicate InsertsFor(es: seq<Event>, t: int) {
    exists i :: 0 <= i < |es| && es[i].Insert? && es[i].t == t
  }

  /** Every read of lookup `t` finds that the memory has something new. */
  ghost predicate AlwaysReloads(es: seq<Event>, t: int) {
    forall i | 0 <= i < |es| && es[i].t == t ::
      && (es[i].FastRead? ==> es[i].reload)
      && (es[i].AcquireWrite? ==> es[i].reload)
  }

  lemma StepReloads(s: State, e: Event, t: int, inserted: bool)
    requires Enabled(s, e) && (t in s.calls && PastRefresh(s.calls[t].pc) ==> inserted)
    requires e.t == t ==> (e.FastRead? ==> e.reload) && (e.AcquireWrite? ==> e.reload)
    ensures t in Step(s, e).calls && PastRefresh(Step(s, e).calls[t].pc) ==> inserted || (e.Insert? && e.t == t)
  {
  }

  lemma {:induction false} RunReloads(s: State, es: seq<Event>, t: int, inserted: bool)
    requires Valid(s, es) && AlwaysReloads(es, t) && (t in s.calls && PastRefresh(s.calls[t].pc) ==> inserted)
    ensures var s' := Exec(s, es); t in s'.calls && PastRefresh(s'.calls[t].pc) ==> inserted || InsertsFor(es, t)
    decreases |es|
  {
    hide Step, Enabled;
    if es != [] {
      var now := inserted || (es[0].Insert? && es[0].t == t);
      StepReloads(s, es[0], t, inserted);
      assert forall i | 0 <= i < |es[1..]| :: es[1..][i] == es[i + 1];
      RunReloads(Step(s, es[0]), es[1..], t, now);
      if InsertsFor(es[1..], t) {
        var i :| 0 <= i < |es[1..]| && es[1..][i].Insert? && es[1..][i].t == t;
        assert es[i + 1].Insert? && es[i + 1].t == t;
      }
    }
  }

  /** A lookup whose reads all report something new builds its entry itself before its callback. */
  lemma ReloadRebuilds(desired: Config, before: seq<Event>, es: seq<Event>, t: int)
    requires Valid(Init(desired), before) && Valid(Exec(Init(desired), before), es) && AlwaysReloads(es, t)
    requires t !in Exec(Init(desired), before).calls && At(Exec(Exec(Init(desired), before), es), t, Calling)
    ensures InsertsFor(es, t)
  {
    RunReloads(Exec(Init(desired), before), es, t, false);
  }

  /******* Configuration agreement *******/

  /** An update starts only when no other is in flight. */
  ghost predicate Serialised(s: State, e: Event) {
    e.ApplyDesired? ==> s.applying == map[]
  }

  ghost predicate RunSerialised(s: State, es: seq<Event>)
    requires Valid(s, es)
    decreases |es|
  {
    es == [] || (Serialised(s, es[0]) && RunSerialised(Step(s, es[0]), es[1..]))
  }

  /** Between updates every cached entry, and every entry being built, has the desired configuration. */
  ghost predicate Agrees(s: State) {
    && (forall a :: a in s.applying ==> s.applying == map[a := s.desired])
    && (s.applying == map[] ==>
      && (forall key :: key in s.cache ==> s.cache[key].config == s.desired)
      && (forall t :: t in s.calls && s.calls[t].pc.HasConfig? ==> s.calls[t].pc.config == s.desired))
  }

  lemma StepAgrees(s: State, e: Event)
    requires LocksOk(s) && Agrees(s) && Enabled(s, e) && Serialised(s, e)
    ensures Agrees(Step(s, e))
  {
    if e.ApplyCache? {
      assert s.applying == map[e.t := s.desired];
      assert Step(s, e).applying == map[];
      forall t | t in s.calls ensures !s.calls[t].pc.HasConfig? {
      }
    }
  }

  lemma {:induction false} RunAgrees(s: State, es: seq<Event>)
    requires LocksOk(s) && Agrees(s) && Valid(s, es) && RunSerialised(s, es)
    ensures Agrees(Exec(s, es))
    decreases |es|
  {
    if es != [] {
      StepLocks(s, es[0]);
      StepAgrees(s, es[0]);
      RunAgrees(Step(s, es[0]), es[1..]);
    }
  }

  /**
   With updates one at a time, under every interleaving of lookups, refreshes and updates,
   each cached entry has the desired peer-tag keys and span kinds whenever no update is in
   flight.
   */
  lemma ConfigAgreement(desired: Config, es: seq<Event>, key: string)
    requires Valid(Init(desired), es) && RunSerialised(Init(desired), es)
    requires Exec(Init(desired), es).applying == map[] && key in Exec(Init(desired), es).cache
    ensures Exec(Init(desired), es).cache[key].config == Exec(Init(desired), es).desired
  {
    RunAgrees(Init(desired), es);
  }

  /******* Overlapping updates *******/

  /** What the last update that reached the cache carried. */
  ghost function LastApplied(s: State, es: seq<Event>, last: Option<Config>): Option<Config>
    requires Valid(s, es)
    decreases |es|
  {
    if es == [] then last
    else LastApplied(Step(s, es[0]), es[1..], if es[0].ApplyCache? then Some(s.applying[es[0].t]) else last)
  }

  /** The entry of `key` was built after the last update reached the cache. */
  ghost function BuiltSince(s: State, es: seq<Event>, key: string, since: bool): bool
    requires Valid(s, es)
    decreases |es|
  {
    if es == [] then since
    else BuiltSince(Step(s, es[0]), es[1..], key, BuiltAfter(s, es[0], key, since))
  }

  predicate BuiltAfter(s: State, e: Event, key: string, since: bool)
    requires Enabled(s, e)
  {
    if e.ApplyCache? then false else since || (e.Insert? && s.calls[e.t].key == key)
  }

  /**
   An entry built since the last update, or being built, has the desired configuration
   unless an update is in flight; any other entry has what the last update carried.
   */
  ghost predicate Traced(s: State, key: string, since: bool, last: Option<Config>) {
    && (s.applying == map[] ==>
      forall t :: t in s.calls && s.calls[t].pc.HasConfig? ==> s.calls[t].pc.config == s.desired)
    && (key in s.cache ==>
      if since then s.applying == map[] ==> s.cache[key].config == s.desired
      else last == Some(s.cache[key].config))
  }

  lemma StepTraced(s: State, e: Event, key: string, since: bool, last: Option<Config>)
    requires LocksOk(s) && Enabled(s, e) && Traced(s, key, since, last)
    ensures Traced(Step(s, e), key, BuiltAfter(s, e, key, since),
                   if e.ApplyCache? then Some(s.applying[e.t]) else last)
  {
    if e.ApplyCache? {
      forall t | t in s.calls ensures !s.calls[t].pc.HasConfig? {
        assert HoldsWrite(s.calls[t].pc) ==> s.writer == Some(t);
      }
    } else if e.ApplyDesired? {
      assert Step(s, e).applying != map[] by {
        assert e.t in Step(s, e).applying;
      }
    }
  }

  lemma {:induction false} RunTraced(s: State, es: seq<Event>, key: string, since: bool, last: Option<Config>)
    requires LocksOk(s) && Valid(s, es) && Traced(s, key, since, last)
    ensures Traced(Exec(s, es), key, BuiltSince(s, es, key, since), LastApplied(s, es, last))
    decreases |es|
  {
    hide LocksOk, Traced, Step, BuiltAfter;
    if es != [] {
      StepLocks(s, es[0]);
      StepTraced(s, es[0], key, since, last);
      RunTraced(Step(s, es[0]), es[1..], key, BuiltAfter(s, es[0], key, since),
                if es[0].ApplyCache? then Some(s.applying[es[0].t]) else last);
    }
  }

  /**
   However updates overlap: once none is in flight, a cached entry has the desired
   configuration exactly when it was built after the last update reached the cache or that
   update carried the desired configuration.
   */
  lemma LastUpdateDecides(desired: Config, es: seq<Event>, key: string)
    requires Valid(Init(desired), es)
    requires Exec(Init(desired), es).applying == map[] && key in Exec(Init(desired), es).cache
    ensures var s := Exec(Init(desired), es);
            s.cache[key].config == s.desired <==>
            BuiltSince(Init(desired), es, key, false) || LastApplied(Init(desired), es, None) == Some(s.desired)
  {
    assert Traced(Init(desired), key, false, None);
    RunTraced(Init(desired), es, key, false, None);
  }

  lemma {:induction false} RunExtends(s: State, es: seq<Event>, e: Event)
    requires Valid(s, es) && Enabled(Exec(s, es), e)
    ensures Valid(s, es + [e]) && Exec(s, es + [e]) == Step(Exec(s, es), e)
    decreases |es|
  {
    hide Step, Enabled;
    if es == [] {
      assert [] + [e] == [e] && [e][1..] == [];
    } else {
      assert (es + [e])[1..] == es[1..] + [e];
      RunExtends(Step(s, es[0]), es[1..], e);
    }
  }

  /** A lookup that builds its entry: the state it leaves before its final read. */
  function Built(key: string, x: Config): State {
    State(map[key := Build(x, true)], x, None, {}, map[0 := Call(key, WantRead, 0)], map[])
  }

  lemma FirstLookup(key: string, x: Config) returns (es: seq<Event>)
    ensures Valid(Init(x), es) && Exec(Init(x), es) == Built(key, x)
  {
    var s0 := Init(x);
    var s1 := State(map[], x, None, {}, map[0 := Call(key, Start, 0)], map[]);
    var s2 := State(map[], x, None, {}, map[0 := Call(key, WantWrite, 0)], map[]);
    var s3 := State(map[], x, Some(0), {}, map[0 := Call(key, Writing, 0)], map[]);
    var s4 := State(map[], x, Some(0), {}, map[0 := Call(key, HasConfig(x), 0)], map[]);
    assert Step(s0, Begin(0, key)) == s1;
    assert Step(s1, FastRead(0, false)) == s2;
    assert Step(s2, AcquireWrite(0, false)) == s3;
    assert Step(s3, ReadDesired(0)) == s4;
    assert Step(s4, Insert(0, true)) == Built(key, x);
    hide Step;
    es := [];
    RunExtends(s0, es, Begin(0, key));
    es := es + [Begin(0, key)];
    RunExtends(s0, es, FastRead(0, false));
    es := es + [FastRead(0, false)];
    RunExtends(s0, es, AcquireWrite(0, false));
    es := es + [AcquireWrite(0, false)];
    RunExtends(s0, es, ReadDesired(0));
    es := es + [ReadDesired(0)];
    RunExtends(s0, es, Insert(0, true));
    es := es + [Insert(0, true)];
  }

  /**
   A lookup that read the configuration before an update and inserts after it leaves the
   earlier configuration in the cache as long as the update is in flight.
   */
  lemma InsertAfterUpdate(key: string, x: Config, y: Config) returns (es: seq<Event>)
    ensures Valid(Init(x), es)
    ensures Lookup(Exec(Init(x), es).cache, key) == Some(Build(x, true))
    ensures Exec(Init(x), es).desired == y && Exec(Init(x), es).applying == map[1 := y]
  {
    var s0 := Init(x);
    var s1 := State(map[], x, None, {}, map[0 := Call(key, Start, 0)], map[]);
    var s2 := State(map[], x, None, {}, map[0 := Call(key, WantWrite, 0)], map[]);
    var s3 := State(map[], x, Some(0), {}, map[0 := Call(key, Writing, 0)], map[]);
    var s4 := State(map[], x, Some(0), {}, map[0 := Call(key, HasConfig(x), 0)], map[]);
    var s5 := s4.(desired := y, applying := map[1 := y]);
    assert Step(s0, Begin(0, key)) == s1;
    assert Step(s1, FastRead(0, false)) == s2;
    assert Step(s2, AcquireWrite(0, false)) == s3;
    assert Step(s3, ReadDesired(0)) == s4;
    assert Step(s4, ApplyDesired(1, y)) == s5;
    assert Step(s5, Insert(0, true)) == Built(key, x).(desired := y, applying := map[1 := y]);
    hide Step;
    es := [];
    RunExtends(s0, es, Begin(0, key));
    es := es + [Begin(0, key)];
    RunExtends(s0, es, FastRead(0, false));
    es := es + [FastRead(0, false)];
    RunExtends(s0, es, AcquireWrite(0, false));
    es := es + [AcquireWrite(0, false)];
    RunExtends(s0, es, ReadDesired(0));
    es := es + [ReadDesired(0)];
    RunExtends(s0, es, ApplyDesired(1, y));
    es := es + [ApplyDesired(1, y)];
    RunExtends(s0, es, Insert(0, true));
    es := es + [Insert(0, true)];
  }

  /** A run in which two updates overlap and leave an entry with the configuration no longer desired. */
  lemma OverlappingUpdatesDisagree(key: string, x: Config, y: Config) returns (es: seq<Event>)
    requires x != y
    ensures Valid(Init(x), es) && Exec(Init(x), es).applying == map[]
    ensures Lookup(Exec(Init(x), es).cache, key) == Some(Build(x, true)) && Exec(Init(x), es).desired == y
  {
    es := FirstLookup(key, x);
    var s0 := Built(key, x);
    var s1 := s0.(applying := map[1 := x]);
    var s2 := s0.(applying := map[1 := x, 2 := y], desired := y);
    var s3 := s0.(cache := map[key := Build(y, true)], applying := map[1 := x], desired := y);
    var s4 := s0.(desired := y);
    assert Step(s0, ApplyDesired(1, x)) == s1;
    assert Step(s1, ApplyDesired(2, y)) == s2;
    assert Step(s2, ApplyCache(2)) == s3;
    assert Step(s3, ApplyCache(1)) == s4;
    hide Step;
    RunExtends(Init(x), es, ApplyDesired(1, x));
    es := es + [ApplyDesired(1, x)];
    RunExtends(Init(x), es, ApplyDesired(2, y));
    es := es + [ApplyDesired(2, y)];
    RunExtends(Init(x), es, ApplyCache(2));
    es := es + [ApplyCache(2)];
    RunExtends(Init(x), es, ApplyCache(1));
    es := es + [ApplyCache(1)];
  }
}

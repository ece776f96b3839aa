/**
 The remote-configuration overlay as a state machine: prioritised files arrive and
 leave, are merged per setting, and the merged settings are written over the INI table
 while the user's own values are kept aside.

 An INI table is represented by its modified entries: a name that is absent has its
 default value, so restoring an entry removes the name.
 */
module DynamicConfig {
  import opened Options

  datatype Kind =
    | TracingHeaderTags
    | TracingSamplingRate
    | LogInjectionEnabled
    | TracingTags
    | TracingEnabled
    | TracingSamplingRules
    | DynamicInstrumentationEnabled
    | ExceptionReplayEnabled
    | CodeOriginEnabled

  /** One setting of a remote file, with its value already rendered as INI text. */
  datatype Config = Config(kind: Kind, value: string)

  datatype File = File(priority: nat, configs: seq<Config>)

  type Ini = map<string, string>

  datatype State = State(
    ini: Ini,
    active: map<string, File>,
    merged: seq<Config>,
    saved: map<string, Option<string>>)

  /******* Settings and their INI names *******/

  function ConfigName(k: Kind): string {
    match k
    case TracingHeaderTags => "datadog.trace.header_tags"
    case TracingSamplingRate => "datadog.trace.sample_rate"
    case LogInjectionEnabled => "datadog.logs_injection"
    case TracingTags => "datadog.tags"
    case TracingEnabled => "datadog.trace.enabled"
    case TracingSamplingRules => "datadog.trace.sampling_rules"
    case DynamicInstrumentationEnabled => "datadog.dynamic_instrumentation.enabled"
    case ExceptionReplayEnabled => "datadog.exception_replay_enabled"
    case CodeOriginEnabled => "datadog.code_origin_for_spans_enabled"
  }

  function Name(c: Config): string {
    ConfigName(c.kind)
  }

  ghost function Names(cs: seq<Config>): set<string> {
    set c | c in cs :: Name(c)
  }

  lemma NamesAreInjective(a: Kind, b: Kind)
    requires ConfigName(a) == ConfigName(b)
    ensures a == b
  {
    assert "datadog.trace.header_tags"[14] != "datadog.trace.sample_rate"[14];
  }

  /** The kinds whose remote value gives way to an explicit falsy user value. */
  predicate Vetoable(k: Kind) {
    k.DynamicInstrumentationEnabled? || k.ExceptionReplayEnabled? || k.CodeOriginEnabled?
  }

  /** The kinds whose INI change callback reports user writes to the overlay. */
  predicate Reported(k: Kind) {
    !(k.TracingTags? || k.TracingEnabled? || k.TracingSamplingRules?)
  }

  /** The INI names whose user writes reach the overlay. */
  predicate Guarded(n: string) {
    exists k :: Reported(k) && n == ConfigName(k)
  }

  /** The INI names the overlay can write. */
  predicate Remote(n: string) {
    exists k :: n == ConfigName(k)
  }

  /******* Truth of a user value *******/

  predicate Digits(s: string) {
    s != [] && forall i | 0 <= i < |s| :: '0' <= s[i] <= '9'
  }

  function DecimalValue(s: string): nat
    requires forall i | 0 <= i < |s| :: '0' <= s[i] <= '9'
  {
    if s == [] then 0 else 10 * DecimalValue(s[..|s| - 1]) + (s[|s| - 1] as int - '0' as int)
  }

  /** Decimal text of a 32-bit signed integer; None for anything else, overflow included. */
  function ParseI32(s: string): Option<int> {
    var signed := s != [] && (s[0] == '-' || s[0] == '+');
    var digits := if signed then s[1..] else s;
    if !Digits(digits) then None
    else
      var n: int := if signed && s[0] == '-' then 0 - DecimalValue(digits) else DecimalValue(digits);
      if -0x8000_0000 <= n < 0x8000_0000 then Some(n) else None
  }

  function LowerChar(c: char): char {
    if 'A' <= c <= 'Z' then c - 'A' + 'a' else c
  }

  predicate EqualsIgnoringCase(s: string, lower: string) {
    |s| == |lower| && forall i | 0 <= i < |s| :: LowerChar(s[i]) == lower[i]
  }

  predicate Truthy(s: string) {
    || (ParseI32(s).Some? && ParseI32(s).value != 0)
    || EqualsIgnoringCase(s, "true")
    || EqualsIgnoringCase(s, "yes")
    || EqualsIgnoringCase(s, "on")
  }

  /** Whether the remote value of kind `k` is used although the user set `user`. */
  predicate UseRemote(k: Kind, user: string) {
    Vetoable(k) ==> Truthy(user)
  }

  /** What the INI entry of `c` shows, given what the user set. */
  function Shown(c: Config, user: Option<string>): string {
    if user.Some? && !UseRemote(c.kind, user.value) then user.value else c.value
  }

  /******* Merging *******/

  /** The first setting of `cs` written to `n`. */
  function Find(cs: seq<Config>, n: string): (r: Option<Config>)
    ensures r.Some? <==> n in Names(cs)
    ensures r.Some? ==> r.value in cs && Name(r.value) == n
  {
    if cs == [] then None
    else if Name(cs[0]) == n then Some(cs[0])
    else
      assert Names(cs) == {Name(cs[0])} + Names(cs[1..]);
      Find(cs[1..], n)
  }

  ghost predicate Distinct(cs: seq<Config>) {
    forall i, j | 0 <= i < j < |cs| :: Name(cs[i]) != Name(cs[j])
  }

  ghost predicate Carries(active: map<string, File>, id: string, n: string) {
    id in active && n in Names(active[id].configs)
  }

  /** `id` carries `n` and no active file carries it with a smaller priority number. */
  ghost predicate Wins(active: map<string, File>, id: string, n: string) {
    && Carries(active, id, n)
    && forall j :: Carries(active, j, n) ==> active[id].priority <= active[j].priority
  }

  /**
   `merged` holds, for each carried name once, the setting of a winning file. Where several
   files tie this allows more lists than one sort order of the files gives.
   */
  ghost predicate IsMerge(active: map<string, File>, merged: seq<Config>) {
    && Distinct(merged)
    && (forall id, n :: Carries(active, id, n) ==> n in Names(merged))
    && (forall n :: n in Names(merged) ==>
      exists id :: Wins(active, id, n) && Find(active[id].configs, n) == Find(merged, n))
  }

  ghost predicate DistinctPriorities(active: map<string, File>) {
    forall i, j :: i in active && j in active && active[i].priority == active[j].priority ==> i == j
  }

  /** Winning files that tie for a name agree on its setting. */
  ghost predicate TiesAgree(active: map<string, File>) {
    forall i, j, n :: Wins(active, i, n) && Wins(active, j, n) ==>
      Find(active[i].configs, n) == Find(active[j].configs, n)
  }

  ghost predicate SameSettings(a: seq<Config>, b: seq<Config>) {
    Names(a) == Names(b) && forall n :: Find(a, n) == Find(b, n)
  }

  /** Files of distinct priorities never tie. */
  lemma DistinctPrioritiesNeverTie(active: map<string, File>)
    requires DistinctPriorities(active)
    ensures TiesAgree(active)
  {
    forall i, j, n | Wins(active, i, n) && Wins(active, j, n) ensures i == j {
    }
  }

  /** Where ties agree, the merge is determined by the active files. */
  lemma MergeIsUnique(active: map<string, File>, m1: seq<Config>, m2: seq<Config>)
    requires IsMerge(active, m1) && IsMerge(active, m2) && TiesAgree(active)
    ensures SameSettings(m1, m2)
  {
    forall n
      ensures Find(m1, n) == Find(m2, n)
      ensures n in Names(m1) <==> n in Names(m2)
    {
      if n in Names(m1) {
        var i :| Wins(active, i, n) && Find(active[i].configs, n) == Find(m1, n);
        assert n in Names(m2);
        var j :| Wins(active, j, n) && Find(active[j].configs, n) == Find(m2, n);
      }
    }
  }

  /******* The user's view and the overlay *******/

  function Explicit(saved: map<string, Option<string>>): Ini {
    map n | n in saved && saved[n].Some? :: saved[n].value
  }

  /** What the overlay takes to be the user's own table. */
  function UserTable(s: State): Ini {
    s.ini - s.saved.Keys + Explicit(s.saved)
  }

  function UserValue(s: State, n: string): (r: Option<string>)
    ensures r == Lookup(UserTable(s), n)
  {
    if n in s.saved then s.saved[n] else Lookup(s.ini, n)
  }

  /** The table a user with entries `user` sees under the merged settings. */
  ghost function Overlay(user: Ini, merged: seq<Config>): Ini {
    user + map n | n in Names(merged) :: Shown(Find(merged, n).value, Lookup(user, n))
  }

  lemma OverlayAt(user: Ini, merged: seq<Config>, n: string)
    ensures Lookup(Overlay(user, merged), n) ==
            var c := Find(merged, n);
            if c.Some? then Some(Shown(c.value, Lookup(user, n))) else Lookup(user, n)
  {
  }

  ghost function SavedFor(s: State, merged: seq<Config>): map<string, Option<string>> {
    map n | n in Names(merged) :: UserValue(s, n)
  }

  /** The state after the merge is recomputed for the given active files. */
  ghost function Recomputed(s: State, active: map<string, File>, merged: seq<Config>): State {
    State(Overlay(UserTable(s), merged), active, merged, SavedFor(s, merged))
  }

  ghost predicate Settled(s: State) {
    s.ini == Overlay(UserTable(s), s.merged)
  }

  lemma RecomputeKeepsUser(s: State, active: map<string, File>, merged: seq<Config>)
    ensures UserTable(Recomputed(s, active, merged)) == UserTable(s)
    ensures Settled(Recomputed(s, active, merged))
  {
    var t := Recomputed(s, active, merged);
    forall n ensures Lookup(UserTable(t), n) == Lookup(UserTable(s), n) {
      assert UserValue(t, n) == UserValue(s, n);
    }
    SameLookups(UserTable(t), UserTable(s));
  }

  /******* User writes *******/

  /** Whether a reported write of `v` to the overridden name `n` reaches the INI entry. */
  function LetThrough(s: State, n: string, v: string): bool {
    var c := Find(s.merged, n);
    c.Some? && !UseRemote(c.value.kind, v)
  }

  function Write(s: State, n: string, v: string): State {
    if Guarded(n) && n in s.saved then
      s.(saved := s.saved[n := Some(v)],
         ini := if LetThrough(s, n, v) then s.ini[n := v] else s.ini)
    else
      s.(ini := s.ini[n := v])
  }

  /** The overlay takes note of a user write to `n`. */
  predicate Noted(s: State, n: string) {
    Guarded(n) || n !in s.saved
  }

  lemma WriteUpdatesUser(s: State, n: string, v: string)
    ensures UserTable(Write(s, n, v)) == if Noted(s, n) then UserTable(s)[n := v] else UserTable(s)
  {
    var t := Write(s, n, v);
    var u := if Noted(s, n) then UserTable(s)[n := v] else UserTable(s);
    forall m ensures Lookup(UserTable(t), m) == Lookup(u, m) {
      assert UserValue(t, m) == Lookup(UserTable(t), m);
      assert UserValue(s, m) == Lookup(UserTable(s), m);
    }
    SameLookups(UserTable(t), u);
  }

  /** The change callback of `n` lets the value `v` through. */
  predicate Accepts(s: State, n: string, v: string) {
    Guarded(n) && n in s.saved ==> LetThrough(s, n, v)
  }

  /** The state after the entry `n` is reset to its default. */
  function RestoredEntry(s: State, n: string, default: string): State {
    if n !in s.ini then s
    else
      s.(saved := if Guarded(n) && n in s.saved then s.saved[n := Some(default)] else s.saved,
         ini := if Accepts(s, n, default) then s.ini - {n} else s.ini)
  }

  /******* Runs *******/

  /**
   A delivery carries the merged list the code computed: ties between equal priorities
   are broken by hash-map order, so the list is an input constrained by `Enabled`.
   */
  datatype Event =
    | Add(id: string, file: File, merged: seq<Config>)
    | Remove(id: string, merged: seq<Config>)
    | UserWrite(name: string, value: string)
    | UserRestore(name: string, default: string)

  /** The events by which the user changes the entry `name`. */
  predicate ByUser(e: Event) {
    e.UserWrite? || e.UserRestore?
  }

  /** What the user wants the entry to be: a value, or unmodified. */
  function Wanted(e: Event): Option<string>
    requires ByUser(e)
  {
    if e.UserWrite? then Some(e.value) else None
  }

  /** What the overlay records as the user's value, or None if it takes no note. */
  function Recorded(s: State, e: Event): Option<Option<string>>
    requires ByUser(e)
  {
    if e.UserWrite? then if Noted(s, e.name) then Some(Some(e.value)) else None
    else if e.name !in s.saved then Some(None)
    else if Guarded(e.name) && e.name in s.ini then Some(Some(e.default))
    else None
  }

  ghost predicate Enabled(s: State, e: Event) {
    match e
    case Add(id, file, merged) => file.configs != [] ==> IsMerge(s.active[id := file], merged)
    case Remove(id, merged) => id in s.active ==> IsMerge(s.active - {id}, merged)
    case _ => true
  }

  ghost function Step(s: State, e: Event): State {
    match e
    case Add(id, file, merged) =>
      if file.configs == [] then s else Recomputed(s, s.active[id := file], merged)
    case Remove(id, merged) =>
      if id in s.active then Recomputed(s, s.active - {id}, merged) else s
    case UserWrite(n, v) => Write(s, n, v)
    case UserRestore(n, d) => RestoredEntry(s, n, d)
  }

  ghost predicate Valid(s: State, es: seq<Event>)
    decreases |es|
  {
    es == [] || (Enabled(s, es[0]) && Valid(Step(s, es[0]), es[1..]))
  }

  ghost function Exec(s: State, es: seq<Event>): State
    decreases |es|
  {
    if es == [] then s else Exec(Step(s, es[0]), es[1..])
  }

  function Fresh(ini: Ini): State {
    State(ini, map[], [], map[])
  }

  ghost predicate Invariant(s: State) {
    && IsMerge(s.active, s.merged)
    && s.saved.Keys == Names(s.merged)
    && (forall id :: id in s.active ==> s.active[id].configs != [])
  }

  lemma RecomputeKeepsInvariant(s: State, active: map<string, File>, merged: seq<Config>)
    requires IsMerge(active, merged) && forall id :: id in active ==> active[id].configs != []
    ensures Invariant(Recomputed(s, active, merged))
  {
  }

  lemma WriteKeepsInvariant(s: State, n: string, v: string)
    requires Invariant(s)
    ensures Invariant(Write(s, n, v))
  {
    assert Write(s, n, v).saved.Keys == s.saved.Keys;
  }

  lemma RestoreKeepsInvariant(s: State, n: string, d: string)
    requires Invariant(s)
    ensures Invariant(RestoredEntry(s, n, d))
  {
    assert RestoredEntry(s, n, d).saved.Keys == s.saved.Keys;
  }

  lemma StepKeepsInvariant(s: State, e: Event)
    requires Invariant(s) && Enabled(s, e)
    ensures Invariant(Step(s, e))
  {
    match e
    case Add(id, file, merged) =>
      if file.configs != [] {
        RecomputeKeepsInvariant(s, s.active[id := file], merged);
      }
    case Remove(id, merged) =>
      if id in s.active {
        RecomputeKeepsInvariant(s, s.active - {id}, merged);
      }
    case UserWrite(n, v) => WriteKeepsInvariant(s, n, v);
    case UserRestore(n, d) => RestoreKeepsInvariant(s, n, d);
  }

  lemma {:induction false} RunKeepsInvariant(s: State, es: seq<Event>)
    requires Invariant(s) && Valid(s, es)
    ensures Invariant(Exec(s, es))
    decreases |es|
  {
    if es != [] {
      StepKeepsInvariant(s, es[0]);
      RunKeepsInvariant(Step(s, es[0]), es[1..]);
    }
  }

  /******* No trace *******/

  /** A write of a value, or a reset. */
  type Change = (string, Option<string>)

  function Put(m: Ini, n: string, v: Option<string>): Ini {
    if v.Some? then m[n := v.value] else m - {n}
  }

  function ApplyWrites(m: Ini, ws: seq<Change>): Ini
    decreases |ws|
  {
    if ws == [] then m else ApplyWrites(Put(m, ws[0].0, ws[0].1), ws[1..])
  }

  /** Every change the user makes in a run. */
  function AllWrites(es: seq<Event>): seq<Change> {
    if es == [] then []
    else (if ByUser(es[0]) then [(es[0].name, Wanted(es[0]))] else []) + AllWrites(es[1..])
  }

  /** The user's changes in a run as the overlay records them. */
  ghost function NotedWrites(s: State, es: seq<Event>): seq<Change>
    decreases |es|
  {
    if es == [] then []
    else
      (if ByUser(es[0]) && Recorded(s, es[0]).Some? then [(es[0].name, Recorded(s, es[0]).value)] else [])
      + NotedWrites(Step(s, es[0]), es[1..])
  }

  lemma RestoreUpdatesUser(s: State, n: string, d: string)
    ensures var r := Recorded(s, UserRestore(n, d));
            UserTable(RestoredEntry(s, n, d)) == if r.Some? then Put(UserTable(s), n, r.value) else UserTable(s)
  {
    hide Guarded, LetThrough;
    var t, r := RestoredEntry(s, n, d), Recorded(s, UserRestore(n, d));
    var u := if r.Some? then Put(UserTable(s), n, r.value) else UserTable(s);
    forall m ensures Lookup(UserTable(t), m) == Lookup(u, m) {
      assert UserValue(t, m) == Lookup(UserTable(t), m);
      assert UserValue(s, m) == Lookup(UserTable(s), m);
    }
    SameLookups(UserTable(t), u);
  }

  lemma StepUpdatesUser(s: State, e: Event)
    ensures UserTable(Step(s, e)) ==
            if ByUser(e) && Recorded(s, e).Some? then Put(UserTable(s), e.name, Recorded(s, e).value) else UserTable(s)
  {
    match e
    case Add(id, file, merged) => RecomputeKeepsUser(s, s.active[id := file], merged);
    case Remove(id, merged) => RecomputeKeepsUser(s, s.active - {id}, merged);
    case UserWrite(n, v) => WriteUpdatesUser(s, n, v);
    case UserRestore(n, d) => RestoreUpdatesUser(s, n, d);
  }

  /** Over any run the overlay's idea of the user's table is made of the recorded changes alone. */
  lemma {:induction false} UserTableIsNotedWrites(s: State, es: seq<Event>)
    ensures UserTable(Exec(s, es)) == ApplyWrites(UserTable(s), NotedWrites(s, es))
    decreases |es|
  {
    if es != [] {
      var t := Step(s, es[0]);
      StepUpdatesUser(s, es[0]);
      UserTableIsNotedWrites(t, es[1..]);
      hide Step, UserTable, Recorded;
      var rest := NotedWrites(t, es[1..]);
      if ByUser(es[0]) && Recorded(s, es[0]).Some? {
        assert NotedWrites(s, es)[1..] == rest;
      } else {
        assert NotedWrites(s, es) == rest;
      }
    }
  }

  /** When no remote file is left, the INI table is exactly the user's noted writes. */
  lemma RemoteConfigLeavesNoTrace(ini: Ini, es: seq<Event>)
    requires Valid(Fresh(ini), es)
    requires Exec(Fresh(ini), es).active == map[]
    ensures Exec(Fresh(ini), es) == Fresh(ApplyWrites(ini, NotedWrites(Fresh(ini), es)))
  {
    RunKeepsInvariant(Fresh(ini), es);
    UserTableIsNotedWrites(Fresh(ini), es);
    FreshUser(ini);
    NothingActive(Exec(Fresh(ini), es));
  }

  lemma FreshUser(ini: Ini)
    ensures UserTable(Fresh(ini)) == ini
  {
  }

  lemma NothingActive(s: State)
    requires Invariant(s) && s.active == map[]
    ensures s == Fresh(UserTable(s))
  {
    EmptyMerge(s.merged);
    assert s.saved == map[];
    assert UserTable(s) == s.ini;
  }

  lemma NamedByFirst(cs: seq<Config>)
    requires cs != []
    ensures Name(cs[0]) in Names(cs)
  {
  }

  lemma EmptyMerge(merged: seq<Config>)
    requires IsMerge(map[], merged)
    ensures merged == []
  {
    if merged != [] {
      NamedByFirst(merged);
    }
  }

  ghost predicate WritesTo(es: seq<Event>, n: string) {
    exists i :: 0 <= i < |es| && ByUser(es[i]) && es[i].name == n
  }

  /**
   The change reaches the user's table as it was meant: a write was noted or set what the
   user had already; a reset found the entry not overridden, or found nothing to reset and
   nothing was recorded. This can be checked before the change.
   */
  predicate Counts(s: State, e: Event)
    requires ByUser(e)
  {
    if e.UserWrite? then Noted(s, e.name) || UserValue(s, e.name) == Some(e.value)
    else
      || e.name !in s.saved
      || (UserValue(s, e.name) == None && !(Guarded(e.name) && e.name in s.ini))
  }

  ghost predicate LastWriteCounts(s: State, es: seq<Event>, n: string)
    decreases |es|
  {
    WritesTo(es, n) ==>
      if WritesTo(es[1..], n) then LastWriteCounts(Step(s, es[0]), es[1..], n)
      else ByUser(es[0]) && Counts(s, es[0])
  }

  lemma NoWrites(s: State, u: Ini, es: seq<Event>, n: string)
    requires !WritesTo(es, n)
    ensures UserValue(Exec(s, es), n) == UserValue(s, n)
    ensures Lookup(ApplyWrites(u, AllWrites(es)), n) == Lookup(u, n)
    decreases |es|
  {
    hide Step, UserTable, Recorded;
    if es != [] {
      assert !(ByUser(es[0]) && es[0].name == n);
      forall i | 0 <= i < |es[1..]| ensures !(ByUser(es[1..][i]) && es[1..][i].name == n) {
        assert es[1..][i] == es[i + 1];
      }
      StepUpdatesUser(s, es[0]);
      FirstWrite(u, es);
      NoWrites(Step(s, es[0]), AfterFirst(u, es), es[1..], n);
    }
  }

  function AfterFirst(u: Ini, es: seq<Event>): Ini
    requires es != []
  {
    if ByUser(es[0]) then Put(u, es[0].name, Wanted(es[0])) else u
  }

  lemma FirstWrite(u: Ini, es: seq<Event>)
    requires es != []
    ensures ApplyWrites(u, AllWrites(es)) == ApplyWrites(AfterFirst(u, es), AllWrites(es[1..]))
  {
    if ByUser(es[0]) {
      assert AllWrites(es)[1..] == AllWrites(es[1..]);
    } else {
      assert AllWrites(es) == AllWrites(es[1..]);
    }
  }

  lemma OnlyFirstWrites(es: seq<Event>, n: string)
    requires WritesTo(es, n) && !WritesTo(es[1..], n)
    ensures ByUser(es[0]) && es[0].name == n
  {
    forall i | 1 <= i < |es| ensures !(ByUser(es[i]) && es[i].name == n) {
      assert es[i] == es[1..][i - 1];
    }
  }

  lemma CountsIff(s: State, e: Event)
    requires ByUser(e)
    ensures UserValue(Step(s, e), e.name) == Wanted(e) <==> Counts(s, e)
  {
    StepUpdatesUser(s, e);
    hide Guarded, UserTable, Step;
    assert UserValue(s, e.name) == Lookup(UserTable(s), e.name);
  }

  /**
   A setting the user changed ends up as the user's changes alone would have left it exactly
   when the last change to it counts.
   */
  lemma {:induction false} UserValueSurvivesIff(s: State, u: Ini, es: seq<Event>, n: string)
    requires UserValue(s, n) == Lookup(u, n) || WritesTo(es, n)
    ensures UserValue(Exec(s, es), n) == Lookup(ApplyWrites(u, AllWrites(es)), n)
            <==> LastWriteCounts(s, es, n)
    decreases |es|
  {
    hide Step, UserTable, Recorded, Counts;
    if !WritesTo(es, n) {
      NoWrites(s, u, es, n);
    } else {
      FirstWrite(u, es);
      if WritesTo(es[1..], n) {
        UserValueSurvivesIff(Step(s, es[0]), AfterFirst(u, es), es[1..], n);
      } else {
        OnlyFirstWrites(es, n);
        CountsIff(s, es[0]);
        NoWrites(Step(s, es[0]), AfterFirst(u, es), es[1..], n);
      }
    }
  }

  /** A run of one request leaves no trace in `n` exactly when the last change to `n` counts. */
  lemma NoTraceIff(ini: Ini, es: seq<Event>, n: string)
    requires Valid(Fresh(ini), es)
    requires Exec(Fresh(ini), es).active == map[]
    ensures Lookup(Exec(Fresh(ini), es).ini, n) == Lookup(ApplyWrites(ini, AllWrites(es)), n)
            <==> LastWriteCounts(Fresh(ini), es, n)
  {
    RemoteConfigLeavesNoTrace(ini, es);
    UserValueSurvivesIff(Fresh(ini), ini, es, n);
  }

  /** The user writes `n` but never resets it. */
  ghost predicate OnlyWrites(es: seq<Event>, n: string) {
    forall i | 0 <= i < |es| && es[i].UserRestore? :: es[i].name != n
  }

  /** A merged name is the name of a kind. */
  lemma OverriddenIsRemote(s: State, n: string)
    requires Invariant(s) && n in s.saved
    ensures Remote(n)
  {
    assert Find(s.merged, n).Some?;
    assert n == ConfigName(Find(s.merged, n).value.kind);
  }

  lemma {:induction false} GuardedWritesCount(s: State, es: seq<Event>, n: string)
    requires Invariant(s) && Valid(s, es)
    requires Remote(n) ==> Guarded(n) && OnlyWrites(es, n)
    ensures LastWriteCounts(s, es, n)
    decreases |es|
  {
    hide Step, Guarded, Remote, Invariant;
    if WritesTo(es, n) {
      StepKeepsInvariant(s, es[0]);
      if WritesTo(es[1..], n) {
        GuardedWritesCount(Step(s, es[0]), es[1..], n);
      } else {
        OnlyFirstWrites(es, n);
        if n in s.saved {
          OverriddenIsRemote(s, n);
        }
      }
    }
  }

  /** `n` ends up as the user's changes alone would have left it. */
  ghost predicate LeavesNone(ini: Ini, es: seq<Event>, n: string) {
    Lookup(Exec(Fresh(ini), es).ini, n) == Lookup(ApplyWrites(ini, AllWrites(es)), n)
  }

  /** No run in which the user writes entries leaves a trace in `n`. */
  ghost predicate LeavesNoTrace(n: string) {
    forall ini, es ::
      Valid(Fresh(ini), es) && Exec(Fresh(ini), es).active == map[] && OnlyWrites(es, n) ==> LeavesNone(ini, es, n)
  }

  /** No run in which the user writes and resets entries leaves a trace in `n`. */
  ghost predicate NeverLeavesTrace(n: string) {
    forall ini, es ::
      Valid(Fresh(ini), es) && Exec(Fresh(ini), es).active == map[] ==> LeavesNone(ini, es, n)
  }

  /** The settings user writes leave no trace in are those whose user writes reach the overlay. */
  lemma NoTraceExactlyForGuarded(n: string)
    ensures LeavesNoTrace(n) <==> (Remote(n) ==> Guarded(n))
  {
    if Remote(n) ==> Guarded(n) {
      forall ini, es | Valid(Fresh(ini), es) && Exec(Fresh(ini), es).active == map[] && OnlyWrites(es, n)
        ensures LeavesNone(ini, es, n)
      {
        NoTraceIff(ini, es, n);
        GuardedWritesCount(Fresh(ini), es, n);
      }
    } else {
      var k :| n == ConfigName(k);
      var es := LostWrite(k, "user");
      assert !LeavesNone(map[], es, n);
      assert !LeavesNoTrace(n);
    }
  }

  /** With resets among the user's changes, only the settings that are never overridden are free of traces. */
  lemma NoTraceExactlyForLocal(n: string)
    ensures NeverLeavesTrace(n) <==> !Remote(n)
  {
    if !Remote(n) {
      forall ini, es | Valid(Fresh(ini), es) && Exec(Fresh(ini), es).active == map[]
        ensures LeavesNone(ini, es, n)
      {
        NoTraceIff(ini, es, n);
        GuardedWritesCount(Fresh(ini), es, n);
      }
    } else {
      var k :| n == ConfigName(k);
      var es;
      if Guarded(n) {
        es := LostReset(k, "default");
      } else {
        es := LostWrite(k, "user");
      }
      assert !LeavesNone(map[], es, n);
    }
  }

  /** A write made while an unreported setting is overridden is undone with the override. */
  lemma LostWrite(k: Kind, v: string) returns (es: seq<Event>)
    requires !Guarded(ConfigName(k))
    ensures Valid(Fresh(map[]), es) && Exec(Fresh(map[]), es) == Fresh(map[])
    ensures AllWrites(es) == [(ConfigName(k), Some(v))] && OnlyWrites(es, ConfigName(k))
    ensures ApplyWrites(map[], AllWrites(es)) == map[ConfigName(k) := v]
  {
    var c := Config(k, "remote");
    var add := Add("id", File(0, [c]), [c]);
    var write, remove := UserWrite(ConfigName(k), v), Remove("id", []);
    es := [add] + ([write] + [remove]);
    hide Guarded, ConfigName, AllWrites, ApplyWrites, Valid, Exec, IsMerge, Overlay, UserTable, SavedFor;
    OverrideFresh("id", c);
    UndoneWrite("id", c, v);
    ThreeSteps(Fresh(map[]), add, write, remove);
    OneChange(add, write, remove);
    ApplyOne(map[], ConfigName(k), Some(v));
    assert map[][ConfigName(k) := v] == map[ConfigName(k) := v];
  }

  lemma OneChange(a: Event, b: Event, c: Event)
    requires ByUser(b) && !ByUser(a) && !ByUser(c)
    ensures AllWrites([a] + ([b] + [c])) == [(b.name, Wanted(b))]
  {
    assert ([a] + ([b] + [c]))[1..] == [b] + [c] && ([b] + [c])[1..] == [c] && [c][1..] == [];
    assert AllWrites([c]) == [] + AllWrites([]) == [];
    assert AllWrites([b] + [c]) == [(b.name, Wanted(b))] + [];
    assert AllWrites([a] + ([b] + [c])) == [] + AllWrites([b] + [c]);
  }

  lemma ApplyOne(m: Ini, n: string, v: Option<string>)
    ensures ApplyWrites(m, [(n, v)]) == Put(m, n, v)
  {
    assert [(n, v)][1..] == [];
  }

  /** A reset of an overridden reported setting is recorded as a write of its default. */
  lemma LostReset(k: Kind, default: string) returns (es: seq<Event>)
    requires Guarded(ConfigName(k))
    ensures Valid(Fresh(map[]), es) && Exec(Fresh(map[]), es) == Fresh(map[ConfigName(k) := default])
    ensures AllWrites(es) == [(ConfigName(k), None)] && ApplyWrites(map[], AllWrites(es)) == map[]
  {
    hide Guarded, ConfigName, AllWrites, ApplyWrites, Valid, Exec, Step, Enabled, Overridden, RestoredEntry;
    var c := Config(k, "remote");
    var add := Add("id", File(0, [c]), [c]);
    var reset, remove := UserRestore(Name(c), default), Remove("id", []);
    es := [add] + ([reset] + [remove]);
    OverrideFresh("id", c);
    ResetStep(Overridden("id", c), Name(c), default);
    RecordedReset("id", c, default);
    ThreeSteps(Fresh(map[]), add, reset, remove);
    OneChange(add, reset, remove);
    ApplyOne(map[], Name(c), None);
  }

  lemma ResetStep(s: State, n: string, d: string)
    ensures Enabled(s, UserRestore(n, d)) && Step(s, UserRestore(n, d)) == RestoredEntry(s, n, d)
  {
  }

  lemma RecordedReset(id: string, c: Config, default: string)
    requires Guarded(Name(c))
    ensures var t := RestoredEntry(Overridden(id, c), Name(c), default);
            Enabled(t, Remove(id, [])) && Step(t, Remove(id, [])) == Fresh(map[Name(c) := default])
  {
    hide Guarded, ConfigName, LetThrough;
    var t := RestoredEntry(Overridden(id, c), Name(c), default);
    var u := map[Name(c) := default];
    assert t.saved == map[Name(c) := Some(default)];
    assert UserTable(t) == u;
    assert t.active - {id} == map[];
    assert Names([]) == {};
    assert Overlay(u, []) == u;
  }

  function Overridden(id: string, c: Config): State {
    State(map[Name(c) := c.value], map[id := File(0, [c])], [c], map[Name(c) := None])
  }

  lemma OverrideFresh(id: string, c: Config)
    ensures Enabled(Fresh(map[]), Add(id, File(0, [c]), [c]))
    ensures Step(Fresh(map[]), Add(id, File(0, [c]), [c])) == Overridden(id, c)
  {
    OneFileMerge(id, File(0, [c]), c);
    OneSettingOverlay(c);
    assert UserTable(Fresh(map[])) == map[];
    assert SavedFor(Fresh(map[]), [c]) == map[Name(c) := None];
    assert map[][id := File(0, [c])] == map[id := File(0, [c])];
  }

  lemma OneSettingOverlay(c: Config)
    ensures Names([c]) == {Name(c)}
    ensures Overlay(map[], [c]) == map[Name(c) := c.value]
  {
    NamedByFirst([c]);
    forall n ensures Lookup(Overlay(map[], [c]), n) == Lookup(map[Name(c) := c.value], n) {
      OverlayAt(map[], [c], n);
    }
    SameLookups(Overlay(map[], [c]), map[Name(c) := c.value]);
  }

  lemma UndoneWrite(id: string, c: Config, v: string)
    requires !Guarded(Name(c))
    ensures var t := Write(Overridden(id, c), Name(c), v);
            Enabled(t, Remove(id, [])) && Step(t, Remove(id, [])) == Fresh(map[])
  {
    var t := Write(Overridden(id, c), Name(c), v);
    assert UserTable(t) == map[];
    assert t.active - {id} == map[];
    assert Names([]) == {};
  }

  lemma OneFileMerge(id: string, file: File, c: Config)
    requires file.configs == [c]
    ensures IsMerge(map[id := file], [c])
  {
    var active := map[id := file];
    assert Name(c) in Names([c]);
    assert Wins(active, id, Name(c)) && Find(active[id].configs, Name(c)) == Find([c], Name(c));
  }

  lemma ThreeSteps(s: State, a: Event, b: Event, c: Event)
    ensures Exec(s, [a] + ([b] + [c])) == Step(Step(Step(s, a), b), c)
    ensures Enabled(s, a) && Enabled(Step(s, a), b) && Enabled(Step(Step(s, a), b), c) ==>
              Valid(s, [a] + ([b] + [c]))
  {
    assert ([a] + ([b] + [c]))[1..] == [b] + [c];
    assert ([b] + [c])[1..] == [c];
    assert Exec(Step(Step(s, a), b), [c]) == Step(Step(Step(s, a), b), c);
    assert Exec(Step(s, a), [b] + [c]) == Exec(Step(Step(s, a), b), [c]);
    assert Valid(Step(Step(s, a), b), [c]) <==> Enabled(Step(Step(s, a), b), c);
  }

  /******* Overlay correctness *******/

  /** The events that recompute the merge. */
  ghost predicate Recomputes(s: State, e: Event) {
    (e.Add? && e.file.configs != []) || (e.Remove? && e.id in s.active)
  }

  /** Entry `n` shows the value of a winning file, or the user's where the user vetoes it. */
  ghost predicate ShowsWinner(t: State, n: string, user: Option<string>) {
    exists id :: Wins(t.active, id, n) && ShowsFile(t, t.active[id], n, user)
  }

  ghost predicate ShowsFile(t: State, file: File, n: string, user: Option<string>) {
    var c := Find(file.configs, n);
    c.Some? && Lookup(t.ini, n) == Some(Shown(c.value, user))
  }

  /**
   In every run, right after the merge is recomputed: a carried setting shows the value of
   a winning file unless the user vetoes it, every other setting shows the user's value,
   and the saved values are the user's values of exactly the carried settings.
   */
  lemma OverlayAfterRecompute(ini: Ini, es: seq<Event>, e: Event, n: string)
    requires Valid(Fresh(ini), es) && Enabled(Exec(Fresh(ini), es), e)
    requires Recomputes(Exec(Fresh(ini), es), e)
    ensures var t := Step(Exec(Fresh(ini), es), e);
            var user := Lookup(ApplyWrites(ini, NotedWrites(Fresh(ini), es)), n);
            && (n in t.saved <==> exists id :: Carries(t.active, id, n))
            && (n in t.saved ==>
              t.saved[n] == user && ShowsWinner(t, n, user))
            && (n !in t.saved ==> Lookup(t.ini, n) == user)
  {
    var s := Exec(Fresh(ini), es);
    UserTableIsNotedWrites(Fresh(ini), es);
    assert UserTable(Fresh(ini)) == ini;
    RecomputedAt(s, if e.Add? then s.active[e.id := e.file] else s.active - {e.id}, e.merged, n);
  }

  lemma RecomputedAt(s: State, active: map<string, File>, merged: seq<Config>, n: string)
    requires IsMerge(active, merged)
    ensures var t := Recomputed(s, active, merged);
            && (n in t.saved <==> exists id :: Carries(active, id, n))
            && (n in t.saved ==> t.saved[n] == UserValue(s, n) && ShowsWinner(t, n, UserValue(s, n)))
            && (n !in t.saved ==> Lookup(t.ini, n) == UserValue(s, n))
  {
    OverlayAt(UserTable(s), merged, n);
    if n in Names(merged) {
      var id :| Wins(active, id, n) && Find(active[id].configs, n) == Find(merged, n);
      assert Carries(active, id, n);
      assert ShowsFile(Recomputed(s, active, merged), active[id], n, UserValue(s, n));
    }
  }

  /** Whether a write leaves the overlay correct until the next recompute. */
  predicate StaysSettled(s: State, n: string, v: string) {
    var c := Find(s.merged, n);
    c.Some? && n in s.saved ==>
      if Guarded(n) then !UseRemote(c.value.kind, v) || Shown(c.value, s.saved[n]) == c.value.value
      else v == c.value.value
  }

  /**
   A user write keeps the overlay correct exactly when it does not lift a veto (the entry
   keeps the vetoing value) and does not overwrite an unreported setting.
   */
  lemma WriteStaysSettledIff(s: State, n: string, v: string)
    requires Invariant(s) && Settled(s)
    ensures Settled(Write(s, n, v)) <==> StaysSettled(s, n, v)
  {
    var t := Write(s, n, v);
    var o := Overlay(UserTable(t), t.merged);
    forall m | m != n ensures Lookup(t.ini, m) == Lookup(o, m) {
      OtherEntrySettled(s, n, v, m);
    }
    WrittenEntrySettled(s, n, v);
    if StaysSettled(s, n, v) {
      SameLookups(t.ini, o);
    }
  }

  lemma OtherEntrySettled(s: State, n: string, v: string, m: string)
    requires Settled(s) && m != n
    ensures Lookup(Write(s, n, v).ini, m) == Lookup(Overlay(UserTable(Write(s, n, v)), s.merged), m)
  {
    WriteLeavesOthers(s, n, v, m);
    EntryStaysSettled(s, Write(s, n, v), m);
  }

  lemma WriteLeavesOthers(s: State, n: string, v: string, m: string)
    requires m != n
    ensures UserValue(Write(s, n, v), m) == UserValue(s, m)
    ensures Lookup(Write(s, n, v).ini, m) == Lookup(s.ini, m)
  {
  }

  lemma EntryStaysSettled(s: State, t: State, m: string)
    requires Settled(s) && UserValue(t, m) == UserValue(s, m) && Lookup(t.ini, m) == Lookup(s.ini, m)
    ensures Lookup(t.ini, m) == Lookup(Overlay(UserTable(t), s.merged), m)
  {
    OverlayAt(UserTable(s), s.merged, m);
    OverlayAt(UserTable(t), s.merged, m);
  }

  lemma WrittenEntrySettled(s: State, n: string, v: string)
    requires Settled(s) && s.saved.Keys == Names(s.merged)
    ensures Lookup(Write(s, n, v).ini, n) == Lookup(Overlay(UserTable(Write(s, n, v)), s.merged), n)
            <==> StaysSettled(s, n, v)
  {
    WriteUpdatesUser(s, n, v);
    OverlayAt(UserTable(s), s.merged, n);
    OverlayAt(UserTable(Write(s, n, v)), s.merged, n);
    assert UserValue(s, n) == Lookup(UserTable(s), n);
    var c := Find(s.merged, n);
    if c.Some? {
      VetoableIsGuarded(c.value.kind);
    }
  }

  /**
   A reset of an overridden setting keeps the overlay correct exactly when the setting is
   reported, its default vetoes nothing and no veto was shown.
   */
  lemma RestoreStaysSettledIff(s: State, n: string, d: string)
    requires Invariant(s) && Settled(s)
    ensures Settled(RestoredEntry(s, n, d)) <==>
            (n in s.saved ==> && Guarded(n) && !LetThrough(s, n, d)
                              && Shown(Find(s.merged, n).value, s.saved[n]) == Find(s.merged, n).value.value)
  {
    var t := RestoredEntry(s, n, d);
    var o := Overlay(UserTable(t), t.merged);
    forall m | m != n ensures Lookup(t.ini, m) == Lookup(o, m) {
      RestoreLeavesOthers(s, n, d, m);
      EntryStaysSettled(s, t, m);
    }
    ResetEntrySettled(s, n, d);
    hide Settled, RestoredEntry, Overlay, UserTable, Guarded, LetThrough, Shown;
    if Lookup(t.ini, n) == Lookup(o, n) {
      SameLookups(t.ini, o);
    }
    SettledMeans(t);
  }

  lemma SettledMeans(s: State)
    ensures Settled(s) <==> s.ini == Overlay(UserTable(s), s.merged)
  {
  }

  lemma RestoreLeavesOthers(s: State, n: string, d: string, m: string)
    requires m != n
    ensures UserValue(RestoredEntry(s, n, d), m) == UserValue(s, m)
    ensures Lookup(RestoredEntry(s, n, d).ini, m) == Lookup(s.ini, m)
  {
  }

  lemma ResetEntrySettled(s: State, n: string, d: string)
    requires Settled(s) && s.saved.Keys == Names(s.merged)
    ensures Lookup(RestoredEntry(s, n, d).ini, n) == Lookup(Overlay(UserTable(RestoredEntry(s, n, d)), s.merged), n)
            <==>
            (n in s.saved ==> && Guarded(n) && !LetThrough(s, n, d)
                              && Shown(Find(s.merged, n).value, s.saved[n]) == Find(s.merged, n).value.value)
  {
    RestoreUpdatesUser(s, n, d);
    OverlayAt(UserTable(s), s.merged, n);
    OverlayAt(UserTable(RestoredEntry(s, n, d)), s.merged, n);
    hide Guarded, UseRemote, Overlay;
    assert UserValue(s, n) == Lookup(UserTable(s), n);
    assert n in s.saved <==> Find(s.merged, n).Some?;
  }

  lemma VetoableIsGuarded(k: Kind)
    ensures Vetoable(k) ==> Guarded(ConfigName(k))
  {
    assert Vetoable(k) ==> Reported(k) && ConfigName(k) == ConfigName(k);
  }

  /** The state of a user value `user` under a merged setting it vetoes. */
  function Vetoed(id: string, c: Config, user: string): State {
    State(map[Name(c) := user], map[id := File(0, [c])], [c], map[Name(c) := Some(user)])
  }

  lemma VetoHolds(id: string, c: Config, user: string)
    requires Vetoable(c.kind) && !Truthy(user)
    ensures var s := Fresh(map[Name(c) := user]);
            && Enabled(s, Add(id, File(0, [c]), [c]))
            && Step(s, Add(id, File(0, [c]), [c])) == Vetoed(id, c, user)
  {
    hide Truthy, ConfigName;
    var s, ini := Fresh(map[Name(c) := user]), map[Name(c) := user];
    OneFileMerge(id, File(0, [c]), c);
    NamedByFirst([c]);
    FreshUser(ini);
    assert Names([c]) == {Name(c)};
    assert Overlay(ini, [c]) == ini;
    assert SavedFor(s, [c]) == map[Name(c) := Some(user)];
    assert map[][id := File(0, [c])] == map[id := File(0, [c])];
  }

  lemma LiftIsNotShown(id: string, c: Config, user: string, lifted: string)
    requires Vetoable(c.kind) && !Truthy(user) && Truthy(lifted) && c.value != user
    ensures var s := Write(Vetoed(id, c, user), Name(c), lifted);
            && s == Vetoed(id, c, user).(saved := map[Name(c) := Some(lifted)])
            && !Settled(s)
  {
    VetoableIsGuarded(c.kind);
    hide Truthy, ConfigName, Guarded;
    NamedByFirst([c]);
    assert Find([c], Name(c)) == Some(c);
    var s := Write(Vetoed(id, c, user), Name(c), lifted);
    assert s.saved == map[Name(c) := Some(lifted)];
    OverlayAt(UserTable(s), [c], Name(c));
    assert UserValue(s, Name(c)) == Some(lifted);
    assert Lookup(s.ini, Name(c)) == Some(user);
  }

  /** The user vetoes a setting before it is delivered and lifts the veto afterwards: the veto stays shown. */
  lemma LiftedVeto(k: Kind, remote: string, user: string, lifted: string) returns (es: seq<Event>)
    requires Vetoable(k) && !Truthy(user) && Truthy(lifted) && remote != user
    ensures Valid(Fresh(map[]), es) && !Settled(Exec(Fresh(map[]), es))
    ensures Lookup(Exec(Fresh(map[]), es).ini, ConfigName(k)) == Some(user)
    ensures UserValue(Exec(Fresh(map[]), es), ConfigName(k)) == Some(lifted)
  {
    var c := Config(k, remote);
    var veto, add, lift := UserWrite(Name(c), user), Add("id", File(0, [c]), [c]), UserWrite(Name(c), lifted);
    hide Truthy, ConfigName, Guarded, Settled, IsMerge;
    es := [veto] + ([add] + [lift]);
    assert Step(Fresh(map[]), veto) == Fresh(map[Name(c) := user]);
    VetoHolds("id", c, user);
    LiftIsNotShown("id", c, user, lifted);
    ThreeSteps(Fresh(map[]), veto, add, lift);
  }

  /** Either of two files of one priority may be merged. */
  lemma EitherMayWin(i: string, j: string, c: Config, d: Config)
    requires i != j && c.kind == d.kind
    ensures IsMerge(map[i := File(0, [c]), j := File(0, [d])], [c])
    ensures IsMerge(map[i := File(0, [c]), j := File(0, [d])], [d])
  {
    var active := map[i := File(0, [c]), j := File(0, [d])];
    hide ConfigName;
    NamedByFirst([c]);
    NamedByFirst([d]);
    assert Names([c]) == {Name(c)} && Names([d]) == {Name(c)};
    assert Wins(active, i, Name(c)) && Find(active[i].configs, Name(c)) == Find([c], Name(c));
    assert Wins(active, j, Name(c)) && Find(active[j].configs, Name(c)) == Find([d], Name(c));
  }

  lemma SecondDelivery(i: string, j: string, c: Config, d: Config, m: Config)
    requires i != j && c.kind == d.kind && (m == c || m == d)
    ensures var s, e := Overridden(i, c), Add(j, File(0, [d]), [m]);
            && Enabled(s, e) && Step(s, e).ini == map[Name(m) := m.value]
            && Step(s, e).active == map[i := File(0, [c]), j := File(0, [d])]
  {
    EitherMayWin(i, j, c, d);
    var s := Overridden(i, c);
    assert s.active[j := File(0, [d])] == map[i := File(0, [c]), j := File(0, [d])];
    assert UserTable(s) == map[];
    OneSettingOverlay(m);
  }

  /** Two requests with the same deliveries end in different tables when files of one priority disagree. */
  lemma TiesMayDiffer(k: Kind, x: string, y: string) returns (es1: seq<Event>, es2: seq<Event>)
    requires x != y
    ensures Valid(Fresh(map[]), es1) && Valid(Fresh(map[]), es2)
    ensures Exec(Fresh(map[]), es1).active == Exec(Fresh(map[]), es2).active
    ensures Lookup(Exec(Fresh(map[]), es1).ini, ConfigName(k)) == Some(x)
    ensures Lookup(Exec(Fresh(map[]), es2).ini, ConfigName(k)) == Some(y)
  {
    var c, d := Config(k, x), Config(k, y);
    var first := Add("i", File(0, [c]), [c]);
    var second1, second2 := Add("j", File(0, [d]), [c]), Add("j", File(0, [d]), [d]);
    es1, es2 := [first] + [second1], [first] + [second2];
    OverrideFresh("i", c);
    SecondDelivery("i", "j", c, d, c);
    SecondDelivery("i", "j", c, d, d);
    TwoSteps(Fresh(map[]), first, second1);
    TwoSteps(Fresh(map[]), first, second2);
  }

  lemma TwoSteps(s: State, a: Event, b: Event)
    requires Enabled(s, a) && Enabled(Step(s, a), b)
    ensures Valid(s, [a] + [b]) && Exec(s, [a] + [b]) == Step(Step(s, a), b)
  {
    hide Step, Enabled;
    assert ([a] + [b])[1..] == [b] && [b][1..] == [];
    assert Valid(Step(s, a), [b]);
    assert Exec(Step(s, a), [b]) == Step(Step(s, a), b);
  }

  /******* History independence *******/

  /** The version of `id` that survives: the last non-empty one, unless removed since. */
  function Survivor(last: Option<File>, es: seq<Event>, id: string): Option<File>
    decreases |es|
  {
    if es == [] then last
    else if es[0].Add? && es[0].id == id && es[0].file.configs != [] then
      Survivor(Some(es[0].file), es[1..], id)
    else if es[0].Remove? && es[0].id == id then Survivor(None, es[1..], id)
    else Survivor(last, es[1..], id)
  }

  lemma {:induction false} ActiveIsSurvivors(s: State, es: seq<Event>, id: string)
    ensures Lookup(Exec(s, es).active, id) == Survivor(Lookup(s.active, id), es, id)
    decreases |es|
  {
    if es != [] {
      ActiveIsSurvivors(Step(s, es[0]), es[1..], id);
    }
  }

  /** A settled state is determined by the user's table and the active files. */
  lemma SettledStateIsDetermined(s: State, t: State)
    requires Invariant(s) && Settled(s) && Invariant(t) && Settled(t)
    requires UserTable(s) == UserTable(t) && s.active == t.active && TiesAgree(s.active)
    ensures s.ini == t.ini && s.saved == t.saved
  {
    MergeIsUnique(s.active, s.merged, t.merged);
    SameMergeSameState(s, t);
  }

  lemma SameMergeSameState(s: State, t: State)
    requires Settled(s) && s.saved.Keys == Names(s.merged)
    requires Settled(t) && t.saved.Keys == Names(t.merged)
    requires UserTable(s) == UserTable(t) && SameSettings(s.merged, t.merged)
    ensures s.ini == t.ini && s.saved == t.saved
  {
    hide Settled, UserTable, Find, Names;
    SameIni(s, t);
    SavedAgree(s, t);
  }

  lemma SavedAgree(s: State, t: State)
    requires s.saved.Keys == t.saved.Keys && UserTable(s) == UserTable(t)
    ensures s.saved == t.saved
  {
    hide UserTable;
    forall n | n in s.saved ensures s.saved[n] == t.saved[n] {
      assert n in t.saved.Keys;
      SameSaved(s, t, n);
    }
  }

  lemma SameIni(s: State, t: State)
    requires Settled(s) && Settled(t) && UserTable(s) == UserTable(t) && SameSettings(s.merged, t.merged)
    ensures s.ini == t.ini
  {
    forall n ensures Lookup(s.ini, n) == Lookup(t.ini, n) {
      SameEntry(s, t, n);
    }
    SameLookups(s.ini, t.ini);
  }

  lemma SameEntry(s: State, t: State, n: string)
    requires Settled(s) && Settled(t) && UserTable(s) == UserTable(t) && Find(s.merged, n) == Find(t.merged, n)
    ensures Lookup(s.ini, n) == Lookup(t.ini, n)
  {
    OverlayAt(UserTable(s), s.merged, n);
    OverlayAt(UserTable(t), t.merged, n);
  }

  lemma SameSaved(s: State, t: State, n: string)
    requires UserTable(s) == UserTable(t) && n in s.saved && n in t.saved
    ensures s.saved[n] == t.saved[n]
  {
    assert UserValue(s, n) == UserValue(t, n);
  }

  ghost predicate WritesFirst(es: seq<Event>) {
    forall i, j | 0 <= i < j < |es| && ByUser(es[j]) :: ByUser(es[i])
  }

  lemma {:induction false} DeliveriesSettle(s: State, es: seq<Event>)
    requires Settled(s)
    requires forall i | 0 <= i < |es| :: !ByUser(es[i])
    ensures Settled(Exec(s, es))
    ensures UserTable(Exec(s, es)) == UserTable(s)
    ensures AllWrites(es) == []
    decreases |es|
  {
    if es != [] {
      var e := es[0];
      if e.Add? {
        RecomputeKeepsUser(s, s.active[e.id := e.file], e.merged);
      } else {
        RecomputeKeepsUser(s, s.active - {e.id}, e.merged);
      }
      DeliveriesSettle(Step(s, e), es[1..]);
    }
  }

  lemma {:induction false} WritesFirstSettle(ini: Ini, es: seq<Event>)
    requires WritesFirst(es)
    ensures Settled(Exec(Fresh(ini), es))
    ensures UserTable(Exec(Fresh(ini), es)) == ApplyWrites(ini, AllWrites(es))
    decreases |es|
  {
    var s := Fresh(ini);
    assert UserTable(s) == ini && Settled(s);
    if es != [] && ByUser(es[0]) {
      FirstWrite(ini, es);
      assert Step(s, es[0]) == Fresh(AfterFirst(ini, es));
      WritesFirstSettle(AfterFirst(ini, es), es[1..]);
    } else {
      DeliveriesSettle(s, es);
    }
  }

  /**
   Two requests with the same user writes made before any delivery, and the same surviving
   files without disagreeing ties, end in the same INI table with the same saved values, in
   whatever order files were added, replaced and removed.
   */
  lemma HistoryIndependence(ini: Ini, es1: seq<Event>, es2: seq<Event>)
    requires Valid(Fresh(ini), es1) && Valid(Fresh(ini), es2)
    requires WritesFirst(es1) && WritesFirst(es2) && AllWrites(es1) == AllWrites(es2)
    requires forall id :: Survivor(None, es1, id) == Survivor(None, es2, id)
    requires TiesAgree(Exec(Fresh(ini), es1).active)
    ensures Exec(Fresh(ini), es1).ini == Exec(Fresh(ini), es2).ini
    ensures Exec(Fresh(ini), es1).saved == Exec(Fresh(ini), es2).saved
  {
    var s, t := Exec(Fresh(ini), es1), Exec(Fresh(ini), es2);
    forall id ensures Lookup(s.active, id) == Lookup(t.active, id) {
      ActiveIsSurvivors(Fresh(ini), es1, id);
      ActiveIsSurvivors(Fresh(ini), es2, id);
    }
    SameLookups(s.active, t.active);
    RunKeepsInvariant(Fresh(ini), es1);
    RunKeepsInvariant(Fresh(ini), es2);
    WritesFirstSettle(ini, es1);
    WritesFirstSettle(ini, es2);
    SettledStateIsDetermined(s, t);
  }
}

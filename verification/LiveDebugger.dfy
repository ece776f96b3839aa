/**
 The live-debugger hook table: probes are delivered, replaced, withdrawn and switched on and
 off, and each installed hook points into the configuration it was installed for.
 */
module LiveDebugger {
  import opened Options

  datatype Probe = Probe(id: string, spec: string)

  datatype Data = ProbeData(probe: Probe) | ServiceData(id: string)

  /** A delivered configuration; `box` stands for its heap address and is never reused. */
  datatype Entry = Entry(box: nat, data: Data)

  /** `installed` is the engine's side: each hook with the configuration it points into. */
  datatype State = State(
    active: map<string, Entry>,
    spans: map<string, int>,
    enabled: bool,
    installed: map<int, nat>,
    nextBox: nat)

  function Fresh(enabled: bool): State {
    State(map[], map[], enabled, map[], 0)
  }

  /******* Steps *******/

  /** `hook` and `hooks` are what the engine answers to each set_probe call. */
  datatype Event =
    | Deliver(id: string, data: Data, hook: int)
    | Withdraw(id: string)
    | Toggle(enabled: bool, hooks: map<string, int>)

  /** The engine and the table once the hook of `id`, if any, is removed. */
  function Unhook(s: State, id: string): State {
    if id in s.spans then s.(installed := s.installed - {s.spans[id]}, spans := s.spans - {id}) else s
  }

  function ApplyProbe(s: State, id: string, box: nat, hook: int): State {
    if !s.enabled then s
    else
      var t := Unhook(s, id);
      if hook >= 0 then t.(spans := t.spans[id := hook], installed := t.installed[hook := box]) else t
  }

  function Probes(active: map<string, Entry>): set<string> {
    set id | id in active && active[id].data.ProbeData?
  }

  /** The probes the engine accepted when all of them were installed again. */
  function Accepted(active: map<string, Entry>, hooks: map<string, int>): map<string, int> {
    map id | id in hooks && id in Probes(active) && hooks[id] >= 0 :: hooks[id]
  }

  ghost function InstalledFor(active: map<string, Entry>, spans: map<string, int>): map<int, nat>
    requires Injective(spans) && spans.Keys <= active.Keys
  {
    map h | h in spans.Values :: active[Owner(spans, h)].box
  }

  ghost predicate Injective(spans: map<string, int>) {
    forall i, j :: i in spans && j in spans && spans[i] == spans[j] ==> i == j
  }

  ghost function Owner(spans: map<string, int>, hook: int): (id: string)
    requires hook in spans.Values
    ensures id in spans && spans[id] == hook
  {
    var id :| id in spans && spans[id] == hook;
    id
  }

  /** The engine answers a call with a negative number or with a hook that is not in use. */
  ghost predicate Enabled(s: State, e: Event) {
    match e
    case Deliver(id, data, hook) =>
      data.ProbeData? && s.enabled && hook >= 0 ==> hook !in Unhook(s, id).installed
    case Withdraw(_) => true
    case Toggle(enabled, hooks) =>
      enabled && !s.enabled ==>
      && hooks.Keys == Probes(s.active)
      && Injective(Accepted(s.active, hooks))
      && (forall id :: id in hooks && hooks[id] >= 0 ==> hooks[id] !in s.installed)
  }

  ghost function Step(s: State, e: Event): State
    requires Enabled(s, e)
  {
    match e
    case Deliver(id, data, hook) =>
      var t := s.(active := s.active[id := Entry(s.nextBox, data)], nextBox := s.nextBox + 1);
      if data.ProbeData? then ApplyProbe(t, id, s.nextBox, hook) else t
    case Withdraw(id) =>
      if id !in s.active then s
      else
        var t := s.(active := s.active - {id});
        if s.active[id].data.ProbeData? then Unhook(t, id) else t
    case Toggle(enabled, hooks) =>
      if s.enabled == enabled then s
      else if !enabled then
        s.(enabled := false, installed := s.installed - s.spans.Values, spans := map[])
      else
        var reinstalled := Accepted(s.active, hooks);
        s.(enabled := true, spans := s.spans + reinstalled,
           installed := s.installed + InstalledFor(s.active, reinstalled))
  }

  ghost predicate Valid(s: State, es: seq<Event>)
    decreases |es|
  {
    es == [] || (Enabled(s, es[0]) && Valid(Step(s, es[0]), es[1..]))
  }

  ghost function Exec(s: State, es: seq<Event>): State
    requires Valid(s, es)
    decreases |es|
  {
    if es == [] then s else Exec(Step(s, es[0]), es[1..])
  }

  /******* Hook ownership *******/

  /** The engine's hooks are exactly the table's, each owned by one configuration. */
  ghost predicate Owned(s: State) {
    && s.installed.Keys == s.spans.Values
    && Injective(s.spans)
    && (!s.enabled ==> s.spans == map[])
  }

  /** Unhooking removes one installed hook and leaves the others alone. */
  lemma UnhookOwned(s: State, id: string)
    requires Owned(s)
    ensures Owned(Unhook(s, id))
    ensures id in s.spans ==> s.spans[id] in s.installed
  {
    if id in s.spans {
      var t := Unhook(s, id);
      forall h ensures h in t.installed.Keys <==> h in t.spans.Values {
        if h in t.installed.Keys {
          var j := Owner(s.spans, h);
          assert j in t.spans && t.spans[j] == h;
        }
      }
    }
  }

  lemma HookOwned(t: State, id: string, box: nat, hook: int)
    requires Owned(t) && t.enabled && id !in t.spans && hook !in t.installed
    ensures Owned(t.(spans := t.spans[id := hook], installed := t.installed[hook := box]))
  {
    var u := t.(spans := t.spans[id := hook], installed := t.installed[hook := box]);
    forall j | j in t.spans ensures t.spans[j] != hook {
      assert t.spans[j] in t.spans.Values;
    }
    forall h ensures h in u.installed.Keys <==> h in u.spans.Values {
      if h in u.installed.Keys {
        var j := if h == hook then id else Owner(t.spans, h);
        assert j in u.spans && u.spans[j] == h;
      }
    }
  }

  lemma DeliverOwned(s: State, id: string, data: Data, hook: int)
    requires Owned(s) && Enabled(s, Deliver(id, data, hook))
    ensures Owned(Step(s, Deliver(id, data, hook)))
  {
    var t := s.(active := s.active[id := Entry(s.nextBox, data)], nextBox := s.nextBox + 1);
    if data.ProbeData? && s.enabled {
      UnhookOwned(t, id);
      if hook >= 0 {
        HookOwned(Unhook(t, id), id, s.nextBox, hook);
      }
    }
  }

  lemma StepOwned(s: State, e: Event)
    requires Owned(s) && Enabled(s, e)
    ensures Owned(Step(s, e))
  {
    match e
    case Deliver(id, data, hook) => DeliverOwned(s, id, data, hook);
    case Withdraw(id) => UnhookOwned(s.(active := s.active - {id}), id);
    case Toggle(enabled, hooks) =>
      if enabled && !s.enabled {
        assert Step(s, e).spans == Accepted(s.active, hooks);
      }
  }

  /**
   In every run the installed hooks are exactly the table's, no hook belongs to two
   configurations, and none is installed while dynamic instrumentation is off.
   */
  lemma {:induction false} HooksAreOwned(s: State, es: seq<Event>)
    requires Owned(s) && Valid(s, es)
    ensures Owned(Exec(s, es))
    decreases |es|
  {
    if es != [] {
      StepOwned(s, es[0]);
      HooksAreOwned(Step(s, es[0]), es[1..]);
    }
  }

  /******* Dangling hooks *******/

  /** Every hook points into the probe that is active under its configuration id. */
  ghost predicate NoDangling(s: State) {
    forall id :: id in s.spans ==>
      && id in Probes(s.active)
      && Lookup(s.installed, s.spans[id]) == Some(s.active[id].box)
  }

  /** A service configuration arrives under the id of a hooked probe. */
  ghost predicate Orphans(s: State, e: Event) {
    e.Deliver? && e.data.ServiceData? && e.id in s.spans
  }

  /** Removing the hook of `id` touches no other hook. */
  lemma UnhookOthers(s: State, id: string, j: string)
    requires Owned(s) && j in s.spans && j != id
    ensures var t := Unhook(s, id);
            j in t.spans && t.spans[j] == s.spans[j]
            && Lookup(t.installed, s.spans[j]) == Lookup(s.installed, s.spans[j])
  {
  }

  lemma DeliverDangling(s: State, id: string, data: Data, hook: int)
    requires Owned(s) && NoDangling(s) && Enabled(s, Deliver(id, data, hook))
    ensures NoDangling(Step(s, Deliver(id, data, hook))) <==> !(data.ServiceData? && id in s.spans)
  {
    var t := Step(s, Deliver(id, data, hook));
    forall j | j in t.spans && j != id
      ensures j in Probes(t.active) && Lookup(t.installed, t.spans[j]) == Some(t.active[j].box)
    {
      UnhookOthers(s, id, j);
      assert s.spans[j] in s.spans.Values;
    }
    if data.ServiceData? && id in s.spans {
      assert id in t.spans && id !in Probes(t.active);
    } else {
      assert id in t.spans ==> id in Probes(t.active) && Lookup(t.installed, t.spans[id]) == Some(t.active[id].box);
    }
  }

  lemma WithdrawDangling(s: State, id: string)
    requires Owned(s) && NoDangling(s)
    ensures NoDangling(Step(s, Withdraw(id)))
  {
    var t := Step(s, Withdraw(id));
    forall j | j in t.spans
      ensures j in Probes(t.active) && Lookup(t.installed, t.spans[j]) == Some(t.active[j].box)
    {
      if j != id {
        UnhookOthers(s, id, j);
      }
    }
  }

  lemma ToggleDangling(s: State, enabled: bool, hooks: map<string, int>)
    requires Owned(s) && NoDangling(s) && Enabled(s, Toggle(enabled, hooks))
    ensures NoDangling(Step(s, Toggle(enabled, hooks)))
  {
    var t := Step(s, Toggle(enabled, hooks));
    if enabled && !s.enabled {
      forall j | j in t.spans ensures Lookup(t.installed, t.spans[j]) == Some(s.active[j].box) {
        assert t.spans[j] in t.spans.Values;
        assert Owner(t.spans, t.spans[j]) == j;
      }
    }
  }

  /** A step leaves a hook dangling exactly when it delivers a service over a hooked probe. */
  lemma DanglingIff(s: State, e: Event)
    requires Owned(s) && NoDangling(s) && Enabled(s, e)
    ensures NoDangling(Step(s, e)) <==> !Orphans(s, e)
  {
    match e
    case Deliver(id, data, hook) => DeliverDangling(s, id, data, hook);
    case Withdraw(id) => WithdrawDangling(s, id);
    case Toggle(enabled, hooks) => ToggleDangling(s, enabled, hooks);
  }

  /** A probe is hooked and a service configuration delivered under its id: the hook points to the old one. */
  lemma ServiceOverProbe(id: string, probe: Probe, service: string) returns (es: seq<Event>)
    ensures Valid(Fresh(true), es) && !NoDangling(Exec(Fresh(true), es))
    ensures var s := Exec(Fresh(true), es);
            && s.spans == map[id := 0] && s.installed == map[0 := 0]
            && id in s.active && s.active[id] == Entry(1, ServiceData(service))
  {
    var e, e' := Deliver(id, ProbeData(probe), 0), Deliver(id, ServiceData(service), 0);
    es := [e] + [e'];
    var s := State(map[id := Entry(0, ProbeData(probe))], map[id := 0], true, map[0 := 0], 1);
    assert Enabled(Fresh(true), e);
    assert map[][id := Entry(0, ProbeData(probe))] == s.active;
    assert map[][id := 0] == s.spans && map[][0 := 0] == s.installed;
    assert Step(Fresh(true), e) == s;
    var t := s.(active := map[id := Entry(1, ServiceData(service))], nextBox := 2);
    assert s.active[id := Entry(1, ServiceData(service))] == t.active;
    assert Enabled(s, e') && Step(s, e') == t;
    assert id in t.spans && id !in Probes(t.active);
    hide Step, Enabled;
    assert es[1..] == [e'] && [e'][1..] == [];
    assert Valid(s, [e']) && Exec(s, [e']) == t;
  }

  /** Each id is used for probes only or for service configurations only. */
  ghost predicate SteadyIds(isProbe: string -> bool, es: seq<Event>) {
    forall i | 0 <= i < |es| && es[i].Deliver? :: es[i].data.ProbeData? == isProbe(es[i].id)
  }

  ghost predicate SteadyActive(isProbe: string -> bool, s: State) {
    forall id :: id in s.active ==> s.active[id].data.ProbeData? == isProbe(id)
  }

  lemma SteadyStep(isProbe: string -> bool, s: State, es: seq<Event>)
    requires NoDangling(s) && SteadyActive(isProbe, s) && SteadyIds(isProbe, es)
    requires es != [] && Enabled(s, es[0])
    ensures !Orphans(s, es[0]) && SteadyActive(isProbe, Step(s, es[0]))
  {
    assert es[0].Deliver? ==> es[0].data.ProbeData? == isProbe(es[0].id);
  }

  /** Where ids keep their kind, no run leaves a hook dangling. */
  lemma {:induction false} NoHookDangles(isProbe: string -> bool, s: State, es: seq<Event>)
    requires Owned(s) && NoDangling(s) && SteadyActive(isProbe, s)
    requires Valid(s, es) && SteadyIds(isProbe, es)
    ensures NoDangling(Exec(s, es))
    decreases |es|
  {
    hide Owned, NoDangling, Step, Orphans, SteadyActive;
    if es != [] {
      StepOwned(s, es[0]);
      DanglingIff(s, es[0]);
      SteadyStep(isProbe, s, es);
      NoHookDangles(isProbe, Step(s, es[0]), es[1..]);
    }
  }

  /******* Toggles commute with deliveries *******/

  /** The engine accepts exactly the probes `can` describes. */
  ghost predicate Obeys(can: Probe -> bool, s: State, e: Event) {
    match e
    case Deliver(_, data, hook) => data.ProbeData? && s.enabled ==> (hook >= 0 <==> can(data.probe))
    case Withdraw(_) => true
    case Toggle(enabled, hooks) =>
      enabled && !s.enabled ==>
        forall id :: id in hooks && id in Probes(s.active) ==> (hooks[id] >= 0 <==> can(s.active[id].data.probe))
  }

  ghost predicate RunObeys(can: Probe -> bool, s: State, es: seq<Event>)
    requires Valid(s, es)
    decreases |es|
  {
    es == [] || (Obeys(can, s, es[0]) && RunObeys(can, Step(s, es[0]), es[1..]))
  }

  /** The configurations that should be hooked: every acceptable active probe, when enabled. */
  ghost function Hookable(can: Probe -> bool, active: map<string, Entry>, enabled: bool): set<string> {
    set id | id in active && enabled && active[id].data.ProbeData? && can(active[id].data.probe)
  }

  lemma StepHooks(can: Probe -> bool, s: State, e: Event)
    requires Owned(s) && NoDangling(s) && Enabled(s, e) && Obeys(can, s, e) && !Orphans(s, e)
    requires s.spans.Keys == Hookable(can, s.active, s.enabled)
    ensures Step(s, e).spans.Keys == Hookable(can, Step(s, e).active, Step(s, e).enabled)
  {
    hide Injective, Owner, InstalledFor, Lookup;
    var t := Step(s, e);
    forall id ensures id in t.spans <==> id in Hookable(can, t.active, t.enabled) {
      assert id in s.spans <==> id in Hookable(can, s.active, s.enabled);
    }
  }

  /** The hooked configurations are a function of the active set and the switch alone. */
  lemma {:induction false} HookedIsHookable(can: Probe -> bool, isProbe: string -> bool, s: State, es: seq<Event>)
    requires Owned(s) && NoDangling(s) && SteadyActive(isProbe, s)
    requires s.spans.Keys == Hookable(can, s.active, s.enabled)
    requires Valid(s, es) && SteadyIds(isProbe, es) && RunObeys(can, s, es)
    ensures Exec(s, es).spans.Keys == Hookable(can, Exec(s, es).active, Exec(s, es).enabled)
    decreases |es|
  {
    hide Owned, NoDangling, Step, Orphans, SteadyActive, Hookable, Obeys;
    if es != [] {
      StepOwned(s, es[0]);
      DanglingIff(s, es[0]);
      SteadyStep(isProbe, s, es);
      StepHooks(can, s, es[0]);
      HookedIsHookable(can, isProbe, Step(s, es[0]), es[1..]);
    }
  }

  /** The configuration last delivered under `id`, unless withdrawn since. */
  function Delivered(last: Option<Data>, es: seq<Event>, id: string): Option<Data>
    decreases |es|
  {
    if es == [] then last
    else if es[0].Deliver? && es[0].id == id then Delivered(Some(es[0].data), es[1..], id)
    else if es[0].Withdraw? && es[0].id == id then Delivered(None, es[1..], id)
    else Delivered(last, es[1..], id)
  }

  function ActiveData(s: State, id: string): Option<Data> {
    if id in s.active then Some(s.active[id].data) else None
  }

  lemma {:induction false} ActiveIsDelivered(s: State, es: seq<Event>, id: string)
    requires Valid(s, es)
    ensures ActiveData(Exec(s, es), id) == Delivered(ActiveData(s, id), es, id)
    decreases |es|
  {
    if es != [] {
      assert ActiveData(Step(s, es[0]), id) ==
             if es[0].Deliver? && es[0].id == id then Some(es[0].data)
             else if es[0].Withdraw? && es[0].id == id then None
             else ActiveData(s, id);
      ActiveIsDelivered(Step(s, es[0]), es[1..], id);
    }
  }

  /**
   Two requests that end with the same configurations delivered and the same switch hook the
   same configurations, however deliveries and toggles interleave, whether the probes
   arrived before or after the switch was turned on, and whichever way it started.
   */
  lemma TogglesCommute(can: Probe -> bool, isProbe: string -> bool,
                       on1: bool, es1: seq<Event>, on2: bool, es2: seq<Event>)
    requires Valid(Fresh(on1), es1) && SteadyIds(isProbe, es1) && RunObeys(can, Fresh(on1), es1)
    requires Valid(Fresh(on2), es2) && SteadyIds(isProbe, es2) && RunObeys(can, Fresh(on2), es2)
    requires Exec(Fresh(on1), es1).enabled == Exec(Fresh(on2), es2).enabled
    requires forall id :: Delivered(None, es1, id) == Delivered(None, es2, id)
    ensures Exec(Fresh(on1), es1).spans.Keys == Exec(Fresh(on2), es2).spans.Keys
  {
    var s, t := Exec(Fresh(on1), es1), Exec(Fresh(on2), es2);
    HookedIsHookable(can, isProbe, Fresh(on1), es1);
    HookedIsHookable(can, isProbe, Fresh(on2), es2);
    forall id ensures ActiveData(s, id) == ActiveData(t, id) {
      ActiveIsDelivered(Fresh(on1), es1, id);
      ActiveIsDelivered(Fresh(on2), es2, id);
    }
    forall id ensures id in s.spans <==> id in t.spans {
      assert ActiveData(s, id) == ActiveData(t, id);
    }
  }

  /******* The table updated in place *******/

  class Debugger {
    /** Which probes the engine is able to hook. */
    const can: Probe -> bool
    var active: map<string, Entry>
    var spans: map<string, int>
    var enabled: bool
    var nextBox: nat
    var installed: map<int, nat>
    var nextHook: int

    ghost function Model(): State
      reads this
    {
      State(active, spans, enabled, installed, nextBox)
    }

    ghost predicate Valid()
      reads this
    {
      && Owned(Model())
      && nextHook >= 0
      && forall h :: h in installed ==> 0 <= h < nextHook
    }

    constructor (can: Probe -> bool, enabled: bool)
      ensures Valid()
      ensures this.can == can && Model() == Fresh(enabled)
    {
      this.can := can;
      this.enabled := enabled;
      active, spans, installed, nextBox, nextHook := map[], map[], map[], 0, 0;
    }

    /** The engine hooks a probe under a new id, or answers with a negative number. */
    method SetProbe(box: nat, probe: Probe) returns (hook: int)
      requires nextHook >= 0 && forall h :: h in installed ==> 0 <= h < nextHook
      modifies this`installed, this`nextHook
      ensures hook >= 0 <==> can(probe)
      ensures hook >= 0 ==> hook !in old(installed) && installed == old(installed)[hook := box]
      ensures hook < 0 ==> installed == old(installed)
      ensures nextHook >= 0 && forall h :: h in installed ==> 0 <= h < nextHook
    {
      hook := -1;
      if can(probe) {
        hook := nextHook;
        installed := installed[hook := box];
        nextHook := nextHook + 1;
      }
    }

    /** Removing a hook that is not installed is not allowed. */
    method RemoveProbe(hook: int)
      requires hook in installed
      modifies this`installed
      ensures installed == old(installed) - {hook}
    {
      installed := installed - {hook};
    }

    method DeliverConfig(id: string, data: Data) returns (ghost e: Event)
      requires Valid()
      modifies this
      ensures Valid()
      ensures e.Deliver? && e.id == id && e.data == data
      ensures Enabled(old(Model()), e) && Obeys(can, old(Model()), e)
      ensures Model() == Step(old(Model()), e)
    {
      hide Owned;
      ghost var s := Model();
      e := Deliver(id, data, -1);
      active := active[id := Entry(nextBox, data)];
      var box := nextBox;
      nextBox := nextBox + 1;
      if data.ProbeData? && enabled {
        UnhookOwned(s, id);
        if id in spans {
          var oldHook := spans[id];
          spans := spans - {id};
          RemoveProbe(oldHook);
        }
        var hook := SetProbe(box, data.probe);
        if hook >= 0 {
          spans := spans[id := hook];
        }
        e := Deliver(id, data, hook);
      }
      StepOwned(s, e);
    }

    method WithdrawConfig(id: string) returns (ghost e: Event)
      requires Valid()
      modifies this
      ensures Valid()
      ensures e == Withdraw(id) && Model() == Step(old(Model()), e)
    {
      e := Withdraw(id);
      ghost var s := Model();
      if id in active {
        var entry := active[id];
        active := active - {id};
        if entry.data.ProbeData? && id in spans {
          UnhookOwned(s, id);
          var hook := spans[id];
          spans := spans - {id};
          RemoveProbe(hook);
        }
      }
      StepOwned(s, e);
    }

    method RemoveAllHooks()
      requires installed.Keys == spans.Values && Injective(spans)
      modifies this`spans, this`installed
      ensures spans == map[] && installed == old(installed) - old(spans).Values
    {
      hide Injective;
      var drained := spans;
      spans := map[];
      ghost var gone: set<int> := {};
      while drained != map[]
        invariant spans == map[] && Injective(drained) && drained.Values <= installed.Keys
        invariant gone + drained.Values == old(spans).Values
        invariant installed == old(installed) - gone
        decreases drained.Keys
      {
        var id :| id in drained;
        var hook := drained[id];
        ghost var before := drained;
        drained := drained - {id};
        ValuesWithout(before, id);
        RemoveProbe(hook);
        gone := gone + {hook};
      }
    }

    ghost predicate HooksCorrespond()
      reads this
    {
      && nextHook >= 0 && (forall h :: h in installed ==> 0 <= h < nextHook)
      && Injective(spans) && spans.Keys <= active.Keys
      && installed == InstalledFor(active, spans)
    }

    method InstallHook(id: string) returns (hook: int)
      requires HooksCorrespond()
      requires id in Probes(active) && id !in spans
      modifies this`spans, this`installed, this`nextHook
      ensures HooksCorrespond()
      ensures hook >= 0 <==> can(active[id].data.probe)
      ensures spans == if hook >= 0 then old(spans)[id := hook] else old(spans)
    {
      hook := SetProbe(active[id].box, active[id].data.probe);
      if hook >= 0 {
        InstallOne(active, spans, id, hook);
        spans := spans[id := hook];
      }
    }

    /** Installs every active probe; the hooks the engine handed out are returned. */
    method InstallAllHooks() returns (ghost hooks: map<string, int>)
      requires HooksCorrespond() && spans == map[]
      modifies this`spans, this`installed, this`nextHook
      ensures HooksCorrespond()
      ensures hooks.Keys == Probes(active) && spans == Accepted(active, hooks)
      ensures forall id :: id in hooks ==> (hooks[id] >= 0 <==> can(active[id].data.probe))
    {
      hide HooksCorrespond, Injective, InstalledFor, Owner;
      hooks := map[];
      var rest := active.Keys;
      while rest != {}
        invariant rest <= active.Keys
        invariant HooksCorrespond()
        invariant forall id :: id in hooks <==> id in Probes(active) && id !in rest
        invariant forall id :: id in spans <==> id in hooks && hooks[id] >= 0
        invariant forall id :: id in spans ==> spans[id] == hooks[id]
        invariant forall id :: id in hooks ==> (hooks[id] >= 0 <==> can(active[id].data.probe))
        decreases rest
      {
        var id :| id in rest;
        if active[id].data.ProbeData? {
          var hook := InstallHook(id);
          hooks := hooks[id := hook];
        }
        rest := rest - {id};
      }
    }

    method TurnOff() returns (ghost e: Event)
      requires Valid() && enabled
      modifies this
      ensures Valid()
      ensures e == Toggle(false, map[]) && Model() == Step(old(Model()), e)
    {
      e := Toggle(false, map[]);
      StepOwned(Model(), e);
      enabled := false;
      RemoveAllHooks();
    }

    method TurnOn() returns (ghost e: Event)
      requires Valid() && !enabled
      modifies this
      ensures Valid()
      ensures e.Toggle? && e.enabled
      ensures Enabled(old(Model()), e) && Obeys(can, old(Model()), e)
      ensures Model() == Step(old(Model()), e)
    {
      hide Enabled, Obeys, Step, InstalledFor, Accepted, Probes, Injective;
      ghost var s := Model();
      NothingInstalled(s);
      enabled := true;
      ghost var hooks := InstallAllHooks();
      e := Toggle(true, hooks);
      ToggleAllowed(can, s, hooks);
      ToggledOn(s, hooks);
      StepOwned(s, e);
    }

    method SetDynamicInstrumentationEnabled(value: bool) returns (ghost e: Event)
      requires Valid()
      modifies this
      ensures Valid()
      ensures e.Toggle? && e.enabled == value
      ensures Enabled(old(Model()), e) && Obeys(can, old(Model()), e)
      ensures Model() == Step(old(Model()), e)
    {
      e := Toggle(value, map[]);
      if enabled != value {
        if !value {
          e := TurnOff();
        } else {
          e := TurnOn();
        }
      }
    }
  }

  lemma NothingInstalled(s: State)
    requires Owned(s) && !s.enabled
    ensures s.spans == map[] && s.installed == map[]
    ensures Injective(map[]) && InstalledFor(s.active, map[]) == map[]
  {
    assert s.installed.Keys == {};
  }

  lemma ToggleAllowed(can: Probe -> bool, s: State, hooks: map<string, int>)
    requires s.installed == map[] && hooks.Keys == Probes(s.active)
    requires Injective(Accepted(s.active, hooks))
    requires forall id :: id in hooks ==> (hooks[id] >= 0 <==> can(s.active[id].data.probe))
    ensures Enabled(s, Toggle(true, hooks)) && Obeys(can, s, Toggle(true, hooks))
  {
  }

  lemma ToggledOn(s: State, hooks: map<string, int>)
    requires Owned(s) && !s.enabled && Enabled(s, Toggle(true, hooks))
    ensures var spans := Accepted(s.active, hooks);
            && Injective(spans) && spans.Keys <= s.active.Keys
            && Step(s, Toggle(true, hooks)) ==
               s.(enabled := true, spans := spans, installed := InstalledFor(s.active, spans))
  {
    NothingInstalled(s);
    var spans := Accepted(s.active, hooks);
    assert s.spans + spans == spans;
    assert s.installed + InstalledFor(s.active, spans) == InstalledFor(s.active, spans);
  }

  lemma ValuesWithout(spans: map<string, int>, id: string)
    requires Injective(spans) && id in spans
    ensures Injective(spans - {id})
    ensures (spans - {id}).Values == spans.Values - {spans[id]}
  {
    forall h | h in spans.Values && h != spans[id] ensures h in (spans - {id}).Values {
      assert Owner(spans, h) in spans - {id};
    }
  }

  lemma InstallOne(active: map<string, Entry>, spans: map<string, int>, id: string, hook: int)
    requires Injective(spans) && spans.Keys <= active.Keys
    requires id in active && id !in spans && hook !in spans.Values
    ensures Injective(spans[id := hook])
    ensures InstalledFor(active, spans[id := hook]) == InstalledFor(active, spans)[hook := active[id].box]
  {
    var spans' := spans[id := hook];
    forall j | j in spans ensures spans[j] != hook {
      assert spans[j] in spans.Values;
    }
    forall h ensures h in spans'.Values <==> h in spans.Values || h == hook {
      if h in spans.Values {
        assert Owner(spans, h) in spans' && spans'[Owner(spans, h)] == h;
      }
      assert spans'[id] == hook;
    }
    forall h | h in spans.Values ensures Owner(spans', h) == Owner(spans, h) {
    }
  }
}

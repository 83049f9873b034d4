/** One tick of the periodic supervisor (`_connect_to_ovsdb_server`): make
    sure every gateway has a live monitoring connection and push a fresh
    snapshot of gateway states upstream. */
module Supervisor {
  import opened Wrappers
  import opened Gateways
  import opened AgentState

  datatype Status = Connected | Disconnected

  /** Gateway identifier to "connected" / "disconnected". */
  type Snapshot = map<string, Status>

  /** What happens when a monitor is opened for one gateway: the
      constructor raises, or it returns a handle with the given `connected`
      flag, after which spawning its response loop succeeds or fails. */
  datatype OpenOutcome = OpenFailed | Opened(connected: bool, loopSpawned: bool)

  /** The open outcome for each gateway identifier during one tick. */
  type Oracle = string -> OpenOutcome

  /** Observable actions of a tick: a monitor open attempt, and the state
      notification sent to the plugin. */
  datatype TickEvent = OpenMonitor(identifier: string) | NotifyStates(states: Snapshot)

  /** The fold over the gateways: its updated registry, collected states and
      events, or the identifier whose response loop could not be spawned. */
  datatype Visit = Visited(gateways: Registry, states: Snapshot, events: seq<TickEvent>) | SpawnAborted(at: string)

  /** A completed tick, or the process exit raised from it. */
  datatype TickResult = Ticked(agent: Agent, events: seq<TickEvent>) | Exited(at: string)

  /** `order` lists the keys of the registry, each exactly once; it stands
      for the dictionary's iteration order. */
  predicate IsEnumeration(order: seq<string>, keys: set<string>) {
    && (forall i, j :: 0 <= i < j < |order| ==> order[i] != order[j])
    && (forall i :: 0 <= i < |order| ==> order[i] in keys)
    && (forall k :: k in keys ==> k in order)
  }

  // Reference behaviour of one gateway, stated case by case.

  /** The handle a gateway holds after the tick. */
  function RefreshedHandle(h: Option<Handle>, o: OpenOutcome): Option<Handle> {
    if IsLive(h) then h
    else if o.Opened? then Some(Handle(o.connected))
    else h
  }

  /** The state reported for a gateway, if any. */
  function ReportedStatus(h: Option<Handle>, o: OpenOutcome): Option<Status> {
    if IsLive(h) then Some(Connected)
    else if o.OpenFailed? then Some(Disconnected)
    else if o.connected then Some(Connected)
    else None
  }

  /** A fresh monitor was opened but its response loop could not be spawned. */
  predicate SpawnFails(h: Option<Handle>, o: OpenOutcome) {
    !IsLive(h) && o.Opened? && !o.loopSpawned
  }

  /** The registry after every gateway named in `order` was handled. */
  function Refreshed(gws: Registry, order: seq<string>, open: Oracle): Registry {
    map k | k in gws :: if k in order then gws[k].(handle := RefreshedHandle(gws[k].handle, open(k))) else gws[k]
  }

  /** The states reported for the gateways named in `order`. */
  function Reported(gws: Registry, order: seq<string>, open: Oracle): Snapshot {
    map k | k in gws && k in order && ReportedStatus(gws[k].handle, open(k)).Some? :: ReportedStatus(gws[k].handle, open(k)).value
  }

  /** Adds one gateway's outcome in front of the outcome of the rest. */
  function Record(k: string, s: Option<Status>, evs: seq<TickEvent>, rest: Visit): Visit {
    match rest
    case SpawnAborted(_) => rest
    case Visited(g, st, e) => Visited(g, if s.Some? then st[k := s.value] else st, evs + e)
  }

  /** The loop body of the tick, applied to the gateways in `order`. */
  function VisitAll(gws: Registry, order: seq<string>, open: Oracle): (r: Visit)
    requires forall i :: 0 <= i < |order| ==> order[i] in gws
    ensures r.Visited? ==> r.gateways.Keys == gws.Keys
    ensures r.Visited? ==> forall k :: k in r.states ==> k in order
    ensures r.Visited? ==> forall i :: 0 <= i < |r.events| ==> r.events[i].OpenMonitor?
    decreases |order|
  {
    if order == [] then Visited(gws, map[], [])
    else
      var k := order[0];
      var fd := gws[k].handle;
      if !IsLive(fd) then
        match open(k)
        case OpenFailed =>
          Record(k, Some(Disconnected), [OpenMonitor(k)], VisitAll(gws, order[1..], open))
        case Opened(c, spawned) =>
          var gws' := gws[k := gws[k].(handle := Some(Handle(c)))];
          if !spawned then SpawnAborted(k)
          else Record(k, if c then Some(Connected) else None, [OpenMonitor(k)], VisitAll(gws', order[1..], open))
      else
        Record(k, Some(Connected), [], VisitAll(gws, order[1..], open))
  }

  /** The registry with gateway `k` refreshed. */
  function StepOne(gws: Registry, k: string, open: Oracle): Registry
    requires k in gws
  {
    gws[k := gws[k].(handle := RefreshedHandle(gws[k].handle, open(k)))]
  }

  lemma {:induction false} VisitAllUnfold(gws: Registry, order: seq<string>, open: Oracle)
    requires |order| > 0
    requires forall i :: 0 <= i < |order| ==> order[i] in gws
    requires !SpawnFails(gws[order[0]].handle, open(order[0]))
    ensures var k := order[0];
            var h := gws[k].handle;
            VisitAll(gws, order, open) ==
              Record(k, ReportedStatus(h, open(k)), if IsLive(h) then [] else [OpenMonitor(k)],
                     VisitAll(StepOne(gws, k, open), order[1..], open))
  {
    var k := order[0];
    var h := gws[k].handle;
    if IsLive(h) || open(k).OpenFailed? {
      assert gws[k].(handle := h) == gws[k];
      assert StepOne(gws, k, open) == gws;
    }
  }

  lemma {:induction false} SpawnFailsShift(gws: Registry, order: seq<string>, open: Oracle)
    requires |order| > 0
    requires forall i, j :: 0 <= i < j < |order| ==> order[i] != order[j]
    requires forall i :: 0 <= i < |order| ==> order[i] in gws
    requires !SpawnFails(gws[order[0]].handle, open(order[0]))
    ensures var stepped := StepOne(gws, order[0], open);
            var tail := order[1..];
            (exists i :: 0 <= i < |tail| && SpawnFails(stepped[tail[i]].handle, open(tail[i])))
            <==> (exists i :: 0 <= i < |order| && SpawnFails(gws[order[i]].handle, open(order[i])))
  {
    var stepped := StepOne(gws, order[0], open);
    var tail := order[1..];
    if exists i :: 0 <= i < |order| && SpawnFails(gws[order[i]].handle, open(order[i])) {
      var i :| 0 <= i < |order| && SpawnFails(gws[order[i]].handle, open(order[i]));
      assert i != 0;
      assert tail[i - 1] == order[i] != order[0];
      assert SpawnFails(stepped[tail[i - 1]].handle, open(tail[i - 1]));
    }
    if exists i :: 0 <= i < |tail| && SpawnFails(stepped[tail[i]].handle, open(tail[i])) {
      var i :| 0 <= i < |tail| && SpawnFails(stepped[tail[i]].handle, open(tail[i]));
      assert tail[i] == order[i + 1] != order[0];
      assert SpawnFails(gws[order[i + 1]].handle, open(order[i + 1]));
    }
  }

  lemma {:induction false} ReferenceShift(gws: Registry, order: seq<string>, open: Oracle)
    requires |order| > 0
    requires forall i, j :: 0 <= i < j < |order| ==> order[i] != order[j]
    requires forall i :: 0 <= i < |order| ==> order[i] in gws
    ensures var k := order[0];
            var stepped := StepOne(gws, k, open);
            var s := ReportedStatus(gws[k].handle, open(k));
            var reported := Reported(stepped, order[1..], open);
            && Refreshed(stepped, order[1..], open) == Refreshed(gws, order, open)
            && (if s.Some? then reported[k := s.value] else reported) == Reported(gws, order, open)
  {
    var k := order[0];
    var tail := order[1..];
    assert forall j :: j in tail ==> j != k by {
      forall j | j in tail ensures j != k {
        var i :| 0 <= i < |tail| && tail[i] == j;
        assert tail[i] == order[i + 1];
      }
    }
    assert forall j :: j in order <==> j == k || j in tail;
  }

  /** The fold agrees with the gateway-by-gateway reference: it aborts
      exactly when some gateway's loop cannot be spawned, and otherwise
      refreshes and reports every gateway independently of the others,
      attempting an open for exactly the gateways without a live handle. */
  lemma {:induction false} VisitAllMatchesReference(gws: Registry, order: seq<string>, open: Oracle)
    requires forall i, j :: 0 <= i < j < |order| ==> order[i] != order[j]
    requires forall i :: 0 <= i < |order| ==> order[i] in gws
    ensures VisitAll(gws, order, open).SpawnAborted? <==>
              exists i :: 0 <= i < |order| && SpawnFails(gws[order[i]].handle, open(order[i]))
    ensures VisitAll(gws, order, open).Visited? ==>
              && VisitAll(gws, order, open).gateways == Refreshed(gws, order, open)
              && VisitAll(gws, order, open).states == Reported(gws, order, open)
              && forall k :: OpenMonitor(k) in VisitAll(gws, order, open).events <==> k in order && !IsLive(gws[k].handle)
    decreases |order|
  {
    if order == [] {
      assert Refreshed(gws, order, open) == gws;
      assert Reported(gws, order, open) == map[];
    } else {
      var k := order[0];
      var tail := order[1..];
      var h := gws[k].handle;
      if SpawnFails(h, open(k)) {
        assert VisitAll(gws, order, open).SpawnAborted?;
      } else {
        var stepped := StepOne(gws, k, open);
        assert forall i :: 0 <= i < |tail| ==> tail[i] == order[i + 1];
        VisitAllUnfold(gws, order, open);
        SpawnFailsShift(gws, order, open);
        ReferenceShift(gws, order, open);
        VisitAllMatchesReference(stepped, tail, open);
        var rest := VisitAll(stepped, tail, open);
        if rest.Visited? {
          var evs := if IsLive(h) then [] else [OpenMonitor(k)];
          assert VisitAll(gws, order, open).events == evs + rest.events;
          forall j ensures OpenMonitor(j) in evs + rest.events <==> j in order && !IsLive(gws[j].handle) {
            if j != k && j in tail {
              assert stepped[j] == gws[j];
            }
          }
        }
      }
    }
  }

  /** `_connect_to_ovsdb_server`. With an empty registry or outside Monitor
      mode nothing is opened and an empty snapshot is pushed; otherwise the
      gateways are visited and the collected snapshot is pushed. In every
      completed tick exactly one notification is pushed, as its last event. */
  function Tick(a: Agent, order: seq<string>, open: Oracle): (r: TickResult)
    requires IsEnumeration(order, a.gateways.Keys)
    ensures r.Ticked? ==> r.agent.mode == a.mode && r.agent.running == a.running
    ensures r.Ticked? ==> r.agent.gateways.Keys == a.gateways.Keys
    ensures r.Ticked? ==> PushesOnce(r.events) && PushedStates(r.events).Keys <= a.gateways.Keys
    ensures (a.gateways == map[] || a.mode != Monitor) ==> r == Ticked(a, [NotifyStates(map[])])
  {
    if a.gateways != map[] && a.mode == Monitor then
      match VisitAll(a.gateways, order, open)
      case SpawnAborted(k) => Exited(k)
      case Visited(g, states, evs) => Ticked(a.(gateways := g), evs + [NotifyStates(states)])
    else
      Ticked(a, [NotifyStates(map[])])
  }

  /** Exactly one notification, and it is the last event. */
  predicate PushesOnce(evs: seq<TickEvent>) {
    && |evs| > 0
    && evs[|evs| - 1].NotifyStates?
    && forall i :: 0 <= i < |evs| - 1 ==> !evs[i].NotifyStates?
  }

  function PushedStates(evs: seq<TickEvent>): Snapshot
    requires PushesOnce(evs)
  {
    evs[|evs| - 1].states
  }

  /** In Monitor mode the tick behaves as the reference: it exits exactly
      when a gateway's loop cannot be spawned, and otherwise refreshes every
      gateway, pushes the reference snapshot, and attempts an open for
      exactly the gateways without a live handle. */
  lemma {:induction false} TickMatchesReference(a: Agent, order: seq<string>, open: Oracle)
    requires IsEnumeration(order, a.gateways.Keys)
    requires a.mode == Monitor
    ensures var r := Tick(a, order, open);
            && (r.Exited? <==> exists k :: k in a.gateways && SpawnFails(a.gateways[k].handle, open(k)))
            && (r.Ticked? ==>
                  && r.agent.gateways == Refreshed(a.gateways, order, open)
                  && PushedStates(r.events) == Reported(a.gateways, order, open)
                  && forall k :: OpenMonitor(k) in r.events <==> k in a.gateways && !IsLive(a.gateways[k].handle))
  {
    var gws := a.gateways;
    if gws == map[] {
      assert Refreshed(gws, order, open) == gws;
      assert Reported(gws, order, open) == map[];
    } else {
      VisitAllMatchesReference(gws, order, open);
      if exists k :: k in gws && SpawnFails(gws[k].handle, open(k)) {
        var k :| k in gws && SpawnFails(gws[k].handle, open(k));
        var i :| 0 <= i < |order| && order[i] == k;
      }
      var r := Tick(a, order, open);
      if r.Ticked? {
        var v := VisitAll(gws, order, open);
        assert r.events == v.events + [NotifyStates(v.states)];
        forall k ensures OpenMonitor(k) in r.events <==> OpenMonitor(k) in v.events {
        }
      }
    }
  }

  /** The dictionary's iteration order does not matter: under any two
      enumerations of the registry the tick exits in both or in neither, and
      a completed tick leaves the same registry, pushes the same snapshot
      and opens monitors for the same gateways. Only the gateway named in an
      exit, and the order of the open attempts, depend on it. */
  lemma {:induction false} TickOrderIndependent(a: Agent, order1: seq<string>, order2: seq<string>, open: Oracle)
    requires IsEnumeration(order1, a.gateways.Keys) && IsEnumeration(order2, a.gateways.Keys)
    ensures Tick(a, order1, open).Exited? <==> Tick(a, order2, open).Exited?
    ensures var r1 := Tick(a, order1, open);
            var r2 := Tick(a, order2, open);
            r1.Ticked? && r2.Ticked? ==>
              && r1.agent == r2.agent
              && PushedStates(r1.events) == PushedStates(r2.events)
              && forall k :: OpenMonitor(k) in r1.events <==> OpenMonitor(k) in r2.events
  {
    if a.mode == Monitor {
      TickMatchesReference(a, order1, open);
      TickMatchesReference(a, order2, open);
      assert Refreshed(a.gateways, order1, open) == Refreshed(a.gateways, order2, open);
      assert Reported(a.gateways, order1, open) == Reported(a.gateways, order2, open);
    }
  }

  /** Per gateway: a live handle is kept and reported connected; a failed
      open reports disconnected and keeps the old handle; a successful open
      stores the new handle, which is reported connected only if it is. */
  lemma {:induction false} TickPerGateway(a: Agent, order: seq<string>, open: Oracle, k: string)
    requires IsEnumeration(order, a.gateways.Keys)
    requires a.mode == Monitor
    requires k in a.gateways
    requires Tick(a, order, open).Ticked?
    ensures var r := Tick(a, order, open);
            var h := a.gateways[k].handle;
            var states := PushedStates(r.events);
            && k in r.agent.gateways
            && (IsLive(h) ==> r.agent.gateways[k] == a.gateways[k] && k in states && states[k] == Connected)
            && (!IsLive(h) && open(k).OpenFailed? ==>
                  r.agent.gateways[k] == a.gateways[k] && k in states && states[k] == Disconnected)
            && (!IsLive(h) && open(k).Opened? ==>
                  && r.agent.gateways[k].handle == Some(Handle(open(k).connected))
                  && (k in states <==> open(k).connected)
                  && (k in states ==> states[k] == Connected))
  {
    TickMatchesReference(a, order, open);
  }

  /** Tick isolation: a gateway ends a completed tick with a handle and a
      reported state that depend only on its own open outcome, whatever
      the oracle says about every other gateway. */
  lemma {:induction false} TickIsolation(a: Agent, order: seq<string>, open1: Oracle, open2: Oracle, j: string)
    requires IsEnumeration(order, a.gateways.Keys)
    requires a.mode == Monitor
    requires j in a.gateways
    requires open1(j) == open2(j)
    requires Tick(a, order, open1).Ticked? && Tick(a, order, open2).Ticked?
    ensures var r1 := Tick(a, order, open1);
            var r2 := Tick(a, order, open2);
            && r1.agent.gateways[j] == r2.agent.gateways[j]
            && (j in PushedStates(r1.events) <==> j in PushedStates(r2.events))
            && (j in PushedStates(r1.events) ==> PushedStates(r1.events)[j] == PushedStates(r2.events)[j])
  {
    TickMatchesReference(a, order, open1);
    TickMatchesReference(a, order, open2);
  }

  /** The two-gateway scenario: A is unreachable and B opens connected; one
      tick pushes {A: disconnected, B: connected} exactly once. */
  lemma {:induction false} UnreachableAndReachable(cfgA: GatewayConfig, cfgB: GatewayConfig)
    ensures var a := Agent(Monitor, true, map["A" := Gateway(cfgA, None), "B" := Gateway(cfgB, None)]);
            var open := (k: string) => if k == "A" then OpenFailed else Opened(true, true);
            var r := Tick(a, ["A", "B"], open);
            && r.Ticked?
            && PushesOnce(r.events)
            && PushedStates(r.events) == map["A" := Disconnected, "B" := Connected]
  {
    var a := Agent(Monitor, true, map["A" := Gateway(cfgA, None), "B" := Gateway(cfgB, None)]);
    var open := (k: string) => if k == "A" then OpenFailed else Opened(true, true);
    var order := ["A", "B"];
    var g := a.gateways;
    assert IsEnumeration(order, g.Keys) by {
      assert order[0] == "A" && order[1] == "B";
    }
    var gB := g["B" := g["B"].(handle := Some(Handle(true)))];
    assert VisitAll(gB, [], open) == Visited(gB, map[], []);
    assert ["B"][1..] == [];
    assert VisitAll(g, ["B"], open) == Visited(gB, map["B" := Connected], [OpenMonitor("B")]);
    assert order[1..] == ["B"];
    assert VisitAll(g, order, open) == Visited(gB, map["B" := Connected]["A" := Disconnected], [OpenMonitor("A"), OpenMonitor("B")]);
    assert map["B" := Connected]["A" := Disconnected] == map["A" := Disconnected, "B" := Connected];
  }
}

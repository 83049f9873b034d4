/** The agent-mode state machine: the mode command from the plugin, the
    heartbeat-failure escalation, and the start/stop of the supervisor task. */
module ModeController {
  import opened Wrappers
  import Text
  import opened Gateways
  import opened AgentState
  import opened HostConfig
  import opened Supervisor

  /** `_start_looping_task`: starts the task unless it already runs. */
  function StartLoopingTask(a: Agent): (r: Agent)
    ensures r.running
    ensures r.mode == a.mode && r.gateways == a.gateways
    ensures a.running ==> r == a
  {
    if !a.running then a.(running := true) else a
  }

  /** `_stop_looping_task`: stops the task if it runs. */
  function StopLoopingTask(a: Agent): (r: Agent)
    ensures !r.running
    ensures r.mode == a.mode && r.gateways == a.gateways
    ensures !a.running ==> r == a
  {
    if a.running then a.(running := false) else a
  }

  /** `_disconnect_all_ovsdb_servers`. */
  function DisconnectAllServers(a: Agent): (r: Agent)
    ensures r.mode == a.mode && r.running == a.running
    ensures NoneLive(r.gateways) && r.gateways.Keys == a.gateways.Keys
    ensures forall k :: k in a.gateways && !IsLive(a.gateways[k].handle) ==> r.gateways[k] == a.gateways[k]
  {
    a.(gateways := DisconnectAll(a.gateways))
  }

  /** `set_monitor_agent`; `newMode` is the mode the base manager stored
      from the plugin's fan-out message. Monitor starts the supervisor;
      any other mode stops it and disconnects every gateway. */
  function SetMonitorAgent(a: Agent, newMode: Mode): (r: Agent)
    ensures r.mode == newMode
    ensures r.running <==> newMode == Monitor
    ensures newMode == Monitor ==> r.gateways == a.gateways
    ensures newMode != Monitor ==> r.gateways == DisconnectAll(a.gateways) && NoneLive(r.gateways)
    ensures Consistent(r)
  {
    var b := a.(mode := newMode);
    if b.mode == Monitor then StartLoopingTask(b)
    else DisconnectAllServers(StopLoopingTask(b))
  }

  /** `handle_report_state_failure`: a monitor that cannot reach the plugin
      gives up its role; any other agent is left alone. */
  function HandleReportStateFailure(a: Agent): (r: Agent)
    ensures a.mode == Monitor ==> r.mode == Unset && !r.running && NoneLive(r.gateways)
    ensures a.mode == Monitor ==> r.gateways == DisconnectAll(a.gateways)
    ensures a.mode != Monitor ==> r == a
    ensures Consistent(a) ==> Consistent(r)
  {
    if a.mode == Monitor then
      DisconnectAllServers(StopLoopingTask(a.(mode := Unset)))
    else a
  }

  /** Construction: parse the configuration into an empty registry; the
      supervisor task is created stopped and no mode is set yet. */
  function Initialize(opts: OvsdbOptions): (r: Result<Agent, StartupError>)
    ensures opts.hosts != "" && opts.maxConnectionRetries >= opts.periodicInterval <==> r.Failure?
    ensures r.Success? ==> r.value.mode == Unset && !r.value.running && Consistent(r.value)
    ensures r.Success? ==> NoneLive(r.value.gateways)
    ensures r.Success? && opts.hosts == "" ==> r.value.gateways == map[]
    ensures r.Success? && opts.hosts != "" ==>
              var hosts := Text.Split(opts.hosts, ',');
              && r.value.gateways.Keys == EntryIds(hosts, opts.tls)
              && forall k :: LastEntryFor(hosts, k, opts.tls).Some? ==>
                   k in r.value.gateways && r.value.gateways[k] == Gateway(LastEntryFor(hosts, k, opts.tls).value, None)
  {
    match ExtractConfig(map[], opts)
    case Failure(e) => Failure(e)
    case Success(gws) => Success(Agent(Unset, false, gws))
  }

  /** Inputs of the agent: the mode command, a failed heartbeat, and the
      periodic timer with the tick's iteration order and open outcomes. */
  datatype Command =
    | SetAgentMode(mode: Mode)
    | ReportStateFailed
    | TimerFires(order: seq<string>, open: Oracle)

  predicate TicksEnumerate(cmds: seq<Command>, keys: set<string>) {
    forall i :: 0 <= i < |cmds| && cmds[i].TimerFires? ==> IsEnumeration(cmds[i].order, keys)
  }

  /** One command. The timer only fires while the task runs; a tick that
      exits the process yields `None`. */
  function Step(a: Agent, c: Command): (r: Option<Agent>)
    requires c.TimerFires? ==> IsEnumeration(c.order, a.gateways.Keys)
    ensures r.Some? ==> r.value.gateways.Keys == a.gateways.Keys
    ensures Consistent(a) && r.Some? ==> Consistent(r.value)
  {
    match c
    case SetAgentMode(m) => Some(SetMonitorAgent(a, m))
    case ReportStateFailed => Some(HandleReportStateFailure(a))
    case TimerFires(order, open) =>
      if !a.running then Some(a)
      else
        match Tick(a, order, open)
        case Exited(_) => None
        case Ticked(b, _) => Some(b)
  }

  /** Runs a sequence of commands until the process exits. */
  function Run(a: Agent, cmds: seq<Command>): (r: Option<Agent>)
    requires TicksEnumerate(cmds, a.gateways.Keys)
    ensures r.Some? ==> r.value.gateways.Keys == a.gateways.Keys
    decreases |cmds|
  {
    if cmds == [] then Some(a)
    else
      match Step(a, cmds[0])
      case None => None
      case Some(b) => Run(b, cmds[1..])
  }

  /** Mode exclusivity: whatever sequence of mode commands, heartbeat
      failures and ticks arrives, the task runs exactly when the agent is
      the monitor, provided it did so at the start. */
  lemma {:induction false} RunKeepsConsistent(a: Agent, cmds: seq<Command>)
    requires TicksEnumerate(cmds, a.gateways.Keys)
    requires Consistent(a)
    ensures Run(a, cmds).Some? ==> Consistent(Run(a, cmds).value)
    decreases |cmds|
  {
    if cmds != [] {
      var s := Step(a, cmds[0]);
      if s.Some? {
        assert TicksEnumerate(cmds[1..], s.value.gateways.Keys) by {
          forall i | 0 <= i < |cmds[1..]| && cmds[1..][i].TimerFires?
            ensures IsEnumeration(cmds[1..][i].order, s.value.gateways.Keys)
          {
            assert cmds[1..][i] == cmds[i + 1];
          }
        }
        RunKeepsConsistent(s.value, cmds[1..]);
      }
    }
  }

  /** From a successful start, mode exclusivity holds after every command
      sequence. */
  lemma {:induction false} StartupThenRun(opts: OvsdbOptions, cmds: seq<Command>)
    requires Initialize(opts).Success?
    requires TicksEnumerate(cmds, Initialize(opts).value.gateways.Keys)
    ensures Run(Initialize(opts).value, cmds).Some? ==> Consistent(Run(Initialize(opts).value, cmds).value)
  {
    RunKeepsConsistent(Initialize(opts).value, cmds);
  }

  /** Monitor -> Transact -> Monitor: the task is running again, no gateway
      holds a live handle, so the next tick attempts to open every gateway. */
  lemma {:induction false} TransactThenMonitorRetriesAll(a: Agent, order: seq<string>, open: Oracle)
    requires IsEnumeration(order, a.gateways.Keys)
    ensures var b := SetMonitorAgent(SetMonitorAgent(a, Transact), Monitor);
            && b.running && b.mode == Monitor && NoneLive(b.gateways)
            && var r := Tick(b, order, open);
               r.Ticked? ==> forall k :: k in a.gateways ==> OpenMonitor(k) in r.events
  {
    var b := SetMonitorAgent(SetMonitorAgent(a, Transact), Monitor);
    TickMatchesReference(b, order, open);
  }
}

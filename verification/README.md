# OVSDB agent manager — a Dafny model

This project models the connection-supervision core of the networking-l2gw
OVSDB agent (`OVSDBManager` in
`networking_l2gw/services/l2gateway/agent/ovsdb/manager.py`). The agent holds
one registry entry per configured OVSDB gateway and does four things:

- **Host-list parsing and startup validation.** It turns the comma-separated
  `ovsdb_hosts` option (`identifier:ip:port` entries) into the gateway
  registry. If all three TLS base directories are set, it derives per-gateway
  key, certificate and CA-certificate paths. It refuses to start when hosts
  are configured and `max_connection_retries >= periodic_interval`.
- **The supervisor tick.** While the agent is the Monitor agent, this periodic
  task opens a monitoring connection to every gateway that has no live one. It
  then pushes one `identifier -> connected/disconnected` snapshot to the
  plugin.
- **The agent-mode state machine.** The plugin's `set_monitor_agent` fan-out
  and the heartbeat-failure path switch the agent between Monitor, Transact
  and the unset mode. They start or stop the periodic task and disconnect the
  gateways.
- **Scoped writes.** The five RPC write handlers check the gateway
  identifier. A valid request opens a short-lived writer, runs one operation
  and disconnects the writer on every exit path.

The model is functional. The agent is an immutable record
`Agent(mode, running, gateways)`, and every transition is a pure function.
Collaborators the core cannot see become inputs:

- the outcome of opening a monitor for each gateway (`Supervisor.Oracle`);
- the outcome of building a writer and of its operation (`ScopedWrite.WriterOutcome`);
- the dictionary iteration order of a tick (`order`);
- the mode stored by the base manager before `set_monitor_agent` continues.

Modules, one per component:

| file | module | models |
|---|---|---|
| wrappers.dfy | `Wrappers` | `Option`, `Result` |
| text.dfy | `Text` | Python's `str.split`, `sep.join`, `str.strip` |
| gateways.dfy | `Gateways` | registry entries, handles, `_disconnect_all_ovsdb_servers`, `_is_valid_request` |
| host_config.dfy | `HostConfig` | `_extract_ovsdb_config`, `_process_ovsdb_host` |
| agent_state.dfy | `AgentState` | agent mode, running flag, the mode/task invariant |
| supervisor.dfy | `Supervisor` | `_connect_to_ovsdb_server` |
| mode_controller.dfy | `ModeController` | `__init__`, `set_monitor_agent`, `handle_report_state_failure`, `_start_looping_task`, `_stop_looping_task` |
| scoped_write.dfy | `ScopedWrite` | `_open_connection` and the five write handlers |

Two behaviours of the code shape the model:

- A tick whose monitor response loop cannot be spawned raises `SystemExit`
  before it notifies the plugin, so only completed ticks push a snapshot. The
  model represents that exit as `Exited`.
- `_open_connection` does not catch exceptions raised by `disconnect()`.

## Model

| member | source | states |
|---|---|---|
| Text.Split | networking_l2gw/services/l2gateway/agent/ovsdb/manager.py:64 | splitting yields one more piece than there are separators, and no piece contains the separator |
| Text.JoinSplit | networking_l2gw/services/l2gateway/agent/ovsdb/manager.py:64 | joining the pieces of a split with the same separator gives back the original text |
| Text.SplitJoin | networking_l2gw/services/l2gateway/agent/ovsdb/manager.py:64 | splitting a join of separator-free pieces gives back exactly those pieces |
| Text.JoinPair | networking_l2gw/services/l2gateway/agent/ovsdb/manager.py:76-87 | joining two parts puts exactly one separator between them |
| Text.Strip | networking_l2gw/services/l2gateway/agent/ovsdb/manager.py:65-68 | the stripped text neither starts nor ends with whitespace |
| Text.StripIsInfix | networking_l2gw/services/l2gateway/agent/ovsdb/manager.py:65-68 | the stripped text is an infix of the input with only whitespace on either side |
| Text.StripPadded | networking_l2gw/services/l2gateway/agent/ovsdb/manager.py:65-68 | stripping removes exactly the whitespace padding around an already trimmed text |
| HostConfig.TlsFor | networking_l2gw/services/l2gateway/agent/ovsdb/manager.py:69-89 | TLS files are present if and only if all three base paths are non-empty |
| HostConfig.TlsPathShape | networking_l2gw/services/l2gateway/agent/ovsdb/manager.py:76-87 | a TLS path is `<base>/<identifier>.<suffix>` |
| HostConfig.TlsForPaths | networking_l2gw/services/l2gateway/agent/ovsdb/manager.py:74-88 | each TLS file is `<base>/<identifier>.key`, `.cert` or `.ca_cert` under its own base path |
| HostConfig.ParseHostEntry | networking_l2gw/services/l2gateway/agent/ovsdb/manager.py:62-89 | an entry is rejected exactly when it has fewer than two colons; an accepted entry has stripped identifier, ip and port, and TLS files derived from the stripped identifier |
| HostConfig.ParseJoinedFields | networking_l2gw/services/l2gateway/agent/ovsdb/manager.py:64-68 | the entry `a:b:c[:...]` yields identifier strip(a), ip strip(b) and port strip(c); fields after the third are ignored |
| HostConfig.ProcessHost | networking_l2gw/services/l2gateway/agent/ovsdb/manager.py:62-95 | an entry with fewer than two colons leaves the registry unchanged; otherwise the entry adds or replaces only its own key, with no handle, and every other key keeps its value |
| HostConfig.RegisterHosts | networking_l2gw/services/l2gateway/agent/ovsdb/manager.py:53-54 | processing the entries one by one is the same as parsing all of them and registering the parsed entries left to right; no key is ever dropped |
| HostConfig.RegisterHostsLastWins | networking_l2gw/services/l2gateway/agent/ovsdb/manager.py:53-92 | for every identifier: it ends with its LAST well-formed entry, found by scanning from the right; an identifier named by no well-formed entry keeps its earlier presence and value |
| HostConfig.RegisterHostsKeys | networking_l2gw/services/l2gateway/agent/ovsdb/manager.py:53-54 | the registered keys are the earlier keys plus the identifiers of the well-formed entries |
| HostConfig.RegisterHostsFresh | networking_l2gw/services/l2gateway/agent/ovsdb/manager.py:91-92 | gateways registered from the host list start without a handle |
| HostConfig.ExtractConfig | networking_l2gw/services/l2gateway/agent/ovsdb/manager.py:48-60 | with no hosts, nothing is registered and nothing is checked; with hosts, startup fails if and only if retries >= interval; on success the keys are the earlier keys plus the parsed identifiers, each identifier holds its last well-formed entry, and no handle exists yet |
| Gateways.DisconnectAll | networking_l2gw/services/l2gateway/agent/ovsdb/manager.py:146-151 | no handle stays connected; handles that were not connected are untouched; every handle stays in its entry |
| Gateways.DisconnectAllIdempotent | networking_l2gw/services/l2gateway/agent/ovsdb/manager.py:146-151 | disconnecting twice is the same as disconnecting once |
| Supervisor.VisitAll | networking_l2gw/services/l2gateway/agent/ovsdb/manager.py:101-127 | the fold keeps the registry's keys, reports only gateways it visited, and emits only open attempts |
| Supervisor.VisitAllMatchesReference | networking_l2gw/services/l2gateway/agent/ovsdb/manager.py:101-127 | the fold aborts if and only if some gateway's response loop cannot be spawned; otherwise it matches the gateway-by-gateway reference and attempts an open exactly for the gateways without a live handle |
| Supervisor.Tick | networking_l2gw/services/l2gateway/agent/ovsdb/manager.py:97-130 | a completed tick pushes exactly one notification, as its last event; the snapshot's keys are registered identifiers; with an empty registry or outside Monitor mode the snapshot is empty and nothing changes; mode and running flag are untouched |
| Supervisor.TickMatchesReference | networking_l2gw/services/l2gateway/agent/ovsdb/manager.py:100-127 | in Monitor mode the tick exits if and only if a spawn fails; otherwise every gateway is refreshed and reported as the reference says |
| Supervisor.TickOrderIndependent | networking_l2gw/services/l2gateway/agent/ovsdb/manager.py:101-127 | for any two iteration orders of the registry, the tick exits under both or neither, and completed ticks leave the same registry, push the same snapshot and open monitors for the same gateways |
| Supervisor.TickPerGateway | networking_l2gw/services/l2gateway/agent/ovsdb/manager.py:103-127 | a live handle is kept and reported connected; a failed open reports disconnected and keeps the old handle; a successful open stores the new handle, and the gateway is reported (connected) if and only if that handle is connected |
| Supervisor.TickIsolation | networking_l2gw/services/l2gateway/agent/ovsdb/manager.py:107-119 | a gateway's resulting handle and reported state depend only on its own open outcome, whatever the other gateways' outcomes are |
| Supervisor.UnreachableAndReachable | networking_l2gw/services/l2gateway/agent/ovsdb/manager.py:97-130 | with A unreachable and B reachable, one tick pushes {A: disconnected, B: connected} exactly once |
| ModeController.StartLoopingTask | networking_l2gw/services/l2gateway/agent/ovsdb/manager.py:175-178 | the task runs afterwards, and starting a running task changes nothing |
| ModeController.StopLoopingTask | networking_l2gw/services/l2gateway/agent/ovsdb/manager.py:171-173 | the task is stopped afterwards, and stopping a stopped task changes nothing |
| ModeController.DisconnectAllServers | networking_l2gw/services/l2gateway/agent/ovsdb/manager.py:146-151 | no gateway stays connected; mode, task and unconnected entries are untouched |
| ModeController.SetMonitorAgent | networking_l2gw/services/l2gateway/agent/ovsdb/manager.py:153-169 | the task runs if and only if the new mode is Monitor; any other mode disconnects every gateway; the invariant holds afterwards |
| ModeController.HandleReportStateFailure | networking_l2gw/services/l2gateway/agent/ovsdb/manager.py:132-144 | a Monitor agent becomes unset, stops the task and disconnects every gateway; any other agent is unchanged; the invariant is preserved |
| ModeController.Initialize | networking_l2gw/services/l2gateway/agent/ovsdb/manager.py:42-60 | construction fails if and only if hosts are configured and retries >= interval; otherwise the agent starts unset, not running, with no live handle, its keys are exactly the parsed identifiers, and each holds its last well-formed entry |
| ModeController.Step | networking_l2gw/services/l2gateway/agent/ovsdb/manager.py:132-178 | one command keeps the registry's keys and preserves the invariant |
| ModeController.Run | networking_l2gw/services/l2gateway/agent/ovsdb/manager.py:132-178 | a command sequence never adds or removes gateways |
| ModeController.RunKeepsConsistent | networking_l2gw/services/l2gateway/agent/ovsdb/manager.py:132-178 | for every sequence of mode commands, heartbeat failures and ticks, the task runs exactly when the mode is Monitor |
| ModeController.StartupThenRun | networking_l2gw/services/l2gateway/agent/ovsdb/manager.py:42-46 | from a successful start, the invariant holds after every command sequence |
| ModeController.TransactThenMonitorRetriesAll | networking_l2gw/services/l2gateway/agent/ovsdb/manager.py:163-169 | Transact then Monitor leaves the task running with no live handle, so the next tick attempts to open every gateway |
| ScopedWrite.HandleRequest | networking_l2gw/services/l2gateway/agent/ovsdb/manager.py:199-246 | an invalid identifier opens nothing and drops the request; a valid one attempts one writer for the named gateway and, if it was built, applies exactly the handler's operation once and disconnects the writer exactly once, last; every event names the requested gateway; the caller sees an exception if and only if construction or the operation raised |
| ScopedWrite.RequestValidity | networking_l2gw/services/l2gateway/agent/ovsdb/manager.py:192-197 | a request reaches a writer if and only if its identifier is non-empty and registered; an empty identifier is refused even when a gateway is registered under it |
| ScopedWrite.OpenConnection | networking_l2gw/services/l2gateway/agent/ovsdb/manager.py:180-190 | exactly one writer is attempted; a built writer runs the given operation once and is disconnected exactly once, as the last step, whether the operation returned or raised; a writer that could not be built is never disconnected; every event names the given gateway; the exception reaches the caller if and only if construction or the operation raised |
| ScopedWrite.OperationOf | networking_l2gw/services/l2gateway/agent/ovsdb/manager.py:199-246 | each of the five handlers issues its own writer method: the delete-network handler deletes a logical switch, the add, delete and update VIF handlers insert, delete and update a remote unicast MAC, and the connection handler updates the connection; each handler passes its arguments to that method unchanged and in their order |
| ScopedWrite.OperationOfInjective | networking_l2gw/services/l2gateway/agent/ovsdb/manager.py:199-246 | for one gateway, no two distinct requests issue the same operation |
| ScopedWrite.ScopedSingle | networking_l2gw/services/l2gateway/agent/ovsdb/manager.py:180-190 | one scoped use holds at most one writer, runs its operation while the writer is held, and leaves none open |
| ScopedWrite.ScopedConcat | networking_l2gw/services/l2gateway/agent/ovsdb/manager.py:199-246 | scoped traces stay scoped when one follows another |
| ScopedWrite.ServeAllScoped | networking_l2gw/services/l2gateway/agent/ovsdb/manager.py:199-246 | for any requests and writer outcomes, the combined trace never holds two writers and never leaks one |
| ScopedWrite.BlankIdentifierNeverWritable | networking_l2gw/services/l2gateway/agent/ovsdb/manager.py:192-197 | a gateway registered under a blank identifier is kept in the registry, but every write request naming it is dropped |

## Left out

- The OVSDB wire protocol. `ovsdb_monitor.OVSDBMonitor` and `ovsdb_writer.OVSDBWriter` are not part of this model. Opening a monitor is an oracle outcome (fails, or yields a handle with a `connected` flag). `disconnect()` is assumed to leave the handle in its entry, reporting not connected. A writer is an oracle outcome (construction fails, or the operation returns or raises).
- Concurrency. `eventlet.greenthread.spawn_n` and the monitor response loop are not modelled. Only a failed spawn is kept, as the process exit `Exited`. Under Python 3, `Exception.message` would raise `AttributeError` instead of `SystemExit`; that difference is not modelled either.
- The looping call's timing. `FixedIntervalLoopingCall` and its interval become the `running` flag. A `TimerFires` command runs a tick only while the flag is set.
- RPC transport and admin context. `notify_ovsdb_states` is the `NotifyStates` event. `agent_to_plugin_rpc` (lines 248-250) is a one-line forward of monitor events and is not modelled.
- The base manager and `L2GatewayConfig` are not part of this model. The mode stored by the base `set_monitor_agent` is an input. The base constructor is assumed to leave an empty registry and the unset mode. A new gateway entry is assumed to have no handle, and its construction is assumed not to raise.
- Configuration. `oslo.config` values are a plain `OvsdbOptions` record, and an unset (`None`) base path is modelled as the empty string.
- Logging and `agent_state['configurations']` bookkeeping (lines 141-142).
- Text encoding. `str.strip()` uses Python 2's ASCII whitespace set (space, tab, newline, carriage return, vertical tab, form feed). Python 3 strips a larger Unicode set. Under Python 2, `str()` of non-ASCII text raises; that is not modelled.
- A failing `disconnect()` inside `_open_connection`'s `finally` would replace the operation's exception. That is not modelled.
- Dictionary iteration order is the tick's `order` input, which must list every registered identifier once. `Supervisor.TickOrderIndependent` shows that the order does not decide whether a tick exits, nor the resulting registry, snapshot or set of gateways it tries to open. The order of the open attempts in the event trace depends on it, and so does the gateway named by `Exited(at)` when several response loops fail to spawn.
- Connection loss noticed by the monitor's response loop is not a command. During a run a handle becomes dead only when an open yields an unconnected handle, or when the agent leaves Monitor mode and every gateway is disconnected; the next tick tries to reopen such a gateway (`Supervisor.TickMatchesReference`).

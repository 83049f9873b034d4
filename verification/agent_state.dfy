/** The agent-wide state: the operating mode, whether the periodic
    supervisor task is running, and the gateway registry. */
module AgentState {
  import opened Gateways

  /** `Unset` is the empty agent type the manager falls back to after a
      heartbeat failure. */
  datatype Mode = Unset | Monitor | Transact

  datatype Agent = Agent(mode: Mode, running: bool, gateways: Registry)

  /** The supervisor task runs exactly when the agent is the monitor. */
  predicate Consistent(a: Agent) {
    a.running <==> a.mode == Monitor
  }
}

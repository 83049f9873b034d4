/** The gateway registry: one entry per configured OVSDB server, keyed by
    its identifier, holding the static configuration and the current
    monitoring handle. */
module Gateways {
  import opened Wrappers

  /** Paths of the TLS material of one gateway. */
  datatype Tls = Tls(privateKey: string, certificate: string, caCert: string)

  /** The static configuration parsed from one host-list entry. The port is
      kept as text, as the parser leaves it. */
  datatype GatewayConfig = GatewayConfig(identifier: string, ip: string, port: string, tls: Option<Tls>)

  /** A monitoring connection, observed only through its `connected` flag. */
  datatype Handle = Handle(connected: bool)

  /** A registry entry; `handle` is `None` until a monitor was first opened. */
  datatype Gateway = Gateway(config: GatewayConfig, handle: Option<Handle>)

  type Registry = map<string, Gateway>

  /** `ovsdb_fd and ovsdb_fd.connected`. */
  predicate IsLive(h: Option<Handle>) {
    h.Some? && h.value.connected
  }

  predicate NoneLive(gws: Registry) {
    forall k :: k in gws ==> !IsLive(gws[k].handle)
  }

  /** No gateway has had a monitor opened yet. */
  predicate NoHandles(gws: Registry) {
    forall k :: k in gws ==> gws[k].handle.None?
  }

  /** A write request names a registered gateway by a non-empty identifier
      (an identifier of `None` is modelled as the empty string). */
  predicate IsValidRequest(gws: Registry, identifier: string) {
    identifier != "" && identifier in gws
  }

  /** Calls `disconnect()` on every connected handle. The handle stays in its
      entry and reports itself disconnected afterwards. */
  function DisconnectAll(gws: Registry): (r: Registry)
    ensures r.Keys == gws.Keys
    ensures NoneLive(r)
    ensures forall k :: k in gws && !IsLive(gws[k].handle) ==> r[k] == gws[k]
    ensures forall k :: k in gws ==> r[k].config == gws[k].config && r[k].handle.Some? == gws[k].handle.Some?
  {
    map k | k in gws :: if IsLive(gws[k].handle) then gws[k].(handle := Some(Handle(false))) else gws[k]
  }

  /** Disconnecting twice is the same as disconnecting once. */
  lemma {:induction false} DisconnectAllIdempotent(gws: Registry)
    ensures DisconnectAll(DisconnectAll(gws)) == DisconnectAll(gws)
  {
  }
}

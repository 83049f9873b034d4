/** The five write handlers and their scoped writer connection
    (`_is_valid_request`, `_open_connection`): validate the identifier, open
    a writer, run one operation, and disconnect on every exit path. */
module ScopedWrite {
  import opened Gateways
  import opened HostConfig

  /** A dictionary payload passed through to the writer unchanged. */
  type Dict = map<string, string>

  /** The writer operations. */
  datatype WriteOp =
    | DeleteLogicalSwitch(logicalSwitchUuid: string)
    | InsertUcastMacsRemote(logicalSwitch: Dict, locator: Dict, mac: Dict)
    | DeleteUcastMacsRemote(logicalSwitchUuid: string, macAddress: string)
    | UpdateUcastMacsRemote(locator: Dict, mac: Dict)
    | UpdateConnection(logicalSwitch: Dict, locators: seq<Dict>, macs: seq<Dict>, ports: seq<Dict>)

  /** The RPC casts from the plugin, each naming a gateway. */
  datatype Request =
    | DeleteNetwork(identifier: string, logicalSwitchUuid: string)
    | AddVifToGateway(identifier: string, logicalSwitch: Dict, locator: Dict, mac: Dict)
    | DeleteVifFromGateway(identifier: string, logicalSwitchUuid: string, macAddress: string)
    | UpdateVifToGateway(identifier: string, locator: Dict, mac: Dict)
    | UpdateConnectionToGateway(identifier: string, logicalSwitch: Dict, locators: seq<Dict>, macs: seq<Dict>, ports: seq<Dict>)

  /** The writer operation each handler issues: every handler calls its own
      writer method and hands it its arguments unchanged, in their order. */
  function OperationOf(req: Request): (r: WriteOp)
    ensures req.DeleteNetwork? <==> r.DeleteLogicalSwitch?
    ensures req.AddVifToGateway? <==> r.InsertUcastMacsRemote?
    ensures req.DeleteVifFromGateway? <==> r.DeleteUcastMacsRemote?
    ensures req.UpdateVifToGateway? <==> r.UpdateUcastMacsRemote?
    ensures req.UpdateConnectionToGateway? <==> r.UpdateConnection?
    ensures req.DeleteNetwork? ==> r.logicalSwitchUuid == req.logicalSwitchUuid
    ensures req.AddVifToGateway? ==>
              r.logicalSwitch == req.logicalSwitch && r.locator == req.locator && r.mac == req.mac
    ensures req.DeleteVifFromGateway? ==>
              r.logicalSwitchUuid == req.logicalSwitchUuid && r.macAddress == req.macAddress
    ensures req.UpdateVifToGateway? ==> r.locator == req.locator && r.mac == req.mac
    ensures req.UpdateConnectionToGateway? ==>
              && r.logicalSwitch == req.logicalSwitch && r.locators == req.locators
              && r.macs == req.macs && r.ports == req.ports
  {
    match req
    case DeleteNetwork(_, ls) => DeleteLogicalSwitch(ls)
    case AddVifToGateway(_, ls, loc, mac) => InsertUcastMacsRemote(ls, loc, mac)
    case DeleteVifFromGateway(_, ls, mac) => DeleteUcastMacsRemote(ls, mac)
    case UpdateVifToGateway(_, loc, mac) => UpdateUcastMacsRemote(loc, mac)
    case UpdateConnectionToGateway(_, ls, locs, macs, ports) => UpdateConnection(ls, locs, macs, ports)
  }

  /** No argument is lost on the way to the writer: for one gateway, no two
      distinct requests issue the same operation. */
  lemma {:induction false} OperationOfInjective(a: Request, b: Request)
    requires a.identifier == b.identifier
    ensures OperationOf(a) == OperationOf(b) <==> a == b
  {
  }

  /** Whether the operation returns or raises. */
  datatype OpResult = Returns | Raises

  /** What the writer does: its constructor raises, or it is built and the
      operation then returns or raises. */
  datatype WriterOutcome = ConstructionFails | Constructed(result: OpResult)

  /** Observable steps of a write. */
  datatype WriteEvent =
    | WriterOpened(identifier: string)
    | WriterOpenFailed(identifier: string)
    | Applied(identifier: string, op: WriteOp)
    | Disconnected(identifier: string)

  /** How the handler ends: request dropped as invalid, returned normally, or
      an exception propagated to the caller. */
  datatype Completion = Dropped | Returned | Raised

  datatype WriteResult = WriteResult(trace: seq<WriteEvent>, completion: Completion)

  /** `_open_connection` used in a `with` block: the writer is built first;
      if that raises nothing is held and nothing is released; otherwise the
      operation runs and the `finally` clause disconnects the writer whether
      the operation returned or raised. Every step names the requested
      gateway. */
  function OpenConnection(identifier: string, op: WriteOp, outcome: WriterOutcome): (r: WriteResult)
    ensures forall e :: e in r.trace ==> e.identifier == identifier && (e.Applied? ==> e.op == op)
    ensures Occurrences(r.trace, WriterOpened(identifier)) + Occurrences(r.trace, WriterOpenFailed(identifier)) == 1
    ensures outcome.Constructed? <==> Occurrences(r.trace, WriterOpened(identifier)) == 1
    ensures Occurrences(r.trace, Applied(identifier, op)) == Occurrences(r.trace, WriterOpened(identifier))
    ensures Occurrences(r.trace, Disconnected(identifier)) == Occurrences(r.trace, WriterOpened(identifier))
    ensures |r.trace| == 1 + 2 * Occurrences(r.trace, WriterOpened(identifier))
    ensures outcome.Constructed? ==> r.trace[|r.trace| - 1] == Disconnected(identifier)
    ensures r.completion != Dropped
    ensures r.completion == Raised <==> outcome.ConstructionFails? || outcome.result == Raises
  {
    match outcome
    case ConstructionFails =>
      var t := [WriterOpenFailed(identifier)];
      assert multiset(t) == multiset{WriterOpenFailed(identifier)};
      WriteResult(t, Raised)
    case Constructed(result) =>
      var t := [WriterOpened(identifier), Applied(identifier, op), Disconnected(identifier)];
      assert multiset(t) == multiset{WriterOpened(identifier), Applied(identifier, op), Disconnected(identifier)};
      WriteResult(t, if result == Raises then Raised else Returned)
  }

  /** Number of writers held open after `trace`. */
  function Outstanding(trace: seq<WriteEvent>): int {
    if trace == [] then 0
    else
      var e := trace[|trace| - 1];
      Outstanding(trace[..|trace| - 1]) + (if e.WriterOpened? then 1 else if e.Disconnected? then -1 else 0)
  }

  /** Scoped use: at most one writer is open at any point, every operation
      runs while one is open, and none is left open at the end. */
  predicate Scoped(trace: seq<WriteEvent>) {
    && (forall n :: 0 <= n <= |trace| ==> 0 <= Outstanding(trace[..n]) <= 1)
    && (forall n :: 0 <= n < |trace| && trace[n].Applied? ==> Outstanding(trace[..n]) == 1)
    && Outstanding(trace) == 0
  }

  /** Number of occurrences of `e` in `trace`. */
  function Occurrences(trace: seq<WriteEvent>, e: WriteEvent): nat {
    multiset(trace)[e]
  }

  /** A write request handler. An invalid identifier drops the request
      without touching any connection. A valid one attempts exactly one
      writer for the named gateway and, if it was built, issues exactly the
      handler's operation once and disconnects the writer exactly once, as
      the last step, whatever the operation did; a writer that could not be
      built is never disconnected. */
  function HandleRequest(gws: Registry, req: Request, outcome: WriterOutcome): (r: WriteResult)
    ensures !IsValidRequest(gws, req.identifier) <==> r.completion == Dropped
    ensures !IsValidRequest(gws, req.identifier) ==> r.trace == []
    ensures IsValidRequest(gws, req.identifier) ==>
              forall e :: e in r.trace ==> e.identifier == req.identifier && (e.Applied? ==> e.op == OperationOf(req))
    ensures IsValidRequest(gws, req.identifier) ==>
              var id := req.identifier;
              && Occurrences(r.trace, WriterOpened(id)) + Occurrences(r.trace, WriterOpenFailed(id)) == 1
              && (outcome.Constructed? <==> Occurrences(r.trace, WriterOpened(id)) == 1)
              && Occurrences(r.trace, Applied(id, OperationOf(req))) == Occurrences(r.trace, WriterOpened(id))
              && Occurrences(r.trace, Disconnected(id)) == Occurrences(r.trace, WriterOpened(id))
              && |r.trace| == 1 + 2 * Occurrences(r.trace, WriterOpened(id))
              && (outcome.Constructed? ==> r.trace[|r.trace| - 1] == Disconnected(id))
    ensures r.completion == Raised <==>
              IsValidRequest(gws, req.identifier) && (outcome.ConstructionFails? || outcome.result == Raises)
    ensures Scoped(r.trace)
  {
    if !IsValidRequest(gws, req.identifier) then WriteResult([], Dropped)
    else
      ScopedSingle(req.identifier, OperationOf(req), outcome);
      OpenConnection(req.identifier, OperationOf(req), outcome)
  }

  /** `_is_valid_request`: a request reaches a writer exactly when its
      identifier is non-empty and registered; a request naming a gateway
      that is registered under the empty identifier is still refused. */
  lemma {:induction false} RequestValidity(gws: Registry, req: Request, outcome: WriterOutcome)
    ensures var r := HandleRequest(gws, req, outcome);
            r.trace != [] <==> req.identifier != "" && req.identifier in gws
    ensures req.identifier == "" ==> HandleRequest(gws, req, outcome) == WriteResult([], Dropped)
  {
    var r := HandleRequest(gws, req, outcome);
    if IsValidRequest(gws, req.identifier) {
      assert |r.trace| >= 1;
    }
  }

  lemma {:induction false} ScopedSingle(id: string, op: WriteOp, outcome: WriterOutcome)
    ensures Scoped(OpenConnection(id, op, outcome).trace)
  {
    var t := OpenConnection(id, op, outcome).trace;
    if outcome.Constructed? {
      assert t[..0] == [] && t[..1] == [WriterOpened(id)];
      assert t[..2] == [WriterOpened(id), Applied(id, op)];
      assert t[..3] == t;
      assert Outstanding(t[..2]) == 1;
    } else {
      assert t[..0] == [] && t[..1] == t;
    }
  }

  lemma {:induction false} OutstandingConcat(a: seq<WriteEvent>, b: seq<WriteEvent>)
    ensures Outstanding(a + b) == Outstanding(a) + Outstanding(b)
    decreases |b|
  {
    if b != [] {
      var b' := b[..|b| - 1];
      assert (a + b)[..|a + b| - 1] == a + b';
      OutstandingConcat(a, b');
    } else {
      assert a + b == a;
    }
  }

  /** Scoped traces compose: serving one request after another never holds
      two writers at once and never leaks one. */
  lemma {:induction false} ScopedConcat(a: seq<WriteEvent>, b: seq<WriteEvent>)
    requires Scoped(a) && Scoped(b)
    ensures Scoped(a + b)
  {
    var t := a + b;
    forall n | 0 <= n <= |t| ensures 0 <= Outstanding(t[..n]) <= 1 {
      if n <= |a| {
        assert t[..n] == a[..n];
      } else {
        assert t[..n] == a + b[..n - |a|];
        OutstandingConcat(a, b[..n - |a|]);
      }
    }
    forall n | 0 <= n < |t| && t[n].Applied? ensures Outstanding(t[..n]) == 1 {
      if n < |a| {
        assert t[..n] == a[..n];
      } else {
        assert t[n] == b[n - |a|];
        assert t[..n] == a + b[..n - |a|];
        OutstandingConcat(a, b[..n - |a|]);
      }
    }
    OutstandingConcat(a, b);
  }

  /** Serves a sequence of requests, each with its writer outcome. */
  function ServeAll(gws: Registry, reqs: seq<Request>, outcomes: seq<WriterOutcome>): seq<WriteEvent>
    requires |reqs| == |outcomes|
    decreases |reqs|
  {
    if reqs == [] then []
    else HandleRequest(gws, reqs[0], outcomes[0]).trace + ServeAll(gws, reqs[1..], outcomes[1..])
  }

  /** Whatever the requests and however each writer behaves, the combined
      trace of the handlers is scoped: no writer is ever leaked. */
  lemma {:induction false} ServeAllScoped(gws: Registry, reqs: seq<Request>, outcomes: seq<WriterOutcome>)
    requires |reqs| == |outcomes|
    ensures Scoped(ServeAll(gws, reqs, outcomes))
    decreases |reqs|
  {
    if reqs == [] {
      assert ServeAll(gws, reqs, outcomes) == [];
      var empty: seq<WriteEvent> := [];
      assert empty[..0] == empty;
    } else {
      ServeAllScoped(gws, reqs[1..], outcomes[1..]);
      ScopedConcat(HandleRequest(gws, reqs[0], outcomes[0]).trace, ServeAll(gws, reqs[1..], outcomes[1..]));
    }
  }

  /** A host entry whose first field is blank registers a gateway under the
      empty identifier; the supervisor will monitor it, but every write
      request naming it is dropped as invalid. */
  lemma {:induction false} BlankIdentifierNeverWritable(gws: Registry, host: string, bases: TlsBases, req: Request, outcome: WriterOutcome)
    requires ParseHostEntry(host, bases).Some? && ParseHostEntry(host, bases).value.identifier == ""
    requires req.identifier == ""
    ensures "" in ProcessHost(gws, host, bases)
    ensures HandleRequest(ProcessHost(gws, host, bases), req, outcome) == WriteResult([], Dropped)
  {
  }
}

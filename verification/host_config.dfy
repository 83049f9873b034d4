/** Startup configuration: the comma-separated `ovsdb_hosts` list, the TLS
    base directories and the retry/interval check. */
module HostConfig {
  import opened Wrappers
  import opened Text
  import opened Gateways

  /** Base directories of the TLS material; an unset option is "". */
  datatype TlsBases = TlsBases(privateKeyBase: string, certBase: string, caCertBase: string)

  /** The `[ovsdb]` options read by the manager. */
  datatype OvsdbOptions = OvsdbOptions(
    hosts: string,
    maxConnectionRetries: int,
    periodicInterval: int,
    tls: TlsBases)

  /** The fatal startup error (`SystemExit`). */
  datatype StartupError = RetriesNotBelowInterval

  predicate UsesTls(bases: TlsBases) {
    bases.privateKeyBase != "" && bases.certBase != "" && bases.caCertBase != ""
  }

  /** `"/".join([base, ".".join([identifier, suffix])])`. */
  function TlsPath(base: string, identifier: string, suffix: string): string {
    Join([base, Join([identifier, suffix], '.')], '/')
  }

  /** The per-gateway TLS files exist exactly when all three base
      directories are set. */
  function TlsFor(identifier: string, bases: TlsBases): (r: Option<Tls>)
    ensures r.Some? <==> UsesTls(bases)
  {
    if UsesTls(bases) then
      Some(Tls(
        TlsPath(bases.privateKeyBase, identifier, "key"),
        TlsPath(bases.certBase, identifier, "cert"),
        TlsPath(bases.caCertBase, identifier, "ca_cert")))
    else None
  }

  lemma {:induction false} TlsPathShape(base: string, identifier: string, suffix: string)
    ensures TlsPath(base, identifier, suffix) == base + "/" + identifier + "." + suffix
  {
    JoinPair(identifier, suffix, '.');
    JoinPair(base, identifier + "." + suffix, '/');
    assert base + "/" + (identifier + "." + suffix) == base + "/" + identifier + "." + suffix;
  }

  /** Each TLS file is `<base>/<identifier>.<suffix>` under its own base
      directory, with suffixes key, cert and ca_cert. */
  lemma {:induction false} TlsForPaths(identifier: string, bases: TlsBases)
    requires UsesTls(bases)
    ensures TlsFor(identifier, bases).value.privateKey == bases.privateKeyBase + "/" + identifier + ".key"
    ensures TlsFor(identifier, bases).value.certificate == bases.certBase + "/" + identifier + ".cert"
    ensures TlsFor(identifier, bases).value.caCert == bases.caCertBase + "/" + identifier + ".ca_cert"
  {
    TlsPathShape(bases.privateKeyBase, identifier, "key");
    TlsPathShape(bases.certBase, identifier, "cert");
    TlsPathShape(bases.caCertBase, identifier, "ca_cert");
    assert bases.privateKeyBase + "/" + identifier + "." + "key" == bases.privateKeyBase + "/" + identifier + ".key";
    assert bases.certBase + "/" + identifier + "." + "cert" == bases.certBase + "/" + identifier + ".cert";
    assert bases.caCertBase + "/" + identifier + "." + "ca_cert" == bases.caCertBase + "/" + identifier + ".ca_cert";
  }

  /** Parses one host-list entry `identifier:ip:port[:...]`. An entry with
      fewer than three fields makes the field lookup fail; the failure is
      logged and yields no configuration. Fields beyond the third are
      ignored. */
  function ParseHostEntry(host: string, bases: TlsBases): (r: Option<GatewayConfig>)
    ensures r.None? <==> Count(host, ':') < 2
    ensures r.Some? ==> Trimmed(r.value.identifier) && Trimmed(r.value.ip) && Trimmed(r.value.port)
    ensures r.Some? ==> r.value.tls == TlsFor(r.value.identifier, bases)
  {
    var fields := Split(host, ':');
    if |fields| < 3 then None
    else
      var identifier := Strip(fields[0]);
      Some(GatewayConfig(identifier, Strip(fields[1]), Strip(fields[2]), TlsFor(identifier, bases)))
  }

  lemma {:induction false} ColonFreeFields(a: string, b: string, c: string, extra: seq<string>)
    requires ':' !in a && ':' !in b && ':' !in c
    requires forall i :: 0 <= i < |extra| ==> ':' !in extra[i]
    ensures forall i :: 0 <= i < |[a, b, c] + extra| ==> ':' !in ([a, b, c] + extra)[i]
  {
    var parts := [a, b, c] + extra;
    forall i | 0 <= i < |parts| ensures ':' !in parts[i] {
      if i == 0 { assert parts[i] == a; }
      else if i == 1 { assert parts[i] == b; }
      else if i == 2 { assert parts[i] == c; }
      else { assert parts[i] == extra[i - 3]; }
    }
  }

  lemma {:induction false} ParseOfFields(host: string, fields: seq<string>, bases: TlsBases)
    requires Split(host, ':') == fields && |fields| >= 3
    ensures ParseHostEntry(host, bases)
            == Some(GatewayConfig(Strip(fields[0]), Strip(fields[1]), Strip(fields[2]), TlsFor(Strip(fields[0]), bases)))
  {
  }

  /** An entry built from three colon-free fields and any further colon-free
      fields registers the stripped first three fields; the rest is ignored. */
  lemma {:induction false} ParseJoinedFields(a: string, b: string, c: string, extra: seq<string>, bases: TlsBases)
    requires ':' !in a && ':' !in b && ':' !in c
    requires forall i :: 0 <= i < |extra| ==> ':' !in extra[i]
    ensures ParseHostEntry(Join([a, b, c] + extra, ':'), bases)
            == Some(GatewayConfig(Strip(a), Strip(b), Strip(c), TlsFor(Strip(a), bases)))
  {
    var parts := [a, b, c] + extra;
    var host := Join(parts, ':');
    ColonFreeFields(a, b, c, extra);
    SplitJoin(parts, ':');
    ParseOfFields(host, parts, bases);
    assert parts[0] == a && parts[1] == b && parts[2] == c;
  }

  /** Stores a parsed entry under its identifier, replacing whatever was
      there, with no monitoring handle yet; no entry changes nothing. */
  function Register(gws: Registry, entry: Option<GatewayConfig>): (r: Registry)
    ensures entry.None? ==> r == gws
    ensures entry.Some? ==>
              r.Keys == gws.Keys + {entry.value.identifier} && r[entry.value.identifier] == Gateway(entry.value, None)
              && forall k :: k in gws && k != entry.value.identifier ==> r[k] == gws[k]
  {
    match entry
    case None => gws
    case Some(c) => gws[c.identifier := Gateway(c, None)]
  }

  /** `_process_ovsdb_host`: a well-formed entry replaces whatever was
      registered under its identifier, with no monitoring handle yet; a
      malformed one leaves the registry as it was. */
  function ProcessHost(gws: Registry, host: string, bases: TlsBases): (r: Registry)
    ensures Count(host, ':') < 2 ==> r == gws
    ensures Count(host, ':') >= 2 ==>
              var c := ParseHostEntry(host, bases).value;
              r.Keys == gws.Keys + {c.identifier} && r[c.identifier] == Gateway(c, None)
              && forall k :: k in gws && k != c.identifier ==> r[k] == gws[k]
  {
    Register(gws, ParseHostEntry(host, bases))
  }

  /** The parsed form of every entry, in order. */
  function ParseAll(hosts: seq<string>, bases: TlsBases): (r: seq<Option<GatewayConfig>>)
    ensures |r| == |hosts|
  {
    seq(|hosts|, i requires 0 <= i < |hosts| => ParseHostEntry(hosts[i], bases))
  }

  /** Registers parsed entries left to right. */
  function RegisterAll(gws: Registry, entries: seq<Option<GatewayConfig>>): (r: Registry)
    ensures gws.Keys <= r.Keys
    decreases |entries|
  {
    if entries == [] then gws else RegisterAll(Register(gws, entries[0]), entries[1..])
  }

  /** Processes the entries of the host list left to right: the same as
      parsing them all and registering the parsed entries in order. */
  function RegisterHosts(gws: Registry, hosts: seq<string>, bases: TlsBases): (r: Registry)
    ensures gws.Keys <= r.Keys
    ensures r == RegisterAll(gws, ParseAll(hosts, bases))
    decreases |hosts|
  {
    if hosts == [] then gws
    else
      var r := RegisterHosts(ProcessHost(gws, hosts[0], bases), hosts[1..], bases);
      assert ParseAll(hosts, bases)[1..] == ParseAll(hosts[1..], bases);
      r
  }

  /** Reference definition: the LAST parsed entry that names `k`, scanning
      from the right. */
  function LastEntry(entries: seq<Option<GatewayConfig>>, k: string): Option<GatewayConfig>
    decreases |entries|
  {
    if entries == [] then None
    else
      var c := entries[|entries| - 1];
      if c.Some? && c.value.identifier == k then c else LastEntry(entries[..|entries| - 1], k)
  }

  /** The configuration of the last well-formed host entry naming `k`. */
  function LastEntryFor(hosts: seq<string>, k: string, bases: TlsBases): Option<GatewayConfig> {
    LastEntry(ParseAll(hosts, bases), k)
  }

  /** The identifiers named by the parsed entries. */
  function Ids(entries: seq<Option<GatewayConfig>>): set<string> {
    set i | 0 <= i < |entries| && entries[i].Some? :: entries[i].value.identifier
  }

  /** The identifiers of the well-formed host entries. */
  function EntryIds(hosts: seq<string>, bases: TlsBases): set<string> {
    Ids(ParseAll(hosts, bases))
  }

  lemma {:induction false} RegisterAllSnoc(gws: Registry, entries: seq<Option<GatewayConfig>>, c: Option<GatewayConfig>)
    ensures RegisterAll(gws, entries + [c]) == Register(RegisterAll(gws, entries), c)
    decreases |entries|
  {
    if entries == [] {
      assert [c][1..] == [];
    } else {
      assert (entries + [c])[1..] == entries[1..] + [c];
      RegisterAllSnoc(Register(gws, entries[0]), entries[1..], c);
    }
  }

  lemma {:induction false} RegisterAllLastWins(gws: Registry, entries: seq<Option<GatewayConfig>>, k: string)
    ensures var r := RegisterAll(gws, entries);
            var last := LastEntry(entries, k);
            && (last.Some? ==> k in r && r[k] == Gateway(last.value, None))
            && (last.None? ==> (k in r <==> k in gws) && (k in gws ==> r[k] == gws[k]))
    decreases |entries|
  {
    if entries != [] {
      var init := entries[..|entries| - 1];
      var c := entries[|entries| - 1];
      assert entries == init + [c];
      RegisterAllSnoc(gws, init, c);
      RegisterAllLastWins(gws, init, k);
    }
  }

  lemma {:induction false} IdsSnoc(init: seq<Option<GatewayConfig>>, c: Option<GatewayConfig>)
    ensures Ids(init + [c]) == Ids(init) + (if c.Some? then {c.value.identifier} else {})
  {
    var entries := init + [c];
    var extra: set<string> := if c.Some? then {c.value.identifier} else {};
    forall k | k in Ids(entries) ensures k in Ids(init) + extra {
      var i :| 0 <= i < |entries| && entries[i].Some? && entries[i].value.identifier == k;
      if i < |init| { assert entries[i] == init[i]; }
    }
    forall k | k in Ids(init) ensures k in Ids(entries) {
      var i :| 0 <= i < |init| && init[i].Some? && init[i].value.identifier == k;
      assert entries[i] == init[i];
    }
    if c.Some? {
      assert entries[|init|] == c;
    }
  }

  lemma {:induction false} RegisterAllKeys(gws: Registry, entries: seq<Option<GatewayConfig>>)
    ensures RegisterAll(gws, entries).Keys == gws.Keys + Ids(entries)
    decreases |entries|
  {
    if entries == [] {
      assert Ids(entries) == {};
    } else {
      var init := entries[..|entries| - 1];
      var c := entries[|entries| - 1];
      assert entries == init + [c];
      RegisterAllSnoc(gws, init, c);
      RegisterAllKeys(gws, init);
      IdsSnoc(init, c);
    }
  }

  lemma {:induction false} RegisterAllFresh(gws: Registry, entries: seq<Option<GatewayConfig>>)
    ensures NoHandles(gws) ==> NoHandles(RegisterAll(gws, entries))
    decreases |entries|
  {
    if entries != [] && NoHandles(gws) {
      var next := Register(gws, entries[0]);
      assert NoHandles(next);
      RegisterAllFresh(next, entries[1..]);
    }
  }

  /** A later entry replaces an earlier one with the same identifier: every
      key ends up with its last well-formed entry, and keys named by no
      well-formed entry keep what they had. */
  lemma {:induction false} RegisterHostsLastWins(gws: Registry, hosts: seq<string>, bases: TlsBases)
    ensures var r := RegisterHosts(gws, hosts, bases);
            forall k ::
              && (LastEntryFor(hosts, k, bases).Some? ==>
                    k in r && r[k] == Gateway(LastEntryFor(hosts, k, bases).value, None))
              && (LastEntryFor(hosts, k, bases).None? ==> (k in r <==> k in gws) && (k in gws ==> r[k] == gws[k]))
  {
    forall k {
      RegisterAllLastWins(gws, ParseAll(hosts, bases), k);
    }
  }

  /** The registered keys are the earlier keys plus the identifiers of the
      well-formed entries; malformed entries add nothing. */
  lemma {:induction false} RegisterHostsKeys(gws: Registry, hosts: seq<string>, bases: TlsBases)
    ensures RegisterHosts(gws, hosts, bases).Keys == gws.Keys + EntryIds(hosts, bases)
  {
    RegisterAllKeys(gws, ParseAll(hosts, bases));
  }

  /** Entries registered from the host list have no handle yet. */
  lemma {:induction false} RegisterHostsFresh(gws: Registry, hosts: seq<string>, bases: TlsBases)
    ensures NoHandles(gws) ==> NoHandles(RegisterHosts(gws, hosts, bases))
  {
    RegisterAllFresh(gws, ParseAll(hosts, bases));
  }

  /** `_extract_ovsdb_config`: with a non-empty host list every entry is
      processed and then the retry budget must stay below the periodic
      interval; an empty host list registers nothing and checks nothing. */
  function ExtractConfig(gws: Registry, opts: OvsdbOptions): (r: Result<Registry, StartupError>)
    ensures opts.hosts == "" ==> r == Success(gws)
    ensures opts.hosts != "" ==> (r.Failure? <==> opts.maxConnectionRetries >= opts.periodicInterval)
    ensures opts.hosts != "" && r.Success? ==>
              r.value.Keys == gws.Keys + EntryIds(Split(opts.hosts, ','), opts.tls)
    ensures opts.hosts != "" && r.Success? ==>
              forall k :: LastEntryFor(Split(opts.hosts, ','), k, opts.tls).Some? ==>
                k in r.value && r.value[k] == Gateway(LastEntryFor(Split(opts.hosts, ','), k, opts.tls).value, None)
    ensures r.Success? && NoHandles(gws) ==> NoHandles(r.value)
  {
    if opts.hosts != "" then
      var hosts := Split(opts.hosts, ',');
      var registered := RegisterHosts(gws, hosts, opts.tls);
      RegisterHostsKeys(gws, hosts, opts.tls);
      RegisterHostsLastWins(gws, hosts, opts.tls);
      RegisterHostsFresh(gws, hosts, opts.tls);
      if opts.maxConnectionRetries >= opts.periodicInterval then Failure(RetriesNotBelowInterval)
      else Success(registered)
    else Success(gws)
  }
}

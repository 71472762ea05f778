/**
 * Configuration of the secure-forward output: from the parsed top-level
 * settings and server blocks to the resolved configuration, with the
 * self hostname expanded, the node list built and the thread-count
 * warning counted.
 */
module SecureForward {
  import opened Results
  import Duration
  import opened Placeholder
  import opened NodeRegistry

  /** Seconds of keepalive when the top level does not set one. */
  const DefaultKeepalive: nat := 60

  /** The top-level settings and server blocks, as parsed. */
  datatype RawConfig = RawConfig(
    secure: bool,
    caCertPath: Option<string>,
    sharedKey: string,
    selfHostname: string,
    hostname: Option<string>,
    keepalive: Option<string>,
    numThreads: nat,
    servers: seq<ServerSpec>)

  /** The configuration the output runs with. */
  datatype Config = Config(
    secure: bool,
    caCertPath: Option<string>,
    selfHostname: string,
    keepalive: nat,
    numThreads: nat,
    nodes: seq<Node>,
    warnings: nat)

  predicate KeepaliveValid(keepalive: Option<string>) {
    keepalive.None? || Duration.WellFormed(keepalive.value)
  }

  /** Seconds of the top-level keepalive, or the default when it is unset. */
  function KeepaliveSeconds(keepalive: Option<string>): (r: Option<nat>)
    ensures r.Some? <==> KeepaliveValid(keepalive)
    ensures keepalive.None? ==> r == Some(DefaultKeepalive)
    ensures keepalive.Some? ==> r == Duration.ParseDuration(keepalive.value)
  {
    match keepalive
    case None => Some(DefaultKeepalive)
    case Some(text) => Duration.ParseDuration(text)
  }

  /**
   * Configures the output. `systemHostname` stands for the host's own name,
   * which the output looks up from the operating system.
   */
  function Configure(raw: RawConfig, systemHostname: string): (r: Result<Config>)
    ensures r.Ok? <==> KeepaliveValid(raw.keepalive) && |raw.servers| > 0 && AllHaveHost(raw.servers)
    ensures !KeepaliveValid(raw.keepalive) ==> r == Err(InvalidDuration(raw.keepalive.value))
    ensures KeepaliveValid(raw.keepalive) && |raw.servers| == 0 ==> r == Err(NoServers)
    ensures KeepaliveValid(raw.keepalive) && |raw.servers| > 0 && !AllHaveHost(raw.servers) ==>
              && r.Err? && r.error.MissingHost?
              && r.error.index < |raw.servers| && raw.servers[r.error.index].host.None?
    ensures r.Ok? ==>
              && r.value.secure == raw.secure
              && r.value.caCertPath == raw.caCertPath
              && r.value.numThreads == raw.numThreads
              && r.value.selfHostname == ResolveSelfHostname(raw.selfHostname, raw.hostname, systemHostname)
              && Some(r.value.keepalive) == KeepaliveSeconds(raw.keepalive)
              && |r.value.nodes| == |raw.servers|
              && (forall i :: 0 <= i < |raw.servers| ==>
                    r.value.nodes[i] == ResolveNode(raw.servers[i], Defaults(raw.sharedKey, r.value.keepalive)))
              && r.value.warnings <= 1
              && (r.value.warnings == 1 <==> raw.numThreads > ActiveSpecCount(raw.servers))
  {
    match KeepaliveSeconds(raw.keepalive)
    case None => Err(InvalidDuration(raw.keepalive.value))
    case Some(keepalive) =>
      var d := Defaults(raw.sharedKey, keepalive);
      match BuildNodes(raw.servers, d)
      case Err(e) => Err(e)
      case Ok(nodes) =>
        ResolveAllAt(raw.servers, d);
        ActivesOfResolved(raw.servers, d);
        Ok(Config(
          secure := raw.secure,
          caCertPath := raw.caCertPath,
          selfHostname := ResolveSelfHostname(raw.selfHostname, raw.hostname, systemHostname),
          keepalive := keepalive,
          numThreads := raw.numThreads,
          nodes := nodes,
          warnings := ThreadWarnings(raw.numThreads, nodes)))
  }

  /** A server block that gives only its host. */
  function HostOnly(host: string): ServerSpec {
    ServerSpec(Some(host), None, None, None, None, None)
  }

  /**
   * A single server block that gives only its host (the port line is
   * commented out) is accepted and gets the default port.
   */
  lemma SingleServerScenario(systemHostname: string)
    ensures var raw := RawConfig(false, None, "secret_string", "client.fqdn.local", None, None, 1,
                                 [HostOnly("server.fqdn.local")]);
            var r := Configure(raw, systemHostname);
            && r.Ok?
            && r.value.nodes == [Node("server.fqdn.local", "server.fqdn.local", 24284, "secret_string", false, 60, None)]
            && r.value.warnings == 0
  {
  }

  /** Text made of characters that cannot start a placeholder is its own expansion. */
  lemma PlainSelfHostname(p: string, host: string)
    requires forall i :: 0 <= i < |p| ==> p[i] != '$' && p[i] != '_'
    ensures Expand(p, host) == p
  {
    PlainIsLiteral(p);
    ExpandLiteralPrefix(p, [], host);
    assert p + [] == p;
  }

  /** Two plain server blocks and a standby one that overrides label, port and shared key. */
  function StandbyConfig(): RawConfig {
    RawConfig(false, None, "secret_string", "client.fqdn.local", None, Some("1m"), 1, [
      HostOnly("server1.fqdn.local"),
      ServerSpec(Some("server2.fqdn.local"), Some("server2"), None, None, None, None),
      ServerSpec(Some("server1.fqdn.local"), Some("server1"), Some(24285), Some("secret_string_more"), Some(true), None)])
  }

  /**
   * Under `keepalive 1m`, the standby configuration gives three nodes in
   * declared order with the defaults filled in and sixty seconds of
   * keepalive on each.
   */
  lemma StandbyServerScenario(systemHostname: string)
    ensures var r := Configure(StandbyConfig(), systemHostname);
            && r.Ok?
            && r.value.selfHostname == "client.fqdn.local"
            && r.value.nodes == [
                 Node("server1.fqdn.local", "server1.fqdn.local", 24284, "secret_string", false, 60, None),
                 Node("server2.fqdn.local", "server2", 24284, "secret_string", false, 60, None),
                 Node("server1.fqdn.local", "server1", 24285, "secret_string_more", true, 60, None)]
  {
    var raw := StandbyConfig();
    Duration.OneMinute();
    assert KeepaliveSeconds(raw.keepalive) == Some(60);
    PlainSelfHostname("client.fqdn.local", systemHostname);
    var r := Configure(raw, systemHostname);
    assert r.Ok?;
    var d := Defaults("secret_string", 60);
    assert r.value.keepalive == 60;
    assert r.value.nodes[0] == ResolveNode(raw.servers[0], d);
    assert r.value.nodes[1] == ResolveNode(raw.servers[1], d);
    assert r.value.nodes[2] == ResolveNode(raw.servers[2], d);
  }

  /**
   * Three worker threads for two non-standby servers: configuration still
   * succeeds, keeps the three threads and records exactly one warning.
   */
  lemma TooManyThreadsScenario(systemHostname: string)
    ensures var raw := RawConfig(false, None, "secret_string", "client.fqdn.local", None, None, 3, [
                         HostOnly("server1.fqdn.local"),
                         HostOnly("server2.fqdn.local"),
                         ServerSpec(Some("server3.fqdn.local"), None, None, None, Some(true), None)]);
            var r := Configure(raw, systemHostname);
            r.Ok? && r.value.numThreads == 3 && r.value.warnings == 1
  {
  }

  /** One server block that gives only its host, with the given self hostname settings. */
  function HostnameConfig(selfHostname: string, hostname: Option<string>): RawConfig {
    RawConfig(false, None, "secret_string", selfHostname, hostname, None, 1, [HostOnly("server.fqdn.local")])
  }

  /** Such a configuration is accepted, and its self hostname is the expansion. */
  lemma HostnameConfigured(selfHostname: string, hostname: Option<string>, systemHostname: string)
    ensures var r := Configure(HostnameConfig(selfHostname, hostname), systemHostname);
            r.Ok? && r.value.selfHostname == Expand(selfHostname, EffectiveHostname(hostname, systemHostname))
  {
  }

  /** `self_hostname ${hostname}` becomes the system hostname. */
  lemma DollarPlaceholderScenario(systemHostname: string)
    ensures var r := Configure(HostnameConfig("${hostname}", None), systemHostname);
            r.Ok? && r.value.selfHostname == systemHostname
  {
  }

  /** `self_hostname __HOSTNAME__` becomes the system hostname. */
  lemma HostnameMarkerScenario(systemHostname: string)
    ensures var r := Configure(HostnameConfig("__HOSTNAME__", None), systemHostname);
            r.Ok? && r.value.selfHostname == systemHostname
  {
    HostnameConfigured(HostnameMarker, None, systemHostname);
    ExpandToken(HostnameMarker, [], systemHostname);
    assert HostnameMarker + [] == HostnameMarker;
  }

  /** Literal text in front of `${hostname}` is kept. */
  lemma PrefixedExpansion(h: string)
    ensures Expand("test.${hostname}", h) == "test." + h
  {
    var p, s := "test.", "test.${hostname}";
    assert s == p + DollarPlaceholder + [];
    forall i | 0 <= i < |p| ensures !TokenAtFront(s[i..]) {
      FirstDiffers(DollarPlaceholder, s[i..]);
      FirstDiffers(HostnameMarker, s[i..]);
    }
    ExpandSurrounded(p, DollarPlaceholder, [], h);
    assert p + h + [] == p + h;
  }

  /**
   * `self_hostname test.${hostname}` keeps the `test.` in front of the
   * hostname, which is the configured `hostname` when there is one and
   * the system hostname otherwise.
   */
  lemma SurroundedHostnameScenario(hostname: Option<string>, systemHostname: string)
    ensures var r := Configure(HostnameConfig("test.${hostname}", hostname), systemHostname);
            r.Ok? && r.value.selfHostname == "test." + EffectiveHostname(hostname, systemHostname)
  {
    HostnameConfigured("test.${hostname}", hostname, systemHostname);
    PrefixedExpansion(EffectiveHostname(hostname, systemHostname));
  }

  /**
   * With a configured `hostname` (the test uses `dummy.local`),
   * `test.${hostname}` becomes `test.` followed by that name, whatever the
   * system is called.
   */
  lemma ExplicitHostnameScenario(hostname: string, systemHostname: string)
    ensures var r := Configure(HostnameConfig("test.${hostname}", Some(hostname)), systemHostname);
            r.Ok? && r.value.selfHostname == "test." + hostname
  {
    SurroundedHostnameScenario(Some(hostname), systemHostname);
  }

  /** An `sni_hostname` on a server block is kept on its node and names the TLS peer. */
  lemma SniHostnameScenario(systemHostname: string)
    ensures var raw := RawConfig(true, Some("ca_cert.pem"), "secret_string", "client.fqdn.local", None, None, 3, [
                         ServerSpec(Some("server1.fqdn.local"), None, None, None, None, Some("real.server.fqdn.local"))]);
            var r := Configure(raw, systemHostname);
            && r.Ok?
            && r.value.nodes[0].sniHostname == Some("real.server.fqdn.local")
            && TlsServerName(r.value.nodes[0]) == "real.server.fqdn.local"
  {
  }
}

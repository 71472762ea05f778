/**
 * Turns the parsed `<server>` blocks into the ordered list of nodes the
 * output sends to, filling in what a block leaves unset.
 */
module NodeRegistry {
  import opened Results

  /** The port a node listens on when its block gives none. */
  const DefaultSecureConnectPort: int := 24284

  /** One `<server>` block as parsed: every setting may be absent. */
  datatype ServerSpec = ServerSpec(
    host: Option<string>,
    hostlabel: Option<string>,
    port: Option<int>,
    sharedKey: Option<string>,
    standby: Option<bool>,
    sniHostname: Option<string>)

  /** The settings a server block inherits from the top level. */
  datatype Defaults = Defaults(sharedKey: string, keepalive: nat)

  /** A resolved node: every setting but the optional SNI name is concrete. */
  datatype Node = Node(
    host: string,
    hostlabel: string,
    port: int,
    sharedKey: string,
    standby: bool,
    keepalive: nat,
    sniHostname: Option<string>)

  /** Resolves one server block against the top-level defaults. */
  function ResolveNode(s: ServerSpec, d: Defaults): (n: Node)
    requires s.host.Some?
    ensures n.host == s.host.value
    ensures n.hostlabel == (if s.hostlabel.Some? then s.hostlabel.value else n.host)
    ensures n.port == (if s.port.Some? then s.port.value else DefaultSecureConnectPort)
    ensures n.sharedKey == (if s.sharedKey.Some? then s.sharedKey.value else d.sharedKey)
    ensures n.standby <==> s.standby == Some(true)
    ensures n.keepalive == d.keepalive
    ensures n.sniHostname == s.sniHostname
  {
    Node(
      host := s.host.value,
      hostlabel := s.hostlabel.GetOr(s.host.value),
      port := s.port.GetOr(DefaultSecureConnectPort),
      sharedKey := s.sharedKey.GetOr(d.sharedKey),
      standby := s.standby.GetOr(false),
      keepalive := d.keepalive,
      sniHostname := s.sniHostname)
  }

  /** The name presented for TLS server-name indication and checked against the certificate. */
  function TlsServerName(n: Node): (name: string)
    ensures n.sniHostname.Some? ==> name == n.sniHostname.value
    ensures n.sniHostname.None? ==> name == n.host
  {
    n.sniHostname.GetOr(n.host)
  }

  predicate AllHaveHost(servers: seq<ServerSpec>) {
    forall i :: 0 <= i < |servers| ==> servers[i].host.Some?
  }

  /** Resolves every block, keeping the declared order. */
  function ResolveAll(servers: seq<ServerSpec>, d: Defaults): (r: seq<Node>)
    requires AllHaveHost(servers)
    ensures |r| == |servers|
    ensures forall i :: 0 <= i < |r| ==> r[i].host == servers[i].host.value
  {
    if |servers| == 0 then []
    else [ResolveNode(servers[0], d)] + ResolveAll(servers[1..], d)
  }

  /** One node per block, in the blocks' order, each resolved from its own block. */
  lemma {:induction false} ResolveAllAt(servers: seq<ServerSpec>, d: Defaults)
    requires AllHaveHost(servers)
    ensures |ResolveAll(servers, d)| == |servers|
    ensures forall i :: 0 <= i < |servers| ==> ResolveAll(servers, d)[i] == ResolveNode(servers[i], d)
  {
    if |servers| > 0 {
      ResolveAllAt(servers[1..], d);
      var rest := ResolveAll(servers[1..], d);
      forall i | 0 < i < |servers| ensures ResolveAll(servers, d)[i] == ResolveNode(servers[i], d) {
        assert servers[1..][i - 1] == servers[i];
      }
    }
  }

  /** The first block without a host, if any. */
  function FirstMissingHost(servers: seq<ServerSpec>): (r: Option<nat>)
    ensures r.None? <==> AllHaveHost(servers)
    ensures r.Some? ==> r.value < |servers| && servers[r.value].host.None?
    ensures r.Some? ==> AllHaveHost(servers[..r.value])
  {
    if |servers| == 0 then None
    else if servers[0].host.None? then Some(0)
    else
      match FirstMissingHost(servers[1..])
      case None => None
      case Some(k) =>
        assert servers[..k + 1] == [servers[0]] + servers[1..][..k];
        Some(k + 1)
  }

  /**
   * The node list: fails when no block is given or a block lacks its host,
   * and otherwise resolves every block.
   */
  function BuildNodes(servers: seq<ServerSpec>, d: Defaults): (r: Result<seq<Node>>)
    ensures |servers| == 0 ==> r == Err(NoServers)
    ensures r.Err? && |servers| > 0 ==>
              (r.error.MissingHost? && r.error.index < |servers| && servers[r.error.index].host.None?)
    ensures r.Ok? <==> |servers| > 0 && AllHaveHost(servers)
    ensures r.Ok? ==> r.value == ResolveAll(servers, d)
  {
    if |servers| == 0 then Err(NoServers)
    else
      match FirstMissingHost(servers)
      case Some(k) => Err(MissingHost(k))
      case None => Ok(ResolveAll(servers, d))
  }

  /** Whether a node takes part in normal rotation (is not a standby). */
  predicate IsActive(n: Node) { !n.standby }

  /** The non-standby nodes, in order. */
  function Actives(nodes: seq<Node>): (r: seq<Node>)
    ensures |r| <= |nodes|
    ensures forall n :: n in r ==> n in nodes && IsActive(n)
    ensures forall n :: n in nodes && IsActive(n) ==> n in r
  {
    if |nodes| == 0 then []
    else if IsActive(nodes[0]) then [nodes[0]] + Actives(nodes[1..])
      else Actives(nodes[1..])
  }

  /** Each non-standby node is kept as often as it occurs; standby nodes are dropped. */
  lemma {:induction false} ActivesMultiset(nodes: seq<Node>)
    ensures forall n :: multiset(Actives(nodes))[n] == (if IsActive(n) then multiset(nodes)[n] else 0)
  {
    if |nodes| > 0 {
      assert nodes == [nodes[0]] + nodes[1..];
      ActivesMultiset(nodes[1..]);
    }
  }

  /** Filtering a list is filtering its parts and joining them, so the order is kept. */
  lemma {:induction false} ActivesConcat(a: seq<Node>, b: seq<Node>)
    ensures Actives(a + b) == Actives(a) + Actives(b)
  {
    if |a| == 0 {
      assert a + b == b;
    } else {
      assert (a + b)[0] == a[0];
      assert (a + b)[1..] == a[1..] + b;
      ActivesConcat(a[1..], b);
    }
  }

  /** The number of blocks that do not ask for standby. */
  function ActiveSpecCount(servers: seq<ServerSpec>): nat {
    if |servers| == 0 then 0
    else (if servers[0].standby == Some(true) then 0 else 1) + ActiveSpecCount(servers[1..])
  }

  /** Resolution keeps the standby choice of every block, so the active nodes are the non-standby blocks. */
  lemma {:induction false} ActivesOfResolved(servers: seq<ServerSpec>, d: Defaults)
    requires AllHaveHost(servers)
    ensures |Actives(ResolveAll(servers, d))| == ActiveSpecCount(servers)
  {
    if |servers| > 0 {
      var nodes := ResolveAll(servers, d);
      assert nodes[1..] == ResolveAll(servers[1..], d);
      ActivesOfResolved(servers[1..], d);
    }
  }

  /**
   * The number of "too many num_threads" warnings: one when there are more
   * worker threads than non-standby nodes, none otherwise. Never an error.
   */
  function ThreadWarnings(numThreads: nat, nodes: seq<Node>): (w: nat)
    ensures w <= 1
    ensures w == 1 <==> numThreads > |Actives(nodes)|
  {
    if numThreads > |Actives(nodes)| then 1 else 0
  }
}

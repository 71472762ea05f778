# fluent-plugin-secure-forward: configuration resolution

This project models how the `secure_forward` output of Fluentd turns its
configuration into the settings it runs with, as the plugin's tests pin it
down:

- **Node resolution.** Each parsed `<server>` block becomes one node, in
  declared order. `hostlabel` falls back to `host`. `port` falls back to
  24284. `standby` is false unless the block sets it. `shared_key` comes
  from the top level unless the block overrides it. Every node carries the
  top-level `keepalive`. An `sni_hostname` is kept on the node.
- **`self_hostname` expansion.** `${hostname}` and `__HOSTNAME__` become the
  effective hostname, and the text around them is kept. The effective
  hostname is the configured `hostname` when there is one, else the system
  hostname.
- **Thread-count warning.** When `num_threads` exceeds the number of
  non-standby nodes, configuration still succeeds and exactly one warning
  is recorded.

Everything is pure: datatypes, functions over sequences and strings, and
lemmas. The system hostname is a parameter of `SecureForward.Configure`,
and the warning is a count in the resulting `Config`.

Modules:

- `Results` (results.dfy): `Option`, `Result` and the configuration errors.
- `Duration` (duration.dfy): duration strings such as `1m`.
- `Placeholder` (placeholder.dfy): hostname placeholder expansion.
- `NodeRegistry` (node_registry.dfy): server blocks to nodes, and the thread-count warning.
- `SecureForward` (secure_forward.dfy): the whole configuration step, and each
  configuration the tests use, with the values they expect. These scenario
  lemmas are worked examples of `Configure`'s contract; several of them need
  no proof steps of their own.

Only the plugin's test file is part of this model. The plugin itself
(`lib/fluent/plugin/out_secure_forward.rb` and its node class) is not part
of this model. Where the tests are silent, the model makes these choices:
- a missing top-level `keepalive` means 60 seconds;
- configuring fails when there is no server block;
- configuring fails when a server block has no host;
- the TLS peer name is `sni_hostname` when set and `host` otherwise;
- an unparsable top-level `keepalive` fails configuration.

The test (test/plugin/test_out_secure_forward.rb:214) only reads back an SNI
name that was given. The model keeps the node's `sniHostname` optional, as
given, and applies the fallback to `host` in `NodeRegistry.TlsServerName`.

## Model

| member | source | states |
|---|---|---|
| `NodeRegistry.ResolveNode` | test/plugin/test_out_secure_forward.rb:84-103 | host as given; hostlabel as given, else host; port as given, else 24284; shared key as given, else the top-level key; standby only when the block sets it; keepalive from the top level; SNI name as given |
| `NodeRegistry.ResolveAll` | test/plugin/test_out_secure_forward.rb:81-103 | one node per block, node i carrying block i's host; `ResolveAllAt` adds that node i is block i resolved with the defaults |
| `NodeRegistry.ResolveAllAt` | test/plugin/test_out_secure_forward.rb:81-82 | exactly one node per server block, and node i is resolved from block i, so the declared order is kept |
| `NodeRegistry.BuildNodes` | test/plugin/test_out_secure_forward.rb:66-79 | succeeds exactly when there is at least one block and every block has a host; an empty list fails with NoServers; otherwise the failure names a block without a host; on success the result is the per-block resolution |
| `NodeRegistry.FirstMissingHost` | test/plugin/test_out_secure_forward.rb:66-79 | finds no block exactly when every block has a host; otherwise the index found has no host and every earlier block has one |
| `NodeRegistry.TlsServerName` | test/plugin/test_out_secure_forward.rb:209-214 | the TLS peer name is the configured `sni_hostname` when there is one, the host otherwise |
| `NodeRegistry.Actives` | test/plugin/test_out_secure_forward.rb:114-123 | the non-standby nodes: each one is in the list and not standby, every non-standby node is included, and there are no more of them than nodes; `ActivesMultiset` and `ActivesConcat` give multiplicity and order |
| `NodeRegistry.ActivesMultiset` | test/plugin/test_out_secure_forward.rb:114-123 | every non-standby node is kept exactly as often as it occurs, and every standby node is dropped |
| `NodeRegistry.ActivesConcat` | test/plugin/test_out_secure_forward.rb:114-123 | filtering a joined list is joining the filtered parts, so the non-standby nodes keep their declared order |
| `NodeRegistry.ActivesOfResolved` | test/plugin/test_out_secure_forward.rb:114-123 | resolution keeps each block's standby choice, so the active nodes number as many as the blocks not marked standby |
| `NodeRegistry.ThreadWarnings` | test/plugin/test_out_secure_forward.rb:125-126 | at most one warning, and one exactly when `num_threads` exceeds the number of non-standby nodes |
| `Duration.ParseDuration` | test/plugin/test_out_secure_forward.rb:65 | a duration parses exactly when it is digits with an optional unit letter; plain digits are read as seconds |
| `Duration.UnitSeconds` | test/plugin/test_out_secure_forward.rb:65 | exactly `s`, `m`, `h` and `d` are units, each a positive number of seconds |
| `Duration.DecimalRoundTrip` | test/plugin/test_out_secure_forward.rb:65 | reading back the decimal spelling of any number gives that number |
| `Duration.ParseWithUnit` | test/plugin/test_out_secure_forward.rb:65 | any number followed by a unit letter parses to that number times the unit's seconds |
| `Duration.OneMinute` | test/plugin/test_out_secure_forward.rb:65 | `1m` is 60 seconds |
| `Placeholder.Expand` | test/plugin/test_out_secure_forward.rb:157-197 | the expansion is made only of characters of the setting and of the hostname; `ExpandVerbatim`, `ExpandToken`, `ExpandLiteral` and `ExpandSurrounded` prove what it does to text and placeholders |
| `Placeholder.ResolveSelfHostname` | test/plugin/test_out_secure_forward.rb:151-198 | a setting without placeholders is used as written; a setting that starts with a placeholder starts with the effective hostname |
| `Placeholder.ExpandVerbatim` | test/plugin/test_out_secure_forward.rb:64 | a `self_hostname` without placeholders is used as written |
| `Placeholder.ExpandToken` | test/plugin/test_out_secure_forward.rb:157-174 | a leading `${hostname}` or `__HOSTNAME__` becomes the hostname, and the rest is expanded on its own |
| `Placeholder.ExpandLiteral` | test/plugin/test_out_secure_forward.rb:179-185 | text inside which no placeholder starts, given what follows it, passes through unchanged in front of that text |
| `Placeholder.LiteralStartsNoToken` | test/plugin/test_out_secure_forward.rb:179 | no placeholder starts inside `Literal` text, whatever follows it |
| `Placeholder.ExpandLiteralPrefix` | test/plugin/test_out_secure_forward.rb:179-185 | `Literal` text passes through unchanged in front of any text |
| `Placeholder.PlainIsLiteral` | test/plugin/test_out_secure_forward.rb:179 | text without `$` or `_` cannot start a placeholder |
| `Placeholder.ExpandSurrounded` | test/plugin/test_out_secure_forward.rb:176-197 | text before and after one placeholder is kept, and the placeholder becomes the hostname, whenever no other placeholder starts in that text |
| `Placeholder.UnderscorePrefix` | test/plugin/test_out_secure_forward.rb:179-185 | a prefix ending in part of a marker is kept too: `my_${hostname}` becomes `my_` followed by the hostname |
| `Placeholder.EffectiveHostname` | test/plugin/test_out_secure_forward.rb:187-197 | a configured `hostname` wins over the system hostname; without one, the system hostname is used |
| `SecureForward.KeepaliveSeconds` | test/plugin/test_out_secure_forward.rb:65 | a top-level keepalive is accepted exactly when it is a valid duration and then stands for the seconds it parses to; an unset one means 60 seconds |
| `SecureForward.Configure` | test/plugin/test_out_secure_forward.rb:58-127 | succeeds exactly when the keepalive is valid and there are server blocks, each with a host; a bad keepalive, no blocks, or a block without a host (named by its index) give their own errors; on success: `num_threads` kept, self hostname expanded, one node per block resolved with the top-level defaults, one warning exactly when `num_threads` exceeds the non-standby blocks |
| `SecureForward.SingleServerScenario` | test/plugin/test_out_secure_forward.rb:38-56 | one block with only a host is accepted, gets port 24284, and causes no warning |
| `SecureForward.StandbyServerScenario` | test/plugin/test_out_secure_forward.rb:58-104 | the three standby-test blocks resolve to exactly the three expected nodes, each with 60 seconds of keepalive |
| `SecureForward.TooManyThreadsScenario` | test/plugin/test_out_secure_forward.rb:106-127 | three threads for two non-standby servers: accepted, `num_threads` stays 3, exactly one warning |
| `SecureForward.HostnameConfigured` | test/plugin/test_out_secure_forward.rb:151-198 | a one-server configuration is accepted, and its self hostname is the expansion with the effective hostname |
| `SecureForward.DollarPlaceholderScenario` | test/plugin/test_out_secure_forward.rb:154-163 | `${hostname}` becomes the system hostname, whatever it is |
| `SecureForward.HostnameMarkerScenario` | test/plugin/test_out_secure_forward.rb:165-174 | `__HOSTNAME__` becomes the system hostname, whatever it is |
| `SecureForward.PrefixedExpansion` | test/plugin/test_out_secure_forward.rb:179-185 | `test.${hostname}` becomes `test.` followed by the hostname |
| `SecureForward.SurroundedHostnameScenario` | test/plugin/test_out_secure_forward.rb:176-197 | `test.${hostname}` becomes `test.` followed by the effective hostname |
| `SecureForward.ExplicitHostnameScenario` | test/plugin/test_out_secure_forward.rb:187-197 | with a configured `hostname` such as `dummy.local`, `test.${hostname}` becomes `test.` followed by that name, whatever the system hostname |
| `SecureForward.SniHostnameScenario` | test/plugin/test_out_secure_forward.rb:200-215 | a block's `sni_hostname` is kept on its node and is the TLS peer name |

## Left out

- Failover selection, node health, the TLS channel, the shared-key handshake and the worker threads: the plugin file that implements them is not part of this model.
- TLS material checks: `secure` and `ca_cert_path` are carried into the configuration unchecked. The tests only assert that a secure configuration with a CA file raises nothing (test/plugin/test_out_secure_forward.rb:129-149).
- CA certificate generation (`get_ca_cert`): file writes and OpenSSL calls.
- The `<secondary>` block: it belongs to Fluentd's buffered output, not to this plugin's configuration step.
- Parsing of the configuration text: the model starts from parsed blocks. `num_threads` arrives already defaulted by Fluentd's buffered output.
- `Socket.gethostname`: the system hostname is a parameter.
- The warning's log line: the model counts warnings instead.
- Port range: ports are taken as given, with no range check.
- Duration.ParseDuration: reads whole numbers of `s`, `m`, `h` or `d` units, or whole seconds. It does not model Fluentd's fractional seconds or its unanchored pattern matching.
- Placeholder.Expand: replaces placeholders in one left-to-right pass. Replaced text, together with the text around it, is not rescanned: a hostname that contains placeholder text, or that forms a placeholder with its neighbours (`_${hostname}_HOSTNAME__` with hostname `_`), is not expanded again.
- Per-server keepalive: a `<server>` block has no keepalive setting, and every node takes the top-level value.

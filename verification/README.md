# TCP port forwarders: a Dafny model

Two small Node.js TCP proxies are modelled here.

- `port-forward.js` listens on `source_ip:port` and relays every accepted
  connection to `target_ip:port`.
- `simple-proxy.js` reads `proxy-config.json` and finds the target VM's IP
  address by running a discovery command and picking one word out of its
  output. It then relays a fixed source port to that address.

Both proxies keep the same state for each accepted connection:

- a `normal` flag;
- a 6-digit session id drawn from a random 32-bit number;
- an outbound `client` socket;
- an entry in the `connections` Map, added once the outbound connect completes.

`gracefulShutdown` ends the client of every registered connection and closes the server.

The model is split into these modules:

| file | module | what it holds |
|---|---|---|
| `wrappers.dfy` | `Wrappers` | `Option` |
| `text.dfy` | `Text` | the JavaScript string operations the proxies use: decimal text (both files, for ids), `lastIndexOf` (port-forward.js), and `split`, `trim`, `startsWith` and the space-word filter (simple-proxy.js); `join`, the inverse of `split`, is used only to state round trips |
| `session_ids.dfy` | `SessionIds` | the `(ZEROES + n % 10^k).slice(-k)` id formatter |
| `port_forward_args.dfy` | `PortForwardArgs` | `get_address` and the argument check of `main` |
| `simple_proxy_discovery.dfy` | `SimpleProxyDiscovery` | what the `Shell.exec` callback of `getVmIpAddress` resolves |
| `simple_proxy_config.dfy` | `SimpleProxyConfig` | the five property reads and the truthiness test of `main` |
| `relay.dfy` | `Relay` | one connection as a value: its sockets, the bytes each side received and was handed, and one `Step` per callback |
| `port_forward_relay.dfy` | `PortForwardRelay` | `forwardPort` as a class; the `connections` Map, `closed` and `stopping` are fields updated in place |
| `simple_proxy_relay.dfy` | `SimpleProxyRelay` | the same class for simple-proxy.js, with its different end handling and the ETIMEDOUT exit |
| `scenarios.dfy` | `Scenarios` | client methods that drive the two classes through short callback sequences and assert what their contracts give |

A socket is reduced to what the proxy does with it: the bytes passed to
`write()` and whether `end()` was called. A connection also records the
chunks each side delivered through `'data'`. This gives the central
invariant, `Session.Forwarding`:

- each side has been handed a prefix of what the other side delivered;
- while `normal` holds, it has been handed exactly that.

## Model

| member | source | states |
|---|---|---|
| Text.Decimal | port-forward.js:53 | the decimal text of a number is a non-empty digit string with no leading zero |
| Text.ValueOfDecimal | port-forward.js:53 | reading back the decimal text of `n` gives `n` |
| Text.DecimalLength | port-forward.js:53 | a number below 10^k has at most k decimal digits, so the zero padding always suffices |
| Text.ValueOfZeroPadded | port-forward.js:53 | leading zeroes do not change the value of a digit string |
| Text.LastIndexOf | port-forward.js:136 | the result is -1 exactly when the character is absent; otherwise it is a position of that character with none after it |
| Text.Split | simple-proxy.js:38 | `split` gives at least one piece, and no piece contains the separator |
| Text.JoinSplit | simple-proxy.js:38 | joining the pieces of a split with the separator restores the string |
| Text.SplitJoin | simple-proxy.js:38 | splitting a join of separator-free pieces gives the pieces back |
| Text.SplitConcat | simple-proxy.js:38 | splitting `a + sep + b` gives the pieces of `a` followed by the pieces of `b` |
| Text.FirstPiece | simple-proxy.js:41 | `split('\n')[0]` is a newline-free prefix that is either the whole text or followed by a newline |
| Text.Trim | simple-proxy.js:38 | `trim()` is no longer than its input and leaves no white space at either end |
| Text.TrimIndented | simple-proxy.js:38 | `trim()` of indentation followed by text with non-space ends is that text |
| Text.TrimStartSpec | simple-proxy.js:38 | `trimStart` removes exactly the leading run of JavaScript white space and line terminators |
| Text.TrimEndSpec | simple-proxy.js:38 | `trimEnd` removes exactly the trailing run of white space |
| Text.TrimSpec | simple-proxy.js:38 | `trim` leaves a contiguous slice of the input with white space only outside it and none at either end |
| Text.NonEmpty | simple-proxy.js:38 | `filter(v => v.length > 0)` keeps only non-empty elements, each taken from the input |
| Text.Words | simple-proxy.js:38 | every word of the space split is non-empty and space-free |
| Text.NonEmptyConcat | simple-proxy.js:38 | the filter distributes over concatenation |
| Text.WordsOfJoin | simple-proxy.js:38 | words joined by single spaces are recovered exactly |
| Text.FirstWord | simple-proxy.js:38 | word 0 of `word + " " + rest` is `word` |
| SessionIds.ZeroPadded | port-forward.js:53 | `(ZEROES + r).slice(-width)` of a remainder below 10^width is `width` digits whose value is `r` |
| SessionIds.FixedWidthId | port-forward.js:53 | the id has exactly `width` digits and its value is `n mod 10^width` |
| SessionIds.FixedWidthIdInjective | simple-proxy.js:75 | two numbers get the same id exactly when they agree modulo 10^width |
| SessionIds.SessionId | simple-proxy.js:75 | a session id is 6 digits whose value is `n mod 1000000` |
| SessionIds.InstanceId | port-forward.js:9 | the instance id is 4 digits whose value is `n mod 10000` |
| PortForwardArgs.GetAddress | port-forward.js:135-147 | an address is returned only with a host of 3+ characters followed by a colon, and the colon-free digit tail after it is the port |
| PortForwardArgs.GetAddressNeedsLateColon | port-forward.js:136-137 | without a colon at index 3 or later the result is null |
| PortForwardArgs.GetAddressSplit | port-forward.js:135-147 | for `h:t` with colon-free `t`, the result is an address exactly when `h` has 3+ characters and `t` is digits, and then it is `(h, value of t)` |
| PortForwardArgs.GetAddressRoundTrip | port-forward.js:135-147 | a 3+ character host and the decimal text of a port below 2^53 parse back to that host and port |
| PortForwardArgs.ParseCommandLine | port-forward.js:122-133 | forwarding starts exactly when there are two arguments and both parse, from the first address to the second |
| SimpleProxyDiscovery.KeyLineHasText | simple-proxy.js:38 | a key line trims to the key, a space and at least one more character: a line holding only the key is not one |
| SimpleProxyDiscovery.IndentedKeyLine | simple-proxy.js:38 | an indented line made of the key, a space and text ending in a non-space is a key line |
| SimpleProxyDiscovery.WordAt | simple-proxy.js:38 | `words[index]` is `undefined` exactly past the end, and otherwise that word |
| SimpleProxyDiscovery.FirstKeyLine | simple-proxy.js:38 | `filter(...)[0]` is the first line whose trimmed text starts with `key + ' '`; none exists exactly when no line qualifies |
| SimpleProxyDiscovery.OnExecResult | simple-proxy.js:33-43 | empty stdout resolves `[false, first line of stderr]`; non-empty stdout with no key line throws; `valid` implies non-empty stdout; a resolved word is non-empty and space-free |
| SimpleProxyDiscovery.FirstKeyLineConcat | simple-proxy.js:38 | lines after the first key line do not change which line is chosen |
| SimpleProxyDiscovery.LaterOutputIgnored | simple-proxy.js:37-39 | once stdout holds a key line, appending further output does not change the outcome |
| SimpleProxyDiscovery.ResolvedFromFirstKeyLine | simple-proxy.js:37-39 | output whose first key line is `line` resolves `[true, word index of trimmed line]` |
| SimpleProxyDiscovery.FirstKeyLineAt | simple-proxy.js:38 | a key line with no key line before it is the one selected |
| SimpleProxyDiscovery.KeyIsWordZero | simple-proxy.js:38 | for a one-word key, word 0 of the selected line is the key itself |
| SimpleProxyDiscovery.NoKeyLineInEmptyOutput | simple-proxy.js:38 | an empty text splits to one empty line, which is never a key line |
| SimpleProxyConfig.Truthy | simple-proxy.js:140 | the falsy JSON values are exactly `undefined`, `null`, `false`, `0` and `""` |
| SimpleProxyConfig.Get | simple-proxy.js:135-139 | a property read throws exactly on `undefined`/`null`, returns an object's own field when present, and is `undefined` otherwise |
| SimpleProxyConfig.ReadConfig | simple-proxy.js:135-139 | the reads throw exactly when `json` or `json.discovery` is `undefined`/`null`; otherwise each of the five settings is the value of its own property read |
| SimpleProxyConfig.CheckConfig | simple-proxy.js:135-140 | it throws exactly when the reads throw; the configuration is accepted, with exactly the settings read, if and only if all five are truthy, and rejected as invalid if and only if one is falsy |
| SimpleProxyConfig.CompleteConfigAccepted | simple-proxy.js:135-140 | a file holding the five settings, all truthy, is accepted with exactly those settings whatever else it holds |
| SimpleProxyConfig.FalsyFieldRejects | simple-proxy.js:140 | a zero index or port, an empty command or tag, or a missing index rejects the configuration |
| Relay.Accepted | port-forward.js:49-53 | a new connection has `normal` set, is not yet registered and keeps the forwarding invariant |
| Relay.EndClients | port-forward.js:26-29 | `end()` is called on the client of exactly the targeted connections and nothing else changes |
| Relay.EndClientsStep | port-forward.js:26-29 | ending one more client is the same as adding it to the target set |
| Relay.Step | port-forward.js:65-118 | no callback changes a connection's id |
| Relay.StepKeepsForwarding | port-forward.js:69-118 | every callback keeps the forwarding invariant |
| Relay.StepExtends | port-forward.js:69-118 | no callback undoes anything: `normal` never returns, ended stays ended, and written and received bytes only grow |
| Relay.StepEnds | port-forward.js:65-118 | the first end of one side ends the other, the idle timeout ends the inbound socket, and an error ends both and clears `normal` |
| Relay.FlattenConcat | port-forward.js:69-71 | the bytes of concatenated chunk lists are the concatenated bytes |
| Relay.RunForwardsInOrder | port-forward.js:69-71 | without an error, each side is handed exactly the bytes the other delivered, in order, after any callback sequence |
| Relay.StepForwardsInOrder | port-forward.js:69-71 | a callback other than an error keeps `normal` and hands the other side exactly the chunk it delivers, appended to what was handed before |
| Relay.RunAfterErrorForwardsNothing | port-forward.js:109-117 | after an error, no later callback forwards any byte |
| Relay.RunKeepsForwarding | port-forward.js:69-118 | any callback sequence keeps the forwarding invariant and undoes nothing |
| PortForwardRelay.Forwarder.constructor | port-forward.js:17-20 | a new forwarder has no connections, no registry entries, an open server and `stopping` false |
| PortForwardRelay.Forwarder.OnConnection | port-forward.js:49-53 | an accepted connection is appended with the 6-digit id of the random number; the registry is unchanged |
| PortForwardRelay.Forwarder.OnConnect | port-forward.js:54-55 | the connect callback registers the id for this connection, overwriting any entry with the same id |
| PortForwardRelay.Forwarder.OnInboundData | port-forward.js:69-71 | inbound data is written to the client exactly when `normal` holds |
| PortForwardRelay.Forwarder.OnOutboundData | port-forward.js:84-86 | outbound data is written to the socket exactly when `normal` holds |
| PortForwardRelay.Forwarder.OnInboundEnd | port-forward.js:72-83 | the first inbound end removes the id from the registry and ends the client; a later one does nothing |
| PortForwardRelay.Forwarder.OnOutboundEnd | port-forward.js:87-100 | the first outbound end removes the id from the registry and ends the socket; a later one does nothing |
| PortForwardRelay.Forwarder.OnInboundError | port-forward.js:102-112 | a socket error clears `normal` and ends both sides, leaving the registry alone |
| PortForwardRelay.Forwarder.OnOutboundError | port-forward.js:113-118 | a client error clears `normal` and ends both sides, leaving the registry alone |
| PortForwardRelay.Forwarder.OnIdleTimeout | port-forward.js:65-68 | the idle timeout ends only the inbound socket |
| PortForwardRelay.Forwarder.GracefulShutdown | port-forward.js:25-33 | the client of every registered connection is ended, nothing else changes, and the server is closed |
| PortForwardRelay.Forwarder.OnSignal | port-forward.js:34-47 | only the first signal is announced and sets `stopping`; every signal runs the shutdown |
| Scenarios.SameRemainderSameId | port-forward.js:53-55 | two connections whose random numbers agree modulo 10^6 share a session id, so the second registration overwrites the first |
| Scenarios.DifferentRemainderDifferentId | port-forward.js:53-55 | random numbers that differ modulo 10^6 give distinct session ids and so distinct registry entries |
| SimpleProxyRelay.OnOutboundErrorOutcome | simple-proxy.js:115-121 | the process exits with status 1 exactly when the message starts with `connect ETIMEDOUT` |
| SimpleProxyRelay.TimeoutIsFatal | simple-proxy.js:115-121 | a connect timeout to any address exits, while a refused connection keeps running |
| SimpleProxyRelay.Forwarder.constructor | simple-proxy.js:47-50 | a new forwarder has no connections, no registry entries and an open server |
| SimpleProxyRelay.Forwarder.OnConnection | simple-proxy.js:73-75 | an accepted connection is appended with the 6-digit id of the random number; the registry is unchanged |
| SimpleProxyRelay.Forwarder.OnConnect | simple-proxy.js:76-80 | the connect callback registers the id for this connection, overwriting any entry with the same id |
| SimpleProxyRelay.Forwarder.OnInboundData | simple-proxy.js:81-83 | inbound data is written to the client exactly when `normal` holds |
| SimpleProxyRelay.Forwarder.OnOutboundData | simple-proxy.js:88-90 | outbound data is written to the socket exactly when `normal` holds |
| SimpleProxyRelay.Forwarder.OnInboundEnd | simple-proxy.js:84-87 | the first inbound end ends the client and leaves the registry alone |
| SimpleProxyRelay.Forwarder.OnOutboundEnd | simple-proxy.js:91-97 | the first outbound end ends the socket and removes the id from the registry |
| SimpleProxyRelay.Forwarder.OnInboundError | simple-proxy.js:99-109 | a socket error clears `normal` and ends both sides, leaving the registry alone |
| SimpleProxyRelay.Forwarder.OnOutboundError | simple-proxy.js:110-122 | a client error clears `normal` and ends both sides; the outcome is the ETIMEDOUT exit policy |
| SimpleProxyRelay.Forwarder.GracefulShutdown | simple-proxy.js:55-71 | every SIGTERM/SIGINT ends the client of every registered connection, changes nothing else, and closes the server |

## Left out

- Socket I/O is not modelled: real sockets, `server.listen`, `server.close` and its callback, and `server.getConnections`. A socket is only the record of what the proxy wrote to it and whether it ended it.
- The model does not capture Node's behaviour when a socket is written after `end()`. A write is recorded as handed to the socket whether or not the socket has ended.
- Logging is not modelled (`consoleLog`, `moment` timestamps, `Intl.NumberFormat` byte counts). Nor is the text of the messages, except the `stopping` announcement, which is the `announced` result of `OnSignal`.
- `Crypto.randomBytes` is not modelled. The random 32-bit number is a parameter.
- Timer timing is not modelled: the 30-minute `IDLE_TIMEOUT` of port-forward.js has no counterpart, and its expiry is the `IdleTimeout` callback.
- Signal delivery is not modelled. Both SIGTERM and SIGINT are one `OnSignal` or `GracefulShutdown` call. Node runs callbacks one at a time, so there is no concurrency to model.
- `process.exit(1)` is not modelled as a process end. It is the `Exit(1)` outcome of `OnOutboundError`.
- `portReady` (simple-proxy.js:18-29) is not modelled: it opens a real connection.
- Running the discovery command through `Shell.exec` is not modelled. Its `(error, stdout, stderr)` are the inputs to `OnExecResult`, and `error` is only logged.
- SimpleProxyDiscovery.OnExecResult: the model takes `key` as a string and `index` as a natural number. `main` passes the raw JSON `tag` and `index`, checked only for truthiness. In JavaScript, `key + ' '` turns any value into text, `[index]` is `undefined` for a negative or fractional number, and a numeric string such as `"1"` selects a word.
- Reading `proxy-config.json` is not modelled: `existsSync`, file reading and `JSON.parse`. The parsed value is the input to `CheckConfig`.
- The start-up sequence of simple-proxy.js `main` after the configuration check is not modelled as one operation (lines 141-155). That sequence is port probe, then discovery, then target probe, then forwarding. Each of its steps is modelled separately except the probes.
- PortForwardArgs.GetAddress: the model accepts only a non-empty run of decimal digits as the port text. JavaScript's `isNaN`/`parseInt` also accept some other texts, such as `""`, `" 80"`, `"0x50"`, `"8e1"` and `"80.5"`. They give ports like `NaN`, 80 or 8, and the model rejects all of them. The model does not check the port range either. It also reads a digit text exactly, while `parseInt` returns a double: a port text above 2^53 is rounded in JavaScript (`"9007199254740993"` gives 9007199254740992), so `GetAddressRoundTrip` is stated only for ports below 2^53.
- Strings are sequences of Unicode characters, not UTF-16 code units. The discovery output and the arguments are assumed to contain no surrogate pairs.
- A connection is named by its index in `sessions`, and the registry maps ids to those indices. Socket objects and their aliasing are not modelled beyond that.
- `GracefulShutdown` (both classes): the source visits the Map in insertion order; the model ends the clients in an arbitrary order, and the result is the same in every order. The loop does not modify the Map: `end()` does not run any `'end'` handler synchronously.
- Registry removal on errors: the error handlers in both files end both sockets but do not delete the registry entry. The entry leaves only when an `'end'` handler runs. The model follows the code here.
- Access checks on the remote address and a set of ports that trigger a restart are not modelled. Neither occurs in these two files.

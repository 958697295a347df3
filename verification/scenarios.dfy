/**
 * Clients of the two forwarders: short callback sequences and what the
 * specifications of the callbacks alone let a caller conclude about them.
 */
module Scenarios {
  import opened Relay
  import opened SessionIds
  import PortForwardArgs
  import PortForwardRelay
  import SimpleProxyRelay

  /** "PING" and "PONG" as bytes. */
  const Ping: Chunk := [0x50, 0x49, 0x4E, 0x47]
  const Pong: Chunk := [0x50, 0x4F, 0x4E, 0x47]

  /**
   * A client sends PING, the backend answers PONG, the client closes: each
   * side was handed exactly the other's bytes, the id left the registry and
   * the backend side was ended.
   */
  method PingPong(n: Uint32) {
    var f := new PortForwardRelay.Forwarder(PortForwardArgs.Address("0.0.0.0", 9000),
                                             PortForwardArgs.Address("10.0.0.5", 9100));
    var i := f.OnConnection(n);
    assert f.connections == map[];
    f.OnConnect(i);
    assert SessionId(n) in f.connections;
    f.OnInboundData(i, Ping);
    f.OnOutboundData(i, Pong);
    assert f.sessions[i].outbound.written == Ping;
    assert f.sessions[i].inbound.written == Pong;
    f.OnInboundEnd(i);
    assert f.connections == map[];
    assert f.sessions[i].outbound.ended;
  }

  /** Closing one of two sessions leaves the other's registry entry and bytes alone. */
  method TwoSessions(a: Uint32, b: Uint32)
    requires a % 1000000 != b % 1000000
  {
    var f := new SimpleProxyRelay.Forwarder(9000, "10.0.0.5", 9100);
    var s1 := f.OnConnection(a);
    var s2 := f.OnConnection(b);
    DifferentRemainderDifferentId(a, b);
    f.OnConnect(s1);
    f.OnConnect(s2);
    f.OnInboundData(s2, Ping);
    assert f.sessions[s1].id == SessionId(a) && !f.sessions[s1].outboundEndSeen;
    assert f.sessions[s2].outbound.written == Ping;
    f.OnOutboundEnd(s1);
    assert SessionId(a) !in f.connections;
    assert SessionId(b) in f.connections && f.connections[SessionId(b)] == s2;
    assert f.sessions[s2].outbound.written == Ping && !f.sessions[s2].inbound.ended;
  }

  /**
   * Two connections that drew the same random number share an id: the
   * second registration overwrites the first, and the end of the first
   * connection removes the entry although the second is still open.
   */
  method SharedSessionId(a: Uint32, b: Uint32)
    requires a % 1000000 == b % 1000000
  {
    var f := new PortForwardRelay.Forwarder(PortForwardArgs.Address("0.0.0.0", 9000),
                                             PortForwardArgs.Address("10.0.0.5", 9100));
    var s1 := f.OnConnection(a);
    var s2 := f.OnConnection(b);
    SameRemainderSameId(a, b);
    f.OnConnect(s1);
    f.OnConnect(s2);
    assert f.connections[SessionId(a)] == s2;
    f.OnInboundEnd(s1);
    assert SessionId(a) !in f.connections;
    assert !f.sessions[s2].inbound.ended && !f.sessions[s2].outbound.ended;
  }

  lemma SameRemainderSameId(a: Uint32, b: Uint32)
    requires a % 1000000 == b % 1000000
    ensures SessionId(a) == SessionId(b)
  {
    assert Text.Pow10(6) == 1000000;
    FixedWidthIdInjective(a, b, 6);
  }

  lemma DifferentRemainderDifferentId(a: Uint32, b: Uint32)
    requires a % 1000000 != b % 1000000
    ensures SessionId(a) != SessionId(b)
  {
    assert Text.Pow10(6) == 1000000;
    FixedWidthIdInjective(a, b, 6);
  }

  /** After an error, data on either side is no longer forwarded. */
  method ErrorStopsForwarding(n: Uint32) {
    var f := new PortForwardRelay.Forwarder(PortForwardArgs.Address("0.0.0.0", 9000),
                                             PortForwardArgs.Address("10.0.0.5", 9100));
    var i := f.OnConnection(n);
    f.OnConnect(i);
    assert SessionId(n) in f.connections && f.sessions[i].normal;
    f.OnInboundData(i, Ping);
    assert f.sessions[i].outbound.written == Ping && f.sessions[i].inbound.written == [];
    f.OnInboundError(i);
    assert !f.sessions[i].normal;
    f.OnInboundData(i, Pong);
    f.OnOutboundData(i, Pong);
    assert f.sessions[i].outbound.written == Ping;
    assert f.sessions[i].inbound.written == [];
    assert SessionId(n) in f.connections;
  }

  /**
   * Two signals with two open sessions: only the first is announced, both
   * clients are ended by each run of the shutdown, and the server is closed.
   */
  method SignalTwice(a: Uint32, b: Uint32)
    requires a % 1000000 != b % 1000000
  {
    var f := new PortForwardRelay.Forwarder(PortForwardArgs.Address("0.0.0.0", 9000),
                                             PortForwardArgs.Address("10.0.0.5", 9100));
    var s1 := f.OnConnection(a);
    var s2 := f.OnConnection(b);
    DifferentRemainderDifferentId(a, b);
    f.OnConnect(s1);
    f.OnConnect(s2);
    assert f.connections[SessionId(a)] == s1 && f.connections[SessionId(b)] == s2;
    assert s1 in f.connections.Values && s2 in f.connections.Values;
    var first := f.OnSignal();
    assert first && f.closed;
    assert f.sessions[s1].outbound.ended && f.sessions[s2].outbound.ended;
    assert !f.sessions[s1].inbound.ended;
    var second := f.OnSignal();
    assert !second && f.stopping;
  }
}

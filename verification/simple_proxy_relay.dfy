/**
 * `forwardPort` of simple-proxy.js: the `connections` Map, the accepted
 * connections with their callbacks, the exit on an outbound connect
 * timeout, and `gracefulShutdown`, which both SIGTERM and SIGINT run.
 */
module SimpleProxyRelay {
  import opened Text
  import opened Relay
  import opened SessionIds

  /** What an outbound error leaves of the process. */
  datatype Outcome = Running | Exit(status: int)

  /**
   * The policy of the outbound error handler: a message that starts with
   * `connect ETIMEDOUT` stops the process with status 1 (for a process
   * manager to restart it); any other error ends only that connection.
   */
  function OnOutboundErrorOutcome(message: string): (r: Outcome)
    ensures r == Exit(1) <==> StartsWith(message, "connect ETIMEDOUT")
    ensures r == Running <==> !StartsWith(message, "connect ETIMEDOUT")
  {
    if StartsWith(message, "connect ETIMEDOUT") then Exit(1) else Running
  }

  /** A connect timeout to any address is fatal; a refused connection is not. */
  lemma TimeoutIsFatal(address: string)
    ensures OnOutboundErrorOutcome("connect ETIMEDOUT " + address) == Exit(1)
    ensures OnOutboundErrorOutcome("connect ECONNREFUSED " + address) == Running
  {
    var refused := "connect ECONNREFUSED " + address;
    assert refused[8] == 'E' && refused[9] == 'C';
    assert "connect ETIMEDOUT"[9] == 'T';
  }

  /**
   * The state one `forwardPort(sourcePort, ip, targetPort)` call keeps.
   * Each method is one callback; Node runs them one at a time.
   */
  class Forwarder {
    const sourcePort: nat
    const ip: string
    const targetPort: nat
    /** Every accepted connection, in order of acceptance; an index names one. */
    var sessions: seq<Session>
    /** The `connections` Map: session id to the connection whose `client` it holds. */
    var connections: map<string, nat>
    /** `server.close()` has been called. */
    var closed: bool

    /**
     * Every registry entry names a connection with that id whose outbound
     * connect has completed, and every connection keeps the forwarding
     * invariant.
     */
    ghost predicate Valid()
      reads this
    {
      && (forall k :: k in connections ==>
            connections[k] < |sessions| && sessions[connections[k]].id == k && sessions[connections[k]].connected)
      && (forall i :: 0 <= i < |sessions| ==> sessions[i].Forwarding())
    }

    constructor (sourcePort: nat, ip: string, targetPort: nat)
      ensures Valid()
      ensures this.sourcePort == sourcePort && this.ip == ip && this.targetPort == targetPort
      ensures sessions == [] && connections == map[] && !closed
    {
      this.sourcePort := sourcePort;
      this.ip := ip;
      this.targetPort := targetPort;
      sessions := [];
      connections := map[];
      closed := false;
    }

    /**
     * Runs one callback of connection `i`; the registry is left to the caller.
     * simple-proxy.js sets no idle timeout.
     */
    method Deliver(i: nat, e: Event)
      requires Valid() && i < |sessions| && !e.IdleTimeout?
      modifies this
      ensures Valid()
      ensures sessions == old(sessions)[i := Step(old(sessions)[i], e)]
      ensures connections == old(connections) && closed == old(closed)
    {
      StepKeepsForwarding(sessions[i], e);
      StepExtends(sessions[i], e);
      sessions := sessions[i := Step(sessions[i], e)];
    }

    /**
     * 'connection': a new connection with `normal` set and a 6-digit id from
     * the random `n`; its outbound connect is pending, so it is not registered.
     */
    method OnConnection(n: Uint32) returns (i: nat)
      requires Valid() && !closed
      modifies this
      ensures Valid()
      ensures i == |old(sessions)| && sessions == old(sessions) + [Accepted(SessionId(n))]
      ensures connections == old(connections) && closed == old(closed)
    {
      i := |sessions|;
      sessions := sessions + [Accepted(SessionId(n))];
    }

    /**
     * The `Net.createConnection` callback: the id is registered (overwriting
     * any entry another connection with the same id left there).
     */
    method OnConnect(i: nat)
      requires Valid() && i < |sessions|
      modifies this
      ensures Valid()
      ensures sessions == old(sessions)[i := Step(old(sessions)[i], Connect)]
      ensures connections == old(connections)[old(sessions)[i].id := i]
      ensures closed == old(closed)
    {
      Deliver(i, Connect);
      connections := connections[sessions[i].id := i];
    }

    /** `socket.on('data')`: written to `client` while `normal`. */
    method OnInboundData(i: nat, data: Chunk)
      requires Valid() && i < |sessions|
      modifies this
      ensures Valid()
      ensures sessions == old(sessions)[i := Step(old(sessions)[i], InboundData(data))]
      ensures connections == old(connections) && closed == old(closed)
    {
      Deliver(i, InboundData(data));
    }

    /** `client.on('data')`: written to `socket` while `normal`. */
    method OnOutboundData(i: nat, data: Chunk)
      requires Valid() && i < |sessions|
      modifies this
      ensures Valid()
      ensures sessions == old(sessions)[i := Step(old(sessions)[i], OutboundData(data))]
      ensures connections == old(connections) && closed == old(closed)
    {
      Deliver(i, OutboundData(data));
    }

    /** `socket.once('end')`: `client` is ended; the registry is not touched. */
    method OnInboundEnd(i: nat)
      requires Valid() && i < |sessions|
      modifies this
      ensures Valid()
      ensures sessions == old(sessions)[i := Step(old(sessions)[i], InboundEnd)]
      ensures connections == old(connections) && closed == old(closed)
    {
      Deliver(i, InboundEnd);
    }

    /** `client.once('end')`: `socket` is ended and the id leaves the registry. */
    method OnOutboundEnd(i: nat)
      requires Valid() && i < |sessions|
      modifies this
      ensures Valid()
      ensures sessions == old(sessions)[i := Step(old(sessions)[i], OutboundEnd)]
      ensures connections == if old(sessions)[i].outboundEndSeen then old(connections)
                             else old(connections) - {old(sessions)[i].id}
      ensures closed == old(closed)
    {
      var first := !sessions[i].outboundEndSeen;
      Deliver(i, OutboundEnd);
      if first {
        connections := connections - {sessions[i].id};
      }
    }

    /** `socket.on('error')`: `normal` cleared, both sides ended, registry untouched. */
    method OnInboundError(i: nat)
      requires Valid() && i < |sessions|
      modifies this
      ensures Valid()
      ensures sessions == old(sessions)[i := Step(old(sessions)[i], InboundError)]
      ensures connections == old(connections) && closed == old(closed)
    {
      Deliver(i, InboundError);
    }

    /**
     * `client.on('error')`: `normal` cleared, both sides ended, registry
     * untouched; then a connect timeout ends the process with status 1.
     */
    method OnOutboundError(i: nat, message: string) returns (outcome: Outcome)
      requires Valid() && i < |sessions|
      modifies this
      ensures Valid()
      ensures sessions == old(sessions)[i := Step(old(sessions)[i], OutboundError)]
      ensures connections == old(connections) && closed == old(closed)
      ensures outcome == OnOutboundErrorOutcome(message)
    {
      Deliver(i, OutboundError);
      outcome := OnOutboundErrorOutcome(message);
    }

    /**
     * `gracefulShutdown`, run on every SIGTERM and SIGINT: `end()` on the
     * client of every registered connection, then `server.close()`.
     */
    method GracefulShutdown()
      requires Valid()
      modifies this
      ensures Valid()
      ensures connections == old(connections) && closed
      ensures sessions == EndClients(old(sessions), connections.Values)
    {
      var keys := connections.Keys;
      ghost var done: set<nat> := {};
      ghost var before := sessions;
      while keys != {}
        invariant keys <= connections.Keys && done <= connections.Values
        invariant connections == old(connections) && closed == old(closed)
        invariant forall k :: k in connections && k !in keys ==> connections[k] in done
        invariant sessions == EndClients(before, done)
        decreases keys
      {
        var k :| k in keys;
        var i := connections[k];
        assert i in connections.Values;
        EndClientsStep(before, done, i);
        sessions := sessions[i := EndOutbound(sessions[i])];
        done := done + {i};
        keys := keys - {k};
      }
      assert done == connections.Values;
      closed := true;
      forall i | 0 <= i < |sessions|
        ensures sessions[i].Forwarding() && sessions[i].id == before[i].id
        ensures sessions[i].connected == before[i].connected
      {
        assert before[i].Forwarding();
      }
    }
  }
}

/**
 * `forwardPort` of port-forward.js: the `connections` Map, the accepted
 * connections with their callbacks, the idle timeout, `gracefulShutdown`
 * and the SIGTERM/SIGINT handlers with their `stopping` flag.
 */
module PortForwardRelay {
  import opened Relay
  import opened SessionIds
  import PortForwardArgs

  /**
   * The state one `forwardPort(sourceIp, sourcePort, targetIp, targetPort)`
   * call keeps. Each method is one callback; Node runs them one at a time.
   */
  class Forwarder {
    const source: PortForwardArgs.Address
    const target: PortForwardArgs.Address
    /** Every accepted connection, in order of acceptance; an index names one. */
    var sessions: seq<Session>
    /** The `connections` Map: session id to the connection whose `client` it holds. */
    var connections: map<string, nat>
    /** `server.close()` has been called. */
    var closed: bool
    /** The module-level `stopping` flag (port-forward.js calls `forwardPort` once). */
    var stopping: bool

    /**
     * Every registry entry names a connection with that id whose outbound
     * connect has completed, and every connection keeps the forwarding
     * invariant.
     */
    ghost predicate Valid()
      reads this
    {
      && (forall k :: k in connections ==>
            connections[k] < |sessions| && sessions[connections[k]].id == k && sessions[connections[k]].connected)
      && (forall i :: 0 <= i < |sessions| ==> sessions[i].Forwarding())
    }

    constructor (source: PortForwardArgs.Address, target: PortForwardArgs.Address)
      ensures Valid()
      ensures this.source == source && this.target == target
      ensures sessions == [] && connections == map[] && !closed && !stopping
    {
      this.source := source;
      this.target := target;
      sessions := [];
      connections := map[];
      closed := false;
      stopping := false;
    }

    /** Runs one callback of connection `i`; the registry is left to the caller. */
    method Deliver(i: nat, e: Event)
      requires Valid() && i < |sessions|
      modifies this
      ensures Valid()
      ensures sessions == old(sessions)[i := Step(old(sessions)[i], e)]
      ensures connections == old(connections) && closed == old(closed) && stopping == old(stopping)
    {
      StepKeepsForwarding(sessions[i], e);
      StepExtends(sessions[i], e);
      sessions := sessions[i := Step(sessions[i], e)];
    }

    /**
     * 'connection': a new connection with `normal` set and a 6-digit id from
     * the random `n`; its outbound connect is pending, so it is not registered.
     */
    method OnConnection(n: Uint32) returns (i: nat)
      requires Valid() && !closed
      modifies this
      ensures Valid()
      ensures i == |old(sessions)| && sessions == old(sessions) + [Accepted(SessionId(n))]
      ensures connections == old(connections) && closed == old(closed) && stopping == old(stopping)
    {
      i := |sessions|;
      sessions := sessions + [Accepted(SessionId(n))];
    }

    /**
     * The `Net.connect` callback: the id is registered (overwriting any entry
     * another connection with the same id left there).
     */
    method OnConnect(i: nat)
      requires Valid() && i < |sessions|
      modifies this
      ensures Valid()
      ensures sessions == old(sessions)[i := Step(old(sessions)[i], Connect)]
      ensures connections == old(connections)[old(sessions)[i].id := i]
      ensures closed == old(closed) && stopping == old(stopping)
    {
      Deliver(i, Connect);
      connections := connections[sessions[i].id := i];
    }

    /** `socket.on('data')`: written to `client` while `normal`. */
    method OnInboundData(i: nat, data: Chunk)
      requires Valid() && i < |sessions|
      modifies this
      ensures Valid()
      ensures sessions == old(sessions)[i := Step(old(sessions)[i], InboundData(data))]
      ensures connections == old(connections) && closed == old(closed) && stopping == old(stopping)
    {
      Deliver(i, InboundData(data));
    }

    /** `client.on('data')`: written to `socket` while `normal`. */
    method OnOutboundData(i: nat, data: Chunk)
      requires Valid() && i < |sessions|
      modifies this
      ensures Valid()
      ensures sessions == old(sessions)[i := Step(old(sessions)[i], OutboundData(data))]
      ensures connections == old(connections) && closed == old(closed) && stopping == old(stopping)
    {
      Deliver(i, OutboundData(data));
    }

    /** `socket.once('end')`: the id leaves the registry and `client` is ended. */
    method OnInboundEnd(i: nat)
      requires Valid() && i < |sessions|
      modifies this
      ensures Valid()
      ensures sessions == old(sessions)[i := Step(old(sessions)[i], InboundEnd)]
      ensures connections == if old(sessions)[i].inboundEndSeen then old(connections)
                             else old(connections) - {old(sessions)[i].id}
      ensures closed == old(closed) && stopping == old(stopping)
    {
      if !sessions[i].inboundEndSeen {
        connections := connections - {sessions[i].id};
      }
      Deliver(i, InboundEnd);
    }

    /** `client.once('end')`: the id leaves the registry and `socket` is ended. */
    method OnOutboundEnd(i: nat)
      requires Valid() && i < |sessions|
      modifies this
      ensures Valid()
      ensures sessions == old(sessions)[i := Step(old(sessions)[i], OutboundEnd)]
      ensures connections == if old(sessions)[i].outboundEndSeen then old(connections)
                             else old(connections) - {old(sessions)[i].id}
      ensures closed == old(closed) && stopping == old(stopping)
    {
      if !sessions[i].outboundEndSeen {
        connections := connections - {sessions[i].id};
      }
      Deliver(i, OutboundEnd);
    }

    /** `socket.on('error')`: `normal` cleared, both sides ended, registry untouched. */
    method OnInboundError(i: nat)
      requires Valid() && i < |sessions|
      modifies this
      ensures Valid()
      ensures sessions == old(sessions)[i := Step(old(sessions)[i], InboundError)]
      ensures connections == old(connections) && closed == old(closed) && stopping == old(stopping)
    {
      Deliver(i, InboundError);
    }

    /** `client.on('error')`: `normal` cleared, both sides ended, registry untouched. */
    method OnOutboundError(i: nat)
      requires Valid() && i < |sessions|
      modifies this
      ensures Valid()
      ensures sessions == old(sessions)[i := Step(old(sessions)[i], OutboundError)]
      ensures connections == old(connections) && closed == old(closed) && stopping == old(stopping)
    {
      Deliver(i, OutboundError);
    }

    /** The `client.setTimeout` callback: only the inbound `socket` is ended. */
    method OnIdleTimeout(i: nat)
      requires Valid() && i < |sessions|
      modifies this
      ensures Valid()
      ensures sessions == old(sessions)[i := Step(old(sessions)[i], IdleTimeout)]
      ensures connections == old(connections) && closed == old(closed) && stopping == old(stopping)
    {
      Deliver(i, IdleTimeout);
    }

    /**
     * `gracefulShutdown`: `end()` on the client of every registered
     * connection, nothing else touched, then `server.close()`.
     */
    method GracefulShutdown()
      requires Valid()
      modifies this
      ensures Valid()
      ensures connections == old(connections) && closed && stopping == old(stopping)
      ensures sessions == EndClients(old(sessions), connections.Values)
    {
      var keys := connections.Keys;
      ghost var done: set<nat> := {};
      ghost var before := sessions;
      while keys != {}
        invariant keys <= connections.Keys && done <= connections.Values
        invariant connections == old(connections) && closed == old(closed) && stopping == old(stopping)
        invariant forall k :: k in connections && k !in keys ==> connections[k] in done
        invariant sessions == EndClients(before, done)
        decreases keys
      {
        var k :| k in keys;
        var i := connections[k];
        assert i in connections.Values;
        EndClientsStep(before, done, i);
        sessions := sessions[i := EndOutbound(sessions[i])];
        done := done + {i};
        keys := keys - {k};
      }
      assert done == connections.Values;
      closed := true;
      forall i | 0 <= i < |sessions|
        ensures sessions[i].Forwarding() && sessions[i].id == before[i].id
        ensures sessions[i].connected == before[i].connected
      {
        assert before[i].Forwarding();
      }
    }

    /**
     * The SIGTERM and SIGINT handlers: only the first signal sets `stopping`
     * and is announced in the log; every signal runs `gracefulShutdown`.
     */
    method OnSignal() returns (announced: bool)
      requires Valid()
      modifies this
      ensures Valid()
      ensures announced == !old(stopping) && stopping
      ensures connections == old(connections) && closed
      ensures sessions == EndClients(old(sessions), connections.Values)
    {
      announced := !stopping;
      if !stopping {
        stopping := true;
      }
      GracefulShutdown();
    }
  }
}

/**
 * What one accepted connection of either proxy holds, and how each socket
 * callback changes it. In both files `server.on('connection', ...)`
 * creates, per inbound `socket`, a `normal` flag, a session id and an
 * outbound `client`, and registers callbacks that Node runs one at a time.
 * A socket is reduced to what the proxy does with it: the bytes it hands
 * to `write()` and whether it called `end()`.
 */
module Relay {

  newtype Byte = x: int | 0 <= x < 0x100

  type Chunk = seq<Byte>

  /** A socket as the proxy drives it. */
  datatype Conn = Conn(ended: bool, written: seq<Byte>)

  const Fresh: Conn := Conn(false, [])

  /** The bytes of a sequence of chunks, in order. */
  function Flatten(chunks: seq<Chunk>): seq<Byte> {
    if chunks == [] then [] else Flatten(chunks[..|chunks| - 1]) + chunks[|chunks| - 1]
  }

  lemma {:induction false} FlattenConcat(xs: seq<Chunk>, ys: seq<Chunk>)
    ensures Flatten(xs + ys) == Flatten(xs) + Flatten(ys)
  {
    if ys != [] {
      assert (xs + ys)[..|xs + ys| - 1] == xs + ys[..|ys| - 1];
      FlattenConcat(xs, ys[..|ys| - 1]);
    } else {
      assert xs + ys == xs;
    }
  }

  /**
   * The state of one accepted connection: its id, the `normal` flag, whether
   * the outbound connect completed, the inbound `socket` and outbound
   * `client`, the chunks each of them delivered through 'data', and whether
   * each `once('end')` handler has already run.
   */
  datatype Session = Session(
    id: string,
    normal: bool,
    connected: bool,
    inbound: Conn,
    outbound: Conn,
    inboundRx: seq<Chunk>,
    outboundRx: seq<Chunk>,
    inboundEndSeen: bool,
    outboundEndSeen: bool)
  {
    /**
     * Each side has been handed a prefix of what the other side delivered,
     * and all of it while `normal` still holds.
     */
    predicate Forwarding() {
      && outbound.written <= Flatten(inboundRx)
      && inbound.written <= Flatten(outboundRx)
      && (normal ==> outbound.written == Flatten(inboundRx) && inbound.written == Flatten(outboundRx))
    }
  }

  /** A connection just accepted: `normal` is true and the outbound connect is pending. */
  function Accepted(id: string): (s: Session)
    ensures s.Forwarding() && s.normal && !s.connected
  {
    Session(id, true, false, Fresh, Fresh, [], [], false, false)
  }

  /** The callbacks Node delivers to one connection. */
  datatype Event =
    | Connect                 // outbound connect completed
    | InboundData(data: Chunk)
    | OutboundData(data: Chunk)
    | InboundEnd
    | OutboundEnd
    | InboundError
    | OutboundError
    | IdleTimeout             // port-forward.js only

  /** `client.end()`. */
  function EndOutbound(s: Session): Session {
    s.(outbound := s.outbound.(ended := true))
  }

  /** `socket.end()`. */
  function EndInbound(s: Session): Session {
    s.(inbound := s.inbound.(ended := true))
  }

  /** `client.end()` on every connection whose index is in `targets`. */
  function EndClients(sessions: seq<Session>, targets: set<nat>): (r: seq<Session>)
    ensures |r| == |sessions|
    ensures forall i :: 0 <= i < |r| ==> r[i] == if i in targets then EndOutbound(sessions[i]) else sessions[i]
  {
    seq(|sessions|, i requires 0 <= i < |sessions| => if i in targets then EndOutbound(sessions[i]) else sessions[i])
  }

  /** Ending one more client extends the set of ended ones. */
  lemma EndClientsStep(sessions: seq<Session>, targets: set<nat>, i: nat)
    requires i < |sessions|
    ensures var r := EndClients(sessions, targets);
      r[i := EndOutbound(r[i])] == EndClients(sessions, targets + {i})
  {
  }

  /** What one callback does to the connection. */
  function Step(s: Session, e: Event): (r: Session)
    ensures r.id == s.id
  {
    match e
    case Connect => s.(connected := true)
    case InboundData(data) =>
      var s' := s.(inboundRx := s.inboundRx + [data]);
      if s.normal then s'.(outbound := s.outbound.(written := s.outbound.written + data)) else s'
    case OutboundData(data) =>
      var s' := s.(outboundRx := s.outboundRx + [data]);
      if s.normal then s'.(inbound := s.inbound.(written := s.inbound.written + data)) else s'
    case InboundEnd =>
      if s.inboundEndSeen then s else EndOutbound(s).(inboundEndSeen := true)
    case OutboundEnd =>
      if s.outboundEndSeen then s else EndInbound(s).(outboundEndSeen := true)
    case InboundError => EndInbound(EndOutbound(s)).(normal := false)
    case OutboundError => EndInbound(EndOutbound(s)).(normal := false)
    case IdleTimeout => EndInbound(s)
  }

  /** Every callback keeps the forwarding invariant. */
  lemma StepKeepsForwarding(s: Session, e: Event)
    requires s.Forwarding()
    ensures Step(s, e).Forwarding()
  {
    match e
    case InboundData(data) =>
      assert (s.inboundRx + [data])[..|s.inboundRx|] == s.inboundRx;
    case OutboundData(data) =>
      assert (s.outboundRx + [data])[..|s.outboundRx|] == s.outboundRx;
    case _ =>
  }

  /**
   * Nothing a callback does is ever undone: `normal` once false stays false,
   * an ended socket stays ended, what was written and received stays a
   * prefix, and the connect and end-handler flags only go from false to true.
   */
  predicate Extends(s: Session, r: Session) {
    && r.id == s.id
    && (!s.normal ==> !r.normal)
    && (s.connected ==> r.connected)
    && (s.inbound.ended ==> r.inbound.ended) && (s.outbound.ended ==> r.outbound.ended)
    && s.inbound.written <= r.inbound.written && s.outbound.written <= r.outbound.written
    && s.inboundRx <= r.inboundRx && s.outboundRx <= r.outboundRx
    && (s.inboundEndSeen ==> r.inboundEndSeen) && (s.outboundEndSeen ==> r.outboundEndSeen)
  }

  lemma StepExtends(s: Session, e: Event)
    ensures Extends(s, Step(s, e))
  {
    match e
    case InboundData(data) =>
      assert s.inboundRx <= s.inboundRx + [data];
      assert s.outbound.written <= s.outbound.written + data;
    case OutboundData(data) =>
      assert s.outboundRx <= s.outboundRx + [data];
      assert s.inbound.written <= s.inbound.written + data;
    case _ =>
  }

  /**
   * The first end of either side ends the other (a repeated one is ignored);
   * the idle timeout ends the inbound side; an error ends both and clears `normal`.
   */
  lemma StepEnds(s: Session, e: Event)
    ensures e == InboundEnd && !s.inboundEndSeen ==> Step(s, e).outbound.ended
    ensures e == OutboundEnd && !s.outboundEndSeen ==> Step(s, e).inbound.ended
    ensures e == IdleTimeout ==> Step(s, e).inbound.ended
    ensures e.InboundError? || e.OutboundError? ==>
      var r := Step(s, e); !r.normal && r.inbound.ended && r.outbound.ended
  {
  }

  /** The connection after a sequence of callbacks, in delivery order. */
  function Run(s: Session, events: seq<Event>): Session {
    if events == [] then s else Step(Run(s, events[..|events| - 1]), events[|events| - 1])
  }

  /** The chunks an event sequence delivers on the inbound socket, in order. */
  function InboundChunks(events: seq<Event>): seq<Chunk> {
    if events == [] then []
    else
      var e := events[|events| - 1];
      InboundChunks(events[..|events| - 1]) + if e.InboundData? then [e.data] else []
  }

  /** The chunks an event sequence delivers on the outbound client, in order. */
  function OutboundChunks(events: seq<Event>): seq<Chunk> {
    if events == [] then []
    else
      var e := events[|events| - 1];
      OutboundChunks(events[..|events| - 1]) + if e.OutboundData? then [e.data] else []
  }

  predicate NoError(events: seq<Event>) {
    forall i :: 0 <= i < |events| ==> !events[i].InboundError? && !events[i].OutboundError?
  }

  /**
   * Without an error, each side has been handed exactly the bytes the other
   * side delivered, unmodified and in arrival order, whatever else happened.
   */
  lemma {:induction false} RunForwardsInOrder(id: string, events: seq<Event>)
    requires NoError(events)
    ensures var r := Run(Accepted(id), events);
      && r.normal
      && r.outbound.written == Flatten(InboundChunks(events))
      && r.inbound.written == Flatten(OutboundChunks(events))
  {
    if events != [] {
      var init := events[..|events| - 1];
      assert NoError(init) by {
        forall i | 0 <= i < |init| ensures !init[i].InboundError? && !init[i].OutboundError? {
          assert init[i] == events[i];
        }
      }
      RunForwardsInOrder(id, init);
      assert !events[|events| - 1].InboundError? && !events[|events| - 1].OutboundError?;
      StepForwardsInOrder(Run(Accepted(id), init), events[|events| - 1],
                          InboundChunks(init), OutboundChunks(init));
    }
  }

  /** One callback other than an error forwards exactly the chunk it delivers, if any. */
  lemma StepForwardsInOrder(s: Session, e: Event, ins: seq<Chunk>, outs: seq<Chunk>)
    requires s.normal && s.outbound.written == Flatten(ins) && s.inbound.written == Flatten(outs)
    requires !e.InboundError? && !e.OutboundError?
    ensures var r := Step(s, e);
      && r.normal
      && r.outbound.written == Flatten(ins + if e.InboundData? then [e.data] else [])
      && r.inbound.written == Flatten(outs + if e.OutboundData? then [e.data] else [])
  {
    var inTail: seq<Chunk> := if e.InboundData? then [e.data] else [];
    var outTail: seq<Chunk> := if e.OutboundData? then [e.data] else [];
    FlattenConcat(ins, inTail);
    FlattenConcat(outs, outTail);
    assert Flatten([]) == [];
    if e.InboundData? || e.OutboundData? {
      assert Flatten([e.data]) == e.data by {
        assert [e.data][..0] == [];
      }
    }
  }

  /** Once `normal` is false, no later callback forwards anything. */
  lemma {:induction false} RunAfterErrorForwardsNothing(s: Session, events: seq<Event>)
    requires !s.normal
    ensures var r := Run(s, events);
      && !r.normal
      && r.outbound.written == s.outbound.written
      && r.inbound.written == s.inbound.written
  {
    if events != [] {
      RunAfterErrorForwardsNothing(s, events[..|events| - 1]);
    }
  }

  /** A run keeps the forwarding invariant and never undoes anything. */
  lemma {:induction false} RunKeepsForwarding(s: Session, events: seq<Event>)
    requires s.Forwarding()
    ensures Run(s, events).Forwarding() && Extends(s, Run(s, events))
  {
    if events != [] {
      var init := events[..|events| - 1];
      RunKeepsForwarding(s, init);
      StepKeepsForwarding(Run(s, init), events[|events| - 1]);
      StepExtends(Run(s, init), events[|events| - 1]);
    }
  }
}

/** A run that ends quiet with two keys of one origin at a reader. */
module TwoKeys {
  import opened CText
  import opened EventCodec
  import opened ResRedis
  import opened Cluster
  import opened Convergence

  /** Two subscribed nodes with nothing to do. */
  predicate Idle(w: World) {
    && |w| == 2
    && w[0].subscribed && w[0].queue == [] && w[0].inbox == []
    && w[1].subscribed && w[1].queue == [] && w[1].inbox == []
  }

  /** One more step of a run. */
  lemma Then(net: Net, ws: seq<World>, steps: seq<Step>, s: Step, w: World)
    returns (ws': seq<World>, steps': seq<Step>)
    requires Execution(net, ws, steps) && Enabled(net, ws[|steps|], s) && Next(net, ws[|steps|], s) == w
    ensures Execution(net, ws', steps') && ws'[|steps'|] == w
  {
    Extended(net, ws, steps, s);
    ws', steps' := ws + [w], steps + [s];
  }

  lemma PostNext(net: Net, w: World, e: Event)
    requires Faithful(net) && Idle(w) && |net.eids| == 2 && net.sendable(0, e) && net.flag(e)
    ensures Enabled(net, w, Post(0, e))
    ensures Next(net, w, Post(0, e))
         == [w[0].(queue := [e], posted := w[0].posted + [e], cache := w[0].cache[net.key(e) := e]), w[1]]
  {
    NextQuietly(net, w, Post(0, e));
    assert [] + [e] == [e];
  }

  lemma DispatchNext(net: Net, w: World, e: Event, wire: Wire)
    requires |w| == 2 && w[0].subscribed && w[1].subscribed && w[0].queue == [e]
    requires w[0].inbox == [] && w[1].inbox == [] && net.publish(0, e) == Some(wire)
    ensures var p := Packet(wire, 0, e);
            && Enabled(net, w, Dispatch(0))
            && Next(net, w, Dispatch(0))
               == [w[0].(queue := [], sent := w[0].sent + [e], inbox := [p]), w[1].(inbox := [p])]
  {
    var p := Packet(wire, 0, e);
    OnePacket(net, 0, e);
    assert [e][1..] == [] && [] + [p] == [p];
    NextNode(net, w, Dispatch(0), 0);
    NextNode(net, w, Dispatch(0), 1);
  }

  lemma EchoNext(net: Net, w: World, e: Event, wire: Wire, junk: Eid)
    requires Faithful(net) && |net.eids| == 2 && |w| == 2 && net.sendable(0, e) && net.publish(0, e) == Some(wire)
    requires w[0].inbox == [Packet(wire, 0, e)]
    ensures Enabled(net, w, Deliver(0, 0, junk))
    ensures Next(net, w, Deliver(0, 0, junk)) == [w[0].(inbox := []), w[1]]
  {
    assert net.receive(0, junk, wire) == Echo;
    assert Without(w[0].inbox, 0) == [];
    NextQuietly(net, w, Deliver(0, 0, junk));
  }

  lemma AcceptNext(net: Net, w: World, e: Event, wire: Wire, junk: Eid)
    requires Faithful(net) && |net.eids| == 2 && |w| == 2 && net.sendable(0, e) && net.publish(0, e) == Some(wire)
    requires net.flag(e) && w[1].inbox == [Packet(wire, 0, e)] && w[1].queue == []
    ensures Enabled(net, w, Deliver(1, 0, junk))
    ensures Next(net, w, Deliver(1, 0, junk))
         == [w[0], w[1].(inbox := [], queue := [e], accepted := w[1].accepted + [e],
                         cache := w[1].cache[net.key(e) := e])]
  {
    assert net.receive(1, junk, wire) == Accepted(e, true);
    assert Without(w[1].inbox, 0) == [] && [] + [e] == [e];
    NextQuietly(net, w, Deliver(1, 0, junk));
  }

  lemma ForeignNext(net: Net, w: World, e: Event)
    requires Faithful(net) && |net.eids| == 2 && |w| == 2 && net.sendable(0, e) && w[1].queue == [e]
    ensures Enabled(net, w, Dispatch(1))
    ensures Next(net, w, Dispatch(1)) == [w[0], w[1].(queue := [])]
  {
    assert net.publish(1, e).None? && [e][..0] == [] && [e][1..] == [];
    assert Packets(net, 1, [e]) == [];
    NextQuietly(net, w, Dispatch(1));
  }

  /** Node 0 posts an event, and everything it leads to happens. */
  lemma Told(net: Net, ws: seq<World>, steps: seq<Step>, e: Event, junk: Eid)
    returns (ws': seq<World>, steps': seq<Step>)
    requires Faithful(net) && |net.eids| == 2 && net.sendable(0, e) && net.flag(e) && net.publish(0, e).Some?
    requires Execution(net, ws, steps) && Idle(ws[|steps|])
    ensures Execution(net, ws', steps') && Idle(ws'[|steps'|])
    ensures ws'[|steps'|][0].cache == ws[|steps|][0].cache[net.key(e) := e]
    ensures ws'[|steps'|][1].cache == ws[|steps|][1].cache[net.key(e) := e]
  {
    ws', steps' := Sent(net, ws, steps, e);
    ws', steps' := Heard(net, ws', steps', e, net.publish(0, e).value, junk);
  }

  lemma Sent(net: Net, ws: seq<World>, steps: seq<Step>, e: Event) returns (ws': seq<World>, steps': seq<Step>)
    requires Faithful(net) && |net.eids| == 2 && net.sendable(0, e) && net.flag(e) && net.publish(0, e).Some?
    requires Execution(net, ws, steps) && Idle(ws[|steps|])
    ensures Execution(net, ws', steps')
    ensures var p := Packet(net.publish(0, e).value, 0, e);
            var w, v := ws[|steps|], ws'[|steps'|];
            && |v| == 2
            && v[0] == w[0].(posted := w[0].posted + [e], cache := w[0].cache[net.key(e) := e],
                             sent := w[0].sent + [e], inbox := [p])
            && v[1] == w[1].(inbox := [p])
  {
    var w := ws[|steps|];
    PostNext(net, w, e);
    ws', steps' := Then(net, ws, steps, Post(0, e), Next(net, w, Post(0, e)));
    DispatchNext(net, ws'[|steps'|], e, net.publish(0, e).value);
    ws', steps' := Then(net, ws', steps', Dispatch(0), Next(net, ws'[|steps'|], Dispatch(0)));
  }

  lemma Heard(net: Net, ws: seq<World>, steps: seq<Step>, e: Event, wire: Wire, junk: Eid)
    returns (ws': seq<World>, steps': seq<Step>)
    requires Faithful(net) && |net.eids| == 2 && net.sendable(0, e) && net.flag(e) && net.publish(0, e) == Some(wire)
    requires Execution(net, ws, steps) && |ws[|steps|]| == 2
    requires var w := ws[|steps|];
             && w[0].subscribed && w[0].queue == [] && w[0].inbox == [Packet(wire, 0, e)]
             && w[1].subscribed && w[1].queue == [] && w[1].inbox == [Packet(wire, 0, e)]
    ensures Execution(net, ws', steps') && Idle(ws'[|steps'|])
    ensures ws'[|steps'|][0].cache == ws[|steps|][0].cache
    ensures ws'[|steps'|][1].cache == ws[|steps|][1].cache[net.key(e) := e]
  {
    EchoNext(net, ws[|steps|], e, wire, junk);
    ws', steps' := Then(net, ws, steps, Deliver(0, 0, junk), Next(net, ws[|steps|], Deliver(0, 0, junk)));
    AcceptNext(net, ws'[|steps'|], e, wire, junk);
    ws', steps' := Then(net, ws', steps', Deliver(1, 0, junk), Next(net, ws'[|steps'|], Deliver(1, 0, junk)));
    ForeignNext(net, ws'[|steps'|], e);
    ws', steps' := Then(net, ws', steps', Dispatch(1), Next(net, ws'[|steps'|], Dispatch(1)));
  }

  lemma BothJoin(net: Net) returns (ws: seq<World>, steps: seq<Step>)
    requires |net.eids| == 2
    ensures Execution(net, ws, steps) && Idle(ws[|steps|])
    ensures ws[|steps|][0].cache == map[] && ws[|steps|][1].cache == map[]
  {
    var on := EMPTY_NODE.(subscribed := true);
    var w0: World := [EMPTY_NODE, EMPTY_NODE];
    var w1: World := [on, EMPTY_NODE];
    var w2: World := [on, on];
    NextQuietly(net, w0, Join(0));
    NextQuietly(net, w1, Join(1));
    assert Next(net, w0, Join(0)) == w1 && Next(net, w1, Join(1)) == w2;
    ws, steps := [w0, w1, w2], [Join(0), Join(1)];
  }

  /** Node 0 tells of two keys; in the end both nodes hold both events. */
  lemma BothHeld(net: Net, e1: Event, e2: Event, junk: Eid) returns (ws: seq<World>, steps: seq<Step>)
    requires Faithful(net) && |net.eids| == 2 && net.sendable(0, e1) && net.sendable(0, e2)
    requires net.flag(e1) && net.flag(e2) && net.published(e1.etype) && net.published(e2.etype)
    requires net.key(e1) != net.key(e2)
    ensures Execution(net, ws, steps) && Idle(ws[|steps|])
    ensures ws[|steps|][0].cache == ws[|steps|][1].cache == map[net.key(e1) := e1, net.key(e2) := e2]
    ensures e1 in ws[|steps|][1].cache.Values && e2 in ws[|steps|][1].cache.Values
  {
    assert net.publish(0, e1).Some? && net.publish(0, e2).Some?;
    ws, steps := BothJoin(net);
    ws, steps := Told(net, ws, steps, e1, junk);
    ws, steps := Told(net, ws, steps, e2, junk);
    assert ws[|steps|][1].cache[net.key(e1)] == e1 && ws[|steps|][1].cache[net.key(e2)] == e2;
    assert map[][net.key(e1) := e1][net.key(e2) := e2] == map[net.key(e1) := e1, net.key(e2) := e2];
  }

  /** Nothing is under way, and node 1 holds both events. */
  ghost predicate HoldsBoth(net: Net, ws: seq<World>, steps: seq<Step>, e1: Event, e2: Event) {
    && Execution(net, ws, steps) && |ws[|steps|]| == 2 && Quiet(ws[|steps|])
    && e1 in ws[|steps|][1].cache.Values && e2 in ws[|steps|][1].cache.Values
  }

  lemma ReaderHoldsBoth(net: Net, e1: Event, e2: Event, junk: Eid) returns (ws: seq<World>, steps: seq<Step>)
    requires Faithful(net) && |net.eids| == 2 && net.sendable(0, e1) && net.sendable(0, e2)
    requires net.flag(e1) && net.flag(e2) && net.published(e1.etype) && net.published(e2.etype)
    requires net.key(e1) != net.key(e2)
    ensures HoldsBoth(net, ws, steps, e1, e2)
  {
    ws, steps := BothHeld(net, e1, e2, junk);
  }
}

/** Published events that do not fit the 1024-byte buffer: who takes them for its own, and exactly
    when one of them sets off a storm. */
module Overlong {
  import opened CText
  import opened IeTable
  import opened EventCodec
  import opened Truncation
  import opened Reprint
  import opened ResRedis
  import opened Cluster
  import opened RealCluster

  /** An event that was posted at node `o` and is of a published type; `f` is its identifier. */
  predicate OwnPublished(c: Config, o: nat, e: Event, f: nat) {
    && o < |c.eids| && Postable(c.d, c.types, e) && c.types[e.etype].publish
    && CommaFree(e.ies) && LocalTo(e.ies, f, c.eids[o])
  }

  /** The message it is published as. */
  function WireOf(c: Config, e: Event): Wire
    requires Postable(c.d, c.types, e) && c.types[e.etype].channel.Some?
  {
    Wire(c.types[e.etype].channel.value, Encode(c.d, e.ies, MAX_EVENT_LENGTH))
  }

  /** What node `n` makes of that message. */
  function Heard(c: Config, n: nat, e: Event, junk: Eid): Reception
    requires n < |c.eids| && Postable(c.d, c.types, e) && c.types[e.etype].channel.Some?
  {
    Receives(c.d, c.types, c.eids[n], junk, WireOf(c, e))
  }

  /** The buffer holds nothing of the event's identifier, and what it holds makes sense. */
  predicate CutShort(c: Config, e: Event, f: nat)
    requires Postable(c.d, c.types, e) && f < |e.ies|
  {
    LosesOrigin(c.d, e.ies, f, MAX_EVENT_LENGTH)
  }

  lemma HeardDecodes(c: Config, n: nat, e: Event, junk: Eid)
    requires ValidConfig(c) && n < |c.eids| && Postable(c.d, c.types, e) && c.types[e.etype].publish && e.ies != []
    ensures Heard(c, n, e, junk)
         == match Decode(c.d, c.eids[n], junk, Encode(c.d, e.ies, MAX_EVENT_LENGTH))
            case NoMeaning => Meaningless
            case SelfEid => Echo
            case Ok(ies, cacheable) => Accepted(Event(e.etype, ies), cacheable)
  {
    var channel := c.types[e.etype].channel.value;
    assert Route(c.types, channel) == Some(e.etype);
    EncodedLength(c.d, e.ies, MAX_EVENT_LENGTH);
  }

  lemma AcceptedFrom(r: Reception, seen: Decoded, etype: nat, self: Eid)
    requires r == match seen
                  case NoMeaning => Meaningless
                  case SelfEid => Echo
                  case Ok(ies, cacheable) => Accepted(Event(etype, ies), cacheable)
    ensures r.Accepted? && OriginOf(r.event) == Some(self) <==> OriginSeen(seen) == From(self)
    ensures seen.Ok? && OriginSeen(seen).From? ==> OriginOf(r.event).Some?
  {
  }

  lemma HeardOrigin(c: Config, n: nat, e: Event, junk: Eid)
    requires ValidConfig(c) && n < |c.eids| && Postable(c.d, c.types, e) && c.types[e.etype].publish && e.ies != []
    ensures var r := Heard(c, n, e, junk);
            && (r.Accepted? ==> OriginOf(r.event).Some?)
            && (r.Accepted? && OriginOf(r.event) == Some(c.eids[n])
                <==> OriginSeen(Decode(c.d, c.eids[n], junk, Encode(c.d, e.ies, MAX_EVENT_LENGTH))) == From(c.eids[n]))
  {
    var seen := Decode(c.d, c.eids[n], junk, Encode(c.d, e.ies, MAX_EVENT_LENGTH));
    HeardDecodes(c, n, e, junk);
    if seen.Ok? {
      DecodedNames(c.d, c.eids[n], junk, Encode(c.d, e.ies, MAX_EVENT_LENGTH));
    }
    AcceptedFrom(Heard(c, n, e, junk), seen, e.etype, c.eids[n]);
  }

  /** Any node, the sender included, takes a comma-free event for its own, and so passes the guard of
      ast_event_cb with it, exactly if the kept text makes sense and holds nothing of the
      identifier's characters. */
  lemma TakenAsOwnIff(c: Config, o: nat, n: nat, e: Event, f: nat, junk: Eid)
    requires ValidConfig(c) && n < |c.eids| && OwnPublished(c, o, e, f)
    ensures var r := Heard(c, n, e, junk);
            r.Accepted? && OriginOf(r.event) == Some(c.eids[n]) <==> CutShort(c, e, f)
  {
    HeardOrigin(c, n, e, junk);
    TakenIff(c.d, c.eids[n], junk, c.eids[o], e.ies, f, MAX_EVENT_LENGTH);
  }

  lemma HeardAgain(c: Config, o: nat, n: nat, e: Event, f: nat, junk: Eid) returns (again: seq<IE>)
    requires ValidConfig(c) && n < |c.eids| && OwnPublished(c, o, e, f) && CutShort(c, e, f)
    ensures Heard(c, n, e, junk).Accepted? && Heard(c, n, e, junk).event == Event(e.etype, again)
    ensures WellFormed(c.d, again) && CommaFree(again) && again != [] && LocalTo(again, |again| - 1, c.eids[n])
    ensures Encode(c.d, again, MAX_EVENT_LENGTH) == Encode(c.d, e.ies, MAX_EVENT_LENGTH)
  {
    HeardDecodes(c, n, e, junk);
    var cacheable;
    again, cacheable := Reprinted(c.d, c.eids[n], junk, c.eids[o], e.ies, f, MAX_EVENT_LENGTH);
  }

  lemma AgainPublished(c: Config, n: nat, etype: nat, again: seq<IE>, channel: string, text: string)
    requires ValidConfig(c) && n < |c.eids| && etype < |c.types| && c.types[etype].publish
    requires c.types[etype].channel == Some(channel)
    requires WellFormed(c.d, again) && CommaFree(again) && again != [] && LocalTo(again, |again| - 1, c.eids[n])
    requires Encode(c.d, again, MAX_EVENT_LENGTH) == text
    ensures OwnPublished(c, n, Event(etype, again), |again| - 1)
    ensures Publishes(c.d, c.types, c.eids[n], Event(etype, again)) == Some(Wire(channel, text))
  {
    OwnText(c, n, Event(etype, again), |again| - 1);
  }

  lemma AgainWire(c: Config, n: nat, e: Event, again: seq<IE>, r: Reception)
    requires ValidConfig(c) && n < |c.eids| && Postable(c.d, c.types, e) && c.types[e.etype].publish
    requires r.Accepted? && r.event == Event(e.etype, again)
    requires WellFormed(c.d, again) && CommaFree(again) && again != [] && LocalTo(again, |again| - 1, c.eids[n])
    requires Encode(c.d, again, MAX_EVENT_LENGTH) == Encode(c.d, e.ies, MAX_EVENT_LENGTH)
    ensures r.event.ies != [] && OwnPublished(c, n, r.event, |r.event.ies| - 1)
    ensures Publishes(c.d, c.types, c.eids[n], r.event) == Some(WireOf(c, e))
  {
    AgainPublished(c, n, e.etype, again, c.types[e.etype].channel.value, Encode(c.d, e.ies, MAX_EVENT_LENGTH));
  }

  /** What it takes for its own it publishes again, as the very same message. */
  lemma PublishedAgain(c: Config, o: nat, n: nat, e: Event, f: nat, junk: Eid)
    requires ValidConfig(c) && n < |c.eids| && OwnPublished(c, o, e, f) && CutShort(c, e, f)
    ensures var r := Heard(c, n, e, junk);
            && r.Accepted? && r.event.ies != [] && OwnPublished(c, n, r.event, |r.event.ies| - 1)
            && Publishes(c.d, c.types, c.eids[n], r.event) == Some(WireOf(c, e))
  {
    var again := HeardAgain(c, o, n, e, f, junk);
    AgainWire(c, n, e, again, Heard(c, n, e, junk));
  }

  /** A node publishes its own events of published types. */
  lemma OwnText(c: Config, n: nat, e: Event, f: nat)
    requires ValidConfig(c) && OwnPublished(c, n, e, f)
    ensures Publishes(c.d, c.types, c.eids[n], e) == Some(WireOf(c, e))
  {
    FirstLocal(e.ies, f, c.eids[n], |e.ies|);
    assert e.ies[..|e.ies|] == e.ies;
  }

  // ---------------------------------------------------------------- rounds of a single node

  /** A subscribed node has nothing to do but dispatch the event `x`, which it publishes as `wire`. */
  ghost predicate Alone(c: Config, w: World, n: nat, x: Event, wire: Wire) {
    && n < |w| == |c.eids| && w[n].subscribed && w[n].inbox == [] && w[n].queue == [x]
    && Postable(c.d, c.types, x) && Publishes(c.d, c.types, c.eids[n], x) == Some(wire)
  }

  /** Two steps: node `n` dispatches the first event of its queue, then reads the first message of
      its inbox. */
  ghost predicate Round(net: Net, n: nat, junk: Eid, v: World, v': World) {
    && Enabled(net, v, Dispatch(n))
    && var u := Next(net, v, Dispatch(n));
       Enabled(net, u, Deliver(n, 0, junk)) && v' == Next(net, u, Deliver(n, 0, junk))
  }

  lemma RoundDispatch(c: Config, w: World, n: nat, x: Event, wire: Wire)
    requires Alone(c, w, n, x, wire)
    ensures Enabled(RealNet(c), w, Dispatch(n))
    ensures var u := Next(RealNet(c), w, Dispatch(n));
            && |u| == |w|
            && u[n] == w[n].(queue := [], sent := w[n].sent + [x], inbox := [Packet(wire, n, x)])
  {
    var net := RealNet(c);
    OnePacket(net, n, x);
    NextNode(net, w, Dispatch(n), n);
    assert w[n].queue[1..] == [] && [] + Sends(net, w, Dispatch(n)) == Sends(net, w, Dispatch(n));
  }

  lemma RoundDeliver(c: Config, u: World, n: nat, p: Packet, junk: Eid)
    requires n < |u| == |c.eids| && u[n].queue == [] && u[n].inbox == [p]
    ensures Enabled(RealNet(c), u, Deliver(n, 0, junk))
    ensures var v := Next(RealNet(c), u, Deliver(n, 0, junk));
            var r := Receives(c.d, c.types, c.eids[n], junk, p.wire);
            && |v| == |u| && v[n].subscribed == u[n].subscribed && v[n].inbox == [] && v[n].sent == u[n].sent
            && v[n].queue == if r.Accepted? then [r.event] else []
  {
    var net := RealNet(c);
    var s := Deliver(n, 0, junk);
    NextNode(net, u, s, n);
    assert Without(u[n].inbox, 0) == [];
    var r := Receives(c.d, c.types, c.eids[n], junk, p.wire);
    assert net.receive(n, junk, p.wire) == r;
    if r.Accepted? {
      assert [] + [r.event] == [r.event];
    }
  }

  /** What one round of such a node leads to. */
  ghost function AfterRound(c: Config, w: World, n: nat, x: Event, wire: Wire, junk: Eid): (v: World)
    requires Alone(c, w, n, x, wire)
    ensures Round(RealNet(c), n, junk, w, v)
    ensures var r := Receives(c.d, c.types, c.eids[n], junk, wire);
            && |v| == |w| && v[n].subscribed && v[n].inbox == [] && v[n].sent == w[n].sent + [x]
            && v[n].queue == if r.Accepted? then [r.event] else []
  {
    RoundDispatch(c, w, n, x, wire);
    var u := Next(RealNet(c), w, Dispatch(n));
    RoundDeliver(c, u, n, Packet(wire, n, x), junk);
    Next(RealNet(c), u, Deliver(n, 0, junk))
  }

  lemma OwnAlone(c: Config, w: World, n: nat, e: Event, f: nat)
    requires ValidConfig(c) && OwnPublished(c, n, e, f)
    requires n < |w| == |c.eids| && w[n].subscribed && w[n].inbox == [] && w[n].queue == [e]
    ensures Alone(c, w, n, e, WireOf(c, e))
  {
    OwnText(c, n, e, f);
  }

  lemma PublishedOrigin(c: Config, n: nat, y: Event)
    requires n < |c.eids| && Postable(c.d, c.types, y) && OriginOf(y).Some?
    ensures Publishes(c.d, c.types, c.eids[n], y).Some? ==> OriginOf(y) == Some(c.eids[n])
  {
  }

  predicate Republished(c: Config, n: nat, r: Reception)
    requires n < |c.eids|
  {
    r.Accepted? && Postable(c.d, c.types, r.event) && Publishes(c.d, c.types, c.eids[n], r.event).Some?
  }

  /** A node publishes again what it makes of a message under that condition and no other. */
  lemma RepublishedIff(c: Config, o: nat, n: nat, e: Event, f: nat, junk: Eid)
    requires ValidConfig(c) && n < |c.eids| && OwnPublished(c, o, e, f)
    ensures Republished(c, n, Heard(c, n, e, junk)) <==> CutShort(c, e, f)
  {
    if CutShort(c, e, f) {
      PublishedAgain(c, o, n, e, f, junk);
    } else {
      NotRepublished(c, o, n, e, f, junk);
    }
  }

  lemma NotRepublished(c: Config, o: nat, n: nat, e: Event, f: nat, junk: Eid)
    requires ValidConfig(c) && n < |c.eids| && OwnPublished(c, o, e, f) && !CutShort(c, e, f)
    ensures !Republished(c, n, Heard(c, n, e, junk))
  {
    HeardOrigin(c, n, e, junk);
    TakenAsOwnIff(c, o, n, e, f, junk);
    var r := Heard(c, n, e, junk);
    if r.Accepted? && Postable(c.d, c.types, r.event) {
      PublishedOrigin(c, n, r.event);
    }
  }

  lemma AfterQueue(c: Config, v: World, n: nat, r: Reception)
    requires n < |v| == |c.eids| && v[n].queue == if r.Accepted? then [r.event] else []
    ensures (v[n].queue != [] && RealNet(c).publish(n, v[n].queue[0]).Some?) <==> Republished(c, n, r)
  {
  }

  /** A node in a storm: it has nothing to do but publish the message once more. */
  ghost predicate Storming(c: Config, w: World, n: nat, wire: Wire) {
    |w| == |c.eids| && n < |w| && w[n].queue != [] && Alone(c, w, n, w[n].queue[0], wire)
  }

  function Sent(v: World, n: nat): nat {
    if n < |v| then |v[n].sent| else 0
  }

  /** The message is taken for an event that is published as the same message. */
  ghost predicate Regenerates(c: Config, n: nat, wire: Wire)
    requires n < |c.eids|
  {
    forall junk {:trigger Receives(c.d, c.types, c.eids[n], junk, wire)} ::
      Restored(c, n, Receives(c.d, c.types, c.eids[n], junk, wire), wire)
  }

  predicate Restored(c: Config, n: nat, r: Reception, wire: Wire)
    requires n < |c.eids|
  {
    r.Accepted? && Postable(c.d, c.types, r.event) && Publishes(c.d, c.types, c.eids[n], r.event) == Some(wire)
  }

  lemma CutRegenerates(c: Config, n: nat, e: Event, f: nat)
    requires ValidConfig(c) && OwnPublished(c, n, e, f) && CutShort(c, e, f)
    ensures Regenerates(c, n, WireOf(c, e))
  {
    forall junk
      ensures Restored(c, n, Receives(c.d, c.types, c.eids[n], junk, WireOf(c, e)), WireOf(c, e))
    {
      PublishedAgain(c, n, n, e, f, junk);
    }
  }

  lemma StormingAgain(c: Config, v: World, n: nat, r: Reception, wire: Wire)
    requires n < |v| == |c.eids| && Restored(c, n, r, wire)
    requires v[n].queue == [r.event] && v[n].subscribed && v[n].inbox == []
    ensures Storming(c, v, n, wire)
  {
  }

  /** Whatever the event in its queue, the node is as before after a round. */
  ghost function StormRound(c: Config, v: World, n: nat, wire: Wire, junk: Eid): (v': World)
    requires Storming(c, v, n, wire) && Regenerates(c, n, wire)
    ensures Round(RealNet(c), n, junk, v, v') && Storming(c, v', n, wire) && Sent(v', n) == Sent(v, n) + 1
  {
    var v' := AfterRound(c, v, n, v[n].queue[0], wire, junk);
    StormingAgain(c, v', n, Receives(c.d, c.types, c.eids[n], junk, wire), wire);
    v'
  }

  /** The exact condition of a storm. A subscribed node has nothing to do but dispatch an event of
      its own: after a round it has an event to publish again if and only if the buffer cut the
      first one before its identifier and what is kept makes sense; and then it has nothing to do
      but publish the same message again. */
  lemma RoundIff(c: Config, w: World, n: nat, e: Event, f: nat, junk: Eid, v: World)
    requires ValidConfig(c) && OwnPublished(c, n, e, f)
    requires n < |w| == |c.eids| && w[n].subscribed && w[n].inbox == [] && w[n].queue == [e]
    requires Round(RealNet(c), n, junk, w, v)
    ensures |v| == |w|
    ensures (v[n].queue != [] && RealNet(c).publish(n, v[n].queue[0]).Some?) <==> CutShort(c, e, f)
    ensures CutShort(c, e, f) ==> Storming(c, v, n, WireOf(c, e))
  {
    OwnAlone(c, w, n, e, f);
    assert v == AfterRound(c, w, n, e, WireOf(c, e), junk);
    RepublishedIff(c, n, n, e, f, junk);
    AfterQueue(c, v, n, Heard(c, n, e, junk));
    if CutShort(c, e, f) {
      CutRegenerates(c, n, e, f);
      StormingAgain(c, v, n, Heard(c, n, e, junk), WireOf(c, e));
    }
  }

  /** Good worlds one round apart. */
  ghost predicate Chain(good: World -> bool, round: (nat, World, World) -> bool, ws: seq<World>) {
    && ws != [] && good(ws[|ws| - 1])
    && (|ws| > 1 ==>
          Chain(good, round, ws[..|ws| - 1]) && round(|ws| - 2, ws[|ws| - 2], ws[|ws| - 1]))
  }

  lemma {:induction false} Repeat(good: World -> bool, round: (nat, World, World) -> bool, next: (nat, World) -> World,
                                  count: World -> nat, w: World, k: nat) returns (ws: seq<World>)
    requires good(w)
    requires forall i, v {:trigger next(i, v)} :: good(v) ==>
               good(next(i, v)) && round(i, v, next(i, v)) && count(next(i, v)) == count(v) + 1
    ensures Chain(good, round, ws) && |ws| == k + 1 && ws[0] == w && count(ws[k]) == count(w) + k
  {
    if k == 0 {
      ws := [w];
    } else {
      var before := Repeat(good, round, next, count, w, k - 1);
      ws := before + [next(k - 1, before[k - 1])];
      assert ws[..k] == before;
    }
  }

  ghost function StormingAt(c: Config, n: nat, wire: Wire): World -> bool {
    v => Storming(c, v, n, wire)
  }

  ghost function RoundAt(c: Config, n: nat, junk: nat -> Eid): (nat, World, World) -> bool {
    (i: nat, v: World, v': World) => Round(RealNet(c), n, junk(i), v, v')
  }

  /** Worlds one round apart, in each of which the node has nothing to do but publish the message. */
  ghost predicate StormRounds(c: Config, n: nat, wire: Wire, junk: nat -> Eid, ws: seq<World>) {
    Chain(StormingAt(c, n, wire), RoundAt(c, n, junk), ws)
  }

  lemma RegeneratedRounds(c: Config, w: World, n: nat, wire: Wire, k: nat, junk: nat -> Eid) returns (ws: seq<World>)
    requires n < |c.eids| && Regenerates(c, n, wire) && Storming(c, w, n, wire)
    ensures StormRounds(c, n, wire, junk, ws) && |ws| == k + 1 && ws[0] == w && Sent(ws[k], n) == Sent(w, n) + k
  {
    ghost var good, round := StormingAt(c, n, wire), RoundAt(c, n, junk);
    ghost var next := (i: nat, v: World) => if Storming(c, v, n, wire) then StormRound(c, v, n, wire, junk(i)) else v;
    var count := (v: World) => Sent(v, n);
    forall i: nat, v: World {:trigger next(i, v)} | good(v)
      ensures good(next(i, v)) && round(i, v, next(i, v)) && count(next(i, v)) == count(v) + 1
    {
      assert next(i, v) == StormRound(c, v, n, wire, junk(i));
    }
    ws := Repeat(good, round, next, count, w, k);
  }

  /** The storm: without any post or dump, and whatever the identifier buffer holds each time, such
      an event makes its node alone send PUBLISH as often as one likes, in every round once and
      always the same message. */
  lemma StormWithoutEnd(c: Config, w: World, n: nat, e: Event, f: nat, k: nat, junk: nat -> Eid)
    returns (ws: seq<World>)
    requires ValidConfig(c) && OwnPublished(c, n, e, f) && CutShort(c, e, f)
    requires n < |w| == |c.eids| && w[n].subscribed && w[n].inbox == [] && w[n].queue == [e]
    ensures StormRounds(c, n, WireOf(c, e), junk, ws) && |ws| == k + 1 && ws[0] == w
    ensures Sent(ws[k], n) == Sent(w, n) + k
  {
    OwnAlone(c, w, n, e, f);
    CutRegenerates(c, n, e, f);
    ws := RegeneratedRounds(c, w, n, WireOf(c, e), k, junk);
  }
}

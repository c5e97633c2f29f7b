/** The Net of the real callbacks: events encoded by message2json into 1024 bytes, routed by
    channel and decoded by json2message. It is faithful, so the theorems of ClusterTheorems hold
    of it. */
module RealCluster {
  import opened CText
  import opened IeTable
  import opened EventCodec
  import opened Truncation
  import opened ResRedis
  import opened Cluster
  import opened Convergence

  /** What the nodes share: Asterisk's tables, the configuration, their identifiers, and the part
      of a cache key that Asterisk reads from an event's elements. */
  datatype Config = Config(d: Dict, types: seq<EventType>, eids: seq<Eid>, ident: Event -> string)

  ghost predicate ValidConfig(c: Config) {
    && ValidDict(c.d)
    && Wired(c.types) && DistinctChannels(c.types)
    && (forall i :: 0 <= i < |c.types| && c.types[i].channel.Some? ==> c.types[i].channel.value != "")
    && (forall i, j :: 0 <= i < j < |c.eids| ==> c.eids[i] != c.eids[j])
  }

  /** Events that ast_event_new builds on node `n`: well formed, with the node's own identifier
      and no other; of a published type only if the text can carry them. */
  predicate LocalEvent(c: Config, n: nat, e: Event) {
    && n < |c.eids|
    && Postable(c.d, c.types, e)
    && OriginOf(e) == Some(c.eids[n])
    && (forall i :: 0 <= i < |e.ies| && e.ies[i].id == IE_EID ==> e.ies[i] == LocalId(c.eids[n]))
    && (c.types[e.etype].publish ==> WireSafe(e.ies) && Fits(c.d, e.ies, MAX_EVENT_LENGTH))
  }

  function RealNet(c: Config): Net {
    Net(c.eids,
        (n: nat, e: Event) => LocalEvent(c, n, e),
        (n: nat, e: Event) =>
          if n < |c.eids| && Postable(c.d, c.types, e) then Publishes(c.d, c.types, c.eids[n], e) else None,
        (n: nat, junk: Eid, w: Wire) =>
          if n < |c.eids| then Receives(c.d, c.types, c.eids[n], junk, w) else Ignored,
        (n: nat, listing: seq<Event>) =>
          if n < |c.eids| then Dumped(c.types, |c.types|, listing, c.eids[n]) else [],
        (e: Event) => KeyOf(c.ident, e),
        (e: Event) => Cachable(e.ies) != 0,
        (t: nat) => t < |c.types| && c.types[t].publish)
  }

  lemma LocalPublishes(c: Config, o: nat, n: nat, e: Event)
    requires ValidConfig(c) && LocalEvent(c, o, e) && n < |c.eids|
    ensures Publishes(c.d, c.types, c.eids[n], e)
         == if n == o && c.types[e.etype].publish
            then Some(Wire(c.types[e.etype].channel.value, Encode(c.d, e.ies, MAX_EVENT_LENGTH))) else None
    ensures e.ies != []
  {
  }

  lemma LocalCarries(c: Config, o: nat, n: nat, e: Event)
    requires ValidConfig(c) && LocalEvent(c, o, e) && n < |c.eids|
    ensures Carries(e.ies, c.eids[n]) <==> n == o
  {
    assert IE(IE_EID, FirstOf(e.ies, IE_EID).value) in e.ies;
  }

  /** A published event is an echo to its own node and arrives unchanged at every other. */
  lemma LocalReceived(c: Config, o: nat, n: nat, e: Event, junk: Eid)
    requires ValidConfig(c) && LocalEvent(c, o, e) && n < |c.eids| && c.types[e.etype].publish
    ensures Receives(c.d, c.types, c.eids[n], junk,
                     Wire(c.types[e.etype].channel.value, Encode(c.d, e.ies, MAX_EVENT_LENGTH)))
         == if n == o then Echo else Accepted(e, Cachable(e.ies) != 0)
  {
    var channel := c.types[e.etype].channel.value;
    assert Route(c.types, channel) == Some(e.etype);
    LocalPublishes(c, o, n, e);
    EncodedLength(c.d, e.ies, MAX_EVENT_LENGTH);
    DecodeEncode(c.d, c.eids[n], junk, e.ies, MAX_EVENT_LENGTH);
    LocalCarries(c, o, n, e);
  }

  lemma {:induction false} DumpedFrom(types: seq<EventType>, k: nat, listing: seq<Event>, self: Eid)
    requires k <= |types|
    ensures forall e :: e in Dumped(types, k, listing, self) <==>
                        e in listing && OriginOf(e) == Some(self) && e.etype < k && types[e.etype].publish
  {
    if k > 0 {
      DumpedFrom(types, k - 1, listing, self);
      SelectedFrom(listing, k - 1, self);
    }
  }

  lemma {:induction false} SelectedDistinct(listing: seq<Event>, etype: nat, self: Eid)
    requires Distinct(listing)
    ensures Distinct(Selected(listing, etype, self))
  {
    if listing != [] {
      var init := listing[..|listing| - 1];
      SelectedDistinct(init, etype, self);
      SelectedFrom(init, etype, self);
    }
  }

  lemma {:induction false} DumpedDistinct(types: seq<EventType>, k: nat, listing: seq<Event>, self: Eid)
    requires k <= |types| && Distinct(listing)
    ensures Distinct(Dumped(types, k, listing, self))
  {
    if k > 0 {
      DumpedDistinct(types, k - 1, listing, self);
      SelectedDistinct(listing, k - 1, self);
      var a, b := Dumped(types, k - 1, listing, self), Selected(listing, k - 1, self);
      DumpedFrom(types, k - 1, listing, self);
      SelectedFrom(listing, k - 1, self);
      forall i, j | 0 <= i < |a| && 0 <= j < |b|
        ensures a[i] != b[j]
      {
        assert a[i] in a && b[j] in b;
      }
    }
  }

  lemma RealOriginates(c: Config)
    requires ValidConfig(c)
    ensures Originates(RealNet(c))
  {
    var net := RealNet(c);
    forall o: nat, e | o < |net.eids| && net.sendable(o, e)
      ensures net.key(e).origin == Some(net.eids[o]) && net.key(e).etype == e.etype
      ensures net.publish(o, e).Some? <==> net.published(e.etype)
    {
      LocalPublishes(c, o, o, e);
    }
    forall o: nat, n: nat, e | o < |net.eids| && n < |net.eids| && n != o && net.sendable(o, e)
      ensures net.publish(n, e).None?
    {
      LocalPublishes(c, o, n, e);
    }
  }

  lemma RealCarried(c: Config)
    requires ValidConfig(c)
    ensures Carried(RealNet(c))
  {
    var net := RealNet(c);
    forall o: nat, n: nat, e, junk, w |
      o < |net.eids| && n < |net.eids| && net.sendable(o, e) && net.publish(o, e) == Some(w)
      ensures net.receive(n, junk, w) == if n == o then Echo else Accepted(e, net.flag(e))
    {
      LocalPublishes(c, o, o, e);
      LocalReceived(c, o, n, e, junk);
    }
  }

  lemma LocalChannel(c: Config, o: nat, e: Event, w: Wire)
    requires ValidConfig(c) && LocalEvent(c, o, e) && RealNet(c).publish(o, e) == Some(w)
    ensures w.channel == c.types[e.etype].channel.value
  {
    LocalPublishes(c, o, o, e);
  }

  lemma RealOneChannel(c: Config)
    requires ValidConfig(c)
    ensures OneChannel(RealNet(c))
  {
    var net := RealNet(c);
    forall o: nat, e, o': nat, e' |
      && o < |net.eids| && o' < |net.eids| && net.sendable(o, e) && net.sendable(o', e')
      && net.publish(o, e).Some? && net.publish(o', e').Some? && e.etype == e'.etype
      ensures net.publish(o, e).value.channel == net.publish(o', e').value.channel
    {
      LocalChannel(c, o, e, net.publish(o, e).value);
      LocalChannel(c, o', e', net.publish(o', e').value);
    }
  }

  /** The real callbacks make a faithful Net. */
  lemma RealNetFaithful(c: Config)
    requires ValidConfig(c)
    ensures Faithful(RealNet(c))
  {
    RealOriginates(c);
    RealCarried(c);
    RealOneChannel(c);
    forall n: nat, listing: seq<Event> | n < |c.eids| {
      DumpedFrom(c.types, |c.types|, listing, c.eids[n]);
    }
    forall n: nat, listing: seq<Event> | n < |c.eids| && Distinct(listing) {
      DumpedDistinct(c.types, |c.types|, listing, c.eids[n]);
    }
  }

  // ---------------------------------------------------------------- the module's commands

  function PublishedWires(cmds: seq<Command>): seq<Wire> {
    if cmds == [] then []
    else PublishedWires(cmds[..|cmds| - 1]) + if cmds[|cmds| - 1].Publish? then [cmds[|cmds| - 1].wire] else []
  }

  function Wires(ps: seq<Packet>): seq<Wire> {
    seq(|ps|, i requires 0 <= i < |ps| => ps[i].wire)
  }

  lemma {:induction false} PublishedAppend(a: seq<Command>, b: seq<Command>)
    ensures PublishedWires(a + b) == PublishedWires(a) + PublishedWires(b)
    decreases |b|
  {
    if b == [] {
      assert a + b == a;
    } else {
      assert (a + b)[..|a + b| - 1] == a + b[..|b| - 1];
      PublishedAppend(a, b[..|b| - 1]);
    }
  }

  lemma EmittedWires(c: Config, n: nat, e: Event)
    requires n < |c.eids| && Postable(c.d, c.types, e)
    ensures PublishedWires(Emitted(c.d, c.types, c.eids[n], e)) == Wires(Packets(RealNet(c), n, [e]))
  {
    var w := Publishes(c.d, c.types, c.eids[n], e);
    PublishedAppend(if e.etype == EVENT_PING then [Ping] else [], OptionSeq(w));
    assert [e][..0] == [];
    assert forall x: Command :: [x][..0] == [];
  }

  /** Commands and messages that correspond event by event correspond over any list of events. */
  lemma {:induction false} WiresOfAll(net: Net, n: nat, emit: Event -> seq<Command>, es: seq<Event>)
    requires forall e {:trigger emit(e)} :: e in es ==> PublishedWires(emit(e)) == Wires(Packets(net, n, [e]))
    ensures PublishedWires(Emissions(emit, es)) == Wires(Packets(net, n, es))
  {
    if es != [] {
      var init, e := es[..|es| - 1], es[|es| - 1];
      assert es == init + [e];
      WiresOfAll(net, n, emit, init);
      PublishedAppend(Emissions(emit, init), emit(e));
      assert [e][..0] == [];
      assert Packets(net, n, es) == Packets(net, n, init) + Packets(net, n, [e]);
      assert Wires(Packets(net, n, es)) == Wires(Packets(net, n, init)) + Wires(Packets(net, n, [e]));
    }
  }

  /** The PUBLISH commands that the module's methods send for any events are, in order, the
      messages of the corresponding step of the cluster. */
  lemma EmissionsArePackets(c: Config, n: nat, es: seq<Event>)
    requires n < |c.eids| && AllPostable(c.d, c.types, es)
    ensures PublishedWires(Emissions(EmitterOf(c.d, c.types, c.eids[n]), es)) == Wires(Packets(RealNet(c), n, es))
  {
    forall e | e in es
      ensures PublishedWires(EmitterOf(c.d, c.types, c.eids[n])(e)) == Wires(Packets(RealNet(c), n, [e]))
    {
      assert Postable(c.d, c.types, e);
      EmittedWires(c, n, e);
    }
    WiresOfAll(RealNet(c), n, EmitterOf(c.d, c.types, c.eids[n]), es);
  }

  // ---------------------------------------------------------------- over real messages

  /** In every quiet state of every run, a reader's replica of each key it was sent equals the
      cache of the node that published it, exactly if that node lost nothing newer. */
  lemma RealAgreement(c: Config, ws: seq<World>, steps: seq<Step>, i: nat, j: nat, n: nat, k: CacheKey)
    requires ValidConfig(c) && Execution(RealNet(c), ws, steps) && SharedWith(RealNet(c), ws, steps, i, n, k)
    requires i < j < |ws| && Quiet(ws[j])
    ensures AgreeExactly(RealNet(c), ws, steps, j, n, steps[i].n, k)
  {
    RealNetFaithful(c);
    QuietAgreement(RealNet(c), ws, steps, i, j, n, k);
  }
}

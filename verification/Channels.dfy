/** From the settings to the wire: what a setting changes, what a node subscribes to, what it
    publishes and what it lets in, all in terms of the channels. */
module Channels {
  import opened CText
  import opened EventCodec
  import opened ResRedis
  import opened Spelling
  import opened Cluster
  import opened RealCluster

  // ---------------------------------------------------------------- settings

  predicate Called(types: seq<EventType>, i: nat, name: string)
    requires i < |types|
  {
    types[i].name.Some? && SameSpelling(name, types[i].name.value)
  }

  /** set_event changes the first type of that name, in any letter case, and no other: a direction
      is switched on and given the channel, or the prefix is set; nothing else of it changes. */
  lemma SettingIs(types: seq<EventType>, name: string, what: Setting, str: string, i: nat)
    requires i < |types|
    ensures var r := SetEvent(types, name, what, str)[i];
            if Called(types, i, name) && forall j :: 0 <= j < i ==> !Called(types, j, name) then
              && r.name == types[i].name && r.sub == types[i].sub
              && r.publish == (types[i].publish || what == PUBLISH)
              && r.subscribe == (types[i].subscribe || what == SUBSCRIBE)
              && r.channel == (if what == PREFIX then types[i].channel else Some(str))
              && r.prefix == (if what == PREFIX then Some(str) else types[i].prefix)
            else r == types[i]
  {
    forall j | 0 <= j < |types| && types[j].name.Some?
      ensures Called(types, j, name) <==> Named(types, j, name)
    {
      CaseEqIs(name, types[j].name.value);
    }
  }

  /** Settings are made in the order they are read. */
  lemma ConfiguredInOrder(types: seq<EventType>, options: seq<ConfigOption>, o: ConfigOption)
    ensures Configure(types, []) == types
    ensures Configure(types, options + [o]) == SetEvent(Configure(types, options), o.name, o.what, o.str)
  {
    assert (options + [o])[..|options|] == options;
  }

  /** The types that have names, as compiled in. */
  lemma BuiltIn()
    ensures var t := BuiltInTypes();
            && |t| == 13 && t[2].name == Some("mwi") && t[5].name == Some("device_state")
            && t[6].name == Some("device_state_change") && t[12].name == Some("ping")
    ensures forall i :: 0 <= i < 13 && i != 2 && i != 5 && i != 6 && i != 12 ==> BuiltInTypes()[i].name.None?
    ensures forall i :: 0 <= i < 13 ==> BuiltInTypes()[i].channel.None? && !BuiltInTypes()[i].publish
  {
  }

  // ---------------------------------------------------------------- topics

  /** The topic of a type is the channel its events are published on. */
  lemma TopicIsWireChannel(d: Dict, types: seq<EventType>, self: Eid, e: Event, j: nat)
    requires Wired(types) && Postable(d, types, e) && Publishes(d, types, self, e).Some?
    requires j < |PublishedTypes(types, |types|)| && PublishedTypes(types, |types|)[j] == e.etype
    ensures j < |Subscribes(types, |types|)| == |Unsubscribes(types, |types|)|
    ensures Subscribes(types, |types|)[j] == Subscribe(Publishes(d, types, self, e).value.channel)
    ensures Unsubscribes(types, |types|)[j] == Unsubscribe(Publishes(d, types, self, e).value.channel)
  {
    TopicsAre(types, |types|);
  }

  /** The channel is among the topics, once. */
  ghost predicate OnTopic(types: seq<EventType>, channel: string) {
    && (exists j :: 0 <= j < |Subscribes(types, |types|)| && Subscribes(types, |types|)[j] == Subscribe(channel))
    && (forall j, l :: (0 <= j < |Subscribes(types, |types|)| && 0 <= l < |Subscribes(types, |types|)|
                        && Subscribes(types, |types|)[j] == Subscribe(channel)
                        && Subscribes(types, |types|)[l] == Subscribe(channel)) ==> j == l)
  }

  lemma TopicOnce(types: seq<EventType>, i: nat)
    requires Wired(types) && DistinctChannels(types) && i < |types| && types[i].publish
    ensures OnTopic(types, types[i].channel.value)
  {
    var ps, cmds := PublishedTypes(types, |types|), Subscribes(types, |types|);
    PublishedTypesIn(types, |types|);
    TopicsAre(types, |types|);
    assert i in ps;
    var j :| 0 <= j < |ps| && ps[j] == i;
    assert cmds[j] == Subscribe(types[i].channel.value);
    forall a, b | 0 <= a < |cmds| && 0 <= b < |cmds| && cmds[a] == Subscribe(types[i].channel.value) == cmds[b]
      ensures a == b
    {
      assert types[ps[a]].channel == types[ps[b]].channel;
      assert ps[a] == ps[b];
    }
  }

  /** What a subscribed node hears in the cluster model, it hears by the commands it sent: every
      message of every step of every run is on exactly one of its topics, and enters its inbox. */
  lemma SubscribersHear(c: Config, ws: seq<World>, steps: seq<Step>, i: nat, n: nat, p: Packet)
    requires ValidConfig(c) && Execution(RealNet(c), ws, steps) && i < |steps|
    requires Enabled(RealNet(c), ws[i], steps[i]) && p in Sends(RealNet(c), ws[i], steps[i])
    requires n < |ws[i]| && ws[i][n].subscribed
    ensures n < |ws[i + 1]| && p in ws[i + 1][n].inbox
    ensures OnTopic(c.types, p.wire.channel)
  {
    var net := RealNet(c);
    RealNetFaithful(c);
    RunInv(net, ws, steps, i);
    RunStep(net, ws, steps, i);
    SendsOk(net, ws[i], steps[i]);
    NextNode(net, ws[i], steps[i], n);
    LocalTopic(c, p.sender, p.original, p.wire);
  }

  lemma LocalTopic(c: Config, o: nat, e: Event, w: Wire)
    requires ValidConfig(c) && LocalEvent(c, o, e) && RealNet(c).publish(o, e) == Some(w)
    ensures OnTopic(c.types, w.channel)
  {
    LocalChannel(c, o, e, w);
    LocalPublishes(c, o, o, e);
    TopicOnce(c.types, e.etype);
  }

  // ---------------------------------------------------------------- out and in

  /** ast_event_cb: a PING for every event of type 12, then the event if its type is published and
      it carries the node's own identifier first, or none. */
  lemma EmittedIs(d: Dict, types: seq<EventType>, self: Eid, e: Event)
    requires Wired(types) && Postable(d, types, e)
    ensures var own := OriginOf(e).None? || OriginOf(e) == Some(self);
            Emitted(d, types, self, e)
            == (if e.etype == 12 then [Ping] else [])
               + if own && types[e.etype].publish && e.ies != []
                 then [Publish(Wire(types[e.etype].channel.value, Encode(d, e.ies, 1024)))] else []
  {
  }

  /** A published text has at most 1023 characters, and all of them if the event has as many. */
  lemma TextLength(d: Dict, ies: seq<IE>)
    requires WellFormed(d, ies)
    ensures |Encode(d, ies, 1024)| == if |OpenText(d, ies)| < 1024 then |OpenText(d, ies)| else 1023
  {
  }

  /** The receive callback lets a message in exactly if the first type with its channel is published
      and the text has at least four characters. */
  lemma Gate(d: Dict, types: seq<EventType>, self: Eid, junk: Eid, w: Wire)
    ensures (Receives(d, types, self, junk, w) != Ignored)
            <==> w.channel != "" && |w.text| >= 4
                 && exists i :: 0 <= i < |types| && FirstWith(types, i, w.channel) && types[i].publish
  {
    if Route(types, w.channel).Some? {
      assert FirstWith(types, Route(types, w.channel).value, w.channel);
    }
  }

  predicate FirstWith(types: seq<EventType>, i: nat, channel: string)
    requires i < |types|
  {
    types[i].channel == Some(channel) && forall j :: 0 <= j < i ==> types[j].channel != Some(channel)
  }

  // ---------------------------------------------------------------- the order of a dump

  lemma {:induction false} SelectedAppend(a: seq<Event>, b: seq<Event>, etype: nat, self: Eid)
    ensures Selected(a + b, etype, self) == Selected(a, etype, self) + Selected(b, etype, self)
    decreases |b|
  {
    if b == [] {
      assert a + b == a;
    } else {
      var init := b[..|b| - 1];
      SelectedAppend(a, init, etype, self);
      assert (a + b)[..|a + b| - 1] == a + init && (a + b)[|a + b| - 1] == b[|b| - 1];
    }
  }

  /** A dump goes through the types in index order. */
  lemma {:induction false} DumpInOrder(types: seq<EventType>, k: nat, listing: seq<Event>, self: Eid)
    requires k <= |types|
    ensures forall a, b :: 0 <= a <= b < |Dumped(types, k, listing, self)| ==>
                             Dumped(types, k, listing, self)[a].etype <= Dumped(types, k, listing, self)[b].etype < k
  {
    if k > 0 {
      DumpInOrder(types, k - 1, listing, self);
      SelectedFrom(listing, k - 1, self);
      var s := Selected(listing, k - 1, self);
      assert forall a :: 0 <= a < |s| ==> s[a] in s;
    }
  }

  // ---------------------------------------------------------------- the slots of the cache

  /** Two events share a slot of Asterisk's cache exactly if their types, their identifying parts
      and their origins are the same. */
  lemma SlotIff(ident: Event -> string, a: Event, b: Event)
    ensures KeyOf(ident, a) == KeyOf(ident, b)
            <==> a.etype == b.etype && ident(a) == ident(b) && OriginOf(a) == OriginOf(b)
  {
  }
}

/** The cluster as a transition system. Every node has a local event queue, Asterisk's cache and
    an inbox of the Redis messages it has been sent but not yet read.

    The system is written over a Net: what the callbacks of a node publish and make of a message.
    RealCluster.dfy supplies the Net of the real callbacks and proves it Faithful, so every
    theorem here speaks about real encoded text on the wire. */
module Cluster {
  import opened CText
  import opened EventCodec
  import opened ResRedis

  datatype Net = Net(
    eids: seq<Eid>,
    sendable: (nat, Event) -> bool,            // events node n may post locally
    publish: (nat, Event) -> Option<Wire>,     // ast_event_cb of node n
    receive: (nat, Eid, Wire) -> Reception,    // redis_subscription_cb of node n
    dump: (nat, seq<Event>) -> seq<Event>,     // what node n's cache dump hands to ast_event_cb
    key: Event -> CacheKey,
    flag: Event -> bool,                       // the Cachable element
    published: nat -> bool)                    // event types shared over Redis

  /** Posted events carry their node's identifier, and only their own node publishes them. */
  ghost predicate Originates(net: Net) {
    && (forall i, j :: 0 <= i < j < |net.eids| ==> net.eids[i] != net.eids[j])
    && (forall o: nat, e {:trigger net.sendable(o, e)} :: o < |net.eids| && net.sendable(o, e) ==>
          && net.key(e).origin == Some(net.eids[o])
          && net.key(e).etype == e.etype
          && (net.publish(o, e).Some? <==> net.published(e.etype)))
    && (forall o: nat, n: nat, e {:trigger net.sendable(o, e), net.publish(n, e)} ::
          o < |net.eids| && n < |net.eids| && n != o && net.sendable(o, e) ==> net.publish(n, e).None?)
  }

  /** A published message is an echo to its sender, and its event to everybody else. */
  ghost predicate Carried(net: Net) {
    forall o: nat, n: nat, e, junk, w {:trigger net.sendable(o, e), net.receive(n, junk, w)} ::
      o < |net.eids| && n < |net.eids| && net.sendable(o, e) && net.publish(o, e) == Some(w) ==>
        net.receive(n, junk, w) == if n == o then Echo else Accepted(e, net.flag(e))
  }

  /** Events of one type share a channel, whoever publishes them. */
  ghost predicate OneChannel(net: Net) {
    forall o: nat, e, o': nat, e' {:trigger net.sendable(o, e), net.sendable(o', e')} ::
      && o < |net.eids| && o' < |net.eids| && net.sendable(o, e) && net.sendable(o', e')
      && net.publish(o, e).Some? && net.publish(o', e').Some?
      && e.etype == e'.etype
      ==> net.publish(o, e).value.channel == net.publish(o', e').value.channel
  }

  predicate Distinct(es: seq<Event>) {
    forall i, j :: 0 <= i < j < |es| ==> es[i] != es[j]
  }

  /** A dump picks the node's own listed events of published types, each once. */
  ghost predicate DumpsOwn(net: Net) {
    && (forall n: nat, listing, e {:trigger e in net.dump(n, listing)} :: n < |net.eids| ==>
          (e in net.dump(n, listing) <==>
             e in listing && net.key(e).origin == Some(net.eids[n]) && net.published(e.etype)))
    && (forall n: nat, listing {:trigger net.dump(n, listing)} ::
          n < |net.eids| && Distinct(listing) ==> Distinct(net.dump(n, listing)))
  }

  ghost predicate Faithful(net: Net) {
    Originates(net) && Carried(net) && OneChannel(net) && DumpsOwn(net)
  }

  // ---------------------------------------------------------------- states

  /** A message on its way; sender and original are history that no node reads. */
  datatype Packet = Packet(wire: Wire, sender: nat, original: Event)

  /** `subscribed`: the node's Redis and local subscriptions exist. The last five fields are
      history: events posted locally, events accepted from the wire, events published, and how
      many events were dumped or dispatched without a subscription. */
  datatype Node = Node(
    cache: map<CacheKey, Event>, queue: seq<Event>, inbox: seq<Packet>, subscribed: bool,
    posted: seq<Event>, accepted: seq<Event>, sent: seq<Event>,
    dumped: nat, dropped: nat)

  type World = seq<Node>

  datatype Step =
    | Post(n: nat, e: Event)
    | Dispatch(n: nat)
    | Deliver(n: nat, i: nat, junk: Eid)
    | Dump(n: nat, listing: seq<Event>)
    | Join(n: nat)

  const EMPTY_NODE := Node(map[], [], [], false, [], [], [], 0, 0)

  ghost predicate Initial(net: Net, w: World) {
    |w| == |net.eids| && forall n :: 0 <= n < |w| ==> w[n] == EMPTY_NODE
  }

  function Cached(net: Net, cache: map<CacheKey, Event>, e: Event): map<CacheKey, Event> {
    if net.flag(e) then cache[net.key(e) := e] else cache
  }

  function WrittenKeys(net: Net, ps: seq<Packet>): set<CacheKey> {
    set p | p in ps && net.flag(p.original) :: net.key(p.original)
  }

  /** A subscribed node is sent what is published. */
  function Hear(node: Node, ps: seq<Packet>): Node {
    if node.subscribed then node.(inbox := node.inbox + ps) else node
  }

  function Broadcast(w: World, ps: seq<Packet>): World {
    seq(|w|, m requires 0 <= m < |w| => Hear(w[m], ps))
  }

  /** The PUBLISH commands of ast_event_cb over some events. */
  function Packets(net: Net, n: nat, es: seq<Event>): seq<Packet> {
    if es == [] then []
    else
      var e := es[|es| - 1];
      Packets(net, n, es[..|es| - 1])
      + match net.publish(n, e) case Some(w) => [Packet(w, n, e)] case None => []
  }

  function Originals(ps: seq<Packet>): (es: seq<Event>)
    ensures |es| == |ps|
    ensures forall i :: 0 <= i < |ps| ==> es[i] == ps[i].original
  {
    seq(|ps|, i requires 0 <= i < |ps| => ps[i].original)
  }

  predicate FirstOfChannel(inbox: seq<Packet>, i: nat)
    requires i < |inbox|
  {
    forall j :: 0 <= j < i ==> inbox[j].wire.channel != inbox[i].wire.channel
  }

  /** The listing of a cache: each cached event once. */
  ghost predicate Lists(net: Net, listing: seq<Event>, cache: map<CacheKey, Event>) {
    && (forall e :: e in listing ==> net.key(e) in cache && cache[net.key(e)] == e)
    && (forall k :: k in cache ==> cache[k] in listing)
    && Distinct(listing)
  }

  ghost predicate Enabled(net: Net, w: World, s: Step) {
    && s.n < |w|
    && match s
       case Post(n, e) => net.sendable(n, e)
       case Dispatch(n) => w[n].queue != []
       case Deliver(n, i, _) => i < |w[n].inbox| && FirstOfChannel(w[n].inbox, i)
       case Dump(n, listing) => Lists(net, listing, w[n].cache)
       case Join(n) => !w[n].subscribed
  }

  /** The receiving end: queue, or queue and cache. */
  function Absorb(net: Net, node: Node, r: Reception): Node {
    match r
    case Accepted(e, cacheable) =>
      node.(queue := node.queue + [e], accepted := node.accepted + [e],
            cache := if cacheable then node.cache[net.key(e) := e] else node.cache)
    case _ => node
  }

  function Without(inbox: seq<Packet>, i: nat): seq<Packet>
    requires i < |inbox|
  {
    inbox[..i] + inbox[i + 1..]
  }

  /** The acting node after the step, before its own messages reach anybody. */
  function Acting(net: Net, w: World, s: Step): Node
    requires s.n < |w|
    requires s.Dispatch? ==> w[s.n].queue != []
    requires s.Deliver? ==> s.i < |w[s.n].inbox|
  {
    var node := w[s.n];
    match s
    case Post(n, e) =>
      node.(queue := node.queue + [e], posted := node.posted + [e], cache := Cached(net, node.cache, e))
    case Dispatch(n) =>
      if net.publish(n, node.queue[0]).None? then node.(queue := node.queue[1..])
      else if node.subscribed then node.(queue := node.queue[1..], sent := node.sent + [node.queue[0]])
      else node.(queue := node.queue[1..], dropped := node.dropped + 1)
    case Deliver(n, i, junk) =>
      Absorb(net, node.(inbox := Without(node.inbox, i)), net.receive(n, junk, node.inbox[i].wire))
    case Dump(n, listing) =>
      var ps := Packets(net, n, net.dump(n, listing));
      node.(sent := node.sent + Originals(ps), dumped := node.dumped + |ps|)
    case Join(n) => node.(subscribed := true)
  }

  function Sends(net: Net, w: World, s: Step): seq<Packet>
    requires s.n < |w|
    requires s.Dispatch? ==> w[s.n].queue != []
  {
    match s
    case Dispatch(n) => if w[n].subscribed then Packets(net, n, [w[n].queue[0]]) else []
    case Dump(n, listing) => Packets(net, n, net.dump(n, listing))
    case _ => []
  }

  function Next(net: Net, w: World, s: Step): (w': World)
    requires s.n < |w|
    requires s.Dispatch? ==> w[s.n].queue != []
    requires s.Deliver? ==> s.i < |w[s.n].inbox|
    ensures |w'| == |w|
  {
    Broadcast(w[s.n := Acting(net, w, s)], Sends(net, w, s))
  }

  ghost predicate Execution(net: Net, ws: seq<World>, steps: seq<Step>) {
    && |ws| == |steps| + 1
    && Initial(net, ws[0])
    && forall i :: 0 <= i < |steps| ==> Enabled(net, ws[i], steps[i]) && ws[i + 1] == Next(net, ws[i], steps[i])
  }

  // ---------------------------------------------------------------- last writer of a key

  function Get(cache: map<CacheKey, Event>, k: CacheKey): Option<Event> {
    if k in cache then Some(cache[k]) else None
  }

  predicate Writes(net: Net, e: Event, k: CacheKey) {
    net.flag(e) && net.key(e) == k
  }

  /** What a cache entry becomes when events are cached in turn. */
  function Latest(net: Net, v: Option<Event>, es: seq<Event>, k: CacheKey): Option<Event> {
    if es == [] then v
    else if Writes(net, es[|es| - 1], k) then Some(es[|es| - 1])
    else Latest(net, v, es[..|es| - 1], k)
  }

  lemma {:induction false} LatestAppend(net: Net, v: Option<Event>, a: seq<Event>, b: seq<Event>, k: CacheKey)
    ensures Latest(net, v, a + b, k) == Latest(net, Latest(net, v, a, k), b, k)
    decreases |b|
  {
    if b == [] {
      assert a + b == a;
    } else {
      assert (a + b)[..|a + b| - 1] == a + b[..|b| - 1];
      LatestAppend(net, v, a, b[..|b| - 1], k);
    }
  }

  lemma LatestSnoc(net: Net, v: Option<Event>, es: seq<Event>, e: Event, k: CacheKey)
    ensures Latest(net, v, es + [e], k) == if Writes(net, e, k) then Some(e) else Latest(net, v, es, k)
  {
    assert (es + [e])[..|es|] == es;
  }

  lemma {:induction false} LatestSkip(net: Net, v: Option<Event>, es: seq<Event>, k: CacheKey)
    requires forall i :: 0 <= i < |es| ==> !Writes(net, es[i], k)
    ensures Latest(net, v, es, k) == v
  {
    if es != [] {
      LatestSkip(net, v, es[..|es| - 1], k);
    }
  }

  /** All writers agree. */
  lemma {:induction false} LatestUniform(net: Net, v: Option<Event>, es: seq<Event>, k: CacheKey, x: Event)
    requires forall i :: 0 <= i < |es| && Writes(net, es[i], k) ==> es[i] == x
    requires x in es && Writes(net, x, k)
    ensures Latest(net, v, es, k) == Some(x)
  {
    var last := es[|es| - 1];
    if !Writes(net, last, k) {
      assert es == es[..|es| - 1] + [last];
      LatestUniform(net, v, es[..|es| - 1], k, x);
    }
  }

  /** The value written does not depend on what was there before. */
  lemma {:induction false} LatestWritten(net: Net, v: Option<Event>, u: Option<Event>, es: seq<Event>,
                                         k: CacheKey, e: Event)
    requires e in es && Writes(net, e, k)
    ensures Latest(net, v, es, k) == Latest(net, u, es, k)
  {
    var last := es[|es| - 1];
    if !Writes(net, last, k) {
      assert es == es[..|es| - 1] + [last];
      LatestWritten(net, v, u, es[..|es| - 1], k, e);
    }
  }

  /** Popping the head: either it wrote the key, or it did not matter. */
  lemma LatestPop(net: Net, v: Option<Event>, es: seq<Event>, k: CacheKey)
    requires es != []
    ensures Latest(net, v, es, k) == Latest(net, if Writes(net, es[0], k) then Some(es[0]) else v, es[1..], k)
  {
    assert es == [es[0]] + es[1..];
    assert [es[0]][..0] == [];
    LatestAppend(net, v, [es[0]], es[1..], k);
  }

  /** Taking an element out early is harmless when nothing before it writes the same key. */
  lemma LatestEarly(net: Net, v: Option<Event>, es: seq<Event>, i: nat, k: CacheKey)
    requires i < |es|
    requires Writes(net, es[i], k) ==> forall j :: 0 <= j < i ==> !Writes(net, es[j], k)
    ensures Latest(net, v, es, k)
         == Latest(net, if Writes(net, es[i], k) then Some(es[i]) else v, es[..i] + es[i + 1..], k)
  {
    var a, e, b := es[..i], es[i], es[i + 1..];
    var u := if Writes(net, e, k) then Some(e) else v;
    assert es == (a + [e]) + b;
    LatestAppend(net, v, a + [e], b, k);
    LatestSnoc(net, v, a, e, k);
    LatestAppend(net, u, a, b, k);
    if Writes(net, e, k) {
      LatestSkip(net, u, a, k);
    }
  }

  // ---------------------------------------------------------------- the invariant

  ghost predicate Known(net: Net, e: Event) {
    exists o: nat :: o < |net.eids| && net.sendable(o, e)
  }

  ghost predicate PacketOk(net: Net, p: Packet) {
    p.sender < |net.eids| && net.sendable(p.sender, p.original) && net.publish(p.sender, p.original) == Some(p.wire)
  }

  ghost predicate NodeOk(net: Net, n: nat, node: Node) {
    && (forall i :: 0 <= i < |node.queue| ==> Known(net, node.queue[i]))
    && (forall i :: 0 <= i < |node.inbox| ==> PacketOk(net, node.inbox[i]))
    && (forall k :: k in node.cache ==> Known(net, node.cache[k]) && Writes(net, node.cache[k], k))
    && (!node.subscribed ==> node.inbox == [])
  }

  /** Own events still queued end in what the cache already holds. */
  ghost predicate PendingOk(net: Net, n: nat, queue: seq<Event>, cache: map<CacheKey, Event>) {
    forall i :: 0 <= i < |queue| && net.sendable(n, queue[i]) && net.flag(queue[i]) ==>
      PendingKey(net, queue, cache, net.key(queue[i]))
  }

  ghost predicate PendingKey(net: Net, queue: seq<Event>, cache: map<CacheKey, Event>, k: CacheKey) {
    k in cache && Latest(net, None, queue, k) == Some(cache[k])
  }

  /** A reader's view of a key: its cache entry once it has read its inbox. */
  function View(net: Net, node: Node, k: CacheKey): Option<Event> {
    Latest(net, Get(node.cache, k), Originals(node.inbox), k)
  }

  ghost predicate PairOk(net: Net, w: World, n: nat, o: nat)
    requires n < |w| == |net.eids| && o < |w|
  {
    && (forall k :: k in w[n].cache && k.origin == Some(net.eids[o]) ==> k in w[o].cache && net.published(k.etype))
    && (forall i :: 0 <= i < |w[n].inbox| && w[n].inbox[i].sender == o && net.flag(w[n].inbox[i].original) ==>
          net.key(w[n].inbox[i].original) in w[o].cache)
  }

  ghost predicate Inv(net: Net, w: World) {
    && |w| == |net.eids|
    && (forall n :: 0 <= n < |w| ==> NodeOk(net, n, w[n]) && PendingOk(net, n, w[n].queue, w[n].cache))
    && (forall n, o :: 0 <= n < |w| && 0 <= o < |w| && n != o ==> PairOk(net, w, n, o))
  }

  // ---------------------------------------------------------------- steps and messages

  lemma SenderUnique(net: Net, n: nat, o: nat, e: Event)
    requires Originates(net) && n < |net.eids| && o < |net.eids| && net.sendable(o, e)
    requires net.publish(n, e).Some? || net.key(e).origin == Some(net.eids[n])
    ensures n == o
  {
  }

  lemma {:induction false} PacketsFrom(net: Net, n: nat, es: seq<Event>)
    ensures forall i :: 0 <= i < |Packets(net, n, es)| ==>
              var p := Packets(net, n, es)[i];
              p.sender == n && p.original in es && net.publish(n, p.original) == Some(p.wire)
    ensures forall e :: e in es && net.publish(n, e).Some? ==> e in Originals(Packets(net, n, es))
  {
    if es != [] {
      var init, e := es[..|es| - 1], es[|es| - 1];
      assert es == init + [e];
      PacketsFrom(net, n, init);
      var ps := Packets(net, n, init);
      assert forall x :: x in Originals(ps) ==> x in Originals(Packets(net, n, es)) by {
        forall x | x in Originals(ps)
          ensures x in Originals(Packets(net, n, es))
        {
          var i :| 0 <= i < |ps| && Originals(ps)[i] == x;
          assert Originals(Packets(net, n, es))[i] == x;
        }
      }
      if net.publish(n, e).Some? {
        assert Originals(Packets(net, n, es))[|ps|] == e;
      }
    }
  }

  ghost predicate AllFrom(net: Net, ps: seq<Packet>, a: nat) {
    forall i :: 0 <= i < |ps| ==> ps[i].sender == a && PacketOk(net, ps[i])
  }

  /** Whatever a step sends was posted by the acting node. */
  lemma SendsOk(net: Net, w: World, s: Step)
    requires Faithful(net) && Inv(net, w) && Enabled(net, w, s)
    ensures AllFrom(net, Sends(net, w, s), s.n)
  {
    var node := w[s.n];
    assert NodeOk(net, s.n, node);
    match s
    case Dispatch(n) =>
      var e := node.queue[0];
      PacketsFrom(net, n, [e]);
      assert Known(net, e);
    case Dump(n, listing) =>
      var es := net.dump(n, listing);
      PacketsFrom(net, n, es);
      forall e | e in es
        ensures net.sendable(n, e)
      {
        assert Known(net, node.cache[net.key(e)]);
      }
    case _ =>
  }

  /** What a delivery does, in every state that satisfies the invariant: it never meets undefined
      behaviour, drops echoes, and accepts everybody else's event as it was posted. */
  lemma Arrival(net: Net, w: World, s: Step)
    requires Faithful(net) && Inv(net, w) && Enabled(net, w, s) && s.Deliver?
    ensures var p := w[s.n].inbox[s.i];
            net.receive(s.n, s.junk, p.wire)
            == if p.sender == s.n then Echo else Accepted(p.original, net.flag(p.original))
  {
    assert NodeOk(net, s.n, w[s.n]) && PacketOk(net, w[s.n].inbox[s.i]);
  }

  /** A world after a step, node by node. */
  lemma NextNode(net: Net, w: World, s: Step, m: nat)
    requires Enabled(net, w, s) && m < |w|
    ensures Next(net, w, s)[m]
         == Hear(if m == s.n then Acting(net, w, s) else w[m], Sends(net, w, s))
  {
  }

  lemma HearOk(net: Net, n: nat, node: Node, ps: seq<Packet>, a: nat)
    requires NodeOk(net, n, node) && AllFrom(net, ps, a)
    ensures NodeOk(net, n, Hear(node, ps))
  {
  }

  lemma ActingOk(net: Net, w: World, s: Step)
    requires Faithful(net) && Inv(net, w) && Enabled(net, w, s)
    ensures NodeOk(net, s.n, Acting(net, w, s))
  {
    var node := w[s.n];
    assert NodeOk(net, s.n, node);
    match s
    case Post(n, e) => assert Known(net, e);
    case Deliver(n, i, junk) =>
      Arrival(net, w, s);
      assert PacketOk(net, node.inbox[i]);
      assert Known(net, node.inbox[i].original);
    case _ =>
  }

  lemma NodeStep(net: Net, w: World, s: Step, m: nat)
    requires Faithful(net) && Inv(net, w) && Enabled(net, w, s) && m < |w|
    ensures NodeOk(net, m, Next(net, w, s)[m])
  {
    SendsOk(net, w, s);
    ActingOk(net, w, s);
    NextNode(net, w, s, m);
    assert NodeOk(net, m, w[m]);
    HearOk(net, m, if m == s.n then Acting(net, w, s) else w[m], Sends(net, w, s), s.n);
  }

  // ---------------------------------------------------------------- pending events

  lemma PendingPost(net: Net, n: nat, queue: seq<Event>, cache: map<CacheKey, Event>, e: Event)
    requires PendingOk(net, n, queue, cache)
    ensures PendingOk(net, n, queue + [e], Cached(net, cache, e))
  {
    var q := queue + [e];
    forall i | 0 <= i < |q| && net.sendable(n, q[i]) && net.flag(q[i])
      ensures PendingKey(net, q, Cached(net, cache, e), net.key(q[i]))
    {
      var k := net.key(q[i]);
      LatestSnoc(net, None, queue, e, k);
      if !Writes(net, e, k) {
        assert PendingKey(net, queue, cache, net.key(queue[i]));
      }
    }
  }

  lemma PendingPop(net: Net, n: nat, queue: seq<Event>, cache: map<CacheKey, Event>)
    requires PendingOk(net, n, queue, cache) && queue != []
    ensures PendingOk(net, n, queue[1..], cache)
  {
    forall i | 0 <= i < |queue[1..]| && net.sendable(n, queue[1..][i]) && net.flag(queue[1..][i])
      ensures PendingKey(net, queue[1..], cache, net.key(queue[1..][i]))
    {
      var k := net.key(queue[1..][i]);
      assert PendingKey(net, queue, cache, net.key(queue[i + 1]));
      LatestPop(net, None, queue, k);
      LatestWritten(net, if Writes(net, queue[0], k) then Some(queue[0]) else None, None, queue[1..], k, queue[1..][i]);
    }
  }

  /** Another node's event does not disturb the pending ones. */
  lemma PendingForeign(net: Net, n: nat, o: nat, queue: seq<Event>, cache: map<CacheKey, Event>, e: Event)
    requires Originates(net) && n < |net.eids| && o < |net.eids| && n != o && net.sendable(o, e)
    requires PendingOk(net, n, queue, cache)
    ensures PendingOk(net, n, queue + [e], Cached(net, cache, e))
  {
    var q := queue + [e];
    forall i | 0 <= i < |q| && net.sendable(n, q[i]) && net.flag(q[i])
      ensures PendingKey(net, q, Cached(net, cache, e), net.key(q[i]))
    {
      var k := net.key(q[i]);
      assert k.origin == Some(net.eids[n]) && net.key(e).origin == Some(net.eids[o]);
      LatestSnoc(net, None, queue, e, k);
      assert PendingKey(net, queue, cache, net.key(queue[i]));
    }
  }

  lemma PendingStep(net: Net, w: World, s: Step, m: nat)
    requires Faithful(net) && Inv(net, w) && Enabled(net, w, s) && m < |w|
    ensures PendingOk(net, m, Next(net, w, s)[m].queue, Next(net, w, s)[m].cache)
  {
    NextNode(net, w, s, m);
    var node := w[m];
    assert PendingOk(net, m, node.queue, node.cache);
    if m == s.n {
      match s
      case Post(n, e) => PendingPost(net, n, node.queue, node.cache, e);
      case Dispatch(n) => PendingPop(net, n, node.queue, node.cache);
      case Deliver(n, i, junk) =>
        Arrival(net, w, s);
        assert NodeOk(net, n, node);
        var p := node.inbox[i];
        assert PacketOk(net, p);
        if p.sender != n {
          PendingForeign(net, n, p.sender, node.queue, node.cache, p.original);
        }
      case _ =>
    }
  }

  // ---------------------------------------------------------------- readers and origins

  lemma OriginalsAppend(a: seq<Packet>, b: seq<Packet>)
    ensures Originals(a + b) == Originals(a) + Originals(b)
  {
  }

  lemma ViewHear(net: Net, node: Node, ps: seq<Packet>, k: CacheKey)
    ensures View(net, Hear(node, ps), k)
         == if node.subscribed then Latest(net, View(net, node, k), Originals(ps), k) else View(net, node, k)
  {
    OriginalsAppend(node.inbox, ps);
    LatestAppend(net, Get(node.cache, k), Originals(node.inbox), Originals(ps), k);
  }

  /** Messages of one node never touch keys of another. */
  lemma ForeignPackets(net: Net, ps: seq<Packet>, a: nat, o: nat, v: Option<Event>, k: CacheKey)
    requires Originates(net) && AllFrom(net, ps, a) && o < |net.eids| && a != o && k.origin == Some(net.eids[o])
    ensures Latest(net, v, Originals(ps), k) == v && k !in WrittenKeys(net, ps)
  {
    forall i | 0 <= i < |ps|
      ensures net.key(ps[i].original) != k
    {
      assert PacketOk(net, ps[i]) && ps[i].sender == a;
    }
    LatestSkip(net, v, Originals(ps), k);
  }

  /** Before the first message of a channel nothing writes the same key. */
  lemma NoEarlierWriter(net: Net, n: nat, node: Node, i: nat, j: nat, k: CacheKey)
    requires Faithful(net) && NodeOk(net, n, node) && j < i < |node.inbox| && FirstOfChannel(node.inbox, i)
    requires Writes(net, node.inbox[i].original, k)
    ensures !Writes(net, node.inbox[j].original, k)
  {
    var p, q := node.inbox[i], node.inbox[j];
    assert PacketOk(net, p) && PacketOk(net, q);
    assert net.key(p.original).etype == p.original.etype && net.key(q.original).etype == q.original.etype;
    assert q.wire.channel != p.wire.channel;
  }

  lemma OriginalsWithout(inbox: seq<Packet>, i: nat)
    requires i < |inbox|
    ensures Originals(Without(inbox, i)) == Originals(inbox)[..i] + Originals(inbox)[i + 1..]
  {
  }

  /** Reading the first message of a channel out of turn does not change the view. */
  lemma EarlyView(net: Net, n: nat, node: Node, i: nat, k: CacheKey, e: Event)
    requires Faithful(net) && NodeOk(net, n, node) && i < |node.inbox| && FirstOfChannel(node.inbox, i)
    requires e == node.inbox[i].original
    ensures View(net, node, k) == Latest(net, if Writes(net, e, k) then Some(e) else Get(node.cache, k),
                                         Originals(Without(node.inbox, i)), k)
  {
    var es := Originals(node.inbox);
    forall j | 0 <= j < i && Writes(net, e, k)
      ensures !Writes(net, es[j], k)
    {
      NoEarlierWriter(net, n, node, i, j, k);
    }
    LatestEarly(net, Get(node.cache, k), es, i, k);
    OriginalsWithout(node.inbox, i);
  }

  lemma ViewDeliver(net: Net, w: World, s: Step, o: nat, k: CacheKey)
    requires Faithful(net) && Inv(net, w) && Enabled(net, w, s) && s.Deliver?
    requires o < |w| && o != s.n && k.origin == Some(net.eids[o])
    ensures View(net, Acting(net, w, s), k) == View(net, w[s.n], k)
  {
    var node := w[s.n];
    var p := node.inbox[s.i];
    Arrival(net, w, s);
    assert NodeOk(net, s.n, node) && PacketOk(net, p);
    assert net.key(p.original).origin == Some(net.eids[p.sender]);
    EarlyView(net, s.n, node, s.i, k, p.original);
    assert Get(Acting(net, w, s).cache, k)
        == if Writes(net, p.original, k) then Some(p.original) else Get(node.cache, k);
    assert Acting(net, w, s).inbox == Without(node.inbox, s.i);
  }

  /** The reader's own step keeps its view of other nodes' keys. */
  lemma ViewActing(net: Net, w: World, s: Step, o: nat, k: CacheKey)
    requires Faithful(net) && Inv(net, w) && Enabled(net, w, s)
    requires o < |w| && o != s.n && k.origin == Some(net.eids[o])
    ensures View(net, Acting(net, w, s), k) == View(net, w[s.n], k)
  {
    if s.Deliver? {
      ViewDeliver(net, w, s, o, k);
    } else if s.Post? {
      assert net.key(s.e).origin == Some(net.eids[s.n]);
    }
  }

  lemma OnePacket(net: Net, n: nat, e: Event)
    requires net.publish(n, e).Some?
    ensures Packets(net, n, [e]) == [Packet(net.publish(n, e).value, n, e)]
  {
    assert [e][..0] == [];
  }

  /** A dispatch that sends an event for a key leaves, behind that event, what the cache holds. */
  lemma DispatchFollows(net: Net, w: World, s: Step, k: CacheKey)
    requires Faithful(net) && Inv(net, w) && Enabled(net, w, s) && s.Dispatch?
    requires k.origin == Some(net.eids[s.n]) && k in WrittenKeys(net, Sends(net, w, s))
    ensures k in w[s.n].cache && net.published(k.etype)
    ensures Originals(Sends(net, w, s)) == [w[s.n].queue[0]]
    ensures Latest(net, Some(w[s.n].queue[0]), w[s.n].queue[1..], k) == Some(w[s.n].cache[k])
  {
    var node := w[s.n];
    var e := node.queue[0];
    assert NodeOk(net, s.n, node) && PendingOk(net, s.n, node.queue, node.cache) && Known(net, e);
    assert Packets(net, s.n, [e][..0]) == [];
    OnePacket(net, s.n, e);
    assert Writes(net, e, k);
    assert PendingKey(net, node.queue, node.cache, net.key(e));
    LatestPop(net, None, node.queue, k);
  }

  /** A dump writes every published own key with its cached value, and no other own key. */
  lemma DumpWrites(net: Net, w: World, s: Step, v: Option<Event>, k: CacheKey)
    requires Faithful(net) && Inv(net, w) && Enabled(net, w, s) && s.Dump? && k.origin == Some(net.eids[s.n])
    ensures Latest(net, v, Originals(Sends(net, w, s)), k)
         == if k in w[s.n].cache && net.published(k.etype) then Some(w[s.n].cache[k]) else v
    ensures k in WrittenKeys(net, Sends(net, w, s)) ==> k in w[s.n].cache && net.published(k.etype)
  {
    var node := w[s.n];
    var ps := Sends(net, w, s);
    var es := net.dump(s.n, s.listing);
    assert NodeOk(net, s.n, node);
    PacketsFrom(net, s.n, es);
    forall i | 0 <= i < |ps|
      ensures net.key(ps[i].original) in node.cache && node.cache[net.key(ps[i].original)] == ps[i].original
      ensures net.published(net.key(ps[i].original).etype)
    {
      var e := ps[i].original;
      assert e in es && e in s.listing;
      assert Known(net, node.cache[net.key(e)]);
    }
    if k in node.cache && net.published(k.etype) {
      var e := node.cache[k];
      assert Known(net, e) && Writes(net, e, k);
      assert e in es;
      LatestUniform(net, v, Originals(ps), k, e);
    } else {
      LatestSkip(net, v, Originals(ps), k);
    }
  }

  // ---------------------------------------------------------------- preservation

  /** Caches lose no key, and gain one only from a local post or an accepted message. */
  lemma CacheStep(net: Net, w: World, s: Step, n: nat, o: nat, k: CacheKey)
    requires Faithful(net) && Inv(net, w) && Enabled(net, w, s) && n < |w| && o < |w| && n != o
    requires k in Next(net, w, s)[n].cache && k.origin == Some(net.eids[o])
    ensures k in Next(net, w, s)[o].cache && net.published(k.etype)
  {
    NextNode(net, w, s, n);
    NextNode(net, w, s, o);
    assert PairOk(net, w, n, o);
    if s.Deliver? {
      Arrival(net, w, s);
      assert NodeOk(net, s.n, w[s.n]) && PacketOk(net, w[s.n].inbox[s.i]);
    }
  }

  lemma CacheGrows(net: Net, w: World, s: Step, m: nat, k: CacheKey)
    requires Enabled(net, w, s) && m < |w| && k in w[m].cache
    ensures k in Next(net, w, s)[m].cache
  {
    NextNode(net, w, s, m);
  }

  lemma NewInInbox(net: Net, w: World, s: Step, n: nat, p: Packet)
    requires Enabled(net, w, s) && n < |w| && p in Next(net, w, s)[n].inbox
    ensures p in w[n].inbox || p in Sends(net, w, s)
  {
    NextNode(net, w, s, n);
  }

  lemma InboxStep(net: Net, w: World, s: Step, n: nat, o: nat, p: Packet)
    requires Faithful(net) && Inv(net, w) && Enabled(net, w, s) && n < |w| && o < |w| && n != o
    requires p in Next(net, w, s)[n].inbox && p.sender == o && net.flag(p.original)
    ensures net.key(p.original) in Next(net, w, s)[o].cache
  {
    var k := net.key(p.original);
    NewInInbox(net, w, s, n, p);
    if p in w[n].inbox {
      assert PairOk(net, w, n, o);
    } else {
      SendsOk(net, w, s);
      assert PacketOk(net, p) && p.sender == s.n;
      assert k in WrittenKeys(net, Sends(net, w, s));
      if s.Dispatch? {
        DispatchFollows(net, w, s, k);
      } else {
        DumpWrites(net, w, s, None, k);
      }
    }
    CacheGrows(net, w, s, o, k);
  }

  /** Every step keeps the invariant. */
  lemma InvStep(net: Net, w: World, s: Step)
    requires Faithful(net) && Inv(net, w) && Enabled(net, w, s)
    ensures Inv(net, Next(net, w, s))
  {
    var w' := Next(net, w, s);
    forall n | 0 <= n < |w'|
      ensures NodeOk(net, n, w'[n]) && PendingOk(net, n, w'[n].queue, w'[n].cache)
    {
      NodeStep(net, w, s, n);
      PendingStep(net, w, s, n);
    }
    forall n, o | 0 <= n < |w'| && 0 <= o < |w'| && n != o
      ensures PairOk(net, w', n, o)
    {
      PairStep(net, w, s, n, o);
    }
  }

  lemma PairStep(net: Net, w: World, s: Step, n: nat, o: nat)
    requires Faithful(net) && Inv(net, w) && Enabled(net, w, s) && n < |w| && o < |w| && n != o
    ensures PairOk(net, Next(net, w, s), n, o)
  {
    var w' := Next(net, w, s);
    forall k | k in w'[n].cache && k.origin == Some(net.eids[o])
      ensures k in w'[o].cache && net.published(k.etype)
    {
      CacheStep(net, w, s, n, o, k);
    }
    forall i | 0 <= i < |w'[n].inbox| && w'[n].inbox[i].sender == o && net.flag(w'[n].inbox[i].original)
      ensures net.key(w'[n].inbox[i].original) in w'[o].cache
    {
      InboxStep(net, w, s, n, o, w'[n].inbox[i]);
    }
  }

  lemma InitialInv(net: Net, w: World)
    requires Initial(net, w)
    ensures Inv(net, w)
  {
  }

  lemma RunStep(net: Net, ws: seq<World>, steps: seq<Step>, i: nat)
    requires Execution(net, ws, steps) && i < |steps|
    ensures Enabled(net, ws[i], steps[i]) && ws[i + 1] == Next(net, ws[i], steps[i])
  {
  }

  /** The invariant holds in every state of every run. */
  lemma {:induction false} RunInv(net: Net, ws: seq<World>, steps: seq<Step>, i: nat)
    requires Faithful(net) && Execution(net, ws, steps) && i < |ws|
    ensures Inv(net, ws[i])
  {
    if i == 0 {
      InitialInv(net, ws[0]);
    } else {
      RunInv(net, ws, steps, i - 1);
      RunStep(net, ws, steps, i - 1);
      InvStep(net, ws[i - 1], steps[i - 1]);
    }
  }
}

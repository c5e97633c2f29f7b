/** Convergence over whole runs of the cluster, with the exact condition under which a replica
    agrees with its origin. */
module Convergence {
  import opened CText
  import opened EventCodec
  import opened ResRedis
  import opened Cluster

  // ---------------------------------------------------------------- draining an inbox

  function DrainPacket(net: Net, n: nat, junk: Eid, cache: map<CacheKey, Event>, p: Packet): map<CacheKey, Event> {
    match net.receive(n, junk, p.wire)
    case Accepted(e, cacheable) => if cacheable then cache[net.key(e) := e] else cache
    case _ => cache
  }

  /** A node's cache once it has processed an inbox with its own callback. */
  function Drain(net: Net, n: nat, junk: Eid, cache: map<CacheKey, Event>, inbox: seq<Packet>): map<CacheKey, Event> {
    if inbox == [] then cache
    else DrainPacket(net, n, junk, Drain(net, n, junk, cache, inbox[..|inbox| - 1]), inbox[|inbox| - 1])
  }

  lemma DrainOne(net: Net, n: nat, junk: Eid, before: map<CacheKey, Event>, p: Packet, k: CacheKey)
    requires Faithful(net) && n < |net.eids| && k.origin != Some(net.eids[n]) && PacketOk(net, p)
    ensures Get(DrainPacket(net, n, junk, before, p), k)
         == if Writes(net, p.original, k) then Some(p.original) else Get(before, k)
  {
  }

  lemma {:induction false} DrainLatest(net: Net, n: nat, junk: Eid, cache: map<CacheKey, Event>, inbox: seq<Packet>,
                                       k: CacheKey)
    requires Faithful(net) && n < |net.eids| && k.origin != Some(net.eids[n])
    requires forall i :: 0 <= i < |inbox| ==> PacketOk(net, inbox[i])
    ensures Get(Drain(net, n, junk, cache, inbox), k) == Latest(net, Get(cache, k), Originals(inbox), k)
  {
    if inbox != [] {
      var init, p := inbox[..|inbox| - 1], inbox[|inbox| - 1];
      DrainLatest(net, n, junk, cache, init, k);
      DrainOne(net, n, junk, Drain(net, n, junk, cache, init), p, k);
      assert Originals(inbox) == Originals(init) + [p.original];
      LatestSnoc(net, Get(cache, k), Originals(init), p.original, k);
    }
  }

  /** Draining the real messages gives the view of the invariant. */
  lemma DrainView(net: Net, w: World, n: nat, o: nat, junk: Eid, k: CacheKey)
    requires Faithful(net) && Inv(net, w) && n < |w| && o < |w| && n != o && k.origin == Some(net.eids[o])
    ensures Get(Drain(net, n, junk, w[n].cache, w[n].inbox), k) == View(net, w[n], k)
  {
    assert NodeOk(net, n, w[n]);
    DrainLatest(net, n, junk, w[n].cache, w[n].inbox, k);
  }

  // ---------------------------------------------------------------- published and lost events

  /** The last event that `o` published for a key before a step, carried over the step. */
  ghost function LastAfter(net: Net, w: World, s: Step, o: nat, k: CacheKey, last: Option<Event>): Option<Event>
    requires Enabled(net, w, s)
  {
    if s.n == o then Latest(net, last, Originals(Sends(net, w, s)), k) else last
  }

  /** The events for a key that `o` dispatched without a subscription since it last published one. */
  ghost function LostAfter(net: Net, w: World, s: Step, o: nat, k: CacheKey, lost: seq<Event>): seq<Event>
    requires Enabled(net, w, s)
  {
    if s.n != o then lost
    else if k in WrittenKeys(net, Sends(net, w, s)) then []
    else if s.Dispatch? && !w[o].subscribed && Writes(net, w[o].queue[0], k) then lost + [w[o].queue[0]]
    else lost
  }

  /** The last event for `k` that `o` published before state `j`. */
  ghost function LastPublished(net: Net, ws: seq<World>, steps: seq<Step>, o: nat, k: CacheKey, j: nat): Option<Event>
    requires Execution(net, ws, steps) && j < |ws|
  {
    if j == 0 then None
    else LastAfter(net, ws[j - 1], steps[j - 1], o, k, LastPublished(net, ws, steps, o, k, j - 1))
  }

  /** The events for `k` that `o` has lost by state `j` since it last published one. */
  ghost function Lost(net: Net, ws: seq<World>, steps: seq<Step>, o: nat, k: CacheKey, j: nat): seq<Event>
    requires Execution(net, ws, steps) && j < |ws|
  {
    if j == 0 then []
    else LostAfter(net, ws[j - 1], steps[j - 1], o, k, Lost(net, ws, steps, o, k, j - 1))
  }

  /** A reader sees what was published last; the lost and the queued events lead from there to the
      origin's cache. */
  ghost predicate Tracks(net: Net, reader: Node, origin: Node, k: CacheKey, last: Option<Event>, lost: seq<Event>) {
    && reader.subscribed && net.published(k.etype) && k in origin.cache
    && last.Some? && View(net, reader, k) == last
    && (forall i :: 0 <= i < |lost| ==> Writes(net, lost[i], k))
    && Latest(net, last, lost + origin.queue, k) == Some(origin.cache[k])
  }

  predicate Queued(net: Net, queue: seq<Event>, k: CacheKey) {
    exists i :: 0 <= i < |queue| && Writes(net, queue[i], k)
  }

  /** When a replica follows its origin: nothing was lost since the last publication, or a newer
      event is still queued, or the last event lost is the one that was published. */
  ghost predicate Recovers(net: Net, queue: seq<Event>, k: CacheKey, last: Option<Event>, lost: seq<Event>) {
    lost == [] || Queued(net, queue, k) || last == Some(lost[|lost| - 1])
  }

  lemma TracksIff(net: Net, reader: Node, origin: Node, k: CacheKey, last: Option<Event>, lost: seq<Event>)
    requires Tracks(net, reader, origin, k, last, lost)
    ensures Latest(net, View(net, reader, k), origin.queue, k) == Some(origin.cache[k])
            <==> Recovers(net, origin.queue, k, last, lost)
  {
    LatestAppend(net, last, lost, origin.queue, k);
    if lost == [] {
      assert lost + origin.queue == origin.queue;
    } else if i :| 0 <= i < |origin.queue| && Writes(net, origin.queue[i], k) {
      LatestWritten(net, last, Latest(net, last, lost, k), origin.queue, k, origin.queue[i]);
    } else {
      LatestSkip(net, last, origin.queue, k);
      LatestSkip(net, Latest(net, last, lost, k), origin.queue, k);
    }
  }

  // ---------------------------------------------------------------- steps

  /** Events still queued end in the cached value, whatever the reader saw of the cache before. */
  lemma PendingEnds(net: Net, n: nat, node: Node, k: CacheKey)
    requires Originates(net) && n < |net.eids| && NodeOk(net, n, node) && PendingOk(net, n, node.queue, node.cache)
    requires k in node.cache && k.origin == Some(net.eids[n])
    ensures Latest(net, Some(node.cache[k]), node.queue, k) == Some(node.cache[k])
  {
    if i :| 0 <= i < |node.queue| && Writes(net, node.queue[i], k) {
      assert Known(net, node.queue[i]);
      assert PendingKey(net, node.queue, node.cache, net.key(node.queue[i]));
      LatestWritten(net, Some(node.cache[k]), None, node.queue, k, node.queue[i]);
    } else {
      LatestSkip(net, Some(node.cache[k]), node.queue, k);
    }
  }

  /** Messages that write a key are sent by the node it belongs to. */
  lemma WrittenOrigin(net: Net, w: World, s: Step, k: CacheKey)
    requires Faithful(net) && Inv(net, w) && Enabled(net, w, s) && k in WrittenKeys(net, Sends(net, w, s))
    ensures k.origin == Some(net.eids[s.n])
  {
    SendsOk(net, w, s);
  }

  /** Publishing a key, by a dispatch or by a dump, makes every subscribed reader track it,
      whether or not the publisher is subscribed itself. */
  lemma SentTracks(net: Net, w: World, s: Step, n: nat, k: CacheKey, last: Option<Event>)
    requires Faithful(net) && Inv(net, w) && Enabled(net, w, s) && n < |w| && n != s.n && w[n].subscribed
    requires k in WrittenKeys(net, Sends(net, w, s))
    ensures Tracks(net, Next(net, w, s)[n], Next(net, w, s)[s.n], k,
                   Latest(net, last, Originals(Sends(net, w, s)), k), [])
  {
    var node := w[s.n];
    NextNode(net, w, s, n);
    NextNode(net, w, s, s.n);
    WrittenOrigin(net, w, s, k);
    ViewHear(net, w[n], Sends(net, w, s), k);
    assert [] + Acting(net, w, s).queue == Acting(net, w, s).queue;
    if s.Dispatch? {
      DispatchFollows(net, w, s, k);
      LatestSnoc(net, last, [], node.queue[0], k);
      LatestSnoc(net, View(net, w[n], k), [], node.queue[0], k);
      assert [] + [node.queue[0]] == [node.queue[0]];
    } else {
      DumpWrites(net, w, s, last, k);
      DumpWrites(net, w, s, View(net, w[n], k), k);
      PendingEnds(net, s.n, node, k);
    }
  }

  lemma UnsentSkips(net: Net, ps: seq<Packet>, v: Option<Event>, k: CacheKey)
    requires k !in WrittenKeys(net, ps)
    ensures Latest(net, v, Originals(ps), k) == v
  {
    forall i | 0 <= i < |ps|
      ensures !Writes(net, Originals(ps)[i], k)
    {
      assert ps[i] in ps;
    }
    LatestSkip(net, v, Originals(ps), k);
  }

  lemma QueuedTracks(net: Net, last: Option<Event>, lost: seq<Event>, queue: seq<Event>, e: Event, k: CacheKey)
    ensures Latest(net, last, lost + (queue + [e]), k)
         == if Writes(net, e, k) then Some(e) else Latest(net, last, lost + queue, k)
  {
    LatestSnoc(net, last, lost + queue, e, k);
    assert lost + (queue + [e]) == (lost + queue) + [e];
  }

  /** What a delivery does to queue and cache. */
  lemma DeliverActs(net: Net, w: World, s: Step)
    requires Faithful(net) && Inv(net, w) && Enabled(net, w, s) && s.Deliver?
    ensures var node := w[s.n];
            var p := node.inbox[s.i];
            var o := Acting(net, w, s);
            if p.sender == s.n then o.queue == node.queue && o.cache == node.cache
            else o.queue == node.queue + [p.original] && o.cache == Cached(net, node.cache, p.original)
  {
    Arrival(net, w, s);
  }

  /** Queue and cache take in one event. */
  lemma TakesIn(net: Net, last: Option<Event>, lost: seq<Event>, queue: seq<Event>, cache: map<CacheKey, Event>,
                e: Event, k: CacheKey)
    requires k in cache && Latest(net, last, lost + queue, k) == Some(cache[k])
    ensures k in Cached(net, cache, e) && Latest(net, last, lost + (queue + [e]), k) == Some(Cached(net, cache, e)[k])
  {
    QueuedTracks(net, last, lost, queue, e, k);
  }

  lemma DeliverTracks(net: Net, w: World, s: Step, k: CacheKey, last: Option<Event>, lost: seq<Event>)
    requires Faithful(net) && Inv(net, w) && Enabled(net, w, s) && s.Deliver? && k in w[s.n].cache
    requires Latest(net, last, lost + w[s.n].queue, k) == Some(w[s.n].cache[k])
    ensures var o := Acting(net, w, s);
            k in o.cache && Latest(net, last, lost + o.queue, k) == Some(o.cache[k])
  {
    DeliverActs(net, w, s);
    TakesIn(net, last, lost, w[s.n].queue, w[s.n].cache, w[s.n].inbox[s.i].original, k);
  }

  lemma PostTracks(net: Net, w: World, s: Step, k: CacheKey, last: Option<Event>, lost: seq<Event>)
    requires Enabled(net, w, s) && s.Post? && k in w[s.n].cache
    requires Latest(net, last, lost + w[s.n].queue, k) == Some(w[s.n].cache[k])
    ensures var o := Acting(net, w, s);
            k in o.cache && Latest(net, last, lost + o.queue, k) == Some(o.cache[k])
  {
    TakesIn(net, last, lost, w[s.n].queue, w[s.n].cache, s.e, k);
  }

  /** Queue and cache of the origin after a step that publishes nothing for the key. */
  lemma OriginTracks(net: Net, w: World, s: Step, k: CacheKey, last: Option<Event>, lost: seq<Event>)
    requires Faithful(net) && Inv(net, w) && Enabled(net, w, s)
    requires k.origin == Some(net.eids[s.n]) && net.published(k.etype) && k in w[s.n].cache
    requires Latest(net, last, lost + w[s.n].queue, k) == Some(w[s.n].cache[k])
    requires k !in WrittenKeys(net, Sends(net, w, s))
    ensures var o := Acting(net, w, s);
            && k in o.cache
            && Latest(net, last, LostAfter(net, w, s, s.n, k, lost) + o.queue, k) == Some(o.cache[k])
  {
    if s.Post? {
      PostTracks(net, w, s, k, last, lost);
    } else if s.Deliver? {
      DeliverTracks(net, w, s, k, last, lost);
    } else if s.Dispatch? {
      DispatchTracks(net, w, s, k, last, lost);
    }
  }

  /** A subscribed node publishes what it dispatches. */
  lemma SubscribedSends(net: Net, w: World, s: Step, k: CacheKey)
    requires Faithful(net) && Inv(net, w) && Enabled(net, w, s) && s.Dispatch? && w[s.n].subscribed
    requires k.origin == Some(net.eids[s.n]) && net.published(k.etype) && Writes(net, w[s.n].queue[0], k)
    ensures k in WrittenKeys(net, Sends(net, w, s))
  {
    var e := w[s.n].queue[0];
    assert NodeOk(net, s.n, w[s.n]) && Known(net, e);
    OnePacket(net, s.n, e);
    assert Sends(net, w, s)[0].original == e;
  }

  lemma DispatchTracks(net: Net, w: World, s: Step, k: CacheKey, last: Option<Event>, lost: seq<Event>)
    requires Faithful(net) && Inv(net, w) && Enabled(net, w, s) && s.Dispatch?
    requires k.origin == Some(net.eids[s.n]) && net.published(k.etype) && k !in WrittenKeys(net, Sends(net, w, s))
    ensures Latest(net, last, LostAfter(net, w, s, s.n, k, lost) + w[s.n].queue[1..], k)
         == Latest(net, last, lost + w[s.n].queue, k)
  {
    var queue := w[s.n].queue;
    if !Writes(net, queue[0], k) {
      LatestAppend(net, last, lost, queue, k);
      LatestAppend(net, last, lost, queue[1..], k);
      LatestPop(net, Latest(net, last, lost, k), queue, k);
    } else if w[s.n].subscribed {
      SubscribedSends(net, w, s, k);
    } else {
      assert lost + queue == (lost + [queue[0]]) + queue[1..];
    }
  }

  lemma OwnStep(net: Net, w: World, s: Step, n: nat, k: CacheKey, last: Option<Event>, lost: seq<Event>)
    requires Faithful(net) && Inv(net, w) && Enabled(net, w, s) && n < |w| && n != s.n
    requires k.origin == Some(net.eids[s.n]) && Tracks(net, w[n], w[s.n], k, last, lost)
    requires k !in WrittenKeys(net, Sends(net, w, s))
    ensures Tracks(net, Next(net, w, s)[n], Next(net, w, s)[s.n], k,
                   LastAfter(net, w, s, s.n, k, last), LostAfter(net, w, s, s.n, k, lost))
  {
    NextNode(net, w, s, n);
    NextNode(net, w, s, s.n);
    ViewHear(net, w[n], Sends(net, w, s), k);
    UnsentSkips(net, Sends(net, w, s), last, k);
    OriginTracks(net, w, s, k, last, lost);
  }

  lemma OthersStep(net: Net, w: World, s: Step, n: nat, o: nat, k: CacheKey, last: Option<Event>, lost: seq<Event>)
    requires Faithful(net) && Inv(net, w) && Enabled(net, w, s) && n < |w| && o < |w| && n != o && s.n != o
    requires k.origin == Some(net.eids[o]) && Tracks(net, w[n], w[o], k, last, lost)
    ensures Tracks(net, Next(net, w, s)[n], Next(net, w, s)[o], k, last, lost)
  {
    var ps := Sends(net, w, s);
    NextNode(net, w, s, n);
    NextNode(net, w, s, o);
    SendsOk(net, w, s);
    ForeignPackets(net, ps, s.n, o, View(net, w[n], k), k);
    ViewHear(net, if n == s.n then Acting(net, w, s) else w[n], ps, k);
    if n == s.n {
      ViewActing(net, w, s, o, k);
    }
  }

  /** Every step of every node keeps a reader on track. */
  lemma TracksStep(net: Net, w: World, s: Step, n: nat, o: nat, k: CacheKey, last: Option<Event>, lost: seq<Event>)
    requires Faithful(net) && Inv(net, w) && Enabled(net, w, s) && n < |w| && o < |w| && n != o
    requires k.origin == Some(net.eids[o]) && Tracks(net, w[n], w[o], k, last, lost)
    ensures Tracks(net, Next(net, w, s)[n], Next(net, w, s)[o], k,
                   LastAfter(net, w, s, o, k, last), LostAfter(net, w, s, o, k, lost))
  {
    if s.n != o {
      OthersStep(net, w, s, n, o, k, last, lost);
    } else if k in WrittenKeys(net, Sends(net, w, s)) {
      SentTracks(net, w, s, n, k, last);
    } else {
      OwnStep(net, w, s, n, k, last, lost);
    }
  }

  // ---------------------------------------------------------------- convergence

  /** Step `i` publishes an event for `k` while node `n`, another one, is subscribed. */
  ghost predicate SharedWith(net: Net, ws: seq<World>, steps: seq<Step>, i: nat, n: nat, k: CacheKey)
    requires Execution(net, ws, steps)
  {
    && i < |steps| && n < |ws[i]| && n != steps[i].n && ws[i][n].subscribed
    && k in WrittenKeys(net, Sends(net, ws[i], steps[i]))
  }

  /** Node `n` tracks node `o` in state `j` of a run. */
  ghost predicate TracksAt(net: Net, ws: seq<World>, steps: seq<Step>, j: nat, n: nat, o: nat, k: CacheKey)
    requires Execution(net, ws, steps) && j < |ws|
  {
    && |ws[j]| == |net.eids| && n < |net.eids| && o < |net.eids| && n != o && k.origin == Some(net.eids[o])
    && Tracks(net, ws[j][n], ws[j][o], k, LastPublished(net, ws, steps, o, k, j), Lost(net, ws, steps, o, k, j))
  }

  lemma TracksFirst(net: Net, ws: seq<World>, steps: seq<Step>, i: nat, n: nat, k: CacheKey)
    requires Faithful(net) && Execution(net, ws, steps) && SharedWith(net, ws, steps, i, n, k)
    ensures TracksAt(net, ws, steps, i + 1, n, steps[i].n, k)
  {
    RunInv(net, ws, steps, i);
    RunStep(net, ws, steps, i);
    WrittenOrigin(net, ws[i], steps[i], k);
    SentTracks(net, ws[i], steps[i], n, k, LastPublished(net, ws, steps, steps[i].n, k, i));
  }

  lemma TracksNext(net: Net, ws: seq<World>, steps: seq<Step>, j: nat, n: nat, o: nat, k: CacheKey)
    requires Faithful(net) && Execution(net, ws, steps) && j < |steps| && TracksAt(net, ws, steps, j, n, o, k)
    ensures TracksAt(net, ws, steps, j + 1, n, o, k)
  {
    RunInv(net, ws, steps, j);
    RunStep(net, ws, steps, j);
    TracksStep(net, ws[j], steps[j], n, o, k,
               LastPublished(net, ws, steps, o, k, j), Lost(net, ws, steps, o, k, j));
  }

  lemma {:induction false} HoldsOn(holds: seq<bool>, i: nat, j: nat)
    requires i <= j < |holds| && holds[i]
    requires forall m :: 0 <= m < |holds| - 1 && holds[m] ==> holds[m + 1]
    ensures holds[j]
    decreases j - i
  {
    if i < j {
      HoldsOn(holds, i, j - 1);
    }
  }

  lemma TracksLater(net: Net, ws: seq<World>, steps: seq<Step>, i: nat, j: nat, n: nat, o: nat, k: CacheKey)
    requires Faithful(net) && Execution(net, ws, steps) && i <= j < |ws| && TracksAt(net, ws, steps, i, n, o, k)
    ensures TracksAt(net, ws, steps, j, n, o, k)
  {
    ghost var holds := seq(|ws|, m requires 0 <= m < |ws| => TracksAt(net, ws, steps, m, n, o, k));
    forall m | 0 <= m < |holds| - 1 && holds[m]
      ensures holds[m + 1]
    {
      TracksNext(net, ws, steps, m, n, o, k);
    }
    HoldsOn(holds, i, j);
  }

  /** From a publication on, a subscribed reader tracks the publisher in every later state. */
  lemma RunTracks(net: Net, ws: seq<World>, steps: seq<Step>, i: nat, j: nat, n: nat, k: CacheKey)
    requires Faithful(net) && Execution(net, ws, steps) && SharedWith(net, ws, steps, i, n, k) && i < j < |ws|
    ensures TracksAt(net, ws, steps, j, n, steps[i].n, k)
  {
    TracksFirst(net, ws, steps, i, n, k);
    TracksLater(net, ws, steps, i + 1, j, n, steps[i].n, k);
  }

  /** Convergence. Once a node has published an event for a key, by dispatch or by dump, while
      another node was subscribed, then in every later state that reader's cache, after it has
      drained its inbox and the publisher's queue has been dispatched, holds for that key what the
      publisher's cache holds if and only if it recovers from what the publisher has lost. */
  lemma ConvergenceIff(net: Net, ws: seq<World>, steps: seq<Step>, i: nat, j: nat, n: nat, k: CacheKey, junk: Eid)
    requires Faithful(net) && Execution(net, ws, steps) && SharedWith(net, ws, steps, i, n, k) && i < j < |ws|
    ensures |ws[j]| == |net.eids| && n < |net.eids| && steps[i].n < |net.eids|
    ensures var o := steps[i].n;
            && k in ws[j][o].cache
            && (Latest(net, Get(Drain(net, n, junk, ws[j][n].cache, ws[j][n].inbox), k), ws[j][o].queue, k)
                == Some(ws[j][o].cache[k])
                <==> Recovers(net, ws[j][o].queue, k,
                              LastPublished(net, ws, steps, o, k, j), Lost(net, ws, steps, o, k, j)))
  {
    var o := steps[i].n;
    RunTracks(net, ws, steps, i, j, n, k);
    TracksIff(net, ws[j][n], ws[j][o], k, LastPublished(net, ws, steps, o, k, j), Lost(net, ws, steps, o, k, j));
    RunInv(net, ws, steps, j);
    DrainView(net, ws[j], n, o, junk, k);
  }

  lemma LosesNothing(net: Net, ws: seq<World>, steps: seq<Step>, j: nat, o: nat, k: CacheKey)
    requires Execution(net, ws, steps) && j < |steps| && o < |ws[j]| && ws[j][o].subscribed
    ensures o < |ws[j + 1]| && ws[j + 1][o].subscribed
    ensures Lost(net, ws, steps, o, k, j) == [] ==> Lost(net, ws, steps, o, k, j + 1) == []
    ensures steps[j].n == o && k in WrittenKeys(net, Sends(net, ws[j], steps[j])) ==>
        Lost(net, ws, steps, o, k, j + 1) == []
  {
    RunStep(net, ws, steps, j);
    NextNode(net, ws[j], steps[j], o);
  }

  ghost predicate LostNothing(net: Net, ws: seq<World>, steps: seq<Step>, j: nat, o: nat, k: CacheKey)
    requires Execution(net, ws, steps) && j < |ws|
  {
    o < |ws[j]| && ws[j][o].subscribed && Lost(net, ws, steps, o, k, j) == []
  }

  lemma LostNext(net: Net, ws: seq<World>, steps: seq<Step>, j: nat, o: nat, k: CacheKey)
    requires Execution(net, ws, steps) && j < |steps| && LostNothing(net, ws, steps, j, o, k)
    ensures LostNothing(net, ws, steps, j + 1, o, k)
  {
    LosesNothing(net, ws, steps, j, o, k);
  }

  lemma LostFirst(net: Net, ws: seq<World>, steps: seq<Step>, i: nat, o: nat, k: CacheKey)
    requires Execution(net, ws, steps) && i < |steps| && o < |ws[i]| && ws[i][o].subscribed
    requires steps[i].n == o && k in WrittenKeys(net, Sends(net, ws[i], steps[i]))
    ensures LostNothing(net, ws, steps, i + 1, o, k)
  {
    LosesNothing(net, ws, steps, i, o, k);
  }

  lemma LostLater(net: Net, ws: seq<World>, steps: seq<Step>, i: nat, j: nat, o: nat, k: CacheKey)
    requires Execution(net, ws, steps) && i <= j < |ws| && LostNothing(net, ws, steps, i, o, k)
    ensures LostNothing(net, ws, steps, j, o, k)
  {
    ghost var holds := seq(|ws|, m requires 0 <= m < |ws| => LostNothing(net, ws, steps, m, o, k));
    forall m | 0 <= m < |holds| - 1 && holds[m]
      ensures holds[m + 1]
    {
      LostNext(net, ws, steps, m, o, k);
    }
    HoldsOn(holds, i, j);
  }

  /** A subscribed publisher loses nothing. */
  lemma NothingLost(net: Net, ws: seq<World>, steps: seq<Step>, i: nat, j: nat, o: nat, k: CacheKey)
    requires Execution(net, ws, steps) && i < j < |ws| && o < |ws[i]| && ws[i][o].subscribed
    requires steps[i].n == o && k in WrittenKeys(net, Sends(net, ws[i], steps[i]))
    ensures LostNothing(net, ws, steps, j, o, k)
  {
    LostFirst(net, ws, steps, i, o, k);
    LostLater(net, ws, steps, i + 1, j, o, k);
  }

  /** With the publisher subscribed, replicas always converge. */
  lemma Convergence(net: Net, ws: seq<World>, steps: seq<Step>, i: nat, j: nat, n: nat, k: CacheKey, junk: Eid)
    requires Faithful(net) && Execution(net, ws, steps) && SharedWith(net, ws, steps, i, n, k) && i < j < |ws|
    requires ws[i][steps[i].n].subscribed
    ensures |ws[j]| == |net.eids| && n < |net.eids| && steps[i].n < |net.eids|
    ensures var o := steps[i].n;
            && k in ws[j][o].cache
            && Latest(net, Get(Drain(net, n, junk, ws[j][n].cache, ws[j][n].inbox), k), ws[j][o].queue, k)
               == Some(ws[j][o].cache[k])
  {
    ConvergenceIff(net, ws, steps, i, j, n, k, junk);
    NothingLost(net, ws, steps, i, j, steps[i].n, k);
  }

  /** A key that was never published to a subscribed reader is in no view of that reader. */
  lemma {:induction false} NeverShared(net: Net, ws: seq<World>, steps: seq<Step>, j: nat, n: nat, o: nat,
                                       k: CacheKey, junk: Eid)
    requires Faithful(net) && Execution(net, ws, steps) && j < |ws| && n < |net.eids| && o < |net.eids| && n != o
    requires k.origin == Some(net.eids[o])
    requires forall i :: 0 <= i < j ==> !SharedWith(net, ws, steps, i, n, k)
    ensures |ws[j]| == |net.eids|
    ensures View(net, ws[j][n], k) == None && Get(Drain(net, n, junk, ws[j][n].cache, ws[j][n].inbox), k) == None
  {
    RunInv(net, ws, steps, j);
    if j > 0 {
      NeverShared(net, ws, steps, j - 1, n, o, k, junk);
      RunInv(net, ws, steps, j - 1);
      RunStep(net, ws, steps, j - 1);
      assert !SharedWith(net, ws, steps, j - 1, n, k);
      UnsharedStep(net, ws[j - 1], steps[j - 1], n, o, k);
    }
    DrainView(net, ws[j], n, o, junk, k);
  }

  lemma UnsharedStep(net: Net, w: World, s: Step, n: nat, o: nat, k: CacheKey)
    requires Faithful(net) && Inv(net, w) && Enabled(net, w, s) && n < |w| && o < |w| && n != o
    requires k.origin == Some(net.eids[o])
    requires n != s.n && w[n].subscribed ==> k !in WrittenKeys(net, Sends(net, w, s))
    ensures View(net, Next(net, w, s)[n], k) == View(net, w[n], k)
  {
    var ps := Sends(net, w, s);
    NextNode(net, w, s, n);
    SendsOk(net, w, s);
    ViewHear(net, if n == s.n then Acting(net, w, s) else w[n], ps, k);
    if n == s.n {
      ForeignPackets(net, ps, s.n, o, View(net, w[n], k), k);
      ViewActing(net, w, s, o, k);
    } else if w[n].subscribed {
      UnsentSkips(net, ps, View(net, w[n], k), k);
    }
  }

  /** No messages under way and nothing left to dispatch. */
  predicate Quiet(w: World) {
    forall n :: 0 <= n < |w| ==> w[n].inbox == [] && w[n].queue == []
  }

  /** Reader `n` and origin `o` both hold the key, and they agree on it if and only if the origin
      lost nothing for it since it last published it, or lost last the very event it published. */
  ghost predicate AgreeExactly(net: Net, ws: seq<World>, steps: seq<Step>, j: nat, n: nat, o: nat, k: CacheKey)
    requires Execution(net, ws, steps) && j < |ws|
  {
    var lost := Lost(net, ws, steps, o, k, j);
    && |ws[j]| == |net.eids| && n < |net.eids| && o < |net.eids|
    && k in ws[j][n].cache && k in ws[j][o].cache
    && (ws[j][n].cache[k] == ws[j][o].cache[k]
        <==> lost == [] || LastPublished(net, ws, steps, o, k, j) == Some(lost[|lost| - 1]))
  }

  /** In a quiet state a reader holds every key it was sent, and the replicas agree exactly under
      that condition. */
  lemma QuietAgreement(net: Net, ws: seq<World>, steps: seq<Step>, i: nat, j: nat, n: nat, k: CacheKey)
    requires Faithful(net) && Execution(net, ws, steps) && SharedWith(net, ws, steps, i, n, k) && i < j < |ws|
    requires Quiet(ws[j])
    ensures AgreeExactly(net, ws, steps, j, n, steps[i].n, k)
  {
    TracksFirst(net, ws, steps, i, n, k);
    QuietLater(net, ws, steps, i + 1, j, n, steps[i].n, k);
  }

  lemma QuietLater(net: Net, ws: seq<World>, steps: seq<Step>, i: nat, j: nat, n: nat, o: nat, k: CacheKey)
    requires Faithful(net) && Execution(net, ws, steps) && i <= j < |ws| && TracksAt(net, ws, steps, i, n, o, k)
    requires Quiet(ws[j])
    ensures AgreeExactly(net, ws, steps, j, n, o, k)
  {
    TracksLater(net, ws, steps, i, j, n, o, k);
    QuietAt(net, ws, steps, j, n, o, k);
  }

  lemma QuietAt(net: Net, ws: seq<World>, steps: seq<Step>, j: nat, n: nat, o: nat, k: CacheKey)
    requires Execution(net, ws, steps) && j < |ws| && TracksAt(net, ws, steps, j, n, o, k) && Quiet(ws[j])
    ensures AgreeExactly(net, ws, steps, j, n, o, k)
  {
    var last, lost := LastPublished(net, ws, steps, o, k, j), Lost(net, ws, steps, o, k, j);
    TracksOf(net, ws, steps, j, n, o, k, ws[j][n], ws[j][o], last, lost);
    QuietTracks(net, ws[j][n], ws[j][o], k, last, lost);
  }

  lemma TracksOf(net: Net, ws: seq<World>, steps: seq<Step>, j: nat, n: nat, o: nat, k: CacheKey,
                 reader: Node, origin: Node, last: Option<Event>, lost: seq<Event>)
    requires Execution(net, ws, steps) && j < |ws| && TracksAt(net, ws, steps, j, n, o, k) && Quiet(ws[j])
    requires reader == ws[j][n] && origin == ws[j][o]
    requires last == LastPublished(net, ws, steps, o, k, j) && lost == Lost(net, ws, steps, o, k, j)
    ensures Tracks(net, reader, origin, k, last, lost) && reader.inbox == [] && origin.queue == []
  {
  }

  lemma QuietTracks(net: Net, reader: Node, origin: Node, k: CacheKey, last: Option<Event>, lost: seq<Event>)
    requires Tracks(net, reader, origin, k, last, lost) && reader.inbox == [] && origin.queue == []
    ensures k in reader.cache && k in origin.cache
    ensures reader.cache[k] == origin.cache[k] <==> lost == [] || last == Some(lost[|lost| - 1])
  {
    TracksIff(net, reader, origin, k, last, lost);
  }

  // ---------------------------------------------------------------- a start-up that loses an event

  /** A step that sends nothing changes the acting node only. */
  lemma NextQuietly(net: Net, w: World, s: Step)
    requires Enabled(net, w, s) && Sends(net, w, s) == []
    ensures Next(net, w, s) == w[s.n := Acting(net, w, s)]
  {
    forall m | 0 <= m < |w|
      ensures Next(net, w, s)[m] == if m == s.n then Acting(net, w, s) else w[m]
    {
      NextNode(net, w, s, m);
    }
  }

  lemma DumpOne(net: Net, n: nat, e: Event)
    requires Faithful(net) && n < |net.eids| && net.sendable(n, e) && net.published(e.etype)
    ensures net.publish(n, e).Some?
    ensures net.dump(n, [e]) == [e]
    ensures Packets(net, n, net.dump(n, [e])) == [Packet(net.publish(n, e).value, n, e)]
  {
    var d := net.dump(n, [e]);
    assert e in d && Distinct(d);
    assert forall i :: 0 <= i < |d| ==> d[i] in d;
    assert d[0] == e == d[|d| - 1];
    OnePacket(net, n, e);
  }

  function RacingNode(e1: Event): Node {
    EMPTY_NODE.(queue := [e1], posted := [e1])
  }

  lemma NextOfTwo(net: Net, w: World, s: Step, node: Node, ps: seq<Packet>)
    requires Enabled(net, w, s) && |w| == 2 && s.n == 0 && Acting(net, w, s) == node && Sends(net, w, s) == ps
    ensures Next(net, w, s) == [Hear(node, ps), Hear(w[1], ps)]
  {
    NextNode(net, w, s, 0);
    NextNode(net, w, s, 1);
  }

  lemma DumpActs(net: Net, w: World, e1: Event, p: Packet)
    requires Faithful(net) && |net.eids| == 2 && net.sendable(0, e1) && net.published(e1.etype)
    requires |w| == 2 && w[0].sent == [] && w[0].dumped == 0 && net.publish(0, e1) == Some(p.wire)
    requires p.sender == 0 && p.original == e1
    ensures var s := Dump(0, [e1]);
            Sends(net, w, s) == [p] && Acting(net, w, s) == w[0].(sent := [e1], dumped := 1)
  {
    DumpOne(net, 0, e1);
    assert Originals([p]) == [e1] && [] + [e1] == [e1];
  }

  lemma RaceListing(net: Net, w: World, e1: Event)
    requires Faithful(net) && |net.eids| == 2 && net.sendable(0, e1) && net.published(e1.etype)
    requires |w| == 2 && w[0].cache == map[net.key(e1) := e1]
    ensures net.publish(0, e1).Some? && Enabled(net, w, Dump(0, [e1]))
  {
    DumpOne(net, 0, e1);
  }

  lemma RaceDump(net: Net, w: World, e1: Event)
    requires Faithful(net) && |net.eids| == 2 && net.sendable(0, e1) && net.flag(e1) && net.published(e1.etype)
    requires w == [RacingNode(e1).(cache := map[net.key(e1) := e1]), EMPTY_NODE.(subscribed := true)]
    ensures net.publish(0, e1).Some? && Enabled(net, w, Dump(0, [e1]))
    ensures Next(net, w, Dump(0, [e1]))
         == [w[0].(sent := [e1], dumped := 1), w[1].(inbox := [Packet(net.publish(0, e1).value, 0, e1)])]
  {
    RaceListing(net, w, e1);
    var p := Packet(net.publish(0, e1).value, 0, e1);
    DumpActs(net, w, e1, p);
    NextOfTwo(net, w, Dump(0, [e1]), w[0].(sent := [e1], dumped := 1), [p]);
    assert [] + [p] == [p];
  }

  lemma RacePost(net: Net, w: World, e: Event, k: CacheKey, queue: seq<Event>, cache: map<CacheKey, Event>)
    requires Faithful(net) && |w| == 2 && net.sendable(0, e) && net.flag(e) && net.key(e) == k
    requires queue == w[0].queue + [e] && w[0].posted == w[0].queue && cache == w[0].cache[k := e]
    ensures Enabled(net, w, Post(0, e))
    ensures Next(net, w, Post(0, e)) == [w[0].(queue := queue, posted := queue, cache := cache), w[1]]
  {
    NextQuietly(net, w, Post(0, e));
  }

  lemma Extended(net: Net, ws: seq<World>, steps: seq<Step>, s: Step)
    requires Execution(net, ws, steps) && Enabled(net, ws[|steps|], s)
    ensures Execution(net, ws + [Next(net, ws[|steps|], s)], steps + [s])
  {
    var w := Next(net, ws[|steps|], s);
    forall i | 0 <= i < |steps| + 1
      ensures Enabled(net, (ws + [w])[i], (steps + [s])[i])
      ensures (ws + [w])[i + 1] == Next(net, (ws + [w])[i], (steps + [s])[i])
    {
      if i < |steps| {
        RunStep(net, ws, steps, i);
      }
    }
  }

  lemma RaceStarts(net: Net, e1: Event) returns (ws: seq<World>, steps: seq<Step>)
    requires Faithful(net) && |net.eids| == 2 && net.sendable(0, e1) && net.flag(e1)
    ensures Execution(net, ws, steps) && |steps| == 2
    ensures ws[2] == [RacingNode(e1).(cache := map[net.key(e1) := e1]), EMPTY_NODE.(subscribed := true)]
  {
    var w0: World := [EMPTY_NODE, EMPTY_NODE];
    var w1: World := [EMPTY_NODE, EMPTY_NODE.(subscribed := true)];
    NextQuietly(net, w0, Join(1));
    assert Next(net, w0, Join(1)) == w1;
    RacePost(net, w1, e1, net.key(e1), [e1], map[net.key(e1) := e1]);
    ws, steps := [w0, w1, Next(net, w1, Post(0, e1))], [Join(1), Post(0, e1)];
  }

  /** Node 0 posts and dumps an event before its own subscription exists. */
  lemma RaceDumps(net: Net, e1: Event) returns (ws: seq<World>, steps: seq<Step>)
    requires Faithful(net) && |net.eids| == 2 && net.sendable(0, e1) && net.flag(e1) && net.published(e1.etype)
    ensures Execution(net, ws, steps) && |steps| == 3 && net.publish(0, e1).Some?
    ensures ws[3] == [Node(map[net.key(e1) := e1], [e1], [], false, [e1], [], [e1], 1, 0),
                      EMPTY_NODE.(subscribed := true, inbox := [Packet(net.publish(0, e1).value, 0, e1)])]
  {
    ws, steps := RaceStarts(net, e1);
    RaceDump(net, ws[2], e1);
    Extended(net, ws, steps, Dump(0, [e1]));
    ws, steps := ws + [Next(net, ws[2], Dump(0, [e1]))], steps + [Dump(0, [e1])];
  }

  /** The first half of the race: after the dump node 0 posts a newer event for the same key. */
  lemma RaceBegins(net: Net, e1: Event, e2: Event) returns (ws: seq<World>, steps: seq<Step>)
    requires Faithful(net) && |net.eids| == 2 && net.sendable(0, e1) && net.sendable(0, e2)
    requires net.key(e1) == net.key(e2) && net.flag(e1) && net.flag(e2) && net.published(e1.etype)
    ensures Execution(net, ws, steps) && |steps| == 4
    ensures net.publish(0, e1).Some? && net.publish(0, e2).Some?
    ensures ws[4] == [Node(map[net.key(e1) := e2], [e1, e2], [], false, [e1, e2], [], [e1], 1, 0),
                      EMPTY_NODE.(subscribed := true, inbox := [Packet(net.publish(0, e1).value, 0, e1)])]
  {
    SameType(net, e1, e2);
    ws, steps := RaceDumps(net, e1);
    RacePost(net, ws[3], e2, net.key(e1), [e1, e2], map[net.key(e1) := e2]);
    Extended(net, ws, steps, Post(0, e2));
    ws, steps := ws + [Next(net, ws[3], Post(0, e2))], steps + [Post(0, e2)];
  }

  lemma SameType(net: Net, e1: Event, e2: Event)
    requires Faithful(net) && |net.eids| > 0 && net.sendable(0, e1) && net.sendable(0, e2)
    requires net.key(e1) == net.key(e2) && net.published(e1.etype)
    ensures net.publish(0, e2).Some?
  {
    assert net.key(e1).etype == e1.etype && net.key(e2).etype == e2.etype;
  }

  /** Before it subscribes, a node drops what it dispatches. */
  lemma RaceDrop(net: Net, ws: seq<World>, steps: seq<Step>, e: Event, rest: seq<Event>)
    returns (ws': seq<World>, steps': seq<Step>)
    requires Execution(net, ws, steps) && |ws[|steps|]| == 2 && net.publish(0, e).Some?
    requires var o := ws[|steps|][0]; o.queue == [e] + rest && !o.subscribed
    ensures Execution(net, ws', steps')
    ensures var o := ws[|steps|][0];
            ws'[|steps'|] == [o.(queue := rest, dropped := o.dropped + 1), ws[|steps|][1]]
  {
    var w := ws[|steps|];
    assert w[0].queue[1..] == rest;
    NextQuietly(net, w, Dispatch(0));
    Extended(net, ws, steps, Dispatch(0));
    ws', steps' := ws + [Next(net, w, Dispatch(0))], steps + [Dispatch(0)];
  }

  lemma RaceJoin(net: Net, ws: seq<World>, steps: seq<Step>) returns (ws': seq<World>, steps': seq<Step>)
    requires Execution(net, ws, steps) && |ws[|steps|]| == 2 && !ws[|steps|][0].subscribed
    ensures Execution(net, ws', steps')
    ensures ws'[|steps'|] == [ws[|steps|][0].(subscribed := true), ws[|steps|][1]]
  {
    var w := ws[|steps|];
    NextQuietly(net, w, Join(0));
    Extended(net, ws, steps, Join(0));
    ws', steps' := ws + [Next(net, w, Join(0))], steps + [Join(0)];
  }

  lemma RaceDrops(net: Net, ws: seq<World>, steps: seq<Step>, e1: Event, e2: Event)
    returns (ws': seq<World>, steps': seq<Step>)
    requires Execution(net, ws, steps) && |ws[|steps|]| == 2
    requires net.publish(0, e1).Some? && net.publish(0, e2).Some?
    requires var o := ws[|steps|][0]; o.queue == [e1, e2] && !o.subscribed && o.dropped == 0
    ensures Execution(net, ws', steps')
    ensures ws'[|steps'|] == [ws[|steps|][0].(queue := [], dropped := 2, subscribed := true), ws[|steps|][1]]
  {
    assert [e1, e2] == [e1] + [e2] && [e2] == [e2] + [];
    ws', steps' := RaceDrop(net, ws, steps, e1, [e2]);
    ws', steps' := RaceDrop(net, ws', steps', e2, []);
    ws', steps' := RaceJoin(net, ws', steps');
  }

  /** The reader accepts the dumped event. */
  lemma RaceReads(net: Net, ws: seq<World>, steps: seq<Step>, e1: Event, junk: Eid)
    returns (ws': seq<World>, steps': seq<Step>)
    requires Faithful(net) && |net.eids| == 2 && net.sendable(0, e1) && net.flag(e1) && net.publish(0, e1).Some?
    requires Execution(net, ws, steps) && |ws[|steps|]| == 2
    requires ws[|steps|][1] == EMPTY_NODE.(subscribed := true, inbox := [Packet(net.publish(0, e1).value, 0, e1)])
    ensures Execution(net, ws', steps')
    ensures ws'[|steps'|] == [ws[|steps|][0], EMPTY_NODE.(subscribed := true, queue := [e1], accepted := [e1],
                                                          cache := map[net.key(e1) := e1])]
  {
    var w := ws[|steps|];
    var s := Deliver(1, 0, junk);
    NextQuietly(net, w, s);
    assert net.receive(1, junk, w[1].inbox[0].wire) == Accepted(e1, true);
    assert [] + [e1] == [e1] && Without(w[1].inbox, 0) == [];
    Extended(net, ws, steps, s);
    ws', steps' := ws + [Next(net, w, s)], steps + [s];
  }

  /** It has nothing to publish. */
  lemma RaceEnds(net: Net, ws: seq<World>, steps: seq<Step>, e1: Event) returns (ws': seq<World>, steps': seq<Step>)
    requires Faithful(net) && |net.eids| == 2 && net.sendable(0, e1)
    requires Execution(net, ws, steps) && |ws[|steps|]| == 2 && ws[|steps|][1].queue == [e1]
    ensures Execution(net, ws', steps')
    ensures ws'[|steps'|] == [ws[|steps|][0], ws[|steps|][1].(queue := [])]
  {
    var w := ws[|steps|];
    assert net.publish(1, e1).None? && [e1][..0] == [] && [e1][1..] == [];
    assert Packets(net, 1, [e1]) == [];
    NextQuietly(net, w, Dispatch(1));
    Extended(net, ws, steps, Dispatch(1));
    ws', steps' := ws + [Next(net, w, Dispatch(1))], steps + [Dispatch(1)];
  }

  /** The condition does fail. What a node dumps before it subscribes reaches the others, but what
      it dispatches before it subscribes does not: in this run everybody ends up subscribed,
      nothing is under way, and the replicas differ. */
  lemma StartupRace(net: Net, e1: Event, e2: Event, junk: Eid) returns (ws: seq<World>, steps: seq<Step>)
    requires Faithful(net) && |net.eids| == 2 && net.sendable(0, e1) && net.sendable(0, e2) && e1 != e2
    requires net.key(e1) == net.key(e2) && net.flag(e1) && net.flag(e2) && net.published(e1.etype)
    ensures Execution(net, ws, steps)
    ensures var w := ws[|steps|];
            && |w| == 2 && Quiet(w) && w[0].subscribed && w[1].subscribed
            && w[0].cache == map[net.key(e1) := e2] && w[1].cache == map[net.key(e1) := e1]
  {
    ws, steps := RaceBegins(net, e1, e2);
    ws, steps := RaceDrops(net, ws, steps, e1, e2);
    ws, steps := RaceReads(net, ws, steps, e1, junk);
    ws, steps := RaceEnds(net, ws, steps, e1);
  }
}

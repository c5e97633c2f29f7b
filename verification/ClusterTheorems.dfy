/** What else holds over whole runs of the cluster: catch-up, no forwarding, conservation of
    publications, and the end of every exchange. */
module ClusterTheorems {
  import opened CText
  import opened EventCodec
  import opened ResRedis
  import opened Cluster
  import opened Convergence

  // ---------------------------------------------------------------- deliveries are harmless

  /** No delivery of any run meets undefined behaviour; echoes are dropped, and every other
      message is accepted as the event its sender posted. */
  lemma DeliveriesDefined(net: Net, ws: seq<World>, steps: seq<Step>, i: nat)
    requires Faithful(net) && Execution(net, ws, steps) && i < |steps| && steps[i].Deliver?
    ensures var s := steps[i];
            var p := ws[i][s.n].inbox[s.i];
            var r := net.receive(s.n, s.junk, p.wire);
            && p.sender < |net.eids|
            && net.key(p.original).origin == Some(net.eids[p.sender])
            && (if p.sender == s.n then r == Echo && ws[i + 1][s.n].cache == ws[i][s.n].cache
                                        && ws[i + 1][s.n].queue == ws[i][s.n].queue
                else r == Accepted(p.original, net.flag(p.original)))
  {
    RunInv(net, ws, steps, i);
    var s := steps[i];
    RunStep(net, ws, steps, i);
    Arrival(net, ws[i], s);
    NextNode(net, ws[i], s, s.n);
    assert NodeOk(net, s.n, ws[i][s.n]) && PacketOk(net, ws[i][s.n].inbox[s.i]);
  }

  /** Any message that no earlier one of its channel precedes may be read next: messages of
      different channels overtake each other. */
  lemma MayOvertake(net: Net, w: World, n: nat, i: nat, junk: Eid)
    requires n < |w| && i < |w[n].inbox|
    ensures Enabled(net, w, Deliver(n, i, junk))
            <==> forall j :: 0 <= j < i ==> w[n].inbox[j].wire.channel != w[n].inbox[i].wire.channel
  {
  }

  // ---------------------------------------------------------------- catch-up by dump

  /** In every state of every run a reader's drained view of a node holds only keys of published
      types that the node holds itself. */
  lemma SubsetOfOrigin(net: Net, ws: seq<World>, steps: seq<Step>, i: nat, n: nat, o: nat, junk: Eid, k: CacheKey)
    requires Faithful(net) && Execution(net, ws, steps) && i < |ws|
    requires n < |net.eids| && o < |net.eids| && n != o && k.origin == Some(net.eids[o])
    ensures |ws[i]| == |net.eids|
    ensures k in ws[i][n].cache || k in Drain(net, n, junk, ws[i][n].cache, ws[i][n].inbox) ==>
              k in ws[i][o].cache && net.published(k.etype)
  {
    RunInv(net, ws, steps, i);
    assert PairOk(net, ws[i], n, o);
    DrainView(net, ws[i], n, o, junk, k);
    if k !in ws[i][o].cache || !net.published(k.etype) {
      ViewSubset(net, ws[i], n, o, k);
    }
  }

  /** Catch-up. After a dump, the drained view of the dumping node at every subscribed reader is
      exactly that node's own cache for the published types, whatever the reader missed before. */
  lemma CatchUp(net: Net, ws: seq<World>, steps: seq<Step>, i: nat, n: nat, junk: Eid, k: CacheKey)
    requires Faithful(net) && Execution(net, ws, steps) && i < |steps| && steps[i].Dump? && n < |net.eids|
    requires |ws[i]| == |net.eids| && Enabled(net, ws[i], steps[i])
    requires n != steps[i].n && ws[i][n].subscribed && k.origin == Some(net.eids[steps[i].n])
    ensures |ws[i + 1]| == |net.eids|
    ensures Get(Drain(net, n, junk, ws[i + 1][n].cache, ws[i + 1][n].inbox), k)
         == if net.published(k.etype) then Get(ws[i + 1][steps[i].n].cache, k) else None
  {
    var s, o := steps[i], steps[i].n;
    RunInv(net, ws, steps, i);
    RunInv(net, ws, steps, i + 1);
    RunStep(net, ws, steps, i);
    NextNode(net, ws[i], s, n);
    NextNode(net, ws[i], s, o);
    DrainView(net, ws[i + 1], n, o, junk, k);
    ViewHear(net, ws[i][n], Sends(net, ws[i], s), k);
    DumpWrites(net, ws[i], s, View(net, ws[i][n], k), k);
    if k !in ws[i][o].cache || !net.published(k.etype) {
      ViewSubset(net, ws[i], n, o, k);
    }
  }

  /** A key its origin does not hold, or does not share, is in no view of it. */
  lemma ViewSubset(net: Net, w: World, n: nat, o: nat, k: CacheKey)
    requires Faithful(net) && Inv(net, w) && n < |w| && o < |w| && n != o && k.origin == Some(net.eids[o])
    requires k !in w[o].cache || !net.published(k.etype)
    ensures View(net, w[n], k) == None
  {
    assert PairOk(net, w, n, o) && NodeOk(net, n, w[n]);
    var es := Originals(w[n].inbox);
    forall i | 0 <= i < |es|
      ensures !Writes(net, es[i], k)
    {
      assert PacketOk(net, w[n].inbox[i]);
    }
    LatestSkip(net, Get(w[n].cache, k), es, k);
  }

  /** Dumping again changes no reader's drained view. */
  lemma DumpIdempotent(net: Net, ws: seq<World>, steps: seq<Step>, i: nat, n: nat, junk: Eid, k: CacheKey)
    requires Faithful(net) && Execution(net, ws, steps) && i + 1 < |steps|
    requires steps[i].Dump? && steps[i + 1].Dump? && steps[i].n == steps[i + 1].n
    requires |ws[i]| == |ws[i + 1]| == |net.eids| && n < |net.eids|
    requires Enabled(net, ws[i], steps[i]) && Enabled(net, ws[i + 1], steps[i + 1])
    requires n != steps[i].n && ws[i][n].subscribed && k.origin == Some(net.eids[steps[i].n])
    ensures |ws[i + 2]| == |net.eids|
    ensures Get(Drain(net, n, junk, ws[i + 2][n].cache, ws[i + 2][n].inbox), k)
         == Get(Drain(net, n, junk, ws[i + 1][n].cache, ws[i + 1][n].inbox), k)
  {
    var o := steps[i].n;
    RunStep(net, ws, steps, i);
    NextNode(net, ws[i], steps[i], n);
    CatchUp(net, ws, steps, i, n, junk, k);
    CatchUp(net, ws, steps, i + 1, n, junk, k);
    RunStep(net, ws, steps, i + 1);
    NextNode(net, ws[i + 1], steps[i + 1], o);
  }

  // ---------------------------------------------------------------- no forwarding

  ghost predicate Foreign(net: Net, n: nat, e: Event) {
    exists o: nat :: o < |net.eids| && o != n && net.sendable(o, e)
  }

  ghost predicate HistoryOk(net: Net, n: nat, node: Node) {
    && (forall e :: e in node.posted ==> net.sendable(n, e))
    && (forall e :: e in node.accepted ==> Foreign(net, n, e))
    && (forall e :: e in node.queue ==> e in node.posted || e in node.accepted)
    && (forall k :: k in node.cache ==> node.cache[k] in node.posted || node.cache[k] in node.accepted)
    && (forall e :: e in node.sent ==> e in node.posted)
  }

  ghost predicate InFlight(net: Net, w: World, p: Packet) {
    p.sender < |w| && p.original in w[p.sender].sent
  }

  ghost predicate History(net: Net, w: World) {
    && (forall n :: 0 <= n < |w| ==> HistoryOk(net, n, w[n]))
    && (forall n, p :: 0 <= n < |w| && p in w[n].inbox ==> InFlight(net, w, p))
  }

  lemma SendsPosted(net: Net, w: World, s: Step)
    requires Faithful(net) && Inv(net, w) && History(net, w) && Enabled(net, w, s)
    ensures forall p :: p in Sends(net, w, s) ==>
              p.sender == s.n && p.original in w[s.n].posted && p.original in Acting(net, w, s).sent
  {
    var node := w[s.n];
    assert NodeOk(net, s.n, node) && HistoryOk(net, s.n, node);
    SendsOk(net, w, s);
    forall p | p in Sends(net, w, s)
      ensures p.original in w[s.n].posted && p.original in Acting(net, w, s).sent
    {
      assert PacketOk(net, p) && p.sender == s.n;
      if s.Dispatch? {
        PacketsFrom(net, s.n, [node.queue[0]]);
        NotForeign(net, s.n, node.queue[0]);
      } else {
        PacketsFrom(net, s.n, net.dump(s.n, s.listing));
        NotForeign(net, s.n, p.original);
        var ps := Packets(net, s.n, net.dump(s.n, s.listing));
        var i :| 0 <= i < |ps| && ps[i] == p;
        assert Originals(ps)[i] == p.original;
      }
    }
  }

  lemma NotForeign(net: Net, n: nat, e: Event)
    requires Originates(net) && n < |net.eids| && net.sendable(n, e)
    ensures !Foreign(net, n, e)
  {
    forall o: nat | o < |net.eids| && net.sendable(o, e)
      ensures o == n
    {
      SenderUnique(net, n, o, e);
    }
  }

  lemma HistoryDeliver(net: Net, w: World, s: Step)
    requires Faithful(net) && Inv(net, w) && Enabled(net, w, s) && s.Deliver? && HistoryOk(net, s.n, w[s.n])
    ensures HistoryOk(net, s.n, Acting(net, w, s))
  {
    var p := w[s.n].inbox[s.i];
    assert NodeOk(net, s.n, w[s.n]) && PacketOk(net, p);
    Arrival(net, w, s);
    assert p.sender != s.n ==> Foreign(net, s.n, p.original);
  }

  lemma HistorySend(net: Net, w: World, s: Step)
    requires Faithful(net) && Inv(net, w) && History(net, w) && Enabled(net, w, s) && (s.Dispatch? || s.Dump?)
    ensures HistoryOk(net, s.n, Acting(net, w, s))
  {
    var node := w[s.n];
    assert HistoryOk(net, s.n, node) && NodeOk(net, s.n, node);
    if s.Dispatch? {
      var e := node.queue[0];
      assert e in node.queue;
      if net.publish(s.n, e).Some? {
        assert Known(net, e);
        NotForeign(net, s.n, e);
      }
    } else {
      SendsPosted(net, w, s);
      var ps := Packets(net, s.n, net.dump(s.n, s.listing));
      forall e | e in Originals(ps)
        ensures e in node.posted
      {
        var i :| 0 <= i < |ps| && Originals(ps)[i] == e;
        assert ps[i] in ps;
      }
    }
  }

  lemma HistoryActing(net: Net, w: World, s: Step)
    requires Faithful(net) && Inv(net, w) && History(net, w) && Enabled(net, w, s)
    ensures HistoryOk(net, s.n, Acting(net, w, s))
  {
    assert HistoryOk(net, s.n, w[s.n]);
    if s.Deliver? {
      HistoryDeliver(net, w, s);
    } else if s.Dispatch? || s.Dump? {
      HistorySend(net, w, s);
    }
  }

  /** Histories only grow. */
  lemma SentGrows(net: Net, w: World, s: Step, m: nat, e: Event)
    requires Enabled(net, w, s) && m < |w| && e in w[m].sent
    ensures e in Next(net, w, s)[m].sent
  {
    NextNode(net, w, s, m);
  }

  lemma InFlightStep(net: Net, w: World, s: Step, n: nat, p: Packet)
    requires Faithful(net) && Inv(net, w) && History(net, w) && Enabled(net, w, s)
    requires n < |w| && p in Next(net, w, s)[n].inbox
    ensures InFlight(net, Next(net, w, s), p)
  {
    NewInInbox(net, w, s, n, p);
    if p in w[n].inbox {
      assert InFlight(net, w, p);
      SentGrows(net, w, s, p.sender, p.original);
    } else {
      SendsPosted(net, w, s);
      NextNode(net, w, s, s.n);
    }
  }

  lemma HistoryStep(net: Net, w: World, s: Step)
    requires Faithful(net) && Inv(net, w) && History(net, w) && Enabled(net, w, s)
    ensures History(net, Next(net, w, s))
  {
    var w' := Next(net, w, s);
    HistoryActing(net, w, s);
    forall n | 0 <= n < |w|
      ensures HistoryOk(net, n, w'[n])
    {
      NextNode(net, w, s, n);
      assert HistoryOk(net, n, w[n]);
    }
    forall n, p | 0 <= n < |w| && p in w'[n].inbox
      ensures InFlight(net, w', p)
    {
      InFlightStep(net, w, s, n, p);
    }
  }

  lemma {:induction false} RunHistory(net: Net, ws: seq<World>, steps: seq<Step>, i: nat)
    requires Faithful(net) && Execution(net, ws, steps) && i < |ws|
    ensures Inv(net, ws[i]) && History(net, ws[i])
  {
    RunInv(net, ws, steps, i);
    if i > 0 {
      RunHistory(net, ws, steps, i - 1);
      RunStep(net, ws, steps, i - 1);
      HistoryStep(net, ws[i - 1], steps[i - 1]);
    }
  }

  /** No forwarding, over whole runs: a node publishes only events it posted itself, never one it
      accepted; and every message under way was published by the node whose identifier it carries. */
  lemma NoForwarding(net: Net, ws: seq<World>, steps: seq<Step>, i: nat, n: nat)
    requires Faithful(net) && Execution(net, ws, steps) && i < |ws| && n < |net.eids|
    ensures |ws[i]| == |net.eids|
    ensures forall e :: e in ws[i][n].sent ==> e in ws[i][n].posted && e !in ws[i][n].accepted
    ensures forall p :: p in ws[i][n].inbox ==>
              && p.sender < |net.eids|
              && net.key(p.original).origin == Some(net.eids[p.sender])
              && p.original in ws[i][p.sender].sent
  {
    RunHistory(net, ws, steps, i);
    var node := ws[i][n];
    assert HistoryOk(net, n, node) && NodeOk(net, n, node);
    forall e | e in node.sent
      ensures e !in node.accepted
    {
      NotForeign(net, n, e);
    }
    forall p | p in node.inbox
      ensures p.sender < |net.eids| && net.key(p.original).origin == Some(net.eids[p.sender])
      ensures p.original in ws[i][p.sender].sent
    {
      assert PacketOk(net, p) && InFlight(net, ws[i], p);
    }
  }

  // ---------------------------------------------------------------- conservation

  /** Events among `es` that node `n` publishes when it dispatches them. */
  function Count(net: Net, n: nat, es: seq<Event>): nat {
    if es == [] then 0
    else Count(net, n, es[..|es| - 1]) + if net.publish(n, es[|es| - 1]).Some? then 1 else 0
  }

  lemma CountSnoc(net: Net, n: nat, es: seq<Event>, e: Event)
    ensures Count(net, n, es + [e]) == Count(net, n, es) + if net.publish(n, e).Some? then 1 else 0
  {
    assert (es + [e])[..|es|] == es;
  }

  lemma {:induction false} CountPop(net: Net, n: nat, es: seq<Event>)
    requires es != []
    ensures Count(net, n, es) == Count(net, n, es[1..]) + if net.publish(n, es[0]).Some? then 1 else 0
  {
    if |es| == 1 {
      assert es[..0] == [] && es[1..] == [];
    } else {
      var init, e := es[..|es| - 1], es[|es| - 1];
      CountPop(net, n, init);
      CountSnoc(net, n, init[1..], e);
      assert es[1..] == init[1..] + [e];
    }
  }

  ghost predicate Balanced(net: Net, n: nat, node: Node) {
    |node.sent| + node.dropped + Count(net, n, node.queue) == Count(net, n, node.posted) + node.dumped
  }

  lemma BalanceDeliver(net: Net, w: World, s: Step)
    requires Faithful(net) && Inv(net, w) && Enabled(net, w, s) && s.Deliver? && Balanced(net, s.n, w[s.n])
    ensures Balanced(net, s.n, Acting(net, w, s))
  {
    var node := w[s.n];
    Arrival(net, w, s);
    assert NodeOk(net, s.n, node) && PacketOk(net, node.inbox[s.i]);
    CountSnoc(net, s.n, node.queue, node.inbox[s.i].original);
  }

  lemma BalanceActing(net: Net, w: World, s: Step)
    requires Faithful(net) && Inv(net, w) && Enabled(net, w, s) && Balanced(net, s.n, w[s.n])
    ensures Balanced(net, s.n, Acting(net, w, s))
  {
    if s.Post? {
      CountSnoc(net, s.n, w[s.n].queue, s.e);
      CountSnoc(net, s.n, w[s.n].posted, s.e);
    } else if s.Dispatch? {
      CountPop(net, s.n, w[s.n].queue);
    } else if s.Deliver? {
      BalanceDeliver(net, w, s);
    }
  }

  lemma BalanceStep(net: Net, w: World, s: Step, n: nat)
    requires Faithful(net) && Inv(net, w) && Enabled(net, w, s) && n < |w| && Balanced(net, n, w[n])
    ensures Balanced(net, n, Next(net, w, s)[n])
  {
    NextNode(net, w, s, n);
    if n == s.n {
      BalanceActing(net, w, s);
    }
  }

  lemma BalanceNext(net: Net, ws: seq<World>, steps: seq<Step>, i: nat, n: nat)
    requires Faithful(net) && Execution(net, ws, steps) && i < |steps| && n < |net.eids|
    requires |ws[i]| == |net.eids| && Balanced(net, n, ws[i][n])
    ensures |ws[i + 1]| == |net.eids| && Balanced(net, n, ws[i + 1][n])
  {
    RunInv(net, ws, steps, i);
    RunStep(net, ws, steps, i);
    BalanceStep(net, ws[i], steps[i], n);
  }

  /** Conservation: a node's PUBLISH commands, the publishable events still in its queue and those
      dispatched before it subscribed add up to the publishable events posted locally plus the
      cache entries dumped. In particular nothing received ever adds to the count. */
  lemma {:induction false} PublishCount(net: Net, ws: seq<World>, steps: seq<Step>, i: nat, n: nat)
    requires Faithful(net) && Execution(net, ws, steps) && i < |ws| && n < |net.eids|
    ensures |ws[i]| == |net.eids| && Balanced(net, n, ws[i][n])
  {
    if i > 0 {
      PublishCount(net, ws, steps, i - 1, n);
      BalanceNext(net, ws, steps, i - 1, n);
    }
  }

  // ---------------------------------------------------------------- every exchange ends

  function Cost(net: Net, n: nat, e: Event): nat {
    if net.publish(n, e).Some? then 1 + 2 * |net.eids| else 1
  }

  function QueueCost(net: Net, n: nat, es: seq<Event>): nat {
    if es == [] then 0 else QueueCost(net, n, es[..|es| - 1]) + Cost(net, n, es[|es| - 1])
  }

  lemma QueueCostSnoc(net: Net, n: nat, es: seq<Event>, e: Event)
    ensures QueueCost(net, n, es + [e]) == QueueCost(net, n, es) + Cost(net, n, e)
  {
    assert (es + [e])[..|es|] == es;
  }

  lemma {:induction false} QueueCostPop(net: Net, n: nat, es: seq<Event>)
    requires es != []
    ensures QueueCost(net, n, es) == QueueCost(net, n, es[1..]) + Cost(net, n, es[0])
  {
    if |es| == 1 {
      assert es[..0] == [] && es[1..] == [];
    } else {
      var init, e := es[..|es| - 1], es[|es| - 1];
      QueueCostPop(net, n, init);
      QueueCostSnoc(net, n, init[1..], e);
      assert es[1..] == init[1..] + [e];
    }
  }

  function Weight(net: Net, n: nat, node: Node): nat {
    QueueCost(net, n, node.queue) + 2 * |node.inbox|
  }

  function LoadTo(net: Net, w: World, k: nat): nat
    requires k <= |w|
  {
    if k == 0 then 0 else LoadTo(net, w, k - 1) + Weight(net, k - 1, w[k - 1])
  }

  /** An upper bound on the dispatches and deliveries a state can still give rise to. */
  function Load(net: Net, w: World): nat {
    LoadTo(net, w, |w|)
  }

  /** One node drops by `x`, the others rise by at most `c`. */
  lemma {:induction false} LoadShift(net: Net, w: World, w': World, n: nat, c: nat, x: nat, k: nat)
    requires |w| == |w'| && k <= |w| && n < |w|
    requires forall m :: 0 <= m < |w| && m != n ==> Weight(net, m, w'[m]) <= Weight(net, m, w[m]) + c
    requires Weight(net, n, w'[n]) + x <= Weight(net, n, w[n])
    ensures LoadTo(net, w', k) + (if n < k then x + c else 0) <= LoadTo(net, w, k) + c * k
  {
    if k > 0 {
      LoadShift(net, w, w', n, c, x, k - 1);
      assert c * k == c * (k - 1) + c;
    }
  }

  predicate Settling(s: Step) {
    s.Dispatch? || s.Deliver?
  }

  lemma DispatchWeight(net: Net, w: World, s: Step)
    requires Enabled(net, w, s) && s.Dispatch? && |w| == |net.eids|
    ensures |Sends(net, w, s)| <= 1
    ensures Weight(net, s.n, Acting(net, w, s)) + 1 + (if Sends(net, w, s) == [] then 0 else 2 * |w|)
            <= Weight(net, s.n, w[s.n])
  {
    var queue := w[s.n].queue;
    QueueCostPop(net, s.n, queue);
    assert Packets(net, s.n, [queue[0]][..0]) == [];
  }

  lemma DeliverWeight(net: Net, w: World, s: Step)
    requires Faithful(net) && Inv(net, w) && Enabled(net, w, s) && s.Deliver?
    ensures Weight(net, s.n, Acting(net, w, s)) + 1 <= Weight(net, s.n, w[s.n])
  {
    var node := w[s.n];
    Arrival(net, w, s);
    assert NodeOk(net, s.n, node) && PacketOk(net, node.inbox[s.i]);
    QueueCostSnoc(net, s.n, node.queue, node.inbox[s.i].original);
  }

  lemma ActingWeight(net: Net, w: World, s: Step)
    requires Faithful(net) && Inv(net, w) && Enabled(net, w, s) && Settling(s)
    ensures |Sends(net, w, s)| <= 1
    ensures Weight(net, s.n, Acting(net, w, s)) + 1 + (if Sends(net, w, s) == [] then 0 else 2 * |w|)
            <= Weight(net, s.n, w[s.n])
  {
    if s.Dispatch? {
      DispatchWeight(net, w, s);
    } else {
      DeliverWeight(net, w, s);
    }
  }

  lemma HearWeight(net: Net, n: nat, node: Node, ps: seq<Packet>)
    ensures Weight(net, n, Hear(node, ps)) <= Weight(net, n, node) + 2 * |ps|
  {
  }

  /** The acting node pays for everything a dispatch or delivery puts into inboxes and queues. */
  lemma WeightStep(net: Net, w: World, s: Step)
    requires Faithful(net) && Inv(net, w) && Enabled(net, w, s) && Settling(s)
    ensures |Sends(net, w, s)| <= 1
    ensures Weight(net, s.n, Next(net, w, s)[s.n]) + (if Sends(net, w, s) == [] then 1 else 2 * |w| - 1)
            <= Weight(net, s.n, w[s.n])
    ensures forall m :: 0 <= m < |w| && m != s.n ==>
              Weight(net, m, Next(net, w, s)[m]) <= Weight(net, m, w[m]) + 2 * |Sends(net, w, s)|
  {
    var ps := Sends(net, w, s);
    ActingWeight(net, w, s);
    forall m | 0 <= m < |w|
      ensures Weight(net, m, Next(net, w, s)[m])
              <= Weight(net, m, if m == s.n then Acting(net, w, s) else w[m]) + 2 * |ps|
    {
      NextNode(net, w, s, m);
      HearWeight(net, m, if m == s.n then Acting(net, w, s) else w[m], ps);
    }
  }

  lemma LoadStep(net: Net, w: World, s: Step)
    requires Faithful(net) && Inv(net, w) && Enabled(net, w, s) && Settling(s)
    ensures Load(net, Next(net, w, s)) < Load(net, w)
  {
    WeightStep(net, w, s);
    var w' := Next(net, w, s);
    if Sends(net, w, s) == [] {
      LoadShift(net, w, w', s.n, 0, 1, |w|);
    } else {
      LoadShift(net, w, w', s.n, 2, 2 * |w| - 1, |w|);
    }
  }

  lemma LoadDrops(net: Net, ws: seq<World>, steps: seq<Step>, i: nat)
    requires Faithful(net) && Execution(net, ws, steps) && i < |steps| && Settling(steps[i])
    ensures Load(net, ws[i + 1]) < Load(net, ws[i])
  {
    RunInv(net, ws, steps, i);
    RunStep(net, ws, steps, i);
    LoadStep(net, ws[i], steps[i]);
  }

  /** No message storms: without new posts and dumps, a run takes at most as many further steps as
      the load of the state it starts from. */
  lemma {:induction false} StormBound(net: Net, ws: seq<World>, steps: seq<Step>, i: nat, j: nat)
    requires Faithful(net) && Execution(net, ws, steps) && i <= j < |ws|
    requires forall k :: i <= k < j ==> Settling(steps[k])
    ensures j - i + Load(net, ws[j]) <= Load(net, ws[i])
    decreases j - i
  {
    if i < j {
      StormBound(net, ws, steps, i, j - 1);
      LoadDrops(net, ws, steps, j - 1);
    }
  }

  /** A state is quiet exactly when no dispatch or delivery is possible, so every run that stops
      posting and dumping ends in a quiet state, where replicas agree exactly as QuietAgreement says. */
  lemma QuietIff(net: Net, w: World, junk: Eid)
    ensures Quiet(w) <==> forall s :: Settling(s) ==> !Enabled(net, w, s)
  {
    if n :| 0 <= n < |w| && w[n].queue != [] {
      assert Enabled(net, w, Dispatch(n));
    } else if n :| 0 <= n < |w| && w[n].inbox != [] {
      assert Enabled(net, w, Deliver(n, 0, junk));
    }
  }
}

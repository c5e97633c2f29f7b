/** Two nodes with the compiled-in table and the channels of the sample configuration: the
    theorems' premises are met, and the startup race happens with real message-waiting events. */
module SampleCluster {
  import opened CText
  import opened IeTable
  import opened EventCodec
  import opened ResRedis
  import opened Cluster
  import opened Convergence
  import opened Truncation
  import opened Reprint
  import opened Overlong
  import TwoKeys
  import opened RealCluster

  const IE_NEWMSGS: nat := 1
  const IE_MAILBOX: nat := 3
  const IE_CONTEXT: nat := 9
  const EVENT_MWI: nat := 2

  /** The publish settings of conf/res_redis.conf. Its subscribe settings name the same channels,
      and the publish flag alone decides what the callbacks publish and receive. */
  function SampleTypes(): seq<EventType> {
    SetEvent(SetEvent(SetEvent(BuiltInTypes(), "mwi", PUBLISH, "asterisk:mwi"),
                      "device_state_change", PUBLISH, "asterisk:device_state_change"),
             "device_state", PUBLISH, "asterisk:device_state")
  }

  function SampleDict(): Dict {
    Dict(AsteriskTable(), (n: nat) => "INUSE")
  }

  /** Mailboxes identify message-waiting events. */
  function Mailbox(e: Event): string {
    if e.ies != [] && e.ies[0].payload.Str? then e.ies[0].payload.s else ""
  }

  function Sample(): Config {
    Config(SampleDict(), SampleTypes(), [Eid(0, 0, 0, 0, 0, 1), Eid(0, 0, 0, 0, 0, 2)], e => Mailbox(e))
  }

  ghost predicate Shared(types: seq<EventType>) {
    && Wired(types) && DistinctChannels(types) && EVENT_MWI < |types| && types[EVENT_MWI].publish
    && forall i :: 0 <= i < |types| && types[i].channel.Some? ==> types[i].channel.value != ""
  }

  lemma SampleShared()
    ensures Shared(SampleTypes())
  {
    SampleChannels();
    assert |"asterisk:mwi"| < |"asterisk:device_state"| < |"asterisk:device_state_change"|;
    var types := SampleConfiguration("asterisk:mwi", "asterisk:device_state", "asterisk:device_state_change");
  }

  lemma SampleChannels()
    ensures forall i :: 0 <= i < |SampleTypes()| && SampleTypes()[i].channel.Some? ==>
        SampleTypes()[i].channel.value != ""
  {
    var t0 := BuiltInTypes();
    SetChannel(t0, "mwi", "asterisk:mwi");
    var t1 := SetEvent(t0, "mwi", PUBLISH, "asterisk:mwi");
    SetChannel(t1, "device_state_change", "asterisk:device_state_change");
    SetChannel(SetEvent(t1, "device_state_change", PUBLISH, "asterisk:device_state_change"),
               "device_state", "asterisk:device_state");
  }

  lemma SetChannel(types: seq<EventType>, name: string, channel: string)
    requires channel != ""
    requires forall i :: 0 <= i < |types| && types[i].channel.Some? ==> types[i].channel.value != ""
    ensures var r := SetEvent(types, name, PUBLISH, channel);
            forall i :: 0 <= i < |r| && r[i].channel.Some? ==> r[i].channel.value != ""
  {
  }

  /** `count` new messages in a mailbox, posted by the first node. */
  function MessagesIn(box: string, count: nat): Event
    requires count < 10
  {
    Event(EVENT_MWI, [IE(IE_MAILBOX, Str(box)), IE(IE_NEWMSGS, Uint(count)), IE(IE_CACHABLE, Uint(1)),
                      LocalId(Eid(0, 0, 0, 0, 0, 1))])
  }

  function MessagesWaiting(count: nat): Event
    requires count < 10
  {
    MessagesIn("100", count)
  }

  /** A mailbox name that the text can carry. */
  predicate BoxName(box: string) {
    |box| <= 20 && Free(box, ',') && Free(box, NUL)
  }

  ghost predicate Named(d: Dict) {
    var t := d.table;
    && ValidDict(d) && |t| > IE_EID && |t| > IE_CACHABLE
    && t[IE_MAILBOX] == IeMap(STR, Some("Mailbox")) && t[IE_NEWMSGS] == IeMap(UINT, Some("NewMessages"))
    && t[IE_CACHABLE] == IeMap(UINT, Some("Cachable")) && t[IE_EID] == IeMap(RAW, Some("EntityID"))
  }

  lemma SampleNames()
    ensures Named(SampleDict())
  {
    AsteriskDictValid((n: nat) => "INUSE");
  }

  lemma {:induction false} EntriesLength(d: Dict, ies: seq<IE>, k: nat)
    requires WellFormed(d, ies) && k <= |ies|
    requires forall i :: 0 <= i < |ies| ==> Decoy(d, ies[i]) == [] && |IeEntry(d, ies, i)| <= 40
    ensures |Commas(Entries(d, ies, k))| <= 41 * k
  {
    if k > 0 {
      EntriesLength(d, ies, k - 1);
      CommasAppend(Entries(d, ies, k - 1), IeEntries(d, ies, k - 1));
      var e := IeEntry(d, ies, k - 1);
      assert IeEntries(d, ies, k - 1) == [e] && [e][..0] == [];
      assert Commas([e]) == e + ",";
    }
  }

  lemma MessagesEntries(d: Dict, box: string, count: nat)
    requires count < 10 && BoxName(box) && Named(d)
    ensures var ies := MessagesIn(box, count).ies;
            && WellFormed(d, ies) && WireSafe(ies)
            && forall i :: 0 <= i < |ies| ==> Decoy(d, ies[i]) == [] && |IeEntry(d, ies, i)| <= 40
  {
    var ies := MessagesIn(box, count).ies;
    assert forall i :: 0 <= i < 4 ==> WellTyped(d, ies[i]);
    assert |IeEntry(d, ies, 0)| <= 40;
    assert |IeEntry(d, ies, 1)| <= 40;
    assert |IeEntry(d, ies, 2)| <= 40;
    assert |IeEntry(d, ies, 3)| <= 40;
  }

  lemma MessagesOrigin(box: string, count: nat)
    requires count < 10
    ensures OriginOf(MessagesIn(box, count)) == Some(Eid(0, 0, 0, 0, 0, 1))
    ensures Cachable(MessagesIn(box, count).ies) == 1
  {
    var ies := MessagesIn(box, count).ies;
    assert ies[1..][0] == ies[1] && ies[1..][1..][0] == ies[2] && ies[1..][1..][1..][0] == ies[3];
    assert FirstOf(ies, IE_EID) == Some(ies[3].payload);
    assert LastMark(ies, 2);
    CachableIsLast(ies, 2);
  }

  /** What the race needs of a configuration. */
  ghost predicate Suitable(c: Config) {
    && Named(c.d) && Shared(c.types)
    && c.eids == [Eid(0, 0, 0, 0, 0, 1), Eid(0, 0, 0, 0, 0, 2)] && c.ident == (e => Mailbox(e))
  }

  lemma MessagesFit(d: Dict, box: string, count: nat)
    requires count < 10 && BoxName(box) && Named(d)
    ensures var ies := MessagesIn(box, count).ies;
            WellFormed(d, ies) && WireSafe(ies) && Fits(d, ies, MAX_EVENT_LENGTH)
  {
    MessagesEntries(d, box, count);
    EntriesLength(d, MessagesIn(box, count).ies, 4);
  }

  lemma MessagesLocal(c: Config, box: string, count: nat)
    requires count < 10 && BoxName(box) && Suitable(c)
    ensures LocalEvent(c, 0, MessagesIn(box, count))
  {
    MessagesFit(c.d, box, count);
    MessagesOrigin(box, count);
  }

  lemma SuitableFaithful(c: Config)
    requires Suitable(c)
    ensures ValidConfig(c) && Faithful(RealNet(c))
  {
    RealNetFaithful(c);
  }

  lemma MailboxPremises(c: Config, net: Net, e1: Event, e2: Event)
    requires Suitable(c) && net == RealNet(c) && e1 == MessagesWaiting(1) && e2 == MessagesWaiting(2)
    ensures |net.eids| == 2 && net.sendable(0, e1) && net.sendable(0, e2) && e1 != e2
    ensures net.key(e1) == net.key(e2) == KeyOf(e => Mailbox(e), MessagesWaiting(1))
    ensures net.flag(e1) && net.flag(e2) && net.published(e1.etype)
  {
    MessagesLocal(c, "100", 1);
    MessagesLocal(c, "100", 2);
    MessagesOrigin("100", 1);
    MessagesOrigin("100", 2);
    assert e1.ies[1] != e2.ies[1];
  }

  /** The startup race, with real text on the wire: two subscribed nodes, nothing under way, one
      says one new message and the other two. */
  lemma MailboxRace(c: Config, junk: Eid) returns (ws: seq<World>, steps: seq<Step>)
    requires Suitable(c)
    ensures ValidConfig(c) && Execution(RealNet(c), ws, steps)
    ensures var w := ws[|steps|];
            var k := KeyOf(e => Mailbox(e), MessagesWaiting(1));
            && |w| == 2 && Quiet(w) && w[0].subscribed && w[1].subscribed
            && w[0].cache == map[k := MessagesWaiting(2)] && w[1].cache == map[k := MessagesWaiting(1)]
  {
    var e1, e2 := MessagesWaiting(1), MessagesWaiting(2);
    MailboxPremises(c, RealNet(c), e1, e2);
    SuitableFaithful(c);
    ws, steps := StartupRace(RealNet(c), e1, e2, junk);
  }

  lemma BoxPremises(c: Config, net: Net, box: string, e: Event)
    requires Suitable(c) && net == RealNet(c) && BoxName(box) && e == MessagesIn(box, 1)
    ensures |net.eids| == 2 && net.sendable(0, e) && net.flag(e) && net.published(e.etype)
    ensures net.key(e).ident == box
  {
    MessagesLocal(c, box, 1);
    MessagesOrigin(box, 1);
  }

  lemma TwoBoxPremises(c: Config, net: Net, box: string, other: string, e1: Event, e2: Event)
    requires Suitable(c) && net == RealNet(c) && BoxName(box) && BoxName(other) && box != other
    requires e1 == MessagesIn(box, 1) && e2 == MessagesIn(other, 1)
    ensures |net.eids| == 2 && net.sendable(0, e1) && net.sendable(0, e2)
    ensures net.flag(e1) && net.flag(e2) && net.published(e1.etype) && net.published(e2.etype)
    ensures net.key(e1) != net.key(e2) && Faithful(net)
  {
    SuitableFaithful(c);
    BoxPremises(c, net, box, e1);
    BoxPremises(c, net, other, e2);
  }

  /** Two mailboxes, with real text on the wire: the first node tells of messages in both, and in
      the end, with nothing under way, the second node holds both events. */
  lemma TwoMailboxes(c: Config, box: string, other: string, junk: Eid) returns (ws: seq<World>, steps: seq<Step>)
    requires Suitable(c) && BoxName(box) && BoxName(other) && box != other
    ensures TwoKeys.HoldsBoth(RealNet(c), ws, steps, MessagesIn(box, 1), MessagesIn(other, 1))
  {
    var net, e1, e2 := RealNet(c), MessagesIn(box, 1), MessagesIn(other, 1);
    TwoBoxPremises(c, net, box, other, e1, e2);
    ws, steps := TwoKeys.ReaderHoldsBoth(net, e1, e2, junk);
  }

  /** Messages waiting in mailbox 100 of a context with a long name. */
  function LongContext(context: string): Event {
    Event(EVENT_MWI, [IE(IE_MAILBOX, Str("100")), IE(IE_CONTEXT, Str(context)), LocalId(Eid(0, 0, 0, 0, 0, 1))])
  }

  lemma LongTexts(d: Dict, ies: seq<IE>)
    requires ValidDict(d) && WellFormed(d, ies) && |ies| >= 2
    ensures |Texts(d, ies)[1]| == |Commas(IeEntries(d, ies, 0))|
    ensures |Texts(d, ies)[|ies|]| >= |Commas(IeEntries(d, ies, 0))| + |Commas(IeEntries(d, ies, 1))|
  {
    TextsGrow(d, ies);
    assert Texts(d, ies)[1] == Texts(d, ies)[0] + Parts(d, ies)[0];
    WholeBefore(Texts(d, ies), Parts(d, ies), 1);
  }

  lemma LongLengths(d: Dict, ies: seq<IE>, context: string)
    requires Named(d) && d.table[IE_CONTEXT] == IeMap(STR, Some("Context")) && Free(context, NUL)
    requires ies == LongContext(context).ies
    ensures WellFormed(d, ies) && |Commas(IeEntries(d, ies, 0))| == 16
    ensures |Name(d, ies[1])| == 7 && |Pair(Name(d, ies[1]), Printed(d, ies[1]))| == |context| + 12
    ensures |Commas(IeEntries(d, ies, 1))| == |context| + 13
  {
    assert forall i :: 0 <= i < 3 ==> WellTyped(d, ies[i]);
    WholeLength(d, ies, 0);
    WholeLength(d, ies, 1);
  }

  lemma LongKept(d: Dict, ies: seq<IE>)
    requires WellFormed(d, ies) && |Texts(d, ies)[|ies|]| >= MAX_EVENT_LENGTH - 1
    ensures Kept(d, ies, MAX_EVENT_LENGTH) == MAX_EVENT_LENGTH - 3
  {
    TextsEntries(d, ies, |ies|);
  }

  /** It loses its origin, and so sets off a storm, as soon as the context has 994 characters. */
  lemma LongContextCut(c: Config, context: string)
    requires Suitable(c) && c.d.table[IE_CONTEXT] == IeMap(STR, Some("Context"))
    requires |context| >= 994 && Free(context, ',') && Free(context, NUL)
    ensures OwnPublished(c, 0, LongContext(context), 2) && CutShort(c, LongContext(context), 2)
  {
    LongContextOwn(c, context);
    LongContextLoses(c.d, LongContext(context).ies, context);
  }

  lemma LongContextOwn(c: Config, context: string)
    requires Suitable(c) && c.d.table[IE_CONTEXT] == IeMap(STR, Some("Context"))
    requires Free(context, ',') && Free(context, NUL)
    ensures OwnPublished(c, 0, LongContext(context), 2)
  {
    LongLengths(c.d, LongContext(context).ies, context);
  }

  lemma LongContextLoses(d: Dict, ies: seq<IE>, context: string)
    requires Named(d) && d.table[IE_CONTEXT] == IeMap(STR, Some("Context")) && ies == LongContext(context).ies
    requires |context| >= 994 && Free(context, ',') && Free(context, NUL)
    ensures WellFormed(d, ies) && LosesOrigin(d, ies, 2, MAX_EVENT_LENGTH)
  {
    LongLengths(d, ies, context);
    LongTexts(d, ies);
    LongKept(d, ies);
    OverlongString(d, ies, 2, Eid(0, 0, 0, 0, 0, 1), 1, MAX_EVENT_LENGTH, MAX_EVENT_LENGTH - 3, MAX_EVENT_LENGTH - 19);
  }

  lemma SampleSuitable()
    ensures Suitable(Sample())
  {
    SampleNames();
    SampleShared();
  }
}

/** The event types table, what a node publishes and what it makes of a message, first as
    functions, then as the callbacks and loops of the module. */
module ResRedis {
  import opened CText
  import opened IeTable
  import opened EventCodec
  import opened Serializer
  import opened Shared

  const MAX_EVENT_LENGTH: nat := 1024
  /** sizeof(struct ast_event): a packed 16-bit type and a 16-bit length. */
  const MIN_EVENT_LENGTH: nat := 4

  /** ARRAY_LEN(event_types) - 1 */
  const EVENT_PING: nat := 12

  datatype EventType = EventType(
    name: Option<string>, sub: bool, publish: bool, subscribe: bool,
    channel: Option<string>, prefix: Option<string>)

  datatype Wire = Wire(channel: string, text: string)

  // ---------------------------------------------------------------- configuration

  datatype Setting = PUBLISH | SUBSCRIBE | PREFIX

  predicate Named(types: seq<EventType>, i: nat, name: string)
    requires i < |types|
  {
    types[i].name.Some? && CaseEq(name, types[i].name.value)
  }

  /** The first type called `name` from `i` on, ignoring case, or |types|. */
  function FindName(types: seq<EventType>, i: nat, name: string): (k: nat)
    requires i <= |types|
    ensures i <= k <= |types|
    ensures k < |types| ==> Named(types, k, name)
    ensures forall j :: i <= j < k ==> !Named(types, j, name)
    decreases |types| - i
  {
    if i == |types| || Named(types, i, name) then i else FindName(types, i + 1, name)
  }

  function Configured(t: EventType, what: Setting, str: string): EventType {
    match what
    case PUBLISH => t.(publish := true, channel := Some(str))
    case SUBSCRIBE => t.(subscribe := true, channel := Some(str))
    case PREFIX => t.(prefix := Some(str))
  }

  /** set_event on the table; an unknown name leaves it alone. */
  function SetEvent(types: seq<EventType>, name: string, what: Setting, str: string): (r: seq<EventType>)
    ensures |r| == |types|
  {
    var i := FindName(types, 0, name);
    if i == |types| then types else types[i := Configured(types[i], what, str)]
  }

  datatype ConfigOption = ConfigOption(name: string, what: Setting, str: string)

  function Configure(types: seq<EventType>, options: seq<ConfigOption>): (r: seq<EventType>)
    ensures |r| == |types|
  {
    if options == [] then types
    else
      var o := options[|options| - 1];
      SetEvent(Configure(types, options[..|options| - 1]), o.name, o.what, o.str)
  }

  /** A type that is published or subscribed to has a channel. */
  predicate Wired(types: seq<EventType>) {
    forall i :: 0 <= i < |types| ==> types[i].publish || types[i].subscribe ==> types[i].channel.Some?
  }

  // ---------------------------------------------------------------- routing

  /** The receive loop's search for the type of a channel. */
  function RouteFrom(types: seq<EventType>, i: nat, channel: string): (r: Option<nat>)
    ensures r.Some? ==> i <= r.value < |types| && types[r.value].channel == Some(channel)
    ensures r.Some? ==> forall j :: i <= j < r.value ==> types[j].channel != Some(channel)
    ensures r.None? ==> forall j :: i <= j < |types| ==> types[j].channel != Some(channel)
    decreases |types| - i
  {
    if i >= |types| then None
    else if types[i].channel == Some(channel) then Some(i)
    else RouteFrom(types, i + 1, channel)
  }

  function Route(types: seq<EventType>, channel: string): Option<nat> {
    RouteFrom(types, 0, channel)
  }

  ghost predicate DistinctChannels(types: seq<EventType>) {
    forall i, j :: 0 <= i < j < |types| && types[i].channel.Some? ==> types[i].channel != types[j].channel
  }

  ghost predicate RoutesBack(types: seq<EventType>, i: nat)
    requires i < |types| && types[i].channel.Some?
  {
    Route(types, types[i].channel.value) == Some(i)
  }

  lemma {:induction false} ConfigureKeepsWired(types: seq<EventType>, options: seq<ConfigOption>)
    requires Wired(types)
    ensures Wired(Configure(types, options))
  {
    if options != [] {
      ConfigureKeepsWired(types, options[..|options| - 1]);
    }
  }

  /** After any configuration, messages are routed to the type they were published under exactly
      when the configured channels are pairwise distinct. */
  lemma {:induction false} RoutingInverse(types: seq<EventType>, options: seq<ConfigOption>)
    requires Wired(types)
    ensures var after := Configure(types, options);
            && Wired(after)
            && (DistinctChannels(after)
                <==> forall i :: 0 <= i < |after| && after[i].channel.Some? ==> RoutesBack(after, i))
  {
    ConfigureKeepsWired(types, options);
    var after := Configure(types, options);
    if !DistinctChannels(after) {
      var i, j :| 0 <= i < j < |after| && after[i].channel.Some? && after[i].channel == after[j].channel;
      assert !RoutesBack(after, j);
    }
  }

  // The types table as compiled in (indices are Asterisk's event types), and the options of the
  // sample configuration in the order they are read.

  function Unconfigured(name: Option<string>): EventType {
    EventType(name, false, false, false, None, None)
  }

  function BuiltInType(i: nat): EventType {
    if i == 2 then Unconfigured(Some("mwi"))
    else if i == 5 then Unconfigured(Some("device_state"))
    else if i == 6 then Unconfigured(Some("device_state_change"))
    else if i == EVENT_PING then Unconfigured(Some("ping"))
    else Unconfigured(None)
  }

  function BuiltInTypes(): seq<EventType> {
    seq(EVENT_PING + 1, i requires 0 <= i <= EVENT_PING => BuiltInType(i))
  }

  lemma SetNamed(types: seq<EventType>, i: nat, name: string, what: Setting, str: string)
    requires i < |types| && Named(types, i, name) && forall j :: 0 <= j < i ==> !Named(types, j, name)
    ensures SetEvent(types, name, what, str) == types[i := Configured(types[i], what, str)]
  {
  }

  /** Setting both directions of the three shared types to three channels routes every message. */
  lemma SampleConfiguration(mwi: string, state: string, change: string) returns (types: seq<EventType>)
    requires mwi != state && mwi != change && state != change
    ensures types == SetEvent(SetEvent(SetEvent(BuiltInTypes(), "mwi", PUBLISH, mwi),
                                       "device_state_change", PUBLISH, change),
                              "device_state", PUBLISH, state)
    ensures Wired(types) && DistinctChannels(types)
    ensures types[2].publish && types[5].publish && types[6].publish
    ensures Route(types, mwi) == Some(2) && Route(types, state) == Some(5) && Route(types, change) == Some(6)
  {
    var t0 := BuiltInTypes();
    SetNamed(t0, 2, "mwi", PUBLISH, mwi);
    var t1 := t0[2 := Configured(t0[2], PUBLISH, mwi)];
    assert |"device_state"| != |"device_state_change"|;
    SetNamed(t1, 6, "device_state_change", PUBLISH, change);
    var t2 := t1[6 := Configured(t1[6], PUBLISH, change)];
    SetNamed(t2, 5, "device_state", PUBLISH, state);
    types := t2[5 := Configured(t2[5], PUBLISH, state)];
  }

  // ---------------------------------------------------------------- publishing and receiving

  function OriginOf(e: Event): Option<Eid> {
    match FirstOf(e.ies, IE_EID)
    case Some(Id(eid)) => Some(eid)
    case _ => None
  }

  function ChannelText(t: EventType): string {
    match t.channel case Some(c) => c case None => "(null)"
  }

  /** What ast_event_cb publishes: nothing for an event of another node or an unpublished type. */
  function Publishes(d: Dict, types: seq<EventType>, self: Eid, e: Event): Option<Wire>
    requires e.etype < |types| && WellFormed(d, e.ies)
  {
    if OriginOf(e).Some? && OriginOf(e).value != self then None
    else if !types[e.etype].publish || e.ies == [] then None
    else Some(Wire(ChannelText(types[e.etype]), Encode(d, e.ies, MAX_EVENT_LENGTH)))
  }

  datatype Reception = Ignored | Echo | Accepted(event: Event, cacheable: bool) | Meaningless

  /** What redis_subscription_cb makes of a MESSAGE. The type's publish flag governs both ways. */
  function Receives(d: Dict, types: seq<EventType>, self: Eid, junk: Eid, w: Wire): Reception {
    if w.channel == "" || Route(types, w.channel).None? || w.text == "" then Ignored
    else
      var etype := Route(types, w.channel).value;
      if !types[etype].publish || |w.text| < MIN_EVENT_LENGTH then Ignored
      else
        match Decode(d, self, junk, w.text)
        case NoMeaning => Meaningless
        case SelfEid => Echo
        case Ok(ies, cacheable) => Accepted(Event(etype, ies), cacheable)
  }

  // ---------------------------------------------------------------- Asterisk's cache

  datatype CacheKey = Key(etype: nat, ident: string, origin: Option<Eid>)

  function KeyOf(ident: Event -> string, e: Event): CacheKey {
    Key(e.etype, ident(e), OriginOf(e))
  }

  /** The cached events of one type and origin, in the order the container lists them. */
  function Selected(listing: seq<Event>, etype: nat, self: Eid): seq<Event> {
    if listing == [] then []
    else
      var init := Selected(listing[..|listing| - 1], etype, self);
      var e := listing[|listing| - 1];
      if e.etype == etype && OriginOf(e) == Some(self) then init + [e] else init
  }

  /** What redis_dump_ast_event_cache hands to ast_event_cb: by type, the node's own events. */
  function Dumped(types: seq<EventType>, k: nat, listing: seq<Event>, self: Eid): seq<Event>
    requires k <= |types|
  {
    if k == 0 then []
    else Dumped(types, k - 1, listing, self) + if types[k - 1].publish then Selected(listing, k - 1, self) else []
  }

  // ---------------------------------------------------------------- the module

  datatype Command = Publish(wire: Wire) | Subscribe(channel: string) | Unsubscribe(channel: string) | Ping

  function OptionSeq(w: Option<Wire>): seq<Command> {
    match w case Some(x) => [Publish(x)] case None => []
  }

  /** Commands sent by ast_event_cb for one event. */
  function Emitted(d: Dict, types: seq<EventType>, self: Eid, e: Event): seq<Command>
    requires e.etype < |types| && WellFormed(d, e.ies)
  {
    (if e.etype == EVENT_PING then [Ping] else []) + OptionSeq(Publishes(d, types, self, e))
  }

  predicate Postable(d: Dict, types: seq<EventType>, e: Event) {
    e.etype < |types| && WellFormed(d, e.ies)
  }

  predicate AllPostable(d: Dict, types: seq<EventType>, es: seq<Event>) {
    forall i :: 0 <= i < |es| ==> Postable(d, types, es[i])
  }

  function EmitterOf(d: Dict, types: seq<EventType>, self: Eid): Event -> seq<Command> {
    (e: Event) => if Postable(d, types, e) then Emitted(d, types, self, e) else []
  }

  ghost predicate Emits(emit: Event -> seq<Command>, d: Dict, types: seq<EventType>, self: Eid) {
    forall e {:trigger Emitted(d, types, self, e)} :: Postable(d, types, e) ==> emit(e) == Emitted(d, types, self, e)
  }

  lemma EmitterEmits(d: Dict, types: seq<EventType>, self: Eid)
    ensures Emits(EmitterOf(d, types, self), d, types, self)
  {
  }

  function Emissions(emit: Event -> seq<Command>, es: seq<Event>): seq<Command> {
    if es == [] then [] else Emissions(emit, es[..|es| - 1]) + emit(es[|es| - 1])
  }

  lemma Associative(a: seq<Command>, b: seq<Command>, c: seq<Command>)
    ensures (a + b) + c == a + (b + c)
  {
  }

  lemma EmissionsSnoc(emit: Event -> seq<Command>, es: seq<Event>, e: Event)
    ensures Emissions(emit, es + [e]) == Emissions(emit, es) + emit(e)
  {
    assert (es + [e])[..|es|] == es;
  }

  lemma {:induction false} EmissionsAppend(emit: Event -> seq<Command>, a: seq<Event>, b: seq<Event>)
    ensures Emissions(emit, a + b) == Emissions(emit, a) + Emissions(emit, b)
    decreases |b|
  {
    if b == [] {
      assert a + b == a;
    } else {
      var init, e := b[..|b| - 1], b[|b| - 1];
      EmissionsAppend(emit, a, init);
      EmissionsSnoc(emit, a + init, e);
      assert a + b == (a + init) + [e];
      Associative(Emissions(emit, a), Emissions(emit, init), emit(e));
    }
  }

  /** Commands sent for `a`, then for `b`, are those sent for both. */
  lemma EmissionsThen(emit: Event -> seq<Command>, sent: seq<Command>, a: seq<Event>, b: seq<Event>)
    ensures sent + Emissions(emit, a) + Emissions(emit, b) == sent + Emissions(emit, a + b)
  {
    EmissionsAppend(emit, a, b);
    Associative(sent, Emissions(emit, a), Emissions(emit, b));
  }

  lemma SelectedSnoc(listing: seq<Event>, j: nat, etype: nat, self: Eid)
    requires j < |listing|
    ensures Selected(listing[..j + 1], etype, self) == Selected(listing[..j], etype, self)
              + if listing[j].etype == etype && OriginOf(listing[j]) == Some(self) then [listing[j]] else []
  {
    assert listing[..j + 1][..j] == listing[..j];
  }

  /** The selection is exactly the listed events of that type and origin. */
  lemma {:induction false} SelectedFrom(listing: seq<Event>, etype: nat, self: Eid)
    ensures forall e :: e in Selected(listing, etype, self) <==>
                        e in listing && e.etype == etype && OriginOf(e) == Some(self)
  {
    if listing != [] {
      SelectedFrom(listing[..|listing| - 1], etype, self);
      assert listing == listing[..|listing| - 1] + [listing[|listing| - 1]];
    }
  }

  /** SUBSCRIBE commands for the published types below `k`, and the table with `sub` set on them. */
  function Subscribes(types: seq<EventType>, k: nat): seq<Command>
    requires k <= |types|
  {
    if k == 0 then []
    else Subscribes(types, k - 1) + if types[k - 1].publish then [Subscribe(ChannelText(types[k - 1]))] else []
  }

  function Subscribed(types: seq<EventType>, k: nat): (r: seq<EventType>)
    requires k <= |types|
    ensures |r| == |types|
    ensures forall i :: 0 <= i < |types| ==>
        r[i] == if i < k && types[i].publish then types[i].(sub := true) else types[i]
  {
    if k == 0 then types
    else
      var r := Subscribed(types, k - 1);
      if types[k - 1].publish then r[k - 1 := types[k - 1].(sub := true)] else r
  }

  /** UNSUBSCRIBE commands for the published types below `k`. */
  function Unsubscribes(types: seq<EventType>, k: nat): seq<Command>
    requires k <= |types|
  {
    if k == 0 then []
    else Unsubscribes(types, k - 1) + if types[k - 1].publish then [Unsubscribe(ChannelText(types[k - 1]))] else []
  }

  /** The published types below `k`. */
  function PublishedTypes(types: seq<EventType>, k: nat): seq<nat>
    requires k <= |types|
  {
    if k == 0 then []
    else PublishedTypes(types, k - 1) + if types[k - 1].publish then [k - 1] else []
  }

  lemma {:induction false} PublishedTypesIn(types: seq<EventType>, k: nat)
    requires k <= |types|
    ensures forall i :: i in PublishedTypes(types, k) <==> 0 <= i < k && types[i].publish
    ensures forall a, b :: 0 <= a < b < |PublishedTypes(types, k)| ==>
                             PublishedTypes(types, k)[a] < PublishedTypes(types, k)[b]
  {
    if k > 0 {
      PublishedTypesIn(types, k - 1);
      var before := PublishedTypes(types, k - 1);
      assert forall a :: 0 <= a < |before| ==> before[a] in before;
    }
  }

  /** One SUBSCRIBE and one UNSUBSCRIBE per published type, in index order, for its channel. */
  lemma {:induction false} TopicsAre(types: seq<EventType>, k: nat)
    requires k <= |types| && Wired(types)
    ensures |Subscribes(types, k)| == |Unsubscribes(types, k)| == |PublishedTypes(types, k)|
    ensures forall j :: 0 <= j < |PublishedTypes(types, k)| ==>
              var i := PublishedTypes(types, k)[j];
              && i < |types| && types[i].channel.Some?
              && Subscribes(types, k)[j] == Subscribe(types[i].channel.value)
              && Unsubscribes(types, k)[j] == Unsubscribe(types[i].channel.value)
  {
    if k > 0 {
      TopicsAre(types, k - 1);
    }
  }

  /** After `before`, one command per published type in index order, for the type's own channel. */
  ghost predicate TopicsSent(types: seq<EventType>, before: seq<Command>, after: seq<Command>, on: bool) {
    var ps := PublishedTypes(types, |types|);
    && before <= after && |after| == |before| + |ps|
    && forall j :: 0 <= j < |ps| ==>
                     && ps[j] < |types| && types[ps[j]].channel.Some?
                     && after[|before| + j] == if on then Subscribe(types[ps[j]].channel.value)
                                               else Unsubscribe(types[ps[j]].channel.value)
  }

  lemma TopicsFollow(types: seq<EventType>, before: seq<Command>)
    requires Wired(types)
    ensures TopicsSent(types, before, before + Subscribes(types, |types|), true)
    ensures TopicsSent(types, before, before + Unsubscribes(types, |types|), false)
  {
    TopicsAre(types, |types|);
  }

  datatype Reply = NullReply | OtherReply | ArrayReply(elements: seq<string>)

  const MESSAGE := "MESSAGE"

  /** The reply of a SUBSCRIBE context, as the message it carries. */
  function AsMessage(r: Reply): Option<Wire> {
    if r.ArrayReply? && |r.elements| >= 3 && CaseEq(r.elements[0], MESSAGE)
    then Some(Wire(r.elements[1], r.elements[2]))
    else None
  }

  /** Redis spells it in lower case. */
  lemma RedisSpelling(r: Reply)
    requires r.ArrayReply? && |r.elements| >= 3 && r.elements[0] == "message"
    ensures AsMessage(r) == Some(Wire(r.elements[1], r.elements[2]))
  {
  }

  ghost predicate InSlots(ident: Event -> string, cache: map<CacheKey, Event>) {
    forall k :: k in cache ==>
                  cache[k].etype == k.etype && ident(cache[k]) == k.ident && OriginOf(cache[k]) == k.origin
  }

  predicate Differ(ident: Event -> string, a: Event, b: Event) {
    a.etype != b.etype || ident(a) != ident(b) || OriginOf(a) != OriginOf(b)
  }

  /** Caching an event replaces no event that differs from it in type, identifying part or origin. */
  lemma CachedInSlot(ident: Event -> string, cache: map<CacheKey, Event>, e: Event)
    ensures var after := cache[KeyOf(ident, e) := e];
            && e in after.Values
            && (InSlots(ident, cache) ==>
                  && InSlots(ident, after)
                  && forall k :: k in cache && Differ(ident, cache[k], e) ==> k in after && after[k] == cache[k])
  {
    var after := cache[KeyOf(ident, e) := e];
    assert after[KeyOf(ident, e)] == e;
  }

  class Module {
    const d: Dict
    const self: Eid
    const ident: Event -> string
    const types: array<EventType>
    /** Whether the dispatch thread runs. */
    var dispatching: bool
    /** Asterisk's event queue and cache, and the commands handed to hiredis. */
    var queue: seq<Event>
    var cache: map<CacheKey, Event>
    var sent: seq<Command>

    ghost predicate Valid()
      reads this, types
    {
      ValidDict(d) && d.table[0].name.None? && Wired(types[..])
    }

    /** Every cached event is held under its own type, identifying part and origin. */
    ghost predicate Keyed()
      reads this`cache
    {
      InSlots(ident, cache)
    }

    constructor (d: Dict, self: Eid, ident: Event -> string, table: seq<EventType>)
      requires ValidDict(d) && d.table[0].name.None? && Wired(table)
      ensures Valid() && fresh(types) && types[..] == table
      ensures this.d == d && this.self == self && this.ident == ident
      ensures queue == [] && cache == map[] && sent == [] && !dispatching
    {
      this.d, this.self, this.ident := d, self, ident;
      types := new EventType[|table|](i requires 0 <= i < |table| => table[i]);
      dispatching, queue, cache, sent := false, [], map[], [];
      new;
      assert types[..] == table;
    }

    /** set_event */
    method Set(name: string, what: Setting, str: string) returns (rc: int)
      requires Valid()
      modifies types
      ensures Valid()
      ensures types[..] == SetEvent(old(types[..]), name, what, str)
      ensures rc == if FindName(old(types[..]), 0, name) == types.Length then -1 else 0
    {
      var i := 0;
      while i < types.Length
        invariant 0 <= i <= types.Length
        invariant types[..] == old(types[..])
        invariant FindName(types[..], 0, name) == FindName(types[..], i, name)
      {
        if types[i].name.None? || !CaseEq(name, types[i].name.value) {
          i := i + 1;
          continue;
        }
        match what {
          case PUBLISH => types[i] := types[i].(publish := true, channel := Some(str));
          case SUBSCRIBE => types[i] := types[i].(subscribe := true, channel := Some(str));
          case PREFIX => types[i] := types[i].(prefix := Some(str));
        }
        assert types[..] == old(types[..])[i := Configured(old(types[i]), what, str)];
        return 0;
      }
      return -1;
    }

    /** ast_event_cb */
    method AstEventCb(e: Event)
      requires Valid() && Postable(d, types[..], e)
      modifies this`sent
      ensures sent == old(sent) + Emitted(d, types[..], self, e)
    {
      var origin := OriginOf(e);
      if e.etype == EVENT_PING {
        sent := sent + [Ping];
      }
      if origin.Some? && origin.value != self {
        return;
      }
      var msg := new char[MAX_EVENT_LENGTH + 1];
      if types[e.etype].publish {
        ValidDictCStrings(d);
        var res := Message2Json(d, msg, MAX_EVENT_LENGTH, e);
        if res == NoException {
          ghost var text := Encode(d, e.ies, MAX_EVENT_LENGTH);
          FilledHolds(msg[..], MAX_EVENT_LENGTH, text);
          var payload := ReadString(msg, 0, text);
          sent := sent + [Publish(Wire(ChannelText(types[e.etype]), payload))];
        }
      }
    }

    /** redis_subscription_cb. `junk` is the decoder's uninitialised identifier buffer. */
    method SubscriptionCb(reply: Reply, junk: Eid) returns (r: Reception)
      requires Valid()
      requires reply.ArrayReply? ==> reply.elements != []
      requires reply.ArrayReply? && CaseEq(reply.elements[0], MESSAGE) ==>
                 |reply.elements| >= 3 && Free(reply.elements[2], NUL)
      modifies this`queue, this`cache
      ensures r == match AsMessage(reply) case None => Ignored case Some(w) => Receives(d, types[..], self, junk, w)
      ensures r.Accepted? ==> queue == old(queue) + [r.event]
      ensures r.Accepted? && r.cacheable ==> cache == old(cache)[KeyOf(ident, r.event) := r.event]
      ensures !(r.Accepted? && r.cacheable) ==> cache == old(cache)
      ensures reply.ArrayReply? && |reply.elements| >= 3 && reply.elements[0] == "message" ==>
                r == Receives(d, types[..], self, junk, Wire(reply.elements[1], reply.elements[2]))
      ensures old(Keyed()) ==> Keyed()
      ensures r.Accepted? && r.cacheable ==> r.event in cache.Values
      ensures old(Keyed()) && r.Accepted? ==>
                forall k :: k in old(cache) && Differ(ident, old(cache)[k], r.event) ==>
                              k in cache && cache[k] == old(cache)[k]
    {
      if reply.ArrayReply? && |reply.elements| >= 3 && reply.elements[0] == "message" {
        RedisSpelling(reply);
      }
      if !reply.ArrayReply? || !CaseEq(reply.elements[0], MESSAGE) {
        return Ignored;
      }
      var channel, text := reply.elements[1], reply.elements[2];
      if channel == "" {
        return Ignored;
      }
      var etype := 0;
      while etype < types.Length && types[etype].channel != Some(channel)
        invariant 0 <= etype <= types.Length
        invariant Route(types[..], channel) == RouteFrom(types[..], etype, channel)
      {
        etype := etype + 1;
      }
      if etype == types.Length || text == "" || !types[etype].publish || |text| < MIN_EVENT_LENGTH {
        return Ignored;
      }
      var decoded := Json2Message(d, self, junk, text);
      match decoded {
        case NoMeaning => return Meaningless;
        case SelfEid => return Echo;
        case Ok(ies, cacheable) =>
          var event := Event(etype, ies);
          if cacheable {
            CachedInSlot(ident, cache, event);
            cache := cache[KeyOf(ident, event) := event];
          }
          queue := queue + [event];
          return Accepted(event, cacheable);
      }
    }

    /** redis_unsubscribe_from_channels: `sub` stays set, so a later SubscribeToChannels does not
        make the local subscription again. */
    method UnsubscribeFromChannels()
      requires Valid()
      modifies this`sent
      ensures Valid() && sent == old(sent) + Unsubscribes(types[..], types.Length)
      ensures TopicsSent(types[..], old(sent), sent, false)
    {
      TopicsFollow(types[..], sent);
      var i := 0;
      while i < types.Length
        invariant 0 <= i <= types.Length && sent == old(sent) + Unsubscribes(types[..], i)
      {
        if types[i].publish {
          sent := sent + [Unsubscribe(ChannelText(types[i]))];
        }
        i := i + 1;
      }
    }

    /** redis_subscribe_to_channels */
    method SubscribeToChannels()
      requires Valid()
      modifies this`sent, types
      ensures Valid()
      ensures sent == old(sent) + Subscribes(old(types[..]), types.Length)
      ensures types[..] == Subscribed(old(types[..]), types.Length)
      ensures TopicsSent(old(types[..]), old(sent), sent, true)
    {
      ghost var before := types[..];
      TopicsFollow(before, sent);
      var i := 0;
      while i < types.Length
        invariant 0 <= i <= types.Length
        invariant types[..] == Subscribed(before, i)
        invariant sent == old(sent) + Subscribes(before, i)
      {
        if types[i].publish {
          sent := sent + [Subscribe(ChannelText(types[i]))];
          if !types[i].sub {
            types[i] := types[i].(sub := true);
          }
        }
        i := i + 1;
      }
    }

    /** ast_event_dump_cache for one type and the local identifier. */
    method DumpType(i: nat, listing: seq<Event>, ghost emit: Event -> seq<Command>)
      requires Valid() && AllPostable(d, types[..], listing) && Emits(emit, d, types[..], self)
      modifies this`sent
      ensures sent == old(sent) + Emissions(emit, Selected(listing, i, self))
    {
      ghost var done: seq<Event> := [];
      for j := 0 to |listing|
        invariant done == Selected(listing[..j], i, self)
        invariant sent == old(sent) + Emissions(emit, done)
      {
        SelectedSnoc(listing, j, i, self);
        if listing[j].etype == i && OriginOf(listing[j]) == Some(self) {
          AstEventCb(listing[j]);
          EmissionsSnoc(emit, done, listing[j]);
          Associative(old(sent), Emissions(emit, done), emit(listing[j]));
          done := done + [listing[j]];
        }
      }
      assert listing[..|listing|] == listing;
    }

    /** The loop of redis_dump_ast_event_cache over the published types. */
    method DumpPublished(listing: seq<Event>, ghost emit: Event -> seq<Command>)
      requires Valid() && AllPostable(d, types[..], listing) && Emits(emit, d, types[..], self)
      modifies this`sent
      ensures sent == old(sent) + Emissions(emit, Dumped(types[..], types.Length, listing, self))
    {
      ghost var table := types[..];
      ghost var done: seq<Event> := [];
      var i := 0;
      while i < types.Length
        invariant 0 <= i <= types.Length && types[..] == table
        invariant done == Dumped(table, i, listing, self)
        invariant sent == old(sent) + Emissions(emit, done)
      {
        if types[i].publish {
          DumpType(i, listing, emit);
          EmissionsThen(emit, old(sent), done, Selected(listing, i, self));
          done := done + Selected(listing, i, self);
        }
        i := i + 1;
      }
    }

    /** redis_dump_ast_event_cache: publishes the node's own cached events, then subscribes. */
    method DumpAstEventCache(listing: seq<Event>)
      requires Valid() && AllPostable(d, types[..], listing)
      modifies this`sent, types
      ensures Valid()
      ensures !dispatching ==> sent == old(sent) && types[..] == old(types[..])
      ensures dispatching ==>
                sent == old(sent)
                        + Emissions(EmitterOf(d, old(types[..]), self),
                                    Dumped(old(types[..]), types.Length, listing, self))
                        + Subscribes(old(types[..]), types.Length)
      ensures dispatching ==> types[..] == Subscribed(old(types[..]), types.Length)
    {
      if dispatching {
        EmitterEmits(d, types[..], self);
        DumpPublished(listing, EmitterOf(d, types[..], self));
        SubscribeToChannels();
      }
    }
  }
}

/** The subscription table of the message queue (msq_event_map) and the commands sent for it. */
module Subscriptions {
  import opened CText
  import opened Shared

  datatype Entry = Entry(
    name: Option<string>, publish: bool, subscribe: bool, active: bool,
    channel: Option<string>, pattern: Option<string>, callback: bool)

  datatype Command = Subscribe(topic: string) | Unsubscribe(topic: string)

  datatype Kind = PUBLISH | SUBSCRIBE

  /** printf's %s of a possibly null string. */
  function Shown(s: Option<string>): string {
    match s case Some(t) => t case None => "(null)"
  }

  function Topic(e: Entry): string {
    if e.pattern.Some? then Shown(e.channel) + ":" + e.pattern.value else Shown(e.channel)
  }

  /** One attempt: the command sent, if any, and whether the attempt failed. `err` is the state of
      the connection after a command. */
  datatype Attempt = Attempt(command: Option<Command>, failed: bool)

  /** msq_send_subscribe and msq_send_unsubscribe, whose guards differ as they do in the code. */
  function Try(e: Entry, on: bool, err: bool): Attempt {
    if e.name.None? then Attempt(None, false)
    else if on then
      if e.channel.Some? || e.callback then Attempt(Some(Subscribe(Topic(e))), err) else Attempt(None, true)
    else
      if e.channel.None? || !e.callback then Attempt(Some(Unsubscribe(Topic(e))), err) else Attempt(None, true)
  }

  function SentFor(a: Attempt): seq<Command> {
    if a.command.Some? then [a.command.value] else []
  }

  predicate Fails(table: seq<Entry>, i: nat, on: bool, errs: nat -> bool)
    requires i < |table|
  {
    table[i].subscribe && Try(table[i], on, errs(i)).failed
  }

  /** The first subscribed entry from `i` on whose attempt fails, or |table|. */
  function FailAt(table: seq<Entry>, i: nat, on: bool, errs: nat -> bool): (k: nat)
    requires i <= |table|
    ensures i <= k <= |table|
    decreases |table| - i
  {
    if i == |table| || Fails(table, i, on, errs) then i else FailAt(table, i + 1, on, errs)
  }

  lemma {:induction false} FailAtFirst(table: seq<Entry>, i: nat, on: bool, errs: nat -> bool)
    requires i <= |table|
    ensures var k := FailAt(table, i, on, errs);
            (k < |table| ==> Fails(table, k, on, errs)) && forall j :: i <= j < k ==> !Fails(table, j, on, errs)
    decreases |table| - i
  {
    if i < |table| && !Fails(table, i, on, errs) {
      FailAtFirst(table, i + 1, on, errs);
    }
  }

  /** Commands sent for the subscribed entries below `k`, in index order. */
  function Trace(table: seq<Entry>, k: nat, on: bool, errs: nat -> bool): seq<Command>
    requires k <= |table|
  {
    if k == 0 then []
    else
      var e := table[k - 1];
      Trace(table, k - 1, on, errs)
      + if e.subscribe then SentFor(Try(e, on, errs(k - 1))) else []
  }

  /** How many entries a toggle goes through, the failing one included. */
  function Attempted(table: seq<Entry>, on: bool, errs: nat -> bool): (k: nat)
    ensures k <= |table|
  {
    if FailAt(table, 0, on, errs) < |table| then FailAt(table, 0, on, errs) + 1 else |table|
  }

  /** The flags of the subscribed entries below `k` set to `on`. */
  function Flagged(table: seq<Entry>, k: nat, on: bool): (r: seq<Entry>)
    requires k <= |table|
    ensures |r| == |table|
  {
    if k == 0 then table
    else if table[k - 1].subscribe then Flagged(table, k - 1, on)[k - 1 := table[k - 1].(active := on)]
    else Flagged(table, k - 1, on)
  }

  lemma {:induction false} FlaggedAt(table: seq<Entry>, k: nat, on: bool)
    requires k <= |table|
    ensures forall i :: 0 <= i < |table| ==>
              Flagged(table, k, on)[i] == if i < k && table[i].subscribe then table[i].(active := on) else table[i]
  {
    if k > 0 {
      FlaggedAt(table, k - 1, on);
    }
  }

  function Toggled(table: seq<Entry>, on: bool, errs: nat -> bool): seq<Entry> {
    Flagged(table, FailAt(table, 0, on, errs), on)
  }

  predicate Completes(table: seq<Entry>, on: bool, errs: nat -> bool) {
    FailAt(table, 0, on, errs) == |table|
  }

  /** Only named entries are subscribed to. */
  predicate Named(table: seq<Entry>) {
    forall i :: 0 <= i < |table| ==> table[i].subscribe ==> table[i].name.Some?
  }

  /** The topics of the subscribed entries below `k`, once each, in index order. */
  function Wanted(table: seq<Entry>, k: nat): seq<Command>
    requires k <= |table|
  {
    if k == 0 then []
    else Wanted(table, k - 1) + if table[k - 1].subscribe then [Subscribe(Topic(table[k - 1]))] else []
  }

  /** One pass over a subscribed entry. */
  lemma TraceNext(table: seq<Entry>, i: nat, on: bool, errs: nat -> bool, sent: seq<Command>)
    requires i < |table|
    ensures sent + Trace(table, i + 1, on, errs)
         == (sent + Trace(table, i, on, errs)) + if table[i].subscribe then SentFor(Try(table[i], on, errs(i))) else []
  {
    assert sent + Trace(table, i, on, errs) + [] == sent + Trace(table, i, on, errs);
  }

  class Table {
    const entries: array<Entry>
    var sent: seq<Command>

    ghost predicate Valid()
      reads this, entries
    {
      Named(entries[..])
    }

    constructor (table: seq<Entry>)
      requires Named(table)
      ensures Valid() && fresh(entries) && entries[..] == table && sent == []
    {
      entries := new Entry[|table|](i requires 0 <= i < |table| => table[i]);
      sent := [];
      new;
      assert entries[..] == table;
    }

    /** msq_set_channel; it reports success for unnamed entries too. */
    method SetChannel(channel: nat, kind: Kind, onoff: bool) returns (res: Exception)
      requires Valid() && channel < entries.Length
      modifies entries
      ensures Valid() && res == NoException
      ensures entries[..] == old(entries[..])[channel :=
                if old(entries[channel]).name.None? then old(entries[channel])
                else if kind.PUBLISH? then old(entries[channel]).(publish := onoff)
                else old(entries[channel]).(subscribe := onoff)]
    {
      if entries[channel].name.Some? {
        if kind == PUBLISH {
          entries[channel] := entries[channel].(publish := onoff);
        } else {
          entries[channel] := entries[channel].(subscribe := onoff);
        }
      }
      return NoException;
    }

    /** msq_add_subscription: registers once; a second registration changes nothing. */
    method AddSubscription(channel: nat, channelstr: Option<string>, patternstr: Option<string>, callback: bool)
      returns (res: Exception)
      requires Valid() && channel < entries.Length
      modifies entries
      ensures Valid()
      ensures var e := old(entries[channel]);
              res == if e.name.Some? && e.channel.None? && !e.callback && e.pattern.None? && channelstr.Some?
                  && callback
                     then NoException else GeneralFailure
      ensures res == GeneralFailure ==> entries[..] == old(entries[..])
      ensures res == NoException ==>
                entries[..] == old(entries[..])[channel :=
                  old(entries[channel]).(channel := channelstr, callback := true,
                                         pattern := patternstr, active := false)]
    {
      if entries[channel].name.None? {
        return GeneralFailure;
      }
      if entries[channel].channel.Some? || entries[channel].callback || entries[channel].pattern.Some? {
        return GeneralFailure;
      }
      if channelstr.None? || !callback {
        return GeneralFailure;
      }
      entries[channel] := entries[channel].(channel := channelstr);
      entries[channel] := entries[channel].(callback := callback);
      if patternstr.Some? {
        entries[channel] := entries[channel].(pattern := patternstr);
      }
      entries[channel] := entries[channel].(active := false);
      return NoException;
    }

    /** msq_send_subscribe / msq_send_unsubscribe for one entry. */
    method Send(channel: nat, on: bool, err: bool) returns (failed: bool)
      requires channel < entries.Length
      modifies this`sent
      ensures failed == Try(entries[channel], on, err).failed
      ensures sent == old(sent) + SentFor(Try(entries[channel], on, err))
    {
      var e := entries[channel];
      if e.name.None? {
        return false;
      }
      if on {
        if e.channel.Some? || e.callback {
          sent := sent + [Subscribe(Topic(e))];
          return err;
        }
        return true;
      }
      if e.channel.None? || !e.callback {
        sent := sent + [Unsubscribe(Topic(e))];
        return err;
      }
      return true;
    }

    /** The loop body for a subscribed entry. */
    method AttemptEntry(chan: nat, on: bool, err: bool) returns (failed: bool)
      requires chan < entries.Length
      modifies this`sent, entries
      ensures failed == Try(old(entries[chan]), on, err).failed
      ensures sent == old(sent) + SentFor(Try(old(entries[chan]), on, err))
      ensures entries[..] == if failed then old(entries[..])
                             else old(entries[..])[chan := old(entries[chan]).(active := on)]
    {
      failed := Send(chan, on, err);
      if !failed {
        entries[chan] := entries[chan].(active := on);
      }
    }

    /** _msq_toggle_subscriptions, for any connection outcomes: attempts in index order up to the
        first failure, and flags changed exactly on the subscribed entries before it. */
    method Toggle(on: bool, errs: nat -> bool) returns (failed: bool)
      modifies this`sent, entries
      ensures old(Valid()) ==> Valid()
      ensures entries[..] == Toggled(old(entries[..]), on, errs)
      ensures failed == !Completes(old(entries[..]), on, errs)
      ensures sent == old(sent) + Trace(old(entries[..]), Attempted(old(entries[..]), on, errs), on, errs)
    {
      ghost var table := entries[..];
      ToggledNamed(table, on, errs);
      var chan := 0;
      while chan < entries.Length
        invariant 0 <= chan <= entries.Length
        invariant FailAt(table, 0, on, errs) == FailAt(table, chan, on, errs)
        invariant entries[..] == Flagged(table, chan, on)
        invariant forall i :: chan <= i < entries.Length ==> entries[i] == table[i]
        invariant sent == old(sent) + Trace(table, chan, on, errs)
      {
        TraceNext(table, chan, on, errs, old(sent));
        if entries[chan].subscribe {
          failed := AttemptEntry(chan, on, errs(chan));
          if failed {
            return true;
          }
        }
        chan := chan + 1;
      }
      return false;
    }
  }

  lemma ToggledNamed(table: seq<Entry>, on: bool, errs: nat -> bool)
    ensures Named(table) ==> Named(Toggled(table, on, errs))
  {
    FlaggedAt(table, FailAt(table, 0, on, errs), on);
  }

  /** What is sent for a named entry: its channel, with the pattern behind a colon if it has one. */
  lemma TopicText(e: Entry, c: string, err: bool)
    requires e.name.Some? && e.channel == Some(c)
    ensures Try(e, true, err).command
         == Some(Subscribe(match e.pattern case None => c case Some(p) => c + ":" + p))
    ensures !e.callback ==> Try(e, false, err).command
                            == Some(Unsubscribe(match e.pattern case None => c case Some(p) => c + ":" + p))
  {
  }

  /** Without a channel, printf names a null pointer. */
  lemma TopicOfNothing(e: Entry, err: bool)
    requires e.name.Some? && e.channel.None? && e.pattern.None? && e.callback
    ensures Try(e, true, err).command == Some(Subscribe("(null)"))
    ensures Try(e, false, err).command == Some(Unsubscribe("(null)"))
  {
  }

  /** When a command is sent: to subscribe, for a named entry with a channel or a callback; to
      unsubscribe, for one that lacks either. A named entry without a command fails. */
  lemma AttemptIs(e: Entry, on: bool, err: bool)
    ensures Try(e, on, err).command.Some?
            <==> e.name.Some? && if on then e.channel.Some? || e.callback else !(e.channel.Some? && e.callback)
    ensures Try(e, on, err).command.Some? ==> Try(e, on, err).command.value.Subscribe? == on
    ensures Try(e, on, err).failed == (if Try(e, on, err).command.Some? then err else e.name.Some?)
  {
  }

  /** With named subscriptions the trace of SUBSCRIBE commands before the first failure is exactly
      the list of wanted topics, so an entry's flag is set by a toggle if and only if its command
      was sent without error. */
  lemma {:induction false} TraceMatchesFlags(table: seq<Entry>, k: nat, errs: nat -> bool)
    requires Named(table) && k <= FailAt(table, 0, true, errs)
    ensures Trace(table, k, true, errs) == Wanted(table, k)
    ensures forall i :: 0 <= i < k && table[i].subscribe ==>
              Flagged(table, k, true)[i].active && Try(table[i], true, errs(i))
                  == Attempt(Some(Subscribe(Topic(table[i]))), false)
  {
    FlaggedAt(table, k, true);
    if k > 0 {
      TraceMatchesFlags(table, k - 1, errs);
      FailAtFirst(table, 0, true, errs);
      assert !Fails(table, k - 1, true, errs);
    }
  }

  /** Why only named entries may be subscribed: an unnamed one is marked active with nothing sent,
      so the trace falls short of the topics wanted. */
  lemma {:induction false} TraceIsWantedIff(table: seq<Entry>, k: nat, errs: nat -> bool)
    requires k <= FailAt(table, 0, true, errs)
    ensures |Trace(table, k, true, errs)| <= |Wanted(table, k)|
    ensures Trace(table, k, true, errs) == Wanted(table, k)
            <==> forall i :: 0 <= i < k && table[i].subscribe ==> table[i].name.Some?
  {
    if k > 0 {
      TraceIsWantedIff(table, k - 1, errs);
      FailAtFirst(table, 0, true, errs);
      assert !Fails(table, k - 1, true, errs);
      var e := table[k - 1];
      var trace, wanted := Trace(table, k - 1, true, errs), Wanted(table, k - 1);
      if e.subscribe && e.name.Some? {
        Cancel(trace, wanted, Subscribe(Topic(e)));
        assert Trace(table, k, true, errs) == trace + [Subscribe(Topic(e))];
      } else {
        assert Trace(table, k, true, errs) == trace;
      }
    }
  }

  lemma Cancel(a: seq<Command>, b: seq<Command>, c: Command)
    ensures a + [c] == b + [c] <==> a == b
  {
    if a + [c] == b + [c] {
      assert a == (a + [c])[..|a|] && b == (b + [c])[..|b|];
    }
  }

  /** The entry has both a channel and a callback, as msq_add_subscription leaves it. */
  predicate Registered(e: Entry) {
    e.channel.Some? && e.callback
  }

  /** The off direction as written completes exactly if no subscribed entry is registered and no
      command for one fails. */
  lemma OffCompletesIff(table: seq<Entry>, errs: nat -> bool)
    requires Named(table)
    ensures Completes(table, false, errs)
            <==> forall i :: 0 <= i < |table| && table[i].subscribe ==> !Registered(table[i]) && !errs(i)
  {
    FailAtFirst(table, 0, false, errs);
    if i :| 0 <= i < |table| && table[i].subscribe && (Registered(table[i]) || errs(i)) {
      assert Fails(table, i, false, errs);
    }
  }

  /** It stops at the first subscribed entry that is registered: nothing from there on is
      unsubscribed, and its flag stays. */
  lemma OffStopsAtRegistered(table: seq<Entry>, i: nat, errs: nat -> bool)
    requires Named(table) && i < |table| && table[i].subscribe && Registered(table[i])
    ensures FailAt(table, 0, false, errs) <= i
    ensures forall j :: i <= j < |table| ==> Flagged(table, FailAt(table, 0, false, errs), false)[j] == table[j]
  {
    FailAtFirst(table, 0, false, errs);
    assert Fails(table, i, false, errs);
    FlaggedAt(table, FailAt(table, 0, false, errs), false);
  }
}

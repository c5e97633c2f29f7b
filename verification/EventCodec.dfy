/** Events, their JSON text, and the text's decoding, as functions on values.

    Serializer.dfy has the in-place forms over char buffers, proved equal to these. */
module EventCodec {
  import opened CText
  import opened IeTable

  /** What an information element carries. An entity identifier is the RAW element IE_EID. */
  datatype Payload =
    | Uint(n: nat)
    | Flags(bits: nat)
    | Str(s: string)
    | Id(eid: Eid)
    | Raw(bytes: string)
    | Nothing

  datatype IE = IE(id: nat, payload: Payload)

  datatype Event = Event(etype: nat, ies: seq<IE>)

  /** Asterisk's part: the element table and the printed names of device states. */
  datatype Dict = Dict(table: seq<IeMap>, devstate: nat -> string)

  predicate WellTyped(d: Dict, ie: IE) {
    && 1 <= ie.id < |d.table|
    && d.table[ie.id].name.Some?
    && match d.table[ie.id].pltype
       case UNKNOWN => ie.payload.Nothing?
       case EXISTS => ie.payload.Nothing?
       case UINT => ie.payload.Uint? && ie.payload.n < UINT_LIMIT
       case BITFLAGS => ie.payload.Flags? && ie.payload.bits < UINT_LIMIT
       case STR => ie.payload.Str? && Free(ie.payload.s, NUL)
       case RAW => if ie.id == IE_EID then ie.payload.Id? else ie.payload.Raw? && !Free(ie.payload.bytes, NUL)
  }

  predicate WellFormed(d: Dict, ies: seq<IE>) {
    forall i :: 0 <= i < |ies| ==> WellTyped(d, ies[i])
  }

  /** ast_event_get_ie_raw: the first element of a type. */
  function FirstOf(ies: seq<IE>, id: nat): (r: Option<Payload>)
    ensures r.Some? <==> exists i :: 0 <= i < |ies| && ies[i].id == id
    ensures r.Some? ==> IE(id, r.value) in ies
  {
    if ies == [] then None
    else if ies[0].id == id then Some(ies[0].payload)
    else FirstOf(ies[1..], id)
  }

  ghost predicate ValidDict(d: Dict) {
    && ValidTable(d.table)
    && forall n: nat {:trigger d.devstate(n)} :: Free(d.devstate(n), ',') && Free(d.devstate(n), NUL)
  }

  /** The compiled-in table with any device state names that are C strings without commas. */
  lemma AsteriskDictValid(devstate: nat -> string)
    requires forall n: nat {:trigger devstate(n)} :: Free(devstate(n), ',') && Free(devstate(n), NUL)
    ensures ValidDict(Dict(AsteriskTable(), devstate)) && AsteriskTable()[0].name.None?
  {
    AsteriskTableValid();
  }

  // ---------------------------------------------------------------- encoding

  function Pair(name: string, value: string): string {
    Quote(name) + ":" + value
  }

  function Name(d: Dict, ie: IE): string
    requires WellTyped(d, ie)
  {
    d.table[ie.id].name.value
  }

  /** The entry printed for element `i`, without the comma that follows it. */
  function IeEntry(d: Dict, ies: seq<IE>, i: nat): string
    requires WellFormed(d, ies) && i < |ies|
  {
    var ie := ies[i];
    var name := Name(d, ie);
    match d.table[ie.id].pltype
    case UNKNOWN => Pair(name, Quote("exists"))
    case EXISTS => Pair(name, Quote("exists"))
    case STR => Pair(name, Quote(ie.payload.s))
    case UINT => Pair(name, Decimal(ie.payload.n))
    case BITFLAGS => Pair(name, Decimal(ie.payload.bits))
    case RAW =>
      if ie.id == IE_EID then Pair(name, Quote(EidText(ie.payload.eid)))
      else
        assert WellTyped(d, IE(ie.id, FirstOf(ies, ie.id).value));
        var bytes := FirstOf(ies, ie.id).value.bytes;
        Quote(bytes[..IndexOf(bytes, NUL)])
  }

  /** The second entry, printed after a State element only. */
  function Decoy(d: Dict, ie: IE): seq<string> {
    if ie.id == IE_STATE && ie.payload.Uint? then [Pair(STATESTR, Quote(d.devstate(ie.payload.n)))] else []
  }

  function IeEntries(d: Dict, ies: seq<IE>, i: nat): (es: seq<string>)
    requires WellFormed(d, ies) && i < |ies|
    ensures es != []
  {
    [IeEntry(d, ies, i)] + Decoy(d, ies[i])
  }

  function Entries(d: Dict, ies: seq<IE>, k: nat): seq<string>
    requires WellFormed(d, ies) && k <= |ies|
  {
    if k == 0 then [] else Entries(d, ies, k - 1) + IeEntries(d, ies, k - 1)
  }

  /** Every entry followed by a comma. */
  function Commas(es: seq<string>): string {
    if es == [] then "" else Commas(es[..|es| - 1]) + es[|es| - 1] + ","
  }

  /** The text before its last comma becomes '}', in an unlimited buffer. */
  function OpenText(d: Dict, ies: seq<IE>): string
    requires WellFormed(d, ies)
  {
    "{" + Commas(Entries(d, ies, |ies|))
  }

  /** What a buffer of `cap` bytes keeps of a text, its last character replaced by '}'. */
  function Closed(text: string, cap: nat): string
    requires text != "" && cap >= 2
  {
    var k := if |text| < cap then |text| else cap - 1;
    text[..k - 1] + "}"
  }

  function Encode(d: Dict, ies: seq<IE>, cap: nat): string
    requires WellFormed(d, ies) && cap >= 2
  {
    Closed(OpenText(d, ies), cap)
  }

  predicate Fits(d: Dict, ies: seq<IE>, cap: nat)
    requires WellFormed(d, ies)
  {
    |OpenText(d, ies)| < cap
  }

  // ---------------------------------------------------------------- decoding

  /** The decoder's variables between two entries: the identifier buffer (never initialised by
      the code), the cache flag and the elements appended; or how decoding ended. Undefined is a
      step to which C gives no meaning. */
  datatype Progress = Running(eid: Eid, cache: int, ies: seq<IE>) | Self | Undefined

  function AppendValue(d: Dict, self: Eid, id: nat, value: string, st: Progress): Progress
    requires st.Running? && id < |d.table|
  {
    match d.table[id].pltype
    case UNKNOWN => st
    case EXISTS =>
      (match Atoi(value)
       case None => Undefined
       case Some(x) => st.(ies := st.ies + [IE(IE_EXISTS, Uint(ToUint(x)))]))
    case UINT =>
      (match Atoi(value)
       case None => Undefined
       case Some(x) => Running(st.eid, if id == IE_CACHABLE then x else st.cache, st.ies + [IE(id, Uint(ToUint(x)))]))
    case BITFLAGS =>
      (match Atoi(value)
       case None => Undefined
       case Some(x) => st.(ies := st.ies + [IE(id, Flags(ToUint(x)))]))
    case STR => st.(ies := st.ies + [IE(id, Str(value))])
    case RAW =>
      if id == IE_EID then
        var eid := match ParseEid(value) case Some(e) => e case None => st.eid;
        if eid == self then Self else Running(eid, st.cache, st.ies + [IE(id, Id(eid))])
      else st.(ies := st.ies + [IE(id, Raw(value))])
  }

  /** One pass of the token loop: strsep, the two trims, the name search and the append. */
  function ParseEntry(d: Dict, self: Eid, entry: string, st: Progress): Progress {
    if !st.Running? then st
    else
      var (key, value) := Separate(entry);
      if value.None? || Trim(value.value, '"').None? || Trim(key, '"').None? then Undefined
      else
        match Lookup(d.table, Trim(key, '"').value)
        case None => st
        case Some(id) => AppendValue(d, self, id, Trim(value.value, '"').value, st)
  }

  function Run(d: Dict, self: Eid, entries: seq<string>, st: Progress): Progress {
    if entries == [] then st
    else ParseEntry(d, self, entries[|entries| - 1], Run(d, self, entries[..|entries| - 1], st))
  }

  datatype Decoded = Ok(ies: seq<IE>, cacheable: bool) | SelfEid | NoMeaning

  function LocalId(self: Eid): IE {
    IE(IE_EID, Id(self))
  }

  /** After the loop: an event without an identifier gets the local one. */
  function Finish(self: Eid, st: Progress): Decoded {
    match st
    case Undefined => NoMeaning
    case Self => SelfEid
    case Running(_, cache, ies) => Ok(if FirstOf(ies, IE_EID).Some? then ies else ies + [LocalId(self)], cache != 0)
  }

  /** json2message; `junk` is what the identifier buffer held before the call. */
  function Decode(d: Dict, self: Eid, junk: Eid, msg: string): Decoded {
    match Strip(msg)
    case None => NoMeaning
    case Some(t) => Finish(self, Run(d, self, Tokens(t, ','), Running(junk, 0, [])))
  }

  // ---------------------------------------------------------------- what survives the wire

  /** Values the unescaped text can carry. */
  predicate SafeIe(ie: IE) {
    match ie.payload
    case Uint(n) => n <= INT_MAX
    case Flags(n) => n <= INT_MAX
    case Str(s) => Free(s, ',')
    case _ => true
  }

  predicate WireSafe(ies: seq<IE>) {
    forall i :: 0 <= i < |ies| ==> SafeIe(ies[i])
  }

  predicate Carries(ies: seq<IE>, eid: Eid) {
    IE(IE_EID, Id(eid)) in ies
  }

  predicate Marks(ie: IE) {
    ie.id == IE_CACHABLE && ie.payload.Uint?
  }

  /** The value of the last Cachable element, 0 without one. */
  function Cachable(ies: seq<IE>): nat {
    if ies == [] then 0
    else
      var last := ies[|ies| - 1];
      if Marks(last) then last.payload.n
      else Cachable(ies[..|ies| - 1])
  }

  predicate LastMark(ies: seq<IE>, i: nat) {
    i < |ies| && Marks(ies[i]) && forall j :: i < j < |ies| ==> !Marks(ies[j])
  }

  /** Cachable reads the last Cachable element, wherever it stands. */
  lemma {:induction false} CachableIsLast(ies: seq<IE>, i: nat)
    ensures LastMark(ies, i) ==> Cachable(ies) == ies[i].payload.n
    ensures (forall j :: 0 <= j < |ies| ==> !Marks(ies[j])) ==> Cachable(ies) == 0
  {
    if ies != [] && !Marks(ies[|ies| - 1]) {
      var init := ies[..|ies| - 1];
      assert forall j :: 0 <= j < |init| ==> init[j] == ies[j];
      CachableIsLast(init, i);
    }
  }

  // ---------------------------------------------------------------- tokens of the text

  lemma {:induction false} CommasAppend(a: seq<string>, b: seq<string>)
    ensures Commas(a + b) == Commas(a) + Commas(b)
    decreases |b|
  {
    if b == [] {
      assert a + b == a;
    } else {
      var init, e := b[..|b| - 1], b[|b| - 1];
      CommasAppend(a, init);
      assert (a + b)[..|a + b| - 1] == a + init;
      assert Commas(a) + (Commas(init) + e + ",") == (Commas(a) + Commas(init)) + e + ",";
    }
  }

  lemma TokensTrailing(s: string)
    ensures Tokens(s + ",", ',') == Tokens(s, ',')
  {
    TokensAppend(s, ',', "");
    assert s + [','] + "" == s + ",";
  }

  /** Entry lists concatenate to token lists. */
  lemma TokensOfCommas(a: seq<string>, b: seq<string>)
    ensures Tokens(Commas(a + b), ',') == Tokens(Commas(a), ',') + Tokens(Commas(b), ',')
  {
    CommasAppend(a, b);
    if a == [] {
      assert Commas(a) + Commas(b) == Commas(b);
    } else {
      var s := Commas(a[..|a| - 1]) + a[|a| - 1];
      TokensAppend(s, ',', Commas(b));
      assert s + [','] + Commas(b) == Commas(a) + Commas(b);
      TokensTrailing(s);
    }
  }

  lemma TokensOfEntry(e: string)
    ensures Tokens(Commas([e]), ',') == Tokens(e, ',')
  {
    assert [e][..0] == [];
    assert Commas([e]) == e + ",";
    TokensTrailing(e);
  }

  /** Entries separated, rather than followed, by commas. */
  function Join(es: seq<string>): string {
    if es == [] then "" else Commas(es[..|es| - 1]) + es[|es| - 1]
  }

  /** The token loop sees exactly the entries that were joined, if they hold no comma. */
  lemma {:induction false} TokensOfJoin(es: seq<string>)
    requires forall i :: 0 <= i < |es| ==> es[i] != "" && Free(es[i], ',')
    ensures Tokens(Join(es), ',') == es
  {
    if es != [] {
      var init, e := es[..|es| - 1], es[|es| - 1];
      TokensOfJoin(init);
      TokensSingle(e, ',');
      if init == [] {
        assert Commas(init) + e == e;
      } else {
        assert Commas(init) == Join(init) + ",";
        assert Join(es) == Join(init) + [','] + e;
        TokensAppend(Join(init), ',', e);
      }
    }
  }

  /** An untruncated message. */
  lemma EncodeShape(d: Dict, ies: seq<IE>, cap: nat)
    requires WellFormed(d, ies) && ies != [] && cap >= 2 && Fits(d, ies, cap)
    ensures Encode(d, ies, cap) == "{" + Join(Entries(d, ies, |ies|)) + "}"
    ensures Commas(Entries(d, ies, |ies|)) == Join(Entries(d, ies, |ies|)) + ","
  {
  }

  /** Stripping an untruncated message leaves the entries' tokens. */
  lemma TokensOfMessage(d: Dict, ies: seq<IE>, cap: nat)
    requires WellFormed(d, ies) && ies != [] && Fits(d, ies, cap)
    ensures Strip(Encode(d, ies, cap)).Some?
    ensures Tokens(Strip(Encode(d, ies, cap)).value, ',') == Tokens(Commas(Entries(d, ies, |ies|)), ',')
  {
    EncodeShape(d, ies, cap);
    TokensTrailing(Join(Entries(d, ies, |ies|)));
  }

  // ---------------------------------------------------------------- the token loop

  lemma {:induction false} RunAppend(d: Dict, self: Eid, a: seq<string>, b: seq<string>, st: Progress)
    ensures Run(d, self, a + b, st) == Run(d, self, b, Run(d, self, a, st))
    decreases |b|
  {
    if b == [] {
      assert a + b == a;
    } else {
      RunAppend(d, self, a, b[..|b| - 1], st);
      assert (a + b)[..|a + b| - 1] == a + b[..|b| - 1] && (a + b)[|a + b| - 1] == b[|b| - 1];
    }
  }

  /** `b` continues `a`: elements are never taken back, and an ended run stays ended. */
  predicate Extends(a: Progress, b: Progress) {
    (!a.Running? ==> b == a) && (b.Running? ==> a.Running? && a.ies <= b.ies)
  }

  lemma ExtendsTransitive(a: Progress, b: Progress, c: Progress)
    requires Extends(a, b) && Extends(b, c)
    ensures Extends(a, c)
  {
  }

  lemma AppendExtends(d: Dict, self: Eid, id: nat, value: string, st: Progress)
    requires st.Running? && id < |d.table|
    ensures Extends(st, AppendValue(d, self, id, value, st))
  {
  }

  lemma ParseExtends(d: Dict, self: Eid, entry: string, st: Progress)
    ensures Extends(st, ParseEntry(d, self, entry, st))
  {
    forall id: nat, value: string | st.Running? && id < |d.table|
      ensures Extends(st, AppendValue(d, self, id, value, st))
    {
      AppendExtends(d, self, id, value, st);
    }
  }

  lemma {:induction false} RunExtends(d: Dict, self: Eid, entries: seq<string>, st: Progress)
    ensures Extends(st, Run(d, self, entries, st))
  {
    if entries != [] {
      var mid := Run(d, self, entries[..|entries| - 1], st);
      RunExtends(d, self, entries[..|entries| - 1], st);
      ParseExtends(d, self, entries[|entries| - 1], mid);
      ExtendsTransitive(st, mid, Run(d, self, entries, st));
    }
  }

  lemma RunOne(d: Dict, self: Eid, e: string, st: Progress)
    ensures Run(d, self, [e], st) == ParseEntry(d, self, e, st)
  {
    assert [e][..0] == [];
  }

  lemma PairSeparates(name: string, value: string)
    requires PlainName(name)
    ensures Separate(Pair(name, value)) == (Quote(name), Some(value))
    ensures Trim(Quote(name), '"') == Some(name)
  {
    var q := Quote(name);
    assert Free(q, ':') by {
      assert forall i :: 1 <= i <= |name| ==> q[i] == name[i - 1];
    }
    SeparateAt(q, value);
    TrimQuote(name);
  }

  lemma PairFree(name: string, value: string, c: char)
    requires PlainName(name) && Free(value, c) && (c == ',' || c == NUL)
    ensures Free(Pair(name, value), c)
  {
    assert Free(name, c);
  }

  lemma PairToken(name: string, value: string)
    requires PlainName(name) && Free(value, ',')
    ensures Tokens(Commas([Pair(name, value)]), ',') == [Pair(name, value)]
  {
    PairFree(name, value, ',');
    TokensOfEntry(Pair(name, value));
    TokensSingle(Pair(name, value), ',');
  }

  /** What one element's entry does: the payload comes back, the flag and buffer follow it. */
  function After(ie: IE, st: Progress): Progress
    requires st.Running?
  {
    Running(if ie.payload.Id? then ie.payload.eid else st.eid,
            if ie.id == IE_CACHABLE && ie.payload.Uint? then ie.payload.n else st.cache,
            st.ies + [ie])
  }

  lemma DigitsBare(n: nat)
    ensures Trim(Decimal(n), '"') == Some(Decimal(n))
    ensures Free(Decimal(n), ',') && Free(Decimal(n), NUL)
  {
    assert IsDigit(Decimal(n)[0]) && IsDigit(Decimal(n)[|Decimal(n)| - 1]);
    TrimBare(Decimal(n));
  }

  /** Shape of an element's first entry: its quoted name and a value that trims to plain text. */
  function Bare(d: Dict, ie: IE): string
    requires WellTyped(d, ie)
  {
    match ie.payload
    case Uint(n) => Decimal(n)
    case Flags(n) => Decimal(n)
    case Str(s) => s
    case Id(e) => EidText(e)
    case _ => ""
  }

  function Printed(d: Dict, ie: IE): string
    requires WellTyped(d, ie)
  {
    if ie.payload.Uint? || ie.payload.Flags? then Bare(d, ie) else Quote(Bare(d, ie))
  }

  lemma EntryShape(d: Dict, ies: seq<IE>, i: nat)
    requires ValidDict(d) && WellFormed(d, ies) && i < |ies|
    ensures PlainName(Name(d, ies[i]))
    ensures Lookup(d.table, Name(d, ies[i])) == Some(ies[i].id)
    ensures IeEntry(d, ies, i) == Pair(Name(d, ies[i]), Printed(d, ies[i]))
    ensures Trim(Printed(d, ies[i]), '"') == Some(Bare(d, ies[i]))
  {
    var ie := ies[i];
    assert WellTyped(d, ie) && ValidEntry(d.table, ie.id);
    LookupName(d.table, ie.id);
    if ie.payload.Uint? || ie.payload.Flags? {
      DigitsBare(if ie.payload.Uint? then ie.payload.n else ie.payload.bits);
    } else {
      TrimQuote(Bare(d, ie));
    }
  }

  lemma QuoteFree(s: string, c: char)
    requires Free(s, c) && c != '"'
    ensures Free(Quote(s), c)
  {
  }

  lemma PrintedFree(d: Dict, ie: IE)
    requires WellTyped(d, ie) && !ie.payload.Raw?
    ensures Free(Printed(d, ie), NUL)
    ensures SafeIe(ie) ==> Free(Printed(d, ie), ',')
  {
    if ie.payload.Uint? {
      DigitsBare(ie.payload.n);
    } else if ie.payload.Flags? {
      DigitsBare(ie.payload.bits);
    } else if ie.payload.Id? {
      EidTextPlain(ie.payload.eid);
    }
  }

  /** The decoy entry printed after a State element changes nothing. */
  lemma DecoyIgnored(d: Dict, self: Eid, ie: IE, st: Progress)
    requires ValidDict(d)
    ensures Run(d, self, Tokens(Commas(Decoy(d, ie)), ','), st) == st
  {
    if Decoy(d, ie) != [] {
      var v := d.devstate(ie.payload.n);
      QuoteFree(v, ',');
      PairToken(STATESTR, Quote(v));
      PairSeparates(STATESTR, Quote(v));
      TrimQuote(v);
      DecoyMisses(d.table);
      RunOne(d, self, Pair(STATESTR, Quote(v)), st);
    }
  }

  /** A well-formed entry hands its trimmed value to the append. */
  lemma PairParses(d: Dict, self: Eid, name: string, id: nat, printed: string, bare: string, st: Progress)
    requires PlainName(name) && Lookup(d.table, name) == Some(id)
    requires Trim(printed, '"') == Some(bare) && st.Running?
    ensures ParseEntry(d, self, Pair(name, printed), st) == AppendValue(d, self, id, bare, st)
  {
    PairSeparates(name, printed);
  }

  lemma AppendNumber(d: Dict, self: Eid, ie: IE, st: Progress)
    requires ValidDict(d) && WellTyped(d, ie) && st.Running?
    requires SafeIe(ie) && (ie.payload.Uint? || ie.payload.Flags?)
    ensures AppendValue(d, self, ie.id, Bare(d, ie), st) == After(ie, st)
  {
    AtoiOfDecimal(if ie.payload.Uint? then ie.payload.n else ie.payload.bits);
  }

  lemma AppendId(d: Dict, self: Eid, ie: IE, st: Progress)
    requires WellTyped(d, ie) && st.Running? && ie.payload.Id? && ie != LocalId(self)
    ensures AppendValue(d, self, ie.id, Bare(d, ie), st) == After(ie, st)
  {
    ParseEidText(ie.payload.eid);
  }

  lemma AppendSafe(d: Dict, self: Eid, ie: IE, st: Progress)
    requires ValidDict(d) && WellTyped(d, ie) && st.Running?
    requires SafeIe(ie) && ie != LocalId(self)
    ensures AppendValue(d, self, ie.id, Bare(d, ie), st) == After(ie, st)
  {
    assert ValidEntry(d.table, ie.id);
    if ie.payload.Uint? || ie.payload.Flags? {
      AppendNumber(d, self, ie, st);
    } else if ie.payload.Id? {
      AppendId(d, self, ie, st);
    }
  }

  lemma AppendSelf(d: Dict, self: Eid, st: Progress)
    requires ValidDict(d) && WellTyped(d, LocalId(self)) && st.Running?
    ensures AppendValue(d, self, IE_EID, Bare(d, LocalId(self)), st) == Self
  {
    ParseEidText(self);
  }

  lemma AppendTooBig(d: Dict, self: Eid, ie: IE, st: Progress)
    requires ValidDict(d) && WellTyped(d, ie) && st.Running?
    requires !SafeIe(ie) && !ie.payload.Str?
    ensures AppendValue(d, self, ie.id, Bare(d, ie), st) == Undefined
  {
    AtoiOfDecimal(if ie.payload.Uint? then ie.payload.n else ie.payload.bits);
  }

  lemma {:induction false} SplitEntries(d: Dict, self: Eid, ies: seq<IE>, k: nat, st: Progress)
    requires WellFormed(d, ies) && k < |ies|
    ensures Run(d, self, Tokens(Commas(Entries(d, ies, k + 1)), ','), st)
         == Run(d, self, Tokens(Commas(IeEntries(d, ies, k)), ','),
                Run(d, self, Tokens(Commas(Entries(d, ies, k)), ','), st))
  {
    TokensOfCommas(Entries(d, ies, k), IeEntries(d, ies, k));
    RunAppend(d, self, Tokens(Commas(Entries(d, ies, k)), ','), Tokens(Commas(IeEntries(d, ies, k)), ','), st);
  }

  lemma SplitDecoy(d: Dict, self: Eid, ies: seq<IE>, i: nat, st: Progress)
    requires ValidDict(d) && WellFormed(d, ies) && i < |ies|
    ensures Run(d, self, Tokens(Commas(IeEntries(d, ies, i)), ','), st)
         == Run(d, self, Tokens(Pair(Name(d, ies[i]), Printed(d, ies[i])), ','), st)
  {
    EntryShape(d, ies, i);
    var e := Pair(Name(d, ies[i]), Printed(d, ies[i]));
    TokensOfCommas([e], Decoy(d, ies[i]));
    TokensOfEntry(e);
    RunAppend(d, self, Tokens(e, ','), Tokens(Commas(Decoy(d, ies[i])), ','), st);
    DecoyIgnored(d, self, ies[i], Run(d, self, Tokens(e, ','), st));
  }

  lemma WholeEntry(d: Dict, self: Eid, ies: seq<IE>, i: nat, st: Progress)
    requires ValidDict(d) && WellFormed(d, ies) && i < |ies| && st.Running?
    requires SafeIe(ies[i]) || !ies[i].payload.Str?
    ensures Run(d, self, Tokens(Commas(IeEntries(d, ies, i)), ','), st)
         == AppendValue(d, self, ies[i].id, Bare(d, ies[i]), st)
  {
    var ie := ies[i];
    SplitDecoy(d, self, ies, i, st);
    EntryShape(d, ies, i);
    assert ValidEntry(d.table, ie.id);
    assert Free(Printed(d, ie), ',') by {
      PrintedFree(d, ie);
      if ie.payload.Uint? {
        DigitsBare(ie.payload.n);
      } else if ie.payload.Flags? {
        DigitsBare(ie.payload.bits);
      }
    }
    var e := Pair(Name(d, ie), Printed(d, ie));
    PairFree(Name(d, ie), Printed(d, ie), ',');
    TokensSingle(e, ',');
    RunOne(d, self, e, st);
    PairParses(d, self, Name(d, ie), ie.id, Printed(d, ie), Bare(d, ie), st);
  }

  /** A comma inside a string cuts its entry there. */
  lemma CutToken(name: string, s: string)
    requires PlainName(name) && !Free(s, ',')
    ensures Tokens(Pair(name, Quote(s)), ',') != []
    ensures Tokens(Pair(name, Quote(s)), ',')[0] == Pair(name, "\"" + s[..IndexOf(s, ',')])
  {
    var e := Pair(name, Quote(s));
    var k := IndexOf(s, ',');
    var cut := Pair(name, "\"" + s[..k]);
    assert e == cut + s[k..] + "\"";
    PairFree(name, "\"" + s[..k], ',');
    assert forall i :: 0 <= i < |cut| ==> e[i] == cut[i];
    IndexOfUnique(e, ',', |cut|);
    TokensHead(e, ',');
    assert e[..|cut|] == cut;
  }

  /** The same element with a shorter string. */
  predicate Shorter(a: IE, b: IE) {
    a.id == b.id && a.payload.Str? && b.payload.Str? && |a.payload.s| < |b.payload.s|
  }

  /** The element of a cut entry comes back shorter, or not at all. */
  lemma CutParses(d: Dict, self: Eid, name: string, ie: IE, st: Progress)
    requires PlainName(name) && Lookup(d.table, name) == Some(ie.id) && d.table[ie.id].pltype == STR
    requires st.Running? && ie.payload.Str? && !Free(ie.payload.s, ',')
    ensures var r := ParseEntry(d, self, Pair(name, "\"" + ie.payload.s[..IndexOf(ie.payload.s, ',')]), st);
            r.Running? ==> |r.ies| == |st.ies| + 1 && Shorter(r.ies[|st.ies|], ie)
  {
    var v := "\"" + ie.payload.s[..IndexOf(ie.payload.s, ',')];
    PairSeparates(name, v);
    TrimNoLonger(v, '"');
  }

  lemma CutEntry(d: Dict, self: Eid, ies: seq<IE>, i: nat, st: Progress)
    requires ValidDict(d) && WellFormed(d, ies) && i < |ies| && st.Running?
    requires ies[i].payload.Str? && !SafeIe(ies[i])
    ensures var r := Run(d, self, Tokens(Commas(IeEntries(d, ies, i)), ','), st);
            r.Running? ==> |r.ies| > |st.ies| && Shorter(r.ies[|st.ies|], ies[i])
  {
    var ie := ies[i];
    SplitDecoy(d, self, ies, i, st);
    EntryShape(d, ies, i);
    CutToken(Name(d, ie), ie.payload.s);
    CutParses(d, self, Name(d, ie), ie, st);
    var toks := Tokens(Pair(Name(d, ie), Printed(d, ie)), ',');
    HeadRun(d, self, toks, st);
  }

  /** A run extends what its first entry did. */
  lemma HeadRun(d: Dict, self: Eid, toks: seq<string>, st: Progress)
    requires toks != []
    ensures Extends(ParseEntry(d, self, toks[0], st), Run(d, self, toks, st))
  {
    assert toks == [toks[0]] + toks[1..];
    RunAppend(d, self, [toks[0]], toks[1..], st);
    RunOne(d, self, toks[0], st);
    RunExtends(d, self, toks[1..], ParseEntry(d, self, toks[0], st));
  }

  // ---------------------------------------------------------------- main results

  /** The state after the entries of the first `k` elements. */
  function RunTo(d: Dict, self: Eid, ies: seq<IE>, k: nat, st: Progress): Progress
    requires WellFormed(d, ies) && k <= |ies|
  {
    Run(d, self, Tokens(Commas(Entries(d, ies, k)), ','), st)
  }

  lemma SafeStep(d: Dict, self: Eid, ies: seq<IE>, k: nat, start: Progress)
    requires ValidDict(d) && WellFormed(d, ies) && k < |ies|
    requires SafeIe(ies[k]) && ies[k] != LocalId(self)
    requires RunTo(d, self, ies, k, start).Running?
    ensures RunTo(d, self, ies, k + 1, start) == After(ies[k], RunTo(d, self, ies, k, start))
  {
    SplitEntries(d, self, ies, k, start);
    WholeEntry(d, self, ies, k, RunTo(d, self, ies, k, start));
    AppendSafe(d, self, ies[k], RunTo(d, self, ies, k, start));
  }

  lemma CachableSnoc(ies: seq<IE>, ie: IE)
    ensures Cachable(ies + [ie]) == if ie.id == IE_CACHABLE && ie.payload.Uint? then ie.payload.n else Cachable(ies)
  {
    assert (ies + [ie])[..|ies|] == ies;
  }

  /** The identifier buffer after some elements: the last identifier, or what it held before. */
  function Buffer(junk: Eid, ies: seq<IE>): Eid {
    if ies == [] then junk
    else if ies[|ies| - 1].payload.Id? then ies[|ies| - 1].payload.eid
    else Buffer(junk, ies[..|ies| - 1])
  }

  lemma BufferSnoc(junk: Eid, ies: seq<IE>, ie: IE)
    ensures Buffer(junk, ies + [ie]) == if ie.payload.Id? then ie.payload.eid else Buffer(junk, ies)
  {
    assert (ies + [ie])[..|ies|] == ies;
  }

  /** After the entries of the first `k` elements, exactly those elements have been appended. */
  lemma {:induction false} PrefixRun(d: Dict, self: Eid, junk: Eid, ies: seq<IE>, k: nat)
    requires ValidDict(d) && WellFormed(d, ies) && k <= |ies|
    requires WireSafe(ies[..k]) && !Carries(ies[..k], self)
    ensures RunTo(d, self, ies, k, Running(junk, 0, []))
        == Running(Buffer(junk, ies[..k]), Cachable(ies[..k]), ies[..k])
  {
    if k > 0 {
      var ie := ies[k - 1];
      assert ies[..k] == ies[..k - 1] + [ie];
      CachableSnoc(ies[..k - 1], ie);
      BufferSnoc(junk, ies[..k - 1], ie);
      PrefixRun(d, self, junk, ies, k - 1);
      SafeStep(d, self, ies, k - 1, Running(junk, 0, []));
    }
  }

  lemma ExtendsStep(d: Dict, self: Eid, ies: seq<IE>, k: nat, st: Progress)
    requires WellFormed(d, ies) && k < |ies|
    ensures Extends(RunTo(d, self, ies, k, st), RunTo(d, self, ies, k + 1, st))
  {
    SplitEntries(d, self, ies, k, st);
    RunExtends(d, self, Tokens(Commas(IeEntries(d, ies, k)), ','), RunTo(d, self, ies, k, st));
  }

  lemma {:induction false} ChainExtends(states: seq<Progress>, k: nat, n: nat)
    requires k <= n < |states|
    requires forall i :: 0 <= i < |states| - 1 ==> Extends(states[i], states[i + 1])
    ensures Extends(states[k], states[n])
    decreases n - k
  {
    if k < n {
      ChainExtends(states, k, n - 1);
      ExtendsTransitive(states[k], states[n - 1], states[n]);
    }
  }

  lemma ExtendsNext(d: Dict, self: Eid, ies: seq<IE>, k: nat, st: Progress, a: Progress, b: Progress)
    requires WellFormed(d, ies) && k < |ies|
    requires a == RunTo(d, self, ies, k, st) && b == RunTo(d, self, ies, k + 1, st)
    ensures Extends(a, b)
  {
    ExtendsStep(d, self, ies, k, st);
  }

  /** Whatever follows entry `k`, the final run extends the run up to it. */
  lemma SuffixRun(d: Dict, self: Eid, ies: seq<IE>, k: nat, n: nat, st: Progress)
    requires WellFormed(d, ies) && k <= n <= |ies|
    ensures Extends(RunTo(d, self, ies, k, st), RunTo(d, self, ies, n, st))
  {
    var states := seq(|ies| + 1, i requires 0 <= i <= |ies| => RunTo(d, self, ies, i, st));
    forall i | 0 <= i < |states| - 1
      ensures Extends(states[i], states[i + 1])
    {
      ExtendsNext(d, self, ies, i, st, states[i], states[i + 1]);
    }
    ChainExtends(states, k, n);
  }

  /** What a receiver makes of any wire-safe event that fits the buffer. */
  function Received(self: Eid, ies: seq<IE>): Decoded {
    if Carries(ies, self) then SelfEid
    else Ok(if FirstOf(ies, IE_EID).Some? then ies else ies + [LocalId(self)], Cachable(ies) != 0)
  }

  lemma SelfRun(d: Dict, self: Eid, junk: Eid, ies: seq<IE>, p: nat)
    requires ValidDict(d) && WellFormed(d, ies) && p < |ies| && ies[p] == LocalId(self)
    requires WireSafe(ies[..p]) && !Carries(ies[..p], self)
    ensures RunTo(d, self, ies, |ies|, Running(junk, 0, [])) == Self
  {
    var st := Running(junk, 0, []);
    PrefixRun(d, self, junk, ies, p);
    var mid := Running(Buffer(junk, ies[..p]), Cachable(ies[..p]), ies[..p]);
    SplitEntries(d, self, ies, p, st);
    WholeEntry(d, self, ies, p, mid);
    AppendSelf(d, self, mid);
    SuffixRun(d, self, ies, p + 1, |ies|, st);
  }

  /** Round trip, echo suppression and the added identifier, for every wire-safe event. */
  lemma DecodeEncode(d: Dict, self: Eid, junk: Eid, ies: seq<IE>, cap: nat)
    requires ValidDict(d) && WellFormed(d, ies) && ies != [] && Fits(d, ies, cap) && WireSafe(ies)
    ensures Decode(d, self, junk, Encode(d, ies, cap)) == Received(self, ies)
  {
    TokensOfMessage(d, ies, cap);
    if Carries(ies, self) {
      var p := FirstUnsafe(ies, self);
      SelfRun(d, self, junk, ies, p);
    } else {
      assert ies[..|ies|] == ies;
      PrefixRun(d, self, junk, ies, |ies|);
    }
  }

  /** First position the text cannot carry. */
  lemma {:induction false} FirstUnsafe(ies: seq<IE>, self: Eid) returns (p: nat)
    requires !WireSafe(ies) || Carries(ies, self)
    ensures p < |ies| && (!SafeIe(ies[p]) || ies[p] == LocalId(self))
    ensures WireSafe(ies[..p]) && !Carries(ies[..p], self)
  {
    p := 0;
    assert ies[..|ies|] == ies;
    while p < |ies| && SafeIe(ies[p]) && ies[p] != LocalId(self)
      invariant p <= |ies| && WireSafe(ies[..p]) && !Carries(ies[..p], self)
    {
      assert ies[..p + 1] == ies[..p] + [ies[p]];
      p := p + 1;
    }
  }

  /** An element the text cannot carry is not what its entry appends. */
  lemma UnsafeEntry(d: Dict, self: Eid, ies: seq<IE>, p: nat, st: Progress)
    requires ValidDict(d) && WellFormed(d, ies) && p < |ies| && st.Running?
    requires !SafeIe(ies[p]) || ies[p] == LocalId(self)
    ensures Damaged(Run(d, self, Tokens(Commas(IeEntries(d, ies, p)), ','), st), |st.ies|, ies[p])
  {
    if !SafeIe(ies[p]) && ies[p].payload.Str? {
      CutEntry(d, self, ies, p, st);
    } else {
      WholeEntry(d, self, ies, p, st);
      if SafeIe(ies[p]) {
        AppendSelf(d, self, st);
      } else {
        AppendTooBig(d, self, ies[p], st);
      }
    }
  }

  predicate Damaged(st: Progress, k: nat, ie: IE) {
    st.Running? ==> |st.ies| > k && st.ies[k] != ie
  }

  lemma ExtendsKeepsLoss(a: Progress, b: Progress, k: nat, ie: IE)
    requires Extends(a, b) && Damaged(a, k, ie)
    ensures Damaged(b, k, ie)
  {
  }

  lemma UnsafeStep(d: Dict, self: Eid, ies: seq<IE>, k: nat, start: Progress)
    requires ValidDict(d) && WellFormed(d, ies) && k < |ies|
    requires !SafeIe(ies[k]) || ies[k] == LocalId(self)
    requires RunTo(d, self, ies, k, start).Running? && |RunTo(d, self, ies, k, start).ies| == k
    ensures Damaged(RunTo(d, self, ies, k + 1, start), k, ies[k])
  {
    SplitEntries(d, self, ies, k, start);
    UnsafeEntry(d, self, ies, k, RunTo(d, self, ies, k, start));
  }

  lemma UnsafeLost(d: Dict, self: Eid, junk: Eid, ies: seq<IE>, p: nat)
    requires ValidDict(d) && WellFormed(d, ies) && p < |ies|
    requires !SafeIe(ies[p]) || ies[p] == LocalId(self)
    requires WireSafe(ies[..p]) && !Carries(ies[..p], self)
    ensures Damaged(RunTo(d, self, ies, |ies|, Running(junk, 0, [])), p, ies[p])
  {
    var st := Running(junk, 0, []);
    PrefixRun(d, self, junk, ies, p);
    UnsafeStep(d, self, ies, p, st);
    SuffixRun(d, self, ies, p + 1, |ies|, st);
    ExtendsKeepsLoss(RunTo(d, self, ies, p + 1, st), RunTo(d, self, ies, |ies|, st), p, ies[p]);
  }

  /** The exact condition of the round trip: an event that fits the buffer comes back as it was
      if and only if its strings hold no comma, its numbers are ints, and it carries an
      identifier, none of them the decoder's own. */
  lemma RoundTripIff(d: Dict, self: Eid, junk: Eid, ies: seq<IE>, cap: nat)
    requires ValidDict(d) && WellFormed(d, ies) && ies != [] && Fits(d, ies, cap)
    ensures (exists c :: Decode(d, self, junk, Encode(d, ies, cap)) == Ok(ies, c))
            <==> WireSafe(ies) && FirstOf(ies, IE_EID).Some? && !Carries(ies, self)
  {
    if WireSafe(ies) && !Carries(ies, self) {
      DecodeEncode(d, self, junk, ies, cap);
      if FirstOf(ies, IE_EID).Some? {
        assert Decode(d, self, junk, Encode(d, ies, cap)) == Ok(ies, Cachable(ies) != 0);
      } else {
        assert |ies + [LocalId(self)]| != |ies|;
      }
    } else {
      TokensOfMessage(d, ies, cap);
      var p := FirstUnsafe(ies, self);
      UnsafeLost(d, self, junk, ies, p);
    }
  }

  lemma EntriesNext(d: Dict, ies: seq<IE>, n: nat)
    requires WellFormed(d, ies) && n < |ies|
    ensures Commas(Entries(d, ies, n + 1)) == Commas(Entries(d, ies, n)) + Commas(IeEntries(d, ies, n))
  {
    CommasAppend(Entries(d, ies, n), IeEntries(d, ies, n));
  }
}

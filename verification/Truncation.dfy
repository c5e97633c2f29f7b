/** Messages cut by the buffer: what a receiver makes of the part that was kept, and whom it takes
    the event to come from. */
module Truncation {
  import opened CText
  import opened IeTable
  import opened EventCodec

  // ---------------------------------------------------------------- where a text is cut

  /** Each text is the one before with a non-empty part appended. */
  predicate Grows(texts: seq<string>, parts: seq<string>) {
    && |texts| == |parts| + 1 && texts[0] == ""
    && (forall i :: 0 <= i < |parts| ==> parts[i] != "")
    && (forall i {:trigger parts[i]} :: 0 <= i < |parts| ==> texts[i + 1] == texts[i] + parts[i])
  }

  /** The parts, summed up. */
  function Sums(parts: seq<string>): (r: seq<string>)
    ensures |r| == |parts| + 1
  {
    if parts == [] then [""]
    else
      var before := Sums(parts[..|parts| - 1]);
      before + [before[|parts| - 1] + parts[|parts| - 1]]
  }

  lemma {:induction false} SumsGrow(parts: seq<string>)
    ensures Sums(parts)[0] == ""
    ensures forall i {:trigger parts[i]} :: 0 <= i < |parts| ==> Sums(parts)[i + 1] == Sums(parts)[i] + parts[i]
  {
    if parts != [] {
      var init := parts[..|parts| - 1];
      SumsGrow(init);
      assert forall i :: 0 <= i < |init| ==> parts[i] == init[i];
    }
  }

  /** How far `b` lies behind the end of each text; negative for those that end behind it. */
  function Distances(texts: seq<string>, b: int): (rs: seq<int>)
    ensures |rs| == |texts|
  {
    seq(|texts|, i requires 0 <= i < |texts| => b - |texts[i]|)
  }

  /** Parts before `q` are kept whole, those behind it not at all, and `rs[q]` characters of `q`. */
  predicate CutIn(parts: seq<string>, q: nat, rs: seq<int>) {
    && q < |parts| < |rs|
    && (forall i :: 0 <= i < q ==> rs[i] >= |parts[i]|)
    && 0 <= rs[q] < |parts[q]|
    && (forall i :: q < i < |parts| ==> rs[i] < 0)
  }

  lemma {:induction false} PrefixesGrow(texts: seq<string>, parts: seq<string>, i: nat, j: nat)
    requires Grows(texts, parts) && i <= j < |texts|
    ensures texts[i] <= texts[j] && |texts[i]| <= |texts[j]|
    decreases j - i
  {
    if i < j {
      PrefixesGrow(texts, parts, i, j - 1);
      assert texts[j] == texts[j - 1] + parts[j - 1];
    }
  }

  lemma CutDistances(texts: seq<string>, parts: seq<string>, b: nat, q: nat)
    requires Grows(texts, parts) && q < |parts| && |texts[q]| <= b < |texts[q + 1]|
    ensures CutIn(parts, q, Distances(texts, b))
  {
    assert texts[q + 1] == texts[q] + parts[q];
    forall i | 0 <= i < q
      ensures b - |texts[i]| >= |parts[i]|
    {
      assert texts[i + 1] == texts[i] + parts[i];
      PrefixesGrow(texts, parts, i + 1, q);
    }
    forall i | q < i < |parts|
      ensures b - |texts[i]| < 0
    {
      PrefixesGrow(texts, parts, q + 1, i);
    }
  }

  lemma PrefixCut(all: string, a: string, p: string, b: nat)
    requires a + p <= all && |a| <= b <= |a + p|
    ensures all[..b] == a + p[..b - |a|]
  {
    assert (a + p)[..b] == all[..b];
  }

  /** The part that a cut falls into, and the text up to the cut. */
  lemma FindCut(texts: seq<string>, parts: seq<string>, b: nat) returns (q: nat)
    requires Grows(texts, parts) && b < |texts[|parts|]|
    ensures CutIn(parts, q, Distances(texts, b))
    ensures texts[|parts|][..b] == texts[q] + parts[q][..Distances(texts, b)[q]]
  {
    q := 0;
    while |texts[q + 1]| <= b
      invariant q < |parts| && |texts[q]| <= b
      decreases |parts| - q
    {
      q := q + 1;
    }
    CutDistances(texts, parts, b, q);
    assert texts[q + 1] == texts[q] + parts[q];
    PrefixesGrow(texts, parts, q + 1, |parts|);
    PrefixCut(texts[|parts|], texts[q], parts[q], b);
  }

  /** What starts alike and grows by the same parts stays alike. */
  lemma {:induction false} SameSteps(a: seq<string>, b: seq<string>, parts: seq<string>, k: nat)
    requires Grows(a, parts) && |a| == |b| && b[0] == "" && k < |a|
    requires forall i {:trigger parts[i]} :: 0 <= i < |parts| ==> b[i + 1] == b[i] + parts[i]
    ensures a[k] == b[k]
  {
    if k > 0 {
      SameSteps(a, b, parts, k - 1);
      assert a[k] == a[k - 1] + parts[k - 1];
    }
  }

  // ---------------------------------------------------------------- the kept part

  /** The entries of each element. */
  function Parts(d: Dict, ies: seq<IE>): (r: seq<string>)
    requires WellFormed(d, ies)
    ensures |r| == |ies|
  {
    seq(|ies|, i requires 0 <= i < |ies| => Commas(IeEntries(d, ies, i)))
  }

  /** The entries of the first elements, for every number of them. */
  function Texts(d: Dict, ies: seq<IE>): (r: seq<string>)
    requires WellFormed(d, ies)
    ensures |r| == |ies| + 1
  {
    Sums(Parts(d, ies))
  }

  lemma PartFilled(d: Dict, ies: seq<IE>, i: nat)
    requires WellFormed(d, ies) && i < |ies|
    ensures Parts(d, ies)[i] != ""
  {
  }

  lemma TextsGrow(d: Dict, ies: seq<IE>)
    requires WellFormed(d, ies)
    ensures Grows(Texts(d, ies), Parts(d, ies))
  {
    SumsGrow(Parts(d, ies));
    forall i | 0 <= i < |ies|
      ensures Parts(d, ies)[i] != ""
    {
      PartFilled(d, ies, i);
    }
  }

  /** The entries of the first elements, as printed. */
  function CommasOf(d: Dict, ies: seq<IE>): (r: seq<string>)
    requires WellFormed(d, ies)
    ensures |r| == |ies| + 1
  {
    seq(|ies| + 1, k requires 0 <= k <= |ies| => Commas(Entries(d, ies, k)))
  }

  lemma CommasStep(d: Dict, ies: seq<IE>, i: nat, a: string, b: string, part: string)
    requires WellFormed(d, ies) && i < |ies|
    requires a == Commas(Entries(d, ies, i)) && b == Commas(Entries(d, ies, i + 1))
    requires part == Commas(IeEntries(d, ies, i))
    ensures b == a + part
  {
    EntriesNext(d, ies, i);
  }

  lemma CommasGrow(d: Dict, ies: seq<IE>)
    requires WellFormed(d, ies)
    ensures CommasOf(d, ies)[0] == ""
    ensures forall i {:trigger Parts(d, ies)[i]} :: 0 <= i < |ies| ==>
              CommasOf(d, ies)[i + 1] == CommasOf(d, ies)[i] + Parts(d, ies)[i]
  {
    forall i | 0 <= i < |ies|
      ensures CommasOf(d, ies)[i + 1] == CommasOf(d, ies)[i] + Parts(d, ies)[i]
    {
      CommasStep(d, ies, i, CommasOf(d, ies)[i], CommasOf(d, ies)[i + 1], Parts(d, ies)[i]);
    }
  }

  lemma TextsEntries(d: Dict, ies: seq<IE>, k: nat)
    requires WellFormed(d, ies) && k <= |ies|
    ensures Texts(d, ies)[k] == Commas(Entries(d, ies, k))
  {
    TextsGrow(d, ies);
    CommasGrow(d, ies);
    SameSteps(Texts(d, ies), CommasOf(d, ies), Parts(d, ies), k);
    assert CommasOf(d, ies)[k] == Commas(Entries(d, ies, k));
  }

  /** How many characters of the entries the receiver is left with, braces and the last comma
      gone; -1 if the buffer has no room for two braces. */
  function Kept(d: Dict, ies: seq<IE>, cap: nat): int
    requires WellFormed(d, ies) && cap >= 2
  {
    (if |OpenText(d, ies)| < cap then |OpenText(d, ies)| else cap - 1) - 2
  }

  lemma KeptText(d: Dict, ies: seq<IE>, cap: nat)
    requires WellFormed(d, ies) && ies != [] && cap >= 2
    ensures -1 <= Kept(d, ies, cap) < |Texts(d, ies)[|ies|]|
    ensures Strip(Encode(d, ies, cap))
         == if Kept(d, ies, cap) < 0 then None else Some(Texts(d, ies)[|ies|][..Kept(d, ies, cap)])
  {
    TextsEntries(d, ies, |ies|);
    PartFilled(d, ies, |ies| - 1);
    TextsGrow(d, ies);
    assert Texts(d, ies)[|ies|] == Texts(d, ies)[|ies| - 1] + Parts(d, ies)[|ies| - 1];
    StripClosed(Texts(d, ies)[|ies|], cap);
  }

  lemma StripClosed(t: string, cap: nat)
    requires t != "" && cap >= 2
    ensures var b := (if |t| + 1 < cap then |t| + 1 else cap - 1) - 2;
            Strip(Closed("{" + t, cap)) == if b < 0 then None else Some(t[..b])
  {
    var b := (if |t| + 1 < cap then |t| + 1 else cap - 1) - 2;
    var text := "{" + t;
    assert Closed(text, cap) == text[..b + 1] + "}";
    if b >= 0 {
      assert (text[..b + 1] + "}")[1..b + 1] == text[1..b + 1] == t[..b];
    }
  }

  lemma WholeBefore(texts: seq<string>, parts: seq<string>, f: nat)
    requires Grows(texts, parts) && f < |parts|
    ensures |texts[|parts|]| >= |texts[f]| + |parts[f]|
  {
    assert texts[f + 1] == texts[f] + parts[f];
    PrefixesGrow(texts, parts, f + 1, |parts|);
  }

  lemma EntryNotShort(d: Dict, ies: seq<IE>, i: nat)
    requires ValidDict(d) && WellFormed(d, ies) && i < |ies|
    ensures |Commas(IeEntries(d, ies, i))| >= 4
  {
    WholeLength(d, ies, i);
  }

  /** No message is shorter than an event header. */
  lemma EncodedLength(d: Dict, ies: seq<IE>, cap: nat)
    requires ValidDict(d) && WellFormed(d, ies) && ies != [] && cap >= 5
    ensures |Encode(d, ies, cap)| >= 4
  {
    TextsGrow(d, ies);
    EntryNotShort(d, ies, 0);
    WholeBefore(Texts(d, ies), Parts(d, ies), 0);
    TextsEntries(d, ies, |ies|);
  }

  lemma TokensAfter(es: seq<string>, t: string)
    ensures Tokens(Commas(es) + t, ',') == Tokens(Commas(es), ',') + Tokens(t, ',')
  {
    if es == [] {
      assert Commas(es) + t == t;
    } else {
      var s := Commas(es[..|es| - 1]) + es[|es| - 1];
      TokensAppend(s, ',', t);
      assert s + [','] + t == Commas(es) + t;
      TokensTrailing(s);
    }
  }

  /** What is kept of the entries of the element that is cut. */
  function Piece(d: Dict, ies: seq<IE>, q: nat, r: nat): string
    requires WellFormed(d, ies) && q < |ies| && r <= |Commas(IeEntries(d, ies, q))|
  {
    Commas(IeEntries(d, ies, q))[..r]
  }

  /** The run over the first `b` characters of the entries. */
  function KeptRun(d: Dict, self: Eid, junk: Eid, ies: seq<IE>, b: nat): Progress
    requires WellFormed(d, ies) && b <= |Texts(d, ies)[|ies|]|
  {
    Run(d, self, Tokens(Texts(d, ies)[|ies|][..b], ','), Running(junk, 0, []))
  }

  /** The run over the kept entries of the element that is cut. */
  function PieceRun(d: Dict, self: Eid, ies: seq<IE>, q: nat, r: nat, st: Progress): Progress
    requires WellFormed(d, ies) && q < |ies| && r <= |Commas(IeEntries(d, ies, q))|
  {
    Run(d, self, Tokens(Piece(d, ies, q, r), ','), st)
  }

  lemma RunAfter(d: Dict, self: Eid, es: seq<string>, t: string, st: Progress)
    ensures Run(d, self, Tokens(Commas(es) + t, ','), st)
         == Run(d, self, Tokens(t, ','), Run(d, self, Tokens(Commas(es), ','), st))
  {
    TokensAfter(es, t);
    RunAppend(d, self, Tokens(Commas(es), ','), Tokens(t, ','), st);
  }

  /** The run over the kept text: the whole elements, then the piece. */
  lemma RunCut(d: Dict, self: Eid, junk: Eid, ies: seq<IE>, b: nat, q: nat, r: nat)
    requires WellFormed(d, ies) && q < |ies| && r <= |Commas(IeEntries(d, ies, q))| && b <= |Texts(d, ies)[|ies|]|
    requires Texts(d, ies)[|ies|][..b] == Texts(d, ies)[q] + Parts(d, ies)[q][..r]
    ensures KeptRun(d, self, junk, ies, b) == PieceRun(d, self, ies, q, r, RunTo(d, self, ies, q, Running(junk, 0, [])))
  {
    TextsEntries(d, ies, q);
    RunAfter(d, self, Entries(d, ies, q), Piece(d, ies, q, r), Running(junk, 0, []));
  }

  lemma PieceExtends(d: Dict, self: Eid, ies: seq<IE>, q: nat, r: nat, st: Progress)
    requires WellFormed(d, ies) && q < |ies| && r <= |Commas(IeEntries(d, ies, q))|
    ensures Extends(st, PieceRun(d, self, ies, q, r, st))
  {
    RunExtends(d, self, Tokens(Piece(d, ies, q, r), ','), st);
  }

  // ---------------------------------------------------------------- a cut entry

  function Shortened(s: string, n: nat): string {
    if n < |s| then s[..n] else s
  }

  predicate Numeric(ie: IE) {
    ie.payload.Uint? || ie.payload.Flags?
  }

  /** The cut leaves the start of the value: its first digit, or a quote and what follows it. */
  predicate Opened(name: string, numeric: bool, r: int) {
    r >= |name| + if numeric then 4 else 5
  }

  lemma PairCut(name: string, printed: string, r: nat)
    requires PlainName(name) && 0 < r <= |Pair(name, printed)|
    ensures r <= |name| + 2 ==> Separate(Pair(name, printed)[..r]).1 == None
    ensures r > |name| + 2 ==> Pair(name, printed)[..r] == Pair(name, printed[..r - |name| - 3])
  {
    var q := Quote(name);
    assert forall i :: 1 <= i <= |name| ==> q[i] == name[i - 1];
    if r <= |name| + 2 {
      var t := Pair(name, printed)[..r];
      assert t == q[..r];
      IndexOfUnique(t, ':', |t|);
    }
  }

  /** Trimming what is left of a quoted text. */
  lemma QuotedCut(s: string, v: nat)
    requires v <= |s| + 2
    ensures Trim(Quote(s)[..v], '"').Some? <==> v >= 2
    ensures 2 <= v < |s| + 2 && s[v - 2] != '"' ==> Trim(Quote(s)[..v], '"') == Some(s[..v - 1])
    ensures 2 <= v < |s| + 2 && s[v - 2] == '"' ==> Trim(Quote(s)[..v], '"') == Some(s[..v - 2])
    ensures v == |s| + 2 ==> Trim(Quote(s)[..v], '"') == Some(s)
  {
    var t := Quote(s)[..v];
    if v == |s| + 2 {
      TrimQuote(s);
      assert t == Quote(s);
    } else if v >= 2 {
      assert t[1..] == s[..v - 1];
      assert s[..v - 1][..v - 2] == s[..v - 2];
    }
  }

  /** What the decoder reads as the value when `v` characters of it are kept. */
  function Remnant(d: Dict, ie: IE, v: nat): Option<string>
    requires WellTyped(d, ie)
  {
    Trim(Shortened(Printed(d, ie), v), '"')
  }

  lemma NumberCut(d: Dict, ie: IE, v: nat)
    requires WellTyped(d, ie) && Numeric(ie) && v >= 1
    ensures Remnant(d, ie, v) == Some(Shortened(Bare(d, ie), v))
    ensures AllDigits(Shortened(Bare(d, ie), v)) && Shortened(Bare(d, ie), v) != ""
  {
    var s := Shortened(Bare(d, ie), v);
    assert AllDigits(Bare(d, ie));
    assert IsDigit(s[0]) && IsDigit(s[|s| - 1]);
    TrimBare(s);
  }

  /** Every number of which a digit is kept fits an int after the cut. */
  predicate InRange(d: Dict, ie: IE, v: nat)
    requires WellTyped(d, ie)
  {
    Numeric(ie) ==> Atoi(Shortened(Bare(d, ie), v)).Some?
  }

  /** The first `r` characters of an element's entries make sense to the decoder: none are kept,
      or the value has begun, is no number beyond an int, and the decoy has not begun or has
      begun its value too. */
  predicate Readable(d: Dict, ie: IE, r: int)
    requires WellTyped(d, ie)
  {
    var name := Name(d, ie);
    var rest := r - |Pair(name, Printed(d, ie))| - 1;
    r <= 0 || (Opened(name, Numeric(ie), r) && InRange(d, ie, r - |name| - 3)
               && (Decoy(d, ie) != [] && rest > 0 ==> Opened(STATESTR, false, rest)))
  }

  lemma RemnantQuoted(d: Dict, ie: IE, v: nat)
    requires WellTyped(d, ie) && !Numeric(ie)
    ensures Remnant(d, ie, v).Some? <==> v >= 2
  {
    var s := Bare(d, ie);
    if v <= |s| + 2 {
      QuotedCut(s, v);
      assert Shortened(Quote(s), v) == Quote(s)[..v];
    } else {
      TrimQuote(s);
    }
  }

  /** What is left of a value can be read as soon as it has begun. */
  lemma RemnantRead(d: Dict, ie: IE, v: nat)
    requires WellTyped(d, ie)
    ensures Remnant(d, ie, v).Some? <==> v >= if Numeric(ie) then 1 else 2
  {
    if Numeric(ie) {
      if v >= 1 {
        NumberCut(d, ie, v);
      }
    } else {
      RemnantQuoted(d, ie, v);
    }
  }

  lemma EntryKeyCut(d: Dict, self: Eid, name: string, printed: string, r: nat, st: Progress)
    requires PlainName(name) && 0 < r <= |name| + 2 && st.Running?
    ensures ParseEntry(d, self, Pair(name, printed)[..r], st) == Undefined
  {
    PairCut(name, printed, r);
  }

  lemma EntryValueCut(d: Dict, self: Eid, name: string, id: nat, printed: string, v: nat, st: Progress,
                      e: string, r: nat)
    requires PlainName(name) && Lookup(d.table, name) == Some(id) && v <= |printed| && st.Running?
    requires e == Pair(name, printed) && r == |name| + 3 + v
    ensures ParseEntry(d, self, e[..r], st)
         == match Trim(printed[..v], '"')
            case None => Undefined
            case Some(value) => AppendValue(d, self, id, value, st)
  {
    PairCut(name, printed, r);
    assert e[..r] == Pair(name, printed[..v]);
    PairSeparates(name, printed[..v]);
  }

  lemma EntryName(d: Dict, ies: seq<IE>, i: nat)
    requires ValidDict(d) && WellFormed(d, ies) && i < |ies|
    ensures PlainName(Name(d, ies[i])) && Lookup(d.table, Name(d, ies[i])) == Some(ies[i].id)
  {
    EntryShape(d, ies, i);
  }

  lemma RemnantIs(d: Dict, ie: IE, v: nat, printed: string)
    requires WellTyped(d, ie) && printed == Printed(d, ie) && v <= |printed|
    ensures Remnant(d, ie, v) == Trim(printed[..v], '"')
  {
    assert printed[..v] == Shortened(printed, v);
  }

  lemma EntryRemnant(d: Dict, self: Eid, ies: seq<IE>, i: nat, v: nat, st: Progress, e: string, r: nat)
    requires ValidDict(d) && WellFormed(d, ies) && i < |ies| && st.Running? && v <= |Printed(d, ies[i])|
    requires e == Pair(Name(d, ies[i]), Printed(d, ies[i])) && r == |Name(d, ies[i])| + 3 + v
    ensures ParseEntry(d, self, e[..r], st)
         == match Remnant(d, ies[i], v)
            case None => Undefined
            case Some(value) => AppendValue(d, self, ies[i].id, value, st)
  {
    EntryName(d, ies, i);
    RemnantIs(d, ies[i], v, Printed(d, ies[i]));
    EntryValueCut(d, self, Name(d, ies[i]), ies[i].id, Printed(d, ies[i]), v, st, e, r);
  }

  lemma EntryUnopened(d: Dict, self: Eid, ies: seq<IE>, i: nat, r: nat, st: Progress, name: string, printed: string)
    requires ValidDict(d) && WellFormed(d, ies) && i < |ies| && st.Running? && name == Name(d, ies[i])
    requires 0 < r <= |name| + 2
    ensures ParseEntry(d, self, Pair(name, printed)[..r], st) == Undefined
  {
    EntryName(d, ies, i);
    EntryKeyCut(d, self, name, printed, r, st);
  }

  /** What the decoder makes of the kept part of an element's entries. */
  function PieceResult(d: Dict, self: Eid, ie: IE, r: nat, st: Progress): Progress
    requires WellTyped(d, ie) && st.Running?
  {
    if r == 0 then st
    else if r <= |Name(d, ie)| + 2 then Undefined
    else
      match Remnant(d, ie, r - |Name(d, ie)| - 3)
      case None => Undefined
      case Some(value) => AppendValue(d, self, ie.id, value, st)
  }

  /** An entry of which `r` characters are kept. */
  lemma EntryCut(d: Dict, self: Eid, ies: seq<IE>, i: nat, r: nat, st: Progress, e: string)
    requires ValidDict(d) && WellFormed(d, ies) && i < |ies| && st.Running?
    requires e == Pair(Name(d, ies[i]), Printed(d, ies[i])) && 0 < r <= |e|
    ensures ParseEntry(d, self, e[..r], st) == PieceResult(d, self, ies[i], r, st)
  {
    var name, printed := Name(d, ies[i]), Printed(d, ies[i]);
    if r <= |name| + 2 {
      EntryUnopened(d, self, ies, i, r, st, name, printed);
    } else {
      EntryRemnant(d, self, ies, i, r - |name| - 3, st, e, r);
    }
  }

  lemma PairRest(name: string, printed: string, e: string, r: nat)
    requires PlainName(name) && e == Pair(name, printed) && |name| + 2 < r <= |e|
    ensures e[..r] == Pair(name, printed[..r - |name| - 3])
  {
    PairCut(name, printed, r);
  }

  lemma MissedValueCut(d: Dict, self: Eid, name: string, s: string, v: nat, t: string, st: Progress)
    requires PlainName(name) && Lookup(d.table, name).None? && v <= |s| + 2 && st.Running?
    requires t == Pair(name, Quote(s)[..v])
    ensures ParseEntry(d, self, t, st) == if v >= 2 then st else Undefined
  {
    QuotedCut(s, v);
    PairSeparates(name, Quote(s)[..v]);
  }

  lemma MissedLate(d: Dict, self: Eid, name: string, s: string, e: string, r: nat, st: Progress)
    requires PlainName(name) && Lookup(d.table, name).None? && st.Running?
    requires e == Pair(name, Quote(s)) && |name| + 2 < r <= |e|
    ensures ParseEntry(d, self, e[..r], st) == if r >= |name| + 5 then st else Undefined
  {
    PairRest(name, Quote(s), e, r);
    MissedValueCut(d, self, name, s, r - |name| - 3, e[..r], st);
  }

  /** A cut entry whose key names no element. */
  lemma MissedCut(d: Dict, self: Eid, name: string, s: string, e: string, r: nat, st: Progress)
    requires PlainName(name) && Lookup(d.table, name).None? && st.Running?
    requires e == Pair(name, Quote(s)) && 0 < r <= |e|
    ensures ParseEntry(d, self, e[..r], st) == if Opened(name, false, r) then st else Undefined
  {
    if r <= |name| + 2 {
      EntryKeyCut(d, self, name, Quote(s), r, st);
    } else {
      MissedLate(d, self, name, s, e, r, st);
    }
  }

  lemma DecoyCut(d: Dict, self: Eid, ie: IE, r: nat, st: Progress)
    requires ValidDict(d) && Decoy(d, ie) != [] && 0 < r <= |Decoy(d, ie)[0]| && st.Running?
    ensures ParseEntry(d, self, Decoy(d, ie)[0][..r], st) == if Opened(STATESTR, false, r) then st else Undefined
  {
    DecoyMisses(d.table);
    MissedCut(d, self, STATESTR, d.devstate(ie.payload.n), Decoy(d, ie)[0], r, st);
  }

  /** The piece as entries: the element's own, and if that is whole, what is left of the decoy. */
  lemma PieceText(d: Dict, ies: seq<IE>, q: nat, r: nat)
    requires ValidDict(d) && WellFormed(d, ies) && q < |ies| && r < |Commas(IeEntries(d, ies, q))|
    ensures var e := Pair(Name(d, ies[q]), Printed(d, ies[q]));
            var decoy := Decoy(d, ies[q]);
            && (r <= |e| ==> Piece(d, ies, q, r) == e[..r])
            && (r > |e| ==> decoy != [] && r - |e| - 1 <= |decoy[0]|
                            && Piece(d, ies, q, r) == Commas([e]) + decoy[0][..r - |e| - 1])
  {
    var e := Pair(Name(d, ies[q]), Printed(d, ies[q]));
    var decoy := Decoy(d, ies[q]);
    EntryShape(d, ies, q);
    CommasAppend([e], decoy);
    assert [e][..0] == [];
    assert Commas([e]) == e + ",";
    if decoy != [] {
      assert decoy == [decoy[0]] && decoy[..0] == [];
      assert Commas(decoy) == decoy[0] + ",";
    }
  }

  lemma EntryFree(d: Dict, ies: seq<IE>, i: nat)
    requires ValidDict(d) && WellFormed(d, ies) && i < |ies|
    requires ies[i].payload.Str? ==> Free(ies[i].payload.s, ',')
    ensures Free(Pair(Name(d, ies[i]), Printed(d, ies[i])), ',')
    ensures Decoy(d, ies[i]) != [] ==> Free(Decoy(d, ies[i])[0], ',')
  {
    var ie := ies[i];
    EntryShape(d, ies, i);
    assert ValidEntry(d.table, ie.id);
    PrintedFree(d, ie);
    if Numeric(ie) {
      DigitsBare(if ie.payload.Uint? then ie.payload.n else ie.payload.bits);
    }
    PairFree(Name(d, ie), Printed(d, ie), ',');
    if Decoy(d, ie) != [] {
      QuoteFree(d.devstate(ie.payload.n), ',');
      PairFree(STATESTR, Quote(d.devstate(ie.payload.n)), ',');
    }
  }

  lemma RunPart(d: Dict, self: Eid, e: string, r: nat, st: Progress)
    requires Free(e, ',') && r <= |e|
    ensures Run(d, self, Tokens(e[..r], ','), st) == if r == 0 then st else ParseEntry(d, self, e[..r], st)
  {
    if r > 0 {
      TokensSingle(e[..r], ',');
      RunOne(d, self, e[..r], st);
    }
  }

  lemma PieceEntry(d: Dict, self: Eid, ies: seq<IE>, q: nat, r: nat, st: Progress, e: string)
    requires ValidDict(d) && WellFormed(d, ies) && q < |ies| && e == Pair(Name(d, ies[q]), Printed(d, ies[q]))
    requires ies[q].payload.Str? ==> Free(ies[q].payload.s, ',')
    requires r <= |e| && r < |Commas(IeEntries(d, ies, q))|
    ensures PieceRun(d, self, ies, q, r, st) == if r == 0 then st else ParseEntry(d, self, e[..r], st)
  {
    PieceText(d, ies, q, r);
    EntryFree(d, ies, q);
    RunPart(d, self, e, r, st);
  }

  /** Up to the end of the element's own entry. */
  lemma PieceInEntry(d: Dict, self: Eid, ies: seq<IE>, q: nat, r: nat, st: Progress)
    requires ValidDict(d) && WellFormed(d, ies) && q < |ies| && st.Running?
    requires ies[q].payload.Str? ==> Free(ies[q].payload.s, ',')
    requires r <= |Pair(Name(d, ies[q]), Printed(d, ies[q]))| && r < |Commas(IeEntries(d, ies, q))|
    ensures PieceRun(d, self, ies, q, r, st) == PieceResult(d, self, ies[q], r, st)
  {
    var e := Pair(Name(d, ies[q]), Printed(d, ies[q]));
    PieceEntry(d, self, ies, q, r, st, e);
    if r > 0 {
      EntryCut(d, self, ies, q, r, st, e);
    }
  }

  lemma TwoParts(d: Dict, self: Eid, e: string, decoy: string, rest: nat, st: Progress)
    requires e != "" && Free(e, ',') && Free(decoy, ',') && rest <= |decoy|
    ensures Run(d, self, Tokens(Commas([e]) + decoy[..rest], ','), st)
         == if rest == 0 then ParseEntry(d, self, e, st)
            else ParseEntry(d, self, decoy[..rest], ParseEntry(d, self, e, st))
  {
    TokensAfter([e], decoy[..rest]);
    TokensOfEntry(e);
    RunAppend(d, self, Tokens(e, ','), Tokens(decoy[..rest], ','), st);
    TokensSingle(e, ',');
    RunOne(d, self, e, st);
    RunPart(d, self, decoy, rest, ParseEntry(d, self, e, st));
  }

  /** The entry of an element of which more than that is kept. */
  lemma WholeResult(d: Dict, self: Eid, ies: seq<IE>, q: nat, r: nat, st: Progress)
    requires ValidDict(d) && WellFormed(d, ies) && q < |ies| && st.Running?
    requires r > |Pair(Name(d, ies[q]), Printed(d, ies[q]))|
    ensures ParseEntry(d, self, Pair(Name(d, ies[q]), Printed(d, ies[q])), st) == PieceResult(d, self, ies[q], r, st)
  {
    var name, printed := Name(d, ies[q]), Printed(d, ies[q]);
    var e := Pair(name, printed);
    EntryShape(d, ies, q);
    EntryCut(d, self, ies, q, |e|, st, e);
    assert e[..|e|] == e && |e| == |name| + 3 + |printed|;
    assert Shortened(printed, r - |name| - 3) == printed == Shortened(printed, |e| - |name| - 3);
  }

  /** Past that end the decoy may add undefined behaviour, and nothing else. */
  lemma PieceInDecoy(d: Dict, self: Eid, ies: seq<IE>, q: nat, r: nat, st: Progress)
    requires ValidDict(d) && WellFormed(d, ies) && q < |ies| && st.Running?
    requires ies[q].payload.Str? ==> Free(ies[q].payload.s, ',')
    requires |Pair(Name(d, ies[q]), Printed(d, ies[q]))| < r < |Commas(IeEntries(d, ies, q))|
    ensures var whole := PieceResult(d, self, ies[q], r, st);
            var rest := r - |Pair(Name(d, ies[q]), Printed(d, ies[q]))| - 1;
            && Decoy(d, ies[q]) != []
            && PieceRun(d, self, ies, q, r, st)
               == if rest > 0 && whole.Running? && !Opened(STATESTR, false, rest) then Undefined else whole
  {
    var e := Pair(Name(d, ies[q]), Printed(d, ies[q]));
    PieceText(d, ies, q, r);
    EntryFree(d, ies, q);
    var rest := r - |e| - 1;
    TwoParts(d, self, e, Decoy(d, ies[q])[0], rest, st);
    WholeResult(d, self, ies, q, r, st);
    var whole := ParseEntry(d, self, e, st);
    if rest > 0 && whole.Running? {
      DecoyCut(d, self, ies[q], rest, whole);
    }
  }

  /** A result that continues `st` with at most one element, not an identifier. */
  predicate Continues(st: Progress, x: Progress)
    requires st.Running?
  {
    && x.Running? && x.eid == st.eid
    && (x.ies == st.ies || (|x.ies| == |st.ies| + 1 && x.ies[..|st.ies|] == st.ies && x.ies[|st.ies|].id != IE_EID))
  }

  /** The kept part of any element but an identifier. */
  lemma OtherPiece(d: Dict, self: Eid, ie: IE, r: nat, st: Progress)
    requires ValidDict(d) && WellTyped(d, ie) && ie.id != IE_EID && r > 0 && st.Running?
    ensures var x := PieceResult(d, self, ie, r, st);
            if Opened(Name(d, ie), Numeric(ie), r) && InRange(d, ie, r - |Name(d, ie)| - 3)
            then Continues(st, x) else x == Undefined
  {
    if r > |Name(d, ie)| + 2 {
      ValuePiece(d, self, ie, r - |Name(d, ie)| - 3, st);
    }
  }

  lemma ValuePiece(d: Dict, self: Eid, ie: IE, v: nat, st: Progress)
    requires ValidDict(d) && WellTyped(d, ie) && ie.id != IE_EID && st.Running?
    ensures Remnant(d, ie, v).Some? <==> v >= if Numeric(ie) then 1 else 2
    ensures Remnant(d, ie, v).Some? ==>
              var x := AppendValue(d, self, ie.id, Remnant(d, ie, v).value, st);
              if InRange(d, ie, v) then Continues(st, x) else x == Undefined
  {
    assert ValidEntry(d.table, ie.id);
    RemnantRead(d, ie, v);
    if Numeric(ie) && v >= 1 {
      NumberCut(d, ie, v);
    }
  }

  lemma RemnantId(d: Dict, o: Eid, v: nat)
    requires WellTyped(d, LocalId(o)) && v >= 2
    ensures Remnant(d, LocalId(o), v) == Some(Shortened(EidText(o), v - 1))
  {
    var s := EidText(o);
    EidTextPlain(o);
    if v < |s| + 2 {
      QuotedCut(s, v);
      assert Shortened(Quote(s), v) == Quote(s)[..v];
    } else {
      TrimQuote(s);
    }
  }

  /** The kept part of an identifier: none of it makes no sense, all 17 digits and colons give the
      identifier, and anything between leaves the buffer as it was. */
  lemma IdPiece(d: Dict, self: Eid, o: Eid, r: nat, st: Progress)
    requires ValidDict(d) && WellTyped(d, LocalId(o)) && r > 0 && st.Running?
    ensures var kept := r - |Name(d, LocalId(o))| - 4;
            var eid := if kept >= 17 then o else st.eid;
            PieceResult(d, self, LocalId(o), r, st)
            == if kept < 1 then Undefined
               else if eid == self then Self
               else Running(eid, st.cache, st.ies + [LocalId(eid)])
  {
    var kept := r - |Name(d, LocalId(o))| - 4;
    assert ValidEntry(d.table, IE_EID);
    if kept >= 1 {
      RemnantId(d, o, kept + 1);
      ParseEidText(o);
    }
  }

  /** What the kept part of an element's entries does to the run. */
  lemma PieceOutcome(d: Dict, self: Eid, ies: seq<IE>, q: nat, r: nat, st: Progress)
    requires ValidDict(d) && WellFormed(d, ies) && q < |ies| && st.Running?
    requires ies[q].payload.Str? ==> Free(ies[q].payload.s, ',')
    requires r < |Commas(IeEntries(d, ies, q))| && ies[q].id != IE_EID
    ensures var x := PieceRun(d, self, ies, q, r, st);
            if Readable(d, ies[q], r) then Continues(st, x) else x == Undefined
  {
    if r <= |Pair(Name(d, ies[q]), Printed(d, ies[q]))| {
      PieceInEntry(d, self, ies, q, r, st);
    } else {
      PieceInDecoy(d, self, ies, q, r, st);
    }
    if r > 0 {
      OtherPiece(d, self, ies[q], r, st);
    }
  }

  lemma IdOutcome(d: Dict, self: Eid, o: Eid, ies: seq<IE>, q: nat, r: nat, st: Progress)
    requires ValidDict(d) && WellFormed(d, ies) && q < |ies| && st.Running? && ies[q] == LocalId(o)
    requires r < |Commas(IeEntries(d, ies, q))|
    ensures PieceRun(d, self, ies, q, r, st) == PieceResult(d, self, LocalId(o), r, st)
  {
    if r <= |Pair(Name(d, ies[q]), Printed(d, ies[q]))| {
      PieceInEntry(d, self, ies, q, r, st);
    } else {
      PieceText(d, ies, q, r);
      assert false;
    }
  }

  // ---------------------------------------------------------------- the kept part as a whole

  predicate CommaFree(ies: seq<IE>) {
    forall i :: 0 <= i < |ies| && ies[i].payload.Str? ==> Free(ies[i].payload.s, ',')
  }

  /** How many of the `b` characters kept come at or after the start of each element; negative
      for the elements behind the cut. */
  function Rests(d: Dict, ies: seq<IE>, b: int): (rs: seq<int>)
    requires WellFormed(d, ies)
    ensures |rs| == |ies| + 1
  {
    Distances(Texts(d, ies), b)
  }

  predicate AllReadable(d: Dict, ies: seq<IE>, n: nat, rs: seq<int>)
    requires WellFormed(d, ies) && n <= |ies| < |rs|
  {
    forall i {:trigger rs[i]} :: 0 <= i < n ==> Readable(d, ies[i], rs[i])
  }

  /** Of `b` characters kept, those that fall to each of the first `n` elements make sense. */
  predicate Legible(d: Dict, ies: seq<IE>, n: nat, b: int)
    requires WellFormed(d, ies) && n <= |ies|
  {
    AllReadable(d, ies, n, Rests(d, ies, b))
  }

  lemma WholeReadable(d: Dict, ies: seq<IE>, i: nat, r: nat)
    requires ValidDict(d) && WellFormed(d, ies) && CommaFree(ies) && i < |ies| && r >= |Commas(IeEntries(d, ies, i))|
    ensures Readable(d, ies[i], r) <==> SafeIe(ies[i])
  {
    var ie := ies[i];
    var name := Name(d, ie);
    WholeLength(d, ies, i);
    if Numeric(ie) {
      var n := if ie.payload.Uint? then ie.payload.n else ie.payload.bits;
      AtoiOfDecimal(n);
      assert Shortened(Bare(d, ie), r - |name| - 3) == Decimal(n);
    }
  }

  lemma WholeLength(d: Dict, ies: seq<IE>, i: nat)
    requires ValidDict(d) && WellFormed(d, ies) && i < |ies|
    ensures |Commas(IeEntries(d, ies, i))|
         == |Pair(Name(d, ies[i]), Printed(d, ies[i]))| + 1
            + if Decoy(d, ies[i]) == [] then 0 else |Decoy(d, ies[i])[0]| + 1
  {
    var e := Pair(Name(d, ies[i]), Printed(d, ies[i]));
    var decoy := Decoy(d, ies[i]);
    EntryShape(d, ies, i);
    CommasAppend([e], decoy);
    assert [e][..0] == [];
    if decoy != [] {
      assert decoy[..0] == [];
    }
  }

  /** Elements before `q` are kept whole, those behind it not at all, and of `q` itself `rs[q]`
      characters are kept. */
  ghost predicate CutOf(d: Dict, ies: seq<IE>, q: nat, rs: seq<int>)
    requires WellFormed(d, ies)
  {
    && q < |ies| < |rs|
    && (forall i {:trigger rs[i]} :: 0 <= i < q ==> rs[i] >= |Commas(IeEntries(d, ies, i))|)
    && 0 <= rs[q] < |Commas(IeEntries(d, ies, q))|
    && (forall i :: q < i < |ies| ==> rs[i] < 0)
  }

  lemma CutOfParts(d: Dict, ies: seq<IE>, q: nat, rs: seq<int>)
    requires WellFormed(d, ies) && CutIn(Parts(d, ies), q, rs)
    ensures CutOf(d, ies, q, rs)
  {
  }

  lemma ReadableOrSafe(d: Dict, ies: seq<IE>, q: nat, rs: seq<int>, i: nat)
    requires ValidDict(d) && WellFormed(d, ies) && CommaFree(ies) && CutOf(d, ies, q, rs)
    requires i < |ies| && i != q
    ensures Readable(d, ies[i], rs[i]) <==> (i < q ==> SafeIe(ies[i]))
  {
    if i < q {
      WholeReadable(d, ies, i, rs[i]);
    }
  }

  function Least(a: nat, b: nat): nat {
    if a < b then a else b
  }

  /** What is kept makes sense: the whole elements are safe, and the piece of one is readable. */
  lemma AllReadableSplit(d: Dict, ies: seq<IE>, n: nat, q: nat, rs: seq<int>)
    requires ValidDict(d) && WellFormed(d, ies) && CommaFree(ies) && CutOf(d, ies, q, rs) && n <= |ies|
    ensures AllReadable(d, ies, n, rs) <==> WireSafe(ies[..Least(n, q)]) && (q < n ==> Readable(d, ies[q], rs[q]))
  {
    var k := Least(n, q);
    forall i | 0 <= i < n && i != q
      ensures Readable(d, ies[i], rs[i]) <==> (i < q ==> SafeIe(ies[i]))
    {
      ReadableOrSafe(d, ies, q, rs, i);
    }
    assert forall i :: 0 <= i < k ==> ies[..k][i] == ies[i];
  }

  lemma UnsafeStops(d: Dict, self: Eid, junk: Eid, ies: seq<IE>, p: nat)
    requires ValidDict(d) && WellFormed(d, ies) && p < |ies| && !SafeIe(ies[p]) && !ies[p].payload.Str?
    requires WireSafe(ies[..p]) && !Carries(ies[..p], self)
    ensures RunTo(d, self, ies, p + 1, Running(junk, 0, [])) == Undefined
  {
    PrefixRun(d, self, junk, ies, p);
    var mid := Running(Buffer(junk, ies[..p]), Cachable(ies[..p]), ies[..p]);
    SplitEntries(d, self, ies, p, Running(junk, 0, []));
    WholeEntry(d, self, ies, p, mid);
    AppendTooBig(d, self, ies[p], mid);
  }

  lemma FirstTooBig(ies: seq<IE>, q: nat, self: Eid) returns (p: nat)
    requires CommaFree(ies) && q <= |ies| && !WireSafe(ies[..q]) && !Carries(ies[..q], self)
    ensures p < q && !SafeIe(ies[p]) && !ies[p].payload.Str?
    ensures WireSafe(ies[..p]) && !Carries(ies[..p], self)
  {
    p := FirstUnsafe(ies[..q], self);
    assert ies[..q][..p] == ies[..p] && ies[..q][p] == ies[p];
    assert ies[..q][p] in ies[..q];
  }

  /** A number beyond an int among the whole elements ends the run. */
  lemma UnsafeUndefined(d: Dict, self: Eid, junk: Eid, ies: seq<IE>, q: nat)
    requires ValidDict(d) && WellFormed(d, ies) && CommaFree(ies) && q <= |ies|
    requires !WireSafe(ies[..q]) && !Carries(ies[..q], self)
    ensures RunTo(d, self, ies, q, Running(junk, 0, [])) == Undefined
  {
    var p := FirstTooBig(ies, q, self);
    UnsafeStops(d, self, junk, ies, p);
    SuffixRun(d, self, ies, p + 1, q, Running(junk, 0, []));
  }

  // ---------------------------------------------------------------- whom a cut event comes from

  /** Whom a receiver takes a message to come from, if it makes sense and is not dropped as its own. */
  datatype Origin = Senseless | Dropped | From(eid: Eid)

  function OriginSeen(r: Decoded): Origin {
    match r
    case NoMeaning => Senseless
    case SelfEid => Dropped
    case Ok(ies, _) =>
      match FirstOf(ies, IE_EID)
      case Some(Id(eid)) => From(eid)
      case _ => Senseless
  }

  /** An event posted at node `o`: element `f` is its first identifier, and it has no other. */
  predicate LocalTo(ies: seq<IE>, f: nat, o: Eid) {
    && f < |ies| && ies[f] == LocalId(o)
    && (forall i :: 0 <= i < f ==> ies[i].id != IE_EID)
    && (forall i :: 0 <= i < |ies| && ies[i].id == IE_EID ==> ies[i] == LocalId(o))
  }

  /** How many characters of the identifier's text in element `f` are among the first `b`. */
  function IdKept(d: Dict, ies: seq<IE>, f: nat, b: int): int
    requires WellFormed(d, ies) && f < |ies|
  {
    Rests(d, ies, b)[f] - |Name(d, ies[f])| - 4
  }

  lemma FirstOfAppend(a: seq<IE>, b: seq<IE>)
    ensures FirstOf(a + b, IE_EID) == if FirstOf(a, IE_EID).Some? then FirstOf(a, IE_EID) else FirstOf(b, IE_EID)
  {
    if a == [] {
      assert a + b == b;
    } else if a[0].id != IE_EID {
      assert (a + b)[1..] == a[1..] + b;
      FirstOfAppend(a[1..], b);
    }
  }

  lemma FirstLocal(ies: seq<IE>, f: nat, o: Eid, k: nat)
    requires LocalTo(ies, f, o) && k <= |ies|
    ensures FirstOf(ies[..k], IE_EID) == if f < k then Some(Id(o)) else None
  {
    if f < k {
      assert ies[..k][f].id == IE_EID;
    }
    if FirstOf(ies[..k], IE_EID).Some? {
      assert IE(IE_EID, FirstOf(ies[..k], IE_EID).value) in ies[..k];
    }
  }

  lemma {:induction false} BufferLocal(junk: Eid, ies: seq<IE>, f: nat, o: Eid, d: Dict, k: nat)
    requires ValidDict(d) && WellFormed(d, ies) && LocalTo(ies, f, o) && k <= |ies|
    ensures Buffer(junk, ies[..k]) == if f < k then o else junk
  {
    if k > 0 {
      assert ies[..k] == ies[..k - 1] + [ies[k - 1]];
      BufferSnoc(junk, ies[..k - 1], ies[k - 1]);
      BufferLocal(junk, ies, f, o, d, k - 1);
      assert WellTyped(d, ies[k - 1]) && ValidEntry(d.table, ies[k - 1].id);
    }
  }

  /** The origin in the end, if the run over the whole elements is continued by a piece. */
  lemma ContinuedOrigin(self: Eid, ies: seq<IE>, f: nat, o: Eid, k: nat, st: Progress, x: Progress)
    requires LocalTo(ies, f, o) && k <= |ies| && st.Running? && st.ies == ies[..k] && Continues(st, x)
    ensures OriginSeen(Finish(self, x)) == From(if f < k then o else self)
  {
    FirstLocal(ies, f, o, k);
    if x.ies != st.ies {
      var y := x.ies[k];
      assert x.ies == ies[..k] + [y];
      FirstOfAppend(ies[..k], [y]);
    }
    FirstOfAppend(x.ies, [LocalId(self)]);
  }

  lemma IdOrigin(self: Eid, ies: seq<IE>, f: nat, o: Eid, k: nat, st: Progress, eid: Eid)
    requires LocalTo(ies, f, o) && k <= |ies| && st.Running? && st.ies == ies[..k]
    ensures OriginSeen(Finish(self, Running(eid, st.cache, st.ies + [LocalId(eid)]))) == From(if f < k then o else eid)
  {
    FirstLocal(ies, f, o, k);
    FirstOfAppend(ies[..k], [LocalId(eid)]);
    assert FirstOf([LocalId(eid)], IE_EID) == Some(Id(eid));
  }

  lemma NotCarried(ies: seq<IE>, f: nat, o: Eid, self: Eid, k: nat)
    requires LocalTo(ies, f, o) && k <= |ies| && (self != o || k <= f)
    ensures !Carries(ies[..k], self)
  {
    forall i | 0 <= i < k
      ensures ies[..k][i] != IE(IE_EID, Id(self))
    {
      assert ies[..k][i] == ies[i];
    }
  }

  /** How the kept part of an identifier's text decides. */
  function IdVerdict(self: Eid, junk: Eid, o: Eid, kept: int): Origin {
    if kept >= 17 then From(o)
    else if kept < 1 then From(self)
    else if junk == self then Dropped
    else From(junk)
  }

  /** Whom node `self` takes an event of node `o` to come from: `kept` characters of the identifier
      are kept, and what precedes it, or all that is kept, makes sense. */
  function Verdict(self: Eid, junk: Eid, o: Eid, kept: int, before: bool, all: bool): Origin {
    if kept >= 17 && self == o then if before then Dropped else Senseless
    else if all then IdVerdict(self, junk, o, kept)
    else Senseless
  }

  /** The receiver comes to its own identifier. */
  lemma OwnEcho(d: Dict, self: Eid, junk: Eid, ies: seq<IE>, f: nat, q: nat, r: nat)
    requires ValidDict(d) && WellFormed(d, ies) && LocalTo(ies, f, self) && WireSafe(ies[..f])
    requires f <= q < |ies| && r < |Commas(IeEntries(d, ies, q))| && (q == f ==> r - |Name(d, ies[q])| - 4 >= 17)
    ensures PieceRun(d, self, ies, q, r, RunTo(d, self, ies, q, Running(junk, 0, []))) == Self
  {
    NotCarried(ies, f, self, self, f);
    if q == f {
      PrefixRun(d, self, junk, ies, f);
      OwnPiece(d, self, ies, f, r, RunTo(d, self, ies, f, Running(junk, 0, [])));
    } else {
      EchoRun(d, self, junk, ies, f, q);
      PieceExtends(d, self, ies, q, r, Self);
    }
  }

  lemma OwnPiece(d: Dict, self: Eid, ies: seq<IE>, f: nat, r: nat, mid: Progress)
    requires ValidDict(d) && WellFormed(d, ies) && f < |ies| && ies[f] == LocalId(self) && mid.Running?
    requires r < |Commas(IeEntries(d, ies, f))| && r - |Name(d, ies[f])| - 4 >= 17
    ensures PieceRun(d, self, ies, f, r, mid) == Self
  {
    IdOutcome(d, self, self, ies, f, r, mid);
    IdPiece(d, self, self, r, mid);
  }

  lemma EchoRun(d: Dict, self: Eid, junk: Eid, ies: seq<IE>, f: nat, q: nat)
    requires ValidDict(d) && WellFormed(d, ies) && f < q <= |ies| && ies[f] == LocalId(self)
    requires WireSafe(ies[..f]) && !Carries(ies[..f], self)
    ensures RunTo(d, self, ies, q, Running(junk, 0, [])) == Self
  {
    var st := Running(junk, 0, []);
    PrefixRun(d, self, junk, ies, f);
    var mid := Running(Buffer(junk, ies[..f]), Cachable(ies[..f]), ies[..f]);
    SplitEntries(d, self, ies, f, st);
    WholeEntry(d, self, ies, f, mid);
    AppendSelf(d, self, mid);
    SuffixRun(d, self, ies, f + 1, q, st);
  }

  lemma UnsafeCut(d: Dict, self: Eid, junk: Eid, ies: seq<IE>, k: nat, q: nat, r: nat)
    requires ValidDict(d) && WellFormed(d, ies) && CommaFree(ies) && k <= q < |ies|
    requires r <= |Commas(IeEntries(d, ies, q))|
    requires !WireSafe(ies[..k]) && !Carries(ies[..k], self)
    ensures PieceRun(d, self, ies, q, r, RunTo(d, self, ies, q, Running(junk, 0, []))) == Undefined
  {
    UnsafeUndefined(d, self, junk, ies, k);
    SuffixRun(d, self, ies, k, q, Running(junk, 0, []));
    PieceExtends(d, self, ies, q, r, Undefined);
  }

  /** The piece of an element other than an identifier does not touch the origin. */
  lemma OtherDecides(d: Dict, self: Eid, o: Eid, ies: seq<IE>, f: nat, q: nat, r: nat, mid: Progress)
    requires ValidDict(d) && WellFormed(d, ies) && CommaFree(ies) && LocalTo(ies, f, o) && q < |ies|
    requires ies[q].id != IE_EID && r < |Commas(IeEntries(d, ies, q))| && mid.Running? && mid.ies == ies[..q]
    ensures OriginSeen(Finish(self, PieceRun(d, self, ies, q, r, mid)))
         == if !Readable(d, ies[q], r) then Senseless else From(if f < q then o else self)
  {
    PieceOutcome(d, self, ies, q, r, mid);
    var x := PieceRun(d, self, ies, q, r, mid);
    if x.Running? {
      ContinuedOrigin(self, ies, f, o, q, mid, x);
    }
  }

  /** The piece of an identifier does. */
  lemma IdDecides(d: Dict, self: Eid, junk: Eid, o: Eid, ies: seq<IE>, f: nat, q: nat, r: nat, mid: Progress)
    requires ValidDict(d) && WellFormed(d, ies) && LocalTo(ies, f, o) && f <= q < |ies| && ies[q] == LocalId(o)
    requires r < |Commas(IeEntries(d, ies, q))| && (self != o || (f == q && r - |Name(d, ies[q])| - 4 < 17))
    requires mid.Running? && mid.ies == ies[..q] && mid.eid == if f < q then o else junk
    ensures OriginSeen(Finish(self, PieceRun(d, self, ies, q, r, mid)))
         == if !Readable(d, ies[q], r) then Senseless
            else if f < q then From(o)
            else IdVerdict(self, junk, o, r - |Name(d, ies[q])| - 4)
  {
    IdOutcome(d, self, o, ies, q, r, mid);
    if r == 0 {
      ContinuedOrigin(self, ies, f, o, q, mid, mid);
    } else {
      IdPiece(d, self, o, r, mid);
      var kept := r - |Name(d, LocalId(o))| - 4;
      if kept >= 1 {
        IdOrigin(self, ies, f, o, q, mid, if kept >= 17 then o else mid.eid);
      }
    }
  }

  lemma IdLength(d: Dict, ies: seq<IE>, f: nat)
    requires ValidDict(d) && WellFormed(d, ies) && f < |ies| && ies[f].payload.Id?
    ensures |Commas(IeEntries(d, ies, f))| == |Name(d, ies[f])| + 23
  {
    WholeLength(d, ies, f);
  }

  /** The first identifier is whole, cut or missing according to how much of its text is kept. */
  lemma CutSide(d: Dict, ies: seq<IE>, f: nat, q: nat, rs: seq<int>)
    requires ValidDict(d) && WellFormed(d, ies) && f < |ies| && ies[f].payload.Id? && CutOf(d, ies, q, rs)
    ensures q < f ==> rs[f] - |Name(d, ies[f])| - 4 < 1
    ensures q > f ==> rs[f] - |Name(d, ies[f])| - 4 >= 17
  {
    if q > f {
      IdLength(d, ies, f);
    }
  }

  /** The whole elements are safe and do not carry the receiver's identifier: the piece decides. */
  lemma PieceDecides(d: Dict, self: Eid, junk: Eid, o: Eid, ies: seq<IE>, f: nat, q: nat, r: nat, mid: Progress)
    requires ValidDict(d) && WellFormed(d, ies) && CommaFree(ies) && LocalTo(ies, f, o) && q < |ies|
    requires r < |Commas(IeEntries(d, ies, q))|
    requires self != o || q < f || (q == f && r - |Name(d, ies[q])| - 4 < 17)
    requires mid == Running(Buffer(junk, ies[..q]), Cachable(ies[..q]), ies[..q])
    ensures OriginSeen(Finish(self, PieceRun(d, self, ies, q, r, mid)))
         == if !Readable(d, ies[q], r) then Senseless
            else if f < q then From(o)
            else if f == q then IdVerdict(self, junk, o, r - |Name(d, ies[q])| - 4)
            else From(self)
  {
    BufferLocal(junk, ies, f, o, d, q);
    if ies[q].id != IE_EID {
      OtherDecides(d, self, o, ies, f, q, r, mid);
    } else {
      IdDecides(d, self, junk, o, ies, f, q, r, mid);
    }
  }

  lemma SafeDecides(d: Dict, self: Eid, junk: Eid, o: Eid, ies: seq<IE>, f: nat, q: nat, r: nat)
    requires ValidDict(d) && WellFormed(d, ies) && CommaFree(ies) && LocalTo(ies, f, o) && q < |ies|
    requires WireSafe(ies[..q]) && r < |Commas(IeEntries(d, ies, q))|
    requires self != o || q < f || (q == f && r - |Name(d, ies[q])| - 4 < 17)
    ensures OriginSeen(Finish(self, PieceRun(d, self, ies, q, r, RunTo(d, self, ies, q, Running(junk, 0, [])))))
         == if !Readable(d, ies[q], r) then Senseless
            else if f < q then From(o)
            else if f == q then IdVerdict(self, junk, o, r - |Name(d, ies[q])| - 4)
            else From(self)
  {
    NotCarried(ies, f, o, self, q);
    PrefixRun(d, self, junk, ies, q);
    PieceDecides(d, self, junk, o, ies, f, q, r, RunTo(d, self, ies, q, Running(junk, 0, [])));
  }

  lemma EchoVerdict(d: Dict, self: Eid, junk: Eid, ies: seq<IE>, f: nat, q: nat, rs: seq<int>)
    requires ValidDict(d) && WellFormed(d, ies) && CommaFree(ies) && LocalTo(ies, f, self) && CutOf(d, ies, q, rs)
    requires rs[f] - |Name(d, ies[f])| - 4 >= 17
    ensures OriginSeen(Finish(self, PieceRun(d, self, ies, q, rs[q], RunTo(d, self, ies, q, Running(junk, 0, [])))))
         == if AllReadable(d, ies, f, rs) then Dropped else Senseless
  {
    CutSide(d, ies, f, q, rs);
    AllReadableSplit(d, ies, f, q, rs);
    if WireSafe(ies[..f]) {
      OwnEcho(d, self, junk, ies, f, q, rs[q]);
    } else {
      NotCarried(ies, f, self, self, f);
      UnsafeCut(d, self, junk, ies, f, q, rs[q]);
    }
  }

  lemma CutVerdict(d: Dict, self: Eid, junk: Eid, o: Eid, ies: seq<IE>, f: nat, q: nat, rs: seq<int>)
    requires ValidDict(d) && WellFormed(d, ies) && CommaFree(ies) && LocalTo(ies, f, o) && CutOf(d, ies, q, rs)
    requires self != o || rs[f] - |Name(d, ies[f])| - 4 < 17
    ensures OriginSeen(Finish(self, PieceRun(d, self, ies, q, rs[q], RunTo(d, self, ies, q, Running(junk, 0, [])))))
         == if AllReadable(d, ies, |ies|, rs) then IdVerdict(self, junk, o, rs[f] - |Name(d, ies[f])| - 4)
            else Senseless
  {
    AllReadableSplit(d, ies, |ies|, q, rs);
    CutSide(d, ies, f, q, rs);
    if WireSafe(ies[..q]) {
      SafeVerdict(d, self, junk, o, ies, f, q, rs[q], rs[f] - |Name(d, ies[f])| - 4);
    } else {
      NotCarried(ies, f, o, self, q);
      UnsafeCut(d, self, junk, ies, q, q, rs[q]);
    }
  }

  lemma SafeVerdict(d: Dict, self: Eid, junk: Eid, o: Eid, ies: seq<IE>, f: nat, q: nat, r: nat, kept: int)
    requires ValidDict(d) && WellFormed(d, ies) && CommaFree(ies) && LocalTo(ies, f, o) && q < |ies|
    requires WireSafe(ies[..q]) && r < |Commas(IeEntries(d, ies, q))|
    requires if q < f then kept < 1 else if q > f then kept >= 17 else kept == r - |Name(d, ies[q])| - 4
    requires self != o || kept < 17
    ensures OriginSeen(Finish(self, PieceRun(d, self, ies, q, r, RunTo(d, self, ies, q, Running(junk, 0, [])))))
         == if Readable(d, ies[q], r) then IdVerdict(self, junk, o, kept) else Senseless
  {
    SafeDecides(d, self, junk, o, ies, f, q, r);
  }

  /** Where the cut is, and what the run over the kept text amounts to. */
  lemma Cut(d: Dict, self: Eid, junk: Eid, ies: seq<IE>, b: nat, rs: seq<int>) returns (q: nat)
    requires WellFormed(d, ies) && b < |Texts(d, ies)[|ies|]| && rs == Rests(d, ies, b)
    ensures CutOf(d, ies, q, rs)
    ensures KeptRun(d, self, junk, ies, b)
         == PieceRun(d, self, ies, q, rs[q], RunTo(d, self, ies, q, Running(junk, 0, [])))
  {
    TextsGrow(d, ies);
    q := FindCut(Texts(d, ies), Parts(d, ies), b);
    CutOfParts(d, ies, q, rs);
    RunCut(d, self, junk, ies, b, q, rs[q]);
  }

  lemma KeptVerdict(d: Dict, self: Eid, junk: Eid, o: Eid, ies: seq<IE>, f: nat, b: nat, rs: seq<int>)
    requires ValidDict(d) && WellFormed(d, ies) && CommaFree(ies) && LocalTo(ies, f, o)
    requires b < |Texts(d, ies)[|ies|]| && rs == Rests(d, ies, b)
    ensures OriginSeen(Finish(self, KeptRun(d, self, junk, ies, b)))
         == Verdict(self, junk, o, rs[f] - |Name(d, ies[f])| - 4,
                    AllReadable(d, ies, f, rs), AllReadable(d, ies, |ies|, rs))
  {
    var q := Cut(d, self, junk, ies, b, rs);
    if rs[f] - |Name(d, ies[f])| - 4 >= 17 && self == o {
      EchoVerdict(d, self, junk, ies, f, q, rs);
    } else {
      CutVerdict(d, self, junk, o, ies, f, q, rs);
    }
  }

  /** The kept text makes sense up to element `n`. */
  predicate SensibleUpTo(d: Dict, ies: seq<IE>, n: nat, cap: nat)
    requires WellFormed(d, ies) && n <= |ies| && cap >= 2
  {
    Kept(d, ies, cap) >= 0 && Legible(d, ies, n, Kept(d, ies, cap))
  }

  /** The kept text makes sense to a node that does not come to its own identifier. */
  predicate Sensible(d: Dict, ies: seq<IE>, cap: nat)
    requires WellFormed(d, ies) && cap >= 2
  {
    SensibleUpTo(d, ies, |ies|, cap)
  }

  lemma DecodeKept(d: Dict, self: Eid, junk: Eid, ies: seq<IE>, cap: nat, b: nat)
    requires WellFormed(d, ies) && ies != [] && cap >= 2 && Kept(d, ies, cap) == b
    ensures b <= |Texts(d, ies)[|ies|]|
    ensures Decode(d, self, junk, Encode(d, ies, cap)) == Finish(self, KeptRun(d, self, junk, ies, b))
  {
    KeptText(d, ies, cap);
  }

  /** A buffer with no room for two braces. */
  lemma NothingKept(d: Dict, self: Eid, junk: Eid, ies: seq<IE>, f: nat, cap: nat)
    requires WellFormed(d, ies) && f < |ies| && cap >= 2 && Kept(d, ies, cap) < 0
    ensures OriginSeen(Decode(d, self, junk, Encode(d, ies, cap))) == Senseless
    ensures IdKept(d, ies, f, Kept(d, ies, cap)) < 17 && !Sensible(d, ies, cap)
  {
    KeptText(d, ies, cap);
  }

  /** The same in terms of the decoded message. */
  lemma DecodeVerdict(d: Dict, self: Eid, junk: Eid, o: Eid, ies: seq<IE>, f: nat, cap: nat, b: nat, rs: seq<int>)
    requires ValidDict(d) && WellFormed(d, ies) && CommaFree(ies) && LocalTo(ies, f, o) && cap >= 2
    requires b == Kept(d, ies, cap) && rs == Rests(d, ies, b)
    ensures OriginSeen(Decode(d, self, junk, Encode(d, ies, cap)))
         == Verdict(self, junk, o, rs[f] - |Name(d, ies[f])| - 4,
                    AllReadable(d, ies, f, rs), AllReadable(d, ies, |ies|, rs))
  {
    KeptText(d, ies, cap);
    DecodeKept(d, self, junk, ies, cap, b);
    KeptVerdict(d, self, junk, o, ies, f, b, rs);
  }

  lemma SensibleRests(d: Dict, ies: seq<IE>, n: nat, cap: nat, b: nat)
    requires WellFormed(d, ies) && n <= |ies| && cap >= 2 && b == Kept(d, ies, cap)
    ensures SensibleUpTo(d, ies, n, cap) == AllReadable(d, ies, n, Rests(d, ies, b))
  {
  }

  lemma SomeKept(d: Dict, self: Eid, junk: Eid, o: Eid, ies: seq<IE>, f: nat, cap: nat, b: nat,
                 kept: int, before: bool, all: bool)
    requires ValidDict(d) && WellFormed(d, ies) && CommaFree(ies) && LocalTo(ies, f, o) && cap >= 2
    requires b == Kept(d, ies, cap) && kept == IdKept(d, ies, f, b)
    requires before == SensibleUpTo(d, ies, f, cap) && all == Sensible(d, ies, cap)
    ensures OriginSeen(Decode(d, self, junk, Encode(d, ies, cap))) == Verdict(self, junk, o, kept, before, all)
  {
    DecodeVerdict(d, self, junk, o, ies, f, cap, b, Rests(d, ies, b));
    SensibleRests(d, ies, f, cap, b);
    SensibleRests(d, ies, |ies|, cap, b);
  }

  /** Whom any node takes a comma-free event of node `o` to come from, whatever the buffer keeps. */
  lemma CutOrigin(d: Dict, self: Eid, junk: Eid, o: Eid, ies: seq<IE>, f: nat, cap: nat)
    requires ValidDict(d) && WellFormed(d, ies) && CommaFree(ies) && LocalTo(ies, f, o) && cap >= 2
    ensures OriginSeen(Decode(d, self, junk, Encode(d, ies, cap)))
         == Verdict(self, junk, o, IdKept(d, ies, f, Kept(d, ies, cap)),
                    SensibleUpTo(d, ies, f, cap), Sensible(d, ies, cap))
  {
    if Kept(d, ies, cap) < 0 {
      NothingKept(d, self, junk, ies, f, cap);
    } else {
      SomeKept(d, self, junk, o, ies, f, cap, Kept(d, ies, cap), IdKept(d, ies, f, Kept(d, ies, cap)),
               SensibleUpTo(d, ies, f, cap), Sensible(d, ies, cap));
    }
  }

  /** The event loses its origin: the kept text makes sense and holds nothing of the identifier's
      characters. */
  predicate LosesOrigin(d: Dict, ies: seq<IE>, f: nat, cap: nat)
    requires WellFormed(d, ies) && f < |ies| && cap >= 2
  {
    Sensible(d, ies, cap) && IdKept(d, ies, f, Kept(d, ies, cap)) < 1
  }

  /** Any node, the sender included, takes the event for its own exactly if it loses its origin. */
  lemma TakenIff(d: Dict, self: Eid, junk: Eid, o: Eid, ies: seq<IE>, f: nat, cap: nat)
    requires ValidDict(d) && WellFormed(d, ies) && CommaFree(ies) && LocalTo(ies, f, o) && cap >= 2
    ensures OriginSeen(Decode(d, self, junk, Encode(d, ies, cap))) == From(self) <==> LosesOrigin(d, ies, f, cap)
  {
    CutOrigin(d, self, junk, o, ies, f, cap);
    VerdictSelf(self, junk, o, IdKept(d, ies, f, Kept(d, ies, cap)),
                SensibleUpTo(d, ies, f, cap), Sensible(d, ies, cap));
  }

  lemma VerdictSelf(self: Eid, junk: Eid, o: Eid, kept: int, before: bool, all: bool)
    ensures Verdict(self, junk, o, kept, before, all) == From(self) <==> all && kept < 1
  {
  }

  lemma AlwaysFrom(self: Eid, o: Eid, kept: int, before: bool, all: bool, seen: Eid -> Origin)
    requires self != o && forall junk :: seen(junk) == Verdict(self, junk, o, kept, before, all)
    ensures (forall junk :: seen(junk) == From(o)) <==> all && kept >= 17
  {
    assert seen(self) == Verdict(self, self, o, kept, before, all);
  }

  lemma AlwaysDropped(o: Eid, kept: int, before: bool, all: bool, seen: Eid -> Origin)
    requires forall junk :: seen(junk) == Verdict(o, junk, o, kept, before, all)
    ensures (forall junk :: seen(junk) == Dropped) <==> before && kept >= 17
  {
    var other := if o.b0 == 0 then o.(b0 := 1) else o.(b0 := 0);
    assert seen(other) == Verdict(o, other, o, kept, before, all);
  }

  /** The origin survives exactly if the kept text makes sense and reaches the end of the
      identifier's 17 characters: at every other node, whatever its identifier buffer held. */
  lemma OriginKeptIff(d: Dict, self: Eid, o: Eid, ies: seq<IE>, f: nat, cap: nat)
    requires ValidDict(d) && WellFormed(d, ies) && CommaFree(ies) && LocalTo(ies, f, o) && cap >= 2 && self != o
    ensures (forall junk :: OriginSeen(Decode(d, self, junk, Encode(d, ies, cap))) == From(o))
            <==> Sensible(d, ies, cap) && IdKept(d, ies, f, Kept(d, ies, cap)) >= 17
  {
    var before, all := SensibleUpTo(d, ies, f, cap), Sensible(d, ies, cap);
    var kept, msg := IdKept(d, ies, f, Kept(d, ies, cap)), Encode(d, ies, cap);
    var seen := (junk: Eid) => OriginSeen(Decode(d, self, junk, msg));
    forall junk
      ensures seen(junk) == Verdict(self, junk, o, kept, before, all)
    {
      CutOrigin(d, self, junk, o, ies, f, cap);
    }
    AlwaysFrom(self, o, kept, before, all, seen);
    assert forall junk :: seen(junk) == OriginSeen(Decode(d, self, junk, msg));
  }

  /** A node drops its own event exactly if the kept text reaches that end and what stands before
      the identifier makes sense. */
  lemma EchoDroppedIff(d: Dict, o: Eid, ies: seq<IE>, f: nat, cap: nat)
    requires ValidDict(d) && WellFormed(d, ies) && CommaFree(ies) && LocalTo(ies, f, o) && cap >= 2
    ensures (forall junk :: OriginSeen(Decode(d, o, junk, Encode(d, ies, cap))) == Dropped)
            <==> SensibleUpTo(d, ies, f, cap) && IdKept(d, ies, f, Kept(d, ies, cap)) >= 17
  {
    var before, all := SensibleUpTo(d, ies, f, cap), Sensible(d, ies, cap);
    var kept, msg := IdKept(d, ies, f, Kept(d, ies, cap)), Encode(d, ies, cap);
    var seen := (junk: Eid) => OriginSeen(Decode(d, o, junk, msg));
    forall junk
      ensures seen(junk) == Verdict(o, junk, o, kept, before, all)
    {
      CutOrigin(d, o, junk, o, ies, f, cap);
    }
    AlwaysDropped(o, kept, before, all, seen);
    assert forall junk :: seen(junk) == OriginSeen(Decode(d, o, junk, msg));
  }
}

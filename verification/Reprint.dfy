/** Events that lose their origin in the buffer: what every node makes of one, and that it prints as
    the very same text again. */
module Reprint {
  import opened CText
  import opened IeTable
  import opened EventCodec
  import opened Truncation

  // ---------------------------------------------------------------- texts of elements

  /** An element's entries, each followed by a comma; they depend on nothing but the element. */
  function ElementText(d: Dict, ie: IE): string
    requires WellTyped(d, ie)
  {
    Commas([Pair(Name(d, ie), Printed(d, ie))] + Decoy(d, ie))
  }

  lemma ElementEntries(d: Dict, ies: seq<IE>, i: nat)
    requires ValidDict(d) && WellFormed(d, ies) && i < |ies|
    ensures Commas(IeEntries(d, ies, i)) == ElementText(d, ies[i])
  {
    EntryShape(d, ies, i);
  }

  lemma ElementParts(d: Dict, ie: IE)
    requires WellTyped(d, ie)
    ensures ElementText(d, ie) == Pair(Name(d, ie), Printed(d, ie)) + "," + Commas(Decoy(d, ie))
    ensures Decoy(d, ie) == [] ==> Commas(Decoy(d, ie)) == ""
  {
    var e := Pair(Name(d, ie), Printed(d, ie));
    CommasAppend([e], Decoy(d, ie));
    assert [e][..0] == [];
  }

  /** The entries of all elements. */
  function Printing(d: Dict, ies: seq<IE>): string
    requires WellFormed(d, ies)
  {
    if ies == [] then "" else Printing(d, ies[..|ies| - 1]) + ElementText(d, ies[|ies| - 1])
  }

  lemma PrintingNext(d: Dict, ies: seq<IE>, k: nat)
    requires WellFormed(d, ies) && k < |ies|
    ensures Printing(d, ies[..k + 1]) == Printing(d, ies[..k]) + ElementText(d, ies[k])
  {
    assert ies[..k + 1][..k] == ies[..k] && ies[..k + 1][k] == ies[k];
  }

  /** The printing of every beginning of an event. */
  function Prints(d: Dict, ies: seq<IE>): (r: seq<string>)
    requires WellFormed(d, ies)
    ensures |r| == |ies| + 1
  {
    seq(|ies| + 1, i requires 0 <= i <= |ies| => Printing(d, ies[..i]))
  }

  lemma PrintsStep(d: Dict, ies: seq<IE>, i: nat, a: string, b: string, part: string)
    requires ValidDict(d) && WellFormed(d, ies) && i < |ies|
    requires a == Printing(d, ies[..i]) && b == Printing(d, ies[..i + 1]) && part == Commas(IeEntries(d, ies, i))
    ensures b == a + part
  {
    PrintingNext(d, ies, i);
    ElementEntries(d, ies, i);
  }

  lemma PrintsGrow(d: Dict, ies: seq<IE>)
    requires ValidDict(d) && WellFormed(d, ies)
    ensures Prints(d, ies)[0] == ""
    ensures forall i {:trigger Parts(d, ies)[i]} :: 0 <= i < |ies| ==>
              Prints(d, ies)[i + 1] == Prints(d, ies)[i] + Parts(d, ies)[i]
  {
    forall i | 0 <= i < |ies|
      ensures Prints(d, ies)[i + 1] == Prints(d, ies)[i] + Parts(d, ies)[i]
    {
      PrintsStep(d, ies, i, Prints(d, ies)[i], Prints(d, ies)[i + 1], Parts(d, ies)[i]);
    }
  }

  lemma PrintingTexts(d: Dict, ies: seq<IE>, k: nat)
    requires ValidDict(d) && WellFormed(d, ies) && k <= |ies|
    ensures Texts(d, ies)[k] == Prints(d, ies)[k]
  {
    TextsGrow(d, ies);
    PrintsGrow(d, ies);
    SameSteps(Texts(d, ies), Prints(d, ies), Parts(d, ies), k);
  }

  lemma PrintingEntries(d: Dict, ies: seq<IE>, k: nat)
    requires ValidDict(d) && WellFormed(d, ies) && k <= |ies|
    ensures Commas(Entries(d, ies, k)) == Printing(d, ies[..k])
  {
    PrintingTexts(d, ies, k);
    TextsEntries(d, ies, k);
  }

  lemma PrintingSnoc(d: Dict, ies: seq<IE>, ie: IE)
    requires WellFormed(d, ies) && WellTyped(d, ie)
    ensures WellFormed(d, ies + [ie]) && Printing(d, ies + [ie]) == Printing(d, ies) + ElementText(d, ie)
  {
    assert (ies + [ie])[..|ies|] == ies;
  }

  lemma OpenPrinting(d: Dict, ies: seq<IE>)
    requires ValidDict(d) && WellFormed(d, ies)
    ensures OpenText(d, ies) == "{" + Printing(d, ies)
  {
    PrintingEntries(d, ies, |ies|);
    assert ies[..|ies|] == ies;
  }

  /** Events that agree on what the buffer keeps have one text. */
  lemma SameText(d: Dict, a: seq<IE>, ta: string, b: seq<IE>, tb: string, cap: nat)
    requires WellFormed(d, a) && WellFormed(d, b) && cap >= 3
    requires OpenText(d, a) == "{" + ta && OpenText(d, b) == "{" + tb
    requires |ta| >= cap - 1 && |tb| >= cap - 1 && ta[..cap - 3] == tb[..cap - 3]
    ensures Encode(d, a, cap) == Encode(d, b, cap)
  {
    ClosedPrefix(ta, cap);
    ClosedPrefix(tb, cap);
  }

  lemma ClosedPrefix(t: string, cap: nat)
    requires cap >= 3 && |t| >= cap - 1
    ensures Closed("{" + t, cap) == "{" + t[..cap - 3] + "}"
  {
    assert ("{" + t)[..cap - 2] == "{" + t[..cap - 3];
  }

  // ---------------------------------------------------------------- a cut number

  lemma AtoiOfDigits(s: string)
    requires s != "" && AllDigits(s)
    ensures Atoi(s).Some? ==> Atoi(s).value == ValueOf(s) <= INT_MAX
  {
    assert IsDigit(s[0]);
    assert SkipSpaces(s) == s;
    assert DigitRun(s) == |s|;
    assert s[..|s|] == s;
  }

  lemma DecimalSnoc(n: nat, digit: nat)
    requires n > 0 && digit < 10
    ensures Decimal(n * 10 + digit) == Decimal(n) + [DigitChar(digit)]
  {
  }

  /** Printing a number gives its digits back, unless they start with a needless zero. */
  lemma {:induction false} DecimalOfValue(s: string)
    requires s != "" && AllDigits(s) && (s[0] == '0' ==> |s| == 1)
    ensures Decimal(ValueOf(s)) == s && (s[0] != '0' ==> ValueOf(s) > 0)
  {
    var init, c := s[..|s| - 1], s[|s| - 1];
    assert IsDigit(c) && s == init + [c];
    var digit: nat := c as int - '0' as int;
    assert ValueOf(s) == ValueOf(init) * 10 + digit && DigitChar(digit) == c;
    if |s| == 1 {
      assert init == "";
    } else {
      DecimalOfValue(init);
      DecimalSnoc(ValueOf(init), digit);
    }
  }

  function CutNumber(n: nat, v: nat): nat
    requires v >= 1
  {
    DigitsKept(n, v);
    ValueOf(Shortened(Decimal(n), v))
  }

  lemma DigitsKept(n: nat, v: nat)
    requires v >= 1
    ensures AllDigits(Shortened(Decimal(n), v)) && Shortened(Decimal(n), v) != ""
  {
  }

  lemma CutNumberPrints(n: nat, v: nat)
    requires v >= 1
    ensures Decimal(CutNumber(n, v)) == Shortened(Decimal(n), v)
  {
    DigitsKept(n, v);
    DecimalOfValue(Shortened(Decimal(n), v));
  }

  // ---------------------------------------------------------------- a cut string

  /** What is left of a string of which the opening quote and `v - 1` more characters are kept. */
  function CutString(s: string, v: nat): (t: string)
    requires v >= 2
    ensures |t| <= |s| && (forall c :: Free(s, c) ==> Free(t, c))
  {
    if v >= |s| + 2 then s
    else if s[v - 2] == '"' then s[..v - 2]
    else s[..v - 1]
  }

  lemma CutStringKept(s: string, v: nat)
    requires 2 <= v <= |s| + 2
    ensures Trim(Shortened(Quote(s), v), '"') == Some(CutString(s, v))
    ensures v <= |Quote(CutString(s, v))| && Quote(CutString(s, v))[..v] == Quote(s)[..v]
  {
    QuotedCut(s, v);
    var t := CutString(s, v);
    assert Shortened(Quote(s), v) == Quote(s)[..v];
    if v < |s| + 2 {
      assert Quote(s)[..v] == "\"" + s[..v - 1];
      if s[v - 2] == '"' {
        assert s[..v - 1] == t + "\"";
      } else {
        assert Quote(t)[..v] == "\"" + t;
      }
    }
  }

  // ---------------------------------------------------------------- a cut element

  /** What the decoder appends for an element of whose value `v` characters are kept. */
  function CutPayload(p: Payload, v: nat): Payload
    requires v >= 1 && (p.Str? ==> v >= 2)
  {
    match p
    case Uint(n) => Uint(CutNumber(n, v))
    case Flags(n) => Flags(CutNumber(n, v))
    case Str(s) => Str(CutString(s, v))
    case _ => p
  }

  /** A value of an element that is no identifier, cut behind its first character. */
  predicate Value(d: Dict, ie: IE, v: int)
    requires WellTyped(d, ie)
  {
    && ie.id != IE_EID
    && v >= (if Numeric(ie) then 1 else 2)
    && (Numeric(ie) ==> Atoi(Shortened(Bare(d, ie), v)).Some?)
    && (!Numeric(ie) ==> v <= |Printed(d, ie)|)
  }

  function CutIe(ie: IE, v: nat): IE
    requires v >= 1 && (ie.payload.Str? ==> v >= 2)
  {
    IE(ie.id, CutPayload(ie.payload, v))
  }

  lemma Plain(d: Dict, ie: IE)
    requires ValidDict(d) && WellTyped(d, ie) && ie.id != IE_EID
    ensures ie.payload.Uint? || ie.payload.Flags? || ie.payload.Str?
    ensures d.table[ie.id].pltype == if ie.payload.Uint? then UINT else if ie.payload.Flags? then BITFLAGS else STR
  {
    assert ValidEntry(d.table, ie.id);
  }

  lemma CutIeTyped(d: Dict, ie: IE, v: nat)
    requires ValidDict(d) && WellTyped(d, ie) && Value(d, ie, v)
    ensures WellTyped(d, CutIe(ie, v))
    ensures ie.payload.Str? && Free(ie.payload.s, ',') ==> Free(CutIe(ie, v).payload.s, ',')
  {
    Plain(d, ie);
    if Numeric(ie) {
      var n := if ie.payload.Uint? then ie.payload.n else ie.payload.bits;
      DigitsKept(n, v);
      AtoiOfDigits(Shortened(Decimal(n), v));
    }
  }

  lemma DigitsAppended(d: Dict, self: Eid, id: nat, value: string, x: nat, st: Progress)
    requires id < |d.table| && st.Running? && Atoi(value) == Some(x) && x <= INT_MAX
    ensures var r := AppendValue(d, self, id, value, st);
            && (d.table[id].pltype == UINT ==> r.Running? && r.ies == st.ies + [IE(id, Uint(x))])
            && (d.table[id].pltype == BITFLAGS ==> r.Running? && r.ies == st.ies + [IE(id, Flags(x))])
  {
  }

  lemma CutNumberRead(n: nat, v: nat)
    requires v >= 1 && Atoi(Shortened(Decimal(n), v)).Some?
    ensures Atoi(Shortened(Decimal(n), v)) == Some(CutNumber(n, v)) && CutNumber(n, v) <= INT_MAX
  {
    DigitsKept(n, v);
    AtoiOfDigits(Shortened(Decimal(n), v));
  }

  lemma NumberAppended(d: Dict, self: Eid, ie: IE, v: nat, n: nat, st: Progress)
    requires ValidDict(d) && WellTyped(d, ie) && Value(d, ie, v) && st.Running?
    requires ie.payload == Uint(n) || ie.payload == Flags(n)
    ensures Remnant(d, ie, v).Some?
    ensures var x := AppendValue(d, self, ie.id, Remnant(d, ie, v).value, st);
            x.Running? && x.ies == st.ies + [CutIe(ie, v)]
  {
    Plain(d, ie);
    NumberCut(d, ie, v);
    CutNumberRead(n, v);
    DigitsAppended(d, self, ie.id, Shortened(Decimal(n), v), CutNumber(n, v), st);
  }

  /** The decoder appends just that element. */
  lemma CutIeAppended(d: Dict, self: Eid, ie: IE, v: nat, st: Progress)
    requires ValidDict(d) && WellTyped(d, ie) && Value(d, ie, v) && st.Running?
    ensures Remnant(d, ie, v).Some?
    ensures var x := AppendValue(d, self, ie.id, Remnant(d, ie, v).value, st);
            x.Running? && x.ies == st.ies + [CutIe(ie, v)]
  {
    Plain(d, ie);
    if Numeric(ie) {
      NumberAppended(d, self, ie, v, if ie.payload.Uint? then ie.payload.n else ie.payload.bits, st);
    } else {
      CutStringKept(ie.payload.s, v);
    }
  }

  /** It prints what was kept of the value. */
  lemma CutIePrinted(d: Dict, ie: IE, v: nat)
    requires ValidDict(d) && WellTyped(d, ie) && Value(d, ie, v) && WellTyped(d, CutIe(ie, v))
    ensures v <= |Printed(d, ie)| ==>
              v <= |Printed(d, CutIe(ie, v))| && Printed(d, CutIe(ie, v))[..v] == Printed(d, ie)[..v]
    ensures v >= |Printed(d, ie)| ==> CutIe(ie, v) == ie
  {
    Plain(d, ie);
    if Numeric(ie) {
      var n := if ie.payload.Uint? then ie.payload.n else ie.payload.bits;
      CutNumberPrints(n, v);
      ValueOfDecimal(n);
    } else {
      CutStringKept(ie.payload.s, v);
    }
  }

  lemma TextStarts(d: Dict, ie: IE) returns (rest: string)
    requires WellTyped(d, ie)
    ensures ElementText(d, ie) == Pair(Name(d, ie), Printed(d, ie)) + rest && rest != ""
  {
    ElementParts(d, ie);
    rest := "," + Commas(Decoy(d, ie));
  }

  lemma PairPrefix(name: string, a: string, x: string, t: string, v: nat)
    requires v <= |a| && t == Pair(name, a) + x
    ensures |name| + 3 + v <= |t| && t[..|name| + 3 + v] == Pair(name, a[..v])
  {
    assert Pair(name, a)[..|name| + 3 + v] == Pair(name, a[..v]);
  }

  /** So its text starts with what was kept of the text. */
  lemma CutIeText(d: Dict, ie: IE, v: nat)
    requires ValidDict(d) && WellTyped(d, ie) && Value(d, ie, v) && WellTyped(d, CutIe(ie, v))
    requires v <= |Printed(d, ie)|
    ensures var r := |Name(d, ie)| + 3 + v;
            && r <= |ElementText(d, ie)| && r <= |ElementText(d, CutIe(ie, v))|
            && ElementText(d, CutIe(ie, v))[..r] == ElementText(d, ie)[..r]
  {
    var y := CutIe(ie, v);
    CutIePrinted(d, ie, v);
    var x := TextStarts(d, ie);
    PairPrefix(Name(d, ie), Printed(d, ie), x, ElementText(d, ie), v);
    var x' := TextStarts(d, y);
    PairPrefix(Name(d, ie), Printed(d, y), x', ElementText(d, y), v);
  }

  // ---------------------------------------------------------------- the event that is decoded

  lemma ReadableValue(d: Dict, ies: seq<IE>, q: nat, r: nat)
    requires ValidDict(d) && WellFormed(d, ies) && q < |ies| && ies[q].id != IE_EID
    requires 0 < r < |Commas(IeEntries(d, ies, q))| && Readable(d, ies[q], r)
    ensures Value(d, ies[q], r - |Name(d, ies[q])| - 3)
  {
    WholeLength(d, ies, q);
  }

  lemma ResultAppends(d: Dict, self: Eid, ie: IE, r: nat, v: nat, st: Progress)
    requires ValidDict(d) && WellTyped(d, ie) && Value(d, ie, v) && r == |Name(d, ie)| + 3 + v && st.Running?
    ensures var x := PieceResult(d, self, ie, r, st); x.Running? && x.ies == st.ies + [CutIe(ie, v)]
  {
    CutIeAppended(d, self, ie, v, st);
  }

  lemma DecoyOpened(d: Dict, ie: IE, r: nat)
    requires WellTyped(d, ie) && Readable(d, ie, r) && r > |Pair(Name(d, ie), Printed(d, ie))| && Decoy(d, ie) != []
    ensures var rest := r - |Pair(Name(d, ie), Printed(d, ie))| - 1; rest > 0 ==> Opened(STATESTR, false, rest)
  {
  }

  lemma PieceReads(d: Dict, self: Eid, ies: seq<IE>, q: nat, r: nat, st: Progress)
    requires ValidDict(d) && WellFormed(d, ies) && q < |ies| && st.Running?
    requires ies[q].payload.Str? ==> Free(ies[q].payload.s, ',')
    requires 0 < r < |Commas(IeEntries(d, ies, q))| && Readable(d, ies[q], r)
    ensures PieceRun(d, self, ies, q, r, st) == PieceResult(d, self, ies[q], r, st)
  {
    if r <= |Pair(Name(d, ies[q]), Printed(d, ies[q]))| {
      PieceInEntry(d, self, ies, q, r, st);
    } else {
      PieceInDecoy(d, self, ies, q, r, st);
      DecoyOpened(d, ies[q], r);
    }
  }

  lemma TextKept(d: Dict, ie: IE, r: nat, v: nat)
    requires ValidDict(d) && WellTyped(d, ie) && Value(d, ie, v) && WellTyped(d, CutIe(ie, v))
    requires r == |Name(d, ie)| + 3 + v && r <= |ElementText(d, ie)|
    ensures r <= |ElementText(d, CutIe(ie, v))| && ElementText(d, CutIe(ie, v))[..r] == ElementText(d, ie)[..r]
  {
    if v <= |Printed(d, ie)| {
      CutIeText(d, ie, v);
    } else {
      CutIePrinted(d, ie, v);
    }
  }

  /** The element that the decoder appends for `r` kept characters of an element's text, if it can
      read them, and what it prints. */
  lemma PieceElement(d: Dict, self: Eid, ies: seq<IE>, q: nat, r: nat, st: Progress) returns (y: IE)
    requires ValidDict(d) && WellFormed(d, ies) && q < |ies| && ies[q].id != IE_EID && st.Running?
    requires ies[q].payload.Str? ==> Free(ies[q].payload.s, ',')
    requires 0 < r < |Commas(IeEntries(d, ies, q))| && Readable(d, ies[q], r)
    ensures var x := PieceRun(d, self, ies, q, r, st); x.Running? && x.ies == st.ies + [y]
    ensures WellTyped(d, y) && y.id == ies[q].id && (y.payload.Str? ==> Free(y.payload.s, ','))
    ensures r <= |ElementText(d, y)| && r <= |ElementText(d, ies[q])|
    ensures ElementText(d, y)[..r] == ElementText(d, ies[q])[..r]
  {
    var v := r - |Name(d, ies[q])| - 3;
    ReadableValue(d, ies, q, r);
    PieceReads(d, self, ies, q, r, st);
    ElementEntries(d, ies, q);
    y := ElementCut(d, self, ies[q], r, v, st);
  }

  lemma ElementCut(d: Dict, self: Eid, ie: IE, r: nat, v: nat, st: Progress) returns (y: IE)
    requires ValidDict(d) && WellTyped(d, ie) && Value(d, ie, v) && st.Running?
    requires ie.payload.Str? ==> Free(ie.payload.s, ',')
    requires r == |Name(d, ie)| + 3 + v && r <= |ElementText(d, ie)|
    ensures var x := PieceResult(d, self, ie, r, st); x.Running? && x.ies == st.ies + [y]
    ensures WellTyped(d, y) && y.id == ie.id && (y.payload.Str? ==> Free(y.payload.s, ','))
    ensures r <= |ElementText(d, y)| && ElementText(d, y)[..r] == ElementText(d, ie)[..r]
  {
    y := CutIe(ie, v);
    CutIeTyped(d, ie, v);
    ResultAppends(d, self, ie, r, v, st);
    TextKept(d, ie, r, v);
  }

  lemma IdWhole(d: Dict, ies: seq<IE>, f: nat)
    requires ValidDict(d) && WellFormed(d, ies) && f < |ies| && ies[f].payload.Id?
    ensures |Texts(d, ies)[|ies|]| >= |Texts(d, ies)[f]| + |Name(d, ies[f])| + 23
  {
    TextsGrow(d, ies);
    WholeBefore(Texts(d, ies), Parts(d, ies), f);
    IdLength(d, ies, f);
  }

  /** An event that loses its origin does not fit. */
  lemma LosesUnfit(d: Dict, ies: seq<IE>, f: nat, cap: nat)
    requires ValidDict(d) && WellFormed(d, ies) && f < |ies| && ies[f].payload.Id? && cap >= 2
    requires Kept(d, ies, cap) >= 0 && IdKept(d, ies, f, Kept(d, ies, cap)) < 1
    ensures cap >= 3 && Kept(d, ies, cap) == cap - 3 && |Texts(d, ies)[|ies|]| >= cap - 1
  {
    IdWhole(d, ies, f);
    TextsEntries(d, ies, |ies|);
    assert |OpenText(d, ies)| == 1 + |Texts(d, ies)[|ies|]|;
  }

  /** A cut that leaves nothing of the identifier falls before it, or right at its start. */
  lemma CutBefore(d: Dict, ies: seq<IE>, f: nat, q: nat, rs: seq<int>, o: Eid)
    requires ValidDict(d) && WellFormed(d, ies) && CommaFree(ies) && LocalTo(ies, f, o) && CutOf(d, ies, q, rs)
    requires AllReadable(d, ies, |ies|, rs) && rs[f] - |Name(d, ies[f])| - 4 < 1
    ensures q <= f && WireSafe(ies[..q]) && (rs[q] > 0 ==> ies[q].id != IE_EID && Readable(d, ies[q], rs[q]))
  {
    AllReadableSplit(d, ies, |ies|, q, rs);
    CutSide(d, ies, f, q, rs);
  }

  /** Where an event that loses its origin is cut. */
  lemma CutPlace(d: Dict, self: Eid, junk: Eid, o: Eid, ies: seq<IE>, f: nat, cap: nat, b: nat)
    returns (q: nat, r: nat)
    requires ValidDict(d) && WellFormed(d, ies) && CommaFree(ies) && LocalTo(ies, f, o) && cap >= 2
    requires LosesOrigin(d, ies, f, cap) && b == Kept(d, ies, cap)
    ensures q <= f && WireSafe(ies[..q]) && r < |Commas(IeEntries(d, ies, q))|
    ensures r > 0 ==> ies[q].id != IE_EID && Readable(d, ies[q], r)
    ensures b <= |Texts(d, ies)[|ies|]| && b == |Texts(d, ies)[q]| + r
    ensures KeptRun(d, self, junk, ies, b) == PieceRun(d, self, ies, q, r, RunTo(d, self, ies, q, Running(junk, 0, [])))
  {
    var rs := Rests(d, ies, b);
    KeptText(d, ies, cap);
    q := Cut(d, self, junk, ies, b, rs);
    CutBefore(d, ies, f, q, rs, o);
    r := rs[q];
  }

  lemma NothingRead(d: Dict, self: Eid, ies: seq<IE>, q: nat, st: Progress)
    requires WellFormed(d, ies) && q < |ies|
    ensures PieceRun(d, self, ies, q, 0, st) == st
  {
  }

  /** What is decoded behind the whole elements: nothing, or one element that prints what was kept. */
  lemma PieceElements(d: Dict, self: Eid, ies: seq<IE>, q: nat, r: nat, st: Progress) returns (ys: seq<IE>)
    requires ValidDict(d) && WellFormed(d, ies) && q < |ies| && st.Running?
    requires ies[q].payload.Str? ==> Free(ies[q].payload.s, ',')
    requires r < |Commas(IeEntries(d, ies, q))| && (r > 0 ==> ies[q].id != IE_EID && Readable(d, ies[q], r))
    ensures var x := PieceRun(d, self, ies, q, r, st); x.Running? && x.ies == st.ies + ys
    ensures KeptAs(d, ies[q], r, ys)
  {
    if r == 0 {
      NothingRead(d, self, ies, q, st);
      ys := [];
    } else {
      var y := PieceElement(d, self, ies, q, r, st);
      ys := [y];
    }
  }

  predicate KeptAs(d: Dict, ie: IE, r: nat, ys: seq<IE>)
    requires WellTyped(d, ie)
  {
    if r == 0 then ys == []
    else
      && |ys| == 1 && WellTyped(d, ys[0]) && ys[0].id == ie.id != IE_EID && CommaFree(ys)
      && r <= |ElementText(d, ys[0])| && r <= |ElementText(d, ie)|
      && ElementText(d, ys[0])[..r] == ElementText(d, ie)[..r]
  }

  function TextOf(d: Dict, ys: seq<IE>): string
    requires |ys| <= 1 && WellFormed(d, ys)
  {
    if ys == [] then "" else ElementText(d, ys[0])
  }

  lemma PrintingThree(d: Dict, base: seq<IE>, ys: seq<IE>, id: IE)
    requires WellFormed(d, base) && |ys| <= 1 && WellFormed(d, ys) && WellTyped(d, id)
    ensures WellFormed(d, base + ys + [id])
    ensures Printing(d, base + ys + [id]) == Printing(d, base) + TextOf(d, ys) + ElementText(d, id)
  {
    if ys == [] {
      assert base + ys == base;
    } else {
      assert base + ys == base + [ys[0]];
      PrintingSnoc(d, base, ys[0]);
    }
    PrintingSnoc(d, base + ys, id);
  }

  /** Texts that go on alike for `r` characters. */
  lemma PrefixOfSums(a: string, x: string, y: string, more: string, r: nat)
    requires r <= |x| && r <= |y| && x[..r] == y[..r]
    ensures (a + x + more)[..|a| + r] == (a + y)[..|a| + r]
  {
    assert (a + x + more)[..|a| + r] == a + x[..r] && (a + y)[..|a| + r] == a + y[..r];
  }

  lemma PrefixOfText(texts: seq<string>, parts: seq<string>, q: nat, b: nat)
    requires Grows(texts, parts) && q < |parts| && b <= |texts[q]| + |parts[q]|
    ensures b <= |texts[|parts|]| && texts[|parts|][..b] == (texts[q] + parts[q])[..b]
  {
    assert texts[q + 1] == texts[q] + parts[q];
    PrefixesGrow(texts, parts, q + 1, |parts|);
  }

  lemma IdText(d: Dict, id: IE)
    requires WellTyped(d, id) && id.payload.Id?
    ensures |ElementText(d, id)| >= 23
  {
    ElementParts(d, id);
  }

  lemma SelfTyped(d: Dict, ies: seq<IE>, f: nat, o: Eid, self: Eid)
    requires WellFormed(d, ies) && LocalTo(ies, f, o)
    ensures WellTyped(d, LocalId(self))
  {
    assert WellTyped(d, ies[f]);
  }

  lemma AgainOpen(d: Dict, base: seq<IE>, ys: seq<IE>, id: IE, p: string, t: string)
    requires ValidDict(d) && WellFormed(d, base) && |ys| <= 1 && WellFormed(d, ys) && WellTyped(d, id)
    requires p == Printing(d, base) && t == p + TextOf(d, ys) + ElementText(d, id)
    ensures WellFormed(d, base + ys + [id]) && OpenText(d, base + ys + [id]) == "{" + t
  {
    PrintingThree(d, base, ys, id);
    OpenPrinting(d, base + ys + [id]);
  }

  lemma KeptAlike(d: Dict, ie: IE, r: nat, ys: seq<IE>, x: string, u: string)
    requires WellTyped(d, ie) && KeptAs(d, ie, r, ys) && r <= |x|
    requires x == ElementText(d, ie) && WellFormed(d, ys) && |ys| <= 1 && u == TextOf(d, ys)
    ensures r <= |u| && u[..r] == x[..r]
  {
  }

  lemma AgainText(d: Dict, ies: seq<IE>, q: nat, r: nat, ys: seq<IE>, id: IE, cap: nat,
                  p: string, x: string, whole: string)
    requires ValidDict(d) && WellFormed(d, ies) && q < |ies| && WellTyped(d, id) && id.payload.Id? && cap >= 3
    requires KeptAs(d, ies[q], r, ys) && WellFormed(d, ys) && |ys| <= 1
    requires p == Printing(d, ies[..q]) && x == ElementText(d, ies[q]) && OpenText(d, ies) == "{" + whole
    requires r <= |x| && |p| + r == cap - 3 && cap - 1 <= |whole| && whole[..cap - 3] == (p + x)[..cap - 3]
    ensures WellFormed(d, ies[..q] + ys + [id]) && Encode(d, ies[..q] + ys + [id], cap) == Encode(d, ies, cap)
  {
    var u, more := TextOf(d, ys), ElementText(d, id);
    KeptAlike(d, ies[q], r, ys, x, u);
    AgainOpen(d, ies[..q], ys, id, p, p + u + more);
    IdText(d, id);
    PrefixOfSums(p, u, x, more, r);
    SameText(d, ies[..q] + ys + [id], p + u + more, ies, whole, cap);
  }

  lemma OpenTexts(d: Dict, ies: seq<IE>, whole: string)
    requires WellFormed(d, ies) && whole == Texts(d, ies)[|ies|]
    ensures OpenText(d, ies) == "{" + whole
  {
    TextsEntries(d, ies, |ies|);
  }

  lemma PrintedTexts(d: Dict, ies: seq<IE>, q: nat, p: string, x: string)
    requires ValidDict(d) && WellFormed(d, ies) && q < |ies| && p == Texts(d, ies)[q] && x == Parts(d, ies)[q]
    ensures p == Printing(d, ies[..q]) && x == ElementText(d, ies[q])
  {
    PrintingTexts(d, ies, q);
    ElementEntries(d, ies, q);
  }

  lemma TextsCut(d: Dict, ies: seq<IE>, q: nat, cap: nat, p: string, x: string, whole: string)
    requires ValidDict(d) && WellFormed(d, ies) && q < |ies| && cap >= 3
    requires p == Texts(d, ies)[q] && x == Parts(d, ies)[q] && whole == Texts(d, ies)[|ies|]
    requires cap - 3 <= |p| + |x|
    ensures cap - 3 <= |whole| && whole[..cap - 3] == (p + x)[..cap - 3]
  {
    TextsGrow(d, ies);
    PrefixOfText(Texts(d, ies), Parts(d, ies), q, cap - 3);
  }

  /** What the receiver makes of the event prints as the same text. */
  lemma AgainSame(d: Dict, ies: seq<IE>, q: nat, r: nat, ys: seq<IE>, id: IE, cap: nat,
                  p: string, x: string, whole: string)
    requires ValidDict(d) && WellFormed(d, ies) && q < |ies| && WellTyped(d, id) && id.payload.Id? && cap >= 3
    requires KeptAs(d, ies[q], r, ys) && WellFormed(d, ys) && |ys| <= 1
    requires p == Texts(d, ies)[q] && x == Parts(d, ies)[q] && whole == Texts(d, ies)[|ies|]
    requires r <= |x| && |p| + r == cap - 3 && |whole| >= cap - 1
    ensures WellFormed(d, ies[..q] + ys + [id]) && Encode(d, ies[..q] + ys + [id], cap) == Encode(d, ies, cap)
  {
    TextsCut(d, ies, q, cap, p, x, whole);
    OpenTexts(d, ies, whole);
    PrintedTexts(d, ies, q, p, x);
    AgainText(d, ies, q, r, ys, id, cap, p, x, whole);
  }

  lemma AgainLocal(ies: seq<IE>, f: nat, o: Eid, q: nat, ys: seq<IE>, self: Eid)
    requires LocalTo(ies, f, o) && q <= f && CommaFree(ies) && CommaFree(ys) && |ys| <= 1
    requires ys != [] ==> ys[0].id != IE_EID
    ensures var base := ies[..q] + ys;
            && FirstOf(base, IE_EID) == None && CommaFree(base + [LocalId(self)])
            && LocalTo(base + [LocalId(self)], |base|, self)
            && FirstOf(base + [LocalId(self)], IE_EID) == Some(Id(self))
  {
    var base := ies[..q] + ys;
    FirstOfAppend(base, [LocalId(self)]);
    assert FirstOf([LocalId(self)], IE_EID) == Some(Id(self));
  }

  /** What any node, the sender included, makes of an event that loses its origin: an event of its
      own, and one that it publishes as the very same text. */
  lemma Reprinted(d: Dict, self: Eid, junk: Eid, o: Eid, ies: seq<IE>, f: nat, cap: nat)
    returns (again: seq<IE>, cacheable: bool)
    requires ValidDict(d) && WellFormed(d, ies) && CommaFree(ies) && LocalTo(ies, f, o) && cap >= 2
    requires LosesOrigin(d, ies, f, cap)
    ensures Decode(d, self, junk, Encode(d, ies, cap)) == Ok(again, cacheable)
    ensures WellFormed(d, again) && Encode(d, again, cap) == Encode(d, ies, cap)
    ensures CommaFree(again) && again != [] && LocalTo(again, |again| - 1, self)
    ensures FirstOf(again, IE_EID) == Some(Id(self))
  {
    LosesUnfit(d, ies, f, cap);
    var q, r := CutPlace(d, self, junk, o, ies, f, cap, cap - 3);
    var ys := CutElements(d, self, junk, o, ies, f, q, r);
    var x := PieceRun(d, self, ies, q, r, RunTo(d, self, ies, q, Running(junk, 0, [])));
    again, cacheable := ies[..q] + ys + [LocalId(self)], x.cache != 0;
    AgainLocal(ies, f, o, q, ys, self);
    DecodeKept(d, self, junk, ies, cap, cap - 3);
    SelfTyped(d, ies, f, o, self);
    AgainSame(d, ies, q, r, ys, LocalId(self), cap, Texts(d, ies)[q], Parts(d, ies)[q], Texts(d, ies)[|ies|]);
  }

  lemma CutElements(d: Dict, self: Eid, junk: Eid, o: Eid, ies: seq<IE>, f: nat, q: nat, r: nat) returns (ys: seq<IE>)
    requires ValidDict(d) && WellFormed(d, ies) && CommaFree(ies) && LocalTo(ies, f, o) && q <= f && WireSafe(ies[..q])
    requires r < |Commas(IeEntries(d, ies, q))| && (r > 0 ==> ies[q].id != IE_EID && Readable(d, ies[q], r))
    ensures KeptAs(d, ies[q], r, ys) && |ys| <= 1 && WellFormed(d, ys) && CommaFree(ys)
    ensures ys != [] ==> ys[0].id != IE_EID
    ensures var x := PieceRun(d, self, ies, q, r, RunTo(d, self, ies, q, Running(junk, 0, [])));
            x.Running? && x.ies == ies[..q] + ys
  {
    NotCarried(ies, f, o, self, q);
    PrefixRun(d, self, junk, ies, q);
    ys := PieceElements(d, self, ies, q, r, RunTo(d, self, ies, q, Running(junk, 0, [])));
  }

  // ---------------------------------------------------------------- decoded events have an identifier

  /** Every identifier among the elements is one. */
  predicate IdsOnly(st: Progress) {
    st.Running? ==> forall i :: 0 <= i < |st.ies| && st.ies[i].id == IE_EID ==> st.ies[i].payload.Id?
  }

  lemma AppendIds(d: Dict, self: Eid, id: nat, value: string, st: Progress)
    requires ValidDict(d) && st.Running? && IdsOnly(st) && 1 <= id < |d.table|
    ensures IdsOnly(AppendValue(d, self, id, value, st))
  {
    assert ValidEntry(d.table, id);
  }

  lemma ParseIds(d: Dict, self: Eid, entry: string, st: Progress)
    requires ValidDict(d) && IdsOnly(st)
    ensures IdsOnly(ParseEntry(d, self, entry, st))
  {
    if st.Running? {
      var (key, value) := Separate(entry);
      if value.Some? && Trim(value.value, '"').Some? && Trim(key, '"').Some? {
        var found := Lookup(d.table, Trim(key, '"').value);
        if found.Some? {
          AppendIds(d, self, found.value, Trim(value.value, '"').value, st);
        }
      }
    }
  }

  lemma {:induction false} RunIds(d: Dict, self: Eid, entries: seq<string>, st: Progress)
    requires ValidDict(d) && IdsOnly(st)
    ensures IdsOnly(Run(d, self, entries, st))
  {
    if entries != [] {
      RunIds(d, self, entries[..|entries| - 1], st);
      ParseIds(d, self, entries[|entries| - 1], Run(d, self, entries[..|entries| - 1], st));
    }
  }

  /** Whatever the message, an event that is decoded names an origin. */
  lemma DecodedNames(d: Dict, self: Eid, junk: Eid, msg: string)
    requires ValidDict(d) && Decode(d, self, junk, msg).Ok?
    ensures OriginSeen(Decode(d, self, junk, msg)).From?
  {
    var st := Run(d, self, Tokens(Strip(msg).value, ','), Running(junk, 0, []));
    RunIds(d, self, Tokens(Strip(msg).value, ','), Running(junk, 0, []));
    FirstOfAppend(st.ies, [LocalId(self)]);
    assert FirstOf([LocalId(self)], IE_EID) == Some(Id(self));
    if FirstOf(st.ies, IE_EID).Some? {
      assert IE(IE_EID, FirstOf(st.ies, IE_EID).value) in st.ies;
    }
  }

  // ---------------------------------------------------------------- an overlong string

  lemma CutWithin(d: Dict, ies: seq<IE>, i: nat, b: nat, texts: seq<string>, parts: seq<string>)
    requires WellFormed(d, ies) && i < |ies| && texts == Texts(d, ies) && parts == Parts(d, ies)
    requires |texts[i]| <= b < |texts[i]| + |parts[i]|
    ensures CutOf(d, ies, i, Rests(d, ies, b))
  {
    TextsGrow(d, ies);
    assert texts[i + 1] == texts[i] + parts[i];
    CutDistances(texts, parts, b, i);
    CutOfParts(d, ies, i, Rests(d, ies, b));
  }

  lemma RestWithin(d: Dict, ies: seq<IE>, i: nat, b: nat, r: nat)
    requires WellFormed(d, ies) && i < |ies| && b == |Texts(d, ies)[i]| + r && r < |Commas(IeEntries(d, ies, i))|
    ensures CutOf(d, ies, i, Rests(d, ies, b)) && Rests(d, ies, b)[i] == r
  {
    CutWithin(d, ies, i, b, Texts(d, ies), Parts(d, ies));
  }

  lemma StringReadable(d: Dict, ies: seq<IE>, i: nat, r: nat)
    requires ValidDict(d) && WellFormed(d, ies) && i < |ies| && ies[i].payload.Str?
    requires |Name(d, ies[i])| + 5 <= r <= |Pair(Name(d, ies[i]), Printed(d, ies[i]))|
    ensures Readable(d, ies[i], r) && r < |Commas(IeEntries(d, ies, i))|
  {
    WholeLength(d, ies, i);
  }

  lemma StringLoses(d: Dict, ies: seq<IE>, f: nat, o: Eid, i: nat, rs: seq<int>)
    requires ValidDict(d) && WellFormed(d, ies) && CommaFree(ies) && LocalTo(ies, f, o) && CutOf(d, ies, i, rs)
    requires i < f && WireSafe(ies[..i]) && Readable(d, ies[i], rs[i])
    ensures AllReadable(d, ies, |ies|, rs) && rs[f] - |Name(d, ies[f])| - 4 < 1
  {
    AllReadableSplit(d, ies, |ies|, i, rs);
    CutSide(d, ies, f, i, rs);
  }

  /** One overlong string before the identifier is enough: the buffer ends inside it or right behind
      it, and what precedes it is safe. */
  lemma OverlongString(d: Dict, ies: seq<IE>, f: nat, o: Eid, i: nat, cap: nat, b: nat, r: nat)
    requires ValidDict(d) && WellFormed(d, ies) && CommaFree(ies) && LocalTo(ies, f, o) && cap >= 2
    requires i < f && ies[i].payload.Str? && WireSafe(ies[..i])
    requires b == Kept(d, ies, cap) && b == |Texts(d, ies)[i]| + r
    requires |Name(d, ies[i])| + 5 <= r <= |Pair(Name(d, ies[i]), Printed(d, ies[i]))|
    ensures LosesOrigin(d, ies, f, cap)
  {
    StringReadable(d, ies, i, r);
    RestWithin(d, ies, i, b, r);
    StringLoses(d, ies, f, o, i, Rests(d, ies, b));
    RestsLose(d, ies, f, cap, b, Rests(d, ies, b));
  }

  lemma RestsLose(d: Dict, ies: seq<IE>, f: nat, cap: nat, b: nat, rs: seq<int>)
    requires WellFormed(d, ies) && f < |ies| && cap >= 2 && b == Kept(d, ies, cap) && rs == Rests(d, ies, b)
    requires AllReadable(d, ies, |ies|, rs) && rs[f] - |Name(d, ies[f])| - 4 < 1
    ensures LosesOrigin(d, ies, f, cap)
  {
  }
}

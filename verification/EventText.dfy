/** The text of an event line by line, in the formats of the snprintf calls. */
module EventText {
  import opened CText
  import opened IeTable
  import opened EventCodec
  import opened Spelling
  import opened Truncation

  /** What is printed for an element of the compiled-in table: `name` is the element's, `state` the
      name of a device state. Only the element called State has a second entry. */
  function Line(name: string, p: Payload, state: nat -> string): string {
    match p
    case Uint(n) =>
      "\"" + name + "\":" + Decimal(n) + ","
      + if name == "State" then "\"statestr\":\"" + state(n) + "\"," else ""
    case Flags(n) => "\"" + name + "\":" + Decimal(n) + ","
    case Str(s) => "\"" + name + "\":\"" + s + "\","
    case Id(e) => "\"" + name + "\":\"" + EidText(e) + "\","
    case _ => ""
  }

  function Lines(d: Dict, ies: seq<IE>): string
    requires WellFormed(d, ies)
  {
    if ies == [] then ""
    else
      var last := ies[|ies| - 1];
      assert WellTyped(d, last);
      Lines(d, ies[..|ies| - 1]) + Line(d.table[last.id].name.value, last.payload, d.devstate)
  }

  /** The second entry is printed for the element called State and for no other. */
  lemma DecoyNamed(d: Dict, ie: IE)
    requires d.table == AsteriskTable() && WellTyped(d, ie)
    ensures Decoy(d, ie)
         == if ie.payload.Uint? && d.table[ie.id].name == Some("State")
            then ["\"statestr\":\"" + d.devstate(ie.payload.n) + "\""] else []
  {
    NamedElements(ie.id);
    if ie.payload.Uint? {
      var v := d.devstate(ie.payload.n);
      assert Pair(STATESTR, Quote(v)) == "\"statestr\":\"" + v + "\"";
    }
  }

  lemma NumberLine(name: string, n: nat)
    ensures Pair(name, Decimal(n)) + "," == "\"" + name + "\":" + Decimal(n) + ","
  {
    assert "\"" + ":" == "\":";
    assert Quote(name) + ":" == "\"" + name + "\":";
  }

  lemma TextLine(name: string, s: string)
    ensures Pair(name, Quote(s)) + "," == "\"" + name + "\":\"" + s + "\","
  {
    assert Quote(name) + ":" + Quote(s) + "," == "\"" + name + "\":\"" + s + "\",";
  }

  lemma EntryLine(d: Dict, ies: seq<IE>, i: nat)
    requires ValidDict(d) && d.table == AsteriskTable() && WellFormed(d, ies) && i < |ies|
    ensures !ies[i].payload.Raw? && !ies[i].payload.Nothing?
    ensures IeEntry(d, ies, i) + ","
         == match ies[i].payload
            case Uint(n) => "\"" + Name(d, ies[i]) + "\":" + Decimal(n) + ","
            case Flags(n) => "\"" + Name(d, ies[i]) + "\":" + Decimal(n) + ","
            case Str(s) => "\"" + Name(d, ies[i]) + "\":\"" + s + "\","
            case Id(e) => "\"" + Name(d, ies[i]) + "\":\"" + EidText(e) + "\","
            case _ => ""
  {
    var ie := ies[i];
    assert WellTyped(d, ie) && ValidEntry(d.table, ie.id);
    match ie.payload {
      case Uint(n) => NumberLine(Name(d, ie), n);
      case Flags(n) => NumberLine(Name(d, ie), n);
      case Str(s) => TextLine(Name(d, ie), s);
      case Id(e) => TextLine(Name(d, ie), EidText(e));
      case _ =>
    }
  }

  lemma OneEntry(e: string, decoy: seq<string>)
    requires |decoy| <= 1
    ensures Commas([e] + decoy) == e + "," + if decoy == [] then "" else decoy[0] + ","
  {
    CommasAppend([e], decoy);
    assert [e][..0] == [];
    if decoy != [] {
      assert decoy[..0] == [] && decoy == [decoy[0]];
    }
  }

  lemma ElementLine(d: Dict, ies: seq<IE>, i: nat)
    requires ValidDict(d) && d.table == AsteriskTable() && WellFormed(d, ies) && i < |ies|
    ensures Commas(IeEntries(d, ies, i)) == Line(Name(d, ies[i]), ies[i].payload, d.devstate)
  {
    EntryLine(d, ies, i);
    DecoyNamed(d, ies[i]);
    OneEntry(IeEntry(d, ies, i), Decoy(d, ies[i]));
    if Decoy(d, ies[i]) != [] {
      StateLine(IeEntry(d, ies, i) + ",", d.devstate(ies[i].payload.n));
    }
  }

  lemma StateLine(line: string, v: string)
    ensures line + ("\"statestr\":\"" + v + "\"" + ",") == line + ("\"statestr\":\"" + v + "\",")
  {
    assert "\"statestr\":\"" + v + "\"" + "," == "\"statestr\":\"" + v + "\",";
  }

  lemma LinesNext(d: Dict, ies: seq<IE>, k: nat)
    requires WellFormed(d, ies) && k < |ies|
    ensures Lines(d, ies[..k + 1]) == Lines(d, ies[..k]) + Line(Name(d, ies[k]), ies[k].payload, d.devstate)
  {
    assert ies[..k + 1][..k] == ies[..k] && ies[..k + 1][k] == ies[k];
  }

  /** The lines of every beginning of an event. */
  function LinesOf(d: Dict, ies: seq<IE>): (r: seq<string>)
    requires WellFormed(d, ies)
    ensures |r| == |ies| + 1
  {
    seq(|ies| + 1, k requires 0 <= k <= |ies| => Lines(d, ies[..k]))
  }

  lemma LinesStep(d: Dict, ies: seq<IE>, i: nat, a: string, b: string, part: string)
    requires ValidDict(d) && d.table == AsteriskTable() && WellFormed(d, ies) && i < |ies|
    requires a == Lines(d, ies[..i]) && b == Lines(d, ies[..i + 1]) && part == Commas(IeEntries(d, ies, i))
    ensures b == a + part
  {
    LinesNext(d, ies, i);
    ElementLine(d, ies, i);
  }

  lemma LinesGrow(d: Dict, ies: seq<IE>)
    requires ValidDict(d) && d.table == AsteriskTable() && WellFormed(d, ies)
    ensures LinesOf(d, ies)[0] == ""
    ensures forall i {:trigger Parts(d, ies)[i]} :: 0 <= i < |ies| ==>
              LinesOf(d, ies)[i + 1] == LinesOf(d, ies)[i] + Parts(d, ies)[i]
  {
    forall i | 0 <= i < |ies|
      ensures LinesOf(d, ies)[i + 1] == LinesOf(d, ies)[i] + Parts(d, ies)[i]
    {
      LinesStep(d, ies, i, LinesOf(d, ies)[i], LinesOf(d, ies)[i + 1], Parts(d, ies)[i]);
    }
  }

  lemma LinesTexts(d: Dict, ies: seq<IE>)
    requires ValidDict(d) && d.table == AsteriskTable() && WellFormed(d, ies)
    ensures Texts(d, ies)[|ies|] == LinesOf(d, ies)[|ies|]
  {
    TextsGrow(d, ies);
    LinesGrow(d, ies);
    SameSteps(Texts(d, ies), LinesOf(d, ies), Parts(d, ies), |ies|);
  }

  /** The text before its last comma becomes '}': a brace and the lines. */
  lemma OpenLines(d: Dict, ies: seq<IE>)
    requires ValidDict(d) && d.table == AsteriskTable() && WellFormed(d, ies)
    ensures OpenText(d, ies) == "{" + Lines(d, ies)
  {
    LinesTexts(d, ies);
    TextsEntries(d, ies, |ies|);
    assert ies[..|ies|] == ies;
  }

  /** An event fits exactly if its text is as long as in an unlimited buffer. */
  lemma FitsIff(d: Dict, ies: seq<IE>, cap: nat)
    requires WellFormed(d, ies) && cap >= 2
    ensures Fits(d, ies, cap) <==> |Encode(d, ies, cap)| == |OpenText(d, ies)|
  {
  }

  /** The identifier taken for an event's origin is the first one it carries. */
  lemma {:induction false} FirstOfIs(ies: seq<IE>, id: nat, p: Payload)
    ensures FirstOf(ies, id) == Some(p)
            <==> exists i :: 0 <= i < |ies| && ies[i] == IE(id, p) && forall j :: 0 <= j < i ==> ies[j].id != id
  {
    if ies != [] && ies[0].id != id {
      FirstOfIs(ies[1..], id, p);
      if i :| 0 <= i < |ies| && ies[i] == IE(id, p) && forall j :: 0 <= j < i ==> ies[j].id != id {
        assert ies[1..][i - 1] == IE(id, p) && forall j :: 0 <= j < i - 1 ==> ies[1..][j].id == ies[j + 1].id;
      }
      if i :| 0 <= i < |ies[1..]| && ies[1..][i] == IE(id, p) && forall j :: 0 <= j < i ==> ies[1..][j].id != id {
        assert ies[i + 1] == IE(id, p) && forall j :: 1 <= j < i + 1 ==> ies[j].id == ies[1..][j - 1].id;
      }
    } else if ies != [] && ies[0] == IE(id, p) {
      assert ies[0] == IE(id, p);
    }
  }

  /** What a buffer keeps of the lines: all but the last comma, or what fits but one character, and
      the closing brace. */
  function KeptLines(lines: string, cap: nat): string
    requires lines != "" && cap >= 2
  {
    if |lines| + 1 < cap then "{" + lines[..|lines| - 1] + "}" else ("{" + lines)[..cap - 2] + "}"
  }

  lemma ClosedLines(lines: string, cap: nat)
    requires lines != "" && cap >= 2
    ensures Closed("{" + lines, cap) == KeptLines(lines, cap)
  {
    assert ("{" + lines)[..|lines|] == "{" + lines[..|lines| - 1];
  }

  lemma LinesFilled(d: Dict, ies: seq<IE>)
    requires ValidDict(d) && d.table == AsteriskTable() && WellFormed(d, ies) && ies != []
    ensures Lines(d, ies) != ""
  {
    EntryLine(d, ies, |ies| - 1);
  }

  /** The encoded event, line by line. */
  lemma EncodeLines(d: Dict, ies: seq<IE>, cap: nat)
    requires ValidDict(d) && d.table == AsteriskTable() && WellFormed(d, ies) && ies != [] && cap >= 2
    ensures Lines(d, ies) != "" && Encode(d, ies, cap) == KeptLines(Lines(d, ies), cap)
  {
    OpenLines(d, ies);
    LinesFilled(d, ies);
    ClosedLines(Lines(d, ies), cap);
  }

  lemma ThreeLines(d: Dict, a: IE, b: IE, c: IE)
    requires WellTyped(d, a) && WellTyped(d, b) && WellTyped(d, c)
    ensures WellFormed(d, [a, b, c])
    ensures Lines(d, [a, b, c]) == Line(Name(d, a), a.payload, d.devstate) + Line(Name(d, b), b.payload, d.devstate)
                                   + Line(Name(d, c), c.payload, d.devstate)
  {
    var ies := [a, b, c];
    assert ies == ies[..3] && ies[..0] == [];
    LinesNext(d, ies, 0);
    LinesNext(d, ies, 1);
    LinesNext(d, ies, 2);
  }

  /** A device-state event, written out. */
  lemma StateEvent(d: Dict, device: string, n: nat, e: Eid)
    requires ValidDict(d) && d.table == AsteriskTable() && n < UINT_LIMIT && Free(device, NUL)
    ensures var ies := [IE(7, Str(device)), IE(8, Uint(n)), IE(10, Id(e))];
            && WellFormed(d, ies)
            && Lines(d, ies) == ("\"Device\":\"" + device + "\",")
                                + (("\"State\":" + Decimal(n) + ",") + ("\"statestr\":\"" + d.devstate(n) + "\","))
                                + ("\"EntityID\":\"" + EidText(e) + "\",")
  {
    StateEventTyped(d, device, n, e);
    ThreeLines(d, IE(7, Str(device)), IE(8, Uint(n)), IE(10, Id(e)));
    StringLine("Device", "\"Device\":\"", device, d.devstate);
    StateText("State", "\"State\":", n, d.devstate);
    IdLine("EntityID", "\"EntityID\":\"", e, d.devstate);
  }

  lemma StringLine(name: string, start: string, s: string, state: nat -> string)
    requires start == "\"" + name + "\":\""
    ensures Line(name, Str(s), state) == start + s + "\","
  {
  }

  lemma IdLine(name: string, start: string, e: Eid, state: nat -> string)
    requires start == "\"" + name + "\":\""
    ensures Line(name, Id(e), state) == start + EidText(e) + "\","
  {
  }

  lemma StateEventTyped(d: Dict, device: string, n: nat, e: Eid)
    requires d.table == AsteriskTable() && n < UINT_LIMIT && Free(device, NUL)
    ensures WellTyped(d, IE(7, Str(device))) && Name(d, IE(7, Str(device))) == "Device"
    ensures WellTyped(d, IE(8, Uint(n))) && Name(d, IE(8, Uint(n))) == "State"
    ensures WellTyped(d, IE(10, Id(e))) && Name(d, IE(10, Id(e))) == "EntityID"
  {
  }

  lemma StateText(name: string, start: string, n: nat, state: nat -> string)
    requires name == "State" && start == "\"" + name + "\":"
    ensures Line(name, Uint(n), state) == (start + Decimal(n) + ",") + ("\"statestr\":\"" + state(n) + "\",")
  {
  }
}

/** message2json and json2message as they run: a cursor over a bounded char buffer, and a token
    loop that cuts its copies in place. Both are proved equal to the functions of EventCodec. */
module Serializer {
  import opened CText
  import opened IeTable
  import opened EventCodec
  import opened EventText
  import opened LibC
  import opened Shared

  // ---------------------------------------------------------------- encoder

  /** Names and device states are C strings. */
  ghost predicate CStrings(d: Dict) {
    && (forall i :: 0 <= i < |d.table| && d.table[i].name.Some? ==> Free(d.table[i].name.value, NUL))
    && (forall n: nat {:trigger d.devstate(n)} :: Free(d.devstate(n), NUL))
  }

  lemma ValidDictCStrings(d: Dict)
    requires ValidDict(d) && d.table[0].name.None?
    ensures CStrings(d)
  {
    forall i | 0 <= i < |d.table| && d.table[i].name.Some?
      ensures Free(d.table[i].name.value, NUL)
    {
      assert ValidEntry(d.table, i);
    }
  }

  /** The first `n` bytes are the text followed by NULs only. */
  predicate Filled(mem: seq<char>, n: nat, text: string) {
    && |text| < n <= |mem|
    && forall i :: 0 <= i < n ==> mem[i] == if i < |text| then text[i] else NUL
  }

  function Kept(text: string, n: nat): string
    requires n >= 1
  {
    if |text| < n then text else text[..n - 1]
  }

  lemma FilledHolds(mem: seq<char>, n: nat, text: string)
    requires Filled(mem, n, text) && Free(text, NUL)
    ensures Holds(mem, 0, text)
  {
  }

  /** The buffer and cursor after printing `text`: what fits of it, then NULs. */
  predicate Shows(mem: seq<char>, n: nat, curpos: nat, text: string)
    requires n >= 1
  {
    Filled(mem, n, Kept(text, n)) && curpos == |Kept(text, n)| && Free(text, NUL)
  }

  lemma FreeAppend(a: string, b: string, c: char)
    requires Free(a, c) && Free(b, c)
    ensures Free(a + b, c)
  {
  }

  /** One snprintf(msg + curpos, msg_len - curpos, ...) and the strlen after it. */
  method Append(msg: array<char>, msgLen: nat, curpos: nat, piece: string, ghost text: string) returns (next: nat)
    requires 2 <= msgLen <= msg.Length
    requires Shows(msg[..], msgLen, curpos, text) && Free(piece, NUL)
    modifies msg
    ensures Shows(msg[..], msgLen, next, text + piece)
    ensures msg[msgLen..] == old(msg[msgLen..])
  {
    Snprintf(msg, curpos, msgLen - curpos, piece);
    FreeAppend(text, piece, NUL);
    FilledHolds(msg[..], msgLen, Kept(text + piece, msgLen));
    next := Strlen(msg, 0, Kept(text + piece, msgLen));
  }

  lemma EntryNulFree(d: Dict, ies: seq<IE>, i: nat)
    requires CStrings(d) && WellFormed(d, ies) && i < |ies|
    ensures Free(IeEntry(d, ies, i), NUL)
    ensures Decoy(d, ies[i]) != [] ==> Free(Decoy(d, ies[i])[0], NUL)
  {
    var ie := ies[i];
    assert WellTyped(d, ie);
    match d.table[ie.id].pltype {
      case UINT => DigitsBare(ie.payload.n);
      case BITFLAGS => DigitsBare(ie.payload.bits);
      case RAW =>
        if ie.id == IE_EID {
          EidTextPlain(ie.payload.eid);
        }
      case _ =>
    }
  }

  lemma CommasOne(e: string)
    ensures Commas([e]) == e + ","
  {
    assert [e][..0] == [];
  }

  lemma CommasTwo(text: string, e: string, f: string)
    ensures text + Commas([e] + [f]) == (text + (e + ",")) + (f + ",")
    ensures text + Commas([e] + []) == text + (e + ",")
  {
    CommasOne(e);
    CommasOne(f);
    CommasAppend([e], [f]);
    assert [e] + [] == [e];
  }

  /** What one pass of the do-while body prints: an entry, and for State elements a second one. */
  method PrintEntries(msg: array<char>, msgLen: nat, curpos: nat, entry: string, decoy: seq<string>, ghost text: string)
    returns (next: nat)
    requires 2 <= msgLen <= msg.Length
    requires Shows(msg[..], msgLen, curpos, text)
    requires Free(entry, NUL) && |decoy| <= 1 && (decoy != [] ==> Free(decoy[0], NUL))
    modifies msg
    ensures Shows(msg[..], msgLen, next, text + Commas([entry] + decoy))
    ensures msg[msgLen..] == old(msg[msgLen..])
  {
    next := Append(msg, msgLen, curpos, entry + ",", text);
    CommasTwo(text, entry, if decoy == [] then "" else decoy[0]);
    if decoy != [] {
      next := Append(msg, msgLen, next, decoy[0] + ",", text + (entry + ","));
      assert decoy == [decoy[0]];
    }
  }

  /** The unlimited text after one more element. */
  lemma NextText(d: Dict, ies: seq<IE>, i: nat, text: string)
    requires WellFormed(d, ies) && i < |ies| && text == "{" + Commas(Entries(d, ies, i))
    ensures text + Commas([IeEntry(d, ies, i)] + Decoy(d, ies[i])) == "{" + Commas(Entries(d, ies, i + 1))
  {
    EntriesNext(d, ies, i);
    OpenedText(Commas(Entries(d, ies, i)), Commas(IeEntries(d, ies, i)));
  }

  lemma OpenedText(body: string, more: string)
    ensures ("{" + body) + more == "{" + (body + more)
  {
  }

  /** One pass of the do-while body on element `i`. */
  method PrintIe(d: Dict, msg: array<char>, msgLen: nat, curpos: nat, ies: seq<IE>, i: nat) returns (next: nat)
    requires 2 <= msgLen <= msg.Length && WellFormed(d, ies) && i < |ies| && CStrings(d)
    requires Shows(msg[..], msgLen, curpos, "{" + Commas(Entries(d, ies, i)))
    modifies msg
    ensures Shows(msg[..], msgLen, next, "{" + Commas(Entries(d, ies, i + 1)))
    ensures msg[msgLen..] == old(msg[msgLen..])
  {
    ghost var text := "{" + Commas(Entries(d, ies, i));
    EntryNulFree(d, ies, i);
    next := PrintEntries(msg, msgLen, curpos, IeEntry(d, ies, i), Decoy(d, ies[i]), text);
    NextText(d, ies, i, text);
  }

  lemma CloseText(before: seq<char>, after: seq<char>, n: nat, curpos: nat, text: string)
    requires n >= 2 && text != "" && Shows(before, n, curpos, text)
    requires |after| == |before| && forall i :: 0 <= i < n ==> after[i] == if i == curpos - 1 then '}' else before[i]
    ensures Filled(after, n, Closed(text, n)) && Free(Closed(text, n), NUL)
  {
  }

  method Clear(msg: array<char>, msgLen: nat)
    requires 2 <= msgLen <= msg.Length
    modifies msg
    ensures Filled(msg[..], msgLen, "{") && msg[msgLen..] == old(msg[msgLen..])
  {
    forall i | 0 <= i < msgLen {
      msg[i] := NUL;
    }
    msg[0] := '{';
  }

  /** Byte by byte: the bounded text, then NULs; over the compiled-in table, the bounded lines. */
  ghost predicate BufferHolds(d: Dict, mem: seq<char>, n: nat, ies: seq<IE>)
    requires n >= 2 && WellFormed(d, ies) && ies != []
  {
    && |Encode(d, ies, n)| < n <= |mem|
    && (forall i :: 0 <= i < n ==> mem[i] == if i < |Encode(d, ies, n)| then Encode(d, ies, n)[i] else NUL)
    && (ValidDict(d) && d.table == AsteriskTable() ==>
          Lines(d, ies) != "" && Encode(d, ies, n) == KeptLines(Lines(d, ies), n))
  }

  lemma FilledPrints(d: Dict, mem: seq<char>, n: nat, ies: seq<IE>)
    requires n >= 2 && WellFormed(d, ies) && ies != [] && Filled(mem, n, Encode(d, ies, n))
    ensures BufferHolds(d, mem, n, ies)
  {
    if ValidDict(d) && d.table == AsteriskTable() {
      EncodeLines(d, ies, n);
    }
  }

  /** message2json. Whatever the event and the buffer size, the buffer ends up holding exactly
      the bounded text followed by NULs, and nothing past `msgLen` is touched. */
  method Message2Json(d: Dict, msg: array<char>, msgLen: nat, event: Event) returns (res: Exception)
    requires 2 <= msgLen <= msg.Length && WellFormed(d, event.ies) && CStrings(d)
    modifies msg
    ensures msg[msgLen..] == old(msg[msgLen..])
    ensures event.ies == [] ==> res == DecodingFailed && Filled(msg[..], msgLen, "{")
    ensures event.ies != [] ==> res == NoException && Filled(msg[..], msgLen, Encode(d, event.ies, msgLen))
    ensures event.ies != [] ==> Free(Encode(d, event.ies, msgLen), NUL)
    ensures event.ies != [] ==> BufferHolds(d, msg[..], msgLen, event.ies)
  {
    Clear(msg, msgLen);
    var curpos := 1;
    var ies := event.ies;
    if ies == [] {
      return DecodingFailed;
    }
    var i := 0;
    var more := true;
    while more
      invariant 0 <= i <= |ies| && (more <==> i < |ies|)
      invariant Shows(msg[..], msgLen, curpos, "{" + Commas(Entries(d, ies, i)))
      invariant msg[msgLen..] == old(msg[msgLen..])
      decreases |ies| - i
    {
      curpos := PrintIe(d, msg, msgLen, curpos, ies, i);
      i := i + 1;
      more := i < |ies|;
    }
    ghost var before := msg[..];
    msg[curpos - 1] := '}';
    CloseText(before, msg[..], msgLen, curpos, OpenText(d, ies));
    FilledPrints(d, msg[..], msgLen, ies);
    return NoException;
  }

  // ---------------------------------------------------------------- decoder

  /** The body of the token loop on one entry: the in-place strsep and trims of a fresh copy. */
  method DecodeEntry(d: Dict, self: Eid, entry: string, st: Progress) returns (next: Progress)
    requires st.Running? && Free(entry, NUL)
    ensures next == ParseEntry(d, self, entry, st)
  {
    var copy := Strdupa(entry);
    var value := Strsep(copy, entry);
    ghost var parts := Separate(entry);
    if value.None? {
      return Undefined; // trim_char_bothends would follow a null pointer
    }
    var defined := TrimCharBothEnds(copy, value.value, '"', parts.1.value);
    if !defined {
      return Undefined;
    }
    ghost var bare := Trim(parts.1.value, '"').value;
    ghost var mem := copy[..];
    defined := TrimCharBothEnds(copy, 0, '"', parts.0);
    if !defined {
      return Undefined;
    }
    HoldsFrame(mem, copy[..], value.value, bare);
    var key := ReadString(copy, 0, Trim(parts.0, '"').value);
    var text := ReadString(copy, value.value, bare);
    var rc, ieType := StrToIeType(d.table, key);
    if rc == 0 {
      next := AppendValue(d, self, ieType, text, st);
    } else {
      next := st;
    }
  }

  method ReadString(a: array<char>, off: nat, ghost s: string) returns (t: string)
    requires Holds(a[..], off, s)
    ensures t == s
  {
    var n := Strlen(a, off, s);
    t := a[off..off + n];
  }

  /** A run goes on from its first entry; once ended it stays ended. */
  lemma RunHead(d: Dict, self: Eid, entry: string, rest: seq<string>, st: Progress)
    ensures Run(d, self, [entry] + rest, st) == Run(d, self, rest, ParseEntry(d, self, entry, st))
    ensures !ParseEntry(d, self, entry, st).Running? ==>
              Run(d, self, [entry] + rest, st) == ParseEntry(d, self, entry, st)
  {
    RunAppend(d, self, [entry], rest, st);
    RunOne(d, self, entry, st);
    RunExtends(d, self, rest, ParseEntry(d, self, entry, st));
  }

  /** json2message: the in-place trim, the strtok loop and the local identifier added at the end
      compute the decoding function, for every message and every content of the identifier
      buffer. Each pass leaves strictly less text. */
  method Json2Message(d: Dict, self: Eid, junk: Eid, msg: string) returns (r: Decoded)
    requires Free(msg, NUL)
    ensures r == Decode(d, self, junk, msg)
  {
    var tokenstr := Strdupa(msg);
    var defined := TrimCharBothEnds(tokenstr, 0, NUL, msg);
    if !defined {
      return NoMeaning;
    }
    ghost var rest := Strip(msg).value;
    ghost var goal := Run(d, self, Tokens(rest, ','), Running(junk, 0, []));
    ghost var entry: string;
    var st := Running(junk, 0, []);
    var found, start, save := false, 0, 0;
    found, start, save, entry, rest := Strtok(tokenstr, 0, ',', rest);
    while found
      invariant st.Running?
      invariant found ==> Holds(tokenstr[..], start, entry) && Holds(tokenstr[..], save, rest)
      invariant goal == if found then Run(d, self, [entry] + Tokens(rest, ','), st) else st
      decreases found, |rest|
    {
      var text := ReadString(tokenstr, start, entry);
      RunHead(d, self, entry, Tokens(rest, ','), st);
      st := DecodeEntry(d, self, text, st);
      if st.Self? {
        return SelfEid;
      } else if st.Undefined? {
        return NoMeaning;
      }
      found, start, save, entry, rest := Strtok(tokenstr, save, ',', rest);
    }
    r := Finish(self, st);
  }
}

/** The published text against the JSON grammar of RFC 8259: objects (section 4), numbers
    (section 6) and strings (section 7), without insignificant white space. Defined from the
    grammar, independently of the encoder. */
module JsonGrammar {
  import opened CText
  import opened IeTable
  import opened EventCodec

  predicate Unescaped(c: char) {
    c >= ' ' && c != '"' && c != '\\'
  }

  predicate IsHexDigit(c: char) {
    HexValue(c).Some?
  }

  /** *char of section 7 */
  predicate IsChars(s: string) {
    || s == ""
    || (Unescaped(s[0]) && IsChars(s[1..]))
    || (|s| >= 2 && s[0] == '\\' && s[1] in "\"\\/bfnrt" && IsChars(s[2..]))
    || (|s| >= 6 && s[0] == '\\' && s[1] == 'u' && IsHexDigit(s[2]) && IsHexDigit(s[3])
        && IsHexDigit(s[4]) && IsHexDigit(s[5]) && IsChars(s[6..]))
  }

  predicate IsString(s: string) {
    |s| >= 2 && s[0] == '"' && s[|s| - 1] == '"' && IsChars(s[1..|s| - 1])
  }

  /** int of section 6: no leading zeros */
  predicate IsInt(s: string) {
    s == "0" || (s != "" && s[0] != '0' && AllDigits(s))
  }

  predicate IsFrac(s: string) {
    s == "" || (|s| >= 2 && s[0] == '.' && AllDigits(s[1..]))
  }

  predicate IsExp(s: string) {
    s == "" || (|s| >= 2 && (s[0] == 'e' || s[0] == 'E')
                && (AllDigits(s[1..]) || (|s| >= 3 && (s[1] == '+' || s[1] == '-') && AllDigits(s[2..]))))
  }

  ghost predicate IsNumber(s: string) {
    exists minus, digits, frac, exponent :: NumberParts(s, minus, digits, frac, exponent)
  }

  predicate NumberParts(s: string, minus: string, digits: string, frac: string, exponent: string) {
    && s == minus + digits + frac + exponent
    && (minus == "" || minus == "-") && IsInt(digits) && IsFrac(frac) && IsExp(exponent)
  }

  ghost predicate IsMember(m: string) {
    exists name, value :: MemberParts(m, name, value)
  }

  ghost predicate MemberParts(m: string, name: string, value: string) {
    m == name + ":" + value && IsString(name) && (IsString(value) || IsNumber(value))
  }

  ghost predicate IsObject(s: string) {
    exists members: seq<string> :: ObjectParts(s, members)
  }

  ghost predicate ObjectParts(s: string, members: seq<string>) {
    s == "{" + Join(members) + "}" && forall i :: 0 <= i < |members| ==> IsMember(members[i])
  }

  predicate AllUnescaped(s: string) {
    forall i :: 0 <= i < |s| ==> Unescaped(s[i])
  }

  lemma {:induction false} UnescapedChars(s: string)
    requires AllUnescaped(s)
    ensures IsChars(s)
  {
    if s != "" {
      UnescapedChars(s[1..]);
    }
  }

  lemma QuotedString(s: string)
    requires AllUnescaped(s)
    ensures IsString(Quote(s))
  {
    UnescapedChars(s);
    assert Quote(s)[1..|Quote(s)| - 1] == s;
  }

  lemma DecimalNumber(n: nat)
    ensures IsNumber(Decimal(n))
  {
    assert Decimal(n) == "" + Decimal(n) + "" + "";
    assert NumberParts(Decimal(n), "", Decimal(n), "", "");
  }

  lemma PairMember(name: string, value: string)
    requires PlainName(name) && (IsString(value) || IsNumber(value))
    ensures IsMember(Pair(name, value))
  {
    QuotedString(name);
    assert MemberParts(Pair(name, value), Quote(name), value);
  }

  /** String payloads and device state names hold only characters that need no escape. */
  ghost predicate PlainTexts(d: Dict, ies: seq<IE>) {
    && (forall i :: 0 <= i < |ies| && ies[i].payload.Str? ==> AllUnescaped(ies[i].payload.s))
    && (forall n: nat {:trigger d.devstate(n)} :: AllUnescaped(d.devstate(n)))
  }

  lemma EntryMembers(d: Dict, ies: seq<IE>, i: nat)
    requires ValidDict(d) && WellFormed(d, ies) && i < |ies| && PlainTexts(d, ies)
    ensures forall j :: 0 <= j < |IeEntries(d, ies, i)| ==> IsMember(IeEntries(d, ies, i)[j])
  {
    var ie := ies[i];
    EntryShape(d, ies, i);
    assert ValidEntry(d.table, ie.id) && WellTyped(d, ie);
    match ie.payload {
      case Uint(n) => DecimalNumber(n);
      case Flags(n) => DecimalNumber(n);
      case Id(e) =>
        EidTextPlain(e);
        QuotedString(EidText(e));
      case Str(s) => QuotedString(s);
      case _ =>
    }
    PairMember(Name(d, ie), Printed(d, ie));
    if Decoy(d, ie) != [] {
      QuotedString(d.devstate(ie.payload.n));
      PairMember(STATESTR, Quote(d.devstate(ie.payload.n)));
    }
  }

  lemma {:induction false} AllMembers(d: Dict, ies: seq<IE>, k: nat)
    requires ValidDict(d) && WellFormed(d, ies) && k <= |ies| && PlainTexts(d, ies)
    ensures forall j :: 0 <= j < |Entries(d, ies, k)| ==> IsMember(Entries(d, ies, k)[j])
  {
    if k > 0 {
      AllMembers(d, ies, k - 1);
      EntryMembers(d, ies, k - 1);
    }
  }

  /** Every untruncated message whose texts need no escapes is a JSON object. */
  lemma EncodeIsJson(d: Dict, ies: seq<IE>, cap: nat)
    requires ValidDict(d) && WellFormed(d, ies) && ies != [] && cap >= 2 && Fits(d, ies, cap) && PlainTexts(d, ies)
    ensures IsObject(Encode(d, ies, cap))
  {
    EncodeShape(d, ies, cap);
    AllMembers(d, ies, |ies|);
    assert ObjectParts(Encode(d, ies, cap), Entries(d, ies, |ies|));
  }

  lemma {:induction false} CharsUnescaped(s: string)
    requires IsChars(s) && Free(s, '\\')
    ensures AllUnescaped(s)
  {
    if s != "" {
      assert s[0] != '\\';
      CharsUnescaped(s[1..]);
    }
  }

  /** The grammar tells texts apart: without a backslash, a quoted text is a string exactly if it
      needs no escape. */
  lemma QuotedIff(s: string)
    requires Free(s, '\\')
    ensures IsString(Quote(s)) <==> forall i :: 0 <= i < |s| ==> s[i] != '"' && (s[i] as int) >= 32
  {
    assert Quote(s)[1..|Quote(s)| - 1] == s;
    if IsString(Quote(s)) {
      CharsUnescaped(s);
    } else if forall i :: 0 <= i < |s| ==> s[i] != '"' && (s[i] as int) >= 32 {
      QuotedString(s);
    }
  }

  /** No leading zeros, no empty number. */
  lemma Leading(s: string)
    ensures IsInt(s) ==> s != "" && (s[0] == '0' ==> |s| == 1) && forall i :: 0 <= i < |s| ==> '0' <= s[i] <= '9'
  {
  }
}

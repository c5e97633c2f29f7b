/** The table of information elements (IEs): payload type and name by IE type, the search
    that maps a name back to its IE type, and the table the module is compiled with. */
module IeTable {
  import opened CText

  datatype PlType = UNKNOWN | EXISTS | UINT | STR | RAW | BITFLAGS

  datatype IeMap = IeMap(pltype: PlType, name: Option<string>)

  // IE types the code names explicitly
  const IE_EXISTS: nat := 6
  const IE_STATE: nat := 8
  const IE_EID: nat := 10
  const IE_CACHABLE: nat := 56

  predicate Matches(table: seq<IeMap>, i: nat, str: string)
    requires i < |table|
  {
    table[i].name.Some? && CaseEq(table[i].name.value, str)
  }

  /** The first IE type from `i` on whose name is `str`, ignoring case. */
  function LookupFrom(table: seq<IeMap>, i: nat, str: string): (r: Option<nat>)
    ensures r.Some? ==> i <= r.value < |table| && Matches(table, r.value, str)
    ensures r.Some? ==> forall j :: i <= j < r.value ==> !Matches(table, j, str)
    ensures r.None? ==> forall j :: i <= j < |table| ==> !Matches(table, j, str)
    decreases |table| - i
  {
    if i >= |table| then None
    else if Matches(table, i, str) then Some(i)
    else LookupFrom(table, i + 1, str)
  }

  /** IE type 0 is AST_EVENT_IE_END, so the search starts at 1. */
  function Lookup(table: seq<IeMap>, str: string): Option<nat> {
    LookupFrom(table, 1, str)
  }

  /** fixed_ast_event_str_to_ie_type: return code, and the IE type where the code is 0. */
  method StrToIeType(table: seq<IeMap>, str: string) returns (rc: int, ieType: nat)
    ensures rc == 0 || rc == -1
    ensures rc == 0 <==> Lookup(table, str).Some?
    ensures rc == 0 ==> Lookup(table, str) == Some(ieType)
  {
    var i := 1;
    while i < |table|
      invariant 1 <= i
      invariant LookupFrom(table, i, str) == Lookup(table, str)
    {
      if table[i].name.None? {
        i := i + 1;
        continue;
      }
      if !CaseEq(table[i].name.value, str) {
        i := i + 1;
        continue;
      }
      return 0, i;
    }
    return -1, 0;
  }

  ghost predicate DistinctNames(table: seq<IeMap>) {
    forall i, j :: 1 <= i < j < |table| && table[i].name.Some? && table[j].name.Some?
      ==> !CaseEq(table[i].name.value, table[j].name.value)
  }

  /** The search inverts naming exactly for tables without two names equal up to case. */
  lemma LookupInvertsNaming(table: seq<IeMap>)
    ensures DistinctNames(table) <==>
            forall i: nat, str: string :: 1 <= i < |table| && Matches(table, i, str) ==> Lookup(table, str) == Some(i)
  {
    if DistinctNames(table) {
      forall i: nat, str: string | 1 <= i < |table| && Matches(table, i, str)
        ensures Lookup(table, str) == Some(i)
      {
        var r := Lookup(table, str).value;
        assert r != i ==> CaseEq(table[r].name.value, table[i].name.value);
      }
    } else {
      var i, j :| 1 <= i < j < |table| && table[i].name.Some? && table[j].name.Some?
                  && CaseEq(table[i].name.value, table[j].name.value);
      assert Matches(table, i, table[j].name.value) && Matches(table, j, table[j].name.value);
    }
  }

  lemma LookupName(table: seq<IeMap>, i: nat)
    requires DistinctNames(table) && 1 <= i < |table| && table[i].name.Some?
    ensures Lookup(table, table[i].name.value) == Some(i)
  {
    LookupInvertsNaming(table);
    assert Matches(table, i, table[i].name.value);
  }

  // ---------------------------------------------------------------- what the codec needs of a table

  predicate IsAlnum(c: char) {
    'a' <= c <= 'z' || 'A' <= c <= 'Z' || IsDigit(c)
  }

  predicate PlainName(name: string) {
    name != "" && forall i :: 0 <= i < |name| ==> IsAlnum(name[i])
  }

  const STATESTR := "statestr"

  ghost predicate ValidEntry(table: seq<IeMap>, i: nat)
    requires i < |table|
  {
    table[i].name.Some? ==>
      && PlainName(table[i].name.value)
      && !CaseEq(table[i].name.value, STATESTR)
      && (table[i].pltype == RAW <==> i == IE_EID)
      && table[i].pltype != UNKNOWN && table[i].pltype != EXISTS
  }

  /** Names are alphanumeric, distinct and differ from the decoy key; the identifier is the only
      RAW element, and every element prints a value that can be read back. */
  ghost predicate ValidTable(table: seq<IeMap>) {
    && IE_CACHABLE < |table|
    && table[IE_EID].name.Some?
    && table[IE_CACHABLE].pltype == UINT
    && DistinctNames(table)
    && forall i {:trigger ValidEntry(table, i)} :: 1 <= i < |table| ==> ValidEntry(table, i)
  }

  lemma DecoyMisses(table: seq<IeMap>)
    requires ValidTable(table)
    ensures Lookup(table, STATESTR).None?
  {
    forall i | 1 <= i < |table|
      ensures !Matches(table, i, STATESTR)
    {
      assert ValidEntry(table, i);
    }
  }

  // ---------------------------------------------------------------- the compiled-in table

  const IE_TOTAL: nat := 61

  // ie_maps[1..60], by the group of events the elements belong to

  function MessageIe(i: nat): IeMap
    requires 1 <= i <= 10
  {
    if i == 1 then IeMap(UINT, Some("NewMessages"))
    else if i == 2 then IeMap(UINT, Some("OldMessages"))
    else if i == 3 then IeMap(STR, Some("Mailbox"))
    else if i == 4 then IeMap(UINT, Some("UniqueID"))
    else if i == 5 then IeMap(UINT, Some("EventType"))
    else if i == 6 then IeMap(UINT, Some("Exists"))
    else if i == 7 then IeMap(STR, Some("Device"))
    else if i == 8 then IeMap(UINT, Some("State"))
    else if i == 9 then IeMap(STR, Some("Context"))
    else IeMap(RAW, Some("EntityID"))
  }

  function CelIe(i: nat): IeMap
    requires 11 <= i <= 21
  {
    if i == 11 then IeMap(UINT, Some("CELEventType"))
    else if i == 12 then IeMap(UINT, Some("CELEventTime"))
    else if i == 13 then IeMap(UINT, Some("CELEventTimeUSec"))
    else if i == 14 then IeMap(UINT, Some("CELUserEventName"))
    else if i == 15 then IeMap(STR, Some("CELCIDName"))
    else if i == 16 then IeMap(STR, Some("CELCIDNum"))
    else if i == 17 then IeMap(STR, Some("CELExten"))
    else if i == 18 then IeMap(STR, Some("CELContext"))
    else if i == 19 then IeMap(STR, Some("CELChanName"))
    else if i == 20 then IeMap(STR, Some("CELAppName"))
    else IeMap(STR, Some("CELAppData"))
  }

  function CelPartyIe(i: nat): IeMap
    requires 22 <= i <= 32
  {
    if i == 22 then IeMap(STR, Some("CELAMAFlags"))
    else if i == 23 then IeMap(UINT, Some("CELAcctCode"))
    else if i == 24 then IeMap(STR, Some("CELUniqueID"))
    else if i == 25 then IeMap(STR, Some("CELUserField"))
    else if i == 26 then IeMap(STR, Some("CELCIDani"))
    else if i == 27 then IeMap(STR, Some("CELCIDrdnis"))
    else if i == 28 then IeMap(STR, Some("CELCIDdnid"))
    else if i == 29 then IeMap(STR, Some("CELPeer"))
    else if i == 30 then IeMap(STR, Some("CELLinkedID"))
    else if i == 31 then IeMap(STR, Some("CELPeerAcct"))
    else IeMap(STR, Some("CELExtra"))
  }

  function SecurityIe(i: nat): IeMap
    requires 33 <= i <= 38
  {
    if i == 33 then IeMap(STR, Some("SecurityEvent"))
    else if i == 34 then IeMap(UINT, Some("EventVersion"))
    else if i == 35 then IeMap(STR, Some("Service"))
    else if i == 36 then IeMap(STR, Some("Module"))
    else if i == 37 then IeMap(STR, Some("AccountID"))
    else IeMap(STR, Some("SessionID"))
  }

  function SecurityAddressIe(i: nat): IeMap
    requires 39 <= i <= 44
  {
    if i == 39 then IeMap(STR, Some("SessionTV"))
    else if i == 40 then IeMap(STR, Some("ACLName"))
    else if i == 41 then IeMap(STR, Some("LocalAddress"))
    else if i == 42 then IeMap(STR, Some("RemoteAddress"))
    else if i == 43 then IeMap(STR, Some("EventTV"))
    else IeMap(STR, Some("RequestType"))
  }

  function SecurityAuthIe(i: nat): IeMap
    requires 45 <= i <= 50
  {
    if i == 45 then IeMap(STR, Some("RequestParams"))
    else if i == 46 then IeMap(STR, Some("AuthMethod"))
    else if i == 47 then IeMap(STR, Some("Severity"))
    else if i == 48 then IeMap(STR, Some("ExpectedAddress"))
    else if i == 49 then IeMap(STR, Some("Challenge"))
    else IeMap(STR, Some("Response"))
  }

  function SecurityHashIe(i: nat): IeMap
    requires 51 <= i <= 55
  {
    if i == 51 then IeMap(STR, Some("ExpectedResponse"))
    else if i == 52 then IeMap(STR, Some("ReceivedChallenge"))
    else if i == 53 then IeMap(STR, Some("ReceivedHash"))
    else if i == 54 then IeMap(UINT, Some("UsingPassword"))
    else IeMap(STR, Some("AttemptedTransport"))
  }

  function PresenceIe(i: nat): IeMap
    requires 56 <= i <= 60
  {
    if i == 56 then IeMap(UINT, Some("Cachable"))
    else if i == 57 then IeMap(STR, Some("PresenceProvider"))
    else if i == 58 then IeMap(UINT, Some("PresenceState"))
    else if i == 59 then IeMap(STR, Some("PresenceSubtype"))
    else IeMap(STR, Some("PresenceMessage"))
  }

  function AsteriskIe(i: nat): IeMap
    requires i < IE_TOTAL
  {
    if i == 0 then IeMap(EXISTS, None)
    else if i <= 10 then MessageIe(i)
    else if i <= 21 then CelIe(i)
    else if i <= 32 then CelPartyIe(i)
    else if i <= 38 then SecurityIe(i)
    else if i <= 44 then SecurityAddressIe(i)
    else if i <= 50 then SecurityAuthIe(i)
    else if i <= 55 then SecurityHashIe(i)
    else PresenceIe(i)
  }

  /** A perfect hash of the table's names that looks at letters only through LowerChar. */
  function Rank(s: string): nat {
    if |s| == 5 then 8
    else if |s| == 6 then
      if LowerChar(s[0]) == 'e' then 6
      else if LowerChar(s[0]) == 'd' then 7
      else 36
    else if |s| == 7 then
      if LowerChar(s[5]) == 'o' then 3
      else if LowerChar(s[5]) == 'x' then 9
      else if LowerChar(s[5]) == 'e' then 29
      else if LowerChar(s[5]) == 'c' then 35
      else if LowerChar(s[5]) == 'm' then 40
      else 43
    else if |s| == 8 then
      if LowerChar(s[2]) == 'i' then 4
      else if LowerChar(s[2]) == 't' then 10
      else if LowerChar(s[2]) == 'l' then
        if LowerChar(s[6]) == 'e' then 17
        else 32
      else if LowerChar(s[2]) == 'v' then 47
      else if LowerChar(s[2]) == 's' then 50
      else 56
    else if |s| == 9 then
      if LowerChar(s[7]) == 'p' then 5
      else if LowerChar(s[7]) == 'u' then 16
      else if LowerChar(s[7]) == 'n' then 26
      else if LowerChar(s[7]) == 'i' then
        if LowerChar(s[0]) == 'a' then 37
        else 38
      else if LowerChar(s[7]) == 't' then 39
      else 49
    else if |s| == 10 then
      if LowerChar(s[8]) == 'm' then
        if LowerChar(s[3]) == 'c' then 15
        else 20
      else if LowerChar(s[8]) == 'x' then 18
      else if LowerChar(s[8]) == 't' then 21
      else if LowerChar(s[8]) == 'i' then 28
      else 46
    else if |s| == 11 then
      if LowerChar(s[7]) == 'a' then
        if LowerChar(s[0]) == 'n' then 1
        else if LowerChar(s[0]) == 'o' then 2
        else 31
      else if LowerChar(s[7]) == 'n' then 19
      else if LowerChar(s[7]) == 'l' then 22
      else if LowerChar(s[7]) == 'c' then 23
      else if LowerChar(s[7]) == 'u' then 24
      else if LowerChar(s[7]) == 'd' then 27
      else if LowerChar(s[7]) == 'e' then 30
      else 44
    else if |s| == 12 then
      if LowerChar(s[4]) == 'v' then
        if LowerChar(s[9]) == 'y' then 11
        else 12
      else if LowerChar(s[4]) == 's' then 25
      else if LowerChar(s[4]) == 't' then 34
      else if LowerChar(s[4]) == 'l' then 41
      else 53
    else if |s| == 13 then
      if LowerChar(s[2]) == 'c' then 33
      else if LowerChar(s[2]) == 'm' then 42
      else if LowerChar(s[2]) == 'q' then 45
      else if LowerChar(s[2]) == 'i' then 54
      else 58
    else if |s| == 15 then
      if LowerChar(s[8]) == 'a' then 48
      else if LowerChar(s[8]) == 's' then 59
      else 60
    else if |s| == 16 then
      if LowerChar(s[4]) == 'v' then 13
      else if LowerChar(s[4]) == 's' then 14
      else if LowerChar(s[4]) == 'c' then 51
      else 57
    else if |s| == 17 then 52
    else if |s| == 18 then 55
    else 0
  }

  function AsteriskTable(): seq<IeMap> {
    seq(IE_TOTAL, i requires 0 <= i < IE_TOTAL => AsteriskIe(i))
  }

  lemma RankIgnoresCase(a: string, b: string)
    requires CaseEq(a, b)
    ensures Rank(a) == Rank(b)
  {
  }

  predicate Ranked(e: IeMap, i: nat) {
    && e.name.Some? && Rank(e.name.value) == i
    && (e.pltype == RAW <==> i == IE_EID)
    && e.pltype != UNKNOWN && e.pltype != EXISTS
    && (i == IE_CACHABLE ==> e.pltype == UINT && e.name.value[0] == 'C')
  }

  predicate Plain(e: IeMap) {
    e.name.Some? && PlainName(e.name.value)
  }

  lemma MessageIeRanked(i: nat)
    requires 1 <= i <= 10
    ensures Ranked(MessageIe(i), i)
  {
  }

  lemma MessageIePlain(i: nat)
    requires 1 <= i <= 10
    ensures Plain(MessageIe(i))
  {
  }

  lemma CelIeRanked(i: nat)
    requires 11 <= i <= 21
    ensures Ranked(CelIe(i), i)
  {
  }

  lemma CelIePlain(i: nat)
    requires 11 <= i <= 21
    ensures Plain(CelIe(i))
  {
  }

  lemma CelPartyIeRanked(i: nat)
    requires 22 <= i <= 32
    ensures Ranked(CelPartyIe(i), i)
  {
  }

  lemma CelPartyIePlain(i: nat)
    requires 22 <= i <= 32
    ensures Plain(CelPartyIe(i))
  {
  }

  lemma SecurityIeRanked(i: nat)
    requires 33 <= i <= 38
    ensures Ranked(SecurityIe(i), i)
  {
  }

  lemma SecurityIePlain(i: nat)
    requires 33 <= i <= 38
    ensures Plain(SecurityIe(i))
  {
  }

  lemma SecurityAddressIeRanked(i: nat)
    requires 39 <= i <= 44
    ensures Ranked(SecurityAddressIe(i), i)
  {
  }

  lemma SecurityAddressIePlain(i: nat)
    requires 39 <= i <= 44
    ensures Plain(SecurityAddressIe(i))
  {
  }

  lemma SecurityAuthIeRanked(i: nat)
    requires 45 <= i <= 50
    ensures Ranked(SecurityAuthIe(i), i)
  {
  }

  lemma SecurityAuthIePlain(i: nat)
    requires 45 <= i <= 50
    ensures Plain(SecurityAuthIe(i))
  {
  }

  lemma SecurityHashIeRanked(i: nat)
    requires 51 <= i <= 55
    ensures Ranked(SecurityHashIe(i), i)
  {
  }

  lemma SecurityHashIePlain(i: nat)
    requires 51 <= i <= 55
    ensures Plain(SecurityHashIe(i))
  {
  }

  lemma PresenceIeRanked(i: nat)
    requires 56 <= i <= 60
    ensures Ranked(PresenceIe(i), i)
  {
  }

  lemma PresenceIePlain(i: nat)
    requires 56 <= i <= 60
    ensures Plain(PresenceIe(i))
  {
  }

  lemma AsteriskRanked(i: nat)
    requires 1 <= i < IE_TOTAL
    ensures Ranked(AsteriskIe(i), i)
    ensures Plain(AsteriskIe(i))
  {
    if i <= 10 {
      MessageIeRanked(i);
      MessageIePlain(i);
    } else if i <= 21 {
      CelIeRanked(i);
      CelIePlain(i);
    } else if i <= 32 {
      CelPartyIeRanked(i);
      CelPartyIePlain(i);
    } else if i <= 38 {
      SecurityIeRanked(i);
      SecurityIePlain(i);
    } else if i <= 44 {
      SecurityAddressIeRanked(i);
      SecurityAddressIePlain(i);
    } else if i <= 50 {
      SecurityAuthIeRanked(i);
      SecurityAuthIePlain(i);
    } else if i <= 55 {
      SecurityHashIeRanked(i);
      SecurityHashIePlain(i);
    } else {
      PresenceIeRanked(i);
      PresenceIePlain(i);
    }
  }

  /** "statestr" hashes to the rank of "Cachable" and differs from it in its first letter. */
  lemma DecoyDiffers(e: IeMap, i: nat)
    requires Ranked(e, i)
    ensures !CaseEq(e.name.value, STATESTR)
  {
    assert LowerChar(STATESTR[0]) == 's';
    if CaseEq(e.name.value, STATESTR) {
      RankIgnoresCase(e.name.value, STATESTR);
      assert false;
    }
  }

  /** The compiled-in table meets what the codec needs. */
  lemma AsteriskTableValid()
    ensures ValidTable(AsteriskTable())
  {
    var table := AsteriskTable();
    forall i, j | 1 <= i < j < |table|
      ensures !CaseEq(table[i].name.value, table[j].name.value)
    {
      AsteriskRanked(i);
      AsteriskRanked(j);
      if CaseEq(table[i].name.value, table[j].name.value) {
        RankIgnoresCase(table[i].name.value, table[j].name.value);
        assert false;
      }
    }
    forall i | 1 <= i < |table|
      ensures ValidEntry(table, i)
    {
      AsteriskRanked(i);
      DecoyDiffers(table[i], i);
    }
    AsteriskRanked(IE_EID);
    AsteriskRanked(IE_CACHABLE);
  }
}

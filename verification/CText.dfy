/** C strings as values, and the library functions the serializer calls on them:
    strcasecmp, strtok, strsep, the two-sided trim, printf's %u, atoi, and
    Asterisk's textual form of an entity identifier.

    A C string is a `string` without the character NUL. A call to which C gives no
    meaning (a null pointer followed, an index before the start of a buffer, an atoi
    result that is not an int) yields None. */
module CText {

  datatype Option<+T> = None | Some(value: T)

  const NUL: char := '\0'
  const INT_MAX := 0x7fff_ffff
  const UINT_LIMIT := 0x1_0000_0000

  // ---------------------------------------------------------------- letter case

  function LowerChar(c: char): char {
    if 'A' <= c <= 'Z' then (c as int + 32) as char else c
  }

  /** strcasecmp(a, b) == 0 */
  predicate CaseEq(a: string, b: string) {
    |a| == |b| && forall i :: 0 <= i < |a| ==> LowerChar(a[i]) == LowerChar(b[i])
  }

  // ---------------------------------------------------------------- scanning

  predicate Free(s: string, c: char) {
    forall i :: 0 <= i < |s| ==> s[i] != c
  }

  /** Index of the first `c` in `s`, or |s|. */
  function IndexOf(s: string, c: char): (k: nat)
    ensures k <= |s|
    ensures Free(s[..k], c)
    ensures k < |s| ==> s[k] == c
  {
    if s == "" || s[0] == c then 0 else 1 + IndexOf(s[1..], c)
  }

  lemma IndexOfUnique(s: string, c: char, k: nat)
    requires k <= |s|
    requires forall i :: 0 <= i < k ==> s[i] != c
    requires k < |s| ==> s[k] == c
    ensures IndexOf(s, c) == k
  {
    var head := s[..IndexOf(s, c)];
    assert forall i :: 0 <= i < |head| ==> s[i] == head[i];
  }

  /** The maximal runs without `d`: what repeated strtok calls return. */
  function Tokens(s: string, d: char): (ts: seq<string>)
    decreases |s|
  {
    if s == "" then []
    else if s[0] == d then Tokens(s[1..], d)
    else
      var k := IndexOf(s, d);
      [s[..k]] + Tokens(s[k..], d)
  }

  lemma {:induction false} TokensNonEmpty(s: string, d: char)
    ensures forall i :: 0 <= i < |Tokens(s, d)| ==> Tokens(s, d)[i] != "" && Free(Tokens(s, d)[i], d)
    decreases |s|
  {
    if s == "" {
    } else if s[0] == d {
      TokensNonEmpty(s[1..], d);
    } else {
      TokensNonEmpty(s[IndexOf(s, d)..], d);
    }
  }

  /** A separator cuts the token list. */
  lemma {:induction false} TokensAppend(a: string, d: char, b: string)
    ensures Tokens(a + [d] + b, d) == Tokens(a, d) + Tokens(b, d)
    decreases |a|
  {
    var s := a + [d] + b;
    if a == "" {
      assert s[1..] == b;
    } else if a[0] == d {
      assert s[1..] == a[1..] + [d] + b;
      TokensAppend(a[1..], d, b);
    } else {
      var k := IndexOf(a, d);
      assert forall i :: 0 <= i < k ==> a[i] == a[..k][i];
      IndexOfUnique(s, d, k);
      assert s[..k] == a[..k];
      assert s[k..] == a[k..] + [d] + b;
      TokensAppend(a[k..], d, b);
      assert Tokens(s, d) == [s[..k]] + Tokens(s[k..], d);
      assert Tokens(a, d) == [a[..k]] + Tokens(a[k..], d);
    }
  }

  lemma TokensSingle(s: string, d: char)
    requires s != "" && Free(s, d)
    ensures Tokens(s, d) == [s]
  {
    IndexOfUnique(s, d, |s|);
    assert s[|s|..] == "" && s[..|s|] == s;
  }

  /** The first token of a text that starts with something else than `d`. */
  lemma TokensHead(s: string, d: char)
    requires s != "" && s[0] != d
    ensures Tokens(s, d) != []
    ensures Tokens(s, d)[0] == s[..IndexOf(s, d)]
  {
  }

  /** strsep(&s, ":"): the key, and the value or null. */
  function Separate(s: string): (string, Option<string>) {
    var k := IndexOf(s, ':');
    if k < |s| then (s[..k], Some(s[k + 1..])) else (s, None)
  }

  lemma SeparateAt(key: string, value: string)
    requires Free(key, ':')
    ensures Separate(key + ":" + value) == (key, Some(value))
  {
    var s := key + ":" + value;
    IndexOfUnique(s, ':', |key|);
    assert s[..|key|] == key && s[|key| + 1..] == value;
  }

  // ---------------------------------------------------------------- trimming

  /** trim_char_bothends(s, c) for a character c; None where strlen(s) - 1 underflows. */
  function Trim(s: string, c: char): Option<string> {
    var t := if s != "" && s[0] == c then s[1..] else s;
    if t == "" then None
    else if t[|t| - 1] == c then Some(t[..|t| - 1])
    else Some(t)
  }

  /** trim_char_bothends(s, 0): one character off each end, whatever it is. */
  function Strip(s: string): Option<string> {
    if |s| < 2 then None else Some(s[1..|s| - 1])
  }

  function Quote(s: string): string {
    "\"" + s + "\""
  }

  /** Trimming undoes quoting whatever the text, quotes included; bare text is left alone. */
  lemma TrimQuote(s: string)
    ensures Trim(Quote(s), '"') == Some(s)
  {
    var t := Quote(s)[1..];
    assert t == s + "\"";
    assert t[..|t| - 1] == s;
  }

  lemma TrimBare(s: string)
    requires s != "" && s[0] != '"' && s[|s| - 1] != '"'
    ensures Trim(s, '"') == Some(s)
  {
  }

  lemma TrimNoLonger(s: string, c: char)
    ensures Trim(s, c).Some? ==> |Trim(s, c).value| <= |s|
    ensures Trim(s, c).Some? && s[0] == c ==> |Trim(s, c).value| < |s|
  {
  }

  // ---------------------------------------------------------------- numbers

  predicate IsDigit(c: char) {
    '0' <= c <= '9'
  }

  predicate AllDigits(s: string) {
    forall i :: 0 <= i < |s| ==> IsDigit(s[i])
  }

  function DigitChar(n: nat): (c: char)
    requires n < 10
    ensures IsDigit(c) && c as int - '0' as int == n
  {
    ('0' as int + n) as char
  }

  /** printf's %u */
  function Decimal(n: nat): (s: string)
    ensures s != "" && AllDigits(s)
    ensures s[0] == '0' ==> n == 0
    ensures n == 0 ==> s == "0"
  {
    if n < 10 then [DigitChar(n)] else Decimal(n / 10) + [DigitChar(n % 10)]
  }

  function ValueOf(s: string): nat
    requires AllDigits(s)
  {
    if s == "" then 0
    else
      var init := s[..|s| - 1];
      assert forall i :: 0 <= i < |init| ==> init[i] == s[i];
      ValueOf(init) * 10 + (s[|s| - 1] as int - '0' as int)
  }

  function DigitRun(s: string): (k: nat)
    ensures k <= |s| && AllDigits(s[..k])
    ensures k < |s| ==> !IsDigit(s[k])
  {
    if s == "" || !IsDigit(s[0]) then 0 else 1 + DigitRun(s[1..])
  }

  predicate IsSpace(c: char) {
    c == ' ' || '\t' <= c <= '\r'
  }

  function SkipSpaces(s: string): string {
    if s != "" && IsSpace(s[0]) then SkipSpaces(s[1..]) else s
  }

  /** atoi; None where the result is not representable, which C leaves undefined. */
  function Atoi(s: string): (r: Option<int>)
    ensures r.Some? ==> -INT_MAX - 1 <= r.value <= INT_MAX
  {
    var t := SkipSpaces(s);
    var signed := t != "" && (t[0] == '-' || t[0] == '+');
    var u := if signed then t[1..] else t;
    var v: int := ValueOf(u[..DigitRun(u)]);
    var x := if signed && t[0] == '-' then -v else v;
    if -INT_MAX - 1 <= x <= INT_MAX then Some(x) else None
  }

  lemma {:induction false} ValueOfDecimal(n: nat)
    ensures ValueOf(Decimal(n)) == n
  {
    if n >= 10 {
      ValueOfDecimal(n / 10);
      var s := Decimal(n);
      assert s[..|s| - 1] == Decimal(n / 10);
    }
  }

  /** atoi reads back what %u printed exactly for the values an int can hold. */
  lemma AtoiOfDecimal(n: nat)
    ensures Atoi(Decimal(n)) == if n <= INT_MAX then Some(n) else None
  {
    var s := Decimal(n);
    assert IsDigit(s[0]);
    assert SkipSpaces(s) == s;
    assert DigitRun(s) == |s|;
    assert s[..|s|] == s;
    ValueOfDecimal(n);
  }

  /** Conversion of an int to the 32-bit unsigned payload. */
  function ToUint(x: int): nat {
    x % UINT_LIMIT
  }

  // ---------------------------------------------------------------- entity identifiers

  type Byte = x: nat | x < 256

  datatype Eid = Eid(b0: Byte, b1: Byte, b2: Byte, b3: Byte, b4: Byte, b5: Byte)

  function HexChar(n: nat): char
    requires n < 16
  {
    if n < 10 then ('0' as int + n) as char else ('a' as int + n - 10) as char
  }

  function HexValue(c: char): (r: Option<nat>)
    ensures r.Some? ==> r.value < 16
  {
    if '0' <= c <= '9' then Some(c as int - '0' as int)
    else if 'a' <= c <= 'f' then Some(c as int - 'a' as int + 10)
    else if 'A' <= c <= 'F' then Some(c as int - 'A' as int + 10)
    else None
  }

  function HexByte(b: Byte): string {
    [HexChar(b / 16), HexChar(b % 16)]
  }

  function ParseByte(hi: char, lo: char): Option<Byte> {
    match (HexValue(hi), HexValue(lo))
    case (Some(h), Some(l)) => Some(16 * h + l)
    case _ => None
  }

  /** ast_eid_to_str */
  function EidText(e: Eid): (s: string)
    ensures |s| == 17
  {
    HexByte(e.b0) + ":" + HexByte(e.b1) + ":" + HexByte(e.b2) + ":"
    + HexByte(e.b3) + ":" + HexByte(e.b4) + ":" + HexByte(e.b5)
  }

  /** ast_str_to_eid: six two-digit groups; None where the identifier is left unset. */
  function ParseEid(s: string): Option<Eid> {
    if |s| < 17 || s[2] != ':' || s[5] != ':' || s[8] != ':' || s[11] != ':' || s[14] != ':' then None
    else
      match (ParseByte(s[0], s[1]), ParseByte(s[3], s[4]), ParseByte(s[6], s[7]),
             ParseByte(s[9], s[10]), ParseByte(s[12], s[13]), ParseByte(s[15], s[16]))
      case (Some(a), Some(b), Some(c), Some(d), Some(e), Some(f)) => Some(Eid(a, b, c, d, e, f))
      case _ => None
  }

  lemma ParseHexByte(b: Byte)
    ensures ParseByte(HexChar(b / 16), HexChar(b % 16)) == Some(b)
  {
    assert HexValue(HexChar(b / 16)) == Some(b / 16);
    assert HexValue(HexChar(b % 16)) == Some(b % 16);
  }

  lemma ParseEidText(e: Eid)
    ensures ParseEid(EidText(e)) == Some(e)
  {
    ParseHexByte(e.b0);
    ParseHexByte(e.b1);
    ParseHexByte(e.b2);
    ParseHexByte(e.b3);
    ParseHexByte(e.b4);
    ParseHexByte(e.b5);
  }

  lemma HexCharPlain(n: nat)
    requires n < 16
    ensures HexChar(n) != ',' && HexChar(n) != '"' && HexChar(n) != NUL && HexChar(n) != '\\' && HexChar(n) >= ' '
  {
  }

  /** The text of an identifier holds neither separators between entries nor quotes. */
  lemma EidTextPlain(e: Eid)
    ensures Free(EidText(e), ',') && Free(EidText(e), '"') && Free(EidText(e), NUL) && Free(EidText(e), '\\')
    ensures forall i :: 0 <= i < 17 ==> EidText(e)[i] >= ' '
  {
    forall n: nat | n < 16
      ensures HexChar(n) != ',' && HexChar(n) != '"' && HexChar(n) != NUL && HexChar(n) != '\\' && HexChar(n) >= ' '
    {
      HexCharPlain(n);
    }
    forall i | 0 <= i < 17
      ensures EidText(e)[i] == ':' || exists n: nat :: n < 16 && EidText(e)[i] == HexChar(n)
    {
    }
  }
}

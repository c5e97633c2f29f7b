/** Letter case, numbers and identifiers spelled out character by character, and what that makes of
    the compiled-in table. */
module Spelling {
  import opened CText
  import opened IeTable

  // ---------------------------------------------------------------- letter case

  /** The same character, or the two cases of one letter. */
  predicate SameLetter(a: char, b: char) {
    || a == b
    || ('A' <= a <= 'Z' && b as int == a as int + 32)
    || ('A' <= b <= 'Z' && a as int == b as int + 32)
  }

  predicate SameSpelling(a: string, b: string) {
    |a| == |b| && forall i :: 0 <= i < |a| ==> SameLetter(a[i], b[i])
  }

  /** strcasecmp calls equal exactly the strings that differ in the case of letters only. */
  lemma CaseEqIs(a: string, b: string)
    ensures CaseEq(a, b) <==> SameSpelling(a, b)
  {
    assert forall c: char, d: char :: SameLetter(c, d) <==> LowerChar(c) == LowerChar(d);
  }

  function Lower(s: string): (r: string)
    ensures |r| == |s|
  {
    seq(|s|, i requires 0 <= i < |s| => if 'A' <= s[i] <= 'Z' then (s[i] as int + 32) as char else s[i])
  }

  function Upper(s: string): (r: string)
    ensures |r| == |s|
  {
    seq(|s|, i requires 0 <= i < |s| => if 'a' <= s[i] <= 'z' then (s[i] as int - 32) as char else s[i])
  }

  /** The search of the compiled-in table finds an element by exactly the spellings of its name. */
  lemma LookupSpelled(i: nat, str: string)
    requires 1 <= i < |AsteriskTable()|
    ensures AsteriskTable()[i].name.Some?
    ensures Lookup(AsteriskTable(), str) == Some(i) <==> SameSpelling(AsteriskTable()[i].name.value, str)
  {
    AsteriskRanked(i);
    AsteriskTableValid();
    LookupInvertsNaming(AsteriskTable());
    CaseEqIs(AsteriskTable()[i].name.value, str);
    assert Matches(AsteriskTable(), i, str) <==> SameSpelling(AsteriskTable()[i].name.value, str);
  }

  /** Among them the names in lower and in upper case. */
  lemma LookupAnyCase(i: nat)
    requires 1 <= i < |AsteriskTable()| && AsteriskTable()[i].name.Some?
    ensures Lookup(AsteriskTable(), Lower(AsteriskTable()[i].name.value)) == Some(i)
    ensures Lookup(AsteriskTable(), Upper(AsteriskTable()[i].name.value)) == Some(i)
  {
    LookupSpelled(i, Lower(AsteriskTable()[i].name.value));
    LookupSpelled(i, Upper(AsteriskTable()[i].name.value));
  }

  // ---------------------------------------------------------------- the compiled-in table

  /** The elements the code names, and that "State" names one element only. */
  lemma NamedElements(i: nat)
    requires 1 <= i < |AsteriskTable()|
    ensures AsteriskTable()[i].name == Some("State") <==> i == IE_STATE
    ensures i == IE_EID ==> AsteriskTable()[i] == IeMap(RAW, Some("EntityID"))
    ensures i == IE_CACHABLE ==> AsteriskTable()[i] == IeMap(UINT, Some("Cachable"))
    ensures i == IE_EXISTS ==> AsteriskTable()[i] == IeMap(UINT, Some("Exists"))
  {
    AsteriskRanked(i);
    assert Rank("State") == 8;
    assert AsteriskTable()[8].name == Some("State");
  }

  predicate Counts(i: nat) {
    || i == 1 || i == 2 || i == 4 || i == 5 || i == 6 || i == 8 || i == 11 || i == 12 || i == 13 || i == 14
    || i == 23 || i == 34 || i == 54 || i == 56 || i == 58
  }

  /** Fifteen elements are numbers, the identifier is raw, and all others are strings. */
  lemma PayloadTypes(i: nat)
    requires 1 <= i < |AsteriskTable()|
    ensures AsteriskTable()[i].pltype == if Counts(i) then UINT else if i == 10 then RAW else STR
  {
  }

  // ---------------------------------------------------------------- numbers and identifiers

  /** The largest int is read back, and the number after it is not. */
  lemma IntBounds()
    ensures Atoi(Decimal(2147483647)) == Some(2147483647) && Atoi(Decimal(2147483648)) == None
    ensures UINT_LIMIT == 4294967296 && ToUint(-1) == 4294967295
  {
    AtoiOfDecimal(2147483647);
    AtoiOfDecimal(2147483648);
  }

  /** atoi skips spaces, reads a sign, and stops at the first other character. */
  lemma AtoiSign(digits: string, rest: string)
    requires digits != "" && AllDigits(digits) && (rest == "" || !IsDigit(rest[0])) && ValueOf(digits) <= 2147483647
    ensures Atoi(" -" + digits + rest) == Some(0 - ValueOf(digits))
    ensures Atoi(" +" + digits + rest) == Some(ValueOf(digits))
  {
    AtoiSigned('-', digits, rest);
    AtoiSigned('+', digits, rest);
  }

  lemma AtoiSigned(sign: char, digits: string, rest: string)
    requires digits != "" && AllDigits(digits) && (rest == "" || !IsDigit(rest[0])) && ValueOf(digits) <= 2147483647
    requires sign == '-' || sign == '+'
    ensures Atoi([' ', sign] + digits + rest) == Some(if sign == '-' then 0 - ValueOf(digits) else ValueOf(digits))
  {
    var s := [' ', sign] + digits + rest;
    var t := [sign] + digits + rest;
    assert s[1..] == t && SkipSpaces(t) == t && SkipSpaces(s) == t;
    assert t[1..] == digits + rest;
    RunOfDigits(digits, rest);
    assert (digits + rest)[..|digits|] == digits;
  }

  lemma {:induction false} RunOfDigits(digits: string, rest: string)
    requires AllDigits(digits) && (rest == "" || !IsDigit(rest[0]))
    ensures DigitRun(digits + rest) == |digits|
  {
    if digits == "" {
      assert digits + rest == rest;
    } else {
      RunOfDigits(digits[1..], rest);
      assert (digits + rest)[1..] == digits[1..] + rest;
    }
  }

  /** Identifiers are printed in lower case hexadecimal digits, two to a byte, and read in either
      case. */
  lemma EidSpelling()
    ensures EidText(Eid(0, 26, 43, 60, 77, 239)) == "00:1a:2b:3c:4d:ef"
    ensures ParseEid("00:1A:2B:3C:4D:EF") == Some(Eid(0, 26, 43, 60, 77, 239))
  {
  }
}

/** The string functions the serializer calls, on char buffers. */
module LibC {
  import opened CText

  /** A C string at an offset: its characters, then NUL. */
  predicate Holds(mem: seq<char>, off: nat, s: string) {
    && off + |s| < |mem|
    && mem[off + |s|] == NUL
    && forall i {:trigger s[i]} :: 0 <= i < |s| ==> s[i] == mem[off + i] && s[i] != NUL
  }

  lemma HoldsTail(mem: seq<char>, off: nat, s: string, k: nat)
    requires Holds(mem, off, s) && k <= |s|
    ensures Holds(mem, off + k, s[k..])
  {
  }

  lemma HoldsAt(mem: seq<char>, off: nat, s: string, i: nat)
    requires Holds(mem, off, s) && i <= |s|
    ensures mem[off + i] == if i < |s| then s[i] else NUL
    ensures i < |s| ==> s[i] != NUL
  {
  }

  /** Memory that agrees on a string's bytes holds the same string. */
  lemma HoldsFrame(before: seq<char>, after: seq<char>, off: nat, s: string)
    requires Holds(before, off, s) && |before| == |after|
    requires forall i :: off <= i <= off + |s| ==> after[i] == before[i]
    ensures Holds(after, off, s)
  {
  }

  /** Dropping the first byte and moving the rest, NUL included, one down. */
  lemma HoldsMoved(before: seq<char>, after: seq<char>, off: nat, s: string)
    requires Holds(before, off, s) && s != ""
    requires |after| == |before|
    requires forall i :: off <= i < off + |s| ==> after[i] == before[i + 1]
    ensures Holds(after, off, s[1..])
  {
  }

  /** Writing NUL into a string cuts it. */
  lemma HoldsCut(before: seq<char>, after: seq<char>, off: nat, s: string, k: nat)
    requires Holds(before, off, s) && k < |s| && after == before[off + k := NUL]
    ensures Holds(after, off, s[..k]) && Holds(after, off + k + 1, s[k + 1..])
  {
  }

  method Strlen(a: array<char>, off: nat, ghost s: string) returns (n: nat)
    requires Holds(a[..], off, s)
    ensures n == |s|
  {
    n := 0;
    HoldsAt(a[..], off, s, 0);
    while a[off + n] != NUL
      invariant n <= |s|
      invariant a[off + n] == if n < |s| then s[n] else NUL
      decreases |s| - n
    {
      n := n + 1;
      HoldsAt(a[..], off, s, n);
    }
    HoldsAt(a[..], off, s, n);
  }

  method Strdupa(s: string) returns (a: array<char>)
    ensures fresh(a) && a[..] == s + [NUL]
  {
    a := new char[|s| + 1](i => NUL);
    for i := 0 to |s|
      invariant a[..i] == s[..i]
      invariant a[|s|] == NUL
    {
      a[i] := s[i];
    }
    assert a[..] == a[..|s|] + [NUL];
  }

  /** snprintf(a + pos, n, text): at most n - 1 characters, then NUL. */
  method Snprintf(a: array<char>, pos: nat, n: nat, text: string)
    requires n >= 1 && pos + n <= a.Length
    modifies a
    ensures var k := if |text| < n then |text| else n - 1;
            forall i :: 0 <= i < a.Length ==>
              a[i] == if pos <= i < pos + k then text[i - pos] else if i == pos + k then NUL else old(a[i])
  {
    var k := if |text| < n then |text| else n - 1;
    for j := 0 to k
      invariant forall i :: 0 <= i < a.Length ==> a[i] == if pos <= i < pos + j then text[i - pos] else old(a[i])
    {
      a[pos + j] := text[j];
    }
    a[pos + k] := NUL;
  }

  /** memmove(a + off, a + off + 1, n) */
  method MoveDown(a: array<char>, off: nat, n: nat)
    requires off + n < a.Length
    modifies a
    ensures forall i :: 0 <= i < a.Length ==> a[i] == if off <= i < off + n then old(a[i + 1]) else old(a[i])
  {
    for j := 0 to n
      invariant forall i :: 0 <= i < a.Length ==> a[i] == if off <= i < off + j then old(a[i + 1]) else old(a[i])
    {
      a[off + j] := a[off + j + 1];
    }
  }

  /** trim_char_bothends as a function; the character NUL stands for any. */
  function TrimBoth(s: string, chr: char): Option<string> {
    if chr == NUL then Strip(s) else Trim(s, chr)
  }

  /** trim_char_bothends. `defined` is false where `strlen(inout) - 1` underflows and the code
      would read or write before the string. */
  method TrimCharBothEnds(a: array<char>, off: nat, chr: char, ghost s: string) returns (defined: bool)
    requires Holds(a[..], off, s)
    modifies a
    ensures defined <==> TrimBoth(s, chr).Some?
    ensures defined ==> Holds(a[..], off, TrimBoth(s, chr).value)
    ensures forall i :: 0 <= i < off || off + |s| <= i < a.Length ==> a[i] == old(a[i])
  {
    ghost var t := s;
    HoldsAt(a[..], off, s, 0);
    if chr == NUL || a[off] == chr {
      var n := Strlen(a, off, s);
      MoveDown(a, off, n);
      if s != "" {
        t := s[1..];
        HoldsMoved(old(a[..]), a[..], off, s);
      }
    }
    var m := Strlen(a, off, t);
    if m == 0 {
      return false;
    }
    HoldsAt(a[..], off, t, m - 1);
    if chr == NUL || a[off + m - 1] == chr {
      ghost var mem := a[..];
      a[off + m - 1] := NUL;
      HoldsCut(mem, a[..], off, t, m - 1);
    }
    return true;
  }

  /** strspn for one character: the first position past a run of `d`. */
  method Skip(a: array<char>, off: nat, d: char, ghost s: string) returns (start: nat, ghost rest: string)
    requires Holds(a[..], off, s) && d != NUL
    ensures Holds(a[..], start, rest) && |rest| <= |s| && (rest != "" ==> rest[0] != d)
    ensures Tokens(rest, d) == Tokens(s, d)
  {
    start, rest := off, s;
    HoldsAt(a[..], off, s, 0);
    while a[start] == d
      invariant Holds(a[..], start, rest) && |rest| <= |s|
      invariant a[start] == if rest == "" then NUL else rest[0]
      invariant Tokens(rest, d) == Tokens(s, d)
      decreases |rest|
    {
      HoldsTail(a[..], start, rest, 1);
      start, rest := start + 1, rest[1..];
      HoldsAt(a[..], start, rest, 0);
    }
  }

  /** strcspn for one character: how many characters come before the first `d`. */
  method Span(a: array<char>, off: nat, d: char, ghost s: string) returns (k: nat)
    requires Holds(a[..], off, s) && d != NUL
    ensures k == IndexOf(s, d)
  {
    k := 0;
    HoldsAt(a[..], off, s, 0);
    while a[off + k] != d && a[off + k] != NUL
      invariant k <= |s|
      invariant a[off + k] == if k < |s| then s[k] else NUL
      invariant forall i :: 0 <= i < k ==> s[i] != d
      decreases |s| - k
    {
      k := k + 1;
      HoldsAt(a[..], off, s, k);
    }
    HoldsAt(a[..], off, s, k);
    IndexOfUnique(s, d, k);
  }

  /** strtok(a + save, d): where the token starts, and the saved position for the next call. */
  method Strtok(a: array<char>, save: nat, d: char, ghost s: string)
    returns (found: bool, start: nat, next: nat, ghost tok: string, ghost rest: string)
    requires Holds(a[..], save, s) && d != NUL
    modifies a
    ensures !found ==> Tokens(s, d) == [] && Holds(a[..], next, "")
    ensures found ==> Tokens(s, d) == [tok] + Tokens(rest, d) && tok != ""
    ensures found ==> Holds(a[..], start, tok) && Holds(a[..], next, rest)
    ensures found ==> |rest| < |s|
  {
    ghost var t;
    start, t := Skip(a, save, d, s);
    HoldsAt(a[..], start, t, 0);
    if a[start] == NUL {
      return false, start, start, "", t;
    }
    var k := Span(a, start, d, t);
    HoldsAt(a[..], start, t, k);
    found, tok := true, t[..k];
    if a[start + k] == NUL {
      HoldsTail(a[..], start, t, k);
      next, rest := start + k, "";
    } else {
      ghost var mem := a[..];
      a[start + k] := NUL;
      HoldsCut(mem, a[..], start, t, k);
      next, rest := start + k + 1, t[k + 1..];
    }
    assert t[..|t|] == t;
  }

  /** strsep(&a, ":"): cuts at the first colon; where the value starts, or null. */
  method Strsep(a: array<char>, ghost s: string) returns (value: Option<nat>)
    requires Holds(a[..], 0, s)
    modifies a
    ensures Holds(a[..], 0, Separate(s).0)
    ensures value.None? <==> Separate(s).1.None?
    ensures value.Some? ==> value.value == |Separate(s).0| + 1 && Holds(a[..], value.value, Separate(s).1.value)
  {
    var k := Span(a, 0, ':', s);
    HoldsAt(a[..], 0, s, k);
    if a[k] == NUL {
      return None;
    }
    ghost var mem := a[..];
    a[k] := NUL;
    HoldsCut(mem, a[..], 0, s, k);
    return Some(k + 1);
  }
}

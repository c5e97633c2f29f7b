/** The fields of the configured server list, blanks and all. */
module ServerFields {
  import opened CText
  import opened EventCodec
  import opened Failover

  /** Only blanks, the characters up to the space. */
  predicate AllBlank(s: string) {
    forall i :: 0 <= i < |s| ==> (s[i] as int) < 33
  }

  /** A text with no blank at either end. */
  predicate Core(s: string) {
    s != "" && (s[0] as int) >= 33 && (s[|s| - 1] as int) >= 33
  }

  lemma {:induction false} SkipsBlanks(a: string, s: string)
    requires AllBlank(a) && (s == "" || (s[0] as int) >= 33)
    ensures SkipBlanks(a + s) == s
  {
    if a == "" {
      assert a + s == s;
    } else {
      SkipsBlanks(a[1..], s);
      assert (a + s)[1..] == a[1..] + s;
    }
  }

  lemma {:induction false} DropsBlanks(s: string, b: string)
    requires AllBlank(b) && (s == "" || (s[|s| - 1] as int) >= 33)
    ensures DropBlanks(s + b) == s
    decreases |b|
  {
    if b == "" {
      assert s + b == s;
    } else {
      DropsBlanks(s, b[..|b| - 1]);
      assert (s + b)[..|s + b| - 1] == s + b[..|b| - 1] && (s + b)[|s + b| - 1] == b[|b| - 1];
    }
  }

  lemma Trimmed(a: string, core: string, b: string)
    requires AllBlank(a) && AllBlank(b) && Core(core)
    ensures TrimBlanks(a + core + b) == core
  {
    assert a + core + b == a + (core + b);
    SkipsBlanks(a, core + b);
    DropsBlanks(core, b);
  }

  /** A field is tried as what is left of it without the blanks around it: as a socket if that
      starts with a slash, otherwise as the host and port that it splits into. */
  lemma FieldTarget(env: Env, a: string, core: string, b: string, port: int)
    requires AllBlank(a) && AllBlank(b) && Core(core)
    ensures TargetOf(env, a + core + b, port)
         == if core[0] == '/' then Some(Unix(core))
            else if env.split(core).0 == "" then None
            else Some(Tcp(env.split(core).0, if env.split(core).1.Some? then env.split(core).1.value else port))
    ensures OwnPort(env, a + core + b) == if core[0] == '/' then None else env.split(core).1
  {
    Trimmed(a, core, b);
  }

  /** A field of blanks only splits as the empty text. */
  lemma BlankField(env: Env, a: string, port: int)
    requires AllBlank(a) && env.split("") == ("", None)
    ensures TargetOf(env, a, port) == None && OwnPort(env, a) == None
  {
    SkipsBlanks(a, "");
    assert a + "" == a;
  }

  /** A field of blanks is not tried, and counts as a success if an earlier call left a connection. */
  lemma BlankCounts(env: Env, a: string, rest: seq<string>)
    requires AllBlank(a) && env.split("") == ("", None)
    ensures Call(env, [a] + rest, 0, Connected, []) == State(1, Connected, [], true)
    ensures Call(env, [a], 0, NoContext, []) == State(1, NoContext, [], false)
  {
    BlankField(env, a, DEFAULT_PORT);
    assert TakeTurn(env, a, 0, Turn(DEFAULT_PORT, Connected, [])) == Turn(DEFAULT_PORT, Connected, []);
    assert TakeTurn(env, a, 0, Turn(DEFAULT_PORT, NoContext, [])) == Turn(DEFAULT_PORT, NoContext, []);
    assert ([a] + rest)[0] == a;
    assert Scan(TurnsOf(env), [a], 1, Turn(DEFAULT_PORT, NoContext, [])) == State(1, NoContext, [], false);
  }

  /** A server that gives no port, first in its call, is tried on port 6379. */
  lemma FirstPort(env: Env, a: string, core: string, b: string)
    requires AllBlank(a) && AllBlank(b) && Core(core) && core[0] != '/'
    requires env.split(core) == (core, None)
    ensures Call(env, [a + core + b], 0, NoContext, []).attempts == [Attempt(0, Tcp(core, 6379))]
  {
    var fields := [a + core + b];
    FieldTarget(env, a, core, b, 6379);
    var u := TakeTurn(env, fields[0], 0, Turn(6379, NoContext, []));
    assert u.attempts == [] + [Attempt(0, Tcp(core, 6379))] == [Attempt(0, Tcp(core, 6379))];
    if u.conn != Connected {
      assert Scan(TurnsOf(env), fields, 1, u).attempts == u.attempts;
    }
  }

  // ---------------------------------------------------------------- the sample line

  const FIRST := "127.0.0.1:6379"
  const SECOND := "10.15.15.195:6379"
  const SOCKET := "/var/run/redis/redis.sock"

  /** The value of `servers` in the sample configuration. */
  const SAMPLE := FIRST + "," + (" " + SECOND) + "," + (" " + SOCKET)

  lemma SampleFields()
    ensures Tokens(SAMPLE, ',') == [FIRST, " " + SECOND, " " + SOCKET]
  {
    var es := [FIRST, " " + SECOND, " " + SOCKET];
    TokensOfJoin(es);
    JoinThree(es[0], es[1], es[2]);
  }

  lemma JoinThree(a: string, b: string, c: string)
    ensures Join([a, b, c]) == a + "," + b + "," + c
  {
    assert [a, b, c][..2] == [a, b] && [a, b][..1] == [a] && [a][..0] == [];
    assert Commas([a]) == a + ",";
    assert Commas([a, b]) == a + "," + b + ",";
  }

  lemma NextTurn(env: Env, field: string, i: nat, t: Turn, target: Target)
    requires TargetOf(env, field, t.port) == Some(target) && env.outcome(|t.attempts|) == Errored
    requires OwnPort(env, field) == None || OwnPort(env, field) == Some(t.port)
    ensures TakeTurn(env, field, i, t) == Turn(t.port, Errored, t.attempts + [Attempt(i, target)])
  {
  }

  lemma ScanNext(env: Env, fields: seq<string>, i: nat, t: Turn, u: Turn)
    requires i < |fields| && TakeTurn(env, fields[i], i, t) == u && u.conn != Connected
    ensures Scan(TurnsOf(env), fields, i, t) == Scan(TurnsOf(env), fields, i + 1, u)
  {
  }

  /** With nobody answering, the sample line is tried on two ports and then on the socket. */
  lemma SampleServers(env: Env)
    requires env.split(FIRST) == ("127.0.0.1", Some(6379)) && env.split(SECOND) == ("10.15.15.195", Some(6379))
    requires forall k :: env.outcome(k) == Errored
    ensures Call(env, Tokens(SAMPLE, ','), 0, NoContext, []).attempts
         == [Attempt(0, Tcp("127.0.0.1", 6379)), Attempt(1, Tcp("10.15.15.195", 6379)), Attempt(2, Unix(SOCKET))]
  {
    SampleFields();
    var fields := [FIRST, " " + SECOND, " " + SOCKET];
    FieldTarget(env, "", FIRST, "", 6379);
    FieldTarget(env, " ", SECOND, "", 6379);
    FieldTarget(env, " ", SOCKET, "", 6379);
    assert "" + FIRST + "" == FIRST && " " + SECOND + "" == " " + SECOND && " " + SOCKET + "" == " " + SOCKET;
    ThreeFail(env, fields, Tcp("127.0.0.1", 6379), Tcp("10.15.15.195", 6379), Unix(SOCKET));
  }

  lemma ThreeFail(env: Env, fields: seq<string>, a: Target, b: Target, c: Target)
    requires |fields| == 3 && forall k :: env.outcome(k) == Errored
    requires TargetOf(env, fields[0], 6379) == Some(a) && OwnPort(env, fields[0]) == Some(6379)
    requires TargetOf(env, fields[1], 6379) == Some(b) && OwnPort(env, fields[1]) == Some(6379)
    requires TargetOf(env, fields[2], 6379) == Some(c) && OwnPort(env, fields[2]) == None
    ensures Call(env, fields, 0, NoContext, []).attempts == [Attempt(0, a), Attempt(1, b), Attempt(2, c)]
  {
    var t0 := Turn(6379, NoContext, []);
    NextTurn(env, fields[0], 0, t0, a);
    var t1 := TakeTurn(env, fields[0], 0, t0);
    NextTurn(env, fields[1], 1, t1, b);
    var t2 := TakeTurn(env, fields[1], 1, t1);
    NextTurn(env, fields[2], 2, t2, c);
    var t3 := TakeTurn(env, fields[2], 2, t2);
    ScanNext(env, fields, 0, t0, t1);
    ScanNext(env, fields, 1, t1, t2);
    ScanNext(env, fields, 2, t2, t3);
    assert t3.attempts == [] + [Attempt(0, a)] + [Attempt(1, b)] + [Attempt(2, c)];
  }
}

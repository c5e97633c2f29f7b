/** Failover through the configured server list (redis_connect_nextserver): a static strtok_r
    position that survives between calls, so every call goes on where the last one stopped. */
module Failover {
  import opened CText
  import opened LibC

  /** State of the two Redis contexts, which are always created together. */
  datatype Conn = NoContext | Errored | Connected

  datatype Target = Unix(path: string) | Tcp(host: string, port: int)

  /** A connection attempt; the field it came from is history. */
  datatype Attempt = Attempt(field: nat, target: Target)

  /** What the code depends on: ast_sockaddr_split_hostport with the atoi of the port it finds, and
      the outcome of the k-th connection attempt. */
  datatype Env = Env(split: string -> (string, Option<int>), outcome: nat -> Conn)

  const DEFAULT_PORT: int := 6379

  predicate Blank(c: char) {
    (c as int) < 33
  }

  function SkipBlanks(s: string): string {
    if s != "" && Blank(s[0]) then SkipBlanks(s[1..]) else s
  }

  function DropBlanks(s: string): string {
    if s != "" && Blank(s[|s| - 1]) then DropBlanks(s[..|s| - 1]) else s
  }

  /** ast_trim_blanks(ast_skip_blanks(s)) */
  function TrimBlanks(s: string): string {
    DropBlanks(SkipBlanks(s))
  }

  /** The port given in a field; a socket path has none. */
  function OwnPort(env: Env, field: string): Option<int> {
    var server := TrimBlanks(field);
    if server != "" && server[0] == '/' then None else env.split(server).1
  }

  /** What a field connects to, `port` being the port variable when its turn comes. */
  function TargetOf(env: Env, field: string, port: int): Option<Target> {
    var server := TrimBlanks(field);
    if server != "" && server[0] == '/' then Some(Unix(server))
    else
      var (host, own) := env.split(server);
      if host == "" then None else Some(Tcp(host, if own.Some? then own.value else port))
  }

  datatype State = State(next: nat, conn: Conn, attempts: seq<Attempt>, success: bool)

  /** The loop's variables after the turn of field `i`. */
  datatype Turn = Turn(port: int, conn: Conn, attempts: seq<Attempt>)

  function TakeTurn(env: Env, field: string, i: nat, t: Turn): Turn {
    var own := OwnPort(env, field);
    var target := TargetOf(env, field, t.port);
    Turn(if own.Some? then own.value else t.port,
         if target.Some? then env.outcome(|t.attempts|) else t.conn,
         if target.Some? then t.attempts + [Attempt(i, target.value)] else t.attempts)
  }

  type Turns = (string, nat, Turn) -> Turn

  function TurnsOf(env: Env): Turns {
    (field: string, i: nat, t: Turn) => TakeTurn(env, field, i, t)
  }

  ghost predicate Agree(turns: Turns, env: Env) {
    forall field: string, i: nat, t: Turn {:trigger TakeTurn(env, field, i, t)} ::
      turns(field, i, t) == TakeTurn(env, field, i, t)
  }

  /** The loop from field `i` on. */
  function Scan(turns: Turns, fields: seq<string>, i: nat, t: Turn): (r: State)
    requires i <= |fields|
    ensures i <= r.next <= |fields|
    decreases |fields| - i
  {
    if i == |fields| then State(i, t.conn, t.attempts, false)
    else
      var u := turns(fields[i], i, t);
      if u.conn == Connected then State(i + 1, u.conn, u.attempts, true) else Scan(turns, fields, i + 1, u)
  }

  /** One call; the port variable is initialised once per call, not once per server. */
  function Call(env: Env, fields: seq<string>, i: nat, conn: Conn, attempts: seq<Attempt>): (r: State)
    requires i <= |fields|
    ensures i <= r.next <= |fields|
  {
    Scan(TurnsOf(env), fields, i, Turn(DEFAULT_PORT, conn, attempts))
  }

  // ---------------------------------------------------------------- over any sequence of calls

  /** Fields that lead to an attempt, from `i` up to `k`. */
  function Tried(env: Env, fields: seq<string>, i: nat, k: nat): seq<nat>
    requires i <= k <= |fields|
    decreases k - i
  {
    if i == k then []
    else (if TargetOf(env, fields[i], 0).Some? then [i] else []) + Tried(env, fields, i + 1, k)
  }

  function FieldsOf(attempts: seq<Attempt>): (r: seq<nat>)
    ensures |r| == |attempts|
    ensures forall k :: 0 <= k < |attempts| ==> r[k] == attempts[k].field
  {
    seq(|attempts|, k requires 0 <= k < |attempts| => attempts[k].field)
  }

  /** What one call does: it tries consecutive fields in order, stops at its first success, and ends
      without one only when no field is left. */
  ghost predicate Ordered(env: Env, fields: seq<string>, i: nat, t: Turn, r: State)
    requires i <= r.next <= |fields|
  {
    && t.attempts <= r.attempts
    && FieldsOf(r.attempts) == FieldsOf(t.attempts) + Tried(env, fields, i, r.next)
    && (forall k :: |t.attempts| <= k < |r.attempts| - 1 ==> env.outcome(k) != Connected)
    && (r.success ==> r.conn == Connected)
    && (!r.success ==> r.next == |fields|)
    && (!r.success && |t.attempts| < |r.attempts| ==> env.outcome(|r.attempts| - 1) != Connected)
  }

  lemma TurnFields(env: Env, field: string, i: nat, t: Turn)
    ensures var u := TakeTurn(env, field, i, t);
            && t.attempts <= u.attempts
            && FieldsOf(u.attempts) == FieldsOf(t.attempts) + (if TargetOf(env, field, 0).Some? then [i] else [])
            && (|u.attempts| > |t.attempts| ==> u.conn == env.outcome(|t.attempts|))
  {
  }

  lemma OrderedStep(env: Env, fields: seq<string>, i: nat, t: Turn, u: Turn, r: State)
    requires i < |fields| && i + 1 <= r.next <= |fields| && Ordered(env, fields, i + 1, u, r) && u.conn != Connected
    requires t.attempts <= u.attempts && |u.attempts| <= |t.attempts| + 1
    requires FieldsOf(u.attempts) == FieldsOf(t.attempts) + if TargetOf(env, fields[i], 0).Some? then [i] else []
    requires |u.attempts| > |t.attempts| ==> u.conn == env.outcome(|t.attempts|)
    ensures Ordered(env, fields, i, t, r)
  {
  }

  lemma {:induction false} ScanOrder(env: Env, fields: seq<string>, i: nat, t: Turn)
    requires i <= |fields|
    ensures Ordered(env, fields, i, t, Scan(TurnsOf(env), fields, i, t))
    decreases |fields| - i
  {
    if i < |fields| {
      var u := TakeTurn(env, fields[i], i, t);
      TurnFields(env, fields[i], i, t);
      if u.conn != Connected {
        ScanOrder(env, fields, i + 1, u);
        OrderedStep(env, fields, i, t, u, Scan(TurnsOf(env), fields, i + 1, u));
      }
    }
  }

  /** States after successive calls; the connection may change between them. */
  function Calls(env: Env, fields: seq<string>, conns: seq<Conn>): (r: State)
    ensures r.next <= |fields|
  {
    if conns == [] then State(0, NoContext, [], false)
    else
      var before := Calls(env, fields, conns[..|conns| - 1]);
      Call(env, fields, before.next, conns[|conns| - 1], before.attempts)
  }

  lemma {:induction false} TriedAppend(env: Env, fields: seq<string>, i: nat, j: nat, k: nat)
    requires i <= j <= k <= |fields|
    ensures Tried(env, fields, i, k) == Tried(env, fields, i, j) + Tried(env, fields, j, k)
    decreases j - i
  {
    if i < j {
      TriedAppend(env, fields, i + 1, j, k);
    }
  }

  lemma {:induction false} TriedIncreasing(env: Env, fields: seq<string>, i: nat, k: nat)
    requires i <= k <= |fields|
    ensures forall a, b :: 0 <= a < b < |Tried(env, fields, i, k)| ==>
        Tried(env, fields, i, k)[a] < Tried(env, fields, i, k)[b]
    ensures forall a :: 0 <= a < |Tried(env, fields, i, k)| ==> i <= Tried(env, fields, i, k)[a] < k
    decreases k - i
  {
    if i < k {
      TriedIncreasing(env, fields, i + 1, k);
    }
  }

  /** Failover order: over any sequence of calls and outcomes, the servers tried are those of a
      prefix of the fields, in order and none twice; once the last field has been passed, no call
      ever tries anything again. */
  lemma {:induction false} FailoverOrder(env: Env, fields: seq<string>, conns: seq<Conn>)
    ensures var r := Calls(env, fields, conns);
            && FieldsOf(r.attempts) == Tried(env, fields, 0, r.next)
            && (forall a, b :: 0 <= a < b < |r.attempts| ==> r.attempts[a].field < r.attempts[b].field)
    ensures conns != [] && Calls(env, fields, conns[..|conns| - 1]).next == |fields| ==>
              Calls(env, fields, conns).attempts == Calls(env, fields, conns[..|conns| - 1]).attempts
  {
    var r := Calls(env, fields, conns);
    if conns != [] {
      var before := Calls(env, fields, conns[..|conns| - 1]);
      FailoverOrder(env, fields, conns[..|conns| - 1]);
      ScanOrder(env, fields, before.next, Turn(DEFAULT_PORT, conns[|conns| - 1], before.attempts));
      TriedAppend(env, fields, 0, before.next, r.next);
    }
    TriedIncreasing(env, fields, 0, r.next);
    forall a, b | 0 <= a < b < |r.attempts|
      ensures r.attempts[a].field < r.attempts[b].field
    {
      assert FieldsOf(r.attempts)[a] < FieldsOf(r.attempts)[b];
    }
  }

  // ---------------------------------------------------------------- the port of a server

  /** The port variable when field `f` has its turn in a call that began at field `start`: the last
      port given since. */
  function PortAt(env: Env, fields: seq<string>, start: nat, f: nat): int
    requires start <= f <= |fields|
  {
    if f == start then DEFAULT_PORT
    else if OwnPort(env, fields[f - 1]).Some? then OwnPort(env, fields[f - 1]).value
    else PortAt(env, fields, start, f - 1)
  }

  predicate Ported(env: Env, fields: seq<string>, start: nat, i: nat, a: Attempt) {
    && start <= i <= a.field < |fields|
    && TargetOf(env, fields[a.field], PortAt(env, fields, start, a.field)) == Some(a.target)
  }

  lemma {:induction false} ScanPorts(env: Env, fields: seq<string>, start: nat, i: nat, t: Turn)
    requires start <= i <= |fields| && t.port == PortAt(env, fields, start, i)
    ensures forall a :: a in Scan(TurnsOf(env), fields, i, t).attempts ==>
        a in t.attempts || Ported(env, fields, start, i, a)
    decreases |fields| - i
  {
    if i < |fields| {
      var u := TakeTurn(env, fields[i], i, t);
      assert forall a :: a in u.attempts ==> a in t.attempts || Ported(env, fields, start, i, a);
      if u.conn != Connected {
        ScanPorts(env, fields, start, i + 1, u);
        assert forall a :: Ported(env, fields, start, i + 1, a) ==> Ported(env, fields, start, i, a);
      }
    }
  }

  /** A server without a port of its own is tried on the default port if and only if the last port
      given by an earlier field of the same call, if any, is the default one. */
  lemma PortCarriesOver(env: Env, fields: seq<string>, start: nat, conn: Conn, attempts: seq<Attempt>, a: Attempt)
    requires start <= |fields|
    requires a in Call(env, fields, start, conn, attempts).attempts && a !in attempts && a.target.Tcp?
    ensures start <= a.field < |fields|
    ensures OwnPort(env, fields[a.field]).None? ==>
              (a.target.port == DEFAULT_PORT <==> PortAt(env, fields, start, a.field) == DEFAULT_PORT)
    ensures OwnPort(env, fields[a.field]).Some? ==> a.target.port == OwnPort(env, fields[a.field]).value
  {
    ScanPorts(env, fields, start, start, Turn(DEFAULT_PORT, conn, attempts));
    assert Ported(env, fields, start, start, a);
  }

  /** The port of a failed server is used for the next one that gives none. */
  lemma PortLeaks(env: Env, a: string, b: string)
    requires env.split(TrimBlanks(a)) == ("a", Some(1000)) && env.split(TrimBlanks(b)) == ("b", None)
    requires TrimBlanks(a) != "" && TrimBlanks(a)[0] != '/' && TrimBlanks(b) != "" && TrimBlanks(b)[0] != '/'
    requires env.outcome(0) == Errored && env.outcome(1) == Connected
    ensures Call(env, [a, b], 0, NoContext, []).attempts == [Attempt(0, Tcp("a", 1000)), Attempt(1, Tcp("b", 1000))]
  {
    var fields := [a, b];
    var first := [Attempt(0, Tcp("a", 1000))];
    assert TargetOf(env, fields[0], DEFAULT_PORT) == Some(Tcp("a", 1000)) && OwnPort(env, fields[0]) == Some(1000);
    assert TargetOf(env, fields[1], 1000) == Some(Tcp("b", 1000));
    assert [] + first == first;
    assert TakeTurn(env, fields[0], 0, Turn(DEFAULT_PORT, NoContext, [])) == Turn(1000, Errored, first);
    assert TakeTurn(env, fields[1], 1, Turn(1000, Errored, first)).attempts == first + [Attempt(1, Tcp("b", 1000))];
    assert Call(env, fields, 0, NoContext, []) == Scan(TurnsOf(env), fields, 1, Turn(1000, Errored, first));
  }

  // ---------------------------------------------------------------- the static state

  class Connector {
    /** `servers`, with room for the comma that the first call appends. */
    const servers: array<char>
    /** The static `remaining`; null before the first call. */
    var remaining: Option<nat>
    var conn: Conn
    var attempts: seq<Attempt>
    /** How many fields have been handed out; history. */
    var next: nat
    /** The configured text, and its fields. */
    ghost const config: string
    ghost const fields: seq<string>

    /** The text at `remaining`. */
    ghost var rest: string

    ghost predicate Valid()
      reads this`remaining, this`next, this`rest, servers
    {
      && next <= |fields|
      && (remaining.None? ==> next == 0 && fields == Tokens(config, ',')
                              && Holds(servers[..], 0, config) && |config| + 2 <= servers.Length)
      && (remaining.Some? ==> Holds(servers[..], remaining.value, rest) && Tokens(rest, ',') == fields[next..])
    }

    constructor (text: string)
      requires Free(text, NUL)
      ensures Valid() && fields == Tokens(text, ',') && next == 0 && attempts == [] && conn == NoContext
    {
      servers := new char[|text| + 2](i => if 0 <= i < |text| then text[i] else NUL);
      remaining, rest, conn, attempts := None, "", NoContext, [];
      config, fields, next := text, Tokens(text, ','), 0;
    }

    /** strcat(servers, ",") */
    method AppendComma()
      requires Valid() && remaining.None?
      modifies servers
      ensures Holds(servers[..], 0, config + ",")
    {
      var n := Strlen(servers, 0, config);
      servers[n] := ',';
      servers[n + 1] := NUL;
    }

    /** strtok_r: the next field, or none. */
    method NextField() returns (field: Option<string>)
      requires Valid()
      modifies this`remaining, this`next, this`rest, servers
      ensures Valid()
      ensures field.Some? <==> old(next) < |fields|
      ensures field.Some? ==> field.value == fields[old(next)] && next == old(next) + 1
      ensures field.None? ==> next == old(next)
      ensures remaining.Some?
    {
      var start := 0;
      ghost var text := config;
      if remaining.None? {
        AppendComma();
        TokensAppend(config, ',', "");
        text := config + ",";
        assert text == config + [','] + "";
      } else {
        start, text := remaining.value, rest;
      }
      assert Tokens(text, ',') == fields[next..];
      var found, at, save, tok, left := Strtok(servers, start, ',', text);
      if found {
        var n := Strlen(servers, at, tok);
        field := Some(servers[at..at + n]);
        assert servers[at..at + n] == tok;
        remaining, rest, next := Some(save), left, next + 1;
      } else {
        field := None;
        remaining, rest := Some(save), "";
      }
    }

    /** One pass of the loop body on a field, up to the error check. */
    method TryServer(env: Env, index: nat, field: string, port: int) returns (newPort: int)
      modifies this`conn, this`attempts
      ensures Turn(newPort, conn, attempts) == TakeTurn(env, field, index, Turn(port, old(conn), old(attempts)))
    {
      newPort := port;
      var server := TrimBlanks(field);
      if server != "" && server[0] == '/' {
        conn, attempts := env.outcome(|attempts|), attempts + [Attempt(index, Unix(server))];
      } else {
        var (host, own) := env.split(server);
        if own.Some? {
          newPort := own.value;
        }
        if host != "" {
          conn, attempts := env.outcome(|attempts|), attempts + [Attempt(index, Tcp(host, newPort))];
        }
      }
    }

    /** The loop body: tries a field and, unless that succeeds, fetches the following one. */
    method TryField(env: Env, ghost turns: Turns, field: string, port: int)
      returns (newPort: int, success: bool, following: Option<string>)
      requires Valid() && next > 0 && Agree(turns, env)
      modifies this`remaining, this`next, this`rest, this`conn, this`attempts, servers
      ensures Valid()
      ensures Turn(newPort, conn, attempts) == turns(field, old(next) - 1, Turn(port, old(conn), old(attempts)))
      ensures success <==> conn == Connected
      ensures success ==> next == old(next)
      ensures !success && old(next) < |fields| ==> following == Some(fields[old(next)]) && next == old(next) + 1
      ensures !success && old(next) == |fields| ==> following == None && next == old(next)
    {
      newPort := TryServer(env, next - 1, field, port);
      if conn == Connected {
        return newPort, true, None;
      }
      following := NextField();
      success := false;
    }

    method TryFields(env: Env, ghost turns: Turns) returns (dumped: bool)
      requires Valid() && Agree(turns, env)
      modifies this`remaining, this`next, this`rest, this`conn, this`attempts, servers
      ensures Valid()
      ensures State(next, conn, attempts, dumped)
           == Scan(turns, fields, old(next), Turn(DEFAULT_PORT, old(conn), old(attempts)))
    {
      ghost var goal := Scan(turns, fields, next, Turn(DEFAULT_PORT, conn, attempts));
      ghost var i := next;
      var port := DEFAULT_PORT;
      var curserver := NextField();
      while curserver.Some?
        invariant Valid() && i <= |fields|
        invariant curserver.Some? ==> i < |fields| && next == i + 1 && curserver.value == fields[i]
        invariant curserver.None? ==> next == i == |fields|
        invariant goal == Scan(turns, fields, i, Turn(port, conn, attempts))
        decreases |fields| - i, curserver.Some?
      {
        port, dumped, curserver := TryField(env, turns, curserver.value, port);
        if dumped {
          return true;
        }
        i := i + 1;
      }
      return false;
    }

    /** redis_connect_nextserver; `left` tells whether it first unsubscribed on the context of an
        earlier call, `dumped` whether it went on to dump the event cache. */
    method ConnectNextServer(env: Env) returns (rc: int, left: bool, dumped: bool)
      requires Valid()
      modifies this`remaining, this`next, this`rest, this`conn, this`attempts, servers
      ensures Valid() && rc == -1 && left == (old(conn) != NoContext)
      ensures State(next, conn, attempts, dumped) == Call(env, fields, old(next), old(conn), old(attempts))
    {
      left := conn != NoContext;
      dumped := TryFields(env, TurnsOf(env));
      rc := -1;
    }
  }
}

/** The linked list of Redis servers, the round-robin pointer into it, and connecting. */
module ServerList {
  import opened CText
  import opened Shared
  import Subscriptions
  import opened Spelling

  datatype ConnectionType = NONE | SOCKET | URL

  // ---------------------------------------------------------------- the list as a value

  datatype Address = Url(url: string, port: int) | Socket(path: string)

  datatype Request = Request(url: Option<string>, port: int, socket: Option<string>)

  /** The arguments that name a server; without them the code follows a null pointer. */
  predicate ValidRequest(r: Request) {
    (r.port != 0 && r.url.Some? && r.url.value != "") || (r.socket.Some? && r.socket.value != "")
  }

  predicate IsServer(r: Request, a: Address) {
    match a
    case Socket(path) => r.socket.Some? && CaseEq(path, r.socket.value)
    case Url(url, port) => r.port != 0 && port == r.port && r.url.Some? && CaseEq(url, r.url.value)
  }

  predicate Known(list: seq<Address>, r: Request) {
    exists i :: 0 <= i < |list| && IsServer(r, list[i])
  }

  function Wanted(r: Request): Address
    requires ValidRequest(r)
  {
    if r.port != 0 && r.url.Some? && r.url.value != "" then Url(r.url.value, r.port) else Socket(r.socket.value)
  }

  function Add(list: seq<Address>, r: Request): seq<Address>
    requires ValidRequest(r)
  {
    if Known(list, r) then list else list + [Wanted(r)]
  }

  predicate SameServer(a: Address, b: Address) {
    match (a, b)
    case (Socket(p), Socket(q)) => CaseEq(p, q)
    case (Url(u, p), Url(v, q)) => p == q && CaseEq(u, v)
    case _ => false
  }

  predicate Proper(a: Address) {
    match a case Socket(path) => path != "" case Url(url, port) => url != "" && port != 0
  }

  ghost predicate NoDuplicates(list: seq<Address>) {
    && (forall i :: 0 <= i < |list| ==> Proper(list[i]))
    && (forall i, j :: 0 <= i < j < |list| ==> !SameServer(list[i], list[j]))
  }

  /** A request names a listed server exactly if their sockets are spelled alike, or their ports are
      the same number, not 0, and their urls are spelled alike. */
  lemma KnownIs(list: seq<Address>, r: Request)
    ensures Known(list, r)
            <==> exists i :: 0 <= i < |list| && SameAddress(r, list[i])
  {
    forall i | 0 <= i < |list|
      ensures IsServer(r, list[i]) <==> SameAddress(r, list[i])
    {
      if list[i].Socket? && r.socket.Some? {
        CaseEqIs(list[i].path, r.socket.value);
      } else if list[i].Url? && r.url.Some? {
        CaseEqIs(list[i].url, r.url.value);
      }
    }
  }

  predicate SameAddress(r: Request, a: Address) {
    || (a.Socket? && r.socket.Some? && SameSpelling(a.path, r.socket.value))
    || (a.Url? && a.port == r.port != 0 && r.url.Some? && SameSpelling(a.url, r.url.value))
  }

  /** One host on two ports is two servers; on one port, in any letter case, it is one. */
  lemma PortsTellApart(url: string, port: int, other: string, port': int)
    requires url != "" && port != 0 && port' != 0 && other != "" && SameSpelling(url, other)
    ensures Add([Url(url, port)], Request(Some(other), port', None))
         == if port == port' then [Url(url, port)] else [Url(url, port), Url(other, port')]
  {
    KnownIs([Url(url, port)], Request(Some(other), port', None));
    if port == port' {
      assert SameAddress(Request(Some(other), port', None), [Url(url, port)][0]);
    }
  }

  /** A new server with a url and a port is reached by these, even if a socket is given too. */
  lemma UrlFirst(list: seq<Address>, url: string, port: int, socket: Option<string>)
    requires url != "" && port != 0 && !Known(list, Request(Some(url), port, socket))
    ensures Add(list, Request(Some(url), port, socket)) == list + [Url(url, port)]
  {
  }

  /** No duplicates means that no listed server would be added again. */
  lemma ListedOnce(list: seq<Address>, i: nat, j: nat)
    requires NoDuplicates(list) && i < j < |list|
    ensures match list[i]
            case Socket(path) => !SameAddress(Request(None, 0, Some(path)), list[j])
            case Url(url, port) => !SameAddress(Request(Some(url), port, None), list[j])
  {
    match (list[i], list[j])
    case (Socket(p), Socket(q)) => CaseEqIs(p, q);
    case (Url(p, _), Url(q, _)) => CaseEqIs(p, q);
    case _ =>
  }

  lemma AddKeeps(list: seq<Address>, r: Request)
    requires ValidRequest(r) && NoDuplicates(list)
    ensures NoDuplicates(Add(list, r)) && list <= Add(list, r) && Known(Add(list, r), r)
  {
    if !Known(list, r) {
      assert IsServer(r, Add(list, r)[|list|]);
      forall i | 0 <= i < |list|
        ensures !SameServer(list[i], Wanted(r))
      {
        assert !IsServer(r, list[i]);
      }
    }
  }

  datatype Op = Append(r: Request) | Clear

  predicate ValidOp(op: Op) {
    op.Append? ==> ValidRequest(op.r)
  }

  function Apply(list: seq<Address>, op: Op): seq<Address>
    requires ValidOp(op)
  {
    match op case Append(r) => Add(list, r) case Clear => []
  }

  function ApplyAll(ops: seq<Op>): seq<Address>
    requires forall i :: 0 <= i < |ops| ==> ValidOp(ops[i])
  {
    if ops == [] then [] else Apply(ApplyAll(ops[..|ops| - 1]), ops[|ops| - 1])
  }

  /** Over any sequence of adds and clears: no duplicates, and every server requested since the
      last clear is in the list. */
  lemma {:induction false} ListInvariant(ops: seq<Op>)
    requires forall i :: 0 <= i < |ops| ==> ValidOp(ops[i])
    ensures NoDuplicates(ApplyAll(ops))
    ensures forall i :: 0 <= i < |ops| && ops[i].Append? && (forall j :: i < j < |ops| ==> ops[j].Append?) ==>
              Known(ApplyAll(ops), ops[i].r)
  {
    if ops != [] {
      var init, op := ops[..|ops| - 1], ops[|ops| - 1];
      ListInvariant(init);
      if op.Append? {
        var list := ApplyAll(init);
        AddKeeps(list, op.r);
        forall i | 0 <= i < |ops| && ops[i].Append? && (forall j :: i < j < |ops| ==> ops[j].Append?)
          ensures Known(ApplyAll(ops), ops[i].r)
        {
          if i < |init| {
            assert init[i] == ops[i] && forall j :: i < j < |init| ==> init[j] == ops[j];
            assert Known(list, init[i].r);
            var k :| 0 <= k < |list| && IsServer(ops[i].r, list[k]);
            assert IsServer(ops[i].r, Add(list, op.r)[k]);
          }
        }
      }
    }
  }

  // ---------------------------------------------------------------- round robin

  /** Position after one call: the next server, or the first one. */
  function NextPosition(cur: Option<nat>, n: nat): (r: nat)
    requires n > 0
    ensures r < n
  {
    if cur.Some? && cur.value + 1 < n then cur.value + 1 else 0
  }

  function Rotate(i: nat, n: nat, k: nat): nat
    requires n > 0
  {
    if k == 0 then i else NextPosition(Some(Rotate(i, n, k - 1)), n)
  }

  /** Rotate, from a position in the list. */
  function Turned(i: nat, n: nat, k: nat): (r: nat)
    requires i < n
    ensures r == Rotate(i, n, k) < n
  {
    if k == 0 then i else NextPosition(Some(Turned(i, n, k - 1)), n)
  }

  lemma MulBounds(d: int, n: nat)
    ensures d >= 1 ==> d * n >= n
    ensures d <= -1 ==> d * n <= 0 - n
  {
  }

  /** Quotient and remainder determine each other. */
  lemma ModOf(x: int, n: nat, q: int, r: nat)
    requires n > 0 && r < n && x == q * n + r
    ensures x % n == r
  {
    var d := x / n - q;
    assert x == x / n * n + x % n;
    assert d * n == r - x % n;
    MulBounds(d, n);
  }

  lemma {:induction false} RotateTurns(i: nat, n: nat, k: nat) returns (turns: nat)
    requires i < n
    ensures i + k == turns * n + Rotate(i, n, k) && Rotate(i, n, k) < n
  {
    if k == 0 {
      turns := 0;
    } else {
      turns := RotateTurns(i, n, k - 1);
      if Rotate(i, n, k) == 0 {
        turns := turns + 1;
      }
    }
  }

  /** k calls from position i lead to (i + k) mod n. */
  lemma RoundRobin(i: nat, n: nat, k: nat)
    requires i < n
    ensures Rotate(i, n, k) == (i + k) % n
  {
    var turns := RotateTurns(i, n, k);
    ModOf(i + k, n, turns, Rotate(i, n, k));
  }

  /** Any n consecutive calls visit every position exactly once. */
  lemma VisitsAll(i: nat, n: nat, target: nat)
    requires i < n && target < n
    ensures exists k :: 1 <= k <= n && Rotate(i, n, k) == target
    ensures forall k, l :: 1 <= k <= n && 1 <= l <= n && Rotate(i, n, k) == target == Rotate(i, n, l) ==> k == l
  {
    var k0 := if target > i then target - i else n - i + target;
    forall k | 1 <= k <= n
      ensures Rotate(i, n, k) == if i + k < n then i + k else i + k - n
    {
      RoundRobin(i, n, k);
      if i + k < n {
        ModOf(i + k, n, 0, i + k);
      } else {
        ModOf(i + k, n, 1, i + k - n);
      }
    }
    assert Rotate(i, n, k0) == target;
  }

  // ---------------------------------------------------------------- the linked list

  class Server {
    var url: Option<string>
    var port: int
    var socket: Option<string>
    var kind: ConnectionType
    var next: Server?

    /** A new node for a request. */
    constructor For(r: Request)
      requires ValidRequest(r)
      ensures Holds(Wanted(r)) && next == null
    {
      next := null;
      if r.port != 0 && r.url.Some? && r.url.value != "" {
        url, port, socket, kind := r.url, r.port, None, URL;
      } else {
        url, port, socket, kind := None, 0, r.socket, SOCKET;
      }
    }

    /** Frees what the node holds. */
    method Wipe()
      modifies this`socket, this`port, this`url, this`kind
      ensures kind == NONE && socket == None && url == None
    {
      if socket.Some? {
        socket := None;
      }
      if url.Some? {
        port := 0;
        url := None;
      }
      kind := NONE;
    }

    /** Exactly one of socket and url names the server. */
    ghost predicate Holds(a: Address)
      reads this
    {
      match a
      case Socket(path) => kind == SOCKET && socket == Some(path) && url == None && port == 0
      case Url(u, p) => kind == URL && url == Some(u) && port == p && socket == None
    }
  }

  /** The subscription table once a current server, if any, has been left. */
  function AfterDisconnect(connected: bool, table: seq<Subscriptions.Entry>, errs: nat -> bool)
    : seq<Subscriptions.Entry>
  {
    if connected then Subscriptions.Toggled(table, false, errs) else table
  }

  /** Errors met by one call: after each unsubscription, after closing, after connecting, and after
      each subscription. */
  datatype Outcomes = Outcomes(off: nat -> bool, close: bool, connect: bool, on: nat -> bool)

  class Servers {
    var root: Server?
    var current: Server?
    /** The servers whose Redis contexts exist. */
    var open: set<Server>
    /** The nodes in order, and what they hold. */
    ghost var spine: seq<Server>
    ghost var list: seq<Address>

    ghost predicate Valid()
      reads this`root, this`spine, this`list, spine
    {
      Linked() && NoDuplicates(list)
    }

    /** The nodes form an acyclic chain that holds the list. */
    ghost predicate Linked()
      reads this`root, this`spine, this`list, spine
    {
      && |list| == |spine|
      && root == (if spine == [] then null else spine[0])
      && (forall i, j :: 0 <= i < j < |spine| ==> spine[i] != spine[j])
      && (forall i :: 0 <= i < |spine| - 1 ==> spine[i].next == spine[i + 1])
      && (spine != [] ==> spine[|spine| - 1].next == null)
      && (forall i :: 0 <= i < |spine| ==> spine[i].Holds(list[i]))
    }

    /** The round-robin pointer is null or points into the list. */
    ghost predicate CurrentListed()
      reads this`current, this`spine
    {
      current == null || current in spine
    }

    ghost predicate At(i: nat)
      reads this`current, this`spine
    {
      i < |spine| && current == spine[i]
    }

    constructor ()
      ensures Valid() && list == [] && current == null && open == {}
    {
      root, current, open, spine, list := null, null, {}, [], [];
    }

    /** The duplicate check of msq_add_server: whether the server exists, else the last node. */
    method Find(r: Request) returns (found: bool, prev: Server?)
      requires Linked()
      ensures found <==> Known(list, r)
      ensures !found ==> prev == if spine == [] then null else spine[|spine| - 1]
    {
      var server := root;
      prev := server;
      ghost var i := 0;
      while server != null
        invariant 0 <= i <= |spine|
        invariant server == if i < |spine| then spine[i] else null
        invariant prev == if i > 0 then spine[i - 1] else root
        invariant forall j :: 0 <= j < i ==> !IsServer(r, list[j])
        decreases |spine| - i
      {
        assert server.Holds(list[i]);
        if (r.socket.Some? && server.socket.Some? && CaseEq(server.socket.value, r.socket.value)) ||
           ((r.port != 0 && server.port != 0 && server.port == r.port) &&
            (r.url.Some? && server.url.Some? && CaseEq(server.url.value, r.url.value)))
        {
          assert IsServer(r, list[i]);
          return true, prev;
        }
        prev := server;
        server := server.next;
        i := i + 1;
      }
      return false, prev;
    }

    /** Ties a node into the list. */
    method Link(node: Server, prev: Server?, ghost a: Address)
      requires Linked() && node.Holds(a) && node.next == null && node !in spine
      requires prev == if spine == [] then null else spine[|spine| - 1]
      modifies this`root, this`spine, this`list, if prev == null then {} else {prev}`next
      ensures Linked() && list == old(list) + [a] && spine == old(spine) + [node]
      ensures prev != null ==> prev.next == node
    {
      if root == null {
        root := node;
      } else {
        prev.next := node;
      }
      spine, list := spine + [node], list + [a];
    }

    /** msq_add_server */
    method AddServer(r: Request) returns (res: Exception)
      requires Valid() && ValidRequest(r)
      modifies this`root, this`spine, this`list, spine
      ensures Valid()
      ensures list == Add(old(list), r)
      ensures res == if Known(old(list), r) then AlreadyExists else NoException
      ensures res == AlreadyExists ==> spine == old(spine) && root == old(root)
      ensures old(spine) <= spine
      ensures old(CurrentListed()) ==> CurrentListed()
    {
      var found, prev := Find(r);
      if found {
        return AlreadyExists;
      }
      var node := new Server.For(r);
      Link(node, prev, Wanted(r));
      AddKeeps(old(list), r);
      return NoException;
    }

    /** msq_remove_all_servers: empties the list and wipes every node it frees, but leaves
        `current_server` as it was: a pointer to a freed node unless it was null. */
    method RemoveAllServers() returns (res: Exception)
      requires Linked() && CurrentListed()
      modifies this, spine
      ensures Valid() && list == []
      ensures res == if old(list) == [] then GeneralFailure else NoException
      ensures forall i :: 0 <= i < |old(spine)| ==> old(spine)[i].kind == NONE
      ensures current == old(current)
      ensures CurrentListed() <==> old(current) == null
    {
      res := GeneralFailure;
      ghost var nodes := spine;
      ghost var i := 0;
      while root != null
        invariant 0 <= i <= |nodes| && spine == nodes && current == old(current)
        invariant root == if i < |nodes| then nodes[i] else null
        invariant res == if i == 0 then GeneralFailure else NoException
        invariant forall j :: 0 <= j < i ==> nodes[j].kind == NONE
        invariant forall j :: 0 <= j < |nodes| - 1 ==> nodes[j].next == nodes[j + 1]
        invariant nodes != [] ==> nodes[|nodes| - 1].next == null
        decreases |nodes| - i
      {
        var next := root.next;
        root.Wipe();
        root := next;
        i := i + 1;
        res := NoException;
      }
      spine, list := [], [];
    }

    /** _msq_disconnect: unsubscribes, and closes the contexts only if that succeeded. `closeErr`
        is the state of a context after redisAsyncDisconnect. */
    method Disconnect(subs: Subscriptions.Table, errs: nat -> bool, closeErr: bool) returns (failed: bool)
      modifies this`open, subs`sent, subs.entries
      ensures old(subs.Valid()) ==> subs.Valid()
      ensures subs.entries[..] == Subscriptions.Toggled(old(subs.entries[..]), false, errs)
      ensures var off := Subscriptions.Completes(old(subs.entries[..]), false, errs);
              && failed == (!off || (current in old(open) && closeErr))
              && open == if !off || current == null then old(open) else old(open) - {current}
    {
      failed := subs.Toggle(false, errs);
      if !failed && current != null {
        if current in open {
          failed := closeErr;
        }
        open := open - {current};
      }
    }

    /** The round-robin step. */
    method Advance()
      requires Linked() && CurrentListed() && spine != []
      modifies this`current
      ensures CurrentListed() && current != null
      ensures old(current) == null ==> At(0)
      ensures forall i :: old(At(i)) ==> At(NextPosition(Some(i), |spine|))
    {
      var server := current;
      if server != null {
        ghost var i :| 0 <= i < |spine| && server == spine[i];
        assert i + 1 < |spine| ==> spine[i].next == spine[i + 1];
      }
      if server != null && server.next != null {
        current := current.next;
      } else {
        current := root;
      }
    }

    /** Leaves the current server, if there is one. */
    method Leave(subs: Subscriptions.Table, env: Outcomes)
      modifies this`open, subs`sent, subs.entries
      ensures subs.entries[..] == AfterDisconnect(current != null, old(subs.entries[..]), env.off)
      ensures open == if current != null && Subscriptions.Completes(old(subs.entries[..]), false, env.off)
                      then old(open) - {current} else old(open)
    {
      if current != null {
        var _ := Disconnect(subs, env.off, env.close);
      }
    }

    /** _msq_connect_to_next_server on a non-empty list: closes the current server, steps to the
        next one, opens it and subscribes. Errors while closing go unnoticed. */
    method ConnectToNextServer(subs: Subscriptions.Table, env: Outcomes) returns (failed: bool)
      requires Linked() && CurrentListed() && spine != []
      modifies this`current, this`open, subs`sent, subs.entries
      ensures Linked() && CurrentListed() && current != null
      ensures old(current) == null ==> At(0)
      ensures forall i :: old(At(i)) ==> At(NextPosition(Some(i), |spine|))
      ensures var left := AfterDisconnect(old(current) != null, old(subs.entries[..]), env.off);
              && subs.entries[..] == Subscriptions.Toggled(left, true, env.on)
              && failed == (env.connect || !Subscriptions.Completes(left, true, env.on))
      ensures open == {current}
                      + if old(current) != null && Subscriptions.Completes(old(subs.entries[..]), false, env.off)
                        then old(open) - {old(current)} else old(open)
    {
      Leave(subs, env);
      Advance();
      open := open + {current};
      failed := subs.Toggle(true, env.on);
      failed := failed || env.connect;
    }

    /** One call from a known position. */
    method ConnectFrom(subs: Subscriptions.Table, env: Outcomes, ghost i: nat) returns (server: Server)
      requires Linked() && At(i)
      modifies this`current, this`open, subs`sent, subs.entries
      ensures Linked() && At(NextPosition(Some(i), |spine|)) && server == spine[NextPosition(Some(i), |spine|)]
    {
      var _ := ConnectToNextServer(subs, env);
      server := current;
    }

    method ConnectInTurn(subs: Subscriptions.Table, env: nat -> Outcomes, calls: nat, ghost i: nat)
      returns (visited: seq<Server>)
      requires Linked() && At(i)
      modifies this`current, this`open, subs`sent, subs.entries
      ensures Linked() && |visited| == calls && At(Turned(i, |spine|, calls))
      ensures forall k :: 0 <= k < calls ==> visited[k] == spine[Turned(i, |spine|, k + 1)]
    {
      visited := [];
      while |visited| < calls
        invariant Linked() && |visited| <= calls && At(Turned(i, |spine|, |visited|))
        invariant forall k :: 0 <= k < |visited| ==> visited[k] == spine[Turned(i, |spine|, k + 1)]
        decreases calls - |visited|
      {
        var server := ConnectFrom(subs, env(|visited|), Turned(i, |spine|, |visited|));
        visited := visited + [server];
      }
    }

    /** Calls in a row, over a list that does not change: from position i, the k-th call arrives at
        (i + k) mod n; as many calls as there are servers visit each of them once. */
    method ConnectRepeatedly(subs: Subscriptions.Table, env: nat -> Outcomes, calls: nat, ghost i: nat)
      returns (visited: seq<Server>)
      requires Linked() && At(i)
      modifies this`current, this`open, subs`sent, subs.entries
      ensures Linked() && CurrentListed() && At((i + calls) % |spine|)
      ensures |visited| == calls && forall k :: 0 <= k < calls ==> visited[k] == spine[(i + k + 1) % |spine|]
      ensures calls == |spine| ==> forall s :: s in spine ==> s in visited
      ensures calls == |spine| ==> forall k, l :: 0 <= k < l < calls ==> visited[k] != visited[l]
    {
      visited := ConnectInTurn(subs, env, calls, i);
      RoundRobin(i, |spine|, calls);
      VisitedInTurn(spine, visited, i);
    }
  }

  /** Visits in rotation, by position; n of them are visits to every server, once each. */
  lemma VisitedInTurn(spine: seq<Server>, visited: seq<Server>, i: nat)
    requires i < |spine| && forall k, l :: 0 <= k < l < |spine| ==> spine[k] != spine[l]
    requires forall k :: 0 <= k < |visited| ==> visited[k] == spine[Turned(i, |spine|, k + 1)]
    ensures forall k :: 0 <= k < |visited| ==> visited[k] == spine[(i + k + 1) % |spine|]
    ensures |visited| == |spine| ==> forall s :: s in spine ==> s in visited
    ensures |visited| == |spine| ==> forall k, l :: 0 <= k < l < |visited| ==> visited[k] != visited[l]
  {
    forall k | 0 <= k < |visited|
      ensures visited[k] == spine[(i + k + 1) % |spine|]
    {
      RoundRobin(i, |spine|, k + 1);
    }
    if |visited| == |spine| {
      AllVisited(spine, visited, i);
    }
  }

  /** n visits in rotation are visits to every server, once each. */
  lemma AllVisited(spine: seq<Server>, visited: seq<Server>, i: nat)
    requires i < |spine| == |visited|
    requires forall k, l :: 0 <= k < l < |spine| ==> spine[k] != spine[l]
    requires forall k :: 0 <= k < |visited| ==> visited[k] == spine[Turned(i, |spine|, k + 1)]
    ensures forall s :: s in spine ==> s in visited
    ensures forall k, l :: 0 <= k < l < |visited| ==> visited[k] != visited[l]
  {
    var n := |spine|;
    forall s | s in spine
      ensures s in visited
    {
      var target :| 0 <= target < n && spine[target] == s;
      VisitsAll(i, n, target);
      var k :| 1 <= k <= n && Rotate(i, n, k) == target;
      assert visited[k - 1] == s;
    }
    forall k, l | 0 <= k < l < n
      ensures visited[k] != visited[l]
    {
      VisitsAll(i, n, Rotate(i, n, k + 1));
    }
  }
}

/** The connections of server.js and the ordered list `clients` of logged-in ones.
    Sockets are numbered in the order they connect. */
module Registry {
  import opened Protocol

  datatype Phase = Created | NoAuth | Authed | WaitKey | KeyTimeout

  /** The fields server.js keeps on a socket, and everything written to it so far. */
  datatype Sock = Sock(
    authenticated: bool, username: Option<string>, key: Option<string>,
    phase: Phase, destroyed: bool, out: seq<Reply>)

  datatype Net = Net(socks: seq<Sock>, clients: seq<nat>)

  const FRESH_SOCK := Sock(false, None, None, Created, false, [])

  /** How JavaScript prints a username or key field that may be `false`. */
  function Printed(field: Option<string>): string {
    if field.Some? then field.value else "false"
  }

  function NameOf(net: Net, i: nat): string {
    if i < |net.socks| then Printed(net.socks[i].username) else "false"
  }

  function NamesOf(net: Net, list: seq<nat>): (names: seq<string>)
    ensures |names| == |list|
    ensures forall k :: 0 <= k < |list| ==> names[k] == NameOf(net, list[k])
  {
    seq(|list|, k requires 0 <= k < |list| => NameOf(net, list[k]))
  }

  /** The usernames of the logged-in sessions, in list order. */
  function Names(net: Net): seq<string> {
    NamesOf(net, net.clients)
  }

  /** A socket that is in `clients` and can still be written to. */
  predicate Live(net: Net, i: nat) {
    i in net.clients && i < |net.socks| && !net.socks[i].destroyed
  }

  // ------------------------------------------------------------ elementary updates

  function Set(net: Net, i: nat, sock: Sock): Net {
    if i < |net.socks| then net.(socks := net.socks[i := sock]) else net
  }

  /** `socket.write`: nothing is sent on a destroyed socket. */
  function Write(net: Net, i: nat, reply: Reply): Net {
    if i < |net.socks| && !net.socks[i].destroyed
    then Set(net, i, net.socks[i].(out := net.socks[i].out + [reply]))
    else net
  }

  function Destroy(net: Net, i: nat): Net {
    if i < |net.socks| then Set(net, i, net.socks[i].(destroyed := true)) else net
  }

  function SetPhase(net: Net, i: nat, phase: Phase): Net {
    if i < |net.socks| then Set(net, i, net.socks[i].(phase := phase)) else net
  }

  /** The loop of `broadcast`: every listed socket but `from` is written to. */
  function WriteAll(net: Net, targets: seq<nat>, from: nat, reply: Reply): Net
    decreases |targets|
  {
    if targets == [] then net
    else WriteAll(if targets[0] == from then net else Write(net, targets[0], reply), targets[1..], from, reply)
  }

  function Broadcast(net: Net, from: nat, reply: Reply): Net {
    WriteAll(net, net.clients, from, reply)
  }

  /** The loop of `getSocketByUsername`: the first entry from position `k` on with this name. */
  function FindFrom(net: Net, k: nat, name: string): Option<nat>
    decreases |net.clients| - k
  {
    if k >= |net.clients| then None
    else if net.clients[k] < |net.socks| && net.socks[net.clients[k]].username == Some(name) then Some(net.clients[k])
    else FindFrom(net, k + 1, name)
  }

  function Find(net: Net, name: string): Option<nat> {
    FindFrom(net, 0, name)
  }

  /** `indexOf` and `splice`: the list without the first occurrence of `x`. */
  function Without(xs: seq<nat>, x: nat): seq<nat> {
    if xs == [] then [] else if xs[0] == x then xs[1..] else [xs[0]] + Without(xs[1..], x)
  }

  /** The counting loop of `sendUsers`. */
  function Tally(names: seq<string>): map<string, nat> {
    if names == [] then map[]
    else
      var counts := Tally(names[..|names| - 1]);
      var last := names[|names| - 1];
      counts[last := if last in counts then counts[last] + 1 else 1]
  }

  function Enter(net: Net, i: nat, key: string, name: string): Net {
    if i < |net.socks|
    then Net(net.socks[i := net.socks[i].(authenticated := true, username := Some(name), key := Some(key), phase := Authed)],
             net.clients + [i])
    else net
  }

  /** The writes of a successful login (server.js lines 130 to 141). */
  function Login(net: Net, i: nat, key: string, name: string, uptime: int): Net {
    var n0 := Enter(net, i, key, name);
    var n1 := Write(n0, i, UserIs(name));
    var n2 := Write(n1, i, Join(name));
    var n3 := Write(n2, i, StatusIs(uptime, |n2.clients|));
    Broadcast(n3, i, Join(name))
  }

  function Reset(net: Net, i: nat): Net {
    if i < |net.socks|
    then Set(net, i, net.socks[i].(authenticated := false, username := None, key := None))
    else net
  }

  /** The effect of `kill` on the connections. */
  function Drop(net: Net, i: nat, why: string): Net {
    var n0 := Destroy(net, i);
    var n1 := n0.(clients := Without(n0.clients, i));
    var n2 := if i < |net.socks| && net.socks[i].authenticated
              then Broadcast(n1, i, QuitNote(NameOf(net, i), why)) else n1;
    Reset(n2, i)
  }

  function SendUsers(net: Net, i: nat): Net {
    Write(net, i, UserList(Tally(Names(net))))
  }

  // ------------------------------------------------------------ the registry invariant

  predicate Distinct(xs: seq<nat>) {
    forall a, b :: 0 <= a < b < |xs| ==> xs[a] != xs[b]
  }

  /** A socket is in `clients` exactly when it is authenticated, and at most once;
      a session has a non-empty name and a key, any other socket has neither. */
  ghost predicate Registered(net: Net) {
    && Distinct(net.clients)
    && (forall k :: 0 <= k < |net.clients| ==> net.clients[k] < |net.socks|)
    && (forall i :: 0 <= i < |net.socks| ==> (net.socks[i].authenticated <==> i in net.clients))
    && (forall i :: 0 <= i < |net.socks| ==> SessionFields(net.socks[i]))
  }

  predicate SessionFields(sock: Sock) {
    if sock.authenticated
    then sock.username.Some? && sock.username.value != "" && sock.key.Some?
    else sock.username.None? && sock.key.None?
  }

  // ------------------------------------------------------------ how the connections may move

  /** Replies that say nothing about who is logged in. */
  predicate Bland(reply: Reply) {
    !reply.Join? && !reply.QuitNote? && !reply.UserList?
  }

  ghost predicate BlandGrowth(a: Sock, b: Sock) {
    a.out <= b.out && forall k :: |a.out| <= k < |b.out| ==> Bland(b.out[k])
  }

  predicate SameSession(a: Sock, b: Sock) {
    a.authenticated == b.authenticated && a.username == b.username && a.key == b.key && (a.destroyed ==> b.destroyed)
  }

  /** Nobody logs in or out and nobody is told about it. */
  ghost predicate Quiet(a: Net, b: Net) {
    && a.clients == b.clients
    && |a.socks| == |b.socks|
    && (forall i :: 0 <= i < |a.socks| ==> SameSession(a.socks[i], b.socks[i]) && BlandGrowth(a.socks[i], b.socks[i]))
  }

  /** A new connection, with nothing written to it yet. */
  predicate Opened(a: Net, b: Net) {
    b == a.(socks := a.socks + [FRESH_SOCK])
  }

  predicate Told(a: Sock, b: Sock, replies: seq<Reply>) {
    b.out == (if a.destroyed then a.out else a.out + replies) && b.destroyed == a.destroyed
  }

  predicate SameFields(a: Sock, b: Sock) {
    a.authenticated == b.authenticated && a.username == b.username && a.key == b.key && a.phase == b.phase
  }

  /** Socket `i` logs in as `name`: it and every other session are told, in that order, exactly once. */
  ghost predicate Arrived(a: Net, b: Net, i: nat, key: string, name: string, uptime: int) {
    && |a.socks| == |b.socks|
    && i < |a.socks|
    && b.clients == a.clients + [i]
    && b.socks[i].authenticated && b.socks[i].username == Some(name) && b.socks[i].key == Some(key)
    && Told(a.socks[i], b.socks[i], [UserIs(name), Join(name), StatusIs(uptime, |b.clients|)])
    && (forall j :: 0 <= j < |a.socks| && j != i ==>
         && SameFields(a.socks[j], b.socks[j])
         && Told(a.socks[j], b.socks[j], if j in a.clients then [Join(name)] else []))
  }

  /** Session `i` ends: it is told nothing, every remaining session is told exactly once. */
  ghost predicate Departed(a: Net, b: Net, i: nat, name: string, why: string) {
    && |a.socks| == |b.socks|
    && i < |a.socks|
    && b.clients == Without(a.clients, i)
    && b.socks[i].destroyed && b.socks[i].out == a.socks[i].out
    && !b.socks[i].authenticated && b.socks[i].username.None? && b.socks[i].key.None?
    && (forall j :: 0 <= j < |a.socks| && j != i ==>
         && SameFields(a.socks[j], b.socks[j])
         && Told(a.socks[j], b.socks[j], if j in a.clients then [QuitNote(name, why)] else []))
  }

  /** Session `i` is sent the current roster; nothing else changes. */
  ghost predicate Listed(a: Net, b: Net, i: nat) {
    && b == SendUsers(a, i)
    && i in a.clients
  }

  // ------------------------------------------------------------ lemmas

  /** `broadcast` reaches each listed socket but the sender exactly once, and no other socket. */
  lemma {:induction false} WriteAllReaches(net: Net, targets: seq<nat>, from: nat, reply: Reply)
    requires Distinct(targets)
    requires forall k :: 0 <= k < |targets| ==> targets[k] < |net.socks|
    ensures
      var after := WriteAll(net, targets, from, reply);
      && after.clients == net.clients && |after.socks| == |net.socks|
      && forall i :: 0 <= i < |net.socks| ==>
           && SameFields(net.socks[i], after.socks[i])
           && Told(net.socks[i], after.socks[i], if i in targets && i != from then [reply] else [])
    decreases |targets|
  {
    if targets == [] {
    } else {
      var next := if targets[0] == from then net else Write(net, targets[0], reply);
      DistinctTail(targets);
      WriteAllReaches(next, targets[1..], from, reply);
      forall i | 0 <= i < |net.socks|
        ensures SameFields(net.socks[i], WriteAll(net, targets, from, reply).socks[i])
        ensures Told(net.socks[i], WriteAll(net, targets, from, reply).socks[i], if i in targets && i != from then [reply] else [])
      {
        assert i in targets <==> i == targets[0] || i in targets[1..];
      }
    }
  }

  lemma DistinctTail(xs: seq<nat>)
    requires Distinct(xs) && xs != []
    ensures Distinct(xs[1..]) && xs[0] !in xs[1..]
    ensures forall x :: x in xs <==> x == xs[0] || x in xs[1..]
  {
    assert xs == [xs[0]] + xs[1..];
  }

  lemma {:induction false} WithoutMembers(xs: seq<nat>, x: nat)
    requires Distinct(xs)
    ensures forall y :: y in Without(xs, x) <==> y in xs && y != x
    ensures Distinct(Without(xs, x))
  {
    if xs == [] {
    } else {
      assert xs == [xs[0]] + xs[1..];
      WithoutMembers(xs[1..], x);
      assert xs[0] !in xs[1..];
      if xs[0] != x {
        var rest := Without(xs[1..], x);
        assert Without(xs, x) == [xs[0]] + rest;
        assert xs[0] !in rest;
      }
    }
  }

  /** `getSocketByUsername` answers with the first entry of that name, if there is one. */
  lemma {:induction false} FindFromFirst(net: Net, k: nat, name: string)
    ensures
      var r := FindFrom(net, k, name);
      if r.Some? then
        exists p :: k <= p < |net.clients| && Carries(net, p, name) && r.value == net.clients[p]
          && forall q :: k <= q < p ==> !Carries(net, q, name)
      else forall q :: k <= q < |net.clients| ==> !Carries(net, q, name)
    decreases |net.clients| - k
  {
    if k >= |net.clients| || Carries(net, k, name) {
    } else {
      FindFromFirst(net, k + 1, name);
    }
  }

  predicate Carries(net: Net, p: nat, name: string) {
    p < |net.clients| && net.clients[p] < |net.socks| && net.socks[net.clients[p]].username == Some(name)
  }

  lemma {:induction false} TallyCounts(names: seq<string>)
    ensures forall u :: u in Tally(names) <==> u in names
    ensures forall u :: u in names ==> Tally(names)[u] == multiset(names)[u]
  {
    if names == [] {
    } else {
      var front, last := names[..|names| - 1], names[|names| - 1];
      TallyCounts(front);
      assert names == front + [last];
      assert multiset(names) == multiset(front) + multiset{last};
      assert last in names;
      if last !in front { assert multiset(front)[last] == 0; }
    }
  }

  /** A user list is a faithful picture of the roster: two rosters have the same list
      exactly when they hold the same names equally often. */
  lemma TallyIsMultiset(a: seq<string>, b: seq<string>)
    ensures Tally(a) == Tally(b) <==> multiset(a) == multiset(b)
  {
    TallyCounts(a);
    TallyCounts(b);
    if Tally(a) == Tally(b) {
      forall u ensures multiset(a)[u] == multiset(b)[u] {
        if u in a { assert u in Tally(b); } else { assert u !in Tally(b); assert u !in b; }
      }
    }
    if multiset(a) == multiset(b) {
      forall u ensures u in a <==> u in b {
        assert u in multiset(a) <==> u in a;
        assert u in multiset(b) <==> u in b;
      }
      assert Tally(a) == Tally(b);
    }
  }

  /** The three writes to the newcomer. */
  function Welcomed(net: Net, i: nat, key: string, name: string, uptime: int): Net {
    var n0 := Enter(net, i, key, name);
    var n1 := Write(n0, i, UserIs(name));
    var n2 := Write(n1, i, Join(name));
    Write(n2, i, StatusIs(uptime, |n2.clients|))
  }

  lemma WelcomeTold(net: Net, i: nat, key: string, name: string, uptime: int)
    requires i < |net.socks|
    ensures
      var n := Welcomed(net, i, key, name, uptime);
      && n.clients == net.clients + [i] && |n.socks| == |net.socks|
      && n.socks[i].authenticated && n.socks[i].username == Some(name) && n.socks[i].key == Some(key)
      && Told(net.socks[i], n.socks[i], [UserIs(name), Join(name), StatusIs(uptime, |n.clients|)])
      && forall j :: 0 <= j < |net.socks| && j != i ==> n.socks[j] == net.socks[j]
  {
  }

  lemma LoginArrives(net: Net, i: nat, key: string, name: string, uptime: int)
    requires Registered(net) && i < |net.socks| && !net.socks[i].authenticated
    ensures Arrived(net, Login(net, i, key, name, uptime), i, key, name, uptime)
  {
    var n := Welcomed(net, i, key, name, uptime);
    WelcomeTold(net, i, key, name, uptime);
    assert Login(net, i, key, name, uptime) == WriteAll(n, n.clients, i, Join(name));
    WriteAllReaches(n, n.clients, i, Join(name));
    assert forall j :: 0 <= j < |net.socks| && j != i ==> (j in n.clients <==> j in net.clients);
  }

  lemma DropDeparts(net: Net, i: nat, why: string)
    requires Registered(net) && i < |net.socks| && net.socks[i].authenticated
    ensures Departed(net, Drop(net, i, why), i, NameOf(net, i), why)
  {
    WithoutMembers(net.clients, i);
    var n0 := Destroy(net, i);
    var n1 := n0.(clients := Without(n0.clients, i));
    forall k | 0 <= k < |n1.clients| ensures n1.clients[k] < |net.socks| {
      assert n1.clients[k] in net.clients;
    }
    WriteAllReaches(n1, n1.clients, i, QuitNote(NameOf(net, i), why));
  }

  lemma {:induction false} WithoutAbsent(xs: seq<nat>, x: nat)
    requires x !in xs
    ensures Without(xs, x) == xs
  {
    if xs == [] {
    } else {
      assert xs == [xs[0]] + xs[1..];
      WithoutAbsent(xs[1..], x);
    }
  }

  /** Killing a socket that is not logged in only destroys it. */
  lemma DropQuiet(net: Net, i: nat, why: string)
    requires Registered(net) && i < |net.socks| && !net.socks[i].authenticated
    ensures Quiet(net, Drop(net, i, why))
  {
    WithoutAbsent(net.clients, i);
  }

  lemma QuietTrans(a: Net, b: Net, c: Net)
    requires Quiet(a, b) && Quiet(b, c)
    ensures Quiet(a, c)
  {
    forall i | 0 <= i < |a.socks|
      ensures SameSession(a.socks[i], c.socks[i]) && BlandGrowth(a.socks[i], c.socks[i])
    {
      assert BlandGrowth(a.socks[i], b.socks[i]) && BlandGrowth(b.socks[i], c.socks[i]);
      forall k | |a.socks[i].out| <= k < |c.socks[i].out| ensures Bland(c.socks[i].out[k]) {
        if k < |b.socks[i].out| { assert c.socks[i].out[k] == b.socks[i].out[k]; }
      }
    }
  }

  lemma ArrivedRegistered(a: Net, b: Net, i: nat, key: string, name: string, uptime: int)
    requires Registered(a) && Arrived(a, b, i, key, name, uptime) && !a.socks[i].authenticated && name != ""
    ensures Registered(b)
  {
    assert i !in a.clients;
    assert forall j :: j in b.clients <==> j == i || j in a.clients;
  }

  lemma DepartedRegistered(a: Net, b: Net, i: nat, name: string, why: string)
    requires Registered(a) && Departed(a, b, i, name, why)
    ensures Registered(b)
  {
    WithoutMembers(a.clients, i);
    forall k | 0 <= k < |b.clients| ensures b.clients[k] < |b.socks| {
      assert b.clients[k] in a.clients;
    }
  }

  lemma QuietRegistered(a: Net, b: Net)
    requires Registered(a) && Quiet(a, b)
    ensures Registered(b)
  {
    forall i | 0 <= i < |b.socks| ensures (b.socks[i].authenticated <==> i in b.clients) && SessionFields(b.socks[i]) {
      assert SameSession(a.socks[i], b.socks[i]);
    }
  }

  lemma OpenedRegistered(a: Net, b: Net)
    requires Registered(a) && Opened(a, b)
    ensures Registered(b)
  {
  }

  lemma ListedRegistered(a: Net, b: Net, i: nat)
    requires Registered(a) && Listed(a, b, i)
    ensures Registered(b)
  {
  }
}

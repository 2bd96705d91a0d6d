/** The server and its clients, joined by one first-in first-out channel in each direction.
    Every connection follows client.js in what it does on receiving a message; beyond that it may
    send any lines at any time, or stop reading. */
module Convergence {
  import opened Protocol
  import opened Registry
  import opened Machine
  import opened Sessions
  import opened Tracking
  import opened ClientProgram

  /** How much of its output a connection has read, the lines it has sent that are not yet handled, and its view. */
  datatype Peer = Peer(read: nat, queue: seq<Line>, view: View)

  datatype World = World(server: State, peers: seq<Peer>)

  datatype Act =
    | Serve(event: Event)
    | Deliver(peer: nat, now: int)
    | Receive(peer: nat)
    | Say(peer: nat, line: Line)

  const FRESH_PEER := Peer(0, [], FRESH_VIEW)

  function Begin(table: map<string, string>): World {
    World(Start(table), [])
  }

  function Lines(requests: seq<Request>): seq<Line> {
    seq(|requests|, k requires 0 <= k < |requests| => Parsed(requests[k]))
  }

  function Next(env: Env, w: World, act: Act): World {
    match act
    case Serve(e) =>
      if e.Data? then w
      else World(Step(env, w.server, e), if e.Connect? then w.peers + [FRESH_PEER] else w.peers)
    case Deliver(c, now) =>
      if c < |w.peers| && w.peers[c].queue != [] then
        World(Step(env, w.server, Data(c, w.peers[c].queue[0], now)),
              w.peers[c := w.peers[c].(queue := w.peers[c].queue[1..])])
      else w
    case Receive(c) =>
      if c < |w.peers| && c < |w.server.net.socks| && w.peers[c].read < |w.server.net.socks[c].out| then
        var p := w.peers[c];
        var reply := w.server.net.socks[c].out[p.read];
        w.(peers := w.peers[c := Peer(p.read + 1, p.queue + Lines(Answer(reply)), Seen(p.view, reply))])
      else w
    case Say(c, line) =>
      if c < |w.peers| then w.(peers := w.peers[c := w.peers[c].(queue := w.peers[c].queue + [line])]) else w
  }

  function Unfold(env: Env, w: World, acts: seq<Act>): World
    decreases |acts|
  {
    if acts == [] then w else Unfold(env, Next(env, w, acts[0]), acts[1..])
  }

  predicate AnnouncedFrom(out: seq<Reply>, read: nat) {
    exists k :: read <= k < |out| && Announces(out[k])
  }

  /** A live session is on its way to the current roster: it has a notice to read, or its request
      is on the way, or the newest list it has been sent is the roster. */
  ghost predicate OnCourse(net: Net, c: nat, p: Peer)
    requires c < |net.socks|
  {
    var out := net.socks[c].out;
    && p.read <= |out|
    && (Live(net, c) ==>
         || AnnouncedFrom(out, p.read)
         || Parsed(Users) in p.queue
         || Newest(out[p.read..], p.view.users) == Some(Tally(Names(net))))
  }

  ghost predicate Converging(env: Env, table: map<string, string>, w: World) {
    && Tracks(env, table, w.server)
    && |w.peers| == |w.server.net.socks|
    && forall c :: 0 <= c < |w.peers| ==> OnCourse(w.server.net, c, w.peers[c])
  }

  // ------------------------------------------------------------ reading and writing

  lemma {:induction false} NewestExtends(x: seq<Reply>, y: seq<Reply>, shown: Option<map<string, nat>>)
    requires forall k :: 0 <= k < |y| ==> !y[k].UserList?
    ensures Newest(x + y, shown) == Newest(x, shown)
  {
    if y == [] {
      assert x + y == x;
    } else {
      assert (x + y)[..|x + y| - 1] == x + y[..|y| - 1];
      NewestExtends(x, y[..|y| - 1], shown);
    }
  }

  lemma ReadingKeepsCourse(net: Net, c: nat, p: Peer)
    requires c < |net.socks| && OnCourse(net, c, p) && p.read < |net.socks[c].out|
    ensures
      var reply := net.socks[c].out[p.read];
      OnCourse(net, c, Peer(p.read + 1, p.queue + Lines(Answer(reply)), Seen(p.view, reply)))
  {
    var out := net.socks[c].out;
    var reply := out[p.read];
    var q := Peer(p.read + 1, p.queue + Lines(Answer(reply)), Seen(p.view, reply));
    if Live(net, c) {
      if AnnouncedFrom(out, p.read) {
        var k :| p.read <= k < |out| && Announces(out[k]);
        if k == p.read {
          assert Lines(Answer(reply))[0] == Parsed(Users);
          assert q.queue[|p.queue|] == Parsed(Users);
        } else {
          assert AnnouncedFrom(out, q.read);
        }
      } else if Parsed(Users) in p.queue {
        assert Parsed(Users) in q.queue;
      } else {
        NewestAfterReading(out[p.read..], p.view);
        assert out[p.read..][1..] == out[q.read..];
      }
    }
  }

  /** The lines a peer has not had handled may lose their head, as long as it is not a list request of a live session. */
  predicate QueueKept(p: Peer, q: Peer) {
    && q.read == p.read && q.view == p.view
    && (q.queue == p.queue || (p.queue != [] && q.queue == p.queue[1..] && p.queue[0] != Parsed(Users)))
  }

  lemma UsersStillQueued(p: Peer, q: Peer)
    requires QueueKept(p, q) && Parsed(Users) in p.queue
    ensures Parsed(Users) in q.queue
  {
    if q.queue != p.queue {
      assert p.queue == [p.queue[0]] + p.queue[1..];
    }
  }

  lemma QuietCourse(a: Net, b: Net, c: nat, p: Peer, q: Peer)
    requires Registered(a) && Quiet(a, b) && c < |a.socks| && OnCourse(a, c, p)
    requires q.read == p.read && q.view == p.view && (Live(b, c) ==> QueueKept(p, q))
    ensures OnCourse(b, c, q)
  {
    var x, y := a.socks[c].out, b.socks[c].out;
    assert BlandGrowth(a.socks[c], b.socks[c]) && SameSession(a.socks[c], b.socks[c]);
    if Live(b, c) {
      assert Live(a, c);
      SameNames(a, b);
      if AnnouncedFrom(x, p.read) {
        var k :| p.read <= k < |x| && Announces(x[k]);
        assert y[k] == x[k];
      } else if Parsed(Users) in p.queue {
        UsersStillQueued(p, q);
      } else {
        assert y[p.read..] == x[p.read..] + y[|x|..];
        NewestExtends(x[p.read..], y[|x|..], p.view.users);
      }
    }
  }

  lemma SameNames(a: Net, b: Net)
    requires Registered(a) && Quiet(a, b)
    ensures Names(a) == Names(b)
  {
    forall k | 0 <= k < |a.clients| ensures NameOf(a, a.clients[k]) == NameOf(b, a.clients[k]) {
      assert SameSession(a.socks[a.clients[k]], b.socks[a.clients[k]]);
    }
  }

  lemma ArrivedCourse(a: Net, b: Net, i: nat, key: string, name: string, uptime: int, c: nat, p: Peer, q: Peer)
    requires Arrived(a, b, i, key, name, uptime) && name != ""
    requires c < |a.socks| && OnCourse(a, c, p) && q.read == p.read
    ensures OnCourse(b, c, q)
  {
    if Live(b, c) {
      var k := if c == i then |a.socks[c].out| + 1 else |a.socks[c].out|;
      assert c == i || c in a.clients;
      assert b.socks[c].out[k] == Join(name);
      assert AnnouncedFrom(b.socks[c].out, q.read);
    }
  }

  lemma DepartedCourse(a: Net, b: Net, i: nat, name: string, why: string, c: nat, p: Peer, q: Peer)
    requires Registered(a) && Departed(a, b, i, name, why) && name != "" && why != ""
    requires c < |a.socks| && OnCourse(a, c, p) && q.read == p.read
    ensures OnCourse(b, c, q)
  {
    if Live(b, c) {
      WithoutMembers(a.clients, i);
      assert c != i && c in a.clients;
      assert b.socks[c].out[|a.socks[c].out|] == QuitNote(name, why);
      assert AnnouncedFrom(b.socks[c].out, q.read);
    }
  }

  lemma ListedCourse(a: Net, b: Net, i: nat, c: nat, p: Peer, q: Peer)
    requires Registered(a) && Listed(a, b, i)
    requires c < |a.socks| && OnCourse(a, c, p) && q.read == p.read && q.view == p.view
    requires c != i ==> q == p
    ensures OnCourse(b, c, q)
  {
    assert forall k :: 0 <= k < |a.clients| ==> NameOf(a, a.clients[k]) == NameOf(b, a.clients[k]);
    assert Names(a) == Names(b);
    if Live(b, c) && c == i {
      var y := b.socks[c].out;
      assert y[|y| - 1] == UserList(Tally(Names(a)));
      assert y[q.read..][|y[q.read..]| - 1] == y[|y| - 1];
    }
  }

  lemma OpenedCourse(a: Net, b: Net, c: nat, p: Peer)
    requires Registered(a) && Opened(a, b) && c < |a.socks| && OnCourse(a, c, p)
    ensures OnCourse(b, c, p)
  {
    assert forall k :: 0 <= k < |a.clients| ==> NameOf(a, a.clients[k]) == NameOf(b, a.clients[k]);
    assert Names(a) == Names(b);
  }

  lemma StillKeepsQueue(s: State, e: Event, c: nat, p: Peer, q: Peer)
    requires Registered(s.net) && KindOf(s, e).Still? && c in s.net.clients
    requires q == p || (e.Data? && e.sock == c && p.queue != [] && e.line == p.queue[0] && q == p.(queue := p.queue[1..]))
    ensures QueueKept(p, q)
  {
  }

  /** One step of the server, with the peer's queue as it is after that step. */
  lemma ServerCourse(env: Env, table: map<string, string>, s: State, e: Event, c: nat, p: Peer, q: Peer)
    requires Tracks(env, table, s)
    requires c < |s.net.socks| && OnCourse(s.net, c, p)
    requires q == p || (e.Data? && e.sock == c && p.queue != [] && e.line == p.queue[0] && q == p.(queue := p.queue[1..]))
    ensures c < |Step(env, s, e).net.socks| && OnCourse(Step(env, s, e).net, c, q)
  {
    StepMoves(env, s, e);
    MovesCourse(env, s, e, Step(env, s, e), c, p, q);
  }

  lemma MovesCourse(env: Env, s: State, e: Event, t: State, c: nat, p: Peer, q: Peer)
    requires Registered(s.net) && Named(s) && Moves(env, s, e, t)
    requires c < |s.net.socks| && OnCourse(s.net, c, p)
    requires q == p || (e.Data? && e.sock == c && p.queue != [] && e.line == p.queue[0] && q == p.(queue := p.queue[1..]))
    ensures c < |t.net.socks| && OnCourse(t.net, c, q)
  {
    match KindOf(s, e)
    case Still =>
      if c in s.net.clients { StillKeepsQueue(s, e, c, p, q); }
      QuietCourse(s.net, t.net, c, p, q);
    case Opens => OpenedCourse(s.net, t.net, c, p);
    case Enters(i, key, name) => ArrivedCourse(s.net, t.net, i, key, name, Uptime(env, e.now), c, p, q);
    case Leaves(i, why) => DepartedCourse(s.net, t.net, i, NameOf(s.net, i), why, c, p, q);
    case Asks(i) => ListedCourse(s.net, t.net, i, c, p, q);
  }

  lemma FreshCourse(env: Env, table: map<string, string>, s: State)
    requires Tracks(env, table, s)
    ensures OnCourse(Step(env, s, Connect).net, |s.net.socks|, FRESH_PEER)
  {
    if |s.net.socks| in s.net.clients {
      assert false;
    }
  }

  // ------------------------------------------------------------ every run

  lemma ServeConverges(env: Env, table: map<string, string>, w: World, e: Event)
    requires Converging(env, table, w) && !e.Data?
    ensures Converging(env, table, Next(env, w, Serve(e)))
  {
    TracksStep(env, table, w.server, e);
    forall c | 0 <= c < |w.peers|
      ensures c < |Step(env, w.server, e).net.socks| && OnCourse(Step(env, w.server, e).net, c, w.peers[c])
    {
      ServerCourse(env, table, w.server, e, c, w.peers[c], w.peers[c]);
    }
    FreshCourse(env, table, w.server);
    SocketCount(env, w.server, e);
  }

  lemma DeliverConverges(env: Env, table: map<string, string>, w: World, d: nat, now: int)
    requires Converging(env, table, w) && d < |w.peers| && w.peers[d].queue != []
    ensures Converging(env, table, Next(env, w, Deliver(d, now)))
  {
    var e := Data(d, w.peers[d].queue[0], now);
    var v := Next(env, w, Deliver(d, now));
    TracksStep(env, table, w.server, e);
    SocketCount(env, w.server, e);
    forall c | 0 <= c < |w.peers| ensures c < |v.server.net.socks| && OnCourse(v.server.net, c, v.peers[c]) {
      ServerCourse(env, table, w.server, e, c, w.peers[c], v.peers[c]);
    }
  }

  lemma NextConverges(env: Env, table: map<string, string>, w: World, act: Act)
    requires Converging(env, table, w)
    ensures Converging(env, table, Next(env, w, act))
  {
    match act
    case Serve(e) =>
      if !e.Data? { ServeConverges(env, table, w, e); }
    case Deliver(d, now) =>
      if d < |w.peers| && w.peers[d].queue != [] { DeliverConverges(env, table, w, d, now); }
    case Receive(c) =>
      if c < |w.peers| && w.peers[c].read < |w.server.net.socks[c].out| {
        ReadingKeepsCourse(w.server.net, c, w.peers[c]);
      }
    case Say(c, line) =>
  }

  lemma SocketCount(env: Env, s: State, e: Event)
    requires Registered(s.net) && Named(s)
    ensures |Step(env, s, e).net.socks| == |s.net.socks| + if e.Connect? then 1 else 0
  {
    StepMoves(env, s, e);
  }

  lemma {:induction false} UnfoldConverges(env: Env, table: map<string, string>, w: World, acts: seq<Act>)
    requires Converging(env, table, w)
    ensures Converging(env, table, Unfold(env, w, acts))
    decreases |acts|
  {
    if acts == [] {
    } else {
      NextConverges(env, table, w, acts[0]);
      UnfoldConverges(env, table, Next(env, w, acts[0]), acts[1..]);
    }
  }

  /** Nothing is on its way to this connection or from it. */
  predicate AtRest(w: World, c: nat) {
    c < |w.peers| && c < |w.server.net.socks| && w.peers[c].read == |w.server.net.socks[c].out| && w.peers[c].queue == []
  }

  /** Convergence: in every run, a live session with nothing in flight shows the current roster:
      every name that is logged in, with the number of its sessions, and no other. */
  lemma RostersConverge(env: Env, table: map<string, string>, acts: seq<Act>, c: nat)
    ensures
      var w := Unfold(env, Begin(table), acts);
      AtRest(w, c) && Live(w.server.net, c) ==>
        && w.peers[c].view.users.Some?
        && (forall nick :: nick in w.peers[c].view.users.value <==> nick in Names(w.server.net))
        && forall nick :: nick in Names(w.server.net) ==>
             w.peers[c].view.users.value[nick] == multiset(Names(w.server.net))[nick]
  {
    UnfoldConverges(env, table, Begin(table), acts);
    var w := Unfold(env, Begin(table), acts);
    TallyCounts(Names(w.server.net));
  }

  // ------------------------------------------------------------ coming to rest

  /** A notice still to be read costs three acts: reading it, handling the request, reading the list. */
  function Load(reply: Reply): nat {
    if Announces(reply) then 3 else 1
  }

  function Unread(out: seq<Reply>): nat {
    if out == [] then 0 else Load(out[0]) + Unread(out[1..])
  }

  function Work(w: World, c: nat): nat
    requires c < |w.peers| && c < |w.server.net.socks| && w.peers[c].read <= |w.server.net.socks[c].out|
  {
    Unread(w.server.net.socks[c].out[w.peers[c].read..]) + 2 * |w.peers[c].queue|
  }

  /** The connection has nothing on its way to the server but requests for the user list. */
  predicate OnlyAsks(w: World, c: nat) {
    c < |w.peers| && forall k :: 0 <= k < |w.peers[c].queue| ==> w.peers[c].queue[k] == Parsed(Users)
  }

  /** The next message of connection `c`, one way or the other, is taken. */
  predicate Works(w: World, act: Act, c: nat) {
    && c < |w.peers| && c < |w.server.net.socks|
    && match act
       case Receive(d) => d == c && w.peers[c].read < |w.server.net.socks[c].out|
       case Deliver(d, _) => d == c && w.peers[c].queue != []
       case _ => false
  }

  /** The event that an act has the server handle. */
  function EventOf(w: World, act: Act): Option<Event> {
    match act
    case Serve(e) => if e.Data? then None else Some(e)
    case Deliver(d, now) =>
      if d < |w.peers| && w.peers[d].queue != [] then Some(Data(d, w.peers[d].queue[0], now)) else None
    case _ => None
  }

  /** An act of anybody else that logs nobody in or out and leaves session `c` able to receive. */
  predicate Aside(env: Env, w: World, act: Act, c: nat) {
    && (act.Deliver? || act.Receive? || act.Say? ==> act.peer != c)
    && (EventOf(w, act).Some? ==>
         var kind := KindOf(w.server, EventOf(w, act).value);
         kind.Still? || kind.Opens? || (kind.Asks? && kind.sock != c))
    && Live(Next(env, w, act).server.net, c)
  }

  predicate WorkOrAside(env: Env, w: World, acts: seq<Act>, c: nat)
    decreases |acts|
  {
    acts == [] || ((Works(w, acts[0], c) || Aside(env, w, acts[0], c)) && WorkOrAside(env, Next(env, w, acts[0]), acts[1..], c))
  }

  /** How many of these acts take a message of connection `c`. */
  function Taken(env: Env, w: World, acts: seq<Act>, c: nat): nat
    decreases |acts|
  {
    if acts == [] then 0
    else (if Works(w, acts[0], c) then 1 else 0) + Taken(env, Next(env, w, acts[0]), acts[1..], c)
  }

  /** How many messages have been written to connection `c`. */
  function WrittenTo(w: World, c: nat): nat {
    if c < |w.server.net.socks| then |w.server.net.socks[c].out| else 0
  }

  /** How many messages the other acts write to it meanwhile: chat, notices, replies of database callbacks. */
  function Arriving(env: Env, w: World, acts: seq<Act>, c: nat): int
    decreases |acts|
  {
    if acts == [] then 0
    else
      var next := Next(env, w, acts[0]);
      (if Works(w, acts[0], c) then 0 else WrittenTo(next, c) - WrittenTo(w, c)) + Arriving(env, next, acts[1..], c)
  }

  lemma {:induction false} UnreadBland(out: seq<Reply>, more: seq<Reply>)
    requires forall k :: 0 <= k < |more| ==> Bland(more[k])
    ensures Unread(out + more) == Unread(out) + |more|
  {
    if more == [] {
      assert out + more == out;
    } else {
      var n := |more| - 1;
      UnreadBland(out, more[..n]);
      assert out + more == (out + more[..n]) + [more[n]];
      UnreadSnoc(out + more[..n], more[n]);
    }
  }

  lemma {:induction false} UnreadSnoc(out: seq<Reply>, reply: Reply)
    ensures Unread(out + [reply]) == Unread(out) + Load(reply)
  {
    if out == [] {
      assert [reply][1..] == [];
    } else {
      assert (out + [reply])[1..] == out[1..] + [reply];
      UnreadSnoc(out[1..], reply);
    }
  }

  /** Each act that takes a message leaves one unit of work less, and the session and the roster as they are. */
  lemma WorkShrinks(env: Env, table: map<string, string>, w: World, act: Act, c: nat)
    requires Converging(env, table, w) && Works(w, act, c) && Live(w.server.net, c) && OnlyAsks(w, c)
    ensures
      var v := Next(env, w, act);
      && Converging(env, table, v) && Live(v.server.net, c) && OnlyAsks(v, c)
      && Names(v.server.net) == Names(w.server.net)
      && Work(v, c) == Work(w, c) - 1
  {
    NextConverges(env, table, w, act);
    if act.Receive? {
      var p, out := w.peers[c], w.server.net.socks[c].out;
      assert out[p.read..][1..] == out[p.read + 1..];
    } else {
      AnswerShrinks(env, w, act.now, c);
    }
  }

  /** What a step of one of these kinds writes to a session says nothing about who is logged in. */
  lemma AsideMoves(env: Env, s: State, e: Event, t: State, c: nat)
    requires Registered(s.net) && Moves(env, s, e, t) && c in s.net.clients
    requires var kind := KindOf(s, e); kind.Still? || kind.Opens? || (kind.Asks? && kind.sock != c)
    ensures c < |s.net.socks| <= |t.net.socks|
    ensures Names(t.net) == Names(s.net) && BlandGrowth(s.net.socks[c], t.net.socks[c])
  {
    if KindOf(s, e).Still? {
      SameNames(s.net, t.net);
    } else {
      assert Opened(s.net, t.net) || (KindOf(s, e).Asks? && Listed(s.net, t.net, KindOf(s, e).sock));
      assert forall k :: 0 <= k < |s.net.clients| ==> NameOf(t.net, s.net.clients[k]) == NameOf(s.net, s.net.clients[k]);
      assert Names(t.net) == Names(s.net);
    }
  }

  lemma BlandAdds(out: seq<Reply>, more: seq<Reply>, n: nat)
    requires n <= |out| && out <= more && forall k :: |out| <= k < |more| ==> Bland(more[k])
    ensures Unread(more[n..]) == Unread(out[n..]) + |more| - |out|
  {
    assert more[n..] == out[n..] + more[|out|..];
    UnreadBland(out[n..], more[|out|..]);
  }

  /** An act that is not the connection's own leaves its end of the channels alone. */
  lemma AsideKeepsPeer(env: Env, w: World, act: Act, c: nat)
    requires c < |w.peers| && Aside(env, w, act, c)
    ensures var v := Next(env, w, act); c < |v.peers| && v.peers[c] == w.peers[c]
    ensures Next(env, w, act).server == match EventOf(w, act) case Some(e) => Step(env, w.server, e) case None => w.server
  {
  }

  /** Any other such act adds to the work exactly what it writes to the connection. */
  lemma AsideAdds(env: Env, table: map<string, string>, w: World, act: Act, c: nat)
    requires Converging(env, table, w) && Live(w.server.net, c) && OnlyAsks(w, c)
    requires !Works(w, act, c) && Aside(env, w, act, c) && c < |w.peers|
    ensures
      var v := Next(env, w, act);
      && Converging(env, table, v) && Live(v.server.net, c) && OnlyAsks(v, c)
      && Names(v.server.net) == Names(w.server.net)
      && Work(v, c) == Work(w, c) + WrittenTo(v, c) - WrittenTo(w, c)
  {
    NextConverges(env, table, w, act);
    var v := Next(env, w, act);
    AsideKeepsPeer(env, w, act, c);
    assert OnCourse(w.server.net, c, w.peers[c]);
    if EventOf(w, act).Some? {
      var e := EventOf(w, act).value;
      StepMoves(env, w.server, e);
      AsideMoves(env, w.server, e, v.server, c);
      BlandAdds(w.server.net.socks[c].out, v.server.net.socks[c].out, w.peers[c].read);
    }
  }

  lemma AnswerShrinks(env: Env, w: World, now: int, c: nat)
    requires Registered(w.server.net) && |w.peers| == |w.server.net.socks|
    requires Works(w, Deliver(c, now), c) && Live(w.server.net, c) && OnlyAsks(w, c)
    requires w.peers[c].read <= |w.server.net.socks[c].out|
    ensures
      var v := Next(env, w, Deliver(c, now));
      && Live(v.server.net, c) && OnlyAsks(v, c)
      && Names(v.server.net) == Names(w.server.net)
      && v.peers[c].read <= |v.server.net.socks[c].out|
      && Work(v, c) == Work(w, c) - 1
  {
    var p, net := w.peers[c], w.server.net;
    var out := net.socks[c].out;
    var list := UserList(Tally(Names(net)));
    var after := SendUsers(net, c);
    assert p.queue[0] == Parsed(Users);
    assert Next(env, w, Deliver(c, now)).server.net == after;
    assert after.socks[c].out == out + [list];
    assert (out + [list])[p.read..] == out[p.read..] + [list];
    UnreadSnoc(out[p.read..], list);
    assert forall k :: 0 <= k < |net.clients| ==> NameOf(after, net.clients[k]) == NameOf(net, net.clients[k]);
    assert Names(after) == Names(net);
  }

  /** Progress: from any point on, with whatever else going on that logs nobody in or out, every message taken
      brings the connection nearer to rest and every message written to it that much away from it; as long as
      work is left some act can take it, and as soon as none is left the connection shows the roster. */
  lemma {:induction false} RostersSettle(env: Env, table: map<string, string>, w: World, acts: seq<Act>, c: nat)
    requires Converging(env, table, w) && c < |w.peers| && Live(w.server.net, c) && OnlyAsks(w, c)
    requires WorkOrAside(env, w, acts, c)
    ensures
      var v := Unfold(env, w, acts);
      var left := Work(w, c) + Arriving(env, w, acts, c) - Taken(env, w, acts, c);
      && left >= 0 && Names(v.server.net) == Names(w.server.net)
      && (left > 0 ==> exists act :: Works(v, act, c))
      && (left == 0 <==> AtRest(v, c))
      && (left == 0 ==> c < |v.peers| && v.peers[c].view.users == Some(Tally(Names(w.server.net))))
    decreases |acts|
  {
    if acts == [] {
      RestOrWork(env, table, w, c);
    } else {
      var next := Next(env, w, acts[0]);
      if Works(w, acts[0], c) {
        WorkShrinks(env, table, w, acts[0], c);
      } else {
        AsideAdds(env, table, w, acts[0], c);
      }
      RostersSettle(env, table, next, acts[1..], c);
    }
  }

  lemma RestOrWork(env: Env, table: map<string, string>, w: World, c: nat)
    requires Converging(env, table, w) && c < |w.peers| && Live(w.server.net, c)
    ensures Work(w, c) > 0 ==> exists act :: Works(w, act, c)
    ensures Work(w, c) == 0 <==> AtRest(w, c)
    ensures Work(w, c) == 0 ==> w.peers[c].view.users == Some(Tally(Names(w.server.net)))
  {
    var p, out := w.peers[c], w.server.net.socks[c].out;
    if p.queue != [] {
      assert Works(w, Deliver(c, 0), c);
    } else if p.read < |out| {
      assert Works(w, Receive(c), c);
    } else {
      assert out[p.read..] == [];
      assert OnCourse(w.server.net, c, p);
    }
  }

  // ------------------------------------------------------------ coming to rest together

  /** `cs` lists every live connection once, and none of them sends anything but requests for the list. */
  ghost predicate OnlyAsking(w: World, cs: seq<nat>) {
    && Distinct(cs)
    && (forall c :: c in cs ==> Live(w.server.net, c) && OnlyAsks(w, c))
    && (forall c :: Live(w.server.net, c) ==> c in cs)
  }

  /** A message of one of these connections is taken. */
  predicate TakesFrom(w: World, act: Act, cs: seq<nat>) {
    (act.Receive? || act.Deliver?) && act.peer in cs && Works(w, act, act.peer)
  }

  /** An act of anybody else that logs nobody in or out and leaves all these connections able to receive. */
  predicate Bystands(env: Env, w: World, act: Act, cs: seq<nat>) {
    && (act.Deliver? || act.Receive? || act.Say? ==> act.peer !in cs)
    && (EventOf(w, act).Some? ==>
         var kind := KindOf(w.server, EventOf(w, act).value);
         kind.Still? || kind.Opens? || (kind.Asks? && kind.sock !in cs))
    && forall c :: c in cs ==> Live(Next(env, w, act).server.net, c)
  }

  predicate TakingOrBystanding(env: Env, w: World, acts: seq<Act>, cs: seq<nat>)
    decreases |acts|
  {
    acts == [] ||
    ((TakesFrom(w, acts[0], cs) || Bystands(env, w, acts[0], cs)) &&
     TakingOrBystanding(env, Next(env, w, acts[0]), acts[1..], cs))
  }

  function TakenFrom(env: Env, w: World, acts: seq<Act>, cs: seq<nat>): nat
    decreases |acts|
  {
    if acts == [] then 0
    else (if TakesFrom(w, acts[0], cs) then 1 else 0) + TakenFrom(env, Next(env, w, acts[0]), acts[1..], cs)
  }

  /** How many more messages have been written to these connections in one world than in another. */
  function Growth(w: World, v: World, cs: seq<nat>): int {
    if cs == [] then 0 else WrittenTo(v, cs[0]) - WrittenTo(w, cs[0]) + Growth(w, v, cs[1..])
  }

  function ArrivingAt(env: Env, w: World, acts: seq<Act>, cs: seq<nat>): int
    decreases |acts|
  {
    if acts == [] then 0
    else
      var next := Next(env, w, acts[0]);
      (if TakesFrom(w, acts[0], cs) then 0 else Growth(w, next, cs)) + ArrivingAt(env, next, acts[1..], cs)
  }

  function WorkOf(w: World, c: nat): nat {
    if Placed(w, c) then Work(w, c) else 0
  }

  function TotalWork(w: World, cs: seq<nat>): nat {
    if cs == [] then 0 else WorkOf(w, cs[0]) + TotalWork(w, cs[1..])
  }

  lemma {:induction false} TotalStays(w: World, v: World, cs: seq<nat>)
    requires forall d :: d in cs ==> WorkOf(v, d) == WorkOf(w, d)
    ensures TotalWork(v, cs) == TotalWork(w, cs)
  {
    if cs == [] {
    } else {
      TotalStays(w, v, cs[1..]);
    }
  }

  lemma {:induction false} TotalShrinks(w: World, v: World, cs: seq<nat>, c: nat)
    requires Distinct(cs) && c in cs && WorkOf(v, c) == WorkOf(w, c) - 1
    requires forall d :: d in cs && d != c ==> WorkOf(v, d) == WorkOf(w, d)
    ensures TotalWork(v, cs) == TotalWork(w, cs) - 1
  {
    if cs[0] == c {
      TotalStays(w, v, cs[1..]);
    } else {
      TotalShrinks(w, v, cs[1..], c);
    }
  }

  lemma {:induction false} TotalGrows(w: World, v: World, cs: seq<nat>)
    requires forall d :: d in cs ==> WorkOf(v, d) == WorkOf(w, d) + WrittenTo(v, d) - WrittenTo(w, d)
    ensures TotalWork(v, cs) == TotalWork(w, cs) + Growth(w, v, cs)
  {
    if cs == [] {
    } else {
      TotalGrows(w, v, cs[1..]);
    }
  }

  /** What one connection takes is none of any other's business: nothing is written to that one. */
  lemma TakingIsAside(env: Env, w: World, act: Act, c: nat, d: nat)
    requires Registered(w.server.net) && Works(w, act, c) && Live(w.server.net, c) && OnlyAsks(w, c)
    requires d != c && Live(w.server.net, d)
    ensures Aside(env, w, act, d) && WrittenTo(Next(env, w, act), d) == WrittenTo(w, d)
  {
    if act.Deliver? {
      assert w.peers[c].queue[0] == Parsed(Users);
      assert Next(env, w, act).server.net == SendUsers(w.server.net, c);
    }
  }

  lemma TakingKeepsLive(env: Env, w: World, act: Act, c: nat)
    requires Registered(w.server.net) && Works(w, act, c) && Live(w.server.net, c) && OnlyAsks(w, c)
    ensures forall x: nat :: Live(Next(env, w, act).server.net, x) <==> Live(w.server.net, x)
  {
    if act.Deliver? {
      assert w.peers[c].queue[0] == Parsed(Users);
      assert Next(env, w, act).server.net == SendUsers(w.server.net, c);
    }
  }

  lemma TakerShrinks(env: Env, table: map<string, string>, w: World, act: Act, c: nat)
    requires Converging(env, table, w) && Works(w, act, c) && Live(w.server.net, c) && OnlyAsks(w, c)
    ensures
      var v := Next(env, w, act);
      Converging(env, table, v) && OnlyAsks(v, c) && Names(v.server.net) == Names(w.server.net) && WorkOf(v, c) == WorkOf(w, c) - 1
  {
    WorkShrinks(env, table, w, act, c);
    CourseKnown(env, table, w, c);
    CourseKnown(env, table, Next(env, w, act), c);
  }

  lemma TakingKeeps(env: Env, table: map<string, string>, w: World, act: Act, cs: seq<nat>)
    requires Converging(env, table, w) && OnlyAsking(w, cs) && TakesFrom(w, act, cs)
    ensures
      var v := Next(env, w, act);
      && Converging(env, table, v) && OnlyAsking(v, cs) && Names(v.server.net) == Names(w.server.net)
      && TotalWork(v, cs) == TotalWork(w, cs) - 1
  {
    var v, c := Next(env, w, act), act.peer;
    TakerShrinks(env, table, w, act, c);
    TakingKeepsLive(env, w, act, c);
    forall d | d in cs && d != c
      ensures Live(v.server.net, d) && OnlyAsks(v, d) && WorkOf(v, d) == WorkOf(w, d)
    {
      OthersUntouched(env, table, w, act, c, d);
    }
    TotalShrinks(w, v, cs, c);
  }

  lemma OthersUntouched(env: Env, table: map<string, string>, w: World, act: Act, c: nat, d: nat)
    requires Converging(env, table, w) && Works(w, act, c) && Live(w.server.net, c) && OnlyAsks(w, c)
    requires d != c && Live(w.server.net, d) && OnlyAsks(w, d)
    ensures
      var v := Next(env, w, act);
      Live(v.server.net, d) && OnlyAsks(v, d) && WorkOf(v, d) == WorkOf(w, d)
  {
    TakingIsAside(env, w, act, c, d);
    CourseKnown(env, table, w, d);
    AsideAdds(env, table, w, act, d);
    CourseKnown(env, table, Next(env, w, act), d);
  }

  /** Where a connection stands is within its channel. */
  predicate Placed(w: World, c: nat) {
    c < |w.peers| && c < |w.server.net.socks| && w.peers[c].read <= |w.server.net.socks[c].out|
  }

  lemma CourseKnown(env: Env, table: map<string, string>, w: World, c: nat)
    requires Converging(env, table, w) && Live(w.server.net, c)
    ensures Placed(w, c) && WorkOf(w, c) == Work(w, c)
  {
    assert OnCourse(w.server.net, c, w.peers[c]);
  }

  lemma CoursesKnown(env: Env, table: map<string, string>, w: World, cs: seq<nat>)
    requires Converging(env, table, w) && forall c :: c in cs ==> Live(w.server.net, c)
    ensures forall c :: c in cs ==> Placed(w, c) && WorkOf(w, c) == Work(w, c)
  {
    forall c | c in cs ensures Placed(w, c) && WorkOf(w, c) == Work(w, c) {
      CourseKnown(env, table, w, c);
    }
  }

  /** Without a login no connection becomes live. */
  lemma NobodyNew(env: Env, table: map<string, string>, w: World, act: Act)
    requires Converging(env, table, w)
    requires EventOf(w, act).Some? ==> !KindOf(w.server, EventOf(w, act).value).Enters?
    ensures forall c :: Live(Next(env, w, act).server.net, c) ==> Live(w.server.net, c)
  {
    if EventOf(w, act).Some? {
      var e := EventOf(w, act).value;
      StepMoves(env, w.server, e);
      NobodyNewMoves(env, w.server, e, Step(env, w.server, e));
    }
  }

  lemma NobodyNewMoves(env: Env, s: State, e: Event, t: State)
    requires Registered(s.net) && Moves(env, s, e, t) && !KindOf(s, e).Enters?
    ensures forall c :: Live(t.net, c) ==> Live(s.net, c)
  {
    match KindOf(s, e)
    case Leaves(i, why) => WithoutMembers(s.net.clients, i);
    case _ =>
  }

  lemma BystandingKeeps(env: Env, table: map<string, string>, w: World, act: Act, cs: seq<nat>)
    requires Converging(env, table, w) && OnlyAsking(w, cs) && !TakesFrom(w, act, cs) && Bystands(env, w, act, cs)
    ensures
      var v := Next(env, w, act);
      && Converging(env, table, v) && OnlyAsking(v, cs) && TotalWork(v, cs) == TotalWork(w, cs) + Growth(w, v, cs)
      && (cs != [] ==> Names(v.server.net) == Names(w.server.net))
  {
    var v := Next(env, w, act);
    NextConverges(env, table, w, act);
    CoursesKnown(env, table, w, cs);
    CoursesKnown(env, table, v, cs);
    NobodyNew(env, table, w, act);
    forall c | c in cs
      ensures Live(v.server.net, c) && OnlyAsks(v, c) && Names(v.server.net) == Names(w.server.net)
      ensures WorkOf(v, c) == WorkOf(w, c) + WrittenTo(v, c) - WrittenTo(w, c)
    {
      AsideAdds(env, table, w, act, c);
    }
    TotalGrows(w, v, cs);
    if cs != [] { assert cs[0] in cs; }
  }

  /** All live connections come to rest together: with whatever else going on that logs nobody in or out, each
      message taken by any of them leaves one unit of the work they have between them less, each message written
      to one of them adds one; as long as work is left one of them can take something, and it is at the very
      moment when none is left that all of them are at rest; then every one shows the roster. */
  lemma {:induction false} RostersSettleTogether(env: Env, table: map<string, string>, w: World, acts: seq<Act>, cs: seq<nat>)
    requires Converging(env, table, w) && OnlyAsking(w, cs) && TakingOrBystanding(env, w, acts, cs)
    ensures
      var v := Unfold(env, w, acts);
      var left := TotalWork(w, cs) + ArrivingAt(env, w, acts, cs) - TakenFrom(env, w, acts, cs);
      && left >= 0 && OnlyAsking(v, cs)
      && (left > 0 ==> exists act :: TakesFrom(v, act, cs))
      && (left == 0 <==> forall c :: c in cs ==> AtRest(v, c))
      && (cs != [] ==> Names(v.server.net) == Names(w.server.net))
      && (left == 0 ==> forall c: nat :: Live(v.server.net, c) ==>
           c < |v.peers| && v.peers[c].view.users == Some(Tally(Names(v.server.net))))
    decreases |acts|
  {
    if acts == [] {
      AllRestOrWork(env, table, w, cs);
    } else {
      if TakesFrom(w, acts[0], cs) {
        TakingKeeps(env, table, w, acts[0], cs);
      } else {
        BystandingKeeps(env, table, w, acts[0], cs);
      }
      RostersSettleTogether(env, table, Next(env, w, acts[0]), acts[1..], cs);
    }
  }

  lemma {:induction false} TotalOfNone(w: World, cs: seq<nat>)
    ensures TotalWork(w, cs) == 0 <==> forall c :: c in cs ==> WorkOf(w, c) == 0
  {
    if cs == [] {
    } else {
      TotalOfNone(w, cs[1..]);
      assert cs == [cs[0]] + cs[1..];
    }
  }

  lemma AllRestOrWork(env: Env, table: map<string, string>, w: World, cs: seq<nat>)
    requires Converging(env, table, w) && OnlyAsking(w, cs)
    ensures TotalWork(w, cs) > 0 ==> exists act :: TakesFrom(w, act, cs)
    ensures TotalWork(w, cs) == 0 <==> forall c :: c in cs ==> AtRest(w, c)
    ensures TotalWork(w, cs) == 0 ==> forall c :: c in cs ==> w.peers[c].view.users == Some(Tally(Names(w.server.net)))
  {
    TotalOfNone(w, cs);
    CoursesKnown(env, table, w, cs);
    forall c | c in cs
      ensures WorkOf(w, c) > 0 ==> exists act :: TakesFrom(w, act, cs)
      ensures WorkOf(w, c) == 0 <==> AtRest(w, c)
      ensures WorkOf(w, c) == 0 ==> w.peers[c].view.users == Some(Tally(Names(w.server.net)))
    {
      RestOrWork(env, table, w, c);
      if WorkOf(w, c) > 0 {
        var act :| Works(w, act, c);
        assert TakesFrom(w, act, cs);
      }
    }
  }
}

/** The event loop around server.js: whatever happens, the handler registered for it is called, with the
    socket its closure captured.  Runs of the program are runs of the state machine. */
module EventLoop {
  import opened Protocol
  import opened Registry
  import opened KeyGen
  import opened Sessions
  import opened Tracking
  import opened Server
  import M = Machine
  import P = Promises
  import T = Text

  // ------------------------------------------------------------ pending callbacks

  /** Every callback that has not run captures a connection that exists. */
  ghost predicate Anchored(s: M.State) {
    && (forall op :: op in s.db.ops ==> s.db.ops[op].job.sock < |s.net.socks|)
    && (forall issue :: issue in s.timers ==> s.timers[issue].sock < |s.net.socks|)
  }

  /** Pending callbacks captured what they did before, or this socket. */
  ghost predicate PendingFrom(s: M.State, t: M.State, i: nat) {
    && (forall op :: op in t.db.ops ==>
         t.db.ops[op].job.sock == i || (op in s.db.ops && t.db.ops[op].job.sock == s.db.ops[op].job.sock))
    && (forall issue :: issue in t.timers ==>
         t.timers[issue].sock == i || (issue in s.timers && t.timers[issue].sock == s.timers[issue].sock))
  }

  lemma MessagePending(env: M.Env, s: M.State, i: nat, req: Request, now: int)
    requires i < |s.net.socks|
    ensures PendingFrom(s, M.HandleMessage(env, s, i, req, now), i)
  {
    if s.net.socks[i].authenticated {
      MemberFrame(env, s, i, req, now);
      if req.Password? {
        assert M.HandleMessage(env, s, i, req, now) == M.StartChange(s, i, req.current, req.password);
      }
    }
  }

  lemma GetPending(env: M.Env, s: M.State, op: nat, draws: Draws, hash: string)
    requires op in s.db.ops
    ensures PendingFrom(s, M.DoGet(env, s, op, draws, hash), s.db.ops[op].job.sock)
  {
    var o := s.db.ops[op];
    if o.stage.Fetched? && o.job.Change? {
      assert M.DoGet(env, s, op, draws, hash) == M.ChangeRead(env, s, op, o.job, o.stage.found, hash);
    }
  }

  lemma StepAnchored(env: M.Env, s: M.State, e: M.Event)
    requires Registered(s.net) && Named(s) && Anchored(s)
    ensures Anchored(M.Step(env, s, e))
  {
    StepMoves(env, s, e);
    assert |s.net.socks| <= |M.Step(env, s, e).net.socks|;
    match e
    case Data(i, Parsed(req), now) => if i < |s.net.socks| { MessagePending(env, s, i, req, now); }
    case GetDone(op, draws, hash) => if op in s.db.ops { GetPending(env, s, op, draws, hash); }
    case _ =>
  }

  // ------------------------------------------------------------ one event

  /** Every socket there was is still there, and the others are new. */
  twostate predicate SocketsGrow(server: SessionServer)
    reads server`sockets
  {
    && |old(server.sockets)| <= |server.sockets|
    && server.sockets[..|old(server.sockets)|] == old(server.sockets)
    && forall k :: |old(server.sockets)| <= k < |server.sockets| ==> fresh(server.sockets[k])
  }

  /** Calls the handler of an event; an event that cannot happen now calls none. */
  method Handle(server: SessionServer, e: M.Event)
    requires server.Valid() && Anchored(server.View())
    modifies server, server.sockets
    ensures server.Valid() && SocketsGrow(server)
    ensures server.View() == M.Step(server.env, old(server.View()), e)
  {
    match e {
      case Connect =>
        var socket := server.OnConnect();
      case Data(i, line, now) =>
        if i < |server.sockets| { server.HandleLine(server.sockets[i], line, now); }
      case Hangup(i) =>
        if i < |server.sockets| { server.OnEnd(server.sockets[i]); }
      case Fault(i) =>
        if i < |server.sockets| { server.OnError(server.sockets[i]); }
      case Fetch(op, fault) =>
        if op in server.ops && server.ops[op].stage.Reading? { server.DatabaseReads(op, fault); }
      case GetDone(op, draws, hash) =>
        OnGet(server, op, draws, hash);
      case Store(op) =>
        if op in server.ops && server.ops[op].stage.Writing? { server.DatabaseStores(op); }
      case PutDone(op, fault) =>
        if op in server.ops && (server.ops[op].stage.Written? || (fault && server.ops[op].stage.Writing?)) {
          server.OnPut(server.sockets[server.ops[op].job.sock], op, fault);
        }
      case KeyTimer(issue) =>
        if issue in server.timers { server.OnKeyTimer(server.sockets[server.timers[issue].sock], issue); }
    }
  }

  /** The callback passed to `db.get`, by `auth` or by `changePassword`. */
  method OnGet(server: SessionServer, op: nat, draws: Draws, hash: string)
    requires server.Valid() && Anchored(server.View())
    modifies server, server.sockets
    ensures server.Valid() && server.sockets == old(server.sockets)
    ensures server.View() == M.Step(server.env, old(server.View()), M.GetDone(op, draws, hash))
  {
    if op in server.ops && server.ops[op].stage.Fetched? {
      var socket := server.sockets[server.ops[op].job.sock];
      if server.ops[op].job.Logon? {
        server.OnLogonRead(socket, op, draws, hash);
      } else {
        server.OnChangeRead(socket, op, hash, draws);
      }
    }
  }

  // ------------------------------------------------------------ whole runs

  /** What the loop is woken by: a chunk of data, or any other event. */
  datatype Happening = Chunk(sock: nat, buffer: string, clock: M.Clock) | Other(event: M.Event)

  function EventsOf(h: Happening, parse: string -> Line): seq<M.Event> {
    match h
    case Chunk(i, buffer, clock) => M.ChunkEvents(i, T.Received(buffer), parse, clock, 0)
    case Other(e) => [e]
  }

  function AllEvents(hs: seq<Happening>, parse: string -> Line): seq<M.Event> {
    if hs == [] then [] else AllEvents(hs[..|hs| - 1], parse) + EventsOf(hs[|hs| - 1], parse)
  }

  lemma RunOne(env: M.Env, s: M.State, e: M.Event)
    ensures M.Run(env, s, [e]) == M.Step(env, s, e)
  {
    assert [e][1..] == [];
    assert M.Run(env, M.Step(env, s, e), []) == M.Step(env, s, e);
  }

  lemma {:induction false} ChunkOfNobody(env: M.Env, s: M.State, events: seq<M.Event>, i: nat)
    requires i >= |s.net.socks| && forall k :: 0 <= k < |events| ==> events[k].Data? && events[k].sock == i
    ensures M.Run(env, s, events) == s
    decreases |events|
  {
    if events == [] {
    } else {
      ChunkOfNobody(env, s, events[1..], i);
    }
  }

  lemma {:induction false} RunAnchored(env: M.Env, table: map<string, string>, s: M.State, events: seq<M.Event>)
    requires Tracks(env, table, s) && Anchored(s)
    ensures Anchored(M.Run(env, s, events))
    decreases |events|
  {
    if events == [] {
    } else {
      StepAnchored(env, s, events[0]);
      TracksStep(env, table, s, events[0]);
      RunAnchored(env, table, M.Step(env, s, events[0]), events[1..]);
    }
  }

  /** One happening leads from a state, whose pending callbacks are anchored, to another. */
  ghost predicate Leads(env: M.Env, s: M.State, h: Happening, parse: string -> Line, t: M.State) {
    Anchored(s) && t == M.Run(env, s, EventsOf(h, parse))
  }

  /** One turn of the loop. */
  method Turn(server: SessionServer, h: Happening, parse: string -> Line)
    requires server.Valid() && Anchored(server.View())
    modifies server, server.sockets
    ensures server.Valid() && SocketsGrow(server)
    ensures server.View() == M.Run(server.env, old(server.View()), EventsOf(h, parse))
  {
    match h {
      case Chunk(i, buffer, clock) =>
        if i < |server.sockets| {
          server.OnData(server.sockets[i], buffer, parse, clock);
        } else {
          ChunkOfNobody(server.env, server.View(), EventsOf(h, parse), i);
        }
      case Other(e) =>
        RunOne(server.env, server.View(), e);
        Handle(server, e);
    }
  }

  /** The state after this much has happened. */
  function StateAfter(env: M.Env, table: map<string, string>, hs: seq<Happening>, parse: string -> Line): M.State {
    M.Run(env, M.Start(table), AllEvents(hs, parse))
  }

  /** The states before the first happening, after it, and so on. */
  ghost function StatesOf(env: M.Env, table: map<string, string>, hs: seq<Happening>, parse: string -> Line): (states: seq<M.State>)
    ensures |states| == |hs| + 1
    ensures forall k :: 0 <= k <= |hs| ==> states[k] == StateAfter(env, table, hs[..k], parse)
  {
    seq(|hs| + 1, k requires 0 <= k <= |hs| => StateAfter(env, table, hs[..k], parse))
  }

  lemma NextState(env: M.Env, table: map<string, string>, hs: seq<Happening>, k: nat, parse: string -> Line)
    requires k < |hs|
    ensures Leads(env, StateAfter(env, table, hs[..k], parse), hs[k], parse, StateAfter(env, table, hs[..k + 1], parse))
  {
    AnchoredFromStart(env, table, AllEvents(hs[..k], parse));
    P.RunConcat(env, M.Start(table), AllEvents(hs[..k], parse), EventsOf(hs[k], parse));
    assert hs[..k + 1][..k] == hs[..k];
  }

  lemma StatesLead(env: M.Env, table: map<string, string>, hs: seq<Happening>, parse: string -> Line)
    ensures
      var states := StatesOf(env, table, hs, parse);
      && states[0] == M.Start(table) && states[|hs|] == StateAfter(env, table, hs, parse)
      && forall k :: 0 <= k < |hs| ==> Leads(env, states[k], hs[k], parse, states[k + 1])
  {
    Ends(env, table, hs, parse);
    forall k | 0 <= k < |hs|
      ensures Leads(env, StatesOf(env, table, hs, parse)[k], hs[k], parse, StatesOf(env, table, hs, parse)[k + 1])
    {
      NextState(env, table, hs, k, parse);
    }
  }

  lemma Ends(env: M.Env, table: map<string, string>, hs: seq<Happening>, parse: string -> Line)
    ensures StateAfter(env, table, hs[..0], parse) == M.Start(table)
    ensures StateAfter(env, table, hs[..|hs|], parse) == StateAfter(env, table, hs, parse)
    ensures Tracks(env, table, StateAfter(env, table, hs, parse))
  {
    assert hs[..|hs|] == hs;
    assert AllEvents(hs[..0], parse) == [];
    Reachable(env, table, AllEvents(hs, parse));
  }

  /** The server is in the state that the first `k` happenings lead to. */
  ghost predicate UpTo(server: SessionServer, env: M.Env, states: seq<M.State>, k: nat)
    reads server, server.sockets
  {
    server.env == env && server.Valid() && k < |states| && server.View() == states[k]
  }

  /** The turn after the first `k`. */
  method TurnTo(server: SessionServer, ghost states: seq<M.State>, hs: seq<Happening>, k: nat, parse: string -> Line)
    requires k < |hs| && |states| == |hs| + 1 && UpTo(server, server.env, states, k)
    requires Leads(server.env, states[k], hs[k], parse, states[k + 1])
    modifies server, server.sockets
    ensures UpTo(server, server.env, states, k + 1) && SocketsGrow(server)
  {
    Turn(server, hs[k], parse);
  }

  /** The loop itself. */
  method TakeTurns(server: SessionServer, ghost states: seq<M.State>, hs: seq<Happening>, parse: string -> Line)
    requires |states| == |hs| + 1 && UpTo(server, server.env, states, 0)
    requires forall k :: 0 <= k < |hs| ==> Leads(server.env, states[k], hs[k], parse, states[k + 1])
    modifies server, server.sockets
    ensures UpTo(server, server.env, states, |hs|)
  {
    for k := 0 to |hs|
      invariant UpTo(server, server.env, states, k)
      invariant SocketsGrow(server)
    {
      TurnTo(server, states, hs, k, parse);
    }
  }

  /** The program from its start, through everything that happens: it is in the state the state machine
      reaches by those events, and in particular that state is what its log says and the log is lawful. */
  method Serve(env: M.Env, table: map<string, string>, hs: seq<Happening>, parse: string -> Line)
    returns (server: SessionServer)
    ensures fresh(server) && server.Valid()
    ensures server.View() == M.Run(env, M.Start(table), AllEvents(hs, parse))
    ensures Tracks(env, table, server.View())
  {
    server := new SessionServer(env, table);
    ghost var states := StatesOf(env, table, hs, parse);
    StatesLead(env, table, hs, parse);
    TakeTurns(server, states, hs, parse);
    Ends(env, table, hs, parse);
  }

  lemma AnchoredFromStart(env: M.Env, table: map<string, string>, events: seq<M.Event>)
    ensures Anchored(M.Run(env, M.Start(table), events))
  {
    Reachable(env, table, []);
    RunAnchored(env, table, M.Start(table), events);
  }
}

/** How a step moves the registry of sessions, and what every run therefore keeps. */
module Sessions {
  import opened Protocol
  import opened Registry
  import opened KeyGen
  import opened History
  import opened Machine
  import B = Board

  /** The ways a step can concern the connections. */
  datatype Kind = Still | Opens | Enters(sock: nat, key: string, name: string) | Leaves(sock: nat, why: string) | Asks(sock: nat)

  function KindOfEnd(s: State, i: nat, why: string): Kind {
    if i < |s.net.socks| && s.net.socks[i].authenticated then Leaves(i, why) else Still
  }

  /** Read off the event and the state before it, without running the step. */
  function KindOf(s: State, e: Event): Kind {
    match e
    case Data(i, Garbled, _) => KindOfEnd(s, i, "Killed: indecent hacking")
    case Data(i, Parsed(req), _) =>
      if i >= |s.net.socks| then Still
      else if s.net.socks[i].authenticated then
        if req.Quit? then Leaves(i, "Quit") else if req.Users? then Asks(i) else Still
      else if req.Key? && req.key == DEBUG_KEY then Enters(i, DEBUG_KEY, DEBUG_USER)
      else if req.Key? && req.key != "" && req.key in s.keys then Enters(i, req.key, s.keys[req.key])
      else Still
    case Connect => Opens
    case Hangup(i) => KindOfEnd(s, i, "Connection terminated")
    case Fault(i) => KindOfEnd(s, i, "Connection error")
    case _ => Still
  }

  predicate AboutSessions(o: Obs) {
    o.LoggedIn? || o.LoggedOut?
  }

  ghost predicate LogStill(a: Log, b: Log) {
    a <= b && forall k :: |a| <= k < |b| ==> !AboutSessions(b[k])
  }

  ghost predicate Moves(env: Env, s: State, e: Event, t: State) {
    match KindOf(s, e)
    case Still => Quiet(s.net, t.net) && LogStill(s.log, t.log)
    case Opens => Opened(s.net, t.net) && t.log == s.log
    case Enters(i, key, name) =>
      && e.Data?
      && Arrived(s.net, t.net, i, key, name, Uptime(env, e.now))
      && t.log == s.log + [LoggedIn(i, key, name)]
    case Leaves(i, why) =>
      && i < |s.net.socks|
      && Departed(s.net, t.net, i, NameOf(s.net, i), why)
      && t.log == s.log + [LoggedOut(i, Printed(s.net.socks[i].key), NameOf(s.net, i))]
    case Asks(i) => Listed(s.net, t.net, i) && t.log == s.log
  }

  /** No user of an outstanding key or a pending logon has the empty name. */
  ghost predicate Named(s: State) {
    && (forall k :: k in s.keys ==> s.keys[k] != "")
    && (forall op :: op in s.db.ops && s.db.ops[op].job.Logon? ==> s.db.ops[op].job.user != "")
  }

  // ------------------------------------------------------------ single steps

  lemma BlandWrite(net: Net, i: nat, reply: Reply)
    requires Bland(reply)
    ensures Quiet(net, Write(net, i, reply))
  {
  }

  lemma BlandBroadcast(net: Net, from: nat, reply: Reply)
    requires Registered(net) && Bland(reply)
    ensures Quiet(net, Broadcast(net, from, reply))
  {
    WriteAllReaches(net, net.clients, from, reply);
  }

  lemma EnterMoves(env: Env, s: State, i: nat, key: string, now: int)
    requires Registered(s.net) && key != ""
    requires i < |s.net.socks| && !s.net.socks[i].authenticated
    requires key == DEBUG_KEY || key in s.keys
    ensures Moves(env, s, Data(i, Parsed(Key(key)), now), HandleNew(env, s, i, Key(key), now))
  {
    var s0 := s.(net := SetPhase(s.net, i, NoAuth));
    var name := if key == DEBUG_KEY then DEBUG_USER else s.keys[key];
    LoginArrives(s0.net, i, key, name, Uptime(env, now));
    assert HandleNew(env, s, i, Key(key), now) == PresentKey(env, s0, i, key, now);
    assert PresentKey(env, s0, i, key, now).net == Login(s0.net, i, key, name, Uptime(env, now));
  }

  lemma NewcomerMoves(env: Env, s: State, i: nat, req: Request, now: int)
    requires Registered(s.net)
    requires i < |s.net.socks| && !s.net.socks[i].authenticated
    ensures Moves(env, s, Data(i, Parsed(req), now), HandleNew(env, s, i, req, now))
  {
    if req.Key? && req.key != "" && (req.key == DEBUG_KEY || req.key in s.keys) {
      EnterMoves(env, s, i, req.key, now);
    } else {
      var t := HandleNew(env, s, i, req, now);
      var n0 := SetPhase(s.net, i, NoAuth);
      assert t.net == n0 || t.net == Destroy(n0, i);
      assert Quiet(s.net, t.net);
    }
  }

  lemma KillMoves(env: Env, s: State, i: nat, why: string, e: Event)
    requires Registered(s.net) && i < |s.net.socks|
    requires KindOf(s, e) == KindOfEnd(s, i, why)
    ensures Moves(env, s, e, Kill(s, i, why))
  {
    if s.net.socks[i].authenticated {
      DropDeparts(s.net, i, why);
    } else {
      DropQuiet(s.net, i, why);
    }
  }

  lemma BoardQuiet(env: Env, s: State, i: nat, req: Request, now: int)
    requires B.BoardRequest(req)
    ensures Quiet(s.net, ServeBoard(env, s, i, req, now).net) && ServeBoard(env, s, i, req, now).log == s.log
  {
    var reply := B.Serve(env.sort, s.shelf, NameOf(s.net, i), req, now).1;
    assert Bland(reply);
    BlandWrite(s.net, i, reply);
  }

  lemma PrivateQuiet(s: State, i: nat, target: string, body: string)
    ensures Quiet(s.net, SendPrivate(s, i, target, body).net) && SendPrivate(s, i, target, body).log == s.log
  {
    match Find(s.net, target)
    case Some(j) => BlandWrite(s.net, j, PrivNote(NameOf(s.net, i), body));
    case None => BlandWrite(s.net, i, Error("No such user"));
  }

  lemma ChangeQuiet(s: State, i: nat, current: string, password: string)
    ensures Quiet(s.net, StartChange(s, i, current, password).net)
    ensures LogStill(s.log, StartChange(s, i, current, password).log)
  {
    match ChangeRefusal(s.db.locked, current, password)
    case Some(text) => BlandWrite(s.net, i, Notice(text));
    case None =>
  }

  lemma MemberMoves(env: Env, s: State, i: nat, req: Request, now: int)
    requires Registered(s.net)
    requires i < |s.net.socks| && s.net.socks[i].authenticated
    ensures Moves(env, s, Data(i, Parsed(req), now), HandleMessage(env, s, i, req, now))
  {
    if B.BoardRequest(req) {
      BoardQuiet(env, s, i, req, now);
      assert HandleMessage(env, s, i, req, now) == ServeBoard(env, s, i, req, now);
    } else {
      match req
      case Quit => KillMoves(env, s, i, "Quit", Data(i, Parsed(req), now));
      case PubMsg(body) => BlandBroadcast(s.net, i, PubNote(NameOf(s.net, i), body));
      case PrivMsg(target, body) => PrivateQuiet(s, i, target, body);
      case Password(current, password) => ChangeQuiet(s, i, current, password);
      case Status => BlandWrite(s.net, i, StatusIs(Uptime(env, now), |s.net.clients|));
      case _ =>
    }
  }

  lemma IssueQuiet(s: State, i: nat, user: string, key: string)
    ensures Quiet(s.net, Issue(s, i, user, key).net) && LogStill(s.log, Issue(s, i, user, key).log)
  {
    var n0 := SetPhase(s.net, i, WaitKey);
    BlandWrite(n0, i, RawKey(key));
    QuietTrans(s.net, n0, Write(n0, i, RawKey(key)));
    QuietTrans(s.net, Write(n0, i, RawKey(key)), Issue(s, i, user, key).net);
  }

  lemma LogonDoneQuiet(env: Env, s: State, op: nat, job: Job, found: Option<string>, draws: Draws)
    requires job.Logon?
    ensures Quiet(s.net, LogonDone(env, s, op, job, found, draws).net)
    ensures LogStill(s.log, LogonDone(env, s, op, job, found, draws).log)
  {
    if found.Some? && env.check(job.password, found.value) {
      IssueQuiet(Release(s, op), job.sock, job.user, KeyFrom(draws));
    }
  }

  lemma ChangeReadQuiet(env: Env, s: State, op: nat, job: Job, found: Option<string>, hash: string)
    requires job.Change?
    ensures Quiet(s.net, ChangeRead(env, s, op, job, found, hash).net)
    ensures LogStill(s.log, ChangeRead(env, s, op, job, found, hash).log)
  {
    match ChangeVerdict(env, found, job.current)
    case Some(text) => BlandWrite(s.net, job.sock, Notice(text));
    case None =>
  }

  lemma GetQuiet(env: Env, s: State, op: nat, draws: Draws, hash: string)
    ensures Quiet(s.net, DoGet(env, s, op, draws, hash).net)
    ensures LogStill(s.log, DoGet(env, s, op, draws, hash).log)
  {
    if op in s.db.ops && s.db.ops[op].stage.Fetched? {
      var o := s.db.ops[op];
      if o.job.Logon? { LogonDoneQuiet(env, s, op, o.job, o.stage.found, draws); }
      else { ChangeReadQuiet(env, s, op, o.job, o.stage.found, hash); }
    }
  }

  lemma PutQuiet(s: State, op: nat, fault: bool)
    ensures Quiet(s.net, DoPut(s, op, fault).net) && LogStill(s.log, DoPut(s, op, fault).log)
  {
    if op in s.db.ops {
      BlandWrite(s.net, s.db.ops[op].job.sock,
                 Notice(if fault then "Unable to change password (database I/O error)." else "Password changed."));
    }
  }

  lemma TimerQuiet(s: State, issue: nat)
    ensures Quiet(s.net, DoTimer(s, issue).net) && LogStill(s.log, DoTimer(s, issue).log)
  {
  }

  lemma CallbackMoves(env: Env, s: State, e: Event)
    requires e.Fetch? || e.GetDone? || e.Store? || e.PutDone? || e.KeyTimer? || e.Connect?
    ensures Moves(env, s, e, Step(env, s, e))
  {
    match e
    case GetDone(op, draws, hash) => GetQuiet(env, s, op, draws, hash);
    case PutDone(op, fault) => PutQuiet(s, op, fault);
    case KeyTimer(issue) => TimerQuiet(s, issue);
    case Fetch(op, fault) => assert DoFetch(s, op, fault).net == s.net && DoFetch(s, op, fault).log == s.log;
    case Store(op) => assert DoStore(s, op).net == s.net && LogStill(s.log, DoStore(s, op).log);
    case Connect =>
  }

  /** Every step, whatever the event, moves the registry in exactly the way its kind says. */
  lemma StepMoves(env: Env, s: State, e: Event)
    requires Registered(s.net) && Named(s)
    ensures Moves(env, s, e, Step(env, s, e))
  {
    match e
    case Data(i, Garbled, now) =>
      if i < |s.net.socks| { KillMoves(env, s, i, "Killed: indecent hacking", e); }
    case Data(i, Parsed(req), now) =>
      if i < |s.net.socks| {
        if s.net.socks[i].authenticated { MemberMoves(env, s, i, req, now); }
        else { NewcomerMoves(env, s, i, req, now); }
      }
    case Hangup(i) => if i < |s.net.socks| { KillMoves(env, s, i, "Connection terminated", e); }
    case Fault(i) => if i < |s.net.socks| { KillMoves(env, s, i, "Connection error", e); }
    case _ => CallbackMoves(env, s, e);
  }

  lemma MovesRegistered(env: Env, s: State, e: Event, t: State)
    requires Registered(s.net) && Named(s) && Moves(env, s, e, t)
    ensures Registered(t.net)
  {
    match KindOf(s, e)
    case Leaves(i, why) => DepartedRegistered(s.net, t.net, i, NameOf(s.net, i), why);
    case Enters(i, key, name) => ArrivedRegistered(s.net, t.net, i, key, name, Uptime(env, e.now));
    case Still => QuietRegistered(s.net, t.net);
    case Opens => OpenedRegistered(s.net, t.net);
    case Asks(i) => ListedRegistered(s.net, t.net, i);
  }

  /** What a message from a logged-in socket leaves alone. */
  lemma MemberFrame(env: Env, s: State, i: nat, req: Request, now: int)
    requires i < |s.net.socks| && s.net.socks[i].authenticated
    ensures
      var t := HandleMessage(env, s, i, req, now);
      && t.timers == s.timers
      && t.keys == (if req.Quit? then s.keys - {Printed(s.net.socks[i].key)} else s.keys)
      && (!req.Password? ==> t.db == s.db)
      && (!B.BoardRequest(req) ==> t.shelf == s.shelf)
      && (!req.Quit? && !req.Password? ==> t.log == s.log)
  {
    match req
    case PrivMsg(target, body) => assert target != "" ==> HandleMessage(env, s, i, req, now) == SendPrivate(s, i, target, body);
    case Password(current, password) => assert HandleMessage(env, s, i, req, now) == StartChange(s, i, current, password);
    case Quit => assert HandleMessage(env, s, i, req, now) == Kill(s, i, "Quit");
    case _ =>
  }

  lemma NamedStep(env: Env, s: State, e: Event)
    requires Named(s)
    ensures Named(Step(env, s, e))
  {
    match e
    case Data(i, Parsed(req), now) =>
      if i < |s.net.socks| {
        if s.net.socks[i].authenticated {
          MemberFrame(env, s, i, req, now);
          if req.Password? { assert Step(env, s, e) == StartChange(s, i, req.current, req.password); }
        } else {
          NewcomerNamed(env, s, i, req, now);
        }
      }
    case GetDone(op, draws, hash) => GetNamed(env, s, op, draws, hash);
    case _ =>
  }

  lemma NewcomerNamed(env: Env, s: State, i: nat, req: Request, now: int)
    requires Named(s) && i < |s.net.socks|
    ensures Named(HandleNew(env, s, i, req, now))
  {
  }

  lemma GetNamed(env: Env, s: State, op: nat, draws: Draws, hash: string)
    requires Named(s)
    ensures Named(DoGet(env, s, op, draws, hash))
  {
    if op in s.db.ops && s.db.ops[op].stage.Fetched? {
      var o := s.db.ops[op];
      if o.job.Change? {
        assert DoGet(env, s, op, draws, hash) == ChangeRead(env, s, op, o.job, o.stage.found, hash);
      }
    }
  }
}

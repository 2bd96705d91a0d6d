/** What each event is answered with: who is told what, in so many words, and what stays as it was. */
module Answers {
  import opened Protocol
  import opened Registry
  import opened KeyGen
  import opened History
  import opened Machine
  import opened Sessions
  import opened Tracking
  import opened Promises
  import B = Board

  /** Everything but the connections is as it was. */
  predicate OnlyNet(s: State, t: State) {
    t.keys == s.keys && t.timers == s.timers && t.shelf == s.shelf && t.db == s.db && t.log == s.log
  }

  /** Everything but the database is as it was: the lock is given back, and nothing else happens to the data. */
  predicate OnlyReleased(s: State, t: State, op: nat) {
    && t.keys == s.keys && t.timers == s.timers && t.shelf == s.shelf
    && t.log == s.log + [Unlocked(op)]
    && t.db.table == s.db.table && !t.db.locked && t.db.ops == s.db.ops - {op}
  }

  // ------------------------------------------------------------ strangers

  /** Connection `i` is destroyed; nobody is told anything and nothing else changes. */
  predicate TurnedAway(s: State, t: State, i: nat) {
    && OnlyNet(s, t) && HeardByNobody(s.net, t.net) && t.net.clients == s.net.clients
    && i < |t.net.socks| && t.net.socks[i].destroyed && !t.net.socks[i].authenticated
    && forall j :: 0 <= j < |s.net.socks| && j != i ==> t.net.socks[j] == s.net.socks[j]
  }

  /** What a connection that is not logged in may ask for: to log in, by key or by password. */
  predicate AsksToEnter(req: Request) {
    || (req.Key? && req.key != "")
    || (req.Auth? && req.username != "" && req.password != "")
  }

  /** A connection that is not logged in gets nothing for any other request, for a key that is not outstanding,
      or for a logon while the lock file exists: it is destroyed, and that is all. */
  lemma StrangersAreTurnedAway(env: Env, s: State, i: nat, req: Request, now: int)
    requires i < |s.net.socks| && !s.net.socks[i].authenticated
    requires
      || !AsksToEnter(req)
      || (req.Key? && req.key != DEBUG_KEY && req.key !in s.keys)
      || (req.Auth? && s.db.locked)
    ensures TurnedAway(s, Step(env, s, Data(i, Parsed(req), now)), i)
  {
    var t := Step(env, s, Data(i, Parsed(req), now));
    assert t == s.(net := Destroy(SetPhase(s.net, i, NoAuth), i));
  }

  /** What a logged-in user sends is passed over when it is of a kind only strangers send, of no known kind,
      or a private message to nobody. */
  lemma SomeRequestsAreIgnored(env: Env, s: State, i: nat, req: Request, now: int)
    requires i < |s.net.socks| && s.net.socks[i].authenticated
    requires req.Key? || req.Auth? || req.Unknown? || (req.PrivMsg? && req.target == "")
    ensures Step(env, s, Data(i, Parsed(req), now)) == s
  {
  }

  /** The status goes to whoever asked: whole seconds since the start, and how many sessions there are. */
  lemma StatusIsAnswered(env: Env, s: State, i: nat, now: int) returns (uptime: int)
    requires i < |s.net.socks| && s.net.socks[i].authenticated
    ensures uptime * 1000 <= now - env.started < (uptime + 1) * 1000
    ensures
      var t := Step(env, s, Data(i, Parsed(Status), now));
      OnlyNet(s, t) && t.net.clients == s.net.clients
      && AddressedTo(s.net, t.net, i, StatusIs(uptime, |s.net.clients|))
  {
    uptime := Uptime(env, now);
    WriteIsAddressed(s.net, i, StatusIs(uptime, |s.net.clients|));
  }

  // ------------------------------------------------------------ logging on

  /** The answer to a password logon, exactly: if the record was found and the password matches it, the key is
      written, filed for that user and given a timer; otherwise nobody is told anything and the keys stay.
      Either way the lock is given back and the connection is destroyed. */
  lemma LogonIsAnswered(env: Env, s: State, op: nat, draws: Draws, hash: string)
    requires op in s.db.ops && s.db.ops[op].job.Logon? && s.db.ops[op].stage.Fetched?
    requires s.db.ops[op].job.sock < |s.net.socks|
    ensures
      var t := Step(env, s, GetDone(op, draws, hash));
      var job, found := s.db.ops[op].job, s.db.ops[op].stage.found;
      && t.net.socks[job.sock].destroyed && t.net.clients == s.net.clients
      && if found.Some? && env.check(job.password, found.value) then
           && AddressedTo(s.net, t.net, job.sock, RawKey(KeyFrom(draws)))
           && t.keys == s.keys[KeyFrom(draws) := job.user]
           && t.timers == s.timers[|s.log| + 1 := Timer(KeyFrom(draws), job.user, job.sock)]
           && !t.db.locked && t.db.table == s.db.table && t.shelf == s.shelf
         else HeardByNobody(s.net, t.net) && OnlyReleased(s, t, op)
  {
    var job := s.db.ops[op].job;
    WriteIsAddressed(s.net, job.sock, RawKey(KeyFrom(draws)));
  }

  /** What the database does between the callbacks: it finds the user's record, or not for an error, and later
      stores the hash under the name given; nobody is told and nothing else changes. */
  lemma DatabaseSteps(env: Env, s: State, op: nat, fault: bool)
    requires op in s.db.ops
    ensures
      var o, t, u := s.db.ops[op], Step(env, s, Fetch(op, fault)), Step(env, s, Store(op));
      && (o.stage.Reading? ==>
           && t == s.(db := s.db.(ops := s.db.ops[op := Op(o.job, t.db.ops[op].stage)]))
           && t.db.ops[op].stage.Fetched?
           && forall hash :: t.db.ops[op].stage.found == Some(hash) <==>
                !fault && o.job.user in s.db.table && s.db.table[o.job.user] == hash)
      && (o.stage.Writing? ==>
           && u.net == s.net && u.keys == s.keys && u.timers == s.timers && u.shelf == s.shelf
           && u.db == Db(s.db.table[o.stage.user := o.stage.hash], s.db.locked, s.db.ops[op := Op(o.job, Written)]))
  {
  }

  lemma PhaseKeepsSessions(net: Net, log: Log, i: nat, phase: Phase)
    requires Registered(net) && SessionsMatch(net, log)
    ensures Registered(SetPhase(net, i, phase)) && SessionsMatch(SetPhase(net, i, phase), log)
    ensures HeardByNobody(net, SetPhase(net, i, phase)) && SetPhase(net, i, phase).clients == net.clients
  {
    assert forall k :: 0 <= k < |net.clients| ==> Fits(net, net.clients[k], Replay(log)[k]);
  }

  /** The key's timer: the key goes if its user has no session, and otherwise stays; nobody is told. */
  lemma TimerOutcome(env: Env, s: State, issue: nat)
    requires Registered(s.net) && SessionsMatch(s.net, s.log) && issue in s.timers
    ensures
      var t := Step(env, s, KeyTimer(issue));
      && t.keys == (if Online(s.log, s.timers[issue].user) then s.keys else s.keys - {s.timers[issue].key})
      && t.timers == s.timers - {issue} && HeardByNobody(s.net, t.net)
      && t.net.clients == s.net.clients && t.db == s.db && t.shelf == s.shelf
  {
    var timer := s.timers[issue];
    PhaseKeepsSessions(s.net, s.log, timer.sock, KeyTimeout);
    FindMatches(SetPhase(s.net, timer.sock, KeyTimeout), s.log, timer.user);
  }

  // ------------------------------------------------------------ changing a password

  /** The user is told this, and nothing else happens. */
  predicate OnlyNotified(s: State, t: State, i: nat, text: string) {
    OnlyNet(s, t) && t.net.clients == s.net.clients && AddressedTo(s.net, t.net, i, Notice(text))
  }

  /** The user is told this, the lock is given back, and nothing else happens. */
  predicate ReleasedAndNotified(s: State, t: State, op: nat, i: nat, text: string) {
    OnlyReleased(s, t, op) && t.net.clients == s.net.clients && AddressedTo(s.net, t.net, i, Notice(text))
  }

  lemma TellNotifies(s: State, i: nat, text: string)
    ensures OnlyNotified(s, Tell(s, i, Notice(text)), i, text)
  {
    WriteIsAddressed(s.net, i, Notice(text));
  }

  lemma TellReleases(s: State, op: nat, i: nat, text: string)
    ensures ReleasedAndNotified(s, Release(Tell(s, i, Notice(text)), op), op, i, text)
    ensures ReleasedAndNotified(s, Tell(Release(s, op), i, Notice(text)), op, i, text)
  {
    WriteIsAddressed(s.net, i, Notice(text));
  }

  /** Asking for a change: the first cause that applies is told to the user in these words and nothing else
      happens; without one, the lock is taken and the record of the socket's user is being read. */
  lemma ChangeIsAsked(env: Env, s: State, i: nat, current: string, password: string, now: int)
    requires i < |s.net.socks| && s.net.socks[i].authenticated
    ensures
      var t := Step(env, s, Data(i, Parsed(Password(current, password)), now));
      if current == "" || password == "" then OnlyNotified(s, t, i, "Malformed password change request.")
      else if |password| < 8 then OnlyNotified(s, t, i, "Unable to change password: password is too short.")
      else if s.db.locked then OnlyNotified(s, t, i, "Unable to change password (database locked).")
      else
        && t.net == s.net && t.keys == s.keys && t.timers == s.timers && t.shelf == s.shelf
        && t.db.locked && t.db.table == s.db.table
        && t.db.ops == s.db.ops[|s.log| := Op(Change(i, NameOf(s.net, i), current, password), Reading)]
  {
    assert Step(env, s, Data(i, Parsed(Password(current, password)), now)) == StartChange(s, i, current, password);
    match ChangeRefusal(s.db.locked, current, password)
    case Some(text) => TellNotifies(s, i, text);
    case None =>
  }

  /** Once the record is read: no record and a wrong password are told in these words, and the lock is given back;
      otherwise the new hash is to be stored under the name the socket carries now, and nobody is told anything. */
  lemma ChangeIsChecked(env: Env, s: State, op: nat, draws: Draws, hash: string)
    requires op in s.db.ops && s.db.ops[op].job.Change? && s.db.ops[op].stage.Fetched?
    ensures
      var t := Step(env, s, GetDone(op, draws, hash));
      var job, found := s.db.ops[op].job, s.db.ops[op].stage.found;
      if found.None? then ReleasedAndNotified(s, t, op, job.sock, "Unable to change password: no such user.")
      else if !env.check(job.current, found.value) then
        ReleasedAndNotified(s, t, op, job.sock, "Unable to change password: current password not correct.")
      else
        && t.net == s.net && t.keys == s.keys && t.timers == s.timers && t.shelf == s.shelf
        && t.db == s.db.(ops := s.db.ops[op := Op(job, Writing(NameOf(s.net, job.sock), hash))])
  {
    var job, found := s.db.ops[op].job, s.db.ops[op].stage.found;
    assert Step(env, s, GetDone(op, draws, hash)) == ChangeRead(env, s, op, job, found, hash);
    match ChangeVerdict(env, found, job.current)
    case Some(text) => TellReleases(s, op, job.sock, text);
    case None =>
  }

  /** The end of a change: a fault is told as one, and success in these words; the lock is given back. */
  lemma ChangeIsAnswered(env: Env, s: State, op: nat, fault: bool)
    requires op in s.db.ops && (s.db.ops[op].stage.Written? || (fault && s.db.ops[op].stage.Writing?))
    ensures ReleasedAndNotified(s, Step(env, s, PutDone(op, fault)), op, s.db.ops[op].job.sock,
              if fault then "Unable to change password (database I/O error)." else "Password changed.")
  {
    TellReleases(s, op, s.db.ops[op].job.sock,
                 if fault then "Unable to change password (database I/O error)." else "Password changed.");
  }

  // ------------------------------------------------------------ nothing else is ever said

  /** What a session of this name may have written, to anybody, by sending this request. */
  predicate MemberMay(name: string, req: Request, r: Reply) {
    match req
    case Quit => r.QuitNote?
    case Users => r.UserList?
    case Status => r.StatusIs?
    case Password(_, _) => r.Notice? && r.body != "Password changed."
    case PubMsg(body) => r == PubNote(name, body)
    case PrivMsg(target, body) => target != "" && (r == PrivNote(name, body) || r == Error("No such user"))
    case Threads => r.ThreadList?
    case GetThread(_) => r.ThreadIs? || r.Error?
    case NewThread(_, _, _) => r.ThreadIs? || r.Error?
    case DeleteThread(_) => r.Deleted? || r.Error?
    case PostTo(_, _) => r.ThreadIs? || r.Error?
    case _ => false
  }

  /** What may be written in the step that handles this event. */
  predicate May(s: State, e: Event, r: Reply) {
    match e
    case Data(i, Parsed(req), _) =>
      i < |s.net.socks| &&
      if s.net.socks[i].authenticated then MemberMay(NameOf(s.net, i), req, r)
      else req.Key? && (r.UserIs? || r.Join? || r.StatusIs?)
    case Data(_, Garbled, _) => r.QuitNote?
    case Hangup(_) => r.QuitNote?
    case Fault(_) => r.QuitNote?
    case GetDone(op, _, _) =>
      op in s.db.ops && s.db.ops[op].stage.Fetched? &&
      if s.db.ops[op].job.Logon? then r.RawKey? else r.Notice? && r.body != "Password changed."
    case PutDone(op, fault) =>
      op in s.db.ops && (s.db.ops[op].stage.Written? || (fault && s.db.ops[op].stage.Writing?)) &&
      r == Notice(if fault then "Unable to change password (database I/O error)." else "Password changed.")
    case _ => false
  }

  /** Outputs only grow, and only by what the event may have written. */
  ghost predicate SaysOnly(s: State, e: Event, b: Net) {
    && |s.net.socks| <= |b.socks|
    && (forall i :: 0 <= i < |s.net.socks| ==> s.net.socks[i].out <= b.socks[i].out)
    && (forall i, k :: 0 <= i < |s.net.socks| && |s.net.socks[i].out| <= k < |b.socks[i].out| ==> May(s, e, b.socks[i].out[k]))
    && (forall i :: |s.net.socks| <= i < |b.socks| ==> b.socks[i].out == [])
  }

  lemma AddressedSays(s: State, e: Event, b: Net, i: nat, reply: Reply)
    requires AddressedTo(s.net, b, i, reply) && May(s, e, reply)
    ensures SaysOnly(s, e, b)
  {
  }

  lemma NobodySays(s: State, e: Event, b: Net)
    requires HeardByNobody(s.net, b)
    ensures SaysOnly(s, e, b)
  {
  }

  lemma BoardSays(env: Env, s: State, i: nat, req: Request, now: int)
    requires i < |s.net.socks| && s.net.socks[i].authenticated && B.BoardRequest(req)
    ensures SaysOnly(s, Data(i, Parsed(req), now), HandleMessage(env, s, i, req, now).net)
  {
    var reply := B.Serve(env.sort, s.shelf, NameOf(s.net, i), req, now).1;
    assert HandleMessage(env, s, i, req, now) == ServeBoard(env, s, i, req, now);
    WriteIsAddressed(s.net, i, reply);
    AddressedSays(s, Data(i, Parsed(req), now), Write(s.net, i, reply), i, reply);
  }

  lemma PrivateSays(env: Env, s: State, i: nat, target: string, body: string, now: int)
    requires i < |s.net.socks| && s.net.socks[i].authenticated && target != ""
    ensures SaysOnly(s, Data(i, Parsed(PrivMsg(target, body)), now), SendPrivate(s, i, target, body).net)
  {
    var e := Data(i, Parsed(PrivMsg(target, body)), now);
    match Find(s.net, target)
    case Some(j) =>
      WriteIsAddressed(s.net, j, PrivNote(NameOf(s.net, i), body));
      AddressedSays(s, e, SendPrivate(s, i, target, body).net, j, PrivNote(NameOf(s.net, i), body));
    case None =>
      WriteIsAddressed(s.net, i, Error("No such user"));
      AddressedSays(s, e, SendPrivate(s, i, target, body).net, i, Error("No such user"));
  }

  lemma PublicSays(env: Env, s: State, i: nat, body: string, now: int)
    requires Registered(s.net) && i < |s.net.socks| && s.net.socks[i].authenticated
    ensures SaysOnly(s, Data(i, Parsed(PubMsg(body)), now), Broadcast(s.net, i, PubNote(NameOf(s.net, i), body)))
  {
    WriteAllReaches(s.net, s.net.clients, i, PubNote(NameOf(s.net, i), body));
  }

  lemma ChangeSays(env: Env, s: State, i: nat, current: string, password: string, now: int)
    requires i < |s.net.socks| && s.net.socks[i].authenticated
    ensures SaysOnly(s, Data(i, Parsed(Password(current, password)), now), StartChange(s, i, current, password).net)
  {
    var refusal := ChangeRefusal(s.db.locked, current, password);
    if refusal.Some? {
      WriteIsAddressed(s.net, i, Notice(refusal.value));
      AddressedSays(s, Data(i, Parsed(Password(current, password)), now), Write(s.net, i, Notice(refusal.value)), i, Notice(refusal.value));
    }
  }

  lemma MemberSays(env: Env, s: State, i: nat, req: Request, now: int)
    requires Registered(s.net) && i < |s.net.socks| && s.net.socks[i].authenticated && !req.Quit? && !req.Users?
    ensures SaysOnly(s, Data(i, Parsed(req), now), HandleMessage(env, s, i, req, now).net)
  {
    if B.BoardRequest(req) {
      BoardSays(env, s, i, req, now);
    } else {
      match req
      case PubMsg(body) => PublicSays(env, s, i, body, now);
      case PrivMsg(target, body) => if target != "" { PrivateSays(env, s, i, target, body, now); }
      case Password(current, password) => ChangeSays(env, s, i, current, password, now);
      case Status =>
        var reply := StatusIs(Uptime(env, now), |s.net.clients|);
        WriteIsAddressed(s.net, i, reply);
        AddressedSays(s, Data(i, Parsed(req), now), Write(s.net, i, reply), i, reply);
      case _ =>
    }
  }

  lemma StrangerSays(env: Env, s: State, i: nat, req: Request, now: int)
    requires i < |s.net.socks| && !s.net.socks[i].authenticated && KindOf(s, Data(i, Parsed(req), now)).Still?
    ensures SaysOnly(s, Data(i, Parsed(req), now), HandleNew(env, s, i, req, now).net)
  {
    var n0 := SetPhase(s.net, i, NoAuth);
    var t := HandleNew(env, s, i, req, now);
    assert t.net == n0 || t.net == Destroy(n0, i);
  }

  lemma KillSays(s: State, e: Event, i: nat, why: string)
    requires Registered(s.net)
    ensures i < |s.net.socks| && !s.net.socks[i].authenticated ==> SaysOnly(s, e, Kill(s, i, why).net)
  {
  }

  lemma GetSays(env: Env, s: State, op: nat, draws: Draws, hash: string)
    ensures SaysOnly(s, GetDone(op, draws, hash), DoGet(env, s, op, draws, hash).net)
  {
    if op in s.db.ops && s.db.ops[op].stage.Fetched? {
      var e := GetDone(op, draws, hash);
      var job, found := s.db.ops[op].job, s.db.ops[op].stage.found;
      var t := DoGet(env, s, op, draws, hash);
      if job.Logon? {
        LogonSays(env, s, op, draws, hash);
      } else {
        assert t == ChangeRead(env, s, op, job, found, hash);
        var verdict := ChangeVerdict(env, found, job.current);
        if verdict.Some? {
          WriteIsAddressed(s.net, job.sock, Notice(verdict.value));
          AddressedSays(s, e, t.net, job.sock, Notice(verdict.value));
        }
      }
    }
  }

  lemma KeyIsAddressed(net: Net, i: nat, reply: Reply)
    ensures AddressedTo(net, Destroy(Write(SetPhase(net, i, WaitKey), i, reply), i), i, reply)
    ensures HeardByNobody(net, Destroy(net, i))
  {
  }

  lemma LogonSays(env: Env, s: State, op: nat, draws: Draws, hash: string)
    requires op in s.db.ops && s.db.ops[op].stage.Fetched? && s.db.ops[op].job.Logon?
    ensures SaysOnly(s, GetDone(op, draws, hash), DoGet(env, s, op, draws, hash).net)
  {
    var e, job, found := GetDone(op, draws, hash), s.db.ops[op].job, s.db.ops[op].stage.found;
    var net := DoGet(env, s, op, draws, hash).net;
    KeyIsAddressed(s.net, job.sock, RawKey(KeyFrom(draws)));
    if found.Some? && env.check(job.password, found.value) {
      AddressedSays(s, e, net, job.sock, RawKey(KeyFrom(draws)));
    } else {
      NobodySays(s, e, net);
    }
  }

  lemma PutSays(env: Env, s: State, op: nat, fault: bool)
    ensures SaysOnly(s, PutDone(op, fault), DoPut(s, op, fault).net)
  {
    if op in s.db.ops && (s.db.ops[op].stage.Written? || (fault && s.db.ops[op].stage.Writing?)) {
      var i := s.db.ops[op].job.sock;
      var reply := Notice(if fault then "Unable to change password (database I/O error)." else "Password changed.");
      WriteIsAddressed(s.net, i, reply);
      AddressedSays(s, PutDone(op, fault), DoPut(s, op, fault).net, i, reply);
    }
  }

  lemma StillSays(env: Env, s: State, e: Event)
    requires Registered(s.net) && KindOf(s, e).Still?
    ensures SaysOnly(s, e, Step(env, s, e).net)
  {
    match e {
      case Data(i, Parsed(req), now) =>
        if i < |s.net.socks| {
          if s.net.socks[i].authenticated { MemberSays(env, s, i, req, now); }
          else { StrangerSays(env, s, i, req, now); }
        }
      case Data(i, Garbled, now) => KillSays(s, e, i, "Killed: indecent hacking");
      case Hangup(i) => KillSays(s, e, i, "Connection terminated");
      case Fault(i) => KillSays(s, e, i, "Connection error");
      case GetDone(op, draws, hash) => GetSays(env, s, op, draws, hash);
      case PutDone(op, fault) => PutSays(env, s, op, fault);
      case _ =>
    }
  }

  lemma ArrivalSays(s: State, e: Event, b: Net, i: nat, key: string, name: string, uptime: int)
    requires Registered(s.net) && Arrived(s.net, b, i, key, name, uptime)
    requires forall r: Reply :: r.UserIs? || r.Join? || r.StatusIs? ==> May(s, e, r)
    ensures SaysOnly(s, e, b)
  {
    assert Told(s.net.socks[i], b.socks[i], [UserIs(name), Join(name), StatusIs(uptime, |b.clients|)]);
  }

  lemma DepartureSays(s: State, e: Event, b: Net, i: nat, name: string, why: string)
    requires Departed(s.net, b, i, name, why) && May(s, e, QuitNote(name, why))
    ensures SaysOnly(s, e, b)
  {
  }

  lemma MovesSay(env: Env, s: State, e: Event, t: State)
    requires Registered(s.net) && Moves(env, s, e, t) && !KindOf(s, e).Still?
    ensures SaysOnly(s, e, t.net)
  {
    match KindOf(s, e)
    case Enters(i, key, name) => ArrivalSays(s, e, t.net, i, key, name, Uptime(env, e.now));
    case Leaves(i, why) => DepartureSays(s, e, t.net, i, NameOf(s.net, i), why);
    case Asks(i) =>
      var list := UserList(Tally(Names(s.net)));
      WriteIsAddressed(s.net, i, list);
      AddressedSays(s, e, t.net, i, list);
    case Opens =>
  }

  /** Whatever the event, nothing is written that it does not call for. */
  lemma StepSaysOnly(env: Env, s: State, e: Event)
    requires Registered(s.net) && Named(s)
    ensures SaysOnly(s, e, Step(env, s, e).net)
  {
    if KindOf(s, e).Still? {
      StillSays(env, s, e);
    } else {
      StepMoves(env, s, e);
      MovesSay(env, s, e, Step(env, s, e));
    }
  }

  /** Chat comes from sessions: a public or private note is only ever written in the step that handles that
      message of a session, under the name of that session's user. */
  lemma NotesComeFromSessions(env: Env, table: map<string, string>, s: State, e: Event, j: nat, k: nat)
    requires Tracks(env, table, s)
    requires j < |Step(env, s, e).net.socks| && k < |Step(env, s, e).net.socks[j].out|
    requires j < |s.net.socks| ==> |s.net.socks[j].out| <= k
    ensures
      var r := Step(env, s, e).net.socks[j].out[k];
      r.PubNote? || r.PrivNote? ==>
        && e.Data? && HasSession(s.log, e.sock) && r.nick == NameAt(s.log, e.sock)
        && if r.PubNote? then e.line == Parsed(PubMsg(r.body))
           else exists target :: e.line == Parsed(PrivMsg(target, r.body))
  {
    StepSaysOnly(env, s, e);
    var r := Step(env, s, e).net.socks[j].out[k];
    assert May(s, e, r);
    if r.PubNote? || r.PrivNote? {
      NameMatches(s.net, s.log, e.sock);
      SessionIffListed(s.net, s.log, e.sock);
      if r.PrivNote? { assert e.line == Parsed(PrivMsg(e.line.request.target, r.body)); }
    }
  }

  /** A user reads `Password changed.` only in the step that reports a stored record, and then the table
      holds the new hash under the name the change was stored for. */
  lemma ChangedMeansStored(env: Env, table: map<string, string>, s: State, e: Event, j: nat, k: nat)
    requires Tracks(env, table, s)
    requires j < |Step(env, s, e).net.socks| && k < |Step(env, s, e).net.socks[j].out|
    requires j < |s.net.socks| ==> |s.net.socks[j].out| <= k
    requires Step(env, s, e).net.socks[j].out[k] == Notice("Password changed.")
    ensures e.PutDone? && !e.fault && e.op in s.db.ops && s.db.ops[e.op].stage.Written?
    ensures exists b :: StoredAt(table, s.log, b, e.op)
  {
    StepSaysOnly(env, s, e);
    assert May(s, e, Step(env, s, e).net.socks[j].out[k]);
    assert |"Unable to change password (database I/O error)."| == 47;
  }
}

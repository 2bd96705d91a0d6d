/** The state is at every moment what the history says it is, and the history is lawful. */
module Tracking {
  import opened Protocol
  import opened Registry
  import opened KeyGen
  import opened History
  import opened Machine
  import opened Sessions

  /** `clients` is the list of open sessions, oldest login first. */
  ghost predicate SessionsMatch(net: Net, log: Log) {
    && |net.clients| == |Replay(log)|
    && forall k :: 0 <= k < |net.clients| ==> Fits(net, net.clients[k], Replay(log)[k])
  }

  predicate Fits(net: Net, i: nat, x: Session) {
    && x.sock == i && i < |net.socks|
    && net.socks[i].username == Some(x.user) && net.socks[i].key == Some(x.key)
  }

  /** What holds while operation `op` has the database. */
  ghost predicate StageFits(check: Check, table: map<string, string>, log: Log, op: nat, o: Op) {
    && op < |log| && log[op] == Locked(op, o.job)
    && match o.stage
       case Reading => true
       case Fetched(found) => found.Some? ==> Lookup(TableOf(table, log), o.job.user) == found
       case Writing(user, _) => o.job.Change? && exists v :: VerifiedSince(log, v, op, user)
       case Written => o.job.Change? && exists b :: StoredAt(table, log, b, op)
  }

  /** The operation overwrote a record at `b`, and the table still holds there what it wrote. */
  predicate StoredAt(table: map<string, string>, log: Log, b: int, op: nat) {
    && op < b < |log| && log[b].Overwrote? && log[b].op == op
    && Lookup(TableOf(table, log), log[b].user) == Some(log[b].hash)
  }

  /** The lock file exists exactly while one operation is under way, and that operation holds it. */
  ghost predicate LockFits(check: Check, table: map<string, string>, db: Db, log: Log) {
    && db.table == TableOf(table, log)
    && if db.locked
       then LockOf(log).Held? && db.ops.Keys == {LockOf(log).op}
            && StageFits(check, table, log, LockOf(log).op, db.ops[LockOf(log).op])
       else LockOf(log).Free? && db.ops == map[]
  }

  /** Keys, timers, database and history agree. */
  ghost predicate Books(env: Env, table: map<string, string>, s: State) {
    && s.keys == Outstanding(s.log)
    && s.timers == Waiting(s.log)
    && LockFits(env.check, table, s.db, s.log)
    && Lawful(env.check, table, s.log)
  }

  ghost predicate Tracks(env: Env, table: map<string, string>, s: State) {
    && Registered(s.net) && Named(s)
    && SessionsMatch(s.net, s.log)
    && Books(env, table, s)
  }

  // ------------------------------------------------------------ one entry more

  lemma Grown(log: Log, o: Obs)
    ensures (log + [o])[..|log|] == log && (log + [o])[|log|] == o
  {
  }

  lemma QuietMatch(a: Net, b: Net, log: Log, next: Log)
    requires SessionsMatch(a, log) && Quiet(a, b) && Replay(next) == Replay(log)
    ensures SessionsMatch(b, next)
  {
    forall k | 0 <= k < |b.clients| ensures Fits(b, b.clients[k], Replay(next)[k]) {
      assert Fits(a, a.clients[k], Replay(log)[k]);
      assert SameSession(a.socks[a.clients[k]], b.socks[a.clients[k]]);
    }
  }

  lemma {:induction false} StillReplay(a: Log, b: Log)
    requires LogStill(a, b)
    ensures Replay(b) == Replay(a)
    decreases |b|
  {
    if |b| > |a| {
      var front := b[..|b| - 1];
      assert LogStill(a, front);
      StillReplay(a, front);
      assert !AboutSessions(b[|b| - 1]);
    } else {
      assert a == b;
    }
  }

  lemma {:induction false} WithoutFits(net: Net, list: seq<nat>, sessions: seq<Session>, i: nat)
    requires |list| == |sessions| && forall k :: 0 <= k < |list| ==> Fits(net, list[k], sessions[k])
    ensures |Without(list, i)| == |WithoutSock(sessions, i)|
    ensures forall k :: 0 <= k < |Without(list, i)| ==> Fits(net, Without(list, i)[k], WithoutSock(sessions, i)[k])
  {
    if list == [] || list[0] == i {
    } else {
      WithoutFits(net, list[1..], sessions[1..], i);
    }
  }

  lemma DepartMatch(a: Net, b: Net, log: Log, i: nat, why: string)
    requires Registered(a) && SessionsMatch(a, log) && i < |a.socks| && Departed(a, b, i, NameOf(a, i), why)
    ensures SessionsMatch(b, log + [LoggedOut(i, Printed(a.socks[i].key), NameOf(a, i))])
  {
    var o := LoggedOut(i, Printed(a.socks[i].key), NameOf(a, i));
    Grown(log, o);
    WithoutFits(a, a.clients, Replay(log), i);
    WithoutMembers(a.clients, i);
    assert Replay(log + [o]) == WithoutSock(Replay(log), i);
    forall k | 0 <= k < |b.clients| ensures Fits(b, b.clients[k], WithoutSock(Replay(log), i)[k]) {
      assert b.clients[k] in Without(a.clients, i);
      assert SameFields(a.socks[b.clients[k]], b.socks[b.clients[k]]);
    }
  }

  lemma ArriveMatch(a: Net, b: Net, log: Log, i: nat, key: string, name: string, uptime: int)
    requires Registered(a) && SessionsMatch(a, log) && Arrived(a, b, i, key, name, uptime) && !a.socks[i].authenticated
    ensures SessionsMatch(b, log + [LoggedIn(i, key, name)])
  {
    Grown(log, LoggedIn(i, key, name));
    assert i !in a.clients;
    forall k | 0 <= k < |a.clients| ensures Fits(b, b.clients[k], Replay(log)[k]) {
      assert a.clients[k] in a.clients;
      assert SameFields(a.socks[a.clients[k]], b.socks[a.clients[k]]);
    }
  }

  lemma MovesMatch(env: Env, s: State, e: Event, t: State)
    requires Registered(s.net) && Named(s) && SessionsMatch(s.net, s.log) && Moves(env, s, e, t)
    ensures SessionsMatch(t.net, t.log)
  {
    match KindOf(s, e)
    case Still => StillReplay(s.log, t.log); QuietMatch(s.net, t.net, s.log, t.log);
    case Enters(i, key, name) => ArriveMatch(s.net, t.net, s.log, i, key, name, Uptime(env, e.now));
    case Leaves(i, why) => DepartMatch(s.net, t.net, s.log, i, why);
    case _ => forall k | 0 <= k < |s.net.clients| ensures Fits(t.net, t.net.clients[k], Replay(t.log)[k]) {
      assert Fits(s.net, s.net.clients[k], Replay(s.log)[k]);
    }
  }

  /** The username a socket carries is the one its open session has in the history. */
  lemma NameMatches(net: Net, log: Log, i: nat)
    requires Registered(net) && SessionsMatch(net, log)
    ensures NameOf(net, i) == NameAt(log, i)
    ensures i < |net.socks| && net.socks[i].authenticated ==>
      exists k :: 0 <= k < |Replay(log)| && Fits(net, i, Replay(log)[k])
  {
    UserOfFirst(Replay(log), i);
    if i < |net.socks| && net.socks[i].authenticated {
      var k :| 0 <= k < |net.clients| && net.clients[k] == i;
      assert Fits(net, i, Replay(log)[k]);
      forall m | 0 <= m < |Replay(log)| && Replay(log)[m].sock == i ensures Replay(log)[m].user == NameOf(net, i) {
        assert Fits(net, net.clients[m], Replay(log)[m]);
      }
    } else {
      forall m | 0 <= m < |Replay(log)| ensures Replay(log)[m].sock != i {
        assert Fits(net, net.clients[m], Replay(log)[m]);
        assert net.clients[m] in net.clients;
      }
    }
  }

  lemma SessionAt(net: Net, log: Log, i: nat) returns (k: nat)
    requires Registered(net) && SessionsMatch(net, log) && i < |net.socks| && net.socks[i].authenticated
    ensures k < |Replay(log)| && Fits(net, i, Replay(log)[k])
  {
    k :| 0 <= k < |net.clients| && net.clients[k] == i;
    assert Fits(net, net.clients[k], Replay(log)[k]);
  }

  predicate HasSession(log: Log, i: nat) {
    exists k :: 0 <= k < |Replay(log)| && Replay(log)[k].sock == i
  }

  lemma SessionIffListed(net: Net, log: Log, i: nat)
    requires SessionsMatch(net, log)
    ensures i in net.clients <==> HasSession(log, i)
  {
    if i in net.clients {
      var k :| 0 <= k < |net.clients| && net.clients[k] == i;
      assert Fits(net, i, Replay(log)[k]);
    }
    if HasSession(log, i) {
      var k :| 0 <= k < |Replay(log)| && Replay(log)[k].sock == i;
      assert Fits(net, net.clients[k], Replay(log)[k]);
    }
  }

  /** Position `k` is the oldest open session of this user. */
  ghost predicate OldestOf(log: Log, k: int, user: string) {
    && 0 <= k < |Replay(log)| && Replay(log)[k].user == user
    && forall q :: 0 <= q < |Replay(log)| && Replay(log)[q].user == user ==> Replay(log)[k].since <= Replay(log)[q].since
  }

  /** The first listed socket of a name has the first of the name's sessions. */
  lemma FirstIsFirst(net: Net, log: Log, name: string, k: nat)
    requires SessionsMatch(net, log) && k < |net.clients| && Carries(net, k, name)
    requires forall q :: 0 <= q < k ==> !Carries(net, q, name)
    ensures Replay(log)[k].user == name && Replay(log)[k].sock == net.clients[k]
    ensures forall q :: 0 <= q < |Replay(log)| && Replay(log)[q].user == name ==> k <= q
  {
    assert Fits(net, net.clients[k], Replay(log)[k]);
    forall q | 0 <= q < |Replay(log)| && Replay(log)[q].user == name ensures k <= q {
      assert Fits(net, net.clients[q], Replay(log)[q]);
      assert Carries(net, q, name);
    }
  }

  /** `getSocketByUsername` finds the oldest open session of the user, if there is one. */
  lemma FindsOldest(net: Net, log: Log, name: string) returns (k: nat)
    requires Registered(net) && SessionsMatch(net, log) && Find(net, name).Some?
    ensures OldestOf(log, k, name) && Find(net, name) == Some(Replay(log)[k].sock)
  {
    FindFromFirst(net, 0, name);
    k :| 0 <= k < |net.clients| && Carries(net, k, name) && Find(net, name).value == net.clients[k]
      && forall q :: 0 <= q < k ==> !Carries(net, q, name);
    FirstIsFirst(net, log, name, k);
    FirstIsOldest(log, k, name);
  }

  lemma FirstIsOldest(log: Log, k: nat, name: string)
    requires k < |Replay(log)| && Replay(log)[k].user == name
    requires forall q :: 0 <= q < |Replay(log)| && Replay(log)[q].user == name ==> k <= q
    ensures OldestOf(log, k, name)
  {
    ReplayOrdered(log);
  }

  lemma {:induction false} UserOfFirst(sessions: seq<Session>, i: nat)
    ensures
      var u := UserOf(sessions, i);
      if u.Some? then exists k :: 0 <= k < |sessions| && sessions[k].sock == i && sessions[k].user == u.value
      else forall k :: 0 <= k < |sessions| ==> sessions[k].sock != i
  {
    if sessions == [] || sessions[0].sock == i {
    } else {
      var rest := sessions[1..];
      UserOfFirst(rest, i);
      if UserOf(rest, i).Some? {
        var k :| 0 <= k < |rest| && rest[k].sock == i && rest[k].user == UserOf(rest, i).value;
        assert sessions[k + 1] == rest[k];
      }
    }
  }

  /** `getSocketByUsername` finds somebody exactly when the history has that user online. */
  lemma FindMatches(net: Net, log: Log, name: string)
    requires Registered(net) && SessionsMatch(net, log)
    ensures Find(net, name).Some? <==> Online(log, name)
  {
    FindFromFirst(net, 0, name);
    if Find(net, name).Some? {
      var p :| 0 <= p < |net.clients| && Carries(net, p, name);
      assert Fits(net, net.clients[p], Replay(log)[p]);
    }
    if Online(log, name) {
      var k :| 0 <= k < |Replay(log)| && Replay(log)[k].user == name;
      assert Fits(net, net.clients[k], Replay(log)[k]);
      assert Carries(net, k, name);
    }
  }

  // ------------------------------------------------------------ the books, step by step

  predicate AboutKeys(o: Obs) {
    o.LoggedIn? || o.LoggedOut? || o.TimerRan?
  }

  /** Logins, logouts and timers do not disturb a database operation. */
  lemma LockKept(check: Check, table: map<string, string>, db: Db, log: Log, o: Obs)
    requires LockFits(check, table, db, log) && AboutKeys(o)
    ensures LockFits(check, table, db, log + [o])
  {
    var next := log + [o];
    Grown(log, o);
    assert LockOf(next) == LockOf(log) && TableOf(table, next) == TableOf(table, log);
    if db.locked {
      var op := LockOf(log).op;
      if db.ops[op].stage.Writing? {
        var user := db.ops[op].stage.user;
        var v :| VerifiedSince(log, v, op, user);
        VerifiedKept(log, o, v, op, user);
      } else if db.ops[op].stage.Written? {
        var b :| StoredAt(table, log, b, op);
        assert StoredAt(table, next, b, op);
      }
    }
  }

  lemma VerifiedKept(log: Log, o: Obs, v: int, op: nat, user: string)
    requires VerifiedSince(log, v, op, user) && AboutKeys(o)
    ensures VerifiedSince(log + [o], v, op, user)
  {
    assert (log + [o])[..v] == log[..v];
  }

  /** A step that adds one login, logout or timer entry and updates the keys as the history does. */
  lemma KeyEntry(env: Env, table: map<string, string>, s: State, t: State, o: Obs)
    requires Books(env, table, s) && AboutKeys(o)
    requires t.log == s.log + [o] && t.db == s.db
    requires t.keys == (if Removes(o, o.key) then s.keys - {o.key} else s.keys)
    requires t.timers == (if o.TimerRan? then s.timers - {o.issue} else s.timers)
    requires Justified(env.check, table, s.log, o)
    ensures Books(env, table, t)
  {
    Grown(s.log, o);
    LockKept(env.check, table, s.db, s.log, o);
    LawfulAppend(env.check, table, s.log, o);
  }

  lemma KillBooks(env: Env, table: map<string, string>, s: State, i: nat, why: string)
    requires Tracks(env, table, s) && i < |s.net.socks|
    ensures Books(env, table, Kill(s, i, why))
  {
    var t := Kill(s, i, why);
    if s.net.socks[i].authenticated {
      NameMatches(s.net, s.log, i);
      KeyEntry(env, table, s, t, LoggedOut(i, Printed(s.net.socks[i].key), Printed(s.net.socks[i].username)));
    } else {
      OutstandingLength(env.check, table, s.log);
      assert "false" !in s.keys;
      assert s.net.socks[i].key.None?;
      assert t.keys == s.keys;
    }
  }

  lemma PresentBooks(env: Env, table: map<string, string>, s: State, i: nat, key: string, now: int)
    requires Books(env, table, s) && i < |s.net.socks|
    ensures Books(env, table, PresentKey(env, s, i, key, now))
  {
    OutstandingLength(env.check, table, s.log);
    if key == DEBUG_KEY || key in s.keys {
      var name := if key == DEBUG_KEY then DEBUG_USER else s.keys[key];
      KeyEntry(env, table, s, PresentKey(env, s, i, key, now), LoggedIn(i, key, name));
    }
  }

  lemma AcquireBooks(env: Env, table: map<string, string>, s: State, job: Job)
    requires Books(env, table, s) && !s.db.locked
    requires job.Change? ==> job.user == NameAt(s.log, job.sock)
    ensures Books(env, table, Acquire(s, job))
  {
    Grown(s.log, Locked(|s.log|, job));
    LawfulAppend(env.check, table, s.log, Locked(|s.log|, job));
  }

  /** Closing the database, when this operation has it open: the lock file is there to be unlinked. */
  lemma ReleaseBooks(env: Env, table: map<string, string>, s: State, op: nat)
    requires Books(env, table, s) && op in s.db.ops
    ensures s.db.locked && Books(env, table, Release(s, op))
  {
    Grown(s.log, Unlocked(op));
    LawfulAppend(env.check, table, s.log, Unlocked(op));
    assert s.db.ops - {op} == map[];
  }

  lemma IssueBooks(env: Env, table: map<string, string>, s: State, op: nat, job: Job, found: Option<string>, draws: Draws)
    requires Books(env, table, s) && op in s.db.ops && s.db.ops[op] == Op(job, Fetched(found)) && job.Logon?
    requires found.Some? && env.check(job.password, found.value)
    ensures Books(env, table, Issue(Release(s, op), job.sock, job.user, KeyFrom(draws)))
  {
    ReleaseBooks(env, table, s, op);
    var s0 := Release(s, op);
    var o := Issued(KeyFrom(draws), job.user, job.sock);
    KeyWidth(draws);
    Grown(s.log, Unlocked(op));
    Grown(s0.log, o);
    assert s0.log[op] == s.log[op];
    assert TableOf(table, s0.log) == TableOf(table, s.log);
    LawfulAppend(env.check, table, s0.log, o);
  }

  lemma GetBooks(env: Env, table: map<string, string>, s: State, op: nat, draws: Draws, hash: string)
    requires Tracks(env, table, s)
    ensures Books(env, table, DoGet(env, s, op, draws, hash))
  {
    if op in s.db.ops && s.db.ops[op].stage.Fetched? {
      var o := s.db.ops[op];
      var found := o.stage.found;
      ReleaseBooks(env, table, s, op);
      if o.job.Logon? {
        if found.Some? && env.check(o.job.password, found.value) {
          IssueBooks(env, table, s, op, o.job, found, draws);
        }
      } else if ChangeVerdict(env, found, o.job.current).None? {
        VerifyBooks(env, table, s, op, hash);
      } else {
        assert DoGet(env, s, op, draws, hash) == ChangeRead(env, s, op, o.job, found, hash);
        var t := ChangeRead(env, s, op, o.job, found, hash);
        assert t == Release(s, op).(net := t.net);
      }
    }
  }

  lemma VerifyBooks(env: Env, table: map<string, string>, s: State, op: nat, hash: string)
    requires Tracks(env, table, s)
    requires op in s.db.ops && s.db.ops[op].stage.Fetched? && s.db.ops[op].job.Change?
    requires ChangeVerdict(env, s.db.ops[op].stage.found, s.db.ops[op].job.current).None?
    ensures Books(env, table, ChangeRead(env, s, op, s.db.ops[op].job, s.db.ops[op].stage.found, hash))
  {
    var o := s.db.ops[op];
    var entry := Verified(op, o.job.user, o.stage.found.value);
    Grown(s.log, entry);
    LawfulAppend(env.check, table, s.log, entry);
    NameMatches(s.net, s.log, o.job.sock);
    assert VerifiedSince(s.log + [entry], |s.log|, op, NameOf(s.net, o.job.sock));
  }

  lemma StoreBooks(env: Env, table: map<string, string>, s: State, op: nat)
    requires Books(env, table, s)
    ensures Books(env, table, DoStore(s, op))
  {
    if op in s.db.ops && s.db.ops[op].stage.Writing? {
      var user, hash := s.db.ops[op].stage.user, s.db.ops[op].stage.hash;
      var entry := Overwrote(op, user, Lookup(s.db.table, user), hash);
      Grown(s.log, entry);
      LawfulAppend(env.check, table, s.log, entry);
      assert StoredAt(table, s.log + [entry], |s.log|, op);
    }
  }

  lemma PutBooks(env: Env, table: map<string, string>, s: State, op: nat, fault: bool)
    requires Books(env, table, s)
    ensures Books(env, table, DoPut(s, op, fault))
  {
    if op in s.db.ops {
      ReleaseBooks(env, table, s, op);
    }
  }

  lemma TimerBooks(env: Env, table: map<string, string>, s: State, issue: nat)
    requires Tracks(env, table, s)
    ensures Books(env, table, DoTimer(s, issue))
  {
    if issue in s.timers {
      var timer := s.timers[issue];
      var net := SetPhase(s.net, timer.sock, KeyTimeout);
      assert Quiet(s.net, net);
      QuietRegistered(s.net, net);
      QuietMatch(s.net, net, s.log, s.log);
      FindMatches(net, s.log, timer.user);
      KeyEntry(env, table, s, DoTimer(s, issue), TimerRan(issue, timer.key, timer.user, Find(net, timer.user).Some?));
    }
  }

  lemma DataBooks(env: Env, table: map<string, string>, s: State, i: nat, req: Request, now: int)
    requires Tracks(env, table, s) && i < |s.net.socks|
    ensures Books(env, table, HandleMessage(env, s, i, req, now))
  {
    if s.net.socks[i].authenticated {
      MemberFrame(env, s, i, req, now);
      if req.Quit? {
        KillBooks(env, table, s, i, "Quit");
      } else if req.Password? {
        NameMatches(s.net, s.log, i);
        if ChangeRefusal(s.db.locked, req.current, req.password).None? {
          AcquireBooks(env, table, s, Change(i, NameOf(s.net, i), req.current, req.password));
        }
      }
    } else {
      var s0 := s.(net := SetPhase(s.net, i, NoAuth));
      assert Books(env, table, s0);
      if req.Key? && req.key != "" {
        PresentBooks(env, table, s0, i, req.key, now);
      } else if req.Auth? && req.username != "" && req.password != "" && !s.db.locked {
        AcquireBooks(env, table, s0, Logon(i, req.username, req.password));
      }
    }
  }

  // ------------------------------------------------------------ every run

  lemma StepBooks(env: Env, table: map<string, string>, s: State, e: Event)
    requires Tracks(env, table, s)
    ensures Books(env, table, Step(env, s, e))
  {
    match e
    case Data(i, Parsed(req), now) => if i < |s.net.socks| { DataBooks(env, table, s, i, req, now); }
    case Data(i, Garbled, now) => if i < |s.net.socks| { KillBooks(env, table, s, i, "Killed: indecent hacking"); }
    case Hangup(i) => if i < |s.net.socks| { KillBooks(env, table, s, i, "Connection terminated"); }
    case Fault(i) => if i < |s.net.socks| { KillBooks(env, table, s, i, "Connection error"); }
    case GetDone(op, draws, hash) => GetBooks(env, table, s, op, draws, hash);
    case Store(op) => StoreBooks(env, table, s, op);
    case PutDone(op, fault) => PutBooks(env, table, s, op, fault);
    case KeyTimer(issue) => TimerBooks(env, table, s, issue);
    case Fetch(op, fault) =>
    case Connect =>
  }

  lemma TracksStep(env: Env, table: map<string, string>, s: State, e: Event)
    requires Tracks(env, table, s)
    ensures Tracks(env, table, Step(env, s, e))
  {
    var t := Step(env, s, e);
    StepBooks(env, table, s, e);
    StepMoves(env, s, e);
    MovesRegistered(env, s, e, t);
    NamedStep(env, s, e);
    MovesMatch(env, s, e, t);
  }

  lemma {:induction false} TracksRun(env: Env, table: map<string, string>, s: State, events: seq<Event>)
    requires Tracks(env, table, s)
    ensures Tracks(env, table, Run(env, s, events))
    decreases |events|
  {
    if events == [] {
    } else {
      TracksStep(env, table, s, events[0]);
      TracksRun(env, table, Step(env, s, events[0]), events[1..]);
    }
  }

  lemma LogGrows(env: Env, s: State, e: Event)
    requires Registered(s.net) && Named(s)
    ensures s.log <= Step(env, s, e).log
  {
    StepMoves(env, s, e);
  }

  lemma {:induction false} RunKeepsLog(env: Env, table: map<string, string>, s: State, events: seq<Event>)
    requires Tracks(env, table, s)
    ensures s.log <= Run(env, s, events).log
    decreases |events|
  {
    if events == [] {
    } else {
      LogGrows(env, s, events[0]);
      TracksStep(env, table, s, events[0]);
      RunKeepsLog(env, table, Step(env, s, events[0]), events[1..]);
    }
  }

  /** After any sequence of events, in any interleaving. */
  lemma Reachable(env: Env, table: map<string, string>, events: seq<Event>)
    ensures Tracks(env, table, Run(env, Start(table), events))
  {
    TracksRun(env, table, Start(table), events);
  }
}

/** Runs that show the exceptions named elsewhere to happen: a session stranded on a destroyed socket, a private
    message lost although its target is online, a key revoked by somebody else's departure. */
module Witnesses {
  import opened Protocol
  import opened Registry
  import opened KeyGen
  import opened History
  import opened Machine
  import opened Sessions
  import opened Tracking
  import opened Promises

  /** Some events lead from one state to the other. */
  ghost predicate Leads(env: Env, s: State, t: State) {
    exists events :: Run(env, s, events) == t
  }

  lemma LeadsStep(env: Env, start: State, s: State, e: Event) returns (t: State)
    requires Leads(env, start, s)
    ensures t == Step(env, s, e) && Leads(env, start, t)
  {
    t := Step(env, s, e);
    var events :| Run(env, start, events) == s;
    RunConcat(env, start, events, [e]);
    assert [e][1..] == [] && Run(env, t, []) == t;
    assert Run(env, s, [e]) == t;
    assert Run(env, start, events + [e]) == t;
  }

  lemma LeadsTracks(env: Env, table: map<string, string>, s: State)
    requires Leads(env, Start(table), s)
    ensures Tracks(env, table, s)
  {
    var events :| Run(env, Start(table), events) == s;
    Reachable(env, table, events);
  }

  // ------------------------------------------------------------ pieces of a run

  /** A connection that is not logged in asks for a logon, while the database is free. */
  lemma AsksLogon(env: Env, s: State, i: nat, user: string, password: string)
    requires i < |s.net.socks| && !s.net.socks[i].authenticated && !s.db.locked && user != "" && password != ""
    ensures
      var t := Step(env, s, Data(i, Parsed(Auth(user, password)), 0));
      && t.net == SetPhase(s.net, i, NoAuth) && t.keys == s.keys
      && t.db == s.db.(locked := true, ops := s.db.ops[|s.log| := Op(Logon(i, user, password), Reading)])
  {
  }

  /** The record is read and matches. */
  lemma LogonSucceeds(env: Env, s: State, op: nat, draws: Draws)
    requires op in s.db.ops && s.db.ops[op].job.Logon? && s.db.ops[op].stage.Fetched?
    requires s.db.ops[op].stage.found.Some? && env.check(s.db.ops[op].job.password, s.db.ops[op].stage.found.value)
    ensures
      var t := Step(env, s, GetDone(op, draws, ""));
      var i := s.db.ops[op].job.sock;
      && t.net == Destroy(Write(SetPhase(s.net, i, WaitKey), i, RawKey(KeyFrom(draws))), i)
      && t.keys == s.keys[KeyFrom(draws) := s.db.ops[op].job.user]
      && t.db == s.db.(locked := false, ops := s.db.ops - {op})
  {
  }

  /** A connection presents a key that is accepted. */
  lemma KeyAdmits(env: Env, table: map<string, string>, s: State, i: nat, key: string)
    requires Tracks(env, table, s) && i < |s.net.socks| && !s.net.socks[i].authenticated && key != ""
    requires key == DEBUG_KEY || key in s.keys
    ensures
      var t := Step(env, s, Data(i, Parsed(Key(key)), 0));
      var name := if key == DEBUG_KEY then DEBUG_USER else s.keys[key];
      Arrived(s.net, t.net, i, key, name, Uptime(env, 0)) && t.keys == s.keys - {key} && t.db == s.db
  {
    StepMoves(env, s, Data(i, Parsed(Key(key)), 0));
  }

  /** Socket `i` carries a session of this user, on a connection that can or cannot be written to. */
  predicate Seated(net: Net, i: nat, name: string, destroyed: bool) {
    && i in net.clients && i < |net.socks|
    && net.socks[i].authenticated && net.socks[i].username == Some(name) && net.socks[i].destroyed == destroyed
  }

  /** With the debug key anybody is logged in as DEBUG-OPER, without a password and as often as asked. */
  lemma DebugNeedsNoPassword(env: Env, table: map<string, string>)
    ensures
      var s := Run(env, Start(table), [Connect, Data(0, Parsed(Key(DEBUG_KEY)), 0)]);
      Seated(s.net, 0, DEBUG_USER, false) && Logins(s.log, DEBUG_KEY) == 1 && Issues(s.log, DEBUG_KEY) == 0
  {
    var e := Data(0, Parsed(Key(DEBUG_KEY)), 0);
    RunTwo(env, Start(table), Connect, e);
    Reachable(env, table, []);
    var s := Step(env, Start(table), Connect);
    TracksStep(env, table, Start(table), Connect);
    KeyAdmits(env, table, s, 0, DEBUG_KEY);
    StepMoves(env, s, e);
    assert Step(env, s, e).log == [LoggedIn(0, DEBUG_KEY, DEBUG_USER)];
  }

  // ------------------------------------------------------------ a session on a destroyed socket

  /** A lone connection, not logged in, whose logon as bob is about to succeed. */
  predicate LookedUp(s: State) {
    && |s.net.socks| == 1 && s.net.clients == [] && !s.net.socks[0].authenticated && !s.net.socks[0].destroyed
    && s.keys == map[] && 0 in s.db.ops && s.db.ops[0] == Op(Logon(0, "bob", "secret"), Fetched(Some("hash")))
  }

  lemma BobIsLookedUp(env: Env) returns (s: State)
    ensures Leads(env, Start(map["bob" := "hash"]), s) && LookedUp(s)
  {
    var s0 := Start(map["bob" := "hash"]);
    assert Run(env, s0, []) == s0;
    var s1 := LeadsStep(env, s0, s0, Connect);
    AsksLogon(env, s1, 0, "bob", "secret");
    var s2 := LeadsStep(env, s0, s1, Data(0, Parsed(Auth("bob", "secret")), 0));
    s := LeadsStep(env, s0, s2, Fetch(0, false));
    assert s.net == s2.net && s.keys == map[];
  }

  /** Meanwhile it presents the debug key. */
  lemma DebugMeanwhile(env: Env) returns (s: State)
    ensures Leads(env, Start(map["bob" := "hash"]), s)
    ensures |s.net.socks| == 1 && s.net.clients == [0] && Seated(s.net, 0, DEBUG_USER, false)
    ensures s.keys == map[] && 0 in s.db.ops && s.db.ops[0] == Op(Logon(0, "bob", "secret"), Fetched(Some("hash")))
  {
    var table := map["bob" := "hash"];
    var s0 := BobIsLookedUp(env);
    LeadsTracks(env, table, s0);
    KeyAdmits(env, table, s0, 0, DEBUG_KEY);
    s := LeadsStep(env, Start(table), s0, Data(0, Parsed(Key(DEBUG_KEY)), 0));
  }

  /** Connection 0 asks for bob's logon, logs in with the debug key while the record is read, and is then answered. */
  lemma LogonStrands(env: Env, draws: Draws) returns (s: State)
    requires env.check("secret", "hash")
    ensures Leads(env, Start(map["bob" := "hash"]), s)
    ensures |s.net.socks| == 1 && s.net.clients == [0] && Seated(s.net, 0, DEBUG_USER, true) && Stranded(s.net, 0)
    ensures s.keys == map[KeyFrom(draws) := "bob"]
  {
    var s0 := DebugMeanwhile(env);
    LogonSucceeds(env, s0, 0, draws);
    s := LeadsStep(env, Start(map["bob" := "hash"]), s0, GetDone(0, draws, ""));
  }

  /** Or a connection is destroyed for an unknown request, and a later line of its chunk presents a key. */
  lemma DestroyedLogsIn(env: Env) returns (s: State)
    ensures Leads(env, Start(map[]), s) && Stranded(s.net, 0)
  {
    var s0 := Start(map[]);
    assert Run(env, s0, []) == s0;
    var s1 := LeadsStep(env, s0, s0, Connect);
    var s2 := LeadsStep(env, s0, s1, Data(0, Parsed(Unknown), 0));
    assert s2.net.socks[0].destroyed && !s2.net.socks[0].authenticated;
    LeadsTracks(env, map[], s2);
    KeyAdmits(env, map[], s2, 0, DEBUG_KEY);
    s := LeadsStep(env, s0, s2, Data(0, Parsed(Key(DEBUG_KEY)), 0));
  }

  // ------------------------------------------------------------ a message lost

  /** Opening a connection leaves every session where it is. */
  lemma ConnectKeeps(env: Env, s: State)
    ensures
      var t := Step(env, s, Connect);
      && t.net.clients == s.net.clients && t.keys == s.keys && t.net.socks == s.net.socks + [FRESH_SOCK]
      && forall i: nat, name, destroyed :: Seated(s.net, i, name, destroyed) ==> Seated(t.net, i, name, destroyed)
  {
  }

  /** So does a login on another connection. */
  lemma ArrivalKeeps(a: Net, b: Net, i: nat, key: string, name: string, uptime: int)
    requires Arrived(a, b, i, key, name, uptime) && !a.socks[i].authenticated
    ensures Seated(b, i, name, a.socks[i].destroyed)
    ensures forall j: nat, other, destroyed :: Seated(a, j, other, destroyed) ==> Seated(b, j, other, destroyed)
  {
    assert b.clients[|a.clients|] == i;
    forall j: nat, other, destroyed | Seated(a, j, other, destroyed) ensures Seated(b, j, other, destroyed) {
      assert j != i;
      assert SameFields(a.socks[j], b.socks[j]);
    }
  }

  lemma SecondConnection(env: Env, draws: Draws) returns (s: State)
    requires env.check("secret", "hash")
    ensures Leads(env, Start(map["bob" := "hash"]), s)
    ensures |s.net.socks| == 2 && s.net.clients == [0] && Seated(s.net, 0, DEBUG_USER, true)
    ensures s.net.socks[1] == FRESH_SOCK && s.keys == map[KeyFrom(draws) := "bob"]
  {
    var s0 := LogonStrands(env, draws);
    ConnectKeeps(env, s0);
    s := LeadsStep(env, Start(map["bob" := "hash"]), s0, Connect);
  }

  lemma DebugNotIssued(draws: Draws, user: string)
    ensures map[KeyFrom(draws) := user] - {DEBUG_KEY} == map[KeyFrom(draws) := user]
  {
    KeyWidth(draws);
    assert |DEBUG_KEY| == 5;
  }

  /** A second session of the stranded user, on a connection of its own. */
  lemma SecondSession(env: Env, draws: Draws) returns (s: State)
    requires env.check("secret", "hash")
    ensures Leads(env, Start(map["bob" := "hash"]), s)
    ensures |s.net.socks| == 2 && s.net.clients == [0, 1]
    ensures Seated(s.net, 0, DEBUG_USER, true) && Seated(s.net, 1, DEBUG_USER, false)
    ensures s.keys == map[KeyFrom(draws) := "bob"]
  {
    var table := map["bob" := "hash"];
    var s1 := SecondConnection(env, draws);
    LeadsTracks(env, table, s1);
    KeyAdmits(env, table, s1, 1, DEBUG_KEY);
    s := LeadsStep(env, Start(table), s1, Data(1, Parsed(Key(DEBUG_KEY)), 0));
    ArrivalKeeps(s1.net, s.net, 1, DEBUG_KEY, DEBUG_USER, Uptime(env, 0));
    DebugNotIssued(draws, "bob");
  }

  /** And bob, logged in on a third. */
  lemma BobLogsIn(env: Env, draws: Draws) returns (s: State)
    requires env.check("secret", "hash")
    ensures Leads(env, Start(map["bob" := "hash"]), s)
    ensures |s.net.socks| == 3 && s.net.clients == [0, 1, 2]
    ensures Seated(s.net, 0, DEBUG_USER, true) && Seated(s.net, 1, DEBUG_USER, false) && Seated(s.net, 2, "bob", false)
  {
    var table := map["bob" := "hash"];
    var s0 := SecondSession(env, draws);
    var s1 := LeadsStep(env, Start(table), s0, Connect);
    LeadsTracks(env, table, s1);
    var key := KeyFrom(draws);
    KeyWidth(draws);
    assert |DEBUG_KEY| == 5 && key != "";
    KeyAdmits(env, table, s1, 2, key);
    s := LeadsStep(env, Start(table), s1, Data(2, Parsed(Key(key)), 0));
  }

  /** Bob's message to a user with a live session reaches nobody: it is addressed to that user's older,
      stranded session, and bob is not told. */
  lemma MessageLost(env: Env, draws: Draws, body: string)
    requires env.check("secret", "hash")
    ensures exists s ::
      && Leads(env, Start(map["bob" := "hash"]), s)
      && Live(s.net, 2) && NameOf(s.net, 2) == "bob"
      && Live(s.net, 1) && NameOf(s.net, 1) == DEBUG_USER
      && HeardByNobody(s.net, Step(env, s, Data(2, Parsed(PrivMsg(DEBUG_USER, body)), 0)).net)
  {
    var s := BobLogsIn(env, draws);
    LeadsTracks(env, map["bob" := "hash"], s);
    assert Fits(s.net, s.net.clients[0], Replay(s.log)[0]);
    ReplayOrdered(s.log);
    assert OldestOf(s.log, 0, DEBUG_USER);
    PrivateReachesOldest(env, s, 2, DEBUG_USER, body, 0, 0);
  }

  // ------------------------------------------------------------ a key revoked

  /** Connection `i` logs on by password, while the database is free, and is issued a key. */
  lemma LogsOn(env: Env, start: State, s: State, i: nat, user: string, draws: Draws) returns (t: State)
    requires Leads(env, start, s) && i < |s.net.socks| && !s.net.socks[i].authenticated && !s.db.locked
    requires user != "" && Lookup(s.db.table, user) == Some("hash") && env.check("secret", "hash")
    ensures Leads(env, start, t)
    ensures t.keys == s.keys[KeyFrom(draws) := user] && !t.db.locked && t.db.table == s.db.table
    ensures t.net.clients == s.net.clients && |t.net.socks| == |s.net.socks|
    ensures forall j :: 0 <= j < |s.net.socks| ==> SameSession(s.net.socks[j], t.net.socks[j])
  {
    AsksLogon(env, s, i, user, "secret");
    var op := |s.log|;
    var s1 := LeadsStep(env, start, s, Data(i, Parsed(Auth(user, "secret")), 0));
    var s2 := LeadsStep(env, start, s1, Fetch(op, false));
    assert s2.db.ops[op] == Op(Logon(i, user, "secret"), Fetched(Some("hash"))) && s2.net == s1.net && s2.keys == s1.keys;
    LogonSucceeds(env, s2, op, draws);
    t := LeadsStep(env, start, s2, GetDone(op, draws, ""));
  }

  /** Alice is logged in with a key, and bob has been issued the same key. */
  lemma KeyIssuedTwice(env: Env, draws: Draws) returns (s: State)
    requires env.check("secret", "hash")
    ensures Leads(env, Start(map["alice" := "hash", "bob" := "hash"]), s)
    ensures |s.net.socks| == 3 && s.net.socks[1].authenticated && s.net.socks[1].username == Some("alice")
    ensures s.net.socks[1].key == Some(KeyFrom(draws)) && s.keys == map[KeyFrom(draws) := "bob"]
  {
    var table := map["alice" := "hash", "bob" := "hash"];
    var s0 := Start(table);
    var key := KeyFrom(draws);
    KeyWidth(draws);
    assert |DEBUG_KEY| == 5 && key != "";
    assert Run(env, s0, []) == s0;
    var s1 := LeadsStep(env, s0, s0, Connect);
    var s2 := LogsOn(env, s0, s1, 0, "alice", draws);
    var s3 := LeadsStep(env, s0, s2, Connect);
    LeadsTracks(env, table, s3);
    KeyAdmits(env, table, s3, 1, key);
    var s4 := LeadsStep(env, s0, s3, Data(1, Parsed(Key(key)), 0));
    var s5 := LeadsStep(env, s0, s4, Connect);
    s := LogsOn(env, s0, s5, 2, "bob", draws);
  }

  /** When alice's connection ends, the key bob was just given is no longer accepted. */
  lemma DepartureRevokes(env: Env, draws: Draws)
    requires env.check("secret", "hash")
    ensures exists s ::
      && Leads(env, Start(map["alice" := "hash", "bob" := "hash"]), s)
      && s.keys == map[KeyFrom(draws) := "bob"] && NameOf(s.net, 1) == "alice"
      && Step(env, s, Hangup(1)).keys == map[]
  {
    var s := KeyIssuedTwice(env, draws);
    assert Step(env, s, Hangup(1)).keys == map[];
  }
}

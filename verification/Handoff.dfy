/** The one-time key on its way through three processes: issued by the server to the gateway's connection,
    checked and passed on by the gateway, presented once by the program it starts. */
module Handoff {
  import opened Protocol
  import opened Registry
  import opened KeyGen
  import opened History
  import opened Machine
  import opened Sessions
  import opened Tracking
  import opened Answers
  import B = Board
  import G = Gateway
  import J = Json
  import L = Logon
  import T = Text

  /** bbs.js accepts a key argument of this length only. */
  predicate ShellAccepts(argument: string) {
    |argument| == 64
  }

  /** Nothing that was written in this step is a raw key. */
  ghost predicate NoNewKeys(a: Net, b: Net) {
    && |a.socks| <= |b.socks|
    && (forall i :: 0 <= i < |a.socks| ==> Unkeyed(a.socks[i], b.socks[i]))
    && (forall i :: |a.socks| <= i < |b.socks| ==> b.socks[i].out == [])
  }

  predicate Unkeyed(a: Sock, b: Sock) {
    a.out <= b.out && forall k :: |a.out| <= k < |b.out| ==> !b.out[k].RawKey?
  }

  /** Every raw key written to a connection was issued to it. */
  ghost predicate KeysLogged(s: State) {
    forall i, k :: 0 <= i < |s.net.socks| && 0 <= k < |s.net.socks[i].out| && s.net.socks[i].out[k].RawKey? ==>
      IssuedTo(s.log, s.net.socks[i].out[k].key, i)
  }

  ghost predicate IssuedTo(log: Log, key: string, i: nat) {
    exists a :: IssuedAt(log, a, key) && log[a].sock == i
  }

  lemma IssuedToGrows(log: Log, next: Log, key: string, i: nat)
    requires IssuedTo(log, key, i) && log <= next
    ensures IssuedTo(next, key, i)
  {
    var a :| IssuedAt(log, a, key) && log[a].sock == i;
    assert IssuedAt(next, a, key);
  }

  /** The event is the answer to a password logon. */
  predicate AnswersLogonOf(s: State, e: Event) {
    e.GetDone? && e.op in s.db.ops && s.db.ops[e.op].stage.Fetched? && s.db.ops[e.op].job.Logon?
  }

  lemma StepUnkeyed(env: Env, s: State, e: Event)
    requires Registered(s.net) && Named(s) && !AnswersLogonOf(s, e)
    ensures NoNewKeys(s.net, Step(env, s, e).net)
  {
    StepSaysOnly(env, s, e);
    forall i, k | 0 <= i < |s.net.socks| && |s.net.socks[i].out| <= k < |Step(env, s, e).net.socks[i].out|
      ensures !Step(env, s, e).net.socks[i].out[k].RawKey?
    {
      assert May(s, e, Step(env, s, e).net.socks[i].out[k]);
    }
  }

  lemma LogonKeysLogged(env: Env, s: State, op: nat, job: Job, found: Option<string>, draws: Draws)
    requires KeysLogged(s) && job.Logon?
    ensures KeysLogged(LogonDone(env, s, op, job, found, draws))
  {
    var t := LogonDone(env, s, op, job, found, draws);
    var key := KeyFrom(draws);
    if found.Some? && env.check(job.password, found.value) {
      assert t.log == s.log + [Unlocked(op), Issued(key, job.user, job.sock)];
      assert IssuedAt(t.log, |s.log| + 1, key);
      forall i, k | 0 <= i < |t.net.socks| && 0 <= k < |t.net.socks[i].out| && t.net.socks[i].out[k].RawKey?
        ensures IssuedTo(t.log, t.net.socks[i].out[k].key, i)
      {
        if k < |s.net.socks[i].out| {
          IssuedToGrows(s.log, t.log, s.net.socks[i].out[k].key, i);
        }
      }
    } else {
      KeysStayLogged(s, t);
    }
  }

  lemma KeysStayLogged(s: State, t: State)
    requires KeysLogged(s) && NoNewKeys(s.net, t.net) && s.log <= t.log
    ensures KeysLogged(t)
  {
    forall i, k | 0 <= i < |t.net.socks| && 0 <= k < |t.net.socks[i].out| && t.net.socks[i].out[k].RawKey?
      ensures IssuedTo(t.log, t.net.socks[i].out[k].key, i)
    {
      if i < |s.net.socks| {
        assert Unkeyed(s.net.socks[i], t.net.socks[i]);
        assert k < |s.net.socks[i].out| && s.net.socks[i].out[k] == t.net.socks[i].out[k];
        IssuedToGrows(s.log, t.log, s.net.socks[i].out[k].key, i);
      }
    }
  }

  lemma {:induction false} RunKeepsKeys(env: Env, table: map<string, string>, s: State, events: seq<Event>)
    requires Tracks(env, table, s) && KeysLogged(s)
    ensures KeysLogged(Run(env, s, events)) && s.log <= Run(env, s, events).log
    decreases |events|
  {
    if events == [] {
    } else {
      var t := Step(env, s, events[0]);
      LogGrows(env, s, events[0]);
      if AnswersLogonOf(s, events[0]) {
        var o := s.db.ops[events[0].op];
        LogonKeysLogged(env, s, events[0].op, o.job, o.stage.found, events[0].draws);
      } else {
        StepUnkeyed(env, s, events[0]);
        KeysStayLogged(s, t);
      }
      TracksStep(env, table, s, events[0]);
      RunKeepsKeys(env, table, t, events[1..]);
    }
  }

  // ------------------------------------------------------------ through the gateway

  lemma {:induction false} CTextWhole(key: string)
    requires forall k :: 0 <= k < |key| ==> key[k] != G.NUL
    ensures G.CText(key + [G.NUL]) == key
  {
    if key != "" {
      assert (key + [G.NUL])[1..] == key[1..] + [G.NUL];
      CTextWhole(key[1..]);
    } else {
      assert ("" + [G.NUL])[0] == G.NUL;
    }
  }

  /** A gateway session that is answered with a well-formed key admits its user and starts its program with
      exactly that key as argument. */
  lemma GatewayPassesKeyOn(g: G.Gate, user: string, pass: string, key: string, fork: int)
    requires WellFormedKey(key) && G.AcceptableLogin(user, pass) && fork > 0 && fork !in g.children
    ensures
      var h := G.ExecPty(G.OnAuth(g, user, pass, key), fork);
      h.authenticated && h.pid == fork && h.spawned == g.spawned + [(fork, key)] && ShellAccepts(key)
  {
    forall k | 0 <= k < |key| ensures key[k] != G.NUL { assert KeyChar(key[k]); }
    CTextWhole(key);
  }

  // ------------------------------------------------------------ what the gateway asks for

  /** Whom a line asks a logon for, when it arrives at a socket that is not logged in. */
  function Asked(line: Line): Option<(string, string)> {
    match line
    case Parsed(Auth(user, pass)) => if user != "" && pass != "" then Some((user, pass)) else None
    case _ => None
  }

  /** The parser reads logons as JSON. */
  ghost predicate ReadsLogons(parse: string -> Line) {
    forall text :: Asked(parse(text)) == L.LogonIn(text)
  }

  /** Connection `i` sends what `getkey` writes for these credentials, and nothing else. */
  ghost predicate SendsCredentials(events: seq<Event>, i: nat, parse: string -> Line, user: string, pass: string) {
    forall k :: 0 <= k < |events| && events[k].Data? && events[k].sock == i ==>
      exists text :: text in T.Received(G.Credentials(user, pass)) && events[k].line == parse(text)
  }

  /** The logons that connection `i` has asked for are all of this user with this password. */
  predicate AskedOnlyFor(log: Log, i: nat, user: string, pass: string) {
    forall op :: 0 <= op < |log| && log[op].Locked? && log[op].job.Logon? && log[op].job.sock == i ==>
      log[op].job.user == user && log[op].job.password == pass
  }

  predicate LogonEntry(o: Obs) {
    o.Locked? && o.job.Logon?
  }

  predicate AskedBy(log: Log, n: nat, i: nat, line: Line) {
    forall k :: n <= k < |log| && LogonEntry(log[k]) ==>
      i == log[k].job.sock && Asked(line) == Some((log[k].job.user, log[k].job.password))
  }

  lemma MessageAsked(env: Env, s: State, i: nat, req: Request, now: int)
    requires i < |s.net.socks|
    ensures AskedBy(HandleMessage(env, s, i, req, now).log, |s.log|, i, Parsed(req))
  {
    if s.net.socks[i].authenticated {
      MemberFrame(env, s, i, req, now);
      if req.Password? { assert HandleMessage(env, s, i, req, now) == StartChange(s, i, req.current, req.password); }
    }
  }

  lemma GetAsks(env: Env, s: State, op: nat, draws: Draws, hash: string)
    ensures var log := DoGet(env, s, op, draws, hash).log; forall k :: |s.log| <= k < |log| ==> !LogonEntry(log[k])
  {
    if op in s.db.ops && s.db.ops[op].stage.Fetched? && s.db.ops[op].job.Change? {
      assert DoGet(env, s, op, draws, hash) == ChangeRead(env, s, op, s.db.ops[op].job, s.db.ops[op].stage.found, hash);
    }
  }

  /** Every logon that a step starts was asked for by the line the step handles. */
  lemma StepAsked(env: Env, s: State, e: Event)
    ensures
      var log := Step(env, s, e).log;
      if e.Data? then AskedBy(log, |s.log|, e.sock, e.line)
      else forall k :: |s.log| <= k < |log| ==> !LogonEntry(log[k])
  {
    match e
    case Data(i, Parsed(req), now) => if i < |s.net.socks| { MessageAsked(env, s, i, req, now); }
    case GetDone(op, draws, hash) => GetAsks(env, s, op, draws, hash);
    case _ =>
  }

  lemma {:induction false} RunAsked(env: Env, table: map<string, string>, s: State, events: seq<Event>,
                                    i: nat, user: string, pass: string)
    requires Tracks(env, table, s) && AskedOnlyFor(s.log, i, user, pass)
    requires forall k :: 0 <= k < |events| && events[k].Data? && events[k].sock == i ==>
      Asked(events[k].line) == Some((user, pass))
    ensures AskedOnlyFor(Run(env, s, events).log, i, user, pass)
    decreases |events|
  {
    if events == [] {
    } else {
      var t := Step(env, s, events[0]);
      LogGrows(env, s, events[0]);
      StepAsked(env, s, events[0]);
      forall op | 0 <= op < |t.log| && LogonEntry(t.log[op]) && t.log[op].job.sock == i
        ensures t.log[op].job.user == user && t.log[op].job.password == pass
      {
        if op < |s.log| { assert t.log[op] == s.log[op]; }
      }
      TracksStep(env, table, s, events[0]);
      RunAsked(env, table, t, events[1..], i, user, pass);
    }
  }

  /** When nothing in the credentials needs an escape, what the gateway sends is a logon of the user who typed
      them, and its connection asks for no other. */
  lemma GatewayAsksForItsUser(env: Env, table: map<string, string>, events: seq<Event>,
                              i: nat, parse: string -> Line, user: string, pass: string)
    requires G.AcceptableLogin(user, pass) && J.Clean(user) && J.Clean(pass)
    requires ReadsLogons(parse) && SendsCredentials(events, i, parse, user, pass)
    ensures AskedOnlyFor(Run(env, Start(table), events).log, i, user, pass)
  {
    L.LogonReadBack(user, pass);
    assert J.Control(T.NEWLINE);
    L.CredentialsInOneLine(user, pass);
    forall k | 0 <= k < |events| && events[k].Data? && events[k].sock == i ensures Asked(events[k].line) == Some((user, pass)) {
      var text :| text in T.Received(G.Credentials(user, pass)) && events[k].line == parse(text);
      assert text == G.Credentials(user, pass);
    }
    Reachable(env, table, []);
    RunAsked(env, table, Start(table), events, i, user, pass);
  }

  /** The key was issued to this user when this password matched the user's record. */
  ghost predicate EarnedWith(check: Check, table: map<string, string>, log: Log, key: string, user: string, pass: string) {
    exists a :: IssuedAt(log, a, key) && log[a].user == user
      && Lookup(TableOf(table, log[..a]), user).Some? && check(pass, TableOf(table, log[..a])[user])
  }

  // ------------------------------------------------------------ the whole way

  /** The handoff.  The gateway's connection sends what `getkey` writes for the credentials typed, none of whose
      characters JSON would have to escape.  Then a key the server writes to it was earned with exactly these
      credentials, passes the gateway's and the shell's checks and reaches the program whole; and in whatever
      happens afterwards, if keys are fresh, it serves for at most one login, and that login is this user's. */
  lemma KeyHandoff(env: Env, table: map<string, string>, early: seq<Event>, late: seq<Event>, parse: string -> Line,
                   i: nat, k: nat, user: string, pass: string, g: G.Gate, fork: int)
    requires G.AcceptableLogin(user, pass) && J.Clean(user) && J.Clean(pass)
    requires ReadsLogons(parse) && SendsCredentials(early, i, parse, user, pass)
    requires
      var s := Run(env, Start(table), early);
      i < |s.net.socks| && k < |s.net.socks[i].out| && s.net.socks[i].out[k].RawKey?
    requires fork > 0 && fork !in g.children
    ensures
      var s := Run(env, Start(table), early);
      var t := Run(env, s, late);
      var key := s.net.socks[i].out[k].key;
      && WellFormedKey(key) && G.KeyGranted(user, pass, key) && ShellAccepts(key)
      && G.ExecPty(G.OnAuth(g, user, pass, key), fork).spawned == g.spawned + [(fork, key)]
      && EarnedWith(env.check, table, s.log, key, user, pass)
      && (Fresh(t.log) ==>
           && Logins(t.log, key) <= 1
           && forall b :: 0 <= b < |t.log| && t.log[b].LoggedIn? && t.log[b].key == key ==> t.log[b].user == user)
  {
    var s := Run(env, Start(table), early);
    var key := s.net.socks[i].out[k].key;
    GatewayAsksForItsUser(env, table, early, i, parse, user, pass);
    Reachable(env, table, []);
    RunKeepsKeys(env, table, Start(table), early);
    Reachable(env, table, early);
    assert IssuedTo(s.log, key, i);
    var a :| IssuedAt(s.log, a, key) && s.log[a].sock == i;
    IssuedToUser(env.check, table, s.log, a, i, user, pass);
    GatewayPassesKeyOn(g, user, pass, key, fork);
    ServesItsUser(env, table, s, late, a, key);
  }

  /** The other half: if keys are fresh, whoever presents the key later on is admitted if and only if it has been
      neither used nor timed out since it was issued, and is then logged in as the user who typed the credentials. */
  lemma KeyLetsIn(env: Env, table: map<string, string>, early: seq<Event>, late: seq<Event>, parse: string -> Line,
                  i: nat, k: nat, user: string, pass: string, j: nat, now: int)
    requires G.AcceptableLogin(user, pass) && J.Clean(user) && J.Clean(pass)
    requires ReadsLogons(parse) && SendsCredentials(early, i, parse, user, pass)
    requires
      var s := Run(env, Start(table), early);
      i < |s.net.socks| && k < |s.net.socks[i].out| && s.net.socks[i].out[k].RawKey?
    requires
      var t := Run(env, Run(env, Start(table), early), late);
      Fresh(t.log) && j < |t.net.socks| && !t.net.socks[j].authenticated
    ensures
      var s := Run(env, Start(table), early);
      var t := Run(env, s, late);
      var key := s.net.socks[i].out[k].key;
      exists a :: IssuedAt(s.log, a, key) && s.log[a].sock == i
        && Admits(env, t, j, key, user, now, forall m :: a < m < |t.log| ==> !Removes(t.log[m], key))
  {
    var s := Run(env, Start(table), early);
    var key := s.net.socks[i].out[k].key;
    GatewayAsksForItsUser(env, table, early, i, parse, user, pass);
    Reachable(env, table, []);
    RunKeepsKeys(env, table, Start(table), early);
    Reachable(env, table, early);
    assert IssuedTo(s.log, key, i);
    var a :| IssuedAt(s.log, a, key) && s.log[a].sock == i;
    IssuedToUser(env.check, table, s.log, a, i, user, pass);
    KeyDecides(env, table, s, late, a, j, now);
  }

  /** Presenting the key logs the connection in as this user if it should, and has it destroyed if not. */
  ghost predicate Admits(env: Env, t: State, j: nat, key: string, user: string, now: int, should: bool)
    requires j < |t.net.socks|
  {
    var u := Step(env, t, Data(j, Parsed(Key(key)), now));
    if should then Arrived(t.net, u.net, j, key, user, Uptime(env, now))
    else u.net == Destroy(SetPhase(t.net, j, NoAuth), j)
  }

  lemma KeyDecides(env: Env, table: map<string, string>, s: State, late: seq<Event>, a: int, j: nat, now: int)
    requires Tracks(env, table, s) && 0 <= a < |s.log| && s.log[a].Issued?
    requires WellFormedKey(s.log[a].key) && s.log[a].key != DEBUG_KEY
    requires var t := Run(env, s, late); Fresh(t.log) && j < |t.net.socks| && !t.net.socks[j].authenticated
    ensures
      var t := Run(env, s, late);
      var key := s.log[a].key;
      Admits(env, t, j, key, s.log[a].user, now, forall m :: a < m < |t.log| ==> !Removes(t.log[m], key))
  {
    var t, key := Run(env, s, late), s.log[a].key;
    TracksRun(env, table, s, late);
    RunKeepsLog(env, table, s, late);
    assert IssuedAt(t.log, a, key);
    FreshOutstanding(t.log, a, key);
    PresentedKey(env, table, t, j, key, now);
  }

  /** With fresh keys, a key is outstanding if and only if nothing has removed it since its one issue. */
  lemma FreshOutstanding(log: Log, a: int, key: string)
    requires Fresh(log) && IssuedAt(log, a, key)
    ensures key in Outstanding(log) <==> forall m :: a < m < |log| ==> !Removes(log[m], key)
    ensures key in Outstanding(log) ==> Outstanding(log)[key] == log[a].user
  {
    OutstandingIffIssued(log, key);
    forall c | IssuedAt(log, c, key) ensures c == a {
      IssuedOnce(log, a, c, key);
    }
    assert LastIssue(log, a, |log|, key);
  }

  /** What presenting a key other than the debug key does, exactly. */
  lemma PresentedKey(env: Env, table: map<string, string>, t: State, j: nat, key: string, now: int)
    requires Tracks(env, table, t) && j < |t.net.socks| && !t.net.socks[j].authenticated && key != "" && key != DEBUG_KEY
    ensures
      var u := Step(env, t, Data(j, Parsed(Key(key)), now));
      if key in t.keys then Arrived(t.net, u.net, j, key, t.keys[key], Uptime(env, now))
      else u.net == Destroy(SetPhase(t.net, j, NoAuth), j)
  {
    StepMoves(env, t, Data(j, Parsed(Key(key)), now));
  }

  /** Whatever happens later, if keys are fresh, a key serves at most one login, of the user it was issued to. */
  lemma ServesItsUser(env: Env, table: map<string, string>, s: State, late: seq<Event>, a: int, key: string)
    requires Tracks(env, table, s) && IssuedAt(s.log, a, key) && key != DEBUG_KEY
    ensures
      var t := Run(env, s, late);
      Fresh(t.log) ==>
        && Logins(t.log, key) <= 1
        && forall b :: 0 <= b < |t.log| && t.log[b].LoggedIn? && t.log[b].key == key ==> t.log[b].user == s.log[a].user
  {
    var t := Run(env, s, late);
    TracksRun(env, table, s, late);
    RunKeepsLog(env, table, s, late);
    if Fresh(t.log) {
      LoginsWithinIssues(env.check, table, t.log, key);
      forall b | 0 <= b < |t.log| && t.log[b].LoggedIn? && t.log[b].key == key ensures t.log[b].user == s.log[a].user {
        LoginIdentity(env.check, table, t.log, b);
        var c :| LastIssue(t.log, c, b, key) && t.log[c].user == t.log[b].user;
        IssuedOnce(t.log, a, c, key);
      }
    }
  }

  lemma IssuedToUser(check: Check, table: map<string, string>, log: Log, a: int, i: nat, user: string, pass: string)
    requires Lawful(check, table, log) && 0 <= a < |log| && log[a].Issued? && log[a].sock == i
    requires AskedOnlyFor(log, i, user, pass)
    ensures log[a].user == user && WellFormedKey(log[a].key) && log[a].key != DEBUG_KEY
    ensures EarnedWith(check, table, log, log[a].key, user, pass)
  {
    IssueIsEarned(check, table, log, a);
    var op, password :| 0 <= op < a - 1 && log[op] == Locked(op, Logon(log[a].sock, log[a].user, password))
      && Lookup(TableOf(table, log[..a]), log[a].user).Some? && check(password, TableOf(table, log[..a])[log[a].user]);
    assert |DEBUG_KEY| == 5;
    assert IssuedAt(log, a, log[a].key);
  }

  lemma {:induction false} IssuesAtLeast(log: Log, a: int, key: string)
    requires IssuedAt(log, a, key)
    ensures Issues(log, key) >= 1
  {
    if a == |log| - 1 {
    } else {
      assert IssuedAt(log[..|log| - 1], a, key);
      IssuesAtLeast(log[..|log| - 1], a, key);
    }
  }

  lemma {:induction false} IssuedOnce(log: Log, a: int, c: int, key: string)
    requires IssuedAt(log, a, key) && IssuedAt(log, c, key) && Issues(log, key) <= 1
    ensures a == c
  {
    var n := |log| - 1;
    var front := log[..n];
    if a < n && c < n {
      assert IssuedAt(front, a, key) && IssuedAt(front, c, key);
      IssuedOnce(front, a, c, key);
    } else if a != c {
      var least := if a < c then a else c;
      assert IssuedAt(front, least, key);
      IssuesAtLeast(front, least, key);
    }
  }
}

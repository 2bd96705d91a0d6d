/** What the session server promises of every run: sessions and routing, keys, passwords, the board. */
module Promises {
  import opened Protocol
  import opened Registry
  import opened KeyGen
  import opened History
  import opened Machine
  import opened Sessions
  import opened Tracking
  import B = Board
  import T = Text

  // ------------------------------------------------------------ the wire

  /** One chunk a client sends: whole messages, the clock while they are handled, and what happened before. */
  datatype Burst = Burst(before: seq<Event>, messages: seq<string>, clock: Clock)

  /** The server handles each chunk as the lines it receives. */
  function RunBursts(env: Env, s: State, i: nat, bursts: seq<Burst>, parse: string -> Line): State
    decreases |bursts|
  {
    if bursts == [] then s
    else
      var b := bursts[0];
      var lines := T.Received(T.Sent(b.messages));
      var t := Run(env, Run(env, s, b.before), ChunkEvents(i, lines, parse, b.clock, 0));
      RunBursts(env, t, i, bursts[1..], parse)
  }

  /** What should happen: every message handled once, in order, among the other events. */
  function Wanted(i: nat, bursts: seq<Burst>, parse: string -> Line): seq<Event> {
    if bursts == [] then []
    else
      var b := bursts[0];
      b.before + (ChunkEvents(i, b.messages, parse, b.clock, 0) + Wanted(i, bursts[1..], parse))
  }

  /** However a client's messages are cut into chunks at message boundaries, and whatever happens between the
      chunks, the server handles exactly those messages, each once and in order, provided that no encoding has
      a newline in it. */
  lemma {:induction false} SentMessagesAreHandled(env: Env, s: State, i: nat, bursts: seq<Burst>, parse: string -> Line)
    requires forall b, k :: 0 <= b < |bursts| && 0 <= k < |bursts[b].messages| ==> T.Frameable(bursts[b].messages[k])
    ensures RunBursts(env, s, i, bursts, parse) == Run(env, s, Wanted(i, bursts, parse))
    decreases |bursts|
  {
    if bursts == [] {
    } else {
      var b := bursts[0];
      var events := ChunkEvents(i, b.messages, parse, b.clock, 0);
      T.FramingRoundTrip(b.messages);
      var after := Run(env, Run(env, s, b.before), events);
      SentMessagesAreHandled(env, after, i, bursts[1..], parse);
      RunConcat(env, s, b.before, events + Wanted(i, bursts[1..], parse));
      RunConcat(env, Run(env, s, b.before), events, Wanted(i, bursts[1..], parse));
    }
  }

  // ------------------------------------------------------------ sessions

  /** After every run, `clients` holds each authenticated socket once and no other, in strictly
      increasing order of the logins that opened the sessions. */
  lemma RegistryInOrder(env: Env, table: map<string, string>, events: seq<Event>)
    ensures
      var s := Run(env, Start(table), events);
      && Registered(s.net)
      && SessionsMatch(s.net, s.log)
      && (forall k :: 0 <= k < |s.net.clients| ==> OpenedAt(s, k, Replay(s.log)[k].since))
      && Rising(Replay(s.log))
  {
    Reachable(env, table, events);
    var s := Run(env, Start(table), events);
    ReplayOrdered(s.log);
    forall k | 0 <= k < |s.net.clients| ensures OpenedAt(s, k, Replay(s.log)[k].since) {
      assert Fits(s.net, s.net.clients[k], Replay(s.log)[k]);
      assert Replay(s.log)[k] in Replay(s.log);
    }
  }

  /** Entry `since` of the history is the login of the `k`-th listed socket under the name it carries. */
  predicate OpenedAt(s: State, k: nat, since: nat) {
    && k < |s.net.clients| && since < |s.log| && s.log[since].LoggedIn?
    && s.log[since].sock == s.net.clients[k] && s.log[since].user == NameOf(s.net, s.net.clients[k])
    && s.net.clients[k] < |s.net.socks| && s.net.socks[s.net.clients[k]].key == Some(s.log[since].key)
  }

  /** Exactly one socket's output grows, by this reply: that of socket `j`. */
  predicate HeardBy(a: Net, b: Net, j: nat, reply: Reply) {
    && j < |a.socks| == |b.socks|
    && forall i :: 0 <= i < |a.socks| ==> b.socks[i].out == a.socks[i].out + if i == j then [reply] else []
  }

  /** No socket's output changes. */
  predicate HeardByNobody(a: Net, b: Net) {
    |a.socks| == |b.socks| && forall i :: 0 <= i < |a.socks| ==> b.socks[i].out == a.socks[i].out
  }

  /** The reply reaches socket `j` alone if that can be written to, and otherwise nobody at all. */
  predicate AddressedTo(a: Net, b: Net, j: nat, reply: Reply) {
    if j < |a.socks| && !a.socks[j].destroyed then HeardBy(a, b, j, reply) else HeardByNobody(a, b)
  }

  lemma WriteIsAddressed(net: Net, j: nat, reply: Reply)
    ensures AddressedTo(net, Write(net, j, reply), j, reply)
  {
  }

  /** A private message is addressed to the oldest session of its target; without one, an error to the sender. */
  lemma PrivateIsAddressed(env: Env, s: State, i: nat, target: string, body: string, now: int)
    requires Registered(s.net) && SessionsMatch(s.net, s.log) && i in s.net.clients && i < |s.net.socks| && target != ""
    ensures
      var t := Step(env, s, Data(i, Parsed(PrivMsg(target, body)), now));
      && (!Online(s.log, target) ==> AddressedTo(s.net, t.net, i, Error("No such user")))
      && (Online(s.log, target) ==>
           exists k :: OldestOf(s.log, k, target)
             && AddressedTo(s.net, t.net, Replay(s.log)[k].sock, PrivNote(NameAt(s.log, i), body)))
  {
    var t := Step(env, s, Data(i, Parsed(PrivMsg(target, body)), now));
    assert t == SendPrivate(s, i, target, body);
    NameMatches(s.net, s.log, i);
    FindMatches(s.net, s.log, target);
    if Find(s.net, target).Some? {
      var k := FindsOldest(s.net, s.log, target);
      WriteIsAddressed(s.net, Replay(s.log)[k].sock, PrivNote(NameAt(s.log, i), body));
    } else {
      WriteIsAddressed(s.net, i, Error("No such user"));
    }
  }

  /** Sending to an online target, exactly: the message appears in the output of one socket and no other if and
      only if the socket of the target's oldest session is not destroyed, and then it is that socket; otherwise
      nobody is told anything, whatever other sessions the target has. */
  lemma PrivateReachesOldest(env: Env, s: State, i: nat, target: string, body: string, now: int, k: nat)
    requires Registered(s.net) && SessionsMatch(s.net, s.log) && i in s.net.clients && i < |s.net.socks| && target != ""
    requires OldestOf(s.log, k, target)
    ensures
      var t := Step(env, s, Data(i, Parsed(PrivMsg(target, body)), now));
      var note := PrivNote(NameAt(s.log, i), body);
      && ((exists j :: HeardBy(s.net, t.net, j, note)) <==> Live(s.net, Replay(s.log)[k].sock))
      && (Live(s.net, Replay(s.log)[k].sock) ==> HeardBy(s.net, t.net, Replay(s.log)[k].sock, note))
      && (!Live(s.net, Replay(s.log)[k].sock) ==> HeardByNobody(s.net, t.net))
  {
    var t := Step(env, s, Data(i, Parsed(PrivMsg(target, body)), now));
    var note := PrivNote(NameAt(s.log, i), body);
    PrivateIsAddressed(env, s, i, target, body, now);
    var m :| OldestOf(s.log, m, target) && AddressedTo(s.net, t.net, Replay(s.log)[m].sock, note);
    OldestIsOne(s.log, k, m, target);
    assert Fits(s.net, s.net.clients[k], Replay(s.log)[k]);
    HeardExactly(s.net, t.net, Replay(s.log)[k].sock, note);
  }

  lemma HeardExactly(a: Net, b: Net, j: nat, reply: Reply)
    requires j < |a.socks| && AddressedTo(a, b, j, reply)
    ensures (exists i :: HeardBy(a, b, i, reply)) <==> !a.socks[j].destroyed
  {
    if a.socks[j].destroyed {
      forall i: nat ensures !HeardBy(a, b, i, reply) {
        if i < |a.socks| { assert |a.socks[i].out + [reply]| == |a.socks[i].out| + 1; }
      }
    } else {
      assert HeardBy(a, b, j, reply);
    }
  }

  lemma OldestIsOne(log: Log, k: nat, m: int, user: string)
    requires OldestOf(log, k, user) && OldestOf(log, m, user)
    ensures k == m
  {
    ReplayOrdered(log);
  }

  /** A public message reaches every other session that can be written to, each exactly once, and no other socket. */
  lemma PublicReachesOthers(env: Env, s: State, i: nat, body: string, now: int)
    requires Registered(s.net) && SessionsMatch(s.net, s.log) && i in s.net.clients && i < |s.net.socks|
    ensures
      var t := Step(env, s, Data(i, Parsed(PubMsg(body)), now));
      && t.net.clients == s.net.clients && |t.net.socks| == |s.net.socks|
      && forall j :: 0 <= j < |s.net.socks| ==>
           t.net.socks[j].out == s.net.socks[j].out +
             if j != i && HasSession(s.log, j) && !s.net.socks[j].destroyed then [PubNote(NameAt(s.log, i), body)] else []
  {
    var note := PubNote(NameOf(s.net, i), body);
    assert Step(env, s, Data(i, Parsed(PubMsg(body)), now)).net == WriteAll(s.net, s.net.clients, i, note);
    NameMatches(s.net, s.log, i);
    WriteAllReaches(s.net, s.net.clients, i, note);
    forall j | 0 <= j < |s.net.socks| ensures j in s.net.clients <==> HasSession(s.log, j) {
      SessionIffListed(s.net, s.log, j);
    }
  }

  /** A board command's reply is addressed to its sender alone; for a listing that is every stored thread exactly
      once and nothing else, soonest expiry first, however the engine's sort breaks ties. */
  lemma BoardReplyReachesSender(env: Env, s: State, i: nat, req: Request, now: int)
    requires Registered(s.net) && i in s.net.clients && i < |s.net.socks| && B.BoardRequest(req)
    requires B.Filed(s.shelf) && B.SortContract(env.sort)
    ensures
      var t := Step(env, s, Data(i, Parsed(req), now));
      var reply := B.Serve(env.sort, s.shelf, NameOf(s.net, i), req, now).1;
      && AddressedTo(s.net, t.net, i, reply)
      && (req.Threads? ==>
           && t.shelf == s.shelf && reply.ThreadList?
           && (forall th: Thread ::
                multiset(reply.topics)[th] == if th.id in s.shelf.threads && s.shelf.threads[th.id] == th then 1 else 0)
           && (forall a, b :: 0 <= a < b < |reply.topics| ==> B.Expiry(reply.topics[a]) <= B.Expiry(reply.topics[b])))
  {
    assert Step(env, s, Data(i, Parsed(req), now)) == ServeBoard(env, s, i, req, now);
    WriteIsAddressed(s.net, i, B.Serve(env.sort, s.shelf, NameOf(s.net, i), req, now).1);
    if req.Threads? {
      B.ListingOrder(env.sort, s.shelf, NameOf(s.net, i), now);
    }
  }

  /** A session that is still listed although its socket can no longer be written to. */
  predicate Stranded(net: Net, c: nat) {
    c in net.clients && c < |net.socks| && net.socks[c].destroyed
  }

  /** Exactly how that comes about: the answer to an earlier password logon arrives on a socket that has
      since logged in with a key, or a socket logs in that was already destroyed. */
  lemma StrandedExactly(env: Env, table: map<string, string>, s: State, e: Event, c: nat)
    requires Tracks(env, table, s) && !Stranded(s.net, c)
    ensures Stranded(Step(env, s, e).net, c) <==>
      || (Live(s.net, c) && e.GetDone? && AnswersLogon(s, e.op, c))
      || (KindOf(s, e).Enters? && KindOf(s, e).sock == c && s.net.socks[c].destroyed)
  {
    StepMoves(env, s, e);
    match KindOf(s, e)
    case Still =>
      if Live(s.net, c) { LiveStill(env, s, e, c); }
    case Leaves(i, why) => WithoutMembers(s.net.clients, i);
    case _ =>
  }

  predicate AnswersLogon(s: State, op: nat, c: nat) {
    op in s.db.ops && s.db.ops[op].stage.Fetched? && s.db.ops[op].job.Logon? && s.db.ops[op].job.sock == c
  }

  lemma LiveStill(env: Env, s: State, e: Event, c: nat)
    requires Registered(s.net) && KindOf(s, e).Still? && Live(s.net, c)
    ensures c < |Step(env, s, e).net.socks|
    ensures Step(env, s, e).net.socks[c].destroyed <==> e.GetDone? && AnswersLogon(s, e.op, c)
  {
    match e
    case Data(i, Parsed(req), now) =>
      if i < |s.net.socks| {
        if s.net.socks[i].authenticated { MemberSpares(env, s, i, req, now, c); }
        else { NewcomerSpares(env, s, i, req, now, c); }
      }
    case Data(i, Garbled, now) => KillSpares(s, i, "Killed: indecent hacking", c);
    case Hangup(i) => KillSpares(s, i, "Connection terminated", c);
    case Fault(i) => KillSpares(s, i, "Connection error", c);
    case GetDone(op, draws, hash) => GetSpares(env, s, op, draws, hash, c);
    case _ => QuietEventSpares(env, s, e, c);
  }

  lemma NewcomerSpares(env: Env, s: State, i: nat, req: Request, now: int, c: nat)
    requires i < |s.net.socks| && !s.net.socks[i].authenticated && KindOf(s, Data(i, Parsed(req), now)).Still?
    requires Registered(s.net) && Live(s.net, c)
    ensures c < |HandleNew(env, s, i, req, now).net.socks| && !HandleNew(env, s, i, req, now).net.socks[c].destroyed
  {
    var n0 := SetPhase(s.net, i, NoAuth);
    var t := HandleNew(env, s, i, req, now);
    assert t.net == n0 || t.net == Destroy(n0, i);
    assert c != i;
  }

  lemma KillSpares(s: State, i: nat, why: string, c: nat)
    requires Registered(s.net) && Live(s.net, c)
    ensures i < |s.net.socks| && !s.net.socks[i].authenticated ==>
      c < |Kill(s, i, why).net.socks| && !Kill(s, i, why).net.socks[c].destroyed
  {
  }

  lemma QuietEventSpares(env: Env, s: State, e: Event, c: nat)
    requires Live(s.net, c) && (e.Fetch? || e.Store? || e.PutDone? || e.KeyTimer? || e.Connect?)
    ensures c < |Step(env, s, e).net.socks| && !Step(env, s, e).net.socks[c].destroyed
  {
    match e
    case Fetch(op, fault) => assert Step(env, s, e).net == s.net;
    case Store(op) => assert Step(env, s, e).net == s.net;
    case _ =>
  }

  lemma GetSpares(env: Env, s: State, op: nat, draws: Draws, hash: string, c: nat)
    requires c < |s.net.socks| && !s.net.socks[c].destroyed
    ensures c < |DoGet(env, s, op, draws, hash).net.socks|
    ensures DoGet(env, s, op, draws, hash).net.socks[c].destroyed <==> AnswersLogon(s, op, c)
  {
    if op in s.db.ops && s.db.ops[op].stage.Fetched? && s.db.ops[op].job.Change? {
      assert DoGet(env, s, op, draws, hash) == ChangeRead(env, s, op, s.db.ops[op].job, s.db.ops[op].stage.found, hash);
    }
  }

  lemma MemberSpares(env: Env, s: State, i: nat, req: Request, now: int, c: nat)
    requires Registered(s.net) && i < |s.net.socks| && s.net.socks[i].authenticated && !req.Quit? && c < |s.net.socks|
    ensures c < |HandleMessage(env, s, i, req, now).net.socks|
    ensures HandleMessage(env, s, i, req, now).net.socks[c].destroyed == s.net.socks[c].destroyed
  {
    match req
    case PubMsg(body) => WriteAllReaches(s.net, s.net.clients, i, PubNote(NameOf(s.net, i), body));
    case PrivMsg(target, body) =>
      assert target != "" ==> HandleMessage(env, s, i, req, now) == SendPrivate(s, i, target, body);
    case Password(current, password) => assert HandleMessage(env, s, i, req, now) == StartChange(s, i, current, password);
    case _ =>
  }

  // ------------------------------------------------------------ keys

  /** Identity and at most once: after any run, a key other than the debug key has served no more logins
      than it was issued, counting it as one more while it is still outstanding; an authenticated socket
      carries the username its key was last issued to before that login, and the key was earned by a
      successful password check for that user; outstanding keys are 64 characters, `debug` never is one. */
  lemma KeysServeTheirUsers(env: Env, table: map<string, string>, events: seq<Event>)
    ensures
      var s := Run(env, Start(table), events);
      && (forall key :: key != DEBUG_KEY ==> Logins(s.log, key) + (if key in s.keys then 1 else 0) <= Issues(s.log, key))
      && (forall key :: key in s.keys ==> |key| == 64 && key != DEBUG_KEY)
      && (forall i :: 0 <= i < |s.net.socks| && s.net.socks[i].authenticated ==> EarnedSession(env.check, table, s, i))
  {
    Reachable(env, table, events);
    var s := Run(env, Start(table), events);
    forall key | key != DEBUG_KEY ensures Logins(s.log, key) + (if key in s.keys then 1 else 0) <= Issues(s.log, key) {
      LoginsWithinIssues(env.check, table, s.log, key);
    }
    OutstandingLength(env.check, table, s.log);
    assert |DEBUG_KEY| == 5;
    forall i | 0 <= i < |s.net.socks| && s.net.socks[i].authenticated ensures EarnedSession(env.check, table, s, i) {
      SessionIsEarned(env, table, s, i);
    }
  }

  ghost predicate EarnedSession(check: Check, table: map<string, string>, s: State, i: nat)
    requires i < |s.net.socks|
  {
    var key, user := Printed(s.net.socks[i].key), NameOf(s.net, i);
    if key == DEBUG_KEY then user == DEBUG_USER
    else exists a, b :: LastIssue(s.log, a, b, key) && b < |s.log| && s.log[b] == LoggedIn(i, key, user)
           && s.log[a].user == user && EarnedIssue(check, table, s.log, a)
  }

  ghost predicate EarnedIssue(check: Check, table: map<string, string>, log: Log, a: int)
    requires 0 <= a < |log| && log[a].Issued?
  {
    exists op, password :: 0 <= op < a && log[op] == Locked(op, Logon(log[a].sock, log[a].user, password))
      && Lookup(TableOf(table, log[..a]), log[a].user).Some? && check(password, TableOf(table, log[..a])[log[a].user])
  }

  lemma SessionIsEarned(env: Env, table: map<string, string>, s: State, i: nat)
    requires Tracks(env, table, s) && i < |s.net.socks| && s.net.socks[i].authenticated
    ensures EarnedSession(env.check, table, s, i)
  {
    var k := SessionAt(s.net, s.log, i);
    ReplayOrdered(s.log);
    var x := Replay(s.log)[k];
    assert s.log[x.since] == LoggedIn(i, x.key, x.user);
    if x.key == DEBUG_KEY {
      assert Justified(env.check, table, s.log[..x.since], s.log[x.since]);
    } else {
      LoginIdentity(env.check, table, s.log, x.since);
      var a :| LastIssue(s.log, a, x.since, x.key) && s.log[a].user == x.user;
      IssueIsEarned(env.check, table, s.log, a);
      assert EarnedIssue(env.check, table, s.log, a);
    }
  }

  /** Timer safety: an outstanding key's timer is still to fire, or it found the key's user with a session;
      so a login with a key whose timer has fired is a login of someone who was online at that moment. */
  lemma TimersSpareOnlyTheOnline(env: Env, table: map<string, string>, events: seq<Event>)
    ensures
      var s := Run(env, Start(table), events);
      && (forall key :: key in s.keys ==>
           exists a :: LastIssue(s.log, a, |s.log|, key) && s.log[a].user == s.keys[key] && TimerPendingOrSpared(s.log, a))
      && (forall b :: 0 <= b < |s.log| && s.log[b].LoggedIn? && s.log[b].key != DEBUG_KEY ==>
           exists a :: LastIssue(s.log, a, b, s.log[b].key) && TimerPendingOrSpared(s.log[..b], a))
  {
    Reachable(env, table, events);
    var s := Run(env, Start(table), events);
    forall key | key in s.keys
      ensures exists a :: LastIssue(s.log, a, |s.log|, key) && s.log[a].user == s.keys[key] && TimerPendingOrSpared(s.log, a)
    {
      TimerSpares(env.check, table, s.log, key);
    }
    forall b | 0 <= b < |s.log| && s.log[b].LoggedIn? && s.log[b].key != DEBUG_KEY
      ensures exists a :: LastIssue(s.log, a, b, s.log[b].key) && TimerPendingOrSpared(s.log[..b], a)
    {
      LoginIdentity(env.check, table, s.log, b);
    }
  }

  /** With fresh keys, ending any connection leaves every outstanding key in place. */
  lemma KillRevokesNothing(env: Env, table: map<string, string>, s: State, i: nat, why: string)
    requires Tracks(env, table, s) && Fresh(s.log) && i < |s.net.socks|
    ensures Kill(s, i, why).keys == s.keys
  {
    OutstandingLength(env.check, table, s.log);
    if s.net.socks[i].authenticated {
      var k := SessionAt(s.net, s.log, i);
      if Replay(s.log)[k].key != DEBUG_KEY { OpenKeyIsSpent(env.check, table, s.log, k); }
    }
  }

  /** The key that a session of socket `i` logged in with was issued again after that login, and
      since that issue it has been neither used nor ended nor timed out. */
  ghost predicate IssuedAnew(s: State, i: nat, key: string) {
    exists b, a :: 0 <= b < a && LastIssue(s.log, a, |s.log|, key) && s.log[b] == LoggedIn(i, key, NameOf(s.net, i))
      && forall m :: a < m < |s.log| ==> !Removes(s.log[m], key)
  }

  /** Without that assumption, exactly: ending a connection revokes a key if and only if the socket is logged in
      and the key of that very session has been issued anew since its login and not been removed again. */
  lemma KillRevokesReissued(env: Env, table: map<string, string>, s: State, i: nat, why: string)
    requires Tracks(env, table, s) && i < |s.net.socks|
    ensures Kill(s, i, why).keys != s.keys <==>
      s.net.socks[i].authenticated && IssuedAnew(s, i, Printed(s.net.socks[i].key))
  {
    var key := Printed(s.net.socks[i].key);
    OutstandingLength(env.check, table, s.log);
    OutstandingIffIssued(s.log, key);
    if s.net.socks[i].authenticated && key in s.keys {
      SessionReissued(env, table, s, i);
      assert key !in Kill(s, i, why).keys;
    }
  }

  lemma SessionReissued(env: Env, table: map<string, string>, s: State, i: nat)
    requires Tracks(env, table, s) && i < |s.net.socks| && s.net.socks[i].authenticated
    requires Printed(s.net.socks[i].key) in s.keys
    ensures IssuedAnew(s, i, Printed(s.net.socks[i].key))
  {
    var key := Printed(s.net.socks[i].key);
    var k := SessionAt(s.net, s.log, i);
    ReplayOrdered(s.log);
    OutstandingIffIssued(s.log, key);
    var a :| LastIssue(s.log, a, |s.log|, key) && forall m :: a < m < |s.log| ==> !Removes(s.log[m], key);
    var b := Replay(s.log)[k].since;
    assert s.log[b] == LoggedIn(i, key, NameOf(s.net, i)) && Removes(s.log[b], key);
    assert a != b;
  }

  // ------------------------------------------------------------ the database

  /** Lock discipline: after every event the lock file exists exactly while one operation is in flight,
      never two; every lock entry of the history alternates with the release that undoes it. */
  lemma LockDiscipline(env: Env, table: map<string, string>, events: seq<Event>)
    ensures
      var s := Run(env, Start(table), events);
      && |s.db.ops| == (if s.db.locked then 1 else 0)
      && (forall b :: 0 <= b < |s.log| && s.log[b].Unlocked? ==> UndoesLast(s.log, b))
      && (forall b, c :: 0 <= c < b < |s.log| && s.log[b].Locked? && s.log[c].Locked? ==> ReleasedBetween(s.log, c, b))
  {
    Reachable(env, table, events);
    var s := Run(env, Start(table), events);
    OpsCount(env, table, s);
    forall b | 0 <= b < |s.log| && s.log[b].Unlocked? ensures UndoesLast(s.log, b) {
      LockAlternates(env.check, table, s.log, b);
    }
    forall b, c | 0 <= c < b < |s.log| && s.log[b].Locked? && s.log[c].Locked? ensures ReleasedBetween(s.log, c, b) {
      ReleasedBefore(env.check, table, s.log, b, c);
    }
  }

  /** The release at `b` undoes the acquisition that is the last lock entry before it. */
  predicate UndoesLast(log: Log, b: int)
    requires 0 <= b < |log| && log[b].Unlocked?
  {
    var a := log[b].op;
    a < b && log[a].Locked? && log[a].op == a && forall c :: a < c < b ==> !AboutLock(log[c])
  }

  /** The operation that started at `c` released the lock before `b`. */
  predicate ReleasedBetween(log: Log, c: int, b: int)
    requires 0 <= c <= b <= |log|
  {
    exists u :: c < u < b && log[u] == Unlocked(c)
  }

  lemma OpsCount(env: Env, table: map<string, string>, s: State)
    requires Tracks(env, table, s)
    ensures |s.db.ops| == if s.db.locked then 1 else 0
  {
    if s.db.locked {
      assert s.db.ops.Keys == {LockOf(s.log).op};
      assert |s.db.ops| == |s.db.ops.Keys|;
    }
  }

  lemma {:induction false} ReleasedBefore(check: Check, table: map<string, string>, log: Log, b: int, c: int)
    requires Lawful(check, table, log)
    requires 0 <= c < b < |log| && log[b].Locked? && log[c].Locked?
    ensures ReleasedBetween(log, c, b)
    decreases b
  {
    LockAlternates(check, table, log, b);
    assert AboutLock(log[c]);
    var u :| 0 <= u < b && log[u].Unlocked? && forall d :: u < d < b ==> !AboutLock(log[d]);
    LockAlternates(check, table, log, u);
    LockEntry(check, table, log, c);
    var a := log[u].op;
    if c < a {
      ReleasedBefore(check, table, log, a, c);
      var w :| c < w < a && log[w] == Unlocked(c);
      assert log[w] == Unlocked(c);
    } else {
      assert c == a;
      assert log[u] == Unlocked(c);
    }
  }

  /** Compare-and-swap, in every run: each record a password change overwrote is the record whose hash the
      current password was checked against, if and only if the socket carried the same username when the
      change was asked for and when the check was made; in the other case the checked record stays. */
  lemma PasswordChangesCompareAndSwap(env: Env, table: map<string, string>, events: seq<Event>, b: int)
    requires 0 <= b < |Run(env, Start(table), events).log| && Run(env, Start(table), events).log[b].Overwrote?
    ensures exists v :: SwapOf(env.check, table, Run(env, Start(table), events).log, v, b)
  {
    Reachable(env, table, events);
    ChangeIsCompareAndSwap(env.check, table, Run(env, Start(table), events).log, b);
  }

  lemma {:induction false} RunConcat(env: Env, s: State, a: seq<Event>, b: seq<Event>)
    ensures Run(env, s, a + b) == Run(env, Run(env, s, a), b)
    decreases |a|
  {
    if a == [] {
      assert a + b == b;
    } else {
      assert (a + b)[1..] == a[1..] + b;
      RunConcat(env, Step(env, s, a[0]), a[1..], b);
    }
  }

  lemma RunTwo(env: Env, s: State, a: Event, b: Event)
    ensures Run(env, s, [a, b]) == Step(env, Step(env, s, a), b)
  {
    var t := Step(env, s, a);
    assert [a, b][0] == a && [a, b][1..] == [b] && [b][1..] == [];
    assert Run(env, s, [a, b]) == Run(env, t, [b]);
    assert Run(env, t, [b]) == Run(env, Step(env, t, b), []);
  }

  lemma RunFour(env: Env, s: State, a: seq<Event>, b: seq<Event>, c: seq<Event>, d: seq<Event>)
    ensures Run(env, s, a + (b + (c + d))) == Run(env, Run(env, Run(env, Run(env, s, a), b), c), d)
  {
    RunConcat(env, s, a, b + (c + d));
    RunConcat(env, Run(env, s, a), b, c + d);
    RunConcat(env, Run(env, Run(env, s, a), b), c, d);
  }

  /** One logged-in connection, number 0, and this database. */
  ghost predicate Alone(s: State, user: string, db: Db, length: nat) {
    |s.net.socks| == 1 && s.net.clients == [0] && s.net.socks[0].authenticated && NameOf(s.net, 0) == user
    && s.db == db && |s.log| == length
  }

  /** The database while a password change of the debug user has its record read. */
  function Reading(table: map<string, string>, current: string, password: string, found: Option<string>): Db {
    Db(table, true, map[1 := Op(Change(0, DEBUG_USER, current, password), Fetched(found))])
  }

  lemma DebugLogsIn(env: Env, table: map<string, string>) returns (events: seq<Event>)
    ensures Alone(Run(env, Start(table), events), DEBUG_USER, Db(table, false, map[]), 1)
  {
    var e := Data(0, Parsed(Key(DEBUG_KEY)), 0);
    events := [Connect, e];
    RunTwo(env, Start(table), Connect, e);
    var s := Step(env, Start(table), Connect);
    assert s.net == Net([FRESH_SOCK], []);
    StepMoves(env, s, e);
    assert Step(env, s, e).db == s.db;
  }

  lemma ChangeIsRead(env: Env, s: State, current: string, password: string, table: map<string, string>)
    returns (events: seq<Event>)
    requires Alone(s, DEBUG_USER, Db(table, false, map[]), 1) && ChangeRefusal(false, current, password).None?
    ensures Alone(Run(env, s, events), DEBUG_USER,
                  Reading(table, current, password, Lookup(table, DEBUG_USER)), 2)
  {
    var e := Data(0, Parsed(Password(current, password)), 0);
    events := [e, Fetch(1, false)];
    RunTwo(env, s, e, Fetch(1, false));
    assert Step(env, s, e) == Acquire(s, Change(0, DEBUG_USER, current, password));
  }

  lemma SessionEnds(env: Env, s: State, table: map<string, string>, current: string, password: string,
                    draws: Draws, hash: string)
    returns (events: seq<Event>)
    requires DEBUG_USER in table && env.check(current, table[DEBUG_USER])
    requires Alone(s, DEBUG_USER, Reading(table, current, password, Some(table[DEBUG_USER])), 2)
    ensures
      var db := Run(env, s, events).db;
      db.table == table && 1 in db.ops && db.ops[1].stage == Writing("false", hash)
  {
    events := [Hangup(0), GetDone(1, draws, hash)];
    RunTwo(env, s, Hangup(0), GetDone(1, draws, hash));
    var t := Step(env, s, Hangup(0));
    assert t.net == Drop(s.net, 0, "Connection terminated") && t.db == s.db;
    assert NameOf(t.net, 0) == "false";
    assert Step(env, t, GetDone(1, draws, hash)) == ChangeRead(env, t, 1, t.db.ops[1].job, t.db.ops[1].stage.found, hash);
  }

  lemma WriteLands(env: Env, s: State, user: string, hash: string) returns (events: seq<Event>)
    requires 1 in s.db.ops && s.db.ops[1].stage == Writing(user, hash)
    ensures Run(env, s, events).db.table == s.db.table[user := hash]
  {
    events := [Store(1)];
    assert events[1..] == [] && Run(env, s, events) == Run(env, Step(env, s, Store(1)), []);
  }

  /** A run in which the condition fails: the session ends between the request and the check, the name is then
      read as `false`, and the new hash is filed there while the user's own record stays. */
  lemma ChangeCanMissItsRecord(env: Env, draws: Draws)
    requires env.check("current", "old")
    ensures exists events ::
      Run(env, Start(map[DEBUG_USER := "old"]), events).db.table == map[DEBUG_USER := "old", "false" := "new"]
  {
    var table := map[DEBUG_USER := "old"];
    assert |"new password"| == 12;
    var es1 := DebugLogsIn(env, table);
    var s1 := Run(env, Start(table), es1);
    var es2 := ChangeIsRead(env, s1, "current", "new password", table);
    var s2 := Run(env, s1, es2);
    var es3 := SessionEnds(env, s2, table, "current", "new password", draws, "new");
    var s3 := Run(env, s2, es3);
    var es4 := WriteLands(env, s3, "false", "new");
    RunFour(env, Start(table), es1, es2, es3, es4);
    assert Run(env, Start(table), es1 + (es2 + (es3 + es4))).db.table == map[DEBUG_USER := "old", "false" := "new"];
  }

  // ------------------------------------------------------------ the board

  /** One event leaves the board alone, or is a board command of a logged-in user and does what it may. */
  lemma BoardStep(env: Env, table: map<string, string>, s: State, e: Event)
    requires Tracks(env, table, s) && B.Filed(s.shelf)
    ensures B.Filed(Step(env, s, e).shelf)
    ensures
      || Step(env, s, e).shelf == s.shelf
      || (e.Data? && e.line.Parsed? && e.sock in s.net.clients
          && B.Evolves(s.shelf, Step(env, s, e).shelf, NameAt(s.log, e.sock)))
    ensures forall id :: id in s.shelf.threads && id !in Step(env, s, e).shelf.threads ==>
      e.Data? && e.line == Parsed(DeleteThread(id))
  {
    if e.Data? && e.line.Parsed? && e.sock < |s.net.socks| && s.net.socks[e.sock].authenticated {
      NameMatches(s.net, s.log, e.sock);
      MemberShelf(env, s, e.sock, e.line.request, e.now);
    } else {
      OtherShelf(env, s, e);
    }
  }

  lemma MemberShelf(env: Env, s: State, i: nat, req: Request, now: int)
    requires i < |s.net.socks| && s.net.socks[i].authenticated && B.Filed(s.shelf)
    ensures
      var t := HandleMessage(env, s, i, req, now);
      && B.Filed(t.shelf) && (t.shelf == s.shelf || B.Evolves(s.shelf, t.shelf, NameOf(s.net, i)))
      && forall id :: id in s.shelf.threads && id !in t.shelf.threads ==> req == DeleteThread(id)
  {
    MemberFrame(env, s, i, req, now);
    if B.BoardRequest(req) {
      B.ServeEvolves(env.sort, s.shelf, NameOf(s.net, i), req, now);
      assert HandleMessage(env, s, i, req, now) == ServeBoard(env, s, i, req, now);
    }
  }

  lemma OtherShelf(env: Env, s: State, e: Event)
    requires e.Data? && e.line.Parsed? && e.sock < |s.net.socks| ==> !s.net.socks[e.sock].authenticated
    ensures Step(env, s, e).shelf == s.shelf
  {
    match e
    case GetDone(op, draws, hash) =>
      if op in s.db.ops && s.db.ops[op].stage.Fetched? && s.db.ops[op].job.Change? {
        assert Step(env, s, e) == ChangeRead(env, s, op, s.db.ops[op].job, s.db.ops[op].stage.found, hash);
      }
    case _ =>
  }

  /** The shelf later in a run: threads keep everything but gain messages, and no id is ever used twice. */
  ghost predicate Later(a: B.Shelf, b: B.Shelf) {
    && a.next <= b.next
    && (forall id :: id in a.threads && id in b.threads ==> B.Continues(a.threads[id], b.threads[id]))
    && (forall id :: id in b.threads && id !in a.threads ==> id >= a.next)
  }

  /** Somewhere in these events, a session of this user sends the delete command that removes the thread. */
  ghost predicate RemovedBy(env: Env, s: State, events: seq<Event>, id: int, user: string)
    decreases |events|
  {
    events != [] && (
      || (id in s.shelf.threads && id !in Step(env, s, events[0]).shelf.threads
          && events[0].Data? && events[0].line == Parsed(DeleteThread(id))
          && events[0].sock in s.net.clients && NameAt(s.log, events[0].sock) == user)
      || RemovedBy(env, Step(env, s, events[0]), events[1..], id, user))
  }

  /** Board history, over any stretch of any run: stored threads are filed under their own ids below the next
      id; a thread changes only by messages at its end; an id that was ever given out never names another
      thread; and a thread disappears only by the delete command of a session of its creator. */
  lemma {:induction false} BoardHistory(env: Env, table: map<string, string>, s: State, events: seq<Event>)
    requires Tracks(env, table, s) && B.Filed(s.shelf)
    ensures B.Filed(Run(env, s, events).shelf) && Later(s.shelf, Run(env, s, events).shelf)
    ensures forall id :: id in s.shelf.threads && id !in Run(env, s, events).shelf.threads ==>
      RemovedBy(env, s, events, id, s.shelf.threads[id].username)
    decreases |events|
  {
    if events == [] {
    } else {
      var t := Step(env, s, events[0]);
      BoardStep(env, table, s, events[0]);
      TracksStep(env, table, s, events[0]);
      BoardHistory(env, table, t, events[1..]);
      var last := Run(env, s, events).shelf;
      forall id | id in s.shelf.threads && id in last.threads ensures B.Continues(s.shelf.threads[id], last.threads[id]) {
        assert id in t.shelf.threads;
      }
      forall id | id in s.shelf.threads && id !in last.threads
        ensures RemovedBy(env, s, events, id, s.shelf.threads[id].username)
      {
        if id in t.shelf.threads {
          assert RemovedBy(env, t, events[1..], id, t.shelf.threads[id].username);
        }
      }
    }
  }

  lemma BoardHistoryFromStart(env: Env, table: map<string, string>, early: seq<Event>, late: seq<Event>)
    ensures
      var s := Run(env, Start(table), early);
      var t := Run(env, s, late);
      && B.Filed(s.shelf) && B.Filed(t.shelf) && Later(s.shelf, t.shelf)
      && forall id :: id in s.shelf.threads && id !in t.shelf.threads ==>
           RemovedBy(env, s, late, id, s.shelf.threads[id].username)
  {
    Reachable(env, table, []);
    BoardHistory(env, table, Start(table), early);
    Reachable(env, table, early);
    BoardHistory(env, table, Run(env, Start(table), early), late);
  }

  /** How many of these events file a new thread. */
  ghost function Filings(env: Env, s: State, events: seq<Event>): nat
    decreases |events|
  {
    if events == [] then 0
    else
      var t := Step(env, s, events[0]);
      (if exists id :: id in t.shelf.threads && id !in s.shelf.threads then 1 else 0) + Filings(env, t, events[1..])
  }

  lemma {:induction false} FilingsCount(env: Env, table: map<string, string>, s: State, events: seq<Event>)
    requires Tracks(env, table, s) && B.Filed(s.shelf)
    ensures Run(env, s, events).shelf.next == s.shelf.next + Filings(env, s, events)
    decreases |events|
  {
    if events == [] {
    } else {
      BoardStep(env, table, s, events[0]);
      TracksStep(env, table, s, events[0]);
      FilingsCount(env, table, Step(env, s, events[0]), events[1..]);
    }
  }

  /** Thread ids are given out one after the other from 1: the next id is one more than the number of threads
      ever filed. */
  lemma IdsAreConsecutive(env: Env, table: map<string, string>, events: seq<Event>)
    ensures Run(env, Start(table), events).shelf.next == 1 + Filings(env, Start(table), events)
  {
    Reachable(env, table, []);
    FilingsCount(env, table, Start(table), events);
  }
}

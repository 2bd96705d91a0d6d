/** The observable history of the session server, and what can be read off it.  An operation or an
    issued key is named by the position of the entry that starts it. */
module History {
  import opened Protocol
  import K = KeyGen

  const DEBUG_KEY := "debug"
  const DEBUG_USER := "DEBUG-OPER"

  /** A database operation with the variables its callbacks capture. */
  datatype Job =
    | Logon(sock: nat, user: string, password: string)
    | Change(sock: nat, user: string, current: string, password: string)

  /** A `setTimeout` of `handleNew` that has not fired. */
  datatype Timer = Timer(key: string, user: string, sock: nat)

  datatype Obs =
    | Issued(key: string, user: string, sock: nat)
    | LoggedIn(sock: nat, key: string, user: string)
    | LoggedOut(sock: nat, key: string, user: string)
    | TimerRan(issue: nat, key: string, user: string, online: bool)
    | Locked(op: nat, job: Job)
    | Unlocked(op: nat)
    | Verified(op: nat, user: string, hash: string)
    | Overwrote(op: nat, user: string, before: Option<string>, hash: string)

  type Log = seq<Obs>

  datatype Session = Session(sock: nat, key: string, user: string, since: nat)

  datatype Lock = Free | Held(op: nat) | Broken

  // ------------------------------------------------------------ readings of a history

  function WithoutSock(sessions: seq<Session>, i: nat): seq<Session> {
    if sessions == [] then []
    else if sessions[0].sock == i then sessions[1..]
    else [sessions[0]] + WithoutSock(sessions[1..], i)
  }

  /** The sessions now open, oldest login first. */
  function Replay(log: Log): seq<Session> {
    if log == [] then []
    else
      var n := |log| - 1;
      var before := Replay(log[..n]);
      match log[n]
      case LoggedIn(i, key, user) => before + [Session(i, key, user, n)]
      case LoggedOut(i, _, _) => WithoutSock(before, i)
      case _ => before
  }

  /** The keys that would now be accepted, with their users. */
  function Outstanding(log: Log): map<string, string> {
    if log == [] then map[]
    else
      var before := Outstanding(log[..|log| - 1]);
      match log[|log| - 1]
      case Issued(key, user, _) => before[key := user]
      case LoggedIn(_, key, _) => before - {key}
      case LoggedOut(_, key, _) => before - {key}
      case TimerRan(_, key, _, online) => if online then before else before - {key}
      case _ => before
  }

  /** The key timers still to fire, by the issue that set them. */
  function Waiting(log: Log): map<nat, Timer> {
    if log == [] then map[]
    else
      var before := Waiting(log[..|log| - 1]);
      match log[|log| - 1]
      case Issued(key, user, i) => before[|log| - 1 := Timer(key, user, i)]
      case TimerRan(issue, _, _, _) => before - {issue}
      case _ => before
  }

  /** Who holds the database lock; `Broken` once it was taken twice or released by a stranger. */
  function LockOf(log: Log): Lock {
    if log == [] then Free
    else
      var before := LockOf(log[..|log| - 1]);
      match log[|log| - 1]
      case Locked(op, _) => if before.Free? then Held(op) else Broken
      case Unlocked(op) => if before == Held(op) then Free else Broken
      case _ => before
  }

  /** The password table, starting from `table`. */
  function TableOf(table: map<string, string>, log: Log): map<string, string> {
    if log == [] then table
    else
      var before := TableOf(table, log[..|log| - 1]);
      match log[|log| - 1]
      case Overwrote(_, user, _, hash) => before[user := hash]
      case _ => before
  }

  function Lookup(table: map<string, string>, user: string): Option<string> {
    if user in table then Some(table[user]) else None
  }

  function UserOf(sessions: seq<Session>, i: nat): Option<string> {
    if sessions == [] then None
    else if sessions[0].sock == i then Some(sessions[0].user)
    else UserOf(sessions[1..], i)
  }

  /** The username socket `i` carries, as JavaScript prints it: `false` outside a session. */
  function NameAt(log: Log, i: nat): string {
    var user := UserOf(Replay(log), i);
    if user.Some? then user.value else "false"
  }

  predicate Online(log: Log, user: string) {
    exists k :: 0 <= k < |Replay(log)| && Replay(log)[k].user == user
  }

  /** How often a key was issued, and how often it was used to log in. */
  function Issues(log: Log, key: string): nat {
    if log == [] then 0
    else Issues(log[..|log| - 1], key) + if log[|log| - 1].Issued? && log[|log| - 1].key == key then 1 else 0
  }

  function Logins(log: Log, key: string): nat {
    if log == [] then 0
    else Logins(log[..|log| - 1], key) + if log[|log| - 1].LoggedIn? && log[|log| - 1].key == key then 1 else 0
  }

  predicate IssuedAt(log: Log, a: int, key: string) {
    0 <= a < |log| && log[a].Issued? && log[a].key == key
  }

  /** `a` is the last issue of `key` before position `b`. */
  predicate LastIssue(log: Log, a: int, b: int, key: string) {
    IssuedAt(log, a, key) && a < b && forall c :: a < c < b ==> !IssuedAt(log, c, key)
  }

  // ------------------------------------------------------------ justified histories

  type Check = (string, string) -> bool

  /** Whether an entry may follow a history. */
  ghost predicate Justified(check: Check, table: map<string, string>, log: Log, o: Obs) {
    match o
    case Issued(key, user, i) =>
      // the operation that was just closed is a logon of this user whose password matched the record
      && K.WellFormedKey(key)
      && |log| > 0 && log[|log| - 1].Unlocked?
      && var op := log[|log| - 1].op;
      && op < |log| && log[op].Locked? && log[op].job.Logon?
      && log[op].job.sock == i && log[op].job.user == user
      && user in TableOf(table, log) && check(log[op].job.password, TableOf(table, log)[user])
    case LoggedIn(i, key, user) =>
      if key == DEBUG_KEY then user == DEBUG_USER else Lookup(Outstanding(log), key) == Some(user)
    case LoggedOut(i, key, user) =>
      exists k :: 0 <= k < |Replay(log)| && Replay(log)[k].sock == i && Replay(log)[k].key == key && Replay(log)[k].user == user
    case TimerRan(issue, key, user, online) =>
      && issue in Waiting(log) && Waiting(log)[issue].key == key && Waiting(log)[issue].user == user
      && (online <==> Online(log, user))
    case Locked(op, job) =>
      op == |log| && LockOf(log).Free? && (job.Change? ==> job.user == NameAt(log, job.sock))
    case Unlocked(op) => LockOf(log) == Held(op)
    case Verified(op, user, hash) =>
      && LockOf(log) == Held(op)
      && op < |log| && log[op].Locked? && log[op].job.Change? && log[op].job.user == user
      && Lookup(TableOf(table, log), user) == Some(hash) && check(log[op].job.current, hash)
    case Overwrote(op, user, before, hash) =>
      && LockOf(log) == Held(op)
      && before == Lookup(TableOf(table, log), user)
      && exists v :: VerifiedSince(log, v, op, user)
  }

  /** The operation verified a password at `v`, when its socket carried `user`; since then no
      database operation has started, ended or stored anything. */
  predicate VerifiedSince(log: Log, v: int, op: nat, user: string) {
    && op < v < |log| && log[v].Verified? && log[v].op == op
    && log[op].Locked? && log[op].job.Change? && user == NameAt(log[..v], log[op].job.sock)
    && forall w :: v < w < |log| ==> log[w].LoggedIn? || log[w].LoggedOut? || log[w].TimerRan?
  }

  /** Every entry is justified by the entries before it. */
  ghost predicate Lawful(check: Check, table: map<string, string>, log: Log) {
    forall k {:trigger Justified(check, table, log[..k], log[k])} ::
      0 <= k < |log| ==> Justified(check, table, log[..k], log[k])
  }

  lemma LawfulPrefix(check: Check, table: map<string, string>, log: Log, n: nat)
    requires Lawful(check, table, log) && n <= |log|
    ensures Lawful(check, table, log[..n])
  {
    forall k | 0 <= k < n ensures Justified(check, table, log[..n][..k], log[..n][k]) {
      assert log[..n][..k] == log[..k];
    }
  }

  lemma LawfulAppend(check: Check, table: map<string, string>, log: Log, o: Obs)
    requires Lawful(check, table, log) && Justified(check, table, log, o)
    ensures Lawful(check, table, log + [o])
  {
    var next := log + [o];
    forall k | 0 <= k < |next| ensures Justified(check, table, next[..k], next[k]) {
      if k < |log| { assert next[..k] == log[..k]; } else { assert next[..k] == log; }
    }
  }

  // ------------------------------------------------------------ sessions

  predicate Rising(sessions: seq<Session>) {
    forall a, b :: 0 <= a < b < |sessions| ==> sessions[a].since < sessions[b].since
  }

  lemma {:induction false} WithoutSockRising(sessions: seq<Session>, i: nat)
    requires Rising(sessions)
    ensures Rising(WithoutSock(sessions, i))
    ensures forall x :: x in WithoutSock(sessions, i) ==> x in sessions
  {
    if sessions == [] || sessions[0].sock == i {
    } else {
      var first, rest := sessions[0], sessions[1..];
      WithoutSockRising(rest, i);
      var kept := WithoutSock(rest, i);
      forall k | 0 <= k < |kept| ensures first.since < kept[k].since {
        assert kept[k] in rest;
      }
    }
  }

  /** Open sessions stand in strictly increasing login order, each at the entry that opened it. */
  lemma {:induction false} ReplayOrdered(log: Log)
    ensures Rising(Replay(log))
    ensures forall x :: x in Replay(log) ==> x.since < |log| && log[x.since] == LoggedIn(x.sock, x.key, x.user)
  {
    if log == [] {
    } else {
      var n := |log| - 1;
      ReplayOrdered(log[..n]);
      if log[n].LoggedOut? {
        WithoutSockRising(Replay(log[..n]), log[n].sock);
      }
    }
  }

  // ------------------------------------------------------------ keys

  predicate Removes(o: Obs, key: string) {
    || (o.LoggedIn? && o.key == key)
    || (o.LoggedOut? && o.key == key)
    || (o.TimerRan? && o.key == key && !o.online)
  }

  /** A key is outstanding exactly when nothing has removed it since it was last issued,
      and it then stands for the user of that last issue. */
  lemma {:induction false} OutstandingIffIssued(log: Log, key: string)
    ensures key in Outstanding(log) <==>
      exists a :: LastIssue(log, a, |log|, key) && forall m :: a < m < |log| ==> !Removes(log[m], key)
    ensures forall a :: LastIssue(log, a, |log|, key) && key in Outstanding(log) ==> Outstanding(log)[key] == log[a].user
  {
    if log == [] {
    } else {
      var n := |log| - 1;
      var front := log[..n];
      OutstandingIffIssued(front, key);
      if IssuedAt(log, n, key) {
        assert LastIssue(log, n, |log|, key);
      } else {
        forall a ensures LastIssue(log, a, |log|, key) <==> LastIssue(front, a, n, key) {
          assert IssuedAt(log, a, key) <==> IssuedAt(front, a, key);
          assert forall c :: IssuedAt(log, c, key) <==> IssuedAt(front, c, key);
        }
        if key in Outstanding(log) {
          var a :| LastIssue(front, a, n, key) && forall m :: a < m < n ==> !Removes(front[m], key);
          assert LastIssue(log, a, |log|, key);
          assert forall m :: a < m < |log| ==> !Removes(log[m], key);
        }
      }
    }
  }

  /** At most one login for each time a key was issued. */
  lemma {:induction false} LoginsWithinIssues(check: Check, table: map<string, string>, log: Log, key: string)
    requires Lawful(check, table, log) && key != DEBUG_KEY
    ensures Logins(log, key) + (if key in Outstanding(log) then 1 else 0) <= Issues(log, key)
  {
    if log == [] {
    } else {
      var n := |log| - 1;
      LawfulPrefix(check, table, log, n);
      LoginsWithinIssues(check, table, log[..n], key);
      assert Justified(check, table, log[..n], log[n]);
    }
  }

  lemma TimerEntry(check: Check, table: map<string, string>, log: Log, m: int)
    requires Lawful(check, table, log) && 0 <= m < |log| && log[m].TimerRan?
    ensures
      var waiting := Waiting(log[..m]);
      && log[m].issue in waiting && waiting[log[m].issue].key == log[m].key && waiting[log[m].issue].user == log[m].user
      && (log[m].online <==> Online(log[..m], log[m].user))
  {
    assert Justified(check, table, log[..m], log[m]);
  }

  lemma LoginEntry(check: Check, table: map<string, string>, log: Log, b: int)
    requires Lawful(check, table, log) && 0 <= b < |log| && log[b].LoggedIn? && log[b].key != DEBUG_KEY
    ensures Lookup(Outstanding(log[..b]), log[b].key) == Some(log[b].user)
  {
    assert Justified(check, table, log[..b], log[b]);
  }

  lemma LockEntry(check: Check, table: map<string, string>, log: Log, b: int)
    requires Lawful(check, table, log) && 0 <= b < |log|
    ensures log[b].Locked? ==> log[b].op == b && LockOf(log[..b]).Free?
    ensures log[b].Unlocked? ==> LockOf(log[..b]) == Held(log[b].op)
  {
    assert Justified(check, table, log[..b], log[b]);
  }

  lemma ChangeEntry(check: Check, table: map<string, string>, log: Log, b: int)
    requires Lawful(check, table, log) && 0 <= b < |log|
    ensures log[b].Locked? && log[b].job.Change? ==> log[b].job.user == NameAt(log[..b], log[b].job.sock)
    ensures log[b].Verified? ==>
      && log[b].op < b && log[log[b].op].Locked? && log[log[b].op].job.Change? && log[log[b].op].job.user == log[b].user
      && Lookup(TableOf(table, log[..b]), log[b].user) == Some(log[b].hash)
      && check(log[log[b].op].job.current, log[b].hash)
    ensures log[b].Overwrote? ==>
      && log[b].before == Lookup(TableOf(table, log[..b]), log[b].user)
      && exists v :: VerifiedSince(log[..b], v, log[b].op, log[b].user)
  {
    assert Justified(check, table, log[..b], log[b]);
  }

  /** An issued key's timer is still to fire, or it has fired. */
  lemma {:induction false} TimerWaitsOrRan(check: Check, table: map<string, string>, log: Log, a: int, key: string)
    requires Lawful(check, table, log) && IssuedAt(log, a, key)
    ensures
      || (a in Waiting(log) && Waiting(log)[a] == Timer(key, log[a].user, log[a].sock))
      || exists m :: a < m < |log| && log[m].TimerRan? && log[m].issue == a && log[m].key == key && log[m].user == log[a].user
  {
    var n := |log| - 1;
    var front := log[..n];
    LawfulPrefix(check, table, log, n);
    if a == n {
    } else {
      assert IssuedAt(front, a, key) && front[a] == log[a];
      TimerWaitsOrRan(check, table, front, a, key);
      if a in Waiting(front) {
        if log[n].TimerRan? && log[n].issue == a {
          TimerEntry(check, table, log, n);
        } else {
          assert a in Waiting(log) && Waiting(log)[a] == Waiting(front)[a];
        }
      } else {
        var m :| a < m < n && front[m].TimerRan? && front[m].issue == a && front[m].key == key && front[m].user == log[a].user;
        assert log[m] == front[m];
      }
    }
  }

  /** An outstanding key whose timer has fired had its user online at that moment. */
  lemma TimerSpares(check: Check, table: map<string, string>, log: Log, key: string)
    requires Lawful(check, table, log) && key in Outstanding(log)
    ensures exists a :: LastIssue(log, a, |log|, key) && log[a].user == Outstanding(log)[key] && TimerPendingOrSpared(log, a)
  {
    OutstandingIffIssued(log, key);
    var a :| LastIssue(log, a, |log|, key) && forall m :: a < m < |log| ==> !Removes(log[m], key);
    assert log[a].user == Outstanding(log)[key];
    TimerWaitsOrRan(check, table, log, a, key);
    assert TimerPendingOrSpared(log, a) by {
      if !(a in Waiting(log) && Waiting(log)[a] == Timer(key, log[a].user, log[a].sock)) {
        var m :| a < m < |log| && log[m].TimerRan? && log[m].issue == a && log[m].key == key && log[m].user == log[a].user;
        assert !Removes(log[m], key);
        TimerEntry(check, table, log, m);
      }
    }
  }

  /** The timer of the issue at `a` is pending, or its user had a session when it fired. */
  predicate TimerPendingOrSpared(log: Log, a: int)
    requires 0 <= a < |log| && log[a].Issued?
  {
    || (a in Waiting(log) && Waiting(log)[a] == Timer(log[a].key, log[a].user, log[a].sock))
    || exists m :: a < m < |log| && log[m].TimerRan? && log[m].issue == a && Online(log[..m], log[a].user)
  }

  /** Identity: whoever logs in with a key is the user it was last issued to, the key has not been
      used or timed out since, and its timer had not fired or found that user online. */
  lemma LoginIdentity(check: Check, table: map<string, string>, log: Log, b: int)
    requires Lawful(check, table, log)
    requires 0 <= b < |log| && log[b].LoggedIn? && log[b].key != DEBUG_KEY
    ensures exists a ::
      && LastIssue(log, a, b, log[b].key) && log[a].user == log[b].user
      && TimerPendingOrSpared(log[..b], a)
      && forall m :: a < m < b ==> !Removes(log[m], log[b].key)
  {
    var front, key := log[..b], log[b].key;
    LawfulPrefix(check, table, log, b);
    LoginEntry(check, table, log, b);
    TimerSpares(check, table, front, key);
    var a :| LastIssue(front, a, b, key) && front[a].user == Outstanding(front)[key] && TimerPendingOrSpared(front, a);
    UnremovedSinceLast(front, a, key);
    assert forall d :: 0 <= d < b ==> front[d] == log[d];
    assert LastIssue(log, a, b, key) by {
      assert forall d :: d < b ==> (IssuedAt(log, d, key) <==> IssuedAt(front, d, key));
    }
  }

  lemma UnremovedSinceLast(log: Log, a: int, key: string)
    requires LastIssue(log, a, |log|, key) && key in Outstanding(log)
    ensures forall m :: a < m < |log| ==> !Removes(log[m], key)
  {
    OutstandingIffIssued(log, key);
    var c :| LastIssue(log, c, |log|, key) && forall m :: c < m < |log| ==> !Removes(log[m], key);
    assert IssuedAt(log, a, key) && IssuedAt(log, c, key);
  }

  /** A key was only ever issued after a password check that succeeded for its user on the same connection. */
  lemma IssueIsEarned(check: Check, table: map<string, string>, log: Log, a: int)
    requires Lawful(check, table, log) && 0 <= a < |log| && log[a].Issued?
    ensures K.WellFormedKey(log[a].key)
    ensures exists op, password ::
      && 0 <= op < a - 1 && log[op] == Locked(op, Logon(log[a].sock, log[a].user, password))
      && Lookup(TableOf(table, log[..a]), log[a].user).Some? && check(password, TableOf(table, log[..a])[log[a].user])
  {
    var front := log[..a];
    assert Justified(check, table, front, log[a]);
    var op := front[a - 1].op;
    assert Justified(check, table, log[..a - 1], log[a - 1]);
    HeldSince(check, table, log[..a - 1], op) by { LawfulPrefix(check, table, log, a - 1); }
    assert log[op] == Locked(op, Logon(log[a].sock, log[a].user, log[op].job.password));
  }

  /** No key was generated twice. */
  ghost predicate Fresh(log: Log) {
    forall key :: Issues(log, key) <= 1
  }

  lemma {:induction false} LoginsCountEntry(log: Log, b: int)
    requires 0 <= b < |log| && log[b].LoggedIn?
    ensures Logins(log, log[b].key) >= 1
  {
    if b == |log| - 1 {
    } else {
      LoginsCountEntry(log[..|log| - 1], b);
    }
  }

  /** With fresh keys, the key of an open session is no longer outstanding, so ending the session revokes nobody's key. */
  lemma OpenKeyIsSpent(check: Check, table: map<string, string>, log: Log, k: int)
    requires Lawful(check, table, log) && Fresh(log)
    requires 0 <= k < |Replay(log)| && Replay(log)[k].key != DEBUG_KEY
    ensures Replay(log)[k].key !in Outstanding(log)
  {
    var key := Replay(log)[k].key;
    ReplayOrdered(log);
    LoginsCountEntry(log, Replay(log)[k].since);
    LoginsWithinIssues(check, table, log, key);
  }

  /** In any run, a key that an open session used is outstanding again only if it was generated again since. */
  lemma OpenKeyReissued(log: Log, k: int)
    requires 0 <= k < |Replay(log)| && Replay(log)[k].key in Outstanding(log)
    ensures exists a :: a > Replay(log)[k].since && IssuedAt(log, a, Replay(log)[k].key)
  {
    var x := Replay(log)[k];
    ReplayOrdered(log);
    OutstandingIffIssued(log, x.key);
    var a :| LastIssue(log, a, |log|, x.key) && forall m :: a < m < |log| ==> !Removes(log[m], x.key);
    assert Removes(log[x.since], x.key);
    assert IssuedAt(log, a, x.key);
  }

  lemma {:induction false} OutstandingLength(check: Check, table: map<string, string>, log: Log)
    requires Lawful(check, table, log)
    ensures forall key :: key in Outstanding(log) ==> |key| == 64
  {
    if log == [] {
    } else {
      LawfulPrefix(check, table, log, |log| - 1);
      OutstandingLength(check, table, log[..|log| - 1]);
      assert Justified(check, table, log[..|log| - 1], log[|log| - 1]);
    }
  }

  // ------------------------------------------------------------ the database lock

  predicate AboutLock(o: Obs) {
    o.Locked? || o.Unlocked?
  }

  /** The lock is never taken twice, and its holder took it with the last lock entry. */
  lemma {:induction false} HeldSince(check: Check, table: map<string, string>, log: Log, op: nat)
    requires Lawful(check, table, log)
    ensures LockOf(log) != Broken
    ensures LockOf(log) == Held(op) ==>
      op < |log| && log[op].Locked? && log[op].op == op && forall c :: op < c < |log| ==> !AboutLock(log[c])
  {
    if log == [] {
    } else {
      var n := |log| - 1;
      var front := log[..n];
      LawfulPrefix(check, table, log, n);
      LockEntry(check, table, log, n);
      HeldSince(check, table, front, op);
      if LockOf(log) == Held(op) && !AboutLock(log[n]) {
        assert LockOf(front) == Held(op);
        assert forall c :: 0 <= c < n ==> front[c] == log[c];
      }
    }
  }

  /** Lock discipline: the lock is taken only when nothing came between or the last lock entry released it,
      and every release undoes the acquisition just before it, once. */
  lemma LockAlternates(check: Check, table: map<string, string>, log: Log, b: int)
    requires Lawful(check, table, log) && 0 <= b < |log| && AboutLock(log[b])
    ensures log[b].Unlocked? ==>
      var a := log[b].op;
      a < b && log[a].Locked? && log[a].op == a && forall c :: a < c < b ==> !AboutLock(log[c])
    ensures log[b].Locked? ==>
      || (forall c :: 0 <= c < b ==> !AboutLock(log[c]))
      || exists u :: 0 <= u < b && log[u].Unlocked? && forall c :: u < c < b ==> !AboutLock(log[c])
  {
    LawfulPrefix(check, table, log, b);
    var front := log[..b];
    LockEntry(check, table, log, b);
    if log[b].Unlocked? {
      HeldSince(check, table, front, log[b].op);
      assert forall c :: 0 <= c < b ==> front[c] == log[c];
    } else {
      FreeSince(front);
      assert forall c :: 0 <= c < b ==> front[c] == log[c];
    }
  }

  lemma {:induction false} FreeSince(log: Log)
    requires LockOf(log).Free?
    ensures
      || (forall c :: 0 <= c < |log| ==> !AboutLock(log[c]))
      || exists u :: 0 <= u < |log| && log[u].Unlocked? && forall c :: u < c < |log| ==> !AboutLock(log[c])
  {
    if log == [] || AboutLock(log[|log| - 1]) {
    } else {
      var front := log[..|log| - 1];
      FreeSince(front);
      if !(forall c :: 0 <= c < |front| ==> !AboutLock(front[c])) {
        var u :| 0 <= u < |front| && front[u].Unlocked? && forall c :: u < c < |front| ==> !AboutLock(front[c]);
        assert log[u].Unlocked? && forall c :: u < c < |log| ==> !AboutLock(log[c]);
      }
    }
  }

  // ------------------------------------------------------------ changing a password

  lemma {:induction false} TableUnmoved(table: map<string, string>, log: Log, v: int)
    requires 0 <= v <= |log|
    requires forall w :: v <= w < |log| ==> !log[w].Overwrote?
    ensures TableOf(table, log) == TableOf(table, log[..v])
  {
    if v == |log| {
      assert log[..v] == log;
    } else {
      var front := log[..|log| - 1];
      TableUnmoved(table, front, v);
      assert front[..v] == log[..v];
    }
  }

  /** The overwrite at `b` belongs to the check at `v`, of the change that started at `log[b].op`.  The record it
      overwrote is the very record whose hash the current password was checked against exactly when the socket
      carried the same username at the request and at the check; otherwise the checked record is left as it was. */
  ghost predicate SwapOf(check: Check, table: map<string, string>, log: Log, v: int, b: int)
    requires 0 <= b < |log| && log[b].Overwrote?
  {
    var op := log[b].op;
    && op < v < b && log[v].Verified? && log[v].op == op
    && log[op].Locked? && log[op].job.Change? && check(log[op].job.current, log[v].hash)
    && var sock := log[op].job.sock;
    && var same := NameAt(log[..v], sock) == NameAt(log[..op], sock);
    && log[v].user == NameAt(log[..op], sock) && log[b].user == NameAt(log[..v], sock)
    && (same ==> log[b].before == Some(log[v].hash))
    && Lookup(TableOf(table, log[..b + 1]), log[v].user) == Some(if same then log[b].hash else log[v].hash)
  }

  lemma CheckedRecord(check: Check, table: map<string, string>, log: Log, v: int, b: int)
    requires Lawful(check, table, log) && 0 <= b < |log| && log[b].Overwrote?
    requires VerifiedSince(log[..b], v, log[b].op, log[b].user)
    ensures TableOf(table, log[..b]) == TableOf(table, log[..v])
    ensures TableOf(table, log[..b + 1]) == TableOf(table, log[..b])[log[b].user := log[b].hash]
    ensures log[b].user == NameAt(log[..v], log[log[b].op].job.sock)
  {
    var front := log[..b];
    TableUnmoved(table, front, v);
    assert front[..v] == log[..v];
    assert log[..b + 1][..b] == front;
  }

  lemma ChangeIsCompareAndSwap(check: Check, table: map<string, string>, log: Log, b: int)
    requires Lawful(check, table, log) && 0 <= b < |log| && log[b].Overwrote?
    ensures exists v :: SwapOf(check, table, log, v, b)
  {
    var op := log[b].op;
    ChangeEntry(check, table, log, b);
    var v :| VerifiedSince(log[..b], v, op, log[b].user);
    CheckedRecord(check, table, log, v, b);
    ChangeEntry(check, table, log, v);
    ChangeEntry(check, table, log, op);
    assert SwapOf(check, table, log, v, b);
  }
}

/** The session server of server.js as a state machine: one step for each event its loop handles.
    Every callback the program leaves pending (a database read or write, a key timer) is part of
    the state, so a sequence of events is any interleaving of handlers and callbacks. */
module Machine {
  import opened Protocol
  import opened Registry
  import opened KeyGen
  import opened History
  import B = Board

  const MIN_PASSWORD_LENGTH := 8

  /** What the program calls but does not define: bcrypt's comparison, the engine's sort, the start time. */
  datatype Env = Env(check: Check, sort: B.Sorter, started: int)

  datatype Stage =
    | Reading
    | Fetched(found: Option<string>)
    | Writing(user: string, hash: string)
    | Written

  /** A database operation in flight. */
  datatype Op = Op(job: Job, stage: Stage)

  /** auth.db, the lock file, and the operations whose callbacks have not all run. */
  datatype Db = Db(table: map<string, string>, locked: bool, ops: map<nat, Op>)

  datatype State = State(
    net: Net, keys: map<string, string>, timers: map<nat, Timer>, shelf: B.Shelf, db: Db, log: Log)

  datatype Event =
    | Connect
    | Data(sock: nat, line: Line, now: int)
    | Hangup(sock: nat)
    | Fault(sock: nat)
    | Fetch(op: nat, fault: bool)
    | GetDone(op: nat, draws: Draws, hash: string)
    | Store(op: nat)
    | PutDone(op: nat, fault: bool)
    | KeyTimer(issue: nat)

  function Start(table: map<string, string>): State {
    State(Net([], []), map[], map[], B.Shelf(map[], 1), Db(table, false, map[]), [])
  }

  // ------------------------------------------------------------ sessions

  function Uptime(env: Env, now: int): int {
    (now - env.started) / 1000
  }

  /** `kill` */
  function Kill(s: State, i: nat, why: string): State
    requires i < |s.net.socks|
  {
    var sock := s.net.socks[i];
    s.(net := Drop(s.net, i, why),
       keys := s.keys - {Printed(sock.key)},
       log := if sock.authenticated then s.log + [LoggedOut(i, Printed(sock.key), Printed(sock.username))] else s.log)
  }

  /** `handleNew`, a `key` message */
  function PresentKey(env: Env, s: State, i: nat, key: string, now: int): State
    requires i < |s.net.socks|
  {
    var keys := if key == DEBUG_KEY then s.keys[DEBUG_KEY := DEBUG_USER] else s.keys;
    if key in keys then
      s.(net := Login(s.net, i, key, keys[key], Uptime(env, now)),
         keys := keys - {key},
         log := s.log + [LoggedIn(i, key, keys[key])])
    else s.(net := Destroy(s.net, i))
  }

  /** Opening the database: the lock file appears and a read is under way. */
  function Acquire(s: State, job: Job): State {
    s.(db := s.db.(locked := true, ops := s.db.ops[|s.log| := Op(job, Reading)]),
       log := s.log + [Locked(|s.log|, job)])
  }

  /** Closing it: the lock file is unlinked and the operation is over. */
  function Release(s: State, op: nat): State {
    s.(db := s.db.(locked := false, ops := s.db.ops - {op}), log := s.log + [Unlocked(op)])
  }

  /** `auth`, up to its first callback */
  function StartAuth(s: State, i: nat, user: string, password: string): State {
    if s.db.locked then s.(net := Destroy(s.net, i)) else Acquire(s, Logon(i, user, password))
  }

  function HandleNew(env: Env, s: State, i: nat, req: Request, now: int): State
    requires i < |s.net.socks|
  {
    var s0 := s.(net := SetPhase(s.net, i, NoAuth));
    if req.Key? && req.key != "" then PresentKey(env, s0, i, req.key, now)
    else if req.Auth? && req.username != "" && req.password != "" then StartAuth(s0, i, req.username, req.password)
    else s0.(net := Destroy(s0.net, i))
  }

  function Tell(s: State, i: nat, reply: Reply): State {
    s.(net := Write(s.net, i, reply))
  }

  /** Why `changePassword` refuses before it opens the database, if it does. */
  function ChangeRefusal(locked: bool, current: string, password: string): Option<string> {
    if current == "" || password == "" then Some("Malformed password change request.")
    else if |password| < MIN_PASSWORD_LENGTH then Some("Unable to change password: password is too short.")
    else if locked then Some("Unable to change password (database locked).")
    else None
  }

  /** `changePassword`, up to its first callback */
  function StartChange(s: State, i: nat, current: string, password: string): State {
    match ChangeRefusal(s.db.locked, current, password)
    case Some(text) => Tell(s, i, Notice(text))
    case None => Acquire(s, Change(i, NameOf(s.net, i), current, password))
  }

  function SendPrivate(s: State, i: nat, target: string, body: string): State {
    match Find(s.net, target)
    case Some(j) => Tell(s, j, PrivNote(NameOf(s.net, i), body))
    case None => Tell(s, i, Error("No such user"))
  }

  function ServeBoard(env: Env, s: State, i: nat, req: Request, now: int): State
    requires B.BoardRequest(req)
  {
    var (shelf, reply) := B.Serve(env.sort, s.shelf, NameOf(s.net, i), req, now);
    Tell(s.(shelf := shelf), i, reply)
  }

  function HandleMessage(env: Env, s: State, i: nat, req: Request, now: int): State
    requires i < |s.net.socks|
  {
    if !s.net.socks[i].authenticated then HandleNew(env, s, i, req, now)
    else match req
      case Quit => Kill(s, i, "Quit")
      case Users => s.(net := SendUsers(s.net, i))
      case Status => Tell(s, i, StatusIs(Uptime(env, now), |s.net.clients|))
      case Password(current, password) => StartChange(s, i, current, password)
      case PubMsg(body) => s.(net := Broadcast(s.net, i, PubNote(NameOf(s.net, i), body)))
      case PrivMsg(target, body) => if target != "" then SendPrivate(s, i, target, body) else s
      case Key(_) => s
      case Auth(_, _) => s
      case Unknown => s
      case _ => ServeBoard(env, s, i, req, now)
  }

  function HandleLine(env: Env, s: State, i: nat, line: Line, now: int): State
    requires i < |s.net.socks|
  {
    match line
    case Parsed(req) => HandleMessage(env, s, i, req, now)
    case Garbled => Kill(s, i, "Killed: indecent hacking")
  }

  // ------------------------------------------------------------ database callbacks

  /** The database engine reads the record that `db.get` asked for. */
  function DoFetch(s: State, op: nat, fault: bool): State {
    if op in s.db.ops && s.db.ops[op].stage.Reading? then
      var o := s.db.ops[op];
      var user := o.job.user;
      var found := if fault then None else Lookup(s.db.table, user);
      s.(db := s.db.(ops := s.db.ops[op := o.(stage := Fetched(found))]))
    else s
  }

  /** A successful authentication: the key is issued and its timer set. */
  function Issue(s: State, i: nat, user: string, key: string): State {
    var n0 := SetPhase(s.net, i, WaitKey);
    var n1 := Write(n0, i, RawKey(key));
    s.(net := Destroy(n1, i),
       keys := s.keys[key := user],
       timers := s.timers[|s.log| := Timer(key, user, i)],
       log := s.log + [Issued(key, user, i)])
  }

  /** The callback `auth` passes to `db.get`, and the one it then calls. */
  function LogonDone(env: Env, s: State, op: nat, job: Job, found: Option<string>, draws: Draws): State
    requires job.Logon?
  {
    var s0 := Release(s, op);
    if found.Some? && env.check(job.password, found.value)
    then Issue(s0, job.sock, job.user, KeyFrom(draws))
    else s0.(net := Destroy(s0.net, job.sock))
  }

  /** Why the password is not changed once the record has been read, if it is not. */
  function ChangeVerdict(env: Env, found: Option<string>, current: string): Option<string> {
    if found.None? then Some("Unable to change password: no such user.")
    else if !env.check(current, found.value) then Some("Unable to change password: current password not correct.")
    else None
  }

  /** The callback `changePassword` passes to `db.get`: the name is read from the socket again. */
  function ChangeRead(env: Env, s: State, op: nat, job: Job, found: Option<string>, hash: string): State
    requires job.Change?
  {
    match ChangeVerdict(env, found, job.current)
    case Some(text) => Release(Tell(s, job.sock, Notice(text)), op)
    case None =>
      s.(db := s.db.(ops := s.db.ops[op := Op(job, Writing(NameOf(s.net, job.sock), hash))]),
         log := s.log + [Verified(op, job.user, found.value)])
  }

  /** The callback of `db.get`. */
  function DoGet(env: Env, s: State, op: nat, draws: Draws, hash: string): State {
    if op in s.db.ops && s.db.ops[op].stage.Fetched? then
      var o := s.db.ops[op];
      if o.job.Logon? then LogonDone(env, s, op, o.job, o.stage.found, draws)
      else ChangeRead(env, s, op, o.job, o.stage.found, hash)
    else s
  }

  /** The database engine carries out the `db.put`. */
  function DoStore(s: State, op: nat): State {
    if op in s.db.ops && s.db.ops[op].stage.Writing? then
      var o := s.db.ops[op];
      var user, hash := o.stage.user, o.stage.hash;
      s.(db := s.db.(table := s.db.table[user := hash], ops := s.db.ops[op := o.(stage := Written)]),
         log := s.log + [Overwrote(op, user, Lookup(s.db.table, user), hash)])
    else s
  }

  /** The callback of `db.put`; an error may be reported whether or not the record was stored. */
  function DoPut(s: State, op: nat, fault: bool): State {
    if op in s.db.ops && (s.db.ops[op].stage.Written? || (fault && s.db.ops[op].stage.Writing?)) then
      var i := s.db.ops[op].job.sock;
      Tell(Release(s, op), i,
           Notice(if fault then "Unable to change password (database I/O error)." else "Password changed."))
    else s
  }

  /** The callback of the key timer. */
  function DoTimer(s: State, issue: nat): State {
    if issue in s.timers then
      var t := s.timers[issue];
      var net := SetPhase(s.net, t.sock, KeyTimeout);
      var online := Find(net, t.user).Some?;
      s.(net := net,
         keys := if online then s.keys else s.keys - {t.key},
         timers := s.timers - {issue},
         log := s.log + [TimerRan(issue, t.key, t.user, online)])
    else s
  }

  // ------------------------------------------------------------ steps and runs

  /** One event.  An event that cannot happen in this state leaves it as it is. */
  function Step(env: Env, s: State, e: Event): State {
    match e
    case Connect => s.(net := s.net.(socks := s.net.socks + [FRESH_SOCK]))
    case Data(i, line, now) => if i < |s.net.socks| then HandleLine(env, s, i, line, now) else s
    case Hangup(i) => if i < |s.net.socks| then Kill(s, i, "Connection terminated") else s
    case Fault(i) => if i < |s.net.socks| then Kill(s, i, "Connection error") else s
    case Fetch(op, fault) => DoFetch(s, op, fault)
    case GetDone(op, draws, hash) => DoGet(env, s, op, draws, hash)
    case Store(op) => DoStore(s, op)
    case PutDone(op, fault) => DoPut(s, op, fault)
    case KeyTimer(issue) => DoTimer(s, issue)
  }

  /** The clock readings at the first line handled, the second, and so on. */
  type Clock = nat -> int

  /** The events of these lines: they are handled in order, with nothing in between; the first is line `n` of its chunk. */
  function ChunkEvents(i: nat, lines: seq<string>, parse: string -> Line, clock: Clock, n: nat): (events: seq<Event>)
    ensures |events| == |lines|
    ensures forall k :: 0 <= k < |lines| ==> events[k] == Data(i, parse(lines[k]), clock(n + k))
  {
    seq(|lines|, k requires 0 <= k < |lines| => Data(i, parse(lines[k]), clock(n + k)))
  }

  function Run(env: Env, s: State, events: seq<Event>): State
    decreases |events|
  {
    if events == [] then s else Run(env, Step(env, s, events[0]), events[1..])
  }
}

/** server.js itself: the global variables and the handlers that update them in place.  Each handler is
    proved to do to the variables exactly what the state machine's function of the same name does. */
module Server {
  import opened Protocol
  import opened Registry
  import opened KeyGen
  import opened History
  import M = Machine
  import B = Board
  import T = Text

  /** A connection: the fields server.js keeps on it, and what has been written to it. */
  class Socket {
    const id: nat
    var authenticated: bool
    var username: Option<string>
    var key: Option<string>
    var state: Phase
    var destroyed: bool
    var written: seq<Reply>

    constructor (id: nat)
      ensures this.id == id && View() == FRESH_SOCK
    {
      this.id := id;
      authenticated, username, key := false, None, None;
      state, destroyed, written := Created, false, [];
    }

    function View(): Sock
      reads this
    {
      Sock(authenticated, username, key, state, destroyed, written)
    }
  }

  function Ids(list: seq<Socket>): (ids: seq<nat>)
    ensures |ids| == |list|
    ensures forall k :: 0 <= k < |list| ==> ids[k] == list[k].id
  {
    seq(|list|, k requires 0 <= k < |list| => list[k].id)
  }

  class SessionServer {
    const env: M.Env
    /** Every connection so far; the program itself only keeps the logged-in ones. */
    var sockets: seq<Socket>
    var clients: seq<Socket>
    var keys: map<string, string>
    var threads: map<int, Thread>
    var nextThreadID: int
    /** auth.db and the lock file. */
    var table: map<string, string>
    var locked: bool
    /** Callbacks not yet run. */
    var timers: map<nat, Timer>
    var ops: map<nat, M.Op>
    var log: Log

    ghost predicate Valid()
      reads this`sockets, this`clients, sockets
    {
      && (forall i :: 0 <= i < |sockets| ==> sockets[i].id == i)
      && (forall k :: 0 <= k < |clients| ==> Mine(clients[k]))
    }

    ghost predicate Mine(socket: Socket)
      reads this`sockets
    {
      socket.id < |sockets| && sockets[socket.id] == socket
    }

    ghost function NetView(): Net
      reads this`sockets, this`clients, sockets
    {
      var all := sockets;
      Net(seq(|all|, i requires 0 <= i < |all| reads all => all[i].View()), Ids(clients))
    }

    ghost function View(): M.State
      reads this, sockets
    {
      M.State(NetView(), keys, timers, B.Shelf(threads, nextThreadID), M.Db(table, locked, ops), log)
    }

    constructor (env: M.Env, table: map<string, string>)
      ensures Valid() && View() == M.Start(table) && this.env == env && sockets == []
    {
      this.env := env;
      sockets, clients := [], [];
      keys, threads, nextThreadID := map[], map[], 1;
      this.table, locked := table, false;
      timers, ops, log := map[], map[], [];
    }

    // ---------------------------------------------------------- sockets

    method OnConnect() returns (socket: Socket)
      requires Valid()
      modifies this
      ensures Valid() && Mine(socket) && fresh(socket) && sockets == old(sockets) + [socket]
      ensures View() == M.Step(env, old(View()), M.Connect)
    {
      socket := new Socket(|sockets|);
      sockets := sockets + [socket];
      assert NetView().socks == old(NetView()).socks + [FRESH_SOCK];
      assert NetView().clients == old(NetView()).clients;
    }

    /** `socket.write`, also behind `send`. */
    method Write(socket: Socket, reply: Reply)
      requires Valid() && Mine(socket)
      modifies socket
      ensures Valid()
      ensures NetView() == Registry.Write(old(NetView()), socket.id, reply)
    {
      if !socket.destroyed {
        socket.written := socket.written + [reply];
      }
      assert NetView().socks == Registry.Write(old(NetView()), socket.id, reply).socks;
    }

    method Destroy(socket: Socket)
      requires Valid() && Mine(socket)
      modifies socket
      ensures Valid()
      ensures NetView() == Registry.Destroy(old(NetView()), socket.id)
    {
      socket.destroyed := true;
      assert NetView().socks == Registry.Destroy(old(NetView()), socket.id).socks;
    }

    method SetState(socket: Socket, state: Phase)
      requires Valid() && Mine(socket)
      modifies socket
      ensures Valid()
      ensures NetView() == SetPhase(old(NetView()), socket.id, state)
    {
      socket.state := state;
      assert NetView().socks == SetPhase(old(NetView()), socket.id, state).socks;
    }

    method Reset(socket: Socket)
      requires Valid() && Mine(socket)
      modifies socket
      ensures Valid()
      ensures NetView() == Registry.Reset(old(NetView()), socket.id)
    {
      socket.authenticated := false;
      socket.username := None;
      socket.key := None;
      assert NetView().socks == Registry.Reset(old(NetView()), socket.id).socks;
    }

    method Enter(socket: Socket, key: string, name: string)
      requires Valid() && Mine(socket)
      modifies this`clients, socket
      ensures Valid()
      ensures NetView() == Registry.Enter(old(NetView()), socket.id, key, name)
    {
      socket.state := Authed;
      socket.authenticated := true;
      socket.username := Some(name);
      socket.key := Some(key);
      clients := clients + [socket];
      assert NetView().socks == Registry.Enter(old(NetView()), socket.id, key, name).socks;
      assert NetView().clients == old(NetView()).clients + [socket.id];
    }

    method Broadcast(from: Socket, reply: Reply)
      requires Valid() && Mine(from)
      modifies sockets
      ensures Valid()
      ensures NetView() == Registry.Broadcast(old(NetView()), from.id, reply)
    {
      ghost var targets := NetView().clients;
      for k := 0 to |clients|
        invariant Valid()
        invariant NetView().clients == targets
        invariant WriteAll(old(NetView()), targets, from.id, reply) == WriteAll(NetView(), targets[k..], from.id, reply)
      {
        assert targets[k..][0] == clients[k].id && targets[k..][1..] == targets[k + 1..];
        if clients[k] != from {
          Write(clients[k], reply);
        }
      }
    }

    /** `clients.indexOf(socket)` */
    method IndexOf(socket: Socket) returns (index: int)
      ensures index == -1 ==> socket !in clients
      ensures index != -1 ==> 0 <= index < |clients| && clients[index] == socket && socket !in clients[..index]
    {
      for k := 0 to |clients|
        invariant socket !in clients[..k]
      {
        if clients[k] == socket {
          return k;
        }
      }
      return -1;
    }

    method RemoveSocket(socket: Socket) returns (found: bool)
      requires Valid() && Mine(socket)
      modifies this`clients
      ensures Valid()
      ensures found <==> socket in old(clients)
      ensures NetView() == old(NetView()).(clients := Without(old(NetView()).clients, socket.id))
    {
      assert forall m :: 0 <= m < |clients| && clients[m].id == socket.id ==> clients[m] == socket;
      var k := IndexOf(socket);
      if k == -1 {
        WithoutAbsent(Ids(clients), socket.id);
        return false;
      }
      SplicedIds(clients, socket, k);
      clients := clients[..k] + clients[k + 1..];
      assert NetView().socks == old(NetView()).socks;
      return true;
    }

    method GetSocketByUsername(name: string) returns (socket: Socket?)
      requires Valid()
      ensures socket == null <==> Find(NetView(), name).None?
      ensures socket != null ==> Mine(socket) && Find(NetView(), name) == Some(socket.id)
    {
      for k := 0 to |clients|
        invariant Find(NetView(), name) == FindFrom(NetView(), k, name)
      {
        assert NetView().clients[k] == clients[k].id && NetView().socks[clients[k].id] == clients[k].View();
        if clients[k].username == Some(name) {
          return clients[k];
        }
      }
      return null;
    }

    /** The first two calls of `kill`. */
    method Unlist(socket: Socket)
      requires Valid() && Mine(socket)
      modifies this`clients, socket
      ensures Valid()
      ensures NetView() == Registry.Destroy(old(NetView()), socket.id).(clients := Without(old(NetView()).clients, socket.id))
    {
      Destroy(socket);
      var found := RemoveSocket(socket);
    }

    method Kill(socket: Socket, why: string)
      requires Valid() && Mine(socket)
      modifies this, sockets
      ensures Valid() && sockets == old(sockets)
      ensures View() == M.Kill(old(View()), socket.id, why)
    {
      ghost var s := View();
      assert s.net.socks[socket.id] == socket.View();
      var wasIn, name, key := socket.authenticated, Printed(socket.username), Printed(socket.key);
      Unlist(socket);
      keys := keys - {key};
      if wasIn {
        Broadcast(socket, QuitNote(name, why));
        log := log + [LoggedOut(socket.id, key, name)];
      }
      Reset(socket);
      assert NetView() == Drop(s.net, socket.id, why);
    }

    method SendUsers(socket: Socket)
      requires Valid() && Mine(socket)
      modifies socket
      ensures Valid()
      ensures NetView() == Registry.SendUsers(old(NetView()), socket.id)
    {
      var users: map<string, nat> := map[];
      ghost var names := Names(NetView());
      for k := 0 to |clients|
        invariant users == Tally(names[..k])
      {
        assert NetView().clients[k] == clients[k].id && NetView().socks[clients[k].id] == clients[k].View();
        assert names[..k + 1][..k] == names[..k];
        var name := Printed(clients[k].username);
        users := users[name := if name in users then users[name] + 1 else 1];
      }
      assert names[..|clients|] == names;
      Write(socket, UserList(users));
    }

    method SendStatus(socket: Socket, now: int)
      requires Valid() && Mine(socket)
      modifies socket
      ensures Valid()
      ensures NetView() == Registry.Write(old(NetView()), socket.id, StatusIs(M.Uptime(env, now), |clients|))
    {
      Write(socket, StatusIs((now - env.started) / 1000, |clients|));
    }

    // ---------------------------------------------------------- logging in

    /** The branch of `handleNew` that admits a socket. */
    method LogIn(socket: Socket, key: string, name: string, now: int)
      requires Valid() && Mine(socket)
      modifies this`clients, sockets
      ensures Valid()
      ensures NetView() == Login(old(NetView()), socket.id, key, name, M.Uptime(env, now))
    {
      Enter(socket, key, name);
      Write(socket, UserIs(name));
      Write(socket, Join(name));
      SendStatus(socket, now);
      Broadcast(socket, Join(name));
    }

    method PresentKey(socket: Socket, key: string, now: int)
      requires Valid() && Mine(socket)
      modifies this, sockets
      ensures Valid() && sockets == old(sockets)
      ensures View() == M.PresentKey(env, old(View()), socket.id, key, now)
    {
      if key == DEBUG_KEY {
        keys := keys[DEBUG_KEY := DEBUG_USER];
      }
      if key in keys {
        var name := keys[key];
        keys := keys - {key};
        log := log + [LoggedIn(socket.id, key, name)];
        LogIn(socket, key, name, now);
        assert NetView() == Login(old(NetView()), socket.id, key, name, M.Uptime(env, now));
      } else {
        Destroy(socket);
      }
    }

    /** Creating the lock file and opening the database. */
    method Acquire(job: Job)
      requires Valid()
      modifies this`locked, this`ops, this`log
      ensures Valid() && View() == M.Acquire(old(View()), job)
    {
      locked := true;
      ops := ops[|log| := M.Op(job, M.Reading)];
      log := log + [Locked(|log|, job)];
    }

    /** Closing the database and unlinking the lock file. */
    method Release(op: nat)
      requires Valid()
      modifies this`locked, this`ops, this`log
      ensures Valid() && View() == M.Release(old(View()), op)
    {
      locked := false;
      ops := ops - {op};
      log := log + [Unlocked(op)];
    }

    method Auth(socket: Socket, username: string, password: string)
      requires Valid() && Mine(socket)
      modifies this, sockets
      ensures Valid() && sockets == old(sockets)
      ensures View() == M.StartAuth(old(View()), socket.id, username, password)
    {
      if locked {
        Destroy(socket);
      } else {
        Acquire(Logon(socket.id, username, password));
      }
    }

    method HandleNew(socket: Socket, req: Request, now: int)
      requires Valid() && Mine(socket)
      modifies this, sockets
      ensures Valid() && sockets == old(sockets)
      ensures View() == M.HandleNew(env, old(View()), socket.id, req, now)
    {
      SetState(socket, NoAuth);
      if req.Key? && req.key != "" {
        PresentKey(socket, req.key, now);
      } else if req.Auth? && req.username != "" && req.password != "" {
        Auth(socket, req.username, req.password);
      } else {
        Destroy(socket);
      }
    }

    // ---------------------------------------------------------- commands

    method ChangePassword(socket: Socket, current: string, password: string)
      requires Valid() && Mine(socket)
      modifies this, sockets
      ensures Valid() && sockets == old(sockets)
      ensures View() == M.StartChange(old(View()), socket.id, current, password)
    {
      if current != "" && password != "" {
        if |password| < M.MIN_PASSWORD_LENGTH {
          Write(socket, Notice("Unable to change password: password is too short."));
          return;
        }
        if locked {
          Write(socket, Notice("Unable to change password (database locked)."));
          return;
        }
        assert NetView().socks[socket.id] == socket.View();
        Acquire(Change(socket.id, Printed(socket.username), current, password));
      } else {
        Write(socket, Notice("Malformed password change request."));
      }
    }

    method SendPrivate(socket: Socket, target: string, body: string)
      requires Valid() && Mine(socket)
      modifies sockets
      ensures Valid()
      ensures View() == M.SendPrivate(old(View()), socket.id, target, body)
    {
      assert NetView().socks[socket.id] == socket.View();
      var found := GetSocketByUsername(target);
      if found != null {
        Write(found, PrivNote(Printed(socket.username), body));
      } else {
        Write(socket, Error("No such user"));
      }
    }

    /** The topics in the order `for (var id in threads)` meets them. */
    method CollectTopics() returns (topics: seq<Thread>)
      ensures topics == B.Topics(B.Shelf(threads, nextThreadID))
    {
      topics := [];
      var id := 0;
      while id < nextThreadID
        invariant 0 <= id && (nextThreadID >= 0 ==> id <= nextThreadID) && (nextThreadID < 0 ==> id == 0)
        invariant topics == B.TopicsBelow(threads, id)
      {
        if id in threads {
          topics := topics + [threads[id]];
        }
        id := id + 1;
      }
    }

    method CreateNewThread(username: string, title: string, body: string, ttl: int, now: int) returns (thread: Option<Thread>)
      modifies this`nextThreadID
      ensures thread == B.Created(B.Shelf(threads, old(nextThreadID)), username, title, body, ttl, now)
      ensures nextThreadID == old(nextThreadID) + if thread.Some? then 1 else 0
    {
      if |title| < 1 || |body| < 1 || ttl < 1 {
        return None;
      }
      thread := Some(Thread(nextThreadID, username, B.Truncated(title), body, ttl, now, []));
      nextThreadID := nextThreadID + 1;
    }

    method PostMessage(id: int, username: string, message: string) returns (posted: bool)
      requires id in threads
      modifies this`threads
      ensures posted <==> message != ""
      ensures posted ==> id in threads && B.PostedBy(old(threads)[id], threads[id], username, message)
      ensures threads == if posted then old(threads)[id := threads[id]] else old(threads)
    {
      if |message| == 0 {
        return false;
      }
      threads := threads[id := threads[id].(messages := threads[id].messages + [Post(username, message)])];
      return true;
    }

    /** The board commands: the reply that goes to the sender. */
    method ServeBoard(username: string, req: Request, now: int) returns (reply: Reply)
      requires B.BoardRequest(req)
      modifies this`threads, this`nextThreadID
      ensures (B.Shelf(threads, nextThreadID), reply) ==
        B.Serve(env.sort, B.Shelf(old(threads), old(nextThreadID)), username, req, now)
    {
      match req
      case Threads =>
        var topics := CollectTopics();
        reply := ThreadList(env.sort(topics, B.ByRemaining(now)));
      case GetThread(id) =>
        reply := if id != 0 && id in threads then ThreadIs(threads[id]) else Error("No such thread");
      case NewThread(title, body, ttl) =>
        if title == "" || body == "" || ttl == 0 {
          reply := Error("Cannot create thread: invalid parameters");
        } else {
          var thread := CreateNewThread(username, title, body, ttl, now);
          if thread.Some? {
            threads := threads[thread.value.id := thread.value];
            reply := ThreadIs(thread.value);
          } else {
            reply := Error("Could not create thread");
          }
        }
      case DeleteThread(id) =>
        if id != 0 && id in threads {
          if threads[id].username == username {
            threads := threads - {id};
            reply := Deleted("Thread deleted");
          } else {
            reply := Error("Cannot delete thread: no privileges");
          }
        } else {
          reply := Error("No such thread");
        }
      case PostTo(id, body) =>
        if id != 0 && id in threads && body != "" {
          var posted := PostMessage(id, username, body);
          reply := if posted then ThreadIs(threads[id]) else Error("Cannot post to thread");
        } else {
          reply := Error("No such thread");
        }
    }

    method AnswerBoard(socket: Socket, req: Request, now: int)
      requires Valid() && Mine(socket) && B.BoardRequest(req)
      modifies this`threads, this`nextThreadID, socket
      ensures Valid()
      ensures View() == M.ServeBoard(env, old(View()), socket.id, req, now)
    {
      assert NetView().socks[socket.id] == socket.View();
      var reply := ServeBoard(Printed(socket.username), req, now);
      Write(socket, reply);
    }

    method HandleMessage(socket: Socket, req: Request, now: int)
      requires Valid() && Mine(socket)
      modifies this, sockets
      ensures Valid() && sockets == old(sockets)
      ensures View() == M.HandleMessage(env, old(View()), socket.id, req, now)
    {
      assert NetView().socks[socket.id] == socket.View();
      if !socket.authenticated {
        HandleNew(socket, req, now);
        return;
      }
      if req.Quit? {
        Kill(socket, "Quit");
      } else if req.Users? {
        SendUsers(socket);
      } else if req.Status? {
        SendStatus(socket, now);
      } else if req.Password? {
        ChangePassword(socket, req.current, req.password);
      } else if req.PubMsg? {
        Broadcast(socket, PubNote(Printed(socket.username), req.body));
      } else if req.PrivMsg? {
        if req.target != "" {
          SendPrivate(socket, req.target, req.body);
        }
      } else if B.BoardRequest(req) {
        AnswerBoard(socket, req, now);
      }
    }

    /** One line of a chunk, parsed: a message, or text on which the handler throws. */
    method HandleLine(socket: Socket, line: Line, now: int)
      requires Valid() && Mine(socket)
      modifies this, sockets
      ensures Valid() && sockets == old(sockets)
      ensures View() == M.Step(env, old(View()), M.Data(socket.id, line, now))
    {
      match line
      case Parsed(req) => HandleMessage(socket, req, now);
      case Garbled => Kill(socket, "Killed: indecent hacking");
    }

    /** The handler of a `data` event: the lines of the chunk that are not empty, each parsed and handled. */
    method OnData(socket: Socket, buffer: string, parse: string -> Line, clock: M.Clock)
      requires Valid() && Mine(socket)
      modifies this, sockets
      ensures Valid() && sockets == old(sockets)
      ensures View() == M.Run(env, old(View()), M.ChunkEvents(socket.id, T.Received(buffer), parse, clock, 0))
    {
      var lines := T.Split(buffer, T.NEWLINE);
      var handled := 0;
      for k := 0 to |lines|
        invariant Valid() && sockets == old(sockets)
        invariant M.Run(env, old(View()), M.ChunkEvents(socket.id, T.NonEmpty(lines), parse, clock, 0)) ==
                  M.Run(env, View(), M.ChunkEvents(socket.id, T.NonEmpty(lines[k..]), parse, clock, handled))
      {
        T.NonEmptyStep(lines, k);
        if lines[k] != "" {
          ChunkCons(env, View(), socket.id, lines[k], T.NonEmpty(lines[k + 1..]), parse, clock, handled);
          HandleLine(socket, parse(lines[k]), clock(handled));
          handled := handled + 1;
        }
      }
    }

    method OnEnd(socket: Socket)
      requires Valid() && Mine(socket)
      modifies this, sockets
      ensures Valid() && sockets == old(sockets)
      ensures View() == M.Step(env, old(View()), M.Hangup(socket.id))
    {
      Kill(socket, "Connection terminated");
    }

    method OnError(socket: Socket)
      requires Valid() && Mine(socket)
      modifies this, sockets
      ensures Valid() && sockets == old(sockets)
      ensures View() == M.Step(env, old(View()), M.Fault(socket.id))
    {
      Kill(socket, "Connection error");
    }

    // ---------------------------------------------------------- callbacks

    /** The database engine reads a record. */
    method DatabaseReads(op: nat, fault: bool)
      requires Valid() && op in ops && ops[op].stage.Reading?
      modifies this`ops
      ensures Valid() && View() == M.Step(env, old(View()), M.Fetch(op, fault))
    {
      var user := ops[op].job.user;
      var found := if fault || user !in table then None else Some(table[user]);
      ops := ops[op := ops[op].(stage := M.Fetched(found))];
    }

    /** What `handleNew` does once `auth` has succeeded. */
    method Issue(socket: Socket, user: string, key: string)
      requires Valid() && Mine(socket)
      modifies this, sockets
      ensures Valid() && sockets == old(sockets)
      ensures View() == M.Issue(old(View()), socket.id, user, key)
    {
      keys := keys[key := user];
      timers := timers[|log| := Timer(key, user, socket.id)];
      log := log + [Issued(key, user, socket.id)];
      SetState(socket, WaitKey);
      Write(socket, RawKey(key));
      Destroy(socket);
      assert NetView() == M.Issue(old(View()), socket.id, user, key).net;
    }

    /** The callback `auth` passes to `db.get`. */
    method OnLogonRead(socket: Socket, op: nat, draws: Draws, ghost hash: string)
      requires Valid() && Mine(socket)
      requires op in ops && ops[op].stage.Fetched? && ops[op].job.Logon? && ops[op].job.sock == socket.id
      modifies this, sockets
      ensures Valid() && sockets == old(sockets)
      ensures View() == M.Step(env, old(View()), M.GetDone(op, draws, hash))
    {
      var job, found := ops[op].job, ops[op].stage.found;
      Release(op);
      if found.None? || !env.check(job.password, found.value) {
        Destroy(socket);
        return;
      }
      var key := GenerateKey(draws);
      Issue(socket, job.user, key);
    }

    /** The callback `changePassword` passes to `db.get`. */
    method OnChangeRead(socket: Socket, op: nat, hash: string, ghost draws: Draws)
      requires Valid() && Mine(socket)
      requires op in ops && ops[op].stage.Fetched? && ops[op].job.Change? && ops[op].job.sock == socket.id
      modifies this, sockets
      ensures Valid() && sockets == old(sockets)
      ensures View() == M.Step(env, old(View()), M.GetDone(op, draws, hash))
    {
      var job, found := ops[op].job, ops[op].stage.found;
      if found.None? {
        Write(socket, Notice("Unable to change password: no such user."));
        Release(op);
        return;
      }
      if !env.check(job.current, found.value) {
        Write(socket, Notice("Unable to change password: current password not correct."));
        Release(op);
        return;
      }
      assert NetView().socks[socket.id] == socket.View();
      ops := ops[op := M.Op(job, M.Writing(Printed(socket.username), hash))];
      log := log + [Verified(op, job.user, found.value)];
    }

    /** The database engine stores a record. */
    method DatabaseStores(op: nat)
      requires Valid() && op in ops && ops[op].stage.Writing?
      modifies this`table, this`ops, this`log
      ensures Valid() && View() == M.Step(env, old(View()), M.Store(op))
    {
      var user, hash := ops[op].stage.user, ops[op].stage.hash;
      log := log + [Overwrote(op, user, Lookup(table, user), hash)];
      table := table[user := hash];
      ops := ops[op := ops[op].(stage := M.Written)];
    }

    /** The callback of `db.put`. */
    method OnPut(socket: Socket, op: nat, fault: bool)
      requires Valid() && Mine(socket)
      requires op in ops && ops[op].job.sock == socket.id
      requires ops[op].stage.Written? || (fault && ops[op].stage.Writing?)
      modifies this, sockets
      ensures Valid() && sockets == old(sockets)
      ensures View() == M.Step(env, old(View()), M.PutDone(op, fault))
    {
      Release(op);
      if fault {
        Write(socket, Notice("Unable to change password (database I/O error)."));
      } else {
        Write(socket, Notice("Password changed."));
      }
    }

    /** The callback of the key timer. */
    method OnKeyTimer(socket: Socket, issue: nat)
      requires Valid() && Mine(socket) && issue in timers && timers[issue].sock == socket.id
      modifies this, sockets
      ensures Valid() && sockets == old(sockets)
      ensures View() == M.Step(env, old(View()), M.KeyTimer(issue))
    {
      var key, user := timers[issue].key, timers[issue].user;
      SetState(socket, KeyTimeout);
      var found := GetSocketByUsername(user);
      Forget(issue, key, user, found != null);
    }

    /** What is left to do once it is known whether the key's user has a session. */
    method Forget(issue: nat, key: string, user: string, online: bool)
      requires Valid()
      modifies this`keys, this`timers, this`log
      ensures Valid() && NetView() == old(NetView())
      ensures keys == if online then old(keys) else old(keys) - {key}
      ensures timers == old(timers) - {issue} && log == old(log) + [TimerRan(issue, key, user, online)]
    {
      if !online {
        keys := keys - {key};
      }
      timers := timers - {issue};
      log := log + [TimerRan(issue, key, user, online)];
    }
  }

  /** Handling a chunk is handling its first line, and then the rest. */
  lemma ChunkCons(env: M.Env, s: M.State, i: nat, line: string, rest: seq<string>, parse: string -> Line, clock: M.Clock, n: nat)
    ensures M.Run(env, s, M.ChunkEvents(i, [line] + rest, parse, clock, n)) ==
            M.Run(env, M.Step(env, s, M.Data(i, parse(line), clock(n))), M.ChunkEvents(i, rest, parse, clock, n + 1))
  {
    var events := M.ChunkEvents(i, [line] + rest, parse, clock, n);
    assert events[0] == M.Data(i, parse(line), clock(n));
    assert events[1..] == M.ChunkEvents(i, rest, parse, clock, n + 1);
  }

  /** Taking out the first entry of a socket takes its number out of the numbers. */
  lemma SplicedIds(list: seq<Socket>, socket: Socket, k: nat)
    requires k < |list| && list[k] == socket && socket !in list[..k]
    requires forall m :: 0 <= m < |list| && list[m].id == socket.id ==> list[m] == socket
    ensures Without(Ids(list), socket.id) == Ids(list[..k] + list[k + 1..])
  {
    var ids := Ids(list);
    forall m | 0 <= m < k ensures ids[..k][m] != socket.id {
      assert list[m] in list[..k];
    }
    WithoutAt(ids, socket.id, k);
    assert Ids(list[..k] + list[k + 1..]) == ids[..k] + ids[k + 1..];
  }

  lemma {:induction false} WithoutAt(xs: seq<nat>, x: nat, k: nat)
    requires k < |xs| && xs[k] == x && x !in xs[..k]
    ensures Without(xs, x) == xs[..k] + xs[k + 1..]
  {
    if k == 0 {
    } else {
      assert xs[0] in xs[..k];
      assert xs[1..][..k - 1] == xs[..k][1..];
      WithoutAt(xs[1..], x, k - 1);
      assert xs[..k] == [xs[0]] + xs[1..][..k - 1];
    }
  }
}

/** The messages of the line protocol and the board records, as docs/PROTOCOL.md and
    server.js use them.  A string field that a message lacks is modelled as "", and a
    missing number as 0: server.js and client.js only test such fields for truth. */
module Protocol {

  datatype Option<+T> = None | Some(value: T)

  datatype Post = Post(username: string, message: string)

  datatype Thread = Thread(
    id: int, username: string, title: string, body: string,
    ttl: int, created: int, messages: seq<Post>)

  /** What a client may ask of the server (the `type` field of a message). */
  datatype Request =
    | Key(key: string)
    | Auth(username: string, password: string)
    | Quit
    | Users
    | Status
    | Password(current: string, password: string)
    | PubMsg(body: string)
    | PrivMsg(target: string, body: string)
    | Threads
    | GetThread(thread: int)
    | NewThread(title: string, body: string, ttl: int)
    | DeleteThread(thread: int)
    | PostTo(thread: int, body: string)
    | Unknown

  /** One line of a data chunk: a message, or text on which the handler throws. */
  datatype Line = Parsed(request: Request) | Garbled

  /** What the server writes to a socket. `RawKey` is the one-time key, written without framing. */
  datatype Reply =
    | UserIs(username: string)
    | Join(nick: string)
    | QuitNote(nick: string, body: string)
    | UserList(users: map<string, nat>)
    | StatusIs(uptime: int, online: nat)
    | PubNote(nick: string, body: string)
    | PrivNote(nick: string, body: string)
    | ThreadList(topics: seq<Thread>)
    | ThreadIs(thread: Thread)
    | Deleted(body: string)
    | Error(body: string)
    | Notice(body: string)
    | RawKey(key: string)
}

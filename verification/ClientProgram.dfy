/** client/client.js: how the terminal client reacts to what it receives. */
module ClientProgram {
  import opened Protocol
  import opened Text

  /** `app.username` and the user list on screen. */
  datatype View = View(username: string, users: Option<map<string, nat>>)

  const FRESH_VIEW := View("--Disconnected--", None)

  /** A notice on which the client asks for the user list again. */
  predicate Announces(reply: Reply) {
    (reply.Join? && reply.nick != "") || (reply.QuitNote? && reply.nick != "" && reply.body != "")
  }

  function Seen(view: View, reply: Reply): View {
    if reply.UserIs? && reply.username != "" then view.(username := reply.username)
    else if reply.UserList? then view.(users := Some(reply.users))
    else view
  }

  function Answer(reply: Reply): seq<Request> {
    if Announces(reply) then [Users] else []
  }

  /** The view and the requests sent, after taking these messages one by one. */
  function Took(view: View, sent: seq<Request>, replies: seq<Reply>): (View, seq<Request>)
    decreases |replies|
  {
    if replies == [] then (view, sent) else Took(Seen(view, replies[0]), sent + Answer(replies[0]), replies[1..])
  }

  /** The newest user list among these messages, or the one shown before. */
  function Newest(out: seq<Reply>, shown: Option<map<string, nat>>): Option<map<string, nat>> {
    if out == [] then shown
    else if out[|out| - 1].UserList? then Some(out[|out| - 1].users)
    else Newest(out[..|out| - 1], shown)
  }

  function Announcements(replies: seq<Reply>): nat {
    if replies == [] then 0 else (if Announces(replies[0]) then 1 else 0) + Announcements(replies[1..])
  }

  lemma {:induction false} NewestAfterReading(out: seq<Reply>, view: View)
    requires out != []
    ensures Newest(out[1..], Seen(view, out[0]).users) == Newest(out, view.users)
  {
    var n := |out| - 1;
    if n == 0 {
      assert out[1..] == [] && out[..0] == [];
    } else {
      assert out[1..][|out[1..]| - 1] == out[n];
      assert out[1..][..|out[1..]| - 1] == out[..n][1..];
      NewestAfterReading(out[..n], view);
    }
  }

  /** Whatever arrives, the client ends up showing the newest list among it, and has asked for the list once
      for every notice of a join or quit, and for nothing else. */
  lemma {:induction false} TookNewest(view: View, sent: seq<Request>, replies: seq<Reply>)
    ensures Took(view, sent, replies).0.users == Newest(replies, view.users)
    ensures Took(view, sent, replies).1 == sent + seq(Announcements(replies), _ => Users)
    decreases |replies|
  {
    if replies != [] {
      NewestAfterReading(replies, view);
      TookNewest(Seen(view, replies[0]), sent + Answer(replies[0]), replies[1..]);
      assert Answer(replies[0]) + seq(Announcements(replies[1..]), _ => Users) == seq(Announcements(replies), _ => Users);
    } else {
      assert sent + seq(0, _ => Users) == sent;
    }
  }

  /** The name in the newest `user` message among these that has one, or the one known before. */
  function NewestName(out: seq<Reply>, known: string): string {
    if out == [] then known
    else
      var last := out[|out| - 1];
      if last.UserIs? && last.username != "" then last.username else NewestName(out[..|out| - 1], known)
  }

  lemma {:induction false} NameAfterReading(out: seq<Reply>, view: View)
    requires out != []
    ensures NewestName(out[1..], Seen(view, out[0]).username) == NewestName(out, view.username)
  {
    var n := |out| - 1;
    if n == 0 {
      assert out[1..] == [] && out[..0] == [];
    } else {
      assert out[1..][|out[1..]| - 1] == out[n];
      assert out[1..][..|out[1..]| - 1] == out[..n][1..];
      NameAfterReading(out[..n], view);
    }
  }

  /** And it goes by the name it was last told. */
  lemma {:induction false} TookName(view: View, sent: seq<Request>, replies: seq<Reply>)
    ensures Took(view, sent, replies).0.username == NewestName(replies, view.username)
    decreases |replies|
  {
    if replies == [] {
    } else {
      NameAfterReading(replies, view);
      TookName(Seen(view, replies[0]), sent + Answer(replies[0]), replies[1..]);
    }
  }

  /** Turns a line into a message; None when it does not parse. */
  type Decoder = string -> Option<Reply>

  function DecodeAll(decode: Decoder, lines: seq<string>): seq<Reply> {
    if lines == [] then []
    else
      var first := decode(lines[0]);
      (if first.Some? then [first.value] else []) + DecodeAll(decode, lines[1..])
  }

  /** The messages in the lines from `i` on. */
  function Todo(decode: Decoder, lines: seq<string>, i: nat): seq<Reply>
    requires i <= |lines|
  {
    DecodeAll(decode, NonEmpty(lines[i..]))
  }

  lemma TodoStep(decode: Decoder, lines: seq<string>, i: nat)
    requires i < |lines|
    ensures Todo(decode, lines, i) ==
      if lines[i] != "" && decode(lines[i]).Some? then [decode(lines[i]).value] + Todo(decode, lines, i + 1)
      else Todo(decode, lines, i + 1)
  {
    NonEmptyStep(lines, i);
    var rest := NonEmpty(lines[i + 1..]);
    if lines[i] != "" {
      assert ([lines[i]] + rest)[1..] == rest;
      assert [] + DecodeAll(decode, rest) == DecodeAll(decode, rest);
    }
  }

  /** Both halves of the wire: the messages a client takes from a stream of whole messages are those
      the server sent, when decoding undoes the encoding. */
  lemma {:induction false} DecodeWhatWasSent(decode: Decoder, encode: Reply -> string, replies: seq<Reply>)
    requires forall k :: 0 <= k < |replies| ==> Frameable(encode(replies[k])) && decode(encode(replies[k])) == Some(replies[k])
    ensures DecodeAll(decode, Encoded(encode, replies)) == replies
    ensures DecodeAll(decode, Received(Sent(Encoded(encode, replies)))) == replies
  {
    FramingRoundTrip(Encoded(encode, replies));
    if replies == [] {
    } else {
      DecodeWhatWasSent(decode, encode, replies[1..]);
      assert Encoded(encode, replies)[1..] == Encoded(encode, replies[1..]);
    }
  }

  function Encoded(encode: Reply -> string, replies: seq<Reply>): (lines: seq<string>)
    ensures |lines| == |replies|
    ensures forall k :: 0 <= k < |replies| ==> lines[k] == encode(replies[k])
  {
    seq(|replies|, k requires 0 <= k < |replies| => encode(replies[k]))
  }

  class Client {
    var username: string
    var users: Option<map<string, nat>>
    var sent: seq<Request>

    function Shown(): View
      reads this
    {
      View(username, users)
    }

    /** Connecting sends the key the program was started with. */
    constructor (key: string)
      ensures Shown() == FRESH_VIEW && sent == [Key(key)]
    {
      username, users, sent := "--Disconnected--", None, [Key(key)];
    }

    method Send(request: Request)
      modifies this`sent
      ensures sent == old(sent) + [request]
    {
      sent := sent + [request];
    }

    method HandleMessage(reply: Reply)
      modifies this
      ensures Shown() == Seen(old(Shown()), reply)
      ensures sent == old(sent) + Answer(reply)
    {
      if reply.UserIs? && reply.username != "" {
        username := reply.username;
      } else if reply.UserList? {
        users := Some(reply.users);
      } else if reply.Join? && reply.nick != "" {
        Send(Users);
      } else if reply.QuitNote? && reply.nick != "" && reply.body != "" {
        Send(Users);
      }
    }

    /** The handler of a `data` event: lines that do not parse are logged and passed over. */
    method OnData(buffer: string, decode: Decoder)
      modifies this
      ensures (Shown(), sent) == Took(old(Shown()), old(sent), DecodeAll(decode, Received(buffer)))
    {
      var lines := Split(buffer, NEWLINE);
      assert lines[0..] == lines;
      for i := 0 to |lines|
        invariant Took(Shown(), sent, Todo(decode, lines, i)) == Took(old(Shown()), old(sent), Todo(decode, lines, 0))
      {
        TodoStep(decode, lines, i);
        if lines[i] != "" {
          var reply := decode(lines[i]);
          if reply.Some? {
            ghost var later := Todo(decode, lines, i + 1);
            assert ([reply.value] + later)[1..] == later;
            HandleMessage(reply.value);
          }
        }
      }
    }
  }
}

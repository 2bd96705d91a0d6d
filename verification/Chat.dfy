/** client/chat.js: slash commands, their completion, and the list of users on screen. */
module Chat {
  import opened Protocol
  import opened Text
  import opened Decimal
  import opened Registry
  import opened History
  import opened Machine
  import opened Tracking
  import opened Promises

  const SPACE := ' '
  const COMMANDS := ["/passwd", "/users", "/msg", "/quit", "/help"]

  /** What a typed command does: send a request, show a usage line, the help, or a complaint. */
  datatype Outcome = Ask(request: Request) | Usage(command: string) | Help | NoSuchCommand

  function OutcomeOf(text: string): Outcome {
    var words := Split(text, SPACE);
    var cmd, args := words[0], words[1..];
    if cmd == "/passwd" then
      if |args| == 2 then Ask(Password(args[0], args[1])) else Usage(cmd)
    else if cmd == "/users" then Ask(Users)
    else if cmd == "/msg" then
      if |args| >= 2 then Ask(PrivMsg(args[0], JoinWith(args[1..], SPACE))) else Usage(cmd)
    else if cmd == "/quit" then Ask(Quit)
    else if cmd == "/help" then Help
    else NoSuchCommand
  }

  class ChatView {
    var sent: seq<Request>
    /** The text in the command box. */
    var value: string
    var username: string
    /** The rows of the user list, and which of them is selected. */
    var rows: seq<string>
    var selected: nat

    constructor (username: string)
      ensures sent == [] && value == "" && this.username == username && rows == [] && selected == 0
    {
      sent, value, this.username, rows, selected := [], "", username, [], 0;
    }

    /** `onMsg`: the nick is shifted off the arguments and the rest joined again. */
    method OnMsg(args: seq<string>) returns (usage: bool)
      modifies this`sent
      ensures usage <==> |args| < 2
      ensures sent == if usage then old(sent) else old(sent) + [PrivMsg(args[0], JoinWith(args[1..], SPACE))]
    {
      if |args| < 2 {
        return true;
      }
      var rest := args;
      var nick := rest[0];
      rest := rest[1..];
      sent := sent + [PrivMsg(nick, JoinWith(rest, SPACE))];
      return false;
    }

    method OnPasswd(args: seq<string>) returns (usage: bool)
      modifies this`sent
      ensures usage <==> |args| != 2
      ensures sent == if usage then old(sent) else old(sent) + [Password(args[0], args[1])]
    {
      if |args| != 2 {
        return true;
      }
      sent := sent + [Password(args[0], args[1])];
      return false;
    }

    method HandleCommand(text: string) returns (outcome: Outcome)
      modifies this`sent
      ensures outcome == OutcomeOf(text)
      ensures sent == old(sent) + if outcome.Ask? then [outcome.request] else []
    {
      var words := Split(text, SPACE);
      var cmd := words[0];
      words := words[1..];
      var usage := false;
      if cmd == "/passwd" {
        usage := OnPasswd(words);
        if !usage { return Ask(Password(words[0], words[1])); }
      } else if cmd == "/users" {
        sent := sent + [Users];
        return Ask(Users);
      } else if cmd == "/msg" {
        usage := OnMsg(words);
        if !usage { return Ask(PrivMsg(words[0], JoinWith(words[1..], SPACE))); }
      } else if cmd == "/quit" {
        sent := sent + [Quit];
        return Ask(Quit);
      } else if cmd == "/help" {
        return Help;
      } else {
        return NoSuchCommand;
      }
      return Usage(cmd);
    }

    /** The tab key on a slash command: the commands are drained one by one, those the text starts are candidates. */
    method CompleteCommand(text: string) returns (candidates: seq<string>)
      modifies this`value
      ensures candidates == Matching(COMMANDS, text)
      ensures value == if |candidates| == 1 then candidates[0] + [SPACE] else text
    {
      value := text;
      var cmds := COMMANDS;
      candidates := [];
      while |cmds| > 0
        invariant candidates + Matching(cmds, text) == Matching(COMMANDS, text)
      {
        var c := cmds[0];
        assert candidates + Matching(cmds, text) ==
               (if text <= c then candidates + [c] else candidates) + Matching(cmds[1..], text);
        cmds := cmds[1..];
        if text <= c {
          candidates := candidates + [c];
        }
      }
      if |candidates| == 1 {
        value := candidates[0] + [SPACE];
      }
    }

    /** `updateUsers`: one row for each user, in the order of the message; the client's own row is selected. */
    method UpdateUsers(users: seq<(string, nat)>)
      requires forall a, b :: 0 <= a < b < |users| ==> users[a].0 != users[b].0
      modifies this`rows, this`selected
      ensures |rows| == |users| && forall k :: 0 <= k < |users| ==> rows[k] == UserRow(users[k])
      ensures if exists k :: 0 <= k < |users| && users[k].0 == username
              then selected < |users| && users[selected].0 == username else selected == 0
    {
      rows := [];
      var i, index := 0, 0;
      while i < |users|
        invariant i <= |users| && |rows| == i
        invariant forall k :: 0 <= k < i ==> rows[k] == UserRow(users[k])
        invariant if exists k :: 0 <= k < i && users[k].0 == username
                  then index < i && users[index].0 == username else index == 0
      {
        var nick := users[i].0;
        if nick == username {
          index := i;
        }
        if users[i].1 > 1 {
          nick := nick + (" {red-fg}(" + Dec(users[i].1) + "){/red-fg}");
        }
        rows := rows + [nick];
        i := i + 1;
      }
      selected := index;
    }
  }

  function UserRow(user: (string, nat)): string {
    if user.1 > 1 then user.0 + (" {red-fg}(" + Dec(user.1) + "){/red-fg}") else user.0
  }

  const COUNT_OPEN := " {red-fg}("
  const COUNT_CLOSE := "){/red-fg}"

  /** What a reader sees behind the name in a row: how many sessions. */
  function ReadMark(mark: string): Option<nat> {
    if mark == "" then Some(1)
    else if |COUNT_OPEN| + |COUNT_CLOSE| <= |mark| && COUNT_OPEN <= mark && mark[|mark| - |COUNT_CLOSE|..] == COUNT_CLOSE then
      var d := mark[|COUNT_OPEN|..|mark| - |COUNT_CLOSE|];
      if forall k :: 0 <= k < |d| ==> IsDigit(d[k]) then Some(Value(d)) else None
    else None
  }

  lemma MarkReads(n: nat)
    ensures ReadMark(COUNT_OPEN + Dec(n) + COUNT_CLOSE) == Some(n)
  {
    var mark := COUNT_OPEN + Dec(n) + COUNT_CLOSE;
    DecRoundTrip(n);
    assert mark[|COUNT_OPEN|..|mark| - |COUNT_CLOSE|] == Dec(n) && mark[|mark| - |COUNT_CLOSE|..] == COUNT_CLOSE;
  }

  /** A row shows its user's name, and the number of the user's sessions unless that is one. */
  lemma RowShowsUser(nick: string, n: nat)
    requires n > 0
    ensures nick <= UserRow((nick, n)) && ReadMark(UserRow((nick, n))[|nick|..]) == Some(n)
  {
    if n > 1 {
      MarkReads(n);
      assert UserRow((nick, n))[|nick|..] == COUNT_OPEN + Dec(n) + COUNT_CLOSE;
    }
  }

  /** The commands this text is the beginning of (`indexOf(text) == 0`). */
  function Matching(cmds: seq<string>, text: string): seq<string> {
    if cmds == [] then [] else Pick(cmds[0], text) + Matching(cmds[1..], text)
  }

  function Pick(cmd: string, text: string): seq<string> {
    if text <= cmd then [cmd] else []
  }

  // ------------------------------------------------------------ what typing a command means

  function Typed(cmd: string, a: string, b: string): string {
    cmd + [SPACE] + (a + [SPACE] + b)
  }

  lemma JoinOne(word: string, rest: seq<string>)
    requires rest != []
    ensures JoinWith([word] + rest, SPACE) == word + [SPACE] + JoinWith(rest, SPACE)
  {
    assert ([word] + rest)[1..] == rest;
  }

  /** A line is a command with a first argument and a remainder exactly when its words are. */
  lemma WordsOfTyped(text: string, cmd: string, a: string, b: string)
    requires SPACE !in cmd && SPACE !in a
    ensures text == Typed(cmd, a, b) <==>
      var words := Split(text, SPACE);
      |words| >= 3 && words[0] == cmd && words[1] == a && JoinWith(words[2..], SPACE) == b
  {
    var words := Split(text, SPACE);
    if text == Typed(cmd, a, b) {
      SplitFirst(cmd, a + [SPACE] + b, SPACE);
      SplitFirst(a, b, SPACE);
      assert words[2..] == Split(b, SPACE);
      JoinSplit(b, SPACE);
    }
    if |words| >= 3 && words[0] == cmd && words[1] == a && JoinWith(words[2..], SPACE) == b {
      JoinSplit(text, SPACE);
      JoinOne(a, words[2..]);
      JoinOne(cmd, [a] + words[2..]);
      assert words == [cmd] + ([a] + words[2..]);
    }
  }

  /** Command round trip, both ways: what is typed sends a private message of this text to this nick
      exactly when it is `/msg`, a space, the nick, a space and the text, spaces in the text and all. */
  lemma MsgRoundTrip(text: string, nick: string, body: string)
    ensures OutcomeOf(text) == Ask(PrivMsg(nick, body)) <==> SPACE !in nick && text == Typed("/msg", nick, body)
  {
    SplitPieces(text, SPACE);
    assert SPACE !in "/msg";
    var words := Split(text, SPACE);
    if SPACE !in nick {
      WordsOfTyped(text, "/msg", nick, body);
      if |words| >= 3 { assert words[1..][1..] == words[2..]; }
    }
  }

  /** A password change is sent exactly for `/passwd` with two words. */
  lemma PasswdRoundTrip(text: string, current: string, next: string)
    ensures OutcomeOf(text) == Ask(Password(current, next)) <==>
      SPACE !in current && SPACE !in next && text == Typed("/passwd", current, next)
  {
    SplitPieces(text, SPACE);
    assert SPACE !in "/passwd";
    var words := Split(text, SPACE);
    if SPACE !in current {
      WordsOfTyped(text, "/passwd", current, next);
      if SPACE !in next {
        SplitPlain(next, SPACE);
        if text == Typed("/passwd", current, next) {
          SplitFirst("/passwd", current + [SPACE] + next, SPACE);
          SplitFirst(current, next, SPACE);
        }
      }
      if |words| == 3 { assert words[2..] == [words[2]]; }
    }
  }

  // ------------------------------------------------------------ what every line does

  /** The first word of the line is this one. */
  predicate Begins(text: string, word: string) {
    text == word || word + [SPACE] <= text
  }

  function Spaces(text: string): nat {
    if text == "" then 0 else (if text[0] == SPACE then 1 else 0) + Spaces(text[1..])
  }

  lemma {:induction false} WordsAreSpaces(text: string)
    ensures |Split(text, SPACE)| == Spaces(text) + 1
  {
    if text == "" {
    } else {
      WordsAreSpaces(text[1..]);
    }
  }

  lemma FirstWord(text: string, word: string)
    requires SPACE !in word
    ensures Split(text, SPACE)[0] == word <==> Begins(text, word)
  {
    if text == word {
      SplitPlain(text, SPACE);
    } else if word + [SPACE] <= text {
      SplitFirst(word, text[|word| + 1..], SPACE);
      assert text == word + [SPACE] + text[|word| + 1..];
    }
    if Split(text, SPACE)[0] == word {
      var words := Split(text, SPACE);
      JoinSplit(text, SPACE);
      if |words| > 1 { assert text == word + [SPACE] + JoinWith(words[1..], SPACE); }
    }
  }

  lemma CommandsArePlain()
    ensures SPACE !in "/passwd" && SPACE !in "/users" && SPACE !in "/msg" && SPACE !in "/quit" && SPACE !in "/help"
    ensures "/passwd"[1] == 'p' && "/users"[1] == 'u' && "/msg"[1] == 'm' && "/quit"[1] == 'q' && "/help"[1] == 'h'
  {
  }

  lemma FirstWords(text: string)
    ensures Split(text, SPACE)[0] == "/passwd" <==> Begins(text, "/passwd")
    ensures Split(text, SPACE)[0] == "/users" <==> Begins(text, "/users")
    ensures Split(text, SPACE)[0] == "/msg" <==> Begins(text, "/msg")
    ensures Split(text, SPACE)[0] == "/quit" <==> Begins(text, "/quit")
    ensures Split(text, SPACE)[0] == "/help" <==> Begins(text, "/help")
  {
    CommandsArePlain();
    FirstWord(text, "/passwd");
    FirstWord(text, "/users");
    FirstWord(text, "/msg");
    FirstWord(text, "/quit");
    FirstWord(text, "/help");
  }

  /** What a line that is no message and no password change does, exactly, in terms of its text: it asks for the
      users, or to quit, or shows the help, whatever follows the first word; it shows how to use `/msg` or `/passwd`
      when it has too few or too many words for them; and any other first word is no command. */
  lemma LinesDispatch(text: string)
    ensures OutcomeOf(text) == Ask(Users) <==> Begins(text, "/users")
    ensures OutcomeOf(text) == Ask(Quit) <==> Begins(text, "/quit")
    ensures OutcomeOf(text) == Help <==> Begins(text, "/help")
    ensures OutcomeOf(text) == Usage("/msg") <==> Begins(text, "/msg") && Spaces(text) < 2
    ensures OutcomeOf(text) == Usage("/passwd") <==> Begins(text, "/passwd") && Spaces(text) != 2
    ensures OutcomeOf(text) == NoSuchCommand <==>
      !Begins(text, "/passwd") && !Begins(text, "/users") && !Begins(text, "/msg") && !Begins(text, "/quit") && !Begins(text, "/help")
    ensures OutcomeOf(text).Ask? ==>
      var request := OutcomeOf(text).request;
      request.Users? || request.Quit? || request.PrivMsg? || request.Password?
    ensures OutcomeOf(text).Usage? ==> OutcomeOf(text).command == "/msg" || OutcomeOf(text).command == "/passwd"
  {
    CommandsArePlain();
    FirstWords(text);
    WordsAreSpaces(text);
  }

  /** From the keyboard to the other end: `/msg nick text`, typed by a logged-in user, puts exactly that text
      before the oldest session of that nick and nobody else, if and only if that session can be written to. */
  lemma TypedReachesOldest(env: Env, s: State, i: nat, nick: string, body: string, now: int, k: nat)
    requires Registered(s.net) && SessionsMatch(s.net, s.log) && i in s.net.clients && i < |s.net.socks|
    requires nick != "" && SPACE !in nick && OldestOf(s.log, k, nick)
    ensures
      var outcome := OutcomeOf(Typed("/msg", nick, body));
      outcome.Ask? && (Live(s.net, Replay(s.log)[k].sock) <==>
        HeardBy(s.net, Step(env, s, Data(i, Parsed(outcome.request), now)).net,
                Replay(s.log)[k].sock, PrivNote(NameAt(s.log, i), body)))
  {
    MsgRoundTrip(Typed("/msg", nick, body), nick, body);
    PrivateReachesOldest(env, s, i, nick, body, now, k);
  }

  /** The candidates are exactly the commands the text begins, each as often as it is there. */
  lemma {:induction false} CandidatesAre(cmds: seq<string>, text: string)
    ensures forall c :: multiset(Matching(cmds, text))[c] == if text <= c then multiset(cmds)[c] else 0
  {
    if cmds == [] {
    } else {
      CandidatesAre(cmds[1..], text);
      assert cmds == [cmds[0]] + cmds[1..];
      forall c ensures multiset(Matching(cmds, text))[c] == if text <= c then multiset(cmds)[c] else 0 {
        assert multiset(Matching(cmds, text)) == multiset(Pick(cmds[0], text)) + multiset(Matching(cmds[1..], text));
        assert multiset(cmds) == multiset{cmds[0]} + multiset(cmds[1..]);
      }
    }
  }

  /** Completion finishes a text exactly when it is the beginning, longer than the slash, of a command; the
      commands part at their second letter, so there is never a choice, and what is filled in is dispatched. */
  lemma CompletionIsUnique(text: string)
    requires text != "" && text[0] == '/'
    ensures |Matching(COMMANDS, text)| == 1 <==> |text| >= 2 && exists k :: 0 <= k < |COMMANDS| && text <= COMMANDS[k]
    ensures |Matching(COMMANDS, text)| == 1 ==>
      && Matching(COMMANDS, text)[0] in COMMANDS && text <= Matching(COMMANDS, text)[0]
      && OutcomeOf(Matching(COMMANDS, text)[0] + [SPACE]) != NoSuchCommand
  {
    assert COMMANDS[0][1] == 'p' && COMMANDS[1][1] == 'u' && COMMANDS[2][1] == 'm';
    assert COMMANDS[3][1] == 'q' && COMMANDS[4][1] == 'h';
    var c0, c1, c2, c3, c4 := "/passwd", "/users", "/msg", "/quit", "/help";
    MatchingFive(c0, c1, c2, c3, c4, text);
    assert COMMANDS == [c0, c1, c2, c3, c4];
    if |text| == 1 {
      assert text == "/";
      assert text <= c0 && text <= c1;
    }
    if |Matching(COMMANDS, text)| == 1 {
      CommandDispatches(Matching(COMMANDS, text)[0]);
    }
  }

  lemma CommandDispatches(cmd: string)
    requires cmd in COMMANDS
    ensures OutcomeOf(cmd + [SPACE]) != NoSuchCommand
  {
    assert SPACE !in cmd;
    SplitFirst(cmd, "", SPACE);
    assert cmd + [SPACE] + "" == cmd + [SPACE];
  }

  lemma MatchingFive(c0: string, c1: string, c2: string, c3: string, c4: string, text: string)
    ensures Matching([c0, c1, c2, c3, c4], text) ==
      Pick(c0, text) + (Pick(c1, text) + (Pick(c2, text) + (Pick(c3, text) + Pick(c4, text))))
  {
    assert [c0, c1, c2, c3, c4][1..] == [c1, c2, c3, c4] && [c1, c2, c3, c4][1..] == [c2, c3, c4];
    assert [c2, c3, c4][1..] == [c3, c4] && [c3, c4][1..] == [c4] && [c4][1..] == [];
    assert Matching([], text) == [] && Pick(c4, text) + [] == Pick(c4, text);
    assert Matching([c4], text) == Pick(c4, text);
    assert Matching([c3, c4], text) == Pick(c3, text) + Pick(c4, text);
    assert Matching([c2, c3, c4], text) == Pick(c2, text) + (Pick(c3, text) + Pick(c4, text));
  }
}

/** src/gateway.c: one SSH session, from its password logon to the end of the program it ran.
    What libssh and the kernel answer is an input: the callbacks each poll runs, whether it fails,
    what `fork` returns, when the child exits, whether the channel is still open. */
module Gateway {
  import opened Protocol

  const KEY_SIZE := 65
  const RECVBUF_SIZE := 128
  const SENDBUF_SIZE := 256
  const MAX_POLLS := 100
  const MAX_FAILURES := 3
  const NUL := 0 as char

  /** A wait status: the child called exit, or a signal ended it. */
  datatype Status = Exited(code: int) | Signaled(signal: int)

  datatype Life = Running | Zombie(status: Status) | Reaped(status: Status)

  /** A callback run from within a poll, with what its library and system calls return. */
  datatype Callback =
    | AuthPassword(user: string, pass: string, answer: string)
    | ChannelOpen(channel: nat)
    | PtyRequest(ok: bool, master: nat, slave: nat)
    | ShellRequest(fork: int)

  datatype Poll = Poll(calls: seq<Callback>, fails: bool)

  /** One turn of the main loop: the poll, whether the child exits meanwhile, and `ssh_channel_is_open` at its end. */
  datatype Turn = Turn(poll: Poll, exits: Option<Status>, open: bool)

  /** `cdata` and `sdata`, the kernel's view of the children, and what has been done with them. */
  datatype Gate = Gate(
    pid: int, master: int, slave: int, stdin: int, stdout: int, stderr: int, event: bool,
    channel: nat, attempts: nat, authenticated: bool, key: seq<char>,
    rc: Option<Status>, children: map<int, Life>, registered: seq<int>, spawned: seq<(int, string)>)

  function Zeros(n: nat): seq<char> {
    seq(n, _ => NUL)
  }

  const FRESH_GATE := Gate(0, -1, -1, -1, -1, -1, false, 0, 0, false, Zeros(KEY_SIZE), None, map[], [], [])

  // ------------------------------------------------------------ getting a key

  const PART1 := "{\"type\":\"auth\",\"username\":\""
  const PART2 := "\",\"password\":\""
  const PART3 := "\"}"

  /** What `snprintf` would write with room enough. */
  function Credentials(user: string, pass: string): string {
    PART1 + user + PART2 + pass + PART3
  }

  predicate AcceptableLogin(user: string, pass: string) {
    1 <= |user| <= 32 && 1 <= |pass| <= 64
  }

  /** `getkey` succeeds: the credentials fit and exactly 64 bytes come back. */
  predicate KeyGranted(user: string, pass: string, answer: string) {
    AcceptableLogin(user, pass) && |answer| == 64
  }

  /** The credentials always fit the send buffer, so the request goes out whole. */
  lemma CredentialsFit(user: string, pass: string)
    requires AcceptableLogin(user, pass)
    ensures |Credentials(user, pass)| + 1 <= SENDBUF_SIZE
  {
  }

  /** The text a C string in this buffer holds. */
  function CText(buffer: seq<char>): string {
    if buffer == [] || buffer[0] == NUL then "" else [buffer[0]] + CText(buffer[1..])
  }

  // ------------------------------------------------------------ callbacks

  function OnAuth(g: Gate, user: string, pass: string, answer: string): Gate {
    if KeyGranted(user, pass, answer)
    then g.(key := answer + [NUL], authenticated := true)
    else g.(key := Zeros(KEY_SIZE), attempts := g.attempts + 1)
  }

  function OnPty(g: Gate, ok: bool, master: nat, slave: nat): Gate {
    if ok then g.(master := master, slave := slave) else g
  }

  /** `exec_pty`: `fork` gives an unused process number or fails. */
  function ExecPty(g: Gate, fork: int): Gate {
    if fork > 0 && fork !in g.children
    then g.(pid := fork, stdin := g.master, stdout := g.master,
            children := g.children[fork := Running], spawned := g.spawned + [(fork, CText(g.key))])
    else g.(pid := -1)
  }

  function OnShell(g: Gate, fork: int): Gate {
    if g.pid > 0 then g else if g.master != -1 && g.slave != -1 then ExecPty(g, fork) else g
  }

  /** Before the logon is complete only the server callbacks are set. */
  function ServerCall(g: Gate, c: Callback): Gate {
    match c
    case AuthPassword(user, pass, answer) => OnAuth(g, user, pass, answer)
    case ChannelOpen(channel) => g.(channel := channel)
    case _ => g
  }

  function AnyCall(g: Gate, c: Callback): Gate {
    match c
    case PtyRequest(ok, master, slave) => OnPty(g, ok, master, slave)
    case ShellRequest(fork) => OnShell(g, fork)
    case _ => ServerCall(g, c)
  }

  function ServerCalls(g: Gate, calls: seq<Callback>): Gate
    decreases |calls|
  {
    if calls == [] then g else ServerCalls(ServerCall(g, calls[0]), calls[1..])
  }

  function AnyCalls(g: Gate, calls: seq<Callback>): Gate
    decreases |calls|
  {
    if calls == [] then g else AnyCalls(AnyCall(g, calls[0]), calls[1..])
  }

  // ------------------------------------------------------------ the authentication loop

  predicate LoggedOn(g: Gate) {
    g.authenticated && g.channel != 0
  }

  datatype Verdict = Verdict(gate: Gate, passed: bool, polls: nat)

  /** The loop from its `n`-th poll on. */
  function AuthLoop(g: Gate, polls: seq<Poll>, n: nat): (v: Verdict)
    requires |polls| >= MAX_POLLS && n <= MAX_POLLS
    ensures n <= v.polls <= MAX_POLLS
    decreases MAX_POLLS - n
  {
    if LoggedOn(g) then Verdict(g, true, n)
    else if g.attempts >= MAX_FAILURES || n >= MAX_POLLS then Verdict(g, false, n)
    else
      var next := ServerCalls(g, polls[n].calls);
      if polls[n].fails then Verdict(next, false, n + 1) else AuthLoop(next, polls, n + 1)
  }

  /** The session after its first `k` polls. */
  function After(g: Gate, polls: seq<Poll>, k: nat): Gate
    requires k <= |polls|
  {
    if k == 0 then g else ServerCalls(After(g, polls, k - 1), polls[k - 1].calls)
  }

  // ------------------------------------------------------------ the main loop

  function ChildExits(g: Gate, exits: Option<Status>): Gate {
    if exits.Some? && g.pid in g.children && g.children[g.pid].Running?
    then g.(children := g.children[g.pid := Zombie(exits.value)])
    else g
  }

  /** Once a child has been started: its output is added to the event. */
  function Register(g: Gate): Gate {
    if g.event || g.pid == 0 then g
    else g.(event := true,
            registered := g.registered + (if g.stdout != -1 then [g.stdout] else [])
                                       + (if g.stderr != -1 then [g.stderr] else []))
  }

  /** `waitpid(pid, &rc, WNOHANG)`: its result, and the session after it. */
  function WaitPid(g: Gate): (int, Gate) {
    if g.pid in g.children then
      match g.children[g.pid]
      case Running => (0, g)
      case Zombie(status) => (g.pid, g.(rc := Some(status), children := g.children[g.pid := Reaped(status)]))
      case Reaped(_) => (-1, g)
    else (-1, g)
  }

  function BeforeTest(g: Gate, t: Turn): Gate {
    Register(ChildExits(AnyCalls(g, t.poll.calls), t.exits))
  }

  /** One turn and the loop test, which evaluates `waitpid` only if it has to: does the loop go on? */
  function OneTurn(g: Gate, t: Turn): (Gate, bool) {
    var g1 := BeforeTest(g, t);
    if !t.open then (g1, false)
    else if g1.pid == 0 then (g1, true)
    else var (r, g2) := WaitPid(g1); (g2, r == 0)
  }

  /** The loop, for as many turns as have happened; true when it has been left. */
  function MainLoop(g: Gate, turns: seq<Turn>): (Gate, bool)
    decreases |turns|
  {
    if turns == [] then (g, false)
    else
      var (next, goes) := OneTurn(g, turns[0]);
      if goes then MainLoop(next, turns[1..]) else (next, true)
  }

  // ------------------------------------------------------------ teardown

  /** `kill(pid, 0)`: 0 is the own process group; for -1 the answer depends on the rest of the system. */
  function Probe(g: Gate, elsewhere: int): int {
    if g.pid == 0 then 0
    else if g.pid < 0 then elsewhere
    else if g.pid in g.children && !g.children[g.pid].Reaped? then 0 else -1
  }

  /** Whether `rc` was read, the exit status sent, and the process killed. */
  datatype Ending = Ending(readsRc: bool, sent: Option<int>, killed: Option<int>)

  /** `garbage` is what an `rc` that was never written happens to hold. */
  function Teardown(g: Gate, elsewhere: int, garbage: Status): Ending {
    var reading := Probe(g, elsewhere) < 0;
    var status := if g.rc.Some? then g.rc.value else garbage;
    if reading && status.Exited? then Ending(reading, Some(status.code), None)
    else Ending(reading, None, if g.pid > 0 then Some(g.pid) else None)
  }

  // ------------------------------------------------------------ what is kept

  /** At most one child, the one `pid` names; its output registered at most once; `rc` written only by reaping it. */
  ghost predicate Sound(g: Gate) {
    && g.pid >= -1 && g.stderr == -1
    && |g.key| == KEY_SIZE
    && g.children.Keys == (if g.pid > 0 then {g.pid} else {})
    && |g.spawned| == (if g.pid > 0 then 1 else 0)
    && (g.pid > 0 ==> g.spawned[0].0 == g.pid)
    && (g.pid <= 0 ==> g.stdout == -1)
    && (g.pid == 0 ==> !g.event)
    && g.registered == (if g.event && g.pid > 0 && g.stdout != -1 then [g.stdout] else [])
    && (g.rc.Some? <==> g.pid > 0 && g.children[g.pid].Reaped?)
    && (g.rc.Some? ==> g.children[g.pid] == Reaped(g.rc.value))
  }

  /** The session before any shell was started. */
  ghost predicate Childless(g: Gate) {
    Sound(g) && g.pid == 0 && g.master == -1 && g.slave == -1 && !g.event
  }

  lemma {:induction false} ServerCallsChildless(g: Gate, calls: seq<Callback>)
    requires Childless(g)
    ensures Childless(ServerCalls(g, calls))
    decreases |calls|
  {
    if calls == [] {
    } else {
      ServerCallsChildless(ServerCall(g, calls[0]), calls[1..]);
    }
  }

  /** The session may be polled again: fewer than three refused logons, and the logon not complete. */
  predicate MayPoll(g: Gate) {
    g.attempts < MAX_FAILURES && !LoggedOn(g)
  }

  /** The authentication loop polls at most 100 times, and only while fewer than three logons have been refused
      and the logon is not complete; it is passed only when the session is authenticated and has a channel, and
      given up only for three refusals, a hundred polls or a failed one; no child is started before it is passed. */
  lemma {:induction false} AuthLoopBounded(g: Gate, polls: seq<Poll>, n: nat)
    requires Childless(g) && g.spawned == [] && |polls| >= MAX_POLLS && n <= MAX_POLLS
    requires g == After(FRESH_GATE, polls, n)
    ensures
      var v := AuthLoop(g, polls, n);
      && n <= v.polls <= MAX_POLLS
      && v.gate == After(FRESH_GATE, polls, v.polls) && Childless(v.gate) && v.gate.spawned == []
      && (forall k :: n <= k < v.polls ==> MayPoll(After(FRESH_GATE, polls, k)))
      && (v.passed ==> LoggedOn(v.gate))
      && (!v.passed ==>
           || v.gate.attempts >= MAX_FAILURES || v.polls == MAX_POLLS
           || (v.polls > n && polls[v.polls - 1].fails))
    decreases MAX_POLLS - n
  {
    if !MayPoll(g) || n == MAX_POLLS {
    } else {
      var next := ServerCalls(g, polls[n].calls);
      ServerCallsChildless(g, polls[n].calls);
      assert next == After(FRESH_GATE, polls, n + 1);
      if !polls[n].fails {
        AuthLoopBounded(next, polls, n + 1);
      }
    }
  }

  // ------------------------------------------------------------ what the callbacks so far amount to

  /** All callbacks of the first `k` polls, in order. */
  function CallsOf(polls: seq<Poll>, k: nat): seq<Callback>
    requires k <= |polls|
  {
    if k == 0 then [] else CallsOf(polls, k - 1) + polls[k - 1].calls
  }

  /** A password logon that is let in: lengths in range, and an answer of 64 bytes. */
  predicate LetIn(c: Callback) {
    c.AuthPassword? && 1 <= |c.user| <= 32 && 1 <= |c.pass| <= 64 && |c.answer| == 64
  }

  predicate Refused(c: Callback) {
    c.AuthPassword? && !LetIn(c)
  }

  function Refusals(calls: seq<Callback>): nat {
    if calls == [] then 0
    else Refusals(calls[..|calls| - 1]) + if Refused(calls[|calls| - 1]) then 1 else 0
  }

  /** The channel that was opened last, or none. */
  function LastChannel(calls: seq<Callback>): nat {
    if calls == [] then 0
    else if calls[|calls| - 1].ChannelOpen? then calls[|calls| - 1].channel
    else LastChannel(calls[..|calls| - 1])
  }

  /** What the key buffer holds: the answer to the last logon if that was let in, and otherwise nothing. */
  function KeyHeld(calls: seq<Callback>): seq<char> {
    if calls == [] then Zeros(KEY_SIZE)
    else if LetIn(calls[|calls| - 1]) then calls[|calls| - 1].answer + [NUL]
    else if Refused(calls[|calls| - 1]) then Zeros(KEY_SIZE)
    else KeyHeld(calls[..|calls| - 1])
  }

  predicate SomeLetIn(calls: seq<Callback>) {
    exists c :: 0 <= c < |calls| && LetIn(calls[c])
  }

  /** The fields of the session are what the callbacks so far make them. */
  ghost predicate Accounts(g: Gate, calls: seq<Callback>) {
    && g.attempts == Refusals(calls)
    && (g.authenticated <==> SomeLetIn(calls))
    && g.channel == LastChannel(calls)
    && g.key == KeyHeld(calls)
  }

  lemma CallAccounts(g: Gate, calls: seq<Callback>, c: Callback)
    requires Accounts(g, calls)
    ensures Accounts(ServerCall(g, c), calls + [c])
  {
    var more := calls + [c];
    assert more[..|more| - 1] == calls && more[|more| - 1] == c;
    if exists k :: 0 <= k < |calls| && LetIn(calls[k]) {
      var k :| 0 <= k < |calls| && LetIn(calls[k]);
      assert more[k] == calls[k];
    }
    if LetIn(c) { assert LetIn(more[|calls|]); }
  }

  lemma {:induction false} CallsAccount(g: Gate, before: seq<Callback>, calls: seq<Callback>)
    requires Accounts(g, before)
    ensures Accounts(ServerCalls(g, calls), before + calls)
    decreases |calls|
  {
    if calls == [] {
      assert before + calls == before;
    } else {
      CallAccounts(g, before, calls[0]);
      CallsAccount(ServerCall(g, calls[0]), before + [calls[0]], calls[1..]);
      assert before + [calls[0]] + calls[1..] == before + calls;
    }
  }

  /** After any number of polls, the session has counted exactly the logons that were refused, is authenticated
      exactly if one was let in, has the channel opened last and holds the key of the last logon. */
  lemma {:induction false} PollsAccount(polls: seq<Poll>, k: nat)
    requires k <= |polls|
    ensures Accounts(After(FRESH_GATE, polls, k), CallsOf(polls, k))
  {
    if k == 0 {
    } else {
      PollsAccount(polls, k - 1);
      CallsAccount(After(FRESH_GATE, polls, k - 1), CallsOf(polls, k - 1), polls[k - 1].calls);
    }
  }

  /** Fewer than three logons were refused, and none was let in with a channel opened. */
  predicate StillTrying(calls: seq<Callback>) {
    Refusals(calls) < 3 && !(SomeLetIn(calls) && LastChannel(calls) != 0)
  }

  lemma TryingAt(polls: seq<Poll>, k: nat)
    requires k <= |polls| && MayPoll(After(FRESH_GATE, polls, k))
    ensures StillTrying(CallsOf(polls, k))
  {
    PollsAccount(polls, k);
  }

  /** The logon in terms of what happened: before each of its polls fewer than three logons had been refused, and
      none had been let in with a channel opened; it is passed only once a logon has been let in and a channel
      opened, and given up only once three were refused, after a hundred polls or for a failed one. */
  lemma ThreeRefusalsEndTheLogon(polls: seq<Poll>)
    requires |polls| >= 100
    ensures
      var v := AuthLoop(FRESH_GATE, polls, 0);
      var calls := CallsOf(polls, v.polls);
      && v.polls <= 100 && Accounts(v.gate, calls)
      && (forall k :: 0 <= k < v.polls ==> StillTrying(CallsOf(polls, k)))
      && (v.passed ==> SomeLetIn(calls) && LastChannel(calls) != 0)
      && (!v.passed ==> Refusals(calls) >= 3 || v.polls == 100 || (v.polls > 0 && polls[v.polls - 1].fails))
  {
    AuthLoopBounded(FRESH_GATE, polls, 0);
    VerdictAccounts(polls, AuthLoop(FRESH_GATE, polls, 0));
  }

  /** What a verdict on the fields of the session says of the callbacks. */
  lemma VerdictAccounts(polls: seq<Poll>, v: Verdict)
    requires v.polls <= |polls| && v.gate == After(FRESH_GATE, polls, v.polls)
    requires forall k :: 0 <= k < v.polls ==> MayPoll(After(FRESH_GATE, polls, k))
    ensures
      var calls := CallsOf(polls, v.polls);
      && Accounts(v.gate, calls)
      && (forall k :: 0 <= k < v.polls ==> StillTrying(CallsOf(polls, k)))
      && (LoggedOn(v.gate) <==> SomeLetIn(calls) && LastChannel(calls) != 0)
      && (v.gate.attempts >= MAX_FAILURES <==> Refusals(calls) >= 3)
  {
    PollsAccount(polls, v.polls);
    forall k | 0 <= k < v.polls ensures StillTrying(CallsOf(polls, k)) {
      TryingAt(polls, k);
    }
  }

  /** The same session further on: a child once there is never replaced. */
  predicate SameChild(g: Gate, h: Gate) {
    g.pid > 0 ==>
      && h.pid == g.pid && h.spawned == g.spawned && h.event == g.event && h.rc == g.rc
      && h.children == g.children && h.stdout == g.stdout && h.registered == g.registered
  }

  /** Between turns: sound, and no output is registered unless a child is there. */
  ghost predicate Calling(g: Gate) {
    Sound(g) && (g.event ==> g.pid > 0)
  }

  lemma AnyCallSound(g: Gate, c: Callback)
    requires Calling(g)
    ensures Calling(AnyCall(g, c)) && SameChild(g, AnyCall(g, c))
  {
  }

  lemma {:induction false} AnyCallsSound(g: Gate, calls: seq<Callback>)
    requires Calling(g)
    ensures Calling(AnyCalls(g, calls)) && SameChild(g, AnyCalls(g, calls))
    decreases |calls|
  {
    if calls == [] {
    } else {
      AnyCallSound(g, calls[0]);
      AnyCallsSound(AnyCall(g, calls[0]), calls[1..]);
    }
  }

  lemma TurnSound(g: Gate, t: Turn)
    requires Calling(g)
    ensures
      var (h, goes) := OneTurn(g, t);
      && Sound(h)
      && (goes ==> Calling(h) && h.pid >= 0)
      && (!goes && t.open ==> h.pid == -1 || (h.pid > 0 && h.children[h.pid].Reaped?))
      && (g.pid > 0 ==> h.pid == g.pid && h.spawned == g.spawned)
      && g.registered <= h.registered
  {
    AnyCallsSound(g, t.poll.calls);
    var g1 := ChildExits(AnyCalls(g, t.poll.calls), t.exits);
    assert Calling(g1);
    assert Sound(Register(g1));
  }

  /** When the loop goes on, exactly: while the channel is open and, if a program was to be started, it was and is
      still running.  A child that exits in a turn that ends with the channel open is reaped there, and its status kept. */
  lemma TurnOutcome(g: Gate, t: Turn)
    requires Calling(g)
    ensures
      var h := AnyCalls(g, t.poll.calls);
      var (next, goes) := OneTurn(g, t);
      && (goes <==> t.open && (h.pid == 0 || (h.pid in h.children && h.children[h.pid].Running? && t.exits.None?)))
      && (t.open && h.pid in h.children && h.children[h.pid].Running? && t.exits.Some? ==>
           next.rc == t.exits && next.children == map[h.pid := Reaped(t.exits.value)])
  {
    AnyCallsSound(g, t.poll.calls);
    TestOutcome(AnyCalls(g, t.poll.calls), t);
  }

  lemma TestOutcome(h: Gate, t: Turn)
    requires Calling(h)
    ensures
      var g1 := Register(ChildExits(h, t.exits));
      && g1.pid == h.pid
      && (h.pid == 0 || WaitPid(g1).0 == 0 <==>
           h.pid == 0 || (h.pid in h.children && h.children[h.pid].Running? && t.exits.None?))
      && (h.pid in h.children && h.children[h.pid].Running? && t.exits.Some? ==>
           WaitPid(g1).1.rc == t.exits && WaitPid(g1).1.children == map[h.pid := Reaped(t.exits.value)])
  {
    if h.pid in h.children && h.children[h.pid].Running? && t.exits.Some? {
      var g1 := Register(ChildExits(h, t.exits));
      assert g1.children == h.children[h.pid := Zombie(t.exits.value)];
      assert WaitPid(g1).1.children == h.children[h.pid := Zombie(t.exits.value)][h.pid := Reaped(t.exits.value)];
    }
  }

  /** In every run of the main loop: at most one child is ever started, its output is registered with the event
      at most once and only after it started, `rc` is only ever written by reaping it; and if the loop is left
      while the channel is open, that child has been reaped, or a fork has failed. */
  lemma {:induction false} MainLoopSound(g: Gate, turns: seq<Turn>)
    requires Calling(g)
    ensures
      var (h, left) := MainLoop(g, turns);
      && Sound(h) && |h.spawned| <= 1 && |h.registered| <= 1
      && (h.registered != [] ==> h.spawned != [] && h.pid == h.spawned[0].0)
      && (g.spawned <= h.spawned)
      && (left ==>
           || (exists k :: 0 <= k < |turns| && !turns[k].open)
           || h.pid == -1 || (h.pid > 0 && h.children[h.pid].Reaped?))
    decreases |turns|
  {
    if turns == [] {
    } else {
      TurnSound(g, turns[0]);
      var (next, goes) := OneTurn(g, turns[0]);
      if goes {
        MainLoopSound(next, turns[1..]);
        var (h, left) := MainLoop(next, turns[1..]);
        if left && exists k :: 0 <= k < |turns[1..]| && !turns[1..][k].open {
          var k :| 0 <= k < |turns[1..]| && !turns[1..][k].open;
          assert !turns[k + 1].open;
        }
      } else if !turns[0].open {
        assert !turns[0].open;
      }
    }
  }

  // ------------------------------------------------------------ the child and its terminal

  /** The pty that was opened last, as its two ends. */
  function LastPty(calls: seq<Callback>): (int, int) {
    if calls == [] then (-1, -1)
    else
      var c := calls[|calls| - 1];
      if c.PtyRequest? && c.ok then (c.master, c.slave) else LastPty(calls[..|calls| - 1])
  }

  /** The child was forked at callback `c`: it runs on the pty last opened before that, whose master end its input
      and output are, and its program was started with the key of the last logon before that. */
  predicate ForkedAt(g: Gate, logon: seq<Callback>, calls: seq<Callback>, c: int) {
    && 0 <= c < |calls| && calls[c].ShellRequest? && calls[c].fork == g.pid
    && LastPty(calls[..c]).0 != -1 && LastPty(calls[..c]).1 != -1
    && g.stdin == g.stdout == LastPty(calls[..c]).0
    && g.spawned == [(g.pid, CText(KeyHeld(logon + calls[..c])))]
  }

  /** What the callbacks of the main loop so far, after those of the logon, have made of the session. */
  ghost predicate Terminal(g: Gate, logon: seq<Callback>, calls: seq<Callback>) {
    && (g.master, g.slave) == LastPty(calls)
    && g.key == KeyHeld(logon + calls)
    && (g.pid <= 0 ==> g.spawned == [])
    && (g.pid > 0 ==> exists c :: ForkedAt(g, logon, calls, c))
  }

  lemma StillForked(g: Gate, h: Gate, logon: seq<Callback>, calls: seq<Callback>, more: seq<Callback>, c: int)
    requires ForkedAt(g, logon, calls, c) && calls <= more
    requires h.pid == g.pid && h.stdin == g.stdin && h.stdout == g.stdout && h.spawned == g.spawned
    ensures ForkedAt(h, logon, more, c)
  {
    assert more[..c] == calls[..c];
  }

  lemma KeyAfter(calls: seq<Callback>, c: Callback)
    ensures KeyHeld(calls + [c]) == if LetIn(c) then c.answer + [NUL] else if Refused(c) then Zeros(KEY_SIZE) else KeyHeld(calls)
    ensures LastPty(calls + [c]) == if c.PtyRequest? && c.ok then (c.master, c.slave) else LastPty(calls)
  {
    assert (calls + [c])[..|calls|] == calls;
  }

  lemma CallTerminal(g: Gate, logon: seq<Callback>, calls: seq<Callback>, c: Callback)
    requires Calling(g) && Terminal(g, logon, calls)
    ensures Terminal(AnyCall(g, c), logon, calls + [c])
  {
    var h, more := AnyCall(g, c), calls + [c];
    KeyAfter(logon + calls, c);
    KeyAfter(calls, c);
    assert logon + more == logon + calls + [c];
    if g.pid > 0 {
      var k :| ForkedAt(g, logon, calls, k);
      StillForked(g, h, logon, calls, more, k);
    } else if h.pid > 0 {
      assert more[..|calls|] == calls && more[|calls|] == c;
      assert ForkedAt(h, logon, more, |calls|);
    }
  }

  lemma {:induction false} CallsTerminal(g: Gate, logon: seq<Callback>, before: seq<Callback>, calls: seq<Callback>)
    requires Calling(g) && Terminal(g, logon, before)
    ensures Terminal(AnyCalls(g, calls), logon, before + calls)
    decreases |calls|
  {
    if calls == [] {
      assert before + calls == before;
    } else {
      CallTerminal(g, logon, before, calls[0]);
      AnyCallSound(g, calls[0]);
      CallsTerminal(AnyCall(g, calls[0]), logon, before + [calls[0]], calls[1..]);
      assert before + [calls[0]] + calls[1..] == before + calls;
    }
  }

  /** The terminal, the program and the key are as they were. */
  predicate KeepsTerminal(g: Gate, h: Gate) {
    && h.pid == g.pid && h.stdin == g.stdin && h.stdout == g.stdout && h.spawned == g.spawned
    && h.master == g.master && h.slave == g.slave && h.key == g.key
  }

  lemma OutcomeKeepsTerminal(g: Gate, exits: Option<Status>)
    ensures KeepsTerminal(g, Register(ChildExits(g, exits)))
    ensures KeepsTerminal(g, WaitPid(Register(ChildExits(g, exits))).1)
  {
  }

  /** After its callbacks, a turn changes nothing about them. */
  lemma TurnKeepsTerminal(g: Gate, t: Turn)
    ensures KeepsTerminal(AnyCalls(g, t.poll.calls), OneTurn(g, t).0)
  {
    OutcomeKeepsTerminal(AnyCalls(g, t.poll.calls), t.exits);
  }

  lemma SameTerminal(g: Gate, h: Gate, logon: seq<Callback>, calls: seq<Callback>)
    requires Terminal(g, logon, calls) && KeepsTerminal(g, h)
    ensures Terminal(h, logon, calls)
  {
    if g.pid > 0 {
      var c :| ForkedAt(g, logon, calls, c);
      StillForked(g, h, logon, calls, calls, c);
    }
  }

  lemma TurnTerminal(g: Gate, logon: seq<Callback>, before: seq<Callback>, t: Turn)
    requires Calling(g) && Terminal(g, logon, before)
    ensures Terminal(OneTurn(g, t).0, logon, before + t.poll.calls)
  {
    CallsTerminal(g, logon, before, t.poll.calls);
    TurnKeepsTerminal(g, t);
    SameTerminal(AnyCalls(g, t.poll.calls), OneTurn(g, t).0, logon, before + t.poll.calls);
  }

  /** The callbacks of the turns the loop takes, in order. */
  function CallsMade(g: Gate, turns: seq<Turn>): seq<Callback>
    decreases |turns|
  {
    if turns == [] then []
    else
      var (next, goes) := OneTurn(g, turns[0]);
      turns[0].poll.calls + (if goes then CallsMade(next, turns[1..]) else [])
  }

  lemma CallsMadeStep(g: Gate, turns: seq<Turn>, before: seq<Callback>)
    requires turns != []
    ensures
      var (next, goes) := OneTurn(g, turns[0]);
      before + CallsMade(g, turns) == before + turns[0].poll.calls + (if goes then CallsMade(next, turns[1..]) else [])
  {
  }

  lemma {:induction false} LoopTerminal(g: Gate, logon: seq<Callback>, before: seq<Callback>, turns: seq<Turn>)
    requires Calling(g) && Terminal(g, logon, before)
    ensures Terminal(MainLoop(g, turns).0, logon, before + CallsMade(g, turns))
    decreases |turns|
  {
    if turns == [] {
      assert before + CallsMade(g, turns) == before;
    } else {
      var (next, goes) := OneTurn(g, turns[0]);
      var now := before + turns[0].poll.calls;
      TurnTerminal(g, logon, before, turns[0]);
      TurnSound(g, turns[0]);
      CallsMadeStep(g, turns, before);
      if goes {
        LoopTerminal(next, logon, now, turns[1..]);
      } else {
        assert now + [] == now;
      }
    }
  }

  /** If a program was started, it runs on the pty last opened before its fork, with the key of the last logon
      before it, and what is registered with the event is that pty's master end. */
  predicate OnItsTerminal(h: Gate, logon: seq<Callback>, calls: seq<Callback>) {
    h.spawned != [] ==> exists c ::
      && 0 <= c < |calls| && ForkedAt(h, logon, calls, c)
      && (h.registered == [] || h.registered == [LastPty(calls[..c]).0])
  }

  lemma RegisteredIsMaster(h: Gate, logon: seq<Callback>, calls: seq<Callback>)
    requires Sound(h) && Terminal(h, logon, calls)
    ensures OnItsTerminal(h, logon, calls)
  {
    if h.spawned != [] {
      var c :| ForkedAt(h, logon, calls, c);
      assert h.registered == [] || h.registered == [h.stdout];
    }
  }

  lemma LogonTerminal(g: Gate, logon: seq<Callback>)
    requires Childless(g) && g.spawned == [] && g.key == KeyHeld(logon)
    ensures Terminal(g, logon, [])
  {
    assert logon + [] == logon;
  }

  lemma ServiceTerminal(g: Gate, logon: seq<Callback>, turns: seq<Turn>)
    requires Calling(g) && Terminal(g, logon, [])
    ensures Sound(MainLoop(g, turns).0) && Terminal(MainLoop(g, turns).0, logon, CallsMade(g, turns))
  {
    var calls := CallsMade(g, turns);
    assert [] + calls == calls;
    LoopTerminal(g, logon, [], turns);
    MainLoopSound(g, turns);
  }

  /** Through a whole session. */
  lemma ChildHasItsTerminal(polls: seq<Poll>, turns: seq<Turn>)
    requires |polls| >= MAX_POLLS && AuthLoop(FRESH_GATE, polls, 0).passed
    ensures
      var v := AuthLoop(FRESH_GATE, polls, 0);
      OnItsTerminal(MainLoop(v.gate, turns).0, CallsOf(polls, v.polls), CallsMade(v.gate, turns))
  {
    var v := AuthLoop(FRESH_GATE, polls, 0);
    AuthLoopBounded(FRESH_GATE, polls, 0);
    PollsAccount(polls, v.polls);
    LogonTerminal(v.gate, CallsOf(polls, v.polls));
    ServiceTerminal(v.gate, CallsOf(polls, v.polls), turns);
    RegisteredIsMaster(MainLoop(v.gate, turns).0, CallsOf(polls, v.polls), CallsMade(v.gate, turns));
  }

  /** Teardown.  An `rc` that was never written is read exactly when the last fork failed and signalling
      everyone fails too; otherwise the exit status sent is that of the reaped child, sent exactly when it
      exited; and a child that was started has been reaped or is sent SIGKILL. */
  lemma TeardownReadsWrittenRc(g: Gate, elsewhere: int, garbage: Status)
    requires Sound(g)
    ensures
      var e := Teardown(g, elsewhere, garbage);
      && (e.readsRc && g.rc.None? <==> g.pid == -1 && elsewhere < 0)
      && (g.pid >= 0 ==> (forall code :: e.sent == Some(code) <==> g.pid > 0 && g.children[g.pid] == Reaped(Exited(code))))
      && (g.pid > 0 ==> g.children[g.pid].Reaped? || e.killed == Some(g.pid))
      && (e.killed.Some? ==> g.pid > 0 && e.killed == Some(g.pid) && e.sent.None?)
  {
  }

  /** The logon, passed or not: at most 100 polls, each of them allowed; passed exactly when the session is logged
      on and no poll failed, given up for one of three reasons; and no child so far. */
  lemma LogonKeepsItsPromises(polls: seq<Poll>)
    requires |polls| >= MAX_POLLS
    ensures
      var v := AuthLoop(FRESH_GATE, polls, 0);
      && v.polls <= MAX_POLLS && v.gate.spawned == [] && Childless(v.gate)
      && (v.passed <==> LoggedOn(v.gate) && forall k :: 0 <= k < v.polls ==> !polls[k].fails)
      && (forall k :: 0 <= k < v.polls ==> MayPoll(After(FRESH_GATE, polls, k)))
      && (!v.passed ==> v.gate.attempts >= MAX_FAILURES || v.polls == MAX_POLLS || (v.polls > 0 && polls[v.polls - 1].fails))
  {
    AuthLoopBounded(FRESH_GATE, polls, 0);
    AuthLoopFails(FRESH_GATE, polls, 0);
  }

  /** From there to the end: one child at most, registered once at most and only if started; the status sent is
      the child's; and a child is reaped or killed. */
  ghost predicate EndsWell(h: Gate, left: bool, turns: seq<Turn>, e: Ending, elsewhere: int) {
    && |h.spawned| <= 1 && |h.registered| <= 1 && (h.registered != [] ==> h.spawned != [])
    && (e.readsRc && h.rc.None? <==> h.pid == -1 && elsewhere < 0)
    && (h.pid >= 0 ==>
         forall code :: e.sent == Some(code) <==> h.pid in h.children && h.children[h.pid] == Reaped(Exited(code)))
    && (h.spawned != [] ==>
         && h.pid == h.spawned[0].0 && h.pid in h.children
         && (h.children[h.pid].Reaped? || e.killed == Some(h.pid)))
    && (left && (forall k :: 0 <= k < |turns| ==> turns[k].open) ==>
         h.pid == -1 || (h.pid in h.children && h.children[h.pid].Reaped?))
  }

  lemma ServiceEndsWell(g: Gate, turns: seq<Turn>, elsewhere: int, garbage: Status)
    requires Calling(g)
    ensures
      var (h, left) := MainLoop(g, turns);
      EndsWell(h, left, turns, Teardown(h, elsewhere, garbage), elsewhere)
  {
    MainLoopSound(g, turns);
    TeardownReadsWrittenRc(MainLoop(g, turns).0, elsewhere, garbage);
  }

  /** The whole session, whatever libssh and the kernel answer: from the fresh structures of `handle_session`
      through the logon and, once it is passed, the main loop and teardown. */
  lemma SessionKeepsItsPromises(polls: seq<Poll>, turns: seq<Turn>, elsewhere: int, garbage: Status)
    requires |polls| >= MAX_POLLS
    ensures
      var v := AuthLoop(FRESH_GATE, polls, 0);
      && v.polls <= MAX_POLLS && v.gate.spawned == []
      && (v.passed <==> LoggedOn(v.gate) && forall k :: 0 <= k < v.polls ==> !polls[k].fails)
      && (forall k :: 0 <= k < v.polls ==> MayPoll(After(FRESH_GATE, polls, k)))
      && (v.passed ==>
           var (h, left) := MainLoop(v.gate, turns);
           EndsWell(h, left, turns, Teardown(h, elsewhere, garbage), elsewhere))
  {
    LogonKeepsItsPromises(polls);
    ServiceEndsWell(AuthLoop(FRESH_GATE, polls, 0).gate, turns, elsewhere, garbage);
  }

  /** An unwritten `rc` is read in this session: the logon succeeds, a pty opens, the fork fails, and nothing can be
      signalled.  The status sent is then whatever `rc` happens to hold. */
  lemma UnwrittenRcIsSent(answer: string, code: int)
    requires |answer| == 64
    ensures
      var logon := Poll([AuthPassword("alice", "secret", answer), ChannelOpen(1)], false);
      var turn := Turn(Poll([PtyRequest(true, 3, 4), ShellRequest(-1)], false), None, true);
      var v := AuthLoop(FRESH_GATE, seq(MAX_POLLS, _ => logon), 0);
      var (h, left) := MainLoop(v.gate, [turn]);
      v.passed && left && h.rc.None? && Teardown(h, -1, Exited(code)) == Ending(true, Some(code), None)
  {
    var logon := Poll([AuthPassword("alice", "secret", answer), ChannelOpen(1)], false);
    var polls := seq(MAX_POLLS, _ => logon);
    assert logon.calls[1..] == [ChannelOpen(1)] && logon.calls[1..][1..] == [];
    var g := ServerCalls(FRESH_GATE, logon.calls);
    assert |"alice"| == 5 && |"secret"| == 6;
    var one := ServerCall(FRESH_GATE, logon.calls[0]);
    assert one == FRESH_GATE.(key := answer + [NUL], authenticated := true);
    assert g == ServerCalls(one, logon.calls[1..]) == ServerCalls(ServerCall(one, ChannelOpen(1)), logon.calls[1..][1..]);
    assert g == FRESH_GATE.(key := answer + [NUL], authenticated := true, channel := 1);
    assert AuthLoop(FRESH_GATE, polls, 0) == AuthLoop(g, polls, 1) == Verdict(g, true, 1);
    ForkFails(g);
  }

  lemma ForkFails(g: Gate)
    requires g.pid == 0 && !g.event && g.stdout == -1 && g.stderr == -1 && g.children == map[]
    ensures
      var turn := Turn(Poll([PtyRequest(true, 3, 4), ShellRequest(-1)], false), None, true);
      MainLoop(g, [turn]) == (g.(master := 3, slave := 4, pid := -1, event := true), true)
  {
    var turn := Turn(Poll([PtyRequest(true, 3, 4), ShellRequest(-1)], false), None, true);
    var h := AnyCalls(g, turn.poll.calls);
    assert turn.poll.calls[1..] == [ShellRequest(-1)] && turn.poll.calls[1..][1..] == [];
    assert AnyCalls(g, turn.poll.calls) == g.(master := 3, slave := 4, pid := -1);
    assert Register(h) == h.(event := true);
    assert WaitPid(Register(h)) == (-1, Register(h));
  }

  lemma {:induction false} AuthLoopFails(g: Gate, polls: seq<Poll>, n: nat)
    requires |polls| >= MAX_POLLS && n <= MAX_POLLS
    ensures
      var v := AuthLoop(g, polls, n);
      n <= v.polls <= MAX_POLLS && (v.passed <==> LoggedOn(v.gate) && forall k :: n <= k < v.polls ==> !polls[k].fails)
    decreases MAX_POLLS - n
  {
    if LoggedOn(g) || g.attempts >= MAX_FAILURES || n == MAX_POLLS || polls[n].fails {
    } else {
      AuthLoopFails(ServerCalls(g, polls[n].calls), polls, n + 1);
    }
  }

  // ------------------------------------------------------------ the program

  class Session {
    var pid: int
    var ptyMaster: int
    var ptySlave: int
    var childStdin: int
    var childStdout: int
    var childStderr: int
    var event: bool
    var channel: nat
    var authAttempts: nat
    var authenticated: bool
    const key: array<char>
    var rc: Option<Status>
    /** The kernel's children of this process, descriptors added to the event, programs started. */
    var children: map<int, Life>
    var registered: seq<int>
    var spawned: seq<(int, string)>

    ghost predicate Valid()
      reads this
    {
      key.Length == KEY_SIZE
    }

    ghost function View(): Gate
      reads this, key
    {
      Gate(pid, ptyMaster, ptySlave, childStdin, childStdout, childStderr, event,
           channel, authAttempts, authenticated, key[..], rc, children, registered, spawned)
    }

    constructor ()
      ensures Valid() && View() == FRESH_GATE && fresh(key)
    {
      pid, ptyMaster, ptySlave, childStdin, childStdout, childStderr := 0, -1, -1, -1, -1, -1;
      event, channel, authAttempts, authenticated := false, 0, 0, false;
      key := new char[KEY_SIZE](_ => NUL);
      rc, children, registered, spawned := None, map[], [], [];
      new;
      assert key[..] == Zeros(KEY_SIZE);
    }

    /** `getkey`: fills the key buffer in place when the answer has the right length. */
    static method GetKey(username: string, password: string, answer: string, key: array<char>) returns (ok: bool)
      requires key.Length == KEY_SIZE
      modifies key
      ensures ok <==> KeyGranted(username, password, answer)
      ensures key[..] == if ok then answer + [NUL] else old(key[..])
    {
      if |username| == 0 || |username| > 32 {
        return false;
      }
      if |password| == 0 || |password| > 64 {
        return false;
      }
      var n := |Credentials(username, password)|;
      CredentialsFit(username, password);
      if n > SENDBUF_SIZE {
        return false;
      }
      var recvbuf := new char[RECVBUF_SIZE](_ => NUL);
      n := if |answer| < RECVBUF_SIZE then |answer| else RECVBUF_SIZE;
      for i := 0 to n
        invariant recvbuf[..i] == answer[..i]
        invariant key[..] == old(key[..])
      {
        recvbuf[i] := answer[i];
      }
      if n != 64 {
        return false;
      }
      recvbuf[n] := NUL;
      assert recvbuf[..64] == answer;
      for i := 0 to KEY_SIZE
        invariant key[..i] == recvbuf[..i]
        invariant recvbuf[..64] == answer && recvbuf[64] == NUL
      {
        key[i] := recvbuf[i];
      }
      assert key[..] == recvbuf[..64] + [recvbuf[64]];
      return true;
    }

    method AuthPasswordFunction(user: string, pass: string, answer: string) returns (accepted: bool)
      requires Valid()
      modifies this`authenticated, this`authAttempts, key
      ensures accepted <==> KeyGranted(user, pass, answer)
      ensures View() == OnAuth(old(View()), user, pass, answer)
    {
      for i := 0 to KEY_SIZE
        modifies key
        invariant key[..i] == Zeros(i)
      {
        key[i] := NUL;
      }
      assert key[..] == Zeros(KEY_SIZE);
      accepted := GetKey(user, pass, answer, key);
      if accepted {
        authenticated := true;
      } else {
        authAttempts := authAttempts + 1;
      }
    }

    method ChannelOpenFunction(created: nat)
      requires Valid()
      modifies this`channel
      ensures View() == old(View()).(channel := created)
    {
      channel := created;
    }

    method PtyRequestFunction(ok: bool, master: nat, slave: nat)
      requires Valid()
      modifies this`ptyMaster, this`ptySlave
      ensures View() == OnPty(old(View()), ok, master, slave)
    {
      if ok {
        ptyMaster, ptySlave := master, slave;
      }
    }

    /** `exec_pty`, in the parent. */
    method ExecPtyFunction(fork: int)
      requires Valid()
      modifies this
      ensures View() == ExecPty(old(View()), fork)
    {
      if fork > 0 && fork !in children {
        var argument := TextOf();
        pid := fork;
        children := children[fork := Running];
        spawned := spawned + [(fork, argument)];
        childStdin := ptyMaster;
        childStdout := childStdin;
      } else {
        pid := -1;
      }
    }

    /** The key as the started program receives it: up to the first NUL. */
    method TextOf() returns (text: string)
      requires Valid()
      ensures text == CText(key[..])
    {
      text := "";
      var i := 0;
      assert key[0..] == key[..];
      while i < key.Length && key[i] != NUL
        invariant 0 <= i <= key.Length
        invariant CText(key[..]) == text + CText(key[i..])
      {
        assert key[i..][0] == key[i] && key[i..][1..] == key[i + 1..];
        assert text + ([key[i]] + CText(key[i + 1..])) == (text + [key[i]]) + CText(key[i + 1..]);
        text := text + [key[i]];
        i := i + 1;
      }
      if i < key.Length { assert key[i..][0] == key[i]; }
      assert CText(key[i..]) == "";
    }

    method ShellRequestFunction(fork: int)
      requires Valid()
      modifies this
      ensures View() == OnShell(old(View()), fork)
    {
      if pid > 0 {
        return;
      }
      if ptyMaster != -1 && ptySlave != -1 {
        ExecPtyFunction(fork);
      }
    }

    /** A poll: the callbacks that are set are run in order. */
    method DoPoll(calls: seq<Callback>, channelCallbacks: bool)
      requires Valid()
      modifies this, key
      ensures View() == if channelCallbacks then AnyCalls(old(View()), calls) else ServerCalls(old(View()), calls)
    {
      for k := 0 to |calls|
        invariant if channelCallbacks then AnyCalls(old(View()), calls) == AnyCalls(View(), calls[k..])
                  else ServerCalls(old(View()), calls) == ServerCalls(View(), calls[k..])
      {
        assert calls[k..][0] == calls[k] && calls[k..][1..] == calls[k + 1..];
        match calls[k] {
          case AuthPassword(user, pass, answer) =>
            var accepted := AuthPasswordFunction(user, pass, answer);
          case ChannelOpen(created) =>
            ChannelOpenFunction(created);
          case PtyRequest(ok, master, slave) =>
            if channelCallbacks { PtyRequestFunction(ok, master, slave); }
          case ShellRequest(fork) =>
            if channelCallbacks { ShellRequestFunction(fork); }
        }
      }
    }

    /** The first loop of `handle_session`. */
    method Authenticate(polls: seq<Poll>) returns (passed: bool, n: nat)
      requires Valid() && |polls| >= MAX_POLLS
      modifies this, key
      ensures Verdict(View(), passed, n) == AuthLoop(old(View()), polls, 0)
    {
      n := 0;
      while !authenticated || channel == 0
        invariant n <= MAX_POLLS
        invariant AuthLoop(View(), polls, n) == AuthLoop(old(View()), polls, 0)
        decreases MAX_POLLS - n
      {
        if authAttempts >= MAX_FAILURES || n >= MAX_POLLS {
          return false, n;
        }
        DoPoll(polls[n].calls, false);
        if polls[n].fails {
          return false, n + 1;
        }
        n := n + 1;
      }
      return true, n;
    }

    /** `waitpid(pid, &rc, WNOHANG)` */
    method WaitPidNoHang() returns (r: int)
      requires Valid()
      modifies this`rc, this`children
      ensures (r, View()) == WaitPid(old(View()))
    {
      if pid !in children {
        return -1;
      }
      match children[pid] {
        case Running =>
          return 0;
        case Zombie(status) =>
          rc := Some(status);
          children := children[pid := Reaped(status)];
          return pid;
        case Reaped(_) =>
          return -1;
      }
    }

    /** The body of the second loop and its test: does the loop go on? */
    method TakeTurn(turn: Turn) returns (goes: bool)
      requires Valid()
      modifies this, key
      ensures (View(), goes) == OneTurn(old(View()), turn)
    {
      DoPoll(turn.poll.calls, true);
      if turn.exits.Some? && pid in children && children[pid].Running? {
        children := children[pid := Zombie(turn.exits.value)];
      }
      if !event && pid != 0 {
        AddOutputs();
      }
      if !turn.open {
        return false;
      }
      if pid == 0 {
        return true;
      }
      var r := WaitPidNoHang();
      return r == 0;
    }

    /** Watches the new child's output; called the first time a turn finds that a fork was tried. */
    method AddOutputs()
      requires Valid() && !event && pid != 0
      modifies this`event, this`registered
      ensures View() == Register(old(View()))
    {
      event := true;
      if childStdout != -1 {
        registered := registered + [childStdout];
      }
      if childStderr != -1 {
        registered := registered + [childStderr];
      }
    }

    /** The second loop of `handle_session`, for as many turns as happen; true when it has been left. */
    method Serve(turns: seq<Turn>) returns (left: bool)
      requires Valid()
      modifies this, key
      ensures (View(), left) == MainLoop(old(View()), turns)
    {
      for k := 0 to |turns|
        invariant MainLoop(View(), turns[k..]) == MainLoop(old(View()), turns)
      {
        assert turns[k..][0] == turns[k] && turns[k..][1..] == turns[k + 1..];
        var goes := TakeTurn(turns[k]);
        if !goes {
          return true;
        }
      }
      return false;
    }

    /** The end of `handle_session`, up to the closing of the channel. */
    method Finish(elsewhere: int, garbage: Status) returns (ending: Ending)
      requires Valid()
      ensures ending == Teardown(View(), elsewhere, garbage)
    {
      var answer := if pid == 0 then 0 else if pid < 0 then elsewhere
                    else if pid in children && !children[pid].Reaped? then 0 else -1;
      if answer < 0 {
        var status := if rc.Some? then rc.value else garbage;
        if status.Exited? {
          return Ending(true, Some(status.code), None);
        }
      }
      if pid > 0 {
        return Ending(answer < 0, None, Some(pid));
      }
      return Ending(answer < 0, None, None);
    }

    /** `handle_session`: both loops and teardown, on a fresh session. */
    method HandleSession(polls: seq<Poll>, turns: seq<Turn>, elsewhere: int, garbage: Status)
      returns (passed: bool, left: bool, ending: Ending)
      requires Valid() && View() == FRESH_GATE && |polls| >= MAX_POLLS
      modifies this, key
      ensures passed == AuthLoop(FRESH_GATE, polls, 0).passed
      ensures if passed then (View(), left) == MainLoop(AuthLoop(FRESH_GATE, polls, 0).gate, turns)
              else View() == AuthLoop(FRESH_GATE, polls, 0).gate && !left
      ensures left ==> ending == Teardown(View(), elsewhere, garbage)
    {
      left, ending := false, Ending(false, None, None);
      var n;
      passed, n := Authenticate(polls);
      if !passed {
        return;
      }
      left := Serve(turns);
      if left {
        ending := Finish(elsewhere, garbage);
      }
    }
  }
}

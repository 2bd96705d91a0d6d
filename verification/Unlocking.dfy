/** The database lock is always given back: nothing but its own callbacks moves a database operation on,
    one of them is always due, and a few of them are enough. */
module Unlocking {
  import opened Protocol
  import opened KeyGen
  import opened History
  import opened Machine
  import opened Sessions
  import opened Tracking

  /** How many more steps of the database an operation at this stage may take. */
  function StepsLeft(stage: Stage): nat {
    match stage case Reading => 4 case Fetched(_) => 3 case Writing(_, _) => 2 case Written => 1
  }

  /** The event is the next step of operation `op`. */
  predicate Due(s: State, e: Event, op: nat) {
    op in s.db.ops &&
    match s.db.ops[op].stage
    case Reading => e.Fetch? && e.op == op
    case Fetched(_) => e.GetDone? && e.op == op
    case Writing(_, _) => (e.Store? && e.op == op) || (e.PutDone? && e.op == op && e.fault)
    case Written => e.PutDone? && e.op == op
  }

  /** How many of these events are steps of operation `op`, up to its end. */
  function Dues(env: Env, s: State, events: seq<Event>, op: nat): nat
    decreases |events|
  {
    if events == [] || op !in s.db.ops then 0
    else (if Due(s, events[0], op) then 1 else 0) + Dues(env, Step(env, s, events[0]), events[1..], op)
  }


  predicate ReleasedSince(log: Log, n: nat, op: nat) {
    exists u :: n <= u < |log| && log[u] == Unlocked(op)
  }

  lemma DataWaits(env: Env, s: State, i: nat, req: Request, now: int)
    requires i < |s.net.socks| && s.db.locked
    ensures HandleMessage(env, s, i, req, now).db == s.db
  {
    if s.net.socks[i].authenticated {
      MemberFrame(env, s, i, req, now);
      if req.Password? {
        assert HandleMessage(env, s, i, req, now) == StartChange(s, i, req.current, req.password);
      }
    }
  }

  lemma GetMovesOn(env: Env, s: State, op: nat, draws: Draws, hash: string)
    requires op in s.db.ops && s.db.ops[op].stage.Fetched?
    ensures
      var t := DoGet(env, s, op, draws, hash);
      if op in t.db.ops then t.db.ops[op].stage.Writing? && t.db.locked == s.db.locked
      else !t.db.locked && Unlocked(op) in t.log[|s.log|..] && s.log <= t.log
  {
    var o := s.db.ops[op];
    var t := DoGet(env, s, op, draws, hash);
    if o.job.Change? {
      assert t == ChangeRead(env, s, op, o.job, o.stage.found, hash);
    }
    if op !in t.db.ops { assert t.log[|s.log|] == Unlocked(op); }
  }

  /** Operation `op` holds the lock, and no other is under way. */
  ghost predicate Holds(s: State, op: nat) {
    s.db.locked && s.db.ops.Keys == {op}
  }

  /** Every other event, another session's commands and logons included, leaves the database as it is. */
  lemma OthersWait(env: Env, s: State, e: Event, op: nat)
    requires Holds(s, op) && !Due(s, e, op)
    ensures Step(env, s, e).db == s.db
  {
    match e
    case Data(i, Parsed(req), now) => if i < |s.net.socks| { DataWaits(env, s, i, req, now); }
    case _ =>
  }

  /** Its own next step moves the operation on, or ends it with a release. */
  lemma OwnStep(env: Env, s: State, e: Event, op: nat)
    requires Holds(s, op) && Due(s, e, op)
    ensures
      var t := Step(env, s, e);
      if op in t.db.ops then t.db.locked && StepsLeft(t.db.ops[op].stage) < StepsLeft(s.db.ops[op].stage)
      else !t.db.locked && ReleasedSince(t.log, |s.log|, op)
  {
    var t := Step(env, s, e);
    match e
    case GetDone(o, draws, hash) =>
      GetMovesOn(env, s, op, draws, hash);
      if op !in t.db.ops {
        var k :| 0 <= k < |t.log[|s.log|..]| && t.log[|s.log|..][k] == Unlocked(op);
        assert t.log[|s.log| + k] == Unlocked(op);
      }
    case PutDone(o, fault) => assert t.log[|s.log|] == Unlocked(op);
    case _ =>
  }

  lemma StillReleased(log: Log, later: Log, n: nat, op: nat)
    requires ReleasedSince(log, n, op) && log <= later
    ensures ReleasedSince(later, n, op)
  {
    var u :| n <= u < |log| && log[u] == Unlocked(op);
    assert later[u] == Unlocked(op);
  }

  /** Whatever happens in between, each step of the operation brings its release nearer, and four are enough;
      until the release the operation is under way and a next step of it can be taken. */
  lemma {:induction false} LockIsReleased(env: Env, table: map<string, string>, s: State, events: seq<Event>, op: nat)
    requires Tracks(env, table, s) && op in s.db.ops
    ensures
      var t := Run(env, s, events);
      || ReleasedSince(t.log, |s.log|, op)
      || (op in t.db.ops && StepsLeft(t.db.ops[op].stage) + Dues(env, s, events, op) <= StepsLeft(s.db.ops[op].stage)
          && exists e :: Due(t, e, op))
    ensures Dues(env, s, events, op) >= 4 ==> ReleasedSince(Run(env, s, events).log, |s.log|, op)
    decreases |events|
  {
    if events == [] {
      StepExists(s, op);
    } else {
      var t := Step(env, s, events[0]);
      assert Holds(s, op);
      if Due(s, events[0], op) { OwnStep(env, s, events[0], op); } else { OthersWait(env, s, events[0], op); }
      LogGrows(env, s, events[0]);
      TracksStep(env, table, s, events[0]);
      if op in t.db.ops {
        LockIsReleased(env, table, t, events[1..], op);
      } else {
        RunKeepsLog(env, table, t, events[1..]);
        StillReleased(t.log, Run(env, s, events).log, |s.log|, op);
      }
    }
  }

  lemma StepExists(s: State, op: nat)
    requires op in s.db.ops
    ensures exists e :: Due(s, e, op)
  {
    match s.db.ops[op].stage
    case Reading => assert Due(s, Fetch(op, false), op);
    case Fetched(_) =>
      var draws: Draws := seq(CHUNKS, _ => 0.0);
      assert Due(s, GetDone(op, draws, ""), op);
    case Writing(_, _) => assert Due(s, Store(op), op);
    case Written => assert Due(s, PutDone(op, false), op);
  }
}

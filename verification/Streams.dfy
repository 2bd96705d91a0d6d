/** The join and quit notices a connection receives are a complete account of the roster. */
module Streams {
  import opened Protocol
  import opened Registry
  import opened Machine
  import opened Sessions
  import opened Tracking

  function Weight(r: Reply, nick: string): int {
    if r.Join? && r.nick == nick then 1 else if r.QuitNote? && r.nick == nick then -1 else 0
  }

  /** Joins of this nick received, minus quits of it. */
  function Account(out: seq<Reply>, nick: string): int {
    if out == [] then 0 else Account(out[..|out| - 1], nick) + Weight(out[|out| - 1], nick)
  }

  function Roster(net: Net): multiset<string> {
    multiset(Names(net))
  }

  /** What was written to socket `c` between two moments. */
  function Delivered(a: Net, b: Net, c: nat): seq<Reply>
    requires c < |a.socks| && c < |b.socks| && |a.socks[c].out| <= |b.socks[c].out|
  {
    b.socks[c].out[|a.socks[c].out|..]
  }

  /** For every nick: connections before, plus joins received, minus quits received, are connections now. */
  ghost predicate Balanced(a: Net, b: Net, c: nat) {
    && c < |a.socks| <= |b.socks|
    && a.socks[c].out <= b.socks[c].out
    && forall nick :: Roster(b)[nick] == Roster(a)[nick] + Account(Delivered(a, b, c), nick)
  }

  lemma {:induction false} AccountAdds(x: seq<Reply>, y: seq<Reply>, nick: string)
    ensures Account(x + y, nick) == Account(x, nick) + Account(y, nick)
  {
    if y == [] {
      assert x + y == x;
    } else {
      AccountAdds(x, y[..|y| - 1], nick);
      assert (x + y)[..|x + y| - 1] == x + y[..|y| - 1];
    }
  }

  lemma {:induction false} BlandSaysNothing(out: seq<Reply>, nick: string)
    requires forall k :: 0 <= k < |out| ==> !out[k].Join? && !out[k].QuitNote?
    ensures Account(out, nick) == 0
  {
    if out == [] {
    } else {
      BlandSaysNothing(out[..|out| - 1], nick);
    }
  }

  lemma OneNotice(r: Reply, nick: string)
    ensures Account([r], nick) == Weight(r, nick)
  {
    assert [r][..0] == [];
  }

  lemma LoginNotices(name: string, uptime: int, n: nat, nick: string)
    ensures Account([UserIs(name), Join(name), StatusIs(uptime, n)], nick) == if name == nick then 1 else 0
  {
    var out := [UserIs(name), Join(name), StatusIs(uptime, n)];
    assert out[..2] == [UserIs(name), Join(name)] && [UserIs(name), Join(name)][..1] == [UserIs(name)];
    OneNotice(UserIs(name), nick);
  }

  lemma NamesCons(net: Net, i: nat, list: seq<nat>)
    ensures multiset(NamesOf(net, [i] + list)) == multiset{NameOf(net, i)} + multiset(NamesOf(net, list))
  {
    assert NamesOf(net, [i] + list) == [NameOf(net, i)] + NamesOf(net, list);
  }

  lemma {:induction false} RosterWithout(net: Net, list: seq<nat>, i: nat)
    requires i in list
    ensures multiset(NamesOf(net, list)) == multiset(NamesOf(net, Without(list, i))) + multiset{NameOf(net, i)}
  {
    var first, rest := list[0], list[1..];
    assert list == [first] + rest;
    NamesCons(net, first, rest);
    if first == i {
    } else {
      RosterWithout(net, rest, i);
      NamesCons(net, first, Without(rest, i));
    }
  }

  lemma ArrivedBalanced(a: Net, b: Net, i: nat, key: string, name: string, uptime: int, c: nat)
    requires Registered(a) && Arrived(a, b, i, key, name, uptime) && !a.socks[i].authenticated
    requires c < |a.socks| && Live(b, c)
    ensures Balanced(a, b, c)
  {
    assert i !in a.clients;
    forall k | 0 <= k < |a.clients| ensures NameOf(a, a.clients[k]) == NameOf(b, a.clients[k]) {
      assert a.clients[k] in a.clients;
    }
    assert Names(b) == Names(a) + [name];
    assert Delivered(a, b, c) == if c == i then [UserIs(name), Join(name), StatusIs(uptime, |b.clients|)] else [Join(name)];
    forall nick ensures Roster(b)[nick] == Roster(a)[nick] + Account(Delivered(a, b, c), nick) {
      LoginNotices(name, uptime, |b.clients|, nick);
      OneNotice(Join(name), nick);
      assert Roster(b) == Roster(a) + multiset{name};
    }
  }

  lemma DepartedBalanced(a: Net, b: Net, i: nat, why: string, c: nat)
    requires Registered(a) && i < |a.socks| && a.socks[i].authenticated && Departed(a, b, i, NameOf(a, i), why)
    requires c < |a.socks| && Live(b, c)
    ensures Balanced(a, b, c)
  {
    var name := NameOf(a, i);
    WithoutMembers(a.clients, i);
    RosterWithout(a, a.clients, i);
    assert c in a.clients && c != i;
    forall k | 0 <= k < |b.clients| ensures NameOf(a, b.clients[k]) == NameOf(b, b.clients[k]) {
      assert b.clients[k] in b.clients;
    }
    assert Names(b) == NamesOf(a, b.clients);
    assert Delivered(a, b, c) == [QuitNote(name, why)];
    forall nick ensures Account(Delivered(a, b, c), nick) == -(if nick == name then 1 else 0) {
      OneNotice(QuitNote(name, why), nick);
    }
  }

  lemma QuietBalanced(a: Net, b: Net, c: nat)
    requires Registered(a) && Quiet(a, b) && c < |a.socks|
    ensures Balanced(a, b, c)
  {
    assert BlandGrowth(a.socks[c], b.socks[c]);
    forall nick ensures Account(Delivered(a, b, c), nick) == 0 { BlandSaysNothing(Delivered(a, b, c), nick); }
    forall k | 0 <= k < |a.clients| ensures NameOf(a, a.clients[k]) == NameOf(b, a.clients[k]) {
      assert SameSession(a.socks[a.clients[k]], b.socks[a.clients[k]]);
    }
    assert Names(a) == Names(b);
  }

  lemma OpenedBalanced(a: Net, b: Net, c: nat)
    requires Registered(a) && Opened(a, b) && c < |a.socks|
    ensures Balanced(a, b, c)
  {
    assert forall k :: 0 <= k < |a.clients| ==> NameOf(a, a.clients[k]) == NameOf(b, a.clients[k]);
    assert Names(a) == Names(b);
    assert Delivered(a, b, c) == [];
  }

  lemma ListedBalanced(a: Net, b: Net, i: nat, c: nat)
    requires Listed(a, b, i) && c < |a.socks|
    ensures Balanced(a, b, c)
  {
    assert forall k :: 0 <= k < |a.clients| ==> NameOf(a, a.clients[k]) == NameOf(b, a.clients[k]);
    assert Names(a) == Names(b);
    forall nick ensures Account(Delivered(a, b, c), nick) == 0 { BlandSaysNothing(Delivered(a, b, c), nick); }
  }

  /** One step, for any connection that is a live session after it: the login step itself is included. */
  lemma StepBalanced(env: Env, s: State, e: Event, c: nat)
    requires Registered(s.net) && Named(s)
    requires c < |s.net.socks| && Live(Step(env, s, e).net, c)
    ensures Balanced(s.net, Step(env, s, e).net, c)
  {
    var t := Step(env, s, e);
    StepMoves(env, s, e);
    match KindOf(s, e)
    case Still => QuietBalanced(s.net, t.net, c);
    case Opens => OpenedBalanced(s.net, t.net, c);
    case Enters(i, key, name) => ArrivedBalanced(s.net, t.net, i, key, name, Uptime(env, e.now), c);
    case Leaves(i, why) => DepartedBalanced(s.net, t.net, i, why, c);
    case Asks(i) => ListedBalanced(s.net, t.net, i, c);
  }

  /** Connection `c` is a live session after each of these events. */
  predicate StaysLive(env: Env, s: State, events: seq<Event>, c: nat)
    decreases |events|
  {
    events == [] || (Live(Step(env, s, events[0]).net, c) && StaysLive(env, Step(env, s, events[0]), events[1..], c))
  }

  lemma BalancedTrans(a: Net, b: Net, d: Net, c: nat)
    requires Balanced(a, b, c) && Balanced(b, d, c)
    ensures Balanced(a, d, c)
  {
    assert Delivered(a, d, c) == Delivered(a, b, c) + Delivered(b, d, c);
    forall nick ensures Roster(d)[nick] == Roster(a)[nick] + Account(Delivered(a, d, c), nick) {
      AccountAdds(Delivered(a, b, c), Delivered(b, d, c), nick);
    }
  }

  /** The roster just before a connection logs in, plus the joins it is told of, its own included, minus the
      quits it is told of, is the roster: after every step of every run, as long as the session lives. */
  lemma {:induction false} StreamIsRoster(env: Env, table: map<string, string>, s: State, events: seq<Event>, c: nat)
    requires Tracks(env, table, s)
    requires c < |s.net.socks| && StaysLive(env, s, events, c)
    ensures Balanced(s.net, Run(env, s, events).net, c)
    decreases |events|
  {
    if events == [] {
      assert Delivered(s.net, s.net, c) == [];
    } else {
      var t := Step(env, s, events[0]);
      StepBalanced(env, s, events[0], c);
      TracksStep(env, table, s, events[0]);
      StreamIsRoster(env, table, t, events[1..], c);
      BalancedTrans(s.net, t.net, Run(env, s, events).net, c);
    }
  }
}

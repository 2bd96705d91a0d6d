/** The discussion board of server.js: threads under their ids, and the sorted listing. */
module Board {
  import opened Protocol

  const MAX_THREAD_TITLE := 40

  /** `threads` and `nextThreadID`. */
  datatype Shelf = Shelf(threads: map<int, Thread>, next: int)

  type Comparator = (Thread, Thread) -> int
  /** The engine's `Array.prototype.sort`. */
  type Sorter = (seq<Thread>, Comparator) -> seq<Thread>

  function Expiry(t: Thread): int {
    t.created + t.ttl
  }

  /** Remaining time at `now`, as both server.js and boards.js compute it. */
  function Remaining(t: Thread, now: int): int {
    t.ttl - (now - t.created)
  }

  function ByRemaining(now: int): Comparator {
    (a: Thread, b: Thread) => Remaining(a, now) - Remaining(b, now)
  }

  /** What the language standard asks of a comparator before it promises anything about `sort`. */
  ghost predicate Consistent(cmp: Comparator) {
    && (forall a, b :: cmp(a, b) < 0 <==> cmp(b, a) > 0)
    && (forall a, b, c {:trigger cmp(a, b), cmp(b, c)} :: cmp(a, b) <= 0 && cmp(b, c) <= 0 ==> cmp(a, c) <= 0)
  }

  ghost predicate SortedBy(cmp: Comparator, ts: seq<Thread>) {
    forall i, j :: 0 <= i < j < |ts| ==> cmp(ts[i], ts[j]) <= 0
  }

  /** Sections 23.1.3.30 and 23.1.3.30.1 of ECMA-262: a permutation, in order, for every consistent comparator. */
  ghost predicate SortContract(sort: Sorter) {
    forall ts: seq<Thread>, cmp: Comparator {:trigger sort(ts, cmp)} ::
      Consistent(cmp) ==> multiset(sort(ts, cmp)) == multiset(ts) && SortedBy(cmp, sort(ts, cmp))
  }

  /** `for (var id in threads)`: integer names are visited in ascending order. */
  function TopicsBelow(threads: map<int, Thread>, n: nat): seq<Thread> {
    if n == 0 then []
    else TopicsBelow(threads, n - 1) + (if n - 1 in threads then [threads[n - 1]] else [])
  }

  function Topics(shelf: Shelf): seq<Thread> {
    TopicsBelow(shelf.threads, if shelf.next >= 0 then shelf.next else 0)
  }

  function Truncated(title: string): string {
    if |title| <= MAX_THREAD_TITLE then title else title[..MAX_THREAD_TITLE]
  }

  /** `createNewThread`: None when it returns false. */
  function Created(shelf: Shelf, user: string, title: string, body: string, ttl: int, now: int): Option<Thread> {
    if |title| < 1 || |body| < 1 || ttl < 1 then None
    else Some(Thread(shelf.next, user, Truncated(title), body, ttl, now, []))
  }

  /** The board commands of `handleMessage`: the new shelf and the reply to the sender. */
  function Serve(sort: Sorter, shelf: Shelf, user: string, req: Request, now: int): (Shelf, Reply)
    requires BoardRequest(req)
  {
    match req
    case Threads =>
      (shelf, ThreadList(sort(Topics(shelf), ByRemaining(now))))
    case GetThread(id) =>
      if id != 0 && id in shelf.threads then (shelf, ThreadIs(shelf.threads[id]))
      else (shelf, Error("No such thread"))
    case NewThread(title, body, ttl) =>
      if title == "" || body == "" || ttl == 0 then
        (shelf, Error("Cannot create thread: invalid parameters"))
      else (
        match Created(shelf, user, title, body, ttl, now)
        case None => (shelf, Error("Could not create thread"))
        case Some(t) => (Shelf(shelf.threads[t.id := t], shelf.next + 1), ThreadIs(t))
      )
    case DeleteThread(id) =>
      if id != 0 && id in shelf.threads then
        if shelf.threads[id].username == user
        then (shelf.(threads := shelf.threads - {id}), Deleted("Thread deleted"))
        else (shelf, Error("Cannot delete thread: no privileges"))
      else (shelf, Error("No such thread"))
    case PostTo(id, body) =>
      if id != 0 && id in shelf.threads && body != "" then
        var t := shelf.threads[id].(messages := shelf.threads[id].messages + [Post(user, body)]);
        (shelf.(threads := shelf.threads[id := t]), ThreadIs(t))
      else (shelf, Error("No such thread"))
  }

  predicate BoardRequest(req: Request) {
    req.Threads? || req.GetThread? || req.NewThread? || req.DeleteThread? || req.PostTo?
  }

  /** Every thread is filed under its own positive id, below the next id to be given out. */
  ghost predicate Filed(shelf: Shelf) {
    shelf.next >= 1 && forall id :: id in shelf.threads ==> 1 <= id < shelf.next && shelf.threads[id].id == id
  }

  /** The same thread, later: nothing about it changes but further messages at the end. */
  predicate Continues(a: Thread, b: Thread) {
    b == a.(messages := b.messages) && a.messages <= b.messages
  }

  /** What one board command by `user` may do to the shelf: at most one thread appears, under the next id
      and in the user's name; a thread disappears only if it is the user's; posts are the user's, at the end. */
  ghost predicate Evolves(a: Shelf, b: Shelf, user: string) {
    && b.next == a.next + (if exists id :: id in b.threads && id !in a.threads then 1 else 0)
    && (forall id :: id in a.threads && id in b.threads ==>
         || b.threads[id] == a.threads[id]
         || exists body :: body != "" && PostedBy(a.threads[id], b.threads[id], user, body))
    && (forall id :: id in a.threads && id !in b.threads ==> a.threads[id].username == user)
    && (forall id :: id in b.threads && id !in a.threads ==>
         id == a.next < b.next && b.threads[id].username == user && b.threads[id].messages == [])
  }

  predicate PostedBy(a: Thread, b: Thread, user: string, body: string) {
    b == a.(messages := a.messages + [Post(user, body)])
  }

  lemma ServeEvolves(sort: Sorter, shelf: Shelf, user: string, req: Request, now: int)
    requires Filed(shelf) && BoardRequest(req)
    ensures Filed(Serve(sort, shelf, user, req, now).0)
    ensures Evolves(shelf, Serve(sort, shelf, user, req, now).0, user)
    ensures forall id :: id in shelf.threads && id !in Serve(sort, shelf, user, req, now).0.threads ==> req == DeleteThread(id)
  {
    if Serve(sort, shelf, user, req, now).0.next == shelf.next + 1 {
      assert shelf.next in Serve(sort, shelf, user, req, now).0.threads;
    }
    if req.PostTo? && req.thread != 0 && req.thread in shelf.threads && req.body != "" {
      assert PostedBy(shelf.threads[req.thread], Serve(sort, shelf, user, req, now).0.threads[req.thread], user, req.body);
    }
  }

  /** When each command succeeds, exactly, and what it then leaves behind; a refused command changes nothing. */
  lemma ServeOutcome(sort: Sorter, shelf: Shelf, user: string, req: Request, now: int)
    requires Filed(shelf) && BoardRequest(req)
    ensures
      var (after, reply) := Serve(sort, shelf, user, req, now);
      && (reply.Error? || req.Threads? || req.GetThread? ==> after == shelf)
      && (req.GetThread? ==> (reply.ThreadIs? <==> req.thread in shelf.threads))
      && (req.GetThread? && reply.ThreadIs? ==> reply.thread == shelf.threads[req.thread] && reply.thread.id == req.thread)
      && (req.NewThread? ==> (reply.ThreadIs? <==> req.title != "" && req.body != "" && req.ttl >= 1))
      && (req.NewThread? && reply.ThreadIs? ==>
           && after.threads - {shelf.next} == shelf.threads && after.threads.Keys == shelf.threads.Keys + {shelf.next}
           && after.threads[shelf.next] == reply.thread
           && reply.thread.title <= req.title && |reply.thread.title| == (if |req.title| < 40 then |req.title| else 40)
           && reply.thread.body == req.body && reply.thread.username == user
           && reply.thread.created == now && reply.thread.ttl == req.ttl && reply.thread.messages == [])
      && (req.DeleteThread? ==> (reply.Deleted? <==> req.thread in shelf.threads && shelf.threads[req.thread].username == user))
      && (req.DeleteThread? && reply.Deleted? ==> after.threads == shelf.threads - {req.thread} && after.next == shelf.next)
      && (req.PostTo? ==> (reply.ThreadIs? <==> req.thread in shelf.threads && req.body != ""))
      && (req.PostTo? && reply.ThreadIs? ==>
           && PostedBy(shelf.threads[req.thread], reply.thread, user, req.body)
           && after == shelf.(threads := shelf.threads[req.thread := reply.thread]))
  {
    if req.NewThread? && Serve(sort, shelf, user, req, now).1.ThreadIs? {
      assert Serve(sort, shelf, user, req, now).0.threads - {shelf.next} == shelf.threads;
    }
  }

  /** Which refusal is told for which cause, and what a deletion is told. */
  lemma ServeRefusals(sort: Sorter, shelf: Shelf, user: string, req: Request, now: int)
    requires Filed(shelf) && BoardRequest(req)
    ensures
      var reply := Serve(sort, shelf, user, req, now).1;
      && (req.GetThread? && req.thread !in shelf.threads ==> reply == Error("No such thread"))
      && (req.NewThread? ==>
           && (req.title == "" || req.body == "" || req.ttl == 0 ==> reply == Error("Cannot create thread: invalid parameters"))
           && (req.title != "" && req.body != "" && req.ttl < 0 ==> reply == Error("Could not create thread")))
      && (req.DeleteThread? ==>
           if req.thread !in shelf.threads then reply == Error("No such thread")
           else if shelf.threads[req.thread].username != user then reply == Error("Cannot delete thread: no privileges")
           else reply == Deleted("Thread deleted"))
      && (req.PostTo? && (req.thread !in shelf.threads || req.body == "") ==> reply == Error("No such thread"))
  {
  }

  lemma {:induction false} TopicsBelowMembers(threads: map<int, Thread>, n: nat)
    requires forall id :: id in threads ==> threads[id].id == id
    ensures forall t :: t in TopicsBelow(threads, n) <==> 0 <= t.id < n && t.id in threads && threads[t.id] == t
    ensures forall t :: multiset(TopicsBelow(threads, n))[t] <= 1
  {
    if n == 0 {
    } else {
      TopicsBelowMembers(threads, n - 1);
      var front := TopicsBelow(threads, n - 1);
      if n - 1 in threads {
        var last := threads[n - 1];
        assert TopicsBelow(threads, n) == front + [last];
        assert last !in front;
        assert multiset(front)[last] == 0;
      } else {
        assert TopicsBelow(threads, n) == front;
      }
    }
  }

  lemma ByRemainingConsistent(now: int)
    ensures Consistent(ByRemaining(now))
  {
  }

  /** The listing holds every stored thread exactly once and nothing else, soonest expiry first:
      the order does not depend on the clock reading it was sorted with. */
  lemma ListingOrder(sort: Sorter, shelf: Shelf, user: string, now: int)
    requires Filed(shelf) && SortContract(sort)
    ensures
      var (after, reply) := Serve(sort, shelf, user, Threads, now);
      && after == shelf && reply.ThreadList?
      && (forall t: Thread :: multiset(reply.topics)[t] == if t.id in shelf.threads && shelf.threads[t.id] == t then 1 else 0)
      && (forall i, j :: 0 <= i < j < |reply.topics| ==> Expiry(reply.topics[i]) <= Expiry(reply.topics[j]))
  {
    var topics := Topics(shelf);
    var cmp := ByRemaining(now);
    ByRemainingConsistent(now);
    TopicsBelowMembers(shelf.threads, shelf.next);
    var listed := sort(topics, cmp);
    assert multiset(listed) == multiset(topics) && SortedBy(cmp, listed);
    forall t: Thread ensures multiset(listed)[t] == if t.id in shelf.threads && shelf.threads[t.id] == t then 1 else 0 {
      assert t in topics <==> t in multiset(topics);
    }
    forall i, j | 0 <= i < j < |listed| ensures Expiry(listed[i]) <= Expiry(listed[j]) {
      assert cmp(listed[i], listed[j]) <= 0;
    }
  }
}

/**
  The per-isolate FIFO of request ids and its `Notify`.

  The queue lives on one thread, so a call runs to its end or to its next suspension; any
  order of such calls is a run. A pop that finds nothing registers itself as the waiter; a
  push hands its notification to the waiter, or leaves a permit when there is none.
 */
module Queue {
  import opened Wrappers
  import D = Dispatch

  type Id = D.RequestId

  /** The one consumer's place in the `Notify`. */
  datatype Waiter = Absent | Registered | Notified

  datatype State = State(pending: seq<Id>, permit: bool, waiter: Waiter)

  datatype Call =
    | Push(id: Id)
    | TryPop(max: nat)
    | Poll(max: nat)   // poll the future of `pop_batch(max)`, starting one if there is none
    | Cancel           // drop that future

  const EMPTY := State([], false, Absent)

  function AtLeastOne(max: nat): nat { if max == 0 then 1 else max }

  /** What a drain capped at `max` takes. */
  function Batch(pending: seq<Id>, max: nat): seq<Id> {
    if |pending| <= AtLeastOne(max) then pending else pending[..AtLeastOne(max)]
  }

  function Rest(pending: seq<Id>, max: nat): seq<Id> { pending[|Batch(pending, max)|..] }

  function NotifyOne(s: State): State {
    if s.waiter == Registered then s.(waiter := Notified) else s.(permit := true)
  }

  /** The state after `call`, and the ids it hands out; a poll that hands out none is pending. */
  function Do(s: State, call: Call): (State, seq<Id>) {
    match call
    case Push(id) => (NotifyOne(s.(pending := s.pending + [id])), [])
    case TryPop(max) => (s.(pending := Rest(s.pending, max)), Batch(s.pending, max))
    case Poll(max) =>
      if s.waiter == Registered then (s, [])
      else if s.pending != [] then (s.(pending := Rest(s.pending, max), waiter := Absent), Batch(s.pending, max))
      else (s.(permit := false, waiter := Registered), [])
    case Cancel =>
      if s.waiter == Notified then (NotifyOne(s.(waiter := Absent)), []) else (s.(waiter := Absent), [])
  }

  /** The state after a run of calls on an empty queue, and every id handed out so far. */
  function Run(calls: seq<Call>): (State, seq<Id>) {
    if calls == [] then (EMPTY, []) else
      var before := Run(calls[..|calls| - 1]);
      var after := Do(before.0, calls[|calls| - 1]);
      (after.0, before.1 + after.1)
  }

  /** The ids pushed, in order. */
  function Pushes(calls: seq<Call>): seq<Id> {
    if calls == [] then [] else Pushes(calls[..|calls| - 1]) + PushedBy(calls[|calls| - 1])
  }

  function PushedBy(call: Call): seq<Id> { if call.Push? then [call.id] else [] }

  /** No consumer sleeps un-notified over a waiting id. */
  predicate Awake(s: State) { s.waiter == Registered ==> s.pending == [] && !s.permit }

  lemma BatchAndRest(pending: seq<Id>, max: nat)
    ensures Batch(pending, max) + Rest(pending, max) == pending
    ensures pending != [] ==> 0 < |Batch(pending, max)| && (max > 0 ==> |Batch(pending, max)| <= max)
    ensures Rest(pending, max) != [] ==> |Batch(pending, max)| == if max == 0 then 1 else max
  {}

  lemma Drains(pending: seq<Id>, max: nat)
    ensures Batch(pending, max) + Rest(pending, max) == pending && (Batch(pending, max) == [] <==> pending == [])
  {}

  lemma CallKeepsOrder(s: State, call: Call)
    requires Awake(s)
    ensures Awake(Do(s, call).0)
    ensures Do(s, call).1 + Do(s, call).0.pending == s.pending + PushedBy(call)
  {
    if call.TryPop? || call.Poll? {
      BatchAndRest(s.pending, call.max);
    }
  }

  lemma {:induction false} HandedOutInOrder(calls: seq<Call>)
    ensures Run(calls).1 + Run(calls).0.pending == Pushes(calls)
    ensures Awake(Run(calls).0)
  {
    if calls != [] {
      var front, last := calls[..|calls| - 1], calls[|calls| - 1];
      HandedOutInOrder(front);
      CallKeepsOrder(Run(front).0, last);
      var (s', ids) := Do(Run(front).0, last);
      Extend(Run(front).1, Run(front).0.pending, PushedBy(last), ids, s'.pending);
    }
  }

  lemma Extend<T>(popped: seq<T>, pending: seq<T>, pushed: seq<T>, ids: seq<T>, pending': seq<T>)
    requires ids + pending' == pending + pushed
    ensures (popped + ids) + pending' == (popped + pending) + pushed
  {
    assert (popped + ids) + pending' == popped + (ids + pending');
  }

  /** After any run, polling a pop while ids wait hands out the next ones, as many as fit the cap. */
  lemma PollDelivers(calls: seq<Call>, max: nat)
    requires Run(calls).0.pending != []
    ensures var done := |Run(calls).1|;
            var cap := if max == 0 then 1 else max;
            var n := if |Run(calls).0.pending| < cap then |Run(calls).0.pending| else cap;
            0 < n && done + n <= |Pushes(calls)| &&
            Do(Run(calls).0, Poll(max)).1 == Pushes(calls)[done..done + n]
  {
    HandedOutInOrder(calls);
    var n := |Batch(Run(calls).0.pending, max)|;
    FrontOfSuffix(Run(calls).1, Run(calls).0.pending, n);
  }

  lemma FrontOfSuffix<T>(done: seq<T>, todo: seq<T>, n: nat)
    requires n <= |todo|
    ensures (done + todo)[|done|..|done| + n] == todo[..n]
  {}

  /** A pending poll is answered by the very next push: the waiter is woken and its poll yields that id. */
  lemma PushWakesWaiter(calls: seq<Call>, id: Id, max: nat)
    requires Run(calls).0.waiter == Registered
    ensures Do(Do(Run(calls).0, Push(id)).0, Poll(max)).1 == [id]
  {
    HandedOutInOrder(calls);
    assert [] + [id] == [id];
  }

  // ---------------------------------------------------------------- what the notification promises

  /** The poll made by call i finds nothing, and suspends. */
  ghost predicate Suspends(calls: seq<Call>, i: nat) {
    && i < |calls| && calls[i].Poll?
    && Run(calls[..i]).0.waiter != Registered && Run(calls[..i]).0.pending == []
  }

  /** Call i ends a suspended pop: it is dropped, or polled with ids to hand out. */
  ghost predicate Concludes(calls: seq<Call>, i: nat) {
    && i < |calls|
    && (calls[i].Cancel?
        || (calls[i].Poll? && Run(calls[..i]).0.waiter != Registered && Run(calls[..i]).0.pending != []))
  }

  /** A pop has been suspended since call i. */
  ghost predicate SuspendedSince(calls: seq<Call>, i: nat) {
    Suspends(calls, i) && forall j :: i < j < |calls| ==> !Suspends(calls, j) && !Concludes(calls, j)
  }

  ghost predicate PushedSince(calls: seq<Call>, i: nat) { exists j :: i < j < |calls| && calls[j].Push? }

  /** Call i notifies nobody: a push without a suspended pop, or one whose notification is handed back. */
  ghost predicate Unclaimed(calls: seq<Call>, i: nat) {
    && i < |calls|
    && ((calls[i].Push? && Run(calls[..i]).0.waiter != Registered)
        || (calls[i].Cancel? && Run(calls[..i]).0.waiter == Notified))
  }

  ghost predicate UnclaimedSince(calls: seq<Call>, i: nat) {
    Unclaimed(calls, i) && forall j :: i < j < |calls| ==> !Suspends(calls, j)
  }

  ghost predicate WaiterTold(calls: seq<Call>) {
    && (Run(calls).0.waiter != Absent <==> exists i: nat :: SuspendedSince(calls, i))
    && (Run(calls).0.waiter == Notified <==> exists i: nat :: SuspendedSince(calls, i) && PushedSince(calls, i))
    && (Run(calls).0.permit <==> exists i: nat :: UnclaimedSince(calls, i))
  }

  lemma Earlier(calls: seq<Call>, call: Call, i: nat)
    requires i < |calls|
    ensures Suspends(calls + [call], i) == Suspends(calls, i) && Concludes(calls + [call], i) == Concludes(calls, i)
    ensures Unclaimed(calls + [call], i) == Unclaimed(calls, i)
  {
    assert (calls + [call])[..i] == calls[..i];
  }

  lemma SuspendedLater(calls: seq<Call>, call: Call, i: nat)
    requires i < |calls|
    ensures SuspendedSince(calls + [call], i)
       <==> SuspendedSince(calls, i) && !Suspends(calls + [call], |calls|) && !Concludes(calls + [call], |calls|)
    ensures PushedSince(calls + [call], i) <==> PushedSince(calls, i) || call.Push?
    ensures UnclaimedSince(calls + [call], i) <==> UnclaimedSince(calls, i) && !Suspends(calls + [call], |calls|)
  {
    var all := calls + [call];
    Earlier(calls, call, i);
    forall j | i < j < |calls|
      ensures Suspends(all, j) == Suspends(calls, j) && Concludes(all, j) == Concludes(calls, j) && all[j] == calls[j]
    {
      Earlier(calls, call, j);
    }
    assert all[|calls|] == call;
    if PushedSince(all, i) && !call.Push? {
      var j :| i < j < |all| && all[j].Push?;
      assert calls[j].Push?;
    }
    if PushedSince(calls, i) {
      var j :| i < j < |calls| && calls[j].Push?;
      assert all[j].Push?;
    }
  }

  lemma LastCall(calls: seq<Call>, call: Call)
    ensures (calls + [call])[..|calls|] == calls
    ensures Run(calls + [call]).0 == Do(Run(calls).0, call).0
    ensures SuspendedSince(calls + [call], |calls|) == Suspends(calls + [call], |calls|)
    ensures UnclaimedSince(calls + [call], |calls|) == Unclaimed(calls + [call], |calls|)
    ensures !PushedSince(calls + [call], |calls|)
  {
    assert (calls + [call])[..|calls|] == calls;
  }

  lemma OneSuspended(calls: seq<Call>, i: nat, j: nat)
    requires SuspendedSince(calls, i) && SuspendedSince(calls, j)
    ensures i == j
  {}

  lemma SuspendedAfter(calls: seq<Call>, call: Call)
    requires WaiterTold(calls)
    ensures var all := calls + [call];
      (exists i: nat :: SuspendedSince(all, i))
      <==> Suspends(all, |calls|) || (Run(calls).0.waiter != Absent && !Concludes(all, |calls|))
  {
    LastCall(calls, call);
    var all := calls + [call];
    if i: nat :| SuspendedSince(all, i) && i < |calls| {
      SuspendedLater(calls, call, i);
    }
    if Run(calls).0.waiter != Absent && !Concludes(all, |calls|) && !Suspends(all, |calls|) {
      var i: nat :| SuspendedSince(calls, i);
      SuspendedLater(calls, call, i);
    }
  }

  lemma NotifiedAfter(calls: seq<Call>, call: Call)
    requires WaiterTold(calls)
    ensures var all := calls + [call];
      (exists i: nat :: SuspendedSince(all, i) && PushedSince(all, i))
      <==> && !Suspends(all, |calls|) && !Concludes(all, |calls|)
           && (Run(calls).0.waiter == Notified || (Run(calls).0.waiter != Absent && call.Push?))
  {
    LastCall(calls, call);
    var all := calls + [call];
    if i: nat :| SuspendedSince(all, i) && PushedSince(all, i) {
      SuspendedLater(calls, call, i);
    }
    if i: nat :| SuspendedSince(calls, i) && !Suspends(all, |calls|) && !Concludes(all, |calls|) {
      SuspendedLater(calls, call, i);
      if Run(calls).0.waiter == Notified {
        var k: nat :| SuspendedSince(calls, k) && PushedSince(calls, k);
        OneSuspended(calls, i, k);
      }
    }
  }

  lemma PermitAfter(calls: seq<Call>, call: Call)
    requires WaiterTold(calls)
    ensures var all := calls + [call];
      (exists i: nat :: UnclaimedSince(all, i))
      <==> Unclaimed(all, |calls|) || (Run(calls).0.permit && !Suspends(all, |calls|))
  {
    LastCall(calls, call);
    var all := calls + [call];
    if i: nat :| UnclaimedSince(all, i) && i < |calls| {
      SuspendedLater(calls, call, i);
    }
    if Run(calls).0.permit && !Suspends(all, |calls|) {
      var i: nat :| UnclaimedSince(calls, i);
      SuspendedLater(calls, call, i);
    }
  }

  /**
    After any run a pop waits exactly if one has suspended and has neither been dropped nor handed
    ids out since; it has been notified exactly if an id was pushed since; and a permit is left
    exactly if some notification has found nobody waiting since a pop last suspended.
   */
  lemma {:induction false} NotifiedIff(calls: seq<Call>)
    ensures WaiterTold(calls)
  {
    if calls != [] {
      var front, last := calls[..|calls| - 1], calls[|calls| - 1];
      assert calls == front + [last];
      NotifiedIff(front);
      HandedOutInOrder(front);
      LastCall(front, last);
      SuspendedAfter(front, last);
      NotifiedAfter(front, last);
      PermitAfter(front, last);
    }
  }

  class RequestQueue {
    var pending: seq<Id>
    var permit: bool
    var waiter: Waiter

    function Abstract(): State
      reads this
    {
      State(pending, permit, waiter)
    }

    constructor ()
      ensures Abstract() == EMPTY
    {
      pending, permit, waiter := [], false, Absent;
    }

    method Push(id: Id)
      modifies this
      ensures Abstract() == Do(old(Abstract()), Call.Push(id)).0
    {
      pending := pending + [id];
      if waiter == Registered {
        waiter := Notified;
      } else {
        permit := true;
      }
    }

    /** Drains up to `max` ids without suspending. */
    method TryPopBatch(max: nat) returns (ids: seq<Id>)
      modifies this`pending
      ensures (Abstract(), ids) == Do(old(Abstract()), TryPop(max))
    {
      var cap := if max == 0 then 1 else max;
      if pending == [] {
        return [];
      }
      var take := if |pending| < cap then |pending| else cap;
      ids := [];
      for i := 0 to take
        invariant ids == old(pending)[..i] && pending == old(pending)[i..]
      {
        ids, pending := ids + [pending[0]], pending[1..];
      }
      assert ids == Batch(old(pending), max);
    }

    /** One poll of `pop_batch(max)`: runs its loop until it resolves or suspends. */
    method PollPopBatch(max: nat) returns (ids: seq<Id>)
      modifies this
      ensures (Abstract(), ids) == Do(old(Abstract()), Poll(max))
    {
      if waiter == Registered {
        return [];
      }
      waiter := Absent;
      while true
        invariant pending == old(pending) && waiter == Absent
        invariant pending != [] ==> permit == old(permit)
        decreases permit
      {
        if pending != [] {
          ids := TryPopBatch(max);
          return;
        }
        if !permit {
          waiter := Registered;
          return [];
        }
        permit := false;
      }
    }

    /** One poll of `pop`. */
    method PollPop() returns (id: Option<Id>)
      modifies this
      ensures Abstract() == Do(old(Abstract()), Poll(1)).0
      ensures Do(old(Abstract()), Poll(1)).1 == if id.Some? then [id.value] else []
    {
      var ids := PollPopBatch(1);
      id := if ids == [] then None else Some(ids[0]);
    }

    /** Drops an unfinished pop; a notification it had received is passed on as a permit. */
    method CancelPop()
      modifies this
      ensures Abstract() == Do(old(Abstract()), Cancel).0
    {
      if waiter == Notified {
        permit := true;
      }
      waiter := Absent;
    }
  }
}

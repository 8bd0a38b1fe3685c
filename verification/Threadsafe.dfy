/**
  The life of a threadsafe function, as an interleaving of atomic steps.

  Every atomic operation on the shared object, every send on the work channel and every
  phase of a work item on the JavaScript thread is one step of `Next`. Threads start an
  acquire, a call or a release only while they hold a count (`Give` hands a count over);
  nothing else is assumed about them, and the work channel may close at any time.

  `Advance` adds the pump of the JavaScript thread: it takes items only while it drains the
  channel, then parks, and wakes on a notification. A call notifies it after its item; a
  release does not.
 */
module Threadsafe {
  import opened Wrappers

  const USIZE: nat := 0x1_0000_0000_0000_0000

  datatype Item = Call(data: nat) | Finalize

  /** Where a thread is inside `napi_acquire/call/release_threadsafe_function`. */
  datatype Pc =
    | Idle
    | Acquiring            // `aborted` read as false, `thread_count` not yet raised
    | Calling(data: nat)   // `aborted` read as false, `queued` not yet raised
    | Bumped(data: nat)    // `queued` raised, item not yet sent
    | Sent                 // item sent, `wakeup` not yet notified
    | Releasing            // `aborted` stored if asked, `thread_count` not yet lowered
    | Underflown           // lowered from zero, zero not yet stored back
    | LastOut              // lowered from one, finalizer not yet sent

  datatype Thread = Thread(pc: Pc, holds: nat)

  /** What the JavaScript thread is doing with the item it took off the channel. */
  datatype Js =
    | Waiting
    | Popped(item: Item)       // nothing done yet
    | Lowered(data: nat)       // `queued` lowered, `aborted` not yet read
    | Invoking(data: nat)      // `aborted` read as false, callback not yet run
    | Finalized                // finalize callback run, object not yet dropped

  datatype State = State(
    count: nat, aborted: bool, queued: int, freed: bool,
    channel: seq<Item>, open: bool,
    threads: seq<Thread>, js: Js,
    // what happened so far
    sent: seq<Item>, ran: seq<Item>, dropped: seq<Item>, invoked: seq<nat>,
    unsent: nat, finalizerLost: bool, finalizeRuns: nat, touchedFreed: bool)

  datatype Step =
    | StartAcquire(t: nat) | AcquireAdd(t: nat)
    | StartCall(t: nat, data: nat) | CallBump(t: nat) | CallSend(t: nat) | CallNotify(t: nat)
    | StartRelease(t: nat, abort: bool) | ReleaseSub(t: nat) | ReleaseStoreZero(t: nat) | ReleaseSend(t: nat)
    | Give(t: nat, to: nat)
    | JsPop | JsStep
    | Close

  /** The step reads or writes the shared object. */
  function Touch(s: State): State { s.(touchedFreed := s.touchedFreed || s.freed) }

  function At(s: State, t: nat, pc: Pc): State
    requires t < |s.threads|
  {
    s.(threads := s.threads[t := s.threads[t].(pc := pc)])
  }

  function Owning(s: State, t: nat, pc: Pc, holds: nat): State
    requires t < |s.threads|
  {
    s.(threads := s.threads[t := Thread(pc, holds)])
  }

  /** `work_tx.send`; on a closed channel the item is lost. */
  function Send(s: State, item: Item): State {
    if s.open then s.(channel := s.channel + [item], sent := s.sent + [item])
    else if item.Call? then s.(unsent := s.unsent + 1)
    else s.(finalizerLost := true)
  }

  predicate IsAt(s: State, t: nat, pc: Pc) { t < |s.threads| && s.threads[t].pc == pc }

  predicate MayStart(s: State, t: nat) { IsAt(s, t, Idle) && s.threads[t].holds > 0 }

  /** The state after `step`, or None where the step cannot be taken. */
  function Next(s: State, step: Step): Option<State> {
    match step
    case StartAcquire(t) =>
      if !MayStart(s, t) then None
      else Some(if s.aborted then Touch(s) else At(Touch(s), t, Acquiring))
    case AcquireAdd(t) =>
      if !IsAt(s, t, Acquiring) then None
      else Some(Owning(Touch(s), t, Idle, s.threads[t].holds + 1).(count := (s.count + 1) % USIZE))
    case StartCall(t, data) =>
      if !MayStart(s, t) then None
      else Some(if s.aborted then Touch(s) else At(Touch(s), t, Calling(data)))
    case CallBump(t) =>
      if t < |s.threads| && s.threads[t].pc.Calling? then
        Some(At(Touch(s), t, Bumped(s.threads[t].pc.data)).(queued := s.queued + 1))
      else None
    case CallSend(t) =>
      if t < |s.threads| && s.threads[t].pc.Bumped? then
        Some(At(Send(Touch(s), Call(s.threads[t].pc.data)), t, if s.open then Sent else Idle))
      else None
    case CallNotify(t) =>
      if !IsAt(s, t, Sent) then None else Some(At(Touch(s), t, Idle))
    case StartRelease(t, abort) =>
      if !MayStart(s, t) then None else Some(At(Touch(s), t, Releasing).(aborted := s.aborted || abort))
    case ReleaseSub(t) =>
      if !IsAt(s, t, Releasing) then None
      else
        var pc := if s.count == 0 then Underflown else if s.count == 1 then LastOut else Idle;
        var holds := if s.threads[t].holds > 0 then s.threads[t].holds - 1 else 0;
        Some(Owning(Touch(s), t, pc, holds).(count := (s.count + USIZE - 1) % USIZE))
    case ReleaseStoreZero(t) =>
      if !IsAt(s, t, Underflown) then None else Some(At(Touch(s), t, Idle).(count := 0))
    case ReleaseSend(t) =>
      if !IsAt(s, t, LastOut) then None else Some(At(Send(Touch(s), Finalize), t, Idle))
    case Give(t, to) =>
      if MayStart(s, t) && to < |s.threads| && to != t then
        Some(s.(threads := s.threads[t := Thread(Idle, s.threads[t].holds - 1)]
                                    [to := s.threads[to].(holds := s.threads[to].holds + 1)]))
      else None
    case JsPop =>
      if s.js == Waiting && s.channel != [] then Some(s.(js := Popped(s.channel[0]), channel := s.channel[1..]))
      else None
    case JsStep => if s.js == Waiting then None else Some(JsNext(s))
    case Close =>
      if !s.open then None else Some(s.(open := false, channel := [], dropped := s.channel))
  }

  /** The phases of a work item: the closures sent by call and by release. */
  function JsNext(s: State): State
    requires s.js != Waiting
  {
    match s.js
    case Popped(Call(data)) => Touch(s).(js := Lowered(data), queued := s.queued - 1)
    case Lowered(data) =>
      if s.aborted then Touch(s).(js := Waiting, ran := s.ran + [Call(data)]) else Touch(s).(js := Invoking(data))
    case Invoking(data) =>
      Touch(s).(js := Waiting, ran := s.ran + [Call(data)], invoked := s.invoked + [data])
    case Popped(Finalize) => Touch(s).(js := Finalized, finalizeRuns := s.finalizeRuns + 1)
    case Finalized => s.(js := Waiting, ran := s.ran + [Finalize], freed := true)
  }

  /** `napi_create_threadsafe_function`: thread 0 holds the initial counts. */
  function Init(threads: nat, initial: nat): State
    requires threads > 0 && 0 < initial < USIZE
  {
    State(initial, false, 0, false, [], true,
          seq(threads, i => Thread(Idle, if i == 0 then initial else 0)), Waiting,
          [], [], [], [], 0, false, 0, false)
  }

  // ---------------------------------------------------------------- sums over threads

  function Held(ts: seq<Thread>): nat {
    if ts == [] then 0 else ts[0].holds + Held(ts[1..])
  }

  function BumpOf(th: Thread): nat { if th.pc.Bumped? then 1 else 0 }

  /** Threads between their `queued` bump and their send. */
  function BumpedThreads(ts: seq<Thread>): nat {
    if ts == [] then 0 else BumpOf(ts[0]) + BumpedThreads(ts[1..])
  }

  function Calls(items: seq<Item>): nat {
    if items == [] then 0 else (if items[0].Call? then 1 else 0) + Calls(items[1..])
  }

  function Datas(items: seq<Item>): seq<nat> {
    if items == [] then [] else (if items[0].Call? then [items[0].data] else []) + Datas(items[1..])
  }

  lemma {:induction false} HeldUpdate(ts: seq<Thread>, i: nat, th: Thread)
    requires i < |ts|
    ensures Held(ts[i := th]) == Held(ts) - ts[i].holds + th.holds
  {
    if i == 0 {
      assert ts[i := th][1..] == ts[1..];
    } else {
      assert ts[i := th][1..] == ts[1..][i - 1 := th];
      HeldUpdate(ts[1..], i - 1, th);
    }
  }

  lemma {:induction false} HeldAtLeast(ts: seq<Thread>, i: nat)
    requires i < |ts|
    ensures ts[i].holds <= Held(ts)
  {
    if i > 0 {
      HeldAtLeast(ts[1..], i - 1);
    }
  }

  lemma {:induction false} BumpedUpdate(ts: seq<Thread>, i: nat, th: Thread)
    requires i < |ts|
    ensures BumpedThreads(ts[i := th]) == BumpedThreads(ts) - BumpOf(ts[i]) + BumpOf(th)
  {
    if i == 0 {
      assert ts[i := th][1..] == ts[1..];
    } else {
      assert ts[i := th][1..] == ts[1..][i - 1 := th];
      BumpedUpdate(ts[1..], i - 1, th);
    }
  }

  lemma {:induction false} NoneBumped(ts: seq<Thread>)
    requires forall i :: 0 <= i < |ts| ==> ts[i].pc == Idle
    ensures BumpedThreads(ts) == 0
  {
    if ts != [] {
      NoneBumped(ts[1..]);
    }
  }

  lemma {:induction false} ItemsAppend(items: seq<Item>, item: Item)
    ensures Calls(items + [item]) == Calls(items) + (if item.Call? then 1 else 0)
    ensures Datas(items + [item]) == Datas(items) + (if item.Call? then [item.data] else [])
  {
    if items == [] {
      assert items + [item] == [item];
    } else {
      assert (items + [item])[1..] == items[1..] + [item];
      ItemsAppend(items[1..], item);
    }
  }

  // ---------------------------------------------------------------- invariant

  /** The item in the hands of the JavaScript thread. */
  function InHand(js: Js): seq<Item> {
    match js
    case Waiting => []
    case Popped(item) => [item]
    case Lowered(data) => [Call(data)]
    case Invoking(data) => [Call(data)]
    case Finalized => [Finalize]
  }

  /** Some thread lowered the count from one and has yet to send the finalizer. */
  ghost predicate LastOutPending(s: State) {
    exists t :: 0 <= t < |s.threads| && s.threads[t].pc == LastOut
  }

  ghost predicate Quiet(ts: seq<Thread>) {
    forall t :: 0 <= t < |ts| ==> ts[t].pc == Idle
  }

  /** Threads: who holds what, and that nobody is left inside once the counts are gone. */
  ghost predicate ThreadInv(s: State) {
    && s.count == Held(s.threads) < USIZE
    && (forall t :: 0 <= t < |s.threads| ==> s.threads[t].pc != Underflown)
    && (forall t :: 0 <= t < |s.threads| && s.threads[t].pc != Idle && s.threads[t].pc != LastOut
          ==> s.threads[t].holds > 0)
    && (forall t, u :: 0 <= t < u < |s.threads| && s.threads[t].pc == LastOut ==> s.threads[u].pc != LastOut)
    && (LastOutPending(s) ==> s.count == 0)
  }

  /** Exactly one finalizer is on its way once the counts are gone, and none before. */
  ghost predicate FinalizerInv(s: State) {
    && (Finalize in s.sent || s.finalizerLost || LastOutPending(s) <==> s.count == 0)
    && (LastOutPending(s) ==> Finalize !in s.sent && !s.finalizerLost)
    && (s.finalizerLost ==> Finalize !in s.sent && !s.open)
    && (forall i :: 0 <= i < |s.sent| && s.sent[i] == Finalize ==> i == |s.sent| - 1)
  }

  /** Items: sent in order, run in order, each once; the object dies with its finalizer. */
  ghost predicate ItemInv(s: State) {
    && s.sent == s.ran + InHand(s.js) + s.channel + s.dropped
    && (s.open ==> s.dropped == [])
    && (!s.open ==> s.channel == [])
    && (s.freed <==> Finalize in s.ran)
    && s.finalizeRuns == (if Finalize in s.ran || s.js == Finalized then 1 else 0)
    && !s.touchedFreed
  }

  /** `queued`: items sent and not begun, plus those between bump and send, plus those the closed channel lost. */
  ghost predicate QueuedInv(s: State) {
    s.queued == Outstanding(s)
  }

  function Outstanding(s: State): nat {
    Calls(s.channel) + Calls(s.dropped) + (if s.js.Popped? && s.js.item.Call? then 1 else 0)
    + BumpedThreads(s.threads) + s.unsent
  }

  /** Until an abort, every call item that ran has run its callback, in order. */
  ghost predicate InvokedInv(s: State) {
    !s.aborted ==> s.invoked == Datas(s.ran)
  }

  ghost predicate Inv(s: State) {
    ThreadInv(s) && FinalizerInv(s) && ItemInv(s) && QueuedInv(s) && InvokedInv(s)
  }

  // ---------------------------------------------------------------- every step keeps it

  /** Once the object is dropped no thread is inside an entry point and no item is left. */
  lemma FreedIsOver(s: State)
    requires ThreadInv(s) && FinalizerInv(s) && ItemInv(s) && s.freed
    ensures s.count == 0 && Quiet(s.threads)
    ensures s.js == Waiting && s.channel == [] && s.dropped == [] && s.ran == s.sent
  {
    var i :| 0 <= i < |s.ran| && s.ran[i] == Finalize;
    assert s.sent[i] == Finalize;
    assert Finalize in s.sent;
    forall t | 0 <= t < |s.threads|
      ensures s.threads[t].pc == Idle
    {
      HeldAtLeast(s.threads, t);
    }
  }

  /** A thread inside an entry point: the object is alive and no finalizer has been sent. */
  lemma InsideIsAlive(s: State, t: nat)
    requires ThreadInv(s) && FinalizerInv(s) && ItemInv(s)
    requires t < |s.threads| && (s.threads[t].holds > 0 || s.threads[t].pc != Idle)
    ensures !s.freed && Finalize !in s.sent && !s.finalizerLost
    ensures s.threads[t].pc != LastOut ==> s.count > 0 && !LastOutPending(s)
  {
    HeldAtLeast(s.threads, t);
    if s.freed {
      FreedIsOver(s);
    }
  }

  /** A thread changes its place or its holding, and the count follows. */
  lemma ThreadMoves(s: State, t: nat, th: Thread, s': State)
    requires ThreadInv(s) && t < |s.threads| && s'.threads == s.threads[t := th]
    requires s.threads[t].pc != LastOut && th.pc != Underflown && th.pc != LastOut && (th.pc != Idle ==> th.holds > 0)
    requires s'.count == s.count - s.threads[t].holds + th.holds < USIZE
    requires LastOutPending(s) ==> s'.count == 0
    ensures ThreadInv(s') && (LastOutPending(s') <==> LastOutPending(s))
  {
    HeldUpdate(s.threads, t, th);
    if u :| 0 <= u < |s.threads| && s.threads[u].pc == LastOut {
      assert s'.threads[u].pc == LastOut;
    }
  }

  lemma AcquireKeepsInv(s: State, t: nat)
    requires Inv(s) && IsAt(s, t, Acquiring) && s.count + 1 < USIZE
    ensures Inv(Next(s, AcquireAdd(t)).value)
  {
    var s' := Next(s, AcquireAdd(t)).value;
    InsideIsAlive(s, t);
    ThreadMoves(s, t, s'.threads[t], s');
    BumpedUpdate(s.threads, t, s'.threads[t]);
  }

  lemma StartKeepsInv(s: State, step: Step)
    requires Inv(s) && (step.StartAcquire? || step.StartCall? || step.StartRelease?) && MayStart(s, step.t)
    ensures Inv(Next(s, step).value)
  {
    var s' := Next(s, step).value;
    InsideIsAlive(s, step.t);
    if s'.threads != s.threads {
      ThreadMoves(s, step.t, s'.threads[step.t], s');
      BumpedUpdate(s.threads, step.t, s'.threads[step.t]);
    }
  }

  lemma GiveCounts(s: State, t: nat, to: nat, s': State)
    requires Next(s, Give(t, to)) == Some(s')
    ensures |s'.threads| == |s.threads|
    ensures Held(s'.threads) == Held(s.threads) && BumpedThreads(s'.threads) == BumpedThreads(s.threads)
    ensures forall u :: 0 <= u < |s.threads| ==> s'.threads[u].pc == s.threads[u].pc
  {
    var mid := s.threads[t := Thread(Idle, s.threads[t].holds - 1)];
    HeldUpdate(s.threads, t, mid[t]);
    BumpedUpdate(s.threads, t, mid[t]);
    HeldUpdate(mid, to, s'.threads[to]);
    BumpedUpdate(mid, to, s'.threads[to]);
  }

  lemma GiveKeepsThreads(s: State, t: nat, to: nat, s': State)
    requires ThreadInv(s) && Next(s, Give(t, to)) == Some(s')
    ensures ThreadInv(s') && (LastOutPending(s') <==> LastOutPending(s))
  {
    GiveCounts(s, t, to, s');
  }

  lemma GiveKeepsInv(s: State, t: nat, to: nat)
    requires Inv(s) && Next(s, Give(t, to)).Some?
    ensures Inv(Next(s, Give(t, to)).value)
  {
    var s' := Next(s, Give(t, to)).value;
    GiveCounts(s, t, to, s');
    GiveKeepsThreads(s, t, to, s');
  }

  lemma CallKeepsQueued(s: State, step: Step)
    requires QueuedInv(s) && (step.CallBump? || step.CallSend? || step.CallNotify?) && Next(s, step).Some?
    ensures QueuedInv(Next(s, step).value)
  {
    var s' := Next(s, step).value;
    BumpedUpdate(s.threads, step.t, s'.threads[step.t]);
    if step.CallSend? && s.open {
      ItemsAppend(s.channel, Call(s.threads[step.t].pc.data));
    }
  }

  lemma CallKeepsInv(s: State, step: Step)
    requires Inv(s) && (step.CallBump? || step.CallSend? || step.CallNotify?) && Next(s, step).Some?
    ensures Inv(Next(s, step).value)
  {
    var s' := Next(s, step).value;
    CallKeepsQueued(s, step);
    InsideIsAlive(s, step.t);
    ThreadMoves(s, step.t, s'.threads[step.t], s');
    assert FinalizerInv(s');
    assert ItemInv(s');
  }

  lemma ReleaseSubKeepsInv(s: State, t: nat)
    requires Inv(s) && IsAt(s, t, Releasing)
    ensures Inv(Next(s, ReleaseSub(t)).value)
  {
    var s' := Next(s, ReleaseSub(t)).value;
    InsideIsAlive(s, t);
    BumpedUpdate(s.threads, t, s'.threads[t]);
    HeldUpdate(s.threads, t, s'.threads[t]);
    assert s'.count == s.count - 1;
    if s.count == 1 {
      assert s'.threads[t].pc == LastOut;
    } else {
      ThreadMoves(s, t, s'.threads[t], s');
    }
  }

  lemma LastOutLeaves(s: State, t: nat, s': State)
    requires ThreadInv(s) && Next(s, ReleaseSend(t)) == Some(s')
    ensures ThreadInv(s') && LastOutPending(s) && !LastOutPending(s')
    ensures BumpedThreads(s'.threads) == BumpedThreads(s.threads)
  {
    assert s.threads[t].pc == LastOut;
    BumpedUpdate(s.threads, t, s'.threads[t]);
    HeldUpdate(s.threads, t, s'.threads[t]);
  }

  lemma FinalizerSent(s: State, t: nat, s': State)
    requires ThreadInv(s) && FinalizerInv(s) && ItemInv(s) && Next(s, ReleaseSend(t)) == Some(s')
    ensures FinalizerInv(s') && ItemInv(s') && Calls(s'.channel) == Calls(s.channel)
    ensures s.open ==> s'.open && s'.sent == s.sent + [Finalize] && s'.channel == s.channel + [Finalize]
  {
    InsideIsAlive(s, t);
    LastOutLeaves(s, t, s');
    ItemsAppend(s.channel, Finalize);
  }

  lemma ReleaseSendKeepsInv(s: State, t: nat)
    requires Inv(s) && IsAt(s, t, LastOut)
    ensures Inv(Next(s, ReleaseSend(t)).value)
  {
    var s' := Next(s, ReleaseSend(t)).value;
    LastOutLeaves(s, t, s');
    FinalizerSent(s, t, s');
  }

  lemma JsPopKeepsInv(s: State)
    requires Inv(s) && Next(s, JsPop).Some?
    ensures Inv(Next(s, JsPop).value)
  {
    var s' := Next(s, JsPop).value;
    assert s.channel == [s.channel[0]] + s.channel[1..];
    assert s'.sent == s'.ran + InHand(s'.js) + s'.channel + s'.dropped;
  }

  lemma HandIsNext(s: State)
    requires ItemInv(s) && s.js != Waiting
    ensures s.sent[|s.ran|] == InHand(s.js)[0]
  {}

  lemma CallBeginKeepsInv(s: State)
    requires Inv(s) && s.js.Popped? && s.js.item.Call?
    ensures Inv(JsNext(s))
  {
    if s.freed {
      FreedIsOver(s);
    }
  }

  lemma CallCheckKeepsInv(s: State)
    requires Inv(s) && s.js.Lowered?
    ensures Inv(JsNext(s))
  {
    if s.freed {
      FreedIsOver(s);
    }
    HandIsNext(s);
  }

  lemma CallInvokeKeepsInv(s: State)
    requires Inv(s) && s.js.Invoking?
    ensures Inv(JsNext(s))
  {
    if s.freed {
      FreedIsOver(s);
    }
    HandIsNext(s);
    ItemsAppend(s.ran, Call(s.js.data));
  }

  lemma FinalizeKeepsInv(s: State)
    requires Inv(s) && s.js == Popped(Finalize)
    ensures Inv(JsNext(s))
  {
    if s.freed {
      FreedIsOver(s);
    }
    assert s.sent[|s.ran|] == Finalize;
    assert Finalize !in s.ran;
  }

  lemma DropKeepsInv(s: State)
    requires Inv(s) && s.js == Finalized
    ensures Inv(JsNext(s))
  {
    HandIsNext(s);
    ItemsAppend(s.ran, Finalize);
  }

  lemma JsStepKeepsInv(s: State)
    requires Inv(s) && s.js != Waiting
    ensures Inv(JsNext(s))
  {
    match s.js
    case Popped(item) =>
      if item.Call? {
        CallBeginKeepsInv(s);
      } else {
        FinalizeKeepsInv(s);
      }
    case Lowered(_) => CallCheckKeepsInv(s);
    case Invoking(_) => CallInvokeKeepsInv(s);
    case Finalized => DropKeepsInv(s);
  }

  lemma CloseKeepsInv(s: State)
    requires Inv(s) && s.open
    ensures Inv(Next(s, Close).value)
  {
    var s' := Next(s, Close).value;
    assert s'.sent == s'.ran + InHand(s'.js) + s'.channel + s'.dropped;
  }

  /** Every step keeps the invariant, as long as fewer than 2^64 counts are held. */
  lemma NextKeepsInv(s: State, step: Step)
    requires Inv(s) && Next(s, step).Some? && Held(Next(s, step).value.threads) < USIZE
    ensures Inv(Next(s, step).value)
  {
    match step
    case StartAcquire(t) => StartKeepsInv(s, step);
    case AcquireAdd(t) =>
      HeldUpdate(s.threads, t, Next(s, step).value.threads[t]);
      AcquireKeepsInv(s, t);
    case StartCall(t, _) => StartKeepsInv(s, step);
    case CallBump(_) => CallKeepsInv(s, step);
    case CallSend(_) => CallKeepsInv(s, step);
    case CallNotify(_) => CallKeepsInv(s, step);
    case StartRelease(t, _) => StartKeepsInv(s, step);
    case ReleaseSub(t) => ReleaseSubKeepsInv(s, t);
    case ReleaseStoreZero(t) =>
    case ReleaseSend(t) => ReleaseSendKeepsInv(s, t);
    case Give(t, to) => GiveKeepsInv(s, t, to);
    case JsPop => JsPopKeepsInv(s);
    case JsStep => JsStepKeepsInv(s);
    case Close => CloseKeepsInv(s);
  }

  // ---------------------------------------------------------------- the pump

  /** Where the pump of the JavaScript thread is. */
  datatype Host =
    | Draining   // taking items off the channel until it is empty
    | AtSelect   // channel seen empty, about to await a notification
    | Parked
    | Woken      // notified, not yet running

  datatype System = System(core: State, host: Host, permit: bool)

  datatype Move =
    | Of(step: Step)
    | HostStep
    | OtherNotify   // something else notifies the pump: a settled operation, another function's call
    | OtherWake     // the pump runs for another reason: a request was registered or is queued

  /** `wakeup.notify_one()`: wakes the parked pump, or leaves a permit. */
  function Notify(s: System): System { if s.host == Parked then s.(host := Woken) else s.(permit := true) }

  /** The system after `move`, or None where the move cannot be made. */
  function Advance(s: System, move: Move): Option<System> {
    match move
    case Of(step) =>
      if step.JsPop? && s.host != Draining then None else
        (match Next(s.core, step)
         case None => None
         case Some(core) => Some(if step.CallNotify? then Notify(s.(core := core)) else s.(core := core)))
    case HostStep => HostNext(s)
    case OtherNotify => Some(Notify(s))
    case OtherWake =>
      if s.host == Draining then None else Some(s.(host := Draining, permit := s.permit || s.host == Woken))
  }

  /** Drain until empty; then run again if notified since, else park. */
  function HostNext(s: System): Option<System> {
    match s.host
    case Draining => if s.core.js == Waiting && s.core.channel == [] then Some(s.(host := AtSelect)) else None
    case AtSelect => Some(if s.permit then s.(permit := false, host := Draining) else s.(host := Parked))
    case Parked => None
    case Woken => Some(s.(host := Draining))
  }

  /** Some thread has sent a call item and has yet to notify the pump. */
  ghost predicate Notifying(s: State) { exists t: nat :: IsAt(s, t, Sent) }

  /** The pump never leaves a call item behind without a notification on its way. */
  ghost predicate HostInv(s: System) {
    && (s.core.js != Waiting ==> s.host == Draining)
    && (s.host == Parked ==> !s.permit)
    && (s.host != Draining && Calls(s.core.channel) > 0 ==> s.permit || s.host == Woken || Notifying(s.core))
  }

  ghost predicate SystemInv(s: System) { Inv(s.core) && HostInv(s) }

  lemma NotifyingStays(s: State, t: nat, th: Thread, s': State)
    requires Notifying(s) && t < |s.threads| && s.threads[t].pc != Sent && s'.threads == s.threads[t := th]
    ensures Notifying(s')
  {
    var u: nat :| IsAt(s, u, Sent);
    assert IsAt(s', u, Sent);
  }

  /** A step of an entry point before its send leaves the channel and every pending notification alone. */
  lemma EntryEffect(s: State, step: Step, s': State)
    requires Next(s, step) == Some(s')
    requires step.StartAcquire? || step.AcquireAdd? || step.StartCall? || step.CallBump?
          || step.StartRelease? || step.ReleaseSub? || step.ReleaseStoreZero?
    ensures s'.channel == s.channel && s'.sent == s.sent && s'.js == s.js && s'.open == s.open
    ensures Notifying(s) ==> Notifying(s')
  {
    if s'.threads != s.threads && Notifying(s) {
      NotifyingStays(s, step.t, s'.threads[step.t], s');
    } else if u: nat :| IsAt(s, u, Sent) {
      assert IsAt(s', u, Sent);
    }
  }

  lemma SendEffect(s: State, step: Step, s': State)
    requires Next(s, step) == Some(s') && (step.CallSend? || step.ReleaseSend?)
    ensures s'.js == s.js && s'.open == s.open
    ensures step.CallSend? ==> (Finalize in s'.sent <==> Finalize in s.sent)
    ensures Notifying(s) ==> Notifying(s')
    ensures Calls(s'.channel) > Calls(s.channel) ==> Notifying(s')
  {
    if Notifying(s) {
      NotifyingStays(s, step.t, s'.threads[step.t], s');
    }
    if step.CallSend? && s.open {
      assert IsAt(s', step.t, Sent);
    } else if step.ReleaseSend? {
      ItemsAppend(s.channel, Finalize);
    }
  }

  lemma GiveEffect(s: State, step: Step, s': State)
    requires Next(s, step) == Some(s') && step.Give?
    ensures s'.channel == s.channel && s'.sent == s.sent && s'.js == s.js && s'.open == s.open
    ensures Notifying(s) ==> Notifying(s')
  {
    GiveCounts(s, step.t, step.to, s');
    if u: nat :| IsAt(s, u, Sent) {
      assert IsAt(s', u, Sent);
    }
  }

  lemma PopEffect(s: State, s': State)
    requires Next(s, JsPop) == Some(s')
    ensures s'.threads == s.threads && s'.sent == s.sent && s'.open == s.open
    ensures s.channel != [] && s'.channel == s.channel[1..]
  {}

  lemma JsStepEffect(s: State, s': State)
    requires Next(s, JsStep) == Some(s')
    ensures s.js != Waiting
    ensures s'.threads == s.threads && s'.sent == s.sent && s'.open == s.open && s'.channel == s.channel
  {
    JsNextFrame(s);
  }

  lemma JsNextFrame(s: State)
    requires s.js != Waiting
    ensures var s' := JsNext(s);
      s'.threads == s.threads && s'.sent == s.sent && s'.open == s.open && s'.channel == s.channel
  {
    match s.js
    case Popped(Call(_)) =>
    case Popped(Finalize) =>
    case Lowered(_) =>
    case Invoking(_) =>
    case Finalized =>
  }

  lemma CloseEffect(s: State, s': State)
    requires Next(s, Close) == Some(s')
    ensures s'.threads == s.threads && s'.sent == s.sent && s'.js == s.js && s'.channel == [] && !s'.open
  {}

  /** The moves of the JavaScript side leave every pending notification pending. */
  lemma SameThreads(s: State, s': State)
    requires s'.threads == s.threads
    ensures Notifying(s) ==> Notifying(s')
  {
    if u: nat :| IsAt(s, u, Sent) {
      assert IsAt(s', u, Sent);
    }
  }

  lemma StepKeepsHost(s: System, step: Step, s': System)
    requires HostInv(s) && Advance(s, Of(step)) == Some(s')
    ensures HostInv(s')
  {
    var core := Next(s.core, step).value;
    if step.JsPop? {
      PopEffect(s.core, core);
    } else if step.JsStep? {
      JsStepEffect(s.core, core);
      SameThreads(s.core, core);
    } else if step.Close? {
      CloseEffect(s.core, core);
    } else if step.CallSend? || step.ReleaseSend? {
      SendEffect(s.core, step, core);
    } else if step.Give? {
      GiveEffect(s.core, step, core);
    } else if !step.CallNotify? {
      EntryEffect(s.core, step, core);
    }
  }

  /** Every move keeps the invariant of the whole system, as long as fewer than 2^64 counts are held. */
  lemma AdvanceKeepsInv(s: System, move: Move, s': System)
    requires SystemInv(s) && Advance(s, move) == Some(s') && Held(s'.core.threads) < USIZE
    ensures SystemInv(s')
  {
    if move.Of? {
      NextKeepsInv(s.core, move.step);
      StepKeepsHost(s, move.step, s');
    }
  }

  // ---------------------------------------------------------------- whole runs

  /** Created by JavaScript, so while the pump drains or before it reaches its select. */
  ghost predicate Begins(s: System) {
    s.host in {Draining, AtSelect} && exists threads: nat, initial: nat :: InitiallyHolds(s.core, threads, initial)
  }

  predicate InitiallyHolds(s: State, threads: nat, initial: nat) {
    threads > 0 && 0 < initial < USIZE && s == Init(threads, initial)
  }

  /** States and moves of one interleaving, from creation on, with fewer than 2^64 counts held throughout. */
  ghost predicate IsRun(systems: seq<System>, moves: seq<Move>) {
    && |systems| > 0 && Begins(systems[0])
    && Follows(systems, moves)
    && (forall i :: 0 <= i < |systems| ==> Held(systems[i].core.threads) < USIZE)
  }

  ghost predicate Follows(systems: seq<System>, moves: seq<Move>) {
    && |systems| == |moves| + 1
    && forall i {:trigger moves[i]} :: 0 <= i < |moves| ==> Advance(systems[i], moves[i]) == Some(systems[i + 1])
  }

  lemma {:induction false} HeldOfNone(ts: seq<Thread>)
    requires forall i :: 0 <= i < |ts| ==> ts[i].holds == 0
    ensures Held(ts) == 0
  {
    if ts != [] {
      HeldOfNone(ts[1..]);
    }
  }

  lemma InitInv(threads: nat, initial: nat)
    requires threads > 0 && 0 < initial < USIZE
    ensures Inv(Init(threads, initial))
  {
    var s := Init(threads, initial);
    HeldOfNone(s.threads[1..]);
    NoneBumped(s.threads);
  }

  lemma {:induction false} RunInv(systems: seq<System>, moves: seq<Move>, i: nat)
    requires IsRun(systems, moves) && i < |systems|
    ensures SystemInv(systems[i])
  {
    if i == 0 {
      var threads: nat, initial: nat :| InitiallyHolds(systems[0].core, threads, initial);
      InitInv(threads, initial);
    } else {
      RunInv(systems, moves, i - 1);
      assert Advance(systems[i - 1], moves[i - 1]) == Some(systems[i]);
      AdvanceKeepsInv(systems[i - 1], moves[i - 1], systems[i]);
    }
  }

  predicate EndsInFinalize(items: seq<Item>) { items != [] && items[|items| - 1] == Finalize }

  /** In every interleaving: no step touches the object after it is dropped; the finalizer runs at most
      once, and when the object is dropped it has run after every queued call item; items run in the order
      they were sent, each at most once; `queued` is the outstanding work. */
  lemma SafeInEveryRun(systems: seq<System>, moves: seq<Move>, i: nat)
    requires IsRun(systems, moves) && i < |systems|
    ensures var s := systems[i].core;
      && !s.touchedFreed
      && s.finalizeRuns <= 1
      && s.ran <= s.sent
      && (s.freed ==> s.finalizeRuns == 1 && s.ran == s.sent && EndsInFinalize(s.ran) && Quiet(s.threads))
      && s.queued == Outstanding(s)
      && (!s.aborted ==> s.invoked == Datas(s.ran))
  {
    RunInv(systems, moves, i);
    var s := systems[i].core;
    if s.freed {
      FreedIsOver(s);
      var k :| 0 <= k < |s.ran| && s.ran[k] == Finalize;
      assert s.sent[k] == Finalize;
    }
  }

  // ---------------------------------------------------------------- rest

  /** Moves that only carry on what has been started here. */
  predicate Internal(move: Move) {
    match move
    case Of(step) => !(step.StartAcquire? || step.StartCall? || step.StartRelease? || step.Give? || step.Close?)
    case HostStep => true
    case _ => false
  }

  /** No thread is inside an entry point, no item is in hand, and the pump is parked. */
  ghost predicate AtRest(s: System) {
    Quiet(s.core.threads) && s.core.js == Waiting && s.host == Parked
  }

  /** Exactly at rest there is nothing left to carry on: the pump itself is what everything waits for. */
  lemma RestIffNoMove(s: System)
    requires HostInv(s)
    ensures AtRest(s) <==> forall move :: Internal(move) ==> Advance(s, move) == None
  {
    if AtRest(s) {
      forall move | Internal(move) ensures Advance(s, move) == None {
        RestHasNoMove(s, move);
      }
    } else {
      var move := SomeMove(s);
      assert Internal(move) && Advance(s, move) != None;
    }
  }

  lemma RestHasNoMove(s: System, move: Move)
    requires AtRest(s) && Internal(move)
    ensures Advance(s, move) == None
  {}

  lemma SomeMove(s: System) returns (move: Move)
    requires HostInv(s) && !AtRest(s)
    ensures Internal(move) && Advance(s, move).Some?
  {
    if t: nat :| t < |s.core.threads| && s.core.threads[t].pc != Idle {
      move := Of(match s.core.threads[t].pc
        case Acquiring => AcquireAdd(t)
        case Calling(_) => CallBump(t)
        case Bumped(_) => CallSend(t)
        case Sent => CallNotify(t)
        case Releasing => ReleaseSub(t)
        case Underflown => ReleaseStoreZero(t)
        case LastOut => ReleaseSend(t)
        case Idle => JsPop);
    } else if s.core.js != Waiting {
      move := Of(JsStep);
    } else {
      move := if s.host == Draining && s.core.channel != [] then Of(JsPop) else HostStep;
    }
  }

  lemma {:induction false} NoCalls(items: seq<Item>, i: nat)
    requires Calls(items) == 0 && i < |items|
    ensures items[i] == Finalize
  {
    if i > 0 {
      NoCalls(items[1..], i - 1);
    }
  }

  /** At rest every call item has run; the finalizer alone may be left in the channel. */
  lemma RestLeavesNoCall(s: System)
    requires SystemInv(s) && AtRest(s)
    ensures s.core.channel == [] || s.core.channel == [Finalize]
    ensures s.core.sent == s.core.ran + s.core.channel + s.core.dropped
  {
    assert !Notifying(s.core);
    assert Calls(s.core.channel) == 0;
    if s.core.channel != [] {
      NoCalls(s.core.channel, 0);
      assert s.core.sent[|s.core.ran|] == Finalize;
    }
  }

  /** At rest the finalizer has run, once, exactly if it was sent and no closed channel or parked pump keeps it. */
  lemma FinalizedExactlyOnce(systems: seq<System>, moves: seq<Move>, i: nat)
    requires IsRun(systems, moves) && i < |systems| && AtRest(systems[i])
    ensures var s := systems[i].core;
      && (s.finalizeRuns == 1 <==> s.freed)
      && (s.finalizeRuns == 1 <==> s.count == 0 && !s.finalizerLost && Finalize !in s.dropped && s.channel == [])
      && (s.open ==> s.ran + s.channel == s.sent && (s.channel == [] || s.channel == [Finalize]))
  {
    RunInv(systems, moves, i);
    RestLeavesNoCall(systems[i]);
    RanOrLeft(systems[i].core);
  }

  lemma RanOrLeft(s: State)
    requires Inv(s) && Quiet(s.threads) && s.js == Waiting && (s.channel == [] || s.channel == [Finalize])
    ensures s.finalizeRuns == 1 <==> s.freed
    ensures s.finalizeRuns == 1 <==> s.count == 0 && !s.finalizerLost && Finalize !in s.dropped && s.channel == []
  {
    assert !LastOutPending(s);
    assert s.sent == s.ran + s.channel + s.dropped;
    if Finalize in s.ran {
      FreedIsOver(s);
    }
  }

  // ---------------------------------------------------------------- the finalizer that nothing wakes the pump for

  /** The pump is awake, or will be without any further notification. */
  predicate Roused(s: System) { s.host == Draining || s.host == Woken || s.permit }

  predicate Rouses(move: Move) { move.OtherNotify? || move.OtherWake? }

  /** Once the finalizer is sent every thread is outside for good. */
  lemma SentIsQuiet(s: State)
    requires Inv(s) && Finalize in s.sent
    ensures Quiet(s.threads) && forall t :: 0 <= t < |s.threads| ==> s.threads[t].holds == 0
  {
    assert !LastOutPending(s);
    forall t | 0 <= t < |s.threads| ensures s.threads[t].pc == Idle && s.threads[t].holds == 0 {
      HeldAtLeast(s.threads, t);
    }
  }

  /** Then only the JavaScript thread and the closing of the channel are left to move. */
  lemma SentLeavesJs(s: State, step: Step, s': State)
    requires Inv(s) && Finalize in s.sent && Next(s, step) == Some(s')
    ensures step.JsPop? || step.JsStep? || step.Close?
  {
    SentIsQuiet(s);
  }

  lemma SentMove(s: System, move: Move, s': System)
    requires SystemInv(s) && Finalize in s.core.sent && Advance(s, move) == Some(s') && s'.core.open
    ensures s.core.open && s'.core.sent == s.core.sent
    ensures move == Of(JsPop) || s'.core.channel == s.core.channel
    ensures move == Of(JsPop) ==> s.host == Draining && s.core.channel != [] && s'.core.channel == s.core.channel[1..]
    ensures move.Of? ==> s'.host == s.host && s'.permit == s.permit
  {
    if move.Of? {
      SentLeavesJs(s.core, move.step, s'.core);
      match move.step
      case JsPop => PopEffect(s.core, s'.core);
      case JsStep => JsStepEffect(s.core, s'.core);
      case Close => CloseEffect(s.core, s'.core);
    }
  }

  /** What becomes of a sent finalizer: it is still queued, or it has been taken. */
  predicate Queued(s: System) { Finalize in s.core.channel }

  /** A roused pump stays roused until it takes the finalizer, and only an outside event rouses it. */
  lemma RousedMove(s: System, move: Move, s': System)
    requires SystemInv(s) && Finalize in s.core.sent && Advance(s, move) == Some(s') && s'.core.open
    ensures Queued(s') ==> Queued(s)
    ensures Queued(s) && (Roused(s) || Rouses(move)) ==> !Queued(s') || Roused(s')
    ensures Queued(s) && !Roused(s) && !Rouses(move) ==> Queued(s') && !Roused(s')
  {
    SentMove(s, move, s');
  }

  /** Something outside rouses the pump at a moment from k on and before i. */
  ghost predicate RousedBetween(moves: seq<Move>, k: nat, i: nat) {
    exists j :: k <= j < i <= |moves| && Rouses(moves[j])
  }

  lemma {:induction false} RousedSince(systems: seq<System>, moves: seq<Move>, k: nat, i: nat)
    requires IsRun(systems, moves) && k <= i < |systems| && systems[i].core.open
    requires Finalize in systems[k].core.sent && Queued(systems[k])
    ensures systems[k].core.open && Finalize in systems[i].core.sent
    ensures Roused(systems[k]) || RousedBetween(moves, k, i) ==> !Queued(systems[i]) || Roused(systems[i])
    ensures !Roused(systems[k]) && !RousedBetween(moves, k, i) ==> Queued(systems[i]) && !Roused(systems[i])
    decreases i - k
  {
    if k < i {
      assert Advance(systems[i - 1], moves[i - 1]) == Some(systems[i]);
      RunInv(systems, moves, i - 1);
      OpenBefore(systems[i - 1], moves[i - 1], systems[i]);
      RousedSince(systems, moves, k, i - 1);
      SentMove(systems[i - 1], moves[i - 1], systems[i]);
      RousedMove(systems[i - 1], moves[i - 1], systems[i]);
      RousedBetweenStep(moves, k, i);
    }
  }

  lemma RousedBetweenStep(moves: seq<Move>, k: nat, i: nat)
    requires k < i <= |moves|
    ensures RousedBetween(moves, k, i) <==> RousedBetween(moves, k, i - 1) || Rouses(moves[i - 1])
  {}

  lemma OpenStep(s: State, step: Step, s': State)
    requires Next(s, step) == Some(s') && s'.open
    ensures s.open
  {
    match step
    case JsPop => PopEffect(s, s');
    case JsStep => JsStepEffect(s, s');
    case Close => CloseEffect(s, s');
    case Give(_, _) => GiveEffect(s, step, s');
    case CallSend(_) => SendEffect(s, step, s');
    case ReleaseSend(_) => SendEffect(s, step, s');
    case CallNotify(_) =>
    case _ => EntryEffect(s, step, s');
  }

  lemma OpenBefore(s: System, move: Move, s': System)
    requires Advance(s, move) == Some(s') && s'.core.open
    ensures s.core.open
  {
    if move.Of? {
      OpenStep(s.core, move.step, s'.core);
    }
  }

  lemma OnlyReleaseSends(s: State, step: Step, s': State)
    requires Next(s, step) == Some(s') && Finalize in s'.sent && Finalize !in s.sent
    ensures step.ReleaseSend?
  {
    match step
    case JsPop => PopEffect(s, s');
    case JsStep => JsStepEffect(s, s');
    case Close => CloseEffect(s, s');
    case Give(_, _) => GiveEffect(s, step, s');
    case CallSend(_) => SendEffect(s, step, s');
    case ReleaseSend(_) =>
    case CallNotify(_) =>
    case _ => EntryEffect(s, step, s');
  }

  predicate IsReleaseSend(move: Move) { move.Of? && move.step.ReleaseSend? }

  /** The finalizer is not sent at first, and only a release sends it. */
  ghost predicate SentByRelease(systems: seq<System>, moves: seq<Move>)
    requires |systems| == |moves| + 1
  {
    && Finalize !in systems[0].core.sent
    && forall n :: 0 <= n < |moves| && Finalize !in systems[n].core.sent && !IsReleaseSend(moves[n])
         ==> Finalize !in systems[n + 1].core.sent
  }

  lemma RunSendsByRelease(systems: seq<System>, moves: seq<Move>)
    requires IsRun(systems, moves)
    ensures SentByRelease(systems, moves)
  {
    var threads: nat, initial: nat :| InitiallyHolds(systems[0].core, threads, initial);
    forall n | 0 <= n < |moves| && Finalize !in systems[n].core.sent && !IsReleaseSend(moves[n])
      ensures Finalize !in systems[n + 1].core.sent
    {
      if Finalize in systems[n + 1].core.sent {
        SentNow(systems[n], moves[n], systems[n + 1]);
      }
    }
  }

  lemma {:induction false} SendMoment(systems: seq<System>, moves: seq<Move>, i: nat) returns (k: nat)
    requires |systems| == |moves| + 1 && SentByRelease(systems, moves)
    requires i < |systems| && Finalize in systems[i].core.sent
    ensures k < i && IsReleaseSend(moves[k])
  {
    if Finalize in systems[i - 1].core.sent {
      k := SendMoment(systems, moves, i - 1);
    } else {
      k := i - 1;
    }
  }

  /** If all counts are released at rest with the channel open, some release sent the finalizer. */
  lemma ReleasedMeansSent(systems: seq<System>, moves: seq<Move>, i: nat) returns (k: nat)
    requires IsRun(systems, moves) && i < |systems| && AtRest(systems[i]) && systems[i].core.open
    requires systems[i].core.count == 0
    ensures k < i && IsReleaseSend(moves[k])
  {
    RunInv(systems, moves, i);
    RunSendsByRelease(systems, moves);
    assert !LastOutPending(systems[i].core);
    k := SendMoment(systems, moves, i);
  }

  lemma SentNow(s: System, move: Move, s': System)
    requires Advance(s, move) == Some(s') && Finalize in s'.core.sent && Finalize !in s.core.sent
    ensures IsReleaseSend(move)
  {
    if move.Of? {
      OnlyReleaseSends(s.core, move.step, s'.core);
    }
  }

  /** A closed channel stays closed. */
  ghost predicate ClosesForGood(systems: seq<System>) {
    forall n :: 0 <= n < |systems| - 1 && !systems[n].core.open ==> !systems[n + 1].core.open
  }

  lemma RunClosesForGood(systems: seq<System>, moves: seq<Move>)
    requires Follows(systems, moves)
    ensures ClosesForGood(systems)
  {
    forall n | 0 <= n < |systems| - 1 && !systems[n].core.open ensures !systems[n + 1].core.open {
      if systems[n + 1].core.open {
        OpenBefore(systems[n], moves[n], systems[n + 1]);
      }
    }
  }

  lemma {:induction false} OpenSince(systems: seq<System>, k: nat, i: nat)
    requires ClosesForGood(systems) && k <= i < |systems| && systems[i].core.open
    ensures systems[k].core.open
    decreases i - k
  {
    if k < i {
      assert systems[i - 1].core.open;
      OpenSince(systems, k, i - 1);
    }
  }

  /**
    At rest with the channel open, a finalizer sent at moment k has run if and only if the pump
    was awake or notified when it was sent, or something outside has roused it since. The
    release that sends it does not.
   */
  lemma FinalizedIffRoused(systems: seq<System>, moves: seq<Move>, k: nat, i: nat)
    requires IsRun(systems, moves) && k < i < |systems| && AtRest(systems[i]) && systems[i].core.open
    requires IsReleaseSend(moves[k])
    ensures systems[i].core.finalizeRuns == 1 <==> Roused(systems[k]) || RousedBetween(moves, k + 1, i)
  {
    assert Advance(systems[k], moves[k]) == Some(systems[k + 1]);
    RunInv(systems, moves, k);
    RunInv(systems, moves, i);
    RunClosesForGood(systems, moves);
    OpenSince(systems, k, i);
    FinalizerSent(systems[k].core, moves[k].step.t, systems[k + 1].core);
    var sent := systems[k + 1].core.sent;
    assert sent[|sent| - 1] == Finalize;
    assert systems[k + 1].core.channel[|systems[k].core.channel|] == Finalize;
    RousedSince(systems, moves, k + 1, i);
    RestLeavesNoCall(systems[i]);
    SentHasRun(systems[i]);
  }

  lemma SentHasRun(s: System)
    requires SystemInv(s) && AtRest(s) && s.core.open && Finalize in s.core.sent
    requires s.core.channel == [] || s.core.channel == [Finalize]
    ensures s.core.finalizeRuns == 1 <==> !Queued(s)
    ensures !Roused(s)
  {
    assert s.core.sent == s.core.ran + s.core.channel + s.core.dropped;
    RanOrLeft(s.core);
    assert !LastOutPending(s.core);
  }

  /** All counts released and the channel open, yet the finalizer waits: the last release while the pump is parked. */
  lemma StrandedFinalizer() returns (systems: seq<System>, moves: seq<Move>)
    ensures IsRun(systems, moves)
    ensures var s := systems[|systems| - 1];
      AtRest(s) && s.core.open && s.core.count == 0 && s.core.channel == [Finalize] && s.core.finalizeRuns == 0
  {
    var c0 := Init(1, 1);
    var c1 := c0.(threads := [Thread(Releasing, 1)]);
    var c2 := c0.(threads := [Thread(LastOut, 0)], count := 0);
    var c3 := c0.(threads := [Thread(Idle, 0)], count := 0, channel := [Finalize], sent := [Finalize]);
    assert c0.threads == [Thread(Idle, 1)];
    StrandedSteps(c0, c1, c2, c3);
    systems := [System(c0, AtSelect, false), System(c0, Parked, false), System(c1, Parked, false),
                System(c2, Parked, false), System(c3, Parked, false)];
    moves := [HostStep, Of(StartRelease(0, false)), Of(ReleaseSub(0)), Of(ReleaseSend(0))];
    assert InitiallyHolds(c0, 1, 1);
    assert Held(c0.threads) == 1 && Held(c1.threads) == 1 && Held(c2.threads) == 0 && Held(c3.threads) == 0;
  }

  lemma StrandedSteps(c0: State, c1: State, c2: State, c3: State)
    requires c0 == Init(1, 1) && c0.threads == [Thread(Idle, 1)]
    requires c1 == c0.(threads := [Thread(Releasing, 1)])
    requires c2 == c0.(threads := [Thread(LastOut, 0)], count := 0)
    requires c3 == c0.(threads := [Thread(Idle, 0)], count := 0, channel := [Finalize], sent := [Finalize])
    ensures Next(c0, StartRelease(0, false)) == Some(c1)
    ensures Next(c1, ReleaseSub(0)) == Some(c2)
    ensures Next(c2, ReleaseSend(0)) == Some(c3)
  {
    assert c0.threads[0 := Thread(Releasing, 1)] == c1.threads;
    assert c1.threads[0 := Thread(LastOut, 0)] == c2.threads;
    assert c2.threads[0 := Thread(Idle, 0)] == c3.threads;
    assert [] + [Finalize] == [Finalize];
  }

  lemma PopRunsFinalizer(c: State, c1: State, c2: State, c3: State)
    requires Inv(c) && c.js == Waiting && c.channel == [Finalize]
    requires Next(c, JsPop) == Some(c1) && c2 == JsNext(c1) && c3 == JsNext(c2)
    ensures Next(c1, JsStep) == Some(c2) && Next(c2, JsStep) == Some(c3)
    ensures c3.finalizeRuns == 1 && c3.freed
  {
    assert c.sent[|c.ran|] == Finalize;
    assert forall i :: 0 <= i < |c.ran| ==> c.ran[i] == c.sent[i];
    assert Finalize !in c.ran;
  }

  /** One notification from anywhere is enough: the pump wakes, takes the finalizer, runs it and drops the object. */
  lemma OneWakeFinalizes(s: System) returns (systems: seq<System>, moves: seq<Move>)
    requires SystemInv(s) && AtRest(s) && s.core.channel == [Finalize]
    ensures Follows(systems, moves) && systems[0] == s
    ensures moves == [OtherNotify, HostStep, Of(JsPop), Of(JsStep), Of(JsStep)]
    ensures systems[5].core.finalizeRuns == 1 && systems[5].core.freed
  {
    var c1 := Next(s.core, JsPop).value;
    var c2 := JsNext(c1);
    var c3 := JsNext(c2);
    PopRunsFinalizer(s.core, c1, c2, c3);
    systems := [s, System(s.core, Woken, false), System(s.core, Draining, false), System(c1, Draining, false),
                System(c2, Draining, false), System(c3, Draining, false)];
    moves := [OtherNotify, HostStep, Of(JsPop), Of(JsStep), Of(JsStep)];
    FiveMoves(systems, moves);
  }

  lemma FiveMoves(systems: seq<System>, moves: seq<Move>)
    requires |systems| == 6 && |moves| == 5
    requires Advance(systems[0], moves[0]) == Some(systems[1]) && Advance(systems[1], moves[1]) == Some(systems[2])
    requires Advance(systems[2], moves[2]) == Some(systems[3]) && Advance(systems[3], moves[3]) == Some(systems[4])
    requires Advance(systems[4], moves[4]) == Some(systems[5])
    ensures Follows(systems, moves)
  {
    forall i | 0 <= i < 5 ensures Advance(systems[i], moves[i]) == Some(systems[i + 1]) {
      if i == 0 {} else if i == 1 {} else if i == 2 {} else if i == 3 {} else {}
    }
  }

  // ---------------------------------------------------------------- what is started ends

  function PcWork(pc: Pc): nat {
    match pc
    case Idle => 0
    case Acquiring => 1
    case Calling(_) => 12
    case Bumped(_) => 11
    case Sent => 4
    case Releasing => 9
    case Underflown => 1
    case LastOut => 7
  }

  function ThreadWork(ts: seq<Thread>): nat {
    if ts == [] then 0 else PcWork(ts[0].pc) + ThreadWork(ts[1..])
  }

  function JsWork(js: Js): nat {
    match js
    case Waiting => 0
    case Popped(_) => 4
    case Lowered(_) => 3
    case Invoking(_) => 2
    case Finalized => 3
  }

  function Work(s: State): nat { ThreadWork(s.threads) + 5 * |s.channel| + JsWork(s.js) }

  function HostWork(s: System): nat {
    (match s.host case Parked => 0 case AtSelect => 1 case Draining => 2 case Woken => 3) + (if s.permit then 3 else 0)
  }

  function SystemWork(s: System): nat { Work(s.core) + HostWork(s) }

  lemma {:induction false} WorkUpdate(ts: seq<Thread>, i: nat, th: Thread)
    requires i < |ts|
    ensures ThreadWork(ts[i := th]) == ThreadWork(ts) - PcWork(ts[i].pc) + PcWork(th.pc)
  {
    if i == 0 {
      assert ts[i := th][1..] == ts[1..];
    } else {
      assert ts[i := th][1..] == ts[1..][i - 1 := th];
      WorkUpdate(ts[1..], i - 1, th);
    }
  }

  lemma CallStepWorks(s: State, step: Step)
    requires (step.CallBump? || step.CallSend? || step.CallNotify? || step.AcquireAdd?) && Next(s, step).Some?
    ensures Work(Next(s, step).value) + (if step.CallNotify? then 4 else 1) <= Work(s)
  {
    WorkUpdate(s.threads, step.t, Next(s, step).value.threads[step.t]);
  }

  lemma ReleaseStepWorks(s: State, step: Step)
    requires (step.ReleaseSub? || step.ReleaseStoreZero? || step.ReleaseSend?) && Next(s, step).Some?
    ensures Work(Next(s, step).value) < Work(s)
  {
    WorkUpdate(s.threads, step.t, Next(s, step).value.threads[step.t]);
  }

  lemma JsStepWorks(s: State)
    requires s.js != Waiting
    ensures Work(JsNext(s)) < Work(s)
  {
    assert JsNext(s).threads == s.threads && JsNext(s).channel == s.channel;
  }

  lemma InternalStepWorks(s: State, step: Step)
    requires Internal(Of(step)) && Next(s, step).Some?
    ensures Work(Next(s, step).value) + (if step.CallNotify? then 4 else 1) <= Work(s)
  {
    match step
    case AcquireAdd(_) => CallStepWorks(s, step);
    case CallBump(_) => CallStepWorks(s, step);
    case CallSend(_) => CallStepWorks(s, step);
    case CallNotify(_) => CallStepWorks(s, step);
    case ReleaseSub(_) => ReleaseStepWorks(s, step);
    case ReleaseStoreZero(_) => ReleaseStepWorks(s, step);
    case ReleaseSend(_) => ReleaseStepWorks(s, step);
    case JsPop =>
    case JsStep => JsStepWorks(s);
  }

  lemma InternalMoveWorks(s: System, move: Move, s': System)
    requires Internal(move) && Advance(s, move) == Some(s')
    ensures SystemWork(s') < SystemWork(s)
  {
    if move.Of? {
      InternalStepWorks(s.core, move.step);
    }
  }

  /** What has been started always ends: a stretch of internal moves is no longer than the work at its start. */
  lemma {:induction false} InternalRunsEnd(systems: seq<System>, moves: seq<Move>)
    requires Follows(systems, moves) && forall i :: 0 <= i < |moves| ==> Internal(moves[i])
    ensures |moves| + SystemWork(systems[|moves|]) <= SystemWork(systems[0])
  {
    if moves != [] {
      var n := |moves| - 1;
      assert Advance(systems[n], moves[n]) == Some(systems[n + 1]);
      InternalMoveWorks(systems[n], moves[n], systems[n + 1]);
      InternalRunsEnd(systems[..n + 1], moves[..n]);
    }
  }

  // ---------------------------------------------------------------- abort

  /** Callbacks run so far, counting the one already past its `aborted` check. */
  function Committed(s: State): nat { |s.invoked| + (if s.js.Invoking? then 1 else 0) }

  /** Counts held so far, counting the acquires already past their `aborted` check. */
  function Claimed(ts: seq<Thread>): nat {
    if ts == [] then 0 else ts[0].holds + (if ts[0].pc == Acquiring then 1 else 0) + Claimed(ts[1..])
  }

  lemma {:induction false} ClaimedUpdate(ts: seq<Thread>, i: nat, th: Thread)
    requires i < |ts|
    ensures Claimed(ts[i := th]) == Claimed(ts) - ts[i].holds - (if ts[i].pc == Acquiring then 1 else 0)
                                  + th.holds + (if th.pc == Acquiring then 1 else 0)
  {
    if i == 0 {
      assert ts[i := th][1..] == ts[1..];
    } else {
      assert ts[i := th][1..] == ts[1..][i - 1 := th];
      ClaimedUpdate(ts[1..], i - 1, th);
    }
  }

  lemma AbortedGive(s: State, t: nat, to: nat)
    requires Next(s, Give(t, to)).Some?
    ensures Claimed(Next(s, Give(t, to)).value.threads) == Claimed(s.threads)
  {
    var mid := s.threads[t := Thread(Idle, s.threads[t].holds - 1)];
    ClaimedUpdate(s.threads, t, mid[t]);
    ClaimedUpdate(mid, to, mid[to].(holds := mid[to].holds + 1));
  }

  lemma AbortedStart(s: State, step: Step)
    requires s.aborted && Next(s, step).Some? && (step.StartAcquire? || step.StartCall? || step.StartRelease?)
    ensures var s' := Next(s, step).value;
      s'.aborted && Committed(s') == Committed(s) && Claimed(s'.threads) <= Claimed(s.threads)
  {
    if step.StartRelease? {
      ClaimedUpdate(s.threads, step.t, s.threads[step.t].(pc := Releasing));
    }
  }

  predicate InCall(step: Step) { step.AcquireAdd? || step.CallBump? || step.CallSend? || step.CallNotify? }

  predicate InRelease(step: Step) { step.ReleaseSub? || step.ReleaseStoreZero? || step.ReleaseSend? }

  lemma AbortedInCall(s: State, step: Step)
    requires s.aborted && Next(s, step).Some? && InCall(step)
    ensures var s' := Next(s, step).value;
      s'.aborted && Committed(s') == Committed(s) && Claimed(s'.threads) <= Claimed(s.threads)
  {
    ClaimedUpdate(s.threads, step.t, Next(s, step).value.threads[step.t]);
  }

  lemma AbortedInRelease(s: State, step: Step)
    requires s.aborted && Next(s, step).Some? && InRelease(step)
    ensures var s' := Next(s, step).value;
      s'.aborted && Committed(s') == Committed(s) && Claimed(s'.threads) <= Claimed(s.threads)
  {
    ClaimedUpdate(s.threads, step.t, Next(s, step).value.threads[step.t]);
  }

  lemma AbortedStep(s: State, step: Step)
    requires s.aborted && Next(s, step).Some?
    ensures var s' := Next(s, step).value;
      s'.aborted && Committed(s') <= Committed(s) && Claimed(s'.threads) <= Claimed(s.threads)
  {
    if step.Give? {
      AbortedGive(s, step.t, step.to);
    } else if InCall(step) {
      AbortedInCall(s, step);
    } else if InRelease(step) {
      AbortedInRelease(s, step);
    } else if !step.JsPop? && !step.JsStep? && !step.Close? {
      AbortedStart(s, step);
    }
  }

  lemma AbortedMove(s: System, move: Move, s': System)
    requires s.core.aborted && Advance(s, move) == Some(s')
    ensures s'.core.aborted && Committed(s'.core) <= Committed(s.core)
    ensures Claimed(s'.core.threads) <= Claimed(s.core.threads)
  {
    if move.Of? {
      AbortedStep(s.core, move.step);
    }
  }

  lemma AbortedLast(systems: seq<System>, moves: seq<Move>, j: nat)
    requires Follows(systems, moves) && 0 < j < |systems| && systems[j - 1].core.aborted
    ensures var s, s' := systems[j - 1].core, systems[j].core;
      s'.aborted && Committed(s') <= Committed(s) && Claimed(s'.threads) <= Claimed(s.threads)
  {
    assert Advance(systems[j - 1], moves[j - 1]) == Some(systems[j]);
    AbortedMove(systems[j - 1], moves[j - 1], systems[j]);
  }

  lemma {:induction false} AbortedSince(systems: seq<System>, moves: seq<Move>, i: nat, j: nat)
    requires Follows(systems, moves) && i <= j < |systems| && systems[i].core.aborted
    ensures var s, s' := systems[i].core, systems[j].core;
      && s'.aborted
      && |s'.invoked| <= Committed(s') <= Committed(s)
      && Claimed(s'.threads) <= Claimed(s.threads)
  {
    if i < j {
      AbortedSince(systems, moves, i, j - 1);
      AbortedLast(systems, moves, j);
    }
  }

  /** A release in abort mode. */
  predicate Aborts(move: Move) { move.Of? && move.step.StartRelease? && move.step.abort }

  ghost predicate AbortBefore(moves: seq<Move>, i: nat) { exists n: nat :: n < i && n < |moves| && Aborts(moves[n]) }

  lemma JsNextKeepsAborted(s: State)
    requires s.js != Waiting
    ensures JsNext(s).aborted == s.aborted && JsNext(s).count == s.count
  {
    match s.js
    case Popped(Call(_)) =>
    case Popped(Finalize) =>
    case Lowered(_) =>
    case Invoking(_) =>
    case Finalized =>
  }

  lemma StepStoresAbort(s: State, step: Step, s': State)
    requires Next(s, step) == Some(s')
    ensures s'.aborted <==> s.aborted || (step.StartRelease? && step.abort)
  {
    if step.JsStep? {
      JsNextKeepsAborted(s);
    }
  }

  lemma AbortStored(s: System, move: Move, s': System)
    requires Advance(s, move) == Some(s')
    ensures s'.core.aborted <==> s.core.aborted || Aborts(move)
  {
    if move.Of? {
      StepStoresAbort(s.core, move.step, s'.core);
    }
  }

  /** The flag is up exactly if some release in abort mode has begun. */
  lemma {:induction false} AbortedIff(systems: seq<System>, moves: seq<Move>, i: nat)
    requires IsRun(systems, moves) && i < |systems|
    ensures systems[i].core.aborted <==> AbortBefore(moves, i)
  {
    if i > 0 {
      AbortedIff(systems, moves, i - 1);
      assert Advance(systems[i - 1], moves[i - 1]) == Some(systems[i]);
      AbortStored(systems[i - 1], moves[i - 1], systems[i]);
    }
  }

  /** An acquire or a call begins. */
  predicate Enters(move: Move) { move.Of? && (move.step.StartAcquire? || move.step.StartCall?) }

  /** What a refused entry leaves as it was. */
  predicate Untouched(s: State, s': State) {
    && s'.threads == s.threads && s'.count == s.count && s'.queued == s.queued
    && s'.channel == s.channel && s'.sent == s.sent
  }

  /** Where an admitted entry takes its thread. */
  predicate Admitted(step: Step, s': State)
    requires step.StartAcquire? || step.StartCall?
  {
    IsAt(s', step.t, if step.StartAcquire? then Acquiring else Calling(step.data))
  }

  /** In any run, an acquire or a call is refused, and leaves all as it was, exactly if a release has aborted before. */
  lemma RefusedIffAborted(systems: seq<System>, moves: seq<Move>, i: nat)
    requires IsRun(systems, moves) && i < |moves| && Enters(moves[i])
    ensures AbortBefore(moves, i) ==> Untouched(systems[i].core, systems[i + 1].core)
    ensures AbortBefore(moves, i) <==> !Admitted(moves[i].step, systems[i + 1].core)
  {
    AbortedIff(systems, moves, i);
    assert Advance(systems[i], moves[i]) == Some(systems[i + 1]);
  }

  /**
    After a release in abort mode the flag stays up, no callback begins and no count is acquired,
    save those already past their check, and every later acquire or call is refused.
   */
  lemma AbortIsFinal(systems: seq<System>, moves: seq<Move>, n: nat, j: nat)
    requires IsRun(systems, moves) && n < j < |systems| && Aborts(moves[n])
    ensures var s, s' := systems[n + 1].core, systems[j].core;
      && s'.aborted
      && |s'.invoked| <= Committed(s') <= Committed(s)
      && Claimed(s'.threads) <= Claimed(s.threads)
    ensures forall m :: n < m < |moves| && Enters(moves[m]) ==> Untouched(systems[m].core, systems[m + 1].core)
  {
    AbortedIff(systems, moves, n + 1);
    AbortedSince(systems, moves, n + 1, j);
    forall m | n < m < |moves| && Enters(moves[m]) ensures Untouched(systems[m].core, systems[m + 1].core) {
      assert AbortBefore(moves, m);
      RefusedIffAborted(systems, moves, m);
    }
  }

  // ---------------------------------------------------------------- the count and the items, from the moves alone

  /** Counts acquired less counts released. */
  function Gains(moves: seq<Move>): int {
    if moves == [] then 0 else
      var move := moves[|moves| - 1];
      Gains(moves[..|moves| - 1])
      + (if move.Of? && move.step.AcquireAdd? then 1 else if move.Of? && move.step.ReleaseSub? then -1 else 0)
  }

  predicate Closed(moves: seq<Move>) { Of(Close) in moves }

  /** What the last call of thread t passed. */
  function DataOf(moves: seq<Move>, t: nat): nat {
    if moves == [] then 0 else
      var move := moves[|moves| - 1];
      if move.Of? && move.step.StartCall? && move.step.t == t then move.step.data else DataOf(moves[..|moves| - 1], t)
  }

  /** The items sent: while the channel is open, what each call passed, and the finalizer. */
  function SentBy(moves: seq<Move>): seq<Item> {
    if moves == [] then [] else
      var before, move := moves[..|moves| - 1], moves[|moves| - 1];
      SentBy(before)
      + (if !move.Of? || Closed(before) then []
         else if move.step.CallSend? then [Call(DataOf(before, move.step.t))]
         else if move.step.ReleaseSend? then [Finalize]
         else [])
  }

  /** The state is what the moves say. */
  ghost predicate Told(s: State, initial: nat, moves: seq<Move>) {
    && s.count == initial + Gains(moves)
    && (s.open <==> !Closed(moves))
    && s.sent == SentBy(moves)
    && forall t :: 0 <= t < |s.threads| ==> Carries(s.threads[t].pc, DataOf(moves, t))
  }

  lemma CountFollows(s: System, move: Move, s': System)
    requires SystemInv(s) && SystemInv(s') && Advance(s, move) == Some(s')
    ensures s'.core.count - s.core.count
         == if move.Of? && move.step.AcquireAdd? then 1 else if move.Of? && move.step.ReleaseSub? then -1 else 0
  {
    if move.Of? {
      StepCounts(s.core, move.step, s'.core);
    }
  }

  lemma StepCounts(s: State, step: Step, s': State)
    requires ThreadInv(s) && s'.count < USIZE && s'.count == Held(s'.threads) && Next(s, step) == Some(s')
    ensures s'.count - s.count == if step.AcquireAdd? then 1 else if step.ReleaseSub? then -1 else 0
  {
    if step.AcquireAdd? || step.ReleaseSub? {
      HeldUpdate(s.threads, step.t, s'.threads[step.t]);
      HeldAtLeast(s.threads, step.t);
    } else if step.JsStep? {
      JsNextKeepsAborted(s);
    }
  }

  lemma SendsFollow(s: State, step: Step, s': State)
    requires Next(s, step) == Some(s')
    ensures step.CallSend? ==> IsBumped(s, step.t)
    ensures s'.sent
         == s.sent + (if s.open && step.CallSend? then [Call(s.threads[step.t].pc.data)]
                      else if s.open && step.ReleaseSend? then [Finalize] else [])
    ensures s'.open <==> s.open && !step.Close?
  {
    if step.JsStep? {
      JsStepEffect(s, s');
    }
  }

  predicate IsBumped(s: State, t: nat) { t < |s.threads| && s.threads[t].pc.Bumped? }

  /** Only its own steps and handing counts over change what a thread is at. */
  lemma OtherPcsStay(s: State, step: Step, s': State, t: nat)
    requires Next(s, step) == Some(s') && t < |s.threads|
    requires step.JsPop? || step.JsStep? || step.Close? || step.Give? || step.t != t
    ensures t < |s'.threads| && s'.threads[t].pc == s.threads[t].pc
  {
    if step.JsStep? {
      JsStepEffect(s, s');
    } else if step.Give? {
      GiveCounts(s, step.t, step.to, s');
    }
  }

  predicate OwnStep(step: Step, t: nat) { !step.JsPop? && !step.JsStep? && !step.Close? && !step.Give? && step.t == t }

  predicate Carries(pc: Pc, data: nat) { pc.Calling? || pc.Bumped? ==> pc.data == data }

  lemma OwnPcCarries(s: State, step: Step, s': State, t: nat, data: nat)
    requires Next(s, step) == Some(s') && t < |s.threads| && OwnStep(step, t) && Carries(s.threads[t].pc, data)
    ensures t < |s'.threads| && Carries(s'.threads[t].pc, if step.StartCall? then step.data else data)
  {
    match step
    case StartAcquire(_) =>
    case AcquireAdd(_) =>
    case StartCall(_, _) =>
    case CallBump(_) =>
    case CallSend(_) =>
    case CallNotify(_) =>
    case StartRelease(_, _) =>
    case ReleaseSub(_) =>
    case ReleaseStoreZero(_) =>
    case ReleaseSend(_) =>
  }

  lemma PcsFollow(s: State, step: Step, s': State, moves: seq<Move>, t: nat)
    requires Next(s, step) == Some(s') && t < |s.threads| && Carries(s.threads[t].pc, DataOf(moves, t))
    ensures t < |s'.threads| && Carries(s'.threads[t].pc, DataOf(moves + [Of(step)], t))
  {
    DataAfter(moves, Of(step), t);
    if OwnStep(step, t) {
      OwnPcCarries(s, step, s', t, DataOf(moves, t));
    } else {
      OtherPcsStay(s, step, s', t);
    }
  }

  lemma DataAfter(moves: seq<Move>, move: Move, t: nat)
    ensures DataOf(moves + [move], t)
         == if move.Of? && move.step.StartCall? && move.step.t == t then move.step.data else DataOf(moves, t)
  {
    assert (moves + [move])[..|moves|] == moves;
  }

  lemma SameSize(s: State, step: Step, s': State)
    requires Next(s, step) == Some(s')
    ensures |s'.threads| == |s.threads|
  {
    if step.JsStep? {
      JsStepEffect(s, s');
    }
  }

  lemma ToldStep(s: System, move: Move, s': System, initial: nat, moves: seq<Move>, all: seq<Move>)
    requires SystemInv(s) && SystemInv(s') && Advance(s, move) == Some(s') && Told(s.core, initial, moves)
    requires all == moves + [move]
    ensures Told(s'.core, initial, all)
  {
    assert all[..|moves|] == moves && all[|moves|] == move;
    CountFollows(s, move, s');
    if move.Of? {
      SendsFollow(s.core, move.step, s'.core);
      SameSize(s.core, move.step, s'.core);
      forall t | 0 <= t < |s'.core.threads| ensures Carries(s'.core.threads[t].pc, DataOf(all, t)) {
        PcsFollow(s.core, move.step, s'.core, moves, t);
      }
    } else {
      forall t | 0 <= t < |s'.core.threads| ensures Carries(s'.core.threads[t].pc, DataOf(all, t)) {
        DataAfter(moves, move, t);
      }
    }
  }

  lemma ToldAtFirst(systems: seq<System>, moves: seq<Move>)
    requires IsRun(systems, moves)
    ensures systems[0].core.count > 0 && ToldAt(systems, moves, 0)
  {
    var threads: nat, initial: nat :| InitiallyHolds(systems[0].core, threads, initial);
  }

  ghost predicate ToldAt(systems: seq<System>, moves: seq<Move>, i: nat)
    requires i < |systems| == |moves| + 1
  {
    Told(systems[i].core, systems[0].core.count, moves[..i])
  }

  lemma MoveOfRun(systems: seq<System>, moves: seq<Move>, i: nat)
    requires IsRun(systems, moves) && i < |moves|
    ensures SystemInv(systems[i]) && SystemInv(systems[i + 1])
    ensures Advance(systems[i], moves[i]) == Some(systems[i + 1])
  {
    RunInv(systems, moves, i);
    RunInv(systems, moves, i + 1);
  }

  lemma ToldNext(systems: seq<System>, moves: seq<Move>, i: nat, initial: nat, before: seq<Move>, all: seq<Move>)
    requires IsRun(systems, moves) && i < |moves| && all == before + [moves[i]]
    requires Told(systems[i].core, initial, before)
    ensures Told(systems[i + 1].core, initial, all)
  {
    MoveOfRun(systems, moves, i);
    ToldStep(systems[i], moves[i], systems[i + 1], initial, before, all);
  }

  ghost predicate Keeps(p: nat -> bool, i: nat) { p(i) ==> p(i + 1) }

  lemma {:induction false} Induction(p: nat -> bool, i: nat)
    requires p(0) && forall j: nat :: j < i ==> Keeps(p, j)
    ensures p(i)
  {
    if i > 0 {
      Induction(p, i - 1);
      assert Keeps(p, i - 1);
    }
  }

  /**
    In any run the count is the initial one and what was acquired since, less what was released;
    and the items sent are what the calls passed, in the order of their sends, and a finalizer for
    the last release, as long as the channel is open.
   */
  lemma RunIsTold(systems: seq<System>, moves: seq<Move>, i: nat)
    requires IsRun(systems, moves) && i < |systems|
    ensures systems[0].core.count > 0 && ToldAt(systems, moves, i)
  {
    var p := (j: nat) => j < |systems| == |moves| + 1 && ToldAt(systems, moves, j);
    ToldAtFirst(systems, moves);
    forall j: nat | j < i ensures Keeps(p, j) {
      if p(j) {
        ToldNext(systems, moves, j, systems[0].core.count, moves[..j], moves[..j + 1]);
      }
    }
    Induction(p, i);
  }
}

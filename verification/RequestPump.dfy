/**
  The JavaScript pump: it takes request ids off the queue, one at a time or in batches, and
  dispatches each without waiting for it.

  The first half interleaves the job receiver, the host's pump task and the JavaScript side,
  one step per call into the queue or the `Notify`. The second half is the JavaScript code
  between two suspensions, as a class.
 */
module Pump {
  import opened Wrappers
  import Q = Queue

  type Id = Q.Id

  /** The receiving task: between registering a job and signalling the pump it is `Registered`. */
  datatype Receiver = Resting | Registered

  /** Where the pump task of the worker is. */
  datatype Host =
    | AtTop                // about to resolve pending pops and run the microtasks
    | InMicrotasks
    | AtCheck              // microtasks done, about to look at the queue
    | AtSelect             // queue seen empty, about to await the signal
    | Parked
    | Woken                // signalled, not yet running

  /** Where the JavaScript loop is. */
  datatype Js =
    | Asking               // about to call the awaited pop
    | Waiting              // its promise is unresolved
    | Holding(ids: seq<Id>)
    | Draining             // batched only: about to call the non-waiting pop

  datatype State = State(
    cap: nat,              // 0: serial; otherwise the batch cap
    pending: seq<Id>, js: Js, host: Host, receiver: Receiver,
    permit: bool,          // of the pump's signal
    napiPermit: bool,      // of the wake-up for other work
    // what happened so far
    pushed: seq<Id>, dispatched: seq<Id>)

  datatype Step =
    | Register(id: Id)     // a job arrives: its id is pushed
    | Signal               // `notify_one` on the pump's signal
    | NapiWakeup           // `notify_one` on the pump's wake-up for other work
    | HostStep
    | NapiSelected         // the pump task takes that wake-up, of whichever of the two is ready
    | JsStep

  /** The batch size of the pump for the `batchCap` it was given, which is coerced to 32 bits. */
  function CapOf(batchCap: int): nat {
    var low := batchCap % 0x1_0000_0000;
    if 1 < low < 0x8000_0000 then low else 0
  }

  /** A cap above one is used as it is, any other means serial; only its low 32 bits count, as a signed number. */
  lemma CapIs(batchCap: int)
    ensures CapOf(batchCap + 0x1_0000_0000) == CapOf(batchCap)
    ensures -0x8000_0000 <= batchCap < 0x8000_0000 ==> CapOf(batchCap) == if batchCap > 1 then batchCap else 0
  {}

  function Init(cap: nat): State { State(cap, [], Waiting, AtTop, Resting, false, false, [], []) }

  function Take(s: State): State { s.(js := Holding(Q.Batch(s.pending, s.cap)), pending := Q.Rest(s.pending, s.cap)) }

  /** The state after `step`, or None where the step cannot be taken. */
  function Next(s: State, step: Step): Option<State> {
    match step
    case Register(id) =>
      if s.receiver == Registered then None
      else Some(s.(receiver := Registered, pending := s.pending + [id], pushed := s.pushed + [id]))
    case Signal =>
      if s.receiver == Resting then None
      else if s.host == Parked then Some(s.(receiver := Resting, host := Woken))
      else Some(s.(receiver := Resting, permit := true))
    case NapiWakeup =>
      if s.host == Parked then Some(s.(host := AtTop)) else Some(s.(napiPermit := true))
    case NapiSelected =>
      if !s.napiPermit then None
      else if s.host == AtSelect then Some(s.(napiPermit := false, host := AtTop))
      else if s.host == Woken then Some(s.(napiPermit := false, host := AtTop, permit := true))
      else None
    case HostStep => HostNext(s)
    case JsStep => if s.host == InMicrotasks then JsNext(s) else None
  }

  function HostNext(s: State): Option<State> {
    match s.host
    case AtTop =>
      Some((if s.js == Waiting && s.pending != [] then Take(s) else s).(host := InMicrotasks))
    case InMicrotasks => if s.js == Waiting then Some(s.(host := AtCheck)) else None
    case AtCheck => Some(s.(host := if s.pending == [] then AtSelect else AtTop))
    case AtSelect =>
      Some(if s.permit then s.(permit := false, host := AtTop)
           else if s.napiPermit then s.(napiPermit := false, host := AtTop)
           else s.(host := Parked))
    case Parked => None
    case Woken => Some(s.(host := AtTop))
  }

  function JsNext(s: State): Option<State> {
    match s.js
    case Asking => Some(if s.pending == [] then s.(js := Waiting) else Take(s))
    case Waiting => None
    case Holding(ids) =>
      if ids == [] then Some(s.(js := if s.cap == 0 then Asking else Draining))
      else Some(s.(js := Holding(ids[1..]), dispatched := s.dispatched + [ids[0]]))
    case Draining => Some(if s.pending == [] then s.(js := Asking) else Take(s))
  }

  // ---------------------------------------------------------------- what every step keeps

  function InHand(js: Js): seq<Id> { if js.Holding? then js.ids else [] }

  /** Every id pushed is dispatched, in hand or queued, in the order of the pushes. */
  predicate Conserved(s: State) { s.dispatched + InHand(s.js) + s.pending == s.pushed }

  /** The pump never sleeps over a waiting id unless a signal is already on its way. */
  predicate Attended(s: State) {
    && (s.host != InMicrotasks ==> s.js == Waiting)
    && (s.host == AtSelect && s.pending != [] ==> s.permit || s.receiver == Registered)
    && (s.host == Parked ==> !s.permit && !s.napiPermit && (s.pending == [] || s.receiver == Registered))
  }

  predicate Inv(s: State) { Conserved(s) && Attended(s) }

  lemma TakeConserves(s: State)
    requires Conserved(s) && InHand(s.js) == []
    ensures Conserved(Take(s))
  {
    Q.BatchAndRest(s.pending, s.cap);
    var s' := Take(s);
    assert s'.dispatched + InHand(s'.js) + s'.pending == s.dispatched + (InHand(s'.js) + s'.pending);
  }

  lemma JsKeepsInv(s: State)
    requires Inv(s) && Next(s, JsStep).Some?
    ensures Inv(Next(s, JsStep).value)
  {
    match s.js
    case Asking => if s.pending != [] { TakeConserves(s); }
    case Draining => if s.pending != [] { TakeConserves(s); }
    case Holding(ids) =>
      if ids != [] {
        assert s.dispatched + ids == s.dispatched + [ids[0]] + ids[1..];
      }
  }

  lemma NextKeepsInv(s: State, step: Step)
    requires Inv(s) && Next(s, step).Some?
    ensures Inv(Next(s, step).value)
  {
    match step
    case Register(id) =>
      assert s.dispatched + InHand(s.js) + (s.pending + [id]) == s.dispatched + InHand(s.js) + s.pending + [id];
    case HostStep => if s.host == AtTop && s.js == Waiting && s.pending != [] { TakeConserves(s); }
    case JsStep => JsKeepsInv(s);
    case Signal =>
    case NapiWakeup =>
    case NapiSelected =>
  }

  /** The state after a run, or None if some step of it cannot be taken. */
  function Run(s: State, steps: seq<Step>): Option<State>
    decreases |steps|
  {
    if steps == [] then Some(s) else
      match Next(s, steps[0])
      case None => None
      case Some(s') => Run(s', steps[1..])
  }

  lemma {:induction false} RunInv(s: State, steps: seq<Step>)
    requires Inv(s) && Run(s, steps).Some?
    ensures Inv(Run(s, steps).value) && Run(s, steps).value.cap == s.cap
    decreases |steps|
  {
    if steps != [] {
      NextKeepsInv(s, steps[0]);
      RunInv(Next(s, steps[0]).value, steps[1..]);
    }
  }

  /** In every run, with every cap, ids are dispatched in the order they were pushed, each once. */
  lemma DispatchedInOrder(cap: nat, steps: seq<Step>)
    requires Run(Init(cap), steps).Some?
    ensures var s := Run(Init(cap), steps).value; s.dispatched <= s.pushed && Attended(s)
  {
    RunInv(Init(cap), steps);
    var s := Run(Init(cap), steps).value;
    assert s.dispatched <= s.dispatched + InHand(s.js) + s.pending;
  }

  // ---------------------------------------------------------------- nothing is left behind

  predicate Internal(step: Step) { step.Signal? || step.HostStep? || step.NapiSelected? || step.JsStep? }

  ghost predicate AtRest(s: State) { forall step :: Internal(step) ==> Next(s, step) == None }

  /** Whatever the cap, the system comes to rest only when everything pushed has been dispatched. */
  lemma RestIsDone(s: State)
    requires Inv(s) && AtRest(s)
    ensures s.dispatched == s.pushed && s.host == Parked && s.js == Waiting
  {
    assert Next(s, Signal) == None && Next(s, HostStep) == None && Next(s, JsStep) == None;
  }

  /** The serial and the batched pump, given the same ids, end with the same dispatches. */
  lemma SerialAndBatchedAgree(steps1: seq<Step>, cap1: nat, steps2: seq<Step>, cap2: nat)
    requires Run(Init(cap1), steps1).Some? && Run(Init(cap2), steps2).Some?
    requires Run(Init(cap1), steps1).value.pushed == Run(Init(cap2), steps2).value.pushed
    ensures var s1, s2 := Run(Init(cap1), steps1).value, Run(Init(cap2), steps2).value;
            && (s1.dispatched <= s2.dispatched || s2.dispatched <= s1.dispatched)
            && (AtRest(s1) && AtRest(s2) ==> s1.dispatched == s2.dispatched)
  {
    DispatchedInOrder(cap1, steps1);
    DispatchedInOrder(cap2, steps2);
    RunInv(Init(cap1), steps1);
    RunInv(Init(cap2), steps2);
    var s1, s2 := Run(Init(cap1), steps1).value, Run(Init(cap2), steps2).value;
    if AtRest(s1) && AtRest(s2) {
      RestIsDone(s1);
      RestIsDone(s2);
    }
    assert s1.dispatched == s1.pushed[..|s1.dispatched|];
    assert s2.dispatched == s2.pushed[..|s2.dispatched|];
  }

  /** What is still to do; every step the system takes by itself lowers it. */
  function Work(s: State): nat {
    20 * |s.pending| + |InHand(s.js)| + (if s.receiver == Registered then 20 else 0)
    + (if s.permit then 10 else 0) + (if s.napiPermit then 12 else 0)
    + JsWork(s.js) + HostWork(s.host, s.pending != [])
  }

  function JsWork(js: Js): nat {
    match js
    case Waiting => 0
    case Asking => 1
    case Draining => 2
    case Holding(_) => 3
  }

  function HostWork(host: Host, queued: bool): nat {
    match host
    case Parked => 0
    case AtSelect => 2
    case AtCheck => if queued then 6 else 3
    case InMicrotasks => if queued then 7 else 4
    case AtTop => 5
    case Woken => 6
  }

  lemma TakeWorks(s: State)
    requires s.pending != [] && InHand(s.js) == []
    ensures Work(Take(s)) + 16 <= Work(s)
  {
    Q.BatchAndRest(s.pending, s.cap);
  }

  lemma InternalStepWorks(s: State, step: Step)
    requires Inv(s) && Internal(step) && Next(s, step).Some?
    ensures Work(Next(s, step).value) < Work(s)
  {
    if s.pending != [] && InHand(s.js) == [] {
      TakeWorks(s);
    }
  }

  /** Left to itself the system stops, within a number of steps known beforehand. */
  lemma {:induction false} InternalRunsEnd(s: State, steps: seq<Step>)
    requires Inv(s) && Run(s, steps).Some?
    requires forall step :: step in steps ==> Internal(step)
    ensures |steps| <= Work(s)
    decreases |steps|
  {
    if steps != [] {
      assert steps[0] in steps;
      NextKeepsInv(s, steps[0]);
      InternalStepWorks(s, steps[0]);
      InternalRunsEnd(Next(s, steps[0]).value, steps[1..]);
    }
  }

  lemma StepKeepsPushed(s: State, step: Step)
    requires Internal(step) && Next(s, step).Some?
    ensures Next(s, step).value.pushed == s.pushed
  {}

  /** From any reachable state the system can, by itself, dispatch everything pushed so far. */
  lemma {:induction false} CanFinish(s: State) returns (steps: seq<Step>)
    requires Inv(s)
    ensures forall step :: step in steps ==> Internal(step)
    ensures Run(s, steps).Some? && Run(s, steps).value.dispatched == s.pushed
    decreases Work(s)
  {
    if AtRest(s) {
      RestIsDone(s);
      steps := [];
    } else {
      var step :| Internal(step) && Next(s, step) != None;
      NextKeepsInv(s, step);
      InternalStepWorks(s, step);
      StepKeepsPushed(s, step);
      var more := CanFinish(Next(s, step).value);
      RunCons(s, step, more);
      steps := [step] + more;
    }
  }

  lemma RunCons(s: State, step: Step, more: seq<Step>)
    requires Next(s, step).Some?
    ensures Run(s, [step] + more) == Run(Next(s, step).value, more)
  {
    assert ([step] + more)[1..] == more;
  }

  lemma {:induction false} RunConcat(s: State, first: seq<Step>, rest: seq<Step>)
    requires Run(s, first).Some?
    ensures Run(s, first + rest) == Run(Run(s, first).value, rest)
    decreases |first|
  {
    if first == [] {
      assert first + rest == rest;
    } else {
      assert (first + rest)[1..] == first[1..] + rest;
      RunConcat(Next(s, first[0]).value, first[1..], rest);
    }
  }

  lemma {:induction false} InternalKeepsPushed(s: State, steps: seq<Step>)
    requires Run(s, steps).Some? && forall step :: step in steps ==> Internal(step)
    ensures Run(s, steps).value.pushed == s.pushed
    decreases |steps|
  {
    if steps != [] {
      assert steps[0] in steps;
      StepKeepsPushed(s, steps[0]);
      InternalKeepsPushed(Next(s, steps[0]).value, steps[1..]);
    }
  }

  /** One more job: it is registered, and then everything so far is dispatched. */
  lemma OneMoreJob(cap: nat, steps: seq<Step>, id: Id) returns (more: seq<Step>)
    requires Run(Init(cap), steps).Some? && Run(Init(cap), steps).value.receiver == Resting
    ensures Run(Init(cap), steps + more).Some?
    ensures var s, s' := Run(Init(cap), steps).value, Run(Init(cap), steps + more).value;
      s'.receiver == Resting && s'.pushed == s.pushed + [id] && s'.dispatched == s'.pushed
  {
    RunInv(Init(cap), steps);
    var s := Run(Init(cap), steps).value;
    NextKeepsInv(s, Register(id));
    var s1 := Next(s, Register(id)).value;
    NextKeepsInv(s1, Signal);
    var s2 := Next(s1, Signal).value;
    var finish := CanFinish(s2);
    InternalKeepsPushed(s2, finish);
    InternalKeepsResting(s2, finish);
    RunCons(s1, Signal, finish);
    RunCons(s, Register(id), [Signal] + finish);
    more := [Register(id)] + ([Signal] + finish);
    RunConcat(Init(cap), steps, more);
  }

  lemma {:induction false} InternalKeepsResting(s: State, steps: seq<Step>)
    requires s.receiver == Resting && Run(s, steps).Some? && forall step :: step in steps ==> Internal(step)
    ensures Run(s, steps).value.receiver == Resting
    decreases |steps|
  {
    if steps != [] {
      assert steps[0] in steps;
      InternalKeepsResting(Next(s, steps[0]).value, steps[1..]);
    }
  }

  /** Whatever ids arrive, there is a run that takes and dispatches exactly them. */
  lemma {:induction false} AnyJobsAreDispatched(cap: nat, ids: seq<Id>) returns (steps: seq<Step>)
    ensures Run(Init(cap), steps).Some?
    ensures var s := Run(Init(cap), steps).value; s.pushed == ids && s.dispatched == ids && s.receiver == Resting
  {
    if ids == [] {
      steps := [];
    } else {
      var before := AnyJobsAreDispatched(cap, ids[..|ids| - 1]);
      var more := OneMoreJob(cap, before, ids[|ids| - 1]);
      steps := before + more;
      assert ids == ids[..|ids| - 1] + [ids[|ids| - 1]];
    }
  }

  // ---------------------------------------------------------------- wake-ups, and how the two pumps take ids

  /** The pump begins a round at some moment of the run. */
  ghost predicate BeginsRound(s: State, steps: seq<Step>) {
    exists n: nat :: BeginsAt(s, steps, n)
  }

  predicate BeginsAt(s: State, steps: seq<Step>, n: nat) {
    n <= |steps| && Run(s, steps[..n]).Some? && Run(s, steps[..n]).value.host == AtTop
  }

  lemma {:induction false} OwedUntilRound(s: State, steps: seq<Step>)
    requires Run(s, steps).Some? && s.napiPermit && !BeginsRound(s, steps)
    ensures Run(s, steps).value.napiPermit
    decreases |steps|
  {
    if steps != [] {
      var s1 := Next(s, steps[0]).value;
      assert steps[..1] == [steps[0]] && [steps[0]][1..] == [] && Run(s1, []) == Some(s1);
      assert Run(s, steps[..1]) == Some(s1);
      assert !BeginsAt(s, steps, 1);
      if n: nat :| BeginsAt(s1, steps[1..], n) {
        assert steps[..n + 1][1..] == steps[1..][..n];
        assert BeginsAt(s, steps, n + 1);
      }
      OwedUntilRound(s1, steps[1..]);
    }
  }

  /** A wake-up for other work is never lost: before the system rests again, the pump has begun another round. */
  lemma WakeupIsAnswered(s: State, s1: State, steps: seq<Step>)
    requires Inv(s) && Next(s, NapiWakeup) == Some(s1) && Run(s1, steps).Some? && AtRest(Run(s1, steps).value)
    ensures BeginsRound(s1, steps)
  {
    NextKeepsInv(s, NapiWakeup);
    RunInv(s1, steps);
    RestIsDone(Run(s1, steps).value);
    assert steps[..0] == [] && Run(s1, []) == Some(s1);
    if s1.host == AtTop {
      assert BeginsAt(s1, steps, 0);
    } else if !BeginsRound(s1, steps) {
      OwedUntilRound(s1, steps);
    }
  }

  /** The serial pump holds one id and only ever awaits; the batched one holds no more than its cap. */
  predicate Manner(s: State) {
    && (s.cap == 0 ==> s.js != Draining)
    && |InHand(s.js)| <= if s.cap == 0 then 1 else s.cap
  }

  lemma StepKeepsManner(s: State, step: Step)
    requires Manner(s) && Next(s, step).Some?
    ensures Manner(Next(s, step).value) && Next(s, step).value.cap == s.cap
    ensures step.JsStep? && Next(s, step).value.js == Asking && s.cap != 0 ==> s.pending == []
  {
    if s.pending != [] {
      Q.BatchAndRest(s.pending, s.cap);
    }
  }

  /** In every run; and the batched pump awaits only after it has seen the queue empty. */
  lemma {:induction false} MannerKept(s: State, steps: seq<Step>)
    requires Manner(s) && Run(s, steps).Some?
    ensures Manner(Run(s, steps).value) && Run(s, steps).value.cap == s.cap
    decreases |steps|
  {
    if steps != [] {
      StepKeepsManner(s, steps[0]);
      MannerKept(Next(s, steps[0]).value, steps[1..]);
    }
  }

  // ---------------------------------------------------------------- the JavaScript side

  /** `__startPump` and its loops; `waiting` says that an awaited pop is unresolved. */
  class JsPump {
    const queue: Q.RequestQueue
    var started: bool
    var cap: nat
    var waiting: bool
    var dispatched: seq<Id>

    constructor (queue: Q.RequestQueue)
      ensures this.queue == queue && !started && dispatched == []
    {
      this.queue := queue;
      started, cap, waiting, dispatched := false, 0, false, [];
    }

    /** Starts the pump once: it dispatches what is queued and then waits. */
    method StartPump(batchCap: int)
      modifies this, queue`pending
      ensures started
      ensures old(started) ==>
                && waiting == old(waiting) && cap == old(cap)
                && dispatched == old(dispatched) && queue.pending == old(queue.pending)
      ensures !old(started) ==>
                && waiting && cap == CapOf(batchCap)
                && dispatched == old(dispatched + queue.pending) && queue.pending == []
    {
      if started {
        return;
      }
      started := true;
      cap := CapOf(batchCap);
      Loop();
    }

    /** `drain_pending_pops` and the microtasks after it: a waiting pump takes what is queued. */
    method Wake()
      requires started && waiting
      modifies this, queue`pending
      ensures started && waiting && cap == old(cap)
      ensures dispatched == old(dispatched + queue.pending) && queue.pending == []
    {
      var ids := queue.TryPopBatch(cap);
      if ids != [] {
        waiting := false;
        DispatchAll(ids);
        assert dispatched + queue.pending == old(dispatched + queue.pending) by {
          Q.BatchAndRest(old(queue.pending), cap);
          assert old(dispatched) + ids + queue.pending == old(dispatched) + (ids + queue.pending);
        }
        if cap != 0 {
          DrainQueue();
        }
        Loop();
      }
    }

    /** The body of the endless loop, from an awaited pop to the pop that has to wait. */
    method Loop()
      modifies this, queue`pending
      ensures waiting && cap == old(cap) && started == old(started)
      ensures dispatched == old(dispatched + queue.pending) && queue.pending == []
    {
      while true
        invariant cap == old(cap) && started == old(started)
        invariant dispatched + queue.pending == old(dispatched + queue.pending)
        decreases |queue.pending|
      {
        ghost var before, queued := dispatched, queue.pending;
        Q.BatchAndRest(queued, cap);
        var ids := queue.TryPopBatch(cap);
        if ids == [] {
          waiting := true;
          return;
        }
        DispatchAll(ids);
        assert before + ids + queue.pending == before + (ids + queue.pending);
        if cap != 0 {
          DrainQueue();
        }
      }
    }

    /** The inner loop of the batched pump: empties the queue without waiting. */
    method DrainQueue()
      modifies this`dispatched, queue`pending
      ensures dispatched == old(dispatched + queue.pending) && queue.pending == []
    {
      while true
        invariant dispatched + queue.pending == old(dispatched + queue.pending)
        decreases |queue.pending|
      {
        ghost var before, queued := dispatched, queue.pending;
        Q.Drains(queued, cap);
        var drained := queue.TryPopBatch(cap);
        if drained == [] {
          break;
        }
        DispatchAll(drained);
        assert before + drained + queue.pending == before + (drained + queue.pending);
      }
      assert dispatched + [] == dispatched;
    }

    method DispatchAll(ids: seq<Id>)
      modifies this`dispatched
      ensures dispatched == old(dispatched) + ids
    {
      for i := 0 to |ids|
        invariant dispatched == old(dispatched) + ids[..i]
      {
        dispatched := dispatched + [ids[i]];
      }
    }
  }
}

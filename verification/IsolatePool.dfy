/**
  The pool of isolates, as an interleaving of dispatches and recycle passes.

  Every atomic operation, every lock of a slot's worker and every resumption after an await is
  one step. Any number of dispatches may run, complete or be cancelled at their await; any
  number of recycle passes may overlap, and a pass may be dropped while it builds.
 */
module IsolatePool {
  import opened Wrappers
  import P = Pickers

  const USIZE := P.USIZE

  type Worker = nat

  datatype Slot = Slot(worker: Worker, inflight: nat, recycling: bool)

  datatype Outcome = Answered | Failed | Cancelled

  /** Where a dispatch is. */
  datatype Task =
    | New
    | SampledOne(x: nat)                    // the first counter advanced
    | SampledTwo(x: nat, y: nat)            // both counters advanced
    | Compared(x: nat, y: nat, load: nat)   // load of the first sample read
    | Picked(i: nat)
    | Snapped(i: nat, worker: Worker)       // worker handle taken, guard not yet made
    | Running(i: nat, worker: Worker)       // guard live, waiting for the worker
    | Counting(i: nat, worker: Worker)      // answered, `dispatch_count` not yet raised
    | Leaving(i: nat, worker: Worker, outcome: Outcome)   // guard not yet dropped
    | Over(i: nat, worker: Worker, outcome: Outcome)

  /** Where a recycle pass is. */
  datatype Pass =
    | Resting
    | At(i: nat)                            // about to look at slot i; past the last slot, done
    | Looked(i: nat, worker: Worker)
    | Wanting(i: nat)                       // policy says recycle, flag not yet tried
    | Building(i: nat)
    | Built(i: nat, built: Worker)          // not yet installed
    | Installed(i: nat)                     // `recycle_count` not yet raised
    | Clearing(i: nat)                      // flag not yet cleared

  datatype Event =
    | Snap(task: nat, i: nat, worker: Worker)
    | Reply(task: nat, worker: Worker, ok: bool)
    | Replace(i: nat, worker: Worker)

  datatype State = State(
    slots: seq<Slot>, a: nat, b: nat, dispatchCount: nat, recycleCount: nat,
    tasks: seq<Task>, passes: seq<Pass>,
    // what happened so far
    boot: seq<Worker>, log: seq<Event>, orphaned: set<nat>)

  datatype Step =
    | Spawn
    | TaskStep(t: nat)
    | Answer(t: nat, ok: bool)
    | Cancel(t: nat)
    | BeginPass(p: nat)
    | PassStep(p: nat)
    | Judge(p: nat, recycle: bool)
    | BuildOk(p: nat, built: Worker)
    | BuildErr(p: nat)
    | Abandon(p: nat)

  predicate TaskFormed(n: nat, task: Task) {
    match task
    case New => true
    case SampledOne(x) => n > 1 && x < n
    case SampledTwo(x, y) => x < n && y < n && x != y
    case Compared(x, y, _) => x < n && y < n && x != y
    case _ => task.i < n
  }

  predicate PassFormed(n: nat, pass: Pass) { pass.Resting? || pass.At? || pass.i < n }

  predicate Formed(s: State) {
    && |s.slots| > 0 && |s.boot| == |s.slots|
    && (forall t :: 0 <= t < |s.tasks| ==> TaskFormed(|s.slots|, s.tasks[t]))
    && (forall p :: 0 <= p < |s.passes| ==> PassFormed(|s.slots|, s.passes[p]))
  }

  function Bump(count: nat): nat { (count + 1) % USIZE }

  function Lower(count: nat): nat { (count + USIZE - 1) % USIZE }

  function SetTask(s: State, t: nat, task: Task): (r: State)
    requires Formed(s) && t < |s.tasks| && TaskFormed(|s.slots|, task)
    ensures Formed(r)
  {
    s.(tasks := s.tasks[t := task])
  }

  function SetPass(s: State, p: nat, pass: Pass): (r: State)
    requires Formed(s) && p < |s.passes| && PassFormed(|s.slots|, pass)
    ensures Formed(r)
  {
    s.(passes := s.passes[p := pass])
  }

  function SetSlot(s: State, i: nat, slot: Slot): (r: State)
    requires Formed(s) && i < |s.slots|
    ensures Formed(r)
  {
    s.(slots := s.slots[i := slot])
  }

  /** The first sample of a pool of several slots, and the second, moved off the first. */
  function SampleOne(s: State): (task: Task)
    requires |s.slots| > 1
    ensures TaskFormed(|s.slots|, task)
  {
    SampledOne(P.First(|s.slots|, s.a))
  }

  function SampleTwo(s: State, x: nat): (task: Task)
    requires |s.slots| > 1 && x < |s.slots|
    ensures TaskFormed(|s.slots|, task)
  {
    var y := P.Second(|s.slots|, x, s.b);
    assert y < |s.slots|;
    SampledTwo(x, y)
  }

  /** The deterministic steps of a dispatch. */
  function TaskNext(s: State, t: nat): (r: Option<State>)
    requires Formed(s) && t < |s.tasks|
    ensures r.Some? ==> Formed(r.value)
  {
    match s.tasks[t]
    case New =>
      if |s.slots| == 1 then Some(SetTask(s, t, Picked(0)))
      else Some(SetTask(s, t, SampleOne(s)).(a := Bump(s.a)))
    case SampledOne(x) => Some(SetTask(s, t, SampleTwo(s, x)).(b := (s.b + P.STRIDE_B) % USIZE))
    case SampledTwo(x, y) => Some(SetTask(s, t, Compared(x, y, s.slots[x].inflight)))
    case Compared(x, y, load) => Some(SetTask(s, t, Picked(if load <= s.slots[y].inflight then x else y)))
    case Picked(i) =>
      Some(SetTask(s, t, Snapped(i, s.slots[i].worker)).(log := s.log + [Snap(t, i, s.slots[i].worker)]))
    case Snapped(i, w) =>
      Some(SetSlot(SetTask(s, t, Running(i, w)), i, s.slots[i].(inflight := Bump(s.slots[i].inflight))))
    case Running(_, _) => None
    case Counting(i, w) => Some(SetTask(s, t, Leaving(i, w, Answered)).(dispatchCount := Bump(s.dispatchCount)))
    case Leaving(i, w, outcome) =>
      Some(SetSlot(SetTask(s, t, Over(i, w, outcome)), i, s.slots[i].(inflight := Lower(s.slots[i].inflight))))
    case Over(_, _, _) => None
  }

  /** The deterministic steps of a recycle pass. */
  function PassNext(s: State, p: nat): (r: Option<State>)
    requires Formed(s) && p < |s.passes|
    ensures r.Some? ==> Formed(r.value)
  {
    match s.passes[p]
    case At(i) => Some(SetPass(s, p, if i < |s.slots| then Looked(i, s.slots[i].worker) else Resting))
    case Wanting(i) =>
      if s.slots[i].recycling then Some(SetPass(s, p, At(i + 1)))
      else Some(SetSlot(SetPass(s, p, Building(i)), i, s.slots[i].(recycling := true)))
    case Built(i, built) =>
      Some(SetSlot(SetPass(s, p, Installed(i)), i, s.slots[i].(worker := built)).(log := s.log + [Replace(i, built)]))
    case Installed(i) => Some(SetPass(s, p, Clearing(i)).(recycleCount := Bump(s.recycleCount)))
    case Clearing(i) => Some(SetSlot(SetPass(s, p, At(i + 1)), i, s.slots[i].(recycling := false)))
    case _ => None
  }

  /** The state after `step`, or None where the step cannot be taken. */
  function Next(s: State, step: Step): (r: Option<State>)
    requires Formed(s)
    ensures r.Some? ==> Formed(r.value)
  {
    match step
    case Spawn => Some(s.(tasks := s.tasks + [New]))
    case TaskStep(t) =>
      if t >= |s.tasks| then None else TaskNext(s, t)
    case Answer(t, ok) =>
      if t >= |s.tasks| || !s.tasks[t].Running? then None else
        var (i, w) := (s.tasks[t].i, s.tasks[t].worker);
        Some(SetTask(s, t, if ok then Counting(i, w) else Leaving(i, w, Failed)).(log := s.log + [Reply(t, w, ok)]))
    case Cancel(t) =>
      if t >= |s.tasks| || !s.tasks[t].Running? then None
      else Some(SetTask(s, t, Leaving(s.tasks[t].i, s.tasks[t].worker, Cancelled)))
    case BeginPass(p) =>
      if p >= |s.passes| || !s.passes[p].Resting? then None else Some(SetPass(s, p, At(0)))
    case PassStep(p) => if p >= |s.passes| then None else PassNext(s, p)
    case Judge(p, recycle) =>
      if p >= |s.passes| || !s.passes[p].Looked? then None
      else Some(SetPass(s, p, if recycle then Wanting(s.passes[p].i) else At(s.passes[p].i + 1)))
    case BuildOk(p, built) =>
      if p >= |s.passes| || !s.passes[p].Building? then None else Some(SetPass(s, p, Built(s.passes[p].i, built)))
    case BuildErr(p) =>
      if p >= |s.passes| || !s.passes[p].Building? then None else Some(SetPass(s, p, Clearing(s.passes[p].i)))
    case Abandon(p) =>
      if p >= |s.passes| || !s.passes[p].Building? then None
      else Some(SetPass(s, p, Resting).(orphaned := s.orphaned + {s.passes[p].i}))
  }

  function Init(boot: seq<Worker>, passes: nat): (s: State)
    requires |boot| > 0
    ensures Formed(s)
  {
    State(seq(|boot|, i requires 0 <= i < |boot| => Slot(boot[i], 0, false)), 0, 0, 0, 0,
          [], seq(passes, _ => Resting), boot, [], {})
  }

  function Run(s: State, steps: seq<Step>): (r: Option<State>)
    requires Formed(s)
    ensures r.Some? ==> Formed(r.value)
    decreases |steps|
  {
    if steps == [] then Some(s) else
      match Next(s, steps[0])
      case None => None
      case Some(s') => Run(s', steps[1..])
  }

  // ---------------------------------------------------------------- counting tasks, passes and events

  function Tally<T(!new)>(holds: T -> bool, items: seq<T>): nat {
    if items == [] then 0 else (if holds(items[0]) then 1 else 0) + Tally(holds, items[1..])
  }

  lemma {:induction false} TallyUpdate<T(!new)>(holds: T -> bool, items: seq<T>, k: nat, item: T)
    requires k < |items|
    ensures Tally(holds, items[k := item]) + (if holds(items[k]) then 1 else 0)
            == Tally(holds, items) + (if holds(item) then 1 else 0)
  {
    if k == 0 {
      assert items[k := item][1..] == items[1..];
    } else {
      assert items[k := item][1..] == items[1..][k - 1 := item];
      TallyUpdate(holds, items[1..], k - 1, item);
    }
  }

  lemma {:induction false} TallyAppend<T(!new)>(holds: T -> bool, items: seq<T>, item: T)
    ensures Tally(holds, items + [item]) == Tally(holds, items) + (if holds(item) then 1 else 0)
  {
    if items == [] {
      assert items + [item] == [item];
    } else {
      assert (items + [item])[1..] == items[1..] + [item];
      TallyAppend(holds, items[1..], item);
    }
  }

  lemma {:induction false} TallyNone<T(!new)>(holds: T -> bool, items: seq<T>)
    requires forall k :: 0 <= k < |items| ==> !holds(items[k])
    ensures Tally(holds, items) == 0
  {
    if items != [] {
      TallyNone(holds, items[1..]);
    }
  }

  lemma {:induction false} TallyAtLeast<T(!new)>(holds: T -> bool, items: seq<T>, k: nat)
    requires k < |items| && holds(items[k])
    ensures Tally(holds, items) >= 1
  {
    if k > 0 {
      TallyAtLeast(holds, items[1..], k - 1);
    }
  }

  lemma {:induction false} TallyPair<T(!new)>(holds: T -> bool, items: seq<T>, j: nat, k: nat)
    requires j < k < |items| && holds(items[j]) && holds(items[k])
    ensures Tally(holds, items) >= 2
  {
    if j > 0 {
      TallyPair(holds, items[1..], j - 1, k - 1);
    } else {
      TallyAtLeast(holds, items[1..], k - 1);
    }
  }

  lemma {:induction false} TallySome<T(!new)>(holds: T -> bool, items: seq<T>) returns (k: nat)
    requires Tally(holds, items) > 0
    ensures k < |items| && holds(items[k])
  {
    if holds(items[0]) {
      k := 0;
    } else {
      var j := TallySome(holds, items[1..]);
      k := j + 1;
    }
  }

  function Guarding(i: nat): Task -> bool {
    (task: Task) => (task.Running? || task.Counting? || task.Leaving?) && task.i == i
  }

  function Uncounted(): Task -> bool { (task: Task) => task.Counting? }

  function Holding(i: nat): Pass -> bool {
    (pass: Pass) => (pass.Building? || pass.Built? || pass.Installed? || pass.Clearing?) && pass.i == i
  }

  function Unrecorded(): Pass -> bool { (pass: Pass) => pass.Installed? }

  function Success(): Event -> bool { (event: Event) => event.Reply? && event.ok }

  function Replacement(): Event -> bool { (event: Event) => event.Replace? }

  // ---------------------------------------------------------------- what every step keeps

  /** A slot's counter is the number of its live guards. */
  ghost predicate InflightInv(s: State) {
    forall i :: 0 <= i < |s.slots| ==> s.slots[i].inflight == Tally(Guarding(i), s.tasks) % USIZE
  }

  /** A slot's flag is set exactly while one pass works on it, or after such a pass was dropped. */
  ghost predicate FlagInv(s: State) {
    forall i :: 0 <= i < |s.slots| ==>
      Tally(Holding(i), s.passes) + One(i in s.orphaned) == One(s.slots[i].recycling)
  }

  /** The statistics agree with what happened, but for the events just about to be recorded. */
  ghost predicate CountInv(s: State) {
    && (s.recycleCount + Tally(Unrecorded(), s.passes)) % USIZE == Tally(Replacement(), s.log) % USIZE
    && (s.dispatchCount + Tally(Uncounted(), s.tasks)) % USIZE == Tally(Success(), s.log) % USIZE
  }

  lemma LowerIs(count: nat)
    requires count > 0
    ensures Lower(count % USIZE) == (count - 1) % USIZE
  {
    P.ModShift(count, USIZE - 1, USIZE);
    P.MultipleMod(count - 1, 1, USIZE);
  }

  /** A counter that moves with the guards it counts. */
  lemma CounterFollows(count: nat, guards: nat, count': nat, guards': nat)
    requires count == guards % USIZE
    requires || (guards' == guards && count' == count)
             || (guards' == guards + 1 && count' == Bump(count))
             || (guards' + 1 == guards && count' == Lower(count))
    ensures count' == guards' % USIZE
  {
    P.ModShift(guards, 1, USIZE);
    if guards > 0 {
      LowerIs(guards);
    }
  }

  /** A statistic and the events not yet recorded in it: an event happens, or is recorded. */
  lemma RecordFollows(count: nat, open: nat, total: nat, count': nat, open': nat, total': nat)
    requires (count + open) % USIZE == total % USIZE
    requires || (count' == count && open' == open && total' == total)
             || (count' == count && open' == open + 1 && total' == total + 1)
             || (count' == Bump(count) && open' + 1 == open && total' == total)
    ensures (count' + open') % USIZE == total' % USIZE
  {
    if open' == open + 1 {
      P.ModShift(count + open, 1, USIZE);
      P.ModShift(total, 1, USIZE);
    } else if open' + 1 == open {
      P.ModShift(count + 1, open', USIZE);
    }
  }

  predicate OfTask(step: Step) { step.TaskStep? || step.Answer? || step.Cancel? }

  predicate OfPass(step: Step) { !OfTask(step) && !step.Spawn? }

  function One(b: bool): nat { if b then 1 else 0 }

  /** What a step of a dispatch changes. */
  lemma TaskEffect(s: State, step: Step, s': State, i: nat)
    requires Formed(s) && OfTask(step) && Next(s, step) == Some(s') && i < |s.slots|
    ensures step.t < |s.tasks| && |s'.tasks| == |s.tasks| && s'.tasks == s.tasks[step.t := s'.tasks[step.t]]
    ensures s'.passes == s.passes && s'.recycleCount == s.recycleCount && s'.orphaned == s.orphaned
    ensures |s'.slots| == |s.slots|
    ensures s'.slots[i].recycling == s.slots[i].recycling && s'.slots[i].worker == s.slots[i].worker
    ensures var was, now := Guarding(i)(s.tasks[step.t]), Guarding(i)(s'.tasks[step.t]);
            s'.slots[i].inflight == if was == now then s.slots[i].inflight
                                    else if now then Bump(s.slots[i].inflight) else Lower(s.slots[i].inflight)
  {}

  lemma TaskRecords(s: State, step: Step, s': State)
    requires Formed(s) && OfTask(step) && Next(s, step) == Some(s')
    ensures step.t < |s.tasks| && |s'.tasks| == |s.tasks|
    ensures || s'.log == s.log
            || (|s'.log| == |s.log| + 1 && s'.log == s.log + [s'.log[|s.log|]] && !s'.log[|s.log|].Replace?)
    ensures var was, now := s.tasks[step.t].Counting?, s'.tasks[step.t].Counting?;
            && (now ==> !was && s'.log != s.log && Success()(s'.log[|s.log|]))
            && (was ==> s'.log == s.log)
            && (!now && s'.log != s.log ==> !Success()(s'.log[|s.log|]))
            && s'.dispatchCount == if was then Bump(s.dispatchCount) else s.dispatchCount
  {}

  /** What a step of a recycle pass changes. */
  lemma PassEffect(s: State, step: Step, s': State, i: nat)
    requires Formed(s) && OfPass(step) && Next(s, step) == Some(s') && i < |s.slots|
    ensures step.p < |s.passes| && |s'.passes| == |s.passes| && s'.passes == s.passes[step.p := s'.passes[step.p]]
    ensures s'.tasks == s.tasks && s'.dispatchCount == s.dispatchCount && |s'.slots| == |s.slots|
    ensures s'.slots[i].inflight == s.slots[i].inflight
    ensures var was, now := Holding(i)(s.passes[step.p]), Holding(i)(s'.passes[step.p]);
            && (step.Abandon? && was ==> !now && i in s'.orphaned && s'.slots[i].recycling == s.slots[i].recycling)
            && (!(step.Abandon? && was) ==>
                  && (i in s'.orphaned <==> i in s.orphaned)
                  && (was == now ==> s'.slots[i].recycling == s.slots[i].recycling)
                  && (was && !now ==> !s'.slots[i].recycling)
                  && (now && !was ==> !s.slots[i].recycling && s'.slots[i].recycling))
            && (s'.slots[i].worker != s.slots[i].worker ==> was)
  {}

  lemma PassRecords(s: State, step: Step, s': State)
    requires Formed(s) && OfPass(step) && Next(s, step) == Some(s')
    ensures step.p < |s.passes| && |s'.passes| == |s.passes|
    ensures || s'.log == s.log
            || (|s'.log| == |s.log| + 1 && s'.log == s.log + [s'.log[|s.log|]] && s'.log[|s.log|].Replace?)
    ensures var was, now := s.passes[step.p].Installed?, s'.passes[step.p].Installed?;
            && (now <==> s'.log != s.log)
            && (was ==> !now)
            && s'.recycleCount == if was then Bump(s.recycleCount) else s.recycleCount
  {}

  lemma InflightKept(s: State, step: Step, s': State, i: nat)
    requires Formed(s) && InflightInv(s) && Next(s, step) == Some(s') && i < |s.slots|
    ensures |s'.slots| == |s.slots| && s'.slots[i].inflight == Tally(Guarding(i), s'.tasks) % USIZE
  {
    if OfTask(step) {
      TaskEffect(s, step, s', i);
      TallyUpdate(Guarding(i), s.tasks, step.t, s'.tasks[step.t]);
      CounterFollows(s.slots[i].inflight, Tally(Guarding(i), s.tasks),
                     s'.slots[i].inflight, Tally(Guarding(i), s'.tasks));
    } else if step.Spawn? {
      TallyAppend(Guarding(i), s.tasks, New);
    } else {
      PassEffect(s, step, s', i);
    }
  }

  lemma FlagKept(s: State, step: Step, s': State, i: nat)
    requires Formed(s) && FlagInv(s) && Next(s, step) == Some(s') && i < |s.slots|
    ensures |s'.slots| == |s.slots|
    ensures Tally(Holding(i), s'.passes) + One(i in s'.orphaned) == One(s'.slots[i].recycling)
  {
    if OfTask(step) {
      TaskEffect(s, step, s', i);
    } else if OfPass(step) {
      PassEffect(s, step, s', i);
      TallyUpdate(Holding(i), s.passes, step.p, s'.passes[step.p]);
      if Holding(i)(s.passes[step.p]) {
        TallyAtLeast(Holding(i), s.passes, step.p);
      }
    }
  }

  lemma RecycleCountKept(s: State, step: Step, s': State)
    requires Formed(s) && CountInv(s) && Next(s, step) == Some(s')
    ensures (s'.recycleCount + Tally(Unrecorded(), s'.passes)) % USIZE == Tally(Replacement(), s'.log) % USIZE
  {
    if OfTask(step) {
      TaskEffect(s, step, s', 0);
      TaskRecords(s, step, s');
    } else if OfPass(step) {
      PassEffect(s, step, s', 0);
      PassRecords(s, step, s');
      TallyUpdate(Unrecorded(), s.passes, step.p, s'.passes[step.p]);
    }
    if s'.log != s.log {
      TallyAppend(Replacement(), s.log, s'.log[|s.log|]);
    }
    RecordFollows(s.recycleCount, Tally(Unrecorded(), s.passes), Tally(Replacement(), s.log),
                  s'.recycleCount, Tally(Unrecorded(), s'.passes), Tally(Replacement(), s'.log));
  }

  lemma DispatchTallies(s: State, step: Step, s': State)
    requires Formed(s) && Next(s, step) == Some(s')
    ensures var (open, total) := (Tally(Uncounted(), s.tasks), Tally(Success(), s.log));
            var (open', total') := (Tally(Uncounted(), s'.tasks), Tally(Success(), s'.log));
            || (s'.dispatchCount == s.dispatchCount && open' == open && total' == total)
            || (s'.dispatchCount == s.dispatchCount && open' == open + 1 && total' == total + 1)
            || (s'.dispatchCount == Bump(s.dispatchCount) && open' + 1 == open && total' == total)
  {
    if OfTask(step) {
      TaskEffect(s, step, s', 0);
      TaskRecords(s, step, s');
      TallyUpdate(Uncounted(), s.tasks, step.t, s'.tasks[step.t]);
    } else if OfPass(step) {
      PassEffect(s, step, s', 0);
      PassRecords(s, step, s');
    } else {
      TallyAppend(Uncounted(), s.tasks, New);
    }
    if s'.log != s.log {
      TallyAppend(Success(), s.log, s'.log[|s.log|]);
    }
  }

  lemma DispatchCountKept(s: State, step: Step, s': State)
    requires Formed(s) && CountInv(s) && Next(s, step) == Some(s')
    ensures (s'.dispatchCount + Tally(Uncounted(), s'.tasks)) % USIZE == Tally(Success(), s'.log) % USIZE
  {
    DispatchTallies(s, step, s');
    RecordFollows(s.dispatchCount, Tally(Uncounted(), s.tasks), Tally(Success(), s.log),
                  s'.dispatchCount, Tally(Uncounted(), s'.tasks), Tally(Success(), s'.log));
  }

  // ---------------------------------------------------------------- which worker serves a dispatch

  /** The worker installed in slot i after the events of `log`. */
  function WorkerAfter(boot: seq<Worker>, log: seq<Event>, i: nat): Worker
    requires i < |boot|
  {
    if log == [] then boot[i] else
      var last := log[|log| - 1];
      if last.Replace? && last.i == i then last.worker else WorkerAfter(boot, log[..|log| - 1], i)
  }

  predicate SnapsAt(boot: seq<Worker>, log: seq<Event>, p: nat, t: nat, i: nat, w: Worker) {
    p < |log| && i < |boot| && log[p] == Snap(t, i, w) && WorkerAfter(boot, log[..p], i) == w
  }

  /** Dispatch t took worker w from slot i while w was installed there. */
  ghost predicate Took(boot: seq<Worker>, log: seq<Event>, t: nat, i: nat, w: Worker) {
    exists p: nat :: SnapsAt(boot, log, p, t, i, w)
  }

  predicate HasWorker(task: Task) {
    task.Snapped? || task.Running? || task.Counting? || task.Leaving? || task.Over?
  }

  ghost predicate InstalledInv(s: State)
    requires Formed(s)
  {
    forall i :: 0 <= i < |s.slots| ==> s.slots[i].worker == WorkerAfter(s.boot, s.log, i)
  }

  ghost predicate TookInv(s: State) {
    && (forall t :: 0 <= t < |s.tasks| && HasWorker(s.tasks[t]) ==>
          Took(s.boot, s.log, t, s.tasks[t].i, s.tasks[t].worker))
    && (forall q :: 0 <= q < |s.log| && s.log[q].Reply? ==> ReplyTook(s.boot, s.log, q))
  }

  ghost predicate ReplyTook(boot: seq<Worker>, log: seq<Event>, q: nat)
    requires q < |log| && log[q].Reply?
  {
    exists i: nat :: Took(boot, log[..q], log[q].task, i, log[q].worker)
  }

  /** A dispatch takes a worker once. */
  ghost predicate OnceInv(s: State) {
    && (forall p :: 0 <= p < |s.log| && s.log[p].Snap? ==>
          s.log[p].task < |s.tasks| && HasWorker(s.tasks[s.log[p].task]))
    && (forall p, q :: 0 <= p < q < |s.log| && s.log[p].Snap? && s.log[q].Snap? ==> s.log[p].task != s.log[q].task)
  }

  lemma TookLater(boot: seq<Worker>, log: seq<Event>, event: Event, t: nat, i: nat, w: Worker)
    requires Took(boot, log, t, i, w)
    ensures Took(boot, log + [event], t, i, w)
  {
    var p: nat :| SnapsAt(boot, log, p, t, i, w);
    assert (log + [event])[..p] == log[..p];
    assert SnapsAt(boot, log + [event], p, t, i, w);
  }

  lemma ReplyTookLater(boot: seq<Worker>, log: seq<Event>, event: Event, q: nat)
    requires q < |log| && log[q].Reply? && ReplyTook(boot, log, q)
    ensures ReplyTook(boot, log + [event], q)
  {
    var i: nat :| Took(boot, log[..q], log[q].task, i, log[q].worker);
    assert (log + [event])[..q] == log[..q];
    assert Took(boot, (log + [event])[..q], (log + [event])[q].task, i, (log + [event])[q].worker);
  }

  lemma TaskLogs(s: State, step: Step, s': State)
    requires Formed(s) && OfTask(step) && Next(s, step) == Some(s')
    ensures step.t < |s.tasks| && |s'.tasks| == |s.tasks| && s'.tasks == s.tasks[step.t := s'.tasks[step.t]]
    ensures s'.boot == s.boot
    ensures var was, now := s.tasks[step.t], s'.tasks[step.t];
            && (HasWorker(was) ==> HasWorker(now) && now.i == was.i && now.worker == was.worker)
            && (HasWorker(was) ==> s'.log == s.log || exists ok :: s'.log == s.log + [Reply(step.t, was.worker, ok)])
            && (!HasWorker(was) && HasWorker(now) ==>
                  && now.i < |s.slots| && now.worker == s.slots[now.i].worker
                  && s'.log == s.log + [Snap(step.t, now.i, now.worker)])
            && (!HasWorker(now) ==> s'.log == s.log)
  {
    if step.Answer? {
      assert s'.log == s.log + [Reply(step.t, s.tasks[step.t].worker, step.ok)];
    }
  }

  lemma PassLogs(s: State, step: Step, s': State)
    requires Formed(s) && OfPass(step) && Next(s, step) == Some(s')
    ensures s'.tasks == s.tasks && s'.boot == s.boot
    ensures if s'.log == s.log then forall i :: 0 <= i < |s.slots| ==> s'.slots[i].worker == s.slots[i].worker
            else exists i, w :: 0 <= i < |s.slots| && s'.log == s.log + [Replace(i, w)]
                                && s'.slots[i].worker == w
                                && forall j :: 0 <= j < |s.slots| && j != i ==> s'.slots[j].worker == s.slots[j].worker
  {
    if step.PassStep? && s.passes[step.p].Built? {
      assert s'.log == s.log + [Replace(s.passes[step.p].i, s.passes[step.p].built)];
    }
  }

  lemma InstalledKept(s: State, step: Step, s': State)
    requires Formed(s) && InstalledInv(s) && Next(s, step) == Some(s')
    ensures Formed(s') && InstalledInv(s')
  {
    forall i | 0 <= i < |s'.slots| ensures s'.slots[i].worker == WorkerAfter(s'.boot, s'.log, i) {
      if OfTask(step) {
        TaskEffect(s, step, s', i);
        TaskLogs(s, step, s');
      } else if OfPass(step) {
        PassLogs(s, step, s');
      }
      if s'.log != s.log {
        assert s'.log[..|s'.log| - 1] == s.log;
      }
    }
  }

  lemma TookKept(s: State, step: Step, s': State)
    requires Formed(s) && InstalledInv(s) && TookInv(s) && Next(s, step) == Some(s')
    ensures TookInv(s')
  {
    if OfTask(step) {
      TaskLogs(s, step, s');
    } else if OfPass(step) {
      PassLogs(s, step, s');
    }
    forall t | 0 <= t < |s'.tasks| && HasWorker(s'.tasks[t])
      ensures Took(s'.boot, s'.log, t, s'.tasks[t].i, s'.tasks[t].worker)
    {
      if t < |s.tasks| && HasWorker(s.tasks[t]) {
        if s'.log != s.log {
          TookLater(s.boot, s.log, s'.log[|s.log|], t, s.tasks[t].i, s.tasks[t].worker);
        }
      } else {
        assert s'.log[..|s.log|] == s.log;
        assert SnapsAt(s'.boot, s'.log, |s.log|, t, s'.tasks[t].i, s'.tasks[t].worker);
      }
    }
    forall q | 0 <= q < |s'.log| && s'.log[q].Reply? ensures ReplyTook(s'.boot, s'.log, q) {
      if q < |s.log| {
        if s'.log != s.log {
          ReplyTookLater(s.boot, s.log, s'.log[|s.log|], q);
        }
      } else {
        assert s'.log[..q] == s.log;
        assert Took(s.boot, s.log, step.t, s.tasks[step.t].i, s.tasks[step.t].worker);
      }
    }
  }

  lemma OnceKept(s: State, step: Step, s': State)
    requires Formed(s) && OnceInv(s) && Next(s, step) == Some(s')
    ensures OnceInv(s')
  {
    if OfTask(step) {
      TaskLogs(s, step, s');
    } else if OfPass(step) {
      PassLogs(s, step, s');
    }
  }

  // ---------------------------------------------------------------- the pick

  function Loads(s: State): (loads: seq<nat>)
    ensures |loads| == |s.slots| && forall i :: 0 <= i < |s.slots| ==> loads[i] == s.slots[i].inflight
  {
    seq(|s.slots|, i requires 0 <= i < |s.slots| => s.slots[i].inflight)
  }

  lemma FirstSampled(s: State, t: nat)
    requires Formed(s) && |s.slots| > 1 && t < |s.tasks| && s.tasks[t] == New
    ensures Next(s, TaskStep(t)) == Some(s.(tasks := s.tasks[t := SampledOne(P.First(|s.slots|, s.a))], a := Bump(s.a)))
  {}

  lemma SecondSampled(s: State, t: nat, x: nat)
    requires Formed(s) && t < |s.tasks| && s.tasks[t] == SampledOne(x)
    ensures Next(s, TaskStep(t))
            == Some(s.(tasks := s.tasks[t := SampledTwo(x, P.Second(|s.slots|, x, s.b))],
                       b := (s.b + P.STRIDE_B) % USIZE))
  {}

  lemma SecondOffFirst(n: nat, a: nat, b: nat)
    requires n > 0
    ensures P.Second(n, P.First(n, a), b) == P.Second(n, a, b)
  {
    assert a % n % n == a % n;
  }

  lemma ChooseIs(s: State)
    requires |s.slots| > 1
    ensures var (x, y) := (P.First(|s.slots|, s.a), P.Second(|s.slots|, s.a, s.b));
            P.Choose(Loads(s), s.a, s.b) == if s.slots[x].inflight <= s.slots[y].inflight then x else y
  {
    P.SamplesDiffer(|s.slots|, s.a, s.b);
  }

  /** What a pick leaves: two counters advanced, and the sample that carries no more. */
  function PickedOf(s: State, t: nat, x: nat, y: nat): State
    requires t < |s.tasks| && x < |s.slots| && y < |s.slots|
  {
    s.(tasks := s.tasks[t := Picked(if s.slots[x].inflight <= s.slots[y].inflight then x else y)])
  }

  lemma BothSampled(s: State, t: nat, x: nat, y: nat, s': State)
    requires Formed(s) && |s.slots| > 1 && t < |s.tasks| && s.tasks[t] == New
    requires x == P.First(|s.slots|, s.a) && y == P.Second(|s.slots|, x, s.b)
    requires s' == s.(tasks := s.tasks[t := SampledTwo(x, y)], a := Bump(s.a), b := (s.b + P.STRIDE_B) % USIZE)
    ensures Run(s, [TaskStep(t), TaskStep(t)]) == Some(s')
  {
    var s1 := s.(tasks := s.tasks[t := SampledOne(x)], a := Bump(s.a));
    FirstSampled(s, t);
    RunOne(s, TaskStep(t));
    SecondSampled(s1, t, x);
    assert s1.tasks[t := SampledTwo(x, y)] == s'.tasks;
    RunStep(s, s1, [TaskStep(t)], TaskStep(t));
    assert [TaskStep(t)] + [TaskStep(t)] == [TaskStep(t), TaskStep(t)];
  }

  lemma LoadsCompared(s: State, t: nat, x: nat, y: nat)
    requires Formed(s) && t < |s.tasks| && x < |s.slots| && y < |s.slots| && s.tasks[t] == SampledTwo(x, y)
    ensures Run(s, [TaskStep(t), TaskStep(t)]) == Some(PickedOf(s, t, x, y))
  {
    var s1 := s.(tasks := s.tasks[t := Compared(x, y, s.slots[x].inflight)]);
    RunOne(s, TaskStep(t));
    assert TaskFormed(|s.slots|, s.tasks[t]);
    assert s1.tasks[t := PickedOf(s, t, x, y).tasks[t]] == PickedOf(s, t, x, y).tasks;
    RunStep(s, s1, [TaskStep(t)], TaskStep(t));
    assert [TaskStep(t)] + [TaskStep(t)] == [TaskStep(t), TaskStep(t)];
  }

  /** With nothing in between, the steps of a pick are the sequential picker's choice and its counters. */
  lemma UninterruptedPick(s: State, t: nat)
    requires Formed(s) && |s.slots| > 1 && t < |s.tasks| && s.tasks[t] == New
    ensures var r := Run(s, [TaskStep(t), TaskStep(t), TaskStep(t), TaskStep(t)]);
            && r.Some? && r.value.tasks == s.tasks[t := Picked(P.Choose(Loads(s), s.a, s.b))]
            && r.value.a == Bump(s.a) && r.value.b == (s.b + P.STRIDE_B) % USIZE && r.value.slots == s.slots
  {
    var (x, y) := (P.First(|s.slots|, s.a), P.Second(|s.slots|, s.a, s.b));
    P.SamplesDiffer(|s.slots|, s.a, s.b);
    SecondOffFirst(|s.slots|, s.a, s.b);
    ChooseIs(s);
    PickRuns(s, t, x, y);
    assert [TaskStep(t), TaskStep(t)] + [TaskStep(t), TaskStep(t)]
        == [TaskStep(t), TaskStep(t), TaskStep(t), TaskStep(t)];
  }

  lemma PickRuns(s: State, t: nat, x: nat, y: nat)
    requires Formed(s) && |s.slots| > 1 && t < |s.tasks| && s.tasks[t] == New && x < |s.slots| && y < |s.slots|
    requires x == P.First(|s.slots|, s.a) && y == P.Second(|s.slots|, x, s.b)
    ensures Run(s, [TaskStep(t), TaskStep(t)] + [TaskStep(t), TaskStep(t)])
         == Some(PickedOf(s, t, x, y).(a := Bump(s.a), b := (s.b + P.STRIDE_B) % USIZE))
  {
    var two := [TaskStep(t), TaskStep(t)];
    var s1 := s.(tasks := s.tasks[t := SampledTwo(x, y)], a := Bump(s.a), b := (s.b + P.STRIDE_B) % USIZE);
    BothSampled(s, t, x, y, s1);
    LoadsCompared(s1, t, x, y);
    RunBoth(s, two, s1, two, PickedOf(s1, t, x, y));
    PickedSame(s, t, x, y, s1);
  }

  lemma PickedSame(s: State, t: nat, x: nat, y: nat, s1: State)
    requires t < |s.tasks| && x < |s.slots| && y < |s.slots|
    requires s1 == s.(tasks := s.tasks[t := SampledTwo(x, y)], a := s1.a, b := s1.b)
    ensures PickedOf(s1, t, x, y) == PickedOf(s, t, x, y).(a := s1.a, b := s1.b)
  {
    assert PickedOf(s1, t, x, y).tasks == PickedOf(s, t, x, y).tasks;
  }

  lemma RunBoth(s: State, first: seq<Step>, s1: State, rest: seq<Step>, s2: State)
    requires Formed(s) && Run(s, first) == Some(s1) && Run(s1, rest) == Some(s2)
    ensures Run(s, first + rest) == Some(s2)
  {
    RunConcat(s, first, rest);
  }

  // ---------------------------------------------------------------- a dispatch and a pass with nothing in between

  lemma {:induction false} RunConcat(s: State, first: seq<Step>, rest: seq<Step>)
    requires Formed(s) && Run(s, first).Some?
    ensures Run(s, first + rest) == Run(Run(s, first).value, rest)
    decreases |first|
  {
    if first == [] {
      assert first + rest == rest;
    } else {
      assert (first + rest)[1..] == first[1..] + rest;
      RunConcat(Next(s, first[0]).value, first[1..], rest);
    }
  }

  lemma RunOne(s: State, step: Step)
    requires Formed(s)
    ensures Run(s, [step]) == Next(s, step)
  {
    var r := Next(s, step);
    assert [step][1..] == [];
    if r.Some? {
      assert Run(r.value, []) == r;
    }
  }

  lemma RunStep(s: State, s1: State, first: seq<Step>, step: Step)
    requires Formed(s) && Run(s, first) == Some(s1)
    ensures Run(s, first + [step]) == Next(s1, step)
  {
    RunConcat(s, first, [step]);
    RunOne(s1, step);
  }

  /** The worker's answer, or the loss of the one who waits for it. */
  function EndingStep(t: nat, outcome: Outcome): Step {
    if outcome == Cancelled then Cancel(t) else Answer(t, outcome == Answered)
  }

  /** Worker taken, guard made, answer or cancellation, success counted, guard dropped. */
  function DispatchSteps(t: nat, outcome: Outcome): seq<Step> {
    [TaskStep(t), TaskStep(t), EndingStep(t, outcome)]
    + (if outcome == Answered then [TaskStep(t)] else []) + [TaskStep(t)]
  }

  /** What the dispatch leaves: the worker of its slot asked once, the success counted, and no guard. */
  function Dispatched(s: State, t: nat, outcome: Outcome): State
    requires t < |s.tasks| && s.tasks[t].Picked? && s.tasks[t].i < |s.slots|
  {
    var i := s.tasks[t].i;
    var w := s.slots[i].worker;
    s.(tasks := s.tasks[t := Over(i, w, outcome)],
       dispatchCount := if outcome == Answered then Bump(s.dispatchCount) else s.dispatchCount,
       log := s.log + [Snap(t, i, w)] + (if outcome == Cancelled then [] else [Reply(t, w, outcome == Answered)]))
  }

  /** The guard is made over the worker just taken. */
  lemma TakesWorker(s: State, t: nat, s': State)
    requires Formed(s) && t < |s.tasks| && s.tasks[t].Picked?
    requires s.tasks[t].i < |s.slots|
    requires var i := s.tasks[t].i;
      s' == s.(tasks := s.tasks[t := Running(i, s.slots[i].worker)], log := s.log + [Snap(t, i, s.slots[i].worker)],
               slots := s.slots[i := s.slots[i].(inflight := Bump(s.slots[i].inflight))])
    ensures Run(s, [TaskStep(t), TaskStep(t)]) == Some(s')
  {
    RunOne(s, TaskStep(t));
    var s1 := Next(s, TaskStep(t)).value;
    assert s1.tasks[t := s'.tasks[t]] == s'.tasks;
    RunStep(s, s1, [TaskStep(t)], TaskStep(t));
    assert [TaskStep(t)] + [TaskStep(t)] == [TaskStep(t), TaskStep(t)];
  }

  lemma Concludes(s: State, t: nat, i: nat, w: Worker, outcome: Outcome, s': State)
    requires Formed(s) && t < |s.tasks| && s.tasks[t] == Running(i, w) && i < |s.slots|
    requires s' == s.(tasks := s.tasks[t := Leaving(i, w, outcome)],
                      dispatchCount := if outcome == Answered then Bump(s.dispatchCount) else s.dispatchCount,
                      log := s.log + (if outcome == Cancelled then [] else [Reply(t, w, outcome == Answered)]))
    ensures Run(s, [EndingStep(t, outcome)] + (if outcome == Answered then [TaskStep(t)] else [])) == Some(s')
  {
    RunOne(s, EndingStep(t, outcome));
    var s1 := Next(s, EndingStep(t, outcome)).value;
    if outcome == Answered {
      assert s1.tasks[t := s'.tasks[t]] == s'.tasks;
      RunStep(s, s1, [EndingStep(t, outcome)], TaskStep(t));
    } else {
      assert s.log + [] == s.log;
      assert [EndingStep(t, outcome)] + [] == [EndingStep(t, outcome)];
    }
  }

  lemma LowerUndoesBump(count: nat)
    requires count < USIZE
    ensures Lower(Bump(count)) == count
  {
    if count + 1 == USIZE {
      assert Bump(count) == 0;
      assert (0 + USIZE - 1) % USIZE == count;
    } else {
      assert Bump(count) == count + 1;
      assert (count + USIZE) % USIZE == count;
    }
  }

  lemma Leaves(s: State, t: nat, i: nat, w: Worker, outcome: Outcome, before: Slot, s': State)
    requires Formed(s) && t < |s.tasks| && s.tasks[t] == Leaving(i, w, outcome) && i < |s.slots|
    requires before.inflight < USIZE && s.slots[i] == before.(inflight := Bump(before.inflight))
    requires s' == s.(tasks := s.tasks[t := Over(i, w, outcome)], slots := s.slots[i := before])
    ensures Next(s, TaskStep(t)) == Some(s')
  {
    LowerUndoesBump(before.inflight);
  }

  /** With nothing in between, a dispatch asks the worker installed in its slot, once, and leaves no trace in it. */
  lemma UninterruptedDispatch(s: State, t: nat, outcome: Outcome)
    requires Formed(s) && t < |s.tasks| && s.tasks[t].Picked? && s.tasks[t].i < |s.slots|
    requires s.slots[s.tasks[t].i].inflight < USIZE
    ensures Run(s, DispatchSteps(t, outcome)) == Some(Dispatched(s, t, outcome))
  {
    var i := s.tasks[t].i;
    var slot := s.slots[i];
    var w := slot.worker;
    var s1 := s.(tasks := s.tasks[t := Running(i, w)], log := s.log + [Snap(t, i, w)],
                 slots := s.slots[i := slot.(inflight := Bump(slot.inflight))]);
    TakesWorker(s, t, s1);
    var s2 := s1.(tasks := s1.tasks[t := Leaving(i, w, outcome)],
                  dispatchCount := if outcome == Answered then Bump(s.dispatchCount) else s.dispatchCount,
                  log := s1.log + (if outcome == Cancelled then [] else [Reply(t, w, outcome == Answered)]));
    Concludes(s1, t, i, w, outcome, s2);
    var s3 := Dispatched(s, t, outcome);
    assert s2.tasks[t := s3.tasks[t]] == s3.tasks && s2.slots[i := slot] == s3.slots;
    Leaves(s2, t, i, w, outcome, slot, s3);
    var conclude := [EndingStep(t, outcome)] + (if outcome == Answered then [TaskStep(t)] else []);
    RunConcat(s, [TaskStep(t), TaskStep(t)], conclude);
    RunStep(s, s2, [TaskStep(t), TaskStep(t)] + conclude, TaskStep(t));
    assert [TaskStep(t), TaskStep(t)] + conclude + [TaskStep(t)] == DispatchSteps(t, outcome);
  }

  /** What a pass finds at a slot: a worker to keep, one to replace with what was built, or a build that fails. */
  datatype Verdict = Keep | Fresh(worker: Worker) | Fails

  predicate Renews(slot: Slot, verdict: Verdict) { verdict.Fresh? && !slot.recycling }

  function Renewed(slot: Slot, verdict: Verdict): Slot {
    if Renews(slot, verdict) then slot.(worker := verdict.worker) else slot
  }

  function AfterSlot(s: State, p: nat, i: nat, verdict: Verdict): State
    requires p < |s.passes| && i < |s.slots|
  {
    var renews := Renews(s.slots[i], verdict);
    s.(passes := s.passes[p := At(i + 1)], slots := s.slots[i := Renewed(s.slots[i], verdict)],
       recycleCount := if renews then Bump(s.recycleCount) else s.recycleCount,
       log := if renews then s.log + [Replace(i, verdict.worker)] else s.log)
  }

  function SlotSteps(p: nat, slot: Slot, verdict: Verdict): seq<Step> {
    [PassStep(p), Judge(p, verdict != Keep)]
    + (if verdict == Keep then [] else [PassStep(p)])
    + (if verdict == Keep || slot.recycling then []
       else if verdict == Fails then [BuildErr(p), PassStep(p)]
       else [BuildOk(p, verdict.worker), PassStep(p), PassStep(p), PassStep(p)])
  }

  lemma JudgedAt(s: State, p: nat, i: nat, recycle: bool, s': State)
    requires Formed(s) && p < |s.passes| && i < |s.slots| && s.passes[p] == At(i)
    requires s' == s.(passes := s.passes[p := if recycle then Wanting(i) else At(i + 1)])
    ensures Run(s, [PassStep(p), Judge(p, recycle)]) == Some(s')
  {
    RunOne(s, PassStep(p));
    var s1 := Next(s, PassStep(p)).value;
    assert s1.passes[p := s'.passes[p]] == s'.passes;
    RunStep(s, s1, [PassStep(p)], Judge(p, recycle));
    assert [PassStep(p)] + [Judge(p, recycle)] == [PassStep(p), Judge(p, recycle)];
  }

  lemma BuildsFresh(s: State, p: nat, i: nat, w: Worker, s': State)
    requires Formed(s) && p < |s.passes| && i < |s.slots| && s.passes[p] == Building(i) && s.slots[i].recycling
    requires s' == s.(passes := s.passes[p := At(i + 1)], recycleCount := Bump(s.recycleCount),
                      slots := s.slots[i := Slot(w, s.slots[i].inflight, false)], log := s.log + [Replace(i, w)])
    ensures Run(s, [BuildOk(p, w), PassStep(p), PassStep(p), PassStep(p)]) == Some(s')
  {
    RunOne(s, BuildOk(p, w));
    var s1 := s.(passes := s.passes[p := Built(i, w)]);
    var s2 := s.(passes := s.passes[p := Installed(i)], slots := s.slots[i := s.slots[i].(worker := w)],
                 log := s.log + [Replace(i, w)]);
    assert s1.passes[p := Installed(i)] == s2.passes;
    RunStep(s, s1, [BuildOk(p, w)], PassStep(p));
    var s3 := s2.(passes := s2.passes[p := Clearing(i)], recycleCount := Bump(s.recycleCount));
    RunStep(s, s2, [BuildOk(p, w)] + [PassStep(p)], PassStep(p));
    assert s3.passes[p := At(i + 1)] == s'.passes && s3.slots[i := s'.slots[i]] == s'.slots;
    RunStep(s, s3, [BuildOk(p, w)] + [PassStep(p)] + [PassStep(p)], PassStep(p));
    assert [BuildOk(p, w)] + [PassStep(p)] + [PassStep(p)] + [PassStep(p)]
        == [BuildOk(p, w), PassStep(p), PassStep(p), PassStep(p)];
  }

  lemma BuildFails(s: State, p: nat, i: nat, s': State)
    requires Formed(s) && p < |s.passes| && i < |s.slots| && s.passes[p] == Building(i) && s.slots[i].recycling
    requires s' == s.(passes := s.passes[p := At(i + 1)], slots := s.slots[i := s.slots[i].(recycling := false)])
    ensures Run(s, [BuildErr(p), PassStep(p)]) == Some(s')
  {
    RunOne(s, BuildErr(p));
    var s1 := s.(passes := s.passes[p := Clearing(i)]);
    assert s1.passes[p := At(i + 1)] == s'.passes;
    RunStep(s, s1, [BuildErr(p)], PassStep(p));
    assert [BuildErr(p)] + [PassStep(p)] == [BuildErr(p), PassStep(p)];
  }

  /** A pass at one slot: it keeps the worker it judges well, one that is being recycled, and one it cannot replace. */
  lemma SlotPassed(s: State, p: nat, i: nat, verdict: Verdict)
    requires Formed(s) && p < |s.passes| && i < |s.slots| && s.passes[p] == At(i)
    ensures Run(s, SlotSteps(p, s.slots[i], verdict)) == Some(AfterSlot(s, p, i, verdict))
  {
    var slot, last := s.slots[i], AfterSlot(s, p, i, verdict);
    var head := [PassStep(p), Judge(p, verdict != Keep)];
    assert s.slots[i := slot] == s.slots;
    if verdict == Keep {
      JudgedAt(s, p, i, false, last);
      assert head + [] + [] == head;
    } else {
      var s1 := s.(passes := s.passes[p := Wanting(i)]);
      JudgedAt(s, p, i, true, s1);
      RunStep(s, s1, head, PassStep(p));
      if slot.recycling {
        assert s1.passes[p := At(i + 1)] == last.passes;
        assert head + [PassStep(p)] + [] == head + [PassStep(p)];
      } else {
        SlotRebuilt(s, p, i, verdict, head + [PassStep(p)]);
      }
    }
  }

  lemma SlotRebuilt(s: State, p: nat, i: nat, verdict: Verdict, head: seq<Step>)
    requires Formed(s) && p < |s.passes| && i < |s.slots| && !s.slots[i].recycling && verdict != Keep
    requires Run(s, head) == Next(s.(passes := s.passes[p := Wanting(i)]), PassStep(p))
    ensures Run(s, head + (if verdict == Fails then [BuildErr(p), PassStep(p)]
                           else [BuildOk(p, verdict.worker), PassStep(p), PassStep(p), PassStep(p)]))
         == Some(AfterSlot(s, p, i, verdict))
  {
    var slot, last := s.slots[i], AfterSlot(s, p, i, verdict);
    var s1 := s.(passes := s.passes[p := Building(i)], slots := s.slots[i := slot.(recycling := true)]);
    assert s.passes[p := Wanting(i)][p := Building(i)] == s1.passes;
    assert s1.passes[p := At(i + 1)] == last.passes;
    assert s1.slots[i := last.slots[i]] == last.slots;
    if verdict == Fails {
      BuildFails(s1, p, i, last);
      RunConcat(s, head, [BuildErr(p), PassStep(p)]);
    } else {
      BuildsFresh(s1, p, i, verdict.worker, last);
      RunConcat(s, head, [BuildOk(p, verdict.worker), PassStep(p), PassStep(p), PassStep(p)]);
    }
  }

  /** The state after the first n slots of a pass, and the steps that lead there. */
  function AfterSlots(s: State, p: nat, verdicts: seq<Verdict>, n: nat): (r: State)
    requires Formed(s) && p < |s.passes| && n <= |s.slots| == |verdicts|
    ensures Formed(r) && |r.slots| == |s.slots| && |r.passes| == |s.passes| && r.passes[p] == At(n)
    ensures forall j :: n <= j < |s.slots| ==> r.slots[j] == s.slots[j]
  {
    if n == 0 then SetPass(s, p, At(0)) else AfterSlot(AfterSlots(s, p, verdicts, n - 1), p, n - 1, verdicts[n - 1])
  }

  function SlotsSteps(p: nat, slots: seq<Slot>, verdicts: seq<Verdict>, n: nat): seq<Step>
    requires n <= |slots| == |verdicts|
  {
    if n == 0 then [BeginPass(p)]
    else SlotsSteps(p, slots, verdicts, n - 1) + SlotSteps(p, slots[n - 1], verdicts[n - 1])
  }

  lemma OneMoreSlot(s: State, steps: seq<Step>, s1: State, p: nat, i: nat, verdict: Verdict)
    requires Formed(s) && Run(s, steps) == Some(s1)
    requires p < |s1.passes| && i < |s1.slots| && s1.passes[p] == At(i)
    ensures Run(s, steps + SlotSteps(p, s1.slots[i], verdict)) == Some(AfterSlot(s1, p, i, verdict))
  {
    SlotPassed(s1, p, i, verdict);
    RunConcat(s, steps, SlotSteps(p, s1.slots[i], verdict));
  }

  predicate Passes(s: State, p: nat, verdicts: seq<Verdict>, n: nat)
    requires Formed(s) && p < |s.passes| && n <= |s.slots| == |verdicts|
  {
    Run(s, SlotsSteps(p, s.slots, verdicts, n)) == Some(AfterSlots(s, p, verdicts, n))
  }

  lemma NoSlotPassed(s: State, p: nat, verdicts: seq<Verdict>)
    requires Formed(s) && p < |s.passes| && s.passes[p] == Resting && |s.slots| == |verdicts|
    ensures PassesTo(s, p, verdicts)(0)
  {
    RunOne(s, BeginPass(p));
  }

  ghost predicate Keeps(p: nat -> bool, i: nat) { p(i) ==> p(i + 1) }

  lemma {:induction false} Induction(p: nat -> bool, i: nat)
    requires p(0) && forall j: nat :: j < i ==> Keeps(p, j)
    ensures p(i)
  {
    if i > 0 {
      Induction(p, i - 1);
      assert Keeps(p, i - 1);
    }
  }

  function PassesTo(s: State, p: nat, verdicts: seq<Verdict>): nat -> bool
    requires Formed(s) && p < |s.passes| && |s.slots| == |verdicts|
  {
    (k: nat) => k <= |s.slots| && Passes(s, p, verdicts, k)
  }

  lemma SlotsKeep(s: State, p: nat, verdicts: seq<Verdict>, k: nat)
    requires Formed(s) && p < |s.passes| && k < |s.slots| == |verdicts|
    ensures Keeps(PassesTo(s, p, verdicts), k)
  {
    if PassesTo(s, p, verdicts)(k) {
      SlotsNext(s, p, verdicts, k);
    }
  }

  lemma SlotsPassed(s: State, p: nat, verdicts: seq<Verdict>, n: nat)
    requires Formed(s) && p < |s.passes| && s.passes[p] == Resting && n <= |s.slots| == |verdicts|
    ensures PassesTo(s, p, verdicts)(n)
  {
    NoSlotPassed(s, p, verdicts);
    forall k: nat | k < n ensures Keeps(PassesTo(s, p, verdicts), k) {
      SlotsKeep(s, p, verdicts, k);
    }
    Induction(PassesTo(s, p, verdicts), n);
  }

  lemma SlotsNext(s: State, p: nat, verdicts: seq<Verdict>, n: nat)
    requires Formed(s) && p < |s.passes| && n < |s.slots| == |verdicts| && Passes(s, p, verdicts, n)
    ensures Passes(s, p, verdicts, n + 1)
  {
    OneMoreSlot(s, SlotsSteps(p, s.slots, verdicts, n), AfterSlots(s, p, verdicts, n), p, n, verdicts[n]);
  }

  /** What the first n slots of a pass leave. */
  lemma {:induction false} SlotsLeft(s: State, p: nat, verdicts: seq<Verdict>, n: nat)
    requires Formed(s) && p < |s.passes| && n <= |s.slots| == |verdicts|
    ensures var r := AfterSlots(s, p, verdicts, n);
      && (forall j :: 0 <= j < n ==> r.slots[j] == Renewed(s.slots[j], verdicts[j]))
      && r.passes == s.passes[p := At(n)] && r.tasks == s.tasks && r.orphaned == s.orphaned
  {
    if n > 0 {
      SlotsLeft(s, p, verdicts, n - 1);
    }
  }

  /**
    With nothing in between, a whole pass replaces exactly the workers that are judged unhealthy,
    whose slot nobody else recycles, and for which a fresh one is built; it leaves every flag as it
    was, and rests again.
   */
  lemma UninterruptedPass(s: State, p: nat, verdicts: seq<Verdict>)
    requires Formed(s) && p < |s.passes| && s.passes[p] == Resting && |verdicts| == |s.slots|
    ensures var r := Run(s, SlotsSteps(p, s.slots, verdicts, |s.slots|) + [PassStep(p)]);
      && r.Some? && |r.value.slots| == |s.slots| && r.value.passes == s.passes && r.value.tasks == s.tasks
      && forall i :: 0 <= i < |s.slots| ==> r.value.slots[i] == Renewed(s.slots[i], verdicts[i])
  {
    var n := |s.slots|;
    SlotsPassed(s, p, verdicts, n);
    SlotsLeft(s, p, verdicts, n);
    PassRests(s, SlotsSteps(p, s.slots, verdicts, n), AfterSlots(s, p, verdicts, n), p);
  }

  lemma PassRests(s: State, steps: seq<Step>, s1: State, p: nat)
    requires Formed(s) && Run(s, steps) == Some(s1)
    requires p < |s.passes| && s.passes[p] == Resting && s1.passes == s.passes[p := At(|s1.slots|)]
    ensures Run(s, steps + [PassStep(p)]) == Some(s1.(passes := s.passes))
  {
    RunStep(s, s1, steps, PassStep(p));
    LastSlotPassed(s1, p, s.passes);
  }

  lemma LastSlotPassed(s: State, p: nat, resting: seq<Pass>)
    requires Formed(s) && p < |resting| && resting[p] == Resting && s.passes == resting[p := At(|s.slots|)]
    ensures Next(s, PassStep(p)) == Some(s.(passes := resting))
  {
    assert s.passes[p := Resting] == resting;
  }

  // ---------------------------------------------------------------- every run

  ghost predicate Inv(s: State) {
    Formed(s) && InflightInv(s) && FlagInv(s) && CountInv(s) && InstalledInv(s) && TookInv(s) && OnceInv(s)
  }

  lemma NextKeepsInv(s: State, step: Step, s': State)
    requires Inv(s) && Next(s, step) == Some(s')
    ensures Inv(s')
  {
    InstalledKept(s, step, s');
    TookKept(s, step, s');
    OnceKept(s, step, s');
    RecycleCountKept(s, step, s');
    DispatchCountKept(s, step, s');
    InflightKept(s, step, s', 0);
    forall i | 0 <= i < |s'.slots|
      ensures s'.slots[i].inflight == Tally(Guarding(i), s'.tasks) % USIZE
      ensures Tally(Holding(i), s'.passes) + One(i in s'.orphaned) == One(s'.slots[i].recycling)
    {
      InflightKept(s, step, s', i);
      FlagKept(s, step, s', i);
    }
  }

  lemma InitInv(boot: seq<Worker>, passes: nat)
    requires |boot| > 0
    ensures Inv(Init(boot, passes))
  {
    var s := Init(boot, passes);
    forall i | 0 <= i < |s.slots| ensures Tally(Holding(i), s.passes) == 0 {
      TallyNone(Holding(i), s.passes);
    }
    TallyNone(Unrecorded(), s.passes);
  }

  lemma {:induction false} RunInv(s: State, steps: seq<Step>)
    requires Inv(s) && Run(s, steps).Some?
    ensures Inv(Run(s, steps).value)
    decreases |steps|
  {
    if steps != [] {
      NextKeepsInv(s, steps[0], Next(s, steps[0]).value);
      RunInv(Next(s, steps[0]).value, steps[1..]);
    }
  }

  lemma {:induction false} RunKeepsSize(s: State, steps: seq<Step>)
    requires Formed(s) && Run(s, steps).Some?
    ensures |Run(s, steps).value.slots| == |s.slots|
    decreases |steps|
  {
    if steps != [] {
      RunKeepsSize(Next(s, steps[0]).value, steps[1..]);
    }
  }

  ghost predicate Reachable(boot: seq<Worker>, passes: nat, s: State) {
    |boot| > 0 && exists steps :: Run(Init(boot, passes), steps) == Some(s)
  }

  lemma ReachableInv(boot: seq<Worker>, passes: nat, s: State)
    requires Reachable(boot, passes, s)
    ensures Inv(s) && |s.slots| == |boot|
  {
    var steps :| Run(Init(boot, passes), steps) == Some(s);
    InitInv(boot, passes);
    RunInv(Init(boot, passes), steps);
    RunKeepsSize(Init(boot, passes), steps);
  }

  /** Two passes never build, install or clear for one slot at the same time. */
  lemma OneBuildPerSlot(boot: seq<Worker>, passes: nat, s: State, i: nat, p: nat, q: nat)
    requires Reachable(boot, passes, s) && i < |s.slots| && p < q < |s.passes|
    ensures !(Holding(i)(s.passes[p]) && Holding(i)(s.passes[q]))
  {
    ReachableInv(boot, passes, s);
    if Holding(i)(s.passes[p]) && Holding(i)(s.passes[q]) {
      TallyPair(Holding(i), s.passes, p, q);
    }
  }

  /** A slot counts its live guards, and the statistics lag only by what is not yet recorded. */
  lemma CountersAgree(boot: seq<Worker>, passes: nat, s: State)
    requires Reachable(boot, passes, s)
    ensures |s.slots| == |boot| && InflightInv(s) && CountInv(s)
  {
    ReachableInv(boot, passes, s);
  }

  /** Unless a pass was dropped there, a slot's flag is set exactly while a pass works on the slot. */
  lemma FlagIffWorkedOn(s: State, i: nat)
    requires Inv(s) && i < |s.slots|
    ensures s.slots[i].recycling <==> i in s.orphaned || exists p :: 0 <= p < |s.passes| && Holding(i)(s.passes[p])
    ensures i in s.orphaned ==> forall p :: 0 <= p < |s.passes| ==> !Holding(i)(s.passes[p])
  {
    if Tally(Holding(i), s.passes) > 0 {
      var p := TallySome(Holding(i), s.passes);
      assert Holding(i)(s.passes[p]);
    }
    forall p | 0 <= p < |s.passes| && Holding(i)(s.passes[p]) ensures Tally(Holding(i), s.passes) >= 1 {
      TallyAtLeast(Holding(i), s.passes, p);
    }
  }

  /** Each reply comes from the worker its dispatch took, and took once, while it was installed. */
  lemma AnsweredByWorkerTaken(boot: seq<Worker>, passes: nat, s: State, q: nat)
    requires Reachable(boot, passes, s) && q < |s.log| && s.log[q].Reply?
    ensures exists p, i :: 0 <= p < q && 0 <= i < |s.boot|
              && s.log[p] == Snap(s.log[q].task, i, s.log[q].worker)
              && WorkerAfter(s.boot, s.log[..p], i) == s.log[q].worker
              && forall k :: 0 <= k < |s.log| && s.log[k].Snap? && s.log[k].task == s.log[q].task ==> k == p
  {
    ReachableInv(boot, passes, s);
    assert ReplyTook(s.boot, s.log, q);
    var i: nat :| Took(s.boot, s.log[..q], s.log[q].task, i, s.log[q].worker);
    var p: nat :| SnapsAt(s.boot, s.log[..q], p, s.log[q].task, i, s.log[q].worker);
    assert s.log[..q][..p] == s.log[..p];
    assert s.log[p] == s.log[..q][p];
  }

  /** A slot whose pass was dropped mid-build keeps its flag and its worker in every later run. */
  lemma {:induction false} OrphanIsNeverRecycled(s: State, steps: seq<Step>, i: nat)
    requires Inv(s) && i < |s.slots| && i in s.orphaned && Run(s, steps).Some?
    ensures var s' := Run(s, steps).value;
            |s'.slots| == |s.slots| && s'.slots[i].recycling && s'.slots[i].worker == s.slots[i].worker
    decreases |steps|
  {
    FlagIffWorkedOn(s, i);
    if steps != [] {
      var s' := Next(s, steps[0]).value;
      OrphanStays(s, steps[0], s', i);
      NextKeepsInv(s, steps[0], s');
      OrphanIsNeverRecycled(s', steps[1..], i);
    }
  }

  lemma OrphanStays(s: State, step: Step, s': State, i: nat)
    requires Inv(s) && i < |s.slots| && i in s.orphaned && Next(s, step) == Some(s')
    ensures |s'.slots| == |s.slots| && i in s'.orphaned && s'.slots[i].worker == s.slots[i].worker
  {
    FlagIffWorkedOn(s, i);
    if OfTask(step) {
      TaskEffect(s, step, s', i);
    } else if OfPass(step) {
      PassEffect(s, step, s', i);
    }
  }

  // ---------------------------------------------------------------- what a pick read, and when

  /** States and steps of one interleaving from the start. */
  ghost predicate IsRun(boot: seq<Worker>, passes: nat, states: seq<State>, steps: seq<Step>) {
    && |boot| > 0 && |states| == |steps| + 1 && states[0] == Init(boot, passes)
    && (forall n {:trigger steps[n]} :: 0 <= n < |steps| ==> Leads(states[n], steps[n], states[n + 1]))
  }

  ghost predicate Leads(s: State, step: Step, s': State) { Formed(s) && Next(s, step) == Some(s') }

  /** A run as one of its dispatches sees it. */
  datatype View = View(states: seq<State>, steps: seq<Step>, t: nat)

  /** At moment m of the run the dispatch itself took a step. */
  predicate OwnStep(v: View, m: nat) { m < |v.steps| && v.steps[m] == TaskStep(v.t) }

  /** The first counter stood at a sample that gave x when it was advanced at moment m. */
  predicate SampledFirst(v: View, m: nat, n: nat, x: nat) {
    && m < n <= |v.states| && OwnStep(v, m) && |v.states[m].slots| > 1
    && x == P.First(|v.states[m].slots|, v.states[m].a)
  }

  /** The second counter gave y at moment m, moved off x. */
  predicate SampledSecond(v: View, m: nat, n: nat, x: nat, y: nat) {
    && m < n <= |v.states| && OwnStep(v, m) && |v.states[m].slots| > 1
    && y == P.Second(|v.states[m].slots|, x, v.states[m].b)
  }

  /** Slot x carried this load when it was read at moment m. */
  predicate ReadLoad(v: View, m: nat, n: nat, x: nat, load: nat) {
    m < n <= |v.states| && OwnStep(v, m) && x < |v.states[m].slots| && load == v.states[m].slots[x].inflight
  }

  predicate ChosenBy(v: View, m3: nat, n: nat, x: nat, y: nat, load: nat, i: nat) {
    && m3 < n <= |v.states| && OwnStep(v, m3) && y < |v.states[m3].slots|
    && i == if load <= v.states[m3].slots[y].inflight then x else y
  }

  /** A task mid-pick, and the earlier moments of the run that explain what it knows. */
  ghost predicate PickTraced(v: View, n: nat, task: Task)
    requires n < |v.states|
  {
    match task
    case SampledOne(x) => exists m0: nat :: SampledFirst(v, m0, n, x)
    case SampledTwo(x, y) =>
      exists m0: nat, m1: nat :: m0 < m1 && SampledFirst(v, m0, n, x) && SampledSecond(v, m1, n, x, y)
    case Compared(x, y, load) =>
      exists m0: nat, m1: nat, m2: nat :: m0 < m1 < m2
        && SampledFirst(v, m0, n, x) && SampledSecond(v, m1, n, x, y) && ReadLoad(v, m2, n, x, load)
    case Picked(i) => |v.states[n].slots| > 1 ==> PickExplained(v, n, i)
    case _ => true
  }

  /**
    The pick of slot i: two distinct samples of the two counters, the load of each read at its
    own later moment, and the one taken that carried no more as read.
   */
  ghost predicate PickExplained(v: View, n: nat, i: nat) { exists pick :: PickedBy(v, n, i, pick) }

  datatype Pick = Pick(first: nat, second: nat, readX: nat, readY: nat, x: nat, y: nat, load: nat)

  predicate PickedBy(v: View, n: nat, i: nat, pick: Pick) {
    && pick.first < pick.second < pick.readX < pick.readY && pick.x != pick.y
    && SampledFirst(v, pick.first, n, pick.x) && SampledSecond(v, pick.second, n, pick.x, pick.y)
    && ReadLoad(v, pick.readX, n, pick.x, pick.load)
    && ChosenBy(v, pick.readY, n, pick.x, pick.y, pick.load, i)
  }

  lemma TracedLater(v: View, n: nat, task: Task)
    requires n + 1 < |v.states| && PickTraced(v, n, task) && |v.states[n + 1].slots| == |v.states[n].slots|
    ensures PickTraced(v, n + 1, task)
  {
    match task
    case SampledOne(x) =>
      var m0: nat :| SampledFirst(v, m0, n, x);
      assert SampledFirst(v, m0, n + 1, x);
    case SampledTwo(x, y) =>
      var m0: nat, m1: nat :| m0 < m1 && SampledFirst(v, m0, n, x) && SampledSecond(v, m1, n, x, y);
      assert SampledFirst(v, m0, n + 1, x) && SampledSecond(v, m1, n + 1, x, y);
    case Compared(x, y, load) =>
      var m0: nat, m1: nat, m2: nat :| m0 < m1 < m2
        && SampledFirst(v, m0, n, x) && SampledSecond(v, m1, n, x, y) && ReadLoad(v, m2, n, x, load);
      assert SampledFirst(v, m0, n + 1, x) && SampledSecond(v, m1, n + 1, x, y)
        && ReadLoad(v, m2, n + 1, x, load);
    case Picked(i) =>
      if |v.states[n].slots| > 1 {
        ExplainedLater(v, n, i);
      }
    case _ =>
  }

  lemma ExplainedLater(v: View, n: nat, i: nat)
    requires PickExplained(v, n, i) && n + 1 < |v.states|
    ensures PickExplained(v, n + 1, i)
  {
    var pick :| PickedBy(v, n, i, pick);
    assert PickedBy(v, n + 1, i, pick);
  }

  /** What one step of the pick reads at moment n. */
  lemma PickStep(s: State, t: nat, s': State)
    requires Formed(s) && t < |s.tasks| && Next(s, TaskStep(t)) == Some(s')
    ensures |s'.tasks| == |s.tasks|
    ensures match s.tasks[t]
      case New => s'.tasks[t] == (if |s.slots| == 1 then Picked(0) else SampledOne(P.First(|s.slots|, s.a)))
      case SampledOne(x) => s'.tasks[t] == SampledTwo(x, P.Second(|s.slots|, x, s.b))
      case SampledTwo(x, y) => s'.tasks[t] == Compared(x, y, s.slots[x].inflight)
      case Compared(x, y, load) => s'.tasks[t] == Picked(if load <= s.slots[y].inflight then x else y)
      case _ => HasWorker(s'.tasks[t])
  {}

  lemma OtherTasksStay(s: State, step: Step, s': State, t: nat)
    requires Formed(s) && Next(s, step) == Some(s') && t < |s.tasks| && !(OfTask(step) && step.t == t)
    ensures t < |s'.tasks| && s'.tasks[t] == s.tasks[t]
  {
    if OfTask(step) {
      TaskEffect(s, step, s', 0);
    } else if OfPass(step) {
      PassEffect(s, step, s', 0);
    }
  }

  lemma AnswerHasWorker(s: State, step: Step, s': State)
    requires Formed(s) && Next(s, step) == Some(s') && (step.Answer? || step.Cancel?)
    ensures step.t < |s'.tasks| && HasWorker(s'.tasks[step.t])
  {}

  lemma SampledOneTraced(v: View, n: nat, x: nat)
    requires OwnStep(v, n) && n + 1 < |v.states| && |v.states[n].slots| > 1
    requires x == P.First(|v.states[n].slots|, v.states[n].a)
    ensures PickTraced(v, n + 1, SampledOne(x))
  {
    assert SampledFirst(v, n, n + 1, x);
  }

  lemma SampledTwoTraced(v: View, n: nat, x: nat, y: nat)
    requires OwnStep(v, n) && n + 1 < |v.states| && |v.states[n].slots| > 1
    requires y == P.Second(|v.states[n].slots|, x, v.states[n].b)
    requires PickTraced(v, n, SampledOne(x))
    ensures PickTraced(v, n + 1, SampledTwo(x, y))
  {
    var m0: nat :| SampledFirst(v, m0, n, x);
    assert SampledFirst(v, m0, n + 1, x) && SampledSecond(v, n, n + 1, x, y);
  }

  lemma ComparedTraced(v: View, n: nat, x: nat, y: nat, load: nat)
    requires OwnStep(v, n) && n + 1 < |v.states| && x < |v.states[n].slots| && load == v.states[n].slots[x].inflight
    requires PickTraced(v, n, SampledTwo(x, y))
    ensures PickTraced(v, n + 1, Compared(x, y, load))
  {
    var m0: nat, m1: nat :| m0 < m1 && SampledFirst(v, m0, n, x) && SampledSecond(v, m1, n, x, y);
    assert SampledFirst(v, m0, n + 1, x) && SampledSecond(v, m1, n + 1, x, y)
      && ReadLoad(v, n, n + 1, x, load);
  }

  lemma PickedTraced(v: View, n: nat, x: nat, y: nat, load: nat, i: nat)
    requires OwnStep(v, n) && n + 1 < |v.states| && y < |v.states[n].slots| && x != y
    requires i == if load <= v.states[n].slots[y].inflight then x else y
    requires PickTraced(v, n, Compared(x, y, load))
    ensures PickTraced(v, n + 1, Picked(i))
  {
    var m0: nat, m1: nat, m2: nat :| m0 < m1 < m2
      && SampledFirst(v, m0, n, x) && SampledSecond(v, m1, n, x, y) && ReadLoad(v, m2, n, x, load);
    assert PickedBy(v, n + 1, i, Pick(m0, m1, m2, n, x, y, load));
  }

  lemma StepKeepsSize(s: State, step: Step, s': State)
    requires Formed(s) && Next(s, step) == Some(s')
    ensures |s'.slots| == |s.slots|
  {
    if OfTask(step) {
      TaskEffect(s, step, s', 0);
    } else if OfPass(step) {
      PassEffect(s, step, s', 0);
    }
  }

  /** One step of the run keeps every pick explained. */
  lemma StepTraced(v: View, n: nat)
    requires n + 1 < |v.states| && n < |v.steps| && Leads(v.states[n], v.steps[n], v.states[n + 1])
    requires v.t < |v.states[n].tasks| ==> PickTraced(v, n, v.states[n].tasks[v.t])
    requires v.t < |v.states[n + 1].tasks|
    ensures PickTraced(v, n + 1, v.states[n + 1].tasks[v.t])
  {
    var s, step, s', t := v.states[n], v.steps[n], v.states[n + 1], v.t;
    StepKeepsSize(s, step, s');
    if step.TaskStep? && step.t == t {
      OwnStepTraced(v, n);
    } else if (step.Answer? || step.Cancel?) && step.t == t {
      AnswerHasWorker(s, step, s');
    } else if t < |s.tasks| {
      OtherTasksStay(s, step, s', t);
      TracedLater(v, n, s.tasks[t]);
    } else {
      NewTask(s, step, s', t);
    }
  }

  lemma NewTask(s: State, step: Step, s': State, t: nat)
    requires Formed(s) && Next(s, step) == Some(s') && |s.tasks| <= t < |s'.tasks|
    ensures s'.tasks[t] == New
  {
    if OfTask(step) {
      TaskEffect(s, step, s', 0);
    } else if OfPass(step) {
      PassEffect(s, step, s', 0);
    }
  }

  lemma OwnStepTraced(v: View, n: nat)
    requires n + 1 < |v.states| && OwnStep(v, n) && Leads(v.states[n], v.steps[n], v.states[n + 1])
    requires v.t < |v.states[n].tasks| && PickTraced(v, n, v.states[n].tasks[v.t])
    requires |v.states[n + 1].slots| == |v.states[n].slots|
    ensures v.t < |v.states[n + 1].tasks| && PickTraced(v, n + 1, v.states[n + 1].tasks[v.t])
  {
    var s, s', t := v.states[n], v.states[n + 1], v.t;
    assert TaskFormed(|s.slots|, s.tasks[t]);
    PickStep(s, t, s');
    match s.tasks[t]
    case New => if |s.slots| > 1 { SampledOneTraced(v, n, P.First(|s.slots|, s.a)); }
    case SampledOne(x) => SampledTwoTraced(v, n, x, P.Second(|s.slots|, x, s.b));
    case SampledTwo(x, y) => ComparedTraced(v, n, x, y, s.slots[x].inflight);
    case Compared(x, y, load) => PickedTraced(v, n, x, y, load, if load <= s.slots[y].inflight then x else y);
    case _ =>
  }

  lemma {:induction false} AllTraced(boot: seq<Worker>, passes: nat, states: seq<State>, steps: seq<Step>, n: nat)
    requires IsRun(boot, passes, states, steps) && n < |states|
    ensures |states[n].slots| == |boot|
    ensures forall t :: 0 <= t < |states[n].tasks| ==> PickTraced(View(states, steps, t), n, states[n].tasks[t])
  {
    if n > 0 {
      AllTraced(boot, passes, states, steps, n - 1);
      assert Leads(states[n - 1], steps[n - 1], states[n]);
      StepKeepsSize(states[n - 1], steps[n - 1], states[n]);
      forall t | 0 <= t < |states[n].tasks| ensures PickTraced(View(states, steps, t), n, states[n].tasks[t]) {
        StepTraced(View(states, steps, t), n - 1);
      }
    }
  }

  /**
    In every run of a pool of several slots, a dispatch that picked slot i drew two distinct
    samples at two earlier steps of its own and read their loads at two later ones, and i is the one that
    carried no more as read, the first on a tie.
   */
  lemma PickByLoadsRead(boot: seq<Worker>, passes: nat, states: seq<State>, steps: seq<Step>, n: nat, t: nat)
    requires IsRun(boot, passes, states, steps) && n < |states| && |boot| > 1
    requires t < |states[n].tasks| && states[n].tasks[t].Picked?
    ensures PickExplained(View(states, steps, t), n, states[n].tasks[t].i)
  {
    AllTraced(boot, passes, states, steps, n);
  }

  // ---------------------------------------------------------------- every build is installed, every success counted

  /** This step is the end of a build of worker w for slot i. */
  predicate Builds(s: State, step: Step, i: nat, w: Worker) {
    step.BuildOk? && step.built == w && step.p < |s.passes| && s.passes[step.p] == Building(i)
  }

  function BuildsOf(states: seq<State>, steps: seq<Step>, n: nat, i: nat, w: Worker): nat
    requires n <= |steps| < |states|
  {
    if n == 0 then 0 else BuildsOf(states, steps, n - 1, i, w) + One(Builds(states[n - 1], steps[n - 1], i, w))
  }

  function Replacing(i: nat, w: Worker): Event -> bool { (event: Event) => event == Replace(i, w) }

  function Carrying(i: nat, w: Worker): Pass -> bool { (pass: Pass) => pass == Built(i, w) }

  lemma BuildEffect(s: State, step: Step, s': State, i: nat, w: Worker)
    requires Formed(s) && OfPass(step) && Next(s, step) == Some(s')
    ensures step.p < |s.passes| && s'.passes == s.passes[step.p := s'.passes[step.p]]
    ensures s'.log == s.log || (|s'.log| == |s.log| + 1 && s'.log == s.log + [s'.log[|s.log|]])
    ensures var was, now := Carrying(i, w)(s.passes[step.p]), Carrying(i, w)(s'.passes[step.p]);
      && (now ==> !was) && (now <==> Builds(s, step, i, w))
      && (was <==> s'.log != s.log && Replacing(i, w)(s'.log[|s.log|]))
  {}

  lemma BuildStep(s: State, step: Step, s': State, i: nat, w: Worker)
    requires Formed(s) && Next(s, step) == Some(s')
    ensures Tally(Replacing(i, w), s'.log) + Tally(Carrying(i, w), s'.passes)
         == Tally(Replacing(i, w), s.log) + Tally(Carrying(i, w), s.passes) + One(Builds(s, step, i, w))
  {
    if OfPass(step) {
      BuildEffect(s, step, s', i, w);
      TallyUpdate(Carrying(i, w), s.passes, step.p, s'.passes[step.p]);
    } else if OfTask(step) {
      TaskEffect(s, step, s', 0);
      TaskRecords(s, step, s');
    }
    if s'.log != s.log {
      TallyAppend(Replacing(i, w), s.log, s'.log[|s.log|]);
    }
  }

  /**
    In every run each worker built for a slot is on its way there or has been installed, once, and
    nothing else ever is: as many builds of w for i ended as there were replacements of i by w, and
    passes about to make one.
   */
  lemma {:induction false} EveryBuildIsInstalled(boot: seq<Worker>, passes: nat, states: seq<State>, steps: seq<Step>,
                                                 n: nat, i: nat, w: Worker)
    requires IsRun(boot, passes, states, steps) && n < |states|
    ensures BuildsOf(states, steps, n, i, w)
         == Tally(Replacing(i, w), states[n].log) + Tally(Carrying(i, w), states[n].passes)
    decreases n
  {
    if n == 0 {
      TallyNone(Carrying(i, w), states[0].passes);
    } else {
      EveryBuildIsInstalled(boot, passes, states, steps, n - 1, i, w);
      assert Leads(states[n - 1], steps[n - 1], states[n]);
      BuildStep(states[n - 1], steps[n - 1], states[n], i, w);
    }
  }

  lemma {:induction false} SomeBuild(states: seq<State>, steps: seq<Step>, n: nat, i: nat, w: Worker) returns (m: nat)
    requires n <= |steps| < |states| && BuildsOf(states, steps, n, i, w) > 0
    ensures m < n && Builds(states[m], steps[m], i, w)
  {
    if Builds(states[n - 1], steps[n - 1], i, w) {
      m := n - 1;
    } else {
      m := SomeBuild(states, steps, n - 1, i, w);
    }
  }

  lemma {:induction false} RunStatesInv(boot: seq<Worker>, passes: nat, states: seq<State>, steps: seq<Step>, n: nat)
    requires IsRun(boot, passes, states, steps) && n < |states|
    ensures Inv(states[n]) && states[n].boot == boot && |states[n].slots| == |boot|
    decreases n
  {
    if n == 0 {
      InitInv(boot, passes);
    } else {
      RunStatesInv(boot, passes, states, steps, n - 1);
      assert Leads(states[n - 1], steps[n - 1], states[n]);
      NextKeepsInv(states[n - 1], steps[n - 1], states[n]);
      StepKeepsSize(states[n - 1], steps[n - 1], states[n]);
      BootStays(states[n - 1], steps[n - 1], states[n]);
    }
  }

  lemma BootStays(s: State, step: Step, s': State)
    requires Formed(s) && Next(s, step) == Some(s')
    ensures s'.boot == s.boot
  {
    if OfTask(step) {
      TaskLogs(s, step, s');
    } else if OfPass(step) {
      PassLogs(s, step, s');
    }
  }

  lemma {:induction false} LastReplacement(boot: seq<Worker>, log: seq<Event>, i: nat) returns (k: nat)
    requires i < |boot| && WorkerAfter(boot, log, i) != boot[i]
    ensures k < |log| && log[k] == Replace(i, WorkerAfter(boot, log, i))
    ensures forall j :: k < j < |log| && log[j].Replace? ==> log[j].i != i
  {
    var last := |log| - 1;
    if log[last].Replace? && log[last].i == i {
      k := last;
    } else {
      k := LastReplacement(boot, log[..last], i);
    }
  }

  lemma {:induction false} TallyHas<T(!new)>(holds: T -> bool, items: seq<T>, k: nat)
    requires k < |items| && holds(items[k])
    ensures Tally(holds, items) > 0
  {
    TallyAtLeast(holds, items, k);
  }

  /** A slot always holds its boot worker, or one whose build for that slot ended at an earlier step of some pass. */
  lemma WorkerWasBuilt(boot: seq<Worker>, passes: nat, states: seq<State>, steps: seq<Step>, n: nat, i: nat)
    returns (m: nat)
    requires IsRun(boot, passes, states, steps) && n < |states| && i < |boot| && |states[n].slots| == |boot|
    ensures states[n].slots[i].worker != boot[i] ==> m < n && Builds(states[m], steps[m], i, states[n].slots[i].worker)
  {
    RunStatesInv(boot, passes, states, steps, n);
    var w := states[n].slots[i].worker;
    m := 0;
    if w != boot[i] {
      var k := LastReplacement(boot, states[n].log, i);
      TallyHas(Replacing(i, w), states[n].log, k);
      EveryBuildIsInstalled(boot, passes, states, steps, n, i, w);
      m := SomeBuild(states, steps, n, i, w);
    }
  }

  /** Answers given with success so far. */
  function Successes(steps: seq<Step>): nat {
    if steps == [] then 0 else
      var last := steps[|steps| - 1];
      Successes(steps[..|steps| - 1]) + One(last.Answer? && last.ok)
  }

  lemma SuccessStep(s: State, step: Step, s': State)
    requires Formed(s) && Next(s, step) == Some(s')
    ensures Tally(Success(), s'.log) == Tally(Success(), s.log) + One(step.Answer? && step.ok)
  {
    if OfTask(step) {
      TaskEffect(s, step, s', 0);
      TaskRecords(s, step, s');
    } else if OfPass(step) {
      PassRecords(s, step, s');
    }
    if s'.log != s.log {
      TallyAppend(Success(), s.log, s'.log[|s.log|]);
    }
  }

  lemma {:induction false} SuccessesLogged(boot: seq<Worker>, passes: nat, states: seq<State>, steps: seq<Step>, n: nat)
    requires IsRun(boot, passes, states, steps) && n < |states|
    ensures Tally(Success(), states[n].log) == Successes(steps[..n])
    decreases n
  {
    if n > 0 {
      SuccessesLogged(boot, passes, states, steps, n - 1);
      assert Leads(states[n - 1], steps[n - 1], states[n]);
      SuccessStep(states[n - 1], steps[n - 1], states[n]);
      assert steps[..n][..n - 1] == steps[..n - 1];
    }
  }

  /** The dispatch count is the number of successful answers, but for those just about to be counted. */
  lemma DispatchCountIs(boot: seq<Worker>, passes: nat, states: seq<State>, steps: seq<Step>, n: nat)
    requires IsRun(boot, passes, states, steps) && n < |states|
    ensures (states[n].dispatchCount + Tally(Uncounted(), states[n].tasks)) % USIZE == Successes(steps[..n]) % USIZE
  {
    DispatchesLogged(boot, passes, states, steps, n);
    SuccessesLogged(boot, passes, states, steps, n);
  }

  lemma DispatchesLogged(boot: seq<Worker>, passes: nat, states: seq<State>, steps: seq<Step>, n: nat)
    requires IsRun(boot, passes, states, steps) && n < |states|
    ensures (states[n].dispatchCount + Tally(Uncounted(), states[n].tasks)) % USIZE
         == Tally(Success(), states[n].log) % USIZE
  {
    RunStatesInv(boot, passes, states, steps, n);
    CountedAre(states[n]);
  }

  lemma CountedAre(s: State)
    requires Inv(s)
    ensures (s.dispatchCount + Tally(Uncounted(), s.tasks)) % USIZE == Tally(Success(), s.log) % USIZE
  {}

  /** The step takes the first sample of a dispatch, or the second one. */
  predicate Samples(s: State, step: Step, first: bool) {
    && step.TaskStep? && step.t < |s.tasks|
    && if first then s.tasks[step.t].New? && |s.slots| > 1 else s.tasks[step.t].SampledOne?
  }

  /** How many first or second samples the first n steps took. */
  function SamplesOf(states: seq<State>, steps: seq<Step>, n: nat, first: bool): nat
    requires n <= |steps| < |states|
  {
    if n == 0 then 0 else SamplesOf(states, steps, n - 1, first) + One(Samples(states[n - 1], steps[n - 1], first))
  }

  lemma SampleStep(s: State, step: Step, s': State, first: bool)
    requires Formed(s) && Next(s, step) == Some(s')
    ensures !Samples(s, step, first) ==> CounterOf(s', first) == CounterOf(s, first)
    ensures Samples(s, step, first) ==> CounterOf(s', first) == (CounterOf(s, first) + Stride(first)) % USIZE
  {}

  function CounterOf(s: State, first: bool): nat { if first then s.a else s.b }

  function Stride(first: bool): nat { if first then 1 else P.STRIDE_B }

  lemma SampleAdvances(s: State, step: Step, s': State, first: bool, k: nat)
    requires Formed(s) && Next(s, step) == Some(s') && CounterOf(s, first) == P.CounterAfter(0, Stride(first), k)
    ensures CounterOf(s', first) == P.CounterAfter(0, Stride(first), k + One(Samples(s, step, first)))
  {
    SampleStep(s, step, s', first);
    if Samples(s, step, first) {
      CounterMoves(Stride(first), k);
    }
  }

  lemma CounterMoves(stride: nat, k: nat)
    ensures P.CounterAfter(0, stride, k + 1) == (P.CounterAfter(0, stride, k) + stride) % USIZE
  {}

  lemma RunAdvances(boot: seq<Worker>, passes: nat, states: seq<State>, steps: seq<Step>, n: nat, first: bool, k: nat)
    requires IsRun(boot, passes, states, steps) && n < |steps|
    requires CounterOf(states[n], first) == P.CounterAfter(0, Stride(first), k)
    ensures CounterOf(states[n + 1], first)
         == P.CounterAfter(0, Stride(first), k + One(Samples(states[n], steps[n], first)))
  {
    assert Leads(states[n], steps[n], states[n + 1]);
    SampleAdvances(states[n], steps[n], states[n + 1], first, k);
  }

  lemma {:induction false} CounterAdvances(boot: seq<Worker>, passes: nat, states: seq<State>, steps: seq<Step>,
                                           n: nat, first: bool)
    requires IsRun(boot, passes, states, steps) && n < |states|
    ensures CounterOf(states[n], first) == P.CounterAfter(0, Stride(first), SamplesOf(states, steps, n, first))
    decreases n
  {
    if n > 0 {
      CounterAdvances(boot, passes, states, steps, n - 1, first);
      RunAdvances(boot, passes, states, steps, n - 1, first, SamplesOf(states, steps, n - 1, first));
    }
  }

  /** Each counter stands where its samples so far have taken it from 0, whichever dispatches took them. */
  lemma CountersStand(boot: seq<Worker>, passes: nat, states: seq<State>, steps: seq<Step>, n: nat)
    requires IsRun(boot, passes, states, steps) && n < |states|
    ensures states[n].a == SamplesOf(states, steps, n, true) % USIZE
    ensures states[n].b == P.STRIDE_B * SamplesOf(states, steps, n, false) % USIZE
  {
    CounterAdvances(boot, passes, states, steps, n, true);
    CounterAdvances(boot, passes, states, steps, n, false);
    P.CounterIs(0, 1, SamplesOf(states, steps, n, true));
    P.CounterIs(0, P.STRIDE_B, SamplesOf(states, steps, n, false));
  }

  predicate Settled(s: State) {
    && (forall t :: 0 <= t < |s.tasks| ==> s.tasks[t].Over?)
    && (forall p :: 0 <= p < |s.passes| ==> s.passes[p].Resting?)
  }

  /** When every dispatch is over and every pass has ended, all that was raised has been lowered. */
  lemma SettledIsClean(s: State)
    requires Inv(s) && Settled(s)
    ensures forall i :: 0 <= i < |s.slots| ==> s.slots[i].inflight == 0 && (s.slots[i].recycling <==> i in s.orphaned)
    ensures s.recycleCount % USIZE == Tally(Replacement(), s.log) % USIZE
    ensures s.dispatchCount % USIZE == Tally(Success(), s.log) % USIZE
  {
    forall i | 0 <= i < |s.slots| ensures s.slots[i].inflight == 0 && (s.slots[i].recycling <==> i in s.orphaned) {
      TallyNone(Guarding(i), s.tasks);
      TallyNone(Holding(i), s.passes);
    }
    TallyNone(Unrecorded(), s.passes);
    TallyNone(Uncounted(), s.tasks);
  }
}

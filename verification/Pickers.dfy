/**
  Picking a worker by the better of two samples, for the isolate pool and for the accept
  loop, and what the accept loop does with a connection once it has picked.

  Two wrapping counters walk the ring of workers, one by steps of 1 and one by steps of 7.
 */
module Pickers {
  import opened Wrappers

  const USIZE: nat := 0x1_0000_0000_0000_0000
  const STRIDE_B: nat := 7
  const MAILBOX_CAPACITY: nat := 32

  // ---------------------------------------------------------------- the two samples

  function First(n: nat, a: nat): (x: nat)
    requires n > 0
    ensures x < n
  {
    a % n
  }

  function Second(n: nat, a: nat, b: nat): (y: nat)
    requires n > 0
    ensures y < n
  {
    if b % n == a % n then (b % n + 1) % n else b % n
  }

  function Choose(load: seq<nat>, a: nat, b: nat): nat
    requires |load| > 0
  {
    var x, y := First(|load|, a), Second(|load|, a, b);
    if load[x] <= load[y] then x else y
  }

  lemma SamplesDiffer(n: nat, a: nat, b: nat)
    requires n >= 2
    ensures First(n, a) < n && Second(n, a, b) < n && First(n, a) != Second(n, a, b)
  {
    var x := a % n;
    if x + 1 < n {
      assert (x + 1) % n == x + 1;
    } else {
      assert x + 1 == n && n % n == 0;
    }
  }

  /** The first sample is where the first counter stands on the ring; the second is where the second one does, or the
      next place if that is taken. */
  lemma SamplesAre(n: nat, a: nat, b: nat, i: nat)
    requires n >= 2 && i < n
    ensures First(n, i) == i && First(n, a + n) == First(n, a)
    ensures Second(n, a, i) == if i != First(n, a) then i else if i + 1 == n then 0 else i + 1
    ensures Second(n, a, b + n) == Second(n, a, b)
  {
    OnRing(n, i);
    if i + 1 < n {
      OnRing(n, i + 1);
    } else {
      MultipleMod(0, 1, n);
    }
    MultipleMod(a, 1, n);
    MultipleMod(b, 1, n);
  }

  lemma OnRing(n: nat, i: nat)
    requires i < n
    ensures i % n == i
  {}

  /** With two workers or more, the samples differ and neither carries less than the one chosen. */
  lemma BetterOfTwo(load: seq<nat>, a: nat, b: nat)
    requires |load| >= 2
    ensures var x, y, i := First(|load|, a), Second(|load|, a, b), Choose(load, a, b);
            && x != y && x < |load| && y < |load|
            && (i == x || i == y)
            && load[i] <= load[x] && load[i] <= load[y]
  {
    SamplesDiffer(|load|, a, b);
  }

  /** The two counters, shared by every caller of a picker. */
  class Picker {
    var a: nat
    var b: nat

    ghost predicate Valid()
      reads this
    {
      a < USIZE && b < USIZE
    }

    constructor ()
      ensures Valid() && a == 0 && b == 0
    {
      a, b := 0, 0;
    }

    /** `pick_index` of the pool, given the in-flight count of each slot. */
    method PickIndex(load: seq<nat>) returns (i: nat)
      requires Valid() && |load| > 0
      modifies this
      ensures Valid() && i < |load|
      ensures |load| == 1 ==> a == old(a) && b == old(b)
      ensures |load| > 1 ==> a == (old(a) + 1) % USIZE && b == (old(b) + STRIDE_B) % USIZE
      ensures |load| > 1 ==> i == Choose(load, old(a), old(b))
    {
      var n := |load|;
      if n == 1 {
        return 0;
      }
      var x := a % n;
      a := (a + 1) % USIZE;
      var rawB := b % n;
      b := (b + STRIDE_B) % USIZE;
      var y := if rawB == x then (rawB + 1) % n else rawB;
      i := if load[x] <= load[y] then x else y;
    }

    /** The two samples of the accept loop's picker, which advances both counters even for one worker. */
    method Sample(n: nat) returns (x: nat, y: nat)
      requires Valid() && n > 0
      modifies this
      ensures Valid() && a == (old(a) + 1) % USIZE && b == (old(b) + STRIDE_B) % USIZE
      ensures x == First(n, old(a)) && y == Second(n, old(a), old(b))
    {
      x := a % n;
      a := (a + 1) % USIZE;
      y := b % n;
      b := (b + STRIDE_B) % USIZE;
      if y == x {
        y := (y + 1) % n;
      }
    }
  }

  // ---------------------------------------------------------------- round robin under equal loads

  /** A counter after `k` calls of `fetch_add(stride)`. */
  function CounterAfter(start: nat, stride: nat, k: nat): nat {
    if k == 0 then start else (CounterAfter(start, stride, k - 1) + stride) % USIZE
  }

  /** The k-th pick of a run that begins with counters `a` and `b` and then sees these loads. */
  function PickAt(a: nat, b: nat, loads: seq<seq<nat>>, k: nat): nat
    requires k < |loads| && |loads[k]| > 0
  {
    Choose(loads[k], CounterAfter(a, 1, k), CounterAfter(b, STRIDE_B, k))
  }

  predicate Equal(load: seq<nat>) { forall i, j :: 0 <= i < |load| && 0 <= j < |load| ==> load[i] == load[j] }

  lemma DivModUnique(x: int, n: nat, q: int, r: nat)
    requires r < n && x == n * q + r
    ensures x / n == q && x % n == r
  {
    var d := x / n - q;
    assert x == n * (x / n) + x % n;
    assert n * (x / n) - n * q == n * d;
    NoMultipleBelow(n, r - x % n, d);
  }

  /** No multiple of n but zero lies between -n and n. */
  lemma NoMultipleBelow(n: int, d: int, q: int)
    requires -n < d < n && d == n * q
    ensures q == 0
  {
    Multiples(n, q);
  }

  lemma Multiples(n: int, q: int)
    requires n > 0
    ensures q >= 1 ==> n * q >= n
    ensures q <= -1 ==> n * q <= -n
  {}

  lemma MultipleMod(x: int, q: int, n: nat)
    requires n > 0
    ensures (x + n * q) % n == x % n
  {
    assert x + n * q == n * (x / n + q) + x % n;
    DivModUnique(x + n * q, n, x / n + q, x % n);
  }

  lemma ModShift(a: nat, k: nat, n: nat)
    requires n > 0
    ensures (a % n + k) % n == (a + k) % n
  {
    MultipleMod(a % n + k, a / n, n);
    assert a + k == a % n + k + n * (a / n);
  }

  lemma EqualChoice(load: seq<nat>, a: nat, b: nat)
    requires |load| >= 2 && Equal(load)
    ensures Choose(load, a, b) == First(|load|, a)
  {
    BetterOfTwo(load, a, b);
  }

  lemma {:induction false} CounterIs(start: nat, stride: nat, k: nat)
    requires start < USIZE
    ensures CounterAfter(start, stride, k) == (start + stride * k) % USIZE
  {
    if k > 0 {
      CounterIs(start, stride, k - 1);
      ModShift(start + stride * (k - 1), stride, USIZE);
      assert start + stride * (k - 1) + stride == start + stride * k;
    }
  }

  lemma CounterBeforeWrap(start: nat, stride: nat, k: nat)
    requires start + stride * k < USIZE
    ensures CounterAfter(start, stride, k) == start + stride * k
  {
    assert start <= start + stride * k;
    CounterIs(start, stride, k);
  }

  /** While all slots carry the same load, whatever it is, the k-th pick is k modulo the pool size. */
  lemma EqualLoadsRoundRobin(loads: seq<seq<nat>>, k: nat)
    requires k < |loads| && k < USIZE && |loads[k]| >= 2 && Equal(loads[k])
    ensures PickAt(0, 0, loads, k) == k % |loads[k]|
  {
    CounterBeforeWrap(0, 1, k);
    EqualChoice(loads[k], CounterAfter(0, 1, k), CounterAfter(0, STRIDE_B, k));
  }

  // ---------------------------------------------------------------- the secondary walk

  /** The secondary counter's j-th sample, before it is moved off the primary. */
  function SampleB(n: nat, start: nat, j: nat): nat
    requires n > 0
  {
    CounterAfter(start, STRIDE_B, j) % n
  }

  ghost predicate Visits(n: nat, start: nat, i: nat)
    requires n > 0
  {
    exists j :: 0 <= j < n && SampleB(n, start, j) == i
  }

  lemma SampleBeforeWrap(n: nat, start: nat, j: nat)
    requires n > 0 && start + STRIDE_B * j < USIZE
    ensures SampleB(n, start, j) == (start + 7 * j) % n
  {
    CounterBeforeWrap(start, STRIDE_B, j);
  }

  /** A number coprime to 7 has a multiple that, with one added, is a multiple of 7. */
  lemma InverseOfSeven(n: nat) returns (c: nat, inverse: nat)
    requires n % 7 != 0
    ensures 7 * inverse == c * n + 1
  {
    var q := n / 7;
    if n == 7 * q + 1 {
      c, inverse := 6, 6 * q + 1;
    } else if n == 7 * q + 2 {
      c, inverse := 3, 3 * q + 1;
    } else if n == 7 * q + 3 {
      c, inverse := 2, 2 * q + 1;
    } else if n == 7 * q + 4 {
      c, inverse := 5, 5 * q + 3;
    } else if n == 7 * q + 5 {
      c, inverse := 4, 4 * q + 3;
    } else {
      c, inverse := 1, q + 1;
    }
  }

  lemma Divide(x: int, n: nat) returns (q: int, r: nat)
    requires n > 0
    ensures x == n * q + r && r < n
  {
    q, r := x / n, x % n;
  }

  lemma Reaches(n: nat, start: nat, i: nat)
    requires n % 7 != 0 && i < n && start + STRIDE_B * n <= USIZE
    ensures Visits(n, start, i)
  {
    var c, inverse := InverseOfSeven(n);
    var q, j := Divide(inverse * (i - start), n);
    Solve(n, c, inverse, i - start, q, j);
    DivModUnique(start + 7 * j, n, c * (i - start) - 7 * q, i);
    SampleBeforeWrap(n, start, j);
  }

  lemma Solve(n: int, c: int, inverse: int, d: int, q: int, j: int)
    requires 7 * inverse == c * n + 1 && inverse * d == n * q + j
    ensures 7 * j == d + n * (c * d - 7 * q)
  {
    assert (7 * inverse) * d == n * (c * d) + d;
    assert 7 * (inverse * d) == n * (7 * q) + 7 * j;
  }

  lemma Repeats(n: nat, start: nat, j: nat, k: nat)
    requires n % 7 != 0 && j < k < n && start + STRIDE_B * n <= USIZE
    ensures SampleB(n, start, j) != SampleB(n, start, k)
  {
    SampleBeforeWrap(n, start, j);
    SampleBeforeWrap(n, start, k);
    if SampleB(n, start, j) == SampleB(n, start, k) {
      var q := Difference(n, start + 7 * k, start + 7 * j);
      Coincide(n, k - j, q);
    }
  }

  lemma Coincide(n: nat, d: int, q: int)
    requires n % 7 != 0 && d < n && -d < n && 7 * d == n * q
    ensures d == 0
  {
    var c, inverse := InverseOfSeven(n);
    Cancel(n, c, inverse, d, q);
    NoMultipleBelow(n, d, inverse * q - c * d);
  }

  lemma Difference(n: nat, x: int, y: int) returns (q: int)
    requires n > 0 && x % n == y % n
    ensures x - y == n * q
  {
    q := x / n - y / n;
    assert x == n * (x / n) + x % n && y == n * (y / n) + y % n;
    assert n * (x / n) - n * (y / n) == n * q;
  }

  lemma Cancel(n: int, c: int, inverse: int, d: int, q: int)
    requires 7 * inverse == c * n + 1 && 7 * d == n * q
    ensures d == n * (inverse * q - c * d)
  {
    assert inverse * (7 * d) == n * (inverse * q);
    assert (7 * inverse) * d == n * (c * d) + d;
  }

  lemma Misses(n: nat, start: nat, j: nat)
    requires n > 0 && n % 7 == 0 && j < n && start + STRIDE_B * n <= USIZE
    ensures SampleB(n, start, j) != (start + 1) % n
  {
    SampleBeforeWrap(n, start, j);
    if (start + 7 * j) % n == (start + 1) % n {
      var q := Difference(n, start + 7 * j, start + 1);
      SevenApart(n / 7, q, j);
    }
  }

  lemma SevenApart(m: int, q: int, j: int)
    ensures 7 * j - 1 != (7 * m) * q
  {
    assert (7 * m) * q == 7 * (m * q);
  }

  /**
    Before the counter wraps, n consecutive secondary samples visit every worker, each exactly
    once, if and only if 7 does not divide n.
   */
  lemma SecondaryVisitsAllIff(n: nat, start: nat)
    requires n > 0 && start + STRIDE_B * n <= USIZE
    ensures (forall i :: 0 <= i < n ==> Visits(n, start, i)) <==> n % 7 != 0
    ensures n % 7 != 0 ==> forall j, k :: 0 <= j < k < n ==> SampleB(n, start, j) != SampleB(n, start, k)
  {
    if n % 7 != 0 {
      forall i | 0 <= i < n ensures Visits(n, start, i) { Reaches(n, start, i); }
      forall j, k | 0 <= j < k < n ensures SampleB(n, start, j) != SampleB(n, start, k) { Repeats(n, start, j, k); }
    } else {
      forall j | 0 <= j < n ensures SampleB(n, start, j) != (start + 1) % n { Misses(n, start, j); }
      assert !Visits(n, start, (start + 1) % n);
    }
  }

  /** In a pool of 14 the secondary walk only ever sees two of the workers. */
  lemma FourteenIsNotSafe(start: nat, j: nat)
    requires start + STRIDE_B * j < USIZE
    ensures SampleB(14, start, j) == start % 14 || SampleB(14, start, j) == (start + 7) % 14
  {
    SampleBeforeWrap(14, start, j);
    if j % 2 == 0 {
      MultipleMod(start, j / 2, 14);
    } else {
      MultipleMod(start + 7, j / 2, 14);
    }
  }

  // ---------------------------------------------------------------- handing over a connection

  /** The channel into a worker; a worker that listens for itself has none. */
  datatype Mailbox = NoMailbox | Mailbox(queue: seq<nat>, open: bool)

  datatype SendError = Full | Closed

  /** What the workers may do while the accept loop is between two of its own steps. */
  datatype Event = Receive(worker: nat) | Shut(worker: nat)

  function Depth(box: Mailbox): nat { if box.NoMailbox? then 0 else |box.queue| }

  function Depths(boxes: seq<Mailbox>): (r: seq<nat>)
    ensures |r| == |boxes|
  {
    seq(|boxes|, i requires 0 <= i < |boxes| => Depth(boxes[i]))
  }

  function Happen(boxes: seq<Mailbox>, event: Event): (r: seq<Mailbox>)
    ensures |r| == |boxes|
  {
    if event.worker >= |boxes| || boxes[event.worker].NoMailbox? then boxes else
      var box := boxes[event.worker];
      var box' :=
        if event.Shut? then box.(open := false)
        else if box.queue == [] then box
        else box.(queue := box.queue[1..]);
      boxes[event.worker := box']
  }

  function HappenAll(boxes: seq<Mailbox>, events: seq<Event>): (r: seq<Mailbox>)
    ensures |r| == |boxes|
    decreases |events|
  {
    if events == [] then boxes else HappenAll(Happen(boxes, events[0]), events[1..])
  }

  function SendTo(boxes: seq<Mailbox>, i: nat, stream: nat): Result<seq<Mailbox>, SendError>
    requires i < |boxes|
  {
    match boxes[i]
    case NoMailbox => Err(Closed)
    case Mailbox(queue, open) =>
      if !open then Err(Closed)
      else if |queue| >= MAILBOX_CAPACITY then Err(Full)
      else Ok(boxes[i := Mailbox(queue + [stream], true)])
  }

  datatype Outcome = ToPrimary | ToSecondary | Dropped

  /** The mailboxes after `stream` was offered to the primary, then perhaps to the secondary. */
  function Offer(boxes: seq<Mailbox>, primary: nat, secondary: nat, stream: nat, meanwhile: seq<Event>):
    (r: (seq<Mailbox>, Outcome))
    requires primary < |boxes| && secondary < |boxes|
  {
    match SendTo(boxes, primary, stream)
    case Ok(boxes') => (boxes', ToPrimary)
    case Err(Closed) => (boxes, Dropped)
    case Err(Full) =>
      var later := HappenAll(boxes, meanwhile);
      match SendTo(later, secondary, stream)
      case Ok(boxes') => (boxes', ToSecondary)
      case Err(_) => (later, Dropped)
  }

  /** No mailbox ever holds more than its capacity. */
  predicate Bounded(boxes: seq<Mailbox>) { forall i :: 0 <= i < |boxes| ==> Depth(boxes[i]) <= MAILBOX_CAPACITY }

  lemma {:induction false} EventsOnlyDrain(boxes: seq<Mailbox>, events: seq<Event>, i: nat)
    requires i < |boxes|
    ensures var later := HappenAll(boxes, events)[i];
            && later.NoMailbox? == boxes[i].NoMailbox? && Depth(later) <= Depth(boxes[i])
            && (later.Mailbox? && later.open ==> boxes[i].open)
    decreases |events|
  {
    if events != [] {
      EventsOnlyDrain(Happen(boxes, events[0]), events[1..], i);
    }
  }

  function Waiting(boxes: seq<Mailbox>): nat {
    if boxes == [] then 0 else Depth(boxes[0]) + Waiting(boxes[1..])
  }

  lemma {:induction false} WaitingUpdate(boxes: seq<Mailbox>, i: nat, box: Mailbox)
    requires i < |boxes|
    ensures Waiting(boxes[i := box]) == Waiting(boxes) - Depth(boxes[i]) + Depth(box)
  {
    if i == 0 {
      assert boxes[i := box][1..] == boxes[1..];
    } else {
      assert boxes[i := box][1..] == boxes[1..][i - 1 := box];
      WaitingUpdate(boxes[1..], i - 1, box);
    }
  }

  /** A mailbox that would take another connection. */
  predicate Takes(box: Mailbox) { box.Mailbox? && box.open && |box.queue| < MAILBOX_CAPACITY }

  /** Where a connection goes: to the primary if that takes it, to the secondary only if the primary is just full. */
  lemma OutcomeIs(boxes: seq<Mailbox>, primary: nat, secondary: nat, stream: nat, meanwhile: seq<Event>)
    requires primary < |boxes| && secondary < |boxes|
    ensures var outcome, later := Offer(boxes, primary, secondary, stream, meanwhile).1, HappenAll(boxes, meanwhile);
      var full := boxes[primary].Mailbox? && boxes[primary].open && |boxes[primary].queue| >= MAILBOX_CAPACITY;
      && (outcome == ToPrimary <==> Takes(boxes[primary]))
      && (outcome == ToSecondary <==> full && Takes(later[secondary]))
  {}

  /** A delivered connection is queued last in one mailbox; nothing else moves but what workers take. */
  lemma DeliveredOnce(boxes: seq<Mailbox>, primary: nat, secondary: nat, stream: nat, meanwhile: seq<Event>)
    requires primary < |boxes| && secondary < |boxes| && Bounded(boxes)
    ensures var (boxes', outcome) := Offer(boxes, primary, secondary, stream, meanwhile);
            var before := if outcome == ToPrimary || SendTo(boxes, primary, stream) == Err(Closed) then boxes
                          else HappenAll(boxes, meanwhile);
            && Bounded(boxes') && Waiting(boxes') == Waiting(before) + (if outcome == Dropped then 0 else 1)
            && (outcome == Dropped ==> boxes' == before)
            && (outcome != Dropped ==>
                  var i := if outcome == ToPrimary then primary else secondary;
                  && before[i].Mailbox? && before[i].open
                  && boxes' == before[i := Mailbox(before[i].queue + [stream], true)])
  {
    var later := HappenAll(boxes, meanwhile);
    forall i | 0 <= i < |boxes| ensures Depth(later[i]) <= MAILBOX_CAPACITY {
      EventsOnlyDrain(boxes, meanwhile, i);
    }
    if SendTo(boxes, primary, stream).Ok? {
      WaitingUpdate(boxes, primary, Mailbox(boxes[primary].queue + [stream], true));
    } else if SendTo(later, secondary, stream).Ok? {
      WaitingUpdate(later, secondary, Mailbox(later[secondary].queue + [stream], true));
    }
  }

  /**
    `pick_worker`: both candidates, the one with the shorter queue first. The first sample's depth
    is read before the second's, and workers may act in between.
   */
  function Candidates(boxes: seq<Mailbox>, between: seq<Event>, a: nat, b: nat): (r: (nat, nat))
    requires |boxes| > 0
    ensures r.0 < |boxes| && r.1 < |boxes|
  {
    var n := |boxes|;
    if n == 1 then (0, 0) else
      var x, y := First(n, a), Second(n, a, b);
      SamplesDiffer(n, a, b);
      if Depth(HappenAll(boxes, between)[y]) < Depth(boxes[x]) then (y, x) else (x, y)
  }

  /** The candidates differ unless there is one worker; had none acted meanwhile, the primary's queue is the shorter. */
  lemma CandidatesDiffer(boxes: seq<Mailbox>, between: seq<Event>, a: nat, b: nat)
    requires |boxes| > 0
    ensures var (primary, secondary) := Candidates(boxes, between, a, b);
      && (primary == secondary <==> |boxes| == 1)
      && (between == [] ==> Depth(boxes[primary]) <= Depth(boxes[secondary]))
      && (between == [] && |boxes| > 1 ==> primary == Choose(Depths(boxes), a, b))
  {
    if |boxes| > 1 {
      SamplesDiffer(|boxes|, a, b);
    }
  }

  /**
    The fallback delivers only if the secondary worker, full when its queue was read, takes a
    connection after that: the primary was full when it was tried, so it is the first sample, and
    was full when it was read.
   */
  lemma FallbackNeedsDrain(boxes: seq<Mailbox>, between: seq<Event>, a: nat, b: nat, stream: nat,
                           before: seq<Event>, meanwhile: seq<Event>)
    requires |boxes| > 0 && Bounded(boxes)
    requires var (primary, secondary) := Candidates(boxes, between, a, b);
      Offer(HappenAll(HappenAll(boxes, between), before), primary, secondary, stream, meanwhile).1 == ToSecondary
    ensures var (primary, secondary) := Candidates(boxes, between, a, b);
      var read := HappenAll(boxes, between);
      && primary == First(|boxes|, a) && Depth(boxes[primary]) == MAILBOX_CAPACITY
      && Depth(read[secondary]) == MAILBOX_CAPACITY
      && Depth(HappenAll(HappenAll(read, before), meanwhile)[secondary]) < MAILBOX_CAPACITY
      && before + meanwhile != []
  {
    var (primary, secondary) := Candidates(boxes, between, a, b);
    CandidatesDiffer(boxes, between, a, b);
    EventsOnlyDrain(boxes, between, primary);
    EventsOnlyDrain(boxes, between, secondary);
    EventsOnlyDrain(HappenAll(boxes, between), before, primary);
    assert |boxes| == 1 ==> First(1, a) == 0;
  }

  /** It does happen: between two full mailboxes, one connection taken by the second worker is enough. */
  lemma FallbackDelivers(boxes: seq<Mailbox>, primary: nat, secondary: nat, stream: nat)
    requires primary < |boxes| && secondary < |boxes| && primary != secondary
    requires boxes[primary].Mailbox? && boxes[primary].open && |boxes[primary].queue| == MAILBOX_CAPACITY
    requires boxes[secondary].Mailbox? && boxes[secondary].open && |boxes[secondary].queue| == MAILBOX_CAPACITY
    ensures Offer(boxes, primary, secondary, stream, [Receive(secondary)])
         == (boxes[secondary := Mailbox(boxes[secondary].queue[1..] + [stream], true)], ToSecondary)
  {
    var later := boxes[secondary := Mailbox(boxes[secondary].queue[1..], true)];
    assert Happen(boxes, Receive(secondary)) == later && HappenAll(later, []) == later;
    assert [Receive(secondary)][1..] == [];
    assert later[secondary := Mailbox(later[secondary].queue + [stream], true)]
        == boxes[secondary := Mailbox(boxes[secondary].queue[1..] + [stream], true)];
  }

  /** A worker that has shut its mailbox before the connection is offered does not get it. */
  lemma ShutDrops(boxes: seq<Mailbox>, primary: nat, secondary: nat, stream: nat, meanwhile: seq<Event>)
    requires primary < |boxes| && secondary < |boxes|
    ensures Offer(HappenAll(boxes, [Shut(primary)]), primary, secondary, stream, meanwhile).1 == Dropped
  {
    assert [Shut(primary)][1..] == [];
    assert HappenAll(boxes, [Shut(primary)]) == Happen(boxes, Shut(primary));
  }

  /** A worker without a mailbox counts as idle: as the first sample it is always the primary. */
  lemma NoMailboxIsIdle(boxes: seq<Mailbox>, between: seq<Event>, a: nat, b: nat)
    requires |boxes| > 1 && First(|boxes|, a) < |boxes| && boxes[First(|boxes|, a)].NoMailbox?
    ensures Candidates(boxes, between, a, b).0 == First(|boxes|, a)
  {}

  /** The accept loop's side: the picker and the mailboxes of the workers. */
  class AcceptLoop {
    const picker: Picker
    var boxes: seq<Mailbox>

    ghost predicate Valid()
      reads this, picker
    {
      picker.Valid() && |boxes| > 0 && Bounded(boxes)
    }

    constructor (boxes: seq<Mailbox>)
      requires |boxes| > 0 && Bounded(boxes)
      ensures Valid() && fresh(picker) && this.boxes == boxes
    {
      picker := new Picker();
      this.boxes := boxes;
    }

    /** `pick_worker`; `between` is what the workers do between the two readings. */
    method PickWorker(between: seq<Event>) returns (primary: nat, secondary: nat)
      requires Valid()
      modifies this`boxes, picker
      ensures Valid() && boxes == HappenAll(old(boxes), between)
      ensures picker.a == (old(picker.a) + 1) % USIZE && picker.b == (old(picker.b) + STRIDE_B) % USIZE
      ensures (primary, secondary) == Candidates(old(boxes), between, old(picker.a), old(picker.b))
    {
      var n := |boxes|;
      CandidatesDiffer(boxes, between, picker.a, picker.b);
      if n > 1 {
        SamplesDiffer(n, picker.a, picker.b);
      }
      var x, y := picker.Sample(n);
      if n == 1 {
        Interfere(between);
        return 0, 0;
      }
      var depthX := Depth(boxes[x]);
      Interfere(between);
      var depthY := Depth(boxes[y]);
      if depthY < depthX {
        primary, secondary := y, x;
      } else {
        primary, secondary := x, y;
      }
    }

    /** `dispatch_stream`; the events are what the workers do around its own steps. */
    method DispatchStream(stream: nat, between: seq<Event>, before: seq<Event>, meanwhile: seq<Event>)
      returns (outcome: Outcome)
      requires Valid()
      modifies this`boxes, picker
      ensures Valid()
      ensures picker.a == (old(picker.a) + 1) % USIZE && picker.b == (old(picker.b) + STRIDE_B) % USIZE
      ensures var (primary, secondary) := Candidates(old(boxes), between, old(picker.a), old(picker.b));
        && primary < |boxes| && secondary < |boxes|
        && (boxes, outcome)
           == Offer(HappenAll(HappenAll(old(boxes), between), before), primary, secondary, stream, meanwhile)
    {
      var primary, secondary := PickWorker(between);
      Interfere(before);
      outcome := Send(primary, secondary, stream, meanwhile);
    }

    method Send(primary: nat, secondary: nat, stream: nat, meanwhile: seq<Event>) returns (outcome: Outcome)
      requires Bounded(boxes) && primary < |boxes| && secondary < |boxes|
      modifies this`boxes
      ensures (boxes, outcome) == Offer(old(boxes), primary, secondary, stream, meanwhile) && Bounded(boxes)
    {
      DeliveredOnce(boxes, primary, secondary, stream, meanwhile);
      var sent := SendTo(boxes, primary, stream);
      match sent {
        case Ok(boxes') =>
          boxes, outcome := boxes', ToPrimary;
        case Err(Full) =>
          Interfere(meanwhile);
          var again := SendTo(boxes, secondary, stream);
          if again.Ok? {
            boxes, outcome := again.value, ToSecondary;
          } else {
            outcome := Dropped;
          }
        case Err(Closed) =>
          outcome := Dropped;
      }
    }

    /** The workers' steps, which the accept loop does not control. */
    method Interfere(events: seq<Event>)
      requires Bounded(boxes)
      modifies this`boxes
      ensures boxes == HappenAll(old(boxes), events) && Bounded(boxes)
    {
      ghost var start := boxes;
      forall i | 0 <= i < |start| ensures Depth(HappenAll(start, events)[i]) <= MAILBOX_CAPACITY {
        EventsOnlyDrain(start, events, i);
      }
      for k := 0 to |events|
        invariant HappenAll(boxes, events[k..]) == HappenAll(start, events)
      {
        boxes := Happen(boxes, events[k]);
        assert events[k..][1..] == events[k + 1..];
      }
    }
  }
}

/**
  The generational arena of in-flight requests.

  `Arena` is the value of the three fields of the table; its functions are the
  operations, its lemmas say what they keep, and a whole run of operations is
  compared with its own history of insertions and removals. `DispatchTable` at the
  end is the class that updates the fields in place.
 */
module Dispatch {
  import opened Wrappers

  const U32_MAX: nat := 0xFFFF_FFFF
  const TWO_32: nat := 0x1_0000_0000

  type Request = nat
  type Sender = nat

  datatype InFlight = InFlight(request: Request, completion: Option<Sender>)

  datatype RequestId = RequestId(index: nat, generation: nat)

  datatype Slot =
    | Vacant(generation: nat, nextFree: Option<nat>)
    | Occupied(generation: nat, inflight: InFlight)

  datatype DispatchError = OutOfRange(index: nat) | Stale(index: nat, generation: nat) | Released(index: nat)

  datatype Arena = Arena(slots: seq<Slot>, freeHead: Option<nat>, inFlight: nat)

  // ---------------------------------------------------------------- operations

  /** `get`, `get_mut` and `slot_mut` share this check. */
  function Lookup(a: Arena, id: RequestId): Result<InFlight, DispatchError> {
    if id.index >= |a.slots| then Err(OutOfRange(id.index))
    else match a.slots[id.index]
      case Occupied(g, inflight) => if g == id.generation then Ok(inflight) else Err(Stale(id.index, g))
      case Vacant(_, _) => Err(Released(id.index))
  }

  function SaturatingInc(n: nat): nat { if n < U32_MAX then n + 1 else n }

  /** None is the panic of `insert` on a full arena. */
  function InsertInto(a: Arena, request: Request, tx: Sender): Option<(Arena, RequestId)>
    requires Inv(a)
  {
    var inflight := InFlight(request, Some(tx));
    match a.freeHead
    case Some(i) =>
      HeadIsVacant(a);
      var g := a.slots[i].generation;
      var slots := a.slots[i := Occupied(g, inflight)];
      Some((Arena(slots, a.slots[i].nextFree, SaturatingInc(a.inFlight)), RequestId(i, g)))
    case None =>
      if |a.slots| > U32_MAX then None
      else Some((Arena(a.slots + [Occupied(0, inflight)], None, SaturatingInc(a.inFlight)), RequestId(|a.slots|, 0)))
  }

  /** Relinks slot `i` as the new head of the free list; done by `remove` and by each round of `fail_all`. */
  function Release(a: Arena, i: nat): Arena
    requires i < |a.slots|
  {
    a.(slots := a.slots[i := Vacant((a.slots[i].generation + 1) % TWO_32, a.freeHead)], freeHead := Some(i))
  }

  function RemoveFrom(a: Arena, id: RequestId): (Arena, Result<InFlight, DispatchError>) {
    var r := Lookup(a, id);
    if r.Err? then (a, r)
    else (Release(a, id.index).(inFlight := if a.inFlight > 0 then a.inFlight - 1 else 0), r)
  }

  function TakeFrom(a: Arena, id: RequestId): (Arena, Result<Option<Sender>, DispatchError>) {
    match Lookup(a, id)
    case Err(e) => (a, Err(e))
    case Ok(inflight) =>
      var taken := Occupied(id.generation, inflight.(completion := None));
      (a.(slots := a.slots[id.index := taken]), Ok(inflight.completion))
  }

  /** The first `n` rounds of `fail_all`: the arena left behind and the senders failed, in order. */
  function FailFirst(a: Arena, n: nat): (r: (Arena, seq<Sender>))
    requires n <= |a.slots|
    ensures |r.0.slots| == |a.slots|
  {
    if n == 0 then (a, [])
    else
      var (b, sent) := FailFirst(a, n - 1);
      if b.slots[n - 1].Vacant? then (b, sent) else (Release(b, n - 1), sent + SenderOf(b.slots[n - 1]))
  }

  function FailEvery(a: Arena): (Arena, seq<Sender>) {
    var (b, sent) := FailFirst(a, |a.slots|);
    (b.(inFlight := 0), sent)
  }

  // ---------------------------------------------------------------- invariant

  function SenderOf(s: Slot): seq<Sender> {
    if s.Occupied? && s.inflight.completion.Some? then [s.inflight.completion.value] else []
  }

  /** The senders still in the table, slot by slot. */
  function Held(slots: seq<Slot>): seq<Sender> {
    if slots == [] then [] else SenderOf(slots[0]) + Held(slots[1..])
  }

  function CountOccupied(slots: seq<Slot>): nat {
    if slots == [] then 0 else (if slots[0].Occupied? then 1 else 0) + CountOccupied(slots[1..])
  }

  /** `chain` is the free list: it starts at `head`, follows `next_free`, repeats nothing,
      and visits exactly the vacant slots. */
  ghost predicate IsFreeList(slots: seq<Slot>, head: Option<nat>, chain: seq<nat>) {
    && head == (if chain == [] then None else Some(chain[0]))
    && (forall k :: 0 <= k < |chain| ==> Links(slots, chain, k))
    && (forall j, k :: 0 <= j < k < |chain| ==> chain[j] != chain[k])
    && (forall i :: 0 <= i < |slots| && slots[i].Vacant? ==> i in chain)
  }

  ghost predicate Links(slots: seq<Slot>, chain: seq<nat>, k: nat)
    requires k < |chain|
  {
    && chain[k] < |slots|
    && slots[chain[k]].Vacant?
    && slots[chain[k]].nextFree == (if k + 1 < |chain| then Some(chain[k + 1]) else None)
  }

  ghost predicate Inv(a: Arena) {
    && |a.slots| <= TWO_32 && a.inFlight <= U32_MAX
    && (forall i :: 0 <= i < |a.slots| ==> a.slots[i].generation < TWO_32)
    && (|a.slots| <= U32_MAX ==> a.inFlight == CountOccupied(a.slots))
    && exists chain :: IsFreeList(a.slots, a.freeHead, chain)
  }

  const EMPTY: Arena := Arena([], None, 0)

  lemma EmptyInv()
    ensures Inv(EMPTY)
  {
    assert IsFreeList([], None, []);
  }

  /** The `unreachable!` and `expect` on the free list in `insert` never fire. */
  lemma HeadIsVacant(a: Arena)
    requires Inv(a)
    ensures a.freeHead.Some? ==> a.freeHead.value < |a.slots| && a.slots[a.freeHead.value].Vacant?
    ensures a.freeHead.None? ==> forall i :: 0 <= i < |a.slots| ==> a.slots[i].Occupied?
  {
    var chain :| IsFreeList(a.slots, a.freeHead, chain);
    if a.freeHead.Some? {
      assert Links(a.slots, chain, 0);
    }
  }

  lemma {:induction false} CountUpdate(slots: seq<Slot>, i: nat, s: Slot)
    requires i < |slots|
    ensures CountOccupied(slots[i := s])
         == CountOccupied(slots) - (if slots[i].Occupied? then 1 else 0) + (if s.Occupied? then 1 else 0)
  {
    if i == 0 {
      assert slots[i := s][1..] == slots[1..];
    } else {
      assert slots[i := s][1..] == slots[1..][i - 1 := s];
      CountUpdate(slots[1..], i - 1, s);
    }
  }

  lemma {:induction false} CountAppend(slots: seq<Slot>, s: Slot)
    ensures CountOccupied(slots + [s]) == CountOccupied(slots) + (if s.Occupied? then 1 else 0)
  {
    if slots == [] {
      assert slots + [s] == [s];
    } else {
      assert (slots + [s])[1..] == slots[1..] + [s];
      CountAppend(slots[1..], s);
    }
  }

  lemma {:induction false} CountBounds(slots: seq<Slot>)
    ensures CountOccupied(slots) <= |slots|
    ensures (exists i :: 0 <= i < |slots| && slots[i].Occupied?) ==> CountOccupied(slots) > 0
    ensures (forall i :: 0 <= i < |slots| ==> slots[i].Vacant?) ==> CountOccupied(slots) == 0
    ensures (exists i :: 0 <= i < |slots| && slots[i].Vacant?) ==> CountOccupied(slots) < |slots|
  {
    if slots != [] {
      CountBounds(slots[1..]);
      assert forall i :: 1 <= i < |slots| ==> slots[i] == slots[1..][i - 1];
      assert forall i :: 0 <= i < |slots| - 1 ==> slots[1..][i] == slots[i + 1];
    }
  }

  /** How many times `tx` is held by the table. */
  function HeldTimes(slots: seq<Slot>, tx: Sender): nat {
    if slots == [] then 0 else SlotHolds(slots[0], tx) + HeldTimes(slots[1..], tx)
  }

  function SlotHolds(s: Slot, tx: Sender): nat {
    if s.Occupied? && s.inflight.completion == Some(tx) then 1 else 0
  }

  lemma {:induction false} HeldTimesIsHeld(slots: seq<Slot>, tx: Sender)
    ensures HeldTimes(slots, tx) == multiset(Held(slots))[tx]
  {
    if slots != [] {
      HeldTimesIsHeld(slots[1..], tx);
      assert Held(slots) == SenderOf(slots[0]) + Held(slots[1..]);
    }
  }

  lemma {:induction false} HeldUpdate(slots: seq<Slot>, i: nat, s: Slot, tx: Sender)
    requires i < |slots|
    ensures HeldTimes(slots[i := s], tx) == HeldTimes(slots, tx) - SlotHolds(slots[i], tx) + SlotHolds(s, tx)
  {
    if i == 0 {
      assert slots[i := s][1..] == slots[1..];
    } else {
      assert slots[i := s][1..] == slots[1..][i - 1 := s];
      HeldUpdate(slots[1..], i - 1, s, tx);
    }
  }

  lemma {:induction false} HeldAppend(slots: seq<Slot>, s: Slot, tx: Sender)
    ensures HeldTimes(slots + [s], tx) == HeldTimes(slots, tx) + SlotHolds(s, tx)
  {
    if slots == [] {
      assert slots + [s] == [s];
    } else {
      assert (slots + [s])[1..] == slots[1..] + [s];
      HeldAppend(slots[1..], s, tx);
    }
  }

  // ---------------------------------------------------------------- what each operation keeps

  lemma InsertKeepsInv(a: Arena, request: Request, tx: Sender)
    requires Inv(a)
    ensures InsertInto(a, request, tx).None? <==> |a.slots| == TWO_32 && a.freeHead.None?
    ensures InsertInto(a, request, tx).Some? ==> Inv(InsertInto(a, request, tx).value.0)
  {
    var r := InsertInto(a, request, tx);
    HeadIsVacant(a);
    var chain :| IsFreeList(a.slots, a.freeHead, chain);
    var s := InFlight(request, Some(tx));
    CountBounds(a.slots);
    match a.freeHead
    case Some(i) =>
      var a' := r.value.0;
      var o := Occupied(a.slots[i].generation, s);
      CountUpdate(a.slots, i, o);
      assert Links(a.slots, chain, 0);
      PopFreeList(a.slots, a.freeHead, chain, o);
    case None =>
      if r.Some? {
        CountAppend(a.slots, Occupied(0, s));
        assert IsFreeList(r.value.0.slots, None, []);
      }
  }

  lemma PopFreeList(slots: seq<Slot>, head: Option<nat>, chain: seq<nat>, o: Slot)
    requires IsFreeList(slots, head, chain) && head.Some? && o.Occupied?
    requires head.value < |slots| && slots[head.value].Vacant?
    ensures IsFreeList(slots[head.value := o], slots[head.value].nextFree, chain[1..])
  {
    var rest, slots' := chain[1..], slots[head.value := o];
    assert Links(slots, chain, 0);
    forall k | 0 <= k < |rest|
      ensures Links(slots', rest, k)
    {
      assert Links(slots, chain, k + 1);
    }
    forall i | 0 <= i < |slots'| && slots'[i].Vacant?
      ensures i in rest
    {
      var k :| 0 <= k < |chain| && chain[k] == i;
      assert rest[k - 1] == i;
    }
  }

  lemma PushFreeList(a: Arena, i: nat, chain: seq<nat>)
    requires IsFreeList(a.slots, a.freeHead, chain)
    requires i < |a.slots| && a.slots[i].Occupied?
    ensures IsFreeList(Release(a, i).slots, Some(i), [i] + chain)
  {
    var slots', c := Release(a, i).slots, [i] + chain;
    assert forall k :: 0 <= k < |chain| ==> Links(a.slots, chain, k);
    forall k | 0 <= k < |c|
      ensures Links(slots', c, k)
    {
      if k > 0 {
        assert Links(a.slots, chain, k - 1);
      }
    }
    forall n | 0 <= n < |slots'| && slots'[n].Vacant?
      ensures n in c
    {
      if n != i {
        assert n in chain;
      }
    }
    forall j, k | 0 <= j < k < |c|
      ensures c[j] != c[k]
    {
      assert Links(a.slots, chain, k - 1);
    }
  }

  lemma RemoveKeepsInv(a: Arena, id: RequestId)
    requires Inv(a)
    ensures Inv(RemoveFrom(a, id).0)
  {
    if Lookup(a, id).Ok? {
      var chain :| IsFreeList(a.slots, a.freeHead, chain);
      PushFreeList(a, id.index, chain);
      CountUpdate(a.slots, id.index, Release(a, id.index).slots[id.index]);
      CountBounds(a.slots);
    }
  }

  lemma TakeKeepsInv(a: Arena, id: RequestId)
    requires Inv(a)
    ensures Inv(TakeFrom(a, id).0)
  {
    if Lookup(a, id).Ok? {
      var chain :| IsFreeList(a.slots, a.freeHead, chain);
      var a' := TakeFrom(a, id).0;
      CountUpdate(a.slots, id.index, a'.slots[id.index]);
      forall k | 0 <= k < |chain|
        ensures Links(a'.slots, chain, k)
      {
        assert Links(a.slots, chain, k);
      }
      assert IsFreeList(a'.slots, a'.freeHead, chain);
    }
  }

  function FailedGeneration(s: Slot): nat {
    if s.Occupied? then (s.generation + 1) % TWO_32 else s.generation
  }

  /** The loop of `fail_all`: after `n` rounds the first `n` slots are vacant, their generation moved on if
      they were occupied, and the rest are untouched. */
  lemma {:induction false} FailFirstSlots(a: Arena, n: nat)
    requires n <= |a.slots|
    ensures var b := FailFirst(a, n).0;
      && (forall k :: 0 <= k < n ==> b.slots[k].Vacant? && b.slots[k].generation == FailedGeneration(a.slots[k]))
      && (forall k :: n <= k < |a.slots| ==> b.slots[k] == a.slots[k])
  {
    if n > 0 {
      FailFirstSlots(a, n - 1);
    }
  }

  /** The relinking keeps the free list exact after every round. */
  lemma {:induction false} FailFirstChain(a: Arena, n: nat, chain: seq<nat>) returns (chain': seq<nat>)
    requires n <= |a.slots| && IsFreeList(a.slots, a.freeHead, chain)
    ensures IsFreeList(FailFirst(a, n).0.slots, FailFirst(a, n).0.freeHead, chain')
  {
    chain' := chain;
    if n > 0 {
      chain' := FailFirstChain(a, n - 1, chain);
      var b := FailFirst(a, n - 1).0;
      if b.slots[n - 1].Occupied? {
        PushFreeList(b, n - 1, chain');
        chain' := [n - 1] + chain';
      }
    }
  }

  /** Each sender met is failed once, in slot order. */
  lemma {:induction false} FailFirstSends(a: Arena, n: nat)
    requires n <= |a.slots|
    ensures FailFirst(a, n).1 == Held(a.slots[..n])
  {
    if n > 0 {
      FailFirstSends(a, n - 1);
      FailFirstSlots(a, n - 1);
      HeldConcat(a.slots[..n - 1], a.slots[n - 1]);
      assert a.slots[..n - 1] + [a.slots[n - 1]] == a.slots[..n];
      assert FailFirst(a, n - 1).1 + [] == FailFirst(a, n - 1).1;
    }
  }

  lemma {:induction false} HeldConcat(slots: seq<Slot>, s: Slot)
    ensures Held(slots + [s]) == Held(slots) + SenderOf(s)
  {
    if slots == [] {
      assert slots + [s] == [s];
    } else {
      assert (slots + [s])[1..] == slots[1..] + [s];
      HeldConcat(slots[1..], s);
    }
  }

  /** `fail_all` empties the table, fails exactly the senders it held (once each, in slot order) and
      makes every id stale. */
  lemma FailAllMeaning(a: Arena)
    requires Inv(a)
    ensures var (a', sent) := FailEvery(a);
      && Inv(a') && a'.inFlight == 0
      && |a'.slots| == |a.slots|
      && (forall k :: 0 <= k < |a.slots| ==>
            a'.slots[k].Vacant? && a'.slots[k].generation == FailedGeneration(a.slots[k]))
      && sent == Held(a.slots)
      && Held(a'.slots) == []
      && (forall id :: Lookup(a', id).Err?)
  {
    FailFirstSlots(a, |a.slots|);
    FailFirstSends(a, |a.slots|);
    assert a.slots[..|a.slots|] == a.slots;
    VacantHoldsNothing(FailEvery(a).0.slots);
    FailAllInv(a);
  }

  lemma FailAllInv(a: Arena)
    requires Inv(a)
    ensures Inv(FailEvery(a).0)
  {
    var a' := FailEvery(a).0;
    var n := |a.slots|;
    FailFirstSlots(a, n);
    assert a'.slots == FailFirst(a, n).0.slots && |a'.slots| == n;
    forall i | 0 <= i < n
      ensures a'.slots[i].Vacant? && a'.slots[i].generation < TWO_32
    {
      assert FailFirst(a, n).0.slots[i].Vacant?;
      assert a.slots[i].generation < TWO_32;
    }
    VacantHoldsNothing(a'.slots);
    var chain :| IsFreeList(a.slots, a.freeHead, chain);
    var chain' := FailFirstChain(a, n, chain);
    assert IsFreeList(a'.slots, a'.freeHead, chain');
  }

  lemma {:induction false} VacantHoldsNothing(slots: seq<Slot>)
    requires forall k :: 0 <= k < |slots| ==> slots[k].Vacant?
    ensures Held(slots) == [] && CountOccupied(slots) == 0
  {
    if slots != [] {
      VacantHoldsNothing(slots[1..]);
    }
  }

  /** A released slot is the next one reused, under the next generation. */
  lemma ReuseIsLifo(a: Arena, id: RequestId, request: Request, tx: Sender)
    requires Inv(a) && Lookup(a, id).Ok?
    ensures Inv(RemoveFrom(a, id).0)
    ensures var r := InsertInto(RemoveFrom(a, id).0, request, tx);
      && r.Some?
      && r.value.1 == RequestId(id.index, (id.generation + 1) % TWO_32)
      && Lookup(r.value.0, r.value.1) == Ok(InFlight(request, Some(tx)))
      && Lookup(r.value.0, id) == Err(Stale(id.index, (id.generation + 1) % TWO_32))
      && r.value.0.freeHead == a.freeHead
  {
    RemoveKeepsInv(a, id);
  }

  // ---------------------------------------------------------------- whole runs

  datatype Op =
    | DoInsert(request: Request, tx: Sender)
    | DoRemove(id: RequestId)
    | DoTake(id: RequestId)
    | DoFailAll

  datatype Event =
    | Inserted(id: RequestId, tx: Sender)
    | Panicked
    | Removed(id: RequestId, gone: InFlight)
    | Took(id: RequestId, out: Option<Sender>)
    | Refused
    | FailedAll(sent: seq<Sender>)

  function Step(a: Arena, op: Op): (r: (Arena, Event))
    requires Inv(a)
    ensures Inv(r.0)
  {
    match op
    case DoInsert(request, tx) =>
      InsertKeepsInv(a, request, tx);
      (match InsertInto(a, request, tx)
       case None => (a, Panicked)
       case Some((a', id)) => (a', Inserted(id, tx)))
    case DoRemove(id) =>
      RemoveKeepsInv(a, id);
      var (a', r) := RemoveFrom(a, id);
      (a', if r.Ok? then Removed(id, r.value) else Refused)
    case DoTake(id) =>
      TakeKeepsInv(a, id);
      var (a', r) := TakeFrom(a, id);
      (a', if r.Ok? then Took(id, r.value) else Refused)
    case DoFailAll =>
      FailAllMeaning(a);
      var (a', sent) := FailEvery(a);
      (a', FailedAll(sent))
  }

  /** The table and the history left by performing `ops` on an empty table. */
  function Run(ops: seq<Op>): (r: (Arena, seq<Event>))
    ensures Inv(r.0) && |r.1| == |ops|
  {
    EmptyInv();
    if ops == [] then (EMPTY, [])
    else
      var (a, events) := Run(ops[..|ops| - 1]);
      var (a', e) := Step(a, ops[|ops| - 1]);
      (a', events + [e])
  }

  ghost predicate Ends(e: Event, id: RequestId) {
    e.FailedAll? || (e.Removed? && e.id == id)
  }

  /** `id` was inserted, and neither removed nor failed since: the map the table stands for, read off its history. */
  ghost predicate LiveIn(events: seq<Event>, id: RequestId) {
    exists m :: 0 <= m < |events| && BornAt(events, id, m) && NotEndedAfter(events, id, m)
  }

  ghost predicate BornAt(events: seq<Event>, id: RequestId, m: nat)
    requires m < |events|
  {
    events[m].Inserted? && events[m].id == id
  }

  ghost predicate NotEndedAfter(events: seq<Event>, id: RequestId, m: nat) {
    forall n :: m < n < |events| ==> !Ends(events[n], id)
  }

  lemma LiveAfter(events: seq<Event>, e: Event, id: RequestId)
    ensures LiveIn(events + [e], id)
       <==> (e.Inserted? && e.id == id) || (LiveIn(events, id) && !Ends(e, id))
  {
    var all := events + [e];
    if LiveIn(all, id) {
      var m :| 0 <= m < |all| && BornAt(all, id, m) && NotEndedAfter(all, id, m);
      if m < |events| {
        assert all[|events|] == e;
        assert forall n :: m < n < |events| ==> all[n] == events[n];
        assert BornAt(events, id, m) && NotEndedAfter(events, id, m);
      }
    }
    if e.Inserted? && e.id == id {
      assert BornAt(all, id, |events|) && NotEndedAfter(all, id, |events|);
    } else if LiveIn(events, id) && !Ends(e, id) {
      var m :| 0 <= m < |events| && BornAt(events, id, m) && NotEndedAfter(events, id, m);
      assert BornAt(all, id, m) && NotEndedAfter(all, id, m);
    }
  }

  /** After any run, the table answers for an id exactly when its history says the id is live. */
  lemma {:induction false} LookupIffLive(ops: seq<Op>, id: RequestId)
    ensures Lookup(Run(ops).0, id).Ok? <==> LiveIn(Run(ops).1, id)
  {
    if ops != [] {
      var (a, events) := Run(ops[..|ops| - 1]);
      var op := ops[|ops| - 1];
      LookupIffLive(ops[..|ops| - 1], id);
      LiveAfter(events, Step(a, op).1, id);
      StepLookup(a, op, id);
    }
  }

  /** One operation changes what the table answers for an id exactly as its event says. */
  lemma StepLookup(a: Arena, op: Op, id: RequestId)
    requires Inv(a)
    ensures var (a', e) := Step(a, op);
      Lookup(a', id).Ok? <==> (e.Inserted? && e.id == id) || (Lookup(a, id).Ok? && !Ends(e, id))
  {
    if op.DoFailAll? {
      FailAllMeaning(a);
    } else if op.DoInsert? {
      HeadIsVacant(a);
    }
  }

  // ---------------------------------------------------------------- what a live id maps to

  /** `take_completion` has been called for the id after operation m. */
  ghost predicate TakenAfter(ops: seq<Op>, id: RequestId, m: nat) {
    exists n :: m < n < |ops| && ops[n] == DoTake(id)
  }

  /** What was inserted by operation m, its sender gone if it has been taken since. */
  ghost function EntryOf(ops: seq<Op>, id: RequestId, m: nat): InFlight
    requires m < |ops| && ops[m].DoInsert?
  {
    InFlight(ops[m].request, if TakenAfter(ops, id, m) then None else Some(ops[m].tx))
  }

  lemma StepInserts(a: Arena, op: Op, id: RequestId)
    requires Inv(a) && Step(a, op).1.Inserted? && Step(a, op).1.id == id
    ensures op.DoInsert? && Step(a, op).1.tx == op.tx
    ensures Lookup(a, id).Err? && Lookup(Step(a, op).0, id) == Ok(InFlight(op.request, Some(op.tx)))
  {
    HeadIsVacant(a);
  }

  /** An operation that does not end a live id leaves what it maps to, but for its sender when it is taken. */
  lemma StepKeepsEntry(a: Arena, op: Op, id: RequestId, entry: InFlight)
    requires Inv(a) && Lookup(a, id) == Ok(entry) && !Ends(Step(a, op).1, id)
    ensures Lookup(Step(a, op).0, id) == Ok(if op == DoTake(id) then entry.(completion := None) else entry)
  {
    match op
    case DoInsert(_, _) => HeadIsVacant(a);
    case DoRemove(_) =>
    case DoTake(_) =>
    case DoFailAll =>
  }

  lemma EntryLater(ops: seq<Op>, op: Op, id: RequestId, m: nat)
    requires m < |ops| && ops[m].DoInsert?
    ensures EntryOf(ops + [op], id, m)
         == (if op == DoTake(id) then EntryOf(ops, id, m).(completion := None) else EntryOf(ops, id, m))
  {
    var all := ops + [op];
    if TakenAfter(ops, id, m) {
      var n :| m < n < |ops| && ops[n] == DoTake(id);
      assert all[n] == DoTake(id);
    }
    if op == DoTake(id) {
      assert all[|ops|] == DoTake(id);
    }
  }

  lemma LiveBefore(events: seq<Event>, e: Event, id: RequestId, m: nat)
    requires m < |events| && BornAt(events + [e], id, m) && NotEndedAfter(events + [e], id, m)
    ensures BornAt(events, id, m) && NotEndedAfter(events, id, m) && !Ends(e, id)
  {
    var all := events + [e];
    assert all[|events|] == e;
    forall n | m < n < |events| ensures !Ends(events[n], id) {
      assert all[n] == events[n];
    }
  }

  /** After any run, a live id maps to the request and the sender that were inserted under it. */
  lemma {:induction false} LookupIsWhatWasInserted(ops: seq<Op>, id: RequestId, m: nat)
    requires m < |ops| && BornAt(Run(ops).1, id, m) && NotEndedAfter(Run(ops).1, id, m)
    ensures ops[m].DoInsert? && Lookup(Run(ops).0, id) == Ok(EntryOf(ops, id, m))
    decreases |ops|
  {
    var prefix, op := ops[..|ops| - 1], ops[|ops| - 1];
    var (a, events) := Run(prefix);
    assert ops == prefix + [op];
    if m == |prefix| {
      StepInserts(a, op, id);
      assert !TakenAfter(ops, id, m);
    } else {
      LiveBefore(events, Step(a, op).1, id, m);
      LookupIsWhatWasInserted(prefix, id, m);
      StepKeepsEntry(a, op, id, EntryOf(prefix, id, m));
      EntryLater(prefix, op, id, m);
    }
  }

  lemma LiveHasBirth(events: seq<Event>, id: RequestId) returns (m: nat)
    requires LiveIn(events, id)
    ensures m < |events| && BornAt(events, id, m) && NotEndedAfter(events, id, m)
  {
    m :| 0 <= m < |events| && BornAt(events, id, m) && NotEndedAfter(events, id, m);
  }

  /** The event of operation n, on the table that the operations before it left. */
  lemma {:induction false} EventOfStep(ops: seq<Op>, n: nat)
    requires n < |ops|
    ensures Run(ops).1[n] == Step(Run(ops[..n]).0, ops[n]).1
  {
    if n < |ops| - 1 {
      EventOfStep(ops[..|ops| - 1], n);
      assert ops[..|ops| - 1][..n] == ops[..n];
    }
  }

  /** Whatever is removed is what was inserted under its id, in that life of the id. */
  lemma RemovedIsWhatWasInserted(ops: seq<Op>, n: nat) returns (m: nat)
    requires n < |ops| && Run(ops).1[n].Removed?
    ensures var id := Run(ops).1[n].id;
      && m < n && BornAt(Run(ops[..n]).1, id, m) && NotEndedAfter(Run(ops[..n]).1, id, m)
      && ops[m].DoInsert? && Run(ops).1[n].gone == EntryOf(ops[..n], id, m)
  {
    EventOfStep(ops, n);
    m := BirthBefore(ops, n, Run(ops).1[n].id);
  }

  /** Whatever sender is taken is the one that was inserted under its id, unless it was taken before. */
  lemma TakenIsWhatWasInserted(ops: seq<Op>, n: nat) returns (m: nat)
    requires n < |ops| && Run(ops).1[n].Took?
    ensures var id := Run(ops).1[n].id;
      && m < n && BornAt(Run(ops[..n]).1, id, m) && NotEndedAfter(Run(ops[..n]).1, id, m)
      && ops[m].DoInsert? && Run(ops).1[n].out == EntryOf(ops[..n], id, m).completion
  {
    EventOfStep(ops, n);
    m := BirthBefore(ops, n, Run(ops).1[n].id);
  }

  lemma BirthBefore(ops: seq<Op>, n: nat, id: RequestId) returns (m: nat)
    requires n < |ops| && Lookup(Run(ops[..n]).0, id).Ok?
    ensures m < n && BornAt(Run(ops[..n]).1, id, m) && NotEndedAfter(Run(ops[..n]).1, id, m)
    ensures ops[m].DoInsert? && Lookup(Run(ops[..n]).0, id) == Ok(EntryOf(ops[..n], id, m))
  {
    LookupIffLive(ops[..n], id);
    m := LiveHasBirth(Run(ops[..n]).1, id);
    LookupIsWhatWasInserted(ops[..n], id, m);
  }

  // ---------------------------------------------------------------- ids and generations

  /** How many requests have been inserted at slot `i`. */
  function Births(events: seq<Event>, i: nat): nat {
    if events == [] then 0
    else
      var e := events[|events| - 1];
      Births(events[..|events| - 1], i) + (if e.Inserted? && e.id.index == i then 1 else 0)
  }

  predicate GenerationIs(slots: seq<Slot>, i: nat, births: nat) {
    if i >= |slots| then births == 0
    else births > 0 && slots[i].generation == (if slots[i].Occupied? then births - 1 else births) % TWO_32
  }

  ghost predicate GenerationsFollowBirths(a: Arena, events: seq<Event>) {
    forall i: nat {:trigger Births(events, i)} ::
      GenerationIs(a.slots, i, Births(events, i))
  }

  lemma BirthsAfter(events: seq<Event>, e: Event, i: nat)
    ensures Births(events + [e], i) == Births(events, i) + (if e.Inserted? && e.id.index == i then 1 else 0)
  {
    assert (events + [e])[..|events|] == events;
  }

  /** The generation of a slot counts, modulo 2^32, the requests it has hosted and let go. */
  lemma {:induction false} RunGenerations(ops: seq<Op>)
    ensures GenerationsFollowBirths(Run(ops).0, Run(ops).1)
  {
    if ops != [] {
      var (a, events) := Run(ops[..|ops| - 1]);
      var op := ops[|ops| - 1];
      RunGenerations(ops[..|ops| - 1]);
      var (a', e) := Step(a, op);
      StepGenerations(a, events, op);
    }
  }

  lemma StepGenerations(a: Arena, events: seq<Event>, op: Op)
    requires Inv(a) && GenerationsFollowBirths(a, events)
    ensures GenerationsFollowBirths(Step(a, op).0, events + [Step(a, op).1])
  {
    var (a', e) := Step(a, op);
    forall i: nat
      ensures GenerationIs(a'.slots, i, Births(events + [e], i))
    {
      assert GenerationIs(a.slots, i, Births(events, i));
      BirthsAfter(events, e, i);
      StepGeneration(a, op, i, Births(events, i));
    }
  }

  lemma StepGeneration(a: Arena, op: Op, i: nat, b: nat)
    requires Inv(a) && GenerationIs(a.slots, i, b)
    ensures var (a', e) := Step(a, op);
      GenerationIs(a'.slots, i, b + (if e.Inserted? && e.id.index == i then 1 else 0))
  {
    if i < |a.slots| && a.slots[i].Occupied? {
      NextGeneration(b - 1);
    }
    match op
    case DoFailAll => FailFirstSlots(a, |a.slots|);
    case DoInsert(_, _) => HeadIsVacant(a);
    case DoRemove(_) =>
    case DoTake(_) =>
  }

  lemma NextGeneration(n: nat)
    ensures (n % TWO_32 + 1) % TWO_32 == (n + 1) % TWO_32
  {}

  /** The k-th request hosted by a slot is given generation k modulo 2^32. */
  lemma {:induction false} IdOfBirth(ops: seq<Op>, n: nat)
    requires n < |ops| && Run(ops).1[n].Inserted?
    ensures var events := Run(ops).1;
      events[n].id.generation == Births(events[..n], events[n].id.index) % TWO_32
  {
    var prefix := ops[..|ops| - 1];
    var (a, events) := Run(prefix);
    assert Run(ops).1[..n] == events[..n];
    if n < |prefix| {
      IdOfBirth(prefix, n);
    } else {
      RunGenerations(prefix);
      HeadIsVacant(a);
      var i := Run(ops).1[n].id.index;
      var b := Births(events, i);
      assert events[..n] == events;
    }
  }

  lemma {:induction false} BirthsMonotone(events: seq<Event>, i: nat, m: nat, n: nat)
    requires m <= n <= |events|
    ensures Births(events[..m], i) <= Births(events[..n], i)
    ensures m < n && events[m].Inserted? && events[m].id.index == i ==> Births(events[..m], i) < Births(events[..n], i)
  {
    if m < n {
      assert events[..n] == events[..n - 1] + [events[n - 1]];
      BirthsAfter(events[..n - 1], events[n - 1], i);
      BirthsMonotone(events, i, m, n - 1);
    }
  }

  lemma {:induction false} FindBirth(events: seq<Event>, i: nat, k: nat) returns (n: nat)
    requires k < Births(events, i)
    ensures n < |events| && events[n].Inserted? && events[n].id.index == i && Births(events[..n], i) == k
  {
    var last := |events| - 1;
    if Births(events[..last], i) == k {
      n := last;
    } else {
      n := FindBirth(events[..last], i, k);
      assert events[..last][..n] == events[..n];
    }
  }

  ghost predicate IdsDistinct(events: seq<Event>) {
    forall m, n :: 0 <= m < n < |events| && events[m].Inserted? && events[n].Inserted? ==> events[m].id != events[n].id
  }

  ghost predicate BirthOrderGivesIds(events: seq<Event>) {
    forall n :: 0 <= n < |events| && events[n].Inserted?
      ==> events[n].id.generation == Births(events[..n], events[n].id.index) % TWO_32
  }

  lemma RepeatedId(events: seq<Event>, i: nat)
    requires BirthOrderGivesIds(events) && Births(events, i) > TWO_32
    ensures !IdsDistinct(events)
  {
    var m := FindBirth(events, i, 0);
    var n := FindBirth(events, i, TWO_32);
    assert events[m].id == events[n].id == RequestId(i, 0);
    assert m != n;
  }

  lemma NeverRepeated(events: seq<Event>, m: nat, n: nat)
    requires m < n < |events| && events[m].Inserted? && events[n].Inserted?
    requires events[m].id.generation == Births(events[..m], events[m].id.index) % TWO_32
    requires events[n].id.generation == Births(events[..n], events[n].id.index) % TWO_32
    requires Births(events, events[n].id.index) <= TWO_32
    ensures events[m].id != events[n].id
  {
    var i := events[n].id.index;
    if events[m].id.index == i {
      BirthsMonotone(events, i, m, n);
      BirthsMonotone(events, i, n, |events|);
      assert Births(events[..|events|], i) == Births(events, i) by {
        assert events[..|events|] == events;
      }
      SmallGenerationsDiffer(Births(events[..m], i), Births(events[..n], i));
    }
  }

  lemma SmallGenerationsDiffer(m: nat, n: nat)
    requires m < n < TWO_32
    ensures m % TWO_32 != n % TWO_32
  {}

  /** `insert` never hands out an id twice, exactly as long as no slot hosts more than 2^32 requests,
      that is, as long as no slot is reused after its 2^32-th release. */
  lemma IdsDistinctIff(ops: seq<Op>)
    ensures var events := Run(ops).1;
      IdsDistinct(events) <==> forall i: nat :: Births(events, i) <= TWO_32
  {
    var events := Run(ops).1;
    forall n | 0 <= n < |events| && events[n].Inserted?
      ensures events[n].id.generation == Births(events[..n], events[n].id.index) % TWO_32
    {
      IdOfBirth(ops, n);
    }
    if i: nat :| Births(events, i) > TWO_32 {
      RepeatedId(events, i);
    } else {
      forall m, n | 0 <= m < n < |events| && events[m].Inserted? && events[n].Inserted?
        ensures events[m].id != events[n].id
      {
        NeverRepeated(events, m, n);
      }
    }
  }

  lemma {:induction false} RunPrefix(ops: seq<Op>, n: nat)
    requires n <= |ops|
    ensures Run(ops[..n]).1 == Run(ops).1[..n]
  {
    if n < |ops| {
      RunPrefix(ops[..|ops| - 1], n);
      assert ops[..|ops| - 1][..n] == ops[..n];
    } else {
      assert ops[..n] == ops;
    }
  }

  lemma DeadStaysDead(events: seq<Event>, id: RequestId, born: nat, n: nat, later: nat)
    requires IdsDistinct(events) && born < n <= later <= |events| && BornAt(events, id, born)
    requires !LiveIn(events[..n], id)
    ensures !LiveIn(events[..later], id)
  {
    var early, late := events[..n], events[..later];
    if LiveIn(late, id) {
      var m :| 0 <= m < later && BornAt(late, id, m) && NotEndedAfter(late, id, m);
      assert m == born;
      assert forall k :: m < k < n ==> early[k] == late[k];
      assert BornAt(early, id, m) && NotEndedAfter(early, id, m);
    }
  }

  /** Once an id has been inserted and has ended, the table refuses it at every later moment. */
  lemma EndedForever(ops: seq<Op>, id: RequestId, born: nat, n: nat, later: nat)
    requires forall i: nat :: Births(Run(ops).1, i) <= TWO_32
    requires born < n <= later <= |ops|
    requires BornAt(Run(ops).1, id, born)
    requires Lookup(Run(ops[..n]).0, id).Err?
    ensures Lookup(Run(ops[..later]).0, id).Err?
  {
    var events := Run(ops).1;
    IdsDistinctIff(ops);
    RunPrefix(ops, n);
    RunPrefix(ops, later);
    LookupIffLive(ops[..n], id);
    LookupIffLive(ops[..later], id);
    DeadStaysDead(events, id, born, n, later);
  }

  // ---------------------------------------------------------------- senders

  function PutIn(e: Event, tx: Sender): nat {
    if e.Inserted? && e.tx == tx then 1 else 0
  }

  function TakenOut(e: Event, tx: Sender): nat {
    match e
    case Removed(_, gone) => if gone.completion == Some(tx) then 1 else 0
    case Took(_, out) => if out == Some(tx) then 1 else 0
    case FailedAll(sent) => multiset(sent)[tx]
    case _ => 0
  }

  function TimesIn(events: seq<Event>, tx: Sender): nat {
    if events == [] then 0 else TimesIn(events[..|events| - 1], tx) + PutIn(events[|events| - 1], tx)
  }

  function TimesOut(events: seq<Event>, tx: Sender): nat {
    if events == [] then 0 else TimesOut(events[..|events| - 1], tx) + TakenOut(events[|events| - 1], tx)
  }

  lemma InsertConserves(a: Arena, request: Request, added: Sender, tx: Sender)
    requires Inv(a)
    ensures var r := InsertInto(a, request, added);
      r.Some? ==> HeldTimes(r.value.0.slots, tx) == HeldTimes(a.slots, tx) + (if tx == added then 1 else 0)
  {
    HeadIsVacant(a);
    var r := InsertInto(a, request, added);
    if a.freeHead.Some? {
      HeldUpdate(a.slots, a.freeHead.value, r.value.0.slots[a.freeHead.value], tx);
    } else if r.Some? {
      HeldAppend(a.slots, Occupied(0, InFlight(request, Some(added))), tx);
    }
  }

  lemma RemoveConserves(a: Arena, id: RequestId, tx: Sender)
    ensures var (a', r) := RemoveFrom(a, id);
      HeldTimes(a.slots, tx) == HeldTimes(a'.slots, tx) + (if r.Ok? && r.value.completion == Some(tx) then 1 else 0)
  {
    if Lookup(a, id).Ok? {
      HeldUpdate(a.slots, id.index, Release(a, id.index).slots[id.index], tx);
    }
  }

  lemma TakeConserves(a: Arena, id: RequestId, tx: Sender)
    ensures var (a', r) := TakeFrom(a, id);
      HeldTimes(a.slots, tx) == HeldTimes(a'.slots, tx) + (if r.Ok? && r.value == Some(tx) then 1 else 0)
  {
    if Lookup(a, id).Ok? {
      HeldUpdate(a.slots, id.index, TakeFrom(a, id).0.slots[id.index], tx);
    }
  }

  lemma FailConserves(a: Arena, tx: Sender)
    requires Inv(a)
    ensures var (a', sent) := FailEvery(a);
      HeldTimes(a.slots, tx) == multiset(sent)[tx] && HeldTimes(a'.slots, tx) == 0
  {
    FailAllMeaning(a);
    HeldTimesIsHeld(a.slots, tx);
    HeldTimesIsHeld(FailEvery(a).0.slots, tx);
  }

  lemma StepConserves(a: Arena, op: Op, tx: Sender)
    requires Inv(a)
    ensures var (a', e) := Step(a, op);
      HeldTimes(a.slots, tx) + PutIn(e, tx) == HeldTimes(a'.slots, tx) + TakenOut(e, tx)
  {
    match op
    case DoInsert(request, added) => InsertConserves(a, request, added, tx);
    case DoRemove(id) => RemoveConserves(a, id, tx);
    case DoTake(id) => TakeConserves(a, id, tx);
    case DoFailAll => FailConserves(a, tx);
  }

  /** Conservation: over any run, a sender has been put in as often as it is still held plus as often
      as it has left through `take_completion`, `remove` or `fail_all`. */
  lemma {:induction false} SendersConserved(ops: seq<Op>, tx: Sender)
    ensures var (a, events) := Run(ops);
      TimesIn(events, tx) == HeldTimes(a.slots, tx) + TimesOut(events, tx)
  {
    if ops != [] {
      var (a, events) := Run(ops[..|ops| - 1]);
      SendersConserved(ops[..|ops| - 1], tx);
      StepConserves(a, ops[|ops| - 1], tx);
      assert Run(ops).1[..|events|] == events;
    }
  }

  /** A sender inserted once is, at any time, either still held or has left exactly once. */
  lemma SenderLeavesOnce(ops: seq<Op>, tx: Sender)
    requires TimesIn(Run(ops).1, tx) == 1
    ensures TimesOut(Run(ops).1, tx) == if tx in Held(Run(ops).0.slots) then 0 else 1
  {
    SendersConserved(ops, tx);
    HeldTimesIsHeld(Run(ops).0.slots, tx);
    assert tx in multiset(Held(Run(ops).0.slots)) <==> tx in Held(Run(ops).0.slots);
  }

  // ---------------------------------------------------------------- the table itself

  lemma FailEverySends(a: Arena)
    requires Inv(a)
    ensures Inv(FailEvery(a).0) && FailEvery(a).1 == Held(a.slots)
  {
    FailAllMeaning(a);
  }

  class DispatchTable {
    var slots: seq<Slot>
    var freeHead: Option<nat>
    var inFlight: nat

    function State(): Arena
      reads this
    {
      Arena(slots, freeHead, inFlight)
    }

    ghost predicate Valid()
      reads this
    {
      Inv(State())
    }

    constructor ()
      ensures Valid() && State() == EMPTY
    {
      slots, freeHead, inFlight := [], None, 0;
      new;
      EmptyInv();
    }

    method Insert(request: Request, completion: Sender) returns (id: Option<RequestId>)
      requires Valid()
      modifies this
      ensures Valid()
      ensures var r := old(InsertInto(State(), request, completion));
        if r.None? then id == None && State() == old(State())
        else id == Some(r.value.1) && State() == r.value.0
    {
      InsertKeepsInv(State(), request, completion);
      HeadIsVacant(State());
      var inflight := InFlight(request, Some(completion));
      if freeHead.Some? {
        var index := freeHead.value;
        freeHead := slots[index].nextFree;
        var generation := slots[index].generation;
        slots := slots[index := Occupied(generation, inflight)];
        inFlight := SaturatingInc(inFlight);
        return Some(RequestId(index, generation));
      }
      if |slots| > U32_MAX {
        return None;
      }
      var index := |slots|;
      slots := slots + [Occupied(0, inflight)];
      inFlight := SaturatingInc(inFlight);
      return Some(RequestId(index, 0));
    }

    method Remove(id: RequestId) returns (r: Result<InFlight, DispatchError>)
      requires Valid()
      modifies this
      ensures Valid()
      ensures (State(), r) == old(RemoveFrom(State(), id))
    {
      RemoveKeepsInv(State(), id);
      var prevFreeHead := freeHead;
      r := Get(id);
      if r.Err? {
        return;
      }
      var nextGeneration := (slots[id.index].generation + 1) % TWO_32;
      slots := slots[id.index := Vacant(nextGeneration, prevFreeHead)];
      freeHead := Some(id.index);
      inFlight := if inFlight > 0 then inFlight - 1 else 0;
    }

    method Get(id: RequestId) returns (r: Result<InFlight, DispatchError>)
      ensures r == Lookup(State(), id)
    {
      if id.index >= |slots| {
        return Err(OutOfRange(id.index));
      }
      match slots[id.index]
      case Occupied(generation, inflight) =>
        if generation == id.generation {
          return Ok(inflight);
        }
        return Err(Stale(id.index, generation));
      case Vacant(_, _) =>
        return Err(Released(id.index));
    }

    /** `get_mut(id)?.take_completion()`. */
    method TakeCompletion(id: RequestId) returns (r: Result<Option<Sender>, DispatchError>)
      requires Valid()
      modifies this
      ensures Valid()
      ensures (State(), r) == old(TakeFrom(State(), id))
    {
      TakeKeepsInv(State(), id);
      var found := Get(id);
      if found.Err? {
        return Err(found.error);
      }
      slots := slots[id.index := Occupied(slots[id.index].generation, found.value.(completion := None))];
      return Ok(found.value.completion);
    }

    /** `sent` lists the senders that are sent `Err(failure())`, in order. */
    method FailAll() returns (failed: nat, sent: seq<Sender>)
      requires Valid()
      modifies this
      ensures Valid() && State() == old(FailEvery(State()).0)
      ensures failed == |sent| && sent == old(Held(slots))
    {
      FailEverySends(State());
      failed, sent := Drain();
      inFlight := 0;
    }

    /** The loop of `fail_all`. */
    method Drain() returns (failed: nat, sent: seq<Sender>)
      modifies this
      ensures (State(), sent) == old(FailFirst(State(), |slots|)) && failed == |sent|
    {
      ghost var start := State();
      failed, sent := 0, [];
      for i := 0 to |slots|
        invariant |slots| == |start.slots|
        invariant (State(), sent) == FailFirst(start, i) && failed == |sent|
      {
        var slot := slots[i];
        if slot.Occupied? {
          slots := slots[i := Vacant((slot.generation + 1) % TWO_32, freeHead)];
          freeHead := Some(i);
          if slot.inflight.completion.Some? {
            sent := sent + [slot.inflight.completion.value];
            failed := failed + 1;
          } else {
            assert sent + SenderOf(slot) == sent;
          }
        }
      }
    }
  }
}

/**
  The synthetic response object handed to JavaScript handlers, the ops it calls, and the slot those
  ops assemble a response in.

  `Apply` is one call on the response object; its lemmas follow any sequence of calls, interleaved
  with the host settling the request on its own. `ResponseSlot` and `HttpResponse` are the objects.

  The bridge calls `op_nexide_send_response` with the status, the headers and the body as three
  arguments, while the op reads a head object and a body. Everything is proved for both
  conventions, `Positional` and `HeadObject`, and where they differ both results are stated.
 */
module HttpBridge {
  import opened Bytes
  import opened Wrappers

  type Header = (string, string)

  /** Statuses are JavaScript integers until `parse_head` has read them. */
  datatype Head = Head(status: int, headers: seq<Header>)

  datatype Payload = Payload(head: Head, body: seq<Byte>)

  datatype ResponseError =
    | HeadAlreadySent | AlreadyFinished | ChunkBeforeHead | FinishWithoutHead | InvalidStatus(status: int)

  // ---------------------------------------------------------------- the slot

  datatype Slot = Slot(head: Option<Head>, chunks: seq<seq<Byte>>, finished: bool)

  const EMPTY_SLOT: Slot := Slot(None, [], false)

  function SlotHead(s: Slot, h: Head): Result<Slot, ResponseError> {
    if s.finished then Err(AlreadyFinished)
    else if s.head.Some? then Err(HeadAlreadySent)
    else if !(100 <= h.status <= 599) then Err(InvalidStatus(h.status))
    else Ok(s.(head := Some(h)))
  }

  function SlotChunk(s: Slot, chunk: seq<Byte>): Result<Slot, ResponseError> {
    if s.finished then Err(AlreadyFinished)
    else if s.head.None? then Err(ChunkBeforeHead)
    else Ok(if chunk == [] then s else s.(chunks := s.chunks + [chunk]))
  }

  function SlotFinish(s: Slot): Result<Payload, ResponseError> {
    if s.head.None? then Err(FinishWithoutHead) else Ok(Payload(s.head.value, Flatten(s.chunks)))
  }

  // ---------------------------------------------------------------- the ops

  datatype Convention = Positional | HeadObject

  datatype Op = SendHead(head: Head) | SendChunk(bytes: seq<Byte>) | SendEnd | SendResponse(head: Head, body: seq<Byte>)

  /** What an op throws: a protocol error of the slot, a TypeError for its arguments, or that the request is gone. */
  datatype OpError = Protocol(error: ResponseError) | BadArguments | Gone

  /** The response object's own fields and the host's side of the request; `slot` is None once settled. */
  datatype Bridge = Bridge(
    headSent: bool, ended: bool, queued: seq<seq<Byte>>, pending: Option<Head>, statusCode: int,
    slot: Option<Slot>, delivered: Option<Payload>, log: seq<(Op, Option<OpError>)>)

  const FRESH: Bridge := Bridge(false, false, [], None, 200, Some(EMPTY_SLOT), None, [])

  /** How V8 reads an integer as 32 unsigned bits. */
  function ToUint32(n: int): nat { n % 0x1_0000_0000 }

  lemma Uint32Is(n: int)
    ensures 0 <= n < 0x1_0000_0000 ==> ToUint32(n) == n
    ensures ToUint32(n + 0x1_0000_0000) == ToUint32(n)
  {}

  /** The head as the host keeps it, if its status then fits 16 bits. */
  function ParseHead(h: Head): Option<Head> {
    if ToUint32(h.status) > 0xFFFF then None else Some(h.(status := ToUint32(h.status)))
  }

  /** A status that is parsed to one the slot takes. */
  predicate GoodStatus(status: int) { 100 <= ToUint32(status) <= 599 }

  /** The host's side of an op: the slot, the delivered payload, and what is thrown. */
  function Perform(c: Convention, slot: Option<Slot>, op: Op): (Option<Slot>, Option<Payload>, Option<OpError>) {
    match op
    case SendHead(h) =>
      var parsed := ParseHead(h);
      if parsed.None? then (slot, None, Some(BadArguments))
      else if slot.None? then (slot, None, Some(Gone))
      else Stored(slot.value, SlotHead(slot.value, parsed.value))
    case SendChunk(bytes) =>
      if slot.None? then (slot, None, Some(Gone)) else Stored(slot.value, SlotChunk(slot.value, bytes))
    case SendEnd =>
      if slot.None? then (slot, None, Some(Gone)) else Settle(slot.value)
    case SendResponse(h, body) =>
      var parsed := ParseHead(h);
      if c == HeadObject || parsed.None? then (slot, None, Some(BadArguments))
      else if slot.None? then (slot, None, Some(Gone))
      else
        match SlotHead(slot.value, parsed.value)
        case Err(e) => (slot, None, Some(Protocol(e)))
        case Ok(s) =>
          if body == [] then Settle(s)
          else match SlotChunk(s, body)
            case Err(e) => (Some(s), None, Some(Protocol(e)))
            case Ok(s') => Settle(s')
  }

  function Stored(s: Slot, r: Result<Slot, ResponseError>): (Option<Slot>, Option<Payload>, Option<OpError>) {
    match r
    case Ok(s') => (Some(s'), None, None)
    case Err(e) => (Some(s), None, Some(Protocol(e)))
  }

  /** `settle_ok`: the slot is taken before it is finished. */
  function Settle(s: Slot): (Option<Slot>, Option<Payload>, Option<OpError>) {
    match SlotFinish(s)
    case Ok(p) => (None, Some(p), None)
    case Err(e) => (Some(EMPTY_SLOT), None, Some(Protocol(e)))
  }

  function Do(c: Convention, b: Bridge, op: Op): (Bridge, Option<OpError>) {
    var (slot, payload, err) := Perform(c, b.slot, op);
    (b.(slot := slot, delivered := if payload.Some? then payload else b.delivered, log := b.log + [(op, err)]), err)
  }

  // ---------------------------------------------------------------- the response object

  /** A header argument: what it is decides how it is read; entries are what `Object.entries` lists. */
  datatype Arg =
    | Undefined
    | Falsy                             // null, false, 0
    | Text(entries: seq<Header>)
    | Pairs(pairs: seq<Header>)         // an array whose first element is an array
    | Flat(items: seq<string>)          // names and values in turn
    | Object(entries: seq<Header>)

  function PairUp(items: seq<string>): seq<Header> {
    if |items| < 2 then [] else [(items[0], items[1])] + PairUp(items[2..])
  }

  lemma {:induction false} PairUpLength(items: seq<string>)
    ensures |PairUp(items)| == |items| / 2
  {
    if |items| >= 2 {
      PairUpLength(items[2..]);
    }
  }

  lemma {:induction false} PairAt(items: seq<string>, k: nat)
    requires 2 * k + 1 < |items|
    ensures k < |PairUp(items)| && PairUp(items)[k] == (items[2 * k], items[2 * k + 1])
  {
    if k > 0 {
      PairAt(items[2..], k - 1);
      assert items[2..][2 * (k - 1)] == items[2 * k] && items[2..][2 * (k - 1) + 1] == items[2 * k + 1];
    }
  }

  /** A flat array is read two by two; an odd last name is dropped. */
  lemma PairUpAt(items: seq<string>, k: nat)
    requires k < |items| / 2
    ensures |PairUp(items)| == |items| / 2 && PairUp(items)[k] == (items[2 * k], items[2 * k + 1])
  {
    PairUpLength(items);
    PairAt(items, k);
  }

  lemma {:induction false} PairUpAppend(items: seq<string>, i: nat)
    requires 2 * i + 1 < |items|
    ensures PairUp(items[..2 * i + 2]) == PairUp(items[..2 * i]) + [(items[2 * i], items[2 * i + 1])]
  {
    if i == 0 {
      assert items[..2][2..] == [];
    } else {
      PairUpAppend(items[2..], i - 1);
      assert items[..2 * i + 2][2..] == items[2..][..2 * i];
      assert items[..2 * i][2..] == items[2..][..2 * i - 2];
    }
  }

  function AsArray(arg: Arg): seq<Header> {
    match arg
    case Undefined => []
    case Falsy => []
    case Pairs(pairs) => pairs
    case Flat(items) => PairUp(items)
    case Text(entries) => entries
    case Object(entries) => entries
  }

  /** `writeHead` may be given a status message before the headers; it is ignored. */
  function HeadersGiven(second: Arg, third: Arg): seq<Header> {
    AsArray(if second.Text? || second.Undefined? then third else second)
  }

  /** Header names, which are ASCII, are stored in lower case. */
  function LowerChar(ch: char): char {
    if 'A' <= ch <= 'Z' then (ch as int + 32) as char else ch
  }

  function Lower(name: string): string { seq(|name|, i requires 0 <= i < |name| => LowerChar(name[i])) }

  datatype Call =
    | WriteHead(status: int, second: Arg, third: Arg)
    | SetHeader(name: string, value: string)
    | SetStatusCode(status: int)
    | Write(bytes: seq<Byte>)
    | End(chunk: Option<seq<Byte>>)
    | HostSettles   // finish_error or fail_all, at any time

  function WithPending(b: Bridge): Bridge {
    if b.pending.None? then b.(pending := Some(Head(b.statusCode, []))) else b
  }

  /** The queued chunks are sent one by one; true if an op threw. */
  function SendQueued(c: Convention, b: Bridge, chunks: seq<seq<Byte>>): (Bridge, bool)
    decreases |chunks|
  {
    if chunks == [] then (b, false)
    else
      var (b1, err) := Do(c, b, SendChunk(chunks[0]));
      if err.Some? then (b1, true) else SendQueued(c, b1, chunks[1..])
  }

  function FlushHead(c: Convention, b: Bridge): (Bridge, bool) {
    if b.headSent || b.pending.None? then (b, false)
    else
      var (b1, err) := Do(c, b, SendHead(b.pending.value));
      if err.Some? then (b1, true)
      else
        var (b2, threw) := SendQueued(c, b1.(headSent := true), b1.queued);
        if threw then (b2, true) else (b2.(queued := []), false)
  }

  function DoWrite(c: Convention, b: Bridge, bytes: seq<Byte>): (Bridge, bool) {
    if b.ended then (b, true)
    else
      var (b1, threw) := FlushHead(c, WithPending(b));
      if threw then (b1, true)
      else
        var (b2, err) := Do(c, b1, SendChunk(bytes));
        (b2, err.Some?)
  }

  function DoEnd(c: Convention, b: Bridge, chunk: Option<seq<Byte>>): (Bridge, bool) {
    if b.ended then (b, false)
    else
      var b0 := WithPending(b);
      if !b0.headSent && b0.queued == [] then EndAtOnce(c, b0, chunk)
      else
        var (b1, threw) := FlushHead(c, b0);
        if threw then (b1, true) else EndSent(c, b1, chunk)
  }

  /** The short way of `end`: nothing has been sent, so everything goes in one op. */
  function EndAtOnce(c: Convention, b: Bridge, chunk: Option<seq<Byte>>): (Bridge, bool)
    requires b.pending.Some?
  {
    var (b1, err) := Do(c, b, SendResponse(b.pending.value, if chunk.Some? then chunk.value else []));
    if err.Some? then (b1, true) else (b1.(headSent := true, ended := true), false)
  }

  /** The last part of `end`, once the head has been sent. */
  function EndSent(c: Convention, b: Bridge, chunk: Option<seq<Byte>>): (Bridge, bool) {
    var (b1, err) := if chunk.Some? then Do(c, b, SendChunk(chunk.value)) else (b, None);
    if err.Some? then (b1, true)
    else
      var (b2, err2) := Do(c, b1, SendEnd);
      if err2.Some? then (b2, true) else (b2.(ended := true), false)
  }

  /** One call: the new state, and whether it threw. */
  function Apply(c: Convention, b: Bridge, call: Call): (Bridge, bool) {
    match call
    case WriteHead(status, second, third) =>
      if b.ended || b.headSent then (b, true)
      else (b.(pending := Some(Head(status, HeadersGiven(second, third))), statusCode := status), false)
    case SetHeader(name, value) =>
      if b.headSent then (b, true)
      else
        var b0 := WithPending(b);
        var headers := b0.pending.value.headers + [(Lower(name), value)];
        (b0.(pending := Some(b0.pending.value.(headers := headers))), false)
    case SetStatusCode(status) => (b.(statusCode := status), false)
    case Write(bytes) => DoWrite(c, b, bytes)
    case End(chunk) => DoEnd(c, b, chunk)
    case HostSettles => (b.(slot := None), false)
  }

  /** The state after `calls`, and which of them threw. */
  function Run(c: Convention, calls: seq<Call>): (r: (Bridge, seq<bool>))
    ensures |r.1| == |calls|
  {
    if calls == [] then (FRESH, [])
    else
      var (b, threw) := Run(c, calls[..|calls| - 1]);
      var (b', t) := Apply(c, b, calls[|calls| - 1]);
      (b', threw + [t])
  }

  // ---------------------------------------------------------------- what every sequence of calls keeps

  /** Errors the host may answer with: never one of the four protocol violations. */
  predicate Excusable(e: OpError) { e.BadArguments? || e.Gone? || (e.Protocol? && e.error.InvalidStatus?) }

  /** The accepted ops. */
  function Accepted(log: seq<(Op, Option<OpError>)>): seq<Op> {
    if log == [] then []
    else Accepted(log[..|log| - 1]) + (if log[|log| - 1].1.None? then [log[|log| - 1].0] else [])
  }

  predicate Streaming(ops: seq<Op>) {
    ops != [] && ops[0].SendHead? && forall i :: 1 <= i < |ops| ==> ops[i].SendChunk?
  }

  /** A prefix of `send_response` alone or of `send_head send_chunk* send_end`. */
  predicate Grammatical(ops: seq<Op>) {
    || ops == []
    || (|ops| == 1 && ops[0].SendResponse?)
    || Streaming(ops)
    || (|ops| > 1 && ops[|ops| - 1] == SendEnd && Streaming(ops[..|ops| - 1]))
  }

  /** How the response object's fields stand to the host's slot and to the ops accepted so far. */
  ghost predicate Inv(b: Bridge) {
    && b.queued == []
    && (forall i :: 0 <= i < |b.log| && b.log[i].1.Some? ==> Excusable(b.log[i].1.value))
    && (b.headSent ==> b.pending.Some? && ParseHead(b.pending.value).Some?)
    && (b.ended ==> b.headSent && b.slot.None? && b.delivered.Some?
                    && Some(b.delivered.value.head) == ParseHead(b.pending.value))
    && (!b.ended ==> b.delivered.None?)
    && (b.slot.Some? ==> !b.slot.value.finished
                         && b.slot.value.head == (if b.headSent then ParseHead(b.pending.value) else None))
    && (b.slot.Some? && !b.headSent ==> b.slot.value.chunks == [])
    && Grammatical(Accepted(b.log))
    && (!b.headSent ==> Accepted(b.log) == [])
    && (b.headSent && !b.ended ==> Streaming(Accepted(b.log)))
  }

  lemma LogSnoc(log: seq<(Op, Option<OpError>)>, op: Op, err: Option<OpError>)
    ensures Accepted(log + [(op, err)]) == Accepted(log) + (if err.None? then [op] else [])
  {
    assert (log + [(op, err)])[..|log|] == log;
  }

  lemma WithPendingInv(b: Bridge)
    requires Inv(b)
    ensures Inv(WithPending(b))
  {}

  lemma FlushInv(c: Convention, b: Bridge)
    requires Inv(b) && b.pending.Some? && !b.ended
    ensures var (b', threw) := FlushHead(c, b);
      && Inv(b') && !b'.ended && (b'.headSent <==> !threw)
      && (!b.headSent && !threw ==> b'.slot.Some?)
  {
    if !b.headSent {
      var (b1, err) := Do(c, b, SendHead(b.pending.value));
      LogSnoc(b.log, SendHead(b.pending.value), err);
    }
  }

  lemma ChunkInv(c: Convention, b: Bridge, bytes: seq<Byte>)
    requires Inv(b) && b.headSent && !b.ended
    ensures var (b', err) := Do(c, b, SendChunk(bytes));
      Inv(b') && b'.headSent && !b'.ended && (err.Some? <==> b.slot.None?)
  {
    LogSnoc(b.log, SendChunk(bytes), Do(c, b, SendChunk(bytes)).1);
  }

  lemma WriteInv(c: Convention, b: Bridge, bytes: seq<Byte>)
    requires Inv(b)
    ensures Inv(DoWrite(c, b, bytes).0)
  {
    if !b.ended {
      WithPendingInv(b);
      FlushInv(c, WithPending(b));
      var (b1, threw) := FlushHead(c, WithPending(b));
      if !threw {
        ChunkInv(c, b1, bytes);
      }
    }
  }

  lemma EndSentInv(c: Convention, b: Bridge, chunk: Option<seq<Byte>>)
    requires Inv(b) && b.headSent && !b.ended
    ensures Inv(EndSent(c, b, chunk).0)
  {
    var b1 := b;
    if chunk.Some? {
      ChunkInv(c, b, chunk.value);
      b1 := Do(c, b, SendChunk(chunk.value)).0;
    }
    var (b2, err) := Do(c, b1, SendEnd);
    LogSnoc(b1.log, SendEnd, err);
    var ops := Accepted(b1.log);
    assert (ops + [SendEnd])[..|ops|] == ops;
  }

  /** What the one-op way comes to on an untouched slot. */
  function ResponseOutcome(c: Convention, slot: Option<Slot>, h: Head): Option<OpError> {
    if c == HeadObject || ToUint32(h.status) > 0xFFFF then Some(BadArguments)
    else if slot.None? then Some(Gone)
    else if !GoodStatus(h.status) then Some(Protocol(InvalidStatus(ToUint32(h.status))))
    else None
  }

  lemma ResponsePerformed(c: Convention, slot: Option<Slot>, h: Head, body: seq<Byte>)
    requires slot.Some? ==> !slot.value.finished && slot.value.head == None && slot.value.chunks == []
    ensures var err := ResponseOutcome(c, slot, h);
      Perform(c, slot, SendResponse(h, body))
      == if err.Some? then (slot, None, err) else (None, Some(Payload(ParseHead(h).value, body)), None)
  {
    assert [] + [body] == [body] && [body][1..] == [];
    assert Flatten([body]) == body;
  }

  lemma AtOnceRefused(b: Bridge, op: Op, err: OpError)
    requires Inv(b) && b.pending.Some? && !b.headSent && Excusable(err)
    ensures Inv(b.(log := b.log + [(op, Some(err))]))
  {
    LogSnoc(b.log, op, Some(err));
    assert Accepted(b.log) + [] == Accepted(b.log);
  }

  lemma AtOnceDelivered(b: Bridge, op: Op, payload: Payload)
    requires Inv(b) && b.pending.Some? && !b.headSent && op.SendResponse?
    requires ParseHead(b.pending.value) == Some(payload.head)
    ensures Inv(b.(headSent := true, ended := true, slot := None, delivered := Some(payload),
                   log := b.log + [(op, None)]))
  {
    LogSnoc(b.log, op, None);
  }

  lemma EndAtOnceInv(c: Convention, b: Bridge, chunk: Option<seq<Byte>>)
    requires Inv(b) && b.pending.Some? && !b.headSent
    ensures Inv(EndAtOnce(c, b, chunk).0)
  {
    var body := if chunk.Some? then chunk.value else [];
    var op, err := SendResponse(b.pending.value, body), ResponseOutcome(c, b.slot, b.pending.value);
    ResponsePerformed(c, b.slot, b.pending.value, body);
    if err.Some? {
      AtOnceRefused(b, op, err.value);
    } else {
      AtOnceDelivered(b, op, Payload(ParseHead(b.pending.value).value, body));
    }
  }

  lemma EndInv(c: Convention, b: Bridge, chunk: Option<seq<Byte>>)
    requires Inv(b)
    ensures Inv(DoEnd(c, b, chunk).0)
  {
    if !b.ended {
      WithPendingInv(b);
      var b0 := WithPending(b);
      if !b0.headSent {
        EndAtOnceInv(c, b0, chunk);
      } else {
        EndSentInv(c, b0, chunk);
      }
    }
  }

  lemma ApplyInv(c: Convention, b: Bridge, call: Call)
    requires Inv(b)
    ensures Inv(Apply(c, b, call).0)
  {
    match call
    case Write(bytes) => WriteInv(c, b, bytes);
    case End(chunk) => EndInv(c, b, chunk);
    case _ =>
  }

  lemma {:induction false} RunInv(c: Convention, calls: seq<Call>)
    ensures Inv(Run(c, calls).0)
  {
    if calls != [] {
      RunInv(c, calls[..|calls| - 1]);
      ApplyInv(c, Run(c, calls[..|calls| - 1]).0, calls[|calls| - 1]);
    }
  }

  /** Whatever is called in whatever order, and whenever the host settles: the slot never sees a protocol
      violation (an invalid status is the only thing it can object to), and the ops it accepts are a prefix
      of `send_response` or of `send_head send_chunk* send_end`. */
  lemma NeverViolatesProtocol(c: Convention, calls: seq<Call>, i: nat)
    requires i < |Run(c, calls).0.log|
    ensures var (op, err) := Run(c, calls).0.log[i];
      err.Some? ==> Excusable(err.value)
    ensures Grammatical(Accepted(Run(c, calls).0.log))
  {
    RunInv(c, calls);
  }

  // ---------------------------------------------------------------- the body

  /** Some `end` has gone through. */
  predicate HasEnded(calls: seq<Call>, threw: seq<bool>)
    requires |calls| == |threw|
  {
    calls != [] &&
    (HasEnded(calls[..|calls| - 1], threw[..|calls| - 1]) || (calls[|calls| - 1].End? && !threw[|calls| - 1]))
  }

  /** The bytes passed to every `write` that went through and to the first `end` that did. */
  function Passed(calls: seq<Call>, threw: seq<bool>): seq<Byte>
    requires |calls| == |threw|
  {
    if calls == [] then []
    else
      var n := |calls| - 1;
      var before := Passed(calls[..n], threw[..n]);
      if threw[n] then before
      else match calls[n]
        case Write(bytes) => before + bytes
        case End(Some(bytes)) => if HasEnded(calls[..n], threw[..n]) then before else before + bytes
        case _ => before
  }

  /** The body so far: delivered, or assembled in the slot. */
  ghost predicate BodyIs(b: Bridge, body: seq<Byte>) {
    && (b.ended && b.delivered.Some? ==> b.delivered.value.body == body)
    && (b.slot.Some? ==> Flatten(b.slot.value.chunks) == body)
  }

  lemma ChunkBody(c: Convention, b: Bridge, bytes: seq<Byte>, body: seq<Byte>)
    requires Inv(b) && b.headSent && !b.ended && BodyIs(b, body)
    ensures var (b', err) := Do(c, b, SendChunk(bytes));
      BodyIs(b', if err.None? then body + bytes else body)
  {
    if b.slot.Some? {
      FlattenAppend(b.slot.value.chunks, bytes);
      assert bytes == [] ==> body + bytes == body;
    }
  }

  lemma FlushBody(c: Convention, b: Bridge, body: seq<Byte>)
    requires Inv(b) && !b.ended && BodyIs(b, body)
    ensures BodyIs(FlushHead(c, b).0, body)
  {}

  lemma WriteBody(c: Convention, b: Bridge, bytes: seq<Byte>, body: seq<Byte>)
    requires Inv(b) && BodyIs(b, body)
    ensures var (b', threw) := DoWrite(c, b, bytes);
      BodyIs(b', if threw then body else body + bytes) && b'.ended == b.ended
  {
    if !b.ended {
      WithPendingInv(b);
      FlushInv(c, WithPending(b));
      FlushBody(c, WithPending(b), body);
      var (b1, threw) := FlushHead(c, WithPending(b));
      if !threw {
        ChunkBody(c, b1, bytes, body);
        ChunkInv(c, b1, bytes);
      }
    }
  }

  lemma EndSentBody(c: Convention, b: Bridge, chunk: Option<seq<Byte>>, body: seq<Byte>)
    requires Inv(b) && b.headSent && !b.ended && BodyIs(b, body)
    ensures var (b', threw) := EndSent(c, b, chunk);
      && BodyIs(b', if threw || chunk.None? then body else body + chunk.value)
      && (threw <==> b.slot.None?) && (b'.ended <==> !threw)
  {
    if chunk.Some? {
      ChunkInv(c, b, chunk.value);
      ChunkBody(c, b, chunk.value, body);
    }
  }

  lemma EndAtOnceBody(c: Convention, b: Bridge, chunk: Option<seq<Byte>>, body: seq<Byte>)
    requires Inv(b) && b.pending.Some? && !b.headSent && BodyIs(b, body)
    ensures var (b', threw) := EndAtOnce(c, b, chunk);
      && BodyIs(b', if threw || chunk.None? then body else body + chunk.value)
      && (b'.ended <==> !threw)
      && (!threw <==> c == Positional && GoodStatus(b.pending.value.status) && b.slot.Some?)
  {
    ResponsePerformed(c, b.slot, b.pending.value, if chunk.Some? then chunk.value else []);
    if b.slot.Some? {
      assert body == [];
      assert chunk.Some? ==> body + chunk.value == chunk.value;
    }
  }

  lemma EndBody(c: Convention, b: Bridge, chunk: Option<seq<Byte>>, body: seq<Byte>)
    requires Inv(b) && BodyIs(b, body)
    ensures var (b', threw) := DoEnd(c, b, chunk);
      && BodyIs(b', if threw || chunk.None? || b.ended then body else body + chunk.value)
      && (b'.ended <==> b.ended || !threw)
  {
    if !b.ended {
      WithPendingInv(b);
      var b0 := WithPending(b);
      if b0.headSent {
        EndSentBody(c, b0, chunk, body);
      } else {
        EndAtOnceBody(c, b0, chunk, body);
      }
    }
  }

  lemma {:induction false} RunBody(c: Convention, calls: seq<Call>)
    ensures var (b, threw) := Run(c, calls);
      BodyIs(b, Passed(calls, threw)) && (b.ended <==> HasEnded(calls, threw))
  {
    if calls != [] {
      var n := |calls| - 1;
      RunBody(c, calls[..n]);
      RunInv(c, calls[..n]);
      var (b, threw) := Run(c, calls[..n]);
      var body := Passed(calls[..n], threw);
      assert Run(c, calls).1[..n] == threw;
      match calls[n]
      case Write(bytes) => WriteBody(c, b, bytes, body);
      case End(chunk) => EndBody(c, b, chunk, body);
      case _ =>
    }
  }

  // ---------------------------------------------------------------- the head

  /** The headers an argument lists. */
  function Listed(arg: Arg): seq<Header> {
    match arg
    case Undefined => []
    case Falsy => []
    case Text(entries) => entries
    case Pairs(pairs) => pairs
    case Flat(items) => seq(|items| / 2, k requires 0 <= k < |items| / 2 => (items[2 * k], items[2 * k + 1]))
    case Object(entries) => entries
  }

  /** What the calls say of the head: the status code last set, and the head once there is one. */
  datatype Said = Said(code: int, head: Option<Head>)

  /**
    A head begins with the status code as it stands when a header, a write or the end first needs
    one; `writeHead` replaces it, by its status and the headers of its second argument, or of its
    third if the second is a status message or missing; `setHeader` adds to it.
   */
  function SaidBy(calls: seq<Call>, threw: seq<bool>): Said
    requires |calls| == |threw|
  {
    if calls == [] then Said(200, None) else
      var n := |calls| - 1;
      var said := SaidBy(calls[..n], threw[..n]);
      var head := if said.head.Some? then said.head.value else Head(said.code, []);
      match calls[n]
      case WriteHead(status, second, third) =>
        if threw[n] then said else
          var headers := match second
            case Undefined => Listed(third)
            case Text(_) => Listed(third)
            case _ => Listed(second);
          Said(status, Some(Head(status, headers)))
      case SetHeader(name, value) =>
        if threw[n] then said
        else Said(said.code, Some(Head(head.status, head.headers + [(Lower(name), value)])))
      case SetStatusCode(status) => Said(status, said.head)
      case HostSettles => said
      case _ => Said(said.code, Some(head))
  }

  lemma PairUpIsListed(items: seq<string>)
    ensures PairUp(items) == Listed(Flat(items))
  {
    PairUpLength(items);
    forall k | 0 <= k < |items| / 2 ensures PairUp(items)[k] == Listed(Flat(items))[k] {
      PairUpAt(items, k);
    }
  }

  lemma GivenIsListed(second: Arg, third: Arg)
    ensures HeadersGiven(second, third) == match second
      case Undefined => Listed(third)
      case Text(_) => Listed(third)
      case _ => Listed(second)
  {
    if second.Flat? {
      PairUpIsListed(second.items);
    }
    if third.Flat? {
      PairUpIsListed(third.items);
    }
  }

  /** Sending leaves the head and the status code alone, unless there was no head yet. */
  predicate SameHead(b: Bridge, b': Bridge) { b'.pending == b.pending && b'.statusCode == b.statusCode }

  lemma {:induction false} SendQueuedKeepsHead(c: Convention, b: Bridge, chunks: seq<seq<Byte>>)
    ensures SameHead(b, SendQueued(c, b, chunks).0)
    decreases |chunks|
  {
    if chunks != [] {
      SendQueuedKeepsHead(c, Do(c, b, SendChunk(chunks[0])).0, chunks[1..]);
    }
  }

  lemma FlushKeepsHead(c: Convention, b: Bridge)
    ensures SameHead(b, FlushHead(c, b).0)
  {
    if !b.headSent && b.pending.Some? {
      var b1 := Do(c, b, SendHead(b.pending.value)).0;
      SendQueuedKeepsHead(c, b1.(headSent := true), b1.queued);
    }
  }

  lemma WriteKeepsHead(c: Convention, b: Bridge, bytes: seq<Byte>)
    requires b.ended ==> b.pending.Some?
    ensures SameHead(WithPending(b), DoWrite(c, b, bytes).0)
  {
    FlushKeepsHead(c, WithPending(b));
  }

  lemma EndKeepsHead(c: Convention, b: Bridge, chunk: Option<seq<Byte>>)
    requires b.ended ==> b.pending.Some?
    ensures SameHead(WithPending(b), DoEnd(c, b, chunk).0)
  {
    FlushKeepsHead(c, WithPending(b));
  }

  /** The object's own head and status code are what the calls say. */
  lemma {:induction false} RunHead(c: Convention, calls: seq<Call>)
    ensures var (b, threw) := Run(c, calls);
      SaidBy(calls, threw) == Said(b.statusCode, b.pending)
  {
    if calls != [] {
      var n := |calls| - 1;
      RunHead(c, calls[..n]);
      RunInv(c, calls[..n]);
      var (b, threw) := Run(c, calls[..n]);
      assert Run(c, calls).1[..n] == threw;
      match calls[n]
      case WriteHead(_, second, third) => GivenIsListed(second, third);
      case Write(bytes) => WriteKeepsHead(c, b, bytes);
      case End(chunk) => EndKeepsHead(c, b, chunk);
      case _ =>
    }
  }

  const UPPER: string := "ABCDEFGHIJKLMNOPQRSTUVWXYZ"
  const LOWER: string := "abcdefghijklmnopqrstuvwxyz"

  /** The letters of a name are lowered, and nothing else changes. */
  lemma LoweredIs(name: string, i: nat)
    requires i < |name|
    ensures |Lower(name)| == |name|
    ensures forall k :: 0 <= k < 26 && name[i] == UPPER[k] ==> Lower(name)[i] == LOWER[k]
    ensures name[i] !in UPPER ==> Lower(name)[i] == name[i]
  {
    if 'A' <= name[i] <= 'Z' {
      assert UPPER[name[i] as int - 65] == name[i];
    }
  }

  predicate CarriesHead(op: Op) { op.SendHead? || op.SendResponse? }

  /** Every accepted op that carries a head carries the one that is pending. */
  ghost predicate HeadsSent(b: Bridge) {
    forall i :: 0 <= i < |b.log| && b.log[i].1.None? && CarriesHead(b.log[i].0) ==> b.pending == Some(b.log[i].0.head)
  }

  lemma {:induction false} NoneAccepted(log: seq<(Op, Option<OpError>)>, i: nat)
    requires Accepted(log) == [] && i < |log|
    ensures log[i].1.Some?
  {
    if i < |log| - 1 {
      NoneAccepted(log[..|log| - 1], i);
    }
  }

  /** Until a head is sent no op has been accepted. */
  lemma UnsentHeads(b: Bridge)
    requires Inv(b) && !b.headSent
    ensures HeadsSent(b)
  {
    forall i | 0 <= i < |b.log| && b.log[i].1.None? ensures false {
      NoneAccepted(b.log, i);
    }
  }

  lemma FlushSendsHead(c: Convention, b: Bridge)
    requires Inv(b) && HeadsSent(b) && b.pending.Some? && !b.ended
    ensures HeadsSent(FlushHead(c, b).0)
  {}

  lemma WriteSendsHeads(c: Convention, b: Bridge, bytes: seq<Byte>)
    requires Inv(b) && HeadsSent(b)
    ensures HeadsSent(DoWrite(c, b, bytes).0)
  {
    if !b.ended {
      WithPendingInv(b);
      if !b.headSent {
        UnsentHeads(WithPending(b));
      }
      FlushSendsHead(c, WithPending(b));
    }
  }

  lemma DoSendsHead(c: Convention, b: Bridge, op: Op)
    requires HeadsSent(b) && (CarriesHead(op) ==> b.pending == Some(op.head))
    ensures HeadsSent(Do(c, b, op).0) && Do(c, b, op).0.pending == b.pending
  {}

  lemma EndSendsHeads(c: Convention, b: Bridge, chunk: Option<seq<Byte>>)
    requires Inv(b) && HeadsSent(b)
    ensures HeadsSent(DoEnd(c, b, chunk).0)
  {
    if !b.ended {
      var b0 := WithPending(b);
      if b.headSent {
        SentSendsHeads(c, b0, chunk);
      } else {
        WithPendingInv(b);
        UnsentHeads(b0);
        DoSendsHead(c, b0, SendResponse(b0.pending.value, if chunk.Some? then chunk.value else []));
      }
    }
  }

  lemma SentSendsHeads(c: Convention, b: Bridge, chunk: Option<seq<Byte>>)
    requires HeadsSent(b)
    ensures HeadsSent(EndSent(c, b, chunk).0)
  {
    var b1 := b;
    if chunk.Some? {
      DoSendsHead(c, b, SendChunk(chunk.value));
      b1 := Do(c, b, SendChunk(chunk.value)).0;
    }
    DoSendsHead(c, b1, SendEnd);
  }

  lemma {:induction false} RunHeadsSent(c: Convention, calls: seq<Call>)
    ensures HeadsSent(Run(c, calls).0)
  {
    if calls != [] {
      var n := |calls| - 1;
      RunHeadsSent(c, calls[..n]);
      RunInv(c, calls[..n]);
      RunInv(c, calls);
      var b := Run(c, calls[..n]).0;
      match calls[n]
      case Write(bytes) => WriteSendsHeads(c, b, bytes);
      case End(chunk) => EndSendsHeads(c, b, chunk);
      case _ => if !b.headSent { UnsentHeads(Run(c, calls).0); }
    }
  }

  /** Every op that sends a head and is accepted carries the one the calls say. */
  lemma SentHeadIsWhatWasSaid(c: Convention, calls: seq<Call>, i: nat)
    requires i < |Run(c, calls).0.log| && Run(c, calls).0.log[i].1.None? && CarriesHead(Run(c, calls).0.log[i].0)
    ensures SaidBy(calls, Run(c, calls).1).head == Some(Run(c, calls).0.log[i].0.head)
  {
    RunHead(c, calls);
    RunHeadsSent(c, calls);
  }

  /** A delivered response carries the head the calls say, and the bytes passed to `write` and `end`, in order. */
  lemma DeliveredIsWhatWasPassed(c: Convention, calls: seq<Call>)
    ensures var (b, threw) := Run(c, calls);
      var said := SaidBy(calls, threw).head;
      && (b.delivered.Some? <==> HasEnded(calls, threw))
      && (b.delivered.Some? ==>
            && said.Some? && ParseHead(said.value).Some?
            && b.delivered == Some(Payload(ParseHead(said.value).value, Passed(calls, threw))))
  {
    RunInv(c, calls);
    RunBody(c, calls);
    RunHead(c, calls);
  }

  // ---------------------------------------------------------------- when a response completes

  /** `end` on a request the host has not settled goes through exactly if the head has already been sent by a
      `write`, or the one-op convention is the positional one and the status is valid. */
  lemma EndCompletesIff(c: Convention, calls: seq<Call>, chunk: Option<seq<Byte>>)
    ensures var b := Run(c, calls).0;
      b.slot.Some? ==>
        (!Apply(c, b, End(chunk)).1
         <==> b.headSent || (c == Positional && GoodStatus(WithPending(b).pending.value.status)))
  {
    RunInv(c, calls);
    if Run(c, calls).0.slot.Some? {
      EndThrowsIff(c, Run(c, calls).0, chunk);
    }
  }

  lemma EndThrowsIff(c: Convention, b: Bridge, chunk: Option<seq<Byte>>)
    requires Inv(b) && b.slot.Some?
    ensures !DoEnd(c, b, chunk).1
       <==> b.headSent || (c == Positional && GoodStatus(WithPending(b).pending.value.status))
  {
    WithPendingInv(b);
    var body := Flatten(b.slot.value.chunks);
    if b.headSent {
      EndSentBody(c, b, chunk, body);
    } else {
      EndAtOnceBody(c, WithPending(b), chunk, body);
    }
  }

  ghost predicate SomeWrite(calls: seq<Call>, threw: seq<bool>)
    requires |calls| == |threw|
  {
    exists i :: 0 <= i < |calls| && calls[i].Write? && !threw[i]
  }

  lemma WriteSendsHead(c: Convention, b: Bridge, bytes: seq<Byte>)
    requires Inv(b) && !b.headSent
    ensures var (b', threw) := DoWrite(c, b, bytes);
      b'.headSent ==> !threw
  {
    if !b.ended {
      WithPendingInv(b);
      FlushInv(c, WithPending(b));
      var (b1, threw) := FlushHead(c, WithPending(b));
      if !threw {
        ChunkInv(c, b1, bytes);
      }
    }
  }

  lemma EndSendsNoHead(b: Bridge, chunk: Option<seq<Byte>>)
    requires Inv(b) && !b.headSent
    ensures !DoEnd(HeadObject, b, chunk).0.headSent
  {
    if !b.ended {
      var b0 := WithPending(b);
      WithPendingInv(b);
      ResponsePerformed(HeadObject, b0.slot, b0.pending.value, if chunk.Some? then chunk.value else []);
    }
  }

  lemma HeadNeedsWrite(b: Bridge, call: Call)
    requires Inv(b) && !b.headSent
    ensures var (b', threw) := Apply(HeadObject, b, call);
      b'.headSent ==> call.Write? && !threw
  {
    match call
    case Write(bytes) => WriteSendsHead(HeadObject, b, bytes);
    case End(chunk) => EndSendsNoHead(b, chunk);
    case _ =>
  }

  /** With the op as it is installed, a response is delivered only if some `write` went through: a handler
      that only calls `end`, with or without a body, is thrown a TypeError and delivers nothing. */
  lemma {:induction false} NothingWithoutWrite(calls: seq<Call>)
    ensures var (b, threw) := Run(HeadObject, calls);
      b.headSent ==> SomeWrite(calls, threw)
    ensures var (b, threw) := Run(HeadObject, calls);
      b.delivered.Some? ==> SomeWrite(calls, threw)
  {
    RunInv(HeadObject, calls);
    if calls != [] {
      var n := |calls| - 1;
      NothingWithoutWrite(calls[..n]);
      RunInv(HeadObject, calls[..n]);
      var (b, threw) := Run(HeadObject, calls[..n]);
      var all := Run(HeadObject, calls).1;
      assert all[..n] == threw;
      if !b.headSent {
        HeadNeedsWrite(b, calls[n]);
      }
      if SomeWrite(calls[..n], threw) {
        var i :| 0 <= i < n && calls[..n][i].Write? && !threw[i];
        assert calls[i].Write? && !all[i];
      }
      if calls[n].Write? && !all[n] {
        assert SomeWrite(calls, all);
      }
    }
  }

  // ---------------------------------------------------------------- what throws, from the calls alone

  lemma HeadSentStep(c: Convention, b: Bridge, call: Call)
    requires Inv(b)
    ensures var (b', t) := Apply(c, b, call);
      b'.headSent <==> b.headSent || ((call.Write? || call.End?) && !t)
  {
    ApplyInv(c, b, call);
    WithPendingInv(b);
    match call
    case Write(bytes) =>
      if !b.ended {
        FlushInv(c, WithPending(b));
        var (b1, threw) := FlushHead(c, WithPending(b));
        if !threw {
          ChunkInv(c, b1, bytes);
        }
      }
    case End(chunk) => EndKeepsSent(c, b, chunk);
    case _ =>
  }

  lemma EndKeepsSent(c: Convention, b: Bridge, chunk: Option<seq<Byte>>)
    requires Inv(b)
    ensures var (b', t) := DoEnd(c, b, chunk);
      b'.headSent <==> b.headSent || !t
  {
    if !b.ended && !b.headSent {
      ResponsePerformed(c, b.slot, WithPending(b).pending.value, if chunk.Some? then chunk.value else []);
    }
  }

  lemma SomeWriteLater(calls: seq<Call>, threw: seq<bool>)
    requires calls != [] && |calls| == |threw|
    ensures var n := |calls| - 1;
      SomeWrite(calls, threw) <==> SomeWrite(calls[..n], threw[..n]) || (calls[n].Write? && !threw[n])
  {
    var n := |calls| - 1;
    if SomeWrite(calls[..n], threw[..n]) {
      var i :| 0 <= i < n && calls[..n][i].Write? && !threw[..n][i];
      assert calls[i].Write? && !threw[i];
    }
    if SomeWrite(calls, threw) && !(calls[n].Write? && !threw[n]) {
      var i :| 0 <= i < |calls| && calls[i].Write? && !threw[i];
      assert calls[..n][i].Write? && !threw[..n][i];
    }
  }

  /** The head has been sent exactly if some `write` or `end` went through. */
  lemma {:induction false} HeadSentIff(c: Convention, calls: seq<Call>)
    ensures var (b, threw) := Run(c, calls);
      b.headSent <==> SomeWrite(calls, threw) || HasEnded(calls, threw)
  {
    if calls != [] {
      var n := |calls| - 1;
      HeadSentIff(c, calls[..n]);
      RunInv(c, calls[..n]);
      var (b, threw) := Run(c, calls[..n]);
      assert Run(c, calls).1[..n] == threw;
      HeadSentStep(c, b, calls[n]);
      SomeWriteLater(calls, Run(c, calls).1);
    }
  }

  lemma GoneStep(c: Convention, b: Bridge, call: Call)
    requires Inv(b)
    ensures var (b', t) := Apply(c, b, call);
      b'.slot.None? <==> b.slot.None? || call.HostSettles? || (call.End? && !t)
  {
    match call
    case Write(bytes) => WriteOutcome(c, b, bytes);
    case End(chunk) => EndGone(c, b, chunk);
    case _ =>
  }

  lemma FlushOutcome(c: Convention, b: Bridge)
    requires Inv(b) && b.pending.Some? && !b.ended
    ensures var (b', threw) := FlushHead(c, b);
      && (threw <==> !b.headSent && (b.slot.None? || !GoodStatus(b.pending.value.status)))
      && (b'.slot.None? <==> b.slot.None?)
  {}

  lemma WriteOutcome(c: Convention, b: Bridge, bytes: seq<Byte>)
    requires Inv(b)
    ensures var (b', threw) := DoWrite(c, b, bytes);
      && (threw <==> b.ended || b.slot.None? || (!b.headSent && !GoodStatus(WithPending(b).pending.value.status)))
      && (b'.slot.None? <==> b.slot.None?)
  {
    if !b.ended {
      var b0 := WithPending(b);
      WithPendingInv(b);
      FlushInv(c, b0);
      FlushOutcome(c, b0);
      var (b1, threw) := FlushHead(c, b0);
      if !threw {
        ChunkInv(c, b1, bytes);
        ChunkKeepsSlot(c, b1, bytes);
      }
    }
  }

  lemma ChunkKeepsSlot(c: Convention, b: Bridge, bytes: seq<Byte>)
    ensures Do(c, b, SendChunk(bytes)).0.slot.None? <==> b.slot.None?
  {}

  lemma EndGone(c: Convention, b: Bridge, chunk: Option<seq<Byte>>)
    requires Inv(b)
    ensures var (b', t) := DoEnd(c, b, chunk);
      b'.slot.None? <==> b.slot.None? || !t
  {
    if !b.ended {
      var b0 := WithPending(b);
      WithPendingInv(b);
      if b0.headSent {
        EndSentGone(c, b0, chunk);
      } else {
        ResponsePerformed(c, b0.slot, b0.pending.value, if chunk.Some? then chunk.value else []);
      }
    }
  }

  lemma EndSentGone(c: Convention, b: Bridge, chunk: Option<seq<Byte>>)
    requires Inv(b) && b.headSent && !b.ended
    ensures EndSent(c, b, chunk).0.slot.None? && (EndSent(c, b, chunk).1 <==> b.slot.None?)
  {
    if chunk.Some? {
      ChunkInv(c, b, chunk.value);
    }
  }

  /** The request is gone exactly if the host has settled it or an `end` went through. */
  lemma {:induction false} GoneIff(c: Convention, calls: seq<Call>)
    ensures var (b, threw) := Run(c, calls);
      b.slot.None? <==> HostSettles in calls || HasEnded(calls, threw)
  {
    if calls != [] {
      var n := |calls| - 1;
      GoneIff(c, calls[..n]);
      RunInv(c, calls[..n]);
      var (b, threw) := Run(c, calls[..n]);
      assert Run(c, calls).1[..n] == threw;
      GoneStep(c, b, calls[n]);
      assert calls == calls[..n] + [calls[n]];
    }
  }

  /** Whether the next call throws. */
  predicate Throws(c: Convention, call: Call, sent: bool, ended: bool, settled: bool, status: int) {
    match call
    case WriteHead(_, _, _) => sent
    case SetHeader(_, _) => sent
    case SetStatusCode(_) => false
    case HostSettles => false
    case Write(_) => ended || settled || (!sent && !GoodStatus(status))
    case End(_) => !ended && (settled || (!sent && (c == HeadObject || !GoodStatus(status))))
  }

  /**
    Whether a call throws depends on what went through before, on whether the host has settled the
    request, and, while no head has been sent, on its status: that of the head, or the status code.
   */
  lemma ThrowsIff(c: Convention, calls: seq<Call>, call: Call)
    ensures var (b, threw) := Run(c, calls);
      var said, ended := SaidBy(calls, threw), HasEnded(calls, threw);
      var status := if said.head.Some? then said.head.value.status else said.code;
      Apply(c, b, call).1 == Throws(c, call, SomeWrite(calls, threw) || ended, ended, HostSettles in calls, status)
  {
    RunInv(c, calls);
    RunHead(c, calls);
    RunBody(c, calls);
    HeadSentIff(c, calls);
    GoneIff(c, calls);
    var b := Run(c, calls).0;
    match call
    case Write(bytes) => WriteOutcome(c, b, bytes);
    case End(chunk) => if !b.ended { EndThrowsAnyway(c, b, chunk); }
    case _ =>
  }

  lemma EndThrowsAnyway(c: Convention, b: Bridge, chunk: Option<seq<Byte>>)
    requires Inv(b) && !b.ended
    ensures DoEnd(c, b, chunk).1
       <==> b.slot.None? || (!b.headSent && (c == HeadObject || !GoodStatus(WithPending(b).pending.value.status)))
  {
    var b0 := WithPending(b);
    WithPendingInv(b);
    if b0.headSent {
      EndSentGone(c, b0, chunk);
    } else {
      ResponsePerformed(c, b0.slot, b0.pending.value, if chunk.Some? then chunk.value else []);
    }
  }

  // ---------------------------------------------------------------- valid statuses

  predicate ValidCall(call: Call) {
    match call
    case WriteHead(status, _, _) => GoodStatus(status)
    case SetStatusCode(status) => GoodStatus(status)
    case HostSettles => false
    case _ => true
  }

  /** The one op whose arguments are not what it reads. */
  predicate Misread(c: Convention, op: Op) { c == HeadObject && op.SendResponse? }

  ghost predicate Clean(c: Convention, b: Bridge) {
    && GoodStatus(b.statusCode)
    && (b.pending.Some? ==> GoodStatus(b.pending.value.status))
    && (b.slot.None? ==> b.ended)
    && (forall i :: 0 <= i < |b.log| ==> b.log[i].1 == if Misread(c, b.log[i].0) then Some(BadArguments) else None)
  }

  lemma FlushClean(c: Convention, b: Bridge)
    requires Inv(b) && Clean(c, b) && b.pending.Some? && !b.ended
    ensures var (b', threw) := FlushHead(c, b);
      Clean(c, b') && !threw && b'.pending == b.pending
  {}

  lemma ChunkClean(c: Convention, b: Bridge, bytes: seq<Byte>)
    requires Inv(b) && Clean(c, b) && b.headSent && !b.ended
    ensures var (b', err) := Do(c, b, SendChunk(bytes));
      Clean(c, b') && err.None?
  {}

  lemma WriteClean(c: Convention, b: Bridge, bytes: seq<Byte>)
    requires Inv(b) && Clean(c, b)
    ensures var (b', threw) := DoWrite(c, b, bytes);
      Clean(c, b') && (threw <==> b.ended)
  {
    if !b.ended {
      var b0 := WithPending(b);
      WithPendingInv(b);
      FlushInv(c, b0);
      FlushClean(c, b0);
      ChunkClean(c, FlushHead(c, b0).0, bytes);
    }
  }

  lemma AtOnceClean(c: Convention, b: Bridge, chunk: Option<seq<Byte>>)
    requires Inv(b) && Clean(c, b) && b.pending.Some? && !b.headSent && !b.ended
    ensures var (b', threw) := EndAtOnce(c, b, chunk);
      Clean(c, b') && (threw <==> c == HeadObject)
  {
    ResponsePerformed(c, b.slot, b.pending.value, if chunk.Some? then chunk.value else []);
  }

  lemma EndSentClean(c: Convention, b: Bridge, chunk: Option<seq<Byte>>)
    requires Inv(b) && Clean(c, b) && b.headSent && !b.ended
    ensures var (b', threw) := EndSent(c, b, chunk);
      Clean(c, b') && !threw
  {
    if chunk.Some? {
      ChunkClean(c, b, chunk.value);
    }
  }

  lemma EndClean(c: Convention, b: Bridge, chunk: Option<seq<Byte>>)
    requires Inv(b) && Clean(c, b)
    ensures var (b', threw) := DoEnd(c, b, chunk);
      Clean(c, b') && (threw <==> c == HeadObject && !b.headSent)
  {
    if !b.ended {
      var b0 := WithPending(b);
      WithPendingInv(b);
      if b0.headSent {
        EndSentClean(c, b0, chunk);
      } else {
        AtOnceClean(c, b0, chunk);
      }
    }
  }

  lemma ApplyClean(c: Convention, b: Bridge, call: Call)
    requires Inv(b) && Clean(c, b) && ValidCall(call)
    ensures Clean(c, Apply(c, b, call).0)
  {
    match call
    case Write(bytes) => WriteClean(c, b, bytes);
    case End(chunk) => EndClean(c, b, chunk);
    case _ =>
  }

  lemma {:induction false} RunClean(c: Convention, calls: seq<Call>)
    requires forall i :: 0 <= i < |calls| ==> ValidCall(calls[i])
    ensures Clean(c, Run(c, calls).0)
  {
    if calls != [] {
      var n := |calls| - 1;
      RunClean(c, calls[..n]);
      RunInv(c, calls[..n]);
      ApplyClean(c, Run(c, calls[..n]).0, calls[n]);
    }
  }

  /** With valid statuses and a host that does not interfere, the misread one-op `end` is all that ever fails:
      `end` throws exactly if its arguments are misread and no `write` has sent the head. */
  lemma ValidRunIsClean(c: Convention, calls: seq<Call>, chunk: Option<seq<Byte>>)
    requires forall i :: 0 <= i < |calls| ==> ValidCall(calls[i])
    ensures Clean(c, Run(c, calls).0)
    ensures Apply(c, Run(c, calls).0, End(chunk)).1 <==> c == HeadObject && !Run(c, calls).0.headSent
  {
    RunClean(c, calls);
    RunInv(c, calls);
    EndClean(c, Run(c, calls).0, chunk);
  }

  // ---------------------------------------------------------------- valid statuses, whatever else happens

  predicate GoodHead(op: Op) { (op.SendHead? || op.SendResponse?) ==> GoodStatus(op.head.status) }

  predicate GoodCall(call: Call) { (call.WriteHead? || call.SetStatusCode?) ==> GoodStatus(call.status) }

  predicate RefusesStatus(e: OpError) { e.Protocol? && e.error.InvalidStatus? }

  /** No op was refused for its status. */
  ghost predicate Statused(b: Bridge) {
    && GoodStatus(b.statusCode)
    && (b.pending.Some? ==> GoodStatus(b.pending.value.status))
    && forall i :: 0 <= i < |b.log| && b.log[i].1.Some? ==> !RefusesStatus(b.log[i].1.value)
  }

  lemma DoStatused(c: Convention, b: Bridge, op: Op)
    requires Statused(b) && GoodHead(op)
    ensures Statused(Do(c, b, op).0) && Do(c, b, op).0.queued == b.queued
  {
    var (b', err) := Do(c, b, op);
    if err.Some? && err.value.Protocol? {
      assert !err.value.error.InvalidStatus?;
    }
  }

  lemma FlushStatused(c: Convention, b: Bridge)
    requires Statused(b) && b.queued == []
    ensures Statused(FlushHead(c, b).0) && FlushHead(c, b).0.queued == []
  {
    if !b.headSent && b.pending.Some? {
      DoStatused(c, b, SendHead(b.pending.value));
    }
  }

  lemma WriteStatused(c: Convention, b: Bridge, bytes: seq<Byte>)
    requires Statused(b) && b.queued == []
    ensures Statused(DoWrite(c, b, bytes).0)
  {
    if !b.ended {
      FlushStatused(c, WithPending(b));
      DoStatused(c, FlushHead(c, WithPending(b)).0, SendChunk(bytes));
    }
  }

  lemma EndSentStatused(c: Convention, b: Bridge, chunk: Option<seq<Byte>>)
    requires Statused(b)
    ensures Statused(EndSent(c, b, chunk).0)
  {
    if chunk.Some? {
      DoStatused(c, b, SendChunk(chunk.value));
      DoStatused(c, Do(c, b, SendChunk(chunk.value)).0, SendEnd);
    } else {
      DoStatused(c, b, SendEnd);
    }
  }

  lemma EndStatused(c: Convention, b: Bridge, chunk: Option<seq<Byte>>)
    requires Statused(b) && b.queued == []
    ensures Statused(DoEnd(c, b, chunk).0)
  {
    if !b.ended {
      var b0 := WithPending(b);
      if !b0.headSent {
        DoStatused(c, b0, SendResponse(b0.pending.value, if chunk.Some? then chunk.value else []));
      } else {
        EndSentStatused(c, b0, chunk);
      }
    }
  }

  lemma {:induction false} RunStatused(c: Convention, calls: seq<Call>)
    requires forall i :: 0 <= i < |calls| ==> GoodCall(calls[i])
    ensures Statused(Run(c, calls).0)
  {
    if calls != [] {
      var n := |calls| - 1;
      RunStatused(c, calls[..n]);
      RunInv(c, calls[..n]);
      var b := Run(c, calls[..n]).0;
      match calls[n]
      case Write(bytes) => WriteStatused(c, b, bytes);
      case End(chunk) => EndStatused(c, b, chunk);
      case _ =>
    }
  }

  /**
    Under either convention, and even if the host settles the request meanwhile: with statuses in
    100..=599 the slot never reports any error at all.
   */
  lemma NoProtocolError(c: Convention, calls: seq<Call>, i: nat)
    requires forall k :: 0 <= k < |calls| ==> GoodCall(calls[k])
    requires i < |Run(c, calls).0.log|
    ensures var err := Run(c, calls).0.log[i].1; err.Some? ==> err.value == BadArguments || err.value == Gone
  {
    RunStatused(c, calls);
    RunInv(c, calls);
  }

  // ---------------------------------------------------------------- the objects

  class ResponseSlot {
    var head: Option<Head>
    var chunks: seq<seq<Byte>>
    var finished: bool

    function State(): Slot
      reads this
    {
      Slot(head, chunks, finished)
    }

    constructor ()
      ensures State() == EMPTY_SLOT
    {
      head, chunks, finished := None, [], false;
    }

    method SendHead(h: Head) returns (r: Option<ResponseError>)
      modifies this
      ensures var s := old(SlotHead(State(), h));
        if s.Ok? then r == None && State() == s.value else r == Some(s.error) && State() == old(State())
    {
      if finished {
        return Some(AlreadyFinished);
      }
      if head.Some? {
        return Some(HeadAlreadySent);
      }
      if h.status < 100 || 599 < h.status {
        return Some(InvalidStatus(h.status));
      }
      head := Some(h);
      return None;
    }

    method SendChunk(chunk: seq<Byte>) returns (r: Option<ResponseError>)
      modifies this
      ensures var s := old(SlotChunk(State(), chunk));
        if s.Ok? then r == None && State() == s.value else r == Some(s.error) && State() == old(State())
    {
      if finished {
        return Some(AlreadyFinished);
      }
      if head.None? {
        return Some(ChunkBeforeHead);
      }
      if |chunk| > 0 {
        chunks := chunks + [chunk];
      }
      return None;
    }

    /** Consumes the slot. */
    method Finish() returns (r: Result<Payload, ResponseError>)
      modifies this
      ensures r == old(SlotFinish(State()))
    {
      if head.None? {
        return Err(FinishWithoutHead);
      }
      var h := head.value;
      head := None;
      finished := true;
      var body: seq<Byte> := [];
      assert |chunks| == 0 ==> Flatten(chunks) == body;
      if |chunks| == 1 {
        body := chunks[0];
        assert chunks == [body] && [body][1..] == [] && body + [] == body;
      } else if |chunks| > 1 {
        for i := 0 to |chunks|
          invariant chunks == old(chunks) && body == Flatten(chunks[..i])
        {
          assert chunks[..i + 1] == chunks[..i] + [chunks[i]];
          FlattenAppend(chunks[..i], chunks[i]);
          body := body + chunks[i];
        }
        assert chunks[..|chunks|] == chunks;
      }
      assert body == Flatten(chunks);
      assert chunks == old(chunks) && old(head) == Some(h);
      return Ok(Payload(h, body));
    }
  }

  /** `asArray`: headers of any shape as an array of pairs. */
  method ReadHeaders(arg: Arg) returns (headers: seq<Header>)
    ensures headers == AsArray(arg)
  {
    match arg
    case Undefined => return [];
    case Falsy => return [];
    case Pairs(pairs) => return pairs;
    case Text(entries) => return entries;
    case Object(entries) => return entries;
    case Flat(items) =>
      headers := [];
      var i := 0;
      while 2 * i + 1 < |items|
        invariant 2 * i <= |items| && headers == PairUp(items[..2 * i])
      {
        PairUpAppend(items, i);
        headers := headers + [(items[2 * i], items[2 * i + 1])];
        i := i + 1;
      }
      OddIsDropped(items, i);
  }

  lemma {:induction false} OddIsDropped(items: seq<string>, n: nat)
    requires 2 * n <= |items| <= 2 * n + 1
    ensures PairUp(items) == PairUp(items[..2 * n])
  {
    if n > 0 {
      OddIsDropped(items[2..], n - 1);
      assert items[..2 * n][2..] == items[2..][..2 * n - 2];
    }
  }

  /** The closure state of `buildResponse`, over the host's side of the request. */
  class HttpResponse {
    const convention: Convention
    var headSent: bool
    var ended: bool
    var queued: seq<seq<Byte>>
    var pending: Option<Head>
    var statusCode: int
    // the host's side
    var slot: Option<Slot>
    var delivered: Option<Payload>
    var log: seq<(Op, Option<OpError>)>

    function State(): Bridge
      reads this
    {
      Bridge(headSent, ended, queued, pending, statusCode, slot, delivered, log)
    }

    constructor (c: Convention)
      ensures State() == FRESH && convention == c
    {
      convention := c;
      headSent, ended, queued, pending, statusCode := false, false, [], None, 200;
      slot, delivered, log := Some(EMPTY_SLOT), None, [];
    }

    method Invoke(op: Op) returns (err: Option<OpError>)
      modifies this
      ensures (State(), err) == old(Do(convention, State(), op))
    {
      var (s, payload, e) := Perform(convention, slot, op);
      slot, log, err := s, log + [(op, e)], e;
      if payload.Some? {
        delivered := payload;
      }
    }

    method EnsurePending()
      modifies this
      ensures State() == old(WithPending(State()))
    {
      if pending.None? {
        pending := Some(Head(statusCode, []));
      }
    }

    method Flush() returns (threw: bool)
      modifies this
      ensures (State(), threw) == old(FlushHead(convention, State()))
    {
      if headSent || pending.None? {
        return false;
      }
      var err := Invoke(SendHead(pending.value));
      if err.Some? {
        return true;
      }
      headSent := true;
      ghost var goal := SendQueued(convention, State(), queued);
      var chunks := queued;
      for i := 0 to |chunks|
        invariant queued == chunks && SendQueued(convention, State(), chunks[i..]) == goal
      {
        assert chunks[i..][1..] == chunks[i + 1..];
        err := Invoke(SendChunk(chunks[i]));
        if err.Some? {
          return true;
        }
      }
      queued := [];
      return false;
    }

    method WriteHead(status: int, second: Arg, third: Arg) returns (threw: bool)
      modifies this
      ensures (State(), threw) == old(Apply(convention, State(), Call.WriteHead(status, second, third)))
    {
      if ended {
        return true;
      }
      if headSent {
        return true;
      }
      var headers: seq<Header>;
      if second.Text? || second.Undefined? {
        headers := ReadHeaders(third);
      } else {
        headers := ReadHeaders(second);
      }
      pending := Some(Head(status, headers));
      statusCode := status;
      return false;
    }

    method SetHeader(name: string, value: string) returns (threw: bool)
      modifies this
      ensures (State(), threw) == old(Apply(convention, State(), Call.SetHeader(name, value)))
    {
      if headSent {
        return true;
      }
      EnsurePending();
      pending := Some(pending.value.(headers := pending.value.headers + [(Lower(name), value)]));
      return false;
    }

    method Write(bytes: seq<Byte>) returns (threw: bool)
      modifies this
      ensures (State(), threw) == old(Apply(convention, State(), Call.Write(bytes)))
    {
      if ended {
        return true;
      }
      EnsurePending();
      if !headSent {
        threw := Flush();
        if threw {
          return;
        }
      }
      var err := Invoke(SendChunk(bytes));
      return err.Some?;
    }

    method End(chunk: Option<seq<Byte>>) returns (threw: bool)
      modifies this
      ensures (State(), threw) == old(Apply(convention, State(), Call.End(chunk)))
    {
      if ended {
        return false;
      }
      EnsurePending();
      if !headSent {
        var body := if chunk.Some? then chunk.value else [];
        if |queued| == 0 {
          var err := Invoke(SendResponse(pending.value, body));
          if err.Some? {
            return true;
          }
          headSent := true;
          ended := true;
          return false;
        }
      }
      threw := Flush();
      if threw {
        return;
      }
      threw := Finish(chunk);
    }

    method Finish(chunk: Option<seq<Byte>>) returns (threw: bool)
      modifies this
      ensures (State(), threw) == old(EndSent(convention, State(), chunk))
    {
      if chunk.Some? {
        var err := Invoke(SendChunk(chunk.value));
        if err.Some? {
          return true;
        }
      }
      var err := Invoke(SendEnd);
      if err.Some? {
        return true;
      }
      ended := true;
      return false;
    }
  }
}

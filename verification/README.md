# Dafny model of nexide's core state machines and codecs

nexide runs a Next.js server bundle inside V8 isolates driven from Rust. Under the V8 and HTTP
plumbing sit several small machines: the table of in-flight requests, the queue and the pump that
feed them to JavaScript, the response bridge, N-API threadsafe functions, text and base64 codecs,
the CommonJS loader, the glob matcher, two caches, and the worker pool. This project states what
each of them promises and proves it, for every input, every run and every interleaving.

Code that changes state step by step is a class or a method with loops, and is proved equal to a
specification function on values; the promises are lemmas about that function. Code that several
threads or tasks run at once is a state machine with one step per atomic operation, send, lock or
resumption, and its promises are invariants of every run. `dafny verify dfyconfig.toml` checks
everything.

| file | module | what it models |
|---|---|---|
| DispatchTable.dfy | `Dispatch` | the generational arena of in-flight requests with its intrusive free list |
| RequestQueue.dfy | `Queue` | the FIFO of request ids and its one-waiter `Notify` |
| RequestPump.dfy | `Pump` | the JavaScript pump, serial and batched, interleaved with the host's pump task |
| HttpBridge.dfy | `HttpBridge` | `writeHead`/`setHeader`/`write`/`end` driving a `ResponseSlot` |
| Threadsafe.dfy | `Threadsafe` | the life of a threadsafe function under any interleaving |
| TextCodec.dfy | `TextCodec` | the UTF-8 encoder and the streaming decoder |
| Base64.dfy | `Base64` | both base64 codecs, the URL alphabet and hex |
| CjsLoader.dfy | `CjsLoader` | `loadModule` over a cyclic graph with a cache and an evicting error path |
| Glob.dfy | `Glob` | the backtracking matcher and its brace rewriting |
| MemCache.dfy | `ImageCache` | the two-bound LRU of optimised images |
| Prerender.dfy | `Prerender` | the prerender cache over a changing disk |
| Pickers.dfy | `Pickers` | power-of-two-choices picking and handing a connection to a mailbox |
| IsolatePool.dfy | `IsolatePool` | dispatches and recycle passes of the pool, interleaved |
| Bytes.dfy, Wrappers.dfy | `Bytes`, `Wrappers` | bytes, sequence facts, `Option` and `Result` |

## What the code does differently from its comments

- `crates/nexide/runtime/polyfills/http_bridge.js:256-262` passes status and headers as two
  arguments, while `crates/nexide/src/engine/v8_engine/ops_bridge.rs:644-669` reads one head object
  in that place. Under that reading `end()` with nothing written throws and delivers nothing
  (`HttpBridge.NothingWithoutWrite`, `HttpBridge.EndCompletesIff`). The bridge is therefore modelled
  under both argument conventions: `Positional`, as the JavaScript calls it, and `HeadObject`, as the
  Rust reads it.
- `crates/nexide/src/image/glob.rs:46` refuses an empty `*` while any `/` remains in the text, though
  the header promises "any number" of characters; `**/` swallows its slash, and its piece need not
  end at a separator. Both are in the definition of a token's piece (`Glob.AcceptsIffSplits`).
- `crates/nexide/src/napi/bindings.rs:2004-2029` sends the finalizer of a threadsafe function without
  notifying the pump, unlike a call (line 2087). If the last release comes while the pump is parked,
  the finalizer waits until something else wakes it (`Threadsafe.StrandedFinalizer`); exactly when it
  has run is `Threadsafe.FinalizedIffRoused`, and one wake-up is enough
  (`Threadsafe.OneWakeFinalizes`).
- A brace distributes over a brace-free prefix exactly if the prefix's last token is not a `*`, a `**`
  without its slash, or a lone backslash (`Glob.DistributesIff`).
- `crates/nexide/src/pool/isolate_pool.rs:65-68` calls a stride of 7 safe for 14 workers; it visits
  only two of them (`Pickers.FourteenIsNotSafe`). It is safe exactly when 7 does not divide the size
  (`Pickers.SecondaryVisitsAllIff`).
- The accept loop's fallback to the second candidate can only deliver if that worker takes a
  connection after the pick, since the primary was the less loaded of the two
  (`Pickers.FallbackNeedsDrain`).
- The prerender cache compares the payload file only; a sidecar rewritten alone stays unnoticed
  (`Prerender.SidecarAloneIsStale`). Answers out of the cache are right in every run over a history of
  the disk exactly if time and size tell in that history (`Prerender.AlwaysRightIff`), and in one run
  exactly if they tell between the loads and the hits of that run (`Prerender.RunRightIff`).
- A load reads metadata, payload and sidecar one after the other, so it can join the metadata of an old
  page to the payload of a new one (`Prerender.TornLoad`). When requests interleave, answers are right over
  a history of the disk exactly if no three successive moments of it mix to something none of them held,
  or that time and size later pass off as current (`Prerender.AnswersAreLoadsIff`). No history meets this
  in which a page that can be asked for is rewritten with another payload (`Prerender.SafeMeansUnchanged`).
- A recycle pass dropped while it builds leaves its slot's flag set, and that slot is never recycled
  again (`IsolatePool.OrphanIsNeverRecycled`).
- `atob(btoa(s))` gives back `s` if and only if every code unit of `s` is below 256
  (`Base64.AtobOfBtoa`): `btoa` cuts larger units instead of throwing.

## Model

| member | source | states |
|---|---|---|
| `Dispatch.EmptyInv` | crates/nexide/src/ops/dispatch_table.rs:203-209 | a new table satisfies the table invariant |
| `Dispatch.HeadIsVacant` | crates/nexide/src/ops/dispatch_table.rs:402-428 | the free-list head is a vacant slot, and it is absent only when every slot is occupied: the `expect`s and `unreachable`s of insertion never fire |
| `Dispatch.InsertKeepsInv` | crates/nexide/src/ops/dispatch_table.rs:228-247 | insertion keeps an acyclic free list visiting each vacant slot once and no occupied one, and the in-flight count; it fails exactly when all 2^32 slots are occupied |
| `Dispatch.RemoveKeepsInv` | crates/nexide/src/ops/dispatch_table.rs:256-281 | removal, successful or not, keeps that invariant |
| `Dispatch.TakeKeepsInv` | crates/nexide/src/ops/dispatch_table.rs:94-96 | taking a completion sender keeps it |
| `Dispatch.FailFirstSlots` | crates/nexide/src/ops/dispatch_table.rs:354-380 | after n rounds of `fail_all` the first n slots are vacant with bumped generations and the rest untouched |
| `Dispatch.FailFirstChain` | crates/nexide/src/ops/dispatch_table.rs:354-380 | every round of the relinking loop leaves a complete acyclic free list |
| `Dispatch.FailAllMeaning` | crates/nexide/src/ops/dispatch_table.rs:349-383 | `fail_all` leaves no slot occupied and no id valid, and fails exactly the senders still held, each once |
| `Dispatch.ReuseIsLifo` | crates/nexide/src/ops/dispatch_table.rs:228-281 | an insertion right after a removal reuses that slot under the next generation, restores the free list, and makes the old id stale |
| `Dispatch.StepLookup` | crates/nexide/src/ops/dispatch_table.rs:228-398 | one operation changes the validity of an id only by inserting it or ending it |
| `Dispatch.LookupIffLive` | crates/nexide/src/ops/dispatch_table.rs:288-314 | after any run, looking an id up succeeds exactly if it was inserted and neither removed nor failed since |
| `Dispatch.LookupIsWhatWasInserted` | crates/nexide/src/ops/dispatch_table.rs:228-314 | after any run, a live id maps to the request and the sender inserted under it, its sender gone exactly if it has been taken since |
| `Dispatch.RemovedIsWhatWasInserted` | crates/nexide/src/ops/dispatch_table.rs:256-281 | whatever `remove` returns, at any moment of any run, is what was inserted under that id in that life of it |
| `Dispatch.TakenIsWhatWasInserted` | crates/nexide/src/ops/dispatch_table.rs:94-96 | whatever `take_completion` returns is the sender inserted under that id, or nothing if it was taken before |
| `Dispatch.RunGenerations` | crates/nexide/src/ops/dispatch_table.rs:256-281 | after any run, a slot's generation is its number of insertions, less one if occupied, modulo 2^32 |
| `Dispatch.IdOfBirth` | crates/nexide/src/ops/dispatch_table.rs:228-247 | the n-th insertion into a slot gets generation n modulo 2^32 |
| `Dispatch.IdsDistinctIff` | crates/nexide/src/ops/dispatch_table.rs:215-247 | over any run, `insert` never returns an id twice if and only if no slot is filled more than 2^32 times |
| `Dispatch.EndedForever` | crates/nexide/src/ops/dispatch_table.rs:256-301 | below that bound, an id that has ended is invalid forever |
| `Dispatch.SendersConserved` | crates/nexide/src/ops/dispatch_table.rs:94-383 | after any run, each sender was put in as often as it is held plus left |
| `Dispatch.SenderLeavesOnce` | crates/nexide/src/ops/dispatch_table.rs:94-383 | a sender put in once leaves exactly once, by taking, removal or failure, unless still held |
| `Dispatch.FailEverySends` | crates/nexide/src/ops/dispatch_table.rs:349-383 | `fail_all` sends one failure to each held sender, in slot order |
| `Dispatch.DispatchTable.Insert` | crates/nexide/src/ops/dispatch_table.rs:228-247 | the in-place insertion, by free list or by growth, computes the specified arena and id |
| `Dispatch.DispatchTable.Remove` | crates/nexide/src/ops/dispatch_table.rs:256-281 | the in-place removal computes the specified arena and result, errors included |
| `Dispatch.DispatchTable.Get` | crates/nexide/src/ops/dispatch_table.rs:288-301 | the lookup, with its three error cases |
| `Dispatch.DispatchTable.TakeCompletion` | crates/nexide/src/ops/dispatch_table.rs:94-96 | `get_mut` followed by taking the completion |
| `Dispatch.DispatchTable.FailAll` | crates/nexide/src/ops/dispatch_table.rs:349-383 | the relinking loop over the slots returns the number of failures sent and the senders they went to |
| `Queue.HandedOutInOrder` | crates/nexide/src/ops/queue.rs:49-135 | over any run of pushes, polls, drains and cancelled pops, ids handed out followed by ids waiting are the ids pushed, and no consumer sleeps un-notified over a waiting id |
| `Queue.PollDelivers` | crates/nexide/src/ops/queue.rs:63-105 | a polled pop with ids waiting hands out the next ones of the push order, as many as the cap allows |
| `Queue.PushWakesWaiter` | crates/nexide/src/ops/queue.rs:49-70 | a suspended pop is answered by the next push |
| `Queue.NotifiedIff` | crates/nexide/src/ops/queue.rs:49-105 | over any run: a pop waits exactly if one has suspended and has not been dropped or answered since, is notified exactly if an id was pushed since, and a permit is left exactly if a notification has found nobody waiting since a pop last suspended |
| `Queue.BatchAndRest` | crates/nexide/src/ops/queue.rs:84-105 | a drain takes a non-empty front of the queue, a cap of zero counting as one, and leaves the rest |
| `Queue.RequestQueue.Push` | crates/nexide/src/ops/queue.rs:49-52 | append, then wake the waiter or leave a permit |
| `Queue.RequestQueue.TryPopBatch` | crates/nexide/src/ops/queue.rs:117-131 | the drain loop takes the specified batch and leaves the rest |
| `Queue.RequestQueue.PollPopBatch` | crates/nexide/src/ops/queue.rs:84-105 | one poll of the batch pop, through stale permits, until it resolves or suspends |
| `Queue.RequestQueue.PollPop` | crates/nexide/src/ops/queue.rs:63-70 | one poll of the single pop |
| `Pump.TakeConserves` | crates/nexide/src/engine/v8_engine/ops_bridge.rs:764-800 | moving a batch from the queue to the pump keeps dispatched, in hand and queued together equal to pushed |
| `Pump.NextKeepsInv` | crates/nexide/src/pool/engine_pump.rs:123-140 | every step of receiver, host and pump keeps that order and never parks the host over a waiting id without a signal on its way |
| `Pump.DispatchedInOrder` | crates/nexide/runtime/polyfills/nexide_bridge.js:92-154 | in every run, with every cap, what is dispatched is a prefix of what was pushed |
| `Pump.RestIsDone` | crates/nexide/src/pool/engine_pump.rs:123-140 | the system comes to rest only when everything pushed is dispatched |
| `Pump.SerialAndBatchedAgree` | crates/nexide/runtime/polyfills/nexide_bridge.js:72-77 | two runs over the same ids, whatever their caps, dispatch prefixes of one order, and the same sequence once at rest |
| `Pump.InternalRunsEnd` | crates/nexide/src/pool/engine_pump.rs:123-140 | left to itself the system stops within a bound known from the state |
| `Pump.CanFinish` | crates/nexide/runtime/polyfills/nexide_bridge.js:113-152 | from every reachable state internal steps alone can dispatch everything pushed |
| `Pump.AnyJobsAreDispatched` | crates/nexide/runtime/polyfills/nexide_bridge.js:92-154 | whatever ids arrive, there is a run that takes and dispatches exactly them |
| `Pump.WakeupIsAnswered` | crates/nexide/src/pool/engine_pump.rs:123-140 | a wake-up for other work is never lost: before the system rests again the pump has begun another round |
| `Pump.StepKeepsManner` | crates/nexide/runtime/polyfills/nexide_bridge.js:113-152 | the serial pump takes one id at a time and only ever awaits; the batched one takes no more than its cap, and awaits only after it has seen the queue empty |
| `Pump.CapIs` | crates/nexide/runtime/polyfills/nexide_bridge.js:92-112 | a cap above one is used as it is, any other means serial; only its low 32 bits count, as a signed number |
| `Pump.JsPump.StartPump` | crates/nexide/runtime/polyfills/nexide_bridge.js:92-154 | starting twice does nothing; starting once dispatches what is queued, in order, and waits |
| `Pump.JsPump.Wake` | crates/nexide/src/engine/v8_engine/ops_bridge.rs:764-800 | a resolved pop dispatches the whole queue in order, serial or batched, before waiting again |
| `Pump.JsPump.Loop` | crates/nexide/runtime/polyfills/nexide_bridge.js:113-152 | the endless loop from one awaited pop to the next that suspends |
| `Pump.JsPump.DrainQueue` | crates/nexide/runtime/polyfills/nexide_bridge.js:137-150 | the inner drain loop empties the queue in order |
| `HttpBridge.RunInv` | crates/nexide/runtime/polyfills/http_bridge.js:178-284 | after any sequence of calls bridge and slot agree on head and end, and no chunk is ever queued |
| `HttpBridge.NeverViolatesProtocol` | crates/nexide/src/ops/response.rs:109-157 | no sequence of calls makes the slot report a protocol error (an invalid status, bad arguments or a settled request remain possible); accepted ops form a prefix of one whole response or of head, chunks, end |
| `HttpBridge.NoProtocolError` | crates/nexide/src/ops/response.rs:109-157 | under either convention, even if the host settles the request meanwhile: with statuses in 100..=599 the slot never reports any error |
| `HttpBridge.RunBody` | crates/nexide/runtime/polyfills/http_bridge.js:227-276 | the bytes accepted so far are the concatenation of those passed to the calls that did not throw, and the response has ended exactly if an `end` went through |
| `HttpBridge.RunHead` | crates/nexide/runtime/polyfills/http_bridge.js:201-244 | from the calls alone: the status code and the head are what `writeHead`, `setHeader` and the status code say, in their order, the headers listed by the second argument or, behind a status message, by the third |
| `HttpBridge.SentHeadIsWhatWasSaid` | crates/nexide/runtime/polyfills/http_bridge.js:186-199 | every op that is accepted and sends a head carries the one the calls say |
| `HttpBridge.LoweredIs` | crates/nexide/runtime/polyfills/http_bridge.js:223 | exactly the capitals of a header name are lowered |
| `HttpBridge.ThrowsIff` | crates/nexide/runtime/polyfills/http_bridge.js:201-276 | whether any call throws, from the calls alone: on what went through before, on whether the host has settled the request, and, while no head has been sent, on the status |
| `HttpBridge.HeadSentIff` | crates/nexide/runtime/polyfills/http_bridge.js:186-276 | the head has been sent exactly if some `write` or `end` went through |
| `HttpBridge.GoneIff` | crates/nexide/src/engine/v8_engine/ops_bridge.rs:652-672 | the request is gone exactly if the host has settled it or an `end` went through |
| `HttpBridge.Uint32Is` | crates/nexide/src/engine/v8_engine/ops_bridge.rs:249-275 | a status is read modulo 2^32 |
| `HttpBridge.DeliveredIsWhatWasPassed` | crates/nexide/src/ops/response.rs:137-156 | a payload is delivered exactly if an `end` went through, with the head the calls say, its status read as 32 unsigned bits, and exactly the bytes passed |
| `HttpBridge.EndCompletesIff` | crates/nexide/runtime/polyfills/http_bridge.js:240-276 | while the request is open, `end` goes through exactly if the head is already sent, or the op takes positional arguments and the status, read as 32 unsigned bits, is in 100..=599 |
| `HttpBridge.NothingWithoutWrite` | crates/nexide/src/engine/v8_engine/ops_bridge.rs:644-669 | under the head-object reading nothing is delivered unless some `write` went through |
| `HttpBridge.ValidRunIsClean` | crates/nexide/runtime/polyfills/http_bridge.js:178-284 | under either convention, with valid statuses and the request open: the one op whose arguments are misread is all that ever fails, and `end` throws exactly if it would use that op, the convention being the head object and no `write` having sent the head |
| `HttpBridge.ResponseSlot.SendHead` | crates/nexide/src/ops/response.rs:110-122 | accepts one head with a valid status, before the end; otherwise the error and no change |
| `HttpBridge.ResponseSlot.SendChunk` | crates/nexide/src/ops/response.rs:124-135 | stores non-empty chunks after a head; otherwise the error and no change |
| `HttpBridge.ResponseSlot.Finish` | crates/nexide/src/ops/response.rs:137-156 | the body is all chunks joined, by each of the three ways of joining |
| `HttpBridge.HttpResponse.WriteHead` | crates/nexide/runtime/polyfills/http_bridge.js:201-216 | the closure's whole new state, and when it throws; a status message before the headers is passed over |
| `HttpBridge.HttpResponse.SetHeader` | crates/nexide/runtime/polyfills/http_bridge.js:218-225 | the closure's whole new state, the name in lower case, and when it throws |
| `HttpBridge.ReadHeaders` | crates/nexide/runtime/polyfills/http_bridge.js:154-165 | headers of any shape as pairs, a flat array by a loop over its items two by two |
| `HttpBridge.PairUpAt` | crates/nexide/runtime/polyfills/http_bridge.js:154-165 | pair k of a flat array is its items 2k and 2k+1; an odd last item is dropped |
| `HttpBridge.HttpResponse.Write` | crates/nexide/runtime/polyfills/http_bridge.js:227-238 | the closure's whole new state, and when it throws |
| `HttpBridge.HttpResponse.End` | crates/nexide/runtime/polyfills/http_bridge.js:240-276 | the closure's whole new state, and when it throws |
| `Threadsafe.NextKeepsInv` | crates/nexide/src/napi/bindings.rs:1969-2089 | whenever items are taken, every atomic step keeps: the count is what the threads hold, one finalizer is under way exactly once it is zero, items run in the order sent, `queued` is exact, nothing touches the object once dropped |
| `Threadsafe.InsideIsAlive` | crates/nexide/src/napi/bindings.rs:1969-2089 | a thread inside an entry point, or holding a count, works on a live object |
| `Threadsafe.FreedIsOver` | crates/nexide/src/napi/threadsafe.rs:42-46 | once the object is dropped no thread is inside, no item is left, and every item sent has run |
| `Threadsafe.SafeInEveryRun` | crates/nexide/src/napi/bindings.rs:1969-2089 | in every run no step reads the object after it is dropped, the finalizer runs at most once and after every item sent, and `queued` equals the call items outstanding plus those between bump and send |
| `Threadsafe.AdvanceKeepsInv` | crates/nexide/src/pool/engine_pump.rs:123-140 | with the pump's draining, parking and waking added, every move keeps that invariant, and a pump that is not draining never leaves a call item behind without a notification set or about to be sent |
| `Threadsafe.RestIffNoMove` | crates/nexide/src/pool/engine_pump.rs:123-140 | nothing can go on by itself exactly if every thread is outside and the pump is parked |
| `Threadsafe.RestLeavesNoCall` | crates/nexide/src/napi/bindings.rs:2084-2088 | at rest every call item has been taken; the channel is empty or holds the finalizer alone |
| `Threadsafe.FinalizedExactlyOnce` | crates/nexide/src/napi/bindings.rs:1985-2029 | at rest the finalizer has run, once, exactly if all counts are released and neither a closed channel nor a parked pump keeps it |
| `Threadsafe.ReleasedMeansSent` | crates/nexide/src/napi/bindings.rs:2006-2026 | if all counts are released at rest with the channel open, some release sent the finalizer |
| `Threadsafe.FinalizedIffRoused` | crates/nexide/src/napi/bindings.rs:2004-2029 | at rest with the channel open, the finalizer has run if and only if the pump was draining, woken or notified when it was sent, or something else has notified or run it since |
| `Threadsafe.StrandedFinalizer` | crates/nexide/src/napi/bindings.rs:2004-2029 | a run that ends at rest with all counts released and the channel open, and the finalizer still queued |
| `Threadsafe.OneWakeFinalizes` | crates/nexide/src/pool/engine_pump.rs:131-135 | from such a state one notification from anywhere leads to the finalizer run and the object dropped |
| `Threadsafe.InternalRunsEnd` | crates/nexide/src/napi/bindings.rs:1969-2089 | without new entries or outside wake-ups, what is under way ends within a bound known from the state |
| `Threadsafe.AbortedIff` | crates/nexide/src/napi/bindings.rs:1992-1996 | in every run the abort flag is up exactly if a release in abort mode has begun |
| `Threadsafe.RefusedIffAborted` | crates/nexide/src/napi/bindings.rs:1969-2042 | in every run an acquire or a call is refused, leaving threads, count, `queued` and channel as they were, exactly if a release in abort mode has begun; otherwise its thread is let in |
| `Threadsafe.AbortIsFinal` | crates/nexide/src/napi/bindings.rs:1992-1996 | from the release in abort mode on: the flag stays up, every later acquire and call is refused, and no callback begins and no count is claimed but those already past their check |
| `Threadsafe.RunIsTold` | crates/nexide/src/napi/bindings.rs:1969-2089 | from the moves of a run alone: the count is the initial one with what was acquired and released since; the channel is open until it closes; the items sent are what each call passed, in the order of the sends, and the finalizer |
| `TextCodec.ScanSplits` | crates/nexide/runtime/polyfills/web_apis.js:76-147 | decoding a first part and then its leftover with the rest gives what decoding all at once gives |
| `TextCodec.ChunkingIsInvisible` | crates/nexide/runtime/polyfills/web_apis.js:76-147 | for every cut of every byte sequence, streamed decoding plus the final flush equals one whole decode |
| `TextCodec.PointDecodes` | crates/nexide/runtime/polyfills/web_apis.js:100-138 | the bytes of one code point decode to its code units, whatever follows |
| `TextCodec.RoundTrip` | crates/nexide/runtime/polyfills/web_apis.js:39-138 | decoding an encoding gives back every sequence of code units, lone surrogates included, with nothing pending |
| `TextCodec.BytesRoundTrip` | crates/nexide/runtime/polyfills/web_apis.js:76-147 | decoding loses nothing of well-formed UTF-8: encoding gives the bytes back |
| `TextCodec.DecodesByPieces` | crates/nexide/runtime/polyfills/web_apis.js:100-146 | what any bytes decode to: every lead byte with as many bytes as it asks for gives the value of their low bits, whatever they are, a byte that leads nothing gives U+FFFD, and so does a cut sequence at the end |
| `TextCodec.BytesArePieces` | crates/nexide/runtime/polyfills/web_apis.js:100-146 | all byte sequences are such pieces, and at most one cut sequence at the end |
| `TextCodec.StreamedRoundTrip` | crates/nexide/runtime/polyfills/web_apis.js:875-900 | the same through any chunking of the encoded bytes |
| `TextCodec.PointIsUtf8` | crates/nexide/runtime/polyfills/web_apis.js:50-53 | an encoded code point is a character of RFC 3629, section 4, exactly if it is no surrogate |
| `TextCodec.EncodesUtf8` | crates/nexide/runtime/polyfills/web_apis.js:39-56 | the encoder's output is well-formed UTF-8 if and only if the input has no lone surrogate |
| `TextCodec.EncodeText` | crates/nexide/runtime/polyfills/web_apis.js:39-56 | the encoding loop computes the specified bytes |
| `TextCodec.TextDecoder.Decode` | crates/nexide/runtime/polyfills/web_apis.js:76-147 | one call decodes pending bytes with the input and keeps an incomplete tail pending, or replaces it when not streaming |
| `TextCodec.TextDecoder.DecodeLoop` | crates/nexide/runtime/polyfills/web_apis.js:100-147 | the loop over lead bytes computes the specified units and leftover |
| `TextCodec.DecodeStream` | crates/nexide/runtime/polyfills/web_apis.js:875-900 | the decoder stream enqueues non-empty pieces that join to the whole decode |
| `Base64.OctetAt` | crates/nexide/runtime/polyfills/buffer.js:133-141 | the bytes unpacked from sextets, position by position |
| `Base64.RoundTrip` | crates/nexide/runtime/polyfills/buffer.js:97-143 | decoding an encoding gives back all bytes, RFC 4648 section 4 |
| `Base64.EncodingIs` | crates/nexide/runtime/polyfills/buffer.js:97-143 | every character of the encoding: the letters of the alphabet for the 24-bit groups cut into six bits, in order, then the padding |
| `Base64.ValueIs` | crates/nexide/runtime/polyfills/buffer.js:97-143 | a letter of the alphabet has its place as value, and no other character has one |
| `Base64.UrlRoundTrip` | crates/nexide/runtime/polyfills/buffer.js:157-200 | the same in the URL alphabet, RFC 4648 section 5; the encoded text has letters of that alphabet only, no `+`, `/` or padding |
| `Base64.UrlEncodingIs` | crates/nexide/runtime/polyfills/buffer.js:157-200 | the same letters from the URL alphabet, and no padding |
| `Base64.StripKeepsSextets` | crates/nexide/runtime/polyfills/web_apis.js:179 | stripping trailing padding changes no decoded byte |
| `Base64.HexRoundTrip` | crates/nexide/runtime/polyfills/buffer.js:78-95 | decoding hex digits gives back all bytes |
| `Base64.HexIs` | crates/nexide/runtime/polyfills/buffer.js:78-95 | two lower-case digits per byte, the high one first |
| `Base64.HexValueIs` | crates/nexide/runtime/polyfills/buffer.js:78-95 | digits of either case count, and nothing else |
| `Base64.ShiftKeepsLowBits` | crates/nexide/runtime/polyfills/web_apis.js:185 | the wrapping 32-bit accumulator keeps its low bits through every shift |
| `Base64.AtobStep` | crates/nexide/runtime/polyfills/web_apis.js:185-186 | one round of `atob` emits what unpacking emits, despite the wrapped high bits |
| `Base64.AtobOfBtoa` | crates/nexide/runtime/polyfills/web_apis.js:164-189 | `atob(btoa(s))` is `s` if and only if `s` is Latin-1 |
| `Base64.Latin1Only` | crates/nexide/runtime/polyfills/web_apis.js:168-170 | cutting code units to bytes loses nothing exactly on Latin-1 |
| `Base64.Base64Encode` | crates/nexide/runtime/polyfills/buffer.js:97-121 | the encoding loop with its padded tail computes the encoding |
| `Base64.Base64Decode` | crates/nexide/runtime/polyfills/buffer.js:123-143 | filling the array group by group computes the unpacked sextets of any string |
| `Base64.Btoa` | crates/nexide/runtime/polyfills/web_apis.js:164-177 | the second encoder computes the same encoding of the low bytes |
| `Base64.Atob` | crates/nexide/runtime/polyfills/web_apis.js:178-189 | the second decoder computes the same bytes as the first, on every string |
| `Base64.HexEncode` | crates/nexide/runtime/polyfills/buffer.js:78-85 | the loop computes two digits a byte |
| `Base64.HexDecode` | crates/nexide/runtime/polyfills/buffer.js:87-95 | the array is filled from the pairs of hex digits, an odd last one dropped |
| `CjsLoader.LoadingIsStack` | crates/nexide/runtime/polyfills/cjs_loader.js:61-101 | at every moment of every load the cached modules not yet loaded are exactly those on the load stack, without repetition |
| `CjsLoader.LoadedStays` | crates/nexide/runtime/polyfills/cjs_loader.js:95-96 | a module once loaded stays cached with the same exports |
| `CjsLoader.NeverEvaluatedAgain` | crates/nexide/runtime/polyfills/cjs_loader.js:65-66 | the body of a loaded module is never evaluated again |
| `CjsLoader.CycleGetsPartialExports` | crates/nexide/runtime/polyfills/cjs_loader.js:65-66 | a require of a module still on the stack is answered with the exports it has so far |
| `CjsLoader.BeganIsNew` | crates/nexide/runtime/polyfills/cjs_loader.js:65-82 | only a module that is not cached begins to load |
| `CjsLoader.EndedIsTop` | crates/nexide/runtime/polyfills/cjs_loader.js:95-100 | only the innermost loading module ends, loaded or evicted |
| `CjsLoader.CachedIffHeld` | crates/nexide/runtime/polyfills/cjs_loader.js:67-100 | from the events alone: a module is cached exactly if an evaluation of it has begun that no throw has evicted since, with the exports last set in that evaluation |
| `CjsLoader.RequireLeadsTo` | crates/nexide/runtime/polyfills/cjs_loader.js:61-86 | what any require leads to, from the events: a resolution error, the exports held, a read error, or a new evaluation |
| `CjsLoader.EvictedIsEvaluatedAgain` | crates/nexide/runtime/polyfills/cjs_loader.js:67-100 | a module evicted by a throw is evaluated again before any later require of it succeeds |
| `CjsLoader.EvictedIsRethrown` | crates/nexide/runtime/polyfills/cjs_loader.js:97-100 | a throw reaches the code that called require, as it is |
| `CjsLoader.LoadedIsAnswered` | crates/nexide/runtime/polyfills/cjs_loader.js:95-96 | a module that has loaded answers the require that began it with its exports as they are then |
| `CjsLoader.ImmediateIsAnswered` | crates/nexide/runtime/polyfills/cjs_loader.js:84-96 | a JSON or native source is answered with what it yields: exported, loaded and answered, or evicted and thrown |
| `CjsLoader.BodyLeadsTo` | crates/nexide/runtime/polyfills/cjs_loader.js:88-100 | the innermost body's next action is what happens: its throw evicts it, its end loads it |
| `CjsLoader.HostMayRequire` | crates/nexide/runtime/polyfills/cjs_loader.js:116-117 | where no body is being evaluated the host may require anything |
| `CjsLoader.Loader.LoadModule` | crates/nexide/runtime/polyfills/cjs_loader.js:61-101 | the recursion terminates on every finite graph, with cycles and caught or uncaught throws, follows the legal events, and leaves the stack as it found it |
| `CjsLoader.Loader.Body` | crates/nexide/runtime/polyfills/cjs_loader.js:84-94 | the three kinds of module set exports or throw |
| `CjsLoader.Loader.Settle` | crates/nexide/runtime/polyfills/cjs_loader.js:95-100 | success marks the module loaded, a throw evicts it |
| `CjsLoader.Loader.HostRequire` | crates/nexide/runtime/polyfills/cjs_loader.js:116-117 | a require by the host ends with an empty load stack |
| `Glob.SplitJoins` | crates/nexide/src/image/glob.rs:114-136 | joining the alternatives with commas gives back the brace body |
| `Glob.SplitIsComplete` | crates/nexide/src/image/glob.rs:114-136 | no alternative has a comma outside braces |
| `Glob.DotIsMonotone` | crates/nexide/src/image/glob.rs:53-68 | what is accepted without dots is accepted with them |
| `Glob.BracesDistribute` | crates/nexide/src/image/glob.rs:71-96 | behind a plain prefix a brace with a balanced body means its alternatives, for both values of `dot`; balanced means that as many braces are opened as closed and nowhere more are closed |
| `Glob.BraceEndIsFirstClosing` | crates/nexide/src/image/glob.rs:72-83 | the scan ends at the first place up to which the braces closed outnumber those opened, counted as a multiset, or at the end of the pattern |
| `Glob.ClosesBalanced` | crates/nexide/src/image/glob.rs:72-83 | the scan ends at a given closing brace exactly if what comes before it is balanced |
| `Glob.AlternativesAre` | crates/nexide/src/image/glob.rs:114-136 | a balanced body is cut exactly at its commas outside inner braces: the alternatives are balanced, hold no such comma, and joined by commas they are the body |
| `Glob.UnclosedAcceptsNothing` | crates/nexide/src/image/glob.rs:84-87 | a brace that nothing closes accepts nothing, behind any plain prefix |
| `Glob.PlainIfSo` | crates/nexide/src/image/glob.rs:22-30 | a prefix without `{` that does not end in `*` or a backslash is plain |
| `Glob.DistributesIff` | crates/nexide/src/image/glob.rs:71-96 | over a brace-free prefix braces distribute, whatever body, rest and text, if and only if the prefix is plain |
| `Glob.StarDangles` | crates/nexide/src/image/glob.rs:44-61 | they never distribute over a prefix whose last token is `*` |
| `Glob.PathDangles` | crates/nexide/src/image/glob.rs:23-30 | nor over one whose last token is a `**` without its slash |
| `Glob.EscapeDangles` | crates/nexide/src/image/glob.rs:97-103 | nor over one that ends in a lone backslash |
| `Glob.StarBeforeBrace` | crates/nexide/src/image/glob.rs:44-61 | the shortest instance for `*`: `*{*}` rejects "/", which `**` accepts |
| `Glob.EscapeBeforeBrace` | crates/nexide/src/image/glob.rs:97-103 | the shortest instances for a backslash: it accepts "{a}" before `{a}`, not before `a` |
| `Glob.AcceptsIffSplits` | crates/nexide/src/image/glob.rs:18-112 | with and without dots, a brace-free pattern accepts a text if and only if the text splits into one piece per token, each as its token says and, without dots, no `*` or `?` piece at the start of a segment beginning with one |
| `Glob.SlashesAreLiteral` | crates/nexide/src/image/glob.rs:44-70 | an accepted text has at least the pattern's literal slashes, and without `**` exactly those |
| `Glob.Matches` | crates/nexide/src/image/glob.rs:14-16 | the entry point computes acceptance from the start of the text |
| `Glob.MatchesImpl` | crates/nexide/src/image/glob.rs:18-112 | the backtracking recursion with indices computes acceptance, and terminates by the remaining pattern |
| `Glob.MatchGlobStar` | crates/nexide/src/image/glob.rs:23-43 | the search loop of `**` |
| `Glob.MatchStar` | crates/nexide/src/image/glob.rs:44-61 | the search loop of `*`, with its two `continue`s and its `break` |
| `Glob.MatchBrace` | crates/nexide/src/image/glob.rs:71-96 | the brace scan and the loop over rewritten patterns, shorter than what they replace |
| `Glob.SplitBraceAlts` | crates/nexide/src/image/glob.rs:114-136 | the splitting loop computes the alternatives |
| `Glob.ScanBrace` | crates/nexide/src/image/glob.rs:72-83 | the loop finds the closing brace, or the end of the pattern |
| `ImageCache.GetMeaning` | crates/nexide/src/image/memory.rs:75-82 | a hit moves its entry to the most recent place and loses nothing |
| `ImageCache.EvictMeaning` | crates/nexide/src/image/memory.rs:99-113 | eviction drops the shortest run of least recent entries that brings both limits to hold |
| `ImageCache.PutMeaning` | crates/nexide/src/image/memory.rs:84-113 | after a put both limits hold, the byte counter is the exact sum, and what went was the shortest run of least recent entries |
| `ImageCache.PutKeepsWhatFits` | crates/nexide/src/image/memory.rs:84-113 | the new entry survives its own put exactly if it fits alone and one entry is allowed; otherwise the cache ends empty |
| `ImageCache.CounterExactIff` | crates/nexide/src/image/memory.rs:90-94 | the saturating counter is the exact sum if and only if that sum fits a `usize` |
| `ImageCache.RunKeepsLimits` | crates/nexide/src/image/memory.rs:75-113 | over any run of gets and puts keys stay distinct, the counter exact and both limits kept |
| `ImageCache.LeastStampIsOldest` | crates/nexide/src/image/memory.rs:101-106 | the entry with the least stamp is the least recently used one |
| `ImageCache.WriteIsMostRecent` | crates/nexide/src/image/memory.rs:88-92 | writing under the next stamp makes the entry the most recent, stamps staying distinct |
| `ImageCache.MemCache.Get` | crates/nexide/src/image/memory.rs:75-82 | the map with stamps behaves as the recency list |
| `ImageCache.MemCache.Put` | crates/nexide/src/image/memory.rs:84-96 | the map with stamps behaves as the recency list, counter included |
| `ImageCache.MemCache.EvictLoop` | crates/nexide/src/image/memory.rs:99-113 | the loop removing least stamps computes the specified eviction |
| `ImageCache.MemCache.LeastStamp` | crates/nexide/src/image/memory.rs:101-106 | the search for the least stamp |
| `Prerender.KeysAgreeIff` | crates/nexide/src/server/prerender.rs:151-162 | two requests share a cache key exactly if they ask for the same stem in the same form |
| `Prerender.LookupIs` | crates/nexide/src/server/prerender.rs:151-162 | a path is refused exactly if it asks for build output or the api, holds two dots in a row or a backslash; else its key is what stands between its slashes, or the index page, and the suffix of the form |
| `Prerender.PathParts` | crates/nexide/src/server/prerender.rs:155-159 | every path is slashes, a core that neither begins nor ends in one, and slashes |
| `Prerender.SidecarIsShared` | crates/nexide/src/server/prerender.rs:225-229 | both forms of a page read the one sidecar of their stem |
| `Prerender.LoadIs` | crates/nexide/src/server/prerender.rs:198-229 | what a load yields, from the disk: payload, time and size of the page, its digest, the content type of its form, and the headers of the sidecar next to it |
| `Prerender.InsertIs` | crates/nexide/src/server/prerender.rs:174-179 | below its capacity the cache gains an entry and keeps all others; at its capacity it starts again |
| `Prerender.RepeatIsHit` | crates/nexide/src/server/prerender.rs:166-181 | on an unchanged disk the same request is answered again from the cache, which stays as it is |
| `Prerender.SidecarAloneIsStale` | crates/nexide/src/server/prerender.rs:183-192 | a sidecar rewritten alone is served stale |
| `Prerender.RunRightIff` | crates/nexide/src/server/prerender.rs:166-181 | one run of requests over a changing disk: every answer is what a load would give at its moment if and only if, for every hit, the page loads as it did when it was last actually loaded |
| `Prerender.AlwaysRightIff` | crates/nexide/src/server/prerender.rs:166-192 | for a history of the disk: every answer of every run is right if and only if no page that can be asked for changes what it loads as while its time and size come back |
| `Prerender.AskTwice` | crates/nexide/src/server/prerender.rs:166-172 | asking at a moment and again while time and size match answers with the first load, whatever the disk holds |
| `Prerender.AnswersAreExplained` | crates/nexide/src/server/prerender.rs:198-224 | over any interleaving of requests, loads of three readings and disk changes: every answer is nothing where a load finds nothing, or was put together by one load from what it read, within its own request or, for a hit, before |
| `Prerender.AnswersAreLoadsIff` | crates/nexide/src/server/prerender.rs:166-224 | for a history of the disk: every answer of every interleaving is what a load would have given while its request was under way, if and only if of no page that can be asked for can readings at three successive moments be put together to what no moment from the first to the third held, or to what time and size later pass off as current |
| `Prerender.MixIsAnswered` | crates/nexide/src/server/prerender.rs:198-224 | any three successive moments can be those at which a load reads metadata, payload and sidecar: a run of one request answers what they hold together |
| `Prerender.MixIsHit` | crates/nexide/src/server/prerender.rs:166-172 | and a run answers it again, out of the cache, at any later moment at which its time and size match |
| `Prerender.SafeMeansUnchanged` | crates/nexide/src/server/prerender.rs:166-224 | such a history never rewrites a page that can be asked for: whenever it loads, its payload and headers are the same, and only time and size may change |
| `Prerender.TornLoad` | crates/nexide/src/server/prerender.rs:198-224 | the run of a load torn by a rewrite: it answers what no moment of the disk would load, though each of the two pages was whole |
| `Prerender.CacheIsBounded` | crates/nexide/src/server/prerender.rs:174-179 | whatever the disk does, the cache never exceeds 4096 entries |
| `Prerender.PrerenderInner.ResolveAsset` | crates/nexide/src/server/prerender.rs:166-181 | revalidate, load and insert, clearing a full cache |
| `Prerender.PrerenderInner.TryServe` | crates/nexide/src/server/prerender.rs:135-143 | other methods than GET and HEAD, and paths without a key, fall through and change nothing; otherwise the asset of the form the `rsc` header asks for |
| `Pickers.BetterOfTwo` | crates/nexide/src/pool/isolate_pool.rs:180-191 | with two workers or more the samples differ and neither carries less than the one chosen |
| `Pickers.SamplesAre` | crates/nexide/src/pool/isolate_pool.rs:180-191 | the first sample is where the first counter stands on the ring; the second is where the second one does, or the next place if that is taken |
| `Pickers.CounterIs` | crates/nexide/src/pool/isolate_pool.rs:185-186 | a wrapping counter after k picks, in closed form |
| `Pickers.EqualLoadsRoundRobin` | crates/nexide/src/pool/isolate_pool.rs:180-191 | under equal loads the k-th pick is k modulo the pool size |
| `Pickers.SecondaryVisitsAllIff` | crates/nexide/src/pool/isolate_pool.rs:65-69 | before the counter wraps, n consecutive secondary samples visit every worker, each once, if and only if 7 does not divide n |
| `Pickers.FourteenIsNotSafe` | crates/nexide/src/pool/isolate_pool.rs:65-69 | with 14 workers the secondary samples only ever reach two |
| `Pickers.Picker.PickIndex` | crates/nexide/src/pool/isolate_pool.rs:180-191 | the pick and both counters after it; a pool of one advances neither |
| `Pickers.AcceptLoop.PickWorker` | crates/nexide/src/server/accept_loop.rs:161-178 | both candidates, the depth of the first sample read before that of the second, with workers acting in between; the shorter queue as read comes first |
| `Pickers.CandidatesDiffer` | crates/nexide/src/server/accept_loop.rs:161-178 | the candidates are distinct unless there is one worker; if no worker acted between the readings the primary's queue is no longer, and it is the pool's choice |
| `Pickers.DeliveredOnce` | crates/nexide/src/server/accept_loop.rs:124-151 | a connection lands last in one open mailbox or is dropped, no mailbox outgrows its capacity, and nothing else moves but what workers take |
| `Pickers.OutcomeIs` | crates/nexide/src/server/accept_loop.rs:124-151 | a connection goes to the primary exactly if that takes it, to the secondary exactly if the primary is open but full and the secondary takes it then |
| `Pickers.FallbackNeedsDrain` | crates/nexide/src/server/accept_loop.rs:132-138 | the fallback delivers only if the primary is the first sample, both mailboxes were full when they were read, and the second worker took a connection after that |
| `Pickers.FallbackDelivers` | crates/nexide/src/server/accept_loop.rs:132-138 | between two full mailboxes one connection taken by the second worker lets the fallback deliver |
| `Pickers.ShutDrops` | crates/nexide/src/server/accept_loop.rs:144-149 | a connection offered to a primary whose mailbox is shut is dropped |
| `Pickers.NoMailboxIsIdle` | crates/nexide/src/server/worker_runtime.rs:262-266 | a worker without a mailbox counts as idle, and as the first sample is always the primary |
| `Pickers.AcceptLoop.DispatchStream` | crates/nexide/src/server/accept_loop.rs:124-151 | pick, offer to the primary, fall back when full, drop when closed, with workers acting between the two readings and around each send |
| `IsolatePool.Next` | crates/nexide/src/pool/isolate_pool.rs:180-246 | every step of a dispatch or a pass keeps slot indices in range and the two samples distinct, however dispatches interleave on the counters |
| `IsolatePool.PickByLoadsRead` | crates/nexide/src/pool/isolate_pool.rs:180-191 | in every run of a pool of several slots, a dispatch that picked a slot drew two distinct samples from the two counters at two earlier steps of its own, read their loads at two later ones, and picked the one that carried no more as read |
| `IsolatePool.UninterruptedPick` | crates/nexide/src/pool/isolate_pool.rs:180-191 | with nothing in between, the atomic steps of a pick make the sequential picker's choice and leave its counters |
| `IsolatePool.UninterruptedDispatch` | crates/nexide/src/pool/isolate_pool.rs:193-204 | with nothing in between, a dispatch asks the worker installed in its slot, once, counts its success, and leaves every in-flight counter as it was |
| `IsolatePool.UninterruptedPass` | crates/nexide/src/pool/isolate_pool.rs:206-246 | with nothing in between, a pass over all slots replaces exactly the workers that are judged unhealthy, are not being recycled already and for which a fresh one is built, leaves every flag as it was, and rests |
| `IsolatePool.EveryBuildIsInstalled` | crates/nexide/src/pool/isolate_pool.rs:219-230 | in every run as many builds of a worker for a slot ended as there were replacements by it and passes about to make one: what is built is installed, once, and nothing else is |
| `IsolatePool.WorkerWasBuilt` | crates/nexide/src/pool/isolate_pool.rs:219-230 | in every run a slot holds its boot worker or one whose build for that slot ended at an earlier step of some pass |
| `IsolatePool.InflightKept` | crates/nexide/src/pool/isolate_pool.rs:249-263 | every step keeps a slot's counter equal to its live guards |
| `IsolatePool.FlagKept` | crates/nexide/src/pool/isolate_pool.rs:219-245 | every step keeps the flag set exactly while one pass works on the slot, or after such a pass was dropped |
| `IsolatePool.RecycleCountKept` | crates/nexide/src/pool/isolate_pool.rs:227-230 | every step keeps the recycle count equal to the replacements, but for those just installed |
| `IsolatePool.DispatchCountKept` | crates/nexide/src/pool/isolate_pool.rs:197-201 | every step keeps the dispatch count equal to the successful replies, but for those just received |
| `IsolatePool.CountersAgree` | crates/nexide/src/pool/isolate_pool.rs:193-246 | in every reachable state all these counters agree |
| `IsolatePool.DispatchCountIs` | crates/nexide/src/pool/isolate_pool.rs:197-201 | in every run the dispatch count is the number of successful answers among the steps, but for those just about to be counted |
| `IsolatePool.CountersStand` | crates/nexide/src/pool/isolate_pool.rs:180-190 | in every run the two counters are 0 advanced by 1 and by 7 for each first and each second sample among the steps, modulo 2^64 |
| `IsolatePool.OneBuildPerSlot` | crates/nexide/src/pool/isolate_pool.rs:219-245 | in every reachable state at most one pass builds, installs or clears for a slot |
| `IsolatePool.FlagIffWorkedOn` | crates/nexide/src/pool/isolate_pool.rs:219-245 | the flag is set exactly if a pass works on the slot or one was dropped there, never both |
| `IsolatePool.AnsweredByWorkerTaken` | crates/nexide/src/pool/isolate_pool.rs:193-204 | in every reachable state each reply came from the one worker its dispatch took, at a moment when that worker was installed in the slot picked, even if it was replaced since |
| `IsolatePool.OrphanIsNeverRecycled` | crates/nexide/src/pool/isolate_pool.rs:219-245 | a slot whose pass was dropped mid-build keeps its flag and its worker in every later run |
| `IsolatePool.SettledIsClean` | crates/nexide/src/pool/isolate_pool.rs:249-263 | when every dispatch is over and every pass ended, all in-flight counts are zero and the statistics exact |

## Left out

- V8 itself, the rest of the N-API surface, the network, TLS, child processes, compression, image
  decoding and resizing, the command line and the benchmarks: library or system calls.
- Pool sizing, heap configuration, recycle policies and environment parsing: one-branch arithmetic.
- Whether cache keys of optimised images are unique, and whether two of the format choosers agree: neither holds.
- Request handler stack and `data` listeners of the HTTP bridge, and the encoding of string chunks to bytes.
- Memory orderings: every atomic operation is one step of a sequentially consistent interleaving.
- Dispatch.DispatchTable.TakeCompletion: borrows from `get_mut` used for anything but the completion are not modelled.
- Dispatch.InsertKeepsInv: growth past 2^32 slots is a panic in the source and None here.
- Threadsafe.SafeInEveryRun: `queued` is an unbounded integer, so a wrap of the signed counter is not modelled; the total of counts held is taken to stay below 2^64.
- Threadsafe.NextKeepsInv: a release sends the finalizer through a field of the object in one step, so the JavaScript thread dropping the object while that send still returns is not modelled.
- Threadsafe.InternalRunsEnd: a callback is one step, so a callback that never returns or calls back into the same function is not modelled.
- Threadsafe.AdvanceKeepsInv: other users of the work channel and of the pump appear only as the wake-ups they cause.
- Queue.RequestQueue.PollPopBatch: tokio's `Notify` is a permit and one waiter; wake-ups of several waiters are not modelled, the queue having one consumer.
- Pump.DispatchedInOrder: handler promises, the errors they raise and the pump's exit when an op throws are not modelled.
- HttpBridge.HttpResponse.WriteHead: statuses are integers; how JavaScript turns other values, and header values that are no strings, into these is not modelled.
- HttpBridge.HttpResponse.SetHeader: only ASCII letters are lowered, header names having no others.
- HttpBridge.NeverViolatesProtocol: a handler's own reads of the response object, and arrays it changes after passing them, are not modelled.
- CjsLoader.Loader.LoadModule: resolution and the contents of files are fixed for all time, so a file edited between an eviction and the next require is not modelled.
- CjsLoader.Loader.Body: module bodies are oracles over everything that happened so far, which require, catch, throw or finish, and take a bounded number of actions each; user code that edits `require.cache` is not modelled, and exports are set only by a module's own evaluation.
- CjsLoader.LoadedStays: later mutation of an exports object by its holders is not modelled.
- TextCodec.TextDecoder.Decode: labels, `fatal` and byte-order marks are ignored, as the source ignores them.
- Base64.Atob: JavaScript's bit operations are written as division and remainder; iteration by code point instead of code unit makes no difference, since what is not a letter is skipped.
- ImageCache.MemCache.Put: the stamp counter is taken to stay below 2^64, and a poisoned lock is not modelled.
- Prerender.RunRightIff: each request looks, loads and inserts at one moment; interleaved requests are the subject of `Prerender.AnswersAreLoadsIff`.
- Prerender.AnswersAreExplained: digest and sidecar parsing are arbitrary functions, and the order of parsed headers is taken to be fixed.
- Pickers.AcceptLoop.DispatchStream: the accept loop is the only sender.
- IsolatePool.AnsweredByWorkerTaken: a worker answers any dispatch it was given, once; what happens inside it is not modelled.

# Virtual clock and delay filter

A Dafny model of the discrete-event virtual clock of the `vtime` package and of the
`vnet` delay filter that runs on it.

The model has four parts:

- **Event queue** (`queue.dfy`, module `EventQueue`). A binary min-heap of
  `(id, at, callback)` elements. It is ordered by the firing instant alone, as Go's
  `container/heap` keeps it. `Push` stamps a fresh id, `Pull` removes the earliest
  element, and `Stop` sets a one-way flag.
- **Reader-count lock** (`recursive_lock.dfy`, module `RecursiveLock`). The
  simulator's reentrant read lock, as a reader counter plus flags for the underlying
  reader/writer lock.
- **Simulator and its clients** (`simulator.dfy`, module `VTime`):
  - the simulator owns the queue, the virtual `now` and the lock;
  - one event-loop iteration (`Step`) pulls the earliest event, sets `now` to its
    instant and runs its callback;
  - timers, tickers and `Sleep` each push an event at `now + d`;
  - a timer event delivers only if its timer still expires at that instant;
  - a ticker re-arms one period later after each delivered tick.
- **Delay filter** (`delay_filter.dfy`, module `VNet`). Each chunk is tagged with
  `deadline = now + delay` and kept in a FIFO queue. A timer is armed for the head's
  deadline, and each tick forwards the head once its deadline has come.

`scenarios.dfy` (module `Scenarios`) states as exact outcomes the runs that the
package's tests check, and the runs that show the two findings below.

Other modelling choices:

- **Times.** Times and durations are `int` nanoseconds, and 0 is the zero instant.
- **Callbacks.** A callback is the datatype `Action`: `TimerFire`, `TickerFire` or
  `SleepWake`.
- **Ticks.** Delivering a tick on a channel and receiving its `Done` acknowledgement is
  one append to the simulator's log `delivered`.
- **Panics.** A panic is the result `Panicked(message)`, carrying the source's message.
- **Waits.**
  - `Pull`'s wait on an empty queue becomes the result `WouldBlock`.
  - The event loop pulls before it locks. A stopped or empty queue therefore ends an
    iteration whatever the reader count. Only once an event is pulled does the loop wait
    at `Lock` for readers to leave. That wait becomes the precondition "no reader, or
    the iteration stops at `Pull`". The reader count is the same after each iteration.
- **Receivers.** Whether a receiver is ready for a non-blocking timer is the parameter
  `receivers` of `Step`.

One might expect ties to be pulled in insertion order and `now` never to decrease. The
code does neither, and the model follows the code:

- **Ties are not first-in first-out.** `Less` compares instants only, so three events
  pushed for one instant are pulled with ids 0, 2, 1 (`Scenarios.TiesAreNotFifo`).
- **`Sleep` accepts a negative duration.** The event loop then moves `now` backwards
  (`Scenarios.NegativeSleep`). Timers and tickers do reject negative durations. So `now`
  never decreases only while every queued event is due no earlier than `now`, and
  `Step` and `EventLoop` state exactly that.

## Model

| member | source | states |
|---|---|---|
| EventQueue.LessOrdersByInstantOnly | vtime/queue.go:22-24 | Less is irreflexive and transitive, and two elements are tied exactly when they fire at the same instant, whatever their ids |
| EventQueue.Swap | vtime/queue.go:26-28 | the two slots are exchanged, every other slot is unchanged, and the contents are kept |
| EventQueue.SiftUp | vtime/queue.go:72 | heap.Push's sift-up only rearranges: same length, same contents |
| EventQueue.SiftDown | vtime/queue.go:87 | heap.Pop's sift-down only rearranges the first n slots: same contents, and the slots from n on are untouched |
| EventQueue.SmallerChild | vtime/queue.go:87 | the child of slot i that sift-down compares with: neither child fires before it, and it is the right child only when that one is strictly earlier |
| EventQueue.SiftUpRestoresHeap | vtime/queue.go:72 | sift-up of the one slot out of order turns the sequence into a heap |
| EventQueue.SiftDownRestoresHeap | vtime/queue.go:87 | sift-down of the root over a prefix turns that prefix into a heap |
| EventQueue.HeapRootIsEarliest | vtime/queue.go:22-24 | in a heap, no slot fires before the root |
| EventQueue.RootIsEarliest | vtime/queue.go:22-24 | the root of a non-empty heap is an earliest element of its contents |
| EventQueue.PushedIsHeap | vtime/queue.go:30-33 | appending and sifting up keeps the heap order |
| EventQueue.PoppedIsHeap | vtime/queue.go:35-41 | swapping the root out, sifting down and truncating keeps the heap order |
| EventQueue.Pushed | vtime/queue.go:72 | the heap gains exactly the one element: one slot more, contents plus that element |
| EventQueue.Popped | vtime/queue.go:87 | the heap loses exactly its root: one slot fewer, contents minus the root |
| EventQueue.AddingKeepsIdsDistinct | vtime/queue.go:66-71 | adding an element stamped with the next id keeps every id below the incremented counter, every element queued once, and no two elements sharing an id |
| EventQueue.RemovingKeepsIdsDistinct | vtime/queue.go:87 | removing an element keeps every element queued once and no two elements sharing an id |
| EventQueue.Queue.constructor | vtime/queue.go:50-57 | newEventQueue: an empty valid heap, next id 0, not stopped |
| EventQueue.Queue.Len | vtime/queue.go:59-61 | the number of queued elements |
| EventQueue.Queue.Push | vtime/queue.go:63-75 | exactly one element is added, with id = old nextID and the given instant; nextID goes up by 1; nothing is removed; there is no stopped check |
| EventQueue.Queue.Insert | vtime/queue.go:72 | heap.Push on the queue's slice: the heap becomes Pushed of the old heap and the element |
| EventQueue.Queue.PopRoot | vtime/queue.go:87 | heap.Pop on the queue's slice: the old root is returned and the heap becomes Popped of the old heap |
| EventQueue.Queue.Up | vtime/queue.go:72 | the in-place up loop computes SiftUp |
| EventQueue.Queue.Down | vtime/queue.go:87 | the in-place down loop computes SiftDown |
| EventQueue.Queue.Pull | vtime/queue.go:77-89 | stopped ⇒ Stopped, with the heap untouched even when events remain; empty ⇒ WouldBlock; otherwise the old root, which is earliest of all, and the heap loses exactly that element |
| EventQueue.Queue.PopEarliest | vtime/queue.go:87 | the root leaves, it is earliest, and the rest stays a valid heap |
| EventQueue.Queue.Stop | vtime/queue.go:91-96 | only sets stopped; the heap and nextID are unchanged, so a second Stop changes nothing |
| Scenarios.TiesAreNotFifo | vtime/queue.go:22-24 | three pushes for one instant are pulled as ids 0, 2, 1 |
| Scenarios.PullAfterStop | vtime/queue.go:63-96 | after Stop, Pull reports stopped while two events are queued, one of them pushed after Stop |
| RecursiveLock.RecursiveRWLock.constructor | vtime/recursivemutex.go:8-12 | the zero value: no readers, and neither the read side nor the write side of the lock held |
| RecursiveLock.RecursiveRWLock.RLock | vtime/recursivemutex.go:15-22 | readers + 1; the underlying read lock is taken only on the 0 → 1 transition; balance is kept |
| RecursiveLock.RecursiveRWLock.RUnlock | vtime/recursivemutex.go:25-32 | readers − 1; the underlying read lock is released only on the 1 → 0 transition; balance is kept |
| RecursiveLock.RecursiveRWLock.Lock | vtime/recursivemutex.go:35-37 | takes the writer lock when no reader and no writer holds it; the reader count is unchanged |
| RecursiveLock.RecursiveRWLock.Unlock | vtime/recursivemutex.go:40-42 | releases the writer lock; the reader count is unchanged |
| RecursiveLock.NestedReadLocks | vtime/recursivemutex.go:15-32 | n RLocks then n RUnlocks peak at n readers and return to 0 readers with the lock not held |
| VTime.Simulator.constructor | vtime/simulator.go:20-28 | NewSimulator: now = start, an empty running queue, no readers |
| VTime.Simulator.Stop | vtime/simulator.go:34-36 | the queue is stopped, with its events and next id kept |
| VTime.Simulator.Now | vtime/simulator.go:38-40 | the current virtual instant |
| VTime.Simulator.Since | vtime/simulator.go:42-44 | the duration that, added to tm, reaches now |
| VTime.Simulator.Until | vtime/simulator.go:60-62 | the duration that, added to now, reaches tm |
| VTime.Simulator.FreezeNow | vtime/simulator.go:46-58 | returns now and leaves one more read acquisition held |
| VTime.Simulator.FreezeDone | vtime/simulator.go:50-53 | the acknowledgement releases that read acquisition, restoring the count |
| VTime.Simulator.Schedule | vtime/queue.go:63-75 | the simulator's push of an admissible event: the queue gains exactly that element with the next id, nextID goes up by 1, and the simulator's invariant is kept |
| VTime.Simulator.Sleep | vtime/sleep.go:8-16 | pushes exactly one wake-up at now + d; the reader count is the same before and after |
| VTime.Simulator.NewTicker | vtime/ticker.go:16-42 | a negative period panics with the source's message, queueing nothing; otherwise a fresh running ticker with exactly one event at now + period |
| VTime.Simulator.NewTimer | vtime/timer.go:20-30 | a negative duration panics; otherwise a fresh timer of this simulator in the given mode, expiring at now + d, with exactly one event |
| VTime.Simulator.Next | vtime/simulator.go:66-69 | Pull inside the loop: stopped, would block, or the earliest event removed from the queue |
| VTime.Simulator.Advance | vtime/simulator.go:70-72 | now becomes the pulled instant, under the write lock, which is released again |
| VTime.Simulator.FireTimer | vtime/timer.go:58-84 | delivers only if the timer still expires now, and then only if it is blocking or a receiver is ready; a fired timer is disarmed; a stale event changes nothing |
| VTime.Simulator.FireTicker | vtime/ticker.go:25-36 | a stopped ticker does nothing; otherwise one tick stamped now, then exactly one event at now + period |
| VTime.Simulator.RunEvent | vtime/simulator.go:71-75 | now is set to the event's instant before its callback runs, and the callback's effect is Runs |
| VTime.Simulator.Step | vtime/simulator.go:64-77 | Halted iff stopped, Idle iff the queue is empty, whatever the readers, since Pull comes before Lock; otherwise it runs an earliest event at its own instant; no other timer changes; the reader count is kept; now does not decrease while no event is in the past |
| VTime.Simulator.EventLoop | vtime/simulator.go:64-77 | the loop ends with StoppedLoop only once stopped; a stopped queue makes it return at once with nothing changed, even while a reader holds the lock; the reader count is kept; now never decreases while no event is in the past |
| VTime.Timer.constructor | vtime/timer.go:21-27 | the struct literal: a timer of the given simulator and mode, not yet armed |
| VTime.Timer.Stop | vtime/timer.go:40-46 | as written: disarms the timer and reports whether it was armed after clearing, so always false |
| VTime.Timer.StopReportingArmed | vtime/timer.go:40-46 | as intended: disarms the timer and reports whether it was armed |
| VTime.Timer.Reset | vtime/timer.go:48-87 | a negative d panics and changes nothing; otherwise expiresAt = now + d, exactly one event at that instant, and the result is "the old expiry is strictly before the new one"; the reader count is kept |
| VTime.Ticker.constructor | vtime/ticker.go:20-23 | the struct literal: a ticker that is not stopped |
| VTime.Ticker.Stop | vtime/ticker.go:48-50 | sets stopped, so the pending event emits nothing and does not re-arm |
| VTime.ScheduledAdd | vtime/ticker.go:33-39 | queueing an admissible event of a ticker with no queued event keeps at most one event per ticker |
| VTime.ScheduledRemove | vtime/simulator.go:66 | pulling an event keeps the queue scheduled and leaves its ticker with no queued event, so it may re-arm |
| Scenarios.SleepAlone | vtime/sleep.go:8-16 | with nothing else queued, Sleep(d) returns now + d, and now is that instant |
| Scenarios.SequentialSleeps | vtime/sleep_test.go:13-25 | sleeping 1s, 2s, 3s from the zero instant wakes at 1s, 3s, 6s |
| Scenarios.NegativeSleep | vtime/sleep.go:8-16 | Sleep(−1s) wakes one second before it started |
| Scenarios.StopOfArmedTimer | vtime/timer.go:40-46 | on an armed timer, Stop as written reports false and as intended reports true |
| Scenarios.TimerResets | vtime/timer_test.go:26-51 | ticks at 1s, 5s, 15s from the first, second, first timer: the second timer's stale 2s event emits nothing |
| Scenarios.StepKnown | vtime/simulator.go:64-77 | when one queued event is strictly earliest, one iteration runs exactly that one |
| Scenarios.TickerHasNoDrift | vtime/ticker_test.go:16-32 | read from the delivered ticks: the j-th tick of a ticker started at start is at start + (j + 1) · period, for every n |
| Scenarios.NextTick | vtime/ticker.go:25-36 | with only a running ticker's event queued, one iteration delivers exactly its tick, at its instant, and re-arms one period later |
| Scenarios.TickerStep | vtime/ticker.go:25-36 | a ticker's strictly earliest tick is logged at its instant and re-arms one period later |
| Scenarios.UnsynchronizedTickers | vtime/ticker_test.go:72-123 | periods 3s and 5s tick at 3s, 5s, 6s, 9s, 10s, from tickers 1, 2, 1, 1, 2 |
| Scenarios.TwoTickerStep | vtime/ticker.go:25-36 | of two queued ticker events, one not later than the other fires and re-arms, and the other is kept |
| Scenarios.StepOfTwo | vtime/simulator.go:64-77 | with two queued ticker events, an iteration runs one no later than the other |
| Scenarios.SyncStep | vtime/ticker_test.go:56-69 | of two equal-period tickers at most one tick apart, the one that fires stays within one tick of the other; the delivered tick carries the fired ticker's own multiple of the period |
| Scenarios.SyncRound | vtime/ticker_test.go:56-69 | one loop round of the test: the delivered tick is appended with its time, its ticker's number (1 or 2), that ticker's count after the tick (from1 or from2), and the difference from1 − from2; the two counts are those of the extended record |
| Scenarios.Recorded | vtime/ticker_test.go:58-67 | the test's `from1++` / `from2++` bookkeeping: only the ticker that fired has its count raised, and the record extended by the tick still holds |
| Scenarios.SynchronizedTickers | vtime/ticker_test.go:41-70 | read from the simulator's delivered ticks: tick j comes from ticker 1 or 2 and is at start + c · period, where c counts that ticker's own ticks up to and including tick j; after every tick the two tickers' counts differ by at most 1 |
| Scenarios.StoppedTickerFiresNothing | vtime/ticker.go:26-28 | a ticker stopped before its first tick emits nothing and leaves no event |
| Scenarios.LoopAfterStop | vtime/simulator.go:64-69 | the loop on a stopped simulator makes no step and leaves the queued event |
| Scenarios.StopEndsLoopWhileFrozen | vtime/simulator.go:64-69 | while a FreezeNow acquisition is held, a stopped simulator's loop still returns at once, and the reader stays |
| VNet.DelayFilter.constructor | vnet/delay_filter.go:38-51 | an empty queue, no timer, nothing forwarded |
| VNet.DelayFilter.OnInboundChunk | vnet/delay_filter.go:53-67 | queues exactly one chunk, deadline = frozen now + delay; arms the timer, created on first use, for the head's deadline with one event; panics, leaving the read lock held, iff the head is already overdue |
| VNet.DelayFilter.EnqueueAndArm | vnet/delay_filter.go:55-65 | under the frozen clock: queues the chunk last and arms the timer for the head's deadline |
| VNet.DelayFilter.Enqueue | vnet/delay_filter.go:55-58 | the queue and the arrivals gain exactly the chunk, at the end |
| VNet.DelayFilter.Arm | vnet/delay_filter.go:60-65 | creates the timer for wait, or stops and resets it; a negative wait panics, queueing nothing |
| VNet.DelayFilter.OnTick | vnet/delay_filter.go:85-106 | empty queue: nothing forwarded, timer reset to one minute; the head is forwarded iff its deadline ≤ now, at most one per tick, with the rest of the queue unchanged; then re-armed for a minute, or for the new head's deadline (a panic when overdue) |
| VNet.DelayFilter.ForwardHead | vnet/delay_filter.go:93-96 | the head leaves the queue and is appended to the forwarded log |
| VNet.DelayFilter.Run | vnet/delay_filter.go:72-79 | as written: the loop listens on a fresh timer armed for now, distinct from the filter's timer |
| VNet.DelayFilter.RunSharingTimer | vnet/delay_filter.go:72-79 | as intended: the loop listens on the filter's own timer, armed for now |
| Scenarios.StartFilterAsWritten | vnet/delay_filter.go:72-91 | as written: Run's first tick on the empty queue re-arms its own timer for a minute |
| Scenarios.ChunkArmsUnheardTimer | vnet/delay_filter.go:53-67 | as written: the filter's timer tick at the chunk's deadline has no receiver and is dropped; the chunk stays queued |
| Scenarios.MinuteTickForwards | vnet/delay_filter.go:85-97 | as written: the chunk is forwarded only by the one-minute tick |
| Scenarios.DelayFilterAsWritten | vnet/delay_filter.go:53-106 | a chunk received at 1s with delay 10ms is still queued at 1.01s and is forwarded at 61s |
| Scenarios.LateChunkPanics | vnet/delay_filter.go:59-66 | as written: a second chunk after the first's missed deadline panics, and one read acquisition stays held |
| Scenarios.StartFilterSharingTimer | vnet/delay_filter.go:72-91 | with the shared timer: the first tick re-arms the filter's timer for a minute |
| Scenarios.ChunkRearmsSharedTimer | vnet/delay_filter.go:53-106 | with the shared timer: the chunk re-arms it for its deadline and is forwarded at that instant |
| Scenarios.DelayFilterSharingTimer | vnet/delay_filter.go:53-106 | with the shared timer: a chunk received at 1s with delay 10ms is forwarded at 1.01s |

The filter's invariant `VNet.DelayFilter.Valid` is kept by every filter operation. It
says three things:

- the forwarded chunks followed by the queued ones are exactly the chunks received, in
  order;
- every chunk was forwarded no earlier than its deadline, which is its arrival instant
  plus the delay;
- the filter's timer belongs to its time manager.

This invariant is the model's form of the two properties the filter's tests check:
chunks come out in order, and each is delayed (vnet/delay_filter_test.go:59-62, 107-108).
The tests run on the wall clock and assert a delay strictly greater than the delay
setting. The model proves a delay of at least the setting, which is what `onTick`'s
"deadline before or equal to now" test gives (vnet/delay_filter.go:93). Under virtual
time the filter forwards exactly at the deadline: `Scenarios.DelayFilterSharingTimer`
forwards a chunk received at 1s with a 10ms delay at exactly 1.01s.

## Left out

- Goroutines, channels, `sync.Cond` and real mutual exclusion are not modelled.
  - A wait becomes a precondition or a "would block" result.
  - A delivery plus its `Done` acknowledgement is one synchronous append to a log.
    In Go a ticker re-arms only after `<-tick.done` (vtime/ticker.go:34-35), so events a
    receiver pushes before acknowledging get lower ids than the re-arm. In the model the
    re-arm is pushed first, and since tied events are pulled by heap shape, this can
    change which of two tied events fires first.
  - `FreezeNow`'s unlock goroutine is the explicit call `FreezeDone`.
- `Start`, `After` and the timers' and tickers' `C()` accessors are left out: they only
  start a goroutine or expose a channel.
- The `timeStopped` flag is left out: it is written and never read.
- `DelayFilter.Run`'s `for`/`select` loop is left out as a loop.
  - Its set-up is modelled, in `Run` and `RunSharingTimer`.
  - Each loop iteration is a client's `Step` that delivers a tick of the listened-to
    timer, followed by `OnTick`, as the scenarios do it.
  - Its `ctx.Done()` cancellation and the `fmt.Println` debug output are left out.
- VNet.DelayFilter.OnTick: the instant a chunk is forwarded is recorded as the tick's
  instant.
- The `NIC` and `chunkQueue` types are not part of this model.
  - The queue is a FIFO sequence of `(chunk, deadline)` pairs.
  - Forwarding to the next NIC is an append to the log `forwarded`.
  - A chunk is reduced to its payload.
- The token bucket filter and the wall-clock backend `xtime/stdtime.go` are not part of
  this model.
- `NewTimer` is called with one argument by the filter and the timer tests but declared
  with two. It is modelled with the declared signature `(d, blocking)`:
  - the filter's timers are non-blocking;
  - the timer tests' timers are blocking.
- 64-bit overflow of `time.Duration` and `time.Time` is not modelled: times are
  unbounded integers.
- Scenarios.SynchronizedTickers: it requires a positive period. With a zero period every
  tick is at one instant and the ordering argument does not apply.

## Findings

| source | as written | input that shows it | evidently intended | confidence | as-written member | corrected member |
|---|---|---|---|---|---|---|
| vtime/timer.go:40-46 | `Stop` clears `expiresAt` before testing it, so it always reports "was not set" | Stop on a timer armed by NewTimer(1s) returns false (Scenarios.StopOfArmedTimer) | report whether the timer was armed before it was cleared | high, not executed | VTime.Timer.Stop | VTime.Timer.StopReportingArmed |
| vnet/delay_filter.go:72-79, 53-65 | `Run` listens on a local timer from `NewTimer(0)`, while `onInboundChunk` arms the filter's field `timer`, which nobody receives from. With the non-blocking timers of this model, the tick at the deadline is dropped and the chunk waits for the one-minute fallback. A chunk arriving after a missed deadline makes `Reset` get a negative duration, and it panics | a chunk at 1s with delay 10ms is forwarded at 61s (Scenarios.DelayFilterAsWritten); a second chunk at 1.02s panics with the read lock held (Scenarios.LateChunkPanics) | the loop listens on the timer that `onInboundChunk` arms, as in `RunSharingTimer`, and the chunk is forwarded at 1.01s (Scenarios.DelayFilterSharingTimer) | high that nobody listens on the armed timer; medium for the outcome, which rests on the filter's timers being non-blocking: a blocking timer would instead wait at 1.01s for a receiver that never comes (vtime/timer.go:72-77); not executed | VNet.DelayFilter.Run | VNet.DelayFilter.RunSharingTimer |

/**
 The discrete-event virtual clock: a simulator owning an event queue and a virtual
 "now", advanced only by its event loop, and the clients that schedule on it: one-shot
 timers, self-re-arming tickers and Sleep.  Times and durations are nanoseconds, 0 is
 the zero instant.  Each callback the clients push is represented by the object it
 captures (Action); delivering a tick on a channel and receiving its acknowledgement is
 one synchronous append to the simulator's log of delivered ticks.
 */
module VTime {
  import opened EventQueue
  import opened RecursiveLock

  const Second: int := 1_000_000_000

  const NegativeTimerDuration: string := "duration must be non negative"
  const NegativeTickerDuration: string := "ticker duration must not be negative"

  /** The callbacks the simulator runs: a timer's expiry check, a ticker's tick, a sleeper's wake-up. */
  datatype Action =
    | TimerFire(timer: Timer)
    | TickerFire(ticker: Ticker, period: int)
    | SleepWake(sleeper: nat)

  /** The channel a tick is delivered on. */
  datatype Source = FromTimer(timer: Timer) | FromTicker(ticker: Ticker) | FromSleep(sleeper: nat)

  /** A tick delivered on a channel and acknowledged: where, and the virtual instant it carries. */
  datatype Tick = Tick(source: Source, time: int)

  /** A call that returns normally, or one that panics with the source's message. */
  datatype Outcome<T> = Returned(value: T) | Panicked(message: string)

  /** One event-loop iteration: it ran an event (and said whether that emitted a tick), or Pull reported stopped, or Pull would wait. */
  datatype StepResult = Ran(event: Element<Action>, emitted: bool) | Halted | Idle

  /** Why a bounded run of the event loop ended. */
  datatype LoopExit = StoppedLoop | WaitingForEvents | BudgetSpent

  function SourceOf(a: Action): Source {
    match a
    case TimerFire(t) => FromTimer(t)
    case TickerFire(k, _) => FromTicker(k)
    case SleepWake(id) => FromSleep(id)
  }

  /** e is an event of ticker k. */
  predicate OfTicker(e: Element<Action>, k: Ticker) {
    e.action.TickerFire? && e.action.ticker == k
  }

  /** Two events of the same ticker. */
  predicate SameTicker(e1: Element<Action>, e2: Element<Action>) {
    e1.action.TickerFire? && OfTicker(e2, e1.action.ticker)
  }

  /** An event the queue of `sim` may hold: a timer event of a timer of `sim`, a ticker event with a non-negative period. */
  predicate Admissible(e: Element<Action>, sim: Simulator) {
    && (e.action.TimerFire? ==> e.action.timer.sim == sim)
    && (e.action.TickerFire? ==> e.action.period >= 0)
  }

  /** No queued event belongs to ticker k. */
  ghost predicate NoEventOf(m: multiset<Element<Action>>, k: Ticker) {
    forall x {:trigger OfTicker(x, k)} :: x in m ==> !OfTicker(x, k)
  }

  /** No two queued events belong to the same ticker. */
  ghost predicate OnePendingPerTicker(m: multiset<Element<Action>>) {
    forall e1, e2 {:trigger SameTicker(e1, e2)} :: e1 in m && e2 in m && SameTicker(e1, e2) ==> e1 == e2
  }

  /** The queued events m are admissible for `sim`, and each ticker has at most one of them. */
  ghost predicate Scheduled(m: multiset<Element<Action>>, sim: Simulator) {
    && (forall e {:trigger Admissible(e, sim)} :: e in m ==> Admissible(e, sim))
    && OnePendingPerTicker(m)
  }

  /** What an event must satisfy to join the queued events m of `sim`. */
  ghost predicate Fits(e: Element<Action>, m: multiset<Element<Action>>, sim: Simulator) {
    && Admissible(e, sim)
    && (e.action.TickerFire? ==> NoEventOf(m, e.action.ticker))
  }

  lemma ScheduledAdd(m: multiset<Element<Action>>, e: Element<Action>, sim: Simulator)
    requires Scheduled(m, sim) && Fits(e, m, sim)
    ensures Scheduled(m + multiset{e}, sim)
  {
    var m' := m + multiset{e};
    forall x | x in m'
      ensures Admissible(x, sim)
    {
      if x != e {
        assert x in m;
      }
    }
    if e.action.TickerFire? {
      forall x | x in m
        ensures !OfTicker(x, e.action.ticker)
      {
      }
    }
    forall e1, e2 | e1 in m' && e2 in m' && SameTicker(e1, e2)
      ensures e1 == e2
    {
      if e1 != e && e2 != e {
        assert e1 in m && e2 in m;
      }
    }
  }

  /**
   Removing a once-queued event keeps the queue scheduled, and leaves no event of its
   ticker, so the ticker may re-arm.
   */
  lemma ScheduledRemove(m: multiset<Element<Action>>, e: Element<Action>, sim: Simulator)
    requires Scheduled(m, sim) && e in m && m[e] == 1
    ensures Admissible(e, sim)
    ensures Scheduled(m - multiset{e}, sim)
    ensures e.action.TickerFire? ==> NoEventOf(m - multiset{e}, e.action.ticker)
  {
    var m' := m - multiset{e};
    assert Admissible(e, sim);
    forall x | x in m'
      ensures Admissible(x, sim)
    {
      assert x in m;
    }
    forall e1, e2 | e1 in m' && e2 in m' && SameTicker(e1, e2)
      ensures e1 == e2
    {
      assert e1 in m && e2 in m;
    }
    if e.action.TickerFire? {
      forall x | x in m'
        ensures !OfTicker(x, e.action.ticker)
      {
        assert x in m && x != e;
        assert SameTicker(e, x) ==> x == e;
      }
    }
  }

  /** The expiry of the timer an event belongs to; 0 for other events. */
  function Expiry(e: Element<Action>): int
    reads if e.action.TimerFire? then {e.action.timer} else {}
  {
    if e.action.TimerFire? then e.action.timer.expiresAt else 0
  }

  /**
   The effect of running event e's callback at its instant: queued events go from
   `before` to `after`, the next id from `id` to `id'`, the delivered ticks from `log` to
   `log'`, and (for a timer event) the timer's expiry from `expiry` to `expiry'`.  A timer
   event is stale unless its timer still expires at e's instant; a live one disarms the
   timer and delivers if the timer blocks or a receiver waits.  A ticker event that
   delivers re-arms the ticker one period later.  A wake-up always delivers.
   */
  ghost predicate Runs(e: Element<Action>, receivers: set<Timer>, emitted: bool,
                       before: multiset<Element<Action>>, after: multiset<Element<Action>>, id: int, id': int,
                       log: seq<Tick>, log': seq<Tick>, expiry: int, expiry': int)
  {
    && log' == log + (if emitted then [Tick(SourceOf(e.action), e.at)] else [])
    && match e.action
       case TimerFire(t) =>
         && emitted == (expiry == e.at && (t.blocking || t in receivers))
         && expiry' == (if expiry == e.at then 0 else expiry)
         && after == before && id' == id
       case TickerFire(_, period) =>
         && after == before + (if emitted then multiset{Element(id, e.at + period, e.action)} else multiset{})
         && id' == id + (if emitted then 1 else 0)
       case SleepWake(_) =>
         emitted && after == before && id' == id
  }

  class Simulator {
    var now: int
    const queue: Queue<Action>
    const timeLock: RecursiveRWLock
    var delivered: seq<Tick>

    /**
     The queue and lock are consistent, no writer holds the lock outside the event loop,
     every queued timer event belongs to a timer of this simulator, every queued ticker
     event has a non-negative period, and each ticker has at most one queued event.
     */
    ghost predicate Valid()
      reads this, queue, timeLock
    {
      && queue.Valid()
      && timeLock.Valid() && !timeLock.writeHeld
      && Scheduled(multiset(queue.heap), this)
    }

    /** No queued event fires before now. */
    ghost predicate NoPastEvents()
      reads this, queue
    {
      forall e {:trigger NotBefore(e, now)} :: e in multiset(queue.heap) ==> NotBefore(e, now)
    }

    /** The timers that have an event in the queue: the ones the event loop may update. */
    ghost function PendingTimers(): set<Timer>
      reads queue
    {
      set e | e in multiset(queue.heap) && e.action.TimerFire? :: e.action.timer
    }

    /** The timer whose event the next iteration of the event loop runs, if any: no other timer changes. */
    ghost function NextTimer(): set<Timer>
      reads queue
    {
      if !queue.stopped && |queue.heap| > 0 && queue.heap[0].action.TimerFire? then {queue.heap[0].action.timer} else {}
    }

    /** NewSimulator: now is the start instant, the queue is empty and running. */
    constructor (start: int)
      ensures Valid() && NoPastEvents()
      ensures now == start && delivered == []
      ensures fresh(queue) && fresh(timeLock)
      ensures queue.heap == [] && queue.nextID == 0 && !queue.stopped
      ensures timeLock.readers == 0
    {
      now := start;
      queue := new Queue<Action>();
      timeLock := new RecursiveRWLock();
      delivered := [];
    }

    /** Stops the queue: from now on the event loop's Pull reports "stopped". */
    method Stop()
      modifies queue
      ensures queue.stopped
      ensures queue.heap == old(queue.heap) && queue.nextID == old(queue.nextID)
    {
      queue.Stop();
    }

    function Now(): (t: int)
      reads this
      ensures t == now
    {
      now
    }

    /** The duration from tm to now. */
    function Since(tm: int): (d: int)
      reads this
      ensures tm + d == now
    {
      now - tm
    }

    /** The duration from now to tm: the one that, added to now, reaches tm. */
    function Until(tm: int): (d: int)
      reads this
      ensures now + d == tm
    {
      tm - now
    }

    /** Reads now under one more read acquisition, held until FreezeDone. */
    method FreezeNow() returns (t: int)
      requires Valid()
      modifies timeLock
      ensures Valid()
      ensures t == now
      ensures timeLock.readers == old(timeLock.readers) + 1 && timeLock.readHeld
    {
      timeLock.RLock();
      t := now;
    }

    /** The acknowledgement of a frozen tick: releases the read acquisition FreezeNow took. */
    method FreezeDone()
      requires Valid() && timeLock.readers > 0
      modifies timeLock
      ensures Valid()
      ensures timeLock.readers == old(timeLock.readers) - 1
    {
      timeLock.RUnlock();
    }

    /** Queues an event that fits the invariant, for instant `at`. */
    method Schedule(at: int, action: Action)
      requires Valid()
      requires Fits(Element(queue.nextID, at, action), multiset(queue.heap), this)
      modifies queue
      ensures Valid()
      ensures multiset(queue.heap) == old(multiset(queue.heap)) + multiset{Element(old(queue.nextID), at, action)}
      ensures queue.nextID == old(queue.nextID) + 1 && queue.stopped == old(queue.stopped)
      ensures old(NoPastEvents()) && now <= at ==> NoPastEvents()
    {
      ScheduledAdd(multiset(queue.heap), Element(queue.nextID, at, action), this);
      queue.Push(at, action);
    }

    /**
     Schedules the wake-up of `sleeper` at now + d; the instant Sleep returns is the one
     its wake-up tick carries when the event loop runs it.
     */
    method Sleep(d: int, sleeper: nat)
      requires Valid()
      modifies queue, timeLock
      ensures Valid()
      ensures timeLock.readers == old(timeLock.readers)
      ensures multiset(queue.heap) == old(multiset(queue.heap)) + multiset{Element(old(queue.nextID), now + d, SleepWake(sleeper))}
      ensures queue.nextID == old(queue.nextID) + 1 && queue.stopped == old(queue.stopped)
      ensures old(NoPastEvents()) && d >= 0 ==> NoPastEvents()
    {
      var at := now + d;
      timeLock.RLock();
      Schedule(at, SleepWake(sleeper));
      timeLock.RUnlock();
      assert at == now + d;
    }

    /** A ticker whose first tick is due at now + d and which re-arms every d; a negative d panics. */
    method NewTicker(d: int) returns (r: Outcome<Ticker>)
      requires Valid()
      modifies queue, timeLock
      ensures Valid()
      ensures timeLock.readers == old(timeLock.readers)
      ensures queue.stopped == old(queue.stopped)
      ensures d < 0 ==> r == Panicked(NegativeTickerDuration) && queue.heap == old(queue.heap) && queue.nextID == old(queue.nextID)
      ensures d >= 0 ==>
        && r.Returned? && fresh(r.value) && !r.value.stopped
        && multiset(queue.heap) == old(multiset(queue.heap)) + multiset{Element(old(queue.nextID), now + d, TickerFire(r.value, d))}
        && queue.nextID == old(queue.nextID) + 1
      ensures old(NoPastEvents()) ==> NoPastEvents()
    {
      if d < 0 {
        return Panicked(NegativeTickerDuration);
      }
      var k := new Ticker();
      var at := now + d;
      timeLock.RLock();
      forall x | x in multiset(queue.heap)
        ensures !OfTicker(x, k)
      {
        assert x in queue.heap;
      }
      Schedule(at, TickerFire(k, d));
      timeLock.RUnlock();
      assert at == now + d;
      r := Returned(k);
    }

    /** A timer in the given delivery mode, armed by Reset(d); a negative d panics. */
    method NewTimer(d: int, blocking: bool) returns (r: Outcome<Timer>)
      requires Valid()
      modifies queue, timeLock
      ensures Valid()
      ensures timeLock.readers == old(timeLock.readers)
      ensures queue.stopped == old(queue.stopped)
      ensures d < 0 ==> r == Panicked(NegativeTimerDuration) && queue.heap == old(queue.heap) && queue.nextID == old(queue.nextID)
      ensures d >= 0 ==>
        && r.Returned? && fresh(r.value) && r.value.sim == this && r.value.blocking == blocking
        && r.value.expiresAt == now + d
        && multiset(queue.heap) == old(multiset(queue.heap)) + multiset{Element(old(queue.nextID), now + d, TimerFire(r.value))}
        && queue.nextID == old(queue.nextID) + 1
      ensures old(NoPastEvents()) ==> NoPastEvents()
    {
      var t := new Timer(this, blocking);
      var reset := t.Reset(d);
      if reset.Panicked? {
        return Panicked(reset.message);
      }
      r := Returned(t);
    }

    /** The event loop's Pull, keeping the invariant; a pulled event's ticker has no other queued event. */
    method Next() returns (r: PullResult<Action>)
      requires Valid()
      modifies queue
      ensures Valid()
      ensures queue.nextID == old(queue.nextID) && queue.stopped == old(queue.stopped)
      ensures r.Stopped? <==> old(queue.stopped)
      ensures r.WouldBlock? <==> !old(queue.stopped) && old(queue.heap) == []
      ensures !r.Pulled? ==> queue.heap == old(queue.heap)
      ensures r.Pulled? ==> r.event == old(queue.heap)[0]
      ensures r.Pulled? ==>
        && IsEarliest(r.event, old(multiset(queue.heap)))
        && multiset(queue.heap) == old(multiset(queue.heap)) - multiset{r.event}
        && Admissible(r.event, this)
        && (r.event.action.TickerFire? ==> NoEventOf(multiset(queue.heap), r.event.action.ticker))
    {
      ghost var m0 := multiset(queue.heap);
      r := queue.Pull();
      if r.Pulled? {
        assert r.event in m0 && Once(m0, r.event);
        ScheduledRemove(m0, r.event, this);
      }
    }

    /** The event loop's update of now, under the write lock. */
    method Advance(at: int)
      requires Valid() && timeLock.readers == 0
      modifies this, timeLock
      ensures Valid() && timeLock.readers == 0
      ensures now == at && delivered == old(delivered)
    {
      timeLock.Lock();
      now := at;
      timeLock.Unlock();
    }

    /**
     A timer's expiry callback: stale unless the timer still expires now; otherwise the
     timer is disarmed and its tick delivered, on a non-blocking timer only when a
     receiver waits.
     */
    method FireTimer(t: Timer, receivers: set<Timer>) returns (emitted: bool)
      requires Valid() && t.sim == this
      modifies this, t
      ensures Valid() && now == old(now)
      ensures emitted == (old(t.expiresAt) == now && (t.blocking || t in receivers))
      ensures t.expiresAt == (if old(t.expiresAt) == now then 0 else old(t.expiresAt))
      ensures delivered == old(delivered) + (if emitted then [Tick(FromTimer(t), now)] else [])
    {
      if t.expiresAt != t.sim.now {
        return false;
      }
      t.expiresAt := 0;
      emitted := t.blocking || t in receivers;
      if emitted {
        delivered := delivered + [Tick(FromTimer(t), t.sim.now)];
      }
    }

    /** A ticker's callback: nothing once stopped; otherwise it delivers a tick and re-arms one period later. */
    method FireTicker(k: Ticker, period: int) returns (emitted: bool)
      requires Valid() && period >= 0 && NoEventOf(multiset(queue.heap), k)
      modifies this, queue
      ensures Valid() && now == old(now) && queue.stopped == old(queue.stopped)
      ensures emitted == !k.stopped
      ensures delivered == old(delivered) + (if emitted then [Tick(FromTicker(k), now)] else [])
      ensures multiset(queue.heap) == old(multiset(queue.heap))
        + (if emitted then multiset{Element(old(queue.nextID), now + period, TickerFire(k, period))} else multiset{})
      ensures queue.nextID == old(queue.nextID) + (if emitted then 1 else 0)
      ensures old(NoPastEvents()) ==> NoPastEvents()
    {
      if k.stopped {
        return false;
      }
      var at := now + period;
      delivered := delivered + [Tick(FromTicker(k), now)];
      Schedule(at, TickerFire(k, period));
      assert at == now + period;
      emitted := true;
    }

    /**
     Runs a pulled event: now becomes its instant, then its callback runs.  No queued event
     is earlier than it.
     */
    method RunEvent(e: Element<Action>, receivers: set<Timer>) returns (emitted: bool)
      requires Valid() && timeLock.readers == 0
      requires Admissible(e, this)
      requires e.action.TickerFire? ==> NoEventOf(multiset(queue.heap), e.action.ticker)
      requires forall x {:trigger NotBefore(x, e.at)} :: x in multiset(queue.heap) ==> NotBefore(x, e.at)
      modifies this, queue, timeLock, if e.action.TimerFire? then {e.action.timer} else {}
      ensures Valid() && timeLock.readers == 0
      ensures now == e.at && NoPastEvents() && queue.stopped == old(queue.stopped)
      ensures Runs(e, receivers, emitted, old(multiset(queue.heap)), multiset(queue.heap), old(queue.nextID), queue.nextID,
                   old(delivered), delivered, old(Expiry(e)), Expiry(e))
      ensures e.action.TickerFire? ==> emitted == !e.action.ticker.stopped
    {
      Advance(e.at);
      match e.action {
        case TimerFire(t) =>
          emitted := FireTimer(t, receivers);
        case TickerFire(k, period) =>
          emitted := FireTicker(k, period);
        case SleepWake(id) =>
          delivered := delivered + [Tick(FromSleep(id), now)];
          emitted := true;
      }
    }

    /**
     One event-loop iteration: pull the earliest event, set now to its instant under the
     write lock, then run its callback.  Pull comes first, so a stopped or empty queue ends the
     iteration whatever the readers; otherwise the loop's wait at Lock for readers to leave is
     the precondition that no read acquisition is outstanding.  A non-blocking timer delivers
     only when its receiver is waiting (it is in `receivers`).
     */
    method Step(receivers: set<Timer>) returns (r: StepResult)
      requires Valid() && (timeLock.readers == 0 || queue.stopped || queue.heap == [])
      modifies this, queue, timeLock, NextTimer()
      ensures Valid() && timeLock.readers == old(timeLock.readers)
      ensures queue.stopped == old(queue.stopped)
      ensures r.Halted? <==> old(queue.stopped)
      ensures r.Idle? <==> !old(queue.stopped) && old(queue.heap) == []
      ensures !r.Ran? ==>
        now == old(now) && delivered == old(delivered) && queue.heap == old(queue.heap) && queue.nextID == old(queue.nextID)
      ensures r.Ran? ==> IsEarliest(r.event, old(multiset(queue.heap))) && now == r.event.at
      ensures r.Ran? ==>
        Runs(r.event, receivers, r.emitted, old(multiset(queue.heap)) - multiset{r.event}, multiset(queue.heap),
             old(queue.nextID), queue.nextID, old(delivered), delivered, old(Expiry(r.event)), Expiry(r.event))
      ensures r.Ran? && r.event.action.TickerFire? ==> r.emitted == !r.event.action.ticker.stopped
      ensures PendingTimers() <= old(PendingTimers())
      ensures old(NoPastEvents()) ==> old(now) <= now && NoPastEvents()
    {
      var pulled := Next();
      if pulled.Stopped? {
        return Halted;
      }
      if pulled.WouldBlock? {
        return Idle;
      }
      var e := pulled.event;
      assert e in old(multiset(queue.heap));
      assert old(NoPastEvents()) ==> NotBefore(e, old(now));
      var emitted := RunEvent(e, receivers);
      r := Ran(e, emitted);
    }

    /**
     The event loop, run for at most `budget` iterations: it returns once Pull reports
     stopped, and pauses where Pull would wait for an event.
     */
    method EventLoop(budget: nat, receivers: set<Timer>) returns (steps: nat, exit: LoopExit)
      requires Valid() && (timeLock.readers == 0 || queue.stopped || queue.heap == [])
      modifies this, queue, timeLock, PendingTimers()
      ensures Valid() && timeLock.readers == old(timeLock.readers)
      ensures steps <= budget
      ensures exit == StoppedLoop ==> queue.stopped
      ensures exit == WaitingForEvents ==> !queue.stopped && queue.heap == []
      ensures exit == BudgetSpent ==> steps == budget
      ensures old(queue.stopped) && budget > 0 ==> exit == StoppedLoop && steps == 0
      ensures old(queue.stopped) ==> queue.heap == old(queue.heap) && now == old(now) && delivered == old(delivered)
      ensures old(NoPastEvents()) ==> old(now) <= now && NoPastEvents()
    {
      steps := 0;
      while steps < budget
        invariant Valid() && timeLock.readers == old(timeLock.readers)
        invariant old(timeLock.readers) != 0 ==> steps == 0 && queue.heap == old(queue.heap)
        invariant steps <= budget
        invariant queue.stopped == old(queue.stopped)
        invariant old(queue.stopped) ==> steps == 0 && queue.heap == old(queue.heap) && now == old(now) && delivered == old(delivered)
        invariant PendingTimers() <= old(PendingTimers())
        invariant old(NoPastEvents()) ==> old(now) <= now && NoPastEvents()
      {
        if |queue.heap| > 0 {
          assert queue.heap[0] in multiset(queue.heap);
        }
        var r := Step(receivers);
        if r.Halted? {
          return steps, StoppedLoop;
        }
        if r.Idle? {
          return steps, WaitingForEvents;
        }
        steps := steps + 1;
      }
      exit := BudgetSpent;
    }
  }

  /** A one-shot timer: the instant it expires at (0 when unarmed), its simulator, its delivery mode. */
  class Timer {
    var expiresAt: int
    const sim: Simulator
    const blocking: bool

    constructor (sim: Simulator, blocking: bool)
      ensures this.sim == sim && this.blocking == blocking && expiresAt == 0
    {
      this.sim := sim;
      this.blocking := blocking;
      expiresAt := 0;
    }

    /** Disarms the timer; as written it reports whether it was armed only after clearing, so always false. */
    method Stop() returns (wasSet: bool)
      modifies this
      ensures expiresAt == 0
      ensures !wasSet
    {
      expiresAt := 0;
      wasSet := expiresAt != 0;
    }

    /** Stop as evidently intended: disarms the timer and reports whether it was armed. */
    method StopReportingArmed() returns (wasSet: bool)
      modifies this
      ensures expiresAt == 0
      ensures wasSet == (old(expiresAt) != 0)
    {
      wasSet := expiresAt != 0;
      expiresAt := 0;
    }

    /**
     Re-arms the timer for now + d and queues one expiry event for that instant, which
     supersedes every event queued for an earlier arming; reports whether the new expiry
     is strictly later than the old one.  A negative d panics and changes nothing.
     */
    method Reset(d: int) returns (r: Outcome<bool>)
      requires sim.Valid()
      modifies this, sim.queue, sim.timeLock
      ensures sim.Valid()
      ensures sim.timeLock.readers == old(sim.timeLock.readers) && sim.timeLock.readHeld == old(sim.timeLock.readHeld)
      ensures sim.queue.stopped == old(sim.queue.stopped)
      ensures d < 0 ==>
        && r == Panicked(NegativeTimerDuration)
        && expiresAt == old(expiresAt)
        && sim.queue.heap == old(sim.queue.heap) && sim.queue.nextID == old(sim.queue.nextID)
      ensures d >= 0 ==>
        && r == Returned(old(expiresAt) < expiresAt)
        && expiresAt == sim.now + d
        && multiset(sim.queue.heap) == old(multiset(sim.queue.heap)) + multiset{Element(old(sim.queue.nextID), expiresAt, TimerFire(this))}
        && sim.queue.nextID == old(sim.queue.nextID) + 1
      ensures old(sim.NoPastEvents()) ==> sim.NoPastEvents()
    {
      if d < 0 {
        return Panicked(NegativeTimerDuration);
      }
      sim.timeLock.RLock();
      var newExpiresAt := sim.now + d;
      var wasReset := expiresAt < newExpiresAt;
      expiresAt := sim.now + d;
      sim.timeLock.RUnlock();
      sim.Schedule(newExpiresAt, TimerFire(this));
      r := Returned(wasReset);
    }
  }

  /** A repeating ticker: only its stopped flag is state; the period travels with its queued event. */
  class Ticker {
    var stopped: bool

    constructor ()
      ensures !stopped
    {
      stopped := false;
    }

    /** Stops the ticker: its pending event, when it runs, emits nothing and does not re-arm. */
    method Stop()
      modifies this
      ensures stopped
    {
      stopped := true;
    }
  }
}

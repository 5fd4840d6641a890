/**
 Concrete runs of the virtual clock and the delay filter, each stated as the exact
 outcome its contract promises: the orders, instants and results the clock's
 behaviour pins down.
 */
module Scenarios {
  import opened EventQueue
  import opened VTime
  import opened VNet

  /**
   Three events pushed for the same instant come out with ids 0, 2, 1: the heap
   compares instants only, so ties are not served in push order.
   */
  method TiesAreNotFifo() returns (ids: seq<int>)
    ensures ids == [0, 2, 1]
  {
    var q := new Queue<char>();
    var a, b, c := Element(0, 7, 'a'), Element(1, 7, 'b'), Element(2, 7, 'c');
    TiePushes(a, b, c);
    TieFirstPop(a, b, c);
    TieSecondPop(b, c);
    q.Push(7, 'a');
    assert q.heap == [a];
    q.Push(7, 'b');
    assert q.heap == [a, b];
    q.Push(7, 'c');
    assert q.heap == [a, b, c];
    var r1 := q.Pull();
    assert r1 == Pulled(a) && q.heap == [c, b];
    var r2 := q.Pull();
    assert r2 == Pulled(c) && q.heap == [b];
    var r3 := q.Pull();
    assert r3 == Pulled(b);
    ids := [r1.event.id, r2.event.id, r3.event.id];
  }

  /** The heap states of three pushes for one instant: each new slot stays where it is appended. */
  lemma TiePushes<A>(e0: Element<A>, e1: Element<A>, e2: Element<A>)
    requires e0.at == e1.at == e2.at
    ensures Pushed([], e0) == [e0]
    ensures Pushed([e0], e1) == [e0, e1]
    ensures Pushed([e0, e1], e2) == [e0, e1, e2]
  {
    assert SiftUp([e0, e1], 1) == [e0, e1];
    assert SiftUp([e0, e1, e2], 2) == [e0, e1, e2];
  }

  /** The first pop: the last slot, swapped to the root, is not later than its child and stays. */
  lemma TieFirstPop<A>(e0: Element<A>, e1: Element<A>, e2: Element<A>)
    requires e0.at == e1.at == e2.at
    ensures Popped([e0, e1, e2]) == [e2, e1]
  {
    var h := Swap([e0, e1, e2], 0, 2);
    assert h == [e2, e1, e0];
    assert SmallerChild(h, 0, 2) == 1;
    assert SiftDown(h, 0, 2) == h;
  }

  /** The second pop: one slot is left, already in place. */
  lemma TieSecondPop<A>(e1: Element<A>, e2: Element<A>)
    ensures Popped([e2, e1]) == [e1]
  {
    var h := Swap([e2, e1], 0, 1);
    assert h == [e1, e2];
    assert SiftDown(h, 0, 1) == h;
  }

  /** Once stopped, Pull reports "stopped" though an event is queued, and Push still inserts. */
  method PullAfterStop() returns (r: PullResult<char>, queued: nat)
    ensures r == Stopped && queued == 2
  {
    var q := new Queue<char>();
    q.Push(1, 'a');
    q.Stop();
    q.Push(2, 'b');
    r := q.Pull();
    queued := q.Len();
  }

  /** The earliest event of a one-event queue is that event. */
  lemma EarliestOfOne<A>(e: Element<A>, a: Element<A>)
    requires IsEarliest(e, multiset{a})
    ensures e == a
  {
  }

  /**
   Sleep on a clock with nothing else queued: the wake-up is the only event, so one
   event-loop iteration runs it, and Sleep returns the instant it carries, now + d.
   */
  method SleepAlone(sim: Simulator, d: int, sleeper: nat) returns (woke: int)
    requires sim.Valid() && sim.timeLock.readers == 0 && sim.queue.heap == [] && !sim.queue.stopped
    modifies sim, sim.queue, sim.timeLock
    ensures sim.Valid() && sim.timeLock.readers == 0 && sim.queue.heap == [] && !sim.queue.stopped
    ensures woke == old(sim.now) + d && sim.now == woke
    ensures sim.delivered == old(sim.delivered) + [Tick(FromSleep(sleeper), woke)]
  {
    var at := sim.now + d;
    sim.Sleep(d, sleeper);
    ghost var e := Element(sim.queue.nextID - 1, at, SleepWake(sleeper));
    assert multiset(sim.queue.heap) == multiset{e};
    assert sim.queue.heap[0] in multiset(sim.queue.heap);
    var r := sim.Step({});
    EarliestOfOne(r.event, e);
    assert multiset(sim.queue.heap) == multiset{};
    woke := sim.now;
  }

  /** From the zero instant, sleeping 1s, then 2s, then 3s wakes at 1s, 3s and 6s. */
  method SequentialSleeps() returns (wakes: seq<int>)
    ensures wakes == [Second, 3 * Second, 6 * Second]
  {
    var sim := new Simulator(0);
    var w1 := SleepAlone(sim, Second, 0);
    var w2 := SleepAlone(sim, 2 * Second, 0);
    var w3 := SleepAlone(sim, 3 * Second, 0);
    wakes := [w1, w2, w3];
  }

  /** Sleep accepts a negative duration, and the event loop then moves now backwards. */
  method NegativeSleep(start: int) returns (woke: int)
    ensures woke == start - Second && woke < start
  {
    var sim := new Simulator(start);
    woke := SleepAlone(sim, -Second, 0);
  }

  /**
   Stop on an armed timer disarms it in both versions; as written it reports false,
   as intended it reports that the timer was armed.
   */
  method StopOfArmedTimer() returns (armed: bool, asWritten: bool, intended: bool)
    ensures armed && !asWritten && intended
  {
    var sim := new Simulator(0);
    var created := sim.NewTimer(Second, true);
    var t := created.value;
    armed := t.expiresAt != 0;
    asWritten := t.Stop();
    var _ := t.Reset(Second);
    intended := t.StopReportingArmed();
  }

  /**
   Blocking timers of 1s and 2s from the zero instant.  At the first tick (1s) the second
   is reset to 4s: its 2s event is then stale and it fires at 5s; there the first is reset
   to 10s, and fires at 15s.
   */
  method TimerResets() returns (times: seq<int>, fromSecond: seq<bool>)
    ensures times == [Second, 5 * Second, 15 * Second]
    ensures fromSecond == [false, true, false]
  {
    var sim, t1, t2 := ArmTwoTimers();
    FirstTickResetsSecond(sim, t1, t2);
    SecondTickResetsFirst(sim, t1, t2);
    var log := sim.delivered;
    times := [log[0].time, log[1].time, log[2].time];
    fromSecond := [log[0].source == FromTimer(t2), log[1].source == FromTimer(t2), log[2].source == FromTimer(t2)];
  }

  /** sim is valid, unlocked and running, queues exactly m, will stamp id next, is at instant now and has delivered log. */
  ghost predicate At(sim: Simulator, m: multiset<Element<Action>>, id: int, now: int, log: seq<Tick>)
    reads sim, sim.queue, sim.timeLock
  {
    && sim.Valid() && sim.timeLock.readers == 0 && !sim.queue.stopped
    && multiset(sim.queue.heap) == m && sim.queue.nextID == id && sim.now == now && sim.delivered == log
  }

  /** A fresh clock at the zero instant with blocking timers t1 of 1s and t2 of 2s. */
  method ArmTwoTimers() returns (sim: Simulator, t1: Timer, t2: Timer)
    ensures fresh(sim) && fresh(sim.queue) && fresh(sim.timeLock) && fresh(t1) && fresh(t2) && t1 != t2
    ensures t1.sim == sim && t2.sim == sim && t1.blocking && t2.blocking
    ensures t1.expiresAt == Second && t2.expiresAt == 2 * Second
    ensures At(sim, multiset{Element(0, Second, TimerFire(t1)), Element(1, 2 * Second, TimerFire(t2))}, 2, 0, [])
  {
    sim := new Simulator(0);
    var c1 := sim.NewTimer(Second, true);
    t1 := c1.value;
    var c2 := sim.NewTimer(2 * Second, true);
    t2 := c2.value;
  }

  /** The 1s event delivers t1's tick; then t2 is reset to 4s from then, queueing its 5s event. */
  method FirstTickResetsSecond(sim: Simulator, t1: Timer, t2: Timer)
    requires t1 != t2 && t1.sim == sim && t2.sim == sim && t1.blocking && t2.blocking
    requires t1.expiresAt == Second && t2.expiresAt == 2 * Second
    requires At(sim, multiset{Element(0, Second, TimerFire(t1)), Element(1, 2 * Second, TimerFire(t2))}, 2, 0, [])
    modifies sim, sim.queue, sim.timeLock, t1, t2
    ensures t1.expiresAt == 0 && t2.expiresAt == 5 * Second
    ensures At(sim, multiset{Element(1, 2 * Second, TimerFire(t2)), Element(2, 5 * Second, TimerFire(t2))}, 3, Second,
               [Tick(FromTimer(t1), Second)])
  {
    ghost var a := Element(0, Second, TimerFire(t1));
    ghost var b := Element(1, 2 * Second, TimerFire(t2));
    assert multiset(sim.queue.heap) == multiset{b} + multiset{a};
    var _ := StepKnown(sim, {}, a, multiset{b});
    var _ := t2.Reset(4 * Second);
  }

  /**
   The stale 2s event delivers nothing, the 5s one delivers t2's tick; then t1 is reset to
   10s from then, and its 15s event delivers.
   */
  method SecondTickResetsFirst(sim: Simulator, t1: Timer, t2: Timer)
    requires t1 != t2 && t1.sim == sim && t2.sim == sim && t1.blocking && t2.blocking
    requires t1.expiresAt == 0 && t2.expiresAt == 5 * Second
    requires At(sim, multiset{Element(1, 2 * Second, TimerFire(t2)), Element(2, 5 * Second, TimerFire(t2))}, 3, Second,
                [Tick(FromTimer(t1), Second)])
    modifies sim, sim.queue, sim.timeLock, t1, t2
    ensures sim.delivered == [Tick(FromTimer(t1), Second), Tick(FromTimer(t2), 5 * Second), Tick(FromTimer(t1), 15 * Second)]
  {
    ghost var b := Element(1, 2 * Second, TimerFire(t2));
    ghost var b' := Element(2, 5 * Second, TimerFire(t2));
    assert multiset(sim.queue.heap) == multiset{b'} + multiset{b};
    var _ := StepKnown(sim, {}, b, multiset{b'});
    assert multiset(sim.queue.heap) == multiset{} + multiset{b'};
    var _ := StepKnown(sim, {}, b', multiset{});
    assert sim.delivered == [Tick(FromTimer(t1), Second), Tick(FromTimer(t2), 5 * Second)];
    var _ := t1.Reset(10 * Second);
    ghost var a' := Element(3, 15 * Second, TimerFire(t1));
    assert multiset(sim.queue.heap) == multiset{} + multiset{a'};
    var _ := StepKnown(sim, {}, a', multiset{});
  }

  /** x is due strictly after e. */
  predicate Later(x: Element<Action>, e: Element<Action>) {
    e.at < x.at
  }

  /** An event of rest + {e}, with rest strictly later than e, that is not later than e, is e. */
  lemma OnlyStrictEarliest(e: Element<Action>, rest: multiset<Element<Action>>, x: Element<Action>)
    requires x in rest + multiset{e} && x.at <= e.at
    requires forall y {:trigger Later(y, e)} :: y in rest ==> Later(y, e)
    ensures x == e
  {
    assert x in rest ==> Later(x, e);
  }

  /**
   One event-loop iteration on a queue holding e and the events of `rest`, all strictly
   later than e: it runs e.
   */
  method StepKnown(sim: Simulator, receivers: set<Timer>, ghost e: Element<Action>, ghost rest: multiset<Element<Action>>)
    returns (emitted: bool)
    requires sim.Valid() && sim.timeLock.readers == 0 && !sim.queue.stopped
    requires multiset(sim.queue.heap) == rest + multiset{e}
    requires forall x {:trigger Later(x, e)} :: x in rest ==> Later(x, e)
    modifies sim, sim.queue, sim.timeLock, if e.action.TimerFire? then {e.action.timer} else {}
    ensures sim.Valid() && sim.timeLock.readers == 0 && !sim.queue.stopped
    ensures sim.now == e.at
    ensures Runs(e, receivers, emitted, rest, multiset(sim.queue.heap), old(sim.queue.nextID), sim.queue.nextID,
                 old(sim.delivered), sim.delivered, old(Expiry(e)), Expiry(e))
    ensures e.action.TickerFire? ==> emitted == !e.action.ticker.stopped
  {
    assert e in multiset(sim.queue.heap);
    assert multiset(sim.queue.heap) - multiset{e} == rest;
    RootIsEarliest(sim.queue.heap);
    assert NotBefore(e, sim.queue.heap[0].at);
    OnlyStrictEarliest(e, rest, sim.queue.heap[0]);
    var r := sim.Step(receivers);
    assert NotBefore(e, r.event.at);
    OnlyStrictEarliest(e, rest, r.event);
    emitted := r.emitted;
  }

  /**
   A ticker of period P started at t0 delivers its k-th tick at t0 + k * P: each tick
   re-arms one period after the instant it carries, so the instants do not drift.
   */
  method TickerHasNoDrift(start: int, period: int, n: nat) returns (times: seq<int>)
    requires period >= 0
    ensures |times| == n
    ensures forall j :: 0 <= j < n ==> times[j] == start + (j + 1) * period
  {
    var sim := new Simulator(start);
    var created := sim.NewTicker(period);
    var k := created.value;
    ghost var id := 0;
    ghost var due := start + period;
    times := [];
    var i := 0;
    while i < n
      invariant 0 <= i <= n && |times| == i
      invariant forall j :: 0 <= j < i ==> times[j] == start + (j + 1) * period
      invariant due == start + (i + 1) * period
      invariant !k.stopped
      invariant At(sim, multiset{Element(id, due, TickerFire(k, period))}, id + 1, due - period, sim.delivered)
    {
      var tick := NextTick(sim, k, period, id, due);
      times := times + [tick.time];
      NextMultiple(start, i + 1, period);
      id, due := id + 1, due + period;
      i := i + 1;
    }
  }

  /** One event-loop iteration on a queue holding only a running ticker's event: the tick it delivers. */
  method NextTick(sim: Simulator, k: Ticker, period: int, ghost id: int, ghost due: int) returns (tick: Tick)
    requires !k.stopped && period >= 0
    requires At(sim, multiset{Element(id, due, TickerFire(k, period))}, id + 1, sim.now, sim.delivered)
    modifies sim, sim.queue, sim.timeLock
    ensures sim.delivered == old(sim.delivered) + [tick] && tick == Tick(FromTicker(k), due)
    ensures At(sim, multiset{Element(id + 1, due + period, TickerFire(k, period))}, id + 2, due, sim.delivered)
  {
    assert multiset(sim.queue.heap) == multiset{} + multiset{Element(id, due, TickerFire(k, period))};
    TickerStep(sim, k, period, id, due, multiset{});
    tick := sim.delivered[|sim.delivered| - 1];
  }

  /**
   One event-loop iteration whose earliest event, strictly, is a running ticker's: it
   delivers the tick, stamped with its instant, and re-arms one period later.
   */
  method TickerStep(sim: Simulator, k: Ticker, period: int, ghost id: int, ghost due: int, ghost rest: multiset<Element<Action>>)
    requires !k.stopped && period >= 0
    requires forall x {:trigger Later(x, Element(id, due, TickerFire(k, period)))} ::
      x in rest ==> Later(x, Element(id, due, TickerFire(k, period)))
    requires At(sim, rest + multiset{Element(id, due, TickerFire(k, period))}, sim.queue.nextID, sim.now, sim.delivered)
    modifies sim, sim.queue, sim.timeLock
    ensures At(sim, rest + multiset{Element(old(sim.queue.nextID), due + period, TickerFire(k, period))}, old(sim.queue.nextID) + 1, due,
               old(sim.delivered) + [Tick(FromTicker(k), due)])
  {
    var _ := StepKnown(sim, {}, Element(id, due, TickerFire(k, period)), rest);
  }

  /**
   Tickers of 3s and 5s from the zero instant: their first five ticks are at 3s (first),
   5s (second), 6s, 9s (first) and 10s (second).
   */
  method UnsynchronizedTickers() returns (times: seq<int>, tickers: seq<int>)
    ensures times == [3 * Second, 5 * Second, 6 * Second, 9 * Second, 10 * Second]
    ensures tickers == [1, 2, 1, 1, 2]
  {
    var sim, k1, k2 := StartTickers(3 * Second, 5 * Second);
    FirstThreeTicks(sim, k1, k2);
    NextTwoTicks(sim, k1, k2);
    var log := sim.delivered;
    times := [log[0].time, log[1].time, log[2].time, log[3].time, log[4].time];
    tickers := [NumberOf(log[0], k1), NumberOf(log[1], k1), NumberOf(log[2], k1), NumberOf(log[3], k1), NumberOf(log[4], k1)];
  }

  /** A fresh clock at the zero instant with running tickers k1 of period p1 and k2 of period p2. */
  method StartTickers(p1: int, p2: int) returns (sim: Simulator, k1: Ticker, k2: Ticker)
    requires p1 >= 0 && p2 >= 0
    ensures fresh(sim) && fresh(sim.queue) && fresh(sim.timeLock) && fresh(k1) && fresh(k2) && k1 != k2
    ensures !k1.stopped && !k2.stopped
    ensures At(sim, multiset{Element(1, p2, TickerFire(k2, p2))} + multiset{Element(0, p1, TickerFire(k1, p1))}, 2, 0, [])
  {
    sim := new Simulator(0);
    var c1 := sim.NewTicker(p1);
    k1 := c1.value;
    var c2 := sim.NewTicker(p2);
    k2 := c2.value;
  }

  /** The 3s/5s tickers' ticks at 3s, 5s and 6s. */
  method FirstThreeTicks(sim: Simulator, k1: Ticker, k2: Ticker)
    requires k1 != k2 && !k1.stopped && !k2.stopped
    requires At(sim, multiset{Element(1, 5 * Second, TickerFire(k2, 5 * Second))} + multiset{Element(0, 3 * Second, TickerFire(k1, 3 * Second))}, 2, 0, [])
    modifies sim, sim.queue, sim.timeLock
    ensures At(sim, multiset{Element(3, 10 * Second, TickerFire(k2, 5 * Second))} + multiset{Element(4, 9 * Second, TickerFire(k1, 3 * Second))}, 5, 6 * Second,
               [Tick(FromTicker(k1), 3 * Second), Tick(FromTicker(k2), 5 * Second), Tick(FromTicker(k1), 6 * Second)])
  {
    var p1, p2 := 3 * Second, 5 * Second;
    ghost var b0 := Element(1, 5 * Second, TickerFire(k2, p2));
    TickerStep(sim, k1, p1, 0, 3 * Second, multiset{b0});
    ghost var a1 := Element(2, 6 * Second, TickerFire(k1, p1));
    assert multiset(sim.queue.heap) == multiset{a1} + multiset{b0};
    TickerStep(sim, k2, p2, 1, 5 * Second, multiset{a1});
    ghost var b1 := Element(3, 10 * Second, TickerFire(k2, p2));
    assert multiset(sim.queue.heap) == multiset{b1} + multiset{a1};
    TickerStep(sim, k1, p1, 2, 6 * Second, multiset{b1});
  }

  /** The 3s/5s tickers' ticks at 9s and 10s. */
  method NextTwoTicks(sim: Simulator, k1: Ticker, k2: Ticker)
    requires k1 != k2 && !k1.stopped && !k2.stopped
    requires At(sim, multiset{Element(3, 10 * Second, TickerFire(k2, 5 * Second))} + multiset{Element(4, 9 * Second, TickerFire(k1, 3 * Second))}, 5, 6 * Second,
                [Tick(FromTicker(k1), 3 * Second), Tick(FromTicker(k2), 5 * Second), Tick(FromTicker(k1), 6 * Second)])
    modifies sim, sim.queue, sim.timeLock
    ensures sim.delivered == [Tick(FromTicker(k1), 3 * Second), Tick(FromTicker(k2), 5 * Second), Tick(FromTicker(k1), 6 * Second),
                              Tick(FromTicker(k1), 9 * Second), Tick(FromTicker(k2), 10 * Second)]
  {
    var p1, p2 := 3 * Second, 5 * Second;
    ghost var b1 := Element(3, 10 * Second, TickerFire(k2, p2));
    TickerStep(sim, k1, p1, 4, 9 * Second, multiset{b1});
    ghost var a3 := Element(5, 12 * Second, TickerFire(k1, p1));
    assert multiset(sim.queue.heap) == multiset{a3} + multiset{b1};
    TickerStep(sim, k2, p2, 3, 10 * Second, multiset{a3});
  }

  /** 1 for a tick of ticker k, 2 for any other. */
  function NumberOf(t: Tick, k: Ticker): int {
    if t.source == FromTicker(k) then 1 else 2
  }

  /**
   One event-loop iteration on a queue holding one event of each of two running tickers
   of the same period: the earlier (either, on a tie) ticks and re-arms one period later.
   */
  method TwoTickerStep(sim: Simulator, k1: Ticker, k2: Ticker, period: int, ghost id1: int, ghost due1: int, ghost id2: int, ghost due2: int)
    returns (first: bool)
    requires k1 != k2 && !k1.stopped && !k2.stopped && period >= 0
    requires At(sim, multiset{Element(id1, due1, TickerFire(k1, period))} + multiset{Element(id2, due2, TickerFire(k2, period))},
                sim.queue.nextID, sim.now, sim.delivered)
    modifies sim, sim.queue, sim.timeLock
    ensures first ==> (
      && due1 <= due2
      && At(sim, multiset{Element(old(sim.queue.nextID), due1 + period, TickerFire(k1, period))} + multiset{Element(id2, due2, TickerFire(k2, period))},
            old(sim.queue.nextID) + 1, due1, old(sim.delivered) + [Tick(FromTicker(k1), due1)]))
    ensures !first ==> (
      && due2 <= due1
      && At(sim, multiset{Element(id1, due1, TickerFire(k1, period))} + multiset{Element(old(sim.queue.nextID), due2 + period, TickerFire(k2, period))},
            old(sim.queue.nextID) + 1, due2, old(sim.delivered) + [Tick(FromTicker(k2), due2)]))
  {
    ghost var e1 := Element(id1, due1, TickerFire(k1, period));
    ghost var e2 := Element(id2, due2, TickerFire(k2, period));
    var ran, _ := StepOfTwo(sim, e1, e2);
    first := ran.action.ticker == k1;
  }

  /**
   One event-loop iteration on a queue holding exactly e1 and e2, two ticker events: it
   runs one not later than the other, with the other left as the rest of the queue.
   */
  method StepOfTwo(sim: Simulator, ghost e1: Element<Action>, ghost e2: Element<Action>) returns (ran: Element<Action>, emitted: bool)
    requires e1.action.TickerFire? && e2.action.TickerFire?
    requires sim.Valid() && sim.timeLock.readers == 0 && !sim.queue.stopped
    requires multiset(sim.queue.heap) == multiset{e1} + multiset{e2}
    modifies sim, sim.queue, sim.timeLock
    ensures sim.Valid() && sim.timeLock.readers == 0 && !sim.queue.stopped
    ensures ran == e1 || ran == e2
    ensures ran == e1 ==> NotBefore(e2, e1.at)
    ensures ran == e2 ==> NotBefore(e1, e2.at)
    ensures sim.now == ran.at
    ensures emitted == !ran.action.ticker.stopped
    ensures Runs(ran, {}, emitted, if ran == e1 then multiset{e2} else multiset{e1}, multiset(sim.queue.heap),
                 old(sim.queue.nextID), sim.queue.nextID, old(sim.delivered), sim.delivered, 0, 0)
  {
    assert sim.queue.heap[0] in multiset(sim.queue.heap);
    var r := sim.Step({});
    ran, emitted := r.event, r.emitted;
    if ran == e1 {
      assert old(multiset(sim.queue.heap)) - multiset{ran} == multiset{e2};
    } else {
      assert old(multiset(sim.queue.heap)) - multiset{ran} == multiset{e1};
    }
  }

  /** One period after the c-th multiple of p from t0 is the (c + 1)-th. */
  lemma NextMultiple(t0: int, c: int, p: int)
    ensures t0 + c * p + p == t0 + (c + 1) * p
  {
  }

  /** For a positive p, a multiple of p not above another comes from a factor not above the other's. */
  lemma FactorsOrdered(a: int, b: int, p: int)
    requires p > 0 && a * p <= b * p
    ensures a <= b
  {
  }

  /**
   Two running tickers of one period, started together at start: ticker ki has fired
   fromi times, next fires at start + (fromi + 1) * period as event idi, and neither
   is more than one tick ahead of the other.
   */
  ghost predicate Synced(sim: Simulator, k1: Ticker, k2: Ticker, start: int, period: int,
                         from1: int, from2: int, id1: int, id2: int)
    reads sim, sim.queue, sim.timeLock, k1, k2
  {
    && k1 != k2 && !k1.stopped && !k2.stopped && period > 0
    && -1 <= from1 - from2 <= 1
    && At(sim, multiset{Element(id1, start + (from1 + 1) * period, TickerFire(k1, period))}
               + multiset{Element(id2, start + (from2 + 1) * period, TickerFire(k2, period))},
          sim.queue.nextID, sim.now, sim.delivered)
  }

  /** The state Synced describes, spelled out element by element. */
  lemma BecomesSynced(sim: Simulator, k1: Ticker, k2: Ticker, start: int, period: int,
                      from1: int, from2: int, id1: int, id2: int)
    requires k1 != k2 && !k1.stopped && !k2.stopped && period > 0 && -1 <= from1 - from2 <= 1
    requires At(sim, multiset{Element(id1, start + (from1 + 1) * period, TickerFire(k1, period))}
                     + multiset{Element(id2, start + (from2 + 1) * period, TickerFire(k2, period))},
                sim.queue.nextID, sim.now, sim.delivered)
    ensures Synced(sim, k1, k2, start, period, from1, from2, id1, id2)
  {
  }

  /** One tick of two synchronized tickers: the one that fires is the one behind (or either when level). */
  method SyncStep(sim: Simulator, k1: Ticker, k2: Ticker, start: int, period: int,
                  from1: int, from2: int, ghost id1: int, ghost id2: int)
    returns (tick: Tick, count: int, next1: int, next2: int, ghost nid1: int, ghost nid2: int)
    requires Synced(sim, k1, k2, start, period, from1, from2, id1, id2)
    modifies sim, sim.queue, sim.timeLock
    ensures Synced(sim, k1, k2, start, period, next1, next2, nid1, nid2)
    ensures -1 <= next1 - next2 <= 1
    ensures sim.delivered == old(sim.delivered) + [tick]
    ensures count == (if tick.source == FromTicker(k1) then next1 else next2) && tick.time == start + count * period
    ensures tick.source == FromTicker(k1) ==> next1 == from1 + 1 && next2 == from2 && tick.time == start + next1 * period
    ensures tick.source != FromTicker(k1) ==>
      tick.source == FromTicker(k2) && next1 == from1 && next2 == from2 + 1 && tick.time == start + next2 * period
  {
    ghost var due1, due2 := start + (from1 + 1) * period, start + (from2 + 1) * period;
    var first := TwoTickerStep(sim, k1, k2, period, id1, due1, id2, due2);
    if first {
      tick := sim.delivered[|sim.delivered| - 1];
      assert tick == Tick(FromTicker(k1), due1);
      FactorsOrdered(from1 + 1, from2 + 1, period);
      NextMultiple(start, from1 + 1, period);
      next1, next2 := from1 + 1, from2;
      count := next1;
      nid1, nid2 := sim.queue.nextID - 1, id2;
      BecomesSynced(sim, k1, k2, start, period, next1, next2, nid1, nid2);
    } else {
      tick := sim.delivered[|sim.delivered| - 1];
      assert tick == Tick(FromTicker(k2), due2);
      FactorsOrdered(from2 + 1, from1 + 1, period);
      NextMultiple(start, from2 + 1, period);
      next1, next2 := from1, from2 + 1;
      count := next2;
      nid1, nid2 := id1, sim.queue.nextID - 1;
      BecomesSynced(sim, k1, k2, start, period, next1, next2, nid1, nid2);
    }
  }


  /** A fresh clock at start with two running tickers of one period, neither yet fired. */
  method StartSynchronized(start: int, period: int) returns (sim: Simulator, k1: Ticker, k2: Ticker)
    requires period > 0
    ensures fresh(sim) && fresh(sim.queue) && fresh(sim.timeLock) && fresh(k1) && fresh(k2)
    ensures Synced(sim, k1, k2, start, period, 0, 0, 0, 1) && sim.delivered == []
  {
    sim := new Simulator(start);
    var c1 := sim.NewTicker(period);
    k1 := c1.value;
    var c2 := sim.NewTicker(period);
    k2 := c2.value;
    assert multiset(sim.queue.heap) == multiset{Element(0, start + (0 + 1) * period, TickerFire(k1, period))}
                                     + multiset{Element(1, start + (0 + 1) * period, TickerFire(k2, period))};
  }

  /** How many entries of s are k. */
  function Count(s: seq<int>, k: int): (c: nat)
    ensures c <= |s|
  {
    if s == [] then 0 else Count(s[..|s| - 1], k) + (if s[|s| - 1] == k then 1 else 0)
  }

  /** Appending x adds one to the count of x and leaves every other count. */
  lemma CountAppend(s: seq<int>, x: int, k: int)
    ensures Count(s + [x], k) == Count(s, k) + (if x == k then 1 else 0)
  {
    assert (s + [x])[..|s|] == s;
  }

  /**
   The record of the ticks delivered so far by tickers k1 and k2 (numbered 1 and 2): tick j
   is log[j], fired by ticker sources[j]; counts[j] is how many ticks that ticker had fired
   by then, tick j included, and tick j is at start + counts[j] * period; gaps[j] is the
   first ticker's count less the second's after tick j, at most one either way.
   */
  ghost predicate OnBeat(log: seq<Tick>, k1: Ticker, k2: Ticker, times: seq<int>, sources: seq<int>,
                         counts: seq<int>, gaps: seq<int>, start: int, period: int)
  {
    Logged(log, k1, k2, times, sources) && Counted(sources, times, counts, start, period) && Level(sources, gaps)
  }

  /** Tick j is log[j], from ticker k1 or k2, at instant times[j], by ticker number sources[j]. */
  ghost predicate Logged(log: seq<Tick>, k1: Ticker, k2: Ticker, times: seq<int>, sources: seq<int>) {
    && |log| == |times| == |sources|
    && (forall j :: 0 <= j < |log| ==>
          && (log[j].source == FromTicker(k1) || log[j].source == FromTicker(k2))
          && times[j] == log[j].time && sources[j] == NumberOf(log[j], k1))
  }

  /** Tick j is its ticker's counts[j]-th, and lands on that multiple of the period. */
  ghost predicate Counted(sources: seq<int>, times: seq<int>, counts: seq<int>, start: int, period: int) {
    && |sources| == |times| == |counts|
    && (forall j :: 0 <= j < |counts| ==>
          counts[j] == Count(sources[..j + 1], sources[j]) && times[j] == start + counts[j] * period)
  }

  /** After tick j the first ticker's count less the second's is gaps[j], at most one either way. */
  ghost predicate Level(sources: seq<int>, gaps: seq<int>) {
    && |sources| == |gaps|
    && (forall j :: 0 <= j < |gaps| ==>
          gaps[j] == Count(sources[..j + 1], 1) - Count(sources[..j + 1], 2) && -1 <= gaps[j] <= 1)
  }

  lemma LoggedExtends(log: seq<Tick>, k1: Ticker, k2: Ticker, times: seq<int>, sources: seq<int>, tick: Tick)
    requires Logged(log, k1, k2, times, sources)
    requires tick.source == FromTicker(k1) || tick.source == FromTicker(k2)
    ensures Logged(log + [tick], k1, k2, times + [tick.time], sources + [NumberOf(tick, k1)])
  {
    var log', times', sources' := log + [tick], times + [tick.time], sources + [NumberOf(tick, k1)];
    forall j | 0 <= j < |log'|
      ensures (log'[j].source == FromTicker(k1) || log'[j].source == FromTicker(k2))
      ensures times'[j] == log'[j].time && sources'[j] == NumberOf(log'[j], k1)
    {
      if j < |log| {
        assert log'[j] == log[j] && times'[j] == times[j] && sources'[j] == sources[j];
      }
    }
  }

  lemma CountedExtends(sources: seq<int>, times: seq<int>, counts: seq<int>, start: int, period: int,
                       source: int, time: int, count: int)
    requires Counted(sources, times, counts, start, period)
    requires count == Count(sources + [source], source) && time == start + count * period
    ensures Counted(sources + [source], times + [time], counts + [count], start, period)
  {
    var sources', times', counts' := sources + [source], times + [time], counts + [count];
    forall j | 0 <= j < |counts'|
      ensures counts'[j] == Count(sources'[..j + 1], sources'[j]) && times'[j] == start + counts'[j] * period
    {
      if j < |counts| {
        assert sources'[..j + 1] == sources[..j + 1];
        assert counts'[j] == counts[j] && sources'[j] == sources[j] && times'[j] == times[j];
      } else {
        assert sources'[..j + 1] == sources';
      }
    }
  }

  lemma LevelExtends(sources: seq<int>, gaps: seq<int>, source: int, gap: int)
    requires Level(sources, gaps)
    requires gap == Count(sources + [source], 1) - Count(sources + [source], 2) && -1 <= gap <= 1
    ensures Level(sources + [source], gaps + [gap])
  {
    var sources', gaps' := sources + [source], gaps + [gap];
    forall j | 0 <= j < |gaps'|
      ensures gaps'[j] == Count(sources'[..j + 1], 1) - Count(sources'[..j + 1], 2) && -1 <= gaps'[j] <= 1
    {
      if j < |gaps| {
        assert sources'[..j + 1] == sources[..j + 1];
        assert gaps'[j] == gaps[j];
      } else {
        assert sources'[..j + 1] == sources';
      }
    }
  }

  /** Recording one more delivered tick, with its ticker's count and the gap after it, keeps the record. */
  lemma OnBeatExtends(log: seq<Tick>, k1: Ticker, k2: Ticker, times: seq<int>, sources: seq<int>,
                      counts: seq<int>, gaps: seq<int>, start: int, period: int, tick: Tick, count: int, gap: int,
                      log': seq<Tick>, times': seq<int>, sources': seq<int>, counts': seq<int>, gaps': seq<int>)
    requires OnBeat(log, k1, k2, times, sources, counts, gaps, start, period)
    requires tick.source == FromTicker(k1) || tick.source == FromTicker(k2)
    requires log' == log + [tick] && times' == times + [tick.time] && sources' == sources + [NumberOf(tick, k1)]
    requires counts' == counts + [count] && gaps' == gaps + [gap]
    requires count == Count(sources', NumberOf(tick, k1)) && tick.time == start + count * period
    requires gap == Count(sources', 1) - Count(sources', 2) && -1 <= gap <= 1
    ensures OnBeat(log', k1, k2, times', sources', counts', gaps', start, period)
  {
    LoggedExtends(log, k1, k2, times, sources, tick);
    CountedExtends(sources, times, counts, start, period, NumberOf(tick, k1), tick.time, count);
    LevelExtends(sources, gaps, NumberOf(tick, k1), gap);
  }

  /**
   One tick of two synchronized tickers, recorded: the tick is the one delivered, its
   ticker's number and count and the gap after it are appended, and the two counts are
   those of the extended record.
   */
  method SyncRound(sim: Simulator, k1: Ticker, k2: Ticker, start: int, period: int,
                   from1: int, from2: int, ghost id1: int, ghost id2: int,
                   times: seq<int>, sources: seq<int>, counts: seq<int>, gaps: seq<int>)
    returns (tick: Tick, times': seq<int>, sources': seq<int>, counts': seq<int>, gaps': seq<int>,
             next1: int, next2: int, ghost nid1: int, ghost nid2: int)
    requires Synced(sim, k1, k2, start, period, from1, from2, id1, id2)
    requires OnBeat(sim.delivered, k1, k2, times, sources, counts, gaps, start, period)
    requires from1 == Count(sources, 1) && from2 == Count(sources, 2)
    modifies sim, sim.queue, sim.timeLock
    ensures Synced(sim, k1, k2, start, period, next1, next2, nid1, nid2)
    ensures OnBeat(sim.delivered, k1, k2, times', sources', counts', gaps', start, period)
    ensures next1 == Count(sources', 1) && next2 == Count(sources', 2)
    ensures sim.delivered == old(sim.delivered) + [tick] && times' == times + [tick.time]
    ensures sources' == sources + [NumberOf(tick, k1)]
    ensures counts' == counts + [if tick.source == FromTicker(k1) then next1 else next2]
    ensures gaps' == gaps + [next1 - next2]
  {
    ghost var log := sim.delivered;
    var count;
    tick, count, next1, next2, nid1, nid2 := SyncStep(sim, k1, k2, start, period, from1, from2, id1, id2);
    times', sources', counts', gaps' := times + [tick.time], sources + [NumberOf(tick, k1)], counts + [count], gaps + [next1 - next2];
    Recorded(log, k1, k2, times, sources, counts, gaps, start, period, tick, from1, from2, next1, next2, count,
             sim.delivered, times', sources', counts', gaps');
  }

  /**
   The bookkeeping of one synchronized tick: whichever ticker fired, its count goes up by
   one and the record extended by the tick is kept.
   */
  lemma Recorded(log: seq<Tick>, k1: Ticker, k2: Ticker, times: seq<int>, sources: seq<int>,
                 counts: seq<int>, gaps: seq<int>, start: int, period: int, tick: Tick,
                 from1: int, from2: int, next1: int, next2: int, count: int,
                 log': seq<Tick>, times': seq<int>, sources': seq<int>, counts': seq<int>, gaps': seq<int>)
    requires OnBeat(log, k1, k2, times, sources, counts, gaps, start, period)
    requires from1 == Count(sources, 1) && from2 == Count(sources, 2) && -1 <= next1 - next2 <= 1
    requires count == (if tick.source == FromTicker(k1) then next1 else next2) && tick.time == start + count * period
    requires tick.source == FromTicker(k1) ==> next1 == from1 + 1 && next2 == from2
    requires tick.source != FromTicker(k1) ==> tick.source == FromTicker(k2) && next1 == from1 && next2 == from2 + 1
    requires log' == log + [tick] && times' == times + [tick.time] && sources' == sources + [NumberOf(tick, k1)]
    requires counts' == counts + [count] && gaps' == gaps + [next1 - next2]
    ensures OnBeat(log', k1, k2, times', sources', counts', gaps', start, period)
    ensures next1 == Count(sources', 1) && next2 == Count(sources', 2)
  {
    CountAppend(sources, NumberOf(tick, k1), 1);
    CountAppend(sources, NumberOf(tick, k1), 2);
    OnBeatExtends(log, k1, k2, times, sources, counts, gaps, start, period, tick, count, next1 - next2,
                  log', times', sources', counts', gaps');
  }

  /**
   Two tickers of one period started at one instant, read from the ticks the simulator
   delivers: tick j comes from ticker sources[j] (1 or 2) and lands on the multiple of the
   period given by that ticker's own count of ticks so far, and after every tick the two
   counts differ by at most one.
   */
  method SynchronizedTickers(start: int, period: int, n: nat)
    returns (sim: Simulator, k1: Ticker, k2: Ticker, times: seq<int>, sources: seq<int>, counts: seq<int>, gaps: seq<int>)
    requires period > 0
    ensures k1 != k2 && |sim.delivered| == n
    ensures |times| == n && |sources| == n && |counts| == n && |gaps| == n
    ensures forall j :: 0 <= j < n ==>
      && (sim.delivered[j].source == FromTicker(k1) || sim.delivered[j].source == FromTicker(k2))
      && times[j] == sim.delivered[j].time && sources[j] == NumberOf(sim.delivered[j], k1)
    ensures forall j :: 0 <= j < n ==>
      counts[j] == Count(sources[..j + 1], sources[j]) && times[j] == start + counts[j] * period
    ensures forall j :: 0 <= j < n ==>
      gaps[j] == Count(sources[..j + 1], 1) - Count(sources[..j + 1], 2) && -1 <= gaps[j] <= 1
  {
    sim, k1, k2 := StartSynchronized(start, period);
    var from1, from2 := 0, 0;
    ghost var id1, id2 := 0, 1;
    times, sources, counts, gaps := [], [], [], [];
    var i := 0;
    while i < n
      invariant 0 <= i <= n && |times| == i
      invariant OnBeat(sim.delivered, k1, k2, times, sources, counts, gaps, start, period)
      invariant from1 == Count(sources, 1) && from2 == Count(sources, 2)
      invariant Synced(sim, k1, k2, start, period, from1, from2, id1, id2)
    {
      var tick;
      tick, times, sources, counts, gaps, from1, from2, id1, id2 :=
        SyncRound(sim, k1, k2, start, period, from1, from2, id1, id2, times, sources, counts, gaps);
      i := i + 1;
    }
  }

  /** A ticker stopped before its first tick: the pending event runs, emits nothing and leaves no event behind. */
  method StoppedTickerFiresNothing() returns (emitted: bool, pending: nat, delivered: seq<Tick>)
    ensures !emitted && pending == 0 && delivered == []
  {
    var sim := new Simulator(0);
    var c := sim.NewTicker(Second);
    var k := c.value;
    k.Stop();
    emitted := StepKnown(sim, {}, Element(0, Second, TickerFire(k, Second)), multiset{});
    pending := sim.queue.Len();
    delivered := sim.delivered;
  }

  /** The event loop on a stopped simulator returns at once, with events still queued. */
  method LoopAfterStop() returns (steps: nat, exit: LoopExit, queued: nat)
    ensures steps == 0 && exit == StoppedLoop && queued == 1
  {
    var sim := new Simulator(0);
    sim.Sleep(Second, 0);
    sim.Stop();
    steps, exit := sim.EventLoop(3, {});
    queued := sim.queue.Len();
  }

  /** Stop ends the event loop though a FreezeNow acquisition is still held: Pull reports stopped before Lock is reached. */
  method StopEndsLoopWhileFrozen() returns (steps: nat, exit: LoopExit, readers: int)
    ensures steps == 0 && exit == StoppedLoop && readers == 1
  {
    var sim := new Simulator(0);
    var _ := sim.FreezeNow();
    sim.Stop();
    steps, exit := sim.EventLoop(3, {});
    readers := sim.timeLock.readers;
  }

  const Millisecond: int := 1_000_000

  /** The delay of the scenarios below: 10 milliseconds. */
  const Delay: int := 10 * Millisecond

  /** f is a consistent filter on sim with the given queue and forwarded log. */
  ghost predicate FilterAt(f: DelayFilter, sim: Simulator, queue: seq<TimedChunk>, forwarded: seq<Forwarded>)
    reads f
  {
    f.Valid() && f.timeManager == sim && f.delay == Delay && f.queue == queue && f.forwarded == forwarded
  }

  /**
   Run as written at 1s: its own timer L ticks at once, and the tick on the empty queue
   re-arms L for a minute later.  The filter's timer field is still unset.
   */
  method StartFilterAsWritten() returns (sim: Simulator, f: DelayFilter, L: Timer)
    ensures fresh(sim) && fresh(sim.queue) && fresh(sim.timeLock) && fresh(f) && fresh(L)
    ensures FilterAt(f, sim, [], []) && f.timer == null
    ensures L.sim == sim && L.expiresAt == Second + Minute
    ensures At(sim, multiset{Element(1, Second + Minute, TimerFire(L))}, 2, Second, [Tick(FromTimer(L), Second)])
  {
    sim := new Simulator(Second);
    f := new DelayFilter(sim, Delay);
    L := f.Run();
    var emitted := StepKnown(sim, {L}, Element(0, Second, TimerFire(L)), multiset{});
    var _ := f.OnTick(L, sim.now);
  }

  /**
   A chunk c arrives at 1s: the filter creates its own timer for 1.01s.  When the clock
   reaches 1.01s that timer's tick has no receiver and, being non-blocking, is dropped:
   the chunk stays queued past its deadline, and L still waits for 61s.
   */
  method ChunkArmsUnheardTimer(sim: Simulator, f: DelayFilter, L: Timer, c: Chunk)
    requires FilterAt(f, sim, [], []) && f.timer == null
    requires L.sim == sim && L.expiresAt == Second + Minute
    requires At(sim, multiset{Element(1, Second + Minute, TimerFire(L))}, 2, Second, [Tick(FromTimer(L), Second)])
    modifies f, sim, sim.queue, sim.timeLock
    ensures FilterAt(f, sim, [TimedChunk(c, Second + Delay)], [])
    ensures f.timer != null && f.timer != L && fresh(f.timer) && f.timer.expiresAt == 0
    ensures L.expiresAt == Second + Minute
    ensures At(sim, multiset{Element(1, Second + Minute, TimerFire(L))}, 3, Second + Delay, [Tick(FromTimer(L), Second)])
  {
    var r := f.OnInboundChunk(c);
    var T := f.timer;
    ghost var late := Element(1, Second + Minute, TimerFire(L));
    ghost var due := Element(2, Second + Delay, TimerFire(T));
    assert multiset(sim.queue.heap) == multiset{late} + multiset{due};
    var emitted := StepKnown(sim, {L}, due, multiset{late});
  }

  /** At 61s L ticks and forwards the chunk, a minute late, then re-arms for a minute. */
  method MinuteTickForwards(sim: Simulator, f: DelayFilter, L: Timer, tc: TimedChunk)
    requires FilterAt(f, sim, [tc], []) && f.timer != L
    requires L.sim == sim && L.expiresAt == Second + Minute && tc.deadline <= Second + Minute
    requires At(sim, multiset{Element(1, Second + Minute, TimerFire(L))}, 3, Second + Delay, [Tick(FromTimer(L), Second)])
    modifies f, L, sim, sim.queue, sim.timeLock
    ensures FilterAt(f, sim, [], [Forwarded(tc, Second + Minute)])
  {
    var emitted := StepKnown(sim, {L}, Element(1, Second + Minute, TimerFire(L)), multiset{});
    var _ := f.OnTick(L, sim.now);
  }

  /**
   Run as written: a chunk received at 1s with a delay of 10ms is still queued at its
   deadline and is forwarded only at 61s, by the minute fallback of Run's own timer.
   */
  method DelayFilterAsWritten() returns (queuedAtDeadline: int, sent: seq<Forwarded>)
    ensures queuedAtDeadline == 1
    ensures sent == [Forwarded(TimedChunk(Chunk([1]), Second + Delay), Second + Minute)]
  {
    var sim, f, L := StartFilterAsWritten();
    ChunkArmsUnheardTimer(sim, f, L, Chunk([1]));
    queuedAtDeadline := |f.queue|;
    MinuteTickForwards(sim, f, L, TimedChunk(Chunk([1]), Second + Delay));
    sent := f.forwarded;
  }

  /**
   Run as written: a second chunk arriving at 1.02s, after the first one's missed deadline,
   makes onInboundChunk re-arm the filter's timer for a negative duration: it panics, and
   the read lock FreezeNow took stays held.
   */
  method LateChunkPanics() returns (r: Outcome<()>, readers: int)
    ensures r == Panicked(NegativeTimerDuration)
    ensures readers == 1
  {
    var sim, f, L := StartFilterAsWritten();
    ChunkArmsUnheardTimer(sim, f, L, Chunk([1]));
    sim.Sleep(Delay, 0);
    ghost var late := Element(1, Second + Minute, TimerFire(L));
    ghost var wake := Element(3, Second + 2 * Delay, SleepWake(0));
    assert multiset(sim.queue.heap) == multiset{late} + multiset{wake};
    var _ := StepKnown(sim, {L}, wake, multiset{late});
    r := f.OnInboundChunk(Chunk([2]));
    readers := sim.timeLock.readers;
  }

  /**
   Run with the shared timer at 1s: the filter's timer ticks at once, and the tick on the
   empty queue re-arms it for a minute later.
   */
  method StartFilterSharingTimer() returns (sim: Simulator, f: DelayFilter, t: Timer)
    ensures fresh(sim) && fresh(sim.queue) && fresh(sim.timeLock) && fresh(f) && fresh(t)
    ensures FilterAt(f, sim, [], []) && f.timer == t
    ensures t.expiresAt == Second + Minute
    ensures At(sim, multiset{Element(1, Second + Minute, TimerFire(t))}, 2, Second, [Tick(FromTimer(t), Second)])
  {
    sim := new Simulator(Second);
    f := new DelayFilter(sim, Delay);
    t := f.RunSharingTimer();
    var emitted := StepKnown(sim, {t}, Element(0, Second, TimerFire(t)), multiset{});
    var _ := f.OnTick(t, sim.now);
  }

  /**
   A chunk c arrives at 1s: the shared timer is stopped and re-armed for 1.01s, its tick
   at 1.01s reaches the loop, and the chunk is forwarded at its deadline.
   */
  method ChunkRearmsSharedTimer(sim: Simulator, f: DelayFilter, t: Timer, c: Chunk)
    requires FilterAt(f, sim, [], []) && f.timer == t
    requires t.expiresAt == Second + Minute
    requires At(sim, multiset{Element(1, Second + Minute, TimerFire(t))}, 2, Second, [Tick(FromTimer(t), Second)])
    modifies f, t, sim, sim.queue, sim.timeLock
    ensures FilterAt(f, sim, [], [Forwarded(TimedChunk(c, Second + Delay), Second + Delay)])
    ensures t.expiresAt == Second + Delay + Minute
  {
    var r := f.OnInboundChunk(c);
    ghost var stale := Element(1, Second + Minute, TimerFire(t));
    ghost var due := Element(2, Second + Delay, TimerFire(t));
    assert multiset(sim.queue.heap) == multiset{stale} + multiset{due};
    var emitted := StepKnown(sim, {t}, due, multiset{stale});
    var _ := f.OnTick(t, sim.now);
  }

  /** Run sharing the filter's timer: a chunk received at 1s with a delay of 10ms is forwarded at 1.01s. */
  method DelayFilterSharingTimer() returns (sent: seq<Forwarded>)
    ensures sent == [Forwarded(TimedChunk(Chunk([1]), Second + Delay), Second + Delay)]
  {
    var sim, f, t := StartFilterSharingTimer();
    ChunkRearmsSharedTimer(sim, f, t, Chunk([1]));
    sent := f.forwarded;
  }
}

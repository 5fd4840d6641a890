/**
 The delay filter of the virtual network: every chunk it receives is tagged with a
 deadline of "now plus the delay" and kept in a first-in first-out queue; a timer of the
 time manager is armed for the head's deadline, and each tick of that timer forwards the
 head once its deadline has come, then re-arms the timer for the new head (or for one
 minute when the queue is empty).  Forwarding to the next NIC is an append to a log.
 */
module VNet {
  import opened EventQueue
  import opened VTime

  const Minute: int := 60 * Second

  /** The filter's timers are created non-blocking: a tick nobody receives is dropped. */
  const TimerBlocking: bool := false

  /** A chunk of the virtual network; only its payload is kept. */
  datatype Chunk = Chunk(userData: seq<bv8>)

  /** A queued chunk and the instant it may be forwarded from. */
  datatype TimedChunk = TimedChunk(chunk: Chunk, deadline: int)

  /** A chunk handed to the next NIC, and the tick instant at which it was. */
  datatype Forwarded = Forwarded(sent: TimedChunk, at: int)

  class DelayFilter {
    const delay: int
    const timeManager: Simulator
    var queue: seq<TimedChunk>
    var timer: Timer?
    var forwarded: seq<Forwarded>
    /** Every chunk ever received, in the order received. */
    ghost var arrivals: seq<TimedChunk>

    /**
     Forwarded chunks followed by queued ones are exactly the chunks received, in order;
     none was forwarded before its deadline; the filter's timer belongs to its time manager.
     */
    ghost predicate Valid()
      reads this
    {
      && |forwarded| + |queue| == |arrivals|
      && (forall i :: 0 <= i < |forwarded| ==> forwarded[i].sent == arrivals[i])
      && (forall i :: 0 <= i < |queue| ==> queue[i] == arrivals[|forwarded| + i])
      && (forall i :: 0 <= i < |forwarded| ==> forwarded[i].sent.deadline <= forwarded[i].at)
      && (timer != null ==> timer.sim == timeManager && timer.blocking == TimerBlocking)
    }

    /** NewDelayFilter: an empty queue and no timer yet. */
    constructor (timeManager: Simulator, delay: int)
      ensures Valid()
      ensures this.timeManager == timeManager && this.delay == delay
      ensures queue == [] && timer == null && forwarded == [] && arrivals == []
    {
      this.timeManager := timeManager;
      this.delay := delay;
      queue := [];
      timer := null;
      forwarded := [];
      arrivals := [];
    }

    /**
     Receives chunk c: tags it with deadline frozen-now + delay, queues it last, and arms
     the timer (created on first use) for the head's deadline.  Arming for an overdue head
     is a negative duration: the call panics, and the frozen read lock is never released.
     */
    method OnInboundChunk(c: Chunk) returns (r: Outcome<()>)
      requires Valid() && timeManager.Valid()
      modifies this`queue, this`arrivals, this`timer, timer, timeManager.queue, timeManager.timeLock
      ensures Valid() && timeManager.Valid()
      ensures queue == old(queue) + [TimedChunk(c, timeManager.now + delay)]
      ensures arrivals == old(arrivals) + [TimedChunk(c, timeManager.now + delay)]
      ensures forwarded == old(forwarded)
      ensures old(timer) != null ==> timer == old(timer)
      ensures timeManager.queue.stopped == old(timeManager.queue.stopped)
      ensures r.Panicked? <==> queue[0].deadline < timeManager.now
      ensures r.Panicked? ==>
        && r.message == NegativeTimerDuration
        && timeManager.timeLock.readers == old(timeManager.timeLock.readers) + 1
        && timeManager.queue.heap == old(timeManager.queue.heap)
      ensures r.Returned? ==>
        && timer != null && timer.expiresAt == queue[0].deadline
        && (old(timer) == null ==> fresh(timer))
        && timeManager.timeLock.readers == old(timeManager.timeLock.readers)
        && multiset(timeManager.queue.heap)
             == old(multiset(timeManager.queue.heap)) + multiset{Element(old(timeManager.queue.nextID), queue[0].deadline, TimerFire(timer))}
        && timeManager.queue.nextID == old(timeManager.queue.nextID) + 1
    {
      var frozen := timeManager.FreezeNow();
      r := EnqueueAndArm(TimedChunk(c, frozen + delay));
      if r.Returned? {
        timeManager.FreezeDone();
      }
    }

    /** onInboundChunk under the frozen clock: queues tc last and arms the timer for the head's deadline. */
    method EnqueueAndArm(tc: TimedChunk) returns (r: Outcome<()>)
      requires Valid() && timeManager.Valid()
      modifies this`queue, this`arrivals, this`timer, timer, timeManager.queue, timeManager.timeLock
      ensures Valid() && timeManager.Valid()
      ensures queue == old(queue) + [tc] && arrivals == old(arrivals) + [tc]
      ensures forwarded == old(forwarded)
      ensures old(timer) != null ==> timer == old(timer)
      ensures timeManager.timeLock.readers == old(timeManager.timeLock.readers)
      ensures timeManager.queue.stopped == old(timeManager.queue.stopped)
      ensures r.Panicked? <==> queue[0].deadline < timeManager.now
      ensures r.Panicked? ==>
        && r.message == NegativeTimerDuration
        && timeManager.queue.heap == old(timeManager.queue.heap)
      ensures r.Returned? ==>
        && timer != null && timer.expiresAt == queue[0].deadline
        && (old(timer) == null ==> fresh(timer))
        && multiset(timeManager.queue.heap)
             == old(multiset(timeManager.queue.heap)) + multiset{Element(old(timeManager.queue.nextID), queue[0].deadline, TimerFire(timer))}
        && timeManager.queue.nextID == old(timeManager.queue.nextID) + 1
    {
      Enqueue(tc);
      var wait := timeManager.Until(queue[0].deadline);
      r := Arm(wait);
    }

    /** Queues tc last. */
    method Enqueue(tc: TimedChunk)
      requires Valid()
      modifies this`queue, this`arrivals
      ensures Valid()
      ensures queue == old(queue) + [tc] && arrivals == old(arrivals) + [tc]
    {
      queue := queue + [tc];
      arrivals := arrivals + [tc];
    }

    /** onInboundChunk's arming: creates the timer for wait on first use, else stops and re-arms it. */
    method Arm(wait: int) returns (r: Outcome<()>)
      requires timeManager.Valid()
      requires timer != null ==> timer.sim == timeManager && timer.blocking == TimerBlocking
      modifies this`timer, timer, timeManager.queue, timeManager.timeLock
      ensures timeManager.Valid()
      ensures timer != null ==> timer.sim == timeManager && timer.blocking == TimerBlocking
      ensures old(timer) != null ==> timer == old(timer)
      ensures timeManager.timeLock.readers == old(timeManager.timeLock.readers)
      ensures timeManager.queue.stopped == old(timeManager.queue.stopped)
      ensures wait < 0 ==>
        && r == Panicked(NegativeTimerDuration)
        && timeManager.queue.heap == old(timeManager.queue.heap)
      ensures wait >= 0 ==>
        && r == Returned(())
        && timer != null && timer.expiresAt == timeManager.now + wait
        && (old(timer) == null ==> fresh(timer))
        && multiset(timeManager.queue.heap)
             == old(multiset(timeManager.queue.heap)) + multiset{Element(old(timeManager.queue.nextID), timeManager.now + wait, TimerFire(timer))}
        && timeManager.queue.nextID == old(timeManager.queue.nextID) + 1
    {
      if timer == null {
        var created := timeManager.NewTimer(wait, TimerBlocking);
        if created.Panicked? {
          return Panicked(created.message);
        }
        timer := created.value;
      } else {
        var _ := timer.Stop();
        var reset := timer.Reset(wait);
        if reset.Panicked? {
          return Panicked(reset.message);
        }
      }
      r := Returned(());
    }

    /**
     A tick of `t` at instant `now`: forwards the head if its deadline is not after now
     (at most one chunk per tick), then re-arms `t` for one minute if the queue is empty,
     else for the head's deadline, which panics when that deadline has passed.
     */
    method OnTick(t: Timer, now: int) returns (r: Outcome<()>)
      requires Valid() && timeManager.Valid() && t.sim == timeManager
      modifies this, t, timeManager.queue, timeManager.timeLock
      ensures Valid() && timeManager.Valid()
      ensures timer == old(timer) && arrivals == old(arrivals)
      ensures timeManager.timeLock.readers == old(timeManager.timeLock.readers)
      ensures timeManager.queue.stopped == old(timeManager.queue.stopped)
      ensures old(queue) == [] ==> queue == [] && forwarded == old(forwarded)
      ensures old(queue) != [] && old(queue)[0].deadline <= now ==>
        queue == old(queue)[1..] && forwarded == old(forwarded) + [Forwarded(old(queue)[0], now)]
      ensures old(queue) != [] && now < old(queue)[0].deadline ==>
        queue == old(queue) && forwarded == old(forwarded)
      ensures queue == [] ==> r == Returned(()) && t.expiresAt == timeManager.now + Minute
      ensures queue != [] ==> (r.Panicked? <==> queue[0].deadline < timeManager.now)
      ensures r.Panicked? ==> r.message == NegativeTimerDuration && timeManager.queue.heap == old(timeManager.queue.heap)
      ensures r.Returned? ==>
        && t.expiresAt == (if queue == [] then timeManager.now + Minute else queue[0].deadline)
        && multiset(timeManager.queue.heap) == old(multiset(timeManager.queue.heap)) + multiset{Element(old(timeManager.queue.nextID), t.expiresAt, TimerFire(t))}
        && timeManager.queue.nextID == old(timeManager.queue.nextID) + 1
    {
      if queue != [] && queue[0].deadline <= now {
        ForwardHead(now);
      }
      if queue == [] {
        var reset := t.Reset(Minute);
        r := Returned(());
      } else {
        var reset := t.Reset(timeManager.Until(queue[0].deadline));
        r := if reset.Panicked? then Panicked(reset.message) else Returned(());
      }
    }

    /** Hands the head, whose deadline is not after now, to the next NIC. */
    method ForwardHead(now: int)
      requires Valid() && queue != [] && queue[0].deadline <= now
      modifies this`queue, this`forwarded
      ensures Valid()
      ensures queue == old(queue)[1..] && forwarded == old(forwarded) + [Forwarded(old(queue)[0], now)]
    {
      forwarded := forwarded + [Forwarded(queue[0], now)];
      queue := queue[1..];
    }

    /**
     Run's set-up as written: the loop listens on a timer of its own, armed for now, while
     onInboundChunk arms the filter's timer field, which nothing listens on.
     */
    method Run() returns (listening: Timer)
      requires timeManager.Valid()
      modifies timeManager.queue, timeManager.timeLock
      ensures timeManager.Valid()
      ensures fresh(listening) && listening != timer
      ensures listening.sim == timeManager && listening.blocking == TimerBlocking
      ensures listening.expiresAt == timeManager.now
      ensures timeManager.timeLock.readers == old(timeManager.timeLock.readers)
      ensures timeManager.queue.stopped == old(timeManager.queue.stopped)
      ensures multiset(timeManager.queue.heap) == old(multiset(timeManager.queue.heap)) + multiset{Element(old(timeManager.queue.nextID), timeManager.now, TimerFire(listening))}
      ensures timeManager.queue.nextID == old(timeManager.queue.nextID) + 1
    {
      var created := timeManager.NewTimer(0, TimerBlocking);
      listening := created.value;
    }

    /**
     Run's set-up as evidently intended: the loop listens on the filter's own timer
     (created here if no chunk has created it yet), armed for now.
     */
    method RunSharingTimer() returns (listening: Timer)
      requires Valid() && timeManager.Valid()
      modifies this`timer, timer, timeManager.queue, timeManager.timeLock
      ensures Valid() && timeManager.Valid()
      ensures listening == timer && (old(timer) != null ==> timer == old(timer)) && (old(timer) == null ==> fresh(timer))
      ensures queue == old(queue) && forwarded == old(forwarded) && arrivals == old(arrivals)
      ensures listening.expiresAt == timeManager.now
      ensures timeManager.timeLock.readers == old(timeManager.timeLock.readers)
      ensures timeManager.queue.stopped == old(timeManager.queue.stopped)
      ensures multiset(timeManager.queue.heap) == old(multiset(timeManager.queue.heap)) + multiset{Element(old(timeManager.queue.nextID), timeManager.now, TimerFire(listening))}
      ensures timeManager.queue.nextID == old(timeManager.queue.nextID) + 1
    {
      if timer == null {
        var created := timeManager.NewTimer(0, TimerBlocking);
        timer := created.value;
      } else {
        var reset := timer.Reset(0);
      }
      listening := timer;
    }
  }
}

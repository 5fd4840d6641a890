/**
 The simulator's reentrant read lock, as reader-count bookkeeping: a counter of
 nested read acquisitions, and whether the underlying reader/writer lock is held
 for reading (taken on the first acquisition, released on the last) or for writing.
 Real mutual exclusion is not modelled: a wait becomes a precondition.
 */
module RecursiveLock {

  class RecursiveRWLock {
    var readers: int
    var readHeld: bool
    var writeHeld: bool

    /** Balanced use: the underlying read lock is held exactly while readers are counted, never with a writer. */
    ghost predicate Valid()
      reads this
    {
      && readers >= 0
      && (readHeld <==> readers > 0)
      && !(readHeld && writeHeld)
    }

    constructor ()
      ensures Valid()
      ensures readers == 0 && !readHeld && !writeHeld
    {
      readers := 0;
      readHeld := false;
      writeHeld := false;
    }

    /**
     Counts one more reader and takes the underlying read lock when the count becomes 1
     (which waits while a writer holds it: here a precondition).
     */
    method RLock()
      requires readers == 0 ==> !writeHeld
      modifies this
      ensures readers == old(readers) + 1
      ensures readHeld == (readers == 1 || old(readHeld))
      ensures writeHeld == old(writeHeld)
      ensures old(Valid()) ==> Valid()
    {
      readers := readers + 1;
      if readers == 1 {
        readHeld := true;
      }
    }

    /**
     Counts one reader less and releases the underlying read lock when the count becomes 0
     (releasing a read lock that is not held is a fatal error: here a precondition).
     */
    method RUnlock()
      requires readers == 1 ==> readHeld
      modifies this
      ensures readers == old(readers) - 1
      ensures readHeld == (old(readHeld) && readers != 0)
      ensures writeHeld == old(writeHeld)
      ensures old(Valid()) && old(readers) > 0 ==> Valid()
    {
      readers := readers - 1;
      if readers == 0 {
        readHeld := false;
      }
    }

    /** Takes the underlying write lock (which waits for readers and writers: here a precondition). */
    method Lock()
      requires !readHeld && !writeHeld
      modifies this
      ensures writeHeld
      ensures readers == old(readers) && readHeld == old(readHeld)
    {
      writeHeld := true;
    }

    /** Releases the underlying write lock (releasing one not held is a fatal error). */
    method Unlock()
      requires writeHeld
      modifies this
      ensures !writeHeld
      ensures readers == old(readers) && readHeld == old(readHeld)
    {
      writeHeld := false;
    }
  }

  /**
   n nested RLocks followed by n RUnlocks on a fresh lock: the underlying read lock is
   held throughout (taken once, at the first), and the lock ends as it started.
   */
  method NestedReadLocks(n: nat) returns (peak: int, readers: int, held: bool)
    ensures peak == n
    ensures readers == 0 && !held
  {
    var lock := new RecursiveRWLock();
    var i := 0;
    while i < n
      invariant 0 <= i <= n
      invariant lock.Valid() && !lock.writeHeld
      invariant lock.readers == i
    {
      lock.RLock();
      i := i + 1;
    }
    peak := lock.readers;
    while i > 0
      invariant 0 <= i <= n
      invariant lock.Valid() && !lock.writeHeld
      invariant lock.readers == i
    {
      lock.RUnlock();
      i := i - 1;
    }
    readers, held := lock.readers, lock.readHeld;
  }
}

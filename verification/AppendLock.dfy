/** One waiter acquiring the append lock file, with nobody else touching the file meanwhile. */
module AppendLock {
  import opened Wrappers

  const TIMEOUT_MS := 60_000
  const RETRY_MS := 25

  /** The clock as one acquisition reads it: when it starts and, in round i, when it tries to create the
  file, when it compares the file's age, and when it compares its own waiting time. */
  datatype Clock = Clock(startedAt: int, openAt: nat -> int, statAt: nat -> int, checkAt: nat -> int)

  ghost predicate Advances(clock: Clock) {
    && clock.startedAt <= clock.openAt(0)
    && forall i: nat ::
         clock.openAt(i) <= clock.statAt(i) <= clock.checkAt(i) && clock.checkAt(i) + RETRY_MS <= clock.openAt(i + 1)
  }

  /** In round i the file is a minute old and the waiter has not yet waited for a minute. */
  ghost predicate TakesOver(clock: Clock, mtime: int, i: nat) {
    clock.statAt(i) - mtime >= TIMEOUT_MS && clock.checkAt(i) - clock.startedAt < TIMEOUT_MS
  }

  class LockFile {
    var mtime: Option<int>  // None when the file does not exist

    constructor (mtime: Option<int>)
      ensures this.mtime == mtime
    {
      this.mtime := mtime;
    }

    /** Succeeds exactly when the file is missing or some round takes it over, within 2400 sleeps. */
    method Acquire(clock: Clock) returns (acquired: bool, sleeps: nat)
      requires Advances(clock)
      modifies this
      ensures sleeps * RETRY_MS <= TIMEOUT_MS && sleeps <= 2400
      ensures acquired <==> old(mtime).None? || exists i: nat :: TakesOver(clock, old(mtime).value, i)
      ensures acquired ==> mtime == Some(clock.openAt(sleeps))
      ensures !acquired ==> mtime == None || mtime == old(mtime)
    {
      sleeps := 0;
      while true
        invariant clock.openAt(sleeps) >= clock.startedAt + sleeps * RETRY_MS
        invariant sleeps * RETRY_MS <= TIMEOUT_MS
        invariant sleeps > 0 ==> clock.checkAt(sleeps - 1) - clock.startedAt < TIMEOUT_MS
        invariant mtime == old(mtime) || (mtime == None && sleeps > 0 && TakesOver(clock, old(mtime).value, sleeps - 1))
        invariant mtime.Some? ==> forall i: nat :: i < sleeps ==> clock.statAt(i) - mtime.value < TIMEOUT_MS
        decreases TIMEOUT_MS - sleeps * RETRY_MS
      {
        if mtime.None? {
          mtime := Some(clock.openAt(sleeps));
          return true, sleeps;
        }
        if clock.statAt(sleeps) - mtime.value >= TIMEOUT_MS {
          mtime := None;
        }
        if clock.checkAt(sleeps) - clock.startedAt >= TIMEOUT_MS {
          forall i: nat | TakesOver(clock, old(mtime).value, i) ensures false {
            if i >= sleeps { ChecksInOrder(clock, sleeps, i); }
          }
          return false, sleeps;
        }
        sleeps := sleeps + 1;
      }
    }
  }

  lemma {:induction false} ChecksInOrder(clock: Clock, i: nat, j: nat)
    requires Advances(clock) && i <= j
    ensures clock.checkAt(i) <= clock.checkAt(j)
    decreases j - i
  {
    if i < j {
      assert clock.checkAt(i) + RETRY_MS <= clock.openAt(i + 1) <= clock.checkAt(i + 1);
      ChecksInOrder(clock, i + 1, j);
    }
  }

  lemma {:induction false} RoundsTakeTime(clock: Clock, i: nat)
    requires Advances(clock)
    ensures clock.statAt(i) >= clock.startedAt + i * RETRY_MS
  {
    if i > 0 {
      RoundsTakeTime(clock, i - 1);
      assert clock.checkAt(i - 1) + RETRY_MS <= clock.openAt(i);
    }
  }

  /** Rounds that last at most `gap` each, from one age comparison to the end of the next round. */
  ghost predicate RoundsWithin(clock: Clock, gap: nat) {
    clock.checkAt(0) <= clock.startedAt + gap && forall i: nat :: clock.checkAt(i + 1) <= clock.statAt(i) + gap
  }

  /** A lone waiter that started at least one round after a crashed holder wrote the file takes it over. */
  lemma LateWaiterTakesOver(clock: Clock, mtime: int, gap: nat)
    requires Advances(clock) && RoundsWithin(clock, gap) && gap < TIMEOUT_MS
    requires mtime + gap <= clock.startedAt
    ensures exists i: nat :: TakesOver(clock, mtime, i)
  {
    hide Advances, RoundsWithin;
    var i := FirstOldRound(clock, mtime);
    RoundIsShort(clock, gap, i);
    assert TakesOver(clock, mtime, i);
  }

  lemma RoundIsShort(clock: Clock, gap: nat, i: nat)
    requires RoundsWithin(clock, gap)
    ensures clock.checkAt(i) <= (if i == 0 then clock.startedAt else clock.statAt(i - 1)) + gap
  {
    if i > 0 { assert clock.checkAt((i - 1) + 1) <= clock.statAt(i - 1) + gap; }
  }

  /** One that started no later than that write times out, however fast its rounds are. */
  lemma EarlyWaiterTimesOut(clock: Clock, mtime: int)
    requires Advances(clock) && clock.startedAt <= mtime
    ensures !exists i: nat :: TakesOver(clock, mtime, i)
  {
    forall i: nat ensures !TakesOver(clock, mtime, i) {
      assert clock.statAt(i) <= clock.checkAt(i);
    }
  }

  lemma FirstOldRound(clock: Clock, mtime: int) returns (i: nat)
    requires Advances(clock)
    ensures clock.statAt(i) - mtime >= TIMEOUT_MS
    ensures i > 0 ==> clock.statAt(i - 1) - mtime < TIMEOUT_MS
  {
    i := 0;
    while clock.statAt(i) - mtime < TIMEOUT_MS
      invariant i > 0 ==> clock.statAt(i - 1) - mtime < TIMEOUT_MS
      decreases TIMEOUT_MS + mtime - clock.startedAt - i * RETRY_MS
    {
      RoundsTakeTime(clock, i);
      RoundsTakeTime(clock, i + 1);
      i := i + 1;
    }
  }
}

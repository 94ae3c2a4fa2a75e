/** Wall-clock time and the delayed part of the controller's work queue. */
module Clock {
  const SECOND := 1_000_000_000

  /** Nanoseconds since the epoch; the whole seconds leave head room in an int64. */
  type Instant = t: nat | t < 0x4000_0000_0000_0000 * SECOND

  /** `time.Time.Unix`: whole seconds, rounded down. */
  function Unix(t: int): int { t / SECOND }

  /** An int64 product, as `time.Duration` arithmetic computes it. */
  function Wrap64(x: int): int {
    (x + 0x8000_0000_0000_0000) % 0x1_0000_0000_0000_0000 - 0x8000_0000_0000_0000
  }

  lemma UnixShift(t: int, seconds: int)
    ensures Unix(t + seconds * SECOND) == Unix(t) + seconds
  {
  }

  lemma UnixMonotone(s: int, t: int)
    requires s <= t
    ensures Unix(s) <= Unix(t)
  {
  }

  class WallClock {
    var now: Instant

    /** Reading the clock lets an unknown amount of time pass first. */
    method Now() returns (t: Instant)
      modifies this
      ensures t == now
      ensures old(now) <= now
    {
      t :| now <= t;
      now := t;
    }
  }

  /** A delayed re-queue request: the key becomes ready once the clock reaches `due`. */
  datatype Delayed = Delayed(key: string, due: int)

  class WorkQueue {
    var delayed: seq<Delayed>

    /** `AddAfter(key, seconds * time.Second)`. */
    method AddAfter(clock: WallClock, key: string, seconds: int)
      modifies this, clock
      ensures old(clock.now) <= clock.now
      ensures delayed == old(delayed) + [Delayed(key, clock.now + Wrap64(seconds * SECOND))]
    {
      var t := clock.Now();
      delayed := delayed + [Delayed(key, t + Wrap64(seconds * SECOND))];
    }
  }
}

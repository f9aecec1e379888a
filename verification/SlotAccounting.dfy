/** Rates and slots of a periodic job over a whole run. Slot m of a `Periodic(i)` first asked
    at instant a is the instant a + m * i, for m >= 1. */
module SlotAccounting {
  import opened GoTime
  import opened Wrappers
  import opened Schedules
  import opened Firing

  ghost predicate NonDecreasing(readings: seq<Time>) {
    forall j, k :: 0 <= j <= k < |readings| ==> readings[j] <= readings[k]
  }

  /** The clock readings of a `Periodic(interval)` job that has not outlived a duration. */
  ghost predicate PeriodicRun(interval: Duration, readings: seq<Time>) {
    && interval > 0 && readings != []
    && NonDecreasing(readings)
    && readings[|readings| - 1] - readings[0] < LastMultiple(interval)
    && Causal(Periodic(interval), readings)
  }

  /** The slot answered to the k-th reading. */
  ghost function SlotOf(interval: Duration, readings: seq<Time>, k: nat): int
    requires interval > 0 && k < |readings|
  {
    (readings[k] - readings[0]) / interval + 1
  }

  ghost function SlotInstant(interval: Duration, readings: seq<Time>, m: int): Time
    requires readings != []
  {
    readings[0] + m * interval
  }

  /** Slot m was fired by a run that has returned by the last reading. */
  ghost predicate Fired(interval: Duration, readings: seq<Time>, m: int)
    requires interval > 0
  {
    exists k :: 0 <= k < |readings| - 1 && SlotOf(interval, readings, k) == m
  }

  /** Slot m passed, unfired, before the k-th run returned. */
  ghost predicate SkippedBy(interval: Duration, readings: seq<Time>, m: int, k: nat)
    requires interval > 0 && k < |readings| - 1
  {
    SlotOf(interval, readings, k) < m && SlotInstant(interval, readings, m) <= readings[k + 1]
  }

  ghost predicate Skipped(interval: Duration, readings: seq<Time>, m: int)
    requires interval > 0
  {
    exists k: nat :: k < |readings| - 1 && SkippedBy(interval, readings, m, k)
  }

  lemma AnswerIsSlot(interval: Duration, readings: seq<Time>, k: nat)
    requires PeriodicRun(interval, readings) && k < |readings|
    ensures Fire(Periodic(interval), readings[..k + 1])
         == Some(SlotInstant(interval, readings, SlotOf(interval, readings, k)))
    ensures readings[k] < SlotInstant(interval, readings, SlotOf(interval, readings, k)) <= readings[k] + interval
  {
    var a, t, asked := readings[0], readings[k], readings[..k + 1];
    assert asked[0] == a && asked[|asked| - 1] == t;
    SlotWithinRange(a, interval, t);
    PeriodicFire(interval, asked);
    assert PeriodicSlot(a, interval, t) == a + SlotOf(interval, readings, k) * interval;
    hide PeriodicSlot, LastMultiple, Fire, Causal, SlotOf;
  }

  /** Every slot after the k-th one is later than it, and the slots the k-th run made the job
      miss are exactly those in (its own slot, the run's completion]. */
  lemma NextSlotSkipsExactly(interval: Duration, readings: seq<Time>, k: nat, m: int)
    requires PeriodicRun(interval, readings) && k < |readings| - 1
    ensures SlotOf(interval, readings, k) < SlotOf(interval, readings, k + 1)
    ensures m < SlotOf(interval, readings, k + 1) <==> SlotInstant(interval, readings, m) <= readings[k + 1]
    ensures SkippedBy(interval, readings, m, k)
       <==> SlotOf(interval, readings, k) < m < SlotOf(interval, readings, k + 1)
  {
    AnswerIsSlot(interval, readings, k);
    assert readings[..k + 1] == readings[..k + 1][..k + 1];
    var x: nat := readings[k + 1] - readings[0];
    MultipleWithinIff(SlotOf(interval, readings, k), x, interval);
    MultipleWithinIff(m, x, interval);
  }

  /** A run that returns before the next slot skips none, and only such a run. */
  lemma NoSkipIff(interval: Duration, readings: seq<Time>, k: nat)
    requires PeriodicRun(interval, readings) && k < |readings| - 1
    ensures SlotOf(interval, readings, k + 1) == SlotOf(interval, readings, k) + 1
       <==> readings[k + 1] < SlotInstant(interval, readings, SlotOf(interval, readings, k) + 1)
  {
    NextSlotSkipsExactly(interval, readings, k, SlotOf(interval, readings, k) + 1);
  }

  lemma {:induction false} SlotsIncrease(interval: Duration, readings: seq<Time>, j: nat, k: nat)
    requires PeriodicRun(interval, readings) && j < k < |readings|
    ensures SlotOf(interval, readings, j) + (k - j) <= SlotOf(interval, readings, k)
    decreases k
  {
    NextSlotSkipsExactly(interval, readings, k - 1, 0);
    if j < k - 1 {
      SlotsIncrease(interval, readings, j, k - 1);
    }
  }

  lemma FirstSlot(interval: Duration, readings: seq<Time>)
    requires interval > 0 && readings != []
    ensures SlotOf(interval, readings, 0) == 1
  {
    QuotientIsUnique(0, interval, 0);
  }

  /** Below the k-th slot every slot was fired earlier or skipped earlier. */
  lemma {:induction false} EarlierSlotsAccounted(interval: Duration, readings: seq<Time>, k: nat, m: int)
    requires PeriodicRun(interval, readings) && k < |readings|
    requires 1 <= m < SlotOf(interval, readings, k)
    ensures Fired(interval, readings, m) || Skipped(interval, readings, m)
  {
    FirstSlot(interval, readings);
    hide SlotOf, SlotInstant, PeriodicRun;
    if k > 0 {
      var previous := SlotOf(interval, readings, k - 1);
      if m < previous {
        EarlierSlotsAccounted(interval, readings, k - 1, m);
      } else if m > previous {
        NextSlotSkipsExactly(interval, readings, k - 1, m);
        assert SkippedBy(interval, readings, m, k - 1);
      }
    }
  }

  /** Up to the last completion the slots split exactly into fired and skipped ones. */
  lemma SlotsSplit(interval: Duration, readings: seq<Time>, m: int)
    requires PeriodicRun(interval, readings) && m >= 1
    ensures SlotInstant(interval, readings, m) <= readings[|readings| - 1]
       <==> Fired(interval, readings, m) || Skipped(interval, readings, m)
    ensures !(Fired(interval, readings, m) && Skipped(interval, readings, m))
  {
    var last := |readings| - 1;
    var x: nat := readings[last] - readings[0];
    MultipleWithinIff(m, x, interval);
    if m < SlotOf(interval, readings, last) {
      EarlierSlotsAccounted(interval, readings, last, m);
    }
    if Fired(interval, readings, m) {
      var k :| 0 <= k < last && SlotOf(interval, readings, k) == m;
      SlotsIncrease(interval, readings, k, last);
    }
    if Skipped(interval, readings, m) {
      var k: nat :| k < last && SkippedBy(interval, readings, m, k);
      assert readings[k + 1] <= readings[last];
      NextSlotSkipsExactly(interval, readings, k, m);
      if Fired(interval, readings, m) {
        var j :| 0 <= j < last && SlotOf(interval, readings, j) == m;
        if j < k {
          SlotsIncrease(interval, readings, j, k);
        } else if j > k + 1 {
          SlotsIncrease(interval, readings, k + 1, j);
        }
      }
    }
  }

  /** No slot fires twice. */
  lemma SlotFiresOnce(interval: Duration, readings: seq<Time>, j: nat, k: nat)
    requires PeriodicRun(interval, readings) && j < |readings| && k < |readings|
    requires SlotOf(interval, readings, j) == SlotOf(interval, readings, k)
    ensures j == k
  {
    if j < k {
      SlotsIncrease(interval, readings, j, k);
    } else if k < j {
      SlotsIncrease(interval, readings, k, j);
    }
  }

  /** The j-th answer (counting from one) of a `Periodic(i)` anchored at a is at a + j * i or
      later; an answer at or before t has j <= (t - a) / i. */
  lemma PeriodicRate(interval: Duration, readings: seq<Time>, k: nat, t: Time)
    requires PeriodicRun(interval, readings) && k < |readings|
    ensures var slot := Fire(Periodic(interval), readings[..k + 1]);
            slot.Some? && slot.value >= readings[0] + (k + 1) * interval
            && (slot.value <= t ==> k + 1 <= (t - readings[0]) / interval)
  {
    AnswerIsSlot(interval, readings, k);
    var m := SlotOf(interval, readings, k);
    FirstSlot(interval, readings);
    if k > 0 {
      SlotsIncrease(interval, readings, 0, k);
    }
    if k + 1 < m {
      MultipleOrder(k + 1, m, interval);
    }
    if SlotInstant(interval, readings, m) <= t {
      MultipleWithinIff(k + 1, t - readings[0], interval);
    }
  }

  /** A slot of a periodic schedule that is past a multiple is at the next one or later. */
  lemma SlotPastMultiple(anchor: Time, interval: Duration, after: Time, k: nat)
    requires interval > 0 && k * interval <= after - anchor < LastMultiple(interval)
    ensures anchor + (k + 1) * interval <= PeriodicSlot(anchor, interval, after)
  {
    MultipleAtLeastFactor(k, interval);
    SlotWithinRange(anchor, interval, after);
    var m := (after - anchor) / interval;
    MultipleWithinIff(k, after - anchor, interval);
    if k < m {
      MultipleOrder(k + 1, m + 1, interval);
    }
  }

  /** The j-th answer of a `PeriodicAt(first, i)` is at first + (j - 1) * i or later. */
  lemma {:induction false} PeriodicAtRate(first: Time, interval: Duration, readings: seq<Time>, k: nat)
    requires interval > 0 && k < |readings| && NonDecreasing(readings)
    requires Causal(PeriodicAt(first, interval), readings)
    requires readings[|readings| - 1] - first < LastMultiple(interval)
    ensures var slot := Fire(PeriodicAt(first, interval), readings[..k + 1]);
            slot.Some? && slot.value >= first + k * interval
  {
    PeriodicAtState(first, interval, readings[..k]);
    assert readings[..k + 1][..k] == readings[..k];
    var t := readings[k];
    if k > 0 {
      PeriodicAtRate(first, interval, readings, k - 1);
      MultipleAtLeastFactor(k - 1, interval);
      SlotPastMultiple(first, interval, t, k - 1);
    } else if t >= first {
      SlotPastMultiple(first, interval, t, 0);
    }
  }
}

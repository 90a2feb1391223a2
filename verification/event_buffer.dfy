/**
 The sampled operation events kept in a ring (RecordOperationEvent, shouldSample,
 ResetInsights and snapshotInsightEventsLocked in internal/stats/insights.go).
 */
module EventBuffer {
  predicate ShouldSample(n: nat, permille: int) { permille >= 1000 || (permille > 0 && n % 1000 < permille) }

  /** How many of the n operations after the first from are sampled. */
  function SampledAmong(from: nat, n: nat, permille: int): nat
  {
    if n == 0 then 0
    else SampledAmong(from, n - 1, permille) + if ShouldSample(from + n, permille) then 1 else 0
  }

  lemma {:induction false} SampledUpTo(n: nat, permille: nat)
    requires permille < 1000
    ensures SampledAmong(0, n, permille)
        == (n + 1) / 1000 * permille + (if (n + 1) % 1000 < permille then (n + 1) % 1000 else permille)
                                            - (if permille > 0 then 1 else 0)
  {
    if n > 0 {
      SampledUpTo(n - 1, permille);
      if (n + 1) % 1000 == 0 {
        assert (n + 1) / 1000 == n / 1000 + 1 && n % 1000 == 999;
        assert (n / 1000 + 1) * permille == n / 1000 * permille + permille;
      } else {
        assert (n + 1) / 1000 == n / 1000 && (n + 1) % 1000 == n % 1000 + 1;
      }
    }
  }

  lemma {:induction false} SampledSplit(from: nat, n: nat, permille: int)
    ensures SampledAmong(0, from + n, permille) == SampledAmong(0, from, permille) + SampledAmong(from, n, permille)
  {
    if n > 0 {
      SampledSplit(from, n - 1, permille);
    }
  }

  lemma {:induction false} AllOrNone(from: nat, n: nat, permille: int)
    requires permille >= 1000 || permille <= 0
    ensures SampledAmong(from, n, permille) == if permille > 0 then n else 0
  {
    if n > 0 {
      AllOrNone(from, n - 1, permille);
    }
  }

  /** Of any 1000 operations in a row exactly permille are sampled. */
  lemma SamplesPermille(from: nat, permille: int)
    ensures SampledAmong(from, 1000, permille) == if permille <= 0 then 0 else if permille >= 1000 then 1000
        else permille
  {
    if 0 < permille < 1000 {
      SampledSplit(from, 1000, permille);
      SampledUpTo(from, permille);
      SampledUpTo(from + 1000, permille);
      NextThousand(from + 1);
      OneMore((from + 1) / 1000, permille);
    } else {
      AllOrNone(from, 1000, permille);
    }
  }

  lemma NextThousand(n: nat)
    ensures (n + 1000) / 1000 == n / 1000 + 1 && (n + 1000) % 1000 == n % 1000
  {
  }

  lemma OneMore(q: nat, permille: int)
    ensures (q + 1) * permille == q * permille + permille
  {
  }

  // ----------------------------------------------------------------------- the ring

  /** The place of the i-th event of all, and of the next one. */
  lemma PlaceOf(total: nat, count: nat, i: nat, size: nat)
    requires size > 0 && count <= size && count <= total && i < count
    ensures var start := total % size - count;
            ((if start < 0 then start + size else start) + i) % size == (total - count + i) % size
  {
    var q, r := total / size, total % size;
    assert total == size * q + r;
    if r >= count {
      Periodic(r - count + i, q, size);
    } else {
      assert size * (q - 1) == size * q - size;
      Periodic(r - count + size + i, q - 1, size);
    }
  }

  /** One more event of the last count of a log. */
  lemma NextOfTail<T>(log: seq<T>, count: nat, i: nat)
    requires i < count <= |log|
    ensures log[|log| - count..][..i + 1] == log[|log| - count..][..i] + [log[|log| - count + i]]
  {
  }

  lemma Periodic(x: nat, q: int, size: nat)
    requires size > 0 && size * q + x >= 0
    ensures (size * q + x) % size == x % size
  {
    var y := size * q + x;
    assert y == size * (q + x / size) + x % size;
    Remainder(y, q + x / size, x % size, size);
  }

  lemma Remainder(y: int, q: int, r: nat, size: nat)
    requires r < size && y == size * q + r
    ensures y % size == r
  {
    assert y == size * (y / size) + y % size;
    Multiple(size, q - y / size);
  }

  lemma Multiple(size: int, t: int)
    ensures size > 0 && t >= 1 ==> size * t >= size
    ensures size > 0 && t <= -1 ==> size * t <= -size
  {
  }

  /** Two places of one window of at most size events are different. */
  lemma PlacesDiffer(i: nat, j: nat, size: nat)
    requires i < j < i + size
    ensures i % size != j % size
  {
    assert i == size * (i / size) + i % size && j == size * (j / size) + j % size;
    Multiple(size, j / size - i / size);
  }

  class Ring<T(0)> {
    const maxEvents: nat
    const permille: int
    var events: array<T>
    var write: nat
    var count: nat
    var eligible: nat
    var sampledIn: nat
    /** Every event sampled since the last reset. */
    ghost var log: seq<T>

    ghost predicate Valid()
      reads this, events
    {
      && events.Length == maxEvents && sampledIn == |log| && (maxEvents == 0 ==> log == [])
      && count == (if |log| < maxEvents then |log| else maxEvents)
      && (maxEvents > 0 ==> write == |log| % maxEvents)
      && forall i :: |log| - count <= i < |log| ==> events[i % maxEvents] == log[i]
    }

    constructor (maxEvents: nat, permille: int)
      ensures Valid() && fresh(events) && this.maxEvents == maxEvents && this.permille == permille && log == []
          && eligible == 0
    {
      this.maxEvents, this.permille := maxEvents, permille;
      events := new T[maxEvents];
      write, count, eligible, sampledIn, log := 0, 0, 0, 0, [];
    }

    /** The buffer's part of RecordOperationEvent. */
    method Record(ev: T)
      requires Valid()
      modifies this, events
      ensures Valid() && events == old(events)
      ensures eligible == if maxEvents == 0 then old(eligible) else old(eligible) + 1
      ensures log == if maxEvents > 0 && ShouldSample(old(eligible) + 1, permille) then old(log) + [ev] else old(log)
    {
      if maxEvents == 0 {
        return;
      }
      eligible := eligible + 1;
      if !ShouldSample(eligible, permille) {
        return;
      }
      sampledIn := sampledIn + 1;
      ghost var n := |log|;
      forall i | n + 1 - maxEvents <= i < n && i >= 0
        ensures i % maxEvents != n % maxEvents
      {
        PlacesDiffer(i, n, maxEvents);
      }
      NextPlace(n, maxEvents);
      events[write] := ev;
      write := (write + 1) % maxEvents;
      log := log + [ev];
      if count < maxEvents {
        count := count + 1;
      }
    }

    method Reset()
      requires Valid()
      modifies this
      ensures Valid() && events == old(events) && log == [] && eligible == 0
    {
      write, count, eligible, sampledIn, log := 0, 0, 0, 0, [];
    }

    /** The last maxEvents sampled events, oldest first. */
    method Snapshot() returns (out: seq<T>)
      requires Valid()
      ensures out == log[|log| - count..] && count == if |log| < maxEvents then |log| else maxEvents
    {
      out := [];
      if count == 0 {
        return;
      }
      var start := write - count;
      if start < 0 {
        start := start + maxEvents;
      }
      for i := 0 to count
        invariant out == log[|log| - count..][..i]
      {
        Place(start, i);
        NextOfTail(log, count, i);
        out := out + [events[(start + i) % maxEvents]];
      }
    }

    /** The i-th place of the snapshot holds the i-th of the last events. */
    lemma Place(start: int, i: nat)
      requires Valid() && i < count && start == if write < count then write - count + maxEvents else write - count
      ensures 0 <= (start + i) % maxEvents < events.Length
      ensures events[(start + i) % maxEvents] == log[|log| - count + i]
    {
      PlaceOf(|log|, count, i, maxEvents);
      InRange(start + i, maxEvents);
    }
  }

  lemma InRange(x: int, size: nat)
    requires size > 0
    ensures 0 <= x % size < size
  {
  }

  lemma NextPlace(n: nat, size: nat)
    requires size > 0
    ensures (n % size + 1) % size == (n + 1) % size
  {
    var q, r := n / size, n % size;
    assert n == size * q + r;
    Periodic(r + 1, q, size);
  }
}

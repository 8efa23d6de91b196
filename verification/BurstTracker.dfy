/** The crashloop circuit breaker: a ring of the latest launch times. Times and
    durations are integers (nanoseconds); the clock is passed in. */
module BurstTracker {

  /** The last n entries of a history, or all of it. */
  function LastOf(history: seq<int>, n: nat): seq<int> {
    if |history| <= n then history else history[|history| - n..]
  }

  function CountSince(times: seq<int>, cutoff: int): nat {
    if times == [] then 0 else (if times[0] >= cutoff then 1 else 0) + CountSince(times[1..], cutoff)
  }

  lemma {:induction false} CountSinceConcat(a: seq<int>, b: seq<int>, cutoff: int)
    ensures CountSince(a + b, cutoff) == CountSince(a, cutoff) + CountSince(b, cutoff)
  {
    if a == [] {
      assert a + b == b;
    } else {
      assert (a + b)[1..] == a[1..] + b;
      CountSinceConcat(a[1..], b, cutoff);
    }
  }

  ghost predicate NonDecreasing(times: seq<int>) {
    forall i, j :: 0 <= i <= j < |times| ==> times[i] <= times[j]
  }

  /** The last max launches all fall within the window that ends now. */
  predicate Bursting(history: seq<int>, max: nat, window: int, now: int)
    requires max >= 1
  {
    |history| >= max && now - history[|history| - max] <= window
  }

  lemma {:induction false} CountBounded(times: seq<int>, cutoff: int)
    ensures CountSince(times, cutoff) <= |times|
    ensures CountSince(times, cutoff) == |times| <==> forall i :: 0 <= i < |times| ==> times[i] >= cutoff
  {
    if times == [] {
    } else {
      CountBounded(times[1..], cutoff);
      assert forall i :: 1 <= i < |times| ==> times[i] == times[1..][i - 1];
      if forall i :: 0 <= i < |times[1..]| ==> times[1..][i] >= cutoff {
        forall i | 1 <= i < |times|
          ensures times[i] >= cutoff
        {
          assert times[1..][i - 1] >= cutoff;
        }
      }
    }
  }

  /** On a non-decreasing clock the breaker trips exactly when the count is full. */
  lemma {:induction false} BurstingIffCountFull(history: seq<int>, max: nat, window: int, now: int)
    requires max >= 1 && NonDecreasing(history)
    ensures Bursting(history, max, window, now) <==> CountSince(LastOf(history, max), now - window) == max
  {
    CountBounded(LastOf(history, max), now - window);
    if |history| >= max {
      assert LastOf(history, max) == history[|history| - max..];
      assert LastOf(history, max)[0] == history[|history| - max];
    }
  }

  /** The ring contents, read from the oldest slot on, are the last max launches. */
  ghost predicate Represents(ring: seq<int>, idx: nat, filled: nat, max: nat, history: seq<int>) {
    && |ring| == max && idx < max
    && filled == |LastOf(history, max)|
    && (if filled < max then idx == filled && ring[..filled] == history
        else ring[idx..] + ring[..idx] == LastOf(history, max))
  }

  class Tracker {
    const max: nat
    const window: int
    const ring: array<int>
    var idx: nat
    var filled: nat
    ghost var history: seq<int>   // every recorded launch, oldest first

    ghost predicate Valid()
      reads this, ring
    {
      ring.Length == max && Represents(ring[..], idx, filled, max, history)
    }

    constructor (max: int, window: int)
      ensures Valid() && fresh(ring) && history == []
      ensures this.max == (if max < 1 then 1 else max) && this.window == window
    {
      var m: nat := if max < 1 then 1 else max;
      this.max := m;
      this.window := window;
      ring := new int[m](_ => 0);
      idx, filled, history := 0, 0, [];
    }

    method Record(now: int)
      requires Valid()
      modifies this`idx, this`filled, this`history, ring
      ensures Valid() && history == old(history) + [now]
    {
      RingRecord(ring[..], idx, filled, max, history, now);
      ghost var written := ring[..][idx := now];
      ring[idx] := now;
      assert ring[..] == written;
      idx := (idx + 1) % max;
      if filled < max {
        filled := filled + 1;
      }
      history := history + [now];
    }

    method Exceeded(now: int) returns (r: bool)
      requires Valid()
      ensures r == Bursting(history, max, window, now)
    {
      if filled < max {
        return false;
      }
      var oldest := ring[idx];
      assert oldest == (ring[..][idx..] + ring[..][..idx])[0];
      r := now - oldest <= window;
    }

    method Count(now: int) returns (n: nat)
      requires Valid()
      ensures n == CountSince(LastOf(history, max), now - window)
    {
      var cutoff := now - window;
      n := 0;
      for i := 0 to filled
        invariant n == CountSince(ring[..i], cutoff)
      {
        assert ring[..i + 1] == ring[..i] + [ring[i]];
        CountSinceConcat(ring[..i], [ring[i]], cutoff);
        if ring[i] >= cutoff {
          n := n + 1;
        }
      }
      assert ring[..filled] == ring[..][..filled];
      CountInAnyOrder(ring[..], idx, filled, max, history, cutoff);
    }
  }

  /** Counting in slot order counts the same as counting from the oldest on. */
  lemma {:induction false} CountInAnyOrder(
      ring: seq<int>, idx: nat, filled: nat, max: nat, history: seq<int>, cutoff: int)
    requires Represents(ring, idx, filled, max, history)
    ensures CountSince(ring[..filled], cutoff) == CountSince(LastOf(history, max), cutoff)
  {
    if filled == max {
      CountSinceConcat(ring[idx..], ring[..idx], cutoff);
      CountSinceConcat(ring[..idx], ring[idx..], cutoff);
      assert ring[..filled] == ring[..idx] + ring[idx..];
    }
  }

  lemma {:induction false} NextSlot(idx: nat, max: nat)
    requires idx < max
    ensures (idx + 1) % max == if idx + 1 == max then 0 else idx + 1
  {
  }

  /** Overwriting the oldest slot and moving past it drops the oldest of max entries, if
      there are that many, and appends the new one. */
  lemma {:induction false} RingRecord(ring: seq<int>, idx: nat, filled: nat, max: nat, history: seq<int>, x: int)
    requires Represents(ring, idx, filled, max, history)
    ensures Represents(ring[idx := x], (idx + 1) % max, if filled < max then filled + 1 else filled, max, history + [x])
  {
    NextSlot(idx, max);
    if filled == max {
      RingRotate(ring, idx, x);
    }
  }

  lemma {:induction false} RingRotate(ring: seq<int>, idx: nat, x: int)
    requires idx < |ring|
    ensures var next, written := if idx + 1 == |ring| then 0 else idx + 1, ring[idx := x];
      written[next..] + written[..next] == (ring[idx..] + ring[..idx])[1..] + [x]
  {
    var next, written := if idx + 1 == |ring| then 0 else idx + 1, ring[idx := x];
    var before := ring[idx..] + ring[..idx];
    if idx + 1 < |ring| {
      assert written[next..] == ring[next..];
      assert written[..next] == ring[..idx] + [x];
      assert before[1..] == ring[next..] + ring[..idx];
    } else {
      assert written == ring[..idx] + [x];
      assert before[1..] == ring[..idx];
    }
  }
}

// The sliding-window rate limiter (src/risk/rate_limiter.rs). Instants are whole nanoseconds
// of a clock that never goes back.
module RateLimiting {
  datatype Window = Window(maxRequests: nat, duration: nat) {
    // Requests stop at 80 % of the limit.
    function Threshold(): int {
      (maxRequests as real * 0.8).Floor
    }
  }

  datatype Limits = Limits(burst: Window, sustained: Window)

  const SECOND := 1_000_000_000

  const ORDER_SUBMISSION := Limits(Window(3_500, 10 * SECOND), Window(36_000, 600 * SECOND))
  const ORDER_CANCELLATION := Limits(Window(3_000, 10 * SECOND), Window(30_000, 600 * SECOND))

  // How many entries at the back are not older than the cutoff.
  function Recent(stamps: seq<int>, cutoff: int): nat {
    if stamps == [] || stamps[|stamps| - 1] < cutoff then 0
    else 1 + Recent(stamps[..|stamps| - 1], cutoff)
  }

  predicate WouldExceed(limits: Limits, stamps: seq<int>, now: int) {
    || Recent(stamps, now - limits.burst.duration) >= limits.burst.Threshold()
    || |stamps| >= limits.sustained.Threshold()
  }

  function Pruned(stamps: seq<int>, cutoff: int): seq<int> {
    if stamps != [] && stamps[0] < cutoff then Pruned(stamps[1..], cutoff) else stamps
  }

  function Acquired(limits: Limits, stamps: seq<int>, now: int): seq<int> {
    Pruned(stamps + [now], now - limits.sustained.duration)
  }

  class RateLimiter {
    const limits: Limits
    var timestamps: seq<int>

    constructor (limits: Limits)
      ensures this.limits == limits && timestamps == []
    {
      this.limits := limits;
      timestamps := [];
    }

    method Exceeds(now: int) returns (exceeds: bool)
      ensures exceeds == WouldExceed(limits, timestamps, now)
    {
      var burstCutoff := now - limits.burst.duration;
      var burstCount := 0;
      var i := |timestamps|;
      assert timestamps[..i] == timestamps;
      while i > 0 && timestamps[i - 1] >= burstCutoff
        invariant 0 <= i <= |timestamps|
        invariant burstCount + Recent(timestamps[..i], burstCutoff) == Recent(timestamps, burstCutoff)
      {
        assert timestamps[..i][..i - 1] == timestamps[..i - 1];
        i := i - 1;
        burstCount := burstCount + 1;
      }
      if burstCount >= limits.burst.Threshold() {
        return true;
      }
      var sustainedCount := |timestamps|;
      exceeds := sustainedCount >= limits.sustained.Threshold();
    }

    method Check(now: int) returns (allowed: bool)
      ensures allowed == !WouldExceed(limits, timestamps, now)
    {
      var exceeds := Exceeds(now);
      allowed := !exceeds;
    }

    method TryAcquire(now: int) returns (allowed: bool)
      modifies this
      ensures allowed == !WouldExceed(limits, old(timestamps), now)
      ensures timestamps == if allowed then Acquired(limits, old(timestamps), now) else old(timestamps)
    {
      var exceeds := Exceeds(now);
      if exceeds {
        return false;
      }
      timestamps := timestamps + [now];
      ghost var recorded := timestamps;
      var cutoff := now - limits.sustained.duration;
      while timestamps != [] && timestamps[0] < cutoff
        invariant Pruned(timestamps, cutoff) == Pruned(recorded, cutoff)
        decreases |timestamps|
      {
        timestamps := timestamps[1..];
      }
      allowed := true;
    }
  }

  // ---- the whole history ----------------------------------------------------------------------

  // The deque after calls at the given times, and every instant ever granted, pruned or not.
  datatype History = History(stamps: seq<int>, granted: seq<int>)

  function Run(limits: Limits, times: seq<int>): History {
    if times == [] then History([], [])
    else
      var h := Run(limits, times[..|times| - 1]);
      var now := times[|times| - 1];
      if WouldExceed(limits, h.stamps, now) then h
      else History(Acquired(limits, h.stamps, now), h.granted + [now])
  }

  ghost predicate NonDecreasing(times: seq<int>) {
    forall i, j :: 0 <= i <= j < |times| ==> times[i] <= times[j]
  }

  // Entries of a closed window.
  function Within(stamps: seq<int>, lo: int, hi: int): nat {
    if stamps == [] then 0
    else
      Within(stamps[..|stamps| - 1], lo, hi)
      + if lo <= stamps[|stamps| - 1] <= hi then 1 else 0
  }

  // The deque is the tail of the history; all that was dropped is out of the sustained window
  // of the last grant, and thus of every later call.
  ghost predicate Kept(limits: Limits, h: History, now: int) {
    && |h.stamps| <= |h.granted|
    && h.stamps == h.granted[|h.granted| - |h.stamps|..]
    && NonDecreasing(h.granted)
    && (forall i :: 0 <= i < |h.granted| ==> h.granted[i] <= now)
    && (forall i :: 0 <= i < |h.granted| - |h.stamps| ==> h.granted[i] < now - limits.sustained.duration)
  }

  lemma {:induction false} PrunedTail(stamps: seq<int>, cutoff: int)
    requires NonDecreasing(stamps)
    ensures var tail := Pruned(stamps, cutoff);
            && |tail| <= |stamps|
            && tail == stamps[|stamps| - |tail|..]
            && forall i :: 0 <= i < |stamps| - |tail| ==> stamps[i] < cutoff
  {
    if stamps != [] && stamps[0] < cutoff {
      PrunedTail(stamps[1..], cutoff);
      var tail := Pruned(stamps, cutoff);
      forall i | 0 <= i < |stamps| - |tail| ensures stamps[i] < cutoff {
        if i > 0 {
          assert stamps[1..][i - 1] == stamps[i];
        }
      }
    }
  }

  lemma {:induction false} RunKeeps(limits: Limits, times: seq<int>, now: int)
    requires NonDecreasing(times)
    requires forall i :: 0 <= i < |times| ==> times[i] <= now
    ensures Kept(limits, Run(limits, times), now)
  {
    if times != [] {
      var n := |times| - 1;
      RunKeeps(limits, times[..n], times[n]);
      var h := Run(limits, times[..n]);
      if !WouldExceed(limits, h.stamps, times[n]) {
        GrantKeeps(limits, h, times[n]);
      }
      KeptLater(limits, Run(limits, times), times[n], now);
    }
  }

  lemma KeptLater(limits: Limits, h: History, t: int, now: int)
    requires Kept(limits, h, t) && t <= now
    ensures Kept(limits, h, now)
  {
  }

  lemma SuffixOrdered(times: seq<int>, k: nat)
    requires NonDecreasing(times) && k <= |times|
    ensures NonDecreasing(times[k..])
  {
  }

  lemma GrantOrdered(times: seq<int>, now: int)
    requires NonDecreasing(times) && forall i :: 0 <= i < |times| ==> times[i] <= now
    ensures NonDecreasing(times + [now])
  {
  }

  lemma GrantKeeps(limits: Limits, h: History, now: int)
    requires Kept(limits, h, now)
    ensures Kept(limits, History(Acquired(limits, h.stamps, now), h.granted + [now]), now)
  {
    var all, longer := h.granted + [now], h.stamps + [now];
    var dropped := |h.granted| - |h.stamps|;
    var cutoff := now - limits.sustained.duration;
    assert longer == all[dropped..];
    GrantOrdered(h.granted, now);
    SuffixOrdered(all, dropped);
    PrunedTail(longer, cutoff);
    hide NonDecreasing;
    var tail := Pruned(longer, cutoff);
    assert tail == all[|all| - |tail|..];
    forall i | 0 <= i < |all| - |tail| ensures all[i] < cutoff {
      if i < dropped {
        assert all[i] == h.granted[i];
      } else {
        assert longer[i - dropped] == all[i];
      }
    }
  }

  // Counting the deque from its back counts exactly the grants since the cutoff: none of them
  // is hidden behind an older one, and none was lost to pruning.
  lemma {:induction false} RecentCountsAll(stamps: seq<int>, granted: seq<int>, cutoff: int, hi: int)
    requires NonDecreasing(granted) && |stamps| <= |granted| && stamps == granted[|granted| - |stamps|..]
    requires forall i :: 0 <= i < |granted| - |stamps| ==> granted[i] < cutoff
    requires forall i :: 0 <= i < |granted| ==> granted[i] <= hi
    ensures Within(granted, cutoff, hi) == Recent(stamps, cutoff)
    ensures Recent(stamps, cutoff) <= |stamps|
  {
    if granted != [] {
      var n := |granted| - 1;
      if granted[n] < cutoff {
        NothingWithin(granted, cutoff, hi);
      } else {
        assert stamps[|stamps| - 1] == granted[n];
        RecentCountsAll(stamps[..|stamps| - 1], granted[..n], cutoff, hi);
      }
    }
  }

  lemma {:induction false} NothingWithin(stamps: seq<int>, lo: int, hi: int)
    requires forall i :: 0 <= i < |stamps| ==> stamps[i] < lo
    ensures Within(stamps, lo, hi) == 0
  {
    if stamps != [] {
      NothingWithin(stamps[..|stamps| - 1], lo, hi);
    }
  }

  lemma {:induction false} NarrowerWindow(stamps: seq<int>, lo: int, hi: int, lo': int, hi': int)
    requires lo' <= lo && hi <= hi'
    ensures Within(stamps, lo, hi) <= Within(stamps, lo', hi')
  {
    if stamps != [] {
      NarrowerWindow(stamps[..|stamps| - 1], lo, hi, lo', hi');
    }
  }

  // One more grant keeps every window within its threshold: the windows that see it are full
  // of entries the limiter has just counted.
  lemma GrantFits(granted: seq<int>, now: int, duration: nat, threshold: int, lo: int)
    requires Within(granted, lo, lo + duration) <= threshold
    requires Within(granted, now - duration, now) < threshold
    requires forall i :: 0 <= i < |granted| ==> granted[i] <= now
    ensures Within(granted + [now], lo, lo + duration) <= threshold
  {
    assert (granted + [now])[..|granted|] == granted;
    if lo <= now <= lo + duration {
      UpTo(granted, lo, lo + duration, now);
      NarrowerWindow(granted, lo, now, now - duration, now);
    }
  }

  lemma {:induction false} UpTo(stamps: seq<int>, lo: int, hi: int, now: int)
    requires now <= hi && forall i :: 0 <= i < |stamps| ==> stamps[i] <= now
    ensures Within(stamps, lo, hi) == Within(stamps, lo, now)
  {
    if stamps != [] {
      UpTo(stamps[..|stamps| - 1], lo, hi, now);
    }
  }

  ghost predicate ProperLimits(limits: Limits) {
    && limits.burst.duration <= limits.sustained.duration
    && limits.burst.Threshold() >= 0
    && limits.sustained.Threshold() >= 0
  }

  lemma BothLimitersProper()
    ensures ProperLimits(ORDER_SUBMISSION) && ProperLimits(ORDER_CANCELLATION)
    ensures ORDER_SUBMISSION.burst.Threshold() == 2_800 && ORDER_SUBMISSION.sustained.Threshold() == 28_800
    ensures ORDER_CANCELLATION.burst.Threshold() == 2_400 && ORDER_CANCELLATION.sustained.Threshold() == 24_000
  {
  }

  lemma WindowsExactly()
    ensures ORDER_SUBMISSION == Limits(Window(3_500, 10_000_000_000), Window(36_000, 600_000_000_000))
    ensures ORDER_CANCELLATION == Limits(Window(3_000, 10_000_000_000), Window(30_000, 600_000_000_000))
  {
  }

  // Over the entire history, every closed window of the burst length holds at most the burst
  // threshold of grants, and every one of the sustained length at most the sustained threshold.
  lemma {:induction false} WindowsNeverOverflow(limits: Limits, times: seq<int>, lo: int)
    requires ProperLimits(limits) && NonDecreasing(times)
    ensures var granted := Run(limits, times).granted;
            && Within(granted, lo, lo + limits.burst.duration) <= limits.burst.Threshold()
            && Within(granted, lo, lo + limits.sustained.duration) <= limits.sustained.Threshold()
  {
    hide Window.Threshold;
    if times != [] {
      var n := |times| - 1;
      var now := times[n];
      var h := Run(limits, times[..n]);
      WindowsNeverOverflow(limits, times[..n], lo);
      RunKeeps(limits, times[..n], now);
      if !WouldExceed(limits, h.stamps, now) {
        GrantNeverOverflows(limits, h, now, lo);
      }
    }
  }

  lemma GrantNeverOverflows(limits: Limits, h: History, now: int, lo: int)
    requires ProperLimits(limits) && Kept(limits, h, now) && !WouldExceed(limits, h.stamps, now)
    requires Within(h.granted, lo, lo + limits.burst.duration) <= limits.burst.Threshold()
    requires Within(h.granted, lo, lo + limits.sustained.duration) <= limits.sustained.Threshold()
    ensures var granted := h.granted + [now];
            && Within(granted, lo, lo + limits.burst.duration) <= limits.burst.Threshold()
            && Within(granted, lo, lo + limits.sustained.duration) <= limits.sustained.Threshold()
  {
    hide Window.Threshold, Within;
    RecentCountsAll(h.stamps, h.granted, now - limits.burst.duration, now);
    RecentCountsAll(h.stamps, h.granted, now - limits.sustained.duration, now);
    GrantFits(h.granted, now, limits.burst.duration, limits.burst.Threshold(), lo);
    GrantFits(h.granted, now, limits.sustained.duration, limits.sustained.Threshold(), lo);
  }

  // ---- recovery ---------------------------------------------------------------------------------

  // Entries are pruned only by a grant, so a pause clears the burst window but not the
  // sustained one: after any pause longer than both, a call is granted if and only if the deque
  // was not full before it.
  lemma RecoversUnlessFull(limits: Limits, stamps: seq<int>, now: int)
    requires limits.burst.Threshold() > 0
    requires stamps != [] ==> stamps[|stamps| - 1] < now - limits.burst.duration
    ensures WouldExceed(limits, stamps, now) <==> |stamps| >= limits.sustained.Threshold()
  {
    hide Window.Threshold;
  }

  // And once full it stays full, whenever it is called again.
  lemma {:induction false} FullForever(limits: Limits, times: seq<int>, more: seq<int>)
    requires |Run(limits, times).stamps| >= limits.sustained.Threshold()
    ensures Run(limits, times + more) == Run(limits, times)
  {
    if more == [] {
      assert times + more == times;
    } else {
      var n := |more| - 1;
      assert (times + more)[..|times + more| - 1] == times + more[..n];
      FullForever(limits, times, more[..n]);
    }
  }

  // ---- an order every 20 milliseconds ---------------------------------------------------------------

  const PERIOD := 20_000_000

  function Steady(n: nat): seq<int> {
    seq(n, i requires 0 <= i < n => i * PERIOD)
  }

  lemma SteadyNext(n: nat)
    ensures Steady(n + 1) == Steady(n) + [n * PERIOD]
    ensures Steady(n + 1)[..n] == Steady(n)
  {
  }

  // At most 500 of the earlier orders lie in the burst window of the next.
  lemma {:induction false} SteadyRecent(n: nat, cutoff: int)
    ensures Recent(Steady(n), cutoff) <= n
    ensures Recent(Steady(n), cutoff) > 0 ==> (n - Recent(Steady(n), cutoff)) * PERIOD >= cutoff
  {
    if n > 0 {
      SteadyNext(n - 1);
      SteadyRecent(n - 1, cutoff);
    }
  }

  // Up to the sustained threshold all of them are granted, and none is pruned: the 28800 orders
  // take less than the ten minutes of the window.
  lemma {:induction false} SteadyFills(n: nat)
    requires n <= 28_800
    ensures Run(ORDER_SUBMISSION, Steady(n)) == History(Steady(n), Steady(n))
  {
    hide WouldExceed, Acquired;
    if n > 0 {
      SteadyNext(n - 1);
      SteadyFills(n - 1);
      SteadyAllowed(n - 1);
      SteadyKept(n - 1);
    }
  }

  lemma SteadyAllowed(n: nat)
    requires n < 28_800
    ensures !WouldExceed(ORDER_SUBMISSION, Steady(n), n * PERIOD)
  {
    SteadyRecent(n, n * PERIOD - ORDER_SUBMISSION.burst.duration);
    BothLimitersProper();
    hide Window.Threshold, Recent;
  }

  lemma SteadyKept(n: nat)
    requires n < 28_800
    ensures Acquired(ORDER_SUBMISSION, Steady(n), n * PERIOD) == Steady(n) + [n * PERIOD]
  {
    SteadyNext(n);
    assert Steady(n + 1)[0] == 0;
  }

  // So the lockout is reached: after 28800 orders in under ten minutes, far from any burst, no
  // order is ever granted again, at whatever times it is tried.
  lemma SteadyOrdersLockOut(more: seq<int>)
    ensures Run(ORDER_SUBMISSION, Steady(28_800) + more) == History(Steady(28_800), Steady(28_800))
  {
    SteadyFills(28_800);
    BothLimitersProper();
    FullForever(ORDER_SUBMISSION, Steady(28_800), more);
  }

  // ---- exactly when a call is granted ---------------------------------------------------------------

  // Grants within the sustained window of the last one, which are those the deque still holds.
  function SinceLastGrant(limits: Limits, granted: seq<int>): nat {
    if granted == [] then 0
    else
      var last := granted[|granted| - 1];
      Within(granted, last - limits.sustained.duration, last)
  }

  lemma {:induction false} PrunedFront(stamps: seq<int>, cutoff: int)
    ensures Pruned(stamps, cutoff) != [] ==> Pruned(stamps, cutoff)[0] >= cutoff
  {
    if stamps != [] && stamps[0] < cutoff {
      PrunedFront(stamps[1..], cutoff);
    }
  }

  lemma {:induction false} AllRecent(stamps: seq<int>, cutoff: int)
    requires forall i :: 0 <= i < |stamps| ==> stamps[i] >= cutoff
    ensures Recent(stamps, cutoff) == |stamps|
  {
    if stamps != [] {
      AllRecent(stamps[..|stamps| - 1], cutoff);
    }
  }

  // The deque holds exactly the grants within the sustained window of the last one.
  ghost predicate Holds(limits: Limits, h: History) {
    && |h.stamps| == SinceLastGrant(limits, h.granted)
    && (h.granted == [] ==> h.stamps == [])
  }

  lemma {:induction false} RunHolds(limits: Limits, times: seq<int>)
    requires NonDecreasing(times)
    ensures Holds(limits, Run(limits, times))
  {
    if times != [] {
      var n := |times| - 1;
      var now, h := times[n], Run(limits, times[..n]);
      RunHolds(limits, times[..n]);
      RunKeeps(limits, times[..n], now);
      if !WouldExceed(limits, h.stamps, now) {
        GrantHolds(limits, h, now);
      }
    }
  }

  lemma GrantHolds(limits: Limits, h: History, now: int)
    requires Kept(limits, h, now)
    ensures Holds(limits, History(Acquired(limits, h.stamps, now), h.granted + [now]))
  {
    var all, stamps := h.granted + [now], Acquired(limits, h.stamps, now);
    var cutoff := now - limits.sustained.duration;
    GrantKeeps(limits, h, now);
    PrunedFront(h.stamps + [now], cutoff);
    SuffixOrdered(all, |all| - |stamps|);
    FromFront(stamps, cutoff);
    RecentCountsAll(stamps, all, cutoff, now);
    hide Within, Recent, NonDecreasing;
  }

  lemma FromFront(stamps: seq<int>, cutoff: int)
    requires NonDecreasing(stamps) && (stamps != [] ==> stamps[0] >= cutoff)
    ensures Recent(stamps, cutoff) == |stamps|
  {
    AllRecent(stamps, cutoff);
  }

  // In terms of the grants alone: fewer than the burst threshold in the burst window up to the
  // call, and fewer than the sustained threshold in the sustained window up to the last grant.
  predicate MayGrant(limits: Limits, granted: seq<int>, now: int) {
    && Within(granted, now - limits.burst.duration, now) < limits.burst.Threshold()
    && SinceLastGrant(limits, granted) < limits.sustained.Threshold()
  }

  lemma RefusedExactly(limits: Limits, h: History, now: int)
    requires limits.burst.duration <= limits.sustained.duration && Kept(limits, h, now) && Holds(limits, h)
    ensures WouldExceed(limits, h.stamps, now) <==> !MayGrant(limits, h.granted, now)
  {
    RecentCountsAll(h.stamps, h.granted, now - limits.burst.duration, now);
    hide Window.Threshold, Within, Recent, SinceLastGrant;
  }

  lemma GrantedExactly(limits: Limits, times: seq<int>, now: int)
    requires ProperLimits(limits) && NonDecreasing(times)
    requires forall i :: 0 <= i < |times| ==> times[i] <= now
    ensures var granted := Run(limits, times).granted;
            Run(limits, times + [now]).granted == if MayGrant(limits, granted, now) then granted + [now] else granted
  {
    assert (times + [now])[..|times|] == times;
    RunKeeps(limits, times, now);
    RunHolds(limits, times);
    RefusedExactly(limits, Run(limits, times), now);
    hide WouldExceed, MayGrant, Kept, Holds;
  }

  // The thresholds are four fifths of the limits, rounded down.
  lemma ThresholdExactly(window: Window)
    ensures 5 * window.Threshold() <= 4 * window.maxRequests < 5 * (window.Threshold() + 1)
  {
  }
}

/**
  The pruned lists of the rate limiter against the full history of admitted
  calls, over every sequence of calls by every DID.
 */
module RateHistory {
  import opened Common
  import opened RateLimiter

  /** One `check_rate_limit` with its two clock readings. */
  datatype Call = Call(did: string, now: Time, cleanNow: Time)

  function Run(calls: seq<Call>): State {
    if calls == [] then EMPTY
    else
      var c := calls[|calls| - 1];
      Checked(Run(calls[..|calls| - 1]), c.did, c.now, c.cleanNow)
  }

  predicate Allowed(calls: seq<Call>, c: Call) {
    Admits(Run(calls), c.did, c.now, c.cleanNow)
  }

  /** The timestamps of all admitted calls of one DID, oldest call first, nothing ever pruned. */
  function History(calls: seq<Call>, did: string): seq<Time> {
    if calls == [] then []
    else
      var init, c := calls[..|calls| - 1], calls[|calls| - 1];
      if c.did == did && Allowed(init, c) then History(init, did) + [c.now] else History(init, did)
  }

  /** How many timestamps lie in the half-open window [lo, hi). */
  function Count(ts: seq<Time>, lo: real, hi: real): nat {
    if ts == [] then 0
    else Count(ts[..|ts| - 1], lo, hi) + if lo <= ts[|ts| - 1] < hi then 1 else 0
  }

  /** No reading used so far exceeds `limit`. */
  ghost predicate ReadingsUpTo(calls: seq<Call>, limit: real) {
    forall m | 0 <= m < |calls| :: calls[m].now <= limit && calls[m].cleanNow <= limit
  }

  /**
    No reading used before a call compares exceeds that call's `now` by more than `d`:
    neither an earlier call's readings nor the call's own cleanup reading.
   */
  ghost predicate SkewAtMost(calls: seq<Call>, d: real) {
    && (forall k | 0 <= k < |calls| :: calls[k].cleanNow <= calls[k].now + d)
    && (forall i, k | 0 <= i < k < |calls| :: calls[i].now <= calls[k].now + d && calls[i].cleanNow <= calls[k].now + d)
  }

  lemma RunSnoc(calls: seq<Call>, c: Call)
    ensures Run(calls + [c]) == Checked(Run(calls), c.did, c.now, c.cleanNow)
    ensures forall did :: History(calls + [c], did) ==
                          if c.did == did && Allowed(calls, c) then History(calls, did) + [c.now]
                          else History(calls, did)
  {
    assert (calls + [c])[..|calls|] == calls;
  }

  // ---- Prune and Count ----

  lemma PruneSnoc(ts: seq<Time>, t: Time, cutoff: real)
    ensures Prune(ts + [t], cutoff) == if t > cutoff then Prune(ts, cutoff) + [t] else Prune(ts, cutoff)
  {
    assert (ts + [t])[..|ts|] == ts;
  }

  /** Pruning twice is pruning once with the later cutoff. */
  lemma {:induction false} PruneTwice(ts: seq<Time>, a: real, b: real)
    ensures Prune(Prune(ts, a), b) == Prune(ts, if a < b then b else a)
  {
    if ts != [] {
      var init, t := ts[..|ts| - 1], ts[|ts| - 1];
      PruneTwice(init, a, b);
      PruneSnoc(Prune(init, a), t, b);
    }
  }

  lemma {:induction false} PruneShrinks(ts: seq<Time>, a: real, b: real)
    requires a <= b
    ensures |Prune(ts, b)| <= |Prune(ts, a)| <= |ts|
  {
    if ts != [] {
      PruneShrinks(ts[..|ts| - 1], a, b);
    }
  }

  /** A window above the cutoff holds the same timestamps after pruning. */
  lemma {:induction false} CountPruned(ts: seq<Time>, cutoff: real, lo: real, hi: real)
    requires cutoff < lo
    ensures Count(Prune(ts, cutoff), lo, hi) == Count(ts, lo, hi) <= |Prune(ts, cutoff)|
  {
    if ts != [] {
      var init, t := ts[..|ts| - 1], ts[|ts| - 1];
      CountPruned(init, cutoff, lo, hi);
      CountSnoc(Prune(init, cutoff), t, lo, hi);
    }
  }

  lemma CountSnoc(ts: seq<Time>, t: Time, lo: real, hi: real)
    ensures Count(ts + [t], lo, hi) == Count(ts, lo, hi) + if lo <= t < hi then 1 else 0
  {
    assert (ts + [t])[..|ts|] == ts;
  }

  lemma {:induction false} CountNarrower(ts: seq<Time>, lo: real, hi: real, hi': real)
    requires hi <= hi'
    ensures Count(ts, lo, hi) <= Count(ts, lo, hi')
  {
    if ts != [] {
      CountNarrower(ts[..|ts| - 1], lo, hi, hi');
    }
  }

  // ---- The lists against the history ----

  /** What one call does to the stored list of `did`. */
  lemma ListStep(s: State, c: Call, did: string)
    ensures var kept := if CleanupDue(s, c.cleanNow) then Prune(TimestampsOf(s, did), c.cleanNow - 60.0)
                        else TimestampsOf(s, did);
            && TimestampsOf(Cleaned(s, c.cleanNow), did) == kept
            && TimestampsOf(Checked(s, c.did, c.now, c.cleanNow), did) ==
               if c.did != did then kept
               else if Admits(s, did, c.now, c.cleanNow) then Prune(kept, c.now - 60.0) + [c.now]
               else Prune(kept, c.now - 60.0)
  {
  }

  lemma CleanupAboveCutoff(s: State, did: string, cleanNow: Time, cutoff: real)
    requires cleanNow <= cutoff + 60.0
    ensures Prune(TimestampsOf(Cleaned(s, cleanNow), did), cutoff) == Prune(TimestampsOf(s, did), cutoff)
  {
    PruneTwice(TimestampsOf(s, did), cleanNow - 60.0, cutoff);
  }

  /** Above the cutoffs that a call uses, the call only adds its own timestamp. */
  lemma AboveCutoffs(s: State, c: Call, did: string, cutoff: real)
    requires c.now <= cutoff + 60.0 && c.cleanNow <= cutoff + 60.0
    ensures Prune(TimestampsOf(Checked(s, c.did, c.now, c.cleanNow), did), cutoff) ==
            if c.did == did && Admits(s, did, c.now, c.cleanNow) && c.now > cutoff
            then Prune(TimestampsOf(s, did), cutoff) + [c.now]
            else Prune(TimestampsOf(s, did), cutoff)
  {
    ListStep(s, c, did);
    hide Prune, Checked, Cleaned, TimestampsOf, Admits;
    var kept := TimestampsOf(Cleaned(s, c.cleanNow), did);
    CleanupAboveCutoff(s, did, c.cleanNow, cutoff);
    PruneTwice(kept, c.now - 60.0, cutoff);
    PruneSnoc(Prune(kept, c.now - 60.0), c.now, cutoff);
  }

  /** Above every cutoff used so far, the stored list and the history hold the same timestamps. */
  lemma {:induction false} ListCoversHistory(calls: seq<Call>, did: string, cutoff: real)
    requires ReadingsUpTo(calls, cutoff + 60.0)
    ensures Prune(TimestampsOf(Run(calls), did), cutoff) == Prune(History(calls, did), cutoff)
  {
    if calls != [] {
      var init, c := calls[..|calls| - 1], calls[|calls| - 1];
      ListCoversHistory(init, did, cutoff);
      AboveCutoffs(Run(init), c, did, cutoff);
      PruneSnoc(History(init, did), c.now, cutoff);
    }
  }

  lemma PruneAfterPrune(ts: seq<Time>, a: real, b: real)
    ensures |Prune(Prune(ts, a), b)| <= |Prune(ts, b)|
  {
    PruneTwice(ts, a, b);
    PruneShrinks(ts, b, if a < b then b else a);
  }

  /** Whatever the readings, one call adds at most its own timestamp to what a cutoff counts. */
  lemma AtMostOneMore(s: State, c: Call, did: string, cutoff: real)
    ensures |Prune(TimestampsOf(Checked(s, c.did, c.now, c.cleanNow), did), cutoff)| <=
            |Prune(TimestampsOf(s, did), cutoff)|
            + if c.did == did && Admits(s, did, c.now, c.cleanNow) && c.now > cutoff then 1 else 0
    ensures |Prune(TimestampsOf(Cleaned(s, c.cleanNow), did), cutoff)| <= |Prune(TimestampsOf(s, did), cutoff)|
  {
    ListStep(s, c, did);
    hide Prune, Checked, Cleaned, TimestampsOf, Admits;
    var kept := TimestampsOf(Cleaned(s, c.cleanNow), did);
    PruneAfterPrune(TimestampsOf(s, did), c.cleanNow - 60.0, cutoff);
    PruneAfterPrune(kept, c.now - 60.0, cutoff);
    PruneSnoc(Prune(kept, c.now - 60.0), c.now, cutoff);
  }

  /** Whatever the readings, the stored list never counts more than the history does. */
  lemma {:induction false} ListBelowHistory(calls: seq<Call>, did: string, cutoff: real)
    ensures |Prune(TimestampsOf(Run(calls), did), cutoff)| <= |Prune(History(calls, did), cutoff)|
  {
    if calls != [] {
      var init, c := calls[..|calls| - 1], calls[|calls| - 1];
      ListBelowHistory(init, did, cutoff);
      AtMostOneMore(Run(init), c, did, cutoff);
      PruneSnoc(History(init, did), c.now, cutoff);
    }
  }

  // ---- The admission bound ----

  /** If the list agrees with the history above the cutoff now + d - 60, its count bounds the window. */
  lemma FewInWindow(h: seq<Time>, kept: seq<Time>, now: Time, d: real, lo: real)
    requires 0.0 <= d && now + d - 60.0 < lo
    requires Prune(kept, now + d - 60.0) == Prune(h, now + d - 60.0)
    ensures Count(h, lo, lo + 60.0 - d) <= |Prune(kept, now - 60.0)|
  {
    CountPruned(h, now + d - 60.0, lo, lo + 60.0 - d);
    PruneShrinks(kept, now - 60.0, now + d - 60.0);
  }

  /** An admitted call finds fewer than 200 admissions in any window that still reaches it. */
  lemma RoomInWindow(calls: seq<Call>, c: Call, d: real, lo: real)
    requires 0.0 <= d && ReadingsUpTo(calls, c.now + d) && c.cleanNow <= c.now + d
    requires Allowed(calls, c) && c.now < lo + 60.0 - d
    ensures Count(History(calls, c.did), lo, lo + 60.0 - d) < 200
  {
    hide Prune, Run, History, Count, Cleaned, TimestampsOf;
    var cutoff := c.now + d - 60.0;
    var kept := TimestampsOf(Cleaned(Run(calls), c.cleanNow), c.did);
    assert Prune(kept, cutoff) == Prune(History(calls, c.did), cutoff) by {
      ListCoversHistory(calls, c.did, cutoff);
      CleanupAboveCutoff(Run(calls), c.did, c.cleanNow, cutoff);
    }
    FewInWindow(History(calls, c.did), kept, c.now, d, lo);
  }

  /**
    If no reading runs ahead of a later comparison by more than `d` seconds, every
    half-open window of length 60 - d holds at most 200 admitted calls of a DID,
    wherever the window starts.
   */
  lemma {:induction false} WindowBound(calls: seq<Call>, did: string, d: real, lo: real)
    requires 0.0 <= d && SkewAtMost(calls, d)
    ensures Count(History(calls, did), lo, lo + 60.0 - d) <= 200
  {
    if calls != [] {
      var init, c := calls[..|calls| - 1], calls[|calls| - 1];
      var hi := lo + 60.0 - d;
      WindowBound(init, did, d, lo);
      CountSnoc(History(init, did), c.now, lo, hi);
      if c.did == did && Allowed(init, c) && c.now < hi {
        RoomInWindow(init, c, d, lo);
      }
    }
  }

  // ---- The bound is exact ----

  /** `n` calls of `did` in the same instant `at`. */
  function Burst(did: string, at: Time, n: nat): seq<Call> {
    seq(n, _ => Call(did, at, at))
  }

  function Repeat(t: Time, n: nat): seq<Time> {
    seq(n, _ => t)
  }

  lemma OneLonger(did: string, t: Time, n: nat)
    ensures Burst(did, t, n + 1) == Burst(did, t, n) + [Call(did, t, t)] && Burst(did, t, 0) == []
    ensures Repeat(t, n + 1) == Repeat(t, n) + [t] && Repeat(t, 0) == [] && |Repeat(t, n)| == n
  {
  }

  /** After any run whose cleanup is recent and whose timestamps are old, a burst of up to 200 calls is admitted. */
  lemma {:induction false} BurstAdmitsAll(pre: seq<Call>, did: string, at: Time, n: nat)
    requires n <= 200 && at < Run(pre).lastCleanup + 120.0
    requires Prune(TimestampsOf(Run(pre), did), at - 60.0) == []
    ensures Run(pre + Burst(did, at, n)).lastCleanup == Run(pre).lastCleanup
    ensures Prune(TimestampsOf(Run(pre + Burst(did, at, n)), did), at - 60.0) == Repeat(at, n)
    ensures n > 0 ==> TimestampsOf(Run(pre + Burst(did, at, n)), did) == Repeat(at, n)
    ensures History(pre + Burst(did, at, n), did) == History(pre, did) + Repeat(at, n)
  {
    hide Run, History, Prune, Burst, Repeat, TimestampsOf, Admits;
    if n == 0 {
      OneLonger(did, at, 0);
      assert pre + [] == pre && History(pre, did) + [] == History(pre, did);
    } else {
      BurstAdmitsAll(pre, did, at, n - 1);
      OneLonger(did, at, n - 1);
      var init, c := pre + Burst(did, at, n - 1), Call(did, at, at);
      assert pre + Burst(did, at, n) == init + [c];
      CallInBurst(init, c, n - 1);
      assert History(pre, did) + Repeat(at, n - 1) + [at] == History(pre, did) + Repeat(at, n);
    }
  }

  /** One more call of a burst, when `n` are counted. */
  lemma CallInBurst(calls: seq<Call>, c: Call, n: nat)
    requires n < 200 && c.cleanNow == c.now < Run(calls).lastCleanup + 120.0
    requires Prune(TimestampsOf(Run(calls), c.did), c.now - 60.0) == Repeat(c.now, n)
    ensures Run(calls + [c]).lastCleanup == Run(calls).lastCleanup
    ensures TimestampsOf(Run(calls + [c]), c.did) == Repeat(c.now, n + 1)
    ensures Prune(TimestampsOf(Run(calls + [c]), c.did), c.now - 60.0) == Repeat(c.now, n + 1)
    ensures History(calls + [c], c.did) == History(calls, c.did) + [c.now]
  {
    hide Run, History, Prune, Repeat, TimestampsOf, Checked, Cleaned, InWindow, Burst;
    RunSnoc(calls, c);
    ListStep(Run(calls), c, c.did);
    WindowWithoutCleanup(Run(calls), c.did, c.now);
    CleanupStep(Run(calls), c);
    OneLonger(c.did, c.now, n);
    KeptAlone(c.now, n + 1, c.now - 60.0);
  }

  lemma WindowWithoutCleanup(s: State, did: string, now: Time)
    requires !CleanupDue(s, now)
    ensures InWindow(s, did, now, now) == Prune(TimestampsOf(s, did), now - 60.0)
  {
  }

  /** A call changes the time of the last cleanup only if one is due. */
  lemma CleanupStep(s: State, c: Call)
    ensures Checked(s, c.did, c.now, c.cleanNow).lastCleanup
         == if CleanupDue(s, c.cleanNow) then c.cleanNow else s.lastCleanup
  {
  }

  lemma KeptAlone(t: Time, n: nat, cutoff: real)
    ensures Prune(Repeat(t, n), cutoff) == if t > cutoff then Repeat(t, n) else []
  {
    AllKept([], t, n, cutoff);
    hide Repeat;
    assert [] + Repeat(t, n) == Repeat(t, n);
    assert Prune([], cutoff) == [];
  }

  lemma RepeatAfter(h: seq<Time>, t: Time, n: nat)
    ensures h + Repeat(t, 0) == h && h + Repeat(t, n + 1) == h + Repeat(t, n) + [t]
  {
    OneLonger("", t, n);
    hide Repeat;
  }

  lemma {:induction false} AllKept(h: seq<Time>, t: Time, n: nat, cutoff: real)
    ensures Prune(h + Repeat(t, n), cutoff) == Prune(h, cutoff) + if t > cutoff then Repeat(t, n) else []
  {
    hide Prune, Repeat;
    if n == 0 {
      RepeatAfter(h, t, 0);
      RepeatAfter(Prune(h, cutoff), t, 0);
      assert Prune(h, cutoff) + [] == Prune(h, cutoff);
    } else {
      AllKept(h, t, n - 1, cutoff);
      RepeatAfter(h, t, n - 1);
      RepeatAfter(Prune(h, cutoff), t, n - 1);
      PruneSnoc(h + Repeat(t, n - 1), t, cutoff);
    }
  }

  lemma {:induction false} CountAll(h: seq<Time>, t: Time, n: nat, lo: real, hi: real)
    requires lo <= t < hi
    ensures Count(h + Repeat(t, n), lo, hi) == Count(h, lo, hi) + n
  {
    hide Count, Repeat;
    if n == 0 {
      RepeatAfter(h, t, 0);
    } else {
      CountAll(h, t, n - 1, lo, hi);
      RepeatAfter(h, t, n - 1);
      CountSnoc(h + Repeat(t, n - 1), t, lo, hi);
    }
  }

  /**
    A first call at the origin `o` of the clock, which sets the cleanup time, and 200
    calls 100 seconds later.
   */
  function OpeningBurst(did: string, o: Time): seq<Call> {
    [Call(did, o, o)] + Burst(did, o + 100.0, 200)
  }

  lemma OpeningAdmitsAll(did: string, o: Time)
    requires o >= 120.0
    ensures Run(OpeningBurst(did, o)).lastCleanup == o
    ensures TimestampsOf(Run(OpeningBurst(did, o)), did) == Repeat(o + 100.0, 200)
    ensures History(OpeningBurst(did, o), did) == [o] + Repeat(o + 100.0, 200)
  {
    hide Run, History, Prune, Burst, Repeat, TimestampsOf, Count, Checked, InWindow;
    FirstCall(did, o);
    BurstAdmitsAll([Call(did, o, o)], did, o + 100.0, 200);
  }

  lemma FirstCall(did: string, o: Time)
    requires o >= 120.0
    ensures Run([Call(did, o, o)]).lastCleanup == o && History([Call(did, o, o)], did) == [o]
    ensures Prune(TimestampsOf(Run([Call(did, o, o)]), did), o + 100.0 - 60.0) == []
  {
    var first := Call(did, o, o);
    RunSnoc([], first);
    assert [] + [first] == [first] && [] + [o] == [o];
    ListStep(EMPTY, first, did);
    assert InWindow(EMPTY, did, o, o) == [];
    PruneSnoc([], o, o + 40.0);
  }

  /** 60 seconds after the burst a call whose cleanup reads the clock on time, and which itself read it `d` earlier. */
  function OverfullRun(did: string, d: real, o: Time): seq<Call>
    requires 0.0 <= d <= 60.0
  {
    OpeningBurst(did, o) + [Call(did, o + 160.0 - d, o + 160.0)]
  }

  /**
    Wherever the clock starts, that run has skew `d`, and any window longer than 60 - d
    that starts with the burst holds 201 admissions.
   */
  lemma OverfullWindow(did: string, d: real, w: real, o: Time)
    requires 0.0 <= d <= 60.0 < w + d && o >= 120.0
    ensures SkewAtMost(OverfullRun(did, d, o), d)
    ensures Count(History(OverfullRun(did, d, o), did), o + 100.0, o + 100.0 + w) == 200 + 1
  {
    var calls, c := OpeningBurst(did, o), Call(did, o + 160.0 - d, o + 160.0);
    OverfullSkew(did, d, o);
    hide Run, History, OpeningBurst, Repeat, TimestampsOf, Count, SkewAtMost;
    OpeningAdmitsAll(did, o);
    LateCallIsAdmitted(calls, c, o);
    OpeningCounted(o, w);
    CountSnoc(History(calls, did), c.now, o + 100.0, o + 100.0 + w);
  }

  lemma OverfullSkew(did: string, d: real, o: Time)
    requires 0.0 <= d <= 60.0
    ensures SkewAtMost(OverfullRun(did, d, o), d)
  {
  }

  lemma OpeningCounted(o: Time, w: real)
    requires w > 0.0
    ensures Count([o] + Repeat(o + 100.0, 200), o + 100.0, o + 100.0 + w) == 200
  {
    CountAll([o], o + 100.0, 200, o + 100.0, o + 100.0 + w);
    CountSnoc([], o, o + 100.0, o + 100.0 + w);
    assert [] + [o] == [o];
  }

  /** The cleanup at o + 160 is due and takes the whole burst away. */
  lemma LateCallIsAdmitted(calls: seq<Call>, c: Call, o: Time)
    requires Run(calls).lastCleanup == o && c.cleanNow == o + 160.0
    requires TimestampsOf(Run(calls), c.did) == Repeat(o + 100.0, 200)
    ensures History(calls + [c], c.did) == History(calls, c.did) + [c.now]
  {
    RunSnoc(calls, c);
    ListStep(Run(calls), c, c.did);
    KeptAlone(o + 100.0, 200, o + 100.0);
    hide Run, History, Repeat, TimestampsOf, Cleaned;
    assert InWindow(Run(calls), c.did, c.now, c.cleanNow) == [];
  }

  ghost predicate WithinLimit(calls: seq<Call>, did: string, lo: real, w: real) {
    Count(History(calls, did), lo, lo + w) <= 200
  }

  /** Every run of skew at most `d` keeps every window of length `w` within the limit. */
  ghost predicate LimitHolds(d: real, w: real) {
    forall calls, did, lo :: SkewAtMost(calls, d) ==> WithinLimit(calls, did, lo, w)
  }

  lemma LongerWindowFails(d: real, w: real)
    requires 0.0 <= d <= 60.0 < w + d
    ensures !LimitHolds(d, w)
  {
    hide OverfullRun, History, Count, SkewAtMost;
    OverfullWindow("", d, w, 120.0);
    assert !WithinLimit(OverfullRun("", d, 120.0), "", 120.0 + 100.0, w);
  }

  /** 60 - d seconds is exactly how long a window the limiter protects; with d = 0, the full minute. */
  lemma ProtectedWindow(d: real, w: real)
    requires 0.0 <= d <= 60.0
    ensures LimitHolds(d, w) <==> w <= 60.0 - d
  {
    if w <= 60.0 - d {
      forall calls, did, lo | SkewAtMost(calls, d)
        ensures WithinLimit(calls, did, lo, w)
      {
        WindowBound(calls, did, d, lo);
        CountNarrower(History(calls, did), lo, lo + w, lo + 60.0 - d);
      }
    } else {
      LongerWindowFails(d, w);
    }
  }
}

/**
  The pruned lists against a limiter that keeps every admission for ever, over every
  run whose clock readings never go backwards. A call reads the clock twice, for
  itself and for the cleanup; where the two readings differ, it is the cleanup's that
  decides whenever a cleanup runs. Isolation and recovery hold up to that difference.
 */
module RateRefinement {
  import opened Common
  import opened RateLimiter
  import opened RateHistory

  /** Readings never go backwards: a call's own, then its cleanup's, then the next call's. */
  ghost predicate Ordered(calls: seq<Call>) {
    && (forall k | 0 <= k < |calls| :: calls[k].now <= calls[k].cleanNow)
    && (forall i, k | 0 <= i < k < |calls| :: calls[i].cleanNow <= calls[k].now)
  }

  /** How many admitted calls of the DID, in the whole history, are younger than a minute. */
  function RecentAdmissions(calls: seq<Call>, did: string, now: Time): nat {
    |Prune(History(calls, did), now - 60.0)|
  }

  /** The reading from which the call's minute is counted back: the cleanup's if a cleanup runs. */
  function Decisive(calls: seq<Call>, c: Call): Time {
    if c.cleanNow - Run(calls).lastCleanup >= 120.0 then c.cleanNow else c.now
  }

  lemma FiltersByAge(ts: seq<Time>, cutoff: real)
    ensures multiset(Prune(ts, cutoff)) <= multiset(ts)
    ensures forall t: Time :: t in Prune(ts, cutoff) <==> t in ts && t > cutoff
  {
    if ts != [] {
      var init, t := ts[..|ts| - 1], ts[|ts| - 1];
      FiltersByAge(init, cutoff);
      assert ts == init + [t];
    }
  }

  lemma EarlierReadings(calls: seq<Call>, c: Call)
    requires Ordered(calls + [c])
    ensures Ordered(calls) && ReadingsUpTo(calls, c.now) && c.now <= c.cleanNow
  {
    var all := calls + [c];
    assert all[|calls|] == c && forall k | 0 <= k < |calls| :: all[k] == calls[k];
  }

  /** What a call counts is the minute of its DID's whole history that ends at the decisive reading. */
  lemma WindowIsRecentHistory(calls: seq<Call>, c: Call)
    requires ReadingsUpTo(calls, c.now) && c.now <= c.cleanNow
    ensures InWindow(Run(calls), c.did, c.now, c.cleanNow)
         == Prune(History(calls, c.did), Decisive(calls, c) - 60.0)
  {
    var list, cutoff := TimestampsOf(Run(calls), c.did), Decisive(calls, c) - 60.0;
    ListStep(Run(calls), c, c.did);
    hide Prune, Run, History, TimestampsOf, Cleaned, Checked;
    if CleanupDue(Run(calls), c.cleanNow) {
      PruneTwice(list, c.cleanNow - 60.0, c.now - 60.0);
    }
    ListCoversHistory(calls, c.did, cutoff);
  }

  /** Each decision is "fewer than 200 admissions of this DID in the minute before the decisive reading". */
  lemma RefinesFullHistory(calls: seq<Call>, c: Call)
    requires Ordered(calls + [c])
    ensures Allowed(calls, c) <==> RecentAdmissions(calls, c.did, Decisive(calls, c)) < 200
  {
    hide Run, History, Prune, Decisive;
    EarlierReadings(calls, c);
    WindowIsRecentHistory(calls, c);
  }

  lemma RecentShrinks(calls: seq<Call>, did: string, now: Time, later: Time)
    requires now <= later
    ensures RecentAdmissions(calls, did, later) <= RecentAdmissions(calls, did, now)
  {
    PruneShrinks(History(calls, did), now - 60.0, later - 60.0);
  }

  /** No minute that ends at or after all readings so far ever holds more than 200 admissions. */
  lemma NeverOverfull(calls: seq<Call>, did: string, now: Time)
    requires ReadingsUpTo(calls, now)
    ensures RecentAdmissions(calls, did, now) <= 200
  {
    hide Run, History, Prune, TimestampsOf;
    ListCoversHistory(calls, did, now - 60.0);
    ListsAreBounded(calls, did);
    PruneShrinks(TimestampsOf(Run(calls), did), now - 60.0, now - 60.0);
  }

  /** `get_usage` reports the same count. */
  lemma UsageIsHistoryCount(calls: seq<Call>, did: string, now: Time)
    requires ReadingsUpTo(calls, now)
    ensures |Prune(TimestampsOf(Run(calls), did), now - 60.0)| == RecentAdmissions(calls, did, now)
  {
    ListCoversHistory(calls, did, now - 60.0);
  }

  /** Whatever the readings, the stored list is made of admitted timestamps, each used once. */
  lemma {:induction false} ListIsPartOfHistory(calls: seq<Call>, did: string)
    ensures multiset(TimestampsOf(Run(calls), did)) <= multiset(History(calls, did))
  {
    if calls != [] {
      var init, c := calls[..|calls| - 1], calls[|calls| - 1];
      ListIsPartOfHistory(init, did);
      ListStep(Run(init), c, did);
      FiltersByAge(TimestampsOf(Run(init), did), c.cleanNow - 60.0);
      FiltersByAge(TimestampsOf(Cleaned(Run(init), c.cleanNow), did), c.now - 60.0);
    }
  }

  // ---- Isolation ----

  function CallsOf(calls: seq<Call>, did: string): seq<Call> {
    if calls == [] then []
    else
      var init, c := calls[..|calls| - 1], calls[|calls| - 1];
      if c.did == did then CallsOf(init, did) + [c] else CallsOf(init, did)
  }

  lemma CallsOfSnoc(calls: seq<Call>, c: Call)
    ensures CallsOf(calls + [c], c.did) == CallsOf(calls, c.did) + [c]
  {
    assert (calls + [c])[..|calls|] == calls;
  }

  lemma {:induction false} CallsOfKeepsOrder(calls: seq<Call>, did: string)
    requires Ordered(calls)
    ensures Ordered(CallsOf(calls, did))
    ensures forall c | c in CallsOf(calls, did) :: c in calls
  {
    if calls != [] {
      var init := calls[..|calls| - 1];
      CallsOfKeepsOrder(init, did);
      assert calls == init + [calls[|init|]];
      if calls[|init|].did == did {
        OrderedSnoc(CallsOf(init, did), calls[|init|]);
      }
    }
  }

  lemma OrderedSnoc(calls: seq<Call>, c: Call)
    requires Ordered(calls) && c.now <= c.cleanNow && forall b | b in calls :: b.cleanNow <= c.now
    ensures Ordered(calls + [c])
  {
    assert forall i | 0 <= i < |calls| :: calls[i] in calls;
  }

  lemma PrefixOrdered(pre: seq<Call>, post: seq<Call>)
    requires Ordered(pre + post)
    ensures Ordered(pre)
  {
    var all := pre + post;
    assert forall k | 0 <= k < |pre| :: pre[k] == all[k];
  }

  /** A call that its DID's run alone, without the other DIDs, would decide. */
  predicate AllowedAlone(calls: seq<Call>, c: Call) {
    Allowed(CallsOf(calls, c.did), c)
  }

  /**
    The two readings disagree about this call, its minute being full at its own reading
    and no longer full at the cleanup's, and other DIDs' calls have moved the cleanup.
   */
  predicate Disputed(calls: seq<Call>, c: Call) {
    && RecentAdmissions(calls, c.did, c.now) == 200
    && RecentAdmissions(calls, c.did, c.cleanNow) < 200
    && CleanupDue(Run(calls), c.cleanNow) != CleanupDue(Run(CallsOf(calls, c.did)), c.cleanNow)
  }

  /** With the same history so far, other DIDs' calls change the decision exactly of a disputed call. */
  lemma DisputeChangesDecision(calls: seq<Call>, c: Call)
    requires Ordered(calls + [c]) && History(CallsOf(calls, c.did), c.did) == History(calls, c.did)
    ensures AllowedAlone(calls, c) != Allowed(calls, c) <==> Disputed(calls, c)
  {
    hide Run, History, Prune, Allowed, CallsOf;
    var own := CallsOf(calls, c.did);
    CallsOfSnoc(calls, c);
    CallsOfKeepsOrder(calls + [c], c.did);
    RefinesFullHistory(calls, c);
    RefinesFullHistory(own, c);
    EarlierReadings(calls, c);
    NeverOverfull(calls, c.did, c.now);
    RecentShrinks(calls, c.did, c.now, c.cleanNow);
  }

  /** Every call of the DID is decided as it would be without the other DIDs. */
  ghost predicate Isolated(calls: seq<Call>, did: string) {
    forall k | 0 <= k < |calls| && calls[k].did == did ::
      AllowedAlone(calls[..k], calls[k]) == Allowed(calls[..k], calls[k])
  }

  ghost predicate Undisputed(calls: seq<Call>, did: string) {
    forall k | 0 <= k < |calls| && calls[k].did == did :: !Disputed(calls[..k], calls[k])
  }

  lemma IsolatedPrefix(calls: seq<Call>, c: Call, did: string)
    ensures Isolated(calls + [c], did) <==>
            Isolated(calls, did) && (c.did == did ==> AllowedAlone(calls, c) == Allowed(calls, c))
    ensures Undisputed(calls + [c], did) <==> Undisputed(calls, did) && (c.did == did ==> !Disputed(calls, c))
  {
    hide AllowedAlone, Allowed, Disputed;
    var all := calls + [c];
    assert all[..|calls|] == calls && all[|calls|] == c;
    forall k | 0 <= k < |calls|
      ensures all[..k] == calls[..k] && all[k] == calls[k]
    {
    }
    if Isolated(all, did) {
      forall k | 0 <= k < |calls| && calls[k].did == did
        ensures AllowedAlone(calls[..k], calls[k]) == Allowed(calls[..k], calls[k])
      {
        assert AllowedAlone(all[..k], all[k]) == Allowed(all[..k], all[k]);
      }
    }
    if Undisputed(all, did) {
      forall k | 0 <= k < |calls| && calls[k].did == did
        ensures !Disputed(calls[..k], calls[k])
      {
        assert !Disputed(all[..k], all[k]);
      }
    }
  }

  /**
    Isolation, exactly: in a run with ordered readings, taking all other DIDs' calls
    away changes no decision of a DID if and only if none of its calls is disputed.
    The DID's admissions are then the same ones.
   */
  lemma {:induction false} OthersDoNotMatter(calls: seq<Call>, did: string)
    requires Ordered(calls)
    ensures Isolated(calls, did) <==> Undisputed(calls, did)
    ensures Isolated(calls, did) ==> History(CallsOf(calls, did), did) == History(calls, did)
  {
    if calls != [] {
      hide Isolated, Undisputed, Run, Disputed, Allowed, AllowedAlone, Ordered;
      var init, c := calls[..|calls| - 1], calls[|calls| - 1];
      assert calls == init + [c];
      PrefixOrdered(init, [c]);
      OthersDoNotMatter(init, did);
      IsolatedPrefix(init, c, did);
      if c.did == did && Isolated(init, did) {
        DisputeChangesDecision(init, c);
        CallsOfSnoc(init, c);
        RunSnoc(CallsOf(init, did), c);
      }
    }
  }

  /** The cleanup reads the clock at most `d` seconds after its call. */
  ghost predicate LagAtMost(calls: seq<Call>, d: real) {
    forall k | 0 <= k < |calls| :: calls[k].cleanNow - calls[k].now <= d
  }

  ghost predicate IsolationHolds(d: real) {
    forall calls, did :: Ordered(calls) && LagAtMost(calls, d) ==> Isolated(calls, did)
  }

  /** With a single reading per call nothing is disputed. */
  lemma OneReadingIsolates(calls: seq<Call>, did: string)
    requires Ordered(calls) && LagAtMost(calls, 0.0)
    ensures Isolated(calls, did)
  {
    hide Run, History, Prune, Isolated;
    OthersDoNotMatter(calls, did);
  }

  /** Bursts of "a" as above, a call of "b" at o + 130, and one of "a" at o + 160 - d with its cleanup at o + 160. */
  function NeighbourRun(d: real, o: Time): seq<Call>
    requires 0.0 < d <= 30.0
  {
    OpeningBurst("a", o) + [Call("b", o + 130.0, o + 130.0)] + [Call("a", o + 160.0 - d, o + 160.0)]
  }

  lemma NeighbourRunIsOrdered(d: real, o: Time)
    requires 0.0 < d <= 30.0
    ensures Ordered(NeighbourRun(d, o)) && LagAtMost(NeighbourRun(d, o), d)
  {
  }

  /** The call of "b" takes the cleanup at o + 130, so that none runs at o + 160. */
  lemma NeighbourDelaysCleanup(o: Time)
    requires o >= 120.0
    ensures var calls := OpeningBurst("a", o) + [Call("b", o + 130.0, o + 130.0)];
            && Run(calls).lastCleanup == o + 130.0
            && History(calls, "a") == [o] + Repeat(o + 100.0, 200)
            && CallsOf(calls, "a") == OpeningBurst("a", o)
  {
    var burst, b := OpeningBurst("a", o), Call("b", o + 130.0, o + 130.0);
    OpeningAdmitsAll("a", o);
    RunSnoc(burst, b);
    CleanupStep(Run(burst), b);
    assert (burst + [b])[..|burst|] == burst;
    OwnCallsOnly(burst, "a");
    hide Run, History, Checked;
  }

  lemma {:induction false} OwnCallsOnly(calls: seq<Call>, did: string)
    requires forall k | 0 <= k < |calls| :: calls[k].did == did
    ensures CallsOf(calls, did) == calls
  {
    if calls != [] {
      OwnCallsOnly(calls[..|calls| - 1], did);
      assert calls == calls[..|calls| - 1] + [calls[|calls| - 1]];
    }
  }

  /** What counts of the opening burst from a cutoff on. */
  lemma BurstCounted(o: Time, cutoff: real)
    requires o <= cutoff
    ensures |Prune([o] + Repeat(o + 100.0, 200), cutoff)|
         == if o + 100.0 > cutoff then 200 else 0
  {
    AllKept([o], o + 100.0, 200, cutoff);
    PruneSnoc([], o, cutoff);
    assert [] + [o] == [o];
  }

  /** Wherever the clock starts: the last call of "a" is turned away, and would be admitted if "b" had not called. */
  lemma NeighbourMatters(d: real, o: Time)
    requires 0.0 < d <= 30.0 && o >= 120.0
    ensures !Isolated(NeighbourRun(d, o), "a")
  {
    hide Run, History, Prune, CallsOf, Isolated, Undisputed, Ordered, OpeningBurst, Repeat, LagAtMost;
    var pre := OpeningBurst("a", o) + [Call("b", o + 130.0, o + 130.0)];
    var c := Call("a", o + 160.0 - d, o + 160.0);
    NeighbourRunIsOrdered(d, o);
    NeighbourDelaysCleanup(o);
    OpeningAdmitsAll("a", o);
    BurstCounted(o, c.now - 60.0);
    BurstCounted(o, c.cleanNow - 60.0);
    assert Disputed(pre, c);
    PrefixOrdered(pre, [c]);
    OthersDoNotMatter(pre + [c], "a");
    IsolatedPrefix(pre, c, "a");
  }

  /** Other DIDs are without influence in all runs if and only if cleanups never read the clock later than calls. */
  lemma IsolationExactly(d: real)
    ensures IsolationHolds(d) <==> d <= 0.0
  {
    if d <= 0.0 {
      forall calls, did | Ordered(calls) && LagAtMost(calls, d)
        ensures Isolated(calls, did)
      {
        assert LagAtMost(calls, 0.0);
        OneReadingIsolates(calls, did);
      }
    } else {
      var e := if d < 30.0 then d else 30.0;
      NeighbourMatters(e, 120.0);
      NeighbourRunIsOrdered(e, 120.0);
      assert LagAtMost(NeighbourRun(e, 120.0), d);
    }
  }

  // ---- Recovery ----

  ghost predicate Ascending(ts: seq<Time>) {
    forall i, k | 0 <= i < k < |ts| :: ts[i] <= ts[k]
  }

  ghost predicate AllAtMost(ts: seq<Time>, limit: Time) {
    forall i | 0 <= i < |ts| :: ts[i] <= limit
  }

  lemma {:induction false} PruneAscends(ts: seq<Time>, cutoff: real, limit: Time)
    requires Ascending(ts) && AllAtMost(ts, limit)
    ensures Ascending(Prune(ts, cutoff)) && AllAtMost(Prune(ts, cutoff), limit)
  {
    if ts != [] {
      PruneAscends(ts[..|ts| - 1], cutoff, ts[|ts| - 1]);
    }
  }

  lemma {:induction false} PruneKeepsAll(ts: seq<Time>, cutoff: real)
    requires forall i | 0 <= i < |ts| :: ts[i] > cutoff
    ensures Prune(ts, cutoff) == ts
  {
    if ts != [] {
      PruneKeepsAll(ts[..|ts| - 1], cutoff);
    }
  }

  lemma {:induction false} PruneDropsHead(ts: seq<Time>, cutoff: real)
    requires ts != [] && ts[0] <= cutoff
    ensures |Prune(ts, cutoff)| < |ts|
  {
    if |ts| > 1 {
      PruneDropsHead(ts[..|ts| - 1], cutoff);
    }
  }

  /** The calls' own readings never go backwards, whatever the cleanups read. */
  ghost predicate CallsAscend(calls: seq<Call>) {
    forall i, k | 0 <= i < k < |calls| :: calls[i].now <= calls[k].now
  }

  ghost predicate CalledUpTo(calls: seq<Call>, now: Time) {
    forall k | 0 <= k < |calls| :: calls[k].now <= now
  }

  lemma {:induction false} HistoryAscends(calls: seq<Call>, did: string, now: Time)
    requires CallsAscend(calls) && CalledUpTo(calls, now)
    ensures Ascending(History(calls, did))
    ensures AllAtMost(History(calls, did), now)
  {
    if calls != [] {
      var init, c := calls[..|calls| - 1], calls[|calls| - 1];
      HistoryAscends(init, did, c.now);
    }
  }

  /** No stored list ever exceeds 200 entries, whatever the clock does. */
  lemma {:induction false} ListsAreBounded(calls: seq<Call>, did: string)
    ensures |TimestampsOf(Run(calls), did)| <= 200
  {
    if calls != [] {
      var init, c := calls[..|calls| - 1], calls[|calls| - 1];
      ListsAreBounded(init, did);
      var list := TimestampsOf(Run(init), did);
      ListStep(Run(init), c, did);
      PruneShrinks(list, c.cleanNow - 60.0, c.cleanNow - 60.0);
      PruneShrinks(TimestampsOf(Cleaned(Run(init), c.cleanNow), did), c.now - 60.0, c.now - 60.0);
    }
  }

  /** Every stored list is in ascending order, whatever the cleanups read. */
  lemma {:induction false} ListsAscend(calls: seq<Call>, did: string, now: Time)
    requires CallsAscend(calls) && CalledUpTo(calls, now)
    ensures Ascending(TimestampsOf(Run(calls), did))
    ensures AllAtMost(TimestampsOf(Run(calls), did), now)
  {
    if calls != [] {
      var init, c := calls[..|calls| - 1], calls[|calls| - 1];
      ListsAscend(init, did, c.now);
      CheckAscends(Run(init), c, did, c.now);
    }
  }

  /** One call keeps a list in ascending order. */
  lemma CheckAscends(s: State, c: Call, did: string, now: Time)
    requires c.now <= now
    requires Ascending(TimestampsOf(s, did)) && AllAtMost(TimestampsOf(s, did), c.now)
    ensures var list := TimestampsOf(Checked(s, c.did, c.now, c.cleanNow), did);
            Ascending(list) && AllAtMost(list, now)
  {
    ListStep(s, c, did);
    hide Prune, Checked, Cleaned, TimestampsOf, Admits;
    var kept := TimestampsOf(Cleaned(s, c.cleanNow), did);
    PruneAscends(TimestampsOf(s, did), c.cleanNow - 60.0, c.now);
    PruneAscends(kept, c.now - 60.0, c.now);
  }

  /** A cleanup that runs keeps a DID exactly if it has a timestamp of the last minute, and then just those. */
  lemma CleanupLeavesLiveEntries(s: State, cleanNow: Time, did: string)
    requires CleanupDue(s, cleanNow)
    ensures did in Cleaned(s, cleanNow).requests <==>
            exists t: Time :: t in TimestampsOf(s, did) && t > cleanNow - 60.0
    ensures forall t: Time :: t in TimestampsOf(Cleaned(s, cleanNow), did) <==>
                        t in TimestampsOf(s, did) && t > cleanNow - 60.0
  {
    var kept := Prune(TimestampsOf(s, did), cleanNow - 60.0);
    FiltersByAge(TimestampsOf(s, did), cleanNow - 60.0);
    assert kept != [] ==> kept[0] in kept;
  }

  /** The oldest timestamp that counted against a denied call. */
  function OldestCounted(calls: seq<Call>, denied: Call): Time
    requires !Allowed(calls, denied)
  {
    InWindow(Run(calls), denied.did, denied.now, denied.cleanNow)[0]
  }

  /** A denied call, then calls that bring its DID no admission, then another call of the DID. */
  ghost predicate Retried(calls: seq<Call>, denied: Call, between: seq<Call>, retry: Call) {
    && Ordered(calls + [denied] + between + [retry])
    && !Allowed(calls, denied) && retry.did == denied.did
    && History(calls + [denied] + between, denied.did) == History(calls, denied.did)
  }

  lemma RetryIsLater(calls: seq<Call>, denied: Call, between: seq<Call>, retry: Call)
    requires Ordered(calls + [denied] + between + [retry])
    ensures Ordered(calls + [denied]) && Ordered(calls + [denied] + between) && denied.cleanNow <= retry.now
  {
    var all := calls + [denied] + between + [retry];
    assert all == (calls + [denied]) + (between + [retry]);
    PrefixOrdered(calls + [denied], between + [retry]);
    PrefixOrdered(calls + [denied] + between, [retry]);
    assert all[|calls|] == denied && all[|all| - 1] == retry;
  }

  /**
    A denied DID that gets nothing admitted meanwhile is admitted again exactly from
    its oldest counted timestamp + 60 seconds on, by the reading that decides the
    retry, whatever others do in between; hence at the latest when its own reading
    gets there, and never before the cleanup's reading does.
   */
  lemma RecoversExactly(calls: seq<Call>, denied: Call, between: seq<Call>, retry: Call)
    requires Retried(calls, denied, between, retry)
    ensures var later, back := calls + [denied] + between, OldestCounted(calls, denied) + 60.0;
            && (Allowed(later, retry) <==> Decisive(later, retry) >= back)
            && (retry.now >= back ==> Allowed(later, retry))
            && (Allowed(later, retry) ==> retry.cleanNow >= back)
  {
    hide Run, History, Prune, Ordered;
    var later := calls + [denied] + between;
    RetryIsLater(calls, denied, between, retry);
    DeniedWindowIsFull(calls, denied);
    EarlierReadings(calls, denied);
    EarlierReadings(later, retry);
    WindowIsRecentHistory(calls, denied);
    RoomAgain(History(calls, denied.did), Decisive(calls, denied), Decisive(later, retry));
    RefinesFullHistory(later, retry);
  }

  ghost predicate RecoversOnTime(calls: seq<Call>, denied: Call, between: seq<Call>, retry: Call)
    requires !Allowed(calls, denied)
  {
    Allowed(calls + [denied] + between, retry) <==> retry.now >= OldestCounted(calls, denied) + 60.0
  }

  /** Whether the retry's own reading says when it is admitted, in all runs of lag at most `d`. */
  ghost predicate RecoveryHolds(d: real) {
    forall calls, denied, between, retry ::
      Retried(calls, denied, between, retry) && LagAtMost(calls + [denied] + between + [retry], d)
      ==> RecoversOnTime(calls, denied, between, retry)
  }

  /** A retry that a due cleanup decides, 60 seconds after the burst, is early by its own reading. */
  lemma DueCleanupRecovers(calls: seq<Call>, denied: Call, retry: Call, o: Time)
    requires Retried(calls, denied, [], retry) && Run(calls + [denied]).lastCleanup == o
    requires OldestCounted(calls, denied) == o + 100.0 && retry.now < retry.cleanNow == o + 160.0
    ensures Allowed(calls + [denied] + [], retry) && retry.now < OldestCounted(calls, denied) + 60.0
  {
    hide Run, History, Ordered, LagAtMost, Allowed, OldestCounted;
    RecoversExactly(calls, denied, [], retry);
    assert calls + [denied] + [] == calls + [denied];
  }

  /**
    Wherever the clock starts: after the opening burst a call denied at o + 110, and a
    retry at o + 160 - d whose cleanup reads o + 160.
   */
  lemma EarlyRecovery(d: real, o: Time) returns (calls: seq<Call>, denied: Call, retry: Call)
    requires 0.0 < d <= 30.0 && o >= 120.0
    ensures calls == OpeningBurst("a", o) && denied == Call("a", o + 110.0, o + 110.0)
    ensures retry == Call("a", o + 160.0 - d, o + 160.0)
    ensures Retried(calls, denied, [], retry) && LagAtMost(calls + [denied] + [] + [retry], d)
    ensures Allowed(calls + [denied] + [], retry)
    ensures retry.now < OldestCounted(calls, denied) + 60.0
  {
    hide Run, History, OpeningBurst, Ordered, LagAtMost, Allowed, OldestCounted, Retried;
    calls, denied := OpeningBurst("a", o), Call("a", o + 110.0, o + 110.0);
    retry := Call("a", o + 160.0 - d, o + 160.0);
    BurstIsFull(o);
    BurstRetried(d, o);
    DueCleanupRecovers(calls, denied, retry, o);
  }

  lemma BurstRetried(d: real, o: Time)
    requires 0.0 < d <= 30.0 && o >= 120.0
    ensures var calls, denied := OpeningBurst("a", o), Call("a", o + 110.0, o + 110.0);
            var retry := Call("a", o + 160.0 - d, o + 160.0);
            Retried(calls, denied, [], retry) && LagAtMost(calls + [denied] + [] + [retry], d)
  {
    hide Run, History, OpeningBurst, Ordered, LagAtMost, Allowed;
    var calls, denied := OpeningBurst("a", o), Call("a", o + 110.0, o + 110.0);
    BurstIsFull(o);
    BurstRunIsOrdered(d, o);
    RunSnoc(calls, denied);
    assert calls + [denied] + [] == calls + [denied];
  }

  lemma FirstOfRepeat(t: Time, n: nat)
    requires n > 0
    ensures |Repeat(t, n)| == n && Repeat(t, n)[0] == t
  {
  }

  lemma BurstIsFull(o: Time)
    requires o >= 120.0
    ensures var calls, denied := OpeningBurst("a", o), Call("a", o + 110.0, o + 110.0);
            && !Allowed(calls, denied) && OldestCounted(calls, denied) == o + 100.0
            && Run(calls + [denied]).lastCleanup == o
  {
    hide Run, History, Checked, OpeningBurst, Repeat, TimestampsOf, InWindow;
    var calls, denied := OpeningBurst("a", o), Call("a", o + 110.0, o + 110.0);
    FirstOfRepeat(o + 100.0, 200);
    OpeningAdmitsAll("a", o);
    BurstWindow(Run(calls), o);
    RunSnoc(calls, denied);
    CleanupStep(Run(calls), denied);
  }

  lemma BurstWindow(s: State, o: Time)
    requires s.lastCleanup == o && TimestampsOf(s, "a") == Repeat(o + 100.0, 200)
    ensures InWindow(s, "a", o + 110.0, o + 110.0) == Repeat(o + 100.0, 200)
  {
    hide Repeat, TimestampsOf, Prune, InWindow;
    WindowWithoutCleanup(s, "a", o + 110.0);
    KeptAlone(o + 100.0, 200, o + 110.0 - 60.0);
  }

  lemma BurstRunIsOrdered(d: real, o: Time)
    requires 0.0 < d <= 30.0
    ensures var calls, denied := OpeningBurst("a", o), Call("a", o + 110.0, o + 110.0);
            var all := calls + [denied] + [] + [Call("a", o + 160.0 - d, o + 160.0)];
            Ordered(all) && LagAtMost(all, d)
  {
  }

  /** A retry's own reading decides in all runs if and only if cleanups never read the clock later than calls. */
  lemma RecoveryExactly(d: real)
    ensures RecoveryHolds(d) <==> d <= 0.0
  {
    if d <= 0.0 {
      forall calls, denied, between, retry |
          Retried(calls, denied, between, retry) && LagAtMost(calls + [denied] + between + [retry], d)
        ensures RecoversOnTime(calls, denied, between, retry)
      {
        RecoversExactly(calls, denied, between, retry);
        var all := calls + [denied] + between + [retry];
        assert all[|all| - 1] == retry;
      }
    } else {
      var e := if d < 30.0 then d else 30.0;
      hide Run, History, OpeningBurst, OldestCounted, Allowed, Ordered;
      var calls, denied, retry := EarlyRecovery(e, 120.0);
      assert LagAtMost(calls + [denied] + [] + [retry], d);
      assert !RecoversOnTime(calls, denied, [], retry);
    }
  }

  /** A denied call's last minute holds exactly 200 admissions, by its own reading and by the decisive one. */
  lemma DeniedWindowIsFull(calls: seq<Call>, denied: Call)
    requires Ordered(calls + [denied]) && !Allowed(calls, denied)
    ensures RecentAdmissions(calls, denied.did, denied.now) == 200
    ensures RecentAdmissions(calls, denied.did, Decisive(calls, denied)) == 200
    ensures Ascending(Prune(History(calls, denied.did), Decisive(calls, denied) - 60.0))
  {
    hide Prune, Run, History, Allowed, Ascending;
    EarlierReadings(calls, denied);
    RefinesFullHistory(calls, denied);
    NeverOverfull(calls, denied.did, denied.now);
    RecentShrinks(calls, denied.did, denied.now, Decisive(calls, denied));
    HistoryAscends(calls, denied.did, denied.now);
    PruneAscends(History(calls, denied.did), Decisive(calls, denied) - 60.0, denied.now);
  }

  /** What a verdict says about the history, admitted or denied. */
  lemma VerdictIsCount(calls: seq<Call>, c: Call)
    requires Ordered(calls + [c])
    ensures Decisive(calls, c) in {c.now, c.cleanNow}
    ensures Allowed(calls, c) <==> RecentAdmissions(calls, c.did, Decisive(calls, c)) < 200
    ensures !Allowed(calls, c) ==> RecentAdmissions(calls, c.did, c.now) == 200
  {
    RefinesFullHistory(calls, c);
    if !Allowed(calls, c) {
      DeniedWindowIsFull(calls, c);
    }
  }

  /** A full minute has room again exactly when its oldest entry has left. */
  lemma RoomAgain(h: seq<Time>, now: Time, later: Time)
    requires now <= later && |Prune(h, now - 60.0)| == 200
    requires Ascending(Prune(h, now - 60.0))
    ensures |Prune(h, later - 60.0)| < 200
            <==> later >= Prune(h, now - 60.0)[0] + 60.0
  {
    var w, cutoff := Prune(h, now - 60.0), later - 60.0;
    PruneTwice(h, now - 60.0, cutoff);
    if w[0] > cutoff {
      PruneKeepsAll(w, cutoff);
    } else {
      PruneDropsHead(w, cutoff);
    }
  }
}

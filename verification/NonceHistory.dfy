/**
  What the lazily purged nonce table remembers, over every sequence of uses.
  The reference is the unbounded history of the calls: the table is compared
  with "which admissions were not yet purged", stated without the table.
 */
module NonceHistory {
  import opened Common
  import opened NonceStore

  /**
    One atomic use of the store by its callers: `Admit` is the replay check of a
    handler (`if seen_before(jti): deny`, otherwise `store_nonce(jti, exp)`) with
    the clock readings of the two calls, `Probe` a lookup alone, `Restart` a new process.
   */
  datatype Op =
    | Admit(jti: string, expAt: int, now: Time, storeNow: Time)
    | Probe(jti: string, now: Time)
    | Restart

  function Step(s: State, op: Op): State {
    match op
    case Admit(jti, expAt, now, storeNow) =>
      var c := Cleaned(s, now);
      if jti in c.rows then c else Stored(c, jti, expAt, storeNow)
    case Probe(_, now) => Cleaned(s, now)
    case Restart => Restarted(s)
  }

  function Run(ops: seq<Op>): State {
    if ops == [] then EMPTY else Step(Run(ops[..|ops| - 1]), ops[|ops| - 1])
  }

  /** The table as operation `i` finds it. */
  function Before(ops: seq<Op>, i: nat): State
    requires i <= |ops|
  {
    Run(ops[..i])
  }

  /** Operation `i` was an admission check and the token passed it. */
  predicate Accepted(ops: seq<Op>, i: int) {
    0 <= i < |ops| && ops[i].Admit? && !Seen(Before(ops, i), ops[i].jti, ops[i].now)
  }

  function ExpiryOf(op: Op): int
    requires op.Admit?
  {
    EffectiveExpiry(op.expAt, op.storeNow)
  }

  /** Operation `m` ran a purge that removes every row expiring before second `now.Floor`. */
  predicate Purges(ops: seq<Op>, m: int, exp: int) {
    && 0 <= m < |ops| && !ops[m].Restart?
    && ops[m].now - Before(ops, m).lastCleanup >= 60.0 && exp < ops[m].now.Floor
  }

  /** Admission `i` wrote `exp` for `jti` and nothing since then purged it. */
  ghost predicate Unpurged(ops: seq<Op>, i: int, jti: string, exp: int) {
    && Accepted(ops, i) && ops[i].jti == jti && ExpiryOf(ops[i]) == exp
    && forall m | i < m < |ops| :: !Purges(ops, m, exp)
  }

  /** Readings never go backwards, within an operation and from one to the next. */
  ghost predicate ClockOrdered(ops: seq<Op>) {
    && (forall i | 0 <= i < |ops| && ops[i].Admit? :: ops[i].now <= ops[i].storeNow)
    && (forall i, k | 0 <= i < k < |ops| && !ops[i].Restart? && !ops[k].Restart? :: LastReading(ops[i]) <= ops[k].now)
  }

  function LastReading(op: Op): Time
    requires !op.Restart?
  {
    if op.Admit? then op.storeNow else op.now
  }

  lemma RunSnoc(ops: seq<Op>, op: Op)
    ensures Run(ops + [op]) == Step(Run(ops), op)
  {
    assert (ops + [op])[..|ops|] == ops;
  }

  lemma PrefixFacts(ops: seq<Op>, op: Op)
    ensures forall p | 0 <= p <= |ops| :: Before(ops + [op], p) == Before(ops, p)
    ensures forall i | 0 <= i < |ops| :: Accepted(ops + [op], i) == Accepted(ops, i)
    ensures forall m, e | 0 <= m < |ops| :: Purges(ops + [op], m, e) == Purges(ops, m, e)
    ensures Run(ops + [op]) == Step(Run(ops), op)
  {
    var all := ops + [op];
    assert all[..|all| - 1] == ops;
    forall p | 0 <= p <= |ops|
      ensures Before(all, p) == Before(ops, p)
    {
      assert all[..p] == ops[..p];
    }
    assert ops[..|ops|] == ops;
  }

  /** A row survives one more operation exactly when that operation does not purge it. */
  lemma UnpurgedStep(ops: seq<Op>, op: Op, jti: string, exp: int)
    ensures var all := ops + [op];
            (exists i :: Unpurged(all, i, jti, exp)) <==>
            ((exists i :: Unpurged(ops, i, jti, exp)) && !Purges(all, |ops|, exp))
            || (Accepted(all, |ops|) && op.jti == jti && ExpiryOf(op) == exp)
  {
    var all := ops + [op];
    PrefixFacts(ops, op);
    if i :| Unpurged(ops, i, jti, exp) && !Purges(all, |ops|, exp) {
      assert Unpurged(all, i, jti, exp);
    }
    if Accepted(all, |ops|) && op.jti == jti && ExpiryOf(op) == exp {
      assert Unpurged(all, |ops|, jti, exp);
    }
    if i :| Unpurged(all, i, jti, exp) {
      if i < |ops| {
        assert Unpurged(ops, i, jti, exp) by {
          forall m | i < m < |ops|
            ensures !Purges(ops, m, exp)
          {
            assert !Purges(all, m, exp);
          }
        }
      }
    }
  }

  /**
    The table is the unpurged part of the unbounded history, whatever the calls,
    their order of readings, and the restarts: row (jti, exp) is present exactly
    when some admission wrote it and no purge since then reached it.
   */
  lemma {:induction false} TableIsUnpurgedHistory(ops: seq<Op>, jti: string, exp: int)
    ensures (jti in Run(ops).rows && Run(ops).rows[jti] == exp) <==> (exists i :: Unpurged(ops, i, jti, exp))
  {
    if ops != [] {
      var init, op := ops[..|ops| - 1], ops[|ops| - 1];
      assert init + [op] == ops;
      TableIsUnpurgedHistory(init, jti, exp);
      UnpurgedStep(init, op, jti, exp);
      PrefixFacts(init, op);
      assert init[..|init|] == init;
    }
  }

  // ---- The number of rows ----

  /** Admission `i` was accepted and its expiry has not been passed by a purge since. */
  ghost predicate Alive(ops: seq<Op>, i: int) {
    Accepted(ops, i) && Unpurged(ops, i, ops[i].jti, ExpiryOf(ops[i]))
  }

  ghost function AliveAdmissions(ops: seq<Op>): set<int> {
    set i | 0 <= i < |ops| && Alive(ops, i)
  }

  /** No jti is alive twice: its second admission needed a purge of the first. */
  lemma AliveOnce(ops: seq<Op>, i: int, k: int)
    requires Alive(ops, i) && Alive(ops, k) && ops[i].jti == ops[k].jti
    ensures i == k
  {
    if i < k {
      ReadmissionNeedsPurge(ops, i, k);
    } else if k < i {
      ReadmissionNeedsPurge(ops, k, i);
    }
  }

  ghost function JtisOf(ops: seq<Op>, indices: set<int>): set<string>
    requires forall i | i in indices :: 0 <= i < |ops| && ops[i].Admit?
  {
    set i | i in indices :: ops[i].jti
  }

  lemma {:induction false} AsManyJtis(ops: seq<Op>, indices: set<int>)
    requires indices <= AliveAdmissions(ops)
    ensures |JtisOf(ops, indices)| == |indices|
    decreases indices
  {
    if indices != {} {
      var i :| i in indices;
      AsManyJtis(ops, indices - {i});
      assert JtisOf(ops, indices) == JtisOf(ops, indices - {i}) + {ops[i].jti};
      if ops[i].jti in JtisOf(ops, indices - {i}) {
        var k :| k in indices - {i} && ops[k].jti == ops[i].jti;
        AliveOnce(ops, i, k);
      }
    }
  }

  /** `nonce_count` is the number of accepted admissions that no purge has passed since, each counted once. */
  lemma CountIsAlive(ops: seq<Op>)
    ensures |Run(ops).rows| == |AliveAdmissions(ops)|
  {
    var alive, rows := AliveAdmissions(ops), Run(ops).rows;
    forall jti
      ensures jti in rows <==> jti in JtisOf(ops, alive)
    {
      if jti in rows {
        TableIsUnpurgedHistory(ops, jti, rows[jti]);
        var i :| Unpurged(ops, i, jti, rows[jti]);
        assert Alive(ops, i) && i in alive;
      }
      if jti in JtisOf(ops, alive) {
        var i :| i in alive && ops[i].jti == jti;
        TableIsUnpurgedHistory(ops, jti, ExpiryOf(ops[i]));
      }
    }
    assert rows.Keys == JtisOf(ops, alive);
    AsManyJtis(ops, alive);
  }

  // ---- Lookups ----

  /** `seen_before` answers true only for a jti that was admitted earlier. */
  lemma SeenWasAdmitted(ops: seq<Op>, jti: string, now: Time)
    requires Seen(Run(ops), jti, now)
    ensures exists i :: Accepted(ops, i) && ops[i].jti == jti
  {
    var exp := Run(ops).rows[jti];
    TableIsUnpurgedHistory(ops, jti, exp);
    var i :| Unpurged(ops, i, jti, exp);
  }

  /** A jti whose recorded expiry has not passed by second floor(now) is always reported as seen. */
  lemma UnexpiredIsSeen(ops: seq<Op>, i: nat, now: Time)
    requires ClockOrdered(ops) && Accepted(ops, i)
    requires forall m | 0 <= m < |ops| && !ops[m].Restart? :: LastReading(ops[m]) <= now
    requires now.Floor <= ExpiryOf(ops[i])
    ensures Seen(Run(ops), ops[i].jti, now)
  {
    var exp := ExpiryOf(ops[i]);
    forall m | i < m < |ops|
      ensures !Purges(ops, m, exp)
    {
    }
    assert Unpurged(ops, i, ops[i].jti, exp);
    TableIsUnpurgedHistory(ops, ops[i].jti, exp);
  }

  /**
    The same jti is admitted a second time only after the first recorded expiry
    lies below floor of the second check's reading.
   */
  lemma ReadmissionIsPastExpiry(ops: seq<Op>, i: nat, k: nat)
    requires ClockOrdered(ops) && i < k
    requires Accepted(ops, i) && Accepted(ops, k) && ops[i].jti == ops[k].jti
    ensures ExpiryOf(ops[i]) < ops[k].now.Floor
  {
    var pre := ops[..k];
    assert pre[..i] == ops[..i];
    if ops[k].now.Floor <= ExpiryOf(ops[i]) {
      UnexpiredIsSeen(pre, i, ops[k].now);
    }
  }

  /** Between two admissions of one jti some purge passed the first one's expiry. */
  lemma ReadmissionNeedsPurge(ops: seq<Op>, i: nat, k: nat)
    requires i < k && Accepted(ops, i) && Accepted(ops, k) && ops[i].jti == ops[k].jti
    ensures exists m :: i < m <= k && Purges(ops, m, ExpiryOf(ops[i]))
  {
    var pre, jti, exp := ops[..k], ops[i].jti, ExpiryOf(ops[i]);
    assert pre[..i] == ops[..i];
    TableIsUnpurgedHistory(pre, jti, exp);
    if forall m | i < m < k :: !Purges(ops, m, exp) {
      forall m | i < m < k
        ensures !Purges(pre, m, exp)
      {
        assert pre[..m] == ops[..m];
        assert !Purges(ops, m, exp);
      }
      assert Unpurged(pre, i, jti, exp);
      assert Purges(ops, k, exp);
    }
  }

  /** A purge after operation `i` passed the expiry that it recorded. */
  ghost predicate PurgedSince(ops: seq<Op>, i: int)
    requires 0 <= i < |ops| && ops[i].Admit?
  {
    exists m :: i < m && Purges(ops, m, ExpiryOf(ops[i]))
  }

  /**
    Exactly when a jti comes back: after its last admission `i`, a lookup at `now`
    misses it if and only if a purge passed its expiry since, or the lookup's own
    cleanup is due and does.
   */
  lemma ForgottenExactly(ops: seq<Op>, i: nat, now: Time)
    requires Accepted(ops, i)
    requires forall k | i < k < |ops| && Accepted(ops, k) :: ops[k].jti != ops[i].jti
    ensures !Seen(Run(ops), ops[i].jti, now) <==>
            PurgedSince(ops, i) || (now - Run(ops).lastCleanup >= 60.0 && ExpiryOf(ops[i]) < now.Floor)
  {
    var jti, exp := ops[i].jti, ExpiryOf(ops[i]);
    var rows := Run(ops).rows;
    TableIsUnpurgedHistory(ops, jti, exp);
    if jti in rows {
      TableIsUnpurgedHistory(ops, jti, rows[jti]);
      var p :| Unpurged(ops, p, jti, rows[jti]);
      if p < i {
        ReadmissionNeedsPurge(ops, p, i);
      }
      assert p == i;
    } else {
      assert !Unpurged(ops, i, jti, exp);
    }
  }

  /** The row that an accepted admission leaves behind is its own: IGNORE does not fire. */
  lemma AcceptedWritesItsRow(ops: seq<Op>, i: nat)
    requires Accepted(ops, i)
    ensures var after := Before(ops, i + 1);
            ops[i].jti in after.rows && after.rows[ops[i].jti] == ExpiryOf(ops[i])
    ensures Before(ops, i + 1).rows.Keys == Cleaned(Before(ops, i), ops[i].now).rows.Keys + {ops[i].jti}
  {
    assert ops[..i + 1][..i] == ops[..i];
  }

  /** Operation `m` ran a cleanup, on the reading `t`. */
  predicate CleansAt(ops: seq<Op>, m: int, t: Time) {
    0 <= m < |ops| && !ops[m].Restart? && CleanupDue(Before(ops, m), ops[m].now) && ops[m].now == t
  }

  lemma CleansAtGrows(ops: seq<Op>, op: Op, m: int, t: Time)
    requires CleansAt(ops, m, t)
    ensures CleansAt(ops + [op], m, t)
  {
    assert (ops + [op])[..m] == ops[..m];
  }

  /** What one operation does to the time of the last cleanup. */
  lemma CleanupTime(s: State, op: Op)
    ensures var t := Step(s, op).lastCleanup;
            t == 0.0 || t == s.lastCleanup || (!op.Restart? && CleanupDue(s, op.now) && t == op.now)
  {
  }

  /** The recorded time of the last cleanup is the reading of an operation that ran one. */
  lemma {:induction false} LastCleanupWasRead(ops: seq<Op>)
    ensures Run(ops).lastCleanup == 0.0 || exists m :: CleansAt(ops, m, Run(ops).lastCleanup)
  {
    if ops != [] {
      var init, op := ops[..|ops| - 1], ops[|ops| - 1];
      assert init + [op] == ops;
      LastCleanupWasRead(init);
      CleanupTime(Run(init), op);
      hide CleanupDue, Step;
      if m :| CleansAt(init, m, Run(init).lastCleanup) {
        CleansAtGrows(init, op, m, Run(init).lastCleanup);
      }
      if !op.Restart? && CleanupDue(Run(init), op.now) {
        assert CleansAt(ops, |init|, op.now);
      }
    }
  }

  /** No admission recorded an expiry more than `ttl` seconds after its own time. */
  ghost predicate ShortLived(ops: seq<Op>, ttl: nat) {
    forall i | 0 <= i < |ops| && Accepted(ops, i) :: ExpiryOf(ops[i]) as real <= ops[i].storeNow + ttl as real
  }

  /** An admission of this jti and expiry was stored later than `t`. */
  ghost predicate StoredAfter(ops: seq<Op>, jti: string, exp: int, t: real) {
    exists i :: Accepted(ops, i) && ops[i].jti == jti && ExpiryOf(ops[i]) == exp && ops[i].storeNow > t
  }

  /**
    Bounded retention: if every recorded expiry is at most `ttl` seconds after the
    row was stored, then right after any `seen_before` at `now` each remaining row
    was stored later than now - (ttl + 61).
   */
  lemma RetentionBound(ops: seq<Op>, ttl: nat, now: Time, jti: string)
    requires ClockOrdered(ops)
    requires forall m | 0 <= m < |ops| && !ops[m].Restart? :: LastReading(ops[m]) <= now
    requires ShortLived(ops, ttl) && jti in Cleaned(Run(ops), now).rows
    ensures StoredAfter(ops, jti, Cleaned(Run(ops), now).rows[jti], now - (ttl as real + 61.0))
  {
    var s := Run(ops);
    var exp := s.rows[jti];
    TableIsUnpurgedHistory(ops, jti, exp);
    var i :| Unpurged(ops, i, jti, exp);
    LastCleanupWasRead(ops);
    if !CleanupDue(s, now) && s.lastCleanup != 0.0 {
      var m :| CleansAt(ops, m, s.lastCleanup);
      assert !Purges(ops, m, exp) || m <= i;
    }
  }
}

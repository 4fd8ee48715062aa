/**
  The nonce table of `dzt_proxy/nonce_store.py` and of its twin
  `mcp_server/nonce_store.py`: rows (jti, exp_at), purged lazily at most once
  a minute. `State` and the functions on it are the specification; class
  `NonceTable` is the module-level state that the Python functions update.
 */
module NonceStore {
  import opened Common

  const CLEANUP_INTERVAL: real := 60.0
  const DEFAULT_TTL: int := 600

  datatype State = State(rows: map<string, int>, lastCleanup: Time)

  const EMPTY: State := State(map[], 0.0)

  /** DELETE FROM nonces WHERE exp_at < int(now) */
  function Purge(rows: map<string, int>, now: Time): map<string, int> {
    map j | j in rows && rows[j] >= now.Floor :: rows[j]
  }

  predicate CleanupDue(s: State, now: Time) {
    now - s.lastCleanup >= CLEANUP_INTERVAL
  }

  /** State after `_maybe_cleanup`, which is also the state after `seen_before`. */
  function Cleaned(s: State, now: Time): State {
    if CleanupDue(s, now) then State(Purge(s.rows, now), now) else s
  }

  /** Answer of `seen_before`: the row is looked up after the cleanup. */
  predicate Seen(s: State, jti: string, now: Time) {
    jti in Cleaned(s, now).rows
  }

  /** The expiry that `store_nonce` writes. */
  function EffectiveExpiry(expAt: int, now: Time): int {
    if expAt <= 0 then now.Floor + DEFAULT_TTL else expAt
  }

  /** INSERT OR IGNORE: an existing row keeps its first `exp_at`. */
  function Stored(s: State, jti: string, expAt: int, now: Time): State {
    if jti in s.rows then s else s.(rows := s.rows[jti := EffectiveExpiry(expAt, now)])
  }

  /** Process restart: the table is on disk, `_last_cleanup` is not. */
  function Restarted(s: State): State {
    s.(lastCleanup := 0.0)
  }

  class NonceTable {
    var rows: map<string, int>
    var lastCleanup: Time

    function View(): State
      reads this
    {
      State(rows, lastCleanup)
    }

    /** `init_db` at startup over the rows already on disk. */
    constructor InitDb(onDisk: map<string, int>)
      ensures View() == State(onDisk, 0.0)
    {
      rows, lastCleanup := onDisk, 0.0;
    }

    method MaybeCleanup(now: Time)
      modifies this
      ensures View() == Cleaned(old(View()), now)
      ensures now - old(lastCleanup) < 60.0 ==> rows == old(rows) && lastCleanup == old(lastCleanup)
      ensures now - old(lastCleanup) >= 60.0 ==>
                lastCleanup == now && rows == map j | j in old(rows) && old(rows)[j] >= now.Floor :: old(rows)[j]
    {
      if now - lastCleanup < CLEANUP_INTERVAL {
        return;
      }
      lastCleanup := now;
      rows := Purge(rows, now);
    }

    method SeenBefore(jti: string, now: Time) returns (seen: bool)
      modifies this
      ensures View() == Cleaned(old(View()), now)
      ensures seen == Seen(old(View()), jti, now)
    {
      MaybeCleanup(now);
      seen := jti in rows;
    }

    method StoreNonce(jti: string, expAt: int, now: Time)
      modifies this
      ensures View() == Stored(old(View()), jti, expAt, now)
      ensures rows == if jti in old(rows) then old(rows)
                      else old(rows)[jti := if expAt <= 0 then now.Floor + 600 else expAt]
    {
      var e := expAt;
      if e <= 0 {
        e := now.Floor + DEFAULT_TTL;
      }
      if jti !in rows {
        rows := rows[jti := e];
      }
    }

    method NonceCount() returns (n: nat)
      ensures n == |View().rows|
    {
      n := |rows|;
    }
  }
}

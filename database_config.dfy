/**
 * `DatabaseConfig` (apps/server/src/configs/database.config.ts): a lazily
 * created single instance with an `isConnected` flag, a bounded connection
 * retry loop, and an idempotent disconnect. The outcome of each
 * `mongoose.connect` attempt is an oracle (`attempt(i)` is true when attempt
 * number i, counted from 0, succeeds); waits are counted, not timed.
 */
module Database {
  import opened Wrappers

  const DefaultMaxRetries: int := 5
  const DefaultRetryDelayMs: int := 5000
  const GiveUpMessage: string := "Failed to connect to MongoDB after multiple attempts"

  /** How the promise returned by `connect` settles. */
  datatype Settled = Resolved | Rejected(message: string)

  /** The first successful attempt among attempts `from`, ..., `limit - 1`. */
  function FirstSuccessFrom(attempt: nat -> bool, from: nat, limit: int): Option<nat>
    decreases limit - from
  {
    if from >= limit then None
    else if attempt(from) then Some(from)
    else FirstSuccessFrom(attempt, from + 1, limit)
  }

  /** The first successful attempt among the first `limit`, if any. */
  function FirstSuccess(attempt: nat -> bool, limit: int): Option<nat> {
    FirstSuccessFrom(attempt, 0, limit)
  }

  lemma {:induction false} FirstSuccessFromSpec(attempt: nat -> bool, from: nat, limit: int)
    ensures FirstSuccessFrom(attempt, from, limit).Some? ==>
      var k := FirstSuccessFrom(attempt, from, limit).value;
      from <= k < limit && attempt(k) && forall j :: from <= j < k ==> !attempt(j)
    ensures FirstSuccessFrom(attempt, from, limit).None? ==>
      forall j :: from <= j < limit ==> !attempt(j)
    decreases limit - from
  {
    if from < limit && !attempt(from) {
      FirstSuccessFromSpec(attempt, from + 1, limit);
    }
  }

  /**
   * `FirstSuccess` is the earliest successful attempt below the limit, and it
   * is None exactly when all of them fail.
   */
  lemma FirstSuccessSpec(attempt: nat -> bool, limit: int)
    ensures FirstSuccess(attempt, limit).Some? ==>
      var k := FirstSuccess(attempt, limit).value;
      k < limit && attempt(k) && forall j :: 0 <= j < k ==> !attempt(j)
    ensures FirstSuccess(attempt, limit).None? <==> forall j :: 0 <= j < limit ==> !attempt(j)
  {
    FirstSuccessFromSpec(attempt, 0, limit);
  }

  class DatabaseConfig {
    /** `isConnected`. */
    var isConnected: bool
    /**
     * How many 'error'/'disconnected' listener pairs have been registered on
     * the shared connection: each successful connect adds one pair.
     */
    var listenerPairs: nat

    /** The private constructor. */
    constructor ()
      ensures !isConnected && listenerPairs == 0
    {
      isConnected := false;
      listenerPairs := 0;
    }

    /**
     * `connect(maxRetries, retryDelay)`: `attempts` counts the calls of
     * `mongoose.connect`, `waits` the pauses between failed attempts.
     */
    method Connect(maxRetries: int, attempt: nat -> bool) returns (settled: Settled, attempts: nat, waits: nat)
      modifies this
      ensures old(isConnected) ==>
        settled == Resolved && attempts == 0 && waits == 0 && isConnected && listenerPairs == old(listenerPairs)
      ensures !old(isConnected) && FirstSuccess(attempt, maxRetries).Some? ==>
        var k := FirstSuccess(attempt, maxRetries).value;
        settled == Resolved && attempts == k + 1 && waits == k
        && isConnected && listenerPairs == old(listenerPairs) + 1
      ensures !old(isConnected) && FirstSuccess(attempt, maxRetries).None? && maxRetries >= 1 ==>
        settled == Rejected(GiveUpMessage) && attempts == maxRetries && waits == maxRetries - 1
        && !isConnected && listenerPairs == old(listenerPairs)
      ensures !old(isConnected) && maxRetries <= 0 ==>
        settled == Resolved && attempts == 0 && waits == 0 && !isConnected && listenerPairs == old(listenerPairs)
    {
      if isConnected {
        return Resolved, 0, 0;
      }
      FirstSuccessSpec(attempt, maxRetries);
      var retries := 0;
      attempts, waits := 0, 0;
      while retries < maxRetries
        invariant retries == 0 || retries < maxRetries
        invariant attempts == retries && waits == retries
        invariant forall j :: 0 <= j < retries ==> !attempt(j)
        invariant !isConnected && listenerPairs == old(listenerPairs)
        decreases maxRetries - retries
      {
        attempts := attempts + 1;
        if attempt(retries) {
          isConnected := true;
          listenerPairs := listenerPairs + 1;
          return Resolved, attempts, waits;
        }
        retries := retries + 1;
        if retries < maxRetries {
          waits := waits + 1;
        } else {
          return Rejected(GiveUpMessage), attempts, waits;
        }
      }
      settled := Resolved;
    }

    /**
     * `connect()` as the server's bootstrap calls it, with the default five
     * attempts and 5000 ms between them; `delayMs` is the total time spent waiting.
     */
    method ConnectWithDefaults(attempt: nat -> bool) returns (settled: Settled, attempts: nat, delayMs: nat)
      modifies this
      ensures attempts <= DefaultMaxRetries && delayMs <= (DefaultMaxRetries - 1) * DefaultRetryDelayMs
      ensures settled == Resolved <==> isConnected
      ensures settled.Rejected? ==>
        settled.message == GiveUpMessage && attempts == 5 && delayMs == 20000
        && forall j :: 0 <= j < 5 ==> !attempt(j)
    {
      FirstSuccessSpec(attempt, DefaultMaxRetries);
      var waits;
      settled, attempts, waits := Connect(DefaultMaxRetries, attempt);
      delayMs := waits * DefaultRetryDelayMs;
    }

    /**
     * `disconnect()`. `driverError` is how `mongoose.disconnect()` settles
     * (None when it resolves); `driverCalled` tells whether it ran. The flag
     * is cleared only after the driver resolves; a driver rejection
     * propagates and leaves the instance marked connected.
     */
    method Disconnect(driverError: Option<string>) returns (driverCalled: bool, settled: Settled)
      modifies this
      ensures driverCalled == old(isConnected)
      ensures !old(isConnected) ==> settled == Resolved && !isConnected
      ensures old(isConnected) && driverError.None? ==> settled == Resolved && !isConnected
      ensures old(isConnected) && driverError.Some? ==> settled == Rejected(driverError.value) && isConnected
      ensures listenerPairs == old(listenerPairs)
    {
      if !isConnected {
        return false, Resolved;
      }
      driverCalled := true;
      if driverError.Some? {
        return driverCalled, Rejected(driverError.value);
      }
      isConnected := false;
      settled := Resolved;
    }

    /** The connection's 'error' or 'disconnected' event: clears the flag once a listener exists. */
    method OnConnectionLost()
      modifies this
      ensures isConnected == (old(isConnected) && listenerPairs == 0)
      ensures listenerPairs == old(listenerPairs)
    {
      if listenerPairs > 0 {
        isConnected := false;
      }
    }

    /** `getConnectionStatus()`. */
    method GetConnectionStatus() returns (connected: bool)
      ensures connected == isConnected
    {
      connected := isConnected;
    }
  }

  /** The static `DatabaseConfig.instance` slot. */
  class InstanceSlot {
    var instance: DatabaseConfig?

    constructor ()
      ensures instance == null
    {
      instance := null;
    }

    /** `getInstance()`: creates the instance on first use and then always returns it. */
    method GetInstance() returns (db: DatabaseConfig)
      modifies this
      ensures old(instance) != null ==> db == old(instance)
      ensures old(instance) == null ==> fresh(db) && !db.isConnected && db.listenerPairs == 0
      ensures instance == db
    {
      if instance == null {
        instance := new DatabaseConfig();
      }
      db := instance;
    }
  }
}

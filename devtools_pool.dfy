/**
 * EnhancedDevToolsManager: a pool of pre-warmed DevTools connections, the
 * creation of a session for a target with retries and back-off, the map of
 * active sessions, their health check and the pool's replenishment.
 *
 * The browser connection is outside the model: what each creation, rebind
 * and listener cleanup does arrives as data, and handles are opaque numbers.
 */
module DevToolsPool {
  import opened Common

  const MaxSessionCreationTimeMs := 3000
  const SessionPoolSize := 5
  const MaxRetries := 3
  const RetryDelayMs := 500
  /** Sessions older than this many milliseconds are evicted by the health check. */
  const MaxSessionAgeMs := 300000

  // ---------------------------------------------------------------------
  // Creating a session for a target
  // ---------------------------------------------------------------------

  /** What a fresh creation under the 3000 ms timeout yields. */
  datatype Creation = Created(handle: Handle) | CreateFailed | TimedOut

  /**
   * What the browser does on one attempt: whether rebinding a pooled handle
   * succeeds, what a fresh creation yields (used when the pool is empty),
   * and whether the back-off sleep after a timed-out attempt is interrupted.
   */
  datatype AttemptIo = AttemptIo(rebindOk: bool, creation: Creation, sleepInterrupted: bool)

  /**
   * The outcome of the retry loop: the handle obtained (None when every
   * attempt failed), the pool left behind, the back-off sleeps, the number
   * of the last attempt made, and whether some attempt threw.
   */
  datatype RunOutcome = RunOutcome(handle: Option<Handle>, pool: seq<Handle>, sleeps: seq<nat>,
                                   attempts: nat, threw: bool)

  /**
   * createSessionForTarget's loop from `attempt` on. Each attempt polls the
   * pool first: a pooled handle is rebound (a failed rebind yields null and
   * the handle is not returned); with an empty pool a new session is
   * created. Null moves on at once; a timeout sleeps 500 * attempt ms unless
   * it was the last attempt; an interrupted sleep abandons the loop.
   */
  function Run(pool: seq<Handle>, io: seq<AttemptIo>, attempt: nat): RunOutcome
    requires 1 <= attempt && MaxRetries <= |io|
    decreases MaxRetries + 1 - attempt
  {
    if attempt > MaxRetries then RunOutcome(None, pool, [], attempt - 1, false)
    else
      var a := io[attempt - 1];
      if |pool| > 0 then
        if a.rebindOk then RunOutcome(Some(pool[0]), pool[1..], [], attempt, false)
        else Run(pool[1..], io, attempt + 1)
      else
        match a.creation
        case Created(h) => RunOutcome(Some(h), pool, [], attempt, false)
        case CreateFailed => Run(pool, io, attempt + 1)
        case TimedOut =>
          if attempt < MaxRetries && !a.sleepInterrupted then
            var rest := Run(pool, io, attempt + 1);
            rest.(sleeps := [RetryDelayMs * attempt] + rest.sleeps, threw := true)
          else RunOutcome(None, pool, [], attempt, true)
  }

  /** At most three attempts are made, and never fewer than the one being started. */
  lemma {:induction false} RunAttempts(pool: seq<Handle>, io: seq<AttemptIo>, attempt: nat)
    requires 1 <= attempt <= MaxRetries + 1 && MaxRetries <= |io|
    ensures attempt - 1 <= Run(pool, io, attempt).attempts <= MaxRetries
    decreases MaxRetries + 1 - attempt
  {
    if attempt <= MaxRetries {
      var a := io[attempt - 1];
      if |pool| > 0 {
        if !a.rebindOk {
          RunAttempts(pool[1..], io, attempt + 1);
        }
      } else if !a.creation.Created? {
        RunAttempts(pool, io, attempt + 1);
      }
    }
  }

  /**
   * Each attempt consumes at most one pooled handle, from the front of the
   * queue: what is left is a suffix of the pool, shorter by no more than
   * the number of attempts made.
   */
  lemma {:induction false} RunConsumesFront(pool: seq<Handle>, io: seq<AttemptIo>, attempt: nat)
    requires 1 <= attempt && MaxRetries <= |io|
    ensures var out := Run(pool, io, attempt);
            |out.pool| <= |pool| && out.pool == pool[|pool| - |out.pool|..]
            && |pool| - |out.pool| <= out.attempts + 1 - attempt
    decreases MaxRetries + 1 - attempt
  {
    if attempt <= MaxRetries {
      var a := io[attempt - 1];
      if |pool| > 0 {
        if !a.rebindOk {
          RunConsumesFront(pool[1..], io, attempt + 1);
          var out := Run(pool[1..], io, attempt + 1);
          assert pool[1..][|pool| - 1 - |out.pool|..] == pool[|pool| - |out.pool|..];
        }
      } else if !a.creation.Created? {
        RunConsumesFront(pool, io, attempt + 1);
      }
    }
  }

  /**
   * A pooled session is preferred: no session is created while the pool is
   * non-empty, so a handle obtained while pooled handles remain is the one
   * polled last, and obtaining any handle from a non-empty pool consumes
   * at least one pooled handle.
   */
  lemma {:induction false} RunPrefersPool(pool: seq<Handle>, io: seq<AttemptIo>, attempt: nat)
    requires 1 <= attempt && MaxRetries <= |io|
    ensures var out := Run(pool, io, attempt);
            (out.handle.Some? && |pool| > 0 ==> |out.pool| < |pool|)
            && (out.handle.Some? && 0 < |out.pool| < |pool| ==> out.handle.value == pool[|pool| - |out.pool| - 1])
    decreases MaxRetries + 1 - attempt
  {
    var out := Run(pool, io, attempt);
    if attempt > MaxRetries {
      assert out.handle == None;
    } else if |pool| > 0 {
      if io[attempt - 1].rebindOk {
        assert out.pool == pool[1..] && out.handle == Some(pool[0]);
      } else {
        assert out == Run(pool[1..], io, attempt + 1);
        RunPrefersPool(pool[1..], io, attempt + 1);
        RunConsumesFront(pool[1..], io, attempt + 1);
        if out.handle.Some? && 0 < |out.pool| {
          assert pool[1..][|pool| - 1 - |out.pool| - 1] == pool[|pool| - |out.pool| - 1];
        }
      }
    }
  }

  /**
   * An account of the back-off independent of Run. Attempt k, counted from
   * an attempt `start` at which `pooled` handles were queued, polls the pool
   * iff fewer than `pooled` attempts came before it; it lets the loop go on
   * iff its rebind fails, or it finds the pool empty and its creation yields
   * null, or it times out and its sleep is not interrupted.
   */
  predicate MovesOn(pooled: nat, io: seq<AttemptIo>, start: nat, k: nat)
    requires 1 <= start <= k <= |io|
  {
    if k < start + pooled then !io[k - 1].rebindOk
    else io[k - 1].creation.CreateFailed? || (io[k - 1].creation.TimedOut? && !io[k - 1].sleepInterrupted)
  }

  /** Attempt k is made: every attempt before it moved on. */
  predicate Reached(pooled: nat, io: seq<AttemptIo>, start: nat, k: nat)
    requires 1 <= start && k <= |io|
  {
    forall j :: start <= j < k ==> MovesOn(pooled, io, start, j)
  }

  /**
   * The sleeps the loop should make from attempt k on: 500 * k after each
   * attempt k below the last that is made, finds the pool empty and times
   * out with an uninterrupted sleep; no delay after any other attempt.
   */
  function Backoffs(pooled: nat, io: seq<AttemptIo>, start: nat, k: nat): seq<nat>
    requires 1 <= start <= k && MaxRetries <= |io|
    decreases MaxRetries - k
  {
    if k >= MaxRetries then []
    else
      (if Reached(pooled, io, start, k) && start + pooled <= k
          && io[k - 1].creation.TimedOut? && !io[k - 1].sleepInterrupted
       then [RetryDelayMs * k] else [])
      + Backoffs(pooled, io, start, k + 1)
  }

  /** Once the first attempt has moved on, the later ones see one pooled handle fewer. */
  lemma {:induction false} BackoffsShift(pooled: nat, io: seq<AttemptIo>, start: nat, k: nat)
    requires 1 <= start < k && start < MaxRetries <= |io| && MovesOn(pooled, io, start, start)
    ensures Backoffs(pooled, io, start, k) == Backoffs(if pooled > 0 then pooled - 1 else 0, io, start + 1, k)
    decreases MaxRetries - k
  {
    if k < MaxRetries {
      var rest := if pooled > 0 then pooled - 1 else 0;
      assert forall j :: start + 1 <= j <= k ==> MovesOn(pooled, io, start, j) == MovesOn(rest, io, start + 1, j);
      assert Reached(pooled, io, start, k) == Reached(rest, io, start + 1, k);
      BackoffsShift(pooled, io, start, k + 1);
    }
  }

  /** Once the first attempt ends the loop, no later attempt sleeps. */
  lemma {:induction false} BackoffsAfterStop(pooled: nat, io: seq<AttemptIo>, start: nat, k: nat)
    requires 1 <= start < k && start < MaxRetries <= |io| && !MovesOn(pooled, io, start, start)
    ensures Backoffs(pooled, io, start, k) == []
    decreases MaxRetries - k
  {
    if k < MaxRetries {
      assert !Reached(pooled, io, start, k);
      BackoffsAfterStop(pooled, io, start, k + 1);
    }
  }

  /**
   * The back-off happens only after timeouts: the loop's sleeps are
   * exactly Backoffs, 500 * k for each timed-out attempt k before the last
   * whose sleep is not interrupted, with no delay after a null result or a
   * failed rebind.
   */
  lemma {:induction false} RunBackoff(pool: seq<Handle>, io: seq<AttemptIo>, attempt: nat)
    requires 1 <= attempt && MaxRetries <= |io|
    ensures Run(pool, io, attempt).sleeps == Backoffs(|pool|, io, attempt, attempt)
    decreases MaxRetries + 1 - attempt
  {
    if attempt >= MaxRetries {
      if attempt == MaxRetries && |pool| > 0 && !io[attempt - 1].rebindOk {
        assert Run(pool, io, attempt) == Run(pool[1..], io, attempt + 1);
      }
    } else if !MovesOn(|pool|, io, attempt, attempt) {
      BackoffsAfterStop(|pool|, io, attempt, attempt + 1);
    } else {
      BackoffsShift(|pool|, io, attempt, attempt + 1);
      if |pool| > 0 {
        RunBackoff(pool[1..], io, attempt + 1);
      } else {
        RunBackoff(pool, io, attempt + 1);
      }
    }
  }

  /** Every sleep Backoffs lists from attempt k on is a multiple of 500, at least 500 * k and below 1500. */
  lemma {:induction false} BackoffsBounds(pooled: nat, io: seq<AttemptIo>, start: nat, k: nat)
    requires 1 <= start <= k && MaxRetries <= |io|
    ensures var s := Backoffs(pooled, io, start, k);
            forall i :: 0 <= i < |s| ==>
              s[i] % RetryDelayMs == 0 && RetryDelayMs * k <= s[i] < RetryDelayMs * MaxRetries
    decreases MaxRetries - k
  {
    if k < MaxRetries {
      BackoffsBounds(pooled, io, start, k + 1);
    }
  }

  /**
   * The back-off is linear: the sleeps are exactly Backoffs, so every
   * sleep is a multiple of 500 from 500 * attempt up to below 1500.
   */
  lemma RunBackoffBounds(pool: seq<Handle>, io: seq<AttemptIo>, attempt: nat)
    requires 1 <= attempt && MaxRetries <= |io|
    ensures Run(pool, io, attempt).sleeps == Backoffs(|pool|, io, attempt, attempt)
    ensures var s := Run(pool, io, attempt).sleeps;
            forall i :: 0 <= i < |s| ==>
              s[i] % RetryDelayMs == 0 && RetryDelayMs * attempt <= s[i] < RetryDelayMs * MaxRetries
  {
    RunBackoff(pool, io, attempt);
    BackoffsBounds(|pool|, io, attempt, attempt);
  }

  /** The back-off sleeps grow strictly from one timed-out attempt to the next. */
  lemma {:induction false} RunBackoffIncreasing(pool: seq<Handle>, io: seq<AttemptIo>, attempt: nat)
    requires 1 <= attempt && MaxRetries <= |io|
    ensures var s := Run(pool, io, attempt).sleeps;
            forall i, j :: 0 <= i < j < |s| ==> s[i] < s[j]
    decreases MaxRetries + 1 - attempt
  {
    var s := Run(pool, io, attempt).sleeps;
    if attempt > MaxRetries {
      assert s == [];
    } else if |pool| > 0 {
      if !io[attempt - 1].rebindOk {
        RunBackoffIncreasing(pool[1..], io, attempt + 1);
      }
    } else if io[attempt - 1].creation.CreateFailed? {
      RunBackoffIncreasing(pool, io, attempt + 1);
    } else if io[attempt - 1].creation.TimedOut? && attempt < MaxRetries && !io[attempt - 1].sleepInterrupted {
      RunBackoffIncreasing(pool, io, attempt + 1);
      RunBackoffBounds(pool, io, attempt + 1);
      var rest := Run(pool, io, attempt + 1).sleeps;
      assert s == [RetryDelayMs * attempt] + rest;
      assert forall i :: 1 <= i < |s| ==> s[i] == rest[i - 1];
    }
  }

  /** The message of the exception thrown when every attempt failed, with the last cause when there was one. */
  function FailureMessage(targetId: string, threw: bool): string
  {
    "Failed to create DevTools session for target " + targetId + " after 3 attempts"
    + (if threw then ": DevTools session creation timed out after 3000ms" else "")
  }

  /**
   * The retry loop of createSessionForTarget on the pool's contents: the
   * handle obtained, the pool left behind, the sleeps taken and whether an
   * attempt threw are exactly those Run describes.
   */
  method Acquire(pool0: seq<Handle>, io: seq<AttemptIo>)
    returns (handle: Option<Handle>, pool: seq<Handle>, sleeps: seq<nat>, threw: bool)
    requires MaxRetries <= |io|
    ensures var out := Run(pool0, io, 1);
            handle == out.handle && pool == out.pool && sleeps == out.sleeps && threw == out.threw
  {
    ghost var whole := Run(pool0, io, 1);
    handle, pool, sleeps, threw := None, pool0, [], false;
    var attempt := 1;
    while attempt <= MaxRetries
      invariant 1 <= attempt <= MaxRetries + 1
      invariant var rest := Run(pool, io, attempt);
                whole.handle == rest.handle && whole.pool == rest.pool
                && whole.sleeps == sleeps + rest.sleeps && whole.threw == (threw || rest.threw)
      invariant handle == None
      decreases MaxRetries + 1 - attempt
    {
      var a := io[attempt - 1];
      if |pool| > 0 {
        var polled := pool[0];
        pool := pool[1..];
        if a.rebindOk {
          handle := Some(polled);
          assert sleeps + [] == sleeps;
          return;
        }
      } else if a.creation.Created? {
        handle := Some(a.creation.handle);
        assert sleeps + [] == sleeps;
        return;
      } else if a.creation.TimedOut? {
        threw := true;
        if attempt == MaxRetries || a.sleepInterrupted {
          assert sleeps + [] == sleeps;
          return;
        }
        ghost var rest := Run(pool, io, attempt + 1);
        assert sleeps + ([RetryDelayMs * attempt] + rest.sleeps) == (sleeps + [RetryDelayMs * attempt]) + rest.sleeps;
        sleeps := sleeps + [RetryDelayMs * attempt];
      }
      attempt := attempt + 1;
    }
    assert sleeps + [] == sleeps;
  }

  // ---------------------------------------------------------------------
  // Sessions and the manager
  // ---------------------------------------------------------------------

  /** DevToolsSession: a target's connection, when it was made, and a one-way health flag. */
  class DevToolsSession {
    const targetId: string
    const devTools: Handle
    const createdTime: int
    var healthy: bool

    constructor (targetId: string, devTools: Handle, createdTime: int)
      ensures this.targetId == targetId && this.devTools == devTools && this.createdTime == createdTime
      ensures healthy
    {
      this.targetId := targetId;
      this.devTools := devTools;
      this.createdTime := createdTime;
      healthy := true;
    }

    /** markUnhealthy: the session is never healthy again. */
    method MarkUnhealthy()
      modifies this
      ensures !healthy
    {
      healthy := false;
    }
  }

  /** The handles that were actually obtained, in order. */
  function Obtained(created: seq<Option<Handle>>): (r: seq<Handle>)
    ensures |r| <= |created|
  {
    if created == [] then []
    else Obtained(created[..|created| - 1])
         + (if created[|created| - 1].Some? then [created[|created| - 1].value] else [])
  }

  lemma ObtainedSnoc(created: seq<Option<Handle>>, i: nat)
    requires i < |created|
    ensures Obtained(created[..i + 1])
         == Obtained(created[..i]) + (if created[i].Some? then [created[i].value] else [])
  {
    assert created[..i + 1][..i] == created[..i];
  }

  /** Whether a session is due for eviction at `now`: unhealthy, or older than five minutes. */
  predicate Stale(healthy: bool, createdTime: int, now: int)
  {
    !healthy || now - createdTime > MaxSessionAgeMs
  }

  /**
   * The targets whose handles the health sweep gives back to the pool while
   * it has room: healthy sessions evicted only for their age, whose
   * listeners clear.
   */
  ghost function Recyclable(sessions: map<string, DevToolsSession>, now: int, clearFailures: set<string>): set<string>
    reads sessions.Values
  {
    set t | t in sessions && sessions[t].healthy && now - sessions[t].createdTime > MaxSessionAgeMs
                          && t !in clearFailures
  }

  /**
   * Part way through the sweep: the pool still starts with `oldPool`, and
   * after it come the handles of distinct recycled targets `donors`, drawn
   * from `seen`, as many as fit below five.
   */
  ghost predicate Swept(oldPool: seq<Handle>, pool: seq<Handle>, sessions: map<string, DevToolsSession>,
                        seen: set<string>, donors: seq<string>)
  {
    |oldPool| <= |pool| && pool[..|oldPool|] == oldPool
    && |pool| == Min(SessionPoolSize, |oldPool| + |seen|)
    && |donors| == |pool| - |oldPool|
    && (forall i :: 0 <= i < |donors| ==>
          donors[i] in seen && donors[i] in sessions && pool[|oldPool| + i] == sessions[donors[i]].devTools)
    && (forall i, j :: 0 <= i < j < |donors| ==> donors[i] != donors[j])
  }

  /** Before the sweep nothing is seen and the pool is as it was. */
  lemma SweptStart(pool: seq<Handle>, sessions: map<string, DevToolsSession>, recycled: set<string>, keys: set<string>)
    requires recycled <= keys && |pool| <= SessionPoolSize
    ensures Swept(pool, pool, sessions, recycled - keys, [])
  {
    assert recycled - keys == {};
  }

  /** Once every target is swept, the seen targets are all the recycled ones. */
  lemma SweptAll(oldPool: seq<Handle>, pool: seq<Handle>, sessions: map<string, DevToolsSession>,
                 recycled: set<string>, keys: set<string>, donors: seq<string>)
    requires keys == {} && Swept(oldPool, pool, sessions, recycled - keys, donors)
    ensures Swept(oldPool, pool, sessions, recycled, donors)
  {
    assert recycled - keys == recycled;
  }

  /** Sweeping one more target keeps `seen` the recycled targets already swept. */
  lemma SeenStep(seen: set<string>, recycled: set<string>, keys: set<string>, t: string)
    requires seen == recycled - keys && t in keys
    ensures t !in seen
    ensures (if t in recycled then seen + {t} else seen) == recycled - (keys - {t})
  {
  }

  /** Recyclable depends on the sessions only through their health and age. */
  lemma RecyclableFromHealth(sessions: map<string, DevToolsSession>, health: map<string, bool>, now: int,
                             clearFailures: set<string>, recycled: set<string>)
    requires forall u :: u in sessions ==> u in health && health[u] == sessions[u].healthy
    requires forall u :: u in recycled <==>
               u in health && u in sessions && health[u] && now - sessions[u].createdTime > MaxSessionAgeMs
               && u !in clearFailures
    ensures recycled == Recyclable(sessions, now, clearFailures)
  {
  }

  /** Sweeping target t removes it from the active map exactly when it is stale. */
  lemma RemovedStep(all: map<string, DevToolsSession>, before: map<string, DevToolsSession>,
                    after: map<string, DevToolsSession>, stale: set<string>, keys: set<string>, t: string)
    requires before == all - (stale - keys) && t in keys
    requires after == if t in stale then before - {t} else before
    ensures after == all - (stale - (keys - {t}))
  {
  }

  /** One more target swept: a recycled one adds its handle while the pool has room. */
  lemma SweepStep(oldPool: seq<Handle>, before: seq<Handle>, after: seq<Handle>,
                  sessions: map<string, DevToolsSession>, seen: set<string>, donors: seq<string>,
                  t: string, recycled: bool)
    requires Swept(oldPool, before, sessions, seen, donors) && t !in seen && t in sessions
    requires after == if recycled && |before| < SessionPoolSize then before + [sessions[t].devTools] else before
    ensures Swept(oldPool, after, sessions, if recycled then seen + {t} else seen,
                  if |after| > |before| then donors + [t] else donors)
  {
    var next := if recycled then seen + {t} else seen;
    var nextDonors := if |after| > |before| then donors + [t] else donors;
    if recycled {
      assert |next| == |seen| + 1;
    }
    forall i | 0 <= i < |nextDonors|
      ensures nextDonors[i] in next && nextDonors[i] in sessions
              && after[|oldPool| + i] == sessions[nextDonors[i]].devTools
    {
      if i == |donors| {
        assert after[|oldPool| + i] == sessions[t].devTools;
      } else {
        assert after[|oldPool| + i] == before[|oldPool| + i];
      }
    }
  }

  class SessionManager {
    /** The LinkedBlockingQueue of pre-warmed handles, head first. */
    var pool: seq<Handle>
    var activeSessions: map<string, DevToolsSession>
    var metrics: Stats

    /** The pool never holds more than five handles; the metrics count no more successes than attempts. */
    ghost predicate Valid()
      reads this
    {
      |pool| <= SessionPoolSize && metrics.successful <= metrics.total
    }

    /**
     * initializeSessionPool: five creations without a target; the handles
     * that were created join the pool.
     */
    constructor (prewarmed: seq<Option<Handle>>)
      requires |prewarmed| == SessionPoolSize
      ensures Valid()
      ensures pool == Obtained(prewarmed) && activeSessions == map[] && metrics == EmptyStats
    {
      var warmed: seq<Handle> := [];
      var i := 0;
      while i < SessionPoolSize
        invariant 0 <= i <= SessionPoolSize
        invariant warmed == Obtained(prewarmed[..i])
      {
        ObtainedSnoc(prewarmed, i);
        if prewarmed[i].Some? {
          warmed := warmed + [prewarmed[i].value];
        }
        i := i + 1;
      }
      assert prewarmed[..SessionPoolSize] == prewarmed;
      pool := warmed;
      activeSessions := map[];
      metrics := EmptyStats;
    }

    /**
     * createSessionForTarget: up to three attempts as Run describes. A handle
     * becomes a new healthy session stored under the target (replacing any
     * previous one) and a successful metric; exhaustion records a failed
     * metric and fails with the last cause.
     */
    method CreateSessionForTarget(targetId: string, io: seq<AttemptIo>, elapsed: int, now: int)
      returns (r: Result<DevToolsSession>, sleeps: seq<nat>)
      requires Valid() && MaxRetries <= |io|
      modifies this
      ensures Valid()
      ensures var out := Run(old(pool), io, 1);
              pool == out.pool && sleeps == out.sleeps
              && (r.Ok? <==> out.handle.Some?)
              && (r.Ok? ==> fresh(r.value) && r.value.targetId == targetId && r.value.devTools == out.handle.value
                            && r.value.createdTime == now && r.value.healthy
                            && activeSessions == old(activeSessions)[targetId := r.value]
                            && metrics == Record(old(metrics), elapsed, true))
              && (r.Err? ==> r.message == FailureMessage(targetId, out.threw)
                             && activeSessions == old(activeSessions)
                             && metrics == Record(old(metrics), elapsed, false))
    {
      var handle, rest, threw;
      handle, rest, sleeps, threw := Acquire(pool, io);
      pool := rest;
      r := Register(targetId, handle, threw, elapsed, now);
    }

    /**
     * The end of createSessionForTarget: a handle becomes a new healthy
     * session stored under the target and a successful metric; no handle
     * records a failed metric and fails with the last cause.
     */
    method Register(targetId: string, handle: Option<Handle>, threw: bool, elapsed: int, now: int)
      returns (r: Result<DevToolsSession>)
      requires Valid()
      modifies this
      ensures Valid() && pool == old(pool)
      ensures r.Ok? <==> handle.Some?
      ensures r.Ok? ==> fresh(r.value) && r.value.targetId == targetId && r.value.devTools == handle.value
                        && r.value.createdTime == now && r.value.healthy
                        && activeSessions == old(activeSessions)[targetId := r.value]
                        && metrics == Record(old(metrics), elapsed, true)
      ensures r.Err? ==> r.message == FailureMessage(targetId, threw)
                         && activeSessions == old(activeSessions)
                         && metrics == Record(old(metrics), elapsed, false)
    {
      if handle.None? {
        metrics := Record(metrics, elapsed, false);
        return Err(FailureMessage(targetId, threw));
      }
      var session := new DevToolsSession(targetId, handle.value, now);
      activeSessions := activeSessions[targetId := session];
      metrics := Record(metrics, elapsed, true);
      r := Ok(session);
    }

    /** getSessionForTarget. */
    function GetSessionForTarget(targetId: string): (r: Option<DevToolsSession>)
      reads this
      ensures r.Some? <==> targetId in activeSessions
      ensures r.Some? ==> r.value == activeSessions[targetId]
    {
      if targetId in activeSessions then Some(activeSessions[targetId]) else None
    }

    /**
     * cleanupSession: the target leaves the active map; its handle goes back
     * to the pool only when the session is healthy, its listeners were
     * cleared, and the pool holds fewer than five.
     */
    method CleanupSession(targetId: string, clearOk: bool)
      requires Valid()
      modifies this
      ensures Valid()
      ensures activeSessions == old(activeSessions) - {targetId}
      ensures var returned := targetId in old(activeSessions) && old(activeSessions)[targetId].healthy
                              && clearOk && |old(pool)| < SessionPoolSize;
              pool == if returned then old(pool) + [old(activeSessions)[targetId].devTools] else old(pool)
      ensures metrics == old(metrics)
    {
      if targetId !in activeSessions {
        return;
      }
      var session := activeSessions[targetId];
      activeSessions := activeSessions - {targetId};
      if clearOk && session.healthy && |pool| < SessionPoolSize {
        pool := pool + [session.devTools];
      }
    }

    /**
     * monitorSessionHealth's sweep: every active session that is unhealthy
     * or older than five minutes is cleaned up (in the map's own order; the
     * targets in `clearFailures` fail to clear their listeners), every other
     * one stays. A healthy session evicted for its age whose listeners
     * clear hands its handle back to the pool while the pool has room.
     * Returns how many were removed.
     */
    method EvictStaleSessions(now: int, clearFailures: set<string>) returns (removed: nat)
      requires Valid()
      modifies this
      ensures Valid()
      ensures forall t :: t in activeSessions <==>
                t in old(activeSessions) && !old(Stale(activeSessions[t].healthy, activeSessions[t].createdTime, now))
      ensures forall t :: t in activeSessions ==> activeSessions[t] == old(activeSessions)[t]
      ensures removed == |old(activeSessions)| - |activeSessions|
      ensures exists donors :: Swept(old(pool), pool, old(activeSessions), old(Recyclable(activeSessions, now, clearFailures)), donors)
      ensures metrics == old(metrics)
    {
      ghost var all := activeSessions;
      ghost var health := map u | u in all :: all[u].healthy;
      ghost var stale := set u | u in health && u in all && Stale(health[u], all[u].createdTime, now);
      ghost var recycled := set u | u in health && u in all && health[u] && now - all[u].createdTime > MaxSessionAgeMs
                                    && u !in clearFailures;
      RecyclableFromHealth(all, health, now, clearFailures, recycled);
      var keys := activeSessions.Keys;
      ghost var donors: seq<string> := [];
      SweptStart(pool, all, recycled, keys);
      removed := 0;
      while keys != {}
        invariant Valid() && metrics == old(metrics)
        invariant keys <= activeSessions.Keys
        invariant activeSessions == all - (stale - keys)
        invariant forall u :: u in activeSessions ==> u in health && activeSessions[u].healthy == health[u]
        invariant removed == |all| - |activeSessions|
        invariant Swept(old(pool), pool, all, recycled - keys, donors)
        decreases keys
      {
        var t :| t in keys;
        ghost var sizeBefore := |pool|;
        var evicted := SweepOne(t, now, clearFailures, all, health, stale, recycled, keys, old(pool), donors);
        donors := if |pool| > sizeBefore then donors + [t] else donors;
        keys := keys - {t};
        if evicted {
          removed := removed + 1;
        }
      }
      SweptAll(old(pool), pool, all, recycled, keys, donors);
    }

    /**
     * One turn of the sweep over the targets `keys` still to visit, with
     * the sessions' health as it was when the sweep began: the target is
     * evicted iff it is stale, and its handle joins the pool iff it is
     * recyclable and the pool has room.
     */
    method SweepOne(t: string, now: int, clearFailures: set<string>, ghost all: map<string, DevToolsSession>,
                    ghost health: map<string, bool>, ghost stale: set<string>, ghost recycled: set<string>,
                    ghost keys: set<string>, ghost startPool: seq<Handle>, ghost donors: seq<string>)
      returns (evicted: bool)
      requires Valid() && t in keys && keys <= activeSessions.Keys
      requires activeSessions == all - (stale - keys)
      requires forall u :: u in activeSessions ==> u in health && activeSessions[u].healthy == health[u]
      requires forall u :: u in stale <==> u in health && u in all && Stale(health[u], all[u].createdTime, now)
      requires forall u :: u in recycled <==>
                 u in health && u in all && health[u] && now - all[u].createdTime > MaxSessionAgeMs && u !in clearFailures
      requires Swept(startPool, pool, all, recycled - keys, donors)
      modifies this
      ensures Valid() && metrics == old(metrics)
      ensures keys - {t} <= activeSessions.Keys
      ensures activeSessions == all - (stale - (keys - {t}))
      ensures forall u :: u in activeSessions ==> u in health && activeSessions[u].healthy == health[u]
      ensures evicted == (t in stale)
      ensures |activeSessions| == if evicted then |old(activeSessions)| - 1 else |old(activeSessions)|
      ensures Swept(startPool, pool, all, recycled - (keys - {t}),
                    if |pool| > |old(pool)| then donors + [t] else donors)
    {
      ghost var seen := recycled - keys;
      SeenStep(seen, recycled, keys, t);
      ghost var poolBefore := pool;
      ghost var sessionsBefore := activeSessions;
      evicted := EvictOne(t, now, clearFailures);
      RemovedStep(all, sessionsBefore, activeSessions, stale, keys, t);
      SweepStep(startPool, poolBefore, pool, all, seen, donors, t, t in recycled);
    }

    /** One step of the sweep: a stale session is cleaned up, any other one is left alone. */
    method EvictOne(t: string, now: int, clearFailures: set<string>) returns (evicted: bool)
      requires Valid() && t in activeSessions
      modifies this
      ensures Valid() && metrics == old(metrics)
      ensures var session := old(activeSessions)[t];
              var healthy := old(activeSessions[t].healthy);
              evicted == Stale(healthy, session.createdTime, now)
              && activeSessions == (if evicted then old(activeSessions) - {t} else old(activeSessions))
              && |activeSessions| == (if evicted then |old(activeSessions)| - 1 else |old(activeSessions)|)
              && pool == if evicted && healthy && t !in clearFailures && |old(pool)| < SessionPoolSize
                         then old(pool) + [session.devTools] else old(pool)
      ensures forall u :: u in activeSessions ==> activeSessions[u].healthy == old(activeSessions[u].healthy)
    {
      var session := activeSessions[t];
      evicted := Stale(session.healthy, session.createdTime, now);
      if evicted {
        ghost var before := activeSessions;
        CleanupSession(t, t !in clearFailures);
        assert before == activeSessions[t := session];
      }
    }

    /**
     * replenishSessionPool: exactly max(0, 5 - poolSize) creations are
     * requested; those that yield a handle join the pool.
     */
    method ReplenishSessionPool(created: seq<Option<Handle>>) returns (requested: nat)
      requires Valid() && |created| >= SessionPoolSize
      modifies this
      ensures Valid()
      ensures requested == Max(0, SessionPoolSize - |old(pool)|)
      ensures pool == old(pool) + Obtained(created[..requested])
      ensures activeSessions == old(activeSessions) && metrics == old(metrics)
    {
      var needed := SessionPoolSize - |pool|;
      requested := 0;
      if needed <= 0 {
        assert created[..0] == [];
        return;
      }
      ghost var start := pool;
      var i := 0;
      while i < needed
        invariant 0 <= i <= needed && needed == SessionPoolSize - |start|
        invariant pool == start + Obtained(created[..i])
        invariant activeSessions == old(activeSessions) && metrics == old(metrics)
      {
        ObtainedSnoc(created, i);
        if created[i].Some? {
          pool := pool + [created[i].value];
        }
        i := i + 1;
      }
      requested := needed;
    }

    /** monitorSessionHealth: evict stale sessions, then top the pool back up to five. */
    method MonitorSessionHealth(now: int, clearFailures: set<string>, created: seq<Option<Handle>>)
      returns (removed: nat, requested: nat)
      requires Valid() && |created| >= SessionPoolSize
      modifies this
      ensures Valid()
      ensures forall t :: t in activeSessions <==>
                t in old(activeSessions) && !Stale(old(activeSessions)[t].healthy, old(activeSessions)[t].createdTime, now)
      ensures removed == |old(activeSessions)| - |activeSessions|
      ensures var recycled := old(Recyclable(activeSessions, now, clearFailures));
              var swept := Min(SessionPoolSize, |old(pool)| + |recycled|);
              requested == SessionPoolSize - swept
              && swept <= |pool|
              && (exists donors :: Swept(old(pool), pool[..swept], old(activeSessions), recycled, donors))
              && pool[swept..] == Obtained(created[..requested])
      ensures metrics == old(metrics)
    {
      removed := EvictStaleSessions(now, clearFailures);
      ghost var swept := pool;
      requested := ReplenishSessionPool(created);
      assert pool[..|swept|] == swept;
    }

    /**
     * shutdown: every active session is cleaned up (healthy ones may go back
     * to the pool), then the pool is drained. Both end empty.
     */
    method Shutdown(clearFailures: set<string>)
      requires Valid()
      modifies this
      ensures Valid() && activeSessions == map[] && pool == []
      ensures metrics == old(metrics)
    {
      var keys := activeSessions.Keys;
      while keys != {}
        invariant Valid() && metrics == old(metrics)
        invariant activeSessions.Keys <= keys
        decreases keys
      {
        var t :| t in keys;
        keys := keys - {t};
        CleanupSession(t, t !in clearFailures);
      }
      while pool != []
        invariant Valid() && metrics == old(metrics) && activeSessions == map[]
        decreases |pool|
      {
        pool := pool[1..];
      }
    }
  }
}

/**
 * The screencast frame pipeline of EnhancedFrameCaptureManager: duplicate
 * filtering by content hash, frame validation, saving with retries, the
 * performance window that adapts the capture interval, and the fallback
 * counter shared by every kind of capture failure.
 *
 * Decoding, hashing (MD5), PNG writing, the DevTools acknowledgement and the
 * clock are outside the model: their outcomes arrive as parameters.
 */
module FrameCapture {
  import opened Common

  const DefaultCaptureIntervalMs := 200
  const MinCaptureIntervalMs := 50
  const MaxCaptureIntervalMs := 1000
  const AdaptiveWindowSize := 10
  /** A hash seen less than this many milliseconds ago marks a duplicate. */
  const DuplicateWindowMs := 1000
  /** The hash map is pruned once it holds more than this many entries. */
  const HashMapPruneSize := 100
  /** Pruning drops hashes older than this many milliseconds. */
  const HashMaxAgeMs := 10000
  const MinFrameSide := 100
  const SaveRetries := 3

  // ---------------------------------------------------------------------
  // Modular arithmetic used by the ring buffer
  // ---------------------------------------------------------------------

  lemma MulAtLeast(d: int, c: int)
    requires c > 0 && d >= 1
    ensures d * c >= c
  {
  }

  /** Euclidean division is unique: y = q * c + r with 0 <= r < c fixes y / c and y % c. */
  lemma DivModUnique(y: int, q: int, r: int, c: int)
    requires c > 0 && 0 <= r < c && y == q * c + r
    ensures y / c == q && y % c == r
  {
    var q', r' := y / c, y % c;
    assert (q - q') * c == r' - r;
    if q > q' {
      MulAtLeast(q - q', c);
    } else if q < q' {
      MulAtLeast(q' - q, c);
    }
  }

  lemma ModAddMultiple(x: int, k: nat, c: int)
    requires c > 0
    ensures (x + k * c) % c == x % c
  {
    assert x + k * c == (x / c + k) * c + x % c;
    DivModUnique(x + k * c, x / c + k, x % c, c);
  }

  /** Two positions less than c apart fall into different slots. */
  lemma MulNonPositive(d: int, c: int)
    requires c > 0 && d <= 0
    ensures d * c <= 0
  {
  }

  lemma ModDistinct(j: nat, n: nat, c: nat)
    requires c > 0 && j < n < j + c
    ensures j % c != n % c
  {
    var a, b := j / c, n / c;
    if j % c == n % c {
      var d := b - a;
      assert j == a * c + j % c && n == b * c + n % c;
      assert d * c == n - j;
      if d <= 0 {
        MulNonPositive(d, c);
      } else {
        MulAtLeast(d, c);
      }
    }
  }

  lemma ModSucc(n: nat, c: nat)
    requires c > 0
    ensures (n % c + 1) % c == (n + 1) % c
  {
    var q, r := n / c, n % c;
    assert n == q * c + r;
    if r + 1 < c {
      assert n + 1 == q * c + (r + 1);
      DivModUnique(n + 1, q, r + 1, c);
      DivModUnique(r + 1, 0, r + 1, c);
    } else {
      assert n + 1 == (q + 1) * c + 0;
      DivModUnique(n + 1, q + 1, 0, c);
      DivModUnique(r + 1, 1, 0, c);
    }
  }

  /** Reading from the oldest slot of a full ring: slot (n % c + i) % c holds item n - c + i. */
  lemma ModShift(n: nat, c: nat, i: nat)
    requires c > 0 && n >= c
    ensures (n % c + i) % c == (n - c + i) % c
  {
    var q := n / c;
    assert q >= 1;
    assert n - c + i == (n % c + i) + (q - 1) * c;
    ModAddMultiple(n % c + i, q - 1, c);
  }

  // ---------------------------------------------------------------------
  // The ring buffer behind the performance window
  // ---------------------------------------------------------------------

  /**
   * CircularBuffer: a fixed array written at `head`, which wraps around;
   * `size` grows until the array is full. Empty slots are None (Java null).
   * `history` is every item ever added, oldest first.
   */
  class CircularBuffer<T> {
    const capacity: nat
    const buffer: array<Option<T>>
    var head: nat
    var size: nat
    ghost var history: seq<T>

    /**
     * Item j of the history, for each of the last `size` items, sits in
     * slot j % capacity; `head` is the slot the next item goes to.
     */
    ghost predicate Valid()
      reads this, buffer
    {
      buffer.Length == capacity && capacity > 0
      && head < capacity && size <= capacity
      && size == Min(|history|, capacity)
      && head == |history| % capacity
      && forall j :: |history| - size <= j < |history| ==> buffer[j % capacity] == Some(history[j])
    }

    constructor (capacity: nat)
      requires capacity > 0
      ensures Valid() && fresh(buffer)
      ensures this.capacity == capacity && history == []
    {
      this.capacity := capacity;
      buffer := new Option<T>[capacity](_ => None);
      head := 0;
      size := 0;
      history := [];
    }

    /** add: write the head slot, advance head modulo the capacity, grow size until full. */
    method Add(item: T)
      requires Valid()
      modifies this, buffer
      ensures Valid() && history == old(history) + [item]
    {
      ghost var n := |history|;
      buffer[head] := Some(item);
      ModSucc(n, capacity);
      head := (head + 1) % capacity;
      if size < capacity {
        size := size + 1;
      }
      history := history + [item];
      forall j | n + 1 - size <= j < n + 1
        ensures buffer[j % capacity] == Some(history[j])
      {
        if j < n {
          ModDistinct(j, n, capacity);
        }
      }
    }

    /**
     * getRecentItems: the last min(n, capacity) items added, oldest first,
     * read from slot 0 while the ring is filling and from `head` once full.
     */
    method GetRecentItems() returns (items: seq<T>)
      requires Valid()
      ensures |items| == Min(|history|, capacity)
      ensures items == history[|history| - Min(|history|, capacity)..]
    {
      ghost var first := |history| - size;
      var start := if size < capacity then 0 else head;
      items := [];
      var i := 0;
      while i < size
        invariant 0 <= i <= size
        invariant items == history[first..first + i]
      {
        var index := (start + i) % capacity;
        if size == capacity {
          ModShift(|history|, capacity, i);
        }
        assert index == (first + i) % capacity;
        if buffer[index].Some? {
          items := items + [buffer[index].value];
        }
        i := i + 1;
      }
    }
  }

  // ---------------------------------------------------------------------
  // Performance records and statistics
  // ---------------------------------------------------------------------

  /** FrameMetrics: when a frame finished, how long it took, whether it was saved. */
  datatype FrameMetrics = FrameMetrics(timestamp: int, processingTime: int, success: bool)

  /** The statistics of a history of frame records, updated one record at a time. */
  function Summary(records: seq<FrameMetrics>): Stats
  {
    if records == [] then EmptyStats
    else
      var last := records[|records| - 1];
      Record(Summary(records[..|records| - 1]), last.processingTime, last.success)
  }

  function Successes(records: seq<FrameMetrics>): (n: nat)
    ensures n <= |records|
  {
    if records == [] then 0
    else Successes(records[..|records| - 1]) + (if records[|records| - 1].success then 1 else 0)
  }

  function TotalTime(records: seq<FrameMetrics>): int
  {
    if records == [] then 0 else TotalTime(records[..|records| - 1]) + records[|records| - 1].processingTime
  }

  /** The statistics count every record, exactly the successful ones, and sum the times. */
  lemma {:induction false} SummaryCounts(records: seq<FrameMetrics>)
    ensures Summary(records).total == |records|
    ensures Summary(records).successful == Successes(records)
    ensures Summary(records).sumTime == TotalTime(records)
  {
    if records != [] {
      SummaryCounts(records[..|records| - 1]);
    }
  }

  /** The running maximum bounds every recorded time (from 0). */
  lemma {:induction false} SummaryMaxBounds(records: seq<FrameMetrics>)
    ensures Summary(records).maxTime >= 0
    ensures forall i :: 0 <= i < |records| ==> records[i].processingTime <= Summary(records).maxTime
  {
    if records != [] {
      var init := records[..|records| - 1];
      SummaryMaxBounds(init);
      assert forall i :: 0 <= i < |init| ==> init[i] == records[i];
    }
  }

  // ---------------------------------------------------------------------
  // Adaptive capture interval
  // ---------------------------------------------------------------------

  /** The capture interval lies within [50, 1000] ms. */
  predicate IntervalInRange(interval: int)
  {
    MinCaptureIntervalMs <= interval <= MaxCaptureIntervalMs
  }

  /** A full enough window with a success rate below 0.8. */
  predicate PoorPerformance(recent: seq<FrameMetrics>)
  {
    |recent| >= 5 && 5 * Successes(recent) < 4 * |recent|
  }

  /** A full enough window with a success rate above 0.95 and a mean time below half the interval. */
  predicate ExcellentPerformance(recent: seq<FrameMetrics>, current: int)
  {
    |recent| >= 5 && 20 * Successes(recent) > 19 * |recent| && 2 * TotalTime(recent) < current * |recent|
  }

  /**
   * adjustCaptureIntervalBasedOnPerformance, on the recent window: slow down
   * by 50 ms when performance is poor, speed up by 25 ms when it is
   * excellent, within [50, 1000]. The success rate s / n is compared with 0.8
   * and 0.95, and the mean time with half the interval, by cross-multiplying.
   */
  function NewInterval(recent: seq<FrameMetrics>, current: int): (r: int)
    ensures |recent| < 5 ==> r == current
    ensures PoorPerformance(recent) ==> r == Min(current + 50, MaxCaptureIntervalMs)
    ensures ExcellentPerformance(recent, current) ==> r == Max(current - 25, MinCaptureIntervalMs)
    ensures !PoorPerformance(recent) && !ExcellentPerformance(recent, current) ==> r == current
    ensures IntervalInRange(current) ==> IntervalInRange(r) && current - 25 <= r <= current + 50
    ensures IntervalInRange(current) ==> (r > current <==> PoorPerformance(recent) && current < MaxCaptureIntervalMs)
    ensures IntervalInRange(current) ==> (r < current <==> ExcellentPerformance(recent, current) && current > MinCaptureIntervalMs)
  {
    var n := |recent|;
    if n < 5 then current
    else
      var s := Successes(recent);
      if 5 * s < 4 * n then Min(current + 50, MaxCaptureIntervalMs)
      else if 20 * s > 19 * n && 2 * TotalTime(recent) < current * n then Max(current - 25, MinCaptureIntervalMs)
      else current
  }

  // ---------------------------------------------------------------------
  // Saving with retries
  // ---------------------------------------------------------------------

  /** Whether the frame was written, and the progressive delays slept before that. */
  datatype SaveOutcome = SaveOutcome(saved: bool, sleeps: seq<nat>)

  /**
   * saveFrameWithRetry from `attempt` on: writeOk[k] is whether attempt k + 1
   * writes the file, interrupted[k] whether the sleep after a failed attempt
   * k + 1 is interrupted (which abandons the save).
   */
  function RetrySave(writeOk: seq<bool>, interrupted: seq<bool>, attempt: nat, maxRetries: nat): SaveOutcome
    requires 1 <= attempt && maxRetries <= |writeOk| && maxRetries <= |interrupted|
    decreases maxRetries + 1 - attempt
  {
    if attempt > maxRetries then SaveOutcome(false, [])
    else if writeOk[attempt - 1] then SaveOutcome(true, [])
    else if attempt < maxRetries then
      if interrupted[attempt - 1] then SaveOutcome(false, [])
      else
        var rest := RetrySave(writeOk, interrupted, attempt + 1, maxRetries);
        SaveOutcome(rest.saved, [50 * attempt] + rest.sleeps)
    else SaveOutcome(false, [])
  }

  /** Attempts `attempt` up to k (exclusive) all fail and none of their sleeps is interrupted. */
  predicate ReachesAttempt(writeOk: seq<bool>, interrupted: seq<bool>, attempt: nat, k: nat)
    requires 1 <= attempt && k <= |writeOk| && k <= |interrupted|
  {
    forall j :: attempt - 1 <= j < k - 1 ==> !writeOk[j] && !interrupted[j]
  }

  /**
   * The save succeeds exactly when some attempt within the limit writes the
   * file and every earlier attempt failed without being interrupted; the
   * delays are 50, 100, 150, ... ms, one per failed attempt that is not the last.
   */
  lemma {:induction false} RetrySaveMeaning(writeOk: seq<bool>, interrupted: seq<bool>, attempt: nat, maxRetries: nat)
    requires 1 <= attempt && maxRetries <= |writeOk| && maxRetries <= |interrupted|
    ensures var r := RetrySave(writeOk, interrupted, attempt, maxRetries);
            (r.saved <==> exists k :: attempt <= k <= maxRetries && writeOk[k - 1]
                                      && ReachesAttempt(writeOk, interrupted, attempt, k))
            && |r.sleeps| < Max(maxRetries + 1 - attempt, 1)
            && forall i :: 0 <= i < |r.sleeps| ==> r.sleeps[i] == 50 * (attempt + i)
    decreases maxRetries + 1 - attempt
  {
    var r := RetrySave(writeOk, interrupted, attempt, maxRetries);
    if attempt > maxRetries {
    } else if writeOk[attempt - 1] {
      assert ReachesAttempt(writeOk, interrupted, attempt, attempt);
    } else if attempt < maxRetries && !interrupted[attempt - 1] {
      RetrySaveMeaning(writeOk, interrupted, attempt + 1, maxRetries);
      var rest := RetrySave(writeOk, interrupted, attempt + 1, maxRetries);
      if rest.saved {
        var k :| attempt + 1 <= k <= maxRetries && writeOk[k - 1] && ReachesAttempt(writeOk, interrupted, attempt + 1, k);
        assert ReachesAttempt(writeOk, interrupted, attempt, k);
      }
      forall k | attempt <= k <= maxRetries && writeOk[k - 1] && ReachesAttempt(writeOk, interrupted, attempt, k)
        ensures k > attempt && ReachesAttempt(writeOk, interrupted, attempt + 1, k)
      {
      }
    }
  }

  /** saveFrameWithRetry: up to maxRetries writes, sleeping 50 * attempt ms after each failure but the last. */
  method SaveFrameWithRetry(writeOk: seq<bool>, interrupted: seq<bool>, maxRetries: nat) returns (saved: bool, sleeps: seq<nat>)
    requires maxRetries <= |writeOk| && maxRetries <= |interrupted|
    ensures SaveOutcome(saved, sleeps) == RetrySave(writeOk, interrupted, 1, maxRetries)
  {
    ghost var whole := RetrySave(writeOk, interrupted, 1, maxRetries);
    sleeps := [];
    var attempt := 1;
    while attempt <= maxRetries
      invariant 1 <= attempt
      invariant attempt <= maxRetries + 1
      invariant whole == SaveOutcome(RetrySave(writeOk, interrupted, attempt, maxRetries).saved,
                            sleeps + RetrySave(writeOk, interrupted, attempt, maxRetries).sleeps)
      decreases maxRetries + 1 - attempt
    {
      if writeOk[attempt - 1] {
        return true, sleeps;
      }
      if attempt < maxRetries {
        if interrupted[attempt - 1] {
          break;
        }
        sleeps := sleeps + [50 * attempt];
      } else {
        assert RetrySave(writeOk, interrupted, attempt + 1, maxRetries) == SaveOutcome(false, []);
      }
      attempt := attempt + 1;
    }
    saved := false;
  }

  // ---------------------------------------------------------------------
  // Fallback counter
  // ---------------------------------------------------------------------

  /** The three kinds of capture failure, all counted by one shared counter. */
  datatype FailureKind = FrameFailure | TimedCaptureFailure | DomTriggerFailure

  /** The fallback-related fields: the shared failure counter, the interval and the two capture switches. */
  datatype FallbackState = FallbackState(attempts: nat, interval: int, timedCapture: bool, domTriggers: bool)

  /** activateFallbackMechanism: double the interval (capped at 1000) and reset the counter. */
  function ActivateFallback(s: FallbackState): (r: FallbackState)
    ensures r.attempts == 0 && r.timedCapture == s.timedCapture && r.domTriggers == s.domTriggers
    ensures r.interval <= 2 * s.interval && r.interval <= MaxCaptureIntervalMs
    ensures r.interval == 2 * s.interval || r.interval == MaxCaptureIntervalMs
    ensures 0 <= s.interval <= MaxCaptureIntervalMs ==> r.interval >= s.interval
  {
    s.(interval := Min(s.interval * 2, MaxCaptureIntervalMs), attempts := 0)
  }

  /**
   * recordFrameFailure, recordTimedCaptureFailure and recordDOMTriggerFailure:
   * the counter rises; more than 5 frame failures activate the fallback, more
   * than 3 (timed) or 5 (DOM) failures switch that capture path off.
   */
  function OnFailure(kind: FailureKind, s: FallbackState): (r: FallbackState)
    ensures r.timedCapture ==> s.timedCapture
    ensures r.domTriggers ==> s.domTriggers
    ensures kind == FrameFailure ==>
              (if s.attempts + 1 > 5 then r == ActivateFallback(s) else r == s.(attempts := s.attempts + 1))
    ensures kind == TimedCaptureFailure ==>
              r.attempts == s.attempts + 1 && r.interval == s.interval && r.domTriggers == s.domTriggers
              && (r.timedCapture <==> s.timedCapture && s.attempts + 1 <= 3)
    ensures kind == DomTriggerFailure ==>
              r.attempts == s.attempts + 1 && r.interval == s.interval && r.timedCapture == s.timedCapture
              && (r.domTriggers <==> s.domTriggers && s.attempts + 1 <= 5)
  {
    var failures := s.attempts + 1;
    match kind
    case FrameFailure =>
      if failures > 5 then ActivateFallback(s.(attempts := failures)) else s.(attempts := failures)
    case TimedCaptureFailure =>
      s.(attempts := failures, timedCapture := s.timedCapture && failures <= 3)
    case DomTriggerFailure =>
      s.(attempts := failures, domTriggers := s.domTriggers && failures <= 5)
  }

  /** A run of failures, in order. */
  function OnFailures(kinds: seq<FailureKind>, s: FallbackState): FallbackState
    decreases |kinds|
  {
    if kinds == [] then s else OnFailures(kinds[1..], OnFailure(kinds[0], s))
  }

  /**
   * Whatever failures occur, a switched-off capture path stays off and an
   * interval within [50, 1000] stays within it.
   */
  lemma {:induction false} FailuresKeepFallbackInvariants(kinds: seq<FailureKind>, s: FallbackState)
    ensures OnFailures(kinds, s).timedCapture ==> s.timedCapture
    ensures OnFailures(kinds, s).domTriggers ==> s.domTriggers
    ensures IntervalInRange(s.interval) ==> IntervalInRange(OnFailures(kinds, s).interval)
    decreases |kinds|
  {
    if kinds != [] {
      FailuresKeepFallbackInvariants(kinds[1..], OnFailure(kinds[0], s));
    }
  }

  /** Frame failures alone never leave the counter above 5: the sixth activates the fallback. */
  lemma {:induction false} FrameFailuresBoundCounter(count: nat, s: FallbackState)
    requires s.attempts <= 5
    ensures OnFailures(seq(count, _ => FrameFailure), s).attempts <= 5
    decreases count
  {
    if count > 0 {
      var kinds := seq(count, _ => FrameFailure);
      assert kinds[1..] == seq(count - 1, _ => FrameFailure);
      FrameFailuresBoundCounter(count - 1, OnFailure(FrameFailure, s));
    }
  }

  // ---------------------------------------------------------------------
  // Duplicate detection
  // ---------------------------------------------------------------------

  /** cleanupOldFrameHashes: keep only the hashes stored at most 10000 ms before `now`. */
  function PruneHashes(hashes: map<string, int>, now: int): (r: map<string, int>)
    ensures forall h :: h in r <==> h in hashes && now - hashes[h] <= HashMaxAgeMs
    ensures forall h :: h in r ==> r[h] == hashes[h]
  {
    map h | h in hashes && now - hashes[h] <= HashMaxAgeMs :: hashes[h]
  }

  predicate IsDuplicate(hashes: map<string, int>, hash: string, now: int)
  {
    hash in hashes && now - hashes[hash] < DuplicateWindowMs
  }

  /** The hash map after a non-duplicate: the hash stored with the current time, pruned once it has grown past 100. */
  function Remember(hashes: map<string, int>, hash: string, now: int): map<string, int>
  {
    var stored := hashes[hash := now];
    if |stored| > HashMapPruneSize then PruneHashes(stored, now) else stored
  }

  /**
   * A non-duplicate is remembered with the current time, so the same content
   * arriving again less than a second later is a duplicate.
   */
  lemma RememberedHashIsDuplicateWithinWindow(hashes: map<string, int>, hash: string, now: int, later: int)
    requires now <= later < now + DuplicateWindowMs
    ensures hash in Remember(hashes, hash, now) && Remember(hashes, hash, now)[hash] == now
    ensures IsDuplicate(Remember(hashes, hash, now), hash, later)
  {
  }

  /** Remembering never loses a hash stored within the last 10 seconds. */
  lemma RememberKeepsRecentHashes(hashes: map<string, int>, hash: string, now: int, other: string)
    requires other in hashes && other != hash && now - hashes[other] <= HashMaxAgeMs
    ensures other in Remember(hashes, hash, now) && Remember(hashes, hash, now)[other] == hashes[other]
  {
  }

  // ---------------------------------------------------------------------
  // The manager
  // ---------------------------------------------------------------------

  /**
   * What the listener learns about one screencast frame: its session id (for
   * the acknowledgement), the MD5 digest of its data (None when the data
   * cannot be decoded for hashing), and the decoded image's size and 50 x 50
   * corner sample (None when ImageIO cannot read it).
   */
  datatype FrameEvent = FrameEvent(sessionId: nat, hash: Option<string>, image: Option<Decoded>)
  datatype Decoded = Decoded(width: nat, height: nat, sample: seq<int>)

  /** The outcome of one PNG save: per-attempt write results and sleep interruptions. */
  datatype SaveIo = SaveIo(writeOk: seq<bool>, interrupted: seq<bool>)

  class FrameCaptureManager {
    var frameCounter: nat
    var lastFrameTimestamp: int
    var currentCaptureInterval: int
    var frameHashMap: map<string, int>
    var processedFrameIds: set<nat>
    const performanceHistory: CircularBuffer<FrameMetrics>
    var currentStats: Stats
    var useTimedCapture: bool
    var useDomTriggers: bool
    var fallbackAttempts: nat
    /** The session ids of every acknowledged frame, in order. */
    var acknowledged: seq<nat>

    /**
     * The window holds the last 10 records, the statistics summarise every
     * record, the interval stays within [50, 1000], and every processed frame
     * number has been issued by the counter.
     */
    ghost predicate Valid()
      reads this, performanceHistory, performanceHistory.buffer
    {
      performanceHistory.Valid() && performanceHistory.capacity == AdaptiveWindowSize
      && currentStats == Summary(performanceHistory.history)
      && IntervalInRange(currentCaptureInterval)
      && forall id :: id in processedFrameIds ==> 1 <= id <= frameCounter
    }

    function Fallback(): FallbackState
      reads this
    {
      FallbackState(fallbackAttempts, currentCaptureInterval, useTimedCapture, useDomTriggers)
    }

    constructor ()
      ensures Valid() && fresh(performanceHistory) && fresh(performanceHistory.buffer)
      ensures frameCounter == 0 && frameHashMap == map[] && processedFrameIds == {} && acknowledged == []
      ensures Fallback() == FallbackState(0, DefaultCaptureIntervalMs, true, true)
      ensures performanceHistory.history == [] && currentStats == EmptyStats
    {
      frameCounter := 0;
      lastFrameTimestamp := 0;
      currentCaptureInterval := DefaultCaptureIntervalMs;
      frameHashMap := map[];
      processedFrameIds := {};
      performanceHistory := new CircularBuffer<FrameMetrics>(AdaptiveWindowSize);
      currentStats := EmptyStats;
      useTimedCapture := true;
      useDomTriggers := true;
      fallbackAttempts := 0;
      acknowledged := [];
    }

    /**
     * isDuplicateFrame: a hash seen less than a second ago is a duplicate and
     * changes nothing; otherwise the hash is remembered. Without a hash the
     * frame is not a duplicate.
     */
    method IsDuplicateFrame(hash: Option<string>, now: int) returns (duplicate: bool)
      modifies this
      ensures duplicate <==> hash.Some? && IsDuplicate(old(frameHashMap), hash.value, now)
      ensures frameHashMap == (if hash.None? || duplicate then old(frameHashMap)
                               else Remember(old(frameHashMap), hash.value, now))
      ensures frameCounter == old(frameCounter) && currentCaptureInterval == old(currentCaptureInterval)
      ensures processedFrameIds == old(processedFrameIds) && currentStats == old(currentStats)
      ensures Fallback() == old(Fallback()) && acknowledged == old(acknowledged)
      ensures lastFrameTimestamp == old(lastFrameTimestamp)
    {
      if hash.None? {
        return false;
      }
      var h := hash.value;
      if h in frameHashMap && now - frameHashMap[h] < DuplicateWindowMs {
        return true;
      }
      frameHashMap := frameHashMap[h := now];
      if |frameHashMap| > HashMapPruneSize {
        CleanupOldFrameHashes(now);
      }
      duplicate := false;
    }

    method CleanupOldFrameHashes(now: int)
      modifies this
      ensures frameHashMap == PruneHashes(old(frameHashMap), now)
      ensures frameCounter == old(frameCounter) && currentCaptureInterval == old(currentCaptureInterval)
      ensures processedFrameIds == old(processedFrameIds) && currentStats == old(currentStats)
      ensures Fallback() == old(Fallback()) && acknowledged == old(acknowledged)
      ensures lastFrameTimestamp == old(lastFrameTimestamp)
    {
      frameHashMap := PruneHashes(frameHashMap, now);
    }

    method AcknowledgeFrame(sessionId: nat)
      modifies this
      ensures acknowledged == old(acknowledged) + [sessionId]
      ensures frameCounter == old(frameCounter) && frameHashMap == old(frameHashMap)
      ensures processedFrameIds == old(processedFrameIds) && currentStats == old(currentStats)
      ensures Fallback() == old(Fallback()) && lastFrameTimestamp == old(lastFrameTimestamp)
    {
      acknowledged := acknowledged + [sessionId];
    }

    /** updatePerformanceMetrics: one record into the window, the statistics updated by it. */
    method UpdatePerformanceMetrics(processingTime: int, success: bool, now: int)
      requires Valid()
      modifies this, performanceHistory, performanceHistory.buffer
      ensures Valid()
      ensures performanceHistory.history == old(performanceHistory.history) + [FrameMetrics(now, processingTime, success)]
      ensures currentStats == Record(old(currentStats), processingTime, success)
      ensures frameCounter == old(frameCounter) && frameHashMap == old(frameHashMap)
      ensures processedFrameIds == old(processedFrameIds) && Fallback() == old(Fallback())
      ensures acknowledged == old(acknowledged) && lastFrameTimestamp == old(lastFrameTimestamp)
    {
      ghost var before := performanceHistory.history;
      performanceHistory.Add(FrameMetrics(now, processingTime, success));
      assert performanceHistory.history[..|performanceHistory.history| - 1] == before;
      currentStats := Record(currentStats, processingTime, success);
    }

    /** adjustCaptureIntervalBasedOnPerformance, on the current window. */
    method AdjustCaptureInterval()
      requires Valid()
      modifies this
      ensures Valid()
      ensures currentCaptureInterval
           == NewInterval(performanceHistory.history[|performanceHistory.history| - Min(|performanceHistory.history|, AdaptiveWindowSize)..],
                          old(currentCaptureInterval))
      ensures fallbackAttempts == old(fallbackAttempts) && useTimedCapture == old(useTimedCapture)
      ensures useDomTriggers == old(useDomTriggers) && frameHashMap == old(frameHashMap)
      ensures frameCounter == old(frameCounter) && processedFrameIds == old(processedFrameIds)
      ensures currentStats == old(currentStats) && acknowledged == old(acknowledged)
    {
      var recent := performanceHistory.GetRecentItems();
      currentCaptureInterval := NewInterval(recent, currentCaptureInterval);
    }

    /** activateFallbackMechanism. */
    method ActivateFallbackMechanism()
      requires Valid()
      modifies this
      ensures Valid() && Fallback() == ActivateFallback(old(Fallback()))
      ensures frameCounter == old(frameCounter) && frameHashMap == old(frameHashMap)
      ensures processedFrameIds == old(processedFrameIds) && currentStats == old(currentStats)
      ensures acknowledged == old(acknowledged) && lastFrameTimestamp == old(lastFrameTimestamp)
    {
      currentCaptureInterval := Min(currentCaptureInterval * 2, MaxCaptureIntervalMs);
      fallbackAttempts := 0;
    }

    /** recordFrameFailure, recordTimedCaptureFailure and recordDOMTriggerFailure. */
    method RecordFailure(kind: FailureKind)
      requires Valid()
      modifies this
      ensures Valid() && Fallback() == OnFailure(kind, old(Fallback()))
      ensures frameCounter == old(frameCounter) && frameHashMap == old(frameHashMap)
      ensures processedFrameIds == old(processedFrameIds) && currentStats == old(currentStats)
      ensures acknowledged == old(acknowledged) && lastFrameTimestamp == old(lastFrameTimestamp)
    {
      fallbackAttempts := fallbackAttempts + 1;
      match kind
      case FrameFailure =>
        if fallbackAttempts > 5 {
          ActivateFallbackMechanism();
        }
      case TimedCaptureFailure =>
        if fallbackAttempts > 3 {
          useTimedCapture := false;
        }
      case DomTriggerFailure =>
        if fallbackAttempts > 5 {
          useDomTriggers := false;
        }
    }

    /**
     * triggerFrameCapture: nothing once DOM triggers are off; otherwise the
     * trigger script runs, and an exception (None) or a result starting with
     * "error" counts as a DOM-trigger failure.
     */
    method TriggerFrameCapture(scriptResult: Option<string>)
      requires Valid()
      modifies this
      ensures Valid()
      ensures var failed := old(useDomTriggers)
                            && (scriptResult.None? || (|scriptResult.value| >= 5 && scriptResult.value[..5] == "error"));
              Fallback() == (if failed then OnFailure(DomTriggerFailure, old(Fallback())) else old(Fallback()))
      ensures frameCounter == old(frameCounter) && frameHashMap == old(frameHashMap)
      ensures processedFrameIds == old(processedFrameIds) && currentStats == old(currentStats)
      ensures acknowledged == old(acknowledged)
    {
      if !useDomTriggers {
        return;
      }
      if scriptResult.None? || (|scriptResult.value| >= 5 && scriptResult.value[..5] == "error") {
        RecordFailure(DomTriggerFailure);
      }
    }

    /**
     * setupAdaptiveTimedCapture: skipped while timed capture is off; a task
     * that cannot be scheduled activates the fallback.
     */
    method SetupAdaptiveTimedCapture(scheduled: bool) returns (started: bool)
      requires Valid()
      modifies this
      ensures Valid()
      ensures started <==> old(useTimedCapture) && scheduled
      ensures Fallback() == (if old(useTimedCapture) && !scheduled then ActivateFallback(old(Fallback()))
                             else old(Fallback()))
      ensures frameCounter == old(frameCounter) && frameHashMap == old(frameHashMap)
      ensures processedFrameIds == old(processedFrameIds) && currentStats == old(currentStats)
      ensures acknowledged == old(acknowledged)
    {
      if !useTimedCapture {
        return false;
      }
      if !scheduled {
        ActivateFallbackMechanism();
        return false;
      }
      started := true;
    }

    /**
     * The body of processFrame's try block: a decoded image of at least
     * 100 x 100 pixels gets the next frame number and is saved with retries.
     */
    method DecodeAndSave(image: Option<Decoded>, save: SaveIo, now: int) returns (success: bool)
      requires Valid()
      requires image.Some? && image.value.width >= MinFrameSide && image.value.height >= MinFrameSide
               ==> |image.value.sample| == 50 * 50
      requires SaveRetries <= |save.writeOk| && SaveRetries <= |save.interrupted|
      modifies this
      ensures Valid()
      ensures var accepted := image.Some? && image.value.width >= MinFrameSide && image.value.height >= MinFrameSide;
              (frameCounter == if accepted then old(frameCounter) + 1 else old(frameCounter))
              && (processedFrameIds == if accepted then old(processedFrameIds) + {frameCounter} else old(processedFrameIds))
              && (success <==> accepted && RetrySave(save.writeOk, save.interrupted, 1, SaveRetries).saved)
      ensures success ==> lastFrameTimestamp == now
      ensures !success ==> lastFrameTimestamp == old(lastFrameTimestamp)
      ensures frameHashMap == old(frameHashMap) && currentStats == old(currentStats)
      ensures Fallback() == old(Fallback()) && acknowledged == old(acknowledged)
    {
      success := false;
      if image.None? {
        return;
      }
      var valid, uniform := IsValidFrame(image.value.width, image.value.height, image.value.sample);
      if !valid {
        return;
      }
      frameCounter := frameCounter + 1;
      var frameNumber := frameCounter;
      if frameNumber in processedFrameIds {
        return;
      }
      processedFrameIds := processedFrameIds + {frameNumber};
      var saved, sleeps := SaveFrameWithRetry(save.writeOk, save.interrupted, SaveRetries);
      if saved {
        lastFrameTimestamp := now;
        success := true;
      }
    }

    /**
     * processFrame: decode, validate, number, save with retries. The frame is
     * acknowledged whatever happens; a saved frame records a successful
     * metric, any other outcome a failed one and a frame failure.
     */
    method ProcessFrame(event: FrameEvent, save: SaveIo, captureStart: int, now: int) returns (success: bool)
      requires Valid()
      requires event.image.Some? && event.image.value.width >= MinFrameSide && event.image.value.height >= MinFrameSide
               ==> |event.image.value.sample| == 50 * 50
      requires SaveRetries <= |save.writeOk| && SaveRetries <= |save.interrupted|
      modifies this, performanceHistory, performanceHistory.buffer
      ensures Valid()
      ensures var accepted := event.image.Some? && event.image.value.width >= MinFrameSide
                              && event.image.value.height >= MinFrameSide;
              (frameCounter == if accepted then old(frameCounter) + 1 else old(frameCounter))
              && (processedFrameIds == if accepted then old(processedFrameIds) + {frameCounter} else old(processedFrameIds))
              && (success <==> accepted && RetrySave(save.writeOk, save.interrupted, 1, SaveRetries).saved)
      ensures acknowledged == old(acknowledged) + [event.sessionId]
      ensures performanceHistory.history == old(performanceHistory.history) + [FrameMetrics(now, now - captureStart, success)]
      ensures currentStats == Record(old(currentStats), now - captureStart, success)
      ensures Fallback() == (if success then old(Fallback()) else OnFailure(FrameFailure, old(Fallback())))
      ensures success ==> lastFrameTimestamp == now
      ensures !success ==> lastFrameTimestamp == old(lastFrameTimestamp)
      ensures frameHashMap == old(frameHashMap)
    {
      success := DecodeAndSave(event.image, save, now);
      AcknowledgeFrame(event.sessionId);
      UpdatePerformanceMetrics(now - captureStart, success, now);
      if !success {
        RecordFailure(FrameFailure);
      }
    }

    /**
     * The frame listener: a duplicate is acknowledged at once; any other
     * frame is processed (which acknowledges it). Either way exactly one
     * acknowledgement is sent.
     */
    method OnScreencastFrame(event: FrameEvent, save: SaveIo, captureStart: int, now: int)
      returns (duplicate: bool, success: bool)
      requires Valid()
      requires event.image.Some? && event.image.value.width >= MinFrameSide && event.image.value.height >= MinFrameSide
               ==> |event.image.value.sample| == 50 * 50
      requires SaveRetries <= |save.writeOk| && SaveRetries <= |save.interrupted|
      modifies this, performanceHistory, performanceHistory.buffer
      ensures Valid()
      ensures acknowledged == old(acknowledged) + [event.sessionId]
      ensures duplicate <==> event.hash.Some? && IsDuplicate(old(frameHashMap), event.hash.value, captureStart)
      ensures duplicate ==> !success && performanceHistory.history == old(performanceHistory.history)
                            && currentStats == old(currentStats) && Fallback() == old(Fallback())
                            && frameCounter == old(frameCounter) && processedFrameIds == old(processedFrameIds)
                            && lastFrameTimestamp == old(lastFrameTimestamp)
      ensures !duplicate ==> performanceHistory.history
                             == old(performanceHistory.history) + [FrameMetrics(now, now - captureStart, success)]
      ensures !duplicate ==>
                var accepted := event.image.Some? && event.image.value.width >= MinFrameSide
                                && event.image.value.height >= MinFrameSide;
                (frameCounter == if accepted then old(frameCounter) + 1 else old(frameCounter))
                && (processedFrameIds == if accepted then old(processedFrameIds) + {frameCounter} else old(processedFrameIds))
                && (success <==> accepted && RetrySave(save.writeOk, save.interrupted, 1, SaveRetries).saved)
                && (lastFrameTimestamp == if success then now else old(lastFrameTimestamp))
                && currentStats == Record(old(currentStats), now - captureStart, success)
                && Fallback() == (if success then old(Fallback()) else OnFailure(FrameFailure, old(Fallback())))
      ensures frameHashMap == (if event.hash.None? || duplicate then old(frameHashMap)
                               else Remember(old(frameHashMap), event.hash.value, captureStart))
    {
      duplicate := IsDuplicateFrame(event.hash, captureStart);
      if duplicate {
        AcknowledgeFrame(event.sessionId);
        success := false;
      } else {
        success := ProcessFrame(event, save, captureStart, now);
      }
    }

    /** shutdown: the hash map and the processed frame numbers are cleared. */
    method Shutdown()
      requires Valid()
      modifies this
      ensures Valid() && frameHashMap == map[] && processedFrameIds == {}
      ensures frameCounter == old(frameCounter) && currentStats == old(currentStats)
      ensures Fallback() == old(Fallback()) && acknowledged == old(acknowledged)
    {
      frameHashMap := map[];
      processedFrameIds := {};
    }
  }

  /**
   * isValidFrame: frames narrower or lower than 100 pixels are rejected. For
   * the others the 50 x 50 corner sample is scanned; a uniform sample only
   * raises a warning and the frame is still valid.
   */
  method IsValidFrame(width: nat, height: nat, sample: seq<int>) returns (valid: bool, uniformWarning: bool)
    requires width >= MinFrameSide && height >= MinFrameSide ==> |sample| == 50 * 50
    ensures valid <==> width >= MinFrameSide && height >= MinFrameSide
    ensures uniformWarning <==> valid && forall i :: 0 <= i < |sample| ==> sample[i] == sample[0]
  {
    if width < MinFrameSide || height < MinFrameSide {
      return false, false;
    }
    var allSame := true;
    var first := sample[0];
    var i := 0;
    while i < |sample|
      invariant 0 <= i <= |sample|
      invariant allSame <==> forall j :: 0 <= j < i ==> sample[j] == first
    {
      if sample[i] != first {
        allSame := false;
        break;
      }
      i := i + 1;
    }
    return true, allSame;
  }
}

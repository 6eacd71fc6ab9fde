/**
 * The context-aware wait utility: which network requests count as critical,
 * the polling loop that decides that the network has gone idle, the DOM
 * stability threshold, and the timeouts the page-load and element-interaction
 * strategies give their sub-checks. Regular-expression matching
 * (Matcher.find) is the parameter `find`; the clock readings and the state of
 * the critical-request set at each poll are an input sequence.
 */
module SmartWait {
  import opened Common

  /** A compiled URL pattern; `find(p, url)` stands for p.matcher(url).find(). */
  type Pattern = string

  const DefaultIgnoredUrlPatterns: set<Pattern> := {
    ".*google-analytics\\.com.*", ".*googletagmanager\\.com.*", ".*facebook\\.com.*",
    ".*doubleclick\\.net.*", ".*fullstory\\.com.*", ".*hotjar\\.com.*", ".*mixpanel\\.com.*",
    ".*segment\\.io.*", ".*amplitude\\.com.*",
    ".*espncricinfo\\.com.*analytics.*", ".*espncricinfo\\.com.*tracking.*",
    ".*chartbeat\\.com.*", ".*parsely\\.com.*", ".*outbrain\\.com.*", ".*taboola\\.com.*"
  }

  const DefaultIgnoredResourceTypes: set<string> := {"image", "font", "media", "texttrack"}

  const DomMutationThreshold := 5

  // ---------------------------------------------------------------------
  // Request classification
  // ---------------------------------------------------------------------

  /**
   * isCriticalRequest: not critical when any ignored pattern finds a match in
   * the URL, or when the lower-cased resource type is ignored; otherwise
   * critical exactly for xhr, fetch and document, in any letter case.
   */
  function IsCriticalRequest(patterns: set<Pattern>, ignoredTypes: set<string>,
                             find: (Pattern, string) -> bool, url: string, resourceType: string): (critical: bool)
    ensures (exists p :: p in patterns && find(p, url)) ==> !critical
    ensures ToLower(resourceType) in ignoredTypes ==> !critical
    ensures critical ==> ToLower(resourceType) in {"xhr", "fetch", "document"}
  {
    CriticalTypesAreLowerCase();
    if exists p :: p in patterns && find(p, url) then false
    else if ToLower(resourceType) in ignoredTypes then false
    else EqualsIgnoreCase(resourceType, "xhr") || EqualsIgnoreCase(resourceType, "fetch")
         || EqualsIgnoreCase(resourceType, "document")
  }

  /** The three critical resource types are already in lower case. */
  lemma CriticalTypesAreLowerCase()
    ensures ToLower("xhr") == "xhr" && ToLower("fetch") == "fetch" && ToLower("document") == "document"
  {
    assert ToLower("xhr") == "xhr";
    assert ToLower("fetch") == "fetch";
    assert ToLower("document") == "document";
  }

  /** The classification sees the resource type only through its lower-cased form. */
  lemma CriticalIgnoresCase(patterns: set<Pattern>, ignoredTypes: set<string>,
                            find: (Pattern, string) -> bool, url: string, a: string, b: string)
    requires ToLower(a) == ToLower(b)
    ensures IsCriticalRequest(patterns, ignoredTypes, find, url, a)
         == IsCriticalRequest(patterns, ignoredTypes, find, url, b)
  {
  }

  /** An xhr, fetch or document request whose URL no pattern matches and whose type is not ignored is critical. */
  lemma CriticalWhenNotFiltered(patterns: set<Pattern>, ignoredTypes: set<string>,
                                find: (Pattern, string) -> bool, url: string, resourceType: string)
    requires forall p :: p in patterns ==> !find(p, url)
    requires ToLower(resourceType) !in ignoredTypes
    requires ToLower(resourceType) in {"xhr", "fetch", "document"}
    ensures IsCriticalRequest(patterns, ignoredTypes, find, url, resourceType)
  {
    CriticalTypesAreLowerCase();
    var lower := ToLower(resourceType);
    assert !(exists p :: p in patterns && find(p, url));
    assert EqualsIgnoreCase(resourceType, "xhr") || EqualsIgnoreCase(resourceType, "fetch")
           || EqualsIgnoreCase(resourceType, "document");
  }

  /** The configurable filters of one wait instance. */
  class RequestFilters {
    var ignoredUrlPatterns: set<Pattern>
    var ignoredResourceTypes: set<string>

    /** initializeDefaultFilters: analytics, tracking and media patterns; image, font, media and texttrack types. */
    constructor ()
      ensures ignoredUrlPatterns == DefaultIgnoredUrlPatterns
      ensures ignoredResourceTypes == DefaultIgnoredResourceTypes
    {
      ignoredUrlPatterns := DefaultIgnoredUrlPatterns;
      ignoredResourceTypes := DefaultIgnoredResourceTypes;
    }

    method AddIgnoredUrlPattern(pattern: Pattern)
      modifies this
      ensures ignoredUrlPatterns == old(ignoredUrlPatterns) + {pattern}
      ensures ignoredResourceTypes == old(ignoredResourceTypes)
    {
      ignoredUrlPatterns := ignoredUrlPatterns + {pattern};
    }

    /** The type is stored lower-cased, so that ignoring is case-insensitive. */
    method AddIgnoredResourceType(resourceType: string)
      modifies this
      ensures ignoredResourceTypes == old(ignoredResourceTypes) + {ToLower(resourceType)}
      ensures ignoredUrlPatterns == old(ignoredUrlPatterns)
      ensures forall url, t, find :: EqualsIgnoreCase(t, resourceType) ==>
                !IsCriticalRequest(ignoredUrlPatterns, ignoredResourceTypes, find, url, t)
    {
      ignoredResourceTypes := ignoredResourceTypes + {ToLower(resourceType)};
    }

    /** A request the current filters pass as critical. */
    predicate Critical(find: (Pattern, string) -> bool, url: string, resourceType: string)
      reads this
    {
      IsCriticalRequest(ignoredUrlPatterns, ignoredResourceTypes, find, url, resourceType)
    }
  }

  // ---------------------------------------------------------------------
  // Network idle
  // ---------------------------------------------------------------------

  /** One poll of the loop: the clock reading and whether the critical-request set was empty. */
  datatype Sample = Sample(now: int, idle: bool)

  /** The clock never goes backwards and starts no earlier than the wait. */
  predicate Monotone(samples: seq<Sample>, startTime: int)
  {
    (forall i :: 0 <= i < |samples| ==> startTime <= samples[i].now)
    && (forall i, j :: 0 <= i < j < |samples| ==> samples[i].now <= samples[j].now)
  }

  /** The first poll of the uninterrupted idle run that ends at poll j. */
  function RunStart(samples: seq<Sample>, j: nat): (i: nat)
    requires j < |samples| && samples[j].idle
    ensures i <= j
    ensures forall k :: i <= k <= j ==> samples[k].idle
    ensures i == 0 || !samples[i - 1].idle
  {
    if j > 0 && samples[j - 1].idle then RunStart(samples, j - 1) else j
  }

  /**
   * Poll j ends the wait successfully: it is still before the timeout, the
   * set is empty, and it has been empty without interruption since an
   * earlier poll at least idleMs before.
   */
  predicate IdleAt(samples: seq<Sample>, startTime: int, timeoutMs: int, idleMs: int, j: nat)
  {
    j < |samples| && samples[j].now - startTime < timeoutMs && samples[j].idle
    && RunStart(samples, j) < j
    && samples[j].now - samples[RunStart(samples, j)].now >= idleMs
  }

  /**
   * The polling loop of waitForNetworkIdle: true as soon as the critical set
   * has been empty for idleMs without interruption (any non-empty poll resets
   * the idle start); false once the timeout has elapsed.
   */
  method PollUntilIdle(samples: seq<Sample>, startTime: int, timeoutMs: int, idleMs: int)
    returns (idle: bool)
    requires Monotone(samples, startTime)
    requires |samples| > 0 && samples[|samples| - 1].now - startTime >= timeoutMs
    ensures idle <==> exists j :: 0 <= j < |samples| && IdleAt(samples, startTime, timeoutMs, idleMs, j)
  {
    var idleStart: Option<int> := None;
    var k := 0;
    while k < |samples| && samples[k].now - startTime < timeoutMs
      invariant 0 <= k <= |samples|
      invariant idleStart == (if k > 0 && samples[k - 1].idle then Some(samples[RunStart(samples, k - 1)].now) else None)
      invariant forall j :: 0 <= j < k ==> !IdleAt(samples, startTime, timeoutMs, idleMs, j)
      invariant forall j :: 0 <= j < k ==> samples[j].now - startTime < timeoutMs
    {
      var now := samples[k].now;
      if samples[k].idle {
        if idleStart.None? {
          idleStart := Some(now);
        } else if now - idleStart.value >= idleMs {
          assert IdleAt(samples, startTime, timeoutMs, idleMs, k);
          return true;
        }
      } else {
        idleStart := None;
      }
      k := k + 1;
    }
    assert k < |samples|;
    forall j | k <= j < |samples|
      ensures !IdleAt(samples, startTime, timeoutMs, idleMs, j)
    {
      assert samples[k].now <= samples[j].now;
    }
    return false;
  }

  /** Without DevTools the check only sleeps for the idle time and reports idle (unless interrupted). */
  function NetworkIdleWithoutDevTools(interrupted: bool): (idle: bool)
    ensures idle <==> !interrupted
  {
    !interrupted
  }

  /**
   * What the network check meets: no DevTools (and whether the fallback sleep
   * is interrupted), a DevTools session on which enabling the Network domain
   * or adding a listener throws, or the polls the loop makes.
   */
  datatype NetworkProbe = WithoutDevTools(sleepInterrupted: bool) | SetupFails | Polls(samples: seq<Sample>, startTime: int)

  /** The polls run on a clock that never goes back and reach the timeout. */
  predicate PollsReachTimeout(probe: NetworkProbe, timeoutMs: int)
  {
    probe.Polls? ==>
      Monotone(probe.samples, probe.startTime) && |probe.samples| > 0
      && probe.samples[|probe.samples| - 1].now - probe.startTime >= timeoutMs
  }

  /** When the network check answers idle, for each thing it can meet. */
  ghost predicate NetworkSettles(probe: NetworkProbe, timeoutMs: int, idleMs: int)
  {
    match probe
    case WithoutDevTools(interrupted) => NetworkIdleWithoutDevTools(interrupted)
    case SetupFails => false
    case Polls(samples, startTime) =>
      exists j :: 0 <= j < |samples| && IdleAt(samples, startTime, timeoutMs, idleMs, j)
  }

  /**
   * waitForNetworkIdle: without DevTools it sleeps for the idle time; when
   * setting up the Network domain or its listeners throws it answers false;
   * otherwise it runs the polling loop.
   */
  method WaitForNetworkIdle(probe: NetworkProbe, timeoutMs: int, idleMs: int) returns (idle: bool)
    requires PollsReachTimeout(probe, timeoutMs)
    ensures probe.WithoutDevTools? ==> idle == NetworkIdleWithoutDevTools(probe.sleepInterrupted)
    ensures probe.SetupFails? ==> !idle
    ensures probe.Polls? ==>
              (idle <==> exists j :: 0 <= j < |probe.samples| && IdleAt(probe.samples, probe.startTime, timeoutMs, idleMs, j))
    ensures idle == NetworkSettles(probe, timeoutMs, idleMs)
  {
    match probe
    case WithoutDevTools(interrupted) =>
      idle := !interrupted;
    case SetupFails =>
      idle := false;
    case Polls(samples, startTime) =>
      idle := PollUntilIdle(samples, startTime, timeoutMs, idleMs);
  }

  // ---------------------------------------------------------------------
  // DOM stability and conditions
  // ---------------------------------------------------------------------

  /** What the MutationObserver script gave back: a (possibly null) count, or an exception. */
  datatype DomProbe = MutationCount(count: Option<int>) | ScriptFailed(interrupted: bool)

  /**
   * waitForDomStable: stable iff the count is non-null and below 5; when the
   * script fails the check falls back to sleeping and reports stable unless
   * the sleep is interrupted.
   */
  function DomStable(probe: DomProbe): (stable: bool)
    ensures probe.MutationCount? ==> (stable <==> probe.count.Some? && probe.count.value < DomMutationThreshold)
    ensures probe.ScriptFailed? ==> (stable <==> !probe.interrupted)
  {
    match probe
    case MutationCount(c) => c.Some? && c.value < DomMutationThreshold
    case ScriptFailed(i) => !i
  }

  datatype WaitCondition = DocumentReady | NetworkIdle | DomStableCondition | ElementVisible | ElementClickable | JavascriptReady

  /** checkCondition: the three conditions it knows are delegated; every other one is false. */
  function CheckCondition(condition: WaitCondition, documentReady: bool, networkIdle: bool, domStable: bool): (met: bool)
    ensures met ==> condition in {DocumentReady, NetworkIdle, DomStableCondition}
    ensures condition == DocumentReady ==> met == documentReady
    ensures condition == NetworkIdle ==> met == networkIdle
    ensures condition == DomStableCondition ==> met == domStable
  {
    match condition
    case DocumentReady => documentReady
    case NetworkIdle => networkIdle
    case DomStableCondition => domStable
    case _ => false
  }

  // ---------------------------------------------------------------------
  // Strategy timeouts
  // ---------------------------------------------------------------------

  /** After the document is ready, page load gives the network min(timeout / 3, 5000) ms. */
  function PageLoadNetworkTimeout(timeoutMs: nat): (r: nat)
    ensures r <= 5000 && 3 * r <= timeoutMs
    ensures r == 5000 || 3 * (r + 1) > timeoutMs
  {
    if timeoutMs / 3 < 5000 then timeoutMs / 3 else 5000
  }

  /** Element interaction gives the network check min(timeout / 2, 3000) ms. */
  function InteractionNetworkTimeout(timeoutMs: nat): (r: nat)
    ensures r <= 3000 && 2 * r <= timeoutMs
    ensures r == 3000 || 2 * (r + 1) > timeoutMs
  {
    if timeoutMs / 2 < 3000 then timeoutMs / 2 else 3000
  }

  /** How a waited-on check ended: it finished (with its boolean) or the bounded get timed out. */
  datatype FutureOutcome = Completed(value: bool) | TimedOut

  /**
   * waitForPageLoad: fails only when the document-ready check does not finish
   * within the timeout; a network check that does not settle within its
   * shorter timeout is tolerated, and neither boolean is inspected.
   */
  function WaitForPageLoad(documentReady: FutureOutcome, networkIdle: FutureOutcome): (r: Result<()>)
    ensures r.Ok? <==> documentReady.Completed?
  {
    if documentReady.TimedOut? then Err("Page load wait failed")
    else Ok(())
  }

  /** CompletableFuture.allOf(...).get(timeout): fails when any of the checks it waits on times out. */
  function WaitForAll(outcomes: seq<FutureOutcome>): (r: Result<()>)
    ensures r.Ok? <==> forall i :: 0 <= i < |outcomes| ==> outcomes[i].Completed?
  {
    if forall i :: 0 <= i < |outcomes| ==> outcomes[i].Completed? then Ok(()) else Err("wait failed")
  }

  /** A check started asynchronously: the boolean it returns and how long after the start it returns. */
  datatype CheckRun = CheckRun(value: bool, elapsedMs: nat)

  /** One check seen through a bounded get: its value if it returns within the timeout. */
  function Await(run: CheckRun, timeoutMs: nat): FutureOutcome
  {
    if run.elapsedMs <= timeoutMs then Completed(run.value) else TimedOut
  }

  /** The checks element interaction starts, in order: the locator's (if any), DOM stability, network idle. */
  function InteractionChecks(locator: Option<CheckRun>, dom: CheckRun, network: CheckRun): seq<CheckRun>
  {
    (if locator.Some? then [locator.value] else []) + [dom, network]
  }

  /**
   * waitForElementInteraction: the visibility check of the locator (when one
   * is given), the DOM-stability check and the network check under the
   * shorter interaction timeout run side by side, and all of them are
   * awaited together. The wait fails only when one of them does not return
   * within the timeout; a check that returns false does not fail it.
   */
  method WaitForElementInteraction(timeoutMs: nat, locator: Option<CheckRun>, domProbe: DomProbe, domElapsedMs: nat,
                                   network: NetworkProbe, idleMs: int, networkElapsedMs: nat)
    returns (outcomes: seq<FutureOutcome>, r: Result<()>)
    requires PollsReachTimeout(network, InteractionNetworkTimeout(timeoutMs))
    ensures |outcomes| == if locator.Some? then 3 else 2
    ensures locator.Some? ==> outcomes[0] == Await(locator.value, timeoutMs)
    ensures outcomes[|outcomes| - 2] == Await(CheckRun(DomStable(domProbe), domElapsedMs), timeoutMs)
    ensures outcomes[|outcomes| - 1]
            == Await(CheckRun(NetworkSettles(network, InteractionNetworkTimeout(timeoutMs), idleMs), networkElapsedMs), timeoutMs)
    ensures r.Ok? <==> domElapsedMs <= timeoutMs && networkElapsedMs <= timeoutMs
                       && (locator.Some? ==> locator.value.elapsedMs <= timeoutMs)
    ensures r.Err? ==> r.message == "Element interaction wait failed"
  {
    var domStable := CheckCondition(DomStableCondition, false, false, DomStable(domProbe));
    var networkIdle := WaitForNetworkIdle(network, InteractionNetworkTimeout(timeoutMs), idleMs);
    var checks := InteractionChecks(locator, CheckRun(domStable, domElapsedMs), CheckRun(networkIdle, networkElapsedMs));
    outcomes := seq(|checks|, i requires 0 <= i < |checks| => Await(checks[i], timeoutMs));
    r := if WaitForAll(outcomes).Ok? then Ok(()) else Err("Element interaction wait failed");
  }

  /**
   * The explicit-conditions wait (until(conditions, timeout)): every
   * condition's check is started and all are awaited together; the wait
   * fails with the timeout message only when one does not return in time,
   * whatever the checks return.
   */
  function WaitForConditions(timeoutMs: nat, runs: seq<CheckRun>): (r: Result<()>)
    ensures r.Ok? <==> forall i :: 0 <= i < |runs| ==> runs[i].elapsedMs <= timeoutMs
    ensures r.Err? ==> r.message == "SmartWait timeout after " + NatToString(timeoutMs) + "ms"
  {
    var outcomes := seq(|runs|, i requires 0 <= i < |runs| => Await(runs[i], timeoutMs));
    assert forall i :: 0 <= i < |runs| ==> (outcomes[i].Completed? <==> runs[i].elapsedMs <= timeoutMs);
    if WaitForAll(outcomes).Ok? then Ok(()) else Err("SmartWait timeout after " + NatToString(timeoutMs) + "ms")
  }
}

/** Immediate refresh after a user changes an entity: a domain filter, a
    quota gate read from the rate-limit file, a debounced single fetch of
    zone states, and a global backoff that grows with consecutive
    failures. Time is whole seconds passed in as `now`; the rate-limit
    file's contents and the fetch's outcome are inputs. The debounce
    task's one-second sleep becomes an explicit `Fire` step. */
module ImmediateRefresh {
  import opened Common

  const MinGlobalInterval := 2
  const MinPerEntityInterval := 2
  const MaxBackoffInterval := 300
  const MinQuotaForRefresh := 50

  /** The domains whose changes trigger a refresh. */
  const RefreshEntityTypes: set<string> := {"climate", "switch", "water_heater"}

  /** `should_refresh`: the text before the first '.' names one of the
      refresh domains. */
  predicate ShouldRefresh(entityId: string)
    ensures '.' !in entityId ==> (ShouldRefresh(entityId) <==> entityId in RefreshEntityTypes)
  {
    var domain := Split(entityId, ".")[0];
    assert '.' !in entityId ==> domain == entityId by {
      if '.' !in entityId {
        SplitNoSeparator(entityId, ".");
      }
    }
    domain in RefreshEntityTypes
  }

  /** For an id `domain.object`, the decision depends on the domain only. */
  lemma DomainDecides(domain: string, objectId: string)
    requires '.' !in domain
    ensures ShouldRefresh(domain + "." + objectId) <==> domain in RefreshEntityTypes
  {
    SplitAfter(domain, ".", objectId);
  }

  function Pow2(n: nat): (r: nat)
    ensures r >= 1
  {
    if n == 0 then 1 else 2 * Pow2(n - 1)
  }

  lemma {:induction false} Pow2Monotone(a: nat, b: nat)
    requires a <= b
    ensures Pow2(a) <= Pow2(b)
    decreases b
  {
    if a < b {
      Pow2Monotone(a, b - 1);
    }
  }

  /** `_get_backoff_interval`: the required gap after the last global
      refresh, in seconds. */
  function BackoffInterval(failures: nat): (r: int)
    ensures MinGlobalInterval <= r <= MaxBackoffInterval
    ensures failures == 0 ==> r == MinGlobalInterval
  {
    if failures == 0 then MinGlobalInterval
    else
      var backoff := MinGlobalInterval * Pow2(failures);
      if backoff < MaxBackoffInterval then backoff else MaxBackoffInterval
  }

  /** The zero-failure case agrees with the doubling rule, so the interval
      is min(2 * 2^failures, 300) for every count. */
  lemma BackoffClosedForm(failures: nat)
    ensures BackoffInterval(failures) == if 2 * Pow2(failures) < 300 then 2 * Pow2(failures) else 300
  {
  }

  /** More failures never shorten the backoff. */
  lemma BackoffMonotone(a: nat, b: nat)
    requires a <= b
    ensures BackoffInterval(a) <= BackoffInterval(b)
  {
    Pow2Monotone(a, b);
  }

  /** From eight failures on the backoff stays at its cap. */
  lemma {:induction false} BackoffCapped(failures: nat)
    requires failures >= 8
    ensures BackoffInterval(failures) == MaxBackoffInterval
  {
    Pow2Monotone(8, failures);
    assert Pow2(8) == 256 by {
      assert Pow2(1) == 2 && Pow2(2) == 4 && Pow2(3) == 8 && Pow2(4) == 16;
      assert Pow2(5) == 32 && Pow2(6) == 64 && Pow2(7) == 128;
    }
  }

  /** The contents of the rate-limit file when it exists and is not empty;
      a field the file lacks is None. */
  datatype QuotaInfo = QuotaInfo(remaining: Option<int>, limit: Option<int>, status: Option<string>)

  datatype QuotaReason = NoRateLimitData | RateLimited | QuotaTooLow(remaining: int) | QuotaCritical | QuotaOk

  datatype QuotaCheck = QuotaCheck(allowed: bool, reason: QuotaReason)

  /** At least 90% of a nonzero limit is used: `(limit - remaining) / limit
      >= 0.9`, multiplied out (the inequality flips for a negative limit). */
  predicate Critical(limit: int, remaining: int)
    requires limit != 0
  {
    if limit > 0 then 10 * (limit - remaining) >= 9 * limit else 10 * (limit - remaining) <= 9 * limit
  }

  /** `_check_quota_available`: fail open without data; otherwise refuse
      when rate limited, below 50 remaining, or at 90% use. */
  function CheckQuotaAvailable(info: Option<QuotaInfo>): (r: QuotaCheck)
    ensures info.None? ==> r == QuotaCheck(true, NoRateLimitData)
    ensures info.Some? ==>
              (r.allowed <==>
                 info.value.status != Some("rate_limited") && info.value.remaining != Some(0)
                 && (info.value.remaining.None? || info.value.remaining.value >= MinQuotaForRefresh)
                 && !(info.value.limit.Some? && info.value.limit.value != 0 && info.value.remaining.Some?
                      && Critical(info.value.limit.value, info.value.remaining.value)))
    ensures info.Some? && r.allowed ==> r.reason == QuotaOk
    ensures info.Some? && info.value.status != Some("rate_limited") && info.value.remaining.Some?
            && 0 != info.value.remaining.value < MinQuotaForRefresh ==>
              r == QuotaCheck(false, QuotaTooLow(info.value.remaining.value))
    ensures r.reason == QuotaCritical ==>
              !r.allowed && info.Some? && info.value.remaining.Some? && info.value.remaining.value >= MinQuotaForRefresh
              && info.value.limit.Some? && info.value.limit.value != 0
              && Critical(info.value.limit.value, info.value.remaining.value)
    ensures info.Some? && (info.value.status == Some("rate_limited") || info.value.remaining == Some(0)) ==>
              r == QuotaCheck(false, RateLimited)
    ensures info.Some? && info.value.remaining.Some? && info.value.remaining.value < MinQuotaForRefresh ==> !r.allowed
    ensures r.allowed && info.Some? && info.value.remaining.Some? ==> info.value.remaining.value >= MinQuotaForRefresh
    ensures r.allowed && info.Some? && info.value.remaining.Some? && info.value.limit.Some? && info.value.limit.value > 0 ==>
              10 * (info.value.limit.value - info.value.remaining.value) < 9 * info.value.limit.value
  {
    match info
    case None => QuotaCheck(true, NoRateLimitData)
    case Some(QuotaInfo(remaining, limit, status)) =>
      if status == Some("rate_limited") || remaining == Some(0) then QuotaCheck(false, RateLimited)
      else if remaining.Some? && remaining.value < MinQuotaForRefresh then QuotaCheck(false, QuotaTooLow(remaining.value))
      else if limit.Some? && limit.value != 0 && remaining.Some? && Critical(limit.value, remaining.value)
      then QuotaCheck(false, QuotaCritical)
      else QuotaCheck(true, QuotaOk)
  }

  /** More remaining quota never turns an allowed refresh into a refused
      one, for a positive limit. */
  lemma QuotaMonotone(remaining: int, more: int, limit: int, status: Option<string>)
    requires 0 < limit && remaining <= more
    requires CheckQuotaAvailable(Some(QuotaInfo(Some(remaining), Some(limit), status))).allowed
    ensures CheckQuotaAvailable(Some(QuotaInfo(Some(more), Some(limit), status))).allowed
  {
  }

  /** The refresh handler's state. A debounce task that has not yet run is
      `debounceTask`; a cancelled or completed one is forgotten. */
  class ImmediateRefreshHandler {
    var lastRefreshPerEntity: map<string, int>
    var globalLastRefresh: Option<int>
    var consecutiveFailures: nat
    var pendingRefresh: bool
    var debounceTask: Option<nat>
    var nextTaskId: nat

    /** At most one debounce task is outstanding, and a refresh is pending
        exactly while it is. */
    predicate Valid()
      reads this
    {
      (debounceTask.Some? <==> pendingRefresh) && (debounceTask.Some? ==> debounceTask.value < nextTaskId)
    }

    constructor ()
      ensures Valid()
      ensures lastRefreshPerEntity == map[] && globalLastRefresh.None? && consecutiveFailures == 0
      ensures !pendingRefresh && debounceTask.None?
    {
      lastRefreshPerEntity := map[];
      globalLastRefresh := None;
      consecutiveFailures := 0;
      pendingRefresh := false;
      debounceTask := None;
      nextTaskId := 0;
    }

    /** `can_refresh_now`: outside the global backoff window and at least
        two seconds after this entity's last refresh. */
    predicate CanRefreshNow(entityId: string, now: int)
      reads this
      ensures CanRefreshNow(entityId, now) && globalLastRefresh.Some? ==> now >= globalLastRefresh.value + MinGlobalInterval
      ensures CanRefreshNow(entityId, now) && entityId in lastRefreshPerEntity ==>
                now >= lastRefreshPerEntity[entityId] + MinPerEntityInterval
    {
      !(globalLastRefresh.Some? && now - globalLastRefresh.value < BackoffInterval(consecutiveFailures))
      && !(entityId in lastRefreshPerEntity && now - lastRefreshPerEntity[entityId] < MinPerEntityInterval)
    }

    /** `trigger_refresh`: a refresh domain with quota to spare replaces
        any outstanding debounce task with a new one, marks a refresh as
        pending and stamps this entity only; anything else changes
        nothing. */
    method TriggerRefresh(entityId: string, quota: Option<QuotaInfo>, now: int) returns (scheduled: bool)
      modifies this
      ensures scheduled <==> ShouldRefresh(entityId) && CheckQuotaAvailable(quota).allowed
      ensures !scheduled ==>
                lastRefreshPerEntity == old(lastRefreshPerEntity) && pendingRefresh == old(pendingRefresh)
                && debounceTask == old(debounceTask) && nextTaskId == old(nextTaskId)
      ensures scheduled ==>
                pendingRefresh && debounceTask == Some(old(nextTaskId)) && nextTaskId == old(nextTaskId) + 1
                && lastRefreshPerEntity == old(lastRefreshPerEntity)[entityId := now]
                && !CanRefreshNow(entityId, now)
      ensures globalLastRefresh == old(globalLastRefresh) && consecutiveFailures == old(consecutiveFailures)
      ensures old(Valid()) ==> Valid()
    {
      if !ShouldRefresh(entityId) {
        return false;
      }
      var check := CheckQuotaAvailable(quota);
      if !check.allowed {
        return false;
      }
      if debounceTask.Some? {
        debounceTask := None;
      }
      pendingRefresh := true;
      lastRefreshPerEntity := lastRefreshPerEntity[entityId := now];
      debounceTask := Some(nextTaskId);
      nextTaskId := nextTaskId + 1;
      scheduled := true;
    }

    /** The debounce task running after its delay. It does nothing unless
        a refresh is pending; it clears the pending mark, skips the fetch
        inside the global backoff window, and otherwise fetches once: a
        success restarts the backoff, a failure lengthens it. */
    method Fire(now: int, fetchOk: bool) returns (called: bool)
      modifies this
      ensures old(debounceTask).Some? ==> debounceTask.None? && !pendingRefresh
      ensures old(debounceTask).None? ==> unchanged(this)
      ensures lastRefreshPerEntity == old(lastRefreshPerEntity) && nextTaskId == old(nextTaskId)
      ensures called <==> old(debounceTask).Some? && old(pendingRefresh)
                          && !(old(globalLastRefresh).Some?
                               && now - old(globalLastRefresh).value < BackoffInterval(old(consecutiveFailures)))
      ensures !called ==> globalLastRefresh == old(globalLastRefresh) && consecutiveFailures == old(consecutiveFailures)
      ensures called && fetchOk ==> globalLastRefresh == Some(now) && consecutiveFailures == 0
      ensures called && !fetchOk ==>
                globalLastRefresh == old(globalLastRefresh) && consecutiveFailures == old(consecutiveFailures) + 1
      ensures called && fetchOk ==> forall e, t :: now <= t < now + MinGlobalInterval ==> !CanRefreshNow(e, t)
      ensures old(Valid()) ==> Valid()
    {
      called := false;
      if debounceTask.None? {
        return;
      }
      debounceTask := None;
      if !pendingRefresh {
        return;
      }
      pendingRefresh := false;
      if globalLastRefresh.Some? && now - globalLastRefresh.value < BackoffInterval(consecutiveFailures) {
        return;
      }
      called := true;
      if fetchOk {
        globalLastRefresh := Some(now);
        consecutiveFailures := 0;
      } else {
        consecutiveFailures := consecutiveFailures + 1;
      }
    }
  }

  /** A failed fetch never shortens the wait before the next one. */
  lemma FailureLengthensBackoff(failures: nat)
    ensures BackoffInterval(failures) <= BackoffInterval(failures + 1)
  {
    BackoffMonotone(failures, failures + 1);
  }

  /** The process-wide handler. */
  class HandlerRegistry {
    var handler: ImmediateRefreshHandler?

    constructor ()
      ensures handler == null
    {
      handler := null;
    }

    /** `get_handler`: the existing handler, or a new one. */
    method GetHandler() returns (h: ImmediateRefreshHandler)
      modifies this
      ensures handler == h
      ensures old(handler) != null ==> h == old(handler)
      ensures old(handler) == null ==> fresh(h) && h.Valid() && !h.pendingRefresh && h.consecutiveFailures == 0
    {
      if handler == null {
        handler := new ImmediateRefreshHandler();
      }
      h := handler;
    }

    /** `cleanup_handler`: True exactly when a handler existed. */
    method CleanupHandler() returns (removed: bool)
      modifies this
      ensures removed <==> old(handler) != null
      ensures handler == null
    {
      removed := handler != null;
      handler := null;
    }
  }

  /** Until a cleanup, every request yields the same handler. */
  method SameHandlerUntilCleanup(r: HandlerRegistry) returns (a: ImmediateRefreshHandler, b: ImmediateRefreshHandler, c: ImmediateRefreshHandler)
    modifies r
    ensures a == b && fresh(c) && c != a
  {
    a := r.GetHandler();
    b := r.GetHandler();
    var _ := r.CleanupHandler();
    c := r.GetHandler();
  }
}

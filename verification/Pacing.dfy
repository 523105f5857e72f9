/** How long the background scorer pauses when the pool is down to its reserve. */
module Pacing {
  import opened Clock
  import opened Options
  import opened TokenPools

  const TOKEN_PAUSE_FALLBACK := 30 * SECOND

  /** The wait before the next batch, or `None` to go on at once. A pause lasts until the reset if
      that lies ahead, and else for a fixed time. */
  function TokenPause(active: int, reserve: int, earliestReset: Option<int>, now: int): (wait: Option<int>)
    ensures wait.None? <==> active > reserve
    ensures wait.Some? ==> wait.value > 0
    ensures wait.Some? && earliestReset.Some? && earliestReset.value > now ==> now + wait.value == earliestReset.value
    ensures wait.Some? && (earliestReset.None? || earliestReset.value <= now) ==> wait.value == 30_000_000_000
  {
    if active > reserve then None
    else if earliestReset.Some? && earliestReset.value - now > 0 then Some(earliestReset.value - now)
    else Some(TOKEN_PAUSE_FALLBACK)
  }

  /** One pause of the scorer loop, which reads the clock for the count, for the reset, and for the
      wait, and adds a jitter of zero or more. The scorer wakes with strictly more active tokens
      exactly when the jitter is positive or a reset already passed between the first two reads: at
      the reset instant itself the token is still exhausted. */
  lemma PauseEndsWithCapacity(s: State, reserve: int, r: int, countedAt: int, readAt: int, now: int, jitter: int)
    requires Valid(s) && countedAt <= readAt <= now && 0 <= jitter
    requires IsEarliestReset(s, readAt, Some(r)) && now < r
    requires |ActiveSet(s, countedAt)| <= reserve
    requires forall i :: 0 <= i < |s.entries| ==> !Expired(s.entries[i], r + jitter)
    ensures var wait := TokenPause(|ActiveSet(s, countedAt)|, reserve, Some(r), now);
            && wait.Some?
            && (|ActiveSet(s, now + wait.value + jitter)| > |ActiveSet(s, countedAt)| <==>
                  || jitter > 0
                  || exists i :: 0 <= i < |s.entries| && s.exhausted[i] && countedAt <= s.exhaustedUntil[i] < readAt)
  {
    RisesExactlyWhen(s, countedAt, r + jitter);
    hide ActiveSet;
    var i :| 0 <= i < |s.entries| && Pending(s, i, readAt) && s.exhaustedUntil[i] == r;
    assert Pending(s, i, countedAt);
  }
}

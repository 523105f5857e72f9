/** `poolDo`: run a call on one pool token after another until it is settled. */
module PoolClients {
  import opened Options
  import opened TokenPools

  const MAX_POOL_RETRIES := 6

  /** What one GitHub call came back with. */
  datatype Outcome<T> = Value(value: T) | AuthFailure | RateLimited(resetAt: Option<int>) | Fault

  datatype Result<T> =
    | Ok(value: T)
    | ContextDone
    | NoTokens
    | AllInvalid
    | AllExhausted
    | Failed
    | RetriesExhausted

  /** All that one attempt takes from outside: whether the context is live, what a call on a given
      token returns, whether the backoff ran to its end, and its clock reads. */
  datatype Attempt<!T> = Attempt(
    live: bool,
    takeAt: int,
    call: string -> Outcome<T>,
    markAt: int,
    countAt: int,
    backoffLive: bool)

  predicate Retryable<T>(o: Outcome<T>) {
    o.AuthFailure? || o.RateLimited?
  }

  /** The pool after an attempt that used up its token. */
  ghost function AfterRetry<T>(s: State, a: Attempt<T>): (s': State)
    requires Valid(s)
    ensures Valid(s') && s'.entries == s.entries
  {
    var token, s1 := TokenOf(s, a.takeAt), AfterToken(s, a.takeAt);
    match a.call(token)
    case AuthFailure => AfterInvalidate(s1, token, a.markAt)
    case RateLimited(resetAt) => AfterExhaust(s1, token, resetAt, a.markAt)
    case _ => s1
  }

  /** Why a call gives up when its last usable token fails. */
  function GivingUp<T>(o: Outcome<T>): Result<T>
    requires Retryable(o)
  {
    if o.AuthFailure? then AllInvalid else AllExhausted
  }

  ghost function UsedBefore<T>(used: seq<string>, r: (State, Result<T>, seq<string>)): (State, Result<T>, seq<string>) {
    (r.0, r.1, used + r.2)
  }

  lemma UsedBeforeLaws<T>(used: seq<string>, token: string, r: (State, Result<T>, seq<string>))
    ensures UsedBefore([], r) == r
    ensures UsedBefore(used, UsedBefore([token], r)) == UsedBefore(used + [token], r)
    ensures UsedBefore(used, (r.0, r.1, [])) == (r.0, r.1, used)
  {
    assert [] + r.2 == r.2 && used + [] == used;
    assert used + ([token] + r.2) == used + [token] + r.2;
  }

  /** The pool, the result and the tokens used, from attempt `k` on. */
  ghost function Rotation<T>(s: State, env: seq<Attempt<T>>, k: nat): (r: (State, Result<T>, seq<string>))
    requires Valid(s) && k <= |env|
    ensures Valid(r.0) && r.0.entries == s.entries
    decreases |env| - k
  {
    if k == |env| then (s, RetriesExhausted, [])
    else if !env[k].live then (s, ContextDone, [])
    else
      var a, token := env[k], TokenOf(s, env[k].takeAt);
      var s2, o := AfterRetry(s, a), a.call(token);
      if token == "" then (AfterToken(s, a.takeAt), NoTokens, [])
      else if o.Value? then (s2, Ok(o.value), [token])
      else if o.Fault? then (s2, Failed, [token])
      else if |ActiveSet(s2, a.countAt)| == 0 then (s2, GivingUp(o), [token])
      else if o.RateLimited? && !a.backoffLive then (s2, ContextDone, [token])
      else
        UsedBefore([token], Rotation(s2, env, k + 1))
  }

  /** The loop itself. `used` lists the tokens the call was run on. */
  method PoolDo<T>(pool: TokenPool, env: seq<Attempt<T>>) returns (r: Result<T>, used: seq<string>)
    requires |env| == MAX_POOL_RETRIES && pool.Invariant()
    modifies pool
    ensures pool.Invariant()
    ensures (pool.View(), r, used) == Rotation(old(pool.View()), env, 0)
  {
    hide AfterToken, AfterInvalidate, AfterExhaust, TokenOf, ActiveSet, Valid;
    used := [];
    UsedBeforeLaws(used, "", Rotation(pool.View(), env, 0));
    for attempt := 0 to MAX_POOL_RETRIES
      invariant pool.Invariant()
      invariant UsedBefore(used, Rotation(pool.View(), env, attempt)) == Rotation(old(pool.View()), env, 0)
    {
      assert used + [] == used;
      var a := env[attempt];
      if !a.live {
        return ContextDone, used;
      }
      var token, _ := pool.Token(a.takeAt);
      if token == "" {
        return NoTokens, used;
      }
      ghost var before := used;
      used := used + [token];
      match a.call(token) {
        case Value(v) =>
          return Ok(v), used;
        case AuthFailure =>
          pool.InvalidateAuth(token, a.markAt);
          var active := pool.ActiveCount(a.countAt);
          if active == 0 {
            return AllInvalid, used;
          }
        case Fault =>
          return Failed, used;
        case RateLimited(resetAt) =>
          pool.Exhaust(token, resetAt, a.markAt);
          var active := pool.ActiveCount(a.countAt);
          if active == 0 {
            return AllExhausted, used;
          }
          if !a.backoffLive {
            return ContextDone, used;
          }
      }
      UsedBeforeLaws(before, token, Rotation(pool.View(), env, attempt + 1));
    }
    assert used + [] == used;
    return RetriesExhausted, used;
  }

  // ---------------------------------------------------------------- what the caller sees

  /** The tokens available at `now`, in the order the cursor meets them from its `k`th step on. */
  ghost function Upcoming(s: State, now: int, k: nat): seq<nat>
    requires Valid(s) && k <= |s.entries|
    decreases |s.entries| - k
  {
    if k == |s.entries| then []
    else (if Available(s, Slot(s, k), now) then [Slot(s, k)] else []) + Upcoming(s, now, k + 1)
  }

  /** A plain walk over a fixed list, attempt `k` using token `k`: no cursor, no exhaustion, no clock. */
  ghost function Walk<T>(tokens: seq<string>, env: seq<Attempt<T>>, k: nat): (r: (Result<T>, seq<string>))
    requires k <= |env|
    decreases |env| - k
  {
    if k == |env| then (RetriesExhausted, [])
    else if k >= |tokens| || tokens[k] == "" then (NoTokens, [])
    else
      var o := env[k].call(tokens[k]);
      if o.Value? then (Ok(o.value), [tokens[k]])
      else if o.Fault? then (Failed, [tokens[k]])
      else if k + 1 == |tokens| then (GivingUp(o), [tokens[k]])
      else
        var rest := Walk(tokens, env, k + 1);
        (rest.0, [tokens[k]] + rest.1)
  }

  /** The context stays live and every clock read of the call lies between `from` and `to`. */
  ghost predicate Within<T>(env: seq<Attempt<T>>, from: int, to: int) {
    forall k :: 0 <= k < |env| ==>
      && env[k].live && env[k].backoffLive
      && from <= env[k].takeAt <= to && from <= env[k].markAt <= to && from <= env[k].countAt <= to
  }

  /** No recorded reset passes between `from` and `to`, and nothing expires before `to`. */
  ghost predicate Steady(s: State, from: int, to: int)
    requires Valid(s)
  {
    forall i :: 0 <= i < |s.entries| ==>
      && (s.exhausted[i] ==> s.exhaustedUntil[i] < from || to <= s.exhaustedUntil[i])
      && !Expired(s.entries[i], to)
  }

  /** The resets recorded during the call itself do not pass before `to` either. */
  ghost predicate SteadyMarks<T>(env: seq<Attempt<T>>, to: int) {
    && to <= PERMANENT_INVALIDATION_UNTIL
    && forall k :: 0 <= k < |env| ==>
      && to <= env[k].markAt + TOKEN_RESET_FALLBACK
      && forall token {:trigger env[k].call(token)} ::
        env[k].call(token).RateLimited? ==> to <= RecordedReset(env[k].call(token).resetAt, env[k].markAt)
  }

  ghost predicate DistinctTokens(entries: seq<Entry>) {
    forall i, j :: 0 <= i < j < |entries| ==> entries[i].token != entries[j].token
  }

  /** `order` lists each entry available from the `k`th step on, once, by distance. */
  ghost predicate IsScanOrder(s: State, now: int, k: nat, order: seq<nat>)
    requires Valid(s)
  {
    && (forall i :: 0 <= i < |order| ==> order[i] < |s.entries|)
    && (forall i :: 0 <= i < |order| ==> k <= Distance(s, order[i]) && Available(s, order[i], now))
    && (forall i, j :: 0 <= i < j < |order| ==> Distance(s, order[i]) < Distance(s, order[j]))
    && Covers(s, now, k, order)
  }

  ghost predicate Covers(s: State, now: int, k: nat, order: seq<nat>)
    requires Valid(s)
  {
    forall i: nat :: i < |s.entries| && k <= Distance(s, i) && Available(s, i, now) ==> i in order
  }

  lemma CoversOneMore(s: State, now: int, k: nat, rest: seq<nat>)
    requires Valid(s) && k < |s.entries| && Covers(s, now, k + 1, rest)
    ensures Covers(s, now, k, [Slot(s, k)] + rest)
  {
    hide Available, Slot;
    forall i: nat | i < |s.entries| && k <= Distance(s, i) && Available(s, i, now) ensures i in [Slot(s, k)] + rest {
      assert Slot(s, Distance(s, i)) == i;
    }
  }

  lemma ScanOrderPrepend(s: State, now: int, k: nat, rest: seq<nat>)
    requires Valid(s) && k < |s.entries| && Available(s, Slot(s, k), now) && IsScanOrder(s, now, k + 1, rest)
    ensures IsScanOrder(s, now, k, [Slot(s, k)] + rest)
  {
    assert Distance(s, Slot(s, k)) == k;
    hide Available, Slot, Distance, Covers;
    CoversOneMore(s, now, k, rest);
  }

  lemma ScanOrderSkip(s: State, now: int, k: nat, rest: seq<nat>)
    requires Valid(s) && k < |s.entries| && !Available(s, Slot(s, k), now) && IsScanOrder(s, now, k + 1, rest)
    ensures IsScanOrder(s, now, k, rest)
  {
    hide Available;
    forall i: nat | i < |s.entries| && k <= Distance(s, i) && Available(s, i, now) ensures i in rest {
      assert Slot(s, Distance(s, i)) == i;
    }
  }

  lemma NothingLeftToScan(s: State, now: int)
    requires Valid(s)
    ensures IsScanOrder(s, now, |s.entries|, Upcoming(s, now, |s.entries|))
  {
  }

  lemma {:induction false} UpcomingInScanOrder(s: State, now: int, k: nat)
    requires Valid(s) && k <= |s.entries|
    ensures IsScanOrder(s, now, k, Upcoming(s, now, k))
    decreases |s.entries| - k
  {
    hide Available, Slot;
    if k == |s.entries| {
      NothingLeftToScan(s, now);
    } else {
      hide IsScanOrder;
      var rest := Upcoming(s, now, k + 1);
      UpcomingInScanOrder(s, now, k + 1);
      if Available(s, Slot(s, k), now) {
        ScanOrderPrepend(s, now, k, rest);
        assert Upcoming(s, now, k) == [Slot(s, k)] + rest;
      } else {
        ScanOrderSkip(s, now, k, rest);
        assert Upcoming(s, now, k) == [] + rest == rest;
      }
    }
  }

  /** The cursor passes the unavailable entries and stops at the first upcoming one. */
  lemma {:induction false} UpcomingHead(s: State, now: int, k: nat)
    requires Valid(s) && k <= |s.entries|
    ensures var d := Skipped(s, now, k);
            Upcoming(s, now, k) == if d == |s.entries| then [] else [Slot(s, d)] + Upcoming(s, now, d + 1)
    decreases |s.entries| - k
  {
    hide Available, Slot, Valid;
    if k < |s.entries| {
      if Available(s, Slot(s, k), now) {
        assert Skipped(s, now, k) == k;
      } else {
        UpcomingHead(s, now, k + 1);
        assert Upcoming(s, now, k) == [] + Upcoming(s, now, k + 1) == Upcoming(s, now, k + 1);
      }
    }
  }

  /** Entry `i` has been handed out and marked until `to` or later; nothing else has changed. */
  ghost predicate UsedUp(s: State, i: nat, s': State, to: int)
    requires Valid(s) && i < |s.entries|
  {
    && Valid(s') && s'.entries == s.entries && s'.current == Following(s, i)
    && s'.exhausted == s.exhausted[i := true]
    && s'.exhaustedUntil == s.exhaustedUntil[i := s'.exhaustedUntil[i]] && to <= s'.exhaustedUntil[i]
  }

  lemma AvailableAfterUse(s: State, from: int, i: nat, s': State, to: int, t: int, j: nat)
    requires Valid(s) && i < |s.entries| && j < |s.entries| && from <= t <= to && Steady(s, from, to)
             && UsedUp(s, i, s', to)
    ensures Available(s', j, t) <==> j != i && Available(s, j, from)
  {
  }

  lemma SlotAfterUse(s: State, d: nat, s': State, to: int, k: nat)
    requires Valid(s) && d < |s.entries| && k < |s.entries| && UsedUp(s, Slot(s, d), s', to)
    ensures Slot(s', k) == Slot(s, if d + 1 + k < |s.entries| then d + 1 + k else d + 1 + k - |s.entries|)
    ensures d + 1 + k < |s.entries| ==> Slot(s, d + 1 + k) != Slot(s, d)
  {
  }

  /** Once entry `Slot(s, d)` is used and marked, the upcoming entries are those that were behind it. */
  lemma {:induction false} UpcomingAfterUse(s: State, from: int, d: nat, s': State, to: int, t: int, k: nat)
    requires Valid(s) && d == Skipped(s, from, 0) && d < |s.entries| && k <= |s.entries|
    requires from <= t <= to && Steady(s, from, to) && UsedUp(s, Slot(s, d), s', to)
    ensures Upcoming(s', t, k) == if k < |s.entries| - d then Upcoming(s, from, d + 1 + k) else []
    decreases |s.entries| - k
  {
    hide Available, Slot, Steady, Skipped;
    if k < |s.entries| {
      UpcomingAfterUse(s, from, d, s', to, t, k + 1);
      SlotAfterUse(s, d, s', to, k);
      AvailableAfterUse(s, from, Slot(s, d), s', to, t, Slot(s', k));
      if d + 1 + k < |s.entries| {
        assert Upcoming(s, from, d + 1 + k) ==
          (if Available(s, Slot(s, d + 1 + k), from) then [Slot(s, d + 1 + k)] else [])
              + Upcoming(s, from, d + 1 + (k + 1));
      } else {
        assert !Available(s', Slot(s', k), t);
        assert Upcoming(s', t, k) == [] + Upcoming(s', t, k + 1);
      }
    }
  }

  lemma FindsItself(entries: seq<Entry>, i: nat)
    requires i < |entries| && DistinctTokens(entries)
    ensures FirstHolding(entries, entries[i].token) == Some(i)
  {
  }

  /** An attempt that has to be retried uses up the entry it took. */
  lemma RetryUsesUp<T>(s: State, env: seq<Attempt<T>>, k: nat, from: int, to: int)
    requires Valid(s) && k < |env| && SteadyMarks(env, to) && DistinctTokens(s.entries)
    requires Next(s, env[k].takeAt).Some? && Retryable(env[k].call(TokenOf(s, env[k].takeAt)))
    ensures UsedUp(s, Next(s, env[k].takeAt).value, AfterRetry(s, env[k]), to)
  {
    FindsItself(s.entries, Next(s, env[k].takeAt).value);
    hide DistinctTokens, FirstHolding;
  }

  lemma UsedStaysSteady(s: State, from: int, i: nat, s': State, to: int)
    requires Valid(s) && i < |s.entries| && Steady(s, from, to) && UsedUp(s, i, s', to)
    ensures Steady(s', from, to)
  {
  }

  /** One attempt that has to be retried: the pool stays steady, and its upcoming entries lose
      exactly their head. */
  lemma MarkedStep<T>(s: State, env: seq<Attempt<T>>, k: nat, from: int, to: int, t: int)
    requires Valid(s) && k < |env| && from <= t <= to
    requires Within(env, from, to) && Steady(s, from, to) && SteadyMarks(env, to) && DistinctTokens(s.entries)
    requires Next(s, env[k].takeAt).Some? && Retryable(env[k].call(TokenOf(s, env[k].takeAt)))
    ensures AfterRetry(s, env[k]).entries == s.entries && Steady(AfterRetry(s, env[k]), from, to)
    ensures Upcoming(s, from, 0) != [] && Upcoming(AfterRetry(s, env[k]), t, 0) == Upcoming(s, from, 0)[1..]
  {
    var i := Next(s, env[k].takeAt).value;
    RetryUsesUp(s, env, k, from, to);
    SameScan(s, from, to, env[k].takeAt, 0);
    var d, s2 := Skipped(s, from, 0), AfterRetry(s, env[k]);
    assert i == Slot(s, d);
    UsedStaysSteady(s, from, i, s2, to);
    hide Skipped, Steady, SteadyMarks, DistinctTokens, AfterRetry, Available;
    UpcomingHead(s, from, 0);
    UpcomingAfterUse(s, from, d, s2, to, t, 0);
  }

  lemma {:induction false} SameScan(s: State, from: int, to: int, t: int, k: nat)
    requires Valid(s) && k <= |s.entries| && from <= t <= to && Steady(s, from, to)
    ensures Skipped(s, t, k) == Skipped(s, from, k)
    decreases |s.entries| - k
  {
    if k < |s.entries| {
      SameScan(s, from, to, t, k + 1);
    }
  }

  lemma ActiveWhileUpcoming(s: State, t: int, to: int)
    requires Valid(s) && t <= to
    requires forall i :: 0 <= i < |s.entries| ==> !Expired(s.entries[i], to)
    ensures |ActiveSet(s, t)| == 0 <==> Upcoming(s, t, 0) == []
  {
    UpcomingHead(s, t, 0);
    var d := Skipped(s, t, 0);
    if d < |s.entries| {
      assert Slot(s, d) in ActiveSet(s, t);
    } else {
      forall i: nat | i < |s.entries| ensures !Active(s, i, t) {
        assert Slot(s, Distance(s, i)) == i;
      }
      assert ActiveSet(s, t) == {};
    }
  }

  /** From its `k`th on, `tokens` are the tokens now upcoming. */
  ghost predicate Awaits(s: State, from: int, tokens: seq<string>, k: nat)
    requires Valid(s)
  {
    var order := Upcoming(s, from, 0);
    && k + |order| == |tokens|
    && forall i :: 0 <= i < |order| ==> order[i] < |s.entries| && s.entries[order[i]].token == tokens[k + i]
  }

  lemma TakesNext<T>(s: State, tokens: seq<string>, env: seq<Attempt<T>>, k: nat, from: int, to: int)
    requires Valid(s) && k < |env| && from <= to && Within(env, from, to) && Steady(s, from, to)
    requires Awaits(s, from, tokens, k)
    ensures k < |tokens| <==> Next(s, env[k].takeAt).Some?
    ensures TokenOf(s, env[k].takeAt) == if k < |tokens| then tokens[k] else ""
  {
    UpcomingHead(s, from, 0);
    SameScan(s, from, to, env[k].takeAt, 0);
    var order := Upcoming(s, from, 0);
    if |order| > 0 {
      assert s.entries[order[0]].token == tokens[k + 0];
    }
  }

  lemma RetryAwaitsRest<T>(s: State, tokens: seq<string>, env: seq<Attempt<T>>, k: nat, from: int, to: int)
    requires Valid(s) && k < |env| && k < |tokens| && from <= to
    requires Within(env, from, to) && Steady(s, from, to) && SteadyMarks(env, to) && DistinctTokens(s.entries)
    requires Awaits(s, from, tokens, k) && Retryable(env[k].call(tokens[k]))
    ensures var s2 := AfterRetry(s, env[k]);
            && s2.entries == s.entries && Steady(s2, from, to) && Awaits(s2, from, tokens, k + 1)
            && (|ActiveSet(s2, env[k].countAt)| == 0 <==> k + 1 == |tokens|)
            && (k + 1 == |tokens| ==> Upcoming(s2, to, 0) == [])
  {
    TakesNext(s, tokens, env, k, from, to);
    var s2, order := AfterRetry(s, env[k]), Upcoming(s, from, 0);
    MarkedStep(s, env, k, from, to, env[k].countAt);
    MarkedStep(s, env, k, from, to, from);
    MarkedStep(s, env, k, from, to, to);
    ActiveWhileUpcoming(s2, env[k].countAt, to);
    forall i | 0 <= i < |order[1..]| ensures s.entries[order[1..][i]].token == tokens[k + 1 + i] {
      assert order[1..][i] == order[i + 1] && tokens[k + (i + 1)] == tokens[k + 1 + i];
    }
  }

  /** The rotation over the live pool is the plain walk over the tokens available at the start:
      marking and moving the cursor never repeat, drop or reorder one of them. */
  lemma {:induction false} RotationIsWalk<T>(s: State, tokens: seq<string>, env: seq<Attempt<T>>, k: nat, from: int,
                                             to: int)
    requires Valid(s) && k <= |env| && k <= |tokens| && from <= to
    requires Within(env, from, to) && Steady(s, from, to) && SteadyMarks(env, to) && DistinctTokens(s.entries)
    requires Awaits(s, from, tokens, k)
    ensures var r := Rotation(s, env, k);
            && (r.1, r.2) == Walk(tokens, env, k)
            && (r.1.AllInvalid? || r.1.AllExhausted? ==> Upcoming(r.0, to, 0) == [])
    decreases |env| - k
  {
    hide Awaits, AfterRetry, TokenOf, AfterToken, ActiveSet, Steady, SteadyMarks, DistinctTokens;
    if k < |env| {
      TakesNext(s, tokens, env, k, from, to);
      if k < |tokens| && tokens[k] != "" && Retryable(env[k].call(tokens[k])) {
        RetryAwaitsRest(s, tokens, env, k, from, to);
        if k + 1 < |tokens| {
          RotationIsWalk(AfterRetry(s, env[k]), tokens, env, k + 1, from, to);
        }
      }
    }
  }

  /** Attempt `j` settles the call with a value, every attempt before it being retried. */
  ghost predicate FirstValueAt<T>(tokens: seq<string>, env: seq<Attempt<T>>, j: nat) {
    && j < |tokens| && j < |env|
    && tokens[j] != "" && env[j].call(tokens[j]).Value?
    && RetriedBefore(tokens, env, j)
  }

  ghost predicate RetriedBefore<T>(tokens: seq<string>, env: seq<Attempt<T>>, j: nat)
    requires j <= |tokens| && j <= |env|
  {
    forall i :: 0 <= i < j ==> tokens[i] != "" && Retryable(env[i].call(tokens[i]))
  }

  lemma {:induction false} WalkMeaning<T>(tokens: seq<string>, env: seq<Attempt<T>>, k: nat)
    requires k <= |env| && k <= |tokens| && RetriedBefore(tokens, env, k)
    ensures var r := Walk(tokens, env, k);
            && r.1 <= tokens[k..] && |r.1| <= |env| - k
            && (r.0.Ok? <==> exists j: nat :: FirstValueAt(tokens, env, j))
            && (forall j: nat :: FirstValueAt(tokens, env, j) ==>
                  k + |r.1| == j + 1 && env[j].call(tokens[j]) == Value(r.0.value))
    decreases |env| - k
  {
    if k < |env| && k < |tokens| && tokens[k] != "" {
      assert FirstValueAt(tokens, env, k) <==> env[k].call(tokens[k]).Value?;
      if Retryable(env[k].call(tokens[k])) {
        WalkMeaning(tokens, env, k + 1);
        assert tokens[k..] == [tokens[k]] + tokens[k + 1..];
      }
    }
  }

  /** How a call can end without a value. With no token at the start it is told so; when the failing
      attempts use up the last token it reports their cause instead. */
  lemma {:induction false} WalkGivesUp<T>(tokens: seq<string>, env: seq<Attempt<T>>, k: nat)
    requires k <= |env| && (k < |tokens| || k == |tokens| == 0) && RetriedBefore(tokens, env, k)
    requires forall i :: 0 <= i < |tokens| ==> tokens[i] != ""
    ensures var r := Walk(tokens, env, k);
            && (r.0.NoTokens? <==> tokens == [] && k < |env|)
            && (r.0.AllInvalid? || r.0.AllExhausted? <==>
                  0 < |tokens| <= |env| && RetriedBefore(tokens, env, |tokens|))
            && (r.0.AllInvalid? ==> env[|tokens| - 1].call(tokens[|tokens| - 1]).AuthFailure?)
            && (r.0.AllExhausted? ==> env[|tokens| - 1].call(tokens[|tokens| - 1]).RateLimited?)
            && (r.0.RetriesExhausted? <==> k == |env| || (|env| < |tokens| && RetriedBefore(tokens, env, |env|)))
    decreases |env| - k
  {
    if k < |env| && k < |tokens| {
      if Retryable(env[k].call(tokens[k])) {
        if k + 1 < |tokens| {
          WalkGivesUp(tokens, env, k + 1);
        }
      } else {
        assert forall n :: k < n <= |tokens| && n <= |env| ==> !RetriedBefore(tokens, env, n);
      }
    }
  }

  /** The tokens a call has before it: pairwise distinct. */
  lemma UpcomingTokens(s: State, now: int) returns (tokens: seq<string>)
    requires Valid(s) && DistinctTokens(s.entries)
    ensures Awaits(s, now, tokens, 0)
    ensures forall i, j :: 0 <= i < j < |tokens| ==> tokens[i] != tokens[j]
  {
    UpcomingInScanOrder(s, now, 0);
    var order := Upcoming(s, now, 0);
    tokens := seq(|order|, i requires 0 <= i < |order| => s.entries[order[i]].token);
    forall i, j | 0 <= i < j < |tokens| ensures tokens[i] != tokens[j] {
      assert Distance(s, order[i]) < Distance(s, order[j]);
    }
  }

  /** With distinct unexpired tokens, a live context, no other user of the pool and no recorded
      reset passing, the call runs on the tokens available at the start, each at most once and in
      cursor order, at most six of them; and it succeeds exactly when one of the first six gives a
      value before any gives an error that is not retried. */
  lemma RotationMeaning<T>(s: State, tokens: seq<string>, env: seq<Attempt<T>>, from: int, to: int)
    requires Valid(s) && |env| == MAX_POOL_RETRIES && from <= to
    requires Within(env, from, to) && Steady(s, from, to) && SteadyMarks(env, to) && DistinctTokens(s.entries)
    requires Awaits(s, from, tokens, 0)
    ensures var r := Rotation(s, env, 0);
            && r.2 <= tokens && |r.2| <= 6
            && (r.1.Ok? <==> exists j: nat :: FirstValueAt(tokens, env, j))
            && (forall j: nat :: FirstValueAt(tokens, env, j) ==>
                  |r.2| == j + 1 && env[j].call(tokens[j]) == Value(r.1.value))
  {
    assert tokens[0..] == tokens;
    RotationIsWalk(s, tokens, env, 0, from, to);
    WalkMeaning(tokens, env, 0);
  }

  /** Under the same conditions a call finds no token exactly when none was available at the start; a
      call whose attempts all have to be retried and use up what was available ends with the cause of
      the last one, although it leaves the pool without a token. */
  lemma RotationRunsDry<T>(s: State, tokens: seq<string>, env: seq<Attempt<T>>, from: int, to: int)
    requires Valid(s) && |env| == MAX_POOL_RETRIES && from <= to
    requires Within(env, from, to) && Steady(s, from, to) && SteadyMarks(env, to) && DistinctTokens(s.entries)
    requires Awaits(s, from, tokens, 0) && forall i :: 0 <= i < |tokens| ==> tokens[i] != ""
    ensures var r := Rotation(s, env, 0);
            && (r.1.NoTokens? <==> NoneAvailable(s, from))
            && (r.1.AllInvalid? || r.1.AllExhausted? <==>
                  0 < |tokens| <= 6 && RetriedBefore(tokens, env, |tokens|))
            && (r.1.AllInvalid? || r.1.AllExhausted? ==> NoneAvailable(r.0, to))
            && (r.1.RetriesExhausted? <==> 6 < |tokens| && RetriedBefore(tokens, env, 6))
  {
    RotationIsWalk(s, tokens, env, 0, from, to);
    WalkGivesUp(tokens, env, 0);
    NoneUpcoming(s, from);
    NoneUpcoming(Rotation(s, env, 0).0, to);
    hide Awaits, NoneAvailable, Upcoming, Rotation, Walk, Within, Steady, SteadyMarks, DistinctTokens, RetriedBefore;
    assert tokens == [] <==> Upcoming(s, from, 0) == [];
  }

  ghost predicate NoneAvailable(s: State, now: int)
    requires Valid(s)
  {
    forall i :: 0 <= i < |s.entries| ==> !Available(s, i, now)
  }

  lemma NoneUpcoming(s: State, now: int)
    requires Valid(s)
    ensures Upcoming(s, now, 0) == [] <==> NoneAvailable(s, now)
  {
    UpcomingInScanOrder(s, now, 0);
    hide Available;
    var order := Upcoming(s, now, 0);
    if order != [] {
      assert Available(s, order[0], now);
    }
    forall i: nat | i < |s.entries| && Available(s, i, now) ensures order != [] {
      assert i in order;
    }
  }

  // ---------------------------------------------------------------- what an attempt leaves behind

  /** A rejection takes the token out of rotation and goes on record, a rate limit takes it out until
      its own reset and does not, and any other outcome takes out nothing. */
  lemma AttemptMarks<T>(s: State, a: Attempt<T>, i: nat)
    requires Valid(s) && DistinctTokens(s.entries) && Next(s, a.takeAt) == Some(i)
    ensures var e, s' := s.entries[i], AfterRetry(s, a);
            match a.call(e.token)
            case AuthFailure =>
              && s'.exhausted[i] && |s'.invalidations| > 0
              && s'.exhaustedUntil[i] ==
                 (if e.installationID == 0 then 4_070_908_800_000_000_000 else a.markAt + 3_000_000_000_000)
              && s'.invalidations[|s'.invalidations| - 1] ==
                 Invalidation(a.markAt, e.target, e.installationID, e.installationID == 0)
            case RateLimited(resetAt) =>
              && s'.exhausted[i] && s'.invalidations == s.invalidations
              && s'.exhaustedUntil[i] ==
                 if resetAt.Some? && a.markAt < resetAt.value then resetAt.value else a.markAt + 3_000_000_000_000
            case _ => s' == AfterToken(s, a.takeAt) && !s'.exhausted[i] && s'.invalidations == s.invalidations
  {
    FindsItself(s.entries, i);
    hide Next, DistinctTokens, FirstHolding;
  }

  /** Once the context is done no further attempt is made. */
  lemma {:induction false} CancelledCallStops<T>(s: State, env: seq<Attempt<T>>, from: nat, k: nat)
    requires Valid(s) && from <= k < |env| && !env[k].live
    ensures |Rotation(s, env, from).2| <= k - from && !Rotation(s, env, from).1.RetriesExhausted?
    ensures k == from ==> Rotation(s, env, from) == (s, ContextDone, [])
    decreases k - from
  {
    hide Valid, AfterToken, ActiveSet, AfterRetry, TokenOf;
    if from < k && env[from].live {
      CancelledCallStops(AfterRetry(s, env[from]), env, from + 1, k);
    }
  }

  /** Nor when it ends during the backoff that follows a rate limit. A rejection has no backoff. */
  lemma {:induction false} CutBackoffStops<T>(s: State, env: seq<Attempt<T>>, from: nat, k: nat)
    requires Valid(s) && from <= k < |env| && !env[k].backoffLive
    ensures var used := Rotation(s, env, from).2;
            |used| > k + 1 - from ==> env[k].call(used[k - from]).AuthFailure?
    decreases k - from
  {
    hide Valid, AfterToken, ActiveSet, AfterRetry, TokenOf;
    if from < k {
      CutBackoffStops(AfterRetry(s, env[from]), env, from + 1, k);
    }
  }
}

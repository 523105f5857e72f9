/** Minting of installation tokens by any number of concurrent callers.

    A caller checks the cached token under the data lock, queues for the mint lock, checks again,
    and only then mints and stores. Each critical section of the data lock is one step here; the
    mint itself spans time, so its start and its end are two steps. */
module Installation {
  import opened Clock
  import opened Options

  const FRESHNESS_MARGIN := 5 * MINUTE

  datatype Cached = Cached(token: string, expiresAt: int)

  predicate Fresh(c: Cached, now: int) {
    c.token != "" && now + FRESHNESS_MARGIN < c.expiresAt
  }

  /** One call to the mint endpoint, by one caller. `outcome` is `None` for a failed one; `finish` is
      `None` while it is in flight. */
  datatype Mint = Mint(caller: nat, start: int, finish: Option<int>, outcome: Option<Cached>)

  /** How a caller came by its result: let through by a check at some time, or by a mint of its own. */
  datatype Origin = Checked(at: int) | OwnMint(k: nat)

  datatype Caller =
    | Arriving                      // before the first check
    | Waiting                       // first check failed; wants the mint lock
    | Rechecking                    // holds the mint lock, before the second check
    | Minting                       // holds the mint lock, mint in flight
    | Storing(minted: Cached)       // holds the mint lock, mint returned
    | Leaving(result: Option<Cached>, origin: Origin)   // holds the mint lock, about to release it
    | Done(result: Option<Cached>, origin: Origin)      // returned: the token used, or a mint error

  predicate HoldsLock(c: Caller) {
    c.Rechecking? || c.Minting? || c.Storing? || c.Leaving?
  }

  datatype State = State(cached: Cached, holder: Option<nat>, callers: seq<Caller>, now: int, mints: seq<Mint>)

  datatype Step =
    | Tick(to: int)
    | FirstCheck(i: nat)
    | Acquire(i: nat)
    | SecondCheck(i: nat)
    | MintReturns(i: nat, outcome: Option<Cached>)
    | Store(i: nat)
    | Release(i: nat)
    | CallAgain(i: nat)

  ghost predicate Enabled(s: State, step: Step) {
    match step
    case Tick(to) => s.now <= to
    case FirstCheck(i) => i < |s.callers| && s.callers[i].Arriving?
    case Acquire(i) => i < |s.callers| && s.callers[i].Waiting? && s.holder.None?
    case SecondCheck(i) => i < |s.callers| && s.callers[i].Rechecking?
    case MintReturns(i, _) => i < |s.callers| && s.callers[i].Minting? && |s.mints| > 0
    case Store(i) => i < |s.callers| && s.callers[i].Storing? && |s.mints| > 0
    case Release(i) => i < |s.callers| && s.callers[i].Leaving?
    case CallAgain(i) => i < |s.callers| && s.callers[i].Done?
  }

  ghost function Apply(s: State, step: Step): State
    requires Enabled(s, step)
  {
    match step
    case Tick(to) => s.(now := to)
    case FirstCheck(i) =>
      s.(callers := s.callers[i := if Fresh(s.cached, s.now) then Done(Some(s.cached), Checked(s.now)) else Waiting])
    case Acquire(i) => s.(holder := Some(i), callers := s.callers[i := Rechecking])
    case SecondCheck(i) =>
      if Fresh(s.cached, s.now) then s.(callers := s.callers[i := Leaving(Some(s.cached), Checked(s.now))])
      else s.(callers := s.callers[i := Minting], mints := s.mints + [Mint(i, s.now, None, None)])
    case MintReturns(i, outcome) =>
      var last := |s.mints| - 1;
      s.(callers := s.callers[i := if outcome.None? then Leaving(None, OwnMint(last)) else Storing(outcome.value)],
         mints := s.mints[last := s.mints[last].(finish := Some(s.now), outcome := outcome)])
    case Store(i) =>
      var c := s.callers[i].minted;
      s.(cached := c, callers := s.callers[i := Leaving(Some(c), OwnMint(|s.mints| - 1))])
    case Release(i) => s.(holder := None, callers := s.callers[i := Done(s.callers[i].result, s.callers[i].origin)])
    case CallAgain(i) => s.(callers := s.callers[i := Arriving])
  }

  ghost predicate IsRun(s: State, steps: seq<Step>)
    decreases |steps|
  {
    steps != [] ==> Enabled(s, steps[0]) && IsRun(Apply(s, steps[0]), steps[1..])
  }

  ghost function Run(s: State, steps: seq<Step>): State
    requires IsRun(s, steps)
    decreases |steps|
  {
    if steps == [] then s else Run(Apply(s, steps[0]), steps[1..])
  }

  ghost predicate Initial(s: State) {
    && s.cached.token == "" && s.holder.None? && s.mints == []
    && forall i :: 0 <= i < |s.callers| ==> s.callers[i] == Arriving
  }

  // ---------------------------------------------------------------- the guarantee

  /** A mint that ended well, with a token a client can use. */
  predicate Succeeded(m: Mint) {
    m.finish.Some? && m.outcome.Some? && m.outcome.value.token != ""
  }

  /** No two mints overlap, and each mint starts only once every token minted before it is within
      five minutes of its expiry. */
  ghost predicate MintsApart(mints: seq<Mint>) {
    forall j, k :: 0 <= j < k < |mints| ==>
      && mints[j].finish.Some? && mints[j].finish.value <= mints[k].start
      && (Succeeded(mints[j]) ==> mints[j].outcome.value.expiresAt <= mints[k].start + 300_000_000_000)
  }

  /** What a caller got: a mint error, or a token that some mint really returned. */
  ghost predicate WasMinted(mints: seq<Mint>, c: Cached) {
    exists k :: 0 <= k < |mints| && mints[k].outcome == Some(c)
  }

  /** What caller `i` may leave with: a token that a mint of its own returned, the error of one that
      failed, or a token that some mint returned and that had more than five minutes left when a check
      let the caller through. */
  ghost predicate MayLeaveWith(s: State, i: nat, result: Option<Cached>, origin: Origin) {
    match origin
    case OwnMint(k) =>
      k < |s.mints| && s.mints[k].caller == i && s.mints[k].finish.Some? && s.mints[k].outcome == result
    case Checked(at) =>
      && at <= s.now && result.Some? && result.value.token != ""
      && at + 300_000_000_000 < result.value.expiresAt && WasMinted(s.mints, result.value)
  }

  /** Exactly the holder of the mint lock is past the first check. */
  ghost predicate LockIsExclusive(s: State) {
    && (s.holder.Some? ==> s.holder.value < |s.callers|)
    && forall i :: 0 <= i < |s.callers| ==> (HoldsLock(s.callers[i]) <==> s.holder == Some(i))
  }

  ghost predicate HolderIs(s: State, c: Caller) {
    s.holder.Some? && s.holder.value < |s.callers| && s.callers[s.holder.value] == c
  }

  ghost predicate InFlight(m: Mint) {
    m.finish.None? && m.outcome.None?
  }

  /** Mints lie in the past; one is in flight exactly while the lock holder is minting, and a mint
      that is still to be stored is the last one. */
  ghost predicate MintsFollowLock(s: State) {
    && (forall k :: 0 <= k < |s.mints| ==> s.mints[k].start <= s.now)
    && (forall k :: 0 <= k < |s.mints| && s.mints[k].finish.Some? ==> s.mints[k].finish.value <= s.now)
    && (forall k :: 0 <= k < |s.mints| && s.mints[k].finish.None? ==> k == |s.mints| - 1 && HolderIs(s, Minting))
    && (HolderIs(s, Minting) ==>
          |s.mints| > 0 && InFlight(s.mints[|s.mints| - 1]) && s.holder == Some(s.mints[|s.mints| - 1].caller))
    && (forall c :: HolderIs(s, Storing(c)) ==>
          && |s.mints| > 0 && s.mints[|s.mints| - 1].outcome == Some(c)
          && s.mints[|s.mints| - 1].finish.Some? && s.holder == Some(s.mints[|s.mints| - 1].caller))
  }

  ghost predicate TokensAreMinted(s: State) {
    && (s.cached.token != "" ==> WasMinted(s.mints, s.cached))
    && (forall i: nat :: i < |s.callers| && (s.callers[i].Leaving? || s.callers[i].Done?) ==>
          MayLeaveWith(s, i, s.callers[i].result, s.callers[i].origin))
  }

  ghost predicate NoTokenForgotten(s: State) {
    forall k :: 0 <= k < |s.mints| && Succeeded(s.mints[k]) ==> IsCurrentOrOld(s, k)
  }

  ghost predicate Invariant(s: State) {
    MintsApart(s.mints) && LockIsExclusive(s) && MintsFollowLock(s) && TokensAreMinted(s) && NoTokenForgotten(s)
  }

  /** The token of mint `k` is the cached one, or about to be, or a later mint found it stale. */
  ghost predicate IsCurrentOrOld(s: State, k: nat)
    requires k < |s.mints| && Succeeded(s.mints[k])
  {
    var c := s.mints[k].outcome.value;
    || s.cached == c
    || HolderIs(s, Storing(c))
    || c.expiresAt <= s.now + FRESHNESS_MARGIN
  }

  lemma LockStaysExclusive(s: State, step: Step)
    requires LockIsExclusive(s) && Enabled(s, step)
    ensures LockIsExclusive(Apply(s, step))
  {
  }

  lemma MintsKeepFollowing(s: State, step: Step)
    requires LockIsExclusive(s) && MintsFollowLock(s) && Enabled(s, step)
    ensures MintsFollowLock(Apply(s, step))
  {
  }

  lemma MintedStays(s: State, step: Step, c: Cached)
    requires LockIsExclusive(s) && MintsFollowLock(s) && Enabled(s, step) && WasMinted(s.mints, c)
    ensures WasMinted(Apply(s, step).mints, c)
  {
    var k :| 0 <= k < |s.mints| && s.mints[k].outcome == Some(c);
    assert step.MintReturns? ==> HolderIs(s, Minting);
    assert Apply(s, step).mints[k].outcome == Some(c);
  }

  lemma StillMayLeave(s: State, step: Step, i: nat, result: Option<Cached>, origin: Origin)
    requires LockIsExclusive(s) && MintsFollowLock(s) && Enabled(s, step) && MayLeaveWith(s, i, result, origin)
    ensures MayLeaveWith(Apply(s, step), i, result, origin)
  {
    if origin.Checked? {
      MintedStays(s, step, result.value);
    }
    assert step.MintReturns? ==> HolderIs(s, Minting);
  }

  lemma StoredMayLeave(s: State, step: Step)
    requires LockIsExclusive(s) && MintsFollowLock(s) && Enabled(s, step) && step.Store?
    ensures var s' := Apply(s, step);
            WasMinted(s'.mints, s'.cached) && MayLeaveWith(s', step.i, Some(s'.cached), s'.callers[step.i].origin)
  {
    assert HolderIs(s, Storing(s.callers[step.i].minted));
    assert s.mints[|s.mints| - 1].outcome == Some(s.callers[step.i].minted);
  }

  lemma TokensStayMinted(s: State, step: Step)
    requires LockIsExclusive(s) && MintsFollowLock(s) && TokensAreMinted(s) && Enabled(s, step)
    ensures TokensAreMinted(Apply(s, step))
  {
    var s' := Apply(s, step);
    forall c | WasMinted(s.mints, c) ensures WasMinted(s'.mints, c) {
      MintedStays(s, step, c);
    }
    forall i: nat | i < |s.callers| && (s.callers[i].Leaving? || s.callers[i].Done?)
      ensures MayLeaveWith(s', i, s.callers[i].result, s.callers[i].origin)
    {
      StillMayLeave(s, step, i, s.callers[i].result, s.callers[i].origin);
    }
    if step.Store? {
      StoredMayLeave(s, step);
    } else if step.MintReturns? {
      assert HolderIs(s, Minting);
    }
    hide WasMinted, LockIsExclusive, MintsFollowLock;
  }

  lemma MintsStayApart(s: State, step: Step)
    requires Invariant(s) && Enabled(s, step)
    ensures MintsApart(Apply(s, step).mints)
  {
    if step.SecondCheck? {
      assert s.holder == Some(step.i);
      assert forall k :: 0 <= k < |s.mints| && Succeeded(s.mints[k]) ==> IsCurrentOrOld(s, k);
    } else if step.MintReturns? {
      assert HolderIs(s, Minting);
    }
  }

  lemma NoTokenIsForgotten(s: State, step: Step)
    requires Invariant(s) && Enabled(s, step)
    ensures NoTokenForgotten(Apply(s, step))
  {
    var s' := Apply(s, step);
    forall k | 0 <= k < |s'.mints| && Succeeded(s'.mints[k]) ensures IsCurrentOrOld(s', k) {
      if step.MintReturns? {
        assert HolderIs(s, Minting);
        assert k == |s.mints| - 1 ==> HolderIs(s', Storing(s'.mints[k].outcome.value));
      } else if step.Store? {
        assert HolderIs(s, Storing(s.callers[step.i].minted));
      }
      assert k < |s.mints| && Succeeded(s.mints[k]) ==> IsCurrentOrOld(s, k);
    }
  }

  lemma StepKeepsInvariant(s: State, step: Step)
    requires Invariant(s) && Enabled(s, step)
    ensures Invariant(Apply(s, step))
  {
    hide MintsApart, LockIsExclusive, MintsFollowLock, TokensAreMinted, NoTokenForgotten, Apply;
    LockStaysExclusive(s, step);
    MintsKeepFollowing(s, step);
    TokensStayMinted(s, step);
    MintsStayApart(s, step);
    NoTokenIsForgotten(s, step);
  }

  /** However the callers interleave: mints never overlap, a mint starts only once every token
      minted before is within five minutes of its expiry, and no caller leaves with anything but the
      outcome of its own mint or a token that a check found to have more than that left. */
  lemma {:induction false} RunKeepsMintsApart(s: State, steps: seq<Step>)
    requires Invariant(s) && IsRun(s, steps)
    ensures Invariant(Run(s, steps))
    decreases |steps|
  {
    if steps != [] {
      StepKeepsInvariant(s, steps[0]);
      RunKeepsMintsApart(Apply(s, steps[0]), steps[1..]);
    }
  }

  lemma AtMostOneMintPerFreshnessWindow(s: State, steps: seq<Step>)
    requires Initial(s) && IsRun(s, steps)
    ensures MintsApart(Run(s, steps).mints)
    ensures var s' := Run(s, steps);
            forall i: nat :: i < |s'.callers| && s'.callers[i].Done? ==>
              MayLeaveWith(s', i, s'.callers[i].result, s'.callers[i].origin)
  {
    RunKeepsMintsApart(s, steps);
  }

  /** A check lets a caller through exactly when the cached token has more than five minutes left; else
      the first one sends it to the lock and the second one to the mint endpoint. */
  lemma ChecksInMinutes(s: State, i: nat)
    requires i < |s.callers|
    ensures var usable := s.cached.token != "" && s.now + 300_000_000_000 < s.cached.expiresAt;
            && (s.callers[i].Arriving? ==>
                  Apply(s, FirstCheck(i)).callers[i] ==
                  if usable then Done(Some(s.cached), Checked(s.now)) else Waiting)
            && (s.callers[i].Rechecking? ==>
                  && Apply(s, SecondCheck(i)).callers[i] ==
                     (if usable then Leaving(Some(s.cached), Checked(s.now)) else Minting)
                  && |Apply(s, SecondCheck(i)).mints| == |s.mints| + if usable then 0 else 1)
  {
  }

  // ---------------------------------------------------------------- the client itself

  class InstallationClient {
    var token: string
    var expiresAt: int

    constructor ()
      ensures token == ""
    {
      token := "";
      expiresAt := 0;
    }

    method CachedTokenIfFresh(now: int) returns (r: Option<string>)
      ensures r.Some? <==> Fresh(Cached(token, expiresAt), now)
      ensures r == if token != "" && now + 300_000_000_000 < expiresAt then Some(token) else None
    {
      if token != "" && now + 5 * MINUTE < expiresAt {
        return Some(token);
      }
      return None;
    }

    /** One call that meets no other caller. `minted` is what the mint endpoint would answer. */
    method GhClient(firstAt: int, secondAt: int, minted: Option<Cached>) returns (r: Option<string>)
      requires firstAt <= secondAt
      modifies this
      ensures var s := OneCaller(old(Cached(token, expiresAt)), firstAt);
              var steps := SoloSteps(s.cached, firstAt, secondAt, minted);
              IsRun(s, steps) && EndsWith(Run(s, steps), Cached(token, expiresAt), r)
      ensures if old(token) != "" && firstAt + 300_000_000_000 < old(expiresAt)
              then r == Some(old(token)) && token == old(token) && expiresAt == old(expiresAt)
              else if minted.None? then r == None && token == old(token) && expiresAt == old(expiresAt)
              else r == Some(token) && Cached(token, expiresAt) == minted.value
    {
      ghost var c := Cached(token, expiresAt);
      r := CachedTokenIfFresh(firstAt);
      if r.Some? {
        RunOfOne(OneCaller(c, firstAt), FirstCheck(0));
        return;
      }
      SoloMint(c, secondAt, minted);
      SoloRecheck(c, firstAt, secondAt, MintSteps(minted));
      r := CachedTokenIfFresh(secondAt);
      if r.Some? {
        return;
      }
      if minted.None? {
        return None;
      }
      token := minted.value.token;
      expiresAt := minted.value.expiresAt;
      return Some(token);
    }
  }

  ghost function OneCaller(c: Cached, now: int): State {
    State(c, None, [Arriving], now, [])
  }

  ghost function MintSteps(minted: Option<Cached>): seq<Step> {
    [MintReturns(0, minted)] + if minted.Some? then [Store(0), Release(0)] else [Release(0)]
  }

  /** The protocol steps of one caller on its own. */
  ghost function SoloSteps(c: Cached, firstAt: int, secondAt: int, minted: Option<Cached>): seq<Step> {
    if Fresh(c, firstAt) then [FirstCheck(0)]
    else
      [FirstCheck(0), Acquire(0), Tick(secondAt), SecondCheck(0)] + MintSteps(minted)
  }

  ghost predicate EndsWith(s: State, c: Cached, r: Option<string>) {
    && s.cached == c && s.holder.None? && |s.callers| == 1 && s.callers[0].Done?
    && r == if s.callers[0].result.None? then None else Some(s.callers[0].result.value.token)
  }

  /** One caller alone, sent to mint by the second check. */
  ghost function Rechecked(c: Cached, now: int): State {
    State(c, Some(0), [Minting], now, [Mint(0, now, None, None)])
  }

  /** One caller alone, about to release the lock after its own mint. */
  ghost function Minted(c: Cached, now: int, minted: Option<Cached>): State {
    State(if minted.Some? then minted.value else c, Some(0), [Leaving(minted, OwnMint(0))], now,
          [Mint(0, now, Some(now), minted)])
  }

  lemma SoloRelease(s: State)
    requires |s.callers| == 1 && s.callers[0].Leaving?
    ensures IsRun(s, [Release(0)])
    ensures var r := s.callers[0].result;
            EndsWith(Run(s, [Release(0)]), s.cached, if r.None? then None else Some(r.value.token))
  {
    RunOfOne(s, Release(0));
  }

  lemma SoloMint(c: Cached, now: int, minted: Option<Cached>)
    ensures var s, steps := Rechecked(c, now), MintSteps(minted);
            && IsRun(s, steps)
            && EndsWith(Run(s, steps), if minted.Some? then minted.value else c,
                        if minted.Some? then Some(minted.value.token) else None)
  {
    var s := Rechecked(c, now);
    var s' := Apply(s, MintReturns(0, minted));
    SoloRelease(Minted(c, now, minted));
    if minted.Some? {
      assert Apply(s', Store(0)) == Minted(c, now, minted);
      RunOfMore(s', Store(0), [Release(0)]);
      assert [Store(0)] + [Release(0)] == [Store(0), Release(0)];
      RunOfMore(s, MintReturns(0, minted), [Store(0), Release(0)]);
    } else {
      assert s' == Minted(c, now, minted);
      RunOfMore(s, MintReturns(0, minted), [Release(0)]);
    }
  }

  lemma SoloRecheck(c: Cached, firstAt: int, secondAt: int, rest: seq<Step>)
    requires firstAt <= secondAt && !Fresh(c, firstAt) && IsRun(Rechecked(c, secondAt), rest)
    ensures var s, steps := OneCaller(c, firstAt), [FirstCheck(0), Acquire(0), Tick(secondAt), SecondCheck(0)] + rest;
            IsRun(s, steps) && Run(s, steps) == Run(Rechecked(c, secondAt), rest)
  {
    var s1 := State(c, None, [Waiting], firstAt, []);
    var s2 := State(c, Some(0), [Rechecking], firstAt, []);
    var s3 := s2.(now := secondAt);
    assert Enabled(OneCaller(c, firstAt), FirstCheck(0)) && Apply(OneCaller(c, firstAt), FirstCheck(0)) == s1;
    assert Enabled(s1, Acquire(0)) && Apply(s1, Acquire(0)) == s2;
    assert Enabled(s2, Tick(secondAt)) && Apply(s2, Tick(secondAt)) == s3;
    assert Enabled(s3, SecondCheck(0)) && Apply(s3, SecondCheck(0)) == Rechecked(c, secondAt);
    hide Enabled, Apply, Rechecked, OneCaller;
    RunOfMore(s3, SecondCheck(0), rest);
    RunOfMore(s2, Tick(secondAt), [SecondCheck(0)] + rest);
    RunOfMore(s1, Acquire(0), [Tick(secondAt)] + ([SecondCheck(0)] + rest));
    RunOfMore(OneCaller(c, firstAt), FirstCheck(0), [Acquire(0)] + ([Tick(secondAt)] + ([SecondCheck(0)] + rest)));
    assert [FirstCheck(0), Acquire(0), Tick(secondAt), SecondCheck(0)] + rest ==
           [FirstCheck(0)] + ([Acquire(0)] + ([Tick(secondAt)] + ([SecondCheck(0)] + rest)));
  }

  lemma RunOfOne(s: State, step: Step)
    requires Enabled(s, step)
    ensures IsRun(s, [step]) && Run(s, [step]) == Apply(s, step)
  {
    assert [step][1..] == [];
    assert IsRun(Apply(s, step), [step][1..]);
  }

  lemma RunOfMore(s: State, step: Step, rest: seq<Step>)
    requires Enabled(s, step) && IsRun(Apply(s, step), rest)
    ensures IsRun(s, [step] + rest) && Run(s, [step] + rest) == Run(Apply(s, step), rest)
  {
    assert ([step] + rest)[1..] == rest;
  }
}

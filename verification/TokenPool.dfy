/** The round-robin GitHub token pool: a cursor over parallel slices, with timed exhaustion.

    `State` is the value of a pool between two calls and the functions over it say what a call
    does. The class `TokenPool` carries the source's fields and loops, and every method is proved
    against those functions. Times are nanoseconds since the Unix epoch; each clock read is a
    parameter. */
module TokenPools {
  import opened Clock
  import opened Options
  import opened Sets

  const TOKEN_RESET_FALLBACK := 50 * MINUTE
  const TOKEN_EXPIRY_BUFFER := 5 * MINUTE
  // 2099-01-01T00:00:00Z
  const PERMANENT_INVALIDATION_UNTIL := 4_070_908_800 * SECOND
  const INVALIDATION_RING_CAP := 64

  datatype Entry = Entry(installationID: int, target: string, token: string, expiresAt: Option<int>)

  datatype Invalidation = Invalidation(at: int, target: string, installationID: int, permanent: bool)

  datatype State = State(
    entries: seq<Entry>,
    counts: seq<int>,
    exhausted: seq<bool>,
    exhaustedUntil: seq<int>,
    current: nat,
    invalidations: seq<Invalidation>)

  ghost predicate Valid(s: State) {
    && |s.counts| == |s.exhausted| == |s.exhaustedUntil| == |s.entries|
    && (if |s.entries| == 0 then s.current == 0 else s.current < |s.entries|)
    && |s.invalidations| <= INVALIDATION_RING_CAP
  }

  // ---------------------------------------------------------------- selection

  /** Entry `i` may be handed out at `now`. */
  ghost predicate Available(s: State, i: nat, now: int)
    requires Valid(s) && i < |s.entries|
  {
    !s.exhausted[i] || now > s.exhaustedUntil[i]
  }

  /** The entry reached after `k` steps of the cursor. */
  ghost function Slot(s: State, k: nat): (i: nat)
    requires Valid(s) && k < |s.entries|
    ensures i < |s.entries|
  {
    if s.current + k < |s.entries| then s.current + k else s.current + k - |s.entries|
  }

  /** How many unavailable entries the cursor passes, from its `k`th step on. */
  ghost function Skipped(s: State, now: int, k: nat): (d: nat)
    requires Valid(s) && k <= |s.entries|
    ensures k <= d <= |s.entries|
    ensures d < |s.entries| ==> Available(s, Slot(s, d), now)
    ensures forall j :: k <= j < d ==> !Available(s, Slot(s, j), now)
    decreases |s.entries| - k
  {
    if k == |s.entries| || Available(s, Slot(s, k), now) then k else Skipped(s, now, k + 1)
  }

  /** The entry the next `Token` call hands out, if any. */
  ghost function Next(s: State, now: int): (r: Option<nat>)
    requires Valid(s)
    ensures r.Some? ==> r.value < |s.entries| && Available(s, r.value, now)
    ensures r.Some? ==> forall j: nat :: j < Distance(s, r.value) ==> !Available(s, Slot(s, j), now)
    ensures r.None? <==> forall i :: 0 <= i < |s.entries| ==> !Available(s, i, now)
  {
    var d := Skipped(s, now, 0);
    if d < |s.entries| then Some(Slot(s, d)) else
      assert forall i :: 0 <= i < |s.entries| ==> !Available(s, i, now) by {
        forall i | 0 <= i < |s.entries| ensures !Available(s, i, now) {
          assert i == Slot(s, Distance(s, i));
        }
      }
      None
  }

  lemma NextIsFirst(s: State, now: int, k: nat)
    requires Valid(s) && k <= |s.entries|
    requires forall j :: 0 <= j < k ==> !Available(s, Slot(s, j), now)
    ensures k < |s.entries| && Available(s, Slot(s, k), now) ==> Next(s, now) == Some(Slot(s, k))
    ensures k == |s.entries| ==> Next(s, now) == None
  {
    hide Available;
  }

  /** Steps the cursor needs to reach entry `i`. */
  ghost function Distance(s: State, i: nat): (k: nat)
    requires Valid(s) && i < |s.entries|
    ensures k < |s.entries| && Slot(s, k) == i
  {
    if i >= s.current then i - s.current else i - s.current + |s.entries|
  }

  ghost function Following(s: State, i: nat): (j: nat)
    requires i < |s.entries|
    ensures j < |s.entries|
  {
    if i + 1 == |s.entries| then 0 else i + 1
  }

  /** The pool after a `Token` call: only the entry handed out is counted and released, and the
      cursor stops behind it. With nothing available the pool is unchanged. */
  ghost function AfterToken(s: State, now: int): (s': State)
    requires Valid(s)
    ensures Valid(s')
  {
    match Next(s, now)
    case None => s
    case Some(i) =>
      s.(counts := s.counts[i := s.counts[i] + 1],
         exhausted := s.exhausted[i := false],
         current := Following(s, i))
  }

  ghost function TokenOf(s: State, now: int): string
    requires Valid(s)
  {
    match Next(s, now)
    case None => ""
    case Some(i) => s.entries[i].token
  }

  // ---------------------------------------------------------------- marking

  /** The entry that a call naming `token` changes: the first one holding it. */
  function FirstHolding(entries: seq<Entry>, token: string): (r: Option<nat>)
    ensures r.None? <==> forall i :: 0 <= i < |entries| ==> entries[i].token != token
    ensures r.Some? ==> r.value < |entries| && entries[r.value].token == token
    ensures r.Some? ==> forall i :: 0 <= i < r.value ==> entries[i].token != token
  {
    if |entries| == 0 then None
    else if entries[0].token == token then Some(0)
    else
      match FirstHolding(entries[1..], token)
      case None => None
      case Some(i) => Some(i + 1)
  }

  /** The reset that `Exhaust` records: a missing or past one becomes the fallback. */
  function RecordedReset(resetAt: Option<int>, now: int): (until: int)
    ensures until > now
  {
    if resetAt.None? || resetAt.value <= now then now + TOKEN_RESET_FALLBACK else resetAt.value
  }

  ghost function Marked(s: State, i: nat, until: int): (s': State)
    requires Valid(s) && i < |s.entries|
    ensures Valid(s')
  {
    s.(exhausted := s.exhausted[i := true], exhaustedUntil := s.exhaustedUntil[i := until])
  }

  ghost function AfterExhaust(s: State, token: string, resetAt: Option<int>, now: int): (s': State)
    requires Valid(s)
    ensures Valid(s')
  {
    match FirstHolding(s.entries, token)
    case None => s
    case Some(i) => Marked(s, i, RecordedReset(resetAt, now))
  }

  function Recorded(ring: seq<Invalidation>, ev: Invalidation): (ring': seq<Invalidation>)
    requires |ring| <= INVALIDATION_RING_CAP
    ensures |ring'| <= INVALIDATION_RING_CAP
  {
    if |ring| >= INVALIDATION_RING_CAP then ring[1..] + [ev] else ring + [ev]
  }

  /** A personal token (no installation) is disabled for good, an installation token until the
      fallback has passed. */
  function InvalidUntil(e: Entry, now: int): int {
    if e.installationID == 0 then PERMANENT_INVALIDATION_UNTIL else now + TOKEN_RESET_FALLBACK
  }

  ghost function AfterInvalidate(s: State, token: string, now: int): (s': State)
    requires Valid(s)
    ensures Valid(s')
  {
    match FirstHolding(s.entries, token)
    case None => s
    case Some(i) =>
      var e := s.entries[i];
      Marked(s, i, InvalidUntil(e, now)).(invalidations :=
        Recorded(s.invalidations, Invalidation(now, e.target, e.installationID, e.installationID == 0)))
  }

  // ---------------------------------------------------------------- capacity

  /** Exhausted, with a reset that has not passed. */
  ghost predicate Pending(s: State, i: nat, now: int)
    requires Valid(s) && i < |s.entries|
  {
    s.exhausted[i] && now <= s.exhaustedUntil[i]
  }

  predicate Expired(e: Entry, now: int) {
    e.expiresAt.Some? && now > e.expiresAt.value
  }

  ghost predicate Active(s: State, i: nat, now: int)
    requires Valid(s) && i < |s.entries|
  {
    !Pending(s, i, now) && !Expired(s.entries[i], now)
  }

  ghost function ActiveSet(s: State, now: int): set<nat>
    requires Valid(s)
  {
    set i: nat | i < |s.entries| && Active(s, i, now)
  }

  /** `r` is the soonest pending reset. */
  ghost predicate IsEarliestReset(s: State, now: int, r: Option<int>)
    requires Valid(s)
  {
    match r
    case None => forall i :: 0 <= i < |s.entries| ==> !Pending(s, i, now)
    case Some(t) =>
      && (exists i :: 0 <= i < |s.entries| && Pending(s, i, now) && s.exhaustedUntil[i] == t)
      && forall i :: 0 <= i < |s.entries| && Pending(s, i, now) ==> t <= s.exhaustedUntil[i]
  }

  lemma WrapIsModulo(x: nat, n: nat)
    requires x < n
    ensures (x + 1) % n == if x + 1 == n then 0 else x + 1
  {
  }

  // ---------------------------------------------------------------- the pool itself

  class TokenPool {
    var entries: seq<Entry>
    var counts: seq<int>
    var exhausted: seq<bool>
    var exhaustedUntil: seq<int>
    var current: nat
    var invalidations: seq<Invalidation>

    ghost function View(): State
      reads this
    {
      State(entries, counts, exhausted, exhaustedUntil, current, invalidations)
    }

    ghost predicate Invariant()
      reads this
    {
      Valid(View())
    }

    constructor (list: seq<Entry>)
      ensures Invariant()
      ensures entries == list && current == 0 && invalidations == []
      ensures forall i :: 0 <= i < |list| ==> counts[i] == 0 && !exhausted[i]
    {
      entries := list;
      counts := seq(|list|, _ => 0);
      exhausted := seq(|list|, _ => false);
      exhaustedUntil := seq(|list|, _ => 0);
      current := 0;
      invalidations := [];
    }

    /** Hands out the next available token, or "". `refresh` reports that the refresh goroutine
        is to be signalled. */
    method Token(now: int) returns (token: string, refresh: bool)
      requires Invariant()
      modifies this
      ensures Invariant()
      ensures View() == AfterToken(old(View()), now)
      ensures token == TokenOf(old(View()), now)
      ensures refresh <==>
                var picked := Next(old(View()), now);
                && picked.Some? && old(entries)[picked.value].expiresAt.Some?
                && now + 300_000_000_000 > old(entries)[picked.value].expiresAt.value
    {
      ghost var s := View();
      var n := |entries|;
      if n == 0 {
        NextIsFirst(s, now, 0);
        return "", false;
      }
      for k := 0 to n
        invariant Invariant()
        invariant View() == s.(current := if s.current + k < n then s.current + k else s.current + k - n)
        invariant forall j :: 0 <= j < k ==> !Available(s, Slot(s, j), now)
      {
        var idx := current;
        assert idx == Slot(s, k);
        WrapIsModulo(idx, n);
        current := (idx + 1) % n;
        if exhausted[idx] && now > exhaustedUntil[idx] {
          exhausted := exhausted[idx := false];
        }
        if exhausted[idx] {
          continue;
        }
        var entry := entries[idx];
        refresh := entry.expiresAt.Some? && now + TOKEN_EXPIRY_BUFFER > entry.expiresAt.value;
        counts := counts[idx := counts[idx] + 1];
        NextIsFirst(s, now, k);
        hide Next, Skipped;
        assert exhausted == s.exhausted[idx := false];
        return entry.token, refresh;
      }
      NextIsFirst(s, now, n);
      return "", false;
    }

    method Exhaust(token: string, resetAt: Option<int>, now: int)
      requires Invariant()
      modifies this
      ensures Invariant()
      ensures View() == AfterExhaust(old(View()), token, resetAt, now)
    {
      var until := now + TOKEN_RESET_FALLBACK;
      if resetAt.Some? && resetAt.value > now {
        until := resetAt.value;
      }
      for i := 0 to |entries|
        invariant unchanged(this)
        invariant forall j :: 0 <= j < i ==> entries[j].token != token
      {
        if entries[i].token == token {
          exhausted := exhausted[i := true];
          exhaustedUntil := exhaustedUntil[i := until];
          return;
        }
      }
    }

    method InvalidateAuth(token: string, now: int)
      requires Invariant()
      modifies this
      ensures Invariant()
      ensures View() == AfterInvalidate(old(View()), token, now)
    {
      for i := 0 to |entries|
        invariant unchanged(this)
        invariant forall j :: 0 <= j < i ==> entries[j].token != token
      {
        var e := entries[i];
        if e.token == token {
          var until := now + TOKEN_RESET_FALLBACK;
          var permanent := e.installationID == 0;
          if permanent {
            until := PERMANENT_INVALIDATION_UNTIL;
          }
          exhausted := exhausted[i := true];
          exhaustedUntil := exhaustedUntil[i := until];
          var ev := Invalidation(now, e.target, e.installationID, permanent);
          if |invalidations| >= INVALIDATION_RING_CAP {
            invalidations := invalidations[1..] + [ev];
          } else {
            invalidations := invalidations + [ev];
          }
          return;
        }
      }
    }

    method ActiveCount(now: int) returns (count: nat)
      requires Invariant()
      ensures count == |ActiveSet(View(), now)|
    {
      count := 0;
      ghost var seen: set<nat> := {};
      for i := 0 to |entries|
        invariant seen == set j: nat | j < i && Active(View(), j, now)
        invariant count == |seen|
      {
        var isExhausted := exhausted[i] && !(now > exhaustedUntil[i]);
        var isExpired := entries[i].expiresAt.Some? && now > entries[i].expiresAt.value;
        if !isExhausted && !isExpired {
          count := count + 1;
          seen := seen + {i};
        }
      }
    }

    method EarliestReset(now: int) returns (earliest: Option<int>)
      requires Invariant()
      ensures IsEarliestReset(View(), now, earliest)
    {
      earliest := None;
      for i := 0 to |entries|
        invariant earliest.None? ==> forall j :: 0 <= j < i ==> !Pending(View(), j, now)
        invariant earliest.Some? ==>
                  exists j :: 0 <= j < i && Pending(View(), j, now) && exhaustedUntil[j] == earliest.value
        invariant earliest.Some? ==> forall j :: 0 <= j < i && Pending(View(), j, now) ==>
                  earliest.value <= exhaustedUntil[j]
      {
        if !exhausted[i] || now > exhaustedUntil[i] {
          continue;
        }
        if earliest.None? || exhaustedUntil[i] < earliest.value {
          earliest := Some(exhaustedUntil[i]);
        }
      }
    }
  }

  // ---------------------------------------------------------------- fairness

  datatype Op =
    | TakeToken(now: int)
    | MarkExhausted(token: string, resetAt: Option<int>, now: int)
    | MarkInvalid(token: string, now: int)

  ghost function Apply(s: State, op: Op): (s': State)
    requires Valid(s)
    ensures Valid(s') && s'.entries == s.entries
  {
    match op
    case TakeToken(now) => AfterToken(s, now)
    case MarkExhausted(token, resetAt, now) => AfterExhaust(s, token, resetAt, now)
    case MarkInvalid(token, now) => AfterInvalidate(s, token, now)
  }

  ghost function Run(s: State, ops: seq<Op>): (s': State)
    requires Valid(s)
    ensures Valid(s') && s'.entries == s.entries
    decreases |ops|
  {
    if ops == [] then s else Run(Apply(s, ops[0]), ops[1..])
  }

  /** Entry `i` could be handed out at every `Token` call of the run. */
  ghost predicate AvailableThroughout(s: State, ops: seq<Op>, i: nat)
    requires Valid(s) && i < |s.entries|
    decreases |ops|
  {
    ops != [] ==>
    && (ops[0].TakeToken? ==> Available(s, i, ops[0].now))
    && AvailableThroughout(Apply(s, ops[0]), ops[1..], i)
  }

  /** The cursor reaches `a` before `b`. */
  ghost predicate Ahead(s: State, a: nat, b: nat)
    requires Valid(s) && a < |s.entries| && b < |s.entries|
  {
    Distance(s, a) < Distance(s, b)
  }

  ghost function Lead(s: State, a: nat, b: nat): int
    requires Valid(s) && a < |s.entries| && b < |s.entries|
  {
    if Ahead(s, a, b) then 1 else 0
  }

  /** An available entry is either handed out, and then last in line, or moves up by the entries the
      cursor passes. */
  lemma MovesUp(s: State, now: int, x: nat)
    requires Valid(s) && x < |s.entries| && Available(s, x, now)
    ensures Next(s, now).Some?
    ensures var i, s' := Next(s, now).value, AfterToken(s, now);
            && s'.counts[x] == s.counts[x] + (if x == i then 1 else 0)
            && Distance(s', x) == if x == i then |s.entries| - 1 else Distance(s, x) - Distance(s, i) - 1
  {
    hide Available;
    assert Slot(s, Distance(s, x)) == x;
  }

  lemma StepBalance(s: State, op: Op, a: nat, b: nat)
    requires Valid(s) && a < |s.entries| && b < |s.entries| && a != b
    requires op.TakeToken? ==> Available(s, a, op.now) && Available(s, b, op.now)
    ensures var s' := Apply(s, op);
            (s'.counts[a] - s.counts[a]) - (s'.counts[b] - s.counts[b]) == Lead(s, a, b) - Lead(s', a, b)
  {
    if op.TakeToken? {
      MovesUp(s, op.now, a);
      MovesUp(s, op.now, b);
      hide Available, Next, AfterToken, Distance, Slot, Skipped;
    }
  }

  /** How far two always available entries drift apart is settled by the cursor alone: by which
      of them it reaches first, at the start and at the end of the run. */
  lemma {:induction false} RunBalance(s: State, ops: seq<Op>, a: nat, b: nat)
    requires Valid(s) && a < |s.entries| && b < |s.entries| && a != b
    requires AvailableThroughout(s, ops, a) && AvailableThroughout(s, ops, b)
    ensures var s' := Run(s, ops);
            (s'.counts[a] - s.counts[a]) - (s'.counts[b] - s.counts[b]) == Lead(s, a, b) - Lead(s', a, b)
    decreases |ops|
  {
    if ops != [] {
      StepBalance(s, ops[0], a, b);
      RunBalance(Apply(s, ops[0]), ops[1..], a, b);
    }
  }

  lemma RoundRobinFairness(s: State, ops: seq<Op>, a: nat, b: nat)
    requires Valid(s) && a < |s.entries| && b < |s.entries|
    requires AvailableThroughout(s, ops, a) && AvailableThroughout(s, ops, b)
    ensures var s' := Run(s, ops);
            -1 <= (s'.counts[a] - s.counts[a]) - (s'.counts[b] - s.counts[b]) <= 1
  {
    if a != b {
      RunBalance(s, ops, a, b);
    }
  }

  ghost predicate Marks(s: State, op: Op, i: nat) {
    !op.TakeToken? && FirstHolding(s.entries, op.token) == Some(i)
  }

  /** Enough for `AvailableThroughout`: available at first, clock reads that never go back, and
      no call that marks the entry. */
  lemma {:induction false} UnmarkedStaysAvailable(s: State, ops: seq<Op>, i: nat, start: int)
    requires Valid(s) && i < |s.entries| && Available(s, i, start)
    requires forall k :: 0 <= k < |ops| ==> start <= ops[k].now && !Marks(s, ops[k], i)
    requires forall j, k :: 0 <= j < k < |ops| ==> ops[j].now <= ops[k].now
    ensures AvailableThroughout(s, ops, i)
    decreases |ops|
  {
    if ops != [] {
      var s', rest := Apply(s, ops[0]), ops[1..];
      assert Available(s', i, start);
      forall k | 0 <= k < |rest| ensures start <= rest[k].now && !Marks(s', rest[k], i) {
        assert rest[k] == ops[k + 1];
      }
      UnmarkedStaysAvailable(s', rest, i, start);
    }
  }

  // ---------------------------------------------------------------- revoked personal tokens

  /** Marked until `until` or later. */
  ghost predicate DisabledUntil(s: State, i: nat, until: int)
    requires Valid(s) && i < |s.entries|
  {
    s.exhausted[i] && until <= s.exhaustedUntil[i]
  }

  /** A disabled entry is not handed out up to then, whatever happens, unless a call to `Exhaust`
      names it. */
  lemma {:induction false} DisabledStaysUnused(s: State, ops: seq<Op>, i: nat, until: int)
    requires Valid(s) && i < |s.entries| && DisabledUntil(s, i, until) && until <= PERMANENT_INVALIDATION_UNTIL
    requires s.entries[i].installationID == 0
    requires forall k :: 0 <= k < |ops| ==> ops[k].now <= until && !(ops[k].MarkExhausted? && Marks(s, ops[k], i))
    ensures Run(s, ops).counts[i] == s.counts[i] && DisabledUntil(Run(s, ops), i, until)
    decreases |ops|
  {
    if ops != [] {
      var s', rest := Apply(s, ops[0]), ops[1..];
      forall k | 0 <= k < |rest| ensures rest[k].now <= until && !(rest[k].MarkExhausted? && Marks(s', rest[k], i)) {
        assert rest[k] == ops[k + 1];
      }
      DisabledStaysUnused(s', rest, i, until);
    }
  }

  /** A personal token that GitHub rejected is not handed out before the far-future sentinel while
      `Exhaust` does not name it. */
  lemma {:induction false} RevokedTokenStaysOut(s: State, i: nat, now: int, ops: seq<Op>)
    requires Valid(s) && i < |s.entries| && s.entries[i].installationID == 0
    requires FirstHolding(s.entries, s.entries[i].token) == Some(i)
    requires forall k :: 0 <= k < |ops| ==>
               ops[k].now <= PERMANENT_INVALIDATION_UNTIL && !(ops[k].MarkExhausted? && Marks(s, ops[k], i))
    ensures var s' := AfterInvalidate(s, s.entries[i].token, now);
            Run(s', ops).counts[i] == s.counts[i]
  {
    var s' := AfterInvalidate(s, s.entries[i].token, now);
    assert forall op :: Marks(s', op, i) == Marks(s, op, i);
    DisabledStaysUnused(s', ops, i, PERMANENT_INVALIDATION_UNTIL);
  }

  // ---------------------------------------------------------------- exactly when an entry comes back

  /** Until when a marking call takes its entry `e` out of rotation. */
  function MarkedUntil(e: Entry, op: Op): int
    requires !op.TakeToken?
  {
    match op
    case MarkExhausted(_, resetAt, now) => RecordedReset(resetAt, now)
    case MarkInvalid(_, now) => InvalidUntil(e, now)
  }

  ghost predicate NoneMarks(s: State, ops: seq<Op>, i: nat) {
    forall k :: 0 <= k < |ops| ==> !Marks(s, ops[k], i)
  }

  /** Call `k` is the last of the run to mark entry `i`. */
  ghost predicate LastMarks(s: State, ops: seq<Op>, i: nat, k: nat) {
    k < |ops| && Marks(s, ops[k], i) && forall later :: k < later < |ops| ==> !Marks(s, ops[later], i)
  }

  lemma {:induction false} RunOneMore(s: State, ops: seq<Op>, op: Op)
    requires Valid(s)
    ensures Run(s, ops + [op]) == Apply(Run(s, ops), op)
    decreases |ops|
  {
    if ops == [] {
      assert [] + [op] == [op] && [op][1..] == [];
      assert Run(Apply(s, op), []) == Apply(s, op);
    } else {
      assert (ops + [op])[1..] == ops[1..] + [op];
      RunOneMore(Apply(s, ops[0]), ops[1..], op);
    }
  }

  /** A mark alone decides. Handing the entry out does not matter, since its reset has passed then. */
  lemma {:induction false} CallDecides(s: State, op: Op, i: nat, t: int)
    requires Valid(s) && i < |s.entries| && op.now <= t
    ensures Available(Apply(s, op), i, t) <==>
            if Marks(s, op, i) then MarkedUntil(s.entries[i], op) < t else Available(s, i, t)
  {
  }

  lemma {:induction false} MarksOneMore(s: State, ops: seq<Op>, op: Op, i: nat)
    ensures NoneMarks(s, ops + [op], i) <==> NoneMarks(s, ops, i) && !Marks(s, op, i)
    ensures forall k: nat :: LastMarks(s, ops + [op], i, k) <==>
              if Marks(s, op, i) then k == |ops| else LastMarks(s, ops, i, k)
  {
    hide Marks;
    var more := ops + [op];
    assert more[|ops|] == op && forall j :: 0 <= j < |ops| ==> more[j] == ops[j];
  }

  /** When an entry may be handed out after a run is settled by the last call that marked it. */
  lemma {:induction false} LastMarkDecides(s: State, ops: seq<Op>, i: nat, t: int)
    requires Valid(s) && i < |s.entries|
    requires forall k :: 0 <= k < |ops| ==> ops[k].now <= t
    ensures NoneMarks(s, ops, i) || exists k: nat :: LastMarks(s, ops, i, k)
    ensures NoneMarks(s, ops, i) ==> Available(Run(s, ops), i, t) == Available(s, i, t)
    ensures forall k: nat :: LastMarks(s, ops, i, k) ==>
              (Available(Run(s, ops), i, t) <==> MarkedUntil(s.entries[i], ops[k]) < t)
    decreases |ops|
  {
    if ops != [] {
      var n := |ops| - 1;
      var init, op := ops[..n], ops[n];
      assert ops == init + [op];
      LastMarkDecides(s, init, i, t);
      RunOneMore(s, init, op);
      MarksOneMore(s, init, op, i);
      assert Marks(Run(s, init), op, i) == Marks(s, op, i);
      CallDecides(Run(s, init), op, i, t);
      hide Available, Apply, Run, Marks, MarkedUntil, NoneMarks;
      assert Marks(s, op, i) ==> LastMarks(s, ops, i, n);
    }
  }

  /** A personal entry that is disabled for good comes back exactly when the last call to mark it is
      an `Exhaust` whose recorded reset has passed. A later rejection keeps it out again. */
  lemma {:induction false} DisabledReturnsExactlyWhen(s: State, ops: seq<Op>, i: nat, t: int)
    requires Valid(s) && i < |s.entries| && s.entries[i].installationID == 0
    requires DisabledUntil(s, i, PERMANENT_INVALIDATION_UNTIL) && t <= PERMANENT_INVALIDATION_UNTIL
    requires forall k :: 0 <= k < |ops| ==> ops[k].now <= t
    ensures Available(Run(s, ops), i, t) <==>
            exists k: nat :: LastMarks(s, ops, i, k) && ops[k].MarkExhausted?
                             && RecordedReset(ops[k].resetAt, ops[k].now) < t
  {
    LastMarkDecides(s, ops, i, t);
    hide Run, Marks;
  }

  /** In particular after a 401 from GitHub. */
  lemma {:induction false} RevokedTokenReturnsExactlyWhen(s: State, i: nat, now: int, ops: seq<Op>, t: int)
    requires Valid(s) && i < |s.entries| && s.entries[i].installationID == 0
    requires FirstHolding(s.entries, s.entries[i].token) == Some(i) && t <= PERMANENT_INVALIDATION_UNTIL
    requires forall k :: 0 <= k < |ops| ==> ops[k].now <= t
    ensures Available(Run(AfterInvalidate(s, s.entries[i].token, now), ops), i, t) <==>
            exists k: nat :: LastMarks(s, ops, i, k) && ops[k].MarkExhausted?
                             && RecordedReset(ops[k].resetAt, ops[k].now) < t
  {
    var s' := AfterInvalidate(s, s.entries[i].token, now);
    assert forall op :: Marks(s', op, i) == Marks(s, op, i);
    assert forall k: nat :: LastMarks(s', ops, i, k) == LastMarks(s, ops, i, k);
    DisabledReturnsExactlyWhen(s', ops, i, t);
  }

  /** So in any pool a rate limit reported after the rejection replaces "never" by its own reset,
      until the token is rejected once more. */
  lemma {:induction false} ExhaustRevivesRevokedToken(s: State, i: nat, now: int)
    requires Valid(s) && i < |s.entries| && s.entries[i].installationID == 0
    requires FirstHolding(s.entries, s.entries[i].token) == Some(i)
    requires now + MINUTE <= PERMANENT_INVALIDATION_UNTIL
    ensures var token := s.entries[i].token;
            var revoked := AfterInvalidate(s, token, now);
            var revived := AfterExhaust(revoked, token, Some(now + 1), now);
            && !Available(revoked, i, now + MINUTE)
            && Available(revived, i, now + MINUTE)
            && !Available(AfterInvalidate(revived, token, now), i, now + MINUTE)
  {
  }

  // ---------------------------------------------------------------- the calls in plain numbers

  /** Entry `i` is the one that a call naming `token` is about. */
  ghost predicate IsFirst(s: State, i: nat, token: string) {
    i < |s.entries| && s.entries[i].token == token && forall j :: 0 <= j < i ==> s.entries[j].token != token
  }

  lemma FirstIsHeld(s: State, i: nat, token: string)
    requires IsFirst(s, i, token)
    ensures FirstHolding(s.entries, token) == Some(i)
  {
  }

  /** The entry `k` places behind the cursor, around the end. */
  ghost function Around(s: State, k: nat): (i: nat)
    requires Valid(s) && |s.entries| > 0
    ensures i < |s.entries|
  {
    (s.current + k) % |s.entries|
  }

  /** `Token` tries the entries from the cursor on, around the end, and takes the first one that is not
      exhausted or whose reset has passed. It counts and releases that entry alone. */
  lemma TokenGoesRound(s: State, now: int, k: nat)
    requires Valid(s) && k < |s.entries|
    requires !s.exhausted[Around(s, k)] || s.exhaustedUntil[Around(s, k)] < now
    requires forall j :: 0 <= j < k ==> s.exhausted[Around(s, j)] && now <= s.exhaustedUntil[Around(s, j)]
    ensures var i, s' := Around(s, k), AfterToken(s, now);
            && TokenOf(s, now) == s.entries[i].token
            && s'.current == (i + 1) % |s.entries|
            && s'.counts == s.counts[i := s.counts[i] + 1] && s'.exhausted == s.exhausted[i := false]
            && s'.exhaustedUntil == s.exhaustedUntil && s'.invalidations == s.invalidations
  {
    forall j | 0 <= j <= k ensures Slot(s, j) == Around(s, j) {
      SlotIsModulo(s, j);
    }
    NextIsFirst(s, now, k);
    WrapIsModulo(Slot(s, k), |s.entries|);
    hide Next, Slot, Around;
  }

  lemma SlotIsModulo(s: State, k: nat)
    requires Valid(s) && k < |s.entries|
    ensures Slot(s, k) == Around(s, k)
  {
    ModuloOnce(s.current + k, |s.entries|);
  }

  lemma ModuloOnce(x: nat, n: nat)
    requires 0 < n && x < 2 * n
    ensures x % n == if x < n then x else x - n
  {
  }

  lemma NoTokenWhenAllExhausted(s: State, now: int)
    requires Valid(s)
    ensures (forall i :: 0 <= i < |s.entries| ==> s.exhausted[i] && now <= s.exhaustedUntil[i]) ==>
              TokenOf(s, now) == "" && AfterToken(s, now) == s
  {
  }

  /** A rate-limited token comes back right after the reset that GitHub reported, or fifty minutes later
      when that is missing or past. */
  lemma ExhaustedUntilReset(s: State, i: nat, token: string, resetAt: Option<int>, now: int, t: int)
    requires Valid(s) && IsFirst(s, i, token)
    ensures var back := if resetAt.Some? && now < resetAt.value then resetAt.value else now + 3_000_000_000_000;
            Available(AfterExhaust(s, token, resetAt, now), i, t) <==> back < t
    ensures forall j :: 0 <= j < |s.entries| && j != i ==>
              Available(AfterExhaust(s, token, resetAt, now), j, t) == Available(s, j, t)
    ensures AfterExhaust(s, token, resetAt, now).counts == s.counts
  {
    FirstIsHeld(s, i, token);
  }

  /** A rejected token comes back after the year 2098 when it is personal, else after fifty minutes, and
      the rejection is on record. */
  lemma InvalidatedUntil(s: State, i: nat, token: string, now: int, t: int)
    requires Valid(s) && IsFirst(s, i, token)
    ensures var e, s' := s.entries[i], AfterInvalidate(s, token, now);
            && (Available(s', i, t) <==>
                  (if e.installationID == 0 then 4_070_908_800_000_000_000 else now + 3_000_000_000_000) < t)
            && (forall j :: 0 <= j < |s.entries| && j != i ==> Available(s', j, t) == Available(s, j, t))
            && s'.counts == s.counts && |s'.invalidations| > 0
            && s'.invalidations[|s'.invalidations| - 1] ==
               Invalidation(now, e.target, e.installationID, e.installationID == 0)
  {
    FirstIsHeld(s, i, token);
  }

  /** The ring after some events. */
  function Ring(events: seq<Invalidation>): (ring: seq<Invalidation>)
    ensures |ring| <= INVALIDATION_RING_CAP
  {
    if events == [] then [] else Recorded(Ring(events[..|events| - 1]), events[|events| - 1])
  }

  /** The ring holds the latest sixty-four events, oldest first. */
  lemma {:induction false} RingHoldsLatest(events: seq<Invalidation>)
    ensures Ring(events) == if |events| <= 64 then events else events[|events| - 64..]
    decreases |events|
  {
    if events != [] {
      var n := |events| - 1;
      RingHoldsLatest(events[..n]);
      assert events == events[..n] + [events[n]];
    }
  }

  /** An entry is active unless it is exhausted up to now or later, or expired before now. */
  lemma ActiveInPlainTerms(s: State, now: int, i: nat)
    requires Valid(s) && i < |s.entries|
    ensures i in ActiveSet(s, now) <==>
            && (!s.exhausted[i] || s.exhaustedUntil[i] < now)
            && (s.entries[i].expiresAt.None? || now <= s.entries[i].expiresAt.value)
    ensures Pending(s, i, now) <==> s.exhausted[i] && now <= s.exhaustedUntil[i]
  {
  }

  // ---------------------------------------------------------------- when capacity returns

  /** Up to and including the earliest pending reset the number of active entries cannot rise. */
  lemma NoRiseUntilReset(s: State, now: int, r: Option<int>, t: int)
    requires Valid(s) && IsEarliestReset(s, now, r) && now <= t
    requires r.None? || t <= r.value
    ensures |ActiveSet(s, t)| <= |ActiveSet(s, now)|
  {
    SubsetSize(ActiveSet(s, t), ActiveSet(s, now));
  }

  /** While no entry expires, capacity has risen exactly when some pending reset of an unexpired
      entry has passed. */
  lemma RisesExactlyWhen(s: State, now: int, t: int)
    requires Valid(s) && now <= t
    requires forall i :: 0 <= i < |s.entries| ==> Expired(s.entries[i], t) == Expired(s.entries[i], now)
    ensures |ActiveSet(s, t)| > |ActiveSet(s, now)| <==>
            exists i ::
              0 <= i < |s.entries| && Pending(s, i, now) && s.exhaustedUntil[i] < t && !Expired(s.entries[i], t)
  {
    var before, after := ActiveSet(s, now), ActiveSet(s, t);
    assert before <= after;
    SubsetSize(before, after);
    if i :| 0 <= i < |s.entries| && Pending(s, i, now) && s.exhaustedUntil[i] < t && !Expired(s.entries[i], t) {
      assert i in after && i !in before;
      SubsetSize(before + {i}, after);
    } else {
      assert before == after;
    }
  }

  /** With no entry expired, `EarliestReset` is the exact instant after which capacity is back. */
  lemma CapacityReturnsAfterReset(s: State, now: int, r: int, t: int)
    requires Valid(s) && IsEarliestReset(s, now, Some(r)) && now <= t
    requires forall i :: 0 <= i < |s.entries| ==> !Expired(s.entries[i], t)
    ensures |ActiveSet(s, t)| > |ActiveSet(s, now)| <==> t > r
  {
    RisesExactlyWhen(s, now, t);
    var i :| 0 <= i < |s.entries| && Pending(s, i, now) && s.exhaustedUntil[i] == r;
    assert t > r ==> s.exhaustedUntil[i] < t;
  }

  /** The expiry condition is needed: a pool whose exhausted token has also expired reports a
      reset that brings nothing back. */
  lemma ExpiredTokenNeverReturns(now: int)
    ensures var s := State([Entry(7, "org", "t", Some(now - 1))], [1], [true], [now + MINUTE], 0, []);
            && Valid(s)
            && IsEarliestReset(s, now, Some(now + MINUTE))
            && forall t :: now <= t ==> |ActiveSet(s, t)| == 0
  {
    var s := State([Entry(7, "org", "t", Some(now - 1))], [1], [true], [now + MINUTE], 0, []);
    assert Pending(s, 0, now) && s.exhaustedUntil[0] == now + MINUTE;
    forall t | now <= t ensures |ActiveSet(s, t)| == 0 {
      assert ActiveSet(s, t) == {};
    }
  }
}

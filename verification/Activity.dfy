/** The hourly activity table: additive batch upserts and the weekly compaction of old rows.

    Times are whole seconds since a Monday 00:00 UTC, so that a week boundary is a multiple of
    `WEEK`. A transaction is one step: it commits in full or leaves the table alone. */
module Activity {
  import opened Options

  const DAY := 24 * 3600
  const WEEK := 7 * DAY

  datatype Counters = Counters(
    prsOpened: int,
    prsMerged: int,
    prsClosed: int,
    reviewsGiven: int,
    issueComments: int,
    issuesOpened: int,
    issuesClosed: int)

  const ZERO := Counters(0, 0, 0, 0, 0, 0, 0)

  function Plus(a: Counters, b: Counters): Counters {
    Counters(
      a.prsOpened + b.prsOpened,
      a.prsMerged + b.prsMerged,
      a.prsClosed + b.prsClosed,
      a.reviewsGiven + b.reviewsGiven,
      a.issueComments + b.issueComments,
      a.issuesOpened + b.issuesOpened,
      a.issuesClosed + b.issuesClosed)
  }

  lemma PlusLaws(a: Counters, b: Counters, c: Counters)
    ensures Plus(a, b) == Plus(b, a)
    ensures Plus(a, Plus(b, c)) == Plus(b, Plus(a, c)) == Plus(Plus(a, b), c) == Plus(Plus(a, c), b)
    ensures Plus(a, ZERO) == a && Plus(ZERO, a) == a
  {
  }

  datatype Key = Key(username: string, provider: string, hour: int)

  datatype Row = Row(counters: Counters, distinctRepos: nat, repos: seq<string>)

  datatype HourlySummary = HourlySummary(key: Key, row: Row)

  type Table = map<Key, Row>

  datatype Lifetime = Lifetime(totals: Counters, activeDays: nat, firstActive: int, lastActive: int)

  function KeysOf(t: Table, username: string, provider: string): set<Key> {
    set k | k in t && k.username == username && k.provider == provider
  }

  function DaysOf(keys: set<Key>): set<int> {
    set k | k in keys :: k.hour / DAY
  }

  ghost predicate Spans(keys: set<Key>, first: int, last: int) {
    && (exists k :: k in keys && k.hour == first)
    && (exists k :: k in keys && k.hour == last)
    && forall k :: k in keys ==> first <= k.hour <= last
  }

  // ---------------------------------------------------------------- sums over rows

  ghost function Sum(m: map<Key, Counters>): Counters {
    if m == map[] then ZERO
    else
      var k :| k in m;
      Plus(m[k], Sum(m - {k}))
  }

  lemma {:induction false} SumSplit(m: map<Key, Counters>, k: Key)
    requires k in m
    ensures Sum(m) == Plus(m[k], Sum(m - {k}))
    decreases |m|
  {
    var k' :| k' in m && Sum(m) == Plus(m[k'], Sum(m - {k'}));
    if k' != k {
      var rest := m - {k'} - {k};
      SumSplit(m - {k'}, k);
      SumSplit(m - {k}, k');
      assert rest == m - {k} - {k'};
      PlusLaws(m[k'], m[k], Sum(rest));
    }
  }

  // ---------------------------------------------------------------- upsert

  function CountersAt(t: Table, k: Key): Counters {
    if k in t then t[k].counters else ZERO
  }

  /** Counts are added to those already there; the repositories are replaced. */
  function Upserted(t: Table, h: HourlySummary): Table {
    t[h.key := Row(Plus(CountersAt(t, h.key), h.row.counters), h.row.distinctRepos, h.row.repos)]
  }

  function UpsertedAll(t: Table, batch: seq<HourlySummary>): Table {
    if batch == [] then t else Upserted(UpsertedAll(t, batch[..|batch| - 1]), batch[|batch| - 1])
  }

  // ---------------------------------------------------------------- compaction

  function WeekOf(t: int): int {
    t - t % WEEK
  }

  function Bucket(k: Key): Key {
    k.(hour := WeekOf(k.hour))
  }

  /** A bucket is the week of the time: it starts on a Monday at midnight, seven days at most before. */
  lemma WeekStartsMonday(t: int)
    ensures WeekOf(t) <= t < WeekOf(t) + 604800 && WeekOf(t) % 604800 == 0
  {
  }

  lemma WeekIsUnique(t: int, w: int)
    requires w % 604800 == 0
    ensures w <= t < w + 604800 <==> WeekOf(t) == w
  {
    WeekStartsMonday(t);
  }

  lemma BucketIsFixed(k: Key)
    ensures Bucket(Bucket(k)) == Bucket(k) && Bucket(k).hour == WeekOf(Bucket(k).hour)
  {
  }

  /** Older than the cutoff and off a week boundary. */
  predicate IsOld(k: Key, cutoff: int) {
    k.hour < cutoff && k.hour != WeekOf(k.hour)
  }

  function OldKeys(t: Table, cutoff: int): set<Key> {
    set k | k in t && IsOld(k, cutoff)
  }

  function Buckets(keys: set<Key>): set<Key> {
    set k | k in keys :: Bucket(k)
  }

  /** The rows among `keys` that fall into week bucket `g`. */
  function Members(t: Table, keys: set<Key>, g: Key): map<Key, Counters> {
    map k | k in keys && k in t && Bucket(k) == g :: t[k].counters
  }

  ghost function WeekRow(t: Table, cutoff: int, g: Key): Row {
    Row(Plus(CountersAt(t, g), Sum(Members(t, OldKeys(t, cutoff), g))), 0, [])
  }

  /** Each old row gives way to the row of its week, which holds its own counts and those of all
      its old rows, and no repositories. Every other row stays. */
  ghost function Compacted(t: Table, cutoff: int): Table {
    var old' := OldKeys(t, cutoff);
    var weeks := Buckets(old');
    map k | k in t.Keys + weeks && k !in old' :: if k in weeks then WeekRow(t, cutoff, k) else t[k]
  }

  /** Which database call of a compaction fails, if any. */
  datatype Failure = AtBegin | AtInsert | AtDelete | AtCommit | Nowhere

  class ActivityTable {
    var rows: Table

    constructor ()
      ensures rows == map[]
    {
      rows := map[];
    }

    /** `failsAt` is the row, or the final commit, at which the transaction fails. */
    method BatchUpsertActivity(batch: seq<HourlySummary>, failsAt: Option<nat>) returns (count: Option<nat>)
      modifies this
      ensures if failsAt.Some? && failsAt.value <= |batch|
              then count == None && rows == old(rows)
              else count == Some(|batch|) && rows == UpsertedAll(old(rows), batch)
    {
      var tx := rows;
      for i := 0 to |batch|
        invariant unchanged(this) && tx == UpsertedAll(rows, batch[..i])
        invariant failsAt.Some? ==> i <= failsAt.value
      {
        if failsAt == Some(i) {
          return None;
        }
        var h := batch[i];
        assert batch[..i + 1][..i] == batch[..i];
        tx := tx[h.key := Row(Plus(CountersAt(tx, h.key), h.row.counters), h.row.distinctRepos, h.row.repos)];
      }
      if failsAt == Some(|batch|) {
        return None;
      }
      assert batch[..|batch|] == batch;
      rows := tx;
      return Some(|batch|);
    }

    /** Returns the number of rows deleted. A transaction that fails leaves the table alone. */
    method CompactActivity(cutoff: int, failure: Failure) returns (deleted: Option<nat>)
      modifies this
      ensures deleted == if failure.Nowhere? then Some(|OldKeys(old(rows), cutoff)|) else None
      ensures rows == if failure.Nowhere? then Compacted(old(rows), cutoff) else old(rows)
    {
      if failure.AtBegin? {
        return None;
      }
      var tx, olds := rows, OldKeys(rows, cutoff);
      // group the old rows by week
      var sums: map<Key, Counters> := map[];
      var todo := olds;
      ghost var done: set<Key> := {};
      NoGroups(tx);
      while todo != {}
        invariant unchanged(this)
        invariant done == olds - todo && todo <= olds && Groups(tx, done, sums)
        decreases todo
      {
        hide Groups;
        var k :| k in todo;
        GroupOneMore(tx, done, k, sums);
        sums := sums[Bucket(k) := Plus(if Bucket(k) in sums then sums[Bucket(k)] else ZERO, tx[k].counters)];
        done := done + {k};
        todo := todo - {k};
      }
      assert done == olds;
      GroupsCompact(tx, cutoff, sums);
      // insert the week rows, then delete the rows they stand for
      if failure.AtInsert? {
        return None;
      }
      tx := tx + map g | g in sums :: Row(Plus(CountersAt(tx, g), sums[g]), 0, []);
      if failure.AtDelete? {
        return None;
      }
      tx := map k | k in tx && !IsOld(k, cutoff) :: tx[k];
      if failure.AtCommit? {
        return None;
      }
      rows := tx;
      return Some(|olds|);
    }

    method GetLifetimeActivity(username: string, provider: string) returns (r: Option<Lifetime>)
      ensures r.None? <==> forall k :: k in rows ==> k.username != username || k.provider != provider
      ensures r.Some? ==>
                var mine := set k | k in rows && k.username == username && k.provider == provider;
                && r.value.totals == LifetimeTotals(rows, username, provider)
                && r.value.totals == Sum(map k | k in mine :: rows[k].counters)
                && r.value.activeDays == |set k | k in mine :: k.hour / 86400|
                && Spans(mine, r.value.firstActive, r.value.lastActive)
    {
      var mine := KeysOf(rows, username, provider);
      assert forall k :: k in rows && k.username == username && k.provider == provider ==> k in mine;
      if mine == {} {
        return None;
      }
      assert Selected(rows, ActivityOf(username, provider)) == map k | k in mine :: rows[k].counters;
      var totals := SumOf(map k | k in mine :: rows[k].counters);
      var first, last := Span(mine);
      return Some(Lifetime(totals, |DaysOf(mine)|, first, last));
    }
  }

  method SumOf(m: map<Key, Counters>) returns (total: Counters)
    ensures total == Sum(m)
  {
    hide Plus, Sum;
    var todo := m;
    total := ZERO;
    PlusLaws(Sum(m), ZERO, ZERO);
    while todo != map[]
      invariant Plus(total, Sum(todo)) == Sum(m)
      decreases |todo|
    {
      var k :| k in todo;
      SumSplit(todo, k);
      PlusLaws(total, todo[k], Sum(todo - {k}));
      total := Plus(total, todo[k]);
      todo := todo - {k};
    }
    NothingAddsUp();
    PlusLaws(total, ZERO, ZERO);
  }

  lemma NothingAddsUp()
    ensures Sum(map[]) == ZERO
  {
  }

  method Span(keys: set<Key>) returns (first: int, last: int)
    requires keys != {}
    ensures Spans(keys, first, last)
  {
    var k0 :| k0 in keys;
    first, last := k0.hour, k0.hour;
    var todo := keys - {k0};
    while todo != {}
      invariant todo <= keys && Spans(keys - todo, first, last)
      decreases todo
    {
      var k :| k in todo;
      first := if k.hour < first then k.hour else first;
      last := if k.hour > last then k.hour else last;
      todo := todo - {k};
    }
    assert keys - todo == keys;
  }

  /** `sums` holds, for every week of the rows in `done`, the sum of those rows. */
  ghost predicate Groups(t: Table, done: set<Key>, sums: map<Key, Counters>) {
    && sums.Keys == Buckets(done)
    && forall g :: g in sums ==> sums[g] == Sum(Members(t, done, g))
  }

  lemma NoGroups(t: Table)
    ensures Groups(t, {}, map[])
  {
    assert Buckets({}) == {};
  }

  lemma GroupOneMore(t: Table, done: set<Key>, k: Key, sums: map<Key, Counters>)
    requires k in t && k !in done && Groups(t, done, sums)
    ensures Groups(t, done + {k},
                   sums[Bucket(k) := Plus(if Bucket(k) in sums then sums[Bucket(k)] else ZERO, t[k].counters)])
  {
    hide Plus;
    var w := Bucket(k);
    var more := Members(t, done + {k}, w);
    SumSplit(more, k);
    assert more - {k} == Members(t, done, w);
    PlusLaws(t[k].counters, Sum(more - {k}), ZERO);
    if w !in sums {
      assert Members(t, done, w) == map[];
    }
    forall g | g != w ensures Members(t, done + {k}, g) == Members(t, done, g) {
    }
    assert Buckets(done + {k}) == Buckets(done) + {w};
  }

  lemma GroupsCompact(t: Table, cutoff: int, sums: map<Key, Counters>)
    requires Groups(t, OldKeys(t, cutoff), sums)
    ensures var tx := t + map g | g in sums :: Row(Plus(CountersAt(t, g), sums[g]), 0, []);
            (map k | k in tx && !IsOld(k, cutoff) :: tx[k]) == Compacted(t, cutoff)
  {
    hide Plus;
    var tx := t + map g | g in sums :: Row(Plus(CountersAt(t, g), sums[g]), 0, []);
    var olds := OldKeys(t, cutoff);
    forall g | g in Buckets(olds) ensures !IsOld(g, cutoff) {
      var k :| k in olds && Bucket(k) == g;
      BucketIsFixed(k);
    }
  }

  // ---------------------------------------------------------------- totals

  /** The counters of the rows whose week bucket is selected. */
  ghost function Selected(t: Table, sel: Key -> bool): map<Key, Counters> {
    map k | k in t && sel(Bucket(k)) :: t[k].counters
  }

  ghost function Total(t: Table, sel: Key -> bool): Counters {
    Sum(Selected(t, sel))
  }

  ghost function ActivityOf(username: string, provider: string): Key -> bool {
    (g: Key) => g.username == username && g.provider == provider
  }

  ghost function ActivityIn(week: Key): Key -> bool {
    (g: Key) => g == week
  }

  ghost function LifetimeTotals(t: Table, username: string, provider: string): Counters {
    Total(t, ActivityOf(username, provider))
  }

  /** The counters of the seven days from `week` on. */
  ghost function WeekTotals(t: Table, username: string, provider: string, week: int): Counters {
    Sum(map k | k in t && k.username == username && k.provider == provider && week <= k.hour < week + 604800
          :: t[k].counters)
  }

  lemma UpsertAddsToTotal(t: Table, h: HourlySummary, sel: Key -> bool)
    ensures Total(Upserted(t, h), sel) ==
            if sel(Bucket(h.key)) then Plus(Total(t, sel), h.row.counters) else Total(t, sel)
  {
    hide Plus;
    var before, after := Selected(t, sel), Selected(Upserted(t, h), sel);
    if sel(Bucket(h.key)) {
      var rest := before - {h.key};
      SumSplit(after, h.key);
      assert after - {h.key} == rest;
      PlusLaws(CountersAt(t, h.key), h.row.counters, Sum(rest));
      if h.key in t {
        SumSplit(before, h.key);
      } else {
        assert rest == before;
        PlusLaws(h.row.counters, Sum(rest), ZERO);
      }
    } else {
      assert after == before;
    }
  }

  /** One old row moved into the row of its week. */
  ghost function Moved(t: Table, k: Key): Table
    requires k in t
  {
    (t - {k})[Bucket(k) := Row(Plus(CountersAt(t, Bucket(k)), t[k].counters), 0, [])]
  }

  lemma MoveKeepsTotal(t: Table, k: Key, sel: Key -> bool)
    requires k in t && k != Bucket(k)
    ensures Total(Moved(t, k), sel) == Total(t, sel)
  {
    var g := Bucket(k);
    BucketIsFixed(k);
    hide Plus;
    var before, after := Selected(t, sel), Selected(Moved(t, k), sel);
    if sel(g) {
      var rest := before - {k} - {g};
      SumSplit(before, k);
      SumSplit(after, g);
      assert after - {g} == rest;
      PlusLaws(CountersAt(t, g), t[k].counters, Sum(rest));
      PlusLaws(t[k].counters, ZERO, ZERO);
      if g in t {
        SumSplit(before - {k}, g);
      } else {
        assert rest == before - {k};
      }
    } else {
      assert after == before;
    }
  }

  /** What week `g` owes to its old rows is the same after the move. */
  lemma MoveKeepsWeekRow(t: Table, k: Key, cutoff: int, g: Key)
    requires k in OldKeys(t, cutoff) && g == Bucket(g)
    ensures g in Buckets(OldKeys(Moved(t, k), cutoff)) ==> WeekRow(Moved(t, k), cutoff, g) == WeekRow(t, cutoff, g)
    ensures g == Bucket(k) && g !in Buckets(OldKeys(Moved(t, k), cutoff)) ==> Moved(t, k)[g] == WeekRow(t, cutoff, g)
  {
    hide Plus;
    MoveLeavesOld(t, k, cutoff);
    var t1, olds := Moved(t, k), OldKeys(t, cutoff);
    var members := Members(t, olds, g);
    if g == Bucket(k) {
      assert Members(t1, olds - {k}, g) == members - {k};
      SumSplit(members, k);
      PlusLaws(CountersAt(t, g), t[k].counters, Sum(members - {k}));
      if g !in Buckets(olds - {k}) {
        assert members - {k} == map[];
        PlusLaws(t[k].counters, ZERO, ZERO);
      }
    } else {
      assert Members(t1, olds - {k}, g) == members;
    }
  }

  lemma MoveKeepsWeeks(t: Table, k: Key, cutoff: int)
    requires k in OldKeys(t, cutoff)
    ensures Buckets(OldKeys(t, cutoff)) == Buckets(OldKeys(Moved(t, k), cutoff)) + {Bucket(k)}
    ensures forall g :: g in Buckets(OldKeys(t, cutoff)) ==> g == Bucket(g)
  {
    MoveLeavesOld(t, k, cutoff);
    forall g | g in Buckets(OldKeys(t, cutoff)) ensures g == Bucket(g) {
      var k' :| k' in OldKeys(t, cutoff) && Bucket(k') == g;
      BucketIsFixed(k');
    }
  }

  /** Moving one old row first makes no difference to a compaction. */
  lemma MoveThenCompact(t: Table, k: Key, cutoff: int)
    requires k in OldKeys(t, cutoff)
    ensures Compacted(Moved(t, k), cutoff) == Compacted(t, cutoff)
  {
    var t1, w, weeks := Moved(t, k), Bucket(k), Buckets(OldKeys(t, cutoff));
    MoveLeavesOld(t, k, cutoff);
    MoveKeepsWeeks(t, k, cutoff);
    hide WeekRow, OldKeys, Buckets, Bucket, WeekOf, IsOld;
    var c, c1 := Compacted(t, cutoff), Compacted(t1, cutoff);
    assert c1.Keys == c.Keys;
    forall x | x in c ensures c1[x] == c[x] {
      if x in weeks {
        MoveKeepsWeekRow(t, k, cutoff, x);
      }
    }
  }

  lemma MoveLeavesOld(t: Table, k: Key, cutoff: int)
    requires k in OldKeys(t, cutoff)
    ensures OldKeys(Moved(t, k), cutoff) == OldKeys(t, cutoff) - {k}
    ensures Bucket(k) !in OldKeys(t, cutoff) && k in t
  {
    BucketIsFixed(k);
  }

  lemma NothingToCompact(t: Table, cutoff: int)
    requires OldKeys(t, cutoff) == {}
    ensures Compacted(t, cutoff) == t
  {
    assert Buckets({}) == {};
  }

  /** Compaction changes no total over whole weeks. */
  lemma {:induction false} CompactionKeepsTotals(t: Table, cutoff: int, sel: Key -> bool)
    ensures Total(Compacted(t, cutoff), sel) == Total(t, sel)
    decreases |OldKeys(t, cutoff)|
  {
    if OldKeys(t, cutoff) == {} {
      NothingToCompact(t, cutoff);
    } else {
      var k :| k in OldKeys(t, cutoff);
      MoveThenCompact(t, k, cutoff);
      MoveKeepsTotal(t, k, sel);
      MoveLeavesOld(t, k, cutoff);
      CompactionKeepsTotals(Moved(t, k), cutoff, sel);
    }
  }

  lemma WeekTotalsAreSelected(t: Table, username: string, provider: string, week: int)
    requires week % 604800 == 0
    ensures WeekTotals(t, username, provider, week) == Total(t, ActivityIn(Key(username, provider, week)))
  {
    forall k: Key ensures week <= k.hour < week + 604800 <==> WeekOf(k.hour) == week {
      WeekIsUnique(k.hour, week);
    }
    hide WeekOf;
    assert Selected(t, ActivityIn(Key(username, provider, week))) ==
           map k | k in t && k.username == username && k.provider == provider && week <= k.hour < week + 604800
             :: t[k].counters;
  }

  /** From any Monday on, what a contributor has in the seven days is kept. */
  lemma CompactionKeepsWeeks(t: Table, cutoff: int, username: string, provider: string, week: int)
    requires week % 604800 == 0
    ensures WeekTotals(Compacted(t, cutoff), username, provider, week) == WeekTotals(t, username, provider, week)
  {
    WeekTotalsAreSelected(t, username, provider, week);
    WeekTotalsAreSelected(Compacted(t, cutoff), username, provider, week);
    CompactionKeepsTotals(t, cutoff, ActivityIn(Key(username, provider, week)));
  }

  /** Compacting at one cutoff and then at a later one gives exactly the table that compacting at
      the later one gives, and leaves no row older than it off a week boundary. */
  lemma {:induction false} CompactionsCompose(t: Table, first: int, second: int)
    requires first <= second
    ensures Compacted(Compacted(t, first), second) == Compacted(t, second)
    ensures forall k :: k in Compacted(t, second) && k.hour < second ==> k.hour % 604800 == 0
    decreases |OldKeys(t, first)|
  {
    if OldKeys(t, first) == {} {
      NothingToCompact(t, first);
    } else {
      var k :| k in OldKeys(t, first);
      MoveThenCompact(t, k, first);
      MoveThenCompact(t, k, second);
      MoveLeavesOld(t, k, first);
      CompactionsCompose(Moved(t, k), first, second);
    }
    hide Compacted;
    forall k | k in Compacted(t, second) && k.hour < second ensures k.hour % 604800 == 0 {
      NoOldRowIsLeft(t, second, k);
    }
  }

  lemma NoOldRowIsLeft(t: Table, cutoff: int, k: Key)
    requires k in Compacted(t, cutoff) && k.hour < cutoff
    ensures k.hour % 604800 == 0
  {
    WeekRowsAreMondays(t, cutoff);
    WeekStartsMonday(k.hour);
  }

  lemma WeekRowsAreMondays(t: Table, cutoff: int)
    ensures forall g :: g in Buckets(OldKeys(t, cutoff)) ==> g.hour % 604800 == 0
  {
    forall g | g in Buckets(OldKeys(t, cutoff)) ensures g.hour % 604800 == 0 {
      var k :| k in OldKeys(t, cutoff) && Bucket(k) == g;
      WeekStartsMonday(k.hour);
    }
  }

  /** `k` is older than the cutoff, off a Monday at midnight, and in the week of `g`. */
  predicate GoesInto(k: Key, g: Key, cutoff: int) {
    && k.username == g.username && k.provider == g.provider
    && k.hour < cutoff && g.hour < k.hour < g.hour + 604800
  }

  lemma OldMembersGoInto(t: Table, cutoff: int, g: Key, k: Key)
    requires g.hour % 604800 == 0 && k in t
    ensures k in OldKeys(t, cutoff) && Bucket(k) == g <==> GoesInto(k, g, cutoff)
  {
    WeekIsUnique(k.hour, g.hour);
  }

  /** The row of a week afterwards: the sum of the rows that go into it, if any, and no repositories. */
  lemma WeekAfterCompaction(t: Table, cutoff: int, g: Key)
    requires g.hour % 604800 == 0
    ensures var c, into := Compacted(t, cutoff), map k | k in t && GoesInto(k, g, cutoff) :: t[k].counters;
            if into == map[] then (g in c <==> g in t) && (g in t ==> c[g] == t[g])
            else g in c && c[g] == Row(Plus(CountersAt(t, g), Sum(into)), 0, [])
  {
    forall k | k in t ensures k in OldKeys(t, cutoff) && Bucket(k) == g <==> GoesInto(k, g, cutoff) {
      OldMembersGoInto(t, cutoff, g, k);
    }
    WeekIsUnique(g.hour, g.hour);
    assert !IsOld(g, cutoff);
    hide Plus, Sum, GoesInto, Bucket, IsOld;
    var into := map k | k in t && GoesInto(k, g, cutoff) :: t[k].counters;
    assert into == Members(t, OldKeys(t, cutoff), g);
    if into == map[] {
      assert forall k :: k in OldKeys(t, cutoff) ==> k !in into;
      assert g !in Buckets(OldKeys(t, cutoff));
    } else {
      var k :| k in into;
      assert Bucket(k) in Buckets(OldKeys(t, cutoff));
    }
  }

  /** Rows from the cutoff on that are no week rows are left alone, and none appear. */
  lemma CompactionLeavesRecent(t: Table, cutoff: int, k: Key)
    requires cutoff <= k.hour && k.hour % 604800 != 0
    ensures k in Compacted(t, cutoff) <==> k in t
    ensures k in t ==> Compacted(t, cutoff)[k] == t[k]
  {
    WeekRowsAreMondays(t, cutoff);
  }

  /** What an upsert stores, column by column. */
  lemma UpsertInPlainTerms(t: Table, h: HourlySummary)
    ensures var t', c, old' := Upserted(t, h), h.row.counters, if h.key in t then t[h.key].counters else ZERO;
            && t'.Keys == t.Keys + {h.key} && (forall k :: k in t && k != h.key ==> t'[k] == t[k])
            && t'[h.key].distinctRepos == h.row.distinctRepos && t'[h.key].repos == h.row.repos
            && t'[h.key].counters.prsOpened == old'.prsOpened + c.prsOpened
            && t'[h.key].counters.prsMerged == old'.prsMerged + c.prsMerged
            && t'[h.key].counters.prsClosed == old'.prsClosed + c.prsClosed
            && t'[h.key].counters.reviewsGiven == old'.reviewsGiven + c.reviewsGiven
            && t'[h.key].counters.issueComments == old'.issueComments + c.issueComments
            && t'[h.key].counters.issuesOpened == old'.issuesOpened + c.issuesOpened
            && t'[h.key].counters.issuesClosed == old'.issuesClosed + c.issuesClosed
  {
  }

  // ---------------------------------------------------------------- whole runs

  datatype Op = Upsert(batch: seq<HourlySummary>) | Compact(cutoff: int)

  ghost function Apply(t: Table, op: Op): Table {
    match op
    case Upsert(batch) => UpsertedAll(t, batch)
    case Compact(cutoff) => Compacted(t, cutoff)
  }

  ghost function Run(t: Table, ops: seq<Op>): Table {
    if ops == [] then t else Apply(Run(t, ops[..|ops| - 1]), ops[|ops| - 1])
  }

  ghost function BatchTotal(batch: seq<HourlySummary>, sel: Key -> bool): Counters {
    if batch == [] then ZERO
    else
      var last := batch[|batch| - 1];
      Plus(BatchTotal(batch[..|batch| - 1], sel), if sel(Bucket(last.key)) then last.row.counters else ZERO)
  }

  /** All that the batches of a run brought in. */
  ghost function Ingested(ops: seq<Op>, sel: Key -> bool): Counters {
    if ops == [] then ZERO
    else
      var last := ops[|ops| - 1];
      Plus(Ingested(ops[..|ops| - 1], sel), if last.Upsert? then BatchTotal(last.batch, sel) else ZERO)
  }

  lemma {:induction false} BatchAddsToTotal(t: Table, batch: seq<HourlySummary>, sel: Key -> bool)
    ensures Total(UpsertedAll(t, batch), sel) == Plus(Total(t, sel), BatchTotal(batch, sel))
    decreases |batch|
  {
    hide Plus;
    if batch == [] {
      PlusLaws(Total(t, sel), ZERO, ZERO);
    } else {
      var n := |batch| - 1;
      BatchAddsToTotal(t, batch[..n], sel);
      UpsertAddsToTotal(UpsertedAll(t, batch[..n]), batch[n], sel);
      PlusLaws(Total(t, sel), BatchTotal(batch[..n], sel), batch[n].row.counters);
      PlusLaws(BatchTotal(batch[..n], sel), ZERO, ZERO);
    }
  }

  /** Over any interleaving of batch upserts and compactions, every total over whole weeks is what
      it was at the start plus everything ingested since. */
  lemma {:induction false} RunConservesTotals(t: Table, ops: seq<Op>, sel: Key -> bool)
    ensures Total(Run(t, ops), sel) == Plus(Total(t, sel), Ingested(ops, sel))
    decreases |ops|
  {
    hide Plus, Total;
    if ops == [] {
      PlusLaws(Total(t, sel), ZERO, ZERO);
    } else {
      var n := |ops| - 1;
      var before := Ingested(ops[..n], sel);
      RunConservesTotals(t, ops[..n], sel);
      match ops[n]
      case Upsert(batch) =>
        BatchAddsToTotal(Run(t, ops[..n]), batch, sel);
        PlusLaws(Total(t, sel), before, BatchTotal(batch, sel));
      case Compact(cutoff) =>
        CompactionKeepsTotals(Run(t, ops[..n]), cutoff, sel);
        PlusLaws(before, ZERO, ZERO);
    }
  }

  lemma LifetimeTotalsAreConserved(ops: seq<Op>, username: string, provider: string)
    ensures LifetimeTotals(Run(map[], ops), username, provider)
            == Ingested(ops, ActivityOf(username, provider))
  {
    var sel := ActivityOf(username, provider);
    RunConservesTotals(map[], ops, sel);
    assert Selected(map[], sel) == map[];
  }
}

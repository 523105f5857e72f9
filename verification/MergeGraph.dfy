/** The merge graph: one row per pull request, filled in by COALESCE upserts as the opened, merged
    and closed observations of successive archive hours arrive. `last_event_at` is not kept. */
module MergeGraphs {
  import opened Aggregators
  import opened Options

  datatype PR = PR(provider: string, repo: string, number: int)

  datatype Row = Row(author: Option<string>, openedAt: Option<int>, mergedAt: Option<int>, closedAt: Option<int>)

  const BLANK := Row(None, None, None, None)

  type Table = map<PR, Row>

  function Coalesce<T>(incoming: Option<T>, stored: Option<T>): Option<T> {
    if incoming.Some? then incoming else stored
  }

  function AuthorOf(ev: PREvent): Option<string> {
    if ev.author != "" then Some(ev.author) else None
  }

  function RowAt(t: Table, pr: PR): Row {
    if pr in t then t[pr] else BLANK
  }

  /** The upsert statement: each column keeps what it has unless a value comes in. */
  function Upsert(t: Table, pr: PR, incoming: Row): Table {
    var r := RowAt(t, pr);
    t[pr := Row(Coalesce(incoming.author, r.author), Coalesce(incoming.openedAt, r.openedAt),
                Coalesce(incoming.mergedAt, r.mergedAt), Coalesce(incoming.closedAt, r.closedAt))]
  }

  /** The table after one upsert: an observation stamps its own column and, if it has one, the author. */
  function Stamped(t: Table, provider: string, ev: PREvent): Table {
    var pr := PR(provider, ev.key.repo, ev.key.number);
    var r := RowAt(t, pr);
    var r' := r.(author := Coalesce(AuthorOf(ev), r.author));
    match ev.key.action
    case Opened => t[pr := r'.(openedAt := Coalesce(ev.occurAt, r.openedAt))]
    case Merged => t[pr := r'.(mergedAt := Coalesce(ev.occurAt, r.mergedAt))]
    case Closed => t[pr := r'.(closedAt := Coalesce(ev.occurAt, r.closedAt))]
    case OtherAction => t
  }

  function StampedAll(t: Table, provider: string, events: seq<PREvent>): Table {
    if events == [] then t
    else Stamped(StampedAll(t, provider, events[..|events| - 1]), provider, events[|events| - 1])
  }

  /** How many rows these observations write: other actions than the three stored are skipped. */
  function Writes(events: seq<PREvent>): (n: nat)
    ensures (forall i :: 0 <= i < |events| ==> events[i].key.action != OtherAction) ==> n == |events|
  {
    if events == [] then 0
    else Writes(events[..|events| - 1]) + if events[|events| - 1].key.action.OtherAction? then 0 else 1
  }

  lemma {:induction false} PrefixWrites(events: seq<PREvent>, i: nat)
    requires i < |events|
    ensures Writes(events[..i]) + (if events[i].key.action.OtherAction? then 0 else 1) ==
            Writes(events[..i + 1]) <= Writes(events)
    decreases |events|
  {
    if i + 1 < |events| {
      var init := events[..|events| - 1];
      assert init[..i + 1] == events[..i + 1] && init[..i] == events[..i];
      PrefixWrites(init, i);
    } else {
      assert events[..i + 1] == events;
    }
  }

  lemma UpsertStamps(t: Table, provider: string, ev: PREvent, incoming: Row)
    requires incoming.author == AuthorOf(ev) && ev.key.action != OtherAction
    requires incoming.openedAt == (if ev.key.action.Opened? then ev.occurAt else None)
    requires incoming.mergedAt == (if ev.key.action.Merged? then ev.occurAt else None)
    requires incoming.closedAt == (if ev.key.action.Closed? then ev.occurAt else None)
    ensures Upsert(t, PR(provider, ev.key.repo, ev.key.number), incoming) == Stamped(t, provider, ev)
  {
  }

  lemma OthersStampNothing(t: Table, provider: string, ev: PREvent)
    requires ev.key.action == OtherAction
    ensures Stamped(t, provider, ev) == t
  {
  }

  lemma PrefixStamps(t: Table, provider: string, events: seq<PREvent>, i: nat)
    requires i < |events|
    ensures StampedAll(t, provider, events[..i + 1]) ==
            Stamped(StampedAll(t, provider, events[..i]), provider, events[i])
  {
    assert events[..i + 1][..i] == events[..i];
  }

  class MergeGraph {
    var rows: Table

    constructor ()
      ensures rows == map[]
    {
      rows := map[];
    }

    /** Returns the number of rows written, or `None` on failure. `failsAt` is the database call that
        fails: 0 is the start of the transaction, then come the upserts, and the commit is last. */
    method BatchUpsertPREvents(provider: string, events: seq<PREvent>, failsAt: Option<nat>)
        returns (count: Option<nat>)
      modifies this
      ensures var fails := events != [] && failsAt.Some? && failsAt.value <= Writes(events) + 1;
              count == if fails then None else Some(Writes(events))
      ensures rows == if count.Some? then StampedAll(old(rows), provider, events) else old(rows)
    {
      if |events| == 0 {
        return Some(0);
      }
      if failsAt == Some(0) {
        return None;
      }
      var tx, n := rows, 0;
      for i := 0 to |events|
        invariant unchanged(this) && tx == StampedAll(rows, provider, events[..i])
        invariant n == Writes(events[..i])
        invariant failsAt.Some? ==> n < failsAt.value
      {
        hide StampedAll, Writes, Stamped, Upsert;
        PrefixStamps(rows, provider, events, i);
        PrefixWrites(events, i);
        var ev := events[i];
        var author := if ev.author != "" then Some(ev.author) else None;
        var openedAt, mergedAt, closedAt := None, None, None;
        match ev.key.action {
          case Opened => openedAt := ev.occurAt;
          case Merged => mergedAt := ev.occurAt;
          case Closed => closedAt := ev.occurAt;
          case OtherAction =>
            OthersStampNothing(tx, provider, ev);
            continue;
        }
        if failsAt == Some(n + 1) {
          return None;
        }
        UpsertStamps(tx, provider, ev, Row(author, openedAt, mergedAt, closedAt));
        tx := Upsert(tx, PR(provider, ev.key.repo, ev.key.number), Row(author, openedAt, mergedAt, closedAt));
        n := n + 1;
      }
      assert events[..|events|] == events;
      if failsAt == Some(n + 1) {
        return None;
      }
      rows := tx;
      return Some(n);
    }

    method GetAuthoredMergedPRCount(provider: string, username: string) returns (n: nat)
      ensures n == |AuthoredMerged(rows, provider, username)|
    {
      n := |set pr | pr in rows && pr.provider == provider
                     && rows[pr].author == Some(username) && rows[pr].mergedAt.Some?|;
    }
  }

  function AuthoredMerged(t: Table, provider: string, username: string): set<PR> {
    set pr | pr in t && pr.provider == provider && t[pr].author == Some(username) && t[pr].mergedAt.Some?
  }

  // ---------------------------------------------------------------- the effect of one hour

  function TimeIn(obs: map<PRKey, PREvent>, pr: PR, action: Action): Option<int> {
    var key := PRKey(pr.repo, pr.number, action);
    if key in obs then obs[key].occurAt else None
  }

  function AuthorIn(obs: map<PRKey, PREvent>, pr: PR): Option<string> {
    var key := PRKey(pr.repo, pr.number, Opened);
    if key in obs then AuthorOf(obs[key]) else None
  }

  predicate SeenIn(obs: map<PRKey, PREvent>, pr: PR) {
    exists action :: action != OtherAction && PRKey(pr.repo, pr.number, action) in obs
  }

  function Merge(r: Row, obs: map<PRKey, PREvent>, pr: PR): Row {
    Row(Coalesce(AuthorIn(obs, pr), r.author),
        Coalesce(TimeIn(obs, pr, Opened), r.openedAt),
        Coalesce(TimeIn(obs, pr, Merged), r.mergedAt),
        Coalesce(TimeIn(obs, pr, Closed), r.closedAt))
  }

  /** `t'` is `t` after an hour with these observations, told row by row and without an order. */
  ghost predicate IsAfterHour(t: Table, provider: string, obs: map<PRKey, PREvent>, t': Table) {
    forall pr: PR ::
      if pr.provider == provider && SeenIn(obs, pr)
      then pr in t' && t'[pr] == Merge(RowAt(t, pr), obs, pr)
      else (pr in t' <==> pr in t) && (pr in t ==> t'[pr] == t[pr])
  }

  /** Observations as the aggregator makes them: keyed by themselves, an author only on `Opened`. */
  ghost predicate WellFormed(obs: map<PRKey, PREvent>) {
    forall key :: key in obs ==>
      obs[key].key == key && key.action != OtherAction && (key.action != Opened ==> obs[key].author == "")
  }

  lemma StampOneMore(t: Table, provider: string, obs: map<PRKey, PREvent>, t1: Table, ev: PREvent)
    requires IsAfterHour(t, provider, obs, t1) && ev.key !in obs && WellFormed(obs[ev.key := ev])
    ensures IsAfterHour(t, provider, obs[ev.key := ev], Stamped(t1, provider, ev))
  {
    var obs', t2 := obs[ev.key := ev], Stamped(t1, provider, ev);
    var own := PR(provider, ev.key.repo, ev.key.number);
    assert obs'[ev.key] == ev && ev.key.action != OtherAction;
    forall pr: PR ensures
      if pr.provider == provider && SeenIn(obs', pr)
      then pr in t2 && t2[pr] == Merge(RowAt(t, pr), obs', pr)
      else (pr in t2 <==> pr in t) && (pr in t ==> t2[pr] == t[pr])
    {
      if pr == own {
        assert PRKey(pr.repo, pr.number, ev.key.action) in obs';
        assert RowAt(t1, pr) == Merge(RowAt(t, pr), obs, pr) by {
          if !SeenIn(obs, pr) {
            assert Opened != OtherAction && Merged != OtherAction && Closed != OtherAction;
          }
        }
      } else if pr.provider == provider {
        assert forall action :: PRKey(pr.repo, pr.number, action) in obs' <==> PRKey(pr.repo, pr.number, action) in obs;
        assert Merge(RowAt(t, pr), obs', pr) == Merge(RowAt(t, pr), obs, pr);
      }
    }
  }

  lemma EnumeratesOneLess(order: seq<PREvent>, obs: map<PRKey, PREvent>)
    requires order != [] && Enumerates(order, obs) && WellFormed(obs)
    ensures var n := |order| - 1;
            var fewer := obs - {order[n].key};
            && Enumerates(order[..n], fewer) && WellFormed(fewer)
            && order[n].key !in fewer && fewer[order[n].key := order[n]] == obs
  {
    var n := |order| - 1;
    var fewer := obs - {order[n].key};
    hide Lists;
    assert order == order[..n] + [order[n]];
    forall key | key in fewer ensures Lists(order[..n], key) {
      ListsOneMore(order[..n], order[n], key);
    }
  }

  lemma NoHour(t: Table, provider: string)
    ensures IsAfterHour(t, provider, map[], t)
  {
  }

  /** Whatever order the observations of an hour come in, the table afterwards is the same. */
  lemma {:induction false} AnyOrderStampsTheHour(t: Table, provider: string, obs: map<PRKey, PREvent>,
                                                 order: seq<PREvent>)
    requires WellFormed(obs) && Enumerates(order, obs)
    ensures IsAfterHour(t, provider, obs, StampedAll(t, provider, order))
    decreases |order|
  {
    hide IsAfterHour, Stamped, WellFormed;
    if order == [] {
      assert obs == map[];
      NoHour(t, provider);
    } else {
      hide Enumerates;
      var n := |order| - 1;
      var last, fewer := order[n], obs - {order[n].key};
      EnumeratesOneLess(order, obs);
      AnyOrderStampsTheHour(t, provider, fewer, order[..n]);
      StampOneMore(t, provider, fewer, StampedAll(t, provider, order[..n]), last);
    }
  }

  lemma HourIsDetermined(t: Table, provider: string, obs: map<PRKey, PREvent>, a: Table, b: Table)
    requires IsAfterHour(t, provider, obs, a) && IsAfterHour(t, provider, obs, b)
    ensures a == b
  {
    assert forall pr :: pr in a <==> pr in b;
  }

  // ---------------------------------------------------------------- whole runs

  /** One ingested hour: its events, the prefixes replayed by failed attempts before them, what the
      aggregator then holds and the order in which the map yielded it. */
  datatype Hour = Hour(events: seq<Event>, cuts: seq<nat>, obs: map<PRKey, PREvent>, order: seq<PREvent>)

  ghost predicate Ingests(h: Hour, isBot: string -> bool) {
    && (forall i :: 0 <= i < |h.cuts| ==> h.cuts[i] <= |h.events|)
    && HoldsFirstObservations(h.obs, Replayed(h.events, h.cuts), isBot)
    && Enumerates(h.order, h.obs)
  }

  ghost function TableAfter(hours: seq<Hour>, provider: string): Table {
    if hours == [] then map[]
    else StampedAll(TableAfter(hours[..|hours| - 1], provider), provider, hours[|hours| - 1].order)
  }

  lemma ObservationsAreWellFormed(h: Hour, isBot: string -> bool)
    requires Ingests(h, isBot)
    ensures WellFormed(h.obs)
    ensures HoldsFirstObservations(h.obs, h.events, isBot)
  {
    forall key ensures FirstOf(Replayed(h.events, h.cuts), key) == FirstOf(h.events, key) {
      ReplayKeepsObservations(h.events, h.cuts, key);
    }
  }

  lemma SameObservations(a: map<PRKey, PREvent>, b: map<PRKey, PREvent>, events: seq<Event>, isBot: string -> bool)
    requires HoldsFirstObservations(a, events, isBot) && HoldsFirstObservations(b, events, isBot)
    ensures a == b
  {
    assert forall key :: key in a <==> key in b;
  }

  /** Two histories of the same event streams leave the same merge graph, however often attempts
      were replayed and in whatever order the observations were written. */
  lemma {:induction false} GraphIsDetermined(a: seq<Hour>, b: seq<Hour>, provider: string, isBot: string -> bool)
    requires |a| == |b|
    requires forall i :: 0 <= i < |a| ==> Ingests(a[i], isBot) && Ingests(b[i], isBot) && a[i].events == b[i].events
    ensures TableAfter(a, provider) == TableAfter(b, provider)
    decreases |a|
  {
    if a != [] {
      var n := |a| - 1;
      GraphIsDetermined(a[..n], b[..n], provider, isBot);
      ObservationsAreWellFormed(a[n], isBot);
      ObservationsAreWellFormed(b[n], isBot);
      SameObservations(a[n].obs, b[n].obs, a[n].events, isBot);
      var before := TableAfter(a[..n], provider);
      AnyOrderStampsTheHour(before, provider, a[n].obs, a[n].order);
      AnyOrderStampsTheHour(before, provider, b[n].obs, b[n].order);
      HourIsDetermined(before, provider, a[n].obs, TableAfter(a, provider), TableAfter(b, provider));
    }
  }

  // ---------------------------------------------------------------- who is credited

  /** The human recorded by the first "opened" event of the pull request in these events, if any. */
  ghost function HumanOpener(events: seq<Event>, pr: PR, isBot: string -> bool): Option<string> {
    var first := FirstOf(events, PRKey(pr.repo, pr.number, Opened));
    if first.Some? && !isBot(first.value.actor) && first.value.actor != "" then Some(first.value.actor) else None
  }

  /** The last ingested hour that names a human opener names `username`. */
  ghost predicate LastNamed(hours: seq<Hour>, pr: PR, username: string, isBot: string -> bool) {
    exists h :: 0 <= h < |hours| && HumanOpener(hours[h].events, pr, isBot) == Some(username)
                && forall later :: h < later < |hours| ==> HumanOpener(hours[later].events, pr, isBot) == None
  }

  /** In some hour the first "merged" event of the pull request has a readable time. */
  ghost predicate MergeSeen(hours: seq<Hour>, pr: PR) {
    exists h :: 0 <= h < |hours| && MergedIn(hours[h].events, pr)
  }

  ghost predicate MergedIn(events: seq<Event>, pr: PR) {
    var first := FirstOf(events, PRKey(pr.repo, pr.number, Merged));
    first.Some? && first.value.createdAt.Some?
  }

  lemma LastNamedOneMore(hours: seq<Hour>, last: Hour, pr: PR, username: string, isBot: string -> bool)
    ensures LastNamed(hours + [last], pr, username, isBot) <==>
            var here := HumanOpener(last.events, pr, isBot);
            if here.Some? then here == Some(username) else LastNamed(hours, pr, username, isBot)
  {
    hide HumanOpener;
    var more := hours + [last];
    assert more[|hours|] == last && forall h :: 0 <= h < |hours| ==> more[h] == hours[h];
    if LastNamed(hours, pr, username, isBot) && HumanOpener(last.events, pr, isBot).None? {
      var h :| 0 <= h < |hours| && HumanOpener(hours[h].events, pr, isBot) == Some(username)
               && forall later :: h < later < |hours| ==> HumanOpener(hours[later].events, pr, isBot) == None;
      assert HumanOpener(more[h].events, pr, isBot) == Some(username);
      assert forall later :: h < later < |more| ==> HumanOpener(more[later].events, pr, isBot) == None;
    }
    if LastNamed(more, pr, username, isBot) && HumanOpener(last.events, pr, isBot).None? {
      var h :| 0 <= h < |more| && HumanOpener(more[h].events, pr, isBot) == Some(username)
               && forall later :: h < later < |more| ==> HumanOpener(more[later].events, pr, isBot) == None;
      assert HumanOpener(hours[h].events, pr, isBot) == Some(username);
      assert forall later :: h < later < |hours| ==> HumanOpener(more[later].events, pr, isBot) == None;
    }
  }

  lemma MergeSeenOneMore(hours: seq<Hour>, last: Hour, pr: PR)
    ensures MergeSeen(hours + [last], pr) <==> MergeSeen(hours, pr) || MergedIn(last.events, pr)
  {
    hide MergedIn;
    var more := hours + [last];
    assert more[|hours|] == last;
    if MergeSeen(hours, pr) {
      var h :| 0 <= h < |hours| && MergedIn(hours[h].events, pr);
      assert MergedIn(more[h].events, pr);
    }
  }

  lemma OpenerIsAuthor(h: Hour, pr: PR, isBot: string -> bool)
    requires HoldsFirstObservations(h.obs, h.events, isBot)
    ensures AuthorIn(h.obs, pr) == HumanOpener(h.events, pr, isBot)
    ensures TimeIn(h.obs, pr, Merged).Some? <==> MergedIn(h.events, pr)
    ensures AuthorIn(h.obs, pr).Some? || TimeIn(h.obs, pr, Merged).Some? ==> SeenIn(h.obs, pr)
  {
    hide FirstOf;
    assert Opened != OtherAction && Merged != OtherAction;
  }

  lemma RowAfterHour(hours: seq<Hour>, provider: string, pr: PR, isBot: string -> bool)
    requires hours != [] && Ingests(hours[|hours| - 1], isBot) && pr.provider == provider
    ensures var last := hours[|hours| - 1];
            var before := RowAt(TableAfter(hours[..|hours| - 1], provider), pr);
            var after := RowAt(TableAfter(hours, provider), pr);
            && after.author == Coalesce(HumanOpener(last.events, pr, isBot), before.author)
            && (after.mergedAt.Some? <==> before.mergedAt.Some? || MergedIn(last.events, pr))
  {
    var last, before := hours[|hours| - 1], TableAfter(hours[..|hours| - 1], provider);
    ObservationsAreWellFormed(last, isBot);
    OpenerIsAuthor(last, pr, isBot);
    AnyOrderStampsTheHour(before, provider, last.obs, last.order);
    hide SeenIn, AuthorIn, TimeIn, StampedAll, HumanOpener, MergedIn, HoldsFirstObservations;
  }

  /** The row names `username` and is merged exactly when the raw event streams of `hours` say so. */
  ghost predicate Tells(r: Row, hours: seq<Hour>, pr: PR, username: string, isBot: string -> bool) {
    && (r.author == Some(username) <==> LastNamed(hours, pr, username, isBot))
    && (r.mergedAt.Some? <==> MergeSeen(hours, pr))
  }

  lemma TellsOneMore(before: Row, after: Row, hours: seq<Hour>, last: Hour, pr: PR, username: string,
                     isBot: string -> bool)
    requires Tells(before, hours, pr, username, isBot)
    requires after.author == Coalesce(HumanOpener(last.events, pr, isBot), before.author)
    requires after.mergedAt.Some? <==> before.mergedAt.Some? || MergedIn(last.events, pr)
    ensures Tells(after, hours + [last], pr, username, isBot)
  {
    hide LastNamed, MergeSeen, HumanOpener, MergedIn;
    LastNamedOneMore(hours, last, pr, username, isBot);
    MergeSeenOneMore(hours, last, pr);
  }

  lemma NothingToTell(provider: string, pr: PR, username: string, isBot: string -> bool)
    ensures Tells(RowAt(TableAfter([], provider), pr), [], pr, username, isBot)
  {
  }

  /** The stored row says who opened the pull request and whether it was merged, in terms of the raw
      event streams alone. */
  lemma {:induction false} RowTellsHistory(hours: seq<Hour>, provider: string, pr: PR, username: string,
                                           isBot: string -> bool)
    requires forall i :: 0 <= i < |hours| ==> Ingests(hours[i], isBot)
    requires pr.provider == provider
    ensures Tells(RowAt(TableAfter(hours, provider), pr), hours, pr, username, isBot)
    decreases |hours|
  {
    hide *;
    if hours == [] {
      NothingToTell(provider, pr, username, isBot);
    } else {
      var init, last := hours[..|hours| - 1], hours[|hours| - 1];
      var before, after := RowAt(TableAfter(init, provider), pr), RowAt(TableAfter(hours, provider), pr);
      RowTellsHistory(init, provider, pr, username, isBot);
      RowAfterHour(hours, provider, pr, isBot);
      assert hours == init + [last];
      TellsOneMore(before, after, init, last, pr, username, isBot);
    }
  }

  /** A contributor is credited with exactly the merged pull requests for which the last ingested hour
      with a human opener names them. The order is that of ingestion: the backfill goes back in time. */
  lemma AuthoredMergedMeaning(hours: seq<Hour>, provider: string, username: string, isBot: string -> bool)
    requires forall i :: 0 <= i < |hours| ==> Ingests(hours[i], isBot)
    ensures forall pr: PR :: pr in AuthoredMerged(TableAfter(hours, provider), provider, username) <==>
              pr.provider == provider && LastNamed(hours, pr, username, isBot) && MergeSeen(hours, pr)
  {
    forall pr: PR ensures pr in AuthoredMerged(TableAfter(hours, provider), provider, username) <==>
              pr.provider == provider && LastNamed(hours, pr, username, isBot) && MergeSeen(hours, pr)
    {
      if pr.provider == provider {
        RowTellsHistory(hours, provider, pr, username, isBot);
      }
    }
  }

  // ---------------------------------------------------------------- every column, and which rows there are

  /** The time of the first event with this action on the pull request, if there is one and it has one. */
  ghost function FirstTime(events: seq<Event>, pr: PR, action: Action): Option<int> {
    var first := FirstOf(events, PRKey(pr.repo, pr.number, action));
    if first.None? then None else first.value.createdAt
  }

  /** That time in the last ingested hour that has one. */
  ghost function LastTime(hours: seq<Hour>, pr: PR, action: Action): Option<int> {
    if hours == [] then None
    else
      var here := FirstTime(hours[|hours| - 1].events, pr, action);
      if here.Some? then here else LastTime(hours[..|hours| - 1], pr, action)
  }

  lemma TimeIsFirstTime(h: Hour, pr: PR, action: Action, isBot: string -> bool)
    requires HoldsFirstObservations(h.obs, h.events, isBot) && action != OtherAction
    ensures TimeIn(h.obs, pr, action) == FirstTime(h.events, pr, action)
    ensures FirstTime(h.events, pr, action).Some? ==> SeenIn(h.obs, pr)
  {
    hide FirstOf;
  }

  lemma ColumnsAfterHour(before: Table, h: Hour, provider: string, pr: PR, isBot: string -> bool)
    requires Ingests(h, isBot) && pr.provider == provider
    ensures var r, r' := RowAt(before, pr), RowAt(StampedAll(before, provider, h.order), pr);
            && r'.openedAt == Coalesce(FirstTime(h.events, pr, Opened), r.openedAt)
            && r'.mergedAt == Coalesce(FirstTime(h.events, pr, Merged), r.mergedAt)
            && r'.closedAt == Coalesce(FirstTime(h.events, pr, Closed), r.closedAt)
  {
    ObservationsAreWellFormed(h, isBot);
    TimeIsFirstTime(h, pr, Opened, isBot);
    TimeIsFirstTime(h, pr, Merged, isBot);
    TimeIsFirstTime(h, pr, Closed, isBot);
    AnyOrderStampsTheHour(before, provider, h.obs, h.order);
    hide StampedAll, Ingests, WellFormed, SeenIn, TimeIn, AuthorIn, FirstTime, HoldsFirstObservations;
  }

  /** Each column holds the time that the last ingested hour with a readable one gives for its action. */
  lemma {:induction false} ColumnsTellHistory(hours: seq<Hour>, provider: string, pr: PR, isBot: string -> bool)
    requires forall i :: 0 <= i < |hours| ==> Ingests(hours[i], isBot)
    requires pr.provider == provider
    ensures var r := RowAt(TableAfter(hours, provider), pr);
            && r.openedAt == LastTime(hours, pr, Opened)
            && r.mergedAt == LastTime(hours, pr, Merged)
            && r.closedAt == LastTime(hours, pr, Closed)
    decreases |hours|
  {
    hide Ingests, FirstTime, StampedAll;
    if hours != [] {
      hide RowAt;
      var init, last := hours[..|hours| - 1], hours[|hours| - 1];
      ColumnsTellHistory(init, provider, pr, isBot);
      ColumnsAfterHour(TableAfter(init, provider), last, provider, pr, isBot);
    }
  }

  /** The event opens, merges or closes the pull request. */
  predicate Touches(ev: Event, pr: PR) {
    && ev.kind == PullRequest && ev.action in {Opened, Merged, Closed}
    && ev.repo == pr.repo && pr.repo != "" && ev.number == pr.number && pr.number > 0
  }

  ghost predicate TouchedIn(events: seq<Event>, pr: PR) {
    exists i :: 0 <= i < |events| && Touches(events[i], pr)
  }

  ghost predicate Touched(hours: seq<Hour>, pr: PR) {
    exists h :: 0 <= h < |hours| && TouchedIn(hours[h].events, pr)
  }

  lemma SeenExactlyWhenTouched(h: Hour, pr: PR, isBot: string -> bool)
    requires HoldsFirstObservations(h.obs, h.events, isBot)
    ensures SeenIn(h.obs, pr) <==> TouchedIn(h.events, pr)
  {
    hide FirstOf;
    if action :| action != OtherAction && PRKey(pr.repo, pr.number, action) in h.obs {
      var key := PRKey(pr.repo, pr.number, action);
      var i :| 0 <= i < |h.events| && Observes(h.events[i], key);
      assert Touches(h.events[i], pr);
    }
    if i :| 0 <= i < |h.events| && Touches(h.events[i], pr) {
      var key := PRKey(pr.repo, pr.number, h.events[i].action);
      assert Observes(h.events[i], key);
      assert key in h.obs;
    }
  }

  lemma RowThereOneMore(before: Table, h: Hour, provider: string, pr: PR, isBot: string -> bool)
    requires Ingests(h, isBot)
    ensures pr in StampedAll(before, provider, h.order) <==>
            pr in before || (pr.provider == provider && TouchedIn(h.events, pr))
  {
    ObservationsAreWellFormed(h, isBot);
    SeenExactlyWhenTouched(h, pr, isBot);
    AnyOrderStampsTheHour(before, provider, h.obs, h.order);
    hide StampedAll, FirstOf, SeenIn, TouchedIn;
  }

  lemma TouchedOneMore(hours: seq<Hour>, last: Hour, pr: PR)
    ensures Touched(hours + [last], pr) <==> Touched(hours, pr) || TouchedIn(last.events, pr)
  {
    hide TouchedIn;
    var more := hours + [last];
    assert more[|hours|] == last;
    if Touched(hours, pr) {
      var h :| 0 <= h < |hours| && TouchedIn(hours[h].events, pr);
      assert TouchedIn(more[h].events, pr);
    }
  }

  /** There is a row for exactly the pull requests that some event opens, merges or closes, whoever its
      actor is. */
  lemma {:induction false} RowIsThereExactlyWhen(hours: seq<Hour>, provider: string, pr: PR, isBot: string -> bool)
    requires forall i :: 0 <= i < |hours| ==> Ingests(hours[i], isBot)
    ensures pr in TableAfter(hours, provider) <==> pr.provider == provider && Touched(hours, pr)
    decreases |hours|
  {
    hide Ingests, StampedAll, TouchedIn;
    if hours != [] {
      var init, last := hours[..|hours| - 1], hours[|hours| - 1];
      RowIsThereExactlyWhen(init, provider, pr, isBot);
      RowThereOneMore(TableAfter(init, provider), last, provider, pr, isBot);
      assert hours == init + [last];
      TouchedOneMore(init, last, pr);
      hide Touched;
    }
  }
}

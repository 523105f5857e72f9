/** From raw archive events to stored totals: one ingested hour hands its summaries to the activity
    table, and in the long run the table holds what the events add up to. */
module HourlyIngest {
  import opened Activity
  import opened Aggregators

  /** `batch` is one hour's summaries, each contributor once, in some order. */
  ghost predicate HandsOver(batch: seq<HourlySummary>, summaries: map<string, Summary>, provider: string, hour: int) {
    && (forall i :: 0 <= i < |batch| ==> IsRowOf(batch[i], summaries, provider, hour))
    && (forall i, j :: 0 <= i < j < |batch| ==> batch[i].key.username != batch[j].key.username)
    && (forall user :: user in summaries ==> Mentions(batch, user))
  }

  ghost predicate IsRowOf(h: HourlySummary, summaries: map<string, Summary>, provider: string, hour: int) {
    && h.key.username in summaries && h.key == Key(h.key.username, provider, hour)
    && var s := summaries[h.key.username];
    && h.row.counters == s.counters
    && h.row.distinctRepos == |h.row.repos| == |s.repos| && (forall r :: r in h.row.repos <==> r in s.repos)
  }

  ghost predicate Mentions(batch: seq<HourlySummary>, user: string) {
    exists i :: 0 <= i < |batch| && batch[i].key.username == user
  }

  method ListRepos(repos: set<string>) returns (list: seq<string>)
    ensures |list| == |repos| && forall r :: r in list <==> r in repos
  {
    list := [];
    var todo := repos;
    while todo != {}
      invariant todo <= repos && |list| + |todo| == |repos|
      invariant forall r :: r in list <==> r in repos && r !in todo
      decreases todo
    {
      var r :| r in todo;
      todo := todo - {r};
      list := list + [r];
    }
  }

  /** The rows that an hour hands to the table. */
  method BuildBatch(summaries: map<string, Summary>, provider: string, hour: int) returns (batch: seq<HourlySummary>)
    ensures HandsOver(batch, summaries, provider, hour)
    ensures forall h :: h in batch ==>
              && h.key.provider == provider && h.key.hour == hour && h.key.username in summaries
              && h.row.counters == summaries[h.key.username].counters
              && |h.row.repos| == h.row.distinctRepos == |summaries[h.key.username].repos|
              && forall r :: r in h.row.repos <==> r in summaries[h.key.username].repos
  {
    batch := [];
    var todo := summaries.Keys;
    while todo != {}
      invariant todo <= summaries.Keys
      invariant HandsOver(batch, summaries - todo, provider, hour)
      decreases todo
    {
      var user :| user in todo;
      var s := summaries[user];
      var repos := ListRepos(s.repos);
      var h := HourlySummary(Key(user, provider, hour), Row(s.counters, |repos|, repos));
      HandsOverOneMore(batch, summaries - todo, provider, hour, h, s);
      assert (summaries - todo)[user := s] == summaries - (todo - {user});
      hide HandsOver;
      todo := todo - {user};
      batch := batch + [h];
    }
    assert summaries - todo == summaries;
  }

  lemma HandsOverOneMore(batch: seq<HourlySummary>, some: map<string, Summary>, provider: string, hour: int,
                         h: HourlySummary, s: Summary)
    requires HandsOver(batch, some, provider, hour) && h.key.username !in some
    requires IsRowOf(h, some[h.key.username := s], provider, hour)
    ensures HandsOver(batch + [h], some[h.key.username := s], provider, hour)
  {
    var more := batch + [h];
    forall user | user in some.Keys + {h.key.username} ensures Mentions(more, user) {
      if user == h.key.username {
        assert more[|batch|].key.username == user;
      } else {
        var i :| 0 <= i < |batch| && batch[i].key.username == user;
        assert more[i].key.username == user;
      }
    }
    forall i | 0 <= i < |more| ensures IsRowOf(more[i], some[h.key.username := s], provider, hour) {
      if i < |batch| {
        assert more[i] == batch[i] && IsRowOf(batch[i], some, provider, hour);
      }
    }
  }

  /** What a batch brings one contributor. */
  lemma {:induction false} BatchBringsSummary(batch: seq<HourlySummary>, summaries: map<string, Summary>,
                                              provider: string, hour: int, user: string)
    requires forall i :: 0 <= i < |batch| ==> IsRowOf(batch[i], summaries, provider, hour)
    requires forall i, j :: 0 <= i < j < |batch| ==> batch[i].key.username != batch[j].key.username
    ensures Mentions(batch, user) ==> user in summaries
    ensures BatchTotal(batch, ActivityOf(user, provider)) ==
            if Mentions(batch, user) then summaries[user].counters else ZERO
    decreases |batch|
  {
    hide Plus;
    if batch != [] {
      var n := |batch| - 1;
      var init, last := batch[..n], batch[n];
      BatchBringsSummary(init, summaries, provider, hour, user);
      assert IsRowOf(last, summaries, provider, hour);
      assert Mentions(batch, user) <==> Mentions(init, user) || last.key.username == user by {
        if Mentions(init, user) {
          var i :| 0 <= i < |init| && init[i].key.username == user;
          assert batch[i].key.username == user;
        }
      }
      assert Mentions(init, user) ==> last.key.username != user;
      PlusLaws(BatchTotal(init, ActivityOf(user, provider)), ZERO, ZERO);
      PlusLaws(last.row.counters, ZERO, ZERO);
    }
  }

  // ---------------------------------------------------------------- whole runs

  /** An hour as it was ingested: the complete event stream, the prefixes replayed before it, the
      aggregator's summaries and the batch made of them. */
  datatype Hour = Hour(events: seq<Event>, cuts: seq<nat>, at: int, summaries: map<string, Summary>,
                       batch: seq<HourlySummary>)

  datatype Step = Ingest(hour: Hour) | Maintain(cutoff: int)

  ghost predicate Ingests(h: Hour, provider: string, isBot: string -> bool) {
    && (forall i :: 0 <= i < |h.cuts| ==> h.cuts[i] <= |h.events|)
    && HoldsSummaries(h.summaries, Replayed(h.events, h.cuts), isBot)
    && HandsOver(h.batch, h.summaries, provider, h.at)
  }

  ghost predicate IsHistory(steps: seq<Step>, provider: string, isBot: string -> bool) {
    forall i :: 0 <= i < |steps| && steps[i].Ingest? ==> Ingests(steps[i].hour, provider, isBot)
  }

  function OpOf(step: Step): Op {
    match step
    case Ingest(h) => Upsert(h.batch)
    case Maintain(cutoff) => Compact(cutoff)
  }

  ghost function OpsOf(steps: seq<Step>): seq<Op> {
    if steps == [] then [] else OpsOf(steps[..|steps| - 1]) + [OpOf(steps[|steps| - 1])]
  }

  /** What the events of a contributor add up to, replayed prefixes included. */
  ghost function EventTotal(steps: seq<Step>, user: string): Counters
    requires forall i :: 0 <= i < |steps| && steps[i].Ingest? ==>
               forall j :: 0 <= j < |steps[i].hour.cuts| ==> steps[i].hour.cuts[j] <= |steps[i].hour.events|
  {
    if steps == [] then ZERO
    else
      var last := steps[|steps| - 1];
      Plus(EventTotal(steps[..|steps| - 1], user),
           if last.Ingest? then Tally(Replayed(last.hour.events, last.hour.cuts), user) else ZERO)
  }

  lemma HourBringsTally(h: Hour, provider: string, isBot: string -> bool, user: string)
    requires Ingests(h, provider, isBot)
    ensures BatchTotal(h.batch, ActivityOf(user, provider)) ==
            if isBot(user) then ZERO else Tally(Replayed(h.events, h.cuts), user)
  {
    BatchBringsSummary(h.batch, h.summaries, provider, h.at, user);
    assert HoldsSummaryOf(h.summaries, Replayed(h.events, h.cuts), isBot, user);
    if !ActsIn(Replayed(h.events, h.cuts), user) {
      NothingOfUser(Replayed(h.events, h.cuts), user);
    }
    hide Tally, BatchTotal, ActsIn;
  }

  lemma {:induction false} HistoryBringsEvents(steps: seq<Step>, provider: string, isBot: string -> bool, user: string)
    requires IsHistory(steps, provider, isBot)
    ensures Ingested(OpsOf(steps), ActivityOf(user, provider)) == if isBot(user) then ZERO else EventTotal(steps, user)
    decreases |steps|
  {
    hide Plus, BatchTotal;
    if steps != [] {
      var n := |steps| - 1;
      HistoryBringsEvents(steps[..n], provider, isBot, user);
      assert OpsOf(steps)[..|OpsOf(steps)| - 1] == OpsOf(steps[..n]);
      if steps[n].Ingest? {
        HourBringsTally(steps[n].hour, provider, isBot, user);
      }
      PlusLaws(ZERO, ZERO, ZERO);
    }
  }

  /** Over any history of ingested hours and compactions, the lifetime totals of a human contributor
      are exactly what their archive events add up to, and a bot has none. */
  lemma LifetimeIsWhatEventsAddUpTo(steps: seq<Step>, provider: string, isBot: string -> bool, user: string)
    requires IsHistory(steps, provider, isBot)
    ensures LifetimeTotals(Run(map[], OpsOf(steps)), user, provider) ==
            if isBot(user) then ZERO else EventTotal(steps, user)
  {
    HistoryBringsEvents(steps, provider, isBot, user);
    LifetimeTotalsAreConserved(OpsOf(steps), user, provider);
  }

  /** All events of a history, replayed prefixes included. */
  ghost function AllEvents(steps: seq<Step>): seq<Event>
    requires forall i :: 0 <= i < |steps| && steps[i].Ingest? ==>
               forall j :: 0 <= j < |steps[i].hour.cuts| ==> steps[i].hour.cuts[j] <= |steps[i].hour.events|
  {
    if steps == [] then []
    else
      var last := steps[|steps| - 1];
      AllEvents(steps[..|steps| - 1]) + if last.Ingest? then Replayed(last.hour.events, last.hour.cuts) else []
  }

  lemma {:induction false} EventTotalIsTally(steps: seq<Step>, user: string)
    requires forall i :: 0 <= i < |steps| && steps[i].Ingest? ==>
               forall j :: 0 <= j < |steps[i].hour.cuts| ==> steps[i].hour.cuts[j] <= |steps[i].hour.events|
    ensures EventTotal(steps, user) == Tally(AllEvents(steps), user)
    decreases |steps|
  {
    hide Plus, Credit;
    if steps != [] {
      var init, last := steps[..|steps| - 1], steps[|steps| - 1];
      EventTotalIsTally(init, user);
      TallyOfConcat(AllEvents(init), if last.Ingest? then Replayed(last.hour.events, last.hour.cuts) else [], user);
    }
  }

  /** In numbers: each lifetime counter of a human contributor is how many of all events are theirs and
      of that kind and action. */
  lemma LifetimeCountsEvents(steps: seq<Step>, provider: string, isBot: string -> bool, user: string)
    requires IsHistory(steps, provider, isBot) && !isBot(user)
    ensures CountsEvents(LifetimeTotals(Run(map[], OpsOf(steps)), user, provider), AllEvents(steps), user)
  {
    LifetimeIsWhatEventsAddUpTo(steps, provider, isBot, user);
    EventTotalIsTally(steps, user);
    TallyCountsEvents(AllEvents(steps), user);
    hide CountsEvents, LifetimeTotals, Tally;
  }
}

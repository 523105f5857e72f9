/** The per-hour fold of archive events: one summary per human contributor, and the first
    observation of each action on each pull request. */
module Aggregators {
  import opened Activity
  import opened Options

  datatype Kind = PullRequest | PullRequestReview | IssueComment | Issues

  datatype Action = Opened | Merged | Closed | OtherAction

  /** `createdAt` is `None` when the archive's timestamp does not parse. */
  datatype Event = Event(kind: Kind, action: Action, actor: string, repo: string, createdAt: Option<int>, number: int)

  datatype PRKey = PRKey(repo: string, number: int, action: Action)

  datatype PREvent = PREvent(key: PRKey, author: string, occurAt: Option<int>)

  datatype Summary = Summary(counters: Counters, repos: set<string>)

  // ---------------------------------------------------------------- pull request observations

  /** `ev` is an observation of `key`. */
  predicate Observes(ev: Event, key: PRKey) {
    && ev.kind.PullRequest? && ev.repo != "" && ev.number > 0 && !ev.action.OtherAction?
    && key == PRKey(ev.repo, ev.number, ev.action)
  }

  /** Only a human who opens a pull request is recorded as its author. */
  function Observation(ev: Event, isBot: string -> bool): PREvent {
    PREvent(PRKey(ev.repo, ev.number, ev.action),
            if ev.action.Opened? && !isBot(ev.actor) then ev.actor else "",
            ev.createdAt)
  }

  /** The first event of the stream that observes `key`. */
  ghost function FirstOf(events: seq<Event>, key: PRKey): (r: Option<Event>)
    ensures r.None? <==> forall i :: 0 <= i < |events| ==> !Observes(events[i], key)
    ensures r.Some? ==> exists i :: 0 <= i < |events| && events[i] == r.value && Observes(r.value, key)
                                    && forall j :: 0 <= j < i ==> !Observes(events[j], key)
  {
    if events == [] then None
    else
      var before := FirstOf(events[..|events| - 1], key);
      assert forall i :: 0 <= i < |events| - 1 ==> events[..|events| - 1][i] == events[i];
      if before.None? && Observes(events[|events| - 1], key) then Some(events[|events| - 1]) else before
  }

  ghost predicate HoldsFirstObservations(obs: map<PRKey, PREvent>, events: seq<Event>, isBot: string -> bool) {
    forall key :: if key in obs
                  then FirstOf(events, key).Some? && obs[key] == Observation(FirstOf(events, key).value, isBot)
                  else FirstOf(events, key).None?
  }

  lemma FirstAfterMore(events: seq<Event>, ev: Event, key: PRKey)
    ensures FirstOf(events + [ev], key) ==
            if FirstOf(events, key).None? && Observes(ev, key) then Some(ev) else FirstOf(events, key)
  {
    assert (events + [ev])[..|events|] == events;
  }

  ghost function AfterObserving(obs: map<PRKey, PREvent>, ev: Event, isBot: string -> bool): map<PRKey, PREvent> {
    var key := PRKey(ev.repo, ev.number, ev.action);
    if Observes(ev, key) && key !in obs then obs[key := Observation(ev, isBot)] else obs
  }

  lemma ObservationsAfterMore(obs: map<PRKey, PREvent>, events: seq<Event>, ev: Event, isBot: string -> bool)
    requires HoldsFirstObservations(obs, events, isBot)
    ensures HoldsFirstObservations(AfterObserving(obs, ev, isBot), events + [ev], isBot)
  {
    hide FirstOf;
    forall key ensures FirstOf(events + [ev], key) ==
                       if FirstOf(events, key).None? && Observes(ev, key) then Some(ev) else FirstOf(events, key) {
      FirstAfterMore(events, ev, key);
    }
  }

  lemma ObservationsKeepKeys(obs: map<PRKey, PREvent>, events: seq<Event>, isBot: string -> bool)
    requires HoldsFirstObservations(obs, events, isBot)
    ensures forall key :: key in obs ==> obs[key].key == key
  {
  }

  // ---------------------------------------------------------------- contributor summaries

  /** What one event adds to its actor's counters. */
  function Credit(ev: Event): Counters {
    match ev.kind
    case PullRequest =>
      (match ev.action
       case Opened => ZERO.(prsOpened := 1)
       case Merged => ZERO.(prsMerged := 1)
       case Closed => ZERO.(prsClosed := 1)
       case OtherAction => ZERO)
    case PullRequestReview => ZERO.(reviewsGiven := 1)
    case IssueComment => ZERO.(issueComments := 1)
    case Issues =>
      (match ev.action
       case Opened => ZERO.(issuesOpened := 1)
       case Closed => ZERO.(issuesClosed := 1)
       case _ => ZERO)
  }

  /** Everything the events of `user` add up to. */
  ghost function Tally(events: seq<Event>, user: string): Counters {
    if events == [] then ZERO
    else
      var last := events[|events| - 1];
      Plus(Tally(events[..|events| - 1], user), if last.actor == user then Credit(last) else ZERO)
  }

  ghost function ReposOf(events: seq<Event>, user: string): set<string> {
    set i | 0 <= i < |events| && events[i].actor == user :: events[i].repo
  }

  ghost predicate ActsIn(events: seq<Event>, user: string) {
    exists i :: 0 <= i < |events| && events[i].actor == user
  }

  ghost predicate HoldsSummaries(summaries: map<string, Summary>, events: seq<Event>, isBot: string -> bool) {
    forall user :: HoldsSummaryOf(summaries, events, isBot, user)
  }

  ghost predicate HoldsSummaryOf(summaries: map<string, Summary>, events: seq<Event>, isBot: string -> bool,
                                 user: string) {
    && (user in summaries <==> !isBot(user) && ActsIn(events, user))
    && (user in summaries ==> summaries[user] == Summary(Tally(events, user), ReposOf(events, user)))
  }

  lemma TallyOneMore(events: seq<Event>, ev: Event, user: string)
    ensures Tally(events + [ev], user) ==
            if ev.actor == user then Plus(Tally(events, user), Credit(ev)) else Tally(events, user)
  {
    assert (events + [ev])[..|events|] == events;
    PlusLaws(Tally(events, user), ZERO, ZERO);
    hide Plus, Credit;
  }

  lemma ActsInOneMore(events: seq<Event>, ev: Event, user: string)
    ensures ActsIn(events + [ev], user) <==> ActsIn(events, user) || ev.actor == user
  {
    var more := events + [ev];
    assert more[|events|] == ev;
    if ActsIn(events, user) {
      var i :| 0 <= i < |events| && events[i].actor == user;
      assert more[i].actor == user;
    }
  }

  lemma ReposOneMore(events: seq<Event>, ev: Event, user: string)
    ensures ReposOf(events + [ev], user) ==
            if ev.actor == user then ReposOf(events, user) + {ev.repo} else ReposOf(events, user)
  {
    var more := events + [ev];
    forall r | r in ReposOf(events, user) ensures r in ReposOf(more, user) {
      var i :| 0 <= i < |events| && events[i].actor == user && events[i].repo == r;
      assert more[i].actor == user && more[i].repo == r;
    }
    assert more[|events|] == ev;
  }

  lemma MoreOfUser(events: seq<Event>, ev: Event, user: string)
    ensures ActsIn(events + [ev], user) <==> ActsIn(events, user) || ev.actor == user
    ensures Tally(events + [ev], user) ==
            if ev.actor == user then Plus(Tally(events, user), Credit(ev)) else Tally(events, user)
    ensures ReposOf(events + [ev], user) ==
            if ev.actor == user then ReposOf(events, user) + {ev.repo} else ReposOf(events, user)
  {
    hide *;
    TallyOneMore(events, ev, user);
    ActsInOneMore(events, ev, user);
    ReposOneMore(events, ev, user);
  }

  lemma {:induction false} NothingOfUser(events: seq<Event>, user: string)
    requires !ActsIn(events, user)
    ensures Tally(events, user) == ZERO && ReposOf(events, user) == {}
    decreases |events|
  {
    if events != [] {
      var n := |events| - 1;
      assert events == events[..n] + [events[n]];
      MoreOfUser(events[..n], events[n], user);
      NothingOfUser(events[..n], user);
    }
  }

  ghost function AfterCrediting(summaries: map<string, Summary>, ev: Event): map<string, Summary> {
    var s := if ev.actor in summaries then summaries[ev.actor] else Summary(ZERO, {});
    summaries[ev.actor := Summary(Plus(s.counters, Credit(ev)), s.repos + {ev.repo})]
  }

  lemma SummaryAfterMore(summaries: map<string, Summary>, events: seq<Event>, ev: Event, isBot: string -> bool,
                         user: string)
    requires HoldsSummaryOf(summaries, events, isBot, user)
    ensures HoldsSummaryOf(if isBot(ev.actor) then summaries else AfterCrediting(summaries, ev), events + [ev], isBot,
                           user)
  {
    hide Tally, Plus, Credit, ReposOf, ActsIn;
    MoreOfUser(events, ev, user);
    if !ActsIn(events, user) {
      NothingOfUser(events, user);
    }
  }

  lemma SummariesAfterMore(summaries: map<string, Summary>, events: seq<Event>, ev: Event, isBot: string -> bool)
    requires HoldsSummaries(summaries, events, isBot)
    ensures HoldsSummaries(if isBot(ev.actor) then summaries else AfterCrediting(summaries, ev), events + [ev], isBot)
  {
    hide HoldsSummaryOf, AfterCrediting;
    var after := if isBot(ev.actor) then summaries else AfterCrediting(summaries, ev);
    forall user ensures HoldsSummaryOf(after, events + [ev], isBot, user) {
      SummaryAfterMore(summaries, events, ev, isBot, user);
    }
  }

  // ---------------------------------------------------------------- the aggregator itself

  class Aggregator {
    const isBot: string -> bool
    var summaries: map<string, Summary>
    var prEvents: map<PRKey, PREvent>
    ghost var added: seq<Event>

    /** The maps say what the events added so far amount to. */
    ghost predicate Valid()
      reads this
    {
      HoldsFirstObservations(prEvents, added, isBot) && HoldsSummaries(summaries, added, isBot)
    }

    constructor (isBot: string -> bool)
      ensures Valid() && added == [] && this.isBot == isBot
    {
      this.isBot := isBot;
      summaries := map[];
      prEvents := map[];
      added := [];
    }

    method Add(ev: Event)
      requires Valid()
      modifies this
      ensures Valid() && added == old(added) + [ev]
    {
      ObservationsAfterMore(prEvents, added, ev, isBot);
      SummariesAfterMore(summaries, added, ev, isBot);
      added := added + [ev];
      Observe(ev);
      if isBot(ev.actor) {
        return;
      }
      Summarise(ev);
    }

    /** The part of `Add` before the bot filter: the first observation of a key is kept. */
    method Observe(ev: Event)
      modifies this`prEvents
      ensures prEvents == AfterObserving(old(prEvents), ev, isBot)
    {
      if ev.kind.PullRequest? && ev.repo != "" && ev.number > 0 && ev.action in {Opened, Merged, Closed} {
        var key := PRKey(ev.repo, ev.number, ev.action);
        if key !in prEvents {
          var author := if ev.action.Opened? && !isBot(ev.actor) then ev.actor else "";
          prEvents := prEvents[key := PREvent(key, author, ev.createdAt)];
        }
      }
    }

    /** The part of `Add` behind the bot filter. */
    method Summarise(ev: Event)
      modifies this`summaries
      ensures summaries == AfterCrediting(old(summaries), ev)
    {
      var s := if ev.actor in summaries then summaries[ev.actor] else Summary(ZERO, {});
      var c := Bump(s.counters, ev);
      summaries := summaries[ev.actor := Summary(c, s.repos + {ev.repo})];
    }

    /** The switch over type and action that bumps one counter in place. */
    method Bump(counters: Counters, ev: Event) returns (c: Counters)
      ensures c == Plus(counters, Credit(ev))
    {
      c := counters;
      match (ev.kind, ev.action)
      case (PullRequest, Opened) => c := c.(prsOpened := c.prsOpened + 1);
      case (PullRequest, Merged) => c := c.(prsMerged := c.prsMerged + 1);
      case (PullRequest, Closed) => c := c.(prsClosed := c.prsClosed + 1);
      case (PullRequestReview, _) => c := c.(reviewsGiven := c.reviewsGiven + 1);
      case (IssueComment, _) => c := c.(issueComments := c.issueComments + 1);
      case (Issues, Opened) => c := c.(issuesOpened := c.issuesOpened + 1);
      case (Issues, Closed) => c := c.(issuesClosed := c.issuesClosed + 1);
      case _ =>
    }

    /** The observations, in whatever order the map yields them. */
    method PREvents() returns (out: seq<PREvent>)
      requires Valid()
      ensures Enumerates(out, prEvents)
    {
      ObservationsKeepKeys(prEvents, added, isBot);
      out := ValuesOf(prEvents);
    }
  }

  method ValuesOf(obs: map<PRKey, PREvent>) returns (out: seq<PREvent>)
    requires forall key :: key in obs ==> obs[key].key == key
    ensures Enumerates(out, obs)
  {
    out := [];
    var todo := obs.Keys;
    ghost var listed: map<PRKey, PREvent> := map[];
    while todo != {}
      invariant todo <= obs.Keys && listed == obs - todo
      invariant Enumerates(out, listed)
      decreases todo
    {
      hide Enumerates;
      var key :| key in todo;
      EnumeratesOneMore(out, listed, obs[key]);
      listed := listed[key := obs[key]];
      out := out + [obs[key]];
      todo := todo - {key};
    }
    assert listed == obs;
  }

  /** `out` lists the values of `obs`, each once. */
  ghost predicate Enumerates(out: seq<PREvent>, obs: map<PRKey, PREvent>) {
    && (forall i :: 0 <= i < |out| ==> out[i].key in obs && obs[out[i].key] == out[i])
    && (forall i, j :: 0 <= i < j < |out| ==> out[i].key != out[j].key)
    && (forall key :: key in obs ==> Lists(out, key))
  }

  ghost predicate Lists(out: seq<PREvent>, key: PRKey) {
    exists i :: 0 <= i < |out| && out[i].key == key
  }

  lemma ListsOneMore(out: seq<PREvent>, ev: PREvent, key: PRKey)
    ensures Lists(out + [ev], key) <==> Lists(out, key) || ev.key == key
  {
    var more := out + [ev];
    assert more[|out|] == ev;
    if Lists(out, key) {
      var i :| 0 <= i < |out| && out[i].key == key;
      assert more[i].key == key;
    }
  }

  lemma EnumeratesOneMore(out: seq<PREvent>, obs: map<PRKey, PREvent>, ev: PREvent)
    requires Enumerates(out, obs) && ev.key !in obs
    ensures Enumerates(out + [ev], obs[ev.key := ev])
  {
    hide Lists;
    forall key ensures Lists(out + [ev], key) <==> Lists(out, key) || ev.key == key {
      ListsOneMore(out, ev, key);
    }
  }

  // ---------------------------------------------------------------- the tally counts events

  /** How many of the events `counts` holds of. */
  ghost function Occurrences(events: seq<Event>, counts: Event -> bool): nat {
    |set i | 0 <= i < |events| && counts(events[i])|
  }

  lemma OccurrencesOneMore(events: seq<Event>, ev: Event, counts: Event -> bool)
    ensures Occurrences(events + [ev], counts) == Occurrences(events, counts) + if counts(ev) then 1 else 0
  {
    var more := events + [ev];
    var before, after := set i | 0 <= i < |events| && counts(events[i]), set i | 0 <= i < |more| && counts(more[i]);
    assert more[|events|] == ev && forall i :: 0 <= i < |events| ==> more[i] == events[i];
    assert after == if counts(ev) then before + {|events|} else before;
  }

  /** An event of `user` of the given kind, and of the given action unless any will do. */
  function By(user: string, kind: Kind, action: Option<Action>): Event -> bool {
    (ev: Event) => ev.actor == user && ev.kind == kind && (action.None? || ev.action == action.value)
  }

  /** Each counter is the number of events of that contributor, kind and action. */
  ghost predicate CountsEvents(c: Counters, events: seq<Event>, user: string) {
    && c.prsOpened == Occurrences(events, By(user, PullRequest, Some(Opened)))
    && c.prsMerged == Occurrences(events, By(user, PullRequest, Some(Merged)))
    && c.prsClosed == Occurrences(events, By(user, PullRequest, Some(Closed)))
    && c.reviewsGiven == Occurrences(events, By(user, PullRequestReview, None))
    && c.issueComments == Occurrences(events, By(user, IssueComment, None))
    && c.issuesOpened == Occurrences(events, By(user, Issues, Some(Opened)))
    && c.issuesClosed == Occurrences(events, By(user, Issues, Some(Closed)))
  }

  lemma NothingCounted(user: string)
    ensures CountsEvents(ZERO, [], user)
  {
  }

  lemma CountedOneMore(c: Counters, events: seq<Event>, ev: Event, user: string)
    requires CountsEvents(c, events, user)
    ensures CountsEvents(if ev.actor == user then Plus(c, Credit(ev)) else c, events + [ev], user)
  {
    hide Occurrences;
    OccurrencesOneMore(events, ev, By(user, PullRequest, Some(Opened)));
    OccurrencesOneMore(events, ev, By(user, PullRequest, Some(Merged)));
    OccurrencesOneMore(events, ev, By(user, PullRequest, Some(Closed)));
    OccurrencesOneMore(events, ev, By(user, PullRequestReview, None));
    OccurrencesOneMore(events, ev, By(user, IssueComment, None));
    OccurrencesOneMore(events, ev, By(user, Issues, Some(Opened)));
    OccurrencesOneMore(events, ev, By(user, Issues, Some(Closed)));
  }

  lemma {:induction false} TallyCountsEvents(events: seq<Event>, user: string)
    ensures CountsEvents(Tally(events, user), events, user)
    decreases |events|
  {
    hide CountsEvents, Plus, Credit;
    if events == [] {
      NothingCounted(user);
    } else {
      var n := |events| - 1;
      TallyCountsEvents(events[..n], user);
      CountedOneMore(Tally(events[..n], user), events[..n], events[n], user);
      assert events == events[..n] + [events[n]];
      TallyOneMore(events[..n], events[n], user);
    }
  }

  // ---------------------------------------------------------------- retried streams

  /** What reaches the aggregator when attempts broke off after `cuts[0]`, `cuts[1]`, ... events,
      before one that went through. */
  ghost function Replayed(events: seq<Event>, cuts: seq<nat>): seq<Event>
    requires forall i :: 0 <= i < |cuts| ==> cuts[i] <= |events|
  {
    if cuts == [] then events else events[..cuts[0]] + Replayed(events, cuts[1..])
  }

  lemma {:induction false} FirstOfConcat(a: seq<Event>, b: seq<Event>, key: PRKey)
    ensures FirstOf(a + b, key) == if FirstOf(a, key).Some? then FirstOf(a, key) else FirstOf(b, key)
    decreases |b|
  {
    hide FirstOf, Observes;
    if b == [] {
      assert a + b == a;
    } else {
      var n := |b| - 1;
      FirstOfConcat(a, b[..n], key);
      FirstAfterMore(a + b[..n], b[n], key);
      FirstAfterMore(b[..n], b[n], key);
      assert a + b == a + b[..n] + [b[n]] && b == b[..n] + [b[n]];
    }
  }

  /** Replayed prefixes change no pull request observation. */
  lemma {:induction false} ReplayKeepsObservations(events: seq<Event>, cuts: seq<nat>, key: PRKey)
    requires forall i :: 0 <= i < |cuts| ==> cuts[i] <= |events|
    ensures FirstOf(Replayed(events, cuts), key) == FirstOf(events, key)
    decreases |cuts|
  {
    hide FirstOf;
    if cuts != [] {
      var prefix, rest := events[..cuts[0]], Replayed(events, cuts[1..]);
      assert events == prefix + events[cuts[0]..];
      ReplayKeepsObservations(events, cuts[1..], key);
      FirstOfConcat(prefix, rest, key);
      FirstOfConcat(prefix, events[cuts[0]..], key);
    }
  }

  lemma {:induction false} TallyOfConcat(a: seq<Event>, b: seq<Event>, user: string)
    ensures Tally(a + b, user) == Plus(Tally(a, user), Tally(b, user))
    decreases |b|
  {
    hide Plus, Credit;
    if b == [] {
      assert a + b == a;
      PlusLaws(Tally(a, user), ZERO, ZERO);
    } else {
      var n := |b| - 1;
      var init, last := b[..n], b[n];
      TallyOfConcat(a, init, user);
      assert a + b == a + init + [last] && b == init + [last];
      MoreOfUser(a + init, last, user);
      MoreOfUser(init, last, user);
      hide Tally;
      PlusLaws(Tally(a, user), Tally(init, user), Credit(last));
    }
  }

  ghost function ReplayedTally(events: seq<Event>, cuts: seq<nat>, user: string): Counters
    requires forall i :: 0 <= i < |cuts| ==> cuts[i] <= |events|
  {
    if cuts == [] then ZERO else Plus(Tally(events[..cuts[0]], user), ReplayedTally(events, cuts[1..], user))
  }

  /** The summaries are not so lucky: each attempt that broke off is counted on top, in full. */
  lemma {:induction false} ReplayInflatesSummaries(events: seq<Event>, cuts: seq<nat>, user: string)
    requires forall i :: 0 <= i < |cuts| ==> cuts[i] <= |events|
    ensures Tally(Replayed(events, cuts), user) == Plus(Tally(events, user), ReplayedTally(events, cuts, user))
    decreases |cuts|
  {
    if cuts == [] {
      PlusLaws(Tally(events, user), ZERO, ZERO);
    } else {
      var prefix := events[..cuts[0]];
      ReplayInflatesSummaries(events, cuts[1..], user);
      TallyOfConcat(prefix, Replayed(events, cuts[1..]), user);
      PlusLaws(Tally(prefix, user), Tally(events, user), ReplayedTally(events, cuts[1..], user));
    }
  }
}

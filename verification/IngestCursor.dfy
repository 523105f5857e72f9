/** The forward cursor of the hourly ingest. Times are whole hours; the cursor is always one, so the
    stored form, whole seconds, loses nothing. */
module IngestCursor {
  import opened Options

  const ARCHIVE_PUBLISH_DELAY := 2

  /** `from`, `from + 1`, ... */
  function HoursFrom(from: int, count: nat): (hours: seq<int>)
    ensures |hours| == count && forall i :: 0 <= i < count ==> hours[i] == from + i
  {
    seq(count, i => from + i)
  }

  /** The hours a run at `now` has to see to: all that can have been published since the cursor, or
      the last `lookback` ones, but no more than the cap. */
  function DueHours(cursor: Option<int>, now: int, lookback: int, catchupMax: int): seq<int> {
    var last := now - ARCHIVE_PUBLISH_DELAY;
    var first := if cursor.None? then last - (lookback - 1) else cursor.value + 1;
    var cap := if cursor.None? then lookback else catchupMax;
    HoursFrom(first, if cap <= 0 || first > last then 0 else if cap < last - first + 1 then cap else last - first + 1)
  }

  /** How an attempt at one hour ended: stored, not published yet, or any other error. */
  datatype Outcome = Stored | NotPublished | Broken

  datatype Attempt = Attempt(hour: int, outcome: Outcome)

  class Runner {
    var cursor: Option<int>
    /** The cursor found at the start, and one list of attempts for each run since. */
    ghost const initial: Option<int>
    ghost var history: seq<seq<Attempt>>

    constructor (stored: Option<int>)
      ensures cursor == initial == stored && history == []
      ensures TracksHistory(initial, cursor, history)
    {
      cursor := stored;
      initial := stored;
      history := [];
    }

    method ComputeHours(now: int, lookback: int, catchupMax: int) returns (hours: seq<int>)
      ensures hours == DueHours(cursor, now, lookback, catchupMax)
      ensures forall i :: 0 <= i < |hours| ==> hours[i] == hours[0] + i
      ensures cursor.None? ==>
                && |hours| == (if lookback > 0 then lookback else 0)
                && (hours != [] ==> hours[|hours| - 1] == now - 2)
      ensures cursor.Some? ==>
                var published := now - 2 - cursor.value;
                && |hours| == (if published <= 0 || catchupMax <= 0 then 0
                               else if published < catchupMax then published else catchupMax)
                && (hours != [] ==> hours[0] == cursor.value + 1)
    {
      var lastAvailable := now - ARCHIVE_PUBLISH_DELAY;
      var start, cap;
      if cursor.None? {
        start := lastAvailable - (lookback - 1);
        cap := lookback;
      } else {
        start := cursor.value + 1;
        cap := catchupMax;
      }
      hours := [];
      if start >= now {
        return;
      }
      var t := start;
      while t <= lastAvailable && |hours| < cap
        invariant hours == HoursFrom(start, |hours|) && t == start + |hours|
        invariant |hours| > 0 ==> |hours| <= cap && t - 1 <= lastAvailable
        decreases lastAvailable - t
      {
        hours := hours + [t];
        t := t + 1;
      }
    }

    /** One run. `outcome` is how the archive and the store answer for an hour; the context is
        cancelled after `patience` hours. */
    method Run(now: int, lookback: int, catchupMax: int, outcome: int -> Outcome, patience: nat)
      requires TracksHistory(initial, cursor, history)
      modifies this
      ensures TracksHistory(initial, cursor, history)
      ensures |history| == |old(history)| + 1 && history[..|old(history)|] == old(history)
      ensures var attempts, due := history[|old(history)|], DueHours(old(cursor), now, lookback, catchupMax);
              && (forall i :: 0 <= i < |attempts| ==> i < |due| && attempts[i] == Attempt(due[i], outcome(due[i])))
              && (|attempts| == |due| || |attempts| == patience
                  || (attempts != [] && attempts[|attempts| - 1].outcome == NotPublished))
    {
      var hours := ComputeHours(now, lookback, catchupMax);
      ghost var attempts := ProcessHours(hours, outcome, patience);
      RunTracksHistory(initial, old(cursor), history, attempts);
      history := history + [attempts];
      hide TracksHistory;
    }

    /** The loop of a run over its hours, and what it attempted. */
    method ProcessHours(hours: seq<int>, outcome: int -> Outcome, patience: nat) returns (ghost attempts: seq<Attempt>)
      requires forall i :: 0 <= i < |hours| ==> hours[i] == hours[0] + i
      requires cursor.Some? && hours != [] ==> hours[0] == cursor.value + 1
      modifies this`cursor
      ensures IsRunFrom(old(cursor), attempts) && cursor == CursorAfter(old(cursor), attempts)
      ensures forall i :: 0 <= i < |attempts| ==> i < |hours| && attempts[i] == Attempt(hours[i], outcome(hours[i]))
      ensures |attempts| == |hours| || |attempts| == patience
              || (attempts != [] && attempts[|attempts| - 1].outcome == NotPublished)
    {
      attempts := [];
      NothingTried(cursor, hours, outcome);
      for i := 0 to |hours|
        invariant |attempts| == i <= patience
        invariant Tries(old(cursor), hours, outcome, attempts) && AllPublished(attempts)
        invariant cursor == CursorAfter(old(cursor), attempts)
      {
        hide Tries, AllPublished, CursorAfter;
        if i >= patience {
          break;
        }
        var hour := hours[i];
        TriesOneMore(old(cursor), hours, outcome, attempts, Attempt(hour, outcome(hour)));
        attempts := attempts + [Attempt(hour, outcome(hour))];
        if outcome(hour) == NotPublished {
          break;
        }
        if outcome(hour) == Broken {
          continue;
        }
        cursor := Some(hour);
      }
    }
  }

  /** `attempts` are a run over the first of `hours`, with these outcomes. */
  ghost predicate Tries(cursor: Option<int>, hours: seq<int>, outcome: int -> Outcome, attempts: seq<Attempt>) {
    && IsRunFrom(cursor, attempts)
    && forall i :: 0 <= i < |attempts| ==> i < |hours| && attempts[i] == Attempt(hours[i], outcome(hours[i]))
  }

  ghost predicate AllPublished(attempts: seq<Attempt>) {
    forall i :: 0 <= i < |attempts| ==> attempts[i].outcome != NotPublished
  }

  lemma NothingTried(cursor: Option<int>, hours: seq<int>, outcome: int -> Outcome)
    ensures Tries(cursor, hours, outcome, []) && AllPublished([]) && CursorAfter(cursor, []) == cursor
  {
  }

  lemma TriesOneMore(cursor: Option<int>, hours: seq<int>, outcome: int -> Outcome, attempts: seq<Attempt>, a: Attempt)
    requires Tries(cursor, hours, outcome, attempts) && AllPublished(attempts) && |attempts| < |hours|
    requires forall i :: 0 <= i < |hours| ==> hours[i] == hours[0] + i
    requires cursor.Some? ==> hours[0] == cursor.value + 1
    requires a == Attempt(hours[|attempts|], outcome(hours[|attempts|]))
    ensures Tries(cursor, hours, outcome, attempts + [a])
    ensures a.outcome != NotPublished ==> AllPublished(attempts + [a])
    ensures CursorAfter(cursor, attempts + [a]) ==
            if a.outcome.Stored? then Some(a.hour) else CursorAfter(cursor, attempts)
  {
    hide IsRunFrom, CursorAfter;
    assert attempts != [] ==> attempts[0].hour == hours[0];
    AttemptOneMore(cursor, attempts, a);
  }

  // ---------------------------------------------------------------- one run

  /** The attempts of a run cover consecutive hours, the first one behind the cursor if there is
      one, and nothing is attempted after an unpublished hour. */
  ghost predicate IsRunFrom(cursor: Option<int>, attempts: seq<Attempt>) {
    && (forall i :: 0 <= i < |attempts| ==> attempts[i].hour == attempts[0].hour + i)
    && (forall i :: 0 <= i < |attempts| - 1 ==> attempts[i].outcome != NotPublished)
    && (cursor.Some? && attempts != [] ==> attempts[0].hour == cursor.value + 1)
  }

  ghost function CursorAfter(cursor: Option<int>, attempts: seq<Attempt>): Option<int> {
    if attempts == [] then cursor
    else
      var last := attempts[|attempts| - 1];
      if last.outcome.Stored? then Some(last.hour) else CursorAfter(cursor, attempts[..|attempts| - 1])
  }

  lemma AttemptOneMore(cursor: Option<int>, attempts: seq<Attempt>, a: Attempt)
    requires IsRunFrom(cursor, attempts)
    requires AllPublished(attempts)
    requires attempts != [] ==> a.hour == attempts[0].hour + |attempts|
    requires attempts == [] && cursor.Some? ==> a.hour == cursor.value + 1
    ensures IsRunFrom(cursor, attempts + [a])
    ensures CursorAfter(cursor, attempts + [a]) ==
            if a.outcome.Stored? then Some(a.hour) else CursorAfter(cursor, attempts)
  {
    assert (attempts + [a])[..|attempts|] == attempts;
  }

  // ---------------------------------------------------------------- all runs

  /** The hours stored by a run, in order. */
  ghost function StoredBy(attempts: seq<Attempt>): seq<int> {
    if attempts == [] then []
    else
      var last := attempts[|attempts| - 1];
      StoredBy(attempts[..|attempts| - 1]) + if last.outcome.Stored? then [last.hour] else []
  }

  ghost function StoredHours(history: seq<seq<Attempt>>): seq<int> {
    if history == [] then []
    else StoredHours(history[..|history| - 1]) + StoredBy(history[|history| - 1])
  }

  ghost predicate Increasing(hours: seq<int>) {
    forall i, j :: 0 <= i < j < |hours| ==> hours[i] < hours[j]
  }

  /** The run broke on `hour` and then stored a later hour. */
  ghost predicate SkippedBy(attempts: seq<Attempt>, hour: int) {
    exists i, j ::
      && 0 <= i < j < |attempts|
      && attempts[i].hour == hour && attempts[i].outcome == Broken && attempts[j].outcome == Stored
  }

  ghost predicate Skipped(history: seq<seq<Attempt>>, hour: int) {
    exists r :: 0 <= r < |history| && SkippedBy(history[r], hour)
  }

  /** `stored` lists exactly the stored hours among the attempts. */
  ghost predicate ListsStored(attempts: seq<Attempt>, stored: seq<int>) {
    && Increasing(stored)
    && (forall i :: 0 <= i < |attempts| ==> (attempts[i].hour in stored <==> attempts[i].outcome.Stored?))
    && (forall hour :: hour in stored ==> attempts != [] && attempts[0].hour <= hour < attempts[0].hour + |attempts|)
  }

  lemma ListsOneMore(init: seq<Attempt>, stored: seq<int>, last: Attempt)
    requires ListsStored(init, stored)
    requires forall i :: 0 <= i < |init| ==> init[i].hour == last.hour - |init| + i
    ensures ListsStored(init + [last], stored + if last.outcome.Stored? then [last.hour] else [])
  {
    assert last.hour !in stored;
    assert forall i :: 0 <= i < |stored| ==> stored[i] in stored;
    if last.outcome.Stored? {
      assert forall hour :: hour in stored + [last.hour] <==> hour in stored || hour == last.hour;
    } else {
      assert stored + [] == stored;
    }
  }

  lemma RunPrefix(cursor: Option<int>, attempts: seq<Attempt>)
    requires IsRunFrom(cursor, attempts) && attempts != []
    ensures var n := |attempts| - 1;
            && IsRunFrom(cursor, attempts[..n])
            && forall i :: 0 <= i < n ==> attempts[..n][i].hour == attempts[n].hour - n + i
  {
  }

  lemma NothingStored()
    ensures ListsStored([], [])
  {
  }

  lemma {:induction false} StoredByMeaning(cursor: Option<int>, attempts: seq<Attempt>)
    requires IsRunFrom(cursor, attempts)
    ensures ListsStored(attempts, StoredBy(attempts))
    ensures CursorAfter(cursor, attempts) == Last(cursor, StoredBy(attempts))
    decreases |attempts|
  {
    hide ListsStored, IsRunFrom;
    if attempts == [] {
      NothingStored();
    } else {
      var n := |attempts| - 1;
      RunPrefix(cursor, attempts);
      StoredByMeaning(cursor, attempts[..n]);
      ListsOneMore(attempts[..n], StoredBy(attempts[..n]), attempts[n]);
      assert attempts == attempts[..n] + [attempts[n]];
    }
  }

  ghost function Last(initial: Option<int>, hours: seq<int>): Option<int> {
    if hours == [] then initial else Some(hours[|hours| - 1])
  }

  /** Within one run, up to its last stored hour, an hour is missing exactly when it is skipped. */
  ghost predicate MissesSkipped(stored: seq<int>, attempts: seq<Attempt>, hour: int) {
    && (SkippedBy(attempts, hour) ==> stored != [] && attempts != [] && attempts[0].hour <= hour < stored[|stored| - 1])
    && (stored != [] && attempts != [] && attempts[0].hour <= hour <= stored[|stored| - 1] ==>
        (hour !in stored <==> SkippedBy(attempts, hour)))
  }

  lemma SkippedHoursAreMissed(cursor: Option<int>, attempts: seq<Attempt>, stored: seq<int>, hour: int)
    requires IsRunFrom(cursor, attempts) && ListsStored(attempts, stored)
    ensures SkippedBy(attempts, hour) ==>
            stored != [] && attempts[0].hour <= hour < stored[|stored| - 1] && hour !in stored
  {
    if SkippedBy(attempts, hour) {
      var i, j :|
        && 0 <= i < j < |attempts|
        && attempts[i].hour == hour && attempts[i].outcome == Broken && attempts[j].outcome == Stored;
      assert attempts[j].hour in stored;
      var k :| 0 <= k < |stored| && stored[k] == attempts[j].hour;
      assert stored[k] <= stored[|stored| - 1];
    }
  }

  lemma MissedHoursAreSkipped(cursor: Option<int>, attempts: seq<Attempt>, stored: seq<int>, hour: int)
    requires IsRunFrom(cursor, attempts) && ListsStored(attempts, stored)
    requires stored != [] && attempts != [] && attempts[0].hour <= hour <= stored[|stored| - 1] && hour !in stored
    ensures SkippedBy(attempts, hour)
  {
    var last := stored[|stored| - 1];
    assert last in stored;
    var i, j := hour - attempts[0].hour, last - attempts[0].hour;
    assert attempts[i].hour == hour && attempts[j].hour == last;
    assert attempts[i].outcome == Broken && attempts[j].outcome == Stored;
  }

  lemma RunMissesSkipped(cursor: Option<int>, attempts: seq<Attempt>, hour: int)
    requires IsRunFrom(cursor, attempts)
    ensures MissesSkipped(StoredBy(attempts), attempts, hour)
  {
    var stored := StoredBy(attempts);
    StoredByMeaning(cursor, attempts);
    SkippedHoursAreMissed(cursor, attempts, stored, hour);
    if stored != [] {
      assert stored[|stored| - 1] in stored;
      if attempts[0].hour <= hour <= stored[|stored| - 1] && hour !in stored {
        MissedHoursAreSkipped(cursor, attempts, stored, hour);
      }
    }
  }

  lemma SkippedOneMore(history: seq<seq<Attempt>>, attempts: seq<Attempt>, hour: int)
    ensures Skipped(history + [attempts], hour) <==> Skipped(history, hour) || SkippedBy(attempts, hour)
  {
    var more := history + [attempts];
    assert more[|history|] == attempts;
    if Skipped(history, hour) {
      var r :| 0 <= r < |history| && SkippedBy(history[r], hour);
      assert SkippedBy(more[r], hour);
    }
  }

  /** What `history` says of one hour: see `TracksHistory`. */
  ghost predicate TracksHour(stored: seq<int>, history: seq<seq<Attempt>>, hour: int) {
    && (Skipped(history, hour) ==> stored != [] && hour < stored[|stored| - 1])
    && (stored != [] && stored[0] <= hour <= stored[|stored| - 1] ==> (hour !in stored <==> Skipped(history, hour)))
  }

  /** The stored hours are strictly increasing, the cursor is the last of them, and between the
      first and the last exactly the skipped hours are missing. */
  ghost predicate TracksHistory(initial: Option<int>, cursor: Option<int>, history: seq<seq<Attempt>>) {
    var stored := StoredHours(history);
    Increasing(stored) && cursor == Last(initial, stored) && forall hour :: TracksHour(stored, history, hour)
  }

  lemma StoredLater(cursor: Option<int>, attempts: seq<Attempt>, before: seq<int>)
    requires IsRunFrom(cursor, attempts) && Increasing(before)
             && (before != [] ==> cursor == Some(before[|before| - 1]))
    ensures Increasing(before + StoredBy(attempts))
  {
    StoredByMeaning(cursor, attempts);
    var added := StoredBy(attempts);
    assert forall i :: 0 <= i < |added| ==> added[i] in added;
  }

  /** Two stretches of hours, the second one behind the first, and for each of them whether `hour`
      was skipped: the stretches together miss what either skipped. */
  lemma StretchesJoin(before: seq<int>, skippedBefore: bool, added: seq<int>, skippedNow: bool, first: int, hour: int)
    requires Increasing(before) && Increasing(added)
    requires before != [] && added != [] ==> first == before[|before| - 1] + 1
    requires added != [] ==> first <= added[0]
    requires skippedBefore ==> before != [] && hour < before[|before| - 1]
    requires before != [] && before[0] <= hour <= before[|before| - 1] ==> (hour !in before <==> skippedBefore)
    requires skippedNow ==> added != [] && first <= hour < added[|added| - 1]
    requires added != [] && first <= hour <= added[|added| - 1] ==> (hour !in added <==> skippedNow)
    ensures var after := before + added;
            && (skippedBefore || skippedNow ==> after != [] && hour < after[|after| - 1])
            && (after != [] && after[0] <= hour <= after[|after| - 1] ==>
                (hour !in after <==> skippedBefore || skippedNow))
  {
    var after := before + added;
    if added == [] {
      assert after == before;
    } else {
      assert after[|after| - 1] == added[|added| - 1];
      assert hour in after <==> hour in before || hour in added;
      if hour in before {
        var k :| 0 <= k < |before| && before[k] == hour;
        assert before[k] <= before[|before| - 1];
      }
    }
  }

  lemma StoredInOrder(cursor: Option<int>, attempts: seq<Attempt>)
    requires IsRunFrom(cursor, attempts)
    ensures Increasing(StoredBy(attempts))
    ensures StoredBy(attempts) != [] ==> attempts != [] && attempts[0].hour <= StoredBy(attempts)[0]
  {
    StoredByMeaning(cursor, attempts);
    assert StoredBy(attempts) != [] ==> StoredBy(attempts)[0] in StoredBy(attempts);
  }

  lemma HourStaysTracked(cursor: Option<int>, before: seq<int>, history: seq<seq<Attempt>>, attempts: seq<Attempt>,
                         hour: int)
    requires IsRunFrom(cursor, attempts) && TracksHour(before, history, hour)
    requires Increasing(before) && (before != [] ==> cursor == Some(before[|before| - 1]))
    ensures TracksHour(before + StoredBy(attempts), history + [attempts], hour)
  {
    StoredInOrder(cursor, attempts);
    RunMissesSkipped(cursor, attempts, hour);
    SkippedOneMore(history, attempts, hour);
    hide Skipped, SkippedBy, StoredBy, Increasing;
    var first := if attempts == [] then 0 else attempts[0].hour;
    StretchesJoin(before, Skipped(history, hour), StoredBy(attempts), SkippedBy(attempts, hour), first, hour);
  }

  /** Whatever the archive and the store answer, a run keeps the stored hours increasing, the cursor
      on the last of them, and the skipped hours the only gaps. */
  lemma RunTracksHistory(initial: Option<int>, cursor: Option<int>, history: seq<seq<Attempt>>, attempts: seq<Attempt>)
    requires TracksHistory(initial, cursor, history) && IsRunFrom(cursor, attempts)
    ensures TracksHistory(initial, CursorAfter(cursor, attempts), history + [attempts])
  {
    assert (history + [attempts])[..|history|] == history;
    StoredLater(cursor, attempts, StoredHours(history));
    StoredByMeaning(cursor, attempts);
    forall hour ensures TracksHour(StoredHours(history) + StoredBy(attempts), history + [attempts], hour) {
      HourStaysTracked(cursor, StoredHours(history), history, attempts, hour);
    }
    hide TracksHour, Increasing;
  }
}

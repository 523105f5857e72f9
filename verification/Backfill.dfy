/** The backward cursor of the archive backfill. Times are whole hours; the cursor is always one. */
module Backfill {
  import opened Options

  /** `from`, `from - 1`, ... */
  function HoursDownFrom(from: int, count: nat): (hours: seq<int>)
    ensures |hours| == count && forall i :: 0 <= i < count ==> hours[i] == from - i
  {
    seq(count, i => from - i)
  }

  /** Every hour from the newest one still to do down to the horizon, provided there are two. */
  function DueHours(now: int, days: int, cursor: Option<int>): seq<int> {
    var start, end := if cursor.Some? then cursor.value - 1 else now - 1, now - days * 24;
    HoursDownFrom(start, if start <= end then 0 else start - end + 1)
  }

  method BackfillHours(now: int, days: int, cursor: Option<int>) returns (hours: seq<int>)
    ensures hours == DueHours(now, days, cursor)
    ensures var newest, horizon := if cursor.Some? then cursor.value - 1 else now - 1, now - 24 * days;
            && |hours| == (if newest <= horizon then 0 else newest - horizon + 1)
            && forall i :: 0 <= i < |hours| ==> hours[i] == newest - i
  {
    var start := now - 1;
    var end := now - days * 24;
    if cursor.Some? {
      start := cursor.value - 1;
    }
    hours := [];
    if start <= end {
      return;
    }
    var t := start;
    while t >= end
      invariant end - 1 <= t <= start && hours == HoursDownFrom(start, start - t)
      decreases t - end
    {
      hours := hours + [t];
      if t == end {
        break;
      }
      t := t - 1;
    }
  }

  /** What the runs have done so far: the hours of all completed batches, the hours of every batch that
      was started, in order, and those of the failed ones among them. */
  datatype Log = Log(done: seq<int>, handed: seq<int>, failed: set<int>)

  ghost function HandedOut(log: Log, batch: seq<int>): Log {
    log.(handed := log.handed + batch)
  }

  ghost function Failed(log: Log, batch: seq<int>): Log {
    log.(failed := log.failed + ElementsOf(batch))
  }

  ghost function Completed(log: Log, batch: seq<int>): Log {
    log.(done := log.done + batch)
  }

  class Backfiller {
    var cursor: Option<int>
    ghost const initial: Option<int>
    ghost var log: Log

    constructor (stored: Option<int>)
      ensures cursor == initial == stored && log == Log([], [], {}) && IsRecord(initial, cursor, log)
    {
      cursor := stored;
      initial := stored;
      log := Log([], [], {});
    }

    /** One run. `live` says whether the context is still live before a batch (and after the pauses
        of a full scoring queue), `completes` whether the batch goes through; the first one that does
        not ends the run, with its hours handed out but the cursor where it was. Returns how many
        batches were completed and how many started. */
    method Run(now: int, days: int, batchSize: nat, live: nat -> bool, completes: nat -> bool)
        returns (completed: nat, ghost started: nat)
      requires batchSize > 0 && IsRecord(initial, cursor, log)
      modifies this
      ensures IsRecord(initial, cursor, log)
      ensures var due := if days <= 0 then [] else DueHours(now, days, old(cursor));
              WorksThrough(due, batchSize, live, completes, completed, started, old(log), log)
    {
      if days <= 0 {
        completed, started := 0, 0;
        NothingLogged(log, []);
        return;
      }
      var hours := BackfillHours(now, days, cursor);
      GoesDown(now, days, cursor);
      hide DueHours, IsRecord, WorksThrough, Below;
      completed, started := ProcessBatches(hours, batchSize, live, completes);
    }

    /** The loop of a run over its batches. */
    method ProcessBatches(hours: seq<int>, batchSize: nat, live: nat -> bool, completes: nat -> bool)
        returns (completed: nat, ghost started: nat)
      requires batchSize > 0 && IsRecord(initial, cursor, log) && Below(cursor, hours)
      modifies this
      ensures IsRecord(initial, cursor, log)
      ensures WorksThrough(hours, batchSize, live, completes, completed, started, old(log), log)
    {
      completed, started := 0, 0;
      ghost var was := cursor;
      NothingLogged(log, hours);
      hide Reached, IsRecord, Logged, HandedOut, Failed, Completed, Below, BatchEnd;
      NoBatch(|hours|, batchSize);
      var i := 0;
      while i < |hours|
        invariant started == completed && i == Reached(|hours|, batchSize, completed) <= |hours|
        invariant cursor == CursorAt(was, hours, i)
        invariant log == Logged(old(log), hours, i, i) && IsRecord(initial, cursor, log)
        invariant forall b :: 0 <= b < completed ==> live(b) && completes(b)
        decreases |hours| - i
      {
        if !live(completed) {
          break;
        }
        started := completed + 1;
        NextBatch(|hours|, batchSize, completed);
        var end := BatchEnd(|hours|, batchSize, i);
        var batch := hours[i..end];
        BatchLogged(initial, was, old(log), hours, i, end);
        log := HandedOut(log, batch);
        if !completes(completed) {
          log := Failed(log, batch);
          return;
        }
        log := Completed(log, batch);
        cursor := Some(batch[|batch| - 1]);
        i := end;
        completed := completed + 1;
      }
    }
  }

  /** From log to log': the first `completed` batches of `due` were completed and the first `started` of
      them handed out, stopping only for a batch before which the context ended or which failed. */
  ghost predicate WorksThrough(due: seq<int>, batchSize: nat, live: nat -> bool, completes: nat -> bool,
                               completed: nat, started: nat, log: Log, log': Log) {
    var doneTo, handedTo := Reached(|due|, batchSize, completed), Reached(|due|, batchSize, started);
    && doneTo <= handedTo && log' == Logged(log, due, doneTo, handedTo)
    && (started == completed || started == completed + 1)
    && (forall b :: 0 <= b < completed ==> completes(b)) && (forall b :: 0 <= b < started ==> live(b))
    && (doneTo < |due| ==> if started == completed then !live(completed) else !completes(completed))
  }

  /** The log after a run that completed the hours up to `doneTo` and handed out those up to `handedTo`. */
  ghost function Logged(log: Log, hours: seq<int>, doneTo: nat, handedTo: nat): Log
    requires doneTo <= handedTo <= |hours|
  {
    Log(log.done + hours[..doneTo], log.handed + hours[..handedTo], log.failed + ElementsOf(hours[doneTo..handedTo]))
  }

  ghost function ElementsOf(hours: seq<int>): set<int> {
    set k | 0 <= k < |hours| :: hours[k]
  }

  function CursorAt(was: Option<int>, hours: seq<int>, i: nat): Option<int>
    requires i <= |hours|
  {
    if i == 0 then was else Some(hours[i - 1])
  }

  /** How many of `due` hours are done after some batches. */
  function Reached(due: nat, batchSize: nat, batches: nat): (n: nat)
    ensures n <= due
  {
    if batches * batchSize < due then batches * batchSize else due
  }

  function BatchEnd(due: nat, batchSize: nat, i: nat): (end: nat)
    requires i < due && batchSize > 0
    ensures i < end <= due
  {
    if i + batchSize < due then i + batchSize else due
  }

  lemma NoBatch(due: nat, batchSize: nat)
    ensures Reached(due, batchSize, 0) == 0
  {
  }

  lemma NextBatch(due: nat, batchSize: nat, batches: nat)
    requires batchSize > 0 && Reached(due, batchSize, batches) < due
    ensures var i := Reached(due, batchSize, batches);
            Reached(due, batchSize, batches + 1) == BatchEnd(due, batchSize, i)
  {
    assert (batches + 1) * batchSize == batches * batchSize + batchSize;
  }

  lemma NothingLogged(log: Log, hours: seq<int>)
    ensures Logged(log, hours, 0, 0) == log
  {
    assert ElementsOf([]) == {};
  }

  lemma LogGrows(log: Log, hours: seq<int>, i: nat, end: nat)
    requires i < end <= |hours|
    ensures var handed := HandedOut(Logged(log, hours, i, i), hours[i..end]);
            && Failed(handed, hours[i..end]) == Logged(log, hours, i, end)
            && Completed(handed, hours[i..end]) == Logged(log, hours, end, end)
  {
    assert hours[..end] == hours[..i] + hours[i..end];
    assert hours[i..i] == [] && hours[end..end] == [] && ElementsOf([]) == {};
  }

  // ---------------------------------------------------------------- no hour twice

  /** The hours of completed batches go down strictly, over all runs, and the cursor is the last of
      them. */
  ghost predicate NeverTwice(initial: Option<int>, cursor: Option<int>, done: seq<int>) {
    && (forall i, j :: 0 <= i < j < |done| ==> done[i] > done[j])
    && cursor == if done == [] then initial else Some(done[|done| - 1])
  }

  /** An hour is handed out twice only if a batch with it has failed; any other one is at the cursor or
      above it, where no later run looks. */
  ghost predicate TwiceOnlyIfFailed(cursor: Option<int>, handed: seq<int>, failed: set<int>) {
    && (forall i, j :: 0 <= i < j < |handed| && handed[i] == handed[j] ==> handed[i] in failed)
    && (forall i :: 0 <= i < |handed| && handed[i] !in failed ==> cursor.Some? && cursor.value <= handed[i])
  }

  ghost predicate IsRecord(initial: Option<int>, cursor: Option<int>, log: Log) {
    NeverTwice(initial, cursor, log.done) && TwiceOnlyIfFailed(cursor, log.handed, log.failed)
  }

  /** `hours` go down strictly, from below the cursor. */
  ghost predicate Below(cursor: Option<int>, hours: seq<int>) {
    && (forall i, j :: 0 <= i < j < |hours| ==> hours[i] > hours[j])
    && (cursor.Some? ==> forall i :: 0 <= i < |hours| ==> hours[i] < cursor.value)
  }

  lemma GoesDown(now: int, days: int, cursor: Option<int>)
    ensures Below(cursor, DueHours(now, days, cursor))
  {
  }

  lemma BatchIsBelow(was: Option<int>, hours: seq<int>, i: nat, end: nat)
    requires Below(was, hours) && i < end <= |hours|
    ensures Below(CursorAt(was, hours, i), hours[i..end])
  {
  }

  lemma BatchCompleted(initial: Option<int>, cursor: Option<int>, done: seq<int>, batch: seq<int>)
    requires NeverTwice(initial, cursor, done) && Below(cursor, batch) && batch != []
    ensures NeverTwice(initial, Some(batch[|batch| - 1]), done + batch)
  {
  }

  lemma BatchHandedOut(cursor: Option<int>, handed: seq<int>, failed: set<int>, batch: seq<int>)
    requires TwiceOnlyIfFailed(cursor, handed, failed) && Below(cursor, batch) && batch != []
    ensures TwiceOnlyIfFailed(cursor, handed + batch, failed + ElementsOf(batch))
    ensures TwiceOnlyIfFailed(Some(batch[|batch| - 1]), handed + batch, failed)
  {
    assert forall k :: 0 <= k < |batch| ==> batch[k] in ElementsOf(batch) && batch[|batch| - 1] <= batch[k];
    hide ElementsOf;
  }

  /** What is recorded stays true when a batch below the cursor is handed out, and fails or completes. */
  lemma RecordGrows(initial: Option<int>, cursor: Option<int>, log: Log, batch: seq<int>)
    requires IsRecord(initial, cursor, log) && Below(cursor, batch) && batch != []
    ensures IsRecord(initial, cursor, Failed(HandedOut(log, batch), batch))
    ensures IsRecord(initial, Some(batch[|batch| - 1]), Completed(HandedOut(log, batch), batch))
  {
    hide NeverTwice, TwiceOnlyIfFailed, Below, ElementsOf;
    BatchCompleted(initial, cursor, log.done, batch);
    BatchHandedOut(cursor, log.handed, log.failed, batch);
  }

  /** One batch of a run. */
  lemma BatchLogged(initial: Option<int>, was: Option<int>, before: Log, hours: seq<int>, i: nat, end: nat)
    requires Below(was, hours) && i < end <= |hours|
    requires IsRecord(initial, CursorAt(was, hours, i), Logged(before, hours, i, i))
    ensures var batch, log := hours[i..end], Logged(before, hours, i, i);
            && Failed(HandedOut(log, batch), batch) == Logged(before, hours, i, end)
            && Completed(HandedOut(log, batch), batch) == Logged(before, hours, end, end)
            && Some(batch[|batch| - 1]) == CursorAt(was, hours, end)
    ensures IsRecord(initial, CursorAt(was, hours, i), Logged(before, hours, i, end))
    ensures IsRecord(initial, CursorAt(was, hours, end), Logged(before, hours, end, end))
  {
    BatchIsBelow(was, hours, i, end);
    LogGrows(before, hours, i, end);
    hide Logged, Below, HandedOut, Failed, Completed, IsRecord;
    RecordGrows(initial, CursorAt(was, hours, i), Logged(before, hours, i, i), hours[i..end]);
  }

  /** Resuming at the same time from a saved cursor hands out exactly what is left of the run, but
      for one case: a single hour left over is dropped. */
  lemma ResumeYieldsSuffix(now: int, days: int, cursor: Option<int>, k: nat)
    requires 0 < k <= |DueHours(now, days, cursor)|
    ensures var due := DueHours(now, days, cursor);
            DueHours(now, days, Some(due[k - 1])) == if |due| - k == 1 then [] else due[k..]
  {
    var due := DueHours(now, days, cursor);
    var rest := DueHours(now, days, Some(due[k - 1]));
    assert |due| - k != 1 ==> |rest| == |due| - k;
  }
}

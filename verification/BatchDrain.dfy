/** One batch of the background scorer: a dispatcher that starts one worker per dequeued entry, at
    most `slots` at a time, until the batch ends or the token pool runs dry, and then puts back
    what was not settled. Dispatcher, workers, other producers of the queue and a cancellation
    interleave freely. */
module BatchDrain {
  import opened ScoringQueues

  /** How scoring one entry ended. `Dry` is the "no tokens" error, which settles nothing. */
  datatype Verdict = Scored | Skipped | Failed | Dry

  /** A worker learns its verdict, then notes it where the dispatcher can see it, and gives its slot
      back last. */
  datatype Work = Unstarted | Working | Decided(v: Verdict) | Noted(v: Verdict) | Released(v: Verdict)

  datatype Phase =
    | LoopTop           // before the context and dry checks of an iteration
    | Admitting         // checks passed, waiting for a slot
    | Joining           // loop left, waiting for the workers
    | Requeueing(i: nat)
    | Finished

  datatype State = State(
    queue: Table,
    batch: seq<Entry>,
    slots: nat,
    work: seq<Work>,
    next: nat,
    phase: Phase,
    dry: bool,
    cancelled: bool,
    requeued: set<nat>,     // entries put back
    refused: set<nat>,      // entries whose enqueue failed
    startedDry: nat)        // workers started after the first "no tokens" was noted

  datatype Step =
    | Cancel
    | CheckLoop
    | Acquire
    | NoticeCancel
    | Decide(i: nat, v: Verdict)
    | Note(i: nat)
    | Release(i: nat)
    | Join
    | Requeue(succeeds: bool, now: int)
    | OtherEnqueue(key: Key, priority: int, now: int)

  ghost function InFlight(s: State): set<nat> {
    Busy(s.work)
  }

  predicate IsBusy(w: Work) {
    w.Working? || w.Decided? || w.Noted?
  }

  ghost function Busy(work: seq<Work>): set<nat> {
    set i: nat | i < |work| && IsBusy(work[i])
  }

  predicate Settled(w: Work) {
    w.Released? && !w.v.Dry?
  }

  ghost predicate Enabled(s: State, step: Step) {
    match step
    case Cancel => true
    case CheckLoop => s.phase.LoopTop?
    case Acquire => s.phase.Admitting? && s.next < |s.batch| && |InFlight(s)| < s.slots
    case NoticeCancel => s.phase.Admitting? && s.cancelled
    case Decide(i, _) => i < |s.work| && s.work[i].Working?
    case Note(i) => i < |s.work| && s.work[i].Decided?
    case Release(i) => i < |s.work| && s.work[i].Noted?
    case Join => s.phase.Joining? && InFlight(s) == {}
    case Requeue(_, _) => s.phase.Requeueing?
    case OtherEnqueue(_, _, _) => true
  }

  ghost function Apply(s: State, step: Step): (s': State)
    requires Enabled(s, step) && |s.work| == |s.batch|
    ensures |s'.work| == |s'.batch|
  {
    match step
    case Cancel => s.(cancelled := true)
    case CheckLoop => s.(phase := if s.next >= |s.batch| || s.cancelled || s.dry then Joining else Admitting)
    case Acquire =>
      if s.cancelled then s.(phase := Joining)
      else s.(work := s.work[s.next := Working], next := s.next + 1, phase := LoopTop,
              startedDry := s.startedDry + if s.dry then 1 else 0)
    case NoticeCancel => s.(phase := Joining)
    case Decide(i, v) => s.(work := s.work[i := Decided(v)])
    case Note(i) => s.(work := s.work[i := Noted(s.work[i].v)], dry := s.dry || s.work[i].v.Dry?)
    case Release(i) => s.(work := s.work[i := Released(s.work[i].v)])
    case Join => s.(phase := if s.dry then Requeueing(0) else Finished)
    case Requeue(succeeds, now) =>
      var i := s.phase.i;
      if i >= |s.batch| then s.(phase := Finished)
      else if Settled(s.work[i]) then s.(phase := Requeueing(i + 1))
      else if succeeds then
        s.(queue := Enqueued(s.queue, s.batch[i].key, s.batch[i].row.priority, now),
           requeued := s.requeued + {i}, phase := Requeueing(i + 1))
      else s.(refused := s.refused + {i}, phase := Requeueing(i + 1))
    case OtherEnqueue(k, priority, now) => s.(queue := Enqueued(s.queue, k, priority, now))
  }

  /** The state right after the batch was dequeued. */
  ghost function Start(queue: Table, batch: seq<Entry>, slots: nat): State {
    State(queue, batch, slots, seq(|batch|, _ => Unstarted), 0, LoopTop, false, false, {}, {}, 0)
  }

  ghost predicate IsRun(s: State, steps: seq<Step>)
    requires |s.work| == |s.batch|
    decreases |steps|
  {
    steps != [] ==> Enabled(s, steps[0]) && IsRun(Apply(s, steps[0]), steps[1..])
  }

  ghost function Run(s: State, steps: seq<Step>): State
    requires |s.work| == |s.batch| && IsRun(s, steps)
    decreases |steps|
  {
    if steps == [] then s else Run(Apply(s, steps[0]), steps[1..])
  }

  // ---------------------------------------------------------------- what every step keeps

  /** Workers are started in batch order, and only an unfinished, live, not yet dry batch goes on. */
  ghost predicate WorkFollowsDispatch(s: State) {
    && |s.work| == |s.batch| && s.next <= |s.batch|
    && (forall i :: 0 <= i < |s.work| ==> (s.work[i].Unstarted? <==> s.next <= i))
    && (forall i :: 0 <= i < |s.work| ==> (s.work[i].Noted? || s.work[i].Released?) && s.work[i].v.Dry? ==> s.dry)
    && (s.phase.Admitting? ==> s.next < |s.batch|)
    && (s.phase.Joining? || s.phase.Requeueing? || s.phase.Finished? ==> s.next == |s.batch| || s.cancelled || s.dry)
  }

  /** At most `slots` workers at once, and none left once the batch has been joined. */
  ghost predicate SlotsAreBounded(s: State) {
    && |InFlight(s)| <= s.slots
    && (s.phase.Requeueing? || s.phase.Finished? ==> InFlight(s) == {})
  }

  /** Once the first "no tokens" has been noted, at most the one worker starts whose entry had already
      passed the dry check. */
  ghost predicate StopsWhenDry(s: State) {
    s.startedDry <= 1 && (s.startedDry == 1 ==> s.dry && !s.phase.Admitting?)
  }

  /** The entries up to `n` that are not settled have been put back or refused, and no other. */
  ghost predicate HandledUpTo(s: State, n: nat) {
    && s.requeued !! s.refused
    && forall i: nat :: i in s.requeued || i in s.refused <==> i < n && i < |s.work| && !Settled(s.work[i])
  }

  ghost predicate RequeueFollowsWork(s: State) {
    && (s.phase.Requeueing? ==> s.dry && s.phase.i <= |s.batch| && HandledUpTo(s, s.phase.i))
    && (s.phase.Finished? ==> HandledUpTo(s, if s.dry then |s.batch| else 0))
    && (!s.phase.Requeueing? && !s.phase.Finished? ==> s.requeued == s.refused == {})
  }

  /** Entry `i` is on the queue, at least as urgent as it was when dequeued. */
  ghost predicate BackOnQueue(s: State, i: nat)
    requires i < |s.batch|
  {
    s.batch[i].key in s.queue && NoHigher(s.queue[s.batch[i].key], s.batch[i].row)
  }

  ghost predicate RequeuedIsQueued(s: State) {
    forall i: nat :: i in s.requeued ==> i < |s.batch| && BackOnQueue(s, i)
  }

  ghost predicate Invariant(s: State) {
    && WorkFollowsDispatch(s)
    && SlotsAreBounded(s)
    && StopsWhenDry(s)
    && RequeueFollowsWork(s)
    && RequeuedIsQueued(s)
  }

  lemma StartIsInvariant(queue: Table, batch: seq<Entry>, slots: nat)
    ensures Invariant(Start(queue, batch, slots))
  {
    assert InFlight(Start(queue, batch, slots)) == {};
  }

  lemma WorkKeepsFollowing(s: State, step: Step)
    requires WorkFollowsDispatch(s) && Enabled(s, step)
    ensures WorkFollowsDispatch(Apply(s, step))
  {
  }

  lemma WorkStartsOrEnds(work: seq<Work>, i: nat, w: Work)
    requires i < |work|
    ensures Busy(work[i := w]) == if IsBusy(w) then Busy(work) + {i} else Busy(work) - {i}
    ensures i in Busy(work) <==> IsBusy(work[i])
  {
  }

  lemma BusySize(work: seq<Work>, i: nat, w: Work)
    requires i < |work|
    ensures |Busy(work[i := w])| <= |Busy(work)| + if IsBusy(w) && !IsBusy(work[i]) then 1 else 0
    ensures IsBusy(work[i]) ==> Busy(work) != {}
  {
    hide Busy;
    WorkStartsOrEnds(work, i, w);
    if IsBusy(w) && IsBusy(work[i]) {
      assert Busy(work) + {i} == Busy(work);
    }
  }

  lemma SlotsStayBounded(s: State, step: Step)
    requires WorkFollowsDispatch(s) && SlotsAreBounded(s) && Enabled(s, step)
    ensures SlotsAreBounded(Apply(s, step))
  {
    hide Busy;
    match step
    case Acquire => BusySize(s.work, s.next, Working);
    case Release(i) => BusySize(s.work, i, Released(s.work[i].v));
    case Decide(i, v) => BusySize(s.work, i, Decided(v));
    case Note(i) => BusySize(s.work, i, Noted(s.work[i].v));
    case _ =>
  }

  lemma RequeueKeepsFollowing(s: State, step: Step)
    requires WorkFollowsDispatch(s) && SlotsAreBounded(s) && RequeueFollowsWork(s) && Enabled(s, step)
    ensures RequeueFollowsWork(Apply(s, step))
  {
    assert step.Decide? || step.Note? || step.Release? ==> step.i in InFlight(s);
  }

  lemma StepKeepsInvariant(s: State, step: Step)
    requires Invariant(s) && Enabled(s, step)
    ensures Invariant(Apply(s, step)) && Apply(s, step).batch == s.batch && Apply(s, step).slots == s.slots
    ensures forall k :: k in s.queue ==> k in Apply(s, step).queue && NoHigher(Apply(s, step).queue[k], s.queue[k])
  {
    assert |s.work| == |s.batch|;
    hide WorkFollowsDispatch, SlotsAreBounded, StopsWhenDry, RequeueFollowsWork, RequeuedIsQueued, Apply;
    WorkKeepsFollowing(s, step);
    SlotsStayBounded(s, step);
    StillStopsWhenDry(s, step);
    RequeueKeepsFollowing(s, step);
    RequeuedStaysQueued(s, step);
    QueueKeepsUrgency(s, step);
  }

  lemma StillStopsWhenDry(s: State, step: Step)
    requires |s.work| == |s.batch| && StopsWhenDry(s) && Enabled(s, step)
    ensures StopsWhenDry(Apply(s, step))
  {
  }

  lemma QueueKeepsUrgency(s: State, step: Step)
    requires |s.work| == |s.batch| && Enabled(s, step)
    ensures Apply(s, step).batch == s.batch && Apply(s, step).slots == s.slots
    ensures forall k :: k in s.queue ==> k in Apply(s, step).queue && NoHigher(Apply(s, step).queue[k], s.queue[k])
  {
    hide Enqueued;
  }

  lemma RequeuedStaysQueued(s: State, step: Step)
    requires |s.work| == |s.batch| && RequeuedIsQueued(s) && Enabled(s, step)
    ensures RequeuedIsQueued(Apply(s, step))
  {
    hide Enqueued;
  }

  lemma {:induction false} RunKeepsInvariant(s: State, steps: seq<Step>)
    requires |s.work| == |s.batch| && Invariant(s) && IsRun(s, steps)
    ensures Invariant(Run(s, steps)) && Run(s, steps).batch == s.batch && Run(s, steps).slots == s.slots
    ensures forall k :: k in s.queue ==> k in Run(s, steps).queue && NoHigher(Run(s, steps).queue[k], s.queue[k])
    decreases |steps|
  {
    if steps != [] {
      StepKeepsInvariant(s, steps[0]);
      RunKeepsInvariant(Apply(s, steps[0]), steps[1..]);
    }
  }

  // ---------------------------------------------------------------- what becomes of a batch

  ghost function Of(s: State, v: Verdict): set<nat> {
    set i: nat | i < |s.work| && s.work[i] == Released(v)
  }

  /** Not settled and not put back. */
  ghost function Lost(s: State): set<nat> {
    set i: nat | i < |s.work| && !Settled(s.work[i]) && i !in s.requeued
  }

  /** In every interleaving, at every moment: at most `slots` workers run, and at most one was
      started after the first "no tokens" was noted. */
  lemma ConcurrencyIsBounded(queue: Table, batch: seq<Entry>, slots: nat, steps: seq<Step>)
    requires IsRun(Start(queue, batch, slots), steps)
    ensures var s := Run(Start(queue, batch, slots), steps);
            |InFlight(s)| <= s.slots == slots && s.startedDry <= 1
  {
    StartIsInvariant(queue, batch, slots);
    RunKeepsInvariant(Start(queue, batch, slots), steps);
  }

  /** The dispatcher going round for `n` more entries. */
  function StartMore(n: nat): seq<Step> {
    if n == 0 then [] else [CheckLoop] + ([Acquire] + StartMore(n - 1))
  }

  /** Nothing keeps the dispatcher from starting the next entry, and the ones after it. */
  ghost predicate MayGoOn(s: State) {
    && |s.work| == |s.batch| && s.phase.LoopTop? && !s.dry && !s.cancelled
    && |InFlight(s)| <= s.next && |s.batch| <= s.slots
  }

  lemma NextMayStart(s: State)
    requires MayGoOn(s) && s.next < |s.batch|
    ensures Enabled(s, CheckLoop) && Enabled(Apply(s, CheckLoop), Acquire)
    ensures var s2 := Apply(Apply(s, CheckLoop), Acquire);
            MayGoOn(s2) && s2.batch == s.batch && s2.next == s.next + 1 && s2.work == s.work[s.next := Working]
  {
    hide Busy;
    BusySize(s.work, s.next, Working);
  }

  lemma {:induction false} RestMayStart(s: State, n: nat)
    requires MayGoOn(s) && s.next + n == |s.batch|
    ensures IsRun(s, StartMore(n))
    ensures var s' := Run(s, StartMore(n));
            && |s'.work| == |s.work|
            && forall i :: 0 <= i < |s.work| ==> s'.work[i] == if i < s.next then s.work[i] else Working
    decreases n
  {
    if n > 0 {
      NextMayStart(s);
      hide Apply, Enabled, InFlight;
      var s1 := Apply(s, CheckLoop);
      RestMayStart(Apply(s1, Acquire), n - 1);
      RunAfter(s1, Acquire, StartMore(n - 1));
      RunAfter(s, CheckLoop, [Acquire] + StartMore(n - 1));
    }
  }

  lemma RunAfter(s: State, step: Step, rest: seq<Step>)
    requires |s.work| == |s.batch| && Enabled(s, step) && IsRun(Apply(s, step), rest)
    ensures IsRun(s, [step] + rest) && Run(s, [step] + rest) == Run(Apply(s, step), rest)
  {
    hide Enabled, Apply;
    assert ([step] + rest)[1..] == rest;
  }

  /** Until it is noted nothing stops the dispatcher: with enough slots, every other entry of the batch
      may start after the first one has met "no tokens". */
  lemma AllMayStartUntilNoted(queue: Table, batch: seq<Entry>, slots: nat)
    requires 0 < |batch| <= slots
    ensures var steps := [CheckLoop] + ([Acquire] + ([Decide(0, Dry)] + StartMore(|batch| - 1)));
            var s := Start(queue, batch, slots);
            && IsRun(s, steps) && |Run(s, steps).work| == |batch|
            && Run(s, steps).work[0] == Decided(Dry)
            && forall i :: 0 < i < |batch| ==> Run(s, steps).work[i] == Working
  {
    var s, more := Start(queue, batch, slots), StartMore(|batch| - 1);
    StartIsInvariant(queue, batch, slots);
    assert InFlight(s) == {};
    hide Busy;
    WorkStartsOrEnds(s.work, 0, Working);
    var s1 := Apply(s, CheckLoop);
    var s2 := Apply(s1, Acquire);
    WorkStartsOrEnds(s2.work, 0, Decided(Dry));
    var s3 := Apply(s2, Decide(0, Dry));
    assert |InFlight(s3)| <= 1;
    RestMayStart(s3, |batch| - 1);
    RunAfter(s2, Decide(0, Dry), more);
    RunAfter(s1, Acquire, [Decide(0, Dry)] + more);
    RunAfter(s, CheckLoop, [Acquire] + ([Decide(0, Dry)] + more));
  }

  /** Every entry of a finished batch is exactly one of scored, skipped, failed, back on the queue
      or lost; and it is lost exactly when it is unsettled and either no requeue took place or its
      own enqueue failed. Without a cancellation and without a failing enqueue none is lost. */
  lemma EveryEntryAccountedFor(queue: Table, batch: seq<Entry>, slots: nat, steps: seq<Step>)
    requires IsRun(Start(queue, batch, slots), steps)
    ensures var s := Run(Start(queue, batch, slots), steps);
            s.phase.Finished? ==>
              && |Of(s, Scored)| + |Of(s, Skipped)| + |Of(s, Failed)| + |s.requeued| + |Lost(s)| == |batch|
              && |s.work| == |s.batch| == |batch|
              && (forall i: nat :: i < |batch| ==>
                    && (Settled(s.work[i]) <==> i !in s.requeued && i !in Lost(s))
                    && (i in s.requeued ==> i !in Lost(s) && BackOnQueue(s, i))
                    && (i in Lost(s) <==> !Settled(s.work[i]) && (!s.dry || i in s.refused)))
              && (!s.cancelled && s.refused == {} ==> Lost(s) == {})
  {
    StartIsInvariant(queue, batch, slots);
    RunKeepsInvariant(Start(queue, batch, slots), steps);
    var s := Run(Start(queue, batch, slots), steps);
    if s.phase.Finished? {
      FatesPartition(s);
      if !s.cancelled && s.refused == {} {
        forall i: nat | i < |batch| ensures i !in Lost(s) {
          assert i !in InFlight(s);
        }
        assert Lost(s) == {};
      }
    }
  }

  ghost function AllSettled(work: seq<Work>): set<nat> {
    set i: nat | i < |work| && Settled(work[i])
  }

  ghost function AllUnsettled(work: seq<Work>): set<nat> {
    set i: nat | i < |work| && !Settled(work[i])
  }

  lemma SettledIs(s: State)
    ensures AllSettled(s.work) == Of(s, Scored) + Of(s, Skipped) + Of(s, Failed)
  {
  }

  lemma SettledSize(s: State)
    ensures |AllSettled(s.work)| == |Of(s, Scored)| + |Of(s, Skipped)| + |Of(s, Failed)|
  {
    var good, bad := Of(s, Scored) + Of(s, Skipped), Of(s, Failed);
    assert Of(s, Scored) !! Of(s, Skipped) && good !! bad;
    SettledIs(s);
    hide Of, AllSettled;
  }

  lemma UnsettledSize(s: State)
    requires s.requeued <= AllUnsettled(s.work)
    ensures |AllUnsettled(s.work)| == |s.requeued| + |Lost(s)|
  {
    assert AllUnsettled(s.work) == s.requeued + Lost(s);
  }

  lemma FatesPartition(s: State)
    requires Invariant(s) && s.phase.Finished?
    ensures |Of(s, Scored)| + |Of(s, Skipped)| + |Of(s, Failed)| + |s.requeued| + |Lost(s)| == |s.batch|
  {
    SettledSize(s);
    UnsettledSize(s);
    SplitSize(s.work);
  }

  lemma {:induction false} SplitSize(work: seq<Work>)
    ensures |AllSettled(work)| + |AllUnsettled(work)| == |work|
    decreases |work|
  {
    if |work| > 0 {
      var n := |work| - 1;
      var shorter := work[..n];
      SplitSize(shorter);
      assert AllSettled(work) == AllSettled(shorter) + if Settled(work[n]) then {n} else {};
      assert AllUnsettled(work) == AllUnsettled(shorter) + if Settled(work[n]) then {} else {n};
    }
  }

  /** Dequeuing and draining a batch loses no contributor: with a live context and working
      enqueues, everyone who was queued before is still queued, at least as urgent, or has been
      settled. */
  lemma NoContributorIsLost(t: Table, limit: nat, batch: seq<Entry>, slots: nat, steps: seq<Step>)
    requires Claims(t, limit, batch)
    requires IsRun(Start(t - KeysOf(batch), batch, slots), steps)
    ensures var s := Run(Start(t - KeysOf(batch), batch, slots), steps);
            s.phase.Finished? && !s.cancelled && s.refused == {} ==>
              && |s.work| == |batch|
              && forall k :: k in t ==>
                || (k in s.queue && NoHigher(s.queue[k], t[k]))
                || exists i: nat :: i < |batch| && batch[i].key == k && Settled(s.work[i])
  {
    var queue := t - KeysOf(batch);
    var s := Run(Start(queue, batch, slots), steps);
    StartIsInvariant(queue, batch, slots);
    RunKeepsInvariant(Start(queue, batch, slots), steps);
    EveryEntryAccountedFor(queue, batch, slots, steps);
    if s.phase.Finished? && !s.cancelled && s.refused == {} {
      forall k | k in t && k !in queue ensures
          || (k in s.queue && NoHigher(s.queue[k], t[k]))
          || exists i: nat :: i < |batch| && batch[i].key == k && Settled(s.work[i])
      {
        var i :| 0 <= i < |batch| && batch[i].key == k;
        assert i !in Lost(s);
      }
    }
  }

  /** A live context is needed: a batch cancelled before its first iteration is gone. */
  lemma CancelledBatchIsLost(queue: Table, e: Entry, slots: nat)
    ensures var s, steps := Start(queue, [e], slots), [Cancel, CheckLoop, Join];
            IsRun(s, steps) && Run(s, steps).phase.Finished? && Lost(Run(s, steps)) == {0}
                && Run(s, steps).queue == queue
  {
    var s := Start(queue, [e], slots);
    var s2 := Apply(Apply(s, Cancel), CheckLoop);
    assert InFlight(s2) == {};
    assert [Cancel, CheckLoop, Join][1..] == [CheckLoop, Join];
    assert [CheckLoop, Join][1..] == [Join];
    assert [Join][1..] == [];
    var s3 := Apply(s2, Join);
    assert IsRun(s2, [Join]) && Run(s2, [Join]) == s3;
    assert Lost(s3) == {0};
  }

  // ---------------------------------------------------------------- what is queued, and what is started

  /** `priority` is the one that contributor `k` had on the queue at first, was dequeued with and put back
      under, or was queued under by another producer. */
  ghost predicate IsAskedFor(queue: Table, s: State, others: set<(Key, int)>, k: Key, priority: int) {
    || (k in queue && queue[k].priority == priority)
    || (k, priority) in others
    || exists i: nat :: i in s.requeued && i < |s.batch| && s.batch[i].key == k && s.batch[i].row.priority == priority
  }

  /** No contributor is on the queue under a priority that nobody asked for. */
  ghost predicate NothingInvented(queue: Table, s: State, others: set<(Key, int)>) {
    forall k :: k in s.queue ==> IsAskedFor(queue, s, others, k, s.queue[k].priority)
  }

  /** What other producers queue in the course of a run. */
  function Others(steps: seq<Step>): set<(Key, int)> {
    set i | 0 <= i < |steps| && steps[i].OtherEnqueue? :: (steps[i].key, steps[i].priority)
  }

  function With(others: set<(Key, int)>, step: Step): set<(Key, int)> {
    if step.OtherEnqueue? then others + {(step.key, step.priority)} else others
  }

  lemma StepInventsNothing(queue: Table, s: State, others: set<(Key, int)>, step: Step)
    requires |s.work| == |s.batch| && Enabled(s, step) && NothingInvented(queue, s, others)
    ensures NothingInvented(queue, Apply(s, step), With(others, step))
  {
    var s', others' := Apply(s, step), With(others, step);
    forall k | k in s'.queue ensures IsAskedFor(queue, s', others', k, s'.queue[k].priority) {
      if k in s.queue && s'.queue[k].priority == s.queue[k].priority {
        assert IsAskedFor(queue, s, others, k, s.queue[k].priority);
      } else if step.Requeue? {
        assert s.phase.i in s'.requeued && s'.batch[s.phase.i].key == k;
      }
    }
  }

  lemma {:induction false} RunInventsNothing(queue: Table, s: State, others: set<(Key, int)>, steps: seq<Step>)
    requires |s.work| == |s.batch| && IsRun(s, steps) && NothingInvented(queue, s, others)
    ensures NothingInvented(queue, Run(s, steps), others + Others(steps))
    decreases |steps|
  {
    hide NothingInvented, Apply, Enabled;
    if steps == [] {
      assert others + Others([]) == others;
    } else {
      StepInventsNothing(queue, s, others, steps[0]);
      RunInventsNothing(queue, Apply(s, steps[0]), With(others, steps[0]), steps[1..]);
      OthersOneMore(steps);
      assert With(others, steps[0]) + Others(steps[1..]) == others + Others(steps);
    }
  }

  lemma OthersOneMore(steps: seq<Step>)
    requires steps != []
    ensures Others(steps) == With({}, steps[0]) + Others(steps[1..])
  {
    var rest := steps[1..];
    forall x | x in Others(rest) ensures x in Others(steps) {
      var i :| 0 <= i < |rest| && rest[i].OtherEnqueue? && (rest[i].key, rest[i].priority) == x;
      assert steps[i + 1] == rest[i];
    }
  }

  /** Nobody is put back more or less urgent than before: a contributor dequeued once and queued by nobody
      else comes back under exactly the priority it had. */
  lemma RequeueKeepsPriority(queue: Table, batch: seq<Entry>, slots: nat, steps: seq<Step>, i: nat)
    requires IsRun(Start(queue, batch, slots), steps) && DistinctKeys(batch) && i < |batch|
    requires batch[i].key !in queue && forall p :: (batch[i].key, p) !in Others(steps)
    ensures var s := Run(Start(queue, batch, slots), steps);
            if i in s.requeued then batch[i].key in s.queue && s.queue[batch[i].key].priority == batch[i].row.priority
            else batch[i].key !in s.queue
  {
    var s0 := Start(queue, batch, slots);
    StartIsInvariant(queue, batch, slots);
    RunKeepsInvariant(s0, steps);
    RunInventsNothing(queue, s0, {}, steps);
    var s, k := Run(s0, steps), batch[i].key;
    assert i in s.requeued ==> BackOnQueue(s, i);
    hide Run, IsRun, Invariant, Others;
    if k in s.queue {
      assert IsAskedFor(queue, s, {} + Others(steps), k, s.queue[k].priority);
    }
  }

  /** Once the context is cancelled no further entry is started. */
  lemma {:induction false} NoneStartsAfterCancel(s: State, steps: seq<Step>)
    requires |s.work| == |s.batch| && IsRun(s, steps) && s.cancelled
    ensures Run(s, steps).next == s.next && Run(s, steps).cancelled
    decreases |steps|
  {
    if steps != [] {
      NoneStartsAfterCancel(Apply(s, steps[0]), steps[1..]);
    }
  }
}

/** The digest sweep and the key/value table that holds the time of the last one. Times are
    nanoseconds since the Unix epoch. */
module Digests {
  import opened Clock
  import opened Options

  const DAY := 24 * 3600 * SECOND
  const DIGEST_INTERVAL := DAY
  const DIGEST_STATE_KEY := "digest_email_sweep"

  /** A time as it is written and read back: whole seconds. */
  function ToSecond(t: int): int {
    t - t % SECOND
  }

  class SyncState {
    /** Seconds since the epoch. */
    var rows: map<string, int>

    constructor ()
      ensures rows == map[]
    {
      rows := map[];
    }

    method SaveSyncState(key: string, val: int)
      modifies this
      ensures Stored(key) == Some(ToSecond(val))
      ensures Stored(key).value % 1_000_000_000 == 0 && Stored(key).value <= val < Stored(key).value + 1_000_000_000
      ensures forall other :: other != key ==> Stored(other) == old(Stored(other))
    {
      rows := rows[key := val / SECOND];
    }

    function Stored(key: string): Option<int>
      reads this
    {
      if key in rows then Some(rows[key] * SECOND) else None
    }

    method GetSyncState(key: string) returns (t: Option<int>)
      ensures t == Stored(key)
    {
      if key in rows {
        return Some(rows[key] * SECOND);
      }
      return None;
    }
  }

  function DayOf(t: int): int {
    t / DAY
  }

  /** 0 is Sunday; the epoch was a Thursday. */
  function Weekday(day: int): int {
    (day + 4) % 7
  }

  /** Days are of twenty-four hours. */
  lemma DaysInPlainTerms(t: int)
    ensures DayOf(t) * 86_400_000_000_000 <= t < (DayOf(t) + 1) * 86_400_000_000_000
  {
  }

  /** The days of the week follow one another, and day zero, the first of January 1970, was a Thursday. */
  lemma WeekdaysGoRound(day: int)
    ensures 0 <= Weekday(day) < 7 && Weekday(0) == 4
    ensures Weekday(day + 1) == if Weekday(day) == 6 then 0 else Weekday(day) + 1
    ensures Weekday(day + 7) == Weekday(day)
  {
  }

  type TenantID = seq<bv8>

  function FnvStep(hash: bv32, b: bv8): bv32 {
    (hash ^ (b as bv32)) * 16777619
  }

  function Fnv32a(bytes: seq<bv8>): bv32 {
    if bytes == [] then 2166136261 else FnvStep(Fnv32a(bytes[..|bytes| - 1]), bytes[|bytes| - 1])
  }

  lemma Fnv32aOneMore(bytes: seq<bv8>, b: bv8)
    ensures Fnv32a(bytes + [b]) == FnvStep(Fnv32a(bytes), b)
  {
    hide FnvStep;
    assert (bytes + [b])[..|bytes|] == bytes;
  }

  /** The published values of 32-bit FNV-1a for the empty string, "a" and "foobar". */
  lemma Fnv32aIsStandard()
    ensures Fnv32a([]) == 0x811c_9dc5 && Fnv32a([0x61]) == 0xe40c_292c
    ensures Fnv32a([0x66] + [0x6f] + [0x6f] + [0x62] + [0x61] + [0x72]) == 0xbf9c_f968
    ensures DigestDay([0x61]) == 0xe40c_292c % 7
    ensures DigestDay([0x66] + [0x6f] + [0x6f] + [0x62] + [0x61] + [0x72]) == 0xbf9c_f968 % 7
  {
    assert FnvStep(0x811c_9dc5, 0x61) == 0xe40c_292c;
    assert FnvStep(0x811c_9dc5, 0x66) == 0xe30c_2799 && FnvStep(0xe30c_2799, 0x6f) == 0x6222_e842;
    assert FnvStep(0x6222_e842, 0x6f) == 0xa9f3_7ed7 && FnvStep(0xa9f3_7ed7, 0x62) == 0x3f50_76ef;
    assert FnvStep(0x3f50_76ef, 0x61) == 0x39aa_a18a && FnvStep(0x39aa_a18a, 0x72) == 0xbf9c_f968;
    hide FnvStep;
    Fnv32aOneMore([], 0x61);
    Fnv32aOneMore([], 0x66);
    assert [] + [0x61] == [0x61] && [] + [0x66] == [0x66];
    hide Fnv32a;
    Fnv32aOneMore([0x66], 0x6f);
    Fnv32aOneMore([0x66] + [0x6f], 0x6f);
    Fnv32aOneMore([0x66] + [0x6f] + [0x6f], 0x62);
    Fnv32aOneMore([0x66] + [0x6f] + [0x6f] + [0x62], 0x61);
    Fnv32aOneMore([0x66] + [0x6f] + [0x6f] + [0x62] + [0x61], 0x72);
  }

  /** The weekday on which a tenant gets its digest. */
  function DigestDay(tenant: TenantID): (day: int)
    ensures 0 <= day < 7
  {
    Fnv32a(tenant) as int % 7
  }

  /** One digest: `day` is the day that the sweep took it to be, `sentAt` when its mail went out. */
  datatype Digest = Digest(tenant: TenantID, day: int, sentAt: int)

  /** All that one sweep takes from outside. The clock is read on entry, once more for the weekday
      before any mail is sent, and again when the sweep is recorded. `targets` is `None` when they
      cannot be read, `hasKey` says whether mail is configured, `wanted` which targets pass the plan
      and dry-run filters, and `delivers` for which of them a mail goes out, and when. */
  datatype Sweep = Sweep(
    now: int,
    sendAt: int,
    saveAt: int,
    hasKey: bool,
    targets: Option<seq<TenantID>>,
    wanted: TenantID -> bool,
    delivers: TenantID -> Option<int>)

  /** The clock does not go back, and no target is listed twice. */
  ghost predicate InOrder(x: Sweep) {
    && x.now <= x.sendAt <= x.saveAt
    && (forall t :: x.delivers(t).Some? ==> x.sendAt <= x.delivers(t).value <= x.saveAt)
    && (x.targets.Some? ==>
          forall i, j :: 0 <= i < j < |x.targets.value| ==> x.targets.value[i] != x.targets.value[j])
  }

  predicate IsDue(x: Sweep, last: Option<int>) {
    last.None? || x.now - last.value >= DIGEST_INTERVAL
  }

  /** The sweep sends `d`, when it gets as far as sending any. */
  ghost predicate Sends(x: Sweep, d: Digest) {
    && x.targets.Some? && d.tenant in x.targets.value && x.wanted(d.tenant)
    && d.day == DayOf(x.sendAt) && Weekday(d.day) == DigestDay(d.tenant)
    && x.delivers(d.tenant) == Some(d.sentAt)
  }

  /** What a sweep sends and records, given what was sent and recorded before. */
  ghost predicate SweepsTo(x: Sweep, sent: seq<Digest>, last: Option<int>, sent': seq<Digest>, last': Option<int>) {
    && sent <= sent'
    && (forall d: Digest :: d in sent'[|sent|..] <==> IsDue(x, last) && x.hasKey && Sends(x, d))
    && last' == if IsDue(x, last) && (!x.hasKey || x.targets.Some?) then Some(ToSecond(x.saveAt)) else last
  }

  /** For a day after the recorded sweep nothing is sent and nothing recorded. */
  lemma NoSweepWithinADay(x: Sweep, sent: seq<Digest>, last: Option<int>, sent': seq<Digest>, last': Option<int>)
    requires SweepsTo(x, sent, last, sent', last')
    requires last.Some? && x.now < last.value + 86_400_000_000_000
    ensures sent' == sent && last' == last
  {
    SomethingNew(sent, sent');
  }

  lemma SomethingNew(sent: seq<Digest>, sent': seq<Digest>)
    requires sent <= sent'
    ensures sent' == sent || exists d :: d in sent'[|sent|..]
  {
    if |sent'| > |sent| {
      assert sent'[|sent|] in sent'[|sent|..];
    }
  }

  /** A sweep that gets as far as its targets sends a mail to exactly the wanted ones whose day it is, as
      far as a mail goes out, and records the time at which it ends. */
  lemma SweepReaches(x: Sweep, sent: seq<Digest>, last: Option<int>, sent': seq<Digest>, last': Option<int>,
                     t: TenantID)
    requires SweepsTo(x, sent, last, sent', last') && x.hasKey && x.targets.Some?
    requires last.None? || last.value + 86_400_000_000_000 <= x.now
    ensures (exists d :: d in sent'[|sent|..] && d.tenant == t) <==>
              t in x.targets.value && x.wanted(t) && x.delivers(t).Some? && Weekday(DayOf(x.sendAt)) == DigestDay(t)
    ensures last'.Some? && last'.value <= x.saveAt < last'.value + 1_000_000_000
  {
    if x.delivers(t).Some? {
      var d := Digest(t, DayOf(x.sendAt), x.delivers(t).value);
      assert d in sent'[|sent|..] <==> Sends(x, d);
    }
  }

  /** Without a key for the mail service a due sweep is recorded as well, though nothing is sent; when the
      targets cannot be read it is not. */
  lemma SweepSendsNothing(x: Sweep, sent: seq<Digest>, last: Option<int>, sent': seq<Digest>, last': Option<int>)
    requires SweepsTo(x, sent, last, sent', last') && (!x.hasKey || x.targets.None?)
    requires last.None? || last.value + 86_400_000_000_000 <= x.now
    ensures sent' == sent
    ensures x.hasKey ==> last' == last
    ensures !x.hasKey ==> last'.Some? && last'.value <= x.saveAt < last'.value + 1_000_000_000
  {
    SomethingNew(sent, sent');
  }

  class Sweeper {
    const store: SyncState
    ghost var sent: seq<Digest>

    ghost predicate Valid()
      reads this, store
    {
      IsWeekly(sent, store.Stored(DIGEST_STATE_KEY))
    }

    constructor ()
      ensures Valid() && fresh(store) && sent == []
    {
      store := new SyncState();
      sent := [];
    }

    method MaybeSendDigests(x: Sweep)
      requires Valid() && InOrder(x)
      modifies this, store
      ensures Valid()
      ensures SweepsTo(x, old(sent), old(store.Stored(DIGEST_STATE_KEY)), sent, store.Stored(DIGEST_STATE_KEY))
    {
      var last := store.GetSyncState(DIGEST_STATE_KEY);
      if last.Some? && x.now - last.value < DIGEST_INTERVAL {
        return;
      }
      if !x.hasKey {
        SweepRecorded(x, sent, last, []);
        assert sent + [] == sent;
        store.SaveSyncState(DIGEST_STATE_KEY, x.saveAt);
        return;
      }
      if x.targets.None? {
        return;
      }
      var today := Weekday(DayOf(x.sendAt));
      ghost var before, batch := sent, [];
      for i := 0 to |x.targets.value|
        invariant sent == before + batch && store.Stored(DIGEST_STATE_KEY) == last
        invariant forall d: Digest :: d in batch <==> d.tenant in x.targets.value[..i] && Sends(x, d)
        invariant forall i, j :: 0 <= i < j < |batch| ==> batch[i].tenant != batch[j].tenant
      {
        var t := x.targets.value[i];
        assert x.targets.value[..i + 1] == x.targets.value[..i] + [t];
        assert t !in x.targets.value[..i];
        if !x.wanted(t) || DigestDay(t) != today {
          continue;
        }
        if x.delivers(t).Some? {
          batch := batch + [Digest(t, DayOf(x.sendAt), x.delivers(t).value)];
          sent := sent + [Digest(t, DayOf(x.sendAt), x.delivers(t).value)];
        }
      }
      assert x.targets.value[..|x.targets.value|] == x.targets.value;
      SweepRecorded(x, before, last, batch);
      store.SaveSyncState(DIGEST_STATE_KEY, x.saveAt);
    }
  }

  /** The days taken for two digests to one tenant are a positive number of whole weeks apart. A mail
      goes out on that day or later, but on none after the recorded sweep and on none that a later
      digest to the same tenant is taken for. */
  ghost predicate IsWeekly(sent: seq<Digest>, last: Option<int>) {
    && (forall i, j :: 0 <= i < j < |sent| && sent[i].tenant == sent[j].tenant ==> WeeksApart(sent[i], sent[j]))
    && (forall d: Digest :: d in sent ==> Weekday(d.day) == DigestDay(d.tenant))
    && (forall d: Digest :: d in sent ==> last.Some? && d.day <= DayOf(d.sentAt) <= DayOf(last.value))
  }

  predicate WeeksApart(a: Digest, b: Digest) {
    a.day < b.day && DayOf(a.sentAt) < b.day && (b.day - a.day) % 7 == 0
  }

  /** Cutting a time to whole seconds does not move it to another day. */
  lemma SecondKeepsDay(t: int)
    ensures DayOf(ToSecond(t)) == DayOf(t) && ToSecond(t) <= t
  {
    var q, d := t / SECOND, t / DAY;
    assert ToSecond(t) == q * SECOND <= t < (q + 1) * SECOND;
    assert d * DAY <= t < (d + 1) * DAY;
    assert d * DAY <= q * SECOND;
    DayIsUnique(q * SECOND, d);
  }

  lemma DayIsUnique(t: int, d: int)
    requires d * DAY <= t < (d + 1) * DAY
    ensures DayOf(t) == d
  {
  }

  lemma LaterDay(t: int, u: int)
    requires t <= u
    ensures DayOf(t) <= DayOf(u)
    ensures u - t >= DAY ==> DayOf(t) < DayOf(u)
  {
    assert DayOf(t) * DAY <= t && u < (DayOf(u) + 1) * DAY;
  }

  lemma SweepRecorded(x: Sweep, sent: seq<Digest>, last: Option<int>, batch: seq<Digest>)
    requires IsWeekly(sent, last) && InOrder(x) && IsDue(x, last)
    requires forall d: Digest :: d in batch ==> Sends(x, d)
    requires forall i, j :: 0 <= i < j < |batch| ==> batch[i].tenant != batch[j].tenant
    ensures IsWeekly(sent + batch, Some(ToSecond(x.saveAt)))
  {
    SecondKeepsDay(x.saveAt);
    LaterDay(x.sendAt, x.saveAt);
    if last.Some? {
      LaterDay(last.value, x.sendAt);
    }
    forall d: Digest | d in batch ensures DayOf(x.sendAt) <= DayOf(d.sentAt) <= DayOf(x.saveAt) {
      LaterDay(x.sendAt, d.sentAt);
      LaterDay(d.sentAt, x.saveAt);
    }
    hide DayOf, ToSecond, DigestDay;
    assert forall i :: 0 <= i < |sent| ==> sent[i] in sent;
    assert forall i :: 0 <= i < |batch| ==> batch[i] in batch;
    var all := sent + batch;
    forall i, j | 0 <= i < j < |all| && all[i].tenant == all[j].tenant ensures WeeksApart(all[i], all[j]) {
      if i < |sent| <= j {
        assert all[i] in sent && all[j] in batch;
        SameWeekday(all[i].day, all[j].day);
      }
    }
  }

  lemma SameWeekday(a: int, b: int)
    requires Weekday(a) == Weekday(b)
    ensures (b - a) % 7 == 0
  {
  }

  // ---------------------------------------------------------------- when the mails go out

  /** By how many days a mail went out after the day it was meant for. */
  function Overshoot(d: Digest): int {
    DayOf(d.sentAt) - d.day
  }

  /** Two mails to one tenant never go out on one day or in the wrong order, and whole weeks lie
      between their days exactly when both overshot alike, modulo a week. */
  lemma MailsAreWeeksApartExactlyWhen(sent: seq<Digest>, last: Option<int>, i: nat, j: nat)
    requires IsWeekly(sent, last) && i < j < |sent| && sent[i].tenant == sent[j].tenant
    ensures var gap := DayOf(sent[j].sentAt) - DayOf(sent[i].sentAt);
            && 0 < gap && 7 - Overshoot(sent[i]) <= gap
            && (gap % 7 == 0 <==> (Overshoot(sent[j]) - Overshoot(sent[i])) % 7 == 0)
  {
    assert sent[i] in sent && sent[j] in sent;
    hide DayOf, DigestDay, Weekday;
    var weeks := (sent[j].day - sent[i].day) / 7;
    assert sent[j].day - sent[i].day == 7 * weeks;
    WholeWeeks(Overshoot(sent[j]) - Overshoot(sent[i]), weeks);
  }

  lemma WholeWeeks(d: int, weeks: int)
    ensures (d + 7 * weeks) % 7 == 0 <==> d % 7 == 0
  {
  }

  /** Every mail of a sweep is sure to go out on the day it is meant for exactly when the sweep ends
      on the day on which it read the weekday: a mail may leave as late as the sweep is recorded. */
  lemma OnTimeExactlyWhen(sendAt: int, saveAt: int)
    requires sendAt <= saveAt
    ensures DayOf(saveAt) == DayOf(sendAt) <==>
            forall t, sentAt :: sendAt <= sentAt <= saveAt ==> Overshoot(Digest(t, DayOf(sendAt), sentAt)) == 0
  {
    forall sentAt | sendAt <= sentAt <= saveAt ensures DayOf(sendAt) <= DayOf(sentAt) <= DayOf(saveAt) {
      LaterDay(sendAt, sentAt);
      LaterDay(sentAt, saveAt);
    }
    hide DayOf;
    assert Overshoot(Digest([], DayOf(sendAt), saveAt)) == DayOf(saveAt) - DayOf(sendAt);
  }

  ghost predicate OnTime(sent: seq<Digest>) {
    forall d: Digest :: d in sent ==> Overshoot(d) == 0
  }

  /** So while no sweep crosses midnight, the mails to one tenant go out whole weeks apart. */
  lemma SweepStaysOnTime(x: Sweep, sent: seq<Digest>, last: Option<int>, sent': seq<Digest>, last': Option<int>)
    requires InOrder(x) && SweepsTo(x, sent, last, sent', last') && OnTime(sent)
    requires DayOf(x.saveAt) == DayOf(x.sendAt)
    ensures OnTime(sent')
  {
    OnTimeExactlyWhen(x.sendAt, x.saveAt);
    hide DayOf, DigestDay, ToSecond, Overshoot;
    forall d: Digest | d in sent' ensures Overshoot(d) == 0 {
      assert sent' == sent + sent'[|sent|..];
      if d !in sent {
        assert Sends(x, d);
        assert Overshoot(Digest(d.tenant, DayOf(x.sendAt), d.sentAt)) == 0;
      }
    }
  }

  function SweepOfOne(t: TenantID, sendAt: int, sentAt: int, saveAt: int): Sweep {
    Sweep(sendAt, sendAt, saveAt, true, Some([t]), _ => true, _ => Some(sentAt))
  }

  /** A due sweep of one tenant on its day sends that one digest. */
  lemma SweepOfOneSends(t: TenantID, sendAt: int, sentAt: int, saveAt: int, sent: seq<Digest>, last: Option<int>)
    requires sendAt <= sentAt <= saveAt && Weekday(DayOf(sendAt)) == DigestDay(t)
    requires IsDue(SweepOfOne(t, sendAt, sentAt, saveAt), last)
    ensures var x := SweepOfOne(t, sendAt, sentAt, saveAt);
            && InOrder(x)
            && SweepsTo(x, sent, last, sent + [Digest(t, DayOf(sendAt), sentAt)], Some(ToSecond(saveAt)))
  {
    hide DayOf, ToSecond, DigestDay, Weekday;
    assert (sent + [Digest(t, DayOf(sendAt), sentAt)])[|sent|..] == [Digest(t, DayOf(sendAt), sentAt)];
  }

  /** A sweep that does cross it can bring two mails to one tenant six days apart: on any of the tenant's
      days the first one reads the weekday a second before midnight and sends a second after, and the
      next one comes a week later. */
  lemma SweepAcrossMidnight(t: TenantID, day: int)
    requires Weekday(day) == DigestDay(t)
    ensures var midnight, nextAt := (day + 1) * DAY, (day + 7) * DAY + 3600 * SECOND;
            var late, next := Digest(t, day, midnight + SECOND), Digest(t, day + 7, nextAt);
            var x := SweepOfOne(t, midnight - SECOND, midnight + SECOND, midnight + 2 * SECOND);
            var y := SweepOfOne(t, nextAt, nextAt, nextAt);
            && InOrder(x) && SweepsTo(x, [], None, [late], Some(x.saveAt))
            && InOrder(y) && SweepsTo(y, [late], Some(x.saveAt), [late, next], Some(nextAt))
            && DayOf(next.sentAt) - DayOf(late.sentAt) == 6
  {
    var midnight, nextAt := (day + 1) * DAY, (day + 7) * DAY + 3600 * SECOND;
    TimesAroundMidnight(day);
    hide DayOf, ToSecond, DigestDay, Weekday, SweepsTo, InOrder;
    var late, next := Digest(t, day, midnight + SECOND), Digest(t, day + 7, nextAt);
    SweepOfOneSends(t, midnight - SECOND, midnight + SECOND, midnight + 2 * SECOND, [], None);
    SweepOfOneSends(t, nextAt, nextAt, nextAt, [late], Some(midnight + 2 * SECOND));
    assert [] + [late] == [late] && [late] + [next] == [late, next];
  }

  lemma TimesAroundMidnight(day: int)
    ensures var midnight, nextAt := (day + 1) * DAY, (day + 7) * DAY + 3600 * SECOND;
            && DayOf(midnight - SECOND) == day && DayOf(midnight + SECOND) == day + 1 && DayOf(nextAt) == day + 7
            && Weekday(day + 7) == Weekday(day)
            && ToSecond(midnight + 2 * SECOND) == midnight + 2 * SECOND && ToSecond(nextAt) == nextAt
  {
    DayIsUnique((day + 1) * DAY - SECOND, day);
    DayIsUnique((day + 1) * DAY + SECOND, day + 1);
    DayIsUnique((day + 7) * DAY + 3600 * SECOND, day + 7);
  }
}

/** The scoring queue: a table keyed by contributor, drained most urgent first. Priority 1 is the
    most urgent. Every SQL statement is one step. */
module ScoringQueues {
  import opened Sets

  datatype Key = Key(username: string, provider: string)

  datatype Row = Row(priority: int, queuedAt: int)

  datatype Entry = Entry(key: Key, row: Row)

  type Table = map<Key, Row>

  /** `a` may be served before `b`. */
  predicate NoLater(a: Row, b: Row) {
    a.priority < b.priority || (a.priority == b.priority && a.queuedAt <= b.queuedAt)
  }

  /** The table after an enqueue: the lower priority number wins, and the time of queueing moves
      only with an upgrade. */
  function Enqueued(t: Table, k: Key, priority: int, now: int): (t': Table)
    ensures t'.Keys == t.Keys + {k}
    ensures t'[k].priority <= priority && (k in t ==> NoHigher(t'[k], t[k]))
    ensures t'[k] == if k in t && t[k].priority <= priority then t[k] else Row(priority, now)
    ensures forall k' :: k' in t && k' != k ==> t'[k'] == t[k']
  {
    if k !in t then t[k := Row(priority, now)]
    else t[k := Row(if priority < t[k].priority then priority else t[k].priority,
                    if priority < t[k].priority then now else t[k].queuedAt)]
  }

  /** `a` is as urgent as `b` or more so. */
  predicate NoHigher(a: Row, b: Row) {
    a.priority <= b.priority
  }

  function KeysOf(batch: seq<Entry>): set<Key> {
    set i | 0 <= i < |batch| :: batch[i].key
  }

  ghost predicate DistinctKeys(batch: seq<Entry>) {
    forall i, j :: 0 <= i < j < |batch| ==> batch[i].key != batch[j].key
  }

  /** A dequeue may return `batch`: as many entries as there are, up to the limit, none of them
      later than an entry left behind. Which of equal entries go, and in what order they are
      returned, is the database's choice. */
  ghost predicate Claims(t: Table, limit: nat, batch: seq<Entry>) {
    && DistinctKeys(batch)
    && |batch| == (if limit <= |t| then limit else |t|)
    && (forall i :: 0 <= i < |batch| ==> batch[i].key in t && batch[i].row == t[batch[i].key])
    && (forall i, k :: 0 <= i < |batch| && k in t && k !in KeysOf(batch) ==> NoLater(batch[i].row, t[k]))
  }

  /** What is claimed has the priority and the time of its row, and no row left behind has a lower priority
      number, or the same one and an earlier time. */
  lemma ClaimsInPlainTerms(t: Table, limit: nat, batch: seq<Entry>, i: nat, k: Key)
    requires Claims(t, limit, batch) && i < |batch| && k in t && forall j :: 0 <= j < |batch| ==> batch[j].key != k
    ensures t[batch[i].key] == batch[i].row && |batch| == limit < |t|
    ensures batch[i].row.priority <= t[k].priority
    ensures batch[i].row.priority == t[k].priority ==> batch[i].row.queuedAt <= t[k].queuedAt
  {
    KeyCount(batch);
    SubsetSize(KeysOf(batch) + {k}, t.Keys);
  }

  lemma KeysAfterAppend(batch: seq<Entry>, e: Entry)
    ensures KeysOf(batch + [e]) == KeysOf(batch) + {e.key}
    ensures DistinctKeys(batch) && e.key !in KeysOf(batch) ==> DistinctKeys(batch + [e])
  {
    var longer := batch + [e];
    assert longer[|batch|] == e;
    assert forall i :: 0 <= i < |batch| ==> longer[i] == batch[i] && batch[i].key in KeysOf(batch);
    assert forall k :: k in KeysOf(batch) ==> k in KeysOf(longer) by {
      forall k | k in KeysOf(batch) ensures k in KeysOf(longer) {
        var i :| 0 <= i < |batch| && batch[i].key == k;
        assert longer[i].key == k;
      }
    }
  }

  lemma {:induction false} SomeHead(t: Table)
    requires t != map[]
    ensures exists k :: k in t && forall k' :: k' in t ==> NoLater(t[k], t[k'])
    decreases |t|
  {
    var k :| k in t;
    var rest := t - {k};
    if rest != map[] {
      SomeHead(rest);
      var h :| h in rest && forall k' :: k' in rest ==> NoLater(rest[h], rest[k']);
      var first := if NoLater(t[k], t[h]) then k else h;
      assert forall k' :: k' in t ==> k' == k || k' in rest;
      assert forall k' :: k' in t ==> NoLater(t[first], t[k']);
    } else {
      assert forall k' :: k' in t ==> k' == k || k' in rest;
      assert NoLater(t[k], t[k]);
    }
  }

  lemma {:induction false} KeyCount(batch: seq<Entry>)
    requires DistinctKeys(batch)
    ensures |KeysOf(batch)| == |batch|
    decreases |batch|
  {
    if batch == [] {
      assert KeysOf(batch) == {};
    } else {
      var n := |batch| - 1;
      KeyCount(batch[..n]);
      KeysAfterAppend(batch[..n], batch[n]);
      assert batch[..n] + [batch[n]] == batch;
    }
  }

  lemma ClaimsOneMore(t: Table, batch: seq<Entry>, k: Key)
    requires Claims(t, |batch|, batch) && |batch| < |t| && k in t && k !in KeysOf(batch)
    requires forall k' :: k' in t && k' !in KeysOf(batch) ==> NoLater(t[k], t[k'])
    ensures Claims(t, |batch| + 1, batch + [Entry(k, t[k])])
    ensures (t - KeysOf(batch)) - {k} == t - KeysOf(batch + [Entry(k, t[k])])
  {
    KeysAfterAppend(batch, Entry(k, t[k]));
  }

  lemma ClaimsFewer(t: Table, batch: seq<Entry>, k: Key)
    requires Claims(t, |batch|, batch) && k in t && k !in KeysOf(batch)
    ensures |batch| < |t|
  {
    KeyCount(batch);
    SubsetSize(KeysOf(batch) + {k}, t.Keys);
  }

  lemma ClaimsAll(t: Table, batch: seq<Entry>)
    requires Claims(t, |batch|, batch) && t - KeysOf(batch) == map[]
    ensures |batch| == |t|
  {
    KeyCount(batch);
    forall k | k in t ensures k in KeysOf(batch) {
      assert k !in t - KeysOf(batch);
    }
    SubsetSize(t.Keys, KeysOf(batch));
  }

  class ScoringQueue {
    var rows: Table

    constructor ()
      ensures rows == map[]
    {
      rows := map[];
    }

    method EnqueueForScoring(username: string, provider: string, priority: int, now: int)
      modifies this
      ensures rows == Enqueued(old(rows), Key(username, provider), priority, now)
    {
      var k := Key(username, provider);
      if k in rows {
        var row := rows[k];
        rows := rows[k := Row(if priority < row.priority then priority else row.priority,
                              if priority < row.priority then now else row.queuedAt)];
      } else {
        rows := rows[k := Row(priority, now)];
      }
    }

    method DequeueForScoring(limit: nat) returns (batch: seq<Entry>)
      modifies this
      ensures Claims(old(rows), limit, batch)
      ensures rows == old(rows) - KeysOf(batch)
    {
      batch := [];
      assert rows - KeysOf([]) == rows;
      while |batch| < limit && rows != map[]
        invariant |batch| <= limit && Claims(old(rows), |batch|, batch)
        invariant rows == old(rows) - KeysOf(batch)
        decreases limit - |batch|
      {
        SomeHead(rows);
        var k :| k in rows && forall k' :: k' in rows ==> NoLater(rows[k], rows[k']);
        assert forall k' :: k' in old(rows) && k' !in KeysOf(batch) ==> k' in rows && rows[k'] == old(rows)[k'];
        ClaimsFewer(old(rows), batch, k);
        ClaimsOneMore(old(rows), batch, k);
        batch := batch + [Entry(k, rows[k])];
        rows := rows - {k};
      }
      if rows == map[] {
        ClaimsAll(old(rows), batch);
      }
    }

    /** Puts the unsettled entries of a batch back. `succeeds` says which of the enqueues work. */
    method RequeueUnscored(queued: seq<Entry>, settled: seq<bool>, succeeds: seq<bool>, now: int)
      requires |settled| == |succeeds| == |queued|
      modifies this
      ensures rows.Keys == old(rows).Keys + set i | 0 <= i < |queued| && !settled[i] && succeeds[i] :: queued[i].key
      ensures forall i :: 0 <= i < |queued| && !settled[i] && succeeds[i] ==>
              NoHigher(rows[queued[i].key], queued[i].row)
      ensures forall k :: k in old(rows) ==> NoHigher(rows[k], old(rows)[k])
      ensures forall k :: k in rows ==>
                || (k in old(rows) && rows[k] == old(rows)[k])
                || exists i ::
                     && 0 <= i < |queued| && !settled[i] && succeeds[i]
                     && queued[i].key == k && rows[k].priority == queued[i].row.priority
    {
      for i := 0 to |queued|
        invariant rows.Keys == old(rows).Keys + set j | 0 <= j < i && !settled[j] && succeeds[j] :: queued[j].key
        invariant forall j :: 0 <= j < i && !settled[j] && succeeds[j] ==> NoHigher(rows[queued[j].key], queued[j].row)
        invariant forall k :: k in old(rows) ==> NoHigher(rows[k], old(rows)[k])
        invariant forall k :: k in rows ==>
                || (k in old(rows) && rows[k] == old(rows)[k])
                || exists j ::
                     && 0 <= j < i && !settled[j] && succeeds[j]
                     && queued[j].key == k && rows[k].priority == queued[j].row.priority
      {
        if settled[i] {
          continue;
        }
        var q := queued[i];
        if succeeds[i] {
          EnqueueForScoring(q.key.username, q.key.provider, q.row.priority, now);
        }
      }
    }
  }

  // ---------------------------------------------------------------- bounded waiting

  datatype Op = Enqueue(key: Key, priority: int, now: int) | Dequeue(batch: seq<Entry>)

  ghost function Apply(t: Table, op: Op): Table {
    match op
    case Enqueue(k, priority, now) => Enqueued(t, k, priority, now)
    case Dequeue(batch) => t - KeysOf(batch)
  }

  /** Every dequeue of the run takes up to `limit` entries. */
  ghost predicate IsRun(t: Table, ops: seq<Op>, limit: nat)
    decreases |ops|
  {
    ops != [] ==> (ops[0].Dequeue? ==> Claims(t, limit, ops[0].batch)) && IsRun(Apply(t, ops[0]), ops[1..], limit)
  }

  /** No enqueue of the run is more urgent than `row`, and one just as urgent comes later. */
  ghost predicate NonePreempts(ops: seq<Op>, row: Row) {
    forall i :: 0 <= i < |ops| && ops[i].Enqueue? ==>
      ops[i].priority > row.priority || (ops[i].priority == row.priority && ops[i].now > row.queuedAt)
  }

  ghost predicate Claimed(ops: seq<Op>, k: Key) {
    exists i :: 0 <= i < |ops| && ops[i].Dequeue? && k in KeysOf(ops[i].batch)
  }

  function Dequeues(ops: seq<Op>): nat {
    if ops == [] then 0 else (if ops[0].Dequeue? then 1 else 0) + Dequeues(ops[1..])
  }

  /** The entries that may be served before `k`, ties included. */
  ghost function InFront(t: Table, k: Key): set<Key>
    requires k in t
  {
    set k' | k' in t && k' != k && NoLater(t[k'], t[k])
  }

  lemma EnqueueAddsNoneInFront(t: Table, k: Key, op: Op)
    requires k in t && op.Enqueue? && NonePreempts([op], t[k])
    ensures k in Apply(t, op) && Apply(t, op)[k] == t[k]
    ensures |InFront(Apply(t, op), k)| <= |InFront(t, k)|
  {
    assert [op][0].Enqueue?;
    SubsetSize(InFront(Apply(t, op), k), InFront(t, k));
  }

  lemma DequeueMovesUp(t: Table, k: Key, limit: nat, batch: seq<Entry>)
    requires k in t && Claims(t, limit, batch) && k !in KeysOf(batch)
    ensures |InFront(t, k)| == |InFront(t - KeysOf(batch), k)| + limit
  {
    var keys, front := KeysOf(batch), InFront(t, k);
    KeyCount(batch);
    forall k' | k' in keys ensures k' in front {
      var i :| 0 <= i < |batch| && batch[i].key == k';
      assert NoLater(batch[i].row, t[k]);
    }
    assert InFront(t - keys, k) == front - keys;
    assert front == (front - keys) + keys;
    assert |batch| == limit by {
      if |t| < limit {
        SubsetSize(keys + {k}, t.Keys);
      }
    }
  }

  lemma NonePreemptsRest(ops: seq<Op>, row: Row)
    requires ops != [] && NonePreempts(ops, row)
    ensures NonePreempts([ops[0]], row) && NonePreempts(ops[1..], row)
  {
    assert forall i :: 0 <= i < |ops[1..]| ==> ops[1..][i] == ops[i + 1];
  }

  lemma ClaimedLater(ops: seq<Op>, k: Key)
    requires ops != [] && Claimed(ops[1..], k)
    ensures Claimed(ops, k)
  {
    var i :| 0 <= i < |ops[1..]| && ops[1..][i].Dequeue? && k in KeysOf(ops[1..][i].batch);
    assert ops[i + 1] == ops[1..][i];
  }

  lemma {:induction false} Overtaken(t: Table, k: Key, ops: seq<Op>, limit: nat)
    requires k in t && IsRun(t, ops, limit) && NonePreempts(ops, t[k])
    requires Dequeues(ops) * limit > |InFront(t, k)|
    ensures Claimed(ops, k)
    decreases |ops|
  {
    hide NonePreempts, InFront, Enqueued, Claims;
    if ops == [] {
      assert false;
    } else if !(ops[0].Dequeue? && k in KeysOf(ops[0].batch)) {
      hide KeysOf;
      NonePreemptsRest(ops, t[k]);
      if ops[0].Enqueue? {
        EnqueueAddsNoneInFront(t, k, ops[0]);
      } else {
        DequeueMovesUp(t, k, limit, ops[0].batch);
        OneMore(Dequeues(ops[1..]), limit);
      }
      Overtaken(Apply(t, ops[0]), k, ops[1..], limit);
      ClaimedLater(ops, k);
    }
  }

  /** An entry with `r` others in front of it is claimed within `r / limit + 1` dequeues, as long
      as nothing more urgent arrives, whatever else is queued and queued again in between. */
  lemma BoundedWaiting(t: Table, k: Key, ops: seq<Op>, limit: nat)
    requires k in t && limit > 0 && IsRun(t, ops, limit) && NonePreempts(ops, t[k])
    requires Dequeues(ops) >= |InFront(t, k)| / limit + 1
    ensures Claimed(ops, k)
  {
    hide *;
    BeyondQuotient(Dequeues(ops), |InFront(t, k)|, limit);
    Overtaken(t, k, ops, limit);
  }

  lemma OneMore(n: nat, d: nat)
    ensures (1 + n) * d == d + n * d
  {
  }

  lemma BeyondQuotient(n: nat, r: nat, d: nat)
    requires d > 0 && n >= r / d + 1
    ensures n * d > r
  {
    assert n * d >= (r / d + 1) * d;
  }
}

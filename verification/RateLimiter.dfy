/** The fixed-window rate limiter: one visitor per key, replaced when its window has passed. */
module RateLimiters {
  datatype Visitor = Visitor(count: int, resetAt: int)

  type Visitors = map<string, Visitor>

  predicate Stale(v: Visitor, now: int) {
    now > v.resetAt
  }

  function Visit(vs: Visitors, key: string, window: int, now: int): Visitors {
    if key !in vs || Stale(vs[key], now) then vs[key := Visitor(1, now + window)]
    else vs[key := vs[key].(count := vs[key].count + 1)]
  }

  predicate Admits(vs: Visitors, key: string, limit: int, now: int) {
    key !in vs || Stale(vs[key], now) || vs[key].count + 1 <= limit
  }

  function Cleaned(vs: Visitors, now: int): Visitors {
    map key | key in vs && !Stale(vs[key], now) :: vs[key]
  }

  class IpRateLimiter {
    var visitors: Visitors
    const limit: int
    const window: int

    constructor (limit: int, window: int)
      ensures visitors == map[] && this.limit == limit && this.window == window
    {
      visitors := map[];
      this.limit := limit;
      this.window := window;
    }

    method Allow(ip: string, now: int) returns (ok: bool)
      modifies this
      ensures ok <==> Admits(old(visitors), ip, limit, now)
      ensures ok <==>
              ip !in old(visitors) || now > old(visitors)[ip].resetAt || old(visitors)[ip].count + 1 <= this.limit
      ensures visitors == Visit(old(visitors), ip, window, now)
    {
      if ip !in visitors || now > visitors[ip].resetAt {
        visitors := visitors[ip := Visitor(1, now + window)];
        return true;
      }
      var v := visitors[ip];
      v := v.(count := v.count + 1);
      visitors := visitors[ip := v];
      return v.count <= limit;
    }

    /** As `Allow`, with a limit of the caller's. */
    method AllowWithLimit(key: string, limit: int, now: int) returns (ok: bool)
      modifies this
      ensures ok <==> Admits(old(visitors), key, limit, now)
      ensures ok <==> key !in old(visitors) || now > old(visitors)[key].resetAt || old(visitors)[key].count + 1 <= limit
      ensures visitors == Visit(old(visitors), key, window, now)
    {
      if key !in visitors || now > visitors[key].resetAt {
        visitors := visitors[key := Visitor(1, now + window)];
        return true;
      }
      var v := visitors[key];
      v := v.(count := v.count + 1);
      visitors := visitors[key := v];
      return v.count <= limit;
    }

    method Cleanup(now: int)
      modifies this
      ensures visitors == Cleaned(old(visitors), now)
    {
      var todo := visitors.Keys;
      while todo != {}
        invariant todo <= visitors.Keys <= old(visitors).Keys
        invariant forall key :: key in visitors ==> visitors[key] == old(visitors)[key]
        invariant forall key :: key in old(visitors) && key !in todo ==>
                  (key in visitors <==> !Stale(old(visitors)[key], now))
        decreases todo
      {
        var ip :| ip in todo;
        todo := todo - {ip};
        if now > visitors[ip].resetAt {
          visitors := visitors - {ip};
        }
      }
    }
  }

  // ---------------------------------------------------------------- runs

  datatype Op = Request(key: string, limit: int, now: int) | Sweep(now: int)

  datatype Answer = Answer(key: string, now: int, admitted: bool)

  ghost function Apply(vs: Visitors, window: int, op: Op): Visitors {
    match op
    case Request(key, _, now) => Visit(vs, key, window, now)
    case Sweep(now) => Cleaned(vs, now)
  }

  /** The answers to the requests of a run, in order. */
  ghost function Answers(vs: Visitors, window: int, ops: seq<Op>): seq<Answer>
    decreases |ops|
  {
    if ops == [] then []
    else
      (match ops[0]
       case Request(key, limit, now) => [Answer(key, now, Admits(vs, key, limit, now))]
       case Sweep(_) => [])
      + Answers(Apply(vs, window, ops[0]), window, ops[1..])
  }

  function WithoutSweeps(ops: seq<Op>): seq<Op> {
    if ops == [] then [] else (if ops[0].Request? then [ops[0]] else []) + WithoutSweeps(ops[1..])
  }

  ghost predicate InOrder(ops: seq<Op>, start: int) {
    && (forall i :: 0 <= i < |ops| ==> start <= ops[i].now)
    && (forall i, j :: 0 <= i < j < |ops| ==> ops[i].now <= ops[j].now)
  }

  /** `a` differs from `b` only in lacking visitors that are stale by `now`. */
  ghost predicate Swept(a: Visitors, b: Visitors, now: int) {
    && a.Keys <= b.Keys
    && forall key :: key in b ==> if key in a then a[key] == b[key] else Stale(b[key], now)
  }

  /** Cleanup cannot be observed: wherever it runs, every request gets the same answer. */
  lemma {:induction false} SweepsAreInvisible(a: Visitors, b: Visitors, window: int, ops: seq<Op>, start: int)
    requires Swept(a, b, start) && InOrder(ops, start)
    ensures Answers(a, window, ops) == Answers(b, window, WithoutSweeps(ops))
    decreases |ops|
  {
    if ops != [] {
      var op, rest := ops[0], ops[1..];
      assert InOrder(rest, op.now) by {
        assert forall i :: 0 <= i < |rest| ==> rest[i] == ops[i + 1];
      }
      if op.Request? {
        SweepsAreInvisible(Apply(a, window, op), Apply(b, window, op), window, rest, op.now);
        assert WithoutSweeps(ops)[1..] == WithoutSweeps(rest);
      } else {
        SweepsAreInvisible(Apply(a, window, op), b, window, rest, op.now);
        assert WithoutSweeps(ops) == [] + WithoutSweeps(rest) == WithoutSweeps(rest);
        assert Answers(a, window, ops) == [] + Answers(Apply(a, window, op), window, rest);
      }
    }
  }

  // ---------------------------------------------------------------- how many get through

  predicate Counts(a: Answer, key: string, from: int) {
    a.key == key && a.admitted && from <= a.now
  }

  /** The admitted requests of `key` from time `from` on. */
  ghost function AdmittedSince(answers: seq<Answer>, key: string, from: int): nat {
    if answers == [] then 0
    else
      var n := |answers| - 1;
      AdmittedSince(answers[..n], key, from) + if Counts(answers[n], key, from) then 1 else 0
  }

  /** The admitted requests of `key` in the closed interval from `from` to `to`. */
  ghost function AdmittedIn(answers: seq<Answer>, key: string, from: int, to: int): nat {
    if answers == [] then 0
    else
      var n := |answers| - 1;
      AdmittedIn(answers[..n], key, from, to) + if Counts(answers[n], key, from) && answers[n].now <= to then 1 else 0
  }

  /** No interval up to the window's length holds more than `2 * m - 1` admitted requests. */
  ghost predicate Bounded(answers: seq<Answer>, key: string, window: int, m: int) {
    forall from, to :: to <= from + window ==> AdmittedIn(answers, key, from, to) <= 2 * m - 1
  }

  /** What is known of one key after some requests, when none had a limit above `m`: `before` and
      `v.resetAt - window` are when the previous and the current window opened, `current` is how
      many requests the current one admitted. The request that opens a window is admitted, so that
      any later start of counting misses at least that one. */
  ghost predicate Windows(answers: seq<Answer>, key: string, v: Visitor, window: int, m: int, before: int,
                          current: int) {
    && before + window < v.resetAt - window
    && 1 <= current <= m && current <= v.count
    && (forall from :: from > before ==> AdmittedSince(answers, key, from) <= m - 1 + current)
    && (forall from :: from > before + window ==> AdmittedSince(answers, key, from) <= current)
    && (forall from :: from > v.resetAt - window ==> AdmittedSince(answers, key, from) <= current - 1)
    && (forall from :: from > v.resetAt ==> AdmittedSince(answers, key, from) == 0)
  }

  ghost predicate Tracks(answers: seq<Answer>, key: string, vs: Visitors, window: int, m: int, now: int) {
    && (forall i :: 0 <= i < |answers| ==> answers[i].now <= now)
    && if key !in vs then forall from :: AdmittedSince(answers, key, from) == 0
       else
         && vs[key].resetAt - window <= now
         && exists before, current :: Windows(answers, key, vs[key], window, m, before, current)
  }

  lemma OneMoreAnswer(answers: seq<Answer>, a: Answer, key: string, from: int)
    ensures AdmittedSince(answers + [a], key, from) ==
            AdmittedSince(answers, key, from) + if Counts(a, key, from) then 1 else 0
    ensures forall to :: AdmittedIn(answers + [a], key, from, to) ==
                         AdmittedIn(answers, key, from, to) + if Counts(a, key, from) && a.now <= to then 1 else 0
  {
    assert (answers + [a])[..|answers|] == answers;
  }

  lemma {:induction false} SinceIsAllIn(answers: seq<Answer>, key: string, from: int, to: int)
    requires forall i :: 0 <= i < |answers| ==> answers[i].now <= to
    ensures AdmittedIn(answers, key, from, to) == AdmittedSince(answers, key, from)
    decreases |answers|
  {
    if answers != [] {
      SinceIsAllIn(answers[..|answers| - 1], key, from, to);
    }
  }

  lemma MoreAdmitted(answers: seq<Answer>, a: Answer, key: string)
    ensures forall from :: AdmittedSince(answers + [a], key, from) ==
                           AdmittedSince(answers, key, from) + if Counts(a, key, from) then 1 else 0
  {
    forall from ensures AdmittedSince(answers + [a], key, from) ==
                        AdmittedSince(answers, key, from) + if Counts(a, key, from) then 1 else 0 {
      OneMoreAnswer(answers, a, key, from);
    }
  }

  lemma FirstWindow(answers: seq<Answer>, a: Answer, key: string, window: int, m: int)
    requires 0 <= window && m >= 1 && a.key == key && a.admitted
    requires forall from :: AdmittedSince(answers, key, from) == 0
    ensures Windows(answers + [a], key, Visitor(1, a.now + window), window, m, a.now - window - 1, 1)
  {
    hide AdmittedSince;
    MoreAdmitted(answers, a, key);
  }

  lemma NextWindow(answers: seq<Answer>, a: Answer, key: string, v: Visitor, window: int, m: int, before: int,
                   current: int)
    requires 0 <= window && m >= 1 && Windows(answers, key, v, window, m, before, current)
    requires a.key == key && a.admitted && Stale(v, a.now)
    ensures Windows(answers + [a], key, Visitor(1, a.now + window), window, m, v.resetAt - window, 1)
  {
    hide AdmittedSince;
    MoreAdmitted(answers, a, key);
  }

  lemma SameWindow(answers: seq<Answer>, a: Answer, key: string, v: Visitor, window: int, m: int, before: int,
                   current: int)
    requires Windows(answers, key, v, window, m, before, current)
    requires a.key == key && v.resetAt - window <= a.now <= v.resetAt && (a.admitted ==> v.count + 1 <= m)
    ensures Windows(answers + [a], key, v.(count := v.count + 1), window, m, before,
                    if a.admitted then current + 1 else current)
  {
    hide AdmittedSince;
    MoreAdmitted(answers, a, key);
  }

  lemma OtherKey(answers: seq<Answer>, a: Answer, key: string)
    requires a.key != key
    ensures forall from :: AdmittedSince(answers + [a], key, from) == AdmittedSince(answers, key, from)
  {
    hide AdmittedSince;
    MoreAdmitted(answers, a, key);
  }

  lemma RequestTracks(answers: seq<Answer>, key: string, vs: Visitors, window: int, m: int, op: Op, now: int)
    requires op.Request? && 0 <= window && m >= 1 && Tracks(answers, key, vs, window, m, now) && now <= op.now
    requires op.key == key ==> op.limit <= m
    ensures Tracks(answers + [Answer(op.key, op.now, Admits(vs, op.key, op.limit, op.now))], key,
                   Apply(vs, window, op), window, m, op.now)
  {
    hide AdmittedSince, Windows;
    var a := Answer(op.key, op.now, Admits(vs, op.key, op.limit, op.now));
    if op.key != key {
      OtherKey(answers, a, key);
      if key in vs {
        var before, current :| Windows(answers, key, vs[key], window, m, before, current);
        SameCounts(answers, answers + [a], key, vs[key], window, m, before, current);
      }
    } else if key !in vs {
      FirstWindow(answers, a, key, window, m);
    } else {
      var before, current :| Windows(answers, key, vs[key], window, m, before, current);
      if Stale(vs[key], op.now) {
        NextWindow(answers, a, key, vs[key], window, m, before, current);
      } else {
        SameWindow(answers, a, key, vs[key], window, m, before, current);
      }
    }
  }

  lemma SameCounts(answers: seq<Answer>, more: seq<Answer>, key: string, v: Visitor, window: int, m: int, before: int,
                   current: int)
    requires Windows(answers, key, v, window, m, before, current)
    requires forall from :: AdmittedSince(more, key, from) == AdmittedSince(answers, key, from)
    ensures Windows(more, key, v, window, m, before, current)
  {
    hide AdmittedSince;
  }

  lemma TracksBounds(answers: seq<Answer>, a: Answer, key: string, vs: Visitors, window: int, m: int)
    requires 0 <= window && m >= 1 && Tracks(answers + [a], key, vs, window, m, a.now)
             && Bounded(answers, key, window, m)
    ensures Bounded(answers + [a], key, window, m)
  {
    var more := answers + [a];
    forall from, to | to <= from + window ensures AdmittedIn(more, key, from, to) <= 2 * m - 1 {
      OneMoreAnswer(answers, a, key, from);
      if a.now <= to {
        assert forall i :: 0 <= i < |more| ==> more[i].now <= a.now;
        SinceIsAllIn(more, key, from, to);
        if key in vs {
          var before, current :| Windows(more, key, vs[key], window, m, before, current);
          assert from > before;
        }
      }
    }
  }

  lemma {:induction false} RequestsAreBounded(answers: seq<Answer>, key: string, vs: Visitors, window: int, m: int,
                                              ops: seq<Op>, now: int)
    requires 0 <= window && m >= 1 && InOrder(ops, now)
    requires forall i :: 0 <= i < |ops| ==> ops[i].Request? && (ops[i].key == key ==> ops[i].limit <= m)
    requires Tracks(answers, key, vs, window, m, now) && Bounded(answers, key, window, m)
    ensures Bounded(answers + Answers(vs, window, ops), key, window, m)
    decreases |ops|
  {
    hide Tracks, Bounded;
    if ops == [] {
      assert answers + [] == answers;
    } else {
      var op, rest := ops[0], ops[1..];
      var a := Answer(op.key, op.now, Admits(vs, op.key, op.limit, op.now));
      RequestTracks(answers, key, vs, window, m, op, now);
      TracksBounds(answers, a, key, Apply(vs, window, op), window, m);
      assert forall i :: 0 <= i < |rest| ==> rest[i] == ops[i + 1];
      RequestsAreBounded(answers + [a], key, Apply(vs, window, op), window, m, rest, op.now);
      assert answers + [a] + Answers(Apply(vs, window, op), window, rest) == answers + Answers(vs, window, ops);
    }
  }

  lemma {:induction false} RequestsAreThere(ops: seq<Op>)
    ensures forall op :: op in WithoutSweeps(ops) ==> op.Request? && op in ops
    decreases |ops|
  {
    if ops != [] {
      RequestsAreThere(ops[1..]);
    }
  }

  lemma InOrderRest(ops: seq<Op>, start: int)
    requires InOrder(ops, start) && ops != []
    ensures start <= ops[0].now && InOrder(ops[1..], ops[0].now)
  {
    assert forall i :: 0 <= i < |ops[1..]| ==> ops[1..][i] == ops[i + 1];
  }

  lemma InOrderPrepend(op: Op, rest: seq<Op>, start: int)
    requires start <= op.now && InOrder(rest, op.now)
    ensures InOrder([op] + rest, start) && InOrder(rest, start)
  {
  }

  lemma {:induction false} RequestsStayInOrder(ops: seq<Op>, start: int)
    requires InOrder(ops, start)
    ensures InOrder(WithoutSweeps(ops), start)
    decreases |ops|
  {
    if ops != [] {
      hide InOrder;
      InOrderRest(ops, start);
      RequestsStayInOrder(ops[1..], ops[0].now);
      InOrderPrepend(ops[0], WithoutSweeps(ops[1..]), start);
      assert [] + WithoutSweeps(ops[1..]) == WithoutSweeps(ops[1..]);
    }
  }

  /** No interval up to the window's length, wherever it starts, admits more than `2 * max(1, L) - 1`
      requests of one key, where `L` is the largest limit passed for it. */
  lemma AnyWindowIsBounded(window: int, ops: seq<Op>, start: int, key: string, largest: int)
    requires 0 <= window && InOrder(ops, start)
    requires forall i :: 0 <= i < |ops| && ops[i].Request? && ops[i].key == key ==> ops[i].limit <= largest
    ensures Bounded(Answers(map[], window, ops), key, window, if largest > 1 then largest else 1)
  {
    var m, requests := if largest > 1 then largest else 1, WithoutSweeps(ops);
    SweepsAreInvisible(map[], map[], window, ops, start);
    RequestsStayInOrder(ops, start);
    RequestsAreThere(ops);
    RequestsAreBounded([], key, map[], window, m, requests, start);
    assert [] + Answers(map[], window, requests) == Answers(map[], window, requests);
  }

  // ---------------------------------------------------------------- the bound is reached

  function Burst(key: string, limit: int, now: int, n: nat): seq<Op> {
    seq(n, _ => Request(key, limit, now))
  }

  function AllAdmitted(key: string, now: int, n: nat): seq<Answer> {
    seq(n, _ => Answer(key, now, true))
  }

  /** The visitors after `n` more requests of `key` in its open window. */
  function Counted(vs: Visitors, key: string, n: nat): Visitors
    requires key in vs
  {
    vs[key := Visitor(vs[key].count + n, vs[key].resetAt)]
  }

  lemma AnswersOneMore(vs: Visitors, window: int, key: string, limit: int, now: int, rest: seq<Op>)
    ensures Answers(vs, window, [Request(key, limit, now)] + rest) ==
            [Answer(key, now, Admits(vs, key, limit, now))] + Answers(Visit(vs, key, window, now), window, rest)
  {
    assert ([Request(key, limit, now)] + rest)[1..] == rest;
  }

  lemma VisitCounts(vs: Visitors, window: int, key: string, limit: int, now: int, n: nat)
    requires n > 0 && key in vs && !Stale(vs[key], now) && vs[key].count + n <= limit
    ensures var next := Visit(vs, key, window, now);
            && Admits(vs, key, limit, now) && key in next && !Stale(next[key], now)
            && next[key].count + (n - 1) <= limit && Counted(next, key, n - 1) == Counted(vs, key, n)
  {
  }

  /** Requests at one time that stay within the limit are all admitted. */
  lemma {:induction false} BurstIsAdmitted(vs: Visitors, window: int, key: string, limit: int, now: int, n: nat,
                                           rest: seq<Op>)
    requires key in vs && !Stale(vs[key], now) && vs[key].count + n <= limit
    ensures Answers(vs, window, Burst(key, limit, now, n) + rest) ==
            AllAdmitted(key, now, n) + Answers(Counted(vs, key, n), window, rest)
    decreases n
  {
    hide Answers, Visit, Admits;
    if n == 0 {
      assert Burst(key, limit, now, 0) + rest == rest;
      assert Counted(vs, key, 0) == vs;
    } else {
      VisitCounts(vs, window, key, limit, now, n);
      hide Counted, Stale;
      AnswersOneMore(vs, window, key, limit, now, Burst(key, limit, now, n - 1) + rest);
      BurstIsAdmitted(Visit(vs, key, window, now), window, key, limit, now, n - 1, rest);
      assert Burst(key, limit, now, n) + rest == [Request(key, limit, now)] + (Burst(key, limit, now, n - 1) + rest);
      assert [Answer(key, now, true)] + AllAdmitted(key, now, n - 1) == AllAdmitted(key, now, n);
    }
  }

  /** A request that finds no open window opens one, and the rest of its limit fits into it. */
  lemma FullWindow(vs: Visitors, window: int, key: string, m: nat, now: int, later: int, rest: seq<Op>)
    requires m >= 1 && (key !in vs || Stale(vs[key], now)) && later <= now + window
    ensures Answers(vs, window, [Request(key, m, now)] + (Burst(key, m, later, m - 1) + rest)) ==
            AllAdmitted(key, now, 1)
                + (AllAdmitted(key, later, m - 1) + Answers(vs[key := Visitor(m, now + window)], window, rest))
  {
    var begun := vs[key := Visitor(1, now + window)];
    assert Counted(begun, key, m - 1) == vs[key := Visitor(m, now + window)];
    assert AllAdmitted(key, now, 1) == [Answer(key, now, true)];
    hide Answers, Burst, AllAdmitted, Counted;
    AnswersOneMore(vs, window, key, m, now, Burst(key, m, later, m - 1) + rest);
    BurstIsAdmitted(begun, window, key, m, later, m - 1, rest);
  }

  lemma {:induction false} AdmittedInConcat(a: seq<Answer>, b: seq<Answer>, key: string, from: int, to: int)
    ensures AdmittedIn(a + b, key, from, to) == AdmittedIn(a, key, from, to) + AdmittedIn(b, key, from, to)
    decreases |b|
  {
    if b == [] {
      assert a + b == a;
    } else {
      assert (a + b)[..|a + b| - 1] == a + b[..|b| - 1];
      AdmittedInConcat(a, b[..|b| - 1], key, from, to);
    }
  }

  lemma {:induction false} AllAdmittedCount(key: string, now: int, n: nat, from: int, to: int)
    ensures AdmittedIn(AllAdmitted(key, now, n), key, from, to) == if from <= now <= to then n else 0
    decreases n
  {
    if n > 0 {
      assert AllAdmitted(key, now, n)[..n - 1] == AllAdmitted(key, now, n - 1);
      AllAdmittedCount(key, now, n - 1, from, to);
    }
  }

  /** One request opens a window, the rest of its limit comes at its very end, and a full window
      follows at once. */
  function BackToBack(key: string, m: nat, window: int): seq<Op>
    requires m >= 1
  {
    [Request(key, m, 0)] + (Burst(key, m, window, m - 1)
                            + ([Request(key, m, window + 1)] + Burst(key, m, window + 1, m - 1)))
  }

  lemma BackToBackInOrder(key: string, m: nat, window: int)
    requires 0 < window && m >= 1
    ensures InOrder(BackToBack(key, m, window), 0)
    ensures forall op :: op in BackToBack(key, m, window) ==> op == Request(key, m, op.now)
  {
    var ops := BackToBack(key, m, window);
    assert forall i :: 0 <= i < |ops| ==> ops[i].now == if i == 0 then 0 else if i < m then window else window + 1;
  }

  /** The two windows of such a run, one after the other. */
  lemma BackToBackAnswers(key: string, m: nat, window: int)
    requires 0 < window && m >= 1
    ensures Answers(map[], window, BackToBack(key, m, window)) ==
            AllAdmitted(key, 0, 1) + (AllAdmitted(key, window, m - 1)
            + (AllAdmitted(key, window + 1, 1) + (AllAdmitted(key, window + 1, m - 1) + [])))
  {
    var second := Burst(key, m, window + 1, m - 1);
    var vs: Visitors := map[][key := Visitor(m, 0 + window)];
    assert Stale(vs[key], window + 1);
    var vs' := vs[key := Visitor(m, window + 1 + window)];
    assert Answers(vs', window, []) == [] && second + [] == second;
    hide Answers, Burst, AllAdmitted, Stale;
    FullWindow(map[], window, key, m, 0, window, [Request(key, m, window + 1)] + second);
    FullWindow(vs, window, key, m, window + 1, window + 1, []);
  }

  /** The bound is reached, for every limit and every window. */
  lemma BoundIsReached(window: int, key: string, m: nat)
    requires 0 < window && m >= 1
    ensures InOrder(BackToBack(key, m, window), 0)
    ensures forall op :: op in BackToBack(key, m, window) ==> op == Request(key, m, op.now)
    ensures AdmittedIn(Answers(map[], window, BackToBack(key, m, window)), key, 1, 1 + window) == 2 * m - 1
  {
    hide *;
    BackToBackInOrder(key, m, window);
    BackToBackAnswers(key, m, window);
    CountParts(key, m, window, []);
  }

  lemma CountParts(key: string, m: nat, window: int, none: seq<Answer>)
    requires 0 < window && m >= 1 && none == []
    ensures AdmittedIn(AllAdmitted(key, 0, 1) + (AllAdmitted(key, window, m - 1)
                       + (AllAdmitted(key, window + 1, 1) + (AllAdmitted(key, window + 1, m - 1) + none))),
                       key, 1, 1 + window) == 2 * m - 1
  {
    hide AllAdmitted, AdmittedIn;
    var p1, p2 := AllAdmitted(key, 0, 1), AllAdmitted(key, window, m - 1);
    var p3, p4 := AllAdmitted(key, window + 1, 1), AllAdmitted(key, window + 1, m - 1);
    assert p4 + none == p4;
    AdmittedInConcat(p1, p2 + (p3 + p4), key, 1, 1 + window);
    AdmittedInConcat(p2, p3 + p4, key, 1, 1 + window);
    AdmittedInConcat(p3, p4, key, 1, 1 + window);
    AllAdmittedCount(key, 0, 1, 1, 1 + window);
    AllAdmittedCount(key, window, m - 1, 1, 1 + window);
    AllAdmittedCount(key, window + 1, 1, 1, 1 + window);
    AllAdmittedCount(key, window + 1, m - 1, 1, 1 + window);
  }
}

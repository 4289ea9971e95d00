/** The SQL token bucket: one conditional upsert that refills, checks and decrements.
  *
  * Times and levels are reals and `now` never goes back (PostgreSQL's `now()` is the transaction's
  * start). `LevelAt` is the level a row stands for at an instant; a missing row stands for a full bucket.
  */
module RateLimit {
  import opened Wrappers

  const BUCKET_TTL_SECONDS := 3600.0

  datatype Bucket = Bucket(tokens: real, updatedAt: real, expiresAt: real)

  datatype BucketState = BucketState(tokens: real, allowed: bool, retryAfter: real)

  /** One key's settings. */
  datatype Limit = Limit(capacity: real, refill: real) {
    ghost predicate Sane() {
      capacity >= 0.0 && refill >= 0.0
    }
  }

  function Least(a: real, b: real): real {
    if a <= b then a else b
  }

  /** The tokens that accrue over a span of time. */
  function Accrued(l: Limit, span: real): real {
    span * l.refill
  }

  function Refilled(b: Bucket, l: Limit, now: real): real {
    Least(l.capacity, b.tokens + Accrued(l, now - b.updatedAt))
  }

  // -------------------------------------------------------------------- the store

  /** One `consume` on one key's row. */
  function ConsumeRow(row: Option<Bucket>, l: Limit, cost: real, now: real): (Option<Bucket>, BucketState) {
    if cost > l.capacity then
      (row, BucketState(0.0, false, 60.0))
    else if row.None? then
      (Some(Bucket(l.capacity - cost, now, now + BUCKET_TTL_SECONDS)), BucketState(l.capacity - cost, true, 0.0))
    else
      var level := Refilled(row.value, l, now);
      if level >= cost then
        (Some(Bucket(level - cost, now, now + BUCKET_TTL_SECONDS)), BucketState(level - cost, true, 0.0))
      else
        var retry := if l.refill > 0.0 then (cost - level) / l.refill else 60.0;
        (Some(row.value.(expiresAt := now + BUCKET_TTL_SECONDS)), BucketState(level, false, retry))
  }

  /** The sweep of buckets past their expiry. */
  function SweptRow(row: Option<Bucket>, now: real): Option<Bucket> {
    if row.Some? && row.value.expiresAt < now then None else row
  }

  type Table = map<string, Bucket>

  function RowOf(table: Table, key: string): Option<Bucket> {
    if key in table then Some(table[key]) else None
  }

  class PostgresRateLimitStore {
    var table: Table
    var failures: nat

    constructor ()
      ensures table == map[] && failures == 0
    {
      table, failures := map[], 0;
    }

    /** `reachable` says whether the database answers; when it does not, the limiter fails closed. */
    method Consume(key: string, l: Limit, cost: real, now: real, reachable: bool) returns (s: BucketState)
      modifies this
      ensures cost > l.capacity ==> table == old(table) && failures == old(failures) && s == BucketState(0.0, false, 60.0)
      ensures cost <= l.capacity && !reachable ==>
                table == old(table) && failures == old(failures) + 1 && s == BucketState(0.0, false, 1.0)
      ensures cost <= l.capacity && reachable ==>
                && failures == old(failures)
                && (RowOf(table, key), s) == ConsumeRow(RowOf(old(table), key), l, cost, now)
                && forall k :: k != key ==> RowOf(table, k) == RowOf(old(table), k)
    {
      if cost > l.capacity {
        return BucketState(0.0, false, 60.0);
      }
      if !reachable {
        failures := failures + 1;
        return BucketState(0.0, false, 1.0);
      }
      // INSERT ... ON CONFLICT DO UPDATE ... WHERE refilled >= cost RETURNING tokens
      if key !in table {
        table := table[key := Bucket(l.capacity - cost, now, now + BUCKET_TTL_SECONDS)];
        return BucketState(l.capacity - cost, true, 0.0);
      }
      var level := Refilled(table[key], l, now);
      if level >= cost {
        table := table[key := Bucket(level - cost, now, now + BUCKET_TTL_SECONDS)];
        return BucketState(level - cost, true, 0.0);
      }
      // UPDATE ... SET expires_at RETURNING refilled
      table := table[key := table[key].(expiresAt := now + BUCKET_TTL_SECONDS)];
      var deficit := if cost - level > 0.0 then cost - level else 0.0;
      var retry := if l.refill > 0.0 then deficit / l.refill else 60.0;
      return BucketState(level, false, retry);
    }
  }

  // --------------------------------------------------------------------- levels

  function LevelAt(row: Option<Bucket>, l: Limit, t: real): real {
    if row.None? then l.capacity else Refilled(row.value, l, t)
  }

  /** What every reachable row satisfies at time `t`. */
  ghost predicate RowOk(row: Option<Bucket>, l: Limit, t: real) {
    row.Some? ==>
      var b := row.value;
      0.0 <= b.tokens <= l.capacity && b.updatedAt <= t && b.updatedAt + BUCKET_TTL_SECONDS <= b.expiresAt
  }

  lemma AccruedIsMonotone(l: Limit, a: real, b: real)
    requires l.Sane() && a <= b
    ensures Accrued(l, a) <= Accrued(l, b) && Accrued(l, 0.0) == 0.0
  {
  }

  lemma AccruedIsSteady(l: Limit, span: real)
    ensures Accrued(l, span) == l.refill * span
  {
  }

  lemma AccruedIsStrict(l: Limit, a: real, b: real)
    requires l.refill > 0.0
    ensures a < b <==> Accrued(l, a) < Accrued(l, b)
  {
  }

  lemma AccruedAdds(l: Limit, a: real, b: real)
    ensures Accrued(l, a + b) == Accrued(l, a) + Accrued(l, b)
  {
  }

  /** Refilling in two goes is refilling in one. */
  lemma LevelRefills(row: Option<Bucket>, l: Limit, t: real, u: real)
    requires l.Sane() && RowOk(row, l, t) && t <= u
    ensures LevelAt(row, l, u) == Least(l.capacity, LevelAt(row, l, t) + Accrued(l, u - t))
    ensures 0.0 <= LevelAt(row, l, t) <= l.capacity && RowOk(row, l, u)
  {
    hide Accrued;
    AccruedIsMonotone(l, 0.0, u - t);
    if row.Some? {
      var b := row.value;
      AccruedAdds(l, t - b.updatedAt, u - t);
      assert (t - b.updatedAt) + (u - t) == u - b.updatedAt;
      AccruedIsMonotone(l, 0.0, t - b.updatedAt);
    }
  }

  /** The stored level stays within [0, capacity], and a decision looks only at the level now. */
  lemma ConsumeDecides(row: Option<Bucket>, l: Limit, cost: real, now: real)
    requires l.Sane() && RowOk(row, l, now) && cost >= 0.0
    ensures var (row', s) := ConsumeRow(row, l, cost, now);
            && RowOk(row', l, now)
            && (s.allowed <==> LevelAt(row, l, now) >= cost)
            && (cost <= l.capacity ==> s.tokens == LevelAt(row', l, now))
            && LevelAt(row', l, now) == LevelAt(row, l, now) - (if s.allowed then cost else 0.0)
            && 0.0 <= LevelAt(row', l, now) <= l.capacity
  {
    hide Accrued;
    LevelRefills(row, l, now, now);
    AccruedIsMonotone(l, 0.0, 0.0);
    assert now - now == 0.0;
  }

  /** Sweeping an expired row changes the level it stands for by nothing, when a bucket fills within its
    * lifetime. */
  lemma SweepKeepsLevel(row: Option<Bucket>, l: Limit, now: real)
    requires l.Sane() && RowOk(row, l, now) && Accrued(l, BUCKET_TTL_SECONDS) >= l.capacity
    ensures LevelAt(SweptRow(row, now), l, now) == LevelAt(row, l, now) && RowOk(SweptRow(row, now), l, now)
  {
    hide Accrued;
    if row.Some? && row.value.expiresAt < now {
      AccruedIsMonotone(l, BUCKET_TTL_SECONDS, now - row.value.updatedAt);
    }
  }

  // ------------------------------------------------------------------------ runs

  datatype Event = Consume(now: real, cost: real) | Sweep(now: real)

  ghost predicate Timely(events: seq<Event>, from: real) {
    && (forall i :: 0 <= i < |events| ==> from <= events[i].now && (events[i].Consume? ==> events[i].cost >= 0.0))
    && (forall i, j :: 0 <= i < j < |events| ==> events[i].now <= events[j].now)
  }

  /** Sweeps may happen only where a bucket fills within its lifetime. */
  ghost predicate SweepSafe(events: seq<Event>, l: Limit) {
    Accrued(l, BUCKET_TTL_SECONDS) >= l.capacity || forall i :: 0 <= i < |events| ==> events[i].Consume?
  }

  function StepRow(row: Option<Bucket>, l: Limit, e: Event): Option<Bucket> {
    match e
    case Consume(now, cost) => ConsumeRow(row, l, cost, now).0
    case Sweep(now) => SweptRow(row, now)
  }

  predicate Allowed(row: Option<Bucket>, l: Limit, e: Event) {
    e.Consume? && ConsumeRow(row, l, e.cost, e.now).1.allowed
  }

  function RunRow(row: Option<Bucket>, l: Limit, events: seq<Event>): Option<Bucket>
    decreases |events|
  {
    if events == [] then row else RunRow(StepRow(row, l, events[0]), l, events[1..])
  }

  /** The total cost granted along a run. */
  function Granted(row: Option<Bucket>, l: Limit, events: seq<Event>): real
    decreases |events|
  {
    if events == [] then 0.0
    else (if Allowed(row, l, events[0]) then events[0].cost else 0.0) + Granted(StepRow(row, l, events[0]), l, events[1..])
  }

  lemma StepKeepsOk(row: Option<Bucket>, l: Limit, e: Event, t: real)
    requires l.Sane() && RowOk(row, l, t) && t <= e.now && (e.Consume? ==> e.cost >= 0.0)
    requires e.Sweep? ==> Accrued(l, BUCKET_TTL_SECONDS) >= l.capacity
    ensures RowOk(StepRow(row, l, e), l, e.now)
    ensures LevelAt(StepRow(row, l, e), l, e.now) + (if Allowed(row, l, e) then e.cost else 0.0) == LevelAt(row, l, e.now)
    ensures LevelAt(row, l, e.now) <= LevelAt(row, l, t) + Accrued(l, e.now - t)
  {
    hide Accrued;
    LevelRefills(row, l, t, e.now);
    match e
    case Consume(now, cost) => ConsumeDecides(row, l, cost, now);
    case Sweep(now) => SweepKeepsLevel(row, l, now);
  }

  /** What is granted from a level is at most that level plus the refill over the run. */
  lemma {:induction false} GrantedIsBounded(row: Option<Bucket>, l: Limit, events: seq<Event>, t: real)
    requires l.Sane() && RowOk(row, l, t) && Timely(events, t) && SweepSafe(events, l)
    ensures events != [] ==> Granted(row, l, events) <= LevelAt(row, l, t) + Accrued(l, events[|events| - 1].now - t)
    ensures Granted(row, l, events) >= 0.0
    decreases |events|
  {
    hide Accrued;
    if events != [] {
      var e, rest := events[0], events[1..];
      StepKeepsOk(row, l, e, t);
      GrantedIsBounded(StepRow(row, l, e), l, rest, e.now);
      LevelRefills(StepRow(row, l, e), l, e.now, e.now);
      if rest != [] {
        assert rest[|rest| - 1] == events[|events| - 1];
        AccruedAdds(l, e.now - t, rest[|rest| - 1].now - e.now);
        assert (e.now - t) + (rest[|rest| - 1].now - e.now) == rest[|rest| - 1].now - t;
      }
    }
  }

  lemma {:induction false} RunKeepsOk(row: Option<Bucket>, l: Limit, events: seq<Event>, t: real)
    requires l.Sane() && RowOk(row, l, t) && Timely(events, t) && SweepSafe(events, l)
    ensures RowOk(RunRow(row, l, events), l, if events == [] then t else events[|events| - 1].now)
    decreases |events|
  {
    hide Accrued;
    if events != [] {
      StepKeepsOk(row, l, events[0], t);
      RunKeepsOk(StepRow(row, l, events[0]), l, events[1..], events[0].now);
    }
  }

  lemma TimelyParts(history: seq<Event>, window: seq<Event>, l: Limit, start: real)
    requires Timely(history + window, start) && SweepSafe(history + window, l) && window != []
    ensures Timely(history, start) && SweepSafe(history, l)
    ensures Timely(window, window[0].now) && SweepSafe(window, l)
    ensures (if history == [] then start else history[|history| - 1].now) <= window[0].now
  {
    var all := history + window;
    assert forall i :: 0 <= i < |history| ==> all[i] == history[i];
    assert forall i :: 0 <= i < |window| ==> all[|history| + i] == window[i];
    assert all[|history|] == window[0];
    if history != [] {
      assert all[|history| - 1].now <= all[|history|].now;
    }
  }

  lemma NewKeyIsOk(l: Limit, t: real)
    ensures RowOk(None, l, t)
  {
  }

  /** The bound: after any history, the cost granted in any window of length T is at most
    * capacity + refill * T. */
  lemma WindowBound(l: Limit, history: seq<Event>, window: seq<Event>, start: real)
    requires l.Sane() && Timely(history + window, start) && SweepSafe(history + window, l) && window != []
    ensures Granted(RunRow(None, l, history), l, window) <= l.capacity + l.refill * (window[|window| - 1].now - window[0].now)
  {
    hide *;
    AccruedIsSteady(l, window[|window| - 1].now - window[0].now);
    GrantedInWindow(l, history, window, start);
  }

  lemma GrantedInWindow(l: Limit, history: seq<Event>, window: seq<Event>, start: real)
    requires l.Sane() && Timely(history + window, start) && SweepSafe(history + window, l) && window != []
    ensures Granted(RunRow(None, l, history), l, window) <= l.capacity + Accrued(l, window[|window| - 1].now - window[0].now)
  {
    hide Accrued;
    hide Granted, RunRow, Timely, SweepSafe, RowOk;
    TimelyParts(history, window, l, start);
    NewKeyIsOk(l, start);
    RunKeepsOk(None, l, history, start);
    var row := RunRow(None, l, history);
    var last := if history == [] then start else history[|history| - 1].now;
    LevelRefills(row, l, last, window[0].now);
    GrantedIsBounded(row, l, window, window[0].now);
    LevelRefills(row, l, window[0].now, window[0].now);
  }

  // ------------------------------------------------------------- the ideal bucket

  /** A bucket that starts full and refills continuously. */
  function IdealDecisions(level: real, at: real, l: Limit, events: seq<Event>): seq<bool>
    decreases |events|
  {
    if events == [] then []
    else
      var e := events[0];
      var filled := Least(l.capacity, level + Accrued(l, e.now - at));
      if e.Sweep? then IdealDecisions(filled, e.now, l, events[1..])
      else if e.cost <= filled then [true] + IdealDecisions(filled - e.cost, e.now, l, events[1..])
      else [false] + IdealDecisions(filled, e.now, l, events[1..])
  }

  function Decisions(row: Option<Bucket>, l: Limit, events: seq<Event>): seq<bool>
    decreases |events|
  {
    if events == [] then []
    else (if events[0].Consume? then [Allowed(row, l, events[0])] else []) + Decisions(StepRow(row, l, events[0]), l, events[1..])
  }

  /** Every decision of the lazily refilled row is the ideal bucket's. */
  lemma {:induction false} DecidesAsTheIdealBucket(row: Option<Bucket>, l: Limit, events: seq<Event>, at: real)
    requires l.Sane() && RowOk(row, l, at) && Timely(events, at) && SweepSafe(events, l)
    ensures Decisions(row, l, events) == IdealDecisions(LevelAt(row, l, at), at, l, events)
    decreases |events|
  {
    hide Accrued;
    if events != [] {
      var e := events[0];
      LevelRefills(row, l, at, e.now);
      StepKeepsOk(row, l, e, at);
      if e.Consume? {
        ConsumeDecides(row, l, e.cost, e.now);
      }
      DecidesAsTheIdealBucket(StepRow(row, l, e), l, events[1..], e.now);
    }
  }

  lemma FreshKeyDecidesAsTheIdealBucket(l: Limit, events: seq<Event>, start: real)
    requires l.Sane() && Timely(events, start) && SweepSafe(events, l)
    ensures Decisions(None, l, events) == IdealDecisions(l.capacity, start, l, events)
  {
    DecidesAsTheIdealBucket(None, l, events, start);
  }

  // ------------------------------------------------------------------- the sweep

  function Unswept(events: seq<Event>): seq<Event> {
    if events == [] then [] else (if events[0].Consume? then [events[0]] else []) + Unswept(events[1..])
  }

  ghost predicate SweepsChangeNothing(l: Limit) {
    forall events, start :: Timely(events, start) ==> Decisions(None, l, events) == Decisions(None, l, Unswept(events))
  }

  lemma {:induction false} SweptRunsAgree(row: Option<Bucket>, plain: Option<Bucket>, l: Limit, events: seq<Event>, t: real)
    requires l.Sane() && Accrued(l, BUCKET_TTL_SECONDS) >= l.capacity
    requires RowOk(row, l, t) && RowOk(plain, l, t) && LevelAt(row, l, t) == LevelAt(plain, l, t) && Timely(events, t)
    ensures Decisions(row, l, events) == Decisions(plain, l, Unswept(events))
    decreases |events|
  {
    hide Accrued;
    if events != [] {
      var e := events[0];
      LevelRefills(row, l, t, e.now);
      LevelRefills(plain, l, t, e.now);
      StepKeepsOk(row, l, e, t);
      if e.Consume? {
        StepKeepsOk(plain, l, e, t);
        ConsumeDecides(row, l, e.cost, e.now);
        ConsumeDecides(plain, l, e.cost, e.now);
        SweptRunsAgree(StepRow(row, l, e), StepRow(plain, l, e), l, events[1..], e.now);
        assert Unswept(events)[0] == e && Unswept(events)[1..] == Unswept(events[1..]);
      } else {
        SweptRunsAgree(StepRow(row, l, e), plain, l, events[1..], e.now);
        assert Unswept(events) == Unswept(events[1..]);
      }
    }
  }

  lemma DecideNext(row: Option<Bucket>, l: Limit, e: Event, rest: seq<Event>)
    ensures Decisions(row, l, [e] + rest) ==
            (if e.Consume? then [Allowed(row, l, e)] else []) + Decisions(StepRow(row, l, e), l, rest)
    ensures Unswept([e] + rest) == (if e.Consume? then [e] else []) + Unswept(rest)
  {
    assert ([e] + rest)[1..] == rest;
  }

  lemma NothingToDecide(row: Option<Bucket>, l: Limit)
    ensures Decisions(row, l, []) == [] && Unswept([]) == []
  {
  }

  /** An instant past the lifetime of a bucket that is still short of full. */
  lemma ShortOfFull(l: Limit) returns (t: real)
    requires l.Sane() && Accrued(l, BUCKET_TTL_SECONDS) < l.capacity
    ensures t > BUCKET_TTL_SECONDS && Accrued(l, t) < l.capacity
  {
    if l.refill == 0.0 {
      t := BUCKET_TTL_SECONDS + 1.0;
    } else {
      var fill := l.capacity / l.refill;
      assert fill * l.refill == l.capacity;
      AccruedIsStrict(l, BUCKET_TTL_SECONDS, fill);
      t := (BUCKET_TTL_SECONDS + fill) / 2.0;
      AccruedIsStrict(l, t, fill);
    }
  }

  /** When the bucket cannot fill within its lifetime, a sweep turns a refusal into a grant. */
  lemma SweepGrantsTooMuch(l: Limit, t: real)
    requires l.Sane() && t > BUCKET_TTL_SECONDS && Accrued(l, t) < l.capacity
    ensures var events := [Consume(0.0, l.capacity), Sweep(t), Consume(t, l.capacity)];
            && Timely(events, 0.0)
            && Decisions(None, l, events) == [true, true]
            && Decisions(None, l, Unswept(events)) == [true, false]
  {
    hide Accrued, Decisions, Unswept;
    var first, second := Consume(0.0, l.capacity), Consume(t, l.capacity);
    var row, swept := StepRow(None, l, first), StepRow(None, l, second);
    assert row == Some(Bucket(0.0, 0.0, BUCKET_TTL_SECONDS)) && t - 0.0 == t;
    assert !Allowed(row, l, second) && Allowed(None, l, second) && SweptRow(row, t) == None;
    assert [first, Sweep(t), second] == [first] + ([Sweep(t)] + ([second] + []));
    DecideNext(None, l, first, [Sweep(t)] + ([second] + []));
    DecideNext(row, l, Sweep(t), [second] + []);
    DecideNext(None, l, second, []);
    DecideNext(None, l, first, [second] + []);
    DecideNext(row, l, second, []);
    NothingToDecide(swept, l);
    NothingToDecide(StepRow(row, l, second), l);
    assert Unswept([first, Sweep(t), second]) == [first] + ([second] + []);
  }

  /** Sweeping expired buckets changes no decision exactly when a bucket fills within its lifetime. */
  lemma SweepsAreHarmlessExactly(l: Limit)
    requires l.Sane()
    ensures SweepsChangeNothing(l) <==> Accrued(l, BUCKET_TTL_SECONDS) >= l.capacity
  {
    if Accrued(l, BUCKET_TTL_SECONDS) >= l.capacity {
      forall events, start | Timely(events, start)
        ensures Decisions(None, l, events) == Decisions(None, l, Unswept(events))
      {
        SweptRunsAgree(None, None, l, events, start);
      }
    } else {
      var t := ShortOfFull(l);
      SweepGrantsTooMuch(l, t);
      var events := [Consume(0.0, l.capacity), Sweep(t), Consume(t, l.capacity)];
      assert Timely(events, 0.0);
    }
  }

  // ------------------------------------------------------------------ retry-after

  lemma RetryAccruesDeficit(row: Option<Bucket>, l: Limit, cost: real, now: real)
    requires l.Sane() && RowOk(row, l, now) && 0.0 <= cost <= l.capacity && l.refill > 0.0
    requires !ConsumeRow(row, l, cost, now).1.allowed
    ensures Accrued(l, ConsumeRow(row, l, cost, now).1.retryAfter) == cost - LevelAt(row, l, now)
  {
    var deficit := cost - LevelAt(row, l, now);
    assert deficit / l.refill * l.refill == deficit;
  }

  /** Retry-After is exact: on an untouched key a refused caller is granted after waiting `w` if and only
    * if `w` is at least what it was told. */
  lemma RetryAfterIsExact(row: Option<Bucket>, l: Limit, cost: real, now: real, w: real)
    requires l.Sane() && RowOk(row, l, now) && 0.0 <= cost <= l.capacity && l.refill > 0.0 && w >= 0.0
    requires !ConsumeRow(row, l, cost, now).1.allowed
    ensures var (row', s) := ConsumeRow(row, l, cost, now);
            ConsumeRow(row', l, cost, now + w).1.allowed <==> w >= s.retryAfter
  {
    hide Accrued;
    var (row', s) := ConsumeRow(row, l, cost, now);
    ConsumeDecides(row, l, cost, now);
    LevelRefills(row', l, now, now + w);
    assert now + w - now == w;
    ConsumeDecides(row', l, cost, now + w);
    AccruedIsStrict(l, w, s.retryAfter);
    RetryAccruesDeficit(row, l, cost, now);
  }

  /** Without refill, or when the cost exceeds the capacity, the suggested 60 seconds never help. */
  lemma NoWaitHelps(row: Option<Bucket>, l: Limit, cost: real, now: real, w: real)
    requires l.Sane() && RowOk(row, l, now) && cost >= 0.0 && w >= 0.0
    requires !ConsumeRow(row, l, cost, now).1.allowed && (l.refill == 0.0 || cost > l.capacity)
    ensures var (row', s) := ConsumeRow(row, l, cost, now);
            s.retryAfter == 60.0 && !ConsumeRow(row', l, cost, now + w).1.allowed
  {
    var row' := ConsumeRow(row, l, cost, now).0;
    ConsumeDecides(row, l, cost, now);
    LevelRefills(row', l, now, now + w);
    ConsumeDecides(row', l, cost, now + w);
  }
}

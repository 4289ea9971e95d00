/** The tiered cache: one in-process front per container, which no other container can invalidate, before a
  * shared table that every container can. */
module TieredCache {
  import opened Wrappers
  import opened LikePatterns
  import opened LruCache

  const L1_MAX_TTL_SECONDS := 30.0

  datatype Stored = Stored(value: string, expiresAt: real)

  /** The shared table, one row per key. */
  type Shared = map<string, Stored>

  function SharedGet(t: Shared, k: string, now: real): Option<string> {
    if k in t && t[k].expiresAt > now then Some(t[k].value) else None
  }

  function SharedSet(t: Shared, k: string, v: string, ttl: real, now: real): Shared {
    if ttl <= 0.0 then t else t[k := Stored(v, now + ttl)]
  }

  function SharedClear(t: Shared, prefix: string): Shared {
    map k | k in t && !Cleared(k, prefix) :: t[k]
  }

  function FrontTtl(ttl: real): real {
    if ttl < L1_MAX_TTL_SECONDS then ttl else L1_MAX_TTL_SECONDS
  }

  // ------------------------------------------------------------------ the classes

  class PostgresKeyValueStore {
    var rows: Shared
    var hits: nat
    var misses: nat

    constructor ()
      ensures rows == map[] && hits == misses == 0
    {
      rows, hits, misses := map[], 0, 0;
    }

    method Get(k: string, now: real) returns (value: Option<string>)
      modifies this
      ensures value == SharedGet(old(rows), k, now) && rows == old(rows)
      ensures hits == old(hits) + (if value.Some? then 1 else 0)
      ensures misses == old(misses) + (if value.Some? then 0 else 1)
    {
      if k in rows && rows[k].expiresAt > now {
        hits := hits + 1;
        return Some(rows[k].value);
      }
      misses := misses + 1;
      return None;
    }

    method Set(k: string, v: string, ttl: real, now: real)
      modifies `rows
      ensures rows == SharedSet(old(rows), k, v, ttl, now)
    {
      if ttl > 0.0 {
        rows := rows[k := Stored(v, now + ttl)];
      }
    }

    method Delete(k: string)
      modifies `rows
      ensures rows == old(rows) - {k}
      ensures forall now :: SharedGet(rows, k, now).None?
      ensures forall j, now :: j != k ==> SharedGet(rows, j, now) == SharedGet(old(rows), j, now)
    {
      rows := rows - {k};
    }

    method ClearPrefix(prefix: string) returns (count: nat)
      modifies `rows
      ensures rows == SharedClear(old(rows), prefix)
      ensures count == |old(rows)| - |rows|
    {
      var kept := SharedClear(rows, prefix);
      FewerRows(rows, kept);
      count := |rows| - |kept|;
      rows := kept;
    }
  }

  lemma FewerRows(a: Shared, b: Shared)
    requires b.Keys <= a.Keys
    ensures |b| <= |a|
  {
    SubsetSize(b.Keys, a.Keys);
  }

  class TieredCache {
    const front: InMemoryCache
    const shared: PostgresKeyValueStore

    constructor (front: InMemoryCache, shared: PostgresKeyValueStore)
      ensures this.front == front && this.shared == shared
    {
      this.front, this.shared := front, shared;
    }

    /** A front hit leaves the shared tier alone; a shared hit backfills the front with the shortened lifetime. */
    method Get(k: string, now: real) returns (value: Option<string>)
      modifies front, shared
      ensures shared.rows == old(shared.rows)
      ensures (value, front.entries) == TierGet(old(front.entries), front.max, shared.rows, k, now)
    {
      value := front.Get(k, now);
      if value.Some? {
        return;
      }
      value := shared.Get(k, now);
      if value.Some? {
        front.Set(k, value.value, L1_MAX_TTL_SECONDS, now);
      }
    }

    method Set(k: string, v: string, ttl: real, now: real)
      modifies front, shared
      ensures shared.rows == SharedSet(old(shared.rows), k, v, ttl, now)
      ensures front.entries == SetIn(old(front.entries), front.max, k, v, FrontTtl(ttl), now)
    {
      shared.Set(k, v, ttl, now);
      front.Set(k, v, FrontTtl(ttl), now);
    }

    method Delete(k: string)
      modifies front, shared
      ensures shared.rows == old(shared.rows) - {k} && front.entries == Without(old(front.entries), k)
    {
      front.Delete(k);
      shared.Delete(k);
    }

    method ClearPrefix(prefix: string) returns (count: nat)
      modifies front, shared
      ensures shared.rows == SharedClear(old(shared.rows), prefix)
      ensures front.entries == Removed(old(front.entries), Prefix(prefix))
      ensures count == |old(shared.rows)| - |shared.rows|
    {
      count := shared.ClearPrefix(prefix);
      var _ := front.ClearPrefix(prefix);
    }
  }

  function TierGet(entries: Slots, max: nat, t: Shared, k: string, now: real): (Option<string>, Slots) {
    var (hit, after) := GetFrom(entries, k, now);
    if hit.Some? then (hit, after)
    else
      var value := SharedGet(t, k, now);
      (value, if value.Some? then SetIn(after, max, k, value.value, L1_MAX_TTL_SECONDS, now) else after)
  }

  // ------------------------------------------------------------- many containers

  /** What reached the shared tier, in order. The store swallows its own errors, so a write may fail (`ok` false)
    * while its caller still goes on to fill the front; a failed removal leaves no trace. */
  datatype Event =
    | Wrote(key: string, value: string, ttl: real, at: real, ok: bool)
    | Dropped(key: string, at: real)
    | Swept(prefix: string, at: real)

  /** The event took the old value of `k` out of the shared tier. */
  predicate Supersedes(e: Event, k: string) {
    match e
    case Wrote(key, _, ttl, _, ok) => key == k && ttl > 0.0 && ok
    case Dropped(key, _) => key == k
    case Swept(prefix, _) => Cleared(k, prefix)
  }

  /** A front write that a coroutine in one container still owes, and when it touched the shared tier. */
  datatype Owed = Owed(container: nat, key: string, value: string, ttl: real, since: real)

  datatype System = System(fronts: seq<Slots>, owed: seq<Owed>, shared: Shared, log: seq<Event>, now: real)

  /** One await-to-await piece of a cache operation, in some container. */
  datatype Step =
    | ReadFront(c: nat, key: string)
    | ReadShared(c: nat, key: string)
    | FillFront(i: nat)
    | Write(c: nat, key: string, value: string, ttl: real, ok: bool)
    | DropFront(c: nat, key: string)
    | DropShared(key: string)
    | SweepShared(prefix: string)
    | SweepFront(c: nat, prefix: string)
    | ColdStart(c: nat)
    | Wait(seconds: real)

  /** What a read step answers. */
  function Answer(s: System, step: Step): Option<string> {
    match step
    case ReadFront(c, k) => if c < |s.fronts| then GetFrom(s.fronts[c], k, s.now).0 else None
    case ReadShared(c, k) => SharedGet(s.shared, k, s.now)
    case _ => None
  }

  /** One step. A front write happens at most `lag` seconds after the shared operation it follows;
    * with `lag == 0` every read-then-backfill is atomic. */
  function Apply(s: System, max: nat, lag: real, step: Step): System {
    match step
    case ReadFront(c, k) =>
      if c < |s.fronts| then s.(fronts := s.fronts[c := GetFrom(s.fronts[c], k, s.now).1]) else s
    case ReadShared(c, k) =>
      var v := SharedGet(s.shared, k, s.now);
      if v.Some? then s.(owed := s.owed + [Owed(c, k, v.value, L1_MAX_TTL_SECONDS, s.now)]) else s
    case FillFront(i) =>
      if i < |s.owed| && s.owed[i].container < |s.fronts| && s.now <= s.owed[i].since + lag then
        var o := s.owed[i];
        s.(fronts := s.fronts[o.container := SetIn(s.fronts[o.container], max, o.key, o.value, o.ttl, s.now)])
      else s
    case Write(c, k, v, ttl, ok) =>
      System(s.fronts, s.owed + [Owed(c, k, v, FrontTtl(ttl), s.now)],
             if ok then SharedSet(s.shared, k, v, ttl, s.now) else s.shared,
             s.log + [Wrote(k, v, ttl, s.now, ok)], s.now)
    case DropFront(c, k) =>
      if c < |s.fronts| then s.(fronts := s.fronts[c := Without(s.fronts[c], k)]) else s
    case DropShared(k) =>
      s.(shared := s.shared - {k}, log := s.log + [Dropped(k, s.now)])
    case SweepShared(prefix) =>
      s.(shared := SharedClear(s.shared, prefix), log := s.log + [Swept(prefix, s.now)])
    case SweepFront(c, prefix) =>
      if c < |s.fronts| then s.(fronts := s.fronts[c := Removed(s.fronts[c], Prefix(prefix))]) else s
    case ColdStart(c) =>
      if c < |s.fronts| then s.(fronts := s.fronts[c := []]) else s
    case Wait(d) =>
      if d > 0.0 then s.(now := s.now + d) else s
  }

  function Run(s: System, max: nat, lag: real, steps: seq<Step>): System {
    if steps == [] then s
    else Apply(Run(s, max, lag, steps[..|steps| - 1]), max, lag, steps[|steps| - 1])
  }

  function Start(containers: nat, now: real): System {
    System(seq(containers, _ => []), [], map[], [], now)
  }

  // ------------------------------------------------------------------- invariants

  /** Event `i` is where `v` came from, and it covers uses of `v` up to `until`, give or take `slack`:
    * no later than its lifetime, and no later than whatever superseded it. */
  ghost predicate Covers(log: seq<Event>, i: nat, k: string, v: string, until: real, slack: real) {
    && i < |log| && log[i].Wrote? && log[i].key == k && log[i].value == v && log[i].ttl > 0.0
    && until < log[i].at + log[i].ttl + slack
    && (forall j :: i < j < |log| && Supersedes(log[j], k) ==> until <= log[j].at + slack)
  }

  ghost predicate Covered(log: seq<Event>, k: string, v: string, until: real, slack: real) {
    exists i: nat :: Covers(log, i, k, v, until, slack)
  }

  ghost predicate FrontOk(entries: Slots, log: seq<Event>, now: real, lag: real) {
    forall e :: e in entries ==>
      e.expiresAt <= now + L1_MAX_TTL_SECONDS && Covered(log, e.key, e.value, e.expiresAt, L1_MAX_TTL_SECONDS + lag)
  }

  /** What is owed can still be justified as of the moment its coroutine touched the shared tier. */
  ghost predicate OwedOk(o: Owed, log: seq<Event>, now: real) {
    && o.since <= now && o.ttl <= L1_MAX_TTL_SECONDS
    && (o.ttl > 0.0 ==> Covered(log, o.key, o.value, o.since, 0.0))
  }

  /** A shared row is the last write of its key, and nothing has superseded it. */
  ghost predicate Latest(log: seq<Event>, i: nat, k: string, row: Stored) {
    && i < |log| && log[i].Wrote? && log[i].key == k && log[i].value == row.value && log[i].ttl > 0.0
    && row.expiresAt == log[i].at + log[i].ttl
    && (forall j :: i < j < |log| ==> !Supersedes(log[j], k))
  }

  ghost predicate RowOk(log: seq<Event>, k: string, row: Stored) {
    exists i: nat :: Latest(log, i, k, row)
  }

  ghost predicate FrontsOk(s: System, lag: real) {
    forall c :: 0 <= c < |s.fronts| ==> FrontOk(s.fronts[c], s.log, s.now, lag)
  }

  ghost predicate AllOwedOk(s: System) {
    forall i :: 0 <= i < |s.owed| ==> OwedOk(s.owed[i], s.log, s.now)
  }

  ghost predicate RowsOk(shared: Shared, log: seq<Event>) {
    forall k :: k in shared ==> RowOk(log, k, shared[k])
  }

  ghost predicate Inv(s: System, lag: real) {
    FrontsOk(s, lag) && AllOwedOk(s) && RowsOk(s.shared, s.log)
  }

  function At(e: Event): real {
    e.at
  }

  lemma CoverageGrows(log: seq<Event>, e: Event, k: string, v: string, until: real, slack: real)
    requires Covered(log, k, v, until, slack) && until <= At(e) + slack
    ensures Covered(log + [e], k, v, until, slack)
  {
    var i: nat :| Covers(log, i, k, v, until, slack);
    assert Covers(log + [e], i, k, v, until, slack);
  }

  lemma RowSurvives(log: seq<Event>, e: Event, k: string, row: Stored)
    requires RowOk(log, k, row) && !Supersedes(e, k)
    ensures RowOk(log + [e], k, row)
  {
    var i: nat :| Latest(log, i, k, row);
    assert Latest(log + [e], i, k, row);
  }

  /** A live shared row justifies a use right now, with nothing to spare. */
  lemma LiveRowCovers(log: seq<Event>, k: string, row: Stored, now: real)
    requires RowOk(log, k, row) && row.expiresAt > now
    ensures Covered(log, k, row.value, now, 0.0)
  {
    var i: nat :| Latest(log, i, k, row);
    assert Covers(log, i, k, row.value, now, 0.0);
  }

  /** Using a value up to 30 s after a front write that came at most `lag` after the shared operation. */
  lemma FillIsCovered(log: seq<Event>, o: Owed, now: real, lag: real)
    requires OwedOk(o, log, now) && o.ttl > 0.0 && now <= o.since + lag
    ensures Covered(log, o.key, o.value, now + o.ttl, L1_MAX_TTL_SECONDS + lag)
  {
    var i: nat :| Covers(log, i, o.key, o.value, o.since, 0.0);
    assert Covers(log, i, o.key, o.value, now + o.ttl, L1_MAX_TTL_SECONDS + lag);
  }

  lemma FrontGrowsWithLog(entries: Slots, log: seq<Event>, e: Event, now: real, lag: real)
    requires FrontOk(entries, log, now, lag) && At(e) == now && lag >= 0.0
    ensures FrontOk(entries, log + [e], now, lag)
  {
    hide Covered;
    forall x | x in entries ensures Covered(log + [e], x.key, x.value, x.expiresAt, L1_MAX_TTL_SECONDS + lag) {
      CoverageGrows(log, e, x.key, x.value, x.expiresAt, L1_MAX_TTL_SECONDS + lag);
    }
  }

  lemma OwedGrowsWithLog(o: Owed, log: seq<Event>, e: Event, now: real)
    requires OwedOk(o, log, now) && At(e) == now
    ensures OwedOk(o, log + [e], now)
  {
    hide Covered;
    if o.ttl > 0.0 {
      CoverageGrows(log, e, o.key, o.value, o.since, 0.0);
    }
  }

  /** Appending an event keeps everything but the rows, which are each case's own business. */
  lemma LogGrows(s: System, e: Event, lag: real, shared: Shared, more: seq<Owed>)
    requires Inv(s, lag) && At(e) == s.now && lag >= 0.0
    requires RowsOk(shared, s.log + [e])
    requires forall i :: 0 <= i < |more| ==> OwedOk(more[i], s.log + [e], s.now)
    ensures Inv(System(s.fronts, s.owed + more, shared, s.log + [e], s.now), lag)
  {
    hide FrontOk, OwedOk, RowsOk, At;
    var t := System(s.fronts, s.owed + more, shared, s.log + [e], s.now);
    forall c | 0 <= c < |s.fronts| ensures FrontOk(t.fronts[c], t.log, t.now, lag) {
      FrontGrowsWithLog(s.fronts[c], s.log, e, s.now, lag);
    }
    forall i | 0 <= i < |t.owed| ensures OwedOk(t.owed[i], t.log, t.now) {
      if i < |s.owed| {
        OwedGrowsWithLog(s.owed[i], s.log, e, s.now);
      } else {
        assert t.owed[i] == more[i - |s.owed|];
      }
    }
  }

  lemma RowsAfterRemoval(shared: Shared, left: Shared, log: seq<Event>, e: Event)
    requires RowsOk(shared, log)
    requires forall k :: k in left ==> k in shared && left[k] == shared[k] && !Supersedes(e, k)
    ensures RowsOk(left, log + [e])
  {
    hide RowOk, Supersedes;
    forall k | k in left ensures RowOk(log + [e], k, left[k]) {
      RowSurvives(log, e, k, left[k]);
    }
  }

  lemma RowsAfterWrite(shared: Shared, log: seq<Event>, k: string, v: string, ttl: real, now: real, ok: bool)
    requires RowsOk(shared, log)
    ensures RowsOk(if ok then SharedSet(shared, k, v, ttl, now) else shared, log + [Wrote(k, v, ttl, now, ok)])
  {
    hide RowOk;
    var e := Wrote(k, v, ttl, now, ok);
    var next := if ok then SharedSet(shared, k, v, ttl, now) else shared;
    forall j | j in next ensures RowOk(log + [e], j, next[j]) {
      if ok && ttl > 0.0 && j == k {
        NewRow(log, k, v, ttl, now);
      } else {
        RowSurvives(log, e, j, shared[j]);
      }
    }
  }

  lemma NewRow(log: seq<Event>, k: string, v: string, ttl: real, now: real)
    requires ttl > 0.0
    ensures RowOk(log + [Wrote(k, v, ttl, now, true)], k, Stored(v, now + ttl))
  {
    assert Latest(log + [Wrote(k, v, ttl, now, true)], |log|, k, Stored(v, now + ttl));
  }

  lemma NewOwed(log: seq<Event>, c: nat, k: string, v: string, ttl: real, now: real, ok: bool)
    ensures OwedOk(Owed(c, k, v, FrontTtl(ttl), now), log + [Wrote(k, v, ttl, now, ok)], now)
  {
    if ttl > 0.0 {
      assert Covers(log + [Wrote(k, v, ttl, now, ok)], |log|, k, v, now, 0.0);
    }
  }

  /** Replacing one front by entries that are all justified. */
  lemma OneFront(s: System, c: nat, entries: Slots, lag: real)
    requires Inv(s, lag) && c < |s.fronts| && FrontOk(entries, s.log, s.now, lag)
    ensures Inv(s.(fronts := s.fronts[c := entries]), lag)
  {
    hide FrontOk, OwedOk, RowsOk;
  }

  /** Reading, evicting and removing only ever shrink what a front holds. */
  lemma FrontShrinks(entries: Slots, fewer: Slots, log: seq<Event>, now: real, lag: real)
    requires FrontOk(entries, log, now, lag) && (forall e :: e in fewer ==> e in entries)
    ensures FrontOk(fewer, log, now, lag)
  {
    hide Covered;
  }

  lemma GetOnlyKeeps(entries: Slots, k: string, now: real)
    ensures forall e :: e in GetFrom(entries, k, now).1 ==> e in entries
    ensures GetFrom(entries, k, now).0.Some? ==>
      exists e :: e in entries && e.key == k && e.value == GetFrom(entries, k, now).0.value && now < e.expiresAt
  {
    hide Removed, KeysOf;
    FoundIffIn(entries, k);
    RemovedIsFilter(entries, Key(k));
  }

  lemma SetAddsOne(entries: Slots, max: nat, k: string, v: string, ttl: real, now: real)
    ensures forall e :: e in SetIn(entries, max, k, v, ttl, now) ==> e in entries || (ttl > 0.0 && e == Slot(k, v, now + ttl))
  {
    hide Removed;
    RemovedIsFilter(entries, Key(k));
    var w := Without(entries, k) + [Slot(k, v, now + ttl)];
    assert forall e :: e in Trim(w, max) ==> e in w;
  }

  lemma FillKeeps(s: System, max: nat, lag: real, i: nat)
    requires Inv(s, lag)
    ensures Inv(Apply(s, max, lag, FillFront(i)), lag)
  {
    hide Covered, SetIn, RowsOk;
    if i < |s.owed| && s.owed[i].container < |s.fronts| && s.now <= s.owed[i].since + lag {
      var o := s.owed[i];
      var was := s.fronts[o.container];
      var filled := SetIn(was, max, o.key, o.value, o.ttl, s.now);
      SetAddsOne(was, max, o.key, o.value, o.ttl, s.now);
      assert OwedOk(o, s.log, s.now);
      if o.ttl > 0.0 {
        FillIsCovered(s.log, o, s.now, lag);
      }
      assert FrontOk(was, s.log, s.now, lag);
      assert FrontOk(filled, s.log, s.now, lag);
      OneFront(s, o.container, filled, lag);
    }
  }

  lemma WriteKeeps(s: System, max: nat, lag: real, c: nat, k: string, v: string, ttl: real, ok: bool)
    requires Inv(s, lag) && lag >= 0.0
    ensures Inv(Apply(s, max, lag, Write(c, k, v, ttl, ok)), lag)
  {
    hide FrontsOk, AllOwedOk, RowsOk, OwedOk, SharedSet, FrontTtl;
    var e := Wrote(k, v, ttl, s.now, ok);
    RowsAfterWrite(s.shared, s.log, k, v, ttl, s.now, ok);
    NewOwed(s.log, c, k, v, ttl, s.now, ok);
    LogGrows(s, e, lag, if ok then SharedSet(s.shared, k, v, ttl, s.now) else s.shared,
             [Owed(c, k, v, FrontTtl(ttl), s.now)]);
  }

  lemma RemovalKeeps(s: System, lag: real, e: Event, left: Shared)
    requires Inv(s, lag) && lag >= 0.0 && At(e) == s.now
    requires forall k :: k in left ==> k in s.shared && left[k] == s.shared[k] && !Supersedes(e, k)
    ensures Inv(s.(shared := left, log := s.log + [e]), lag)
  {
    hide FrontsOk, AllOwedOk, RowsOk, OwedOk, Supersedes, At;
    RowsAfterRemoval(s.shared, left, s.log, e);
    LogGrows(s, e, lag, left, []);
    assert s.owed + [] == s.owed;
  }

  lemma ReadSharedKeeps(s: System, max: nat, lag: real, c: nat, k: string)
    requires Inv(s, lag)
    ensures Inv(Apply(s, max, lag, ReadShared(c, k)), lag)
  {
    hide FrontOk, RowOk, Covered;
    if SharedGet(s.shared, k, s.now).Some? {
      LiveRowCovers(s.log, k, s.shared[k], s.now);
    }
  }

  lemma WaitKeeps(s: System, max: nat, lag: real, d: real)
    requires Inv(s, lag)
    ensures Inv(Apply(s, max, lag, Wait(d)), lag)
  {
    hide Covered, RowsOk;
    var t := Apply(s, max, lag, Wait(d));
    forall c | 0 <= c < |s.fronts| ensures FrontOk(t.fronts[c], t.log, t.now, lag) {
      assert FrontOk(s.fronts[c], s.log, s.now, lag);
    }
    forall i | 0 <= i < |s.owed| ensures OwedOk(t.owed[i], t.log, t.now) {
      assert OwedOk(s.owed[i], s.log, s.now);
    }
  }

  lemma ShrinkKeeps(s: System, c: nat, fewer: Slots, lag: real)
    requires Inv(s, lag) && c < |s.fronts| && (forall e :: e in fewer ==> e in s.fronts[c])
    ensures Inv(s.(fronts := s.fronts[c := fewer]), lag)
  {
    hide FrontOk, OwedOk, RowsOk;
    FrontShrinks(s.fronts[c], fewer, s.log, s.now, lag);
    OneFront(s, c, fewer, lag);
  }

  lemma StepKeeps(s: System, max: nat, lag: real, step: Step)
    requires Inv(s, lag) && lag >= 0.0
    ensures Inv(Apply(s, max, lag, step), lag)
  {
    hide Inv, Removed, GetFrom, SetIn;
    match step
    case ReadFront(c, k) =>
      if c < |s.fronts| {
        GetOnlyKeeps(s.fronts[c], k, s.now);
        ShrinkKeeps(s, c, GetFrom(s.fronts[c], k, s.now).1, lag);
      }
    case ReadShared(c, k) => ReadSharedKeeps(s, max, lag, c, k);
    case FillFront(i) => FillKeeps(s, max, lag, i);
    case Write(c, k, v, ttl, ok) => WriteKeeps(s, max, lag, c, k, v, ttl, ok);
    case DropFront(c, k) =>
      if c < |s.fronts| {
        RemovedIsFilter(s.fronts[c], Key(k));
        ShrinkKeeps(s, c, Without(s.fronts[c], k), lag);
      }
    case DropShared(k) => RemovalKeeps(s, lag, Dropped(k, s.now), s.shared - {k});
    case SweepShared(prefix) =>
      RemovalKeeps(s, lag, Swept(prefix, s.now), SharedClear(s.shared, prefix));
    case SweepFront(c, prefix) =>
      if c < |s.fronts| {
        RemovedIsFilter(s.fronts[c], Prefix(prefix));
        ShrinkKeeps(s, c, Removed(s.fronts[c], Prefix(prefix)), lag);
      }
    case ColdStart(c) =>
      if c < |s.fronts| {
        ShrinkKeeps(s, c, [], lag);
      }
    case Wait(d) => WaitKeeps(s, max, lag, d);
  }

  lemma {:induction false} RunKeeps(containers: nat, now: real, max: nat, lag: real, steps: seq<Step>)
    requires lag >= 0.0
    ensures Inv(Run(Start(containers, now), max, lag, steps), lag)
  {
    hide Apply;
    if steps != [] {
      RunKeeps(containers, now, max, lag, steps[..|steps| - 1]);
      StepKeeps(Run(Start(containers, now), max, lag, steps[..|steps| - 1]), max, lag, steps[|steps| - 1]);
    }
  }

  // ------------------------------------------------------------------- staleness

  /** `v` was set for `k` by event `i`, is used at `t` less than its lifetime plus `slack` later, and
    * less than `slack` after whatever superseded it. */
  ghost predicate FreshFrom(log: seq<Event>, i: nat, k: string, v: string, t: real, slack: real) {
    && i < |log| && log[i].Wrote? && log[i].key == k && log[i].value == v && log[i].ttl > 0.0
    && t < log[i].at + log[i].ttl + slack
    && (forall j :: i < j < |log| && Supersedes(log[j], k) ==> t < log[j].at + slack)
  }

  ghost predicate Fresh(log: seq<Event>, k: string, v: string, t: real, slack: real) {
    exists i: nat :: FreshFrom(log, i, k, v, t, slack)
  }

  lemma CoveredIsFresh(log: seq<Event>, k: string, v: string, until: real, slack: real, t: real, wider: real)
    requires Covered(log, k, v, until, slack) && t <= until && slack <= wider && (t < until || slack < wider)
    ensures Fresh(log, k, v, t, wider)
  {
    var i: nat :| Covers(log, i, k, v, until, slack);
    assert FreshFrom(log, i, k, v, t, wider);
  }

  /** A justified answer is fresh. */
  lemma ReadIsFresh(s: System, lag: real, read: Step)
    requires Inv(s, lag) && lag >= 0.0 && Answer(s, read).Some?
    ensures Fresh(s.log, read.key, Answer(s, read).value, s.now, L1_MAX_TTL_SECONDS + lag)
  {
    hide Covered, Fresh, GetFrom, RowOk;
    var v := Answer(s, read).value;
    if read.ReadFront? {
      GetOnlyKeeps(s.fronts[read.c], read.key, s.now);
      var e :| e in s.fronts[read.c] && e.key == read.key && e.value == v && s.now < e.expiresAt;
      assert FrontOk(s.fronts[read.c], s.log, s.now, lag);
      CoveredIsFresh(s.log, read.key, v, e.expiresAt, L1_MAX_TTL_SECONDS + lag, s.now, L1_MAX_TTL_SECONDS + lag);
    } else {
      LiveRowCovers(s.log, read.key, s.shared[read.key], s.now);
      CoveredIsFresh(s.log, read.key, v, s.now, 0.0, s.now, L1_MAX_TTL_SECONDS + lag);
    }
  }

  /** The staleness bound, over every run of any number of containers: a value read at time `t` was set at some
    * `s` with `t < s + ttl + 30 + lag`, and no container returns it 30 + `lag` seconds or more after the shared
    * tier saw it overwritten, deleted or swept. */
  lemma StalenessIsBounded(containers: nat, start: real, max: nat, lag: real, steps: seq<Step>, read: Step)
    requires lag >= 0.0
    requires Answer(Run(Start(containers, start), max, lag, steps), read).Some?
    ensures var s := Run(Start(containers, start), max, lag, steps);
            Fresh(s.log, read.key, Answer(s, read).value, s.now, L1_MAX_TTL_SECONDS + lag)
  {
    hide Run, Fresh, Answer, Inv;
    RunKeeps(containers, start, max, lag, steps);
    ReadIsFresh(Run(Start(containers, start), max, lag, steps), lag, read);
  }

  /** The bound is tight: another container still answers with a deleted value right up to the 30 seconds. */
  lemma DeletedValueLingers(early: real)
    requires 0.0 < early <= 30.0
    ensures var steps := [Write(0, "k", "old", 300.0, true), ReadShared(1, "k"), FillFront(1), DropFront(0, "k"),
                          DropShared("k"), Wait(30.0 - early)];
            Answer(Run(Start(2, 0.0), 10, 0.0, steps), ReadFront(1, "k")) == Some("old")
  {
    hide Run;
    var steps := [Write(0, "k", "old", 300.0, true), ReadShared(1, "k"), FillFront(1), DropFront(0, "k"),
                  DropShared("k"), Wait(30.0 - early)];
    var s1 := Apply(Start(2, 0.0), 10, 0.0, steps[0]);
    var s2 := Apply(s1, 10, 0.0, steps[1]);
    var s3 := Apply(s2, 10, 0.0, steps[2]);
    var s4 := Apply(s3, 10, 0.0, steps[3]);
    var s5 := Apply(s4, 10, 0.0, steps[4]);
    var s6 := Apply(s5, 10, 0.0, steps[5]);
    assert s3.fronts[1] == [Slot("k", "old", 30.0)];
    RunUnrolls(Start(2, 0.0), 10, 0.0, steps, [s1, s2, s3, s4, s5, s6], 6);
  }

  lemma {:induction false} RunUnrolls(s: System, max: nat, lag: real, steps: seq<Step>, states: seq<System>, n: nat)
    requires |states| == |steps| && n <= |steps|
    requires steps != [] ==> states[0] == Apply(s, max, lag, steps[0])
    requires forall i :: 0 < i < |steps| ==> states[i] == Apply(states[i - 1], max, lag, steps[i])
    ensures Run(s, max, lag, steps[..n]) == if n == 0 then s else states[n - 1]
    ensures n == |steps| ==> Run(s, max, lag, steps) == if n == 0 then s else states[n - 1]
  {
    hide Apply;
    assert steps[..|steps|] == steps;
    if n > 0 {
      RunUnrolls(s, max, lag, steps, states, n - 1);
      var now, before := steps[..n], steps[..n - 1];
      assert now[..|now| - 1] == before && now[|now| - 1] == steps[n - 1];
      assert Run(s, max, lag, now) == Apply(Run(s, max, lag, before), max, lag, steps[n - 1]);
    }
  }

  // ------------------------------------------- the methods are runs of the protocol

  /** An uninterrupted `get` is a front read, then on a miss a shared read and its backfill at once. */
  lemma GetIsARun(s: System, max: nat, lag: real, c: nat, k: string)
    requires c < |s.fronts| && lag >= 0.0
    ensures var (value, front) := TierGet(s.fronts[c], max, s.shared, k, s.now);
            var hit := Answer(s, ReadFront(c, k));
            var s1 := Apply(s, max, lag, ReadFront(c, k));
            var s2 := Apply(s1, max, lag, ReadShared(c, k));
            var s3 := if Answer(s1, ReadShared(c, k)).Some? then Apply(s2, max, lag, FillFront(|s.owed|)) else s2;
            if hit.Some? then value == hit && s1.fronts == s.fronts[c := front]
            else value == Answer(s1, ReadShared(c, k)) && s3.fronts == s.fronts[c := front] && s3.shared == s.shared
  {
    hide GetFrom, SetIn;
  }

  /** An uninterrupted `set` is a write of the shared tier and its front write at once. */
  lemma SetIsARun(s: System, max: nat, lag: real, c: nat, k: string, v: string, ttl: real)
    requires c < |s.fronts| && lag >= 0.0
    ensures var s1 := Apply(s, max, lag, Write(c, k, v, ttl, true));
            var s2 := Apply(s1, max, lag, FillFront(|s.owed|));
            && s2.shared == SharedSet(s.shared, k, v, ttl, s.now)
            && s2.fronts == s.fronts[c := SetIn(s.fronts[c], max, k, v, FrontTtl(ttl), s.now)]
  {
    hide SetIn, SharedSet, FrontTtl;
  }

  /** An uninterrupted `delete` drops the key from the front and then from the shared tier. */
  lemma DeleteIsARun(s: System, max: nat, lag: real, c: nat, k: string)
    requires c < |s.fronts|
    ensures var s1 := Apply(s, max, lag, DropFront(c, k));
            var s2 := Apply(s1, max, lag, DropShared(k));
            s2.shared == s.shared - {k} && s2.fronts == s.fronts[c := Without(s.fronts[c], k)]
  {
    hide Removed;
  }

  /** An uninterrupted `clear_prefix` sweeps the shared tier and then the front. */
  lemma ClearIsARun(s: System, max: nat, lag: real, c: nat, prefix: string)
    requires c < |s.fronts|
    ensures var s1 := Apply(s, max, lag, SweepShared(prefix));
            var s2 := Apply(s1, max, lag, SweepFront(c, prefix));
            s2.shared == SharedClear(s.shared, prefix) && s2.fronts == s.fronts[c := Removed(s.fronts[c], Prefix(prefix))]
  {
    hide Removed, SharedClear;
  }

  // ------------------------------------------------------------- what is answered

  /** Right after a set, the key reads back: from the front if it still holds it, else from the shared tier. */
  lemma SetThenGet(entries: Slots, max: nat, rows: Shared, k: string, v: string, ttl: real, at: real, now: real)
    requires Bounded(entries, max) && at <= now < at + ttl
    ensures TierGet(SetIn(entries, max, k, v, FrontTtl(ttl), at), max, SharedSet(rows, k, v, ttl, at), k, now).0 == Some(v)
  {
    hide Removed;
    var e := Slot(k, v, at + FrontTtl(ttl));
    var w := Without(entries, k) + [e];
    var s := Trim(w, max);
    PushedIsDistinct(entries, e);
    TrimStaysDistinct(w, max);
    if max > 0 {
      assert s[|s| - 1] == e;
      FindDistinct(s, |s| - 1);
    } else {
      assert s == [];
    }
  }

  /** The front alone answers a set for its lifetime, but for thirty seconds at most. */
  lemma FrontAnswersExactly(entries: Slots, max: nat, k: string, v: string, ttl: real, at: real, now: real)
    requires Bounded(entries, max) && max > 0 && ttl > 0.0 && at <= now
    ensures GetFrom(SetIn(entries, max, k, v, FrontTtl(ttl), at), k, now).0
         == if now < at + ttl && now < at + 30.0 then Some(v) else None
  {
    hide Removed;
    var e := Slot(k, v, at + FrontTtl(ttl));
    var w := Without(entries, k) + [e];
    var s := Trim(w, max);
    PushedIsDistinct(entries, e);
    TrimStaysDistinct(w, max);
    assert s[|s| - 1] == e;
    FindDistinct(s, |s| - 1);
  }

  /** The last write of the key that reached the shared tier, unless something removed the key after it. */
  function LastWrite(log: seq<Event>, k: string): Option<Stored> {
    if log == [] then None
    else
      var e := log[|log| - 1];
      match e
      case Wrote(key, value, ttl, at, ok) =>
        if key == k && ttl > 0.0 && ok then Some(Stored(value, at + ttl)) else LastWrite(log[..|log| - 1], k)
      case Dropped(key, _) => if key == k then None else LastWrite(log[..|log| - 1], k)
      case Swept(prefix, _) => if Cleared(k, prefix) then None else LastWrite(log[..|log| - 1], k)
  }

  lemma LastWriteStep(s: System, max: nat, lag: real, step: Step, k: string)
    requires LastWrite(s.log, k) == if k in s.shared then Some(s.shared[k]) else None
    ensures var t := Apply(s, max, lag, step); LastWrite(t.log, k) == if k in t.shared then Some(t.shared[k]) else None
  {
    hide GetFrom, SetIn, Removed, Cleared;
    var t := Apply(s, max, lag, step);
    if t.log != s.log {
      assert t.log[..|t.log| - 1] == s.log;
    }
  }

  lemma {:induction false} SharedTierIsItsLog(containers: nat, start: real, max: nat, lag: real, steps: seq<Step>, k: string)
    ensures var s := Run(Start(containers, start), max, lag, steps);
            LastWrite(s.log, k) == if k in s.shared then Some(s.shared[k]) else None
    decreases |steps|
  {
    hide Apply;
    if steps != [] {
      SharedTierIsItsLog(containers, start, max, lag, steps[..|steps| - 1], k);
      LastWriteStep(Run(Start(containers, start), max, lag, steps[..|steps| - 1]), max, lag, steps[|steps| - 1], k);
    }
  }

  /** A read of the shared tier is never stale and never misses: over every run it answers exactly the last write that
    * reached it, if nothing removed the key since and its lifetime is not over. */
  lemma SharedAnswersExactly(containers: nat, start: real, max: nat, lag: real, steps: seq<Step>, c: nat, k: string)
    ensures var s := Run(Start(containers, start), max, lag, steps);
            var w := LastWrite(s.log, k);
            Answer(s, ReadShared(c, k)) == if w.Some? && w.value.expiresAt > s.now then Some(w.value.value) else None
  {
    hide Run;
    SharedTierIsItsLog(containers, start, max, lag, steps, k);
  }
}

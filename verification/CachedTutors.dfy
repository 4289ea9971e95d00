/** The candidate-pool cache in front of the tutor search. */
module CachedTutors {
  import opened Wrappers
  import opened LikePatterns
  import LruCache
  import opened TieredCache

  const MAX_CACHED_POOL := 200
  const POOL_TTL_SECONDS := 120.0

  datatype Freshness = Fresh | Aging | Stale | Unknown

  datatype Candidate = Candidate(tutor: string, syncedAt: Option<real>, freshness: Freshness)

  type Pool = seq<Candidate>

  /** A candidate query. An empty `publicRef` is no reference. */
  datatype Query = Query(subjects: seq<string>, boards: seq<string>, classNumber: Option<int>, classLabels: seq<string>,
                         cityAliases: seq<string>, nameTerms: seq<string>, pincode: string, mode: string, gender: string,
                         maxFee: Option<int>, limit: int, minFreshness: seq<Freshness>, publicRef: string)

  /** What the fingerprint depends on: not the class labels, not the wanted freshness, and subjects, boards and
    * cities only up to order. */
  datatype Shape = Shape(subjects: multiset<string>, boards: multiset<string>, classNumber: Option<int>,
                         cityAliases: multiset<string>, nameTerms: seq<string>, pincode: string, mode: string,
                         gender: string, maxFee: Option<int>, limit: int, publicRef: string)

  function ShapeOf(q: Query): Shape {
    Shape(multiset(q.subjects), multiset(q.boards), q.classNumber, multiset(q.cityAliases), q.nameTerms, q.pincode,
          q.mode, q.gender, q.maxFee, q.limit, q.publicRef)
  }

  /** The parts that are not empty, joined by colons. */
  function PoolKey(policy: string, fingerprint: string): string {
    "v1:pool" + (if policy == "" then "" else ":" + policy) + (if fingerprint == "" then "" else ":" + fingerprint)
  }

  /** The cache's parameters: the policy reference, any digest of a shape, and the pool codec. */
  datatype Config = Config(policy: string, digest: Shape -> string, encode: Pool -> string, decode: string -> Option<Pool>,
                           freshHours: real, agingHours: real)

  function KeyOf(cfg: Config, q: Query): string {
    PoolKey(cfg.policy, cfg.digest(ShapeOf(q)))
  }

  function FreshnessFor(cfg: Config, syncedAt: Option<real>, now: real): Freshness {
    if syncedAt.None? then Unknown
    else if now - syncedAt.value <= cfg.freshHours * 3600.0 then Freshness.Fresh
    else if now - syncedAt.value <= cfg.agingHours * 3600.0 then Aging
    else Stale
  }

  /** A pool with every candidate's freshness recomputed against `now`. */
  function Refreshed(cfg: Config, p: Pool, now: real): (r: Pool)
    ensures |r| == |p|
  {
    seq(|p|, i requires 0 <= i < |p| => p[i].(freshness := FreshnessFor(cfg, p[i].syncedAt, now)))
  }

  /** Caching does not age the label: a pool labelled at `t0` and refreshed at `t1` reads as if labelled at `t1`. */
  lemma RefreshForgetsTheCachedLabel(cfg: Config, p: Pool, t0: real, t1: real)
    ensures Refreshed(cfg, Refreshed(cfg, p, t0), t1) == Refreshed(cfg, p, t1)
  {
    var once, twice := Refreshed(cfg, p, t1), Refreshed(cfg, Refreshed(cfg, p, t0), t1);
    forall i | 0 <= i < |p| ensures twice[i] == once[i] {
      assert Refreshed(cfg, p, t0)[i].syncedAt == p[i].syncedAt;
    }
  }

  /** The labels, by name: a candidate never synced is unknown; otherwise it is fresh up to `freshHours` after it was
    * synced, aging up to `agingHours` after, and stale from then on. Nothing else about it changes. */
  lemma LabelsByName(cfg: Config, p: Pool, now: real, i: nat)
    requires i < |p| && cfg.freshHours <= cfg.agingHours
    ensures var c := Refreshed(cfg, p, now)[i];
            && c.tutor == p[i].tutor && c.syncedAt == p[i].syncedAt
            && (c.freshness == Unknown <==> c.syncedAt.None?)
            && (c.freshness == Freshness.Fresh <==> c.syncedAt.Some? && now <= c.syncedAt.value + cfg.freshHours * 3600.0)
            && (c.freshness == Stale <==> c.syncedAt.Some? && now > c.syncedAt.value + cfg.agingHours * 3600.0)
  {
  }

  /** Two queries have one pool key exactly if their digests agree. */
  lemma KeysAgreeExactly(cfg: Config, q1: Query, q2: Query)
    ensures KeyOf(cfg, q1) == KeyOf(cfg, q2) <==> cfg.digest(ShapeOf(q1)) == cfg.digest(ShapeOf(q2))
  {
    hide ShapeOf;
    var prefix := "v1:pool" + (if cfg.policy == "" then "" else ":" + cfg.policy);
    var a, b := cfg.digest(ShapeOf(q1)), cfg.digest(ShapeOf(q2));
    var x, y := if a == "" then "" else ":" + a, if b == "" then "" else ":" + b;
    assert KeyOf(cfg, q1) == prefix + x && KeyOf(cfg, q2) == prefix + y;
    assert (prefix + x)[|prefix|..] == x && (prefix + y)[|prefix|..] == y;
    if x == y && a != "" && b != "" {
      assert (":" + a)[1..] == a && (":" + b)[1..] == b;
    }
  }

  // ------------------------------------------------------------------- the decorator

  function Cached(cfg: Config, raw: Option<string>): Option<Pool> {
    if raw.None? then None else cfg.decode(raw.value)
  }

  predicate WorthCaching(p: Pool) {
    0 < |p| <= MAX_CACHED_POOL
  }

  class CachedTutorRepository {
    const cache: TieredCache
    const cfg: Config
    var hits: nat
    var misses: nat
    var errors: nat

    constructor (cache: TieredCache, cfg: Config)
      ensures this.cache == cache && this.cfg == cfg && hits == misses == errors == 0
    {
      this.cache, this.cfg := cache, cfg;
      hits, misses, errors := 0, 0, 0;
    }

    /** `fetched` is what the wrapped repository would answer. A query for one tutor bypasses the cache. */
    method Search(q: Query, now: real, fetched: Pool) returns (pool: Pool)
      modifies this, cache.front, cache.shared
      ensures (pool, cache.front.entries, cache.shared.rows)
           == Searched(cfg, cache.front.max, old(cache.front.entries), old(cache.shared.rows), q, now, fetched)
      ensures q.publicRef != "" ==>
                pool == fetched && cache.front.entries == old(cache.front.entries) && cache.shared.rows == old(cache.shared.rows)
      ensures |fetched| == 0 || |fetched| > 200 ==> cache.shared.rows == old(cache.shared.rows)
      ensures q.publicRef != "" ==> hits == old(hits) && misses == old(misses)
      ensures q.publicRef == "" ==> hits + misses == old(hits) + old(misses) + 1
    {
      if q.publicRef != "" {
        return fetched;
      }
      var key := KeyOf(cfg, q);
      var raw := cache.Get(key, now);
      if raw.Some? {
        var decoded := cfg.decode(raw.value);
        if decoded.Some? {
          hits := hits + 1;
          return Refreshed(cfg, decoded.value, now);
        }
        errors := errors + 1;
      }
      misses := misses + 1;
      if 0 < |fetched| <= MAX_CACHED_POOL {
        cache.Set(key, cfg.encode(fetched), POOL_TTL_SECONDS, now);
      }
      return fetched;
    }
  }

  function Searched(cfg: Config, max: nat, entries: LruCache.Slots, rows: Shared, q: Query, now: real, fetched: Pool)
    : (Pool, LruCache.Slots, Shared)
  {
    if q.publicRef != "" then (fetched, entries, rows)
    else
      var (raw, after) := TierGet(entries, max, rows, KeyOf(cfg, q), now);
      if Cached(cfg, raw).Some? then (Refreshed(cfg, Cached(cfg, raw).value, now), after, rows)
      else if WorthCaching(fetched) then
        (fetched,
         LruCache.SetIn(after, max, KeyOf(cfg, q), cfg.encode(fetched), FrontTtl(POOL_TTL_SECONDS), now),
         SharedSet(rows, KeyOf(cfg, q), cfg.encode(fetched), POOL_TTL_SECONDS, now))
      else (fetched, after, rows)
  }

  // ------------------------------------------------------- pools across containers

  /** One read of the wrapped repository. */
  datatype Fetch = Fetch(query: Query, pool: Pool, at: real)

  datatype Repo = Repo(sys: System, fetches: seq<Fetch>)

  datatype RepoStep =
    | OnCache(step: Step)
    | FetchPool(query: Query, pool: Pool)
    | StorePool(c: nat, i: nat, ok: bool)

  predicate IsPoolKey(cfg: Config, k: string) {
    PoolKey(cfg.policy, "") <= k
  }

  /** Only the decorator writes pool keys; a pool is stored at most `lag` seconds after it was fetched. */
  function RepoApply(cfg: Config, r: Repo, max: nat, lag: real, step: RepoStep): Repo {
    match step
    case OnCache(s) =>
      if s.Write? && IsPoolKey(cfg, s.key) then r else Repo(Apply(r.sys, max, lag, s), r.fetches)
    case FetchPool(q, p) => Repo(r.sys, r.fetches + [Fetch(q, p, r.sys.now)])
    case StorePool(c, i, ok) =>
      if i < |r.fetches| && r.fetches[i].query.publicRef == "" && WorthCaching(r.fetches[i].pool)
         && r.sys.now <= r.fetches[i].at + lag
      then Repo(Apply(r.sys, max, lag, StoreStep(cfg, c, r.fetches[i], ok)), r.fetches)
      else r
  }

  function StoreStep(cfg: Config, c: nat, f: Fetch, ok: bool): Step {
    Write(c, KeyOf(cfg, f.query), cfg.encode(f.pool), POOL_TTL_SECONDS, ok)
  }

  function RepoRun(cfg: Config, r: Repo, max: nat, lag: real, steps: seq<RepoStep>): Repo {
    if steps == [] then r
    else RepoApply(cfg, RepoRun(cfg, r, max, lag, steps[..|steps| - 1]), max, lag, steps[|steps| - 1])
  }

  /** The write `e` stored the pool of fetch `f`, soon after it was fetched. */
  ghost predicate StoredFrom(cfg: Config, e: Event, f: Fetch, lag: real) {
    && e.Wrote? && e.key == KeyOf(cfg, f.query) && e.value == cfg.encode(f.pool) && e.ttl == POOL_TTL_SECONDS
    && e.at <= f.at + lag && WorthCaching(f.pool) && f.query.publicRef == ""
  }

  ghost predicate HasFetch(cfg: Config, e: Event, fetches: seq<Fetch>, lag: real) {
    exists i :: 0 <= i < |fetches| && StoredFrom(cfg, e, fetches[i], lag)
  }

  ghost predicate PoolsComeFromFetches(cfg: Config, log: seq<Event>, fetches: seq<Fetch>, lag: real) {
    forall j :: 0 <= j < |log| && log[j].Wrote? && IsPoolKey(cfg, log[j].key) ==> HasFetch(cfg, log[j], fetches, lag)
  }

  /** `invalidate` clears by a prefix that every pool key of the policy has; unless there is a backslash in the policy's
    * name, clearing it reaches them in the shared tier too. */
  lemma InvalidateReachesEveryPool(cfg: Config, q: Query, at: real)
    ensures IsPoolKey(cfg, KeyOf(cfg, q))
    ensures NoBackslash(cfg.policy) ==> Supersedes(Swept(PoolKey(cfg.policy, ""), at), KeyOf(cfg, q))
  {
    var prefix, k := PoolKey(cfg.policy, ""), KeyOf(cfg, q);
    assert k == prefix + k[|prefix|..];
    if NoBackslash(cfg.policy) {
      assert NoBackslash("v1:pool") && NoBackslash(":" + cfg.policy);
      PrefixMatches(prefix, k[|prefix|..]);
    }
  }

  ghost predicate RepoInv(cfg: Config, r: Repo, lag: real) {
    Inv(r.sys, lag) && PoolsComeFromFetches(cfg, r.sys.log, r.fetches, lag)
  }

  /** Only a write adds a write to the log. */
  lemma LogGrowsByItsOwnStep(s: System, max: nat, lag: real, step: Step)
    ensures s.log <= Apply(s, max, lag, step).log
    ensures forall j :: |s.log| <= j < |Apply(s, max, lag, step).log| && Apply(s, max, lag, step).log[j].Wrote?
              ==> step.Write? && Apply(s, max, lag, step).log[j] == Wrote(step.key, step.value, step.ttl, s.now, step.ok)
  {
  }

  lemma RepoStepKeeps(cfg: Config, r: Repo, max: nat, lag: real, step: RepoStep)
    requires RepoInv(cfg, r, lag) && lag >= 0.0
    ensures RepoInv(cfg, RepoApply(cfg, r, max, lag, step), lag)
  {
    hide Inv, StoredFrom, Apply;
    var t := RepoApply(cfg, r, max, lag, step);
    match step
    case OnCache(s) =>
      StepKeeps(r.sys, max, lag, s);
      LogGrowsByItsOwnStep(r.sys, max, lag, s);
    case FetchPool(q, p) =>
      forall j | 0 <= j < |t.sys.log| && t.sys.log[j].Wrote? && IsPoolKey(cfg, t.sys.log[j].key)
        ensures HasFetch(cfg, t.sys.log[j], t.fetches, lag)
      {
        var i :| 0 <= i < |r.fetches| && StoredFrom(cfg, r.sys.log[j], r.fetches[i], lag);
        assert t.fetches[i] == r.fetches[i];
      }
    case StorePool(c, i, ok) => StoreKeeps(cfg, r, max, lag, c, i, ok);
  }

  lemma StoreKeeps(cfg: Config, r: Repo, max: nat, lag: real, c: nat, i: nat, ok: bool)
    requires RepoInv(cfg, r, lag) && lag >= 0.0
    ensures RepoInv(cfg, RepoApply(cfg, r, max, lag, StorePool(c, i, ok)), lag)
  {
    hide Inv, Apply, KeyOf, IsPoolKey;
    if i < |r.fetches| && r.fetches[i].query.publicRef == "" && WorthCaching(r.fetches[i].pool)
       && r.sys.now <= r.fetches[i].at + lag {
      var step := StoreStep(cfg, c, r.fetches[i], ok);
      StepKeeps(r.sys, max, lag, step);
      LogGrowsByItsOwnStep(r.sys, max, lag, step);
      assert StoredFrom(cfg, Wrote(step.key, step.value, step.ttl, r.sys.now, ok), r.fetches[i], lag);
    }
  }

  lemma {:induction false} RepoRunKeeps(cfg: Config, containers: nat, start: real, max: nat, lag: real, steps: seq<RepoStep>)
    requires lag >= 0.0
    ensures RepoInv(cfg, RepoRun(cfg, Repo(Start(containers, start), []), max, lag, steps), lag)
  {
    hide RepoApply;
    if steps != [] {
      RepoRunKeeps(cfg, containers, start, max, lag, steps[..|steps| - 1]);
      RepoStepKeeps(cfg, RepoRun(cfg, Repo(Start(containers, start), []), max, lag, steps[..|steps| - 1]), max, lag, steps[|steps| - 1]);
    }
  }

  /** The served text is a pool fetched less than `150 + 2 lag` seconds ago by a query with the same key, and less
    * than `30 + lag` seconds after anything that invalidated it in the shared tier. */
  ghost predicate ServedFrom(cfg: Config, log: seq<Event>, j: nat, f: Fetch, k: string, raw: string, now: real, lag: real) {
    && FreshFrom(log, j, k, raw, now, L1_MAX_TTL_SECONDS + lag)
    && k == KeyOf(cfg, f.query) && raw == cfg.encode(f.pool) && WorthCaching(f.pool) && f.query.publicRef == ""
    && now < f.at + POOL_TTL_SECONDS + L1_MAX_TTL_SECONDS + 2.0 * lag
  }

  ghost predicate Served(cfg: Config, r: Repo, k: string, raw: string, lag: real) {
    exists j: nat, i :: 0 <= i < |r.fetches| && ServedFrom(cfg, r.sys.log, j, r.fetches[i], k, raw, r.sys.now, lag)
  }

  /** Over every run of any number of containers, a cached pool is at most 150 seconds old. */
  lemma CachedPoolsAreRecent(cfg: Config, containers: nat, start: real, max: nat, lag: real, steps: seq<RepoStep>,
                             q: Query, read: Step)
    requires lag >= 0.0
    requires (read.ReadFront? || read.ReadShared?) && read.key == KeyOf(cfg, q)
    requires Answer(RepoRun(cfg, Repo(Start(containers, start), []), max, lag, steps).sys, read).Some?
    ensures var r := RepoRun(cfg, Repo(Start(containers, start), []), max, lag, steps);
            Served(cfg, r, read.key, Answer(r.sys, read).value, lag)
  {
    hide Inv, Answer, FreshFrom, KeyOf, RepoRun;
    var r := RepoRun(cfg, Repo(Start(containers, start), []), max, lag, steps);
    var raw := Answer(r.sys, read).value;
    RepoRunKeeps(cfg, containers, start, max, lag, steps);
    ReadIsFresh(r.sys, lag, read);
    var j: nat :| FreshFrom(r.sys.log, j, read.key, raw, r.sys.now, L1_MAX_TTL_SECONDS + lag);
    FreshFromMeans(r.sys.log, j, read.key, raw, r.sys.now, L1_MAX_TTL_SECONDS + lag);
    InvalidateReachesEveryPool(cfg, q, r.sys.now);
    assert HasFetch(cfg, r.sys.log[j], r.fetches, lag);
    var i :| 0 <= i < |r.fetches| && StoredFrom(cfg, r.sys.log[j], r.fetches[i], lag);
    assert ServedFrom(cfg, r.sys.log, j, r.fetches[i], read.key, raw, r.sys.now, lag);
  }

  lemma FreshFromMeans(log: seq<Event>, j: nat, k: string, v: string, t: real, slack: real)
    requires FreshFrom(log, j, k, v, t, slack)
    ensures j < |log| && log[j].Wrote? && log[j].key == k && log[j].value == v && t < log[j].at + log[j].ttl + slack
  {
  }

  // --------------------------------------------------- a search is a run of the system

  lemma RepoRunSnoc(cfg: Config, r: Repo, max: nat, lag: real, steps: seq<RepoStep>, step: RepoStep)
    ensures RepoRun(cfg, r, max, lag, steps + [step]) == RepoApply(cfg, RepoRun(cfg, r, max, lag, steps), max, lag, step)
  {
    hide RepoApply;
    assert (steps + [step])[..|steps|] == steps;
  }

  lemma {:induction false} RepoRunConcat(cfg: Config, r: Repo, max: nat, lag: real, a: seq<RepoStep>, b: seq<RepoStep>)
    ensures RepoRun(cfg, r, max, lag, a + b) == RepoRun(cfg, RepoRun(cfg, r, max, lag, a), max, lag, b)
    decreases |b|
  {
    hide RepoApply;
    if b == [] {
      assert a + b == a;
    } else {
      var n := |b| - 1;
      assert a + b == (a + b[..n]) + [b[n]];
      RepoRunConcat(cfg, r, max, lag, a, b[..n]);
      RepoRunSnoc(cfg, r, max, lag, a + b[..n], b[n]);
    }
  }

  /** The steps of an uninterrupted read: the front, on a miss the shared tier, on a hit there the backfill. */
  function GetSteps(s: System, c: nat, k: string): seq<RepoStep> {
    [OnCache(ReadFront(c, k))]
    + (if Answer(s, ReadFront(c, k)).Some? then []
       else [OnCache(ReadShared(c, k))]
            + (if SharedGet(s.shared, k, s.now).Some? then [OnCache(FillFront(|s.owed|))] else []))
  }

  /** The steps after a miss: the fetch, and if the pool is worth caching its write and front write. */
  function StoreSteps(r: Repo, c: nat, q: Query, fetched: Pool): seq<RepoStep> {
    [FetchPool(q, fetched)]
    + (if WorthCaching(fetched) then [StorePool(c, |r.fetches|, true), OnCache(FillFront(|r.sys.owed|))] else [])
  }

  function SearchSteps(cfg: Config, r: Repo, max: nat, lag: real, c: nat, q: Query, fetched: Pool): seq<RepoStep>
    requires c < |r.sys.fronts|
  {
    if q.publicRef != "" then []
    else
      var k := KeyOf(cfg, q);
      var gets := GetSteps(r.sys, c, k);
      if Cached(cfg, TierGet(r.sys.fronts[c], max, r.sys.shared, k, r.sys.now).0).Some? then gets
      else gets + StoreSteps(RepoRun(cfg, r, max, lag, gets), c, q, fetched)
  }

  lemma GetRuns(cfg: Config, r: Repo, max: nat, lag: real, c: nat, k: string)
    requires c < |r.sys.fronts| && lag >= 0.0
    ensures var t := RepoRun(cfg, r, max, lag, GetSteps(r.sys, c, k));
            && t.fetches == r.fetches && t.sys.now == r.sys.now && t.sys.shared == r.sys.shared
            && t.sys.fronts == r.sys.fronts[c := TierGet(r.sys.fronts[c], max, r.sys.shared, k, r.sys.now).1]
  {
    hide LruCache.GetFrom, LruCache.SetIn, RepoRun, SharedGet;
    var a, b, f := OnCache(ReadFront(c, k)), OnCache(ReadShared(c, k)), OnCache(FillFront(|r.sys.owed|));
    GetIsARun(r.sys, max, lag, c, k);
    NoSteps(cfg, r, max, lag);
    RepoRunSnoc(cfg, r, max, lag, [], a);
    RepoRunSnoc(cfg, r, max, lag, [a], b);
    RepoRunSnoc(cfg, r, max, lag, [a, b], f);
    assert [] + [a] == [a] && [a] + [b] == [a, b] && [a, b] + [f] == [a] + ([b] + [f]);
    assert [a] + ([b] + []) == [a, b] && [a] + [] == [a];
  }

  lemma NoSteps(cfg: Config, r: Repo, max: nat, lag: real)
    ensures RepoRun(cfg, r, max, lag, []) == r
  {
  }

  lemma StoreRuns(cfg: Config, r: Repo, max: nat, lag: real, c: nat, q: Query, fetched: Pool)
    requires c < |r.sys.fronts| && lag >= 0.0 && q.publicRef == ""
    ensures var t := RepoRun(cfg, r, max, lag, StoreSteps(r, c, q, fetched));
            var k := KeyOf(cfg, q);
            if WorthCaching(fetched) then
              && t.sys.fronts == r.sys.fronts[c := LruCache.SetIn(r.sys.fronts[c], max, k, cfg.encode(fetched), FrontTtl(POOL_TTL_SECONDS), r.sys.now)]
              && t.sys.shared == SharedSet(r.sys.shared, k, cfg.encode(fetched), POOL_TTL_SECONDS, r.sys.now)
            else t.sys == r.sys
  {
    hide LruCache.SetIn, RepoRun, SharedSet, KeyOf, FrontTtl;
    var a, b, f := FetchPool(q, fetched), StorePool(c, |r.fetches|, true), OnCache(FillFront(|r.sys.owed|));
    SetIsARun(r.sys, max, lag, c, KeyOf(cfg, q), cfg.encode(fetched), POOL_TTL_SECONDS);
    NoSteps(cfg, r, max, lag);
    RepoRunSnoc(cfg, r, max, lag, [], a);
    RepoRunSnoc(cfg, r, max, lag, [a], b);
    RepoRunSnoc(cfg, r, max, lag, [a, b], f);
    assert [] + [a] == [a] && [a] + [b] == [a, b] && [a, b] + [f] == [a] + [b, f];
    assert [a] + [] == [a];
  }

  /** An uninterrupted search is a run of the system the recency bound is about, and leaves what `Search` leaves. */
  lemma SearchIsARun(cfg: Config, r: Repo, max: nat, lag: real, c: nat, q: Query, fetched: Pool)
    requires c < |r.sys.fronts| && lag >= 0.0
    ensures var t := RepoRun(cfg, r, max, lag, SearchSteps(cfg, r, max, lag, c, q, fetched));
            var (_, front, shared) := Searched(cfg, max, r.sys.fronts[c], r.sys.shared, q, r.sys.now, fetched);
            t.sys.fronts == r.sys.fronts[c := front] && t.sys.shared == shared
  {
    hide LruCache.SetIn, RepoRun, SharedSet, KeyOf, FrontTtl, TierGet, GetSteps, StoreSteps, WorthCaching, Cached;
    NoSteps(cfg, r, max, lag);
    if q.publicRef == "" {
      var gets := GetSteps(r.sys, c, KeyOf(cfg, q));
      var t := RepoRun(cfg, r, max, lag, gets);
      GetRuns(cfg, r, max, lag, c, KeyOf(cfg, q));
      if Cached(cfg, TierGet(r.sys.fronts[c], max, r.sys.shared, KeyOf(cfg, q), r.sys.now).0).None? {
        StoreRuns(cfg, t, max, lag, c, q, fetched);
        RepoRunConcat(cfg, r, max, lag, gets, StoreSteps(t, c, q, fetched));
      }
    }
  }

  // ------------------------------------------------ what the fingerprint leaves out

  /** Two queries that differ only in class labels, wanted freshness or the order of their lists share a pool: for
    * two minutes the second is answered with the pool fetched for the first, whatever its own fetch would give. */
  lemma SameShapeSharesThePool(cfg: Config, max: nat, entries: LruCache.Slots, rows: Shared, q1: Query, q2: Query,
                               fetched1: Pool, fetched2: Pool, t1: real, t2: real)
    requires cfg.decode(cfg.encode(fetched1)) == Some(fetched1) && LruCache.Bounded(entries, max)
    requires ShapeOf(q1) == ShapeOf(q2) && q1.publicRef == "" && WorthCaching(fetched1)
    requires Cached(cfg, TierGet(entries, max, rows, KeyOf(cfg, q1), t1).0).None?
    requires t1 <= t2 < t1 + POOL_TTL_SECONDS
    ensures var (_, e, r) := Searched(cfg, max, entries, rows, q1, t1, fetched1);
            Searched(cfg, max, e, r, q2, t2, fetched2).0 == Refreshed(cfg, fetched1, t2)
  {
    SameKeySharesThePool(cfg, max, entries, rows, q1, q2, fetched1, fetched2, t1, t2);
  }

  lemma SameKeySharesThePool(cfg: Config, max: nat, entries: LruCache.Slots, rows: Shared, q1: Query, q2: Query,
                             fetched1: Pool, fetched2: Pool, t1: real, t2: real)
    requires cfg.decode(cfg.encode(fetched1)) == Some(fetched1) && LruCache.Bounded(entries, max)
    requires KeyOf(cfg, q1) == KeyOf(cfg, q2) && q1.publicRef == "" && q2.publicRef == "" && WorthCaching(fetched1)
    requires Cached(cfg, TierGet(entries, max, rows, KeyOf(cfg, q1), t1).0).None?
    requires t1 <= t2 < t1 + POOL_TTL_SECONDS
    ensures var (_, e, r) := Searched(cfg, max, entries, rows, q1, t1, fetched1);
            Searched(cfg, max, e, r, q2, t2, fetched2).0 == Refreshed(cfg, fetched1, t2)
  {
    hide LruCache.SetIn, LruCache.GetFrom, LruCache.Bounded, SharedSet, SharedGet, Refreshed, PoolKey, FrontTtl;
    var after := TierGet(entries, max, rows, KeyOf(cfg, q1), t1).1;
    TierGetStaysBounded(entries, max, rows, KeyOf(cfg, q1), t1);
    SetThenGet(after, max, rows, KeyOf(cfg, q1), cfg.encode(fetched1), POOL_TTL_SECONDS, t1, t2);
  }

  /** Neither tier has the key. */
  ghost predicate NowhereHeld(entries: LruCache.Slots, rows: Shared, k: string) {
    k !in rows && forall e :: e in entries ==> e.key != k
  }

  /** Exactly: when neither query was cached before and their fetches differ, the second is answered from the first's
    * entry if and only if their pool keys agree and the second names no tutor. */
  lemma PoolIsSharedExactly(cfg: Config, max: nat, entries: LruCache.Slots, rows: Shared, q1: Query, q2: Query,
                            fetched1: Pool, fetched2: Pool, t1: real, t2: real)
    requires cfg.decode(cfg.encode(fetched1)) == Some(fetched1) && LruCache.Bounded(entries, max)
    requires NowhereHeld(entries, rows, KeyOf(cfg, q1)) && NowhereHeld(entries, rows, KeyOf(cfg, q2))
    requires q1.publicRef == "" && WorthCaching(fetched1) && fetched2 != Refreshed(cfg, fetched1, t2)
    requires t1 <= t2 < t1 + POOL_TTL_SECONDS
    ensures var (_, e, r) := Searched(cfg, max, entries, rows, q1, t1, fetched1);
            Searched(cfg, max, e, r, q2, t2, fetched2).0 == Refreshed(cfg, fetched1, t2)
            <==> KeyOf(cfg, q1) == KeyOf(cfg, q2) && q2.publicRef == ""
  {
    hide LruCache.SetIn, LruCache.Bounded, SharedSet, Refreshed, PoolKey, FrontTtl, NowhereHeld, KeyOf, TierGet;
    NothingToGet(entries, max, rows, KeyOf(cfg, q1), t1);
    if q2.publicRef == "" {
      if KeyOf(cfg, q1) == KeyOf(cfg, q2) {
        SameKeySharesThePool(cfg, max, entries, rows, q1, q2, fetched1, fetched2, t1, t2);
      } else {
        StillNowhere(entries, max, rows, KeyOf(cfg, q1), KeyOf(cfg, q2), cfg.encode(fetched1), t1);
        var (_, e, r) := Searched(cfg, max, entries, rows, q1, t1, fetched1);
        NothingToGet(e, max, r, KeyOf(cfg, q2), t2);
      }
    }
  }

  /** The queries ask for the same pool, field by field. */
  predicate AskTheSame(q1: Query, q2: Query) {
    && multiset(q1.subjects) == multiset(q2.subjects) && multiset(q1.boards) == multiset(q2.boards)
    && multiset(q1.cityAliases) == multiset(q2.cityAliases)
    && q1.classNumber == q2.classNumber && q1.nameTerms == q2.nameTerms && q1.pincode == q2.pincode && q1.mode == q2.mode
    && q1.gender == q2.gender && q1.maxFee == q2.maxFee && q1.limit == q2.limit && q1.publicRef == q2.publicRef
  }

  /** By name: as long as the digest tells the two shapes apart if they differ, the second query is answered from the
    * first's entry exactly if the two ask for the same subjects, boards and cities in any order, and agree in class
    * number, name terms, pincode, mode, gender, fee, limit and reference. */
  lemma PoolIsSharedByName(cfg: Config, max: nat, entries: LruCache.Slots, rows: Shared, q1: Query, q2: Query,
                           fetched1: Pool, fetched2: Pool, t1: real, t2: real)
    requires cfg.decode(cfg.encode(fetched1)) == Some(fetched1) && LruCache.Bounded(entries, max)
    requires NowhereHeld(entries, rows, KeyOf(cfg, q1)) && NowhereHeld(entries, rows, KeyOf(cfg, q2))
    requires q1.publicRef == "" && q2.publicRef == "" && 0 < |fetched1| <= 200 && fetched2 != Refreshed(cfg, fetched1, t2)
    requires t1 <= t2 < t1 + 120.0
    requires ShapeOf(q1) != ShapeOf(q2) ==> cfg.digest(ShapeOf(q1)) != cfg.digest(ShapeOf(q2))
    ensures var (_, e, r) := Searched(cfg, max, entries, rows, q1, t1, fetched1);
            Searched(cfg, max, e, r, q2, t2, fetched2).0 == Refreshed(cfg, fetched1, t2) <==> AskTheSame(q1, q2)
  {
    hide Searched, Refreshed, KeyOf, NowhereHeld, LruCache.Bounded;
    PoolIsSharedExactly(cfg, max, entries, rows, q1, q2, fetched1, fetched2, t1, t2);
    KeysAgreeExactly(cfg, q1, q2);
  }

  lemma NothingToGet(entries: LruCache.Slots, max: nat, rows: Shared, k: string, now: real)
    requires NowhereHeld(entries, rows, k)
    ensures TierGet(entries, max, rows, k, now) == (None, entries)
  {
    LruCache.FoundIffIn(entries, k);
  }

  lemma StillNowhere(entries: LruCache.Slots, max: nat, rows: Shared, j: string, k: string, v: string, now: real)
    requires NowhereHeld(entries, rows, k) && j != k
    ensures NowhereHeld(LruCache.SetIn(entries, max, j, v, FrontTtl(POOL_TTL_SECONDS), now),
                        SharedSet(rows, j, v, POOL_TTL_SECONDS, now), k)
  {
    hide LruCache.SetIn;
    SetAddsOne(entries, max, j, v, FrontTtl(POOL_TTL_SECONDS), now);
  }

  lemma TierGetStaysBounded(entries: LruCache.Slots, max: nat, rows: Shared, k: string, now: real)
    requires LruCache.Bounded(entries, max)
    ensures LruCache.Bounded(TierGet(entries, max, rows, k, now).1, max)
  {
    hide LruCache.SetIn, LruCache.GetFrom, LruCache.Bounded;
    LruCache.StaysBounded(entries, max, LruCache.Get(k, now));
    var value := SharedGet(rows, k, now);
    if value.Some? {
      LruCache.StaysBounded(LruCache.GetFrom(entries, k, now).1, max, LruCache.Set(k, value.value, L1_MAX_TTL_SECONDS, now));
    }
  }
}

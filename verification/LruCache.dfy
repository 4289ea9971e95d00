/** The in-process cache: bounded, least recently used out first, with a time to live per entry. */
module LruCache {
  import opened Wrappers

  datatype Slot = Slot(key: string, value: string, expiresAt: real)

  /** The ordered dict, least recently used first. */
  type Slots = seq<Slot>

  function Find(s: Slots, k: string): Option<Slot> {
    if s == [] then None else if s[0].key == k then Some(s[0]) else Find(s[1..], k)
  }

  /** What a removal names: one key, or a whole namespace. */
  datatype Target = Key(key: string) | Prefix(prefix: string)

  predicate Names(d: Target, k: string) {
    match d
    case Key(key) => k == key
    case Prefix(prefix) => prefix <= k
  }

  function Removed(s: Slots, d: Target): Slots {
    if s == [] then [] else (if Names(d, s[0].key) then [] else [s[0]]) + Removed(s[1..], d)
  }

  function Without(s: Slots, k: string): Slots {
    Removed(s, Key(k))
  }

  /** Evict from the front until at most `max` entries are left. */
  function Trim(s: Slots, max: nat): Slots {
    if |s| <= max then s else s[|s| - max..]
  }

  function GetFrom(s: Slots, k: string, now: real): (Option<string>, Slots) {
    var e := Find(s, k);
    if e.None? then (None, s)
    else if e.value.expiresAt <= now then (None, Without(s, k))
    else (Some(e.value.value), Without(s, k) + [e.value])
  }

  function SetIn(s: Slots, max: nat, k: string, v: string, ttl: real, now: real): Slots {
    if ttl <= 0.0 then s else Trim(Without(s, k) + [Slot(k, v, now + ttl)], max)
  }

  datatype Op = Get(k: string, now: real) | Set(k: string, v: string, ttl: real, now: real) | Delete(k: string) | Clear(prefix: string)

  function Apply(s: Slots, max: nat, op: Op): Slots {
    match op
    case Get(k, now) => GetFrom(s, k, now).1
    case Set(k, v, ttl, now) => SetIn(s, max, k, v, ttl, now)
    case Delete(k) => Without(s, k)
    case Clear(prefix) => Removed(s, Prefix(prefix))
  }

  /** One entry of a removal loop that has kept `kept` so far. */
  lemma RemovedStep(kept: Slots, s: Slots, i: nat, d: Target)
    requires i < |s|
    ensures kept + Removed(s[i..], d) == (if Names(d, s[i].key) then kept else kept + [s[i]]) + Removed(s[i + 1..], d)
  {
    hide Names;
    assert s[i..][1..] == s[i + 1..];
    var rest := Removed(s[i + 1..], d);
    assert kept + ([s[i]] + rest) == (kept + [s[i]]) + rest;
    assert kept + ([] + rest) == kept + rest;
  }

  lemma NothingLeft(kept: Slots, s: Slots, d: Target)
    ensures kept + Removed(s[|s|..], d) == kept && s[0..] == s
  {
  }

  // ------------------------------------------------------------------- the class

  class InMemoryCache {
    var entries: Slots
    const max: nat
    var hits: nat
    var misses: nat
    var evictions: nat

    constructor (max: nat)
      ensures entries == [] && this.max == max && hits == misses == evictions == 0
    {
      entries, this.max := [], max;
      hits, misses, evictions := 0, 0, 0;
    }

    method Get(k: string, now: real) returns (value: Option<string>)
      modifies this
      ensures (value, entries) == GetFrom(old(entries), k, now)
      ensures hits == old(hits) + (if value.Some? then 1 else 0)
      ensures misses == old(misses) + (if value.Some? then 0 else 1)
      ensures evictions == old(evictions)
    {
      var e := Find(entries, k);
      if e.None? {
        misses := misses + 1;
        return None;
      }
      if e.value.expiresAt <= now {
        entries := Without(entries, k);
        misses := misses + 1;
        return None;
      }
      entries := Without(entries, k) + [e.value];
      hits := hits + 1;
      return Some(e.value.value);
    }

    method Set(k: string, v: string, ttl: real, now: real)
      modifies this
      ensures entries == SetIn(old(entries), max, k, v, ttl, now)
      ensures hits == old(hits) && misses == old(misses)
      ensures ttl > 0.0 ==> evictions - old(evictions) == |Without(old(entries), k)| + 1 - |entries|
      ensures ttl <= 0.0 ==> evictions == old(evictions)
    {
      if ttl <= 0.0 {
        return;
      }
      entries := Without(entries, k) + [Slot(k, v, now + ttl)];
      ghost var full := entries;
      while |entries| > max
        invariant |entries| >= max || entries == full
        invariant |entries| <= |full| && entries == full[|full| - |entries|..]
        invariant evictions == old(evictions) + |full| - |entries|
        invariant hits == old(hits) && misses == old(misses)
      {
        entries := entries[1..];
        evictions := evictions + 1;
      }
    }

    method Delete(k: string)
      modifies this
      ensures entries == Without(old(entries), k)
      ensures forall now :: GetFrom(entries, k, now).0.None?
      ensures forall j, now :: j != k ==> GetFrom(entries, j, now).0 == GetFrom(old(entries), j, now).0
      ensures hits == old(hits) && misses == old(misses) && evictions == old(evictions)
    {
      hide Removed, Find;
      forall j ensures Find(Without(entries, k), j) == if j == k then None else Find(entries, j) {
        OtherKeysStay(entries, Key(k), j);
      }
      entries := Without(entries, k);
    }

    method ClearPrefix(prefix: string) returns (count: nat)
      modifies this
      ensures entries == Removed(old(entries), Prefix(prefix)) && count == |old(entries)| - |entries|
      ensures hits == old(hits) && misses == old(misses) && evictions == old(evictions)
    {
      hide Removed;
      var kept := [];
      count := 0;
      for i := 0 to |entries|
        invariant entries == old(entries)
        invariant kept + Removed(entries[i..], Prefix(prefix)) == Removed(entries, Prefix(prefix))
        invariant count == i - |kept|
        invariant hits == old(hits) && misses == old(misses) && evictions == old(evictions)
      {
        var e := entries[i];
        RemovedStep(kept, entries, i, Prefix(prefix));
        if Names(Prefix(prefix), e.key) {
          count := count + 1;
        } else {
          kept := kept + [e];
        }
      }
      NothingLeft(kept, entries, Prefix(prefix));
      entries := kept;
    }
  }

  // ------------------------------------------------------------------- invariants

  ghost predicate Distinct(s: Slots) {
    forall i, j :: 0 <= i < j < |s| ==> s[i].key != s[j].key
  }

  /** The keys of a list. */
  ghost function KeysOf(s: Slots): set<string> {
    set e | e in s :: e.key
  }

  lemma {:induction false} FoundIffIn(s: Slots, k: string)
    ensures Find(s, k).Some? <==> k in KeysOf(s)
    ensures Find(s, k).Some? ==> Find(s, k).value in s && Find(s, k).value.key == k
  {
    if s != [] {
      FoundIffIn(s[1..], k);
      assert s == [s[0]] + s[1..];
    }
  }

  lemma HeadOrRest(s: Slots)
    requires s != []
    ensures forall e :: e in s <==> e == s[0] || e in s[1..]
  {
    assert s == [s[0]] + s[1..];
  }

  lemma {:induction false} RemovedIsFilter(s: Slots, d: Target)
    ensures forall e :: e in Removed(s, d) <==> e in s && !Names(d, e.key)
    ensures |Removed(s, d)| <= |s|
  {
    hide Names;
    if s != [] {
      var w := Removed(s[1..], d);
      RemovedIsFilter(s[1..], d);
      HeadOrRest(s);
      if Names(d, s[0].key) {
        assert Removed(s, d) == w;
      } else {
        assert Removed(s, d) == [s[0]] + w;
        assert forall e :: e in [s[0]] + w <==> e == s[0] || e in w;
      }
    }
  }

  lemma {:induction false} RemovedStaysDistinct(s: Slots, d: Target)
    requires Distinct(s)
    ensures Distinct(Removed(s, d))
  {
    hide Names;
    if s != [] {
      var rest, w := s[1..], Removed(s[1..], d);
      RemovedStaysDistinct(rest, d);
      if Names(d, s[0].key) {
        assert Removed(s, d) == w;
      } else {
        assert Removed(s, d) == [s[0]] + w;
        forall j | 0 <= j < |w| ensures w[j].key != s[0].key {
          RemovedComesFrom(rest, d, j);
        }
      }
    }
  }

  /** Every entry left was there before, no earlier in the order. */
  lemma {:induction false} RemovedComesFrom(s: Slots, d: Target, j: nat)
    requires j < |Removed(s, d)|
    ensures exists m :: j <= m < |s| && s[m] == Removed(s, d)[j]
  {
    var w := Removed(s[1..], d);
    if Names(d, s[0].key) {
      assert Removed(s, d) == w;
      RemovedComesFrom(s[1..], d, j);
      var m :| j <= m < |s[1..]| && s[1..][m] == w[j];
      assert s[m + 1] == w[j];
    } else if j > 0 {
      assert Removed(s, d) == [s[0]] + w;
      RemovedComesFrom(s[1..], d, j - 1);
      var m :| j - 1 <= m < |s[1..]| && s[1..][m] == w[j - 1];
      assert s[m + 1] == Removed(s, d)[j];
    }
  }

  /** Removing a key that is held takes exactly one entry. */
  lemma {:induction false} RemovalTakesOne(s: Slots, k: string)
    requires Distinct(s)
    ensures |Without(s, k)| == if k in KeysOf(s) then |s| - 1 else |s|
  {
    if s != [] {
      RemovalTakesOne(s[1..], k);
      KeysOfRest(s);
    }
  }

  ghost predicate Bounded(s: Slots, max: nat) {
    Distinct(s) && |s| <= max
  }

  lemma PushedIsDistinct(s: Slots, e: Slot)
    requires Distinct(s)
    ensures Distinct(Without(s, e.key) + [e])
    ensures |Without(s, e.key) + [e]| <= |s| + 1
    ensures e.key in KeysOf(s) ==> |Without(s, e.key) + [e]| == |s|
  {
    hide Removed, KeysOf;
    RemovedIsFilter(s, Key(e.key));
    RemovedStaysDistinct(s, Key(e.key));
    RemovalTakesOne(s, e.key);
    var w := Without(s, e.key);
    forall i | 0 <= i < |w| ensures w[i].key != e.key {
      assert w[i] in w;
    }
  }

  /** The cache never exceeds its maximum size and never holds a key twice. */
  lemma StaysBounded(s: Slots, max: nat, op: Op)
    requires Bounded(s, max)
    ensures Bounded(Apply(s, max, op), max)
  {
    hide Removed, KeysOf, Find, Distinct;
    match op
    case Get(k, now) =>
      FoundIffIn(s, k);
      RemovedIsFilter(s, Key(k));
      RemovedStaysDistinct(s, Key(k));
      if Find(s, k).Some? {
        PushedIsDistinct(s, Find(s, k).value);
      }
    case Set(k, v, ttl, now) =>
      PushedIsDistinct(s, Slot(k, v, now + ttl));
      TrimStaysDistinct(Without(s, k) + [Slot(k, v, now + ttl)], max);
    case Delete(k) =>
      RemovedIsFilter(s, Key(k));
      RemovedStaysDistinct(s, Key(k));
    case Clear(prefix) =>
      RemovedIsFilter(s, Prefix(prefix));
      RemovedStaysDistinct(s, Prefix(prefix));
  }

  lemma TrimStaysDistinct(s: Slots, max: nat)
    requires Distinct(s)
    ensures Distinct(Trim(s, max))
  {
  }

  // ----------------------------------------------------------- recency and survival

  /** A set that stores, and a get that hits, touch their key. */
  predicate Touches(s: Slots, op: Op) {
    match op
    case Get(k, now) => GetFrom(s, k, now).0.Some?
    case Set(_, _, ttl, _) => ttl > 0.0
    case _ => false
  }

  function RunOps(s: Slots, max: nat, ops: seq<Op>): Slots
    decreases |ops|
  {
    if ops == [] then s else RunOps(Apply(s, max, ops[0]), max, ops[1..])
  }

  /** The other keys touched along a run. */
  function TouchedBesides(s: Slots, max: nat, ops: seq<Op>, k: string): set<string>
    decreases |ops|
  {
    if ops == [] then {}
    else (if Touches(s, ops[0]) && ops[0].k != k then {ops[0].k} else {}) + TouchedBesides(Apply(s, max, ops[0]), max, ops[1..], k)
  }

  /** `s` is `before + [e] + after` and everything used more recently than `e` is in `touched`. */
  ghost predicate HoldsAt(s: Slots, e: Slot, touched: set<string>) {
    exists i :: 0 <= i < |s| && s[i] == e && KeysOf(s[i + 1..]) <= touched
  }

  /** An operation that neither removes the entry `e` nor replaces it. */
  predicate Spares(op: Op, e: Slot) {
    match op
    case Get(k, now) => k == e.key ==> now < e.expiresAt
    case Set(k, _, ttl, _) => k == e.key ==> ttl <= 0.0
    case Delete(k) => k != e.key
    case Clear(prefix) => !Names(Prefix(prefix), e.key)
  }

  lemma {:induction false} RestOnly(s: Slots, i: nat, d: Target)
    requires i < |s| && !Names(d, s[i].key)
    ensures exists j :: 0 <= j < |Removed(s, d)| && Removed(s, d)[j] == s[i] && KeysOf(Removed(s, d)[j + 1..]) <= KeysOf(s[i + 1..])
  {
    hide Names;
    var r, w := Removed(s, d), Removed(s[1..], d);
    if i == 0 {
      assert r == [s[0]] + w && r[0] == s[0] && r[1..] == w;
      RemovedIsFilter(s[1..], d);
    } else {
      RestOnly(s[1..], i - 1, d);
      assert s[1..][i - 1 + 1..] == s[i + 1..];
      var j :| 0 <= j < |w| && w[j] == s[i] && KeysOf(w[j + 1..]) <= KeysOf(s[i + 1..]);
      if Names(d, s[0].key) {
        assert r == w;
      } else {
        assert r == [s[0]] + w && r[j + 1] == s[i] && r[j + 2..] == w[j + 1..];
      }
    }
  }

  /** Pushing another key to the recent end leaves `e` with at most that key more behind it. */
  lemma PushKeepsHolding(s: Slots, e: Slot, touched: set<string>, pushed: Slot)
    requires Distinct(s) && HoldsAt(s, e, touched) && pushed.key != e.key
    ensures HoldsAt(Without(s, pushed.key) + [pushed], e, touched + {pushed.key})
  {
    var i :| 0 <= i < |s| && s[i] == e && KeysOf(s[i + 1..]) <= touched;
    RestOnly(s, i, Key(pushed.key));
    var w := Without(s, pushed.key);
    var j :| 0 <= j < |w| && w[j] == e && KeysOf(w[j + 1..]) <= KeysOf(s[i + 1..]);
    var longer := w + [pushed];
    assert longer[j] == e && longer[j + 1..] == w[j + 1..] + [pushed];
  }

  lemma {:induction false} DistinctKeyCount(s: Slots)
    requires Distinct(s)
    ensures |KeysOf(s)| == |s|
  {
    if s != [] {
      var rest := s[1..];
      DistinctKeyCount(rest);
      KeysOfRest(s);
    }
  }

  lemma KeysOfRest(s: Slots)
    requires s != [] && Distinct(s)
    ensures KeysOf(s) == {s[0].key} + KeysOf(s[1..]) && s[0].key !in KeysOf(s[1..])
  {
    var rest := s[1..];
    assert forall e :: e in s <==> e == s[0] || e in rest by {
      assert s == [s[0]] + rest;
    }
    forall x | x in rest ensures x.key != s[0].key {
      var j :| 0 <= j < |rest| && rest[j] == x;
      assert s[j + 1] == x;
    }
  }

  lemma SubsetSize(a: set<string>, b: set<string>)
    requires a <= b
    ensures |a| <= |b|
  {
    assert b == a + (b - a);
  }

  /** Trimming spares an entry with fewer than `max` keys behind it. */
  lemma TrimKeepsHolding(s: Slots, max: nat, e: Slot, touched: set<string>)
    requires Distinct(s) && HoldsAt(s, e, touched) && |touched| < max
    ensures HoldsAt(Trim(s, max), e, touched)
  {
    var i :| 0 <= i < |s| && s[i] == e && KeysOf(s[i + 1..]) <= touched;
    var behind := s[i + 1..];
    assert Distinct(behind);
    DistinctKeyCount(behind);
    SubsetSize(KeysOf(behind), touched);
    if |s| > max {
      var cut := |s| - max;
      assert cut <= i;
      var t := s[cut..];
      assert t[i - cut] == e && t[i - cut + 1..] == behind;
    }
  }

  lemma FoundWhereHeld(s: Slots, e: Slot, touched: set<string>)
    requires Distinct(s) && HoldsAt(s, e, touched)
    ensures Find(s, e.key) == Some(e)
  {
    var i :| 0 <= i < |s| && s[i] == e && KeysOf(s[i + 1..]) <= touched;
    FindDistinct(s, i);
  }

  lemma {:induction false} FindDistinct(s: Slots, i: nat)
    requires Distinct(s) && i < |s|
    ensures Find(s, s[i].key) == Some(s[i])
  {
    if i > 0 {
      assert s[0].key != s[i].key;
      assert Distinct(s[1..]);
      FindDistinct(s[1..], i - 1);
    }
  }

  lemma StepKeepsHolding(s: Slots, max: nat, op: Op, e: Slot, touched: set<string>)
    requires Bounded(s, max) && HoldsAt(s, e, touched) && Spares(op, e)
    requires |touched + (if Touches(s, op) && op.k != e.key then {op.k} else {})| < max
    ensures Bounded(Apply(s, max, op), max)
    ensures HoldsAt(Apply(s, max, op), e, touched + (if Touches(s, op) && op.k != e.key then {op.k} else {}))
  {
    hide HoldsAt, KeysOf, Trim, Removed, Find;
    match op
    case Get(k, now) => GetKeepsHolding(s, max, k, now, e, touched);
    case Set(k, v, ttl, now) =>
      StaysBounded(s, max, Set(k, v, ttl, now));
      if ttl > 0.0 {
        var pushed := Slot(k, v, now + ttl);
        PushKeepsHolding(s, e, touched, pushed);
        PushedIsDistinct(s, pushed);
        TrimKeepsHolding(Without(s, k) + [pushed], max, e, touched + {k});
      } else {
        assert touched + {} == touched;
      }
    case Delete(k) =>
      StaysBounded(s, max, Delete(k));
      RemovalKeepsHolding(s, Key(k), e, touched);
    case Clear(prefix) =>
      StaysBounded(s, max, op);
      RemovalKeepsHolding(s, Prefix(prefix), e, touched);
  }

  lemma GetKeepsHolding(s: Slots, max: nat, k: string, now: real, e: Slot, touched: set<string>)
    requires Bounded(s, max) && HoldsAt(s, e, touched) && (k == e.key ==> now < e.expiresAt)
    ensures Bounded(GetFrom(s, k, now).1, max)
    ensures HoldsAt(GetFrom(s, k, now).1, e, touched + (if GetFrom(s, k, now).0.Some? && k != e.key then {k} else {}))
  {
    hide HoldsAt, KeysOf, Removed;
    StaysBounded(s, max, Get(k, now));
    FoundWhereHeld(s, e, touched);
    FoundIffIn(s, k);
    if k == e.key {
      LastHolds(Without(s, k), e, touched);
    } else if Find(s, k).Some? {
      if Find(s, k).value.expiresAt <= now {
        RemovalKeepsHolding(s, Key(k), e, touched);
      } else {
        PushKeepsHolding(s, e, touched, Find(s, k).value);
      }
    } else {
      assert touched + {} == touched;
    }
  }

  lemma LastHolds(s: Slots, e: Slot, touched: set<string>)
    ensures HoldsAt(s + [e], e, touched + {})
  {
    assert (s + [e])[|s|] == e && (s + [e])[|s| + 1..] == [];
  }

  lemma RemovalKeepsHolding(s: Slots, d: Target, e: Slot, touched: set<string>)
    requires HoldsAt(s, e, touched) && !Names(d, e.key)
    ensures HoldsAt(Removed(s, d), e, touched + {})
  {
    var i :| 0 <= i < |s| && s[i] == e && KeysOf(s[i + 1..]) <= touched;
    RestOnly(s, i, d);
  }

  lemma {:induction false} Survives(s: Slots, max: nat, ops: seq<Op>, e: Slot, touched: set<string>)
    requires Bounded(s, max) && HoldsAt(s, e, touched)
    requires forall i :: 0 <= i < |ops| ==> Spares(ops[i], e)
    requires |touched + TouchedBesides(s, max, ops, e.key)| < max
    ensures Bounded(RunOps(s, max, ops), max) && Find(RunOps(s, max, ops), e.key) == Some(e)
    decreases |ops|
  {
    hide HoldsAt, Spares, Apply, Find;
    if ops == [] {
      FoundWhereHeld(s, e, touched);
    } else {
      var more := if Touches(s, ops[0]) && ops[0].k != e.key then {ops[0].k} else {};
      var rest := TouchedBesides(Apply(s, max, ops[0]), max, ops[1..], e.key);
      assert touched + TouchedBesides(s, max, ops, e.key) == (touched + more) + rest;
      SubsetSize(touched + more, (touched + more) + rest);
      StepKeepsHolding(s, max, ops[0], e, touched);
      Survives(Apply(s, max, ops[0]), max, ops[1..], e, touched + more);
    }
  }

  /** The entry an operation that touches its key leaves at the recent end. */
  function TouchedEntry(s: Slots, op: Op): Slot
    requires Touches(s, op)
  {
    match op
    case Get(k, _) => Find(s, k).value
    case Set(k, v, ttl, now) => Slot(k, v, now + ttl)
  }

  /** The least-recently-used guarantee: an entry just set or just hit is still a hit as long as it has not expired,
    * been deleted or replaced, and fewer than `max` other keys were touched since. */
  lemma RecentEntriesAreHits(s: Slots, max: nat, op: Op, ops: seq<Op>, later: real)
    requires Bounded(s, max) && Touches(s, op) && later < TouchedEntry(s, op).expiresAt
    requires forall i :: 0 <= i < |ops| ==> Spares(ops[i], TouchedEntry(s, op))
    requires |TouchedBesides(Apply(s, max, op), max, ops, op.k)| < max
    ensures GetFrom(RunOps(Apply(s, max, op), max, ops), op.k, later).0 == Some(TouchedEntry(s, op).value)
  {
    hide Spares, RunOps, TouchedBesides, KeysOf, Removed, HoldsAt, Distinct, Trim;
    var e := TouchedEntry(s, op);
    var start := Apply(s, max, op);
    var none: set<string> := {};
    assert none + {} == none;
    StaysBounded(s, max, op);
    FoundIffIn(s, op.k);
    PushedIsDistinct(s, e);
    LastHolds(Without(s, op.k), e, none);
    if op.Set? {
      TrimKeepsHolding(Without(s, op.k) + [e], max, e, none);
    }
    assert none + TouchedBesides(start, max, ops, op.k) == TouchedBesides(start, max, ops, op.k);
    Survives(start, max, ops, e, none);
  }

  // ------------------------------------------------------------- order of recency

  /** The cache after the first `n` operations of a run from empty. */
  function After(max: nat, ops: seq<Op>, n: nat): Slots
    requires n <= |ops|
  {
    if n == 0 then [] else Apply(After(max, ops, n - 1), max, ops[n - 1])
  }

  /** When `k` was last set or last hit among the first `n` operations; -1 if never. */
  function LastTouched(max: nat, ops: seq<Op>, n: nat, k: string): (at: int)
    requires n <= |ops|
    ensures -1 <= at < n
  {
    if n == 0 then -1
    else if Touches(After(max, ops, n - 1), ops[n - 1]) && ops[n - 1].k == k then n - 1
    else LastTouched(max, ops, n - 1, k)
  }

  /** Front to back, the keys of `s` were last touched in strictly increasing order of time. */
  ghost predicate ByRecency(s: Slots, max: nat, ops: seq<Op>, n: nat)
    requires n <= |ops|
  {
    && (forall i :: 0 <= i < |s| ==> 0 <= LastTouched(max, ops, n, s[i].key))
    && (forall i, j :: 0 <= i < j < |s| ==> LastTouched(max, ops, n, s[i].key) < LastTouched(max, ops, n, s[j].key))
  }

  lemma {:induction false} RemovalKeepsOrder(s: Slots, d: Target, max: nat, ops: seq<Op>, n: nat)
    requires n <= |ops| && ByRecency(s, max, ops, n)
    ensures ByRecency(Removed(s, d), max, ops, n)
  {
    hide LastTouched, Names;
    if s != [] {
      var rest, w := s[1..], Removed(s[1..], d);
      RemovalKeepsOrder(rest, d, max, ops, n);
      if Names(d, s[0].key) {
        assert Removed(s, d) == w;
      } else {
        assert Removed(s, d) == [s[0]] + w;
        forall j | 0 <= j < |w|
          ensures LastTouched(max, ops, n, s[0].key) < LastTouched(max, ops, n, w[j].key)
        {
          RemovedComesFrom(rest, d, j);
          var m :| j <= m < |rest| && rest[m] == w[j];
          assert s[m + 1] == w[j];
        }
      }
    }
  }

  /** An operation that touches nothing leaves every key's last touch where it was. */
  lemma UntouchedOrder(s: Slots, max: nat, ops: seq<Op>, n: nat)
    requires 0 < n <= |ops| && !Touches(After(max, ops, n - 1), ops[n - 1]) && ByRecency(s, max, ops, n - 1)
    ensures ByRecency(s, max, ops, n)
  {
    hide Touches, After;
    forall k: string ensures LastTouched(max, ops, n, k) == LastTouched(max, ops, n - 1, k) {
    }
  }

  /** A touched key goes to the back, where the latest touch belongs. */
  lemma PushedOrder(w: Slots, e: Slot, max: nat, ops: seq<Op>, n: nat)
    requires 0 < n <= |ops| && ByRecency(w, max, ops, n - 1)
    requires Touches(After(max, ops, n - 1), ops[n - 1]) && ops[n - 1].k == e.key
    requires forall x :: x in w ==> x.key != e.key
    ensures ByRecency(w + [e], max, ops, n)
  {
    hide After;
    forall i | 0 <= i < |w|
      ensures LastTouched(max, ops, n, w[i].key) == LastTouched(max, ops, n - 1, w[i].key)
    {
      assert w[i] in w;
    }
  }

  lemma NothingIsOrdered(max: nat, ops: seq<Op>)
    ensures ByRecency([], max, ops, 0)
  {
  }

  lemma SetKeepsOrder(s: Slots, k: string, v: string, ttl: real, now: real, max: nat, ops: seq<Op>, n: nat)
    requires 0 < n <= |ops| && s == After(max, ops, n - 1) && ops[n - 1] == Set(k, v, ttl, now)
    requires Bounded(s, max) && ByRecency(s, max, ops, n - 1)
    ensures Bounded(SetIn(s, max, k, v, ttl, now), max)
    ensures ByRecency(SetIn(s, max, k, v, ttl, now), max, ops, n)
  {
    hide LastTouched, Removed, After;
    StaysBounded(s, max, Set(k, v, ttl, now));
    if ttl <= 0.0 {
      UntouchedOrder(s, max, ops, n);
    } else {
      RemovalKeepsOrder(s, Key(k), max, ops, n - 1);
      RemovedIsFilter(s, Key(k));
      PushedOrder(Without(s, k), Slot(k, v, now + ttl), max, ops, n);
    }
  }

  lemma GetKeepsOrder(s: Slots, k: string, now: real, max: nat, ops: seq<Op>, n: nat)
    requires 0 < n <= |ops| && s == After(max, ops, n - 1) && ops[n - 1] == Get(k, now)
    requires Bounded(s, max) && ByRecency(s, max, ops, n - 1)
    ensures Bounded(GetFrom(s, k, now).1, max)
    ensures ByRecency(GetFrom(s, k, now).1, max, ops, n)
  {
    hide LastTouched, Removed, After, ByRecency;
    StaysBounded(s, max, Get(k, now));
    RemovalKeepsOrder(s, Key(k), max, ops, n - 1);
    FoundIffIn(s, k);
    RemovedIsFilter(s, Key(k));
    if Find(s, k).None? {
      UntouchedOrder(s, max, ops, n);
    } else if Find(s, k).value.expiresAt <= now {
      UntouchedOrder(Without(s, k), max, ops, n);
    } else {
      PushedOrder(Without(s, k), Find(s, k).value, max, ops, n);
    }
  }

  /** The order is recency of last set or hit: in every run, the entry at the front is the one touched
    * longest ago, and only keys that were touched are held. */
  lemma {:induction false} OrderIsRecency(max: nat, ops: seq<Op>, n: nat)
    requires n <= |ops|
    ensures Bounded(After(max, ops, n), max)
    ensures ByRecency(After(max, ops, n), max, ops, n)
  {
    hide LastTouched, Removed, Find, ByRecency, KeysOf;
    if n == 0 {
      NothingIsOrdered(max, ops);
    } else {
      OrderIsRecency(max, ops, n - 1);
      var s := After(max, ops, n - 1);
      match ops[n - 1]
      case Get(k, now) => GetKeepsOrder(s, k, now, max, ops, n);
      case Set(k, v, ttl, now) => SetKeepsOrder(s, k, v, ttl, now, max, ops, n);
      case Delete(k) =>
        StaysBounded(s, max, Delete(k));
        RemovalKeepsOrder(s, Key(k), max, ops, n - 1);
        UntouchedOrder(Without(s, k), max, ops, n);
      case Clear(prefix) =>
        StaysBounded(s, max, Clear(prefix));
        RemovalKeepsOrder(s, Prefix(prefix), max, ops, n - 1);
        UntouchedOrder(Removed(s, Prefix(prefix)), max, ops, n);
    }
  }

  // ------------------------------------------------- agreement with a plain map

  /** The unbounded map with expiry the cache stands in for. */
  type Plain = map<string, Slot>

  function PlainApply(m: Plain, op: Op): Plain {
    match op
    case Get(_, _) => m
    case Set(k, v, ttl, now) => if ttl <= 0.0 then m else m[k := Slot(k, v, now + ttl)]
    case Delete(k) => m - {k}
    case Clear(prefix) => map k | k in m && !Names(Prefix(prefix), k) :: m[k]
  }

  ghost predicate Agrees(s: Slots, m: Plain) {
    forall e :: e in s ==> e.key in m && m[e.key] == e
  }

  /** The cache never invents or revives: what it holds is what the plain map holds for that key. */
  lemma AgreementIsKept(s: Slots, max: nat, m: Plain, op: Op)
    requires Bounded(s, max) && Agrees(s, m)
    ensures Agrees(Apply(s, max, op), PlainApply(m, op))
  {
    hide Removed, Find, Distinct, Trim, Agrees;
    match op
    case Get(k, now) =>
      FoundIffIn(s, k);
      RemovedIsFilter(s, Key(k));
      FewerAgree(s, GetFrom(s, k, now).1, m);
    case Set(k, v, ttl, now) => SetAgrees(s, max, m, k, v, ttl, now);
    case Delete(k) =>
      RemovedIsFilter(s, Key(k));
      RemovalAgrees(s, m, Key(k), m - {k});
    case Clear(prefix) =>
      RemovedIsFilter(s, Prefix(prefix));
      RemovalAgrees(s, m, Prefix(prefix), PlainApply(m, Clear(prefix)));
  }

  lemma FewerAgree(s: Slots, fewer: Slots, m: Plain)
    requires Agrees(s, m) && forall e :: e in fewer ==> e in s
    ensures Agrees(fewer, m)
  {
  }

  lemma RemovalAgrees(s: Slots, m: Plain, d: Target, left: Plain)
    requires Agrees(s, m)
    requires forall k :: k in m && !Names(d, k) ==> k in left && left[k] == m[k]
    ensures Agrees(Removed(s, d), left)
  {
    hide Names, Removed;
    RemovedIsFilter(s, d);
  }

  lemma SetAgrees(s: Slots, max: nat, m: Plain, k: string, v: string, ttl: real, now: real)
    requires Agrees(s, m)
    ensures Agrees(SetIn(s, max, k, v, ttl, now), PlainApply(m, Set(k, v, ttl, now)))
  {
    hide Removed;
    if ttl > 0.0 {
      var x := Slot(k, v, now + ttl);
      var pushed := Without(s, k) + [x];
      RemovedIsFilter(s, Key(k));
      assert Agrees(pushed, m[k := x]);
      TrimIsSublist(pushed, max);
      FewerAgree(pushed, Trim(pushed, max), m[k := x]);
    }
  }

  lemma TrimIsSublist(s: Slots, max: nat)
    ensures forall e :: e in Trim(s, max) ==> e in s
  {
  }

  function PlainAfter(ops: seq<Op>, n: nat): Plain
    requires n <= |ops|
  {
    if n == 0 then map[] else PlainApply(PlainAfter(ops, n - 1), ops[n - 1])
  }

  /** In every run the cache holds nothing but what the plain map holds. */
  lemma {:induction false} RunsAgree(max: nat, ops: seq<Op>, n: nat)
    requires n <= |ops|
    ensures Agrees(After(max, ops, n), PlainAfter(ops, n))
  {
    hide Agrees, Apply, PlainApply;
    if n == 0 {
      NothingAgrees();
    } else {
      RunsAgree(max, ops, n - 1);
      OrderIsRecency(max, ops, n - 1);
      AgreementIsKept(After(max, ops, n - 1), max, PlainAfter(ops, n - 1), ops[n - 1]);
    }
  }

  lemma NothingAgrees()
    ensures Agrees([], map[])
  {
  }

  // ---------------------------------------------------------- exactly what is held

  /** The same list without a limit. A get moves or removes what the real cache hits or finds expired. */
  function Unlimited(u: Slots, held: Slots, op: Op): Slots {
    match op
    case Get(k, now) =>
      var e := Find(held, k);
      if e.None? then u else if e.value.expiresAt <= now then Without(u, k) else Without(u, k) + [e.value]
    case Set(k, v, ttl, now) => if ttl <= 0.0 then u else Without(u, k) + [Slot(k, v, now + ttl)]
    case Delete(k) => Without(u, k)
    case Clear(prefix) => Removed(u, Prefix(prefix))
  }

  function Ranking(max: nat, ops: seq<Op>, n: nat): Slots
    requires n <= |ops|
  {
    if n == 0 then [] else Unlimited(Ranking(max, ops, n - 1), After(max, ops, n - 1), ops[n - 1])
  }

  /** How many entries are more recent than `e`. */
  function Behind(u: Slots, e: Slot): nat {
    if u == [] then 0 else if u[0] == e then |u| - 1 else Behind(u[1..], e)
  }

  lemma {:induction false} RemovedConcat(a: Slots, b: Slots, d: Target)
    ensures Removed(a + b, d) == Removed(a, d) + Removed(b, d)
  {
    hide Names;
    if a == [] {
      assert a + b == b;
    } else {
      assert (a + b)[1..] == a[1..] + b;
      RemovedConcat(a[1..], b, d);
    }
  }

  lemma {:induction false} NothingNamed(s: Slots, d: Target)
    requires forall e :: e in s ==> !Names(d, e.key)
    ensures Removed(s, d) == s
  {
    hide Names;
    if s != [] {
      NothingNamed(s[1..], d);
    }
  }

  lemma {:induction false} BehindInSuffix(g: Slots, s: Slots, e: Slot)
    requires e !in g
    ensures Behind(g + s, e) == Behind(s, e)
  {
    if g == [] {
      assert g + s == s;
    } else {
      assert (g + s)[1..] == g[1..] + s && g[0] in g;
      BehindInSuffix(g[1..], s, e);
    }
  }

  lemma {:induction false} BehindIsSmall(s: Slots, e: Slot)
    requires e in s
    ensures Behind(s, e) < |s|
  {
    if s[0] != e {
      assert e in s[1..];
      BehindIsSmall(s[1..], e);
    }
  }

  /** A trimmed list keeps exactly the entries with fewer than `max` behind them. */
  lemma TrimKeepsExactly(s: Slots, max: nat, e: Slot)
    requires Distinct(s) && e in s
    ensures e in Trim(s, max) <==> Behind(s, e) < max
  {
    if |s| > max {
      var cut := |s| - max;
      var g, t := s[..cut], s[cut..];
      assert s == g + t;
      if e in t {
        DistinctParts(g, t, e);
        BehindInSuffix(g, t, e);
        BehindIsSmall(t, e);
      } else {
        BehindInPrefix(g, t, e);
      }
    } else {
      BehindIsSmall(s, e);
    }
  }

  lemma DistinctParts(g: Slots, t: Slots, e: Slot)
    requires Distinct(g + t) && e in t
    ensures e !in g && (forall x :: x in g ==> x.key != e.key)
  {
    var j :| 0 <= j < |t| && t[j] == e;
    assert (g + t)[|g| + j] == e;
    forall x | x in g ensures x.key != e.key {
      var i :| 0 <= i < |g| && g[i] == x;
      assert (g + t)[i] == x;
    }
  }

  lemma {:induction false} BehindInPrefix(g: Slots, t: Slots, e: Slot)
    requires e in g
    ensures Behind(g + t, e) >= |t|
  {
    assert (g + t)[1..] == g[1..] + t;
    if g[0] != e {
      assert e in g[1..];
      BehindInPrefix(g[1..], t, e);
    }
  }

  /** The cache is the recent end of the unlimited list. */
  lemma {:induction false} CacheIsTheRecentEnd(max: nat, ops: seq<Op>, n: nat) returns (gone: Slots)
    requires n <= |ops|
    ensures Ranking(max, ops, n) == gone + After(max, ops, n) && Distinct(Ranking(max, ops, n)) && |After(max, ops, n)| <= max
  {
    if n == 0 {
      gone := [];
    } else {
      var g := CacheIsTheRecentEnd(max, ops, n - 1);
      gone := RecentEndStep(max, g, After(max, ops, n - 1), ops[n - 1]);
    }
  }

  lemma RecentEndStep(max: nat, g: Slots, s: Slots, op: Op) returns (gone: Slots)
    requires Distinct(g + s) && |s| <= max
    ensures Unlimited(g + s, s, op) == gone + Apply(s, max, op) && Distinct(Unlimited(g + s, s, op)) && |Apply(s, max, op)| <= max
  {
    hide Removed, Find, Distinct, GetFrom, SetIn;
    match op
    case Get(k, now) => gone := RecentEndGet(max, g, s, k, now);
    case Set(k, v, ttl, now) => gone := RecentEndSet(max, g, s, k, v, ttl, now);
    case Delete(k) => gone := RecentEndRemoval(max, g, s, Key(k));
    case Clear(prefix) => gone := RecentEndRemoval(max, g, s, Prefix(prefix));
  }

  lemma RecentEndRemoval(max: nat, g: Slots, s: Slots, d: Target) returns (gone: Slots)
    requires Distinct(g + s) && |s| <= max
    ensures Removed(g + s, d) == gone + Removed(s, d) && Distinct(Removed(g + s, d)) && |Removed(s, d)| <= max
  {
    hide Removed, Distinct;
    RemovedConcat(g, s, d);
    RemovedStaysDistinct(g + s, d);
    RemovedIsFilter(s, d);
    gone := Removed(g, d);
  }

  lemma RecentEndGet(max: nat, g: Slots, s: Slots, k: string, now: real) returns (gone: Slots)
    requires Distinct(g + s) && |s| <= max
    ensures var u := Unlimited(g + s, s, Get(k, now));
            u == gone + GetFrom(s, k, now).1 && Distinct(u) && |GetFrom(s, k, now).1| <= max
  {
    hide Removed, Find, Distinct;
    gone := g;
    FoundIffIn(s, k);
    if Find(s, k).Some? {
      var e := Find(s, k).value;
      SuffixDistinct(g, s);
      DistinctParts(g, s, e);
      NothingNamed(g, Key(k));
      RemovedConcat(g, s, Key(k));
      RemovedStaysDistinct(g + s, Key(k));
      RemovedIsFilter(s, Key(k));
      PushedIsDistinct(g + s, e);
      PushedIsDistinct(s, e);
      assert (g + Without(s, k)) + [e] == g + (Without(s, k) + [e]);
    }
  }

  lemma RecentEndSet(max: nat, g: Slots, s: Slots, k: string, v: string, ttl: real, now: real) returns (gone: Slots)
    requires Distinct(g + s) && |s| <= max
    ensures var u := Unlimited(g + s, s, Set(k, v, ttl, now));
            u == gone + SetIn(s, max, k, v, ttl, now) && Distinct(u) && |SetIn(s, max, k, v, ttl, now)| <= max
  {
    hide Removed, Find, Distinct;
    if ttl <= 0.0 {
      gone := g;
    } else {
      var e := Slot(k, v, now + ttl);
      var pushed := Without(s, k) + [e];
      RemovedConcat(g, s, Key(k));
      PushedIsDistinct(g + s, e);
      var cut := if |pushed| <= max then 0 else |pushed| - max;
      gone := Without(g, k) + pushed[..cut];
      assert pushed == pushed[..cut] + Trim(pushed, max);
      assert (Without(g, k) + Without(s, k)) + [e] == gone + Trim(pushed, max);
    }
  }

  lemma SuffixDistinct(g: Slots, s: Slots)
    requires Distinct(g + s)
    ensures Distinct(s)
  {
    assert forall i :: 0 <= i < |s| ==> (g + s)[|g| + i] == s[i];
  }

  /** At no time since its last touch did `e` have `max` or more entries behind it in the unlimited list. */
  ghost predicate StayedRecent(max: nat, ops: seq<Op>, n: nat, e: Slot)
    requires n <= |ops|
  {
    forall m :: LastTouched(max, ops, n, e.key) < m <= n ==> Behind(Ranking(max, ops, m), e) < max
  }

  /** Exactly what is held: of the entries the unlimited list has, the cache holds those that stayed recent. */
  lemma {:induction false} HeldExactly(max: nat, ops: seq<Op>, n: nat, e: Slot)
    requires n <= |ops| && e in Ranking(max, ops, n)
    ensures e in After(max, ops, n) <==> StayedRecent(max, ops, n, e)
  {
    hide Removed, Find, Distinct, Behind;
    if n > 0 {
      var u, s, op := Ranking(max, ops, n - 1), After(max, ops, n - 1), ops[n - 1];
      var g := CacheIsTheRecentEnd(max, ops, n - 1);
      var gone := CacheIsTheRecentEnd(max, ops, n);
      if Touches(s, op) && op.k == e.key {
        JustTouched(max, g, s, op, e);
      } else {
        assert LastTouched(max, ops, n, e.key) == LastTouched(max, ops, n - 1, e.key);
        UntouchedWasThere(g, s, op, e);
        HeldExactly(max, ops, n - 1, e);
        HeldStep(max, g, s, op, e);
        RecentStep(max, ops, n, e);
      }
    }
  }

  lemma RecentStep(max: nat, ops: seq<Op>, n: nat, e: Slot)
    requires 0 < n <= |ops| && LastTouched(max, ops, n, e.key) == LastTouched(max, ops, n - 1, e.key)
    ensures StayedRecent(max, ops, n, e) <==> StayedRecent(max, ops, n - 1, e) && Behind(Ranking(max, ops, n), e) < max
  {
    hide Ranking, Behind;
  }

  /** A key just touched has nothing behind it. */
  lemma JustTouched(max: nat, g: Slots, s: Slots, op: Op, e: Slot)
    requires Distinct(g + s) && |s| <= max && Touches(s, op) && op.k == e.key && e in Unlimited(g + s, s, op)
    ensures Behind(Unlimited(g + s, s, op), e) == 0
    ensures e in Apply(s, max, op) <==> 0 < max
  {
    hide Removed, Find, Distinct, Behind, Trim;
    var t := TouchedEntry(s, op);
    FoundIffIn(s, op.k);
    RemovedIsFilter(g + s, Key(op.k));
    LastInList(Without(g + s, op.k), t, e);
    if op.Set? {
      SuffixDistinct(g, s);
      NewestIsHeld(max, s, t);
    } else {
      assert s != [] && e in Without(s, op.k) + [t];
    }
  }

  lemma LastInList(w: Slots, x: Slot, e: Slot)
    requires e in w + [x] && e.key == x.key && (forall y :: y in w ==> y.key != x.key)
    ensures e == x && Behind(w + [x], e) == 0
  {
    BehindInSuffix(w, [x], x);
    assert Behind([x], x) == 0;
  }

  lemma NewestIsHeld(max: nat, s: Slots, x: Slot)
    requires Distinct(s)
    ensures x in Trim(Without(s, x.key) + [x], max) <==> 0 < max
  {
    hide Removed, Distinct, Behind, Trim;
    var w := Without(s, x.key);
    RemovedIsFilter(s, Key(x.key));
    PushedIsDistinct(s, x);
    LastInList(w, x, x);
    TrimKeepsExactly(w + [x], max, x);
  }

  lemma UntouchedWasThere(g: Slots, s: Slots, op: Op, e: Slot)
    requires e in Unlimited(g + s, s, op) && !(Touches(s, op) && op.k == e.key)
    ensures e in g + s
  {
    hide Removed, Find;
    FoundIffIn(s, if op.Clear? then "" else op.k);
    RemovedIsFilter(g + s, if op.Clear? then Prefix(op.prefix) else Key(op.k));
  }

  /** An entry that an operation neither touches nor removes stays held if it was and still has fewer than `max`
    * entries behind it. */
  lemma HeldStep(max: nat, g: Slots, s: Slots, op: Op, e: Slot)
    requires Distinct(g + s) && |s| <= max && e in g + s && e in Unlimited(g + s, s, op) && !(Touches(s, op) && op.k == e.key)
    ensures e in Apply(s, max, op) <==> e in s && Behind(Unlimited(g + s, s, op), e) < max
  {
    hide Removed, Find, Distinct;
    var gone := RecentEndStep(max, g, s, op);
    var u, t := Unlimited(g + s, s, op), Apply(s, max, op);
    if e in t {
      DistinctParts(gone, t, e);
      BehindInSuffix(gone, t, e);
      BehindIsSmall(t, e);
      WasHeld(max, s, op, e);
    } else if e in s {
      SuffixDistinct(g, s);
      DroppedByTrim(max, g, s, op, e);
    }
  }

  lemma WasHeld(max: nat, s: Slots, op: Op, e: Slot)
    requires e in Apply(s, max, op) && !(Touches(s, op) && op.k == e.key)
    ensures e in s
  {
    hide Removed, Find;
    FoundIffIn(s, if op.Clear? then "" else op.k);
    RemovedIsFilter(s, if op.Clear? then Prefix(op.prefix) else Key(op.k));
    if op.Set? && op.ttl > 0.0 {
      var pushed := Without(s, op.k) + [Slot(op.k, op.v, op.now + op.ttl)];
      assert forall x :: x in Trim(pushed, max) ==> x in pushed;
    }
  }

  lemma DroppedByTrim(max: nat, g: Slots, s: Slots, op: Op, e: Slot)
    requires Distinct(g + s) && Distinct(s) && e in s && e in Unlimited(g + s, s, op) && !(Touches(s, op) && op.k == e.key)
    requires e !in Apply(s, max, op)
    ensures Behind(Unlimited(g + s, s, op), e) >= max
  {
    hide Removed, Find, Distinct, Behind, Trim;
    assert e in g + s;
    FoundIffIn(s, if op.Clear? then "" else op.k);
    RemovedIsFilter(s, if op.Clear? then Prefix(op.prefix) else Key(op.k));
    RemovedIsFilter(g + s, if op.Clear? then Prefix(op.prefix) else Key(op.k));
    if op.Set? && op.ttl > 0.0 {
      DroppedBySet(max, g, s, op.k, op.v, op.ttl, op.now, e);
    }
  }

  lemma DroppedBySet(max: nat, g: Slots, s: Slots, k: string, v: string, ttl: real, now: real, e: Slot)
    requires Distinct(g + s) && Distinct(s) && e in s && e.key != k && e !in SetIn(s, max, k, v, ttl, now)
    ensures Behind(Unlimited(g + s, s, Set(k, v, ttl, now)), e) >= max
  {
    hide Removed, Find, Distinct, Behind, Trim;
    var x := Slot(k, v, now + ttl);
    var pushed := Without(s, k) + [x];
    RemovedIsFilter(s, Key(k));
    PushedIsDistinct(s, x);
    TrimKeepsExactly(pushed, max, e);
    RemovedConcat(g, s, Key(k));
    assert Without(g + s, k) + [x] == Without(g, k) + pushed;
    RemovedIsFilter(g, Key(k));
    DistinctParts(g, s, e);
    BehindInSuffix(Without(g, k), pushed, e);
  }

  // ---------------------------------------------------------- exactly when a get hits

  predicate Timely(ops: seq<Op>, n: nat, now: real)
    requires n <= |ops|
  {
    forall i :: 0 <= i < n && (ops[i].Get? || ops[i].Set?) ==> ops[i].now <= now
  }

  /** Of the live entries, the unlimited list has exactly those of the plain map. */
  lemma {:induction false} LiveEntriesAgree(max: nat, ops: seq<Op>, n: nat, now: real, e: Slot)
    requires n <= |ops| && Timely(ops, n, now) && now < e.expiresAt
    ensures e in Ranking(max, ops, n) <==> e.key in PlainAfter(ops, n) && PlainAfter(ops, n)[e.key] == e
  {
    hide Removed, Find, Distinct;
    if n > 0 {
      LiveEntriesAgree(max, ops, n - 1, now, e);
      var g := CacheIsTheRecentEnd(max, ops, n - 1);
      LiveStep(g, After(max, ops, n - 1), PlainAfter(ops, n - 1), ops[n - 1], now, e);
    }
  }

  lemma LiveStep(g: Slots, s: Slots, m: Plain, op: Op, now: real, e: Slot)
    requires Distinct(g + s) && now < e.expiresAt && (op.Get? ==> op.now <= now)
    requires e in g + s <==> e.key in m && m[e.key] == e
    ensures e in Unlimited(g + s, s, op) <==> e.key in PlainApply(m, op) && PlainApply(m, op)[e.key] == e
  {
    hide Removed, Find, Distinct;
    RemovedIsFilter(g + s, if op.Clear? then Prefix(op.prefix) else Key(op.k));
    if op.Get? {
      FoundIffIn(s, op.k);
      if Find(s, op.k).Some? {
        OnlyOneOfAKey(g + s, Find(s, op.k).value, e);
      }
    }
  }

  lemma OnlyOneOfAKey(s: Slots, x: Slot, e: Slot)
    requires Distinct(s) && x in s
    ensures e in s && e.key == x.key ==> e == x
  {
  }

  /** A get hits exactly when the plain map has a live entry for the key and that entry stayed recent: fewer than `max`
    * entries behind it ever since it was last set or hit. Then it answers with that entry's value. */
  lemma GetHitsExactly(max: nat, ops: seq<Op>, n: nat, k: string, now: real)
    requires n <= |ops| && Timely(ops, n, now)
    ensures var m := PlainAfter(ops, n);
            GetFrom(After(max, ops, n), k, now).0
            == if k in m && now < m[k].expiresAt && StayedRecent(max, ops, n, m[k]) then Some(m[k].value) else None
  {
    hide Removed, Find, Distinct, StayedRecent, Ranking, After, PlainAfter, Timely;
    var s, m := After(max, ops, n), PlainAfter(ops, n);
    FoundIffIn(s, k);
    RunsAgree(max, ops, n);
    PlainIsKeyed(ops, n);
    if k in m && now < m[k].expiresAt {
      var e := m[k];
      LiveEntriesAgree(max, ops, n, now, e);
      HeldExactly(max, ops, n, e);
      var gone := CacheIsTheRecentEnd(max, ops, n);
      if e in s {
        HeldIsFound(s, max, ops, n, e);
      }
    }
  }

  lemma {:induction false} PlainIsKeyed(ops: seq<Op>, n: nat)
    requires n <= |ops|
    ensures forall k :: k in PlainAfter(ops, n) ==> PlainAfter(ops, n)[k].key == k
  {
    if n > 0 {
      PlainIsKeyed(ops, n - 1);
    }
  }

  lemma HeldIsFound(s: Slots, max: nat, ops: seq<Op>, n: nat, e: Slot)
    requires n <= |ops| && s == After(max, ops, n) && e in s
    ensures Find(s, e.key) == Some(e)
  {
    hide After, Find;
    OrderIsRecency(max, ops, n);
    var i :| 0 <= i < |s| && s[i] == e;
    FindDistinct(s, i);
  }

  /** Removing a key answers nothing for it afterwards, and leaves every other key as it was. */
  lemma {:induction false} OtherKeysStay(s: Slots, d: Target, j: string)
    ensures Find(Removed(s, d), j) == if Names(d, j) then None else Find(s, j)
  {
    hide Names;
    if s != [] {
      var w := Removed(s[1..], d);
      OtherKeysStay(s[1..], d, j);
      if Names(d, s[0].key) {
        assert Removed(s, d) == w;
      } else {
        assert ([s[0]] + w)[1..] == w;
      }
    }
  }

  // ----------------------------------------------- a hit, from the operations alone

  /** The operation sets its key, or finds it live in the plain map. */
  predicate Uses(m: Plain, op: Op) {
    match op
    case Get(k, now) => k in m && now < m[k].expiresAt
    case Set(_, _, ttl, _) => ttl > 0.0
    case _ => false
  }

  /** The other keys used since `k` was, in the plain map. */
  function UsedSince(ops: seq<Op>, n: nat, k: string): set<string>
    requires n <= |ops|
  {
    if n == 0 then {}
    else if !Uses(PlainAfter(ops, n - 1), ops[n - 1]) then UsedSince(ops, n - 1, k)
    else if ops[n - 1].k == k then {}
    else UsedSince(ops, n - 1, k) + {ops[n - 1].k}
  }

  function LastSet(ops: seq<Op>, n: nat, k: string): (at: int)
    requires n <= |ops|
    ensures -1 <= at < n
  {
    if n == 0 then -1
    else if ops[n - 1].Set? && ops[n - 1].ttl > 0.0 && ops[n - 1].k == k then n - 1
    else LastSet(ops, n - 1, k)
  }

  /** Ever since `k` was set, fewer than `max` other keys were used between its uses. */
  ghost predicate FewOthersUsed(max: nat, ops: seq<Op>, n: nat, k: string)
    requires n <= |ops|
  {
    forall m :: LastSet(ops, n, k) < m <= n ==> |UsedSince(ops, m, k)| < max
  }

  lemma WiderHolding(s: Slots, e: Slot, a: set<string>, b: set<string>)
    requires HoldsAt(s, e, a) && a <= b
    ensures HoldsAt(s, e, b)
  {
    var i :| 0 <= i < |s| && s[i] == e && KeysOf(s[i + 1..]) <= a;
    assert KeysOf(s[i + 1..]) <= b;
  }

  /** What touches the cache uses the plain map, and a get of a held live entry does both. */
  lemma TouchesAreUses(s: Slots, m: Plain, op: Op)
    requires Agrees(s, m) && Touches(s, op)
    ensures Uses(m, op)
  {
    hide Find;
    if op.Get? {
      FoundIffIn(s, op.k);
    }
  }

  lemma JustSetIsHeld(s: Slots, max: nat, e: Slot)
    requires Distinct(s) && 0 < max
    ensures HoldsAt(Trim(Without(s, e.key) + [e], max), e, {})
  {
    hide Removed, Distinct, HoldsAt, Trim;
    var none: set<string> := {};
    assert none + {} == none;
    PushedIsDistinct(s, e);
    LastHolds(Without(s, e.key), e, none);
    TrimKeepsHolding(Without(s, e.key) + [e], max, e, none);
  }

  lemma JustHitIsLast(s: Slots, e: Slot, touched: set<string>, now: real)
    requires Distinct(s) && HoldsAt(s, e, touched) && now < e.expiresAt
    ensures HoldsAt(GetFrom(s, e.key, now).1, e, {})
  {
    hide Removed, Distinct, HoldsAt;
    var none: set<string> := {};
    assert none + {} == none;
    FoundWhereHeld(s, e, touched);
    LastHolds(Without(s, e.key), e, none);
  }

  lemma {:induction false} FewUsedIsHeld(max: nat, ops: seq<Op>, n: nat, now: real, e: Slot)
    requires n <= |ops| && Timely(ops, n, now) && now < e.expiresAt
    requires e.key in PlainAfter(ops, n) && PlainAfter(ops, n)[e.key] == e && FewOthersUsed(max, ops, n, e.key)
    ensures HoldsAt(After(max, ops, n), e, UsedSince(ops, n, e.key))
  {
    hide HoldsAt, Find, Removed, Trim, Distinct;
    var op, s, m := ops[n - 1], After(max, ops, n - 1), PlainAfter(ops, n - 1);
    OrderIsRecency(max, ops, n - 1);
    if op.Set? && op.ttl > 0.0 && op.k == e.key {
      assert |UsedSince(ops, n, e.key)| < max;
      JustSetIsHeld(s, max, e);
    } else {
      FewUsedIsHeld(max, ops, n - 1, now, e);
      RunsAgree(max, ops, n - 1);
      FewUsedStep(max, s, m, op, e, UsedSince(ops, n - 1, e.key), UsedSince(ops, n, e.key));
    }
  }

  lemma FewUsedStep(max: nat, s: Slots, m: Plain, op: Op, e: Slot, was: set<string>, used: set<string>)
    requires Bounded(s, max) && Agrees(s, m) && HoldsAt(s, e, was) && |was| < max && |used| < max
    requires e.key in m && m[e.key] == e && e.key in PlainApply(m, op) && PlainApply(m, op)[e.key] == e
    requires !(op.Set? && op.ttl > 0.0 && op.k == e.key) && (op.Get? ==> op.now < e.expiresAt)
    requires used == if !Uses(m, op) then was else if op.k == e.key then {} else was + {op.k}
    ensures HoldsAt(Apply(s, max, op), e, used)
  {
    hide HoldsAt, Find, Removed, Trim, Distinct, Agrees;
    if op.Get? && op.k == e.key {
      JustHitIsLast(s, e, was, op.now);
    } else {
      if Touches(s, op) {
        TouchesAreUses(s, m, op);
      }
      var more := if Touches(s, op) && op.k != e.key then {op.k} else {};
      assert was + more <= used;
      SubsetSize(was + more, used);
      StepKeepsHolding(s, max, op, e, was);
      WiderHolding(Apply(s, max, op), e, was + more, used);
    }
  }

  /** A guarantee that can be read off the operations, without running the cache: a live entry of the plain map is a hit
    * if, ever since it was set, fewer than `max` other keys were set or found between its uses. It is not necessary, for
    * finding a key that the cache has dropped uses the plain map and moves nothing in the cache. */
  lemma HitsByOperationsAlone(max: nat, ops: seq<Op>, n: nat, k: string, now: real)
    requires n <= |ops| && Timely(ops, n, now)
    requires k in PlainAfter(ops, n) && now < PlainAfter(ops, n)[k].expiresAt && FewOthersUsed(max, ops, n, k)
    ensures GetFrom(After(max, ops, n), k, now).0 == Some(PlainAfter(ops, n)[k].value)
  {
    hide HoldsAt, After, PlainAfter, UsedSince, FewOthersUsed, Find, Distinct;
    var e := PlainAfter(ops, n)[k];
    PlainIsKeyed(ops, n);
    OrderIsRecency(max, ops, n);
    FewUsedIsHeld(max, ops, n, now, e);
    FoundWhereHeld(After(max, ops, n), e, UsedSince(ops, n, k));
  }
}

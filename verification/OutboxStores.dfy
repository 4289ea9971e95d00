/** The in-memory outbox: four lists under one lock. */
module MemoryOutbox {
  import opened Wrappers
  import opened KeyLife

  datatype Message = Message(key: string, kind: string, body: string, availableAt: Option<int>, attempts: nat)

  datatype Lease = Lease(message: Message, at: int)

  /** What the four lists hold; `claimed` is a dict, here in insertion order. */
  datatype Box = Box(pending: seq<Message>, claimed: seq<Lease>, delivered: seq<Message>, dead: seq<Message>)

  const EMPTY := Box([], [], [], [])

  // ----------------------------------------------------------- lists of messages

  function Find(ms: seq<Message>, k: string): Option<Message> {
    if ms == [] then None else if ms[0].key == k then Some(ms[0]) else Find(ms[1..], k)
  }

  function Without(ms: seq<Message>, k: string): seq<Message> {
    if ms == [] then [] else (if ms[0].key == k then [] else [ms[0]]) + Without(ms[1..], k)
  }

  function Matching(ms: seq<Message>, k: string): seq<Message> {
    if ms == [] then [] else (if ms[0].key == k then [ms[0]] else []) + Matching(ms[1..], k)
  }

  function FindLease(ls: seq<Lease>, k: string): Option<Lease> {
    if ls == [] then None else if ls[0].message.key == k then Some(ls[0]) else FindLease(ls[1..], k)
  }

  function WithoutLease(ls: seq<Lease>, k: string): seq<Lease> {
    if ls == [] then [] else (if ls[0].message.key == k then [] else [ls[0]]) + WithoutLease(ls[1..], k)
  }

  /** How often a key occurs in a list. */
  function Occurs(ms: seq<Message>, k: string): nat {
    if ms == [] then 0 else (if ms[0].key == k then 1 else 0) + Occurs(ms[1..], k)
  }

  function LeaseOccurs(ls: seq<Lease>, k: string): nat {
    if ls == [] then 0 else (if ls[0].message.key == k then 1 else 0) + LeaseOccurs(ls[1..], k)
  }

  /** In how many places a key is. */
  function Places(b: Box, k: string): nat {
    Occurs(b.pending, k) + LeaseOccurs(b.claimed, k) + Occurs(b.delivered, k) + Occurs(b.dead, k)
  }

  /** Every key is in at most one place, once. */
  ghost predicate WellFormed(b: Box) {
    forall k :: Places(b, k) <= 1
  }

  /** Appending to a list, as one key sees it. */
  lemma {:induction false} Appended(a: seq<Message>, b: seq<Message>, k: string)
    ensures Occurs(a + b, k) == Occurs(a, k) + Occurs(b, k)
    ensures Find(a + b, k) == if Find(a, k).Some? then Find(a, k) else Find(b, k)
  {
    if a == [] {
      assert a + b == b;
    } else {
      assert (a + b)[1..] == a[1..] + b;
      Appended(a[1..], b, k);
    }
  }

  lemma {:induction false} LeaseAppended(a: seq<Lease>, b: seq<Lease>, k: string)
    ensures LeaseOccurs(a + b, k) == LeaseOccurs(a, k) + LeaseOccurs(b, k)
    ensures FindLease(a + b, k) == if FindLease(a, k).Some? then FindLease(a, k) else FindLease(b, k)
  {
    if a == [] {
      assert a + b == b;
    } else {
      assert (a + b)[1..] == a[1..] + b;
      LeaseAppended(a[1..], b, k);
    }
  }

  /** A message is found exactly when its key occurs. */
  lemma {:induction false} FoundIffOccurs(ms: seq<Message>, k: string)
    ensures Find(ms, k).Some? <==> Occurs(ms, k) > 0
    ensures Find(ms, k).Some? ==> Find(ms, k).value.key == k && Find(ms, k).value in ms
  {
    if ms != [] {
      FoundIffOccurs(ms[1..], k);
    }
  }

  lemma {:induction false} LeaseFoundIffOccurs(ls: seq<Lease>, k: string)
    ensures FindLease(ls, k).Some? <==> LeaseOccurs(ls, k) > 0
    ensures FindLease(ls, k).Some? ==> FindLease(ls, k).value.message.key == k
  {
    if ls != [] {
      LeaseFoundIffOccurs(ls[1..], k);
    }
  }

  /** Removing key `j`, as key `k` sees it. */
  lemma {:induction false} Removed(ms: seq<Message>, j: string, k: string)
    ensures Occurs(Without(ms, j), k) == if k == j then 0 else Occurs(ms, k)
    ensures Find(Without(ms, j), k) == if k == j then None else Find(ms, k)
  {
    if ms != [] {
      Removed(ms[1..], j, k);
      var w := Without(ms[1..], j);
      if ms[0].key != j {
        assert ([ms[0]] + w)[1..] == w;
      } else {
        assert [] + w == w;
      }
    }
  }

  lemma {:induction false} LeaseRemoved(ls: seq<Lease>, j: string, k: string)
    ensures LeaseOccurs(WithoutLease(ls, j), k) == if k == j then 0 else LeaseOccurs(ls, k)
    ensures FindLease(WithoutLease(ls, j), k) == if k == j then None else FindLease(ls, k)
  {
    if ls != [] {
      LeaseRemoved(ls[1..], j, k);
      var w := WithoutLease(ls[1..], j);
      if ls[0].message.key != j {
        assert ([ls[0]] + w)[1..] == w;
      } else {
        assert [] + w == w;
      }
    }
  }

  /** A key that occurs at most once matches exactly the message a lookup finds. */
  lemma {:induction false} MatchedOnce(ms: seq<Message>, k: string)
    requires Occurs(ms, k) <= 1
    ensures Matching(ms, k) == if Find(ms, k).Some? then [Find(ms, k).value] else []
  {
    if ms != [] {
      MatchedOnce(ms[1..], k);
      FoundIffOccurs(ms[1..], k);
    }
  }

  // ------------------------------------------------------------------- operations

  predicate Known(b: Box, k: string) {
    Find(b.pending, k).Some? || FindLease(b.claimed, k).Some? || Find(b.delivered, k).Some? || Find(b.dead, k).Some?
  }

  function Enqueued(b: Box, m: Message): Box {
    if Known(b, m.key) then b else b.(pending := b.pending + [m])
  }

  predicate Due(m: Message, now: int) {
    m.availableAt.None? || m.availableAt.value <= now
  }

  function Ready(ms: seq<Message>, now: int): seq<Message> {
    if ms == [] then [] else (if Due(ms[0], now) then [ms[0]] else []) + Ready(ms[1..], now)
  }

  function First<T>(s: seq<T>, limit: nat): seq<T> {
    if |s| <= limit then s else s[..limit]
  }

  function Taken(b: Box, limit: nat, now: int): seq<Message> {
    First(Ready(b.pending, now), limit)
  }

  function ClaimOne(b: Box, m: Message, now: int): Box {
    b.(pending := Without(b.pending, m.key), claimed := b.claimed + [Lease(m, now)])
  }

  function ClaimAll(b: Box, taken: seq<Message>, now: int): Box
    decreases |taken|
  {
    if taken == [] then b else ClaimAll(ClaimOne(b, taken[0], now), taken[1..], now)
  }

  function MarkedDelivered(b: Box, k: string): Box {
    var lease := FindLease(b.claimed, k);
    if lease.Some? then
      b.(claimed := WithoutLease(b.claimed, k), delivered := b.delivered + [lease.value.message])
    else
      b.(pending := Without(b.pending, k), delivered := b.delivered + Matching(b.pending, k))
  }

  function MarkedDead(b: Box, k: string): Box {
    var lease := FindLease(b.claimed, k);
    if lease.Some? then
      b.(claimed := WithoutLease(b.claimed, k), dead := b.dead + [lease.value.message])
    else
      b.(pending := Without(b.pending, k), dead := b.dead + Matching(b.pending, k))
  }

  function MarkedFailed(b: Box, k: string, retryAt: int): Box {
    var lease, waiting := FindLease(b.claimed, k), Find(b.pending, k);
    if lease.None? && waiting.None? then b
    else
      var message := if lease.Some? then lease.value.message else waiting.value;
      var rest := if lease.Some? then b.(claimed := WithoutLease(b.claimed, k)) else b.(pending := Without(b.pending, k));
      var retried := message.(availableAt := Some(retryAt), attempts := message.attempts + 1);
      if retried.attempts >= MAX_ATTEMPTS then rest.(dead := rest.dead + [retried])
      else rest.(pending := rest.pending + [retried])
  }

  function Stale(ls: seq<Lease>, olderThan: int): seq<Lease> {
    if ls == [] then [] else (if ls[0].at < olderThan then [ls[0]] else []) + Stale(ls[1..], olderThan)
  }

  function ReclaimOne(b: Box, l: Lease): Box {
    b.(claimed := WithoutLease(b.claimed, l.message.key), pending := b.pending + [l.message])
  }

  function ReclaimAll(b: Box, stale: seq<Lease>): Box
    decreases |stale|
  {
    if stale == [] then b else ReclaimAll(ReclaimOne(b, stale[0]), stale[1..])
  }

  datatype Op =
    | OpEnqueue(m: Message)
    | OpClaim(limit: nat, now: int)
    | OpDelivered(k: string, at: int)
    | OpFailed(k: string, retryAt: int)
    | OpDead(k: string)
    | OpReclaim(olderThan: int)

  function Apply(b: Box, op: Op): Box {
    match op
    case OpEnqueue(m) => Enqueued(b, m)
    case OpClaim(limit, now) => ClaimAll(b, Taken(b, limit, now), now)
    case OpDelivered(k, _) => MarkedDelivered(b, k)
    case OpFailed(k, retryAt) => MarkedFailed(b, k, retryAt)
    case OpDead(k) => MarkedDead(b, k)
    case OpReclaim(olderThan) => ReclaimAll(b, Stale(b.claimed, olderThan))
  }

  // ---------------------------------------------------------------- what a key sees

  /** Where a key is. */
  function StatusOf(b: Box, k: string): Status {
    var p, c, d, x := Find(b.pending, k), FindLease(b.claimed, k), Find(b.delivered, k), Find(b.dead, k);
    if p.Some? then Pending(p.value.attempts, p.value.availableAt)
    else if c.Some? then Claimed(c.value.message.attempts, c.value.message.availableAt, c.value.at)
    else if d.Some? then Delivered(d.value.attempts)
    else if x.Some? then Dead(x.value.attempts)
    else Absent
  }

  /** What a relay is to send: the kind of a message and its text. */
  datatype Content = Content(kind: string, body: string)

  /** The message a key has, wherever it is. */
  function Held(b: Box, k: string): Option<Message> {
    var p, c, d, x := Find(b.pending, k), FindLease(b.claimed, k), Find(b.delivered, k), Find(b.dead, k);
    if p.Some? then p else if c.Some? then Some(c.value.message) else if d.Some? then d else x
  }

  function ContentOf(b: Box, k: string): Option<Content> {
    var m := Held(b, k);
    if m.None? then None else Some(Content(m.value.kind, m.value.body))
  }

  /** Only the first enqueue of a key gives it content; nothing ever changes that. */
  function ContentAfter(was: Option<Content>, op: Op, k: string): Option<Content> {
    if was.None? && op.OpEnqueue? && op.m.key == k then Some(Content(op.m.kind, op.m.body)) else was
  }

  /** What an operation is to a key. */
  function EventOf(b: Box, op: Op, k: string): Event {
    match op
    case OpEnqueue(m) => if m.key == k then Enqueue(m.attempts, m.availableAt) else Nothing
    case OpClaim(limit, now) => if Find(Taken(b, limit, now), k).Some? then Claim(now) else Nothing
    case OpDelivered(key, _) => if key == k then Deliver else Nothing
    case OpFailed(key, retryAt) => if key == k then Fail(retryAt) else Nothing
    case OpDead(key) => if key == k then Kill else Nothing
    case OpReclaim(olderThan) => if FindLease(Stale(b.claimed, olderThan), k).Some? then Reclaim else Nothing
  }

  /** A key is in exactly one of the four places, or in none. */
  lemma InOnePlace(b: Box, k: string)
    requires WellFormed(b)
    ensures var p, c, d, x := Occurs(b.pending, k), LeaseOccurs(b.claimed, k), Occurs(b.delivered, k), Occurs(b.dead, k);
            && p + c + d + x <= 1
            && (Find(b.pending, k).Some? <==> p == 1) && (FindLease(b.claimed, k).Some? <==> c == 1)
            && (Find(b.delivered, k).Some? <==> d == 1) && (Find(b.dead, k).Some? <==> x == 1)
  {
    FoundIffOccurs(b.pending, k);
    LeaseFoundIffOccurs(b.claimed, k);
    FoundIffOccurs(b.delivered, k);
    FoundIffOccurs(b.dead, k);
    assert Places(b, k) <= 1;
  }

  /** What a step does to one key: where it is afterwards, in how many places, and that it keeps its content. */
  ghost predicate MovesKey(b: Box, c: Box, k: string, e: Event) {
    && Places(c, k) == (if e.Enqueue? then 1 else Places(b, k)) && StatusOf(c, k) == MemNext(StatusOf(b, k), e)
    && (!e.Enqueue? ==> ContentOf(c, k) == ContentOf(b, k))
  }

  lemma EnqueueMoves(b: Box, m: Message, k: string)
    requires WellFormed(b)
    ensures MovesKey(b, Enqueued(b, m), k, EventOf(b, OpEnqueue(m), k))
    ensures ContentOf(Enqueued(b, m), k) == ContentAfter(ContentOf(b, k), OpEnqueue(m), k)
  {
    hide Occurs, LeaseOccurs, Find, FindLease;
    InOnePlace(b, m.key);
    InOnePlace(b, k);
    Appended(b.pending, [m], k);
    Single(m, k);
  }

  lemma Single(m: Message, k: string)
    ensures Occurs([m], k) == (if m.key == k then 1 else 0) && Find([m], k) == (if m.key == k then Some(m) else None)
  {
  }

  lemma SingleLease(l: Lease, k: string)
    ensures LeaseOccurs([l], k) == (if l.message.key == k then 1 else 0)
    ensures FindLease([l], k) == (if l.message.key == k then Some(l) else None)
  {
  }

  lemma ClaimOneMoves(b: Box, m: Message, now: int, k: string)
    requires WellFormed(b) && Find(b.pending, m.key) == Some(m)
    ensures MovesKey(b, ClaimOne(b, m, now), k, if k == m.key then Claim(now) else Nothing)
    ensures Find(ClaimOne(b, m, now).pending, k) == if k == m.key then None else Find(b.pending, k)
  {
    hide Occurs, LeaseOccurs, Find, FindLease, Without;
    InOnePlace(b, k);
    Removed(b.pending, m.key, k);
    LeaseAppended(b.claimed, [Lease(m, now)], k);
    SingleLease(Lease(m, now), k);
  }

  lemma ReclaimOneMoves(b: Box, l: Lease, k: string)
    requires WellFormed(b) && FindLease(b.claimed, l.message.key) == Some(l)
    ensures MovesKey(b, ReclaimOne(b, l), k, if k == l.message.key then Reclaim else Nothing)
    ensures FindLease(ReclaimOne(b, l).claimed, k) == if k == l.message.key then None else FindLease(b.claimed, k)
  {
    hide Occurs, LeaseOccurs, Find, FindLease, WithoutLease;
    InOnePlace(b, k);
    LeaseRemoved(b.claimed, l.message.key, k);
    Appended(b.pending, [l.message], k);
    Single(l.message, k);
  }

  lemma DeliveredMoves(b: Box, key: string, k: string)
    requires WellFormed(b)
    ensures forall at :: MovesKey(b, MarkedDelivered(b, key), k, EventOf(b, OpDelivered(key, at), k))
  {
    hide Occurs, LeaseOccurs, Find, FindLease, Without, WithoutLease, Matching;
    InOnePlace(b, key);
    InOnePlace(b, k);
    var lease := FindLease(b.claimed, key);
    LeaseFoundIffOccurs(b.claimed, key);
    FoundIffOccurs(b.pending, key);
    if lease.Some? {
      LeaseRemoved(b.claimed, key, k);
      Appended(b.delivered, [lease.value.message], k);
      Single(lease.value.message, k);
    } else {
      Removed(b.pending, key, k);
      MatchedOnce(b.pending, key);
      Appended(b.delivered, Matching(b.pending, key), k);
      if Find(b.pending, key).Some? {
        Single(Find(b.pending, key).value, k);
      } else {
        NoMessages(k);
      }
    }
  }

  lemma NoMessages(k: string)
    ensures Occurs([], k) == 0 && Find([], k) == None
  {
  }

  lemma DeadMoves(b: Box, key: string, k: string)
    requires WellFormed(b)
    ensures MovesKey(b, MarkedDead(b, key), k, EventOf(b, OpDead(key), k))
  {
    hide Occurs, LeaseOccurs, Find, FindLease, Without, WithoutLease, Matching;
    InOnePlace(b, key);
    InOnePlace(b, k);
    var lease := FindLease(b.claimed, key);
    LeaseFoundIffOccurs(b.claimed, key);
    FoundIffOccurs(b.pending, key);
    if lease.Some? {
      LeaseRemoved(b.claimed, key, k);
      Appended(b.dead, [lease.value.message], k);
      Single(lease.value.message, k);
    } else {
      Removed(b.pending, key, k);
      MatchedOnce(b.pending, key);
      Appended(b.dead, Matching(b.pending, key), k);
      if Find(b.pending, key).Some? {
        Single(Find(b.pending, key).value, k);
      } else {
        NoMessages(k);
      }
    }
  }

  lemma FailedMoves(b: Box, key: string, retryAt: int, k: string)
    requires WellFormed(b)
    ensures MovesKey(b, MarkedFailed(b, key, retryAt), k, EventOf(b, OpFailed(key, retryAt), k))
  {
    hide Occurs, LeaseOccurs, Find, FindLease, Without, WithoutLease;
    InOnePlace(b, key);
    InOnePlace(b, k);
    var lease, waiting := FindLease(b.claimed, key), Find(b.pending, key);
    LeaseFoundIffOccurs(b.claimed, key);
    FoundIffOccurs(b.pending, key);
    if lease.Some? || waiting.Some? {
      var message := if lease.Some? then lease.value.message else waiting.value;
      var retried := message.(availableAt := Some(retryAt), attempts := message.attempts + 1);
      Single(retried, k);
      Appended(b.dead, [retried], k);
      Appended(b.pending, [retried], k);
      LeaseRemoved(b.claimed, key, k);
      Removed(b.pending, key, k);
      Appended(Without(b.pending, key), [retried], k);
    }
  }

  // ------------------------------------------------------------------ batches

  ghost predicate OnceEach(ms: seq<Message>) {
    forall k :: Occurs(ms, k) <= 1
  }

  lemma {:induction false} MemberOccurs(ms: seq<Message>, m: Message)
    requires m in ms
    ensures Occurs(ms, m.key) >= 1
    ensures Occurs(ms, m.key) <= 1 ==> Find(ms, m.key) == Some(m)
  {
    if ms[0] != m {
      MemberOccurs(ms[1..], m);
    } else if m in ms[1..] {
      MemberOccurs(ms[1..], m);
    }
  }

  lemma {:induction false} ReadySelects(ms: seq<Message>, now: int)
    ensures forall k :: Occurs(Ready(ms, now), k) <= Occurs(ms, k)
    ensures forall m :: m in Ready(ms, now) <==> m in ms && Due(m, now)
  {
    if ms != [] {
      ReadySelects(ms[1..], now);
      var r := Ready(ms[1..], now);
      if Due(ms[0], now) {
        assert ([ms[0]] + r)[1..] == r;
      } else {
        assert [] + r == r;
      }
    }
  }

  lemma FirstSelects(s: seq<Message>, limit: nat)
    ensures forall k :: Occurs(First(s, limit), k) <= Occurs(s, k)
    ensures forall m :: m in First(s, limit) ==> m in s
  {
    if |s| > limit {
      forall k ensures Occurs(s[..limit], k) <= Occurs(s, k) {
        assert s == s[..limit] + s[limit..];
        Appended(s[..limit], s[limit..], k);
      }
    }
  }

  /** A batch holds due pending messages, each once. */
  lemma TakenAreDue(b: Box, limit: nat, now: int)
    requires WellFormed(b)
    ensures OnceEach(Taken(b, limit, now))
    ensures forall m :: m in Taken(b, limit, now) ==> Find(b.pending, m.key) == Some(m) && Due(m, now)
  {
    ReadySelects(b.pending, now);
    FirstSelects(Ready(b.pending, now), limit);
    forall k ensures Occurs(Taken(b, limit, now), k) <= 1 {
      assert Places(b, k) <= 1;
      assert Occurs(Ready(b.pending, now), k) <= Occurs(b.pending, k);
    }
    forall m | m in Taken(b, limit, now) ensures Find(b.pending, m.key) == Some(m) && Due(m, now) {
      assert Places(b, m.key) <= 1;
      MemberOccurs(b.pending, m);
    }
  }

  lemma TailOnceEach(ms: seq<Message>)
    requires OnceEach(ms) && ms != []
    ensures OnceEach(ms[1..])
    ensures forall m :: m in ms[1..] ==> m.key != ms[0].key
    ensures Find(ms[1..], ms[0].key) == None
  {
    forall k ensures Occurs(ms[1..], k) <= 1 {
      assert Occurs(ms, k) <= 1;
    }
    assert Occurs(ms, ms[0].key) <= 1;
    FoundIffOccurs(ms[1..], ms[0].key);
    forall m | m in ms[1..] ensures m.key != ms[0].key {
      MemberOccurs(ms[1..], m);
    }
  }

  lemma ClaimOneKeepsWellFormed(b: Box, m: Message, now: int)
    requires WellFormed(b) && Find(b.pending, m.key) == Some(m)
    ensures WellFormed(ClaimOne(b, m, now))
    ensures forall k :: k != m.key ==> Find(ClaimOne(b, m, now).pending, k) == Find(b.pending, k)
  {
    hide ClaimOne, Occurs, Find;
    forall k ensures Places(ClaimOne(b, m, now), k) <= 1 && (k != m.key ==> Find(ClaimOne(b, m, now).pending, k) == Find(b.pending, k)) {
      ClaimOneMoves(b, m, now, k);
      assert Places(b, k) <= 1;
    }
  }

  lemma {:induction false} ClaimAllMoves(b: Box, taken: seq<Message>, now: int, k: string)
    requires WellFormed(b) && OnceEach(taken)
    requires forall m :: m in taken ==> Find(b.pending, m.key) == Some(m)
    ensures MovesKey(b, ClaimAll(b, taken, now), k, if Find(taken, k).Some? then Claim(now) else Nothing)
    decreases |taken|
  {
    hide StatusOf, ContentOf, Places, Occurs, ClaimOne;
    if taken != [] {
      var m := taken[0];
      var c := ClaimOne(b, m, now);
      ClaimOneMoves(b, m, now, k);
      ClaimOneKeepsWellFormed(b, m, now);
      TailOnceEach(taken);
      ClaimAllMoves(c, taken[1..], now, k);
    }
  }

  // the same for reclaims

  ghost predicate LeasedOnce(ls: seq<Lease>) {
    forall k :: LeaseOccurs(ls, k) <= 1
  }

  lemma {:induction false} LeaseMemberOccurs(ls: seq<Lease>, l: Lease)
    requires l in ls
    ensures LeaseOccurs(ls, l.message.key) >= 1
    ensures LeaseOccurs(ls, l.message.key) <= 1 ==> FindLease(ls, l.message.key) == Some(l)
  {
    if ls[0] != l {
      LeaseMemberOccurs(ls[1..], l);
    } else if l in ls[1..] {
      LeaseMemberOccurs(ls[1..], l);
    }
  }

  lemma {:induction false} StaleSelects(ls: seq<Lease>, olderThan: int)
    ensures forall k :: LeaseOccurs(Stale(ls, olderThan), k) <= LeaseOccurs(ls, k)
    ensures forall l :: l in Stale(ls, olderThan) <==> l in ls && l.at < olderThan
  {
    if ls != [] {
      StaleSelects(ls[1..], olderThan);
      var r := Stale(ls[1..], olderThan);
      if ls[0].at < olderThan {
        assert ([ls[0]] + r)[1..] == r;
      } else {
        assert [] + r == r;
      }
    }
  }

  lemma StaleAreLeased(b: Box, olderThan: int)
    requires WellFormed(b)
    ensures LeasedOnce(Stale(b.claimed, olderThan))
    ensures forall l :: l in Stale(b.claimed, olderThan) ==> FindLease(b.claimed, l.message.key) == Some(l)
  {
    StaleSelects(b.claimed, olderThan);
    forall k ensures LeaseOccurs(Stale(b.claimed, olderThan), k) <= 1 {
      assert Places(b, k) <= 1;
    }
    forall l | l in Stale(b.claimed, olderThan) ensures FindLease(b.claimed, l.message.key) == Some(l) {
      assert Places(b, l.message.key) <= 1;
      LeaseMemberOccurs(b.claimed, l);
    }
  }

  lemma TailLeasedOnce(ls: seq<Lease>)
    requires LeasedOnce(ls) && ls != []
    ensures LeasedOnce(ls[1..])
    ensures forall l :: l in ls[1..] ==> l.message.key != ls[0].message.key
    ensures FindLease(ls[1..], ls[0].message.key) == None
  {
    forall k ensures LeaseOccurs(ls[1..], k) <= 1 {
      assert LeaseOccurs(ls, k) <= 1;
    }
    assert LeaseOccurs(ls, ls[0].message.key) <= 1;
    LeaseFoundIffOccurs(ls[1..], ls[0].message.key);
    forall l | l in ls[1..] ensures l.message.key != ls[0].message.key {
      LeaseMemberOccurs(ls[1..], l);
    }
  }

  lemma ReclaimOneKeepsWellFormed(b: Box, l: Lease)
    requires WellFormed(b) && FindLease(b.claimed, l.message.key) == Some(l)
    ensures WellFormed(ReclaimOne(b, l))
    ensures forall k :: k != l.message.key ==> FindLease(ReclaimOne(b, l).claimed, k) == FindLease(b.claimed, k)
  {
    hide ReclaimOne, LeaseOccurs, FindLease;
    forall k ensures Places(ReclaimOne(b, l), k) <= 1 && (k != l.message.key ==> FindLease(ReclaimOne(b, l).claimed, k) == FindLease(b.claimed, k)) {
      ReclaimOneMoves(b, l, k);
      assert Places(b, k) <= 1;
    }
  }

  lemma {:induction false} ReclaimAllMoves(b: Box, stale: seq<Lease>, k: string)
    requires WellFormed(b) && LeasedOnce(stale)
    requires forall l :: l in stale ==> FindLease(b.claimed, l.message.key) == Some(l)
    ensures MovesKey(b, ReclaimAll(b, stale), k, if FindLease(stale, k).Some? then Reclaim else Nothing)
    decreases |stale|
  {
    hide StatusOf, ContentOf, Places, LeaseOccurs, ReclaimOne;
    if stale != [] {
      var l := stale[0];
      var c := ReclaimOne(b, l);
      ReclaimOneMoves(b, l, k);
      ReclaimOneKeepsWellFormed(b, l);
      TailLeasedOnce(stale);
      ReclaimAllMoves(c, stale[1..], k);
    }
  }

  // ------------------------------------------------------------------- refinement

  /** Every operation moves every key as the key's life says, and loses or duplicates none. */
  lemma EveryKeyMoves(b: Box, op: Op, k: string)
    requires WellFormed(b)
    ensures Possible(StatusOf(b, k), EventOf(b, op, k))
    ensures MovesKey(b, Apply(b, op), k, EventOf(b, op, k))
    ensures ContentOf(Apply(b, op), k) == ContentAfter(ContentOf(b, k), op, k)
  {
    hide StatusOf, ContentOf, Places, Occurs, LeaseOccurs;
    match op
    case OpEnqueue(m) => EnqueueMoves(b, m, k);
    case OpClaim(limit, now) =>
      TakenAreDue(b, limit, now);
      ClaimAllMoves(b, Taken(b, limit, now), now, k);
      ClaimIsPossible(b, limit, now, k);
    case OpDelivered(key, _) => DeliveredMoves(b, key, k);
    case OpFailed(key, retryAt) => FailedMoves(b, key, retryAt, k);
    case OpDead(key) => DeadMoves(b, key, k);
    case OpReclaim(olderThan) =>
      StaleAreLeased(b, olderThan);
      ReclaimAllMoves(b, Stale(b.claimed, olderThan), k);
      ReclaimIsPossible(b, olderThan, k);
  }

  lemma ClaimIsPossible(b: Box, limit: nat, now: int, k: string)
    requires WellFormed(b)
    ensures Possible(StatusOf(b, k), EventOf(b, OpClaim(limit, now), k))
  {
    TakenAreDue(b, limit, now);
    FoundIffOccurs(Taken(b, limit, now), k);
  }

  lemma ReclaimIsPossible(b: Box, olderThan: int, k: string)
    requires WellFormed(b)
    ensures Possible(StatusOf(b, k), EventOf(b, OpReclaim(olderThan), k))
  {
    StaleAreLeased(b, olderThan);
    LeaseFoundIffOccurs(Stale(b.claimed, olderThan), k);
    LeaseFoundIffOccurs(b.claimed, k);
    InOnePlace(b, k);
    if FindLease(Stale(b.claimed, olderThan), k).Some? {
      var l := FindLease(Stale(b.claimed, olderThan), k).value;
      LeaseFound(Stale(b.claimed, olderThan), k);
      assert l in Stale(b.claimed, olderThan);
    }
  }

  lemma {:induction false} LeaseFound(ls: seq<Lease>, k: string)
    requires FindLease(ls, k).Some?
    ensures FindLease(ls, k).value in ls
  {
    if ls[0].message.key != k {
      LeaseFound(ls[1..], k);
    }
  }

  lemma StaysWellFormed(b: Box, op: Op)
    requires WellFormed(b)
    ensures WellFormed(Apply(b, op))
  {
    hide Apply, Places;
    forall k ensures Places(Apply(b, op), k) <= 1 {
      EveryKeyMoves(b, op, k);
      assert Places(b, k) <= 1;
    }
  }

  function Run(ops: seq<Op>): Box
    decreases |ops|
  {
    if ops == [] then EMPTY else Apply(Run(ops[..|ops| - 1]), ops[|ops| - 1])
  }

  /** What a run of operations on the empty outbox did to one key. */
  function HistoryOf(ops: seq<Op>, k: string): seq<Change>
    decreases |ops|
  {
    if ops == [] then []
    else
      var before, op := Run(ops[..|ops| - 1]), ops[|ops| - 1];
      HistoryOf(ops[..|ops| - 1], k) + [Change(StatusOf(before, k), EventOf(before, op, k), StatusOf(Run(ops), k))]
  }

  /** In every run of the in-memory outbox each key is in at most one of pending, claimed, delivered and
    * dead, is in exactly one once it was enqueued, and lives as `KeyLife` says. */
  lemma {:induction false} RunsAreHistories(ops: seq<Op>, k: string)
    ensures WellFormed(Run(ops))
    ensures IsHistory(InMemory, HistoryOf(ops, k)) && |HistoryOf(ops, k)| == |ops|
    ensures EndOf(HistoryOf(ops, k)) == StatusOf(Run(ops), k)
    ensures Places(Run(ops), k) == if exists i :: 0 <= i < |ops| && ops[i].OpEnqueue? && ops[i].m.key == k then 1 else 0
    decreases |ops|
  {
    if ops != [] {
      var init, op := ops[..|ops| - 1], ops[|ops| - 1];
      RunsAreHistories(init, k);
      EveryKeyMoves(Run(init), op, k);
      StaysWellFormed(Run(init), op);
      hide StatusOf, ContentOf, Places, Apply;
      var h := HistoryOf(init, k);
      assert HistoryOf(ops, k) == h + [Change(StatusOf(Run(init), k), EventOf(Run(init), op, k), StatusOf(Run(ops), k))];
      HistoryGrows(h, Change(StatusOf(Run(init), k), EventOf(Run(init), op, k), StatusOf(Run(ops), k)));
      EverEnqueued(ops, k);
    }
  }

  lemma HistoryGrows(h: seq<Change>, c: Change)
    requires IsHistory(InMemory, h) && c.before == EndOf(h)
    requires Possible(c.before, c.event) && c.after == MemNext(c.before, c.event)
    ensures IsHistory(InMemory, h + [c]) && EndOf(h + [c]) == c.after
  {
  }

  lemma EverEnqueued(ops: seq<Op>, k: string)
    requires ops != []
    ensures var init, op := ops[..|ops| - 1], ops[|ops| - 1];
            (exists i :: 0 <= i < |ops| && ops[i].OpEnqueue? && ops[i].m.key == k) <==>
            (exists i :: 0 <= i < |init| && init[i].OpEnqueue? && init[i].m.key == k) || (op.OpEnqueue? && op.m.key == k)
  {
    var init := ops[..|ops| - 1];
    if exists i :: 0 <= i < |ops| && ops[i].OpEnqueue? && ops[i].m.key == k {
      var i :| 0 <= i < |ops| && ops[i].OpEnqueue? && ops[i].m.key == k;
      assert i == |ops| - 1 || init[i] == ops[i];
    }
    if exists i :: 0 <= i < |init| && init[i].OpEnqueue? && init[i].m.key == k {
      var i :| 0 <= i < |init| && init[i].OpEnqueue? && init[i].m.key == k;
      assert ops[i] == init[i];
    }
  }

  /** `ops[i]` is the first enqueue of the key. */
  ghost predicate FirstEnqueue(ops: seq<Op>, k: string, i: nat) {
    && i < |ops| && ops[i].OpEnqueue? && ops[i].m.key == k
    && (forall j :: 0 <= j < i ==> !(ops[j].OpEnqueue? && ops[j].m.key == k))
  }

  /** In every run a key has the kind and the text of the enqueue that brought it in, and a relay that claims it gets
    * exactly those, however often it was claimed, failed and reclaimed before. */
  lemma {:induction false} RelaysGetWhatWasEnqueued(ops: seq<Op>, k: string, i: nat, limit: nat, now: int)
    requires FirstEnqueue(ops, k, i)
    ensures ContentOf(Run(ops), k) == Some(Content(ops[i].m.kind, ops[i].m.body))
    ensures forall m :: m in Taken(Run(ops), limit, now) && m.key == k ==> m.kind == ops[i].m.kind && m.body == ops[i].m.body
  {
    RunsAreHistories(ops, k);
    ContentOfRun(ops, k, i);
    TakenAreHeld(Run(ops), limit, now);
  }

  lemma {:induction false} ContentOfRun(ops: seq<Op>, k: string, i: nat)
    requires forall j :: 0 <= j < i && j < |ops| ==> !(ops[j].OpEnqueue? && ops[j].m.key == k)
    requires i < |ops| ==> ops[i].OpEnqueue? && ops[i].m.key == k
    ensures ContentOf(Run(ops), k) == if i < |ops| then Some(Content(ops[i].m.kind, ops[i].m.body)) else None
    decreases |ops|
  {
    hide ContentOf, Apply;
    if ops == [] {
      NothingHeld(k);
    } else {
      var n := |ops| - 1;
      RunsAreHistories(ops[..n], k);
      EveryKeyMoves(Run(ops[..n]), ops[n], k);
      ContentOfRun(ops[..n], k, i);
    }
  }

  lemma NothingHeld(k: string)
    ensures ContentOf(EMPTY, k) == None
  {
  }

  /** A claimed message is the one its key has. */
  lemma TakenAreHeld(b: Box, limit: nat, now: int)
    requires WellFormed(b)
    ensures forall m :: m in Taken(b, limit, now) ==> ContentOf(b, m.key) == Some(Content(m.kind, m.body))
  {
    hide Taken, Find;
    TakenAreDue(b, limit, now);
  }

  /** Lease accounting for the in-memory outbox under any sequence of operations by any relays. */
  lemma MemoryLeasesAreAccountedFor(ops: seq<Op>, k: string)
    ensures var h := HistoryOf(ops, k);
            Count(h, IsClaim) + (if StatusOf(Run(ops), k).Pending? then 1 else 0) <= 1 + Count(h, IsFail) + Count(h, IsReclaim)
  {
    RunsAreHistories(ops, k);
    LeasesAreAccountedFor(InMemory, HistoryOf(ops, k));
  }

  // ------------------------------------------------------------------- the class

  /** `list.remove`: drop the first equal element. */
  function RemoveFirst(ms: seq<Message>, m: Message): seq<Message> {
    if ms == [] then [] else if ms[0] == m then ms[1..] else [ms[0]] + RemoveFirst(ms[1..], m)
  }

  lemma {:induction false} NothingToRemove(ms: seq<Message>, k: string)
    requires Occurs(ms, k) == 0
    ensures Without(ms, k) == ms
  {
    if ms != [] {
      NothingToRemove(ms[1..], k);
    }
  }

  lemma {:induction false} RemoveFirstIsWithout(ms: seq<Message>, m: Message)
    requires m in ms && Occurs(ms, m.key) <= 1
    ensures RemoveFirst(ms, m) == Without(ms, m.key)
  {
    if ms[0] == m {
      NothingToRemove(ms[1..], m.key);
      assert [] + Without(ms[1..], m.key) == ms[1..];
    } else {
      MemberOccurs(ms[1..], m);
      RemoveFirstIsWithout(ms[1..], m);
    }
  }

  lemma {:induction false} ClaimAllStep(b: Box, taken: seq<Message>, i: nat, now: int)
    requires i < |taken|
    ensures ClaimAll(b, taken[..i + 1], now) == ClaimOne(ClaimAll(b, taken[..i], now), taken[i], now)
    decreases i
  {
    if i == 0 {
      assert taken[..1] == [taken[0]] && taken[..0] == [];
      assert [taken[0]][1..] == [];
    } else {
      assert taken[..i + 1][1..] == taken[1..][..i] && taken[..i][1..] == taken[1..][..i - 1];
      ClaimAllStep(ClaimOne(b, taken[0], now), taken[1..], i - 1, now);
    }
  }

  lemma {:induction false} ReclaimAllStep(b: Box, stale: seq<Lease>, i: nat)
    requires i < |stale|
    ensures ReclaimAll(b, stale[..i + 1]) == ReclaimOne(ReclaimAll(b, stale[..i]), stale[i])
    decreases i
  {
    if i == 0 {
      assert stale[..1] == [stale[0]] && stale[..0] == [];
      assert [stale[0]][1..] == [];
    } else {
      assert stale[..i + 1][1..] == stale[1..][..i] && stale[..i][1..] == stale[1..][..i - 1];
      ReclaimAllStep(ReclaimOne(b, stale[0]), stale[1..], i - 1);
    }
  }

  /** While a batch is being moved, its later messages are still pending, once. */
  lemma {:induction false} LaterStillPending(b: Box, taken: seq<Message>, i: nat, now: int)
    requires WellFormed(b) && OnceEach(taken) && i < |taken|
    requires forall m :: m in taken ==> Find(b.pending, m.key) == Some(m)
    ensures WellFormed(ClaimAll(b, taken[..i], now))
    ensures Find(ClaimAll(b, taken[..i], now).pending, taken[i].key) == Some(taken[i])
    decreases i
  {
    if i > 0 {
      var c := ClaimOne(b, taken[0], now);
      assert taken[0] in taken;
      ClaimOneKeepsWellFormed(b, taken[0], now);
      TailOnceEach(taken);
      assert taken[..i][1..] == taken[1..][..i - 1];
      LaterStillPending(c, taken[1..], i - 1, now);
    } else {
      assert taken[..0] == [];
    }
  }

  /** Every key at once. */
  lemma AllKeysMove(b: Box, op: Op)
    requires WellFormed(b)
    ensures forall k :: StatusOf(Apply(b, op), k) == MemNext(StatusOf(b, k), EventOf(b, op, k))
    ensures forall k :: ContentOf(Apply(b, op), k) == ContentAfter(ContentOf(b, k), op, k)
  {
    hide StatusOf, ContentOf, Apply, MemNext, EventOf;
    forall k
      ensures StatusOf(Apply(b, op), k) == MemNext(StatusOf(b, k), EventOf(b, op, k))
      ensures ContentOf(Apply(b, op), k) == ContentAfter(ContentOf(b, k), op, k)
    {
      EveryKeyMoves(b, op, k);
    }
  }

  ghost predicate InBatch(taken: seq<Message>, k: string) {
    exists m :: m in taken && m.key == k
  }

  /** What the claim leaves of a key: leased if it is in the batch. */
  lemma ClaimedStatuses(b: Box, limit: nat, now: int)
    requires WellFormed(b)
    ensures forall k :: (
      MemNext(StatusOf(b, k), EventOf(b, OpClaim(limit, now), k))
      == if InBatch(Taken(b, limit, now), k) then LeasedAt(StatusOf(b, k), now) else StatusOf(b, k))
    ensures forall m :: m in Taken(b, limit, now) ==> StatusOf(b, m.key) == Pending(m.attempts, m.availableAt)
  {
    hide Taken;
    TakenAreDue(b, limit, now);
    forall k ensures EventOf(b, OpClaim(limit, now), k) == if InBatch(Taken(b, limit, now), k) then Claim(now) else Nothing {
      FoundIffOccurs(Taken(b, limit, now), k);
      if m :| m in Taken(b, limit, now) && m.key == k {
        MemberOccurs(Taken(b, limit, now), m);
      }
    }
  }

  /** What a reclaim leaves of a key: leases from before the cut-off are pending again. */
  lemma ReclaimedStatuses(b: Box, olderThan: int)
    requires WellFormed(b)
    ensures forall k :: MemNext(StatusOf(b, k), EventOf(b, OpReclaim(olderThan), k)) == Reclaimed(StatusOf(b, k), olderThan)
  {
    hide Stale, StatusOf;
    forall k ensures MemNext(StatusOf(b, k), EventOf(b, OpReclaim(olderThan), k)) == Reclaimed(StatusOf(b, k), olderThan) {
      StaleKey(b, olderThan, k);
    }
  }

  lemma StaleKey(b: Box, olderThan: int, k: string)
    requires WellFormed(b)
    ensures FindLease(Stale(b.claimed, olderThan), k).Some? <==> StatusOf(b, k).Claimed? && StatusOf(b, k).at < olderThan
  {
    StaleSelects(b.claimed, olderThan);
    StaleAreLeased(b, olderThan);
    InOnePlace(b, k);
    hide Stale, Places, WellFormed;
    var stale := Stale(b.claimed, olderThan);
    LeaseFoundIffOccurs(stale, k);
    LeaseFoundIffOccurs(b.claimed, k);
    if FindLease(stale, k).Some? {
      LeaseFound(stale, k);
    }
    if FindLease(b.claimed, k).Some? && FindLease(b.claimed, k).value.at < olderThan {
      LeaseFound(b.claimed, k);
      LeaseMemberOccurs(stale, FindLease(b.claimed, k).value);
    }
  }

  /** The batch is oldest first and as large as it may be: in the order of the list, nothing due is left in front of a
    * message that was taken, and nothing due is left at all while there is room. */
  ghost predicate OldestDue(pending: seq<Message>, taken: seq<Message>, limit: nat, now: int) {
    && |taken| <= limit
    && (forall m :: m in taken ==> m in pending && Due(m, now))
    && (|taken| < limit ==> forall m :: m in pending && Due(m, now) ==> m in taken)
    && (forall i, j :: 0 <= i < j < |pending| && Due(pending[i], now) && pending[j] in taken ==> pending[i] in taken)
    && IsSublist(taken, pending)
  }

  /** `a` is `b` with some elements left out. */
  predicate IsSublist<T(==)>(a: seq<T>, b: seq<T>) {
    a == [] || (b != [] && ((a[0] == b[0] && IsSublist(a[1..], b[1..])) || IsSublist(a, b[1..])))
  }

  lemma {:induction false} ReadyIsSublist(ms: seq<Message>, now: int, n: nat)
    requires n <= |Ready(ms, now)|
    ensures IsSublist(Ready(ms, now)[..n], ms)
  {
    hide Due;
    if ms != [] && n > 0 {
      var rest := Ready(ms[1..], now);
      if Due(ms[0], now) {
        assert Ready(ms, now) == [ms[0]] + rest;
        ReadyIsSublist(ms[1..], now, n - 1);
        assert Ready(ms, now)[..n][1..] == rest[..n - 1];
      } else {
        assert Ready(ms, now) == [] + rest == rest;
        ReadyIsSublist(ms[1..], now, n);
      }
    }
  }

  lemma {:induction false} ReadyInOrder(ms: seq<Message>, now: int, n: nat)
    requires n <= |Ready(ms, now)| && OnceEach(ms)
    ensures forall i, j :: 0 <= i < j < |ms| && Due(ms[i], now) && ms[j] in Ready(ms, now)[..n] ==> ms[i] in Ready(ms, now)[..n]
  {
    if ms != [] {
      var rest := Ready(ms[1..], now);
      TailOnceEach(ms);
      ReadySelects(ms[1..], now);
      assert forall i :: 0 < i < |ms| ==> ms[i] == ms[1..][i - 1];
      if Due(ms[0], now) {
        assert Ready(ms, now) == [ms[0]] + rest;
        if n > 0 {
          ReadyInOrder(ms[1..], now, n - 1);
          assert Ready(ms, now)[..n] == [ms[0]] + rest[..n - 1];
        }
      } else {
        assert Ready(ms, now) == [] + rest == rest;
        ReadyInOrder(ms[1..], now, n);
      }
    }
  }

  lemma TakenAreOldest(b: Box, limit: nat, now: int)
    requires WellFormed(b)
    ensures OldestDue(b.pending, Taken(b, limit, now), limit, now)
  {
    hide Places;
    var ms, ready, taken := b.pending, Ready(b.pending, now), Taken(b, limit, now);
    forall k ensures Occurs(ms, k) <= 1 {
      PendingOccursOnce(b, k);
    }
    ReadySelects(ms, now);
    var n := if |ready| <= limit then |ready| else limit;
    assert taken == ready[..n];
    ReadyInOrder(ms, now, n);
    ReadyIsSublist(ms, now, n);
  }

  lemma PendingOccursOnce(b: Box, k: string)
    requires WellFormed(b)
    ensures Occurs(b.pending, k) <= 1
  {
    assert Places(b, k) <= 1;
  }

  class InMemoryOutbox {
    var pending: seq<Message>
    var claimed: seq<Lease>
    var delivered: seq<Message>
    var dead: seq<Message>
    var failed: seq<(string, string)>

    ghost function View(): Box
      reads this
    {
      Box(pending, claimed, delivered, dead)
    }

    ghost predicate Valid()
      reads this
    {
      WellFormed(View())
    }

    constructor ()
      ensures Valid() && View() == EMPTY && failed == []
    {
      pending, claimed, delivered, dead, failed := [], [], [], [], [];
    }

    method Enqueue(message: Message)
      requires Valid()
      modifies this
      ensures Valid() && View() == Apply(old(View()), OpEnqueue(message)) && failed == old(failed)
      ensures forall k :: (
        StatusOf(View(), k) == if k == message.key && StatusOf(old(View()), k).Absent? then Pending(message.attempts, message.availableAt)
                               else StatusOf(old(View()), k))
      ensures forall k :: (
        ContentOf(View(), k) == if k == message.key && ContentOf(old(View()), k).None? then Some(Content(message.kind, message.body))
                                else ContentOf(old(View()), k))
    {
      AllKeysMove(View(), OpEnqueue(message));
      StaysWellFormed(View(), OpEnqueue(message));
      if Known(Box(pending, claimed, delivered, dead), message.key) {
        return;
      }
      pending := pending + [message];
    }

    method ClaimBatch(limit: nat, now: int) returns (taken: seq<Message>)
      requires Valid()
      modifies this
      ensures Valid() && View() == Apply(old(View()), OpClaim(limit, now)) && failed == old(failed)
      ensures taken == Taken(old(View()), limit, now) && OldestDue(old(pending), taken, limit, now)
      ensures forall m :: m in taken ==> m.availableAt.None? || m.availableAt.value <= now
      ensures |taken| < limit ==> forall m :: m in old(pending) && (m.availableAt.None? || m.availableAt.value <= now) ==> m in taken
      ensures forall m :: m in taken ==>
                StatusOf(old(View()), m.key) == Pending(m.attempts, m.availableAt)
                && ContentOf(old(View()), m.key) == Some(Content(m.kind, m.body))
      ensures forall k :: (
        StatusOf(View(), k) == if InBatch(taken, k) then LeasedAt(StatusOf(old(View()), k), now) else StatusOf(old(View()), k))
      ensures forall k :: ContentOf(View(), k) == ContentOf(old(View()), k)
    {
      ghost var start := View();
      AllKeysMove(start, OpClaim(limit, now));
      ClaimedStatuses(start, limit, now);
      TakenAreHeld(start, limit, now);
      TakenAreOldest(start, limit, now);
      StaysWellFormed(start, OpClaim(limit, now));
      TakenAreDue(start, limit, now);
      taken := First(Ready(pending, now), limit);
      hide WellFormed, ClaimAll, Find, Occurs, Taken;
      EmptyBatch(start, taken, now);
      for i := 0 to |taken|
        invariant View() == ClaimAll(start, taken[..i], now)
        invariant failed == old(failed)
      {
        var message := taken[i];
        LaterStillPending(start, taken, i, now);
        PendingOnce(View(), message);
        RemoveFirstIsWithout(pending, message);
        pending := RemoveFirst(pending, message);
        claimed := claimed + [Lease(message, now)];
        ClaimAllStep(start, taken, i, now);
      }
      assert taken[..|taken|] == taken;
    }

    method MarkDelivered(key: string)
      requires Valid()
      modifies this
      ensures Valid() && (forall at :: View() == Apply(old(View()), OpDelivered(key, at))) && failed == old(failed)
      ensures forall k :: (
        StatusOf(View(), k) == if k == key && Live(StatusOf(old(View()), k)) then Delivered(StatusOf(old(View()), k).attempts)
                               else StatusOf(old(View()), k))
      ensures forall k :: ContentOf(View(), k) == ContentOf(old(View()), k)
    {
      AllKeysMove(View(), OpDelivered(key, 0));
      StaysWellFormed(View(), OpDelivered(key, 0));
      var lease := FindLease(claimed, key);
      if lease.Some? {
        claimed := WithoutLease(claimed, key);
        delivered := delivered + [lease.value.message];
        return;
      }
      assert Places(View(), key) <= 1;
      pending, delivered := SweepOut(pending, delivered, key);
    }

    method MarkFailed(key: string, error: string, retryAt: int)
      requires Valid()
      modifies this
      ensures Valid() && View() == Apply(old(View()), OpFailed(key, retryAt))
      ensures failed == old(failed) + [(key, error)]
      ensures forall k :: (
        StatusOf(View(), k) == if k == key && Live(StatusOf(old(View()), k)) then Retried(StatusOf(old(View()), k).attempts, retryAt)
                               else StatusOf(old(View()), k))
      ensures forall k :: ContentOf(View(), k) == ContentOf(old(View()), k)
    {
      AllKeysMove(View(), OpFailed(key, retryAt));
      StaysWellFormed(View(), OpFailed(key, retryAt));
      failed := failed + [(key, error)];
      var lease := FindLease(claimed, key);
      var message;
      if lease.Some? {
        claimed := WithoutLease(claimed, key);
        message := lease.value.message;
      } else {
        var waiting := Find(pending, key);
        if waiting.None? {
          return;
        }
        message := waiting.value;
        FoundIffOccurs(pending, key);
        assert Places(View(), key) <= 1;
        RemoveFirstIsWithout(pending, message);
        pending := RemoveFirst(pending, message);
      }
      var retried := message.(availableAt := Some(retryAt), attempts := message.attempts + 1);
      if retried.attempts >= MAX_ATTEMPTS {
        dead := dead + [retried];
      } else {
        pending := pending + [retried];
      }
    }

    method MarkDead(key: string, error: string)
      requires Valid()
      modifies this
      ensures Valid() && View() == Apply(old(View()), OpDead(key))
      ensures failed == old(failed) + [(key, error)]
      ensures forall k :: (
        StatusOf(View(), k) == if k == key && Live(StatusOf(old(View()), k)) then Dead(StatusOf(old(View()), k).attempts)
                               else StatusOf(old(View()), k))
      ensures forall k :: ContentOf(View(), k) == ContentOf(old(View()), k)
    {
      AllKeysMove(View(), OpDead(key));
      StaysWellFormed(View(), OpDead(key));
      failed := failed + [(key, error)];
      var lease := FindLease(claimed, key);
      if lease.Some? {
        claimed := WithoutLease(claimed, key);
        dead := dead + [lease.value.message];
        return;
      }
      assert Places(View(), key) <= 1;
      pending, dead := SweepOut(pending, dead, key);
    }

    method ReclaimStale(olderThan: int) returns (count: nat)
      requires Valid()
      modifies this
      ensures Valid() && View() == Apply(old(View()), OpReclaim(olderThan)) && failed == old(failed)
      ensures count == |Stale(old(claimed), olderThan)|
      ensures forall k :: StatusOf(View(), k) == Reclaimed(StatusOf(old(View()), k), olderThan)
      ensures forall k :: ContentOf(View(), k) == ContentOf(old(View()), k)
    {
      ghost var start := View();
      AllKeysMove(start, OpReclaim(olderThan));
      ReclaimedStatuses(start, olderThan);
      StaysWellFormed(start, OpReclaim(olderThan));
      var stale := Stale(claimed, olderThan);
      hide WellFormed, ReclaimAll;
      NothingStale(start, stale);
      for i := 0 to |stale|
        invariant View() == ReclaimAll(start, stale[..i])
        invariant failed == old(failed)
      {
        claimed := WithoutLease(claimed, stale[i].message.key);
        pending := pending + [stale[i].message];
        ReclaimAllStep(start, stale, i);
      }
      assert stale[..|stale|] == stale;
      return |stale|;
    }
  }

  lemma EmptyBatch(b: Box, taken: seq<Message>, now: int)
    ensures ClaimAll(b, taken[..0], now) == b
  {
  }

  lemma NothingStale(b: Box, stale: seq<Lease>)
    ensures ReclaimAll(b, stale[..0]) == b
  {
  }

  lemma PendingOnce(b: Box, m: Message)
    requires WellFormed(b) && Find(b.pending, m.key) == Some(m)
    ensures m in b.pending && Occurs(b.pending, m.key) <= 1
  {
    FoundIffOccurs(b.pending, m.key);
    assert Places(b, m.key) <= 1;
  }

  /** The loop over a copy of the pending list that moves every message with `key` to another list. */
  method SweepOut(pending: seq<Message>, target: seq<Message>, key: string) returns (kept: seq<Message>, moved: seq<Message>)
    requires Occurs(pending, key) <= 1
    ensures kept == Without(pending, key) && moved == target + Matching(pending, key)
  {
    hide Occurs, Without, Matching, Find;
    kept, moved := pending, target;
    NoMessages(key);
    assert pending[..0] == [];
    MatchedOnce(pending, key);
    FoundIffOccurs(pending, key);
    if Occurs(pending, key) == 0 {
      NothingToRemove(pending, key);
    }
    for i := 0 to |pending|
      invariant Occurs(pending[..i], key) == 0 ==> kept == pending && moved == target
      invariant Occurs(pending[..i], key) > 0 ==> kept == Without(pending, key) && moved == target + Matching(pending, key)
    {
      assert pending[..i + 1] == pending[..i] + [pending[i]];
      Appended(pending[..i], [pending[i]], key);
      Single(pending[i], key);
      if pending[i].key == key {
        OccursInPrefix(pending, i + 1, key);
        MemberOccurs(pending, pending[i]);
        RemoveFirstIsWithout(pending, pending[i]);
        kept := RemoveFirst(kept, pending[i]);
        moved := moved + [pending[i]];
      }
    }
    assert pending[..|pending|] == pending;
    assert target + [] == target;
  }

  lemma OccursInPrefix(ms: seq<Message>, n: nat, key: string)
    requires n <= |ms|
    ensures Occurs(ms[..n], key) <= Occurs(ms, key)
  {
    assert ms == ms[..n] + ms[n..];
    Appended(ms[..n], ms[n..], key);
  }
}

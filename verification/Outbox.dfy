/** The outbox: what each operation does to one key, and the two stores that implement it.
  *
  * `KeyLife` is the life of a single dedup key as a state machine over events. `InMemoryOutbox` and
  * `PostgresOutbox` are proved to move every key as `KeyLife` says, so the theorems about leases and
  * attempts hold for both.
  */
module KeyLife {
  import opened Wrappers

  const MAX_ATTEMPTS := 5

  datatype Status =
    | Absent
    | Pending(attempts: nat, availableAt: Option<int>)
    | Claimed(attempts: nat, availableAt: Option<int>, at: int)
    | Delivered(attempts: nat)
    | Dead(attempts: nat)

  /** What one store operation means for one key. */
  datatype Event = Nothing | Enqueue(attempts: nat, availableAt: Option<int>) | Claim(now: int)
                 | Deliver | Fail(retryAt: int) | Kill | Reclaim

  predicate Terminal(s: Status) {
    s.Delivered? || s.Dead?
  }

  predicate Live(s: Status) {
    s.Pending? || s.Claimed?
  }

  function Retried(attempts: nat, retryAt: int): Status {
    if attempts + 1 >= MAX_ATTEMPTS then Dead(attempts + 1) else Pending(attempts + 1, Some(retryAt))
  }

  /** A pending key is leased. */
  function LeasedAt(s: Status, now: int): Status {
    if s.Pending? then Claimed(s.attempts, s.availableAt, now) else s
  }

  /** A lease from before the cut-off is pending again. */
  function Reclaimed(s: Status, olderThan: int): Status {
    if s.Claimed? && s.at < olderThan then Pending(s.attempts, s.availableAt) else s
  }

  /** The in-memory store: verdicts on delivered and dead keys are ignored. */
  function MemNext(s: Status, e: Event): Status {
    match e
    case Nothing => s
    case Enqueue(attempts, availableAt) => if s.Absent? then Pending(attempts, availableAt) else s
    case Claim(now) => if s.Pending? then Claimed(s.attempts, s.availableAt, now) else s
    case Deliver => if Live(s) then Delivered(s.attempts) else s
    case Fail(retryAt) => if Live(s) then Retried(s.attempts, retryAt) else s
    case Kill => if Live(s) then Dead(s.attempts) else s
    case Reclaim => if s.Claimed? then Pending(s.attempts, s.availableAt) else s
  }

  /** The SQL store: the three verdicts are updates by key with no guard on the status. */
  function SqlNext(s: Status, e: Event): Status {
    match e
    case Enqueue(_, availableAt) => if s.Absent? then Pending(0, availableAt) else s
    case Deliver => if s.Absent? then s else Delivered(s.attempts)
    case Fail(retryAt) => if s.Absent? then s else Retried(s.attempts, retryAt)
    case Kill => if s.Absent? then s else Dead(s.attempts)
    case _ => MemNext(s, e)
  }

  /** The two stores treat the event differently in this status. */
  predicate Differs(s: Status, e: Event) {
    || (s.Dead? && e.Deliver?) || (s.Delivered? && e.Kill?) || (Terminal(s) && e.Fail?)
    || (s.Absent? && e.Enqueue? && e.attempts != 0)
  }

  /** The stores treat a key alike unless a late verdict hits a terminal key or a message is enqueued
    * with attempts already counted. */
  lemma StoresDifferExactly(s: Status, e: Event)
    ensures MemNext(s, e) != SqlNext(s, e) <==> Differs(s, e)
  {
  }

  /** Claims take pending rows that are due; reclaims take leased ones. */
  predicate Possible(s: Status, e: Event) {
    && (e.Claim? ==> s.Pending? && (s.availableAt.Some? ==> s.availableAt.value <= e.now))
    && (e.Reclaim? ==> s.Claimed?)
  }

  datatype Backend = InMemory | Postgres

  function Next(b: Backend, s: Status, e: Event): Status {
    match b
    case InMemory => MemNext(s, e)
    case Postgres => SqlNext(s, e)
  }

  // ------------------------------------------------------------------- histories

  datatype Change = Change(before: Status, event: Event, after: Status)

  /** A key's history: one change per operation, each starting where the last one ended. */
  ghost predicate IsHistory(b: Backend, h: seq<Change>) {
    && (forall i :: 0 <= i < |h| ==> Possible(h[i].before, h[i].event) && h[i].after == Next(b, h[i].before, h[i].event))
    && (forall i :: 0 < i < |h| ==> h[i].before == h[i - 1].after)
    && (h != [] ==> h[0].before.Absent?)
  }

  lemma HistoryPrefix(b: Backend, h: seq<Change>)
    requires IsHistory(b, h) && |h| >= 2
    ensures IsHistory(b, h[..|h| - 1])
    ensures h[..|h| - 1][|h| - 2].after == h[|h| - 1].before
  {
  }

  /** One more change that starts where the history ends. */
  lemma HistoryGrowsBy(b: Backend, h: seq<Change>, c: Change)
    requires IsHistory(b, h) && c.before == EndOf(h) && Possible(c.before, c.event) && c.after == Next(b, c.before, c.event)
    ensures IsHistory(b, h + [c]) && EndOf(h + [c]) == c.after
    ensures FreshEnqueues(h) && (c.event.Enqueue? ==> c.event.attempts == 0) ==> FreshEnqueues(h + [c])
  {
    hide Possible, Next;
    var g := h + [c];
    assert forall i :: 0 <= i < |h| ==> g[i] == h[i];
  }

  function Count(h: seq<Change>, p: Event -> bool): nat {
    if h == [] then 0 else Count(h[..|h| - 1], p) + if p(h[|h| - 1].event) then 1 else 0
  }

  const IsClaim := (e: Event) => e.Claim?
  const IsFail := (e: Event) => e.Fail?
  const IsReclaim := (e: Event) => e.Reclaim?

  function EndOf(h: seq<Change>): Status {
    if h == [] then Absent else h[|h| - 1].after
  }

  /** Lease accounting, on either store and for any number of relays: claims, plus one while the key is
    * pending, never exceed one plus failures plus reclaims. */
  lemma {:induction false} LeasesAreAccountedFor(b: Backend, h: seq<Change>)
    requires IsHistory(b, h)
    ensures Count(h, IsClaim) + (if EndOf(h).Pending? then 1 else 0) <=
            (if EndOf(h).Absent? then 0 else 1) + Count(h, IsFail) + Count(h, IsReclaim)
  {
    if h != [] {
      var init, last := h[..|h| - 1], h[|h| - 1];
      if init != [] {
        HistoryPrefix(b, h);
      }
      LeasesAreAccountedFor(b, init);
    }
  }

  /** A key claimed twice was failed or reclaimed in between: two relays never hold one row at once. */
  lemma SecondLeaseNeedsAReturn(b: Backend, h: seq<Change>, i: nat, j: nat)
    requires IsHistory(b, h) && i < j < |h| && h[i].event.Claim? && h[j].event.Claim?
    ensures exists m :: i < m < j && (h[m].event.Fail? || h[m].event.Reclaim?)
  {
    if forall m :: i < m < j ==> !h[m].event.Fail? && !h[m].event.Reclaim? {
      NotPendingUntilReturned(b, h, i, j);
    }
  }

  lemma {:induction false} NotPendingUntilReturned(b: Backend, h: seq<Change>, i: nat, j: nat)
    requires IsHistory(b, h) && i < j < |h| && h[i].event.Claim?
    requires forall m :: i < m < j ==> !h[m].event.Fail? && !h[m].event.Reclaim?
    ensures !h[j].before.Pending? && !h[j].before.Absent?
    decreases j
  {
    assert h[j].before == h[j - 1].after;
    if j - 1 > i {
      NotPendingUntilReturned(b, h, i, j - 1);
    }
  }

  /** A key that failed is not leased again before its retry time, on either store, whatever reclaims come in between. */
  lemma RetriesWait(b: Backend, h: seq<Change>, i: nat, j: nat)
    requires IsHistory(b, h) && i < j < |h| && h[i].event.Fail? && h[i].after.Pending? && h[j].event.Claim?
    requires forall m :: i < m < j ==> !h[m].event.Fail?
    ensures h[j].event.now >= h[i].event.retryAt
  {
    WaitsFor(b, h, i, j);
  }

  lemma {:induction false} WaitsFor(b: Backend, h: seq<Change>, i: nat, j: nat)
    requires IsHistory(b, h) && i < j < |h| && h[i].event.Fail? && h[i].after.Pending?
    requires forall m :: i < m < j ==> !h[m].event.Fail?
    ensures h[j].before.Pending? || h[j].before.Claimed? ==> h[j].before.availableAt == Some(h[i].event.retryAt)
    ensures !h[j].before.Absent?
    decreases j
  {
    assert h[j].before == h[j - 1].after;
    if j - 1 > i {
      WaitsFor(b, h, i, j - 1);
    }
  }

  /** Verdicts come only from the relay that holds the lease. */
  ghost predicate HolderOnly(h: seq<Change>) {
    forall i :: 0 <= i < |h| && (h[i].event.Deliver? || h[i].event.Fail? || h[i].event.Kill?) ==> h[i].before.Claimed?
  }

  ghost predicate FreshEnqueues(h: seq<Change>) {
    forall i :: 0 <= i < |h| && h[i].event.Enqueue? ==> h[i].event.attempts == 0
  }

  /** A SQL history is an in-memory history exactly if no change in it is one the stores treat differently. */
  lemma HistoriesAgreeExactly(h: seq<Change>)
    requires IsHistory(Postgres, h)
    ensures IsHistory(InMemory, h) <==> forall i :: 0 <= i < |h| ==> !Differs(h[i].before, h[i].event)
  {
    hide MemNext, SqlNext, Possible, Differs;
    forall i | 0 <= i < |h|
      ensures h[i].after == Next(InMemory, h[i].before, h[i].event) <==> !Differs(h[i].before, h[i].event)
    {
      StoresDifferExactly(h[i].before, h[i].event);
    }
  }

  /** When verdicts come only from lease holders, a SQL history is an in-memory history. */
  lemma HolderOnlyHistoriesAgree(h: seq<Change>)
    requires IsHistory(Postgres, h) && HolderOnly(h) && FreshEnqueues(h)
    ensures IsHistory(InMemory, h)
  {
    forall i | 0 <= i < |h| ensures h[i].after == Next(InMemory, h[i].before, h[i].event) {
      StoresDifferExactly(h[i].before, h[i].event);
    }
  }

  /** Failures that found the key live. */
  function LiveFails(h: seq<Change>): nat {
    if h == [] then 0
    else LiveFails(h[..|h| - 1]) + if h[|h| - 1].event.Fail? && Live(h[|h| - 1].before) then 1 else 0
  }

  /** In memory the attempts counter is the number of failures so far and stays below five while the key
    * is live: at most five failures happen before a key is dead. */
  lemma {:induction false} AtMostFiveFailures(h: seq<Change>)
    requires IsHistory(InMemory, h) && FreshEnqueues(h)
    ensures Live(EndOf(h)) ==> EndOf(h).attempts == LiveFails(h) < MAX_ATTEMPTS
    ensures Terminal(EndOf(h)) ==> EndOf(h).attempts == LiveFails(h) <= MAX_ATTEMPTS
    ensures EndOf(h).Absent? ==> LiveFails(h) == 0
  {
    if h != [] {
      var init := h[..|h| - 1];
      if init != [] {
        HistoryPrefix(InMemory, h);
      }
      AtMostFiveFailures(init);
    }
  }

  /** In memory delivered and dead absorb. */
  lemma {:induction false} TerminalAbsorbs(h: seq<Change>, i: nat, j: nat)
    requires IsHistory(InMemory, h) && i <= j < |h| && Terminal(h[i].after)
    ensures h[j].after == h[i].after
    decreases j
  {
    if i < j {
      TerminalAbsorbs(h, i, j - 1);
      assert h[j].before == h[j - 1].after;
    }
  }

  /** On the SQL store they do not: a lease reclaimed from a slow relay, delivered by another, and then
    * failed by the first goes back to pending and will be sent again. */
  lemma LateFailureRevivesDelivered(t: int, retryAt: int)
    ensures var enqueued := Pending(0, None);
            var h := [Change(Absent, Enqueue(0, None), enqueued),
                      Change(enqueued, Claim(t), Claimed(0, None, t)),
                      Change(Claimed(0, None, t), Reclaim, enqueued),
                      Change(enqueued, Claim(t + 901), Claimed(0, None, t + 901)),
                      Change(Claimed(0, None, t + 901), Deliver, Delivered(0)),
                      Change(Delivered(0), Fail(retryAt), Pending(1, Some(retryAt)))];
            IsHistory(Postgres, h) && !IsHistory(InMemory, h)
  {
    assert MemNext(Delivered(0), Fail(retryAt)) != Pending(1, Some(retryAt));
    var h := [Change(Absent, Enqueue(0, None), Pending(0, None)),
              Change(Pending(0, None), Claim(t), Claimed(0, None, t)),
              Change(Claimed(0, None, t), Reclaim, Pending(0, None)),
              Change(Pending(0, None), Claim(t + 901), Claimed(0, None, t + 901)),
              Change(Claimed(0, None, t + 901), Deliver, Delivered(0)),
              Change(Delivered(0), Fail(retryAt), Pending(1, Some(retryAt)))];
    assert h[5].after != Next(InMemory, h[5].before, h[5].event);
  }
}

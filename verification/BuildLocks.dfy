/** Building the container's services once: two locks, nested, on one event loop. */
module BuildLocks {
  import opened Wrappers

  /** What a coroutine is building. */
  datatype Role = TurnBuilder | HandoffBuilder

  /** Where a coroutine is suspended. A handoff builder that waits for or builds the turn service holds the
    * handoff lock meanwhile. */
  datatype Pc = Fresh | WaitingHandoff | WaitingTurn | BuildingTurn | Done(result: nat) | Failed

  /** A lock that hands itself to its waiters first come first served. */
  datatype Lock = Lock(holder: Option<nat>, queue: seq<nat>) {
    predicate Free() {
      holder.None? && queue == []
    }

    predicate Next(i: nat) {
      holder.None? && queue != [] && queue[0] == i
    }
  }

  /** A handoff service and the turn service it was built over. */
  datatype Handoff = Handoff(id: nat, turn: nat)

  datatype State = State(roles: seq<Role>, pcs: seq<Pc>, turn: Option<nat>, handoff: Option<Handoff>,
                         turnLock: Lock, handoffLock: Lock, nextId: nat, turnStores: nat, handoffStores: nat)

  function Start(roles: seq<Role>): State {
    State(roles, seq(|roles|, _ => Fresh), None, None, Lock(None, []), Lock(None, []), 0, 0, 0)
  }

  /** The handoff builder, holding its lock, has the turn service: the rest runs without suspending and may raise. */
  function FinishHandoff(s: State, i: nat, turn: nat, ok: bool): State
    requires i < |s.pcs|
  {
    if ok then
      s.(handoffLock := s.handoffLock.(holder := None), handoff := Some(Handoff(s.nextId, turn)), nextId := s.nextId + 1,
         handoffStores := s.handoffStores + 1, pcs := s.pcs[i := Done(s.nextId)])
    else
      s.(handoffLock := s.handoffLock.(holder := None), pcs := s.pcs[i := Failed])
  }

  /** `build_turn_service` returns to whoever awaited it. */
  function AfterTurn(s: State, i: nat, turn: nat, ok: bool): State
    requires i < |s.pcs| == |s.roles|
  {
    if s.roles[i] == TurnBuilder then s.(pcs := s.pcs[i := Done(turn)]) else FinishHandoff(s, i, turn, ok)
  }

  /** `build_turn_service` up to its first suspension: the fast path, the lock if it is free, or the queue. */
  function EnterTurn(s: State, i: nat, ok: bool): State
    requires i < |s.pcs| == |s.roles|
  {
    if s.turn.Some? then AfterTurn(s, i, s.turn.value, ok)
    else if s.turnLock.Free() then s.(turnLock := Lock(Some(i), []), pcs := s.pcs[i := BuildingTurn])
    else s.(turnLock := s.turnLock.(queue := s.turnLock.queue + [i]), pcs := s.pcs[i := WaitingTurn])
  }

  /** A waiter is handed the turn lock and checks again inside it. */
  function GrantTurn(s: State, i: nat, ok: bool): State
    requires i < |s.pcs| == |s.roles| && s.turnLock.Next(i)
  {
    var t := s.(turnLock := Lock(None, s.turnLock.queue[1..]));
    if s.turn.Some? then AfterTurn(t, i, s.turn.value, ok)
    else t.(turnLock := t.turnLock.(holder := Some(i)), pcs := s.pcs[i := BuildingTurn])
  }

  function EnterHandoff(s: State, i: nat, ok: bool): State
    requires i < |s.pcs| == |s.roles|
  {
    if s.handoff.Some? then s.(pcs := s.pcs[i := Done(s.handoff.value.id)])
    else if s.handoffLock.Free() then EnterTurn(s.(handoffLock := Lock(Some(i), [])), i, ok)
    else s.(handoffLock := s.handoffLock.(queue := s.handoffLock.queue + [i]), pcs := s.pcs[i := WaitingHandoff])
  }

  function GrantHandoff(s: State, i: nat, ok: bool): State
    requires i < |s.pcs| == |s.roles| && s.handoffLock.Next(i)
  {
    var t := s.(handoffLock := Lock(None, s.handoffLock.queue[1..]));
    if s.handoff.Some? then t.(pcs := s.pcs[i := Done(s.handoff.value.id)])
    else EnterTurn(t.(handoffLock := t.handoffLock.(holder := Some(i))), i, ok)
  }

  /** The stores are there: the service is stored, the lock released. */
  function StoreTurn(s: State, i: nat, ok: bool): State
    requires i < |s.pcs| == |s.roles|
  {
    var t := s.(turn := Some(s.nextId), nextId := s.nextId + 1, turnStores := s.turnStores + 1,
                turnLock := s.turnLock.(holder := None));
    AfterTurn(t, i, s.nextId, ok)
  }

  function Drop(q: seq<nat>, i: nat): seq<nat> {
    if q == [] then [] else (if q[0] == i then [] else [q[0]]) + Drop(q[1..], i)
  }

  /** An exception or a cancellation at the point of suspension: waiters leave the queue, holders release. */
  function Abort(s: State, i: nat): State
    requires i < |s.pcs| == |s.roles|
  {
    var holds := s.roles[i] == HandoffBuilder && (s.pcs[i] == WaitingTurn || s.pcs[i] == BuildingTurn);
    s.(pcs := s.pcs[i := Failed],
       turnLock := Lock(if s.pcs[i] == BuildingTurn then None else s.turnLock.holder, Drop(s.turnLock.queue, i)),
       handoffLock := Lock(if holds then None else s.handoffLock.holder, Drop(s.handoffLock.queue, i)))
  }

  /** One resumption of coroutine `i`, up to its next suspension; `ok` says whether a handoff finished in it succeeds. */
  datatype Step = Resume(i: nat, ok: bool) | Raise(i: nat)

  predicate Finished(pc: Pc) {
    pc.Done? || pc.Failed?
  }

  /** The event loop can run `i` now. */
  predicate Ready(s: State, i: nat)
    requires i < |s.pcs|
  {
    match s.pcs[i]
    case Fresh => true
    case BuildingTurn => true
    case WaitingTurn => s.turnLock.Next(i)
    case WaitingHandoff => s.handoffLock.Next(i)
    case _ => false
  }

  predicate Enabled(s: State, step: Step) {
    match step
    case Resume(i, _) => i < |s.pcs| == |s.roles| && Ready(s, i)
    case Raise(i) => i < |s.pcs| == |s.roles| && !Finished(s.pcs[i])
  }

  function Apply(s: State, step: Step): State
    requires Enabled(s, step)
  {
    match step
    case Raise(i) => Abort(s, i)
    case Resume(i, ok) =>
      match s.pcs[i]
      case Fresh => if s.roles[i] == TurnBuilder then EnterTurn(s, i, ok) else EnterHandoff(s, i, ok)
      case WaitingTurn => GrantTurn(s, i, ok)
      case WaitingHandoff => GrantHandoff(s, i, ok)
      case _ => StoreTurn(s, i, ok)
  }

  // -------------------------------------------------------------- invariant

  ghost predicate DistinctQueue(q: seq<nat>) {
    forall a, b :: 0 <= a < b < |q| ==> q[a] != q[b]
  }

  predicate HoldsHandoff(role: Role, pc: Pc) {
    role == HandoffBuilder && (pc == WaitingTurn || pc == BuildingTurn)
  }

  /** What the locks and the stored services say about one coroutine. */
  ghost predicate PcOk(i: nat, role: Role, pc: Pc, turnLock: Lock, handoffLock: Lock, turn: Option<nat>, handoff: Option<Handoff>) {
    && (turnLock.holder == Some(i) <==> pc == BuildingTurn)
    && (handoffLock.holder == Some(i) <==> HoldsHandoff(role, pc))
    && (i in turnLock.queue <==> pc == WaitingTurn)
    && (i in handoffLock.queue <==> pc == WaitingHandoff)
    && (pc == WaitingHandoff ==> role == HandoffBuilder)
    && (pc.Done? ==> if role == TurnBuilder then turn == Some(pc.result) else handoff.Some? && handoff.value.id == pc.result)
  }

  ghost predicate LockOk(l: Lock, n: nat) {
    && (l.holder.Some? ==> l.holder.value < n)
    && (forall x :: x in l.queue ==> x < n)
    && DistinctQueue(l.queue)
  }

  /** A service is being built only while it is not stored, and has been stored once if it is. */
  ghost predicate ServicesOk(s: State) {
    && (s.turnLock.holder.Some? ==> s.turn.None?)
    && (s.handoffLock.holder.Some? ==> s.handoff.None?)
    && (s.handoff.Some? ==> s.turn == Some(s.handoff.value.turn))
    && s.turnStores == (if s.turn.Some? then 1 else 0)
    && s.handoffStores == (if s.handoff.Some? then 1 else 0)
  }

  ghost predicate PcsOk(s: State)
    requires |s.pcs| == |s.roles|
  {
    forall i :: 0 <= i < |s.pcs| ==>
      PcOk(i, s.roles[i], s.pcs[i], s.turnLock, s.handoffLock, s.turn, s.handoff)
  }

  ghost predicate Inv(s: State) {
    && |s.pcs| == |s.roles|
    && LockOk(s.turnLock, |s.pcs|) && LockOk(s.handoffLock, |s.pcs|)
    && ServicesOk(s) && PcsOk(s)
  }

  /** The invariant but for coroutine `i`, which is running and holds what `holdsHandoff` says and no turn lock. */
  ghost predicate Running(s: State, i: nat, holdsHandoff: bool) {
    && |s.pcs| == |s.roles| && i < |s.pcs|
    && LockOk(s.turnLock, |s.pcs|) && LockOk(s.handoffLock, |s.pcs|) && ServicesOk(s)
    && (forall j :: 0 <= j < |s.pcs| && j != i ==>
          PcOk(j, s.roles[j], s.pcs[j], s.turnLock, s.handoffLock, s.turn, s.handoff))
    && s.turnLock.holder != Some(i) && i !in s.turnLock.queue && i !in s.handoffLock.queue
    && (s.handoffLock.holder == Some(i) <==> holdsHandoff)
    && (holdsHandoff <==> s.roles[i] == HandoffBuilder)
  }

  lemma FinishHandoffKeeps(s: State, i: nat, turn: nat, ok: bool)
    requires Running(s, i, true) && s.turn == Some(turn)
    ensures Inv(FinishHandoff(s, i, turn, ok))
  {
    hide LockOk;
    var t := FinishHandoff(s, i, turn, ok);
    assert LockOk(t.handoffLock, |t.pcs|) by {
      OtherHolder(s.handoffLock, None, |s.pcs|);
    }
    forall j | 0 <= j < |t.pcs| ensures PcOk(j, t.roles[j], t.pcs[j], t.turnLock, t.handoffLock, t.turn, t.handoff) {
      if j != i {
        assert PcOk(j, s.roles[j], s.pcs[j], s.turnLock, s.handoffLock, s.turn, s.handoff);
      }
    }
  }

  lemma OtherHolder(l: Lock, holder: Option<nat>, n: nat)
    requires LockOk(l, n) && (holder.Some? ==> holder.value < n)
    ensures LockOk(Lock(holder, l.queue), n)
  {
  }

  lemma AfterTurnKeeps(s: State, i: nat, turn: nat, ok: bool)
    requires i < |s.pcs| == |s.roles| && Running(s, i, s.roles[i] == HandoffBuilder) && s.turn == Some(turn)
    ensures Inv(AfterTurn(s, i, turn, ok))
  {
    hide LockOk, PcOk, FinishHandoff;
    if s.roles[i] == TurnBuilder {
      DoneKeeps(s, i, turn);
    } else {
      FinishHandoffKeeps(s, i, turn, ok);
    }
  }

  lemma DoneKeeps(s: State, i: nat, turn: nat)
    requires Running(s, i, false) && s.turn == Some(turn) && s.roles[i] == TurnBuilder
    ensures Inv(s.(pcs := s.pcs[i := Done(turn)]))
  {
    hide LockOk;
  }

  lemma Enqueued(l: Lock, i: nat, n: nat)
    requires LockOk(l, n) && i < n && i !in l.queue
    ensures LockOk(Lock(l.holder, l.queue + [i]), n)
    ensures forall j :: j in l.queue + [i] <==> j == i || j in l.queue
  {
  }

  lemma EnterTurnKeeps(s: State, i: nat, ok: bool)
    requires i < |s.pcs| == |s.roles| && Running(s, i, s.roles[i] == HandoffBuilder)
    ensures Inv(EnterTurn(s, i, ok))
  {
    hide LockOk;
    if s.turn.Some? {
      AfterTurnKeeps(s, i, s.turn.value, ok);
    } else if s.turnLock.Free() {
      OtherHolder(s.turnLock, Some(i), |s.pcs|);
      assert Lock(Some(i), s.turnLock.queue) == Lock(Some(i), []);
      var t := s.(turnLock := Lock(Some(i), []), pcs := s.pcs[i := BuildingTurn]);
      forall j | 0 <= j < |t.pcs| ensures PcOk(j, t.roles[j], t.pcs[j], t.turnLock, t.handoffLock, t.turn, t.handoff) {
        if j != i {
          assert PcOk(j, s.roles[j], s.pcs[j], s.turnLock, s.handoffLock, s.turn, s.handoff);
        }
      }
    } else {
      Enqueued(s.turnLock, i, |s.pcs|);
      var t := s.(turnLock := s.turnLock.(queue := s.turnLock.queue + [i]), pcs := s.pcs[i := WaitingTurn]);
      forall j | 0 <= j < |t.pcs| ensures PcOk(j, t.roles[j], t.pcs[j], t.turnLock, t.handoffLock, t.turn, t.handoff) {
        if j != i {
          assert PcOk(j, s.roles[j], s.pcs[j], s.turnLock, s.handoffLock, s.turn, s.handoff);
        }
      }
    }
  }

  /** Taking the head off a queue of a free lock. */
  lemma Dequeued(l: Lock, i: nat, n: nat)
    requires LockOk(l, n) && l.Next(i)
    ensures i < n && LockOk(Lock(None, l.queue[1..]), n) && i !in l.queue[1..]
    ensures forall j :: j in l.queue <==> j == i || j in l.queue[1..]
  {
    var rest := l.queue[1..];
    assert l.queue == [i] + rest;
    assert i in l.queue;
    forall a | 0 <= a < |rest| ensures rest[a] != i && rest[a] in l.queue {
      assert l.queue[a + 1] == rest[a];
    }
  }

  lemma GrantTurnKeeps(s: State, i: nat, ok: bool)
    requires Inv(s) && i < |s.pcs| && s.pcs[i] == WaitingTurn && s.turnLock.Next(i)
    ensures Inv(GrantTurn(s, i, ok))
  {
    hide LockOk, AfterTurn;
    Dequeued(s.turnLock, i, |s.pcs|);
    var t := s.(turnLock := Lock(None, s.turnLock.queue[1..]));
    assert PcOk(i, s.roles[i], s.pcs[i], s.turnLock, s.handoffLock, s.turn, s.handoff);
    assert Running(t, i, s.roles[i] == HandoffBuilder);
    if s.turn.Some? {
      AfterTurnKeeps(t, i, s.turn.value, ok);
    } else {
      OtherHolder(t.turnLock, Some(i), |s.pcs|);
    }
  }

  lemma EnterHandoffKeeps(s: State, i: nat, ok: bool)
    requires Inv(s) && i < |s.pcs| && s.pcs[i] == Fresh && s.roles[i] == HandoffBuilder
    ensures Inv(EnterHandoff(s, i, ok))
  {
    hide LockOk, EnterTurn;
    assert PcOk(i, s.roles[i], s.pcs[i], s.turnLock, s.handoffLock, s.turn, s.handoff);
    if s.handoff.Some? {
    } else if s.handoffLock.Free() {
      var t := s.(handoffLock := Lock(Some(i), []));
      OtherHolder(s.handoffLock, Some(i), |s.pcs|);
      assert Running(t, i, true);
      EnterTurnKeeps(t, i, ok);
    } else {
      Enqueued(s.handoffLock, i, |s.pcs|);
    }
  }

  lemma GrantHandoffKeeps(s: State, i: nat, ok: bool)
    requires Inv(s) && i < |s.pcs| && s.pcs[i] == WaitingHandoff && s.handoffLock.Next(i)
    ensures Inv(GrantHandoff(s, i, ok))
  {
    hide LockOk, EnterTurn;
    assert PcOk(i, s.roles[i], s.pcs[i], s.turnLock, s.handoffLock, s.turn, s.handoff);
    Dequeued(s.handoffLock, i, |s.pcs|);
    var t := s.(handoffLock := Lock(None, s.handoffLock.queue[1..]));
    if s.handoff.None? {
      var u := t.(handoffLock := t.handoffLock.(holder := Some(i)));
      OtherHolder(t.handoffLock, Some(i), |s.pcs|);
      assert Running(u, i, true);
      EnterTurnKeeps(u, i, ok);
    }
  }

  lemma StoreTurnKeeps(s: State, i: nat, ok: bool)
    requires Inv(s) && i < |s.pcs| && s.pcs[i] == BuildingTurn
    ensures Inv(StoreTurn(s, i, ok))
  {
    hide LockOk, AfterTurn;
    assert PcOk(i, s.roles[i], s.pcs[i], s.turnLock, s.handoffLock, s.turn, s.handoff);
    var t := s.(turn := Some(s.nextId), nextId := s.nextId + 1, turnStores := s.turnStores + 1,
                turnLock := s.turnLock.(holder := None));
    OtherHolder(s.turnLock, None, |s.pcs|);
    assert Running(t, i, s.roles[i] == HandoffBuilder);
    AfterTurnKeeps(t, i, s.nextId, ok);
  }

  lemma {:induction false} Dropped(q: seq<nat>, i: nat)
    ensures forall j :: j in Drop(q, i) <==> j in q && j != i
    ensures DistinctQueue(q) ==> DistinctQueue(Drop(q, i))
  {
    if q != [] {
      var rest, left := q[1..], Drop(q[1..], i);
      Dropped(rest, i);
      assert q == [q[0]] + rest;
      if q[0] == i {
        assert Drop(q, i) == left;
      } else {
        assert Drop(q, i) == [q[0]] + left;
        if DistinctQueue(q) {
          forall b | 0 <= b < |left| ensures left[b] != q[0] {
            assert left[b] in rest;
          }
        }
      }
    }
  }

  lemma AbortKeeps(s: State, i: nat)
    requires Inv(s) && i < |s.pcs| && !Finished(s.pcs[i])
    ensures Inv(Abort(s, i))
  {
    hide Drop, DistinctQueue;
    Dropped(s.turnLock.queue, i);
    Dropped(s.handoffLock.queue, i);
    assert PcOk(i, s.roles[i], s.pcs[i], s.turnLock, s.handoffLock, s.turn, s.handoff);
    var t := Abort(s, i);
    forall j | 0 <= j < |t.pcs| ensures PcOk(j, t.roles[j], t.pcs[j], t.turnLock, t.handoffLock, t.turn, t.handoff) {
      assert PcOk(j, s.roles[j], s.pcs[j], s.turnLock, s.handoffLock, s.turn, s.handoff);
    }
  }

  lemma StepKeeps(s: State, step: Step)
    requires Inv(s) && Enabled(s, step)
    ensures Inv(Apply(s, step))
  {
    hide LockOk, EnterTurn, EnterHandoff, GrantTurn, GrantHandoff, StoreTurn, Abort;
    match step
    case Raise(i) => AbortKeeps(s, i);
    case Resume(i, ok) =>
      match s.pcs[i]
      case Fresh =>
        if s.roles[i] == TurnBuilder {
          assert PcOk(i, s.roles[i], s.pcs[i], s.turnLock, s.handoffLock, s.turn, s.handoff);
          EnterTurnKeeps(s, i, ok);
        } else {
          EnterHandoffKeeps(s, i, ok);
        }
      case WaitingTurn => GrantTurnKeeps(s, i, ok);
      case WaitingHandoff => GrantHandoffKeeps(s, i, ok);
      case _ => StoreTurnKeeps(s, i, ok);
  }

  // -------------------------------------------------------------- runs

  /** Every step was possible when it was taken. */
  ghost predicate Possible(s: State, steps: seq<Step>)
    decreases |steps|
  {
    steps == [] || (Enabled(s, steps[0]) && Possible(Apply(s, steps[0]), steps[1..]))
  }

  ghost function Run(s: State, steps: seq<Step>): State
    requires Possible(s, steps)
    decreases |steps|
  {
    if steps == [] then s else Run(Apply(s, steps[0]), steps[1..])
  }

  lemma {:induction false} RunKeeps(s: State, steps: seq<Step>)
    requires Inv(s) && Possible(s, steps)
    ensures Inv(Run(s, steps))
    decreases |steps|
  {
    hide Inv, Apply, Enabled;
    if steps != [] {
      StepKeeps(s, steps[0]);
      RunKeeps(Apply(s, steps[0]), steps[1..]);
    }
  }

  lemma StartIsOk(roles: seq<Role>)
    ensures Inv(Start(roles))
  {
  }

  /** Over every interleaving, with any exceptions and cancellations: each service is stored at most once, everyone
    * who succeeds in building the same kind gets the same object, and the handoff service is built over the one
    * stored turn service. */
  lemma BuiltOnce(roles: seq<Role>, steps: seq<Step>)
    requires Possible(Start(roles), steps)
    ensures var s := Run(Start(roles), steps);
            && s.turnStores <= 1 && s.handoffStores <= 1
            && |s.pcs| == |s.roles|
            && (forall i, j :: 0 <= i < j < |s.pcs| && s.roles[i] == s.roles[j] && s.pcs[i].Done? && s.pcs[j].Done? ==> s.pcs[i] == s.pcs[j])
            && (s.handoff.Some? ==> s.turn == Some(s.handoff.value.turn))
  {
    hide LockOk, Run, Possible;
    StartIsOk(roles);
    RunKeeps(Start(roles), steps);
    var s := Run(Start(roles), steps);
    forall i, j | 0 <= i < j < |s.pcs| && s.roles[i] == s.roles[j] && s.pcs[i].Done? && s.pcs[j].Done?
      ensures s.pcs[i] == s.pcs[j]
    {
      assert PcOk(i, s.roles[i], s.pcs[i], s.turnLock, s.handoffLock, s.turn, s.handoff);
      assert PcOk(j, s.roles[j], s.pcs[j], s.turnLock, s.handoffLock, s.turn, s.handoff);
    }
  }

  // -------------------------------------------------------------- progress

  lemma SomeoneOnTurnIsReady(s: State, i: nat) returns (j: nat)
    requires Inv(s) && i < |s.pcs| && s.pcs[i] == WaitingTurn
    ensures j < |s.pcs| && Ready(s, j)
  {
    assert PcOk(i, s.roles[i], s.pcs[i], s.turnLock, s.handoffLock, s.turn, s.handoff);
    j := if s.turnLock.holder.Some? then s.turnLock.holder.value else s.turnLock.queue[0];
    assert j < |s.pcs| by {
      assert s.turnLock.holder.None? ==> s.turnLock.queue[0] in s.turnLock.queue;
    }
    assert PcOk(j, s.roles[j], s.pcs[j], s.turnLock, s.handoffLock, s.turn, s.handoff);
  }

  /** No reachable state is deadlocked: while some coroutine is unfinished, the event loop can resume one. */
  lemma NeverDeadlocked(s: State, i: nat) returns (j: nat)
    requires Inv(s) && i < |s.pcs| && !Finished(s.pcs[i])
    ensures j < |s.pcs| && Ready(s, j)
  {
    assert PcOk(i, s.roles[i], s.pcs[i], s.turnLock, s.handoffLock, s.turn, s.handoff);
    if s.pcs[i] == Fresh || s.pcs[i] == BuildingTurn {
      j := i;
    } else if s.pcs[i] == WaitingTurn {
      j := SomeoneOnTurnIsReady(s, i);
    } else {
      j := if s.handoffLock.holder.Some? then s.handoffLock.holder.value else s.handoffLock.queue[0];
      assert j < |s.pcs| by {
        assert s.handoffLock.holder.None? ==> s.handoffLock.queue[0] in s.handoffLock.queue;
      }
      assert PcOk(j, s.roles[j], s.pcs[j], s.turnLock, s.handoffLock, s.turn, s.handoff);
      if s.pcs[j] == WaitingTurn {
        j := SomeoneOnTurnIsReady(s, j);
      }
    }
  }

  /** Resumptions a coroutine still has ahead. Only the ones that matter to the locks are steps here: while it builds the
    * stores a coroutine may suspend any number of times more, which changes neither locks nor services. */
  function Ahead(pc: Pc): nat {
    match pc
    case Fresh => 4
    case WaitingHandoff => 3
    case WaitingTurn => 2
    case BuildingTurn => 1
    case _ => 0
  }

  function Work(pcs: seq<Pc>): nat {
    if pcs == [] then 0 else Ahead(pcs[0]) + Work(pcs[1..])
  }

  lemma {:induction false} WorkDrops(pcs: seq<Pc>, i: nat, pc: Pc)
    requires i < |pcs| && Ahead(pc) < Ahead(pcs[i])
    ensures Work(pcs[i := pc]) < Work(pcs)
  {
    if i == 0 {
      assert pcs[i := pc][1..] == pcs[1..];
    } else {
      assert pcs[i := pc][1..] == pcs[1..][i - 1 := pc];
      WorkDrops(pcs[1..], i - 1, pc);
    }
  }

  /** Only coroutine `i` has moved, and has at most `left` resumptions ahead. */
  predicate MovesOne(was: seq<Pc>, pcs: seq<Pc>, i: nat, left: nat) {
    i < |was| == |pcs| && pcs == was[i := pcs[i]] && Ahead(pcs[i]) <= left
  }

  lemma AfterTurnMovesOne(s: State, i: nat, turn: nat, ok: bool)
    requires i < |s.pcs| == |s.roles|
    ensures MovesOne(s.pcs, AfterTurn(s, i, turn, ok).pcs, i, 0)
  {
  }

  lemma EnterTurnMovesOne(s: State, i: nat, ok: bool)
    requires i < |s.pcs| == |s.roles|
    ensures MovesOne(s.pcs, EnterTurn(s, i, ok).pcs, i, 2)
  {
    hide AfterTurn, Lock.Free;
    if s.turn.Some? {
      AfterTurnMovesOne(s, i, s.turn.value, ok);
    }
  }

  lemma GrantTurnMovesOne(s: State, i: nat, ok: bool)
    requires i < |s.pcs| == |s.roles| && s.turnLock.Next(i)
    ensures MovesOne(s.pcs, GrantTurn(s, i, ok).pcs, i, 1)
  {
    hide AfterTurn;
    if s.turn.Some? {
      AfterTurnMovesOne(s.(turnLock := Lock(None, s.turnLock.queue[1..])), i, s.turn.value, ok);
    }
  }

  lemma EnterHandoffMovesOne(s: State, i: nat, ok: bool)
    requires i < |s.pcs| == |s.roles|
    ensures MovesOne(s.pcs, EnterHandoff(s, i, ok).pcs, i, 3)
  {
    hide EnterTurn, Lock.Free;
    EnterTurnMovesOne(s.(handoffLock := Lock(Some(i), [])), i, ok);
  }

  lemma GrantHandoffMovesOne(s: State, i: nat, ok: bool)
    requires i < |s.pcs| == |s.roles| && s.handoffLock.Next(i)
    ensures MovesOne(s.pcs, GrantHandoff(s, i, ok).pcs, i, 2)
  {
    hide EnterTurn;
    var t := s.(handoffLock := Lock(None, s.handoffLock.queue[1..]));
    EnterTurnMovesOne(t.(handoffLock := t.handoffLock.(holder := Some(i))), i, ok);
  }

  lemma StoreTurnMovesOne(s: State, i: nat, ok: bool)
    requires i < |s.pcs| == |s.roles|
    ensures MovesOne(s.pcs, StoreTurn(s, i, ok).pcs, i, 0)
  {
    hide AfterTurn;
    AfterTurnMovesOne(s.(turn := Some(s.nextId), nextId := s.nextId + 1, turnStores := s.turnStores + 1,
                         turnLock := s.turnLock.(holder := None)), i, s.nextId, ok);
  }

  /** Every step takes one coroutine closer to its end. */
  lemma StepsDoWork(s: State, step: Step)
    requires Inv(s) && Enabled(s, step)
    ensures Work(Apply(s, step).pcs) < Work(s.pcs)
  {
    hide Inv, Work, Lock.Free, Lock.Next, EnterTurn, EnterHandoff, GrantTurn, GrantHandoff, StoreTurn, Drop;
    var i := step.i;
    if step.Resume? {
      match s.pcs[i]
      case Fresh =>
        EnterTurnMovesOne(s, i, step.ok);
        EnterHandoffMovesOne(s, i, step.ok);
      case WaitingTurn => GrantTurnMovesOne(s, i, step.ok);
      case WaitingHandoff => GrantHandoffMovesOne(s, i, step.ok);
      case _ => StoreTurnMovesOne(s, i, step.ok);
    }
    WorkDrops(s.pcs, i, Apply(s, step).pcs[i]);
  }

  lemma {:induction false} RunsAreShort(s: State, steps: seq<Step>)
    requires Inv(s) && Possible(s, steps)
    ensures |steps| <= Work(s.pcs)
    decreases |steps|
  {
    hide Inv, Apply, Enabled, Work;
    if steps != [] {
      StepKeeps(s, steps[0]);
      StepsDoWork(s, steps[0]);
      RunsAreShort(Apply(s, steps[0]), steps[1..]);
    }
  }

  lemma {:induction false} FreshWork(pcs: seq<Pc>)
    requires forall i :: 0 <= i < |pcs| ==> pcs[i] == Fresh
    ensures Work(pcs) == 4 * |pcs|
  {
    if pcs != [] {
      FreshWork(pcs[1..]);
    }
  }

  /** Every run ends: `n` coroutines take at most `4 n` steps - resumptions that take, hand over or release a lock, not
    * every suspension inside a builder - and a run that cannot go on has finished them all. */
  lemma EveryRunFinishes(roles: seq<Role>, steps: seq<Step>)
    requires Possible(Start(roles), steps)
    ensures |steps| <= 4 * |roles|
    ensures (forall step :: !Enabled(Run(Start(roles), steps), step)) ==>
      forall i :: 0 <= i < |roles| ==> i < |Run(Start(roles), steps).pcs| && Finished(Run(Start(roles), steps).pcs[i])
  {
    hide Run, Possible, Work, Finished, Inv, Ready;
    StartIsOk(roles);
    FreshWork(Start(roles).pcs);
    RunsAreShort(Start(roles), steps);
    RunKeeps(Start(roles), steps);
    SameCrew(Start(roles), steps);
    var s := Run(Start(roles), steps);
    SameCount(s);
    forall i | 0 <= i < |roles| ensures Finished(s.pcs[i]) || exists step :: Enabled(s, step) {
      FinishedOrEnabled(s, i);
    }
  }

  lemma FinishedOrEnabled(s: State, i: nat)
    requires Inv(s) && i < |s.pcs|
    ensures Finished(s.pcs[i]) || exists step :: Enabled(s, step)
  {
    hide Inv, Ready;
    SameCount(s);
    if !Finished(s.pcs[i]) {
      var j := NeverDeadlocked(s, i);
      assert Enabled(s, Resume(j, true));
    }
  }

  lemma SameCount(s: State)
    requires Inv(s)
    ensures |s.pcs| == |s.roles|
  {
  }

  lemma {:induction false} SameCrew(s: State, steps: seq<Step>)
    requires Possible(s, steps)
    ensures Run(s, steps).roles == s.roles
    decreases |steps|
  {
    hide Enabled, Apply;
    if steps != [] {
      SameRoles(s, steps[0]);
      SameCrew(Apply(s, steps[0]), steps[1..]);
    }
  }

  lemma SameRoles(s: State, step: Step)
    requires Enabled(s, step)
    ensures Apply(s, step).roles == s.roles
  {
  }
}

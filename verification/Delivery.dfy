/** End to end: what workers, relays and retention together do to one message's save and reply. */
module Delivery {
  import opened Wrappers
  import opened Machine
  import opened TurnProtocol
  import Conversations = ConversationStore
  import Idempotency = IdempotencyStore
  import KeyLife
  import MemoryOutbox
  import SqlOutbox

  // ---------------------------------------------------------------- how runs evolve

  /** What no step undoes for a worker: its envelope, what it saved, having released its claim, and having got past the
    * moment after its save. */
  ghost predicate WorkerEvolves(x: Worker, y: Worker) {
    && y.env == x.env && (x.saved.Some? ==> y.saved == x.saved) && (x.phase == Raised(true) ==> y.phase == Raised(true))
    && (x.saved.Some? && !x.phase.Saved? ==> !y.phase.Saved?)
  }

  ghost predicate WorkersEvolve(s: Workers, t: Workers) {
    forall w :: w in s ==> w in t && WorkerEvolves(s[w], t[w])
  }

  ghost predicate HistoryEvolves(s: World, t: World) {
    && s.saves <= t.saves
    && s.history.lapsed <= t.history.lapsed && s.history.enqueuers <= t.history.enqueuers
    && (forall k :: k in s.history.inserted ==> k in t.history.inserted)
    && s.history.leases <= t.history.leases
  }

  lemma StepEvolves(b: Backend, s: World, step: Step)
    requires Inv(s) && Apply(b, s, step).Some?
    ensures WorkersEvolve(s.workers, Apply(b, s, step).value.workers)
    ensures HistoryEvolves(s, Apply(b, s, step).value)
  {
    hide Inv, Apply;
    StepMovesOneWorker(b, s, step);
    SavesGrowByOne(b, s, step);
    HistoryGrows(b, s, step);
    assert forall x: Worker :: WorkerEvolves(x, x);
  }

  predicate OfAWorker(step: Step) {
    !step.Tick? && !step.Sweep? && !step.Relay? && !step.Retain?
  }

  ghost predicate MovesOneWorker(s: World, step: Step, t: World) {
    if OfAWorker(step) then
      && step.w in t.workers && t.workers == s.workers[step.w := t.workers[step.w]]
      && (step.w in s.workers ==> WorkerEvolves(s.workers[step.w], t.workers[step.w]))
    else t.workers == s.workers
  }

  lemma StepMovesOneWorker(b: Backend, s: World, step: Step)
    requires Inv(s) && Apply(b, s, step).Some?
    ensures MovesOneWorker(s, step, Apply(b, s, step).value)
  {
    hide Inv, Apply, MovesOneWorker;
    if step.Save? {
      SaveMovesOneWorker(b, s, step.w, step.path);
    } else if step.Enqueue? {
      EnqueueMovesOneWorker(b, s, step.w, step.body);
    } else {
      OtherStepsMoveOneWorker(b, s, step);
    }
  }

  lemma SaveMovesOneWorker(b: Backend, s: World, w: nat, path: TurnPath)
    requires Inv(s) && Apply(b, s, Save(w, path)).Some?
    ensures MovesOneWorker(s, Save(w, path), Apply(b, s, Save(w, path)).value)
  {
    SaveUnfolds(b, s, w, path);
    NothingSavedYet(s, w);
    hide Inv, Apply, AfterTurn, SaveOn, ReachesSave, SaveSucceeds;
  }

  lemma EnqueueMovesOneWorker(b: Backend, s: World, w: nat, body: string)
    requires Apply(b, s, Enqueue(w, body)).Some?
    ensures MovesOneWorker(s, Enqueue(w, body), Apply(b, s, Enqueue(w, body)).value)
  {
    hide ReplyKey, Deliverable, Put;
    var x := s.workers[w];
    PutKeepsWorkers(b, At(s, w, Enqueued), w, ReplyKey(x.env.key), body);
  }

  lemma OtherStepsMoveOneWorker(b: Backend, s: World, step: Step)
    requires Apply(b, s, step).Some? && !step.Save? && !step.Enqueue?
    ensures MovesOneWorker(s, step, Apply(b, s, step).value)
  {
    hide ReplyKey, ReachesSave, ClaimOn, LoadOn, Relayed, LeasedIn, RelayPossible, Lapsing, HeldClaimsOutlive;
  }

  ghost predicate Grows(g: History, h: History) {
    g.lapsed <= h.lapsed && g.enqueuers <= h.enqueuers && (forall k :: k in g.inserted ==> k in h.inserted) && g.leases <= h.leases
  }

  lemma HistoryGrows(b: Backend, s: World, step: Step)
    requires Apply(b, s, step).Some?
    ensures Grows(s.history, Apply(b, s, step).value.history)
  {
    hide ReplyKey, ReachesSave, AfterTurn, ClaimOn, SaveOn, LoadOn, Deliverable, Relayed, LeasedIn, RelayPossible, Put, Grows;
    if step.Enqueue? {
      PutGrowsHistory(b, At(s, step.w, Enqueued), step.w, ReplyKey(s.workers[step.w].env.key), step.body);
      SameGrows(s.history);
    } else {
      SmallGrowths(s.history, Apply(b, s, step).value.history);
    }
  }

  lemma PutGrowsHistory(b: Backend, s: World, w: nat, key: string, body: string)
    ensures Grows(s.history, Put(b, s, w, key, body).history)
  {
    hide Born;
  }

  lemma SameGrows(g: History)
    ensures Grows(g, g)
  {
  }

  lemma SmallGrowths(g: History, h: History)
    requires h.enqueuers == g.enqueuers && h.inserted == g.inserted
    requires h.lapsed == g.lapsed || exists more :: h.lapsed == g.lapsed + more
    requires h.leases == g.leases || exists batch :: h.leases == g.leases + [batch]
    ensures Grows(g, h)
  {
  }

  lemma PutKeepsWorkers(b: Backend, s: World, w: nat, key: string, body: string)
    ensures Put(b, s, w, key, body).workers == s.workers
  {
  }

  // ---------------------------------------------------------------- claims and saves

  predicate Owns(owners: map<string, nat>, w: nat, x: Worker) {
    x.env.key in owners && owners[x.env.key] == w
  }

  /** A claim that was won is the worker's own until it is released or lapses. */
  ghost predicate ClaimOk(s: World, w: nat)
    requires w in s.workers
  {
    && (KeepsClaim(s.workers[w].phase) ==> (Owns(s.owners, w, s.workers[w]) <==> w !in s.history.lapsed))
    && (!KeepsClaim(s.workers[w].phase) ==> !Owns(s.owners, w, s.workers[w]))
    && (s.workers[w].saved.Some? ==> KeepsClaim(s.workers[w].phase) || s.workers[w].phase == Raised(true))
  }

  ghost predicate ClaimsOk(s: World) {
    && (forall w :: w in s.workers ==> ClaimOk(s, w))
    && (forall w :: w in s.history.lapsed ==> w in s.workers)
  }

  /** The claim the worker once held is its own no more. */
  predicate GaveUp(s: World, w: nat)
    requires w in s.workers
  {
    s.workers[w].phase == Raised(true) || w in s.history.lapsed
  }

  ghost predicate SaveOwned(s: World, i: nat)
    requires i < |s.saves|
  {
    s.saves[i].worker in s.workers && s.workers[s.saves[i].worker].saved.Some?
  }

  ghost predicate SavesOwned(s: World) {
    forall i :: 0 <= i < |s.saves| ==> SaveOwned(s, i)
  }

  function KeyOfSave(s: World, i: nat): string
    requires i < |s.saves| && s.saves[i].worker in s.workers
  {
    s.workers[s.saves[i].worker].env.key
  }

  /** Save `j` on a key comes only after the worker of the earlier save `i` gave up its claim. */
  ghost predicate SecondSaveOk(s: World, i: nat, j: nat)
    requires i < j < |s.saves| && SavesOwned(s)
  {
    assert SaveOwned(s, i) && SaveOwned(s, j);
    KeyOfSave(s, i) == KeyOfSave(s, j) ==> GaveUp(s, s.saves[i].worker)
  }

  ghost predicate OneHolder(s: World)
    requires SavesOwned(s)
  {
    forall i, j :: 0 <= i < j < |s.saves| ==> SecondSaveOk(s, i, j)
  }

  // ---------------------------------------------------------------- rows and leases

  /** Some worker on the key got as far as a deliverable enqueue. */
  ghost predicate EnqueuedBy(s: World, k: string) {
    exists w :: w in s.history.enqueuers && w in s.workers && ReplyKey(s.workers[w].env.key) == k
  }

  ghost predicate EnqueuersOk(s: World) {
    && (forall w :: w in s.history.enqueuers ==>
          && w in s.workers && s.workers[w].saved.Some? && !s.workers[w].phase.Saved?
          && ReplyKey(s.workers[w].env.key) in s.history.inserted)
    && (forall k :: k in s.history.inserted ==> EnqueuedBy(s, k))
  }

  /** One of the first `n` saves is by a worker on the reply key's message. */
  ghost predicate SavedBefore(s: World, k: string, n: nat) {
    exists j :: 0 <= j < n && j < |s.saves| && s.saves[j].worker in s.workers && ReplyKey(s.workers[s.saves[j].worker].env.key) == k
  }

  ghost predicate BatchOk(s: World, batch: Batch) {
    batch.saves <= |s.saves| && forall k :: k in batch.keys ==> SavedBefore(s, k, batch.saves)
  }

  ghost predicate BatchesOk(s: World) {
    forall i :: 0 <= i < |s.history.leases| ==> BatchOk(s, s.history.leases[i])
  }

  /** A row has the history of an outbox key. */
  ghost predicate RowOk(b: Backend, r: Reply) {
    KeyLife.IsHistory(b, r.life) && KeyLife.FreshEnqueues(r.life) && r.life != [] && !r.Status().Absent?
  }

  ghost predicate RowsOk(b: Backend, outbox: map<string, Reply>) {
    forall k :: k in outbox ==> RowOk(b, outbox[k])
  }

  /** A delivered row says when, and no row says a time to come. */
  ghost predicate Stamped(r: Reply, now: int) {
    (r.Status().Delivered? ==> r.deliveredAt.Some?) && (r.deliveredAt.Some? ==> r.deliveredAt.value <= now)
  }

  ghost predicate StampsOk(s: World) {
    forall k :: k in s.outbox ==> Stamped(s.outbox[k], s.now)
  }

  ghost predicate DeliveryInv(b: Backend, s: World) {
    && Inv(s) && ClaimsOk(s) && SavesOwned(s) && OneHolder(s) && EnqueuersOk(s) && BatchesOk(s) && RowsOk(b, s.outbox)
    && StampsOk(s)
  }

  // ---------------------------------------------------------------- claims are kept in order

  lemma StepKeepsClaims(b: Backend, s: World, step: Step)
    requires Inv(s) && ClaimsOk(s) && Apply(b, s, step).Some?
    ensures ClaimsOk(Apply(b, s, step).value)
  {
    hide Inv, ClaimsOk, ReplyKey, ReachesSave, AfterTurn, SaveOn, LoadOn, ClaimOn, Deliverable, Relayed, LeasedIn, RelayPossible, Lapsing, Put;
    match step
    case Arrive(w, env) => ArriveKeepsClaims(b, s, w, env);
    case Sweep => SweepKeepsClaims(b, s);
    case Release(w) => GiveBackKeepsClaims(s, w, Raised(true));
    case ShedTurn(w) => GiveBackKeepsClaims(s, w, Shed);
    case Enqueue(w, body) =>
      var x := s.workers[w];
      if Deliverable(x.env.key, body) {
        MoveKeepsClaims(s, w, x.(phase := Enqueued));
        PutKeepsClaims(b, At(s, w, Enqueued), w, ReplyKey(x.env.key), body);
      } else {
        MoveKeepsClaims(s, w, x.(phase := Failing));
      }
    case Save(w, path) =>
      SaveUnfolds(b, s, w, path);
      SaveKeepsClaims(b, s, w, path);
    case Tick(_) => SameClaims(s, Apply(b, s, step).value);
    case Relay(_) => SameClaims(s, Apply(b, s, step).value);
    case Retain(_) => SameClaims(s, Apply(b, s, step).value);
    case _ =>
      var t := Apply(b, s, step).value;
      MoveKeepsClaims(s, step.w, t.workers[step.w]);
  }

  lemma SameClaims(s: World, t: World)
    requires ClaimsOk(s) && t.workers == s.workers && t.owners == s.owners && t.history.lapsed == s.history.lapsed
    ensures ClaimsOk(t)
  {
    hide KeepsClaim;
    forall v | v in t.workers ensures ClaimOk(t, v) {
      assert ClaimOk(s, v);
    }
  }

  lemma SaveKeepsClaims(b: Backend, s: World, w: nat, path: TurnPath)
    requires ClaimsOk(s) && Apply(b, s, Save(w, path)).Some?
    ensures ClaimsOk(Apply(b, s, Save(w, path)).value)
  {
    SaveUnfolds(b, s, w, path);
    hide AfterTurn, SaveOn, ReachesSave, Apply, SaveSucceeds, ClaimsOk;
    var t := Apply(b, s, Save(w, path)).value;
    MoveKeepsClaims(s, w, t.workers[w]);
    SameClaims(s.(workers := s.workers[w := t.workers[w]]), t);
  }

  /** Moves within a turn, and ends of one that keep the claim. */
  lemma MoveKeepsClaims(s: World, w: nat, x: Worker)
    requires ClaimsOk(s) && w in s.workers && x.env == s.workers[w].env
    requires KeepsClaim(s.workers[w].phase) && KeepsClaim(x.phase)
    ensures ClaimsOk(s.(workers := s.workers[w := x]))
  {
    hide KeepsClaim;
    var t := s.(workers := s.workers[w := x]);
    forall v | v in t.workers ensures ClaimOk(t, v) {
      assert ClaimOk(s, v);
    }
  }

  lemma PutKeepsClaims(b: Backend, s: World, w: nat, key: string, body: string)
    requires ClaimsOk(s)
    ensures ClaimsOk(Put(b, s, w, key, body))
  {
    hide Born, KeepsClaim;
    var t := Put(b, s, w, key, body);
    forall v | v in t.workers ensures ClaimOk(t, v) {
      assert ClaimOk(s, v);
    }
  }

  lemma GiveBackKeepsClaims(s: World, w: nat, phase: Phase)
    requires Inv(s) && ClaimsOk(s) && w in s.workers && InTurn(s.workers[w].phase) && (phase == Raised(true) || (phase.Shed? && s.workers[w].phase.Loaded?))
    ensures ClaimsOk(WithoutClaim(At(s, w, phase), s.workers[w].env.key))
  {
    WorkerInOrder(s, w);
    if phase.Shed? {
      NothingSavedYet(s, w);
    }
    GivenBack(phase);
    hide Inv, KeepsClaim, Loads, Logs, Answered;
    var t := WithoutClaim(At(s, w, phase), s.workers[w].env.key);
    forall v | v in t.workers ensures ClaimOk(t, v) {
      assert ClaimOk(s, v);
    }
  }

  lemma ArriveKeepsClaims(b: Backend, s: World, w: nat, env: Envelope)
    requires Inv(s) && ClaimsOk(s) && Apply(b, s, Arrive(w, env)).Some?
    ensures ClaimsOk(Apply(b, s, Arrive(w, env)).value)
  {
    OwnersAreWorkers(s);
    ClaimedKeeps();
    hide Inv, ClaimOn, KeepsClaim;
    var (won, claims) := ClaimOn(b, s.claims, env.key, s.now);
    if won {
      WinnerKeepsClaims(s, w, env, claims);
    } else {
      var t := Apply(b, s, Arrive(w, env)).value;
      forall v | v in t.workers ensures ClaimOk(t, v) {
        assert v != w ==> ClaimOk(s, v);
      }
    }
  }

  lemma WinnerKeepsClaims(s: World, w: nat, env: Envelope, claims: Idempotency.Table)
    requires ClaimsOk(s) && w !in s.workers && KeepsClaim(Claimed)
    requires forall k :: k in s.owners ==> s.owners[k] in s.workers && s.workers[s.owners[k]].env.key == k
    ensures ClaimsOk(s.(claims := claims, owners := s.owners[env.key := w],
                        workers := s.workers[w := Worker(env, Claimed, None, None)],
                        history := Lapsing(s.history, if env.key in s.owners then {s.owners[env.key]} else {})))
  {
    hide KeepsClaim;
    var t := s.(claims := claims, owners := s.owners[env.key := w],
                workers := s.workers[w := Worker(env, Claimed, None, None)],
                history := Lapsing(s.history, if env.key in s.owners then {s.owners[env.key]} else {}));
    forall v | v in t.workers ensures ClaimOk(t, v) {
      assert v != w ==> ClaimOk(s, v);
    }
  }

  lemma GivenBack(phase: Phase)
    requires phase == Raised(true) || phase.Shed?
    ensures !KeepsClaim(phase)
  {
  }

  lemma ClaimedKeeps()
    ensures KeepsClaim(Claimed) && !KeepsClaim(Duplicate)
  {
  }

  lemma OwnersAreWorkers(s: World)
    requires Inv(s)
    ensures forall k :: k in s.owners ==>
      s.owners[k] in s.workers && s.workers[s.owners[k]].env.key == k && KeepsClaim(s.workers[s.owners[k]].phase)
  {
    hide Holds, Loads, Logs, Answered, StoresOk, WrittenBy, ReplyKey, Counted;
    forall k | k in s.owners
      ensures s.owners[k] in s.workers && s.workers[s.owners[k]].env.key == k && KeepsClaim(s.workers[s.owners[k]].phase)
    {
      assert OwnedBy(s.workers, k, s.owners[k]);
    }
  }

  lemma SweepKeepsClaims(b: Backend, s: World)
    requires Inv(s) && ClaimsOk(s)
    ensures ClaimsOk(Apply(b, s, Sweep).value)
  {
    OwnersAreWorkers(s);
    hide Inv, KeepsClaim;
    var t := Apply(b, s, Sweep).value;
    forall v | v in t.workers ensures ClaimOk(t, v) {
      assert ClaimOk(s, v);
    }
  }

  // ---------------------------------------------------------------- saves are kept in order

  lemma StepKeepsSaves(b: Backend, s: World, step: Step)
    requires Inv(s) && ClaimsOk(s) && SavesOwned(s) && OneHolder(s) && Apply(b, s, step).Some?
    ensures SavesOwned(Apply(b, s, step).value) && OneHolder(Apply(b, s, step).value)
  {
    hide Inv, Apply, ClaimsOk, GaveUp;
    var t := Apply(b, s, step).value;
    StepEvolves(b, s, step);
    SavesGrowByOne(b, s, step);
    forall i | 0 <= i < |t.saves| ensures SaveOwned(t, i) {
      if i < |s.saves| {
        assert SaveOwned(s, i) && t.saves[i] == s.saves[i];
        assert WorkerEvolves(s.workers[s.saves[i].worker], t.workers[s.saves[i].worker]);
      }
    }
    forall i, j | 0 <= i < j < |t.saves| ensures SecondSaveOk(t, i, j) {
      assert SaveOwned(s, i) && t.saves[i] == s.saves[i];
      assert WorkerEvolves(s.workers[s.saves[i].worker], t.workers[s.saves[i].worker]);
      if j < |s.saves| {
        assert SecondSaveOk(s, i, j) && SaveOwned(s, j) && t.saves[j] == s.saves[j];
        assert WorkerEvolves(s.workers[s.saves[j].worker], t.workers[s.saves[j].worker]);
      } else if KeyOfSave(t, i) == KeyOfSave(t, j) {
        EarlierSaverGaveUp(b, s, step.w, step.path, i);
      }
      GivingUpStays(s, t, s.saves[i].worker);
    }
  }

  lemma GivingUpStays(s: World, t: World, w: nat)
    requires WorkersEvolve(s.workers, t.workers) && HistoryEvolves(s, t) && w in s.workers
    ensures w in t.workers && (GaveUp(s, w) ==> GaveUp(t, w))
  {
    assert WorkerEvolves(s.workers[w], t.workers[w]);
  }

  lemma SavesGrowByOne(b: Backend, s: World, step: Step)
    requires Apply(b, s, step).Some?
    ensures var t := Apply(b, s, step).value;
            t.saves == s.saves
            || (step.Save? && SaveSucceeds(b, s, step.w, step.path) && |t.saves| == |s.saves| + 1
                && t.saves[..|s.saves|] == s.saves && t.saves[|s.saves|].worker == step.w
                && step.w in s.workers && s.workers[step.w].phase.Loaded?
                && step.w in t.workers && t.workers[step.w].saved.Some? && t.workers[step.w].env == s.workers[step.w].env)
  {
    hide ReplyKey, ReachesSave, AfterTurn, ClaimOn, SaveOn, LoadOn, Deliverable, Relayed, LeasedIn, RelayPossible, Lapsing, Born;
  }

  lemma EarlierSaverGaveUp(b: Backend, s: World, w: nat, path: TurnPath, i: nat)
    requires Inv(s) && ClaimsOk(s) && SavesOwned(s) && i < |s.saves| && w in s.workers && s.workers[w].phase.Loaded?
    requires SaveOwned(s, i) && KeyOfSave(s, i) == s.workers[w].env.key
    ensures GaveUp(s, s.saves[i].worker)
  {
    var v := s.saves[i].worker;
    NothingSavedYet(s, w);
    WorkerInOrder(s, w);
    hide Inv, Loads, Answered, InLog;
    assert ClaimOk(s, v) && ClaimOk(s, w);
  }

  // ---------------------------------------------------------------- rows and leases are kept in order

  lemma StepKeepsEnqueuers(b: Backend, s: World, step: Step)
    requires Inv(s) && EnqueuersOk(s) && Apply(b, s, step).Some?
    ensures EnqueuersOk(Apply(b, s, step).value)
  {
    hide Apply, Inv, ReplyKey;
    var t := Apply(b, s, step).value;
    StepEvolves(b, s, step);
    EnqueuersGrow(b, s, step);
    forall w | w in t.history.enqueuers
      ensures w in t.workers && t.workers[w].saved.Some? && !t.workers[w].phase.Saved?
      ensures ReplyKey(t.workers[w].env.key) in t.history.inserted
    {
      if w in s.history.enqueuers {
        assert WorkerEvolves(s.workers[w], t.workers[w]);
      }
    }
    forall k | k in t.history.inserted ensures EnqueuedBy(t, k) {
      if k in s.history.inserted {
        var w :| w in s.history.enqueuers && w in s.workers && ReplyKey(s.workers[w].env.key) == k;
        assert WorkerEvolves(s.workers[w], t.workers[w]);
      }
    }
  }

  /** A new enqueuer, and with it perhaps a new row, comes from a deliverable enqueue after a save. */
  lemma EnqueuersGrow(b: Backend, s: World, step: Step)
    requires Inv(s) && Apply(b, s, step).Some?
    ensures var t := Apply(b, s, step).value;
            (t.history.enqueuers == s.history.enqueuers && t.history.inserted == s.history.inserted)
            || (step.Enqueue? && step.w in t.workers && t.workers[step.w].saved.Some? && t.workers[step.w].phase.Enqueued?
                && t.history.enqueuers == s.history.enqueuers + {step.w}
                && ReplyKey(t.workers[step.w].env.key) in t.history.inserted
                && (forall k :: k in t.history.inserted ==> k in s.history.inserted || k == ReplyKey(t.workers[step.w].env.key)))
  {
    hide Inv, Apply;
    if step.Enqueue? {
      EnqueueGrows(b, s, step.w, step.body);
    } else {
      OthersDoNotEnqueue(b, s, step);
    }
  }

  lemma OthersDoNotEnqueue(b: Backend, s: World, step: Step)
    requires Apply(b, s, step).Some? && !step.Enqueue?
    ensures var t := Apply(b, s, step).value;
            t.history.enqueuers == s.history.enqueuers && t.history.inserted == s.history.inserted
  {
    hide ReplyKey, ReachesSave, AfterTurn, ClaimOn, SaveOn, LoadOn, Deliverable, Relayed, LeasedIn, RelayPossible;
  }

  lemma EnqueueGrows(b: Backend, s: World, w: nat, body: string)
    requires Inv(s) && Apply(b, s, Enqueue(w, body)).Some?
    ensures var t := Apply(b, s, Enqueue(w, body)).value;
            && w in s.workers && w in t.workers && t.workers[w].saved.Some? && t.workers[w].env == s.workers[w].env
            && var key := ReplyKey(s.workers[w].env.key);
               if !Deliverable(s.workers[w].env.key, body) then t.history == s.history && t.workers == At(s, w, Failing).workers
               else
                 && t.history.enqueuers == s.history.enqueuers + {w} && key in t.history.inserted && t.workers[w].phase.Enqueued?
                 && (forall k :: k in t.history.inserted ==> k in s.history.inserted || k == key)
  {
    SavedHasSaved(s, w);
    CountsOk(s);
    hide Inv, ReplyKey, Deliverable, Put;
    var key := ReplyKey(s.workers[w].env.key);
    PutGrows(b, At(s, w, Enqueued), w, key, body);
  }

  lemma SavedHasSaved(s: World, w: nat)
    requires Inv(s) && w in s.workers && s.workers[w].phase.Saved?
    ensures s.workers[w].saved.Some?
  {
    WorkerInOrder(s, w);
  }

  lemma PutGrows(b: Backend, s: World, w: nat, key: string, body: string)
    requires Counted(s.outbox, s.history)
    ensures var t := Put(b, s, w, key, body);
            && t.workers == s.workers && t.history.enqueuers == s.history.enqueuers + {w} && key in t.history.inserted
            && (forall k :: k in t.history.inserted ==> k in s.history.inserted || k == key)
  {
    hide Born;
    assert s.history.inserted[key] == s.history.retired[key] + (if key in s.outbox then 1 else 0);
  }

  lemma SavedBeforeStays(s: World, t: World, k: string, n: nat)
    requires SavedBefore(s, k, n) && WorkersEvolve(s.workers, t.workers) && HistoryEvolves(s, t)
    ensures SavedBefore(t, k, n)
  {
    hide ReplyKey;
    var j :| 0 <= j < n && j < |s.saves| && s.saves[j].worker in s.workers && ReplyKey(s.workers[s.saves[j].worker].env.key) == k;
    assert t.saves[j] == s.saves[j] && WorkerEvolves(s.workers[s.saves[j].worker], t.workers[s.saves[j].worker]);
  }

  lemma StepKeepsBatches(b: Backend, s: World, step: Step)
    requires Inv(s) && BatchesOk(s) && Apply(b, s, step).Some?
    ensures BatchesOk(Apply(b, s, step).value)
  {
    hide Apply, Inv, SavedBefore;
    var t := Apply(b, s, step).value;
    StepEvolves(b, s, step);
    LeasesGrow(b, s, step);
    forall i | 0 <= i < |t.history.leases| ensures BatchOk(t, t.history.leases[i]) {
      if i < |s.history.leases| {
        var batch := s.history.leases[i];
        assert BatchOk(s, batch) && t.history.leases[i] == batch;
        forall k | k in batch.keys ensures SavedBefore(t, k, batch.saves) {
          SavedBeforeStays(s, t, k, batch.saves);
        }
      } else {
        var batch := t.history.leases[i];
        forall k | k in batch.keys ensures SavedBefore(t, k, batch.saves) {
          RowsFollowSaves(s, k);
          SavedBeforeStays(s, t, k, batch.saves);
        }
      }
    }
  }

  lemma LeasesGrow(b: Backend, s: World, step: Step)
    requires Apply(b, s, step).Some?
    ensures var t := Apply(b, s, step).value;
            t.history.leases == s.history.leases
            || (step.Relay? && t.history.leases == s.history.leases + [Batch(LeasedIn(step.events), |s.saves|)]
                && t.saves == s.saves && forall k :: k in LeasedIn(step.events) ==> k in s.outbox)
  {
    hide ReplyKey, ReachesSave, AfterTurn, ClaimOn, SaveOn, LoadOn, Deliverable, Relayed, Born;
  }

  /** Whoever wrote a row had saved. */
  lemma RowsFollowSaves(s: World, k: string)
    requires Inv(s) && k in s.outbox
    ensures SavedBefore(s, k, |s.saves|)
  {
    hide StoresOk, Holds, Loads, Answered, ReplyKey, OwnedBy, Counted;
    var author := s.outbox[k].author;
    assert WrittenBy(s.workers, k, author);
    WorkerInOrder(s, author);
    var i :| 0 <= i < |s.saves| && s.saves[i].worker == author && s.saves[i].after == s.workers[author].saved.value;
    assert ReplyKey(s.workers[s.saves[i].worker].env.key) == k;
  }

  lemma StepKeepsRows(b: Backend, s: World, step: Step)
    requires RowsOk(b, s.outbox) && Apply(b, s, step).Some?
    ensures RowsOk(b, Apply(b, s, step).value.outbox)
  {
    hide ReplyKey, ReachesSave, AfterTurn, ClaimOn, SaveOn, LoadOn, Deliverable, RowOk, Born, Moved, Lapsing, LeasedIn;
    if step.Enqueue? {
      BornIsOk(b, step.w, step.body);
    }
    if step.Relay? {
      forall k | k in s.outbox && k in step.events ensures RowOk(b, Moved(b, s.outbox[k], step.events[k], s.now)) {
        MovedIsOk(b, s.outbox[k], step.events[k], s.now);
      }
    }
  }

  lemma BornIsOk(b: Backend, w: nat, body: string)
    ensures RowOk(b, Reply(w, body, Born(b), None))
  {
    var e := KeyLife.Enqueue(0, None);
    assert KeyLife.Next(b, KeyLife.Absent, e) == KeyLife.Pending(0, None);
    assert Born(b)[0] == KeyLife.Change(KeyLife.Absent, e, KeyLife.Pending(0, None));
  }

  lemma MovedIsOk(b: Backend, r: Reply, e: KeyLife.Event, now: int)
    requires RowOk(b, r) && !e.Enqueue? && KeyLife.Possible(r.Status(), e)
    ensures RowOk(b, Moved(b, r, e, now))
    ensures Moved(b, r, e, now).Status() == KeyLife.Next(b, r.Status(), e)
  {
    hide KeyLife.IsHistory, KeyLife.FreshEnqueues;
    var c := KeyLife.Change(r.Status(), e, KeyLife.Next(b, r.Status(), e));
    KeyLife.HistoryGrowsBy(b, r.life, c);
  }

  lemma StepKeepsStamps(b: Backend, s: World, step: Step)
    requires StampsOk(s) && Apply(b, s, step).Some?
    ensures StampsOk(Apply(b, s, step).value) && s.now <= Apply(b, s, step).value.now
  {
    hide ReplyKey, ReachesSave, AfterTurn, ClaimOn, SaveOn, LoadOn, Deliverable, Stamped, Born, Moved, Lapsing, LeasedIn,
         HeldClaimsOutlive, Retirable;
    var t := Apply(b, s, step).value;
    forall k | k in s.outbox ensures Stamped(s.outbox[k], t.now) {
      StampLasts(s.outbox[k], s.now, t.now);
    }
    if step.Enqueue? {
      NewRowIsStamped(b, step.w, step.body, s.now);
    }
    if step.Relay? {
      forall k | k in s.outbox && k in step.events ensures Stamped(Moved(b, s.outbox[k], step.events[k], s.now), s.now) {
        MovedIsStamped(b, s.outbox[k], step.events[k], s.now);
      }
    }
  }

  lemma StampLasts(r: Reply, now: int, later: int)
    requires Stamped(r, now) && now <= later
    ensures Stamped(r, later)
  {
  }

  lemma NewRowIsStamped(b: Backend, w: nat, body: string, now: int)
    ensures Stamped(Reply(w, body, Born(b), None), now)
  {
  }

  /** Only a delivery makes a row delivered. */
  lemma MovedIsStamped(b: Backend, r: Reply, e: KeyLife.Event, now: int)
    requires Stamped(r, now)
    ensures Stamped(Moved(b, r, e, now), now)
  {
    MovedStatus(b, r, e, now);
  }

  lemma MovedStatus(b: Backend, r: Reply, e: KeyLife.Event, now: int)
    ensures Moved(b, r, e, now).Status() == KeyLife.Next(b, r.Status(), e)
  {
  }

  /** Every step keeps everything about claims, saves, rows and leases. */
  lemma StepKeepsDelivery(b: Backend, s: World, step: Step)
    requires DeliveryInv(b, s) && Apply(b, s, step).Some?
    ensures DeliveryInv(b, Apply(b, s, step).value)
  {
    hide Inv, Apply, ClaimsOk, SavesOwned, OneHolder, EnqueuersOk, BatchesOk, RowsOk, StampsOk;
    StepKeeps(b, s, step);
    StepKeepsStamps(b, s, step);
    StepKeepsClaims(b, s, step);
    StepKeepsSaves(b, s, step);
    StepKeepsEnqueuers(b, s, step);
    StepKeepsBatches(b, s, step);
    StepKeepsRows(b, s, step);
  }

  lemma {:induction false} RunKeepsDelivery(b: Backend, s: World, steps: seq<Step>)
    requires DeliveryInv(b, s) && Run(b, s, steps).Some?
    ensures DeliveryInv(b, Run(b, s, steps).value)
    decreases |steps|
  {
    hide DeliveryInv, Apply;
    if steps != [] {
      StepKeepsDelivery(b, s, steps[0]);
      RunKeepsDelivery(b, Apply(b, s, steps[0]).value, steps[1..]);
    }
  }

  lemma ReachableIsOk(b: Backend, now: int, steps: seq<Step>)
    requires Run(b, Start(now), steps).Some?
    ensures DeliveryInv(b, Run(b, Start(now), steps).value)
  {
    hide Run, Apply;
    StartIsOk(now);
    RunKeepsDelivery(b, Start(now), steps);
  }

  // ---------------------------------------------------------------- one save per message

  /** In every run, when two saves are on one dedup key, the worker of the earlier one had released its claim after an
    * exception, or its claim had expired and was retaken or swept. */
  lemma SecondSaveNeedsALostClaim(b: Backend, now: int, steps: seq<Step>, i: nat, j: nat)
    requires Run(b, Start(now), steps).Some?
    requires i < j < |Run(b, Start(now), steps).value.saves|
    ensures var s := Run(b, Start(now), steps).value;
            && SavesOwned(s)
            && SaveOwned(s, i) && SaveOwned(s, j)
            && (KeyOfSave(s, i) == KeyOfSave(s, j) ==> GaveUp(s, s.saves[i].worker))
  {
    hide Run, Inv, SaveOwned, GaveUp, ClaimsOk, EnqueuersOk, BatchesOk, RowsOk, StampsOk;
    ReachableIsOk(b, now, steps);
    var s := Run(b, Start(now), steps).value;
    assert SaveOwned(s, i) && SaveOwned(s, j) && SecondSaveOk(s, i, j);
  }

  /** So a message is saved at most once, unless a saved turn on it ends in an exception or outlives its claim. */
  lemma AtMostOneSavePerKey(b: Backend, now: int, steps: seq<Step>, key: string, i: nat, j: nat)
    requires Run(b, Start(now), steps).Some?
    requires var s := Run(b, Start(now), steps).value;
             && i < |s.saves| && j < |s.saves|
             && SavesOwned(s) && SaveOwned(s, i) && SaveOwned(s, j) && KeyOfSave(s, i) == key == KeyOfSave(s, j)
             && (forall w :: w in s.workers && s.workers[w].env.key == key && s.workers[w].saved.Some? ==> !GaveUp(s, w))
    ensures i == j
  {
    hide Run, GaveUp;
    if i < j {
      SecondSaveNeedsALostClaim(b, now, steps, i, j);
    } else if j < i {
      SecondSaveNeedsALostClaim(b, now, steps, j, i);
    }
  }

  /** Giving up is exactly not owning the live claim on the key any more. */
  lemma GaveUpExactly(b: Backend, now: int, steps: seq<Step>, w: nat)
    requires Run(b, Start(now), steps).Some?
    requires w in Run(b, Start(now), steps).value.workers && Run(b, Start(now), steps).value.workers[w].saved.Some?
    ensures var s := Run(b, Start(now), steps).value;
            GaveUp(s, w) <==> !(s.workers[w].env.key in s.claims && Owns(s.owners, w, s.workers[w]))
  {
    hide Run, Holding, Loading, Logged, Answering, Replying, Counted, StoresOk, OwnedBy, SavesOwned, OneHolder, EnqueuersOk, BatchesOk, RowsOk, StampsOk;
    ReachableIsOk(b, now, steps);
    var s := Run(b, Start(now), steps).value;
    assert ClaimOk(s, w);
    assert s.owners.Keys == s.claims.Keys;
  }

  predicate Expired(b: Backend, expiry: int, now: int) {
    match b
    case InMemory => expiry <= now
    case Postgres => expiry < now
  }

  /** A claim on the key can be won right now. */
  predicate ClaimIsFree(b: Backend, s: World, key: string) {
    key !in s.claims || Expired(b, s.claims[key], s.now)
  }

  /** A redelivery of the key to a new worker, run undisturbed up to a clarifying save. */
  function Redelivery(v: nat, env: Envelope): seq<Step> {
    [Arrive(v, env), Load(v), Save(v, Clarify)]
  }

  ghost predicate SavesAgain(b: Backend, s: World, v: nat, env: Envelope) {
    var r := Run(b, s, Redelivery(v, env));
    && r.Some? && |r.value.saves| == |s.saves| + 1 && r.value.saves[..|s.saves|] == s.saves
    && r.value.saves[|s.saves|].worker == v && v in r.value.workers && r.value.workers[v].env == env
  }

  /** The converse: from every reachable state, a redelivery adds a save on the key exactly when the claim is free -
    * released, expired, or never made. */
  lemma RedeliverySavesExactly(b: Backend, now: int, steps: seq<Step>, v: nat, env: Envelope)
    requires Run(b, Start(now), steps).Some? && v !in Run(b, Start(now), steps).value.workers
    ensures var s := Run(b, Start(now), steps).value;
            SavesAgain(b, s, v, env) <==> ClaimIsFree(b, s, env.key)
  {
    hide Run;
    StartIsOk(now);
    RunKeeps(b, Start(now), steps);
    RedeliveryFrom(b, Run(b, Start(now), steps).value, v, env);
  }

  lemma RedeliveryFrom(b: Backend, s: World, v: nat, env: Envelope)
    requires Inv(s) && v !in s.workers
    ensures SavesAgain(b, s, v, env) <==> ClaimIsFree(b, s, env.key)
  {
    hide Run, AfterTurn, Inv, ReachesSave;
    ClaimFreeExactly(b, s, env.key);
    var s1 := Apply(b, s, Arrive(v, env)).value;
    assert Redelivery(v, env) == [Arrive(v, env)] + ([Load(v)] + ([Save(v, Clarify)] + []));
    RunOneMore(b, s, Arrive(v, env), [Load(v)] + ([Save(v, Clarify)] + []));
    if ClaimOn(b, s.claims, env.key, s.now).0 {
      StepKeeps(b, s, Arrive(v, env));
      var s2 := Apply(b, s1, Load(v)).value;
      RunOneMore(b, s1, Load(v), [Save(v, Clarify)] + []);
      LoadThenSave(b, s1, v);
      RunOneMore(b, s2, Save(v, Clarify), []);
      RunNothing(b, Apply(b, s2, Save(v, Clarify)).value);
    } else {
      StuckRun(b, s1, Load(v), [Save(v, Clarify)] + []);
    }
  }

  /** The route the code allows: from any reachable state, a saved worker that meets an exception before it returns - the
    * outbox refuses the insert, or the commit is not acknowledged - releases its claim, and the redelivery saves the
    * message a second time. */
  lemma ExceptionAfterSaveIsSavedAgain(b: Backend, now: int, steps: seq<Step>, w: nat, v: nat)
    requires Run(b, Start(now), steps).Some?
    requires var s := Run(b, Start(now), steps).value;
             && w in s.workers && (s.workers[w].phase.Saved? || s.workers[w].phase.Enqueued?) && v !in s.workers
    ensures var s := Run(b, Start(now), steps).value;
            var r := Run(b, s, [Raise(w), Release(w)]);
            && r.Some? && r.value.saves == s.saves && SavesAgain(b, r.value, v, s.workers[w].env)
  {
    hide Run, SavesAgain, Inv;
    StartIsOk(now);
    RunKeeps(b, Start(now), steps);
    var s := Run(b, Start(now), steps).value;
    var t := Apply(b, s, Raise(w)).value;
    var u := Apply(b, t, Release(w)).value;
    StepKeeps(b, s, Raise(w));
    StepKeeps(b, t, Release(w));
    assert [Raise(w), Release(w)] == [Raise(w)] + ([Release(w)] + []);
    RunOneMore(b, s, Raise(w), [Release(w)] + []);
    RunOneMore(b, t, Release(w), []);
    RunNothing(b, u);
    RedeliveryFrom(b, u, v, s.workers[w].env);
  }

  lemma StuckRun(b: Backend, s: World, step: Step, rest: seq<Step>)
    requires Apply(b, s, step).None?
    ensures Run(b, s, [step] + rest).None?
  {
  }

  lemma ClaimFreeExactly(b: Backend, s: World, key: string)
    ensures ClaimOn(b, s.claims, key, s.now).0 <==> ClaimIsFree(b, s, key)
  {
  }

  /** A worker that loads and saves undisturbed saves. */
  lemma LoadThenSave(b: Backend, s: World, v: nat)
    requires Inv(s) && v in s.workers && s.workers[v].phase.Claimed?
    ensures Apply(b, s, Load(v)).Some?
    ensures var s2 := Apply(b, s, Load(v)).value;
            && SaveSucceeds(b, s2, v, Clarify)
            && var t := Apply(b, s2, Save(v, Clarify)).value;
               && |t.saves| == |s.saves| + 1 && t.saves[..|s.saves|] == s.saves && t.saves[|s.saves|].worker == v
               && v in t.workers && t.workers[v].env == s.workers[v].env
  {
    var s2 := Apply(b, s, Load(v)).value;
    var before := LoadOn(b, s.conversations, s.workers[v].env.conversation);
    StoresVersioned(s);
    AfterTurnKeepsConversation(before, Clarify);
    LoadedVersion(b, s.conversations, s.workers[v].env.conversation);
    SaveOutcome(b, s.conversations, AfterTurn(before, Clarify), before.lockVersion);
    hide Inv, AfterTurn, SaveOn, LoadOn;
    assert Apply(b, s2, Save(v, Clarify)).Some?;
    SaveUnfolds(b, s2, v, Clarify);
  }

  lemma LoadedVersion(b: Backend, t: Conversations.Table, conversation: string)
    requires Conversations.Versioned(t)
    ensures LoadOn(b, t, conversation).conversation == conversation
    ensures LoadOn(b, t, conversation).lockVersion == Conversations.MemLoad(t, conversation).lockVersion
  {
  }

  // ---------------------------------------------------------------- the lost reply

  /** A saved worker that has left its turn leaves its message without a reply row, now or ever before, exactly if no
    * worker on the key got as far as a deliverable enqueue; and then it crashed or left with an exception. */
  lemma RepliesAreLostExactly(b: Backend, now: int, steps: seq<Step>, w: nat)
    requires Run(b, Start(now), steps).Some?
    requires var s := Run(b, Start(now), steps).value;
             w in s.workers && s.workers[w].saved.Some? && !InTurn(s.workers[w].phase)
    ensures var s := Run(b, Start(now), steps).value;
            var k := ReplyKey(s.workers[w].env.key);
            && (k !in s.history.inserted <==>
                forall v :: v in s.history.enqueuers && v in s.workers ==> s.workers[v].env.key != s.workers[w].env.key)
            && (k in s.history.inserted <==> k in s.outbox || k in s.history.retired)
            && (k !in s.history.inserted ==> s.workers[w].phase.Crashed? || s.workers[w].phase.Raised?)
  {
    hide Run, Inv, ReplyKey, SavesOwned, OneHolder, BatchesOk, RowsOk, StampsOk;
    ReachableIsOk(b, now, steps);
    var s := Run(b, Start(now), steps).value;
    var k := ReplyKey(s.workers[w].env.key);
    InsertedOrRetired(s, k);
    if k !in s.history.inserted {
      LeftWithoutRow(s, w);
    }
    if k in s.history.inserted {
      assert EnqueuedBy(s, k);
      var v :| v in s.history.enqueuers && v in s.workers && ReplyKey(s.workers[v].env.key) == k;
      ReplyKeysDiffer(s.workers[v].env.key, s.workers[w].env.key);
    }
  }

  lemma LeftWithoutRow(s: World, w: nat)
    requires Inv(s) && ClaimsOk(s) && w in s.workers && s.workers[w].saved.Some? && !InTurn(s.workers[w].phase)
    requires ReplyKey(s.workers[w].env.key) !in s.history.inserted
    ensures s.workers[w].phase.Crashed? || s.workers[w].phase.Raised?
  {
    hide Inv, ReplyKey, Owns;
    WorkerInOrder(s, w);
    assert ClaimOk(s, w);
  }

  /** An earlier worker on the key enqueued a reply, and has lost its claim since. */
  ghost predicate AnsweredBefore(s: World, w: nat)
    requires w in s.workers
  {
    exists v :: v in s.history.enqueuers && v in s.workers && v != w && s.workers[v].env.key == s.workers[w].env.key && GaveUp(s, v)
  }

  /** At the very moment of stopping: a worker that has saved and crashes, or meets an exception, before its enqueue
    * leaves its message with a reply row, now or before, exactly if an earlier worker on the key, which lost its claim
    * since, had enqueued one. */
  lemma StoppingLosesTheReplyExactly(b: Backend, now: int, steps: seq<Step>, w: nat, stop: Step)
    requires Run(b, Start(now), steps).Some?
    requires var s := Run(b, Start(now), steps).value; w in s.workers && s.workers[w].phase.Saved?
    requires stop == Crash(w) || stop == Raise(w)
    ensures var s := Run(b, Start(now), steps).value;
            && Apply(b, s, stop).Some?
            && (ReplyKey(s.workers[w].env.key) in Apply(b, s, stop).value.history.inserted <==> AnsweredBefore(s, w))
  {
    hide Run, Inv, Apply, ReplyKey, ClaimsOk, EnqueuersOk, SavesOwned, OneHolder, BatchesOk, RowsOk, StampsOk, AnsweredBefore;
    ReachableIsOk(b, now, steps);
    var s := Run(b, Start(now), steps).value;
    HolderOwns(s, w);
    StoppingFrom(s, w);
    StoppingOnlyStops(b, s, w, stop);
  }

  lemma StoppingFrom(s: World, w: nat)
    requires ClaimsOk(s) && EnqueuersOk(s) && w in s.workers && s.workers[w].phase.Saved? && Owns(s.owners, w, s.workers[w])
    ensures ReplyKey(s.workers[w].env.key) in s.history.inserted <==> AnsweredBefore(s, w)
  {
    hide ReplyKey, KeepsClaim;
    var k := ReplyKey(s.workers[w].env.key);
    if k in s.history.inserted {
      assert EnqueuedBy(s, k);
      var v :| v in s.history.enqueuers && v in s.workers && ReplyKey(s.workers[v].env.key) == k;
      ReplyKeysDiffer(s.workers[v].env.key, s.workers[w].env.key);
      assert ClaimOk(s, v);
    }
  }

  lemma HolderOwns(s: World, w: nat)
    requires Inv(s) && w in s.workers && s.workers[w].phase.Saved?
    ensures Owns(s.owners, w, s.workers[w])
  {
    WorkerInOrder(s, w);
  }

  lemma StoppingOnlyStops(b: Backend, s: World, w: nat, stop: Step)
    requires w in s.workers && s.workers[w].phase.Saved? && (stop == Crash(w) || stop == Raise(w))
    ensures Apply(b, s, stop).Some? && Apply(b, s, stop).value.history == s.history
  {
  }

  /** Out of the turn with the claim still on the table. */
  predicate Stopped(phase: Phase) {
    phase.Crashed? || phase == Raised(false)
  }

  lemma StoppedStays(b: Backend, s: World, step: Step, w: nat)
    requires Apply(b, s, step).Some? && w in s.workers && Stopped(s.workers[w].phase)
    ensures w in Apply(b, s, step).value.workers && Apply(b, s, step).value.workers[w] == s.workers[w]
  {
    hide ReplyKey, ReachesSave, AfterTurn, ClaimOn, SaveOn, LoadOn, Deliverable, Relayed, LeasedIn, RelayPossible, Born, Lapsing, HeldClaimsOutlive;
  }

  /** While a stopped worker's claim has not lapsed, no step answers its key. */
  lemma StepLeavesUnanswered(b: Backend, s: World, step: Step, w: nat)
    requires DeliveryInv(b, s) && Apply(b, s, step).Some? && w in s.workers && Stopped(s.workers[w].phase)
    requires ReplyKey(s.workers[w].env.key) !in s.history.inserted && w !in Apply(b, s, step).value.history.lapsed
    ensures ReplyKey(s.workers[w].env.key) !in Apply(b, s, step).value.history.inserted
  {
    EnqueuersGrow(b, s, step);
    HistoryGrows(b, s, step);
    if step.Enqueue? {
      EnqueuerHolds(b, s, step.w, step.body);
      WorkerEnvStays(b, s, step.w, step.body);
    }
    hide Inv, Apply, ReplyKey, SavesOwned, OneHolder, EnqueuersOk, BatchesOk, RowsOk, StampsOk;
    assert ClaimOk(s, w);
    if step.Enqueue? && ReplyKey(s.workers[step.w].env.key) == ReplyKey(s.workers[w].env.key) {
      ReplyKeysDiffer(s.workers[step.w].env.key, s.workers[w].env.key);
    }
  }

  lemma EnqueuerHolds(b: Backend, s: World, v: nat, body: string)
    requires Inv(s) && Apply(b, s, Enqueue(v, body)).Some?
    ensures v in s.workers && s.workers[v].phase.Saved? && Owns(s.owners, v, s.workers[v])
  {
    WorkerInOrder(s, v);
  }

  lemma WorkerEnvStays(b: Backend, s: World, v: nat, body: string)
    requires Apply(b, s, Enqueue(v, body)).Some?
    ensures v in s.workers && v in Apply(b, s, Enqueue(v, body)).value.workers
    ensures Apply(b, s, Enqueue(v, body)).value.workers[v].env == s.workers[v].env
  {
    hide ReplyKey, Deliverable, Born;
  }

  /** A message whose worker crashed, or could not release its claim, before any reply row was written stays without one
    * for as long as that claim is live, whatever is redelivered meanwhile. */
  lemma LostReplyStaysLost(b: Backend, now: int, steps: seq<Step>, more: seq<Step>, w: nat)
    requires Run(b, Start(now), steps).Some?
    requires var s := Run(b, Start(now), steps).value;
             && w in s.workers && Stopped(s.workers[w].phase) && ReplyKey(s.workers[w].env.key) !in s.history.inserted
             && Run(b, s, more).Some? && w !in Run(b, s, more).value.history.lapsed
    ensures var s := Run(b, Start(now), steps).value;
            ReplyKey(s.workers[w].env.key) !in Run(b, s, more).value.history.inserted
  {
    hide Run, DeliveryInv;
    ReachableIsOk(b, now, steps);
    UnansweredRun(b, Run(b, Start(now), steps).value, more, w);
  }

  lemma {:induction false} UnansweredRun(b: Backend, s: World, more: seq<Step>, w: nat)
    requires DeliveryInv(b, s) && w in s.workers && Stopped(s.workers[w].phase)
    requires ReplyKey(s.workers[w].env.key) !in s.history.inserted
    requires Run(b, s, more).Some? && w !in Run(b, s, more).value.history.lapsed
    ensures ReplyKey(s.workers[w].env.key) !in Run(b, s, more).value.history.inserted
    decreases |more|
  {
    hide DeliveryInv, Apply, ReplyKey;
    if more != [] {
      var t := Apply(b, s, more[0]).value;
      StepKeepsDelivery(b, s, more[0]);
      StoppedStays(b, s, more[0], w);
      if w in t.history.lapsed {
        LapsedStays(b, t, more[1..], w);
      }
      StepLeavesUnanswered(b, s, more[0], w);
      UnansweredRun(b, t, more[1..], w);
    }
  }

  lemma {:induction false} LapsedStays(b: Backend, s: World, steps: seq<Step>, w: nat)
    requires Run(b, s, steps).Some? && w in s.history.lapsed
    ensures w in Run(b, s, steps).value.history.lapsed
    decreases |steps|
  {
    hide Apply;
    if steps != [] {
      HistoryGrows(b, s, steps[0]);
      LapsedStays(b, Apply(b, s, steps[0]).value, steps[1..], w);
    }
  }

  // ---------------------------------------------------------------- one reply, leased in turn

  /** Over all interleavings of workers, relays and retention: a key gets a second reply row only after retention
    * deleted the first, which had been delivered. */
  lemma OneRowUntilRetired(b: Backend, now: int, steps: seq<Step>, k: string)
    requires Run(b, Start(now), steps).Some?
    ensures var s := Run(b, Start(now), steps).value;
            s.history.inserted[k] == s.history.retired[k] + (if k in s.outbox then 1 else 0)
  {
    hide Run;
    StartIsOk(now);
    RunKeeps(b, Start(now), steps);
    CountsOk(Run(b, Start(now), steps).value);
  }

  /** The row is there, and was delivered no earlier than `d` or is yet to be. */
  ghost predicate KeptFrom(s: World, k: string, d: int) {
    && k in s.outbox && d <= s.now
    && (s.outbox[k].Status().Delivered? && s.outbox[k].deliveredAt.Some? ==> d <= s.outbox[k].deliveredAt.value)
  }

  lemma KeptThroughStep(b: Backend, s: World, step: Step, k: string, d: int)
    requires KeptFrom(s, k, d) && StampsOk(s) && Apply(b, s, step).Some?
    ensures var t := Apply(b, s, step).value;
            if step.Retain? && k in step.keys then t.now > d + SqlOutbox.RETENTION_SECONDS
            else KeptFrom(t, k, d)
    ensures Apply(b, s, step).value.history.inserted[k] == s.history.inserted[k]
  {
    StepKeepsStamps(b, s, step);
    hide Apply, StampsOk, KeyLife.EndOf;
    if step.Relay? {
      KeptThroughRelay(b, s, step.events, k, d);
    } else if step.Retain? {
      KeptThroughRetention(b, s, step.keys, k, d);
    } else {
      RowIsUntouched(b, s, step, k);
    }
  }

  lemma KeptThroughRelay(b: Backend, s: World, events: map<string, KeyLife.Event>, k: string, d: int)
    requires KeptFrom(s, k, d) && Apply(b, s, Relay(events)).Some?
    ensures KeptFrom(Apply(b, s, Relay(events)).value, k, d)
    ensures Apply(b, s, Relay(events)).value.history.inserted == s.history.inserted
  {
    hide Moved, LeasedIn, RelayPossible, KeyLife.EndOf;
    if k in events {
      MovedStatus(b, s.outbox[k], events[k], s.now);
      MovedStamp(b, s.outbox[k], events[k], s.now);
    }
  }

  lemma KeptThroughRetention(b: Backend, s: World, keys: set<string>, k: string, d: int)
    requires KeptFrom(s, k, d) && Apply(b, s, Retain(keys)).Some?
    ensures var t := Apply(b, s, Retain(keys)).value;
            && (if k in keys then t.now > d + SqlOutbox.RETENTION_SECONDS else KeptFrom(t, k, d))
            && t.history.inserted == s.history.inserted
  {
    hide KeyLife.EndOf;
  }

  lemma RowIsUntouched(b: Backend, s: World, step: Step, k: string)
    requires k in s.outbox && Apply(b, s, step).Some? && !step.Relay? && !step.Retain?
    ensures var t := Apply(b, s, step).value;
            k in t.outbox && t.outbox[k] == s.outbox[k] && t.history.inserted[k] == s.history.inserted[k]
  {
    hide ReplyKey, ReachesSave, AfterTurn, ClaimOn, SaveOn, LoadOn, Deliverable, Born, HeldClaimsOutlive;
  }

  lemma MovedStamp(b: Backend, r: Reply, e: KeyLife.Event, now: int)
    ensures Moved(b, r, e, now).deliveredAt == if e.Deliver? then Some(now) else r.deliveredAt
    ensures KeyLife.Next(b, r.Status(), e).Delivered? ==> e.Deliver? || r.Status().Delivered?
  {
  }

  lemma {:induction false} ClockGoesOn(b: Backend, s: World, steps: seq<Step>)
    requires DeliveryInv(b, s) && Run(b, s, steps).Some?
    ensures s.now <= Run(b, s, steps).value.now
    decreases |steps|
  {
    hide DeliveryInv, Apply;
    if steps != [] {
      StepKeepsDelivery(b, s, steps[0]);
      OneStepOn(b, s, steps[0]);
      ClockGoesOn(b, Apply(b, s, steps[0]).value, steps[1..]);
    }
  }

  lemma OneStepOn(b: Backend, s: World, step: Step)
    requires DeliveryInv(b, s) && Apply(b, s, step).Some?
    ensures s.now <= Apply(b, s, step).value.now
  {
    hide Apply;
    StepKeepsStamps(b, s, step);
  }

  lemma {:induction false} KeptForAMonth(b: Backend, s: World, steps: seq<Step>, k: string, d: int)
    requires DeliveryInv(b, s) && KeptFrom(s, k, d) && Run(b, s, steps).Some?
    requires Run(b, s, steps).value.history.inserted[k] > s.history.inserted[k]
    ensures Run(b, s, steps).value.now > d + SqlOutbox.RETENTION_SECONDS
    decreases |steps|
  {
    hide Inv, ClaimsOk, SavesOwned, OneHolder, EnqueuersOk, BatchesOk, RowsOk, StampsOk, KeptFrom, Apply;
    var t := Apply(b, s, steps[0]).value;
    StepKeepsDelivery(b, s, steps[0]);
    KeptThroughStep(b, s, steps[0], k, d);
    if steps[0].Retain? && k in steps[0].keys {
      ClockGoesOn(b, t, steps[1..]);
    } else {
      KeptForAMonth(b, t, steps[1..], k, d);
    }
  }

  /** And it gets that second row more than thirty days after the first was delivered, so more than thirty days after
    * any moment at which the first was there undelivered. */
  lemma NextRowIsAMonthLater(b: Backend, now: int, steps: seq<Step>, more: seq<Step>, k: string)
    requires Run(b, Start(now), steps).Some? && k in Run(b, Start(now), steps).value.outbox
    requires var s := Run(b, Start(now), steps).value;
             Run(b, s, more).Some? && Run(b, s, more).value.history.inserted[k] > s.history.inserted[k]
    ensures var s := Run(b, Start(now), steps).value;
            var r := s.outbox[k];
            && (r.Status().Delivered? ==> r.deliveredAt.Some?)
            && Run(b, s, more).value.now
               > (if r.Status().Delivered? then r.deliveredAt.value else s.now) + SqlOutbox.RETENTION_SECONDS
  {
    hide Run, Inv;
    ReachableIsOk(b, now, steps);
    var s := Run(b, Start(now), steps).value;
    var r := s.outbox[k];
    assert Stamped(r, s.now);
    KeptForAMonth(b, s, more, k, if r.Status().Delivered? then r.deliveredAt.value else s.now);
  }

  /** Every lease of a reply comes after a successful save on its message: of the saves made before the lease, one is
    * by a worker on the key. */
  lemma LeasesFollowSaves(b: Backend, now: int, steps: seq<Step>, i: nat, k: string)
    requires Run(b, Start(now), steps).Some?
    requires i < |Run(b, Start(now), steps).value.history.leases|
    requires k in Run(b, Start(now), steps).value.history.leases[i].keys
    ensures var s := Run(b, Start(now), steps).value; SavedBefore(s, k, s.history.leases[i].saves)
  {
    hide Run, Inv, SavedBefore;
    ReachableIsOk(b, now, steps);
    var s := Run(b, Start(now), steps).value;
    assert BatchOk(s, s.history.leases[i]);
  }

  /** Every reply row lives as an outbox key does: its leases, plus one while it is pending, never exceed one plus its
    * failures and reclaims. */
  lemma ReplyLeasesAreAccountedFor(b: Backend, now: int, steps: seq<Step>, k: string)
    requires Run(b, Start(now), steps).Some? && k in Run(b, Start(now), steps).value.outbox
    ensures var life := Run(b, Start(now), steps).value.outbox[k].life;
            && KeyLife.IsHistory(b, life)
            && KeyLife.Count(life, KeyLife.IsClaim) + (if KeyLife.EndOf(life).Pending? then 1 else 0)
               <= 1 + KeyLife.Count(life, KeyLife.IsFail) + KeyLife.Count(life, KeyLife.IsReclaim)
  {
    hide Run, Inv;
    ReachableIsOk(b, now, steps);
    var r := Run(b, Start(now), steps).value.outbox[k];
    assert RowOk(b, r);
    KeyLife.LeasesAreAccountedFor(b, r.life);
  }

  // ---------------------------------------------------------------- the stores behind it

  function StatusIn(outbox: map<string, Reply>, k: string): KeyLife.Status {
    if k in outbox then outbox[k].Status() else KeyLife.Absent
  }

  function StampIn(outbox: map<string, Reply>, k: string): Option<int> {
    if k in outbox then outbox[k].deliveredAt else None
  }

  function BodyIn(outbox: map<string, Reply>, k: string): Option<string> {
    if k in outbox then Some(outbox[k].body) else None
  }

  function BodyOf(c: Option<MemoryOutbox.Content>): Option<string> {
    if c.None? then None else Some(c.value.body)
  }

  ghost predicate NoneAbsent(outbox: map<string, Reply>) {
    forall k :: k in outbox ==> !outbox[k].Status().Absent?
  }

  /** The in-memory outbox holds what the protocol's rows say, key by key: status and text. */
  ghost predicate ShowsBox(outbox: map<string, Reply>, box: MemoryOutbox.Box) {
    && MemoryOutbox.WellFormed(box) && NoneAbsent(outbox)
    && (forall k :: MemoryOutbox.StatusOf(box, k) == StatusIn(outbox, k))
    && (forall k :: BodyOf(MemoryOutbox.ContentOf(box, k)) == BodyIn(outbox, k))
  }

  ghost predicate ShowsTable(outbox: map<string, Reply>, rows: SqlOutbox.Table) {
    && SqlOutbox.Keyed(rows) && NoneAbsent(outbox)
    && (forall k :: SqlOutbox.SqlStatus(rows, k) == StatusIn(outbox, k))
    && (forall k :: SqlOutbox.DeliveryTime(rows, k) == StampIn(outbox, k))
    && (forall k :: BodyOf(SqlOutbox.ContentIn(rows, k)) == BodyIn(outbox, k))
  }

  /** The events an operation means for the rows there are. */
  function BoxEvents(outbox: map<string, Reply>, box: MemoryOutbox.Box, op: MemoryOutbox.Op): map<string, KeyLife.Event> {
    map k | k in outbox :: MemoryOutbox.EventOf(box, op, k)
  }

  function TableEvents(outbox: map<string, Reply>, rows: SqlOutbox.Table, op: MemoryOutbox.Op): map<string, KeyLife.Event> {
    map k | k in outbox :: SqlOutbox.SqlEventOf(rows, op, k)
  }

  /** Moving a row, and what it leaves of a key that has none. */
  lemma RelayMoves(b: Backend, outbox: map<string, Reply>, events: map<string, KeyLife.Event>, k: string, e: KeyLife.Event,
                   now: int)
    requires NoneAbsent(outbox) && KeyLife.Possible(StatusIn(outbox, k), e) && !e.Enqueue?
    requires events.Keys == outbox.Keys && (k in outbox ==> events[k] == e)
    ensures StatusIn(Relayed(b, outbox, events, now), k) == KeyLife.Next(b, StatusIn(outbox, k), e)
    ensures BodyIn(Relayed(b, outbox, events, now), k) == BodyIn(outbox, k)
    ensures StampIn(Relayed(b, outbox, events, now), k) == if k in outbox && e.Deliver? then Some(now) else StampIn(outbox, k)
    ensures k in outbox ==> !StatusIn(Relayed(b, outbox, events, now), k).Absent?
  {
  }

  /** Every operation of the in-memory outbox but an enqueue is one relay step. */
  lemma BoxOperationIsARelayStep(s: World, box: MemoryOutbox.Box, op: MemoryOutbox.Op)
    requires ShowsBox(s.outbox, box) && !op.OpEnqueue?
    ensures var r := Apply(KeyLife.InMemory, s, Relay(BoxEvents(s.outbox, box, op)));
            r.Some? && ShowsBox(r.value.outbox, MemoryOutbox.Apply(box, op))
  {
    hide MemoryOutbox.StatusOf, MemoryOutbox.ContentOf, MemoryOutbox.EventOf, MemoryOutbox.Apply, MemoryOutbox.WellFormed,
         MemoryOutbox.Places, KeyLife.Possible, Relayed, StatusIn, BodyIn;
    var events := BoxEvents(s.outbox, box, op);
    var t := Relayed(KeyLife.InMemory, s.outbox, events, s.now);
    forall k ensures
      && KeyLife.Possible(StatusIn(s.outbox, k), MemoryOutbox.EventOf(box, op, k))
      && MemoryOutbox.StatusOf(MemoryOutbox.Apply(box, op), k) == StatusIn(t, k)
      && BodyOf(MemoryOutbox.ContentOf(MemoryOutbox.Apply(box, op), k)) == BodyIn(t, k)
      && (k in s.outbox ==> !StatusIn(t, k).Absent?) && !MemoryOutbox.EventOf(box, op, k).Enqueue?
    {
      MemoryOutbox.EveryKeyMoves(box, op, k);
      OnlyEnqueuesEnqueue(box, op, k);
      RelayMoves(KeyLife.InMemory, s.outbox, events, k, MemoryOutbox.EventOf(box, op, k), s.now);
      assert KeyLife.Next(KeyLife.InMemory, StatusIn(s.outbox, k), MemoryOutbox.EventOf(box, op, k))
          == KeyLife.MemNext(StatusIn(s.outbox, k), MemoryOutbox.EventOf(box, op, k));
    }
    MemoryOutbox.StaysWellFormed(box, op);
    RelayIsPossible(s.outbox, events);
    RelayedKeys(KeyLife.InMemory, s.outbox, events, s.now);
  }

  lemma RelayIsPossible(outbox: map<string, Reply>, events: map<string, KeyLife.Event>)
    requires events.Keys == outbox.Keys
    requires forall k :: k in outbox ==> !events[k].Enqueue? && KeyLife.Possible(StatusIn(outbox, k), events[k])
    ensures RelayPossible(outbox, events)
  {
  }

  lemma RelayedKeys(b: Backend, outbox: map<string, Reply>, events: map<string, KeyLife.Event>, now: int)
    ensures Relayed(b, outbox, events, now).Keys == outbox.Keys
    ensures forall k :: k in outbox ==> StatusIn(Relayed(b, outbox, events, now), k) == Relayed(b, outbox, events, now)[k].Status()
    ensures forall k :: k in outbox ==> StatusIn(outbox, k) == outbox[k].Status()
  {
  }

  lemma OnlyEnqueuesEnqueue(box: MemoryOutbox.Box, op: MemoryOutbox.Op, k: string)
    requires !op.OpEnqueue?
    ensures !MemoryOutbox.EventOf(box, op, k).Enqueue?
  {
  }

  /** And so is every statement of the SQL outbox but the insert; a delivery is recorded at the time of the step. */
  lemma TableOperationIsARelayStep(s: World, rows: SqlOutbox.Table, op: MemoryOutbox.Op)
    requires ShowsTable(s.outbox, rows) && !op.OpEnqueue? && (op.OpDelivered? ==> op.at == s.now)
    ensures var r := Apply(KeyLife.Postgres, s, Relay(TableEvents(s.outbox, rows, op)));
            r.Some? && ShowsTable(r.value.outbox, SqlOutbox.SqlApply(rows, op))
  {
    hide SqlOutbox.SqlStatus, SqlOutbox.SqlEventOf, SqlOutbox.SqlApply, SqlOutbox.Keyed, SqlOutbox.DeliveryTime, SqlOutbox.ContentIn,
         KeyLife.Possible, Relayed, StatusIn, StampIn, BodyIn;
    var events := TableEvents(s.outbox, rows, op);
    var t := Relayed(KeyLife.Postgres, s.outbox, events, s.now);
    forall k ensures
      && KeyLife.Possible(StatusIn(s.outbox, k), SqlOutbox.SqlEventOf(rows, op, k))
      && SqlOutbox.SqlStatus(SqlOutbox.SqlApply(rows, op), k) == StatusIn(t, k)
      && SqlOutbox.DeliveryTime(SqlOutbox.SqlApply(rows, op), k) == StampIn(t, k)
      && BodyOf(SqlOutbox.ContentIn(SqlOutbox.SqlApply(rows, op), k)) == BodyIn(t, k)
      && (k in s.outbox ==> !StatusIn(t, k).Absent?) && !SqlOutbox.SqlEventOf(rows, op, k).Enqueue?
    {
      SqlOutbox.EveryRowMoves(rows, op, k);
      SqlOutbox.EveryTimeMoves(rows, op, k);
      StatusKnows(s.outbox, k);
      OnlyDeliveriesDeliver(rows, op, k);
      OnlyInsertsEnqueue(rows, op, k);
      RelayMoves(KeyLife.Postgres, s.outbox, events, k, SqlOutbox.SqlEventOf(rows, op, k), s.now);
      assert KeyLife.Next(KeyLife.Postgres, StatusIn(s.outbox, k), SqlOutbox.SqlEventOf(rows, op, k))
          == KeyLife.SqlNext(StatusIn(s.outbox, k), SqlOutbox.SqlEventOf(rows, op, k));
    }
    SqlOutbox.StaysKeyed(rows, op);
    RelayIsPossible(s.outbox, events);
    RelayedKeys(KeyLife.Postgres, s.outbox, events, s.now);
  }

  lemma OnlyDeliveriesDeliver(rows: SqlOutbox.Table, op: MemoryOutbox.Op, k: string)
    ensures SqlOutbox.SqlEventOf(rows, op, k).Deliver? <==> op.OpDelivered? && op.k == k
  {
  }

  lemma StatusKnows(outbox: map<string, Reply>, k: string)
    requires NoneAbsent(outbox)
    ensures k in outbox <==> !StatusIn(outbox, k).Absent?
  {
  }

  lemma OnlyInsertsEnqueue(rows: SqlOutbox.Table, op: MemoryOutbox.Op, k: string)
    requires !op.OpEnqueue?
    ensures !SqlOutbox.SqlEventOf(rows, op, k).Enqueue?
  {
  }

  /** The nightly cleanup, which deletes the rows delivered more than thirty days ago, is a retention step. */
  lemma RetentionIsAStep(s: World, rows: SqlOutbox.Table)
    requires ShowsTable(s.outbox, rows)
    ensures var keys := SqlOutbox.ExpirableKeys(rows, s.now);
            var r := Apply(KeyLife.Postgres, s, Retain(keys));
            r.Some? && ShowsTable(r.value.outbox, SqlOutbox.Deleted(rows, keys))
  {
    hide SqlOutbox.SqlStatus, SqlOutbox.DeliveryTime, SqlOutbox.ContentIn, SqlOutbox.Deleted, SqlOutbox.Keyed, SqlOutbox.ExpirableKeys;
    var keys := SqlOutbox.ExpirableKeys(rows, s.now);
    forall k ensures
      && SqlOutbox.SqlStatus(SqlOutbox.Deleted(rows, keys), k) == (if k in keys then KeyLife.Absent else SqlOutbox.SqlStatus(rows, k))
      && SqlOutbox.DeliveryTime(SqlOutbox.Deleted(rows, keys), k) == (if k in keys then None else SqlOutbox.DeliveryTime(rows, k))
      && SqlOutbox.ContentIn(SqlOutbox.Deleted(rows, keys), k) == (if k in keys then None else SqlOutbox.ContentIn(rows, k))
    {
      SqlOutbox.DeletedRows(rows, keys, k);
    }
    forall k | k in keys ensures k in s.outbox && Retirable(s.outbox[k], s.now) {
      SqlOutbox.ExpirableRow(rows, s.now, k);
    }
    SqlOutbox.DeletionStaysKeyed(rows, keys);
  }

  /** What an insertion leaves of a key's row. */
  lemma PutRow(b: Backend, s: World, w: nat, key: string, body: string, k: string)
    requires NoneAbsent(s.outbox)
    ensures var t := Put(b, s, w, key, body);
            && StatusIn(t.outbox, k) == KeyLife.Next(b, StatusIn(s.outbox, k), if k == key then KeyLife.Enqueue(0, None) else KeyLife.Nothing)
            && StampIn(t.outbox, k) == StampIn(s.outbox, k)
            && BodyIn(t.outbox, k) == (if k == key && BodyIn(s.outbox, k).None? then Some(body) else BodyIn(s.outbox, k))
            && (k in t.outbox ==> !t.outbox[k].Status().Absent?)
  {
  }

  /** A worker's enqueue is the in-memory enqueue, and the SQL insert. */
  lemma EnqueueIsAPut(s: World, w: nat, key: string, body: string, box: MemoryOutbox.Box, m: MemoryOutbox.Message)
    requires ShowsBox(s.outbox, box) && m.key == key && m.body == body && m.attempts == 0 && m.availableAt.None?
    ensures ShowsBox(Put(KeyLife.InMemory, s, w, key, body).outbox, MemoryOutbox.Apply(box, MemoryOutbox.OpEnqueue(m)))
  {
    hide MemoryOutbox.StatusOf, MemoryOutbox.ContentOf, MemoryOutbox.WellFormed, MemoryOutbox.Places, MemoryOutbox.Apply,
         KeyLife.MemNext, Put, StatusIn, StampIn, BodyIn;
    var op := MemoryOutbox.OpEnqueue(m);
    var t := Put(KeyLife.InMemory, s, w, key, body);
    forall k ensures
      && MemoryOutbox.StatusOf(MemoryOutbox.Apply(box, op), k) == StatusIn(t.outbox, k)
      && BodyOf(MemoryOutbox.ContentOf(MemoryOutbox.Apply(box, op), k)) == BodyIn(t.outbox, k)
      && (k in t.outbox ==> !t.outbox[k].Status().Absent?)
    {
      MemoryOutbox.EveryKeyMoves(box, op, k);
      PutRow(KeyLife.InMemory, s, w, key, body, k);
    }
    MemoryOutbox.StaysWellFormed(box, op);
  }

  lemma InsertIsAPut(s: World, w: nat, key: string, body: string, rows: SqlOutbox.Table, m: MemoryOutbox.Message)
    requires ShowsTable(s.outbox, rows) && m.key == key && m.body == body && m.availableAt.None?
    ensures ShowsTable(Put(KeyLife.Postgres, s, w, key, body).outbox, SqlOutbox.SqlApply(rows, MemoryOutbox.OpEnqueue(m)))
  {
    hide SqlOutbox.SqlStatus, SqlOutbox.DeliveryTime, SqlOutbox.ContentIn, SqlOutbox.Keyed, SqlOutbox.SqlApply,
         KeyLife.MemNext, Put, StatusIn, StampIn, BodyIn;
    var op := MemoryOutbox.OpEnqueue(m);
    var t := Put(KeyLife.Postgres, s, w, key, body);
    forall k ensures
      && SqlOutbox.SqlStatus(SqlOutbox.SqlApply(rows, op), k) == StatusIn(t.outbox, k)
      && SqlOutbox.DeliveryTime(SqlOutbox.SqlApply(rows, op), k) == StampIn(t.outbox, k)
      && BodyOf(SqlOutbox.ContentIn(SqlOutbox.SqlApply(rows, op), k)) == BodyIn(t.outbox, k)
      && (k in t.outbox ==> !t.outbox[k].Status().Absent?)
    {
      SqlOutbox.EveryRowMoves(rows, op, k);
      SqlOutbox.EveryTimeMoves(rows, op, k);
      PutRow(KeyLife.Postgres, s, w, key, body, k);
    }
    SqlOutbox.StaysKeyed(rows, op);
  }
}

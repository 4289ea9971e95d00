/** The exactly-once turn protocol: any number of workers over one idempotency table, one conversation
  * table and one outbox, interleaved at store operations, with exceptions and crashes anywhere.
  *
  * Every store operation is one atomic step. `Backend` picks the in-memory or the SQL semantics, so
  * each theorem holds for both.
  */
module TurnProtocol {
  import opened Wrappers
  import opened Machine
  import Conversations = ConversationStore
  import Idempotency = IdempotencyStore
  import KeyLife
  import SqlOutbox
  import Text

  type Backend = KeyLife.Backend

  datatype Envelope = Envelope(key: string, conversation: string)

  /** Where a worker is inside `TurnService.handle`.
    *   Claimed    the idempotency claim succeeded, nothing is loaded yet
    *   Loaded     the conversation is loaded
    *   Saved      the conversation save succeeded
    *   Enqueued   the reply was handed to the outbox
    *   Failing    an exception is on its way to the handler that releases the claim
    *   Shed       an abuse control released the claim; nothing more touches a store
    *   Raised     the exception left `handle`, with the claim released or (release failed) kept
    *   Crashed    the process died; no handler ran */
  datatype Phase =
    | Claimed | Loaded | Saved | Enqueued | Failing | Shed | Finished | Duplicate | Raised(released: bool) | Crashed

  datatype Worker = Worker(env: Envelope, phase: Phase, loaded: Option<Snapshot>, saved: Option<Snapshot>)

  /** A reply row, what has happened to it since it was inserted, and when a delivery was last recorded on it. */
  datatype Reply = Reply(author: nat, body: string, life: seq<KeyLife.Change>, deliveredAt: Option<int>) {
    function Status(): KeyLife.Status {
      KeyLife.EndOf(life)
    }
  }

  datatype SaveRecord = SaveRecord(worker: nat, before: Snapshot, after: Snapshot)

  /** The reply keys leased in one relay step, and how many saves there were before it. */
  datatype Batch = Batch(keys: set<string>, saves: nat)

  /** What has happened, beyond what the stores remember.
    *   lapsed     workers whose claim expired and was retaken or swept
    *   enqueuers  workers that got as far as a deliverable enqueue
    *   inserted   how often a reply row was inserted, per key
    *   retired    how often retention deleted one
    *   leases     what relays leased, in order */
  datatype History = History(lapsed: set<nat>, enqueuers: set<nat>, inserted: multiset<string>, retired: multiset<string>,
                             leases: seq<Batch>)

  /** `owners`, `saves` and `history` are history: no step reads them to decide anything. `owners` remembers who
    * made the live claim (the table itself has no such column). */
  datatype World = World(
    now: int,
    claims: Idempotency.Table,
    owners: map<string, nat>,
    conversations: Conversations.Table,
    outbox: map<string, Reply>,
    workers: map<nat, Worker>,
    saves: seq<SaveRecord>,
    history: History)

  datatype Step =
    | Arrive(w: nat, env: Envelope)
    | Load(w: nat)
    | Save(w: nat, path: TurnPath)
    | IgnoreSelection(w: nat)
    | ShedTurn(w: nat)
    | Enqueue(w: nat, body: string)
    | Return(w: nat)
    | Raise(w: nat)
    | Release(w: nat)
    | ReleaseFails(w: nat)
    | Crash(w: nat)
    | Tick(to: int)
    | Sweep
    | Relay(events: map<string, KeyLife.Event>)
    | Retain(keys: set<string>)

  predicate InTurn(phase: Phase) {
    phase.Claimed? || phase.Loaded? || phase.Saved? || phase.Enqueued? || phase.Failing?
  }

  function ClaimOn(b: Backend, claims: Idempotency.Table, key: string, now: int): (bool, Idempotency.Table) {
    match b
    case InMemory => Idempotency.MemClaim(claims, key, Idempotency.TTL_SECONDS, now)
    case Postgres => Idempotency.SqlClaim(claims, key, Idempotency.TTL_SECONDS, now)
  }

  function LoadOn(b: Backend, t: Conversations.Table, conversation: string): Snapshot {
    match b
    case InMemory => Conversations.MemLoad(t, conversation)
    case Postgres => Conversations.SqlLoad(t, conversation)
  }

  function SaveOn(b: Backend, t: Conversations.Table, s: Snapshot, expected: nat): Result<Conversations.Table, Conversations.LockError> {
    match b
    case InMemory => Conversations.MemSave(t, s, expected)
    case Postgres => Conversations.SqlSave(t, s, expected)
  }

  const MAX_DEDUP_KEY := 128

  function ReplyKey(key: string): string {
    "reply:" + key
  }

  lemma ReplyKeysDiffer(j: string, k: string)
    requires ReplyKey(j) == ReplyKey(k)
    ensures j == k
  {
    assert j == ReplyKey(j)[6..];
  }

  /** The delivery contract refuses long dedup keys and empty bodies before anything is stored. */
  predicate Deliverable(key: string, body: string) {
    |ReplyKey(key)| <= MAX_DEDUP_KEY && !Text.Blank(body)
  }

  function At(s: World, w: nat, phase: Phase): World
    requires w in s.workers
  {
    s.(workers := s.workers[w := s.workers[w].(phase := phase)])
  }

  function WithoutClaim(s: World, key: string): World {
    s.(claims := Idempotency.Released(s.claims, key), owners := s.owners - {key})
  }

  /** The assumption on time: no claim expires while the worker that made it is still in its turn. */
  predicate HeldClaimsOutlive(s: World, to: int) {
    forall w :: w in s.workers && InTurn(s.workers[w].phase) ==>
      s.workers[w].env.key in s.claims && s.claims[s.workers[w].env.key] > to
  }

  function Lapsing(h: History, owners: set<nat>): History {
    h.(lapsed := h.lapsed + owners)
  }

  /** A row's life starts with its insertion, attempts at zero and due at once. */
  function Born(b: Backend): seq<KeyLife.Change> {
    var e := KeyLife.Enqueue(0, None);
    [KeyLife.Change(KeyLife.Absent, e, KeyLife.Next(b, KeyLife.Absent, e))]
  }

  /** Insert the reply unless its key is taken. */
  function Put(b: Backend, s: World, w: nat, key: string, body: string): World {
    var h := s.history.(enqueuers := s.history.enqueuers + {w});
    if key in s.outbox then s.(history := h)
    else s.(outbox := s.outbox[key := Reply(w, body, Born(b), None)], history := h.(inserted := h.inserted + multiset{key}))
  }

  /** A relay operation means one event for each row it touches: claiming a batch, a verdict on one row, a reclaim. */
  predicate RelayPossible(outbox: map<string, Reply>, events: map<string, KeyLife.Event>) {
    forall k :: k in events ==> k in outbox && !events[k].Enqueue? && KeyLife.Possible(outbox[k].Status(), events[k])
  }

  function Moved(b: Backend, r: Reply, e: KeyLife.Event, now: int): Reply {
    r.(life := r.life + [KeyLife.Change(r.Status(), e, KeyLife.Next(b, r.Status(), e))],
       deliveredAt := if e.Deliver? then Some(now) else r.deliveredAt)
  }

  function Relayed(b: Backend, outbox: map<string, Reply>, events: map<string, KeyLife.Event>, now: int): map<string, Reply> {
    map k | k in outbox :: if k in events then Moved(b, outbox[k], events[k], now) else outbox[k]
  }

  /** Retention takes delivered rows whose delivery is more than thirty days back. */
  predicate Retirable(r: Reply, now: int) {
    r.Status().Delivered? && r.deliveredAt.Some? && r.deliveredAt.value < now - SqlOutbox.RETENTION_SECONDS
  }

  function LeasedIn(events: map<string, KeyLife.Event>): set<string> {
    set k | k in events && events[k].Claim?
  }

  /** One step, or None when it is not possible in `s`. Relays and retention act on reply rows only; a relay may hold
    * a stale lease, and give a verdict on any row. */
  function Apply(b: Backend, s: World, step: Step): Option<World> {
    match step
    case Arrive(w, env) =>
      if w in s.workers then None
      else
        var (won, claims) := ClaimOn(b, s.claims, env.key, s.now);
        if won then
          Some(s.(claims := claims, owners := s.owners[env.key := w],
                  workers := s.workers[w := Worker(env, Claimed, None, None)],
                  history := Lapsing(s.history, if env.key in s.owners then {s.owners[env.key]} else {})))
        else
          Some(s.(claims := claims, workers := s.workers[w := Worker(env, Duplicate, None, None)]))
    case Load(w) =>
      if w in s.workers && s.workers[w].phase.Claimed? then
        var x := s.workers[w];
        var loaded := LoadOn(b, s.conversations, x.env.conversation);
        Some(s.(workers := s.workers[w := x.(phase := Loaded, loaded := Some(loaded))]))
      else None
    case Save(w, path) =>
      if w in s.workers && s.workers[w].phase.Loaded? && s.workers[w].loaded.Some? &&
         ReachesSave(s.workers[w].loaded.value, path) then
        var x := s.workers[w];
        var before := x.loaded.value;
        var after := AfterTurn(before, path);
        match SaveOn(b, s.conversations, after, before.lockVersion)
        case Err(_) => Some(At(s, w, Failing))
        case Ok(conversations) =>
          Some(s.(conversations := conversations, saves := s.saves + [SaveRecord(w, before, after)],
                  workers := s.workers[w := x.(phase := Saved, saved := Some(after))]))
      else None
    case IgnoreSelection(w) =>
      if w in s.workers && s.workers[w].phase.Loaded? && s.workers[w].loaded.Some? &&
         !ReachesSave(s.workers[w].loaded.value, Selection) then Some(At(s, w, Finished))
      else None
    case ShedTurn(w) =>
      if w in s.workers && s.workers[w].phase.Loaded? then
        Some(WithoutClaim(At(s, w, Shed), s.workers[w].env.key))
      else None
    case Enqueue(w, body) =>
      if w in s.workers && s.workers[w].phase.Saved? then
        var key := ReplyKey(s.workers[w].env.key);
        if !Deliverable(s.workers[w].env.key, body) then Some(At(s, w, Failing))
        else Some(Put(b, At(s, w, Enqueued), w, key, body))
      else None
    case Return(w) =>
      if w in s.workers && s.workers[w].phase.Enqueued? then Some(At(s, w, Finished)) else None
    case Raise(w) =>
      if w in s.workers && InTurn(s.workers[w].phase) && !s.workers[w].phase.Failing? then Some(At(s, w, Failing)) else None
    case Release(w) =>
      if w in s.workers && s.workers[w].phase.Failing? then
        Some(WithoutClaim(At(s, w, Raised(true)), s.workers[w].env.key))
      else None
    case ReleaseFails(w) =>
      if w in s.workers && s.workers[w].phase.Failing? then Some(At(s, w, Raised(false))) else None
    case Crash(w) =>
      if w in s.workers && InTurn(s.workers[w].phase) then Some(At(s, w, Crashed)) else None
    case Tick(to) =>
      if s.now <= to && HeldClaimsOutlive(s, to) then Some(s.(now := to)) else None
    case Sweep =>
      var live := map k | k in s.claims && s.claims[k] >= s.now :: s.claims[k];
      Some(s.(claims := live, owners := map k | k in s.owners && k in live :: s.owners[k],
              history := Lapsing(s.history, set k | k in s.owners && k !in live :: s.owners[k])))
    case Relay(events) =>
      if RelayPossible(s.outbox, events) then
        Some(s.(outbox := Relayed(b, s.outbox, events, s.now),
                history := s.history.(leases := s.history.leases + [Batch(LeasedIn(events), |s.saves|)])))
      else None
    case Retain(keys) =>
      if forall k :: k in keys ==> k in s.outbox && Retirable(s.outbox[k], s.now) then
        Some(s.(outbox := s.outbox - keys, history := s.history.(retired := s.history.retired + multiset(keys))))
      else None
  }

  const NOTHING := History({}, {}, multiset{}, multiset{}, [])

  function Start(now: int): World {
    World(now, map[], map[], map[], map[], map[], [], NOTHING)
  }

  /** Run a schedule of steps; None when some step is not possible. */
  function Run(b: Backend, s: World, steps: seq<Step>): Option<World>
    decreases |steps|
  {
    if steps == [] then Some(s)
    else
      match Apply(b, s, steps[0])
      case None => None
      case Some(next) => Run(b, next, steps[1..])
  }

  // ---------------------------------------------------------------- invariants

  type Workers = map<nat, Worker>

  /** A worker in a turn holds an unexpired claim on its key, and that claim is its own. */
  ghost predicate Holds(now: int, claims: Idempotency.Table, owners: map<string, nat>, w: nat, x: Worker) {
    InTurn(x.phase) ==>
      x.env.key in claims && claims[x.env.key] > now && x.env.key in owners && owners[x.env.key] == w
  }

  ghost predicate Holding(s: World) {
    forall w :: w in s.workers ==> Holds(s.now, s.claims, s.owners, w, s.workers[w])
  }

  predicate KeepsClaim(phase: Phase) {
    InTurn(phase) || phase.Finished? || phase.Crashed? || (phase.Raised? && !phase.released)
  }

  /** The claim on `key` was made by a worker on that key that has not given it up. */
  ghost predicate OwnedBy(workers: Workers, key: string, w: nat) {
    w in workers && workers[w].env.key == key && KeepsClaim(workers[w].phase)
  }

  ghost predicate Owned(s: World) {
    s.owners.Keys == s.claims.Keys && forall k :: k in s.owners ==> OwnedBy(s.workers, k, s.owners[k])
  }

  ghost predicate Current(t: Conversations.Table, loaded: Snapshot) {
    var stored := Conversations.MemLoad(t, loaded.conversation);
    loaded.lockVersion <= stored.lockVersion &&
    (loaded.lockVersion == stored.lockVersion ==> Conversations.Core(loaded) == Conversations.Core(stored))
  }

  /** A loaded snapshot is never ahead of the stored one, and equal versions mean equal contents. */
  ghost predicate Loads(t: Conversations.Table, x: Worker) {
    x.phase.Loaded? ==>
      x.loaded.Some? && x.loaded.value.conversation == x.env.conversation && Current(t, x.loaded.value)
  }

  ghost predicate Loading(s: World) {
    forall w :: w in s.workers ==> Loads(s.conversations, s.workers[w])
  }

  ghost predicate InLog(saves: seq<SaveRecord>, w: nat, after: Snapshot) {
    exists i :: 0 <= i < |saves| && saves[i].worker == w && saves[i].after == after
  }

  /** Before the save nothing is saved, after it the saved snapshot is in the log. */
  ghost predicate Logs(saves: seq<SaveRecord>, w: nat, x: Worker) {
    && (x.phase.Claimed? || x.phase.Loaded? ==> x.saved.None?)
    && (x.phase.Saved? || x.phase.Enqueued? ==> x.saved.Some?)
    && (x.saved.Some? ==> InLog(saves, w, x.saved.value))
  }

  ghost predicate Logged(s: World) {
    forall w :: w in s.workers ==> Logs(s.saves, w, s.workers[w])
  }

  /** A worker that saved and got past its enqueue, or returned, has had its reply in the outbox. */
  ghost predicate Answered(inserted: multiset<string>, x: Worker) {
    x.saved.Some? && (x.phase.Enqueued? || x.phase.Finished?) ==> ReplyKey(x.env.key) in inserted
  }

  ghost predicate Answering(s: World) {
    forall w :: w in s.workers ==> Answered(s.history.inserted, s.workers[w])
  }

  /** Every row inserted is still there or was retired. */
  ghost predicate Counted(outbox: map<string, Reply>, h: History) {
    forall k :: h.inserted[k] == h.retired[k] + (if k in outbox then 1 else 0)
  }

  /** A reply row is deliverable and was written by a worker on its key that had saved first. */
  ghost predicate WrittenBy(workers: Workers, key: string, author: nat) {
    |key| <= MAX_DEDUP_KEY && author in workers && ReplyKey(workers[author].env.key) == key && workers[author].saved.Some?
  }

  ghost predicate Replying(s: World) {
    forall k :: k in s.outbox ==> WrittenBy(s.workers, k, s.outbox[k].author)
  }

  function LastSaved(saves: seq<SaveRecord>, conversation: string): Snapshot {
    if saves == [] then Fresh(conversation)
    else if saves[|saves| - 1].after.conversation == conversation then saves[|saves| - 1].after
    else LastSaved(saves[..|saves| - 1], conversation)
  }

  ghost predicate Extends(earlier: seq<SaveRecord>, record: SaveRecord) {
    && record.after.conversation == record.before.conversation
    && Conversations.Core(record.before) == Conversations.Core(LastSaved(earlier, record.before.conversation))
    && (record.after.lockVersion > record.before.lockVersion || record.after == record.before)
  }

  /** The save log is one linear history per conversation: each save started from exactly what the
    * previous one stored, and raised the version or changed nothing. */
  ghost predicate Linear(saves: seq<SaveRecord>) {
    forall i :: 0 <= i < |saves| ==> Extends(saves[..i], saves[i])
  }

  ghost predicate StoredIs(t: Conversations.Table, conversation: string, last: Snapshot) {
    Conversations.Core(Conversations.MemLoad(t, conversation)) == Conversations.Core(last)
  }

  /** The conversation table is versioned and agrees with the log, and the log is linear. */
  ghost predicate StoresOk(t: Conversations.Table, saves: seq<SaveRecord>) {
    && Conversations.Versioned(t)
    && Linear(saves)
    && forall c :: StoredIs(t, c, LastSaved(saves, c))
  }

  ghost predicate Inv(s: World) {
    && Holding(s) && Owned(s) && Loading(s) && Logged(s) && Answering(s) && Replying(s) && Counted(s.outbox, s.history)
    && StoresOk(s.conversations, s.saves)
  }

  // ----------------------------------------------- steps that touch no conversation

  /** Two workers in a turn have different keys. */
  lemma HoldersDiffer(s: World, v: nat, w: nat)
    requires Holding(s) && v in s.workers && w in s.workers
    requires InTurn(s.workers[v].phase) && InTurn(s.workers[w].phase)
    requires s.workers[v].env.key == s.workers[w].env.key
    ensures v == w
  {
    assert Holds(s.now, s.claims, s.owners, v, s.workers[v]);
    assert Holds(s.now, s.claims, s.owners, w, s.workers[w]);
  }

  ghost predicate WorkerOk(s: World, w: nat, x: Worker) {
    && Holds(s.now, s.claims, s.owners, w, x) && Loads(s.conversations, x)
    && Logs(s.saves, w, x) && Answered(s.history.inserted, x)
  }

  /** Replacing one worker's record by one that is in order, still on its key, keeping its claim and
    * what it saved, keeps the invariant. */
  lemma ReplaceWorkerKeeps(s: World, w: nat, x: Worker)
    requires Inv(s) && w in s.workers && WorkerOk(s, w, x)
    requires x.env == s.workers[w].env && x.saved == s.workers[w].saved && KeepsClaim(x.phase)
    ensures Inv(s.(workers := s.workers[w := x]))
  {
    hide Holds, Loads, Logs, Answered, KeepsClaim, StoresOk, ReplyKey;
    var s' := s.(workers := s.workers[w := x]);
    forall k | k in s.owners ensures OwnedBy(s'.workers, k, s'.owners[k]) {
      assert OwnedBy(s.workers, k, s.owners[k]);
    }
    forall k | k in s.outbox ensures WrittenBy(s'.workers, k, s'.outbox[k].author) {
      assert WrittenBy(s.workers, k, s.outbox[k].author);
    }
  }

  lemma WorkerInOrder(s: World, w: nat)
    requires Inv(s) && w in s.workers
    ensures WorkerOk(s, w, s.workers[w])
  {
    hide Holds, Loads, Logs, Answered, StoresOk, OwnedBy, WrittenBy;
  }

  /** Steps that only move one worker to a later phase. */
  lemma MoveKeeps(s: World, w: nat, phase: Phase)
    requires Inv(s) && w in s.workers && InTurn(s.workers[w].phase)
    requires phase.Failing? || phase.Finished? || phase.Crashed? || (phase.Raised? && !phase.released)
    requires phase.Finished? && s.workers[w].saved.Some? ==> ReplyKey(s.workers[w].env.key) in s.history.inserted
    ensures Inv(At(s, w, phase))
  {
    hide Inv, StoresOk, Current, InLog, ReplyKey;
    WorkerInOrder(s, w);
    ReplaceWorkerKeeps(s, w, s.workers[w].(phase := phase));
  }

  lemma LoadKeeps(b: Backend, s: World, w: nat)
    requires Inv(s) && Apply(b, s, Load(w)).Some?
    ensures Inv(Apply(b, s, Load(w)).value)
  {
    var x := s.workers[w];
    var loaded := LoadOn(b, s.conversations, x.env.conversation);
    LoadIsCurrent(b, s.conversations, x.env.conversation, s.saves);
    WorkerInOrder(s, w);
    hide Inv, StoresOk, Current, InLog, ReplyKey, LoadOn;
    ReplaceWorkerKeeps(s, w, x.(phase := Loaded, loaded := Some(loaded)));
  }

  lemma LoadIsCurrent(b: Backend, t: Conversations.Table, conversation: string, saves: seq<SaveRecord>)
    requires StoresOk(t, saves)
    ensures LoadOn(b, t, conversation).conversation == conversation
    ensures Current(t, LoadOn(b, t, conversation))
  {
    hide Linear, LastSaved, StoredIs;
  }

  /** Giving up a claim: nobody else in a turn is on that key. */
  lemma ReleaseKeeps(s: World, w: nat, phase: Phase)
    requires Inv(s) && w in s.workers && InTurn(s.workers[w].phase)
    requires phase.Shed? || (phase.Raised? && phase.released)
    ensures Inv(WithoutClaim(At(s, w, phase), s.workers[w].env.key))
  {
    hide Holds, Loads, Logs, Answered, StoresOk, ReplyKey;
    var key := s.workers[w].env.key;
    var s' := WithoutClaim(At(s, w, phase), key);
    ReleasedWorkers(s, w, phase);
    forall k | k in s'.owners ensures OwnedBy(s'.workers, k, s'.owners[k]) {
      assert OwnedBy(s.workers, k, s.owners[k]);
    }
    forall k | k in s.outbox ensures WrittenBy(s'.workers, k, s'.outbox[k].author) {
      assert WrittenBy(s.workers, k, s.outbox[k].author);
    }
  }

  lemma ReleasedWorkers(s: World, w: nat, phase: Phase)
    requires Inv(s) && w in s.workers && InTurn(s.workers[w].phase)
    requires phase.Shed? || (phase.Raised? && phase.released)
    ensures var s' := WithoutClaim(At(s, w, phase), s.workers[w].env.key);
            forall v :: v in s'.workers ==> WorkerOk(s', v, s'.workers[v])
  {
    hide StoresOk, Current, InLog, ReplyKey, OwnedBy, WrittenBy;
    var key := s.workers[w].env.key;
    var s' := WithoutClaim(At(s, w, phase), key);
    forall v | v in s'.workers ensures WorkerOk(s', v, s'.workers[v]) {
      WorkerInOrder(s, v);
      if v != w && InTurn(s.workers[v].phase) && s.workers[v].env.key == key {
        HoldersDiffer(s, v, w);
      }
    }
  }

  /** A winning claim overwrites only an expired one, which nobody in a turn holds. */
  lemma ArriveKeeps(b: Backend, s: World, w: nat, env: Envelope)
    requires Inv(s) && Apply(b, s, Arrive(w, env)).Some?
    ensures Inv(Apply(b, s, Arrive(w, env)).value)
  {
    hide Holds, Loads, Logs, Answered, StoresOk, ReplyKey, ClaimOn, OwnedBy, WrittenBy;
    var s' := Apply(b, s, Arrive(w, env)).value;
    ArrivedWorkers(b, s, w, env);
    ClaimOutcome(b, s.claims, env.key, s.now);
    ArrivedOwners(b, s, w, env);
  }

  /** What an arrival changes. */
  lemma ArrivalShape(b: Backend, s: World, w: nat, env: Envelope)
    requires Apply(b, s, Arrive(w, env)).Some?
    ensures var t := Apply(b, s, Arrive(w, env)).value;
            var (won, claims) := ClaimOn(b, s.claims, env.key, s.now);
            && w !in s.workers && t.outbox == s.outbox && t.claims == claims
            && t.owners == (if won then s.owners[env.key := w] else s.owners)
            && t.workers == s.workers[w := Worker(env, if won then Claimed else Duplicate, None, None)]
            && (won ==> claims == s.claims[env.key := s.now + Idempotency.TTL_SECONDS]) && (!won ==> claims == s.claims)
  {
    ClaimOutcome(b, s.claims, env.key, s.now);
    hide ClaimOn, Lapsing;
  }

  lemma ArrivedOwners(b: Backend, s: World, w: nat, env: Envelope)
    requires Inv(s) && Apply(b, s, Arrive(w, env)).Some?
    ensures Owned(Apply(b, s, Arrive(w, env)).value) && Replying(Apply(b, s, Arrive(w, env)).value)
  {
    var s' := Apply(b, s, Arrive(w, env)).value;
    ArrivalShape(b, s, w, env);
    hide Apply, Holding, Loading, Logged, Answering, StoresOk, ReplyKey, ClaimOn, Counted, OwnedBy, WrittenBy;
    forall k | k in s'.owners ensures OwnedBy(s'.workers, k, s'.owners[k]) {
      if k in s.owners && s'.owners[k] == s.owners[k] {
        assert OwnedBy(s.workers, k, s.owners[k]);
        OwnerStays(s.workers, s'.workers, k, s.owners[k], w);
      } else {
        NewOwner(s'.workers, k, w);
      }
    }
    forall k | k in s.outbox ensures WrittenBy(s'.workers, k, s'.outbox[k].author) {
      assert WrittenBy(s.workers, k, s.outbox[k].author);
      WriterStays(s.workers, s'.workers, k, s.outbox[k].author, w);
    }
  }

  lemma OwnerStays(was: Workers, workers: Workers, k: string, v: nat, w: nat)
    requires OwnedBy(was, k, v) && w !in was && w in workers && workers == was[w := workers[w]]
    ensures OwnedBy(workers, k, v)
  {
  }

  lemma NewOwner(workers: Workers, k: string, w: nat)
    requires w in workers && workers[w].env.key == k && workers[w].phase.Claimed?
    ensures OwnedBy(workers, k, w)
  {
  }

  lemma WriterStays(was: Workers, workers: Workers, k: string, v: nat, w: nat)
    requires WrittenBy(was, k, v) && w !in was && w in workers && workers == was[w := workers[w]]
    ensures WrittenBy(workers, k, v)
  {
    hide ReplyKey;
  }

  lemma ClaimOutcome(b: Backend, claims: Idempotency.Table, key: string, now: int)
    ensures var (won, claims') := ClaimOn(b, claims, key, now);
            && (won ==> claims' == claims[key := now + Idempotency.TTL_SECONDS] && (key in claims ==> claims[key] <= now))
            && (!won ==> claims' == claims)
  {
  }

  lemma ArrivedWorkers(b: Backend, s: World, w: nat, env: Envelope)
    requires Inv(s) && Apply(b, s, Arrive(w, env)).Some?
    ensures var s' := Apply(b, s, Arrive(w, env)).value;
            forall v :: v in s'.workers ==> WorkerOk(s', v, s'.workers[v])
  {
    hide StoresOk, Current, InLog, ReplyKey, OwnedBy, WrittenBy, ClaimOn;
    var s' := Apply(b, s, Arrive(w, env)).value;
    ClaimOutcome(b, s.claims, env.key, s.now);
    forall v | v in s'.workers ensures WorkerOk(s', v, s'.workers[v]) {
      if v != w {
        WorkerInOrder(s, v);
      }
    }
  }

  lemma EnqueueKeeps(b: Backend, s: World, w: nat, body: string)
    requires Inv(s) && Apply(b, s, Enqueue(w, body)).Some?
    ensures Inv(Apply(b, s, Enqueue(w, body)).value)
  {
    hide Inv, StoresOk, Current, InLog, ReplyKey, Put;
    var x := s.workers[w];
    if !Deliverable(x.env.key, body) {
      MoveKeeps(s, w, Failing);
    } else {
      WorkerInOrder(s, w);
      var key := ReplyKey(x.env.key);
      PutKeeps(b, s, w, key, body);
      CountsOk(s);
      var stored := Put(b, s, w, key, body);
      PutFrame(b, s, w, key, body, Enqueued);
      assert WorkerOk(stored, w, x.(phase := Enqueued));
      ReplaceWorkerKeeps(stored, w, x.(phase := Enqueued));
    }
  }

  lemma PutFrame(b: Backend, s: World, w: nat, key: string, body: string, phase: Phase)
    requires w in s.workers && Counted(s.outbox, s.history)
    ensures var stored := Put(b, s, w, key, body);
            && stored.workers == s.workers && stored.now == s.now && stored.claims == s.claims && stored.owners == s.owners
            && stored.conversations == s.conversations && stored.saves == s.saves && key in stored.history.inserted
            && Put(b, At(s, w, phase), w, key, body) == stored.(workers := s.workers[w := s.workers[w].(phase := phase)])
  {
    assert s.history.inserted[key] == s.history.retired[key] + (if key in s.outbox then 1 else 0);
  }

  lemma PutKeeps(b: Backend, s: World, w: nat, key: string, body: string)
    requires Inv(s) && WrittenBy(s.workers, key, w)
    ensures Inv(Put(b, s, w, key, body))
  {
    hide Holds, Loads, Logs, StoresOk, ReplyKey, OwnedBy, WrittenBy, Born, Counted;
    PutCounts(b, s, w, key, body);
    forall v | v in s.workers ensures Answered(Put(b, s, w, key, body).history.inserted, s.workers[v]) {
      assert Answered(s.history.inserted, s.workers[v]);
    }
  }

  lemma PutCounts(b: Backend, s: World, w: nat, key: string, body: string)
    requires Counted(s.outbox, s.history)
    ensures Counted(Put(b, s, w, key, body).outbox, Put(b, s, w, key, body).history)
  {
    hide Born, Counted;
    if key !in s.outbox {
      InsertCounts(s.outbox, s.history, key, Reply(w, body, Born(b), None));
    }
    SameCounts(Put(b, s, w, key, body).outbox, s.history.(inserted := Put(b, s, w, key, body).history.inserted), Put(b, s, w, key, body).history);
  }

  lemma InsertCounts(outbox: map<string, Reply>, h: History, key: string, r: Reply)
    requires Counted(outbox, h) && key !in outbox
    ensures Counted(outbox[key := r], h.(inserted := h.inserted + multiset{key}))
  {
    forall k ensures (h.inserted + multiset{key})[k] == h.retired[k] + (if k in outbox[key := r] then 1 else 0) {
      assert h.inserted[k] == h.retired[k] + (if k in outbox then 1 else 0);
    }
  }

  lemma SameCounts(outbox: map<string, Reply>, g: History, h: History)
    requires Counted(outbox, g) && h.inserted == g.inserted && h.retired == g.retired
    ensures Counted(outbox, h)
  {
  }

  lemma CountsOk(s: World)
    requires Inv(s)
    ensures Counted(s.outbox, s.history)
  {
  }

  /** What relays and retention do to the outbox keeps the invariant. */
  lemma OutboxKeeps(b: Backend, s: World, step: Step)
    requires Inv(s) && (step.Relay? || step.Retain?) && Apply(b, s, step).Some?
    ensures Inv(Apply(b, s, step).value)
  {
    hide Holds, Loads, Logs, Answered, StoresOk, ReplyKey, OwnedBy, WrittenBy, Relayed, LeasedIn, Counted;
    var t := Apply(b, s, step).value;
    if step.Relay? {
      RelayedAuthors(b, s.outbox, step.events, s.now);
      RelayCounts(s, t);
    } else {
      RetainCounts(s.outbox, s.history, step.keys);
    }
    forall k | k in t.outbox ensures WrittenBy(t.workers, k, t.outbox[k].author) {
      assert WrittenBy(s.workers, k, s.outbox[k].author);
    }
  }

  lemma RelayedAuthors(b: Backend, outbox: map<string, Reply>, events: map<string, KeyLife.Event>, now: int)
    ensures Relayed(b, outbox, events, now).Keys == outbox.Keys
    ensures forall k :: k in outbox ==>
      Relayed(b, outbox, events, now)[k].author == outbox[k].author && Relayed(b, outbox, events, now)[k].body == outbox[k].body
  {
    hide KeyLife.Next;
  }

  lemma RelayCounts(s: World, t: World)
    requires Counted(s.outbox, s.history) && t.outbox.Keys == s.outbox.Keys
    requires t.history.inserted == s.history.inserted && t.history.retired == s.history.retired
    ensures Counted(t.outbox, t.history)
  {
    forall k ensures t.history.inserted[k] == t.history.retired[k] + (if k in t.outbox then 1 else 0) {
      assert s.history.inserted[k] == s.history.retired[k] + (if k in s.outbox then 1 else 0);
    }
  }

  lemma RetainCounts(outbox: map<string, Reply>, h: History, keys: set<string>)
    requires Counted(outbox, h) && keys <= outbox.Keys
    ensures Counted(outbox - keys, h.(retired := h.retired + multiset(keys)))
  {
    forall k ensures h.inserted[k] == (h.retired + multiset(keys))[k] + (if k in outbox - keys then 1 else 0) {
      assert h.inserted[k] == h.retired[k] + (if k in outbox then 1 else 0);
    }
  }

  lemma ClockKeeps(b: Backend, s: World, step: Step)
    requires Inv(s) && (step.Tick? || step.Sweep?) && Apply(b, s, step).Some?
    ensures Inv(Apply(b, s, step).value)
  {
    hide Loads, Logs, Answered, StoresOk, ReplyKey, OwnedBy, WrittenBy;
  }

  // ------------------------------------------------------------------- the save

  ghost predicate SaveSucceeds(b: Backend, s: World, w: nat, path: TurnPath) {
    Apply(b, s, Save(w, path)).Some? && Apply(b, s, Save(w, path)).value.workers[w].phase.Saved?
  }

  /** The world after worker `w` stored the table `t`. */
  function Stored(s: World, w: nat, path: TurnPath, t: Conversations.Table): World
    requires w in s.workers && s.workers[w].loaded.Some?
  {
    var before := s.workers[w].loaded.value;
    var after := AfterTurn(before, path);
    s.(conversations := t, saves := s.saves + [SaveRecord(w, before, after)],
       workers := s.workers[w := s.workers[w].(phase := Saved, saved := Some(after))])
  }

  /** A successful save writes what `AfterTurn` makes of the worker's loaded snapshot. */
  lemma SaveUnfolds(b: Backend, s: World, w: nat, path: TurnPath)
    requires Apply(b, s, Save(w, path)).Some?
    ensures w in s.workers && s.workers[w].phase.Loaded? && s.workers[w].loaded.Some?
    ensures ReachesSave(s.workers[w].loaded.value, path)
    ensures var before := s.workers[w].loaded.value;
            var r := SaveOn(b, s.conversations, AfterTurn(before, path), before.lockVersion);
            && (SaveSucceeds(b, s, w, path) <==> r.Ok?)
            && (r.Err? ==> Apply(b, s, Save(w, path)).value == At(s, w, Failing))
            && (r.Ok? ==> Apply(b, s, Save(w, path)).value == Stored(s, w, path, r.value))
  {
    hide SaveOn, AfterTurn, ReachesSave;
  }

  /** What either backend's conditional save does to a reader's view of the table. */
  lemma SaveOutcome(b: Backend, t: Conversations.Table, after: Snapshot, expected: nat)
    requires Conversations.Versioned(t)
    ensures SaveOn(b, t, after, expected).Ok? <==> Conversations.MemLoad(t, after.conversation).lockVersion == expected
    ensures SaveOn(b, t, after, expected).Ok? ==>
              var t' := SaveOn(b, t, after, expected).value;
              && (forall c :: c != after.conversation ==> Conversations.MemLoad(t', c) == Conversations.MemLoad(t, c))
              && StoredIs(t', after.conversation, after)
              && (after.lockVersion >= 1 ==> Conversations.Versioned(t'))
  {
  }

  lemma SameCore(x: Snapshot, y: Snapshot)
    requires Conversations.Core(x) == Conversations.Core(y)
    ensures x.lockVersion == y.lockVersion && x.conversation == y.conversation && x.state == y.state
  {
    assert Conversations.Core(x).lockVersion == x.lockVersion;
    assert Conversations.Core(x).conversation == x.conversation;
    assert Conversations.Core(x).state == x.state;
  }

  /** No lost update: a save succeeds only when the stored snapshot is exactly the loaded one. */
  lemma SaveOnlyOnWhatWasLoaded(b: Backend, s: World, w: nat, path: TurnPath)
    requires Inv(s) && SaveSucceeds(b, s, w, path)
    ensures s.workers[w].loaded.Some? && s.workers[w].loaded.value.conversation == s.workers[w].env.conversation
    ensures StoredIs(s.conversations, s.workers[w].env.conversation, s.workers[w].loaded.value)
  {
    hide SaveOn, AfterTurn, Linear, LastSaved, Holds, Answered, OwnedBy, WrittenBy;
    SaveUnfolds(b, s, w, path);
    WorkerInOrder(s, w);
    var before := s.workers[w].loaded.value;
    AfterTurnKeepsConversation(before, path);
    SaveOutcome(b, s.conversations, AfterTurn(before, path), before.lockVersion);
  }

  lemma AfterTurnKeepsConversation(before: Snapshot, path: TurnPath)
    ensures AfterTurn(before, path).conversation == before.conversation
  {
    VersionCountsLegalSteps(before, TriggersOf(path));
  }

  /** Loads stay current when a save built on the stored snapshot goes through. */
  lemma CurrentAfterSave(t: Conversations.Table, t': Conversations.Table, before: Snapshot, after: Snapshot, loaded: Snapshot)
    requires Current(t, loaded) && StoredIs(t, before.conversation, before) && StoredIs(t', before.conversation, after)
    requires after.lockVersion > before.lockVersion || after == before
    requires loaded.conversation == before.conversation ||
             Conversations.MemLoad(t', loaded.conversation) == Conversations.MemLoad(t, loaded.conversation)
    ensures Current(t', loaded)
  {
    hide Conversations.MemLoad;
    SameCore(Conversations.MemLoad(t, before.conversation), before);
    SameCore(Conversations.MemLoad(t', before.conversation), after);
  }

  lemma LogGrows(saves: seq<SaveRecord>, record: SaveRecord, w: nat, x: Worker)
    requires Logs(saves, w, x)
    ensures Logs(saves + [record], w, x)
  {
    if x.saved.Some? {
      var i :| 0 <= i < |saves| && saves[i].worker == w && saves[i].after == x.saved.value;
      assert (saves + [record])[i] == saves[i];
    }
  }

  /** The worker's save keeps the tables, the log and their agreement. */
  lemma SaveKeepsStores(b: Backend, s: World, w: nat, path: TurnPath)
    requires Inv(s) && SaveSucceeds(b, s, w, path)
    ensures var s' := Apply(b, s, Save(w, path)).value; StoresOk(s'.conversations, s'.saves)
  {
    hide SaveOn, AfterTurn, Frozen, Holding, Owned, Loading, Logged, Answering, Replying;
    SaveUnfolds(b, s, w, path);
    SaveOnlyOnWhatWasLoaded(b, s, w, path);
    var before := s.workers[w].loaded.value;
    var after := AfterTurn(before, path);
    VersionAdvancesUnlessFrozen(before, path);
    SaveOutcome(b, s.conversations, after, before.lockVersion);
    SavedVersion(s.conversations, before, path);
    var record := SaveRecord(w, before, after);
    var t' := SaveOn(b, s.conversations, after, before.lockVersion).value;
    LinearGrows(s.saves, record);
    forall c ensures StoredIs(t', c, LastSaved(s.saves + [record], c)) {
      LastSavedGrows(s.saves, record, c);
      assert StoredIs(s.conversations, c, LastSaved(s.saves, c));
    }
  }

  lemma SavedVersion(t: Conversations.Table, before: Snapshot, path: TurnPath)
    requires Conversations.Versioned(t) && StoredIs(t, before.conversation, before) && ReachesSave(before, path)
    ensures AfterTurn(before, path).lockVersion >= 1
  {
    hide AfterTurn;
    VersionAdvancesUnlessFrozen(before, path);
    SameCore(Conversations.MemLoad(t, before.conversation), before);
  }

  lemma LastSavedGrows(saves: seq<SaveRecord>, record: SaveRecord, c: string)
    ensures LastSaved(saves + [record], c) == if record.after.conversation == c then record.after else LastSaved(saves, c)
  {
    assert (saves + [record])[..|saves|] == saves;
  }

  lemma LinearGrows(saves: seq<SaveRecord>, record: SaveRecord)
    requires Linear(saves) && Extends(saves, record)
    ensures Linear(saves + [record])
  {
    hide Extends;
    var longer := saves + [record];
    forall i | 0 <= i < |longer| ensures Extends(longer[..i], longer[i]) {
      assert longer[..i] == saves[..i];
      if i < |saves| {
        assert Extends(saves[..i], saves[i]);
      } else {
        assert saves[..i] == saves;
      }
    }
  }

  lemma SavedWorkers(b: Backend, s: World, w: nat, path: TurnPath)
    requires Inv(s) && SaveSucceeds(b, s, w, path)
    ensures var s' := Apply(b, s, Save(w, path)).value;
            forall v :: v in s'.workers ==> WorkerOk(s', v, s'.workers[v])
  {
    hide SaveOn, AfterTurn, Frozen, Current, StoresOk, InLog, StoredIs, ReplyKey, OwnedBy, WrittenBy;
    SaveUnfolds(b, s, w, path);
    SaveOnlyOnWhatWasLoaded(b, s, w, path);
    var before := s.workers[w].loaded.value;
    var after := AfterTurn(before, path);
    var s' := Apply(b, s, Save(w, path)).value;
    VersionAdvancesUnlessFrozen(before, path);
    StoresVersioned(s);
    SaveOutcome(b, s.conversations, after, before.lockVersion);
    forall v | v in s'.workers ensures WorkerOk(s', v, s'.workers[v]) {
      WorkerInOrder(s, v);
      if v == w {
        NewestInLog(s.saves, SaveRecord(w, before, after));
      } else {
        LogGrows(s.saves, SaveRecord(w, before, after), v, s.workers[v]);
        if s.workers[v].phase.Loaded? {
          CurrentAfterSave(s.conversations, s'.conversations, before, after, s.workers[v].loaded.value);
        }
      }
    }
  }

  lemma StoresVersioned(s: World)
    requires Inv(s)
    ensures Conversations.Versioned(s.conversations)
  {
  }

  lemma NewestInLog(saves: seq<SaveRecord>, record: SaveRecord)
    ensures InLog(saves + [record], record.worker, record.after)
  {
    assert (saves + [record])[|saves|] == record;
  }

  lemma SaveKeeps(b: Backend, s: World, w: nat, path: TurnPath)
    requires Inv(s) && Apply(b, s, Save(w, path)).Some?
    ensures Inv(Apply(b, s, Save(w, path)).value)
  {
    hide SaveOn, AfterTurn, Holds, Loads, Logs, Answered, StoresOk, ReplyKey;
    SaveUnfolds(b, s, w, path);
    if SaveSucceeds(b, s, w, path) {
      SaveKeepsStores(b, s, w, path);
      SavedWorkers(b, s, w, path);
      var s' := Apply(b, s, Save(w, path)).value;
      forall k | k in s'.owners ensures OwnedBy(s'.workers, k, s'.owners[k]) {
        assert OwnedBy(s.workers, k, s.owners[k]);
      }
      forall k | k in s.outbox ensures WrittenBy(s'.workers, k, s'.outbox[k].author) {
        assert WrittenBy(s.workers, k, s.outbox[k].author);
      }
    } else {
      MoveKeeps(s, w, Failing);
    }
  }

  // --------------------------------------------------------------- all the steps

  lemma NothingSavedYet(s: World, w: nat)
    requires Inv(s) && w in s.workers && s.workers[w].phase.Loaded?
    ensures s.workers[w].saved.None?
  {
    WorkerInOrder(s, w);
  }

  lemma RowBeforeReturn(s: World, w: nat)
    requires Inv(s) && w in s.workers && s.workers[w].phase.Enqueued?
    ensures ReplyKey(s.workers[w].env.key) in s.history.inserted
  {
    WorkerInOrder(s, w);
  }

  /** Every step of every worker keeps the invariant. */
  lemma StepKeeps(b: Backend, s: World, step: Step)
    requires Inv(s) && Apply(b, s, step).Some?
    ensures Inv(Apply(b, s, step).value)
  {
    hide Inv, ReplyKey, ReachesSave, Deliverable, AfterTurn;
    match step
    case Arrive(w, env) => ArriveKeeps(b, s, w, env);
    case Load(w) => LoadKeeps(b, s, w);
    case Save(w, path) => SaveKeeps(b, s, w, path);
    case IgnoreSelection(w) => NothingSavedYet(s, w); MoveKeeps(s, w, Finished);
    case ShedTurn(w) => ReleaseKeeps(s, w, Shed);
    case Enqueue(w, body) => EnqueueKeeps(b, s, w, body);
    case Return(w) => RowBeforeReturn(s, w); MoveKeeps(s, w, Finished);
    case Raise(w) => MoveKeeps(s, w, Failing);
    case Release(w) => ReleaseKeeps(s, w, Raised(true));
    case ReleaseFails(w) => MoveKeeps(s, w, Raised(false));
    case Crash(w) => MoveKeeps(s, w, Crashed);
    case Tick(_) => ClockKeeps(b, s, step);
    case Sweep => ClockKeeps(b, s, step);
    case Relay(_) => OutboxKeeps(b, s, step);
    case Retain(_) => OutboxKeeps(b, s, step);
  }

  lemma StartIsOk(now: int)
    ensures Inv(Start(now))
  {
  }

  /** The invariant holds after every schedule of steps, on either backend. */
  lemma {:induction false} RunKeeps(b: Backend, s: World, steps: seq<Step>)
    requires Inv(s) && Run(b, s, steps).Some?
    ensures Inv(Run(b, s, steps).value)
    decreases |steps|
  {
    hide Inv, Apply;
    if steps != [] {
      StepKeeps(b, s, steps[0]);
      RunKeeps(b, Apply(b, s, steps[0]).value, steps[1..]);
    }
  }

  // -------------------------------------------------------------- main theorems

  /** At most one worker is ever inside a turn for a dedup key. */
  lemma OneWorkerPerKey(b: Backend, now: int, steps: seq<Step>, v: nat, w: nat)
    requires Run(b, Start(now), steps).Some?
    requires var s := Run(b, Start(now), steps).value;
             && v in s.workers && w in s.workers
             && InTurn(s.workers[v].phase) && InTurn(s.workers[w].phase)
             && s.workers[v].env.key == s.workers[w].env.key
    ensures v == w
  {
    StartIsOk(now);
    RunKeeps(b, Start(now), steps);
    HoldersDiffer(Run(b, Start(now), steps).value, v, w);
  }

  /** Every reply row was written by a worker on its key whose conversation save is in the log, and a
    * worker that saved and returned had its reply row, which is there unless retention deleted it. */
  lemma ReplyRowsFollowSaves(b: Backend, now: int, steps: seq<Step>)
    requires Run(b, Start(now), steps).Some?
    ensures var s := Run(b, Start(now), steps).value;
            && (forall k :: k in s.outbox ==>
                  var author := s.outbox[k].author;
                  && author in s.workers && ReplyKey(s.workers[author].env.key) == k
                  && s.workers[author].saved.Some? && InLog(s.saves, author, s.workers[author].saved.value))
            && (forall w :: w in s.workers && s.workers[w].phase.Finished? && s.workers[w].saved.Some? ==>
                  ReplyKey(s.workers[w].env.key) in s.outbox || ReplyKey(s.workers[w].env.key) in s.history.retired)
  {
    StartIsOk(now);
    RunKeeps(b, Start(now), steps);
    var s := Run(b, Start(now), steps).value;
    hide Run, Holds, Loads, InLog, StoresOk, OwnedBy, ReplyKey;
    forall k | k in s.outbox
      ensures WrittenBy(s.workers, k, s.outbox[k].author)
      ensures InLog(s.saves, s.outbox[k].author, s.workers[s.outbox[k].author].saved.value)
    {
      assert WrittenBy(s.workers, k, s.outbox[k].author);
      WorkerInOrder(s, s.outbox[k].author);
    }
    forall w | w in s.workers && s.workers[w].phase.Finished? && s.workers[w].saved.Some?
      ensures ReplyKey(s.workers[w].env.key) in s.outbox || ReplyKey(s.workers[w].env.key) in s.history.retired
    {
      WorkerInOrder(s, w);
      InsertedOrRetired(s, ReplyKey(s.workers[w].env.key));
    }
  }

  lemma InsertedOrRetired(s: World, key: string)
    requires Inv(s)
    ensures key in s.history.inserted <==> key in s.outbox || key in s.history.retired
  {
    assert s.history.inserted[key] == s.history.retired[key] + (if key in s.outbox then 1 else 0);
  }

  /** A reply row, once written, is never written again: later steps leave author and body as they are, whoever
    * enqueues again and whatever relays do, until retention deletes the row. */
  lemma {:induction false} ReplyRowsAreWrittenOnce(b: Backend, s: World, steps: seq<Step>, key: string)
    requires Run(b, s, steps).Some? && key in s.outbox
    ensures var t := Run(b, s, steps).value;
            t.history.retired[key] == s.history.retired[key] ==>
              key in t.outbox && t.outbox[key].author == s.outbox[key].author && t.outbox[key].body == s.outbox[key].body
    ensures Run(b, s, steps).value.history.retired[key] >= s.history.retired[key]
    decreases |steps|
  {
    hide Apply;
    if steps != [] {
      var t := Apply(b, s, steps[0]).value;
      ReplyRowStays(b, s, steps[0], key);
      if key in t.outbox {
        ReplyRowsAreWrittenOnce(b, t, steps[1..], key);
      } else {
        RetiredGrows(b, t, steps[1..], key);
      }
    }
  }

  lemma ReplyRowStays(b: Backend, s: World, step: Step, key: string)
    requires Apply(b, s, step).Some? && key in s.outbox
    ensures var t := Apply(b, s, step).value;
            if step.Retain? && key in step.keys then key !in t.outbox && t.history.retired[key] == s.history.retired[key] + 1
            else
              && key in t.outbox && t.outbox[key].author == s.outbox[key].author && t.outbox[key].body == s.outbox[key].body
              && t.history.retired[key] == s.history.retired[key]
  {
    hide ReplyKey, ReachesSave, AfterTurn, ClaimOn, SaveOn, LoadOn, Deliverable, Born, Relayed, LeasedIn, RelayPossible, HeldClaimsOutlive;
    if step.Relay? {
      RelayedAuthors(b, s.outbox, step.events, s.now);
    }
  }

  lemma {:induction false} RetiredGrows(b: Backend, s: World, steps: seq<Step>, key: string)
    requires Run(b, s, steps).Some?
    ensures Run(b, s, steps).value.history.retired[key] >= s.history.retired[key]
    decreases |steps|
  {
    hide Apply;
    if steps != [] {
      RetiredOnce(b, s, steps[0], key);
      RetiredGrows(b, Apply(b, s, steps[0]).value, steps[1..], key);
    }
  }

  lemma RetiredOnce(b: Backend, s: World, step: Step, key: string)
    requires Apply(b, s, step).Some?
    ensures Apply(b, s, step).value.history.retired[key] >= s.history.retired[key]
  {
    hide ReplyKey, ReachesSave, AfterTurn, ClaimOn, SaveOn, LoadOn, Deliverable, Born;
  }

  /** In every run the conversation saves form one linear history per conversation, and the stored
    * snapshot is its end: no update is lost. */
  lemma SavesFormOneHistory(b: Backend, now: int, steps: seq<Step>)
    requires Run(b, Start(now), steps).Some?
    ensures var s := Run(b, Start(now), steps).value;
            && Linear(s.saves) && forall c :: StoredIs(s.conversations, c, LastSaved(s.saves, c))
  {
    StartIsOk(now);
    RunKeeps(b, Start(now), steps);
  }

  /** A live claim on a key that never had a reply row has a reason that can be named: its owner is still in its turn,
    * crashed, could not release its claim, or ignored a selection. */
  lemma UnansweredClaimHasAReason(b: Backend, now: int, steps: seq<Step>, key: string)
    requires Run(b, Start(now), steps).Some?
    requires var s := Run(b, Start(now), steps).value; key in s.claims && ReplyKey(key) !in s.history.inserted
    ensures var s := Run(b, Start(now), steps).value;
            && key in s.owners && s.owners[key] in s.workers
            && var x := s.workers[s.owners[key]];
               && x.env.key == key
               && (InTurn(x.phase) || x.phase.Crashed? || x.phase == Raised(false) || (x.phase.Finished? && x.saved.None?))
  {
    StartIsOk(now);
    RunKeeps(b, Start(now), steps);
    var s := Run(b, Start(now), steps).value;
    hide Run, Holds, Loads, Logs, StoresOk, ReplyKey, WrittenBy;
    assert OwnedBy(s.workers, key, s.owners[key]);
    WorkerInOrder(s, s.owners[key]);
  }

  /** A dedup key longer than 122 characters never gets a reply row: the contract caps the prefixed key
    * at 128, so the enqueue after the save always raises. */
  lemma LongKeysAreNeverAnswered(b: Backend, now: int, steps: seq<Step>, key: string)
    requires Run(b, Start(now), steps).Some? && |key| > 122
    ensures ReplyKey(key) !in Run(b, Start(now), steps).value.outbox
  {
    StartIsOk(now);
    RunKeeps(b, Start(now), steps);
    var s := Run(b, Start(now), steps).value;
    hide Run;
    forall k | k in s.outbox ensures |k| <= MAX_DEDUP_KEY {
      assert WrittenBy(s.workers, k, s.outbox[k].author);
    }
  }

  // ------------------------------------------- what the protocol does not promise

  lemma RunOneMore(b: Backend, s: World, step: Step, rest: seq<Step>)
    requires Apply(b, s, step).Some?
    ensures Run(b, s, [step] + rest) == Run(b, Apply(b, s, step).value, rest)
  {
    assert ([step] + rest)[1..] == rest;
  }

  /** A worker that arrives, loads and saves a first clarifying turn. */
  function FirstTurn(w: nat, env: Envelope): seq<Step> {
    [Arrive(w, env), Load(w), Save(w, Clarify)]
  }

  /** The world after `FirstTurn` of worker 0 in a fresh deployment. */
  function AfterFirstTurn(now: int, env: Envelope): World {
    var before, after := Fresh(env.conversation), AfterTurn(Fresh(env.conversation), Clarify);
    World(now, map[env.key := now + Idempotency.TTL_SECONDS], map[env.key := 0],
          map[env.conversation := after], map[],
          map[0 := Worker(env, Saved, Some(before), Some(after))], [SaveRecord(0, before, after)], NOTHING)
  }

  lemma FirstTurnRuns(b: Backend, now: int, env: Envelope, rest: seq<Step>)
    ensures Run(b, Start(now), FirstTurn(0, env) + rest) == Run(b, AfterFirstTurn(now, env), rest)
  {
    var before, after := Fresh(env.conversation), AfterTurn(Fresh(env.conversation), Clarify);
    ShortHistory(before, Clarify);
    AfterTurnKeepsConversation(before, Clarify);
    hide Run, AfterTurn;
    var s0 := Start(now);
    var s1 := Apply(b, s0, Arrive(0, env)).value;
    var s2 := Apply(b, s1, Load(0)).value;
    assert s2.workers[0] == Worker(env, Loaded, Some(before), None);
    assert after.(history := LastOf(after.history, Conversations.SAVED_HISTORY)) == after;
    assert SaveOn(b, s2.conversations, after, 0) == Ok(map[env.conversation := after]);
    var s3 := Apply(b, s2, Save(0, Clarify)).value;
    var end := AfterFirstTurn(now, env);
    assert s3.claims == end.claims && s3.owners == end.owners && s3.workers == end.workers;
    assert s1.history == NOTHING && s3.history == end.history;
    assert s3.saves == end.saves && s3.conversations == end.conversations && s3 == end;
    assert FirstTurn(0, env) + rest == [Arrive(0, env)] + ([Load(0)] + ([Save(0, Clarify)] + rest));
    RunOneMore(b, s0, Arrive(0, env), [Load(0)] + ([Save(0, Clarify)] + rest));
    RunOneMore(b, s1, Load(0), [Save(0, Clarify)] + rest);
    RunOneMore(b, s2, Save(0, Clarify), rest);
  }

  lemma ShortHistory(before: Snapshot, path: TurnPath)
    requires before.history == []
    ensures |AfterTurn(before, path).history| <= Conversations.SAVED_HISTORY
  {
    Conversations.HistoryCounts(before, TriggersOf(path));
    Conversations.LegalStepsBounded(before.state, TriggersOf(path));
  }

  /** The reply is not written in the transaction of the state change: a crash between the two leaves
    * the conversation advanced, no reply row, and a claim that makes the redelivery a duplicate. */
  lemma CrashAfterSaveLosesReply(b: Backend, now: int, env: Envelope)
    ensures var steps := FirstTurn(0, env) + [Crash(0), Arrive(1, env)];
            && Run(b, Start(now), steps).Some?
            && var s := Run(b, Start(now), steps).value;
               && |s.saves| == 1 && ReplyKey(env.key) !in s.outbox
               && 1 in s.workers && s.workers[1].phase.Duplicate?
  {
    hide AfterTurn, ReplyKey;
    FirstTurnRuns(b, now, env, [Crash(0), Arrive(1, env)]);
    var s3 := AfterFirstTurn(now, env);
    var s4 := Apply(b, s3, Crash(0)).value;
    assert [Crash(0), Arrive(1, env)] == [Crash(0)] + ([Arrive(1, env)] + []);
    RunOneMore(b, s3, Crash(0), [Arrive(1, env)] + []);
    RunOneMore(b, s4, Arrive(1, env), []);
  }

  /** A worker that enqueues, then meets an exception and releases its claim. */
  function Unacknowledged(body: string): seq<Step> {
    [Enqueue(0, body), Raise(0), Release(0)]
  }

  /** An enqueue whose commit is not acknowledged re-runs the whole turn on redelivery: the conversation is saved a
    * second time for one message, while the reply row stays the first one. */
  lemma ExceptionAfterReplyRepeatsTheSave(b: Backend, now: int, env: Envelope, body: string)
    requires Deliverable(env.key, body)
    ensures var steps := FirstTurn(0, env) + (Unacknowledged(body) + [Arrive(1, env), Load(1), Save(1, Clarify)]);
            && Run(b, Start(now), steps).Some?
            && var s := Run(b, Start(now), steps).value;
               && |s.saves| == 2 && s.saves[0].worker == 0 && s.saves[1].worker == 1
               && s.outbox == map[ReplyKey(env.key) := Reply(0, body, Born(b), None)]
  {
    hide AfterTurn, ReplyKey, Deliverable, Run, Apply, Born;
    var redelivery := [Arrive(1, env), Load(1), Save(1, Clarify)];
    FirstTurnRuns(b, now, env, Unacknowledged(body) + redelivery);
    var s6 := UnacknowledgedRuns(b, now, env, body, redelivery);
    FirstSaveIsVersioned(env.conversation, Clarify);
    AfterTurnKeepsConversation(Fresh(env.conversation), Clarify);
    RedeliveryRuns(b, s6, env);
  }

  lemma UnacknowledgedRuns(b: Backend, now: int, env: Envelope, body: string, rest: seq<Step>) returns (s6: World)
    requires Deliverable(env.key, body)
    ensures Run(b, AfterFirstTurn(now, env), Unacknowledged(body) + rest) == Run(b, s6, rest)
    ensures s6.claims == map[] && 1 !in s6.workers && s6.conversations == AfterFirstTurn(now, env).conversations
    ensures s6.saves == AfterFirstTurn(now, env).saves && s6.outbox == map[ReplyKey(env.key) := Reply(0, body, Born(b), None)]
  {
    hide AfterTurn, ReplyKey, Deliverable, Run, Born;
    var s3 := AfterFirstTurn(now, env);
    var s4 := Apply(b, s3, Enqueue(0, body)).value;
    var s5 := Apply(b, s4, Raise(0)).value;
    s6 := Apply(b, s5, Release(0)).value;
    assert Unacknowledged(body) + rest == [Enqueue(0, body)] + ([Raise(0)] + ([Release(0)] + rest));
    RunOneMore(b, s3, Enqueue(0, body), [Raise(0)] + ([Release(0)] + rest));
    RunOneMore(b, s4, Raise(0), [Release(0)] + rest);
    RunOneMore(b, s5, Release(0), rest);
  }

  lemma RunNothing(b: Backend, s: World)
    ensures Run(b, s, []) == Some(s)
  {
  }

  lemma RedeliveryRuns(b: Backend, s: World, env: Envelope)
    requires env.key !in s.claims && 1 !in s.workers
    requires env.conversation in s.conversations && s.conversations[env.conversation].lockVersion >= 1
    requires s.conversations[env.conversation].conversation == env.conversation
    ensures var r := Run(b, s, [Arrive(1, env), Load(1), Save(1, Clarify)]);
            && r.Some? && r.value.outbox == s.outbox
            && |r.value.saves| == |s.saves| + 1 && r.value.saves[..|s.saves|] == s.saves && r.value.saves[|s.saves|].worker == 1
  {
    hide AfterTurn, Run;
    var s1 := Apply(b, s, Arrive(1, env)).value;
    var s2 := Apply(b, s1, Load(1)).value;
    AfterTurnKeepsConversation(s2.workers[1].loaded.value, Clarify);
    var s3 := Apply(b, s2, Save(1, Clarify)).value;
    assert [Arrive(1, env), Load(1), Save(1, Clarify)] == [Arrive(1, env)] + ([Load(1)] + ([Save(1, Clarify)] + []));
    RunOneMore(b, s, Arrive(1, env), [Load(1)] + ([Save(1, Clarify)] + []));
    RunOneMore(b, s1, Load(1), [Save(1, Clarify)] + []);
    RunOneMore(b, s2, Save(1, Clarify), []);
    RunNothing(b, s3);
  }
}

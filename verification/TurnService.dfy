/** One call of `handle` on the in-memory stores, as a run of the turn protocol. */
module TurnService {
  import opened Wrappers
  import opened Machine
  import Conversations = ConversationStore
  import Idempotency = IdempotencyStore
  import MemoryOutbox
  import KeyLife
  import Text
  import P = TurnProtocol
  import opened Delivery

  /** Where something the model leaves abstract may raise: while extracting or matching, or after the save. */
  datatype Fault = NoFault | BeforeSave | AfterSave | AfterEnqueue

  /** What a call meets on its way: the kill switch, the abuse controls, the path it takes, the number to answer (empty
    * when the caller delivers), and the text of the reply it makes. */
  datatype Script = Script(paused: bool, shed: bool, path: TurnPath, recipient: string, text: string, fault: Fault)

  datatype Outcome = Paused | Duplicate | Throttled | Ignored | Replied(text: string) | Raised

  /** The longest text that is sent. */
  const MAX_BODY_CHARS := 4096

  function Sent(text: string): string {
    if |text| <= MAX_BODY_CHARS then text else text[..MAX_BODY_CHARS]
  }

  /** A reply without a recipient is only the record of what the caller delivered. */
  function KindFor(recipient: string): string {
    if recipient != "" then "whatsapp_reply" else "caller_delivered_reply"
  }

  function ReplyMessage(env: P.Envelope, script: Script): MemoryOutbox.Message {
    MemoryOutbox.Message(P.ReplyKey(env.key), KindFor(script.recipient), Sent(script.text), None, 0)
  }

  /** Inside a claim, the call gets as far as its save. */
  predicate Saves(script: Script, was: ConversationState) {
    && !(script.shed && script.path != Selection) && (script.path == Selection ==> was == AwaitingSelection)
    && !script.fault.BeforeSave?
  }

  /** And then as far as its enqueue: the prefixed key fits, and what is sent of the text is not blank. */
  predicate Enqueues(script: Script, env: P.Envelope) {
    !script.fault.AfterSave? && |env.key| <= 122 && !Text.Blank(Sent(script.text))
  }

  lemma DeliverableExactly(key: string, body: string)
    ensures P.Deliverable(key, body) <==> |key| <= 122 && !Text.Blank(body)
  {
  }

  /** The turn is saved: this conversation is where its path leads, by name, and every other is as it was. */
  ghost predicate TurnSaved(before: Conversations.Table, after: Conversations.Table, conversation: string, path: TurnPath) {
    && conversation in after && after == before[conversation := after[conversation]]
    && after[conversation] == AfterTurn(Conversations.MemLoad(before, conversation), path)
    && EndsIn(Conversations.MemLoad(before, conversation).state, path, after[conversation].state)
  }

  /** The reply is enqueued: if its key was new, with the kind and text that are to be sent; no other key is touched. */
  ghost predicate ReplyEnqueued(before: MemoryOutbox.Box, after: MemoryOutbox.Box, env: P.Envelope, script: Script) {
    && after == MemoryOutbox.Apply(before, MemoryOutbox.OpEnqueue(ReplyMessage(env, script)))
    && (MemoryOutbox.ContentOf(before, P.ReplyKey(env.key)).None? ==>
          MemoryOutbox.ContentOf(after, P.ReplyKey(env.key)) == Some(MemoryOutbox.Content(
            if script.recipient != "" then "whatsapp_reply" else "caller_delivered_reply",
            if |script.text| <= 4096 then script.text else script.text[..4096])))
    && (forall k :: k != P.ReplyKey(env.key) || MemoryOutbox.ContentOf(before, k).Some? ==>
          MemoryOutbox.ContentOf(after, k) == MemoryOutbox.ContentOf(before, k))
  }

  /** What a call does to the conversations and the outbox and how it ends, once inside a claim. */
  ghost predicate TurnDone(script: Script, env: P.Envelope, outcome: Outcome, before: Conversations.Table, after: Conversations.Table,
                           box: MemoryOutbox.Box, boxAfter: MemoryOutbox.Box) {
    var was := Conversations.MemLoad(before, env.conversation).state;
    && (outcome.Throttled? <==> script.shed && script.path != Selection)
    && (outcome.Ignored? <==> script.path == Selection && was != AwaitingSelection)
    && (outcome.Replied? <==> Saves(script, was) && Enqueues(script, env) && script.fault.NoFault?)
    && (outcome.Replied? ==> outcome.text == script.text)
    && (if Saves(script, was) then TurnSaved(before, after, env.conversation, script.path) else after == before)
    && (if Saves(script, was) && Enqueues(script, env) then ReplyEnqueued(box, boxAfter, env, script) else boxAfter == box)
  }

  /** So, by name, an answered selection requests the demo, and the first turn of a conversation that delivers a match
    * awaits a selection and one that finds nobody ends without a match. */
  lemma AnsweredByName(script: Script, env: P.Envelope, outcome: Outcome, before: Conversations.Table, after: Conversations.Table,
                       box: MemoryOutbox.Box, boxAfter: MemoryOutbox.Box)
    requires TurnDone(script, env, outcome, before, after, box, boxAfter) && outcome.Replied?
    ensures env.conversation in after
    ensures script.path == Selection ==> after[env.conversation].state == DemoRequested
    ensures script.path == Match(true, false) && env.conversation !in before ==> after[env.conversation].state == AwaitingSelection
    ensures script.path == Match(false, false) && env.conversation !in before ==> after[env.conversation].state == NoMatch
  {
    hide AfterTurn, ReplyEnqueued;
  }

  /** The call is over, and not by a crash. */
  predicate Left(phase: P.Phase) {
    !P.InTurn(phase) && !phase.Crashed?
  }

  class TurnService {
    const conversations: Conversations.InMemoryConversationStore
    const idempotency: Idempotency.InMemoryIdempotencyStore
    const outbox: MemoryOutbox.InMemoryOutbox

    constructor (conversations: Conversations.InMemoryConversationStore, idempotency: Idempotency.InMemoryIdempotencyStore,
                 outbox: MemoryOutbox.InMemoryOutbox)
      ensures this.conversations == conversations && this.idempotency == idempotency && this.outbox == outbox
    {
      this.conversations, this.idempotency, this.outbox := conversations, idempotency, outbox;
    }

    /** The stores hold what the protocol state says; of the outbox, every key's status and text. */
    ghost predicate Shows(s: P.World)
      reads conversations, idempotency, outbox
    {
      && s.claims == idempotency.claims && s.conversations == conversations.states && Conversations.OwnKeys(conversations.states)
      && outbox.Valid() && ShowsBox(s.outbox, outbox.View())
    }

    /** The claim first, then the turn; an exception releases the claim and leaves. */
    method Handle(ghost s: P.World, ghost w: nat, env: P.Envelope, now: int, script: Script)
      returns (outcome: Outcome, ghost steps: seq<P.Step>, ghost after: P.World)
      requires Shows(s) && s.now == now && w !in s.workers
      modifies conversations, idempotency, outbox
      ensures P.Run(KeyLife.InMemory, s, steps) == Some(after) && Shows(after)
      ensures outcome.Paused? ==> after == s
      ensures !outcome.Paused? ==> w in after.workers && after.workers[w].env == env && Left(after.workers[w].phase)
      ensures outcome.Duplicate? <==> !script.paused && env.key in old(idempotency.claims) && old(idempotency.claims[env.key]) > now
      ensures outcome.Replied? || outcome.Ignored? ==>
                env.key in idempotency.claims && idempotency.claims[env.key] == now + Idempotency.TTL_SECONDS
      ensures outcome.Replied? ==> MemoryOutbox.Known(outbox.View(), P.ReplyKey(env.key))
      ensures outcome.Raised? || outcome.Throttled? ==> env.key !in idempotency.claims
      ensures outcome.Paused? <==> script.paused
      ensures if outcome.Paused? || outcome.Duplicate? then
                conversations.states == old(conversations.states) && outbox.View() == old(outbox.View())
              else TurnDone(script, env, outcome, old(conversations.states), conversations.states, old(outbox.View()), outbox.View())
      ensures outcome.Replied? && script.path == Selection ==> conversations.states[env.conversation].state == DemoRequested
      ensures outcome.Replied? && script.path == Match(true, false) && env.conversation !in old(conversations.states) ==>
                conversations.states[env.conversation].state == AwaitingSelection
      ensures outcome.Replied? && script.path == Match(false, false) && env.conversation !in old(conversations.states) ==>
                conversations.states[env.conversation].state == NoMatch
    {
      hide P.Apply, P.Run, AfterTurn, MemoryOutbox.WellFormed, MemoryOutbox.Known, P.ReplyKey, ShowsBox, TurnDone;
      steps, after := [], s;
      RunsNothing(s);
      if script.paused {
        return Paused, steps, after;
      }
      var won := idempotency.Claim(env.key, Idempotency.TTL_SECONDS, now);
      ArriveStep(after, w, env);
      steps, after := Took(s, steps, after, P.Arrive(w, env));
      if !won {
        return Duplicate, steps, after;
      }
      outcome, steps, after := Process(s, w, steps, after, env, script);
      if outcome.Replied? {
        AnsweredByName(script, env, outcome, old(conversations.states), conversations.states, old(outbox.View()), outbox.View());
      }
      if outcome.Raised? {
        idempotency.Release(env.key);
        ReleaseStep(after, w);
        steps, after := Took(s, steps, after, P.Release(w));
      }
    }

    /** The turn itself; `Raised` is an exception on its way out. */
    method Process(ghost s: P.World, ghost w: nat, ghost done: seq<P.Step>, ghost at: P.World, env: P.Envelope, script: Script)
      returns (outcome: Outcome, ghost steps: seq<P.Step>, ghost after: P.World)
      requires P.Run(KeyLife.InMemory, s, done) == Some(at) && Shows(at)
      requires w in at.workers && at.workers[w] == P.Worker(env, P.Claimed, None, None) && env.key in idempotency.claims
      modifies conversations, idempotency, outbox
      ensures TurnDone(script, env, outcome, old(conversations.states), conversations.states, old(outbox.View()), outbox.View())
      ensures P.Run(KeyLife.InMemory, s, steps) == Some(after) && Shows(after)
      ensures w in after.workers && after.workers[w].env == env
      ensures outcome.Throttled? || outcome.Ignored? || outcome.Replied? || outcome.Raised?
      ensures outcome.Raised? <==> after.workers[w].phase.Failing?
      ensures !outcome.Raised? ==> Left(after.workers[w].phase)
      ensures outcome.Replied? ==> MemoryOutbox.Known(outbox.View(), P.ReplyKey(env.key))
      ensures !outcome.Throttled? ==> idempotency.claims == old(idempotency.claims)
      ensures outcome.Throttled? ==> env.key !in idempotency.claims
    {
      hide P.Apply, P.Run, AfterTurn, Transition, P.ReplyKey, MemoryOutbox.WellFormed, MemoryOutbox.Known, TurnSaved, ReplyEnqueued,
           Enqueues, ShowsBox, EndsIn, P.Deliverable;
      steps, after := done, at;
      var snapshot := conversations.Load(env.conversation);
      LoadStep(after, w);
      LegalFrom(snapshot.state);
      steps, after := Took(s, steps, after, P.Load(w));
      if script.shed && script.path != Selection {
        idempotency.Release(env.key);
        ShedStep(after, w);
        steps, after := Took(s, steps, after, P.ShedTurn(w));
        return Throttled, steps, after;
      }
      if script.path == Selection && Transition(snapshot.state, ParentSelected).None? {
        IgnoreStep(after, w);
        steps, after := Took(s, steps, after, P.IgnoreSelection(w));
        return Ignored, steps, after;
      }
      if script.fault.BeforeSave? {
        RaiseStep(after, w);
        steps, after := Took(s, steps, after, P.Raise(w));
        return Raised, steps, after;
      }
      outcome, steps, after := SaveAndReply(s, w, steps, after, env, snapshot, script);
    }

    /** The save under the version that was loaded, and then the reply. */
    method SaveAndReply(ghost s: P.World, ghost w: nat, ghost done: seq<P.Step>, ghost at: P.World, env: P.Envelope,
                        snapshot: Snapshot, script: Script)
      returns (outcome: Outcome, ghost steps: seq<P.Step>, ghost after: P.World)
      requires P.Run(KeyLife.InMemory, s, done) == Some(at) && Shows(at) && ReachesSave(snapshot, script.path)
      requires w in at.workers && at.workers[w] == P.Worker(env, P.Loaded, Some(snapshot), None) && env.key in idempotency.claims
      requires snapshot == Conversations.MemLoad(conversations.states, env.conversation) && !script.fault.BeforeSave?
      modifies conversations, outbox
      ensures TurnSaved(old(conversations.states), conversations.states, env.conversation, script.path)
      ensures if Enqueues(script, env) then ReplyEnqueued(old(outbox.View()), outbox.View(), env, script)
              else outbox.View() == old(outbox.View())
      ensures outcome.Replied? <==> Enqueues(script, env) && script.fault.NoFault?
      ensures outcome.Replied? ==> outcome.text == script.text
      ensures P.Run(KeyLife.InMemory, s, steps) == Some(after) && Shows(after)
      ensures w in after.workers && after.workers[w].env == env
      ensures outcome.Replied? || outcome.Raised?
      ensures outcome.Raised? <==> after.workers[w].phase.Failing?
      ensures !outcome.Raised? ==> Left(after.workers[w].phase)
      ensures outcome.Replied? ==> MemoryOutbox.Known(outbox.View(), P.ReplyKey(env.key))
    {
      hide P.Apply, P.Run, AfterTurn, ReachesSave, EndsIn, P.Deliverable, P.ReplyKey, MemoryOutbox.Known, MemoryOutbox.WellFormed,
           MemoryOutbox.Apply, MemoryOutbox.ContentOf, ShowsBox, ReplyEnqueued, Sent, KindFor, TurnSaved, Conversations.OwnKeys,
           Conversations.MemSave, Conversations.MemLoad;
      steps, after := done, at;
      var next := AfterTurn(snapshot, script.path);
      SaveGoesThrough(conversations.states, env.conversation, script.path);
      var saved := conversations.Save(next, snapshot.lockVersion);
      SaveStep(after, w, script.path);
      steps, after := Took(s, steps, after, P.Save(w, script.path));
      assert saved.Ok?;
      if script.fault.AfterSave? {
        RaiseStep(after, w);
        steps, after := Took(s, steps, after, P.Raise(w));
        return Raised, steps, after;
      }
      EnqueueStep(after, w, Sent(script.text));
      DeliverableExactly(env.key, Sent(script.text));
      if !P.Deliverable(env.key, Sent(script.text)) {
        steps, after := Took(s, steps, after, P.Enqueue(w, Sent(script.text)));
        return Raised, steps, after;
      }
      var message := MemoryOutbox.Message(P.ReplyKey(env.key), KindFor(script.recipient), Sent(script.text), None, 0);
      EnqueueIsAPut(P.At(after, w, P.Enqueued), w, message.key, message.body, outbox.View(), message);
      KnownAfterwards(outbox.View(), message);
      EnqueuedReply(outbox.View(), env, script);
      outbox.Enqueue(message);
      steps, after := Took(s, steps, after, P.Enqueue(w, Sent(script.text)));
      if script.fault.AfterEnqueue? {
        RaiseStep(after, w);
        steps, after := Took(s, steps, after, P.Raise(w));
        return Raised, steps, after;
      }
      ReturnStep(after, w);
      steps, after := Took(s, steps, after, P.Return(w));
      return Replied(script.text), steps, after;
    }
  }

  /** A call that nobody disturbs saves on the version it loaded, so its save goes through. */
  lemma SaveGoesThrough(before: Conversations.Table, conversation: string, path: TurnPath)
    requires Conversations.OwnKeys(before) && ReachesSave(Conversations.MemLoad(before, conversation), path)
    ensures var loaded := Conversations.MemLoad(before, conversation);
            var r := Conversations.MemSave(before, AfterTurn(loaded, path), loaded.lockVersion);
            r.Ok? && TurnSaved(before, r.value, conversation, path) && Conversations.OwnKeys(r.value)
  {
    hide AfterTurn, EndsIn, ReachesSave;
    TurnsEndByName(Conversations.MemLoad(before, conversation), path);
  }

  lemma EnqueuedReply(b: MemoryOutbox.Box, env: P.Envelope, script: Script)
    requires MemoryOutbox.WellFormed(b)
    ensures ReplyEnqueued(b, MemoryOutbox.Apply(b, MemoryOutbox.OpEnqueue(ReplyMessage(env, script))), env, script)
  {
    hide MemoryOutbox.WellFormed, MemoryOutbox.ContentOf, MemoryOutbox.Apply, MemoryOutbox.StatusOf, P.ReplyKey;
    MemoryOutbox.AllKeysMove(b, MemoryOutbox.OpEnqueue(ReplyMessage(env, script)));
  }

  // What each step of the protocol does on the in-memory stores.

  lemma ArriveStep(at: P.World, w: nat, env: P.Envelope)
    requires w !in at.workers
    ensures var (won, claims) := Idempotency.MemClaim(at.claims, env.key, Idempotency.TTL_SECONDS, at.now);
            P.Apply(KeyLife.InMemory, at, P.Arrive(w, env)) == Some(at.(
              claims := claims, owners := if won then at.owners[env.key := w] else at.owners,
              workers := at.workers[w := P.Worker(env, if won then P.Claimed else P.Duplicate, None, None)],
              history := if won then P.Lapsing(at.history, if env.key in at.owners then {at.owners[env.key]} else {}) else at.history))
  {
    hide P.Lapsing;
  }

  lemma LoadStep(at: P.World, w: nat)
    requires w in at.workers && at.workers[w].phase.Claimed?
    ensures var loaded := Conversations.MemLoad(at.conversations, at.workers[w].env.conversation);
            P.Apply(KeyLife.InMemory, at, P.Load(w))
            == Some(at.(workers := at.workers[w := at.workers[w].(phase := P.Loaded, loaded := Some(loaded))]))
  {
  }

  lemma ShedStep(at: P.World, w: nat)
    requires w in at.workers && at.workers[w].phase.Loaded?
    ensures P.Apply(KeyLife.InMemory, at, P.ShedTurn(w)) == Some(P.WithoutClaim(P.At(at, w, P.Shed), at.workers[w].env.key))
  {
  }

  lemma IgnoreStep(at: P.World, w: nat)
    requires w in at.workers && at.workers[w].phase.Loaded? && at.workers[w].loaded.Some?
    requires !ReachesSave(at.workers[w].loaded.value, Selection)
    ensures P.Apply(KeyLife.InMemory, at, P.IgnoreSelection(w)) == Some(P.At(at, w, P.Finished))
  {
  }

  lemma RaiseStep(at: P.World, w: nat)
    requires w in at.workers && P.InTurn(at.workers[w].phase) && !at.workers[w].phase.Failing?
    ensures P.Apply(KeyLife.InMemory, at, P.Raise(w)) == Some(P.At(at, w, P.Failing))
  {
  }

  lemma ReleaseStep(at: P.World, w: nat)
    requires w in at.workers && at.workers[w].phase.Failing?
    ensures P.Apply(KeyLife.InMemory, at, P.Release(w)) == Some(P.WithoutClaim(P.At(at, w, P.Raised(true)), at.workers[w].env.key))
  {
  }

  lemma ReturnStep(at: P.World, w: nat)
    requires w in at.workers && at.workers[w].phase.Enqueued?
    ensures P.Apply(KeyLife.InMemory, at, P.Return(w)) == Some(P.At(at, w, P.Finished))
  {
  }

  lemma SaveStep(at: P.World, w: nat, path: TurnPath)
    requires w in at.workers && at.workers[w].phase.Loaded? && at.workers[w].loaded.Some?
    requires ReachesSave(at.workers[w].loaded.value, path)
    ensures var before := at.workers[w].loaded.value;
            var after := AfterTurn(before, path);
            var r := Conversations.MemSave(at.conversations, after, before.lockVersion);
            P.Apply(KeyLife.InMemory, at, P.Save(w, path)) == Some(
              if r.Err? then P.At(at, w, P.Failing)
              else at.(conversations := r.value, saves := at.saves + [P.SaveRecord(w, before, after)],
                       workers := at.workers[w := at.workers[w].(phase := P.Saved, saved := Some(after))]))
  {
    hide AfterTurn, Conversations.MemSave, ReachesSave;
  }

  lemma EnqueueStep(at: P.World, w: nat, body: string)
    requires w in at.workers && at.workers[w].phase.Saved?
    ensures var key := P.ReplyKey(at.workers[w].env.key);
            P.Apply(KeyLife.InMemory, at, P.Enqueue(w, body)) == Some(
              if !P.Deliverable(at.workers[w].env.key, body) then P.At(at, w, P.Failing)
              else P.Put(KeyLife.InMemory, P.At(at, w, P.Enqueued), w, key, body))
  {
    hide P.Deliverable, P.ReplyKey, P.Put;
  }

  lemma RunsNothing(s: P.World)
    ensures P.Run(KeyLife.InMemory, s, []) == Some(s)
  {
  }

  lemma KnownAfterwards(b: MemoryOutbox.Box, m: MemoryOutbox.Message)
    ensures MemoryOutbox.Known(MemoryOutbox.Apply(b, MemoryOutbox.OpEnqueue(m)), m.key)
  {
    MemoryOutbox.Appended(b.pending, [m], m.key);
  }

  /** One more step of a run. */
  lemma Took(s: P.World, steps: seq<P.Step>, at: P.World, step: P.Step) returns (more: seq<P.Step>, next: P.World)
    requires P.Run(KeyLife.InMemory, s, steps) == Some(at) && P.Apply(KeyLife.InMemory, at, step).Some?
    ensures P.Run(KeyLife.InMemory, s, more) == Some(next)
    ensures next == P.Apply(KeyLife.InMemory, at, step).value
  {
    hide P.Apply;
    more, next := steps + [step], P.Apply(KeyLife.InMemory, at, step).value;
    RunsOneFurther(s, steps, at, step);
  }

  lemma {:induction false} RunsOneFurther(s: P.World, steps: seq<P.Step>, at: P.World, step: P.Step)
    requires P.Run(KeyLife.InMemory, s, steps) == Some(at)
    ensures P.Run(KeyLife.InMemory, s, steps + [step]) == P.Apply(KeyLife.InMemory, at, step)
    decreases |steps|
  {
    hide P.Apply;
    if steps == [] {
      assert (steps + [step])[1..] == [];
    } else {
      assert (steps + [step])[1..] == steps[1..] + [step];
      RunsOneFurther(P.Apply(KeyLife.InMemory, s, steps[0]).value, steps[1..], at, step);
    }
  }
}

/** The conversation state machine and the trigger sequences a turn applies to it. */
module Machine {
  import opened Wrappers

  datatype ConversationState =
    | New | CollectingRequirements | ReadyToMatch | Matching | ShortlistReady | AwaitingSelection
    | DemoRequested | DemoHandoff | HumanReview | NoMatch | Closed | ErrorRecoverable

  datatype Trigger =
    | MessageReceived | RequirementsIncomplete | RequirementsComplete | MatchStarted
    | ShortlistGenerated | NoCandidates | ShortlistDelivered | ParentSelected | DemoAsked
    | DemoHandedOff | RequirementsChanged | HumanHandoff | RecoverableError | Retry | Close

  /** The transition table; whatever it does not list is forbidden. */
  function Transition(state: ConversationState, trigger: Trigger): Option<ConversationState> {
    match (state, trigger)
    case (New, MessageReceived) => Some(CollectingRequirements)
    case (New, RequirementsComplete) => Some(ReadyToMatch)
    case (New, HumanHandoff) => Some(HumanReview)
    case (CollectingRequirements, MessageReceived) => Some(CollectingRequirements)
    case (CollectingRequirements, RequirementsIncomplete) => Some(CollectingRequirements)
    case (CollectingRequirements, RequirementsComplete) => Some(ReadyToMatch)
    case (CollectingRequirements, HumanHandoff) => Some(HumanReview)
    case (CollectingRequirements, Close) => Some(Closed)
    case (ReadyToMatch, MatchStarted) => Some(Matching)
    case (ReadyToMatch, MessageReceived) => Some(CollectingRequirements)
    case (ReadyToMatch, HumanHandoff) => Some(HumanReview)
    case (Matching, ShortlistGenerated) => Some(ShortlistReady)
    case (Matching, NoCandidates) => Some(NoMatch)
    case (Matching, RecoverableError) => Some(ErrorRecoverable)
    case (Matching, HumanHandoff) => Some(HumanReview)
    case (ShortlistReady, ShortlistDelivered) => Some(AwaitingSelection)
    case (ShortlistReady, RecoverableError) => Some(ErrorRecoverable)
    case (AwaitingSelection, ParentSelected) => Some(DemoRequested)
    case (AwaitingSelection, DemoAsked) => Some(DemoRequested)
    case (AwaitingSelection, RequirementsChanged) => Some(CollectingRequirements)
    case (AwaitingSelection, MessageReceived) => Some(AwaitingSelection)
    case (AwaitingSelection, HumanHandoff) => Some(HumanReview)
    case (AwaitingSelection, Close) => Some(Closed)
    case (DemoRequested, DemoHandedOff) => Some(DemoHandoff)
    case (DemoRequested, RecoverableError) => Some(ErrorRecoverable)
    case (DemoRequested, HumanHandoff) => Some(HumanReview)
    case (NoMatch, RequirementsChanged) => Some(CollectingRequirements)
    case (NoMatch, MessageReceived) => Some(CollectingRequirements)
    case (NoMatch, HumanHandoff) => Some(HumanReview)
    case (NoMatch, Close) => Some(Closed)
    case (ErrorRecoverable, Retry) => Some(ReadyToMatch)
    case (ErrorRecoverable, MessageReceived) => Some(CollectingRequirements)
    case (ErrorRecoverable, HumanHandoff) => Some(HumanReview)
    case (HumanReview, Close) => Some(Closed)
    case _ => None
  }

  const HISTORY_LIMIT := 40

  datatype TransitionRecord = TransitionRecord(before: ConversationState, after: ConversationState, trigger: Trigger)

  datatype Snapshot = Snapshot(
    conversation: string,
    state: ConversationState,
    lockVersion: nat,
    turnCount: nat,
    history: seq<TransitionRecord>)

  /** What a load returns for a conversation never saved. */
  function Fresh(conversation: string): Snapshot {
    Snapshot(conversation, New, 0, 0, [])
  }

  function LastOf<T>(s: seq<T>, n: nat): seq<T> {
    if |s| <= n then s else s[|s| - n..]
  }

  /** Apply a trigger if it is legal; otherwise return the snapshot unchanged and `false`. */
  function TryTransition(s: Snapshot, trigger: Trigger): (Snapshot, bool) {
    match Transition(s.state, trigger)
    case None => (s, false)
    case Some(target) =>
      (Snapshot(
         s.conversation,
         target,
         s.lockVersion + 1,
         s.turnCount + (if trigger == MessageReceived then 1 else 0),
         LastOf(s.history + [TransitionRecord(s.state, target, trigger)], HISTORY_LIMIT)),
       true)
  }

  function ApplyAll(s: Snapshot, triggers: seq<Trigger>): Snapshot
    decreases triggers
  {
    if triggers == [] then s else ApplyAll(TryTransition(s, triggers[0]).0, triggers[1..])
  }

  function NextState(state: ConversationState, trigger: Trigger): ConversationState {
    Transition(state, trigger).GetOr(state)
  }

  function StateAfter(state: ConversationState, triggers: seq<Trigger>): ConversationState
    decreases triggers
  {
    if triggers == [] then state else StateAfter(NextState(state, triggers[0]), triggers[1..])
  }

  /** How many of `triggers` are legal when applied in order from `state`. */
  function LegalSteps(state: ConversationState, triggers: seq<Trigger>): nat
    decreases triggers
  {
    if triggers == [] then 0
    else (if Transition(state, triggers[0]).Some? then 1 else 0) + LegalSteps(NextState(state, triggers[0]), triggers[1..])
  }

  /** The lock version counts legal triggers, and a turn with none leaves the snapshot identical. */
  lemma {:induction false} VersionCountsLegalSteps(s: Snapshot, triggers: seq<Trigger>)
    ensures ApplyAll(s, triggers).lockVersion == s.lockVersion + LegalSteps(s.state, triggers)
    ensures ApplyAll(s, triggers).state == StateAfter(s.state, triggers)
    ensures ApplyAll(s, triggers).conversation == s.conversation
    ensures LegalSteps(s.state, triggers) == 0 ==> ApplyAll(s, triggers) == s
    decreases triggers
  {
    if triggers != [] {
      VersionCountsLegalSteps(TryTransition(s, triggers[0]).0, triggers[1..]);
    }
  }

  /** The branches of a turn that save a conversation. */
  datatype TurnPath = Lookup | Clarify | Match(matched: bool, needsHuman: bool) | Selection

  function TriggersOf(path: TurnPath): seq<Trigger> {
    match path
    case Lookup => [MessageReceived, RequirementsIncomplete]
    case Clarify => [MessageReceived, RequirementsIncomplete]
    case Match(matched, needsHuman) =>
      [MessageReceived, RequirementsComplete, MatchStarted, if matched then ShortlistGenerated else NoCandidates]
      + (if needsHuman then [HumanHandoff] else if matched then [ShortlistDelivered] else [])
    case Selection => [ParentSelected]
  }

  /** The snapshot a turn saves after loading `loaded`. */
  function AfterTurn(loaded: Snapshot, path: TurnPath): Snapshot {
    ApplyAll(loaded, TriggersOf(path))
  }

  /** Whether a turn reaches its save: a selection in the wrong state returns before it. */
  predicate ReachesSave(loaded: Snapshot, path: TurnPath) {
    path == Selection ==> Transition(loaded.state, ParentSelected).Some?
  }

  /** The states in which a turn saves without advancing the lock version. */
  predicate Frozen(state: ConversationState, path: TurnPath) {
    match path
    case Lookup => state in {Matching, ShortlistReady, DemoRequested, DemoHandoff, HumanReview, Closed}
    case Clarify => state in {Matching, ShortlistReady, DemoRequested, DemoHandoff, HumanReview, Closed}
    case Match(matched, needsHuman) =>
      || state in {DemoHandoff, HumanReview, Closed}
      || (state == ShortlistReady && (needsHuman || !matched))
      || (state == DemoRequested && !needsHuman)
    case Selection => false
  }

  /** The exact condition under which a successful save does not raise the version; then it also
    * leaves the snapshot as it was. */
  lemma VersionAdvancesUnlessFrozen(loaded: Snapshot, path: TurnPath)
    requires ReachesSave(loaded, path)
    ensures AfterTurn(loaded, path).conversation == loaded.conversation
    ensures Frozen(loaded.state, path) ==> AfterTurn(loaded, path) == loaded
    ensures !Frozen(loaded.state, path) ==> AfterTurn(loaded, path).lockVersion > loaded.lockVersion
  {
    VersionCountsLegalSteps(loaded, TriggersOf(path));
    LegalStepsOf(loaded.state, path);
  }

  lemma OneTrigger(state: ConversationState, t: Trigger, rest: seq<Trigger>)
    ensures LegalSteps(state, [t] + rest) == (if Transition(state, t).Some? then 1 else 0) + LegalSteps(NextState(state, t), rest)
    ensures StateAfter(state, [t] + rest) == StateAfter(NextState(state, t), rest)
  {
    assert ([t] + rest)[1..] == rest;
  }

  lemma TwoTriggers(state: ConversationState, t: Trigger, u: Trigger, rest: seq<Trigger>)
    ensures var next := NextState(state, t);
            && LegalSteps(state, [t, u] + rest) ==
               (if Transition(state, t).Some? then 1 else 0) + (if Transition(next, u).Some? then 1 else 0)
               + LegalSteps(NextState(next, u), rest)
            && StateAfter(state, [t, u] + rest) == StateAfter(NextState(next, u), rest)
  {
    assert [t, u] + rest == [t] + ([u] + rest);
    OneTrigger(state, t, [u] + rest);
    OneTrigger(NextState(state, t), u, rest);
  }

  /** The end of a matching turn: shortlist or not, then hand over to a human, deliver, or stop. */
  function MatchEnd(matched: bool, needsHuman: bool): seq<Trigger> {
    if needsHuman then [HumanHandoff] else if matched then [ShortlistDelivered] else []
  }

  predicate StartsMatching(state: ConversationState) {
    state in {New, CollectingRequirements, ReadyToMatch, Matching, NoMatch, ErrorRecoverable}
  }

  /** The first three triggers of a matching turn: where they lead, and when none is legal. */
  lemma MatchPrefix(state: ConversationState, rest: seq<Trigger>)
    ensures var prefix := [MessageReceived, RequirementsComplete] + ([MatchStarted] + rest);
            var reached := if StartsMatching(state) then Matching else state;
            && StateAfter(state, prefix) == StateAfter(reached, rest)
            && (LegalSteps(state, prefix) == 0 <==>
                LegalSteps(reached, rest) == 0 && state in {Matching, ShortlistReady, DemoRequested, DemoHandoff, HumanReview, Closed})
  {
    hide LegalSteps, StateAfter;
    TwoTriggers(state, MessageReceived, RequirementsComplete, [MatchStarted] + rest);
    OneTrigger(NextState(NextState(state, MessageReceived), RequirementsComplete), MatchStarted, rest);
  }

  lemma MatchUnfolds(state: ConversationState, matched: bool, needsHuman: bool)
    ensures var found := if matched then ShortlistGenerated else NoCandidates;
            var rest := [found] + MatchEnd(matched, needsHuman);
            var reached := if StartsMatching(state) then Matching else state;
            && StateAfter(state, TriggersOf(Match(matched, needsHuman))) == StateAfter(reached, rest)
            && (LegalSteps(state, TriggersOf(Match(matched, needsHuman))) == 0 <==>
                LegalSteps(reached, rest) == 0 && state in {Matching, ShortlistReady, DemoRequested, DemoHandoff, HumanReview, Closed})
  {
    hide LegalSteps, StateAfter;
    var rest := [if matched then ShortlistGenerated else NoCandidates] + MatchEnd(matched, needsHuman);
    assert TriggersOf(Match(matched, needsHuman)) == [MessageReceived, RequirementsComplete] + ([MatchStarted] + rest);
    MatchPrefix(state, rest);
  }

  /** The last triggers of a matching turn, from wherever the first three led. */
  lemma MatchSuffix(state: ConversationState, matched: bool, needsHuman: bool)
    requires !StartsMatching(state) || state == Matching
    ensures var found := if matched then ShortlistGenerated else NoCandidates;
            var rest := [found] + MatchEnd(matched, needsHuman);
            var shortlisted := NextState(state, found);
            && (LegalSteps(state, rest) == 0 <==>
                Frozen(state, Match(matched, needsHuman)) || (state == AwaitingSelection && !needsHuman))
            && StateAfter(state, rest) ==
               (if needsHuman then NextState(shortlisted, HumanHandoff)
                else if matched then NextState(shortlisted, ShortlistDelivered) else shortlisted)
  {
    hide LegalSteps, StateAfter;
    var found := if matched then ShortlistGenerated else NoCandidates;
    var end := MatchEnd(matched, needsHuman);
    OneTrigger(state, found, end);
    NoTriggers(NextState(state, found));
    if end != [] {
      assert end == [end[0]] + [];
      OneTrigger(NextState(state, found), end[0], []);
      NoTriggers(NextState(NextState(state, found), end[0]));
    }
  }

  lemma NoTriggers(state: ConversationState)
    ensures LegalSteps(state, []) == 0 && StateAfter(state, []) == state
  {
  }

  lemma LegalStepsOf(state: ConversationState, path: TurnPath)
    requires path == Selection ==> Transition(state, ParentSelected).Some?
    ensures LegalSteps(state, TriggersOf(path)) == 0 <==> Frozen(state, path)
  {
    hide LegalSteps, StateAfter;
    match path
    case Match(matched, needsHuman) =>
      MatchUnfolds(state, matched, needsHuman);
      MatchSuffix(if StartsMatching(state) then Matching else state, matched, needsHuman);
    case Selection =>
      assert TriggersOf(path) == [ParentSelected] + [];
      OneTrigger(state, ParentSelected, []);
    case _ =>
      assert TriggersOf(path) == [MessageReceived, RequirementsIncomplete] + [];
      TwoTriggers(state, MessageReceived, RequirementsIncomplete, []);
      NoTriggers(NextState(NextState(state, MessageReceived), RequirementsIncomplete));
  }

  /** A turn that asks for a human reaches HUMAN_REVIEW unless a shortlist was just generated, or the
    * conversation is past the point where the table allows it: from SHORTLIST_READY there is no
    * handoff transition. */
  lemma HandoffReachesHumanReview(loaded: Snapshot, matched: bool)
    ensures AfterTurn(loaded, Match(matched, true)).state == HumanReview <==>
            || loaded.state in {AwaitingSelection, DemoRequested, HumanReview}
            || (!matched && loaded.state !in {ShortlistReady, DemoHandoff, Closed})
    ensures matched && loaded.state in {New, CollectingRequirements, ReadyToMatch, Matching, NoMatch, ErrorRecoverable} ==>
              AfterTurn(loaded, Match(true, true)).state == ShortlistReady
  {
    hide LegalSteps, StateAfter, ApplyAll;
    VersionCountsLegalSteps(loaded, TriggersOf(Match(matched, true)));
    MatchUnfolds(loaded.state, matched, true);
    MatchSuffix(if StartsMatching(loaded.state) then Matching else loaded.state, matched, true);
  }

  /** A first save always stores a version of at least 1. */
  lemma FirstSaveIsVersioned(conversation: string, path: TurnPath)
    requires ReachesSave(Fresh(conversation), path)
    ensures AfterTurn(Fresh(conversation), path).lockVersion >= 1
  {
    VersionAdvancesUnlessFrozen(Fresh(conversation), path);
  }

  // ------------------------------------------------------- where triggers and turns lead

  /** A trigger's name says where it leads, whatever it starts from; only a message leaves a parent who is choosing a
    * tutor where they are. */
  lemma TriggersLeadByName(state: ConversationState, trigger: Trigger)
    requires Transition(state, trigger).Some?
    ensures var target := Transition(state, trigger).value;
            match trigger
            case MessageReceived => target == (if state == AwaitingSelection then AwaitingSelection else CollectingRequirements)
            case RequirementsIncomplete | RequirementsChanged => target == CollectingRequirements
            case RequirementsComplete | Retry => target == ReadyToMatch
            case MatchStarted => target == Matching
            case ShortlistGenerated => target == ShortlistReady
            case NoCandidates => target == NoMatch
            case ShortlistDelivered => target == AwaitingSelection
            case ParentSelected | DemoAsked => target == DemoRequested
            case DemoHandedOff => target == DemoHandoff
            case HumanHandoff => target == HumanReview
            case RecoverableError => target == ErrorRecoverable
            case Close => target == Closed
  {
  }

  /** Nothing leaves a closed or handed-over conversation, only a close leaves human review, and every other state can
    * be left. */
  lemma DoorsOut(state: ConversationState, trigger: Trigger)
    ensures state == Closed || state == DemoHandoff ==> Transition(state, trigger).None?
    ensures state == HumanReview ==> (Transition(state, trigger).Some? <==> trigger == Close)
    ensures Transition(state, trigger).Some? && state !in {Closed, DemoHandoff, HumanReview} ==>
              exists other :: Transition(state, other).Some? && Transition(state, other).value != state
  {
    match state
    case New => assert Transition(state, MessageReceived).Some?;
    case CollectingRequirements => assert Transition(state, RequirementsComplete).Some?;
    case ReadyToMatch => assert Transition(state, MatchStarted).Some?;
    case Matching => assert Transition(state, NoCandidates).Some?;
    case ShortlistReady => assert Transition(state, ShortlistDelivered).Some?;
    case AwaitingSelection => assert Transition(state, ParentSelected).Some?;
    case DemoRequested => assert Transition(state, DemoHandedOff).Some?;
    case NoMatch => assert Transition(state, MessageReceived).Some?;
    case ErrorRecoverable => assert Transition(state, Retry).Some?;
    case _ =>
  }

  /** From which states a conversation can be handed to a human, closed, retried, or fail. */
  lemma LegalFrom(state: ConversationState)
    ensures Transition(state, HumanHandoff).Some? <==> state !in {ShortlistReady, DemoHandoff, HumanReview, Closed}
    ensures Transition(state, Close).Some? <==> state in {CollectingRequirements, AwaitingSelection, NoMatch, HumanReview}
    ensures Transition(state, Retry).Some? <==> state == ErrorRecoverable
    ensures Transition(state, RecoverableError).Some? <==> state in {Matching, ShortlistReady, DemoRequested}
    ensures Transition(state, DemoHandedOff).Some? <==> state == DemoRequested
    ensures Transition(state, ParentSelected).Some? <==> state == AwaitingSelection
    ensures Transition(state, DemoAsked).Some? <==> state == AwaitingSelection
    ensures Transition(state, RequirementsChanged).Some? <==> state in {AwaitingSelection, NoMatch}
    ensures Transition(state, MessageReceived).Some? <==>
      state in {New, CollectingRequirements, ReadyToMatch, AwaitingSelection, NoMatch, ErrorRecoverable}
  {
  }

  /** Triggers that lead from a new conversation to a state. */
  function WayTo(state: ConversationState): seq<Trigger> {
    match state
    case New => []
    case CollectingRequirements => [MessageReceived]
    case ReadyToMatch => [RequirementsComplete]
    case Matching => [RequirementsComplete, MatchStarted]
    case ShortlistReady => [RequirementsComplete, MatchStarted, ShortlistGenerated]
    case AwaitingSelection => [RequirementsComplete, MatchStarted, ShortlistGenerated, ShortlistDelivered]
    case DemoRequested => [RequirementsComplete, MatchStarted, ShortlistGenerated, ShortlistDelivered, ParentSelected]
    case DemoHandoff => [RequirementsComplete, MatchStarted, ShortlistGenerated, ShortlistDelivered, ParentSelected, DemoHandedOff]
    case HumanReview => [HumanHandoff]
    case NoMatch => [RequirementsComplete, MatchStarted, NoCandidates]
    case Closed => [HumanHandoff, Close]
    case ErrorRecoverable => [RequirementsComplete, MatchStarted, RecoverableError]
  }

  lemma {:induction false} OneMoreTrigger(state: ConversationState, triggers: seq<Trigger>, t: Trigger)
    ensures StateAfter(state, triggers + [t]) == NextState(StateAfter(state, triggers), t)
    ensures LegalSteps(state, triggers + [t])
         == LegalSteps(state, triggers) + (if Transition(StateAfter(state, triggers), t).Some? then 1 else 0)
    decreases triggers
  {
    hide Transition;
    if triggers == [] {
      assert [] + [t] == [t] && [t][1..] == [];
    } else {
      assert (triggers + [t])[1..] == triggers[1..] + [t];
      OneMoreTrigger(NextState(state, triggers[0]), triggers[1..], t);
    }
  }

  /** No state is orphaned: legal triggers lead from a new conversation to each. */
  lemma {:induction false} EveryStateIsReached(state: ConversationState)
    ensures StateAfter(New, WayTo(state)) == state && LegalSteps(New, WayTo(state)) == |WayTo(state)|
    decreases |WayTo(state)|
  {
    hide StateAfter, LegalSteps;
    if state == New {
      NoTriggers(New);
    } else {
      var way := WayTo(state);
      var n := |way| - 1;
      assert way == way[..n] + [way[n]];
      var before := match state
        case CollectingRequirements | ReadyToMatch | HumanReview => New
        case Matching => ReadyToMatch
        case ShortlistReady | NoMatch | ErrorRecoverable => Matching
        case AwaitingSelection => ShortlistReady
        case DemoRequested => AwaitingSelection
        case DemoHandoff => DemoRequested
        case _ => HumanReview;
      assert way[..n] == WayTo(before);
      EveryStateIsReached(before);
      OneMoreTrigger(New, way[..n], way[n]);
    }
  }

  /** The state a turn leaves behind, by name. */
  predicate EndsIn(was: ConversationState, path: TurnPath, end: ConversationState) {
    match path
    case Lookup | Clarify =>
      end == if was in {New, CollectingRequirements, ReadyToMatch, NoMatch, ErrorRecoverable} then CollectingRequirements else was
    case Selection => was == AwaitingSelection && end == DemoRequested
    case Match(matched, needsHuman) =>
      if was in {New, CollectingRequirements, ReadyToMatch, Matching, NoMatch, ErrorRecoverable} then
        end == if needsHuman then (if matched then ShortlistReady else HumanReview) else if matched then AwaitingSelection else NoMatch
      else if needsHuman then
        end == if was in {AwaitingSelection, DemoRequested} then HumanReview else was
      else
        end == if was == ShortlistReady && matched then AwaitingSelection else was
  }

  /** Every turn that saves ends where its path says, keeps its conversation, and counts a message exactly if it
    * arrived in a state that takes messages. */
  lemma TurnsEndByName(loaded: Snapshot, path: TurnPath)
    requires ReachesSave(loaded, path)
    ensures EndsIn(loaded.state, path, AfterTurn(loaded, path).state)
    ensures AfterTurn(loaded, path).conversation == loaded.conversation
    ensures AfterTurn(loaded, path).turnCount == loaded.turnCount
      + (if path != Selection && loaded.state in {New, CollectingRequirements, ReadyToMatch, AwaitingSelection, NoMatch, ErrorRecoverable}
         then 1 else 0)
  {
    hide LegalSteps, StateAfter, ApplyAll, Transition, EndsIn;
    VersionCountsLegalSteps(loaded, TriggersOf(path));
    TurnCounts(loaded, path);
    LegalFrom(loaded.state);
    match path
    case Match(matched, needsHuman) => MatchEndsIn(loaded.state, matched, needsHuman);
    case _ => ShortTurnEndsIn(loaded.state, path);
  }

  lemma MatchEndsIn(state: ConversationState, matched: bool, needsHuman: bool)
    ensures EndsIn(state, Match(matched, needsHuman), StateAfter(state, TriggersOf(Match(matched, needsHuman))))
  {
    hide LegalSteps, StateAfter;
    MatchUnfolds(state, matched, needsHuman);
    MatchSuffix(if StartsMatching(state) then Matching else state, matched, needsHuman);
  }

  lemma ShortTurnEndsIn(state: ConversationState, path: TurnPath)
    requires !path.Match? && (path == Selection ==> Transition(state, ParentSelected).Some?)
    ensures EndsIn(state, path, StateAfter(state, TriggersOf(path)))
  {
    hide LegalSteps, StateAfter;
    if path == Selection {
      assert TriggersOf(path) == [ParentSelected] + [];
      OneTrigger(state, ParentSelected, []);
      NoTriggers(NextState(state, ParentSelected));
    } else {
      assert TriggersOf(path) == [MessageReceived, RequirementsIncomplete] + [];
      TwoTriggers(state, MessageReceived, RequirementsIncomplete, []);
      NoTriggers(NextState(NextState(state, MessageReceived), RequirementsIncomplete));
    }
  }

  lemma {:induction false} OnlyMessagesCount(s: Snapshot, triggers: seq<Trigger>)
    requires MessageReceived !in triggers
    ensures ApplyAll(s, triggers).turnCount == s.turnCount
    decreases triggers
  {
    hide Transition;
    if triggers != [] {
      OnlyMessagesCount(TryTransition(s, triggers[0]).0, triggers[1..]);
    }
  }

  lemma TurnCounts(loaded: Snapshot, path: TurnPath)
    ensures AfterTurn(loaded, path).turnCount == loaded.turnCount
      + (if path != Selection && Transition(loaded.state, MessageReceived).Some? then 1 else 0)
  {
    hide Transition;
    var ts := TriggersOf(path);
    if path == Selection {
      OnlyMessagesCount(loaded, ts);
    } else {
      assert ts[0] == MessageReceived && MessageReceived !in ts[1..];
      OnlyMessagesCount(TryTransition(loaded, MessageReceived).0, ts[1..]);
    }
  }

  // -------------------------------------------------------------- the history

  /** The records of the legal ones among some triggers. */
  function Records(state: ConversationState, triggers: seq<Trigger>): seq<TransitionRecord>
    decreases triggers
  {
    if triggers == [] then []
    else
      (if Transition(state, triggers[0]).Some? then [TransitionRecord(state, NextState(state, triggers[0]), triggers[0])] else [])
      + Records(NextState(state, triggers[0]), triggers[1..])
  }

  /** A walk along the table from one state to another, one record a step. */
  ghost predicate IsWalk(from: ConversationState, records: seq<TransitionRecord>, to: ConversationState) {
    && (forall i :: 0 <= i < |records| ==> Transition(records[i].before, records[i].trigger) == Some(records[i].after))
    && (forall i :: 0 < i < |records| ==> records[i].before == records[i - 1].after)
    && (if records == [] then from == to else records[0].before == from && records[|records| - 1].after == to)
  }

  lemma LastOfTwice<T>(h: seq<T>, a: seq<T>, n: nat)
    ensures LastOf(LastOf(h, n) + a, n) == LastOf(h + a, n)
  {
  }

  /** What a turn adds to the history is the walk it made, cut to the newest forty records. */
  lemma {:induction false} HistoryIsTheWalk(s: Snapshot, triggers: seq<Trigger>)
    requires |s.history| <= HISTORY_LIMIT
    ensures ApplyAll(s, triggers).history == LastOf(s.history + Records(s.state, triggers), HISTORY_LIMIT)
    ensures IsWalk(s.state, Records(s.state, triggers), ApplyAll(s, triggers).state)
    ensures |Records(s.state, triggers)| == LegalSteps(s.state, triggers)
    decreases triggers
  {
    hide Transition;
    if triggers == [] {
      assert s.history + [] == s.history;
    } else {
      var next := TryTransition(s, triggers[0]).0;
      var rest := Records(NextState(s.state, triggers[0]), triggers[1..]);
      HistoryIsTheWalk(next, triggers[1..]);
      if Transition(s.state, triggers[0]).Some? {
        var first := TransitionRecord(s.state, next.state, triggers[0]);
        LastOfTwice(s.history + [first], rest, HISTORY_LIMIT);
        assert s.history + ([first] + rest) == (s.history + [first]) + rest;
        var all := [first] + rest;
        assert forall i :: 0 < i < |all| ==> all[i] == rest[i - 1];
      } else {
        assert [] + rest == rest;
      }
    }
  }
}

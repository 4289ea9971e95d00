/** Agent-to-agent envelopes: the handoff graph, and chains of next hops. */
module Handoffs {
  import opened Wrappers

  const MAX_HOPS := 6
  const KEY_LIMIT := 128

  datatype AgentId =
    | LeadIntake | Onboarding | TutorMatch | DemoCommandCenter | Chitragupta | Website
    | Counselor | Crm | Notification | Scheduling | Human

  function NameOf(a: AgentId): string {
    match a
    case LeadIntake => "lead_intake_agent"
    case Onboarding => "onboarding_agent"
    case TutorMatch => "tutor_match_meta"
    case DemoCommandCenter => "demo_command_center_agent"
    case Chitragupta => "chitragupta_memory"
    case Website => "nxtutors_website"
    case Counselor => "counselor_agent"
    case Crm => "crm_agent"
    case Notification => "notification_agent"
    case Scheduling => "scheduling_agent"
    case Human => "human_operator"
  }

  predicate EdgeAllowed(a: AgentId, b: AgentId) {
    match a
    case LeadIntake => b != LeadIntake && b != Website
    case Onboarding => b == Chitragupta || b == Website || b == Human
    case TutorMatch => b == Chitragupta || b == Website || b == DemoCommandCenter || b == Notification || b == Human
    case DemoCommandCenter => b == Chitragupta || b == Website || b == Notification || b == Human
    case Counselor => b == Human
    case Scheduling => b == Notification
    case _ => false
  }

  datatype Envelope = Envelope(eventId: string, traceId: string, causationId: Option<string>, correlationId: string,
                               source: AgentId, destination: AgentId, conversationRef: string, key: string,
                               hopCount: nat, visited: seq<AgentId>)

  datatype Refusal = SelfHandoff | AlreadyVisited | HopBudget | ForbiddenEdge | KeyTooLong

  function Root(eventId: string, traceId: string, correlationId: string, conversationRef: string,
                source: AgentId, destination: AgentId, key: string): Result<Envelope, Refusal> {
    if |key| > KEY_LIMIT then Err(KeyTooLong)
    else if source == destination then Err(SelfHandoff)
    else Ok(Envelope(eventId, traceId, None, correlationId, source, destination, conversationRef, key, 0, [source]))
  }

  function NextHop(e: Envelope, eventId: string, destination: AgentId): Result<Envelope, Refusal> {
    var chain := e.visited + [e.destination];
    var key := e.key + ":" + NameOf(destination);
    if destination in chain then Err(AlreadyVisited)
    else if e.hopCount + 1 > MAX_HOPS then Err(HopBudget)
    else if !EdgeAllowed(e.destination, destination) then Err(ForbiddenEdge)
    else if |key| > KEY_LIMIT then Err(KeyTooLong)
    else Ok(Envelope(eventId, e.traceId, Some(e.eventId), e.correlationId, e.destination, destination,
                     e.conversationRef, key, e.hopCount + 1, chain))
  }

  /** Follow a list of hops from an envelope; nothing if one is refused. */
  function Follow(e: Envelope, hops: seq<(string, AgentId)>): Option<Envelope> {
    if hops == [] then Some(e)
    else
      var before := Follow(e, hops[..|hops| - 1]);
      if before.None? then None
      else
        var next := NextHop(before.value, hops[|hops| - 1].0, hops[|hops| - 1].1);
        if next.Ok? then Some(next.value) else None
  }

  // -------------------------------------------------------------- the graph

  /** The most hops that can still follow from an agent. */
  function Height(a: AgentId): nat {
    match a
    case LeadIntake => 3
    case TutorMatch => 2
    case Onboarding | DemoCommandCenter | Counselor | Scheduling => 1
    case _ => 0
  }

  /** Every edge goes down, so the graph has no cycle. */
  lemma EdgesGoDown(a: AgentId, b: AgentId)
    requires EdgeAllowed(a, b)
    ensures Height(b) < Height(a)
  {
  }

  predicate IsPath(path: seq<AgentId>) {
    forall i :: 0 <= i < |path| - 1 ==> EdgeAllowed(path[i], path[i + 1])
  }

  lemma {:induction false} PathsGoDown(path: seq<AgentId>, i: nat, j: nat)
    requires IsPath(path) && i <= j < |path|
    ensures Height(path[i]) >= Height(path[j]) + (j - i)
    decreases j - i
  {
    if i < j {
      PathsGoDown(path, i + 1, j);
      EdgesGoDown(path[i], path[i + 1]);
    }
  }

  /** No walk along allowed edges returns to where it was, and none has more than three edges. */
  lemma GraphIsAcyclic(path: seq<AgentId>)
    requires IsPath(path)
    ensures forall i, j :: 0 <= i < j < |path| ==> path[i] != path[j]
    ensures |path| <= 4
  {
    forall i, j | 0 <= i < j < |path| ensures path[i] != path[j] {
      PathsGoDown(path, i, j);
    }
    if |path| > 0 {
      PathsGoDown(path, 0, |path| - 1);
    }
  }

  /** Who may hand over to an agent: the website and the lead intake aside, everybody may be given work only from above. */
  lemma SendersByName(a: AgentId, b: AgentId)
    requires EdgeAllowed(a, b)
    ensures b != LeadIntake
    ensures b in {Onboarding, TutorMatch, Counselor, Crm, Scheduling} ==> a == LeadIntake
    ensures b == DemoCommandCenter ==> a in {LeadIntake, TutorMatch}
    ensures b == Notification ==> a in {LeadIntake, TutorMatch, DemoCommandCenter, Scheduling}
    ensures b == Website ==> a in {Onboarding, TutorMatch, DemoCommandCenter}
    ensures b == Chitragupta ==> a in {LeadIntake, Onboarding, TutorMatch, DemoCommandCenter}
    ensures b == Human ==> a in {LeadIntake, Onboarding, TutorMatch, DemoCommandCenter, Counselor}
  {
  }

  /** And each of those may: by receiver, how many senders there are. */
  lemma ReceiversByName(a: AgentId)
    ensures (exists b :: EdgeAllowed(a, b)) <==> a in {LeadIntake, Onboarding, TutorMatch, DemoCommandCenter, Counselor, Scheduling}
    ensures a != LeadIntake && a != Website ==> EdgeAllowed(LeadIntake, a)
    ensures a in {Onboarding, TutorMatch, DemoCommandCenter} ==>
      EdgeAllowed(a, Chitragupta) && EdgeAllowed(a, Website) && EdgeAllowed(a, Human)
    ensures a in {TutorMatch, DemoCommandCenter, Scheduling} ==> EdgeAllowed(a, Notification)
    ensures EdgeAllowed(TutorMatch, DemoCommandCenter) && EdgeAllowed(Counselor, Human)
  {
    if a in {LeadIntake, Onboarding, TutorMatch, DemoCommandCenter, Counselor} {
      assert EdgeAllowed(a, Human);
    } else if a == Scheduling {
      assert EdgeAllowed(a, Notification);
    }
  }

  // -------------------------------------------------------------- chains

  /** Where the event has been and where it goes. */
  function Path(e: Envelope): seq<AgentId> {
    e.visited + [e.destination]
  }

  ghost predicate NoRepeats(s: seq<AgentId>) {
    forall i, j :: 0 <= i < j < |s| ==> s[i] != s[j]
  }

  /** What holds of every envelope a chain can reach from a root. */
  ghost predicate GoodChain(e: Envelope) {
    && NoRepeats(Path(e)) && |e.visited| == e.hopCount + 1 && e.visited[|e.visited| - 1] == e.source
    && IsPath(Path(e)[1..]) && e.hopCount + Height(e.destination) <= 3
  }

  /** The envelope starts a chain: some call of `Root` returns it. */
  ghost predicate IsRoot(e: Envelope) {
    exists eventId, traceId, correlationId, conversationRef, source, destination, key ::
      Root(eventId, traceId, correlationId, conversationRef, source, destination, key) == Ok(e)
  }

  lemma RootIsGood(root: Envelope)
    requires IsRoot(root)
    ensures GoodChain(root) && root.visited == [root.source] && root.hopCount == 0
  {
    assert Path(root) == [root.source, root.destination];
    assert Path(root)[1..] == [root.destination];
  }

  lemma HopIsGood(e: Envelope, eventId: string, destination: AgentId)
    requires GoodChain(e) && NextHop(e, eventId, destination).Ok?
    ensures GoodChain(NextHop(e, eventId, destination).value)
  {
    hide NameOf;
    var next := NextHop(e, eventId, destination).value;
    assert Path(next) == Path(e) + [destination];
    var was, path := Path(e)[1..], Path(next)[1..];
    assert path == was + [destination];
    assert was[|was| - 1] == e.destination;
    EdgesGoDown(e.destination, destination);
    forall i | 0 <= i < |path| - 1 ensures EdgeAllowed(path[i], path[i + 1]) {
      if i < |was| - 1 {
        assert path[i] == was[i] && path[i + 1] == was[i + 1];
      }
    }
  }

  lemma {:induction false} ChainIsGood(e: Envelope, hops: seq<(string, AgentId)>)
    requires GoodChain(e) && Follow(e, hops).Some?
    ensures GoodChain(Follow(e, hops).value)
    decreases |hops|
  {
    hide GoodChain, NextHop;
    if hops != [] {
      var n := |hops| - 1;
      ChainIsGood(e, hops[..n]);
      HopIsGood(Follow(e, hops[..n]).value, hops[n].0, hops[n].1);
    }
  }

  /** Every envelope a chain reaches from a root has visited its agents without repeats, the root's sender first and one
    * more than there were hops, never comes back to one, keeps its root's trace and conversation, names the event it came
    * from - and never gets past the third hop. */
  lemma ReachableEnvelopes(root: Envelope, hops: seq<(string, AgentId)>)
    requires IsRoot(root) && Follow(root, hops).Some?
    ensures var e := Follow(root, hops).value;
            && NoRepeats(e.visited) && e.destination !in e.visited
            && |e.visited| == e.hopCount + 1 && e.visited[0] == root.source
            && e.hopCount == |hops| <= 3
            && e.traceId == root.traceId && e.correlationId == root.correlationId && e.conversationRef == root.conversationRef
            && (hops != [] ==> e.causationId == Some(Follow(root, hops[..|hops| - 1]).value.eventId)
                               && e.source == Follow(root, hops[..|hops| - 1]).value.destination
                               && e.eventId == hops[|hops| - 1].0 && e.destination == hops[|hops| - 1].1)
  {
    hide NextHop, IsRoot;
    RootIsGood(root);
    ChainIsGood(root, hops);
    Inherited(root, hops);
    var e := Follow(root, hops).value;
    assert forall i :: 0 <= i < |e.visited| ==> Path(e)[i] == e.visited[i];
    assert Path(e)[|e.visited|] == e.destination;
  }

  lemma {:induction false} Inherited(root: Envelope, hops: seq<(string, AgentId)>)
    requires Follow(root, hops).Some?
    ensures var e := Follow(root, hops).value;
            && e.traceId == root.traceId && e.correlationId == root.correlationId && e.conversationRef == root.conversationRef
            && e.hopCount == root.hopCount + |hops| && root.visited <= e.visited
            && (hops != [] ==> Follow(root, hops[..|hops| - 1]).Some?
                               && e.causationId == Some(Follow(root, hops[..|hops| - 1]).value.eventId)
                               && e.source == Follow(root, hops[..|hops| - 1]).value.destination
                               && e.eventId == hops[|hops| - 1].0 && e.destination == hops[|hops| - 1].1)
    decreases |hops|
  {
    hide NameOf, EdgeAllowed;
    if hops != [] {
      Inherited(root, hops[..|hops| - 1]);
    }
  }

  /** The hop budget is never what stops a chain, and of the agents already visited only the root's own sender can be
    * reached by an allowed edge: from an envelope that a chain reaches from a root, a hop is refused exactly when the
    * graph forbids it, it returns to that sender, or the key has grown too long. */
  lemma HopsAreRefusedExactly(root: Envelope, hops: seq<(string, AgentId)>, eventId: string, destination: AgentId)
    requires IsRoot(root) && Follow(root, hops).Some?
    ensures var e := Follow(root, hops).value;
            NextHop(e, eventId, destination).Ok? <==>
              EdgeAllowed(e.destination, destination) && destination != root.source
              && |e.key + ":" + NameOf(destination)| <= KEY_LIMIT
  {
    hide NextHop, IsRoot, GoodChain, EdgeAllowed;
    RootIsGood(root);
    ChainIsGood(root, hops);
    ReachableEnvelopes(root, hops);
    GoodHopsAreRefusedExactly(Follow(root, hops).value, eventId, destination);
  }

  lemma GoodHopsAreRefusedExactly(e: Envelope, eventId: string, destination: AgentId)
    requires GoodChain(e)
    ensures NextHop(e, eventId, destination).Ok? <==>
      EdgeAllowed(e.destination, destination) && destination != e.visited[0]
      && |e.key + ":" + NameOf(destination)| <= KEY_LIMIT
  {
    hide NameOf;
    var path := Path(e);
    if EdgeAllowed(e.destination, destination) {
      EdgesGoDown(e.destination, destination);
      var tail := path[1..];
      var n := |tail| - 1;
      forall i | 0 < i < |path| ensures path[i] != destination {
        assert path[i] == tail[i - 1] && tail[n] == e.destination;
        PathsGoDown(tail, i - 1, n);
      }
      assert destination in path ==> destination == path[0];
      assert path[0] == e.visited[0];
    }
  }

  // -------------------------------------------------------------- the key

  /** What a chain of hops adds to the idempotency key. */
  function KeySuffix(hops: seq<(string, AgentId)>): string {
    if hops == [] then "" else KeySuffix(hops[..|hops| - 1]) + ":" + NameOf(hops[|hops| - 1].1)
  }

  lemma {:induction false} KeyIsRootAndPath(root: Envelope, hops: seq<(string, AgentId)>)
    requires Follow(root, hops).Some?
    ensures Follow(root, hops).value.key == root.key + KeySuffix(hops)
    decreases |hops|
  {
    hide NameOf, EdgeAllowed;
    if hops != [] {
      var n := |hops| - 1;
      KeyIsRootAndPath(root, hops[..n]);
      var name := NameOf(hops[n].1);
      assert (root.key + KeySuffix(hops[..n])) + ":" + name == root.key + (KeySuffix(hops[..n]) + ":" + name);
    }
  }

  predicate NoColon(s: string) {
    ':' !in s
  }

  lemma NamesHaveNoColon(a: AgentId)
    ensures NoColon(NameOf(a))
  {
    if a.LeadIntake? || a.Onboarding? || a.TutorMatch? || a.Crm? || a.Human? {
    } else {
      OtherNamesHaveNoColon(a);
    }
  }

  lemma OtherNamesHaveNoColon(a: AgentId)
    requires !(a.LeadIntake? || a.Onboarding? || a.TutorMatch? || a.Crm? || a.Human?)
    ensures NoColon(NameOf(a))
  {
  }

  /** Length and first letter tell the names apart. */
  function Print(s: string): int {
    if s == "" then 0 else |s| * 0x11_0000 + s[0] as int
  }

  lemma NamesDiffer(a: AgentId, b: AgentId)
    requires NameOf(a) == NameOf(b)
    ensures a == b
  {
    assert Print(NameOf(a)) == Print(NameOf(b));
  }

  /** The first colon mark cannot be inside the second part. */
  lemma NotLater(x: string, a: string, y: string, b: string)
    requires x + ":" + a == y + ":" + b && NoColon(b)
    ensures |x| <= |y|
  {
    var s := y + ":" + b;
    assert (x + ":" + a)[|x|] == ':';
    assert forall i :: |y| < i < |s| ==> s[i] == b[i - |y| - 1];
  }

  /** The text after the last colon is determined. */
  lemma LastPart(x: string, a: string, y: string, b: string)
    requires x + ":" + a == y + ":" + b && NoColon(a) && NoColon(b)
    ensures x == y && a == b
  {
    NotLater(x, a, y, b);
    NotLater(y, b, x, a);
    var s := x + ":" + a;
    assert s[..|x|] == x && (y + ":" + b)[..|y|] == y;
    assert s[|x| + 1..] == a && (y + ":" + b)[|y| + 1..] == b;
  }

  function Destinations(hops: seq<(string, AgentId)>): (r: seq<AgentId>)
    ensures |r| == |hops|
  {
    seq(|hops|, i requires 0 <= i < |hops| => hops[i].1)
  }

  lemma {:induction false} SuffixDeterminesPath(hs: seq<(string, AgentId)>, gs: seq<(string, AgentId)>)
    requires KeySuffix(hs) == KeySuffix(gs)
    ensures Destinations(hs) == Destinations(gs)
    decreases |hs|
  {
    hide NameOf;
    if hs != [] && gs != [] {
      var m, n := |hs| - 1, |gs| - 1;
      NamesHaveNoColon(hs[m].1);
      NamesHaveNoColon(gs[n].1);
      LastPart(KeySuffix(hs[..m]), NameOf(hs[m].1), KeySuffix(gs[..n]), NameOf(gs[n].1));
      NamesDiffer(hs[m].1, gs[n].1);
      SuffixDeterminesPath(hs[..m], gs[..n]);
      assert Destinations(hs) == Destinations(hs[..m]) + [hs[m].1];
      assert Destinations(gs) == Destinations(gs[..n]) + [gs[n].1];
    }
  }

  /** From one root, equal idempotency keys mean equal paths. */
  lemma KeyDeterminesPath(root: Envelope, hs: seq<(string, AgentId)>, gs: seq<(string, AgentId)>)
    requires Follow(root, hs).Some? && Follow(root, gs).Some?
    ensures Follow(root, hs).value.key == Follow(root, gs).value.key <==> Destinations(hs) == Destinations(gs)
  {
    hide Follow, KeySuffix;
    KeyIsRootAndPath(root, hs);
    KeyIsRootAndPath(root, gs);
    if root.key + KeySuffix(hs) == root.key + KeySuffix(gs) {
      assert (root.key + KeySuffix(hs))[|root.key|..] == KeySuffix(hs);
      assert (root.key + KeySuffix(gs))[|root.key|..] == KeySuffix(gs);
      SuffixDeterminesPath(hs, gs);
    }
    if Destinations(hs) == Destinations(gs) {
      PathDeterminesSuffix(hs, gs);
    }
  }

  lemma {:induction false} PathDeterminesSuffix(hs: seq<(string, AgentId)>, gs: seq<(string, AgentId)>)
    requires Destinations(hs) == Destinations(gs)
    ensures KeySuffix(hs) == KeySuffix(gs)
    decreases |hs|
  {
    hide NameOf;
    assert |hs| == |gs|;
    if hs != [] {
      var n := |hs| - 1;
      assert Destinations(hs)[n] == hs[n].1 && Destinations(gs)[n] == gs[n].1;
      assert Destinations(hs[..n]) == Destinations(hs)[..n] == Destinations(gs)[..n] == Destinations(gs[..n]);
      PathDeterminesSuffix(hs[..n], gs[..n]);
    }
  }
}

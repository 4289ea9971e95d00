/** Collecting a requirement over many turns: trust-ranked values, and the merge of two whole records. */
module Requirement {
  import opened Wrappers

  // -------------------------------------------------------------- tracked values

  /** Where a value came from, least trusted first. */
  datatype Provenance = PolicyDefault | Llm | Memory | LeadIntake | Deterministic | UserConfirmed

  function Rank(p: Provenance): nat {
    match p
    case PolicyDefault => 0
    case Llm => 1
    case Memory => 2
    case LeadIntake => 3
    case Deterministic => 4
    case UserConfirmed => 5
  }

  datatype Tracked = Tracked(value: string, confidence: real, provenance: Provenance, observedAt: Option<int>)

  predicate Beats(a: Tracked, b: Tracked) {
    if Rank(a.provenance) != Rank(b.provenance) then Rank(a.provenance) > Rank(b.provenance)
    else if a.confidence != b.confidence then a.confidence > b.confidence
    else a.observedAt.Some? && b.observedAt.Some? && a.observedAt.value > b.observedAt.value
  }

  lemma BeatsIsAStrictOrder(a: Tracked, b: Tracked, c: Tracked)
    ensures !Beats(a, a)
    ensures Beats(a, b) ==> !Beats(b, a)
    ensures Beats(a, b) && Beats(b, c) ==> Beats(a, c)
  {
  }

  /** Who is trusted more, by name. */
  predicate MoreTrusted(a: Provenance, b: Provenance) {
    match a
    case UserConfirmed => b != UserConfirmed
    case Deterministic => b in {LeadIntake, Memory, Llm, PolicyDefault}
    case LeadIntake => b in {Memory, Llm, PolicyDefault}
    case Memory => b in {Llm, PolicyDefault}
    case Llm => b == PolicyDefault
    case PolicyDefault => false
  }

  /** A value beats another from a less trusted source whatever their confidence; from the same source it beats one of
    * lower confidence, and of the same confidence one observed earlier if both say when. */
  lemma BeatsByName(a: Tracked, b: Tracked)
    ensures a.provenance != b.provenance ==> (Beats(a, b) <==> MoreTrusted(a.provenance, b.provenance))
    ensures a.provenance == b.provenance && a.confidence != b.confidence ==> (Beats(a, b) <==> a.confidence > b.confidence)
    ensures a.provenance == b.provenance && a.confidence == b.confidence ==>
      (Beats(a, b) <==> a.observedAt.Some? && b.observedAt.Some? && a.observedAt.value > b.observedAt.value)
  {
  }

  /** The merge of one tracked field: the newcomer only if there was nothing, or it beats what was there. */
  function MergeTracked(was: Option<Tracked>, new_: Option<Tracked>): Option<Tracked> {
    if new_.Some? && (was.None? || Beats(new_.value, was.value)) then new_ else was
  }

  /** The one way in which grouping matters: an unstamped value between two stamped ones it ties with. */
  predicate Clash(a: Option<Tracked>, b: Option<Tracked>, c: Option<Tracked>) {
    && a.Some? && b.Some? && c.Some?
    && Rank(a.value.provenance) == Rank(b.value.provenance) == Rank(c.value.provenance)
    && a.value.confidence == b.value.confidence == c.value.confidence
    && b.value.observedAt.None? && a.value.observedAt.Some? && c.value.observedAt.Some?
    && c.value.observedAt.value > a.value.observedAt.value
  }

  lemma TrackedMergeAssociatesExactly(a: Option<Tracked>, b: Option<Tracked>, c: Option<Tracked>)
    ensures MergeTracked(MergeTracked(a, b), c) == MergeTracked(a, MergeTracked(b, c)) <==> !Clash(a, b, c)
  {
  }

  // -------------------------------------------------------------- lists

  /** First occurrences, in order. */
  function Dedup(s: seq<string>): (r: seq<string>)
    ensures forall x :: x in r <==> x in s
  {
    if s == [] then []
    else
      var n := |s| - 1;
      assert s == s[..n] + [s[n]];
      if s[n] in s[..n] then Dedup(s[..n]) else Dedup(s[..n]) + [s[n]]
  }

  lemma DedupSnoc(s: seq<string>, x: string)
    ensures Dedup(s + [x]) == if x in s then Dedup(s) else Dedup(s) + [x]
  {
    assert (s + [x])[..|s|] == s;
  }

  lemma {:induction false} DedupForgetsLeft(x: seq<string>, y: seq<string>)
    ensures Dedup(Dedup(x) + y) == Dedup(x + y)
  {
    if y == [] {
      assert Dedup(x) + y == Dedup(x) && x + y == x;
      DedupIdempotent(x);
    } else {
      var n := |y| - 1;
      assert x + y == (x + y[..n]) + [y[n]] && Dedup(x) + y == (Dedup(x) + y[..n]) + [y[n]];
      DedupForgetsLeft(x, y[..n]);
      DedupSnoc(x + y[..n], y[n]);
      DedupSnoc(Dedup(x) + y[..n], y[n]);
    }
  }

  lemma {:induction false} DedupIdempotent(x: seq<string>)
    ensures Dedup(Dedup(x)) == Dedup(x)
  {
    if x != [] {
      var n := |x| - 1;
      DedupIdempotent(x[..n]);
      DedupSnoc(Dedup(x[..n]), x[n]);
    }
  }

  lemma {:induction false} DedupForgetsRight(x: seq<string>, y: seq<string>)
    ensures Dedup(x + Dedup(y)) == Dedup(x + y)
  {
    if y == [] {
      assert Dedup(y) == y;
    } else {
      hide Dedup;
      var n := |y| - 1;
      DedupForgetsRight(x, y[..n]);
      assert x + y == (x + y[..n]) + [y[n]] && y == y[..n] + [y[n]];
      DedupSnoc(y[..n], y[n]);
      DedupSnoc(x + y[..n], y[n]);
      if y[n] !in y[..n] {
        assert x + Dedup(y) == (x + Dedup(y[..n])) + [y[n]];
        DedupSnoc(x + Dedup(y[..n]), y[n]);
      }
    }
  }

  /** Where `x` occurs first. */
  function FirstAt(s: seq<string>, x: string): (i: nat)
    requires x in s
    ensures i < |s| && s[i] == x && x !in s[..i]
  {
    if s[0] == x then 0
    else
      assert x in s[1..];
      var i := FirstAt(s[1..], x) + 1;
      assert s[..i] == [s[0]] + s[1..][..i - 1];
      i
  }

  /** `r` has what `s` has, once each, in the order of first occurrence. */
  ghost predicate OnceInOrder(r: seq<string>, s: seq<string>) {
    && (forall x :: x in r <==> x in s)
    && (forall i, j :: 0 <= i < j < |r| ==> r[i] in s && r[j] in s && FirstAt(s, r[i]) < FirstAt(s, r[j]))
  }

  lemma {:induction false} FirstIsUnique(s: seq<string>, x: string, i: nat)
    requires i < |s| && s[i] == x && x !in s[..i]
    ensures FirstAt(s, x) == i
  {
    if i > 0 {
      assert s[..i] == [s[0]] + s[1..][..i - 1];
      FirstIsUnique(s[1..], x, i - 1);
    }
  }

  lemma FirstStays(s: seq<string>, x: string, y: string)
    requires y in s
    ensures y in s + [x] && FirstAt(s + [x], y) == FirstAt(s, y)
  {
    var i := FirstAt(s, y);
    assert (s + [x])[i] == y && (s + [x])[..i] == s[..i];
    FirstIsUnique(s + [x], y, i);
  }

  lemma {:induction false} DedupIsOnceInOrder(s: seq<string>)
    ensures OnceInOrder(Dedup(s), s)
  {
    hide FirstAt;
    if s != [] {
      var n := |s| - 1;
      var before, x := s[..n], s[n];
      assert s == before + [x];
      DedupIsOnceInOrder(before);
      forall y | y in before ensures y in s && FirstAt(s, y) == FirstAt(before, y) {
        FirstStays(before, x, y);
      }
      DedupSnoc(before, x);
      if x !in before {
        assert FirstAt(s, x) == n;
        assert forall i :: 0 <= i < |Dedup(before)| ==> Dedup(before)[i] in before;
      }
    }
  }

  // -------------------------------------------------------------- records

  /** The fields of a requirement, in declaration order. */
  datatype Field =
    | SchemaVersion | ConversationId | ParentRef | StudentRef | LeadId
    | Subject | AdditionalSubjects | Topics | WeakTopics | Board | StudentClass | Exam | LearningGoal
    | TeachingStyle | Language | TutorGender | ExplicitTutorRef
    | Mode | Location | Schedule | Timezone | SessionsPerWeek | SessionMinutes | StartBy
    | Budget | UrgencyLevel | DemoRequested | CapturedAt | TurnCount

  datatype Kind = Pinned | Identity | TrackedKind | Listing | Replaced | Ratchet

  function KindOf(f: Field): Kind {
    match f
    case SchemaVersion => Pinned
    case ConversationId | ParentRef | StudentRef | LeadId | ExplicitTutorRef => Identity
    case Subject | Board | StudentClass | Exam | LearningGoal | TeachingStyle | Language | TutorGender | Mode => TrackedKind
    case AdditionalSubjects | Topics | WeakTopics => Listing
    case Location | Schedule | Timezone | SessionsPerWeek | SessionMinutes | StartBy | Budget | CapturedAt => Replaced
    case UrgencyLevel | DemoRequested | TurnCount => Ratchet
  }

  /** Plain values carry their own truth: an empty string, `None`, a location without a place are false. */
  datatype Value =
    | Field(tracked: Option<Tracked>)
    | Names(names: seq<string>)
    | Plain(content: string, truthy: bool)
    | Level(level: nat)

  predicate Fits(k: Kind, v: Value) {
    match k
    case TrackedKind => v.Field?
    case Listing => v.Names?
    case Ratchet => v.Level?
    case _ => v.Plain?
  }

  type Record = map<Field, Value>

  ghost predicate WellFormed(r: Record) {
    forall f: Field :: f in r && Fits(KindOf(f), r[f])
  }

  function MergeValue(k: Kind, was: Value, new_: Value): Value
    requires Fits(k, was) && Fits(k, new_)
  {
    match k
    case Pinned => was
    case Identity | Replaced => if new_.truthy then new_ else was
    case TrackedKind => Field(MergeTracked(was.tracked, new_.tracked))
    case Listing => Names(Dedup(was.names + new_.names))
    case Ratchet => if new_.level > was.level then new_ else was
  }

  const FIELDS: seq<Field> := [
    SchemaVersion, ConversationId, ParentRef, StudentRef, LeadId,
    Subject, AdditionalSubjects, Topics, WeakTopics, Board, StudentClass, Exam, LearningGoal,
    TeachingStyle, Language, TutorGender, ExplicitTutorRef,
    Mode, Location, Schedule, Timezone, SessionsPerWeek, SessionMinutes, StartBy,
    Budget, UrgencyLevel, DemoRequested, CapturedAt, TurnCount]

  /** The tracked value of a field, if it has one. */
  function TrackedAt(r: Record, f: Field): Option<Tracked> {
    if f in r && r[f].Field? then r[f].tracked else None
  }

  /** The meaning of a merge: every field by the rule of its kind. */
  ghost function Merge(a: Record, b: Record): (r: Record)
    requires WellFormed(a) && WellFormed(b)
    ensures WellFormed(r)
    ensures forall f: Field :: r[f] == MergeValue(KindOf(f), a[f], b[f])
  {
    map f: Field | f in a.Keys :: MergeValue(KindOf(f), a[f], b[f])
  }

  lemma EveryFieldIsListed(f: Field)
    ensures f in FIELDS
  {
    match f
    case SchemaVersion => assert FIELDS[0] == f;
    case ConversationId => assert FIELDS[1] == f;
    case ParentRef => assert FIELDS[2] == f;
    case StudentRef => assert FIELDS[3] == f;
    case LeadId => assert FIELDS[4] == f;
    case Subject => assert FIELDS[5] == f;
    case AdditionalSubjects => assert FIELDS[6] == f;
    case Topics => assert FIELDS[7] == f;
    case WeakTopics => assert FIELDS[8] == f;
    case Board => assert FIELDS[9] == f;
    case StudentClass => assert FIELDS[10] == f;
    case Exam => assert FIELDS[11] == f;
    case LearningGoal => assert FIELDS[12] == f;
    case TeachingStyle => assert FIELDS[13] == f;
    case Language => assert FIELDS[14] == f;
    case TutorGender => assert FIELDS[15] == f;
    case ExplicitTutorRef => assert FIELDS[16] == f;
    case Mode => assert FIELDS[17] == f;
    case Location => assert FIELDS[18] == f;
    case Schedule => assert FIELDS[19] == f;
    case Timezone => assert FIELDS[20] == f;
    case SessionsPerWeek => assert FIELDS[21] == f;
    case SessionMinutes => assert FIELDS[22] == f;
    case StartBy => assert FIELDS[23] == f;
    case Budget => assert FIELDS[24] == f;
    case UrgencyLevel => assert FIELDS[25] == f;
    case DemoRequested => assert FIELDS[26] == f;
    case CapturedAt => assert FIELDS[27] == f;
    case TurnCount => assert FIELDS[28] == f;
  }

  /** What the loop leaves in a field; the three sticky ones are set after it. */
  ghost function AfterLoop(self: Record, other: Record, f: Field): Value
    requires WellFormed(self) && WellFormed(other)
  {
    if KindOf(f) == Ratchet then self[f] else MergeValue(KindOf(f), self[f], other[f])
  }

  lemma LoopCases(self: Record, other: Record, f: Field)
    requires WellFormed(self) && WellFormed(other)
    ensures f in self && f in other
    ensures other[f].Field? <==> KindOf(f) == TrackedKind
    ensures other[f].Names? <==> KindOf(f) == Listing
    ensures self[f].Field? == other[f].Field? && self[f].Names? == other[f].Names?
    ensures KindOf(f) == Identity || KindOf(f) == Replaced ==> other[f].Plain?
    ensures AfterLoop(self, other, f) ==
      if other[f].Field? then
        if other[f].tracked.Some? && (self[f].tracked.None? || Beats(other[f].tracked.value, self[f].tracked.value))
        then other[f] else self[f]
      else if other[f].Names? then Names(Dedup(self[f].names + other[f].names))
      else if (KindOf(f) == Identity || KindOf(f) == Replaced) && other[f].truthy then other[f]
      else self[f]
  {
    hide Dedup, Beats, KindOf;
    assert Fits(KindOf(f), self[f]) && Fits(KindOf(f), other[f]);
  }

  /** The newcomer if it says anything, else what was there. */
  predicate NewerIfTruthy(was: Value, new_: Value, m: Value) {
    was.Plain? && new_.Plain? && m == if new_.truthy then new_ else was
  }

  predicate Larger(was: Value, new_: Value, m: Value) {
    was.Level? && new_.Level? && m == Level(if new_.level > was.level then new_.level else was.level)
  }

  ghost predicate Joined(was: Value, new_: Value, m: Value) {
    was.Names? && new_.Names? && m.Names? && OnceInOrder(m.names, was.names + new_.names)
  }

  predicate Stronger(was: Value, new_: Value, m: Value) {
    && was.Field? && new_.Field?
    && m == Field(if new_.tracked.Some? && (was.tracked.None? || Beats(new_.tracked.value, was.tracked.value)) then new_.tracked
                  else was.tracked)
  }

  /** What each field takes, by name. */
  ghost predicate FieldMerged(f: Field, was: Value, new_: Value, m: Value) {
    match f
    case SchemaVersion => m == was
    case ConversationId | ParentRef | StudentRef | LeadId | ExplicitTutorRef => NewerIfTruthy(was, new_, m)
    case Location | Schedule | Timezone | SessionsPerWeek | SessionMinutes | StartBy | Budget | CapturedAt =>
      NewerIfTruthy(was, new_, m)
    case Subject | Board | StudentClass | Exam | LearningGoal | TeachingStyle | Language | TutorGender | Mode =>
      Stronger(was, new_, m)
    case AdditionalSubjects | Topics | WeakTopics => Joined(was, new_, m)
    case UrgencyLevel | DemoRequested | TurnCount => Larger(was, new_, m)
  }

  ghost predicate MergedByName(a: Record, b: Record, m: Record) {
    forall f: Field :: f in a && f in b && f in m && FieldMerged(f, a[f], b[f], m[f])
  }

  lemma FieldIsMergedByName(f: Field, was: Value, new_: Value)
    requires Fits(KindOf(f), was) && Fits(KindOf(f), new_)
    ensures FieldMerged(f, was, new_, MergeValue(KindOf(f), was, new_))
  {
    hide Dedup, Beats, OnceInOrder;
    if was.Names? && new_.Names? {
      DedupIsOnceInOrder(was.names + new_.names);
    }
  }

  lemma MergeIsByName(a: Record, b: Record)
    requires WellFormed(a) && WellFormed(b)
    ensures MergedByName(a, b, Merge(a, b))
  {
    hide KindOf, Fits, FieldMerged, MergeValue;
    forall f: Field ensures f in a && f in b && f in Merge(a, b) && FieldMerged(f, a[f], b[f], Merge(a, b)[f]) {
      assert Fits(KindOf(f), a[f]) && Fits(KindOf(f), b[f]);
      FieldIsMergedByName(f, a[f], b[f]);
    }
  }

  /** The loop over the model's fields, then the three sticky ones. */
  method MergedWith(self: Record, other: Record) returns (merged: Record)
    requires WellFormed(self) && WellFormed(other)
    ensures merged == Merge(self, other)
    ensures MergedByName(self, other, merged)
  {
    hide MergedByName, Beats, Dedup, FIELDS, WellFormed, KindOf, AfterLoop, Merge, Fits, MostOf;
    merged := self;
    ghost var done: set<Field> := {};
    EveryFieldIsThere(self);
    for i := 0 to |FIELDS|
      invariant forall j :: 0 <= j < i ==> FIELDS[j] in done
      invariant forall f: Field :: f in merged && merged[f] == if f in done then AfterLoop(self, other, f) else self[f]
    {
      var name := FIELDS[i];
      LoopCases(self, other, name);
      var new_, was := other[name], self[name];
      if new_.Field? {
        if new_.tracked.Some? && (was.tracked.None? || Beats(new_.tracked.value, was.tracked.value)) {
          merged := merged[name := new_];
        }
      } else if KindOf(name) == Identity {
        merged := merged[name := if new_.truthy then new_ else was];
      } else if new_.Names? {
        merged := merged[name := Names(Dedup(was.names + new_.names))];
      } else if KindOf(name) == Replaced && new_.truthy {
        merged := merged[name := new_];
      }
      done := done + {name};
    }
    forall f: Field ensures f in done {
      EveryFieldIsListed(f);
    }
    ghost var looped := merged;
    StickyFields(self, other);
    merged := merged[DemoRequested := MostOf(self[DemoRequested], other[DemoRequested])];
    merged := merged[UrgencyLevel := MostOf(self[UrgencyLevel], other[UrgencyLevel])];
    merged := merged[TurnCount := MostOf(self[TurnCount], other[TurnCount])];
    Assembled(self, other, looped, merged);
    MergeIsByName(self, other);
  }

  lemma Assembled(self: Record, other: Record, looped: Record, merged: Record)
    requires WellFormed(self) && WellFormed(other)
    requires forall f: Field :: f in looped && looped[f] == AfterLoop(self, other, f)
    requires forall f: Field :: f in self && f in other && (f == DemoRequested || f == UrgencyLevel || f == TurnCount ==> self[f].Level? && other[f].Level?)
    requires merged == looped[DemoRequested := MostOf(self[DemoRequested], other[DemoRequested])]
                             [UrgencyLevel := MostOf(self[UrgencyLevel], other[UrgencyLevel])]
                             [TurnCount := MostOf(self[TurnCount], other[TurnCount])]
    ensures merged == Merge(self, other)
  {
    hide WellFormed, KindOf, AfterLoop, Merge, Fits, MostOf;
    forall f: Field ensures f in Merge(self, other) && merged[f] == Merge(self, other)[f] {
      MergeAfterLoop(self, other, f);
      assert looped[f] == AfterLoop(self, other, f);
    }
    SameEverywhere(merged, Merge(self, other));
  }

  lemma SameEverywhere(a: Record, b: Record)
    requires forall f: Field :: f in a && f in b && a[f] == b[f]
    ensures a == b
  {
  }

  lemma StickyFields(self: Record, other: Record)
    requires WellFormed(self) && WellFormed(other)
    ensures forall f: Field :: f in self && f in other && (f == DemoRequested || f == UrgencyLevel || f == TurnCount ==> self[f].Level? && other[f].Level?)
  {
    hide Merge;
    forall f: Field
      ensures f in self && f in other && (f == DemoRequested || f == UrgencyLevel || f == TurnCount ==> self[f].Level? && other[f].Level?)
    {
      assert Fits(KindOf(f), self[f]) && Fits(KindOf(f), other[f]);
    }
  }

  /** Outside the three sticky fields the loop has done the merge; in those it is the larger side. */
  lemma MergeAfterLoop(self: Record, other: Record, f: Field)
    requires WellFormed(self) && WellFormed(other)
    ensures f in Merge(self, other) && f in self && f in other
    ensures f != DemoRequested && f != UrgencyLevel && f != TurnCount ==> Merge(self, other)[f] == AfterLoop(self, other, f)
    ensures f == DemoRequested || f == UrgencyLevel || f == TurnCount ==>
      self[f].Level? && other[f].Level? && Merge(self, other)[f] == MostOf(self[f], other[f])
  {
    hide Dedup, MergeTracked;
    assert Fits(KindOf(f), self[f]) && Fits(KindOf(f), other[f]);
    assert Merge(self, other)[f] == MergeValue(KindOf(f), self[f], other[f]);
  }

  lemma EveryFieldIsThere(r: Record)
    requires WellFormed(r)
    ensures forall f: Field :: f in r
  {
  }

  /** `or` on flags and `max` on ranks and counts, the first of equals. */
  function MostOf(a: Value, b: Value): Value
    requires a.Level? && b.Level?
  {
    if b.level > a.level then b else a
  }

  // -------------------------------------------------------------- grouping

  ghost predicate NoClash(a: Record, b: Record, c: Record) {
    forall f: Field :: !Clash(TrackedAt(a, f), TrackedAt(b, f), TrackedAt(c, f))
  }

  lemma MergeValueAssociatesExactly(k: Kind, a: Value, b: Value, c: Value)
    requires Fits(k, a) && Fits(k, b) && Fits(k, c)
    ensures MergeValue(k, MergeValue(k, a, b), c) == MergeValue(k, a, MergeValue(k, b, c))
       <==> (a.Field? ==> !Clash(a.tracked, b.tracked, c.tracked))
  {
    hide Clash, MergeTracked, Dedup;
    match k
    case TrackedKind => TrackedMergeAssociatesExactly(a.tracked, b.tracked, c.tracked);
    case Listing =>
      DedupForgetsLeft(a.names + b.names, c.names);
      DedupForgetsRight(a.names, b.names + c.names);
      assert (a.names + b.names) + c.names == a.names + (b.names + c.names);
    case _ =>
  }

  /** Grouping three whole records either way gives the same record exactly when no tracked field clashes. */
  lemma MergeAssociatesExactly(a: Record, b: Record, c: Record)
    requires WellFormed(a) && WellFormed(b) && WellFormed(c)
    ensures Merge(Merge(a, b), c) == Merge(a, Merge(b, c)) <==> NoClash(a, b, c)
  {
    hide MergeValue, Clash, Fits, KindOf, TrackedAt;
    var l, r := Merge(Merge(a, b), c), Merge(a, Merge(b, c));
    forall f: Field
      ensures l[f] == r[f] <==> !Clash(TrackedAt(a, f), TrackedAt(b, f), TrackedAt(c, f))
    {
      FieldAssociates(a, b, c, f);
    }
    if l == r {
      assert forall f: Field :: l[f] == r[f];
    }
    if NoClash(a, b, c) {
      assert forall f: Field :: l[f] == r[f];
    }
  }

  lemma FieldAssociates(a: Record, b: Record, c: Record, f: Field)
    requires WellFormed(a) && WellFormed(b) && WellFormed(c)
    ensures Merge(Merge(a, b), c)[f] == Merge(a, Merge(b, c))[f]
       <==> !Clash(TrackedAt(a, f), TrackedAt(b, f), TrackedAt(c, f))
  {
    hide MergeValue, KindOf;
    assert Fits(KindOf(f), a[f]) && Fits(KindOf(f), b[f]) && Fits(KindOf(f), c[f]);
    MergeValueAssociatesExactly(KindOf(f), a[f], b[f], c[f]);
  }

  /** Every tracked value carries its time of observation. */
  ghost predicate Stamped(r: Record) {
    forall f: Field :: HasStamp(TrackedAt(r, f))
  }

  predicate HasStamp(t: Option<Tracked>) {
    t.Some? ==> t.value.observedAt.Some?
  }

  lemma MergedField(a: Record, b: Record, f: Field)
    requires WellFormed(a) && WellFormed(b)
    ensures TrackedAt(Merge(a, b), f) == MergeTracked(TrackedAt(a, f), TrackedAt(b, f))
  {
    hide Dedup, Beats, KindOf;
    var m := Merge(a, b);
    assert m[f] == MergeValue(KindOf(f), a[f], b[f]);
    assert Fits(KindOf(f), a[f]) && Fits(KindOf(f), b[f]);
  }

  lemma MergeStaysStamped(a: Record, b: Record)
    requires WellFormed(a) && WellFormed(b) && Stamped(a) && Stamped(b)
    ensures Stamped(Merge(a, b))
  {
    hide Beats, Merge, WellFormed, TrackedAt;
    forall f: Field ensures HasStamp(TrackedAt(Merge(a, b), f)) {
      MergedField(a, b, f);
      assert HasStamp(TrackedAt(a, f)) && HasStamp(TrackedAt(b, f));
    }
  }

  ghost predicate AllStamped(rs: seq<Record>) {
    forall i :: 0 <= i < |rs| ==> WellFormed(rs[i]) && Stamped(rs[i])
  }

  /** Turn by turn: each new record merged into what was collected so far. */
  ghost function Collected(rs: seq<Record>): (r: Record)
    requires rs != [] && (forall i :: 0 <= i < |rs| ==> WellFormed(rs[i]))
    ensures WellFormed(r)
    decreases |rs|
  {
    if |rs| == 1 then rs[0] else Merge(Collected(rs[..|rs| - 1]), rs[|rs| - 1])
  }

  lemma {:induction false} CollectedStamped(rs: seq<Record>)
    requires rs != [] && AllStamped(rs)
    ensures Stamped(Collected(rs))
    decreases |rs|
  {
    hide WellFormed, Stamped, Merge;
    if |rs| > 1 {
      CollectedStamped(rs[..|rs| - 1]);
      MergeStaysStamped(Collected(rs[..|rs| - 1]), rs[|rs| - 1]);
    }
  }

  lemma StampedNeverClash(a: Record, b: Record, c: Record)
    requires Stamped(b)
    ensures NoClash(a, b, c)
  {
    hide TrackedAt;
    forall f: Field ensures !Clash(TrackedAt(a, f), TrackedAt(b, f), TrackedAt(c, f)) {
      assert HasStamp(TrackedAt(b, f));
    }
  }

  lemma LastOfConcat(xs: seq<Record>, ys: seq<Record>)
    requires ys != []
    ensures (xs + ys)[|xs + ys| - 1] == ys[|ys| - 1] && (xs + ys)[..|xs + ys| - 1] == xs + ys[..|ys| - 1]
  {
  }

  lemma ConcatStamped(xs: seq<Record>, ys: seq<Record>)
    ensures AllStamped(xs + ys) <==> AllStamped(xs) && AllStamped(ys)
  {
    hide WellFormed, Stamped;
    var all := xs + ys;
    assert forall i :: 0 <= i < |xs| ==> all[i] == xs[i];
    assert forall i :: 0 <= i < |ys| ==> all[|xs| + i] == ys[i];
  }

  lemma {:induction false} CollectedSplits(xs: seq<Record>, ys: seq<Record>)
    requires xs != [] && ys != [] && AllStamped(xs) && AllStamped(ys)
    ensures AllStamped(xs + ys) && Collected(xs + ys) == Merge(Collected(xs), Collected(ys))
    decreases |ys|
  {
    hide WellFormed, Stamped, Merge, NoClash;
    var n := |ys| - 1;
    LastOfConcat(xs, ys);
    ConcatStamped(xs, ys);
    if n == 0 {
      assert xs + ys[..n] == xs;
    } else {
      CollectedSplits(xs, ys[..n]);
      CollectedStamped(ys[..n]);
      StampedNeverClash(Collected(xs), Collected(ys[..n]), ys[n]);
      MergeAssociatesExactly(Collected(xs), Collected(ys[..n]), ys[n]);
    }
  }

  /** Any way of bracketing a conversation's records. */
  datatype Grouping = Turn(record: Record) | Both(first: Grouping, second: Grouping)

  ghost function Turns(g: Grouping): (rs: seq<Record>)
    ensures rs != []
  {
    match g
    case Turn(r) => [r]
    case Both(first, second) => Turns(first) + Turns(second)
  }

  ghost predicate GoodGrouping(g: Grouping) {
    match g
    case Turn(r) => WellFormed(r)
    case Both(first, second) => GoodGrouping(first) && GoodGrouping(second)
  }

  ghost function Outcome(g: Grouping): (r: Record)
    requires GoodGrouping(g)
    ensures WellFormed(r)
  {
    match g
    case Turn(r) => r
    case Both(first, second) => Merge(Outcome(first), Outcome(second))
  }

  /** Collecting turn by turn equals merging in any grouping, when every value carries its time. */
  lemma {:induction false} AnyGroupingCollectsTheSame(g: Grouping)
    requires GoodGrouping(g) && AllStamped(Turns(g))
    ensures Outcome(g) == Collected(Turns(g))
  {
    hide WellFormed, Stamped, Merge;
    if g.Both? {
      var xs, ys := Turns(g.first), Turns(g.second);
      ConcatStamped(xs, ys);
      AnyGroupingCollectsTheSame(g.first);
      AnyGroupingCollectsTheSame(g.second);
      CollectedSplits(xs, ys);
    }
  }

  // -------------------------------------------------------------- what survives

  /** Turn by turn, stamped or not: the surviving value of a field was given by some turn and is beaten by no value
    * any turn gave, and a field is empty only if no turn filled it. */
  lemma {:induction false} SurvivorIsUnbeaten(rs: seq<Record>, f: Field)
    requires rs != [] && (forall i :: 0 <= i < |rs| ==> WellFormed(rs[i]))
    ensures var kept := TrackedAt(Collected(rs), f);
            && (kept.Some? ==> exists i :: 0 <= i < |rs| && TrackedAt(rs[i], f) == kept)
            && (forall i :: 0 <= i < |rs| && TrackedAt(rs[i], f).Some? ==> kept.Some? && !Beats(TrackedAt(rs[i], f).value, kept.value))
    decreases |rs|
  {
    hide WellFormed, TrackedAt, Beats, Merge;
    var n := |rs| - 1;
    if n == 0 {
      assert TrackedAt(Collected(rs), f) == TrackedAt(rs[0], f);
      if TrackedAt(rs[0], f).Some? {
        BeatsIsAStrictOrder(TrackedAt(rs[0], f).value, TrackedAt(rs[0], f).value, TrackedAt(rs[0], f).value);
      }
    } else {
      SurvivorIsUnbeaten(rs[..n], f);
      var was, new_ := TrackedAt(Collected(rs[..n]), f), TrackedAt(rs[n], f);
      MergedField(Collected(rs[..n]), rs[n], f);
      assert forall i :: 0 <= i < n ==> rs[..n][i] == rs[i];
      forall i | 0 <= i < |rs| && TrackedAt(rs[i], f).Some?
        ensures MergeTracked(was, new_).Some? && !Beats(TrackedAt(rs[i], f).value, MergeTracked(was, new_).value)
      {
        if i < n {
          assert rs[..n][i] == rs[i];
        }
        UnbeatenByTheMerge(was, new_, TrackedAt(rs[i], f).value, i < n);
      }
      if MergeTracked(was, new_).Some? {
        ComesFromATurn(rs, rs[..n], f, was, new_);
      }
    }
  }

  lemma ComesFromATurn(rs: seq<Record>, before: seq<Record>, f: Field, was: Option<Tracked>, new_: Option<Tracked>)
    requires |rs| > 1 && before == rs[..|rs| - 1] && MergeTracked(was, new_).Some? && new_ == TrackedAt(rs[|rs| - 1], f)
    requires was.Some? ==> exists i :: 0 <= i < |before| && TrackedAt(before[i], f) == was
    ensures exists i :: 0 <= i < |rs| && TrackedAt(rs[i], f) == MergeTracked(was, new_)
  {
    hide TrackedAt, Beats;
    if MergeTracked(was, new_) == new_ {
      assert TrackedAt(rs[|rs| - 1], f) == new_;
    } else {
      var i :| 0 <= i < |before| && TrackedAt(before[i], f) == was;
      assert TrackedAt(rs[i], f) == was;
    }
  }

  /** A value that does not beat what was there, or is the newcomer itself, does not beat the outcome. */
  lemma UnbeatenByTheMerge(was: Option<Tracked>, new_: Option<Tracked>, t: Tracked, earlier: bool)
    requires if earlier then was.Some? && !Beats(t, was.value) else new_ == Some(t)
    ensures MergeTracked(was, new_).Some? && !Beats(t, MergeTracked(was, new_).value)
  {
  }

  /** One merge never lowers the trust rank of a field. */
  lemma RankNeverFalls(a: Record, b: Record, f: Field)
    requires WellFormed(a) && WellFormed(b) && TrackedAt(a, f).Some?
    ensures TrackedAt(Merge(a, b), f).Some?
    ensures Rank(TrackedAt(Merge(a, b), f).value.provenance) >= Rank(TrackedAt(a, f).value.provenance)
  {
    hide Merge, WellFormed, TrackedAt;
    MergedField(a, b, f);
  }

  // -------------------------------------------------------------- hard filters

  const HARD_FILTER_MIN_CONFIDENCE := 0.75
  const DETERMINISTIC_CONFIDENCE := 0.92
  const LLM_CONFIDENCE := 0.70
  const MEMORY_CONFIDENCE := 0.7

  predicate Trusted(t: Tracked) {
    t.provenance.UserConfirmed? || t.provenance.Deterministic? || t.confidence >= HARD_FILTER_MIN_CONFIDENCE
  }

  predicate UsableForHardFilter(r: Record, f: Field) {
    TrackedAt(r, f).Some? && Trusted(TrackedAt(r, f).value)
  }

  /** `_tracked`: a parsed value, or nothing for an empty one. */
  function Parsed(value: string, stamp: int): Option<Tracked> {
    if value == "" then None else Some(Tracked(value, DETERMINISTIC_CONFIDENCE, Deterministic, Some(stamp)))
  }

  /** `_llm_tracked`: a model's guess. */
  function Guessed(value: string, stamp: int): Option<Tracked> {
    if value == "" then None else Some(Tracked(value, LLM_CONFIDENCE, Llm, Some(stamp)))
  }

  /** A value from the lead event; an unstated (zero) confidence counts as 0.6. */
  function FromLead(value: string, confidence: real, stamp: int): Option<Tracked> {
    if value == "" then None
    else Some(Tracked(value, LeadConfidence(confidence), LeadIntake, Some(stamp)))
  }

  function LeadConfidence(confidence: real): (c: real)
    ensures 0.5 <= c <= 0.9
  {
    if confidence == 0.0 then 0.6 else if confidence < 0.5 then 0.5 else if confidence > 0.9 then 0.9 else confidence
  }

  /** A remembered value. */
  function Recalled(value: string, stamp: int): Option<Tracked> {
    if value == "" then None else Some(Tracked(value, MEMORY_CONFIDENCE, Memory, Some(stamp)))
  }

  /** One of the repository's constructors builds `t` from these arguments. */
  predicate BuiltFrom(t: Tracked, value: string, confidence: real, stamp: int) {
    || Some(t) == Parsed(value, stamp)
    || Some(t) == Guessed(value, stamp)
    || Some(t) == Recalled(value, stamp)
    || Some(t) == FromLead(value, confidence, stamp)
  }

  ghost predicate Constructed(t: Tracked) {
    exists value, confidence, stamp :: BuiltFrom(t, value, confidence, stamp)
  }

  /** The shape a constructed value has. */
  predicate HasBuiltShape(t: Tracked) {
    || (t.provenance.Deterministic? && t.confidence == DETERMINISTIC_CONFIDENCE)
    || (t.provenance.Llm? && t.confidence == LLM_CONFIDENCE)
    || (t.provenance.Memory? && t.confidence == MEMORY_CONFIDENCE)
    || (t.provenance.LeadIntake? && 0.5 <= t.confidence <= 0.9)
  }

  lemma ConstructedShape(t: Tracked)
    requires Constructed(t)
    ensures HasBuiltShape(t)
    ensures Trusted(t) <==> t.provenance.Deterministic? || (t.provenance.LeadIntake? && t.confidence >= HARD_FILTER_MIN_CONFIDENCE)
  {
    var value, confidence, stamp :| BuiltFrom(t, value, confidence, stamp);
    assert BuiltFrom(t, value, confidence, stamp);
  }

  /** A lead's own word: kept between 0.5 and 0.9, taken for 0.6 when unstated, and trusted on its own from 0.75 on. */
  lemma LeadValuesByName(value: string, confidence: real, stamp: int)
    ensures value == "" ==> FromLead(value, confidence, stamp).None?
    ensures value != "" ==>
      && FromLead(value, confidence, stamp).Some?
      && var t := FromLead(value, confidence, stamp).value;
         && t.value == value && t.provenance == LeadIntake && t.observedAt == Some(stamp)
         && (confidence == 0.0 ==> t.confidence == 0.6) && (confidence > 0.9 ==> t.confidence == 0.9)
         && (confidence < 0.5 && confidence != 0.0 ==> t.confidence == 0.5) && (0.5 <= confidence <= 0.9 ==> t.confidence == confidence)
         && (Trusted(t) <==> confidence >= 0.75)
  {
  }

  /** Among constructed values, trust only ever grows along `Beats`, and a merge keeps a trusted side. */
  lemma MergeKeepsTrust(a: Option<Tracked>, b: Option<Tracked>)
    requires (a.Some? ==> Constructed(a.value)) && (b.Some? ==> Constructed(b.value))
    ensures var m := MergeTracked(a, b);
            m.Some? && Trusted(m.value) <==> (a.Some? && Trusted(a.value)) || (b.Some? && Trusted(b.value))
  {
    hide Constructed;
    if a.Some? {
      ConstructedShape(a.value);
    }
    if b.Some? {
      ConstructedShape(b.value);
    }
  }

  ghost predicate AllConstructed(g: Grouping, f: Field) {
    match g
    case Turn(r) => TrackedAt(r, f).Some? ==> Constructed(TrackedAt(r, f).value)
    case Both(first, second) => AllConstructed(first, f) && AllConstructed(second, f)
  }

  /** Some turn gave a value for the field that is trusted on its own. */
  predicate SomeTurnUsable(g: Grouping, f: Field) {
    match g
    case Turn(r) => UsableForHardFilter(r, f)
    case Both(first, second) => SomeTurnUsable(first, f) || SomeTurnUsable(second, f)
  }

  /** For values the constructors build, merged in any grouping and order, a field ends up usable as a hard filter
    * exactly when some turn gave a usable value for it: model guesses and memories never add up to one, and
    * usability is never lost. */
  lemma {:induction false} UsableExactlyIfSomeTurnWas(g: Grouping, f: Field)
    requires GoodGrouping(g) && AllConstructed(g, f)
    ensures UsableForHardFilter(Outcome(g), f) <==> SomeTurnUsable(g, f)
    ensures TrackedAt(Outcome(g), f).Some? ==> Constructed(TrackedAt(Outcome(g), f).value)
  {
    hide Constructed, Beats, Trusted, WellFormed, TrackedAt, Merge;
    if g.Both? {
      UsableExactlyIfSomeTurnWas(g.first, f);
      UsableExactlyIfSomeTurnWas(g.second, f);
      MergedField(Outcome(g.first), Outcome(g.second), f);
      MergeKeepsTrust(TrackedAt(Outcome(g.first), f), TrackedAt(Outcome(g.second), f));
    }
  }

  // -------------------------------------------------------------- the two overlays

  /** A field nobody filled. The default timezone is a truthy value. */
  function DefaultOf(f: Field): (v: Value)
    ensures Fits(KindOf(f), v)
  {
    match KindOf(f)
    case TrackedKind => Field(None)
    case Listing => Names([])
    case Ratchet => Level(0)
    case _ => if f == SchemaVersion then Plain("1.0", true) else if f == Timezone then Plain("Asia/Kolkata", true) else Plain("", false)
  }

  /** The keys memory recalls tracked fields under. */
  function MemoryKey(f: Field): Option<string> {
    match f
    case Subject => Some("subject")
    case Board => Some("board")
    case StudentClass => Some("student_class")
    case Language => Some("language_preference")
    case TeachingStyle => Some("teaching_style")
    case _ => None
  }

  function Lookup(m: map<string, string>, k: string): string {
    if k in m then m[k] else ""
  }

  function RememberedValue(r: Record, recalled: map<string, string>, now: int, f: Field): Value
    requires f in r
  {
    if f == ConversationId then r[f]
    else if MemoryKey(f).Some? then Field(Recalled(Lookup(recalled, MemoryKey(f).value), now))
    else DefaultOf(f)
  }

  ghost function MemoryOverlay(r: Record, recalled: map<string, string>, now: int): (overlay: Record)
    requires WellFormed(r)
    ensures forall f: Field :: f in overlay && overlay[f] == RememberedValue(r, recalled, now, f)
  {
    map f: Field | f in r.Keys :: RememberedValue(r, recalled, now, f)
  }

  lemma MemoryOverlayIsARecord(r: Record, recalled: map<string, string>, now: int)
    requires WellFormed(r)
    ensures WellFormed(MemoryOverlay(r, recalled, now))
  {
    var overlay := MemoryOverlay(r, recalled, now);
    forall f: Field ensures f in overlay && Fits(KindOf(f), overlay[f]) {
      assert Fits(KindOf(f), r[f]);
    }
  }

  /** The conversation's record merged over the remembered one. */
  ghost function WithMemory(r: Record, recalled: map<string, string>, now: int): (merged: Record)
    requires WellFormed(r)
    ensures WellFormed(merged)
  {
    MemoryOverlayIsARecord(r, recalled, now);
    if recalled == map[] then r else Merge(MemoryOverlay(r, recalled, now), r)
  }

  /** A remembered value takes the place of what the conversation holds exactly when that is nothing, a model's guess
    * or a policy default, a weaker memory, or a memory as strong that is unstamped or no later; never what a parser,
    * the lead event or the parent gave. */
  predicate YieldsToMemory(held: Option<Tracked>, now: int) {
    held.None? || held.value.provenance.Llm? || held.value.provenance.PolicyDefault?
    || (held.value.provenance == Memory
        && (held.value.confidence < MEMORY_CONFIDENCE
            || (held.value.confidence == MEMORY_CONFIDENCE && (held.value.observedAt.None? || held.value.observedAt.value <= now))))
  }

  lemma MemoryReplacesExactly(r: Record, recalled: map<string, string>, now: int, f: Field)
    requires WellFormed(r) && MemoryKey(f).Some? && Lookup(recalled, MemoryKey(f).value) != ""
    ensures TrackedAt(WithMemory(r, recalled, now), f)
         == if YieldsToMemory(TrackedAt(r, f), now) then Recalled(Lookup(recalled, MemoryKey(f).value), now) else TrackedAt(r, f)
  {
    hide Merge, WellFormed, Beats, YieldsToMemory, Recalled, MergeTracked;
    MemoryOverlayIsARecord(r, recalled, now);
    var overlay := MemoryOverlay(r, recalled, now);
    MergedField(overlay, r, f);
    assert f in r && overlay[f] == RememberedValue(r, recalled, now, f);
    MemoryAgainst(Lookup(recalled, MemoryKey(f).value), now, TrackedAt(r, f));
  }

  /** The fact under `key` fills the field, if there is one and what is held yields to it, with confidence 0.7. */
  ghost predicate Remembers(r: Record, recalled: map<string, string>, now: int, f: Field, key: string)
    requires WellFormed(r)
  {
    TrackedAt(WithMemory(r, recalled, now), f)
    == if key in recalled && recalled[key] != "" && YieldsToMemory(TrackedAt(r, f), now)
       then Some(Tracked(recalled[key], 0.7, Memory, Some(now))) else TrackedAt(r, f)
  }

  /** Which fact fills which field; no other tracked field is ever filled from memory. */
  lemma RememberedByName(r: Record, recalled: map<string, string>, now: int)
    requires WellFormed(r)
    ensures Remembers(r, recalled, now, Subject, "subject")
    ensures Remembers(r, recalled, now, Board, "board")
    ensures Remembers(r, recalled, now, StudentClass, "student_class")
    ensures Remembers(r, recalled, now, Language, "language_preference")
    ensures Remembers(r, recalled, now, TeachingStyle, "teaching_style")
    ensures forall f :: f in {Exam, LearningGoal, TutorGender, Mode} ==>
      TrackedAt(WithMemory(r, recalled, now), f) == TrackedAt(r, f)
  {
    hide WithMemory, WellFormed, YieldsToMemory, TrackedAt;
    RemembersUnder(r, recalled, now, Subject, "subject");
    RemembersUnder(r, recalled, now, Board, "board");
    RemembersUnder(r, recalled, now, StudentClass, "student_class");
    RemembersUnder(r, recalled, now, Language, "language_preference");
    RemembersUnder(r, recalled, now, TeachingStyle, "teaching_style");
    NotRemembered(r, recalled, now, Exam);
    NotRemembered(r, recalled, now, LearningGoal);
    NotRemembered(r, recalled, now, TutorGender);
    NotRemembered(r, recalled, now, Mode);
  }

  lemma RemembersUnder(r: Record, recalled: map<string, string>, now: int, f: Field, key: string)
    requires WellFormed(r) && MemoryKey(f) == Some(key)
    ensures Remembers(r, recalled, now, f, key)
  {
    hide WithMemory, WellFormed, YieldsToMemory, TrackedAt;
    if Lookup(recalled, key) != "" {
      MemoryReplacesExactly(r, recalled, now, f);
    } else {
      NotRemembered(r, recalled, now, f);
    }
  }

  /** Without a fact a tracked field is as it was. */
  lemma NotRemembered(r: Record, recalled: map<string, string>, now: int, f: Field)
    requires WellFormed(r) && KindOf(f) == TrackedKind
    requires MemoryKey(f).Some? ==> Lookup(recalled, MemoryKey(f).value) == ""
    ensures TrackedAt(WithMemory(r, recalled, now), f) == TrackedAt(r, f)
  {
    hide Merge, WellFormed, Beats, MemoryKey;
    MemoryOverlayIsARecord(r, recalled, now);
    var overlay := MemoryOverlay(r, recalled, now);
    MergedField(overlay, r, f);
    assert f in r && overlay[f] == RememberedValue(r, recalled, now, f);
    assert f != ConversationId;
  }

  lemma MemoryAgainst(value: string, now: int, held: Option<Tracked>)
    requires value != ""
    ensures MergeTracked(Recalled(value, now), held) == if YieldsToMemory(held, now) then Recalled(value, now) else held
  {
  }

  /** Memory leaves everything else as the conversation has it, up to repeated list entries. */
  lemma MemoryKeepsTheRest(r: Record, recalled: map<string, string>, now: int, f: Field)
    requires WellFormed(r) && MemoryKey(f).None? && KindOf(f) != Pinned
    ensures f in r && f in WithMemory(r, recalled, now)
    ensures r[f].Plain? && r[f].truthy ==> WithMemory(r, recalled, now)[f] == r[f]
    ensures r[f].Field? || r[f].Level? ==> WithMemory(r, recalled, now)[f] == r[f]
    ensures r[f].Names? && recalled != map[] ==> WithMemory(r, recalled, now)[f] == Names(Dedup(r[f].names))
  {
    hide Merge, Dedup, Recalled;
    MemoryOverlayIsARecord(r, recalled, now);
    var overlay := MemoryOverlay(r, recalled, now);
    assert Merge(overlay, r)[f] == MergeValue(KindOf(f), overlay[f], r[f]);
    assert Fits(KindOf(f), r[f]);
    assert r[f].Names? ==> [] + r[f].names == r[f].names;
  }

  /** The fields the model is asked for. */
  predicate ModelFills(f: Field) {
    KindOf(f) == TrackedKind && f != TutorGender
  }

  function GuessedValue(r: Record, values: Field -> string, lists: Field -> seq<string>, stamp: int, f: Field): Value
    requires f in r
  {
    if f == ConversationId then r[f]
    else if ModelFills(f) then Field(Guessed(values(f), stamp))
    else if KindOf(f) == Listing then Names(lists(f))
    else DefaultOf(f)
  }

  ghost function ModelOverlay(r: Record, values: Field -> string, lists: Field -> seq<string>, stamp: int): (overlay: Record)
    requires WellFormed(r)
    ensures forall f: Field :: f in overlay && overlay[f] == GuessedValue(r, values, lists, stamp, f)
  {
    map f: Field | f in r.Keys :: GuessedValue(r, values, lists, stamp, f)
  }

  lemma ModelOverlayIsARecord(r: Record, values: Field -> string, lists: Field -> seq<string>, stamp: int)
    requires WellFormed(r)
    ensures WellFormed(ModelOverlay(r, values, lists, stamp))
  {
    var overlay := ModelOverlay(r, values, lists, stamp);
    forall f: Field ensures f in overlay && Fits(KindOf(f), overlay[f]) {
      assert Fits(KindOf(f), r[f]);
    }
  }

  ghost function WithGuesses(r: Record, values: Field -> string, lists: Field -> seq<string>, stamp: int): (merged: Record)
    requires WellFormed(r)
    ensures WellFormed(merged)
  {
    ModelOverlayIsARecord(r, values, lists, stamp);
    Merge(r, ModelOverlay(r, values, lists, stamp))
  }

  /** Escalating to the model fills gaps: a value of more trust than a guess is never replaced. */
  lemma EscalationFillsGaps(r: Record, values: Field -> string, lists: Field -> seq<string>, stamp: int, f: Field)
    requires WellFormed(r)
    requires TrackedAt(r, f).Some? && Rank(TrackedAt(r, f).value.provenance) > Rank(Llm)
    ensures TrackedAt(WithGuesses(r, values, lists, stamp), f) == TrackedAt(r, f)
  {
    hide Merge, KindOf, WellFormed;
    ModelOverlayIsARecord(r, values, lists, stamp);
    assert f in r;
    MergedField(r, ModelOverlay(r, values, lists, stamp), f);
  }

  /** What the model is asked for: a field nobody filled takes its answer, with confidence 0.7, and the tutor's gender is
    * never guessed. */
  lemma GuessesByName(r: Record, values: Field -> string, lists: Field -> seq<string>, stamp: int, f: Field)
    requires WellFormed(r)
    ensures f in {Subject, Board, StudentClass, Exam, LearningGoal, TeachingStyle, Language, Mode} && TrackedAt(r, f).None? ==>
      TrackedAt(WithGuesses(r, values, lists, stamp), f) == if values(f) == "" then None else Some(Tracked(values(f), 0.7, Llm, Some(stamp)))
    ensures f == TutorGender ==> TrackedAt(WithGuesses(r, values, lists, stamp), f) == TrackedAt(r, f)
  {
    hide Merge, WellFormed, Beats;
    ModelOverlayIsARecord(r, values, lists, stamp);
    EveryFieldIsThere(r);
    MergedField(r, ModelOverlay(r, values, lists, stamp), f);
  }

  /** Every plain field survives escalation except the timezone, which falls back to the built-in default whatever
    * the extractor was configured with: the overlay's own default is truthy, and truthy values replace. */
  lemma EscalationResetsTheTimezone(r: Record, values: Field -> string, lists: Field -> seq<string>, stamp: int, f: Field)
    requires WellFormed(r) && f in r && (r[f].Plain? || r[f].Level?)
    ensures f in WithGuesses(r, values, lists, stamp)
    ensures WithGuesses(r, values, lists, stamp)[f] == r[f] <==> f != Timezone || r[f] == Plain("Asia/Kolkata", true)
  {
    hide Merge, MergeValue, Guessed, DefaultOf, ModelFills;
    var overlay := ModelOverlay(r, values, lists, stamp);
    ModelOverlayIsARecord(r, values, lists, stamp);
    PlainMerge(r, overlay, f);
    assert overlay[f] == GuessedValue(r, values, lists, stamp, f);
    GuessAgainstPlain(r, values, lists, stamp, f);
  }

  lemma GuessAgainstPlain(r: Record, values: Field -> string, lists: Field -> seq<string>, stamp: int, f: Field)
    requires f in r && Fits(KindOf(f), r[f]) && (r[f].Plain? || r[f].Level?)
    ensures Fits(KindOf(f), GuessedValue(r, values, lists, stamp, f))
    ensures MergeValue(KindOf(f), r[f], GuessedValue(r, values, lists, stamp, f)) == r[f]
       <==> f != Timezone || r[f] == Plain("Asia/Kolkata", true)
  {
    hide Dedup, MergeTracked;
  }

  lemma PlainMerge(a: Record, b: Record, f: Field)
    requires WellFormed(a) && WellFormed(b) && f in a && f in b && !a[f].Field? && !a[f].Names?
    ensures f in Merge(a, b) && Merge(a, b)[f] == MergeValue(KindOf(f), a[f], b[f])
  {
  }
}

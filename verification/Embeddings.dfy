/** Embedding only what changed: a content-hash ledger makes a second run free. */
module Embeddings {

  datatype Chunk = Chunk(id: string, content: string, checksum: string, tokens: nat)

  datatype Mark = Mark(checksum: string, model: string)

  type Ledger = map<string, Mark>

  /** The refusal rules, the content hash and the price of tokens: any functions. */
  datatype Rules = Rules(refused: Chunk -> bool, hash: string -> string, price: nat -> nat)

  /** A chunk is looked up by its checksum, or by the hash of its content if it carries none. */
  function LookupSum(r: Rules, c: Chunk): string {
    if c.checksum != "" then c.checksum else r.hash(c.content)
  }

  predicate Seen(r: Rules, l: Ledger, model: string, c: Chunk) {
    c.id in l && l[c.id] == Mark(LookupSum(r, c), model)
  }

  predicate Wanted(r: Rules, l: Ledger, model: string, c: Chunk) {
    !r.refused(c) && !Seen(r, l, model, c)
  }

  /** What a run has to embed. */
  function Pending(r: Rules, l: Ledger, model: string, cs: seq<Chunk>): seq<Chunk> {
    if cs == [] then []
    else Pending(r, l, model, cs[..|cs| - 1]) + (if Wanted(r, l, model, cs[|cs| - 1]) then [cs[|cs| - 1]] else [])
  }

  function Refusals(r: Rules, cs: seq<Chunk>): nat {
    if cs == [] then 0 else Refusals(r, cs[..|cs| - 1]) + (if r.refused(cs[|cs| - 1]) then 1 else 0)
  }

  /** How many chunks the ledger already covers. */
  function Settled(r: Rules, l: Ledger, model: string, cs: seq<Chunk>): nat {
    if cs == [] then 0
    else Settled(r, l, model, cs[..|cs| - 1]) + (if !r.refused(cs[|cs| - 1]) && Seen(r, l, model, cs[|cs| - 1]) then 1 else 0)
  }

  /** Every chunk considered is refused, settled or pending. */
  lemma {:induction false} CountsAddUp(r: Rules, l: Ledger, model: string, cs: seq<Chunk>)
    ensures |cs| == Refusals(r, cs) + Settled(r, l, model, cs) + |Pending(r, l, model, cs)|
  {
    hide Seen;
    if cs != [] {
      CountsAddUp(r, l, model, cs[..|cs| - 1]);
    }
  }

  /** The ledger after recording chunks, under the checksum each carries. */
  function Recorded(l: Ledger, model: string, cs: seq<Chunk>): Ledger {
    if cs == [] then l else Recorded(l, model, cs[..|cs| - 1])[cs[|cs| - 1].id := Mark(cs[|cs| - 1].checksum, model)]
  }

  function TotalTokens(cs: seq<Chunk>): nat {
    if cs == [] then 0 else TotalTokens(cs[..|cs| - 1]) + cs[|cs| - 1].tokens
  }

  function TotalPrice(r: Rules, cs: seq<Chunk>): nat {
    if cs == [] then 0 else TotalPrice(r, cs[..|cs| - 1]) + r.price(cs[|cs| - 1].tokens)
  }

  /** How a backend answered one batch: an exception, or so many vectors. */
  datatype Answer = BatchFailed | Vectors(count: nat)

  /** The part of a batch that gets a vector. */
  function Embedded(batch: seq<Chunk>, a: Answer): seq<Chunk> {
    if a.BatchFailed? then [] else if a.count < |batch| then batch[..a.count] else batch
  }

  /** Batches from `start` on, each with its answer. */
  function EmbeddedFrom(pending: seq<Chunk>, size: nat, answers: nat -> Answer, start: nat): seq<Chunk>
    requires size > 0
    decreases |pending| - start
  {
    if start >= |pending| then []
    else Embedded(Batch(pending, size, start), answers(start)) + EmbeddedFrom(pending, size, answers, start + size)
  }

  function Batch(pending: seq<Chunk>, size: nat, start: nat): seq<Chunk>
    requires start <= |pending|
  {
    if start + size < |pending| then pending[start..start + size] else pending[start..]
  }

  datatype Report = Report(considered: nat, skipped: nat, refused: nat, embedded: nat, tokens: nat, cost: nat)

  class InMemoryEmbeddingLedger {
    var marks: Ledger

    constructor ()
      ensures marks == map[]
    {
      marks := map[];
    }

    method Record(id: string, checksum: string, model: string)
      modifies this
      ensures marks == old(marks)[id := Mark(checksum, model)]
      ensures forall r, c, m :: (
        Seen(r, marks, m, c) == if c.id == id then checksum == LookupSum(r, c) && model == m else Seen(r, old(marks), m, c))
    {
      marks := marks[id := Mark(checksum, model)];
    }
  }

  /** Refuse first, then consult the ledger, then embed what remains in batches; a failed batch is not recorded. */
  method EmbedChanged(r: Rules, cs: seq<Chunk>, model: string, ledger: InMemoryEmbeddingLedger, size: nat, answers: nat -> Answer)
    returns (report: Report)
    requires size > 0
    modifies ledger
    ensures var pending := Pending(r, old(ledger.marks), model, cs);
            var done := EmbeddedFrom(pending, size, answers, 0);
            && ledger.marks == Recorded(old(ledger.marks), model, done)
            && report == Report(|cs|, Settled(r, old(ledger.marks), model, cs), Refusals(r, cs), |done|, TotalTokens(done), TotalPrice(r, done))
  {
    hide EmbeddedFrom, Embedded, Batch, Seen, Pending, Refusals, Settled, Recorded, TotalTokens, TotalPrice;
    NothingYet(r, ledger.marks, model);
    var refused, skipped: nat := 0, 0;
    var pending: seq<Chunk> := [];
    for i := 0 to |cs|
      invariant pending == Pending(r, ledger.marks, model, cs[..i]) && ledger.marks == old(ledger.marks)
      invariant refused == Refusals(r, cs[..i]) && skipped == Settled(r, ledger.marks, model, cs[..i])
    {
      var c := cs[i];
      assert cs[..i + 1] == cs[..i] + [c];
      OneMoreConsidered(r, ledger.marks, model, cs[..i], c);
      if r.refused(c) {
        refused := refused + 1;
      } else if Seen(r, ledger.marks, model, c) {
        skipped := skipped + 1;
      } else {
        pending := pending + [c];
      }
    }
    assert cs[..|cs|] == cs;
    var embedded, tokens, cost := 0, 0, 0;
    ghost var done: seq<Chunk> := [];
    var start: nat := 0;
    while start < |pending|
      invariant done + EmbeddedFrom(pending, size, answers, start) == EmbeddedFrom(pending, size, answers, 0)
      invariant ledger.marks == Recorded(old(ledger.marks), model, done)
      invariant embedded == |done| && tokens == TotalTokens(done) && cost == TotalPrice(r, done)
      decreases |pending| - start
    {
      var batch := Embedded(Batch(pending, size, start), answers(start));
      ghost var before := done;
      for j := 0 to |batch|
        invariant done == before + batch[..j]
        invariant ledger.marks == Recorded(old(ledger.marks), model, done)
        invariant embedded == |done| && tokens == TotalTokens(done) && cost == TotalPrice(r, done)
      {
        ledger.Record(batch[j].id, batch[j].checksum, model);
        embedded, tokens, cost := embedded + 1, tokens + batch[j].tokens, cost + r.price(batch[j].tokens);
        OneMoreEmbedded(r, old(ledger.marks), model, done, batch[j]);
        done := done + [batch[j]];
      }
      assert batch[..|batch|] == batch;
      NextBatch(pending, size, answers, start);
      assert (before + batch) + EmbeddedFrom(pending, size, answers, start + size)
          == before + (batch + EmbeddedFrom(pending, size, answers, start + size));
      start := start + size;
    }
    NoMoreBatches(pending, size, answers, start);
    assert done + [] == done;
    report := Report(|cs|, skipped, refused, embedded, tokens, cost);
  }

  lemma NothingYet(r: Rules, l: Ledger, model: string)
    ensures Pending(r, l, model, []) == [] && Refusals(r, []) == 0 && Settled(r, l, model, []) == 0
    ensures Recorded(l, model, []) == l && TotalTokens([]) == 0 && TotalPrice(r, []) == 0
  {
  }

  lemma OneMoreConsidered(r: Rules, l: Ledger, model: string, cs: seq<Chunk>, c: Chunk)
    ensures Pending(r, l, model, cs + [c]) == if Wanted(r, l, model, c) then Pending(r, l, model, cs) + [c] else Pending(r, l, model, cs)
    ensures Refusals(r, cs + [c]) == Refusals(r, cs) + (if r.refused(c) then 1 else 0)
    ensures Settled(r, l, model, cs + [c]) == Settled(r, l, model, cs) + (if !r.refused(c) && Seen(r, l, model, c) then 1 else 0)
  {
    assert (cs + [c])[..|cs|] == cs;
    assert Pending(r, l, model, cs) + [] == Pending(r, l, model, cs);
  }

  lemma OneMoreEmbedded(r: Rules, l: Ledger, model: string, cs: seq<Chunk>, c: Chunk)
    ensures Recorded(l, model, cs + [c]) == Recorded(l, model, cs)[c.id := Mark(c.checksum, model)]
    ensures TotalTokens(cs + [c]) == TotalTokens(cs) + c.tokens && TotalPrice(r, cs + [c]) == TotalPrice(r, cs) + r.price(c.tokens)
  {
    assert (cs + [c])[..|cs|] == cs;
  }

  lemma NextBatch(pending: seq<Chunk>, size: nat, answers: nat -> Answer, start: nat)
    requires size > 0 && start < |pending|
    ensures EmbeddedFrom(pending, size, answers, start)
         == Embedded(Batch(pending, size, start), answers(start)) + EmbeddedFrom(pending, size, answers, start + size)
  {
  }

  lemma NoMoreBatches(pending: seq<Chunk>, size: nat, answers: nat -> Answer, start: nat)
    requires size > 0 && start >= |pending|
    ensures EmbeddedFrom(pending, size, answers, start) == []
  {
  }

  // -------------------------------------------------------------- consequences

  lemma {:induction false} PendingIsWanted(r: Rules, l: Ledger, model: string, cs: seq<Chunk>)
    ensures forall c :: c in Pending(r, l, model, cs) <==> c in cs && Wanted(r, l, model, c)
  {
    hide Wanted;
    if cs != [] {
      PendingIsWanted(r, l, model, cs[..|cs| - 1]);
      assert cs == cs[..|cs| - 1] + [cs[|cs| - 1]];
    }
  }

  lemma {:induction false} EmbeddedIsPending(pending: seq<Chunk>, size: nat, answers: nat -> Answer, start: nat)
    requires size > 0
    ensures forall c :: c in EmbeddedFrom(pending, size, answers, start) ==> c in pending
    decreases |pending| - start
  {
    hide EmbeddedFrom, Embedded, Batch;
    if start < |pending| {
      EmbeddedIsPending(pending, size, answers, start + size);
      BatchIsPending(pending, size, answers(start), start);
      NextBatch(pending, size, answers, start);
    } else {
      NoMoreBatches(pending, size, answers, start);
    }
  }

  lemma BatchIsPending(pending: seq<Chunk>, size: nat, a: Answer, start: nat)
    requires start <= |pending|
    ensures forall c :: c in Embedded(Batch(pending, size, start), a) ==> c in pending
  {
    var b := Batch(pending, size, start);
    assert forall c :: c in b ==> c in pending;
    assert forall c :: c in Embedded(b, a) ==> c in b;
  }

  /** When every batch gets all its vectors, everything pending is embedded, in order. */
  lemma {:induction false} FullAnswersEmbedAll(pending: seq<Chunk>, size: nat, answers: nat -> Answer, start: nat)
    requires size > 0 && start <= |pending|
    requires forall s: nat :: answers(s).Vectors? && answers(s).count >= size
    ensures EmbeddedFrom(pending, size, answers, start) == pending[start..]
    decreases |pending| - start
  {
    hide EmbeddedFrom, Embedded;
    if start < |pending| {
      var b := Batch(pending, size, start);
      NextBatch(pending, size, answers, start);
      FullAnswer(b, answers(start));
      if start + size < |pending| {
        FullAnswersEmbedAll(pending, size, answers, start + size);
        assert pending[start..] == b + pending[start + size..];
      } else {
        NoMoreBatches(pending, size, answers, start + size);
        assert b + [] == pending[start..];
      }
    } else {
      NoMoreBatches(pending, size, answers, start);
    }
  }

  lemma FullAnswer(b: seq<Chunk>, a: Answer)
    requires a.Vectors? && a.count >= |b|
    ensures Embedded(b, a) == b
  {
  }

  ghost predicate DistinctIds(cs: seq<Chunk>) {
    forall i, j :: 0 <= i < j < |cs| ==> cs[i].id != cs[j].id
  }

  /** A ledger holds its old mark for an id nobody recorded, and the recorded one otherwise. */
  lemma {:induction false} LedgerAfter(l: Ledger, model: string, cs: seq<Chunk>, id: string)
    ensures (forall c :: c in cs ==> c.id != id) ==>
      (id in Recorded(l, model, cs) <==> id in l) && (id in l ==> Recorded(l, model, cs)[id] == l[id])
    ensures (exists c :: c in cs && c.id == id) ==>
      id in Recorded(l, model, cs) && exists c :: c in cs && c.id == id && Recorded(l, model, cs)[id] == Mark(c.checksum, model)
  {
    if cs != [] {
      var n := |cs| - 1;
      assert cs == cs[..n] + [cs[n]];
      assert cs[n] in cs;
      LedgerAfter(l, model, cs[..n], id);
      if cs[n].id != id && (exists c :: c in cs && c.id == id) {
        var c :| c in cs && c.id == id;
        assert c in cs[..n];
      }
    }
  }

  /** Chunks with distinct ids are equal when their ids are. */
  lemma SameIdSameChunk(cs: seq<Chunk>, a: Chunk, b: Chunk)
    requires DistinctIds(cs) && a in cs && b in cs && a.id == b.id
    ensures a == b
  {
    var i :| 0 <= i < |cs| && cs[i] == a;
    var j :| 0 <= j < |cs| && cs[j] == b;
  }

  /** After a run of any outcome, the next run wants a chunk exactly if the first wanted it and either did not get to
    * embed it or recorded it without a checksum: nothing is lost, and nothing that carries a checksum is paid twice. */
  lemma NextRunWantsExactly(r: Rules, l: Ledger, model: string, cs: seq<Chunk>, size: nat, answers: nat -> Answer, c: Chunk)
    requires size > 0 && DistinctIds(cs) && c in cs && (forall t :: r.hash(t) != "")
    ensures var done := EmbeddedFrom(Pending(r, l, model, cs), size, answers, 0);
            Wanted(r, Recorded(l, model, done), model, c) <==>
              Wanted(r, l, model, c) && (c !in done || c.checksum == "")
  {
    hide EmbeddedFrom, Pending, Recorded, DistinctIds;
    var pending := Pending(r, l, model, cs);
    var done := EmbeddedFrom(pending, size, answers, 0);
    PendingIsWanted(r, l, model, cs);
    EmbeddedIsPending(pending, size, answers, 0);
    LedgerAfter(l, model, done, c.id);
    if c in done {
      var d :| d in done && d.id == c.id && Recorded(l, model, done)[c.id] == Mark(d.checksum, model);
      SameIdSameChunk(cs, d, c);
    } else {
      forall d | d in done ensures d.id != c.id {
        if d.id == c.id {
          SameIdSameChunk(cs, d, c);
        }
      }
    }
  }

  /** When every batch succeeds, a second run over the same chunks embeds nothing exactly when every chunk the first
    * run embedded carries a checksum. */
  lemma SecondRunIsFreeExactly(r: Rules, l: Ledger, model: string, cs: seq<Chunk>, size: nat, answers: nat -> Answer)
    requires size > 0 && DistinctIds(cs) && (forall t :: r.hash(t) != "")
    requires forall s: nat :: answers(s).Vectors? && answers(s).count >= size
    ensures var first := Pending(r, l, model, cs);
            Pending(r, Recorded(l, model, EmbeddedFrom(first, size, answers, 0)), model, cs) == []
            <==> forall c :: c in first ==> c.checksum != ""
  {
    hide EmbeddedFrom, Pending, Recorded, DistinctIds, Wanted;
    var first := Pending(r, l, model, cs);
    FullAnswersEmbedAll(first, size, answers, 0);
    assert first[0..] == first;
    var after := Recorded(l, model, EmbeddedFrom(first, size, answers, 0));
    var second := Pending(r, after, model, cs);
    PendingIsWanted(r, l, model, cs);
    PendingIsWanted(r, after, model, cs);
    forall c | c in cs ensures Wanted(r, after, model, c) <==> c in first && c.checksum == "" {
      NextRunWantsExactly(r, l, model, cs, size, answers, c);
    }
    if second != [] {
      assert second[0] in second;
    }
  }

  // -------------------------------------------------------------- batch by batch

  /** Position `i` of what is pending got a vector: its batch was answered, with enough vectors to reach it. */
  predicate GotVector(size: nat, answers: nat -> Answer, i: nat)
    requires size > 0
  {
    var a := answers(i / size * size);
    a.Vectors? && i % size < a.count
  }

  /** The positions from `start` on that got a vector, in order. */
  function Reached(pending: seq<Chunk>, size: nat, answers: nat -> Answer, start: nat, end: nat): seq<Chunk>
    requires size > 0 && end <= |pending|
    decreases end - start
  {
    if start >= end then []
    else Reached(pending, size, answers, start, end - 1) + (if GotVector(size, answers, end - 1) then [pending[end - 1]] else [])
  }

  lemma InBatch(size: nat, b: nat, i: nat)
    requires size > 0 && b * size <= i < b * size + size
    ensures i / size * size == b * size && i % size == i - b * size
  {
    var r := i - b * size;
    assert i == b * size + r && 0 <= r < size;
    DivisionIsUnique(size, b, r);
  }

  lemma DivisionIsUnique(size: nat, b: nat, r: nat)
    requires r < size
    ensures (b * size + r) / size == b && (b * size + r) % size == r
  {
    var n := b * size + r;
    var q, m := n / size, n % size;
    Quotient(n, size);
    if q < b {
      Multiple(b, q, size);
    } else if q > b {
      Multiple(q, b, size);
    }
  }

  lemma Quotient(n: nat, size: nat)
    requires size > 0
    ensures n == n / size * size + n % size && 0 <= n % size < size
  {
  }

  lemma Multiple(a: nat, b: nat, size: nat)
    requires a > b
    ensures a * size - b * size >= size
  {
    assert a * size - b * size == (a - b) * size;
    assert (a - b) * size == (a - b - 1) * size + size;
  }

  lemma {:induction false} OneBatchReached(pending: seq<Chunk>, size: nat, answers: nat -> Answer, b: nat, end: nat)
    requires size > 0 && b * size <= end <= |pending| && end <= b * size + size
    ensures Reached(pending, size, answers, b * size, end) == Embedded(pending[b * size..end], answers(b * size))
    decreases end - b * size
  {
    if end > b * size {
      OneBatchReached(pending, size, answers, b, end - 1);
      InBatch(size, b, end - 1);
      var batch := pending[b * size..end];
      assert batch == pending[b * size..end - 1] + [pending[end - 1]];
    }
  }

  lemma {:induction false} ReachedSplits(pending: seq<Chunk>, size: nat, answers: nat -> Answer, start: nat, mid: nat, end: nat)
    requires size > 0 && start <= mid <= end <= |pending|
    ensures Reached(pending, size, answers, start, end)
         == Reached(pending, size, answers, start, mid) + Reached(pending, size, answers, mid, end)
    decreases end - mid
  {
    hide GotVector;
    if mid < end {
      ReachedSplits(pending, size, answers, start, mid, end - 1);
    } else {
      assert Reached(pending, size, answers, mid, end) == [];
    }
  }

  /** What a run embeds and records is exactly the pending chunks whose position got a vector, in order. */
  lemma {:induction false} EmbeddedByPosition(pending: seq<Chunk>, size: nat, answers: nat -> Answer, b: nat)
    requires size > 0 && b * size <= |pending|
    ensures EmbeddedFrom(pending, size, answers, b * size) == Reached(pending, size, answers, b * size, |pending|)
    decreases |pending| - b * size
  {
    hide Embedded, GotVector;
    var start := b * size;
    if start < |pending| {
      var end := if start + size < |pending| then start + size else |pending|;
      NextBatch(pending, size, answers, start);
      OneBatchReached(pending, size, answers, b, end);
      assert Batch(pending, size, start) == pending[start..end];
      ReachedSplits(pending, size, answers, start, end, |pending|);
      if start + size <= |pending| {
        assert (b + 1) * size == start + size;
        EmbeddedByPosition(pending, size, answers, b + 1);
      } else {
        NoMoreBatches(pending, size, answers, start + size);
      }
    } else {
      NoMoreBatches(pending, size, answers, start);
    }
  }

  /** Nothing refused, and nothing the ledger has under its checksum and model, is ever sent to be embedded. */
  lemma OnlyWhatIsWanted(r: Rules, l: Ledger, model: string, cs: seq<Chunk>, size: nat, answers: nat -> Answer, c: Chunk)
    requires size > 0 && c in EmbeddedFrom(Pending(r, l, model, cs), size, answers, 0)
    ensures c in cs && !r.refused(c)
    ensures !(c.id in l && l[c.id].model == model && l[c.id].checksum == (if c.checksum != "" then c.checksum else r.hash(c.content)))
  {
    hide EmbeddedFrom, Pending;
    PendingIsWanted(r, l, model, cs);
    EmbeddedIsPending(Pending(r, l, model, cs), size, answers, 0);
  }
}

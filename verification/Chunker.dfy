/** Splitting a document into overlapping chunks on paragraph boundaries. */
module Chunker {

  const CHARS_PER_TOKEN := 4

  /** A quarter of the length, rounded down, and at least one. */
  function EstimateTokens(text: string): (n: nat)
    ensures n >= 1 && |text| < 4 * (n + 1) && (n > 1 ==> 4 * n <= |text|)
  {
    if |text| / CHARS_PER_TOKEN > 1 then |text| / CHARS_PER_TOKEN else 1
  }

  /** Paragraphs joined by blank lines. */
  function Join(paragraphs: seq<string>): string {
    if paragraphs == [] then ""
    else if |paragraphs| == 1 then paragraphs[0]
    else paragraphs[0] + "\n\n" + Join(paragraphs[1..])
  }

  /** Joining in two parts puts one blank line between them. */
  lemma {:induction false} JoinInParts(a: seq<string>, b: seq<string>)
    requires a != [] && b != []
    ensures Join(a + b) == Join(a) + "\n\n" + Join(b)
    decreases |a|
  {
    assert (a + b)[1..] == a[1..] + b;
    if |a| > 1 {
      JoinInParts(a[1..], b);
      assert a[0] + "\n\n" + (Join(a[1..]) + "\n\n" + Join(b)) == (a[0] + "\n\n" + Join(a[1..])) + "\n\n" + Join(b);
    } else {
      assert a[1..] + b == b;
    }
  }

  /** The token estimate of paragraphs `i..j`, summed. */
  function Tokens(ps: seq<string>, i: nat, j: nat): nat
    requires i <= j <= |ps|
    decreases j - i
  {
    if i == j then 0 else Tokens(ps, i, j - 1) + EstimateTokens(ps[j - 1])
  }

  datatype Range = Range(start: nat, end: nat)

  datatype Chunk = Chunk(number: nat, content: string, tokenCount: nat)

  // -------------------------------------------------------------- what chunking means

  /** `j` starts the longest run of paragraphs that ends at `r.end` and fits in the overlap. */
  ghost predicate IsTail(ps: seq<string>, overlap: nat, r: Range, j: nat)
    requires r.start <= r.end <= |ps|
  {
    && r.start <= j <= r.end && Tokens(ps, j, r.end) <= overlap
    && (j > r.start ==> Tokens(ps, j - 1, r.end) > overlap)
  }

  /** The first paragraph of chunk `k` that the previous chunk does not already hold. */
  function FirstNew(rs: seq<Range>, k: nat): nat
    requires k < |rs|
  {
    if k == 0 then 0 else rs[k - 1].end
  }

  /** Chunk `k` is a range that adds at least one paragraph. */
  ghost predicate Advances(ps: seq<string>, rs: seq<Range>, k: nat)
    requires k < |rs|
  {
    rs[k].start <= FirstNew(rs, k) < rs[k].end <= |ps|
  }

  /** It starts where the overlap carried over from the previous chunk does. */
  ghost predicate StartsAtTail(ps: seq<string>, overlap: nat, rs: seq<Range>, k: nat)
    requires k < |rs|
  {
    if k == 0 then rs[k].start == 0
    else rs[k - 1].start <= rs[k - 1].end <= |ps| && IsTail(ps, overlap, rs[k - 1], rs[k].start)
  }

  /** It took every paragraph but its first new one because that one still fitted. */
  ghost predicate FilledWithinTarget(ps: seq<string>, target: int, rs: seq<Range>, k: nat)
    requires k < |rs| && rs[k].start <= FirstNew(rs, k) && rs[k].end <= |ps|
  {
    forall e :: FirstNew(rs, k) + 1 < e <= rs[k].end ==> Tokens(ps, rs[k].start, e) <= target
  }

  /** It stopped because the next paragraph did not fit. */
  ghost predicate FullAt(ps: seq<string>, target: int, r: Range) {
    r.start <= r.end < |ps| && Tokens(ps, r.start, r.end + 1) > target
  }

  ghost predicate ChunkOk(ps: seq<string>, target: int, overlap: nat, rs: seq<Range>, k: nat)
    requires k < |rs|
  {
    Advances(ps, rs, k) && StartsAtTail(ps, overlap, rs, k) && FilledWithinTarget(ps, target, rs, k)
  }

  /** Some first chunks of the document, all closed. */
  ghost predicate Closed(ps: seq<string>, target: int, overlap: nat, rs: seq<Range>) {
    forall k :: 0 <= k < |rs| ==> ChunkOk(ps, target, overlap, rs, k) && FullAt(ps, target, rs[k])
  }

  /** The chunks of the whole document. */
  ghost predicate WellChunked(ps: seq<string>, target: int, overlap: nat, rs: seq<Range>) {
    && (ps == [] ==> rs == [])
    && (ps != [] ==> rs != [] && rs[|rs| - 1].end == |ps|)
    && (forall k :: 0 <= k < |rs| ==> ChunkOk(ps, target, overlap, rs, k))
    && (forall k :: 0 <= k < |rs| - 1 ==> FullAt(ps, target, rs[k]))
  }

  // -------------------------------------------------------------- the algorithm

  /** `tail` is the overlap that the chunk `r` hands on. */
  ghost predicate IsCarried(ps: seq<string>, overlap: nat, r: Range, tail: seq<string>, tokens: nat)
    requires r.start <= r.end <= |ps|
  {
    exists j: nat :: IsTail(ps, overlap, r, j) && tail == ps[j..r.end] && tokens == Tokens(ps, j, r.end)
  }

  /** The tail to carry: paragraphs are taken from the end of the buffer while they fit. */
  method CarryTail(ghost ps: seq<string>, overlap: nat, ghost r: Range, buffer: seq<string>) returns (tail: seq<string>, tokens: nat)
    requires r.start <= r.end <= |ps| && buffer == ps[r.start..r.end]
    ensures IsCarried(ps, overlap, r, tail, tokens)
  {
    tail, tokens := [], 0;
    ghost var j := r.end;
    var i := |buffer|;
    while i > 0
      invariant 0 <= i <= |buffer| && j == r.start + i
      invariant tail == ps[j..r.end] && tokens == Tokens(ps, j, r.end) <= overlap
    {
      var size := EstimateTokens(buffer[i - 1]);
      TokensFromTheLeft(ps, j - 1, r.end);
      if tokens + size > overlap {
        break;
      }
      tail := [buffer[i - 1]] + tail;
      tokens := tokens + size;
      i := i - 1;
      j := j - 1;
    }
    assert IsTail(ps, overlap, r, j);
  }

  /** Chunk `k` has number `k` and the joined paragraphs of range `k`. */
  ghost predicate Cut(ps: seq<string>, rs: seq<Range>, chunks: seq<Chunk>) {
    |chunks| == |rs| && forall k :: 0 <= k < |rs| ==>
      rs[k].start <= rs[k].end <= |ps| && chunks[k] == ChunkOf(k, ps[rs[k].start..rs[k].end])
  }

  /** The chunks are cut along a chunking of the document. */
  ghost predicate Chunks(ps: seq<string>, target: int, overlap: nat, chunks: seq<Chunk>) {
    exists rs :: WellChunked(ps, target, overlap, rs) && Cut(ps, rs, chunks)
  }

  /** A chunk's number, the paragraphs it joins, and its length in quarters. */
  ghost predicate Holds(ps: seq<string>, r: Range, c: Chunk, number: nat) {
    && r.start <= r.end <= |ps| && c.number == number && c.content == Join(ps[r.start..r.end])
    && c.tokenCount >= 1 && |c.content| < 4 * (c.tokenCount + 1) && (c.tokenCount > 1 ==> 4 * c.tokenCount <= |c.content|)
  }

  ghost predicate HoldsAll(ps: seq<string>, target: int, overlap: nat, chunks: seq<Chunk>) {
    exists rs :: WellChunked(ps, target, overlap, rs) && |rs| == |chunks| && forall k :: 0 <= k < |rs| ==> Holds(ps, rs[k], chunks[k], k)
  }

  lemma ChunksHold(ps: seq<string>, target: int, overlap: nat, chunks: seq<Chunk>)
    requires Chunks(ps, target, overlap, chunks)
    ensures HoldsAll(ps, target, overlap, chunks)
  {
    hide WellChunked, Join;
    var rs :| WellChunked(ps, target, overlap, rs) && Cut(ps, rs, chunks);
    assert forall k :: 0 <= k < |rs| ==> Holds(ps, rs[k], chunks[k], k);
  }

  method ChunkDocument(ps: seq<string>, target: int, overlap: nat) returns (chunks: seq<Chunk>)
    ensures Chunks(ps, target, overlap, chunks)
    ensures HoldsAll(ps, target, overlap, chunks)
  {
    hide HoldsAll, ChunkOk, FullAt, IsTail, Tokens, EstimateTokens, Join, ChunkOf, WellChunked, Closed, Cut, IsCarried;
    chunks := [];
    ghost var rs: seq<Range> := [];
    if ps == [] {
      NothingToChunk(ps, target, overlap);
      ChunksHold(ps, target, overlap, chunks);
      return;
    }
    NothingClosed(ps, target, overlap);
    var buffer: seq<string>, bufferTokens: nat := [], 0;
    ghost var start: nat := 0;
    for i := 0 to |ps|
      invariant start <= i && buffer == ps[start..i] && bufferTokens == Tokens(ps, start, i)
      invariant Cut(ps, rs, chunks)
      invariant Closed(ps, target, overlap, rs)
      invariant i == 0 ==> rs == []
      invariant i > 0 ==> ChunkOk(ps, target, overlap, rs + [Range(start, i)], |rs|)
    {
      var size := EstimateTokens(ps[i]);
      if buffer != [] && bufferTokens + size > target {
        ghost var r := Range(start, i);
        CutGrows(ps, rs, chunks, r, buffer);
        chunks := chunks + [ChunkOf(|chunks|, buffer)];
        CloseChunk(ps, target, overlap, rs, r);
        rs := rs + [r];
        buffer, bufferTokens := CarryTail(ps, overlap, r, buffer);
        start := CarriedFrom(ps, overlap, r, buffer, bufferTokens);
        OpenChunk(ps, target, overlap, rs, Range(start, i + 1));
      } else {
        GrowChunk(ps, target, overlap, rs, start, i);
      }
      LastAdded(ps, start, i + 1);
      assert ps[start..i + 1] == ps[start..i] + [ps[i]];
      buffer := buffer + [ps[i]];
      bufferTokens := bufferTokens + size;
    }
    ghost var r := Range(start, |ps|);
    CutGrows(ps, rs, chunks, r, buffer);
    chunks := chunks + [ChunkOf(|chunks|, buffer)];
    FinalChunk(ps, target, overlap, rs, r);
    ChunksHold(ps, target, overlap, chunks);
  }

  lemma CarriedFrom(ps: seq<string>, overlap: nat, r: Range, tail: seq<string>, tokens: nat) returns (j: nat)
    requires r.start <= r.end <= |ps| && IsCarried(ps, overlap, r, tail, tokens)
    ensures IsTail(ps, overlap, r, j) && r.start <= j <= r.end && tail == ps[j..r.end] && tokens == Tokens(ps, j, r.end)
  {
    hide Tokens;
    j :| IsTail(ps, overlap, r, j) && j <= r.end && tail == ps[j..r.end] && tokens == Tokens(ps, j, r.end);
  }

  lemma CutGrows(ps: seq<string>, rs: seq<Range>, chunks: seq<Chunk>, r: Range, buffer: seq<string>)
    requires Cut(ps, rs, chunks) && r.start <= r.end <= |ps| && buffer == ps[r.start..r.end]
    ensures Cut(ps, rs + [r], chunks + [ChunkOf(|chunks|, buffer)])
  {
    hide ChunkOf;
  }

  lemma NothingClosed(ps: seq<string>, target: int, overlap: nat)
    ensures Closed(ps, target, overlap, []) && Cut(ps, [], []) && Tokens(ps, 0, 0) == 0
  {
  }

  lemma NothingToChunk(ps: seq<string>, target: int, overlap: nat)
    requires ps == []
    ensures WellChunked(ps, target, overlap, []) && Cut(ps, [], [])
  {
  }

  function ChunkOf(number: nat, buffer: seq<string>): Chunk {
    Chunk(number, Join(buffer), EstimateTokens(Join(buffer)))
  }

  lemma {:induction false} TokensFromTheLeft(ps: seq<string>, i: nat, j: nat)
    requires i < j <= |ps|
    ensures Tokens(ps, i, j) == EstimateTokens(ps[i]) + Tokens(ps, i + 1, j)
    decreases j - i
  {
    hide EstimateTokens;
    if i + 1 < j {
      TokensFromTheLeft(ps, i, j - 1);
    }
  }

  /** The chunk conditions of `k` look at no chunk after it. */
  lemma ChunkOkIsLocal(ps: seq<string>, target: int, overlap: nat, rs: seq<Range>, more: seq<Range>, k: nat)
    requires k < |rs|
    ensures ChunkOk(ps, target, overlap, rs + more, k) <==> ChunkOk(ps, target, overlap, rs, k)
  {
    var all := rs + more;
    assert all[k] == rs[k] && (k > 0 ==> all[k - 1] == rs[k - 1]);
  }

  lemma CloseChunk(ps: seq<string>, target: int, overlap: nat, rs: seq<Range>, r: Range)
    requires Closed(ps, target, overlap, rs) && ChunkOk(ps, target, overlap, rs + [r], |rs|)
    requires r.start <= r.end < |ps| && Tokens(ps, r.start, r.end) + EstimateTokens(ps[r.end]) > target
    ensures Closed(ps, target, overlap, rs + [r])
  {
    hide ChunkOk;
    forall k | 0 <= k < |rs + [r]| ensures ChunkOk(ps, target, overlap, rs + [r], k) && FullAt(ps, target, (rs + [r])[k]) {
      if k < |rs| {
        ChunkOkIsLocal(ps, target, overlap, rs, [r], k);
      }
    }
  }

  lemma OpenChunk(ps: seq<string>, target: int, overlap: nat, rs: seq<Range>, r: Range)
    requires rs != [] && r.end <= |ps| && rs[|rs| - 1].end + 1 == r.end && rs[|rs| - 1].start <= rs[|rs| - 1].end
    requires IsTail(ps, overlap, rs[|rs| - 1], r.start)
    ensures ChunkOk(ps, target, overlap, rs + [r], |rs|)
  {
    var all := rs + [r];
    assert all[|rs|] == r && all[|rs| - 1] == rs[|rs| - 1];
  }

  lemma GrowChunk(ps: seq<string>, target: int, overlap: nat, rs: seq<Range>, start: nat, i: nat)
    requires start <= i < |ps|
    requires i == 0 ==> rs == []
    requires i > 0 ==> ChunkOk(ps, target, overlap, rs + [Range(start, i)], |rs|)
    requires i == start || Tokens(ps, start, i) + EstimateTokens(ps[i]) <= target
    ensures ChunkOk(ps, target, overlap, rs + [Range(start, i + 1)], |rs|)
  {
    var was, all := rs + [Range(start, i)], rs + [Range(start, i + 1)];
    assert all[|rs|] == Range(start, i + 1) && was[|rs|] == Range(start, i);
    assert |rs| > 0 ==> all[|rs| - 1] == was[|rs| - 1];
    assert FirstNew(all, |rs|) == FirstNew(was, |rs|);
    forall e | FirstNew(all, |rs|) + 1 < e <= i + 1 ensures Tokens(ps, start, e) <= target {
      if e <= i {
        assert Tokens(ps, was[|rs|].start, e) <= target;
      }
    }
  }

  lemma FinalChunk(ps: seq<string>, target: int, overlap: nat, rs: seq<Range>, r: Range)
    requires ps != [] && r.end == |ps| && Closed(ps, target, overlap, rs) && ChunkOk(ps, target, overlap, rs + [r], |rs|)
    ensures WellChunked(ps, target, overlap, rs + [r])
  {
    hide ChunkOk, FullAt;
    var all := rs + [r];
    forall k | 0 <= k < |all| ensures ChunkOk(ps, target, overlap, all, k) {
      if k < |rs| {
        ChunkOkIsLocal(ps, target, overlap, rs, [r], k);
      }
    }
    assert forall k :: 0 <= k < |rs| ==> all[k] == rs[k];
  }

  // -------------------------------------------------------------- consequences

  /** Chunks are contiguous ranges in order: starts never go back, ends strictly advance, neighbours leave no gap,
    * and together they cover the document. */
  lemma ChunksCoverInOrder(ps: seq<string>, target: int, overlap: nat, rs: seq<Range>)
    requires WellChunked(ps, target, overlap, rs)
    ensures rs == [] <==> ps == []
    ensures rs != [] ==> rs[0].start == 0 && rs[|rs| - 1].end == |ps|
    ensures forall k :: 0 <= k < |rs| - 1 ==> rs[k].start <= rs[k + 1].start <= rs[k].end < rs[k + 1].end
  {
    hide IsTail, FilledWithinTarget, FullAt;
    forall k | 0 <= k < |rs| - 1 ensures rs[k].start <= rs[k + 1].start <= rs[k].end < rs[k + 1].end {
      assert ChunkOk(ps, target, overlap, rs, k + 1);
      TailIsInside(ps, overlap, rs[k], rs[k + 1].start);
    }
    if rs != [] {
      assert ChunkOk(ps, target, overlap, rs, 0);
    }
  }

  lemma TailIsInside(ps: seq<string>, overlap: nat, r: Range, j: nat)
    requires r.start <= r.end <= |ps| && IsTail(ps, overlap, r, j)
    ensures r.start <= j <= r.end && Tokens(ps, j, r.end) <= overlap
  {
  }

  /** No paragraph is larger than `largest`. */
  ghost predicate AtMost(ps: seq<string>, largest: nat) {
    forall i :: 0 <= i < |ps| ==> EstimateTokens(ps[i]) <= largest
  }

  function Max(a: int, b: int): int {
    if a > b then a else b
  }

  /** What neighbours share is at most the overlap, and no chunk is larger than the target or the overlap and one
    * paragraph. */
  lemma ChunksAreBounded(ps: seq<string>, target: int, overlap: nat, rs: seq<Range>, largest: nat, k: nat)
    requires WellChunked(ps, target, overlap, rs) && AtMost(ps, largest) && k < |rs|
    ensures rs[k].start <= rs[k].end <= |ps|
    ensures Tokens(ps, rs[k].start, rs[k].end) <= Max(target, overlap + largest)
    ensures k > 0 ==> rs[k].start <= rs[k - 1].end <= |ps| && Tokens(ps, rs[k].start, rs[k - 1].end) <= overlap
  {
    hide EstimateTokens, FullAt, Tokens;
    assert ChunkOk(ps, target, overlap, rs, k);
    var first, r := FirstNew(rs, k), rs[k];
    if k > 0 {
      TailIsInside(ps, overlap, rs[k - 1], r.start);
    }
    LastAdded(ps, r.start, r.end);
    if r.end - 1 > first {
      assert Tokens(ps, r.start, r.end) <= target;
    } else if k == 0 {
      NoTokens(ps, 0);
    }
  }

  lemma LastAdded(ps: seq<string>, i: nat, j: nat)
    requires i < j <= |ps|
    ensures Tokens(ps, i, j) == Tokens(ps, i, j - 1) + EstimateTokens(ps[j - 1])
  {
  }

  lemma NoTokens(ps: seq<string>, i: nat)
    requires i <= |ps|
    ensures Tokens(ps, i, i) == 0
  {
  }

  /** The new paragraphs of the first `k` chunks, overlaps dropped. */
  function Rebuilt(ps: seq<string>, rs: seq<Range>, k: nat): seq<string>
    requires k <= |rs| && (forall i :: 0 <= i < |rs| ==> FirstNew(rs, i) <= rs[i].end <= |ps|)
  {
    if k == 0 then [] else Rebuilt(ps, rs, k - 1) + ps[FirstNew(rs, k - 1)..rs[k - 1].end]
  }

  /** Dropping from each chunk what it shares with the one before rebuilds the document. */
  lemma DroppingOverlapsRebuilds(ps: seq<string>, target: int, overlap: nat, rs: seq<Range>)
    requires WellChunked(ps, target, overlap, rs)
    ensures forall i :: 0 <= i < |rs| ==> FirstNew(rs, i) <= rs[i].end <= |ps|
    ensures Rebuilt(ps, rs, |rs|) == ps
  {
    hide StartsAtTail, FilledWithinTarget, FullAt, Rebuilt;
    forall i | 0 <= i < |rs| ensures FirstNew(rs, i) <= rs[i].end <= |ps| {
      assert ChunkOk(ps, target, overlap, rs, i);
    }
    RebuiltPrefix(ps, rs, |rs|);
  }

  lemma {:induction false} RebuiltPrefix(ps: seq<string>, rs: seq<Range>, k: nat)
    requires k <= |rs| && (forall i :: 0 <= i < |rs| ==> FirstNew(rs, i) <= rs[i].end <= |ps|)
    ensures k > 0 ==> Rebuilt(ps, rs, k) == ps[..rs[k - 1].end]
    ensures k == 0 ==> Rebuilt(ps, rs, k) == []
  {
    if k > 0 {
      RebuiltPrefix(ps, rs, k - 1);
      assert ps[..FirstNew(rs, k - 1)] + ps[FirstNew(rs, k - 1)..rs[k - 1].end] == ps[..rs[k - 1].end];
    }
  }

  // -------------------------------------------------------------- only one way

  lemma {:induction false} TokensGrow(ps: seq<string>, i: nat, j: nat, k: nat)
    requires i <= j <= k <= |ps|
    ensures Tokens(ps, j, k) <= Tokens(ps, i, k)
    ensures i < j ==> Tokens(ps, j, k) < Tokens(ps, i, k)
    decreases j - i
  {
    if i < j {
      TokensFromTheLeft(ps, i, k);
      TokensGrow(ps, i + 1, j, k);
    }
  }

  lemma TailIsUnique(ps: seq<string>, overlap: nat, r: Range, i: nat, j: nat)
    requires r.start <= r.end <= |ps| && IsTail(ps, overlap, r, i) && IsTail(ps, overlap, r, j)
    ensures i == j
  {
    if i < j {
      TokensGrow(ps, i, j - 1, r.end);
    } else if j < i {
      TokensGrow(ps, j, i - 1, r.end);
    }
  }

  /** Chunk `k` ends where its start forces it to. */
  lemma EndIsForced(ps: seq<string>, target: int, overlap: nat, rs: seq<Range>, qs: seq<Range>, k: nat)
    requires WellChunked(ps, target, overlap, rs) && WellChunked(ps, target, overlap, qs)
    requires k < |rs| && k < |qs| && rs[..k] == qs[..k] && rs[k].start == qs[k].start
    ensures qs[k].end <= rs[k].end
  {
    hide StartsAtTail, IsTail, Tokens;
    assert ChunkOk(ps, target, overlap, rs, k) && ChunkOk(ps, target, overlap, qs, k);
    if k > 0 {
      assert rs[k - 1] == rs[..k][k - 1] == qs[..k][k - 1] == qs[k - 1];
    }
    if rs[k].end < |ps| {
      LastChunkEnds(ps, target, overlap, rs, k);
    }
  }

  lemma LastChunkEnds(ps: seq<string>, target: int, overlap: nat, rs: seq<Range>, k: nat)
    requires WellChunked(ps, target, overlap, rs) && k < |rs| && rs[k].end < |ps|
    ensures FullAt(ps, target, rs[k])
  {
  }

  lemma {:induction false} PrefixesAgree(ps: seq<string>, target: int, overlap: nat, rs: seq<Range>, qs: seq<Range>, k: nat)
    requires WellChunked(ps, target, overlap, rs) && WellChunked(ps, target, overlap, qs)
    requires k <= |rs| && k <= |qs|
    ensures rs[..k] == qs[..k]
  {
    hide WellChunked, Tokens, FilledWithinTarget;
    if k > 0 {
      var n := k - 1;
      PrefixesAgree(ps, target, overlap, rs, qs, n);
      OkAt(ps, target, overlap, rs, n);
      OkAt(ps, target, overlap, qs, n);
      if n > 0 {
        assert rs[n - 1] == rs[..n][n - 1] == qs[..n][n - 1] == qs[n - 1];
        TailIsUnique(ps, overlap, rs[n - 1], rs[n].start, qs[n].start);
      }
      EndIsForced(ps, target, overlap, rs, qs, n);
      EndIsForced(ps, target, overlap, qs, rs, n);
      assert rs[..k] == rs[..n] + [rs[n]] && qs[..k] == qs[..n] + [qs[n]];
    }
  }

  lemma OkAt(ps: seq<string>, target: int, overlap: nat, rs: seq<Range>, k: nat)
    requires WellChunked(ps, target, overlap, rs) && k < |rs|
    ensures ChunkOk(ps, target, overlap, rs, k)
  {
  }

  /** The chunking conditions have exactly one solution, so the algorithm's output is fixed by them. */
  lemma ChunkingIsUnique(ps: seq<string>, target: int, overlap: nat, rs: seq<Range>, qs: seq<Range>)
    requires WellChunked(ps, target, overlap, rs) && WellChunked(ps, target, overlap, qs)
    ensures rs == qs
  {
    ShorterIsWhole(ps, target, overlap, rs, qs);
    ShorterIsWhole(ps, target, overlap, qs, rs);
    PrefixesAgree(ps, target, overlap, rs, qs, |rs|);
    assert rs[..|rs|] == rs && qs[..|qs|] == qs;
  }

  /** And so there is one list of chunks that meets the contract of `ChunkDocument`. */
  lemma ChunksAreUnique(ps: seq<string>, target: int, overlap: nat, a: seq<Chunk>, b: seq<Chunk>)
    requires Chunks(ps, target, overlap, a) && Chunks(ps, target, overlap, b)
    ensures a == b
  {
    hide WellChunked, ChunkOf;
    var rs :| WellChunked(ps, target, overlap, rs) && Cut(ps, rs, a);
    var qs :| WellChunked(ps, target, overlap, qs) && Cut(ps, qs, b);
    ChunkingIsUnique(ps, target, overlap, rs, qs);
  }

  /** A chunking cannot stop early: the last chunk ends the document, and no chunk follows the end. */
  lemma ShorterIsWhole(ps: seq<string>, target: int, overlap: nat, rs: seq<Range>, qs: seq<Range>)
    requires WellChunked(ps, target, overlap, rs) && WellChunked(ps, target, overlap, qs)
    ensures |qs| <= |rs|
  {
    hide ChunkOk, FullAt;
    if |rs| < |qs| {
      PrefixesAgree(ps, target, overlap, rs, qs, |rs|);
      ChunksCoverInOrder(ps, target, overlap, qs);
      assert rs != [];
      var n := |rs| - 1;
      assert rs[n] == rs[..|rs|][n] == qs[..|rs|][n] == qs[n];
      assert qs[n].end < qs[n + 1].end;
      OkAt(ps, target, overlap, qs, n + 1);
      EndsInside(ps, target, overlap, qs, n + 1);
      assert false;
    }
  }

  lemma EndsInside(ps: seq<string>, target: int, overlap: nat, rs: seq<Range>, k: nat)
    requires k < |rs| && ChunkOk(ps, target, overlap, rs, k)
    ensures rs[k].end <= |ps|
  {
  }
}

/** The lexical passage index: ingestion with deduplication, supersession, and budgeted search. */
module RagIndex {
  import opened Text

  datatype Sensitivity = Public | Internal | Restricted

  datatype Passage = Passage(id: string, documentId: string, version: nat, content: string, checksum: string,
                             tokens: nat, kind: string, sensitivity: Sensitivity)

  datatype Document = Document(id: string, title: string, content: string)

  const MAX_DOCUMENT := 2_000_000

  predicate Acceptable(d: Document) {
    d.id != "" && d.title != "" && Strip(d.content) != "" && |d.content| <= MAX_DOCUMENT
  }

  /** The text functions the index uses: its terms, its length, the content hash, and redaction. */
  datatype Texts = Texts(terms: string -> set<string>, length: string -> nat, hash: string -> string,
                         hasPii: string -> bool, redact: string -> string)

  /** `docFreq` counts, per term, the passages ever added that contain it. */
  datatype Index = Index(chunks: map<string, Passage>, byChecksum: map<string, string>, docFreq: multiset<string>,
                         lengths: map<string, nat>)

  const EMPTY := Index(map[], map[], multiset{}, map[])

  /** Personal data is redacted, and the checksum follows the content. */
  function Prepared(t: Texts, p: Passage): Passage {
    if t.hasPii(p.content) then p.(content := t.redact(p.content), checksum := t.hash(t.redact(p.content))) else p
  }

  function AddPrepared(ix: Index, t: Texts, p: Passage): Index {
    if p.checksum in ix.byChecksum then ix
    else Index(ix.chunks[p.id := p], ix.byChecksum[p.checksum := p.id], ix.docFreq + multiset(t.terms(p.content)),
               ix.lengths[p.id := t.length(p.content)])
  }

  function AddAll(ix: Index, t: Texts, ps: seq<Passage>): Index {
    if ps == [] then ix else AddPrepared(AddAll(ix, t, ps[..|ps| - 1]), t, Prepared(t, ps[|ps| - 1]))
  }

  /** How many of the passages are not duplicates of one indexed before them, and how many are redacted. */
  function Accepted(ix: Index, t: Texts, ps: seq<Passage>): nat {
    if ps == [] then 0
    else
      var n := |ps| - 1;
      Accepted(ix, t, ps[..n]) + (if Prepared(t, ps[n]).checksum in AddAll(ix, t, ps[..n]).byChecksum then 0 else 1)
  }

  function Redacted(t: Texts, ps: seq<Passage>): nat {
    if ps == [] then 0 else Redacted(t, ps[..|ps| - 1]) + (if t.hasPii(ps[|ps| - 1].content) then 1 else 0)
  }

  predicate Doomed(p: Passage, documentId: string, keep: nat) {
    p.documentId == documentId && p.version != keep
  }

  function DoomedIds(chunks: map<string, Passage>, documentId: string, keep: nat): set<string> {
    set id | id in chunks && Doomed(chunks[id], documentId, keep)
  }

  /** The live passages without some ids, with their checksums and lengths; term counts stay. */
  function Without(ix: Index, ids: set<string>): Index {
    Index(ix.chunks - ids, ix.byChecksum - (set id | id in ids && id in ix.chunks :: ix.chunks[id].checksum),
          ix.docFreq, ix.lengths - ids)
  }

  function Supersede(ix: Index, documentId: string, keep: nat): Index {
    Without(ix, DoomedIds(ix.chunks, documentId, keep))
  }

  // -------------------------------------------------------------- the class

  class LexicalIndex {
    var ix: Index
    const t: Texts

    constructor (t: Texts)
      ensures ix == EMPTY && this.t == t
    {
      ix, this.t := EMPTY, t;
    }

    /** `ps` are the document's chunks; an unacceptable document leaves no trace. */
    method Ingest(d: Document, ps: seq<Passage>) returns (accepted: nat, rejected: nat, deduplicated: nat, redacted: nat)
      modifies this
      ensures ix == if Acceptable(d) then AddAll(old(ix), t, ps) else old(ix)
      ensures if Acceptable(d) then accepted == Accepted(old(ix), t, ps) && deduplicated == |ps| - accepted && redacted == Redacted(t, ps) && rejected == 0
              else accepted == deduplicated == redacted == 0 && rejected == 1
      ensures rejected == 1 <==> d.id == "" || d.title == "" || Blank(d.content) || |d.content| > 2_000_000
    {
      StripTrims(d.content);
      hide Strip, Blank;
      accepted, rejected, deduplicated, redacted := 0, 0, 0, 0;
      if !Acceptable(d) {
        rejected := 1;
        return;
      }
      for i := 0 to |ps|
        invariant ix == AddAll(old(ix), t, ps[..i])
        invariant accepted == Accepted(old(ix), t, ps[..i]) && redacted == Redacted(t, ps[..i])
        invariant accepted + deduplicated == i && rejected == 0
      {
        assert ps[..i + 1][..i] == ps[..i];
        var p := ps[i];
        if t.hasPii(p.content) {
          var content := t.redact(p.content);
          redacted := redacted + 1;
          p := p.(content := content, checksum := t.hash(content));
        }
        if p.checksum in ix.byChecksum {
          deduplicated := deduplicated + 1;
        } else {
          ix := Index(ix.chunks[p.id := p], ix.byChecksum[p.checksum := p.id], ix.docFreq + multiset(t.terms(p.content)),
                      ix.lengths[p.id := t.length(p.content)]);
          accepted := accepted + 1;
        }
      }
      assert ps[..|ps|] == ps;
    }

    method SupersedeDocument(documentId: string, keep: nat) returns (count: nat)
      modifies this
      ensures ix == Supersede(old(ix), documentId, keep)
      ensures count == |DoomedIds(old(ix).chunks, documentId, keep)| == |old(ix).chunks| - |ix.chunks|
      ensures forall id :: id in ix.chunks <==>
                id in old(ix).chunks && (old(ix).chunks[id].documentId != documentId || old(ix).chunks[id].version == keep)
      ensures forall id :: id in ix.chunks ==> ix.chunks[id] == old(ix).chunks[id]
    {
      SurvivorsByName(ix, documentId, keep);
      var doomed := DoomedIds(ix.chunks, documentId, keep);
      SizeWithout(ix.chunks, doomed);
      hide Doomed, Without;
      count := |doomed|;
      NothingGone(ix);
      var left := doomed;
      while left != {}
        invariant left <= doomed
        invariant ix == Without(old(ix), doomed - left)
      {
        var id :| id in left;
        StillThere(old(ix), doomed - left, id);
        var p := ix.chunks[id];
        OneMoreGone(old(ix), doomed - left, id);
        ix := Index(ix.chunks - {id}, ix.byChecksum - {p.checksum}, ix.docFreq, ix.lengths - {id});
        assert doomed - (left - {id}) == (doomed - left) + {id};
        left := left - {id};
      }
      assert doomed - {} == doomed;
    }
  }

  lemma SurvivorsByName(ix: Index, documentId: string, keep: nat)
    ensures var next := Supersede(ix, documentId, keep);
            && (forall id :: id in next.chunks <==>
                  id in ix.chunks && (ix.chunks[id].documentId != documentId || ix.chunks[id].version == keep))
            && (forall id :: id in next.chunks ==> next.chunks[id] == ix.chunks[id])
  {
  }

  lemma SizeWithout(chunks: map<string, Passage>, gone: set<string>)
    requires gone <= chunks.Keys
    ensures |chunks - gone| == |chunks| - |gone|
  {
    assert (chunks - gone).Keys == chunks.Keys - gone;
    assert chunks.Keys == (chunks.Keys - gone) + gone;
  }

  lemma NothingGone(ix: Index)
    ensures Without(ix, {}) == ix
  {
    assert ix.chunks - {} == ix.chunks && ix.lengths - {} == ix.lengths && ix.byChecksum - {} == ix.byChecksum;
  }

  lemma StillThere(ix: Index, gone: set<string>, id: string)
    requires id in ix.chunks && id !in gone
    ensures id in Without(ix, gone).chunks && Without(ix, gone).chunks[id] == ix.chunks[id]
  {
  }

  lemma OneMoreGone(ix: Index, gone: set<string>, id: string)
    requires id in ix.chunks
    ensures Without(ix, gone + {id}) ==
      Index(Without(ix, gone).chunks - {id}, Without(ix, gone).byChecksum - {ix.chunks[id].checksum}, ix.docFreq,
            Without(ix, gone).lengths - {id})
  {
    var a := set x | x in gone + {id} && x in ix.chunks :: ix.chunks[x].checksum;
    var b := set x | x in gone && x in ix.chunks :: ix.chunks[x].checksum;
    assert a == b + {ix.chunks[id].checksum};
    assert ix.byChecksum - a == (ix.byChecksum - b) - {ix.chunks[id].checksum};
    assert ix.chunks - (gone + {id}) == (ix.chunks - gone) - {id};
    assert ix.lengths - (gone + {id}) == (ix.lengths - gone) - {id};
  }

  // -------------------------------------------------------------- consistency

  /** The checksum map is the inverse of the live passages, and every live passage has its length. */
  ghost predicate Consistent(ix: Index, t: Texts) {
    && ix.lengths.Keys == ix.chunks.Keys
    && (forall id :: id in ix.chunks ==> LiveOk(ix, t, id))
    && (forall sum :: sum in ix.byChecksum ==> SumOk(ix, sum))
  }

  ghost predicate LiveOk(ix: Index, t: Texts, id: string)
    requires id in ix.chunks
  {
    var p := ix.chunks[id];
    p.id == id && p.checksum in ix.byChecksum && ix.byChecksum[p.checksum] == id
    && id in ix.lengths && ix.lengths[id] == t.length(p.content)
  }

  ghost predicate SumOk(ix: Index, sum: string)
    requires sum in ix.byChecksum
  {
    ix.byChecksum[sum] in ix.chunks && ix.chunks[ix.byChecksum[sum]].checksum == sum
  }

  /** Adding a passage keeps the maps in step exactly when it is a duplicate or its id is new: an edited document
    * ingested again under its old version leaves the old text's checksum behind. */
  lemma AddKeepsConsistencyExactly(ix: Index, t: Texts, p: Passage)
    requires Consistent(ix, t)
    ensures Consistent(AddPrepared(ix, t, p), t) <==> p.checksum in ix.byChecksum || p.id !in ix.chunks
  {
    var next := AddPrepared(ix, t, p);
    if p.checksum !in ix.byChecksum {
      if p.id in ix.chunks {
        var was := ix.chunks[p.id].checksum;
        assert LiveOk(ix, t, p.id);
        assert was in next.byChecksum && !SumOk(next, was);
      } else {
        FreshAddIsConsistent(ix, t, p);
      }
    }
  }

  lemma FreshAddIsConsistent(ix: Index, t: Texts, p: Passage)
    requires Consistent(ix, t) && p.checksum !in ix.byChecksum && p.id !in ix.chunks
    ensures Consistent(AddPrepared(ix, t, p), t)
  {
    var next := AddPrepared(ix, t, p);
    forall id | id in next.chunks ensures LiveOk(next, t, id) {
      assert id != p.id ==> LiveOk(ix, t, id);
    }
    forall sum | sum in next.byChecksum ensures SumOk(next, sum) {
      assert sum != p.checksum ==> SumOk(ix, sum);
    }
  }

  /** A checksum that counts as a duplicate although no live passage has it. */
  ghost predicate Barred(ix: Index, sum: string) {
    sum in ix.byChecksum && forall id :: id in ix.chunks ==> ix.chunks[id].checksum != sum
  }

  /** What a maintainer can do to an index: ingest the chunks of a document, or supersede one. */
  datatype Change = IngestAll(ps: seq<Passage>) | SupersedeBy(documentId: string, keep: nat)

  function Changed(ix: Index, t: Texts, c: Change): Index {
    match c
    case IngestAll(ps) => AddAll(ix, t, ps)
    case SupersedeBy(documentId, keep) => Supersede(ix, documentId, keep)
  }

  function ChangedAll(ix: Index, t: Texts, cs: seq<Change>): Index {
    if cs == [] then ix else Changed(ChangedAll(ix, t, cs[..|cs| - 1]), t, cs[|cs| - 1])
  }

  lemma {:induction false} IngestingKeepsBarred(ix: Index, t: Texts, ps: seq<Passage>, sum: string)
    requires Barred(ix, sum)
    ensures Barred(AddAll(ix, t, ps), sum)
  {
    if ps != [] {
      IngestingKeepsBarred(ix, t, ps[..|ps| - 1], sum);
    }
  }

  lemma {:induction false} ChangesKeepBarred(ix: Index, t: Texts, cs: seq<Change>, sum: string)
    requires Barred(ix, sum)
    ensures Barred(ChangedAll(ix, t, cs), sum)
  {
    hide Barred, AddAll, Supersede;
    if cs != [] {
      var n := |cs| - 1;
      var before := ChangedAll(ix, t, cs[..n]);
      ChangesKeepBarred(ix, t, cs[..n], sum);
      match cs[n]
      case IngestAll(ps) => IngestingKeepsBarred(before, t, ps, sum);
      case SupersedeBy(documentId, keep) => SupersedingKeepsBarred(before, documentId, keep, sum);
    }
  }

  lemma SupersedingKeepsBarred(ix: Index, documentId: string, keep: nat, sum: string)
    requires Barred(ix, sum)
    ensures Barred(Supersede(ix, documentId, keep), sum)
  {
  }

  /** Adding a passage bars a text exactly if it replaces, under its own id, the live passage with that text by another
    * text. */
  lemma BarredExactly(ix: Index, t: Texts, p: Passage, sum: string)
    requires Consistent(ix, t)
    ensures Barred(AddPrepared(ix, t, p), sum) <==>
      p.checksum !in ix.byChecksum && p.id in ix.chunks && ix.chunks[p.id].checksum == sum
  {
    var next := AddPrepared(ix, t, p);
    if sum in ix.byChecksum {
      assert SumOk(ix, sum);
      if p.checksum !in ix.byChecksum && p.id in ix.chunks && ix.chunks[p.id].checksum == sum {
        forall id | id in next.chunks ensures next.chunks[id].checksum != sum {
          assert LiveOk(ix, t, p.id) && (id != p.id ==> LiveOk(ix, t, id));
        }
      } else {
        var holder := ix.byChecksum[sum];
        assert next.chunks[holder].checksum == sum;
      }
    } else {
      assert p.checksum == sum ==> next.chunks[p.id].checksum == sum;
      assert p.id in ix.chunks ==> LiveOk(ix, t, p.id);
    }
  }

  /** The replaced text is barred for good: whatever is ingested and superseded afterwards, no live passage ever has it
    * again, and adding it changes nothing. */
  lemma ForgottenTextStaysBarred(ix: Index, t: Texts, p: Passage, cs: seq<Change>, again: Passage)
    requires Consistent(ix, t) && p.id in ix.chunks && p.checksum !in ix.byChecksum
    requires again.checksum == ix.chunks[p.id].checksum
    ensures var later := ChangedAll(AddPrepared(ix, t, p), t, cs);
            AddPrepared(later, t, again) == later && forall id :: id in later.chunks ==> later.chunks[id].checksum != again.checksum
  {
    hide Consistent, ChangedAll;
    BarredExactly(ix, t, p, again.checksum);
    ChangesKeepBarred(AddPrepared(ix, t, p), t, cs, again.checksum);
  }

  lemma RemovalIsConsistent(ix: Index, t: Texts, ids: set<string>)
    requires Consistent(ix, t)
    ensures Consistent(Without(ix, ids), t)
  {
    var next := Without(ix, ids);
    forall id | id in next.chunks ensures LiveOk(next, t, id) {
      assert LiveOk(ix, t, id);
      forall other | other in ids && other in ix.chunks ensures ix.chunks[other].checksum != ix.chunks[id].checksum {
        assert LiveOk(ix, t, other);
      }
    }
    forall sum | sum in next.byChecksum ensures SumOk(next, sum) {
      assert SumOk(ix, sum);
    }
  }

  // -------------------------------------------------------------- what is live

  /** A live passage was found free of personal data, or what it holds is the redaction of a text that was not, under the
    * checksum of what it holds. */
  ghost predicate CleanOrRedacted(t: Texts, p: Passage) {
    !t.hasPii(p.content) || exists text :: t.hasPii(text) && p.content == t.redact(text) && p.checksum == t.hash(p.content)
  }

  ghost predicate AllCleanOrRedacted(ix: Index, t: Texts) {
    forall id :: id in ix.chunks ==> CleanOrRedacted(t, ix.chunks[id])
  }

  lemma PreparedIsClean(t: Texts, p: Passage)
    ensures CleanOrRedacted(t, Prepared(t, p))
  {
  }

  lemma {:induction false} IngestingKeepsClean(ix: Index, t: Texts, ps: seq<Passage>)
    requires AllCleanOrRedacted(ix, t)
    ensures AllCleanOrRedacted(AddAll(ix, t, ps), t)
  {
    hide CleanOrRedacted, Prepared;
    if ps != [] {
      IngestingKeepsClean(ix, t, ps[..|ps| - 1]);
      PreparedIsClean(t, ps[|ps| - 1]);
    }
  }

  /** Nothing is indexed as it came if it holds personal data: after any ingestions and supersessions every live passage is
    * clean or redacted; so if redaction leaves nothing to find, there is nothing to find. */
  lemma {:induction false} NoPersonalDataIsIndexed(t: Texts, cs: seq<Change>)
    ensures AllCleanOrRedacted(ChangedAll(EMPTY, t, cs), t)
    ensures (forall text :: !t.hasPii(t.redact(text))) ==>
      forall id :: id in ChangedAll(EMPTY, t, cs).chunks ==> !t.hasPii(ChangedAll(EMPTY, t, cs).chunks[id].content)
  {
    if cs != [] {
      var n := |cs| - 1;
      var before := ChangedAll(EMPTY, t, cs[..n]);
      NoPersonalDataIsIndexed(t, cs[..n]);
      match cs[n]
      case IngestAll(ps) => IngestingKeepsClean(before, t, ps);
      case SupersedeBy(documentId, keep) =>
    }
  }

  /** A passage is live as it was prepared, unless it was a duplicate. */
  ghost predicate Fate(next: Index, p: Passage, duplicate: bool) {
    if duplicate then p.id !in next.chunks else p.id in next.chunks && next.chunks[p.id] == p
  }

  ghost predicate FateOf(ix: Index, t: Texts, ps: seq<Passage>, i: nat, next: Index)
    requires i < |ps|
  {
    Fate(next, Prepared(t, ps[i]), Prepared(t, ps[i]).checksum in AddAll(ix, t, ps[..i]).byChecksum)
  }

  lemma FateStays(before: Index, t: Texts, q: Passage, p: Passage, duplicate: bool)
    requires Fate(before, p, duplicate) && q.id != p.id
    ensures Fate(AddPrepared(before, t, q), p, duplicate)
  {
  }

  /** Ingesting under new ids, each passage is live afterwards exactly as prepared, or a duplicate of one that was there
    * before it; what was live stays as it was, and the report counts what was added. */
  lemma {:induction false} IngestedOrDuplicate(ix: Index, t: Texts, ps: seq<Passage>)
    requires FreshIds(ix, ps)
    ensures var next := AddAll(ix, t, ps);
            && (forall id :: id in ix.chunks ==> id in next.chunks && next.chunks[id] == ix.chunks[id])
            && (forall i :: 0 <= i < |ps| ==> FateOf(ix, t, ps, i, next))
            && |next.chunks| == |ix.chunks| + Accepted(ix, t, ps)
  {
    hide Prepared, FateOf, AddPrepared, FreshIds;
    if ps != [] {
      var n := |ps| - 1;
      LastIsFresh(ix, t, ps);
      IngestedOrDuplicate(ix, t, ps[..n]);
      LatestFate(ix, t, ps);
      forall i | 0 <= i < n ensures FateOf(ix, t, ps, i, AddAll(ix, t, ps)) {
        EarlierFate(ix, t, ps, n, i);
      }
    }
  }

  lemma LastIsFresh(ix: Index, t: Texts, ps: seq<Passage>)
    requires ps != [] && FreshIds(ix, ps)
    ensures FreshIds(ix, ps[..|ps| - 1]) && ps[|ps| - 1].id !in AddAll(ix, t, ps[..|ps| - 1]).chunks
  {
    hide Prepared, AddPrepared;
    if ps[|ps| - 1].id in AddAll(ix, t, ps[..|ps| - 1]).chunks {
      IdsAfter(ix, t, ps[..|ps| - 1], ps[|ps| - 1].id);
      assert false;
    }
  }

  lemma EarlierFate(ix: Index, t: Texts, ps: seq<Passage>, n: nat, i: nat)
    requires i < n < |ps| && FreshIds(ix, ps) && FateOf(ix, t, ps[..n], i, AddAll(ix, t, ps[..n]))
    ensures FateOf(ix, t, ps, i, AddPrepared(AddAll(ix, t, ps[..n]), t, Prepared(t, ps[n])))
  {
    hide Prepared, AddPrepared, Fate;
    assert ps[..n][i] == ps[i] && ps[..n][..i] == ps[..i];
    PreparedKeepsId(t, ps[i]);
    PreparedKeepsId(t, ps[n]);
    FateStays(AddAll(ix, t, ps[..n]), t, Prepared(t, ps[n]), Prepared(t, ps[i]),
              Prepared(t, ps[i]).checksum in AddAll(ix, t, ps[..i]).byChecksum);
  }

  lemma LatestFate(ix: Index, t: Texts, ps: seq<Passage>)
    requires ps != [] && ps[|ps| - 1].id !in AddAll(ix, t, ps[..|ps| - 1]).chunks
    ensures var n := |ps| - 1;
            var before, q := AddAll(ix, t, ps[..n]), Prepared(t, ps[n]);
            var next := AddPrepared(before, t, q);
            && next == AddAll(ix, t, ps) && FateOf(ix, t, ps, n, next)
            && (forall id :: id in before.chunks ==> id in next.chunks && next.chunks[id] == before.chunks[id])
            && |next.chunks| == |before.chunks| + (if q.checksum in before.byChecksum then 0 else 1)
  {
    hide Prepared;
    PreparedKeepsId(t, ps[|ps| - 1]);
  }

  lemma PreparedKeepsId(t: Texts, p: Passage)
    ensures Prepared(t, p).id == p.id
  {
  }

  // -------------------------------------------------------------- term counts

  /** The live passages that contain a term. */
  function Containing(chunks: map<string, Passage>, t: Texts, term: string): set<string> {
    set id | id in chunks && term in t.terms(chunks[id].content)
  }

  ghost predicate Exact(ix: Index, t: Texts) {
    forall term: string :: ix.docFreq[term] == |Containing(ix.chunks, t, term)|
  }

  ghost predicate UpperBound(ix: Index, t: Texts) {
    forall term: string :: ix.docFreq[term] >= |Containing(ix.chunks, t, term)|
  }

  lemma CountAfterAdd(ix: Index, t: Texts, p: Passage, term: string)
    requires p.checksum !in ix.byChecksum
    ensures var next := AddPrepared(ix, t, p);
            && next.docFreq[term] == ix.docFreq[term] + (if term in t.terms(p.content) then 1 else 0)
            && |Containing(next.chunks, t, term)| <= |Containing(ix.chunks, t, term)| + (if term in t.terms(p.content) then 1 else 0)
            && (p.id !in ix.chunks ==>
                |Containing(next.chunks, t, term)| == |Containing(ix.chunks, t, term)| + (if term in t.terms(p.content) then 1 else 0))
  {
    hide Containing;
    var was := Containing(ix.chunks, t, term);
    ContainingAfterPut(ix.chunks, t, p, term);
    PutCount(was, p.id, term in t.terms(p.content));
  }

  lemma ContainingAfterPut(chunks: map<string, Passage>, t: Texts, p: Passage, term: string)
    ensures Containing(chunks[p.id := p], t, term)
         == (Containing(chunks, t, term) - {p.id}) + (if term in t.terms(p.content) then {p.id} else {})
    ensures Containing(chunks, t, term) <= chunks.Keys
  {
  }

  lemma PutCount(was: set<string>, id: string, put: bool)
    ensures |(was - {id}) + (if put then {id} else {})| <= |was| + (if put then 1 else 0)
    ensures id !in was ==> |(was - {id}) + (if put then {id} else {})| == |was| + (if put then 1 else 0)
  {
    var others := was - {id};
    assert id !in was ==> others == was;
    assert put || others + {} == others;
  }

  /** On ingestion under new ids the count of a term is exactly the number of live passages with it; on any ingestion it
    * is at least that. */
  lemma AddKeepsCounts(ix: Index, t: Texts, p: Passage)
    ensures UpperBound(ix, t) ==> UpperBound(AddPrepared(ix, t, p), t)
    ensures Exact(ix, t) && p.id !in ix.chunks ==> Exact(AddPrepared(ix, t, p), t)
  {
    hide Containing;
    if p.checksum !in ix.byChecksum {
      forall term: string
        ensures UpperBound(ix, t) ==> AddPrepared(ix, t, p).docFreq[term] >= |Containing(AddPrepared(ix, t, p).chunks, t, term)|
        ensures Exact(ix, t) && p.id !in ix.chunks ==>
          AddPrepared(ix, t, p).docFreq[term] == |Containing(AddPrepared(ix, t, p).chunks, t, term)|
      {
        CountAfterAdd(ix, t, p, term);
      }
    }
  }

  /** After superseding, a term's count is still right exactly if no removed passage had the term; otherwise it is too
    * high. */
  lemma SupersedeOvercountsExactly(ix: Index, t: Texts, documentId: string, keep: nat, term: string)
    requires Exact(ix, t)
    ensures var next := Supersede(ix, documentId, keep);
            && next.docFreq[term] >= |Containing(next.chunks, t, term)|
            && (next.docFreq[term] == |Containing(next.chunks, t, term)|
                <==> DoomedIds(ix.chunks, documentId, keep) !! Containing(ix.chunks, t, term))
  {
    hide Doomed;
    var next := Supersede(ix, documentId, keep);
    var doomed := DoomedIds(ix.chunks, documentId, keep);
    var all := Containing(ix.chunks, t, term);
    assert Containing(next.chunks, t, term) == all - doomed;
    SplitCount(all, doomed);
    assert ix.docFreq[term] == |all|;
  }

  lemma SplitCount(all: set<string>, gone: set<string>)
    ensures |all| >= |all - gone|
    ensures |all| == |all - gone| <==> gone !! all
  {
    var both := all * gone;
    assert all == (all - gone) + both;
    assert |all| == |all - gone| + |both|;
    assert gone !! all <==> both == {};
  }

  /** Ids that no earlier passage of the list, and no live one, uses. */
  ghost predicate FreshIds(ix: Index, ps: seq<Passage>) {
    && (forall i :: 0 <= i < |ps| ==> ps[i].id !in ix.chunks)
    && (forall i, j :: 0 <= i < j < |ps| ==> ps[i].id != ps[j].id)
  }

  lemma {:induction false} IdsAfter(ix: Index, t: Texts, ps: seq<Passage>, id: string)
    requires id in AddAll(ix, t, ps).chunks
    ensures id in ix.chunks || exists i :: 0 <= i < |ps| && ps[i].id == id
  {
    if ps != [] {
      var n := |ps| - 1;
      var before := AddAll(ix, t, ps[..n]);
      if id in before.chunks {
        IdsAfter(ix, t, ps[..n], id);
        if id !in ix.chunks {
          var i :| 0 <= i < n && ps[..n][i].id == id;
          assert ps[i].id == id;
        }
      } else {
        assert ps[n].id == id;
      }
    }
  }

  /** Ingesting documents under new ids keeps every map in step and every count exact. */
  lemma {:induction false} FreshIngestKeepsAll(ix: Index, t: Texts, ps: seq<Passage>)
    requires Consistent(ix, t) && Exact(ix, t) && FreshIds(ix, ps)
    ensures Consistent(AddAll(ix, t, ps), t) && Exact(AddAll(ix, t, ps), t)
  {
    hide Consistent, Exact, AddPrepared;
    if ps != [] {
      var n := |ps| - 1;
      var before := AddAll(ix, t, ps[..n]);
      FreshIngestKeepsAll(ix, t, ps[..n]);
      if ps[n].id in before.chunks {
        IdsAfter(ix, t, ps[..n], ps[n].id);
        assert false;
      }
      AddKeepsConsistencyExactly(before, t, Prepared(t, ps[n]));
      AddKeepsCounts(before, t, Prepared(t, ps[n]));
    }
  }

  // -------------------------------------------------------------- search

  /** Alphabetical order by character code. */
  predicate LexLess(a: string, b: string) {
    if b == "" then false
    else if a == "" then true
    else if a[0] != b[0] then a[0] < b[0]
    else LexLess(a[1..], b[1..])
  }

  lemma {:induction false} LexIsTotal(a: string, b: string)
    ensures a != b ==> (LexLess(a, b) <==> !LexLess(b, a))
    ensures !LexLess(a, a)
  {
    if a != "" {
      LexIsTotal(a[1..], if b == "" then "" else b[1..]);
      LexIsTotal(a[1..], a[1..]);
      if b != "" && a != b && a[0] == b[0] {
        assert a == [a[0]] + a[1..] && b == [b[0]] + b[1..];
      }
    }
  }

  lemma {:induction false} LexIsTransitive(a: string, b: string, c: string)
    requires LexLess(a, b) && LexLess(b, c)
    ensures LexLess(a, c)
  {
    if a != "" && b != "" && c != "" && a[0] == b[0] == c[0] {
      LexIsTransitive(a[1..], b[1..], c[1..]);
    }
  }

  datatype Scored = Scored(score: real, passage: Passage)

  /** Higher score first, then by id. */
  predicate Before(a: Scored, b: Scored) {
    a.score > b.score || (a.score == b.score && LexLess(a.passage.id, b.passage.id))
  }

  ghost predicate Ranked(s: seq<Scored>) {
    forall i, j :: 0 <= i < j < |s| ==> Before(s[i], s[j])
  }

  /** An order of the scored candidates by rank. */
  ghost predicate IsRanking(s: seq<Scored>, candidates: set<Scored>) {
    Ranked(s) && forall x :: x in s <==> x in candidates
  }

  lemma BeforeIsAnOrder(a: Scored, b: Scored, c: Scored)
    ensures !Before(a, a)
    ensures Before(a, b) ==> !Before(b, a)
    ensures Before(a, b) && Before(b, c) ==> Before(a, c)
    ensures a.passage.id != b.passage.id ==> Before(a, b) || Before(b, a)
  {
    LexIsTotal(a.passage.id, b.passage.id);
    LexIsTotal(a.passage.id, a.passage.id);
    if LexLess(a.passage.id, b.passage.id) && LexLess(b.passage.id, c.passage.id) {
      LexIsTransitive(a.passage.id, b.passage.id, c.passage.id);
    }
  }

  /** There is only one ranking, so a search does not depend on the order in which passages were added. */
  lemma {:induction false} RankingIsUnique(s: seq<Scored>, u: seq<Scored>, candidates: set<Scored>)
    requires IsRanking(s, candidates) && IsRanking(u, candidates)
    ensures s == u
    decreases |s|
  {
    hide Before;
    if s == [] {
      SomethingInside(u);
    } else {
      assert s[0] in u && s[0] in s;
      FirstIsFirst(s, u);
      var rest := candidates - {s[0]};
      TailRanks(s, candidates);
      TailRanks(u, candidates);
      RankingIsUnique(s[1..], u[1..], rest);
      assert s == [s[0]] + s[1..] && u == [u[0]] + u[1..];
    }
  }

  lemma SomethingInside(u: seq<Scored>)
    ensures u == [] || exists x :: x in u
  {
    if u != [] {
      assert u[0] in u;
    }
  }

  lemma FirstIsFirst(s: seq<Scored>, u: seq<Scored>)
    requires s != [] && u != [] && Ranked(s) && Ranked(u) && u[0] in s && s[0] in u
    ensures s[0] == u[0]
  {
    hide Before;
    var i :| 0 <= i < |s| && s[i] == u[0];
    var j :| 0 <= j < |u| && u[j] == s[0];
    BeforeIsAnOrder(s[0], u[0], s[0]);
  }

  lemma TailRanks(s: seq<Scored>, candidates: set<Scored>)
    requires s != [] && IsRanking(s, candidates)
    ensures IsRanking(s[1..], candidates - {s[0]})
  {
    hide Before;
    assert s == [s[0]] + s[1..];
    forall x | x in s[1..] ensures x != s[0] {
      var i :| 0 <= i < |s[1..]| && s[1..][i] == x;
      assert s[i + 1] == x;
      BeforeIsAnOrder(s[0], x, x);
    }
  }

  /** So a search has one answer. */
  lemma AnswerIsUnique(candidates: set<Scored>, topK: int, budget: int, a: seq<Passage>, b: seq<Passage>)
    requires BestOf(candidates, topK, budget, a) && BestOf(candidates, topK, budget, b)
    ensures a == b
  {
    hide IsRanking, Select;
    var s :| IsRanking(s, candidates) && a == Select(s, topK, budget, []);
    var u :| IsRanking(u, candidates) && b == Select(u, topK, budget, []);
    RankingIsUnique(s, u, candidates);
  }

  function Spent(ps: seq<Passage>): nat {
    if ps == [] then 0 else Spent(ps[..|ps| - 1]) + ps[|ps| - 1].tokens
  }

  /** Spend the budget on the best passages; one that does not fit is passed over, a score of zero ends it. */
  function Select(ranked: seq<Scored>, topK: int, budget: int, chosen: seq<Passage>): seq<Passage>
    decreases |ranked|
  {
    if ranked == [] || ranked[0].score <= 0.0 || |chosen| >= topK then chosen
    else if Spent(chosen) + ranked[0].passage.tokens > budget then Select(ranked[1..], topK, budget, chosen)
    else Select(ranked[1..], topK, budget, chosen + [ranked[0].passage])
  }

  predicate Allowed(p: Passage, kinds: set<string>, ceiling: Sensitivity) {
    LevelOf(p.sensitivity) <= LevelOf(ceiling) && (kinds == {} || p.kind in kinds)
  }

  function LevelOf(s: Sensitivity): nat {
    match s
    case Public => 0
    case Internal => 1
    case Restricted => 2
  }

  function Candidates(chunks: map<string, Passage>, kinds: set<string>, ceiling: Sensitivity, score: Passage -> real): set<Scored> {
    set id | id in chunks && Allowed(chunks[id], kinds, ceiling) :: Scored(score(chunks[id]), chunks[id])
  }

  /** `out` is selected from the ranking of the candidates. */
  ghost predicate BestOf(candidates: set<Scored>, topK: int, budget: int, out: seq<Passage>) {
    exists ranked :: IsRanking(ranked, candidates) && out == Select(ranked, topK, budget, [])
  }

  /** Insert into a ranking. */
  method InsertRanked(s: seq<Scored>, x: Scored) returns (r: seq<Scored>)
    requires Ranked(s) && (forall i :: 0 <= i < |s| ==> s[i].passage.id != x.passage.id)
    ensures Ranked(r) && forall y :: y in r <==> y == x || y in s
  {
    hide Before;
    var i := 0;
    while i < |s| && Before(s[i], x)
      invariant 0 <= i <= |s| && (forall j :: 0 <= j < i ==> Before(s[j], x))
    {
      i := i + 1;
    }
    r := s[..i] + [x] + s[i..];
    if i < |s| {
      BeforeIsAnOrder(s[i], x, x);
      forall j | i < j < |s| ensures Before(x, s[j]) {
        BeforeIsAnOrder(x, s[i], s[j]);
      }
    }
    assert s == s[..i] + s[i..];
  }

  /** Every passage sits under its own id. */
  ghost predicate OwnIds(ix: Index) {
    forall id :: id in ix.chunks ==> ix.chunks[id].id == id
  }

  /** Which no operation ever breaks, duplicates and replaced versions included. */
  lemma OwnIdsStay(ix: Index, t: Texts, p: Passage, ids: set<string>)
    requires OwnIds(ix)
    ensures OwnIds(AddPrepared(ix, t, p)) && OwnIds(Without(ix, ids)) && OwnIds(EMPTY)
  {
  }

  /** What a caller may see, by name. */
  predicate Visible(p: Passage, kinds: set<string>, ceiling: Sensitivity) {
    && (kinds == {} || p.kind in kinds)
    && match ceiling
       case Public => p.sensitivity == Public
       case Internal => p.sensitivity != Restricted
       case Restricted => true
  }

  predicate Outranks(score: Passage -> real, a: Passage, b: Passage) {
    score(a) > score(b) || (score(a) == score(b) && LexLess(a.id, b.id))
  }

  /** What a search returns: live passages that the caller may see and that score, best first and no more than the limits
    * allow; and a live one that the caller may see and that scores is missing only if all places are taken or it no
    * longer fits. */
  ghost predicate Found(chunks: map<string, Passage>, kinds: set<string>, ceiling: Sensitivity, topK: int, budget: int,
                        score: Passage -> real, out: seq<Passage>) {
    && (forall p :: p in out ==> p.id in chunks && chunks[p.id] == p && score(p) > 0.0 && Visible(p, kinds, ceiling))
    && (forall i, j :: 0 <= i < j < |out| ==> Outranks(score, out[i], out[j]))
    && (out != [] ==> |out| <= topK && Spent(out) <= budget)
    && (forall id :: id in chunks && score(chunks[id]) > 0.0 && Visible(chunks[id], kinds, ceiling) && chunks[id] !in out ==>
          |out| >= topK || Spent(out) + chunks[id].tokens > budget)
  }

  lemma AllowedIsVisible(p: Passage, kinds: set<string>, ceiling: Sensitivity)
    ensures Allowed(p, kinds, ceiling) <==> Visible(p, kinds, ceiling)
  {
  }

  lemma {:induction false} NothingFits(ranked: seq<Scored>, topK: int, budget: int)
    requires budget < 0
    ensures Select(ranked, topK, budget, []) == []
    decreases |ranked|
  {
    if ranked != [] && ranked[0].score > 0.0 && 0 < topK {
      SelectStep(ranked, topK, budget, []);
      NothingFits(ranked[1..], topK, budget);
    }
  }

  ghost predicate OrderedBy(score: Passage -> real, ps: seq<Passage>) {
    forall i, j :: 0 <= i < j < |ps| ==> Outranks(score, ps[i], ps[j])
  }

  ghost predicate AllOutrank(score: Passage -> real, ps: seq<Passage>, ranked: seq<Scored>) {
    forall p, x :: p in ps && x in ranked ==> Outranks(score, p, x.passage)
  }

  ghost predicate ScoredBy(score: Passage -> real, ranked: seq<Scored>) {
    forall x :: x in ranked ==> x.score == score(x.passage)
  }

  lemma {:induction false} SelectionIsOrdered(ranked: seq<Scored>, topK: int, budget: int, chosen: seq<Passage>, score: Passage -> real)
    requires Ranked(ranked) && ScoredBy(score, ranked) && OrderedBy(score, chosen) && AllOutrank(score, chosen, ranked)
    ensures OrderedBy(score, Select(ranked, topK, budget, chosen))
    decreases |ranked|
  {
    hide LexLess, Spent;
    if ranked == [] || ranked[0].score <= 0.0 || |chosen| >= topK {
      SelectStop(ranked, topK, budget, chosen);
    } else {
      var x, rest := ranked[0], ranked[1..];
      var next := if Spent(chosen) + x.passage.tokens > budget then chosen else chosen + [x.passage];
      SelectStep(ranked, topK, budget, chosen);
      assert x in ranked && (forall y :: y in rest ==> y in ranked);
      forall y | y in rest ensures Outranks(score, x.passage, y.passage) {
        var i :| 0 <= i < |rest| && rest[i] == y;
        assert ranked[i + 1] == y && Before(ranked[0], ranked[i + 1]);
      }
      assert forall i :: 0 <= i < |chosen| ==> chosen[i] in chosen && Outranks(score, chosen[i], x.passage);
      SelectionIsOrdered(rest, topK, budget, next, score);
    }
  }

  /** The best of the candidates is what a search returns, whatever the limits. */
  lemma BestIsFound(ix: Index, kinds: set<string>, ceiling: Sensitivity, topK: int, budget: int, score: Passage -> real, out: seq<Passage>)
    requires OwnIds(ix) && BestOf(Candidates(ix.chunks, kinds, ceiling, score), topK, budget, out)
    ensures Found(ix.chunks, kinds, ceiling, topK, budget, score, out)
  {
    hide Select, Allowed, Visible, Outranks, Ranked, Spent;
    var cs := Candidates(ix.chunks, kinds, ceiling, score);
    var ranked :| IsRanking(ranked, cs) && out == Select(ranked, topK, budget, []);
    forall id | id in ix.chunks ensures Scored(score(ix.chunks[id]), ix.chunks[id]) in ranked <==> Visible(ix.chunks[id], kinds, ceiling) {
      AllowedIsVisible(ix.chunks[id], kinds, ceiling);
      CandidateExactly(ix, kinds, ceiling, score, id);
    }
    forall x: Scored | x in ranked
      ensures x.passage.id in ix.chunks && ix.chunks[x.passage.id] == x.passage && x.score == score(x.passage)
    {
      assert x in cs;
    }
    SelectionIsOrdered(ranked, topK, budget, [], score);
    OrderMeans(score, out);
    if topK < 0 || budget < 0 {
      NothingSelected(ranked, topK, budget);
    } else {
      assert Spent([]) == 0 by {
        SpentNothing();
      }
      SelectionIsSoundAndGreedy(ranked, topK, budget, []);
      assert out[0..] == out;
    }
  }

  lemma OrderMeans(score: Passage -> real, out: seq<Passage>)
    requires OrderedBy(score, out)
    ensures forall i, j :: 0 <= i < j < |out| ==> Outranks(score, out[i], out[j])
  {
  }

  lemma SpentNothing()
    ensures Spent([]) == 0
  {
  }

  lemma NothingSelected(ranked: seq<Scored>, topK: int, budget: int)
    requires topK < 0 || budget < 0
    ensures Select(ranked, topK, budget, []) == []
    ensures topK < 0 ==> 0 >= topK
    ensures budget < 0 ==> forall p: Passage :: Spent([]) + p.tokens > budget
  {
    if topK < 0 {
      SelectStop(ranked, topK, budget, []);
    } else {
      NothingFits(ranked, topK, budget);
    }
  }

  lemma CandidateExactly(ix: Index, kinds: set<string>, ceiling: Sensitivity, score: Passage -> real, id: string)
    requires OwnIds(ix) && id in ix.chunks
    ensures Scored(score(ix.chunks[id]), ix.chunks[id]) in Candidates(ix.chunks, kinds, ceiling, score)
       <==> Allowed(ix.chunks[id], kinds, ceiling)
  {
    hide Allowed;
    var x := Scored(score(ix.chunks[id]), ix.chunks[id]);
    if x in Candidates(ix.chunks, kinds, ceiling, score) {
      var other :| other in ix.chunks && Allowed(ix.chunks[other], kinds, ceiling) && x == Scored(score(ix.chunks[other]), ix.chunks[other]);
      assert other == id;
    }
  }

  /** Filters first, then relevance, then the budget. */
  method Search(ix: Index, query: seq<string>, kinds: set<string>, ceiling: Sensitivity, topK: int, budget: int,
                score: Passage -> real) returns (out: seq<Passage>)
    requires OwnIds(ix)
    ensures if query == [] then out == [] else BestOf(Candidates(ix.chunks, kinds, ceiling, score), topK, budget, out)
    ensures query != [] ==> Found(ix.chunks, kinds, ceiling, topK, budget, score, out)
  {
    hide Before, Select, Allowed, Found;
    var order: seq<Scored> := [];
    var left := ix.chunks.Keys;
    while left != {}
      invariant left <= ix.chunks.Keys && Ranked(order)
      invariant forall x :: x in order <==>
        x.passage.id in ix.chunks.Keys - left && x.passage == ix.chunks[x.passage.id] && x.score == score(x.passage)
        && Allowed(x.passage, kinds, ceiling)
    {
      var id :| id in left;
      var p := ix.chunks[id];
      if Allowed(p, kinds, ceiling) {
        order := InsertRanked(order, Scored(score(p), p));
      }
      left := left - {id};
    }
    RankingComplete(ix, kinds, ceiling, score, order);
    if query == [] {
      return [];
    }
    out := [];
    var spent := 0;
    var i := 0;
    while i < |order| && order[i].score > 0.0 && |out| < topK
      invariant 0 <= i <= |order| && spent == Spent(out)
      invariant Select(order[i..], topK, budget, out) == Select(order, topK, budget, [])
    {
      SelectStep(order[i..], topK, budget, out);
      assert order[i..][1..] == order[i + 1..];
      if spent + order[i].passage.tokens <= budget {
        assert (out + [order[i].passage])[..|out|] == out;
        out := out + [order[i].passage];
        spent := spent + order[i].passage.tokens;
      }
      i := i + 1;
    }
    SelectStop(order[i..], topK, budget, out);
    BestIsFound(ix, kinds, ceiling, topK, budget, score, out);
  }

  lemma RankingComplete(ix: Index, kinds: set<string>, ceiling: Sensitivity, score: Passage -> real, order: seq<Scored>)
    requires OwnIds(ix) && Ranked(order)
    requires forall x :: x in order <==>
      x.passage.id in ix.chunks && x.passage == ix.chunks[x.passage.id] && x.score == score(x.passage) && Allowed(x.passage, kinds, ceiling)
    ensures IsRanking(order, Candidates(ix.chunks, kinds, ceiling, score))
  {
    hide Before, Allowed;
    var cs := Candidates(ix.chunks, kinds, ceiling, score);
    forall x ensures x in order <==> x in cs {
      if x in cs {
        var id :| id in ix.chunks && Allowed(ix.chunks[id], kinds, ceiling) && x == Scored(score(ix.chunks[id]), ix.chunks[id]);
        assert ix.chunks[id].id == id;
      }
    }
  }

  lemma SelectStep(ranked: seq<Scored>, topK: int, budget: int, chosen: seq<Passage>)
    requires ranked != [] && ranked[0].score > 0.0 && |chosen| < topK
    ensures Select(ranked, topK, budget, chosen)
         == Select(ranked[1..], topK, budget,
                   if Spent(chosen) + ranked[0].passage.tokens > budget then chosen else chosen + [ranked[0].passage])
  {
  }

  lemma SelectStop(ranked: seq<Scored>, topK: int, budget: int, chosen: seq<Passage>)
    requires ranked == [] || ranked[0].score <= 0.0 || |chosen| >= topK
    ensures Select(ranked, topK, budget, chosen) == chosen
  {
  }

  lemma SpentSnoc(ps: seq<Passage>, p: Passage)
    ensures Spent(ps + [p]) == Spent(ps) + p.tokens
  {
    assert (ps + [p])[..|ps|] == ps;
  }

  /** A selection stays within both limits, takes only passages that score, and leaves out a scoring candidate only if
    * all places are taken or it no longer fits. */
  lemma {:induction false} SelectionIsSoundAndGreedy(ranked: seq<Scored>, topK: int, budget: int, chosen: seq<Passage>)
    requires Ranked(ranked) && |chosen| <= topK && Spent(chosen) <= budget
    ensures var out := Select(ranked, topK, budget, chosen);
            && |out| <= topK && Spent(chosen) <= Spent(out) <= budget && chosen <= out
            && (forall p :: p in out[|chosen|..] ==> exists x :: x in ranked && x.passage == p && x.score > 0.0)
            && (forall x :: x in ranked && x.score > 0.0 && x.passage !in out ==>
                  |out| >= topK || Spent(out) + x.passage.tokens > budget)
    decreases |ranked|
  {
    hide Spent, Before;
    if ranked == [] || ranked[0].score <= 0.0 || |chosen| >= topK {
      SelectStop(ranked, topK, budget, chosen);
      NoneScores(ranked);
    } else {
      var x := ranked[0];
      var next := if Spent(chosen) + x.passage.tokens > budget then chosen else chosen + [x.passage];
      SelectStep(ranked, topK, budget, chosen);
      SpentSnoc(chosen, x.passage);
      SelectionIsSoundAndGreedy(ranked[1..], topK, budget, next);
      assert ranked == [x] + ranked[1..];
      var out := Select(ranked, topK, budget, chosen);
      GrownFromNext(chosen, x.passage, next, out);
      assert x in ranked;
      forall y | y in ranked && y.score > 0.0 && y.passage !in out
        ensures |out| >= topK || Spent(out) + y.passage.tokens > budget
      {
        assert y == x || y in ranked[1..];
      }
    }
  }

  /** What was added since `chosen` is the passage just taken, if it was, and what was added since. */
  lemma GrownFromNext(chosen: seq<Passage>, p: Passage, next: seq<Passage>, out: seq<Passage>)
    requires (next == chosen || next == chosen + [p]) && next <= out
    ensures chosen <= out && (next == chosen + [p] ==> p in out)
    ensures forall q :: q in out[|chosen|..] ==> q == p || q in out[|next|..]
  {
    if next != chosen {
      assert out[|chosen|] == next[|chosen|] == p;
      assert out[|chosen|..] == [p] + out[|next|..];
    }
  }

  lemma NoneScores(ranked: seq<Scored>)
    requires Ranked(ranked)
    ensures ranked != [] && ranked[0].score <= 0.0 ==> forall x :: x in ranked ==> x.score <= 0.0
  {
    if ranked != [] && ranked[0].score <= 0.0 {
      forall x | x in ranked ensures x.score <= 0.0 {
        var i :| 0 <= i < |ranked| && ranked[i] == x;
        assert i > 0 ==> Before(ranked[0], ranked[i]);
      }
    }
  }
}

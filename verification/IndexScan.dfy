/**
 The index scan: what one exhaustive search of the index lets through, with a floor taken on
 trust or one calibrated on a labelled sample, and the evidence each survivor carries on.
 */
module IndexScan {
  import opened Wrappers
  import opened Calibrate
  import opened LabelledRecall

  datatype ChunkHit = ChunkHit(doc: Hash, score: real, text: string)

  ghost predicate BestFirst(hits: seq<ChunkHit>) {
    forall i, j :: 0 <= i < j < |hits| ==> hits[i].score >= hits[j].score
  }

  ghost predicate Hit(hits: seq<ChunkHit>, doc: Hash) {
    exists i :: 0 <= i < |hits| && hits[i].doc == doc
  }

  /** One search: the chunks reaching the floor, in the index's order. */
  function HitsAt(all: seq<ChunkHit>, floor: Floor): seq<ChunkHit> {
    if all == [] then []
    else
      var last := all[|all| - 1];
      HitsAt(all[..|all| - 1], floor) + if Keeps(floor, last.score) then [last] else []
  }

  lemma HitsGrow(all: seq<ChunkHit>, last: ChunkHit, floor: Floor)
    ensures HitsAt(all + [last], floor) == HitsAt(all, floor) + if Keeps(floor, last.score) then [last] else []
  {
    assert (all + [last])[..|all|] == all;
  }

  lemma {:induction false} EveryHit(all: seq<ChunkHit>, floor: Floor)
    requires forall i :: 0 <= i < |all| ==> Keeps(floor, all[i].score)
    ensures HitsAt(all, floor) == all
  {
    if all == [] {
      assert HitsAt(all, floor) == [];
    } else {
      hide HitsAt, Keeps;
      var n := |all| - 1;
      assert all == all[..n] + [all[n]];
      EveryHit(all[..n], floor);
      HitsGrow(all[..n], all[n], floor);
    }
  }

  /** Best first, the hits at a floor are a prefix of the hits without one. */
  lemma {:induction false} HitsArePrefix(all: seq<ChunkHit>, floor: Floor)
    requires BestFirst(all)
    ensures
      var n := |HitsAt(all, floor)|;
      && n <= |all| && HitsAt(all, floor) == all[..n]
      && (forall i :: 0 <= i < n ==> Keeps(floor, all[i].score))
      && (forall i :: n <= i < |all| ==> !Keeps(floor, all[i].score))
  {
    if all != [] {
      var last := |all| - 1;
      if Keeps(floor, all[last].score) {
        EveryHit(all, floor);
      } else {
        HitsArePrefix(all[..last], floor);
        assert forall i :: 0 <= i < last ==> all[..last][i] == all[i];
      }
    }
  }

  // ---- per-document evidence and scores ----

  function TextsOf(hits: seq<ChunkHit>, doc: Hash): seq<string> {
    if hits == [] then []
    else
      var last := hits[|hits| - 1];
      TextsOf(hits[..|hits| - 1], doc) + if last.doc == doc then [last.text] else []
  }

  function First(texts: seq<string>, n: nat): seq<string> {
    if |texts| <= n then texts else texts[..n]
  }

  ghost predicate BestChunksAt(hits: seq<ChunkHit>, doc: Hash, n: nat, texts: seq<string>, at: seq<nat>) {
    && |at| == |texts| <= n
    && (forall i, j :: 0 <= i < j < |at| ==> at[i] < at[j])
    && (forall i :: 0 <= i < |at| ==> at[i] < |hits| && hits[at[i]].doc == doc && hits[at[i]].text == texts[i])
    && (forall k :: 0 <= k < |hits| && hits[k].doc == doc && k !in at ==> |at| == n && forall i :: 0 <= i < n ==> at[i] < k)
  }

  /** The texts of a document's first hits, `n` of them or all there are; best first, since hits are. */
  ghost predicate BestChunks(hits: seq<ChunkHit>, doc: Hash, n: nat, texts: seq<string>) {
    exists at :: BestChunksAt(hits, doc, n, texts, at)
  }

  lemma OneMoreChunk(hits: seq<ChunkHit>, hit: ChunkHit, n: nat, texts: seq<string>, at: seq<nat>)
    requires BestChunksAt(hits, hit.doc, n, texts, at) && |texts| < n
    ensures BestChunksAt(hits + [hit], hit.doc, n, texts + [hit.text], at + [|hits|])
  {
    var longer, spots := hits + [hit], at + [|hits|];
    assert forall i :: 0 <= i < |at| ==> spots[i] == at[i] && longer[at[i]] == hits[at[i]];
    forall k | 0 <= k < |longer| && longer[k].doc == hit.doc ensures k in spots {
      if k < |hits| {
        assert hits[k] == longer[k] && k in at;
      } else {
        assert spots[|at|] == k;
      }
    }
  }

  lemma NoMoreChunk(hits: seq<ChunkHit>, hit: ChunkHit, doc: Hash, n: nat, texts: seq<string>, at: seq<nat>)
    requires BestChunksAt(hits, doc, n, texts, at) && (hit.doc != doc || |texts| == n)
    ensures BestChunksAt(hits + [hit], doc, n, texts, at)
  {
    var longer := hits + [hit];
    assert forall k :: 0 <= k < |hits| ==> longer[k] == hits[k];
  }

  lemma FirstIsShort(texts: seq<string>, n: nat)
    ensures |First(texts, n)| <= n
  {
  }

  lemma {:induction false} FirstTextsAreBest(hits: seq<ChunkHit>, doc: Hash, n: nat)
    ensures BestChunks(hits, doc, n, First(TextsOf(hits, doc), n))
  {
    if hits == [] {
      assert BestChunksAt(hits, doc, n, [], []);
    } else {
      var last := |hits| - 1;
      var before, hit := hits[..last], hits[last];
      var earlier := First(TextsOf(before, doc), n);
      FirstTextsAreBest(before, doc, n);
      var at :| BestChunksAt(before, doc, n, earlier, at);
      assert hits == before + [hit];
      assert First(TextsOf(hits, doc), n) == if hit.doc == doc && |earlier| < n then earlier + [hit.text] else earlier;
      hide BestChunksAt, TextsOf, First;
      if hit.doc == doc && |earlier| < n {
        OneMoreChunk(before, hit, n, earlier, at);
      } else {
        FirstIsShort(TextsOf(before, doc), n);
        NoMoreChunk(before, hit, doc, n, earlier, at);
      }
    }
  }

  type Buckets = map<Hash, seq<string>>

  ghost predicate BucketOf(hits: seq<ChunkHit>, n: nat, chunks: Buckets, doc: Hash) {
    && (doc in chunks <==> Hit(hits, doc))
    && (doc in chunks ==> chunks[doc] == First(TextsOf(hits, doc), n))
  }

  /** Every document hit has its best chunks, at most `n` of them, best first. */
  ghost predicate IsBucketing(hits: seq<ChunkHit>, n: nat, chunks: Buckets) {
    forall doc {:trigger BucketOf(hits, n, chunks, doc)} :: BucketOf(hits, n, chunks, doc)
  }

  lemma OneMoreHit(hits: seq<ChunkHit>, hit: ChunkHit, doc: Hash)
    ensures Hit(hits + [hit], doc) <==> Hit(hits, doc) || doc == hit.doc
    ensures TextsOf(hits + [hit], doc) == TextsOf(hits, doc) + if hit.doc == doc then [hit.text] else []
  {
    assert (hits + [hit])[..|hits|] == hits;
    if Hit(hits, doc) {
      var i :| 0 <= i < |hits| && hits[i].doc == doc;
      assert (hits + [hit])[i].doc == doc;
    }
    if doc == hit.doc {
      assert (hits + [hit])[|hits|].doc == doc;
    }
  }

  lemma {:induction false} NoTexts(hits: seq<ChunkHit>, doc: Hash)
    requires !Hit(hits, doc)
    ensures TextsOf(hits, doc) == []
  {
    if hits != [] {
      assert hits == hits[..|hits| - 1] + [hits[|hits| - 1]];
      OneMoreHit(hits[..|hits| - 1], hits[|hits| - 1], doc);
      NoTexts(hits[..|hits| - 1], doc);
    }
  }

  lemma HitFills(hits: seq<ChunkHit>, hit: ChunkHit, n: nat, before: Buckets, after: Buckets, doc: Hash)
    requires IsBucketing(hits, n, before)
    requires var held := if hit.doc in before then before[hit.doc] else [];
             after == before[hit.doc := if |held| < n then held + [hit.text] else held]
    ensures BucketOf(hits + [hit], n, after, doc)
  {
    assert BucketOf(hits, n, before, doc);
    OneMoreHit(hits, hit, doc);
    if doc !in before {
      NoTexts(hits, doc);
    }
  }

  method BucketChunks(hits: seq<ChunkHit>, chunksPerDoc: nat) returns (chunks: Buckets)
    ensures IsBucketing(hits, chunksPerDoc, chunks)
  {
    chunks := map[];
    assert hits[..0] == [];
    for i := 0 to |hits|
      invariant IsBucketing(hits[..i], chunksPerDoc, chunks)
    {
      var hit := hits[i];
      ghost var before := chunks;
      if hit.doc !in chunks {
        chunks := chunks[hit.doc := []];
      }
      if |chunks[hit.doc]| < chunksPerDoc {
        chunks := chunks[hit.doc := chunks[hit.doc] + [hit.text]];
      }
      assert hits[..i + 1] == hits[..i] + [hit];
      ghost var seen := hits[..i + 1];
      forall doc ensures BucketOf(seen, chunksPerDoc, chunks, doc) {
        HitFills(hits[..i], hit, chunksPerDoc, before, chunks, doc);
      }
    }
    assert hits[..|hits|] == hits;
  }

  ghost predicate Attained(hits: seq<ChunkHit>, best: Scores, doc: Hash) {
    doc in best && exists i :: 0 <= i < |hits| && hits[i].doc == doc && hits[i].score == best[doc]
  }

  /** A document's score is its best chunk's. */
  ghost predicate IsBest(hits: seq<ChunkHit>, best: Scores) {
    && (forall doc :: doc in best <==> Hit(hits, doc))
    && (forall i :: 0 <= i < |hits| ==> hits[i].doc in best && hits[i].score <= best[hits[i].doc])
    && (forall doc {:trigger Attained(hits, best, doc)} :: doc in best ==> Attained(hits, best, doc))
  }

  method PerDocBest(hits: seq<ChunkHit>) returns (best: Scores)
    requires BestFirst(hits)
    ensures IsBest(hits, best)
  {
    best := map[];
    for i := 0 to |hits|
      invariant forall k :: 0 <= k < i ==> hits[k].doc in best && hits[k].score <= best[hits[k].doc]
      invariant forall doc :: doc in best ==> exists k :: 0 <= k < i && hits[k].doc == doc && hits[k].score == best[doc]
    {
      if hits[i].doc !in best {
        best := best[hits[i].doc := hits[i].score];
      }
    }
    forall doc | doc in best ensures Attained(hits, best, doc) {
    }
  }

  // ---- the two prefilters ----

  /** Surviving documents with their chunks, and every document the index holds. */
  datatype Prefilter = Prefilter(chunks: Buckets, indexed: set<Hash>)

  function Retain(chunks: Buckets, scores: Scores, floor: Floor): Buckets {
    map doc | doc in chunks && doc in scores && Keeps(floor, scores[doc]) :: chunks[doc]
  }

  ghost predicate IsPrefix(s: seq<string>, t: seq<string>) {
    |s| <= |t| && s == t[..|s|]
  }

  lemma {:induction false} TextsOfPrefix(hits: seq<ChunkHit>, n: nat, doc: Hash)
    requires n <= |hits|
    ensures IsPrefix(TextsOf(hits[..n], doc), TextsOf(hits, doc))
    decreases |hits| - n
  {
    if n == |hits| {
      assert hits[..n] == hits;
    } else {
      TextsOfPrefix(hits, n + 1, doc);
      assert hits[..n + 1][..n] == hits[..n];
    }
  }

  lemma FirstOfPrefix(s: seq<string>, t: seq<string>, n: nat)
    requires IsPrefix(s, t)
    ensures IsPrefix(First(s, n), First(t, n))
  {
  }

  /** A document is hit at a floor exactly when its best chunk reaches it. */
  lemma HitAtFloor(all: seq<ChunkHit>, floor: Floor, best: Scores, doc: Hash)
    requires BestFirst(all) && IsBest(all, best)
    ensures Hit(HitsAt(all, floor), doc) <==> doc in best && Keeps(floor, best[doc])
  {
    HitsArePrefix(all, floor);
    var hits := HitsAt(all, floor);
    if Hit(hits, doc) {
      var i :| 0 <= i < |hits| && hits[i].doc == doc;
      assert all[i] == hits[i];
    }
    if doc in best && Keeps(floor, best[doc]) {
      assert Attained(all, best, doc);
      var i :| 0 <= i < |all| && all[i].doc == doc && all[i].score == best[doc];
      assert all[i] == hits[i];
    }
  }

  lemma EvidenceIsPrefix(all: seq<ChunkHit>, floor: Floor, n: nat, trusted: Buckets, every: Buckets, doc: Hash)
    requires BestFirst(all) && doc in trusted && doc in every
    requires BucketOf(HitsAt(all, floor), n, trusted, doc) && BucketOf(all, n, every, doc)
    ensures IsPrefix(trusted[doc], every[doc])
  {
    HitsArePrefix(all, floor);
    TextsOfPrefix(all, |HitsAt(all, floor)|, doc);
    FirstOfPrefix(TextsOf(HitsAt(all, floor), doc), TextsOf(all, doc), n);
  }

  lemma SameSurvivor(all: seq<ChunkHit>, floor: Floor, n: nat, best: Scores, trusted: Buckets, every: Buckets, doc: Hash)
    requires BestFirst(all) && IsBest(all, best)
    requires BucketOf(HitsAt(all, floor), n, trusted, doc) && BucketOf(all, n, every, doc)
    ensures doc in Retain(every, best, floor) <==> doc in trusted
    ensures doc in trusted ==> doc in every && IsPrefix(trusted[doc], every[doc])
  {
    HitAtFloor(all, floor, best, doc);
    if doc in trusted {
      EvidenceIsPrefix(all, floor, n, trusted, every, doc);
    }
  }

  /** On cosine scores, calibrating to a floor and trusting that floor let the same documents
      through, and the evidence the trusting search finds is the start of what the calibrated
      one finds. */
  lemma CalibratedAgreesWithTrusted(
    all: seq<ChunkHit>, floor: Floor, n: nat, best: Scores, trusted: Buckets, every: Buckets)
    requires BestFirst(all) && IsBest(all, best)
    requires IsBucketing(HitsAt(all, floor), n, trusted) && IsBucketing(all, n, every)
    ensures Retain(every, best, floor).Keys == trusted.Keys
    ensures forall doc :: doc in trusted ==> doc in every && IsPrefix(trusted[doc], every[doc])
  {
    forall doc
      ensures doc in Retain(every, best, floor) <==> doc in trusted
      ensures doc in trusted ==> doc in every && IsPrefix(trusted[doc], every[doc])
    {
      assert BucketOf(HitsAt(all, floor), n, trusted, doc) && BucketOf(all, n, every, doc);
      SameSurvivor(all, floor, n, best, trusted, every, doc);
    }
  }

  // ---- filtering rows ----

  /** An input row; a NULL text is `None`. */
  datatype InputRow = InputRow(id: nat, text: Option<string>)

  function Filter(batch: seq<InputRow>, keep: seq<bool>): seq<InputRow>
    requires |keep| == |batch|
  {
    if batch == [] then []
    else
      var n := |batch| - 1;
      Filter(batch[..n], keep[..n]) + if keep[n] then [batch[n]] else []
  }

  predicate Passes(result: Prefilter, digest: string -> Hash, row: InputRow) {
    row.text.Some? && (digest(row.text.value) in result.chunks || digest(row.text.value) !in result.indexed)
  }

  /** The rows the scan lets through, in input order. */
  function Scanned(result: Prefilter, digest: string -> Hash, batch: seq<InputRow>): seq<InputRow> {
    if batch == [] then []
    else
      var n := |batch| - 1;
      Scanned(result, digest, batch[..n]) + if Passes(result, digest, batch[n]) then [batch[n]] else []
  }

  lemma {:induction false} FilterIsScanned(result: Prefilter, digest: string -> Hash, batch: seq<InputRow>, keep: seq<bool>)
    requires |keep| == |batch| && forall i :: 0 <= i < |batch| ==> keep[i] == Passes(result, digest, batch[i])
    ensures Filter(batch, keep) == Scanned(result, digest, batch)
  {
    if batch != [] {
      FilterIsScanned(result, digest, batch[..|batch| - 1], keep[..|batch| - 1]);
    }
  }

  /** Also counts index hits, pruned rows and rows passed through for want of an index entry. */
  datatype Fate = LetThrough | NeverIndexed | Pruned

  /** The index lets a text through, has never seen it, or prunes it; a NULL is pruned. */
  function FateOf(result: Prefilter, digest: string -> Hash, row: InputRow): Fate {
    if row.text.None? then Pruned
    else if digest(row.text.value) in result.chunks then LetThrough
    else if digest(row.text.value) in result.indexed then Pruned
    else NeverIndexed
  }

  /** Which of the first `n` rows fare so. */
  ghost function Faring(result: Prefilter, digest: string -> Hash, batch: seq<InputRow>, n: nat, fate: Fate): set<int>
    requires n <= |batch|
  {
    set i | 0 <= i < n && FateOf(result, digest, batch[i]) == fate
  }

  lemma OneMoreFares(result: Prefilter, digest: string -> Hash, batch: seq<InputRow>, n: nat, fate: Fate)
    requires n < |batch|
    ensures |Faring(result, digest, batch, n + 1, fate)|
         == |Faring(result, digest, batch, n, fate)| + if FateOf(result, digest, batch[n]) == fate then 1 else 0
  {
    hide FateOf;
    var before := Faring(result, digest, batch, n, fate);
    assert Faring(result, digest, batch, n + 1, fate) == if FateOf(result, digest, batch[n]) == fate then before + {n} else before;
  }

  ghost predicate Counted(result: Prefilter, digest: string -> Hash, batch: seq<InputRow>, n: nat, hits: nat, passed: nat, pruned: nat)
    requires n <= |batch|
  {
    && hits == |Faring(result, digest, batch, n, LetThrough)|
    && passed == |Faring(result, digest, batch, n, NeverIndexed)|
    && pruned == |Faring(result, digest, batch, n, Pruned)|
  }

  lemma NoneCounted(result: Prefilter, digest: string -> Hash, batch: seq<InputRow>)
    ensures Counted(result, digest, batch, 0, 0, 0, 0)
  {
    assert forall fate :: Faring(result, digest, batch, 0, fate) == {};
  }

  lemma OneMoreCounted(
    result: Prefilter, digest: string -> Hash, batch: seq<InputRow>, n: nat, hits: nat, passed: nat, pruned: nat)
    requires n < |batch| && Counted(result, digest, batch, n, hits, passed, pruned)
    ensures
      match FateOf(result, digest, batch[n])
      case LetThrough => Counted(result, digest, batch, n + 1, hits + 1, passed, pruned)
      case NeverIndexed => Counted(result, digest, batch, n + 1, hits, passed + 1, pruned)
      case Pruned => Counted(result, digest, batch, n + 1, hits, passed, pruned + 1)
  {
    hide FateOf, Faring;
    OneMoreFares(result, digest, batch, n, LetThrough);
    OneMoreFares(result, digest, batch, n, NeverIndexed);
    OneMoreFares(result, digest, batch, n, Pruned);
  }

  method ScanBatch(result: Prefilter, digest: string -> Hash, batch: seq<InputRow>)
    returns (rows: seq<InputRow>, hits: nat, pruned: nat, passed: nat)
    ensures rows == Scanned(result, digest, batch)
    ensures hits + passed == |rows| && hits + pruned + passed == |batch|
    ensures Counted(result, digest, batch, |batch|, hits, passed, pruned)
  {
    hits, pruned, passed := 0, 0, 0;
    NoneCounted(result, digest, batch);
    if batch == [] {
      return [], 0, 0, 0;
    }
    var keep := seq(|batch|, _ => false);
    hide Counted, Scanned;
    for row := 0 to |batch|
      invariant |keep| == |batch|
      invariant forall i :: 0 <= i < row ==> keep[i] == Passes(result, digest, batch[i])
      invariant forall i :: row <= i < |batch| ==> !keep[i]
      invariant hits + pruned + passed == row && Counted(result, digest, batch, row, hits, passed, pruned)
      invariant hits + passed == |Filter(batch[..row], keep[..row])|
    {
      ghost var before := keep;
      OneMoreCounted(result, digest, batch, row, hits, passed, pruned);
      if batch[row].text.None? {
        pruned := pruned + 1;
      } else {
        var hash := digest(batch[row].text.value);
        if hash in result.chunks {
          hits := hits + 1;
          keep := keep[row := true];
        } else if hash in result.indexed {
          pruned := pruned + 1;
        } else {
          passed := passed + 1;
          keep := keep[row := true];
        }
      }
      assert keep[..row] == before[..row];
      assert keep[..row + 1][..row] == keep[..row] && batch[..row + 1][..row] == batch[..row];
    }
    rows := Filter(batch, keep);
    assert batch[..|batch|] == batch && keep[..|batch|] == keep;
    FilterIsScanned(result, digest, batch, keep);
  }

  /** The keep rule in terms of scores: NULL rows never pass, others pass when their best score
      reaches the floor or the index never saw them. */
  lemma PassesBySurviving(
    chunks: Buckets, scores: Scores, floor: Floor, indexed: set<Hash>, digest: string -> Hash, row: InputRow)
    requires forall doc :: doc in chunks <==> doc in scores && Keeps(floor, scores[doc])
    ensures Passes(Prefilter(chunks, indexed), digest, row) <==>
            row.text.Some? && Survives(digest(row.text.value), floor, scores, indexed)
  {
  }

  lemma {:induction false} SameKeysScanAlike(a: Prefilter, b: Prefilter, digest: string -> Hash, batch: seq<InputRow>)
    requires a.chunks.Keys == b.chunks.Keys && a.indexed == b.indexed
    ensures Scanned(a, digest, batch) == Scanned(b, digest, batch)
  {
    if batch != [] {
      assert forall doc :: doc in a.chunks <==> doc in a.chunks.Keys;
      assert forall doc :: doc in b.chunks <==> doc in b.chunks.Keys;
      SameKeysScanAlike(a, b, digest, batch[..|batch| - 1]);
    }
  }

  /** The calibrated scan at a threshold keeps exactly the rows the trusting scan with that
      floor keeps. */
  lemma SameRowsEitherWay(
    all: seq<ChunkHit>, indexed: set<Hash>, floor: Floor, n: nat, best: Scores, trusted: Buckets, every: Buckets,
    digest: string -> Hash, batch: seq<InputRow>)
    requires BestFirst(all) && IsBest(all, best)
    requires IsBucketing(HitsAt(all, floor), n, trusted) && IsBucketing(all, n, every)
    ensures Scanned(Prefilter(trusted, indexed), digest, batch)
         == Scanned(Prefilter(Retain(every, best, floor), indexed), digest, batch)
  {
    CalibratedAgreesWithTrusted(all, floor, n, best, trusted, every);
    SameKeysScanAlike(Prefilter(trusted, indexed), Prefilter(Retain(every, best, floor), indexed), digest, batch);
  }
}

/**
 Drawing the calibration sample: documents by priority, smallest first, up to a number.
 */
module SampleDraw {
  import opened Wrappers
  import SamplePriority

  /** A document's 64-bit hash. */
  type Hash = SamplePriority.Word

  // ---- the sample as a function of the set of documents ----

  ghost predicate NoTies(rank: Hash -> nat) {
    forall x, y :: rank(x) == rank(y) ==> x == y
  }

  predicate Before(rank: Hash -> nat, x: Hash, y: Hash) {
    rank(x) < rank(y)
  }

  ghost predicate InOrder(rank: Hash -> nat, s: seq<Hash>) {
    forall i, j :: 0 <= i < j < |s| ==> Before(rank, s[i], s[j])
  }

  /** `s` is the sample of at most `n` of `docs`: in priority order, and nothing left out
      comes before anything drawn. */
  ghost predicate IsSample(rank: Hash -> nat, docs: set<Hash>, n: nat, s: seq<Hash>) {
    && InOrder(rank, s)
    && (forall x :: x in s ==> x in docs)
    && |s| == (if n < |docs| then n else |docs|)
    && (forall x, y :: x in s && y in docs && y !in s ==> Before(rank, x, y))
  }

  lemma NotEarlier(rank: Hash -> nat, docs: set<Hash>, n: nat, s: seq<Hash>, t: seq<Hash>, k: nat)
    requires IsSample(rank, docs, n, s) && IsSample(rank, docs, n, t) && k < |s| && s[..k] == t[..k]
    ensures rank(t[k]) <= rank(s[k])
  {
    forall j | 0 <= j < k ensures t[j] != s[k] {
      assert t[j] == t[..k][j] == s[..k][j] == s[j];
    }
    if s[k] in t {
      var j :| 0 <= j < |t| && t[j] == s[k];
      assert j == k || Before(rank, t[k], t[j]);
    } else {
      assert t[k] in t && s[k] in s;
    }
  }

  lemma {:induction false} SameUpTo(rank: Hash -> nat, docs: set<Hash>, n: nat, s: seq<Hash>, t: seq<Hash>, k: nat)
    requires NoTies(rank) && IsSample(rank, docs, n, s) && IsSample(rank, docs, n, t) && k <= |s|
    ensures s[..k] == t[..k]
  {
    if k > 0 {
      SameUpTo(rank, docs, n, s, t, k - 1);
      NotEarlier(rank, docs, n, s, t, k - 1);
      NotEarlier(rank, docs, n, t, s, k - 1);
      assert s[..k] == s[..k - 1] + [s[k - 1]] && t[..k] == t[..k - 1] + [t[k - 1]];
    }
  }

  /** There is only one sample of a set: whatever order rows, batches or repetitions arrive
      in, the same documents are drawn in the same order. */
  lemma SampleIsUnique(rank: Hash -> nat, docs: set<Hash>, n: nat, s: seq<Hash>, t: seq<Hash>)
    requires NoTies(rank) && IsSample(rank, docs, n, s) && IsSample(rank, docs, n, t)
    ensures s == t
  {
    SameUpTo(rank, docs, n, s, t, |s|);
  }

  /** A smaller sample is a prefix of a larger one, so a sample can be labelled in tranches. */
  lemma PrefixIsSample(rank: Hash -> nat, docs: set<Hash>, n: nat, m: nat, s: seq<Hash>)
    requires IsSample(rank, docs, n, s) && m <= |s|
    ensures IsSample(rank, docs, m, s[..m])
  {
    forall x, y | x in s[..m] && y in docs && y !in s[..m] ensures Before(rank, x, y) {
      var i :| 0 <= i < m && s[..m][i] == x;
      if y in s {
        forall j | 0 <= j < m ensures s[j] != y {
          assert s[j] == s[..m][j];
        }
        var j :| 0 <= j < |s| && s[j] == y;
      }
    }
  }

  // ---- drawing it from batches of rows ----

  /** A batch's text column; a NULL text is `None`. */
  type Batch = seq<Option<string>>

  datatype Position = Position(batch: nat, row: nat)

  predicate Earlier(p: Position, q: Position) {
    p.batch < q.batch || (p.batch == q.batch && p.row < q.row)
  }

  predicate HasText(batches: seq<Batch>, p: Position) {
    p.batch < |batches| && p.row < |batches[p.batch]| && batches[p.batch][p.row].Some?
  }

  function TextAt(batches: seq<Batch>, p: Position): string
    requires HasText(batches, p)
  {
    batches[p.batch][p.row].value
  }

  predicate Holds(batches: seq<Batch>, digest: string -> Hash, p: Position, h: Hash) {
    HasText(batches, p) && digest(TextAt(batches, p)) == h
  }

  /** The first row of a document, the one its text is copied from. */
  ghost predicate FirstRow(batches: seq<Batch>, digest: string -> Hash, p: Position, h: Hash) {
    Holds(batches, digest, p, h) && forall q :: Holds(batches, digest, q, h) ==> !Earlier(q, p)
  }

  ghost predicate Occurs(batches: seq<Batch>, text: string) {
    exists p :: HasText(batches, p) && TextAt(batches, p) == text
  }

  ghost predicate AreHashes(batches: seq<Batch>, digest: string -> Hash, docs: set<Hash>) {
    forall h :: h in docs <==> exists p :: Holds(batches, digest, p, h)
  }

  function Hashed(texts: seq<string>, digest: string -> Hash): seq<Hash> {
    seq(|texts|, i requires 0 <= i < |texts| => digest(texts[i]))
  }

  ghost predicate DrawnFrom(batches: seq<Batch>, digest: string -> Hash, text: string) {
    exists p :: FirstRow(batches, digest, p, digest(text)) && TextAt(batches, p) == text
  }

  /** `drawn` are the texts of the sample, each from its document's first row. */
  ghost predicate IsDraw(
    batches: seq<Batch>, digest: string -> Hash, rank: Hash -> nat, n: nat, docs: set<Hash>, drawn: seq<string>)
  {
    && AreHashes(batches, digest, docs)
    && IsSample(rank, docs, n, Hashed(drawn, digest))
    && forall i :: 0 <= i < |drawn| ==> DrawnFrom(batches, digest, drawn[i])
  }

  /** `drawn` are the texts of the sample of the documents these batches hold. */
  ghost predicate IsDrawOf(
    batches: seq<Batch>, digest: string -> Hash, rank: Hash -> nat, n: nat, drawn: seq<string>)
  {
    exists docs :: IsDraw(batches, digest, rank, n, docs, drawn)
  }

  type Seen = map<Hash, Position>

  ghost predicate SeenBefore(batches: seq<Batch>, digest: string -> Hash, seen: Seen, frontier: Position) {
    && (forall h :: h in seen ==> FirstRow(batches, digest, seen[h], h) && Earlier(seen[h], frontier))
    && (forall p, h :: Holds(batches, digest, p, h) && Earlier(p, frontier) ==> h in seen)
  }

  method FirstSeen(batches: seq<Batch>, digest: string -> Hash) returns (seen: Seen)
    ensures forall h :: h in seen ==> FirstRow(batches, digest, seen[h], h)
    ensures AreHashes(batches, digest, seen.Keys)
  {
    seen := map[];
    for b := 0 to |batches|
      invariant SeenBefore(batches, digest, seen, Position(b, 0))
    {
      for r := 0 to |batches[b]|
        invariant SeenBefore(batches, digest, seen, Position(b, r))
      {
        if batches[b][r].Some? {
          var h := digest(batches[b][r].value);
          if h !in seen {
            seen := seen[h := Position(b, r)];
          }
        }
      }
    }
  }

  datatype Entry = Entry(priority: nat, position: Position)

  predicate DistinctPriorities(s: seq<Entry>) {
    forall i, j :: 0 <= i < j < |s| ==> s[i].priority != s[j].priority
  }

  predicate ByPriority(s: seq<Entry>) {
    forall i, j :: 0 <= i < j < |s| ==> s[i].priority < s[j].priority
  }

  function InsertByPriority(e: Entry, s: seq<Entry>): (r: seq<Entry>)
    requires ByPriority(s) && forall x :: x in s ==> x.priority != e.priority
    ensures ByPriority(r) && |r| == |s| + 1 && forall x :: x in r <==> x == e || x in s
  {
    if s == [] || e.priority < s[0].priority then [e] + s
    else
      var rest := InsertByPriority(e, s[1..]);
      assert forall x :: x in rest ==> s[0].priority < x.priority;
      assert s == [s[0]] + s[1..];
      [s[0]] + rest
  }

  /** The library's sort by key. */
  function SortByPriority(s: seq<Entry>): (r: seq<Entry>)
    requires DistinctPriorities(s)
    ensures ByPriority(r) && |r| == |s| && forall e :: e in r <==> e in s
  {
    if s == [] then []
    else
      assert s == s[..|s| - 1] + [s[|s| - 1]];
      InsertByPriority(s[|s| - 1], SortByPriority(s[..|s| - 1]))
  }

  ghost predicate IsEntry(seen: Seen, rank: Hash -> nat, h: Hash, e: Entry) {
    h in seen && e == Entry(rank(h), seen[h])
  }

  ghost predicate HasEntry(seen: Seen, rank: Hash -> nat, h: Hash, entries: seq<Entry>) {
    h in seen && Entry(rank(h), seen[h]) in entries
  }

  ghost predicate FromKey(seen: Seen, rank: Hash -> nat, keys: set<Hash>, e: Entry) {
    exists h :: h in keys && IsEntry(seen, rank, h, e)
  }

  ghost predicate Collected(seen: Seen, rank: Hash -> nat, visited: set<Hash>, entries: seq<Entry>) {
    && |entries| == |visited|
    && DistinctPriorities(entries)
    && (forall h {:trigger HasEntry(seen, rank, h, entries)} :: h in visited ==> HasEntry(seen, rank, h, entries))
    && (forall e {:trigger FromKey(seen, rank, visited, e)} :: e in entries ==> FromKey(seen, rank, visited, e))
  }

  lemma CollectedOne(seen: Seen, rank: Hash -> nat, visited: set<Hash>, entries: seq<Entry>, h: Hash)
    requires NoTies(rank) && Collected(seen, rank, visited, entries) && h in seen && h !in visited
    ensures Collected(seen, rank, visited + {h}, entries + [Entry(rank(h), seen[h])])
  {
    var entry := Entry(rank(h), seen[h]);
    forall i | 0 <= i < |entries| ensures entries[i].priority != entry.priority {
      assert FromKey(seen, rank, visited, entries[i]);
    }
    forall e | e in entries + [entry] ensures FromKey(seen, rank, visited + {h}, e) {
      if e in entries {
        assert FromKey(seen, rank, visited, e);
        var g :| g in visited && IsEntry(seen, rank, g, e);
        assert g in visited + {h};
      } else {
        assert IsEntry(seen, rank, h, e);
      }
    }
    forall g | g in visited + {h} ensures HasEntry(seen, rank, g, entries + [entry]) {
      if g in visited {
        assert HasEntry(seen, rank, g, entries);
      }
    }
  }

  /** Visits the map in whatever order it likes. */
  method Collect(seen: Seen, rank: Hash -> nat) returns (entries: seq<Entry>)
    requires NoTies(rank)
    ensures Collected(seen, rank, seen.Keys, entries)
  {
    entries := [];
    var left := seen.Keys;
    ghost var visited: set<Hash> := {};
    while left != {}
      invariant left + visited == seen.Keys && left !! visited
      invariant Collected(seen, rank, visited, entries)
    {
      var h :| h in left;
      CollectedOne(seen, rank, visited, entries, h);
      entries := entries + [Entry(rank(h), seen[h])];
      left := left - {h};
      visited := visited + {h};
    }
    assert visited == seen.Keys;
  }

  ghost predicate IsTextOf(batches: seq<Batch>, e: Entry, text: string) {
    HasText(batches, e.position) && TextAt(batches, e.position) == text
  }

  lemma EntriesHaveText(batches: seq<Batch>, digest: string -> Hash, seen: Seen, rank: Hash -> nat, entries: seq<Entry>)
    requires Collected(seen, rank, seen.Keys, entries)
    requires forall h :: h in seen ==> FirstRow(batches, digest, seen[h], h)
    ensures forall e :: e in entries ==> HasText(batches, e.position)
  {
    forall e | e in entries ensures HasText(batches, e.position) {
      assert FromKey(seen, rank, seen.Keys, e);
      var h :| h in seen && IsEntry(seen, rank, h, e);
      assert FirstRow(batches, digest, seen[h], h);
    }
  }

  lemma KeptAreSample(
    seen: Seen, rank: Hash -> nat, entries: seq<Entry>, sorted: seq<Entry>, hashes: seq<Hash>, n: nat)
    requires NoTies(rank) && Collected(seen, rank, seen.Keys, entries)
    requires ByPriority(sorted) && |sorted| == |entries| && forall e :: e in sorted <==> e in entries
    requires |hashes| == (if n < |sorted| then n else |sorted|)
    requires forall j :: 0 <= j < |hashes| ==> IsEntry(seen, rank, hashes[j], sorted[j])
    ensures IsSample(rank, seen.Keys, n, hashes)
  {
    forall x, y | x in hashes && y in seen && y !in hashes ensures Before(rank, x, y) {
      var i :| 0 <= i < |hashes| && hashes[i] == x;
      forall j | 0 <= j < |hashes| ensures sorted[j] != Entry(rank(y), seen[y]) {
        assert IsEntry(seen, rank, hashes[j], sorted[j]) && hashes[j] in hashes;
      }
      assert HasEntry(seen, rank, y, entries);
      var j :| 0 <= j < |sorted| && sorted[j] == Entry(rank(y), seen[y]);
      assert IsEntry(seen, rank, hashes[i], sorted[i]);
    }
    forall i, j | 0 <= i < j < |hashes| ensures Before(rank, hashes[i], hashes[j]) {
      assert IsEntry(seen, rank, hashes[i], sorted[i]) && IsEntry(seen, rank, hashes[j], sorted[j]);
    }
    forall x | x in hashes ensures x in seen {
      var i :| 0 <= i < |hashes| && hashes[i] == x;
      assert IsEntry(seen, rank, hashes[i], sorted[i]);
    }
  }

  lemma KeptAreDraw(
    batches: seq<Batch>, digest: string -> Hash, seen: Seen, rank: Hash -> nat,
    entries: seq<Entry>, sorted: seq<Entry>, drawn: seq<string>, n: nat)
    requires forall h :: h in seen ==> FirstRow(batches, digest, seen[h], h)
    requires AreHashes(batches, digest, seen.Keys)
    requires NoTies(rank) && Collected(seen, rank, seen.Keys, entries)
    requires ByPriority(sorted) && |sorted| == |entries| && forall e :: e in sorted <==> e in entries
    requires |drawn| == (if n < |sorted| then n else |sorted|)
    requires forall j :: 0 <= j < |drawn| ==> IsTextOf(batches, sorted[j], drawn[j])
    ensures IsDraw(batches, digest, rank, n, seen.Keys, drawn)
  {
    var hashes := Hashed(drawn, digest);
    forall j | 0 <= j < |drawn|
      ensures IsEntry(seen, rank, hashes[j], sorted[j]) && DrawnFrom(batches, digest, drawn[j])
    {
      assert sorted[j] in sorted && IsTextOf(batches, sorted[j], drawn[j]);
      assert FromKey(seen, rank, seen.Keys, sorted[j]);
      var h :| h in seen && IsEntry(seen, rank, h, sorted[j]);
      assert FirstRow(batches, digest, seen[h], h) && digest(drawn[j]) == h;
    }
    KeptAreSample(seen, rank, entries, sorted, hashes, n);
  }

  method Draw(batches: seq<Batch>, digest: string -> Hash, rank: Hash -> nat, sampleSize: nat)
    returns (drawn: seq<string>)
    requires NoTies(rank)
    ensures IsDrawOf(batches, digest, rank, sampleSize, drawn)
  {
    var seen := FirstSeen(batches, digest);
    var entries := Collect(seen, rank);
    var sorted := SortByPriority(entries);
    var kept := sorted[..if sampleSize < |sorted| then sampleSize else |sorted|];
    EntriesHaveText(batches, digest, seen, rank, entries);
    drawn := [];
    for i := 0 to |kept|
      invariant |drawn| == i
      invariant forall j :: 0 <= j < i ==> IsTextOf(batches, kept[j], drawn[j])
    {
      assert kept[i] in sorted;
      var p := kept[i].position;
      drawn := drawn + [batches[p.batch][p.row].value];
    }
    KeptAreDraw(batches, digest, seen, rank, entries, sorted, drawn, sampleSize);
  }

  /** The order documents are drawn in. */
  const DRAW_ORDER: Hash -> nat := (h: Hash) => SamplePriority.Priority(h) as nat

  lemma DrawOrderHasNoTies()
    ensures NoTies(DRAW_ORDER)
  {
    forall x, y | DRAW_ORDER(x) == DRAW_ORDER(y) ensures x == y {
      SamplePriority.PriorityIsInjective(x, y);
    }
  }

  method SampleDocuments(batches: seq<Batch>, digest: string -> Hash, sampleSize: nat)
    returns (drawn: seq<string>)
    ensures IsDrawOf(batches, digest, DRAW_ORDER, sampleSize, drawn)
  {
    DrawOrderHasNoTies();
    drawn := Draw(batches, digest, DRAW_ORDER, sampleSize);
  }

  lemma SameHashes(one: seq<Batch>, other: seq<Batch>, digest: string -> Hash, docsOne: set<Hash>, docsOther: set<Hash>)
    requires forall text :: Occurs(one, text) ==> Occurs(other, text)
    requires AreHashes(one, digest, docsOne) && AreHashes(other, digest, docsOther)
    ensures docsOne <= docsOther
  {
    forall h | h in docsOne ensures h in docsOther {
      var p :| Holds(one, digest, p, h);
      assert Occurs(one, TextAt(one, p));
      var q :| HasText(other, q) && TextAt(other, q) == TextAt(one, p);
      assert Holds(other, digest, q, h);
    }
  }

  /** The sample depends on nothing but which documents there are: not on row order, batching
      or repetition. Two tables with the same texts draw the same texts in the same order. */
  lemma DrawDependsOnlyOnTheTexts(
    one: seq<Batch>, other: seq<Batch>, digest: string -> Hash, n: nat,
    drawnOne: seq<string>, drawnOther: seq<string>)
    requires forall text :: Occurs(one, text) <==> Occurs(other, text)
    requires forall a, b :: Occurs(one, a) && Occurs(one, b) && digest(a) == digest(b) ==> a == b
    requires IsDrawOf(one, digest, DRAW_ORDER, n, drawnOne)
    requires IsDrawOf(other, digest, DRAW_ORDER, n, drawnOther)
    ensures drawnOne == drawnOther
  {
    var docsOne :| IsDraw(one, digest, DRAW_ORDER, n, docsOne, drawnOne);
    var docsOther :| IsDraw(other, digest, DRAW_ORDER, n, docsOther, drawnOther);
    SameHashes(one, other, digest, docsOne, docsOther);
    SameHashes(other, one, digest, docsOther, docsOne);
    assert docsOne == docsOther;
    DrawOrderHasNoTies();
    var a, b := Hashed(drawnOne, digest), Hashed(drawnOther, digest);
    SampleIsUnique(DRAW_ORDER, docsOne, n, a, b);
    assert |a| == |drawnOne| && |b| == |drawnOther|;
    forall i | 0 <= i < |drawnOne| ensures drawnOne[i] == drawnOther[i] {
      assert a[i] == b[i];
      assert DrawnFrom(one, digest, drawnOne[i]) && DrawnFrom(other, digest, drawnOther[i]);
    }
  }

  /** A document has one first row, so one text it is drawn with. */
  lemma DrawnWithOneText(batches: seq<Batch>, digest: string -> Hash, a: string, b: string)
    requires DrawnFrom(batches, digest, a) && DrawnFrom(batches, digest, b) && digest(a) == digest(b)
    ensures a == b
  {
    var p :| FirstRow(batches, digest, p, digest(a)) && TextAt(batches, p) == a;
    var q :| FirstRow(batches, digest, q, digest(b)) && TextAt(batches, q) == b;
    assert !Earlier(p, q) && !Earlier(q, p);
  }

  lemma SameDraw(batches: seq<Batch>, digest: string -> Hash, n: nat, docs: set<Hash>, one: seq<string>, other: seq<string>)
    requires IsDraw(batches, digest, DRAW_ORDER, n, docs, one) && IsDraw(batches, digest, DRAW_ORDER, n, docs, other)
    ensures one == other
  {
    DrawOrderHasNoTies();
    var a, b := Hashed(one, digest), Hashed(other, digest);
    SampleIsUnique(DRAW_ORDER, docs, n, a, b);
    assert |a| == |one| && |b| == |other|;
    forall i | 0 <= i < |one| ensures one[i] == other[i] {
      assert a[i] == b[i];
      DrawnWithOneText(batches, digest, one[i], other[i]);
    }
  }

  /** Asking for fewer documents draws a prefix of what asking for more draws. */
  lemma SmallerDrawIsAPrefix(
    batches: seq<Batch>, digest: string -> Hash, m: nat, n: nat, small: seq<string>, large: seq<string>)
    requires IsDrawOf(batches, digest, DRAW_ORDER, m, small)
    requires IsDrawOf(batches, digest, DRAW_ORDER, n, large)
    requires m <= n
    ensures small == large[..if m < |large| then m else |large|]
  {
    var docs :| IsDraw(batches, digest, DRAW_ORDER, n, docs, large);
    var fewer :| IsDraw(batches, digest, DRAW_ORDER, m, fewer, small);
    assert docs == fewer;
    if m < |large| {
      var hashes := Hashed(large, digest);
      PrefixIsSample(DRAW_ORDER, docs, n, m, hashes);
      assert Hashed(large[..m], digest) == hashes[..m];
      SameDraw(batches, digest, m, docs, small, large[..m]);
    } else {
      assert |docs| <= m ==> IsDraw(batches, digest, DRAW_ORDER, m, docs, large);
      SameDraw(batches, digest, m, docs, small, large);
      assert large == large[..|large|];
    }
  }
}

/**
 What the verdict cache is worth to a classify node: which entry answers a slot, what a batch leaves
 behind, and that the next batch asks nothing it could have known.
 */
module ClassifyCache {
  import opened Wrappers
  import opened ClassifyBatch

  /** One batch, with what it asked, was told, wrote and cached. */
  datatype Batch = Batch(
    model: Model, cache: Cache, conditions: seq<string>, hasGuard: bool, rows: seq<Row>,
    pendingRows: seq<PendingRow>, outcomes: seq<Option<string>>, verdicts: seq<seq<Option<bool>>>, learnt: Cache)

  /** As the executor runs it. */
  ghost predicate Ran(t: Batch) {
    && t.model.Answers()
    && t.pendingRows == PendingRows(t.cache, t.conditions, t.hasGuard, t.rows) && InRange(t.conditions, t.pendingRows)
    && t.outcomes == t.model.complete(Requests(t.conditions, t.pendingRows)) && |t.outcomes| == |t.pendingRows|
    && Progress(t.model, t.cache, t.conditions, t.hasGuard, t.rows, t.pendingRows, t.outcomes, t.verdicts)
    && t.learnt == AllLearnt(t.model, t.cache, t.conditions, t.pendingRows, t.outcomes)
  }

  ghost predicate SlotOf(t: Batch, r: nat, b: nat) {
    r < |t.rows| && b < |t.conditions| && |t.verdicts| == |t.rows| && |t.verdicts[r]| == |t.conditions|
  }

  /** A text the guard lets through. */
  predicate Open(t: Batch, r: nat) {
    r < |t.rows| && (t.hasGuard ==> t.rows[r].guard == Some(true)) && t.rows[r].text.Some?
  }

  ghost predicate Asked(t: Batch, r: nat, b: nat) {
    exists k, i :: AsksFor(t.pendingRows, k, i, r, b)
  }

  /** The entry a node's own prompt writes: the fused one unless it has a single condition. */
  function OwnKey(t: Batch, r: nat, b: nat): Key
    requires Open(t, r) && b < |t.conditions|
  {
    Key(t.conditions[b], t.rows[r].text.value, |t.conditions| != 1)
  }

  /** The entry a question about one condition writes, in a node or a WHERE. */
  function SingleKey(t: Batch, r: nat, b: nat): Key
    requires Open(t, r) && b < |t.conditions|
  {
    Key(t.conditions[b], t.rows[r].text.value, false)
  }

  // ---- which entry answers ----

  /** A cached verdict is used and not asked for, the node's own before one under the
      single-condition prompt; and what neither has is asked for. */
  lemma CachedIsUsed(t: Batch, r: nat, b: nat)
    requires Ran(t) && r < |t.rows| && b < |t.conditions|
    ensures SlotOf(t, r, b)
    ensures !Open(t, r) ==> !Asked(t, r, b) && t.verdicts[r][b] == Some(false)
    ensures Open(t, r) ==>
      var own, single := OwnKey(t, r, b), SingleKey(t, r, b);
      && (Asked(t, r, b) <==> own !in t.cache && single !in t.cache)
      && (own in t.cache ==> t.verdicts[r][b] == Some(t.cache[own]))
      && (own !in t.cache && single in t.cache ==> t.verdicts[r][b] == Some(t.cache[single]))
  {
    BatchIsRight(t.model, t.cache, t.conditions, t.hasGuard, t.rows, t.pendingRows, t.outcomes, t.verdicts, r, b);
    if k, i :| AsksFor(t.pendingRows, k, i, r, b) {
      AskedIsLacking(t.cache, t.conditions, t.hasGuard, t.rows, t.pendingRows, k, i, r, b);
    }
    hide PendingRows, Requests, AllLearnt, Progress;
  }

  lemma {:induction false} RequestAt(conditions: seq<string>, pendingRows: seq<PendingRow>, k: nat)
    requires InRange(conditions, pendingRows) && k < |pendingRows|
    ensures Requests(conditions, pendingRows)[k] == RequestOf(conditions, pendingRows[k])
  {
    if k < |pendingRows| - 1 {
      RequestAt(conditions, pendingRows[..|pendingRows| - 1], k);
    }
  }

  /** A question is about its slot's row and condition, and the slot takes its answer, whatever that is. */
  lemma AskedIsAnswered(t: Batch, k: nat, i: nat, r: nat, b: nat)
    requires Ran(t) && AsksFor(t.pendingRows, k, i, r, b)
    ensures Open(t, r) && SlotOf(t, r, b)
    ensures
      var request := Requests(t.conditions, t.pendingRows)[k];
      && request.text == t.rows[r].text.value == t.pendingRows[k].text
      && |request.conditions| == |t.pendingRows[k].pending| && request.conditions[i] == t.conditions[b]
    ensures t.verdicts[r][b] == Answer(t.model, t.outcomes[k], |t.pendingRows[k].pending|, i)
  {
    AskedIsLacking(t.cache, t.conditions, t.hasGuard, t.rows, t.pendingRows, k, i, r, b);
    BatchIsRight(t.model, t.cache, t.conditions, t.hasGuard, t.rows, t.pendingRows, t.outcomes, t.verdicts, r, b);
    RequestAt(t.conditions, t.pendingRows, k);
    hide PendingRows, AllLearnt, Progress, Requests;
    forall k', i' | AsksFor(t.pendingRows, k', i', r, b) ensures k' == k && i' == i {
      AskedOnce(t.cache, t.conditions, t.hasGuard, t.rows, t.pendingRows, k, i, k', i', r, b);
    }
  }

  // ---- what a batch leaves behind ----

  /** The `i`th condition of this call was answered, which is worth an entry under the prompt that
      asked: the fused one unless it asked a single condition. */
  ghost predicate RowTells(model: Model, conditions: seq<string>, p: PendingRow, outcome: Option<string>, i: int, key: Key)
    requires InRangeRow(conditions, p)
  {
    && 0 <= i < |p.pending| && Answer(model, outcome, |p.pending|, i).Some?
    && key == Key(conditions[p.pending[i]], p.text, |p.pending| != 1)
  }

  ghost predicate FirstInRow(
    model: Model, conditions: seq<string>, p: PendingRow, outcome: Option<string>, upTo: nat, i: int, key: Key)
    requires InRangeRow(conditions, p)
  {
    && i < upTo && RowTells(model, conditions, p, outcome, i, key)
    && forall j :: 0 <= j < i ==> !RowTells(model, conditions, p, outcome, j, key)
  }

  lemma {:induction false} LearntFromRow(
    model: Model, cache: Cache, conditions: seq<string>, p: PendingRow, outcome: Option<string>, upTo: nat, key: Key)
    requires InRangeRow(conditions, p) && upTo <= |p.pending|
    ensures
      var learnt := Learnt(model, cache, conditions, p, outcome, upTo);
      && (key in cache ==> key in learnt && learnt[key] == cache[key])
      && (key !in cache && key in learnt ==>
            exists i :: FirstInRow(model, conditions, p, outcome, upTo, i, key) && learnt[key] == Answer(model, outcome, |p.pending|, i).value)
      && (forall i :: i < upTo && RowTells(model, conditions, p, outcome, i, key) ==> key in learnt)
  {
    if upTo > 0 {
      LearntFromRow(model, cache, conditions, p, outcome, upTo - 1, key);
      var earlier, learnt := Learnt(model, cache, conditions, p, outcome, upTo - 1), Learnt(model, cache, conditions, p, outcome, upTo);
      if key !in cache && key in learnt {
        if key in earlier {
          var i :| FirstInRow(model, conditions, p, outcome, upTo - 1, i, key) && earlier[key] == Answer(model, outcome, |p.pending|, i).value;
          assert FirstInRow(model, conditions, p, outcome, upTo, i, key);
        } else {
          assert FirstInRow(model, conditions, p, outcome, upTo, upTo - 1, key);
        }
      }
    }
  }

  ghost predicate Tells(t: Batch, n: nat, k: int, i: int, key: Key)
    requires InRange(t.conditions, t.pendingRows) && |t.outcomes| == |t.pendingRows| && n <= |t.pendingRows|
  {
    0 <= k < n && RowTells(t.model, t.conditions, t.pendingRows[k], t.outcomes[k], i, key)
  }

  /** No call before this one told as much, and no condition before it in this one. */
  ghost predicate TellsFirst(t: Batch, n: nat, k: int, i: int, key: Key)
    requires InRange(t.conditions, t.pendingRows) && |t.outcomes| == |t.pendingRows| && n <= |t.pendingRows|
  {
    && Tells(t, n, k, i, key)
    && forall k', i' :: Tells(t, n, k', i', key) ==> k < k' || (k == k' && i <= i')
  }

  ghost function LearntBy(t: Batch, n: nat): Cache
    requires InRange(t.conditions, t.pendingRows) && |t.outcomes| == |t.pendingRows| && n <= |t.pendingRows|
  {
    AllLearnt(t.model, t.cache, t.conditions, t.pendingRows[..n], t.outcomes[..n])
  }

  lemma OneMoreCall(t: Batch, n: nat)
    requires InRange(t.conditions, t.pendingRows) && |t.outcomes| == |t.pendingRows| && 0 < n <= |t.pendingRows|
    ensures
      var p := t.pendingRows[n - 1];
      LearntBy(t, n) == Learnt(t.model, LearntBy(t, n - 1), t.conditions, p, t.outcomes[n - 1], |p.pending|)
  {
    assert t.pendingRows[..n][..n - 1] == t.pendingRows[..n - 1] && t.outcomes[..n][..n - 1] == t.outcomes[..n - 1];
  }

  ghost predicate EntryIsRight(t: Batch, n: nat, learnt: Cache, key: Key)
    requires InRange(t.conditions, t.pendingRows) && |t.outcomes| == |t.pendingRows| && n <= |t.pendingRows|
  {
    && (key in learnt <==> key in t.cache || exists k, i :: Tells(t, n, k, i, key))
    && (key in t.cache ==> learnt[key] == t.cache[key])
    && (key !in t.cache && key in learnt ==>
          exists k, i :: TellsFirst(t, n, k, i, key)
                         && learnt[key] == Answer(t.model, t.outcomes[k], |t.pendingRows[k].pending|, i).value)
  }

  lemma OneMoreEntry(t: Batch, n: nat, before: Cache, after: Cache, key: Key)
    requires InRange(t.conditions, t.pendingRows) && |t.outcomes| == |t.pendingRows| && 0 < n <= |t.pendingRows|
    requires EntryIsRight(t, n - 1, before, key)
    requires
      var p := t.pendingRows[n - 1];
      after == Learnt(t.model, before, t.conditions, p, t.outcomes[n - 1], |p.pending|)
    ensures EntryIsRight(t, n, after, key)
  {
    var p, outcome := t.pendingRows[n - 1], t.outcomes[n - 1];
    LearntFromRow(t.model, before, t.conditions, p, outcome, |p.pending|, key);
    hide Learnt, Answer, InRangeRow;
    var last := n - 1;
    assert forall k, i :: k < last ==> (Tells(t, n, k, i, key) <==> Tells(t, last, k, i, key));
    assert forall i :: Tells(t, n, last, i, key) <==> RowTells(t.model, t.conditions, p, outcome, i, key);
    if key in before {
      if k, i :| Tells(t, last, k, i, key) {
        assert Tells(t, n, k, i, key);
      }
      if key !in t.cache {
        var k, i :| TellsFirst(t, last, k, i, key)
                    && before[key] == Answer(t.model, t.outcomes[k], |t.pendingRows[k].pending|, i).value;
        assert TellsFirst(t, n, k, i, key);
      }
    } else if key in after {
      var i :| FirstInRow(t.model, t.conditions, p, outcome, |p.pending|, i, key) && after[key] == Answer(t.model, outcome, |p.pending|, i).value;
      assert TellsFirst(t, n, last, i, key);
    }
  }

  lemma {:induction false} EntriesSoFar(t: Batch, n: nat, key: Key)
    requires InRange(t.conditions, t.pendingRows) && |t.outcomes| == |t.pendingRows| && n <= |t.pendingRows|
    ensures EntryIsRight(t, n, LearntBy(t, n), key)
  {
    if n == 0 {
      assert LearntBy(t, n) == t.cache;
    } else {
      EntriesSoFar(t, n - 1, key);
      OneMoreCall(t, n);
      hide EntryIsRight, LearntBy, Learnt;
      OneMoreEntry(t, n, LearntBy(t, n - 1), LearntBy(t, n), key);
    }
  }

  /** A batch adds an entry for each answer, under the prompt that asked for it; an entry that was
      there stays, and of several answers for one the first is kept. */
  lemma LearntExactly(t: Batch, key: Key)
    requires Ran(t)
    ensures EntryIsRight(t, |t.pendingRows|, t.learnt, key)
  {
    var n := |t.pendingRows|;
    assert t.pendingRows[..n] == t.pendingRows && t.outcomes[..n] == t.outcomes;
    EntriesSoFar(t, n, key);
  }

  // ---- the next batch ----

  ghost predicate SameQuestion(t: Batch, r: nat, b: nat, u: Batch, r': nat, b': nat) {
    && Open(t, r) && Open(u, r') && b < |t.conditions| && b' < |u.conditions|
    && t.rows[r].text == u.rows[r'].text && t.conditions[b] == u.conditions[b']
  }

  /** The first slot of the batch with this text and condition to get a verdict. */
  ghost predicate FirstVerdict(t: Batch, r: nat, b: nat) {
    && SlotOf(t, r, b) && Open(t, r) && t.verdicts[r][b].Some?
    && forall r': nat, b': nat :: SameQuestion(t, r, b, t, r', b') && (r' < r || (r' == r && b' < b)) ==>
         SlotOf(t, r', b') && t.verdicts[r'][b'] == None
  }

  /** An answer told under a key is in the slots that ask for it. */
  lemma TellsASlot(t: Batch, k: int, i: int, key: Key) returns (r: nat, b: nat)
    requires Ran(t) && Tells(t, |t.pendingRows|, k, i, key)
    ensures 0 <= k < |t.pendingRows| && 0 <= i < |t.pendingRows[k].pending| && AsksFor(t.pendingRows, k, i, r, b)
    ensures Open(t, r) && SlotOf(t, r, b) && t.verdicts[r][b] == Answer(t.model, t.outcomes[k], |t.pendingRows[k].pending|, i)
    ensures t.verdicts[r][b].Some? && OwnKey(t, r, b) !in t.cache && SingleKey(t, r, b) !in t.cache
    ensures key == Key(t.conditions[b], t.rows[r].text.value, |t.pendingRows[k].pending| != 1)
  {
    r, b := t.pendingRows[k].row, t.pendingRows[k].pending[i];
    hide Ran, Answer;
    AskedIsAnswered(t, k, i, r, b);
    CachedIsUsed(t, r, b);
    assert Asked(t, r, b);
  }

  /** Rows with the same text ask the same question. */
  lemma SameTextSamePrompt(t: Batch, k: int, i: int, r: nat, b: nat, k': int, i': int, r': nat, b': nat)
    requires Ran(t) && AsksFor(t.pendingRows, k, i, r, b) && AsksFor(t.pendingRows, k', i', r', b')
    requires t.pendingRows[k].text == t.pendingRows[k'].text
    ensures t.pendingRows[k].pending == t.pendingRows[k'].pending
  {
    PendingRowsAreRight(t.cache, t.conditions, t.hasGuard, t.rows);
    hide PendingRows, Progress, AllLearnt, Requests;
    assert IsPending(t.cache, t.conditions, t.hasGuard, t.rows, t.pendingRows[k]);
    assert IsPending(t.cache, t.conditions, t.hasGuard, t.rows, t.pendingRows[k']);
  }

  /** Calls are in row order and each asks its conditions in order. */
  lemma EarlierSlot(t: Batch, k: int, i: int, r: nat, b: nat, k': int, i': int, r': nat, b': nat)
    requires Ran(t) && AsksFor(t.pendingRows, k, i, r, b) && AsksFor(t.pendingRows, k', i', r', b')
    requires k' < k || (k' == k && i' < i)
    ensures r' < r || (r' == r && b' < b)
  {
    PendingRowsAreRight(t.cache, t.conditions, t.hasGuard, t.rows);
    hide PendingRows, Progress, AllLearnt, Requests;
    assert IsPending(t.cache, t.conditions, t.hasGuard, t.rows, t.pendingRows[k]);
    PendingIsRight(t.cache, t.conditions, t.pendingRows[k].text, |t.conditions|);
  }

  /** A verdict that came from the cache is still the one a lookup finds. */
  lemma CachedStaysFound(t: Batch, r: nat, b: nat)
    requires Ran(t) && Open(t, r) && b < |t.conditions| && !Asked(t, r, b)
    ensures
      var own, single := OwnKey(t, r, b), SingleKey(t, r, b);
      && SlotOf(t, r, b) && t.verdicts[r][b].Some?
      && (own in t.learnt ==> t.learnt[own] == t.verdicts[r][b].value)
      && (own !in t.learnt ==> single in t.learnt && t.learnt[single] == t.verdicts[r][b].value)
  {
    var own, single, n := OwnKey(t, r, b), SingleKey(t, r, b), |t.pendingRows|;
    CachedIsUsed(t, r, b);
    LearntExactly(t, own);
    LearntExactly(t, single);
    hide Ran, Tells, TellsFirst;
    if k, i :| Tells(t, n, k, i, own) {
      var r', b' := TellsASlot(t, k, i, own);
    }
  }

  lemma AskedFewer(t: Batch, k: int, i: int, r: nat, b: nat)
    requires Ran(t) && AsksFor(t.pendingRows, k, i, r, b)
    ensures |t.conditions| == 1 ==> |t.pendingRows[k].pending| == 1
  {
    PendingRowsAreRight(t.cache, t.conditions, t.hasGuard, t.rows);
    hide PendingRows, Progress, AllLearnt, Requests;
    var p := t.pendingRows[k];
    assert IsPending(t.cache, t.conditions, t.hasGuard, t.rows, p);
    PendingIsRight(t.cache, t.conditions, p.text, |t.conditions|);
    assert |p.pending| > 1 ==> p.pending[0] < p.pending[1];
  }

  /** The first to tell is the slot with the first verdict. */
  lemma FirstTeller(t: Batch, r: nat, b: nat, k: int, i: int, key: Key, k0: int, i0: int)
    requires Ran(t) && FirstVerdict(t, r, b) && AsksFor(t.pendingRows, k, i, r, b) && Tells(t, |t.pendingRows|, k, i, key)
    requires TellsFirst(t, |t.pendingRows|, k0, i0, key)
    ensures k0 == k && i0 == i
  {
    var n := |t.pendingRows|;
    var r0, b0 := TellsASlot(t, k0, i0, key);
    AskedIsAnswered(t, k, i, r, b);
    hide Ran, Answer;
    assert SameQuestion(t, r, b, t, r0, b0);
    if k0 != k || i0 != i {
      assert k0 < k || (k0 == k && i0 < i) by {
        assert Tells(t, n, k, i, key);
      }
      EarlierSlot(t, k, i, r, b, k0, i0, r0, b0);
    }
  }

  /** So is a first answer. */
  lemma AnsweredIsFound(t: Batch, r: nat, b: nat)
    requires Ran(t) && FirstVerdict(t, r, b) && Asked(t, r, b)
    ensures
      var own, single := OwnKey(t, r, b), SingleKey(t, r, b);
      && (own in t.learnt ==> t.learnt[own] == t.verdicts[r][b].value)
      && (own !in t.learnt ==> single in t.learnt && t.learnt[single] == t.verdicts[r][b].value)
  {
    var own, single, n := OwnKey(t, r, b), SingleKey(t, r, b), |t.pendingRows|;
    var k, i :| AsksFor(t.pendingRows, k, i, r, b);
    var key := Key(t.conditions[b], t.rows[r].text.value, |t.pendingRows[k].pending| != 1);
    CachedIsUsed(t, r, b);
    AskedIsAnswered(t, k, i, r, b);
    assert Tells(t, n, k, i, key);
    LearntExactly(t, key);
    LearntExactly(t, own);
    AskedFewer(t, k, i, r, b);
    hide Ran, Tells, TellsFirst, Answer;
    var k0, i0 :| TellsFirst(t, n, k0, i0, key) && t.learnt[key] == Answer(t.model, t.outcomes[k0], |t.pendingRows[k0].pending|, i0).value;
    FirstTeller(t, r, b, k, i, key, k0, i0);
    if key != own && own in t.learnt {
      var k', i' :| Tells(t, n, k', i', own);
      var r', b' := TellsASlot(t, k', i', own);
      AskedIsAnswered(t, k', i', r', b');
      SameTextSamePrompt(t, k, i, r, b, k', i', r', b');
    }
  }

  /** Another batch over the same conditions and what the first one left: whatever the model says by
      then, a question the first batch had a verdict for is not asked again, and the first verdict it
      had is the answer everywhere. */
  lemma NextBatchReuses(t: Batch, r: nat, b: nat, u: Batch, r': nat, b': nat)
    requires Ran(t) && Ran(u) && u.cache == t.learnt && u.conditions == t.conditions
    requires FirstVerdict(t, r, b) && SameQuestion(t, r, b, u, r', b')
    ensures !Asked(u, r', b') && SlotOf(u, r', b') && u.verdicts[r'][b'] == t.verdicts[r][b]
  {
    CachedIsUsed(u, r', b');
    assert OwnKey(u, r', b') == OwnKey(t, r, b) && SingleKey(u, r', b') == SingleKey(t, r, b);
    hide Ran, FirstVerdict;
    if Asked(t, r, b) {
      AnsweredIsFound(t, r, b);
    } else {
      CachedStaysFound(t, r, b);
    }
  }

  /** Nothing that got a verdict is asked again, whichever slot it was. */
  lemma AnsweredOnceIsEnough(t: Batch, r: nat, b: nat, u: Batch, r': nat, b': nat)
    requires Ran(t) && Ran(u) && u.cache == t.learnt && u.conditions == t.conditions
    requires SlotOf(t, r, b) && Open(t, r) && t.verdicts[r][b].Some? && SameQuestion(t, r, b, u, r', b')
    ensures !Asked(u, r', b')
  {
    CachedIsUsed(u, r', b');
    assert OwnKey(u, r', b') == OwnKey(t, r, b) && SingleKey(u, r', b') == SingleKey(t, r, b);
    if k, i :| AsksFor(t.pendingRows, k, i, r, b) {
      AskedIsAnswered(t, k, i, r, b);
      AskedFewer(t, k, i, r, b);
      var key := Key(t.conditions[b], t.rows[r].text.value, |t.pendingRows[k].pending| != 1);
      assert Tells(t, |t.pendingRows|, k, i, key);
      hide Ran, Tells, Answer, AsksFor;
      LearntExactly(t, key);
    } else {
      hide Ran;
      CachedStaysFound(t, r, b);
    }
  }

  // ---- a model that tells the truth ----

  /** What the model's outcomes for these requests say about one condition of one of them. */
  function Said(model: Model, requests: seq<Request>, k: nat, i: nat): Option<bool>
    requires k < |requests| && |model.complete(requests)| == |requests|
  {
    Answer(model, model.complete(requests)[k], |requests[k].conditions|, i)
  }

  /** Whatever it is asked, and whatever it leaves unanswered. */
  ghost predicate SpeaksTruly(model: Model, truth: (string, string) -> bool)
    requires model.Answers()
  {
    forall requests: seq<Request>, k: nat, i: nat {:trigger Said(model, requests, k, i)} ::
      k < |requests| && i < |requests[k].conditions| && Said(model, requests, k, i).Some? ==>
        Said(model, requests, k, i).value == truth(requests[k].text, requests[k].conditions[i])
  }

  /** Then every verdict of a batch on a truthful cache is true: questions are put to it, and its
      answers put in slots, under the right text and condition. */
  lemma TruthInTruthOut(t: Batch, truth: (string, string) -> bool, r: nat, b: nat)
    requires Ran(t) && SpeaksTruly(t.model, truth) && Truthful(t.cache, truth)
    requires Open(t, r) && b < |t.conditions|
    ensures SlotOf(t, r, b)
    ensures t.verdicts[r][b].Some? ==> t.verdicts[r][b].value == truth(t.rows[r].text.value, t.conditions[b])
  {
    CachedIsUsed(t, r, b);
    if k, i :| AsksFor(t.pendingRows, k, i, r, b) {
      AskedIsAnswered(t, k, i, r, b);
      assert t.verdicts[r][b] == Said(t.model, Requests(t.conditions, t.pendingRows), k, i);
    }
    hide Progress, PendingRows, AllLearnt, Requests, Answer;
  }
}

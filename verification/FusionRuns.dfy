/**
 The fused side of the cost model, counted on the executor: how many requests a classify node sends
 batch after batch when its model answers as an oracle does.
 */
module FusionRuns {
  import opened Wrappers
  import opened SelectExpr
  import opened ClassifyBatch
  import opened ClassifyCache
  import opened FusionCost

  function Rowed(text: string): Row {
    Row(None, Some(text))
  }

  /** A batch of texts, none of them NULL, under no guard. */
  function RowsOf(batch: seq<string>): (rows: seq<Row>)
    ensures |rows| == |batch| && forall i :: 0 <= i < |batch| ==> rows[i] == Rowed(batch[i])
  {
    seq(|batch|, i requires 0 <= i < |batch| => Rowed(batch[i]))
  }

  /** What a node with so many conditions finds in the cache. */
  function Found(cache: Cache, asked: nat): FusionCost.Known {
    set key | key in cache && (!key.fused || asked != 1) :: (key.text, key.condition)
  }

  lemma FoundIff(cache: Cache, asked: nat, text: string, condition: string)
    ensures (text, condition) in Found(cache, asked) <==>
      Key(condition, text, asked != 1) in cache || Key(condition, text, false) in cache
  {
    if (text, condition) in Found(cache, asked) {
      var key :| key in cache && (!key.fused || asked != 1) && (key.text, key.condition) == (text, condition);
      assert key == Key(condition, text, key.fused);
    }
    if Key(condition, text, asked != 1) in cache {
      var key := Key(condition, text, asked != 1);
      assert (key.text, key.condition) in Found(cache, asked);
    }
    if Key(condition, text, false) in cache {
      var key := Key(condition, text, false);
      assert (key.text, key.condition) in Found(cache, asked);
    }
  }

  lemma FoundIffCached(cache: Cache, text: string, condition: string, asked: nat)
    ensures (text, condition) in Found(cache, asked) <==> Cached(cache, condition, text, asked).Some?
  {
    hide Found;
    FoundIff(cache, asked, text, condition);
  }

  lemma PendingIffLacks(cache: Cache, conditions: seq<string>, text: string)
    ensures Pending(cache, conditions, text, |conditions|) != [] <==> Lacks(text, conditions, Found(cache, |conditions|))
  {
    PendingIsRight(cache, conditions, text, |conditions|);
    var pending := Pending(cache, conditions, text, |conditions|);
    hide Pending, Found, Cached;
    forall b | 0 <= b < |conditions| ensures (text, conditions[b]) in Found(cache, |conditions|) <==> b !in pending {
      FoundIffCached(cache, text, conditions[b], |conditions|);
    }
    if pending != [] {
      assert pending[0] in pending;
    }
  }

  /** The requests a batch sends are the fused calls of the cost model. */
  lemma {:induction false} CallsAreCounted(cache: Cache, conditions: seq<string>, batch: seq<string>)
    ensures |PendingRows(cache, conditions, false, RowsOf(batch))| == FusedCalls(batch, conditions, Found(cache, |conditions|))
  {
    if batch != [] {
      var n := |batch| - 1;
      CallsAreCounted(cache, conditions, batch[..n]);
      assert RowsOf(batch)[..n] == RowsOf(batch[..n]);
      PendingIffLacks(cache, conditions, batch[n]);
      hide Pending, Lacks, Found;
    }
  }

  /** Whatever it is asked, the model answers each condition as the oracle does, or not at all. */
  ghost predicate AnswersAs(model: Model, v: Oracle)
    requires model.Answers()
  {
    forall requests: seq<Request>, k: nat, i: nat {:trigger Said(model, requests, k, i)} ::
      k < |requests| && i < |requests[k].conditions| ==>
        Said(model, requests, k, i) ==
          match v(requests[k].text, requests[k].conditions[i]) case Yes => Some(true) case No => Some(false) case Failed => None
  }

  lemma AnsweredUnless(t: Batch, v: Oracle, k: nat, i: nat, r: nat, b: nat)
    requires Ran(t) && AnswersAs(t.model, v) && AsksFor(t.pendingRows, k, i, r, b)
    ensures Open(t, r) && b < |t.conditions|
    ensures Answer(t.model, t.outcomes[k], |t.pendingRows[k].pending|, i).Some? <==> v(t.rows[r].text.value, t.conditions[b]) != Failed
  {
    AskedIsAnswered(t, k, i, r, b);
    assert Said(t.model, Requests(t.conditions, t.pendingRows), k, i) == Answer(t.model, t.outcomes[k], |t.pendingRows[k].pending|, i);
    hide Progress, PendingRows, AllLearnt, Requests, Answer;
  }

  ghost predicate OverTexts(t: Batch, conditions: seq<string>, batch: seq<string>, v: Oracle) {
    Ran(t) && AnswersAs(t.model, v) && t.conditions == conditions && !t.hasGuard && t.rows == RowsOf(batch)
  }

  lemma TellsKey(t: Batch, k: nat, i: nat, r: nat, b: nat, key: Key)
    requires Ran(t) && AsksFor(t.pendingRows, k, i, r, b) && Open(t, r) && b < |t.conditions|
    requires t.pendingRows[k].text == t.rows[r].text.value
    requires Answer(t.model, t.outcomes[k], |t.pendingRows[k].pending|, i).Some?
    requires key == Key(t.conditions[b], t.rows[r].text.value, |t.pendingRows[k].pending| != 1)
    ensures Tells(t, |t.pendingRows|, k, i, key)
  {
  }

  /** What the batch could not find and the oracle answers, it finds afterwards. */
  lemma FindsMore(t: Batch, conditions: seq<string>, batch: seq<string>, v: Oracle, text: string, condition: string)
    requires OverTexts(t, conditions, batch, v) && text in batch && condition in conditions && v(text, condition) != Failed
    ensures (text, condition) in Found(t.learnt, |conditions|)
  {
    var r :| 0 <= r < |batch| && batch[r] == text;
    var b :| 0 <= b < |conditions| && conditions[b] == condition;
    assert t.rows[r] == Rowed(text) && Open(t, r);
    hide Ran, AnswersAs, RowsOf, Found;
    FoundIff(t.learnt, |conditions|, text, condition);
    CachedIsUsed(t, r, b);
    if k, i :| AsksFor(t.pendingRows, k, i, r, b) {
      AnsweredUnless(t, v, k, i, r, b);
      AskedIsAnswered(t, k, i, r, b);
      AskedFewer(t, k, i, r, b);
      var key := Key(condition, text, |t.pendingRows[k].pending| != 1);
      TellsKey(t, k, i, r, b, key);
      LearntExactly(t, key);
    } else {
      CachedStaysFound(t, r, b);
    }
  }

  /** And it finds nothing else that it did not find before. */
  lemma FindsNoMore(t: Batch, conditions: seq<string>, batch: seq<string>, v: Oracle, key: Key)
    requires OverTexts(t, conditions, batch, v) && key in t.learnt && key !in t.cache
    ensures key.text in batch && key.condition in conditions && v(key.text, key.condition) != Failed
  {
    LearntExactly(t, key);
    var k, i :| Tells(t, |t.pendingRows|, k, i, key);
    var r, b := TellsASlot(t, k, i, key);
    AnsweredUnless(t, v, k, i, r, b);
    hide Ran, AnswersAs, Answer;
    assert t.rows[r] == Rowed(batch[r]);
    assert batch[r] in batch && conditions[b] in conditions;
  }

  lemma StaysFound(t: Batch, conditions: seq<string>, batch: seq<string>, v: Oracle, text: string, condition: string)
    requires OverTexts(t, conditions, batch, v) && (text, condition) in Found(t.cache, |conditions|)
    ensures (text, condition) in Found(t.learnt, |conditions|)
  {
    hide Found;
    FoundIff(t.cache, |conditions|, text, condition);
    FoundIff(t.learnt, |conditions|, text, condition);
    LearntExactly(t, Key(condition, text, |conditions| != 1));
    LearntExactly(t, Key(condition, text, false));
    hide Ran, AnswersAs;
  }

  lemma FindsOnly(t: Batch, conditions: seq<string>, batch: seq<string>, v: Oracle, text: string, condition: string)
    requires OverTexts(t, conditions, batch, v)
    requires (text, condition) in Found(t.learnt, |conditions|) && (text, condition) !in Found(t.cache, |conditions|)
    ensures text in batch && condition in conditions && v(text, condition) != Failed
  {
    hide Found, OverTexts;
    FoundIff(t.cache, |conditions|, text, condition);
    FoundIff(t.learnt, |conditions|, text, condition);
    var own := Key(condition, text, |conditions| != 1);
    FindsNoMore(t, conditions, batch, v, if own in t.learnt then own else Key(condition, text, false));
  }

  /** What a batch learns is what the cost model says it learns. */
  lemma LearningIsCounted(t: Batch, conditions: seq<string>, batch: seq<string>, v: Oracle)
    requires OverTexts(t, conditions, batch, v)
    ensures Found(t.learnt, |conditions|) == FusedLearns(batch, conditions, Found(t.cache, |conditions|), v)
  {
    var before, after := Found(t.cache, |conditions|), Found(t.learnt, |conditions|);
    hide OverTexts, FusedLearns;
    forall text, condition
      ensures (text, condition) in after <==>
        (text, condition) in before || (text in batch && condition in conditions && v(text, condition) != Failed)
    {
      if text in batch && condition in conditions && v(text, condition) != Failed {
        FindsMore(t, conditions, batch, v, text, condition);
      } else if (text, condition) in before {
        StaysFound(t, conditions, batch, v, text, condition);
      } else if (text, condition) in after {
        FindsOnly(t, conditions, batch, v, text, condition);
      }
    }
    forall pair: (string, string) ensures pair in after <==> pair in FusedLearns(batch, conditions, before, v) {
      FusedLearnsAll(batch, conditions, before, v, pair.0, pair.1);
      assert pair == (pair.0, pair.1);
    }
  }

  lemma BatchIsCounted(t: Batch, conditions: seq<string>, batch: seq<string>, v: Oracle)
    requires OverTexts(t, conditions, batch, v)
    ensures |t.pendingRows| == FusedCalls(batch, conditions, Found(t.cache, |conditions|))
  {
    hide AnswersAs, Progress, AllLearnt, Requests, RowsOf, Found;
    CallsAreCounted(t.cache, conditions, batch);
  }

  // ---- batch after batch ----

  /** The cache the `i`th batch finds: empty, or what the one before it left. */
  ghost function Left(ts: seq<Batch>, i: nat): Cache
    requires i <= |ts|
  {
    if i == 0 then map[] else ts[i - 1].learnt
  }

  ghost predicate InTurn(ts: seq<Batch>, conditions: seq<string>, batches: seq<seq<string>>, v: Oracle) {
    && |ts| == |batches|
    && (forall i :: 0 <= i < |ts| ==> OverTexts(ts[i], conditions, batches[i], v))
    && (forall i {:trigger Left(ts, i)} :: 0 <= i < |ts| ==> ts[i].cache == Left(ts, i))
  }

  function Sent(ts: seq<Batch>): nat {
    if ts == [] then 0 else Sent(ts[..|ts| - 1]) + |ts[|ts| - 1].pendingRows|
  }

  lemma AllButTheLast(ts: seq<Batch>, conditions: seq<string>, batches: seq<seq<string>>, v: Oracle)
    requires InTurn(ts, conditions, batches, v) && ts != []
    ensures
      var n := |ts| - 1;
      && |batches| == n + 1 && InTurn(ts[..n], conditions, batches[..n], v) && OverTexts(ts[n], conditions, batches[n], v)
      && ts[n].cache == Left(ts[..n], n)
  {
    hide OverTexts;
    var n, earlier := |ts| - 1, ts[..|ts| - 1];
    assert forall i :: 0 <= i < n ==> earlier[i] == ts[i] && batches[..n][i] == batches[i];
    forall i | 0 <= i <= n ensures ts[i].cache == Left(earlier, i) {
      assert ts[i].cache == Left(ts, i);
    }
  }

  lemma OneMoreBatch(ts: seq<Batch>, conditions: seq<string>, batches: seq<seq<string>>, v: Oracle)
    requires ts != [] && batches != []
    ensures
      var m, n := |ts| - 1, |batches| - 1;
      && Sent(ts) == Sent(ts[..m]) + |ts[m].pendingRows| && Left(ts, |ts|) == ts[m].learnt
      && FusedTotal(batches, conditions, v)
         == FusedTotal(batches[..n], conditions, v) + FusedCalls(batches[n], conditions, FusedKnown(batches[..n], conditions, v))
      && FusedKnown(batches, conditions, v) == FusedLearns(batches[n], conditions, FusedKnown(batches[..n], conditions, v), v)
  {
    hide FusedCalls, FusedLearns;
  }

  lemma Cold(conditions: seq<string>, v: Oracle)
    ensures Sent([]) == FusedTotal([], conditions, v) && Found(Left([], 0), |conditions|) == FusedKnown([], conditions, v)
  {
    assert Found(map[], |conditions|) == {};
  }

  /** From a cold cache, the requests a fused node sends for its batches are what fusing costs, and what
      it can find afterwards is what the cost model says it knows. */
  lemma {:induction false} FusedRunIsCounted(ts: seq<Batch>, conditions: seq<string>, batches: seq<seq<string>>, v: Oracle)
    requires InTurn(ts, conditions, batches, v)
    ensures Sent(ts) == FusedTotal(batches, conditions, v)
    ensures Found(Left(ts, |ts|), |conditions|) == FusedKnown(batches, conditions, v)
  {
    if ts == [] {
      Cold(conditions, v);
      assert batches == [];
    } else {
      AllButTheLast(ts, conditions, batches, v);
      hide *;
      var n := |ts| - 1;
      FusedRunIsCounted(ts[..n], conditions, batches[..n], v);
      BatchIsCounted(ts[n], conditions, batches[n], v);
      LearningIsCounted(ts[n], conditions, batches[n], v);
      OneMoreBatch(ts, conditions, batches, v);
    }
  }
}

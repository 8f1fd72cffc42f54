/**
 What fusing saves. Conditions on one text share a call, or are stacked so that each sees
 only the rows that passed the ones before. From a cold cache fusing never costs more calls,
 whatever the batches, exactly when no text is turned away before a condition the model fails on.
 */
module FusionCost {
  import opened SelectExpr

  type Oracle = (string, string) -> Verdict

  /** The verdicts cached so far, by text and condition. Failures are never among them. */
  type Known = set<(string, string)>

  function Learnt(batch: seq<string>, condition: string, v: Oracle): (k: Known)
    ensures forall t, c :: (t, c) in k <==> t in batch && c == condition && v(t, c) != Failed
  {
    set i | 0 <= i < |batch| && v(batch[i], condition) != Failed :: (batch[i], condition)
  }

  // ---- fused: one call for every row that still lacks something ----

  predicate Lacks(text: string, conditions: seq<string>, known: Known) {
    exists i :: 0 <= i < |conditions| && (text, conditions[i]) !in known
  }

  function FusedCalls(batch: seq<string>, conditions: seq<string>, known: Known): nat {
    if batch == [] then 0
    else
      var n := |batch| - 1;
      FusedCalls(batch[..n], conditions, known) + if Lacks(batch[n], conditions, known) then 1 else 0
  }

  function FusedLearns(batch: seq<string>, conditions: seq<string>, known: Known, v: Oracle): Known {
    if conditions == [] then known
    else
      var n := |conditions| - 1;
      FusedLearns(batch, conditions[..n], known, v) + Learnt(batch, conditions[n], v)
  }

  // ---- stacked: a call for every row of every stage it reaches ----

  function StageCalls(batch: seq<string>, condition: string, known: Known): nat {
    if batch == [] then 0
    else
      var n := |batch| - 1;
      StageCalls(batch[..n], condition, known) + if (batch[n], condition) in known then 0 else 1
  }

  function Survivors(batch: seq<string>, condition: string, v: Oracle): seq<string> {
    if batch == [] then []
    else
      var n := |batch| - 1;
      Survivors(batch[..n], condition, v) + if v(batch[n], condition) == Yes then [batch[n]] else []
  }

  function StackedCalls(batch: seq<string>, specs: seq<string>, known: Known, v: Oracle): nat
    decreases |specs|
  {
    if specs == [] then 0
    else
      StageCalls(batch, specs[0], known)
      + StackedCalls(Survivors(batch, specs[0], v), specs[1..], known + Learnt(batch, specs[0], v), v)
  }

  function StackedLearns(batch: seq<string>, specs: seq<string>, known: Known, v: Oracle): Known
    decreases |specs|
  {
    if specs == [] then known
    else StackedLearns(Survivors(batch, specs[0], v), specs[1..], known + Learnt(batch, specs[0], v), v)
  }

  // ---- over a whole input, from a cold cache ----

  function FusedKnown(batches: seq<seq<string>>, conditions: seq<string>, v: Oracle): Known {
    if batches == [] then {}
    else
      var n := |batches| - 1;
      FusedLearns(batches[n], conditions, FusedKnown(batches[..n], conditions, v), v)
  }

  function FusedTotal(batches: seq<seq<string>>, conditions: seq<string>, v: Oracle): nat {
    if batches == [] then 0
    else
      var n := |batches| - 1;
      FusedTotal(batches[..n], conditions, v) + FusedCalls(batches[n], conditions, FusedKnown(batches[..n], conditions, v))
  }

  function StackedKnown(batches: seq<seq<string>>, specs: seq<string>, v: Oracle): Known {
    if batches == [] then {}
    else
      var n := |batches| - 1;
      StackedLearns(batches[n], specs, StackedKnown(batches[..n], specs, v), v)
  }

  function StackedTotal(batches: seq<seq<string>>, specs: seq<string>, v: Oracle): nat {
    if batches == [] then 0
    else
      var n := |batches| - 1;
      StackedTotal(batches[..n], specs, v) + StackedCalls(batches[n], specs, StackedKnown(batches[..n], specs, v), v)
  }

  // ---- one row's share of a stacked batch ----

  function RowCalls(text: string, specs: seq<string>, known: Known, v: Oracle): nat {
    if specs == [] then 0
    else
      (if (text, specs[0]) in known then 0 else 1)
      + if v(text, specs[0]) == Yes then RowCalls(text, specs[1..], known + {(text, specs[0])}, v) else 0
  }

  function RowsCalls(batch: seq<string>, specs: seq<string>, known: Known, v: Oracle): nat {
    if batch == [] then 0
    else
      var n := |batch| - 1;
      RowsCalls(batch[..n], specs, known, v) + RowCalls(batch[n], specs, known, v)
  }

  ghost predicate AgreeOn(text: string, a: Known, b: Known) {
    forall c :: (text, c) in a <==> (text, c) in b
  }

  lemma {:induction false} OnlyItsOwnVerdicts(text: string, specs: seq<string>, a: Known, b: Known, v: Oracle)
    requires AgreeOn(text, a, b)
    ensures RowCalls(text, specs, a, v) == RowCalls(text, specs, b, v)
  {
    if specs != [] {
      assert (text, specs[0]) in a <==> (text, specs[0]) in b;
      OnlyItsOwnVerdicts(text, specs[1..], a + {(text, specs[0])}, b + {(text, specs[0])}, v);
    }
  }

  /** One stage's calls, and the survivors' further share, row by row. */
  lemma {:induction false} StageByRow(batch: seq<string>, specs: seq<string>, known: Known, later: Known, v: Oracle)
    requires specs != []
    requires forall t, c :: t in batch && v(t, specs[0]) == Yes ==>
      ((t, c) in later <==> (t, c) in known || c == specs[0])
    ensures StageCalls(batch, specs[0], known) + RowsCalls(Survivors(batch, specs[0], v), specs[1..], later, v)
         == RowsCalls(batch, specs, known, v)
  {
    if batch != [] {
      var n, t := |batch| - 1, batch[|batch| - 1];
      assert batch == batch[..n] + [t];
      StageByRow(batch[..n], specs, known, later, v);
      if v(t, specs[0]) == Yes {
        var earlier := Survivors(batch[..n], specs[0], v);
        assert (earlier + [t])[..|earlier|] == earlier;
        assert AgreeOn(t, later, known + {(t, specs[0])});
        OnlyItsOwnVerdicts(t, specs[1..], later, known + {(t, specs[0])}, v);
      } else {
        assert Survivors(batch, specs[0], v) == Survivors(batch[..n], specs[0], v);
      }
    }
  }

  lemma {:induction false} NoSpecsNoCalls(batch: seq<string>, known: Known, v: Oracle)
    ensures RowsCalls(batch, [], known, v) == 0
  {
    if batch != [] {
      NoSpecsNoCalls(batch[..|batch| - 1], known, v);
    }
  }

  lemma {:induction false} StackedByRow(batch: seq<string>, specs: seq<string>, known: Known, v: Oracle)
    ensures StackedCalls(batch, specs, known, v) == RowsCalls(batch, specs, known, v)
    decreases |specs|
  {
    if specs == [] {
      NoSpecsNoCalls(batch, known, v);
    } else {
      var later := known + Learnt(batch, specs[0], v);
      StackedByRow(Survivors(batch, specs[0], v), specs[1..], later, v);
      StageByRow(batch, specs, known, later, v);
    }
  }

  // ---- what is known when ----

  ghost predicate Seen(batches: seq<seq<string>>, text: string) {
    exists k :: 0 <= k < |batches| && text in batches[k]
  }

  lemma {:induction false} FusedLearnsAll(batch: seq<string>, conditions: seq<string>, known: Known, v: Oracle, t: string, c: string)
    ensures (t, c) in FusedLearns(batch, conditions, known, v) <==>
            (t, c) in known || (t in batch && c in conditions && v(t, c) != Failed)
  {
    if conditions != [] {
      var n := |conditions| - 1;
      FusedLearnsAll(batch, conditions[..n], known, v, t, c);
      assert conditions == conditions[..n] + [conditions[n]];
    }
  }

  lemma SeenLater(batches: seq<seq<string>>, text: string)
    requires batches != []
    ensures Seen(batches, text) <==> Seen(batches[..|batches| - 1], text) || text in batches[|batches| - 1]
  {
    var n := |batches| - 1;
    if Seen(batches[..n], text) {
      var k :| 0 <= k < n && text in batches[..n][k];
      assert text in batches[k];
    }
    if k :| 0 <= k < |batches| && text in batches[k] {
      assert k < n ==> text in batches[..n][k];
    }
  }

  /** Fused, every condition of every text seen is known unless the model fails on it. */
  lemma {:induction false} FusedKnows(batches: seq<seq<string>>, conditions: seq<string>, v: Oracle, t: string, c: string)
    ensures (t, c) in FusedKnown(batches, conditions, v) <==> Seen(batches, t) && c in conditions && v(t, c) != Failed
  {
    if batches != [] {
      var n := |batches| - 1;
      FusedKnows(batches[..n], conditions, v, t, c);
      SeenLater(batches, t);
      FusedLearnsAll(batches[n], conditions, FusedKnown(batches[..n], conditions, v), v, t, c);
    }
  }

  lemma {:induction false} SurvivorsAreFromBatch(batch: seq<string>, condition: string, v: Oracle, t: string)
    ensures t in Survivors(batch, condition, v) <==> t in batch && v(t, condition) == Yes
  {
    if batch != [] {
      var n := |batch| - 1;
      assert batch == batch[..n] + [batch[n]];
      SurvivorsAreFromBatch(batch[..n], condition, v, t);
    }
  }

  lemma {:induction false} StackedLearnsTruth(batch: seq<string>, specs: seq<string>, known: Known, v: Oracle, t: string, c: string)
    ensures (t, c) in StackedLearns(batch, specs, known, v) ==> (t, c) in known || (t in batch && v(t, c) != Failed)
    ensures (t, c) in known ==> (t, c) in StackedLearns(batch, specs, known, v)
    decreases |specs|
  {
    if specs != [] {
      SurvivorsAreFromBatch(batch, specs[0], v, t);
      StackedLearnsTruth(Survivors(batch, specs[0], v), specs[1..], known + Learnt(batch, specs[0], v), v, t, c);
    }
  }

  lemma {:induction false} StackedKnowsSeen(batches: seq<seq<string>>, specs: seq<string>, v: Oracle, t: string, c: string)
    ensures (t, c) in StackedKnown(batches, specs, v) ==> Seen(batches, t) && v(t, c) != Failed
  {
    if batches != [] {
      var n := |batches| - 1;
      StackedKnowsSeen(batches[..n], specs, v, t, c);
      SeenLater(batches, t);
      StackedLearnsTruth(batches[n], specs, StackedKnown(batches[..n], specs, v), v, t, c);
    }
  }

  // ---- when fusing never costs more ----

  predicate SomeFails(text: string, specs: seq<string>, v: Oracle) {
    exists i :: 0 <= i < |specs| && v(text, specs[i]) == Failed
  }

  /** The first condition the text does not pass is one the model fails on. */
  predicate FailsFirst(text: string, specs: seq<string>, v: Oracle) {
    specs != [] && (v(text, specs[0]) == Failed || (v(text, specs[0]) == Yes && FailsFirst(text, specs[1..], v)))
  }

  /** No text is turned away before reaching a condition the model fails on. */
  ghost predicate FailuresComeFirst(specs: seq<string>, v: Oracle) {
    forall text {:trigger FailsFirst(text, specs, v)} :: SomeFails(text, specs, v) ==> FailsFirst(text, specs, v)
  }

  lemma {:induction false} FailurePays(text: string, specs: seq<string>, known: Known, v: Oracle)
    requires FailsFirst(text, specs, v) && forall c :: (text, c) in known ==> v(text, c) != Failed
    ensures RowCalls(text, specs, known, v) >= 1
  {
    if v(text, specs[0]) == Yes {
      FailurePays(text, specs[1..], known + {(text, specs[0])}, v);
    }
  }

  lemma {:induction false} RowsPay(
    batch: seq<string>, specs: seq<string>, conditions: seq<string>, fused: Known, stacked: Known, v: Oracle)
    requires forall t :: t in batch && Lacks(t, conditions, fused) ==> RowCalls(t, specs, stacked, v) >= 1
    ensures FusedCalls(batch, conditions, fused) <= RowsCalls(batch, specs, stacked, v)
  {
    if batch != [] {
      var n := |batch| - 1;
      assert batch == batch[..n] + [batch[n]];
      RowsPay(batch[..n], specs, conditions, fused, stacked, v);
    }
  }

  ghost predicate SameConditions(specs: seq<string>, conditions: seq<string>) {
    forall c :: c in specs <==> c in conditions
  }

  /** Where fusing pays for a row, so does stacking. */
  lemma RowPays(batches: seq<seq<string>>, specs: seq<string>, conditions: seq<string>, v: Oracle, t: string)
    requires specs != [] && SameConditions(specs, conditions) && FailuresComeFirst(specs, v)
    requires Lacks(t, conditions, FusedKnown(batches, conditions, v))
    ensures RowCalls(t, specs, StackedKnown(batches, specs, v), v) >= 1
  {
    var i :| 0 <= i < |conditions| && (t, conditions[i]) !in FusedKnown(batches, conditions, v);
    assert conditions[i] in conditions && conditions[i] in specs;
    FusedKnows(batches, conditions, v, t, conditions[i]);
    if Seen(batches, t) {
      var j :| 0 <= j < |specs| && specs[j] == conditions[i];
      assert v(t, specs[j]) == Failed;
      assert SomeFails(t, specs, v) && FailsFirst(t, specs, v);
      forall c | (t, c) in StackedKnown(batches, specs, v) ensures v(t, c) != Failed {
        StackedKnowsSeen(batches, specs, v, t, c);
      }
      FailurePays(t, specs, StackedKnown(batches, specs, v), v);
    } else {
      StackedKnowsSeen(batches, specs, v, t, specs[0]);
    }
  }

  lemma {:induction false} FusingIsNoDearer(batches: seq<seq<string>>, specs: seq<string>, conditions: seq<string>, v: Oracle)
    requires specs != [] && SameConditions(specs, conditions) && FailuresComeFirst(specs, v)
    ensures FusedTotal(batches, conditions, v) <= StackedTotal(batches, specs, v)
  {
    if batches != [] {
      var n := |batches| - 1;
      FusingIsNoDearer(batches[..n], specs, conditions, v);
      var fused, stacked := FusedKnown(batches[..n], conditions, v), StackedKnown(batches[..n], specs, v);
      forall t | t in batches[n] && Lacks(t, conditions, fused) ensures RowCalls(t, specs, stacked, v) >= 1 {
        RowPays(batches[..n], specs, conditions, v, t);
      }
      RowsPay(batches[n], specs, conditions, fused, stacked, v);
      StackedByRow(batches[n], specs, stacked, v);
    }
  }

  // ---- and when it can ----

  /** The same text, batch after batch. */
  function Repeated(text: string, times: nat): (b: seq<seq<string>>)
    ensures |b| == times && forall k :: 0 <= k < times ==> b[k] == [text]
  {
    if times == 0 then [] else Repeated(text, times - 1) + [[text]]
  }

  /** The text is turned away, and everything up to there is known. */
  predicate Remembered(text: string, specs: seq<string>, known: Known, v: Oracle) {
    specs != [] && (text, specs[0]) in known
    && (v(text, specs[0]) == No || (v(text, specs[0]) == Yes && Remembered(text, specs[1..], known, v)))
  }

  predicate TurnedAway(text: string, specs: seq<string>, v: Oracle) {
    specs != [] && (v(text, specs[0]) == No || (v(text, specs[0]) == Yes && TurnedAway(text, specs[1..], v)))
  }

  lemma {:induction false} TurnedAwayOrNot(text: string, specs: seq<string>, v: Oracle)
    requires SomeFails(text, specs, v) && !FailsFirst(text, specs, v)
    ensures TurnedAway(text, specs, v)
  {
    var i :| 0 <= i < |specs| && v(text, specs[i]) == Failed;
    if v(text, specs[0]) == Yes {
      assert specs[1..][i - 1] == specs[i];
      TurnedAwayOrNot(text, specs[1..], v);
    }
  }

  lemma {:induction false} RememberedIsFree(text: string, specs: seq<string>, known: Known, v: Oracle)
    requires Remembered(text, specs, known, v)
    ensures RowCalls(text, specs, known, v) == 0
  {
    if v(text, specs[0]) == Yes {
      assert known + {(text, specs[0])} == known;
      RememberedIsFree(text, specs[1..], known, v);
    }
  }

  lemma {:induction false} RememberedStays(text: string, specs: seq<string>, known: Known, more: Known, v: Oracle)
    requires Remembered(text, specs, known, v) && known <= more
    ensures Remembered(text, specs, more, v)
  {
    if v(text, specs[0]) == Yes {
      RememberedStays(text, specs[1..], known, more, v);
    }
  }

  lemma {:induction false} RowCallsAtMost(text: string, specs: seq<string>, known: Known, v: Oracle)
    ensures RowCalls(text, specs, known, v) <= |specs|
  {
    if specs != [] {
      RowCallsAtMost(text, specs[1..], known + {(text, specs[0])}, v);
    }
  }

  lemma {:induction false} OnceIsEnough(text: string, specs: seq<string>, known: Known, v: Oracle)
    requires TurnedAway(text, specs, v)
    ensures Remembered(text, specs, StackedLearns([text], specs, known, v), v)
  {
    var later := known + Learnt([text], specs[0], v);
    var rest := Survivors([text], specs[0], v);
    var final := StackedLearns([text], specs, known, v);
    assert [text][..0] == [];
    assert text in [text];
    StackedLearnsTruth(rest, specs[1..], later, v, text, specs[0]);
    if v(text, specs[0]) == Yes {
      assert Survivors([], specs[0], v) == [] && rest == [] + [text];
      OnceIsEnough(text, specs[1..], later, v);
    }
  }

  lemma KnownGrows(batch: seq<string>, specs: seq<string>, known: Known, v: Oracle)
    ensures known <= StackedLearns(batch, specs, known, v)
  {
    forall p | p in known ensures p in StackedLearns(batch, specs, known, v) {
      StackedLearnsTruth(batch, specs, known, v, p.0, p.1);
    }
  }

  lemma {:induction false} StackedPaysOnce(text: string, specs: seq<string>, times: nat, v: Oracle)
    requires TurnedAway(text, specs, v)
    ensures StackedTotal(Repeated(text, times), specs, v) <= |specs|
    ensures times > 0 ==> Remembered(text, specs, StackedKnown(Repeated(text, times), specs, v), v)
  {
    if times > 0 {
      var batches := Repeated(text, times);
      assert batches[..times - 1] == Repeated(text, times - 1) && batches[times - 1] == [text];
      StackedPaysOnce(text, specs, times - 1, v);
      var known := StackedKnown(batches[..times - 1], specs, v);
      StackedByRow([text], specs, known, v);
      assert [text][..0] == [];
      assert RowsCalls([text], specs, known, v) == RowCalls(text, specs, known, v);
      if times == 1 {
        RowCallsAtMost(text, specs, known, v);
        OnceIsEnough(text, specs, known, v);
      } else {
        RememberedIsFree(text, specs, known, v);
        KnownGrows([text], specs, known, v);
        RememberedStays(text, specs, known, StackedLearns([text], specs, known, v), v);
      }
    }
  }

  lemma {:induction false} FusedPaysEachTime(text: string, conditions: seq<string>, times: nat, v: Oracle)
    requires SomeFails(text, conditions, v)
    ensures FusedTotal(Repeated(text, times), conditions, v) == times
  {
    if times > 0 {
      var batches := Repeated(text, times);
      assert batches[..times - 1] == Repeated(text, times - 1) && batches[times - 1] == [text];
      FusedPaysEachTime(text, conditions, times - 1, v);
      var i :| 0 <= i < |conditions| && v(text, conditions[i]) == Failed;
      var known := FusedKnown(batches[..times - 1], conditions, v);
      FusedKnows(batches[..times - 1], conditions, v, text, conditions[i]);
      assert [text][..0] == [] && FusedCalls([], conditions, known) == 0;
      assert Lacks(text, conditions, known);
    }
  }

  ghost predicate NeverDearer(specs: seq<string>, conditions: seq<string>, v: Oracle) {
    forall batches {:trigger FusedTotal(batches, conditions, v)} ::
      FusedTotal(batches, conditions, v) <= StackedTotal(batches, specs, v)
  }

  /** Fusing never costs more calls than stacking, on any batches at all, if and only if no text
      is turned away before a condition the model fails on. */
  lemma FusingIsNeverDearerIff(specs: seq<string>, conditions: seq<string>, v: Oracle)
    requires specs != [] && SameConditions(specs, conditions)
    ensures NeverDearer(specs, conditions, v) <==> FailuresComeFirst(specs, v)
  {
    if FailuresComeFirst(specs, v) {
      forall batches ensures FusedTotal(batches, conditions, v) <= StackedTotal(batches, specs, v) {
        FusingIsNoDearer(batches, specs, conditions, v);
      }
    } else {
      var text :| SomeFails(text, specs, v) && !FailsFirst(text, specs, v);
      var i :| 0 <= i < |specs| && v(text, specs[i]) == Failed;
      assert specs[i] in conditions;
      TurnedAwayOrNot(text, specs, v);
      var batches := Repeated(text, |specs| + 1);
      StackedPaysOnce(text, specs, |specs| + 1, v);
      FusedPaysEachTime(text, conditions, |specs| + 1, v);
      assert FusedTotal(batches, conditions, v) > StackedTotal(batches, specs, v);
    }
  }

  // ---- what the batches alone decide ----

  ghost predicate RecursAt(batches: seq<seq<string>>, k: nat)
    requires k < |batches|
  {
    exists t :: t in batches[k] && Seen(batches[..k], t)
  }

  /** Some text is met again in a later batch. */
  ghost predicate Recurs(batches: seq<seq<string>>) {
    exists k :: 0 <= k < |batches| && RecursAt(batches, k)
  }

  lemma RecursLater(batches: seq<seq<string>>, n: nat, t: string)
    requires |batches| == n + 1 && !Recurs(batches)
    ensures !Recurs(batches[..n])
    ensures t in batches[n] ==> !Seen(batches[..n], t)
  {
    forall k | 0 <= k < n ensures !RecursAt(batches[..n], k) {
      assert batches[..n][..k] == batches[..k] && !RecursAt(batches, k);
    }
    assert !RecursAt(batches, n);
  }

  /** A text met for the first time costs at least one stacked call, and no more than one fused. */
  lemma {:induction false} NewTextsPay(batches: seq<seq<string>>, specs: seq<string>, conditions: seq<string>, v: Oracle)
    requires specs != [] && !Recurs(batches)
    ensures FusedTotal(batches, conditions, v) <= StackedTotal(batches, specs, v)
  {
    if batches != [] {
      var n := |batches| - 1;
      RecursLater(batches, n, "");
      NewTextsPay(batches[..n], specs, conditions, v);
      var fused, stacked := FusedKnown(batches[..n], conditions, v), StackedKnown(batches[..n], specs, v);
      forall t | t in batches[n] ensures RowCalls(t, specs, stacked, v) >= 1 {
        RecursLater(batches, n, t);
        StackedKnowsSeen(batches[..n], specs, v, t, specs[0]);
      }
      RowsPay(batches[n], specs, conditions, fused, stacked, v);
      StackedByRow(batches[n], specs, stacked, v);
    }
  }

  /** The model says no to the first condition and fails on every other. */
  function TurnsAwayThenFails(first: string): Oracle {
    (text, condition) => if condition == first then No else Failed
  }

  function Rows(batches: seq<seq<string>>): nat {
    if batches == [] then 0 else Rows(batches[..|batches| - 1]) + |batches[|batches| - 1]|
  }

  lemma {:induction false} EveryRowLacks(batch: seq<string>, conditions: seq<string>, known: Known)
    requires forall t :: t in batch ==> Lacks(t, conditions, known)
    ensures FusedCalls(batch, conditions, known) == |batch|
  {
    if batch != [] {
      var n := |batch| - 1;
      assert batch == batch[..n] + [batch[n]];
      EveryRowLacks(batch[..n], conditions, known);
    }
  }

  lemma {:induction false} FusedPaysForEveryRow(batches: seq<seq<string>>, conditions: seq<string>, i: nat, v: Oracle)
    requires i < |conditions| && forall t :: v(t, conditions[i]) == Failed
    ensures FusedTotal(batches, conditions, v) == Rows(batches)
  {
    if batches != [] {
      var n := |batches| - 1;
      FusedPaysForEveryRow(batches[..n], conditions, i, v);
      var known := FusedKnown(batches[..n], conditions, v);
      forall t | t in batches[n] ensures Lacks(t, conditions, known) {
        FusedKnows(batches[..n], conditions, v, t, conditions[i]);
      }
      EveryRowLacks(batches[n], conditions, known);
    }
  }

  /** Turned away at once, a text costs a stack one call if it is new and none if it is not. */
  lemma {:induction false} StackedPaysForNewRows(batch: seq<string>, specs: seq<string>, known: Known, t: string)
    requires specs != []
    ensures
      var calls := RowsCalls(batch, specs, known, TurnsAwayThenFails(specs[0]));
      calls <= |batch| && (t in batch && (t, specs[0]) in known ==> calls < |batch|)
  {
    if batch != [] {
      var n := |batch| - 1;
      assert batch == batch[..n] + [batch[n]];
      StackedPaysForNewRows(batch[..n], specs, known, t);
    }
  }

  lemma {:induction false} TurnedAwayIsKnown(batches: seq<seq<string>>, specs: seq<string>, t: string)
    requires specs != [] && Seen(batches, t)
    ensures (t, specs[0]) in StackedKnown(batches, specs, TurnsAwayThenFails(specs[0]))
  {
    var n, v := |batches| - 1, TurnsAwayThenFails(specs[0]);
    var known := StackedKnown(batches[..n], specs, v);
    SeenLater(batches, t);
    if t in batches[n] {
      var later := known + Learnt(batches[n], specs[0], v);
      assert (t, specs[0]) in later;
      StackedLearnsTruth(Survivors(batches[n], specs[0], v), specs[1..], later, v, t, specs[0]);
    } else {
      TurnedAwayIsKnown(batches[..n], specs, t);
      StackedLearnsTruth(batches[n], specs, known, v, t, specs[0]);
    }
  }

  lemma {:induction false} StackedSkipsWhatRecurs(batches: seq<seq<string>>, specs: seq<string>)
    requires specs != []
    ensures
      var calls := StackedTotal(batches, specs, TurnsAwayThenFails(specs[0]));
      calls <= Rows(batches) && (Recurs(batches) ==> calls < Rows(batches))
  {
    if batches != [] {
      var n, v := |batches| - 1, TurnsAwayThenFails(specs[0]);
      var known := StackedKnown(batches[..n], specs, v);
      StackedSkipsWhatRecurs(batches[..n], specs);
      StackedByRow(batches[n], specs, known, v);
      StackedPaysForNewRows(batches[n], specs, known, specs[0]);
      if t :| t in batches[n] && Seen(batches[..n], t) {
        TurnedAwayIsKnown(batches[..n], specs, t);
        StackedPaysForNewRows(batches[n], specs, known, t);
      } else if Recurs(batches) {
        var k :| 0 <= k < |batches| && RecursAt(batches, k);
        assert k < n && batches[..n][..k] == batches[..k];
        assert RecursAt(batches[..n], k);
      }
    }
  }

  ghost predicate NeverDearerOn(batches: seq<seq<string>>, specs: seq<string>, conditions: seq<string>) {
    forall v: Oracle {:trigger FusedTotal(batches, conditions, v)} ::
      FusedTotal(batches, conditions, v) <= StackedTotal(batches, specs, v)
  }

  /** Seen from the input: a fusable group costs no more calls than its stack whatever the model
      answers, if and only if no text is met again in a later batch. */
  lemma FusingTheseBatchesIsNeverDearerIff(batches: seq<seq<string>>, specs: seq<string>, conditions: seq<string>)
    requires SameConditions(specs, conditions) && exists i, j :: 0 <= i < j < |specs| && specs[i] != specs[j]
    ensures NeverDearerOn(batches, specs, conditions) <==> !Recurs(batches)
  {
    if Recurs(batches) {
      var v := TurnsAwayThenFails(specs[0]);
      var i :| 0 <= i < |specs| && specs[i] != specs[0];
      assert specs[i] in conditions;
      var j :| 0 <= j < |conditions| && conditions[j] == specs[i];
      FusedPaysForEveryRow(batches, conditions, j, v);
      StackedSkipsWhatRecurs(batches, specs);
      assert FusedTotal(batches, conditions, v) > StackedTotal(batches, specs, v);
    } else {
      forall v: Oracle ensures FusedTotal(batches, conditions, v) <= StackedTotal(batches, specs, v) {
        NewTextsPay(batches, specs, conditions, v);
      }
    }
  }
}

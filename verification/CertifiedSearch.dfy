/**
 Why the certified search tests each candidate at its share of the allowed error: one sample both scores
 the candidates and chooses among them, and even so a bad floor is chosen no more often than allowed.
 */
module CertifiedSearch {
  import opened Wilson
  import opened Calibrate

  /** One way the sample could have come out, and how likely that is. */
  datatype Possible = Possible(scores: SampledScores, weight: real)

  type Event = SampledScores -> bool

  ghost predicate Weighted(ps: seq<Possible>) {
    forall i :: 0 <= i < |ps| ==> ps[i].weight >= 0.0
  }

  /** How likely an event is. */
  function Weight(ps: seq<Possible>, event: Event): real {
    if ps == [] then 0.0
    else
      var n := |ps| - 1;
      Weight(ps[..n], event) + if event(ps[n].scores) then ps[n].weight else 0.0
  }

  function Always(): Event {
    _ => true
  }

  /** A candidate that should not be certified, and is. */
  predicate Wrong(m: Numerics, target: real, alpha: real, bad: real -> bool, c: real, s: SampledScores) {
    bad(c) && Certifies(m, target, alpha, At(c), s)
  }

  ghost predicate SomeWrong(m: Numerics, target: real, alpha: real, bad: real -> bool, cs: set<real>, s: SampledScores) {
    exists c :: c in cs && Wrong(m, target, alpha, bad, c, s)
  }

  function CertifiesWrongly(m: Numerics, target: real, alpha: real, bad: real -> bool, c: real): Event {
    s => Wrong(m, target, alpha, bad, c, s)
  }

  ghost function CertifiesSomeWrongly(m: Numerics, target: real, alpha: real, bad: real -> bool, cs: set<real>): Event {
    s => SomeWrong(m, target, alpha, bad, cs, s)
  }

  /** The floor that was picked is a bad one. */
  function PicksBadly(floorOf: SampledScores -> Floor, bad: real -> bool): Event {
    s => floorOf(s).At? && bad(floorOf(s).score)
  }

  lemma {:induction false} WeightOfNothing(ps: seq<Possible>, event: Event)
    requires forall i :: 0 <= i < |ps| ==> !event(ps[i].scores)
    ensures Weight(ps, event) == 0.0
  {
    if ps != [] {
      WeightOfNothing(ps[..|ps| - 1], event);
    }
  }

  lemma {:induction false} WeightOfEither(ps: seq<Possible>, either: Event, one: Event, other: Event)
    requires Weighted(ps) && forall i :: 0 <= i < |ps| && either(ps[i].scores) ==> one(ps[i].scores) || other(ps[i].scores)
    ensures Weight(ps, either) <= Weight(ps, one) + Weight(ps, other)
  {
    if ps != [] {
      WeightOfEither(ps[..|ps| - 1], either, one, other);
    }
  }

  lemma {:induction false} WeightOfSubset(ps: seq<Possible>, one: Event, more: Event)
    requires Weighted(ps) && forall i :: 0 <= i < |ps| && one(ps[i].scores) ==> more(ps[i].scores)
    ensures Weight(ps, one) <= Weight(ps, more)
  {
    if ps != [] {
      WeightOfSubset(ps[..|ps| - 1], one, more);
    }
  }

  lemma OneLessOrTheRest(m: Numerics, target: real, alpha: real, bad: real -> bool, cs: set<real>, c: real, s: SampledScores)
    requires SomeWrong(m, target, alpha, bad, cs, s)
    ensures Wrong(m, target, alpha, bad, c, s) || SomeWrong(m, target, alpha, bad, cs - {c}, s)
  {
    assert exists d :: d in cs && Wrong(m, target, alpha, bad, d, s);
    var d :| d in cs && Wrong(m, target, alpha, bad, d, s);
    assert d == c || d in cs - {c};
  }

  lemma SomeElement(cs: set<real>) returns (c: real)
    requires cs != {}
    ensures c in cs
  {
    if forall x: real :: x !in cs {
      assert false;
    }
    c :| c in cs;
  }

  lemma OneMoreShare(n: nat, share: real)
    requires n > 0
    ensures n as real * share == (n - 1) as real * share + share
  {
    assert n as real == (n - 1) as real + 1.0;
  }

  lemma {:induction false} SharesAddUp(
    ps: seq<Possible>, m: Numerics, target: real, alpha: real, bad: real -> bool, cs: set<real>, share: real)
    requires Weighted(ps) && forall c :: c in cs ==> Weight(ps, CertifiesWrongly(m, target, alpha, bad, c)) <= share
    ensures Weight(ps, CertifiesSomeWrongly(m, target, alpha, bad, cs)) <= |cs| as real * share
    decreases |cs|
  {
    hide Wrong, Weight;
    var all := CertifiesSomeWrongly(m, target, alpha, bad, cs);
    if cs == {} {
      WeightOfNothing(ps, all);
    } else {
      var c := SomeElement(cs);
      var one, rest := CertifiesWrongly(m, target, alpha, bad, c), CertifiesSomeWrongly(m, target, alpha, bad, cs - {c});
      SharesAddUp(ps, m, target, alpha, bad, cs - {c}, share);
      forall i | 0 <= i < |ps| && all(ps[i].scores) ensures one(ps[i].scores) || rest(ps[i].scores) {
        OneLessOrTheRest(m, target, alpha, bad, cs, c, ps[i].scores);
      }
      WeightOfEither(ps, all, one, rest);
      OneMoreShare(|cs|, share);
    }
  }

  lemma PickedWasCertified(
    m: Numerics, target: real, confidence: real, bad: real -> bool, s: SampledScores, floorOf: SampledScores -> Floor)
    requires Candidates(s) != {} && HighestCertified(m, target, confidence, s, floorOf(s)) && PicksBadly(floorOf, bad)(s)
    ensures CertifiesSomeWrongly(m, target, (1.0 - confidence) / |Candidates(s)| as real, bad, Candidates(s))(s)
  {
    var alpha, c := (1.0 - confidence) / |Candidates(s)| as real, floorOf(s).score;
    assert Wrong(m, target, alpha, bad, c, s);
  }

  lemma WholeOfShares(allowed: real, n: nat, alpha: real, total: real, weight: real)
    requires n > 0 && alpha == allowed / n as real && weight <= n as real * (alpha * total)
    ensures weight <= allowed * total
  {
    assert n as real * alpha == allowed;
    assert n as real * (alpha * total) == (n as real * alpha) * total;
  }

  /** No candidate is certified wrongly more often than this. */
  ghost predicate EachErrsAtMost(ps: seq<Possible>, m: Numerics, target: real, alpha: real, bad: real -> bool, cs: set<real>, share: real) {
    forall c :: c in cs ==> Weight(ps, CertifiesWrongly(m, target, alpha, bad, c)) <= share
  }

  /** Every sample has these candidates, and its floor is what the search makes of it. */
  ghost predicate Searched(
    ps: seq<Possible>, m: Numerics, target: real, confidence: real, candidates: set<real>, floorOf: SampledScores -> Floor)
  {
    forall i :: 0 <= i < |ps| ==>
      Candidates(ps[i].scores) == candidates && HighestCertified(m, target, confidence, ps[i].scores, floorOf(ps[i].scores))
  }

  lemma PicksInShares(
    ps: seq<Possible>, m: Numerics, target: real, confidence: real, bad: real -> bool, candidates: set<real>,
    floorOf: SampledScores -> Floor, alpha: real, share: real)
    requires Weighted(ps) && candidates != {} && alpha == (1.0 - confidence) / |candidates| as real
    requires Searched(ps, m, target, confidence, candidates, floorOf)
    requires EachErrsAtMost(ps, m, target, alpha, bad, candidates, share)
    ensures Weight(ps, PicksBadly(floorOf, bad)) <= |candidates| as real * share
  {
    var picks, some := PicksBadly(floorOf, bad), CertifiesSomeWrongly(m, target, alpha, bad, candidates);
    hide HighestCertified, Candidates, Weight, Wrong, SomeWrong;
    forall i | 0 <= i < |ps| && picks(ps[i].scores) ensures some(ps[i].scores) {
      PickedWasCertified(m, target, confidence, bad, ps[i].scores, floorOf);
    }
    WeightOfSubset(ps, picks, some);
    SharesAddUp(ps, m, target, alpha, bad, candidates, share);
  }

  /** Whatever the ways the sample could come out over the same candidates, and whichever floors are bad:
      if each candidate is certified wrongly no more often than its share of the allowed error, the floor
      the search picks is a bad one no more often than the whole of it. */
  lemma SearchErrsRarely(
    ps: seq<Possible>, m: Numerics, target: real, confidence: real, bad: real -> bool, candidates: set<real>,
    floorOf: SampledScores -> Floor, alpha: real, share: real)
    requires Weighted(ps) && candidates != {} && Searched(ps, m, target, confidence, candidates, floorOf)
    requires alpha == (1.0 - confidence) / |candidates| as real && share == alpha * Weight(ps, Always())
    requires EachErrsAtMost(ps, m, target, alpha, bad, candidates, share)
    ensures Weight(ps, PicksBadly(floorOf, bad)) <= (1.0 - confidence) * Weight(ps, Always())
  {
    hide *;
    PicksInShares(ps, m, target, confidence, bad, candidates, floorOf, alpha, share);
    WholeOfShares(1.0 - confidence, |candidates|, alpha, Weight(ps, Always()), Weight(ps, PicksBadly(floorOf, bad)));
  }
}

/** The context-similarity strategy (`eu_context_sim_document_planner.py`): the most newsworthy
    message as nucleus, a looser relative threshold for the second paragraph, and satellites chosen
    greedily from one pool after weighting each candidate by how much of its value type it shares
    with the previous message and with the nucleus, and by its location and time. The module's
    constants have the values of the full strategy's, which the model reuses. */
module ContextSimPlanner {
  import opened Wrappers
  import opened Text
  import opened Models
  import opened Ranking
  import opened DocumentPlanner
  import F = FullPlanner

  // ---------------------------------------------------------------- nucleus and thresholds

  /** `_select_next_nucleus`, which the early-stop and score-only strategies carry unchanged: no
      nucleus once three exist or when the pool is empty, else the first message of highest score.
      The sort works on a copy, so the pool comes back as it was. */
  function TopNucleus(pool: seq<Message>, nuclei: seq<Message>): (r: Result<NucleusPick>)
    ensures r.Ok? && r.value.pool == pool
  {
    if |nuclei| >= F.MaxParagraphs || pool == [] then Ok(NucleusPick(None, 0.0, pool))
    else Ok(NucleusPick(Some(SortByScore(pool)[0]), SortByScore(pool)[0].score, pool))
  }

  /** The pick is absent exactly when three nuclei exist or the pool is empty; otherwise it is the
      first message of highest score, with its own score. */
  lemma TopNucleusMeaning(pool: seq<Message>, nuclei: seq<Message>)
    ensures var p := TopNucleus(pool, nuclei).value;
      (p.nucleus.None? <==> |nuclei| >= F.MaxParagraphs || pool == [])
      && (p.nucleus.Some? ==> pool != [] && p.nucleus.value == pool[FirstMax(pool, Score)] && p.score == p.nucleus.value.score)
  {
    if pool != [] {
      SortDescHead(pool, Score);
    }
  }

  lemma TopNucleusSound()
    ensures Stops(TopNucleus, F.MaxParagraphs)
    ensures NucleusSound(TopNucleus)
  {
    forall pool, nuclei | TopNucleus(pool, nuclei).Ok? && TopNucleus(pool, nuclei).value.nucleus.Some?
      ensures TopNucleus(pool, nuclei).value.nucleus.value in pool
           && multiset(TopNucleus(pool, nuclei).value.pool) == multiset(pool)
    {
      TopNucleusMeaning(pool, nuclei);
    }
  }

  /** `_new_paragraph_relative_threshold` (the early-stop strategy's too): any score opens the first
      paragraph, a tenth of the first nucleus' score opens the second, three tenths the later ones. */
  function RelativeThreshold(nuclei: seq<Message>): (t: Threshold)
    ensures t.NegInf? <==> nuclei == []
  {
    if nuclei == [] then NegInf
    else if |nuclei| == 1 then Finite(0.1 * nuclei[0].score)
    else Finite(0.3 * nuclei[0].score)
  }

  /** The second paragraph is the easiest to open: a score that is too low for it is too low for
      every later one, when the first nucleus' score is not negative. */
  lemma SecondParagraphLoosest(first: Message, second: Message, later: seq<Message>, s: real)
    requires first.score >= 0.0 && Below(s, RelativeThreshold([first]))
    ensures Below(s, RelativeThreshold([first, second] + later))
  {
    assert ([first, second] + later)[0] == first;
  }

  // ---------------------------------------------------------------- analysis weighting

  /** `_weigh_by_analysis_similarity` as written: the prefix rounds only. After the last round
      `unprocessed` has already been reset, so the final `extend` adds nothing and the candidates
      that share no prefix with the reference are lost. */
  function AnalysisAsWritten(ps: seq<F.Scored>, reference: Message): seq<F.Scored> {
    F.Rounds(ps, F.Fragments(reference), 0)
  }

  lemma {:induction false} MatchingShares(ps: seq<F.Scored>, prefix: string, n: nat)
    ensures forall q :: q in F.Matching(ps, prefix, n) ==> StartsWith(q.message.mainFact.valueType, prefix)
    decreases |ps|
  {
    if ps != [] {
      MatchingShares(ps[1..], prefix, n);
    }
  }

  /** Every prefix of one or more fragments starts with the first fragment. */
  lemma PrefixStartsWithFirst(frags: seq<string>, k: nat)
    requires 1 <= k <= |frags|
    ensures StartsWith(F.PrefixOf(frags, k), F.PrefixOf(frags, 1))
  {
    JoinPrefix(":", frags[..k], 1);
    assert frags[..k][..1] == frags[..1];
  }

  lemma {:induction false} RoundsShareFirst(ps: seq<F.Scored>, frags: seq<string>, n: nat)
    requires 1 <= |frags| && n <= |frags|
    ensures forall q :: q in F.Rounds(ps, frags, n) ==> StartsWith(q.message.mainFact.valueType, F.PrefixOf(frags, 1))
    decreases |frags| - n
  {
    if n < |frags| {
      hide StartsWith, F.PrefixOf, F.Matching, F.Unmatched;
      var prefix := F.PrefixOf(frags, |frags| - n);
      assert F.Rounds(ps, frags, n) == F.Matching(ps, prefix, n) + F.Rounds(F.Unmatched(ps, prefix), frags, n + 1);
      MatchingShares(ps, prefix, n);
      PrefixStartsWithFirst(frags, |frags| - n);
      RoundsShareFirst(F.Unmatched(ps, prefix), frags, n + 1);
      forall q | q in F.Matching(ps, prefix, n) ensures StartsWith(q.message.mainFact.valueType, F.PrefixOf(frags, 1)) {
        StartsWithTrans(q.message.mainFact.valueType, prefix, F.PrefixOf(frags, 1));
      }
    }
  }

  /** As written, a candidate comes out only if its value type starts with the reference's first
      fragment; every other candidate is dropped. */
  lemma AnalysisAsWrittenDrops(ps: seq<F.Scored>, reference: Message)
    ensures forall q :: q in AnalysisAsWritten(ps, reference) ==>
      StartsWith(q.message.mainFact.valueType, F.Fragments(reference)[0])
  {
    var frags := F.Fragments(reference);
    RoundsShareFirst(ps, frags, 0);
    assert F.PrefixOf(frags, 1) == frags[0];
  }

  /** The fragments of "a:b". */
  lemma FragmentsAB(reference: Message)
    requires reference.mainFact.valueType == "a:b"
    ensures F.Fragments(reference) == ["a", "b"]
  {
    var s := reference.mainFact.valueType;
    assert IndexOfChar(s, ':') == 1 by {
      assert s[0] != ':' && s[1] == ':';
    }
    assert s[..1] == "a" && s[2..] == "b";
    assert SplitOn("b", ':') == ["b"];
  }

  /** A reference of value type "a:b" and one candidate of value type "c": the weighting as written
      returns nothing, the corrected one keeps the candidate with weight 0. */
  lemma DroppedCandidate(w: real, m: Message, reference: Message)
    requires reference.mainFact.valueType == "a:b" && m.mainFact.valueType == "c"
    ensures AnalysisAsWritten([F.Scored(w, m)], reference) == []
    ensures WeighByAnalysis([F.Scored(w, m)], reference) == [F.Scored(0.0, m)]
  {
    var ps := [F.Scored(w, m)];
    var frags := F.Fragments(reference);
    FragmentsAB(reference);
    assert F.PrefixOf(frags, 2) == "a:b";
    assert F.PrefixOf(frags, 1) == "a";
    assert !StartsWith("c", "a:b") && !StartsWith("c", "a");
    assert F.Matching(ps, "a:b", 0) == [] && F.Unmatched(ps, "a:b") == ps;
    assert F.Matching(ps, "a", 1) == [] && F.Unmatched(ps, "a") == ps;
    assert F.Rounds(ps, frags, 2) == [];
    assert F.Rounds(ps, frags, 1) == [];
    assert F.Rounds(ps, frags, 0) == [];
    RoundsThenZeroStep(ps, frags, 0);
    RoundsThenZeroStep(ps, frags, 1);
    assert RoundsThenZero(ps, frags, 2) == Zeroed(ps);
  }

  /** Each candidate with weight 0. */
  function Zeroed(ps: seq<F.Scored>): (r: seq<F.Scored>)
    ensures |r| == |ps| && forall k :: 0 <= k < |r| ==> r[k] == F.Scored(0.0, ps[k].message)
  {
    seq(|ps|, k requires 0 <= k < |ps| => F.Scored(0.0, ps[k].message))
  }

  /** The prefix rounds from round `n` on, then the candidates that matched no prefix, with weight
      0: what the comment before the final `extend` says the code does. */
  function RoundsThenZero(ps: seq<F.Scored>, frags: seq<string>, n: nat): seq<F.Scored>
    requires n <= |frags|
    decreases |frags| - n
  {
    if n == |frags| then Zeroed(ps)
    else
      var prefix := F.PrefixOf(frags, |frags| - n);
      F.Matching(ps, prefix, n) + RoundsThenZero(F.Unmatched(ps, prefix), frags, n + 1)
  }

  /** The corrected `_weigh_by_analysis_similarity`, which the rest of the model uses. */
  function WeighByAnalysis(ps: seq<F.Scored>, reference: Message): seq<F.Scored> {
    RoundsThenZero(ps, F.Fragments(reference), 0)
  }

  /** Reference definition of a candidate's analysis weight: divided by one plus the rank of the
      longest prefix of the reference's value type it starts with, or 0 when it starts with none. */
  function AnalysisWeight(w: real, m: Message, reference: Message): real {
    var frags := F.Fragments(reference);
    var r := F.SharedRank(m.mainFact.valueType, frags, 0);
    if r < |frags| then F.Share(w, r) else 0.0
  }

  lemma RoundsThenZeroStep(ps: seq<F.Scored>, frags: seq<string>, n: nat)
    requires n < |frags|
    ensures var prefix := F.PrefixOf(frags, |frags| - n);
      RoundsThenZero(ps, frags, n) == F.Matching(ps, prefix, n) + RoundsThenZero(F.Unmatched(ps, prefix), frags, n + 1)
  {
    hide F.PrefixOf, F.Matching, F.Unmatched;
  }

  lemma RoundsThenZeroEnd(ps: seq<F.Scored>, frags: seq<string>)
    ensures RoundsThenZero(ps, frags, |frags|) == Zeroed(ps)
  {
    hide Zeroed;
  }

  lemma ZeroedCandidates(ps: seq<F.Scored>)
    ensures F.Candidates(Zeroed(ps)) == F.Candidates(ps)
  {
  }

  lemma MultisetAppend<T>(a: seq<T>, b: seq<T>, c: seq<T>, whole: seq<T>)
    requires multiset(b) == multiset(c) && multiset(a) + multiset(c) == multiset(whole)
    ensures multiset(a + b) == multiset(whole)
  {
  }

  /** One round keeps the candidates, given that the later rounds keep the unmatched ones. */
  lemma KeepAllRound(ps: seq<F.Scored>, frags: seq<string>, n: nat)
    requires n < |frags|
    requires var unmatched := F.Unmatched(ps, F.PrefixOf(frags, |frags| - n));
      multiset(F.Candidates(RoundsThenZero(unmatched, frags, n + 1))) == multiset(F.Candidates(unmatched))
    ensures multiset(F.Candidates(RoundsThenZero(ps, frags, n))) == multiset(F.Candidates(ps))
  {
    var prefix := F.PrefixOf(frags, |frags| - n);
    var matched := F.Matching(ps, prefix, n);
    var unmatched := F.Unmatched(ps, prefix);
    var rest := RoundsThenZero(unmatched, frags, n + 1);
    RoundsThenZeroStep(ps, frags, n);
    hide StartsWith, F.PrefixOf, F.Matching, F.Unmatched, F.Candidates, RoundsThenZero;
    F.MatchingSplit(ps, prefix, n);
    F.CandidatesAppend(matched, rest);
    MultisetAppend(F.Candidates(matched), F.Candidates(rest), F.Candidates(unmatched), F.Candidates(ps));
  }

  lemma {:induction false} RoundsThenZeroKeepAll(ps: seq<F.Scored>, frags: seq<string>, n: nat)
    requires n <= |frags|
    ensures multiset(F.Candidates(RoundsThenZero(ps, frags, n))) == multiset(F.Candidates(ps))
    decreases |frags| - n
  {
    hide StartsWith, F.PrefixOf, F.Matching, F.Unmatched, F.Candidates, RoundsThenZero, Zeroed;
    if n == |frags| {
      RoundsThenZeroEnd(ps, frags);
      ZeroedCandidates(ps);
    } else {
      RoundsThenZeroKeepAll(F.Unmatched(ps, F.PrefixOf(frags, |frags| - n)), frags, n + 1);
      KeepAllRound(ps, frags, n);
    }
  }

  lemma RoundsThenZeroPlace(ps: seq<F.Scored>, frags: seq<string>, n: nat, p: F.Scored)
    requires n <= |frags| && p in ps
    ensures var r := F.SharedRank(p.message.mainFact.valueType, frags, n);
      F.Scored(if r < |frags| then F.Share(p.weight, r) else 0.0, p.message) in RoundsThenZero(ps, frags, n)
  {
    PlacedFrom(ps, frags, n, p);
  }

  /** The candidate's entry, at the weight of its rank, is among the rounds from n on. */
  ghost predicate Placed(ps: seq<F.Scored>, frags: seq<string>, n: nat, p: F.Scored)
    requires n <= |frags|
  {
    var r := F.SharedRank(p.message.mainFact.valueType, frags, n);
    F.Scored(if r < |frags| then F.Share(p.weight, r) else 0.0, p.message) in RoundsThenZero(ps, frags, n)
  }

  lemma {:induction false} PlacedFrom(ps: seq<F.Scored>, frags: seq<string>, n: nat, p: F.Scored)
    requires n <= |frags| && p in ps
    ensures Placed(ps, frags, n, p)
    decreases |frags| - n
  {
    hide Placed, RoundsThenZero, F.SharedRank, F.Matching, F.Share;
    if n == |frags| {
      PlaceZeroed(ps, frags, p);
    } else {
      var prefix := F.PrefixOf(frags, |frags| - n);
      if !StartsWith(p.message.mainFact.valueType, prefix) {
        PlacedFrom(F.Unmatched(ps, prefix), frags, n + 1, p);
      }
      PlacedStep(ps, frags, n, p);
    }
  }

  lemma PlacedStep(ps: seq<F.Scored>, frags: seq<string>, n: nat, p: F.Scored)
    requires n < |frags| && p in ps
    requires var prefix := F.PrefixOf(frags, |frags| - n);
      !StartsWith(p.message.mainFact.valueType, prefix) ==> Placed(F.Unmatched(ps, prefix), frags, n + 1, p)
    ensures Placed(ps, frags, n, p)
  {
    if StartsWith(p.message.mainFact.valueType, F.PrefixOf(frags, |frags| - n)) {
      PlacedMatched(ps, frags, n, p);
    } else {
      PlacedUnmatched(ps, frags, n, p);
    }
  }

  /** A candidate with the round's prefix is placed in this round, at the weight of rank n. */
  lemma PlacedMatched(ps: seq<F.Scored>, frags: seq<string>, n: nat, p: F.Scored)
    requires n < |frags| && p in ps && StartsWith(p.message.mainFact.valueType, F.PrefixOf(frags, |frags| - n))
    ensures Placed(ps, frags, n, p)
  {
    var prefix := F.PrefixOf(frags, |frags| - n);
    var v := p.message.mainFact.valueType;
    RoundsThenZeroStep(ps, frags, n);
    SharedRankStep(v, frags, n);
    hide StartsWith, F.PrefixOf, F.Matching, F.Unmatched, RoundsThenZero, F.SharedRank, F.Share;
    var matched := F.Matching(ps, prefix, n);
    var rest := RoundsThenZero(F.Unmatched(ps, prefix), frags, n + 1);
    assert F.Scored(F.Share(p.weight, n), p.message) in matched;
    InEither(matched, rest, F.Scored(F.Share(p.weight, n), p.message));
  }

  /** A candidate without it is placed where the later rounds place it. */
  lemma PlacedUnmatched(ps: seq<F.Scored>, frags: seq<string>, n: nat, p: F.Scored)
    requires n < |frags| && p in ps
    requires var prefix := F.PrefixOf(frags, |frags| - n);
      !StartsWith(p.message.mainFact.valueType, prefix) && Placed(F.Unmatched(ps, prefix), frags, n + 1, p)
    ensures Placed(ps, frags, n, p)
  {
    var prefix := F.PrefixOf(frags, |frags| - n);
    var v := p.message.mainFact.valueType;
    RoundsThenZeroStep(ps, frags, n);
    SharedRankStep(v, frags, n);
    hide StartsWith, F.PrefixOf, F.Matching, F.Unmatched, RoundsThenZero, F.SharedRank, F.Share;
    var matched := F.Matching(ps, prefix, n);
    var rest := RoundsThenZero(F.Unmatched(ps, prefix), frags, n + 1);
    var r := F.SharedRank(v, frags, n + 1);
    var q := F.Scored(if r < |frags| then F.Share(p.weight, r) else 0.0, p.message);
    assert q in rest;
    InEither(matched, rest, q);
  }

  lemma InEither<T>(a: seq<T>, b: seq<T>, x: T)
    requires x in a || x in b
    ensures x in a + b
  {
  }

  lemma PlaceZeroed(ps: seq<F.Scored>, frags: seq<string>, p: F.Scored)
    requires p in ps
    ensures Placed(ps, frags, |frags|, p)
  {
    RoundsThenZeroEnd(ps, frags);
    assert F.SharedRank(p.message.mainFact.valueType, frags, |frags|) == |frags|;
    hide RoundsThenZero, F.SharedRank;
    var k :| 0 <= k < |ps| && ps[k] == p;
    assert Zeroed(ps)[k] == F.Scored(0.0, p.message);
  }

  lemma SharedRankStep(v: string, frags: seq<string>, n: nat)
    requires n < |frags|
    ensures StartsWith(v, F.PrefixOf(frags, |frags| - n)) ==> F.SharedRank(v, frags, n) == n
    ensures !StartsWith(v, F.PrefixOf(frags, |frags| - n)) ==> F.SharedRank(v, frags, n) == F.SharedRank(v, frags, n + 1)
  {
    hide StartsWith, F.PrefixOf;
  }

  /** The corrected weighting keeps every candidate exactly once (a permutation), each with its
      analysis weight. */
  lemma AnalysisMeaning(ps: seq<F.Scored>, reference: Message)
    ensures multiset(F.Candidates(WeighByAnalysis(ps, reference))) == multiset(F.Candidates(ps))
    ensures forall p :: p in ps ==> F.Scored(AnalysisWeight(p.weight, p.message, reference), p.message) in WeighByAnalysis(ps, reference)
  {
    var frags := F.Fragments(reference);
    RoundsThenZeroKeepAll(ps, frags, 0);
    forall p | p in ps ensures F.Scored(AnalysisWeight(p.weight, p.message, reference), p.message) in WeighByAnalysis(ps, reference) {
      RoundsThenZeroPlace(ps, frags, 0, p);
    }
  }

  // ---------------------------------------------------------------- context weighting

  /** `_weigh_by_context_similarity`'s factor: times 1.5 for the reference's location, then times
      1.1 for its timestamp. */
  function ContextWeight(w: real, m: Message, reference: Message): real {
    var w1 := if reference.mainFact.location == m.mainFact.location then w * 1.5 else w;
    if reference.mainFact.timestamp == m.mainFact.timestamp then w1 * 1.1 else w1
  }

  /** `_weigh_by_context_similarity`: the same candidates in the same order, re-weighted. */
  function WeighByContext(ps: seq<F.Scored>, reference: Message): (r: seq<F.Scored>)
    ensures F.Candidates(r) == F.Candidates(ps)
    ensures forall k :: 0 <= k < |r| ==> r[k] == F.Scored(ContextWeight(ps[k].weight, ps[k].message, reference), ps[k].message)
  {
    seq(|ps|, k requires 0 <= k < |ps| => F.Scored(ContextWeight(ps[k].weight, ps[k].message, reference), ps[k].message))
  }

  /** The context factor is 1.65, 1.5, 1.1 or 1, so it never lowers a weight that is not negative. */
  lemma ContextWeightCases(w: real, m: Message, reference: Message)
    ensures var sameLocation := reference.mainFact.location == m.mainFact.location;
      var sameTime := reference.mainFact.timestamp == m.mainFact.timestamp;
      ContextWeight(w, m, reference) == (if sameLocation && sameTime then 1.65 * w
                                         else if sameLocation then 1.5 * w
                                         else if sameTime then 1.1 * w
                                         else w)
    ensures w >= 0.0 ==> ContextWeight(w, m, reference) >= w
  {
  }

  // ---------------------------------------------------------------- re-scoring and satellites

  /** One round's re-scoring (lines 86-89): the positive-score candidates weighted against the
      previous message, then against the nucleus, then by context against the previous message. */
  function Rescore(available: seq<Message>, nucleus: Message, previous: Message): seq<F.Scored> {
    WeighByContext(WeighByAnalysis(WeighByAnalysis(F.Positive(available), previous), nucleus), previous)
  }

  /** Reference definition of a candidate's weight after one round's re-scoring. */
  function CombinedWeight(m: Message, nucleus: Message, previous: Message): real {
    ContextWeight(AnalysisWeight(AnalysisWeight(m.score, m, previous), m, nucleus), m, previous)
  }

  /** The re-scoring keeps exactly the pool's positive-score messages, each once, and gives each its
      combined weight. */
  lemma RescoreMeaning(available: seq<Message>, nucleus: Message, previous: Message)
    ensures multiset(F.Candidates(Rescore(available, nucleus, previous))) == multiset(F.Candidates(F.Positive(available)))
    ensures forall p :: p in Rescore(available, nucleus, previous) ==> p.message in available && p.message.score > 0.0
    ensures forall m :: m in available && m.score > 0.0 ==> F.Scored(CombinedWeight(m, nucleus, previous), m) in Rescore(available, nucleus, previous)
  {
    var s0 := F.Positive(available);
    var s1 := WeighByAnalysis(s0, previous);
    var s2 := WeighByAnalysis(s1, nucleus);
    var s3 := WeighByContext(s2, previous);
    assert Rescore(available, nucleus, previous) == s3;
    hide Rescore, WeighByAnalysis, WeighByContext, AnalysisWeight, F.Positive, F.Candidates;
    AnalysisMeaning(s0, previous);
    AnalysisMeaning(s1, nucleus);
    assert s0 + F.Discounted([], 1) == s0;
    F.FromPools(available, [], 1, s3);
    forall m | m in available && m.score > 0.0 ensures F.Scored(CombinedWeight(m, nucleus, previous), m) in s3 {
      var w1 := AnalysisWeight(m.score, m, previous);
      var w2 := AnalysisWeight(w1, m, nucleus);
      assert F.Scored(m.score, m) in s0;
      assert F.Scored(w1, m) in s1;
      assert F.Scored(w2, m) in s2;
      ContextIn(s2, previous, F.Scored(w2, m));
    }
  }

  lemma ContextIn(ps: seq<F.Scored>, reference: Message, p: F.Scored)
    requires p in ps
    ensures F.Scored(ContextWeight(p.weight, p.message, reference), p.message) in WeighByContext(ps, reference)
  {
    var k :| 0 <= k < |ps| && ps[k] == p;
    assert WeighByContext(ps, reference)[k] == F.Scored(ContextWeight(p.weight, p.message, reference), p.message);
  }

  /** The re-scoring as a round of the greedy loop: one pool, no distance. */
  function RoundScores(core: seq<Message>, expanded: seq<Message>, dist: nat, nucleus: Message, previous: Message): Result<seq<F.Scored>> {
    Ok(Rescore(core, nucleus, previous))
  }

  lemma RoundScoresSound()
    ensures F.RescoreSound(RoundScores) && F.NeverRaises(RoundScores)
  {
    forall core, expanded, dist, nucleus, previous
      ensures forall p :: p in RoundScores(core, expanded, dist, nucleus, previous).value ==>
        (p.message in core || p.message in expanded) && p.message.score > 0.0
    {
      RescoreMeaning(core, nucleus, previous);
    }
  }

  /** `_select_satellites_for_nucleus`: the greedy loop of the full strategy (the same rounds,
      thresholds and bounds) over the one pool, re-scored as above. */
  function Satellites(nucleus: Message, available: seq<Message>): Result<seq<Message>> {
    F.GreedyFrom(RoundScores, nucleus, available, [], 1, nucleus, [])
  }

  /** The loop never raises and returns at most five distinct satellites from the pool, each with a
      positive score. */
  lemma SatellitesMeaning(nucleus: Message, available: seq<Message>)
    requires NoDupIds(available)
    ensures var r := Satellites(nucleus, available);
      r.Ok? && |r.value| <= F.MaxSatellites && NoDupIds(r.value)
      && forall m :: m in r.value ==> m in available && m.score > 0.0
  {
    RoundScoresSound();
    assert available + [] == available;
    F.GreedySound(RoundScores, nucleus, available, []);
    F.GreedyFromTotal(RoundScores, nucleus, available, [], 1, nucleus, []);
  }

  /** The loop itself. */
  method SelectSatellites(nucleus: Message, available: seq<Message>) returns (r: seq<Message>)
    requires NoDupIds(available)
    ensures Ok(r) == Satellites(nucleus, available)
  {
    SatellitesMeaning(nucleus, available);
    var g := F.Greedy(RoundScores, nucleus, available, []);
    r := g.value;
  }

  // ---------------------------------------------------------------- the strategy

  /** `EUContextSimBodyDocumentPlanner` / `EUContextSimHeadlineDocumentPlanner`. Its
      `select_satellites_for_nucleus` declares two parameters besides `self`. */
  function ContextSimStrategy(): Strategy {
    Strategy(TopNucleus, RelativeThreshold, TwoParams(Satellites), F.NewParagraphAbsolute)
  }

  /** The body planner always raises: with no nucleus, or one scoring under 0.5, it finds no
      nuclei; otherwise the call of `select_satellites_for_nucleus` with three arguments fails. */
  lemma ContextSimBody(core: seq<Message>, expanded: seq<Message>)
    ensures Stops(ContextSimStrategy().selectNucleus, F.MaxParagraphs)
    ensures Body(ContextSimStrategy(), F.MaxParagraphs, core, expanded) ==
      if core != [] && core[FirstMax(core, Score)].score >= F.NewParagraphAbsolute then Err(TypeError(TooManyArguments()))
      else Err(PlanningFailed)
  {
    TopNucleusSound();
    TopNucleusMeaning(core, []);
  }

  /** The headline is the first core message of highest score; an empty core gives none. */
  lemma ContextSimHeadline(core: seq<Message>, expanded: seq<Message>)
    ensures var r := Headline(ContextSimStrategy().selectNucleus, core, expanded);
      (r.Ok? <==> core != [])
      && (r.Ok? ==> r.value == (Node([Node([Leaf(core[FirstMax(core, Score)])], Sequence)], Sequence), core + expanded))
  {
    TopNucleusMeaning(core, []);
  }
}

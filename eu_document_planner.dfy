/** The full Eurostat planning strategy (`eu_document_planner.py`): nuclei chosen by score among
    topics not yet covered, a relative threshold that relaxes for the second paragraph, and
    satellites chosen greedily after re-scoring every candidate by its analysis (value type) and
    context (location, timestamp) similarity to the nucleus and to the previous satellite. The
    greedy satellite loop is shared with the context-sim and early-stop strategies. */
module FullPlanner {
  import opened Wrappers
  import opened Text
  import opened Models
  import opened Ranking
  import opened DocumentPlanner

  const MaxParagraphs: nat := 3
  const MaxSatellites: nat := 5
  const MinSatellites: nat := 2
  const NewParagraphAbsolute: real := 0.5
  const SatelliteRelative: real := 0.5
  const SatelliteAbsolute: real := 0.2

  // ---------------------------------------------------------------- topics

  /** `value_type.split(":")`. */
  function Fragments(m: Message): (r: seq<string>)
    ensures |r| >= 1
  {
    SplitOn(m.mainFact.valueType, ':')
  }

  /** `":".join(fragments[:k])`. */
  function PrefixOf(frags: seq<string>, k: nat): string
    requires k <= |frags|
  {
    Join(":", frags[..k])
  }

  /** The first `segments` colon-separated segments of the value type. */
  function TopicOf(m: Message, segments: nat): string {
    var f := Fragments(m);
    PrefixOf(f, if segments < |f| then segments else |f|)
  }

  /** `_topic`. */
  function Topic(m: Message): string {
    TopicOf(m, 3)
  }

  /** A topic is a prefix of the value type, all of it when it has at most the given segments. */
  lemma TopicPrefix(m: Message, segments: nat)
    requires segments >= 1
    ensures StartsWith(m.mainFact.valueType, TopicOf(m, segments))
    ensures |Fragments(m)| <= segments ==> TopicOf(m, segments) == m.mainFact.valueType
  {
    var f := Fragments(m);
    JoinSplitOn(m.mainFact.valueType, ':');
    assert f[..|f|] == f;
    JoinPrefix(":", f, if segments < |f| then segments else |f|);
  }

  /** Two messages of one topic share at least the first segment of the value type. */
  lemma SameTopicSharesFirst(m: Message, reference: Message, segments: nat)
    requires segments >= 1 && TopicOf(m, segments) == TopicOf(reference, segments)
    ensures StartsWith(m.mainFact.valueType, PrefixOf(Fragments(reference), 1))
  {
    TopicPrefix(m, segments);
    var f := Fragments(reference);
    var k := if segments < |f| then segments else |f|;
    assert TopicOf(reference, segments) == Join(":", f[..k]);
    assert PrefixOf(f, 1) == Join(":", f[..k][..1]) by {
      assert f[..k][..1] == f[..1];
    }
    hide TopicOf, PrefixOf, Fragments;
    JoinPrefix(":", f[..k], 1);
    StartsWithTrans(m.mainFact.valueType, TopicOf(m, segments), PrefixOf(f, 1));
  }

  // ---------------------------------------------------------------- nucleus

  function TopicKey(m: Message): (string, string) {
    (Topic(m), m.mainFact.location)
  }

  function TopicKeys(nuclei: seq<Message>): (r: seq<(string, string)>)
    ensures |r| == |nuclei| && forall i :: 0 <= i < |r| ==> r[i] == TopicKey(nuclei[i])
  {
    seq(|nuclei|, i requires 0 <= i < |nuclei| => TopicKey(nuclei[i]))
  }

  /** The messages whose (topic, location) no nucleus has, in order. */
  function FreshTopics(pool: seq<Message>, keys: seq<(string, string)>): (r: seq<Message>)
    ensures forall m :: m in r <==> m in pool && TopicKey(m) !in keys
    ensures keys == [] ==> r == pool
  {
    if pool == [] then []
    else (if TopicKey(pool[0]) in keys then [] else [pool[0]]) + FreshTopics(pool[1..], keys)
  }

  /** `_select_next_nucleus`: stops at three nuclei; prefers unseen (topic, location) pairs; with
      none left it stops after two or more nuclei, and after exactly one it relaxes to the whole
      pool, which it then sorts in place for the caller. */
  function SelectNucleus(pool: seq<Message>, nuclei: seq<Message>): NucleusPick {
    if |nuclei| >= MaxParagraphs then NucleusPick(None, 0.0, pool)
    else
      var unseen := FreshTopics(pool, TopicKeys(nuclei));
      if unseen != [] then
        var top := SortByScore(unseen)[0];
        NucleusPick(Some(top), top.score, pool)
      else if |nuclei| > 1 || pool == [] then NucleusPick(None, 0.0, pool)
      else
        var sorted := SortByScore(pool);
        NucleusPick(Some(sorted[0]), sorted[0].score, sorted)
  }

  /** The candidates the nucleus is chosen from. */
  function NucleusCandidates(pool: seq<Message>, nuclei: seq<Message>): seq<Message> {
    var unseen := FreshTopics(pool, TopicKeys(nuclei));
    if unseen != [] then unseen else pool
  }

  /** No nucleus comes back at three nuclei, from an empty pool, or when every topic is covered
      after two; otherwise the nucleus is the first message of highest score among the candidates
      (unseen topics if any), returned with its score. The pool changes only by reordering. */
  lemma NucleusChoice(pool: seq<Message>, nuclei: seq<Message>)
    ensures var pick := SelectNucleus(pool, nuclei);
      var cands := NucleusCandidates(pool, nuclei);
      (pick.nucleus.None? <==> (|nuclei| >= MaxParagraphs || pool == []
                                || (FreshTopics(pool, TopicKeys(nuclei)) == [] && |nuclei| > 1)))
      && (pick.nucleus.Some? ==>
            cands != [] && pick.nucleus.value == cands[FirstMax(cands, Score)]
            && pick.score == pick.nucleus.value.score && pick.nucleus.value in pool)
      && (pick.nucleus.None? ==> pick.score == 0.0)
      && multiset(pick.pool) == multiset(pool)
      && (pick.pool != pool ==> pick.pool == SortByScore(pool) && |nuclei| == 1)
  {
    var pick := SelectNucleus(pool, nuclei);
    var unseen := FreshTopics(pool, TopicKeys(nuclei));
    if |nuclei| < MaxParagraphs {
      if unseen != [] {
        SortDescHead(unseen, Score);
        assert SortByScore(unseen)[0] in multiset(unseen);
      } else if |nuclei| <= 1 && pool != [] {
        assert |nuclei| == 1;
        SortDescHead(pool, Score);
        assert SortByScore(pool)[0] in multiset(pool);
      }
    }
  }

  /** A nucleus chosen among unseen topics repeats no (topic, location) of an earlier nucleus. */
  lemma NucleusNewTopic(pool: seq<Message>, nuclei: seq<Message>)
    requires FreshTopics(pool, TopicKeys(nuclei)) != [] && |nuclei| < MaxParagraphs
    ensures var n := SelectNucleus(pool, nuclei).nucleus;
      n.Some? && forall i :: 0 <= i < |nuclei| ==> TopicKey(n.value) != TopicKey(nuclei[i])
  {
    var unseen := FreshTopics(pool, TopicKeys(nuclei));
    assert SortByScore(unseen)[0] in multiset(unseen);
  }

  /** `_new_paragraph_relative_threshold`. */
  function RelativeThreshold(nuclei: seq<Message>): (t: Threshold)
    ensures nuclei == [] <==> t == NegInf
    ensures |nuclei| == 1 ==> t == Finite(0.0)
    ensures |nuclei| >= 2 ==> t == Finite(0.3 * nuclei[0].score)
  {
    if nuclei == [] then NegInf
    else if |nuclei| == 1 then Finite(0.0)
    else Finite(0.3 * nuclei[0].score)
  }

  // ---------------------------------------------------------------- scored candidates

  /** A `(score, message)` pair. */
  datatype Scored = Scored(weight: real, message: Message)

  function Weight(p: Scored): real { p.weight }

  function Candidates(ps: seq<Scored>): (r: seq<Message>)
    ensures |r| == |ps| && forall k :: 0 <= k < |ps| ==> r[k] == ps[k].message
  {
    seq(|ps|, k requires 0 <= k < |ps| => ps[k].message)
  }

  lemma CandidatesAppend(a: seq<Scored>, b: seq<Scored>)
    ensures Candidates(a + b) == Candidates(a) + Candidates(b)
  {
  }

  /** A weight divided by one plus a rank or distance. */
  function Share(w: real, k: nat): real {
    w / ((k + 1) as real)
  }

  /** `[(m.score, m) for m in ms if m.score > 0]`. */
  function Positive(ms: seq<Message>): (r: seq<Scored>)
    ensures forall p :: p in r <==> p.message in ms && p.message.score > 0.0 && p.weight == p.message.score
  {
    if ms == [] then []
    else (if ms[0].score > 0.0 then [Scored(ms[0].score, ms[0])] else []) + Positive(ms[1..])
  }

  /** `[(m.score / (dist + 1), m) for m in ms if m.score > 0]`. */
  function Discounted(ms: seq<Message>, dist: nat): (r: seq<Scored>)
    ensures forall p :: p in r <==> p.message in ms && p.message.score > 0.0 && p.weight == Share(p.message.score, dist)
  {
    if ms == [] then []
    else (if ms[0].score > 0.0 then [Scored(Share(ms[0].score, dist), ms[0])] else []) + Discounted(ms[1..], dist)
  }

  // ---------------------------------------------------------------- analysis weighting

  /** Off-topic candidates, each with weight 0. */
  function OffTopic(ps: seq<Scored>, topic: string): (r: seq<Scored>)
    ensures forall p :: p in ps && Topic(p.message) != topic ==> Scored(0.0, p.message) in r
    ensures forall q :: q in r ==> q.weight == 0.0
  {
    if ps == [] then []
    else
      (if Topic(ps[0].message) != topic then [Scored(0.0, ps[0].message)] else []) + OffTopic(ps[1..], topic)
  }

  /** On-topic candidates, unchanged. */
  function OnTopic(ps: seq<Scored>, topic: string): (r: seq<Scored>)
    ensures forall p :: p in r <==> p in ps && Topic(p.message) == topic
  {
    if ps == [] then []
    else (if Topic(ps[0].message) == topic then [ps[0]] else []) + OnTopic(ps[1..], topic)
  }

  /** The candidates whose value type starts with the prefix, weighted by 1/(n+1). */
  function Matching(ps: seq<Scored>, prefix: string, n: nat): (r: seq<Scored>)
    ensures forall p :: p in ps && StartsWith(p.message.mainFact.valueType, prefix) ==> Scored(Share(p.weight, n), p.message) in r
  {
    if ps == [] then []
    else
      (if StartsWith(ps[0].message.mainFact.valueType, prefix) then [Scored(Share(ps[0].weight, n), ps[0].message)] else [])
      + Matching(ps[1..], prefix, n)
  }

  /** The candidates left for the next, shorter prefix. */
  function Unmatched(ps: seq<Scored>, prefix: string): (r: seq<Scored>)
    ensures forall p :: p in r <==> p in ps && !StartsWith(p.message.mainFact.valueType, prefix)
  {
    if ps == [] then []
    else (if StartsWith(ps[0].message.mainFact.valueType, prefix) then [] else [ps[0]]) + Unmatched(ps[1..], prefix)
  }

  /** The prefix rounds from round `n` on: round n tries the prefix of |frags| - n fragments.
      After the last round the still-unprocessed list has just been reset, so the trailing
      `weighted.extend(...)` adds nothing and the unmatched candidates are discarded. */
  function Rounds(ps: seq<Scored>, frags: seq<string>, n: nat): seq<Scored>
    requires n <= |frags|
    decreases |frags| - n
  {
    if n == |frags| then []
    else
      var prefix := PrefixOf(frags, |frags| - n);
      Matching(ps, prefix, n) + Rounds(Unmatched(ps, prefix), frags, n + 1)
  }

  /** `_weigh_by_analysis_similarity`: off-topic candidates with weight 0, then the on-topic ones
      scaled by the rank of the longest value-type prefix they share with the reference. */
  function WeighByAnalysis(ps: seq<Scored>, reference: Message): seq<Scored> {
    var topic := Topic(reference);
    OffTopic(ps, topic) + Rounds(OnTopic(ps, topic), Fragments(reference), 0)
  }

  /** Reference definition of the weighting rank: the first round from `n` on whose prefix the value
      type starts with, `|frags|` when there is none. Round k tries |frags| - k fragments, so this is
      the longest shared prefix. */
  function SharedRank(valueType: string, frags: seq<string>, n: nat): (r: nat)
    requires n <= |frags|
    ensures n <= r <= |frags|
    ensures r < |frags| ==> StartsWith(valueType, PrefixOf(frags, |frags| - r))
    ensures forall j :: |frags| - r < j <= |frags| - n ==> !StartsWith(valueType, PrefixOf(frags, j))
    decreases |frags| - n
  {
    if n == |frags| then n
    else if StartsWith(valueType, PrefixOf(frags, |frags| - n)) then n
    else SharedRank(valueType, frags, n + 1)
  }

  /** A value type sharing the first fragment has a rank below |frags|. */
  lemma SharedRankFound(valueType: string, frags: seq<string>, n: nat)
    requires n < |frags| && StartsWith(valueType, PrefixOf(frags, 1))
    ensures SharedRank(valueType, frags, n) < |frags|
  {
  }

  lemma CandidatesCons(p: Scored, ps: seq<Scored>)
    ensures Candidates([p] + ps) == [p.message] + Candidates(ps)
  {
  }

  lemma MatchingHead(ps: seq<Scored>, prefix: string, n: nat)
    requires ps != []
    ensures StartsWith(ps[0].message.mainFact.valueType, prefix) ==>
      Matching(ps, prefix, n) == [Scored(Share(ps[0].weight, n), ps[0].message)] + Matching(ps[1..], prefix, n)
      && Unmatched(ps, prefix) == Unmatched(ps[1..], prefix)
    ensures !StartsWith(ps[0].message.mainFact.valueType, prefix) ==>
      Matching(ps, prefix, n) == Matching(ps[1..], prefix, n)
      && Unmatched(ps, prefix) == [ps[0]] + Unmatched(ps[1..], prefix)
  {
    hide StartsWith;
  }

  /** Moving one item from the whole into either part keeps a multiset split. */
  lemma MultisetShift<T>(c: T, a: seq<T>, b: seq<T>, whole: seq<T>)
    requires multiset(a) + multiset(b) == multiset(whole)
    ensures multiset([c] + a) + multiset(b) == multiset([c] + whole)
    ensures multiset(a) + multiset([c] + b) == multiset([c] + whole)
  {
  }

  lemma MatchingHeadCandidates(ps: seq<Scored>, prefix: string, n: nat)
    requires ps != []
    ensures var c := ps[0].message;
      var a := Candidates(Matching(ps[1..], prefix, n));
      var b := Candidates(Unmatched(ps[1..], prefix));
      Candidates(ps) == [c] + Candidates(ps[1..])
      && ((Candidates(Matching(ps, prefix, n)) == [c] + a && Candidates(Unmatched(ps, prefix)) == b)
          || (Candidates(Matching(ps, prefix, n)) == a && Candidates(Unmatched(ps, prefix)) == [c] + b))
  {
    hide Matching, Unmatched, Candidates, StartsWith, Share;
    MatchingHead(ps, prefix, n);
    assert ps == [ps[0]] + ps[1..];
    CandidatesCons(ps[0], ps[1..]);
    CandidatesCons(Scored(Share(ps[0].weight, n), ps[0].message), Matching(ps[1..], prefix, n));
    CandidatesCons(ps[0], Unmatched(ps[1..], prefix));
  }

  lemma {:induction false} MatchingSplit(ps: seq<Scored>, prefix: string, n: nat)
    ensures multiset(Candidates(Matching(ps, prefix, n))) + multiset(Candidates(Unmatched(ps, prefix))) == multiset(Candidates(ps))
    decreases |ps|
  {
    if ps != [] {
      hide Matching, Unmatched, Candidates, StartsWith, Share;
      MatchingSplit(ps[1..], prefix, n);
      MatchingHeadCandidates(ps, prefix, n);
      MultisetShift(ps[0].message, Candidates(Matching(ps[1..], prefix, n)), Candidates(Unmatched(ps[1..], prefix)), Candidates(ps[1..]));
    }
  }

  lemma TopicHead(ps: seq<Scored>, topic: string)
    requires ps != []
    ensures Topic(ps[0].message) != topic ==>
      OffTopic(ps, topic) == [Scored(0.0, ps[0].message)] + OffTopic(ps[1..], topic)
      && OnTopic(ps, topic) == OnTopic(ps[1..], topic)
    ensures Topic(ps[0].message) == topic ==>
      OffTopic(ps, topic) == OffTopic(ps[1..], topic)
      && OnTopic(ps, topic) == [ps[0]] + OnTopic(ps[1..], topic)
  {
    hide Topic;
  }

  lemma TopicHeadCandidates(ps: seq<Scored>, topic: string)
    requires ps != []
    ensures var c := ps[0].message;
      var a := Candidates(OffTopic(ps[1..], topic));
      var b := Candidates(OnTopic(ps[1..], topic));
      Candidates(ps) == [c] + Candidates(ps[1..])
      && ((Candidates(OffTopic(ps, topic)) == [c] + a && Candidates(OnTopic(ps, topic)) == b)
          || (Candidates(OffTopic(ps, topic)) == a && Candidates(OnTopic(ps, topic)) == [c] + b))
  {
    hide OffTopic, OnTopic, Candidates, Topic;
    TopicHead(ps, topic);
    assert ps == [ps[0]] + ps[1..];
    CandidatesCons(ps[0], ps[1..]);
    CandidatesCons(Scored(0.0, ps[0].message), OffTopic(ps[1..], topic));
    CandidatesCons(ps[0], OnTopic(ps[1..], topic));
  }

  lemma {:induction false} TopicSplit(ps: seq<Scored>, topic: string)
    ensures multiset(Candidates(OffTopic(ps, topic))) + multiset(Candidates(OnTopic(ps, topic))) == multiset(Candidates(ps))
    decreases |ps|
  {
    if ps != [] {
      hide OffTopic, OnTopic, Candidates, Topic;
      TopicSplit(ps[1..], topic);
      TopicHeadCandidates(ps, topic);
      MultisetShift(ps[0].message, Candidates(OffTopic(ps[1..], topic)), Candidates(OnTopic(ps[1..], topic)), Candidates(ps[1..]));
    }
  }

  lemma UnmatchedNone(ps: seq<Scored>, prefix: string)
    requires forall p :: p in ps ==> StartsWith(p.message.mainFact.valueType, prefix)
    ensures Unmatched(ps, prefix) == []
  {
  }

  lemma {:induction false} RoundsKeepAll(ps: seq<Scored>, frags: seq<string>, n: nat)
    requires n < |frags|
    requires forall p :: p in ps ==> StartsWith(p.message.mainFact.valueType, PrefixOf(frags, 1))
    ensures multiset(Candidates(Rounds(ps, frags, n))) == multiset(Candidates(ps))
    decreases |frags| - n
  {
    hide StartsWith, PrefixOf, Matching, Unmatched;
    var prefix := PrefixOf(frags, |frags| - n);
    var matched := Matching(ps, prefix, n);
    var rest := Unmatched(ps, prefix);
    assert Rounds(ps, frags, n) == matched + Rounds(rest, frags, n + 1);
    MatchingSplit(ps, prefix, n);
    CandidatesAppend(matched, Rounds(rest, frags, n + 1));
    if n + 1 < |frags| {
      RoundsKeepAll(rest, frags, n + 1);
    } else {
      UnmatchedNone(ps, prefix);
    }
  }

  /** Each candidate that shares a prefix reappears with its weight divided by (rank + 1). */
  lemma {:induction false} RoundsPlace(ps: seq<Scored>, frags: seq<string>, n: nat, p: Scored)
    requires n <= |frags| && p in ps
    ensures var r := SharedRank(p.message.mainFact.valueType, frags, n);
      r < |frags| ==> Scored(Share(p.weight, r), p.message) in Rounds(ps, frags, n)
    decreases |frags| - n
  {
    hide StartsWith, PrefixOf, Matching, Unmatched;
    if n < |frags| {
      var prefix := PrefixOf(frags, |frags| - n);
      assert Rounds(ps, frags, n) == Matching(ps, prefix, n) + Rounds(Unmatched(ps, prefix), frags, n + 1);
      if !StartsWith(p.message.mainFact.valueType, prefix) {
        RoundsPlace(Unmatched(ps, prefix), frags, n + 1, p);
      }
    }
  }

  /** The analysis weighting keeps every candidate, exactly once each (a permutation): an off-topic
      one with weight 0, an on-topic one with its weight divided by one plus the rank of the longest
      prefix of the reference's value type it starts with. */
  lemma AnalysisMeaning(ps: seq<Scored>, reference: Message)
    ensures multiset(Candidates(WeighByAnalysis(ps, reference))) == multiset(Candidates(ps))
    ensures forall p :: p in ps && Topic(p.message) != Topic(reference) ==> Scored(0.0, p.message) in WeighByAnalysis(ps, reference)
    ensures forall p :: p in ps && Topic(p.message) == Topic(reference) ==>
      var r := SharedRank(p.message.mainFact.valueType, Fragments(reference), 0);
      r < |Fragments(reference)| && Scored(Share(p.weight, r), p.message) in WeighByAnalysis(ps, reference)
  {
    var topic := Topic(reference);
    var frags := Fragments(reference);
    var on := OnTopic(ps, topic);
    forall p | p in on ensures StartsWith(p.message.mainFact.valueType, PrefixOf(frags, 1)) {
      SameTopicSharesFirst(p.message, reference, 3);
    }
    TopicSplit(ps, topic);
    RoundsKeepAll(on, frags, 0);
    CandidatesAppend(OffTopic(ps, topic), Rounds(on, frags, 0));
    forall p | p in ps && Topic(p.message) == topic
      ensures var r := SharedRank(p.message.mainFact.valueType, frags, 0);
        r < |frags| && Scored(Share(p.weight, r), p.message) in WeighByAnalysis(ps, reference)
    {
      SameTopicSharesFirst(p.message, reference, 3);
      SharedRankFound(p.message.mainFact.valueType, frags, 0);
      RoundsPlace(on, frags, 0, p);
    }
  }

  // ---------------------------------------------------------------- context weighting

  /** Zero when both location and timestamp differ from the reference's, else doubled for the same
      location and then multiplied by 1.5 for the same timestamp. */
  function ContextWeight(w: real, m: Message, reference: Message): real {
    var sameLocation := reference.mainFact.location == m.mainFact.location;
    var sameTime := reference.mainFact.timestamp == m.mainFact.timestamp;
    if !sameLocation && !sameTime then 0.0
    else
      var w1 := if sameLocation then w * 2.0 else w;
      if sameTime then w1 * 1.5 else w1
  }

  /** `_weigh_by_context_similarity`: the same candidates in the same order, re-weighted. */
  function WeighByContext(ps: seq<Scored>, reference: Message): (r: seq<Scored>)
    ensures Candidates(r) == Candidates(ps)
    ensures forall k :: 0 <= k < |r| ==> r[k].weight == ContextWeight(ps[k].weight, ps[k].message, reference)
  {
    seq(|ps|, k requires 0 <= k < |ps| => Scored(ContextWeight(ps[k].weight, ps[k].message, reference), ps[k].message))
  }

  /** The context factor is 0, 1.5, 2 or 3, and zero exactly when neither location nor time match. */
  lemma ContextWeightCases(w: real, m: Message, reference: Message)
    ensures var sameLocation := reference.mainFact.location == m.mainFact.location;
      var sameTime := reference.mainFact.timestamp == m.mainFact.timestamp;
      ContextWeight(w, m, reference) == (if sameLocation && sameTime then 3.0 * w
                                         else if sameLocation then 2.0 * w
                                         else if sameTime then 1.5 * w
                                         else 0.0)
  {
  }

  // ---------------------------------------------------------------- averaging

  /** `scores_v_nucleus[message]` in the dict built from the pairs: later pairs overwrite earlier
      ones, so it is the weight of the last pair holding the message; None for a missing key. */
  function Lookup(d: seq<Scored>, m: Message): (r: Option<real>)
    ensures r.None? <==> forall i :: 0 <= i < |d| ==> d[i].message.id != m.id
    ensures r.Some? ==> exists i :: 0 <= i < |d| && d[i].message.id == m.id && d[i].weight == r.value
    decreases |d|
  {
    if d == [] then None
    else if d[|d| - 1].message.id == m.id then Some(d[|d| - 1].weight)
    else
      var r := Lookup(d[..|d| - 1], m);
      assert forall i :: 0 <= i < |d| - 1 ==> d[..|d| - 1][i] == d[i];
      r
  }

  function MissingMessage(): string { "message" }

  /** The loop over the previous-relative pairs: each weight becomes the mean of the
      nucleus-relative weight (weight W_NUCLEUS = 1) and the previous-relative one. */
  function Average(vPrev: seq<Scored>, vNuc: seq<Scored>): Result<seq<Scored>> {
    if vPrev == [] then Ok([])
    else
      var l := Lookup(vNuc, vPrev[0].message);
      if l.None? then Err(KeyError(MissingMessage()))
      else
        var rest :- Average(vPrev[1..], vNuc);
        Ok([Scored((1.0 * l.value + vPrev[0].weight) / 2.0, vPrev[0].message)] + rest)
  }

  /** Averaging fails iff some previous-relative message has no nucleus-relative weight; otherwise
      every pair keeps its message and gets the mean weight. */
  lemma {:induction false} AverageMeaning(vPrev: seq<Scored>, vNuc: seq<Scored>)
    ensures Average(vPrev, vNuc).Ok? <==> forall k :: 0 <= k < |vPrev| ==> Lookup(vNuc, vPrev[k].message).Some?
    ensures Average(vPrev, vNuc).Ok? ==> var r := Average(vPrev, vNuc).value;
      |r| == |vPrev| && forall k :: 0 <= k < |r| ==>
        r[k] == Scored((Lookup(vNuc, vPrev[k].message).value + vPrev[k].weight) / 2.0, vPrev[k].message)
    decreases |vPrev|
  {
    if vPrev != [] {
      hide Average;
      AverageMeaning(vPrev[1..], vNuc);
      AverageCons(vPrev, vNuc);
      assert forall k :: 1 <= k < |vPrev| ==> vPrev[1..][k - 1] == vPrev[k];
    } else {
      assert Average(vPrev, vNuc) == Ok([]);
    }
  }

  /** One step of `Average`: the first pair's mean in front of the rest's. */
  lemma AverageCons(vPrev: seq<Scored>, vNuc: seq<Scored>)
    requires vPrev != []
    ensures Average(vPrev, vNuc).Ok? <==> Lookup(vNuc, vPrev[0].message).Some? && Average(vPrev[1..], vNuc).Ok?
    ensures Average(vPrev, vNuc).Ok? ==>
      Average(vPrev, vNuc).value == [Scored((Lookup(vNuc, vPrev[0].message).value + vPrev[0].weight) / 2.0, vPrev[0].message)]
                                    + Average(vPrev[1..], vNuc).value
  {
    var l := Lookup(vNuc, vPrev[0].message);
    var rest := Average(vPrev[1..], vNuc);
    assert Average(vPrev, vNuc) ==
      if l.None? then Err(KeyError(MissingMessage()))
      else if rest.Err? then Err(rest.error)
      else Ok([Scored((1.0 * l.value + vPrev[0].weight) / 2.0, vPrev[0].message)] + rest.value);
    hide Average, Lookup;
    if l.Some? {
      assert 1.0 * l.value == l.value;
    }
  }

  // ---------------------------------------------------------------- re-scoring

  /** One round's re-scoring of the candidates: the two pools, the distance from the last core
      satellite, the nucleus and the previous message. */
  type Rescorer = (seq<Message>, seq<Message>, nat, Message, Message) -> Result<seq<Scored>>

  /** The full strategy's re-scoring (lines 142-166): core candidates at their score, expanded ones
      divided by dist + 1, both weighted against the nucleus and against the previous message, then
      averaged. */
  function Rescore(core: seq<Message>, expanded: seq<Message>, dist: nat, nucleus: Message, previous: Message): Result<seq<Scored>> {
    var scored := Positive(core) + Discounted(expanded, dist);
    var vNuc := WeighByContext(WeighByAnalysis(scored, nucleus), nucleus);
    var vPrev := WeighByContext(WeighByAnalysis(scored, previous), previous);
    Average(vPrev, vNuc)
  }

  /** Every candidate comes from a pool and has a positive score of its own. */
  ghost predicate RescoreSound(rescore: Rescorer) {
    forall core, expanded, dist, nucleus, previous :: rescore(core, expanded, dist, nucleus, previous).Ok? ==>
      forall p :: p in rescore(core, expanded, dist, nucleus, previous).value ==>
        (p.message in core || p.message in expanded) && p.message.score > 0.0
  }

  lemma CandidatesIn(ps: seq<Scored>, m: Message)
    requires m in Candidates(ps)
    ensures exists p :: p in ps && p.message == m
  {
    var k :| 0 <= k < |ps| && Candidates(ps)[k] == m;
    assert ps[k] in ps;
  }

  /** Every message of one list is looked up successfully in a permutation of it. */
  lemma LookupsSucceed(vPrev: seq<Scored>, vNuc: seq<Scored>)
    requires multiset(Candidates(vPrev)) == multiset(Candidates(vNuc))
    ensures forall k :: 0 <= k < |vPrev| ==> Lookup(vNuc, vPrev[k].message).Some?
  {
    forall k | 0 <= k < |vPrev| ensures Lookup(vNuc, vPrev[k].message).Some? {
      var m := vPrev[k].message;
      assert Candidates(vPrev)[k] == m;
      assert m in multiset(Candidates(vNuc));
      var i :| 0 <= i < |vNuc| && Candidates(vNuc)[i] == m;
    }
  }

  /** A permutation of the initial candidates holds only pool messages of positive score. */
  lemma FromPools(core: seq<Message>, expanded: seq<Message>, dist: nat, r: seq<Scored>)
    requires multiset(Candidates(r)) == multiset(Candidates(Positive(core) + Discounted(expanded, dist)))
    ensures forall p :: p in r ==> (p.message in core || p.message in expanded) && p.message.score > 0.0
  {
    var scored := Positive(core) + Discounted(expanded, dist);
    forall p | p in r ensures (p.message in core || p.message in expanded) && p.message.score > 0.0 {
      var k :| 0 <= k < |r| && r[k] == p;
      assert Candidates(r)[k] == p.message;
      assert p.message in multiset(Candidates(scored));
      CandidatesIn(scored, p.message);
    }
  }

  /** The dict lookup never misses: both weightings keep every candidate, so the full re-scoring
      never raises, and its candidates are a permutation of the positive-score pool messages. */
  lemma RescoreMeaning(core: seq<Message>, expanded: seq<Message>, dist: nat, nucleus: Message, previous: Message)
    ensures Rescore(core, expanded, dist, nucleus, previous).Ok?
    ensures forall p :: p in Rescore(core, expanded, dist, nucleus, previous).value ==>
      (p.message in core || p.message in expanded) && p.message.score > 0.0
    ensures multiset(Candidates(Rescore(core, expanded, dist, nucleus, previous).value))
         == multiset(Candidates(Positive(core) + Discounted(expanded, dist)))
  {
    var scored := Positive(core) + Discounted(expanded, dist);
    var vNuc := WeighByContext(WeighByAnalysis(scored, nucleus), nucleus);
    var vPrev := WeighByContext(WeighByAnalysis(scored, previous), previous);
    AnalysisMeaning(scored, nucleus);
    AnalysisMeaning(scored, previous);
    assert Rescore(core, expanded, dist, nucleus, previous) == Average(vPrev, vNuc);
    LookupsSucceed(vPrev, vNuc);
    AverageMeaning(vPrev, vNuc);
    var r := Average(vPrev, vNuc).value;
    assert Candidates(r) == Candidates(vPrev);
    FromPools(core, expanded, dist, r);
    hide Rescore, WeighByAnalysis, WeighByContext, Average;
  }

  lemma RescoreIsSound()
    ensures RescoreSound(Rescore)
  {
    forall core, expanded, dist, nucleus, previous | Rescore(core, expanded, dist, nucleus, previous).Ok?
      ensures forall p :: p in Rescore(core, expanded, dist, nucleus, previous).value ==>
        (p.message in core || p.message in expanded) && p.message.score > 0.0
    {
      RescoreMeaning(core, expanded, dist, nucleus, previous);
    }
  }

  // ---------------------------------------------------------------- greedy satellite loop

  predicate Passes(w: real, nucleus: Message) {
    w > SatelliteRelative * nucleus.score || w > SatelliteAbsolute
  }

  /** The candidates that pass the thresholds, in order. */
  function Passing(ps: seq<Scored>, nucleus: Message): (r: seq<Scored>)
    ensures forall p :: p in r <==> p in ps && Passes(p.weight, nucleus)
  {
    if ps == [] then []
    else (if Passes(ps[0].weight, nucleus) then [ps[0]] else []) + Passing(ps[1..], nucleus)
  }

  /** The candidates a round chooses from: those that pass, or all when none pass. */
  function Choices(scored: seq<Scored>, nucleus: Message): seq<Scored> {
    var passing := Passing(scored, nucleus);
    if passing == [] then scored else passing
  }

  /** Whether a round stops: no candidate passes and the minimum is met or there are no candidates
      at all, or the maximum is reached. */
  predicate Done(scored: seq<Scored>, nucleus: Message, count: nat) {
    (Passing(scored, nucleus) == [] && (count >= MinSatellites || scored == [])) || count >= MaxSatellites
  }

  /** The satellite loop from a given state: the pools, the distance from the last core satellite,
      the previous message and the satellites so far. */
  function GreedyFrom(rescore: Rescorer, nucleus: Message, core: seq<Message>, expanded: seq<Message>, dist: nat,
                      previous: Message, sats: seq<Message>): Result<seq<Message>>
    requires |sats| <= MaxSatellites
    decreases MaxSatellites - |sats|
  {
    var scored :- rescore(core, expanded, dist, nucleus, previous);
    if Done(scored, nucleus, |sats|) then Ok(sats)
    else
      var choice := SortDesc(Choices(scored, nucleus), Weight)[0].message;
      if choice.id in IdSet(core) then GreedyFrom(rescore, nucleus, Keep(core, {choice.id}), expanded, 1, choice, sats + [choice])
      else GreedyFrom(rescore, nucleus, core, Keep(expanded, {choice.id}), dist + 1, choice, sats + [choice])
  }

  /** The loop, on its own copies of the pools. */
  method Greedy(rescore: Rescorer, nucleus: Message, core: seq<Message>, expanded: seq<Message>) returns (r: Result<seq<Message>>)
    ensures r == GreedyFrom(rescore, nucleus, core, expanded, 1, nucleus, [])
  {
    var sats: seq<Message> := [];
    var availableCore := core;
    var availableExpanded := expanded;
    var previous := nucleus;
    var dist: nat := 1;
    while true
      invariant |sats| <= MaxSatellites
      invariant GreedyFrom(rescore, nucleus, availableCore, availableExpanded, dist, previous, sats)
             == GreedyFrom(rescore, nucleus, core, expanded, 1, nucleus, [])
      decreases MaxSatellites - |sats|
    {
      var scored := rescore(availableCore, availableExpanded, dist, nucleus, previous);
      if scored.Err? {
        return Err(scored.error);
      }
      var passing := Passing(scored.value, nucleus);
      if passing == [] {
        if |sats| >= MinSatellites {
          return Ok(sats);
        } else if scored.value != [] {
          passing := scored.value;
        } else {
          return Ok(sats);
        }
      }
      if |sats| >= MaxSatellites {
        return Ok(sats);
      }
      var choice := SortDesc(passing, Weight)[0].message;
      sats := sats + [choice];
      if choice.id in IdSet(availableCore) {
        availableCore := Keep(availableCore, {choice.id});
        dist := 1;
      } else {
        availableExpanded := Keep(availableExpanded, {choice.id});
        dist := dist + 1;
      }
      previous := choice;
    }
  }

  /** The round's choice is the first candidate of highest weight among those that pass, or among
      all when none pass. */
  lemma ChoiceIsFirstMax(scored: seq<Scored>, nucleus: Message)
    requires scored != []
    ensures var cs := Choices(scored, nucleus);
      cs != [] && SortDesc(cs, Weight)[0] == cs[FirstMax(cs, Weight)]
      && (Passing(scored, nucleus) != [] ==> Passes(SortDesc(cs, Weight)[0].weight, nucleus))
  {
    var cs := Choices(scored, nucleus);
    SortDescHead(cs, Weight);
  }

  /** The invariant of the satellite loop: the satellites so far and the two pools are distinct
      objects from the original pools, and no object is in two of them. */
  predicate GreedyInv(sats: seq<Message>, core: seq<Message>, expanded: seq<Message>, core0: seq<Message>, expanded0: seq<Message>) {
    Placement(sats, core, expanded, core0 + expanded0)
    && forall m :: m in sats ==> m.score > 0.0
  }

  lemma GreedyStep(rescore: Rescorer, nucleus: Message, core: seq<Message>, expanded: seq<Message>, dist: nat,
                   previous: Message, sats: seq<Message>, core0: seq<Message>, expanded0: seq<Message>, choice: Message)
    requires RescoreSound(rescore) && GreedyInv(sats, core, expanded, core0, expanded0)
    requires choice in core || choice in expanded
    requires choice.score > 0.0
    ensures choice.id in IdSet(core) ==> GreedyInv(sats + [choice], Keep(core, {choice.id}), expanded, core0, expanded0)
    ensures choice.id !in IdSet(core) ==> GreedyInv(sats + [choice], core, Keep(expanded, {choice.id}), core0, expanded0)
  {
    if choice.id in IdSet(core) {
      GreedyCoreStep(sats, core, expanded, core0, expanded0, choice);
    } else {
      GreedyExpandedStep(sats, core, expanded, core0, expanded0, choice);
    }
  }

  /** A core message chosen leaves the core. */
  lemma GreedyCoreStep(sats: seq<Message>, core: seq<Message>, expanded: seq<Message>, core0: seq<Message>,
                       expanded0: seq<Message>, choice: Message)
    requires GreedyInv(sats, core, expanded, core0, expanded0) && choice in core && choice.score > 0.0
    ensures GreedyInv(sats + [choice], Keep(core, {choice.id}), expanded, core0, expanded0)
  {
    assert Disjoint(sats, [choice]);
    NoDupConcat(sats, [choice]);
    KeepNoDup(core, {choice.id});
    var core1 := Keep(core, {choice.id});
    assert Disjoint(sats + [choice], core1);
    assert Disjoint(sats + [choice], expanded);
  }

  /** An expanded message chosen leaves the expanded list. */
  lemma GreedyExpandedStep(sats: seq<Message>, core: seq<Message>, expanded: seq<Message>, core0: seq<Message>,
                           expanded0: seq<Message>, choice: Message)
    requires GreedyInv(sats, core, expanded, core0, expanded0) && choice in expanded && choice.score > 0.0
    ensures GreedyInv(sats + [choice], core, Keep(expanded, {choice.id}), core0, expanded0)
  {
    assert Disjoint(sats, [choice]);
    NoDupConcat(sats, [choice]);
    KeepNoDup(expanded, {choice.id});
    var exp1 := Keep(expanded, {choice.id});
    assert Disjoint(sats + [choice], exp1);
    assert Disjoint(sats + [choice], core) by {
      forall x, y | x in sats + [choice] && y in core ensures x.id != y.id {
        if x == choice {
          var i :| 0 <= i < |core| && core[i] == y;
        }
      }
    }
  }

  /** One round of the satellite loop. */
  lemma GreedyFromAt(rescore: Rescorer, nucleus: Message, core: seq<Message>, expanded: seq<Message>, dist: nat,
                     previous: Message, sats: seq<Message>)
    requires |sats| <= MaxSatellites
    ensures var scored := rescore(core, expanded, dist, nucleus, previous);
      var r := GreedyFrom(rescore, nucleus, core, expanded, dist, previous, sats);
      (scored.Err? ==> r.Err?)
      && (scored.Ok? && Done(scored.value, nucleus, |sats|) ==> r == Ok(sats))
      && (scored.Ok? && !Done(scored.value, nucleus, |sats|) ==>
            var choice := SortDesc(Choices(scored.value, nucleus), Weight)[0].message;
            r == if choice.id in IdSet(core) then GreedyFrom(rescore, nucleus, Keep(core, {choice.id}), expanded, 1, choice, sats + [choice])
                 else GreedyFrom(rescore, nucleus, core, Keep(expanded, {choice.id}), dist + 1, choice, sats + [choice]))
  {
  }

  lemma {:induction false} GreedyFromSound(rescore: Rescorer, nucleus: Message, core: seq<Message>, expanded: seq<Message>, dist: nat,
                                           previous: Message, sats: seq<Message>, core0: seq<Message>, expanded0: seq<Message>)
    requires |sats| <= MaxSatellites
    requires RescoreSound(rescore) && GreedyInv(sats, core, expanded, core0, expanded0)
    ensures var r := GreedyFrom(rescore, nucleus, core, expanded, dist, previous, sats);
      r.Ok? ==> (|r.value| <= MaxSatellites && sats <= r.value && GreedyInv(r.value, [], [], core0, expanded0))
    decreases MaxSatellites - |sats|
  {
    GreedyFromAt(rescore, nucleus, core, expanded, dist, previous, sats);
    var scored := rescore(core, expanded, dist, nucleus, previous);
    if scored.Ok? && !Done(scored.value, nucleus, |sats|) {
      hide GreedyFrom, GreedyInv;
      ChoiceIsFirstMax(scored.value, nucleus);
      var choice := SortDesc(Choices(scored.value, nucleus), Weight)[0];
      assert choice in multiset(Choices(scored.value, nucleus));
      assert choice in scored.value;
      var m := choice.message;
      GreedyStep(rescore, nucleus, core, expanded, dist, previous, sats, core0, expanded0, m);
      var r := GreedyFrom(rescore, nucleus, core, expanded, dist, previous, sats);
      var next;
      if m.id in IdSet(core) {
        next := GreedyFrom(rescore, nucleus, Keep(core, {m.id}), expanded, 1, m, sats + [m]);
        GreedyFromSound(rescore, nucleus, Keep(core, {m.id}), expanded, 1, m, sats + [m], core0, expanded0);
      } else {
        next := GreedyFrom(rescore, nucleus, core, Keep(expanded, {m.id}), dist + 1, m, sats + [m]);
        GreedyFromSound(rescore, nucleus, core, Keep(expanded, {m.id}), dist + 1, m, sats + [m], core0, expanded0);
      }
      assert r == next;
      if r.Ok? {
        PrefixOfLonger(sats, [m], r.value);
      }
    } else if scored.Ok? {
      assert GreedyInv(sats, [], [], core0, expanded0);
    }
  }

  /** A prefix of a prefix. */
  lemma PrefixOfLonger<T>(a: seq<T>, b: seq<T>, c: seq<T>)
    requires a + b <= c
    ensures a <= c
  {
    assert c[..|a|] == (a + b)[..|a|] == a;
  }

  /** With a sound re-scoring and pools of distinct objects, the loop returns at most five
      satellites, pairwise distinct, each from one of the pools and with a positive score. */
  lemma GreedySound(rescore: Rescorer, nucleus: Message, core: seq<Message>, expanded: seq<Message>)
    requires RescoreSound(rescore) && NoDupIds(core + expanded)
    ensures var r := GreedyFrom(rescore, nucleus, core, expanded, 1, nucleus, []);
      r.Ok? ==> (|r.value| <= MaxSatellites && SatellitesFrom(r.value, core, expanded)
                 && forall m :: m in r.value ==> m.score > 0.0)
  {
    NoDupSplit(core, expanded);
    GreedyFromSound(rescore, nucleus, core, expanded, 1, nucleus, [], core, expanded);
  }

  /** The re-scoring never raises. */
  ghost predicate NeverRaises(rescore: Rescorer) {
    forall core, expanded, dist, nucleus, previous :: rescore(core, expanded, dist, nucleus, previous).Ok?
  }

  /** With a re-scoring that never raises, neither does the loop. */
  lemma {:induction false} GreedyFromTotal(rescore: Rescorer, nucleus: Message, core: seq<Message>, expanded: seq<Message>, dist: nat,
                                           previous: Message, sats: seq<Message>)
    requires |sats| <= MaxSatellites && NeverRaises(rescore)
    ensures GreedyFrom(rescore, nucleus, core, expanded, dist, previous, sats).Ok?
    decreases MaxSatellites - |sats|
  {
    var scored := rescore(core, expanded, dist, nucleus, previous).value;
    if !Done(scored, nucleus, |sats|) {
      var choice := SortDesc(Choices(scored, nucleus), Weight)[0].message;
      if choice.id in IdSet(core) {
        GreedyFromTotal(rescore, nucleus, Keep(core, {choice.id}), expanded, 1, choice, sats + [choice]);
      } else {
        GreedyFromTotal(rescore, nucleus, core, Keep(expanded, {choice.id}), dist + 1, choice, sats + [choice]);
      }
    }
  }

  // ---------------------------------------------------------------- the strategy

  /** `_select_satellites_for_nucleus`. */
  function Satellites(nucleus: Message, core: seq<Message>, expanded: seq<Message>): Result<seq<Message>> {
    GreedyFrom(Rescore, nucleus, core, expanded, 1, nucleus, [])
  }

  /** The full strategy never raises while picking satellites, and returns at most five distinct
      satellites from the pools, each with a positive score of its own. */
  lemma SatellitesMeaning(nucleus: Message, core: seq<Message>, expanded: seq<Message>)
    requires NoDupIds(core + expanded)
    ensures var r := Satellites(nucleus, core, expanded);
      r.Ok? && |r.value| <= MaxSatellites && SatellitesFrom(r.value, core, expanded)
      && forall m :: m in r.value ==> m.score > 0.0
  {
    RescoreIsSound();
    forall c, e, d, n, p ensures Rescore(c, e, d, n, p).Ok? {
      RescoreMeaning(c, e, d, n, p);
    }
    GreedyFromTotal(Rescore, nucleus, core, expanded, 1, nucleus, []);
    GreedySound(Rescore, nucleus, core, expanded);
  }

  /** `EUBodyDocumentPlanner` / `EUHeadlineDocumentPlanner`. */
  function FullStrategy(): Strategy {
    Strategy((pool, nuclei) => Ok(SelectNucleus(pool, nuclei)), RelativeThreshold,
             ThreeParams((n, core, expanded) => Satellites(n, core, expanded)), NewParagraphAbsolute)
  }

  /** The full strategy ends the loop at three nuclei, takes nuclei from the pool and satellites
      from the pools. */
  lemma FullStrategySound()
    ensures Stops(FullStrategy().selectNucleus, MaxParagraphs)
    ensures NucleusSound(FullStrategy().selectNucleus)
    ensures SatellitesSound(FullStrategy().satellites)
  {
    var st := FullStrategy();
    forall pool, nuclei | st.selectNucleus(pool, nuclei).Ok? && st.selectNucleus(pool, nuclei).value.nucleus.Some?
      ensures st.selectNucleus(pool, nuclei).value.nucleus.value in pool
           && multiset(st.selectNucleus(pool, nuclei).value.pool) == multiset(pool)
    {
      NucleusChoice(pool, nuclei);
    }
    forall n, core, expanded | NoDupIds(core + expanded) && st.satellites.select3(n, core, expanded).Ok?
      ensures SatellitesFrom(st.satellites.select3(n, core, expanded).value, core, expanded)
    {
      SatellitesMeaning(n, core, expanded);
    }
  }

  /** The full body planner builds one to three paragraphs, each led by its nucleus, and places
      every message at most once. */
  lemma FullBody(core: seq<Message>, expanded: seq<Message>)
    requires NoDupIds(core + expanded)
    ensures Stops(FullStrategy().selectNucleus, MaxParagraphs)
    ensures var r := Body(FullStrategy(), MaxParagraphs, core, expanded);
      r.Ok? ==> (r.value.1 == core + expanded && r.value.0.Node? && 1 <= |r.value.0.children| <= MaxParagraphs
                 && NoDupIds(Messages(r.value.0)) && Within(Messages(r.value.0), core + expanded))
  {
    FullStrategySound();
    BodyShape(FullStrategy(), MaxParagraphs, core, expanded);
    BodyAtMostOnce(FullStrategy(), MaxParagraphs, core, expanded);
  }

  /** The headline is the first core message of highest score; an empty core gives none. */
  lemma FullHeadline(core: seq<Message>, expanded: seq<Message>)
    ensures var r := Headline(FullStrategy().selectNucleus, core, expanded);
      (r.Ok? <==> core != [])
      && (r.Ok? ==> r.value == (Node([Node([Leaf(core[FirstMax(core, Score)])], Sequence)], Sequence), core + expanded))
  {
    assert TopicKeys([]) == [];
    if core != [] {
      SortDescHead(core, Score);
    }
  }
}

/** The early-stop strategy (`eu_early_stop_document_planner.py`): the context-similarity
    strategy's nucleus choice and thresholds, and as satellites simply the five most newsworthy
    core messages. The module also defines a greedy satellite loop without re-scoring, which its
    planner classes do not use. */
module EarlyStopPlanner {
  import opened Wrappers
  import opened Models
  import opened Ranking
  import opened DocumentPlanner
  import F = FullPlanner
  import C = ContextSimPlanner

  function Min(a: nat, b: nat): nat {
    if a < b then a else b
  }

  // ---------------------------------------------------------------- the five most newsworthy

  /** The first five messages by score, highest first and ties in pool order. */
  function Top(ms: seq<Message>): seq<Message> {
    SortByScore(ms)[..Min(F.MaxSatellites, |ms|)]
  }

  /** The class's `select_satellites_for_nucleus` loop: sort a copy by score, then pop its front
      while it is not empty and fewer than five are taken. */
  method TakeTop(ms: seq<Message>) returns (sats: seq<Message>)
    ensures sats == Top(ms)
  {
    sats := [];
    var available := SortByScore(ms);
    while available != [] && |sats| < F.MaxSatellites
      invariant |sats| <= F.MaxSatellites
      invariant sats + available == SortByScore(ms)
      decreases |available|
    {
      assert sats + available == (sats + [available[0]]) + available[1..];
      sats := sats + [available[0]];
      available := available[1..];
    }
    assert sats == SortByScore(ms)[..|sats|];
  }

  /** Five messages, or all when there are fewer; taken from the pool, each at most as often as it
      occurs there, none scoring lower than a message left out, and in descending order. */
  lemma TopMeaning(ms: seq<Message>)
    ensures var r := Top(ms);
      |r| == Min(F.MaxSatellites, |ms|)
      && multiset(r) <= multiset(ms)
      && SortedDesc(r, Score)
      && (forall x, y :: x in r && y in multiset(ms) - multiset(r) ==> x.score >= y.score)
      && (NoDupIds(ms) ==> NoDupIds(r))
  {
    var sorted := SortByScore(ms);
    assert Top(ms) == sorted[..Min(F.MaxSatellites, |ms|)];
    SortDescSorted(ms, Score);
    hide Top, SortByScore, SortDesc;
    PrefixOfSorted(ms, sorted, Min(F.MaxSatellites, |ms|));
  }

  /** The properties above, for any prefix of any descending permutation of the pool. */
  lemma PrefixOfSorted(ms: seq<Message>, sorted: seq<Message>, k: nat)
    requires multiset(sorted) == multiset(ms) && SortedDesc(sorted, Score) && k <= |sorted|
    ensures var r := sorted[..k];
      |r| == k
      && multiset(r) <= multiset(ms)
      && SortedDesc(r, Score)
      && (forall x, y :: x in r && y in multiset(ms) - multiset(r) ==> x.score >= y.score)
      && (NoDupIds(ms) ==> NoDupIds(r))
  {
    PrefixSplit(sorted, k);
    PrefixBeatsRest(sorted, k);
    if NoDupIds(ms) {
      PrefixNoDup(ms, sorted, k);
    }
  }

  lemma PrefixNoDup(ms: seq<Message>, sorted: seq<Message>, k: nat)
    requires multiset(sorted) == multiset(ms) && NoDupIds(ms) && k <= |sorted|
    ensures NoDupIds(sorted[..k])
  {
    PermNoDup(ms, sorted);
    assert sorted[..k] + sorted[k..] == sorted;
    NoDupSplit(sorted[..k], sorted[k..]);
  }

  lemma PrefixSplit<T>(s: seq<T>, k: nat)
    requires k <= |s|
    ensures multiset(s[..k]) + multiset(s[k..]) == multiset(s)
    ensures multiset(s) - multiset(s[..k]) == multiset(s[k..])
    ensures forall key: T -> real :: SortedDesc(s, key) ==> SortedDesc(s[..k], key)
  {
    assert s == s[..k] + s[k..];
  }

  /** In a descending list, each message of a prefix scores at least as much as each one after. */
  lemma PrefixBeatsRest(s: seq<Message>, k: nat)
    requires k <= |s| && SortedDesc(s, Score)
    ensures forall x, y :: x in s[..k] && y in multiset(s[k..]) ==> x.score >= y.score
  {
    forall x: Message, y: Message | x in s[..k] && y in multiset(s[k..]) ensures x.score >= y.score {
      var i :| 0 <= i < k && s[..k][i] == x;
      var j :| 0 <= j < |s[k..]| && s[k..][j] == y;
      assert s[i] == x && s[k + j] == y;
    }
  }

  /** The class's satellites: the five most newsworthy of the core pool it is given. */
  function ClassSatellites(nucleus: Message, available: seq<Message>): Result<seq<Message>> {
    Ok(Top(available))
  }

  // ---------------------------------------------------------------- the module's greedy loop

  /** The module function's candidates: the positive-score messages at their own score. */
  function PlainScores(core: seq<Message>, expanded: seq<Message>, dist: nat, nucleus: Message, previous: Message): Result<seq<F.Scored>> {
    Ok(F.Positive(core))
  }

  lemma PlainScoresSound()
    ensures F.RescoreSound(PlainScores) && F.NeverRaises(PlainScores)
  {
  }

  /** The module function `_select_satellites_for_nucleus`: the full strategy's greedy rounds,
      thresholds and bounds over one pool, without re-scoring. */
  function GreedySatellites(nucleus: Message, available: seq<Message>): Result<seq<Message>> {
    F.GreedyFrom(PlainScores, nucleus, available, [], 1, nucleus, [])
  }

  /** It never raises and returns at most five distinct messages of the pool with positive scores. */
  lemma GreedySatellitesMeaning(nucleus: Message, available: seq<Message>)
    requires NoDupIds(available)
    ensures var r := GreedySatellites(nucleus, available);
      r.Ok? && |r.value| <= F.MaxSatellites && NoDupIds(r.value)
      && forall m :: m in r.value ==> m in available && m.score > 0.0
  {
    PlainScoresSound();
    assert available + [] == available;
    F.GreedySound(PlainScores, nucleus, available, []);
    F.GreedyFromTotal(PlainScores, nucleus, available, [], 1, nucleus, []);
  }

  // ---------------------------------------------------------------- the strategy

  /** `EUEarlyStopBodyDocumentPlanner` / `EUEarlyStopHeadlineDocumentPlanner`. Its
      `select_satellites_for_nucleus` declares two parameters besides `self`. */
  function EarlyStopStrategy(): Strategy {
    Strategy(C.TopNucleus, C.RelativeThreshold, TwoParams(ClassSatellites), F.NewParagraphAbsolute)
  }

  /** The body planner always raises: with no nucleus, or one scoring under 0.5, it finds no
      nuclei; otherwise the call of `select_satellites_for_nucleus` with three arguments fails. */
  lemma EarlyStopBody(core: seq<Message>, expanded: seq<Message>)
    ensures Stops(EarlyStopStrategy().selectNucleus, F.MaxParagraphs)
    ensures Body(EarlyStopStrategy(), F.MaxParagraphs, core, expanded) ==
      if core != [] && core[FirstMax(core, Score)].score >= F.NewParagraphAbsolute then Err(TypeError(TooManyArguments()))
      else Err(PlanningFailed)
  {
    C.TopNucleusSound();
    C.TopNucleusMeaning(core, []);
  }

  /** The headline is the first core message of highest score; an empty core gives none. */
  lemma EarlyStopHeadline(core: seq<Message>, expanded: seq<Message>)
    ensures var r := Headline(EarlyStopStrategy().selectNucleus, core, expanded);
      (r.Ok? <==> core != [])
      && (r.Ok? ==> r.value == (Node([Node([Leaf(core[FirstMax(core, Score)])], Sequence)], Sequence), core + expanded))
  {
    C.TopNucleusMeaning(core, []);
  }
}

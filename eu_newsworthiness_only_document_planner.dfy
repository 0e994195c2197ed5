/** The score-only strategy (`eu_newsworthiness_only_document_planner.py`): the most newsworthy
    message as nucleus, no relative threshold, and as satellites the five most newsworthy
    messages of both pools together. */
module ScorePlanner {
  import opened Wrappers
  import opened Models
  import opened Ranking
  import opened DocumentPlanner
  import F = FullPlanner
  import C = ContextSimPlanner
  import E = EarlyStopPlanner

  /** `new_paragraph_relative_threshold`: `float("-inf")` whatever the nuclei. */
  function Unbounded(nuclei: seq<Message>): (t: Threshold)
    ensures forall s: real :: !Below(s, t)
  {
    NegInf
  }

  /** `select_satellites_for_nucleus`: the two pools joined, sorted by score, and the first five
      taken. */
  function Satellites(nucleus: Message, core: seq<Message>, expanded: seq<Message>): Result<seq<Message>> {
    Ok(E.Top(core + expanded))
  }

  /** The same, as the source's loop: the joined pools sorted, then popped from the front. */
  method SelectSatellites(nucleus: Message, core: seq<Message>, expanded: seq<Message>) returns (sats: seq<Message>)
    ensures Ok(sats) == Satellites(nucleus, core, expanded)
  {
    sats := E.TakeTop(core + expanded);
  }

  /** It never raises; it returns five messages, or all of both pools when they hold fewer; each is
      taken from the pools, none scores lower than a message left out, they come highest first, and
      distinct input objects give distinct satellites. */
  lemma SatellitesMeaning(nucleus: Message, core: seq<Message>, expanded: seq<Message>)
    ensures var r := Satellites(nucleus, core, expanded);
      r.Ok?
      && |r.value| == E.Min(F.MaxSatellites, |core| + |expanded|)
      && multiset(r.value) <= multiset(core + expanded)
      && SortedDesc(r.value, Score)
      && (forall x, y :: x in r.value && y in multiset(core + expanded) - multiset(r.value) ==> x.score >= y.score)
      && (NoDupIds(core + expanded) ==> SatellitesFrom(r.value, core, expanded))
  {
    var all := core + expanded;
    var r := E.Top(all);
    E.TopMeaning(all);
    forall m | m in r ensures m in core || m in expanded {
      assert m in multiset(r);
      assert m in multiset(all);
    }
  }

  /** `EUScoreBodyDocumentPlanner` / `EUScoreHeadlineDocumentPlanner`. */
  function ScoreStrategy(): Strategy {
    Strategy(C.TopNucleus, Unbounded, ThreeParams(Satellites), F.NewParagraphAbsolute)
  }

  lemma ScoreStrategySound()
    ensures Stops(ScoreStrategy().selectNucleus, F.MaxParagraphs)
    ensures NucleusSound(ScoreStrategy().selectNucleus)
    ensures SatellitesSound(ScoreStrategy().satellites)
    ensures SelectTotal(ScoreStrategy().selectNucleus) && SatellitesTotal(ScoreStrategy().satellites)
  {
    C.TopNucleusSound();
    var st := ScoreStrategy();
    forall n, core, expanded | NoDupIds(core + expanded) && st.satellites.select3(n, core, expanded).Ok?
      ensures SatellitesFrom(st.satellites.select3(n, core, expanded).value, core, expanded)
    {
      SatellitesMeaning(n, core, expanded);
    }
  }

  /** The body planner succeeds exactly when the core pool's best message scores at least 0.5;
      then its plan is one to three paragraphs, the first led by that message, with every message
      placed at most once and taken from the input. */
  lemma ScoreBody(core: seq<Message>, expanded: seq<Message>)
    ensures Stops(ScoreStrategy().selectNucleus, F.MaxParagraphs)
    ensures var r := Body(ScoreStrategy(), F.MaxParagraphs, core, expanded);
      (r.Ok? <==> core != [] && core[FirstMax(core, Score)].score >= F.NewParagraphAbsolute)
      && (r.Err? ==> r == Err(PlanningFailed))
      && (r.Ok? ==>
            r.value.1 == core + expanded && r.value.0.Node?
            && 1 <= |r.value.0.children| <= F.MaxParagraphs
            && r.value.0.children[0] == Paragraph(core[FirstMax(core, Score)],
               E.Top(Keep(core, {core[FirstMax(core, Score)].id}) + expanded)))
      && (r.Ok? && NoDupIds(core + expanded) ==> NoDupIds(Messages(r.value.0)) && Within(Messages(r.value.0), core + expanded))
  {
    var st := ScoreStrategy();
    ScoreStrategySound();
    C.TopNucleusMeaning(core, []);
    BodyRuns(st, F.MaxParagraphs, core, expanded);
    BodyShape(st, F.MaxParagraphs, core, expanded);
    if !Stop(st, st.selectNucleus(core, []).value, []) {
      BodyFirstParagraph(st, F.MaxParagraphs, core, expanded);
    }
    if NoDupIds(core + expanded) {
      BodyAtMostOnce(st, F.MaxParagraphs, core, expanded);
    }
  }

  /** The headline is the first core message of highest score; an empty core gives none. */
  lemma ScoreHeadline(core: seq<Message>, expanded: seq<Message>)
    ensures var r := Headline(ScoreStrategy().selectNucleus, core, expanded);
      (r.Ok? <==> core != [])
      && (r.Ok? ==> r.value == (Node([Node([Leaf(core[FirstMax(core, Score)])], Sequence)], Sequence), core + expanded))
  {
    C.TopNucleusMeaning(core, []);
  }
}

/** The random strategy (`eu_random_document_planner.py`): a random nucleus, no relative threshold,
    an absolute threshold of 0, and up to five satellites drawn at random from both pools. The
    random module is an oracle the caller supplies: `choose` gives the index `random.choice` takes,
    `draw` the position of the message that ends up last after `random.shuffle` and is popped. The
    order the shuffles leave the rest of the pool in does not matter, since the pool is shuffled
    again before the next pop and never handed back. */
module RandomPlanner {
  import opened Wrappers
  import opened Models
  import opened DocumentPlanner
  import F = FullPlanner
  import E = EarlyStopPlanner
  import S = ScorePlanner

  const RandomAbsolute: real := 0.0

  // ---------------------------------------------------------------- nucleus

  /** `_select_next_nucleus`: no nucleus once three exist; otherwise `random.choice` of the pool,
      which raises IndexError on an empty pool. */
  function RandomNucleus(choose: (seq<Message>, seq<Message>) -> nat, pool: seq<Message>, nuclei: seq<Message>): (r: Result<NucleusPick>)
    ensures r.Err? <==> |nuclei| < F.MaxParagraphs && pool == []
    ensures r.Err? ==> r.error == IndexError
    ensures r.Ok? ==> r.value.pool == pool && (r.value.nucleus.None? <==> |nuclei| >= F.MaxParagraphs)
    ensures r.Ok? && r.value.nucleus.Some? ==> r.value.nucleus.value in pool && r.value.score == r.value.nucleus.value.score
  {
    if |nuclei| >= F.MaxParagraphs then Ok(NucleusPick(None, 0.0, pool))
    else if pool == [] then Err(IndexError)
    else
      var m := pool[choose(pool, nuclei) % |pool|];
      Ok(NucleusPick(Some(m), m.score, pool))
  }

  function Chooser(choose: (seq<Message>, seq<Message>) -> nat): (seq<Message>, seq<Message>) -> Result<NucleusPick> {
    (pool: seq<Message>, nuclei: seq<Message>) => RandomNucleus(choose, pool, nuclei)
  }

  // ---------------------------------------------------------------- satellites

  function RemoveAt(s: seq<Message>, i: nat): (r: seq<Message>)
    requires i < |s|
    ensures |r| == |s| - 1 && multiset(r) + multiset{s[i]} == multiset(s)
  {
    assert s == s[..i] + [s[i]] + s[i + 1..];
    s[..i] + s[i + 1..]
  }

  /** The loop of `select_satellites_for_nucleus` from a given state: while the pool is not empty
      and fewer than five are taken, one more message leaves the pool for the satellites. */
  function Draws(draw: seq<Message> -> nat, available: seq<Message>, sats: seq<Message>): seq<Message>
    decreases |available|
  {
    if available == [] || |sats| >= F.MaxSatellites then sats
    else
      var i := draw(available) % |available|;
      Draws(draw, RemoveAt(available, i), sats + [available[i]])
  }

  /** `select_satellites_for_nucleus` over `core + expanded`. */
  function RandomSatellites(draw: seq<Message> -> nat, nucleus: Message, core: seq<Message>, expanded: seq<Message>): Result<seq<Message>> {
    Ok(Draws(draw, core + expanded, []))
  }

  function Drawer(draw: seq<Message> -> nat): (Message, seq<Message>, seq<Message>) -> Result<seq<Message>> {
    (n: Message, core: seq<Message>, expanded: seq<Message>) => RandomSatellites(draw, n, core, expanded)
  }

  /** The loop as the source writes it. */
  method DrawSatellites(draw: seq<Message> -> nat, nucleus: Message, core: seq<Message>, expanded: seq<Message>) returns (sats: seq<Message>)
    ensures Ok(sats) == RandomSatellites(draw, nucleus, core, expanded)
  {
    sats := [];
    var available := core + expanded;
    while available != [] && |sats| < F.MaxSatellites
      invariant Draws(draw, available, sats) == Draws(draw, core + expanded, [])
      decreases |available|
    {
      var i := draw(available) % |available|;
      sats := sats + [available[i]];
      available := RemoveAt(available, i);
    }
  }

  /** The satellites so far stay in front; the loop adds `min(5 - taken, pool)` messages, each
      taken from the pool at most as often as it occurs there, and the whole pool when it fits. */
  lemma {:induction false} DrawsMeaning(draw: seq<Message> -> nat, available: seq<Message>, sats: seq<Message>)
    requires |sats| <= F.MaxSatellites
    ensures var r := Draws(draw, available, sats);
      |r| == |sats| + E.Min(F.MaxSatellites - |sats|, |available|)
      && sats <= r
      && multiset(r) <= multiset(sats) + multiset(available)
      && (|sats| + |available| <= F.MaxSatellites ==> multiset(r) == multiset(sats) + multiset(available))
    decreases |available|
  {
    if available != [] && |sats| < F.MaxSatellites {
      var i := draw(available) % |available|;
      var rest := RemoveAt(available, i);
      DrawsMeaning(draw, rest, sats + [available[i]]);
      assert multiset(sats + [available[i]]) + multiset(rest) == multiset(sats) + multiset(available);
    }
  }

  /** It never raises; it returns five messages, or all of both pools when they hold fewer, each
      taken from the pools, and every message of the pools when there are at most five of them. */
  lemma RandomSatellitesMeaning(draw: seq<Message> -> nat, nucleus: Message, core: seq<Message>, expanded: seq<Message>)
    ensures var r := RandomSatellites(draw, nucleus, core, expanded);
      r.Ok?
      && |r.value| == E.Min(F.MaxSatellites, |core| + |expanded|)
      && multiset(r.value) <= multiset(core + expanded)
      && (|core| + |expanded| <= F.MaxSatellites ==> multiset(r.value) == multiset(core + expanded))
      && (NoDupIds(core + expanded) ==> SatellitesFrom(r.value, core, expanded))
  {
    var all := core + expanded;
    var r := Draws(draw, all, []);
    DrawsMeaning(draw, all, []);
    var none: seq<Message> := [];
    assert multiset(none) + multiset(all) == multiset(all);
    forall m | m in r ensures m in all {
      assert m in multiset(r);
    }
    if NoDupIds(all) {
      SubMultisetNoDup(all, r);
    }
  }

  /** Taking each message at most as often as a list of distinct objects holds it gives distinct
      objects. */
  lemma SubMultisetNoDup(a: seq<Message>, b: seq<Message>)
    requires NoDupIds(a) && multiset(b) <= multiset(a)
    ensures NoDupIds(b)
  {
    forall i, j | 0 <= i < j < |b| ensures b[i].id != b[j].id {
      if b[i].id == b[j].id {
        var x, y := b[i], b[j];
        assert x in multiset(a) && y in multiset(a);
        var p :| 0 <= p < |a| && a[p] == x;
        var q :| 0 <= q < |a| && a[q] == y;
        if p == q {
          RepeatCounts(b, i, j);
          NoDupCounts(a, x);
        }
      }
    }
  }

  // ---------------------------------------------------------------- the strategy

  /** `EURandomBodyDocumentPlanner` / `EURandomHeadlineDocumentPlanner`. */
  function RandomStrategy(choose: (seq<Message>, seq<Message>) -> nat, draw: seq<Message> -> nat): Strategy {
    Strategy(Chooser(choose), S.Unbounded, ThreeParams(Drawer(draw)), RandomAbsolute)
  }

  lemma RandomStrategySound(choose: (seq<Message>, seq<Message>) -> nat, draw: seq<Message> -> nat)
    ensures Stops(RandomStrategy(choose, draw).selectNucleus, F.MaxParagraphs)
    ensures NucleusSound(RandomStrategy(choose, draw).selectNucleus)
    ensures SatellitesSound(RandomStrategy(choose, draw).satellites)
    ensures SatellitesTotal(RandomStrategy(choose, draw).satellites)
  {
    var st := RandomStrategy(choose, draw);
    forall n, core, expanded | NoDupIds(core + expanded) && st.satellites.select3(n, core, expanded).Ok?
      ensures SatellitesFrom(st.satellites.select3(n, core, expanded).value, core, expanded)
    {
      RandomSatellitesMeaning(draw, n, core, expanded);
    }
  }

  /** A successful body plan is one to three paragraphs over the input, each message placed at most
      once when the input holds distinct objects. An empty core pool raises IndexError, and a first
      nucleus of negative score finds no nuclei. */
  lemma RandomBody(choose: (seq<Message>, seq<Message>) -> nat, draw: seq<Message> -> nat, core: seq<Message>, expanded: seq<Message>)
    ensures Stops(RandomStrategy(choose, draw).selectNucleus, F.MaxParagraphs)
    ensures var r := Body(RandomStrategy(choose, draw), F.MaxParagraphs, core, expanded);
      (core == [] ==> r == Err(IndexError))
      && (core != [] && core[choose(core, []) % |core|].score < RandomAbsolute ==> r == Err(PlanningFailed))
      && (r.Ok? ==>
            r.value.1 == core + expanded && r.value.0.Node?
            && 1 <= |r.value.0.children| <= F.MaxParagraphs
            && r.value.0.children[0] == Paragraph(core[choose(core, []) % |core|],
                 Draws(draw, Keep(core, {core[choose(core, []) % |core|].id}) + expanded, [])))
      && (r.Ok? && NoDupIds(core + expanded) ==> NoDupIds(Messages(r.value.0)) && Within(Messages(r.value.0), core + expanded))
  {
    var st := RandomStrategy(choose, draw);
    RandomStrategySound(choose, draw);
    BodyShape(st, F.MaxParagraphs, core, expanded);
    var pick := st.selectNucleus(core, []);
    if pick.Ok? && !Stop(st, pick.value, []) {
      BodyFirstParagraph(st, F.MaxParagraphs, core, expanded);
    }
    if NoDupIds(core + expanded) {
      BodyAtMostOnce(st, F.MaxParagraphs, core, expanded);
    }
  }

  /** When the first paragraph can take every other message of the input, the next call of
      `random.choice` meets an empty core pool and the body planner raises IndexError. */
  lemma RandomBodyRunsOut(choose: (seq<Message>, seq<Message>) -> nat, draw: seq<Message> -> nat, core: seq<Message>, expanded: seq<Message>)
    requires core != [] && |core| + |expanded| <= F.MaxSatellites + 1
    requires core[choose(core, []) % |core|].score >= RandomAbsolute
    ensures Stops(RandomStrategy(choose, draw).selectNucleus, F.MaxParagraphs)
    ensures Body(RandomStrategy(choose, draw), F.MaxParagraphs, core, expanded) == Err(IndexError)
  {
    var st := RandomStrategy(choose, draw);
    RandomStrategySound(choose, draw);
    var n := core[choose(core, []) % |core|];
    var core1 := Keep(core, {n.id});
    var sats := Draws(draw, core1 + expanded, []);
    BodyFromStep(st, F.MaxParagraphs, core + expanded, core, expanded, [], []);
    TakesAll(draw, core, expanded, n);
    assert [] + [n] == [n];
    BodyFromStopped(st, F.MaxParagraphs, core + expanded, [], Keep(expanded, IdSet(sats)), [n], [] + [Paragraph(n, sats)]);
  }

  /** The first paragraph's satellites empty the core pool when the input has at most six messages. */
  lemma TakesAll(draw: seq<Message> -> nat, core: seq<Message>, expanded: seq<Message>, n: Message)
    requires n in core && |core| + |expanded| <= F.MaxSatellites + 1
    ensures var core1 := Keep(core, {n.id});
      Keep(core1, IdSet(Draws(draw, core1 + expanded, []))) == []
  {
    var core1 := Keep(core, {n.id});
    KeepShrinks(core, n);
    var sats := Draws(draw, core1 + expanded, []);
    AllDrawn(draw, core1 + expanded);
    hide Draws;
    var drop := IdSet(sats);
    forall m | m in core1 ensures m.id in drop {
      assert m in core1 + expanded;
    }
    KeepNone(core1, drop);
  }

  lemma KeepNone(ms: seq<Message>, drop: set<nat>)
    requires forall m :: m in ms ==> m.id in drop
    ensures Keep(ms, drop) == []
  {
    if Keep(ms, drop) != [] {
      assert Keep(ms, drop)[0] in Keep(ms, drop);
    }
  }

  /** A pool of at most five messages is drawn entirely. */
  lemma AllDrawn(draw: seq<Message> -> nat, available: seq<Message>)
    requires |available| <= F.MaxSatellites
    ensures forall m :: m in available ==> m in Draws(draw, available, [])
  {
    DrawsMeaning(draw, available, []);
    var none: seq<Message> := [];
    assert multiset(none) + multiset(available) == multiset(available);
    forall m | m in available ensures m in Draws(draw, available, []) {
      assert m in multiset(Draws(draw, available, []));
    }
  }

  /** Dropping the id of a message of the list shortens it. */
  lemma {:induction false} KeepShrinks(ms: seq<Message>, x: Message)
    requires x in ms
    ensures |Keep(ms, {x.id})| < |ms|
    decreases |ms|
  {
    if ms[0] != x {
      KeepShrinks(ms[1..], x);
    }
  }

  /** The headline is the message `random.choice` picks from the core pool, which raises
      IndexError when the core pool is empty. */
  lemma RandomHeadline(choose: (seq<Message>, seq<Message>) -> nat, draw: seq<Message> -> nat, core: seq<Message>, expanded: seq<Message>)
    ensures var r := Headline(RandomStrategy(choose, draw).selectNucleus, core, expanded);
      (core == [] ==> r == Err(IndexError))
      && (core != [] ==> r == Ok((Node([Node([Leaf(core[choose(core, []) % |core|])], Sequence)], Sequence), core + expanded)))
  {
  }
}

/** The document planner's core loop (`core/document_planner.py`): the headline plan, and the body
    loop that picks a nucleus, checks it against the absolute and relative thresholds, gathers its
    satellites and takes both out of the pools. The strategy (nucleus choice, relative threshold,
    satellite choice, absolute threshold) comes from one of the variant modules. */
module DocumentPlanner {
  import opened Wrappers
  import opened Models

  // ---------------------------------------------------------------- pools, by identity

  /** The ids of a list of messages; a message's `id` stands for its Python object identity, which
      is what `==`, `!=` and `in` compare on messages. */
  function IdSet(ms: seq<Message>): (r: set<nat>)
    ensures forall i :: 0 <= i < |ms| ==> ms[i].id in r
    ensures forall x :: x in r ==> exists i :: 0 <= i < |ms| && ms[i].id == x
  {
    if ms == [] then {} else {ms[0].id} + IdSet(ms[1..])
  }

  /** `[m for m in ms if m not in drop]`, with `drop` given by the ids it holds. */
  function Keep(ms: seq<Message>, drop: set<nat>): (r: seq<Message>)
    ensures forall m :: m in r <==> m in ms && m.id !in drop
    ensures |r| <= |ms|
  {
    if ms == [] then []
    else (if ms[0].id in drop then [] else [ms[0]]) + Keep(ms[1..], drop)
  }

  /** No two entries are the same object. */
  predicate NoDupIds(ms: seq<Message>) {
    forall i, j :: 0 <= i < j < |ms| ==> ms[i].id != ms[j].id
  }

  /** No object is in both lists. */
  predicate Disjoint(a: seq<Message>, b: seq<Message>) {
    forall x, y :: x in a && y in b ==> x.id != y.id
  }

  /** Every entry of `a` is an entry of `b`. */
  predicate Within(a: seq<Message>, b: seq<Message>) {
    forall x :: x in a ==> x in b
  }

  lemma {:induction false} KeepNoDup(ms: seq<Message>, drop: set<nat>)
    requires NoDupIds(ms)
    ensures NoDupIds(Keep(ms, drop))
    decreases |ms|
  {
    if ms != [] {
      assert NoDupIds(ms[1..]) by {
        forall i, j | 0 <= i < j < |ms[1..]| ensures ms[1..][i].id != ms[1..][j].id {
          assert ms[1..][i] == ms[i + 1] && ms[1..][j] == ms[j + 1];
        }
      }
      KeepNoDup(ms[1..], drop);
      var rest := Keep(ms[1..], drop);
      forall y | y in rest ensures y.id != ms[0].id {
        var j :| 0 <= j < |ms[1..]| && ms[1..][j] == y;
        assert ms[j + 1] == y;
      }
    }
  }

  lemma NoDupConcat(a: seq<Message>, b: seq<Message>)
    requires NoDupIds(a) && NoDupIds(b) && Disjoint(a, b)
    ensures NoDupIds(a + b)
  {
    var s := a + b;
    forall i, j | 0 <= i < j < |s| ensures s[i].id != s[j].id {
      if j < |a| {
        assert s[i] == a[i] && s[j] == a[j];
      } else if i >= |a| {
        assert s[i] == b[i - |a|] && s[j] == b[j - |a|];
      } else {
        assert s[i] in a && s[j] in b;
      }
    }
  }

  lemma RepeatCounts(s: seq<Message>, i: nat, j: nat)
    requires i < j < |s| && s[i] == s[j]
    ensures multiset(s)[s[i]] >= 2
  {
    assert s == s[..j] + [s[j]] + s[j + 1..];
    assert s[i] in s[..j];
  }

  lemma {:induction false} NoDupCounts(s: seq<Message>, x: Message)
    requires NoDupIds(s)
    ensures multiset(s)[x] <= 1
    decreases |s|
  {
    if s != [] {
      assert s == [s[0]] + s[1..];
      assert NoDupIds(s[1..]) by {
        forall i, j | 0 <= i < j < |s[1..]| ensures s[1..][i].id != s[1..][j].id {
          assert s[1..][i] == s[i + 1] && s[1..][j] == s[j + 1];
        }
      }
      NoDupCounts(s[1..], x);
      forall k | 0 <= k < |s[1..]| ensures s[1..][k] != s[0] {
        assert s[1..][k] == s[k + 1];
      }
    }
  }

  /** A reordering of a list of distinct objects holds distinct objects. */
  lemma PermNoDup(a: seq<Message>, b: seq<Message>)
    requires NoDupIds(a) && multiset(a) == multiset(b)
    ensures NoDupIds(b)
  {
    forall i, j | 0 <= i < j < |b| ensures b[i].id != b[j].id {
      if b[i] == b[j] {
        RepeatCounts(b, i, j);
        NoDupCounts(a, b[i]);
      } else {
        assert b[i] in multiset(a) && b[j] in multiset(a);
        var p :| 0 <= p < |a| && a[p] == b[i];
        var q :| 0 <= q < |a| && a[q] == b[j];
        assert p != q;
      }
    }
  }

  // ---------------------------------------------------------------- plans

  function Leaves(ms: seq<Message>): (r: seq<Plan>)
    ensures |r| == |ms| && forall k :: 0 <= k < |r| ==> r[k] == Leaf(ms[k])
  {
    seq(|ms|, k requires 0 <= k < |ms| => Leaf(ms[k]))
  }

  /** `DocumentPlanNode([nucleus] + satellites, Relation.SEQUENCE)`. */
  function Paragraph(nucleus: Message, satellites: seq<Message>): Plan {
    Node([Leaf(nucleus)] + Leaves(satellites), Sequence)
  }

  /** A paragraph: a SEQUENCE node of messages, the nucleus first. */
  predicate ParagraphShape(p: Plan) {
    p.Node? && p.relation == Sequence && |p.children| >= 1
    && forall k :: 0 <= k < |p.children| ==> p.children[k].Leaf?
  }

  /** Every plan of the list is a paragraph. */
  predicate Paragraphs(ps: seq<Plan>) {
    forall k :: 0 <= k < |ps| ==> ParagraphShape(ps[k])
  }

  lemma ParagraphsSnoc(ps: seq<Plan>, n: Message, sats: seq<Message>)
    requires Paragraphs(ps)
    ensures Paragraphs(ps + [Paragraph(n, sats)])
  {
    var para := Paragraph(n, sats);
    assert ParagraphShape(para);
    var ps' := ps + [para];
    forall k | 0 <= k < |ps'| ensures ParagraphShape(ps'[k]) {
      if k < |ps| {
        assert ps'[k] == ps[k];
      }
    }
  }

  lemma {:induction false} MessagesOfLeaves(w: Plan, ms: seq<Message>)
    requires forall k :: 0 <= k < |Leaves(ms)| ==> Leaves(ms)[k] < w
    ensures MessagesOf(w, Leaves(ms)) == ms
    decreases |ms|
  {
    if ms != [] {
      assert Leaves(ms)[1..] == Leaves(ms[1..]);
      MessagesOfLeaves(w, ms[1..]);
    }
  }

  /** A paragraph's messages are its nucleus followed by its satellites. */
  lemma ParagraphMessages(nucleus: Message, satellites: seq<Message>)
    ensures Messages(Paragraph(nucleus, satellites)) == [nucleus] + satellites
  {
    var p := Paragraph(nucleus, satellites);
    var cs := [Leaf(nucleus)] + Leaves(satellites);
    assert cs[1..] == Leaves(satellites);
    forall k | 0 <= k < |Leaves(satellites)| ensures Leaves(satellites)[k] < p {
      assert Leaves(satellites)[k] == cs[k + 1];
    }
    MessagesOfLeaves(p, satellites);
    assert Messages(p) == Messages(cs[0]) + MessagesOf(p, cs[1..]);
  }

  lemma {:induction false} MessagesOfSnoc(w: Plan, cs: seq<Plan>, p: Plan, w2: Plan)
    requires forall i :: 0 <= i < |cs| ==> cs[i] < w
    requires forall i :: 0 <= i < |cs| + 1 ==> (cs + [p])[i] < w2
    ensures MessagesOf(w2, cs + [p]) == MessagesOf(w, cs) + Messages(p)
    decreases |cs|
  {
    if cs == [] {
      assert [p][1..] == [];
    } else {
      assert (cs + [p])[1..] == cs[1..] + [p];
      MessagesOfSnoc(w, cs[1..], p, w2);
    }
  }

  /** Appending a child appends its messages. */
  lemma MessagesAppend(cs: seq<Plan>, p: Plan, rel: Relation)
    ensures Messages(Node(cs + [p], rel)) == Messages(Node(cs, rel)) + Messages(p)
  {
    MessagesOfSnoc(Node(cs, rel), cs, p, Node(cs + [p], rel));
  }

  // ---------------------------------------------------------------- strategies

  /** A relative threshold; the source's `float("-inf")` admits every score. */
  datatype Threshold = NegInf | Finite(value: real)

  predicate Below(score: real, t: Threshold) {
    t.Finite? && score < t.value
  }

  /** What `select_next_nucleus` gives back: the nucleus or None, its score, and the caller's pool
      after the call (one strategy reorders it in place). */
  datatype NucleusPick = NucleusPick(nucleus: Option<Message>, score: real, pool: seq<Message>)

  /** A strategy's `select_satellites_for_nucleus`, with the number of parameters it declares. */
  datatype SatelliteSelector =
    | TwoParams(select2: (Message, seq<Message>) -> Result<seq<Message>>)
    | ThreeParams(select3: (Message, seq<Message>, seq<Message>) -> Result<seq<Message>>)

  datatype Strategy = Strategy(
    selectNucleus: (seq<Message>, seq<Message>) -> Result<NucleusPick>,
    relativeThreshold: seq<Message> -> Threshold,
    satellites: SatelliteSelector,
    absoluteThreshold: real)

  function TooManyArguments(): string {
    "3 arguments, 4 given"
  }

  /** The body loop's call `select_satellites_for_nucleus(nucleus, core, expanded)`: a method that
      declares only two parameters besides `self` raises TypeError. */
  function CallSatellites(sel: SatelliteSelector, nucleus: Message, core: seq<Message>, expanded: seq<Message>): (r: Result<seq<Message>>)
    ensures sel.TwoParams? ==> r == Err(TypeError(TooManyArguments()))
    ensures sel.ThreeParams? ==> r == sel.select3(nucleus, core, expanded)
  {
    match sel
    case TwoParams(_) => Err(TypeError(TooManyArguments()))
    case ThreeParams(f) => f(nucleus, core, expanded)
  }

  /** The nucleus selector returns no nucleus once `bound` nuclei exist: what ends the loop. */
  ghost predicate Stops(select: (seq<Message>, seq<Message>) -> Result<NucleusPick>, bound: nat) {
    forall pool, nuclei :: |nuclei| >= bound && select(pool, nuclei).Ok? ==> select(pool, nuclei).value.nucleus.None?
  }

  /** A chosen nucleus comes from the pool, and the pool is at most reordered. */
  ghost predicate NucleusSound(select: (seq<Message>, seq<Message>) -> Result<NucleusPick>) {
    forall pool, nuclei :: select(pool, nuclei).Ok? && select(pool, nuclei).value.nucleus.Some? ==>
      select(pool, nuclei).value.nucleus.value in pool && multiset(select(pool, nuclei).value.pool) == multiset(pool)
  }

  /** Satellites are distinct objects drawn from the two pools they are offered. */
  predicate SatellitesFrom(sats: seq<Message>, core: seq<Message>, expanded: seq<Message>) {
    NoDupIds(sats) && forall m :: m in sats ==> m in core || m in expanded
  }

  ghost predicate SatellitesSound(sel: SatelliteSelector) {
    sel.ThreeParams? ==> forall n, core, expanded ::
      NoDupIds(core + expanded) && sel.select3(n, core, expanded).Ok? ==>
        SatellitesFrom(sel.select3(n, core, expanded).value, core, expanded)
  }

  // ---------------------------------------------------------------- body

  /** Whether the loop stops at this pick. */
  predicate Stop(st: Strategy, pick: NucleusPick, nuclei: seq<Message>) {
    pick.nucleus.None? || pick.score < st.absoluteThreshold || Below(pick.score, st.relativeThreshold(nuclei))
  }

  /** The body loop from a given state: the available pools, the nuclei so far and the paragraphs so
      far; `input` is `core_messages + expanded_messages`, the second result. */
  function BodyFrom(st: Strategy, bound: nat, input: seq<Message>, core: seq<Message>, expanded: seq<Message>,
                    nuclei: seq<Message>, paragraphs: seq<Plan>): Result<(Plan, seq<Message>)>
    requires Stops(st.selectNucleus, bound) && |nuclei| <= bound
    decreases bound - |nuclei|
  {
    var pick :- st.selectNucleus(core, nuclei);
    if Stop(st, pick, nuclei) then
      if nuclei != [] then Ok((Node(paragraphs, Sequence), input)) else Err(PlanningFailed)
    else
      var n := pick.nucleus.value;
      var core1 := Keep(pick.pool, {n.id});
      var sats :- CallSatellites(st.satellites, n, core1, expanded);
      var drop := IdSet(sats);
      BodyFrom(st, bound, input, Keep(core1, drop), Keep(expanded, drop), nuclei + [n], paragraphs + [Paragraph(n, sats)])
  }

  /** `BodyDocumentPlanner.run`. */
  function Body(st: Strategy, bound: nat, core: seq<Message>, expanded: seq<Message>): Result<(Plan, seq<Message>)>
    requires Stops(st.selectNucleus, bound)
  {
    BodyFrom(st, bound, core + expanded, core, expanded, [], [])
  }

  /** The loop itself, on its own copies of the pools; `bound` is the number of nuclei after which
      the strategy returns no nucleus, which is what makes the `while True` end. */
  method RunBody(st: Strategy, ghost bound: nat, core: seq<Message>, expanded: seq<Message>) returns (r: Result<(Plan, seq<Message>)>)
    requires Stops(st.selectNucleus, bound)
    ensures r == Body(st, bound, core, expanded)
  {
    var children: seq<Plan> := [];
    var availableCore := core;
    var availableExpanded := expanded;
    var nuclei: seq<Message> := [];
    while true
      invariant |nuclei| <= bound
      invariant BodyFrom(st, bound, core + expanded, availableCore, availableExpanded, nuclei, children) == Body(st, bound, core, expanded)
      decreases bound - |nuclei|
    {
      var pick := st.selectNucleus(availableCore, nuclei);
      if pick.Err? {
        return Err(pick.error);
      }
      var p := pick.value;
      if p.nucleus.None? || p.score < st.absoluteThreshold || Below(p.score, st.relativeThreshold(nuclei)) {
        if nuclei != [] {
          return Ok((Node(children, Sequence), core + expanded));
        }
        return Err(PlanningFailed);
      }
      var nucleus := p.nucleus.value;
      nuclei := nuclei + [nucleus];
      availableCore := Keep(p.pool, {nucleus.id});
      var sats := CallSatellites(st.satellites, nucleus, availableCore, availableExpanded);
      if sats.Err? {
        return Err(sats.error);
      }
      var drop := IdSet(sats.value);
      availableCore := Keep(availableCore, drop);
      availableExpanded := Keep(availableExpanded, drop);
      children := children + [Paragraph(nucleus, sats.value)];
    }
  }

  /** The plan is a SEQUENCE root of between one and `bound` paragraphs, and the second result is
      the input `core + expanded`. */
  lemma {:induction false} BodyFromShape(st: Strategy, bound: nat, input: seq<Message>, core: seq<Message>, expanded: seq<Message>,
                                         nuclei: seq<Message>, paragraphs: seq<Plan>)
    requires Stops(st.selectNucleus, bound) && |nuclei| <= bound
    requires |paragraphs| == |nuclei| && Paragraphs(paragraphs)
    ensures var r := BodyFrom(st, bound, input, core, expanded, nuclei, paragraphs);
      r.Ok? ==> (r.value.1 == input && r.value.0.Node? && r.value.0.relation == Sequence
        && 1 <= |r.value.0.children| <= bound && Paragraphs(r.value.0.children))
    decreases bound - |nuclei|
  {
    hide BodyFrom;
    var pick := st.selectNucleus(core, nuclei);
    if pick.Ok? && !Stop(st, pick.value, nuclei) {
      var n := pick.value.nucleus.value;
      var core1 := Keep(pick.value.pool, {n.id});
      var sats := CallSatellites(st.satellites, n, core1, expanded);
      BodyFromStep(st, bound, input, core, expanded, nuclei, paragraphs);
      if sats.Ok? {
        var drop := IdSet(sats.value);
        var ps := paragraphs + [Paragraph(n, sats.value)];
        ParagraphsSnoc(paragraphs, n, sats.value);
        hide Paragraphs, Paragraph, Keep, IdSet, CallSatellites, Stops;
        BodyFromShape(st, bound, input, Keep(core1, drop), Keep(expanded, drop), nuclei + [n], ps);
      }
    } else {
      BodyFromStopped(st, bound, input, core, expanded, nuclei, paragraphs);
    }
  }

  /** The paragraphs built so far stay at the front of the plan. */
  lemma {:induction false} BodyFromPrefix(st: Strategy, bound: nat, input: seq<Message>, core: seq<Message>, expanded: seq<Message>,
                                          nuclei: seq<Message>, paragraphs: seq<Plan>)
    requires Stops(st.selectNucleus, bound) && |nuclei| <= bound
    ensures var r := BodyFrom(st, bound, input, core, expanded, nuclei, paragraphs);
      r.Ok? ==> r.value.0.Node? && paragraphs <= r.value.0.children
    decreases bound - |nuclei|
  {
    hide BodyFrom;
    var pick := st.selectNucleus(core, nuclei);
    if pick.Ok? && !Stop(st, pick.value, nuclei) {
      var n := pick.value.nucleus.value;
      var core1 := Keep(pick.value.pool, {n.id});
      var sats := CallSatellites(st.satellites, n, core1, expanded);
      BodyFromStep(st, bound, input, core, expanded, nuclei, paragraphs);
      if sats.Ok? {
        var drop := IdSet(sats.value);
        var ps := paragraphs + [Paragraph(n, sats.value)];
        hide Paragraph, Keep, IdSet, CallSatellites, Stops;
        BodyFromPrefix(st, bound, input, Keep(core1, drop), Keep(expanded, drop), nuclei + [n], ps);
        var r := BodyFrom(st, bound, input, Keep(core1, drop), Keep(expanded, drop), nuclei + [n], ps);
        if r.Ok? {
          assert paragraphs == r.value.0.children[..|paragraphs|];
        }
      }
    } else {
      BodyFromStopped(st, bound, input, core, expanded, nuclei, paragraphs);
    }
  }

  /** `BodyDocumentPlanner.run` builds a SEQUENCE root of one to `bound` paragraphs, each a SEQUENCE
      of messages led by its nucleus, and hands back `core + expanded` unchanged. */
  lemma BodyShape(st: Strategy, bound: nat, core: seq<Message>, expanded: seq<Message>)
    requires Stops(st.selectNucleus, bound)
    ensures var r := Body(st, bound, core, expanded);
      r.Ok? ==> (r.value.1 == core + expanded && r.value.0.Node? && r.value.0.relation == Sequence
        && 1 <= |r.value.0.children| <= bound
        && forall k :: 0 <= k < |r.value.0.children| ==> ParagraphShape(r.value.0.children[k]))
  {
    BodyFromShape(st, bound, core + expanded, core, expanded, [], []);
  }

  /** The loop raises when it stops before accepting any nucleus. */
  lemma BodyWithoutNucleus(st: Strategy, bound: nat, core: seq<Message>, expanded: seq<Message>)
    requires Stops(st.selectNucleus, bound)
    requires st.selectNucleus(core, []).Ok? && Stop(st, st.selectNucleus(core, []).value, [])
    ensures Body(st, bound, core, expanded) == Err(PlanningFailed)
  {
  }

  /** One accepted round of the loop. */
  lemma BodyFromStep(st: Strategy, bound: nat, input: seq<Message>, core: seq<Message>, expanded: seq<Message>,
                     nuclei: seq<Message>, paragraphs: seq<Plan>)
    requires Stops(st.selectNucleus, bound) && |nuclei| <= bound
    requires st.selectNucleus(core, nuclei).Ok? && !Stop(st, st.selectNucleus(core, nuclei).value, nuclei)
    ensures var pick := st.selectNucleus(core, nuclei).value;
      var n := pick.nucleus.value;
      var core1 := Keep(pick.pool, {n.id});
      var sats := CallSatellites(st.satellites, n, core1, expanded);
      |nuclei| < bound
      && BodyFrom(st, bound, input, core, expanded, nuclei, paragraphs) ==
        if sats.Err? then Err(sats.error)
        else BodyFrom(st, bound, input, Keep(core1, IdSet(sats.value)), Keep(expanded, IdSet(sats.value)),
                      nuclei + [n], paragraphs + [Paragraph(n, sats.value)])
  {
  }

  /** A round that stops. */
  lemma BodyFromStopped(st: Strategy, bound: nat, input: seq<Message>, core: seq<Message>, expanded: seq<Message>,
                        nuclei: seq<Message>, paragraphs: seq<Plan>)
    requires Stops(st.selectNucleus, bound) && |nuclei| <= bound
    requires st.selectNucleus(core, nuclei).Ok? ==> Stop(st, st.selectNucleus(core, nuclei).value, nuclei)
    ensures BodyFrom(st, bound, input, core, expanded, nuclei, paragraphs) ==
      if st.selectNucleus(core, nuclei).Err? then Err(st.selectNucleus(core, nuclei).error)
      else if nuclei != [] then Ok((Node(paragraphs, Sequence), input))
      else Err(PlanningFailed)
  {
  }

  /** Each accepted nucleus leads the paragraph it opens: the first paragraph of a successful run
      is the first nucleus followed by the satellites chosen for it from the pools without it. */
  lemma BodyFirstParagraph(st: Strategy, bound: nat, core: seq<Message>, expanded: seq<Message>)
    requires Stops(st.selectNucleus, bound)
    requires st.selectNucleus(core, []).Ok? && !Stop(st, st.selectNucleus(core, []).value, [])
    ensures var pick := st.selectNucleus(core, []).value;
      var n := pick.nucleus.value;
      var r := Body(st, bound, core, expanded);
      r.Ok? ==> (r.value.0.Node? && |r.value.0.children| >= 1
        && r.value.0.children[0] == Paragraph(n, CallSatellites(st.satellites, n, Keep(pick.pool, {n.id}), expanded).value))
  {
    var pick := st.selectNucleus(core, []).value;
    var n := pick.nucleus.value;
    var core1 := Keep(pick.pool, {n.id});
    var sats := CallSatellites(st.satellites, n, core1, expanded);
    hide BodyFrom, Keep, CallSatellites, IdSet;
    BodyFromStep(st, bound, core + expanded, core, expanded, [], []);
    if sats.Ok? {
      var drop := IdSet(sats.value);
      var para := Paragraph(n, sats.value);
      assert ParagraphShape(para);
      assert [] + [n] == [n] && [] + [para] == [para];
      BodyFromPrefix(st, bound, core + expanded, Keep(core1, drop), Keep(expanded, drop), [n], [para]);
    }
  }

  /** A nucleus selector that never raises. */
  ghost predicate SelectTotal(select: (seq<Message>, seq<Message>) -> Result<NucleusPick>) {
    forall pool, nuclei :: select(pool, nuclei).Ok?
  }

  /** A satellite selector the loop can call and that never raises. */
  ghost predicate SatellitesTotal(sel: SatelliteSelector) {
    sel.ThreeParams? && forall n, core, expanded :: sel.select3(n, core, expanded).Ok?
  }

  lemma {:induction false} BodyFromRuns(st: Strategy, bound: nat, input: seq<Message>, core: seq<Message>, expanded: seq<Message>,
                                        nuclei: seq<Message>, paragraphs: seq<Plan>)
    requires Stops(st.selectNucleus, bound) && |nuclei| <= bound && nuclei != []
    requires SelectTotal(st.selectNucleus) && SatellitesTotal(st.satellites)
    ensures BodyFrom(st, bound, input, core, expanded, nuclei, paragraphs).Ok?
    decreases bound - |nuclei|
  {
    var pick := st.selectNucleus(core, nuclei).value;
    if Stop(st, pick, nuclei) {
      BodyFromStopped(st, bound, input, core, expanded, nuclei, paragraphs);
    } else {
      BodyFromStep(st, bound, input, core, expanded, nuclei, paragraphs);
      var n := pick.nucleus.value;
      var core1 := Keep(pick.pool, {n.id});
      var sats := CallSatellites(st.satellites, n, core1, expanded).value;
      BodyFromRuns(st, bound, input, Keep(core1, IdSet(sats)), Keep(expanded, IdSet(sats)),
                   nuclei + [n], paragraphs + [Paragraph(n, sats)]);
    }
  }

  /** With a selector and satellites that never raise, the body planner fails exactly when its
      first pick already stops the loop, and then with "no nuclei". */
  lemma BodyRuns(st: Strategy, bound: nat, core: seq<Message>, expanded: seq<Message>)
    requires Stops(st.selectNucleus, bound) && SelectTotal(st.selectNucleus) && SatellitesTotal(st.satellites)
    ensures Body(st, bound, core, expanded).Ok? <==> !Stop(st, st.selectNucleus(core, []).value, [])
    ensures Stop(st, st.selectNucleus(core, []).value, []) ==> Body(st, bound, core, expanded) == Err(PlanningFailed)
  {
    var pick := st.selectNucleus(core, []).value;
    if Stop(st, pick, []) {
      BodyWithoutNucleus(st, bound, core, expanded);
    } else {
      BodyFromStep(st, bound, core + expanded, core, expanded, [], []);
      var n := pick.nucleus.value;
      var core1 := Keep(pick.pool, {n.id});
      var sats := CallSatellites(st.satellites, n, core1, expanded).value;
      BodyFromRuns(st, bound, core + expanded, Keep(core1, IdSet(sats)), Keep(expanded, IdSet(sats)),
                   [] + [n], [] + [Paragraph(n, sats)]);
    }
  }

  // ---------------------------------------------------------------- at most once

  /** The loop's invariant: the messages placed so far and the two pools are distinct objects taken
      from the input, and no object is in two of them. */
  predicate Placement(placed: seq<Message>, core: seq<Message>, expanded: seq<Message>, input: seq<Message>) {
    NoDupIds(placed) && NoDupIds(core) && NoDupIds(expanded)
    && Disjoint(placed, core) && Disjoint(placed, expanded) && Disjoint(core, expanded)
    && Within(placed, input) && Within(core, input) && Within(expanded, input)
  }

  /** One round of the loop keeps the invariant. */
  lemma PlacementStep(placed: seq<Message>, core: seq<Message>, expanded: seq<Message>, input: seq<Message>,
                      pool: seq<Message>, n: Message, sats: seq<Message>)
    requires Placement(placed, core, expanded, input)
    requires n in core && multiset(pool) == multiset(core)
    requires SatellitesFrom(sats, Keep(pool, {n.id}), expanded)
    ensures var drop := IdSet(sats);
      Placement(placed + [n] + sats, Keep(Keep(pool, {n.id}), drop), Keep(expanded, drop), input)
  {
    var core1 := Keep(pool, {n.id});
    var drop := IdSet(sats);
    assert forall x :: x in pool <==> x in core by {
      forall x ensures x in pool <==> x in core {
        assert x in pool <==> x in multiset(pool);
        assert x in core <==> x in multiset(core);
      }
    }
    PermNoDup(core, pool);
    KeepNoDup(pool, {n.id});
    KeepNoDup(core1, drop);
    KeepNoDup(expanded, drop);
    PlacedGrows(placed, core, expanded, input, core1, n, sats);
    PlacedStaysApart(placed, core, expanded, core1, n, sats);
  }

  /** The nucleus and its satellites extend the placed messages without repeating one. */
  lemma PlacedGrows(placed: seq<Message>, core: seq<Message>, expanded: seq<Message>, input: seq<Message>,
                    core1: seq<Message>, n: Message, sats: seq<Message>)
    requires Placement(placed, core, expanded, input)
    requires n in core && (forall x :: x in core1 ==> x in core && x.id != n.id)
    requires SatellitesFrom(sats, core1, expanded)
    ensures NoDupIds(placed + [n] + sats) && Within(placed + [n] + sats, input)
  {
    assert Disjoint(placed, [n]);
    assert NoDupIds(placed + [n]) by { NoDupConcat(placed, [n]); }
    assert Disjoint(placed + [n], sats) by {
      forall x, y | x in placed + [n] && y in sats ensures x.id != y.id {
        assert y in core1 || y in expanded;
      }
    }
    NoDupConcat(placed + [n], sats);
    forall x | x in placed + [n] + sats ensures x in input {
      if x in sats {
        assert x in core1 || x in expanded;
      }
    }
  }

  /** What remains of both lists after the round shares nothing with the placed messages. */
  lemma PlacedStaysApart(placed: seq<Message>, core: seq<Message>, expanded: seq<Message>,
                         core1: seq<Message>, n: Message, sats: seq<Message>)
    requires NoDupIds(core) && Disjoint(placed, core) && Disjoint(placed, expanded) && Disjoint(core, expanded)
    requires n in core && (forall x :: x in core1 ==> x in core && x.id != n.id)
    ensures var drop := IdSet(sats);
      Disjoint(placed + [n] + sats, Keep(core1, drop)) && Disjoint(placed + [n] + sats, Keep(expanded, drop))
  {
    var drop := IdSet(sats);
    var placed2 := placed + [n] + sats;
    var core2 := Keep(core1, drop);
    var exp2 := Keep(expanded, drop);
    forall x, y | x in placed2 && y in core2 ensures x.id != y.id {
      if x in sats {
        var i :| 0 <= i < |sats| && sats[i] == x;
      } else if x !in placed {
        assert x == n;
      }
    }
    forall x, y | x in placed2 && y in exp2 ensures x.id != y.id {
      if x in sats {
        var i :| 0 <= i < |sats| && sats[i] == x;
      } else if x !in placed {
        assert x == n;
      }
    }
  }

  /** Distinct objects in `a + b` are distinct within each and shared by neither. */
  lemma NoDupSplit(a: seq<Message>, b: seq<Message>)
    requires NoDupIds(a + b)
    ensures NoDupIds(a) && NoDupIds(b) && Disjoint(a, b)
  {
    var ab := a + b;
    assert Disjoint(a, b) by {
      forall x, y | x in a && y in b ensures x.id != y.id {
        var i :| 0 <= i < |a| && a[i] == x;
        var j :| 0 <= j < |b| && b[j] == y;
        assert ab[i] == x && ab[|a| + j] == y;
      }
    }
    assert NoDupIds(a) by {
      forall i, j | 0 <= i < j < |a| ensures a[i].id != a[j].id {
        assert ab[i] == a[i] && ab[j] == a[j];
      }
    }
    assert NoDupIds(b) by {
      forall i, j | 0 <= i < j < |b| ensures b[i].id != b[j].id {
        assert ab[|a| + i] == b[i] && ab[|a| + j] == b[j];
      }
    }
  }

  /** One accepted round keeps the placement invariant, with the new paragraph's messages placed. */
  lemma RoundPlacement(st: Strategy, placed: seq<Message>, core: seq<Message>, expanded: seq<Message>,
                       input: seq<Message>, nuclei: seq<Message>)
    requires NucleusSound(st.selectNucleus) && SatellitesSound(st.satellites)
    requires Placement(placed, core, expanded, input)
    requires st.selectNucleus(core, nuclei).Ok? && st.selectNucleus(core, nuclei).value.nucleus.Some?
    requires var pick := st.selectNucleus(core, nuclei).value;
      CallSatellites(st.satellites, pick.nucleus.value, Keep(pick.pool, {pick.nucleus.value.id}), expanded).Ok?
    ensures var pick := st.selectNucleus(core, nuclei).value;
      var n := pick.nucleus.value;
      var core1 := Keep(pick.pool, {n.id});
      var sats := CallSatellites(st.satellites, n, core1, expanded).value;
      Placement(placed + [n] + sats, Keep(core1, IdSet(sats)), Keep(expanded, IdSet(sats)), input)
  {
    var pick := st.selectNucleus(core, nuclei).value;
    var n := pick.nucleus.value;
    var core1 := Keep(pick.pool, {n.id});
    var sats := CallSatellites(st.satellites, n, core1, expanded);
    assert st.satellites.ThreeParams?;
    assert n in core && multiset(pick.pool) == multiset(core);
    assert NoDupIds(core1 + expanded) by {
      PermNoDup(core, pick.pool);
      KeepNoDup(pick.pool, {n.id});
      assert forall x :: x in core1 ==> x in multiset(core);
      NoDupConcat(core1, expanded);
    }
    assert SatellitesFrom(sats.value, core1, expanded);
    PlacementStep(placed, core, expanded, input, pick.pool, n, sats.value);
  }

  /** The messages of the plan after a paragraph is appended. */
  lemma RoundMessages(paragraphs: seq<Plan>, n: Message, sats: seq<Message>)
    ensures Messages(Node(paragraphs + [Paragraph(n, sats)], Sequence)) == Messages(Node(paragraphs, Sequence)) + [n] + sats
  {
    MessagesAppend(paragraphs, Paragraph(n, sats), Sequence);
    ParagraphMessages(n, sats);
  }

  lemma {:induction false} BodyFromAtMostOnce(st: Strategy, bound: nat, input: seq<Message>, core: seq<Message>, expanded: seq<Message>,
                                              nuclei: seq<Message>, paragraphs: seq<Plan>)
    requires Stops(st.selectNucleus, bound) && |nuclei| <= bound
    requires NucleusSound(st.selectNucleus) && SatellitesSound(st.satellites)
    requires Placement(Messages(Node(paragraphs, Sequence)), core, expanded, input)
    ensures var r := BodyFrom(st, bound, input, core, expanded, nuclei, paragraphs);
      r.Ok? ==> NoDupIds(Messages(r.value.0)) && Within(Messages(r.value.0), input)
    decreases bound - |nuclei|
  {
    hide BodyFrom;
    var pick := st.selectNucleus(core, nuclei);
    if pick.Ok? && !Stop(st, pick.value, nuclei) {
      var n := pick.value.nucleus.value;
      var core1 := Keep(pick.value.pool, {n.id});
      var sats := CallSatellites(st.satellites, n, core1, expanded);
      BodyFromStep(st, bound, input, core, expanded, nuclei, paragraphs);
      if sats.Ok? {
        var placed := Messages(Node(paragraphs, Sequence));
        RoundPlacement(st, placed, core, expanded, input, nuclei);
        RoundMessages(paragraphs, n, sats.value);
        hide Placement, NucleusSound, SatellitesSound, Stops, Messages;
        var drop := IdSet(sats.value);
        BodyFromAtMostOnce(st, bound, input, Keep(core1, drop), Keep(expanded, drop), nuclei + [n],
                           paragraphs + [Paragraph(n, sats.value)]);
      }
    } else {
      BodyFromStopped(st, bound, input, core, expanded, nuclei, paragraphs);
    }
  }

  /** Messages are placed in the plan at most once: when the strategy picks nuclei and satellites
      only from the pools it is offered and the input holds distinct objects, the plan's messages
      are distinct objects from `core + expanded`. */
  lemma BodyAtMostOnce(st: Strategy, bound: nat, core: seq<Message>, expanded: seq<Message>)
    requires Stops(st.selectNucleus, bound)
    requires NucleusSound(st.selectNucleus) && SatellitesSound(st.satellites)
    requires NoDupIds(core + expanded)
    ensures var r := Body(st, bound, core, expanded);
      r.Ok? ==> NoDupIds(Messages(r.value.0)) && Within(Messages(r.value.0), core + expanded)
  {
    NoDupSplit(core, expanded);
    assert Messages(Node([], Sequence)) == [];
    BodyFromAtMostOnce(st, bound, core + expanded, core, expanded, [], []);
  }

  // ---------------------------------------------------------------- headline

  function NoneHeadline(): string { "NoneType" }

  /** `HeadlineDocumentPlanner.run`: a SEQUENCE root holding one SEQUENCE node with the headline
      message, and the input pools. When the selector finds no message the source stores None in the
      plan, which the model reports as the AttributeError the next stage raises on it. */
  function Headline(select: (seq<Message>, seq<Message>) -> Result<NucleusPick>, core: seq<Message>, expanded: seq<Message>): (r: Result<(Plan, seq<Message>)>)
    ensures select(core, []).Ok? && select(core, []).value.nucleus.Some? <==> r.Ok?
    ensures r.Ok? ==> r.value == (Node([Node([Leaf(select(core, []).value.nucleus.value)], Sequence)], Sequence),
                                  select(core, []).value.pool + expanded)
  {
    var pick :- select(core, []);
    if pick.nucleus.None? then Err(AttributeError(NoneHeadline()))
    else Ok((Node([Node([Leaf(pick.nucleus.value)], Sequence)], Sequence), pick.pool + expanded))
  }

  /** The headline's only message is the selector's pick, taken from the core pool. */
  lemma HeadlineFromCore(select: (seq<Message>, seq<Message>) -> Result<NucleusPick>, core: seq<Message>, expanded: seq<Message>)
    requires NucleusSound(select)
    ensures var r := Headline(select, core, expanded);
      r.Ok? ==> (|Messages(r.value.0)| == 1 && Messages(r.value.0)[0] in core
        && multiset(r.value.1) == multiset(core + expanded))
  {
    var r := Headline(select, core, expanded);
    if r.Ok? {
      var m := select(core, []).value.nucleus.value;
      var inner := Node([Leaf(m)], Sequence);
      ParagraphMessages(m, []);
      assert Paragraph(m, []) == inner;
      MessagesAppend([], inner, Sequence);
      assert [] + [inner] == [inner];
    }
  }
}

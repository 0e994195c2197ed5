/** The morphology stage (`core/morphological_realizer.py`): every slot of every message is given
    the value the language's realizer makes of it. */
module MorphologicalRealizer {
  import opened Wrappers
  import opened Text
  import opened Models
  import CroatianMorphology
  import SloveneMorphology

  /** The per-language realizers: the two rule-based ones, analysers that look at the slot
      alone (English and Finnish) and analysers that also take the left and right context
      (Russian and Estonian). */
  datatype LanguageRealizer =
    | CroatianRules
    | SloveneRules(tables: SloveneMorphology.Tables)
    | Analyser(realizeSlot: Component -> Result<Value>)
    | ContextAnalyser(realizeInContext: (Component, seq<Component>, seq<Component>) -> Result<Value>)

  predicate TakesContext(r: LanguageRealizer) {
    r.SloveneRules? || r.ContextAnalyser?
  }

  /** The realizers of the EU service; the analysers are parameters. */
  function EuMorphology(english: Component -> Result<Value>, finnish: Component -> Result<Value>,
                        russian: (Component, seq<Component>, seq<Component>) -> Result<Value>): map<string, LanguageRealizer> {
    map["en" := Analyser(english), "fi" := Analyser(finnish), "hr" := CroatianRules, "ru" := ContextAnalyser(russian)]
  }

  /** `realize(template_component)` as the stage calls it, with the slot alone: a realizer whose
      `realize` also wants the two contexts raises TypeError. */
  function RealizeAsWritten(r: LanguageRealizer, slot: Component): (v: Result<Value>)
    requires slot.Slot?
    ensures TakesContext(r) ==> v.Err? && v.error.TypeError?
  {
    match r
    case CroatianRules => CroatianMorphology.Realize(slot)
    case Analyser(f) => f(slot)
    case _ => Err(TypeError("realize() missing 2 required positional arguments: 'left_context' and 'right_context'"))
  }

  /** The call with the components to the left (already realized) and to the right. */
  function RealizeInContext(r: LanguageRealizer, slot: Component, left: seq<Component>, right: seq<Component>): Result<Value>
    requires slot.Slot?
  {
    match r
    case CroatianRules => CroatianMorphology.Realize(slot)
    case SloveneRules(t) => SloveneMorphology.Realize(slot, left, right, t)
    case Analyser(f) => f(slot)
    case ContextAnalyser(g) => g(slot, left, right)
  }

  /** The two calls agree for the realizers that take the slot alone, and differ for the others:
      as written the Russian realizer of the service raises on the first slot it sees. */
  lemma ContextCallRepairs(r: LanguageRealizer, slot: Component, left: seq<Component>, right: seq<Component>)
    requires slot.Slot?
    ensures !TakesContext(r) ==> RealizeAsWritten(r, slot) == RealizeInContext(r, slot, left, right)
    ensures r.ContextAnalyser? ==>
      RealizeAsWritten(r, slot).Err? && RealizeInContext(r, slot, left, right) == r.realizeInContext(slot, left, right)
  {
  }

  lemma RussianAsWrittenRaises(english: Component -> Result<Value>, finnish: Component -> Result<Value>,
                               russian: (Component, seq<Component>, seq<Component>) -> Result<Value>, slot: Component)
    requires slot.Slot?
    ensures "ru" in EuMorphology(english, finnish, russian)
    ensures var r := EuMorphology(english, finnish, russian)["ru"];
      RealizeAsWritten(r, slot).Err? && RealizeAsWritten(r, slot).error.TypeError?
      && RealizeInContext(r, slot, [], []) == russian(slot, [], [])
  {
    var m := EuMorphology(english, finnish, russian);
    assert m["ru"] == ContextAnalyser(russian);
  }

  // ---------------------------------------------------------------- one template

  /** One component: a slot takes the realized value, a literal stays. */
  function MorphComponent(r: LanguageRealizer, c: Component, left: seq<Component>, right: seq<Component>): (out: Result<Component>)
    ensures out.Ok? ==> out.value.Slot? == c.Slot?
    ensures c.Literal? ==> out == Ok(c)
    ensures c.Slot? ==> (out.Ok? <==> RealizeInContext(r, c, left, right).Ok?)
    ensures c.Slot? && out.Ok? ==> out.value == c.(source := Resolved(RealizeInContext(r, c, left, right).value))
  {
    if c.Literal? then Ok(c)
    else
      var v :- RealizeInContext(r, c, left, right);
      Ok(c.(source := Resolved(v)))
  }

  /** The loop of `_recurse` from component i on, with the components before it already realized. */
  function MorphFrom(r: LanguageRealizer, cs: seq<Component>, i: nat, done: seq<Component>): (out: Result<seq<Component>>)
    requires i <= |cs| && |done| == i
    ensures out.Ok? ==> (|out.value| == |cs| && out.value[..i] == done
      && forall j :: i <= j < |cs| ==> MorphComponent(r, cs[j], out.value[..j], cs[j + 1..]) == Ok(out.value[j]))
    decreases |cs| - i
  {
    if i == |cs| then Ok(done)
    else
      var c :- MorphComponent(r, cs[i], done, cs[i + 1..]);
      var out := MorphFrom(r, cs, i + 1, done + [c]);
      assert out.Ok? ==> out.value[..i] == (done + [c])[..i] == done && out.value[..i + 1] == done + [c];
      out
  }

  function MorphComponents(r: LanguageRealizer, cs: seq<Component>): Result<seq<Component>> {
    MorphFrom(r, cs, 0, [])
  }

  /** Every component is realized against the realized components before it and the original
      ones after it; literals come through unchanged and slots keep their attributes. */
  lemma MorphComponentsMeaning(r: LanguageRealizer, cs: seq<Component>)
    requires MorphComponents(r, cs).Ok?
    ensures var out := MorphComponents(r, cs).value;
      |out| == |cs|
      && (forall j :: 0 <= j < |cs| && cs[j].Literal? ==> out[j] == cs[j])
      && (forall j :: 0 <= j < |cs| && cs[j].Slot? ==>
            out[j] == cs[j].(source := Resolved(RealizeInContext(r, cs[j], out[..j], cs[j + 1..]).value)))
  {
    var out := MorphComponents(r, cs).value;
    forall j | 0 <= j < |cs|
      ensures MorphComponent(r, cs[j], out[..j], cs[j + 1..]) == Ok(out[j])
    {
    }
  }

  /** The first component that fails decides the error; none before it does. */
  lemma {:induction false} MorphFromFails(r: LanguageRealizer, cs: seq<Component>, i: nat, done: seq<Component>)
    requires i <= |cs| && |done| == i && MorphFrom(r, cs, i, done).Err?
    ensures exists j, prefix :: (i <= j < |cs| && |prefix| == j && prefix[..i] == done
      && MorphComponent(r, cs[j], prefix, cs[j + 1..]) == Err(MorphFrom(r, cs, i, done).error))
    decreases |cs| - i
  {
    var c := MorphComponent(r, cs[i], done, cs[i + 1..]);
    if c.Err? {
      assert done[..i] == done;
    } else {
      MorphFromFails(r, cs, i + 1, done + [c.value]);
      var j, prefix :| i + 1 <= j < |cs| && |prefix| == j && prefix[..i + 1] == done + [c.value]
        && MorphComponent(r, cs[j], prefix, cs[j + 1..]) == Err(MorphFrom(r, cs, i + 1, done + [c.value]).error);
      assert prefix[..i] == (prefix[..i + 1])[..i];
    }
  }

  /** The loop over `this.template.components`, each slot overwritten as it is reached. */
  method RealizeComponents(r: LanguageRealizer, cs: seq<Component>) returns (out: Result<seq<Component>>)
    ensures out == MorphComponents(r, cs)
  {
    var done: seq<Component> := [];
    var i := 0;
    while i < |cs|
      invariant i <= |cs| && |done| == i
      invariant MorphFrom(r, cs, 0, []) == MorphFrom(r, cs, i, done)
      decreases |cs| - i
    {
      var c := MorphComponent(r, cs[i], done, cs[i + 1..]);
      if c.Err? {
        return Err(c.error);
      }
      done := done + [c.value];
      i := i + 1;
    }
    out := Ok(done);
  }

  // ---------------------------------------------------------------- the plan

  /** `_recurse`: the children of a node in order; a message without a template raises, since
      its template is None. */
  function MorphPlan(r: LanguageRealizer, p: Plan): Result<Plan>
    decreases p, 2
  {
    match p
    case Leaf(m) =>
      if m.template.None? then Err(AttributeError("'NoneType' object has no attribute 'components'"))
      else
        var cs :- MorphComponents(r, m.template.value.components);
        Ok(Leaf(m.(template := Some(m.template.value.(components := cs)))))
    case Node(_, rel) =>
      var cs :- MorphPlanFrom(r, p, 0);
      Ok(Node(cs, rel))
  }

  function MorphPlanFrom(r: LanguageRealizer, p: Plan, i: nat): Result<seq<Plan>>
    requires p.Node? && i <= |p.children|
    decreases p, 1, |p.children| - i
  {
    if i == |p.children| then Ok([])
    else
      var c :- MorphPlan(r, p.children[i]);
      var rest :- MorphPlanFrom(r, p, i + 1);
      Ok([c] + rest)
  }

  /** The realized plan has the shape of the original: the same nodes and relations, the same
      messages apart from their templates, and the same number of components in each. */
  predicate SameShape(p: Plan, q: Plan)
    decreases p
  {
    match p
    case Leaf(m) =>
      q.Leaf? && m.template.Some? && q.message.template.Some?
      && q.message == m.(template := Some(m.template.value.(components := q.message.template.value.components)))
      && |q.message.template.value.components| == |m.template.value.components|
    case Node(cs, rel) =>
      q.Node? && q.relation == rel && |q.children| == |cs|
      && forall i :: 0 <= i < |cs| ==> SameShape(cs[i], q.children[i])
  }

  lemma {:induction false} MorphPlanShape(r: LanguageRealizer, p: Plan)
    requires MorphPlan(r, p).Ok?
    ensures SameShape(p, MorphPlan(r, p).value)
    decreases p, 2
  {
    match p
    case Leaf(m) =>
    case Node(cs, rel) =>
      MorphPlanFromShape(r, p, 0);
  }

  lemma {:induction false} MorphPlanFromShape(r: LanguageRealizer, p: Plan, i: nat)
    requires p.Node? && i <= |p.children| && MorphPlanFrom(r, p, i).Ok?
    ensures var out := MorphPlanFrom(r, p, i).value;
      |out| == |p.children| - i && forall j :: 0 <= j < |out| ==> SameShape(p.children[i + j], out[j])
    decreases p, 1, |p.children| - i
  {
    if i < |p.children| {
      MorphPlanShape(r, p.children[i]);
      MorphPlanFromShape(r, p, i + 1);
      var out := MorphPlanFrom(r, p, i).value;
      var rest := MorphPlanFrom(r, p, i + 1).value;
      assert out == [MorphPlan(r, p.children[i]).value] + rest;
      forall j | 0 <= j < |out|
        ensures SameShape(p.children[i + j], out[j])
      {
        if j > 0 {
          assert out[j] == rest[j - 1] && i + j == (i + 1) + (j - 1);
        }
      }
    }
  }

  /** A message: the loop over its template's components. */
  method RealizeMessage(r: LanguageRealizer, m: Message) returns (out: Result<Plan>)
    ensures out == MorphPlan(r, Leaf(m))
  {
    if m.template.None? {
      return Err(AttributeError("'NoneType' object has no attribute 'components'"));
    }
    var cs := RealizeComponents(r, m.template.value.components);
    if cs.Err? {
      return Err(cs.error);
    }
    return Ok(Leaf(m.(template := Some(m.template.value.(components := cs.value)))));
  }

  method Recurse(r: LanguageRealizer, p: Plan) returns (out: Result<Plan>)
    ensures out == MorphPlan(r, p)
    decreases p, 2
  {
    if p.Leaf? {
      out := RealizeMessage(r, p.message);
    } else {
      out := RecurseNode(r, p);
    }
  }

  /** A node: its children in order. */
  method RecurseNode(r: LanguageRealizer, p: Plan) returns (out: Result<Plan>)
    requires p.Node?
    ensures out == MorphPlan(r, p)
    decreases p, 1
  {
    MorphPlanNode(r, p);
    PrefixedNil(MorphPlanFrom(r, p, 0));
    hide MorphComponents, MorphPlan, MorphPlanFrom, Prefixed;
    var done: seq<Plan> := [];
    var i := 0;
    while i < |p.children|
      invariant i <= |p.children|
      invariant MorphPlanFrom(r, p, 0) == Prefixed(done, MorphPlanFrom(r, p, i))
      decreases |p.children| - i
    {
      var c := Recurse(r, p.children[i]);
      MorphPlanFromAt(r, p, i);
      if c.Err? {
        PrefixedErr(done, c.error);
        return Err(c.error);
      }
      PrefixedTwice(done, c.value, MorphPlanFrom(r, p, i + 1));
      done := done + [c.value];
      i := i + 1;
    }
    MorphPlanFromAt(r, p, i);
    PrefixedEnd(done);
    out := Ok(Node(done, p.relation));
  }

  /** The children realized so far in front of the result for the rest. */
  function Prefixed(done: seq<Plan>, rest: Result<seq<Plan>>): Result<seq<Plan>> {
    if rest.Err? then rest else Ok(done + rest.value)
  }

  lemma PrefixedNil(rest: Result<seq<Plan>>)
    ensures Prefixed([], rest) == rest
  {
    if rest.Ok? {
      assert [] + rest.value == rest.value;
    }
  }

  lemma PrefixedErr(done: seq<Plan>, e: Error)
    ensures Prefixed(done, Err(e)) == Err(e)
  {
  }

  lemma PrefixedEnd(done: seq<Plan>)
    ensures Prefixed(done, Ok([])) == Ok(done)
  {
    assert done + [] == done;
  }

  lemma PrefixedTwice(done: seq<Plan>, c: Plan, rest: Result<seq<Plan>>)
    ensures Prefixed(done, Prefixed([c], rest)) == Prefixed(done + [c], rest)
  {
    if rest.Ok? {
      assert done + ([c] + rest.value) == (done + [c]) + rest.value;
    }
  }

  /** One round of `MorphPlanFrom`, and a node's plan in terms of it. */
  lemma MorphPlanFromAt(r: LanguageRealizer, p: Plan, i: nat)
    requires p.Node? && i <= |p.children|
    ensures i == |p.children| ==> MorphPlanFrom(r, p, i) == Ok([])
    ensures i < |p.children| ==>
      MorphPlanFrom(r, p, i)
      == (var c := MorphPlan(r, p.children[i]); if c.Err? then Err(c.error) else Prefixed([c.value], MorphPlanFrom(r, p, i + 1)))
  {
    hide MorphPlan, MorphComponents;
  }

  lemma MorphPlanNode(r: LanguageRealizer, p: Plan)
    requires p.Node?
    ensures MorphPlan(r, p) == (var cs := MorphPlanFrom(r, p, 0); if cs.Err? then Err(cs.error) else Ok(Node(cs.value, p.relation)))
  {
    hide MorphPlanFrom, MorphComponents;
  }

  /** `run`: the realizer of the language without "-head"; a language without one leaves the
      plan as it is. */
  function MorphDocument(realizers: map<string, LanguageRealizer>, language: string, p: Plan): (r: Result<Plan>)
    ensures StripHead(language) !in realizers ==> r == Ok(p)
    ensures StripHead(language) in realizers && r.Ok? ==> SameShape(p, r.value)
  {
    var lang := StripHead(language);
    if lang !in realizers then Ok(p)
    else
      var r := MorphPlan(realizers[lang], p);
      if r.Ok? then MorphPlanShape(realizers[lang], p); r else r
  }

  method Run(realizers: map<string, LanguageRealizer>, language: string, p: Plan) returns (r: Result<Plan>)
    ensures r == MorphDocument(realizers, language, p)
  {
    var lang := language;
    if EndsWith(lang, "-head") {
      lang := lang[..|lang| - 5];
    }
    if lang !in realizers {
      return Ok(p);
    }
    r := Recurse(realizers[lang], p);
  }

  /** One step of the loop, and its end. */
  lemma MorphFromStep(r: LanguageRealizer, cs: seq<Component>, i: nat, done: seq<Component>, c: Component)
    requires i < |cs| && |done| == i && MorphComponent(r, cs[i], done, cs[i + 1..]) == Ok(c)
    ensures MorphFrom(r, cs, i, done) == MorphFrom(r, cs, i + 1, done + [c])
  {
  }

  lemma MorphFromEnd(r: LanguageRealizer, cs: seq<Component>, done: seq<Component>)
    requires |done| == |cs|
    ensures MorphFrom(r, cs, |cs|, done) == Ok(done)
  {
  }

  /** The Slovene realizer in its place in a template: the locative applied to the first slot is
      undone again when the verb after it looks for its gender. */
  lemma SloveneTemplate(r: LanguageRealizer)
    requires r == SloveneRules(SloveneMorphology.Slovenian)
    ensures var country := Slot(Resolved(VStr("Združene države")), map["case" := VStr("loct")], None);
      var verb := Slot(Resolved(VStr("imela")), map["gendered" := VStr("previous_word")], None);
      MorphComponents(r, [Literal("Cene"), country, verb])
        == Ok([Literal("Cene"), country.(source := Resolved(VStr("v Združenih državah"))),
               verb.(source := Resolved(VStr("imeli")))])
  {
    hide MorphFrom, SloveneMorphology.Realize;
    var country := Slot(Resolved(VStr("Združene države")), map["case" := VStr("loct")], None);
    var verb := Slot(Resolved(VStr("imela")), map["gendered" := VStr("previous_word")], None);
    var located := country.(source := Resolved(VStr("v Združenih državah")));
    var agreed := verb.(source := Resolved(VStr("imeli")));
    SloveneMorphology.UnitedStatesAgreement([Literal("Cene")], [verb]);
    SloveneMorphology.UnitedStatesAgreement([Literal("Cene"), located], []);
    ThreeComponents(r, Literal("Cene"), country, verb, located, agreed);
  }

  /** A literal and two slots: each slot realized against what comes before and after it. */
  lemma ThreeComponents(r: LanguageRealizer, a: Component, b: Component, c: Component, b2: Component, c2: Component)
    requires a.Literal?
    requires MorphComponent(r, b, [a], [c]) == Ok(b2) && MorphComponent(r, c, [a, b2], []) == Ok(c2)
    ensures MorphComponents(r, [a, b, c]) == Ok([a, b2, c2])
  {
    hide MorphFrom;
    var cs := [a, b, c];
    assert cs[1..] == [b, c];
    MorphFromStep(r, cs, 0, [], a);
    assert [] + [a] == [a];
    assert cs[2..] == [c];
    MorphFromStep(r, cs, 1, [a], b2);
    assert [a] + [b2] == [a, b2];
    assert cs[3..] == [];
    MorphFromStep(r, cs, 2, [a, b2], c2);
    assert [a, b2] + [c2] == [a, b2, c2];
    MorphFromEnd(r, cs, [a, b2, c2]);
  }
}

/** Template selection (`core/template_selector.py`): every message of the document plan gets a
    copy of one of the templates whose `check` passes for it, preferring by the context of the
    previous templated message templates that mention time, location and value type only when
    these change, and binding the copy's slots to the facts it uses. `random.shuffle` followed
    by taking the first template is an oracle `pick` giving the index of the template chosen. */
module TemplateSelector {
  import opened Wrappers
  import opened Text
  import opened Models

  // ---------------------------------------------------------------- order-keeping sub-lists

  /** `a` is `b` with some entries left out, the rest in order. */
  predicate SubsequenceOf<T(==)>(a: seq<T>, b: seq<T>)
    decreases |b|
  {
    if a == [] then true
    else if b == [] then false
    else (a[0] == b[0] && SubsequenceOf(a[1..], b[1..])) || SubsequenceOf(a, b[1..])
  }

  lemma {:induction false} SubsequenceMembers<T>(a: seq<T>, b: seq<T>)
    requires SubsequenceOf(a, b)
    ensures forall x :: x in a ==> x in b
    ensures |a| <= |b|
    decreases |b|
  {
    if a != [] {
      if a[0] == b[0] && SubsequenceOf(a[1..], b[1..]) {
        SubsequenceMembers(a[1..], b[1..]);
        assert forall x :: x in a ==> x == a[0] || x in a[1..];
      } else {
        SubsequenceMembers(a, b[1..]);
      }
    }
  }

  lemma {:induction false} SubsequenceRefl<T>(a: seq<T>)
    ensures SubsequenceOf(a, a)
    decreases |a|
  {
    if a != [] {
      SubsequenceRefl(a[1..]);
    }
  }

  lemma {:induction false} SubsequenceTrans<T>(a: seq<T>, b: seq<T>, c: seq<T>)
    requires SubsequenceOf(a, b) && SubsequenceOf(b, c)
    ensures SubsequenceOf(a, c)
    decreases |c|
  {
    if a != [] {
      SubsequenceMembers(b, c);
      if b[0] == c[0] && SubsequenceOf(b[1..], c[1..]) {
        if a[0] == b[0] && SubsequenceOf(a[1..], b[1..]) {
          SubsequenceTrans(a[1..], b[1..], c[1..]);
        } else {
          SubsequenceTrans(a, b[1..], c[1..]);
        }
      } else {
        SubsequenceTrans(a, b, c[1..]);
      }
    }
  }

  // ---------------------------------------------------------------- candidates

  /** `all_templates_for_message`, drained by `list(...)`: the templates whose `check` returns
      facts, in registry order; an exception raised by a `check` ends the iteration. */
  function Candidates(templates: seq<Template>, m: Message, all: seq<Message>, env: Env): (r: Result<seq<Template>>)
    decreases |templates|
  {
    if templates == [] then Ok([])
    else
      var o :- CheckTemplate(templates[0], m, all, false, env);
      var rest :- Candidates(templates[1..], m, all, env);
      Ok(if o.used != [] then [templates[0]] + rest else rest)
  }

  predicate Passes(t: Template, m: Message, all: seq<Message>, env: Env) {
    CheckTemplate(t, m, all, false, env).Ok? && CheckTemplate(t, m, all, false, env).value.used != []
  }

  /** The candidates are just the templates that pass, kept in registry order; the search raises
      exactly when some `check` raises. */
  lemma {:induction false} CandidatesMeaning(templates: seq<Template>, m: Message, all: seq<Message>, env: Env)
    ensures var r := Candidates(templates, m, all, env);
      (r.Ok? <==> forall i :: 0 <= i < |templates| ==> CheckTemplate(templates[i], m, all, false, env).Ok?)
      && (r.Ok? ==> SubsequenceOf(r.value, templates) && forall t :: t in r.value <==> t in templates && Passes(t, m, all, env))
    decreases |templates|
  {
    if templates != [] {
      CandidatesMeaning(templates[1..], m, all, env);
      assert forall i :: 1 <= i < |templates| ==> templates[i] == templates[1..][i - 1];
      assert forall t :: t in templates <==> t == templates[0] || t in templates[1..];
      var r := Candidates(templates, m, all, env);
      if r.Ok? {
        var rest := Candidates(templates[1..], m, all, env).value;
        if Passes(templates[0], m, all, env) {
          assert r.value == [templates[0]] + rest && r.value[1..] == rest;
        }
      }
    }
  }

  /** `exists_template_for_message`: `next` on the same iteration, which stops at the first template
      that passes. */
  function ExistsTemplate(templates: seq<Template>, m: Message, all: seq<Message>, env: Env): (r: Result<bool>)
    decreases |templates|
  {
    if templates == [] then Ok(false)
    else
      var o :- CheckTemplate(templates[0], m, all, false, env);
      if o.used != [] then Ok(true) else ExistsTemplate(templates[1..], m, all, env)
  }

  /** It answers whether the candidate list is non-empty; it may succeed where draining the list
      raises, since it stops early. */
  lemma {:induction false} ExistsAgrees(templates: seq<Template>, m: Message, all: seq<Message>, env: Env)
    ensures Candidates(templates, m, all, env).Ok? ==>
      ExistsTemplate(templates, m, all, env) == Ok(Candidates(templates, m, all, env).value != [])
    decreases |templates|
  {
    if templates != [] {
      ExistsAgrees(templates[1..], m, all, env);
    }
  }

  lemma ExistsStep(templates: seq<Template>, m: Message, all: seq<Message>, env: Env)
    requires templates != []
    ensures var o := CheckTemplate(templates[0], m, all, false, env);
      ExistsTemplate(templates, m, all, env)
      == if o.Err? then Err(o.error) else if o.value.used != [] then Ok(true) else ExistsTemplate(templates[1..], m, all, env)
  {
    hide CheckTemplate;
  }

  /** `true` names a passing template; `false` means every template was checked without raising
      and none passed. */
  lemma {:induction false} ExistsFinds(templates: seq<Template>, m: Message, all: seq<Message>, env: Env)
    ensures ExistsTemplate(templates, m, all, env) == Ok(true) ==>
      exists i :: 0 <= i < |templates| && Passes(templates[i], m, all, env)
    ensures ExistsTemplate(templates, m, all, env) == Ok(false) ==>
      forall i :: 0 <= i < |templates| ==> CheckTemplate(templates[i], m, all, false, env).Ok? && !Passes(templates[i], m, all, env)
    decreases |templates|
  {
    if templates != [] {
      ExistsStep(templates, m, all, env);
      hide ExistsTemplate, CheckTemplate;
      ExistsFinds(templates[1..], m, all, env);
      assert forall i :: 1 <= i < |templates| ==> templates[i] == templates[1..][i - 1];
      if ExistsTemplate(templates, m, all, env) == Ok(true) && !Passes(templates[0], m, all, env) {
        var i :| 0 <= i < |templates[1..]| && Passes(templates[1..][i], m, all, env);
        assert Passes(templates[i + 1], m, all, env);
      }
    }
  }

  // ---------------------------------------------------------------- context filters

  /** `[t for t in templates if t.has_slot_of_type(ty) == want]`, raising where
      `has_slot_of_type` raises. */
  function Proposed(ts: seq<Template>, ty: string, want: bool): (r: Result<seq<Template>>)
    decreases |ts|
  {
    if ts == [] then Ok([])
    else
      var h :- HasSlotOfType(ts[0].components, ty);
      var rest :- Proposed(ts[1..], ty, want);
      Ok(if h == want then [ts[0]] + rest else rest)
  }

  /** The filtered list is the templates whose answer is `want`, in order. */
  lemma {:induction false} ProposedMeaning(ts: seq<Template>, ty: string, want: bool)
    ensures var r := Proposed(ts, ty, want);
      (r.Ok? <==> forall i :: 0 <= i < |ts| ==> HasSlotOfType(ts[i].components, ty).Ok?)
      && (r.Ok? ==> (SubsequenceOf(r.value, ts)
          && forall t :: t in r.value <==> t in ts && HasSlotOfType(t.components, ty) == Ok(want)))
    decreases |ts|
  {
    if ts != [] {
      ProposedMeaning(ts[1..], ty, want);
      assert forall i :: 1 <= i < |ts| ==> ts[i] == ts[1..][i - 1];
      assert forall t :: t in ts <==> t == ts[0] || t in ts[1..];
      var r := Proposed(ts, ty, want);
      if r.Ok? && HasSlotOfType(ts[0].components, ty) == Ok(want) {
        assert r.value[1..] == Proposed(ts[1..], ty, want).value;
      }
    }
  }

  /** One filter of `_filter_by_context`: the proposed list, unless it is empty. */
  function Prefer(ts: seq<Template>, ty: string, want: bool): Result<seq<Template>> {
    var p :- Proposed(ts, ty, want);
    Ok(if p != [] then p else ts)
  }

  /** A filter never empties the list and only leaves templates out; when some template has the
      preferred answer, every one kept has it, and otherwise the list is kept whole. */
  lemma PreferMeaning(ts: seq<Template>, ty: string, want: bool)
    ensures var r := Prefer(ts, ty, want);
      (r.Ok? <==> forall i :: 0 <= i < |ts| ==> HasSlotOfType(ts[i].components, ty).Ok?)
      && (r.Ok? ==> (SubsequenceOf(r.value, ts) && (ts != [] ==> r.value != [])))
      && (r.Ok? && (exists t :: t in ts && HasSlotOfType(t.components, ty) == Ok(want)) ==>
            forall t :: t in r.value ==> HasSlotOfType(t.components, ty) == Ok(want))
      && (r.Ok? && (forall t :: t in ts ==> HasSlotOfType(t.components, ty) != Ok(want)) ==> r.value == ts)
  {
    ProposedMeaning(ts, ty, want);
    SubsequenceRefl(ts);
    var p := Proposed(ts, ty, want);
    if p.Ok? {
      if exists t :: t in ts && HasSlotOfType(t.components, ty) == Ok(want) {
        var t :| t in ts && HasSlotOfType(t.components, ty) == Ok(want);
        assert t in p.value;
      }
      if p.value != [] {
        assert p.value[0] in p.value;
      }
    }
  }

  /** `_value_type_is_substantially_similar`: a type containing ":comp_" loses its last eight
      characters (Python's `[:-8]`) before the comparison. */
  function BaseType(t: string): (r: string)
    ensures Contains(t, ":comp_") ==> r == t[..if |t| >= 8 then |t| - 8 else 0]
    ensures !Contains(t, ":comp_") ==> r == t
  {
    if Contains(t, ":comp_") then t[..if |t| >= 8 then |t| - 8 else 0] else t
  }

  predicate SimilarValueType(first: Message, second: Message) {
    BaseType(first.mainFact.valueType) == BaseType(second.mainFact.valueType)
  }

  /** A comparison type, `<t>:comp_<two characters>`, is similar to the plain type it compares. */
  lemma ComparisonSimilar(first: Message, second: Message, suffix: string)
    requires !Contains(second.mainFact.valueType, ":comp_") && |suffix| == 2
    requires first.mainFact.valueType == second.mainFact.valueType + ":comp_" + suffix
    ensures SimilarValueType(first, second)
  {
    var t := second.mainFact.valueType;
    var s := first.mainFact.valueType;
    assert OccursAt(s, ":comp_", |t|) by {
      assert s[|t|..|t| + 6] == ":comp_";
    }
    assert s[..|s| - 8] == t;
  }

  /** The context test of each filter; `if context` holds for any message. */
  predicate SameTime(context: Option<Message>, m: Message) {
    context.Some? && context.value.mainFact.timestamp == m.mainFact.timestamp
    && context.value.mainFact.timestampType == m.mainFact.timestampType
  }

  predicate SameLocation(context: Option<Message>, m: Message) {
    context.Some? && context.value.mainFact.location == m.mainFact.location
    && context.value.mainFact.locationType == m.mainFact.locationType
  }

  predicate SameValueType(context: Option<Message>, m: Message, isFirst: bool) {
    context.Some? && SimilarValueType(context.value, m) && !isFirst
  }

  /** `_filter_by_context`: the time, location and value-type filters in turn, each preferring
      templates without the slot when the context already says it and templates with it
      otherwise. */
  function FilterByContext(ts: seq<Template>, context: Option<Message>, m: Message, isFirst: bool): Result<seq<Template>> {
    var t1 :- Prefer(ts, "time", !SameTime(context, m));
    var t2 :- Prefer(t1, "location", !SameLocation(context, m));
    Prefer(t2, "value_type", !SameValueType(context, m, isFirst))
  }

  /** The filters return a non-empty sub-list of a non-empty list; they cannot raise on templates
      with no resolved slot, which is what the reader produces; and when some candidate has the
      preferred time slot presence, every template returned has it. */
  lemma FilterMeaning(ts: seq<Template>, context: Option<Message>, m: Message, isFirst: bool)
    ensures var r := FilterByContext(ts, context, m, isFirst);
      ((forall t :: t in ts ==> Unresolved(t.components)) ==> r.Ok?)
      && (r.Ok? ==> (SubsequenceOf(r.value, ts) && (ts != [] ==> r.value != [])))
      && (r.Ok? && (exists t :: t in ts && HasSlotOfType(t.components, "time") == Ok(!SameTime(context, m))) ==>
            forall t :: t in r.value ==> HasSlotOfType(t.components, "time") == Ok(!SameTime(context, m)))
  {
    var want1 := !SameTime(context, m);
    PreferMeaning(ts, "time", want1);
    PreferUnresolved(ts, "time", want1);
    var r1 := Prefer(ts, "time", want1);
    if r1.Ok? {
      var t1 := r1.value;
      SubsequenceMembers(t1, ts);
      var r := FilterByContext(ts, context, m, isFirst);
      hide Prefer;
      LaterStages(t1, context, m, isFirst);
      assert r == LastStages(t1, context, m, isFirst);
      if r.Ok? {
        SubsequenceTrans(r.value, t1, ts);
      }
    }
  }

  /** The location and value-type filters. */
  function LastStages(t1: seq<Template>, context: Option<Message>, m: Message, isFirst: bool): Result<seq<Template>> {
    var t2 :- Prefer(t1, "location", !SameLocation(context, m));
    Prefer(t2, "value_type", !SameValueType(context, m, isFirst))
  }

  lemma LaterStages(t1: seq<Template>, context: Option<Message>, m: Message, isFirst: bool)
    ensures var r := LastStages(t1, context, m, isFirst);
      ((forall t :: t in t1 ==> Unresolved(t.components)) ==> r.Ok?)
      && (r.Ok? ==> (SubsequenceOf(r.value, t1) && (t1 != [] ==> r.value != [])
          && forall t :: t in r.value ==> t in t1))
  {
    var want2, want3 := !SameLocation(context, m), !SameValueType(context, m, isFirst);
    PreferMeaning(t1, "location", want2);
    PreferUnresolved(t1, "location", want2);
    var r2 := Prefer(t1, "location", want2);
    if r2.Ok? {
      var t2 := r2.value;
      SubsequenceMembers(t2, t1);
      PreferMeaning(t2, "value_type", want3);
      PreferUnresolved(t2, "value_type", want3);
      var r3 := Prefer(t2, "value_type", want3);
      if r3.Ok? {
        SubsequenceMembers(r3.value, t2);
        SubsequenceTrans(r3.value, t2, t1);
      }
    }
  }

  /** A filter cannot raise on templates with no resolved slot. */
  lemma PreferUnresolved(ts: seq<Template>, ty: string, want: bool)
    ensures (forall t :: t in ts ==> Unresolved(t.components)) ==> Prefer(ts, ty, want).Ok?
  {
    ProposedMeaning(ts, ty, want);
    if forall t :: t in ts ==> Unresolved(t.components) {
      forall i | 0 <= i < |ts| ensures HasSlotOfType(ts[i].components, ty).Ok? {
        HasSlotOfTypeUnresolved(ts[i].components, ty);
      }
    }
  }

  // ---------------------------------------------------------------- binding

  /** `_add_template_to_message`: fill a copy of the template; when it uses no facts the default
      template is stored, and storing the empty fact list then raises IndexError. */
  function AddTemplate(m: Message, t: Template, all: seq<Message>, env: Env): Result<Message> {
    var filled :- Fill(Copy(t), m, all, env);
    var tmpl := if filled.1 != [] then filled.0 else DefaultTemplate("");
    SetFacts(m.(template := Some(tmpl)), filled.1)
  }

  /** Checking a template does not look at its components. */
  lemma {:induction false} CheckRestIgnoresComponents(rules: seq<Rule>, all: seq<Message>, used: seq<Fact>,
                                                     cs: seq<Component>, cs0: seq<Component>, env: Env)
    ensures var a := CheckRest(rules, all, used, cs, false, env);
      var b := CheckRest(rules, all, used, cs0, false, env);
      a.Ok? == b.Ok? && (a.Err? ==> a.error == b.error)
      && (a.Ok? ==> a.value.used == b.value.used && a.value.components == cs && b.value.components == cs0)
    decreases |rules|
  {
    if rules != [] {
      var k := FirstMatching(all, rules[0].matchers, used, env);
      if k.Ok? && k.value.Some? {
        var f := all[k.value.value].mainFact;
        CheckRestIgnoresComponents(rules[1..], all, if f in used then used else used + [f], cs, cs0, env);
      }
    }
  }

  /** A chosen template, which passed `check`, binds with the facts `check` found: the fallback
      never happens, and the message keeps its id and main fact and gets the filled copy. The only
      failure left is a rule's slot index past the components, which raises IndexError. */
  lemma AddTemplateMeaning(m: Message, t: Template, all: seq<Message>, env: Env)
    requires Passes(t, m, all, env)
    ensures var r := AddTemplate(m, t, all, env);
      (r.Err? ==> r.error == IndexError)
      && (r.Ok? ==> (r.value.id == m.id && r.value.mainFact == m.mainFact && ValidMessage(r.value)
          && r.value.template.Some? && r.value.template.value.rules == t.rules
          && r.value.template.value.facts == r.value.facts
          && r.value.facts == CheckTemplate(t, m, all, false, env).value.used
          && GoodUsed(r.value.facts, m.mainFact, all)
          && |r.value.template.value.components| == |t.components|))
  {
    var c := Copy(t);
    var spec := CheckTemplate(t, m, all, false, env);
    CheckResult(t, m, all, false, env);
    var filled := CheckTemplate(c, m, all, true, env);
    if filled.Ok? {
      CheckAgreesWithFill(c, m, all, env);
      var ok := AllMatch(t.rules[0].matchers, m.mainFact, [], env).value;
      CheckRestIgnoresComponents(t.rules[1..], all, [m.mainFact], t.components, c.components, env);
      assert CheckTemplate(c, m, all, false, env).value.used == spec.value.used;
      var o := filled.value;
      assert |o.components| == |c.components| by {
        var cs := Bind(c.components, c.rules[0].slots, m.mainFact).value;
        CheckRestLength(c.rules[1..], all, [m.mainFact], cs, env);
      }
    } else {
      FillErrors(c, m, all, env);
      CheckRestIgnoresComponents(t.rules[1..], all, [m.mainFact], t.components, c.components, env);
    }
  }

  /** Filling keeps the number of components. */
  lemma {:induction false} CheckRestLength(rules: seq<Rule>, all: seq<Message>, used: seq<Fact>, cs: seq<Component>, env: Env)
    requires CheckRest(rules, all, used, cs, true, env).Ok?
    ensures |CheckRest(rules, all, used, cs, true, env).value.components| == |cs|
    decreases |rules|
  {
    if rules != [] {
      var k := FirstMatching(all, rules[0].matchers, used, env).value;
      if k.Some? {
        var f := all[k.value].mainFact;
        CheckRestLength(rules[1..], all, if f in used then used else used + [f], Bind(cs, rules[0].slots, f).value, env);
      }
    }
  }

  /** Filling raises only where checking raises, or with IndexError from binding. */
  lemma FillErrors(t: Template, m: Message, all: seq<Message>, env: Env)
    requires CheckTemplate(t, m, all, true, env).Err?
    ensures CheckTemplate(t, m, all, false, env).Err? || CheckTemplate(t, m, all, true, env).error == IndexError
  {
    if t.rules != [] && AllMatch(t.rules[0].matchers, m.mainFact, [], env) == Ok(true) {
      var b := Bind(t.components, t.rules[0].slots, m.mainFact);
      if b.Ok? {
        CheckRestFillErrors(t.rules[1..], all, [m.mainFact], b.value, t.components, env);
      }
    }
  }

  lemma {:induction false} CheckRestFillErrors(rules: seq<Rule>, all: seq<Message>, used: seq<Fact>,
                                              cs: seq<Component>, cs0: seq<Component>, env: Env)
    requires CheckRest(rules, all, used, cs, true, env).Err?
    ensures CheckRest(rules, all, used, cs0, false, env).Err? || CheckRest(rules, all, used, cs, true, env).error == IndexError
    decreases |rules|
  {
    if rules != [] {
      var k := FirstMatching(all, rules[0].matchers, used, env);
      if k.Ok? && k.value.Some? {
        var f := all[k.value.value].mainFact;
        var b := Bind(cs, rules[0].slots, f);
        if b.Ok? {
          CheckRestFillErrors(rules[1..], all, if f in used then used else used + [f], b.value, cs0, env);
        }
      }
    }
  }

  /** A template that uses no facts reaches the fallback, which raises IndexError. */
  lemma FallbackRaises(m: Message, t: Template, all: seq<Message>, env: Env)
    requires Fill(Copy(t), m, all, env).Ok? && Fill(Copy(t), m, all, env).value.1 == []
    ensures AddTemplate(m, t, all, env) == Err(IndexError)
  {
  }

  // ---------------------------------------------------------------- the traversal

  /** What the selection needs besides the plan: the language's templates, all messages, the
      runtime and the shuffle. */
  datatype Setting = Setting(templates: seq<Template>, all: seq<Message>, env: Env, pick: seq<Template> -> nat)

  /** One message child at position `idx` of its node. */
  function SelectMessage(s: Setting, m: Message, idx: nat, context: Option<Message>): Result<Message> {
    var ts :- Candidates(s.templates, m, s.all, s.env);
    if ts == [] then Err(NoTemplateForMessage)
    else
      var fs :- FilterByContext(ts, context, m, idx == 0);
      if fs == [] then Err(IndexError)
      else AddTemplate(m, fs[s.pick(fs) % |fs|], s.all, s.env)
  }

  /** A message that gets a template keeps its id and main fact and holds the facts it uses. */
  lemma SelectMessageMeaning(s: Setting, m: Message, idx: nat, context: Option<Message>)
    ensures var r := SelectMessage(s, m, idx, context);
      r.Ok? ==> (r.value.id == m.id && r.value.mainFact == m.mainFact
        && r.value.template.Some? && GoodUsed(r.value.facts, m.mainFact, s.all))
  {
    var r := SelectMessage(s, m, idx, context);
    if r.Ok? {
      var ts := Candidates(s.templates, m, s.all, s.env).value;
      CandidatesMeaning(s.templates, m, s.all, s.env);
      var fs := FilterByContext(ts, context, m, idx == 0).value;
      FilterMeaning(ts, context, m, idx == 0);
      SubsequenceMembers(fs, ts);
      var chosen := fs[s.pick(fs) % |fs|];
      assert chosen in fs;
      AddTemplateMeaning(m, chosen, s.all, s.env);
    }
  }

  /** The per-message step of the traversal, with its position among its siblings and the context. */
  type Step = (Message, nat, Option<Message>) -> Result<Message>

  /** A step that keeps each message's id and main fact and gives it a template and the facts it uses. */
  ghost predicate StepSound(step: Step, all: seq<Message>) {
    forall m: Message, idx: nat, context: Option<Message> :: step(m, idx, context).Ok? ==>
      (step(m, idx, context).value.id == m.id && step(m, idx, context).value.mainFact == m.mainFact
       && step(m, idx, context).value.template.Some? && GoodUsed(step(m, idx, context).value.facts, m.mainFact, all))
  }

  function Selector(s: Setting): Step {
    (m: Message, idx: nat, context: Option<Message>) => SelectMessage(s, m, idx, context)
  }

  lemma SelectorSound(s: Setting)
    ensures StepSound(Selector(s), s.all)
  {
    forall m: Message, idx: nat, context: Option<Message> | Selector(s)(m, idx, context).Ok?
      ensures Selector(s)(m, idx, context).value.id == m.id && Selector(s)(m, idx, context).value.mainFact == m.mainFact
        && Selector(s)(m, idx, context).value.template.Some? && GoodUsed(Selector(s)(m, idx, context).value.facts, m.mainFact, s.all)
    {
      SelectMessageMeaning(s, m, idx, context);
    }
  }

  /** `_recurse` over the children of `p` from position `i`, returning the new children and the
      last templated message. */
  function SelectFrom(step: Step, p: Plan, i: nat, context: Option<Message>): Result<(seq<Plan>, Option<Message>)>
    requires p.Node? && i <= |p.children|
    decreases p, 1, |p.children| - i
  {
    if i == |p.children| then Ok(([], context))
    else
      var c :- SelectChild(step, p.children[i], i, context);
      var rest :- SelectFrom(step, p, i + 1, c.1);
      Ok(([c.0] + rest.0, rest.1))
  }

  function SelectChild(step: Step, c: Plan, idx: nat, context: Option<Message>): Result<(Plan, Option<Message>)>
    decreases c, 2
  {
    match c
    case Leaf(m) =>
      var m' :- step(m, idx, context);
      Ok((Leaf(m'), Some(m')))
    case Node(_, rel) =>
      var r :- SelectFrom(step, c, 0, context);
      Ok((Node(r.0, rel), r.1))
  }

  /** The traversal's result, with `done` placed before the children it returns. */
  function Prepend(done: seq<Plan>, r: Result<(seq<Plan>, Option<Message>)>): Result<(seq<Plan>, Option<Message>)> {
    if r.Err? then r else Ok((done + r.value.0, r.value.1))
  }

  /** One round of the traversal: the child at `i`, then the rest with the context it hands on. */
  lemma SelectFromAt(step: Step, p: Plan, i: nat, context: Option<Message>)
    requires p.Node? && i < |p.children|
    ensures var c := SelectChild(step, p.children[i], i, context);
      SelectFrom(step, p, i, context) == if c.Err? then Err(c.error) else Prepend([c.value.0], SelectFrom(step, p, i + 1, c.value.1))
  {
  }

  lemma SelectFromEnd(step: Step, p: Plan, context: Option<Message>)
    requires p.Node?
    ensures SelectFrom(step, p, |p.children|, context) == Ok(([], context))
  {
  }

  lemma PrependErr(done: seq<Plan>, e: Error)
    ensures Prepend(done, Err(e)) == Err(e)
  {
  }

  lemma PrependEnd(done: seq<Plan>, context: Option<Message>)
    ensures Prepend(done, Ok(([], context))) == Ok((done, context))
  {
    assert done + [] == done;
  }

  lemma PrependNone(r: Result<(seq<Plan>, Option<Message>)>)
    ensures Prepend([], r) == r
  {
    if r.Ok? {
      assert [] + r.value.0 == r.value.0;
    }
  }

  lemma PrependTwice(done: seq<Plan>, c: Plan, r: Result<(seq<Plan>, Option<Message>)>)
    ensures Prepend(done, Prepend([c], r)) == Prepend(done + [c], r)
  {
    if r.Ok? {
      assert done + ([c] + r.value.0) == (done + [c]) + r.value.0;
    }
  }

  /** `_recurse` as the source runs it: a loop over the node's children that templates each message
      and descends into each nested node, carrying the context along. */
  method Recurse(step: Step, p: Plan, context: Option<Message>) returns (r: Result<(seq<Plan>, Option<Message>)>)
    requires p.Node?
    ensures r == SelectFrom(step, p, 0, context)
    decreases p, 1
  {
    var done: seq<Plan> := [];
    var ctx := context;
    var i := 0;
    PrependNone(SelectFrom(step, p, 0, context));
    hide SelectFrom, SelectChild, Prepend;
    while i < |p.children|
      invariant 0 <= i <= |p.children|
      invariant SelectFrom(step, p, 0, context) == Prepend(done, SelectFrom(step, p, i, ctx))
      decreases |p.children| - i
    {
      SelectFromAt(step, p, i, ctx);
      var c := RecurseChild(step, p.children[i], i, ctx);
      if c.Err? {
        PrependErr(done, c.error);
        return Err(c.error);
      }
      PrependTwice(done, c.value.0, SelectFrom(step, p, i + 1, c.value.1));
      done := done + [c.value.0];
      ctx := c.value.1;
      i := i + 1;
    }
    SelectFromEnd(step, p, ctx);
    PrependEnd(done, ctx);
    r := Ok((done, ctx));
  }

  /** The loop body for one child: a message gets its template, a node is traversed in turn. */
  method RecurseChild(step: Step, child: Plan, i: nat, ctx: Option<Message>) returns (c: Result<(Plan, Option<Message>)>)
    ensures c == SelectChild(step, child, i, ctx)
    decreases child, 2
  {
    if child.Leaf? {
      var m := step(child.message, i, ctx);
      c := if m.Err? then Err(m.error) else Ok((Leaf(m.value), Some(m.value)));
    } else {
      var sub := Recurse(step, child, ctx);
      c := if sub.Err? then Err(sub.error) else Ok((Node(sub.value.0, child.relation), sub.value.1));
    }
  }

  /** `TemplateSelector.run`: the language's templates from the table (KeyError when missing),
      then the traversal of the root's children with no context. */
  function Run(templatesByLanguage: map<string, seq<Template>>, language: string, all: seq<Message>, env: Env,
               pick: seq<Template> -> nat, plan: Plan): Result<Plan>
  {
    if Lower(language) !in templatesByLanguage then Err(KeyError(Lower(language)))
    else if plan.Leaf? then Err(AttributeError("children"))
    else
      var r :- SelectFrom(Selector(Setting(templatesByLanguage[Lower(language)], all, env, pick)), plan, 0, None);
      Ok(Node(r.0, plan.relation))
  }

  /** The plan after selection: the same tree, each message the same object with the same main
      fact, now holding a template and, as its facts, the facts the template uses. */
  predicate Templated(before: Plan, after: Plan, all: seq<Message>)
    decreases before
  {
    match before
    case Leaf(m) =>
      after.Leaf? && after.message.id == m.id && after.message.mainFact == m.mainFact
      && after.message.template.Some? && GoodUsed(after.message.facts, m.mainFact, all)
    case Node(cs, rel) =>
      after.Node? && after.relation == rel && |after.children| == |cs|
      && forall k :: 0 <= k < |cs| ==> Templated(cs[k], after.children[k], all)
  }

  /** The context handed on is the last templated message in document order, or the incoming one
      when the subtree holds no message. */
  function LastOr(ms: seq<Message>, context: Option<Message>): Option<Message> {
    if ms == [] then context else Some(ms[|ms| - 1])
  }

  /** A successful traversal templates every message of the subtree and hands on its last one. */
  lemma {:induction false} SelectChildMeaning(step: Step, all: seq<Message>, c: Plan, idx: nat, context: Option<Message>)
    requires StepSound(step, all)
    ensures var r := SelectChild(step, c, idx, context);
      r.Ok? ==> (Templated(c, r.value.0, all) && r.value.1 == LastOr(Messages(r.value.0), context))
    decreases c, 2
  {
    match c
    case Leaf(m) =>
      var r := SelectChild(step, c, idx, context);
    case Node(_, rel) =>
      var r := SelectChild(step, c, idx, context);
      SelectFromMeaning(step, all, c, 0, context);
      if r.Ok? {
        var sub := SelectFrom(step, c, 0, context).value;
        var w := Node(sub.0, rel);
        assert Messages(w) == MessagesOf(w, sub.0);
        LastListMessages(w, sub.0, context);
      }
  }

  lemma {:induction false} SelectFromMeaning(step: Step, all: seq<Message>, p: Plan, i: nat, context: Option<Message>)
    requires StepSound(step, all) && p.Node? && i <= |p.children|
    ensures var r := SelectFrom(step, p, i, context);
      r.Ok? ==> (TemplatedFrom(p.children, i, r.value.0, all) && r.value.1 == LastList(r.value.0, context))
    decreases p, 1, |p.children| - i
  {
    if i < |p.children| {
      SelectFromCons(step, p, i, context);
      hide SelectFrom, SelectChild, Templated, TemplatedFrom, LastList, Messages;
      var r := SelectFrom(step, p, i, context);
      if r.Ok? {
        var c := SelectChild(step, p.children[i], i, context).value;
        SelectChildMeaning(step, all, p.children[i], i, context);
        SelectFromMeaning(step, all, p, i + 1, c.1);
        var rest := SelectFrom(step, p, i + 1, c.1).value;
        ConsTemplated(p.children, i, c.0, rest.0, all);
        LastListCons(c.0, rest.0, context);
      }
    }
  }

  /** One step of the traversal of a node's children. */
  lemma SelectFromCons(step: Step, p: Plan, i: nat, context: Option<Message>)
    requires p.Node? && i < |p.children|
    ensures var r := SelectFrom(step, p, i, context);
      var c := SelectChild(step, p.children[i], i, context);
      r.Ok? ==> (c.Ok? && SelectFrom(step, p, i + 1, c.value.1).Ok?
        && r.value == ([c.value.0] + SelectFrom(step, p, i + 1, c.value.1).value.0, SelectFrom(step, p, i + 1, c.value.1).value.1))
  {
  }

  /** `after` is the templated form of the children from position `i` on. */
  predicate TemplatedFrom(children: seq<Plan>, i: nat, after: seq<Plan>, all: seq<Message>) {
    i <= |children| && |after| == |children| - i
    && forall k :: 0 <= k < |after| ==> Templated(children[i + k], after[k], all)
  }

  lemma ConsTemplated(children: seq<Plan>, i: nat, first: Plan, rest: seq<Plan>, all: seq<Message>)
    requires i < |children| && Templated(children[i], first, all) && TemplatedFrom(children, i + 1, rest, all)
    ensures TemplatedFrom(children, i, [first] + rest, all)
  {
    hide Templated;
    forall k | 0 <= k < |[first] + rest| ensures Templated(children[i + k], ([first] + rest)[k], all) {
      if k > 0 {
        assert ([first] + rest)[k] == rest[k - 1];
        assert children[i + k] == children[i + 1 + (k - 1)];
      }
    }
  }

  /** The last message of a list of subtrees, or the incoming context. */
  function LastList(cs: seq<Plan>, context: Option<Message>): Option<Message>
    decreases |cs|
  {
    if cs == [] then context else LastList(cs[1..], LastOr(Messages(cs[0]), context))
  }

  lemma LastListCons(c: Plan, rest: seq<Plan>, context: Option<Message>)
    ensures LastList([c] + rest, context) == LastList(rest, LastOr(Messages(c), context))
  {
    assert ([c] + rest)[1..] == rest;
  }

  /** Handing the context along the subtrees ends at the last message of them all. */
  lemma {:induction false} LastListMessages(w: Plan, cs: seq<Plan>, context: Option<Message>)
    requires forall i :: 0 <= i < |cs| ==> cs[i] < w
    ensures LastList(cs, context) == LastOr(MessagesOf(w, cs), context)
    decreases |cs|
  {
    if cs != [] {
      LastListMessages(w, cs[1..], LastOr(Messages(cs[0]), context));
      var a, b := Messages(cs[0]), MessagesOf(w, cs[1..]);
      assert MessagesOf(w, cs) == a + b;
      if b != [] {
        assert (a + b)[|a + b| - 1] == b[|b| - 1];
      }
    }
  }

  /** The run templates every message of the plan and keeps the tree's shape. */
  lemma RunMeaning(templatesByLanguage: map<string, seq<Template>>, language: string, all: seq<Message>, env: Env,
                   pick: seq<Template> -> nat, plan: Plan)
    ensures var r := Run(templatesByLanguage, language, all, env, pick, plan);
      (Lower(language) !in templatesByLanguage ==> r == Err(KeyError(Lower(language))))
      && (r.Ok? ==> Templated(plan, r.value, all))
  {
    if Lower(language) in templatesByLanguage && plan.Node? {
      var st := Setting(templatesByLanguage[Lower(language)], all, env, pick);
      SelectorSound(st);
      SelectFromMeaning(Selector(st), all, plan, 0, None);
    }
  }

  /** A message that no template passes stops the run. */
  lemma NoCandidateRaises(s: Setting, m: Message, idx: nat, context: Option<Message>)
    requires Candidates(s.templates, m, s.all, s.env) == Ok([])
    ensures SelectChild(Selector(s), Leaf(m), idx, context) == Err(NoTemplateForMessage)
  {
  }
}

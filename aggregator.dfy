/** Aggregation (`core/aggregator.py`): inside every sequence node, adjacent messages whose
    templates start with the same value are merged into one message joined by the language's
    conjunction, unless either refuses aggregation or the time expressions would then refer to
    the wrong time. The registry's "conjunctions" table is the parameter `conj`. */
module Aggregator {
  import opened Wrappers
  import opened Models
  import D = DocumentPlanner

  /** The registry entry "conjunctions": per language, words such as "default_combiner". */
  type Conjunctions = map<string, map<string, string>>

  // ---------------------------------------------------------------- component equality

  /** `slot_type`, which raises on a resolved slot. */
  function SlotTypeOf(c: Component): (r: Result<string>)
    ensures r.Ok? <==> SlotType(c).Some?
    ensures r.Ok? ==> r.value == SlotType(c).value
  {
    match SlotType(c)
    case None => Err(AttributeError("field_name"))
    case Some(t) => Ok(t)
  }

  /** The case `_are_same` reads: a slot's "case" attribute (default ""), and "no-case" for a
      literal, which has no attributes. */
  function CaseOf(c: Component): Value {
    if c.Literal? then VStr("no-case")
    else if "case" in c.attributes then c.attributes["case"] else VStr("")
  }

  /** `_are_same`: equal values; for two slots bound to facts, not the "value" slot and equal
      field values for plain fact fields; and in every case equal cases. */
  function AreSame(c1: Component, c2: Component): Result<bool> {
    var v1 :- ComponentValue(c1);
    var v2 :- ComponentValue(c2);
    if !PyEq(v1, v2) then Ok(false)
    else if c1.Slot? && c2.Slot? then
      if c1.fact.None? || c2.fact.None? then Ok(true)
      else
        var t1 :- SlotTypeOf(c1);
        if t1 == "value" then Ok(false)
        else if t1 !in FactFieldNames then Ok(PyEq(CaseOf(c1), CaseOf(c2)))
        else
          var t2 :- SlotTypeOf(c2);
          if t2 in FactFieldNames && !PyEq(FieldOf(c1.fact.value, t1).value, FieldOf(c2.fact.value, t2).value) then Ok(false)
          else Ok(PyEq(CaseOf(c1), CaseOf(c2)))
    else Ok(PyEq(CaseOf(c1), CaseOf(c2)))
  }

  /** The rules of `_are_same`: components with different values are never the same; slots without
      facts are the same by value alone; a "value" slot bound to a fact is the same as nothing;
      slots of fact fields need equal field values; otherwise the cases decide, so two literals are
      the same exactly when their texts are, and a literal is never the same as a slot whose case
      is not literally "no-case". */
  lemma AreSameRules(c1: Component, c2: Component)
    ensures var r := AreSame(c1, c2);
      var v1, v2 := ComponentValue(c1), ComponentValue(c2);
      (v1.Ok? && v2.Ok? && !PyEq(v1.value, v2.value) ==> r == Ok(false))
      && (c1.Slot? && c2.Slot? && (c1.fact.None? || c2.fact.None?) && v1.Ok? && v2.Ok? ==>
            r == Ok(PyEq(v1.value, v2.value)))
      && (c1.Slot? && c2.Slot? && c1.fact.Some? && c2.fact.Some? && SlotType(c1) == Some("value") ==> r != Ok(true))
      && (c1.Slot? && c2.Slot? && c1.fact.Some? && c2.fact.Some? && r == Ok(true) && SlotType(c1).value in FactFieldNames
            && SlotType(c2).value in FactFieldNames ==>
            PyEq(FieldOf(c1.fact.value, SlotType(c1).value).value, FieldOf(c2.fact.value, SlotType(c2).value).value))
      && (r == Ok(true) ==> PyEq(CaseOf(c1), CaseOf(c2)) || (c1.Slot? && c2.Slot? && (c1.fact.None? || c2.fact.None?)))
      && (c1.Literal? && c2.Literal? ==> r == Ok(c1.text == c2.text))
      && (c1.Literal? && c2.Slot? && CaseOf(c2) != VStr("no-case") ==> r != Ok(true))
  {
  }

  // ---------------------------------------------------------------- prefix and time

  /** The value of a message template's first component, as `_same_prefix` reads it: no template
      reads as an AttributeError, which it catches, and no components raise IndexError. */
  function FirstValue(m: Message): Result<Value> {
    if m.template.None? then Err(AttributeError("components"))
    else if m.template.value.components == [] then Err(IndexError)
    else ComponentValue(m.template.value.components[0])
  }

  /** `_same_prefix`: the first components' values are equal; an AttributeError on the way
      means no. */
  function SamePrefix(first: Message, second: Message): Result<bool> {
    match FirstValue(first)
    case Err(e) => if e.AttributeError? then Ok(false) else Err(e)
    case Ok(v1) =>
      match FirstValue(second)
      case Err(e) => if e.AttributeError? then Ok(false) else Err(e)
      case Ok(v2) => Ok(PyEq(v1, v2))
  }

  /** Two messages share a prefix exactly when both have templates whose first components have
      equal values; a missing template means no; only an empty template raises. */
  lemma SamePrefixMeaning(first: Message, second: Message)
    ensures var r := SamePrefix(first, second);
      (r == Ok(true) <==> (first.template.Some? && second.template.Some?
        && first.template.value.components != [] && second.template.value.components != []
        && ComponentValue(first.template.value.components[0]).Ok? && ComponentValue(second.template.value.components[0]).Ok?
        && PyEq(ComponentValue(first.template.value.components[0]).value, ComponentValue(second.template.value.components[0]).value)))
      && (first.template.None? ==> r == Ok(false))
      && (r.Err? ==> r.error == IndexError)
  {
    var c1 := FirstValue(first);
    if first.template.Some? && first.template.value.components != [] {
      ValueErrors(first.template.value.components[0]);
    }
    if second.template.Some? && second.template.value.components != [] {
      ValueErrors(second.template.value.components[0]);
    }
  }

  /** Reading a component's value can only raise AttributeError. */
  lemma ValueErrors(c: Component)
    ensures ComponentValue(c).Err? ==> ComponentValue(c).error.AttributeError?
  {
    if c.Slot? && c.source.FactFieldSource? && c.fact.Some? {
      assert ComponentValue(c) == FieldOf(c.fact.value, c.source.fieldName);
    }
  }

  /** `_has_implicit_time`: the template has no "time" slot. */
  function ImplicitTime(m: Message): Result<bool> {
    if m.template.None? then Err(AttributeError("has_slot_of_type"))
    else
      var h :- HasSlotOfType(m.template.value.components, "time");
      Ok(!h)
  }

  lemma ImplicitTimeMeaning(m: Message)
    requires m.template.Some? && Unresolved(m.template.value.components)
    ensures var cs := m.template.value.components;
      ImplicitTime(m).Ok?
      && (ImplicitTime(m).value <==> forall i :: 0 <= i < |cs| && cs[i].Slot? ==> SlotType(cs[i]) != Some("time"))
  {
    HasSlotOfTypeUnresolved(m.template.value.components, "time");
  }

  // ---------------------------------------------------------------- combining

  /** The index `_combine`'s loop leaves in `idx`: scanning the second template from `i`, it stops
      past the end of the first or at a component that differs; after a full scan it is the last
      index, and with no components at all it is unbound. */
  function SplitFrom(cs1: seq<Component>, cs2: seq<Component>, i: nat): (r: Result<Option<nat>>)
    requires i <= |cs2|
    ensures r.Ok? ==> (r.value.None? <==> cs2 == [])
    ensures r.Ok? && r.value.Some? ==> i <= r.value.value < |cs2| || r.value.value == i - 1
    decreases |cs2| - i
  {
    if i == |cs2| then Ok(if i == 0 then None else Some(i - 1))
    else if i >= |cs1| then Ok(Some(i))
    else
      var same :- AreSame(cs1[i], cs2[i]);
      if !same then Ok(Some(i)) else SplitFrom(cs1, cs2, i + 1)
  }

  predicate SameUpTo(cs1: seq<Component>, cs2: seq<Component>, k: nat) {
    k <= |cs1| && k <= |cs2| && forall j :: 0 <= j < k ==> AreSame(cs1[j], cs2[j]) == Ok(true)
  }

  /** The index is the first differing position; or the length of the first template when the
      second extends it; or the second's last position when it is a prefix of the first. */
  lemma {:induction false} SplitMeaning(cs1: seq<Component>, cs2: seq<Component>, i: nat)
    requires i <= |cs2| && SameUpTo(cs1, cs2, i)
    ensures var r := SplitFrom(cs1, cs2, i);
      r.Ok? ==>
        (cs2 == [] <==> r.value.None?)
        && (r.value.Some? ==> var k := r.value.value;
              (k < |cs1| && k < |cs2| && SameUpTo(cs1, cs2, k) && AreSame(cs1[k], cs2[k]) == Ok(false))
              || (k == |cs1| < |cs2| && SameUpTo(cs1, cs2, k))
              || (k == |cs2| - 1 && |cs2| <= |cs1| && SameUpTo(cs1, cs2, |cs2|)))
    decreases |cs2| - i
  {
    if i < |cs2| && i < |cs1| {
      var same := AreSame(cs1[i], cs2[i]);
      if same == Ok(true) {
        SplitMeaning(cs1, cs2, i + 1);
      }
    }
  }

  /** The loop itself. */
  method FindSplit(cs1: seq<Component>, cs2: seq<Component>) returns (r: Result<Option<nat>>)
    ensures r == SplitFrom(cs1, cs2, 0)
  {
    var idx := 0;
    while idx < |cs2|
      invariant idx <= |cs2| && idx <= |cs1|
      invariant SplitFrom(cs1, cs2, 0) == SplitFrom(cs1, cs2, idx)
      decreases |cs2| - idx
    {
      if idx >= |cs1| {
        return Ok(Some(idx));
      }
      var same := AreSame(cs1[idx], cs2[idx]);
      if same.Err? {
        return Err(same.error);
      }
      if !same.value {
        return Ok(Some(idx));
      }
      idx := idx + 1;
    }
    r := Ok(if idx == 0 then None else Some(idx - 1));
  }

  /** The conjunction: the language's "default_combiner", or its placeholder text. A language
      with no table, or an empty one, falls back to a tuple, which has no `get`. */
  function Conjunction(conj: Conjunctions, language: string): (r: Result<string>)
    ensures r.Err? <==> language !in conj || conj[language] == map[]
    ensures r.Err? ==> r.error == AttributeError("get")
  {
    if language !in conj || conj[language] == map[] then Err(AttributeError("get"))
    else if "default_combiner" in conj[language] then Ok(conj[language]["default_combiner"])
    else Ok("MISSING-DEFAULT-CONJUCTION")
  }

  /** Every component's value, read in order; the first failure is raised. `_combine` reads them
      all for its log lines before it does anything else. */
  function AllValues(cs: seq<Component>): (r: Result<seq<Value>>)
    ensures r.Ok? <==> forall i :: 0 <= i < |cs| ==> ComponentValue(cs[i]).Ok?
  {
    if cs == [] then Ok([])
    else
      var v :- ComponentValue(cs[0]);
      var vs :- AllValues(cs[1..]);
      Ok([v] + vs)
  }

  /** `[fact for fact in facts if fact not in seen]`. */
  function Unseen(facts: seq<Fact>, seen: seq<Fact>): (r: seq<Fact>)
    ensures forall f :: f in r <==> f in facts && f !in seen
    ensures |r| <= |facts|
  {
    if facts == [] then []
    else (if facts[0] in seen then [] else [facts[0]]) + Unseen(facts[1..], seen)
  }

  /** `_combine`: all of the first template's components, the conjunction, and the second's from the
      split index on, in a new message with the first's facts followed by the second's unseen ones
      and the first's importance coefficient, marked so that it is not aggregated again. The source
      compares the first message's polarity with itself, so the default combiner is always used. */
  function Combine(first: Message, second: Message, conj: Conjunctions, language: string): Result<Message> {
    if first.template.None? || second.template.None? then Err(AttributeError("components"))
    else
      var cs1, cs2 := first.template.value.components, second.template.value.components;
      var vs1 :- AllValues(cs1);
      var vs2 :- AllValues(cs2);
      var k :- SplitFrom(cs1, cs2, 0);
      var word :- Conjunction(conj, language);
      if k.None? then Err(NameError("idx"))
      else
        var m :- NewMessage(first.id, first.facts + Unseen(second.facts, first.facts));
        Ok(m.(template := Some(NewTemplate(cs1 + [Literal(word)] + cs2[k.value..], [])),
              importanceCoefficient := first.importanceCoefficient, preventAggregation := true))
  }

  /** What the merged message holds. */
  lemma CombineMeaning(first: Message, second: Message, conj: Conjunctions, language: string)
    requires first.template.Some? && second.template.Some?
    ensures var r := Combine(first, second, conj, language);
      var cs1, cs2 := first.template.value.components, second.template.value.components;
      var k := SplitFrom(cs1, cs2, 0);
      var read := AllValues(cs1).Ok? && AllValues(cs2).Ok?;
      (read && k.Ok? && cs2 != [] && Conjunction(conj, language).Ok? && first.facts != [] ==> r.Ok?)
      && (read && k.Ok? && (language !in conj || conj[language] == map[]) ==> r == Err(AttributeError("get")))
      && (r.Ok? ==> read)
      && (r.Ok? ==>
            k.Ok? && k.value.Some? && k.value.value < |cs2|
            && r.value.template == Some(Template(cs1 + [Literal(Conjunction(conj, language).value)] + cs2[k.value.value..], [], []))
            && r.value.facts == first.facts + Unseen(second.facts, first.facts)
            && r.value.mainFact == r.value.facts[0] && ValidMessage(r.value)
            && r.value.importanceCoefficient == first.importanceCoefficient
            && r.value.preventAggregation && r.value.score == 0.0 && r.value.polarity == 0.0)
  {
    var cs1, cs2 := first.template.value.components, second.template.value.components;
    var k := SplitFrom(cs1, cs2, 0);
    if k.Ok? {
      SplitMeaning(cs1, cs2, 0);
    }
  }

  /** Every fact of both messages is in the merged one, and no other. */
  lemma CombineFacts(first: Message, second: Message, conj: Conjunctions, language: string)
    requires Combine(first, second, conj, language).Ok?
    ensures forall f :: f in Combine(first, second, conj, language).value.facts <==> f in first.facts || f in second.facts
  {
  }

  /** The polarities of the two messages play no part. */
  lemma PolarityIgnored(first: Message, second: Message, conj: Conjunctions, language: string, p1: real, p2: real)
    ensures Combine(first.(polarity := p1), second.(polarity := p2), conj, language) == Combine(first, second, conj, language)
  {
  }

  // ---------------------------------------------------------------- the sequence loop

  /** What appending a message to the new children does (lines 51-98 of the loop body): the first
      child, a refused aggregation or no shared prefix append it; an explicit previous time with an
      implicit current one merges with the current message first; an implicit previous time with
      an explicit current one appends; otherwise the two merge in order. */
  function Absorb(acc: seq<Plan>, cur: Message, conj: Conjunctions, language: string): Result<seq<Plan>> {
    if acc == [] then Ok(acc + [Leaf(cur)])
    else
      var last := acc[|acc| - 1];
      if last.Node? then Err(AttributeError("prevent_aggregation"))
      else
        var prev := last.message;
        if prev.preventAggregation || cur.preventAggregation then Ok(acc + [Leaf(cur)])
        else
          var same :- SamePrefix(prev, cur);
          if !same then Ok(acc + [Leaf(cur)])
          else
            var ip :- ImplicitTime(prev);
            var ic :- ImplicitTime(cur);
            if !ip && ic then
              var m :- Combine(cur, prev, conj, language);
              Ok(acc[..|acc| - 1] + [Leaf(m)])
            else if ip && !ic then Ok(acc + [Leaf(cur)])
            else
              var m :- Combine(prev, cur, conj, language);
              Ok(acc[..|acc| - 1] + [Leaf(m)])
  }

  /** A merge happens exactly when the previous new child is a message, neither refuses, the
      prefixes agree and the times do not go from implicit to explicit; then the last child is
      replaced by the merge, with the current message first when only the previous one states its
      time. Otherwise the current message is appended. */
  lemma AbsorbMeaning(acc: seq<Plan>, cur: Message, conj: Conjunctions, language: string)
    ensures var r := Absorb(acc, cur, conj, language);
      var merges := acc != [] && acc[|acc| - 1].Leaf?
        && !acc[|acc| - 1].message.preventAggregation && !cur.preventAggregation
        && SamePrefix(acc[|acc| - 1].message, cur) == Ok(true)
        && ImplicitTime(acc[|acc| - 1].message).Ok? && ImplicitTime(cur).Ok?
        && !(ImplicitTime(acc[|acc| - 1].message).value && !ImplicitTime(cur).value);
      (acc == [] ==> r == Ok([Leaf(cur)]))
      && (r.Ok? && !merges ==> r.value == acc + [Leaf(cur)])
      && (r.Ok? && merges ==>
            var prev := acc[|acc| - 1].message;
            var swap := !ImplicitTime(prev).value && ImplicitTime(cur).value;
            var m := if swap then Combine(cur, prev, conj, language) else Combine(prev, cur, conj, language);
            m.Ok? && r.value == acc[..|acc| - 1] + [Leaf(m.value)])
      && (acc != [] && acc[|acc| - 1].Leaf? && acc[|acc| - 1].message.preventAggregation ==> r == Ok(acc + [Leaf(cur)]))
  {
    assert [] + [Leaf(cur)] == [Leaf(cur)];
  }

  /** The two outcomes of absorbing a message: it is appended, or the last child, a message, is
      replaced by its merge with the current one in one order or the other. */
  predicate AbsorbOutcome(acc: seq<Plan>, cur: Message, r: seq<Plan>, conj: Conjunctions, language: string) {
    r == acc + [Leaf(cur)]
    || (acc != [] && acc[|acc| - 1].Leaf? && |r| == |acc| && r[..|acc| - 1] == acc[..|acc| - 1] && r[|acc| - 1].Leaf?
        && (Combine(acc[|acc| - 1].message, cur, conj, language) == Ok(r[|acc| - 1].message)
            || Combine(cur, acc[|acc| - 1].message, conj, language) == Ok(r[|acc| - 1].message)))
  }

  lemma AbsorbCases(acc: seq<Plan>, cur: Message, conj: Conjunctions, language: string)
    requires Absorb(acc, cur, conj, language).Ok?
    ensures AbsorbOutcome(acc, cur, Absorb(acc, cur, conj, language).value, conj, language)
  {
  }

  /** `_aggregate`: a message is returned as it is; elaborations and lists are not implemented;
      every other node is aggregated as a sequence. */
  function Aggregate(p: Plan, conj: Conjunctions, language: string): Result<Plan>
    decreases p, 2
  {
    match p
    case Leaf(_) => Ok(p)
    case Node(_, rel) =>
      if rel == Elaboration then Err(NotImplemented("_aggregate_elaboration"))
      else if rel == ListRelation then Err(NotImplemented("_aggregate_list"))
      else
        var out :- AggregateFrom(p, 0, [], conj, language);
        Ok(Node(out, rel))
  }

  /** `_aggregate_sequence` from child `i` on, with the new children so far. */
  function AggregateFrom(p: Plan, i: nat, acc: seq<Plan>, conj: Conjunctions, language: string): Result<seq<Plan>>
    requires p.Node? && i <= |p.children|
    decreases p, 1, |p.children| - i
  {
    if i == |p.children| then Ok(acc)
    else
      var c := p.children[i];
      var acc' :- if c.Node? then
          var a :- Aggregate(c, conj, language);
          Ok(acc + [a])
        else Absorb(acc, c.message, conj, language);
      AggregateFrom(p, i + 1, acc', conj, language)
  }

  // ---------------------------------------------------------------- the loop as the source runs it

  /** `_aggregate`, run as the source does. */
  method AggregatePlan(p: Plan, conj: Conjunctions, language: string) returns (r: Result<Plan>)
    ensures r == Aggregate(p, conj, language)
    decreases p, 2
  {
    if p.Leaf? {
      return Ok(p);
    }
    if p.relation == Elaboration {
      return Err(NotImplemented("_aggregate_elaboration"));
    }
    if p.relation == ListRelation {
      return Err(NotImplemented("_aggregate_list"));
    }
    var out := AggregateSequence(p, conj, language);
    r := if out.Err? then Err(out.error) else Ok(Node(out.value, p.relation));
  }

  /** `_aggregate_sequence`: one pass over the children, appending to or overwriting the last of the
      new children. */
  method AggregateSequence(p: Plan, conj: Conjunctions, language: string) returns (r: Result<seq<Plan>>)
    requires p.Node?
    ensures r == AggregateFrom(p, 0, [], conj, language)
    decreases p, 1
  {
    var acc: seq<Plan> := [];
    var i := 0;
    while i < |p.children|
      invariant i <= |p.children|
      invariant AggregateFrom(p, 0, [], conj, language) == AggregateFrom(p, i, acc, conj, language)
      decreases |p.children| - i
    {
      AggregateFromAt(p, i, acc, conj, language);
      var c := p.children[i];
      if c.Node? {
        var a := AggregatePlan(c, conj, language);
        if a.Err? {
          return Err(a.error);
        }
        acc := acc + [a.value];
      } else {
        var n := Absorb(acc, c.message, conj, language);
        if n.Err? {
          return Err(n.error);
        }
        acc := n.value;
      }
      i := i + 1;
    }
    r := Ok(acc);
  }

  lemma AggregateFromAt(p: Plan, i: nat, acc: seq<Plan>, conj: Conjunctions, language: string)
    requires p.Node? && i < |p.children|
    ensures var c := p.children[i];
      var next := if c.Node? then (if Aggregate(c, conj, language).Err? then Err(Aggregate(c, conj, language).error)
                                   else Ok(acc + [Aggregate(c, conj, language).value]))
                  else Absorb(acc, c.message, conj, language);
      AggregateFrom(p, i, acc, conj, language) == if next.Err? then Err(next.error) else AggregateFrom(p, i + 1, next.value, conj, language)
  {
  }

  // ---------------------------------------------------------------- what aggregation keeps

  function FactSet(fs: seq<Fact>): (r: set<Fact>)
    ensures forall f :: f in r <==> f in fs
  {
    if fs == [] then {} else {fs[0]} + FactSet(fs[1..])
  }

  /** Every fact of a list of messages. */
  function FactsOf(ms: seq<Message>): set<Fact> {
    if ms == [] then {} else FactSet(ms[0].facts) + FactsOf(ms[1..])
  }

  lemma {:induction false} FactsOfConcat(a: seq<Message>, b: seq<Message>)
    ensures FactsOf(a + b) == FactsOf(a) + FactsOf(b)
  {
    if a == [] {
      assert a + b == b;
    } else {
      assert (a + b)[1..] == a[1..] + b;
      FactsOfConcat(a[1..], b);
    }
  }

  lemma FlatSnoc(cs: seq<Plan>, x: Plan)
    ensures Flat(cs + [x]) == Flat(cs) + Messages(x)
  {
    D.MessagesOfSnoc(Node(cs, Sequence), cs, x, Node(cs + [x], Sequence));
  }

  /** The facts of the new children after one absorbed message: those before, and the message's. */
  lemma AbsorbFacts(acc: seq<Plan>, cur: Message, conj: Conjunctions, language: string)
    requires Absorb(acc, cur, conj, language).Ok?
    ensures FactsOf(Flat(Absorb(acc, cur, conj, language).value)) == FactsOf(Flat(acc)) + FactSet(cur.facts)
  {
    var r := Absorb(acc, cur, conj, language).value;
    AbsorbCases(acc, cur, conj, language);
    hide Absorb, Combine;
    if r == acc + [Leaf(cur)] {
      FlatSnoc(acc, Leaf(cur));
      FactsOfConcat(Flat(acc), [cur]);
    } else {
      var init, prev := acc[..|acc| - 1], acc[|acc| - 1].message;
      var m := r[|r| - 1].message;
      assert acc == init + [Leaf(prev)] && r == init + [Leaf(m)];
      if Combine(prev, cur, conj, language) == Ok(m) {
        CombineFacts(prev, cur, conj, language);
      } else {
        CombineFacts(cur, prev, conj, language);
      }
      ReplaceLastFacts(init, prev, m, cur);
    }
  }

  lemma ReplaceLastFacts(init: seq<Plan>, prev: Message, m: Message, cur: Message)
    requires forall f :: f in m.facts <==> f in prev.facts || f in cur.facts
    ensures FactsOf(Flat(init + [Leaf(m)])) == FactsOf(Flat(init + [Leaf(prev)])) + FactSet(cur.facts)
  {
    FlatSnoc(init, Leaf(prev));
    FlatSnoc(init, Leaf(m));
    FactsOfConcat(Flat(init), [prev]);
    FactsOfConcat(Flat(init), [m]);
    assert FactSet(m.facts) == FactSet(prev.facts) + FactSet(cur.facts);
  }

  /** Aggregation loses no fact and adds none. */
  lemma {:induction false} AggregateFacts(p: Plan, conj: Conjunctions, language: string)
    requires Aggregate(p, conj, language).Ok?
    ensures FactsOf(Messages(Aggregate(p, conj, language).value)) == FactsOf(Messages(p))
    decreases p, 2
  {
    if p.Node? {
      var out := AggregateFrom(p, 0, [], conj, language).value;
      AggregateFromFacts(p, 0, [], conj, language);
      MessagesOfWhole(Node(out, p.relation), Node(out, Sequence), out);
      assert p.children[0..] == p.children;
    }
  }

  lemma {:induction false} AggregateFromFacts(p: Plan, i: nat, acc: seq<Plan>, conj: Conjunctions, language: string)
    requires p.Node? && i <= |p.children| && AggregateFrom(p, i, acc, conj, language).Ok?
    ensures FactsOf(Flat(AggregateFrom(p, i, acc, conj, language).value))
      == FactsOf(Flat(acc)) + FactsOf(MessagesOf(p, p.children[i..]))
    decreases p, 1, |p.children| - i
  {
    if i < |p.children| {
      AggregateFromAt(p, i, acc, conj, language);
      hide AggregateFrom, Aggregate, Absorb;
      var c := p.children[i];
      assert p.children[i..][0] == c && p.children[i..][1..] == p.children[i + 1..];
      FactsOfConcat(Messages(c), MessagesOf(p, p.children[i + 1..]));
      if c.Node? {
        var a := Aggregate(c, conj, language).value;
        AggregateFacts(c, conj, language);
        FlatSnoc(acc, a);
        FactsOfConcat(Flat(acc), Messages(a));
        AggregateFromFacts(p, i + 1, acc + [a], conj, language);
      } else {
        AbsorbFacts(acc, c.message, conj, language);
        AggregateFromFacts(p, i + 1, Absorb(acc, c.message, conj, language).value, conj, language);
      }
    }
  }

  /** The nested nodes of a list of plans, in order. */
  function Subplans(cs: seq<Plan>): seq<Plan> {
    if cs == [] then []
    else Subplans(cs[..|cs| - 1]) + (if cs[|cs| - 1].Node? then [cs[|cs| - 1]] else [])
  }

  lemma SubplansSnoc(cs: seq<Plan>, x: Plan)
    ensures Subplans(cs + [x]) == Subplans(cs) + (if x.Node? then [x] else [])
  {
    assert (cs + [x])[..|cs|] == cs;
  }

  /** Each nested node in the result is the aggregation of the nested node at the same position. */
  predicate AggregatedAll(ins: seq<Plan>, outs: seq<Plan>, conj: Conjunctions, language: string) {
    |ins| == |outs| && forall k :: 0 <= k < |ins| ==> Aggregate(ins[k], conj, language) == Ok(outs[k])
  }

  /** Absorbing a message changes at most the last of the new children, and only a message. */
  lemma AbsorbShape(acc: seq<Plan>, cur: Message, conj: Conjunctions, language: string)
    requires Absorb(acc, cur, conj, language).Ok?
    ensures var r := Absorb(acc, cur, conj, language).value;
      Subplans(r) == Subplans(acc) && r != [] && |acc| <= |r| <= |acc| + 1
  {
    hide Absorb, Combine, Subplans;
    var r := Absorb(acc, cur, conj, language).value;
    AbsorbCases(acc, cur, conj, language);
    SubplansSnoc(acc, Leaf(cur));
    if r != acc + [Leaf(cur)] {
      var init := acc[..|acc| - 1];
      assert acc == init + [acc[|acc| - 1]] && r == init + [r[|r| - 1]];
      SubplansSnoc(init, acc[|acc| - 1]);
      SubplansSnoc(init, r[|r| - 1]);
    }
  }

  /** The sequence loop keeps the nested nodes in place, each aggregated, and never adds a child:
      the new children are at most as many as the old, and at least one when there was one. */
  lemma {:induction false} AggregateFromShape(p: Plan, i: nat, acc: seq<Plan>, conj: Conjunctions, language: string)
    requires p.Node? && i <= |p.children| && AggregateFrom(p, i, acc, conj, language).Ok?
    requires AggregatedAll(Subplans(p.children[..i]), Subplans(acc), conj, language)
    ensures var r := AggregateFrom(p, i, acc, conj, language).value;
      AggregatedAll(Subplans(p.children), Subplans(r), conj, language)
      && |r| <= |acc| + |p.children| - i
      && (acc != [] || i < |p.children| ==> r != [])
    decreases |p.children| - i
  {
    hide AggregateFrom, Aggregate, Absorb, Subplans, AggregatedAll;
    if i == |p.children| {
      AggregateFromEnd(p, acc, conj, language);
      assert p.children[..i] == p.children;
    } else {
      var next := AggregateFromNext(p, i, acc, conj, language);
      var c := p.children[i];
      assert p.children[..i + 1] == p.children[..i] + [c];
      SubplansSnoc(p.children[..i], c);
      if c.Node? {
        var a := Aggregate(c, conj, language).value;
        SubplansSnoc(acc, a);
        AggregateKeepsNode(c, conj, language);
        AggregatedAllSnoc(Subplans(p.children[..i]), Subplans(acc), c, a, conj, language);
      } else {
        AbsorbShape(acc, c.message, conj, language);
        assert Subplans(p.children[..i + 1]) == Subplans(p.children[..i]) + [] == Subplans(p.children[..i]);
      }
      AggregateFromShape(p, i + 1, next, conj, language);
    }
  }

  lemma AggregateKeepsNode(c: Plan, conj: Conjunctions, language: string)
    requires c.Node? && Aggregate(c, conj, language).Ok?
    ensures Aggregate(c, conj, language).value.Node?
  {
    hide AggregateFrom;
  }

  lemma AggregateFromEnd(p: Plan, acc: seq<Plan>, conj: Conjunctions, language: string)
    requires p.Node?
    ensures AggregateFrom(p, |p.children|, acc, conj, language) == Ok(acc)
  {
  }

  /** One successful round of the sequence loop: the child at `i` aggregated onto the new
      children, or absorbed into them. */
  lemma AggregateFromNext(p: Plan, i: nat, acc: seq<Plan>, conj: Conjunctions, language: string) returns (next: seq<Plan>)
    requires p.Node? && i < |p.children| && AggregateFrom(p, i, acc, conj, language).Ok?
    ensures var c := p.children[i];
      && (c.Node? ==> Aggregate(c, conj, language).Ok? && next == acc + [Aggregate(c, conj, language).value])
      && (c.Leaf? ==> Absorb(acc, c.message, conj, language).Ok? && next == Absorb(acc, c.message, conj, language).value)
      && AggregateFrom(p, i, acc, conj, language) == AggregateFrom(p, i + 1, next, conj, language)
  {
    AggregateFromAt(p, i, acc, conj, language);
    hide AggregateFrom, Aggregate, Absorb;
    var c := p.children[i];
    if c.Node? {
      next := acc + [Aggregate(c, conj, language).value];
    } else {
      next := Absorb(acc, c.message, conj, language).value;
    }
  }

  lemma AggregatedAllSnoc(ins: seq<Plan>, outs: seq<Plan>, x: Plan, y: Plan, conj: Conjunctions, language: string)
    requires AggregatedAll(ins, outs, conj, language) && Aggregate(x, conj, language) == Ok(y)
    ensures AggregatedAll(ins + [x], outs + [y], conj, language)
  {
    hide Aggregate;
  }

  /** A message is returned unchanged; aggregating a node keeps its relation, keeps every nested
      node at its place among the nested nodes, aggregated, and never adds children. Elaborations
      and lists raise NotImplementedError. */
  lemma AggregateMeaning(p: Plan, conj: Conjunctions, language: string)
    ensures var r := Aggregate(p, conj, language);
      (p.Leaf? ==> r == Ok(p))
      && (p.Node? && p.relation in {Elaboration, ListRelation} ==> r.Err? && r.error.NotImplemented?)
      && (p.Node? && r.Ok? ==>
            r.value.Node? && r.value.relation == p.relation
            && AggregatedAll(Subplans(p.children), Subplans(r.value.children), conj, language)
            && |r.value.children| <= |p.children|
            && (p.children != [] ==> r.value.children != []))
  {
    if p.Node? && Aggregate(p, conj, language).Ok? {
      assert p.children[..0] == [];
      AggregateFromShape(p, 0, [], conj, language);
    }
  }
}

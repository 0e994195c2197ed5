/** Fetching example messages for template authors (`example_message_fetcher.py`): every row of a
    dataset becomes messages, optionally only those a template matches are considered, and a small
    selection is picked that holds every value of the meta fields and every value type. */
module ExampleMessageFetcher {
  import opened Wrappers
  import opened Text
  import opened Models
  import opened MessageGenerator

  // ---------------------------------------------------------------- all messages of a dataset

  /** `_gen_messages` of the fetcher for one row: the generator's messages of the row, without its
      recency filter. */
  function RowExamples(row: Row, cols: seq<string>, id: nat, env: Env): (r: Result<seq<Message>>)
    ensures r.Ok? ==> NumberedFrom(r.value, id)
  {
    var stamp :- TimestampText(row.timestamp);
    ColumnMessages(row.cells, cols, RowFact(row, stamp, env), id)
  }

  /** One message per defined value column, in column order, each a single-fact message located at
      the row's entity tag with the column as value type and the cell as value. */
  lemma RowExamplesContent(row: Row, cols: seq<string>, id: nat, env: Env)
    requires RowExamples(row, cols, id, env).Ok?
    ensures var ms := RowExamples(row, cols, id, env).value;
      var defined := DefinedColumns(row.cells, cols);
      |ms| == |defined| &&
      forall k :: 0 <= k < |ms| ==>
        && ms[k].id == id + k
        && ms[k].facts == [ms[k].mainFact]
        && ms[k].mainFact.location == EntityTag(row.locationType, Show(row.location, env))
        && ms[k].mainFact.valueType == defined[k]
        && ms[k].mainFact.value == row.cells[defined[k]]
        && Defined(ms[k].mainFact.value)
  {
    var stamp := TimestampText(row.timestamp).value;
    ColumnMessagesContent(row.cells, cols, RowFact(row, stamp, env), id);
  }

  /** On a row the generator keeps, the fetcher's messages are the generator's. */
  lemma RowExamplesAgree(row: Row, cols: seq<string>, id: nat, now: int, env: Env)
    requires TimestampText(row.timestamp).Ok?
    requires RowRecent(row, TimestampText(row.timestamp).value, now) == Ok(true)
    ensures RowExamples(row, cols, id, env) == RowMessages(row, cols, id, now, env)
  {
  }

  /** `_gen_messages`: appends the messages of one row to `messages`, numbering them from `nextId`. */
  method GenMessages(row: Row, cols: seq<string>, messages: seq<Message>, nextId: nat, env: Env)
    returns (r: Result<seq<Message>>)
    ensures r == Prepend(messages, RowExamples(row, cols, nextId, env))
  {
    hide TimestampText, ColumnMessages, RowFact, Outlierness, MessageOfFact;
    var stamp := TimestampText(row.timestamp);
    if stamp.Err? {
      return Err(stamp.error);
    }
    var proto := RowFact(row, stamp.value, env);
    var out := messages;
    var id := nextId;
    assert cols[0..] == cols;
    for i := 0 to |cols|
      invariant Prepend(messages, ColumnMessages(row.cells, cols, proto, nextId))
        == Prepend(out, ColumnMessages(row.cells, cols[i..], proto, id))
    {
      ColumnStep(row.cells, cols, i, proto, id);
      var col := cols[i];
      if col !in row.cells {
        return Err(KeyError(col));
      }
      var value := row.cells[col];
      if Defined(value) {
        var m := MessageOfFact(id, proto.(value := value, valueType := col, outlierness := Outlierness(row.cells, col)));
        PrependTwice(out, [m], ColumnMessages(row.cells, cols[i + 1..], proto, id + 1));
        out := out + [m];
        id := id + 1;
      }
    }
    assert cols[|cols|..] == [];
    NoColumnMessages(row.cells, proto, id);
    assert out + [] == out;
    return Ok(out);
  }

  /** The messages of all rows, numbered on from `id`. */
  function FrameExamples(rows: seq<Row>, cols: seq<string>, id: nat, env: Env): (r: Result<seq<Message>>)
    ensures r.Ok? ==> NumberedFrom(r.value, id)
    decreases |rows|
  {
    if rows == [] then Ok([])
    else
      var first :- RowExamples(rows[0], cols, id, env);
      var rest :- FrameExamples(rows[1..], cols, id + |first|, env);
      NumberedAppend(first, rest, id);
      Ok(first + rest)
  }

  lemma NumberedAppend(a: seq<Message>, b: seq<Message>, id: nat)
    requires NumberedFrom(a, id) && NumberedFrom(b, id + |a|)
    ensures NumberedFrom(a + b, id)
  {
    assert forall k :: |a| <= k < |a + b| ==> (a + b)[k] == b[k - |a|];
  }

  /** No two messages of a dataset share an id. */
  lemma FrameExamplesDistinct(rows: seq<Row>, cols: seq<string>, env: Env, i: nat, j: nat)
    requires FrameExamples(rows, cols, 0, env).Ok?
    requires i < j < |FrameExamples(rows, cols, 0, env).value|
    ensures FrameExamples(rows, cols, 0, env).value[i].id != FrameExamples(rows, cols, 0, env).value[j].id
  {
  }

  /** `_generate_all_messages`: the value columns are those that are neither meta nor outlierness
      columns, and `apply` runs `_gen_messages` on every row in order. */
  method GenerateAllMessages(frame: Frame, env: Env) returns (r: Result<seq<Message>>)
    ensures r == FrameExamples(frame.rows, ValueColumns(frame.columns, []), 0, env)
  {
    hide RowExamples;
    var rows := frame.rows;
    var cols := ValueColumns(frame.columns, []);
    var out: seq<Message> := [];
    assert rows[0..] == rows;
    PrependNil(FrameExamples(rows, cols, 0, env));
    for i := 0 to |rows|
      invariant FrameExamples(rows, cols, 0, env) == Prepend(out, FrameExamples(rows[i..], cols, |out|, env))
    {
      ExamplesStep(rows, i, cols, |out|, env);
      var next := GenMessages(rows[i], cols, out, |out|, env);
      if next.Err? {
        return Err(next.error);
      }
      var first := RowExamples(rows[i], cols, |out|, env).value;
      PrependTwice(out, first, FrameExamples(rows[i + 1..], cols, |out| + |first|, env));
      out := next.value;
    }
    assert rows[|rows|..] == [];
    assert out + [] == out;
    return Ok(out);
  }

  /** One round of `FrameExamples` from row i. */
  lemma ExamplesStep(rows: seq<Row>, i: nat, cols: seq<string>, id: nat, env: Env)
    requires i < |rows|
    ensures var first := RowExamples(rows[i], cols, id, env);
      FrameExamples(rows[i..], cols, id, env) ==
        if first.Err? then Err(first.error)
        else Prepend(first.value, FrameExamples(rows[i + 1..], cols, id + |first.value|, env))
  {
    hide RowExamples;
    assert rows[i..][0] == rows[i] && rows[i..][1..] == rows[i + 1..];
  }

  // ---------------------------------------------------------------- the messages considered

  /** The messages a template matches (`check` with `fill_slots=False` against all messages returns
      a non-empty list); an error raised by `check` propagates. */
  function Matching(t: Template, ms: seq<Message>, all: seq<Message>, env: Env): (r: Result<seq<Message>>)
    ensures r.Ok? ==> forall m :: m in r.value <==>
      m in ms && CheckTemplate(t, m, all, false, env).Ok? && CheckTemplate(t, m, all, false, env).value.used != []
    ensures r.Err? ==> exists m :: m in ms && CheckTemplate(t, m, all, false, env).Err?
    decreases |ms|
  {
    if ms == [] then Ok([])
    else
      var c :- CheckTemplate(t, ms[0], all, false, env);
      var rest :- Matching(t, ms[1..], all, env);
      assert forall m :: m in ms <==> m == ms[0] || m in ms[1..];
      Ok(if c.used != [] then [ms[0]] + rest else rest)
  }

  /** The list comprehension filtering on the template. */
  method FilterMatching(t: Template, all: seq<Message>, env: Env) returns (r: Result<seq<Message>>)
    ensures r == Matching(t, all, all, env)
  {
    hide Matching, CheckTemplate;
    var kept: seq<Message> := [];
    assert all[0..] == all;
    PrependNil(Matching(t, all, all, env));
    for i := 0 to |all|
      invariant Matching(t, all, all, env) == Prepend(kept, Matching(t, all[i..], all, env))
    {
      MatchingStep(t, all, all, env, i);
      var c := CheckTemplate(t, all[i], all, false, env);
      if c.Err? {
        return Err(c.error);
      }
      if c.value.used != [] {
        PrependTwice(kept, [all[i]], Matching(t, all[i + 1..], all, env));
        kept := kept + [all[i]];
      } else {
        PrependTwice(kept, [], Matching(t, all[i + 1..], all, env));
        assert kept + [] == kept;
      }
    }
    assert all[|all|..] == [];
    MatchingNil(t, all, env);
    assert kept + [] == kept;
    return Ok(kept);
  }

  lemma MatchingNil(t: Template, all: seq<Message>, env: Env)
    ensures Matching(t, [], all, env) == Ok([])
  {
  }

  lemma MatchingStep(t: Template, ms: seq<Message>, all: seq<Message>, env: Env, i: nat)
    requires i < |ms|
    ensures var c := CheckTemplate(t, ms[i], all, false, env);
      Matching(t, ms[i..], all, env) ==
        if c.Err? then Err(c.error)
        else Prepend(if c.value.used != [] then [ms[i]] else [], Matching(t, ms[i + 1..], all, env))
  {
    assert ms[i..][0] == ms[i] && ms[i..][1..] == ms[i + 1..];
    var c := CheckTemplate(t, ms[i], all, false, env);
    var rest := Matching(t, ms[i + 1..], all, env);
    if c.Ok? && rest.Ok? && c.value.used == [] {
      assert [] + rest.value == rest.value;
    }
  }

  /** The messages the selection draws from: all of them, or those the template matches. */
  function Considered(template: Option<Template>, all: seq<Message>, env: Env): Result<seq<Message>> {
    if template.None? then Ok(all) else Matching(template.value, all, all, env)
  }

  // ---------------------------------------------------------------- covering selection

  /** `getattr(msg.main_fact, name)` for a meta field. */
  function MetaValue(m: Message, name: string): Value {
    var r := FieldOf(m.mainFact, name);
    if r.Ok? then r.value else VNone
  }

  /** Some selected message holds `v` in the field `name`. */
  predicate Covers(selected: seq<Message>, name: string, v: Value) {
    exists s :: s in selected && PyEq(MetaValue(s, name), v)
  }

  /** Some selected message has value type `vt`. */
  predicate CoversType(selected: seq<Message>, vt: string) {
    exists s :: s in selected && s.mainFact.valueType == vt
  }

  /** Every value of the field `name` among the messages (one that equals itself: not NaN) is held
      by a selected message. */
  predicate MetaCovered(selected: seq<Message>, messages: seq<Message>, name: string) {
    forall m :: m in messages && PyEq(MetaValue(m, name), MetaValue(m, name)) ==> Covers(selected, name, MetaValue(m, name))
  }

  /** Every selected message is one of the messages, and none is selected twice. */
  predicate DrawnDistinct(selected: seq<Message>, messages: seq<Message>) {
    (forall i :: 0 <= i < |selected| ==> selected[i] in messages) &&
    (forall i, j :: 0 <= i < j < |selected| ==> selected[i] != selected[j])
  }

  /** `next(msg for msg in messages if getattr(msg.main_fact, name) == v)`. */
  function FirstWith(ms: seq<Message>, name: string, v: Value): (r: Option<Message>)
    ensures r.Some? ==> r.value in ms && PyEq(MetaValue(r.value, name), v)
    ensures r.None? ==> forall m :: m in ms ==> !PyEq(MetaValue(m, name), v)
  {
    if ms == [] then None
    else if PyEq(MetaValue(ms[0], name), v) then Some(ms[0])
    else FirstWith(ms[1..], name, v)
  }

  /** `next(msg for msg in messages if msg.main_fact.value_type == vt)`. */
  function FirstOfType(ms: seq<Message>, vt: string): (r: Option<Message>)
    ensures r.Some? ==> r.value in ms && r.value.mainFact.valueType == vt
    ensures r.None? ==> forall m :: m in ms ==> m.mainFact.valueType != vt
  {
    if ms == [] then None
    else if ms[0].mainFact.valueType == vt then Some(ms[0])
    else FirstOfType(ms[1..], vt)
  }

  /** Appending a message not yet selected keeps the selection a distinct draw and keeps every
      coverage already reached. */
  lemma Extend(selected: seq<Message>, messages: seq<Message>, x: Message)
    requires DrawnDistinct(selected, messages) && x in messages && x !in selected
    ensures DrawnDistinct(selected + [x], messages)
    ensures forall name, v :: Covers(selected, name, v) ==> Covers(selected + [x], name, v)
    ensures forall vt :: CoversType(selected, vt) ==> CoversType(selected + [x], vt)
    ensures forall name :: MetaCovered(selected, messages, name) ==> MetaCovered(selected + [x], messages, name)
  {
    var s' := selected + [x];
    forall name, v | Covers(selected, name, v) ensures Covers(s', name, v) {
      var s :| s in selected && PyEq(MetaValue(s, name), v);
      assert s in s';
    }
    forall vt | CoversType(selected, vt) ensures CoversType(s', vt) {
      var s :| s in selected && s.mainFact.valueType == vt;
      assert s in s';
    }
  }

  /** One visit of the meta loop: the value `v` of the field is covered afterwards if it equals
      itself. */
  method OfferMeta(selected0: seq<Message>, messages: seq<Message>, name: string, v: Value)
    returns (selected: seq<Message>)
    requires DrawnDistinct(selected0, messages)
    ensures DrawnDistinct(selected, messages) && selected0 <= selected
    ensures PyEq(v, v) && (exists m :: m in messages && MetaValue(m, name) == v) ==> Covers(selected, name, v)
    ensures forall n, w :: Covers(selected0, n, w) ==> Covers(selected, n, w)
    ensures forall vt :: CoversType(selected0, vt) ==> CoversType(selected, vt)
    ensures forall n :: MetaCovered(selected0, messages, n) ==> MetaCovered(selected, messages, n)
  {
    selected := selected0;
    if exists s :: s in selected && PyEq(MetaValue(s, name), v) {
      return;
    }
    var found := FirstWith(messages, name, v);
    if found.Some? {
      Extend(selected, messages, found.value);
      selected := selected + [found.value];
      assert found.value in selected;
    }
  }

  /** One visit of the value-type loop. */
  method OfferType(selected0: seq<Message>, messages: seq<Message>, vt: string) returns (selected: seq<Message>)
    requires DrawnDistinct(selected0, messages)
    ensures DrawnDistinct(selected, messages) && selected0 <= selected
    ensures (exists m :: m in messages && m.mainFact.valueType == vt) ==> CoversType(selected, vt)
    ensures forall vt' :: CoversType(selected0, vt') ==> CoversType(selected, vt')
    ensures forall n :: MetaCovered(selected0, messages, n) ==> MetaCovered(selected, messages, n)
  {
    selected := selected0;
    if exists s :: s in selected && s.mainFact.valueType == vt {
      return;
    }
    var found := FirstOfType(messages, vt);
    if found.Some? {
      Extend(selected, messages, found.value);
      selected := selected + [found.value];
      assert found.value in selected;
    }
  }

  /** The loop over the values of one meta field. The distinct values are visited in the order
      the messages first hold them. */
  method CoverField(selected0: seq<Message>, messages: seq<Message>, name: string) returns (selected: seq<Message>)
    requires DrawnDistinct(selected0, messages)
    ensures DrawnDistinct(selected, messages) && MetaCovered(selected, messages, name)
    ensures forall n :: MetaCovered(selected0, messages, n) ==> MetaCovered(selected, messages, n)
  {
    selected := selected0;
    for i := 0 to |messages|
      invariant DrawnDistinct(selected, messages)
      invariant forall n :: MetaCovered(selected0, messages, n) ==> MetaCovered(selected, messages, n)
      invariant forall j :: 0 <= j < i && PyEq(MetaValue(messages[j], name), MetaValue(messages[j], name)) ==>
        Covers(selected, name, MetaValue(messages[j], name))
    {
      assert messages[i] in messages;
      selected := OfferMeta(selected, messages, name, MetaValue(messages[i], name));
    }
    forall m | m in messages && PyEq(MetaValue(m, name), MetaValue(m, name))
      ensures Covers(selected, name, MetaValue(m, name))
    {
      var j :| 0 <= j < |messages| && messages[j] == m;
    }
  }

  /** The selection loops of `fetch_example_messages`. */
  method SelectCovering(messages: seq<Message>, valueTypes: seq<string>) returns (selected: seq<Message>)
    ensures DrawnDistinct(selected, messages)
    ensures forall name :: name in MetaColumns ==> MetaCovered(selected, messages, name)
    ensures forall vt :: vt in valueTypes && (exists m :: m in messages && m.mainFact.valueType == vt) ==>
      CoversType(selected, vt)
  {
    selected := [];
    assert DrawnDistinct(selected, messages);
    selected := CoverMeta(selected, messages);
    selected := CoverTypes(selected, messages, valueTypes);
  }

  /** The first loop: every meta field in turn. */
  method CoverMeta(selected0: seq<Message>, messages: seq<Message>) returns (selected: seq<Message>)
    requires DrawnDistinct(selected0, messages)
    ensures DrawnDistinct(selected, messages)
    ensures forall name :: name in MetaColumns ==> MetaCovered(selected, messages, name)
  {
    hide MetaCovered, DrawnDistinct;
    selected := selected0;
    for n := 0 to |MetaColumns|
      invariant DrawnDistinct(selected, messages)
      invariant forall k :: 0 <= k < n ==> MetaCovered(selected, messages, MetaColumns[k])
    {
      selected := CoverField(selected, messages, MetaColumns[n]);
    }
  }

  /** The second loop: every value type in turn, keeping the meta fields covered. */
  method CoverTypes(selected0: seq<Message>, messages: seq<Message>, valueTypes: seq<string>) returns (selected: seq<Message>)
    requires DrawnDistinct(selected0, messages)
    requires forall name :: name in MetaColumns ==> MetaCovered(selected0, messages, name)
    ensures DrawnDistinct(selected, messages)
    ensures forall name :: name in MetaColumns ==> MetaCovered(selected, messages, name)
    ensures forall vt :: vt in valueTypes && (exists m :: m in messages && m.mainFact.valueType == vt) ==>
      CoversType(selected, vt)
  {
    hide MetaCovered, DrawnDistinct, CoversType;
    selected := selected0;
    for i := 0 to |valueTypes|
      invariant DrawnDistinct(selected, messages)
      invariant forall name :: name in MetaColumns ==> MetaCovered(selected, messages, name)
      invariant forall j :: 0 <= j < i && (exists m :: m in messages && m.mainFact.valueType == valueTypes[j]) ==>
        CoversType(selected, valueTypes[j])
    {
      selected := OfferType(selected, messages, valueTypes[i]);
    }
  }

  /** `fetch_example_messages` without shuffling: all messages of the dataset, those the template
      matches when one is given, and a selection of them covering every meta value and every value
      type. Errors while generating or checking propagate. */
  method FetchExampleMessages(frame: Frame, template: Option<Template>, env: Env) returns (r: Result<seq<Message>>)
    ensures var all := FrameExamples(frame.rows, ValueColumns(frame.columns, []), 0, env);
      (r.Ok? <==> all.Ok? && Considered(template, all.value, env).Ok?) &&
      (r.Ok? ==>
        var considered := Considered(template, all.value, env).value;
        && DrawnDistinct(r.value, considered)
        && (forall name :: name in MetaColumns ==> MetaCovered(r.value, considered, name))
        && (forall vt :: vt in ValueColumns(frame.columns, []) && (exists m :: m in considered && m.mainFact.valueType == vt) ==>
              CoversType(r.value, vt)))
  {
    var all := GenerateAllMessages(frame, env);
    if all.Err? {
      return Err(all.error);
    }
    var messages := all.value;
    if template.Some? {
      var matching := FilterMatching(template.value, messages, env);
      if matching.Err? {
        return Err(matching.error);
      }
      messages := matching.value;
    }
    var selected := SelectCovering(messages, ValueColumns(frame.columns, []));
    return Ok(selected);
  }

  // ---------------------------------------------------------------- a template as text

  /** The text of one component: a slot as its type in braces, a literal as its text; a space
      follows either. A resolved slot's source is a plain function, which has no `field_name`:
      AttributeError. */
  const NoFieldName := AttributeError("field_name")

  function ComponentText(c: Component): (r: Result<string>)
    ensures r.Err? ==> r.error == NoFieldName
  {
    if c.Literal? then Ok(c.text + " ")
    else if SlotType(c).None? then Err(NoFieldName)
    else Ok("{" + SlotType(c).value + "} ")
  }

  /** `template_as_string_approximation` on values. */
  function Approximation(cs: seq<Component>): (r: Result<string>)
    ensures r.Err? ==> r.error == NoFieldName
  {
    if cs == [] then Ok("")
    else
      var first :- ComponentText(cs[0]);
      var rest :- Approximation(cs[1..]);
      Ok(first + rest)
  }

  /** The text of a component list is the texts of its parts in order, and fails exactly when some
      slot has no type. */
  lemma {:induction false} ApproximationConcat(a: seq<Component>, b: seq<Component>)
    ensures Approximation(a + b).Ok? <==> Approximation(a).Ok? && Approximation(b).Ok?
    ensures Approximation(a + b).Ok? ==> Approximation(a + b).value == Approximation(a).value + Approximation(b).value
    decreases |a|
  {
    if a == [] {
      assert a + b == b;
    } else {
      assert (a + b)[0] == a[0] && (a + b)[1..] == a[1..] + b;
      ApproximationConcat(a[1..], b);
      if Approximation(a + b).Ok? {
        var f := ComponentText(a[0]).value;
        assert f + (Approximation(a[1..]).value + Approximation(b).value)
          == (f + Approximation(a[1..]).value) + Approximation(b).value;
      }
    }
  }

  lemma {:induction false} ApproximationOk(cs: seq<Component>)
    ensures Approximation(cs).Ok? <==> forall i :: 0 <= i < |cs| ==> !(cs[i].Slot? && cs[i].source.Resolved?)
    decreases |cs|
  {
    if cs != [] {
      ApproximationOk(cs[1..]);
      assert forall i :: 1 <= i < |cs| ==> cs[i] == cs[1..][i - 1];
    }
  }

  /** The loop of `template_as_string_approximation`. */
  method TemplateAsString(t: Template) returns (r: Result<string>)
    ensures r == Approximation(t.components)
  {
    var strn := "";
    var cs := t.components;
    for i := 0 to |cs|
      invariant Approximation(cs[..i]) == Ok(strn)
    {
      assert cs[..i + 1] == cs[..i] + [cs[i]];
      ApproximationConcat(cs[..i], [cs[i]]);
      assert Approximation([cs[i]]) == ComponentText(cs[i]) by {
        if ComponentText(cs[i]).Ok? {
          assert ComponentText(cs[i]).value + "" == ComponentText(cs[i]).value;
        }
      }
      var piece := ComponentText(cs[i]);
      if piece.Err? {
        assert cs == cs[..i + 1] + cs[i + 1..];
        ApproximationConcat(cs[..i + 1], cs[i + 1..]);
        return Err(piece.error);
      }
      strn := strn + piece.value;
    }
    assert cs[..|cs|] == cs;
    return Ok(strn);
  }
}

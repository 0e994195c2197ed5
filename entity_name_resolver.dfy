/** Entity name resolution (`core/entity_name_resolver.py`): an in-order walk over the plan that
    gives every entity slot a name type (full on the first mention of the entity, pronoun when it
    repeats the previous entity of its type, short otherwise) and then its name, with the tag
    format and resolvers of the EU generator. */
module EntityNameResolver {
  import opened Wrappers
  import opened Text
  import opened Models
  import opened NamedEntities

  /** The state threaded through the walk: the entities met so far, and the previous entity of each
      type (a missing type is Python's default None). */
  datatype State = State(encountered: set<string>, previous: map<string, string>)

  const Initial: State := State({}, map[])

  /** The resolver table, the language (without "-head") and `random.choice` as an index. */
  datatype Config = Config(realizers: Realizers, language: string, choose: seq<string> -> nat)

  /** The entity a component carries: its type and id, for a slot whose value is an entity tag. */
  function EntityOf(c: Component): (r: Option<(string, string)>)
    ensures r.Some? ==> c.Slot? && SlotValue(c).Ok? && SlotValue(c).value == VStr(EntityTag(r.value.0, r.value.1))
  {
    if c.Literal? then None
    else match SlotValue(c)
      case Err(_) => None
      case Ok(v) => if IsEntity(v) then Some(ParseEntity(v.s).value) else None
  }

  /** The name type the state gives an entity of a type. */
  function NameType(st: State, entityType: string, entity: string): string {
    if entityType in st.previous && st.previous[entityType] == entity then "pronoun"
    else if entity in st.encountered then "short"
    else "full"
  }

  /** The state after an entity: it has been met, and it is the previous entity of its type. */
  function Next(st: State, entityType: string, entity: string): State {
    State(st.encountered + {entity}, st.previous[entityType := entity])
  }

  /** `_recurse` on a slot. A slot that is no entity is left as it is, the state too. */
  function ResolveSlot(c: Component, st: State, cfg: Config): Result<(Component, State)>
    requires c.Slot?
  {
    var v :- SlotValue(c);
    if !IsEntity(v) then Ok((c, st))
    else
      var (entityType, entity) := ParseEntity(v.s).value;
      var named := c.(attributes := c.attributes["name_type" := VStr(NameType(st, entityType, entity))]);
      var resolved :- ResolveSurfaceForm(cfg.realizers, cfg.language, named, entity, entityType, cfg.choose);
      Ok((resolved.(attributes := resolved.attributes["entity_type" := VStr(entityType)]), Next(st, entityType, entity)))
  }

  /** The three-way choice and the state change for one entity slot: pronoun exactly when the
      entity repeats the previous one of its type, short when it was met before otherwise, full
      on a first meeting; the slot records its type; and whatever the choice, the entity has been
      met and is the previous one of its type afterwards. */
  lemma SlotRule(c: Component, st: State, cfg: Config)
    requires c.Slot? && EntityOf(c).Some?
    ensures var (t, id) := EntityOf(c).value;
      var r := ResolveSlot(c, st, cfg);
      r.Ok? ==>
        (r.value.1 == State(st.encountered + {id}, st.previous[t := id])
         && r.value.0.Slot? && r.value.0.fact == c.fact
         && r.value.0.attributes == c.attributes["name_type" := VStr(NameType(st, t, id))]["entity_type" := VStr(t)]
         && (NameType(st, t, id) == "pronoun" <==> (t in st.previous && st.previous[t] == id))
         && (NameType(st, t, id) == "short" <==> (!(t in st.previous && st.previous[t] == id) && id in st.encountered))
         && (NameType(st, t, id) == "full" <==> (!(t in st.previous && st.previous[t] == id) && id !in st.encountered)))
  {
    var v := SlotValue(c).value;
    assert IsEntity(v);
    var (t, id) := EntityOf(c).value;
    assert ParseEntity(v.s).value == (t, id);
  }

  /** A slot whose value is no entity tag stays as it is. */
  lemma NonEntityIdle(c: Component, st: State, cfg: Config)
    requires c.Slot? && SlotValue(c).Ok? && EntityOf(c).None?
    ensures ResolveSlot(c, st, cfg) == Ok((c, st))
  {
  }

  /** The first mention of an entity always gets the full name: the state only ever says "full"
      for an entity it has not met. */
  lemma NameTypeFull(st: State, t: string, id: string)
    ensures NameType(st, t, id) == "full" <==> (id !in st.encountered && !(t in st.previous && st.previous[t] == id))
  {
  }

  // ---------------------------------------------------------------- a message's components

  /** One child of a message: a literal is skipped. */
  function Visit(c: Component, st: State, cfg: Config): Result<(Component, State)> {
    if c.Literal? then Ok((c, st)) else ResolveSlot(c, st, cfg)
  }

  /** The loop over a message's children (its template's components); literals are skipped. */
  function ResolveComponents(cs: seq<Component>, st: State, cfg: Config): Result<(seq<Component>, State)> {
    if cs == [] then Ok(([], st))
    else
      var h :- Visit(cs[0], st, cfg);
      var t :- ResolveComponents(cs[1..], h.1, cfg);
      Ok(([h.0] + t.0, t.1))
  }

  /** The ids of the entities among the components. */
  function EntityIds(cs: seq<Component>): set<string> {
    if cs == [] then {} else (if EntityOf(cs[0]).Some? then {EntityOf(cs[0]).value.1} else {}) + EntityIds(cs[1..])
  }

  lemma {:induction false} EntityIdsConcat(a: seq<Component>, b: seq<Component>)
    ensures EntityIds(a + b) == EntityIds(a) + EntityIds(b)
  {
    if a == [] {
      assert a + b == b;
    } else {
      assert (a + b)[0] == a[0] && (a + b)[1..] == a[1..] + b;
      EntityIdsConcat(a[1..], b);
    }
  }

  function ComponentThen(done: seq<Component>, rest: Result<(seq<Component>, State)>): Result<(seq<Component>, State)> {
    if rest.Err? then Err(rest.error) else Ok((done + rest.value.0, rest.value.1))
  }

  lemma {:induction false} ResolveComponentsConcat(a: seq<Component>, b: seq<Component>, st: State, cfg: Config)
    ensures ResolveComponents(a + b, st, cfg) ==
      match ResolveComponents(a, st, cfg)
      case Err(e) => Err(e)
      case Ok(x) => ComponentThen(x.0, ResolveComponents(b, x.1, cfg))
  {
    if a == [] {
      assert a + b == b;
      var rb := ResolveComponents(b, st, cfg);
      assert rb.Ok? ==> [] + rb.value.0 == rb.value.0;
    } else {
      assert (a + b)[0] == a[0] && (a + b)[1..] == a[1..] + b;
      var h := Visit(a[0], st, cfg);
      if h.Ok? {
        ResolveComponentsConcat(a[1..], b, h.value.1, cfg);
        var ra := ResolveComponents(a[1..], h.value.1, cfg);
        if ra.Ok? {
          var rb := ResolveComponents(b, ra.value.1, cfg);
          assert rb.Ok? ==> [h.value.0] + (ra.value.0 + rb.value.0) == ([h.value.0] + ra.value.0) + rb.value.0;
        }
      }
    }
  }

  /** One child: a literal stays, and the entity of an entity slot is added to those met. */
  lemma VisitMeets(c: Component, st: State, cfg: Config)
    ensures var h := Visit(c, st, cfg);
      h.Ok? ==> ((c.Literal? ==> h.value.0 == c) && h.value.1.encountered == st.encountered + EntityIds([c]))
  {
    assert [c][1..] == [];
    var h := Visit(c, st, cfg);
    if h.Ok? && c.Slot? {
      if EntityOf(c).Some? {
        SlotRule(c, st, cfg);
      } else {
        assert SlotValue(c).Ok?;
      }
    }
  }

  lemma ComponentsAt(cs: seq<Component>, st: State, cfg: Config)
    requires cs != []
    ensures var r := ResolveComponents(cs, st, cfg);
      var h := Visit(cs[0], st, cfg);
      r.Ok? ==> (h.Ok? && ResolveComponents(cs[1..], h.value.1, cfg).Ok?
                 && r.value.0 == [h.value.0] + ResolveComponents(cs[1..], h.value.1, cfg).value.0
                 && r.value.1 == ResolveComponents(cs[1..], h.value.1, cfg).value.1)
  {
  }

  /** The components keep their number and their literals, and afterwards every entity among them
      has been met, and no other. */
  lemma ComponentsState(cs: seq<Component>, st: State, cfg: Config)
    ensures var r := ResolveComponents(cs, st, cfg);
      r.Ok? ==> (|r.value.0| == |cs| && r.value.1.encountered == st.encountered + EntityIds(cs)
                 && forall i :: 0 <= i < |cs| && cs[i].Literal? ==> r.value.0[i] == cs[i])
  {
    ComponentsMeet(cs, st, cfg);
    ComponentsKeepLiterals(cs, st, cfg);
  }

  lemma {:induction false} ComponentsMeet(cs: seq<Component>, st: State, cfg: Config)
    ensures var r := ResolveComponents(cs, st, cfg);
      r.Ok? ==> r.value.1.encountered == st.encountered + EntityIds(cs)
  {
    var r := ResolveComponents(cs, st, cfg);
    if cs != [] && r.Ok? {
      hide ResolveComponents, Visit, EntityOf, ResolveSlot;
      ComponentsAt(cs, st, cfg);
      VisitMeets(cs[0], st, cfg);
      var h := Visit(cs[0], st, cfg).value;
      ComponentsMeet(cs[1..], h.1, cfg);
      EntityIdsConcat([cs[0]], cs[1..]);
      assert [cs[0]] + cs[1..] == cs;
    }
  }

  lemma {:induction false} ComponentsLength(cs: seq<Component>, st: State, cfg: Config)
    ensures var r := ResolveComponents(cs, st, cfg);
      r.Ok? ==> |r.value.0| == |cs|
  {
    if cs != [] {
      var h := Visit(cs[0], st, cfg);
      if h.Ok? {
        ComponentsLength(cs[1..], h.value.1, cfg);
      }
    }
  }

  lemma {:induction false} ComponentsKeepLiterals(cs: seq<Component>, st: State, cfg: Config)
    ensures var r := ResolveComponents(cs, st, cfg);
      r.Ok? ==> (|r.value.0| == |cs| && forall i :: 0 <= i < |cs| && cs[i].Literal? ==> r.value.0[i] == cs[i])
  {
    var r := ResolveComponents(cs, st, cfg);
    if cs != [] && r.Ok? {
      hide ResolveComponents, Visit, EntityIds, EntityOf, ResolveSlot;
      ComponentsAt(cs, st, cfg);
      VisitMeets(cs[0], st, cfg);
      var h := Visit(cs[0], st, cfg).value;
      var rest := ResolveComponents(cs[1..], h.1, cfg).value.0;
      var out := r.value.0;
      ComponentsKeepLiterals(cs[1..], h.1, cfg);
      LiteralsStep(out, rest, h.0, cs);
    }
  }

  lemma LiteralsStep(out: seq<Component>, rest: seq<Component>, h: Component, cs: seq<Component>)
    requires cs != [] && out == [h] + rest && |rest| == |cs| - 1 && (cs[0].Literal? ==> h == cs[0])
    requires forall i :: 0 <= i < |cs| - 1 && cs[1..][i].Literal? ==> rest[i] == cs[1..][i]
    ensures |out| == |cs| && forall i :: 0 <= i < |cs| && cs[i].Literal? ==> out[i] == cs[i]
  {
    forall i | 1 <= i < |cs| && cs[i].Literal?
      ensures out[i] == cs[i]
    {
      assert out[i] == rest[i - 1] && cs[i] == cs[1..][i - 1];
    }
  }

  /** Every previous entity has been met. */
  predicate Coherent(st: State) {
    forall t :: t in st.previous ==> st.previous[t] in st.encountered
  }

  /** One child keeps the state coherent, adds its entity to those met, and an entity child is
      named "full" exactly when it was not met before. */
  lemma VisitState(c: Component, st: State, cfg: Config)
    requires Coherent(st)
    ensures var h := Visit(c, st, cfg);
      h.Ok? ==> (Coherent(h.value.1) && h.value.1.encountered == st.encountered + EntityIds([c])
                 && (EntityOf(c).Some? ==>
                       (h.value.0.Slot? && "name_type" in h.value.0.attributes
                        && (h.value.0.attributes["name_type"] == VStr("full") <==> EntityOf(c).value.1 !in st.encountered))))
  {
    var h := Visit(c, st, cfg);
    VisitMeets(c, st, cfg);
    if h.Ok? && EntityOf(c).Some? {
      SlotRule(c, st, cfg);
      var (t, id) := EntityOf(c).value;
      assert VStr(NameType(st, t, id)) == VStr("full") <==> NameType(st, t, id) == "full";
    }
  }

  /** Full names exactly at first mentions: an entity slot gets "full" if and only if its entity
      is neither met before the components nor among the entities before it. */
  lemma {:induction false} FirstMentionFull(cs: seq<Component>, st: State, cfg: Config, i: nat)
    requires i < |cs| && EntityOf(cs[i]).Some? && Coherent(st)
    ensures var r := ResolveComponents(cs, st, cfg);
      var id := EntityOf(cs[i]).value.1;
      r.Ok? ==> (|r.value.0| == |cs| && r.value.0[i].Slot? && "name_type" in r.value.0[i].attributes
                 && (r.value.0[i].attributes["name_type"] == VStr("full") <==> id !in st.encountered + EntityIds(cs[..i])))
  {
    hide ResolveComponents, Visit, EntityOf, EntityIds, ResolveSlot;
    if i == 0 {
      FirstMentionHead(cs, st, cfg);
    } else {
      var r := ResolveComponents(cs, st, cfg);
      if r.Ok? {
        ComponentsAt(cs, st, cfg);
        VisitState(cs[0], st, cfg);
        var st1 := Visit(cs[0], st, cfg).value.1;
        assert cs[1..][i - 1] == cs[i] && cs[1..][..i - 1] == cs[1..i];
        FirstMentionFull(cs[1..], st1, cfg, i - 1);
        assert cs[..i] == [cs[0]] + cs[1..i];
        EntityIdsConcat([cs[0]], cs[1..i]);
        FirstMentionStep(r.value.0, ResolveComponents(cs[1..], st1, cfg).value.0, Visit(cs[0], st, cfg).value.0, i,
                         EntityOf(cs[i]).value.1, st.encountered, st1.encountered, EntityIds([cs[0]]), EntityIds(cs[1..i]));
      }
    }
  }

  lemma FirstMentionStep(out: seq<Component>, rest: seq<Component>, h: Component, i: nat, id: string,
                         enc: set<string>, enc1: set<string>, first: set<string>, between: set<string>)
    requires 0 < i && out == [h] + rest && i - 1 < |rest|
    requires rest[i - 1].Slot? && "name_type" in rest[i - 1].attributes
    requires rest[i - 1].attributes["name_type"] == VStr("full") <==> id !in enc1 + between
    requires enc1 == enc + first
    ensures out[i].Slot? && "name_type" in out[i].attributes
    ensures out[i].attributes["name_type"] == VStr("full") <==> id !in enc + (first + between)
  {
    assert out[i] == rest[i - 1];
  }

  lemma FirstMentionHead(cs: seq<Component>, st: State, cfg: Config)
    requires cs != [] && EntityOf(cs[0]).Some? && Coherent(st)
    ensures var r := ResolveComponents(cs, st, cfg);
      var id := EntityOf(cs[0]).value.1;
      r.Ok? ==> (|r.value.0| == |cs| && r.value.0[0].Slot? && "name_type" in r.value.0[0].attributes
                 && (r.value.0[0].attributes["name_type"] == VStr("full") <==> id !in st.encountered + EntityIds(cs[..0])))
  {
    var r := ResolveComponents(cs, st, cfg);
    assert cs[..0] == [] && EntityIds([]) == {};
    hide ResolveComponents, Visit, EntityOf, EntityIds, ResolveSlot;
    if r.Ok? {
      ComponentsAt(cs, st, cfg);
      ComponentsLength(cs, st, cfg);
      VisitState(cs[0], st, cfg);
    }
  }

  /** The loop over a message's components as the source runs it, one slot at a time. */
  method ResolveTemplate(cs: seq<Component>, st0: State, cfg: Config) returns (r: Result<(seq<Component>, State)>)
    ensures r == ResolveComponents(cs, st0, cfg)
  {
    var out: seq<Component> := [];
    var st := st0;
    var i := 0;
    assert cs[0..] == cs;
    ghost var all := ResolveComponents(cs, st0, cfg);
    assert all.Ok? ==> [] + all.value.0 == all.value.0;
    while i < |cs|
      invariant i <= |cs|
      invariant ResolveComponents(cs, st0, cfg) == ComponentThen(out, ResolveComponents(cs[i..], st, cfg))
      decreases |cs| - i
    {
      assert cs[i..][0] == cs[i] && cs[i..][1..] == cs[i + 1..];
      var h := Visit(cs[i], st, cfg);
      if h.Err? {
        return Err(h.error);
      }
      ghost var rest := ResolveComponents(cs[i + 1..], h.value.1, cfg);
      assert rest.Ok? ==> out + ([h.value.0] + rest.value.0) == (out + [h.value.0]) + rest.value.0;
      out := out + [h.value.0];
      st := h.value.1;
      i := i + 1;
    }
    assert cs[i..] == [] && out + [] == out;
    r := Ok((out, st));
  }

  // ---------------------------------------------------------------- the plan

  function WithChildren(m: Message, cs: seq<Component>): Message
    requires m.template.Some?
  {
    m.(template := Some(m.template.value.(components := cs)))
  }

  /** `_recurse` on a plan node: the children in order, threading the state. */
  function ResolvePlan(p: Plan, st: State, cfg: Config): Result<(Plan, State)>
    decreases p, 2
  {
    match p
    case Leaf(m) =>
      if m.template.None? then Ok((p, st))
      else
        var o :- ResolveComponents(m.template.value.components, st, cfg);
        Ok((Leaf(WithChildren(m, o.0)), o.1))
    case Node(_, rel) =>
      var o :- ResolveFrom(p, 0, st, cfg);
      Ok((Node(o.0, rel), o.1))
  }

  function ResolveFrom(p: Plan, i: nat, st: State, cfg: Config): Result<(seq<Plan>, State)>
    requires p.Node? && i <= |p.children|
    decreases p, 1, |p.children| - i
  {
    if i == |p.children| then Ok(([], st))
    else
      var c :- ResolvePlan(p.children[i], st, cfg);
      var rest :- ResolveFrom(p, i + 1, c.1, cfg);
      Ok(([c.0] + rest.0, rest.1))
  }

  method Recurse(p: Plan, st: State, cfg: Config) returns (r: Result<(Plan, State)>)
    ensures r == ResolvePlan(p, st, cfg)
    decreases p, 2
  {
    if p.Leaf? {
      if p.message.template.None? {
        return Ok((p, st));
      }
      var o := ResolveTemplate(p.message.template.value.components, st, cfg);
      if o.Err? {
        return Err(o.error);
      }
      return Ok((Leaf(WithChildren(p.message, o.value.0)), o.value.1));
    }
    var o := RecurseChildren(p, st, cfg);
    r := if o.Err? then Err(o.error) else Ok((Node(o.value.0, p.relation), o.value.1));
  }

  function ChildrenThen(done: seq<Plan>, rest: Result<(seq<Plan>, State)>): Result<(seq<Plan>, State)> {
    if rest.Err? then Err(rest.error) else Ok((done + rest.value.0, rest.value.1))
  }

  method RecurseChildren(p: Plan, st0: State, cfg: Config) returns (r: Result<(seq<Plan>, State)>)
    requires p.Node?
    ensures r == ResolveFrom(p, 0, st0, cfg)
    decreases p, 1
  {
    var done: seq<Plan> := [];
    var st := st0;
    var i := 0;
    ghost var all := ResolveFrom(p, 0, st0, cfg);
    assert all.Ok? ==> [] + all.value.0 == all.value.0;
    while i < |p.children|
      invariant i <= |p.children|
      invariant ResolveFrom(p, 0, st0, cfg) == ChildrenThen(done, ResolveFrom(p, i, st, cfg))
      decreases |p.children| - i
    {
      var c := Recurse(p.children[i], st, cfg);
      if c.Err? {
        return Err(c.error);
      }
      ghost var rest := ResolveFrom(p, i + 1, c.value.1, cfg);
      assert rest.Ok? ==> done + ([c.value.0] + rest.value.0) == (done + [c.value.0]) + rest.value.0;
      done := done + [c.value.0];
      st := c.value.1;
      i := i + 1;
    }
    assert done + [] == done;
    r := Ok((done, st));
  }

  /** `EntityNameResolver.run` with the EU resolver: "-head" is removed from the language and the
      walk starts from an empty state. */
  function ResolveDocument(realizers: Realizers, language: string, choose: seq<string> -> nat, p: Plan): Result<Plan> {
    var o :- ResolvePlan(p, Initial, Config(realizers, StripHead(language), choose));
    Ok(o.0)
  }

  method Run(realizers: Realizers, language: string, choose: seq<string> -> nat, p: Plan) returns (r: Result<Plan>)
    ensures r == ResolveDocument(realizers, language, choose, p)
  {
    var lang := language;
    if EndsWith(lang, "-head") {
      lang := lang[..|lang| - 5];
    }
    var o := Recurse(p, Initial, Config(realizers, lang, choose));
    r := if o.Err? then Err(o.error) else Ok(o.value.0);
  }

  // ---------------------------------------------------------------- document order

  /** All the components of the messages, one message after another. */
  function AllChildren(ms: seq<Message>): seq<Component> {
    if ms == [] then [] else ChildrenOf(ms[0]) + AllChildren(ms[1..])
  }

  lemma {:induction false} AllChildrenConcat(a: seq<Message>, b: seq<Message>)
    ensures AllChildren(a + b) == AllChildren(a) + AllChildren(b)
  {
    if a == [] {
      assert a + b == b;
    } else {
      assert (a + b)[0] == a[0] && (a + b)[1..] == a[1..] + b;
      AllChildrenConcat(a[1..], b);
    }
  }

  lemma LeafChildren(m: Message)
    ensures Messages(Leaf(m)) == [m] && AllChildren([m]) == ChildrenOf(m)
  {
    assert [m][1..] == [];
    assert AllChildren([m]) == ChildrenOf(m) + [];
  }

  /** The walk over a plan is the walk over the components of its messages in document order: it
      fails exactly when that one does, with the same error, and otherwise ends in the same state
      with the same components. */
  lemma {:induction false} DocumentOrder(p: Plan, st: State, cfg: Config)
    ensures var a := ResolvePlan(p, st, cfg);
      var b := ResolveComponents(AllChildren(Messages(p)), st, cfg);
      (a.Ok? <==> b.Ok?) && (a.Err? ==> a.error == b.error)
      && (a.Ok? ==> AllChildren(Messages(a.value.0)) == b.value.0 && a.value.1 == b.value.1)
    decreases p, 2
  {
    match p
    case Leaf(m) =>
      LeafChildren(m);
      var a := ResolvePlan(p, st, cfg);
      if a.Ok? {
        LeafChildren(a.value.0.message);
      }
    case Node(cs, rel) =>
      assert cs[0..] == cs;
      DocumentOrderFrom(p, 0, st, cfg);
      var a := ResolvePlan(p, st, cfg);
      if a.Ok? {
        var out := ResolveFrom(p, 0, st, cfg).value.0;
        MessagesOfWhole(Node(out, rel), Node(out, Sequence), out);
      }
  }

  lemma {:induction false} DocumentOrderFrom(p: Plan, i: nat, st: State, cfg: Config)
    requires p.Node? && i <= |p.children|
    ensures var a := ResolveFrom(p, i, st, cfg);
      var b := ResolveComponents(AllChildren(MessagesOf(p, p.children[i..])), st, cfg);
      (a.Ok? <==> b.Ok?) && (a.Err? ==> a.error == b.error)
      && (a.Ok? ==> AllChildren(Flat(a.value.0)) == b.value.0 && a.value.1 == b.value.1)
    decreases p, 1, |p.children| - i
  {
    if i < |p.children| {
      var c := p.children[i];
      var restMs := MessagesOf(p, p.children[i + 1..]);
      assert p.children[i..][0] == c && p.children[i..][1..] == p.children[i + 1..];
      assert MessagesOf(p, p.children[i..]) == Messages(c) + restMs;
      AllChildrenConcat(Messages(c), restMs);
      ResolveComponentsConcat(AllChildren(Messages(c)), AllChildren(restMs), st, cfg);
      DocumentOrder(c, st, cfg);
      var h := ResolvePlan(c, st, cfg);
      if h.Ok? {
        DocumentOrderFrom(p, i + 1, h.value.1, cfg);
        var rest := ResolveFrom(p, i + 1, h.value.1, cfg);
        if rest.Ok? {
          FlatCons(h.value.0, rest.value.0);
          AllChildrenConcat(Messages(h.value.0), Flat(rest.value.0));
        }
      }
    } else {
      assert Flat([]) == [];
      assert AllChildren([]) == [];
    }
  }

  /** Over a whole document: the i-th component of the messages, taken in document order, gets
      the full name if and only if no entity component before it names the same entity. */
  lemma DocumentFirstMention(realizers: Realizers, language: string, choose: seq<string> -> nat, p: Plan, i: nat)
    requires var cs := AllChildren(Messages(p)); i < |cs| && EntityOf(cs[i]).Some?
    ensures var cs := AllChildren(Messages(p));
      var r := ResolveDocument(realizers, language, choose, p);
      r.Ok? ==> (var out := AllChildren(Messages(r.value));
                 |out| == |cs| && out[i].Slot? && "name_type" in out[i].attributes
                 && (out[i].attributes["name_type"] == VStr("full") <==> EntityOf(cs[i]).value.1 !in EntityIds(cs[..i])))
  {
    var cfg := Config(realizers, StripHead(language), choose);
    DocumentOrder(p, Initial, cfg);
    FirstMentionFull(AllChildren(Messages(p)), Initial, cfg, i);
    assert Initial.encountered + EntityIds(AllChildren(Messages(p))[..i]) == EntityIds(AllChildren(Messages(p))[..i]);
  }
}

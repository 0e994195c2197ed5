/** The template attacher (`template_attacher.py`): every core message and then every expanded
    message gets a template, its slots realised and its entities named, each message alone in a
    one-message document plan. Messages are values here, so each stage returns the updated plan and
    the attacher writes the message of that plan back into its list. */
module TemplateAttacher {
  import opened Wrappers
  import opened Models
  import TemplateSelector
  import RealizeSlots
  import EntityNameResolver
  import NamedEntities
  import opened MessageGenerator

  /** The three stages run on each plan: template selection against a list of messages, slot
      realisation and entity name resolution. */
  datatype Stages = Stages(select: (seq<Message>, Plan) -> Result<Plan>, realize: Plan -> Result<Plan>,
                           resolve: Plan -> Result<Plan>)

  /** The stages the attacher builds: a template selector, a slot realizer and the EU entity name
      resolver, with everything they depend on given. */
  function EuStages(templatesByLanguage: map<string, seq<Template>>, language: string, env: Env,
                    pick: seq<Template> -> nat, registered: seq<RealizeSlots.Realizer>, eng: RealizeSlots.Engine,
                    fuel: nat, realizers: NamedEntities.Realizers, choose: seq<string> -> nat): Stages
  {
    Stages((all, p) => TemplateSelector.Run(templatesByLanguage, language, all, env, pick, p),
           p => RealizeSlots.RunSpec(registered, language, p, eng, fuel),
           p => EntityNameResolver.ResolveDocument(realizers, language, choose, p))
  }

  /** A fresh plan holding just `m`, with the default relation. */
  function SinglePlan(m: Message): Plan {
    Node([Leaf(m)], Sequence)
  }

  /** The message a one-message plan holds after the stages; the stages of the source update the
      message in place and never change the plan's shape, so any other plan leaves `m` as it was. */
  function MessageOf(p: Plan, m: Message): Message {
    if p.Node? && |p.children| == 1 && p.children[0].Leaf? then p.children[0].message else m
  }

  /** One message through the three stages, its templates checked against `core`. */
  function Process(st: Stages, core: seq<Message>, m: Message): Result<Message> {
    var p1 :- st.select(core, SinglePlan(m));
    var p2 :- st.realize(p1);
    var p3 :- st.resolve(p2);
    Ok(MessageOf(p3, m))
  }

  /** The core messages from position i on, each processed against the core list as updated so
      far. */
  function AttachCore(st: Stages, core: seq<Message>, i: nat): (r: Result<seq<Message>>)
    requires i <= |core|
    ensures r.Ok? ==> |r.value| == |core| && r.value[..i] == core[..i]
    decreases |core| - i
  {
    if i == |core| then Ok(core)
    else
      var m :- Process(st, core, core[i]);
      var r :- AttachCore(st, core[i := m], i + 1);
      assert r[..i] == r[..i + 1][..i];
      Ok(r)
  }

  /** The expanded messages, each processed against the final core list. */
  function AttachExpanded(st: Stages, core: seq<Message>, ms: seq<Message>): (r: Result<seq<Message>>)
    ensures r.Ok? ==> |r.value| == |ms|
  {
    if ms == [] then Ok([])
    else
      var m :- Process(st, core, ms[0]);
      var rest :- AttachExpanded(st, core, ms[1..]);
      Ok([m] + rest)
  }

  /** `TemplateAttacher.run` on values. */
  function Attach(st: Stages, core: seq<Message>, expanded: seq<Message>): Result<(seq<Message>, seq<Message>)> {
    var c :- AttachCore(st, core, 0);
    var e :- AttachExpanded(st, c, expanded);
    Ok((c, e))
  }

  /** Message k of the core list is processed against the core list in which messages before k are
      the processed ones and messages from k on the original ones. */
  lemma {:induction false} AttachCoreMeaning(st: Stages, core: seq<Message>, i: nat)
    requires i <= |core| && AttachCore(st, core, i).Ok?
    ensures var r := AttachCore(st, core, i).value;
      forall k :: i <= k < |core| ==> Process(st, r[..k] + core[k..], core[k]) == Ok(r[k])
    decreases |core| - i
  {
    if i < |core| {
      var m := Process(st, core, core[i]).value;
      var next := core[i := m];
      AttachCoreMeaning(st, next, i + 1);
      var r := AttachCore(st, core, i).value;
      assert r == AttachCore(st, next, i + 1).value;
      assert r[..i] + core[i..] == core by {
        assert r[..i] == core[..i];
      }
      assert r[i] == m by {
        assert r[..i + 1] == next[..i + 1];
        assert r[i] == r[..i + 1][i];
      }
      forall k | i + 1 <= k < |core| ensures Process(st, r[..k] + core[k..], core[k]) == Ok(r[k]) {
        assert next[k..] == core[k..] && next[k] == core[k];
      }
    }
  }

  /** Every expanded message is processed against the same, final, core list. */
  lemma {:induction false} AttachExpandedMeaning(st: Stages, core: seq<Message>, ms: seq<Message>)
    requires AttachExpanded(st, core, ms).Ok?
    ensures forall k :: 0 <= k < |ms| ==> Process(st, core, ms[k]) == Ok(AttachExpanded(st, core, ms).value[k])
    decreases |ms|
  {
    if ms != [] {
      AttachExpandedMeaning(st, core, ms[1..]);
      var r := AttachExpanded(st, core, ms).value;
      assert forall k :: 1 <= k < |ms| ==> ms[k] == ms[1..][k - 1] && r[k] == AttachExpanded(st, core, ms[1..]).value[k - 1];
    }
  }

  /** Stages that keep a message's id (as the template selector does) leave the order of both
      lists unchanged. */
  lemma KeepsOrder(st: Stages, core: seq<Message>, expanded: seq<Message>)
    requires Attach(st, core, expanded).Ok?
    requires forall all: seq<Message>, m: Message :: Process(st, all, m).Ok? ==> Process(st, all, m).value.id == m.id
    ensures var (c, e) := Attach(st, core, expanded).value;
      |c| == |core| && |e| == |expanded|
      && (forall k :: 0 <= k < |core| ==> c[k].id == core[k].id)
      && (forall k :: 0 <= k < |expanded| ==> e[k].id == expanded[k].id)
  {
    AttachCoreMeaning(st, core, 0);
    var c := AttachCore(st, core, 0).value;
    AttachExpandedMeaning(st, c, expanded);
    forall k | 0 <= k < |core| ensures c[k].id == core[k].id {
      assert Process(st, c[..k] + core[k..], core[k]) == Ok(c[k]);
    }
    forall k | 0 <= k < |expanded| ensures AttachExpanded(st, c, expanded).value[k].id == expanded[k].id {
      assert Process(st, c, expanded[k]) == Ok(AttachExpanded(st, c, expanded).value[k]);
    }
  }

  /** `TemplateAttacher.run`: the loop over the core messages and then the expanded ones. */
  method Run(st: Stages, core0: seq<Message>, expanded0: seq<Message>) returns (r: Result<(seq<Message>, seq<Message>)>)
    ensures r == Attach(st, core0, expanded0)
  {
    hide Process;
    var core := core0;
    for i := 0 to |core0|
      invariant |core| == |core0|
      invariant AttachCore(st, core0, 0) == AttachCore(st, core, i)
    {
      var m := Process(st, core, core[i]);
      if m.Err? {
        return Err(m.error);
      }
      core := core[i := m.value];
    }
    var expanded: seq<Message> := [];
    assert expanded0[0..] == expanded0;
    PrependNil(AttachExpanded(st, core, expanded0));
    for i := 0 to |expanded0|
      invariant AttachExpanded(st, core, expanded0) == Prepend(expanded, AttachExpanded(st, core, expanded0[i..]))
    {
      assert expanded0[i..][0] == expanded0[i] && expanded0[i..][1..] == expanded0[i + 1..];
      var m := Process(st, core, expanded0[i]);
      if m.Err? {
        return Err(m.error);
      }
      PrependTwice(expanded, [m.value], AttachExpanded(st, core, expanded0[i + 1..]));
      expanded := expanded + [m.value];
    }
    assert expanded0[|expanded0|..] == [];
    assert expanded + [] == expanded;
    return Ok((core, expanded));
  }
}

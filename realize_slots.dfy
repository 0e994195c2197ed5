/** Slot realisation (`core/realize_slots.py`): every slot of every message is offered to the
    registered slot realizers, then to a number realizer; the first that supports the language
    and succeeds replaces the slot by its components. Passes over the whole plan repeat until one
    changes nothing. */
module RealizeSlots {
  import opened Wrappers
  import opened Text
  import opened Models

  /** What the realizers take from the Python runtime: anchored regular-expression matching (the
      groups, or None), `float()` on a string, the value the rounding loop settles on for a
      non-integral number (None when every rounding is zero), `str.format`, and `random.choice`
      as an index. */
  datatype Engine = Engine(
    fullMatch: (string, string) -> Option<seq<string>>,
    parseFloat: string -> Option<real>,
    rounded: real -> Option<real>,
    format: (string, seq<string>) -> string,
    choose: seq<string> -> nat)

  /** The slot realizer components. */
  datatype Realizer =
    | NumberRealizer
    | RegexRealizer(languages: seq<string>, regex: string, templates: seq<string>,
                    groupRequirements: Option<seq<string> -> bool>, slotRequirements: Option<Component -> bool>,
                    attachTo: seq<int>, addAttributes: map<int, map<string, string>>)
    | LookupRealizer(languages: seq<string>, dictionary: map<string, string>, lookupAttachTo: seq<int>)

  function SupportedLanguages(r: Realizer): seq<string> {
    match r
    case NumberRealizer => ["ANY"]
    case RegexRealizer(ls, _, _, _, _, _, _) => ls
    case LookupRealizer(ls, _, _) => ls
  }

  predicate Supports(r: Realizer, language: string) {
    language in SupportedLanguages(r) || "ANY" in SupportedLanguages(r)
  }

  // ---------------------------------------------------------------- the number realizer

  /** Python's `float(value)`: a real, or `VNaN`; None for a string that is not a number (the
      ValueError the realizer catches); TypeError, which it does not catch, for None and sets. */
  function ToFloat(v: Value, parseFloat: string -> Option<real>): (r: Result<Option<Value>>)
    ensures r.Ok? && r.value.Some? ==> r.value.value.VReal? || r.value.value.VNaN?
    ensures r.Ok? && r.value.None? <==> v.VStr? && parseFloat(v.s).None?
    ensures r.Err? <==> v.VNone? || v.VSet?
  {
    match v
    case VNone => Err(TypeError("float() argument must be a string or a number, not 'NoneType'"))
    case VSet(_) => Err(TypeError("float() argument must be a string or a number, not 'set'"))
    case VBool(b) => Ok(Some(VReal(if b then 1.0 else 0.0)))
    case VInt(i) => Ok(Some(VReal(i as real)))
    case VReal(x) => Ok(Some(VReal(x)))
    case VNaN => Ok(Some(VNaN))
    case VStr(s) => if parseFloat(s).None? then Ok(None) else Ok(Some(VReal(parseFloat(s).value)))
  }

  function Abs(x: real): real {
    if x < 0.0 then -x else x
  }

  /** `NumberRealizer.realize`: a number, made absolute under the "abs" attribute, becomes the
      slot's value, as an int when it is integral; the same slot object is returned. NaN reaches
      `int()` and raises. */
  function RealizeNumber(slot: Component, eng: Engine): Result<Option<seq<Component>>>
    requires slot.Slot?
  {
    var v :- SlotValue(slot);
    var f :- ToFloat(v, eng.parseFloat);
    if f.None? then Ok(None)
    else if f.value.VNaN? then Err(ValueError("cannot convert float NaN to integer"))
    else
      var x := if Truthy(Attribute(slot, "abs")) then Abs(f.value.r) else f.value.r;
      if x.Floor as real == x then Ok(Some([slot.(source := Resolved(VInt(x.Floor)))]))
      else if eng.rounded(x).Some? then Ok(Some([slot.(source := Resolved(VReal(eng.rounded(x).value)))]))
      else Ok(Some([slot]))
  }

  /** It declines exactly the strings that are not numbers; otherwise it returns the one slot with
      the same attributes and fact, its value an integer when the number is integral. */
  lemma NumberMeaning(slot: Component, eng: Engine)
    requires slot.Slot? && SlotValue(slot).Ok?
    ensures var v := SlotValue(slot).value;
      var r := RealizeNumber(slot, eng);
      (r == Ok(None) <==> v.VStr? && eng.parseFloat(v.s).None?)
      && (r.Err? <==> v.VNone? || v.VSet? || v.VNaN?)
      && (r.Ok? && r.value.Some? ==>
            |r.value.value| == 1 && r.value.value[0].Slot?
            && r.value.value[0].attributes == slot.attributes && r.value.value[0].fact == slot.fact)
      && (v.VInt? ==> r == Ok(Some([slot.(source := Resolved(VInt(if Truthy(Attribute(slot, "abs")) && v.i < 0 then -v.i else v.i)))])))
  {
    var v := SlotValue(slot).value;
    if v.VInt? {
      var x := if Truthy(Attribute(slot, "abs")) then Abs(v.i as real) else v.i as real;
      var n := if Truthy(Attribute(slot, "abs")) && v.i < 0 then -v.i else v.i;
      assert x == n as real;
      assert x.Floor == n;
    }
  }

  // ---------------------------------------------------------------- regex and lookup realizers

  /** The attributes of the copy made for token `j`: the slot's own when `j` is listed in
      `attach_attributes_to`, otherwise none, then the additions for `j`. */
  function TokenAttributes(slot: Component, j: int, attachTo: seq<int>, add: map<int, map<string, string>>): map<string, Value>
    requires slot.Slot?
  {
    (if j in attachTo then slot.attributes else map[])
      + (if j in add then map a | a in add[j] :: VStr(add[j][a]) else map[])
  }

  /** One fact-keeping slot copy per whitespace-separated token, its value the token. */
  function TokenSlots(slot: Component, text: string, attachTo: seq<int>, add: map<int, map<string, string>>): (r: seq<Component>)
    requires slot.Slot?
    ensures |r| == |Words(text)|
    ensures forall j :: 0 <= j < |r| ==>
      r[j] == Slot(Resolved(VStr(Words(text)[j])), TokenAttributes(slot, j, attachTo, add), slot.fact)
  {
    var ws := Words(text);
    seq(|ws|, j requires 0 <= j < |ws| => Slot(Resolved(VStr(ws[j])), TokenAttributes(slot, j, attachTo, add), slot.fact))
  }

  /** `RegexRealizer.realize`: a string value that fully matches, whose groups and slot meet the
      optional requirements, is formatted into a randomly chosen template and split into tokens;
      numpy's `choice` on an empty template list raises ValueError. */
  function RealizeRegex(r: Realizer, slot: Component, eng: Engine): Result<Option<seq<Component>>>
    requires r.RegexRealizer? && slot.Slot?
  {
    var v :- SlotValue(slot);
    if !v.VStr? then Ok(None)
    else
      var m := eng.fullMatch(r.regex, v.s);
      if m.None? then Ok(None)
      else if r.groupRequirements.Some? && !r.groupRequirements.value(m.value) then Ok(None)
      else if r.slotRequirements.Some? && !r.slotRequirements.value(slot) then Ok(None)
      else if r.templates == [] then Err(ValueError("a cannot be empty unless no samples are taken"))
      else
        var t := r.templates[eng.choose(r.templates) % |r.templates|];
        Ok(Some(TokenSlots(slot, eng.format(t, m.value), r.attachTo, r.addAttributes)))
  }

  /** It declines, without raising, a value that is not a string, a failed match, and failed group
      or slot requirements; when it succeeds its output is the tokens of the formatted template. */
  lemma RegexMeaning(r: Realizer, slot: Component, eng: Engine)
    requires r.RegexRealizer? && slot.Slot? && SlotValue(slot).Ok?
    ensures var v := SlotValue(slot).value;
      var o := RealizeRegex(r, slot, eng);
      (!v.VStr? ==> o == Ok(None))
      && (v.VStr? && eng.fullMatch(r.regex, v.s).None? ==> o == Ok(None))
      && ((v.VStr? && eng.fullMatch(r.regex, v.s).Some? && r.groupRequirements.Some?
            && !r.groupRequirements.value(eng.fullMatch(r.regex, v.s).value)) ==> o == Ok(None))
      && (v.VStr? && r.slotRequirements.Some? && !r.slotRequirements.value(slot) ==> o == Ok(None))
      && (o.Ok? && o.value.Some? ==>
            v.VStr? && eng.fullMatch(r.regex, v.s).Some? && r.templates != []
            && exists t :: (t in r.templates
               && o.value.value == TokenSlots(slot, eng.format(t, eng.fullMatch(r.regex, v.s).value), r.attachTo, r.addAttributes)))
      && (o.Err? ==> o.error.ValueError? && r.templates == [])
  {
    var v := SlotValue(slot).value;
    var o := RealizeRegex(r, slot, eng);
    if o.Ok? && o.value.Some? {
      var t := r.templates[eng.choose(r.templates) % |r.templates|];
      assert t in r.templates;
    }
  }

  /** `LookupRealizer.realize`: a string value that is a key of the dictionary becomes the tokens of
      its entry, keeping attributes at the listed positions only. */
  function RealizeLookup(r: Realizer, slot: Component): Result<Option<seq<Component>>>
    requires r.LookupRealizer? && slot.Slot?
  {
    var v :- SlotValue(slot);
    if !v.VStr? || v.s !in r.dictionary then Ok(None)
    else Ok(Some(TokenSlots(slot, r.dictionary[v.s], r.lookupAttachTo, map[])))
  }

  /** It succeeds exactly when the value is a string among the dictionary's keys. */
  lemma LookupMeaning(r: Realizer, slot: Component)
    requires r.LookupRealizer? && slot.Slot? && SlotValue(slot).Ok?
    ensures var v := SlotValue(slot).value;
      var o := RealizeLookup(r, slot);
      o.Ok?
      && (o.value.Some? <==> v.VStr? && v.s in r.dictionary)
      && (o.value.Some? ==> o.value.value == TokenSlots(slot, r.dictionary[v.s], r.lookupAttachTo, map[]))
      && (o.value.Some? ==> forall j :: 0 <= j < |o.value.value| ==>
            o.value.value[j].attributes == (if j in r.lookupAttachTo then slot.attributes else map[]))
  {
    var v := SlotValue(slot).value;
    var o := RealizeLookup(r, slot);
    if o.value.Some? {
      forall j | 0 <= j < |o.value.value|
        ensures o.value.value[j].attributes == (if j in r.lookupAttachTo then slot.attributes else map[])
      {
        var m: map<string, Value> := map[];
        assert TokenAttributes(slot, j, r.lookupAttachTo, map[]) == (if j in r.lookupAttachTo then slot.attributes else map[]) + m;
      }
    }
  }

  /** One realizer's answer: the components, or None when it declines. */
  function Realize(r: Realizer, slot: Component, eng: Engine): Result<Option<seq<Component>>>
    requires slot.Slot?
  {
    match r
    case NumberRealizer => RealizeNumber(slot, eng)
    case RegexRealizer(_, _, _, _, _, _, _) => RealizeRegex(r, slot, eng)
    case LookupRealizer(_, _, _) => RealizeLookup(r, slot)
  }

  // ---------------------------------------------------------------- one slot

  /** `_realize_slot`: the output of the first realizer that supports the language and succeeds, or
      the slot itself. The flag is the loop's `modified_components != [child]`, which compares
      objects: the number realizer hands back the slot object itself, the others fresh copies. */
  function RealizeSlot(rs: seq<Realizer>, language: string, slot: Component, eng: Engine): Result<(seq<Component>, bool)>
    requires slot.Slot?
  {
    if rs == [] then Ok(([slot], false))
    else if !Supports(rs[0], language) then RealizeSlot(rs[1..], language, slot, eng)
    else
      var o :- Realize(rs[0], slot, eng);
      if o.Some? then Ok((o.value, !rs[0].NumberRealizer?)) else RealizeSlot(rs[1..], language, slot, eng)
  }

  /** Realizer `j` decides when it supports the language and succeeds and every earlier one that
      supports the language declines. Then its output is the result; when every realizer declines
      or does not support the language, the slot stays. */
  predicate Declines(rs: seq<Realizer>, language: string, slot: Component, eng: Engine, j: nat)
    requires slot.Slot? && j <= |rs|
  {
    forall i :: 0 <= i < j && Supports(rs[i], language) ==> Realize(rs[i], slot, eng) == Ok(None)
  }

  lemma {:induction false} RealizeSlotMeaning(rs: seq<Realizer>, language: string, slot: Component, eng: Engine, j: nat)
    requires slot.Slot? && j <= |rs| && Declines(rs, language, slot, eng, j)
    ensures j == |rs| ==> RealizeSlot(rs, language, slot, eng) == Ok(([slot], false))
    ensures j < |rs| && Supports(rs[j], language) && Realize(rs[j], slot, eng).Ok? && Realize(rs[j], slot, eng).value.Some? ==>
      RealizeSlot(rs, language, slot, eng) == Ok((Realize(rs[j], slot, eng).value.value, !rs[j].NumberRealizer?))
    decreases j
  {
    if j > 0 {
      assert Declines(rs[1..], language, slot, eng, j - 1) by {
        forall i | 0 <= i < j - 1 && Supports(rs[1..][i], language) ensures Realize(rs[1..][i], slot, eng) == Ok(None) {
          assert rs[1..][i] == rs[i + 1];
        }
      }
      RealizeSlotMeaning(rs[1..], language, slot, eng, j - 1);
      assert rs[1..][j - 1..] == rs[j..];
      if j < |rs| {
        assert rs[1..][j - 1] == rs[j];
      }
    }
  }

  // ---------------------------------------------------------------- a template's components

  /** The splice loop over a template's components: literals are kept, each slot is replaced by its
      realization; the flag says whether any slot was modified. */
  function RealizeComponents(rs: seq<Realizer>, language: string, cs: seq<Component>, eng: Engine): Result<(seq<Component>, bool)>
  {
    if cs == [] then Ok(([], false))
    else
      var h :- if cs[0].Literal? then Ok(([cs[0]], false)) else RealizeSlot(rs, language, cs[0], eng);
      var t :- RealizeComponents(rs, language, cs[1..], eng);
      Ok((h.0 + t.0, h.1 || t.1))
  }

  /** The result of the rest, after what is already done. */
  function After(done: seq<Component>, modified: bool, rest: Result<(seq<Component>, bool)>): Result<(seq<Component>, bool)> {
    if rest.Err? then Err(rest.error) else Ok((done + rest.value.0, modified || rest.value.1))
  }

  lemma RealizeComponentsAt(rs: seq<Realizer>, language: string, cs: seq<Component>, k: nat, eng: Engine)
    requires k < |cs|
    ensures var rest := RealizeComponents(rs, language, cs[k + 1..], eng);
      RealizeComponents(rs, language, cs[k..], eng) ==
        if cs[k].Literal? then After([cs[k]], false, rest)
        else if RealizeSlot(rs, language, cs[k], eng).Err? then Err(RealizeSlot(rs, language, cs[k], eng).error)
        else After(RealizeSlot(rs, language, cs[k], eng).value.0, RealizeSlot(rs, language, cs[k], eng).value.1, rest)
  {
    assert cs[k..][0] == cs[k] && cs[k..][1..] == cs[k + 1..];
  }

  lemma AfterAfter(d1: seq<Component>, m1: bool, d2: seq<Component>, m2: bool, rest: Result<(seq<Component>, bool)>)
    ensures After(d1, m1, After(d2, m2, rest)) == After(d1 + d2, m1 || m2, rest)
  {
    if rest.Ok? {
      assert d1 + (d2 + rest.value.0) == (d1 + d2) + rest.value.0;
    }
  }

  /** `_recurse` on a message's components, as the source runs it: an index walks the list, and the
      slot under it is replaced in place by its realization, after which the walk resumes past it. */
  method RealizeTemplate(rs: seq<Realizer>, language: string, cs0: seq<Component>, eng: Engine)
    returns (r: Result<(seq<Component>, bool)>)
    ensures r == RealizeComponents(rs, language, cs0, eng)
  {
    var cs := cs0;
    var idx := 0;
    var anyModified := false;
    ghost var k := 0;
    assert cs0[0..] == cs0;
    ghost var all := RealizeComponents(rs, language, cs0, eng);
    assert all.Ok? ==> [] + all.value.0 == all.value.0;
    while idx < |cs|
      invariant k <= |cs0| && idx <= |cs|
      invariant cs[idx..] == cs0[k..]
      invariant RealizeComponents(rs, language, cs0, eng) == After(cs[..idx], anyModified, RealizeComponents(rs, language, cs0[k..], eng))
      decreases |cs| - idx
    {
      assert k < |cs0| && cs[idx] == cs0[k] by {
        assert cs[idx..][0] == cs[idx];
      }
      RealizeComponentsAt(rs, language, cs0, k, eng);
      var child := cs[idx];
      if child.Literal? {
        AfterAfter(cs[..idx], anyModified, [child], false, RealizeComponents(rs, language, cs0[k + 1..], eng));
        assert cs[..idx + 1] == cs[..idx] + [child];
        idx := idx + 1;
      } else {
        var m := RealizeSlot(rs, language, child, eng);
        if m.Err? {
          return Err(m.error);
        }
        AfterAfter(cs[..idx], anyModified, m.value.0, m.value.1, RealizeComponents(rs, language, cs0[k + 1..], eng));
        var before := cs[..idx];
        var after := cs[idx + 1..];
        assert after == cs0[k + 1..] by {
          assert cs[idx + 1..] == cs[idx..][1..];
        }
        cs := before + m.value.0 + after;
        idx := idx + |m.value.0|;
        assert cs[..idx] == before + m.value.0 && cs[idx..] == after;
        anyModified := anyModified || m.value.1;
      }
      k := k + 1;
    }
    assert cs0[k..] == [];
    assert cs[..idx] + [] == cs[..idx];
    r := Ok((cs[..idx], anyModified));
  }

  // ---------------------------------------------------------------- one pass over the plan

  /** `_recurse`: a message's template components are realized in place (a message without a
      template has no children); a node visits its children in order until one reports a
      modification, as `any` over a generator stops there, and the rest are not visited. */
  function PassPlan(rs: seq<Realizer>, language: string, p: Plan, eng: Engine): Result<(Plan, bool)>
    decreases p, 2
  {
    match p
    case Leaf(m) =>
      if m.template.None? then Ok((p, false))
      else
        var o :- RealizeComponents(rs, language, m.template.value.components, eng);
        Ok((Leaf(m.(template := Some(m.template.value.(components := o.0)))), o.1))
    case Node(_, rel) =>
      var o :- PassFrom(rs, language, p, 0, eng);
      Ok((Node(o.0, rel), o.1))
  }

  /** The children from `i` on after the pass: visited up to the first modified one, then left as
      they are. */
  function PassFrom(rs: seq<Realizer>, language: string, p: Plan, i: nat, eng: Engine): Result<(seq<Plan>, bool)>
    requires p.Node? && i <= |p.children|
    decreases p, 1, |p.children| - i
  {
    if i == |p.children| then Ok(([], false))
    else
      var c :- PassPlan(rs, language, p.children[i], eng);
      if c.1 then Ok(([c.0] + p.children[i + 1..], true))
      else
        var rest :- PassFrom(rs, language, p, i + 1, eng);
        Ok(([c.0] + rest.0, rest.1))
  }

  /** The children before `i`, as the pass left them, ahead of the result from `i` on. */
  function PassedThen(done: seq<Plan>, rest: Result<(seq<Plan>, bool)>): Result<(seq<Plan>, bool)> {
    if rest.Err? then Err(rest.error) else Ok((done + rest.value.0, rest.value.1))
  }

  /** `_recurse`, as the source runs it. */
  method Pass(rs: seq<Realizer>, language: string, p: Plan, eng: Engine) returns (r: Result<(Plan, bool)>)
    ensures r == PassPlan(rs, language, p, eng)
    decreases p, 2
  {
    if p.Leaf? {
      if p.message.template.None? {
        return Ok((p, false));
      }
      var o := RealizeTemplate(rs, language, p.message.template.value.components, eng);
      if o.Err? {
        return Err(o.error);
      }
      return Ok((Leaf(p.message.(template := Some(p.message.template.value.(components := o.value.0)))), o.value.1));
    }
    var o := PassChildren(rs, language, p, eng);
    r := if o.Err? then Err(o.error) else Ok((Node(o.value.0, p.relation), o.value.1));
  }

  /** `any(self._recurse(child, language) for child in this.children)`. */
  method PassChildren(rs: seq<Realizer>, language: string, p: Plan, eng: Engine) returns (r: Result<(seq<Plan>, bool)>)
    requires p.Node?
    ensures r == PassFrom(rs, language, p, 0, eng)
    decreases p, 1
  {
    var done: seq<Plan> := [];
    var i := 0;
    ghost var all := PassFrom(rs, language, p, 0, eng);
    assert all.Ok? ==> [] + all.value.0 == all.value.0;
    while i < |p.children|
      invariant i <= |p.children| && |done| == i
      invariant PassFrom(rs, language, p, 0, eng) == PassedThen(done, PassFrom(rs, language, p, i, eng))
      decreases |p.children| - i
    {
      var c := Pass(rs, language, p.children[i], eng);
      if c.Err? {
        return Err(c.error);
      }
      if c.value.1 {
        assert done + ([c.value.0] + p.children[i + 1..]) == done + [c.value.0] + p.children[i + 1..];
        return Ok((done + [c.value.0] + p.children[i + 1..], true));
      }
      assert PassFrom(rs, language, p, i, eng) == PassedThen([c.value.0], PassFrom(rs, language, p, i + 1, eng));
      ghost var rest := PassFrom(rs, language, p, i + 1, eng);
      assert rest.Ok? ==> done + ([c.value.0] + rest.value.0) == (done + [c.value.0]) + rest.value.0;
      done := done + [c.value.0];
      i := i + 1;
    }
    assert done + [] == done;
    r := Ok((done, false));
  }

  // ---------------------------------------------------------------- the fixed point

  /** Passes until one reports no modification; `fuel` bounds their number, and a run that needs
      more passes is reported as one that never ends. */
  function Passes(rs: seq<Realizer>, language: string, p: Plan, eng: Engine, fuel: nat): Result<Plan>
    decreases fuel
  {
    if fuel == 0 then Err(LoopsForever)
    else
      var o :- PassPlan(rs, language, p, eng);
      if o.1 then Passes(rs, language, o.0, eng, fuel - 1) else Ok(o.0)
  }

  /** The language code up to its first "-". */
  function BaseLanguage(language: string): (r: string)
    ensures '-' !in r && (r == language || StartsWith(language, r + "-"))
  {
    Partition(language, '-').0
  }

  /** `SlotRealizer.run`: the registered realizers with a number realizer appended to a copy of the
      list, over the base language. */
  function RunSpec(registered: seq<Realizer>, language: string, p: Plan, eng: Engine, fuel: nat): Result<Plan> {
    Passes(registered + [NumberRealizer], BaseLanguage(language), p, eng, fuel)
  }

  method Run(registered: seq<Realizer>, language: string, p: Plan, eng: Engine, fuel: nat) returns (r: Result<Plan>)
    ensures r == RunSpec(registered, language, p, eng, fuel)
  {
    var rs := registered + [NumberRealizer];
    var lang := BaseLanguage(language);
    var plan := p;
    var left := fuel;
    while left > 0
      invariant Passes(rs, lang, p, eng, fuel) == Passes(rs, lang, plan, eng, left)
      decreases left
    {
      var o := Pass(rs, lang, plan, eng);
      if o.Err? {
        return Err(o.error);
      }
      if !o.value.1 {
        return Ok(o.value.0);
      }
      plan := o.value.0;
      left := left - 1;
    }
    r := Err(LoopsForever);
  }

  // ---------------------------------------------------------------- what the passes guarantee

  /** A pass that reports no modification leaves a slot as it was or puts a number in its place,
      with the same attributes and fact. */
  predicate Settled(s: Component, s2: Component) {
    s.Slot? && s2.Slot? && s2.attributes == s.attributes && s2.fact == s.fact
    && (s2 == s || (s2.source.Resolved? && (s2.source.resolved.VInt? || s2.source.resolved.VReal?)))
  }

  lemma {:induction false} QuietSlot(rs: seq<Realizer>, language: string, s: Component, eng: Engine)
    requires s.Slot? && RealizeSlot(rs, language, s, eng).Ok? && !RealizeSlot(rs, language, s, eng).value.1
    ensures var out := RealizeSlot(rs, language, s, eng).value.0;
      |out| == 1 && Settled(s, out[0])
    decreases |rs|
  {
    if rs != [] {
      if Supports(rs[0], language) && Realize(rs[0], s, eng).value.Some? {
        assert rs[0].NumberRealizer?;
      } else {
        QuietSlot(rs[1..], language, s, eng);
      }
    }
  }

  /** Offering a settled slot to the realizers again modifies nothing: the number realizer takes a
      number again, and the others decline what is not a string, as they declined it before. */
  lemma {:induction false} SettledSlot(rs: seq<Realizer>, language: string, s: Component, s2: Component, eng: Engine)
    requires Settled(s, s2) && RealizeSlot(rs, language, s, eng) == Ok(([s2], false))
    ensures RealizeSlot(rs, language, s2, eng).Ok? && !RealizeSlot(rs, language, s2, eng).value.1
    decreases |rs|
  {
    if s2 != s && rs != [] {
      if !Supports(rs[0], language) {
        SettledSlot(rs[1..], language, s, s2, eng);
      } else if rs[0].NumberRealizer? {
        assert Realize(rs[0], s2, eng).Ok? && Realize(rs[0], s2, eng).value.Some?;
      } else {
        assert Realize(rs[0], s, eng) == Ok(None);
        assert Realize(rs[0], s2, eng) == Ok(None);
        SettledSlot(rs[1..], language, s, s2, eng);
      }
    }
  }

  /** After a template pass without modifications the components have kept their number, the
      literals are untouched, each slot has only settled, and another pass modifies nothing. */
  lemma {:induction false} QuietComponents(rs: seq<Realizer>, language: string, cs: seq<Component>, eng: Engine)
    requires RealizeComponents(rs, language, cs, eng).Ok? && !RealizeComponents(rs, language, cs, eng).value.1
    ensures var out := RealizeComponents(rs, language, cs, eng).value.0;
      |out| == |cs|
      && (forall i :: 0 <= i < |cs| && cs[i].Literal? ==> out[i] == cs[i])
      && (forall i :: 0 <= i < |cs| && cs[i].Slot? ==> Settled(cs[i], out[i]))
      && RealizeComponents(rs, language, out, eng).Ok? && !RealizeComponents(rs, language, out, eng).value.1
  {
    if cs != [] {
      var h := if cs[0].Literal? then Ok(([cs[0]], false)) else RealizeSlot(rs, language, cs[0], eng);
      var t := RealizeComponents(rs, language, cs[1..], eng).value.0;
      QuietComponents(rs, language, cs[1..], eng);
      var out := h.value.0 + t;
      if cs[0].Slot? {
        QuietSlot(rs, language, cs[0], eng);
        assert h.value.0 == [h.value.0[0]];
        SettledSlot(rs, language, cs[0], h.value.0[0], eng);
      }
      assert out[0] == h.value.0[0] && out[1..] == t;
      forall i | 0 < i < |cs| ensures out[i] == t[i - 1] && cs[i] == cs[1..][i - 1] {
      }
    }
  }

  lemma {:induction false} QuietPlan(rs: seq<Realizer>, language: string, p: Plan, eng: Engine)
    requires PassPlan(rs, language, p, eng).Ok? && !PassPlan(rs, language, p, eng).value.1
    ensures var q := PassPlan(rs, language, p, eng).value.0;
      PassPlan(rs, language, q, eng).Ok? && !PassPlan(rs, language, q, eng).value.1
    decreases p, 2
  {
    match p
    case Leaf(m) =>
      if m.template.Some? {
        QuietComponents(rs, language, m.template.value.components, eng);
      }
    case Node(_, rel) =>
      var q := PassPlan(rs, language, p, eng).value.0;
      assert q.children[0..] == q.children;
      QuietFrom(rs, language, p, q, 0, eng);
  }

  lemma {:induction false} QuietFrom(rs: seq<Realizer>, language: string, p: Plan, q: Plan, i: nat, eng: Engine)
    requires p.Node? && q.Node? && i <= |p.children| && i <= |q.children|
    requires PassFrom(rs, language, p, i, eng).Ok? && !PassFrom(rs, language, p, i, eng).value.1
    requires q.children[i..] == PassFrom(rs, language, p, i, eng).value.0
    ensures PassFrom(rs, language, q, i, eng).Ok? && !PassFrom(rs, language, q, i, eng).value.1
    decreases p, 1, |p.children| - i
  {
    if i < |p.children| {
      var c := PassPlan(rs, language, p.children[i], eng).value;
      var rest := PassFrom(rs, language, p, i + 1, eng).value;
      assert q.children[i..] == [c.0] + rest.0;
      assert q.children[i] == c.0 && q.children[i + 1..] == rest.0 by {
        assert q.children[i..][0] == q.children[i] && q.children[i..][1..] == q.children[i + 1..];
      }
      QuietPlan(rs, language, p.children[i], eng);
      QuietFrom(rs, language, p, q, i + 1, eng);
    } else {
      assert q.children[i..] == [];
    }
  }

  /** The plan a successful run returns is a fixed point of the loop's test: one more pass would
      report no modification. */
  lemma {:induction false} PassesSettle(rs: seq<Realizer>, language: string, p: Plan, eng: Engine, fuel: nat)
    requires Passes(rs, language, p, eng, fuel).Ok?
    ensures var q := Passes(rs, language, p, eng, fuel).value;
      PassPlan(rs, language, q, eng).Ok? && !PassPlan(rs, language, q, eng).value.1
    decreases fuel
  {
    var o := PassPlan(rs, language, p, eng).value;
    if o.1 {
      PassesSettle(rs, language, o.0, eng, fuel - 1);
    } else {
      QuietPlan(rs, language, p, eng);
    }
  }

  lemma RunSettles(registered: seq<Realizer>, language: string, p: Plan, eng: Engine, fuel: nat)
    requires RunSpec(registered, language, p, eng, fuel).Ok?
    ensures var q := RunSpec(registered, language, p, eng, fuel).value;
      var o := PassPlan(registered + [NumberRealizer], BaseLanguage(language), q, eng);
      o.Ok? && !o.value.1
  {
    PassesSettle(registered + [NumberRealizer], BaseLanguage(language), p, eng, fuel);
  }

  /** A pass keeps the plan's shape: a message stays the same message with new template
      components, and a node keeps its relation and its number of children. */
  lemma PassShape(rs: seq<Realizer>, language: string, p: Plan, eng: Engine)
    requires PassPlan(rs, language, p, eng).Ok?
    ensures var q := PassPlan(rs, language, p, eng).value.0;
      (p.Leaf? ==> (q.Leaf? && (p.message.template.None? ==> q == p)
         && (p.message.template.Some? ==> (q.message.template.Some?
               && q.message == p.message.(template := Some(p.message.template.value.(components := q.message.template.value.components)))))))
      && (p.Node? ==> q.Node? && q.relation == p.relation && |q.children| == |p.children|)
  {
    if p.Node? {
      PassFromLength(rs, language, p, 0, eng);
    }
  }

  lemma {:induction false} PassFromLength(rs: seq<Realizer>, language: string, p: Plan, i: nat, eng: Engine)
    requires p.Node? && i <= |p.children| && PassFrom(rs, language, p, i, eng).Ok?
    ensures |PassFrom(rs, language, p, i, eng).value.0| == |p.children| - i
    decreases |p.children| - i
  {
    if i < |p.children| && !PassPlan(rs, language, p.children[i], eng).value.1 {
      PassFromLength(rs, language, p, i + 1, eng);
    }
  }
}

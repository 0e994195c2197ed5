/** The data model of the generator: facts, messages, templates with their slots and rules,
    matchers, and the document plan tree. Python's dynamic values are a tagged variant. */
module Models {
  import opened Wrappers
  import opened Text

  /** A Python value as the generator sees it. `VNaN` is the float NaN, which only arises from data;
      `VSet` is a value group of the template language, a set of strings. */
  datatype Value =
    | VNone
    | VBool(b: bool)
    | VInt(i: int)
    | VReal(r: real)
    | VNaN
    | VStr(s: string)
    | VSet(items: set<string>)

  /** What the modelled code takes from the Python runtime and cannot be written out here:
      anchored regular-expression matching (the groups of a full match, or None), float printing and
      the printing of a set, whose element order is the hash order. */
  datatype Env = Env(fullMatch: (string, string) -> Option<seq<string>>, showReal: real -> string,
                     showSet: set<string> -> string)

  /** Python truthiness. */
  predicate Truthy(v: Value) {
    match v
    case VNone => false
    case VBool(b) => b
    case VInt(i) => i != 0
    case VReal(r) => r != 0.0
    case VNaN => true
    case VStr(s) => s != []
    case VSet(xs) => xs != {}
  }

  /** The numeric reading of bool, int and float values (NaN excluded). */
  function Num(v: Value): Option<real> {
    match v
    case VBool(b) => Some(if b then 1.0 else 0.0)
    case VInt(i) => Some(i as real)
    case VReal(r) => Some(r)
    case _ => None
  }

  predicate IsNumeric(v: Value) { Num(v).Some? || v.VNaN? }

  /** Python `==`: numbers compare by value across bool/int/float, NaN equals nothing. */
  predicate PyEq(a: Value, b: Value) {
    if Num(a).Some? && Num(b).Some? then Num(a).value == Num(b).value
    else match (a, b)
      case (VNone, VNone) => true
      case (VStr(x), VStr(y)) => x == y
      case (VSet(xs), VSet(ys)) => xs == ys
      case _ => false
  }

  /** Lexicographic order of code points, as Python compares strings. */
  predicate LexLess(a: string, b: string) {
    if a == [] then b != []
    else if b == [] then false
    else a[0] < b[0] || (a[0] == b[0] && LexLess(a[1..], b[1..]))
  }

  /** The string order is strict and total: no string precedes itself, of two different
      strings one precedes the other, and never both. */
  lemma {:induction false} LexLessStrictTotal(a: string, b: string)
    ensures !LexLess(a, a)
    ensures a != b ==> LexLess(a, b) || LexLess(b, a)
    ensures !(LexLess(a, b) && LexLess(b, a))
    decreases |a|
  {
    if a != [] {
      if b != [] {
        LexLessStrictTotal(a[1..], b[1..]);
        if a[0] == b[0] && a != b {
          assert a == [a[0]] + a[1..] && b == [b[0]] + b[1..];
        }
      } else {
        LexLessStrictTotal(a[1..], a[1..]);
      }
    }
  }

  lemma {:induction false} LexLessTransitive(a: string, b: string, c: string)
    requires LexLess(a, b) && LexLess(b, c)
    ensures LexLess(a, c)
    decreases |a|
  {
    if a != [] && a[0] == b[0] && b[0] == c[0] {
      LexLessTransitive(a[1..], b[1..], c[1..]);
    }
  }

  /** The order "not after" is transitive too. */
  lemma LexLeTransitive(a: string, b: string, c: string)
    requires !LexLess(b, a) && !LexLess(c, b)
    ensures !LexLess(c, a)
  {
    LexLessStrictTotal(a, b);
    if LexLess(c, a) && LexLess(a, b) {
      LexLessTransitive(c, a, b);
    }
  }

  /** Python `a < b`; sets are ordered by proper inclusion; a TypeError for values Python cannot order. */
  function PyLt(a: Value, b: Value): Result<bool> {
    if IsNumeric(a) && IsNumeric(b) then
      Ok(Num(a).Some? && Num(b).Some? && Num(a).value < Num(b).value)
    else match (a, b)
      case (VStr(x), VStr(y)) => Ok(LexLess(x, y))
      case (VSet(xs), VSet(ys)) => Ok(xs < ys)
      case _ => Err(TypeError("'<' not supported"))
  }

  /** Python `a <= b`. */
  function PyLe(a: Value, b: Value): Result<bool> {
    var lt :- PyLt(a, b);
    Ok(lt || PyEq(a, b))
  }

  /** Python `str(v)`. */
  function Show(v: Value, env: Env): string {
    match v
    case VNone => "None"
    case VBool(b) => if b then "True" else "False"
    case VInt(i) => IntToString(i)
    case VReal(r) => env.showReal(r)
    case VNaN => "nan"
    case VStr(s) => s
    case VSet(xs) => env.showSet(xs)
  }

  // ---------------------------------------------------------------- facts and messages

  /** One observed value with its metadata. Every column the generator writes is a string
      except the value, the agent and the outlierness. */
  datatype Fact = Fact(
    location: string,
    locationType: string,
    value: Value,
    valueType: string,
    agent: Value,
    agentType: string,
    timestamp: string,
    timestampType: string,
    outlierness: Value)

  const FactFieldNames: seq<string> := ["location", "location_type", "value", "value_type", "agent",
                                        "agent_type", "timestamp", "timestamp_type", "outlierness"]

  /** `getattr(fact, name)`: AttributeError for a name that is not a Fact field. */
  function FieldOf(f: Fact, name: string): (r: Result<Value>)
    ensures r.Ok? <==> name in FactFieldNames
  {
    if name == "location" then Ok(VStr(f.location))
    else if name == "location_type" then Ok(VStr(f.locationType))
    else if name == "value" then Ok(f.value)
    else if name == "value_type" then Ok(VStr(f.valueType))
    else if name == "agent" then Ok(f.agent)
    else if name == "agent_type" then Ok(VStr(f.agentType))
    else if name == "timestamp" then Ok(VStr(f.timestamp))
    else if name == "timestamp_type" then Ok(VStr(f.timestampType))
    else if name == "outlierness" then Ok(f.outlierness)
    else Err(AttributeError(name))
  }

  /** A message: facts plus the template chosen for them. Python compares messages by identity,
      which `id` stands for. `embedding` is the optional attribute some planners attach. */
  datatype Message = Message(
    id: nat,
    facts: seq<Fact>,
    mainFact: Fact,
    template: Option<Template>,
    importanceCoefficient: real,
    score: real,
    polarity: real,
    preventAggregation: bool,
    embedding: Option<seq<real>>)

  /** The facts / main_fact invariant every constructed message keeps. */
  predicate ValidMessage(m: Message) {
    m.mainFact in m.facts
  }

  /** `Message(facts)`: a list is taken as given and its first fact becomes the main fact;
      an empty list raises IndexError. Defaults: coefficient 1.0, score 0.0, polarity 0.0. */
  function NewMessage(id: nat, facts: seq<Fact>): (r: Result<Message>)
    ensures r.Ok? <==> facts != []
    ensures r.Ok? ==> r.value.facts == facts && r.value.mainFact == facts[0] && r.value.id == id
    ensures r.Ok? ==> r.value.template == None && r.value.score == 0.0 && r.value.importanceCoefficient == 1.0
    ensures r.Ok? ==> !r.value.preventAggregation && ValidMessage(r.value)
  {
    if facts == [] then Err(IndexError)
    else Ok(Message(id, facts, facts[0], None, 1.0, 0.0, 0.0, false, None))
  }

  /** `Message(fact)` for a single fact wraps it in a list. */
  function MessageOfFact(id: nat, f: Fact): (r: Message)
    ensures r.facts == [f] && r.mainFact == f && ValidMessage(r)
  {
    Message(id, [f], f, None, 1.0, 0.0, 0.0, false, None)
  }

  /** The `facts` setter: the list is stored, then its first element becomes the main fact.
      With an empty list the store happens and reading the first element raises IndexError. */
  function SetFacts(m: Message, facts: seq<Fact>): (r: Result<Message>)
    ensures r.Ok? <==> facts != []
    ensures r.Ok? ==> r.value == m.(facts := facts, mainFact := facts[0]) && ValidMessage(r.value)
  {
    if facts == [] then Err(IndexError) else Ok(m.(facts := facts, mainFact := facts[0]))
  }

  /** The `main_fact` setter: a fact not yet among the facts is inserted at the front. */
  function SetMainFact(m: Message, f: Fact): (r: Message)
    ensures r.mainFact == f && f in r.facts && ValidMessage(r)
    ensures f in m.facts ==> r.facts == m.facts
    ensures f !in m.facts ==> r.facts == [f] + m.facts
  {
    m.(mainFact := f, facts := if f in m.facts then m.facts else [f] + m.facts)
  }

  lemma SetMainFactIdempotent(m: Message, f: Fact)
    ensures SetMainFact(SetMainFact(m, f), f) == SetMainFact(m, f)
  {
  }

  // ---------------------------------------------------------------- templates

  /** Where a slot's value comes from. `Resolved` is a value a realizer has already put in place
      (Python replaces the source with a lambda, which has no `field_name`). */
  datatype SlotSource =
    | FactFieldSource(fieldName: string)
    | LiteralSource(text: string)
    | TimeSource
    | UnitSource
    | Resolved(resolved: Value)

  datatype Component =
    | Slot(source: SlotSource, attributes: map<string, Value>, fact: Option<Fact>)
    | Literal(text: string)

  /** Left-hand sides and callable right-hand sides of constraints. */
  datatype Expr =
    | FactField(field: string)
    | Referential(index: int, refField: string)

  datatype Rhs = Const(v: Value) | Computed(e: Expr)

  datatype Op = OpEq | OpNe | OpGt | OpLt | OpGe | OpLe | OpIn

  datatype Matcher = Matcher(lhs: Expr, op: Op, rhs: Rhs)

  /** One template rule: constraints on a message's main fact, and the slot indices it fills. */
  datatype Rule = Rule(matchers: seq<Matcher>, slots: seq<int>)

  datatype Template = Template(components: seq<Component>, rules: seq<Rule>, facts: seq<Fact>)

  /** `Template(components, rules)`: no facts yet. */
  function NewTemplate(components: seq<Component>, rules: seq<Rule>): Template {
    Template(components, rules, [])
  }

  /** `DefaultTemplate(text)`: one literal and no rules. */
  function DefaultTemplate(text: string): Template {
    Template([Literal(text)], [], [])
  }

  /** `slot_type`: the source's field name; a Literal reports "Literal"; undefined (None) on a
      resolved slot. */
  function SlotType(c: Component): (r: Option<string>)
    ensures r == None <==> (c.Slot? && c.source.Resolved?)
  {
    match c
    case Literal(_) => Some("Literal")
    case Slot(src, _, _) =>
      match src
      case FactFieldSource(n) => Some(n)
      case LiteralSource(_) => Some("literal")
      case TimeSource => Some("time")
      case UnitSource => Some("unit")
      case Resolved(_) => None
  }

  /** `slot.value`: the source applied to the bound fact. */
  function SlotValue(c: Component): (r: Result<Value>)
    requires c.Slot?
    ensures c.source.LiteralSource? ==> r == Ok(VStr(c.source.text))
    ensures c.source.Resolved? ==> r == Ok(c.source.resolved)
    ensures c.source.FactFieldSource? && c.fact.Some? ==> r == FieldOf(c.fact.value, c.source.fieldName)
  {
    match c.source
    case LiteralSource(s) => Ok(VStr(s))
    case Resolved(v) => Ok(v)
    case FactFieldSource(n) => if c.fact.None? then Err(AttributeError(n)) else FieldOf(c.fact.value, n)
    case TimeSource =>
      if c.fact.None? then Err(AttributeError("timestamp_type"))
      else Ok(VStr(TimeTag(c.fact.value)))
    case UnitSource =>
      if c.fact.None? then Err(AttributeError("value_type"))
      else Ok(VStr("[UNIT:" + c.fact.value.valueType + "]"))
  }

  /** The string a TimeSource produces: "[TIME:<timestamp_type>:<timestamp>]". */
  function TimeTag(f: Fact): string {
    "[TIME:" + f.timestampType + ":" + f.timestamp + "]"
  }

  /** The entity tag "[ENTITY:<type>:<id>]" that stands for an entity until it is named. */
  function EntityTag(ty: string, id: string): string {
    "[ENTITY:" + ty + ":" + id + "]"
  }

  /** `slot.attributes.get(name)`: None for a missing attribute. */
  function Attribute(c: Component, name: string): Value
    requires c.Slot?
  {
    if name in c.attributes then c.attributes[name] else VNone
  }

  /** `component.value`: a literal's text or a slot's value. */
  function ComponentValue(c: Component): Result<Value> {
    if c.Literal? then Ok(VStr(c.text)) else SlotValue(c)
  }

  /** `Slot.copy(include_fact)`: the same source and a copy of the attributes; the fact only on request. */
  function CopyComponent(c: Component, includeFact: bool): (r: Component)
    ensures r.Slot? == c.Slot? && SlotType(r) == SlotType(c)
    ensures r.Slot? ==> r.source == c.source && r.attributes == c.attributes
    ensures r.Slot? ==> r.fact == (if includeFact then c.fact else None)
    ensures r.Literal? ==> r == c
  {
    match c
    case Slot(src, attrs, f) => Slot(src, attrs, if includeFact then f else None)
    case Literal(_) => c
  }

  function CopyAll(cs: seq<Component>): (r: seq<Component>)
    ensures |r| == |cs| && forall i :: 0 <= i < |cs| ==> r[i] == CopyComponent(cs[i], false)
  {
    if cs == [] then [] else [CopyComponent(cs[0], false)] + CopyAll(cs[1..])
  }

  /** `Template.copy()`: fresh components without facts, the same rules, no used facts. */
  function Copy(t: Template): (r: Template)
    ensures |r.components| == |t.components| && r.rules == t.rules && r.facts == []
    ensures forall i :: 0 <= i < |t.components| ==>
      r.components[i] == CopyComponent(t.components[i], false)
  {
    Template(CopyAll(t.components), t.rules, [])
  }

  lemma CopyIdempotent(t: Template)
    ensures Copy(Copy(t)) == Copy(t)
  {
    assert Copy(Copy(t)).components == Copy(t).components;
  }

  /** `has_slot_of_type`: Python's `any` stops at the first slot of that type, but evaluating
      `slot_type` on a resolved slot before that raises AttributeError. */
  function HasSlotOfType(cs: seq<Component>, ty: string): (r: Result<bool>)
    ensures r == Ok(true) <==> exists i :: 0 <= i < |cs| && cs[i].Slot? && SlotType(cs[i]) == Some(ty) &&
                                 forall j :: 0 <= j < i ==> SlotType(cs[j]).Some?
  {
    if cs == [] then Ok(false)
    else if cs[0].Literal? then
      var r := HasSlotOfType(cs[1..], ty);
      assert r == Ok(true) ==> exists i :: 1 <= i < |cs| && cs[i].Slot? && SlotType(cs[i]) == Some(ty) &&
                                 forall j :: 0 <= j < i ==> SlotType(cs[j]).Some? by {
        if r == Ok(true) {
          var i :| 0 <= i < |cs[1..]| && cs[1..][i].Slot? && SlotType(cs[1..][i]) == Some(ty) &&
                   forall j :: 0 <= j < i ==> SlotType(cs[1..][j]).Some?;
          assert forall j :: 0 <= j < i + 1 ==> SlotType(cs[j]).Some? by {
            forall j | 0 <= j < i + 1 ensures SlotType(cs[j]).Some? {
              if j > 0 { assert cs[j] == cs[1..][j - 1]; }
            }
          }
        }
      }
      ShiftedWitness(cs, ty);
      r
    else match SlotType(cs[0])
      case None => Err(AttributeError("field_name"))
      case Some(n) =>
        if n == ty then Ok(true)
        else
          ShiftedWitness(cs, ty);
          HasSlotOfType(cs[1..], ty)
  }

  /** A witness found after the head of the list is a witness in the tail. */
  lemma ShiftedWitness(cs: seq<Component>, ty: string)
    requires cs != [] && !(cs[0].Slot? && SlotType(cs[0]) == Some(ty)) && SlotType(cs[0]).Some?
    ensures (exists i :: 0 <= i < |cs| && cs[i].Slot? && SlotType(cs[i]) == Some(ty) &&
               forall j :: 0 <= j < i ==> SlotType(cs[j]).Some?)
        <==> (exists i :: 0 <= i < |cs[1..]| && cs[1..][i].Slot? && SlotType(cs[1..][i]) == Some(ty) &&
               forall j :: 0 <= j < i ==> SlotType(cs[1..][j]).Some?)
  {
    if exists i :: 0 <= i < |cs| && cs[i].Slot? && SlotType(cs[i]) == Some(ty) &&
                   forall j :: 0 <= j < i ==> SlotType(cs[j]).Some? {
      var i :| 0 <= i < |cs| && cs[i].Slot? && SlotType(cs[i]) == Some(ty) &&
               forall j :: 0 <= j < i ==> SlotType(cs[j]).Some?;
      assert i >= 1;
      assert cs[1..][i - 1] == cs[i];
      assert forall j :: 0 <= j < i - 1 ==> SlotType(cs[1..][j]).Some? by {
        forall j | 0 <= j < i - 1 ensures SlotType(cs[1..][j]).Some? { assert cs[1..][j] == cs[j + 1]; }
      }
    }
    if exists i :: 0 <= i < |cs[1..]| && cs[1..][i].Slot? && SlotType(cs[1..][i]) == Some(ty) &&
                   forall j :: 0 <= j < i ==> SlotType(cs[1..][j]).Some? {
      var i :| 0 <= i < |cs[1..]| && cs[1..][i].Slot? && SlotType(cs[1..][i]) == Some(ty) &&
               forall j :: 0 <= j < i ==> SlotType(cs[1..][j]).Some?;
      assert cs[i + 1] == cs[1..][i];
      assert forall j :: 0 <= j < i + 1 ==> SlotType(cs[j]).Some? by {
        forall j | 0 <= j < i + 1 ensures SlotType(cs[j]).Some? {
          if j > 0 { assert cs[j] == cs[1..][j - 1]; }
        }
      }
    }
  }

  /** No slot has been resolved yet: true of every template the reader produces. */
  predicate Unresolved(cs: seq<Component>) {
    forall i :: 0 <= i < |cs| ==> SlotType(cs[i]).Some?
  }

  /** On an unresolved template, `has_slot_of_type(t)` holds iff some Slot has slot_type t. */
  lemma HasSlotOfTypeUnresolved(cs: seq<Component>, ty: string)
    requires Unresolved(cs)
    ensures HasSlotOfType(cs, ty).Ok?
    ensures HasSlotOfType(cs, ty).value <==> exists i :: 0 <= i < |cs| && cs[i].Slot? && SlotType(cs[i]) == Some(ty)
  {
    if exists i :: 0 <= i < |cs| && cs[i].Slot? && SlotType(cs[i]) == Some(ty) {
      var i :| 0 <= i < |cs| && cs[i].Slot? && SlotType(cs[i]) == Some(ty);
      assert forall j :: 0 <= j < i ==> SlotType(cs[j]).Some?;
    }
    HasSlotOfTypeErrs(cs, ty);
  }

  lemma {:induction false} HasSlotOfTypeErrs(cs: seq<Component>, ty: string)
    requires Unresolved(cs)
    ensures HasSlotOfType(cs, ty).Ok?
  {
    if cs != [] {
      assert Unresolved(cs[1..]) by {
        forall i | 0 <= i < |cs[1..]| ensures SlotType(cs[1..][i]).Some? { assert cs[1..][i] == cs[i + 1]; }
      }
      HasSlotOfTypeErrs(cs[1..], ty);
    }
  }

  /** Copying keeps every slot type, so it keeps `has_slot_of_type`. */
  lemma {:induction false} CopyKeepsSlotTypes(cs: seq<Component>, ty: string)
    ensures HasSlotOfType(CopyAll(cs), ty) == HasSlotOfType(cs, ty)
  {
    if cs != [] {
      assert CopyAll(cs)[1..] == CopyAll(cs[1..]);
      CopyKeepsSlotTypes(cs[1..], ty);
    }
  }

  /** `get_slot(t)`: the first Slot whose slot_type is t; KeyError when there is none. */
  function GetSlot(cs: seq<Component>, ty: string): (r: Result<Component>)
    ensures r.Ok? ==> r.value in cs && r.value.Slot? && SlotType(r.value) == Some(ty)
    ensures Unresolved(cs) && (forall c :: c in cs && c.Slot? ==> SlotType(c) != Some(ty)) ==> r == Err(KeyError(ty))
  {
    if cs == [] then Err(KeyError(ty))
    else if cs[0].Literal? then GetSlot(cs[1..], ty)
    else match SlotType(cs[0])
      case None => Err(AttributeError("field_name"))
      case Some(n) => if n == ty then Ok(cs[0]) else GetSlot(cs[1..], ty)
  }

  /** Component i is the first Slot of type ty, and every Slot before it has a type. */
  predicate FirstSlotOfType(cs: seq<Component>, ty: string, i: nat)
    requires i < |cs|
  {
    && cs[i].Slot? && SlotType(cs[i]) == Some(ty)
    && forall j :: 0 <= j < i && cs[j].Slot? ==> SlotType(cs[j]).Some? && SlotType(cs[j]) != Some(ty)
  }

  /** `get_slot` finds the first Slot of the type, and on a template without replaced slots it finds
      one whenever there is one. */
  lemma {:induction false} GetSlotMeaning(cs: seq<Component>, ty: string)
    ensures GetSlot(cs, ty).Ok? ==>
      exists i :: 0 <= i < |cs| && FirstSlotOfType(cs, ty, i) && GetSlot(cs, ty).value == cs[i]
    ensures Unresolved(cs) && (exists i :: 0 <= i < |cs| && cs[i].Slot? && SlotType(cs[i]) == Some(ty)) ==>
      GetSlot(cs, ty).Ok?
  {
    if cs != [] {
      GetSlotMeaning(cs[1..], ty);
      assert forall j :: 1 <= j < |cs| ==> cs[j] == cs[1..][j - 1];
      if GetSlot(cs, ty).Ok? && !(cs[0].Slot? && SlotType(cs[0]) == Some(ty)) {
        var k :| 0 <= k < |cs[1..]| && FirstSlotOfType(cs[1..], ty, k) && GetSlot(cs[1..], ty).value == cs[1..][k];
        assert FirstSlotOfType(cs, ty, k + 1);
      }
      if GetSlot(cs, ty).Ok? && cs[0].Slot? && SlotType(cs[0]) == Some(ty) {
        assert FirstSlotOfType(cs, ty, 0);
      }
      if Unresolved(cs) && (exists i :: 0 <= i < |cs| && cs[i].Slot? && SlotType(cs[i]) == Some(ty)) {
        var i :| 0 <= i < |cs| && cs[i].Slot? && SlotType(cs[i]) == Some(ty);
        if i > 0 && !(cs[0].Slot? && SlotType(cs[0]) == Some(ty)) {
          assert Unresolved(cs[1..]);
          assert cs[1..][i - 1].Slot? && SlotType(cs[1..][i - 1]) == Some(ty);
        }
      }
    }
  }

  // ---------------------------------------------------------------- matchers

  const OperatorNames: seq<string> := ["=", "!=", ">", "<", ">=", "<=", "in"]

  function OpName(op: Op): string {
    match op
    case OpEq => "=" case OpNe => "!=" case OpGt => ">" case OpLt => "<"
    case OpGe => ">=" case OpLe => "<=" case OpIn => "in"
  }

  /** `Matcher(lhs, op, value)`: ValueError for an operator outside the seven. */
  function NewMatcher(lhs: Expr, op: string, rhs: Rhs): (r: Result<Matcher>)
    ensures r.Ok? <==> op in OperatorNames
    ensures r.Ok? ==> OpName(r.value.op) == op && r.value.lhs == lhs && r.value.rhs == rhs
    ensures r.Err? ==> r.error.ValueError?
  {
    if op == "=" then Ok(Matcher(lhs, OpEq, rhs))
    else if op == "!=" then Ok(Matcher(lhs, OpNe, rhs))
    else if op == ">" then Ok(Matcher(lhs, OpGt, rhs))
    else if op == "<" then Ok(Matcher(lhs, OpLt, rhs))
    else if op == ">=" then Ok(Matcher(lhs, OpGe, rhs))
    else if op == "<=" then Ok(Matcher(lhs, OpLe, rhs))
    else if op == "in" then Ok(Matcher(lhs, OpIn, rhs))
    else Err(ValueError("invalid matcher operator"))
  }

  /** FactField reads the fact itself; ReferentialExpr reads the index-th used fact, a negative
      index counting from the end as Python's list indexing does. */
  function Eval(e: Expr, f: Fact, used: seq<Fact>): Result<Value> {
    match e
    case FactField(n) => FieldOf(f, n)
    case Referential(k, n) =>
      if -|used| <= k < 0 then FieldOf(used[k + |used|], n)
      else if 0 <= k < |used| then FieldOf(used[k], n)
      else Err(IndexError)
  }

  /** `_equal_op`: a string right-hand side is an anchored pattern matched against `str(lhs)`. */
  predicate EqualOp(a: Value, b: Value, env: Env) {
    if b.VStr? then env.fullMatch(b.s, Show(a, env)).Some? else PyEq(a, b)
  }

  /** `operator.contains(b, a)`: substring for strings, membership for sets. */
  function ContainsOp(b: Value, a: Value): Result<bool> {
    match b
    case VStr(s) => if a.VStr? then Ok(Contains(s, a.s)) else Err(TypeError("'in <string>' requires string"))
    case VSet(xs) => Ok(a.VStr? && a.s in xs)
    case _ => Err(TypeError("argument is not iterable"))
  }

  function ApplyOp(op: Op, a: Value, b: Value, env: Env): (r: Result<bool>)
    ensures op == OpEq ==> r == Ok(EqualOp(a, b, env))
    ensures op == OpNe ==> r == Ok(!EqualOp(a, b, env))
    ensures op == OpIn ==> r == ContainsOp(b, a)
  {
    match op
    case OpEq => Ok(EqualOp(a, b, env))
    case OpNe => Ok(!EqualOp(a, b, env))
    case OpGt => PyLt(b, a)
    case OpLt => PyLt(a, b)
    case OpGe => PyLe(b, a)
    case OpLe => PyLe(a, b)
    case OpIn => ContainsOp(b, a)
  }

  /** `matcher(fact, used)`: the left side first, then a callable right side, then the operator. */
  function Matches(m: Matcher, f: Fact, used: seq<Fact>, env: Env): (r: Result<bool>)
    ensures m.rhs.Const? && Eval(m.lhs, f, used).Ok? ==>
      r == ApplyOp(m.op, Eval(m.lhs, f, used).value, m.rhs.v, env)
    ensures Eval(m.lhs, f, used).Err? ==> r == Err(Eval(m.lhs, f, used).error)
  {
    var a :- Eval(m.lhs, f, used);
    var b :- if m.rhs.Const? then Ok(m.rhs.v) else Eval(m.rhs.e, f, used);
    ApplyOp(m.op, a, b, env)
  }

  /** Python `all(matcher(...) for matcher in ms)`: stops at the first false or the first exception. */
  function AllMatch(ms: seq<Matcher>, f: Fact, used: seq<Fact>, env: Env): Result<bool> {
    if ms == [] then Ok(true)
    else match Matches(ms[0], f, used, env)
      case Err(e) => Err(e)
      case Ok(b) => if !b then Ok(false) else AllMatch(ms[1..], f, used, env)
  }

  /** All matchers pass exactly when each of them returns true. */
  lemma {:induction false} AllMatchMeaning(ms: seq<Matcher>, f: Fact, used: seq<Fact>, env: Env)
    ensures AllMatch(ms, f, used, env) == Ok(true) <==> forall i :: 0 <= i < |ms| ==> Matches(ms[i], f, used, env) == Ok(true)
  {
    if ms != [] {
      AllMatchMeaning(ms[1..], f, used, env);
      assert forall i :: 1 <= i < |ms| ==> ms[i] == ms[1..][i - 1];
    }
  }

  // ---------------------------------------------------------------- check and fill

  /** What `check` computes: the used facts ([] on failure) and the components after binding. */
  datatype Outcome = Outcome(used: seq<Fact>, components: seq<Component>)

  /** Binding the `fact` of the Slot components at the rule's indices; IndexError past the end. */
  function Bind(cs: seq<Component>, idxs: seq<int>, f: Fact): (r: Result<seq<Component>>)
    ensures r.Ok? <==> forall k :: 0 <= k < |idxs| ==> -|cs| <= idxs[k] < |cs|
    ensures r.Err? ==> r.error == IndexError
    ensures r.Ok? ==> |r.value| == |cs|
    ensures r.Ok? ==> forall i :: 0 <= i < |cs| ==> r.value[i] == Bound(cs, idxs, f, i)
    decreases |idxs|
  {
    if idxs == [] then Ok(cs)
    else if !(-|cs| <= idxs[0] < |cs|) then Err(IndexError)
    else
      var i := if idxs[0] < 0 then idxs[0] + |cs| else idxs[0];
      var cs' := if cs[i].Slot? then cs[i := cs[i].(fact := Some(f))] else cs;
      var r := Bind(cs', idxs[1..], f);
      BindStep(cs, idxs, f, i, cs', r);
      r
  }

  /** The component at position i once the rule's indices are bound. */
  function Bound(cs: seq<Component>, idxs: seq<int>, f: Fact, i: nat): Component
    requires i < |cs|
  {
    if cs[i].Slot? && (i in idxs || i - |cs| in idxs) then cs[i].(fact := Some(f)) else cs[i]
  }

  lemma BindStep(cs: seq<Component>, idxs: seq<int>, f: Fact, i: nat, cs': seq<Component>, r: Result<seq<Component>>)
    requires idxs != [] && -|cs| <= idxs[0] < |cs| && i == (if idxs[0] < 0 then idxs[0] + |cs| else idxs[0])
    requires cs' == if cs[i].Slot? then cs[i := cs[i].(fact := Some(f))] else cs
    requires r.Ok? <==> forall k :: 0 <= k < |idxs[1..]| ==> -|cs'| <= idxs[1..][k] < |cs'|
    requires r.Ok? ==> |r.value| == |cs'| && forall q :: 0 <= q < |cs'| ==> r.value[q] == Bound(cs', idxs[1..], f, q)
    ensures r.Ok? <==> forall k :: 0 <= k < |idxs| ==> -|cs| <= idxs[k] < |cs|
    ensures r.Ok? ==> |r.value| == |cs| && forall q :: 0 <= q < |cs| ==> r.value[q] == Bound(cs, idxs, f, q)
  {
    assert forall k :: 1 <= k < |idxs| ==> idxs[k] == idxs[1..][k - 1];
    if r.Ok? {
      forall q | 0 <= q < |cs| ensures r.value[q] == Bound(cs, idxs, f, q) {
        assert q in idxs <==> q == idxs[0] || q in idxs[1..];
        assert q - |cs| in idxs <==> q - |cs| == idxs[0] || q - |cs| in idxs[1..];
      }
    }
  }

  /** The first message, in list order, whose main fact satisfies all of the rule's matchers. */
  function FirstMatching(all: seq<Message>, ms: seq<Matcher>, used: seq<Fact>, env: Env): (r: Result<Option<nat>>)
    ensures r.Ok? && r.value.Some? ==> r.value.value < |all|
  {
    if all == [] then Ok(None)
    else match AllMatch(ms, all[0].mainFact, used, env)
      case Err(e) => Err(e)
      case Ok(b) =>
        if b then Ok(Some(0))
        else
          var r :- FirstMatching(all[1..], ms, used, env);
          Ok(if r.Some? then Some(r.value + 1) else None)
  }

  /** The search returns the least index whose main fact passes, or None when every one fails. */
  lemma {:induction false} FirstMatchingMeaning(all: seq<Message>, ms: seq<Matcher>, used: seq<Fact>, env: Env)
    ensures FirstMatching(all, ms, used, env).Ok? && FirstMatching(all, ms, used, env).value.Some? ==>
      FirstMatchedAt(all, ms, used, env, FirstMatching(all, ms, used, env).value.value)
    ensures FirstMatching(all, ms, used, env) == Ok(None) <==>
      forall j :: 0 <= j < |all| ==> AllMatch(ms, all[j].mainFact, used, env) == Ok(false)
  {
    if all != [] {
      var a := AllMatch(ms, all[0].mainFact, used, env);
      var r1 := FirstMatching(all[1..], ms, used, env);
      hide AllMatch;
      FirstMatchingMeaning(all[1..], ms, used, env);
      assert forall j :: 1 <= j < |all| ==> all[j] == all[1..][j - 1];
      if a == Ok(false) && r1.Ok? && r1.value.Some? {
        FirstMatchedShift(all, ms, used, env, r1.value.value);
      }
    }
  }

  /** Message k is the first whose main fact passes every matcher. */
  predicate FirstMatchedAt(all: seq<Message>, ms: seq<Matcher>, used: seq<Fact>, env: Env, k: nat) {
    k < |all| && AllMatch(ms, all[k].mainFact, used, env) == Ok(true)
    && forall j :: 0 <= j < k ==> AllMatch(ms, all[j].mainFact, used, env) == Ok(false)
  }

  lemma FirstMatchedShift(all: seq<Message>, ms: seq<Matcher>, used: seq<Fact>, env: Env, k: nat)
    requires all != [] && AllMatch(ms, all[0].mainFact, used, env) == Ok(false) && FirstMatchedAt(all[1..], ms, used, env, k)
    ensures FirstMatchedAt(all, ms, used, env, k + 1)
  {
    assert forall j :: 1 <= j < |all| ==> all[j] == all[1..][j - 1];
  }

  /** The rules after the first, in order: each one takes the first matching message. */
  function CheckRest(rules: seq<Rule>, all: seq<Message>, used: seq<Fact>, cs: seq<Component>, fill: bool, env: Env)
    : Result<Outcome>
    decreases |rules|
  {
    if rules == [] then Ok(Outcome(used, cs))
    else
      var k :- FirstMatching(all, rules[0].matchers, used, env);
      match k
      case None => Ok(Outcome([], cs))
      case Some(j) =>
        var f := all[j].mainFact;
        var cs' :- if fill then Bind(cs, rules[0].slots, f) else Ok(cs);
        CheckRest(rules[1..], all, if f in used then used else used + [f], cs', fill, env)
  }

  /** `Template.check(primary, all, fill_slots)`. No rules at all raises IndexError. */
  function CheckTemplate(t: Template, primary: Message, all: seq<Message>, fill: bool, env: Env): Result<Outcome> {
    if t.rules == [] then Err(IndexError)
    else
      var ok :- AllMatch(t.rules[0].matchers, primary.mainFact, [], env);
      if !ok then Ok(Outcome([], t.components))
      else
        var cs :- if fill then Bind(t.components, t.rules[0].slots, primary.mainFact) else Ok(t.components);
        CheckRest(t.rules[1..], all, [primary.mainFact], cs, fill, env)
  }

  /** The facts `check` promises on success: the primary fact first, no repeats, and each other
      fact the main fact of some message of `all`. */
  predicate GoodUsed(used: seq<Fact>, primary: Fact, all: seq<Message>) {
    used != [] && used[0] == primary &&
    (forall i, j :: 0 <= i < j < |used| ==> used[i] != used[j]) &&
    (forall i :: 1 <= i < |used| ==> exists m :: m in all && m.mainFact == used[i])
  }

  lemma {:induction false} CheckRestUsed(rules: seq<Rule>, all: seq<Message>, used: seq<Fact>, cs: seq<Component>,
                                         fill: bool, env: Env, primary: Fact)
    requires GoodUsed(used, primary, all)
    requires CheckRest(rules, all, used, cs, fill, env).Ok?
    ensures var o := CheckRest(rules, all, used, cs, fill, env).value;
      o.used == [] || (GoodUsed(o.used, primary, all) && used <= o.used && |o.used| <= |used| + |rules|)
    decreases |rules|
  {
    if rules != [] {
      var k := FirstMatching(all, rules[0].matchers, used, env).value;
      if k.Some? {
        var f := all[k.value].mainFact;
        var cs' := (if fill then Bind(cs, rules[0].slots, f) else Ok(cs)).value;
        var used' := if f in used then used else used + [f];
        hide CheckRest, GoodUsed, FirstMatching, Bind;
        UsedStep(used, primary, all, all[k.value]);
        CheckRestUsed(rules[1..], all, used', cs', fill, env, primary);
      }
    }
  }

  /** Adding the main fact of a message of `all` keeps the used facts well made, and grows them by at most one. */
  lemma UsedStep(used: seq<Fact>, primary: Fact, all: seq<Message>, m: Message)
    requires GoodUsed(used, primary, all) && m in all
    ensures var used' := if m.mainFact in used then used else used + [m.mainFact];
      GoodUsed(used', primary, all) && used <= used' && |used'| <= |used| + 1
  {
    if m.mainFact !in used {
      var used' := used + [m.mainFact];
      assert forall i :: 0 <= i < |used| ==> used'[i] == used[i];
    }
  }

  /** On success, `check` returns the primary fact first, no duplicates, at most one new fact per rule,
      each from the main facts of `all`; on failure it returns []. */
  lemma CheckResult(t: Template, primary: Message, all: seq<Message>, fill: bool, env: Env)
    requires CheckTemplate(t, primary, all, fill, env).Ok?
    ensures var o := CheckTemplate(t, primary, all, fill, env).value;
      o.used == [] || (GoodUsed(o.used, primary.mainFact, all) && |o.used| <= |t.rules|)
  {
    var ok := AllMatch(t.rules[0].matchers, primary.mainFact, [], env).value;
    if ok {
      var cs := (if fill then Bind(t.components, t.rules[0].slots, primary.mainFact) else Ok(t.components)).value;
      CheckRestUsed(t.rules[1..], all, [primary.mainFact], cs, fill, env, primary.mainFact);
    }
  }

  /** A first-rule matcher failing on the primary fact makes `check` return []. */
  lemma CheckFirstRuleFails(t: Template, primary: Message, all: seq<Message>, fill: bool, env: Env)
    requires t.rules != []
    requires exists i :: 0 <= i < |t.rules[0].matchers| && Matches(t.rules[0].matchers[i], primary.mainFact, [], env) == Ok(false)
    requires forall i :: 0 <= i < |t.rules[0].matchers| ==> Matches(t.rules[0].matchers[i], primary.mainFact, [], env).Ok?
    ensures CheckTemplate(t, primary, all, fill, env) == Ok(Outcome([], t.components))
  {
    FirstFalse(t.rules[0].matchers, primary.mainFact, [], env);
  }

  lemma {:induction false} FirstFalse(ms: seq<Matcher>, f: Fact, used: seq<Fact>, env: Env)
    requires exists i :: 0 <= i < |ms| && Matches(ms[i], f, used, env) == Ok(false)
    requires forall i :: 0 <= i < |ms| ==> Matches(ms[i], f, used, env).Ok?
    ensures AllMatch(ms, f, used, env) == Ok(false)
  {
    if Matches(ms[0], f, used, env) == Ok(true) {
      var i :| 0 <= i < |ms| && Matches(ms[i], f, used, env) == Ok(false);
      assert ms[1..][i - 1] == ms[i];
      FirstFalse(ms[1..], f, used, env);
    }
  }

  /** A later rule that no message's main fact satisfies makes `check` return []. */
  lemma CheckRestNoMatch(rules: seq<Rule>, all: seq<Message>, used: seq<Fact>, cs: seq<Component>, fill: bool, env: Env)
    requires rules != []
    requires forall j :: 0 <= j < |all| ==> AllMatch(rules[0].matchers, all[j].mainFact, used, env) == Ok(false)
    ensures CheckRest(rules, all, used, cs, fill, env) == Ok(Outcome([], cs))
  {
    FirstMatchingMeaning(all, rules[0].matchers, used, env);
  }

  /** Checking never touches the components; filling finds the same facts as checking. */
  lemma {:induction false} CheckRestFill(rules: seq<Rule>, all: seq<Message>, used: seq<Fact>, cs: seq<Component>,
                                         cs0: seq<Component>, env: Env)
    requires CheckRest(rules, all, used, cs, true, env).Ok?
    ensures CheckRest(rules, all, used, cs0, false, env) ==
            Ok(Outcome(CheckRest(rules, all, used, cs, true, env).value.used, cs0))
    decreases |rules|
  {
    if rules != [] {
      var k := FirstMatching(all, rules[0].matchers, used, env).value;
      if k.Some? {
        var f := all[k.value].mainFact;
        var cs' := Bind(cs, rules[0].slots, f).value;
        CheckRestFill(rules[1..], all, if f in used then used else used + [f], cs', cs0, env);
      }
    }
  }

  lemma CheckAgreesWithFill(t: Template, primary: Message, all: seq<Message>, env: Env)
    requires CheckTemplate(t, primary, all, true, env).Ok?
    ensures CheckTemplate(t, primary, all, false, env) == Ok(Outcome(CheckTemplate(t, primary, all, true, env).value.used, t.components))
  {
    var ok := AllMatch(t.rules[0].matchers, primary.mainFact, [], env).value;
    if ok {
      var cs := Bind(t.components, t.rules[0].slots, primary.mainFact).value;
      CheckRestFill(t.rules[1..], all, [primary.mainFact], cs, t.components, env);
    }
  }

  /** `fill` with its state: the template after `check(fill_slots=True)`. The used facts are stored
      only when every rule found a message. */
  function Fill(t: Template, primary: Message, all: seq<Message>, env: Env): Result<(Template, seq<Fact>)> {
    var o :- CheckTemplate(t, primary, all, true, env);
    Ok((t.(components := o.components, facts := if o.used != [] then o.used else t.facts), o.used))
  }

  /** A template instance whose methods update it in place, as Python's Template does. */
  class TemplateObject {
    var components: seq<Component>
    var rules: seq<Rule>
    var facts: seq<Fact>

    function Value(): Template
      reads this
    {
      Template(components, rules, facts)
    }

    constructor (t: Template)
      ensures Value() == t
    {
      components := t.components;
      rules := t.rules;
      facts := t.facts;
    }

    /** `check(primary, all, fill_slots)`: the loops over rules and messages, binding slots in place when filling. */
    method Check(primary: Message, all: seq<Message>, fillSlots: bool, env: Env) returns (r: Result<seq<Fact>>)
      modifies this
      ensures rules == old(rules)
      ensures var spec := CheckTemplate(old(Value()), primary, all, fillSlots, env);
        (spec.Ok? <==> r.Ok?) && (spec.Err? ==> r.error == spec.error) &&
        (spec.Ok? ==> r.value == spec.value.used && components == spec.value.components &&
                      facts == if fillSlots && spec.value.used != [] then spec.value.used else old(facts))
    {
      if |rules| == 0 {
        return Err(IndexError);
      }
      var primaryFact := primary.mainFact;
      var used: seq<Fact> := [];
      var ok := AllMatch(rules[0].matchers, primaryFact, used, env);
      if ok.Err? {
        return Err(ok.error);
      }
      if !ok.value {
        return Ok([]);
      }
      ghost var spec := CheckTemplate(old(Value()), primary, all, fillSlots, env);
      CheckTemplateUnfold(old(Value()), primary, all, fillSlots, env);
      if fillSlots {
        var b := BindInPlace(rules[0].slots, primaryFact);
        if b.Err? { return Err(b.error); }
      }
      used := used + [primaryFact];
      assert used == [primaryFact] && rules[1..] == old(Value()).rules[1..];
      assert !fillSlots ==> components == old(Value()).components;
      var rest := CheckLaterRules(all, used, fillSlots, env);
      if rest.Err? {
        return rest;
      }
      if fillSlots && rest.value != [] {
        facts := rest.value;
      }
      return rest;
    }

    /** The loop over the rules after the first: each takes the first message that satisfies it. */
    method CheckLaterRules(all: seq<Message>, used0: seq<Fact>, fillSlots: bool, env: Env) returns (r: Result<seq<Fact>>)
      requires rules != []
      modifies this
      ensures rules == old(rules) && facts == old(facts)
      ensures var spec := CheckRest(old(rules)[1..], all, used0, old(components), fillSlots, env);
        (spec.Ok? <==> r.Ok?) && (spec.Err? ==> r.error == spec.error) &&
        (spec.Ok? ==> r.value == spec.value.used && components == spec.value.components)
    {
      ghost var spec := CheckRest(old(rules)[1..], all, used0, old(components), fillSlots, env);
      var used := used0;
      var k := 1;
      while k < |rules|
        invariant 1 <= k <= |rules| && rules == old(rules) && facts == old(facts)
        invariant spec == CheckRest(rules[k..], all, used, components, fillSlots, env)
      {
        CheckRestAt(rules, k, all, used, components, fillSlots, env);
        var first := FindFirst(all, rules[k].matchers, used, env);
        if first.Err? {
          return Err(first.error);
        }
        if first.value.None? {
          return Ok([]);
        }
        var found := first.value.value;
        var f := all[found].mainFact;
        if fillSlots {
          var b := BindInPlace(rules[k].slots, f);
          if b.Err? { return Err(b.error); }
        }
        if f !in used {
          used := used + [f];
        }
        k := k + 1;
      }
      CheckRestEnd(used, components, all, fillSlots, env);
      return Ok(used);
    }

    /** The inner loop over the candidate messages of one rule. */
    static method FindFirst(all: seq<Message>, ms: seq<Matcher>, used: seq<Fact>, env: Env) returns (r: Result<Option<nat>>)
      ensures r == FirstMatching(all, ms, used, env)
    {
      var j := 0;
      while j < |all|
        invariant 0 <= j <= |all|
        invariant FirstMatching(all, ms, used, env) == Shifted(FirstMatching(all[j..], ms, used, env), j)
      {
        FirstMatchingAt(all, j, ms, used, env);
        var m := AllMatch(ms, all[j].mainFact, used, env);
        if m.Err? {
          return Err(m.error);
        }
        if m.value {
          return Ok(Some(j));
        }
        j := j + 1;
      }
      return Ok(None);
    }

    /** The inner assignment loop `component.fact = fact` over one rule's slot indices. */
    method BindInPlace(idxs: seq<int>, f: Fact) returns (r: Result<()>)
      modifies this
      ensures rules == old(rules) && facts == old(facts)
      ensures var spec := Bind(old(components), idxs, f);
        (spec.Ok? <==> r.Ok?) && (spec.Err? ==> r == Err(IndexError)) && (spec.Ok? ==> components == spec.value)
    {
      var n := 0;
      while n < |idxs|
        invariant 0 <= n <= |idxs| && rules == old(rules) && facts == old(facts) && |components| == |old(components)|
        invariant Bind(old(components), idxs, f) == Bind(components, idxs[n..], f)
      {
        if !(-|components| <= idxs[n] < |components|) {
          return Err(IndexError);
        }
        var i := if idxs[n] < 0 then idxs[n] + |components| else idxs[n];
        if components[i].Slot? {
          components := components[i := components[i].(fact := Some(f))];
        }
        assert idxs[n..][1..] == idxs[n + 1..];
        n := n + 1;
      }
      return Ok(());
    }

    /** `add_slot(idx, slot)`: inserted at idx when idx is below the length, else appended. */
    method AddSlot(idx: int, slot: Component)
      modifies this
      ensures rules == old(rules) && facts == old(facts)
      ensures components == if idx < |old(components)| then PyInsert(old(components), idx, slot)
                            else old(components) + [slot]
    {
      if idx < |components| {
        components := PyInsert(components, idx, slot);
      } else {
        components := components + [slot];
      }
    }

    /** `move_slot(from, to)`: pop at `from` and insert at `to`; IndexError when `from` is out of range. */
    method MoveSlot(from: int, to: int) returns (r: Result<()>)
      modifies this
      ensures rules == old(rules) && facts == old(facts)
      ensures r.Ok? <==> -|old(components)| <= from < |old(components)|
      ensures r.Ok? ==> var i := if from < 0 then from + |old(components)| else from;
        components == PyInsert(old(components)[..i] + old(components)[i + 1..], to, old(components)[i])
      ensures r.Err? ==> components == old(components)
    {
      if !(-|components| <= from < |components|) {
        return Err(IndexError);
      }
      var i := if from < 0 then from + |components| else from;
      var c := components[i];
      components := PyInsert(components[..i] + components[i + 1..], to, c);
      return Ok(());
    }
  }

  /** A search result over a suffix, seen from the whole list. */
  function Shifted(r: Result<Option<nat>>, j: nat): Result<Option<nat>> {
    if r.Ok? && r.value.Some? then Ok(Some(r.value.value + j)) else r
  }

  /** One step of the search from position `j`. */
  lemma FirstMatchingAt(all: seq<Message>, j: nat, ms: seq<Matcher>, used: seq<Fact>, env: Env)
    requires j < |all|
    ensures var m := AllMatch(ms, all[j].mainFact, used, env);
      Shifted(FirstMatching(all[j..], ms, used, env), j) ==
        if m.Err? then Err(m.error)
        else if m.value then Ok(Some(j))
        else Shifted(FirstMatching(all[j + 1..], ms, used, env), j + 1)
  {
    hide AllMatch;
    assert all[j..][0] == all[j];
    assert all[j..][1..] == all[j + 1..];
    var m := AllMatch(ms, all[j].mainFact, used, env);
    var tail := FirstMatching(all[j + 1..], ms, used, env);
    assert FirstMatching(all[j..], ms, used, env) ==
      if m.Err? then Err(m.error) else if m.value then Ok(Some(0))
      else if tail.Err? then tail else Ok(if tail.value.Some? then Some(tail.value.value + 1) else None);
  }

  lemma CheckTemplateUnfold(t: Template, primary: Message, all: seq<Message>, fill: bool, env: Env)
    requires t.rules != [] && AllMatch(t.rules[0].matchers, primary.mainFact, [], env) == Ok(true)
    ensures var b := if fill then Bind(t.components, t.rules[0].slots, primary.mainFact) else Ok(t.components);
      CheckTemplate(t, primary, all, fill, env) ==
        if b.Err? then Err(b.error) else CheckRest(t.rules[1..], all, [primary.mainFact], b.value, fill, env)
  {
  }

  /** One round of the loop over the later rules, from rule `k` on. */
  lemma CheckRestAt(rules: seq<Rule>, k: nat, all: seq<Message>, used: seq<Fact>, cs: seq<Component>, fill: bool, env: Env)
    requires k < |rules|
    ensures var fm := FirstMatching(all, rules[k].matchers, used, env);
      CheckRest(rules[k..], all, used, cs, fill, env) ==
        if fm.Err? then Err(fm.error)
        else if fm.value.None? then Ok(Outcome([], cs))
        else
          var f := all[fm.value.value].mainFact;
          var b := if fill then Bind(cs, rules[k].slots, f) else Ok(cs);
          if b.Err? then Err(b.error) else CheckRest(rules[k + 1..], all, if f in used then used else used + [f], b.value, fill, env)
  {
    assert rules[k..][0] == rules[k] && rules[k..][1..] == rules[k + 1..];
  }

  lemma CheckRestEnd(used: seq<Fact>, cs: seq<Component>, all: seq<Message>, fill: bool, env: Env)
    ensures CheckRest([], all, used, cs, fill, env) == Ok(Outcome(used, cs))
  {
  }

  /** Python's `list.insert(i, x)`: a negative index counts from the end, and the index is clamped. */
  function PyInsert<T>(s: seq<T>, i: int, x: T): (r: seq<T>)
    ensures |r| == |s| + 1 && x in r
    ensures var k := if i < 0 then (if i + |s| < 0 then 0 else i + |s|) else (if i > |s| then |s| else i);
      r == s[..k] + [x] + s[k..]
  {
    var k := if i < 0 then (if i + |s| < 0 then 0 else i + |s|) else (if i > |s| then |s| else i);
    s[..k] + [x] + s[k..]
  }

  // ---------------------------------------------------------------- document plans

  datatype Relation = Elaboration | Exemplification | Contrast | Sequence | ListRelation

  /** A document plan: inner nodes joined by a relation, with messages at the leaves. */
  datatype Plan = Node(children: seq<Plan>, relation: Relation) | Leaf(message: Message)

  /** The components a message's template holds (`Message.children`): none without a template. */
  function ChildrenOf(m: Message): seq<Component> {
    if m.template.None? then [] else m.template.value.components
  }

  /** `Document.messages()`: the messages of the plan in document order. */
  function Messages(p: Plan): seq<Message>
    decreases p, 1
  {
    match p
    case Leaf(m) => [m]
    case Node(cs, _) => MessagesOf(p, cs)
  }

  function MessagesOf(whole: Plan, cs: seq<Plan>): seq<Message>
    requires forall i :: 0 <= i < |cs| ==> cs[i] < whole
    decreases whole, 0, |cs|
  {
    if cs == [] then [] else Messages(cs[0]) + MessagesOf(whole, cs[1..])
  }

  /** The messages of a list of plans, in order. */
  function Flat(cs: seq<Plan>): seq<Message> {
    MessagesOf(Node(cs, Sequence), cs)
  }

  lemma {:induction false} MessagesOfWhole(w1: Plan, w2: Plan, cs: seq<Plan>)
    requires forall i :: 0 <= i < |cs| ==> cs[i] < w1 && cs[i] < w2
    ensures MessagesOf(w1, cs) == MessagesOf(w2, cs)
  {
    if cs != [] {
      MessagesOfWhole(w1, w2, cs[1..]);
    }
  }

  lemma FlatCons(x: Plan, rest: seq<Plan>)
    ensures Flat([x] + rest) == Messages(x) + Flat(rest)
  {
    assert ([x] + rest)[0] == x && ([x] + rest)[1..] == rest;
    MessagesOfWhole(Node([x] + rest, Sequence), Node(rest, Sequence), rest);
  }
}

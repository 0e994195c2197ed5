/** Number realisation (`eu_number_realizer.py`): slots marked with a truthy "ord" attribute get
    their value written as an ordinal of the language. */
module NumberRealizer {
  import opened Wrappers
  import opened Text
  import opened Models

  /** The realizer kinds of the EU generator. */
  datatype NumberWords =
    | CardinalDictionary(dictionary: map<string, string>)
    | FinnishOrdinal
    | EnglishOrdinal
    | CroatianOrdinal

  const FinnishCardinals: map<string, string> := map[
    "1" := "yksi", "2" := "kaksi", "3" := "kolme", "4" := "neljä", "5" := "viisi", "6" := "kuusi",
    "7" := "seitsemän", "8" := "kahdeksan", "9" := "yhdeksän", "10" := "kymmenen"]

  const FinnishSmallOrdinals: map<string, string> := map[
    "1" := "ensimmäinen", "2" := "toinen", "3" := "kolmas", "4" := "neljäs", "5" := "viides",
    "6" := "kuudes", "7" := "seitsemäs", "8" := "kahdeksas", "9" := "yhdeksäs", "10" := "kymmenes"]

  const EnglishCardinals: map<string, string> := map[
    "1" := "one", "2" := "two", "3" := "three", "4" := "four", "5" := "five", "6" := "six",
    "7" := "seven", "8" := "eight", "9" := "nine", "10" := "ten"]

  const EnglishSmallOrdinals: map<string, string> := map[
    "1" := "first", "2" := "second", "3" := "third", "4" := "fourth", "5" := "fifth", "6" := "sixth",
    "7" := "seventh", "8" := "eighth", "9" := "ninth", "10" := "tenth", "11" := "eleventh",
    "12" := "twelfth"]

  const GermanCardinals: map<string, string> := map[
    "1" := "eins", "2" := "zwei", "3" := "drei", "4" := "vier", "5" := "fünf", "6" := "sechs",
    "7" := "sieben", "8" := "acht", "9" := "neun", "10" := "zehn", "11" := "elf", "12" := "zwölf"]

  /** The realizers by language and kind ("car" or "ord"). */
  const EuNumberRealizers: map<string, map<string, NumberWords>> := map[
    "fi" := map["car" := CardinalDictionary(FinnishCardinals), "ord" := FinnishOrdinal],
    "en" := map["car" := CardinalDictionary(EnglishCardinals), "ord" := EnglishOrdinal],
    "hr" := map["ord" := CroatianOrdinal],
    "de" := map["car" := CardinalDictionary(GermanCardinals)]]

  /** A dict lookup keyed by `slot.value`, its default already computed: only a string value can
      equal a string key, and a set cannot be hashed (TypeError). */
  function TableGet(table: map<string, string>, v: Value, default: string): (r: Result<string>)
    ensures r.Err? <==> v.VSet?
    ensures r.Err? ==> r.error.TypeError?
    ensures r.Ok? ==> r.value == if v.VStr? && v.s in table then table[v.s] else default
  {
    if v.VSet? then Err(TypeError("unhashable type: 'set'"))
    else Ok(if v.VStr? && v.s in table then table[v.s] else default)
  }

  /** `DictionaryRealizer.realize`: the table entry for `str(value)`, or `str(value)` itself. */
  function Cardinal(dictionary: map<string, string>, v: Value, env: Env): (r: string)
    ensures Show(v, env) in dictionary ==> r == dictionary[Show(v, env)]
    ensures Show(v, env) !in dictionary ==> r == Show(v, env)
  {
    var s := Show(v, env);
    if s in dictionary then dictionary[s] else s
  }

  /** `_get_suffix`: "th" for a value equal to 11, 12 or 13 (numbers only), otherwise by the last
      character of `str(value)`. An empty string raises at `[-1]`. */
  function EnglishSuffix(v: Value, env: Env): (r: Result<string>)
    ensures r.Err? <==> (!(PyEq(v, VInt(11)) || PyEq(v, VInt(12)) || PyEq(v, VInt(13))) && Show(v, env) == [])
  {
    if PyEq(v, VInt(11)) || PyEq(v, VInt(12)) || PyEq(v, VInt(13)) then Ok("th")
    else
      var s := Show(v, env);
      if s == [] then Err(IndexError)
      else if s[|s| - 1] == '1' then Ok("st")
      else if s[|s| - 1] == '2' then Ok("nd")
      else if s[|s| - 1] == '3' then Ok("rd")
      else Ok("th")
  }

  /** `EnglishOrdinalRealizer.realize`: "1" becomes nothing; otherwise the small-ordinal entry, or
      the number with its suffix. The suffix is computed first, as the lookup's default argument. */
  function English(v: Value, env: Env): Result<string> {
    if Show(v, env) == "1" then Ok("")
    else
      var suffix :- EnglishSuffix(v, env);
      TableGet(EnglishSmallOrdinals, v, Show(v, env) + suffix)
  }

  /** `realize` of each kind. */
  function RealizeWith(w: NumberWords, v: Value, env: Env): Result<string> {
    match w
    case CardinalDictionary(d) => Ok(Cardinal(d, v, env))
    case FinnishOrdinal => TableGet(FinnishSmallOrdinals, v, Show(v, env) + ".")
    case EnglishOrdinal => English(v, env)
    case CroatianOrdinal => Ok(Show(v, env) + ".")
  }

  /** The last digit of a number as it is printed. */
  lemma LastDigit(i: int)
    ensures var s := IntToString(i); s[|s| - 1] == DigitChar((if i < 0 then -i else i) % 10)
  {
  }

  /** An English ordinal of an integer other than 1: its digits and the suffix, "th" for 11, 12 and
      13 and otherwise by the last digit. */
  lemma EnglishOfInt(i: int, env: Env)
    requires i != 1
    ensures var n := if i < 0 then -i else i;
      English(VInt(i), env) == Ok(IntToString(i) +
        if i in {11, 12, 13} then "th"
        else if n % 10 == 1 then "st" else if n % 10 == 2 then "nd" else if n % 10 == 3 then "rd" else "th")
  {
    hide English, EnglishSuffix, TableGet, Show, IntToString;
    LastDigit(i);
    IntNotOne(i);
    IntSuffix(i, env);
  }

  /** Only 1 is printed as "1". */
  lemma IntNotOne(i: int)
    requires i != 1
    ensures IntToString(i) != "1"
  {
    ParseIntOfInt(i);
    ParseIntOfInt(1);
    assert IntToString(1) == "1";
  }

  /** `English` of an integer not printed as "1": the number and its suffix, no table entry. */
  lemma IntSuffix(i: int, env: Env)
    requires IntToString(i) != "1"
    ensures var s := IntToString(i);
      English(VInt(i), env) == Ok(s +
        if i in {11, 12, 13} then "th"
        else if s[|s| - 1] == '1' then "st" else if s[|s| - 1] == '2' then "nd" else if s[|s| - 1] == '3' then "rd" else "th")
  {
  }

  /** A string value from the table reads as its word; "1" reads as nothing. */
  lemma EnglishOfString(s: string, env: Env)
    requires s in EnglishSmallOrdinals
    ensures English(VStr(s), env) == Ok(if s == "1" then "" else EnglishSmallOrdinals[s])
  {
  }

  /** A set value in English: the suffix is computed first, from its printed form, so an empty
      form raises IndexError; otherwise the lookup cannot hash the set and raises TypeError. */
  lemma EnglishOfSet(items: set<string>, env: Env)
    requires Show(VSet(items), env) != "1"
    ensures English(VSet(items), env) ==
      if Show(VSet(items), env) == [] then Err(IndexError) else Err(TypeError("unhashable type: 'set'"))
  {
  }

  /** The string "13" is no number for the 11-to-13 test, so it gets the suffix of its last digit. */
  lemma EnglishStringThirteen(env: Env)
    ensures English(VStr("13"), env) == Ok("13rd")
    ensures English(VInt(13), env) == Ok("13th")
  {
    var s := "13";
    assert s[|s| - 1] == '3' && s != "1";
    assert s !in EnglishSmallOrdinals;
    assert !(PyEq(VStr(s), VInt(11)) || PyEq(VStr(s), VInt(12)) || PyEq(VStr(s), VInt(13)));
    assert EnglishSuffix(VStr(s), env) == Ok("rd");
    assert IntToString(13) == "13" by {
      assert NatToString(13) == NatToString(1) + [DigitChar(3)];
    }
    assert PyEq(VInt(13), VInt(13));
    assert s + "rd" == "13rd" && s + "th" == "13th";
    assert English(VStr(s), env) == Ok(s + "rd");
    assert English(VInt(13), env) == Ok(IntToString(13) + "th");
  }

  /** Finnish uses its small ordinals for the strings "1" to "10", "N." for any other hashable
      value, and raises TypeError for a set; Croatian always "N.". */
  lemma OtherOrdinals(v: Value, env: Env)
    ensures !v.VSet? ==>
      RealizeWith(FinnishOrdinal, v, env) ==
      Ok(if v.VStr? && v.s in FinnishSmallOrdinals then FinnishSmallOrdinals[v.s] else Show(v, env) + ".")
    ensures v.VSet? ==> RealizeWith(FinnishOrdinal, v, env) == Err(TypeError("unhashable type: 'set'"))
    ensures RealizeWith(CroatianOrdinal, v, env) == Ok(Show(v, env) + ".")
  {
  }

  // ---------------------------------------------------------------- the walk

  /** Whether a slot asks for an ordinal: a truthy "ord" attribute. */
  predicate WantsOrdinal(c: Component)
    requires c.Slot?
  {
    "ord" in c.attributes && Truthy(c.attributes["ord"])
  }

  /** `_recurse` on a slot: an ordinal slot with a realizer for the language gets the realised
      string as its value; every other slot stays. */
  function NumberSlot(c: Component, realizers: map<string, NumberWords>, env: Env): (r: Result<Component>)
    requires c.Slot?
    ensures !WantsOrdinal(c) || "ord" !in realizers ==> r == Ok(c)
    ensures r.Ok? ==> r.value.Slot? && r.value.attributes == c.attributes && r.value.fact == c.fact
  {
    if !WantsOrdinal(c) || "ord" !in realizers then Ok(c)
    else
      var v :- SlotValue(c);
      var s :- RealizeWith(realizers["ord"], v, env);
      Ok(c.(source := Resolved(VStr(s))))
  }

  /** An ordinal slot with a realizer: its value is what the realizer makes of the old value. */
  lemma NumberSlotMeaning(c: Component, realizers: map<string, NumberWords>, env: Env)
    requires c.Slot? && WantsOrdinal(c) && "ord" in realizers
    ensures var r := NumberSlot(c, realizers, env);
      (r.Ok? <==> (SlotValue(c).Ok? && RealizeWith(realizers["ord"], SlotValue(c).value, env).Ok?))
      && (r.Ok? ==> r.value == c.(source := Resolved(VStr(RealizeWith(realizers["ord"], SlotValue(c).value, env).value))))
  {
  }

  function NumberComponent(c: Component, realizers: map<string, NumberWords>, env: Env): Result<Component> {
    if c.Literal? then Ok(c) else NumberSlot(c, realizers, env)
  }

  /** The components of a message, each on its own. */
  function NumberComponents(cs: seq<Component>, realizers: map<string, NumberWords>, env: Env): (r: Result<seq<Component>>)
    ensures r.Ok? ==> (|r.value| == |cs|
      && forall i :: 0 <= i < |cs| ==> NumberComponent(cs[i], realizers, env) == Ok(r.value[i]))
    ensures r.Err? ==> exists i :: 0 <= i < |cs| && NumberComponent(cs[i], realizers, env).Err?
  {
    if cs == [] then Ok([])
    else
      var h :- NumberComponent(cs[0], realizers, env);
      var t :- NumberComponents(cs[1..], realizers, env);
      assert forall i :: 1 <= i < |cs| ==> cs[i] == cs[1..][i - 1];
      Ok([h] + t)
  }

  function NumberPlan(p: Plan, realizers: map<string, NumberWords>, env: Env): Result<Plan>
    decreases p, 2
  {
    match p
    case Leaf(m) =>
      if m.template.None? then Ok(p)
      else
        var cs :- NumberComponents(m.template.value.components, realizers, env);
        Ok(Leaf(m.(template := Some(m.template.value.(components := cs)))))
    case Node(_, rel) =>
      var cs :- NumberFrom(p, 0, realizers, env);
      Ok(Node(cs, rel))
  }

  function NumberFrom(p: Plan, i: nat, realizers: map<string, NumberWords>, env: Env): Result<seq<Plan>>
    requires p.Node? && i <= |p.children|
    decreases p, 1, |p.children| - i
  {
    if i == |p.children| then Ok([])
    else
      var c :- NumberPlan(p.children[i], realizers, env);
      var rest :- NumberFrom(p, i + 1, realizers, env);
      Ok([c] + rest)
  }

  /** Without an ordinal realizer (German, or a language the table lacks) the plan is unchanged. */
  lemma {:induction false} NoOrdinalsIdle(p: Plan, realizers: map<string, NumberWords>, env: Env)
    requires "ord" !in realizers
    ensures NumberPlan(p, realizers, env) == Ok(p)
    decreases p, 2
  {
    match p
    case Leaf(m) =>
      if m.template.Some? {
        var cs := m.template.value.components;
        var r := NumberComponents(cs, realizers, env);
        assert r.value == cs;
        assert m.template.value.(components := cs) == m.template.value;
      }
    case Node(cs, rel) =>
      NoOrdinalsIdleFrom(p, 0, realizers, env);
      assert cs[0..] == cs;
  }

  lemma {:induction false} NoOrdinalsIdleFrom(p: Plan, i: nat, realizers: map<string, NumberWords>, env: Env)
    requires p.Node? && i <= |p.children| && "ord" !in realizers
    ensures NumberFrom(p, i, realizers, env) == Ok(p.children[i..])
    decreases p, 1, |p.children| - i
  {
    if i < |p.children| {
      NoOrdinalsIdle(p.children[i], realizers, env);
      NoOrdinalsIdleFrom(p, i + 1, realizers, env);
      assert p.children[i..] == [p.children[i]] + p.children[i + 1..];
    }
  }

  /** The languages without an ordinal realizer. */
  lemma GermanHasNoOrdinals()
    ensures "ord" !in EuNumberRealizers["de"]
    ensures forall l :: l !in {"fi", "en", "hr", "de"} ==> l !in EuNumberRealizers
  {
  }

  method RealizeComponents(cs: seq<Component>, realizers: map<string, NumberWords>, env: Env) returns (r: Result<seq<Component>>)
    ensures r == NumberComponents(cs, realizers, env)
  {
    var out: seq<Component> := [];
    var i := 0;
    while i < |cs|
      invariant i <= |cs| && |out| == i
      invariant forall j :: 0 <= j < i ==> NumberComponent(cs[j], realizers, env) == Ok(out[j])
      decreases |cs| - i
    {
      var c := NumberComponent(cs[i], realizers, env);
      if c.Err? {
        NumberComponentsFails(cs, realizers, env, i);
        return Err(c.error);
      }
      out := out + [c.value];
      i := i + 1;
    }
    NumberComponentsAll(cs, out, realizers, env);
    r := Ok(out);
  }

  /** The first failing component decides the error. */
  lemma {:induction false} NumberComponentsFails(cs: seq<Component>, realizers: map<string, NumberWords>, env: Env, i: nat)
    requires i < |cs| && NumberComponent(cs[i], realizers, env).Err?
    requires forall j :: 0 <= j < i ==> NumberComponent(cs[j], realizers, env).Ok?
    ensures NumberComponents(cs, realizers, env) == Err(NumberComponent(cs[i], realizers, env).error)
  {
    if i > 0 {
      assert forall j :: 0 <= j < i - 1 ==> cs[1..][j] == cs[j + 1];
      NumberComponentsFails(cs[1..], realizers, env, i - 1);
    }
  }

  lemma {:induction false} NumberComponentsAll(cs: seq<Component>, out: seq<Component>, realizers: map<string, NumberWords>, env: Env)
    requires |out| == |cs| && forall j :: 0 <= j < |cs| ==> NumberComponent(cs[j], realizers, env) == Ok(out[j])
    ensures NumberComponents(cs, realizers, env) == Ok(out)
  {
    if cs != [] {
      assert forall j :: 0 <= j < |cs| - 1 ==> cs[1..][j] == cs[j + 1] && out[1..][j] == out[j + 1];
      NumberComponentsAll(cs[1..], out[1..], realizers, env);
      assert out == [out[0]] + out[1..];
    }
  }

  method Recurse(p: Plan, realizers: map<string, NumberWords>, env: Env) returns (r: Result<Plan>)
    ensures r == NumberPlan(p, realizers, env)
    decreases p, 2
  {
    NumberPlanShape(p, realizers, env);
    hide NumberPlan, NumberFrom, NumberComponents;
    if p.Leaf? {
      if p.message.template.None? {
        return Ok(p);
      }
      var cs := RealizeComponents(p.message.template.value.components, realizers, env);
      if cs.Err? {
        return Err(cs.error);
      }
      return Ok(Leaf(p.message.(template := Some(p.message.template.value.(components := cs.value)))));
    }
    var done: seq<Plan> := [];
    var i := 0;
    ghost var all := NumberFrom(p, 0, realizers, env);
    assert all.Ok? ==> [] + all.value == all.value;
    while i < |p.children|
      invariant i <= |p.children|
      invariant NumberFrom(p, 0, realizers, env) ==
        (var rest := NumberFrom(p, i, realizers, env); if rest.Err? then Err(rest.error) else Ok(done + rest.value))
      decreases |p.children| - i
    {
      NumberFromAt(p, i, realizers, env);
      var c := Recurse(p.children[i], realizers, env);
      if c.Err? {
        return Err(c.error);
      }
      ghost var rest := NumberFrom(p, i + 1, realizers, env);
      assert rest.Ok? ==> done + ([c.value] + rest.value) == (done + [c.value]) + rest.value;
      done := done + [c.value];
      i := i + 1;
    }
    NumberFromEnd(p, realizers, env);
    assert done + [] == done;
    r := Ok(Node(done, p.relation));
  }

  lemma NumberFromAt(p: Plan, i: nat, realizers: map<string, NumberWords>, env: Env)
    requires p.Node? && i < |p.children|
    ensures NumberFrom(p, i, realizers, env) ==
      (var c := NumberPlan(p.children[i], realizers, env);
       if c.Err? then Err(c.error)
       else var rest := NumberFrom(p, i + 1, realizers, env); if rest.Err? then Err(rest.error) else Ok([c.value] + rest.value))
  {
    hide NumberPlan;
  }

  lemma NumberFromEnd(p: Plan, realizers: map<string, NumberWords>, env: Env)
    requires p.Node?
    ensures NumberFrom(p, |p.children|, realizers, env) == Ok([])
  {
  }

  lemma NumberPlanShape(p: Plan, realizers: map<string, NumberWords>, env: Env)
    ensures p.Node? ==>
      NumberPlan(p, realizers, env)
      == (var cs := NumberFrom(p, 0, realizers, env); if cs.Err? then Err(cs.error) else Ok(Node(cs.value, p.relation)))
    ensures p.Leaf? && p.message.template.None? ==> NumberPlan(p, realizers, env) == Ok(p)
    ensures p.Leaf? && p.message.template.Some? ==>
      NumberPlan(p, realizers, env)
      == (var m := p.message; var cs := NumberComponents(m.template.value.components, realizers, env);
          if cs.Err? then Err(cs.error) else Ok(Leaf(m.(template := Some(m.template.value.(components := cs.value))))))
  {
    hide NumberFrom, NumberComponents;
  }

  /** `EUNumberRealizer.run`: the realizers of the language without "-head". */
  function NumberDocument(language: string, p: Plan, env: Env): Result<Plan> {
    var lang := StripHead(language);
    NumberPlan(p, if lang in EuNumberRealizers then EuNumberRealizers[lang] else map[], env)
  }

  method Run(language: string, p: Plan, env: Env) returns (r: Result<Plan>)
    ensures r == NumberDocument(language, p, env)
  {
    var lang := language;
    if EndsWith(lang, "-head") {
      lang := lang[..|lang| - 5];
    }
    r := Recurse(p, if lang in EuNumberRealizers then EuNumberRealizers[lang] else map[], env);
  }
}

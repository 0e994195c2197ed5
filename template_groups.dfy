/** Reading a template block (`read_template_group`) and a whole template file
    (`read_templates`): constraint lines, template lines with their languages, and the value
    groups defined on `$` lines. */
module TemplateGroups {
  import opened Wrappers
  import opened Text
  import opened Models
  import opened TemplateReader

  /** `RULE_PREFIX`: a fact-constraint line starts with a bar. */
  predicate IsRuleLine(line: string) {
    StartsWith(line, "|")
  }

  predicate HasRule(lines: seq<string>) {
    exists i :: 0 <= i < |lines| && IsRuleLine(lines[i])
  }

  /** The template lines of a block, in order. */
  function TemplateLinesOf(lines: seq<string>): seq<string> {
    if lines == [] then []
    else (if IsRuleLine(lines[0]) then [] else [lines[0]]) + TemplateLinesOf(lines[1..])
  }

  /** The constraint lines of a block without their bar and the whitespace after it, in order. */
  function ConstraintLinesOf(lines: seq<string>): seq<string> {
    if lines == [] then []
    else (if IsRuleLine(lines[0]) then [LStrip(lines[0][1..])] else []) + ConstraintLinesOf(lines[1..])
  }

  /** A block with a constraint line has at least one rule. */
  lemma {:induction false} ConstraintLinesNonEmpty(lines: seq<string>)
    requires HasRule(lines)
    ensures ConstraintLinesOf(lines) != []
  {
    if !IsRuleLine(lines[0]) {
      var i :| 0 <= i < |lines| && IsRuleLine(lines[i]);
      assert IsRuleLine(lines[1..][i - 1]);
      ConstraintLinesNonEmpty(lines[1..]);
    }
  }

  // Languages

  /** `lang_spec_re.match(line)` for the pattern `(\S*):\s(.*)`: the longest run of non-whitespace
      at the start must end in a colon and be followed by one whitespace character; the groups are
      the run without its colon and everything after that whitespace character. */
  function LangSpec(line: string): (r: Option<(string, string)>)
    ensures r.Some? ==> var (lang, template) := r.value;
      NoSpace(lang) && |lang| + 1 < |line| && IsSpace(line[|lang| + 1])
      && line == lang + ":" + [line[|lang| + 1]] + template
  {
    var w := WordEnd(line, 0);
    if 0 < w < |line| && line[w - 1] == ':' then
      assert NoSpace(line[..w - 1]);
      assert line == line[..w - 1] + ":" + [line[w]] + line[w + 1..];
      Some((line[..w - 1], line[w + 1..]))
    else None
  }

  /** The converse: a language, a colon and a whitespace character start a language spec. */
  lemma LangSpecOf(lang: string, c: char, template: string)
    requires NoSpace(lang) && IsSpace(c)
    ensures LangSpec(lang + ":" + [c] + template) == Some((lang, template))
  {
    var line := lang + ":" + [c] + template;
    assert line[|lang|] == ':' && line[|lang| + 1] == c;
    assert forall j :: 0 <= j < |lang| ==> line[j] == lang[j];
    assert !IsSpace(line[|lang|]);
    WordEndAt(line, 0, |lang| + 1);
    assert line[..|lang|] == lang && line[|lang| + 2..] == template;
  }

  /** A run of non-whitespace ended by whitespace is exactly what WordEnd finds. */
  lemma {:induction false} WordEndAt(s: string, i: nat, e: nat)
    requires i <= e < |s| && IsSpace(s[e]) && forall j :: i <= j < e ==> !IsSpace(s[j])
    ensures WordEnd(s, i) == e
    decreases e - i
  {
    if i < e {
      WordEndAt(s, i + 1, e);
    }
  }

  /** The language a template line is for, and the line without its language spec: a non-empty
      spec (lower-cased) becomes the current language, an empty one keeps it. */
  function LineLanguage(line: string, current: Option<string>): (r: (Option<string>, string)) {
    match LangSpec(line)
    case None => (current, line)
    case Some((lang, template)) => (if Lower(lang) != [] then Some(Lower(lang)) else current, template)
  }

  // Rules

  /** The rules of a block: the matchers of each constraint line, in order. */
  function RulesFrom(constraintLines: seq<string>, groups: map<string, set<string>>): (r: Result<seq<seq<Matcher>>>)
    ensures r.Ok? ==> |r.value| == |constraintLines|
  {
    if constraintLines == [] then Ok([])
    else
      var ms := ConstraintsFrom(constraintLines[0], groups);
      if ms.Err? then Err(ms.error)
      else
        var more := RulesFrom(constraintLines[1..], groups);
        if more.Err? then Err(more.error) else Ok([ms.value] + more.value)
  }

  /** Every rule of a block that reads is made of well-formed constraints. */
  predicate RulesWellFormed(rules: seq<seq<Matcher>>) {
    forall i, m :: 0 <= i < |rules| && m in rules[i] ==> WellFormedConstraint(m)
  }

  lemma {:induction false} RulesFromWellFormed(constraintLines: seq<string>, groups: map<string, set<string>>)
    requires RulesFrom(constraintLines, groups).Ok?
    ensures RulesWellFormed(RulesFrom(constraintLines, groups).value)
  {
    if constraintLines != [] {
      var ms := ConstraintsFrom(constraintLines[0], groups).value;
      var more := RulesFrom(constraintLines[1..], groups).value;
      var r := RulesFrom(constraintLines, groups).value;
      assert r == [ms] + more;
      ConstraintsWellFormed(constraintLines[0], groups);
      RulesFromWellFormed(constraintLines[1..], groups);
      hide RulesFrom, ConstraintsFrom;
      forall i, m | 0 <= i < |r| && m in r[i]
        ensures WellFormedConstraint(m)
      {
        if i > 0 {
          assert r[i] == more[i - 1];
        }
      }
    }
  }

  /** With no constraint lines the templates get one rule with no constraints. */
  function AtLeastOneRule(rules: seq<seq<Matcher>>): (r: seq<seq<Matcher>>)
    ensures r != [] && (rules != [] ==> r == rules)
  {
    if rules == [] then [[]] else rules
  }

  /** The `value_type` values a constraint names: a string, or the members of a value group. */
  function WhatTypeValues(rhs: Rhs): set<string> {
    if rhs.Const? && rhs.v.VStr? then {rhs.v.s}
    else if rhs.Const? && rhs.v.VSet? then rhs.v.items
    else {}
  }

  /** `seen_what_types` for one rule. A matcher's left side is the fact field it was read as, and
      among the fact fields only `value_type` contains the text "value_type". */
  function WhatTypes(ms: seq<Matcher>): set<string> {
    if ms == [] then {}
    else
      var here := if ms[0].lhs.FactField? && ms[0].lhs.field == "value_type" then WhatTypeValues(ms[0].rhs) else {};
      here + WhatTypes(ms[1..])
  }

  function RulesWhatTypes(rules: seq<seq<Matcher>>): set<string> {
    if rules == [] then {} else WhatTypes(rules[0]) + RulesWhatTypes(rules[1..])
  }

  /** A `value_type` is seen exactly when some `value_type` constraint names it. */
  lemma {:induction false} WhatTypesMeaning(ms: seq<Matcher>, s: string)
    ensures s in WhatTypes(ms) <==>
      exists i :: 0 <= i < |ms| && ms[i].lhs.FactField? && ms[i].lhs.field == "value_type" && s in WhatTypeValues(ms[i].rhs)
  {
    if ms != [] {
      WhatTypesMeaning(ms[1..], s);
      if s in WhatTypes(ms[1..]) {
        var i :| 0 <= i < |ms[1..]| && ms[1..][i].lhs.FactField? && ms[1..][i].lhs.field == "value_type" && s in WhatTypeValues(ms[1..][i].rhs);
        assert ms[i + 1] == ms[1..][i];
      }
      if exists i :: 0 <= i < |ms| && ms[i].lhs.FactField? && ms[i].lhs.field == "value_type" && s in WhatTypeValues(ms[i].rhs) {
        var i :| 0 <= i < |ms| && ms[i].lhs.FactField? && ms[i].lhs.field == "value_type" && s in WhatTypeValues(ms[i].rhs);
        if i > 0 {
          assert ms[1..][i - 1] == ms[i];
        }
      }
    }
  }

  // Templates

  /** `list(zip(rules, rule_to_slot))`. */
  function Zip(rules: seq<seq<Matcher>>, slots: seq<seq<int>>): (r: seq<Rule>)
    requires |slots| == |rules|
    ensures |r| == |rules| && forall i :: 0 <= i < |rules| ==> r[i] == Rule(rules[i], slots[i])
  {
    seq(|rules|, i requires 0 <= i < |rules| => Rule(rules[i], slots[i]))
  }

  /** The template one expanded template line makes. */
  function TemplateOf(line: string, rules: seq<seq<Matcher>>): Result<Template> {
    var p :- TemplateLine(line, |rules|);
    TemplateLineGood(line, |rules|);
    Ok(NewTemplate(p.components, Zip(rules, p.ruleSlots)))
  }

  /** `templates.setdefault(language, []).append(template)`. */
  function AddTemplate(acc: map<Option<string>, seq<Template>>, language: Option<string>, t: Template): map<Option<string>, seq<Template>> {
    acc[language := (if language in acc then acc[language] else []) + [t]]
  }

  /** The templates of the expansions of one template line, in order. */
  function AddExpansions(alts: seq<string>, rules: seq<seq<Matcher>>, language: Option<string>, acc: map<Option<string>, seq<Template>>): Result<map<Option<string>, seq<Template>>>
    decreases |alts|
  {
    if alts == [] then Ok(acc)
    else
      var t :- TemplateOf(alts[0], rules);
      AddExpansions(alts[1..], rules, language, AddTemplate(acc, language, t))
  }

  /** The loop over a block's template lines from `tlines` on: the templates per language and the
      current language after them. */
  function TemplatesFrom(tlines: seq<string>, rules: seq<seq<Matcher>>, language: Option<string>, acc: map<Option<string>, seq<Template>>): Result<(map<Option<string>, seq<Template>>, Option<string>)>
    decreases |tlines|
  {
    if tlines == [] then Ok((acc, language))
    else
      var (language1, text) := LineLanguage(tlines[0], language);
      var alts :- Expansions(text);
      var acc1 :- AddExpansions(alts, rules, language1, acc);
      TemplatesFrom(tlines[1..], rules, language1, acc1)
  }

  /** What `read_template_group` returns: two values when the block only sets the language or is
      in the old format (no constraint lines), three otherwise. */
  datatype GroupResult =
    | Pair(templates: map<Option<string>, seq<Template>>, language: Option<string>)
    | Triple(templates: map<Option<string>, seq<Template>>, language: Option<string>, whatTypes: set<string>)

  /** A block on its own line `lang:` only sets the current language. */
  predicate LanguageOnly(lines: seq<string>) {
    var (_, colon, rest) := Partition(Strip(Concat(lines)), ':');
    colon && rest == []
  }

  /** `read_template_group(spec, current_language)` with the value groups known so far. */
  function ReadGroup(spec: seq<string>, current: Option<string>, groups: map<string, set<string>>): (r: Result<GroupResult>)
    ensures r.Ok? && r.value.Pair? ==> r.value.templates == map[]
  {
    var lines :- GroupIndented(spec);
    var (langName, colon, rest) := Partition(Strip(Concat(lines)), ':');
    if colon && rest == [] then Ok(Pair(map[], Some(langName)))
    else if !HasRule(lines) then Ok(Pair(map[], current))
    else
      var rules :- RulesFrom(ConstraintLinesOf(lines), groups);
      var res :- TemplatesFrom(TemplateLinesOf(lines), AtLeastOneRule(rules), current, map[]);
      Ok(Triple(res.0, res.1, RulesWhatTypes(rules)))
  }

  /** `read_template_group`, with its loops over the constraint lines, the template lines and
      their expansions. */
  method ReadTemplateGroup(spec: seq<string>, current: Option<string>, groups: map<string, set<string>>) returns (r: Result<GroupResult>)
    ensures r == ReadGroup(spec, current, groups)
  {
    var grouped := GroupIndentedLines(spec);
    if grouped.Err? {
      return Err(grouped.error);
    }
    var lines := grouped.value;
    var (langName, colon, rest) := Partition(Strip(Concat(lines)), ':');
    if colon && rest == [] {
      return Ok(Pair(map[], Some(langName)));
    }
    if !HasRule(lines) {
      return Ok(Pair(map[], current));
    }
    var rules, seen := ParseRules(ConstraintLinesOf(lines), groups);
    if rules.Err? {
      return Err(rules.error);
    }
    var templates := ParseTemplates(TemplateLinesOf(lines), AtLeastOneRule(rules.value), current);
    if templates.Err? {
      return Err(templates.error);
    }
    return Ok(Triple(templates.value.0, templates.value.1, seen));
  }

  /** The loop over the constraint lines: the rules, and the `value_type` values they name. */
  method ParseRules(constraintLines: seq<string>, groups: map<string, set<string>>) returns (r: Result<seq<seq<Matcher>>>, seen: set<string>)
    ensures r == RulesFrom(constraintLines, groups)
    ensures r.Ok? ==> seen == RulesWhatTypes(r.value)
  {
    var rules: seq<seq<Matcher>> := [];
    seen := {};
    var i := 0;
    PrefixedNil(RulesFrom(constraintLines, groups));
    while i < |constraintLines|
      invariant 0 <= i <= |constraintLines|
      invariant RulesFrom(constraintLines, groups) == Prefixed(rules, RulesFrom(constraintLines[i..], groups))
      invariant seen == RulesWhatTypes(rules)
    {
      hide RulesFrom, ConstraintsFrom, Prefixed, RulesWhatTypes;
      var ms := ParseMatcherExpr(constraintLines[i], groups);
      RulesFromAt(constraintLines, i, groups);
      if ms.Err? {
        PrefixedErr(rules, ms.error);
        return Err(ms.error), seen;
      }
      PrefixedTwice(rules, [ms.value], RulesFrom(constraintLines[i + 1..], groups));
      RulesWhatTypesAppend(rules, ms.value);
      seen := seen + WhatTypes(ms.value);
      rules := rules + [ms.value];
      i := i + 1;
    }
    RulesFromEnd(constraintLines, rules, groups);
    return Ok(rules), seen;
  }

  lemma RulesFromEnd(cl: seq<string>, rules: seq<seq<Matcher>>, groups: map<string, set<string>>)
    requires RulesFrom(cl, groups) == Prefixed(rules, RulesFrom(cl[|cl|..], groups))
    ensures RulesFrom(cl, groups) == Ok(rules)
  {
    assert cl[|cl|..] == [];
    assert rules + [] == rules;
  }

  /** The loop over a block's template lines. */
  method ParseTemplates(templateLines: seq<string>, rules: seq<seq<Matcher>>, current: Option<string>) returns (r: Result<(map<Option<string>, seq<Template>>, Option<string>)>)
    ensures r == TemplatesFrom(templateLines, rules, current, map[])
  {
    var templates: map<Option<string>, seq<Template>> := map[];
    var language := current;
    var j := 0;
    while j < |templateLines|
      invariant 0 <= j <= |templateLines|
      invariant TemplatesFrom(templateLines, rules, current, map[]) == TemplatesFrom(templateLines[j..], rules, language, templates)
    {
      var (language1, text) := LineLanguage(templateLines[j], language);
      var alts := ExpandAlternatives(text);
      if alts.Err? {
        return Err(alts.error);
      }
      var added := AddLineTemplates(alts.value, rules, language1, templates);
      if added.Err? {
        return Err(added.error);
      }
      assert templateLines[j..][1..] == templateLines[j + 1..];
      templates := added.value;
      language := language1;
      j := j + 1;
    }
    return Ok((templates, language));
  }

  /** The loop over the expansions of one template line. */
  method AddLineTemplates(alts: seq<string>, rules: seq<seq<Matcher>>, language: Option<string>, acc: map<Option<string>, seq<Template>>) returns (r: Result<map<Option<string>, seq<Template>>>)
    ensures r == AddExpansions(alts, rules, language, acc)
  {
    var templates := acc;
    var k := 0;
    while k < |alts|
      invariant 0 <= k <= |alts|
      invariant AddExpansions(alts, rules, language, acc) == AddExpansions(alts[k..], rules, language, templates)
    {
      var p := ParseTemplateLine(alts[k], |rules|);
      if p.Err? {
        return Err(p.error);
      }
      TemplateLineGood(alts[k], |rules|);
      var t := NewTemplate(p.value.components, Zip(rules, p.value.ruleSlots));
      assert alts[k..][1..] == alts[k + 1..];
      templates := AddTemplate(templates, language, t);
      k := k + 1;
    }
    return Ok(templates);
  }

  /** One round of the constraint-line loop. */
  /** One round of reading the constraint lines, from line `i` on. */
  lemma RulesFromAt(cl: seq<string>, i: nat, groups: map<string, set<string>>)
    requires i < |cl|
    ensures var ms := ConstraintsFrom(cl[i], groups);
      RulesFrom(cl[i..], groups) == if ms.Err? then Err(ms.error) else Prefixed([ms.value], RulesFrom(cl[i + 1..], groups))
  {
    assert cl[i..][0] == cl[i] && cl[i..][1..] == cl[i + 1..];
  }

  lemma {:induction false} RulesWhatTypesAppend(rules: seq<seq<Matcher>>, ms: seq<Matcher>)
    ensures RulesWhatTypes(rules + [ms]) == RulesWhatTypes(rules) + WhatTypes(ms)
  {
    if rules == [] {
      assert [] + [ms] == [ms];
    } else {
      assert (rules + [ms])[1..] == rules[1..] + [ms];
      RulesWhatTypesAppend(rules[1..], ms);
    }
  }

  // What a block's templates look like

  /** A template as the reader makes it: one rule per rule of its block, with that rule's
      constraints; every slot index of a rule points at a slot; literals are single words; there
      are no facts yet. */
  predicate GoodTemplate(t: Template, rules: seq<seq<Matcher>>) {
    t.facts == [] && |t.rules| == |rules|
    && (forall i :: 0 <= i < |rules| ==> t.rules[i].matchers == rules[i])
    && (forall i, j :: 0 <= i < |rules| && 0 <= j < |t.rules[i].slots| ==>
          0 <= t.rules[i].slots[j] < |t.components| && t.components[t.rules[i].slots[j]].Slot?)
    && (forall c :: c in t.components ==> WellFormedComponent(c))
  }

  predicate AllGood(acc: map<Option<string>, seq<Template>>, rules: seq<seq<Matcher>>) {
    forall k, j :: k in acc && 0 <= j < |acc[k]| ==> GoodTemplate(acc[k][j], rules)
  }

  lemma TemplateOfGood(line: string, rules: seq<seq<Matcher>>)
    requires TemplateOf(line, rules).Ok?
    ensures GoodTemplate(TemplateOf(line, rules).value, rules)
  {
    TemplateLineGood(line, |rules|);
    GoodParseTemplate(TemplateLine(line, |rules|).value, rules);
  }

  lemma GoodParseTemplate(p: LineParse, rules: seq<seq<Matcher>>)
    requires GoodParse(p, |rules|)
    ensures GoodTemplate(NewTemplate(p.components, Zip(rules, p.ruleSlots)), rules)
  {
    var t := NewTemplate(p.components, Zip(rules, p.ruleSlots));
    forall c | c in t.components
      ensures WellFormedComponent(c)
    {
      var i :| 0 <= i < |p.components| && p.components[i] == c;
    }
  }

  /** The templates stored under a language, none if it has none. */
  function Get(acc: map<Option<string>, seq<Template>>, language: Option<string>): seq<Template> {
    if language in acc then acc[language] else []
  }

  /** One round of adding the expansions. */
  lemma AddExpansionsStep(alts: seq<string>, rules: seq<seq<Matcher>>, language: Option<string>, acc: map<Option<string>, seq<Template>>)
    requires alts != []
    ensures var t := TemplateOf(alts[0], rules);
      AddExpansions(alts, rules, language, acc) ==
        if t.Err? then Err(t.error) else AddExpansions(alts[1..], rules, language, AddTemplate(acc, language, t.value))
  {
  }

  /** Each expansion of a template line adds exactly one template, at the end of its language's
      list; nothing else changes. */
  lemma {:induction false} AddExpansionsAppends(alts: seq<string>, rules: seq<seq<Matcher>>, language: Option<string>, acc: map<Option<string>, seq<Template>>)
    requires AddExpansions(alts, rules, language, acc).Ok?
    ensures var r := AddExpansions(alts, rules, language, acc).value;
      |Get(r, language)| == |Get(acc, language)| + |alts|
      && Get(r, language)[..|Get(acc, language)|] == Get(acc, language)
      && (forall k :: k != language ==> Get(r, k) == Get(acc, k))
      && (alts != [] ==> language in r)
    decreases |alts|
  {
    if alts != [] {
      var t := TemplateOf(alts[0], rules).value;
      var acc1 := AddTemplate(acc, language, t);
      AddExpansionsStep(alts, rules, language, acc);
      AddExpansionsAppends(alts[1..], rules, language, acc1);
      AddTemplateGet(acc, language, t);
      var r := AddExpansions(alts, rules, language, acc).value;
      PrefixOfPrefix(Get(r, language), Get(acc1, language), Get(acc, language));
    }
  }

  lemma AddTemplateGet(acc: map<Option<string>, seq<Template>>, language: Option<string>, t: Template)
    ensures Get(AddTemplate(acc, language, t), language) == Get(acc, language) + [t]
    ensures forall k :: k != language ==> Get(AddTemplate(acc, language, t), k) == Get(acc, k)
    ensures language in AddTemplate(acc, language, t)
  {
  }

  lemma PrefixOfPrefix<T>(a: seq<T>, b: seq<T>, c: seq<T>)
    requires |b| <= |a| && a[..|b|] == b && |c| <= |b| && b[..|c|] == c
    ensures a[..|c|] == c
  {
    assert a[..|c|] == a[..|b|][..|c|];
  }

  lemma {:induction false} AddExpansionsGood(alts: seq<string>, rules: seq<seq<Matcher>>, language: Option<string>, acc: map<Option<string>, seq<Template>>)
    requires AllGood(acc, rules) && AddExpansions(alts, rules, language, acc).Ok?
    ensures AllGood(AddExpansions(alts, rules, language, acc).value, rules)
    decreases |alts|
  {
    if alts != [] {
      var t := TemplateOf(alts[0], rules).value;
      TemplateOfGood(alts[0], rules);
      var acc1 := AddTemplate(acc, language, t);
      assert AllGood(acc1, rules) by {
        forall k, j | k in acc1 && 0 <= j < |acc1[k]|
          ensures GoodTemplate(acc1[k][j], rules)
        {
          if k == language && j == |acc1[k]| - 1 {
            assert acc1[k][j] == t;
          } else {
            assert acc1[k][j] == acc[k][j];
          }
        }
      }
      AddExpansionsGood(alts[1..], rules, language, acc1);
    }
  }

  lemma {:induction false} TemplatesFromGood(tlines: seq<string>, rules: seq<seq<Matcher>>, language: Option<string>, acc: map<Option<string>, seq<Template>>)
    requires AllGood(acc, rules) && TemplatesFrom(tlines, rules, language, acc).Ok?
    ensures AllGood(TemplatesFrom(tlines, rules, language, acc).value.0, rules)
    decreases |tlines|
  {
    if tlines != [] {
      var (language1, text) := LineLanguage(tlines[0], language);
      var alts := Expansions(text).value;
      AddExpansionsGood(alts, rules, language1, acc);
      TemplatesFromGood(tlines[1..], rules, language1, AddExpansions(alts, rules, language1, acc).value);
    }
  }

  /** The rules of a block that reads with constraint lines. */
  function BlockRules(spec: seq<string>, groups: map<string, set<string>>): Result<seq<seq<Matcher>>>
    requires spec != []
  {
    RulesFrom(ConstraintLinesOf(GroupIndented(spec).value), groups)
  }

  /** Every template of a block is built on the same rules, one per constraint line and at least
      one, all of them well-formed; its slot indices point at slots. */
  lemma ReadGroupGood(spec: seq<string>, current: Option<string>, groups: map<string, set<string>>)
    requires ReadGroup(spec, current, groups).Ok? && ReadGroup(spec, current, groups).value.Triple?
    ensures spec != [] && BlockRules(spec, groups).Ok?
    ensures var rules := BlockRules(spec, groups).value;
      rules != [] && RulesWellFormed(rules) && AllGood(ReadGroup(spec, current, groups).value.templates, rules)
  {
    var lines := GroupIndented(spec).value;
    ConstraintLinesNonEmpty(lines);
    var rules := RulesFrom(ConstraintLinesOf(lines), groups).value;
    RulesFromWellFormed(ConstraintLinesOf(lines), groups);
    TemplatesFromGood(TemplateLinesOf(lines), rules, current, map[]);
  }

  /** A block that is only `lang:` sets the current language to `lang` and has no templates. */
  lemma LanguageBlock(line: string, current: Option<string>, groups: map<string, set<string>>)
    requires line != [] && line[|line| - 1] == ':' && ':' !in line[..|line| - 1] && NoSpace(line)
    ensures ReadGroup([line], current, groups) == Ok(Pair(map[], Some(line[..|line| - 1])))
  {
    LanguageLine(line);
    LanguageOnlyGroup([line], current, groups);
  }

  /** A block whose text, joined and stripped, ends in its first colon only names a language. */
  lemma LanguageOnlyGroup(spec: seq<string>, current: Option<string>, groups: map<string, set<string>>)
    requires spec != []
    requires var p := Partition(Strip(Concat(GroupIndented(spec).value)), ':'); p.1 && p.2 == []
    ensures ReadGroup(spec, current, groups) == Ok(Pair(map[], Some(Partition(Strip(Concat(GroupIndented(spec).value)), ':').0)))
  {
  }

  lemma LanguageLine(line: string)
    requires line != [] && line[|line| - 1] == ':' && ':' !in line[..|line| - 1] && NoSpace(line)
    ensures GroupIndented([line]) == Ok([line])
    ensures Partition(Strip(Concat([line])), ':') == (line[..|line| - 1], true, [])
  {
    assert Strip(line) == line;
    assert GroupIndented([line]) == Ok([line]);
    assert Concat([line]) == line;
    PartitionAt(line[..|line| - 1], ':', []);
    assert line[..|line| - 1] + [':'] + [] == line;
  }

  // Whole files

  /** Python's `line[1:]`. */
  function Rest(line: string): string {
    if line == [] then [] else line[1..]
  }

  /** The stripped values of a group definition, as a set. */
  function StrippedSet(parts: seq<string>): set<string>
    decreases |parts|
  {
    if parts == [] then {} else {Strip(parts[0])} + StrippedSet(parts[1..])
  }

  /** The values of a group definition: the text after the colon, split at commas and stripped. */
  function GroupValues(text: string): set<string> {
    StrippedSet(SplitOn(Strip(text), ','))
  }

  /** A `$` line `${name}: v1, v2, ...`: the group's name with its braces and the text of its
      values. */
  function GroupDefinition(line: string): Result<(string, string)> {
    var (name, _, rest) := Partition(Rest(line), ':');
    if name == [] then Err(IndexError)
    else if name[0] != '{' || name[|name| - 1] != '}' then
      Err(InvalidGroupName(name))
    else Ok((name, rest))
  }

  function InvalidGroupName(name: string): Error {
    TemplateReadingError("invalid group name '" + name + "'")
  }

  /** A braced name, a colon and the values define that group. */
  lemma GroupDefinitionOf(line: string, name: string, values: string)
    requires |line| >= 1 && Rest(line) == "{" + name + "}" + ":" + values && ':' !in name
    ensures GroupDefinition(line) == Ok(("{" + name + "}", values))
  {
    var braced := "{" + name + "}";
    assert ':' !in braced;
    assert braced[0] == '{' && braced[|braced| - 1] == '}';
    PartitionAt(braced, ':', values);
  }

  /** A group name must be written in braces. */
  lemma UnbracedGroupName(line: string)
    requires Partition(Rest(line), ':').0 != [] && Partition(Rest(line), ':').0[0] != '{'
    ensures GroupDefinition(line).Err? && GroupDefinition(line).error.TemplateReadingError?
  {
  }

  /** The group definitions in order, each overriding an earlier one of the same name: the groups
      afterwards, and the error that stopped them if one did. */
  function DefineGroups(defs: seq<string>, groups: map<string, set<string>>): (map<string, set<string>>, Option<Error>) {
    DefineWith(GroupDefinition, GroupValues, defs, groups)
  }

  /** The loop over the `$` lines, for a given reading of one line and of its values. */
  function DefineWith(parse: string -> Result<(string, string)>, values: string -> set<string>, defs: seq<string>, groups: map<string, set<string>>): (map<string, set<string>>, Option<Error>)
    decreases |defs|
  {
    if defs == [] then (groups, None)
    else match parse(defs[0])
      case Err(e) => (groups, Some(e))
      case Ok((name, text)) => DefineWith(parse, values, defs[1..], groups[name := values(text)])
  }

  /** An error keeps every definition read before it, and nothing after it is read. */
  lemma DefineGroupsStops(good: seq<string>, bad: string, rest: seq<string>, groups: map<string, set<string>>)
    requires DefineGroups(good, groups).1 == None && GroupDefinition(bad).Err?
    ensures DefineGroups(good + [bad] + rest, groups) == (DefineGroups(good, groups).0, Some(GroupDefinition(bad).error))
  {
    DefineWithStops(GroupDefinition, GroupValues, good, bad, rest, groups);
  }

  lemma {:induction false} DefineWithStops(parse: string -> Result<(string, string)>, values: string -> set<string>, good: seq<string>, bad: string, rest: seq<string>, groups: map<string, set<string>>)
    requires DefineWith(parse, values, good, groups).1 == None && parse(bad).Err?
    ensures DefineWith(parse, values, good + [bad] + rest, groups) == (DefineWith(parse, values, good, groups).0, Some(parse(bad).error))
    decreases |good|
  {
    if good == [] {
      assert [] + [bad] + rest == [bad] + rest;
    } else {
      var d := parse(good[0]).value;
      TailOfConcat(good, bad, rest);
      DefineWithStops(parse, values, good[1..], bad, rest, groups[d.0 := values(d.1)]);
    }
  }

  /** A later definition of a group wins. */
  lemma DefineGroupsLast(defs: seq<string>, groups: map<string, set<string>>)
    requires DefineGroups(defs, groups).1 == None && defs != []
    requires GroupDefinition(defs[|defs| - 1]).Ok?
    ensures var (name, text) := GroupDefinition(defs[|defs| - 1]).value;
      name in DefineGroups(defs, groups).0 && DefineGroups(defs, groups).0[name] == GroupValues(text)
  {
    DefineWithLast(GroupDefinition, GroupValues, defs, groups);
  }

  lemma {:induction false} DefineWithLast(parse: string -> Result<(string, string)>, values: string -> set<string>, defs: seq<string>, groups: map<string, set<string>>)
    requires DefineWith(parse, values, defs, groups).1 == None && defs != []
    requires parse(defs[|defs| - 1]).Ok?
    ensures var (name, text) := parse(defs[|defs| - 1]).value;
      name in DefineWith(parse, values, defs, groups).0 && DefineWith(parse, values, defs, groups).0[name] == values(text)
    decreases |defs|
  {
    var d := parse(defs[0]).value;
    var groups1 := groups[d.0 := values(d.1)];
    assert DefineWith(parse, values, defs, groups) == DefineWith(parse, values, defs[1..], groups1);
    if |defs| > 1 {
      assert defs[1..][|defs[1..]| - 1] == defs[|defs| - 1];
      DefineWithLast(parse, values, defs[1..], groups1);
    } else {
      assert defs[1..] == [];
      assert DefineWith(parse, values, defs, groups).0 == groups1;
    }
  }

  /** The `$` lines of a file, in order. */
  function DefinitionLines(lines: seq<string>): seq<string> {
    if lines == [] then []
    else (if StartsWith(lines[0], "$") then [lines[0]] else []) + DefinitionLines(lines[1..])
  }

  /** The lines of a file that are neither comments (`#`) nor group definitions (`$`). */
  function BlockLines(lines: seq<string>): seq<string> {
    if lines == [] then []
    else (if StartsWith(lines[0], "#") || StartsWith(lines[0], "$") then [] else [lines[0]]) + BlockLines(lines[1..])
  }

  /** `templates.setdefault(lang, []).extend(lang_templates)` for every language of a block. */
  function Extend(acc: map<Option<string>, seq<Template>>, more: map<Option<string>, seq<Template>>): (r: map<Option<string>, seq<Template>>)
    ensures r.Keys == acc.Keys + more.Keys
    ensures forall k :: k in r ==> r[k] == Get(acc, k) + Get(more, k)
  {
    map k | k in acc.Keys + more.Keys :: Get(acc, k) + Get(more, k)
  }

  /** The loop over the blocks of a file as written: `read_templates` unpacks three values from
      every block, so a block that returns two (one that only sets the language, or one in the
      old format) raises ValueError. */
  function ReadBlocksAsWritten(blocks: seq<seq<string>>, language: Option<string>, groups: map<string, set<string>>,
                               acc: map<Option<string>, seq<Template>>, seen: set<string>): Result<(map<Option<string>, seq<Template>>, set<string>)>
    decreases |blocks|
  {
    if blocks == [] then Ok((acc, seen))
    else
      var g :- ReadGroup(blocks[0], language, groups);
      match g
      case Pair(_, _) => Err(ValueError("expected 3, got 2"))
      case Triple(ts, language1, whatTypes) => ReadBlocksAsWritten(blocks[1..], language1, groups, Extend(acc, ts), seen + whatTypes)
  }

  /** The loop over the blocks as the module documentation describes it: a block that only sets
      the language changes the language of the blocks after it, a block in the old format is
      skipped. */
  function ReadBlocks(blocks: seq<seq<string>>, language: Option<string>, groups: map<string, set<string>>,
                      acc: map<Option<string>, seq<Template>>, seen: set<string>): Result<(map<Option<string>, seq<Template>>, set<string>)>
    decreases |blocks|
  {
    if blocks == [] then Ok((acc, seen))
    else
      var g :- ReadGroup(blocks[0], language, groups);
      match g
      case Pair(ts, language1) => ReadBlocks(blocks[1..], language1, groups, Extend(acc, ts), seen)
      case Triple(ts, language1, whatTypes) => ReadBlocks(blocks[1..], language1, groups, Extend(acc, ts), seen + whatTypes)
  }

  /** As written, a file with a block that only sets the language cannot be read. */
  lemma LanguageBlockFails(line: string, rest: seq<seq<string>>, language: Option<string>, groups: map<string, set<string>>,
                           acc: map<Option<string>, seq<Template>>, seen: set<string>)
    requires line != [] && line[|line| - 1] == ':' && ':' !in line[..|line| - 1] && NoSpace(line)
    ensures ReadBlocksAsWritten([[line]] + rest, language, groups, acc, seen).Err?
    ensures ReadBlocksAsWritten([[line]] + rest, language, groups, acc, seen).error.ValueError?
  {
    LanguageBlock(line, language, groups);
    assert ([[line]] + rest)[0] == [line];
  }

  /** Reading blocks, a block that only sets the language makes it the language of the blocks
      after it and adds nothing. */
  lemma LanguageBlockSwitches(line: string, rest: seq<seq<string>>, language: Option<string>, groups: map<string, set<string>>,
                              acc: map<Option<string>, seq<Template>>, seen: set<string>)
    requires line != [] && line[|line| - 1] == ':' && ':' !in line[..|line| - 1] && NoSpace(line)
    ensures ReadBlocks([[line]] + rest, language, groups, acc, seen) == ReadBlocks(rest, Some(line[..|line| - 1]), groups, acc, seen)
  {
    LanguageBlock(line, language, groups);
    assert ([[line]] + rest)[0] == [line];
    assert ([[line]] + rest)[1..] == rest;
    ExtendNothing(acc);
  }

  lemma ExtendNothing(acc: map<Option<string>, seq<Template>>)
    ensures Extend(acc, map[]) == acc
  {
    assert forall k :: k in acc ==> Get(acc, k) + [] == acc[k];
  }

  lemma TailOfConcat<T>(a: seq<T>, b: T, c: seq<T>)
    requires a != []
    ensures (a + [b] + c)[1..] == a[1..] + [b] + c
  {
  }

  /** Where every block reads with three values, the two loops agree. */
  lemma {:induction false} ReadBlocksAgree(blocks: seq<seq<string>>, language: Option<string>, groups: map<string, set<string>>,
                                           acc: map<Option<string>, seq<Template>>, seen: set<string>)
    requires ReadBlocksAsWritten(blocks, language, groups, acc, seen).Ok?
    ensures ReadBlocks(blocks, language, groups, acc, seen) == ReadBlocksAsWritten(blocks, language, groups, acc, seen)
    decreases |blocks|
  {
    if blocks != [] {
      var g := ReadGroup(blocks[0], language, groups).value;
      ReadBlocksAgree(blocks[1..], g.language, groups, Extend(acc, g.templates), seen + g.whatTypes);
    }
  }

  /** The constraints of each of a template's rules. */
  function RulesOf(t: Template): (r: seq<seq<Matcher>>)
    ensures |r| == |t.rules| && forall i :: 0 <= i < |t.rules| ==> r[i] == t.rules[i].matchers
  {
    seq(|t.rules|, i requires 0 <= i < |t.rules| => t.rules[i].matchers)
  }

  /** A template as the reader makes it, for well-formed rules of which there is at least one. */
  predicate WellMade(t: Template) {
    t.rules != [] && RulesWellFormed(RulesOf(t)) && GoodTemplate(t, RulesOf(t))
  }

  lemma GoodTemplateWellMade(t: Template, rules: seq<seq<Matcher>>)
    requires rules != [] && RulesWellFormed(rules) && GoodTemplate(t, rules)
    ensures WellMade(t)
  {
    assert RulesOf(t) == rules;
  }

  predicate AllGoodSomeRules(acc: map<Option<string>, seq<Template>>) {
    forall k, j :: k in acc && 0 <= j < |acc[k]| ==> WellMade(acc[k][j])
  }

  /** Adding a block's templates, built on well-formed rules, keeps every template well made. */
  lemma ExtendGood(acc: map<Option<string>, seq<Template>>, more: map<Option<string>, seq<Template>>, rules: seq<seq<Matcher>>)
    requires AllGoodSomeRules(acc) && rules != [] && RulesWellFormed(rules) && AllGood(more, rules)
    ensures AllGoodSomeRules(Extend(acc, more))
  {
    var acc1 := Extend(acc, more);
    forall k, j | k in acc1 && 0 <= j < |acc1[k]|
      ensures WellMade(acc1[k][j])
    {
      if j >= |Get(acc, k)| {
        assert acc1[k][j] == more[k][j - |Get(acc, k)|];
        GoodTemplateWellMade(acc1[k][j], rules);
      } else {
        assert acc1[k][j] == acc[k][j];
      }
    }
  }

  lemma {:induction false} ReadBlocksGood(blocks: seq<seq<string>>, language: Option<string>, groups: map<string, set<string>>,
                                          acc: map<Option<string>, seq<Template>>, seen: set<string>)
    requires AllGoodSomeRules(acc) && ReadBlocks(blocks, language, groups, acc, seen).Ok?
    ensures AllGoodSomeRules(ReadBlocks(blocks, language, groups, acc, seen).value.0)
    decreases |blocks|
  {
    if blocks != [] {
      var g := ReadGroup(blocks[0], language, groups).value;
      var acc1 := Extend(acc, g.templates);
      if g.Triple? {
        ReadGroupGood(blocks[0], language, groups);
        ExtendGood(acc, g.templates, BlockRules(blocks[0], groups).value);
      } else {
        ExtendNothing(acc);
      }
      match g
      case Pair(_, language1) => ReadBlocksGood(blocks[1..], language1, groups, acc1, seen);
      case Triple(_, language1, whatTypes) => ReadBlocksGood(blocks[1..], language1, groups, acc1, seen + whatTypes);
    }
  }

  /** `read_templates(data, initial_language, return_what_types)`, given the value groups defined
      before: the templates per language and, when asked for, the `value_type` values seen. */
  function ReadAll(data: string, initialLanguage: Option<string>, returnWhatTypes: bool, groups: map<string, set<string>>): Result<(map<Option<string>, seq<Template>>, Option<set<string>>)> {
    var lines := SplitLines(data);
    var (groups1, err) := DefineGroups(DefinitionLines(lines), groups);
    if err.Some? then Err(err.value)
    else
      var res :- ReadBlocks(BlankSplit(BlockLines(lines), []), initialLanguage, groups1, map[], {});
      Ok((res.0, if returnWhatTypes then Some(res.1) else None))
  }

  /** Every template of a file is well made. */
  lemma ReadAllGood(data: string, initialLanguage: Option<string>, returnWhatTypes: bool, groups: map<string, set<string>>)
    requires ReadAll(data, initialLanguage, returnWhatTypes, groups).Ok?
    ensures AllGoodSomeRules(ReadAll(data, initialLanguage, returnWhatTypes, groups).value.0)
  {
    var lines := SplitLines(data);
    var groups1 := DefineGroups(DefinitionLines(lines), groups).0;
    ReadBlocksGood(BlankSplit(BlockLines(lines), []), initialLanguage, groups1, map[], {});
  }

  /** The module-level `value_groups` dictionary that `read_templates` fills and the constraint
      parser reads: groups stay defined from one file to the next. */
  class ValueGroups {
    var groups: map<string, set<string>>

    constructor()
      ensures groups == map[]
    {
      groups := map[];
    }

    /** The loop over the `$` lines of `read_templates`. */
    method DefineAll(defs: seq<string>) returns (err: Option<Error>)
      modifies this
      ensures (groups, err) == DefineGroups(defs, old(groups))
    {
      var i := 0;
      while i < |defs|
        invariant 0 <= i <= |defs|
        invariant DefineGroups(defs, old(groups)) == DefineGroups(defs[i..], groups)
      {
        var d := GroupDefinition(defs[i]);
        assert defs[i..][0] == defs[i] && defs[i..][1..] == defs[i + 1..];
        if d.Err? {
          return Some(d.error);
        }
        groups := groups[d.value.0 := GroupValues(d.value.1)];
        i := i + 1;
      }
      assert defs[i..] == [];
      return None;
    }

    /** `read_templates`. */
    method ReadTemplates(data: string, initialLanguage: Option<string>, returnWhatTypes: bool)
      returns (r: Result<(map<Option<string>, seq<Template>>, Option<set<string>>)>)
      modifies this
      ensures groups == DefineGroups(DefinitionLines(SplitLines(data)), old(groups)).0
      ensures r == ReadAll(data, initialLanguage, returnWhatTypes, old(groups))
    {
      hide SplitLines, DefinitionLines, BlockLines, BlankSplit, ReadBlocks, DefineGroups;
      var lines := SplitLines(data);
      var err := DefineAll(DefinitionLines(lines));
      if err.Some? {
        return Err(err.value);
      }
      var blocks := BlankLineSplit(BlockLines(lines));
      var res := ReadAllBlocks(blocks, initialLanguage, groups);
      if res.Err? {
        return Err(res.error);
      }
      return Ok((res.value.0, if returnWhatTypes then Some(res.value.1) else None));
    }
  }

  /** The loop over the blocks of `read_templates`. */
  method ReadAllBlocks(blocks: seq<seq<string>>, initialLanguage: Option<string>, groups: map<string, set<string>>)
    returns (r: Result<(map<Option<string>, seq<Template>>, set<string>)>)
    ensures r == ReadBlocks(blocks, initialLanguage, groups, map[], {})
  {
    var templates: map<Option<string>, seq<Template>> := map[];
    var seen: set<string> := {};
    var language := initialLanguage;
    var j := 0;
    while j < |blocks|
      invariant 0 <= j <= |blocks|
      invariant ReadBlocks(blocks, initialLanguage, groups, map[], {}) == ReadBlocks(blocks[j..], language, groups, templates, seen)
    {
      var g := ReadTemplateGroup(blocks[j], language, groups);
      if g.Err? {
        return Err(g.error);
      }
      assert blocks[j..][1..] == blocks[j + 1..];
      templates := Extend(templates, g.value.templates);
      if g.value.Triple? {
        seen := seen + g.value.whatTypes;
      }
      language := g.value.language;
      j := j + 1;
    }
    assert blocks[j..] == [];
    return Ok((templates, seen));
  }
}

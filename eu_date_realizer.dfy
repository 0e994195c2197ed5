/** Date realisation (`eu_date_realizer.py`): every slot whose value is a "[TIME:month:…]" or
    "[TIME:year:…]" tag is replaced by the words of a date expression. The expression depends on
    the previous tag realised in document order; the vocabulary is a language's date resource. */
module DateRealizer {
  import opened Wrappers
  import opened Text
  import opened Models

  /** A vocabulary entry that is either one text or a list of choices. */
  datatype Options = OneOption(text: string) | ManyOptions(texts: seq<string>)

  /** The parts of a date vocabulary the realizer reads: the three format strings, already applied to
      their named fields, the month names, and the reference options of months and years. */
  datatype Vocab = Vocab(
    monthYearExpression: (string, string) -> string,
    monthExpression: string -> string,
    yearExpression: string -> string,
    monthNames: map<string, string>,
    monthReferences: Options,
    yearReferences: Options)

  /** A realizer: its vocabulary, its `attach_attributes_map` (None and an empty map are the same),
      and `random.choice` as an index. */
  datatype Config = Config(vocab: Vocab, attach: map<string, seq<int>>, choose: seq<string> -> nat)

  /** The Finnish realizer keeps attributes on the first word only. */
  const FinnishAttach: map<string, seq<int>> := map["month" := [0], "year" := [0]]

  // ---------------------------------------------------------------- the tag patterns

  /** The end of the run of ASCII digits from `i`, when it is not empty and `c` follows it. */
  function DigitsThen(s: string, i: nat, c: char): (r: Option<nat>)
    requires i <= |s|
    ensures r.Some? ==> i < r.value < |s| && s[r.value] == c && AllDigits(s[i..r.value])
    decreases |s| - i
  {
    if i == |s| || !IsDigit(s[i]) then None
    else if i + 1 < |s| && s[i + 1] == c then
      assert s[i..i + 1] == [s[i]];
      Some(i + 1)
    else
      match DigitsThen(s, i + 1, c)
      case None => None
      case Some(j) =>
        assert s[i..j] == [s[i]] + s[i + 1..j];
        Some(j)
  }

  /** `re.match(r"\[TIME:year:(\d+)\]", s)`: the year digits of a string that starts with a year tag. */
  function MatchYear(s: string): Option<string> {
    if !StartsWith(s, "[TIME:year:") then None
    else match DigitsThen(s, 11, ']')
      case None => None
      case Some(j) => Some(s[11..j])
  }

  /** `re.match(r"\[TIME:month:(\d+)M(\d+)\]", s)`: the year and month digits. */
  function MatchMonth(s: string): Option<(string, string)> {
    if !StartsWith(s, "[TIME:month:") then None
    else match DigitsThen(s, 12, 'M')
      case None => None
      case Some(j) =>
        match DigitsThen(s, j + 1, ']')
        case None => None
        case Some(k) => Some((s[12..j], s[j + 1..k]))
  }

  /** `re.match(r"\[TIME:month:(\d+)\]", s)`, the pattern the source applies to a previous year tag. */
  function MatchMonthYear(s: string): Option<string> {
    if !StartsWith(s, "[TIME:month:") then None
    else match DigitsThen(s, 12, ']')
      case None => None
      case Some(j) => Some(s[12..j])
  }

  lemma {:induction false} DigitsThenOf(d: string, c: char, rest: string, pre: string)
    requires d != [] && AllDigits(d) && !IsDigit(c)
    ensures DigitsThen(pre + d + [c] + rest, |pre|, c) == Some(|pre| + |d|)
    decreases |d|
  {
    var s := pre + d + [c] + rest;
    assert s[|pre|] == d[0];
    if |d| == 1 {
      assert s[|pre| + 1] == c;
    } else {
      assert s[|pre| + 1] == d[1];
      assert s == (pre + [d[0]]) + d[1..] + [c] + rest;
      DigitsThenOf(d[1..], c, rest, pre + [d[0]]);
    }
  }

  /** The tag a fact's time slot produces for a year is recognised with its year; a month tag
      "yyyyMmm" with its year and month. */
  lemma MatchTags(y: string, m: string)
    requires y != [] && m != [] && AllDigits(y) && AllDigits(m)
    ensures MatchYear("[TIME:year:" + y + "]") == Some(y)
    ensures MatchMonth("[TIME:month:" + y + "M" + m + "]") == Some((y, m))
  {
    MatchYearTag(y);
    MatchMonthTag(y, m);
  }

  lemma MatchYearTag(y: string)
    requires y != [] && AllDigits(y)
    ensures MatchYear("[TIME:year:" + y + "]") == Some(y)
  {
    var ys := "[TIME:year:" + y + "]";
    assert ys == "[TIME:year:" + y + [']'] + [];
    DigitsThenOf(y, ']', [], "[TIME:year:");
    assert ys[..11] == "[TIME:year:" && ys[11..11 + |y|] == y;
  }

  lemma MatchMonthTag(y: string, m: string)
    requires y != [] && m != [] && AllDigits(y) && AllDigits(m)
    ensures MatchMonth("[TIME:month:" + y + "M" + m + "]") == Some((y, m))
  {
    MonthTagYear(y, m);
    DigitsBeforeBracket("[TIME:month:" + y + "M", m);
    MonthTagSlices(y, m);
    hide DigitsThen, StartsWith;
  }

  lemma MonthTagYear(y: string, m: string)
    requires y != [] && AllDigits(y)
    ensures DigitsThen("[TIME:month:" + y + "M" + m + "]", 12, 'M') == Some(12 + |y|)
  {
    var ms := "[TIME:month:" + y + "M" + m + "]";
    assert ms == "[TIME:month:" + y + ['M'] + (m + "]");
    DigitsThenOf(y, 'M', m + "]", "[TIME:month:");
  }

  lemma DigitsBeforeBracket(pre: string, m: string)
    requires m != [] && AllDigits(m)
    ensures DigitsThen(pre + m + "]", |pre|, ']') == Some(|pre| + |m|)
  {
    assert pre + m + "]" == pre + m + [']'] + [];
    DigitsThenOf(m, ']', [], pre);
  }

  lemma MonthTagSlices(y: string, m: string)
    ensures var ms := "[TIME:month:" + y + "M" + m + "]";
      StartsWith(ms, "[TIME:month:") && ms[12..12 + |y|] == y && ms[13 + |y|..13 + |y| + |m|] == m
      && |"[TIME:month:" + y + "M"| == 13 + |y|
  {
    var ms := "[TIME:month:" + y + "M" + m + "]";
    assert ms[..12] == "[TIME:month:";
  }

  /** A string that starts with a year tag never matches the month pattern. */
  lemma YearIsNoMonth(s: string)
    requires MatchYear(s).Some?
    ensures MatchMonthYear(s).None? && MatchMonth(s).None?
  {
    assert s[6] == 'y';
  }

  // ---------------------------------------------------------------- month and year expressions

  /** The year `_realize_month` compares with, as written: `groups(0)` of a previous month tag is
      the tuple of both groups, never equal to a year, so it counts as no year (None); a previous
      year tag is matched against the month pattern, which fails, so `.groups()` raises. */
  function PreviousYearAsWritten(previous: string): Result<Option<string>> {
    if MatchMonth(previous).Some? then Ok(None)
    else if MatchYear(previous).Some? then
      if MatchMonthYear(previous).None? then Err(AttributeError("groups")) else Ok(MatchMonthYear(previous))
    else Ok(None)
  }

  /** The year of the previous tag, month or year, which the comparison evidently wants. */
  function PreviousYear(previous: string): Option<string> {
    if MatchMonth(previous).Some? then Some(MatchMonth(previous).value.0)
    else MatchYear(previous)
  }

  /** `_realize_month` given how the previous tag's year is read. With no previous tag: the
      month-year expression. The same tag again: the reference options. Otherwise the month
      expression when the previous tag has this tag's year, and the month-year expression if not. */
  function MonthWith(value: string, previous: Option<string>, prevYear: Result<Option<string>>, vocab: Vocab): Result<Options>
    requires previous.None? ==> prevYear == Ok(None)
  {
    if previous.Some? && value == previous.value then Ok(vocab.monthReferences)
    else if MatchMonth(value).None? then Err(AttributeError("groups"))
    else
      var (year, month) := MatchMonth(value).value;
      var py :- prevYear;
      if month !in vocab.monthNames then Err(KeyError(month))
      else if py == Some(year) then Ok(OneOption(vocab.monthExpression(vocab.monthNames[month])))
      else Ok(OneOption(vocab.monthYearExpression(vocab.monthNames[month], year)))
  }

  /** `_realize_month` as written. */
  function RealizeMonthAsWritten(value: string, previous: Option<string>, vocab: Vocab): Result<Options> {
    MonthWith(value, previous, if previous.None? then Ok(None) else PreviousYearAsWritten(previous.value), vocab)
  }

  /** `_realize_month` with the previous tag's year read as intended; the realizer uses this one. */
  function RealizeMonth(value: string, previous: Option<string>, vocab: Vocab): Result<Options> {
    MonthWith(value, previous, if previous.None? then Ok(None) else Ok(PreviousYear(previous.value)), vocab)
  }

  /** As written, a month tag is never shortened to the month expression: after anything but
      itself and a year tag it is written with its year, and after a year tag it raises. */
  lemma MonthNeverShortened(y: string, m: string, previous: Option<string>, vocab: Vocab)
    requires y != [] && m != [] && AllDigits(y) && AllDigits(m) && m in vocab.monthNames
    ensures var value := "[TIME:month:" + y + "M" + m + "]";
      var r := RealizeMonthAsWritten(value, previous, vocab);
      (previous.Some? && previous.value == value ==> r == Ok(vocab.monthReferences))
      && ((previous.None? || (previous.value != value && MatchYear(previous.value).None?)) ==>
            r == Ok(OneOption(vocab.monthYearExpression(vocab.monthNames[m], y))))
      && (previous.Some? && MatchYear(previous.value).Some? ==> r == Err(AttributeError("groups")))
  {
    MatchTags(y, m);
    var value := "[TIME:month:" + y + "M" + m + "]";
    if previous.Some? && MatchYear(previous.value).Some? {
      YearIsNoMonth(previous.value);
      assert previous.value != value;
    }
  }

  /** Read as intended, a month tag after another month of the same year, or after that year's
      tag, is written without its year; after a tag of another year or no tag, with its year. */
  lemma MonthMeaning(y: string, m: string, previous: Option<string>, vocab: Vocab)
    requires y != [] && m != [] && AllDigits(y) && AllDigits(m) && m in vocab.monthNames
    ensures var value := "[TIME:month:" + y + "M" + m + "]";
      var r := RealizeMonth(value, previous, vocab);
      (previous == Some(value) ==> r == Ok(vocab.monthReferences))
      && (previous != Some(value) && previous.Some? && PreviousYear(previous.value) == Some(y) ==>
            r == Ok(OneOption(vocab.monthExpression(vocab.monthNames[m]))))
      && ((previous.None? || PreviousYear(previous.value) != Some(y)) ==>
            r == Ok(OneOption(vocab.monthYearExpression(vocab.monthNames[m], y))))
  {
    MatchTags(y, m);
  }

  /** The previous year is read from both kinds of tag. */
  lemma PreviousYearOfTags(y: string, m: string)
    requires y != [] && m != [] && AllDigits(y) && AllDigits(m)
    ensures PreviousYear("[TIME:month:" + y + "M" + m + "]") == Some(y)
    ensures PreviousYear("[TIME:year:" + y + "]") == Some(y)
  {
    MatchTags(y, m);
    YearIsNoMonth("[TIME:year:" + y + "]");
  }

  /** `_realize_year`: the reference options when the tag repeats a non-empty previous one,
      otherwise the year expression with the tag's year. */
  function RealizeYear(value: string, previous: Option<string>, vocab: Vocab): Result<Options> {
    if previous.Some? && previous.value != "" && value == previous.value then Ok(vocab.yearReferences)
    else if MatchYear(value).None? then Err(AttributeError("groups"))
    else Ok(OneOption(vocab.yearExpression(MatchYear(value).value)))
  }

  lemma YearMeaning(y: string, previous: Option<string>, vocab: Vocab)
    requires y != [] && AllDigits(y)
    ensures var value := "[TIME:year:" + y + "]";
      RealizeYear(value, previous, vocab) ==
        if previous == Some(value) then Ok(vocab.yearReferences) else Ok(OneOption(vocab.yearExpression(y)))
  {
    MatchTags(y, "0");
  }

  /** numpy's `Generator.choice` on a list of options (ValueError on an empty one); a single text
      is taken as it is. */
  function Choose(o: Options, choose: seq<string> -> nat): (r: Result<string>)
    ensures o.OneOption? ==> r == Ok(o.text)
    ensures o.ManyOptions? ==> (r.Ok? <==> o.texts != []) && (r.Ok? ==> r.value in o.texts)
    ensures r.Err? ==> r.error.ValueError?
  {
    match o
    case OneOption(t) => Ok(t)
    case ManyOptions(ts) => if ts == [] then Err(ValueError("a cannot be empty unless no samples are taken")) else Ok(ts[choose(ts) % |ts|])
  }

  // ---------------------------------------------------------------- one slot

  /** A TIME tag slot's value and its timestamp type; None for a slot the loop steps past. A value
      that is the empty string raises at `[0]`, and a "[TIME]" tag has no type. */
  function TagOf(c: Component): (r: Result<Option<(string, string)>>)
    requires c.Slot?
  {
    var v :- SlotValue(c);
    if !v.VStr? then Ok(None)
    else if v.s == [] then Err(IndexError)
    else if v.s[0] != '[' || v.s[|v.s| - 1] != ']' then Ok(None)
    else
      var segments := SplitOn(v.s[1..|v.s| - 1], ':');
      if segments[0] != "TIME" then Ok(None)
      else if |segments| < 2 then Err(IndexError)
      else Ok(Some((v.s, segments[1])))
  }

  /** A tag's expression. For a type other than month and year the source's loop does not advance
      its index (`idx + 1` is not assigned) and visits the same slot forever. */
  function RealizeTag(value: string, timestampType: string, previous: Option<string>, vocab: Vocab): Result<Options> {
    if timestampType == "month" then RealizeMonth(value, previous, vocab)
    else if timestampType == "year" then RealizeYear(value, previous, vocab)
    else Err(LoopsForever)
  }

  /** Whether the copy made for word `j` keeps the slot's attributes. */
  predicate KeepsAttributes(attach: map<string, seq<int>>, timestampType: string, j: int) {
    !(attach != map[] && timestampType in attach && j !in attach[timestampType])
  }

  /** One fact-keeping slot copy per word of the expression. */
  function DateTokens(slot: Component, text: string, timestampType: string, attach: map<string, seq<int>>): (r: seq<Component>)
    requires slot.Slot?
    ensures |r| == |Words(text)|
    ensures forall j :: 0 <= j < |r| ==>
      r[j] == Slot(Resolved(VStr(Words(text)[j])),
                   if KeepsAttributes(attach, timestampType, j) then slot.attributes else map[], slot.fact)
  {
    var ws := Words(text);
    seq(|ws|, j requires 0 <= j < |ws| =>
      Slot(Resolved(VStr(ws[j])), if KeepsAttributes(attach, timestampType, j) then slot.attributes else map[], slot.fact))
  }

  /** With the Finnish map only the first word keeps the attributes. */
  lemma FinnishFirstWordOnly(timestampType: string, j: nat)
    requires timestampType in {"month", "year"}
    ensures KeepsAttributes(FinnishAttach, timestampType, j) <==> j == 0
  {
    assert FinnishAttach != map[] by {
      assert "month" in FinnishAttach;
    }
  }

  /** A slot's replacement and the previous tag afterwards; None for a slot that stays. */
  function DateSlot(c: Component, previous: Option<string>, cfg: Config): Result<Option<(seq<Component>, string)>>
    requires c.Slot?
  {
    var t :- TagOf(c);
    if t.None? then Ok(None)
    else
      var o :- RealizeTag(t.value.0, t.value.1, previous, cfg.vocab);
      var text :- Choose(o, cfg.choose);
      Ok(Some((DateTokens(c, text, t.value.1, cfg.attach), t.value.0)))
  }

  // ---------------------------------------------------------------- the components of a message

  /** The loop over a template's components: each TIME tag slot is replaced by its words and
      becomes the previous tag. */
  function DateComponents(cs: seq<Component>, previous: Option<string>, cfg: Config): Result<(seq<Component>, Option<string>)> {
    if cs == [] then Ok(([], previous))
    else
      var h :- if cs[0].Literal? then Ok(None) else DateSlot(cs[0], previous, cfg);
      var out, prev := if h.None? then [cs[0]] else h.value.0, if h.None? then previous else Some(h.value.1);
      var t :- DateComponents(cs[1..], prev, cfg);
      Ok((out + t.0, t.1))
  }

  /** Components without TIME tags stay as they are and leave the previous tag alone. */
  lemma {:induction false} NoTagsUnchanged(cs: seq<Component>, previous: Option<string>, cfg: Config)
    requires forall i :: 0 <= i < |cs| && cs[i].Slot? ==> TagOf(cs[i]) == Ok(None)
    ensures DateComponents(cs, previous, cfg) == Ok((cs, previous))
  {
    if cs != [] {
      NoTagsUnchanged(cs[1..], previous, cfg);
      assert [cs[0]] + cs[1..] == cs;
    }
  }

  /** A TIME tag of another type, reached without an earlier failure, makes the loop spin. */
  lemma OtherTypeSpins(c: Component, rest: seq<Component>, previous: Option<string>, cfg: Config)
    requires c.Slot? && TagOf(c).Ok? && TagOf(c).value.Some? && TagOf(c).value.value.1 !in {"month", "year"}
    ensures DateComponents([c] + rest, previous, cfg) == Err(LoopsForever)
  {
    assert ([c] + rest)[0] == c;
  }

  function Then(done: seq<Component>, rest: Result<(seq<Component>, Option<string>)>): Result<(seq<Component>, Option<string>)> {
    if rest.Err? then Err(rest.error) else Ok((done + rest.value.0, rest.value.1))
  }

  lemma ThenThen(d1: seq<Component>, d2: seq<Component>, rest: Result<(seq<Component>, Option<string>)>)
    ensures Then(d1, Then(d2, rest)) == Then(d1 + d2, rest)
  {
    if rest.Ok? {
      assert d1 + (d2 + rest.value.0) == (d1 + d2) + rest.value.0;
    }
  }

  lemma DateComponentsAt(cs: seq<Component>, k: nat, previous: Option<string>, cfg: Config)
    requires k < |cs|
    ensures var c := cs[k];
      var h := if c.Literal? then Ok(None) else DateSlot(c, previous, cfg);
      DateComponents(cs[k..], previous, cfg) ==
        if h.Err? then Err(h.error)
        else if h.value.None? then Then([c], DateComponents(cs[k + 1..], previous, cfg))
        else Then(h.value.value.0, DateComponents(cs[k + 1..], Some(h.value.value.1), cfg))
  {
    assert cs[k..][0] == cs[k] && cs[k..][1..] == cs[k + 1..];
  }

  /** The index loop over a message's components, as the source runs it: a realised slot is
      replaced in place by its words and the index moves past them. */
  method DateTemplate(cs0: seq<Component>, previous0: Option<string>, cfg: Config)
    returns (r: Result<(seq<Component>, Option<string>)>)
    ensures r == DateComponents(cs0, previous0, cfg)
  {
    var cs := cs0;
    var idx: nat := 0;
    var previous := previous0;
    ghost var k: nat := 0;
    assert cs0[0..] == cs0;
    ThenEnds([], DateComponents(cs0, previous0, cfg), previous0, cfg);
    while idx < |cs|
      invariant k <= |cs0| && idx <= |cs|
      invariant cs[idx..] == cs0[k..]
      invariant DateComponents(cs0, previous0, cfg) == Then(cs[..idx], DateComponents(cs0[k..], previous, cfg))
      decreases |cs| - idx
    {
      assert k < |cs0| by {
        assert cs[idx..][0] == cs[idx];
      }
      var o := DateStep(cs0, k, cs, idx, previous, cfg);
      if o.Err? {
        return Err(o.error);
      }
      cs, idx, previous := o.value.0, o.value.1, o.value.2;
      k := k + 1;
    }
    assert cs0[k..] == [];
    ThenEnds(cs[..idx], DateComponents([], previous, cfg), previous, cfg);
    r := Ok((cs[..idx], previous));
  }

  /** One round of the index loop: the component at `idx` is kept, or replaced by its words with
      the index moved past them. */
  method DateStep(cs0: seq<Component>, ghost k: nat, cs: seq<Component>, idx: nat, previous: Option<string>, cfg: Config)
    returns (r: Result<(seq<Component>, nat, Option<string>)>)
    requires k < |cs0| && idx < |cs| && cs[idx..] == cs0[k..]
    ensures r.Err? ==> Then(cs[..idx], DateComponents(cs0[k..], previous, cfg)) == Err(r.error)
    ensures r.Ok? ==> r.value.1 <= |r.value.0|
    ensures r.Ok? ==> r.value.0[r.value.1..] == cs0[k + 1..] && |r.value.0| - r.value.1 < |cs| - idx
    ensures r.Ok? ==> Then(cs[..idx], DateComponents(cs0[k..], previous, cfg))
                      == Then(r.value.0[..r.value.1], DateComponents(cs0[k + 1..], r.value.2, cfg))
  {
    hide DateSlot, DateComponents;
    assert cs[idx] == cs0[k] by {
      assert cs[idx..][0] == cs[idx];
    }
    DateComponentsAt(cs0, k, previous, cfg);
    var child := cs[idx];
    var h := if child.Literal? then Ok(None) else DateSlot(child, previous, cfg);
    if h.Err? {
      return Err(h.error);
    }
    var after := cs[idx + 1..];
    assert after == cs0[k + 1..] by {
      assert cs[idx + 1..] == cs[idx..][1..];
    }
    if h.value.None? {
      ThenThen(cs[..idx], [child], DateComponents(cs0[k + 1..], previous, cfg));
      assert cs[..idx + 1] == cs[..idx] + [child];
      return Ok((cs, idx + 1, previous));
    }
    var words := h.value.value.0;
    ThenThen(cs[..idx], words, DateComponents(cs0[k + 1..], Some(h.value.value.1), cfg));
    var before := cs[..idx];
    var next := before + words + after;
    assert next[..idx + |words|] == before + words && next[idx + |words|..] == after;
    return Ok((next, idx + |words|, Some(h.value.value.1)));
  }

  /** Nothing done leaves a result as it is; after the last component, what was done is the result. */
  lemma ThenEnds(done: seq<Component>, rest: Result<(seq<Component>, Option<string>)>, previous: Option<string>, cfg: Config)
    ensures Then([], rest) == rest
    ensures Then(done, DateComponents([], previous, cfg)) == Ok((done, previous))
  {
    if rest.Ok? {
      assert [] + rest.value.0 == rest.value.0;
    }
    assert done + [] == done;
  }

  // ---------------------------------------------------------------- the plan

  /** `_recurse`: a message's template components are realised; a node's children are visited in
      order, each starting from the previous tag the one before it left. */
  function DatePlan(p: Plan, previous: Option<string>, cfg: Config): Result<(Plan, Option<string>)>
    decreases p, 2
  {
    match p
    case Leaf(m) =>
      if m.template.None? then Ok((p, previous))
      else
        var o :- DateComponents(m.template.value.components, previous, cfg);
        Ok((Leaf(m.(template := Some(m.template.value.(components := o.0)))), o.1))
    case Node(_, rel) =>
      var o :- DateFrom(p, 0, previous, cfg);
      Ok((Node(o.0, rel), o.1))
  }

  function DateFrom(p: Plan, i: nat, previous: Option<string>, cfg: Config): Result<(seq<Plan>, Option<string>)>
    requires p.Node? && i <= |p.children|
    decreases p, 1, |p.children| - i
  {
    if i == |p.children| then Ok(([], previous))
    else
      var c :- DatePlan(p.children[i], previous, cfg);
      var rest :- DateFrom(p, i + 1, c.1, cfg);
      Ok(([c.0] + rest.0, rest.1))
  }

  /** The realisation of a whole plan, starting with no previous tag. */
  function DateDocument(p: Plan, cfg: Config): Result<Plan> {
    var o :- DatePlan(p, None, cfg);
    Ok(o.0)
  }

  /** `EUDateRealizer.run`. The language, with "-head" removed, plays no further part. */
  method Run(language: string, p: Plan, cfg: Config) returns (r: Result<Plan>)
    ensures r == DateDocument(p, cfg)
  {
    var o := Recurse(p, None, cfg);
    r := if o.Err? then Err(o.error) else Ok(o.value.0);
  }

  method Recurse(p: Plan, previous: Option<string>, cfg: Config) returns (r: Result<(Plan, Option<string>)>)
    ensures r == DatePlan(p, previous, cfg)
    decreases p, 2
  {
    if p.Leaf? {
      if p.message.template.None? {
        return Ok((p, previous));
      }
      var o := DateTemplate(p.message.template.value.components, previous, cfg);
      if o.Err? {
        return Err(o.error);
      }
      return Ok((Leaf(p.message.(template := Some(p.message.template.value.(components := o.value.0)))), o.value.1));
    }
    var o := RecurseChildren(p, previous, cfg);
    r := if o.Err? then Err(o.error) else Ok((Node(o.value.0, p.relation), o.value.1));
  }

  function ChildrenThen(done: seq<Plan>, rest: Result<(seq<Plan>, Option<string>)>): Result<(seq<Plan>, Option<string>)> {
    if rest.Err? then Err(rest.error) else Ok((done + rest.value.0, rest.value.1))
  }

  method RecurseChildren(p: Plan, previous0: Option<string>, cfg: Config) returns (r: Result<(seq<Plan>, Option<string>)>)
    requires p.Node?
    ensures r == DateFrom(p, 0, previous0, cfg)
    decreases p, 1
  {
    var done: seq<Plan> := [];
    var previous := previous0;
    var i := 0;
    ghost var all := DateFrom(p, 0, previous0, cfg);
    assert all.Ok? ==> [] + all.value.0 == all.value.0;
    while i < |p.children|
      invariant i <= |p.children|
      invariant DateFrom(p, 0, previous0, cfg) == ChildrenThen(done, DateFrom(p, i, previous, cfg))
      decreases |p.children| - i
    {
      var c := Recurse(p.children[i], previous, cfg);
      if c.Err? {
        return Err(c.error);
      }
      ghost var rest := DateFrom(p, i + 1, c.value.1, cfg);
      assert DateFrom(p, i, previous, cfg) == ChildrenThen([c.value.0], rest);
      assert rest.Ok? ==> done + ([c.value.0] + rest.value.0) == (done + [c.value.0]) + rest.value.0;
      done := done + [c.value.0];
      previous := c.value.1;
      i := i + 1;
    }
    assert done + [] == done;
    r := Ok((done, previous));
  }

  // ---------------------------------------------------------------- document order

  /** The same realisation over the plan's messages, one after another. */
  function DateMessages(ms: seq<Message>, previous: Option<string>, cfg: Config): Result<(seq<Message>, Option<string>)> {
    if ms == [] then Ok(([], previous))
    else
      var h :- DatePlan(Leaf(ms[0]), previous, cfg);
      var t :- DateMessages(ms[1..], h.1, cfg);
      Ok((Messages(h.0) + t.0, t.1))
  }

  function MessagesThen(done: seq<Message>, rest: Result<(seq<Message>, Option<string>)>): Result<(seq<Message>, Option<string>)> {
    if rest.Err? then Err(rest.error) else Ok((done + rest.value.0, rest.value.1))
  }

  lemma {:induction false} DateMessagesConcat(a: seq<Message>, b: seq<Message>, previous: Option<string>, cfg: Config)
    ensures DateMessages(a + b, previous, cfg) ==
      match DateMessages(a, previous, cfg)
      case Err(e) => Err(e)
      case Ok(x) => MessagesThen(x.0, DateMessages(b, x.1, cfg))
  {
    if a == [] {
      assert a + b == b;
      var rb := DateMessages(b, previous, cfg);
      assert rb.Ok? ==> [] + rb.value.0 == rb.value.0;
    } else {
      assert (a + b)[0] == a[0] && (a + b)[1..] == a[1..] + b;
      var h := DatePlan(Leaf(a[0]), previous, cfg);
      if h.Ok? {
        DateMessagesConcat(a[1..], b, h.value.1, cfg);
        var ra := DateMessages(a[1..], h.value.1, cfg);
        if ra.Ok? {
          var rb := DateMessages(b, ra.value.1, cfg);
          assert rb.Ok? ==> Messages(h.value.0) + (ra.value.0 + rb.value.0) == (Messages(h.value.0) + ra.value.0) + rb.value.0;
        }
      }
    }
  }

  /** The tree walk realises the messages in document order: it fails exactly when the walk over
      the plan's messages in order fails, with the same error, and otherwise gives the same
      messages and the same final previous tag. */
  lemma {:induction false} DocumentOrder(p: Plan, previous: Option<string>, cfg: Config)
    ensures var a := DatePlan(p, previous, cfg);
      var b := DateMessages(Messages(p), previous, cfg);
      (a.Ok? <==> b.Ok?) && (a.Err? ==> a.error == b.error)
      && (a.Ok? ==> Messages(a.value.0) == b.value.0 && a.value.1 == b.value.1)
    decreases p, 2
  {
    match p
    case Leaf(m) =>
      var a := DatePlan(p, previous, cfg);
      assert Messages(p) == [m] && [m][1..] == [];
      if a.Ok? {
        assert a.value.0.Leaf?;
        assert Messages(a.value.0) + [] == Messages(a.value.0);
      }
    case Node(cs, rel) =>
      assert cs[0..] == cs;
      DocumentOrderFrom(p, 0, previous, cfg);
      var a := DatePlan(p, previous, cfg);
      if a.Ok? {
        var out := DateFrom(p, 0, previous, cfg).value.0;
        MessagesOfWhole(Node(out, rel), Node(out, Sequence), out);
      }
  }

  lemma {:induction false} DocumentOrderFrom(p: Plan, i: nat, previous: Option<string>, cfg: Config)
    requires p.Node? && i <= |p.children|
    ensures var a := DateFrom(p, i, previous, cfg);
      var b := DateMessages(MessagesOf(p, p.children[i..]), previous, cfg);
      (a.Ok? <==> b.Ok?) && (a.Err? ==> a.error == b.error)
      && (a.Ok? ==> Flat(a.value.0) == b.value.0 && a.value.1 == b.value.1)
    decreases p, 1, |p.children| - i
  {
    if i < |p.children| {
      var c := p.children[i];
      assert p.children[i..][0] == c && p.children[i..][1..] == p.children[i + 1..];
      assert MessagesOf(p, p.children[i..]) == Messages(c) + MessagesOf(p, p.children[i + 1..]);
      DateMessagesConcat(Messages(c), MessagesOf(p, p.children[i + 1..]), previous, cfg);
      DocumentOrder(c, previous, cfg);
      var h := DatePlan(c, previous, cfg);
      if h.Ok? {
        DocumentOrderFrom(p, i + 1, h.value.1, cfg);
        var rest := DateFrom(p, i + 1, h.value.1, cfg);
        if rest.Ok? {
          FlatCons(h.value.0, rest.value.0);
        }
      }
    } else {
      assert Flat([]) == [];
    }
  }
}

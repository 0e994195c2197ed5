/** The surface realizer (`core/surface_realizer.py`): the plan, paragraphs of sentences, flattened
    to text between the delimiters of one output variant. */
module SurfaceRealizer {
  import opened Wrappers
  import opened Text
  import opened Models

  /** The delimiters of one variant, and whether an empty sentence is an error. */
  datatype Delimiters = Delimiters(paragraphStart: string, paragraphEnd: string,
                                   sentenceStart: string, sentenceEnd: string, failOnEmpty: bool)

  /** `HeadlineHTMLSurfaceRealizer`, `BodyHTMLSurfaceRealizer`, `BodyHTMLListSurfaceRealizer` and
      `BodyHTMLOrderedListSurfaceRealizer`. */
  const Headline := Delimiters("", "", "", "", true)
  const Body := Delimiters("<p>", "</p>", "", ". ", false)
  const BodyList := Delimiters("<ul>", "</ul>", "<li>", ".</li>", false)
  const BodyOrderedList := Delimiters("<ol>", "</ol>", "<li>", ".</li>", false)

  // ---------------------------------------------------------------- one sentence

  /** The characters of a text that are not whitespace, in order. */
  function Visible(s: string): (r: string)
    ensures |r| <= |s|
  {
    if s == [] then [] else (if IsSpace(s[0]) then [] else [s[0]]) + Visible(s[1..])
  }

  lemma {:induction false} VisibleConcat(a: string, b: string)
    ensures Visible(a + b) == Visible(a) + Visible(b)
  {
    if a != [] {
      var h := if IsSpace(a[0]) then [] else [a[0]];
      assert (a + b)[0] == a[0] && (a + b)[1..] == a[1..] + b;
      assert Visible(a + b) == h + Visible(a[1..] + b);
      VisibleConcat(a[1..], b);
      assert h + (Visible(a[1..]) + Visible(b)) == (h + Visible(a[1..])) + Visible(b);
    } else {
      assert a + b == b;
    }
  }

  /** `re.sub(r"\(\s", "(", s)`: the whitespace character just after each "(" is removed. */
  function DropAfterOpen(s: string): string {
    if |s| < 2 then s
    else if s[0] == '(' && IsSpace(s[1]) then "(" + DropAfterOpen(s[2..])
    else [s[0]] + DropAfterOpen(s[1..])
  }

  /** `re.sub(r"\s" + c, c, s)`: the whitespace character just before each c is removed. */
  function DropBefore(s: string, c: char): string {
    if |s| < 2 then s
    else if IsSpace(s[0]) && s[1] == c then [c] + DropBefore(s[2..], c)
    else [s[0]] + DropBefore(s[1..], c)
  }

  /** Without a "(" followed by whitespace the text stays as it is. */
  lemma {:induction false} DropAfterOpenNothing(s: string)
    requires forall i :: 0 <= i < |s| - 1 ==> !(s[i] == '(' && IsSpace(s[i + 1]))
    ensures DropAfterOpen(s) == s
    decreases |s|
  {
    if |s| >= 2 {
      assert forall j :: 0 <= j < |s| - 1 ==> s[1..][j] == s[j + 1];
      DropAfterOpenNothing(s[1..]);
      assert s == [s[0]] + s[1..];
    }
  }

  lemma {:induction false} DropBeforeNothing(s: string, c: char)
    requires forall i :: 0 <= i < |s| - 1 ==> !(IsSpace(s[i]) && s[i + 1] == c)
    ensures DropBefore(s, c) == s
    decreases |s|
  {
    if |s| >= 2 {
      assert forall j :: 0 <= j < |s| - 1 ==> s[1..][j] == s[j + 1];
      DropBeforeNothing(s[1..], c);
      assert s == [s[0]] + s[1..];
    }
  }

  /** The last character survives: always before c, and after "(" when it is no whitespace. */
  lemma {:induction false} DropAfterOpenLast(s: string)
    requires s != [] && !IsSpace(s[|s| - 1])
    ensures DropAfterOpen(s) != [] && DropAfterOpen(s)[|DropAfterOpen(s)| - 1] == s[|s| - 1]
    decreases |s|
  {
    if |s| >= 2 {
      if s[0] == '(' && IsSpace(s[1]) {
        if |s| > 2 {
          assert s[2..][|s| - 3] == s[|s| - 1];
          DropAfterOpenLast(s[2..]);
        }
      } else {
        assert s[1..][|s| - 2] == s[|s| - 1];
        DropAfterOpenLast(s[1..]);
      }
    }
  }

  lemma {:induction false} DropBeforeLast(s: string, c: char)
    requires s != []
    ensures DropBefore(s, c) != [] && DropBefore(s, c)[|DropBefore(s, c)| - 1] == s[|s| - 1]
    decreases |s|
  {
    if |s| >= 2 {
      if IsSpace(s[0]) && s[1] == c {
        if |s| > 2 {
          assert s[2..][|s| - 3] == s[|s| - 1];
          DropBeforeLast(s[2..], c);
        }
      } else {
        assert s[1..][|s| - 2] == s[|s| - 1];
        DropBeforeLast(s[1..], c);
      }
    }
  }

  /** The clean-ups remove whitespace and nothing else. */
  lemma {:induction false} DropAfterOpenVisible(s: string)
    ensures Visible(DropAfterOpen(s)) == Visible(s)
    decreases |s|
  {
    if |s| >= 2 {
      if s[0] == '(' && IsSpace(s[1]) {
        DropAfterOpenVisible(s[2..]);
        VisibleConcat("(", DropAfterOpen(s[2..]));
        assert s == [s[0]] + [s[1]] + s[2..];
        VisibleConcat([s[0]] + [s[1]], s[2..]);
        VisibleConcat([s[0]], [s[1]]);
      } else {
        DropAfterOpenVisible(s[1..]);
        VisibleConcat([s[0]], DropAfterOpen(s[1..]));
        assert s == [s[0]] + s[1..];
        VisibleConcat([s[0]], s[1..]);
      }
    }
  }

  lemma {:induction false} DropBeforeVisible(s: string, c: char)
    ensures Visible(DropBefore(s, c)) == Visible(s)
    decreases |s|
  {
    if |s| >= 2 {
      if IsSpace(s[0]) && s[1] == c {
        DropBeforeVisible(s[2..], c);
        VisibleConcat([c], DropBefore(s[2..], c));
        assert s == [s[0]] + [s[1]] + s[2..];
        VisibleConcat([s[0]] + [s[1]], s[2..]);
        VisibleConcat([s[0]], [s[1]]);
      } else {
        DropBeforeVisible(s[1..], c);
        VisibleConcat([s[0]], DropBefore(s[1..], c));
        assert s == [s[0]] + s[1..];
        VisibleConcat([s[0]], s[1..]);
      }
    }
  }

  /** The three clean-ups after "(", before ")" and before ",". */
  function Tidy(s: string): string {
    DropBefore(DropBefore(DropAfterOpen(s), ')'), ',')
  }

  lemma TidyVisible(s: string)
    ensures Visible(Tidy(s)) == Visible(s)
    ensures s != [] && !IsSpace(s[|s| - 1]) ==> Tidy(s) != [] && !IsSpace(Tidy(s)[|Tidy(s)| - 1])
    ensures s == [] ==> Tidy(s) == []
  {
    hide DropAfterOpen, DropBefore, Visible;
    var a := DropAfterOpen(s);
    var b := DropBefore(a, ')');
    DropAfterOpenVisible(s);
    DropBeforeVisible(a, ')');
    DropBeforeVisible(b, ',');
    if s != [] && !IsSpace(s[|s| - 1]) {
      DropAfterOpenLast(s);
      DropBeforeLast(a, ')');
      DropBeforeLast(b, ',');
    }
    if s == [] {
      DropAfterOpenNothing(s);
      DropBeforeNothing(a, ')');
      DropBeforeNothing(b, ',');
    }
  }

  /** `[str(component.value) for component in template.components]`. */
  function ComponentStrings(cs: seq<Component>, env: Env): (r: Result<seq<string>>)
    ensures r.Ok? ==> |r.value| == |cs| && forall i :: 0 <= i < |cs| ==>
      ComponentValue(cs[i]).Ok? && r.value[i] == Show(ComponentValue(cs[i]).value, env)
    ensures r.Err? ==> exists i :: 0 <= i < |cs| && ComponentValue(cs[i]).Err?
  {
    if cs == [] then Ok([])
    else
      var v :- ComponentValue(cs[0]);
      var rest :- ComponentStrings(cs[1..], env);
      assert forall i :: 1 <= i < |cs| ==> cs[i] == cs[1..][i - 1];
      Ok([Show(v, env)] + rest)
  }

  /** The strings that are not empty, in order. */
  function NonEmpty(ss: seq<string>): (r: seq<string>)
    ensures forall i :: 0 <= i < |r| ==> r[i] != []
    ensures forall s :: s in r <==> s in ss && s != []
  {
    if ss == [] then [] else (if ss[0] == [] then [] else [ss[0]]) + NonEmpty(ss[1..])
  }

  /** The sentence of a template: the non-empty component strings joined by single spaces,
      right-stripped, and tidied around brackets and commas. */
  function Sentence(cs: seq<Component>, env: Env): (r: Result<string>)
    ensures r.Err? <==> ComponentStrings(cs, env).Err?
    ensures r.Ok? ==> var joined := RStrip(Join(" ", NonEmpty(ComponentStrings(cs, env).value)));
      Visible(r.value) == Visible(joined) && (r.value == [] <==> joined == [])
      && (r.value == [] || !IsSpace(r.value[|r.value| - 1]))
  {
    hide Tidy, Visible;
    var ss :- ComponentStrings(cs, env);
    var joined := RStrip(Join(" ", NonEmpty(ss)));
    TidyVisible(joined);
    Ok(Tidy(joined))
  }

  /** `sent[0].upper() + sent[1:]`. */
  function Capitalize(s: string): (r: string)
    requires s != []
    ensures |r| == |s| && r[0] == UpperChar(s[0]) && r[1..] == s[1..]
  {
    [UpperChar(s[0])] + s[1..]
  }

  /** An empty sentence fails the headline and is skipped by the bodies; any other is
      capitalised and put between the sentence delimiters. */
  function Emit(d: Delimiters, sent: string): (r: Result<string>)
    ensures sent == [] ==> (r.Err? <==> d.failOnEmpty) && (r.Ok? ==> r.value == [])
    ensures sent != [] ==> r == Ok(d.sentenceStart + Capitalize(sent) + d.sentenceEnd)
  {
    if sent == [] then
      if d.failOnEmpty then Err(Exception("Empty sentence in surface realization")) else Ok([])
    else Ok(d.sentenceStart + Capitalize(sent) + d.sentenceEnd)
  }

  // ---------------------------------------------------------------- paragraphs and the document

  /** One child of a paragraph: a message gives its emitted sentence; a message without a template
      and a nested node, which has no template, raise AttributeError. */
  function Item(d: Delimiters, item: Plan, env: Env): (r: Result<string>)
    ensures item.Node? ==> r.Err?
    ensures item.Leaf? && item.message.template.Some? ==>
      r == (var s := Sentence(item.message.template.value.components, env); if s.Err? then Err(s.error) else Emit(d, s.value))
  {
    match item
    case Node(_, _) => Err(AttributeError("template"))
    case Leaf(m) =>
      if m.template.None? then Err(AttributeError("components"))
      else
        var sent :- Sentence(m.template.value.components, env);
        Emit(d, sent)
  }

  /** Two results in order: the first error, or the texts one after the other. */
  function Append(a: Result<string>, b: Result<string>): Result<string> {
    if a.Err? then a else if b.Err? then b else Ok(a.value + b.value)
  }

  /** The sentences of the items, one after the other. */
  function Items(d: Delimiters, items: seq<Plan>, env: Env): (r: Result<string>)
    ensures r.Err? ==> exists i :: 0 <= i < |items| && Item(d, items[i], env).Err?
  {
    if items == [] then Ok([])
    else
      var r := Append(Item(d, items[0], env), Items(d, items[1..], env));
      assert forall i :: 1 <= i < |items| ==> items[i] == items[1..][i - 1];
      r
  }

  /** `realize(sequence)`: a paragraph node gives the sentences of its children. A message in the
      place of a paragraph has components for children, which have no template, so it gives ""
      only when it has none. */
  function Paragraph(d: Delimiters, par: Plan, env: Env): Result<string> {
    match par
    case Node(items, _) => Items(d, items, env)
    case Leaf(m) => if ChildrenOf(m) == [] then Ok([]) else Err(AttributeError("template"))
  }

  /** All paragraphs are realized first; the first failure decides the error. */
  function Paragraphs(d: Delimiters, ps: seq<Plan>, env: Env): (r: Result<seq<string>>)
    ensures r.Ok? ==> |r.value| == |ps| && forall i :: 0 <= i < |ps| ==> Paragraph(d, ps[i], env) == Ok(r.value[i])
    ensures r.Err? ==> exists i :: 0 <= i < |ps| && Paragraph(d, ps[i], env).Err?
  {
    if ps == [] then Ok([])
    else
      var p :- Paragraph(d, ps[0], env);
      var rest :- Paragraphs(d, ps[1..], env);
      assert forall i :: 1 <= i < |ps| ==> ps[i] == ps[1..][i - 1];
      Ok([p] + rest)
  }

  /** Each paragraph between the paragraph delimiters, one after the other. */
  function Wrapped(d: Delimiters, paras: seq<string>): string {
    if paras == [] then [] else d.paragraphStart + paras[0] + d.paragraphEnd + Wrapped(d, paras[1..])
  }

  /** `run`: the paragraphs are the root's children. A message at the root has its components for
      children, and a component has no children to realize. */
  function Document(d: Delimiters, p: Plan, env: Env): Result<string> {
    match p
    case Node(ps, _) =>
      var paras :- Paragraphs(d, ps, env);
      Ok(Wrapped(d, paras))
    case Leaf(m) => if ChildrenOf(m) == [] then Ok([]) else Err(AttributeError("children"))
  }

  lemma {:induction false} WrappedSnoc(d: Delimiters, paras: seq<string>, p: string)
    ensures Wrapped(d, paras + [p]) == Wrapped(d, paras) + d.paragraphStart + p + d.paragraphEnd
  {
    if paras != [] {
      assert (paras + [p])[1..] == paras[1..] + [p];
      WrappedSnoc(d, paras[1..], p);
    }
  }

  /** The headline is the bare concatenation of its sentences; the body puts every paragraph in
      "<p>" and "</p>" and every sentence before ". ". */
  lemma {:induction false} HeadlineIsBare(paras: seq<string>)
    ensures Wrapped(Headline, paras) == Concat(paras)
  {
    if paras != [] {
      HeadlineIsBare(paras[1..]);
    }
  }

  lemma BodyDelimiters(sent: string)
    requires sent != []
    ensures Emit(Body, sent) == Ok(Capitalize(sent) + ". ")
    ensures Emit(BodyList, sent) == Ok("<li>" + Capitalize(sent) + ".</li>")
    ensures Emit(Headline, sent) == Ok(Capitalize(sent)) && Emit(Headline, []).Err?
    ensures Emit(Body, []) == Ok([]) && Emit(BodyList, []) == Ok([]) && Emit(BodyOrderedList, []) == Ok([])
    ensures Wrapped(Body, [sent]) == "<p>" + sent + "</p>"
  {
    assert "" + Capitalize(sent) + "" == Capitalize(sent);
    assert "" + Capitalize(sent) + ". " == Capitalize(sent) + ". ";
  }

  /** The brackets of a sentence lose the spaces the joining put inside them. */
  lemma TidyExample()
    ensures Tidy("( EU )") == "(EU)"
  {
    TidyExampleOpen();
    TidyExampleClose();
    TidyExampleComma();
  }

  lemma TidyExampleOpen()
    ensures DropAfterOpen("( EU )") == "(EU )"
  {
    var s := "( EU )";
    assert s[0] == '(' && IsSpace(s[1]) && s[2..] == "EU )";
    DropAfterOpenNothing("EU )");
  }

  lemma TidyExampleClose()
    ensures DropBefore("(EU )", ')') == "(EU)"
  {
    var s := "(EU )";
    assert s[1..] == "EU )" && s[1..][1..] == "U )" && s[1..][1..][1..] == " )";
    assert DropBefore(" )", ')') == ")";
  }

  lemma TidyExampleComma()
    ensures DropBefore("(EU)", ',') == "(EU)"
  {
    DropBeforeNothing("(EU)", ',');
  }

  // ---------------------------------------------------------------- the loops

  lemma ItemsAt(d: Delimiters, items: seq<Plan>, i: nat, env: Env)
    requires i < |items|
    ensures Items(d, items[i..], env) == Append(Item(d, items[i], env), Items(d, items[i + 1..], env))
  {
    assert items[i..][1..] == items[i + 1..];
  }

  /** The loop of `realize` over the children of a paragraph, appending each sentence. */
  method RealizeParagraph(d: Delimiters, par: Plan, env: Env) returns (r: Result<string>)
    ensures r == Paragraph(d, par, env)
  {
    if par.Leaf? {
      if ChildrenOf(par.message) == [] {
        return Ok([]);
      }
      return Err(AttributeError("template"));
    }
    assert Paragraph(d, par, env) == Items(d, par.children, env);
    r := RealizeItems(d, par.children, env);
  }

  /** The loop itself, over the items of a paragraph. */
  method RealizeItems(d: Delimiters, items: seq<Plan>, env: Env) returns (r: Result<string>)
    ensures r == Items(d, items, env)
  {
    assert items[0..] == items;
    AppendNil(Items(d, items, env));
    hide Items, Item, Paragraph, Sentence, Emit, Append;
    var output: string := [];
    var i := 0;
    while i < |items|
      invariant i <= |items|
      invariant Items(d, items, env) == Append(Ok(output), Items(d, items[i..], env))
      decreases |items| - i
    {
      var s := Item(d, items[i], env);
      ItemsAt(d, items, i, env);
      if s.Err? {
        AppendErr(output, s.error, Items(d, items[i + 1..], env));
        return Err(s.error);
      }
      AppendTwice(output, s.value, Items(d, items[i + 1..], env));
      output := output + s.value;
      i := i + 1;
    }
    ItemsEnd(d, items, env);
    AppendEnd(output);
    r := Ok(output);
  }

  lemma AppendNil(r: Result<string>)
    ensures Append(Ok([]), r) == r
  {
    if r.Ok? {
      assert [] + r.value == r.value;
    }
  }

  lemma AppendErr(output: string, e: Error, rest: Result<string>)
    ensures Append(Ok(output), Append(Err(e), rest)) == Err(e)
  {
  }

  lemma AppendTwice(output: string, s: string, rest: Result<string>)
    ensures Append(Ok(output), Append(Ok(s), rest)) == Append(Ok(output + s), rest)
  {
    if rest.Ok? {
      assert output + (s + rest.value) == (output + s) + rest.value;
    }
  }

  lemma AppendEnd(output: string)
    ensures Append(Ok(output), Ok([])) == Ok(output)
  {
    assert output + [] == output;
  }

  lemma ItemsEnd(d: Delimiters, items: seq<Plan>, env: Env)
    ensures Items(d, items[|items|..], env) == Ok([])
  {
    assert items[|items|..] == [];
  }

  /** `run`: the paragraphs first, then their concatenation between the delimiters. */
  method Run(d: Delimiters, p: Plan, env: Env) returns (r: Result<string>)
    ensures r == Document(d, p, env)
  {
    hide Paragraph, Paragraphs, Items;
    if p.Leaf? {
      if ChildrenOf(p.message) == [] {
        return Ok([]);
      }
      return Err(AttributeError("children"));
    }
    var ps := p.children;
    var paras: seq<string> := [];
    var i := 0;
    while i < |ps|
      invariant i <= |ps| && |paras| == i
      invariant forall j :: 0 <= j < i ==> Paragraph(d, ps[j], env) == Ok(paras[j])
      decreases |ps| - i
    {
      var s := RealizeParagraph(d, ps[i], env);
      if s.Err? {
        ParagraphsFail(d, ps, env, i);
        return Err(s.error);
      }
      paras := paras + [s.value];
      i := i + 1;
    }
    ParagraphsAll(d, ps, paras, env);
    var output: string := [];
    var k := 0;
    while k < |paras|
      invariant k <= |paras| && output == Wrapped(d, paras[..k])
      decreases |paras| - k
    {
      WrappedSnoc(d, paras[..k], paras[k]);
      assert paras[..k + 1] == paras[..k] + [paras[k]];
      output := output + d.paragraphStart + paras[k] + d.paragraphEnd;
      k := k + 1;
    }
    assert paras[..k] == paras;
    r := Ok(output);
  }

  lemma {:induction false} ParagraphsFail(d: Delimiters, ps: seq<Plan>, env: Env, i: nat)
    requires i < |ps| && Paragraph(d, ps[i], env).Err?
    requires forall j :: 0 <= j < i ==> Paragraph(d, ps[j], env).Ok?
    ensures Paragraphs(d, ps, env) == Err(Paragraph(d, ps[i], env).error)
  {
    if i > 0 {
      assert forall j :: 0 <= j < i - 1 ==> ps[1..][j] == ps[j + 1];
      ParagraphsFail(d, ps[1..], env, i - 1);
    }
  }

  lemma {:induction false} ParagraphsAll(d: Delimiters, ps: seq<Plan>, paras: seq<string>, env: Env)
    requires |paras| == |ps| && forall j :: 0 <= j < |ps| ==> Paragraph(d, ps[j], env) == Ok(paras[j])
    ensures Paragraphs(d, ps, env) == Ok(paras)
  {
    if ps != [] {
      assert forall j :: 0 <= j < |ps| - 1 ==> ps[1..][j] == ps[j + 1] && paras[1..][j] == paras[j + 1];
      ParagraphsAll(d, ps[1..], paras[1..], env);
      assert paras == [paras[0]] + paras[1..];
    }
  }
}

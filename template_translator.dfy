/** The template translator (`template_translator.py`, class `Translator`): lists of texts are
    sent to a machine-translation model as one text joined by a separator, placeholders are kept
    out of the translation, and a template is translated through its lexicalisations, keeping
    those in which every translated value can be found again. The model itself is a parameter. */
module TemplateTranslator {
  import opened Wrappers
  import opened Text
  import opened Tokens

  // ---------------------------------------------------------------- splitting on a separator

  /** Python's `s.split(sep)` for a non-empty separator: the texts between the occurrences found
      from left to right. */
  function SplitBy(s: string, sep: string): (r: seq<string>)
    requires sep != []
    ensures |r| >= 1
    decreases |s|
  {
    var k := Find(s, sep);
    if k == -1 then [s] else [s[..k]] + SplitBy(s[k + |sep|..], sep)
  }

  /** Joining the pieces with the separator gives the text back. */
  lemma {:induction false} JoinSplitBy(s: string, sep: string)
    requires sep != []
    ensures Join(sep, SplitBy(s, sep)) == s
    decreases |s|
  {
    var k := Find(s, sep);
    if k != -1 {
      var rest := SplitBy(s[k + |sep|..], sep);
      JoinSplitBy(s[k + |sep|..], sep);
      JoinCons(sep, s[..k], rest);
      assert s == s[..k] + s[k..k + |sep|] + s[k + |sep|..];
    }
  }

  /** No proper prefix of the separator is also its suffix, so an occurrence cannot straddle a
      joint between a piece and the separator. */
  predicate BorderFree(sep: string) {
    forall k :: 1 <= k < |sep| ==> sep[..k] != sep[|sep| - k..]
  }

  lemma SplitNoSeparator(s: string, sep: string)
    requires sep != [] && !Contains(s, sep)
    ensures SplitBy(s, sep) == [s]
  {
  }

  /** An occurrence of the separator in `x + sep + y` cannot start inside `x`. */
  lemma NoEarlyOccurrence(x: string, sep: string, y: string, r: int)
    requires sep != [] && BorderFree(sep) && !Contains(x, sep) && 0 <= r < |x|
    ensures !OccursAt(x + sep + y, sep, r)
  {
    var s := x + sep + y;
    if r + |sep| <= |x| {
      assert s[r..r + |sep|] == x[r..r + |sep|];
      assert !OccursAt(x, sep, r);
    } else {
      var l := |x| - r;
      var k := |sep| - l;
      assert s[r..r + |sep|][l..] == sep[..k] by {
        forall j | 0 <= j < k ensures s[r..r + |sep|][l..][j] == sep[..k][j] {
          assert s[r + l + j] == (x + sep)[|x| + j] == sep[j];
        }
      }
      assert sep[..k] != sep[|sep| - k..];
    }
  }

  lemma FindAtSeparator(x: string, sep: string, y: string)
    requires sep != [] && BorderFree(sep) && !Contains(x, sep)
    ensures Find(x + sep + y, sep) == |x|
  {
    var s := x + sep + y;
    assert s[|x|..|x| + |sep|] == sep;
    assert OccursAt(s, sep, |x|);
    forall r | 0 <= r < |x| ensures !OccursAt(s, sep, r) {
      NoEarlyOccurrence(x, sep, y, r);
    }
  }

  /** Splitting a joined list gives the list back, when no piece holds the separator and the
      separator has no border. */
  lemma {:induction false} SplitJoin(xs: seq<string>, sep: string)
    requires sep != [] && BorderFree(sep) && xs != []
    requires forall i :: 0 <= i < |xs| ==> !Contains(xs[i], sep)
    ensures SplitBy(Join(sep, xs), sep) == xs
    decreases |xs|
  {
    if |xs| == 1 {
      SplitNoSeparator(xs[0], sep);
    } else {
      assert forall i :: 0 <= i < |xs[1..]| ==> xs[1..][i] == xs[i + 1];
      assert xs == [xs[0]] + xs[1..];
      assert !Contains(xs[0], sep);
      hide *;
      var rest := Join(sep, xs[1..]);
      var s := xs[0] + sep + rest;
      JoinCons(sep, xs[0], xs[1..]);
      FindAtSeparator(xs[0], sep, rest);
      SplitByFound(s, sep, |xs[0]|);
      ConcatSlices(xs[0], sep, rest);
      SplitJoin(xs[1..], sep);
    }
  }

  lemma ConcatSlices(x: string, sep: string, y: string)
    ensures (x + sep + y)[..|x|] == x && (x + sep + y)[|x| + |sep|..] == y
  {
  }

  lemma SplitByFound(s: string, sep: string, k: nat)
    requires sep != [] && Find(s, sep) == k
    ensures k + |sep| <= |s| && SplitBy(s, sep) == [s[..k]] + SplitBy(s[k + |sep|..], sep)
  {
    hide FindFrom, OccursAt, Contains;
  }

  /** The default separator. */
  const ConcatPlaceholder := ">>>CONCAT<<<"

  lemma ConcatPlaceholderBorderFree()
    ensures BorderFree(ConcatPlaceholder)
  {
    var sep := ConcatPlaceholder;
    forall k | 1 <= k < |sep| ensures sep[..k] != sep[|sep| - k..] {
      if k <= 9 {
        assert sep[..k][k - 1] != sep[|sep| - k..][k - 1];
      } else {
        assert sep[..k][2] != sep[|sep| - k..][2];
      }
    }
  }

  /** With a separator that has a border the round trip fails: ["a", ""] joined by "aa" is "aaa",
      which splits into ["", "a"]. */
  lemma BorderedSeparator()
    ensures SplitBy(Join("aa", ["a", ""]), "aa") == ["", "a"]
  {
    assert Join("aa", ["a", ""]) == "aaa";
    assert OccursAt("aaa", "aa", 0);
    assert Find("aaa", "aa") == 0;
    assert "aaa"[2..] == "a";
    assert !OccursAt("a", "aa", 0);
    assert SplitBy("a", "aa") == ["a"];
  }

  // ---------------------------------------------------------------- the translator

  /** The translation model (`_translate_list_values`: texts in, texts out), the separator and
      the tokenizer. */
  datatype Translator = Translator(model: seq<string> -> seq<string>, concatPlaceholder: string,
                                   tokenizer: Tokenizer)

  /** `_concat_list`. */
  function ConcatList(tr: Translator, xs: seq<string>): string {
    Join(tr.concatPlaceholder, xs)
  }

  /** `_extract_list`: an empty separator raises ValueError. */
  function ExtractList(tr: Translator, s: string): (r: Result<seq<string>>)
    ensures r.Err? <==> tr.concatPlaceholder == []
    ensures r.Ok? ==> Join(tr.concatPlaceholder, r.value) == s
  {
    if tr.concatPlaceholder == [] then Err(ValueError("empty separator"))
    else
      JoinSplitBy(s, tr.concatPlaceholder);
      Ok(SplitBy(s, tr.concatPlaceholder))
  }

  /** A non-empty list survives the trip through one joined text. */
  lemma ExtractConcat(tr: Translator, xs: seq<string>)
    requires tr.concatPlaceholder != [] && BorderFree(tr.concatPlaceholder) && xs != []
    requires forall i :: 0 <= i < |xs| ==> !Contains(xs[i], tr.concatPlaceholder)
    ensures ExtractList(tr, ConcatList(tr, xs)) == Ok(xs)
  {
    SplitJoin(xs, tr.concatPlaceholder);
  }

  /** The empty list does not survive it: it comes back as one empty text. */
  lemma ExtractConcatEmpty(tr: Translator)
    requires tr.concatPlaceholder != []
    ensures ExtractList(tr, ConcatList(tr, [])) == Ok([""])
  {
    assert !OccursAt("", tr.concatPlaceholder, 0);
  }

  /** `_translate_list_str` (the cache has size 0, so every call goes to the model). */
  function TranslateList(tr: Translator, xs: seq<string>): Result<seq<string>> {
    var parts :- ExtractList(tr, ConcatList(tr, xs));
    Ok(tr.model(parts))
  }

  /** With the default separator a non-empty list free of it goes to the model as it is. */
  lemma TranslateListDirect(tr: Translator, xs: seq<string>)
    requires tr.concatPlaceholder == ConcatPlaceholder && xs != []
    requires forall i :: 0 <= i < |xs| ==> !Contains(xs[i], ConcatPlaceholder)
    ensures TranslateList(tr, xs) == Ok(tr.model(xs))
  {
    ConcatPlaceholderBorderFree();
    ExtractConcat(tr, xs);
  }

  // ---------------------------------------------------------------- token sequences

  /** The tokens with the given placeholder flag, in order. */
  function OfKind(ts: seq<Token>, placeholder: bool): (r: seq<Token>)
    ensures |r| <= |ts|
    ensures forall i :: 0 <= i < |r| ==> r[i].isPlaceholder == placeholder
  {
    if ts == [] then []
    else (if ts[0].isPlaceholder == placeholder then [ts[0]] else []) + OfKind(ts[1..], placeholder)
  }

  lemma {:induction false} OfKindConcat(a: seq<Token>, b: seq<Token>, placeholder: bool)
    ensures OfKind(a + b, placeholder) == OfKind(a, placeholder) + OfKind(b, placeholder)
    decreases |a|
  {
    if a == [] {
      assert a + b == b;
    } else {
      hide *;
      OfKindConcat(a[1..], b, placeholder);
      ConsConcat(a, b);
      OfKindCons(a + b, placeholder);
      OfKindCons(a, placeholder);
      var head := if a[0].isPlaceholder == placeholder then [a[0]] else [];
      SeqAssoc(head, OfKind(a[1..], placeholder), OfKind(b, placeholder));
    }
  }

  lemma ConsConcat<T>(a: seq<T>, b: seq<T>)
    requires a != []
    ensures (a + b)[0] == a[0] && (a + b)[1..] == a[1..] + b
  {
  }

  lemma SeqAssoc<T>(x: seq<T>, y: seq<T>, z: seq<T>)
    ensures x + (y + z) == (x + y) + z
  {
  }

  lemma OfKindCons(ts: seq<Token>, placeholder: bool)
    requires ts != []
    ensures OfKind(ts, placeholder) == (if ts[0].isPlaceholder == placeholder then [ts[0]] else []) + OfKind(ts[1..], placeholder)
  {
  }

  function Texts(ts: seq<Token>): (r: seq<string>)
    ensures |r| == |ts| && forall i :: 0 <= i < |ts| ==> r[i] == ts[i].text
  {
    seq(|ts|, i requires 0 <= i < |ts| => ts[i].text)
  }

  /** The texts `_translate_token_seq` sends to the model: those of the non-placeholder tokens. */
  function SourceTexts(ts: seq<Token>): seq<string> {
    Texts(OfKind(ts, false))
  }

  lemma OfKindStep(ts: seq<Token>, i: nat)
    requires i < |ts|
    ensures OfKind(ts[..i + 1], true) == OfKind(ts[..i], true) + (if ts[i].isPlaceholder then [ts[i]] else [])
    ensures OfKind(ts[..i + 1], false) == OfKind(ts[..i], false) + (if ts[i].isPlaceholder then [] else [ts[i]])
    ensures OfKind(ts[i..], ts[i].isPlaceholder) == [ts[i]] + OfKind(ts[i + 1..], ts[i].isPlaceholder)
    ensures OfKind(ts[i..], !ts[i].isPlaceholder) == OfKind(ts[i + 1..], !ts[i].isPlaceholder)
    ensures |OfKind(ts[..i], false)| + |OfKind(ts[i..], false)| == |OfKind(ts, false)|
  {
    OfKindPrefixStep(ts, i, true);
    OfKindPrefixStep(ts, i, false);
    OfKindSuffixStep(ts, i, true);
    OfKindSuffixStep(ts, i, false);
    assert ts == ts[..i] + ts[i..];
    OfKindConcat(ts[..i], ts[i..], false);
  }

  lemma OfKindPrefixStep(ts: seq<Token>, i: nat, placeholder: bool)
    requires i < |ts|
    ensures OfKind(ts[..i + 1], placeholder) == OfKind(ts[..i], placeholder) + (if ts[i].isPlaceholder == placeholder then [ts[i]] else [])
  {
    assert ts[..i + 1] == ts[..i] + [ts[i]];
    OfKindConcat(ts[..i], [ts[i]], placeholder);
    assert [ts[i]][1..] == [];
  }

  lemma OfKindSuffixStep(ts: seq<Token>, i: nat, placeholder: bool)
    requires i < |ts|
    ensures OfKind(ts[i..], placeholder) == (if ts[i].isPlaceholder == placeholder then [ts[i]] else []) + OfKind(ts[i + 1..], placeholder)
  {
    assert ts[i..][1..] == ts[i + 1..];
  }

  /** The position among the non-placeholder tokens of the non-placeholder token at `i`. */
  function ActualRank(ts: seq<Token>, i: nat): (r: nat)
    requires i < |ts| && !ts[i].isPlaceholder
    ensures r < |OfKind(ts, false)|
  {
    OfKindStep(ts, i);
    |OfKind(ts[..i], false)|
  }

  /** Token `j` of `out` is where `_translate_token_seq` puts it: a placeholder unchanged, any
      other token replaced by the translation with its rank. */
  predicate RebuiltAt(source: seq<Token>, translated: seq<string>, out: seq<Token>, j: nat)
    requires j < |source| && j < |out| && |translated| == |OfKind(source, false)|
  {
    if source[j].isPlaceholder then out[j] == source[j]
    else out[j] == Token(translated[ActualRank(source, j)], false)
  }

  /** `_translate_token_seq`: the placeholders and the other tokens are set apart, the texts of
      the others translated in one call, and the sequence rebuilt: each placeholder stays where
      it was, the k-th other token becomes the k-th translation. A model that does not return one
      translation per text fails the assertion. */
  method TranslateTokenSeq(tr: Translator, source: seq<Token>) returns (r: Result<seq<Token>>)
    ensures var t := TranslateList(tr, SourceTexts(source));
      (r.Ok? <==> t.Ok? && |t.value| == |SourceTexts(source)|)
      && (r.Err? && t.Ok? ==> r.error == AssertionFailed)
      && (r.Ok? ==> (|r.value| == |source| &&
            forall i :: 0 <= i < |source| ==> RebuiltAt(source, t.value, r.value, i)))
  {
    var placeholders: seq<Token> := [];
    var actual: seq<Token> := [];
    for k := 0 to |source|
      invariant placeholders == OfKind(source[..k], true) && actual == OfKind(source[..k], false)
    {
      OfKindStep(source, k);
      if source[k].isPlaceholder {
        placeholders := placeholders + [source[k]];
      } else {
        actual := actual + [source[k]];
      }
    }
    assert source[..|source|] == source;
    var sourceText := Texts(actual);
    var t := TranslateList(tr, sourceText);
    if t.Err? {
      return Err(t.error);
    }
    if |sourceText| != |t.value| {
      return Err(AssertionFailed);
    }
    var translation := Rebuild(source, placeholders, t.value);
    return Ok(translation);
  }

  /** The second loop of `_translate_token_seq`: placeholders and translations taken from the
      front of their lists, one per token. */
  method Rebuild(source: seq<Token>, placeholders0: seq<Token>, translated0: seq<string>) returns (out: seq<Token>)
    requires placeholders0 == OfKind(source, true) && |translated0| == |OfKind(source, false)|
    ensures |out| == |source| && forall i :: 0 <= i < |source| ==> RebuiltAt(source, translated0, out, i)
  {
    hide RebuiltAt, OfKind;
    var placeholders := placeholders0;
    var translated := translated0;
    out := [];
    ghost var c := 0;
    assert source[0..] == source && source[..0] == [];
    for i := 0 to |source|
      invariant |out| == i
      invariant placeholders == OfKind(source[i..], true)
      invariant c == |OfKind(source[..i], false)| && c + |OfKind(source[i..], false)| == |translated0|
      invariant translated == translated0[c..]
      invariant forall j :: 0 <= j < i ==> RebuiltAt(source, translated0, out, j)
    {
      OfKindStep(source, i);
      ghost var prev := out;
      if source[i].isPlaceholder {
        out := out + [placeholders[0]];
        placeholders := placeholders[1..];
        RebuiltPlaceholder(source, translated0, out, i);
      } else {
        assert ActualRank(source, i) == c;
        out := out + [Token(translated[0], false)];
        translated := translated[1..];
        c := c + 1;
        RebuiltActual(source, translated0, out, i);
      }
      forall j | 0 <= j < i ensures RebuiltAt(source, translated0, out, j) {
        RebuiltPrefix(source, translated0, prev, out, j);
      }
    }
  }

  lemma RebuiltPlaceholder(source: seq<Token>, translated: seq<string>, out: seq<Token>, j: nat)
    requires j < |source| && j < |out| && |translated| == |OfKind(source, false)|
    requires source[j].isPlaceholder && out[j] == source[j]
    ensures RebuiltAt(source, translated, out, j)
  {
  }

  lemma RebuiltActual(source: seq<Token>, translated: seq<string>, out: seq<Token>, j: nat)
    requires j < |source| && j < |out| && |translated| == |OfKind(source, false)|
    requires !source[j].isPlaceholder && out[j] == Token(translated[ActualRank(source, j)], false)
    ensures RebuiltAt(source, translated, out, j)
  {
  }

  lemma RebuiltPrefix(source: seq<Token>, translated: seq<string>, a: seq<Token>, b: seq<Token>, j: nat)
    requires j < |a| <= |b| && j < |source| && a == b[..|a|] && |translated| == |OfKind(source, false)|
    requires RebuiltAt(source, translated, a, j)
    ensures RebuiltAt(source, translated, b, j)
  {
    assert a[j] == b[j];
  }

  // ---------------------------------------------------------------- replacements

  /** `_translate_replacement`: the value translated alone, the name kept; a model that returns
      nothing raises IndexError. */
  function TranslateReplacement(tr: Translator, r: Replacement): (t: Result<Replacement>)
    ensures t.Ok? ==> t.value.entityName == r.entityName
  {
    var out :- TranslateList(tr, [r.entityValue]);
    if out == [] then Err(IndexError) else Ok(Replacement(r.entityName, out[0]))
  }

  /** A value free of the separator is sent to the model as it is. */
  lemma TranslateReplacementValue(tr: Translator, r: Replacement)
    requires tr.concatPlaceholder != [] && !Contains(r.entityValue, tr.concatPlaceholder)
    requires tr.model([r.entityValue]) != []
    ensures TranslateReplacement(tr, r) == Ok(Replacement(r.entityName, tr.model([r.entityValue])[0]))
  {
    SplitNoSeparator(r.entityValue, tr.concatPlaceholder);
  }

  function Values(rs: seq<Replacement>): (r: seq<string>)
    ensures |r| == |rs| && forall i :: 0 <= i < |rs| ==> r[i] == rs[i].entityValue
  {
    seq(|rs|, i requires 0 <= i < |rs| => rs[i].entityValue)
  }

  /** `_translate_replacementset`: all values translated in one call, paired again with the
      names by `zip`, which stops at the shorter list. */
  function TranslateReplacementSet(tr: Translator, rs: seq<Replacement>): (r: Result<seq<Replacement>>)
    ensures r.Ok? ==> |r.value| <= |rs|
    ensures r.Ok? ==> forall i :: 0 <= i < |r.value| ==> r.value[i].entityName == rs[i].entityName
  {
    var vs :- TranslateList(tr, Values(rs));
    var n := if |vs| < |rs| then |vs| else |rs|;
    Ok(seq(n, i requires 0 <= i < n => Replacement(rs[i].entityName, vs[i])))
  }

  /** When the model returns one text per value, the names are exactly the original names and
      the values the model's texts, in order; distinct names stay distinct. */
  lemma TranslateReplacementSetMeaning(tr: Translator, rs: seq<Replacement>)
    requires TranslateList(tr, Values(rs)).Ok? && |TranslateList(tr, Values(rs)).value| == |rs|
    ensures var r := TranslateReplacementSet(tr, rs);
      r.Ok? && |r.value| == |rs|
      && (forall i :: 0 <= i < |rs| ==> r.value[i] == Replacement(rs[i].entityName, TranslateList(tr, Values(rs)).value[i]))
      && (DistinctNames(rs) ==> DistinctNames(r.value))
  {
  }

  /** All sets of a template, the first failure raising. */
  function TranslateSets(tr: Translator, sets: seq<seq<Replacement>>): (r: Result<seq<seq<Replacement>>>)
    ensures r.Ok? ==> |r.value| == |sets|
    ensures r.Ok? ==> forall k :: 0 <= k < |sets| ==> TranslateReplacementSet(tr, sets[k]) == Ok(r.value[k])
  {
    if sets == [] then Ok([])
    else
      var first :- TranslateReplacementSet(tr, sets[0]);
      var rest :- TranslateSets(tr, sets[1..]);
      Ok([first] + rest)
  }

  // ---------------------------------------------------------------- templates

  /** The translated lexicalisations, paired with their translated sets, in which every
      translated value is found again: the tokens with those values turned back into slots. */
  function Kept(tok: Tokenizer, lexes: seq<seq<Token>>, sets: seq<seq<Replacement>>, caseSensitive: bool)
    : seq<(seq<Token>, seq<Replacement>)>
    decreases |lexes|
  {
    if lexes == [] || sets == [] then []
    else
      var d := DelexicalizeFrom(tok, lexes[0], sets[0], caseSensitive);
      (if d.Some? then [(d.value, sets[0])] else []) + Kept(tok, lexes[1..], sets[1..], caseSensitive)
  }

  lemma KeptStep(tok: Tokenizer, lexes: seq<seq<Token>>, sets: seq<seq<Replacement>>, caseSensitive: bool, i: nat)
    requires i < |lexes| && i < |sets|
    ensures var d := DelexicalizeFrom(tok, lexes[i], sets[i], caseSensitive);
      Kept(tok, lexes[i..], sets[i..], caseSensitive)
      == (if d.Some? then [(d.value, sets[i])] else []) + Kept(tok, lexes[i + 1..], sets[i + 1..], caseSensitive)
  {
    assert lexes[i..][1..] == lexes[i + 1..] && sets[i..][1..] == sets[i + 1..];
  }

  lemma KeptEnd(tok: Tokenizer, lexes: seq<seq<Token>>, sets: seq<seq<Replacement>>, caseSensitive: bool)
    requires lexes == [] || sets == []
    ensures Kept(tok, lexes, sets, caseSensitive) == []
  {
  }

  function Min(a: nat, b: nat): nat {
    if a < b then a else b
  }

  /** `_translate_template` keeps exactly the pairs in which every value is found: a pair is in
      the output iff it comes from some position whose delexicalisation succeeds; none is lost. */
  lemma {:induction false} KeptMeaning(tok: Tokenizer, lexes: seq<seq<Token>>, sets: seq<seq<Replacement>>,
                                       caseSensitive: bool, p: (seq<Token>, seq<Replacement>))
    ensures p in Kept(tok, lexes, sets, caseSensitive) <==>
      exists k :: 0 <= k < Min(|lexes|, |sets|) && sets[k] == p.1
                  && DelexicalizeFrom(tok, lexes[k], sets[k], caseSensitive) == Some(p.0)
    ensures |Kept(tok, lexes, sets, caseSensitive)| <= Min(|lexes|, |sets|)
    decreases |lexes|
  {
    if lexes != [] && sets != [] {
      var d := DelexicalizeFrom(tok, lexes[0], sets[0], caseSensitive);
      var head := if d.Some? then [(d.value, sets[0])] else [];
      var rest := Kept(tok, lexes[1..], sets[1..], caseSensitive);
      assert Kept(tok, lexes, sets, caseSensitive) == head + rest;
      assert Min(|lexes[1..]|, |sets[1..]|) == Min(|lexes|, |sets|) - 1;
      hide Kept, DelexicalizeFrom, Min;
      KeptMeaning(tok, lexes[1..], sets[1..], caseSensitive, p);
      if p in rest {
        var k :| 0 <= k < Min(|lexes[1..]|, |sets[1..]|) && sets[1..][k] == p.1
                 && DelexicalizeFrom(tok, lexes[1..][k], sets[1..][k], caseSensitive) == Some(p.0);
        assert sets[k + 1] == p.1 && lexes[k + 1] == lexes[1..][k];
      }
      if exists k :: 0 <= k < Min(|lexes|, |sets|) && sets[k] == p.1
                     && DelexicalizeFrom(tok, lexes[k], sets[k], caseSensitive) == Some(p.0) {
        var k :| 0 <= k < Min(|lexes|, |sets|) && sets[k] == p.1
                 && DelexicalizeFrom(tok, lexes[k], sets[k], caseSensitive) == Some(p.0);
        if k > 0 {
          assert sets[1..][k - 1] == p.1 && lexes[1..][k - 1] == lexes[k];
        } else {
          assert p == (d.value, sets[0]);
        }
      }
    }
  }

  /** Every pair is kept when every value is found. */
  lemma {:induction false} KeptAll(tok: Tokenizer, lexes: seq<seq<Token>>, sets: seq<seq<Replacement>>, caseSensitive: bool)
    requires forall k :: 0 <= k < Min(|lexes|, |sets|) ==> DelexicalizeFrom(tok, lexes[k], sets[k], caseSensitive).Some?
    ensures |Kept(tok, lexes, sets, caseSensitive)| == Min(|lexes|, |sets|)
    decreases |lexes|
  {
    if lexes != [] && sets != [] {
      forall k | 0 <= k < Min(|lexes[1..]|, |sets[1..]|)
        ensures DelexicalizeFrom(tok, lexes[1..][k], sets[1..][k], caseSensitive).Some?
      {
        assert lexes[1..][k] == lexes[k + 1] && sets[1..][k] == sets[k + 1];
      }
      KeptAll(tok, lexes[1..], sets[1..], caseSensitive);
    }
  }

  /** `_translate_template` on values: the lexicalisations as text, translated in one call; the
      sets translated; each translation tokenized and searched for its set's values. */
  function TranslateTemplateSpec(tr: Translator, source: Template, caseSensitive: bool)
    : Result<seq<(seq<Token>, seq<Replacement>)>>
    reads source
  {
    var texts :- source.RealizationTexts(Some(tr.tokenizer));
    var translated :- TranslateList(tr, texts);
    var trSets :- TranslateSets(tr, source.replacementSets);
    Ok(Kept(tr.tokenizer, Tokenized(tr.tokenizer, translated), trSets, caseSensitive))
  }

  function Tokenized(tok: Tokenizer, texts: seq<string>): (r: seq<seq<Token>>)
    ensures |r| == |texts| && forall i :: 0 <= i < |texts| ==> r[i] == tok.tokenize(texts[i])
  {
    seq(|texts|, i requires 0 <= i < |texts| => tok.tokenize(texts[i]))
  }

  /** `_translate_template`. */
  method TranslateTemplate(tr: Translator, source: Template, caseSensitive: bool) returns (r: Result<seq<Template>>)
    ensures var spec := TranslateTemplateSpec(tr, source, caseSensitive);
      (r.Ok? <==> spec.Ok?) && (r.Err? ==> r.error == spec.error)
      && (r.Ok? ==> (|r.value| == |spec.value| && forall j :: 0 <= j < |r.value| ==>
            fresh(r.value[j]) && r.value[j].tokens == spec.value[j].0 && r.value[j].replacementSets == [spec.value[j].1]))
  {
    var lexicalizations := source.RealizationTexts(Some(tr.tokenizer));
    if lexicalizations.Err? {
      return Err(lexicalizations.error);
    }
    var translatedLex := TranslateList(tr, lexicalizations.value);
    if translatedLex.Err? {
      return Err(translatedLex.error);
    }
    var translatedSets := TranslateSets(tr, source.replacementSets);
    if translatedSets.Err? {
      return Err(translatedSets.error);
    }
    var out := KeepFound(tr.tokenizer, Tokenized(tr.tokenizer, translatedLex.value), translatedSets.value, caseSensitive);
    return Ok(out);
  }

  /** The output loop of `_translate_template`: one new template per pair whose values are all
      found again. */
  method KeepFound(tok: Tokenizer, tokenized: seq<seq<Token>>, sets: seq<seq<Replacement>>, caseSensitive: bool)
    returns (out: seq<Template>)
    ensures var kept := Kept(tok, tokenized, sets, caseSensitive);
      |out| == |kept| && forall j :: 0 <= j < |out| ==>
        fresh(out[j]) && out[j].tokens == kept[j].0 && out[j].replacementSets == [kept[j].1]
  {
    out := [];
    ghost var kept: seq<(seq<Token>, seq<Replacement>)> := [];
    var n := Min(|tokenized|, |sets|);
    assert tokenized[0..] == tokenized && sets[0..] == sets;
    assert n <= |tokenized| && n <= |sets| && (n == |tokenized| || n == |sets|);
    hide *;
    for i := 0 to n
      invariant |out| == |kept|
      invariant Kept(tok, tokenized, sets, caseSensitive) == kept + Kept(tok, tokenized[i..], sets[i..], caseSensitive)
      invariant forall j :: 0 <= j < |out| ==>
        fresh(out[j]) && out[j].tokens == kept[j].0 && out[j].replacementSets == [kept[j].1]
    {
      KeptStep(tok, tokenized, sets, caseSensitive, i);
      ghost var rest := Kept(tok, tokenized[i + 1..], sets[i + 1..], caseSensitive);
      var t := KeepOne(tok, tokenized[i], sets[i], caseSensitive);
      if t.Some? {
        ghost var pair := (t.value.tokens, sets[i]);
        assert kept + [pair] + rest == kept + ([pair] + rest);
        ghost var out0, kept0 := out, kept;
        out := out + [t.value];
        kept := kept + [pair];
        assert forall j :: 0 <= j < |out0| ==> out[j] == out0[j] && kept[j] == kept0[j];
        assert out[|out0|] == t.value && kept[|out0|] == pair;
      } else {
        assert [] + rest == rest;
      }
    }
    KeptEnd(tok, tokenized[n..], sets[n..], caseSensitive);
  }

  /** One pair of the output loop: a new template iff every value is found again. */
  method KeepOne(tok: Tokenizer, lex: seq<Token>, rs: seq<Replacement>, caseSensitive: bool) returns (t: Option<Template>)
    ensures var d := DelexicalizeFrom(tok, lex, rs, caseSensitive);
      (t.Some? <==> d.Some?) && (t.Some? ==> fresh(t.value) && t.value.tokens == d.value && t.value.replacementSets == [rs])
  {
    var d := Delexicalize(tok, lex, rs, caseSensitive);
    if d.Some? {
      var n := new Template(d.value, [rs]);
      return Some(n);
    }
    return None;
  }
}

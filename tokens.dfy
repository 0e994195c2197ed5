/** The token machinery of the template translator (`template_translator.py`): tokens with a
    placeholder flag, replacements and replacement sets, sub-sequence search in token sequences,
    lexicalisation (filling placeholders) and its inverse (turning a value back into a slot), and
    the Template object that holds a token sequence with its replacement sets. */
module Tokens {
  import opened Wrappers
  import opened Text
  import opened Models

  // ---------------------------------------------------------------- tokens

  /** A token: its text, and whether it stands for a slot (the text is then the slot's name). */
  datatype Token = Token(text: string, isPlaceholder: bool)

  function BoolStr(b: bool): string {
    if b then "True" else "False"
  }

  /** `str(token)`, which `Token.__eq__` compares. */
  function TokenStr(t: Token): string {
    "Token(" + t.text + ", " + BoolStr(t.isPlaceholder) + ")"
  }

  lemma TokenStrParts(t: Token)
    ensures var s := TokenStr(t);
      |s| == |t.text| + (if t.isPlaceholder then 13 else 14)
      && s[|s| - 3] == (if t.isPlaceholder then 'u' else 's')
      && s[6..6 + |t.text|] == t.text
  {
    var tail := ", " + BoolStr(t.isPlaceholder) + ")";
    assert TokenStr(t) == "Token(" + t.text + tail;
  }

  /** Two tokens print alike exactly when they have the same text and the same flag, so `==` on
      tokens is equality of the pair. */
  lemma TokenEquality(a: Token, b: Token)
    ensures TokenStr(a) == TokenStr(b) <==> a == b
  {
    if TokenStr(a) == TokenStr(b) {
      TokenStrParts(a);
      TokenStrParts(b);
    }
  }

  /** `Token.lower`: the text lower-cased, the flag kept. */
  function LowerToken(t: Token): Token {
    Token(Lower(t.text), t.isPlaceholder)
  }

  /** `TokenSequence.lower`. */
  function LowerAll(ts: seq<Token>): (r: seq<Token>)
    ensures |r| == |ts| && forall i :: 0 <= i < |ts| ==> r[i] == LowerToken(ts[i])
  {
    seq(|ts|, i requires 0 <= i < |ts| => LowerToken(ts[i]))
  }

  /** The sequence a case-insensitive comparison looks at. */
  function Folded(ts: seq<Token>, caseSensitive: bool): (r: seq<Token>)
    ensures |r| == |ts|
  {
    if caseSensitive then ts else LowerAll(ts)
  }

  // ---------------------------------------------------------------- replacements

  /** A slot name and the text that fills it. */
  datatype Replacement = Replacement(entityName: string, entityValue: string)

  /** `str(replacement)`, which `Replacement.__eq__` compares. */
  function ReplacementStr(r: Replacement): string {
    "Replacement(" + r.entityName + ", " + r.entityValue + ")"
  }

  lemma ReplacementStrParts(r: Replacement)
    requires ',' !in r.entityName
    ensures var body := ReplacementStr(r)[12..];
      |ReplacementStr(r)| == 15 + |r.entityName| + |r.entityValue|
      && IndexOfChar(body, ',') == |r.entityName|
      && body[..|r.entityName|] == r.entityName
      && body[|r.entityName| + 2..|body| - 1] == r.entityValue
  {
    var n := r.entityName;
    var body := n + ", " + r.entityValue + ")";
    assert ReplacementStr(r) == "Replacement(" + body;
    assert ReplacementStr(r)[12..] == body;
    assert body[|n|] == ',' && body[..|n|] == n;
  }

  /** Printed forms identify replacements whose names hold no comma (slot names never do):
      "Replacement(a, b, c)" could otherwise be either of two replacements. */
  lemma ReplacementEquality(a: Replacement, b: Replacement)
    requires ',' !in a.entityName && ',' !in b.entityName
    ensures ReplacementStr(a) == ReplacementStr(b) <==> a == b
  {
    if ReplacementStr(a) == ReplacementStr(b) {
      ReplacementStrParts(a);
      ReplacementStrParts(b);
    }
  }

  /** `ReplacementSet(dict)` (`parse_dict`): one replacement per item, in the dict's order. */
  function FromDict(items: seq<(string, string)>): (r: seq<Replacement>)
    ensures |r| == |items|
    ensures forall i :: 0 <= i < |items| ==> r[i].entityName == items[i].0 && r[i].entityValue == items[i].1
  {
    seq(|items|, i requires 0 <= i < |items| => Replacement(items[i].0, items[i].1))
  }

  predicate DistinctNames(rs: seq<Replacement>) {
    forall i, j :: 0 <= i < j < |rs| ==> rs[i].entityName != rs[j].entityName
  }

  /** A dict's keys are distinct, and so are the names of the set built from it. */
  lemma FromDictDistinct(items: seq<(string, string)>)
    requires forall i, j :: 0 <= i < j < |items| ==> items[i].0 != items[j].0
    ensures DistinctNames(FromDict(items))
  {
  }

  predicate CommaFree(rs: seq<Replacement>) {
    forall i :: 0 <= i < |rs| ==> ',' !in rs[i].entityName
  }

  predicate SortedByName(rs: seq<Replacement>) {
    forall i, j :: 0 <= i < j < |rs| ==> !LexLess(rs[j].entityName, rs[i].entityName)
  }

  /** One step of Python's stable sort by name: `x`, which came first, goes before every
      replacement whose name is not smaller. */
  function InsertByName(x: Replacement, s: seq<Replacement>): (r: seq<Replacement>)
    ensures multiset(r) == multiset(s) + multiset{x}
  {
    if s == [] || !LexLess(s[0].entityName, x.entityName) then [x] + s
    else
      assert s == [s[0]] + s[1..];
      [s[0]] + InsertByName(x, s[1..])
  }

  /** `sorted(replacements, key=lambda x: x.entity_name)`. */
  function SortByName(s: seq<Replacement>): (r: seq<Replacement>)
    ensures multiset(r) == multiset(s)
  {
    if s == [] then []
    else
      assert s == [s[0]] + s[1..];
      InsertByName(s[0], SortByName(s[1..]))
  }

  lemma {:induction false} InsertSorted(x: Replacement, s: seq<Replacement>)
    requires SortedByName(s)
    ensures SortedByName(InsertByName(x, s))
    decreases |s|
  {
    var r := InsertByName(x, s);
    if s == [] || !LexLess(s[0].entityName, x.entityName) {
      forall j | 1 <= j < |r| ensures !LexLess(r[j].entityName, x.entityName) {
        assert r[j] == s[j - 1];
        if j > 1 {
          LexLeTransitive(x.entityName, s[0].entityName, s[j - 1].entityName);
        }
      }
    } else {
      var rest := InsertByName(x, s[1..]);
      InsertSorted(x, s[1..]);
      LexLessStrictTotal(s[0].entityName, x.entityName);
      forall j | 0 <= j < |rest| ensures !LexLess(rest[j].entityName, s[0].entityName) {
        assert rest[j] in multiset(rest);
        if rest[j] != x {
          assert rest[j] in multiset(s[1..]);
          var k :| 0 <= k < |s[1..]| && s[1..][k] == rest[j];
          assert s[k + 1] == rest[j];
        }
      }
    }
  }

  lemma {:induction false} SortSorted(s: seq<Replacement>)
    ensures SortedByName(SortByName(s))
    decreases |s|
  {
    if s != [] {
      SortSorted(s[1..]);
      InsertSorted(s[0], SortByName(s[1..]));
    }
  }

  lemma {:induction false} InsertDistinct(x: Replacement, s: seq<Replacement>)
    requires DistinctNames(s) && forall i :: 0 <= i < |s| ==> s[i].entityName != x.entityName
    ensures DistinctNames(InsertByName(x, s))
    decreases |s|
  {
    if s != [] && LexLess(s[0].entityName, x.entityName) {
      var rest := InsertByName(x, s[1..]);
      InsertDistinct(x, s[1..]);
      forall j | 0 <= j < |rest| ensures rest[j].entityName != s[0].entityName {
        assert rest[j] in multiset(rest);
        if rest[j] != x {
          assert rest[j] in multiset(s[1..]);
          var k :| 0 <= k < |s[1..]| && s[1..][k] == rest[j];
          assert s[k + 1] == rest[j];
        }
      }
    }
  }

  lemma {:induction false} SortDistinct(s: seq<Replacement>)
    requires DistinctNames(s)
    ensures DistinctNames(SortByName(s))
    decreases |s|
  {
    if s != [] {
      var rest := SortByName(s[1..]);
      SortDistinct(s[1..]);
      forall j | 0 <= j < |rest| ensures rest[j].entityName != s[0].entityName {
        assert rest[j] in multiset(rest);
        var k :| 0 <= k < |s[1..]| && s[1..][k] == rest[j];
        assert s[k + 1] == rest[j];
      }
      InsertDistinct(s[0], rest);
    }
  }

  /** Two sorted orderings of the same replacements with distinct names are the same. */
  lemma {:induction false} SortedUnique(x: seq<Replacement>, y: seq<Replacement>)
    requires SortedByName(x) && SortedByName(y) && multiset(x) == multiset(y) && DistinctNames(x)
    ensures x == y
    decreases |x|
  {
    assert |x| == |multiset(x)| == |multiset(y)| == |y|;
    if x != [] {
      SortedFirst(x, y);
      SortedTail(x);
      SortedTail(y);
      hide SortedByName, DistinctNames;
      assert x == [x[0]] + x[1..] && y == [y[0]] + y[1..];
      assert multiset(x[1..]) == multiset(x) - multiset{x[0]};
      assert multiset(y[1..]) == multiset(y) - multiset{y[0]};
      SortedUnique(x[1..], y[1..]);
    }
  }

  lemma SortedTail(x: seq<Replacement>)
    requires x != []
    ensures SortedByName(x) ==> SortedByName(x[1..])
    ensures DistinctNames(x) ==> DistinctNames(x[1..])
  {
  }

  lemma SortedFirst(x: seq<Replacement>, y: seq<Replacement>)
    requires SortedByName(x) && SortedByName(y) && multiset(x) == multiset(y) && DistinctNames(x)
    requires x != [] && y != []
    ensures x[0] == y[0]
  {
    assert x[0] in multiset(y) && y[0] in multiset(x);
    var k :| 0 <= k < |y| && y[k] == x[0];
    var j :| 0 <= j < |x| && x[j] == y[0];
    var a, b := x[0].entityName, y[0].entityName;
    LexLessStrictTotal(a, b);
    assert !LexLess(a, b) by {
      if k > 0 {
        assert !LexLess(y[k].entityName, y[0].entityName);
      }
    }
    assert x[j].entityName == x[0].entityName;
  }

  /** `ReplacementSet.__eq__`: the same size, and after sorting both by name the printed forms
      agree pairwise. */
  predicate SameReplacements(a: seq<Replacement>, b: seq<Replacement>) {
    |a| == |b| &&
    var sa, sb := SortByName(a), SortByName(b);
    |sa| == |sb| && forall i :: 0 <= i < |sa| ==> ReplacementStr(sa[i]) == ReplacementStr(sb[i])
  }

  /** Replacement-set equality ignores order: for names that are distinct and comma-free, two
      sets are equal exactly when they hold the same replacements. */
  lemma SameReplacementsIgnoresOrder(a: seq<Replacement>, b: seq<Replacement>)
    requires DistinctNames(a) && CommaFree(a) && CommaFree(b)
    ensures SameReplacements(a, b) <==> multiset(a) == multiset(b)
  {
    var sa, sb := SortByName(a), SortByName(b);
    assert |sa| == |multiset(sa)| == |multiset(a)| == |a|;
    assert |sb| == |multiset(sb)| == |multiset(b)| == |b|;
    if multiset(a) == multiset(b) {
      SortSorted(a);
      SortSorted(b);
      SortDistinct(a);
      SortedUnique(sa, sb);
    }
    if SameReplacements(a, b) {
      SamePrintedSame(a, b);
    }
  }

  lemma SamePrintedSame(a: seq<Replacement>, b: seq<Replacement>)
    requires CommaFree(a) && CommaFree(b) && SameReplacements(a, b)
    ensures multiset(a) == multiset(b)
  {
    var sa, sb := SortByName(a), SortByName(b);
    forall i | 0 <= i < |sa| ensures sa[i] == sb[i] {
      assert sa[i] in multiset(a) && sb[i] in multiset(b);
      var k :| 0 <= k < |a| && a[k] == sa[i];
      var l :| 0 <= l < |b| && b[l] == sb[i];
      ReplacementEquality(sa[i], sb[i]);
    }
    assert sa == sb;
  }

  // ---------------------------------------------------------------- sub-sequence search

  /** `sub` occurs in `s` at position `i`. */
  predicate SpanAt(s: seq<Token>, sub: seq<Token>, i: int) {
    0 <= i && i + |sub| <= |s| && s[i..i + |sub|] == sub
  }

  lemma SpanShift(s: seq<Token>, sub: seq<Token>)
    requires s != []
    ensures forall j :: 0 <= j ==> (SpanAt(s[1..], sub, j) <==> SpanAt(s, sub, j + 1))
    ensures forall j :: SpanAt(s, sub, j) ==> 0 <= j
  {
    forall j | 0 <= j ensures SpanAt(s[1..], sub, j) <==> SpanAt(s, sub, j + 1) {
      if 0 <= j && j + |sub| <= |s| - 1 {
        assert s[1..][j..j + |sub|] == s[j + 1..j + 1 + |sub|];
      }
    }
  }

  /** `startswith`: the slice `tokens[:len(other)]` stops at the end of the sequence. */
  function StartsWithTokens(s: seq<Token>, other: seq<Token>): (r: bool)
    ensures r <==> SpanAt(s, other, 0)
  {
    (if |other| <= |s| then s[..|other|] else s) == other
  }

  /** `_match_subtokens_acc`: drops the first token until the rest starts with `s2`, counting
      the dropped tokens; -1 once the rest is no longer than `s2` and differs from it. */
  function MatchAcc(s1: seq<Token>, s2: seq<Token>, acc: nat): (r: int)
    ensures r == -1 || r >= acc
    decreases |s1|
  {
    if |s1| <= |s2| then (if s1 == s2 then acc else -1)
    else if StartsWithTokens(s1, s2) then acc
    else MatchAcc(s1[1..], s2, acc + 1)
  }

  /** The walk finds the first occurrence, `acc` tokens on from where it started. */
  lemma {:induction false} MatchAccMeaning(s1: seq<Token>, s2: seq<Token>, acc: nat)
    ensures var r := MatchAcc(s1, s2, acc);
      (r == -1 ==> forall j :: !SpanAt(s1, s2, j))
      && (r != -1 ==> SpanAt(s1, s2, r - acc) && forall j :: 0 <= j < r - acc ==> !SpanAt(s1, s2, j))
    decreases |s1|
  {
    MatchAccStep(s1, s2, acc);
    hide SpanAt, MatchAcc;
    if |s1| <= |s2| {
      SpanShort(s1, s2);
    } else if !StartsWithTokens(s1, s2) {
      MatchAccMeaning(s1[1..], s2, acc + 1);
      SpanShift(s1, s2);
      var r := MatchAcc(s1[1..], s2, acc + 1);
      if r == -1 {
        forall j ensures !SpanAt(s1, s2, j) {
          if j >= 1 {
            assert !SpanAt(s1[1..], s2, j - 1);
          }
        }
      } else {
        assert SpanAt(s1, s2, r - acc) by {
          assert SpanAt(s1[1..], s2, r - (acc + 1));
        }
        forall j | 0 <= j < r - acc ensures !SpanAt(s1, s2, j) {
          if j >= 1 {
            assert !SpanAt(s1[1..], s2, j - 1);
          }
        }
      }
    }
  }

  lemma MatchAccStep(s1: seq<Token>, s2: seq<Token>, acc: nat)
    ensures MatchAcc(s1, s2, acc) ==
      if |s1| <= |s2| then (if s1 == s2 then acc else -1)
      else if StartsWithTokens(s1, s2) then acc
      else MatchAcc(s1[1..], s2, acc + 1)
  {
  }

  /** A sequence no longer than `sub` holds it only as the whole. */
  lemma SpanShort(s: seq<Token>, sub: seq<Token>)
    requires |s| <= |sub|
    ensures forall j :: SpanAt(s, sub, j) <==> (j == 0 && s == sub)
  {
    assert s[0..|s|] == s;
  }

  /** `match_subtokens_with_index`: the first position where `other` occurs, or -1; without case
      sensitivity both sides are lower-cased first. */
  function MatchIndex(s: seq<Token>, other: seq<Token>, caseSensitive: bool): (r: int)
    ensures r == -1 <==> forall j :: !SpanAt(Folded(s, caseSensitive), Folded(other, caseSensitive), j)
    ensures r != -1 ==> (0 <= r && r + |other| <= |s|
      && SpanAt(Folded(s, caseSensitive), Folded(other, caseSensitive), r)
      && forall j :: 0 <= j < r ==> !SpanAt(Folded(s, caseSensitive), Folded(other, caseSensitive), j))
  {
    MatchAccMeaning(Folded(s, caseSensitive), Folded(other, caseSensitive), 0);
    MatchAcc(Folded(s, caseSensitive), Folded(other, caseSensitive), 0)
  }

  /** `_match_subtokens`, the same walk answering only whether there is a match. */
  function MatchAny(s1: seq<Token>, s2: seq<Token>): (r: bool)
    ensures r <==> exists j :: SpanAt(s1, s2, j)
    decreases |s1|
  {
    if |s1| <= |s2| then
      assert s1 == s2 ==> SpanAt(s1, s2, 0);
      s1 == s2
    else if StartsWithTokens(s1, s2) then true
    else
      SpanShift(s1, s2);
      var r := MatchAny(s1[1..], s2);
      assert r ==> exists j :: SpanAt(s1, s2, j) by {
        if r {
          var j :| SpanAt(s1[1..], s2, j);
          assert SpanAt(s1, s2, j + 1);
        }
      }
      assert (exists j :: SpanAt(s1, s2, j)) ==> r by {
        if exists j :: SpanAt(s1, s2, j) {
          var j :| SpanAt(s1, s2, j);
          assert j != 0;
          assert SpanAt(s1[1..], s2, j - 1);
        }
      }
      r
  }

  /** `match_subtokens`. */
  function MatchSubtokens(s: seq<Token>, other: seq<Token>, caseSensitive: bool): bool {
    MatchAny(Folded(s, caseSensitive), Folded(other, caseSensitive))
  }

  /** Whether there is a match is whether the index search finds one. */
  lemma MatchSubtokensAgrees(s: seq<Token>, other: seq<Token>, caseSensitive: bool)
    ensures MatchSubtokens(s, other, caseSensitive) <==> MatchIndex(s, other, caseSensitive) != -1
  {
    if MatchIndex(s, other, caseSensitive) != -1 {
      assert SpanAt(Folded(s, caseSensitive), Folded(other, caseSensitive), MatchIndex(s, other, caseSensitive));
    }
  }

  // ---------------------------------------------------------------- lexicalisation

  /** `[t.text for t in tokens if t.is_placeholder]`. */
  function SlotNames(ts: seq<Token>): (r: seq<string>)
    ensures forall i :: 0 <= i < |ts| && ts[i].isPlaceholder ==> ts[i].text in r
  {
    if ts == [] then []
    else (if ts[0].isPlaceholder then [ts[0].text] else []) + SlotNames(ts[1..])
  }

  /** `[t.text for t in out].index(name)`: the first token with that text, or -1 where Python
      raises ValueError. */
  function IndexOfText(ts: seq<Token>, name: string): (r: int)
    ensures -1 <= r < |ts|
    ensures r == -1 ==> forall k :: 0 <= k < |ts| ==> ts[k].text != name
    ensures r >= 0 ==> ts[r].text == name && forall k :: 0 <= k < r ==> ts[k].text != name
  {
    if ts == [] then -1
    else if ts[0].text == name then 0
    else var k := IndexOfText(ts[1..], name); if k == -1 then -1 else k + 1
  }

  predicate IsSlot(t: Token, name: string) {
    t.isPlaceholder && t.text == name
  }

  /** The first placeholder token with that name, or -1. */
  function IndexOfSlot(ts: seq<Token>, name: string): (r: int)
    ensures -1 <= r < |ts|
    ensures r == -1 ==> forall k :: 0 <= k < |ts| ==> !IsSlot(ts[k], name)
    ensures r >= 0 ==> IsSlot(ts[r], name) && forall k :: 0 <= k < r ==> !IsSlot(ts[k], name)
  {
    if ts == [] then -1
    else if IsSlot(ts[0], name) then 0
    else var k := IndexOfSlot(ts[1..], name); if k == -1 then -1 else k + 1
  }

  /** The replacements in order, each one whose name is a slot of the original sequence
      overwriting one token of the copy: the first token with that text when `slotsOnly` is
      false (the code as written), the first placeholder with that name when it is true. */
  function LexicalizeFrom(slots: seq<string>, out: seq<Token>, rs: seq<Replacement>, slotsOnly: bool)
    : (r: Result<seq<Token>>)
    ensures r.Ok? ==> |r.value| == |out|
    ensures r.Err? ==> r.error.ValueError?
    decreases |rs|
  {
    if rs == [] then Ok(out)
    else if rs[0].entityName !in slots then LexicalizeFrom(slots, out, rs[1..], slotsOnly)
    else
      var k := if slotsOnly then IndexOfSlot(out, rs[0].entityName) else IndexOfText(out, rs[0].entityName);
      if k == -1 then Err(ValueError("is not in list"))
      else LexicalizeFrom(slots, out[k := Token(rs[0].entityValue, false)], rs[1..], slotsOnly)
  }

  /** `lexicalize` as written: the position to fill is looked up by text alone. */
  function LexicalizeAsWritten(ts: seq<Token>, rs: seq<Replacement>): Result<seq<Token>> {
    LexicalizeFrom(SlotNames(ts), ts, rs, false)
  }

  /** `lexicalize` as intended: the position to fill is the slot's placeholder. */
  function Lexicalize(ts: seq<Token>, rs: seq<Replacement>): Result<seq<Token>> {
    LexicalizeFrom(SlotNames(ts), ts, rs, true)
  }

  /** The first replacement with that name, or -1. */
  function NameIndex(rs: seq<Replacement>, name: string): (r: int)
    ensures -1 <= r < |rs|
    ensures r == -1 ==> forall k :: 0 <= k < |rs| ==> rs[k].entityName != name
    ensures r >= 0 ==> rs[r].entityName == name
  {
    if rs == [] then -1
    else if rs[0].entityName == name then 0
    else var k := NameIndex(rs[1..], name); if k == -1 then -1 else k + 1
  }

  /** The intended result at one position: the first placeholder of a name that has a
      replacement carries that replacement's value; every other token stays. */
  function Filled(ts: seq<Token>, rs: seq<Replacement>, i: nat): Token
    requires i < |ts|
  {
    var t := ts[i];
    var n := NameIndex(rs, t.text);
    if t.isPlaceholder && IndexOfSlot(ts, t.text) == i && n >= 0 then Token(rs[n].entityValue, false) else t
  }

  /** The reference lexicalisation: a same-length copy, filled position by position. */
  function Realized(ts: seq<Token>, rs: seq<Replacement>): (r: seq<Token>)
    ensures |r| == |ts| && forall i :: 0 <= i < |ts| ==> r[i] == Filled(ts, rs, i)
  {
    seq(|ts|, i requires 0 <= i < |ts| => Filled(ts, rs, i))
  }

  lemma {:induction false} IndexOfSlotAfter(out: seq<Token>, k: nat, t: Token, name: string)
    requires k < |out| && !t.isPlaceholder && !IsSlot(out[k], name)
    ensures IndexOfSlot(out[k := t], name) == IndexOfSlot(out, name)
    decreases |out|
  {
    if k > 0 {
      IndexOfSlotAfter(out[1..], k - 1, t, name);
      assert out[k := t][1..] == out[1..][k - 1 := t];
    } else {
      assert out[k := t][1..] == out[1..];
    }
  }

  lemma NameIndexTail(rs: seq<Replacement>, name: string)
    requires rs != [] && DistinctNames(rs)
    ensures name == rs[0].entityName ==> NameIndex(rs[1..], name) == -1
    ensures name != rs[0].entityName ==> NameIndex(rs, name) == (var n := NameIndex(rs[1..], name); if n == -1 then -1 else n + 1)
  {
  }

  /** The induction behind `LexicalizeMeaning`: while every remaining name that is a slot still
      has its placeholder in the copy, filling gives the reference result for the copy. */
  lemma {:induction false} LexicalizeFromMeaning(slots: seq<string>, out: seq<Token>, rs: seq<Replacement>)
    requires DistinctNames(rs)
    requires forall i :: 0 <= i < |out| && out[i].isPlaceholder ==> out[i].text in slots
    requires forall k :: 0 <= k < |rs| && rs[k].entityName in slots ==> IndexOfSlot(out, rs[k].entityName) >= 0
    ensures LexicalizeFrom(slots, out, rs, true) == Ok(Realized(out, rs))
    decreases |rs|
  {
    if rs == [] {
      assert Realized(out, rs) == out;
    } else if rs[0].entityName !in slots {
      assert DistinctNames(rs[1..]) by { DistinctTail(rs); }
      LexicalizeFromMeaning(slots, out, rs[1..]);
      SkipRealized(slots, out, rs);
    } else {
      var k := IndexOfSlot(out, rs[0].entityName);
      var out' := out[k := Token(rs[0].entityValue, false)];
      assert LexicalizeFrom(slots, out, rs, true) == LexicalizeFrom(slots, out', rs[1..], true);
      hide LexicalizeFrom, Realized, IndexOfSlot;
      assert DistinctNames(rs[1..]) by { DistinctTail(rs); }
      FillKeepsSlots(slots, out, rs, k);
      LexicalizeFromMeaning(slots, out', rs[1..]);
      FillRealized(out, rs, k);
    }
  }

  lemma DistinctTail(rs: seq<Replacement>)
    requires rs != [] && DistinctNames(rs)
    ensures DistinctNames(rs[1..])
  {
    assert forall i :: 0 <= i < |rs| - 1 ==> rs[1..][i] == rs[i + 1];
  }

  /** A name that is no slot of the copy leaves the reference result as it is. */
  lemma SkipRealized(slots: seq<string>, out: seq<Token>, rs: seq<Replacement>)
    requires rs != [] && DistinctNames(rs) && rs[0].entityName !in slots
    requires forall i :: 0 <= i < |out| && out[i].isPlaceholder ==> out[i].text in slots
    ensures Realized(out, rs[1..]) == Realized(out, rs)
  {
    var name := rs[0].entityName;
    var rest := rs[1..];
    forall t: string ensures t != name ==> NameIndex(rs, t) == (var n := NameIndex(rest, t); if n == -1 then -1 else n + 1) {
      NameIndexTail(rs, t);
    }
    forall i | 0 <= i < |out| ensures Filled(out, rest, i) == Filled(out, rs, i) {
    }
  }

  /** Filling the first placeholder of the first name keeps every other name's placeholder, and
      leaves only the placeholders of other names. */
  lemma FillKeepsSlots(slots: seq<string>, out: seq<Token>, rs: seq<Replacement>, k: nat)
    requires rs != [] && DistinctNames(rs) && k < |out| && k == IndexOfSlot(out, rs[0].entityName)
    requires forall i :: 0 <= i < |out| && out[i].isPlaceholder ==> out[i].text in slots
    requires forall j :: 0 <= j < |rs| && rs[j].entityName in slots ==> IndexOfSlot(out, rs[j].entityName) >= 0
    ensures var out' := out[k := Token(rs[0].entityValue, false)];
      (forall i :: 0 <= i < |out'| && out'[i].isPlaceholder ==> out'[i].text in slots)
      && (forall j :: 0 <= j < |rs[1..]| && rs[1..][j].entityName in slots ==> IndexOfSlot(out', rs[1..][j].entityName) >= 0)
  {
    var rest := rs[1..];
    var out' := out[k := Token(rs[0].entityValue, false)];
    forall j | 0 <= j < |rest| && rest[j].entityName in slots
      ensures IndexOfSlot(out', rest[j].entityName) >= 0
    {
      assert rest[j] == rs[j + 1];
      IndexOfSlotAfter(out, k, Token(rs[0].entityValue, false), rest[j].entityName);
    }
  }

  /** Filling the first placeholder of the first name, then the rest, gives the reference
      result for the whole list. */
  lemma FillRealized(out: seq<Token>, rs: seq<Replacement>, k: nat)
    requires rs != [] && DistinctNames(rs) && k < |out| && k == IndexOfSlot(out, rs[0].entityName)
    ensures Realized(out[k := Token(rs[0].entityValue, false)], rs[1..]) == Realized(out, rs)
  {
    var name := rs[0].entityName;
    var rest := rs[1..];
    var out' := out[k := Token(rs[0].entityValue, false)];
    forall t: string ensures t != name ==> NameIndex(rs, t) == (var n := NameIndex(rest, t); if n == -1 then -1 else n + 1) {
      NameIndexTail(rs, t);
    }
    NameIndexTail(rs, name);
    forall i | 0 <= i < |out| ensures Filled(out', rest, i) == Filled(out, rs, i) {
      if i != k && out[i].isPlaceholder && out[i].text != name {
        IndexOfSlotAfter(out, k, Token(rs[0].entityValue, false), out[i].text);
      }
    }
  }

  /** `lexicalize` (as intended) with distinct names never fails and gives the reference result:
      the first placeholder of every replaced name carries the value, nothing else changes, and
      the length is kept. */
  lemma LexicalizeMeaning(ts: seq<Token>, rs: seq<Replacement>)
    requires DistinctNames(rs)
    ensures Lexicalize(ts, rs) == Ok(Realized(ts, rs))
  {
    var slots := SlotNames(ts);
    forall k | 0 <= k < |rs| && rs[k].entityName in slots ensures IndexOfSlot(ts, rs[k].entityName) >= 0 {
      SlotNamesAreSlots(ts, rs[k].entityName);
    }
    LexicalizeFromMeaning(slots, ts, rs);
  }

  lemma {:induction false} SlotNamesAreSlots(ts: seq<Token>, name: string)
    requires name in SlotNames(ts)
    ensures IndexOfSlot(ts, name) >= 0
    decreases |ts|
  {
    if !IsSlot(ts[0], name) {
      SlotNamesAreSlots(ts[1..], name);
    }
  }

  /** The code as written fills the first token with the slot's name as its text, which can be
      an ordinary word before the placeholder: "value {value}" becomes "5 {value}", where
      "value 5" is meant. */
  lemma LexicalizeHitsWord()
    ensures LexicalizeAsWritten([Token("value", false), Token("value", true)], [Replacement("value", "5")])
            == Ok([Token("5", false), Token("value", true)])
    ensures Lexicalize([Token("value", false), Token("value", true)], [Replacement("value", "5")])
            == Ok([Token("value", false), Token("5", false)])
  {
    var ts := [Token("value", false), Token("value", true)];
    var rs := [Replacement("value", "5")];
    assert SlotNames(ts[1..]) == ["value"];
    assert SlotNames(ts) == ["value"];
    assert IndexOfText(ts, "value") == 0;
    assert IndexOfSlot(ts[1..], "value") == 0;
    assert IndexOfSlot(ts, "value") == 1;
    assert rs[0].entityName in SlotNames(ts) && rs[1..] == [];
    assert LexicalizeFrom(["value"], ts, rs, false) == LexicalizeFrom(["value"], ts[0 := Token("5", false)], [], false);
    assert LexicalizeFrom(["value"], ts, rs, true) == LexicalizeFrom(["value"], ts[1 := Token("5", false)], [], true);
    assert ts[0 := Token("5", false)] == [Token("5", false), Token("value", true)];
    assert ts[1 := Token("5", false)] == [Token("value", false), Token("5", false)];
  }

  /** The result of the code as written at one position, for distinct names whose values are
      no slot names: the first token whose text is a replaced slot name, placeholder or not,
      carries that replacement's value; every other token stays. */
  function FilledByText(slots: seq<string>, ts: seq<Token>, rs: seq<Replacement>, i: nat): Token
    requires i < |ts|
  {
    var t := ts[i];
    var n := NameIndex(rs, t.text);
    if t.text in slots && IndexOfText(ts, t.text) == i && n >= 0 then Token(rs[n].entityValue, false) else t
  }

  /** The reference for the code as written: a same-length copy, filled position by position. */
  function RealizedByText(slots: seq<string>, ts: seq<Token>, rs: seq<Replacement>): (r: seq<Token>)
    ensures |r| == |ts| && forall i :: 0 <= i < |ts| ==> r[i] == FilledByText(slots, ts, rs, i)
  {
    seq(|ts|, i requires 0 <= i < |ts| => FilledByText(slots, ts, rs, i))
  }

  lemma {:induction false} IndexOfTextAfter(out: seq<Token>, k: nat, t: Token, name: string)
    requires k < |out| && t.text != name && out[k].text != name
    ensures IndexOfText(out[k := t], name) == IndexOfText(out, name)
    decreases |out|
  {
    if k > 0 {
      IndexOfTextAfter(out[1..], k - 1, t, name);
      assert out[k := t][1..] == out[1..][k - 1 := t];
    } else {
      assert out[k := t][1..] == out[1..];
    }
  }

  /** The induction behind `LexicalizeAsWrittenMeaning`: while every remaining slot name is the
      text of some token of the copy, filling by text gives the reference result. */
  lemma {:induction false} LexicalizeByTextFrom(slots: seq<string>, out: seq<Token>, rs: seq<Replacement>)
    requires DistinctNames(rs)
    requires forall j :: 0 <= j < |rs| ==> rs[j].entityValue !in slots
    requires forall j :: 0 <= j < |rs| && rs[j].entityName in slots ==> IndexOfText(out, rs[j].entityName) >= 0
    ensures LexicalizeFrom(slots, out, rs, false) == Ok(RealizedByText(slots, out, rs))
    decreases |rs|
  {
    if rs == [] {
      assert RealizedByText(slots, out, rs) == out;
    } else {
      var name := rs[0].entityName;
      var rest := rs[1..];
      assert DistinctNames(rest) by { DistinctTail(rs); }
      if name !in slots {
        LexicalizeByTextFrom(slots, out, rest);
        SkipByText(slots, out, rs);
        assert LexicalizeFrom(slots, out, rs, false) == LexicalizeFrom(slots, out, rest, false);
      } else {
        var k := IndexOfText(out, name);
        var out' := out[k := Token(rs[0].entityValue, false)];
        assert LexicalizeFrom(slots, out, rs, false) == LexicalizeFrom(slots, out', rest, false);
        hide LexicalizeFrom, RealizedByText, IndexOfText;
        FillByTextKeeps(slots, out, rs, k);
        LexicalizeByTextFrom(slots, out', rest);
        FillByText(slots, out, rs, k);
      }
    }
  }

  /** A name that is no slot leaves the reference result for the code as written as it is. */
  lemma SkipByText(slots: seq<string>, out: seq<Token>, rs: seq<Replacement>)
    requires rs != [] && DistinctNames(rs) && rs[0].entityName !in slots
    ensures RealizedByText(slots, out, rs[1..]) == RealizedByText(slots, out, rs)
  {
    forall t: string ensures t != rs[0].entityName ==> NameIndex(rs, t) == (var n := NameIndex(rs[1..], t); if n == -1 then -1 else n + 1) {
      NameIndexTail(rs, t);
    }
    forall i | 0 <= i < |out| ensures FilledByText(slots, out, rs[1..], i) == FilledByText(slots, out, rs, i) {
    }
  }

  /** Filling the first token with the first name as its text keeps a token for every other
      name. */
  lemma FillByTextKeeps(slots: seq<string>, out: seq<Token>, rs: seq<Replacement>, k: nat)
    requires rs != [] && DistinctNames(rs) && k < |out| && out[k].text == rs[0].entityName
    requires forall j :: 0 <= j < |rs| ==> rs[j].entityValue !in slots
    requires forall j :: 0 <= j < |rs| && rs[j].entityName in slots ==> IndexOfText(out, rs[j].entityName) >= 0
    ensures var out' := out[k := Token(rs[0].entityValue, false)];
      forall j :: 0 <= j < |rs[1..]| && rs[1..][j].entityName in slots ==> IndexOfText(out', rs[1..][j].entityName) >= 0
  {
    var rest := rs[1..];
    var tok := Token(rs[0].entityValue, false);
    forall j | 0 <= j < |rest| && rest[j].entityName in slots
      ensures IndexOfText(out[k := tok], rest[j].entityName) >= 0
    {
      assert rest[j] == rs[j + 1];
      IndexOfTextAfter(out, k, tok, rest[j].entityName);
    }
  }

  /** Filling the first token with the first name as its text, then the rest, gives the
      reference result for the whole list. */
  lemma FillByText(slots: seq<string>, out: seq<Token>, rs: seq<Replacement>, k: nat)
    requires rs != [] && DistinctNames(rs) && rs[0].entityName in slots
    requires k < |out| && k == IndexOfText(out, rs[0].entityName)
    requires forall j :: 0 <= j < |rs| ==> rs[j].entityValue !in slots
    ensures RealizedByText(slots, out[k := Token(rs[0].entityValue, false)], rs[1..]) == RealizedByText(slots, out, rs)
  {
    var name := rs[0].entityName;
    var rest := rs[1..];
    var tok := Token(rs[0].entityValue, false);
    var out' := out[k := tok];
    forall t: string ensures t != name ==> NameIndex(rs, t) == (var n := NameIndex(rest, t); if n == -1 then -1 else n + 1) {
      NameIndexTail(rs, t);
    }
    NameIndexTail(rs, name);
    forall i | 0 <= i < |out| ensures FilledByText(slots, out', rest, i) == FilledByText(slots, out, rs, i) {
      FillByTextAt(slots, out, rs, k, i);
    }
  }

  lemma FillByTextAt(slots: seq<string>, out: seq<Token>, rs: seq<Replacement>, k: nat, i: nat)
    requires rs != [] && DistinctNames(rs) && rs[0].entityName in slots
    requires k < |out| && k == IndexOfText(out, rs[0].entityName) && i < |out|
    requires forall j :: 0 <= j < |rs| ==> rs[j].entityValue !in slots
    requires forall t: string :: t != rs[0].entityName ==> NameIndex(rs, t) == (var n := NameIndex(rs[1..], t); if n == -1 then -1 else n + 1)
    requires NameIndex(rs[1..], rs[0].entityName) == -1
    ensures FilledByText(slots, out[k := Token(rs[0].entityValue, false)], rs[1..], i) == FilledByText(slots, out, rs, i)
  {
    var tok := Token(rs[0].entityValue, false);
    assert tok.text !in slots;
    if i != k && out[i].text != rs[0].entityName && out[i].text in slots {
      IndexOfTextAfter(out, k, tok, out[i].text);
    }
  }

  /** `lexicalize` as written, with distinct names whose values are no slot names, never fails:
      the first token whose text is a replaced slot name, an ordinary word as well as the
      placeholder, carries the value; every other token stays. */
  lemma LexicalizeAsWrittenMeaning(ts: seq<Token>, rs: seq<Replacement>)
    requires DistinctNames(rs)
    requires forall j :: 0 <= j < |rs| ==> rs[j].entityValue !in SlotNames(ts)
    ensures LexicalizeAsWritten(ts, rs) == Ok(RealizedByText(SlotNames(ts), ts, rs))
  {
    var slots := SlotNames(ts);
    forall j | 0 <= j < |rs| && rs[j].entityName in slots ensures IndexOfText(ts, rs[j].entityName) >= 0 {
      SlotNamesAreSlots(ts, rs[j].entityName);
    }
    LexicalizeByTextFrom(slots, ts, rs);
  }

  /** Where the first token with each replaced slot name as its text is that slot's placeholder,
      the code as written and the intended code agree. */
  lemma LexicalizeAsWrittenAgrees(ts: seq<Token>, rs: seq<Replacement>)
    requires DistinctNames(rs)
    requires forall j :: 0 <= j < |rs| ==> rs[j].entityValue !in SlotNames(ts)
    requires forall i :: 0 <= i < |ts| && ts[i].isPlaceholder ==> IndexOfText(ts, ts[i].text) == IndexOfSlot(ts, ts[i].text)
    ensures LexicalizeAsWritten(ts, rs) == Lexicalize(ts, rs)
  {
    LexicalizeAsWrittenMeaning(ts, rs);
    LexicalizeMeaning(ts, rs);
    var slots := SlotNames(ts);
    forall i | 0 <= i < |ts| ensures FilledByText(slots, ts, rs, i) == Filled(ts, rs, i) {
      FilledAgrees(ts, rs, i);
    }
    assert RealizedByText(slots, ts, rs) == Realized(ts, rs);
    hide LexicalizeAsWritten, Lexicalize, RealizedByText, Realized, FilledByText, Filled;
  }

  lemma FilledAgrees(ts: seq<Token>, rs: seq<Replacement>, i: nat)
    requires i < |ts|
    requires forall i :: 0 <= i < |ts| && ts[i].isPlaceholder ==> IndexOfText(ts, ts[i].text) == IndexOfSlot(ts, ts[i].text)
    ensures FilledByText(SlotNames(ts), ts, rs, i) == Filled(ts, rs, i)
  {
    var t := ts[i];
    if t.text in SlotNames(ts) {
      SlotNamesAreSlots(ts, t.text);
      var s := IndexOfSlot(ts, t.text);
      assert IndexOfText(ts, t.text) == IndexOfSlot(ts, ts[s].text);
    }
  }

  /** A slot name given twice fails once its only token has been filled: the second turn finds
      no token with that text and `list.index` raises ValueError. */
  lemma LexicalizeAsWrittenRepeated(name: string, v: string, w: string)
    requires v != name
    ensures LexicalizeAsWritten([Token(name, true)], [Replacement(name, v), Replacement(name, w)]).Err?
  {
    var ts := [Token(name, true)];
    var rs := [Replacement(name, v), Replacement(name, w)];
    assert SlotNames(ts) == [name] by { assert ts[1..] == []; }
    assert IndexOfText(ts, name) == 0;
    var out' := ts[0 := Token(v, false)];
    assert IndexOfText(out', name) == -1;
    assert rs[1..][0] == Replacement(name, w);
    assert LexicalizeFrom([name], ts, rs, false) == LexicalizeFrom([name], out', rs[1..], false);
  }

  /** With distinct names every turn finds its token: the code as written fails only when a
      slot name comes twice. */
  lemma {:induction false} LexicalizeAsWrittenDistinctOk(slots: seq<string>, out: seq<Token>, rs: seq<Replacement>)
    requires DistinctNames(rs)
    requires forall j :: 0 <= j < |rs| && rs[j].entityName in slots ==> IndexOfText(out, rs[j].entityName) >= 0
    ensures LexicalizeFrom(slots, out, rs, false).Ok?
    decreases |rs|
  {
    if rs != [] {
      var name := rs[0].entityName;
      var rest := rs[1..];
      assert DistinctNames(rest) by { DistinctTail(rs); }
      if name in slots {
        var k := IndexOfText(out, name);
        var out' := out[k := Token(rs[0].entityValue, false)];
        forall j | 0 <= j < |rest| && rest[j].entityName in slots
          ensures IndexOfText(out', rest[j].entityName) >= 0
        {
          assert rest[j] == rs[j + 1];
          var w := IndexOfText(out, rest[j].entityName);
          assert out'[w] == out[w];
        }
        LexicalizeAsWrittenDistinctOk(slots, out', rest);
      } else {
        LexicalizeAsWrittenDistinctOk(slots, out, rest);
      }
    }
  }

  /** The `lexicalize` loop: one replacement per round over a copy of the tokens. */
  method LexicalizeLoop(ts: seq<Token>, rs: seq<Replacement>) returns (r: Result<seq<Token>>)
    ensures r == LexicalizeAsWritten(ts, rs)
  {
    var slots := SlotNames(ts);
    var out := ts;
    var i := 0;
    while i < |rs|
      invariant 0 <= i <= |rs|
      invariant LexicalizeFrom(slots, ts, rs, false) == LexicalizeFrom(slots, out, rs[i..], false)
    {
      assert rs[i..][1..] == rs[i + 1..];
      if rs[i].entityName in slots {
        var k := IndexOfText(out, rs[i].entityName);
        if k == -1 {
          return Err(ValueError("is not in list"));
        }
        out := out[k := Token(rs[i].entityValue, false)];
      }
      i := i + 1;
    }
    return Ok(out);
  }

  // ---------------------------------------------------------------- turning values into slots

  function Take<T>(s: seq<T>, n: nat): seq<T> {
    if n <= |s| then s[..n] else s
  }

  /** One round of `parse_nlg_format`: the `m` tokens from `idx` become placeholders named
      `name`, then only the first of them is kept (`parsed[:idx + 1] + parsed[idx + m:]`). */
  function Collapse(ts: seq<Token>, idx: nat, m: nat, name: string): seq<Token>
    requires idx + m <= |ts|
  {
    var marked := ts[..idx] + seq(m, _ => Token(name, true)) + ts[idx + m..];
    Take(marked, idx + 1) + marked[idx + m..]
  }

  /** A found span of one or more tokens collapses to a single placeholder; an empty span (a
      value with no tokens, found at 0) instead repeats the first token. */
  lemma CollapseShape(ts: seq<Token>, idx: nat, m: nat, name: string)
    requires idx + m <= |ts|
    ensures m >= 1 ==> Collapse(ts, idx, m, name) == ts[..idx] + [Token(name, true)] + ts[idx + m..]
    ensures m == 0 ==> Collapse(ts, idx, m, name) == Take(ts, idx + 1) + ts[idx..]
  {
    var marked := ts[..idx] + seq(m, _ => Token(name, true)) + ts[idx + m..];
    if m >= 1 {
      assert marked[..idx + 1] == ts[..idx] + [Token(name, true)];
      assert marked[idx + m..] == ts[idx + m..];
    } else {
      assert marked == ts;
    }
  }

  /** Putting the value's tokens back in place of the placeholder undoes a collapse. */
  lemma CollapseExpand(ts: seq<Token>, idx: nat, sub: seq<Token>, name: string)
    requires SpanAt(ts, sub, idx) && |sub| >= 1
    ensures var c := Collapse(ts, idx, |sub|, name);
      idx < |c| && c[idx] == Token(name, true) && c[..idx] + sub + c[idx + 1..] == ts
  {
    CollapseShape(ts, idx, |sub|, name);
    var c := Collapse(ts, idx, |sub|, name);
    assert c[..idx] == ts[..idx] && c[idx + 1..] == ts[idx + |sub|..];
    assert ts == ts[..idx] + ts[idx..idx + |sub|] + ts[idx + |sub|..];
  }

  /** The tokenizer: splitting a text into tokens ("{name}" becoming a placeholder) and joining
      token texts back into a text. Both come from NLTK and regular expressions. */
  datatype Tokenizer = Tokenizer(tokenize: string -> seq<Token>, detokenize: seq<string> -> string)

  /** `detokenize`: placeholders are written "{name}" before joining. */
  function Surface(ts: seq<Token>): (r: seq<string>)
    ensures |r| == |ts|
    ensures forall i :: 0 <= i < |ts| ==> r[i] == if ts[i].isPlaceholder then "{" + ts[i].text + "}" else ts[i].text
  {
    seq(|ts|, i requires 0 <= i < |ts| => if ts[i].isPlaceholder then "{" + ts[i].text + "}" else ts[i].text)
  }

  function Detokenize(tok: Tokenizer, ts: seq<Token>): string {
    tok.detokenize(Surface(ts))
  }

  /** The search-and-collapse loop of `parse_nlg_format` and `_translate_template`: each
      replacement's value, tokenized, must occur in the tokens (None otherwise) and its first
      occurrence becomes the slot. */
  function DelexicalizeFrom(tok: Tokenizer, parsed: seq<Token>, rs: seq<Replacement>, caseSensitive: bool)
    : Option<seq<Token>>
    decreases |rs|
  {
    if rs == [] then Some(parsed)
    else
      var search := tok.tokenize(rs[0].entityValue);
      var idx := MatchIndex(parsed, search, caseSensitive);
      if idx == -1 then None
      else DelexicalizeFrom(tok, Collapse(parsed, idx, |search|, rs[0].entityName), rs[1..], caseSensitive)
  }

  /** A single replacement: found iff its tokens occur, and then the first occurrence collapses
      to the slot, which expanding the value again undoes. */
  lemma DelexicalizeOne(tok: Tokenizer, parsed: seq<Token>, r: Replacement)
    requires tok.tokenize(r.entityValue) != []
    ensures var search := tok.tokenize(r.entityValue);
      var d := DelexicalizeFrom(tok, parsed, [r], true);
      (d.Some? <==> exists j :: SpanAt(parsed, search, j))
      && (d.Some? ==> exists j :: SpanAt(parsed, search, j) && (forall i :: 0 <= i < j ==> !SpanAt(parsed, search, i))
                               && d.value == parsed[..j] + [Token(r.entityName, true)] + parsed[j + |search|..]
                               && d.value[..j] + search + d.value[j + 1..] == parsed)
  {
    var search := tok.tokenize(r.entityValue);
    var idx := MatchIndex(parsed, search, true);
    assert [r][1..] == [];
    assert Folded(parsed, true) == parsed && Folded(search, true) == search;
    assert DelexicalizeFrom(tok, parsed, [r], true)
      == if idx == -1 then None else Some(Collapse(parsed, idx, |search|, r.entityName));
    hide DelexicalizeFrom, MatchIndex, Folded;
    if idx != -1 {
      CollapseShape(parsed, idx, |search|, r.entityName);
      CollapseExpand(parsed, idx, search, r.entityName);
    }
  }

  /** Delexicalizing "Prices in Finland" with location = "Finland", for a tokenizer that keeps a
      text as one word, gives "Prices in {location}". */
  lemma DelexicalizeExample()
    ensures var tok := Tokenizer(s => [Token(s, false)], ws => []);
      DelexicalizeFrom(tok, [Token("Prices", false), Token("in", false), Token("Finland", false)],
                       [Replacement("location", "Finland")], true)
      == Some([Token("Prices", false), Token("in", false), Token("location", true)])
  {
    var tok := Tokenizer(s => [Token(s, false)], ws => []);
    var parsed := [Token("Prices", false), Token("in", false), Token("Finland", false)];
    var search := [Token("Finland", false)];
    assert tok.tokenize("Finland") == search;
    assert SpanAt(parsed, search, 2);
    assert parsed[0..1][0] == Token("Prices", false) != search[0];
    assert parsed[1..2][0] == Token("in", false) != search[0];
    assert !SpanAt(parsed, search, 0) && !SpanAt(parsed, search, 1);
    assert MatchIndex(parsed, search, true) == 2;
    CollapseShape(parsed, 2, 1, "location");
    var rs := [Replacement("location", "Finland")];
    assert rs[1..] == [];
    assert Collapse(parsed, 2, 1, "location") == [Token("Prices", false), Token("in", false), Token("location", true)];
    assert DelexicalizeFrom(tok, parsed, rs, true) == DelexicalizeFrom(tok, Collapse(parsed, 2, 1, "location"), [], true);
  }

  /** The loop shared by `parse_nlg_format` and `_translate_template`. */
  method Delexicalize(tok: Tokenizer, parsed0: seq<Token>, rs: seq<Replacement>, caseSensitive: bool)
    returns (r: Option<seq<Token>>)
    ensures r == DelexicalizeFrom(tok, parsed0, rs, caseSensitive)
  {
    var parsed := parsed0;
    var i := 0;
    while i < |rs|
      invariant 0 <= i <= |rs|
      invariant DelexicalizeFrom(tok, parsed0, rs, caseSensitive) == DelexicalizeFrom(tok, parsed, rs[i..], caseSensitive)
    {
      assert rs[i..][1..] == rs[i + 1..];
      var search := tok.tokenize(rs[i].entityValue);
      var idx := MatchIndex(parsed, search, caseSensitive);
      if idx == -1 {
        return None;
      }
      parsed := Collapse(parsed, idx, |search|, rs[i].entityName);
      i := i + 1;
    }
    return Some(parsed);
  }

  // ---------------------------------------------------------------- templates

  /** A translatable template: a token sequence and the replacement sets it is realized with. */
  class Template {
    var tokens: seq<Token>
    var replacementSets: seq<seq<Replacement>>

    constructor(tokens: seq<Token>, replacementSets: seq<seq<Replacement>>)
      ensures this.tokens == tokens && this.replacementSets == replacementSets
    {
      this.tokens := tokens;
      this.replacementSets := replacementSets;
    }

    /** `parse_nlg_format`: the set is stored first; on success the tokens of the message, each
        replacement's value turned back into its slot, become the template's tokens. */
    method ParseNlgFormat(message: string, rs: seq<Replacement>, tok: Tokenizer, caseSensitive: bool)
      returns (ok: bool)
      modifies this
      ensures replacementSets == [rs]
      ensures var d := DelexicalizeFrom(tok, tok.tokenize(message), rs, caseSensitive);
        (ok <==> d.Some?) && tokens == (if d.Some? then d.value else old(tokens))
    {
      var parsed := tok.tokenize(message);
      replacementSets := [rs];
      var d := Delexicalize(tok, parsed, rs, caseSensitive);
      if d.None? {
        return false;
      }
      tokens := d.value;
      return true;
    }

    /** `get_realizations()`: the tokens lexicalized with each replacement set, in order. */
    function Realizations(): (r: Result<seq<seq<Token>>>)
      reads this
    {
      LexicalizeAll(tokens, replacementSets)
    }

    /** `get_realizations(as_text=True, tokenizer)`: without a tokenizer, ValueError. */
    function RealizationTexts(tok: Option<Tokenizer>): (r: Result<seq<string>>)
      reads this
      ensures tok.None? ==> r.Err? && r.error.ValueError?
      ensures tok.Some? && Realizations().Ok? ==> r.Ok? && |r.value| == |Realizations().value|
    {
      var rs :- Realizations();
      if tok.None? then Err(ValueError("tokenizer must be defined if as_text is True"))
      else Ok(seq(|rs|, i requires 0 <= i < |rs| => Detokenize(tok.value, rs[i])))
    }
  }

  function LexicalizeAll(ts: seq<Token>, sets: seq<seq<Replacement>>): (r: Result<seq<seq<Token>>>)
    ensures r.Ok? ==> |r.value| == |sets|
    ensures r.Ok? ==> forall k :: 0 <= k < |sets| ==> Lexicalize(ts, sets[k]) == Ok(r.value[k])
    ensures r.Err? ==> r.error.ValueError? && exists k :: 0 <= k < |sets| && Lexicalize(ts, sets[k]).Err?
  {
    if sets == [] then Ok([])
    else
      var first :- Lexicalize(ts, sets[0]);
      var rest :- LexicalizeAll(ts, sets[1..]);
      Ok([first] + rest)
  }

  /** With distinct names in every set, realizing never fails and gives each set's reference
      lexicalisation. */
  lemma RealizationsMeaning(t: Template)
    requires forall k :: 0 <= k < |t.replacementSets| ==> DistinctNames(t.replacementSets[k])
    ensures t.Realizations().Ok?
    ensures |t.Realizations().value| == |t.replacementSets|
    ensures forall k :: 0 <= k < |t.replacementSets| ==>
      t.Realizations().value[k] == Realized(t.tokens, t.replacementSets[k])
  {
    forall k | 0 <= k < |t.replacementSets| ensures Lexicalize(t.tokens, t.replacementSets[k]) == Ok(Realized(t.tokens, t.replacementSets[k])) {
      LexicalizeMeaning(t.tokens, t.replacementSets[k]);
    }
  }
}

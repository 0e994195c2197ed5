/** The rule-based Slovenian morphology (`slovene_simple_morpological_realizer.py`): the
    locative of the country names by table, and the gender agreement of "imela" with the nearest
    gendered name to its left. */
module SloveneMorphology {
  import opened Wrappers
  import opened Models

  /** A dictionary literal as the list of its items, in order. */
  type Table = seq<(string, string)>

  /** `d.get(k)`: the value of the last item with that key, as a dictionary literal keeps it. */
  function Get(t: Table, k: string): (r: Option<string>)
    ensures r.Some? <==> exists i :: 0 <= i < |t| && t[i].0 == k
    ensures r.Some? ==> exists i :: 0 <= i < |t| && t[i] == (k, r.value)
  {
    if t == [] then None
    else if t[|t| - 1].0 == k then Some(t[|t| - 1].1)
    else
      var r := Get(t[..|t| - 1], k);
      assert forall i :: 0 <= i < |t| - 1 ==> t[..|t| - 1][i] == t[i];
      r
  }

  predicate DistinctKeys(t: Table) {
    forall i, j :: 0 <= i < j < |t| ==> t[i].0 != t[j].0
  }

  /** With distinct keys every item is what `get` finds for its key. */
  lemma {:induction false} GetItem(t: Table, i: nat)
    requires DistinctKeys(t) && i < |t|
    ensures Get(t, t[i].0) == Some(t[i].1)
  {
    if i < |t| - 1 {
      assert t[..|t| - 1][i] == t[i];
      GetItem(t[..|t| - 1], i);
    }
  }

  /** The items with key and value exchanged. */
  function Swap(t: Table): (r: Table)
    ensures |r| == |t| && forall i :: 0 <= i < |t| ==> r[i] == (t[i].1, t[i].0)
  {
    if t == [] then [] else [(t[0].1, t[0].0)] + Swap(t[1..])
  }

  /** `REV_LOC = {v: k for k, v in LOC_MAP.items()}`, looked up. */
  function Reverse(t: Table, v: string): (r: Option<string>)
    ensures r.Some? <==> exists i :: 0 <= i < |t| && t[i].1 == v
  {
    var r := Get(Swap(t), v);
    assert r.Some? ==> exists i :: 0 <= i < |t| && Swap(t)[i].0 == v;
    r
  }

  /** What REV_LOC gives back is a name whose LOC_MAP image is the form looked up. */
  lemma ReverseRightInverse(t: Table, v: string)
    requires DistinctKeys(t) && Reverse(t, v).Some?
    ensures Get(t, Reverse(t, v).value) == Some(v)
  {
    var i :| 0 <= i < |t| && Swap(t)[i] == (v, Reverse(t, v).value);
    GetItem(t, i);
  }

  /** With distinct forms as well, REV_LOC undoes LOC_MAP exactly. */
  lemma ReverseLeftInverse(t: Table, k: string)
    requires DistinctKeys(t) && DistinctKeys(Swap(t)) && Get(t, k).Some?
    ensures Reverse(t, Get(t, k).value) == Some(k)
  {
    var i :| 0 <= i < |t| && t[i] == (k, Get(t, k).value);
    GetItem(Swap(t), i);
  }

  /** `LOC_MAP`: the locative, with its preposition, of each name the templates use. */
  const LocMap: Table := [
            ("Evroobmočje (v tistem trenutku)", "v Evroobmočju (v tistem trenutku)"),
      ("Evroobmočje (19 držav)", "v Evroobmočju (19 držav)"),
      ("Evroobmočje (18 držav)", "v Evroobmočju (18 držav)"),
      ("Evropska unija (v tistem trenutku)", "v Evropski uniji (v tistem trenutku)"),
      ("Evropska unija (28 držav)", "v Evropski uniji (28 držav)"),
      ("Bosna in Hercegovina", "v Bosni in Hercegovini"),
      ("Belgija", "v Belgiji"),
      ("Bolgarija", "v Bolgariji"),
      ("Češka", "na Češkem"),
      ("Danska", "na Danskem"),
      ("Nemčija", "v Nemčiji"),
      ("Estonija", "v Estoniji"),
      ("Irska", "na Irskem"),
      ("Grčija", "v Grčiji"),
      ("Španija", "v Španiji"),
      ("Francija", "v Franciji"),
      ("Hrvaška", "na Hrvaškem"),
      ("Italija", "v Italiji"),
      ("Ciper", "na Cipru"),
      ("Liechtenstein", "v Lihtenštajnu"),
      ("Latvija", "v Latviji"),
      ("Litva", "v Litvi"),
      ("Luksemburg", "v Luksemburgu"),
      ("Madžarska", "na Madžarskem"),
      ("Malta", "na Malti"),
      ("Nizozemska", "na Nizozemskem"),
      ("Avstrija", "v Avstriji"),
      ("Poljska", "na Poljskem"),
      ("Portugalska", "na Portugalskem"),
      ("Romunija", "v Romuniji"),
      ("Slovenija", "v Sloveniji"),
      ("Slovaška", "na Slovaškem"),
      ("Finska", "na Finskem"),
      ("Švedska", "na Švedskem"),
      ("Združeno kraljestvo", "v Združenem kraljestvu"),
      ("Islandija", "na Islandiji"),
      ("Norveška", "na Norveškem"),
      ("Švica", "v Švici"),
      ("Severna Makedonija", "v Severni Makedoniji"),
      ("Srbija", "v Srbiji"),
      ("Turčija", "v Turčiji"),
      ("Združene države", "v Združenih državah")]

  /** `GENDER`: the grammatical gender of each name. */
  const GenderMap: Table := [
            ("Evroobmočje (v tistem trenutku)", "nt"),
      ("Evroobmočje (19 držav)", "nt"),
      ("Evroobmočje (18 držav)", "nt"),
      ("Evropska unija (v tistem trenutku)", "f)"),
      ("Evropska unija (28 držav)", "f"),
      ("Bosna in Hercegovina", "f"),
      ("Belgija", "f"),
      ("Bolgarija", "f"),
      ("Češka", "f"),
      ("Danska", "f"),
      ("Nemčija", "f"),
      ("Estonija", "f"),
      ("Irska", "f"),
      ("Grčija", "f"),
      ("Španija", "f"),
      ("Francija", "f"),
      ("Hrvaška", "f"),
      ("Italija", "f"),
      ("Ciper", "m"),
      ("Liechtenstein", "f"),
      ("Latvija", "f"),
      ("Litva", "f"),
      ("Luksemburg", "m"),
      ("Madžarska", "f"),
      ("Malta", "f"),
      ("Nizozemska", "f"),
      ("Avstrija", "f"),
      ("Poljska", "f"),
      ("Portugalska", "f"),
      ("Romunija", "f"),
      ("Slovenija", "f"),
      ("Slovaška", "f"),
      ("Finska", "f"),
      ("Švedska", "f"),
      ("Združeno kraljestvo", "f"),
      ("Islandija", "f"),
      ("Norveška", "f"),
      ("Švica", "f"),
      ("Severna Makedonija", "f"),
      ("Srbija", "f"),
      ("Turčija", "f"),
      ("Združene države", "m")]

  datatype Tables = Tables(loc: Table, gender: Table)

  const Slovenian := Tables(LocMap, GenderMap)

  /** The verb form agreeing with a name of the given gender; "Združene države" is plural,
      and every other gender (feminine, and the stray "f)") keeps "imela". */
  function Form(word: string, gender: string): (r: string)
    ensures r in {"imeli", "imelo", "imel", "imela"}
    ensures word != "Združene države" && gender !in {"nt", "m"} ==> r == "imela"
  {
    if word == "Združene države" then "imeli"
    else if gender == "nt" then "imelo"
    else if gender == "m" then "imel"
    else "imela"
  }

  /** One component to the left: its value with the locative undone, when that is a name with a
      gender. A set value cannot be a dictionary key and raises TypeError. */
  function Noun(c: Component, t: Tables): (r: Result<Option<string>>)
    ensures r.Ok? && r.value.Some? ==> Get(t.gender, r.value.value).Some?
  {
    var w :- ComponentValue(c);
    if w.VSet? then Err(TypeError("unhashable type: 'set'"))
    else
      var word := if w.VStr? && Reverse(t.loc, w.s).Some? then VStr(Reverse(t.loc, w.s).value) else w;
      if word.VStr? && Get(t.gender, word.s).Some? then Ok(Some(word.s)) else Ok(None)
  }

  /** The form a gendered name calls for. */
  function FormOf(name: string, t: Tables): string
    requires Get(t.gender, name).Some?
  {
    Form(name, Get(t.gender, name).value)
  }

  /** Component i is a gendered name and none to its right is. */
  predicate NearestAt(left: seq<Component>, t: Tables, i: int) {
    0 <= i < |left| && Noun(left[i], t).Ok? && Noun(left[i], t).value.Some?
    && forall j :: i < j < |left| ==> Noun(left[j], t) == Ok(None)
  }

  /** The right-to-left scan of the left context, stopping at the first gendered name. */
  function Agreement(left: seq<Component>, t: Tables): Result<Option<string>>
    decreases |left|
  {
    if left == [] then Ok(None)
    else
      var n :- Noun(left[|left| - 1], t);
      if n.Some? then Ok(Some(FormOf(n.value, t)))
      else Agreement(left[..|left| - 1], t)
  }

  /** The nearest gendered name to the left decides the form; without one the value is kept;
      a failing component on the way raises. */
  lemma {:induction false} AgreementMeaning(left: seq<Component>, t: Tables)
    ensures var r := Agreement(left, t);
      (r.Ok? && r.value.Some? ==>
         exists i :: NearestAt(left, t, i) && r.value.value == FormOf(Noun(left[i], t).value.value, t))
      && (r == Ok(None) ==> forall i :: 0 <= i < |left| ==> Noun(left[i], t) == Ok(None))
      && (r.Err? ==> exists i :: 0 <= i < |left| && Noun(left[i], t).Err?)
    decreases |left|
  {
    hide Noun;
    if left != [] {
      var n := Noun(left[|left| - 1], t);
      if n.Ok? && n.value.Some? {
        assert NearestAt(left, t, |left| - 1);
      } else if n.Ok? {
        var init := left[..|left| - 1];
        AgreementMeaning(init, t);
        NearestExtends(left, t);
      }
    }
  }

  /** A nearest name of the context without its last component is still the nearest when that
      last component is no gendered name. */
  lemma NearestExtends(left: seq<Component>, t: Tables)
    requires left != [] && Noun(left[|left| - 1], t) == Ok(None)
    ensures var init := left[..|left| - 1];
      (forall i :: NearestAt(init, t, i) ==> NearestAt(left, t, i) && left[i] == init[i])
      && ((forall i :: 0 <= i < |init| ==> Noun(init[i], t) == Ok(None)) ==> forall i :: 0 <= i < |left| ==> Noun(left[i], t) == Ok(None))
      && ((exists i :: 0 <= i < |init| && Noun(init[i], t).Err?) ==> exists i :: 0 <= i < |left| && Noun(left[i], t).Err?)
  {
    hide Noun;
    var init := left[..|left| - 1];
    assert forall i :: 0 <= i < |init| ==> init[i] == left[i];
  }

  /** `realize(slot, left_context, right_context)`; the right context is not consulted. */
  function Realize(slot: Component, left: seq<Component>, right: seq<Component>, t: Tables): (r: Result<Value>)
    requires slot.Slot?
  {
    var case_ := Attribute(slot, "case");
    var gendered := Attribute(slot, "gendered");
    if case_ == VNone && gendered == VNone then SlotValue(slot)
    else
      var v :- SlotValue(slot);
      if case_ == VStr("loct") then
        if v.VSet? then Err(TypeError("unhashable type: 'set'"))
        else if v.VStr? && Get(t.loc, v.s).Some? then Ok(VStr(Get(t.loc, v.s).value))
        else Ok(v)
      else if gendered == VStr("previous_word") && v == VStr("imela") then
        var f :- Agreement(left, t);
        if f.Some? then Ok(VStr(f.value)) else Ok(v)
      else Ok(v)
  }

  /** The rules of `realize` in the order they apply: an unmarked slot keeps its value; "loct"
      takes the table's locative, before any gender marking; "imela" marked for the previous
      word agrees with the nearest gendered name; anything else keeps its value. */
  lemma RealizeRules(slot: Component, left: seq<Component>, right: seq<Component>, t: Tables)
    requires slot.Slot?
    ensures var r := Realize(slot, left, right, t);
      var v := SlotValue(slot);
      (Attribute(slot, "case") == VNone && Attribute(slot, "gendered") == VNone ==> r == v)
      && (v.Err? ==> r == v)
      && (Attribute(slot, "case") == VStr("loct") && v.Ok? && v.value.VStr? ==>
           r == Ok(VStr(if Get(t.loc, v.value.s).Some? then Get(t.loc, v.value.s).value else v.value.s)))
      && (Attribute(slot, "case") != VStr("loct") && Attribute(slot, "gendered") == VStr("previous_word")
          && v == Ok(VStr("imela")) ==>
           (Agreement(left, t).Err? ==> r.Err?)
           && (Agreement(left, t) == Ok(None) ==> r == v)
           && (Agreement(left, t).Ok? && Agreement(left, t).value.Some? ==> r == Ok(VStr(Agreement(left, t).value.value))))
      && ((Attribute(slot, "case") != VStr("loct")
           && !(Attribute(slot, "gendered") == VStr("previous_word") && v == Ok(VStr("imela")))) ==> r == v)
      && r == Realize(slot, left, [], t)
  {
  }

  /** The plural United States: once its locative has been applied, "imela" after it becomes
      "imeli". */
  lemma UnitedStatesAgreement(left: seq<Component>, right: seq<Component>)
    ensures var loc := Slot(Resolved(VStr("Združene države")), map["case" := VStr("loct")], None);
      Realize(loc, left, right, Slovenian) == Ok(VStr("v Združenih državah"))
    ensures var verb := Slot(Resolved(VStr("imela")), map["gendered" := VStr("previous_word")], None);
      left != [] && ComponentValue(left[|left| - 1]) == Ok(VStr("v Združenih državah")) ==>
        Realize(verb, left, right, Slovenian) == Ok(VStr("imeli"))
  {
    hide Realize, Agreement, Noun, Get, Reverse;
    UnitedStatesLocative();
    UnitedStatesReverse();
    UnitedStatesGender();
    PluralAgreement(Slovenian, left, right);
  }

  /** With any tables that map the United States to its locative and give it a gender. */
  lemma PluralAgreement(t: Tables, left: seq<Component>, right: seq<Component>)
    requires Get(t.loc, "Združene države") == Some("v Združenih državah")
    requires Reverse(t.loc, "v Združenih državah") == Some("Združene države")
    requires Get(t.gender, "Združene države").Some?
    ensures var loc := Slot(Resolved(VStr("Združene države")), map["case" := VStr("loct")], None);
      Realize(loc, left, right, t) == Ok(VStr("v Združenih državah"))
    ensures var verb := Slot(Resolved(VStr("imela")), map["gendered" := VStr("previous_word")], None);
      left != [] && ComponentValue(left[|left| - 1]) == Ok(VStr("v Združenih državah")) ==>
        Realize(verb, left, right, t) == Ok(VStr("imeli"))
  {
    hide *;
    LocativeOfUnitedStates(t, left, right);
    if left != [] && ComponentValue(left[|left| - 1]) == Ok(VStr("v Združenih državah")) {
      VerbAfterUnitedStates(t, left, right);
    }
  }

  lemma LocativeOfUnitedStates(t: Tables, left: seq<Component>, right: seq<Component>)
    requires Get(t.loc, "Združene države") == Some("v Združenih državah")
    ensures var loc := Slot(Resolved(VStr("Združene države")), map["case" := VStr("loct")], None);
      Realize(loc, left, right, t) == Ok(VStr("v Združenih državah"))
  {
  }

  lemma VerbAfterUnitedStates(t: Tables, left: seq<Component>, right: seq<Component>)
    requires Reverse(t.loc, "v Združenih državah") == Some("Združene države")
    requires Get(t.gender, "Združene države").Some?
    requires left != [] && ComponentValue(left[|left| - 1]) == Ok(VStr("v Združenih državah"))
    ensures var verb := Slot(Resolved(VStr("imela")), map["gendered" := VStr("previous_word")], None);
      Realize(verb, left, right, t) == Ok(VStr("imeli"))
  {
    var verb := Slot(Resolved(VStr("imela")), map["gendered" := VStr("previous_word")], None);
    VerbSlotAttributes();
    AgreementAfterUnitedStates(t, left);
    hide Agreement, Attribute, SlotValue;
    assert Realize(verb, left, right, t) == Ok(VStr("imeli"));
  }

  lemma VerbSlotAttributes()
    ensures var verb := Slot(Resolved(VStr("imela")), map["gendered" := VStr("previous_word")], None);
      Attribute(verb, "case") == VNone && Attribute(verb, "gendered") == VStr("previous_word")
      && SlotValue(verb) == Ok(VStr("imela"))
  {
    assert "case" != "gendered" by { assert "case"[0] != "gendered"[0]; }
  }

  lemma AgreementAfterUnitedStates(t: Tables, left: seq<Component>)
    requires Reverse(t.loc, "v Združenih državah") == Some("Združene države")
    requires Get(t.gender, "Združene države").Some?
    requires left != [] && ComponentValue(left[|left| - 1]) == Ok(VStr("v Združenih državah"))
    ensures Agreement(left, t) == Ok(Some("imeli"))
  {
    assert Noun(left[|left| - 1], t) == Ok(Some("Združene države"));
  }

  /** The last items of both tables. */
  lemma UnitedStatesLocative()
    ensures Get(LocMap, "Združene države") == Some("v Združenih državah")
  {
    LastItem(LocMap, "Združene države", "v Združenih državah");
  }

  lemma UnitedStatesReverse()
    ensures Reverse(LocMap, "v Združenih državah") == Some("Združene države")
  {
    hide Reverse, Swap, Get;
    assert LocMap[|LocMap| - 1] == ("Združene države", "v Združenih državah");
    LastItem(Swap(LocMap), "v Združenih državah", "Združene države");
    ReverseIsGetOfSwap(LocMap, "v Združenih državah");
  }

  lemma UnitedStatesGender()
    ensures Get(GenderMap, "Združene države") == Some("m")
  {
    LastItem(GenderMap, "Združene države", "m");
  }

  lemma ReverseIsGetOfSwap(t: Table, v: string)
    ensures Reverse(t, v) == Get(Swap(t), v)
  {
  }

  lemma LastItem(t: Table, k: string, v: string)
    requires t != [] && t[|t| - 1] == (k, v)
    ensures Get(t, k) == Some(v)
  {
  }
}

/** The entity tags of the EU generator (`eu_named_entity_resolver.py`): recognising and parsing
    "[ENTITY:<type>:<id>]", and the resolvers that turn an entity into its name. */
module NamedEntities {
  import opened Wrappers
  import opened Text
  import opened Models

  /** A well-formed tag part: the type is non-empty without ':', the id non-empty without ']'. */
  predicate ValidType(t: string) { t != [] && ':' !in t }
  predicate ValidId(id: string) { id != [] && ']' !in id }

  /** A full match of `\[ENTITY:([^:]+):([^\]]+)\]`: the type and the id. The type runs to the
      first ':' after the prefix; the id is the rest before the final ']'. */
  function MatchEntity(s: string): (r: Option<(string, string)>)
    ensures r.Some? ==> ValidType(r.value.0) && ValidId(r.value.1) && s == EntityTag(r.value.0, r.value.1)
  {
    if |s| < 9 || !StartsWith(s, "[ENTITY:") || s[|s| - 1] != ']' then None
    else
      var body := s[8..|s| - 1];
      var k := IndexOfChar(body, ':');
      if k <= 0 || k + 1 == |body| || ']' in body[k + 1..] then None
      else
        TagAt(s, k);
        Some((body[..k], body[k + 1..]))
  }

  lemma TagAt(s: string, k: nat)
    requires |s| >= 9 && StartsWith(s, "[ENTITY:") && s[|s| - 1] == ']'
    requires 0 < k < |s| - 10 && s[8 + k] == ':' && ':' !in s[8..|s| - 1][..k]
    ensures ValidType(s[8..|s| - 1][..k])
    ensures s == EntityTag(s[8..|s| - 1][..k], s[8..|s| - 1][k + 1..])
  {
    var body := s[8..|s| - 1];
    assert body == body[..k] + [':'] + body[k + 1..];
    assert s == s[..8] + body + [s[|s| - 1]];
  }

  /** Every well-formed tag is matched, with its own type and id. */
  lemma MatchEntityTag(t: string, id: string)
    requires ValidType(t) && ValidId(id)
    ensures MatchEntity(EntityTag(t, id)) == Some((t, id))
  {
    var s := EntityTag(t, id);
    var body := t + ":" + id;
    assert s[..8] == "[ENTITY:";
    assert s[8..|s| - 1] == body;
    assert body[|t|] == ':' && body[..|t|] == t && body[|t| + 1..] == id;
    assert IndexOfChar(body, ':') == |t| by {
      assert IndexOfChar(body, ':') <= |t|;
      assert ':' !in body[..|t|];
    }
  }

  /** `is_entity`: only strings that are entity tags. */
  predicate IsEntity(v: Value) {
    v.VStr? && MatchEntity(v.s).Some?
  }

  lemma IsEntityMeaning(v: Value)
    ensures IsEntity(v) <==> (v.VStr? && exists t, id :: ValidType(t) && ValidId(id) && v.s == EntityTag(t, id))
  {
    if v.VStr? && exists t, id :: ValidType(t) && ValidId(id) && v.s == EntityTag(t, id) {
      var t, id :| ValidType(t) && ValidId(id) && v.s == EntityTag(t, id);
      MatchEntityTag(t, id);
    }
  }

  /** `parse_entity`: the type and the id, or ValueError for a string that is no tag. */
  function ParseEntity(s: string): (r: Result<(string, string)>)
    ensures r.Ok? <==> IsEntity(VStr(s))
    ensures r.Err? ==> r.error.ValueError?
    ensures r.Ok? ==> s == EntityTag(r.value.0, r.value.1)
  {
    match MatchEntity(s)
    case None => Err(ValueError("Value does not match entity regex"))
    case Some(p) => Ok(p)
  }

  // ---------------------------------------------------------------- resolvers

  /** `EUEntityNameListResolver` and `EUEntityNameDictionaryResolver`. */
  datatype NameComponent =
    | ListResolver(variants: seq<string>)
    | DictionaryResolver(dictionary: map<string, string>)

  /** `resolve`: a chosen variant (numpy's `choice`, ValueError on an empty list), or the table
      entry with "UNKNOWN-ENTITY:<id>" for an entity the table lacks. */
  function Resolve(c: NameComponent, entity: string, choose: seq<string> -> nat): (r: Result<string>)
    ensures c.ListResolver? ==> (r.Ok? <==> c.variants != []) && (r.Ok? ==> r.value in c.variants)
    ensures c.DictionaryResolver? ==> r.Ok?
    ensures r.Err? ==> r.error.ValueError?
    ensures c.DictionaryResolver? && entity in c.dictionary ==> r.value == c.dictionary[entity]
    ensures c.DictionaryResolver? && entity !in c.dictionary ==> r.value == "UNKNOWN-ENTITY:" + entity
  {
    match c
    case ListResolver(vs) => if vs == [] then Err(ValueError("a cannot be empty unless no samples are taken")) else Ok(vs[choose(vs) % |vs|])
    case DictionaryResolver(d) => Ok(if entity in d then d[entity] else "UNKNOWN-ENTITY:" + entity)
  }

  /** The resolvers by language, entity type and name type. */
  type Realizers = map<string, map<string, map<string, NameComponent>>>

  /** The EU table over the four country-name dictionaries: English, Croatian, German, Finnish.
      Only English has a pronoun of its own. */
  function EuRealizers(en: map<string, string>, hr: map<string, string>, de: map<string, string>,
                       fi: map<string, string>): Realizers {
    map[
      "en" := map["country" := map["full" := DictionaryResolver(en), "short" := DictionaryResolver(en),
                                   "pronoun" := ListResolver(["the country"])]],
      "hr" := map["country" := AllForms(hr)],
      "de" := map["country" := AllForms(de)],
      "fi" := map["country" := AllForms(fi)]]
  }

  function AllForms(d: map<string, string>): map<string, NameComponent> {
    map["full" := DictionaryResolver(d), "short" := DictionaryResolver(d), "pronoun" := DictionaryResolver(d)]
  }

  /** The chained `.get` lookups: None wherever one level lacks the key. */
  function Lookup(rs: Realizers, language: string, entityType: string, nameType: Option<Value>): (r: Option<NameComponent>)
    ensures r.Some? <==> (language in rs && entityType in rs[language] && nameType.Some? && nameType.value.VStr?
                          && nameType.value.s in rs[language][entityType])
  {
    if language in rs && entityType in rs[language] && nameType.Some? && nameType.value.VStr?
       && nameType.value.s in rs[language][entityType]
    then Some(rs[language][entityType][nameType.value.s])
    else None
  }

  /** `resolve_surface_form`: with no resolver the slot is left as it is; otherwise its value
      becomes the resolved name. */
  function ResolveSurfaceForm(rs: Realizers, language: string, slot: Component, entity: string, entityType: string,
                              choose: seq<string> -> nat): (r: Result<Component>)
    requires slot.Slot?
    ensures r.Ok? ==> r.value.Slot? && r.value.attributes == slot.attributes && r.value.fact == slot.fact
  {
    var nameType := if "name_type" in slot.attributes then Some(slot.attributes["name_type"]) else None;
    match Lookup(rs, language, entityType, nameType)
    case None => Ok(slot)
    case Some(c) =>
      var name :- Resolve(c, entity, choose);
      Ok(slot.(source := Resolved(VStr(name))))
  }

  /** Either the slot is unchanged because no resolver applies, or its value is the resolver's name. */
  lemma SurfaceFormMeaning(rs: Realizers, language: string, slot: Component, entity: string, entityType: string,
                           choose: seq<string> -> nat)
    requires slot.Slot? && "name_type" in slot.attributes
    ensures var c := Lookup(rs, language, entityType, Some(slot.attributes["name_type"]));
      var r := ResolveSurfaceForm(rs, language, slot, entity, entityType, choose);
      (c.None? ==> r == Ok(slot))
      && (c.Some? ==> (r.Ok? <==> Resolve(c.value, entity, choose).Ok?)
                      && (r.Ok? ==> r.value == slot.(source := Resolved(VStr(Resolve(c.value, entity, choose).value)))))
  {
  }

  /** In English the pronoun of a country is always "the country"; full and short names come from
      the table. */
  lemma EnglishTable(en: map<string, string>, hr: map<string, string>, de: map<string, string>,
                     fi: map<string, string>, entity: string, choose: seq<string> -> nat)
    ensures var rs := EuRealizers(en, hr, de, fi);
      Lookup(rs, "en", "country", Some(VStr("pronoun"))) == Some(ListResolver(["the country"]))
      && Resolve(ListResolver(["the country"]), entity, choose) == Ok("the country")
      && Lookup(rs, "en", "country", Some(VStr("full"))) == Some(DictionaryResolver(en))
      && Lookup(rs, "en", "country", Some(VStr("short"))) == Some(DictionaryResolver(en))
      && Lookup(rs, "en", "region", Some(VStr("full"))).None?
  {
    var vs := ["the country"];
    assert choose(vs) % |vs| == 0;
    var rs := EuRealizers(en, hr, de, fi);
    assert rs["en"] == map["country" := map["full" := DictionaryResolver(en), "short" := DictionaryResolver(en),
                                   "pronoun" := ListResolver(["the country"])]];
  }

  /** In Finnish, as in Croatian and German, all three forms are the table's name. */
  lemma FinnishTable(en: map<string, string>, hr: map<string, string>, de: map<string, string>,
                     fi: map<string, string>, nameType: string)
    requires nameType in {"full", "short", "pronoun"}
    ensures Lookup(EuRealizers(en, hr, de, fi), "fi", "country", Some(VStr(nameType))) == Some(DictionaryResolver(fi))
  {
    var rs := EuRealizers(en, hr, de, fi);
    assert rs["fi"] == map["country" := AllForms(fi)];
  }
}

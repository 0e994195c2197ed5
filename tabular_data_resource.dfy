/** `TabularDataResource.supports` (`resources/tabular_data_resource.py`): which languages and
    datasets a template resource covers. */
module TabularDataResource {
  import opened Text

  /** The two lists are stored as given. */
  datatype TabularDataResource = TabularDataResource(supportedLanguages: seq<string>, supportedData: seq<string>)

  /** The lower-cased query is "any" or one of the stored entries, for both arguments. */
  predicate Supports(r: TabularDataResource, language: string, data: string) {
    (Lower(language) == "any" || Lower(language) in r.supportedLanguages)
    && (Lower(data) == "any" || Lower(data) in r.supportedData)
  }

  lemma {:induction false} LowerTwice(s: string)
    ensures Lower(Lower(s)) == Lower(s)
  {
    assert forall i :: 0 <= i < |s| ==> LowerChar(LowerChar(s[i])) == LowerChar(s[i]);
  }

  /** The queries are case-insensitive; "any" in any case is a wildcard for either argument. */
  lemma QueriesIgnoreCase(r: TabularDataResource, language: string, data: string)
    ensures Supports(r, language, data) <==> Supports(r, Lower(language), Lower(data))
    ensures Lower(language) == "any" ==> (Supports(r, language, data) <==> (Lower(data) == "any" || Lower(data) in r.supportedData))
    ensures Lower(data) == "any" ==> (Supports(r, language, data) <==> (Lower(language) == "any" || Lower(language) in r.supportedLanguages))
  {
    LowerTwice(language);
    LowerTwice(data);
  }

  /** The stored lists are not lower-cased: an upper-case entry is never matched. */
  lemma StoredListsAsGiven()
    ensures !Supports(TabularDataResource(["EN"], ["cphi"]), "EN", "cphi")
    ensures Supports(TabularDataResource(["en"], ["cphi"]), "EN", "CPHI")
    ensures Supports(TabularDataResource([], []), "Any", "ANY")
  {
    SampleLowers();
    hide Lower;
  }

  lemma SampleLowers()
    ensures Lower("EN") == "en" && Lower("CPHI") == "cphi" && Lower("cphi") == "cphi"
    ensures Lower("Any") == "any" && Lower("ANY") == "any"
  {
    assert Lower("EN") == "en";
    assert Lower("CPHI") == "cphi";
    assert Lower("cphi") == "cphi";
    assert Lower("Any") == "any";
    assert Lower("ANY") == "any";
  }
}

/** The rule-based Croatian morphology (`croatian_simple_morpological_realizer.py`): only the
    locative case is inflected, by the last letters of the value. */
module CroatianMorphology {
  import opened Wrappers
  import opened Models

  const Vowels := "aeiouyAEIOUY"

  /** The locative of a string: a final vowel after 'j' becomes "i", any other final vowel "oj",
      and a final consonant takes "u". Indexing `[-1]` of "" and `[-2]` of a lone vowel raise. */
  function Locative(s: string): (r: Result<string>)
    ensures r.Err? <==> s == [] || (|s| == 1 && s[0] in Vowels)
    ensures r.Err? ==> r.error == IndexError
  {
    if s == [] then Err(IndexError)
    else if s[|s| - 1] in Vowels then
      if |s| < 2 then Err(IndexError)
      else if s[|s| - 2] == 'j' then Ok(s[..|s| - 1] + "i")
      else Ok(s[..|s| - 1] + "oj")
    else Ok(s + "u")
  }

  /** The three suffix rules, stated on the stem and the ending. */
  lemma LocativeRules(s: string)
    ensures |s| >= 2 && s[|s| - 1] in Vowels && s[|s| - 2] == 'j' ==>
      Locative(s) == Ok(s[..|s| - 1] + "i")
    ensures |s| >= 2 && s[|s| - 1] in Vowels && s[|s| - 2] != 'j' ==>
      Locative(s) == Ok(s[..|s| - 1] + "oj")
    ensures s != [] && s[|s| - 1] !in Vowels ==> Locative(s) == Ok(s + "u")
  {
  }

  /** Country names as the templates use them. */
  lemma LocativeExamples()
    ensures Locative("Hrvatska") == Ok("Hrvatskoj")
    ensures Locative("Srbija") == Ok("Srbiji")
    ensures Locative("Cipar") == Ok("Ciparu")
    ensures Locative("") == Err(IndexError) && Locative("a") == Err(IndexError)
  {
    assert "Hrvatska"[..7] + "oj" == "Hrvatskoj";
    assert "Srbija"[..5] + "i" == "Srbiji";
    assert "Cipar"[4] == 'r' && 'r' !in Vowels;
    assert "Cipar" + "u" == "Ciparu";
  }

  /** `realize`: the slot's value, inflected when the case is "loc". A value that cannot be
      indexed like a string raises TypeError. */
  function Realize(slot: Component): (r: Result<Value>)
    requires slot.Slot?
    ensures Attribute(slot, "case") != VStr("loc") ==> r == SlotValue(slot)
    ensures Attribute(slot, "case") == VStr("loc") && SlotValue(slot).Ok? && SlotValue(slot).value.VStr? ==>
      r == (var l := Locative(SlotValue(slot).value.s); if l.Err? then Err(l.error) else Ok(VStr(l.value)))
    ensures Attribute(slot, "case") == VStr("loc") && SlotValue(slot).Ok? && !SlotValue(slot).value.VStr? ==>
      r.Err? && r.error.TypeError?
  {
    if Attribute(slot, "case") == VNone then SlotValue(slot)
    else
      var v :- SlotValue(slot);
      if Attribute(slot, "case") != VStr("loc") then Ok(v)
      else if !v.VStr? then Err(TypeError("object is not subscriptable"))
      else
        var l :- Locative(v.s);
        Ok(VStr(l))
  }
}

# Eurostat NLG pipeline, modelled in Dafny

A template-based natural-language generator for Eurostat-style statistics: a table of facts becomes
messages, messages are scored for newsworthiness, a document planner builds a tree of paragraphs,
templates are attached and realised, and the tree is flattened to a headline or HTML body.

The modules follow the program's files: `Models` (facts, messages, templates, slots, matchers and the
first-match `check`/`fill`), `TemplateReader` and `TemplateGroups` (the template file parser),
`MessageGenerator` and `Importance` (fact extraction and scoring), `DocumentPlanner` with the strategy
modules `FullPlanner`, `ContextSimPlanner`, `EarlyStopPlanner`, `ScorePlanner` and `RandomPlanner`,
`TemplateSelector`, `Aggregator`, the realisers (`RealizeSlots`, `DateRealizer`, `NamedEntities`,
`EntityNameResolver`, `NumberRealizer`, `MorphologicalRealizer`, `CroatianMorphology`,
`SloveneMorphology`, `SurfaceRealizer`), the registry and the stages of the example-message fetcher and
the template translator. Messages, templates and plans are values; the objects the program updates
through their own methods (`TemplateObject`, `Registry`) are classes, and the stages' loops are methods
proved against the functions that specify them. What the program takes from its environment (regular
expression matching, printing of floats, float powers, random choices, the tokenizer, the translation
model) is a function-valued parameter. Errors are a `Result` whose error names the exception the
program would raise.

## Model

| member | source | states |
|---|---|---|
| MessageGenerator.SplitPools | eunlg/eu_message_generator.py:53-63 | "all" keeps every row in the core with no expanded pool; otherwise every core row is at the queried location and the expanded pool (present iff expanding) holds rows elsewhere; with it the two pools are the rows as a multiset, without it the core is a sub-multiset |
| MessageGenerator.SelectPartition | eunlg/eu_message_generator.py:58-59 | the `location==q` and `location!=q` queries partition the rows |
| MessageGenerator.ValueColumns | eunlg/eu_message_generator.py:72-81 | a column is kept iff it is in the frame and is not a meta column, not ignored and does not contain ":outlierness" |
| MessageGenerator.TimestampText | eunlg/eu_message_generator.py:125-126 | a float timestamp becomes the numeral of its truncated integer, an integer the numeral of itself, a string stays as it is; any other value has no text |
| MessageGenerator.ColumnMessagesOk | eunlg/eu_message_generator.py:139-141 | a row yields messages iff every value column is present in it (else KeyError) |
| MessageGenerator.ColumnMessagesContent | eunlg/eu_message_generator.py:139-168 | exactly one message per column whose value is not None, "" or NaN, in column order, holding that value, the column as value type and its outlierness |
| MessageGenerator.RowMessages | eunlg/eu_message_generator.py:118-168 | a kept row's messages are recent, single-fact, numbered on, and located at "[ENTITY:<type>:<location>]"; integer timestamps are kept (see `YearlyIntTimestamp`, `MonthlyIntTimestamp`) |
| MessageGenerator.GenerateMeaning | eunlg/eu_message_generator.py:82-98 | core and expanded messages have distinct consecutive ids, are all recent, and the core ones carry the queried location's tag |
| MessageGenerator.Generate | eunlg/eu_message_generator.py:97-98 | a successful run has a non-empty core, and no expanded messages for "all" or without expanding |
| MessageGenerator.GenMessages | eunlg/eu_message_generator.py:110-168 | appending one row's messages to the caller's list agrees with the row's messages |
| MessageGenerator.GenAll | eunlg/eu_message_generator.py:82-84 | applying the row generator to every row agrees with the frame's messages |
| MessageGenerator.Run | eunlg/eu_message_generator.py:30-108 | the run agrees with Generate, and the previous-location messages are returned only when a previous location is given |
| MessageGenerator.Select | eunlg/eu_message_generator.py:58-62 | every selected row's location equals (or, for the other query, differs from) the queried one; `SelectPartition` shows no row is lost |
| MessageGenerator.DefinedColumns | eunlg/eu_message_generator.py:139-153 | the columns kept are exactly those whose value is not None, "" or NaN, in column order |
| MessageGenerator.RowMessagesTagged | eunlg/eu_message_generator.py:155-156 | a row at location q yields messages whose location is the entity tag of q |
| MessageGenerator.FrameMessagesShape | eunlg/eu_message_generator.py:82-84 | the messages of a frame are numbered on from the first id, so no two share an id, and all are single-fact messages about recent rows |
| MessageGenerator.FrameMessagesAt | eunlg/eu_message_generator.py:155-156 | rows of one location give messages whose location is that location's entity tag |
| MessageGenerator.ConcatShape | eunlg/eu_message_generator.py:82-84 | two runs of numbered recent messages, the second numbered on from the first, make one |
| MessageGenerator.NumberedDistinct | eunlg/eu_message_generator.py:82-84 | two messages of one generator run never share an id |
| MessageGenerator.RowMessagesCases | eunlg/eu_message_generator.py:125-168 | unfolding used by proofs about RowMessages: its three cases, an unreadable timestamp, a row too old to keep, or its column messages (the properties are stated by YearlyIntTimestamp, MonthlyIntTimestamp and RowMessages) |
| MessageGenerator.YearlyIntTimestamp | eunlg/eu_message_generator.py:125-137 | a yearly row with an integer timestamp is dropped when older than three years and otherwise yields its column messages, the stamp being the integer's numeral |
| MessageGenerator.MonthlyIntTimestamp | eunlg/eu_message_generator.py:129-130 | a monthly row with an integer timestamp raises AttributeError at `split` |
| Models.LexLessStrictTotal | eunlg/core/models.py:599-608 | the code-point order the `<` and `>` matchers use on strings is irreflexive, total on distinct strings and asymmetric |
| Models.LexLessTransitive | eunlg/core/models.py:599-608 | the string order is transitive |
| Models.LexLeTransitive | eunlg/core/models.py:599-608 | "not after" on strings is transitive |
| Models.FieldOf | eunlg/core/models.py:202-211 | reading a fact attribute succeeds exactly for the nine Fact field names, otherwise AttributeError |
| Models.NewMessage | eunlg/core/models.py:136-152 | a message is built iff the fact list is non-empty (else IndexError); it keeps the list, its first fact is the main fact, no template, score 0, coefficient 1, aggregation allowed |
| Models.MessageOfFact | eunlg/core/models.py:145-146 | a single fact becomes the one-element fact list and the main fact |
| Models.SetFacts | eunlg/core/models.py:158-161 | the facts setter succeeds iff the list is non-empty, replaces the facts and makes the first one the main fact, and changes nothing else |
| Models.SetMainFact | eunlg/core/models.py:168-172 | the main fact becomes f and is among the facts; the list is unchanged when f was in it, else f is put in front |
| Models.SetMainFactIdempotent | eunlg/core/models.py:168-172 | setting the same main fact twice is the same as setting it once |
| Models.SlotType | eunlg/core/models.py:422-424 | the slot type is undefined exactly for a slot whose source a realizer has replaced |
| Models.SlotValue | eunlg/core/models.py:426-428 | a literal source gives its text, a replaced source its value, a fact-field source the bound fact's attribute |
| Models.CopyComponent | eunlg/core/models.py:434-439 | a copied slot has the same source and attributes and keeps its fact only when asked; a literal is unchanged |
| Models.CopyAll | eunlg/core/models.py:354 | each component is copied without its fact, position by position |
| Models.Copy | eunlg/core/models.py:352-355 | the copy has as many components, each copied without its fact, the same rules and no used facts |
| Models.CopyIdempotent | eunlg/core/models.py:352-355 | copying a copy gives the same template |
| Models.HasSlotOfType | eunlg/core/models.py:349-350 | true iff some slot has the type and no earlier component has an undefined slot type |
| Models.HasSlotOfTypeUnresolved | eunlg/core/models.py:349-350 | on a template with no replaced slot the test succeeds and is true iff some slot has that type |
| Models.HasSlotOfTypeErrs | eunlg/core/models.py:349-350 | on a template with no replaced slot the test never raises |
| Models.CopyKeepsSlotTypes | eunlg/core/models.py:349-355 | a copied template answers the slot-type test exactly as the original |
| Models.GetSlot | eunlg/core/models.py:237-250 | a found slot is one of the components and has the asked type; with no slot of that type the result is KeyError (first-match and found-when-present: `GetSlotMeaning`) |
| Models.GetSlotMeaning | eunlg/core/models.py:245-250 | a found slot is the first slot of that type; on components without a resolved slot a slot of that type is always found |
| Models.NewMatcher | eunlg/core/models.py:610-617 | a matcher is built iff the operator is one of the seven, keeping its sides; otherwise ValueError |
| Models.ApplyOp | eunlg/core/models.py:588-608 | "=" is the anchored pattern match for a string right side and equality otherwise, "!=" its negation, "in" containment of the left side in the right |
| Models.Matches | eunlg/core/models.py:619-627 | a constant right side is compared with the evaluated left side by the operator; an error evaluating the left side is the matcher's error |
| Models.AllMatchMeaning | eunlg/core/models.py:293 | all matchers pass iff every single matcher returns true |
| Models.Bind | eunlg/core/models.py:296-300 | binding succeeds iff every rule index is a valid (possibly negative) list index, else IndexError; the result binds the fact into exactly the slots at those indices |
| Models.FirstMatching | eunlg/core/models.py:308-319 | a found message index lies within the message list |
| Models.FirstMatchingMeaning | eunlg/core/models.py:308-322 | the search finds the least index whose main fact passes all matchers, and finds none iff every message fails |
| Models.CheckRestUsed | eunlg/core/models.py:304-322 | the later rules only add facts: the used list stays duplicate-free, starts with the primary fact, grows by at most one fact per rule, or is emptied on failure |
| Models.CheckResult | eunlg/core/models.py:271-327 | `check` returns either [] or the primary fact first, no duplicates, every other fact the main fact of some message, and at most one fact per rule |
| Models.CheckFirstRuleFails | eunlg/core/models.py:293-294 | a first-rule matcher false on the primary fact makes `check` return [] with the components untouched |
| Models.FirstFalse | eunlg/core/models.py:293 | one false matcher among matchers that do not raise makes `all` false |
| Models.CheckRestNoMatch | eunlg/core/models.py:320-322 | a later rule no message satisfies makes `check` return [] |
| Models.CheckRestFill | eunlg/core/models.py:304-319 | filling and checking select the same facts; checking leaves the components alone |
| Models.CheckAgreesWithFill | eunlg/core/models.py:329-339 | `check` without filling returns the facts `fill` returns and leaves the components unchanged |
| Models.TemplateObject.constructor | eunlg/core/models.py:220-235 | the new template object holds the given components and rules |
| Models.TemplateObject.Check | eunlg/core/models.py:271-327 | the loops over rules and messages compute what CheckTemplate states, binding slots in place when filling and storing the used facts only on success |
| Models.TemplateObject.CheckLaterRules | eunlg/core/models.py:305-322 | the loop over the later rules agrees with CheckRest |
| Models.TemplateObject.BindInPlace | eunlg/core/models.py:311-315 | the in-place slot binding agrees with Bind and changes only the components |
| Models.TemplateObject.AddSlot | eunlg/core/models.py:252-258 | the slot is inserted at idx when idx is below the length, else appended; rules and facts unchanged |
| Models.TemplateObject.MoveSlot | eunlg/core/models.py:260-261 | succeeds iff `from` is a valid index, then the component is popped and reinserted at `to`; on IndexError nothing changes |
| Models.PyInsert | eunlg/core/models.py:254 | the list grows by one, the element sits at the clamped (negative counts from the end) index and the rest keep their order |
| Models.FlatCons | eunlg/core/models.py:16-25 | the messages of a plan list are the first plan's messages followed by the rest's |
| Aggregator.SlotTypeOf | eunlg/core/aggregator.py:180-185 | the slot type is read successfully exactly when it is defined, and is then that type |
| Aggregator.AreSameRules | eunlg/core/aggregator.py:164-202 | components with different values are never the same; slots missing a fact compare by value; a bound "value" slot is never the same; bound fact-field slots need equal field values; otherwise the cases decide, so literals are the same iff their texts are |
| Aggregator.SamePrefixMeaning | eunlg/core/aggregator.py:114-124 | two messages share a prefix iff both have templates whose first components have equal values; a missing template (AttributeError) means no; only an empty template raises |
| Aggregator.ValueErrors | eunlg/core/aggregator.py:114-124 | reading a component value can raise only AttributeError, which the prefix test catches |
| Aggregator.ImplicitTimeMeaning | eunlg/core/aggregator.py:126-127 | the time is implicit iff no slot of the template has type "time" |
| Aggregator.SplitFrom | eunlg/core/aggregator.py:134-142 | the loop index is unbound iff the second template is empty, and otherwise lies at or after the start within the second template, or is the last index scanned |
| Aggregator.SplitMeaning | eunlg/core/aggregator.py:134-142 | the split index is the first position where the components differ, or the first template's length when the second extends it, or the second's last position when it is a prefix of the first |
| Aggregator.FindSplit | eunlg/core/aggregator.py:136-142 | the enumerate loop computes SplitFrom |
| Aggregator.Conjunction | eunlg/core/aggregator.py:146-153 | the conjunction lookup fails with AttributeError exactly when the language has no table or an empty one (the tuple fallback has no `get`) |
| Aggregator.AllValues | eunlg/core/aggregator.py:130-132 | reading all component values succeeds iff each single read does |
| Aggregator.Unseen | eunlg/core/aggregator.py:157 | the second message's facts not among the first's, and no longer |
| Aggregator.CombineMeaning | eunlg/core/aggregator.py:129-162 | the merged message has the first template, the conjunction, then the second template from the split index; the first's facts and then the second's unseen ones, the first's coefficient, aggregation prevented; it fails on an empty second template or a missing conjunction table |
| Aggregator.CombineFacts | eunlg/core/aggregator.py:157 | a fact is in the merged message iff it is in either message |
| Aggregator.PolarityIgnored | eunlg/core/aggregator.py:150-153 | the polarities take no part in the merge (the comparison `first.polarity != first.polarity` only tests for NaN, and polarities are reals here) |
| Aggregator.AbsorbMeaning | eunlg/core/aggregator.py:51-98 | a message merges into the previous new child exactly when that child is a message, neither refuses aggregation, the prefixes agree and the time does not go from implicit to explicit; the merge puts the current message first when only the previous one states its time; otherwise it is appended |
| Aggregator.AbsorbCases | eunlg/core/aggregator.py:69-98 | unfolding used by proofs about Absorb: a successful step is one of its appending or merging cases (the property is stated by AbsorbMeaning) |
| Aggregator.AggregatePlan | eunlg/core/aggregator.py:29-40 | the recursive visit computes Aggregate |
| Aggregator.AggregateSequence | eunlg/core/aggregator.py:42-102 | the pass over the children computes AggregateFrom from an empty list of new children |
| Aggregator.AbsorbFacts | eunlg/core/aggregator.py:51-98 | after one absorbed message the new children hold the facts they held before plus the message's |
| Aggregator.AggregateFacts | eunlg/core/aggregator.py:29-102 | aggregation loses no fact and adds none |
| Aggregator.AggregateFromFacts | eunlg/core/aggregator.py:50-98 | the sequence loop from any position keeps the facts of the children seen and those still to come |
| Aggregator.AbsorbShape | eunlg/core/aggregator.py:51-98 | absorbing a message changes at most the last new child, and only when that child is a message |
| Aggregator.AggregateFromShape | eunlg/core/aggregator.py:50-101 | the loop keeps nested nodes in place, each aggregated, never adds a child, and leaves at least one child when there was one |
| Aggregator.AggregateMeaning | eunlg/core/aggregator.py:29-112 | a message is returned unchanged; elaborations and lists raise NotImplementedError; a sequence keeps its relation and its nested nodes, aggregated, and has no more children than before |
| RealizeSlots.ToFloat | eunlg/core/realize_slots.py:88-91 | `float(value)` gives a real or NaN; a string that is not a number is the caught ValueError; None and sets raise TypeError, which is not caught |
| RealizeSlots.NumberMeaning | eunlg/core/realize_slots.py:85-106 | the number realizer declines exactly the strings that are not numbers; otherwise it returns the one slot with the same attributes and fact, its value an integer when the number is integral |
| RealizeSlots.TokenSlots | eunlg/core/realize_slots.py:157-173 | one slot per whitespace-separated token, in order, each a copy of the slot keeping its fact, its value that token |
| RealizeSlots.RegexMeaning | eunlg/core/realize_slots.py:133-176 | the regex realizer declines a non-string value, a failed match and failed group or slot requirements; on success its output is the tokens of the chosen template formatted with the groups; the only error, once the value is read, is numpy's ValueError for an empty template list |
| RealizeSlots.LookupMeaning | eunlg/core/realize_slots.py:195-221 | the lookup realizer succeeds exactly when the value is a string among the dictionary's keys, and then gives the tokens of its entry |
| RealizeSlots.RealizeSlotMeaning | eunlg/core/realize_slots.py:61-68 | the first realizer supporting the language that succeeds decides the output; when all decline, the slot stays and nothing counts as modified; only the number realizer's in-place result does not count as a modification |
| RealizeSlots.RealizeTemplate | eunlg/core/realize_slots.py:45-59 | the index walk replacing each slot by its realization in place computes RealizeComponents |
| RealizeSlots.Pass | eunlg/core/realize_slots.py:39-59 | one recursive pass computes PassPlan |
| RealizeSlots.PassChildren | eunlg/core/realize_slots.py:42 | the pass over a node's children computes PassFrom: children are visited up to the first one the pass modifies, and the rest are kept as they are |
| RealizeSlots.BaseLanguage | eunlg/core/realize_slots.py:35 | the language code up to its first "-": it has no "-" and is either the whole code or followed by "-" in it |
| RealizeSlots.Run | eunlg/core/realize_slots.py:21-37 | the run with the registered realizers plus the number realizer computes RunSpec |
| RealizeSlots.QuietSlot | eunlg/core/realize_slots.py:54-58 | an unmodified slot realization gives one slot, either the same or a number in its place with the same attributes and fact |
| RealizeSlots.SettledSlot | eunlg/core/realize_slots.py:61-106 | offering a settled slot to the realizers again modifies nothing |
| RealizeSlots.QuietComponents | eunlg/core/realize_slots.py:45-59 | after an unmodified template pass the components keep their number, the literals are untouched, each slot has only settled, and another pass modifies nothing |
| RealizeSlots.QuietPlan | eunlg/core/realize_slots.py:39-59 | after a pass that reports no modification another pass reports none |
| RealizeSlots.QuietFrom | eunlg/core/realize_slots.py:42 | the same for the remaining children of a node |
| RealizeSlots.PassesSettle | eunlg/core/realize_slots.py:35-36 | the plan the loop returns is a fixed point of its test: one more pass reports no modification |
| RealizeSlots.RunSettles | eunlg/core/realize_slots.py:33-37 | the plan a successful run returns is settled for the registered realizers plus the number realizer |
| RealizeSlots.PassShape | eunlg/core/realize_slots.py:39-59 | a pass keeps the plan's shape: a message stays the same message with new components, a node keeps its relation and number of children |
| RealizeSlots.PassFromLength | eunlg/core/realize_slots.py:42 | the pass over the children from position i yields one result per remaining child |
| TemplateSelector.CandidatesMeaning | eunlg/core/template_selector.py:198-203 | the candidates are exactly the templates whose `check` passes, in registry order; listing them raises exactly when some `check` raises |
| TemplateSelector.ExistsAgrees | eunlg/core/template_selector.py:184-196 | the existence test answers whether the candidate list is non-empty, and may succeed where draining the list raises because it stops early |
| TemplateSelector.ExistsFinds | eunlg/core/template_selector.py:184-196 | true names a passing template; false means every template was checked without raising and none passed |
| TemplateSelector.ProposedMeaning | eunlg/core/template_selector.py:102-104 | a filtered list holds exactly the templates whose slot test gives the wanted answer, in order |
| TemplateSelector.PreferMeaning | eunlg/core/template_selector.py:106-109 | a filter never empties the list and only leaves templates out; when some template has the preferred answer every one kept has it, otherwise the list is kept whole |
| TemplateSelector.BaseType | eunlg/core/template_selector.py:84-85 | a value type containing ":comp_" loses its last eight characters, any other is kept |
| TemplateSelector.ComparisonSimilar | eunlg/core/template_selector.py:79-87 | a comparison type `<t>:comp_<two characters>` is similar to the plain type t |
| TemplateSelector.FilterMeaning | eunlg/core/template_selector.py:89-141 | the three filters return a sub-list of the candidates, non-empty when they are, cannot raise on unresolved templates, and keep only templates with the preferred time-slot presence when one has it |
| TemplateSelector.LaterStages | eunlg/core/template_selector.py:111-135 | the location and value-type filters return a non-empty sub-list of a non-empty list |
| TemplateSelector.PreferUnresolved | eunlg/core/template_selector.py:102-104 | a filter cannot raise on templates with no resolved slot |
| TemplateSelector.CheckRestIgnoresComponents | eunlg/core/models.py:304-322 | checking the later rules does not look at the components |
| TemplateSelector.AddTemplateMeaning | eunlg/core/template_selector.py:143-165 | a candidate template is copied and filled with the facts `check` found, the fallback never happens, and the message keeps its id and main fact; the only failure is a slot index beyond the components (IndexError) |
| TemplateSelector.CheckRestLength | eunlg/core/models.py:304-322 | filling keeps the number of components |
| TemplateSelector.FillErrors | eunlg/core/models.py:329-339 | filling raises only where checking raises, or with IndexError from binding |
| TemplateSelector.FallbackRaises | eunlg/core/template_selector.py:156-165 | a template that uses no facts reaches the fallback, whose `message.facts = []` raises IndexError |
| TemplateSelector.SelectMessageMeaning | eunlg/core/template_selector.py:60-73 | a message that gets a template keeps its id and main fact and holds the facts the template uses, led by its main fact |
| TemplateSelector.SelectorSound | eunlg/core/template_selector.py:60-73 | the per-message step the selector uses keeps ids and main facts and gives each message a template |
| TemplateSelector.Recurse | eunlg/core/template_selector.py:46-77 | the loop over a node's children computes SelectFrom, carrying the context |
| TemplateSelector.RecurseChild | eunlg/core/template_selector.py:60-76 | one child: a message gets its template, a node is traversed in turn |
| TemplateSelector.SelectChildMeaning | eunlg/core/template_selector.py:46-77 | a successful traversal templates every message of the subtree and hands on its last message as the context |
| TemplateSelector.SelectFromMeaning | eunlg/core/template_selector.py:59-77 | the traversal of the children from position i templates each of them and returns the last message seen |
| TemplateSelector.LastListMessages | eunlg/core/template_selector.py:73-77 | handing the context along the subtrees ends at the last message of them all |
| TemplateSelector.RunMeaning | eunlg/core/template_selector.py:24-44 | an unknown language is a KeyError; a successful run templates every message of the plan and keeps the tree's shape |
| TemplateSelector.NoCandidateRaises | eunlg/core/template_selector.py:61-67 | a message no template passes stops the run |
| TemplateReader.CanonicalMapLookup | eunlg/core/template_reader.py:59-62 | a name is a key of the canonical map iff some entry is named by it or lists it, and it maps to the canonical name of the last such entry |
| TemplateReader.FactFieldMapCanonical | eunlg/core/template_reader.py:65-75 | the fact field map is the canonical map of the fact field aliases |
| TemplateReader.LocationTypeAliases | eunlg/core/template_reader.py:76-77 | "country", "district", "municipality" and "mun" map to C, D, M and M; "C" maps to itself; an unknown type has no entry |
| TemplateReader.ParseFloat | eunlg/core/template_reader.py:509-510 | a number that `float` accepts reads as a real or NaN; a sign in front negates the value (values read: `ParseFloatPoint`, `ParseFloatExponent`) |
| TemplateReader.ParseFloatPoint | eunlg/core/template_reader.py:509-510 | "ip.fp" reads as the value of ip plus fp over ten to the length of fp |
| TemplateReader.ParseFloatExponent | eunlg/core/template_reader.py:509-510 | "ipEn" reads as the value of ip times ten to the n |
| TemplateReader.DetectTypesExponent | eunlg/core/template_reader.py:505-514 | "1e5" is no int and becomes the float 100000 |
| TemplateReader.DetectTypes | eunlg/core/template_reader.py:500-514 | "True" and "False" and nothing else become booleans; a numeral becomes an int; a text that is neither int nor float stays the same string |
| TemplateReader.DetectTypesOfInt | eunlg/core/template_reader.py:500-514 | a decimal integer is read back as that integer |
| TemplateReader.CaseOfFirst | eunlg/core/template_reader.py:481-497 | a case name becomes the canonical name of the first entry naming it, and stays as given when none does |
| TemplateReader.ProcessAttributes | eunlg/core/template_reader.py:481-497 | the attributes keep their keys; "case" is canonicalised and every other attribute is kept |
| TemplateReader.AttributesLast | eunlg/core/template_reader.py:334-341 | the last `key = value` part names the attribute, stripped on both sides |
| TemplateReader.LineBreakIndex | eunlg/core/template_reader.py:133 | the first line break of a text, or -1 when there is none |
| TemplateReader.SplitLines | eunlg/core/template_reader.py:133 | no line of `splitlines` holds a line break |
| TemplateReader.SplitJoinLines | eunlg/core/template_reader.py:133 | `splitlines` undoes writing lines without breaks one per line |
| TemplateReader.SplitLinesStep | eunlg/core/template_reader.py:133 | a line without breaks followed by "\n" is split off as the first line |
| TemplateReader.BlankSplitMeaning | eunlg/core/template_reader.py:517-532 | every group is non-empty, and the groups together are the open group followed by the non-empty lines, in order |
| TemplateReader.BlankLineSplit | eunlg/core/template_reader.py:517-532 | the loop computes BlankSplit: non-empty groups holding exactly the non-empty lines in order |
| TemplateReader.GroupIndented | eunlg/core/template_reader.py:535-545 | grouping succeeds iff there is a line (`seq[0]` raises IndexError otherwise) |
| TemplateReader.GroupLinesCount | eunlg/core/template_reader.py:537-545 | one group per line that is not indented, plus the one the first line opens |
| TemplateReader.GroupIndentedCount | eunlg/core/template_reader.py:535-545 | the number of grouped lines is one plus the number of later lines that are not indented |
| TemplateReader.GroupLinesJoin | eunlg/core/template_reader.py:537-545 | joining the groups with one space gives all the stripped lines joined with one space |
| TemplateReader.GroupIndentedJoin | eunlg/core/template_reader.py:535-545 | grouping loses no text: the groups joined by spaces are the stripped lines joined by spaces |
| TemplateReader.GroupIndentedLines | eunlg/core/template_reader.py:535-545 | the loop over the lines after the first computes GroupIndented |
| TemplateReader.Suffixed | eunlg/core/template_reader.py:558-559 | one alternative per new part, each the old alternative followed by it |
| TemplateReader.AddToLength | eunlg/core/template_reader.py:558-559 | the product has as many alternatives as the old ones times the new parts |
| TemplateReader.AddToCounts | eunlg/core/template_reader.py:565-573 | a plain part keeps the number of alternatives and an optional part doubles it |
| TemplateReader.AddToEnds | eunlg/core/template_reader.py:558-559 | the first alternative of the product extends the first old one by the first new part, and the last the last by the last |
| TemplateReader.NextPiece | eunlg/core/template_reader.py:563-570 | the loop consumes the line: after an optional part the rest is shorter |
| TemplateReader.ExpandFromCount | eunlg/core/template_reader.py:561-573 | each optional part doubles the alternatives |
| TemplateReader.OptionalEnds | eunlg/core/template_reader.py:563-573 | one optional part: the first alternative gains the text before it and its contents, the last only the text before it |
| TemplateReader.ExpandFromFirst | eunlg/core/template_reader.py:561-573 | the first alternative keeps every optional part |
| TemplateReader.ExpandFromLast | eunlg/core/template_reader.py:561-573 | the last alternative drops every optional part |
| TemplateReader.CollapseSpace | eunlg/core/template_reader.py:579 | a run of whitespace becomes one space and the first character is kept or becomes a space |
| TemplateReader.CollapseSpaceSingle | eunlg/core/template_reader.py:579 | the collapsed text has no two spaces in a row and no other whitespace |
| TemplateReader.CollapseSpaceLast | eunlg/core/template_reader.py:579 | a text ending in a non-space character still does after collapsing |
| TemplateReader.NormalizeMeaning | eunlg/core/template_reader.py:575-579 | a stripped and collapsed alternative is normalised: single-spaced with no space at either end |
| TemplateReader.NormalizeAll | eunlg/core/template_reader.py:575-579 | each alternative is normalised in place, position by position |
| TemplateReader.ExpansionsCount | eunlg/core/template_reader.py:548-580 | a line with k optional parts has 2^k variants |
| TemplateReader.ExpansionsEnds | eunlg/core/template_reader.py:548-580 | the first variant keeps every optional part and the last drops them all |
| TemplateReader.ExpansionsNormalized | eunlg/core/template_reader.py:574-579 | every variant is stripped and single-spaced |
| TemplateReader.UnmatchedBracket | eunlg/core/template_reader.py:568-570 | an opening bracket with no closing one after it raises TemplateReadingError |
| TemplateReader.ExpandAlternatives | eunlg/core/template_reader.py:548-580 | the loop over the line computes Expansions |
| TemplateReader.FieldNameEnd | eunlg/core/template_reader.py:82 | the field name ends at the end of the text or at a space, a vertical bar or '=' |
| TemplateReader.ParseMatcherLhs | eunlg/core/template_reader.py:436-461 | a parsed left side is a fact field and the rest is shorter than the text; a rest starting with a vertical bar (a filter) is NotImplementedError |
| TemplateReader.FirstOperator | eunlg/core/template_reader.py:380 | the operator found is one the text starts with |
| TemplateReader.CompoundOperatorsShadowed | eunlg/core/template_reader.py:380 | ">=" and "<=" are never chosen: they are read as ">" and "<" followed by a value starting with "=" |
| TemplateReader.ValueEnd | eunlg/core/template_reader.py:83 | the value ends at the end of the text or at a comma |
| TemplateReader.ReferentialValue | eunlg/core/template_reader.py:95 | a referential value names one of the fields the pattern allows |
| TemplateReader.Unquote | eunlg/core/template_reader.py:429-432 | only a string value starting with a quote loses characters |
| TemplateReader.Grouped | eunlg/core/template_reader.py:433 | only a string naming a value group is replaced, by that group's set |
| TemplateReader.ConstraintPart | eunlg/core/template_reader.py:375-433 | one `lhs op value` part consumes text: the rest after it is shorter |
| TemplateReader.ConstraintsStep | eunlg/core/template_reader.py:374-433 | one round of the loop: the part's matchers, then those of the rest |
| TemplateReader.ParseMatcherExpr | eunlg/core/template_reader.py:372-433 | the loop consuming the constraint line computes ConstraintsFrom |
| TemplateReader.MatchersForWellFormed | eunlg/core/template_reader.py:394-433 | every matcher of a part has a known comparison, and a shorthand field expands to a value-type test and a value test |
| TemplateReader.ConstraintPartWellFormed | eunlg/core/template_reader.py:375-433 | every matcher one part yields is well formed |
| TemplateReader.ConstraintsWellFormed | eunlg/core/template_reader.py:372-433 | every matcher of a constraint line is well formed |
| TemplateReader.NotAFieldName | eunlg/core/template_reader.py:396 | a value ending in a digit or starting with a quote is no fact field name |
| TemplateReader.NoDotNotReferential | eunlg/core/template_reader.py:95 | a text without a dot is never a referential value |
| TemplateReader.IntValueRhs | eunlg/core/template_reader.py:425-427 | a number written in a constraint is read as that integer |
| TemplateReader.ReferentialValueRhs | eunlg/core/template_reader.py:416-421 | `N.field` refers to the N-th used fact counted from 1 (index N-1) |
| TemplateReader.NotANumber | eunlg/core/template_reader.py:505-514 | a text starting with something other than a sign, digit, point, "n" or "i" is neither an int nor a float (the "i" of "inf" is excluded: see Left out) |
| TemplateReader.DetectTypesQuoted | eunlg/core/template_reader.py:500-514 | a text in quotes is no number and no boolean and stays a string |
| TemplateReader.QuotedNoNumber | eunlg/core/template_reader.py:505-514 | a quoted text is neither an int nor a float |
| TemplateReader.QuotedNotReference | eunlg/core/template_reader.py:416-422 | a quoted text is neither a reference nor a field name |
| TemplateReader.UnquoteQuoted | eunlg/core/template_reader.py:429-432 | a quoted text loses exactly its two quotes |
| TemplateReader.QuotedValueRhs | eunlg/core/template_reader.py:425-432 | quotes around a plain string value are removed |
| TemplateReader.ParseSubstitution | eunlg/core/template_reader.py:276-363 | a parsed substitution is an unbound slot whose source is not replaced, and its rule number is below the number of rules |
| TemplateReader.SubstitutionValue | eunlg/core/template_reader.py:283-354 | the slot for a substitution's first part is unbound, its rule number within the rules |
| TemplateReader.Literals | eunlg/core/template_reader.py:269-272 | one literal per whitespace-separated word |
| TemplateReader.NoSlots | eunlg/core/template_reader.py:260-262 | one empty slot list per rule |
| TemplateReader.LiteralsGood | eunlg/core/template_reader.py:269-272 | adding the literals of a text keeps a parse well formed |
| TemplateReader.RecordGood | eunlg/core/template_reader.py:359-363 | recording a slot keeps its index in its rule's list, increasing and pointing at a Slot |
| TemplateReader.SlotsFromGood | eunlg/core/template_reader.py:265-363 | the loop over a line keeps the parse well formed |
| TemplateReader.TemplateLineGood | eunlg/core/template_reader.py:257-365 | every literal of a parsed template line is one word, and each rule's slot indices are increasing and point at Slot components |
| TemplateReader.ParseTemplateLine | eunlg/core/template_reader.py:257-365 | the loop over one expanded template line computes TemplateLine |
| TemplateReader.SingleValue | eunlg/core/template_reader.py:280 | a substitution with no comma is its stripped text with no attributes |
| TemplateReader.QuoteMissing | eunlg/core/template_reader.py:283-285 | a quoted value that does not end in the same quote raises TemplateReadingError |
| TemplateReader.QuotedSubstitution | eunlg/core/template_reader.py:283-287 | a quoted value is a literal slot that belongs to no rule |
| TemplateReader.QuotedValue | eunlg/core/template_reader.py:347-348 | a quoted value's literal source is the text between the quotes |
| TemplateReader.PlainReference | eunlg/core/template_reader.py:305-307 | a value without a dot belongs to the first rule |
| TemplateReader.NumberedReference | eunlg/core/template_reader.py:295-304 | `N.name` refers to rule N-1 for N >= 1 and raises for N = 0 |
| TemplateReader.ReferenceTo | eunlg/core/template_reader.py:295-299 | a reference's rule is its number minus one |
| TemplateReader.ZeroReference | eunlg/core/template_reader.py:299-304 | a value starting "0." refers to rule 0, which raises TemplateReadingError |
| TemplateReader.ReferenceError | eunlg/core/template_reader.py:295-304 | an error in the rule number is the substitution's error |
| TemplateReader.RuleZero | eunlg/core/template_reader.py:299-304 | a value `0.name` is a TemplateReadingError |
| TemplateReader.UnknownField | eunlg/core/template_reader.py:310-315 | a field name that is not a fact field raises TemplateReadingError |
| TemplateReader.FieldValue | eunlg/core/template_reader.py:309-363 | a value that refers to a fact field of an existing rule is a slot of that rule |
| TemplateReader.FieldSubstitution | eunlg/core/template_reader.py:289-363 | a value naming rule ref and a fact field is a slot of that rule, or raises when the template has no such rule |
| TemplateReader.PlainSubstitution | eunlg/core/template_reader.py:305-363 | a field without a number belongs to the first rule |
| TemplateReader.MissingBrace | eunlg/core/template_reader.py:274-278 | an opening brace with no closing brace after it raises TemplateReadingError |
| TemplateGroups.ConstraintLinesNonEmpty | eunlg/core/template_reader.py:209-211 | a block with a constraint line has at least one constraint line |
| TemplateGroups.LangSpec | eunlg/core/template_reader.py:98 | a language spec is a run without whitespace or colon, a colon, one whitespace character, and the template after it |
| TemplateGroups.LangSpecOf | eunlg/core/template_reader.py:98 | a language, a colon and a whitespace character start a language spec with that language and template |
| TemplateGroups.RulesFrom | eunlg/core/template_reader.py:215-230 | one rule per constraint line |
| TemplateGroups.RulesFromWellFormed | eunlg/core/template_reader.py:215-230 | every rule read from the constraint lines is well formed |
| TemplateGroups.AtLeastOneRule | eunlg/core/template_reader.py:232-235 | with no constraint lines the templates get one rule with no constraints; otherwise the rules are kept |
| TemplateGroups.WhatTypesMeaning | eunlg/core/template_reader.py:220-227 | a value type is seen exactly when some "value_type" constraint names it, alone or in its set |
| TemplateGroups.Zip | eunlg/core/template_reader.py:365 | each rule is paired with the slot list of the same position |
| TemplateGroups.ReadGroup | eunlg/core/template_reader.py:166-201 | a block that only sets the language or is in the old format gives two values and no templates |
| TemplateGroups.ReadTemplateGroup | eunlg/core/template_reader.py:166-369 | the loops over the constraint lines, template lines and expansions compute ReadGroup |
| TemplateGroups.ParseRules | eunlg/core/template_reader.py:215-230 | the loop over the constraint lines computes RulesFrom and collects exactly the value types they name |
| TemplateGroups.ParseTemplates | eunlg/core/template_reader.py:240-367 | the loop over a block's template lines computes TemplatesFrom |
| TemplateGroups.AddLineTemplates | eunlg/core/template_reader.py:256-367 | the loop over the expansions of one template line computes AddExpansions |
| TemplateGroups.RulesWhatTypesAppend | eunlg/core/template_reader.py:216-230 | the value types of one more rule are added to those seen before |
| TemplateGroups.TemplateOfGood | eunlg/core/template_reader.py:257-365 | a template built from one expansion has well-made slot indices |
| TemplateGroups.GoodParseTemplate | eunlg/core/template_reader.py:365 | pairing the rules with their slot lists gives a well-made template |
| TemplateGroups.AddExpansionsAppends | eunlg/core/template_reader.py:256-367 | each expansion of a template line adds exactly one template at the end of its language's list; nothing else changes |
| TemplateGroups.AddTemplateGet | eunlg/core/template_reader.py:367 | `setdefault(...).append` adds the template at the end of its language's list only |
| TemplateGroups.AddExpansionsGood | eunlg/core/template_reader.py:256-367 | every template the expansions add is well made |
| TemplateGroups.TemplatesFromGood | eunlg/core/template_reader.py:240-367 | every template of a block's template lines is well made |
| TemplateGroups.ReadGroupGood | eunlg/core/template_reader.py:166-369 | every template of a block is built on the same rules, one per constraint line and at least one, all well formed, and its slot indices point at slots |
| TemplateGroups.LanguageBlock | eunlg/core/template_reader.py:190-193 | a block that is only `lang:` sets the current language to lang and has no templates |
| TemplateGroups.LanguageOnlyGroup | eunlg/core/template_reader.py:190-193 | a block whose joined, stripped text ends at its first colon only names a language |
| TemplateGroups.GroupDefinitionOf | eunlg/core/template_reader.py:134-143 | a braced name, a colon and the values define that group |
| TemplateGroups.UnbracedGroupName | eunlg/core/template_reader.py:136-140 | a group name not written in braces raises TemplateReadingError |
| TemplateGroups.DefineGroupsStops | eunlg/core/template_reader.py:134-143 | an error keeps every definition read before it, and nothing after it is read |
| TemplateGroups.DefineGroupsLast | eunlg/core/template_reader.py:143 | a later definition of a group wins |
| TemplateGroups.Extend | eunlg/core/template_reader.py:157-158 | the merged table has the languages of both, each holding the earlier templates followed by the block's |
| TemplateGroups.LanguageBlockFails | eunlg/core/template_reader.py:149-155 | as written, a file with a block that only sets the language cannot be read: unpacking three values from two raises ValueError |
| TemplateGroups.LanguageBlockSwitches | eunlg/core/template_reader.py:149-193 | read as intended, a block that only sets the language makes it the language of the blocks after it and adds nothing |
| TemplateGroups.ReadBlocksAgree | eunlg/core/template_reader.py:149-158 | where every block reads with three values, the loop as written and the intended loop agree |
| TemplateGroups.RulesOf | eunlg/core/template_reader.py:365 | the constraints of each of a template's rules, in order |
| TemplateGroups.GoodTemplateWellMade | eunlg/core/template_reader.py:365 | a template built on well-formed rules with good slot indices is well made |
| TemplateGroups.ExtendGood | eunlg/core/template_reader.py:157-158 | adding a block's well-made templates keeps every template well made |
| TemplateGroups.ReadBlocksGood | eunlg/core/template_reader.py:149-158 | every template read from the blocks is well made |
| TemplateGroups.ReadAllGood | eunlg/core/template_reader.py:116-163 | every template of a file is well made |
| TemplateGroups.ValueGroups.constructor | eunlg/core/template_reader.py:85 | the module-level value groups start empty |
| TemplateGroups.ValueGroups.DefineAll | eunlg/core/template_reader.py:133-143 | the loop over the `$` lines computes DefineGroups on the stored groups |
| TemplateGroups.ValueGroups.ReadTemplates | eunlg/core/template_reader.py:116-163 | the stored groups gain the file's definitions, and the result is ReadAll: templates per language and, when asked, the value types seen; built on the corrected language-line reading (`ReadBlocks`), not the unpacking as written |
| TemplateGroups.ReadAllBlocks | eunlg/core/template_reader.py:149-158 | the loop over the blocks computes ReadBlocks, the corrected reading in which a language line switches the language (as written it raises ValueError: `LanguageBlockFails`) |
| Importance.OutlierScore | eunlg/eu_importance_allocator.py:82-85 | a falsy outlierness scores 1, NaN scores 0, a truthy number scores itself, and `isnan` raises TypeError exactly on a truthy string or set |
| Importance.YearFactor | eunlg/eu_importance_allocator.py:141 | the year factor raises ZeroDivisionError exactly for a fact dated next year |
| Importance.RankFactor | eunlg/eu_importance_allocator.py:155-156 | an integer rank r gives 0.7^(r-1); a value that is not a number raises TypeError; a NaN rank is an error (see Left out) |
| Importance.FactScore | eunlg/eu_importance_allocator.py:80-163 | an outlierness that cannot be scored raises; a value type tagged "_nac", a young age group or "_t_" scores 0 |
| Importance.ScoreSingle | eunlg/eu_importance_allocator.py:80-169 | the single score exists iff the fact's score does, and is then that score times the importance coefficient |
| Importance.FactScoreProduct | eunlg/eu_importance_allocator.py:94-163 | a counted fact's score is the product of the trend, unit, outlier, time, rank and reverse factors |
| Importance.AgeTagScoresNothing | eunlg/eu_importance_allocator.py:110-130 | a fact tagged with a young age group scores 0 whatever its other fields |
| Importance.YearFactorPast | eunlg/eu_importance_allocator.py:140-142 | for years up to now the factor is 1/(now+1-year)^2, at most 1, and 1 for the current year |
| Importance.YearFactorMonotone | eunlg/eu_importance_allocator.py:141 | a more recent year never scores less, up to the current year |
| Importance.YearlyTimeMonotone | eunlg/eu_importance_allocator.py:138-142 | the yearly time factor is defined and non-decreasing in the year, up to the current year |
| Importance.MonthFactorBetween | eunlg/eu_importance_allocator.py:143-150 | when the current year scores higher, a month's factor lies between last year's and this year's, reaching this year's at month 13 and last year's at month 0 |
| Importance.MonthFactorMonotone | eunlg/eu_importance_allocator.py:147-150 | a later month of the same year never scores less when this year scores higher than the last |
| Importance.Pow07Antitone | eunlg/eu_importance_allocator.py:156 | a higher power of 0.7 is strictly smaller |
| Importance.RankFactorOrder | eunlg/eu_importance_allocator.py:155-156 | rank 1 keeps the score and a worse rank scores strictly less |
| Importance.ScoreAll | eunlg/eu_importance_allocator.py:75-78 | scoring gives one message per message |
| Importance.ScoreAllMeaning | eunlg/eu_importance_allocator.py:75-78 | scoring succeeds iff every message scores, and then each message keeps everything but its score, which is its single score |
| Importance.ScoreAllError | eunlg/eu_importance_allocator.py:76-77 | the error of scoring is that of the first message that fails |
| Importance.ScoreImportance | eunlg/eu_importance_allocator.py:75-78 | the loop overwrites every score in place and returns the same list, and agrees with ScoreAll |
| Importance.KeyScoresMeaning | eunlg/eu_importance_allocator.py:37-39 | a (value type, timestamp) key reads the score of the last previous message with that key |
| Importance.KeyScoresAbsent | eunlg/eu_importance_allocator.py:37-39 | a key no previous message has reads 0 |
| Importance.Boosted | eunlg/eu_importance_allocator.py:49-52 | only the score changes; a key read as 0 leaves the message as it was, and a non-negative remembered score never lowers a non-negative score |
| Importance.BoostAll | eunlg/eu_importance_allocator.py:44-52 | each core message is boosted, position by position |
| Importance.RememberScores | eunlg/eu_importance_allocator.py:37-39 | the loop over the previous messages computes KeyScores |
| Importance.Boost | eunlg/eu_importance_allocator.py:44-53 | the cohesion loop boosts every core message in place |
| Importance.ScoresAt | eunlg/eu_importance_allocator.py:61 | a score is listed iff some message at one of the locations carries it, and the list is empty iff no message is at any of them |
| Importance.MaxOf | eunlg/eu_importance_allocator.py:63 | the maximum is one of the scores and no score exceeds it |
| Importance.DampedMessage | eunlg/eu_importance_allocator.py:66-68 | damping touches only the score; for a positive non-decreasing power the message at the highest score is unchanged and a non-negative score is never raised |
| Importance.DampMeaning | eunlg/eu_importance_allocator.py:55-68 | with a positive non-decreasing power the damping succeeds, changes only scores and only at previous locations, keeps the highest-scoring messages there as they were and raises no non-negative score |
| Importance.Damp | eunlg/eu_importance_allocator.py:57-68 | the redundancy loop succeeds iff DampAll does and leaves the array as its value; a zero denominator raises ZeroDivisionError and changes nothing |
| Importance.Run | eunlg/eu_importance_allocator.py:19-73 | the run succeeds iff both lists score and the damping's denominator is non-zero; the core list is scored and boosted, the expanded list scored and damped, and both are returned sorted by descending score |
| Ranking.SortDesc | eunlg/eu_importance_allocator.py:71-72 | `sorted(..., reverse=True)` is a permutation of its input |
| Ranking.SortDescSorted | eunlg/eu_importance_allocator.py:71-72 | the result is in descending order of key |
| Ranking.SortDescStable | eunlg/eu_importance_allocator.py:71-72 | the sort is stable: items of equal key keep their original order |
| Ranking.SortDescHead | eunlg/eu_importance_allocator.py:71-72 | the head of the sorted list is the first item of maximal key |
| Ranking.SortDescPrefix | eunlg/eu_importance_allocator.py:71-72 | the first n sorted items are at least as high as every item left out |
| Ranking.FirstMax | eunlg/eu_importance_allocator.py:63 | the first index of maximal key: no key above it, and every earlier key strictly below |
| Ranking.SortByScore | eunlg/eu_importance_allocator.py:71-72 | sorting messages by descending score is a permutation of them |
| DocumentPlanner.IdSet | eunlg/core/document_planner.py:93 | the ids of the messages, the object identity that `!=` and `in` compare on messages |
| DocumentPlanner.Keep | eunlg/core/document_planner.py:101-102 | the messages kept are exactly those not among the dropped ones, in order |
| DocumentPlanner.KeepNoDup | eunlg/core/document_planner.py:101-102 | filtering a list of distinct objects keeps them distinct |
| DocumentPlanner.PermNoDup | eunlg/core/document_planner.py:74-75 | a reordering of a list of distinct objects holds distinct objects |
| DocumentPlanner.ParagraphMessages | eunlg/core/document_planner.py:104 | a paragraph's messages are its nucleus followed by its satellites |
| DocumentPlanner.MessagesAppend | eunlg/core/document_planner.py:104 | appending a child to the root appends its messages |
| DocumentPlanner.CallSatellites | eunlg/core/document_planner.py:96-98 | the satellite call with three arguments raises TypeError on a strategy that takes two, and otherwise is the strategy's choice |
| DocumentPlanner.RunBody | eunlg/core/document_planner.py:60-104 | the `while True` loop on its own copies of the pools computes Body |
| DocumentPlanner.BodyFromShape | eunlg/core/document_planner.py:78-104 | the plan is a SEQUENCE root of one to bound paragraphs, and the second result is the input `core + expanded` |
| DocumentPlanner.BodyFromPrefix | eunlg/core/document_planner.py:104 | the paragraphs built so far stay at the front of the plan |
| DocumentPlanner.BodyShape | eunlg/core/document_planner.py:60-104 | the body planner builds a SEQUENCE root of one to bound paragraphs, each a SEQUENCE led by its nucleus, and hands back `core + expanded` unchanged |
| DocumentPlanner.BodyWithoutNucleus | eunlg/core/document_planner.py:85-88 | the loop raises when it stops before accepting any nucleus |
| DocumentPlanner.BodyFromStep | eunlg/core/document_planner.py:90-104 | an accepted round appends the nucleus and drops it and its satellites from the pools |
| DocumentPlanner.BodyFromStopped | eunlg/core/document_planner.py:80-88 | a round that stops returns the plan so far, or raises without nuclei |
| DocumentPlanner.BodyFirstParagraph | eunlg/core/document_planner.py:79-104 | the first paragraph of a successful run is the first nucleus followed by the satellites chosen for it from the pools without it |
| DocumentPlanner.BodyRuns | eunlg/core/document_planner.py:78-88 | with a selector and satellites that never raise, the body planner fails exactly when its first pick already stops the loop, and then with "no nuclei" |
| DocumentPlanner.PlacementStep | eunlg/core/document_planner.py:93-102 | one round keeps the placement invariant: the plan's messages and the pools are disjoint and together within the input |
| DocumentPlanner.NoDupSplit | eunlg/core/document_planner.py:74-75 | distinct objects in `a + b` are distinct within each and shared by neither |
| DocumentPlanner.RoundPlacement | eunlg/core/document_planner.py:90-104 | an accepted round keeps the placement invariant, with the new paragraph's messages placed |
| DocumentPlanner.RoundMessages | eunlg/core/document_planner.py:104 | after a paragraph is appended the plan's messages are the old ones, the nucleus and the satellites |
| DocumentPlanner.BodyFromAtMostOnce | eunlg/core/document_planner.py:92-102 | from any round on, no message is placed twice and every placed message comes from the input |
| DocumentPlanner.BodyAtMostOnce | eunlg/core/document_planner.py:92-102 | when the strategy picks only from the pools it is offered and the input holds distinct objects, the plan's messages are distinct objects of `core + expanded` |
| DocumentPlanner.Headline | eunlg/core/document_planner.py:32-47 | the headline plan exists iff the selector picks a message, and is a SEQUENCE root holding one SEQUENCE node with that message, with the pools handed on; no pick is reported as the later AttributeError (see Left out) |
| DocumentPlanner.HeadlineFromCore | eunlg/core/document_planner.py:44-47 | the headline's only message is the selector's pick from the core pool, and the pools handed on are the input's as a multiset |
| FullPlanner.TopicPrefix | eunlg/eu_document_planner.py:45-46 | a topic is a prefix of the value type, the whole value type when it has at most three segments |
| FullPlanner.SameTopicSharesFirst | eunlg/eu_document_planner.py:230-235 | two messages of one topic share the first segment of their value types |
| FullPlanner.FreshTopics | eunlg/eu_document_planner.py:59-66 | the messages kept are exactly the pool's messages whose (topic, location) no earlier nucleus has, and all of the pool when there is no nucleus yet |
| FullPlanner.NucleusChoice | eunlg/eu_document_planner.py:49-105 | no nucleus at three nuclei, from an empty pool, or with every topic covered after two or more nuclei; otherwise the first message of highest score among the unseen topics (the whole pool when none is unseen), with its score; the only change to the pool is the in-place sort of the aliased list after one nucleus |
| FullPlanner.NucleusNewTopic | eunlg/eu_document_planner.py:62-68 | while an unseen topic remains, the nucleus repeats no earlier nucleus's (topic, location) |
| FullPlanner.RelativeThreshold | eunlg/eu_document_planner.py:108-118 | minus infinity before the first nucleus, 0 after one, 0.3 times the first nucleus's score after two or more |
| FullPlanner.SharedRank | eunlg/eu_document_planner.py:244-255 | the rank of a value type is the round in which its longest shared prefix with the reference is tried; no longer prefix matches it |
| FullPlanner.SharedRankFound | eunlg/eu_document_planner.py:244-255 | a value type sharing the reference's first segment is placed in some round |
| FullPlanner.AnalysisMeaning | eunlg/eu_document_planner.py:223-258 | the weighting keeps every candidate; off-topic ones get weight 0, on-topic ones their weight divided by one plus the rank of the longest shared prefix, 0 when no prefix is shared |
| FullPlanner.RoundsPlace | eunlg/eu_document_planner.py:245-254 | each candidate that shares a prefix reappears in the round of its rank with its weight divided by rank + 1 |
| FullPlanner.WeighByContext | eunlg/eu_document_planner.py:261-279 | the same candidates in the same order, each weight multiplied by the context factor |
| FullPlanner.ContextWeightCases | eunlg/eu_document_planner.py:267-276 | the context factor is 0 when neither location nor timestamp match, 2 for the location only, 1.5 for the timestamp only and 3 for both |
| FullPlanner.Lookup | eunlg/eu_document_planner.py:157-164 | the dict look-up misses iff no pair holds the message, and otherwise yields the weight of a pair holding it |
| FullPlanner.AverageMeaning | eunlg/eu_document_planner.py:161-166 | the averaging raises KeyError iff some message has no weight against the nucleus; otherwise each pair keeps its message and gets the mean of its two weights |
| FullPlanner.RescoreMeaning | eunlg/eu_document_planner.py:142-166 | the re-scoring of one round never raises, and its candidates are a permutation of the pool messages of positive score |
| FullPlanner.Passing | eunlg/eu_document_planner.py:169-173 | the candidates kept are exactly those above half the nucleus's score or above 0.2 |
| FullPlanner.Greedy | eunlg/eu_document_planner.py:121-220 | the `while True` loop on its own copies of the pools computes GreedyFrom |
| FullPlanner.ChoiceIsFirstMax | eunlg/eu_document_planner.py:178-197 | a round's choice is the first candidate of highest weight among those passing the thresholds, or among all when none pass and fewer than two satellites are chosen |
| FullPlanner.GreedyStep | eunlg/eu_document_planner.py:198-218 | a chosen satellite is removed from the pool it came from, keeping the selection invariant |
| FullPlanner.GreedySound | eunlg/eu_document_planner.py:139-220 | the loop returns at most five satellites, pairwise distinct, each from one of the pools and with a positive score |
| FullPlanner.GreedyFromTotal | eunlg/eu_document_planner.py:139-220 | with a re-scoring that never raises, neither does the loop |
| FullPlanner.SatellitesMeaning | eunlg/eu_document_planner.py:121-220 | the satellite strategy never raises and returns at most five distinct satellites of positive score from the pools |
| FullPlanner.FullStrategySound | eunlg/eu_document_planner.py:20-35 | the body strategy stops at three nuclei, takes each nucleus from the pool and each satellite from the pools |
| FullPlanner.FullBody | eunlg/eu_document_planner.py:20-35 | the EU body planner builds one to three paragraphs led by their nuclei and places every message at most once |
| FullPlanner.FullHeadline | eunlg/eu_document_planner.py:38-42 | the EU headline is the first core message of highest score; with an empty core the planner reports the AttributeError a later stage raises (see Left out) |
| ContextSimPlanner.TopNucleus | eunlg/eu_context_sim_document_planner.py:47-61 | the sort works on a copy, so the pool comes back unchanged |
| ContextSimPlanner.TopNucleusMeaning | eunlg/eu_context_sim_document_planner.py:54-61 | no nucleus at three nuclei or from an empty pool; otherwise the first message of highest score, returned with its score |
| ContextSimPlanner.TopNucleusSound | eunlg/eu_context_sim_document_planner.py:47-61 | the nucleus strategy stops at three nuclei and picks only from the pool |
| ContextSimPlanner.RelativeThreshold | eunlg/eu_context_sim_document_planner.py:64-74 | minus infinity before the first nucleus, a tenth of the first nucleus's score after one, three tenths after two or more |
| ContextSimPlanner.SecondParagraphLoosest | eunlg/eu_context_sim_document_planner.py:69-74 | a score too low to open the second paragraph is too low to open any later one |
| ContextSimPlanner.AnalysisAsWrittenDrops | eunlg/eu_context_sim_document_planner.py:138-151 | as written, only candidates whose value type starts with the reference's first segment come out of the weighting |
| ContextSimPlanner.DroppedCandidate | eunlg/eu_context_sim_document_planner.py:148-151 | for a reference "a:b" and one candidate "c" the weighting as written returns nothing, the corrected one returns the candidate with weight 0 |
| ContextSimPlanner.AnalysisMeaning | eunlg/eu_context_sim_document_planner.py:127-152 | the corrected weighting keeps every candidate exactly once, each with its weight divided by one plus the rank of its longest shared prefix, or 0 when it shares none |
| ContextSimPlanner.WeighByContext | eunlg/eu_context_sim_document_planner.py:155-168 | the same candidates in the same order, each weight multiplied by the context factor |
| ContextSimPlanner.ContextWeightCases | eunlg/eu_context_sim_document_planner.py:160-166 | the context factor is 1.65 for the same location and timestamp, 1.5 for the location only, 1.1 for the timestamp only, 1 otherwise, so it never lowers a non-negative weight |
| ContextSimPlanner.RescoreMeaning | eunlg/eu_context_sim_document_planner.py:86-89 | for the corrected weighting (`WeighByAnalysis`), a round's re-scoring keeps exactly the pool's positive-score messages, each once, with its combined weight; as written candidates sharing no prefix are dropped (`AnalysisAsWrittenDrops`) |
| ContextSimPlanner.SatellitesMeaning | eunlg/eu_context_sim_document_planner.py:77-124 | the satellite loop never raises and returns at most five distinct satellites of positive score from the pool |
| ContextSimPlanner.SelectSatellites | eunlg/eu_context_sim_document_planner.py:77-124 | the `while True` loop computes the satellite strategy |
| ContextSimPlanner.ContextSimBody | eunlg/eu_context_sim_document_planner.py:20-35 | the body planner always raises: with no nucleus or one under 0.5 it finds no nuclei, and otherwise the base planner's three-argument satellite call fails on this two-argument strategy |
| ContextSimPlanner.ContextSimHeadline | eunlg/eu_context_sim_document_planner.py:36-41 | the headline is the first core message of highest score; with an empty core the planner reports the AttributeError a later stage raises (see Left out) |
| EarlyStopPlanner.TakeTop | eunlg/eu_early_stop_document_planner.py:32-39 | the pop loop over a sorted copy computes the top-five function |
| EarlyStopPlanner.TopMeaning | eunlg/eu_early_stop_document_planner.py:32-39 | five messages, or all when there are fewer, taken from the pool at most as often as each occurs there, none scoring below a message left out, in descending order of score |
| EarlyStopPlanner.PrefixBeatsRest | eunlg/eu_early_stop_document_planner.py:35-38 | in a descending list every message of a prefix scores at least as much as every message after it |
| EarlyStopPlanner.GreedySatellitesMeaning | eunlg/eu_early_stop_document_planner.py:79-120 | the module-level satellite loop never raises and returns at most five distinct positive-score messages of the pool |
| EarlyStopPlanner.EarlyStopBody | eunlg/eu_early_stop_document_planner.py:20-39 | the body planner always raises: with no nucleus or one under 0.5 it finds no nuclei, and otherwise the base planner's three-argument satellite call fails on this two-argument method |
| EarlyStopPlanner.EarlyStopHeadline | eunlg/eu_early_stop_document_planner.py:42-63 | the headline is the first core message of highest score; with an empty core the planner reports the AttributeError a later stage raises (see Left out) |
| ScorePlanner.Unbounded | eunlg/eu_newsworthiness_only_document_planner.py:29-30 | no score is below the relative threshold, whatever the nuclei |
| ScorePlanner.SelectSatellites | eunlg/eu_newsworthiness_only_document_planner.py:32-41 | the pop loop over the sorted joined pools computes the satellite function |
| ScorePlanner.SatellitesMeaning | eunlg/eu_newsworthiness_only_document_planner.py:32-41 | the five best messages of both pools, or all of them when fewer, in descending order of score; distinct inputs give distinct satellites |
| ScorePlanner.ScoreStrategySound | eunlg/eu_newsworthiness_only_document_planner.py:20-65 | the strategy stops at three nuclei, never raises, and takes nuclei and satellites from the pools it is offered |
| ScorePlanner.ScoreBody | eunlg/eu_newsworthiness_only_document_planner.py:20-41 | the body planner succeeds iff the best core message scores at least 0.5; then it builds one to three paragraphs, the first led by that message with the top five of the rest, each message placed at most once |
| ScorePlanner.ScoreHeadline | eunlg/eu_newsworthiness_only_document_planner.py:44-65 | the headline is the first core message of highest score; with an empty core the planner reports the AttributeError a later stage raises (see Left out) |
| RandomPlanner.RandomNucleus | eunlg/eu_random_document_planner.py:51-58 | no nucleus once three exist; otherwise a message of the pool with its score, and IndexError for an empty pool |
| RandomPlanner.RemoveAt | eunlg/eu_random_document_planner.py:40 | popping one message removes exactly that one occurrence |
| RandomPlanner.DrawSatellites | eunlg/eu_random_document_planner.py:33-41 | the shuffle-and-pop loop computes the draw function |
| RandomPlanner.DrawsMeaning | eunlg/eu_random_document_planner.py:38-40 | the loop adds min(5 - taken, pool size) messages, each at most as often as it occurs in the pool, and the whole pool when it fits |
| RandomPlanner.RandomSatellitesMeaning | eunlg/eu_random_document_planner.py:33-41 | the satellite strategy never raises and returns five messages of the pools, or all of them when they hold at most five |
| RandomPlanner.SubMultisetNoDup | eunlg/eu_random_document_planner.py:38-40 | drawing from a list of distinct objects gives distinct objects |
| RandomPlanner.RandomStrategySound | eunlg/eu_random_document_planner.py:21-58 | the strategy stops at three nuclei and takes nuclei and satellites from the pools it is offered |
| RandomPlanner.RandomBody | eunlg/eu_random_document_planner.py:21-41 | an empty core raises IndexError, a first nucleus below 0 finds no nuclei, and a successful plan is one to three paragraphs, the first led by the chosen message with its drawn satellites, each message placed at most once |
| RandomPlanner.RandomBodyRunsOut | eunlg/eu_random_document_planner.py:55-57 | when the first paragraph takes every remaining message, the next `random.choice` meets an empty pool and the body planner raises IndexError |
| RandomPlanner.TakesAll | eunlg/eu_random_document_planner.py:37-40 | the first paragraph's draws empty the core pool when the input holds at most six messages |
| RandomPlanner.AllDrawn | eunlg/eu_random_document_planner.py:38-40 | a pool of at most five messages is drawn entirely |
| RandomPlanner.RandomHeadline | eunlg/eu_random_document_planner.py:44-58 | the headline is the core message `random.choice` picks, and an empty core raises IndexError |
| DateRealizer.DigitsThen | eunlg/eu_date_realizer.py:117 | the end of a non-empty run of digits from the given position, followed by the given character |
| DateRealizer.MatchTags | eunlg/eu_date_realizer.py:115-142 | the patterns recognise a year tag with its year, and a month tag "yyyyMmm" with its year and month |
| DateRealizer.YearIsNoMonth | eunlg/eu_date_realizer.py:126-129 | a string that starts with a year tag never matches the month pattern |
| DateRealizer.MonthNeverShortened | eunlg/eu_date_realizer.py:115-134 | as written, a month tag is never written without its year: after no tag or any other tag but a year tag it gets the month-year expression, the same tag again its reference options, and after a year tag it raises |
| DateRealizer.MonthMeaning | eunlg/eu_date_realizer.py:115-134 | read as intended, a month tag after a tag of the same year gets the month expression, the same tag again its reference options, and otherwise the month-year expression |
| DateRealizer.PreviousYearOfTags | eunlg/eu_date_realizer.py:125-129 | the intended previous year is read from both month tags and year tags |
| DateRealizer.YearMeaning | eunlg/eu_date_realizer.py:136-142 | a year tag repeating the previous tag gets the year reference options, otherwise the year expression with its year |
| DateRealizer.Choose | eunlg/eu_date_realizer.py:79-80 | a single text is taken as it is; a list of options yields one of them and raises ValueError when empty |
| DateRealizer.DateTokens | eunlg/eu_date_realizer.py:82-100 | one slot per word of the expression, each keeping the fact, resolved to its word, and keeping the attributes unless the attachment map excludes its position |
| DateRealizer.FinnishFirstWordOnly | eunlg/eu_date_realizer.py:166-170 | with the Finnish attachment map only the first word keeps the attributes |
| DateRealizer.NoTagsUnchanged | eunlg/eu_date_realizer.py:57-67 | components without TIME tags stay as they are and leave the previous tag alone |
| DateRealizer.OtherTypeSpins | eunlg/eu_date_realizer.py:74-77 | a TIME tag of a type other than month or year makes the loop spin, since its index is never advanced |
| DateRealizer.DateTemplate | eunlg/eu_date_realizer.py:54-113 | the index loop, which splices each tag's slots in place and skips past them, computes the component walk |
| DateRealizer.Run | eunlg/eu_date_realizer.py:23-40 | the component realises the document plan by the tree walk, starting with no previous tag, using the corrected month reading (`RealizeMonth`), not the code as written |
| DateRealizer.Recurse | eunlg/eu_date_realizer.py:42-113 | the recursive method computes the tree walk and returns the last tag realised |
| DateRealizer.RecurseChildren | eunlg/eu_date_realizer.py:54-113 | the loop over a node's children computes the walk from a child on |
| DateRealizer.DateMessagesConcat | eunlg/eu_date_realizer.py:105-108 | walking two lists of messages is walking the first and then the second, from the tag the first ends with |
| DateRealizer.DocumentOrder | eunlg/eu_date_realizer.py:42-113 | the tree walk realises the messages in document order: it fails iff the walk over the plan's messages fails, with the same error, and otherwise gives the same messages and final tag |
| NamedEntities.MatchEntity | eunlg/eu_named_entity_resolver.py:17 | a full match yields a well-formed type and id from which the string is rebuilt exactly |
| NamedEntities.MatchEntityTag | eunlg/eu_named_entity_resolver.py:17 | every well-formed tag is matched with its own type and id |
| NamedEntities.IsEntityMeaning | eunlg/eu_named_entity_resolver.py:49-53 | a value is an entity iff it is a string that is a well-formed entity tag |
| NamedEntities.ParseEntity | eunlg/eu_named_entity_resolver.py:55-61 | parsing succeeds iff the string is an entity, yields the type and id that rebuild it, and raises ValueError otherwise |
| NamedEntities.Resolve | eunlg/eu_named_entity_resolver.py:84-97 | a list resolver yields one of its variants and raises numpy's ValueError on an empty list; a dictionary resolver yields the table entry, or "UNKNOWN-ENTITY:" and the id when the table lacks it |
| NamedEntities.Lookup | eunlg/eu_named_entity_resolver.py:66 | the chained look-up finds a resolver iff the language, the entity type and the slot's name type are all present |
| NamedEntities.ResolveSurfaceForm | eunlg/eu_named_entity_resolver.py:63-75 | the slot keeps its attributes and fact; only its value may change |
| NamedEntities.SurfaceFormMeaning | eunlg/eu_named_entity_resolver.py:63-75 | with no resolver the slot is left as it is; otherwise its value is the resolver's name for the entity |
| NamedEntities.EnglishTable | eunlg/eu_named_entity_resolver.py:18-25 | in English the pronoun of a country is "the country", and the full and short names come from the English table |
| NamedEntities.FinnishTable | eunlg/eu_named_entity_resolver.py:40-46 | in Finnish every name type of a country comes from the Finnish table |
| EntityNameResolver.EntityOf | eunlg/core/entity_name_resolver.py:59-65 | a component carries an entity exactly when it is a slot whose value is an entity tag with that type and id |
| EntityNameResolver.SlotRule | eunlg/core/entity_name_resolver.py:59-87 | an entity slot gets "pronoun" iff it repeats the previous entity of its type, "short" iff it was met before otherwise, "full" on a first meeting; it records its type, and afterwards the entity is met and is the previous one of its type |
| EntityNameResolver.NonEntityIdle | eunlg/core/entity_name_resolver.py:60-62 | unfolding of ResolveSlot's first case: a slot whose value is no entity tag is left as it is, state too (the resolver's properties are stated by SlotRule and ComponentsState) |
| EntityNameResolver.NameTypeFull | eunlg/core/entity_name_resolver.py:67-78 | unfolding of NameType's three branches: "full" is chosen exactly for an entity neither met nor previous of its type (the document-level property is FirstMentionFull) |
| EntityNameResolver.VisitMeets | eunlg/core/entity_name_resolver.py:88-94 | a literal child stays; an entity slot's entity joins those met |
| EntityNameResolver.ComponentsState | eunlg/core/entity_name_resolver.py:88-94 | a message's components keep their number and literals, and afterwards exactly the entities among them have been added to those met |
| EntityNameResolver.VisitState | eunlg/core/entity_name_resolver.py:59-87 | one child keeps the state coherent, adds its entity to those met, and is named "full" exactly when not met before |
| EntityNameResolver.FirstMentionFull | eunlg/core/entity_name_resolver.py:67-78 | within a message an entity slot gets "full" iff its entity was met neither before the message nor earlier in it |
| EntityNameResolver.ResolveTemplate | eunlg/core/entity_name_resolver.py:88-94 | the loop over a message's components, one slot at a time, computes the component walk |
| EntityNameResolver.Recurse | eunlg/core/entity_name_resolver.py:46-95 | the recursive method computes the tree walk and threads the state |
| EntityNameResolver.RecurseChildren | eunlg/core/entity_name_resolver.py:90-94 | the loop over a node's children computes the walk from a child on |
| EntityNameResolver.Run | eunlg/core/entity_name_resolver.py:26-44 | the component strips "-head" from the language and walks the plan from an empty state |
| EntityNameResolver.DocumentOrder | eunlg/core/entity_name_resolver.py:46-95 | the tree walk resolves the components of the messages in document order: the same as the walk over their concatenation |
| EntityNameResolver.DocumentFirstMention | eunlg/core/entity_name_resolver.py:21-24 | over a whole document, an entity component gets the full name iff no earlier entity component names the same entity |
| NumberRealizer.Cardinal | eunlg/eu_number_realizer.py:77-82 | the table entry for the printed value, or the printed value itself when the table lacks it |
| NumberRealizer.EnglishSuffix | eunlg/eu_number_realizer.py:155-165 | the suffix raises exactly for an empty printed value other than 11, 12 and 13; otherwise "th" for those three and by the last character |
| NumberRealizer.LastDigit | eunlg/eu_number_realizer.py:158-163 | the last character of a printed integer is its last decimal digit |
| NumberRealizer.EnglishOfInt | eunlg/eu_number_realizer.py:155-171 | an English ordinal of an integer other than 1 is its digits and the suffix: "th" for 11 to 13, else "st", "nd", "rd" or "th" by the last digit |
| NumberRealizer.EnglishOfString | eunlg/eu_number_realizer.py:140-171 | a string value from the table reads as its ordinal word, and "1" reads as nothing |
| NumberRealizer.EnglishStringThirteen | eunlg/eu_number_realizer.py:155-171 | the string "13" is not a number to the 11-to-13 test and reads "13rd", while the integer 13 reads "13th" |
| NumberRealizer.OtherOrdinals | eunlg/eu_number_realizer.py:103-118 | Finnish uses its small ordinals for the strings "1" to "10", the value and a full stop for any other hashable value, and raises TypeError for a set, which `dict.get` cannot hash; Croatian always the value and a full stop |
| NumberRealizer.EnglishOfSet | eunlg/eu_number_realizer.py:155-171 | for a set value the suffix is computed first, so an empty printed form raises IndexError, and otherwise the table lookup raises TypeError because a set cannot be hashed |
| NumberRealizer.TableGet | eunlg/eu_number_realizer.py:118 | `SMALL_ORDINALS.get(value, default)`: the entry for a string key in the table, the default for any other hashable value, and TypeError exactly for a set |
| NumberRealizer.NumberSlot | eunlg/eu_number_realizer.py:55-63 | a slot without the "ord" attribute, or in a language without an ordinal realizer, stays; otherwise only its value may change |
| NumberRealizer.NumberSlotMeaning | eunlg/eu_number_realizer.py:57-63 | an ordinal slot with a realizer gets as its value what the realizer makes of its old value |
| NumberRealizer.NumberComponents | eunlg/eu_number_realizer.py:65-68 | the components keep their number, each processed on its own; a failure comes from some component |
| NumberRealizer.NoOrdinalsIdle | eunlg/eu_number_realizer.py:54-68 | without an ordinal realizer for the language the plan comes back unchanged |
| NumberRealizer.GermanHasNoOrdinals | eunlg/eu_number_realizer.py:20-26 | German has no ordinal realizer and no language outside fi, en, hr and de has any |
| NumberRealizer.RealizeComponents | eunlg/eu_number_realizer.py:65-68 | the loop over a message's components computes the component function |
| NumberRealizer.NumberComponentsFails | eunlg/eu_number_realizer.py:65-68 | the first failing component decides the error |
| NumberRealizer.Recurse | eunlg/eu_number_realizer.py:47-68 | the recursive method computes the plan walk |
| NumberRealizer.Run | eunlg/eu_number_realizer.py:28-45 | the component strips "-head" and walks the plan with that language's realizers |
| CroatianMorphology.Locative | eunlg/croatian_simple_morpological_realizer.py:23-33 | the locative raises IndexError exactly for the empty string and a lone vowel |
| CroatianMorphology.LocativeRules | eunlg/croatian_simple_morpological_realizer.py:25-31 | a final vowel after "j" becomes "i", any other final vowel "oj", and a final consonant takes "u" |
| CroatianMorphology.LocativeExamples | eunlg/croatian_simple_morpological_realizer.py:23-33 | "Hrvatska", "Srbija" and "Cipar" become "Hrvatskoj", "Srbiji" and "Ciparu" |
| CroatianMorphology.Realize | eunlg/croatian_simple_morpological_realizer.py:16-36 | a slot without the case "loc" keeps its value; with it a string value is put in the locative and any other value raises TypeError |
| SloveneMorphology.Get | eunlg/slovene_simple_morpological_realizer.py:12-55 | a dictionary literal's look-up finds a key iff some item has it, and yields that item's value |
| SloveneMorphology.GetItem | eunlg/slovene_simple_morpological_realizer.py:12-55 | with distinct keys every item is what the look-up finds for its key |
| SloveneMorphology.Swap | eunlg/slovene_simple_morpological_realizer.py:58 | the items with key and value exchanged, in order |
| SloveneMorphology.Reverse | eunlg/slovene_simple_morpological_realizer.py:58 | the reversed table finds a form iff some name maps to it |
| SloveneMorphology.ReverseRightInverse | eunlg/slovene_simple_morpological_realizer.py:130-134 | the name the reversed table gives back maps to the form looked up |
| SloveneMorphology.ReverseLeftInverse | eunlg/slovene_simple_morpological_realizer.py:130-134 | with distinct forms too, the reversed table undoes the locative table exactly |
| SloveneMorphology.Form | eunlg/slovene_simple_morpological_realizer.py:137-144 | the verb form is one of the four; "Združene države" takes "imeli", neuter "imelo", masculine "imel", anything else "imela" |
| SloveneMorphology.Noun | eunlg/slovene_simple_morpological_realizer.py:130-134 | a left component yields a name only when, with its locative undone, it has a gender |
| SloveneMorphology.AgreementMeaning | eunlg/slovene_simple_morpological_realizer.py:128-146 | the nearest gendered name to the left decides the verb form; without one the value is kept; a failing component on the way raises |
| SloveneMorphology.RealizeRules | eunlg/slovene_simple_morpological_realizer.py:111-151 | a slot with neither attribute keeps its value; "loct" gives the locative from the table, or the value when the table lacks it; "imela" after "previous_word" agrees with the nearest gendered name; anything else keeps its value |
| SloveneMorphology.UnitedStatesAgreement | eunlg/slovene_simple_morpological_realizer.py:120-146 | once "Združene države" has been put in its locative, the "imela" after it becomes "imeli" |
| SloveneMorphology.UnitedStatesLocative | eunlg/slovene_simple_morpological_realizer.py:12-55 | the table's locative of "Združene države" is "v Združenih državah" |
| SloveneMorphology.UnitedStatesReverse | eunlg/slovene_simple_morpological_realizer.py:58 | the reversed table maps "v Združenih državah" back to "Združene države" |
| SloveneMorphology.UnitedStatesGender | eunlg/slovene_simple_morpological_realizer.py:61-104 | the gender table gives "Združene države" the gender "m" |
| MorphologicalRealizer.RealizeAsWritten | eunlg/core/morphological_realizer.py:59 | as written the stage calls `realize` with the slot alone, which raises TypeError for a realizer that also wants the two contexts |
| MorphologicalRealizer.ContextCallRepairs | eunlg/core/morphological_realizer.py:57-60 | the call with contexts agrees with the call as written for the realizers that take the slot alone, and is the realizer's own result for the others |
| MorphologicalRealizer.RussianAsWrittenRaises | eunlg/core/morphological_realizer.py:59 | the Russian realizer of the service raises TypeError as written, on any slot |
| MorphologicalRealizer.MorphComponent | eunlg/core/morphological_realizer.py:57-60 | a literal stays; a slot keeps its attributes and fact and takes the value realised with its left and right contexts (the corrected call), failing iff the realizer fails |
| MorphologicalRealizer.MorphComponentsMeaning | eunlg/core/morphological_realizer.py:57-60 | every component is realised against the realised components before it and the original ones after it; literals come through unchanged |
| MorphologicalRealizer.MorphFromFails | eunlg/core/morphological_realizer.py:57-60 | the first component that fails decides the error; none before it fails |
| MorphologicalRealizer.RealizeComponents | eunlg/core/morphological_realizer.py:57-60 | the loop that overwrites each slot as it is reached computes the component function |
| MorphologicalRealizer.MorphPlanShape | eunlg/core/morphological_realizer.py:50-55 | the walk keeps the plan's shape |
| MorphologicalRealizer.RealizeMessage | eunlg/core/morphological_realizer.py:57-60 | a message is realised by the loop over its template's components |
| MorphologicalRealizer.Recurse | eunlg/core/morphological_realizer.py:50-60 | the recursive method computes the plan walk |
| MorphologicalRealizer.MorphDocument | eunlg/core/morphological_realizer.py:27-48 | a language without a realizer, "-head" removed, leaves the plan as it is; otherwise a successful walk, with the corrected context call, keeps the plan's shape |
| MorphologicalRealizer.Run | eunlg/core/morphological_realizer.py:27-48 | the component computes the document function, which uses the corrected context call rather than `realize(slot)` as written |
| MorphologicalRealizer.SloveneTemplate | eunlg/core/morphological_realizer.py:57-60 | realised in context, the Slovene locative applied to a country is undone again when the verb after it looks for its gender |
| SurfaceRealizer.Visible | eunlg/core/surface_realizer.py:61-65 | the non-whitespace characters of a text, in order (the measure the clean-ups preserve) |
| SurfaceRealizer.DropAfterOpenNothing | eunlg/core/surface_realizer.py:63 | without a "(" followed by whitespace the text stays as it is |
| SurfaceRealizer.DropAfterOpenLast | eunlg/core/surface_realizer.py:63 | the clean-up after "(" keeps the last character when it is no whitespace |
| SurfaceRealizer.DropAfterOpenVisible | eunlg/core/surface_realizer.py:63 | the clean-up after "(" removes whitespace and nothing else |
| SurfaceRealizer.DropBeforeVisible | eunlg/core/surface_realizer.py:64-65 | the clean-ups before ")" and "," remove whitespace and nothing else |
| SurfaceRealizer.TidyVisible | eunlg/core/surface_realizer.py:62-65 | the three clean-ups together keep every visible character in order, keep a non-whitespace last character, and leave the empty text empty |
| SurfaceRealizer.TidyExample | eunlg/core/surface_realizer.py:63-64 | "( EU )" becomes "(EU)" |
| SurfaceRealizer.ComponentStrings | eunlg/core/surface_realizer.py:59 | one string per component, the printed value of each; a component whose value fails decides the error |
| SurfaceRealizer.NonEmpty | eunlg/core/surface_realizer.py:61 | the component strings kept are exactly the non-empty ones, in order |
| SurfaceRealizer.Sentence | eunlg/core/surface_realizer.py:59-65 | a sentence fails iff some component value fails, and otherwise is the non-empty strings joined by spaces, right-stripped and tidied |
| SurfaceRealizer.Capitalize | eunlg/core/surface_realizer.py:72 | the first character upper-cased, the rest unchanged |
| SurfaceRealizer.Emit | eunlg/core/surface_realizer.py:67-73 | an empty sentence raises when the realizer fails on empty sentences and is skipped otherwise; any other is capitalised and put between the sentence delimiters |
| SurfaceRealizer.Item | eunlg/core/surface_realizer.py:57-59 | a child that is a node, or a message without a template, raises AttributeError; a message gives its emitted sentence |
| SurfaceRealizer.Items | eunlg/core/surface_realizer.py:57-74 | a paragraph fails only at a child that fails |
| SurfaceRealizer.Paragraphs | eunlg/core/surface_realizer.py:47-48 | every paragraph is realised before any output, one string per paragraph; a failure comes from some paragraph |
| SurfaceRealizer.WrappedSnoc | eunlg/core/surface_realizer.py:50-51 | each paragraph is appended between the paragraph delimiters |
| SurfaceRealizer.HeadlineIsBare | eunlg/core/surface_realizer.py:77-82 | the headline output is the bare concatenation of its paragraphs |
| SurfaceRealizer.BodyDelimiters | eunlg/core/surface_realizer.py:77-106 | the body ends each sentence with ". ", the lists wrap it in "<li>" and ".</li>", the headline leaves it bare and fails on an empty sentence, and the bodies skip empty sentences |
| SurfaceRealizer.RealizeParagraph | eunlg/core/surface_realizer.py:54-74 | the loop over a paragraph's children computes the paragraph function |
| SurfaceRealizer.Run | eunlg/core/surface_realizer.py:42-52 | the component realises all paragraphs and then concatenates them between the delimiters |
| SurfaceRealizer.ParagraphsFail | eunlg/core/surface_realizer.py:47-48 | the first failing paragraph decides the error |
| Registry.Registry.constructor | eunlg/core/registry.py:13-14 | a new registry is empty |
| Registry.Registry.Register | eunlg/core/registry.py:16-20 | a fresh name is added with its service, other names unchanged; a name already present raises the collision error and keeps the old entry |
| Registry.Registry.Get | eunlg/core/registry.py:22-26 | a registered name yields its service; any other raises the unknown-component error |
| Registry.TwoServices | eunlg/core/registry.py:16-26 | two services under different names are both kept; the same name twice keeps the first |
| TabularDataResource.QueriesIgnoreCase | eunlg/resources/tabular_data_resource.py:9-12 | the query lower-cases both arguments; "any" in any case is a wildcard for either |
| TabularDataResource.StoredListsAsGiven | eunlg/resources/tabular_data_resource.py:5-12 | the stored lists are not lower-cased, so an upper-case entry is never matched |
| Tokens.TokenEquality | eunlg/template_translator.py:24-33 | two tokens print alike exactly when they have the same text and flag, so token equality is equality of the pair |
| Tokens.LowerAll | eunlg/template_translator.py:220-221 | each token lower-cased, its flag kept, in order |
| Tokens.ReplacementEquality | eunlg/template_translator.py:60-69 | printed forms identify replacements whose names hold no comma |
| Tokens.FromDict | eunlg/template_translator.py:129-134 | one replacement per dictionary item, in the dictionary's order, with its key as name and its value as value |
| Tokens.FromDictDistinct | eunlg/template_translator.py:129-134 | a set built from a dictionary has distinct names |
| Tokens.InsertByName | eunlg/template_translator.py:113-114 | one step of the stable sort by name adds exactly the one replacement |
| Tokens.SortByName | eunlg/template_translator.py:113-114 | the sort by name is a permutation |
| Tokens.SortSorted | eunlg/template_translator.py:113-114 | the sort by name yields a list sorted by name |
| Tokens.SortDistinct | eunlg/template_translator.py:113-114 | sorting keeps names distinct |
| Tokens.SortedUnique | eunlg/template_translator.py:110-116 | two sorted orderings of the same replacements with distinct names are the same list |
| Tokens.SameReplacementsIgnoresOrder | eunlg/template_translator.py:106-119 | replacement-set equality ignores order: for distinct comma-free names, two sets are equal iff they hold the same replacements |
| Tokens.StartsWithTokens | eunlg/template_translator.py:239-240 | a sequence starts with another iff the other occurs at position 0 |
| Tokens.MatchAcc | eunlg/template_translator.py:257-263 | the walk returns -1 or a count of at least the accumulator |
| Tokens.MatchAccMeaning | eunlg/template_translator.py:257-263 | the walk finds the first occurrence, counted from where it started, and -1 iff there is none |
| Tokens.SpanShort | eunlg/template_translator.py:256-263 | a sequence no longer than the searched one holds it only as the whole |
| Tokens.MatchIndex | eunlg/template_translator.py:256-268 | the index is -1 iff the searched tokens occur nowhere (lower-cased when case-insensitive), and otherwise is their first occurrence |
| Tokens.MatchAny | eunlg/template_translator.py:243-249 | the boolean walk answers whether the searched tokens occur somewhere |
| Tokens.MatchSubtokensAgrees | eunlg/template_translator.py:242-268 | there is a match iff the index search finds one |
| Tokens.SlotNames | eunlg/template_translator.py:224 | the texts of the placeholder tokens |
| Tokens.IndexOfText | eunlg/template_translator.py:230 | the first token with that text, or -1 where Python raises ValueError |
| Tokens.IndexOfSlot | eunlg/template_translator.py:230 | the first placeholder token with that name, or -1 |
| Tokens.LexicalizeFrom | eunlg/template_translator.py:226-237 | filling keeps the length, and fails only with ValueError; which token gets which value is stated by `LexicalizeMeaning` (intended) and `LexicalizeAsWrittenMeaning` (as written) |
| Tokens.Realized | eunlg/template_translator.py:223-237 | the reference lexicalisation: a same-length copy in which the first placeholder of each replaced name carries the replacement's value and every other token stays |
| Tokens.LexicalizeMeaning | eunlg/template_translator.py:223-237 | with distinct names, lexicalising by placeholder never fails and gives the reference lexicalisation |
| Tokens.LexicalizeHitsWord | eunlg/template_translator.py:230 | as written, for the tokens "value {value}" and the replacement value = 5 the ordinary word is overwritten and the slot stays; as intended the slot is filled |
| Tokens.LexicalizeLoop | eunlg/template_translator.py:223-237 | the loop over the replacements, on a copy of the tokens, computes lexicalisation as written, whose meaning `LexicalizeAsWrittenMeaning` states |
| Tokens.RealizedByText | eunlg/template_translator.py:223-237 | the reference for lexicalisation as written: the first token whose text is a replaced slot name, placeholder or word, carries that value; every other token stays |
| Tokens.LexicalizeByTextFrom | eunlg/template_translator.py:226-237 | while every remaining slot name is some token's text, filling by text from the copy gives the reference result for the code as written |
| Tokens.LexicalizeAsWrittenMeaning | eunlg/template_translator.py:223-237 | with distinct names whose values are no slot names, `lexicalize` as written never fails and gives `RealizedByText` |
| Tokens.LexicalizeAsWrittenAgrees | eunlg/template_translator.py:223-237 | where the first token with each slot name as its text is that placeholder, the code as written and the intended code give the same tokens |
| Tokens.LexicalizeAsWrittenDistinctOk | eunlg/template_translator.py:226-237 | with distinct replacement names every turn finds a token with its name, so the code as written never raises |
| Tokens.LexicalizeAsWrittenRepeated | eunlg/template_translator.py:230 | a slot name given twice, whose single token the first turn has filled with another text, raises ValueError on its second turn |
| Tokens.CollapseShape | eunlg/template_translator.py:307-312 | a found span of one or more tokens collapses to a single placeholder; an empty span repeats the token at its position as a copy (see Left out) |
| Tokens.CollapseExpand | eunlg/template_translator.py:307-312 | putting the value's tokens back in place of the placeholder undoes a collapse |
| Tokens.Surface | eunlg/template_translator.py:181-183 | one text per token, placeholders written between braces |
| Tokens.DelexicalizeOne | eunlg/template_translator.py:300-312 | a single replacement is found iff its tokens occur; then the first occurrence collapses to the slot, and expanding the value again restores the tokens |
| Tokens.DelexicalizeExample | eunlg/template_translator.py:294-315 | "Prices in Finland" with location = "Finland" becomes "Prices in {location}" |
| Tokens.Delexicalize | eunlg/template_translator.py:300-312 | the loop over the replacements computes the delexicalisation function (tokens are values: see Left out) |
| Tokens.Template.constructor | eunlg/template_translator.py:272-276 | a new template holds the given tokens and replacement sets |
| Tokens.Template.ParseNlgFormat | eunlg/template_translator.py:294-315 | the replacement set is stored first; the result is true iff every value is found, and then the delexicalised tokens become the template's tokens, otherwise they stay (tokens are values: see Left out) |
| Tokens.Template.RealizationTexts | eunlg/template_translator.py:317-330 | asking for texts without a tokenizer raises ValueError; otherwise one text per realisation, built on the intended lexicalisation (`Lexicalize`) |
| Tokens.LexicalizeAll | eunlg/template_translator.py:320-323 | one intended lexicalisation (`Lexicalize`) per replacement set, in order; a failure comes from some set |
| Tokens.RealizationsMeaning | eunlg/template_translator.py:317-323 | with distinct names in every set, realising with the intended lexicalisation never fails and gives each set's reference lexicalisation |
| TemplateTranslator.SplitBy | eunlg/template_translator.py:352-353 | splitting yields at least one piece |
| TemplateTranslator.JoinSplitBy | eunlg/template_translator.py:349-353 | joining the pieces with the separator gives the text back |
| TemplateTranslator.SplitJoin | eunlg/template_translator.py:349-353 | splitting a joined list gives the list back when no piece holds the separator and the separator has no border |
| TemplateTranslator.ConcatPlaceholderBorderFree | eunlg/template_translator.py:342 | the default separator ">>>CONCAT<<<" has no border |
| TemplateTranslator.BorderedSeparator | eunlg/template_translator.py:349-353 | with a bordered separator the round trip fails: ["a", ""] joined by "aa" splits into ["", "a"] |
| TemplateTranslator.ExtractList | eunlg/template_translator.py:352-353 | extraction raises ValueError iff the separator is empty, and otherwise yields pieces that join back to the text |
| TemplateTranslator.ExtractConcat | eunlg/template_translator.py:349-353 | a non-empty list free of the separator survives the trip through one joined text |
| TemplateTranslator.ExtractConcatEmpty | eunlg/template_translator.py:349-353 | the empty list comes back as one empty text |
| TemplateTranslator.TranslateListDirect | eunlg/template_translator.py:360-367 | with the default separator a non-empty list free of it reaches the model unchanged |
| TemplateTranslator.OfKind | eunlg/template_translator.py:373-377 | the tokens kept all have the requested placeholder flag |
| TemplateTranslator.ActualRank | eunlg/template_translator.py:389-395 | a non-placeholder token's rank among the non-placeholder tokens is within their number |
| TemplateTranslator.TranslateTokenSeq | eunlg/template_translator.py:369-399 | the sequence is translated iff the model answers with one text per non-placeholder token, and the assertion fails otherwise; each placeholder stays where it was and the k-th other token becomes the k-th translation |
| TemplateTranslator.Rebuild | eunlg/template_translator.py:388-398 | the second loop rebuilds one token per source token, taking placeholders and translations from the front of their lists |
| TemplateTranslator.TranslateReplacement | eunlg/template_translator.py:401-405 | the name is kept; a model that returns nothing raises IndexError |
| TemplateTranslator.TranslateReplacementValue | eunlg/template_translator.py:401-405 | a value free of the separator is sent to the model alone and replaced by its first answer |
| TemplateTranslator.TranslateReplacementSet | eunlg/template_translator.py:407-414 | the pairs are cut at the shorter of the set and the model's answer, each keeping its original name |
| TemplateTranslator.TranslateReplacementSetMeaning | eunlg/template_translator.py:407-414 | when the model answers one text per value, the names are exactly the original names and the values the model's texts, in order; distinct names stay distinct |
| TemplateTranslator.TranslateSets | eunlg/template_translator.py:420-422 | one translated set per set, in order; the first failure raises |
| TemplateTranslator.KeptMeaning | eunlg/template_translator.py:427-456 | a (lexicalisation, set) pair is kept iff every translated value is found again in it; at most one per pair |
| TemplateTranslator.KeptAll | eunlg/template_translator.py:427-456 | every pair is kept when every value is found |
| TemplateTranslator.Tokenized | eunlg/template_translator.py:423-425 | one token sequence per translated lexicalisation |
| TemplateTranslator.TranslateTemplate | eunlg/template_translator.py:416-458 | the template translation succeeds or fails as the specification does, and returns one new template per kept pair; lexicalisation is the intended `Lexicalize` |
| TemplateTranslator.KeepFound | eunlg/template_translator.py:426-458 | the output loop builds one fresh template per kept pair, with its delexicalised tokens and its translated set |
| ExampleMessageFetcher.RowExamples | eunlg/example_message_fetcher.py:182-226 | a row's messages are numbered on from the given id; a float, integer or string timestamp is read as the generator reads it (`RowExamplesContent`, `RowExamplesAgree`) |
| ExampleMessageFetcher.RowExamplesContent | eunlg/example_message_fetcher.py:199-226 | one message per defined value column, in column order, each a single-fact message located at "[ENTITY:type:location]" with the column as value type and the cell as value |
| ExampleMessageFetcher.RowExamplesAgree | eunlg/example_message_fetcher.py:182-226 | on a row the message generator keeps, the fetcher's messages are the generator's |
| ExampleMessageFetcher.GenMessages | eunlg/example_message_fetcher.py:182-226 | the row's messages are appended to the caller's list |
| ExampleMessageFetcher.FrameExamples | eunlg/example_message_fetcher.py:177 | the messages of all rows are numbered on from the given id |
| ExampleMessageFetcher.FrameExamplesDistinct | eunlg/example_message_fetcher.py:177 | no two messages of a dataset share an id |
| ExampleMessageFetcher.GenerateAllMessages | eunlg/example_message_fetcher.py:162-179 | the value columns are those that are neither meta nor outlierness columns, and every row is processed in order |
| ExampleMessageFetcher.Matching | eunlg/example_message_fetcher.py:90-92 | the messages kept are exactly those the template's check matches, and an error raised by the check propagates |
| ExampleMessageFetcher.FilterMatching | eunlg/example_message_fetcher.py:92 | the comprehension computes the matching function |
| ExampleMessageFetcher.FirstWith | eunlg/example_message_fetcher.py:119-121 | the `next` search yields a message holding the value, and none only when no message holds it |
| ExampleMessageFetcher.FirstOfType | eunlg/example_message_fetcher.py:145 | the `next` search yields a message of that value type, and none only when no message has it |
| ExampleMessageFetcher.Extend | eunlg/example_message_fetcher.py:113-122 | adding a message not yet selected keeps the selection distinct and every coverage already reached |
| ExampleMessageFetcher.OfferMeta | eunlg/example_message_fetcher.py:108-126 | one visit of the meta loop covers the value afterwards when some message holds it (and it equals itself) |
| ExampleMessageFetcher.OfferType | eunlg/example_message_fetcher.py:137-150 | one visit of the value-type loop covers the type afterwards when some message has it |
| ExampleMessageFetcher.CoverField | eunlg/example_message_fetcher.py:107-126 | after the loop over a meta field's distinct values every value among the messages is held by a selected message |
| ExampleMessageFetcher.SelectCovering | eunlg/example_message_fetcher.py:103-150 | the selection holds distinct messages of the list, covers every meta value and every value type that occurs |
| ExampleMessageFetcher.FetchExampleMessages | eunlg/example_message_fetcher.py:71-158 | the fetch fails iff generation or a check fails; otherwise its messages are distinct messages among those considered, covering all their meta values and value types |
| ExampleMessageFetcher.ComponentText | eunlg/example_message_fetcher.py:232-236 | a component's text fails only with the AttributeError of a resolved slot, which has no `field_name` |
| ExampleMessageFetcher.Approximation | eunlg/example_message_fetcher.py:229-237 | the text fails only with that AttributeError |
| ExampleMessageFetcher.ApproximationConcat | eunlg/example_message_fetcher.py:229-237 | the text of a component list is the texts of its parts in order, and fails iff some part fails |
| ExampleMessageFetcher.ApproximationOk | eunlg/example_message_fetcher.py:232-233 | the text fails exactly when some slot has no type |
| ExampleMessageFetcher.TemplateAsString | eunlg/example_message_fetcher.py:229-237 | the loop computes the text function |
| TemplateAttacher.AttachCore | eunlg/template_attacher.py:32-36 | processing the core messages from a position on keeps the list's length and the messages before that position |
| TemplateAttacher.AttachExpanded | eunlg/template_attacher.py:32-36 | processing the expanded messages keeps their number |
| TemplateAttacher.AttachCoreMeaning | eunlg/template_attacher.py:32-36 | each core message is processed against the core list in which the messages before it are already processed and the rest are as given |
| TemplateAttacher.AttachExpandedMeaning | eunlg/template_attacher.py:32-36 | every expanded message is processed against the same, final, core list |
| TemplateAttacher.KeepsOrder | eunlg/template_attacher.py:32-38 | stages that keep a message's id leave both lists in their order and length |
| TemplateAttacher.Run | eunlg/template_attacher.py:17-38 | the loop over the core messages and then the expanded ones computes the attach function |
| TemplateRemover.Dropped | eunlg/template_remover.py:26-27 | every message of the list with its template dropped, nothing else changed |
| TemplateRemover.DroppedUnique | eunlg/template_remover.py:26-27 | there is just one way to drop the templates of a list |
| TemplateRemover.DroppedIdempotent | eunlg/template_remover.py:26-27 | dropping the templates twice is dropping them once |
| TemplateRemover.DroppedBare | eunlg/template_remover.py:26-27 | a list whose messages have no template is left as it is |
| TemplateRemover.DropTemplates | eunlg/template_remover.py:26-27 | the loop over one list drops every template |
| TemplateRemover.Run | eunlg/template_remover.py:15-29 | both lists are returned, every message with its template dropped |
| EmbeddingRemover.Strip | eunlg/embedding_remover.py:25-28 | every message loses its template and its embedding, nothing else changed |
| EmbeddingRemover.StripUnique | eunlg/embedding_remover.py:25-28 | there is just one way to strip a list |
| EmbeddingRemover.StripIdempotent | eunlg/embedding_remover.py:25-28 | stripping twice is stripping once |
| EmbeddingRemover.StripWithoutEmbedding | eunlg/embedding_remover.py:25-28 | a message without an embedding only loses its template |
| EmbeddingRemover.Run | eunlg/embedding_remover.py:14-30 | the document plan is returned as given and every message is stripped |

## Left out

- Regular expressions, float printing, `round`, `math.pow`, `random` and the NLTK tokenizer and detokenizer are parameters (`Env`, `Engine`, `Tokenizer`, `pick`/`choose` functions); their own behaviour is not modelled.
- The uralicNLP and pymorphy2 analysers behind the English, Finnish, Estonian and Russian morphology are an abstract `realize` function of the language realizer.
- The MarianMT translation model is the `model` parameter of `Translator`; `_translate_list_values` and the translator's `main` are not part of this model.
- Importance.Run: `math.pow` raising OverflowError for a very large score is not modelled; the power is the `pow11` parameter, and only its underflow to 0 (ZeroDivisionError) is an error path.
- In-place mutation of shared message objects: messages are values, so a stage returns the updated plan and the template attacher writes the plan's message back into its list (`TemplateAttacher.MessageOf`); aliasing between a message in the plan and in the pools is not captured.
- The aggregator's merged message takes the first message's id; parent links of plan nodes are not modelled, and facts are compared structurally.
- Messages have no Python `__eq__`, so identity is the `id` field throughout.
- Iteration order of Python sets is not modelled: `fetch` is modelled without its shuffle, and the distinct meta values are listed in first-occurrence order.
- The `lru_cache` on the template readers is left out: caching does not change the results.
- `translate`'s dispatch on the Python type of its argument is given by the argument's Dafny type; the TypeError raised for an unsupported type cannot arise.
- The tokenizer's internals (`tokenize_sequence`) are a parameter of `Tokenizer`.
- Lower- and upper-casing and white-space tests are ASCII only (`Text.Lower`, `Text.Upper`, `Text.IsSpace`).
- Values that Python cannot hash (a set used as a dictionary key) are modelled as a TypeError result.
- RealizeSlots.Run: the fixed-point loop is bounded by a `fuel` argument; a run needing more passes is reported as `LoopsForever`, which the program would instead keep running.
- SloveneMorphology.ReverseLeftInverse: distinctness of the forms of the 42-entry case table is a precondition, not proved for the concrete table.
- `msg_as_realized_dict`, the module-level service construction and `obtain_example_messages_for_all_templates` (`eunlg/example_message_fetcher.py:50-68`) run the whole service and are not part of this model.
- `_gen_messages_for_previous_location` runs a further message-generation sub-pipeline for the previous location; its messages are an input of the importance allocator here.
- The `main` functions, logging, console tree printing and `datetime.now()` (the current year is a parameter) are left out; the registry is passed as a parameter.
- NumberRealizer.NumberSlot: with "ord" requested and no ordinal realizer, the source reads `this.value` to build its log message, so a slot whose value cannot be read (a fact-field slot without a fact) raises there; the model drops that evaluation with the logging and leaves the slot as it is.
- RealizeSlots.ToFloat: the `parseFloat` parameter returns a real or nothing, so a slot holding the string "nan" or "inf" is never read as NaN or infinity, and the ValueError or OverflowError that `int(value)` then raises is not reached from a string.
- The neural similarity planner (BERT embeddings), the service and server wiring, the data store's file I/O and the preprocessing scripts are not part of this model.
- TemplateReader.ParseFloat: "inf" and "infinity" in any letter case and with either sign, and underscores between digits ("1_000.5"), which `float` also reads, are not read: the value model has no infinite float, and such a text stays a string.
- NotANumber: says nothing about texts starting with "i", since `float` reads "inf" and "infinity" as numbers, which `ParseFloat` does not.
- RankFactor: a NaN rank is a ValueError here, where `math.pow(0.7, nan - 1)` is nan and the message is scored nan; scores are reals, which have no nan.
- MessageGenerator.TimestampText: an integer timestamp is stored in the fact as its numeral text, where the source keeps the int; a timestamp that is neither a number nor a string (None, a boolean) is an error here, because a fact's timestamp is a string, where the source stores it and fails only where it is used.
- RowExamples: a timestamp that is neither a number nor a string is an error here, while the fetcher stores it unchanged in its facts.
- Models.GetSlot: the `_slot_map` cache is not modelled; the lookup is made afresh on the current components, whereas the source answers a repeated type from its first lookup even after the slots change.
- DocumentPlanner.Headline: with no pick (an empty core) the source stores None as the headline's only child and returns the plan; the AttributeError comes from the template selector's walk over that child (`core/template_selector.py:59`, `:76`). The model reports that AttributeError from the planner, so the failure is the same but is raised one stage earlier.
- FullPlanner.FullHeadline: an empty core is reported by the planner, as for `DocumentPlanner.Headline`.
- ContextSimPlanner.ContextSimHeadline: an empty core is reported by the planner, as for `DocumentPlanner.Headline`.
- EarlyStopPlanner.EarlyStopHeadline: an empty core is reported by the planner, as for `DocumentPlanner.Headline`.
- ScorePlanner.ScoreHeadline: an empty core is reported by the planner, as for `DocumentPlanner.Headline`.
- CollapseShape: tokens are values, so when a value tokenizes to nothing the token repeated at positions 0 and 1 is two equal tokens; in the source they are one shared object, and a later replacement found at 0 rewrites both ("Finland is big" with ("a", "") then ("location", "Finland") gives "{location} {location} is big" in the source).
- Delexicalize: the shared token of an empty value is not captured, as for `CollapseShape`.
- Tokens.Template.ParseNlgFormat: the shared token of an empty value is not captured, as for `CollapseShape`.
- The stages below run the corrected definitions of "## Findings"; the code as written is modelled beside them (`MonthNeverShortened`, `RussianAsWrittenRaises`, `LanguageBlockFails`, `LexicalizeHitsWord`, `AnalysisAsWrittenDrops`) but is not what the stage computes:
- DateRealizer.Run: realises months with the corrected `RealizeMonth`, so a month after a month of the same year is shortened and nothing raises after a year tag.
- MorphComponent: calls the realizer with the slot's left and right contexts, where the source calls `realize(slot)`.
- MorphDocument: walks the plan with the corrected context call.
- MorphologicalRealizer.Run: computes `MorphDocument`, with the corrected context call.
- TemplateGroups.ReadAll: reads a language line as a language switch (`ReadBlocks`), where the unpacking as written raises ValueError.
- ReadAllBlocks: computes the corrected `ReadBlocks`.
- ReadTemplates: returns the corrected `ReadAll`.
- LexicalizeAll: uses the intended `Lexicalize`, where `realizations` calls `lexicalize` as written (`LexicalizeAsWrittenMeaning` states what that one does).
- RealizationTexts: is built on `LexicalizeAll`, with the intended lexicalisation.
- RealizationsMeaning: is proved of the intended lexicalisation.
- TranslateTemplate: lexicalises with the intended `Lexicalize`.
- ContextSimPlanner.Rescore: weighs with the corrected `WeighByAnalysis`, which keeps candidates sharing no prefix.
- RescoreMeaning: holds of the corrected weighting only.

## Findings

| source | as written | input that shows it | evidently intended | confidence | as-written member | corrected member |
|---|---|---|---|---|---|---|
| eunlg/eu_context_sim_document_planner.py:148-151 | after the last prefix round the list of remaining candidates is empty, so candidates sharing no prefix with the reference message are dropped from the result | a reference "a:b" and a candidate "c" | candidates sharing no prefix stay in the list with weight 0 | not executed | ContextSimPlanner.AnalysisAsWrittenDrops | ContextSimPlanner.AnalysisMeaning |
| eunlg/eu_date_realizer.py:125-131 | after a month tag the previous year is read with `groups(0)`, which gives the tuple of both groups rather than the year, so a month is never shortened to the month alone; after a year tag the year is read with a month-shaped pattern that cannot match, and `.groups` on no match raises AttributeError | the month "[TIME:month:2020M03]" after "[TIME:month:2020M01]", or after "[TIME:year:2020]" | a month of the year the previous tag mentions is written without its year | not executed | DateRealizer.MonthNeverShortened | DateRealizer.MonthMeaning |
| eunlg/core/morphological_realizer.py:59 | `realize` is called with the slot alone, so the realizers that take the slot's left and right context (the Slovene and Russian ones) raise TypeError | any template with a slot, in Russian | the realizer receives the realised components before the slot and the ones after it | not executed | MorphologicalRealizer.RussianAsWrittenRaises | MorphologicalRealizer.ContextCallRepairs |
| eunlg/template_translator.py:230 | the token to fill is found by its text alone, so an ordinary word equal to the placeholder's name, earlier in the sentence, is filled instead of the placeholder | the tokens "value" and the placeholder "value" with the replacement "5": "5 {value}" results | the placeholder token is filled: "value 5" | not executed | Tokens.LexicalizeHitsWord | Tokens.LexicalizeMeaning |
| eunlg/core/template_reader.py:152-154 | three values are unpacked from `read_template_group`, which returns two (lines 193 and 201), so a language line raises ValueError | a block that is only "en:" | the language line switches the current language | not executed | TemplateGroups.LanguageBlockFails | TemplateGroups.LanguageBlockSwitches |

# wikidata-bot-framework: a Dafny model of the reconciliation engine

This project models the core of `wikidata_bot_framework`, a library for bots that
add statements to Wikidata entities. A bot returns an *output*: an ordered mapping
from property ID to a list of `ExtraProperty` records. Each record describes one
statement. It carries the desired claim, policy flags, the qualifiers to add
(as `ExtraQualifier` records) and the references to add or merge (as
`ExtraReference` records). `PropertyAdderBot.process` reconciles the entity's
claims with the output. For each desired property it works in three tiers:

- **Statements.** Add the claim, adopt an equal one (and maybe copy its rank),
  overwrite the first unequal one, add one in parallel, or skip the property.
- **Qualifiers.** Attach one, keep an equal one, overwrite one, skip, split off
  a new statement, or append.
- **References.** Merge into the first compatible group, or append a new group.

Every change is reported to the `processed_hook`. A `true` answer from the hook
makes the whole pass run again. If anything changed, the edit is attempted up to
four times.

The model is split into modules that follow the package:

| file | module | what |
|---|---|---|
| `collections.dfy` | `Collections` | `Option`, `dict.get`/`setdefault` on maps of lists, insertion-ordered dictionaries |
| `wikibase.dfy` | `Constants`, `Wikibase` | property IDs; targets, ranks, qualifier/reference claims (`Snak`), the mutable `Claim` and `Entity` classes |
| `process_reason.dfy` | `ProcessReasons` | `ProcessReason` and its classifiers |
| `dataclasses.dfy` | `DataClasses` | `ExtraQualifier`, `ExtraReference`, `ExtraProperty`, the constructors from property IDs and values, `is_compatible_reference`, `sort_qualifiers` |
| `utils.dfy` | `Utils` | the in-place helpers: `add_claim_locally`, `add_qualifier_locally`, `add_reference_locally`, `append_to_source`, `merge_reference_groups`, `OutputHelper` |
| `transformers.dfy` | `Transformers` | `de_archivify_url_property` |
| `policy.dfy` | `Policy` | `Config`, the whitelists, `can_add_main_property`, the edit summary, the bounded edit retry |
| `decisions.dfy` | `Decisions` | what each tier decides for one desired statement, qualifier or reference, as pure functions, with lemmas about those decisions |
| `engine.dfy` | `Engine` | `process` itself: a `Bot` class whose methods carry out the decisions on the entity's claim objects |

How the model is put together:

- Main statements (`pywikibot.Claim`) are objects of class `Claim`. The engine
  changes them in place, and the same object can be in the entity's claim list
  and be a desired property's working claim at the same time. The engine
  methods' frames are stated over a ghost set of claim objects.
- Qualifier and reference claims are values (`Snak`). The engine only appends
  them, compares their targets and re-targets them.
- `processed_hook` is an oracle: a finite list of answers, taken in call order,
  and `false` once the list runs out. Every call is recorded in `Bot.log`. The
  `while re_cycle` loop terminates because the list is finite (see the
  `Engine.Bot.Passes` line under "Left out").
- The success or failure of each `editEntity` attempt is a parameter
  `succeeds: nat -> bool`, indexed by attempt number.
- Each tier's decision is a function of the state it reads (`StatementDecision`,
  `QualifierDecision`, `ReferenceDecision`). Each tier method ensures that it
  reports exactly the reasons of that decision and carries it out. For the
  reference tier, `ReferencesApplied`, `ReferencesReported` and `ReferencesRaised`
  give the groups, the reasons and any `KeyError` after each desired reference in
  turn.

Behaviour of the code that the model keeps as written:

- With `skip_if_conflicting_language_exists` and no conflict, the claim is added
  and `missing_value` is reported. Then the code falls through and adds and
  reports it a second time (`Decisions.LanguagePathAddsTwice`).
- Overwriting always hits the first statement, or the first qualifier under the
  key, when that one is unequal. It is not the first unequal value anywhere in
  the list (`Decisions.ReplacementOnlyAtFirst`, `Decisions.QualifierReplaceFirst`).
- The make-new branch re-adds the original claim object. Qualifiers already
  attached to the working claim stay where they are (`Engine.Bot.QualifierApplied`).
- The final qualifier append has no whitelist gate (`Decisions.AppendIsUngated`).
- Nothing guards against cycles except the hook's answers.
- `new_claim.qualifiers[qualifier_prop]` on a missing key raises `KeyError`.
  In pywikibot, `claim.qualifiers` is an `OrderedDict`.
- `merge_reference_groups` indexes the group as if it were a `defaultdict(list)`.
  That holds only for groups `add_reference_locally` built. A group loaded from
  the server is an `OrderedDict`, and a desired reference with a property ID it
  lacks raises `KeyError` there (`Wikibase.Claim.loaded`, `Decisions.ReferenceOutcomes`).
- The language check reads `.language` of the desired target. When that target
  is not a monolingual text this raises `AttributeError`, at the first existing
  monolingual value.
- The `re_cycle` set by the post-output hook call is never read again, because
  the loop has already ended.

Behaviour of the code that may surprise a caller:

- De-archiving (`wikidata_bot_framework/transformers.py:19-20`) removes only the
  matched `web.archive.org/web/<14 digits>/` text. The text before it is kept, so
  `https://web.archive.org/web/20200101000000/http://example.com` becomes
  `https://http://example.com` (`Transformers.ExampleTarget`).
- The pattern's `\d` is Python's Unicode `\d`: any decimal digit of any script
  matches. `strptime` then reads `%Y` and the second digit of `%d`, `%H`, `%M`
  and `%S` with `\d` too, but the other positions with ASCII classes. So a
  snapshot dated `2020011٥` parses as 2020-01-15 (`Transformers.ExampleNonAsciiDay`),
  while one dated `20200٥01` matches, loses its archive prefix and then fails to
  parse (`Transformers.ExampleNonAsciiMonth`).

## Model

| member | source | states |
|---|---|---|
| ProcessReasons.ClassifiersMatchTiers | wikidata_bot_framework/process_reason.py:39-68 | each classifier holds exactly for the reasons of its tier (statement, qualifier or reference); the two "added" classifiers hold exactly for the additions of their tier; all are iff |
| ProcessReasons.ClassifiersPartition | wikidata_bot_framework/process_reason.py:47-68 | every reason but `post_output` is claimed by exactly one of `claim_modified`, `qualifier_modified` and `reference_modified`; `post_output` by none |
| ProcessReasons.PostOutputUnclassified | wikidata_bot_framework/process_reason.py:36-68 | `post_output` satisfies none of the five classifiers |
| Collections.AppendTo | wikidata_bot_framework/utils.py:10 | `setdefault(k, []).append(x)`: the keys gain `k`, the list under `k` gains `x` at its end, and every other list is unchanged |
| Collections.Put | wikidata_bot_framework/dataclasses.py:169-170 | `d[k] = v` on an insertion-ordered dict replaces the entry in place when the key is present, and appends it otherwise |
| Collections.Get | wikidata_bot_framework/dataclasses.py:59-61 | lookup in an insertion-ordered dict finds nothing exactly when no entry has the key |
| Collections.GetPut | wikidata_bot_framework/dataclasses.py:169-170 | reading back after `d[k] = v` gives `v` for `k` and the old value for every other key |
| Collections.GetMerge | wikidata_bot_framework/dataclasses.py:59 | `{**a, **b}[k]` is `b[k]` when `b` has `k`, and `a[k]` otherwise |
| Collections.GetAppendUnder | wikidata_bot_framework/dataclasses.py:212 | `d[k].append(x)` on a `defaultdict(list)` extends the list under `k` by `x`, starting it when absent; every other key reads as before |
| Collections.AppendUnderKeys | wikidata_bot_framework/dataclasses.py:212 | appending under a key keeps the key order; a new key goes last |
| Wikibase.Claim.constructor | wikidata_bot_framework/dataclasses.py:28-29 | a new claim has the given property ID and target, normal rank, no qualifiers, no references and so no loaded reference groups |
| Wikibase.Claim.FromServer | wikidata_bot_framework/__init__.py:423 | a statement of the fetched entity keeps its fields, and every reference group it holds counts as loaded from the server |
| Wikibase.ClaimSetAppendTo | wikidata_bot_framework/utils.py:9-10 | adding a claim to the entity adds exactly that object to the set of statement objects |
| Wikibase.ClaimSetCollapse | wikidata_bot_framework/__init__.py:492 | narrowing a property's list to one statement it held adds no statement object |
| DataClasses.QualifierFromPropertyIdAndValue | wikidata_bot_framework/dataclasses.py:18-30 | a fresh qualifier claim with that property ID and target, with every flag off |
| DataClasses.EntryPairs | wikidata_bot_framework/dataclasses.py:61-65 | a scalar value gives one pair; a list value gives one pair per element, in order |
| DataClasses.ExpandAppend | wikidata_bot_framework/dataclasses.py:61-65 | expanding two mappings one after the other is the concatenation of their expansions |
| DataClasses.KeywordsOverride | wikidata_bot_framework/dataclasses.py:59 | in `{**(mapping or {}), **kwargs}` a keyword entry overrides the mapping entry with the same key; a missing mapping counts as empty |
| DataClasses.QualifiersFromPropertyIdsAndValues | wikidata_bot_framework/dataclasses.py:44-66 | one qualifier per scalar value and one per list element, in mapping order, each built from its property ID and value |
| DataClasses.PostInitProps | wikidata_bot_framework/dataclasses.py:156-163 | `retrieved=False` adds nothing; an explicit date, or today by default, sets the `P813` entry to a claim with that date; no other entry changes |
| DataClasses.AnyUrlMatches | wikidata_bot_framework/dataclasses.py:174-177 | true iff some claim has a truthy string target that the pattern accepts |
| DataClasses.AnyTargetEquals | wikidata_bot_framework/dataclasses.py:181-183 | true iff some claim has the given target |
| DataClasses.AnyPropertyMatches | wikidata_bot_framework/dataclasses.py:178-184 | true iff some matcher property is in the group with a claim whose target equals the matcher's |
| DataClasses.ExtraReference.constructor | wikidata_bot_framework/dataclasses.py:137-163 | the matcher fields are as given, and the reference properties are the given ones after `__post_init__` |
| DataClasses.ExtraReference.AddClaim | wikidata_bot_framework/dataclasses.py:165-170 | the claim replaces any earlier reference property with its ID; it becomes a matcher only when asked; the URL pattern is unchanged |
| DataClasses.SpecsOf | wikidata_bot_framework/dataclasses.py:137-145 | the value view of each desired reference, in order |
| DataClasses.IsCompatibleReference | wikidata_bot_framework/dataclasses.py:172-184 | false without a URL pattern and without matchers; otherwise true iff a truthy `P854` target is accepted by the pattern or a matcher's target is found under its property |
| DataClasses.ReferenceFromReferenceClaim | wikidata_bot_framework/dataclasses.py:148-154 | a new reference, retrieved today, holding the one claim as a reference property, and as a matcher only when asked |
| DataClasses.FilterClass | wikidata_bot_framework/dataclasses.py:309-311 | a filtered group comes from the input and has the filtered key value |
| DataClasses.FilterIdempotent | wikidata_bot_framework/dataclasses.py:309-311 | filtering twice by the same key value changes nothing more, and the other key value then keeps nothing |
| DataClasses.FilterAppend | wikidata_bot_framework/dataclasses.py:309-311 | filtering distributes over concatenation |
| DataClasses.FilterSplit | wikidata_bot_framework/dataclasses.py:309-311 | the two filters together keep every group exactly once |
| DataClasses.SortIsPermutation | wikidata_bot_framework/dataclasses.py:313-318 | sorting keeps exactly the same (key, list) groups, as a multiset |
| DataClasses.SortPutsMakeNewFirst | wikidata_bot_framework/dataclasses.py:309-318 | after sorting, every group with a `make_new_if_conflicting` qualifier precedes every group without one |
| DataClasses.SortIsStable | wikidata_bot_framework/dataclasses.py:313-318 | within each class the groups keep their original relative order |
| DataClasses.ExtraProperty.constructor | wikidata_bot_framework/dataclasses.py:187-205 | every field as given: the claim, the five flags, the qualifiers and the extra references (`PropertyFromPropertyIdAndValue` passes the empty defaults) |
| DataClasses.ExtraProperty.AddQualifier | wikidata_bot_framework/dataclasses.py:207-212 | the qualifier is appended under its claim's property ID; the claim and references are unchanged |
| DataClasses.ExtraProperty.AddReference | wikidata_bot_framework/dataclasses.py:302-307 | the reference is appended at the end; the claim and qualifiers are unchanged |
| DataClasses.ExtraProperty.SortQualifiers | wikidata_bot_framework/dataclasses.py:313-318 | the qualifiers become their sorted order (see the sort lemmas); nothing else changes |
| DataClasses.PropertyFromPropertyIdAndValue | wikidata_bot_framework/dataclasses.py:18-30 | a fresh property with a fresh claim of that ID and target, normal rank, no qualifiers or references, every flag off |
| Utils.AddClaimLocally | wikidata_bot_framework/utils.py:9-10 | the claim goes last in the list for its own property ID, which is created when absent; other lists are unchanged |
| Utils.AddQualifierLocally | wikidata_bot_framework/utils.py:13-15 | the qualifier, marked as a qualifier, is appended under its property ID on that claim; target, rank and references are unchanged |
| Utils.AppendToSource | wikidata_bot_framework/utils.py:24-28 | the source claim, marked as a reference, is appended under its ID in group `index` only; the number of groups is unchanged |
| Utils.GroupedContents | wikidata_bot_framework/utils.py:18-28 | the group built from some claims holds exactly their IDs, and under each ID those claims, in order, marked as references |
| Utils.AddReferenceLocally | wikidata_bot_framework/utils.py:18-28 | exactly one new group is appended, holding the given claims; earlier groups, target, rank and qualifiers are unchanged |
| Utils.MergeReferenceGroups | wikidata_bot_framework/utils.py:31-40 | `KeyError` is raised iff the group was loaded from the server and some new claim's ID is absent from it, and then the group is unchanged; otherwise the merged group is the reference merge of the new claims, and the result is true iff some new claim's ID was absent from the group |
| Utils.MergedKeys | wikidata_bot_framework/utils.py:36-39 | merging adds exactly the missing IDs and keeps every list already present |
| Utils.AllIdsPresentAfterMerge | wikidata_bot_framework/utils.py:36-39 | after merging, every new claim's ID is present |
| Utils.MergeWhenAllPresent | wikidata_bot_framework/utils.py:31-40 | merging claims whose IDs the group already has changes nothing |
| Utils.MergeIdempotent | wikidata_bot_framework/utils.py:31-40 | a second merge with the same claims changes nothing and would report false |
| Utils.OutputHelper.constructor | wikidata_bot_framework/utils.py:46-47 | a new helper is empty |
| Utils.OutputHelper.AddProperty | wikidata_bot_framework/utils.py:49-50 | the property is appended under its claim's ID; other keys are unchanged |
| Transformers.DigitZero | wikidata_bot_framework/transformers.py:19 | `\d` in a `str` pattern: the run of Unicode decimal digits (category Nd) holding the character, whose zero lies at most nine code points below it |
| Transformers.DigitValue | wikidata_bot_framework/transformers.py:23 | the value `int()` gives a decimal digit of any script, from 0 to 9 |
| Transformers.Search | wikidata_bot_framework/transformers.py:19 | `re.search`: the leftmost match position at or after the start, or none when there is no match; the dots take any character but a newline and `\d` any Unicode decimal digit |
| Transformers.RemoveFromAbsent | wikidata_bot_framework/transformers.py:20 | `replace` changes nothing when there is no occurrence |
| Transformers.RemoveFromKeepsPrefix | wikidata_bot_framework/transformers.py:20 | `replace` keeps the text before the first occurrence |
| Transformers.RemoveAllKeepsPrefix | wikidata_bot_framework/transformers.py:20 | the whole string with the match removed is the text before the first occurrence followed by the rest with every later occurrence removed |
| Transformers.DeArchivedKeepsPrefix | wikidata_bot_framework/transformers.py:19-20 | on a match, the new target keeps the text before `web.archive.org` (the scheme, for instance) |
| Transformers.SkipIfConflicting | wikidata_bot_framework/transformers.py:26-41 | each provenance qualifier has `skip_if_conflicting_exists` set and every other flag off |
| Transformers.ArchiveQualifiersAppended | wikidata_bot_framework/transformers.py:24-42 | exactly one qualifier is appended under each of P1065 (the full archive URL), P2960 (the archive date) and P2241 (item Q1193907); other lists are unchanged |
| Transformers.DeArchivifyUrlProperty | wikidata_bot_framework/transformers.py:16-42 | without a match nothing changes; on a match the target loses the match, the rank is set to deprecated when `deprecate` and is otherwise unchanged, and the three qualifiers are appended unless the timestamp is not a real date, which is reported as raised |
| Transformers.ExampleMatch | wikidata_bot_framework/transformers.py:19 | in an example snapshot URL (`https://web.archive.org/web/20200101000000/http://example.com`) the match starts right after the scheme |
| Transformers.ExampleTarget | wikidata_bot_framework/transformers.py:20 | the example's new target is the scheme followed by the original URL |
| Transformers.AsciiDigit | wikidata_bot_framework/transformers.py:19 | an ASCII digit is a decimal digit with its usual value |
| Transformers.CapturedDigits | wikidata_bot_framework/transformers.py:19-23 | the 14 characters the match captures are decimal digits, so `int()` can read every field |
| Transformers.AsciiTimestampParses | wikidata_bot_framework/transformers.py:23 | for ASCII digits `strptime("%Y%m%d%H%M%S")` accepts exactly the timestamps that are a real date and time with at most 59 seconds |
| Transformers.ExampleTimestamp | wikidata_bot_framework/transformers.py:23 | the example's 14 digits parse as midnight on 2020-01-01, whose year, month and day give the archive date |
| Transformers.ExampleNonAsciiDay | wikidata_bot_framework/transformers.py:19-23 | ARABIC-INDIC DIGIT FIVE is a digit worth 5, and a timestamp with it as the day's second digit parses as the 15th |
| Transformers.ExampleNonAsciiMonth | wikidata_bot_framework/transformers.py:19-23 | the same digit as the month's second digit is rejected by `strptime`, although the pattern matched it |
| Policy.WhitelistedClaim | wikidata_bot_framework/__init__.py:161-171 | true when the main whitelist is off; otherwise true iff the claim's property ID is listed |
| Policy.WhitelistedQualifier | wikidata_bot_framework/__init__.py:173-189 | true when the qualifier whitelist is off; otherwise true iff the qualifier's property ID is listed |
| Policy.WhitelistedReference | wikidata_bot_framework/__init__.py:191-207 | true when the reference whitelist is off; otherwise true iff every property ID the reference contributes is listed |
| Policy.AllListed | wikidata_bot_framework/__init__.py:200-206 | true iff every ID is in the whitelist |
| Policy.CanAddMainProperty | wikidata_bot_framework/__init__.py:97-99 | true iff the property is not reference-only; its consequence, that a reference-only property never adds a statement, is `Decisions.ReferenceOnlyNeverAdds` |
| Policy.FullSummary | wikidata_bot_framework/__init__.py:76-80 | the summary is the base alone iff the edit group ID is missing or empty; otherwise it is the base, then ` ([[:toolforge:editgroups/b/CB/`, the ID and `\|details]])` |
| Policy.FullSummaryRoundTrip | wikidata_bot_framework/__init__.py:76-80 | the edit group ID can be read back from between the link's opening and closing text exactly when it is truthy |
| Policy.EditWithRetry | wikidata_bot_framework/__init__.py:713-731 | one to four attempts; success iff one of the first four attempts succeeds, and then the last attempt is the first success; failure only after four failed attempts |
| Decisions.FirstMatch | wikidata_bot_framework/__init__.py:423-425 | the first position holding the wanted target, or none iff no position holds it |
| Decisions.ScanStop | wikidata_bot_framework/__init__.py:423-494 | the scan stops at the first equal value, or at the first value when overwriting and it is unequal, or runs out exactly when there is no equal value and no overwriting |
| Decisions.ScanExisting | wikidata_bot_framework/__init__.py:423-494 | the loop over the copied list stops where `ScanStop` says |
| Decisions.LanguageCheck | wikidata_bot_framework/__init__.py:498-512 | a conflict iff some existing monolingual value has the wanted language and other text; an error iff the wanted target is not monolingual and some existing value is |
| Decisions.FindLanguageConflict | wikidata_bot_framework/__init__.py:498-512 | the loop, breaking at the first conflict, gives the outcome of `LanguageCheck` |
| Decisions.Targets | wikidata_bot_framework/__init__.py:423-425 | the target of each existing statement, or of each existing qualifier at 565-571, in order |
| Decisions.StatementDecision | wikidata_bot_framework/__init__.py:408-542 | an adopted or overwritten statement is one of the existing statements (the lemmas below state each branch) |
| Decisions.UnmatchedAction | wikidata_bot_framework/__init__.py:495-542 | with no equal and no overwritten statement, the property is skipped, added beside the others, or the language check fails |
| Decisions.AbsentPropertyDecision | wikidata_bot_framework/__init__.py:408-421 | without statements for the property, the claim is added and `missing_property` reported iff it is addable and whitelisted; otherwise the whole property is skipped |
| Decisions.AdoptFirstEqual | wikidata_bot_framework/__init__.py:423-445 | the first equal statement is adopted; its rank is copied iff the ranks differ and (whitelisted or rank copying is on) |
| Decisions.ReplaceHitsFirst | wikidata_bot_framework/__init__.py:447-494 | with overwriting on and whitelisted, an unequal first statement is overwritten; `replace_value` is reported, and `delete_values` comes last iff there were several statements and deletion is on |
| Decisions.ReplacementOnlyAtFirst | wikidata_bot_framework/__init__.py:447-452 | every overwrite is of the first statement, only for a whitelisted claim that asked for it, and only when that statement is unequal |
| Decisions.NoMatchFallthrough | wikidata_bot_framework/__init__.py:529-542 | with no equal statement and no overwriting, the skip flag skips; otherwise an addable whitelisted claim is added once beside the others, and any other is skipped |
| Decisions.LanguagePathAddsTwice | wikidata_bot_framework/__init__.py:498-540 | on the language path without a conflict the claim is added, and `missing_value` reported, twice |
| Decisions.WhitelistGate | wikidata_bot_framework/__init__.py:408-542 | a non-whitelisted claim is never added and never overwrites; an adopted statement's rank is copied only when rank copying is on |
| Decisions.ReferenceOnlyNeverAdds | wikidata_bot_framework/__init__.py:409-411 | a reference-only property never adds a statement |
| Decisions.StatementReasonsIffChange | wikidata_bot_framework/__init__.py:408-542 | the statement tier reports nothing iff it skips, fails, or adopts without a rank change; every reason it reports is a claim modification |
| Decisions.QualifierDecision | wikidata_bot_framework/__init__.py:549-660 | an overwritten qualifier is one of the existing ones under the key (the lemmas below state each branch) |
| Decisions.UnmatchedQualifierAction | wikidata_bot_framework/__init__.py:625-660 | with no equal and no overwritten qualifier, the qualifier is skipped, split off into a new statement, or appended |
| Decisions.QualifierReasons | wikidata_bot_framework/__init__.py:557-659 | the qualifier tier reports at most two reasons, each a qualifier modification or `new_claim_from_qualifier` |
| Decisions.QualifierAttachOrMissingKey | wikidata_bot_framework/__init__.py:550-567 | the qualifier is attached as missing iff the working claim has none under the key and it is permitted; the lookup fails iff the key is absent and it is not permitted |
| Decisions.EqualQualifierKept | wikidata_bot_framework/__init__.py:565-571 | an equal existing qualifier means no change and no report |
| Decisions.QualifierReplaceFirst | wikidata_bot_framework/__init__.py:573-624 | every qualifier overwrite is of the first qualifier under the key, when unequal, asked for and permitted; `delete_qualifier_values` follows `replace_qualifier_value` iff the list is collapsed |
| Decisions.MakeNewRepeats | wikidata_bot_framework/__init__.py:396-399 | after a make-new split beside the first equal statement, the next pass adopts the same statement and splits again, so only the hook's answers stop the loop |
| Decisions.MakeNewGate | wikidata_bot_framework/__init__.py:626-649 | a new statement is split off only for a whitelisted, addable property whose qualifier asks for it and finds no equal value; `new_claim_from_qualifier` is reported instead of `missing_qualifier_value` |
| Decisions.AppendIsUngated | wikidata_bot_framework/__init__.py:652-660 | a qualifier that is neither whitelisted nor on a whitelisted claim is still appended beside unequal values |
| Decisions.FirstCompatible | wikidata_bot_framework/__init__.py:663-672 | the first compatible group, or none iff no group is compatible |
| Decisions.FindCompatible | wikidata_bot_framework/__init__.py:663-687 | the loop over the copied groups stops at the group `FirstCompatible` gives |
| Decisions.ReferenceDecision | wikidata_bot_framework/__init__.py:661-703 | a merge, or a `KeyError` from one, is about one of the existing groups, and the error only comes from a loaded group (see `ReferenceOutcomes`) |
| Decisions.ReferenceReasons | wikidata_bot_framework/__init__.py:677-699 | at most one reason, and it is a reference modification |
| Decisions.ReferenceOutcomes | wikidata_bot_framework/__init__.py:661-703 | unpermitted: nothing changes; permitted with no compatible group: exactly one new group is appended and `missing_reference` reported; otherwise the first compatible group is merged into. If that group was loaded from the server and lacks a contributed property ID, `KeyError` is raised with nothing changed or reported. Otherwise only that group changes, and `merged_reference` is reported iff the merge added a property, i.e. iff the groups changed |
| Decisions.UnchangedMergeIsSilent | wikidata_bot_framework/__init__.py:673-687 | a merge that adds nothing leaves the groups as they were and is not reported |
| Decisions.CompatibleAfterMerge | wikidata_bot_framework/dataclasses.py:172-184 | a group stays compatible after references are merged into it |
| Decisions.FirstCompatibleAfterMerge | wikidata_bot_framework/__init__.py:663-687 | after a merge into the first compatible group, it is still the first compatible one |
| Decisions.RemergeIsNoOp | wikidata_bot_framework/__init__.py:661-703 | handling the same desired reference again merges into the same group, adds nothing and reports nothing |
| Decisions.ReferenceTrace | wikidata_bot_framework/__init__.py:661-703 | after `n` desired references the groups grew by at most `n`, and at most `n` reasons, all reference modifications, were reported |
| Decisions.ReferenceTraceStep | wikidata_bot_framework/__init__.py:661-703 | the same bounds after one more desired reference |
| Decisions.ReferenceTraceUnfold | wikidata_bot_framework/__init__.py:661-703 | until `KeyError` is raised, each desired reference is decided on the groups the earlier ones left, its reasons follow theirs, and it raises iff its action does; once raised, a further reference changes nothing |
| Decisions.RaisedTraceStays | wikidata_bot_framework/utils.py:38 | after a `KeyError` from a merge the groups, the reports and the error stay fixed: the tier has stopped |
| Decisions.LocalReferencesNeverRaise | wikidata_bot_framework/utils.py:18-21 | a statement with no loaded groups (one built locally) never raises `KeyError` in the reference tier |
| Engine.ViewsOf | wikidata_bot_framework/__init__.py:423-427 | the target and rank of each existing statement, in order |
| Engine.ExistingOf | wikidata_bot_framework/__init__.py:408 | the statements are present iff the property is in the entity's claims, one view per statement |
| Engine.Rebound | wikidata_bot_framework/__init__.py:597-599 | rebinding one desired qualifier's claim keeps the keys and list lengths |
| Engine.Bot.constructor | wikidata_bot_framework/__init__.py:355-387 | the bot starts with its configuration, the hook's answers, and no hook calls |
| Engine.Bot.AnsweredSplit | wikidata_bot_framework/__init__.py:414-418 | a run of hook calls asked for another pass iff one of its two parts did (`re_cycle |=` accumulates) |
| Engine.Bot.ProcessedHook | wikidata_bot_framework/__init__.py:355-387 | the call is recorded with its reason, and the answer is the oracle's answer for that call |
| Engine.Bot.Report | wikidata_bot_framework/__init__.py:414-418 | `re_cycle |= processed_hook(...)`: the reason is recorded, and `re_cycle` becomes true iff it was true or the hook asked for another pass |
| Engine.Bot.StatementTier | wikidata_bot_framework/__init__.py:408-542 | the action is `StatementDecision` on the statements before, exactly its reasons are reported in order, and the entity, the working claim and the touched statement change as the action says and no more |
| Engine.Bot.ExistingStatementTier | wikidata_bot_framework/__init__.py:422-542 | the same, when the property already has statements |
| Engine.Bot.AdoptStatement | wikidata_bot_framework/__init__.py:423-445 | the equal statement becomes the working claim; only its rank may change, to the desired rank, and `different_rank` is reported iff it does; no statement is added |
| Engine.Bot.ReplaceStatement | wikidata_bot_framework/__init__.py:447-494 | the first statement takes the desired target (and rank) and becomes the working claim; `different_rank`, `replace_value` and `delete_values` are reported in that order as the decision says, and the list becomes that one statement iff there were several and deletion is on |
| Engine.Bot.AddParallelStatement | wikidata_bot_framework/__init__.py:495-542 | the desired claim is added beside the others once, or twice on the language path, each with `missing_value`, or the property is skipped, as `UnmatchedAction` says |
| Engine.Bot.QualifierStep | wikidata_bot_framework/__init__.py:548-660 | the action is `QualifierDecision` on the working claim's qualifiers, exactly its reasons are reported, and the working claim, the original claim, the entity and the desired qualifiers change as the action says |
| Engine.Bot.ScannedQualifierStep | wikidata_bot_framework/__init__.py:565-660 | the same, when the key already holds qualifiers |
| Engine.Bot.ReplaceQualifierStep | wikidata_bot_framework/__init__.py:573-624 | the existing qualifier takes the desired target; the list collapses to it iff it had several and deletion is on; the desired qualifier is rebound to it |
| Engine.Bot.UnmatchedQualifierStep | wikidata_bot_framework/__init__.py:625-660 | skip, append beside the others with `missing_qualifier_value`, or re-add the original claim with the qualifier attached and `new_claim_from_qualifier` reported, as `UnmatchedQualifierAction` says |
| Engine.Bot.QualifierTier | wikidata_bot_framework/__init__.py:543-660 | every report is a qualifier modification or `new_claim_from_qualifier`; the desired qualifiers keep their keys and list lengths; the references are untouched |
| Engine.Bot.ReferenceStep | wikidata_bot_framework/__init__.py:662-703 | the action is `ReferenceDecision` on the groups before; the groups become `ApplyReference` of it, its reasons are reported, and target, rank and qualifiers are unchanged |
| Engine.Bot.MergeReference | wikidata_bot_framework/__init__.py:672-687 | `KeyError` (with nothing changed or reported) iff group `i` was loaded from the server and the desired reference adds a property to it; otherwise group `i` is merged into, and `merged_reference` is reported iff the merge added a property |
| Engine.Bot.ReferenceTierStep | wikidata_bot_framework/__init__.py:661-703 | one more desired reference: the groups, the log and the `KeyError` follow `ReferencesApplied`, `ReferencesReported` and `ReferencesRaised` |
| Engine.Bot.ReferenceLoop | wikidata_bot_framework/__init__.py:661-703 | after the loop, which stops at the first `KeyError`, the groups, the reports and the error are those of every desired reference in turn |
| Engine.Bot.ReferenceTier | wikidata_bot_framework/__init__.py:661-703 | the reference tier for the property's desired references, in order: the groups, the reports and the `KeyError` are those of `ReferencesApplied`, `ReferencesReported` and `ReferencesRaised` |
| Engine.Bot.ProcessProperty | wikidata_bot_framework/__init__.py:400-703 | `ValueError` is raised iff de-archiving is on, the target is a URL and its archive timestamp is not a date, and then nothing is reported; `re_cycle` accumulates the hook's answers; the API error never comes from here |
| Engine.Bot.PropertyTiers | wikidata_bot_framework/__init__.py:408-703 | only `AttributeError` (language check, with nothing reported) or `KeyError` (qualifier lookup, or a merge into a loaded reference group) can escape; `re_cycle` accumulates the hook's answers |
| Engine.Bot.AnsweredShrinks | wikidata_bot_framework/__init__.py:397-399 | the hook's remaining answers never grow, and shrink after a call that asked for another pass |
| Engine.Bot.PassEntry | wikidata_bot_framework/__init__.py:401-703 | one output key: `re_cycle` is true iff a hook call asked for another pass |
| Engine.Bot.Pass | wikidata_bot_framework/__init__.py:399-703 | one pass over the output: `re_cycle` is true iff a hook call asked for another pass |
| Engine.Bot.Passes | wikidata_bot_framework/__init__.py:396-703 | the pass body runs at least once, exactly once when no hook asks for another pass, and at most once more than the hook has answers |
| Engine.Bot.Process | wikidata_bot_framework/__init__.py:389-736 | at least one pass, exactly one if every hook answers false; `acted` iff some change was reported or the post-output hook returned true; no edit when nothing acted; otherwise one to four attempts, ending at the first success, and the API error only after four failures |

## Left out

- Telemetry: the Sentry spans and transactions, and `wikidata_bot_framework/sentry.py`. They have no effect on the entity.
- Network and site setup: the requests session and the pywikibot site. Only the property-ID constants are modelled.
- `item.editEntity` is an oracle on the attempt number. The summary it is given is not passed in `Engine.Bot.Process`. `Policy.FullSummary` models it separately.
- The clock: `pywikibot.Timestamp.now` is the parameter `today`.
- `processed_hook` and `post_output_process_hook` are oracles. The pre- and post-edit hooks have no modelled effect.
- The hook's `item`, `claim`, `qualifier`, `reference` and `context` arguments are not passed. The `@overload` stubs and the TypedDict context shapes are type-level only.
- `url_match_pattern.match` is an abstract predicate on strings. The de-archiving pattern is modelled as a literal scan, with its unescaped `.` accepting any character but a newline.
- `claim.type == "url"` is read off the target (a `Url` value).
- `Claim.qualifiers` and a reference group are unordered maps from property ID to a list. In pywikibot they are insertion-ordered dictionaries, and `add_qualifier_locally`, `append_to_source` and `merge_reference_groups` on a locally built group (`wikidata_bot_framework/utils.py:15,28,38`) put a new key last. The model keeps the order of the claims under each key but not the order of the keys, so the order in which qualifier and reference properties are written back is not captured.
- Qualifier and reference claims are values, so the model does not capture their aliasing. A qualifier claim is shared between a desired qualifier and a statement after it is attached; the model copies it instead. Main statements are objects, and their aliasing is modelled.
- `is_compatible_reference` and the reference tier read a value snapshot (`ReferenceSpec`) of each `ExtraReference`. The tier never changes a desired reference, so the snapshot is exact.
- `acted` is derived from the hook log: it is true iff a hook call happened during the passes, or the post-output hook returned true. Every `acted = True` in the passes goes with a `processed_hook` call, and every call goes with `acted = True`.
- Crash bugs are modelled as intended. `datetime.strptime` at transformers.py:23 is called on the module, which raises `AttributeError`; the model parses as `datetime.datetime.strptime` would. `self.new_claim_was_added(self)` and `self.new_qualifier_was_added(self)` pass `self` twice; the model follows the docstrings. `qualifier.claim` and `reference.claim` in the whitelists name fields the objects do not have; the model reads the qualifier's property ID and every property ID the reference contributes.
- `ExtraProperty.add_qualifiers` and the `add_qualifier(s)_with_*` shortcuts, `from_property_id_and_values` and the `*_item_id_value(s)` constructors: they only call the modelled `add_qualifier` and `from_property_id_and_value`.
- `act_on_item` and `feed_items` are thin drivers around `run_item` and `process`.
- `get_entity_id_from_entity_url` and `resolve_multiple_property_claims` are not part of this model.
- Engine.Bot.QualifierTier: states the kinds of reports and the shape of the desired qualifiers, not the composed effect of its steps on the claims. `Engine.Bot.QualifierStep` states each step's effect.
- Engine.Bot.ProcessProperty: states the error classification and the `re_cycle` relation only. The per-tier methods state what changes.
- Engine.Bot.PropertyTiers: states the error classification and the `re_cycle` relation only, for the same reason.
- Engine.Bot.PassEntry: states the error classification and the `re_cycle` relation only, not the claims and working claims it changes. The per-tier methods state those.
- Engine.Bot.Pass: states the error classification and the `re_cycle` relation only, for the same reason.
- Engine.Bot.Passes: states the pass count and the error classification, not the resulting claims, for the same reason.
- Engine.Bot.Passes: the hook's answers are a finite list, so the model cannot express a hook that answers true forever, such as `CycleTestBot.processed_hook` (`tests/cycle_prevent_test.py:15-16`). Under such a hook `process` need not terminate. A make-new qualifier that conflicts with the first equal statement is split off again on every pass (`Decisions.MakeNewRepeats`), so a hook that asks for another pass whenever a new claim was added, as the `processed_hook` docstring suggests (`wikidata_bot_framework/__init__.py:373-385`), keeps the loop running and adds one more statement each pass.
- Engine.Bot.Process: states the pass count, `acted` and the retry, not the final claims. The per-tier methods state those.

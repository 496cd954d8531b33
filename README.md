# Wikipedia/Wikidata link-issue detector, modelled in Dafny

This project models `WikimediaLinkIssueDetector` from `wikibrain/wikimedia_link_issue_reporter.py`.
The detector looks at the tags of one OpenStreetMap object: its `wikipedia` and `wikidata` tags,
its old-style `wikipedia:xx` keys, its object type, and optionally its location.
It returns at most one error report: the most important problem with how the object links to Wikipedia and Wikidata.

The model is a decision pipeline over the tag list. It is split into modules that follow the detector's parts:

- `Model`: the tags and the error report. A report carries its error id, its prerequisite tag map, the desired `wikipedia` target, the proposed `{from, to}` tag changes and the extra data. The module also holds the detector's configuration and the `Outcome` of a check, which is a report, "nothing to report", or an exception that escapes.
- `Gateway`: every call into `wikimedia_connection`, `wikidata_processing` and the language list of `wikipedia_knowledge`, plus the order in which Python lists a set. It is a record of lookup functions passed to every check, like one cached snapshot of Wikipedia and Wikidata.
- `LinkSyntax` and `Validators`: splitting `lang:Title` at the first colon, and the syntactic checks of tag values and old-style keys.
- `Tables`: the blacklist of entities that have an obvious secondary-tag replacement, the reason table for unlinkable types, the mappable types, and the countries in which an expected language is enforced.
- `Interwiki`: `get_best_interwiki_link_by_id`, a first-match search over the preferred languages followed by all languages.
- `OldStyle`: the migration of old-style keys. It detects and validates them, builds the candidate links, normalises them to one Wikidata id and chooses among the three conversion reports.
- `Collision`: a `wikidata` tag that disagrees with the `wikipedia` article, and the two redirects that explain such a disagreement.
- `WikidataChecks`: the per-tag checks. It covers malformed and dangling tags, the blacklist, the type- and property-based checks that ask for a secondary tag, the headquarters test, dissolved objects and the missing-tag derivation.
- `Language`: the check for an article in an unexpected language, and the excuse of an entity that lies partly in a country where that language is not enforced.
- `Detector`: the pipeline itself. The deletion guard comes first. Then come the structural stage, the freely reorderable stage and the derivation stage, and the first stage with something to report decides.

The loops of the source are methods proved equal to the functions that specify them:

- collecting old-style keys;
- building the candidate list;
- `normalized_id`;
- the best-interwiki search;
- the country filter;
- filling the conversion's dictionaries.

The link helpers `get_language_code_from_link`, `get_article_name_from_link` and `get_text_after_first_colon` live in `wikimedia_connection`, which is not part of this model. The model assumes they split at the first colon and give `None` when there is no colon.

Python lists a set in an order of its own, set by the strings' hashes. `list(set(...))` in the candidate search is therefore modelled with the gateway's `setOrder` oracle, and the conversion normalises the candidates in that order, as the code does.

## Model

| member | source | states |
|---|---|---|
| `Model.Get` | wikibrain/wikimedia_link_issue_reporter.py:93 | `tags.get(key)`: present exactly when some tag has the key, and then the value of such a tag |
| `Model.GetOfUniqueKeys` | wikibrain/wikimedia_link_issue_reporter.py:93 | for a tag dict (no key twice), `tags.get(key)` is `value` exactly when the dict holds `key=value` |
| `Model.FirstOf` | wikibrain/wikimedia_link_issue_reporter.py:66-82 | a result other than `None` from an earlier check is returned; otherwise the next check's result is |
| `LinkSyntax.BeforeFirstColon` | wikibrain/wikimedia_link_issue_reporter.py:103 | the language part is absent exactly when there is no colon; otherwise it is colon-free and followed by a colon in the link |
| `LinkSyntax.AfterFirstColon` | wikibrain/wikimedia_link_issue_reporter.py:104 | the article part is absent exactly when there is no colon; language, colon and article rebuild the link |
| `LinkSyntax.SplitOfJoin` | wikibrain/wikimedia_link_issue_reporter.py:1022 | joining a colon-free language and a title with `:` splits back into the same two parts |
| `LinkSyntax.OldStyleMarkerHasColon` | wikibrain/wikimedia_link_issue_reporter.py:758 | a key that holds `wikipedia:` has a colon, so its text after the first colon exists (used at line 871) |
| `LinkSyntax.AllDigitsMeaning` | wikibrain/wikimedia_link_issue_reporter.py:982 | `^\d+\Z` matches exactly the non-empty strings of digits |
| `LinkSyntax.AllLowercaseMeaning` | wikibrain/wikimedia_link_issue_reporter.py:1005 | `^[a-z]+\Z` matches exactly the non-empty strings of lower-case letters |
| `LinkSyntax.StripSection` | wikibrain/wikimedia_link_issue_reporter.py:909-911 | the stripped title holds no `#`, is the title itself when there is no `#`, and otherwise is followed by `#` in the title |
| `Validators.IsWikidataTagClearlyBroken` | wikibrain/wikimedia_link_issue_reporter.py:975-984 | broken exactly when the value is missing, shorter than 2, does not start with `Q`, or has a non-digit after the `Q` |
| `Validators.IsLanguageCodeClearlyBroken` | wikibrain/wikimedia_link_issue_reporter.py:997-1009 | broken exactly when the code is missing, longer than 3, empty, not all `[a-z]`, or not a known code |
| `Validators.IsArticleNameClearlyBroken` | wikibrain/wikimedia_link_issue_reporter.py:986-995 | broken exactly when the title starts with some known language code followed by a colon |
| `Validators.IsWikipediaTagClearlyBroken` | wikibrain/wikimedia_link_issue_reporter.py:966-973 | broken exactly when the link has no colon, its language part is broken, or its article part is broken |
| `Validators.WellFormedWikipediaTag` | wikibrain/wikimedia_link_issue_reporter.py:966-1009 | a link that passes is `lang:title` with `lang` a known code of 1 to 3 lower-case letters and a title that does not start with a code |
| `Validators.IsValidOldStyleKey` | wikibrain/wikimedia_link_issue_reporter.py:783-787 | a key is valid exactly when it is `wikipedia:` followed by a known language code |
| `Tables.BlacklistPrefix` | wikibrain/wikimedia_link_issue_reporter.py:621-627 | a prefix exists exactly when the id is present and blacklisted (a `None` id or an unlisted one hits the `KeyError`), and it is that entry's prefix |
| `Tables.RepeatedBlacklistKeysKeepLastEntry` | wikibrain/wikimedia_link_issue_reporter.py:182-618 | the repeated keys Q701755, Q26070 and Q9584 keep their last entry, as a Python dict literal does |
| `Tables.BlacklistPrefixes` | wikibrain/wikimedia_link_issue_reporter.py:182-618 | every blacklist entry names a `brand:`, `operator:`, `former_operator:` or `species:` replacement |
| `Tables.UnlinkableTypeReason` | wikibrain/wikimedia_link_issue_reporter.py:1148-1185 | a reason exists exactly for the listed type ids; a replacement prefix is `name:`, `brand:` or `subject:`; a human (Q5) asks for `name:` |
| `Tables.IsTypeRecognisedAsOk` | wikibrain/wikimedia_link_issue_reporter.py:1326-1361 | true exactly when some mappable type has the id |
| `Tables.CountriesWithLanguageAsWritten` | wikibrain/wikimedia_link_issue_reporter.py:1363-1379 | a country list exists exactly for `pl`, `de`, `cz` and `en`; any other code fails the assertion |
| `Tables.CzechListIsKeyedByCountryCode` | wikibrain/wikimedia_link_issue_reporter.py:1368-1369 | as written, Czech (`cs`) has no list, while the country code `cz` has Czechia's |
| `Tables.CountriesWithLanguage` | wikibrain/wikimedia_link_issue_reporter.py:1363-1379 | the corrected table: a list exists exactly for `pl`, `de`, `cs` and `en`; `cs` gives Czechia; the other codes agree with the table as written |
| `Interwiki.FirstInterwikiLinkIsFirstMatch` | wikibrain/wikimedia_link_issue_reporter.py:691-697 | no link exactly when no language has an article; otherwise the link is `lang:title` for the first language that has one |
| `Interwiki.BestInterwikiLink` | wikibrain/wikimedia_link_issue_reporter.py:691-697 | no link exactly when no language has an article; otherwise `lang:title` for the first language, preferred languages before all languages, that has one |
| `Interwiki.GetBestInterwikiLinkById` | wikibrain/wikimedia_link_issue_reporter.py:691-697 | the early-return loop returns the best interwiki link |
| `OldStyle.OldStyleWikipediaKeys` | wikibrain/wikimedia_link_issue_reporter.py:755-760 | the keys listed are exactly the tag keys holding `wikipedia:`; each is a key of the tags and has a colon |
| `OldStyle.CollectOldStyleWikipediaKeys` | wikibrain/wikimedia_link_issue_reporter.py:755-760 | the appending loop gives exactly the old-style keys, in tag order |
| `OldStyle.FirstInvalidOldStyleKey` | wikibrain/wikimedia_link_issue_reporter.py:774-776 | none exactly when every key is valid; otherwise the first invalid key, with only valid keys before it |
| `OldStyle.InvalidOldStyleKeyReport` | wikibrain/wikimedia_link_issue_reporter.py:773-781 | a report exactly when some key is invalid; its id is "invalid old-style wikipedia tag" and its prerequisite is the first invalid key with its value, every key before it being valid |
| `OldStyle.CandidateLinks` | wikibrain/wikimedia_link_issue_reporter.py:868-884 | one candidate per key |
| `OldStyle.CandidateOfEachKey` | wikibrain/wikimedia_link_issue_reporter.py:868-884 | the candidate of each key is its entity's best link, or its own `lang:title` when there is no entity or no link |
| `OldStyle.WikipediaCandidates` | wikibrain/wikimedia_link_issue_reporter.py:868-885 | the loop and `list(set(...))` give the candidates as the set lists them |
| `OldStyle.SetListing` | wikibrain/wikimedia_link_issue_reporter.py:885 | `list(set(s))` holds each element of `s` once and nothing else |
| `OldStyle.SetListingFollowsSetOrder` | wikibrain/wikimedia_link_issue_reporter.py:885 | when the interpreter's order lists the set, `list(set(s))` is exactly that order |
| `OldStyle.NormalizedIdAsWritten` | wikibrain/wikimedia_link_issue_reporter.py:789-799 | `None` when a link is `None`; the wikidata id for no links; on success every link's id is `None` or the result, and with a wikidata tag every link's id is the result |
| `OldStyle.NormalizedIdLoop` | wikibrain/wikimedia_link_issue_reporter.py:789-799 | the loop with its running id computes `normalized_id` as written |
| `OldStyle.NormalizedIdAsWrittenDependsOnOrder` | wikibrain/wikimedia_link_issue_reporter.py:789-799 | two candidates give an id in one order and `None` in the other |
| `OldStyle.NormalizedIdAsWrittenMeaning` | wikibrain/wikimedia_link_issue_reporter.py:789-799 | links that all resolve to one id (the `wikidata` tag's, if any) give it; any result is compatible with every link; when every link resolves, a result exists exactly when all agree |
| `OldStyle.NormalizedId` | wikibrain/wikimedia_link_issue_reporter.py:789-799 | corrected: a result means every link is present, resolves to it, and the wikidata tag (if any) is it |
| `OldStyle.ResolvedNormalization` | wikibrain/wikimedia_link_issue_reporter.py:789-799 | when every link resolves, the code as written yields an id exactly when all links and the tag agree on it |
| `OldStyle.NormalizedIdMeaning` | wikibrain/wikimedia_link_issue_reporter.py:789-799 | the corrected normalisation yields `id` if and only if all links and the wikidata tag agree on `id` |
| `OldStyle.NormalizedIdIgnoresOrder` | wikibrain/wikimedia_link_issue_reporter.py:789-799 | the corrected normalisation depends only on which links occur |
| `OldStyle.NormalizedIdAgreesWhenResolved` | wikibrain/wikimedia_link_issue_reporter.py:789-799 | when every link resolves, the corrected normalisation equals the code as written |
| `OldStyle.OldStylePrerequisiteMeaning` | wikibrain/wikimedia_link_issue_reporter.py:807-811 | the prerequisite holds `wikidata`, `wikipedia` and every old-style key, each with its value in the tags |
| `OldStyle.ConvertOldStyleWikipediaTags` | wikibrain/wikimedia_link_issue_reporter.py:801-838 | one of the three conversion reports, with the prerequisite of both tags and every old-style key |
| `OldStyle.ConversionReports` | wikibrain/wikimedia_link_issue_reporter.py:801-838 | Links that agree on one entity are never a mismatch. Links naming two entities, or another entity than the `wikidata` tag, always are. When every link resolves, a mismatch happens exactly when the links disagree. A mismatch proposes nothing. Without a `wikipedia` tag, `{wikipedia: None} -> {wikipedia: best link of the entity}` is proposed. Otherwise the removal of exactly the old-style keys is proposed |
| `OldStyle.UnresolvedCandidateBeforeWikipediaTag` | wikibrain/wikimedia_link_issue_reporter.py:789-838 | with no `wikidata` tag, links `[candidate without entity, wikipedia tag with entity]` make the code as written propose removing the old-style keys, where the corrected normalisation reports a mismatch |
| `OldStyle.CopyTags` | wikibrain/wikimedia_link_issue_reporter.py:810-811 | the loop adds each key with its tag value to the dictionary |
| `OldStyle.ConvertOldStyleWikipediaTagsLoop` | wikibrain/wikimedia_link_issue_reporter.py:801-838 | the step-by-step conversion, with normalized_id's loop over the candidates in set order, builds the report of the conversion function |
| `OldStyle.BuildConversionReport` | wikibrain/wikimedia_link_issue_reporter.py:814-838 | the three branches after normalisation, with the removal dictionary filled by a loop |
| `OldStyle.IntendedConversionIgnoresSetOrder` | wikibrain/wikimedia_link_issue_reporter.py:789-838 | with the corrected normalisation, the conversion's report is the same whatever order Python lists the candidate set in |
| `OldStyle.OldStyleStepReports` | wikibrain/wikimedia_link_issue_reporter.py:762-771 | the step reports exactly when some key holds `wikipedia:`, never raises, reports one of four ids, reports an invalid key exactly when one exists, and otherwise gives the conversion's report |
| `OldStyle.RemoveOldStyleWikipediaTags` | wikibrain/wikimedia_link_issue_reporter.py:762-771 | never raises; nothing exactly when there is no old-style key; an invalid key is reported exactly when one exists, before any conversion; with only valid keys the conversion's report is the answer |
| `Collision.WikipediaWikidataCollision` | wikibrain/wikimedia_link_issue_reporter.py:905-957 | Nothing is reported without a `wikidata` tag or when it equals the id of the section-stripped article. The wikidata redirect is followed exactly when it leads to that id. Otherwise the article redirect is followed exactly when a section-free title redirects to an article of the tagged entity. Only that report proposes a change |
| `Collision.FollowingWikipediaRedirectResolvesCollision` | wikibrain/wikimedia_link_issue_reporter.py:905-943 | applying the proposed redirect fix (to a title without `#`) leaves nothing to report |
| `WikidataChecks.MalformedWikidataReport` | wikibrain/wikimedia_link_issue_reporter.py:661-669 | "malformed wikidata tag" exactly when the value is shorter than 2, does not start with `Q`, or has a non-digit after it; prerequisite `{wikidata: value}` |
| `WikidataChecks.MissingWikidataPageReport` | wikibrain/wikimedia_link_issue_reporter.py:640-649 | "wikidata tag links to 404" exactly when the entity does not exist |
| `WikidataChecks.MalformedWikipediaReport` | wikibrain/wikimedia_link_issue_reporter.py:651-659 | "malformed wikipedia tag" exactly when the link is clearly broken |
| `WikidataChecks.MissingWikipediaPageReport` | wikibrain/wikimedia_link_issue_reporter.py:681-689 | "wikipedia tag links to 404" exactly when Wikidata knows no such page and the page is missing. The article entity's best link is proposed as the replacement |
| `WikidataChecks.MissingWikidataTagReport` | wikibrain/wikimedia_link_issue_reporter.py:671-679 | "wikidata from wikipedia tag" exactly when there is no `wikidata` tag and an id was derived; prerequisite pins `wikidata` as absent; no change is proposed |
| `WikidataChecks.BlacklistReport` | wikibrain/wikimedia_link_issue_reporter.py:621-638 | a report exactly when the id (or, if it is `None`, the present id) is blacklisted; the extra data is that entry's prefix |
| `WikidataChecks.UnusableTypeReport` | wikibrain/wikimedia_link_issue_reporter.py:1187-1214 | "link to an unlinkable article" exactly when some type is a disambiguation page, a list or an overview article |
| `WikidataChecks.FirstUnlinkableReason` | wikibrain/wikimedia_link_issue_reporter.py:1141-1146 | no reason exactly when no type is in the reason table; otherwise the first such type's reason |
| `WikidataChecks.SecondaryTagNeededReport` | wikibrain/wikimedia_link_issue_reporter.py:1125-1146 | "should use a secondary wikipedia tag" exactly when a type is in the reason table or the entity has P247 or P279 |
| `WikidataChecks.AnyHeadquartersFar` | wikibrain/wikimedia_link_issue_reporter.py:1277-1281 | true exactly when some headquarters with a known location is farther than 20 km |
| `WikidataChecks.HeadquartersReport` | wikibrain/wikimedia_link_issue_reporter.py:1271-1283 | a secondary-tag report exactly when real coordinates are given, P159 exists and some headquarters lies farther than 20 km |
| `WikidataChecks.BaseTypeProblem` | wikibrain/wikimedia_link_issue_reporter.py:1243-1255 | any report is an unlinkable-article or secondary-tag report with prerequisite `{wikidata: id}` |
| `WikidataChecks.WikidataProblem` | wikibrain/wikimedia_link_issue_reporter.py:1229-1241 | entities without base types are not checked |
| `WikidataChecks.WikidataProblemPrecedence` | wikibrain/wikimedia_link_issue_reporter.py:1243-1255 | an unusable type wins; otherwise a secondary-tag reason; otherwise, with a location, the headquarters test |
| `WikidataChecks.WikidataElementProblem` | wikibrain/wikimedia_link_issue_reporter.py:1216-1224 | nothing without an id; otherwise the wikidata-based checks |
| `WikidataChecks.NoLocationActsAsBlank` | wikibrain/wikimedia_link_issue_reporter.py:1216-1283 | without a location the wikidata-based checks answer as for the `(None, None)` position |
| `WikidataChecks.NoLongerExistingReport` | wikibrain/wikimedia_link_issue_reporter.py:715-725 | "no longer existing object" exactly when the entity has a P576 statement |
| `Language.CurrentCountries` | wikibrain/wikimedia_link_issue_reporter.py:1412-1424 | the countries kept are exactly those of statements without an end time |
| `Language.CurrentCountriesOfFirstClaim` | wikibrain/wikimedia_link_issue_reporter.py:1412-1424 | the countries keep statement order: those of the first statement (unless it has an end time) come before those of the rest |
| `Language.CountryLocation` | wikibrain/wikimedia_link_issue_reporter.py:1408-1425 | `None` exactly without P17 statements; otherwise exactly the countries of statements without an end time |
| `Language.GetCountryLocation` | wikibrain/wikimedia_link_issue_reporter.py:1408-1425 | the appending loop gives the current countries, or `None` without P17 |
| `Language.FirstForeignCountry` | wikibrain/wikimedia_link_issue_reporter.py:1396-1398 | none exactly when every country is enforced; otherwise the first one that is not |
| `Language.FirstForeignCurrentCountry` | wikibrain/wikimedia_link_issue_reporter.py:1396-1398 | the first foreign country of an entity is `c` exactly when the first P17 statement without an end time that names a country outside the enforced list names `c` |
| `Language.WhyAllowedForeignLanguage` | wikibrain/wikimedia_link_issue_reporter.py:1383-1406 | Excused without an entity or without an expected language. The table's assertion fails exactly for an expected language the table (keyed `pl`, `de`, `cz`, `en`) lacks. No excuse for an entity wholly inside enforcing countries or without country data. Otherwise the first current country outside the enforced list excuses it: by id without an English label, by label unless it is Q7318 |
| `Language.CountryReasonIsFirstForeignCountry` | wikibrain/wikimedia_link_issue_reporter.py:1396-1405 | a country excuse names the first country outside the enforced list, by id when it has no English label and by label otherwise |
| `Language.Q7318IsNoExcuse` | wikibrain/wikimedia_link_issue_reporter.py:1402-1404 | a named Q7318 as the first foreign country gives no excuse |
| `Language.WikipediaLanguageIssues` | wikibrain/wikimedia_link_issue_reporter.py:1011-1050 | Nothing without an expected language, without a link, when the link already uses the expected language, or when it is excused. A report means no excuse. A link in another language without an excuse is reported: with the expected-language article as target when it exists, and otherwise exactly when both permissions are given. A `TypeError` or `AssertionError` escapes exactly when the link has no colon or the language is unknown |
| `Detector.WikidataStructuralIssue` | wikibrain/wikimedia_link_issue_reporter.py:93-100 | malformed exactly when the value is broken; nothing exactly when there is no tag or it is well-formed and exists |
| `Detector.WikipediaStructuralIssue` | wikibrain/wikimedia_link_issue_reporter.py:102-117 | Nothing without a link. Malformed exactly when the link is broken. "Links to 404" exactly when it is well-formed and its page is missing. Otherwise the collision check answers |
| `Detector.ShouldBeDeletedNotRepaired` | wikibrain/wikimedia_link_issue_reporter.py:1436-1441 | for a tag dict, true exactly for a relation tagged `type=person` or an object tagged `historic=battlefield` |
| `Detector.NoOldStyleKeysIsEmptyKeyList` | wikibrain/wikimedia_link_issue_reporter.py:89-91 | no tag key holds `wikipedia:` exactly when `get_old_style_wikipedia_keys` lists no key, the test the derivation stage makes at lines 129 and 133 |
| `Detector.StructuralIssue` | wikibrain/wikimedia_link_issue_reporter.py:84-119 | never raises; reports only structural ids |
| `Detector.StructuralStageOrder` | wikibrain/wikimedia_link_issue_reporter.py:84-119 | the order is old-style keys, malformed `wikidata`, dangling `wikidata`, malformed `wikipedia`, dangling `wikipedia`, collision; each fires exactly when all before it are silent, and the collision check's answer is the stage's after them |
| `Detector.MalformedWikidataIsStructural` | wikibrain/wikimedia_link_issue_reporter.py:89-96 | the structural stage reports a malformed `wikidata` value exactly when there is no old-style key and the value is broken |
| `Detector.EffectiveWikipedia` | wikibrain/wikimedia_link_issue_reporter.py:139-143 | the `wikipedia` tag when present, and otherwise the best interwiki link of the `wikidata` tag's entity; none exactly when the tag is absent and the entity has an article in no language |
| `Detector.EffectiveWikidata` | wikibrain/wikimedia_link_issue_reporter.py:145-149 | the `wikidata` tag when present, and otherwise the entity of the `wikipedia` link; none exactly when the tag is absent and the link has no known entity |
| `Detector.ReorderableIssue` | wikibrain/wikimedia_link_issue_reporter.py:151-175 | reports only blacklist, wikidata-based, language or dissolved-object ids; only the language check can raise |
| `Detector.ReorderableStageOrder` | wikibrain/wikimedia_link_issue_reporter.py:151-175 | the order is blacklist, wikidata-based checks, language, dissolved object; each answers exactly when all before it are silent; the blacklist answers exactly for a blacklisted effective id |
| `Detector.WikipediaFromWikidataReport` | wikibrain/wikimedia_link_issue_reporter.py:840-866 | The entity's own problems come first. Otherwise the best link is proposed as `{wikipedia: None} -> {wikipedia: link}`, plain exactly when its language is preferred. Nothing exactly when there is neither a problem nor a link |
| `Detector.DeriveIssue` | wikibrain/wikimedia_link_issue_reporter.py:121-137 | "wikidata from wikipedia tag" exactly when `wikidata` is absent and the link's id is known. Anything else comes from `wikidata` alone, with no `wikipedia` tag and no old-style key. Without a `wikipedia` tag, a `wikidata` tag and no old-style key give the wikipedia-from-wikidata answer; otherwise nothing is derived |
| `Detector.MostImportantProblem` | wikibrain/wikimedia_link_issue_reporter.py:66-82 | person relations and battlefields get nothing; a report has a structural, reorderable or derived id; an exception is the language check's, and needs an expected language |
| `Detector.ProblemForGivenTags` | wikibrain/wikimedia_link_issue_reporter.py:62-64 | the pipeline without a location answers as for an object at the `(None, None)` position (see Left out, WikidataChecks.UnusableTypeReport) |
| `Detector.OnlyDerivationGives` | wikibrain/wikimedia_link_issue_reporter.py:66-82 | an id the first two stages cannot give is the answer exactly when the derivation stage gives it after both are silent |
| `Detector.StagePrecedence` | wikibrain/wikimedia_link_issue_reporter.py:66-82 | person relations and battlefields get nothing; otherwise the first stage with a result decides |
| `Detector.MalformedWikidataReported` | wikibrain/wikimedia_link_issue_reporter.py:66-119 | "malformed wikidata tag" is the answer exactly when the object is not left alone, has no old-style key and its `wikidata` value is broken |
| `Detector.WikidataFromWikipediaReported` | wikibrain/wikimedia_link_issue_reporter.py:66-137 | that answer implies no `wikidata` tag and a known id of the `wikipedia` link, with `wikidata: None` in the prerequisite; after silent earlier stages those conditions give it |
| `Detector.DerivedWikipediaIsBestLink` | wikibrain/wikimedia_link_issue_reporter.py:121-137 | a derived `wikipedia` proposal is made only without a `wikipedia` tag and is the entity's best link |
| `Detector.WikipediaFromWikidataReported` | wikibrain/wikimedia_link_issue_reporter.py:66-137 | either "wikipedia from wikidata" answer means no `wikipedia` tag, a `wikidata` tag, and the entity's best link as target |
| `Detector.NoFailureWithoutExpectedLanguage` | wikibrain/wikimedia_link_issue_reporter.py:1018-1019 | with no expected language the detector never raises |

## Left out

- Messages (`error_message`) and their helpers (`should_use_subject_message`, `compare_wikidata_ids`, the disambiguation fix list and the distance wording) are not modelled. Every report keeps its id, prerequisite, desired target, proposed changes and extra data.
- WikidataChecks.UnusableTypeReport: the disambiguation message lists the pages of the disambiguation with their distance. With no location (the tags-only entry point) `geopy` would be handed `None` for any listed page that has an entity. That failure lies in message building and geodesic code and is not modelled.
- The geodesic distance of the headquarters test is an oracle, "farther than 20 km". Its floating-point arithmetic and `distance_in_km_to_string` are left out.
- All network and knowledge-base calls are gateway lookups with one fixed answer per argument. Their own exceptions are left out: the `KeyError`s re-raised by `get_wikidata_id_after_redirect` and `get_article_name_after_redirect`, and the `KeyError` of a malformed P17 statement. The `forced_refresh` flag only reaches these calls, so it is not part of the configuration.
- `additional_debug` only prints, so it is left out together with the other debug and stdout helpers: `complain_in_stdout_if_wikidata_entry_not_of_known_safe_type`, `dump_base_types_of_object_in_stdout`, `describe_unexpected_wikidata_type`, `output_debug_about_wikidata_item`, `callback_reporting_banned_categories`, and the `print` for Q7318.
- Element adapters are not modelled: `ErrorReport.bind_to_element`, `data`, `yaml_output`, `get_problem_for_given_element`, `describe_osm_object` and `element_can_be_reduced_to_position_at_single_location`. They depend on an element API that is not part of this model. `Detector.MostImportantProblem` takes the location directly, as `get_the_most_important_problem_generic` does.
- `tag_from_wikidata`, `generate_error_report_for_tag_from_wikidata`, `is_wikipedia_page_geotagged` and `wikidata_connection_blacklisted_and_unfixable` are never reached from the pipeline.
- `flush.py` deletes cache files and has no logic of the detector.
- The blacklist holds a representative part of its several hundred entries: the first entries, the three repeated keys with their neighbours, and entries of each of the four prefix kinds.
- OldStyle.ConversionReports: when a candidate link has no entity, whether the conversion reports a mismatch can depend on where that link falls in Python's set order (see Findings). The lemma states what holds in every order, and the pipeline gives the exact answer of `normalized_id` as written over the gateway's `setOrder`. For example, take tags `wikipedia:de=Foo` and `wikipedia=en:Bar` with no `wikidata` tag, where `de:Foo` has no entity and `en:Bar` gives Q1. The links are `[de:Foo, en:Bar]` (one candidate, then the `wikipedia` tag), `normalized_id` gives Q1, and the old-style key is proposed for removal (`OldStyle.UnresolvedCandidateBeforeWikipediaTag`).
- OldStyle.SetListing: an answer of the `setOrder` oracle that is not a listing of the set is completed by first occurrence, so the model always lists exactly the set's elements.
- Model.GetOfUniqueKeys: tag lists may repeat a key, which a dict cannot. `Get` takes the first such tag, and `Model.GetOfUniqueKeys` shows this is exact for dict-shaped lists. The pipeline does not require distinct keys.
- `\d` in Python 3 also matches non-ASCII digits. The model uses ASCII digits.
- The source reads the language list of `wikipedia_knowledge` as one fixed sequence. The model takes it from the gateway.

## Findings

| source | as written | input that shows it | evidently intended | confidence | as-written member | corrected member |
|---|---|---|---|---|---|---|
| wikibrain/wikimedia_link_issue_reporter.py:789-799 | `normalized_id` accepts a link without an entity only while the running id is still `None`, so its answer depends on the order of the links, and the order of the candidates comes from `list(set(...))` (line 885) | no `wikidata` tag, candidates `en:A` (no entity) and `en:B` (entity Q1): in the order `[en:A, en:B]` it answers Q1, in the order `[en:B, en:A]` it reports a mismatch | every candidate must resolve to the same entity, whatever the order | high, not executed | `OldStyle.NormalizedIdAsWrittenDependsOnOrder` | `OldStyle.IntendedConversionIgnoresSetOrder` |
| wikibrain/wikimedia_link_issue_reporter.py:1368-1369 | the Czech country list is keyed by `cz`, a country code, while the detector compares `expected_language_code` with Wikipedia language codes, where Czech is `cs` | a detector configured with expected language `cs` fails the table's assertion on every foreign-language link of an object with a Wikidata entity | key the Czech list by `cs` | medium, not executed | `Tables.CzechListIsKeyedByCountryCode` | `Tables.CountriesWithLanguage` |

The pipeline runs the code as written: `normalized_id` over the candidates in Python's set order, and the country table keyed by `cz`. The corrected definitions, `OldStyle.NormalizedId` with `OldStyle.IntendedConversion` and `Tables.CountriesWithLanguage`, are stated beside them with their properties proved. The two normalisations agree whenever every link resolves (`OldStyle.NormalizedIdAgreesWhenResolved`).

The "wikidata from wikipedia tag" report carries no proposed change (lines 671-679), and the model keeps it that way (`WikidataChecks.MissingWikidataTagReport`).

/** WikimediaLinkIssueDetector's pipeline: a deletion guard, then the
    structural checks, the freely reorderable checks and the derivation of a
    missing tag from the other one; the first stage with something to report
    decides the answer. */
module Detector {
  import opened Model
  import opened Gateway
  import opened LinkSyntax
  import opened Validators
  import opened Interwiki
  import opened OldStyle
  import opened Collision
  import opened WikidataChecks
  import opened Language
  import opened Tables

  /** object_should_be_deleted_not_repaired: person relations and
      battlefields. */
  predicate ShouldBeDeletedNotRepaired(objectType: string, tags: Tags)
    ensures UniqueKeys(tags) ==>
              (ShouldBeDeletedNotRepaired(objectType, tags) <==>
                 (objectType == "relation" && Tag("type", "person") in tags) || Tag("historic", "battlefield") in tags)
  {
    GetOfUniqueKeys(tags, "type", "person");
    GetOfUniqueKeys(tags, "historic", "battlefield");
    || (objectType == "relation" && Get(tags, "type") == Some("person"))
    || Get(tags, "historic") == Some("battlefield")
  }

  /** No key of the tags holds `wikipedia:`. */
  predicate NoOldStyleKeys(tags: Tags) {
    forall i :: 0 <= i < |tags| ==> !Contains(tags[i].key, "wikipedia:")
  }

  /** The structural stage's test for old-style keys and the derivation
      stage's `get_old_style_wikipedia_keys(tags) == []` are the same. */
  lemma NoOldStyleKeysIsEmptyKeyList(tags: Tags)
    ensures NoOldStyleKeys(tags) <==> OldStyleWikipediaKeys(tags) == []
  {
    if OldStyleWikipediaKeys(tags) != [] {
      assert OldStyleWikipediaKeys(tags)[0] in OldStyleWikipediaKeys(tags);
    }
  }

  /** The `wikidata` half of critical_structural_issue_report. */
  function WikidataStructuralIssue(g: Gateway, wikidata: Option<string>): (r: Option<ErrorReport>)
    ensures r.Some? ==> r.value.errorId in {MalformedWikidataTag, WikidataLinks404}
    ensures r.Some? && r.value.errorId == MalformedWikidataTag <==> wikidata.Some? && IsWikidataTagClearlyBroken(wikidata)
    ensures r.None? <==> wikidata.None? || (!IsWikidataTagClearlyBroken(wikidata) && g.entityExists(wikidata.value))
  {
    match wikidata
    case None => None
    case Some(id) =>
      match MalformedWikidataReport(id)
      case Some(report) => Some(report)
      case None => MissingWikidataPageReport(g, id)
  }

  /** The `wikipedia` half of critical_structural_issue_report: malformed
      link, missing page, then the collision with the `wikidata` tag. */
  function WikipediaStructuralIssue(cfg: Config, g: Gateway, tags: Tags): (r: Option<ErrorReport>)
    ensures r.Some? ==> r.value.errorId in {MalformedWikipediaTag, WikipediaLinks404, FollowWikidataRedirect,
                                            FollowWikipediaRedirect, WikipediaWikidataMismatch}
    ensures var wikipedia := Get(tags, "wikipedia");
            r.Some? && r.value.errorId == MalformedWikipediaTag <==>
              wikipedia.Some? && IsWikipediaTagClearlyBroken(g, wikipedia.value)
    ensures var wikipedia := Get(tags, "wikipedia");
            r.Some? && r.value.errorId == WikipediaLinks404 <==>
              && wikipedia.Some? && !IsWikipediaTagClearlyBroken(g, wikipedia.value)
              && MissingWikipediaPageReport(cfg, g, BeforeFirstColon(wikipedia.value).value,
                                            AfterFirstColon(wikipedia.value).value).Some?
    ensures Get(tags, "wikipedia").None? ==> r.None?
    // a well-formed link to an existing page is left to the collision check
    ensures var wikipedia := Get(tags, "wikipedia");
            && wikipedia.Some? && !IsWikipediaTagClearlyBroken(g, wikipedia.value)
            && MissingWikipediaPageReport(cfg, g, BeforeFirstColon(wikipedia.value).value,
                                          AfterFirstColon(wikipedia.value).value).None? ==>
              r == WikipediaWikidataCollision(g, Get(tags, "wikidata"), BeforeFirstColon(wikipedia.value).value,
                                              AfterFirstColon(wikipedia.value).value)
  {
    match Get(tags, "wikipedia")
    case None => None
    case Some(link) =>
      match MalformedWikipediaReport(g, link)
      case Some(report) => Some(report)
      case None =>
        // a link that is not clearly broken has a language and an article part
        var language := BeforeFirstColon(link).value;
        var article := AfterFirstColon(link).value;
        match MissingWikipediaPageReport(cfg, g, language, article)
        case Some(report) => Some(report)
        case None => WikipediaWikidataCollision(g, Get(tags, "wikidata"), language, article)
  }

  const StructuralIds: set<ErrorId> := {
    InvalidOldStyleKey, OldStyleMismatch, WikipediaFromOldStyle, OldStyleForRemoval,
    MalformedWikidataTag, WikidataLinks404, MalformedWikipediaTag, WikipediaLinks404,
    FollowWikidataRedirect, FollowWikipediaRedirect, WikipediaWikidataMismatch }

  /** critical_structural_issue_report. */
  function StructuralIssue(cfg: Config, g: Gateway, tags: Tags): (r: Outcome)
    ensures !r.Raised?
    ensures r.Report? ==> r.report.errorId in StructuralIds
  {
    OldStyleStepReports(cfg, g, tags);
    FirstOf(RemoveOldStyleWikipediaTags(cfg, g, tags),
      FirstOf(FromOption(WikidataStructuralIssue(g, Get(tags, "wikidata"))),
              FromOption(WikipediaStructuralIssue(cfg, g, tags))))
  }

  /** The structural checks in their order: old-style keys, malformed
      `wikidata`, dangling `wikidata`, malformed `wikipedia`, dangling
      `wikipedia`, then the collision; each fires exactly when everything
      before it is silent. */
  lemma {:induction false} StructuralStageOrder(cfg: Config, g: Gateway, tags: Tags)
    ensures var r := StructuralIssue(cfg, g, tags);
            var wikidata := Get(tags, "wikidata");
            var wikipedia := Get(tags, "wikipedia");
            var wikidataFine := wikidata.None? || (!IsWikidataTagClearlyBroken(wikidata) && g.entityExists(wikidata.value));
            && (!NoOldStyleKeys(tags) ==> r == RemoveOldStyleWikipediaTags(cfg, g, tags))
            && (r.Reports(MalformedWikidataTag) <==>
                  NoOldStyleKeys(tags) && wikidata.Some? && IsWikidataTagClearlyBroken(wikidata))
            && (r.Reports(WikidataLinks404) <==>
                  NoOldStyleKeys(tags) && wikidata.Some? && !IsWikidataTagClearlyBroken(wikidata)
                  && !g.entityExists(wikidata.value))
            && (r.Reports(MalformedWikipediaTag) <==>
                  NoOldStyleKeys(tags) && wikidataFine && wikipedia.Some? && IsWikipediaTagClearlyBroken(g, wikipedia.value))
            && (r.Reports(WikipediaLinks404) <==>
                  NoOldStyleKeys(tags) && wikidataFine && wikipedia.Some? && !IsWikipediaTagClearlyBroken(g, wikipedia.value)
                  && MissingWikipediaPageReport(cfg, g, BeforeFirstColon(wikipedia.value).value,
                                                AfterFirstColon(wikipedia.value).value).Some?)
            && (NoOldStyleKeys(tags) && wikidataFine && wikipedia.Some? && !IsWikipediaTagClearlyBroken(g, wikipedia.value)
                && MissingWikipediaPageReport(cfg, g, BeforeFirstColon(wikipedia.value).value,
                                              AfterFirstColon(wikipedia.value).value).None? ==>
                  r == FromOption(WikipediaWikidataCollision(g, wikidata, BeforeFirstColon(wikipedia.value).value,
                                                             AfterFirstColon(wikipedia.value).value)))
            && (r.NoReport? <==> NoOldStyleKeys(tags) && wikidataFine && WikipediaStructuralIssue(cfg, g, tags).None?)
  {
    OldStyleStepReports(cfg, g, tags);
  }

  /** get_effective_wikipedia_tag: the tag, else the best link of the
      `wikidata` tag's entity. */
  function EffectiveWikipedia(cfg: Config, g: Gateway, tags: Tags): (r: Option<string>)
    ensures Get(tags, "wikipedia").Some? ==> r == Get(tags, "wikipedia")
    ensures Get(tags, "wikipedia").None? ==> r == BestInterwikiLink(cfg, g, Get(tags, "wikidata"))
    ensures r.None? <==>
              && Get(tags, "wikipedia").None?
              && forall j :: 0 <= j < |CandidateLanguages(cfg, g)| ==>
                   g.titleById(Get(tags, "wikidata"), CandidateLanguages(cfg, g)[j]).None?
  {
    if Get(tags, "wikipedia").Some? then Get(tags, "wikipedia")
    else BestInterwikiLink(cfg, g, Get(tags, "wikidata"))
  }

  /** get_effective_wikidata_tag: the tag, else the entity of the
      `wikipedia` link. */
  function EffectiveWikidata(g: Gateway, tags: Tags): (r: Option<string>)
    ensures Get(tags, "wikidata").Some? ==> r == Get(tags, "wikidata")
    ensures Get(tags, "wikidata").None? ==> r == g.idFromLink(Get(tags, "wikipedia"))
    ensures r.None? <==> Get(tags, "wikidata").None? && g.idFromLink(Get(tags, "wikipedia")).None?
  {
    if Get(tags, "wikidata").Some? then Get(tags, "wikidata")
    else g.idFromLink(Get(tags, "wikipedia"))
  }

  const ReorderableIds: set<ErrorId> := {
    BlacklistedConnection, UnlinkableArticle, SecondaryTagExpected,
    UnexpectedLanguage, UnexpectedLanguageArticleMissing, NoLongerExistingObject }

  /** freely_reorderable_issue_reports: blacklist, wikidata-based checks,
      language, existence, on the effective tags. Only the language check can
      raise. */
  function ReorderableIssue(cfg: Config, g: Gateway, location: Location, tags: Tags): (r: Outcome)
    ensures r.Report? ==> r.report.errorId in ReorderableIds
    ensures r.Raised? ==> WikipediaLanguageIssues(cfg, g, EffectiveWikipedia(cfg, g, tags), EffectiveWikidata(g, tags)).Raised?
  {
    var wikipedia := EffectiveWikipedia(cfg, g, tags);
    var wikidataId := EffectiveWikidata(g, tags);
    FirstOf(FromOption(BlacklistReport(wikidataId, wikidataId, wikipedia)),
      FirstOf(FromOption(WikidataElementProblem(g, location, wikidataId)),
        FirstOf(WikipediaLanguageIssues(cfg, g, wikipedia, wikidataId),
                FromOption(NoLongerExistingReport(g, wikidataId)))))
  }

  /** get_wikipedia_from_wikidata_assume_no_old_style_wikipedia_tags: the
      entity's own problems (checked with the blank location, so never the
      headquarters test) come first; then the best link is proposed, flagged
      when its language is not a preferred one. */
  function WikipediaFromWikidataReport(cfg: Config, g: Gateway, wikidataId: string): (r: Option<ErrorReport>)
    ensures WikidataProblem(g, BlankLocation, wikidataId).Some? ==> r == WikidataProblem(g, BlankLocation, wikidataId)
    ensures r.Some? ==> r.value.errorId in {UnlinkableArticle, SecondaryTagExpected,
                                            WikipediaFromWikidata, WikipediaFromWikidataUnexpectedLanguage}
    ensures r.Some? && r.value.errorId in {WikipediaFromWikidata, WikipediaFromWikidataUnexpectedLanguage} ==>
              var link := BestInterwikiLink(cfg, g, Some(wikidataId));
              && WikidataProblem(g, BlankLocation, wikidataId).None?
              && link.Some?
              && r.value.desiredTarget == link
              && r.value.prerequisite == map["wikipedia" := None, "wikidata" := Some(wikidataId)]
              && r.value.proposedChanges == Some(WikipediaChange(None, link))
              && (r.value.errorId == WikipediaFromWikidata <==>
                    BeforeFirstColon(link.value).Some? && BeforeFirstColon(link.value).value in cfg.preferredLanguages)
    ensures r.None? <==> WikidataProblem(g, BlankLocation, wikidataId).None? && BestInterwikiLink(cfg, g, Some(wikidataId)).None?
  {
    match WikidataProblem(g, BlankLocation, wikidataId)
    case Some(report) => Some(report)
    case None =>
      match BestInterwikiLink(cfg, g, Some(wikidataId))
      case None => None
      case Some(link) =>
        var language := BeforeFirstColon(link);
        var errorId := if language.Some? && language.value in cfg.preferredLanguages then WikipediaFromWikidata
                       else WikipediaFromWikidataUnexpectedLanguage;
        Some(ErrorReport(errorId, map["wikipedia" := None, "wikidata" := Some(wikidataId)], Some(link),
                         Some(WikipediaChange(None, Some(link))), None))
  }

  const DerivedIds: set<ErrorId> := {
    WikidataFromWikipedia, UnlinkableArticle, SecondaryTagExpected,
    WikipediaFromWikidata, WikipediaFromWikidataUnexpectedLanguage }

  /** add_wikipedia_and_wikidata_based_on_each_other. */
  function DeriveIssue(cfg: Config, g: Gateway, tags: Tags): (r: Option<ErrorReport>)
    ensures r.Some? ==> r.value.errorId in DerivedIds
    // "wikidata from wikipedia tag" exactly when the entity of a present
    // `wikipedia` link is known and there is no `wikidata` tag
    ensures r.Some? && r.value.errorId == WikidataFromWikipedia <==>
              && Get(tags, "wikidata").None?
              && Get(tags, "wikipedia").Some?
              && g.idFromLink(Get(tags, "wikipedia")).Some?
    ensures r.Some? && r.value.errorId == WikidataFromWikipedia ==>
              r.value.prerequisite == map["wikipedia" := Get(tags, "wikipedia"), "wikidata" := None]
    // anything else is derived from the `wikidata` tag alone, when there is
    // no `wikipedia` tag and no old-style key
    ensures r.Some? && r.value.errorId != WikidataFromWikipedia ==>
              && Get(tags, "wikipedia").None?
              && Get(tags, "wikidata").Some?
              && OldStyleWikipediaKeys(tags) == []
              && r == WikipediaFromWikidataReport(cfg, g, Get(tags, "wikidata").value)
    // and with no `wikipedia` tag it is derived exactly then
    ensures Get(tags, "wikipedia").None? && Get(tags, "wikidata").Some? && OldStyleWikipediaKeys(tags) == [] ==>
              r == WikipediaFromWikidataReport(cfg, g, Get(tags, "wikidata").value)
    ensures Get(tags, "wikipedia").None? && (Get(tags, "wikidata").None? || OldStyleWikipediaKeys(tags) != []) ==> r.None?
  {
    var wikipedia := Get(tags, "wikipedia");
    var derivedId := if wikipedia.Some? then g.idFromLink(wikipedia) else None;
    match MissingWikidataTagReport(wikipedia, Get(tags, "wikidata"), derivedId)
    case Some(report) => Some(report)
    case None =>
      if wikipedia.Some? then None
      else if Get(tags, "wikidata").Some? && OldStyleWikipediaKeys(tags) == [] then
        WikipediaFromWikidataReport(cfg, g, Get(tags, "wikidata").value)
      else None
  }

  /** get_the_most_important_problem_generic. */
  function MostImportantProblem(cfg: Config, g: Gateway, tags: Tags, location: Location, objectType: string): (r: Outcome)
    ensures ShouldBeDeletedNotRepaired(objectType, tags) ==> r.NoReport?
    ensures r.Report? ==> r.report.errorId in StructuralIds + ReorderableIds + DerivedIds
    // only the language check raises, and only with an expected language
    ensures r.Raised? ==>
              && cfg.expectedLanguage.Some?
              && r == WikipediaLanguageIssues(cfg, g, EffectiveWikipedia(cfg, g, tags), EffectiveWikidata(g, tags))
  {
    if ShouldBeDeletedNotRepaired(objectType, tags) then NoReport
    else FirstOf(StructuralIssue(cfg, g, tags),
           FirstOf(ReorderableIssue(cfg, g, location, tags), FromOption(DeriveIssue(cfg, g, tags))))
  }

  /** get_problem_for_given_tags: the pipeline without a location, which
      answers as for an object at an unknown position. */
  function ProblemForGivenTags(cfg: Config, g: Gateway, tags: Tags, objectType: string): (r: Outcome)
    ensures r == MostImportantProblem(cfg, g, tags, BlankLocation, objectType)
  {
    NoLocationActsAsBlank(g, EffectiveWikidata(g, tags));
    MostImportantProblem(cfg, g, tags, NoLocation, objectType)
  }

  /** The reorderable checks in their order: blacklist, wikidata-based
      checks, language, then the P576 test; each answers exactly when all
      before it are silent. */
  lemma ReorderableStageOrder(cfg: Config, g: Gateway, location: Location, tags: Tags)
    ensures var r := ReorderableIssue(cfg, g, location, tags);
            var wikipedia := EffectiveWikipedia(cfg, g, tags);
            var wikidataId := EffectiveWikidata(g, tags);
            var blacklist := BlacklistReport(wikidataId, wikidataId, wikipedia);
            var element := WikidataElementProblem(g, location, wikidataId);
            var language := WikipediaLanguageIssues(cfg, g, wikipedia, wikidataId);
            var existence := NoLongerExistingReport(g, wikidataId);
            && (r.Reports(BlacklistedConnection) <==>
                  wikidataId.Some? && wikidataId.value in WikidataConnectionBlacklist())
            && (blacklist.Some? ==> r == Report(blacklist.value))
            && (blacklist.None? && element.Some? ==> r == Report(element.value))
            && ((blacklist.None? && element.None? && !language.NoReport?) ==> r == language)
            && ((blacklist.None? && element.None? && language.NoReport?) ==> r == FromOption(existence))
            && (r.NoReport? <==> blacklist.None? && element.None? && language.NoReport? && existence.None?)
  {
  }

  /** A report with an id the later stages cannot produce comes from the
      first stage. */
  lemma {:induction false} ReportOfFirstStage(structural: Outcome, reorderable: Outcome, derived: Option<ErrorReport>, errorId: ErrorId)
    requires reorderable.Report? ==> reorderable.report.errorId in ReorderableIds
    requires derived.Some? ==> derived.value.errorId in DerivedIds
    requires errorId !in ReorderableIds && errorId !in DerivedIds
    ensures FirstOf(structural, FirstOf(reorderable, FromOption(derived))).Reports(errorId) <==> structural.Reports(errorId)
  {
    if reorderable.Report? {
      assert reorderable.report.errorId != errorId;
    }
    if derived.Some? {
      assert derived.value.errorId != errorId;
    }
  }

  /** A report with an id the first two stages cannot produce comes from
      the third stage, after both others were silent. */
  lemma {:induction false} ReportOfLastStage(structural: Outcome, reorderable: Outcome, derived: Option<ErrorReport>, errorId: ErrorId)
    requires !structural.Raised? && (structural.Report? ==> structural.report.errorId in StructuralIds)
    requires reorderable.Report? ==> reorderable.report.errorId in ReorderableIds
    requires errorId !in StructuralIds && errorId !in ReorderableIds
    ensures FirstOf(structural, FirstOf(reorderable, FromOption(derived))).Reports(errorId) <==>
              structural.NoReport? && reorderable.NoReport? && derived.Some? && derived.value.errorId == errorId
    ensures FirstOf(structural, FirstOf(reorderable, FromOption(derived))).Reports(errorId) ==>
              FirstOf(structural, FirstOf(reorderable, FromOption(derived))).report == derived.value
  {
    if structural.Report? {
      assert structural.report.errorId != errorId;
    }
    if reorderable.Report? {
      assert reorderable.report.errorId != errorId;
    }
  }

  /** A problem id that neither the structural nor the reorderable stage
      produces is the pipeline's answer exactly when the derivation stage
      gives it after both were silent. */
  lemma {:induction false} OnlyDerivationGives(cfg: Config, g: Gateway, tags: Tags, location: Location, objectType: string,
                                               errorId: ErrorId)
    requires errorId !in StructuralIds && errorId !in ReorderableIds
    ensures var r := MostImportantProblem(cfg, g, tags, location, objectType);
            var derived := DeriveIssue(cfg, g, tags);
            && (r.Reports(errorId) <==>
                  && !ShouldBeDeletedNotRepaired(objectType, tags)
                  && StructuralIssue(cfg, g, tags).NoReport?
                  && ReorderableIssue(cfg, g, location, tags).NoReport?
                  && derived.Some? && derived.value.errorId == errorId)
            && (r.Reports(errorId) ==> r.report == derived.value)
  {
    var structural := StructuralIssue(cfg, g, tags);
    var reorderable := ReorderableIssue(cfg, g, location, tags);
    var derived := DeriveIssue(cfg, g, tags);
    ReportOfLastStage(structural, reorderable, derived, errorId);
    if !ShouldBeDeletedNotRepaired(objectType, tags) {
      assert MostImportantProblem(cfg, g, tags, location, objectType)
             == FirstOf(structural, FirstOf(reorderable, FromOption(derived)));
    }
  }

  /** Person relations and battlefields are left alone; anything else gets
      the first stage's answer that is not "nothing to report". */
  lemma StagePrecedence(cfg: Config, g: Gateway, tags: Tags, location: Location, objectType: string)
    ensures var r := MostImportantProblem(cfg, g, tags, location, objectType);
            && (ShouldBeDeletedNotRepaired(objectType, tags) ==> r.NoReport?)
            && (!ShouldBeDeletedNotRepaired(objectType, tags) ==>
                  && (!StructuralIssue(cfg, g, tags).NoReport? ==> r == StructuralIssue(cfg, g, tags))
                  && ((StructuralIssue(cfg, g, tags).NoReport? && !ReorderableIssue(cfg, g, location, tags).NoReport?)
                        ==> r == ReorderableIssue(cfg, g, location, tags))
                  && ((StructuralIssue(cfg, g, tags).NoReport? && ReorderableIssue(cfg, g, location, tags).NoReport?)
                        ==> r == FromOption(DeriveIssue(cfg, g, tags))))
  {
  }

  /** The structural stage reports a malformed `wikidata` value exactly when
      there is no old-style key. */
  lemma MalformedWikidataIsStructural(cfg: Config, g: Gateway, tags: Tags)
    ensures StructuralIssue(cfg, g, tags).Reports(MalformedWikidataTag) <==>
              NoOldStyleKeys(tags) && Get(tags, "wikidata").Some? && IsWikidataTagClearlyBroken(Get(tags, "wikidata"))
  {
    OldStyleStepReports(cfg, g, tags);
  }

  /** "malformed wikidata tag" is the answer exactly when the object is not
      left alone, has no old-style key, and its `wikidata` value is not `Q`
      followed by digits. */
  lemma {:induction false} MalformedWikidataReported(cfg: Config, g: Gateway, tags: Tags, location: Location, objectType: string)
    ensures MostImportantProblem(cfg, g, tags, location, objectType).Reports(MalformedWikidataTag) <==>
              && !ShouldBeDeletedNotRepaired(objectType, tags)
              && NoOldStyleKeys(tags)
              && Get(tags, "wikidata").Some?
              && IsWikidataTagClearlyBroken(Get(tags, "wikidata"))
  {
    MalformedWikidataIsStructural(cfg, g, tags);
    ReportOfFirstStage(StructuralIssue(cfg, g, tags), ReorderableIssue(cfg, g, location, tags),
                       DeriveIssue(cfg, g, tags), MalformedWikidataTag);
  }

  /** "wikidata from wikipedia tag" is the answer only for an object without
      a `wikidata` tag whose `wikipedia` link has a known entity, and then the
      prerequisite pins `wikidata` as absent. */
  lemma {:induction false} WikidataFromWikipediaReported(cfg: Config, g: Gateway, tags: Tags, location: Location, objectType: string)
    ensures var r := MostImportantProblem(cfg, g, tags, location, objectType);
            r.Reports(WikidataFromWikipedia) ==>
              && Get(tags, "wikidata").None?
              && Get(tags, "wikipedia").Some?
              && g.idFromLink(Get(tags, "wikipedia")).Some?
              && r.report.prerequisite == map["wikipedia" := Get(tags, "wikipedia"), "wikidata" := None]
    ensures var r := MostImportantProblem(cfg, g, tags, location, objectType);
            && !ShouldBeDeletedNotRepaired(objectType, tags)
            && StructuralIssue(cfg, g, tags).NoReport?
            && ReorderableIssue(cfg, g, location, tags).NoReport?
            && Get(tags, "wikidata").None? && Get(tags, "wikipedia").Some?
            && g.idFromLink(Get(tags, "wikipedia")).Some?
            ==> r.Reports(WikidataFromWikipedia)
  {
    OnlyDerivationGives(cfg, g, tags, location, objectType, WikidataFromWikipedia);
  }

  /** The derivation stage proposes a `wikipedia` link only for an object
      without one, and proposes the `wikidata` entity's best link. */
  lemma {:induction false} DerivedWikipediaIsBestLink(cfg: Config, g: Gateway, tags: Tags)
    ensures var d := DeriveIssue(cfg, g, tags);
            d.Some? && d.value.errorId in {WikipediaFromWikidata, WikipediaFromWikidataUnexpectedLanguage} ==>
              && Get(tags, "wikipedia").None?
              && Get(tags, "wikidata").Some?
              && d.value.desiredTarget == BestInterwikiLink(cfg, g, Get(tags, "wikidata"))
              && d.value.desiredTarget.Some?
  {
    var d := DeriveIssue(cfg, g, tags);
    if d.Some? && d.value.errorId in {WikipediaFromWikidata, WikipediaFromWikidataUnexpectedLanguage} {
      assert d == WikipediaFromWikidataReport(cfg, g, Get(tags, "wikidata").value);
    }
  }

  /** A proposed `wikipedia` tag derived from `wikidata` (in a preferred
      language or not) is only made for an object without a `wikipedia` tag,
      and it is the entity's best link. */
  lemma {:induction false} WikipediaFromWikidataReported(cfg: Config, g: Gateway, tags: Tags, location: Location,
                                                         objectType: string, errorId: ErrorId)
    requires errorId == WikipediaFromWikidata || errorId == WikipediaFromWikidataUnexpectedLanguage
    ensures var r := MostImportantProblem(cfg, g, tags, location, objectType);
            r.Reports(errorId) ==>
              && Get(tags, "wikipedia").None?
              && Get(tags, "wikidata").Some?
              && r.report.desiredTarget == BestInterwikiLink(cfg, g, Get(tags, "wikidata"))
              && r.report.desiredTarget.Some?
  {
    OnlyDerivationGives(cfg, g, tags, location, objectType, errorId);
    DerivedWikipediaIsBestLink(cfg, g, tags);
  }

  /** Without an expected language the detector never fails: only the
      language check can raise. */
  lemma {:induction false} NoFailureWithoutExpectedLanguage(cfg: Config, g: Gateway, tags: Tags, location: Location, objectType: string)
    requires cfg.expectedLanguage.None?
    ensures !MostImportantProblem(cfg, g, tags, location, objectType).Raised?
  {
    var wikipedia := EffectiveWikipedia(cfg, g, tags);
    var wikidataId := EffectiveWikidata(g, tags);
    assert WikipediaLanguageIssues(cfg, g, wikipedia, wikidataId).NoReport?;
  }
}

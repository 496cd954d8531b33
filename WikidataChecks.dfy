/** The per-tag checks of the detector: malformed and dangling `wikidata` and
    `wikipedia` tags, the blacklist, the type- and property-based checks that
    ask for a secondary tag, and the missing-tag derivation. */
module WikidataChecks {
  import opened Model
  import opened Gateway
  import opened LinkSyntax
  import opened Validators
  import opened Tables
  import opened Interwiki

  /** check_is_wikidata_link_clearly_malformed. */
  function MalformedWikidataReport(link: string): (r: Option<ErrorReport>)
    ensures r.Some? <==> |link| < 2 || link[0] != 'Q' || exists i :: 1 <= i < |link| && !IsAsciiDigit(link[i])
    ensures r.Some? ==> r.value.errorId == MalformedWikidataTag && r.value.prerequisite == map["wikidata" := Some(link)]
  {
    if IsWikidataTagClearlyBroken(Some(link)) then Some(Issue(MalformedWikidataTag, map["wikidata" := Some(link)]))
    else None
  }

  /** check_is_wikidata_page_existing. */
  function MissingWikidataPageReport(g: Gateway, wikidataId: string): (r: Option<ErrorReport>)
    ensures r.Some? <==> !g.entityExists(wikidataId)
    ensures r.Some? ==> r.value.errorId == WikidataLinks404 && r.value.prerequisite == map["wikidata" := Some(wikidataId)]
  {
    if g.entityExists(wikidataId) then None
    else Some(Issue(WikidataLinks404, map["wikidata" := Some(wikidataId)]))
  }

  /** check_is_wikipedia_link_clearly_malformed. */
  function MalformedWikipediaReport(g: Gateway, link: string): (r: Option<ErrorReport>)
    ensures r.Some? <==> IsWikipediaTagClearlyBroken(g, link)
    ensures r.Some? ==> r.value.errorId == MalformedWikipediaTag && r.value.prerequisite == map["wikipedia" := Some(link)]
  {
    if IsWikipediaTagClearlyBroken(g, link) then Some(Issue(MalformedWikipediaTag, map["wikipedia" := Some(link)]))
    else None
  }

  /** check_is_wikipedia_page_existing with report_failed_wikipedia_page_link:
      a page Wikidata knows is taken to exist; a page that is missing gets the
      best link of the article's entity as its proposed replacement. */
  function MissingWikipediaPageReport(cfg: Config, g: Gateway, language: string, article: string): (r: Option<ErrorReport>)
    ensures r.Some? <==> g.interwikiTitle(language, article, language).None? && !g.pageExists(language, article)
    ensures r.Some? ==>
              && r.value.errorId == WikipediaLinks404
              && r.value.prerequisite == map["wikipedia" := Some(language + ":" + article)]
              && r.value.desiredTarget == BestInterwikiLink(cfg, g, g.idFromArticle(language, article))
              && r.value.proposedChanges == Some(WikipediaChange(Some(language + ":" + article), r.value.desiredTarget))
  {
    if g.interwikiTitle(language, article, language).Some? then None
    else if g.pageExists(language, article) then None
    else
      var link := language + ":" + article;
      var target := BestInterwikiLink(cfg, g, g.idFromArticle(language, article));
      Some(ErrorReport(WikipediaLinks404, map["wikipedia" := Some(link)], target,
                       Some(WikipediaChange(Some(link), target)), None))
  }

  /** check_is_wikidata_tag_is_misssing. */
  function MissingWikidataTagReport(wikipedia: Option<string>, presentWikidataId: Option<string>, wikidataId: Option<string>)
    : (r: Option<ErrorReport>)
    ensures r.Some? <==> presentWikidataId.None? && wikidataId.Some?
    ensures r.Some? ==>
              && r.value.errorId == WikidataFromWikipedia
              && r.value.prerequisite == map["wikipedia" := wikipedia, "wikidata" := None]
              && r.value.proposedChanges.None?
  {
    if presentWikidataId.None? && wikidataId.Some? then
      Some(Issue(WikidataFromWikipedia, map["wikipedia" := wikipedia, "wikidata" := None]))
    else None
  }

  /** get_problem_based_on_wikidata_blacklist. */
  function BlacklistReport(wikidataId: Option<string>, presentWikidataId: Option<string>, link: Option<string>)
    : (r: Option<ErrorReport>)
    ensures var id := if wikidataId.None? then presentWikidataId else wikidataId;
            r.Some? <==> id.Some? && id.value in WikidataConnectionBlacklist()
    ensures r.Some? ==>
              var id := if wikidataId.None? then presentWikidataId else wikidataId;
              && r.value.errorId == BlacklistedConnection
              && r.value.prerequisite == map["wikipedia" := link, "wikidata" := presentWikidataId]
              && r.value.extraData == Some(WikidataConnectionBlacklist()[id.value].prefix)
              && r.value.extraData.value in {"brand:", "operator:", "former_operator:", "species:"}
  {
    var id := if wikidataId.None? then presentWikidataId else wikidataId;
    match BlacklistPrefix(id)
    case None => None
    case Some(prefix) =>
      BlacklistPrefixes(id.value);
      Some(ErrorReport(BlacklistedConnection, map["wikipedia" := link, "wikidata" := presentWikidataId],
                       None, None, Some(prefix)))
  }

  /** The types of get_error_report_if_wikipedia_target_is_of_unusable_type:
      disambiguation page, list, overview article. */
  predicate IsUnusableType(typeId: string) {
    typeId == "Q4167410" || typeId == "Q13406463" || typeId == "Q20136634"
  }

  function FirstUnusableType(types: seq<string>): (r: Option<string>)
    ensures r.None? <==> forall i :: 0 <= i < |types| ==> !IsUnusableType(types[i])
    ensures r.Some? ==> IsUnusableType(r.value) && r.value in types
  {
    if types == [] then None
    else if IsUnusableType(types[0]) then Some(types[0])
    else
      assert forall i :: 1 <= i < |types| ==> types[i] == types[1..][i - 1];
      FirstUnusableType(types[1..])
  }

  /** get_error_report_if_wikipedia_target_is_of_unusable_type. */
  function UnusableTypeReport(g: Gateway, wikidataId: string): (r: Option<ErrorReport>)
    ensures r.Some? <==> exists i :: 0 <= i < |g.allTypes(wikidataId)| && IsUnusableType(g.allTypes(wikidataId)[i])
    ensures r.Some? ==> r.value.errorId == UnlinkableArticle && r.value.prerequisite == map["wikidata" := Some(wikidataId)]
  {
    if FirstUnusableType(g.allTypes(wikidataId)).Some? then
      Some(Issue(UnlinkableArticle, map["wikidata" := Some(wikidataId)]))
    else None
  }

  /** get_should_use_subject_error. */
  function SecondaryTagReport(wikidataId: string): ErrorReport {
    Issue(SecondaryTagExpected, map["wikidata" := Some(wikidataId)])
  }

  /** The reason of the first type that the reason table answers for. */
  function FirstUnlinkableReason(types: seq<string>): (r: Option<Reason>)
    ensures r.None? <==> forall i :: 0 <= i < |types| ==> types[i] !in UnlinkableTypes()
    ensures r.Some? ==> exists i :: 0 <= i < |types| && r == UnlinkableTypeReason(types[i])
                          && forall j :: 0 <= j < i ==> types[j] !in UnlinkableTypes()
  {
    if types == [] then None
    else if UnlinkableTypeReason(types[0]).Some? then UnlinkableTypeReason(types[0])
    else
      var r := FirstUnlinkableReason(types[1..]);
      assert forall i :: 1 <= i < |types| ==> types[i] == types[1..][i - 1];
      r
  }

  /** get_error_report_if_secondary_wikipedia_tag_should_be_used: a type from
      the reason table, else a P247 (COSPAR id, a spacecraft), else a P279
      (subclass of, a generic object). */
  function SecondaryTagNeededReport(g: Gateway, wikidataId: string): (r: Option<ErrorReport>)
    ensures r.Some? <==>
              || (exists i :: 0 <= i < |g.allTypes(wikidataId)| && g.allTypes(wikidataId)[i] in UnlinkableTypes())
              || g.hasProperty(wikidataId, "P247")
              || g.hasProperty(wikidataId, "P279")
    ensures r.Some? ==> r.value == SecondaryTagReport(wikidataId)
  {
    if FirstUnlinkableReason(g.allTypes(wikidataId)).Some? then Some(SecondaryTagReport(wikidataId))
    else if g.hasProperty(wikidataId, "P247") then Some(SecondaryTagReport(wikidataId))
    else if g.hasProperty(wikidataId, "P279") then Some(SecondaryTagReport(wikidataId))
    else None
  }

  /** Some headquarters with a known location lies farther than 20 km from
      the point; the scan of headquaters_location_indicate_invalid_connection. */
  function AnyHeadquartersFar(g: Gateway, point: Point, headquarters: seq<Option<Point>>): (r: bool)
    ensures r <==> exists i :: 0 <= i < |headquarters| && headquarters[i].Some?
                                && g.fartherThan20Km(point, headquarters[i].value)
  {
    if headquarters == [] then false
    else if headquarters[0].Some? && g.fartherThan20Km(point, headquarters[0].value) then true
    else
      assert forall i :: 1 <= i < |headquarters| ==> headquarters[i] == headquarters[1..][i - 1];
      AnyHeadquartersFar(g, point, headquarters[1..])
  }

  /** headquaters_location_indicate_invalid_connection; never called without
      a location. */
  function HeadquartersReport(g: Gateway, location: Location, wikidataId: string): (r: Option<ErrorReport>)
    requires !location.NoLocation?
    ensures r.Some? <==> location.At? && g.headquarters(wikidataId).Some?
                         && exists i :: 0 <= i < |g.headquarters(wikidataId).value|
                                        && g.headquarters(wikidataId).value[i].Some?
                                        && g.fartherThan20Km(location.point, g.headquarters(wikidataId).value[i].value)
    ensures r.Some? ==> r.value == SecondaryTagReport(wikidataId)
  {
    if location.BlankLocation? then None
    else match g.headquarters(wikidataId)
      case None => None
      case Some(headquarters) =>
        if AnyHeadquartersFar(g, location.point, headquarters) then Some(SecondaryTagReport(wikidataId))
        else None
  }

  /** get_problem_based_on_wikidata_base_types: unusable article types first,
      then secondary-tag types and properties, then (given a location) a
      distant headquarters. */
  function BaseTypeProblem(g: Gateway, location: Location, wikidataId: string): (r: Option<ErrorReport>)
    ensures r.Some? ==> r.value.errorId in {UnlinkableArticle, SecondaryTagExpected}
    ensures r.Some? ==> r.value.prerequisite == map["wikidata" := Some(wikidataId)]
  {
    match UnusableTypeReport(g, wikidataId)
    case Some(report) => Some(report)
    case None =>
      match SecondaryTagNeededReport(g, wikidataId)
      case Some(report) => Some(report)
      case None =>
        if !location.NoLocation? then HeadquartersReport(g, location, wikidataId)
        else None
  }

  /** get_problem_based_on_base_types: only entities with base types are checked. */
  function WikidataProblem(g: Gateway, location: Location, wikidataId: string): (r: Option<ErrorReport>)
    ensures g.baseTypes(wikidataId).None? ==> r.None?
    ensures g.baseTypes(wikidataId).Some? ==> r == BaseTypeProblem(g, location, wikidataId)
  {
    if g.baseTypes(wikidataId).None? then None
    else BaseTypeProblem(g, location, wikidataId)
  }

  /** The precedence inside the wikidata-based checks: an unusable type wins
      over a secondary-tag reason, which wins over the headquarters test;
      with no location the headquarters test is skipped. */
  lemma {:induction false} WikidataProblemPrecedence(g: Gateway, location: Location, wikidataId: string)
    requires g.baseTypes(wikidataId).Some?
    ensures var types := g.allTypes(wikidataId);
            (exists i :: 0 <= i < |types| && IsUnusableType(types[i])) ==>
              WikidataProblem(g, location, wikidataId).value.errorId == UnlinkableArticle
    ensures var types := g.allTypes(wikidataId);
            (forall i :: 0 <= i < |types| ==> !IsUnusableType(types[i])) ==>
              WikidataProblem(g, location, wikidataId)
              == if SecondaryTagNeededReport(g, wikidataId).Some? then SecondaryTagNeededReport(g, wikidataId)
                 else if location.NoLocation? then None
                 else HeadquartersReport(g, location, wikidataId)
  {
    var types := g.allTypes(wikidataId);
    if exists i :: 0 <= i < |types| && IsUnusableType(types[i]) {
      assert UnusableTypeReport(g, wikidataId).Some?;
    } else {
      assert UnusableTypeReport(g, wikidataId).None?;
    }
  }

  /** get_problem_based_on_wikidata_and_osm_element. */
  function WikidataElementProblem(g: Gateway, location: Location, wikidataId: Option<string>): (r: Option<ErrorReport>)
    ensures wikidataId.None? ==> r.None?
    ensures wikidataId.Some? ==> r == WikidataProblem(g, location, wikidataId.value)
  {
    if wikidataId.None? then None
    else WikidataProblem(g, location, wikidataId.value)
  }

  /** Without a location the wikidata-based checks answer as with the blank
      `(None, None)` position: either way the headquarters test finds nothing. */
  lemma NoLocationActsAsBlank(g: Gateway, wikidataId: Option<string>)
    ensures WikidataElementProblem(g, NoLocation, wikidataId) == WikidataElementProblem(g, BlankLocation, wikidataId)
  {
  }

  /** check_is_object_is_existing: a P576 (dissolved, abolished or
      demolished) statement. */
  function NoLongerExistingReport(g: Gateway, wikidataId: Option<string>): (r: Option<ErrorReport>)
    ensures r.Some? <==> wikidataId.Some? && g.hasProperty(wikidataId.value, "P576")
    ensures r.Some? ==> r.value.errorId == NoLongerExistingObject && r.value.prerequisite == map["wikidata" := wikidataId]
  {
    if wikidataId.None? then None
    else if g.hasProperty(wikidataId.value, "P576") then
      Some(Issue(NoLongerExistingObject, map["wikidata" := wikidataId]))
    else None
  }
}

/** Shared data model of the link-issue detector: tag lists, error reports,
    detector configuration and the location handed to the pipeline. */
module Model {

  datatype Option<+T> = None | Some(value: T)

  /** One OSM tag. A tag list keeps the dict's insertion order. */
  datatype Tag = Tag(key: string, value: string)

  type Tags = seq<Tag>

  /** `tags.get(key)`: the value of the first tag with that key, if any. */
  function Get(tags: Tags, key: string): (r: Option<string>)
    ensures r.Some? <==> exists i :: 0 <= i < |tags| && tags[i].key == key
    ensures r.Some? ==> exists i :: 0 <= i < |tags| && tags[i] == Tag(key, r.value)
  {
    if tags == [] then None
    else if tags[0].key == key then Some(tags[0].value)
    else Get(tags[1..], key)
  }

  predicate HasKey(tags: Tags, key: string) {
    exists i :: 0 <= i < |tags| && tags[i].key == key
  }

  /** No key occurs twice, as in a Python dict. */
  predicate UniqueKeys(tags: Tags) {
    forall i, j :: 0 <= i < j < |tags| ==> tags[i].key != tags[j].key
  }

  /** In a tag list with distinct keys, `Get` gives a value exactly when the
      list holds that tag. */
  lemma {:induction false} GetOfUniqueKeys(tags: Tags, key: string, value: string)
    ensures UniqueKeys(tags) ==> (Get(tags, key) == Some(value) <==> Tag(key, value) in tags)
  {
    if tags != [] && UniqueKeys(tags) {
      var rest := tags[1..];
      assert tags == [tags[0]] + rest;
      assert UniqueKeys(rest) by {
        forall i, j | 0 <= i < j < |rest| ensures rest[i].key != rest[j].key {
          assert rest[i] == tags[i + 1] && rest[j] == tags[j + 1];
        }
      }
      GetOfUniqueKeys(rest, key, value);
    }
  }

  /** A partial tag map as it appears in prerequisites and proposed changes;
      a `None` value stands for "tag absent". */
  type TagValues = map<string, Option<string>>

  /** One `{from: ..., to: ...}` delta of `proposed_tagging_changes`. */
  datatype TagChange = TagChange(from: TagValues, to: TagValues)

  /** The `error_id` values the detector produces. */
  datatype ErrorId =
    | BlacklistedConnection
    | WikidataLinks404
    | MalformedWikipediaTag
    | MalformedWikidataTag
    | WikidataFromWikipedia
    | WikipediaLinks404
    | NoLongerExistingObject
    | InvalidOldStyleKey
    | OldStyleMismatch
    | WikipediaFromOldStyle
    | OldStyleForRemoval
    | WikipediaFromWikidata
    | WikipediaFromWikidataUnexpectedLanguage
    | FollowWikidataRedirect
    | FollowWikipediaRedirect
    | WikipediaWikidataMismatch
    | UnexpectedLanguage
    | UnexpectedLanguageArticleMissing
    | SecondaryTagExpected
    | UnlinkableArticle

  /** The identifier string of each id, as the detector spells it. */
  function ErrorIdText(id: ErrorId): string {
    match id
    case BlacklistedConnection => "blacklisted connection with known replacement"
    case WikidataLinks404 => "wikidata tag links to 404"
    case MalformedWikipediaTag => "malformed wikipedia tag"
    case MalformedWikidataTag => "malformed wikidata tag"
    case WikidataFromWikipedia => "wikidata from wikipedia tag"
    case WikipediaLinks404 => "wikipedia tag links to 404"
    case NoLongerExistingObject => "no longer existing object"
    case InvalidOldStyleKey => "invalid old-style wikipedia tag"
    case OldStyleMismatch => "wikipedia tag in outdated form and there is mismatch between links"
    case WikipediaFromOldStyle => "wikipedia tag from wikipedia tag in an outdated form"
    case OldStyleForRemoval => "wikipedia tag in an outdated form for removal"
    case WikipediaFromWikidata => "wikipedia from wikidata tag"
    case WikipediaFromWikidataUnexpectedLanguage => "wikipedia from wikidata tag, unexpected language"
    case FollowWikidataRedirect => "wikipedia wikidata mismatch - follow wikidata redirect"
    case FollowWikipediaRedirect => "wikipedia wikidata mismatch - follow wikipedia redirect"
    case WikipediaWikidataMismatch => "wikipedia wikidata mismatch"
    case UnexpectedLanguage => "wikipedia tag unexpected language"
    case UnexpectedLanguageArticleMissing => "wikipedia tag unexpected language, article missing"
    case SecondaryTagExpected => "should use a secondary wikipedia tag"
    case UnlinkableArticle => "link to an unlinkable article"
  }

  /** The fields of `ErrorReport` that the pipeline decides (messages are prose). */
  datatype ErrorReport = ErrorReport(
    errorId: ErrorId,
    prerequisite: TagValues,
    desiredTarget: Option<string>,
    proposedChanges: Option<seq<TagChange>>,
    extraData: Option<string>)

  function Issue(errorId: ErrorId, prerequisite: TagValues): ErrorReport {
    ErrorReport(errorId, prerequisite, None, None, None)
  }

  /** A single `{"wikipedia": from} -> {"wikipedia": to}` proposal. */
  function WikipediaChange(from: Option<string>, to: Option<string>): seq<TagChange> {
    [TagChange(map["wikipedia" := from], map["wikipedia" := to])]
  }

  /** What one check returns: a report, `None`, or an exception that escapes. */
  datatype Outcome = Report(report: ErrorReport) | NoReport | Raised(error: string)
  {
    predicate Reports(errorId: ErrorId) {
      Report? && report.errorId == errorId
    }
  }

  /** The first outcome that is not `None` wins; an exception stops the chain too. */
  function FirstOf(first: Outcome, second: Outcome): (r: Outcome)
    ensures !first.NoReport? ==> r == first
    ensures first.NoReport? ==> r == second
  {
    if first.NoReport? then second else first
  }

  function FromOption(r: Option<ErrorReport>): (o: Outcome)
    ensures o.NoReport? <==> r.None?
  {
    if r.Some? then Report(r.value) else NoReport
  }

  /** Constructor arguments of `WikimediaLinkIssueDetector` that affect reports. */
  datatype Config = Config(
    expectedLanguage: Option<string>,
    preferredLanguages: seq<string>,
    allowEditsOutsideOsm: bool,
    allowFalsePositives: bool)

  datatype Point = Point(lat: real, lon: real)

  /** `None`, the `(None, None)` pair, or real coordinates. */
  datatype Location = NoLocation | BlankLocation | At(point: Point)
}

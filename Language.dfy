/** The language-preference checks: a `wikipedia` link in another language
    than the expected one, unless the entity lies (partly) in a country where
    that language is not enforced. */
module Language {
  import opened Model
  import opened Gateway
  import opened LinkSyntax
  import opened Tables

  /** The countries of the statements without an end time, in order. */
  function CurrentCountries(claims: seq<CountryClaim>): (r: seq<string>)
    ensures |r| <= |claims|
    ensures forall c :: c in r <==> exists i :: 0 <= i < |claims| && claims[i] == CountryClaim(c, false)
  {
    if claims == [] then []
    else
      var front := claims[..|claims| - 1];
      var last := claims[|claims| - 1];
      var r := CurrentCountries(front);
      assert forall i :: 0 <= i < |front| ==> claims[i] == front[i];
      if last.hasEndTime then r else r + [last.countryId]
  }

  /** get_country_location_from_wikidata_id: `None` without P17 statements. */
  function CountryLocation(g: Gateway, wikidataId: string): (r: Option<seq<string>>)
    ensures r.None? <==> g.countryClaims(wikidataId).None?
    ensures r.Some? ==> forall c :: c in r.value <==>
              exists i :: 0 <= i < |g.countryClaims(wikidataId).value|
                          && g.countryClaims(wikidataId).value[i] == CountryClaim(c, false)
  {
    match g.countryClaims(wikidataId)
    case None => None
    case Some(claims) => Some(CurrentCountries(claims))
  }

  /** The loop of get_country_location_from_wikidata_id, skipping the
      statements qualified with P582 (end time). */
  method GetCountryLocation(g: Gateway, wikidataId: string) returns (countries: Option<seq<string>>)
    ensures countries == CountryLocation(g, wikidataId)
  {
    var claims := g.countryClaims(wikidataId);
    if claims.None? {
      return None;
    }
    var returned: seq<string> := [];
    for i := 0 to |claims.value|
      invariant returned == CurrentCountries(claims.value[..i])
    {
      assert claims.value[..i + 1][..i] == claims.value[..i];
      if !claims.value[i].hasEndTime {
        returned := returned + [claims.value[i].countryId];
      }
    }
    assert claims.value[..|claims.value|] == claims.value;
    return Some(returned);
  }

  /** Why a foreign-language link is acceptable. */
  datatype ForeignReason =
    | NoWikidataEntry
    | NoExpectedLanguage
    | CountryWithoutName(countryId: string)
    | PartlyInCountry(countryName: string)

  /** The answer of why_object_is_allowed_to_have_foreign_language_label: a
      reason, none, or the failed assertion of the country table. */
  datatype Allowance = Allowed(reason: ForeignReason) | NotAllowed | UnknownLanguage(languageCode: string)

  /** The first country outside the enforced list. */
  function FirstForeignCountry(countries: seq<string>, enforced: seq<string>): (r: Option<string>)
    ensures r.None? <==> forall c :: c in countries ==> c in enforced
    ensures r.Some? ==> exists i :: 0 <= i < |countries| && countries[i] == r.value && r.value !in enforced
                          && forall j :: 0 <= j < i ==> countries[j] in enforced
  {
    if countries == [] then None
    else if countries[0] !in enforced then Some(countries[0])
    else
      var r := FirstForeignCountry(countries[1..], enforced);
      assert forall i :: 1 <= i < |countries| ==> countries[i] == countries[1..][i - 1];
      assert countries == [countries[0]] + countries[1..];
      r
  }

  /** The countries of a claim list are those of its first claim (unless it
      has an end time) followed by those of the rest: statement order is kept. */
  lemma {:induction false} CurrentCountriesOfFirstClaim(first: CountryClaim, rest: seq<CountryClaim>)
    ensures CurrentCountries([first] + rest) == (if first.hasEndTime then [] else [first.countryId]) + CurrentCountries(rest)
    decreases |rest|
  {
    var claims := [first] + rest;
    if rest == [] {
      assert claims[..|claims| - 1] == [];
    } else {
      var front := rest[..|rest| - 1];
      var last := rest[|rest| - 1];
      var kept := if first.hasEndTime then [] else [first.countryId];
      var tail := if last.hasEndTime then [] else [last.countryId];
      assert claims[..|claims| - 1] == [first] + front;
      assert claims[|claims| - 1] == last;
      assert CurrentCountries(claims) == CurrentCountries([first] + front) + tail;
      assert CurrentCountries(rest) == CurrentCountries(front) + tail;
      CurrentCountriesOfFirstClaim(first, front);
      assert kept + CurrentCountries(front) + tail == kept + (CurrentCountries(front) + tail);
    }
  }

  /** Statement `i` is the first current one whose country is outside the
      enforced list, and its country is `c`. */
  predicate FirstForeignClaim(claims: seq<CountryClaim>, enforced: seq<string>, c: string, i: int) {
    && 0 <= i < |claims|
    && claims[i] == CountryClaim(c, false)
    && c !in enforced
    && forall j :: 0 <= j < i ==> claims[j].hasEndTime || claims[j].countryId in enforced
  }

  /** An enforced country in front does not change the first foreign one. */
  lemma FirstForeignAfterEnforced(country: string, rest: seq<string>, enforced: seq<string>)
    requires country in enforced
    ensures FirstForeignCountry([country] + rest, enforced) == FirstForeignCountry(rest, enforced)
  {
    assert ([country] + rest)[1..] == rest;
  }

  /** A first statement that is ended or names an enforced country is never
      the first foreign one, so the first foreign statement lies in the rest. */
  lemma SkippedFirstClaim(first: CountryClaim, rest: seq<CountryClaim>, enforced: seq<string>, c: string)
    requires first.hasEndTime || first.countryId in enforced
    ensures (exists i :: FirstForeignClaim([first] + rest, enforced, c, i)) <==>
            (exists i :: FirstForeignClaim(rest, enforced, c, i))
  {
    var claims := [first] + rest;
    if i :| FirstForeignClaim(claims, enforced, c, i) {
      assert i != 0;
      assert forall j :: 0 <= j < |rest| ==> rest[j] == claims[j + 1];
      assert FirstForeignClaim(rest, enforced, c, i - 1);
    }
    if i :| FirstForeignClaim(rest, enforced, c, i) {
      assert FirstForeignClaim(claims, enforced, c, i + 1);
    }
  }

  /** The first foreign country of the current countries is the country of
      the first P17 statement, in statement order, that has no end time and
      names a country outside the enforced list. */
  lemma {:induction false} FirstForeignCurrentCountry(claims: seq<CountryClaim>, enforced: seq<string>, c: string)
    ensures FirstForeignCountry(CurrentCountries(claims), enforced) == Some(c) <==>
              exists i :: FirstForeignClaim(claims, enforced, c, i)
    decreases |claims|
  {
    if claims != [] {
      var first := claims[0];
      var rest := claims[1..];
      assert claims == [first] + rest;
      var countries := CurrentCountries(claims);
      CurrentCountriesOfFirstClaim(first, rest);
      if first.hasEndTime || first.countryId in enforced {
        FirstForeignCurrentCountry(rest, enforced, c);
        SkippedFirstClaim(first, rest, enforced, c);
        if first.hasEndTime {
          assert countries == CurrentCountries(rest);
        } else {
          assert countries == [first.countryId] + CurrentCountries(rest);
          FirstForeignAfterEnforced(first.countryId, CurrentCountries(rest), enforced);
        }
      } else {
        assert countries[0] == first.countryId;
        assert FirstForeignCountry(countries, enforced) == Some(first.countryId);
        if c == first.countryId {
          assert FirstForeignClaim(claims, enforced, c, 0);
        } else {
          // statement 0 is current and foreign, so no later one is first
          forall i | 1 <= i < |claims|
            ensures !FirstForeignClaim(claims, enforced, c, i)
          {
            assert !(claims[0].hasEndTime || claims[0].countryId in enforced);
          }
        }
      }
    }
  }

  /** Country `i` is the first outside the enforced list and gives `reason`:
      its id when it has no English label, else its label, unless it is Q7318
      (the label test comes first, so a nameless Q7318 still gives a reason). */
  predicate ExcusedBy(g: Gateway, countries: seq<string>, enforced: seq<string>, i: int, reason: ForeignReason) {
    && 0 <= i < |countries|
    && countries[i] !in enforced
    && (forall j :: 0 <= j < i ==> countries[j] in enforced)
    && (reason.CountryWithoutName? ==> reason.countryId == countries[i] && g.englishLabel(countries[i]).None?)
    && (reason.PartlyInCountry? ==> g.englishLabel(countries[i]) == Some(reason.countryName) && countries[i] != "Q7318")
  }

  /** why_object_is_allowed_to_have_foreign_language_label, with the country
      table as written (Czechia's list keyed by `cz`). */
  function WhyAllowedForeignLanguage(cfg: Config, g: Gateway, wikidataId: Option<string>): (r: Allowance)
    ensures wikidataId.None? ==> r == Allowed(NoWikidataEntry)
    ensures wikidataId.Some? && cfg.expectedLanguage.None? ==> r == Allowed(NoExpectedLanguage)
    // the table's assertion fails before the entity's countries are read
    ensures r.UnknownLanguage? <==>
              wikidataId.Some? && cfg.expectedLanguage.Some? && CountriesWithLanguageAsWritten(cfg.expectedLanguage.value).None?
    // an entity wholly inside enforcing countries, or with no country data, has no excuse
    ensures wikidataId.Some? && cfg.expectedLanguage.Some? && CountriesWithLanguageAsWritten(cfg.expectedLanguage.value).Some? ==>
              (CountryLocation(g, wikidataId.value).None?
               || forall c :: c in CountryLocation(g, wikidataId.value).value ==> c in CountriesWithLanguageAsWritten(cfg.expectedLanguage.value).value)
              ==> r.NotAllowed?
    // the first current country outside the enforced list excuses the link:
    // by its id when it has no English label, by its label unless it is Q7318
    ensures wikidataId.Some? && cfg.expectedLanguage.Some? && CountriesWithLanguageAsWritten(cfg.expectedLanguage.value).Some?
            && CountryLocation(g, wikidataId.value).Some?
            && FirstForeignCountry(CountryLocation(g, wikidataId.value).value,
                                   CountriesWithLanguageAsWritten(cfg.expectedLanguage.value).value).Some? ==>
              var country := FirstForeignCountry(CountryLocation(g, wikidataId.value).value,
                                                 CountriesWithLanguageAsWritten(cfg.expectedLanguage.value).value).value;
              && (g.englishLabel(country).None? ==> r == Allowed(CountryWithoutName(country)))
              && (g.englishLabel(country).Some? && country != "Q7318" ==> r == Allowed(PartlyInCountry(g.englishLabel(country).value)))
  {
    if wikidataId.None? then Allowed(NoWikidataEntry)
    else if cfg.expectedLanguage.None? then Allowed(NoExpectedLanguage)
    else match CountriesWithLanguageAsWritten(cfg.expectedLanguage.value)
      case None => UnknownLanguage(cfg.expectedLanguage.value)
      case Some(enforced) =>
        match CountryLocation(g, wikidataId.value)
        case None => NotAllowed
        case Some(countries) =>
          match FirstForeignCountry(countries, enforced)
          case None => NotAllowed
          case Some(country) =>
            match g.englishLabel(country)
            case None => Allowed(CountryWithoutName(country))
            case Some(name) => if country == "Q7318" then NotAllowed else Allowed(PartlyInCountry(name))
  }

  /** A country reason names a current country outside the enforced list,
      with nothing but enforced countries before it. */
  lemma CountryReasonIsFirstForeignCountry(cfg: Config, g: Gateway, wikidataId: Option<string>)
    ensures var r := WhyAllowedForeignLanguage(cfg, g, wikidataId);
            r.Allowed? && (r.reason.CountryWithoutName? || r.reason.PartlyInCountry?) ==>
              && wikidataId.Some? && cfg.expectedLanguage.Some?
              && CountriesWithLanguageAsWritten(cfg.expectedLanguage.value).Some?
              && CountryLocation(g, wikidataId.value).Some?
              && exists i :: ExcusedBy(g, CountryLocation(g, wikidataId.value).value,
                                       CountriesWithLanguageAsWritten(cfg.expectedLanguage.value).value, i, r.reason)
  {
    var r := WhyAllowedForeignLanguage(cfg, g, wikidataId);
    if r.Allowed? && (r.reason.CountryWithoutName? || r.reason.PartlyInCountry?) {
      var countries := CountryLocation(g, wikidataId.value).value;
      var enforced := CountriesWithLanguageAsWritten(cfg.expectedLanguage.value).value;
      var i :| 0 <= i < |countries| && countries[i] == FirstForeignCountry(countries, enforced).value
               && countries[i] !in enforced && forall j :: 0 <= j < i ==> countries[j] in enforced;
      assert ExcusedBy(g, countries, enforced, i, r.reason);
    }
  }

  /** An entity whose first foreign country is Q7318 (a state that no longer
      exists) gets no excuse when that country has a name. */
  lemma Q7318IsNoExcuse(cfg: Config, g: Gateway, wikidataId: string)
    requires cfg.expectedLanguage.Some? && CountriesWithLanguageAsWritten(cfg.expectedLanguage.value).Some?
    requires CountryLocation(g, wikidataId).Some?
    requires FirstForeignCountry(CountryLocation(g, wikidataId).value,
                                 CountriesWithLanguageAsWritten(cfg.expectedLanguage.value).value) == Some("Q7318")
    requires g.englishLabel("Q7318").Some?
    ensures WhyAllowedForeignLanguage(cfg, g, Some(wikidataId)) == NotAllowed
  {
  }

  /** get_wikipedia_language_issues. A link without a language part fails
      while building the prerequisite (`None + ":"`), and an expected
      language without a country list fails the table's assertion. */
  function WikipediaLanguageIssues(cfg: Config, g: Gateway, wikipedia: Option<string>, wikidataId: Option<string>)
    : (r: Outcome)
    ensures cfg.expectedLanguage.None? ==> r.NoReport?
    ensures wikipedia.None? ==> r.NoReport?
    ensures wikipedia.Some? && BeforeFirstColon(wikipedia.value) == cfg.expectedLanguage ==> r.NoReport?
    ensures r.Report? ==>
              && WhyAllowedForeignLanguage(cfg, g, wikidataId).NotAllowed?
              && r.report.prerequisite == map["wikipedia" := wikipedia]
              && r.report.errorId in {UnexpectedLanguage, UnexpectedLanguageArticleMissing}
    // the proposed target is the interwiki article in the expected language
    ensures r.Reports(UnexpectedLanguage) ==>
              wikipedia.Some? && ':' in wikipedia.value && cfg.expectedLanguage.Some? &&
              var language := BeforeFirstColon(wikipedia.value).value;
              var article := AfterFirstColon(wikipedia.value).value;
              var expected := cfg.expectedLanguage.value;
              && g.interwikiTitle(language, article, expected).Some?
              && r.report.desiredTarget == Some(expected + ":" + g.interwikiTitle(language, article, expected).value)
              && r.report.proposedChanges == Some(WikipediaChange(wikipedia, r.report.desiredTarget))
    // asking for an article that may not exist needs both permissions
    ensures r.Reports(UnexpectedLanguageArticleMissing) ==>
              && wikipedia.Some? && ':' in wikipedia.value && cfg.expectedLanguage.Some?
              && cfg.allowEditsOutsideOsm && cfg.allowFalsePositives
              && g.interwikiTitle(BeforeFirstColon(wikipedia.value).value, AfterFirstColon(wikipedia.value).value,
                                  cfg.expectedLanguage.value).None?
    // an excused link is never reported
    ensures wikipedia.Some? && ':' in wikipedia.value && WhyAllowedForeignLanguage(cfg, g, wikidataId).Allowed? ==> r.NoReport?
    // a link in another language without an excuse is reported: with the
    // target when the expected-language article exists, and otherwise
    // exactly when both permissions are given
    ensures wikipedia.Some? && ':' in wikipedia.value && cfg.expectedLanguage.Some?
            && BeforeFirstColon(wikipedia.value) != cfg.expectedLanguage
            && WhyAllowedForeignLanguage(cfg, g, wikidataId).NotAllowed? ==>
              var title := g.interwikiTitle(BeforeFirstColon(wikipedia.value).value, AfterFirstColon(wikipedia.value).value,
                                            cfg.expectedLanguage.value);
              && (title.Some? ==> r.Reports(UnexpectedLanguage))
              && (title.None? ==> (r.Reports(UnexpectedLanguageArticleMissing) <==> cfg.allowEditsOutsideOsm && cfg.allowFalsePositives))
    ensures r.Raised? <==>
              && wikipedia.Some? && cfg.expectedLanguage.Some?
              && BeforeFirstColon(wikipedia.value) != cfg.expectedLanguage
              && (':' !in wikipedia.value || WhyAllowedForeignLanguage(cfg, g, wikidataId).UnknownLanguage?)
  {
    if wikipedia.None? then NoReport
    else
      var article := AfterFirstColon(wikipedia.value);
      var language := BeforeFirstColon(wikipedia.value);
      if cfg.expectedLanguage.None? then NoReport
      else if cfg.expectedLanguage == language then NoReport
      else if language.None? then Raised("TypeError")
      else
        var expected := cfg.expectedLanguage.value;
        var link := language.value + ":" + article.value;
        var prerequisite := map["wikipedia" := Some(link)];
        match WhyAllowedForeignLanguage(cfg, g, wikidataId)
        case UnknownLanguage(_) => Raised("AssertionError")
        case Allowed(_) => NoReport
        case NotAllowed =>
          match g.interwikiTitle(language.value, article.value, expected)
          case Some(correct) =>
            var goodLink := expected + ":" + correct;
            Report(ErrorReport(UnexpectedLanguage, prerequisite, Some(goodLink),
                               Some(WikipediaChange(Some(link), Some(goodLink))), None))
          case None =>
            if !cfg.allowEditsOutsideOsm then NoReport
            else if !cfg.allowFalsePositives then NoReport
            else Report(Issue(UnexpectedLanguageArticleMissing, prerequisite))
  }
}

/** Static admissibility tables of the detector: the blacklist of entities that
    have an obvious secondary-tag replacement, the types that make an entity an
    invalid primary link, the types known to be mappable, and the countries in
    which an expected language is enforced. */
module Tables {
  import opened Model

  datatype BlacklistEntry = BlacklistEntry(
    prefix: string,
    expectedTags: map<string, string>,
    name: Option<string>,
    allowedTags: map<string, string>)

  function Brand(expected: map<string, string>, name: string): BlacklistEntry {
    BlacklistEntry("brand:", expected, Some(name), map[])
  }

  /** wikidata_connection_blacklist, a representative part of it. The entries
      keep the literal's order, including its repeated keys, and as in a Python
      dict literal the later entry of a repeated key wins. */
  function WikidataConnectionBlacklist(): map<string, BlacklistEntry> {
    map[
      "Q668687" := Brand(map["amenity" := "post_office"], "United States Postal Service"),
      "Q373724" := BlacklistEntry("brand:", map["amenity" := "post_office"], None, map[]),
      "Q864407" := BlacklistEntry("brand:", map["shop" := "doityourself"], Some("Home Depot"),
                                  map["name" := "The Home Depot"]),
      "Q54078" := Brand(map["shop" := "furniture"], "IKEA"),
      "Q151954" := BlacklistEntry("brand:", map["shop" := "supermarket"], Some("Lidl"), map["name:es" := "Lidl"]),
      "Q701755" := Brand(map["shop" := "supermarket"], "Edeka"),
      "Q701755" := Brand(map["shop" := "supermarket"], "Treff 3000"),
      "Q26070" := Brand(map["shop" := "clothes"], "ユニクロ"),
      "Q26070" := Brand(map["shop" := "clothes"], "Uniqlo"),
      "Q9584" := Brand(map["shop" := "car"], "Honda"),
      "Q9584" := Brand(map["shop" := "car"], "ホンダ"),
      "Q5600598" := BlacklistEntry("operator:", map[], None, map[]),
      "Q8034539" := BlacklistEntry("operator:", map["office" := "government", "name" := "WorkSafeBC"], None, map[]),
      "Q2989971" := BlacklistEntry("former_operator:", map["abandoned:man_made" := "mineshaft"], None, map[]),
      "Q181191" := BlacklistEntry("species:", map["attraction" := "animal"], None, map[])
    ]
  }

  /** `wikidata_connection_blacklist()[wikidata_id]['prefix']`, with the
      `KeyError` (also raised for a `None` id) turned into "no prefix". */
  function BlacklistPrefix(wikidataId: Option<string>): (r: Option<string>)
    ensures r.Some? <==> wikidataId.Some? && wikidataId.value in WikidataConnectionBlacklist()
    ensures r.Some? ==> r.value == WikidataConnectionBlacklist()[wikidataId.value].prefix
  {
    if wikidataId.Some? && wikidataId.value in WikidataConnectionBlacklist()
    then Some(WikidataConnectionBlacklist()[wikidataId.value].prefix)
    else None
  }

  /** Repeated keys of the literal keep their last entry. */
  lemma RepeatedBlacklistKeysKeepLastEntry()
    ensures WikidataConnectionBlacklist()["Q701755"].name == Some("Treff 3000")
    ensures WikidataConnectionBlacklist()["Q26070"].name == Some("Uniqlo")
    ensures WikidataConnectionBlacklist()["Q9584"].name == Some("ホンダ")
  {
  }

  /** Every blacklisted entity is replaced by a `brand:`, `operator:`,
      `former_operator:` or `species:` secondary tag. */
  lemma BlacklistPrefixes(id: string)
    requires id in WikidataConnectionBlacklist()
    ensures WikidataConnectionBlacklist()[id].prefix in {"brand:", "operator:", "former_operator:", "species:"}
  {
  }

  /** The `{'what': ..., 'replacement': ...}` dict. */
  datatype Reason = Reason(what: string, replacement: Option<string>)

  /** get_reason_why_type_makes_object_invalid_primary_link. */
  function UnlinkableTypeReason(typeId: string): (r: Option<Reason>)
    ensures r.Some? <==> typeId in UnlinkableTypes()
    ensures r.Some? && r.value.replacement.Some? ==>
              r.value.replacement.value in {"name:", "brand:", "subject:"}
    ensures typeId == "Q5" ==> r == Some(Reason("a human", Some("name:")))
  {
    if typeId == "Q5" then Some(Reason("a human", Some("name:")))
    else if typeId in ["Q18786396", "Q16521", "Q55983715", "Q12045585", "Q729", "Q5113"]
    then Some(Reason("an animal or plant", None))
    else if typeId == "Q1344" then Some(Reason("an opera", None))
    else if typeId == "Q35127" then Some(Reason("a website", None))
    else if typeId == "Q17320256" then Some(Reason("a physical process", None))
    else if typeId == "Q1656682" || typeId == "Q4026292" || typeId == "Q3249551" || typeId == "Q1190554"
    then Some(Reason("an event", None))
    else if typeId == "Q5398426" then Some(Reason("a television series", None))
    else if typeId == "Q3026787" then Some(Reason("a saying", None))
    else if typeId == "Q18534542" then Some(Reason("a restaurant chain", Some("brand:")))
    else if typeId == "Q507619" then Some(Reason("a chain store", Some("brand:")))
    else if typeId == "Q202444" then Some(Reason("a given name", Some("name:")))
    else if typeId == "Q29048322" then Some(Reason(" vehicle model", Some("subject:")))
    else if typeId == "Q21502408" then Some(Reason("a mandatory constraint", None))
    else None
  }

  /** The type ids the reason table answers for. */
  function UnlinkableTypes(): set<string> {
    {"Q5", "Q18786396", "Q16521", "Q55983715", "Q12045585", "Q729", "Q5113", "Q1344",
     "Q35127", "Q17320256", "Q1656682", "Q4026292", "Q3249551", "Q1190554", "Q5398426",
     "Q3026787", "Q18534542", "Q507619", "Q202444", "Q29048322", "Q21502408"}
  }

  datatype MappableType = MappableType(wikidata: string, description: string)

  /** objects_mappable_in_OSM, ids with shortened labels. */
  function MappableTypes(): seq<MappableType> {
    [ MappableType("Q486972", "human settlement"),
      MappableType("Q811979", "designed structure"),
      MappableType("Q46831", "mountain range"),
      MappableType("Q11776944", "Megaregion"),
      MappableType("Q31855", "instytut badawczy"),
      MappableType("Q34442", "road"),
      MappableType("Q2143825", "walking path"),
      MappableType("Q11634", "art of sculpture"),
      MappableType("Q56061", "administrative territorial entity"),
      MappableType("Q473972", "protected area"),
      MappableType("Q4022", "river"),
      MappableType("Q22698", "park"),
      MappableType("Q11446", "ship"),
      MappableType("Q12876", "tank"),
      MappableType("Q57607", "christmas market"),
      MappableType("Q8502", "mountain"),
      MappableType("Q10862618", "mountain saddle"),
      MappableType("Q35509", "cave"),
      MappableType("Q23397", "lake"),
      MappableType("Q39816", "valley"),
      MappableType("Q179700", "statue"),
      MappableType("Q271669", "landform"),
      MappableType("Q376799", "transport infrastructure"),
      MappableType("Q15324", "body of water"),
      MappableType("Q975783", "land estate"),
      MappableType("Q8205328", "equipment"),
      MappableType("Q618123", "geographical object"),
      MappableType("Q43229", "organization") ]
  }

  /** is_wikidata_type_id_recognised_as_OK: a scan of the mappable types. */
  function IsTypeRecognisedAsOk(typeId: string): (r: bool)
    ensures r <==> exists i :: 0 <= i < |MappableTypes()| && MappableTypes()[i].wikidata == typeId
  {
    MappableIn(MappableTypes(), typeId)
  }

  function MappableIn(types: seq<MappableType>, typeId: string): (r: bool)
    ensures r <==> exists i :: 0 <= i < |types| && types[i].wikidata == typeId
  {
    if types == [] then false
    else if typeId == types[0].wikidata then true
    else
      assert forall i :: 1 <= i < |types| ==> types[i] == types[1..][i - 1];
      MappableIn(types[1..], typeId)
  }

  /** wikidata_ids_of_countries_with_language as written; `None` stands for
      its `assert False` on a language without a hard-coded country list. */
  function CountriesWithLanguageAsWritten(languageCode: string): (r: Option<seq<string>>)
    ensures r.Some? <==> languageCode in {"pl", "de", "cz", "en"}
  {
    if languageCode == "pl" then Some(["Q36"])
    else if languageCode == "de" then Some(["Q183"])
    else if languageCode == "cz" then Some(["Q213"])
    else if languageCode == "en" then Some(["Q145", "Q30", "Q664", "Q408", "Q16", "Q22890"])
    else None
  }

  /** The table keys Czechia's list by "cz", a country code; the Czech
      Wikipedia's language code is "cs", so a detector configured for Czech
      fails the table's assertion, and the "cz" entry can match no link. */
  lemma CzechListIsKeyedByCountryCode()
    ensures CountriesWithLanguageAsWritten("cs").None?
    ensures CountriesWithLanguageAsWritten("cz") == Some(["Q213"])
  {
  }

  /** wikidata_ids_of_countries_with_language with Czech under "cs". */
  function CountriesWithLanguage(languageCode: string): (r: Option<seq<string>>)
    ensures r.Some? <==> languageCode in {"pl", "de", "cs", "en"}
    ensures languageCode == "cs" ==> r == Some(["Q213"])
    ensures languageCode != "cs" && languageCode != "cz" ==> r == CountriesWithLanguageAsWritten(languageCode)
  {
    if languageCode == "pl" then Some(["Q36"])
    else if languageCode == "de" then Some(["Q183"])
    else if languageCode == "cs" then Some(["Q213"])
    else if languageCode == "en" then Some(["Q145", "Q30", "Q664", "Q408", "Q16", "Q22890"])
    else None
  }
}

/** The knowledge-base access layer the detector calls, as a record of lookup
    functions. Each field stands for one call of `wikimedia_connection`,
    `wikidata_processing` or `wikipedia_knowledge`; the model fixes one answer
    per argument, as one cached snapshot of Wikipedia and Wikidata would. */
module Gateway {
  import opened Model

  /** A P17 (country) statement: the country id and whether it carries a P582
      (end time) qualifier. */
  datatype CountryClaim = CountryClaim(countryId: string, hasEndTime: bool)

  datatype Gateway = Gateway(
    // all_wikipedia_language_codes_order_by_importance()
    languageCodes: seq<string>,
    // get_data_from_wikidata_by_id(id) != None
    entityExists: string -> bool,
    // get_wikidata_id_after_redirect: the id read back from the entity data
    entityIdAfterRedirect: string -> string,
    // get_wikidata_object_id_from_link(link)
    idFromLink: Option<string> -> Option<string>,
    // get_wikidata_object_id_from_article(language, title)
    idFromArticle: (string, string) -> Option<string>,
    // get_interwiki_article_name(language, title, target language)
    interwikiTitle: (string, string, string) -> Option<string>,
    // get_wikipedia_page(language, title) != None
    pageExists: (string, string) -> bool,
    // get_article_name_after_redirect: the canonical title
    titleAfterRedirect: (string, string) -> string,
    // get_interwiki_article_name_by_id(id, language)
    titleById: (Option<string>, string) -> Option<string>,
    // get_property_from_wikidata(id, property) != None
    hasProperty: (string, string) -> bool,
    // P159 statements, each resolved by get_location_of_this_headquaters
    // (None stands for the (None, None) it returns)
    headquarters: string -> Option<seq<Option<Point>>>,
    // P17 statements
    countryClaims: string -> Option<seq<CountryClaim>>,
    // get_wikidata_type_ids_of_entry(id)
    baseTypes: string -> Option<seq<string>>,
    // get_all_types_describing_wikidata_object(id), in traversal order
    allTypes: string -> seq<string>,
    // get_wikidata_label(id, 'en')
    englishLabel: string -> Option<string>,
    // geopy.distance.vincenty(a, b).km > 20
    fartherThan20Km: (Point, Point) -> bool,
    // the order in which `list(set(links))` lists the distinct links: Python
    // iterates a set of strings in an order set by the strings' hashes
    setOrder: seq<string> -> seq<string>)
}

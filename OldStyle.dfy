/** Old-style `wikipedia:xx` keys: detection, validation, and migration to a
    single `wikipedia` tag through a normalised Wikidata id. */
module OldStyle {
  import opened Model
  import opened Gateway
  import opened LinkSyntax
  import opened Validators
  import opened Interwiki

  /** get_old_style_wikipedia_keys: the keys holding `wikipedia:`, in tag order. */
  function OldStyleWikipediaKeys(tags: Tags): (keys: seq<string>)
    ensures forall k :: k in keys <==> exists i :: 0 <= i < |tags| && tags[i].key == k && Contains(k, "wikipedia:")
    ensures forall k :: k in keys ==> HasKey(tags, k) && ':' in k
  {
    if tags == [] then []
    else
      var front := tags[..|tags| - 1];
      var last := tags[|tags| - 1];
      var keys := OldStyleWikipediaKeys(front);
      assert forall i :: 0 <= i < |front| ==> tags[i] == front[i];
      if Contains(last.key, "wikipedia:") then
        OldStyleMarkerHasColon(last.key);
        keys + [last.key]
      else keys
  }

  /** The loop of get_old_style_wikipedia_keys, appending key by key. */
  method CollectOldStyleWikipediaKeys(tags: Tags) returns (keys: seq<string>)
    ensures keys == OldStyleWikipediaKeys(tags)
  {
    keys := [];
    for i := 0 to |tags|
      invariant keys == OldStyleWikipediaKeys(tags[..i])
    {
      assert tags[..i + 1][..i] == tags[..i];
      if Contains(tags[i].key, "wikipedia:") {
        keys := keys + [tags[i].key];
      }
    }
    assert tags[..|tags|] == tags;
  }

  /** The first key of check_is_invalid_old_style_wikipedia_tag_present that is
      not `wikipedia:` plus a known language code. */
  function FirstInvalidOldStyleKey(g: Gateway, keys: seq<string>): (r: Option<string>)
    ensures r.None? <==> forall k :: k in keys ==> IsValidOldStyleKey(g, k)
    ensures r.Some? ==> exists i :: 0 <= i < |keys| && keys[i] == r.value && !IsValidOldStyleKey(g, r.value)
                          && forall j :: 0 <= j < i ==> IsValidOldStyleKey(g, keys[j])
  {
    if keys == [] then None
    else if !IsValidOldStyleKey(g, keys[0]) then Some(keys[0])
    else
      var r := FirstInvalidOldStyleKey(g, keys[1..]);
      assert forall j :: 1 <= j < |keys| ==> keys[j] == keys[1..][j - 1];
      assert keys == [keys[0]] + keys[1..];
      r
  }

  /** check_is_invalid_old_style_wikipedia_tag_present. */
  function InvalidOldStyleKeyReport(g: Gateway, tags: Tags, keys: seq<string>): (r: Option<ErrorReport>)
    ensures r.Some? <==> exists k :: k in keys && !IsValidOldStyleKey(g, k)
    // the report names the first invalid key, with its value
    ensures r.Some? ==>
              var key := FirstInvalidOldStyleKey(g, keys).value;
              && r.value.errorId == InvalidOldStyleKey
              && r.value.prerequisite == map[key := Get(tags, key)]
              && !IsValidOldStyleKey(g, key)
              && exists i :: 0 <= i < |keys| && keys[i] == key && forall j :: 0 <= j < i ==> IsValidOldStyleKey(g, keys[j])
  {
    var key := FirstInvalidOldStyleKey(g, keys);
    if key.Some? then Some(Issue(InvalidOldStyleKey, map[key.value := Get(tags, key.value)]))
    else None
  }

  /** The candidate link of one old-style key: the entity's best interwiki
      link when the article has an entity and that entity has any article,
      else the key's own `lang:title`. */
  function CandidateLink(cfg: Config, g: Gateway, language: string, title: string): string {
    match g.idFromArticle(language, title)
    case None => language + ":" + title
    case Some(id) =>
      match BestInterwikiLink(cfg, g, Some(id))
      case None => language + ":" + title
      case Some(link) => link
  }

  predicate KeysOfTags(tags: Tags, keys: seq<string>) {
    forall k :: k in keys ==> HasKey(tags, k) && ':' in k
  }

  /** One candidate per key, in key order, before de-duplication. */
  function CandidateLinks(cfg: Config, g: Gateway, tags: Tags, keys: seq<string>): (links: seq<string>)
    requires KeysOfTags(tags, keys)
    ensures |links| == |keys|
  {
    if keys == [] then []
    else
      var key := keys[|keys| - 1];
      assert key in keys;
      CandidateLinks(cfg, g, tags, keys[..|keys| - 1]) + [CandidateLink(cfg, g, AfterFirstColon(key).value, Get(tags, key).value)]
  }

  /** The candidate at position `i` is the one computed from key `i`. */
  lemma {:induction false} CandidateOfEachKey(cfg: Config, g: Gateway, tags: Tags, keys: seq<string>, i: int)
    requires KeysOfTags(tags, keys) && 0 <= i < |keys|
    ensures keys[i] in keys
    ensures CandidateLinks(cfg, g, tags, keys)[i]
            == CandidateLink(cfg, g, AfterFirstColon(keys[i]).value, Get(tags, keys[i]).value)
  {
    var front := keys[..|keys| - 1];
    var last := keys[|keys| - 1];
    assert last in keys;
    assert CandidateLinks(cfg, g, tags, keys)
           == CandidateLinks(cfg, g, tags, front) + [CandidateLink(cfg, g, AfterFirstColon(last).value, Get(tags, last).value)];
    if i < |keys| - 1 {
      assert front[i] == keys[i];
      assert KeysOfTags(tags, front) by {
        forall k | k in front ensures k in keys {}
      }
      CandidateOfEachKey(cfg, g, tags, front, i);
    }
  }

  lemma CandidateLinksStep(cfg: Config, g: Gateway, tags: Tags, keys: seq<string>, i: int)
    requires KeysOfTags(tags, keys) && 0 <= i < |keys|
    ensures KeysOfTags(tags, keys[..i]) && KeysOfTags(tags, keys[..i + 1])
    ensures CandidateLinks(cfg, g, tags, keys[..i + 1])
            == CandidateLinks(cfg, g, tags, keys[..i])
               + [CandidateLink(cfg, g, AfterFirstColon(keys[i]).value, Get(tags, keys[i]).value)]
  {
    assert keys[..i + 1][..i] == keys[..i];
  }

  predicate Distinct(s: seq<string>) {
    forall i, j :: 0 <= i < j < |s| ==> s[i] != s[j]
  }

  /** The distinct elements of `ys` that occur in `s`, each at its first
      occurrence in `ys`. */
  function FirstOccurrences(ys: seq<string>, s: seq<string>): (r: seq<string>)
    ensures Distinct(r)
    ensures forall x :: x in r <==> x in ys && x in s
  {
    if ys == [] then []
    else
      var front := ys[..|ys| - 1];
      var last := ys[|ys| - 1];
      assert ys == front + [last];
      var r := FirstOccurrences(front, s);
      if last in s && last !in r then r + [last] else r
  }

  /** Python's `list(set(s))`: each element of `s` once, in the order the
      interpreter lists the set (the gateway's `setOrder`). An answer of that
      oracle that is not a listing of the set is completed by first occurrence,
      so the result always lists exactly the elements of `s`. */
  function SetListing(g: Gateway, s: seq<string>): (r: seq<string>)
    ensures Distinct(r)
    ensures forall x :: x in r <==> x in s
  {
    FirstOccurrences(g.setOrder(s) + s, s)
  }

  lemma {:induction false} FirstOccurrencesOfDistinct(ys: seq<string>, s: seq<string>)
    requires Distinct(ys) && forall y :: y in ys ==> y in s
    ensures FirstOccurrences(ys, s) == ys
  {
    if ys != [] {
      var front := ys[..|ys| - 1];
      var last := ys[|ys| - 1];
      assert ys == front + [last];
      assert forall y :: y in front ==> y in ys;
      FirstOccurrencesOfDistinct(front, s);
    }
  }

  lemma {:induction false} FirstOccurrencesOfRepeats(ys: seq<string>, zs: seq<string>, s: seq<string>)
    requires forall z :: z in zs ==> z in ys
    ensures FirstOccurrences(ys + zs, s) == FirstOccurrences(ys, s)
  {
    if zs == [] {
      assert ys + zs == ys;
    } else {
      var front := zs[..|zs| - 1];
      var last := zs[|zs| - 1];
      assert ys + zs == (ys + front) + [last];
      assert (ys + zs)[..|ys + zs| - 1] == ys + front;
      assert forall z :: z in front ==> z in zs;
      FirstOccurrencesOfRepeats(ys, front, s);
      assert last in zs;
    }
  }

  /** When the interpreter's order is a listing of the set, `list(set(s))` is
      exactly that order. */
  lemma SetListingFollowsSetOrder(g: Gateway, s: seq<string>)
    requires Distinct(g.setOrder(s)) && forall x :: x in g.setOrder(s) <==> x in s
    ensures SetListing(g, s) == g.setOrder(s)
  {
    FirstOccurrencesOfRepeats(g.setOrder(s), s, s);
    FirstOccurrencesOfDistinct(g.setOrder(s), s);
  }

  /** wikipedia_candidates_based_on_old_style_wikipedia_keys: the candidates
      appended key by key, then passed through `list(set(...))`. */
  method WikipediaCandidates(cfg: Config, g: Gateway, tags: Tags, keys: seq<string>) returns (links: seq<string>)
    requires KeysOfTags(tags, keys)
    ensures links == SetListing(g, CandidateLinks(cfg, g, tags, keys))
  {
    var found: seq<string> := [];
    for i := 0 to |keys|
      invariant found == CandidateLinks(cfg, g, tags, keys[..i])
    {
      CandidateLinksStep(cfg, g, tags, keys, i);
      var language := AfterFirstColon(keys[i]).value;
      var title := Get(tags, keys[i]).value;
      var candidate := language + ":" + title;
      var id := g.idFromArticle(language, title);
      if id.Some? {
        var link := GetBestInterwikiLinkById(cfg, g, id);
        if link.Some? {
          candidate := link.value;
        }
      }
      found := found + [candidate];
    }
    assert keys[..|keys|] == keys;
    links := SetListing(g, found);
  }

  /** normalized_id exactly as written: the running id starts at the wikidata
      tag, is taken from the first link while it is still `None`, and any link
      whose id differs from it ends the scan with `None`. */
  function NormalizedIdAsWritten(g: Gateway, links: seq<Option<string>>, normalized: Option<string>): (r: Option<string>)
    ensures (exists i :: 0 <= i < |links| && links[i].None?) ==> r.None?
    ensures links == [] ==> r == normalized
    ensures r.Some? ==> forall i :: 0 <= i < |links| ==> g.idFromLink(links[i]) in {None, r}
    ensures r.Some? && normalized.Some? ==>
              r == normalized && forall i :: 0 <= i < |links| ==> g.idFromLink(links[i]) == r
  {
    if links == [] then normalized
    else if links[0].None? then None
    else
      var id := g.idFromLink(links[0]);
      var next := if normalized.None? then id else normalized;
      if next != id then None
      else
        var r := NormalizedIdAsWritten(g, links[1..], next);
        assert forall i :: 1 <= i < |links| ==> links[i] == links[1..][i - 1];
        r
  }

  /** The loop of normalized_id, updating the running id link by link. */
  method NormalizedIdLoop(g: Gateway, links: seq<Option<string>>, wikidataId: Option<string>) returns (r: Option<string>)
    ensures r == NormalizedIdAsWritten(g, links, wikidataId)
  {
    var normalized := wikidataId;
    for i := 0 to |links|
      invariant NormalizedIdAsWritten(g, links, wikidataId) == NormalizedIdAsWritten(g, links[i..], normalized)
    {
      assert links[i..][1..] == links[i + 1..];
      if links[i].None? {
        return None;
      }
      var id := g.idFromLink(links[i]);
      if normalized.None? {
        normalized := id;
      }
      if normalized != id {
        return None;
      }
    }
    return normalized;
  }

  /** A gateway in which only links to `en:B` resolve (to Q1). */
  function OnlyBResolves(): Gateway {
    Gateway(
      [], _ => true, id => id,
      link => if link == Some("en:B") then Some("Q1") else None,
      (_, _) => None, (_, _, _) => None, (_, _) => true, (_, title) => title,
      (_, _) => None, (_, _) => false, _ => None, _ => None, _ => None, _ => [], _ => None,
      (_, _) => false, links => links)
  }

  /** The same two candidates give an id in one order and a mismatch in the
      other: a link without an id is accepted only while the running id is
      still `None`. The candidates reach normalized_id through `list(set(...))`,
      so which answer the detector gives depends on Python's set order. */
  lemma NormalizedIdAsWrittenDependsOnOrder()
    ensures NormalizedIdAsWritten(OnlyBResolves(), [Some("en:A"), Some("en:B")], None) == Some("Q1")
    ensures NormalizedIdAsWritten(OnlyBResolves(), [Some("en:B"), Some("en:A")], None) == None
  {
    var g := OnlyBResolves();
    assert g.idFromLink(Some("en:A")) == None;
    assert [Some("en:A"), Some("en:B")][1..] == [Some("en:B")];
    assert [Some("en:B"), Some("en:A")][1..] == [Some("en:A")];
  }

  /** Every link is present and resolves to `id`, and the wikidata tag (if
      any) is `id`; with no wikidata tag at least one link is needed. */
  predicate AllAgreeOn(g: Gateway, links: seq<Option<string>>, wikidataId: Option<string>, id: string) {
    && (forall l :: l in links ==> l.Some? && g.idFromLink(l) == Some(id))
    && (wikidataId == Some(id) || (wikidataId.None? && links != []))
  }

  /** Some entity id on which the links and the wikidata tag all agree. */
  ghost predicate Agreeing(g: Gateway, links: seq<Option<string>>, wikidataId: Option<string>) {
    exists id :: AllAgreeOn(g, links, wikidataId, id)
  }

  predicate Unresolved(g: Gateway, link: Option<string>) {
    link.None? || g.idFromLink(link).None?
  }

  /** normalized_id with an unresolvable link counted as a disagreement, so
      that the answer no longer depends on the order of the links. */
  function NormalizedId(g: Gateway, links: seq<Option<string>>, wikidataId: Option<string>): (r: Option<string>)
    ensures r.Some? ==> AllAgreeOn(g, links, wikidataId, r.value)
  {
    if exists l :: l in links && Unresolved(g, l) then None
    else
      ResolvedNormalization(g, links, wikidataId);
      NormalizedIdAsWritten(g, links, wikidataId)
  }

  lemma {:induction false} ResolvedNormalization(g: Gateway, links: seq<Option<string>>, normalized: Option<string>)
    requires forall l :: l in links ==> !Unresolved(g, l)
    ensures forall id :: NormalizedIdAsWritten(g, links, normalized) == Some(id) <==> AllAgreeOn(g, links, normalized, id)
  {
    if links != [] {
      var rest := links[1..];
      assert links == [links[0]] + rest;
      var next := if normalized.None? then g.idFromLink(links[0]) else normalized;
      if next == g.idFromLink(links[0]) {
        ResolvedNormalization(g, rest, next);
        forall id | AllAgreeOn(g, links, normalized, id)
          ensures AllAgreeOn(g, rest, next, id)
        {
          assert links[0] in links;
        }
      } else {
        forall id ensures !AllAgreeOn(g, links, normalized, id) {
          assert links[0] in links;
        }
      }
    }
  }

  /** Both directions: the corrected normalisation yields `id` exactly when
      every link and the wikidata tag agree on it. */
  lemma NormalizedIdMeaning(g: Gateway, links: seq<Option<string>>, wikidataId: Option<string>, id: string)
    ensures NormalizedId(g, links, wikidataId) == Some(id) <==> AllAgreeOn(g, links, wikidataId, id)
  {
    if !exists l :: l in links && Unresolved(g, l) {
      ResolvedNormalization(g, links, wikidataId);
    }
  }

  /** The corrected normalisation depends only on which links occur, not on
      their order or repetition. */
  lemma NormalizedIdIgnoresOrder(g: Gateway, a: seq<Option<string>>, b: seq<Option<string>>, wikidataId: Option<string>)
    requires forall l :: l in a <==> l in b
    ensures NormalizedId(g, a, wikidataId) == NormalizedId(g, b, wikidataId)
  {
    assert a != [] <==> b != [] by {
      if a != [] { assert a[0] in b; }
      if b != [] { assert b[0] in a; }
    }
    if NormalizedId(g, a, wikidataId).Some? {
      var id := NormalizedId(g, a, wikidataId).value;
      NormalizedIdMeaning(g, a, wikidataId, id);
      NormalizedIdMeaning(g, b, wikidataId, id);
    } else if NormalizedId(g, b, wikidataId).Some? {
      var id := NormalizedId(g, b, wikidataId).value;
      NormalizedIdMeaning(g, a, wikidataId, id);
      NormalizedIdMeaning(g, b, wikidataId, id);
    }
  }

  /** Where every candidate resolves, the corrected normalisation agrees with
      the code as written. */
  lemma NormalizedIdAgreesWhenResolved(g: Gateway, links: seq<Option<string>>, wikidataId: Option<string>)
    requires forall l :: l in links ==> !Unresolved(g, l)
    ensures NormalizedId(g, links, wikidataId) == NormalizedIdAsWritten(g, links, wikidataId)
  {
  }

  function AsLinks(s: seq<string>): (r: seq<Option<string>>)
    ensures |r| == |s| && forall i :: 0 <= i < |s| ==> r[i] == Some(s[i])
  {
    seq(|s|, i requires 0 <= i < |s| => Some(s[i]))
  }

  /** The links normalised by convert_old_style_wikipedia_tags: the
      candidates in the order `list(set(...))` gives them, then the
      `wikipedia` tag when present. */
  function ConversionLinks(cfg: Config, g: Gateway, tags: Tags, keys: seq<string>): seq<Option<string>>
    requires KeysOfTags(tags, keys)
  {
    WithWikipediaTag(SetListing(g, CandidateLinks(cfg, g, tags, keys)), Get(tags, "wikipedia"))
  }

  function WithWikipediaTag(candidates: seq<string>, wikipedia: Option<string>): seq<Option<string>> {
    AsLinks(candidates) + (if wikipedia.Some? then [wikipedia] else [])
  }

  function KeyValues(tags: Tags, keys: seq<string>): (m: TagValues)
    ensures m.Keys == set k | k in keys
    ensures forall k :: k in m ==> m[k] == Get(tags, k)
  {
    map k | k in keys :: Get(tags, k)
  }

  function OldStylePrerequisite(tags: Tags, keys: seq<string>): TagValues {
    map["wikidata" := Get(tags, "wikidata"), "wikipedia" := Get(tags, "wikipedia")] + KeyValues(tags, keys)
  }


  /** convert_old_style_wikipedia_tags, normalising with normalized_id as
      written. */
  function ConvertOldStyleWikipediaTags(cfg: Config, g: Gateway, keys: seq<string>, tags: Tags): (r: ErrorReport)
    requires KeysOfTags(tags, keys)
    ensures r.errorId in {OldStyleMismatch, WikipediaFromOldStyle, OldStyleForRemoval}
    ensures r.prerequisite == OldStylePrerequisite(tags, keys)
  {
    ReportForNormalizedId(cfg, g, keys, tags,
                          NormalizedIdAsWritten(g, ConversionLinks(cfg, g, tags, keys), Get(tags, "wikidata")))
  }

  /** The conversion with the corrected normalisation. */
  function IntendedConversion(cfg: Config, g: Gateway, keys: seq<string>, tags: Tags): ErrorReport
    requires KeysOfTags(tags, keys)
  {
    ReportForNormalizedId(cfg, g, keys, tags,
                          NormalizedId(g, ConversionLinks(cfg, g, tags, keys), Get(tags, "wikidata")))
  }

  /** With the corrected normalisation the conversion's report does not depend
      on the order in which Python lists the candidate set. */
  lemma IntendedConversionIgnoresSetOrder(cfg: Config, g: Gateway, keys: seq<string>, tags: Tags,
                                          order: seq<string> -> seq<string>)
    requires KeysOfTags(tags, keys)
    ensures IntendedConversion(cfg, g, keys, tags) == IntendedConversion(cfg, g.(setOrder := order), keys, tags)
  {
    var h := g.(setOrder := order);
    var candidates := CandidateLinks(cfg, g, tags, keys);
    CandidatesIgnoreSetOrder(cfg, g, order, tags, keys);
    SameLinks(SetListing(g, candidates), SetListing(h, candidates), Get(tags, "wikipedia"));
    var links := ConversionLinks(cfg, h, tags, keys);
    NormalizedIdIgnoresOrder(g, ConversionLinks(cfg, g, tags, keys), links, Get(tags, "wikidata"));
    AsWrittenIgnoresSetOrder(g, order, links, Get(tags, "wikidata"));
    assert NormalizedId(g, links, Get(tags, "wikidata")) == NormalizedId(h, links, Get(tags, "wikidata"));
    BestLinkIgnoresSetOrder(g, order, NormalizedId(g, links, Get(tags, "wikidata")), CandidateLanguages(cfg, g));
  }

  lemma {:induction false} AsWrittenIgnoresSetOrder(g: Gateway, order: seq<string> -> seq<string>,
                                                    links: seq<Option<string>>, normalized: Option<string>)
    ensures NormalizedIdAsWritten(g, links, normalized) == NormalizedIdAsWritten(g.(setOrder := order), links, normalized)
  {
    if links != [] && links[0].Some? {
      var next := if normalized.None? then g.idFromLink(links[0]) else normalized;
      AsWrittenIgnoresSetOrder(g, order, links[1..], next);
    }
  }

  /** The candidates themselves do not use the set order. */
  lemma {:induction false} CandidatesIgnoreSetOrder(cfg: Config, g: Gateway, order: seq<string> -> seq<string>,
                                                    tags: Tags, keys: seq<string>)
    requires KeysOfTags(tags, keys)
    ensures CandidateLinks(cfg, g, tags, keys) == CandidateLinks(cfg, g.(setOrder := order), tags, keys)
  {
    if keys != [] {
      var front := keys[..|keys| - 1];
      var last := keys[|keys| - 1];
      assert last in keys;
      assert KeysOfTags(tags, front) by {
        forall k | k in front ensures k in keys {}
      }
      var h := g.(setOrder := order);
      var language := AfterFirstColon(last).value;
      var title := Get(tags, last).value;
      assert CandidateLinks(cfg, g, tags, keys)
             == CandidateLinks(cfg, g, tags, front) + [CandidateLink(cfg, g, language, title)];
      assert CandidateLinks(cfg, h, tags, keys)
             == CandidateLinks(cfg, h, tags, front) + [CandidateLink(cfg, h, language, title)];
      CandidatesIgnoreSetOrder(cfg, g, order, tags, front);
      CandidateLinkIgnoresSetOrder(cfg, g, order, language, title);
    }
  }

  lemma CandidateLinkIgnoresSetOrder(cfg: Config, g: Gateway, order: seq<string> -> seq<string>,
                                     language: string, title: string)
    ensures CandidateLink(cfg, g, language, title) == CandidateLink(cfg, g.(setOrder := order), language, title)
  {
    var h := g.(setOrder := order);
    assert h.idFromArticle == g.idFromArticle;
    assert CandidateLanguages(cfg, h) == CandidateLanguages(cfg, g);
    var id := g.idFromArticle(language, title);
    if id.Some? {
      BestLinkIgnoresSetOrder(g, order, Some(id.value), CandidateLanguages(cfg, g));
    }
  }

  lemma {:induction false} BestLinkIgnoresSetOrder(g: Gateway, order: seq<string> -> seq<string>, id: Option<string>,
                                                   languages: seq<string>)
    ensures FirstInterwikiLink(g, id, languages) == FirstInterwikiLink(g.(setOrder := order), id, languages)
  {
    if languages != [] {
      BestLinkIgnoresSetOrder(g, order, id, languages[1..]);
    }
  }

  /** The report of convert_old_style_wikipedia_tags once the id is known. */
  function ReportForNormalizedId(cfg: Config, g: Gateway, keys: seq<string>, tags: Tags, normalized: Option<string>): ErrorReport {
    var wikipedia := Get(tags, "wikipedia");
    var prerequisite := OldStylePrerequisite(tags, keys);
    if normalized.None? then Issue(OldStyleMismatch, prerequisite)
    else if wikipedia.None? then
      var newWikipedia := BestInterwikiLink(cfg, g, normalized);
      ErrorReport(WikipediaFromOldStyle, prerequisite, newWikipedia, Some(WikipediaChange(None, newWikipedia)), None)
    else
      ErrorReport(OldStyleForRemoval, prerequisite, None, Some([TagChange(KeyValues(tags, keys), map[])]), None)
  }

  /** The prerequisite records both tags and every old-style key, each with
      its value in the tags. */
  lemma OldStylePrerequisiteMeaning(tags: Tags, keys: seq<string>)
    ensures OldStylePrerequisite(tags, keys).Keys == {"wikidata", "wikipedia"} + set k | k in keys
    ensures forall k :: k in OldStylePrerequisite(tags, keys) ==> OldStylePrerequisite(tags, keys)[k] == Get(tags, k)
  {
  }

  /** Every link is present and, where it resolves at all, resolves to `id`;
      a `wikidata` tag is `id` and then every link resolves to it. */
  predicate Compatible(g: Gateway, links: seq<Option<string>>, wikidataId: Option<string>, id: string) {
    && (forall l :: l in links ==> l.Some? && g.idFromLink(l) in {None, Some(id)})
    && (wikidataId.Some? ==> wikidataId == Some(id) && forall l :: l in links ==> g.idFromLink(l) == Some(id))
  }

  /** Some entity with which every link and the `wikidata` tag are
      compatible. */
  ghost predicate Consistent(g: Gateway, links: seq<Option<string>>, wikidataId: Option<string>) {
    exists id :: Compatible(g, links, wikidataId, id)
  }

  /** `target` is the best link of an entity compatible with all links. */
  ghost predicate BestLinkOfCompatible(cfg: Config, g: Gateway, links: seq<Option<string>>, wikidataId: Option<string>,
                                       target: Option<string>) {
    exists id :: Compatible(g, links, wikidataId, id) && target == BestInterwikiLink(cfg, g, Some(id))
  }

  /** The three reports of the conversion. Links that all resolve to one
      entity (the `wikidata` tag's, if any) are never a mismatch, and links
      that name two entities always are; when every link resolves, that
      decides it both ways. Without a mismatch, a missing `wikipedia` tag is
      proposed as the best link of the entity; otherwise exactly the
      old-style keys are proposed for removal. */
  lemma {:induction false} ConversionReports(cfg: Config, g: Gateway, keys: seq<string>, tags: Tags)
    requires KeysOfTags(tags, keys)
    ensures var r := ConvertOldStyleWikipediaTags(cfg, g, keys, tags);
      var links := ConversionLinks(cfg, g, tags, keys);
      var wikidata := Get(tags, "wikidata");
      && (Agreeing(g, links, wikidata) ==> r.errorId != OldStyleMismatch)
      && (r.errorId != OldStyleMismatch ==> Consistent(g, links, wikidata))
      && ((forall l :: l in links ==> !Unresolved(g, l)) ==> (r.errorId == OldStyleMismatch <==> !Agreeing(g, links, wikidata)))
      && (r.errorId == OldStyleMismatch ==> r.proposedChanges.None? && r.desiredTarget.None?)
      && (r.errorId == WikipediaFromOldStyle ==>
            && Get(tags, "wikipedia").None?
            && BestLinkOfCompatible(cfg, g, links, wikidata, r.desiredTarget)
            && r.proposedChanges == Some([TagChange(map["wikipedia" := None], map["wikipedia" := r.desiredTarget])]))
      && (r.errorId == OldStyleForRemoval ==>
            && Get(tags, "wikipedia").Some?
            && r.proposedChanges == Some([TagChange(KeyValues(tags, keys), map[])]))
  {
    var links := ConversionLinks(cfg, g, tags, keys);
    var wikidata := Get(tags, "wikidata");
    var normalized := NormalizedIdAsWritten(g, links, wikidata);
    var r := ConvertOldStyleWikipediaTags(cfg, g, keys, tags);
    assert r == ReportForNormalizedId(cfg, g, keys, tags, normalized);
    NormalizedIdAsWrittenMeaning(g, links, wikidata);
    if normalized.Some? {
      var id := normalized.value;
      assert Compatible(g, links, wikidata, id);
      if r.errorId == WikipediaFromOldStyle {
        assert r.desiredTarget == BestInterwikiLink(cfg, g, Some(id));
      }
    } else {
      assert r.errorId == OldStyleMismatch;
    }
  }

  /** A candidate without an entity, listed before a `wikipedia` tag that
      has one, is let through: the code as written proposes removing the
      old-style keys, where the corrected normalisation reports a mismatch. */
  lemma UnresolvedCandidateBeforeWikipediaTag(cfg: Config, g: Gateway, keys: seq<string>, tags: Tags,
                                              candidate: string, wikipedia: string, id: string)
    requires KeysOfTags(tags, keys)
    requires Get(tags, "wikidata").None? && Get(tags, "wikipedia") == Some(wikipedia)
    requires ConversionLinks(cfg, g, tags, keys) == [Some(candidate), Some(wikipedia)]
    requires g.idFromLink(Some(candidate)).None? && g.idFromLink(Some(wikipedia)) == Some(id)
    ensures ConvertOldStyleWikipediaTags(cfg, g, keys, tags).errorId == OldStyleForRemoval
    ensures IntendedConversion(cfg, g, keys, tags).errorId == OldStyleMismatch
  {
    var links := ConversionLinks(cfg, g, tags, keys);
    assert links[1..] == [Some(wikipedia)];
    assert links[1..][1..] == [];
    assert NormalizedIdAsWritten(g, links, None) == Some(id);
  }

  /** What normalized_id as written guarantees whatever the order of the
      links: links that agree on one entity give it, a result is compatible
      with every link, and when every link resolves it gives an id exactly
      when all agree. */
  lemma NormalizedIdAsWrittenMeaning(g: Gateway, links: seq<Option<string>>, wikidataId: Option<string>)
    ensures var r := NormalizedIdAsWritten(g, links, wikidataId);
      && (Agreeing(g, links, wikidataId) ==> r.Some?)
      && (r.Some? ==> Compatible(g, links, wikidataId, r.value))
      && ((forall l :: l in links ==> !Unresolved(g, l)) ==> (r.None? <==> !Agreeing(g, links, wikidataId)))
  {
    var r := NormalizedIdAsWritten(g, links, wikidataId);
    if Agreeing(g, links, wikidataId) {
      var id :| AllAgreeOn(g, links, wikidataId, id);
      ResolvedNormalization(g, links, wikidataId);
    }
    if r.Some? {
      forall l | l in links
        ensures l.Some? && g.idFromLink(l) in {None, r}
        ensures wikidataId.Some? ==> g.idFromLink(l) == r
      {
        var i :| 0 <= i < |links| && links[i] == l;
      }
    }
    if forall l :: l in links ==> !Unresolved(g, l) {
      ResolvedNormalization(g, links, wikidataId);
    }
  }

  lemma KeyValuesStep(tags: Tags, keys: seq<string>, i: int)
    requires 0 <= i < |keys|
    ensures KeyValues(tags, keys[..i + 1]) == KeyValues(tags, keys[..i])[keys[i] := Get(tags, keys[i])]
  {
    assert keys[..i + 1] == keys[..i] + [keys[i]];
  }

  lemma UpdateOfUnion(left: TagValues, right: TagValues, key: string, value: Option<string>)
    ensures (left + right)[key := value] == left + right[key := value]
  {
  }

  lemma AsLinksElements(s: seq<string>)
    ensures forall l :: l in AsLinks(s) <==> l.Some? && l.value in s
  {
    forall l ensures l in AsLinks(s) <==> l.Some? && l.value in s {
      if l.Some? && l.value in s {
        var i :| 0 <= i < |s| && s[i] == l.value;
        assert AsLinks(s)[i] == l;
      }
    }
  }

  /** De-duplicating and reordering the candidates does not change which
      links are normalised. */
  lemma SameLinks(a: seq<string>, b: seq<string>, wikipedia: Option<string>)
    requires forall l :: l in a <==> l in b
    ensures forall l :: l in WithWikipediaTag(a, wikipedia) <==> l in WithWikipediaTag(b, wikipedia)
  {
    AsLinksElements(a);
    AsLinksElements(b);
  }

  /** `for key in keys: values[key] = tags.get(key)`. */
  method CopyTags(values: TagValues, tags: Tags, keys: seq<string>) returns (r: TagValues)
    ensures r == values + KeyValues(tags, keys)
  {
    r := values;
    for i := 0 to |keys|
      invariant r == values + KeyValues(tags, keys[..i])
    {
      KeyValuesStep(tags, keys, i);
      UpdateOfUnion(values, KeyValues(tags, keys[..i]), keys[i], Get(tags, keys[i]));
      r := r[keys[i] := Get(tags, keys[i])];
    }
    assert keys[..|keys|] == keys;
  }

  /** The dict-filling code of convert_old_style_wikipedia_tags. */
  method ConvertOldStyleWikipediaTagsLoop(cfg: Config, g: Gateway, keys: seq<string>, tags: Tags) returns (report: ErrorReport)
    requires KeysOfTags(tags, keys)
    ensures report == ConvertOldStyleWikipediaTags(cfg, g, keys, tags)
  {
    var candidates := WikipediaCandidates(cfg, g, tags, keys);
    var links := AsLinks(candidates);
    var wikipedia := Get(tags, "wikipedia");
    if wikipedia.Some? {
      links := links + [wikipedia];
    }
    assert links == WithWikipediaTag(candidates, wikipedia);

    var prerequisite := map["wikidata" := Get(tags, "wikidata"), "wikipedia" := wikipedia];
    prerequisite := CopyTags(prerequisite, tags, keys);
    assert prerequisite == OldStylePrerequisite(tags, keys);

    var normalized := NormalizedIdLoop(g, links, Get(tags, "wikidata"));
    report := BuildConversionReport(cfg, g, keys, tags, prerequisite, normalized);
  }

  /** The three outcomes at the end of convert_old_style_wikipedia_tags. */
  method BuildConversionReport(cfg: Config, g: Gateway, keys: seq<string>, tags: Tags, prerequisite: TagValues,
                              normalized: Option<string>) returns (report: ErrorReport)
    requires prerequisite == OldStylePrerequisite(tags, keys)
    ensures report == ReportForNormalizedId(cfg, g, keys, tags, normalized)
  {
    if normalized.None? {
      report := Issue(OldStyleMismatch, prerequisite);
    } else if Get(tags, "wikipedia").None? {
      var newWikipedia := GetBestInterwikiLinkById(cfg, g, normalized);
      report := ErrorReport(WikipediaFromOldStyle, prerequisite, newWikipedia,
                            Some(WikipediaChange(None, newWikipedia)), None);
    } else {
      var fromTags := CopyTags(map[], tags, keys);
      assert fromTags == KeyValues(tags, keys);
      report := ErrorReport(OldStyleForRemoval, prerequisite, None, Some([TagChange(fromTags, map[])]), None);
    }
  }

  /** remove_old_style_wikipedia_tags: an invalid key first, then the
      conversion whenever there is any old-style key. */
  function RemoveOldStyleWikipediaTags(cfg: Config, g: Gateway, tags: Tags): (r: Outcome)
    ensures !r.Raised?
    ensures r.NoReport? <==> OldStyleWikipediaKeys(tags) == []
    ensures r.Report? ==> r.report.errorId in {InvalidOldStyleKey, OldStyleMismatch, WikipediaFromOldStyle, OldStyleForRemoval}
    // an invalid key is reported before any conversion is tried
    ensures r.Reports(InvalidOldStyleKey) <==> FirstInvalidOldStyleKey(g, OldStyleWikipediaKeys(tags)).Some?
    // with only valid keys, the conversion's report is the answer
    ensures var keys := OldStyleWikipediaKeys(tags);
            keys != [] && FirstInvalidOldStyleKey(g, keys).None? ==>
              r == Report(ConvertOldStyleWikipediaTags(cfg, g, keys, tags))
  {
    var keys := OldStyleWikipediaKeys(tags);
    var invalid := InvalidOldStyleKeyReport(g, tags, keys);
    if invalid.Some? then Report(invalid.value)
    else if keys != [] then Report(ConvertOldStyleWikipediaTags(cfg, g, keys, tags))
    else NoReport
  }

  /** The old-style step reports exactly when some key holds `wikipedia:`, and
      then reports an invalid key or, when every such key is valid, the
      conversion's report. */
  lemma OldStyleStepReports(cfg: Config, g: Gateway, tags: Tags)
    ensures var r := RemoveOldStyleWikipediaTags(cfg, g, tags);
      && (r.NoReport? <==> forall i :: 0 <= i < |tags| ==> !Contains(tags[i].key, "wikipedia:"))
      && !r.Raised?
      && (r.Report? ==> r.report.errorId in {InvalidOldStyleKey, OldStyleMismatch, WikipediaFromOldStyle, OldStyleForRemoval})
      && (r.Reports(InvalidOldStyleKey) <==>
            exists i :: 0 <= i < |tags| && Contains(tags[i].key, "wikipedia:") && !IsValidOldStyleKey(g, tags[i].key))
      && ((exists i :: 0 <= i < |tags| && Contains(tags[i].key, "wikipedia:"))
          && (forall i :: 0 <= i < |tags| && Contains(tags[i].key, "wikipedia:") ==> IsValidOldStyleKey(g, tags[i].key))
          ==> r == Report(ConvertOldStyleWikipediaTags(cfg, g, OldStyleWikipediaKeys(tags), tags)))
  {
    var keys := OldStyleWikipediaKeys(tags);
    if keys != [] {
      assert keys[0] in keys;
      var i :| 0 <= i < |tags| && tags[i].key == keys[0] && Contains(keys[0], "wikipedia:");
      if InvalidOldStyleKeyReport(g, tags, keys).None? {
        ConversionReports(cfg, g, keys, tags);
      }
    }
  }
}

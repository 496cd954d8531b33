/** check_for_wikipedia_wikidata_collision: a `wikidata` tag that names a
    different entity than the `wikipedia` article, and the two redirects that
    explain such a mismatch. */
module Collision {
  import opened Model
  import opened Gateway
  import opened LinkSyntax

  /** `{'wikidata': id, 'wikipedia': language:article}`. */
  function CollisionPrerequisite(wikidataId: string, language: string, article: string): TagValues {
    map["wikidata" := Some(wikidataId), "wikipedia" := Some(language + ":" + article)]
  }

  /** The article title after redirects, when it counts as a redirect: the
      title changed and the tag does not link to a section. */
  predicate IsArticleRedirected(g: Gateway, language: string, article: string) {
    article != g.titleAfterRedirect(language, article) && '#' !in article
  }

  function WikipediaWikidataCollision(g: Gateway, presentWikidataId: Option<string>, language: string, article: string)
    : (r: Option<ErrorReport>)
    // nothing to report without a wikidata tag or when it names the article's entity
    ensures r.None? <==>
              presentWikidataId.None? || g.idFromArticle(language, StripSection(article)) == presentWikidataId
    ensures r.Some? ==> r.value.prerequisite == CollisionPrerequisite(presentWikidataId.value, language, article)
    ensures r.Some? ==> r.value.errorId in {FollowWikidataRedirect, FollowWikipediaRedirect, WikipediaWikidataMismatch}
    // the wikidata redirect is followed when it leads to the article's entity
    ensures r.Some? ==>
              (r.value.errorId == FollowWikidataRedirect <==>
                 var redirected := g.entityIdAfterRedirect(presentWikidataId.value);
                 redirected != presentWikidataId.value
                 && Some(redirected) == g.idFromArticle(language, StripSection(article)))
    // the article redirect is followed only from a section-free title that
    // really redirects, to an article of the tagged entity
    ensures r.Some? && r.value.errorId == FollowWikipediaRedirect ==>
              var title := g.titleAfterRedirect(language, article);
              && title != article
              && '#' !in article
              && g.idFromArticle(language, title) == presentWikidataId
              && r.value.desiredTarget == Some(language + ":" + title)
              && r.value.proposedChanges == Some(WikipediaChange(Some(language + ":" + article), r.value.desiredTarget))
    // and it is always followed then, unless the wikidata redirect applies
    ensures r.Some? && r.value.errorId != FollowWikidataRedirect
            && IsArticleRedirected(g, language, article)
            && g.idFromArticle(language, g.titleAfterRedirect(language, article)) == presentWikidataId
            ==> r.value.errorId == FollowWikipediaRedirect
    ensures r.Some? && r.value.errorId != FollowWikipediaRedirect ==>
              r.value.desiredTarget.None? && r.value.proposedChanges.None?
  {
    if presentWikidataId.None? then None
    else
      var present := presentWikidataId.value;
      var idFromArticle := g.idFromArticle(language, StripSection(article));
      if Some(present) == idFromArticle then None
      else
        var prerequisite := CollisionPrerequisite(present, language, article);
        var redirectedId := g.entityIdAfterRedirect(present);
        if redirectedId != present && Some(redirectedId) == idFromArticle then
          Some(Issue(FollowWikidataRedirect, prerequisite))
        else
          var title := g.titleAfterRedirect(language, article);
          if IsArticleRedirected(g, language, article) && g.idFromArticle(language, title) == Some(present) then
            var newLink := language + ":" + title;
            Some(ErrorReport(FollowWikipediaRedirect, prerequisite, Some(newLink),
                             Some(WikipediaChange(Some(language + ":" + article), Some(newLink))), None))
          else
            Some(Issue(WikipediaWikidataMismatch, prerequisite))
  }

  /** Applying the proposed article-redirect fix silences the check: the new
      title is section-free, so its id is looked up unchanged and is the
      tagged entity. */
  lemma {:induction false} FollowingWikipediaRedirectResolvesCollision(
    g: Gateway, presentWikidataId: Option<string>, language: string, article: string)
    requires var r := WikipediaWikidataCollision(g, presentWikidataId, language, article);
             r.Some? && r.value.errorId == FollowWikipediaRedirect
    requires '#' !in g.titleAfterRedirect(language, article)
    ensures WikipediaWikidataCollision(g, presentWikidataId, language, g.titleAfterRedirect(language, article)).None?
  {
    var title := g.titleAfterRedirect(language, article);
    assert StripSection(title) == title;
  }
}

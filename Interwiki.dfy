/** get_best_interwiki_link_by_id: the first language, preferred languages
    before the global importance order, in which the entity has an article. */
module Interwiki {
  import opened Model
  import opened Gateway

  /** The languages tried, in order. */
  function CandidateLanguages(cfg: Config, g: Gateway): seq<string> {
    cfg.preferredLanguages + g.languageCodes
  }

  /** A language at position `i` of `languages` that has an article for `id`,
      with none before it. */
  predicate FirstWithArticle(g: Gateway, id: Option<string>, languages: seq<string>, i: int) {
    && 0 <= i < |languages|
    && g.titleById(id, languages[i]).Some?
    && forall j :: 0 <= j < i ==> g.titleById(id, languages[j]).None?
  }

  function FirstInterwikiLink(g: Gateway, id: Option<string>, languages: seq<string>): Option<string> {
    if languages == [] then None
    else match g.titleById(id, languages[0])
      case Some(title) => Some(languages[0] + ":" + title)
      case None => FirstInterwikiLink(g, id, languages[1..])
  }

  /** The link found is `lang:title` for the first language with an article;
      there is none exactly when no language has one. */
  lemma {:induction false} FirstInterwikiLinkIsFirstMatch(g: Gateway, id: Option<string>, languages: seq<string>)
    ensures FirstInterwikiLink(g, id, languages).None? <==>
              forall j :: 0 <= j < |languages| ==> g.titleById(id, languages[j]).None?
    ensures FirstInterwikiLink(g, id, languages).Some? ==>
              exists i :: FirstWithArticle(g, id, languages, i)
                && FirstInterwikiLink(g, id, languages)
                   == Some(languages[i] + ":" + g.titleById(id, languages[i]).value)
  {
    if languages != [] && g.titleById(id, languages[0]).None? {
      var rest := languages[1..];
      FirstInterwikiLinkIsFirstMatch(g, id, rest);
      assert forall j :: 1 <= j < |languages| ==> languages[j] == rest[j - 1];
      if FirstInterwikiLink(g, id, rest).Some? {
        var i :| FirstWithArticle(g, id, rest, i)
                 && FirstInterwikiLink(g, id, rest) == Some(rest[i] + ":" + g.titleById(id, rest[i]).value);
        assert FirstWithArticle(g, id, languages, i + 1);
      }
    } else if languages != [] {
      assert FirstWithArticle(g, id, languages, 0);
    }
  }

  /** get_best_interwiki_link_by_id: `lang:title` for the first language,
      preferred ones first, in which the entity has an article; none exactly
      when no language has one. */
  function BestInterwikiLink(cfg: Config, g: Gateway, id: Option<string>): (r: Option<string>)
    ensures r.None? <==>
              forall j :: 0 <= j < |CandidateLanguages(cfg, g)| ==> g.titleById(id, CandidateLanguages(cfg, g)[j]).None?
    ensures r.Some? ==>
              exists i :: FirstWithArticle(g, id, CandidateLanguages(cfg, g), i)
                && r == Some(CandidateLanguages(cfg, g)[i] + ":" + g.titleById(id, CandidateLanguages(cfg, g)[i]).value)
  {
    FirstInterwikiLinkIsFirstMatch(g, id, CandidateLanguages(cfg, g));
    FirstInterwikiLink(g, id, CandidateLanguages(cfg, g))
  }

  /** The loop of get_best_interwiki_link_by_id, returning on the first hit. */
  method GetBestInterwikiLinkById(cfg: Config, g: Gateway, id: Option<string>) returns (link: Option<string>)
    ensures link == BestInterwikiLink(cfg, g, id)
  {
    var languages := cfg.preferredLanguages + g.languageCodes;
    for i := 0 to |languages|
      invariant FirstInterwikiLink(g, id, languages) == FirstInterwikiLink(g, id, languages[i..])
    {
      assert languages[i..][1..] == languages[i + 1..];
      var title := g.titleById(id, languages[i]);
      if title.Some? {
        return Some(languages[i] + ":" + title.value);
      }
    }
    return None;
  }
}

/** Syntactic validators of `wikidata` and `wikipedia` tag values and of
    old-style `wikipedia:xx` keys. */
module Validators {
  import opened Model
  import opened Gateway
  import opened LinkSyntax

  /** is_wikidata_tag_clearly_broken: anything but `Q` followed by digits. */
  function IsWikidataTagClearlyBroken(link: Option<string>): (r: bool)
    ensures r <==> link.None? || |link.value| < 2 || link.value[0] != 'Q'
                   || exists i :: 1 <= i < |link.value| && !IsAsciiDigit(link.value[i])
  {
    if link.None? then true
    else if |link.value| < 2 then true
    else if link.value[0] != 'Q' then true
    else
      var digits := link.value[1..];
      AllDigitsMeaning(digits);
      assert forall i :: 1 <= i < |link.value| ==> link.value[i] == digits[i - 1];
      if !AllDigits(digits) then true
      else false
  }

  /** is_language_code_clearly_broken: missing, longer than three letters,
      not all of `[a-z]`, or not a known Wikipedia language code. */
  function IsLanguageCodeClearlyBroken(g: Gateway, code: Option<string>): (r: bool)
    ensures r <==> code.None? || |code.value| > 3 || |code.value| == 0
                   || (exists i :: 0 <= i < |code.value| && !IsAsciiLowercase(code.value[i]))
                   || code.value !in g.languageCodes
  {
    if code.None? then true
    else if |code.value| > 3 then true
    else
      AllLowercaseMeaning(code.value);
      if !AllLowercase(code.value) then true
      else if code.value !in g.languageCodes then true
      else false
  }

  /** is_article_name_clearly_broken: the title itself starts with a known
      language code and a colon (a doubled prefix such as `en:de:Foo`). */
  function IsArticleNameClearlyBroken(g: Gateway, title: string): (r: bool)
    ensures r <==> exists code :: code in g.languageCodes && ':' !in code && code + ":" <= title
  {
    var code := BeforeFirstColon(title);
    if code.Some? && code.value in g.languageCodes then true
    else
      assert forall c :: c in g.languageCodes && ':' !in c && c + ":" <= title ==> false by {
        forall c | c in g.languageCodes && ':' !in c && c + ":" <= title
          ensures false
        {
          assert title == c + ":" + title[|c| + 1..];
          SplitOfJoin(c, title[|c| + 1..]);
        }
      }
      false
  }

  /** is_wikipedia_tag_clearly_broken. */
  function IsWikipediaTagClearlyBroken(g: Gateway, link: string): (r: bool)
    ensures r <==> ':' !in link
                   || IsLanguageCodeClearlyBroken(g, BeforeFirstColon(link))
                   || IsArticleNameClearlyBroken(g, AfterFirstColon(link).value)
  {
    var code := BeforeFirstColon(link);
    if IsLanguageCodeClearlyBroken(g, code) then true
    else if IsArticleNameClearlyBroken(g, AfterFirstColon(link).value) then true
    else false
  }

  /** A value that passes the check splits into a known language code and a
      title that does not itself start with a known code. */
  lemma {:induction false} WellFormedWikipediaTag(g: Gateway, link: string)
    requires !IsWikipediaTagClearlyBroken(g, link)
    ensures exists lang, title ::
      link == lang + ":" + title && lang in g.languageCodes && 1 <= |lang| <= 3
      && (forall i :: 0 <= i < |lang| ==> IsAsciiLowercase(lang[i]))
      && !IsArticleNameClearlyBroken(g, title)
  {
    var lang, title := BeforeFirstColon(link).value, AfterFirstColon(link).value;
    assert link == lang + ":" + title;
  }

  /** check_is_it_valid_key_for_old_style_wikipedia_tag: the key is exactly
      `wikipedia:` followed by a known language code. */
  function IsValidOldStyleKey(g: Gateway, key: string): (r: bool)
    ensures r <==> |key| >= 10 && key[..10] == "wikipedia:" && key[10..] in g.languageCodes
  {
    var r := exists i :: 0 <= i < |g.languageCodes| && "wikipedia:" + g.languageCodes[i] == key;
    assert r ==> |key| >= 10 && key[..10] == "wikipedia:" && key[10..] in g.languageCodes by {
      if r {
        var i :| 0 <= i < |g.languageCodes| && "wikipedia:" + g.languageCodes[i] == key;
        assert key[10..] == g.languageCodes[i];
      }
    }
    assert |key| >= 10 && key[..10] == "wikipedia:" && key[10..] in g.languageCodes ==> r by {
      if |key| >= 10 && key[..10] == "wikipedia:" && key[10..] in g.languageCodes {
        var i :| 0 <= i < |g.languageCodes| && g.languageCodes[i] == key[10..];
        assert "wikipedia:" + g.languageCodes[i] == key;
      }
    }
    r
  }
}

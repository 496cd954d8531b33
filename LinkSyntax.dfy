/** String helpers the detector takes from `wikimedia_connection`
    (`get_language_code_from_link`, `get_article_name_from_link`,
    `get_text_after_first_colon`) and from Python's `str.find`. The link helpers
    live in `wikimedia_connection`, which is not part of this model; they are
    taken to split at the first colon and to give `None` when there is no
    colon. */
module LinkSyntax {
  import opened Model

  /** Position of the first occurrence of `c`. */
  function IndexOf(s: string, c: char): (r: Option<nat>)
    ensures r.None? <==> c !in s
    ensures r.Some? ==> r.value < |s| && s[r.value] == c && c !in s[..r.value]
  {
    if s == [] then None
    else if s[0] == c then Some(0)
    else
      var rest := IndexOf(s[1..], c);
      assert s == [s[0]] + s[1..];
      if rest.None? then None
      else
        assert s[..rest.value + 1] == [s[0]] + s[1..][..rest.value];
        Some(rest.value + 1)
  }

  /** Text before the first colon: the language part of `lang:Title`. */
  function BeforeFirstColon(s: string): (r: Option<string>)
    ensures r.None? <==> ':' !in s
    ensures r.Some? ==> ':' !in r.value && r.value + ":" <= s
  {
    match IndexOf(s, ':')
    case None => None
    case Some(i) => Some(s[..i])
  }

  /** Text after the first colon: the article part of `lang:Title`. */
  function AfterFirstColon(s: string): (r: Option<string>)
    ensures r.None? <==> ':' !in s
    ensures r.Some? ==> s == BeforeFirstColon(s).value + ":" + r.value
  {
    match IndexOf(s, ':')
    case None => None
    case Some(i) => Some(s[i + 1..])
  }

  lemma {:induction false} SplitOfJoin(lang: string, title: string)
    requires ':' !in lang
    ensures BeforeFirstColon(lang + ":" + title) == Some(lang)
    ensures AfterFirstColon(lang + ":" + title) == Some(title)
  {
    var s := lang + ":" + title;
    assert s[|lang|] == ':';
    var i := IndexOf(s, ':').value;
    assert s[..|lang|] == lang;
    assert i == |lang|;
    assert s[i + 1..] == title;
  }

  /** `s.find(p) != -1`. */
  predicate Contains(s: string, p: string)
    decreases |s|
  {
    if |p| > |s| then false
    else if s[..|p|] == p then true
    else |s| > 0 && Contains(s[1..], p)
  }

  /** `p` occurs in `s` starting at position `i`. */
  predicate OccursAt(s: string, p: string, i: int) {
    0 <= i <= |s| - |p| && s[i..i + |p|] == p
  }

  lemma {:induction false} ContainsGivesWitness(s: string, p: string)
    requires Contains(s, p)
    ensures exists i :: OccursAt(s, p, i)
    decreases |s|
  {
    if s[..|p|] == p {
      assert OccursAt(s, p, 0);
    } else {
      ContainsGivesWitness(s[1..], p);
      var i :| OccursAt(s[1..], p, i);
      assert s[i + 1..i + 1 + |p|] == s[1..][i..i + |p|];
      assert OccursAt(s, p, i + 1);
    }
  }

  /** Every key that holds `wikipedia:` somewhere also holds a colon. */
  lemma OldStyleMarkerHasColon(key: string)
    requires Contains(key, "wikipedia:")
    ensures ':' in key
  {
    ContainsGivesWitness(key, "wikipedia:");
    var i :| OccursAt(key, "wikipedia:", i);
    assert key[i + 9] == key[i..i + 10][9] == ':';
  }

  predicate IsAsciiDigit(c: char) {
    '0' <= c <= '9'
  }

  predicate IsAsciiLowercase(c: char) {
    'a' <= c <= 'z'
  }

  /** `re.search(r"^\d+\Z", s) != None`. */
  predicate AllDigits(s: string) {
    |s| > 0 && IsAsciiDigit(s[0]) && (|s| == 1 || AllDigits(s[1..]))
  }

  /** `re.search("^[a-z]+\Z", s) != None`. */
  predicate AllLowercase(s: string) {
    |s| > 0 && IsAsciiLowercase(s[0]) && (|s| == 1 || AllLowercase(s[1..]))
  }

  lemma {:induction false} AllDigitsMeaning(s: string)
    ensures AllDigits(s) <==> |s| > 0 && forall i :: 0 <= i < |s| ==> IsAsciiDigit(s[i])
  {
    if |s| > 1 {
      AllDigitsMeaning(s[1..]);
      assert forall i :: 1 <= i < |s| ==> s[i] == s[1..][i - 1];
    }
  }

  lemma {:induction false} AllLowercaseMeaning(s: string)
    ensures AllLowercase(s) <==> |s| > 0 && forall i :: 0 <= i < |s| ==> IsAsciiLowercase(s[i])
  {
    if |s| > 1 {
      AllLowercaseMeaning(s[1..]);
      assert forall i :: 1 <= i < |s| ==> s[i] == s[1..][i - 1];
    }
  }

  /** `re.match('([^#]*)#(.*)', title).group(1)` when the title holds a `#`. */
  function StripSection(title: string): (r: string)
    ensures '#' !in r
    ensures '#' !in title ==> r == title
    ensures '#' in title ==> r + "#" <= title
  {
    match IndexOf(title, '#')
    case None => title
    case Some(i) => title[..i]
  }
}

/** The rule engine of urllookup.py: clean_url turns a raw GOV.UK page path
    into a URL record through an ordered cascade of rules in which the first
    rule that applies wins, helped by reg_match, which cuts a path into its
    '/'-separated segments. */
module UrlRules {
  import opened Wrappers
  import opened Text

  /** The keys a URL record can hold. Org(i) and Section(i) stand for the
      keys 'org' + str(i) and 'section' + str(i); Status and LookupDate are
      only written by the content-API lookup. */
  datatype Key = FullUrl | Page | Org(i: nat) | Section(i: nat) | Status | LookupDate

  /** The values stored in a record: Python's None, a string, or the HTTP
      status code. */
  datatype Value = Null | Str(s: string) | Int(n: int)

  type UrlDict = map<Key, Value>

  const ForeignOffice := "Foreign & Commonwealth Office"
  const SiteNav := "site-nav"
  const ContactTag := "contact"

  /** The two regular expressions reg_match is called with: the default
      query '\/?browse' and the match-anything expression dot-star. */
  datatype Query = BrowseQuery | AnyQuery

  /** reg_match appends '/' to its regular expression before searching, so
      '\/?browse/' finds a match exactly when 'browse/' occurs in s, and
      dot-star followed by '/' exactly when s holds a '/'. */
  predicate QueryFound(q: Query, s: string)
  {
    match q
    case BrowseQuery => Contains(s, "browse/")
    case AnyQuery => '/' in s
  }

  /** reg_match(regex, string, i): when the query is found, the i-th field
      picked from re.split(r'\/', s, maxsplit=3) (0: segment 1; 1: '/'
      + segment 1 + '/' + segment 2; 2: segment 2); otherwise s itself.
      None stands for the exception Python raises: an IndexError when the
      split has too few pieces, or an unbound 'found' for i > 2. */
  function RegMatch(q: Query, s: string, i: nat): (r: Option<string>)
    ensures !QueryFound(q, s) ==> r == Some(s)
    ensures QueryFound(q, s) && i == 0 ==> r.Some?
    ensures r.None? <==> QueryFound(q, s) && (i > 2 || (i >= 1 && Count(s, '/') < 2))
  {
    if !QueryFound(q, s) then Some(s)
    else
      var t := SplitLimited(s, '/', 3);
      SplitLength(s, '/', 3);
      QuerySlash(q, s);
      if i == 0 then Some(t[1])
      else if i == 1 then (if |t| > 2 then Some("/" + t[1] + "/" + t[2]) else None)
      else if i == 2 then (if |t| > 2 then Some(t[2]) else None)
      else None
  }

  /** Either query, once found, guarantees at least one '/'. */
  lemma QuerySlash(q: Query, s: string)
    requires QueryFound(q, s)
    ensures Count(s, '/') >= 1
  {
    if q.BrowseQuery? {
      var k: nat :| k <= |s| && OccursAt(s, "browse/", k);
      assert s[k..k + 7][6] == '/';
    }
    CountZero(s, '/');
  }

  /** The record every rule starts from: full_url and page are the path and
      org0 is None. */
  function Base(url: string): UrlDict
  {
    map[FullUrl := Str(url), Page := Str(url), Org(0) := Null]
  }

  predicate WorldRule(url: string) { Contains(url, "/government/world") }
  predicate GuidanceRule(url: string) { Contains(url, "/guidance") || Contains(url, "/government") }
  predicate BrowseRule(url: string) { Contains(url, "/browse") }
  predicate NavRule(url: string) { url == "/" || StartsWith(url, "/search") || StartsWith(url, "/help") }
  predicate ContactRule(url: string) { StartsWith(url, "/contact") }

  /** The path reaches the browse rule: the two rules above it do not apply. */
  predicate ReachesBrowse(url: string)
  {
    !WorldRule(url) && !GuidanceRule(url) && BrowseRule(url)
  }

  /** The path reaches the site-navigation rule. */
  predicate ReachesNav(url: string)
  {
    !WorldRule(url) && !GuidanceRule(url) && !BrowseRule(url) && NavRule(url)
  }

  /** clean_url(url). None stands for the IndexError raised by the browse
      rule on a path that holds 'browse/' but fewer than two '/'. */
  function CleanUrl(url: string): (r: Option<UrlDict>)
    ensures r.Some? ==> FullUrl in r.value && r.value[FullUrl] == Str(url)
    ensures r.Some? ==> Page in r.value && r.value[Page].Str?
    ensures r.Some? ==>
              && Org(0) in r.value
              && (r.value[Org(0)] == Str(ForeignOffice) <==> WorldRule(url))
              && (!WorldRule(url) ==> r.value[Org(0)] == Null)
    ensures r.Some? ==> r.value.Keys <= {FullUrl, Page, Org(0), Section(0), Section(1)}
    ensures r.None? <==> ReachesBrowse(url) && Contains(url, "browse/") && Count(url, '/') < 2
  {
    var d := Base(url);
    if WorldRule(url) then
      Some(d[Org(0) := Str(ForeignOffice)][Page := Str("/government/world")])
    else if GuidanceRule(url) then
      // The source tests the string 'org0' against the url text; either way
      // page keeps the full path.
      Some(if !Contains(url, "org0") then d[Page := Str(url)] else d)
    else if BrowseRule(url) then
      match (RegMatch(BrowseQuery, url, 1), RegMatch(BrowseQuery, url, 2))
      case (Some(page), Some(section)) => Some(d[Page := Str(page)][Section(0) := Str(section)])
      case _ => None
    else if NavRule(url) then
      Some(d[Section(0) := Str(SiteNav)][Section(1) := Str(SiteNav)])
    else if ContactRule(url) then
      Some(d[Section(0) := Str(ContactTag)][Section(1) := Str(ContactTag)])
    else
      match RegMatch(AnyQuery, url, 0)
      case Some(top) => Some(d[Page := Str("/" + top)])
      case None => None
  }

  /** clean_url never raises on a path that begins with '/': a path holding
      'browse/' then has two different '/' (the first character, and the one
      ending 'browse/'), so the split has the third piece the browse rule reads. */
  lemma CleanUrlTotal(url: string)
    requires StartsWith(url, "/")
    ensures CleanUrl(url).Some?
  {
    if ReachesBrowse(url) && Contains(url, "browse/") {
      var k: nat :| k <= |url| && OccursAt(url, "browse/", k);
      assert url[k..k + 7][6] == '/';
      assert url[k..k + 7][0] == 'b';
      assert url[..1][0] == '/';
      CountTwo(url, '/', 0, k + 6);
    }
  }

  /** Rule 1: any path containing '/government/world' is cut back to
      '/government/world' and credited to the Foreign Office, with no section,
      whatever else the path holds ('/browse', a '/search' prefix, ...). */
  lemma WorldRuleWins(url: string)
    requires WorldRule(url)
    ensures CleanUrl(url) == Some(map[FullUrl := Str(url), Page := Str("/government/world"),
                                     Org(0) := Str(ForeignOffice)])
  {
    assert Base(url)[Org(0) := Str(ForeignOffice)][Page := Str("/government/world")]
        == map[FullUrl := Str(url), Page := Str("/government/world"), Org(0) := Str(ForeignOffice)];
  }

  /** Rule 2: a path containing '/guidance' or '/government' but not
      '/government/world' keeps its full path as page and gets no section,
      even when it also begins with '/contact' or '/help'. */
  lemma GuidanceRuleKeepsPath(url: string)
    requires !WorldRule(url) && GuidanceRule(url)
    ensures CleanUrl(url) == Some(Base(url))
  {
    assert Base(url)[Page := Str(url)] == Base(url);
  }

  /** Rule 3, with 'browse/' present: page is '/' + segment 1 + '/' +
      segment 2 of the split at most three times on '/', and section0 is
      segment 2. */
  lemma BrowseRuleSegments(url: string)
    requires ReachesBrowse(url) && Contains(url, "browse/") && Count(url, '/') >= 2
    ensures var t := SplitLimited(url, '/', 3);
      |t| >= 3 &&
      CleanUrl(url) == Some(Base(url)[Page := Str("/" + t[1] + "/" + t[2])][Section(0) := Str(t[2])])
  {
    SplitLength(url, '/', 3);
  }

  /** Rule 3, without 'browse/' (for example '/browse' itself): the query is
      not found, so page and section0 are both the whole path. */
  lemma BrowseRuleWithoutSlash(url: string)
    requires ReachesBrowse(url) && !Contains(url, "browse/")
    ensures CleanUrl(url) == Some(Base(url)[Section(0) := Str(url)])
  {
    assert Base(url)[Page := Str(url)] == Base(url);
  }

  /** Rule 4: '/' and paths beginning '/search' or '/help', once they reach
      it, get section0 == section1 == 'site-nav' and keep the full path as page. */
  lemma NavRuleSections(url: string)
    requires ReachesNav(url)
    ensures CleanUrl(url) == Some(Base(url)[Section(0) := Str(SiteNav)][Section(1) := Str(SiteNav)])
  {
  }

  /** Rule 5: a path beginning '/contact' that no earlier rule takes gets
      section0 == section1 == 'contact'. */
  lemma ContactRuleSections(url: string)
    requires !WorldRule(url) && !GuidanceRule(url) && !BrowseRule(url) && !NavRule(url)
    requires ContactRule(url)
    ensures CleanUrl(url) == Some(Base(url)[Section(0) := Str(ContactTag)][Section(1) := Str(ContactTag)])
  {
  }

  /** Rule 6, the default: page is '/' followed by the segment after the
      first '/' (up to the next '/'), or '/' + url when url holds no '/'. */
  lemma DefaultRulePage(url: string)
    requires !WorldRule(url) && !GuidanceRule(url) && !BrowseRule(url) && !NavRule(url)
    requires !ContactRule(url)
    ensures '/' !in url ==> CleanUrl(url) == Some(Base(url)[Page := Str("/" + url)])
    ensures '/' in url ==>
      var t := SplitLimited(url, '/', 3);
      |t| >= 2 && '/' !in t[1] && CleanUrl(url) == Some(Base(url)[Page := Str("/" + t[1])])
  {
    if '/' in url {
      SplitLength(url, '/', 3);
      CountZero(url, '/');
      SplitPieces(url, '/', 3);
    }
  }

  /** The records the unit tests expect for their short paths (clean_url
      called on '/', '/government/world/turkey', '/search/...', '/help/...'
      and '/contact/...'), and the guidance examples. */
  lemma CleanUrlTestRoot(url: string)
    requires url == "/"
    ensures CleanUrl(url) == Some(map[FullUrl := Str("/"), Page := Str("/"), Org(0) := Null,
                                     Section(0) := Str(SiteNav), Section(1) := Str(SiteNav)])
  {
    NoRuleBefore(url, 'g');
    AbsentCharNotContained(url, "/browse", 'b');
    NavRuleSections(url);
  }

  /** Rules 1 and 2 do not apply to a path missing a letter of each of
      their patterns. */
  lemma NoRuleBefore(url: string, absent: char)
    requires absent in "/government/world" && absent in "/guidance" && absent in "/government"
    requires absent !in url
    ensures !WorldRule(url) && !GuidanceRule(url)
  {
    AbsentCharNotContained(url, "/government/world", absent);
    AbsentCharNotContained(url, "/guidance", absent);
    AbsentCharNotContained(url, "/government", absent);
  }

  lemma CleanUrlTestWorld(url: string)
    requires url == "/government/world/turkey"
    ensures CleanUrl(url)
         == Some(map[FullUrl := Str("/government/world/turkey"), Page := Str("/government/world"),
                     Org(0) := Str(ForeignOffice)])
  {
    PrefixStartsWith("/government/world", "/turkey");
    StartsWithContains(url, "/government/world");
    WorldRuleWins(url);
  }

  lemma CleanUrlTestSearch(url: string)
    requires url == "/search/this-is/a-search/url"
    ensures CleanUrl(url) == Some(map[FullUrl := Str(url), Page := Str(url), Org(0) := Null,
                                      Section(0) := Str(SiteNav), Section(1) := Str(SiteNav)])
  {
    SearchPathReachesNav(url);
    NavRuleSections(url);
  }

  /** The letters the earlier rules need are absent from this path. */
  lemma SearchPathLetters(url: string)
    requires url == "/search/this-is/a-search/url"
    ensures 'g' !in url && 'b' !in url
  {
  }

  lemma SearchPathReachesNav(url: string)
    requires url == "/search/this-is/a-search/url"
    ensures ReachesNav(url)
  {
    SearchPathLetters(url);
    NoRuleBefore(url, 'g');
    AbsentCharNotContained(url, "/browse", 'b');
    PrefixStartsWith("/search", "/this-is/a-search/url");
  }

  lemma CleanUrlTestHelp(url: string)
    requires url == "/help/this/is/a/help/url"
    ensures CleanUrl(url) == Some(map[FullUrl := Str(url), Page := Str(url), Org(0) := Null,
                                      Section(0) := Str(SiteNav), Section(1) := Str(SiteNav)])
  {
    HelpPathReachesNav(url);
    NavRuleSections(url);
  }

  /** The letters the earlier rules need are absent from this path. */
  lemma HelpPathLetters(url: string)
    requires url == "/help/this/is/a/help/url"
    ensures 'g' !in url && 'b' !in url
  {
  }

  lemma HelpPathReachesNav(url: string)
    requires url == "/help/this/is/a/help/url"
    ensures ReachesNav(url)
  {
    HelpPathLetters(url);
    NoRuleBefore(url, 'g');
    AbsentCharNotContained(url, "/browse", 'b');
    PrefixStartsWith("/help", "/this/is/a/help/url");
  }

  lemma CleanUrlTestContact(url: string)
    requires url == "/contact/this/is/a/contact/url"
    ensures CleanUrl(url) == Some(map[FullUrl := Str(url), Page := Str(url), Org(0) := Null,
                                      Section(0) := Str(ContactTag), Section(1) := Str(ContactTag)])
  {
    ContactPathReachesContact(url);
    ContactRuleSections(url);
  }

  /** The letters the earlier rules need are absent from this path. */
  lemma ContactPathLetters(url: string)
    requires url == "/contact/this/is/a/contact/url"
    ensures 'g' !in url && 'b' !in url
  {
  }

  lemma ContactPathReachesContact(url: string)
    requires url == "/contact/this/is/a/contact/url"
    ensures !WorldRule(url) && !GuidanceRule(url) && !BrowseRule(url) && !NavRule(url)
    ensures ContactRule(url)
  {
    ContactPathLetters(url);
    NoRuleBefore(url, 'g');
    AbsentCharNotContained(url, "/browse", 'b');
    MismatchNotStartsWith(url, "/search", 1);
    MismatchNotStartsWith(url, "/help", 1);
    PrefixStartsWith("/contact", "/this/is/a/contact/url");
  }

  lemma CleanUrlTestGuidance(url: string)
    requires url == "/guidance/foo/bar"
    ensures CleanUrl(url)
         == Some(map[FullUrl := Str("/guidance/foo/bar"), Page := Str("/guidance/foo/bar"), Org(0) := Null])
  {
    AbsentCharNotContained(url, "/government/world", 'w');
    PrefixStartsWith("/guidance", "/foo/bar");
    StartsWithContains(url, "/guidance");
    GuidanceRuleKeepsPath(url);
  }

  /** The empty path falls through to the default rule: page '/', no section. */
  lemma CleanUrlEmptyPath(url: string)
    requires url == ""
    ensures CleanUrl(url) == Some(map[FullUrl := Str(""), Page := Str("/"), Org(0) := Null])
  {
    EmptyPathReachesDefault(url);
    DefaultRulePage(url);
    assert "/" + url == "/";
    assert Base(url)[Page := Str("/")] == map[FullUrl := Str(""), Page := Str("/"), Org(0) := Null];
  }

  lemma EmptyPathReachesDefault(url: string)
    requires url == ""
    ensures !WorldRule(url) && !GuidanceRule(url) && !BrowseRule(url) && !NavRule(url)
    ensures !ContactRule(url) && '/' !in url
  {
    NoRuleBefore(url, 'g');
    AbsentCharNotContained(url, "/browse", 'b');
  }

  /** Browse example without 'browse/': '/browse' keeps itself as page and section0. */
  lemma CleanUrlBrowseBare(url: string)
    requires url == "/browse"
    ensures CleanUrl(url)
         == Some(map[FullUrl := Str("/browse"), Page := Str("/browse"), Org(0) := Null,
                     Section(0) := Str("/browse")])
  {
    NoRuleBefore(url, 'g');
    StartsWithContains(url, "/browse");
    BrowseRuleWithoutSlash(url);
  }
}

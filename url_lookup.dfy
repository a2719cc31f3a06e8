/** The stateful part of urllookup.py: api_lookup, which merges a
    content-API answer into a URL record in place, and the GovukUrls class,
    which deduplicates the incoming paths, cleans them and looks each one up. */
module UrlLookup {
  import opened Wrappers
  import opened Text
  import opened UrlRules

  /** One element of results[0]['organisations']; a missing 'title' makes
      j['title'] raise a KeyError. */
  datatype OrgItem = OrgItem(title: Option<string>)

  /** What requests.get(url) and r.json()['results'][0] give. RequestFailed
      covers every exception raised before a result is in hand: connection
      error, invalid JSON, no 'results' key, an empty result list.
      Otherwise the status code and the two optional fields the code reads. */
  datatype ApiResponse =
    | RequestFailed
    | Results(status: int, organisations: Option<seq<OrgItem>>, browsePages: Option<seq<string>>)

  /** The search URL api_lookup requests for a page. */
  function RequestUrl(page: string): string
  {
    "https://www.gov.uk/api/search.json?filter_link[]=" + page
      + "&fields=organisations&fields=mainstream_browse_pages"
  }

  /** The record holds a string under 'page', as clean_url always leaves it. */
  predicate HasTextPage(x: UrlDict)
  {
    Page in x && x[Page].Str?
  }

  /** Number of leading organisations that carry a title: the loop writes
      that many org keys before a KeyError, if any, stops it. */
  function TitledPrefix(orgs: seq<OrgItem>): (k: nat)
    ensures k <= |orgs|
    ensures forall j :: 0 <= j < k ==> orgs[j].title.Some?
    ensures k < |orgs| ==> orgs[k].title.None?
  {
    if orgs == [] || orgs[0].title.None? then 0 else 1 + TitledPrefix(orgs[1..])
  }

  /** The key is org<i> for some i below k. */
  predicate OrgBelow(key: Key, k: nat)
  {
    key.Org? && key.i < k
  }

  /** The key is section<i> for some i below n. */
  predicate SectionBelow(key: Key, n: nat)
  {
    key.Section? && key.i < n
  }

  /** The keys org0 .. org(k-1), set to the first k titles. */
  function OrgWrites(orgs: seq<OrgItem>, k: nat): (m: map<Key, Value>)
    requires k <= TitledPrefix(orgs)
    ensures forall key :: key in m <==> OrgBelow(key, k)
    ensures forall j {:trigger m[Org(j)]} :: 0 <= j < k ==> Org(j) in m && m[Org(j)] == Str(orgs[j].title.value)
  {
    if k == 0 then map[]
    else OrgWrites(orgs, k - 1)[Org(k - 1) := Str(orgs[k - 1].title.value)]
  }

  /** The keys section0 .. section(n-1), set to the first n browse pages. */
  function SectionWrites(pages: seq<string>, n: nat): (m: map<Key, Value>)
    requires n <= |pages|
    ensures forall key :: key in m <==> SectionBelow(key, n)
    ensures forall j {:trigger m[Section(j)]} :: 0 <= j < n ==> Section(j) in m && m[Section(j)] == Str(pages[j])
  {
    if n == 0 then map[]
    else SectionWrites(pages, n - 1)[Section(n - 1) := Str(pages[n - 1])]
  }

  /** The record api_lookup leaves behind, given the answer to its request
      and the time stamp datetime.now() gives. A failed request leaves the
      record as it was; a missing title stops the merge after the titles
      before it, with the exception swallowed; otherwise every organisation
      and browse page is written by index, then lookup_date and status. */
  function Merged(x: UrlDict, resp: ApiResponse, stamp: string): UrlDict
  {
    match resp
    case RequestFailed => x
    case Results(status, orgsField, pagesField) =>
      var orgs := orgsField.GetOr([]);
      var k := TitledPrefix(orgs);
      var withOrgs := x + OrgWrites(orgs, k);
      if k < |orgs| then withOrgs
      else withOrgs + SectionWrites(pagesField.GetOr([]), |pagesField.GetOr([])|)
                    + map[LookupDate := Str(stamp), Status := Int(status)]
  }

  /** A key api_lookup may write for this answer. */
  predicate WrittenBy(key: Key, resp: ApiResponse)
  {
    resp.Results? &&
    match key
    case Org(i) => i < TitledPrefix(resp.organisations.GetOr([]))
    case Section(i) =>
      TitledPrefix(resp.organisations.GetOr([])) == |resp.organisations.GetOr([])|
      && i < |resp.browsePages.GetOr([])|
    case Status => TitledPrefix(resp.organisations.GetOr([])) == |resp.organisations.GetOr([])|
    case LookupDate => TitledPrefix(resp.organisations.GetOr([])) == |resp.organisations.GetOr([])|
    case _ => false
  }

  /** A successful answer whose organisations all have titles writes org<i>
      and section<i> for every index of the fields it has (overwriting what
      the rules put there; a missing field writes nothing), then status and
      lookup_date. */
  lemma MergedSuccess(x: UrlDict, status: int, orgsField: Option<seq<OrgItem>>,
                      pagesField: Option<seq<string>>, stamp: string)
    requires forall j :: 0 <= j < |orgsField.GetOr([])| ==> orgsField.GetOr([])[j].title.Some?
    ensures var r := Merged(x, Results(status, orgsField, pagesField), stamp);
      var orgs, pages := orgsField.GetOr([]), pagesField.GetOr([]);
      && (forall j :: 0 <= j < |orgs| ==> Org(j) in r && r[Org(j)] == Str(orgs[j].title.value))
      && (forall j :: 0 <= j < |pages| ==> Section(j) in r && r[Section(j)] == Str(pages[j]))
      && Status in r && r[Status] == Int(status)
      && LookupDate in r && r[LookupDate] == Str(stamp)
  {
    var orgs, pages := orgsField.GetOr([]), pagesField.GetOr([]);
    TitledAll(orgs);
    var resp := Results(status, orgsField, pagesField);
    MergedCompleted(x, resp, stamp);
    var r := Merged(x, resp, stamp);
    var o := OrgWrites(orgs, |orgs|);
    var w := SectionWrites(pages, |pages|);
    forall j | 0 <= j < |orgs|
      ensures Org(j) in r && r[Org(j)] == Str(orgs[j].title.value)
    {
      assert Org(j) in o && Org(j) !in w;
    }
    forall j | 0 <= j < |pages|
      ensures Section(j) in r && r[Section(j)] == Str(pages[j])
    {
      assert Section(j) in w;
    }
  }

  lemma {:induction false} TitledAll(orgs: seq<OrgItem>)
    requires forall j :: 0 <= j < |orgs| ==> orgs[j].title.Some?
    ensures TitledPrefix(orgs) == |orgs|
  {
    if orgs != [] { TitledAll(orgs[1..]); }
  }

  /** Every key the answer does not write keeps its presence and value: in
      particular 'page', 'full_url' and any rule-set section at an index
      beyond the browse pages returned. */
  lemma MergedFrame(x: UrlDict, resp: ApiResponse, stamp: string, key: Key)
    requires !WrittenBy(key, resp)
    ensures var r := Merged(x, resp, stamp);
      (key in r <==> key in x) && (key in x ==> r[key] == x[key])
  {
  }

  /** The keys written are exactly those WrittenBy names: nothing besides
      them is added, and each of them is present afterwards. */
  lemma MergedKeys(x: UrlDict, resp: ApiResponse, stamp: string)
    ensures var r := Merged(x, resp, stamp);
      forall key :: key in r <==> key in x || WrittenBy(key, resp)
  {
    match resp
    case RequestFailed =>
    case Results(status, orgsField, pagesField) =>
      var orgs := orgsField.GetOr([]);
      var o := OrgWrites(orgs, TitledPrefix(orgs));
      var w := SectionWrites(pagesField.GetOr([]), |pagesField.GetOr([])|);
  }

  /** On a failed request, or when a title is missing, status and
      lookup_date are not added; org keys written before the missing title
      remain. */
  lemma MergedFailure(x: UrlDict, resp: ApiResponse, stamp: string)
    requires Status !in x && LookupDate !in x
    requires resp.RequestFailed? ||
             TitledPrefix(resp.organisations.GetOr([])) < |resp.organisations.GetOr([])|
    ensures var r := Merged(x, resp, stamp);
      Status !in r && LookupDate !in r &&
      (resp.Results? ==> forall j :: 0 <= j < TitledPrefix(resp.organisations.GetOr([])) ==>
         Org(j) in r && r[Org(j)] == Str(resp.organisations.GetOr([])[j].title.value))
  {
  }

  lemma OrgWritesStep(x: UrlDict, orgs: seq<OrgItem>, i: nat)
    requires i < TitledPrefix(orgs)
    ensures x + OrgWrites(orgs, i + 1) == (x + OrgWrites(orgs, i))[Org(i) := Str(orgs[i].title.value)]
  {
    UnionUpdate(x, OrgWrites(orgs, i), Org(i), Str(orgs[i].title.value));
  }

  lemma SectionWritesStep(x: UrlDict, pages: seq<string>, i: nat)
    requires i < |pages|
    ensures x + SectionWrites(pages, i + 1) == (x + SectionWrites(pages, i))[Section(i) := Str(pages[i])]
  {
    UnionUpdate(x, SectionWrites(pages, i), Section(i), Str(pages[i]));
  }

  /** Writing a key after a merge is writing it in the merged map. */
  lemma UnionUpdate(x: UrlDict, a: map<Key, Value>, k: Key, v: Value)
    ensures x + a[k := v] == (x + a)[k := v]
  {
  }

  /** The record api_lookup leaves when a title is missing, in the form the
      in-place update of ApiLookup builds it. */
  lemma MergedStopped(x: UrlDict, resp: ApiResponse, stamp: string)
    requires resp.Results?
    requires TitledPrefix(resp.organisations.GetOr([])) < |resp.organisations.GetOr([])|
    ensures Merged(x, resp, stamp)
         == x + OrgWrites(resp.organisations.GetOr([]), TitledPrefix(resp.organisations.GetOr([])))
  {
  }

  /** The record api_lookup leaves when every title is present, in the form
      the in-place update of ApiLookup builds it. */
  lemma MergedCompleted(x: UrlDict, resp: ApiResponse, stamp: string)
    requires resp.Results?
    requires TitledPrefix(resp.organisations.GetOr([])) == |resp.organisations.GetOr([])|
    ensures Merged(x, resp, stamp)
         == (x + OrgWrites(resp.organisations.GetOr([]), |resp.organisations.GetOr([])|)
               + SectionWrites(resp.browsePages.GetOr([]), |resp.browsePages.GetOr([])|))[LookupDate := Str(stamp)][Status := Int(resp.status)]
  {
  }

  /** The record api_lookup leaves behind when the content API answers
      its request with api(url) and the clock reads stamp. */
  function LookedUp(x: UrlDict, api: string -> ApiResponse, stamp: string): UrlDict
    requires HasTextPage(x)
  {
    Merged(x, api(RequestUrl(x[Page].s)), stamp)
  }

  /** A Python dict that api_lookup updates in place. */
  class Dict {
    var entries: UrlDict

    constructor (m: UrlDict)
      ensures entries == m
    {
      entries := m;
    }
  }

  /** api_lookup(x): requests the page's search URL, merges the answer into
      x in place and returns x itself. api stands for the content API and
      stamp for datetime.now(); the exception handler is the early returns. */
  method ApiLookup(x: Dict, api: string -> ApiResponse, stamp: string) returns (r: Dict)
    requires HasTextPage(x.entries)
    modifies x
    ensures r == x
    ensures x.entries == LookedUp(old(x.entries), api, stamp)
  {
    r := x;
    var resp := api(RequestUrl(x.entries[Page].s));
    if resp.RequestFailed? {
      return;
    }
    ghost var x0 := x.entries;
    var complete := WriteOrganisations(x, resp.organisations.GetOr([]));
    if !complete {
      // KeyError on j['title']: caught; x is returned as it stands.
      MergedStopped(x0, resp, stamp);
      return;
    }
    WriteBrowsePages(x, resp.browsePages.GetOr([]));
    x.entries := x.entries[LookupDate := Str(stamp)];
    x.entries := x.entries[Status := Int(resp.status)];
    MergedCompleted(x0, resp, stamp);
  }

  /** The first loop of api_lookup: x['org' + str(i)] = j['title'] for each
      organisation in turn, until one without a title raises the KeyError
      that complete == false reports. */
  method WriteOrganisations(x: Dict, orgs: seq<OrgItem>) returns (complete: bool)
    modifies x
    ensures complete <==> TitledPrefix(orgs) == |orgs|
    ensures x.entries == old(x.entries) + OrgWrites(orgs, TitledPrefix(orgs))
  {
    var i := 0;
    while i < |orgs|
      invariant 0 <= i <= |orgs|
      invariant i <= TitledPrefix(orgs)
      invariant x.entries == old(x.entries) + OrgWrites(orgs, i)
    {
      if orgs[i].title.None? {
        return false;
      }
      OrgWritesStep(old(x.entries), orgs, i);
      x.entries := x.entries[Org(i) := Str(orgs[i].title.value)];
      i := i + 1;
    }
    return true;
  }

  /** The second loop of api_lookup: x['section' + str(i)] = j for each
      browse page in turn. */
  method WriteBrowsePages(x: Dict, pages: seq<string>)
    modifies x
    ensures x.entries == old(x.entries) + SectionWrites(pages, |pages|)
  {
    var n := 0;
    while n < |pages|
      invariant 0 <= n <= |pages|
      invariant x.entries == old(x.entries) + SectionWrites(pages, n)
    {
      SectionWritesStep(old(x.entries), pages, n);
      x.entries := x.entries[Section(n) := Str(pages[n])];
      n := n + 1;
    }
  }

  /** The paths clean_url and api_lookup see: urls.drop_duplicates().dropna()
      keeps the first occurrence of every value, in input order, and then
      drops the nulls (None). */
  function Dedup(urls: seq<Option<string>>): seq<string>
  {
    if urls == [] then []
    else
      var prev := Dedup(urls[..|urls| - 1]);
      var last := urls[|urls| - 1];
      if last.None? || last.value in prev then prev else prev + [last.value]
  }

  predicate NoDuplicates(s: seq<string>)
  {
    forall i, j :: 0 <= i < j < |s| ==> s[i] != s[j]
  }

  /** The deduplicated paths hold no value twice. */
  lemma {:induction false} DedupNoDuplicates(urls: seq<Option<string>>)
    ensures NoDuplicates(Dedup(urls))
  {
    if urls != [] {
      DedupNoDuplicates(urls[..|urls| - 1]);
    }
  }

  /** A path is kept exactly when it occurs, non-null, in the input. */
  lemma {:induction false} DedupMembers(urls: seq<Option<string>>, u: string)
    ensures u in Dedup(urls) <==> Some(u) in urls
  {
    if urls != [] {
      var init := urls[..|urls| - 1];
      DedupMembers(init, u);
      assert urls == init + [urls[|urls| - 1]];
    }
  }

  /** First occurrences keep their input order: deduplicating a prefix of
      the input gives a prefix of the deduplicated input. */
  lemma {:induction false} DedupPrefix(urls: seq<Option<string>>, k: nat)
    requires k <= |urls|
    ensures Dedup(urls[..k]) <= Dedup(urls)
  {
    if k < |urls| {
      DedupPrefix(urls[..|urls| - 1], k);
      assert urls[..|urls| - 1][..k] == urls[..k];
    } else {
      assert urls[..k] == urls;
    }
  }

  /** Adding paths that are already present, or null, changes nothing. */
  lemma {:induction false} DedupAbsorbs(urls: seq<Option<string>>, more: seq<Option<string>>)
    requires forall k :: 0 <= k < |more| && more[k].Some? ==> more[k] in urls
    ensures Dedup(urls + more) == Dedup(urls)
  {
    if more == [] {
      assert urls + more == urls;
    } else {
      var init := more[..|more| - 1];
      DedupAbsorbs(urls, init);
      assert (urls + more)[..|urls + more| - 1] == urls + init;
      var last := more[|more| - 1];
      if last.Some? {
        DedupMembers(urls, last.value);
      }
    }
  }

  /** Input repeated twice deduplicates to the same paths as once. */
  lemma DedupDoubled(urls: seq<Option<string>>)
    ensures Dedup(urls + urls) == Dedup(urls)
  {
    DedupAbsorbs(urls, urls);
  }

  /** Distinct non-null paths are all kept, in their order. */
  lemma {:induction false} DedupDistinct(urls: seq<string>)
    requires NoDuplicates(urls)
    ensures Dedup(Somes(urls)) == urls
  {
    if urls != [] {
      var init := urls[..|urls| - 1];
      assert Somes(urls)[..|urls| - 1] == Somes(init);
      DedupDistinct(init);
      assert urls == init + [urls[|urls| - 1]];
    }
  }

  /** The paths as a Series without nulls. */
  function Somes(urls: seq<string>): (r: seq<Option<string>>)
    ensures |r| == |urls| && forall k :: 0 <= k < |urls| ==> r[k] == Some(urls[k])
  {
    seq(|urls|, k requires 0 <= k < |urls| => Some(urls[k]))
  }

  /** The unit test's seven distinct paths, given twice, deduplicate to half
      as many entries. */
  lemma DedupHalvesDoubledList(urls: seq<string>)
    requires NoDuplicates(urls)
    ensures |Dedup(Somes(urls) + Somes(urls))| == |urls + urls| / 2
  {
    DedupDoubled(Somes(urls));
    DedupDistinct(urls);
  }

  /** api_lookup never writes 'page', so a record keeps the page it was
      looked up under. */
  lemma MergedKeepsPage(x: UrlDict, resp: ApiResponse, stamp: string)
    requires HasTextPage(x)
    ensures HasTextPage(Merged(x, resp, stamp)) && Merged(x, resp, stamp)[Page] == x[Page]
  {
    MergedFrame(x, resp, stamp, Page);
  }

  /** api_lookup applied to each record in turn; the k-th call gets its
      answer from answers(k) and its time stamp from clock(k), so records
      that share a page can still fare differently. The records are
      distinct dicts, so each call changes only its own. */
  method LookupAll(cs: seq<Dict>, answers: nat -> string -> ApiResponse, clock: nat -> string) returns (rows: seq<UrlDict>)
    requires forall i, j :: 0 <= i < |cs| && 0 <= j < |cs| && i != j ==> cs[i] != cs[j]
    requires forall j :: 0 <= j < |cs| ==> HasTextPage(cs[j].entries)
    modifies set j | 0 <= j < |cs| :: cs[j]
    ensures |rows| == |cs|
    ensures forall k :: 0 <= k < |cs| ==>
              rows[k] == cs[k].entries && rows[k] == LookedUp(old(cs[k].entries), answers(k), clock(k)) && HasTextPage(rows[k])
  {
    rows := [];
    ghost var before := seq(|cs|, j requires 0 <= j < |cs| reads cs => cs[j].entries);
    var k := 0;
    while k < |cs|
      invariant 0 <= k <= |cs| && |rows| == k
      invariant forall j :: 0 <= j < k ==>
                  rows[j] == cs[j].entries && rows[j] == LookedUp(before[j], answers(j), clock(j)) && HasTextPage(rows[j])
      invariant forall j :: k <= j < |cs| ==> cs[j].entries == before[j]
    {
      var d := ApiLookup(cs[k], answers(k), clock(k));
      MergedKeepsPage(before[k], answers(k)(RequestUrl(before[k][Page].s)), clock(k));
      rows := rows + [d.entries];
      k := k + 1;
    }
  }

  /** The GovukUrls class: the incoming paths (a pandas Series whose nulls
      are None), their deduplication, the cleaned records (dicts that the
      lookup later updates in place) and the looked-up table, one row per
      cleaned record. */
  class GovukUrls {
    var urls: seq<Option<string>>
    var dedupurls: seq<string>
    var cleanurls: seq<Dict>
    var urlsdf: seq<UrlDict>

    /** The cleaned records are distinct dicts, each holding a string page. */
    ghost predicate Valid()
      reads this, cleanurls
    {
      && (forall i, j :: 0 <= i < |cleanurls| && 0 <= j < |cleanurls| && i != j ==> cleanurls[i] != cleanurls[j])
      && (forall i :: 0 <= i < |cleanurls| ==> HasTextPage(cleanurls[i].entries))
    }

    /** GovukUrls(urls): deduplicates the paths; nothing cleaned or looked up yet. */
    constructor (urls: seq<Option<string>>)
      ensures Valid()
      ensures this.urls == urls && dedupurls == Dedup(urls)
      ensures cleanurls == [] && urlsdf == []
    {
      this.urls := urls;
      dedupurls := Dedup(urls);
      cleanurls := [];
      urlsdf := [];
    }

    /** clean(): one fresh record clean_url(u) per deduplicated path u, in
        order. When clean_url raises for some path the exception leaves
        clean(), reported here as ok == false, and cleanurls is not assigned. */
    method Clean() returns (ok: bool)
      requires Valid()
      modifies this
      ensures Valid()
      ensures urls == old(urls) && dedupurls == old(dedupurls) && urlsdf == old(urlsdf)
      ensures ok <==> forall k :: 0 <= k < |dedupurls| ==> CleanUrl(dedupurls[k]).Some?
      ensures ok ==> |cleanurls| == |dedupurls|
      ensures ok ==> forall k :: 0 <= k < |cleanurls| ==>
                       fresh(cleanurls[k]) && cleanurls[k].entries == CleanUrl(dedupurls[k]).value
      ensures !ok ==> cleanurls == old(cleanurls)
    {
      var recs: seq<Dict> := [];
      var us := dedupurls;
      ghost var cleaned := seq(|us|, j requires 0 <= j < |us| => CleanUrl(us[j]));
      var k := 0;
      while k < |dedupurls|
        invariant 0 <= k <= |dedupurls| && |recs| == k
        invariant urls == old(urls) && dedupurls == old(dedupurls) && urlsdf == old(urlsdf)
        invariant cleanurls == old(cleanurls) && Valid()
        invariant forall j :: 0 <= j < k ==> cleaned[j] == Some(recs[j].entries) && fresh(recs[j])
        invariant forall j :: 0 <= j < k ==> HasTextPage(recs[j].entries)
        invariant forall i, j :: 0 <= i < k && 0 <= j < k && i != j ==> recs[i] != recs[j]
      {
        var rec := CleanUrl(dedupurls[k]);
        assert rec == cleaned[k];
        if rec.None? {
          ok := false;
          return;
        }
        var d := new Dict(rec.value);
        recs := recs + [d];
        k := k + 1;
      }
      assert forall j :: 0 <= j < |us| ==> cleaned[j] == CleanUrl(us[j]);
      cleanurls := recs;
      ok := true;
    }

    /** lookup(): api_lookup on every cleaned record in turn, the k-th
        request answered by answers(k) and stamped with clock(k); the records
        are updated in place, one failure touches only its own record, and
        urlsdf holds one row per record. */
    method Lookup(answers: nat -> string -> ApiResponse, clock: nat -> string)
      requires Valid()
      modifies this, cleanurls
      ensures Valid()
      ensures urls == old(urls) && dedupurls == old(dedupurls) && cleanurls == old(cleanurls)
      ensures |urlsdf| == |cleanurls|
      ensures forall k :: 0 <= k < |cleanurls| ==>
                cleanurls[k].entries == LookedUp(old(cleanurls[k].entries), answers(k), clock(k))
      ensures forall k :: 0 <= k < |cleanurls| ==> urlsdf[k] == cleanurls[k].entries
    {
      urlsdf := LookupAll(cleanurls, answers, clock);
    }
  }
}

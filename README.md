# GOV.UK feedback triage core, modelled in Dafny

This project models the two parts of the survey-triage pipeline that carry
real decision logic, and proves properties of them.

- **The URL classifier** (`urllookup/urllookup.py`).
  - `clean_url` turns a raw GOV.UK page path into a URL record (`full_url`,
    `page`, `org0`, and sometimes `section0` and `section1`). It uses an
    ordered cascade of six rules, and the first rule that applies wins.
  - `reg_match` cuts a path into its `'/'`-separated segments.
  - `api_lookup` merges the content-API answer for a record's page into the
    record in place. It writes `org<i>`, `section<i>`, `lookup_date` and
    `status`, and it swallows every failure.
  - The `GovukUrls` class deduplicates the incoming paths, cleans each one and
    looks each one up.
- **The PII scrubber** (`piiremover.py`).
  - `pii_remover` runs six `re.sub` substitutions on a string, in a fixed
    order: passport, phone, NI number, date, vehicle plate, e-mail. Each one
    replaces every non-overlapping leftmost match with its `{{ … }}`
    placeholder.
  - A false pattern argument skips its substitution.
  - Anything that is not a string is returned unchanged.

Modules:

| file | module | what it holds |
|---|---|---|
| `wrappers.dfy` | `Wrappers` | `Option` |
| `text.dfy` | `Text` | prefix and substring tests, character counts, `re.split` on one separator with a split limit, and join |
| `url_rules.dfy` | `UrlRules` | the record keys and values, `reg_match`, `clean_url` and one lemma per rule |
| `url_lookup.dfy` | `UrlLookup` | the content-API answer, `Merged` (the record `api_lookup` leaves behind), the in-place `ApiLookup` method, deduplication, and the `GovukUrls` class |
| `pii_patterns.dfy` | `PiiPatterns` | the six regular expressions, each as a deterministic matcher, and the two facts the scan needs of them |
| `pii_remover.dfy` | `PiiRemover` | `re.sub` as a left-to-right scan over any matcher with those two facts, the cascade, and its properties |

How the source is represented:

- **Records.** A URL record is a `map<Key, Value>`.
  - `Org(i)` and `Section(i)` stand for the keys `'org' + str(i)` and
    `'section' + str(i)`.
  - `Value` is Python's `None`, a string or an integer.
  - The record `api_lookup` mutates is an object (`Dict`) whose map field is
    reassigned in place.
- **Regular expressions.**
  - The conditions of `clean_url` become literal substring and prefix tests.
  - Each PII regular expression becomes a function that says where the match
    starting at a given position ends.
  - Each function returns the first success in Python's backtracking order.
    Where giving a character back cannot lead to a match, the greedy choice is
    the only one that succeeds. Where it can, Python still keeps the greedy
    choice because it tries it first. Examples are a piece at the end of a
    pattern (the date's year, the e-mail's domain, NI's trailing letter, the
    phone's extension) and the two adjacent `\s*` of NI's repetitions.
  - `\d` is read as the ASCII digits and `\s` as the characters `str.isspace`
    accepts.
- **Exceptions.**
  - `clean_url` and `reg_match` return `Option`, and `None` stands for the
    exception the source raises. That is an `IndexError` when the split has
    too few pieces. For `reg_match` with an index above 2 it is the
    `UnboundLocalError` of reading a `found` that was never assigned.
  - `api_lookup`'s exception handler becomes the early returns of `ApiLookup`.

Behaviour of the code worth knowing:

- **Substitution order.** The substitutions run passport, phone, NI, date,
  plate, e-mail.
- **Residual digits.** No pass masks leftover digits. The docstring says
  they are replaced with X, but the code does not do this.
- **The empty path** takes the default rule: page `/` and no section. The
  site-navigation rule is for `/` itself and for `/search…` and `/help…`
  paths only.
- **Totality.** `clean_url` raises exactly on a path that reaches the browse
  rule (it contains `/browse` and neither earlier rule applies) and holds
  `browse/` but fewer than two `/`. No such path begins with `/`, so
  `clean_url` is total on paths beginning with `/`.
- **A missing title** in the API answer stops `api_lookup` part-way. The
  org keys written before it stay in the record.
- **A missing field.** An answer without `organisations` or
  `mainstream_browse_pages` is not a failure. That step is skipped, and
  `lookup_date` and `status` are still written.

## Model

| member | source | states |
|---|---|---|
| UrlRules.RegMatch | urllookup/urllookup.py:114-139 | If the query (with `/` appended) is not found, the string comes back unchanged. If it is found, field 0 always exists. It raises exactly when the query is found and either i > 2 or (i ≥ 1 and the string has fewer than two `/`). |
| UrlRules.CleanUrl | urllookup/urllookup.py:55-112 | `full_url` is the input and `page` is a string. `org0` is always present: it is the Foreign Office exactly when the path contains `/government/world`, and None otherwise. Only `full_url`, `page`, `org0`, `section0` and `section1` can appear. It raises exactly when the browse rule is reached on a path with `browse/` and fewer than two `/`. |
| UrlRules.CleanUrlTotal | urllookup/urllookup.py:130-136 | `clean_url` never raises on a path beginning with `/`. |
| UrlRules.WorldRuleWins | urllookup/urllookup.py:75-78 | Any path containing `/government/world` gives page `/government/world`, `org0` the Foreign Office, and no section, whatever else it contains. |
| UrlRules.GuidanceRuleKeepsPath | urllookup/urllookup.py:84-86 | Any other path containing `/guidance` or `/government` keeps page == full_url and gets no section, even if it starts with `/contact` or `/help`. |
| UrlRules.BrowseRuleSegments | urllookup/urllookup.py:88-93 | When the browse rule applies and `browse/` is present, page is `/` + segment 1 + `/` + segment 2 of the split, and `section0` is segment 2. |
| UrlRules.BrowseRuleWithoutSlash | urllookup/urllookup.py:88-93 | When the browse rule applies but `browse/` is absent, page and `section0` are both the whole path. |
| UrlRules.NavRuleSections | urllookup/urllookup.py:98-100 | `/` and paths starting `/search` or `/help` that reach rule 4 get `section0` == `section1` == `site-nav`, and page is the full path. |
| UrlRules.ContactRuleSections | urllookup/urllookup.py:102-104 | A path starting `/contact` that reaches rule 5 gets `section0` == `section1` == `contact`. |
| UrlRules.DefaultRulePage | urllookup/urllookup.py:106-107 | In the default rule, page is `/` + the segment after the first `/` (which holds no `/`), or `/` + url when url has no `/`. |
| UrlRules.CleanUrlTestRoot | urllookup/test_urllookup.py:39 | The record for `/`. |
| UrlRules.CleanUrlTestWorld | urllookup/test_urllookup.py:40 | The record for `/government/world/turkey`. |
| UrlRules.CleanUrlTestSearch | urllookup/test_urllookup.py:43 | The record for `/search/this-is/a-search/url`. |
| UrlRules.CleanUrlTestHelp | urllookup/test_urllookup.py:44 | The record for `/help/this/is/a/help/url`. |
| UrlRules.CleanUrlTestContact | urllookup/test_urllookup.py:45 | The record for `/contact/this/is/a/contact/url`. |
| UrlRules.CleanUrlTestGuidance | urllookup/urllookup.py:84-86 | A `/guidance/…` path keeps its full path, with `org0` None and no section. |
| UrlRules.CleanUrlEmptyPath | urllookup/urllookup.py:106-107 | The empty path falls through to the default rule: page `/` and no section. |
| UrlRules.CleanUrlBrowseBare | urllookup/urllookup.py:88-93 | `/browse` keeps itself as page and as `section0`. |
| Text.SplitLimited | urllookup/urllookup.py:130 | `re.split(r'\/', s, maxsplit=n)`: cuts at the first n separators from the left. SplitLength, SplitJoin and SplitPieces pin it down. |
| Text.SplitLength | urllookup/urllookup.py:130 | `re.split` on `/` with maxsplit 3 gives min(number of `/`, 3) + 1 pieces. |
| Text.SplitJoin | urllookup/urllookup.py:130 | Joining the pieces with `/` gives back the string. |
| Text.SplitPieces | urllookup/urllookup.py:130 | No piece but the last contains `/`, and the last contains none when the limit was not reached. |
| UrlLookup.RequestUrl | urllookup/urllookup.py:147 | The search URL requested for a page: the page is put into the `filter_link[]` parameter. |
| UrlLookup.Merged | urllookup/urllookup.py:151-181 | The record `api_lookup` leaves, given the answer and the time stamp. MergedSuccess, MergedFrame, MergedKeys, MergedFailure and MergedKeepsPage state it key by key. |
| UrlLookup.LookedUp | urllookup/urllookup.py:147-183 | `api_lookup` on a record: `Merged` with the answer to the request for the record's page. ApiLookup is proved to produce it in place. |
| UrlLookup.TitledPrefix | urllookup/urllookup.py:164-165 | The number of leading organisations that have a title: every one before it has a title, and the one at that index has none. |
| UrlLookup.OrgWrites | urllookup/urllookup.py:164-165 | The org keys written for the first k titles: exactly `org0` .. `org<k-1>`, each holding its title. |
| UrlLookup.SectionWrites | urllookup/urllookup.py:170-171 | The section keys written for the first n browse pages: exactly `section0` .. `section<n-1>`, each holding its page. |
| UrlLookup.WriteOrganisations | urllookup/urllookup.py:159-165 | The org loop writes the titles in order into the dict in place and stops at the first organisation without a title; it reports whether it got through all of them. |
| UrlLookup.WriteBrowsePages | urllookup/urllookup.py:167-171 | The browse-page loop writes every page in order into the dict in place. |
| UrlLookup.MergedSuccess | urllookup/urllookup.py:158-173 | For a successful answer whose organisations, if present, all have titles, `org<i>` is the i-th title and `section<i>` the i-th browse page for every index of the fields the answer has, with a missing field writing nothing. `status` and `lookup_date` are set either way. |
| UrlLookup.MergedFrame | urllookup/urllookup.py:141-183 | Every key the answer does not write keeps its presence and its value, including `page`, `full_url` and rule-set sections beyond the pages returned. |
| UrlLookup.MergedKeys | urllookup/urllookup.py:159-174 | A key is present afterwards if and only if it was present before or the answer writes it. |
| UrlLookup.MergedFailure | urllookup/urllookup.py:151-181 | A failed request or a missing title adds no `status` or `lookup_date`. The titles before the missing one stay written. |
| UrlLookup.MergedKeepsPage | urllookup/urllookup.py:147-174 | The lookup never changes `page`. |
| UrlLookup.ApiLookup | urllookup/urllookup.py:141-183 | Updates the record in place to `Merged` of its old contents and the answer to its page's search URL, and returns the same object. |
| UrlLookup.Dedup | urllookup/urllookup.py:33 | `drop_duplicates().dropna()`. The Dedup lemmas below determine it completely. |
| UrlLookup.DedupNoDuplicates | urllookup/urllookup.py:33 | The deduplicated paths contain no value twice. |
| UrlLookup.DedupMembers | urllookup/urllookup.py:33 | A path is kept exactly when it occurs in the input and is not null. |
| UrlLookup.DedupPrefix | urllookup/urllookup.py:33 | First occurrences keep their input order: deduplicating a prefix gives a prefix of the result. |
| UrlLookup.DedupAbsorbs | urllookup/urllookup.py:33 | Appending paths that are already present, or null, changes nothing. |
| UrlLookup.DedupDoubled | urllookup/urllookup.py:33 | Input given twice deduplicates to the same paths as input given once. |
| UrlLookup.DedupDistinct | urllookup/urllookup.py:33 | Distinct non-null paths are all kept, in their order. |
| UrlLookup.DedupHalvesDoubledList | urllookup/test_urllookup.py:32-35 | Distinct paths given twice deduplicate to half as many entries. |
| UrlLookup.GovukUrls.constructor | urllookup/urllookup.py:25-38 | Stores the paths and their deduplication. Nothing is cleaned or looked up yet. |
| UrlLookup.GovukUrls.Clean | urllookup/urllookup.py:40-45 | Succeeds exactly when `clean_url` succeeds on every deduplicated path. It then holds one fresh record per path, in order, each equal to `clean_url` of that path. Otherwise `cleanurls` is left as it was. |
| UrlLookup.LookupAll | urllookup/urllookup.py:52 | Looks the records up one after another. The k-th record ends as the lookup of its own old contents against the k-th call's answer and time stamp, keeps a string page, and is the row returned for it. |
| UrlLookup.GovukUrls.Lookup | urllookup/urllookup.py:47-53 | Each record becomes the lookup of its old contents against its own call's answer and time stamp, so two records with the same page can fare differently and a failure touches only its own record. `urlsdf` holds one row per record. |
| PiiPatterns.PassportAt | piiremover.py:6 | The passport pattern: a match is non-empty and lies within the string. |
| PiiPatterns.PhoneAt | piiremover.py:4 | The phone pattern, with its three alternatives tried in order and the optional extension: a match is non-empty and lies within the string. |
| PiiPatterns.NiAt | piiremover.py:3 | The NI pattern: a match is non-empty and lies within the string. |
| PiiPatterns.DateAt | piiremover.py:7 | The date pattern: a match is non-empty and lies within the string. |
| PiiPatterns.VrpAt | piiremover.py:5 | The vehicle-plate pattern: a match is non-empty and lies within the string. |
| PiiPatterns.EmailAt | piiremover.py:8 | The e-mail pattern: a match is non-empty and lies within the string. |
| PiiPatterns.MatcherOf | piiremover.py:3-8 | No one of the six patterns matches the empty string, and every match lies within the string. |
| PiiPatterns.MatchHasMarker | piiremover.py:3-8 | Every match of every pattern contains a digit or an `@`. |
| PiiPatterns.MatcherMarks | piiremover.py:3-8 | The same, for each pattern's compiled matcher as a whole. |
| PiiRemover.Sub | piiremover.py:37-52 | `re.sub` with one pattern, as a left-to-right scan that replaces each leftmost match and resumes after it. SubNoMatch, SubLeftmost, SubMarkers and SubUnchanged state its properties. |
| PiiRemover.Step | piiremover.py:36-52 | One guarded substitution: a false argument leaves the string alone, otherwise `re.sub` with its placeholder. StepMarkers states its properties. |
| PiiRemover.PiiRemove | piiremover.py:34-54 | `pii_remover`: the six guarded substitutions in source order on a string, and anything else unchanged. PiiRemoveText, PiiRemoveNonText and PiiRemoveIsCascade state its properties. |
| PiiRemover.Cascade | piiremover.py:36-52 | The six steps with their placeholders, in the order the source runs them. |
| PiiRemover.RunSteps | piiremover.py:36-52 | A list of steps applied left to right, each to the result of the one before. RunStepsMarkers states its properties. |
| PiiRemover.SubNoMatch | piiremover.py:37 | With no match anywhere, `re.sub` returns its input. |
| PiiRemover.SubLeftmost | piiremover.py:37 | `re.sub` keeps the text before the leftmost match, writes the placeholder, and resumes after the match. |
| PiiRemover.SubMarkers | piiremover.py:37-52 | A substitution never adds digits or `@`, and removes at least one whenever it changes the string. |
| PiiRemover.SubMatchedLater | piiremover.py:37-52 | Any match strictly lowers the number of digits and `@`. |
| PiiRemover.SubUnchanged | piiremover.py:37-52 | A substitution leaves the string unchanged if and only if the pattern matches nowhere in it. |
| PiiRemover.NoMarkersNoMatch | piiremover.py:3-8 | A string without digits and `@` contains no match of any pattern. |
| PiiRemover.StepMarkers | piiremover.py:36-37 | A guarded step never adds digits or `@`, and leaves the string unchanged exactly when it is switched off or its pattern matches nowhere. |
| PiiRemover.RunStepsMarkers | piiremover.py:36-52 | The cascade never adds digits or `@`, removes some whenever it changes the string, and leaves it unchanged exactly when no enabled pattern matches in it. |
| PiiRemover.PiiRemoveIsCascade | piiremover.py:34-54 | On a string, `pii_remover` is the ordered list of guarded substitutions, run left to right. |
| PiiRemover.TagsAreClean | piiremover.py:37-52 | None of the six placeholders contains a digit or an `@`. |
| PiiRemover.PiiRemoveNonText | piiremover.py:34-54 | A value that is not a string is returned unchanged. |
| PiiRemover.PiiRemoveText | piiremover.py:34-54 | A string gives a string that is never richer in digits and `@`, is strictly poorer whenever it changed, and equals the input exactly when no enabled pattern matches. |
| PiiRemover.PiiRemoveAllOff | piiremover.py:10-54 | With every pattern argument false, the input is returned unchanged. |
| PiiRemover.PiiRemoveNoMarkers | piiremover.py:34-54 | A string without digits and `@` comes back unchanged under any configuration. |
| PiiRemover.MatchNotInsidePlaceholder | piiremover.py:3-8 | No match lies inside any stretch of a placeholder, so a later step cannot match within what an earlier step wrote. |
| PiiRemover.StepKeepsClean | piiremover.py:36-52 | A step applied to text without digits and `@`, such as a placeholder, changes nothing. |
| PiiRemover.PassportNeedsG | piiremover.py:6 | Every passport match contains, inside the match, the `G` of `GBR`. |
| PiiRemover.NoPassportWithoutG | piiremover.py:6 | A string without a `G` contains no passport number. |
| PiiRemover.PhoneExampleMatch | piiremover.py:4 | `07911 123456` is matched in full (to index 12) by the first phone alternative, `0` and four digits, then three and three, and the whole phone pattern therefore matches it in full. |
| PiiRemover.PassportStepExample | piiremover.py:36-37 | The passport step leaves `07911 123456` unchanged. |
| PiiRemover.PhoneStepExample | piiremover.py:39-40 | The phone step turns `07911 123456` into the phone placeholder. |
| PiiRemover.PhoneTagClean | piiremover.py:40 | The phone placeholder contains no digit and no `@`. |
| PiiRemover.PiiRemovePhoneExample | piiremover.py:34-54 | With the default arguments, `07911 123456` becomes `{{ PHONE NUMBER }}`. |
| PiiRemover.PrecedenceNiMatch | piiremover.py:3 | On its own, the NI pattern would take the first nine characters of `AB07911 123456`. |
| PiiRemover.PrecedencePhoneMatch | piiremover.py:4 | In `AB07911 123456` the leftmost phone match starts at index 2 and runs to the end. |
| PiiRemover.PrecedencePhoneTail | piiremover.py:39-40 | From index 2 on, the phone substitution replaces the whole rest of `AB07911 123456` with the placeholder. |
| PiiRemover.PrecedencePhoneStep | piiremover.py:39-40 | The phone step turns `AB07911 123456` into `AB{{ PHONE NUMBER }}`. |
| PiiRemover.PrecedencePassportStep | piiremover.py:36-37 | The passport step leaves `AB07911 123456` unchanged. |
| PiiRemover.PiiRemovePrecedenceExample | piiremover.py:36-43 | Order matters: with the defaults, phone runs before NI and claims the whole number, so `AB07911 123456` becomes `AB{{ PHONE NUMBER }}`, although the NI pattern alone would match its first nine characters. |

## Left out

- The HTTP request (`requests.get`, `r.json()`) is replaced by a function
  parameter that maps the request URL to the parsed answer. `GovukUrls.Lookup`
  takes one such function per call, so each request can get its own answer.
  Every exception raised before a result is in hand is one `RequestFailed`
  value.
- `datetime.now()` and its formatting: the time stamp is a parameter, and the
  k-th lookup of `GovukUrls.Lookup` receives the k-th stamp.
- The `print` calls in `api_lookup` have no effect on the result and are not
  modelled.
- pandas:
  - the Series is a sequence of optional strings; `None` stands for every null
    `dropna` removes;
  - `urlsdf` is the list of records, one per row, rather than a DataFrame with
    aligned columns;
  - the `isinstance` assertions are type constraints.
- UrlLookup.ApiLookup: requires the record to hold a string page. `clean_url`
  always produces one, and the source formats whatever value it finds there.
- UrlLookup.GovukUrls.Clean: an exception from `clean_url` stops `clean()`.
  This is reported as `ok == false`; exception propagation itself is not
  modelled.
- UrlRules.RegMatch: only the two regular expressions `clean_url` passes are
  modelled, the default query `\/?browse` and dot-star. `clean_url`'s `query`
  argument is fixed at its default.
- Arbitrary regular expressions as `pii_remover` arguments are not modelled.
  A true argument is one of the six module patterns, and a false argument
  switches its step off.
- PiiPatterns.IsDigit: reads `\d` and `\D` as ASCII only. Python's `\d` on a
  `str` also matches other Unicode decimal digits.
- The docstring's promise that remaining digits are replaced with `X`
  (piiremover.py:22-24) is not in the code and is not modelled.
- The two long unit-test paths (urllookup/test_urllookup.py:41-42) get no
  concrete lemmas. `UrlRules.GuidanceRuleKeepsPath` states their outcome for
  every such path.
- The `lookup` unit test (urllookup/test_urllookup.py:55-60) depends on the
  live content API, so it is not modelled.
- The unit test constructs the class under the stale name `govukurls`
  (urllookup/test_urllookup.py:27). The class is `GovukUrls`.

# fifa-crawler spiders, modelled in Dafny

The fifa crawler has two scrapy spiders, and this project models both. Each one fetches pages of a football-statistics
site through a rendering proxy, ZenRows.

- **The listing collector** (`collect_player_url`, module `PlayersUrls`):
  - requests the first listing page of players sorted by overall rating;
  - yields one `{'player_url': id}` item per player link on that page;
  - moves its offset from 0 to 60, requests that one further page, and stops.
- **The detail collector** (`collect_player_info`, module `PlayersInfo`):
  - loads the identifier list and requests the page of the player under its cursor;
  - assembles one merged player dictionary per page;
  - moves the cursor by one and requests the next player's page, until the list ends.

The modules are:

- `Proxy`: the URL builder `get_zenrows_api_url`, which both spiders define identically. Python's `urlencode` /
  `quote_plus` are modelled concretely: UTF-8, the always-safe set `A-Z a-z 0-9 _ . - ~`, space written as `+`,
  and `%XX` in upper case. Strings are sequences of Unicode scalar values. The project proves that the encoding can be
  read back:
  - `unquote_plus(quote_plus(s)) == s` for every such string;
  - the built URL splits back into its key and fields;
  - different target pages give different proxy URLs.
- `Dicts`: Python's `dict` as the spiders use it. A dict is an insertion-ordered list of entries:
  - assigning to a present key keeps its place and replaces its value;
  - a new key is appended;
  - `dict(pairs)` and `d.update(pairs)` let the last duplicate win.
- `PlayerRecord`: how `parse` assembles a record from the selector results of one player page. It covers the
  profile template, the zipped label/value dicts, the teams dict, the attribute groups with their boost filter, and
  the `.update` chain. It also covers the error paths where `parse` raises.
- `PlayersInfo` and `PlayersUrls`: the spider objects as classes with their mutable state (the cursor
  `player_count` and the offset `count`), and the crawl the scrapy engine drives as a `Run` loop. The loop runs until
  no new request is scheduled. scrapy's default duplicate filter is part of the loop: a request whose URL was
  already scheduled is dropped.

Behaviour of the code that the model keeps:

- **Profile template.** The template matched at collect_players_info.py:41 is `"{}y.o. ({}) {}cm / {} {}kg / {}lbs"`,
  and the weight is taken from field 4.
- **Teams entry.** The teams entry is a dict display, so a club name equal to the national-team name (both `None`
  when neither link exists) gives ONE entry. It sits at the club's place and holds the national value
  (`PlayerRecord.Teams`).
- **Last attribute category.** It is added as the list of its filtered labels when that list is not empty, whether
  or not it has values (collect_players_info.py:92-93).
- **Duplicate requests.** scrapy's default duplicate filter drops a repeated request URL. So the detail chain stops
  at an identifier whose request was already made (`PlayersInfo.RepeatStops`).
- **The `id` entry.** `id` stays the first key of every record. Its value is the player's identifier unless an
  overall label, a profile label or an attribute heading on the page reads `id`, since the `.update` chain at
  lines 96-100 would replace it (`PlayerRecord.KeepsId`, `PlayerRecord.AssembledStartsWithId`).

## Model

| member | source | states |
|---|---|---|
| Proxy.QueryIsFormEncoded | fifa_crawler/fifa_crawler/spiders/collect_players_info.py:7-13 | The query part of the API URL is exactly `urlencode` of the three-entry parameter dict, in insertion order: `url`, `js_render`, `premium_proxy`. |
| Proxy.QuotePlusEmitted | fifa_crawler/fifa_crawler/spiders/collect_players_info.py:13 | Every character `quote_plus` emits is always-safe, `%` or `+`. |
| Proxy.QuotePlusSafe | fifa_crawler/fifa_crawler/spiders/collect_players_info.py:7-11 | A string of always-safe characters (such as the parameter names and `true`) is its own encoding. |
| Proxy.NoDelimiters | fifa_crawler/fifa_crawler/spiders/collect_players_info.py:13 | An encoded value contains neither `&` nor `=`, so it cannot break the query apart. |
| Proxy.ApiUrlFields | fifa_crawler/fifa_crawler/spiders/collect_players_info.py:6-14 | For a key without `&`, splitting the part after `apikey=` on `&` gives back the key and the three `name=value` fields, in order. |
| Proxy.UrlFieldParts | fifa_crawler/fifa_crawler/spiders/collect_players_info.py:13 | The `url` field splits on `=` into its name and the encoded target. |
| Proxy.UnquoteQuotePlus | fifa_crawler/fifa_crawler/spiders/collect_players_info.py:13 | Percent-decoding the encoded target gives the UTF-8 bytes of the target. |
| Proxy.Utf8RoundTrip | fifa_crawler/fifa_crawler/spiders/collect_players_info.py:13 | UTF-8 decoding the UTF-8 encoding of any string of Unicode scalar values gives the string back. |
| Proxy.QuotePlusRoundTrip | fifa_crawler/fifa_crawler/spiders/collect_players_info.py:13 | `unquote_plus(quote_plus(s)) == s` for every string `s` of Unicode scalar values. |
| Proxy.ApiUrlInjective | fifa_crawler/fifa_crawler/spiders/collect_players_info.py:6-14 | Under one API key, two target URLs give the same API URL only if they are equal. |
| Proxy.Utf8 | fifa_crawler/fifa_crawler/spiders/collect_players_info.py:13 | A character encodes to 1 to 4 bytes, and to itself alone exactly when it is ASCII. |
| Proxy.PercentBytes | fifa_crawler/fifa_crawler/spiders/collect_players_info.py:13 | Each byte becomes three characters, all of them emitted characters (`%` and upper-case hex digits). |
| Proxy.QuoteChar | fifa_crawler/fifa_crawler/spiders/collect_players_info.py:13 | One character is encoded as 1 to 12 characters, and as itself exactly when it is always-safe. |
| Proxy.QuotePlus | fifa_crawler/fifa_crawler/spiders/collect_players_info.py:13 | `quote_plus(s)` is at least as long as `s` and at most 12 times as long. QuotePlusRoundTrip gives its inverse. |
| Proxy.FormEncode | fifa_crawler/fifa_crawler/spiders/collect_players_info.py:13 | `urlencode` gives the empty string exactly for no parameters. QueryIsFormEncoded gives the three-parameter case. |
| Proxy.Params | fifa_crawler/fifa_crawler/spiders/collect_players_info.py:7-11 | The parameter dict has the distinct keys `url`, `js_render`, `premium_proxy`, in that order, holding the target URL, `true` and `true`. |
| Proxy.ApiUrl | fifa_crawler/fifa_crawler/spiders/collect_players_info.py:6-14 | The built URL. Its properties are stated by ApiUrlFields, ApiUrlInjective and QueryIsFormEncoded. |
| Proxy.Query | fifa_crawler/fifa_crawler/spiders/collect_players_info.py:13 | The string appended for `urlencode(params)`. QueryIsFormEncoded states that it equals `FormEncode(Params(url))`. |
| Dicts.Lookup | fifa_crawler/fifa_crawler/spiders/collect_players_info.py:96-100 | Reading a key of the merged record (as MergeLookup and UpdateLookup do) finds nothing exactly when the key is absent. A `['player_url']` subscript on an entry without that key raises KeyError in the source; that case is under "## Left out". |
| Dicts.Set | fifa_crawler/fifa_crawler/spiders/collect_players_info.py:72-77 | Assigning a key gives it the new value and leaves every other key's value alone. A present key keeps its place, a new key is appended, and the result is still a dict. |
| Dicts.Update | fifa_crawler/fifa_crawler/spiders/collect_players_info.py:96-100 | `update` keeps the old keys as a prefix and adds only the keys of the pairs. Every entry comes from the old dict or the pairs, and the result is still a dict. |
| Dicts.LastAt | fifa_crawler/fifa_crawler/spiders/collect_players_info.py:59 | Finds the last pair with a given key, and reports none exactly when no pair has it. |
| Dicts.UpdateLookup | fifa_crawler/fifa_crawler/spiders/collect_players_info.py:96-100 | After `update`, a key the pairs assign holds the value of its LAST pair, and any other key keeps its old value. |
| Dicts.UpdateWithDict | fifa_crawler/fifa_crawler/spiders/collect_players_info.py:96-100 | Updating with a dict: the keys it holds take its values, and the others keep theirs. |
| Dicts.UpdateIdempotent | fifa_crawler/fifa_crawler/spiders/collect_players_info.py:96-100 | Applying the same `update` twice gives the same dict as applying it once. |
| Dicts.KeysNoGrowth | fifa_crawler/fifa_crawler/spiders/collect_players_info.py:96-100 | Updating with keys that are all present changes no key and no position. |
| Dicts.Filter | fifa_crawler/fifa_crawler/spiders/collect_players_info.py:57 | Every element kept by `filter` satisfies the predicate. |
| Dicts.FilterCounts | fifa_crawler/fifa_crawler/spiders/collect_players_info.py:57 | `filter` keeps every occurrence of a passing element and drops every occurrence of a failing one. |
| Dicts.FilterAppend | fifa_crawler/fifa_crawler/spiders/collect_players_info.py:87 | `filter` keeps the order: it distributes over concatenation. |
| PlayerRecord.ZipDict | fifa_crawler/fifa_crawler/spiders/collect_players_info.py:59 | `dict(zip(labels, values))` is a dict with at most min-length entries, each pairing a label with the value at the same position. |
| PlayerRecord.ZipDictLookup | fifa_crawler/fifa_crawler/spiders/collect_players_info.py:59 | A label is absent exactly when it is not among the labels below the shorter length. Otherwise it maps to the value at its LAST such position. |
| PlayerRecord.TextPairs | fifa_crawler/fifa_crawler/spiders/collect_players_info.py:59 | `zip` stops at the shorter list, and pair i is label i with value i. |
| PlayerRecord.First | fifa_crawler/fifa_crawler/spiders/collect_players_info.py:39 | `.get()` is None exactly on an empty selection, and otherwise the first text. |
| PlayerRecord.Base | fifa_crawler/fifa_crawler/spiders/collect_players_info.py:45-52 | The first dict has the keys `id, name, positions, age, birth_date, height, weight`, in that order. |
| PlayerRecord.ProfileFields | fifa_crawler/fifa_crawler/spiders/collect_players_info.py:55-59 | The profile dict pairs profile labels with the paragraph texts that are not the `' '` placeholder: each entry pairs some label with the text at the same position, and a repeated label keeps the text at its last position (ZipDictLookup). It is a dict with at most as many entries as the shorter of the two lists. |
| PlayerRecord.Specialities | fifa_crawler/fifa_crawler/spiders/collect_players_info.py:62-64 | A one-key dict under `Player specialities` that holds the list of speciality links. |
| PlayerRecord.Teams | fifa_crawler/fifa_crawler/spiders/collect_players_info.py:72-77 | The national-team name always maps to the national value. Distinct names give two entries, club first. Equal names give one entry. |
| PlayerRecord.TeamsEntry | fifa_crawler/fifa_crawler/spiders/collect_players_info.py:67-77 | A one-key dict under `teams`. |
| PlayerRecord.OverallAttributes | fifa_crawler/fifa_crawler/spiders/collect_players_info.py:80-83 | Labels are the `div.sub` texts of ALL the grids, values the `em` texts of the FIRST grid only. Each entry pairs some label with the value at the same position, and a repeated label keeps the value at its last position (ZipDictLookup). The result is a dict with at most as many entries as the shorter list. |
| PlayerRecord.GridSubTexts | fifa_crawler/fifa_crawler/spiders/collect_players_info.py:80 | A text is among one grid's `div.sub` texts exactly when some column of that grid has it. |
| PlayerRecord.OverallLabels | fifa_crawler/fifa_crawler/spiders/collect_players_info.py:80 | A text is an overall label exactly when it is a `div.sub` text of some grid. |
| PlayerRecord.OverallValues | fifa_crawler/fifa_crawler/spiders/collect_players_info.py:81 | A text is an overall value exactly when it is an `em` text of some column of the first grid. |
| PlayerRecord.DetailColumns | fifa_crawler/fifa_crawler/spiders/collect_players_info.py:86 | `info_grid[3:5]` gives no columns with three grids or fewer, grid 3's columns with four, and grids 3 and 4 with five or more. |
| PlayerRecord.AttributeLabels | fifa_crawler/fifa_crawler/spiders/collect_players_info.py:87 | A column's attribute labels are its `span` texts that pass the boost filter: none contains `+` or `-`. FilterCounts and FilterAppend state that every passing label is kept, in order. |
| PlayerRecord.Heading | fifa_crawler/fifa_crawler/spiders/collect_players_info.py:91-93 | A column's heading is None exactly when it has no `h5` text, and otherwise its first `h5` text. |
| PlayerRecord.GroupEntries | fifa_crawler/fifa_crawler/spiders/collect_players_info.py:91 | The comprehension's pairs, one per leading column in column order, each pairing the column's heading with its group. |
| PlayerRecord.LeadingGroups | fifa_crawler/fifa_crawler/spiders/collect_players_info.py:91 | The comprehension over all columns but the last is a dict whose entries are heading/group pairs of those columns. |
| PlayerRecord.AttributeGroups | fifa_crawler/fifa_crawler/spiders/collect_players_info.py:86-93 | Fails exactly when there are no detail columns (`d_attributes[-1]` raises). Otherwise the result is a dict. |
| PlayerRecord.LastHeading | fifa_crawler/fifa_crawler/spiders/collect_players_info.py:91 | Finds the last leading column with a given heading, or reports that none has it. |
| PlayerRecord.Group | fifa_crawler/fifa_crawler/spiders/collect_players_info.py:91 | A leading column's value is a dict whose keys are all present labels without `+` or `-`. |
| PlayerRecord.LeadingGroupsLookup | fifa_crawler/fifa_crawler/spiders/collect_players_info.py:91 | A heading maps to the group dict of the LAST leading column that carries it, and is absent when none does. |
| PlayerRecord.AttributeGroupsLookup | fifa_crawler/fifa_crawler/spiders/collect_players_info.py:91-93 | The last column's non-empty label list wins its heading. Otherwise a heading holds the group of its last leading column, or is absent. |
| PlayerRecord.AttributeLabelsUnannotated | fifa_crawler/fifa_crawler/spiders/collect_players_info.py:87-93 | No kept attribute label contains `+` or `-`, neither as a group-dict key nor as an item of the trailing list. |
| PlayerRecord.GroupLabelsUnannotated | fifa_crawler/fifa_crawler/spiders/collect_players_info.py:87-91 | Every key of a group dict is a present label with no `+` or `-`. |
| PlayerRecord.MergeKeys | fifa_crawler/fifa_crawler/spiders/collect_players_info.py:96-100 | The `.update` chain yields a dict, keeps the base keys at the front in order, and holds every key of the teams and specialities dicts. |
| PlayerRecord.MergeLookup | fifa_crawler/fifa_crawler/spiders/collect_players_info.py:96-100 | Each key holds the value from the LAST of the six dicts that contains it. |
| PlayerRecord.MergeIdempotent | fifa_crawler/fifa_crawler/spiders/collect_players_info.py:96-100 | Re-merging the same five sub-dicts into a merged record gives the same record. |
| PlayerRecord.Merge | fifa_crawler/fifa_crawler/spiders/collect_players_info.py:96-100 | The `.update` chain. Its properties are stated by MergeKeys, MergeLookup and MergeIdempotent. |
| PlayerRecord.AssembleSpec | fifa_crawler/fifa_crawler/spiders/collect_players_info.py:35-101 | `parse` yields a record exactly when the page has a profile line, the template matches, the second grid has at least four columns and there is an attribute column. With no profile line it raises first. The record is a dict holding the base keys in order plus `teams` and `Player specialities`. |
| PlayerRecord.Assemble | fifa_crawler/fifa_crawler/spiders/collect_players_info.py:35-101 | `parse` up to its `yield`. Its properties are stated by AssembleSpec and AssembledStartsWithId. |
| PlayerRecord.Last | fifa_crawler/fifa_crawler/spiders/collect_players_info.py:40 | `getall()[-1]` on a non-empty selection is one of its texts. Assemble raises NoProfileText before calling it on an empty one. |
| PlayerRecord.AssembledStartsWithId | fifa_crawler/fifa_crawler/spiders/collect_players_info.py:45-101 | Every yielded record starts with the `id` key. When no later dict of the page has an `id` key (`KeepsId`), that entry is `id` with the player's identifier. |
| PlayersInfo.DetailPageUrl | fifa_crawler/fifa_crawler/spiders/collect_players_info.py:30 | The identifier can be read back from between the fixed prefix and suffix of the detail page URL. |
| PlayersInfo.RequestUrlInjective | fifa_crawler/fifa_crawler/spiders/collect_players_info.py:30-32 | Two players' proxy requests are equal exactly when their identifiers are. |
| PlayersInfo.RequestUrl | fifa_crawler/fifa_crawler/spiders/collect_players_info.py:30-32 | The proxy request for a player. RequestUrlInjective states that it identifies the player. |
| PlayersInfo.Outcomes | fifa_crawler/fifa_crawler/spiders/collect_players_info.py:33-101 | There is one outcome per player, and OutcomeAt states that outcome k is `parse` of player k's page. |
| PlayersInfo.OutcomeAt | fifa_crawler/fifa_crawler/spiders/collect_players_info.py:33-101 | Outcome k is the record assembled from the page fetched for player k's request. |
| PlayersInfo.Requests | fifa_crawler/fifa_crawler/spiders/collect_players_info.py:105-106 | There is one request per player. |
| PlayersInfo.RequestAt | fifa_crawler/fifa_crawler/spiders/collect_players_info.py:105-106 | Request k is the proxy request for player k. |
| PlayersInfo.Crawl | fifa_crawler/fifa_crawler/spiders/collect_players_info.py:101-107 | A crawl from player `i` yields at most one record per remaining player, and schedules one request fewer than, or as many as, the records it yields. |
| PlayersInfo.CrawlOrder | fifa_crawler/fifa_crawler/spiders/collect_players_info.py:101-107 | Record `k` of a crawl from `i` is the outcome for player `i+k`. Scheduled request `k` is player `i+1+k`'s, new to the filter, and no request repeats. |
| PlayersInfo.CrawlComplete | fifa_crawler/fifa_crawler/spiders/collect_players_info.py:103-107 | When every page parses and no request repeats, the crawl yields one record per remaining player and one request per later player. |
| PlayersInfo.CrawlAll | fifa_crawler/fifa_crawler/spiders/collect_players_info.py:103-107 | From the first player with all pages parsing and distinct requests: as many records as players, and the requests are exactly the players' requests. |
| PlayersInfo.CrawlEvery | fifa_crawler/fifa_crawler/spiders/collect_players_info.py:101-107 | Under the same conditions every outcome is yielded, in order. |
| PlayersInfo.RequestsDistinct | fifa_crawler/fifa_crawler/spiders/collect_players_info.py:105-106 | Distinct identifiers give distinct requests. |
| PlayersInfo.OutcomesSucceed | fifa_crawler/fifa_crawler/spiders/collect_players_info.py:35-101 | When every player's page parses, every outcome in the list is a record. |
| PlayersInfo.RunComplete | fifa_crawler/fifa_crawler/spiders/collect_players_info.py:29-107 | For M distinct identifiers whose pages all parse, the crawl yields exactly M records, record k assembled for identifier k. It makes exactly the M requests, in list order. |
| PlayersInfo.RunRecordIds | fifa_crawler/fifa_crawler/spiders/collect_players_info.py:29-107 | In such a run, record k holds identifier k under its leading `id` key whenever player k's page satisfies `KeepsId`. |
| PlayersInfo.RecordsStartWithId | fifa_crawler/fifa_crawler/spiders/collect_players_info.py:45-101 | Every record a crawl yields starts with `id`. Under `KeepsId` for its page, that entry holds the identifier of its player. |
| PlayersInfo.RepeatStops | fifa_crawler/fifa_crawler/spiders/collect_players_info.py:103-107 | A second identifier equal to the first stops the run after at most one record: the duplicate filter drops its request. |
| PlayersInfo.CrawlAdvance | fifa_crawler/fifa_crawler/spiders/collect_players_info.py:101-107 | After a parsed page with a new follow-up request, the records and requests so far plus the rest of the crawl still make up the whole crawl. |
| PlayersInfo.CrawlStop | fifa_crawler/fifa_crawler/spiders/collect_players_info.py:101-107 | When the chain ends (parse error, last player, or seen URL), the records and requests so far are the whole crawl. |
| PlayersInfo.InfoSpider.constructor | fifa_crawler/fifa_crawler/spiders/collect_players_info.py:19-27 | A non-empty key replaces the default `""`. The list is the file's content, and `loaded` records whether the file opened. The cursor starts at 0. |
| PlayersInfo.InfoSpider.StartRequests | fifa_crawler/fifa_crawler/spiders/collect_players_info.py:29-33 | Fails when the file was not loaded or is empty. Otherwise it makes one request, for the player under the cursor. |
| PlayersInfo.InfoSpider.Parse | fifa_crawler/fifa_crawler/spiders/collect_players_info.py:35-107 | The outcome is the record assembled for the player under the cursor. After a record for a non-last player, the cursor moves by one and the next player's request follows. Otherwise the cursor stays and nothing follows. |
| PlayersInfo.InfoSpider.Visit | fifa_crawler/fifa_crawler/spiders/collect_players_info.py:33 | The callback for the scheduled request gives that player's outcome and follow-up, in terms of the whole player list. |
| PlayersInfo.InfoSpider.Run | fifa_crawler/fifa_crawler/spiders/collect_players_info.py:29-107 | The engine loop yields exactly `Crawl`'s records and makes exactly the start request followed by `Crawl`'s requests. The spider stays valid and the cursor only moves forward within the list. |
| PlayersUrls.Decimal | fifa_crawler/fifa_crawler/spiders/collect_players_urls.py:38 | `str(n)` is a non-empty string of decimal digits with no leading zero. |
| PlayersUrls.ParseDecimal | fifa_crawler/fifa_crawler/spiders/collect_players_urls.py:38 | The inverse of `Decimal`: reading back succeeds exactly on a non-empty all-digit string. |
| PlayersUrls.DecimalRoundTrip | fifa_crawler/fifa_crawler/spiders/collect_players_urls.py:38 | `int(str(n)) == n`. |
| PlayersUrls.DecimalInjective | fifa_crawler/fifa_crawler/spiders/collect_players_urls.py:38 | Different offsets are written differently. |
| PlayersUrls.ListingUrl | fifa_crawler/fifa_crawler/spiders/collect_players_urls.py:38 | A listing URL is the fixed listing prefix followed by the offset's digits. |
| PlayersUrls.SameUrlSameRequest | fifa_crawler/fifa_crawler/spiders/collect_players_urls.py:26-27 | Two proxy requests have the same URL exactly when they fetch the same page. |
| PlayersUrls.ProxyRequest.Url | fifa_crawler/fifa_crawler/spiders/collect_players_urls.py:26 | A request's URL is the one the builder makes for its page with the module's key. SameUrlSameRequest states that it identifies the page. |
| PlayersUrls.ListingRequest | fifa_crawler/fifa_crawler/spiders/collect_players_urls.py:39 | The proxy request for a listing. Its properties are stated by ListingRequestInjective, ListingRequestShape and EmptyKeyInRequest. |
| PlayersUrls.StartIsFirstListing | fifa_crawler/fifa_crawler/spiders/collect_players_urls.py:22-24 | The start URL is the listing at offset 0. |
| PlayersUrls.ListingOffset | fifa_crawler/fifa_crawler/spiders/collect_players_urls.py:38 | The offset reads back from the listing URL. |
| PlayersUrls.ListingUrlInjective | fifa_crawler/fifa_crawler/spiders/collect_players_urls.py:38 | Listing URLs for different offsets differ. |
| PlayersUrls.ListingRequestInjective | fifa_crawler/fifa_crawler/spiders/collect_players_urls.py:36-40 | Proxy requests for different offsets differ, so the duplicate filter never drops the follow-up listing. |
| PlayersUrls.ListingRequestShape | fifa_crawler/fifa_crawler/spiders/collect_players_urls.py:5-13 | Each listing request is the endpoint, the empty key, `&`, then `urlencode` of the three parameters. |
| PlayersUrls.EmptyKeyInRequest | fifa_crawler/fifa_crawler/spiders/collect_players_urls.py:4 | With the module's empty key, every request contains `apikey=&`. |
| PlayersUrls.Item | fifa_crawler/fifa_crawler/spiders/collect_players_urls.py:33-35 | An item is a one-key dict whose `player_url` holds the match. |
| PlayersUrls.Items | fifa_crawler/fifa_crawler/spiders/collect_players_urls.py:32-35 | There is one item per match. |
| PlayersUrls.ItemsAt | fifa_crawler/fifa_crawler/spiders/collect_players_urls.py:32-35 | Item `k` is `{'player_url': match k}`. |
| PlayersUrls.ItemsRoundTrip | fifa_crawler/fifa_crawler/spiders/collect_players_urls.py:33-35 | Every item is a one-key dict, and reading `player_url` back from the items gives the matches in order, with repeats. |
| PlayersUrls.PlayerUrlOf | fifa_crawler/fifa_crawler/spiders/collect_players_info.py:30 | `item['player_url']` as the detail spider reads it. ItemsRoundTrip states that it gives back each match from its item. |
| PlayersUrls.ItemsAppend | fifa_crawler/fifa_crawler/spiders/collect_players_urls.py:31-35 | The items of two pages, in sequence, are the items of the two match lists joined. |
| PlayersUrls.UrlSpider.constructor | fifa_crawler/fifa_crawler/spiders/collect_players_urls.py:18-19 | The offset starts at 0. |
| PlayersUrls.UrlSpider.StartRequests | fifa_crawler/fifa_crawler/spiders/collect_players_urls.py:21-27 | `start_requests` makes one request, for the listing at offset 0. |
| PlayersUrls.UrlSpider.Parse | fifa_crawler/fifa_crawler/spiders/collect_players_urls.py:30-40 | Yields one item per match, in order. From offset 0 the offset becomes 60 and the listing at 60 is requested. At 60 it stays and nothing is requested. |
| PlayersUrls.UrlSpider.Run | fifa_crawler/fifa_crawler/spiders/collect_players_urls.py:21-40 | A fresh spider requests exactly the listings at 0 and 60 and yields the items of both pages, in order, ending at offset 60. Started at 60, it requests only the first listing. |

## Left out

- Strings are sequences of Unicode scalar values. An identifier holding a lone surrogate, which `json.load` can
  produce from a `\ud800` escape, is not modelled. On such a string `quote_plus` in `get_zenrows_api_url` raises
  UnicodeEncodeError.
- CSS selection and the `/player/(\w*)/` regular expression are not modelled. A page is given as the lists of
  strings its selectors return (`PlayerRecord.Page`), and a listing page as its list of matches.
- Nested `div.col` blocks are given as flat columns. How `.css("div.col")` orders or duplicates nested matches is not
  captured.
- The `parse` library's template match is a parameter (`template`). How the template matches text is not modelled,
  only that it succeeds (with six fields) or fails.
- The network and the proxy service are left out. A page is the value of a `fetch` function (keyed by the proxy URL)
  or a `pages` function (keyed by the target page). Retries, HTTP errors and concurrency are not modelled.
- scrapy's duplicate filter fingerprints canonicalised URLs. The model compares exact URLs (detail spider) or the
  requested page (listing spider). `SameUrlSameRequest` shows that the two are the same for proxy requests.
- Reading `./dataset/players_urls.json` and decoding its JSON are left out. The constructor receives the list of
  identifiers, or None when opening fails. The `print` on failure is left out.
- After a failed open the source leaves `players` and `player_count` unset, so `start_requests` raises. The model
  sets the cursor to 0 with `loaded` false, and `StartRequests` returns `NotLoaded`.
- A JSON entry that is not an object, or lacks `player_url`, is not modelled: identifiers are given as strings.
- Writing items and records to JSON files (the feed export) is left out. `Run` returns them as sequences.
- PlayersUrls.UrlSpider.Parse: requires the offset to be 0 or 60 (`Valid`). Those are the only values it can hold,
  because the constructor sets 0 and `Parse` only moves it from 0 to 60.
- Exceptions are modelled as `Failure` results, and the crawl chain stops at them. scrapy's logging of callback
  errors is not modelled.

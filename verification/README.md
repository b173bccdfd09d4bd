# E-commerce data platform: scraper and product API, modelled in Dafny

This project models the core of a small price-tracking platform for three
Vietnamese marketplaces (Shopee, Tiki, Lazada) and proves properties of the model.

- **Scraper** (`tiki.py`):
  - `parse_url` classifies a product URL by three regular expressions and
    extracts the item and shop ids.
  - `fetch_tiki`, `scrape_shopee_product` and `scrape_lazada_product` turn an
    HTTP response into a stamped document or an error envelope.
  - `save_data` writes the document to `<base>/<platform>/<item>_<date>.json`.
- **API, first version** (`backend.py`): `serialize_document` merges the
  marketplace response (`responseBody`) into the root, and the root's keys
  win. The product handler coerces all-digit ids to integers before the
  lookup.
- **API, second version** (`backendv2.py`):
  - the per-platform serializers and product-detail (PDP) flatteners,
    where the nested keys win;
  - the product-id accessor;
  - the three price-history aggregation pipelines and the statistics block
    computed over their result;
  - the Lazada review aggregation, the Shopee/Tiki review lookup, and the
    shallow ObjectId rendering applied to what they return.

Modules, one per concern:

| module | file | concern |
|---|---|---|
| `Common` | common.dfy | `Option`, `Platform`, the Python exceptions that matter (`Exc`), `Result` |
| `Text` | text.dfy | ASCII digits, literal occurrence, decimal numerals (`int(s)`, `str(n)`) |
| `Json` | json.dfy | JSON/BSON values with ordered objects, dict operations, deep and shallow ObjectId stringification |
| `Urls` | urls.dfy | the regular expressions of `parse_url`: declarative match predicates, scanners, agreement lemmas |
| `Fetch` | fetch.dfy | scraper response handling and the save path |
| `Store` | store.dfy | id coercion, dotted field paths, `.get` chains, `find_one` |
| `Normalize` | normalize.dfy | the document serializers and PDP flatteners of both API versions |
| `History` | history.dfy | price-history pipelines (`$match`, `$unwind`, `$project`, `$sort`, `$group`) and statistics |
| `Reviews` | reviews.dfy | review aggregation and lookup, `serialize_mongo_document` |

Each regular expression is modelled twice:

- as a declarative predicate that says which string indices a match splits
  the input at;
- as a left-to-right scanner.

A lemma proves that the two agree. Python `re` conventions are modelled:

- `.` does not match a newline;
- `$` also matches before a final newline;
- `re.search` and `re.findall` take the leftmost match;
- greedy quantifiers prefer the longest alternative.

Environment inputs are parameters:

- the network, as a response value;
- the JSON decoder: `decode: string -> Result<Json>`;
- the clock: a timestamp string and a date string;
- the saved-file directory: a map from path to document;
- Python's `str` on floats, lists and dicts: `reprOf`;
- `$toDate`/`$dateToString`: `dayOf`.

MongoDB collections are sequences of documents in natural order.

Where the code and its documentation disagree, the model follows the code:

- In the second API the Lazada serializer runs `serialized.update(response_body)`,
  so the nested keys win, although the function is described as root-preserving.
  `Normalize.SerializeV2Lazada` states the behaviour the code has.
- The Shopee PDP returns the raw `price`, not divided by 100000. Only the
  price-history pipeline divides.
- The Shopee and Tiki review lookups query the id as a string, with no
  integer coercion.

## Model

| member | source | states |
|---|---|---|
| Urls.SearchParamSpec | tiki.py:39-43 | `re.search(r'name(\d+)')` finds nothing exactly when the name is never followed by a digit; otherwise its group is the digit run after the leftmost such occurrence, and that run is maximal |
| Urls.ShopeeApiScanSpec | tiki.py:37 | the Shopee API scanner accepts exactly the URLs the anchored pattern `^https://shopee\.vn/api/v4/pdp/hot_sales/get.*item_id=\d+.*shop_id=\d+` matches |
| Urls.TikiPageScanSpec | tiki.py:50 | the Tiki scanner accepts exactly the URLs `^https://tiki.vn/.*\d+.html.*spid=\d+$` matches, with the unescaped dots and Python's `$` |
| Urls.TikiHeadDotEatsDigit | tiki.py:52 | the unescaped `.` of `p(\d+).html` lets `p123html` match with item `12`, the dot taking the last digit, and with no other digit count |
| Urls.HeadCutSpec | tiki.py:52 | the head `p(\d+).` of the Tiki extraction pattern matches at a position with a given digit count exactly when the head scanner returns that count |
| Urls.TikiMatchAtSpec | tiki.py:52-57 | from a fixed start the greedy match of `p(\d+).html.*spid=(\d+)` is found when one exists: greedy item digits, then the last reachable `spid=` and the longest digit run |
| Urls.TikiIdsSpec | tiki.py:52-57 | `re.findall(...)[0]` is empty exactly when no match exists; otherwise it is the groups of the leftmost match |
| Urls.LazadaIdsSpec | tiki.py:62-68 | `re.search(r'-i(\d+)-s(\d+)\.html')` is empty exactly when no `-i<digits>-s<digits>.html` occurs; otherwise it gives the two groups of the leftmost occurrence |
| Urls.LazadaPageScanSpec | tiki.py:59 | the Lazada scanner accepts exactly the URLs `^https://www\.lazada\.vn/products/.*-i\d+-s\d+\.html` matches |
| Urls.ParseUrl | tiki.py:28-74 | every id `parse_url` returns is a non-empty string of digits |
| Urls.RulesExclusive | tiki.py:37-71 | no URL matches two of the three platform patterns, so the order of the `if`/`elif` chain decides nothing |
| Urls.ParseShopee | tiki.py:37-46 | a URL that matches the Shopee pattern always has both `item_id=` and `shop_id=` ids; the parse returns them with platform Shopee |
| Urls.ParseTiki | tiki.py:50-57 | a URL that matches the Tiki pattern parses to the first `findall` match with platform Tiki, or to nothing when the extraction finds no match |
| Urls.ParseLazada | tiki.py:59-68 | a URL that matches the Lazada pattern always yields both ids through the extraction `re.search`; the parse returns them with platform Lazada |
| Urls.ParseOther | tiki.py:69-71 | a URL that matches none of the patterns parses to nothing |
| Urls.ParseSound | tiki.py:28-74 | a parse that reports a platform implies the URL matches that platform's pattern |
| Urls.TikiPageIds | tiki.py:50-57 | for a matching Tiki URL, extraction fails exactly when no `p<digits>.` head occurs; otherwise the shop id is the `spid=` digits ending the URL and the item id follows the leftmost head |
| Urls.TikiPageWithoutHead | tiki.py:50-57 | a URL the Tiki classification accepts but that holds no `p<digits>.html` head parses to nothing |
| Urls.TikiPageNeedsNoHead | tiki.py:50-57 | the classification pattern accepts a Tiki URL without a `p<digits>` segment, which the extraction then rejects |
| Fetch.SaveData | tiki.py:185-196 | after the save the file at the document's path holds the document, and every other path is unchanged |
| Fetch.SavePathInjective | tiki.py:185-196 | for dates of the same length, two saves write the same file exactly when platform, item id and date are equal |
| Fetch.SaveSameDayOverwrites | tiki.py:185-196 | a second save of an item on the same day replaces the first; on another day both files remain |
| Fetch.FetchTiki | tiki.py:77-93 | a non-200 status gives nothing; a decode failure propagates; on 200 the result is ok exactly when the body is a dict, and then it is that dict with `scraped_timestamp` set and every other key unchanged |
| Fetch.ShopeeItemId | tiki.py:114 | `body['data']['item']['item_id']` succeeds exactly when each step is a dict holding the key, and returns the value there; it otherwise raises KeyError or TypeError |
| Fetch.ScrapeShopee | tiki.py:96-125 | a non-200 status gives the error envelope and saves nothing; on 200 the result has the decoded `responseBody` and the timestamp, no other key changes, and the result is saved under the item id; each missing or ill-typed step raises |
| Fetch.ScrapeLazada | tiki.py:128-182 | a non-200 status gives the error envelope; a decode failure of the body or of a string `responseBody` becomes a `JSON_PARSE_ERROR` envelope with nothing saved; otherwise the document is stamped and saved exactly when the URL yields an item id |
| Fetch.CaughtDecodeError | tiki.py:148-175 | only `JSONDecodeError` is caught, becoming an envelope with the decoder's message; any other exception propagates |
| Fetch.LazadaFinish | tiki.py:155-167 | the stamped document keeps every other key; it is saved under the URL's item id when `-i<d>-s<d>.html` occurs and not saved otherwise |
| Json.GetUpdate | backendv2.py:49 | after `d.update(e)` a key holds `e`'s value if `e` has it, else `d`'s |
| Json.GetAddMissing | backend.py:46-50 | after the root-preserving merge a key holds the root's value if the root has it, else the nested one's |
| Json.StringifyRemovesOids | backend.py:28-32 | the `json.dumps` round trip with the ObjectId encoder leaves no ObjectId at any depth |
| Json.StringifyIdempotent | backend.py:42 | serializing an already serialized document changes nothing |
| Json.ShallowThenDeep | backendv2.py:465-492 | the shallow ObjectId rendering followed by the full one equals the full one |
| Json.ShallowMissesDepthTwo | backendv2.py:465-492 | an ObjectId inside a list inside a list survives the shallow rendering but not the full one |
| Json.PyGet | backendv2.py:96-101 | `.get(k, default)` succeeds exactly on a dict and returns the stored value or the default; on anything else it raises AttributeError |
| Json.Subscript | backendv2.py:63-65 | `d[k]` succeeds exactly when `d` is a dict with key `k`; it otherwise raises KeyError on a dict and TypeError on anything else |
| Store.CoerceId | backend.py:68 | an id becomes an integer exactly when it is a non-empty digit string, with its decimal value; otherwise it stays the same string |
| Store.CoerceSame | backendv2.py:159 | two ids coerce to the same query value exactly when they are the same string or are numerals of the same number |
| Store.CoerceShowNat | backendv2.py:159 | the coerced form of `str(n)` is `n`, so an id from a listing finds its product |
| Store.CoerceCanonical | backendv2.py:159 | on numerals without a leading zero, `str(int(s)) == s` |
| Store.CoerceLeadingZeros | backend.py:68 | `"007"` and `"7"` coerce to the same integer 7 |
| Store.GetChainReadsPath | backendv2.py:96-101 | a `.get(..., {})` chain returns the value at the dotted path, or `None` when a key is missing (a dict without the first key included); it raises exactly when some step meets a value that is not a dict, and then only AttributeError |
| Store.FindOne | backendv2.py:163-174 | `find_one` returns the first document in natural order whose path value equals the query, and nothing exactly when no document matches |
| Normalize.SerializeV1 | backend.py:34-52 | no document gives nothing |
| Normalize.SerializeV1Spec | backend.py:34-52 | without `responseBody` the result is the serialized document; with a dict body each key holds the root's value if present, else the body's, all serialized; a non-dict body raises AttributeError |
| Normalize.PyContains | backendv2.py:51 | `key in x` is dict membership, substring search on a string, and element equality on a list; on anything else it raises TypeError |
| Normalize.SerializeV2 | backendv2.py:37-54 | no document gives nothing; platforms other than lazada and shopee get the plain serialized document |
| Normalize.SerializeV2Lazada | backendv2.py:44-49 | for lazada, a present dict `responseBody` is merged with the nested keys winning; a non-dict body raises TypeError |
| Normalize.SerializeV2Shopee | backendv2.py:50-52 | for shopee, no `responseBody` leaves the rendering unchanged, and so does a false `'data' in responseBody` (dict key, substring or list element); a dict `data` inside a dict body has its keys written over the root; a non-dict `data`, or a true `in` test on a non-dict body, raises TypeError, as does the `in` test on a body of any other kind |
| Normalize.LazadaPdp | backendv2.py:56-67 | no product, or no `responseBody`, gives nothing |
| Normalize.LazadaPdpNonDict | backendv2.py:63-64 | a `responseBody` that is not a dict raises TypeError when unpacked |
| Normalize.LazadaPdpSpec | backendv2.py:56-67 | a missing `_id` after the merge raises KeyError; otherwise `_id` is stringified, `responseBody` is gone, and every other key holds the nested-wins merged value |
| Normalize.TikiPdp | backendv2.py:69-77 | an empty product gives nothing; a missing `_id` raises KeyError; otherwise `_id` becomes its string form and every other key is kept |
| Normalize.ShopeePdp | backendv2.py:79-90 | no product, or no `responseBody`, gives nothing |
| Normalize.ShopeePdpErrors | backendv2.py:85-90 | `.get` on a non-dict body or `data` raises AttributeError; once the chain succeeds, a missing `_id` raises KeyError and a non-dict item raises TypeError |
| Normalize.ShopeePdpSpec | backendv2.py:79-90 | every key of `data.item` wins over the root; the root `_id` is stringified unless the item has one; `responseBody` is gone; the other root keys are kept |
| Normalize.GetPlatformProductId | backendv2.py:92-102 | an unrecognised platform gives `None` |
| Normalize.GetPlatformProductIdSpec | backendv2.py:92-102 | for each platform the accessor returns the value at that platform's id path, or `None` when it is missing, in particular for a Lazada or Shopee capture without `responseBody`; it raises exactly when a step meets a non-dict, only AttributeError, and never for Tiki |
| Normalize.ProductDetails | backendv2.py:159-175 | when no capture matches the coerced id there is no product |
| Normalize.ProductDetailsFound | backendv2.py:159-175 | when a capture with an `_id` matches the coerced id, the handler returns a view |
| Normalize.ProductDetailsCarriesId | backendv2.py:159-175 | a product found by id carries, under the platform's output id key, exactly the coerced id it was queried by |
| Normalize.ProductDetailsV1 | backend.py:68-78 | when no Lazada capture matches the coerced id there is no product |
| History.StrLeTotal | backendv2.py:225-229 | the string order `$sort` uses on day strings is total |
| History.StrLeTrans | backendv2.py:225-229 | the string order is transitive |
| History.StrLeAntisym | backendv2.py:225-229 | the string order is antisymmetric |
| History.SortByDaySpec | backendv2.py:225-229 | the `$sort` by day yields a day-ordered permutation of its input, and the rows of each group key keep their relative order (a stable sort) |
| History.GroupFirstKey | backendv2.py:230-239 | `$group` with `$first` emits, for each key, exactly the first row with that key |
| History.GroupFirstSorted | backendv2.py:225-239 | grouping a day-sorted sequence keeps it day-sorted |
| History.RegroupIsGroupFirst | backendv2.py:299-327 | Lazada's two-stage group (`$push`, `$unwind`, then `$first`) equals a single `$first` group when no row carries a stock quantity |
| History.LazadaNoSkusNoRows | backendv2.py:265-267 | a Lazada capture whose `skus` is missing, null or an empty list contributes no row, so no history point |
| History.LazadaRowsNoStock | backendv2.py:268-293 | no Lazada history row carries a stock quantity |
| History.UnwindValues | backendv2.py:265-267 | `$unwind` drops a missing, null or empty field, yields one document per element of an array, and yields one document for any other value |
| History.DivideBy100000 | backendv2.py:204-206 | `$divide` by 100000 of a number is its quotient; null or missing stays null; any other value is an aggregation error |
| History.MatchIdAppend | backendv2.py:193-198 | `$match` is an order-preserving filter: matching a concatenation is the concatenation of the matches |
| History.MatchIdSingleton | backendv2.py:193-198 | a single capture is kept exactly when its id path holds the query value |
| History.MatchId | backendv2.py:193-198 | `$match` keeps exactly the captures whose id path holds the query value |
| History.ShopeeRow | backendv2.py:199-224 | a Shopee row carries the item id, the title and the price divided by 100000; it fails exactly when the division fails |
| History.Rows | backendv2.py:187-411 | only the Shopee projection can fail, and only with an aggregation error |
| History.RowsCarryId | backendv2.py:187-411 | every projected row's item id is read from some matched capture's id path |
| History.PriceHistory | backendv2.py:187-411 | a failing pipeline is the Shopee one, failing with an aggregation error |
| History.PriceHistorySpec | backendv2.py:187-411 | the history is day-sorted, every point has the coerced item id, and for each (item, day) key it holds exactly the first projected row of that key |
| History.LazadaPointIsFirstSku | backendv2.py:253-340 | a Lazada day's point is the first SKU of the first capture of that day |
| History.PyLess | backendv2.py:445-446 | Python `<` compares numbers by value and strings by code points; with `None` it raises TypeError, and it raises nothing else |
| History.PyMinSpec | backendv2.py:445 | on numbers `min` succeeds, returns the first occurrence of the least value, and is at most every element |
| History.PyMaxSpec | backendv2.py:446 | on numbers `max` succeeds, returns the first occurrence of the greatest value, and is at least every element |
| History.PyMinNone | backendv2.py:445 | `min` over two or more values, one of them `None`, raises TypeError |
| History.PyMaxNone | backendv2.py:446 | `max` over two or more values, one of them `None`, raises TypeError |
| History.Statistics | backendv2.py:430-455 | the not-found result occurs exactly when the history is empty |
| History.StatisticsSpec | backendv2.py:437-455 | with numeric prices, lowest and highest are prices of the history with lowest ≤ every price ≤ highest, the latest price lies between them, the dates come from the first and last points, the total is the length, and only Tiki reports the last stock |
| History.StatisticsMissingPrice | backendv2.py:445-446 | a history of two or more points with a missing sale price fails with TypeError |
| Reviews.CountIsLength | backendv2.py:519-530 | the `$sum: 1` count of a group equals the number of reviews `$push`ed into it |
| Reviews.FindGroupSpec | backendv2.py:518-536 | the group for an id exists exactly when some row has that id; it holds that id's reviews in order, counts them, and takes the first row's rating summary |
| Reviews.AllOrNothing | backendv2.py:515-522 | a capture's unwound reviews all belong to its own item id |
| Reviews.LazadaReviewsSpec | backendv2.py:508-545 | the Lazada review lookup finds nothing exactly when no capture of the coerced id has reviews; otherwise it returns all their reviews in capture order, with the matching count |
| Reviews.ShopeeTikiReviews | backendv2.py:494-506 | the lookup returns the first review document whose `id` is the given string, and nothing exactly when there is none |
| Reviews.SerializeMongoDocument | backendv2.py:465-492 | no document stays none; otherwise the keys and their order are kept |
| Reviews.SerializeMongoSpec | backendv2.py:465-492 | each value is shallowly rendered, and the full ObjectId rendering of the result equals that of the input |

## Left out

- HTTP: requests, headers, tokens, status codes raised by the handlers, and the
  400/404/500 mapping. Every `HTTPException(404)` raised inside a handler's `try`
  is caught by `except Exception` and re-raised as 500; the model stops at the
  handler's data.
- The scraper's `main` and `read_urls` (YAML reading, the delay loop). `main`
  also refers to an `item_id` that it never defines (tiki.py:233).
- The listing endpoints `/products/all` and `/products/{platform}`: these are
  `distinct` queries with no logic of their own.
- Platform validation in the handlers: the model takes a `Platform` value.
- Logging.
- Unicode digits: `\d` and `str.isdigit` accept non-ASCII digits in Python 3.
  The model uses ASCII digits only.
- JSON text: `json.loads`, `response.json()` and `json.dump` are the `decode`
  parameter or left out. The indentation and `ensure_ascii` of the saved file
  are not modelled.
- Floats are real numbers; rounding of `/ 100000` is not modelled.
- `str()` of floats, lists and dicts is the `reprOf` parameter.
- `os.path.join` and `os.makedirs`: the path is the concatenation with `\`
  separators; directory creation and I/O failures are not modelled.
- Fetch.SavePathInjective: stated for dates of equal length, because `save_data`
  always uses `date.isoformat()`; for item ids that contain `_` and dates of
  different lengths two saves can share a path.
- The `$toDate`/`$dateToString` conversion of timestamps is the `dayOf`
  parameter. A timestamp that `$toDate` cannot convert is not modelled as an
  error.
- MongoDB query details: numeric cross-type equality (`7 == 7.0`), matching
  through arrays on a dotted path, and BSON type ordering beyond null before
  strings.
- History.SortByDaySpec: `$sort` is modelled as stable. Each `$group` emits its
  groups in first-appearance order. MongoDB guarantees neither, but the
  statistics read `history[0]` and `history[-1]` as the first and last days.
- History.PyLess: lists, dicts and ObjectIds are not compared. Python would
  order two lists and two ObjectIds and raise for dicts; the model raises
  TypeError for all of them.
- dict.update and `{**d, **e}` on anything but two dicts (a list of pairs, a
  string) are modelled as TypeError.
- Normalize.ProductDetailsV1: states only the not-found case. The found case is
  the v1 serializer, whose contract is Normalize.SerializeV1Spec.
- Normalize.SerializeV1, Normalize.LazadaPdp, Normalize.ShopeePdp and
  Normalize.GetPlatformProductId state only the empty cases in their own
  contracts. The other cases are stated by separate lemmas:
  - SerializeV1Spec;
  - LazadaPdpSpec and LazadaPdpNonDict;
  - ShopeePdpSpec and ShopeePdpErrors;
  - GetPlatformProductIdSpec.
- Reviews: the `$sort` by `total_reviews` after the `$match` is left out: at
  most one group survives the match, so it has no effect.
- The Tiki product API request URL in `fetch_tiki` is a network detail and is
  left out.

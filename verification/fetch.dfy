/** What tiki.py does with a scraper's HTTP response, and where `save_data`
    puts the result.

    The network is not modelled: the response (status and body text), the
    JSON decoder (`response.json()` / `json.loads`), the clock readings and
    the directory of saved files are inputs; the saved files are a map from
    path to document, which `save_data` overwrites at one key. */
module Fetch {
  import opened Common
  import opened Text
  import opened Json
  import opened Urls

  datatype Response = Response(status: int, text: string)

  /** `json.loads`: the decoded document, or `Raised(DecodeError(msg))`. */
  type Decoder = string -> Result<Json>

  /** Saved files, by path. */
  type Files = map<string, Json>

  /** What a scraper returns, and the saved files after it ran. */
  datatype Scraped = Scraped(result: Json, files: Files)

  const TimestampKey := "scraped_timestamp"

  // -------------------------------------------------------------- save_data

  const BaseDir := "D:\\FIA1471\\data"

  /** `os.path.join(os.path.join(BASE_DIR, platform), f"{item}_{date}.json")`
      with the Windows separator. */
  function SavePath(p: Platform, item: string, date: string): string
  {
    PlatformDir(p) + (item + FileSuffix(date))
  }

  function PlatformDir(p: Platform): string
  {
    BaseDir + "\\" + p.Name() + "\\"
  }

  function FileSuffix(date: string): string
  {
    "_" + date + ".json"
  }

  /** `save_data(data, platform, item)` on the day `date`. */
  function SaveData(files: Files, data: Json, p: Platform, item: string, date: string): (r: Files)
    ensures SavePath(p, item, date) in r && r[SavePath(p, item, date)] == data
    ensures forall path :: path != SavePath(p, item, date) ==> (path in r <==> path in files)
    ensures forall path :: path != SavePath(p, item, date) && path in files ==> r[path] == files[path]
  {
    files[SavePath(p, item, date) := data]
  }

  lemma SplitConcat(a: string, b: string, c: string, d: string)
    requires a + b == c + d && |a| == |c|
    ensures a == c && b == d
  {
    assert a == (a + b)[..|a|] && c == (c + d)[..|c|];
    assert b == (a + b)[|a|..] && d == (c + d)[|c|..];
  }

  /** Dates have one width (`YYYY-MM-DD`), so a path names exactly one
      platform, item and day: different products or days never share a file. */
  lemma SavePathInjective(p1: Platform, i1: string, d1: string, p2: Platform, i2: string, d2: string)
    requires |d1| == |d2|
    ensures SavePath(p1, i1, d1) == SavePath(p2, i2, d2) <==> p1 == p2 && i1 == i2 && d1 == d2
  {
    if SavePath(p1, i1, d1) == SavePath(p2, i2, d2) {
      var x := |BaseDir| + 1;
      assert SavePath(p1, i1, d1)[x] == PlatformDir(p1)[x] == p1.Name()[0];
      assert SavePath(p2, i2, d2)[x] == PlatformDir(p2)[x] == p2.Name()[0];
      assert p1 == p2;
      SplitConcat(PlatformDir(p1), i1 + FileSuffix(d1), PlatformDir(p2), i2 + FileSuffix(d2));
      SplitConcat(i1, FileSuffix(d1), i2, FileSuffix(d2));
      assert d1 == FileSuffix(d1)[1..|d1| + 1];
      assert d2 == FileSuffix(d2)[1..|d2| + 1];
    }
  }

  /** Saving the same product twice on one day keeps only the later
      document; on different days both are kept. */
  lemma SaveSameDayOverwrites(files: Files, a: Json, b: Json, p: Platform, item: string, d1: string, d2: string)
    requires |d1| == |d2|
    ensures var f := SaveData(SaveData(files, a, p, item, d1), b, p, item, d2);
            d1 == d2 ==> f == SaveData(files, b, p, item, d2)
    ensures var f := SaveData(SaveData(files, a, p, item, d1), b, p, item, d2);
            d1 != d2 ==> f[SavePath(p, item, d1)] == a && f[SavePath(p, item, d2)] == b
  {
    SavePathInjective(p, item, d1, p, item, d2);
  }

  // ----------------------------------------------------------------- envelopes

  /** The dict a scraper returns instead of data. */
  function Envelope(error: Json, message: string, stamp: string): Json
  {
    JObj([Field("error", error), Field("message", JStr(message)), Field(TimestampKey, JStr(stamp))])
  }

  // -------------------------------------------------------------- fetch_tiki

  /** `fetch_tiki`: on status 200 the decoded body with `scraped_timestamp`
      set; otherwise nothing. A body that does not decode, or decodes to
      something other than a dict, raises. */
  function FetchTiki(resp: Response, decode: Decoder, stamp: string): (r: Result<Option<Json>>)
    ensures resp.status != 200 ==> r == Ok(None)
    ensures resp.status == 200 && decode(resp.text).Raised? ==> r == Raised(decode(resp.text).exc)
    ensures resp.status == 200 && decode(resp.text).Ok? ==>
      var data := decode(resp.text).value;
      && (r.Ok? <==> data.JObj?)
      && (r.Raised? ==> r.exc.TypeError?)
      && (r.Ok? ==> r.value.Some? && Stamped(data, r.value.value, stamp))
  {
    if resp.status == 200 then
      var data :- decode(resp.text);
      var stamped :- SetKey(data, TimestampKey, JStr(stamp));
      Ok(Some(stamped))
    else Ok(None)
  }

  /** `out` is the dict `data` with `scraped_timestamp` set to `stamp` and
      every other key unchanged. */
  ghost predicate Stamped(data: Json, out: Json, stamp: string)
  {
    && data.JObj? && out.JObj?
    && Get(out.fields, TimestampKey) == Some(JStr(stamp))
    && forall k :: k != TimestampKey ==> Get(out.fields, k) == Get(data.fields, k)
  }

  // --------------------------------------------------- scrape_shopee_product

  /** `body['data']['item']['item_id']`. */
  function ShopeeItemId(body: Json): (r: Result<Json>)
    ensures r.Ok? <==>
      && body.JObj? && HasKey(body.fields, "data")
      && var d := Get(body.fields, "data").value;
      && d.JObj? && HasKey(d.fields, "item")
      && var it := Get(d.fields, "item").value;
      && it.JObj? && HasKey(it.fields, "item_id")
    ensures r.Ok? ==> Get(Get(Get(body.fields, "data").value.fields, "item").value.fields, "item_id") == Some(r.value)
    ensures r.Raised? ==> r.exc.KeyError? || r.exc.TypeError?
  {
    var d :- Subscript(body, "data");
    var it :- Subscript(d, "item");
    Subscript(it, "item_id")
  }

  /** `scrape_shopee_product`. On status 200: decode the body, replace its
      `responseBody` string by the document it encodes, stamp it, and save
      it under `responseBody.data.item.item_id`; any failure on the way
      raises. Otherwise return an error envelope and save nothing. */
  function ScrapeShopee(resp: Response, decode: Decoder, stamp: string, date: string,
                        reprOf: Json -> string, files: Files): (r: Result<Scraped>)
    ensures resp.status != 200 ==> r == Ok(Scraped(Envelope(JInt(resp.status), resp.text, stamp), files))
    ensures resp.status == 200 && decode(resp.text).Raised? ==> r == Raised(decode(resp.text).exc)
    ensures resp.status == 200 && decode(resp.text).Ok? ==>
      ShopeeOutcome(decode(resp.text).value, decode, stamp, date, reprOf, files, r)
  {
    if resp.status == 200 then
      var result :- decode(resp.text);
      var raw :- Subscript(result, BodyKey);
      var body :- if raw.JStr? then decode(raw.s) else Raised(TypeError("json.loads of a non-string"));
      var stamped := JObj(Put(Put(result.fields, BodyKey, body), TimestampKey, JStr(stamp)));
      var itemId :- ShopeeItemId(body);
      Ok(Scraped(stamped, SaveData(files, stamped, Shopee, Str(itemId, reprOf), date)))
    else
      Ok(Scraped(Envelope(JInt(resp.status), resp.text, stamp), files))
  }

  /** What a Shopee scrape makes of the decoded response `result`. It fails
      when `result` is not a dict (TypeError), has no `responseBody`
      (KeyError), holds a non-string there (TypeError), when that string
      does not decode, or when the inner document has no item id. Else it
      returns `result` with the inner document in place of the string and
      the timestamp set, nothing else changed, and saves exactly that under
      the item id. */
  ghost predicate ShopeeOutcome(result: Json, decode: Decoder, stamp: string, date: string,
                                reprOf: Json -> string, files: Files, r: Result<Scraped>)
  {
    if !result.JObj? then r.Raised? && r.exc.TypeError?
    else if !HasKey(result.fields, BodyKey) then r == Raised(KeyError(BodyKey))
    else
      var raw := Get(result.fields, BodyKey).value;
      if !raw.JStr? then r.Raised? && r.exc.TypeError?
      else if decode(raw.s).Raised? then r == Raised(decode(raw.s).exc)
      else
        var body := decode(raw.s).value;
        && (r.Ok? <==> ShopeeItemId(body).Ok?)
        && (r.Raised? ==> r == Raised(ShopeeItemId(body).exc))
        && (r.Ok? ==>
              && r.value.result.JObj?
              && Get(r.value.result.fields, BodyKey) == Some(body)
              && Get(r.value.result.fields, TimestampKey) == Some(JStr(stamp))
              && (forall k :: k != BodyKey && k != TimestampKey ==> Get(r.value.result.fields, k) == Get(result.fields, k))
              && r.value.files == SaveData(files, r.value.result, Shopee, Str(ShopeeItemId(body).value, reprOf), date))
  }

  // --------------------------------------------------- scrape_lazada_product

  /** `scrape_lazada_product`. On status 200: decode the body (a decoding
      failure becomes a `JSON_PARSE_ERROR` envelope), decode a string
      `responseBody` in place (same), stamp it, and save it when the URL
      carries `-i<item>-s<shop>.html`. A decoded body that is not a dict
      raises (`.get` on it). Otherwise return an error envelope. */
  function ScrapeLazada(url: string, resp: Response, decode: Decoder, stamp: string, date: string,
                        files: Files): (r: Result<Scraped>)
    ensures resp.status != 200 ==> r == Ok(Scraped(Envelope(JInt(resp.status), resp.text, stamp), files))
    ensures resp.status == 200 && decode(resp.text).Raised? ==>
      r == CaughtDecodeError(decode(resp.text).exc, stamp, files)
    ensures resp.status == 200 && decode(resp.text).Ok? ==>
      LazadaOutcome(url, decode(resp.text).value, decode, stamp, date, files, r)
  {
    if resp.status != 200 then
      Ok(Scraped(Envelope(JInt(resp.status), resp.text, stamp), files))
    else
      match decode(resp.text)
      case Raised(e) => CaughtDecodeError(e, stamp, files)
      case Ok(result) =>
        match result
        case JObj(fs) =>
          (match Get(fs, BodyKey)
           case Some(JStr(s)) =>
             (match decode(s)
              case Raised(e) => CaughtDecodeError(e, stamp, files)
              case Ok(body) => Ok(LazadaFinish(url, Put(fs, BodyKey, body), stamp, date, files)))
           case _ => Ok(LazadaFinish(url, fs, stamp, date, files)))
        case _ => Raised(AttributeError("'.get' on a non-dict"))
  }

  /** `except json.JSONDecodeError`: a decoding failure becomes an envelope
      carrying the decoder's message, with nothing saved; any other
      exception propagates. */
  function CaughtDecodeError(e: Exc, stamp: string, files: Files): (r: Result<Scraped>)
    ensures e.DecodeError? ==>
      r.Ok? && r.value.files == files && r.value.result == Envelope(JStr("JSON_PARSE_ERROR"), e.msg, stamp)
    ensures !e.DecodeError? ==> r == Raised(e)
  {
    match e
    case DecodeError(msg) => Ok(Scraped(Envelope(JStr("JSON_PARSE_ERROR"), msg, stamp), files))
    case _ => Raised(e)
  }

  /** Stamp the decoded dict and save it under the URL's item id, if any. */
  function LazadaFinish(url: string, fs: seq<Field>, stamp: string, date: string, files: Files): (r: Scraped)
    ensures r.result.JObj? && Get(r.result.fields, TimestampKey) == Some(JStr(stamp))
    ensures forall k :: k != TimestampKey ==> Get(r.result.fields, k) == Get(fs, k)
    ensures LazadaIds(url).None? ==> r.files == files
    ensures LazadaIds(url).Some? ==> r.files == SaveData(files, r.result, Lazada, LazadaIds(url).value.item, date)
  {
    var out := JObj(Put(fs, TimestampKey, JStr(stamp)));
    match LazadaIds(url)
    case Some(ids) => Scraped(out, SaveData(files, out, Lazada, ids.item, date))
    case None => Scraped(out, files)
  }

  /** What a Lazada scrape makes of the decoded response `result`: a
      non-dict raises AttributeError; a string `responseBody` that does not
      decode is caught as above; otherwise the result is `result` with a
      string `responseBody` replaced by its decoding and the timestamp set,
      and it is saved exactly when the URL yields an item id. */
  ghost predicate LazadaOutcome(url: string, result: Json, decode: Decoder, stamp: string, date: string,
                                files: Files, r: Result<Scraped>)
  {
    if !result.JObj? then r.Raised? && r.exc.AttributeError?
    else
      var raw := Get(result.fields, BodyKey);
      var nested := raw.Some? && raw.value.JStr?;
      if nested && decode(raw.value.s).Raised? then r == CaughtDecodeError(decode(raw.value.s).exc, stamp, files)
      else
        && r.Ok? && r.value.result.JObj?
        && Get(r.value.result.fields, TimestampKey) == Some(JStr(stamp))
        && Get(r.value.result.fields, BodyKey) == (if nested then Some(decode(raw.value.s).value) else raw)
        && (forall k :: k != BodyKey && k != TimestampKey ==> Get(r.value.result.fields, k) == Get(result.fields, k))
        && r.value.files == match LazadaIds(url)
                            case Some(ids) => SaveData(files, r.value.result, Lazada, ids.item, date)
                            case None => files
  }
}

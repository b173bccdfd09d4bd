/** The document normalisers of the two API versions: how a stored capture
    (root fields plus the marketplace's own response under `responseBody`)
    is flattened for the client, and which value wins when the root and the
    nested response share a key.

    - backend.py `serialize_document`: root keys win.
    - backendv2.py `serialize_document` (lazada), `get_lazada_pdp`,
      `get_shopee_pdp`: nested keys win (`d.update(e)`, `{**d, **e}`). */
module Normalize {
  import opened Common
  import opened Text
  import opened Json
  import opened Store

  function StringifyOpt(o: Option<Json>): Option<Json>
  {
    match o
    case Some(v) => Some(Stringify(v))
    case None => None
  }

  /** Root-wins lookup: a root key other than `responseBody` keeps its root
      value; any other key takes the body's value, if any. */
  function RootWins(root: Doc, body: Doc, k: string): Option<Json>
  {
    if k != BodyKey && HasKey(root, k) then Get(root, k) else Get(body, k)
  }

  /** Nested-wins lookup over a root whose `responseBody` is dropped. */
  function NestedWins(root: Doc, body: Doc, k: string): Option<Json>
  {
    if HasKey(body, k) then Get(body, k) else if k == BodyKey then None else Get(root, k)
  }

  /** The nested document under `responseBody`, when it is a dict. */
  function BodyOf(root: Doc): Option<Doc>
  {
    match Get(root, BodyKey)
    case Some(JObj(body)) => Some(body)
    case _ => None
  }

  lemma BodyDistinct(root: Doc)
    requires DeepDistinct(JObj(root)) && BodyOf(root).Some?
    ensures Distinct(BodyOf(root).value) && DeepDistinct(JObj(BodyOf(root).value))
  {
    GetDeepDistinct(root, BodyKey);
  }

  // -------------------------------------------- backend.py serialize_document

  /** backend.py `serialize_document`: render ObjectIds as strings at every
      depth, then pop `responseBody` and add each of its keys the root does
      not have. A `responseBody` that is not a dict has no `.items()`. */
  function SerializeV1(doc: Option<Doc>): (r: Result<Option<Json>>)
    ensures doc.None? ==> r == Ok(None)
  {
    match doc
    case None => Ok(None)
    case Some(fs) =>
      var s := StringifyFields(fs);
      match Get(s, BodyKey)
      case None => Ok(Some(JObj(s)))
      case Some(JObj(body)) => Ok(Some(JObj(AddMissing(Remove(s, BodyKey), body))))
      case Some(_) => Raised(AttributeError("'.items' on a non-dict"))
  }

  /** Without `responseBody` the document comes back with only its
      ObjectIds rendered; with a dict there, every key reads the root value
      when the root has it and the nested value otherwise, `responseBody`
      itself being gone unless the body has one of its own. */
  lemma {:induction false} SerializeV1Spec(fs: Doc)
    ensures !HasKey(fs, BodyKey) ==> SerializeV1(Some(fs)) == Ok(Some(Stringify(JObj(fs))))
    ensures HasKey(fs, BodyKey) && BodyOf(fs).None? ==>
      SerializeV1(Some(fs)).Raised? && SerializeV1(Some(fs)).exc.AttributeError?
    ensures BodyOf(fs).Some? ==>
      var r := SerializeV1(Some(fs));
      && r.Ok? && r.value.Some? && r.value.value.JObj?
      && forall k :: Get(r.value.value.fields, k) == StringifyOpt(RootWins(fs, BodyOf(fs).value, k))
  {
    var s := StringifyFields(fs);
    GetStringifyFields(fs, BodyKey);
    if BodyOf(fs).Some? {
      var body := BodyOf(fs).value;
      var sb := StringifyFields(body);
      assert Get(s, BodyKey) == Some(JObj(sb));
      var out := AddMissing(Remove(s, BodyKey), sb);
      forall k ensures Get(out, k) == StringifyOpt(RootWins(fs, body, k)) {
        GetAddMissing(Remove(s, BodyKey), sb, k);
        GetStringifyFields(fs, k);
        GetStringifyFields(body, k);
      }
    }
  }

  // ------------------------------------------ backendv2.py serialize_document

  /** `key in container` for a string key: dict membership, substring, or
      list membership; other values are not containers. */
  function PyContains(container: Json, key: string): (r: Result<bool>)
    ensures container.JObj? ==> r == Ok(HasKey(container.fields, key))
    ensures container.JStr? ==> r.Ok? && (r.value <==> exists j :: LitAt(container.s, j, key))
    ensures container.JArr? ==> r == Ok(JStr(key) in container.items)
    ensures !(container.JObj? || container.JStr? || container.JArr?) ==> r.Raised? && r.exc.TypeError?
  {
    match container
    case JObj(fs) => Ok(HasKey(fs, key))
    case JStr(t) => Ok(OccursFrom(t, key, 0))
    case JArr(xs) => Ok(JStr(key) in xs)
    case _ => Raised(TypeError("argument is not iterable"))
  }

  /** backendv2.py `serialize_document(document, platform)`: render
      ObjectIds as strings; for lazada pop `responseBody` and update the
      root with it; for shopee update the root with `responseBody.data`
      when `'data' in responseBody` (keeping `responseBody`); for any other
      platform nothing more. `dict.update` with a non-dict raises. */
  function SerializeV2(doc: Option<Doc>, platform: string): (r: Result<Option<Json>>)
    ensures doc.None? ==> r == Ok(None)
    ensures doc.Some? && platform != "lazada" && platform != "shopee" ==> r == Ok(Some(Stringify(JObj(doc.value))))
  {
    match doc
    case None => Ok(None)
    case Some(fs) =>
      var s := StringifyFields(fs);
      if platform == "lazada" then
        match Get(s, BodyKey)
        case None => Ok(Some(JObj(s)))
        case Some(JObj(body)) => Ok(Some(JObj(Update(Remove(s, BodyKey), body))))
        case Some(_) => Raised(TypeError("dict.update with a non-dict"))
      else if platform == "shopee" then
        match Get(s, BodyKey)
        case None => Ok(Some(JObj(s)))
        case Some(rb) =>
          var hasData :- PyContains(rb, "data");
          if !hasData then Ok(Some(JObj(s)))
          else
            var data :- Subscript(rb, "data");
            match data
            case JObj(d) => Ok(Some(JObj(Update(s, d))))
            case _ => Raised(TypeError("dict.update with a non-dict"))
      else Ok(Some(JObj(s)))
  }

  /** Lazada flattening lets the nested value win every shared key and
      drops `responseBody` (unless the body has one of its own). */
  lemma SerializeV2Lazada(fs: Doc)
    requires DeepDistinct(JObj(fs))
    ensures !HasKey(fs, BodyKey) ==> SerializeV2(Some(fs), "lazada") == Ok(Some(Stringify(JObj(fs))))
    ensures HasKey(fs, BodyKey) && BodyOf(fs).None? ==>
      SerializeV2(Some(fs), "lazada").Raised? && SerializeV2(Some(fs), "lazada").exc.TypeError?
    ensures BodyOf(fs).Some? ==>
      var r := SerializeV2(Some(fs), "lazada");
      && r.Ok? && r.value.Some? && r.value.value.JObj?
      && forall k :: Get(r.value.value.fields, k) == StringifyOpt(NestedWins(fs, BodyOf(fs).value, k))
  {
    var s := StringifyFields(fs);
    GetStringifyFields(fs, BodyKey);
    if BodyOf(fs).Some? {
      var body := BodyOf(fs).value;
      BodyDistinct(fs);
      var sb := StringifyFields(body);
      DistinctStringifyFields(body);
      var out := Update(Remove(s, BodyKey), sb);
      forall k ensures Get(out, k) == StringifyOpt(NestedWins(fs, body, k)) {
        GetUpdate(Remove(s, BodyKey), sb, k);
        GetStringifyFields(fs, k);
        GetStringifyFields(body, k);
      }
    }
  }

  /** Shopee flattening lifts the keys of `responseBody.data`, whose values
      win; everything else, `responseBody` included, stays. Without a body,
      or when `'data' in responseBody` is false (a dict without the key, a
      string without the substring, a list without the element), the
      rendering is returned unchanged; once the test holds, a `data` that
      is not a dict, or a body that is not one, raises TypeError, as does
      an `in` test on a body of any other kind. */
  lemma SerializeV2Shopee(fs: Doc)
    requires DeepDistinct(JObj(fs))
    ensures !HasKey(fs, BodyKey) ==>
      SerializeV2(Some(fs), "shopee") == Ok(Some(Stringify(JObj(fs))))
    ensures HasKey(fs, BodyKey) && PyContains(Stringify(Get(fs, BodyKey).value), "data") == Ok(false) ==>
      SerializeV2(Some(fs), "shopee") == Ok(Some(Stringify(JObj(fs))))
    ensures BodyOf(fs).Some? && HasKey(BodyOf(fs).value, "data") && Get(BodyOf(fs).value, "data").value.JObj? ==>
      var data := Get(BodyOf(fs).value, "data").value.fields;
      var r := SerializeV2(Some(fs), "shopee");
      && r.Ok? && r.value.Some? && r.value.value.JObj?
      && forall k :: Get(r.value.value.fields, k) == StringifyOpt(if HasKey(data, k) then Get(data, k) else Get(fs, k))
    ensures BodyOf(fs).Some? && HasKey(BodyOf(fs).value, "data") && !Get(BodyOf(fs).value, "data").value.JObj? ==>
      SerializeV2(Some(fs), "shopee").Raised? && SerializeV2(Some(fs), "shopee").exc.TypeError?
    ensures HasKey(fs, BodyKey) && !Get(fs, BodyKey).value.JObj? &&
            PyContains(Stringify(Get(fs, BodyKey).value), "data") != Ok(false) ==>
      SerializeV2(Some(fs), "shopee").Raised? && SerializeV2(Some(fs), "shopee").exc.TypeError?
  {
    GetStringifyFields(fs, BodyKey);
    if HasKey(fs, BodyKey) {
      SerializeV2ShopeeBody(fs);
      if BodyOf(fs).Some? {
        var body := BodyOf(fs).value;
        GetStringifyFields(body, "data");
        if HasKey(body, "data") && Get(body, "data").value.JObj? {
          ShopeeDataDistinct(fs);
          SerializeV2ShopeeMerge(fs);
        }
      }
    }
  }

  /** The shopee branch reads the rendered body: a false `in` test returns
      the rendering unchanged, and on a body that is not a dict any other
      outcome raises TypeError. */
  lemma SerializeV2ShopeeBody(fs: Doc)
    requires HasKey(fs, BodyKey)
    ensures PyContains(Stringify(Get(fs, BodyKey).value), "data") == Ok(false) ==>
      SerializeV2(Some(fs), "shopee") == Ok(Some(Stringify(JObj(fs))))
    ensures !Get(fs, BodyKey).value.JObj? && PyContains(Stringify(Get(fs, BodyKey).value), "data") != Ok(false) ==>
      SerializeV2(Some(fs), "shopee").Raised? && SerializeV2(Some(fs), "shopee").exc.TypeError?
  {
    GetStringifyFields(fs, BodyKey);
    var rb := Stringify(Get(fs, BodyKey).value);
    assert Get(StringifyFields(fs), BodyKey) == Some(rb);
    if !Get(fs, BodyKey).value.JObj? {
      assert !rb.JObj?;
    }
  }

  /** The shopee branch on a body whose `data` is a dict: the stringified
      root updated with the stringified `data`. */
  lemma ShopeeMergeValue(fs: Doc, body: Doc, data: Doc)
    requires Get(fs, BodyKey) == Some(JObj(body)) && Get(body, "data") == Some(JObj(data))
    ensures var r := SerializeV2(Some(fs), "shopee");
      && r.Ok? && r.value.Some? && r.value.value.JObj?
      && r.value.value.fields == Update(StringifyFields(fs), StringifyFields(data))
  {
    GetStringifyFields(fs, BodyKey);
    GetStringifyFields(body, "data");
    var rb := JObj(StringifyFields(body));
    assert Get(StringifyFields(fs), BodyKey) == Some(rb);
    assert PyContains(rb, "data") == Ok(true);
    assert Subscript(rb, "data") == Ok(JObj(StringifyFields(data)));
  }

  lemma SerializeV2ShopeeMerge(fs: Doc)
    requires BodyOf(fs).Some? && HasKey(BodyOf(fs).value, "data") && Get(BodyOf(fs).value, "data").value.JObj?
    requires Distinct(Get(BodyOf(fs).value, "data").value.fields)
    ensures var data := Get(BodyOf(fs).value, "data").value.fields;
      var r := SerializeV2(Some(fs), "shopee");
      && r.Ok? && r.value.Some? && r.value.value.JObj?
      && forall k :: Get(r.value.value.fields, k) == StringifyOpt(if HasKey(data, k) then Get(data, k) else Get(fs, k))
  {
    ShopeeMergeValue(fs, BodyOf(fs).value, Get(BodyOf(fs).value, "data").value.fields);
    StringifiedMerge(fs, Get(BodyOf(fs).value, "data").value.fields);
  }

  /** A distinct root has a distinct `data` dict in its body. */
  lemma ShopeeDataDistinct(fs: Doc)
    requires DeepDistinct(JObj(fs))
    requires BodyOf(fs).Some? && HasKey(BodyOf(fs).value, "data") && Get(BodyOf(fs).value, "data").value.JObj?
    ensures Distinct(Get(BodyOf(fs).value, "data").value.fields)
  {
    BodyDistinct(fs);
    GetDeepDistinct(BodyOf(fs).value, "data");
  }

  /** Updating a stringified root with a stringified dict reads, key by key,
      the stringified dict's value where it has the key and the root's
      elsewhere. */
  lemma StringifiedMerge(fs: Doc, data: Doc)
    requires Distinct(data)
    ensures var merged := Update(StringifyFields(fs), StringifyFields(data));
      forall k :: Get(merged, k) == StringifyOpt(if HasKey(data, k) then Get(data, k) else Get(fs, k))
  {
    DistinctStringifyFields(data);
    forall k
      ensures Get(Update(StringifyFields(fs), StringifyFields(data)), k) ==
              StringifyOpt(if HasKey(data, k) then Get(data, k) else Get(fs, k))
    {
      GetUpdate(StringifyFields(fs), StringifyFields(data), k);
      GetStringifyFields(fs, k);
      GetStringifyFields(data, k);
    }
  }

  // ------------------------------------------------------------ pdp views

  /** `get_lazada_pdp`: nothing for a missing or empty document or one
      without `responseBody`; else `{**product, **responseBody}` with `_id`
      rendered by `str` and `responseBody` deleted. A non-dict body cannot
      be unpacked (TypeError); a merged document without `_id` raises
      KeyError. */
  function LazadaPdp(product: Option<Doc>, reprOf: Json -> string): (r: Result<Option<Json>>)
    ensures product.None? ==> r == Ok(None)
    ensures product.Some? && !HasKey(product.value, BodyKey) ==> r == Ok(None)
  {
    match product
    case None => Ok(None)
    case Some(fs) =>
      if |fs| == 0 || !HasKey(fs, BodyKey) then Ok(None)
      else match Get(fs, BodyKey).value
        case JObj(body) =>
          var merged := Update(fs, body);
          var id :- Subscript(JObj(merged), "_id");
          Ok(Some(JObj(Remove(Put(merged, "_id", JStr(Str(id, reprOf))), BodyKey))))
        case _ => Raised(TypeError("** of a non-mapping"))
  }

  /** Every root and body key but `responseBody` survives, the body's value
      winning; `_id` is the string rendering of the merged `_id`. */
  lemma LazadaPdpSpec(fs: Doc, reprOf: Json -> string)
    requires DeepDistinct(JObj(fs)) && BodyOf(fs).Some?
    ensures var body := BodyOf(fs).value;
            var id := NestedWins(fs, body, "_id");
            var r := LazadaPdp(Some(fs), reprOf);
      && (id.None? ==> r == Raised(KeyError("_id")))
      && (id.Some? ==>
            && r.Ok? && r.value.Some? && r.value.value.JObj?
            && Get(r.value.value.fields, "_id") == Some(JStr(Str(id.value, reprOf)))
            && Get(r.value.value.fields, BodyKey) == None
            && forall k :: k != "_id" && k != BodyKey ==> Get(r.value.value.fields, k) == NestedWins(fs, body, k))
  {
    var body := BodyOf(fs).value;
    BodyDistinct(fs);
    var merged := Update(fs, body);
    forall k ensures Get(merged, k) == (if HasKey(body, k) then Get(body, k) else Get(fs, k)) {
      GetUpdate(fs, body, k);
    }
  }

  /** A `responseBody` that is not a dict cannot be unpacked into the
      merged view. */
  lemma LazadaPdpNonDict(fs: Doc, reprOf: Json -> string)
    ensures HasKey(fs, BodyKey) && !Get(fs, BodyKey).value.JObj? ==>
      LazadaPdp(Some(fs), reprOf).Raised? && LazadaPdp(Some(fs), reprOf).exc.TypeError?
  {
  }

  /** `get_tiki_pdp`: nothing for a missing or empty document; else the
      document with `_id` rendered by `str` (KeyError without `_id`). */
  function TikiPdp(product: Option<Doc>, reprOf: Json -> string): (r: Result<Option<Json>>)
    ensures product.None? || (product.Some? && |product.value| == 0) ==> r == Ok(None)
    ensures product.Some? && |product.value| > 0 && !HasKey(product.value, "_id") ==> r == Raised(KeyError("_id"))
    ensures product.Some? && HasKey(product.value, "_id") ==>
      && r.Ok? && r.value.Some? && r.value.value.JObj?
      && Get(r.value.value.fields, "_id") == Some(JStr(Str(Get(product.value, "_id").value, reprOf)))
      && forall k :: k != "_id" ==> Get(r.value.value.fields, k) == Get(product.value, k)
  {
    match product
    case None => Ok(None)
    case Some(fs) =>
      if |fs| == 0 then Ok(None)
      else
        var id :- Subscript(JObj(fs), "_id");
        Ok(Some(JObj(Put(fs, "_id", JStr(Str(id, reprOf))))))
  }

  /** `get_shopee_pdp`: nothing for a missing or empty document or one
      without `responseBody`; else the root without `responseBody`, with
      `_id` rendered by `str`, updated with `responseBody.data.item` (a
      missing step defaults to `{}`). `.get` on a non-dict raises
      AttributeError, a missing `_id` KeyError, a non-dict item TypeError.
      The price is passed through as stored. */
  function ShopeePdp(product: Option<Doc>, reprOf: Json -> string): (r: Result<Option<Json>>)
    ensures product.None? ==> r == Ok(None)
    ensures product.Some? && !HasKey(product.value, BodyKey) ==> r == Ok(None)
  {
    match product
    case None => Ok(None)
    case Some(fs) =>
      if |fs| == 0 || !HasKey(fs, BodyKey) then Ok(None)
      else
        var rb := Get(fs, BodyKey).value;
        var data :- PyGet(rb, "data", JObj([]));
        var item :- PyGet(data, "item", JObj([]));
        var rest := Remove(fs, BodyKey);
        var id :- Subscript(JObj(rest), "_id");
        var root := Put(rest, "_id", JStr(Str(id, reprOf)));
        match item
        case JObj(it) => Ok(Some(JObj(Update(root, it))))
        case _ => Raised(TypeError("** of a non-mapping"))
  }

  /** The item document of a Shopee capture, when the `.get` chain reaches
      a dict (a missing step reads as `{}`). */
  function ShopeeItemOf(fs: Doc): Option<Doc>
  {
    match BodyOf(fs)
    case None => None
    case Some(body) =>
      match Get(body, "data")
      case None => Some([])
      case Some(JObj(data)) =>
        (match Get(data, "item")
         case None => Some([])
         case Some(JObj(item)) => Some(item)
         case _ => None)
      case _ => None
  }

  lemma ShopeeItemDistinct(fs: Doc)
    requires DeepDistinct(JObj(fs)) && ShopeeItemOf(fs).Some?
    ensures Distinct(ShopeeItemOf(fs).value)
  {
    BodyDistinct(fs);
    var body := BodyOf(fs).value;
    if HasKey(body, "data") {
      GetDeepDistinct(body, "data");
      var data := Get(body, "data").value.fields;
      if HasKey(data, "item") {
        GetDeepDistinct(data, "item");
      }
    }
  }

  /** The root the item is merged into: no `responseBody`, `_id` a string. */
  function ShopeeRoot(fs: Doc, reprOf: Json -> string): Doc
    requires HasKey(fs, "_id")
  {
    Put(Remove(fs, BodyKey), "_id", JStr(Str(Get(fs, "_id").value, reprOf)))
  }

  lemma ShopeePdpShape(fs: Doc, reprOf: Json -> string)
    requires ShopeeItemOf(fs).Some? && HasKey(fs, "_id")
    ensures ShopeePdp(Some(fs), reprOf) == Ok(Some(JObj(Update(ShopeeRoot(fs, reprOf), ShopeeItemOf(fs).value))))
  {
    assert Get(Remove(fs, BodyKey), "_id") == Get(fs, "_id");
  }

  /** Only the keys of `responseBody.data.item` are lifted, and their values
      win; the rest of `responseBody` is dropped; `_id` is rendered by
      `str`; the price is not divided. */
  lemma ShopeePdpSpec(fs: Doc, reprOf: Json -> string)
    requires DeepDistinct(JObj(fs)) && ShopeeItemOf(fs).Some? && HasKey(fs, "_id")
    ensures var item := ShopeeItemOf(fs).value;
            var r := ShopeePdp(Some(fs), reprOf);
      && r.Ok? && r.value.Some? && r.value.value.JObj?
      && (forall k :: HasKey(item, k) ==> Get(r.value.value.fields, k) == Get(item, k))
      && (!HasKey(item, "_id") ==> Get(r.value.value.fields, "_id") == Some(JStr(Str(Get(fs, "_id").value, reprOf))))
      && (!HasKey(item, BodyKey) ==> Get(r.value.value.fields, BodyKey) == None)
      && (forall k :: k != "_id" && k != BodyKey && !HasKey(item, k) ==> Get(r.value.value.fields, k) == Get(fs, k))
  {
    ShopeeItemDistinct(fs);
    ShopeePdpMerged(fs, reprOf);
  }

  lemma ShopeePdpMerged(fs: Doc, reprOf: Json -> string)
    requires ShopeeItemOf(fs).Some? && Distinct(ShopeeItemOf(fs).value) && HasKey(fs, "_id")
    ensures var item := ShopeeItemOf(fs).value;
            var r := ShopeePdp(Some(fs), reprOf);
      && r.Ok? && r.value.Some? && r.value.value.JObj?
      && (forall k :: HasKey(item, k) ==> Get(r.value.value.fields, k) == Get(item, k))
      && (!HasKey(item, "_id") ==> Get(r.value.value.fields, "_id") == Some(JStr(Str(Get(fs, "_id").value, reprOf))))
      && (!HasKey(item, BodyKey) ==> Get(r.value.value.fields, BodyKey) == None)
      && (forall k :: k != "_id" && k != BodyKey && !HasKey(item, k) ==> Get(r.value.value.fields, k) == Get(fs, k))
  {
    var item := ShopeeItemOf(fs).value;
    ShopeePdpShape(fs, reprOf);
    var root := ShopeeRoot(fs, reprOf);
    forall k ensures Get(Update(root, item), k) == (if HasKey(item, k) then Get(item, k) else Get(root, k)) {
      GetUpdate(root, item, k);
    }
  }

  /** The failures of the Shopee view, in the order the source meets them:
      `.get` on a body or a `data` that is not a dict raises AttributeError;
      past the chain, a root without `_id` raises KeyError; a `data.item`
      that is not a dict cannot be unpacked (TypeError). */
  lemma ShopeePdpErrors(fs: Doc, reprOf: Json -> string)
    ensures HasKey(fs, BodyKey) && !Get(fs, BodyKey).value.JObj? ==>
      ShopeePdp(Some(fs), reprOf).Raised? && ShopeePdp(Some(fs), reprOf).exc.AttributeError?
    ensures BodyOf(fs).Some? && HasKey(BodyOf(fs).value, "data") && !Get(BodyOf(fs).value, "data").value.JObj? ==>
      ShopeePdp(Some(fs), reprOf).Raised? && ShopeePdp(Some(fs), reprOf).exc.AttributeError?
    ensures ShopeeItemOf(fs).Some? && !HasKey(fs, "_id") ==>
      ShopeePdp(Some(fs), reprOf) == Raised(KeyError("_id"))
    ensures BodyOf(fs).Some? && ShopeeItemOf(fs).None? &&
            (HasKey(BodyOf(fs).value, "data") ==> Get(BodyOf(fs).value, "data").value.JObj?) ==>
      && ShopeePdp(Some(fs), reprOf).Raised?
      && (HasKey(fs, "_id") ==> ShopeePdp(Some(fs), reprOf).exc.TypeError?)
      && (!HasKey(fs, "_id") ==> ShopeePdp(Some(fs), reprOf).exc == KeyError("_id"))
  {
    assert Get(Remove(fs, BodyKey), "_id") == Get(fs, "_id");
  }

  /** A capture whose Shopee id path holds `q` has an item dict carrying
      `item_id == q`. */
  lemma ShopeeIdInItem(doc: Doc, q: Json)
    requires PathValue(JObj(doc), IdPath(Shopee)) == Some(q)
    ensures ShopeeItemOf(doc).Some? && Get(ShopeeItemOf(doc).value, "item_id") == Some(q)
  {
    var path := IdPath(Shopee);
    var body := Get(doc, BodyKey).value;
    assert PathValue(body, path[1..]) == Some(q);
    var data := Get(body.fields, "data").value;
    assert path[1..][1..] == ["item", "item_id"];
    assert PathValue(data, ["item", "item_id"]) == Some(q);
    var item := Get(data.fields, "item").value;
    assert PathValue(item, ["item_id"]) == Some(q);
    assert ["item_id"][1..] == [];
  }

  // --------------------------------------------------------- product ids

  /** The marketplace named by a path segment, if any. */
  function PlatformOf(name: string): (r: Option<Platform>)
    ensures r.Some? ==> r.value.Name() == name
    ensures r.None? ==> forall p: Platform :: p.Name() != name
  {
    if name == "lazada" then Some(Lazada)
    else if name == "shopee" then Some(Shopee)
    else if name == "tiki" then Some(Tiki)
    else None
  }

  /** `get_platform_product_id`: the `.get` chain along the platform's id
      path; `None` for any other platform. */
  function GetPlatformProductId(platform: string, doc: Doc): (r: Result<Json>)
    ensures PlatformOf(platform).None? ==> r == Ok(JNull)
  {
    match PlatformOf(platform)
    case Some(p) => GetChain(JObj(doc), IdPath(p))
    case None => Ok(JNull)
  }

  /** The id read back is the value stored at the platform's id path, `None`
      when the path is missing (a capture without `responseBody` included);
      it raises exactly when a step meets a non-dict, and only
      AttributeError. */
  lemma GetPlatformProductIdSpec(p: Platform, doc: Doc)
    ensures PathValue(JObj(doc), IdPath(p)).Some? ==>
      GetPlatformProductId(p.Name(), doc) == Ok(PathValue(JObj(doc), IdPath(p)).value)
    ensures GetPlatformProductId(p.Name(), doc).Ok? && PathValue(JObj(doc), IdPath(p)).None? ==>
      GetPlatformProductId(p.Name(), doc) == Ok(JNull)
    ensures GetPlatformProductId(p.Name(), doc).Raised? ==> GetPlatformProductId(p.Name(), doc).exc.AttributeError?
    ensures GetPlatformProductId(p.Name(), doc).Raised? <==> NonDictStep(JObj(doc), IdPath(p))
    ensures p != Tiki && !HasKey(doc, BodyKey) ==> GetPlatformProductId(p.Name(), doc) == Ok(JNull)
    ensures p == Tiki ==> GetPlatformProductId(p.Name(), doc).Ok?
  {
    GetChainReadsPath(JObj(doc), IdPath(p));
  }

  // ------------------------------------------------------- product details

  /** The key of the flattened view that carries the product id. */
  function OutIdKey(p: Platform): string
  {
    match p
    case Lazada => "itemId"
    case Shopee => "item_id"
    case Tiki => "id"
  }

  /** backendv2.py `get_product_details` for a known platform: coerce the
      id, find the first capture whose id path holds it, and flatten it
      with the platform's view; nothing when no capture matches. */
  function ProductDetails(p: Platform, itemId: string, c: Collection, reprOf: Json -> string): (r: Result<Option<Json>>)
    ensures FindOne(c, IdPath(p), CoerceId(itemId)).None? ==> r == Ok(None)
  {
    match FindOne(c, IdPath(p), CoerceId(itemId))
    case None => Ok(None)
    case Some(doc) =>
      match p
      case Lazada => LazadaPdp(Some(doc), reprOf)
      case Shopee => ShopeePdp(Some(doc), reprOf)
      case Tiki => TikiPdp(Some(doc), reprOf)
  }

  /** The view returned for an id carries that id (as coerced) under the
      platform's id key, and was built from the first matching capture. */
  lemma ProductDetailsCarriesId(p: Platform, itemId: string, c: Collection, reprOf: Json -> string)
    requires forall i :: 0 <= i < |c| ==> DeepDistinct(JObj(c[i]))
    requires ProductDetails(p, itemId, c, reprOf).Ok? && ProductDetails(p, itemId, c, reprOf).value.Some?
    ensures var out := ProductDetails(p, itemId, c, reprOf).value.value;
      out.JObj? && Get(out.fields, OutIdKey(p)) == Some(CoerceId(itemId))
  {
    var q := CoerceId(itemId);
    var doc := FindOne(c, IdPath(p), q).value;
    assert DeepDistinct(JObj(doc));
    assert PathValue(JObj(doc), IdPath(p)) == Some(q);
    match p
    case Lazada =>
      var body := BodyOf(doc).value;
      assert Get(body, "itemId") == Some(q);
      LazadaPdpSpec(doc, reprOf);
    case Shopee =>
      ShopeeIdInItem(doc, q);
      ShopeePdpSpec(doc, reprOf);
    case Tiki =>
  }

  /** A capture found by id always yields a view: every stored document
      has an `_id`, and the capture's id path guarantees the body (and for
      Shopee the item) the view needs. */
  lemma ProductDetailsFound(p: Platform, itemId: string, c: Collection, reprOf: Json -> string)
    requires forall i :: 0 <= i < |c| ==> DeepDistinct(JObj(c[i]))
    requires FindOne(c, IdPath(p), CoerceId(itemId)).Some?
    requires HasKey(FindOne(c, IdPath(p), CoerceId(itemId)).value, "_id")
    ensures ProductDetails(p, itemId, c, reprOf).Ok? && ProductDetails(p, itemId, c, reprOf).value.Some?
  {
    var q := CoerceId(itemId);
    var doc := FindOne(c, IdPath(p), q).value;
    assert DeepDistinct(JObj(doc));
    assert PathValue(JObj(doc), IdPath(p)) == Some(q);
    match p
    case Lazada =>
      assert BodyOf(doc).Some?;
      LazadaPdpSpec(doc, reprOf);
    case Shopee =>
      ShopeeIdInItem(doc, q);
      ShopeePdpShape(doc, reprOf);
    case Tiki =>
  }

  /** backend.py `get_product_details`: coerce the id, find the first Lazada
      capture with that `responseBody.itemId`, and flatten it root-wins. */
  function ProductDetailsV1(itemId: string, c: Collection): (r: Result<Option<Json>>)
    ensures FindOne(c, IdPath(Lazada), CoerceId(itemId)).None? ==> r == Ok(None)
  {
    match FindOne(c, IdPath(Lazada), CoerceId(itemId))
    case None => Ok(None)
    case Some(doc) => SerializeV1(Some(doc))
  }
}

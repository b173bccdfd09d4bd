/** The review lookups of backendv2.py and the shallow ObjectId rendering
    applied to what they return.

    Lazada reviews come from an aggregation over every capture:
    `$unwind responseBody.reviews`, `$group` by `responseBody.itemId` with
    the reviews `$push`ed, a `$sum` of 1 per review and the `$first`
    `ratingCountByScore`, then `$match` on the coerced id. Shopee and Tiki
    reviews are a `find_one` in the review collection on the string id. */
module Reviews {
  import opened Common
  import opened Json
  import opened Store
  import opened History

  /** One unwound review with the group key and rating summary of its capture. */
  datatype ReviewRow = ReviewRow(itemId: Json, review: Json, rating: Json)

  /** A `$group` output document. */
  datatype ReviewGroup = ReviewGroup(id: Json, reviews: seq<Json>, totalReviews: nat, ratingSummary: Json)

  /** The unwound reviews of one capture. */
  function ReviewRowsOf(d: Doc): (r: seq<ReviewRow>)
    ensures |r| == |UnwindValues(PathValue(JObj(d), [BodyKey, "reviews"]))|
    ensures forall i :: 0 <= i < |r| ==> r[i].itemId == At(JObj(d), IdPath(Lazada))
  {
    var reviews := UnwindValues(PathValue(JObj(d), [BodyKey, "reviews"]));
    seq(|reviews|, i requires 0 <= i < |reviews| =>
      ReviewRow(At(JObj(d), IdPath(Lazada)), reviews[i], At(JObj(d), [BodyKey, "ratingCountByScore"])))
  }

  /** `$unwind: "$responseBody.reviews"` over the whole collection. */
  function ReviewRows(c: Collection): seq<ReviewRow>
  {
    if |c| == 0 then [] else ReviewRowsOf(c[0]) + ReviewRows(c[1..])
  }

  function ReviewsWithId(s: seq<ReviewRow>, id: Json): seq<Json>
  {
    if |s| == 0 then [] else (if s[0].itemId == id then [s[0].review] else []) + ReviewsWithId(s[1..], id)
  }

  /** `$sum: 1` over the rows of a group. */
  function CountWithId(s: seq<ReviewRow>, id: Json): nat
  {
    if |s| == 0 then 0 else (if s[0].itemId == id then 1 else 0) + CountWithId(s[1..], id)
  }

  function RowsWithoutId(s: seq<ReviewRow>, id: Json): (r: seq<ReviewRow>)
    ensures |r| <= |s|
    ensures forall i :: 0 <= i < |r| ==> r[i].itemId != id
    ensures forall x :: x !in s ==> x !in r
  {
    if |s| == 0 then []
    else
      var rest := RowsWithoutId(s[1..], id);
      (if s[0].itemId != id then [s[0]] else []) + rest
  }

  /** `$group` by item id, in order of first appearance. */
  function GroupReviews(s: seq<ReviewRow>): seq<ReviewGroup>
    decreases |s|
  {
    if |s| == 0 then []
    else
      var id := s[0].itemId;
      [ReviewGroup(id, ReviewsWithId(s, id), CountWithId(s, id), s[0].rating)] + GroupReviews(RowsWithoutId(s[1..], id))
  }

  /** `$match: {_id: q}` then the first document, if any. */
  function FindGroup(gs: seq<ReviewGroup>, q: Json): (r: Option<ReviewGroup>)
    ensures r.Some? ==> r.value in gs && r.value.id == q
    ensures r.None? ==> forall g :: g in gs ==> g.id != q
  {
    if |gs| == 0 then None else if gs[0].id == q then Some(gs[0]) else FindGroup(gs[1..], q)
  }

  /** `get_lazada_reviews`. */
  function LazadaReviews(c: Collection, productId: string): Option<ReviewGroup>
  {
    FindGroup(GroupReviews(ReviewRows(c)), CoerceId(productId))
  }

  // --------------------------------------------------------------- proofs

  lemma {:induction false} CountIsLength(s: seq<ReviewRow>, id: Json)
    ensures CountWithId(s, id) == |ReviewsWithId(s, id)|
    decreases |s|
  {
    if |s| > 0 {
      CountIsLength(s[1..], id);
    }
  }

  lemma {:induction false} ReviewsWithoutOther(s: seq<ReviewRow>, id0: Json, id: Json)
    requires id != id0
    ensures ReviewsWithId(RowsWithoutId(s, id0), id) == ReviewsWithId(s, id)
    decreases |s|
  {
    if |s| > 0 {
      ReviewsWithoutOther(s[1..], id0, id);
      var rest := RowsWithoutId(s[1..], id0);
      if s[0].itemId != id0 {
        assert RowsWithoutId(s, id0) == [s[0]] + rest;
        assert ([s[0]] + rest)[1..] == rest;
      } else {
        assert RowsWithoutId(s, id0) == rest;
        assert ReviewsWithId(s, id) == ReviewsWithId(s[1..], id);
      }
    }
  }

  /** The rating summary of the first row with `id`. */
  function FirstRating(s: seq<ReviewRow>, id: Json): (r: Option<Json>)
    ensures r.None? <==> forall i :: 0 <= i < |s| ==> s[i].itemId != id
    ensures r.Some? ==> exists i :: 0 <= i < |s| && s[i].itemId == id && s[i].rating == r.value &&
                                    (forall j :: 0 <= j < i ==> s[j].itemId != id)
  {
    if |s| == 0 then None
    else if s[0].itemId == id then Some(s[0].rating)
    else
      var r := FirstRating(s[1..], id);
      assert forall i :: 1 <= i < |s| ==> s[i] == s[1..][i - 1];
      r
  }

  lemma {:induction false} FirstRatingWithout(s: seq<ReviewRow>, id0: Json, id: Json)
    requires id != id0
    ensures FirstRating(RowsWithoutId(s, id0), id) == FirstRating(s, id)
    decreases |s|
  {
    if |s| > 0 {
      FirstRatingWithout(s[1..], id0, id);
      var rest := RowsWithoutId(s[1..], id0);
      if s[0].itemId != id0 {
        assert RowsWithoutId(s, id0) == [s[0]] + rest;
        assert ([s[0]] + rest)[1..] == rest;
      } else {
        assert RowsWithoutId(s, id0) == rest;
      }
    }
  }

  /** The group for `id` exists exactly when some row has `id`; it collects
      every review of that id in order, counts them, and carries the rating
      summary of the first such row. */
  lemma {:induction false} FindGroupSpec(s: seq<ReviewRow>, id: Json)
    ensures FindGroup(GroupReviews(s), id).Some? <==> FirstRating(s, id).Some?
    ensures FindGroup(GroupReviews(s), id).Some? ==>
      var g := FindGroup(GroupReviews(s), id).value;
      && g.reviews == ReviewsWithId(s, id)
      && g.totalReviews == |g.reviews|
      && g.ratingSummary == FirstRating(s, id).value
    decreases |s|
  {
    if |s| > 0 {
      var id0 := s[0].itemId;
      var w := RowsWithoutId(s[1..], id0);
      var gs := GroupReviews(s);
      assert gs[0].id == id0 && gs[1..] == GroupReviews(w);
      if id == id0 {
        CountIsLength(s, id);
      } else {
        assert FindGroup(gs, id) == FindGroup(GroupReviews(w), id);
        FindGroupSpec(w, id);
        ReviewsWithoutOther(s[1..], id0, id);
        FirstRatingWithout(s[1..], id0, id);
      }
    }
  }

  /** The reviews of the captures whose `responseBody.itemId` is `q`,
      concatenated in stored order, duplicates kept. */
  function CaptureReviews(c: Collection, q: Json): seq<Json>
  {
    if |c| == 0 then []
    else (if At(JObj(c[0]), IdPath(Lazada)) == q then UnwindValues(PathValue(JObj(c[0]), [BodyKey, "reviews"])) else [])
         + CaptureReviews(c[1..], q)
  }

  lemma {:induction false} ReviewsWithIdAppend(a: seq<ReviewRow>, b: seq<ReviewRow>, id: Json)
    ensures ReviewsWithId(a + b, id) == ReviewsWithId(a, id) + ReviewsWithId(b, id)
    decreases |a|
  {
    if |a| == 0 {
      assert a + b == b;
    } else {
      assert (a + b)[1..] == a[1..] + b;
      ReviewsWithIdAppend(a[1..], b, id);
    }
  }

  lemma {:induction false} ReviewsOfCapture(d: Doc, id: Json)
    ensures ReviewsWithId(ReviewRowsOf(d), id) ==
      if At(JObj(d), IdPath(Lazada)) == id then UnwindValues(PathValue(JObj(d), [BodyKey, "reviews"])) else []
  {
    var rows := ReviewRowsOf(d);
    var reviews := UnwindValues(PathValue(JObj(d), [BodyKey, "reviews"]));
    AllOrNothing(rows, id, At(JObj(d), IdPath(Lazada)), reviews);
  }

  lemma {:induction false} AllOrNothing(rows: seq<ReviewRow>, id: Json, own: Json, reviews: seq<Json>)
    requires |rows| == |reviews|
    requires forall i :: 0 <= i < |rows| ==> rows[i].itemId == own && rows[i].review == reviews[i]
    ensures ReviewsWithId(rows, id) == if own == id then reviews else []
    decreases |rows|
  {
    if |rows| > 0 {
      AllOrNothing(rows[1..], id, own, reviews[1..]);
      assert reviews == [reviews[0]] + reviews[1..];
    }
  }

  lemma {:induction false} ReviewRowsSplit(c: Collection, id: Json)
    ensures ReviewsWithId(ReviewRows(c), id) == CaptureReviews(c, id)
    decreases |c|
  {
    if |c| > 0 {
      ReviewRowsSplit(c[1..], id);
      ReviewsWithIdAppend(ReviewRowsOf(c[0]), ReviewRows(c[1..]), id);
      ReviewsOfCapture(c[0], id);
    }
  }

  lemma {:induction false} ReviewsWithIdEmpty(s: seq<ReviewRow>, id: Json)
    ensures |ReviewsWithId(s, id)| == 0 <==> FirstRating(s, id).None?
    decreases |s|
  {
    if |s| > 0 && s[0].itemId != id {
      ReviewsWithIdEmpty(s[1..], id);
    }
  }

  /** The Lazada review summary for an id lists the reviews of every capture
      of that item, in stored order with duplicates kept, counts them
      exactly, and exists only when at least one such review exists. */
  lemma LazadaReviewsSpec(c: Collection, productId: string)
    ensures var q := CoerceId(productId);
            var r := LazadaReviews(c, productId);
      && (r.None? <==> CaptureReviews(c, q) == [])
      && (r.Some? ==> r.value.id == q && r.value.reviews == CaptureReviews(c, q) && r.value.totalReviews == |r.value.reviews|)
  {
    var q := CoerceId(productId);
    var s := ReviewRows(c);
    FindGroupSpec(s, q);
    ReviewRowsSplit(c, q);
    ReviewsWithIdEmpty(s, q);
  }

  // ------------------------------------------------ Shopee and Tiki reviews

  /** `get_shopee_tiki_reviews`: the first review document whose `id` is the
      product id as a string; no integer coercion is applied here. */
  function ShopeeTikiReviews(reviews: Collection, productId: string): (r: Option<Doc>)
    ensures r.Some? ==> Get(r.value, "id") == Some(JStr(productId))
    ensures r.Some? ==> exists i :: 0 <= i < |reviews| && reviews[i] == r.value &&
                          (forall j :: 0 <= j < i ==> Get(reviews[j], "id") != Some(JStr(productId)))
    ensures r.None? <==> forall i :: 0 <= i < |reviews| ==> Get(reviews[i], "id") != Some(JStr(productId))
  {
    var found := FindOne(reviews, ["id"], JStr(productId));
    assert forall d: Doc :: Matches(d, ["id"], JStr(productId)) <==> Get(d, "id") == Some(JStr(productId)) by {
      forall d: Doc ensures Matches(d, ["id"], JStr(productId)) <==> Get(d, "id") == Some(JStr(productId)) {
        assert ["id"][1..] == [];
      }
    }
    found
  }

  // ------------------------------------------- serialize_mongo_document

  /** `serialize_mongo_document`: each top-level value goes through the
      shallow pass, so ObjectIds at the top level and directly inside a
      top-level list or dict are rendered as strings. */
  function SerializeMongoDocument(doc: Option<Doc>): (r: Option<Doc>)
    ensures doc.None? <==> r.None?
    ensures r.Some? ==> |r.value| == |doc.value| && forall i :: 0 <= i < |r.value| ==> r.value[i].key == doc.value[i].key
  {
    match doc
    case None => None
    case Some(fs) => Some(seq(|fs|, i requires 0 <= i < |fs| => Field(fs[i].key, ShallowStringify(fs[i].val))))
  }

  /** Every key keeps its value up to the shallow rendering, and finishing
      with the deep rendering gives the deep rendering of the input. */
  lemma SerializeMongoSpec(fs: Doc)
    ensures forall k :: Get(SerializeMongoDocument(Some(fs)).value, k) ==
                        (if HasKey(fs, k) then Some(ShallowStringify(Get(fs, k).value)) else None)
    ensures Stringify(JObj(SerializeMongoDocument(Some(fs)).value)) == Stringify(JObj(fs))
  {
    var gs := SerializeMongoDocument(Some(fs)).value;
    forall k ensures Get(gs, k) == (if HasKey(fs, k) then Some(ShallowStringify(Get(fs, k).value)) else None) {
      GetMapped(fs, k);
    }
    forall i | 0 <= i < |fs| ensures Stringify(gs[i].val) == Stringify(fs[i].val) {
      ShallowThenDeep(fs[i].val);
    }
    assert StringifyFields(gs) == StringifyFields(fs);
  }

  lemma {:induction false} GetMapped(fs: Doc, k: string)
    ensures Get(SerializeMongoDocument(Some(fs)).value, k) ==
      (if HasKey(fs, k) then Some(ShallowStringify(Get(fs, k).value)) else None)
    decreases |fs|
  {
    if |fs| > 0 {
      GetMapped(fs[1..], k);
      assert SerializeMongoDocument(Some(fs)).value[1..] == SerializeMongoDocument(Some(fs[1..])).value;
    }
  }
}

/** The price-history aggregations of backendv2.py as functions over the
    sequence of stored captures:

      $match id -> [$unwind] -> $project -> $sort by day -> $group first -> $project

    A history point is a `Row`: its group key (item id and capture day) and
    the fields the pipeline carries. The `$sort` is modelled as a stable sort
    and each `$group` emits its groups in order of first appearance, so the
    history comes out in ascending day order (MongoDB itself leaves the
    order of `$group` output unspecified). */
module History {
  import opened Common
  import opened Text
  import opened Json
  import opened Store

  // ------------------------------------------------------------ day order

  /** Lexicographic order on strings by character code, the order MongoDB
      sorts `%Y-%m-%d` strings in. */
  predicate StrLe(a: string, b: string)
    decreases |a|
  {
    |a| == 0 || (|b| > 0 && (a[0] < b[0] || (a[0] == b[0] && StrLe(a[1..], b[1..]))))
  }

  lemma {:induction false} StrLeRefl(a: string)
    ensures StrLe(a, a)
    decreases |a|
  {
    if |a| > 0 {
      StrLeRefl(a[1..]);
    }
  }

  lemma {:induction false} StrLeTotal(a: string, b: string)
    ensures StrLe(a, b) || StrLe(b, a)
    decreases |a|
  {
    if |a| > 0 && |b| > 0 && a[0] == b[0] {
      StrLeTotal(a[1..], b[1..]);
    }
  }

  lemma {:induction false} StrLeTrans(a: string, b: string, c: string)
    requires StrLe(a, b) && StrLe(b, c)
    ensures StrLe(a, c)
    decreases |a|
  {
    if |a| > 0 && a[0] == b[0] && b[0] == c[0] {
      StrLeTrans(a[1..], b[1..], c[1..]);
    }
  }

  lemma {:induction false} StrLeAntisym(a: string, b: string)
    requires StrLe(a, b) && StrLe(b, a)
    ensures a == b
    decreases |a|
  {
    if |a| > 0 {
      StrLeAntisym(a[1..], b[1..]);
      assert a == [a[0]] + a[1..] && b == [b[0]] + b[1..];
    }
  }

  /** A capture day: `None` when the timestamp was missing or null (which
      `$dateToString` turns into null, sorting before every string). */
  type Day = Option<string>

  predicate DayLe(a: Day, b: Day)
  {
    a.None? || (b.Some? && StrLe(a.value, b.value))
  }

  lemma DayLeRefl(a: Day)
    ensures DayLe(a, a)
  {
    if a.Some? { StrLeRefl(a.value); }
  }

  lemma DayLeTotal(a: Day, b: Day)
    ensures DayLe(a, b) || DayLe(b, a)
  {
    if a.Some? && b.Some? { StrLeTotal(a.value, b.value); }
  }

  lemma DayLeTrans(a: Day, b: Day, c: Day)
    requires DayLe(a, b) && DayLe(b, c)
    ensures DayLe(a, c)
  {
    if a.Some? { StrLeTrans(a.value, b.value, c.value); }
  }

  lemma DayLeAntisym(a: Day, b: Day)
    requires DayLe(a, b) && DayLe(b, a)
    ensures a == b
  {
    if a.Some? { StrLeAntisym(a.value, b.value); }
  }

  // ------------------------------------------------------------------ rows

  /** The `$group` key `{itemId, scraped_timestamp}`. */
  datatype Key = Key(itemId: Json, day: Day)

  /** One projected capture (or one sku / stock entry of it). A field the
      platform does not project is `JNull`; so is a field missing from the
      capture, which is what `$first` makes of it. */
  datatype Row = Row(key: Key, title: Json, salePrice: Json, skuId: Json, stockQty: Json)

  predicate Sorted(s: seq<Row>)
  {
    forall i, j :: 0 <= i < j < |s| ==> DayLe(s[i].key.day, s[j].key.day)
  }

  lemma SortedCons(x: Row, s: seq<Row>)
    ensures Sorted([x] + s) <==> (forall y :: y in s ==> DayLe(x.key.day, y.key.day)) && Sorted(s)
  {
    var t := [x] + s;
    if (forall y :: y in s ==> DayLe(x.key.day, y.key.day)) && Sorted(s) {
      forall i, j | 0 <= i < j < |t| ensures DayLe(t[i].key.day, t[j].key.day) {
        if i > 0 { assert t[i] == s[i - 1] && t[j] == s[j - 1]; }
        else { assert t[j] in s; }
      }
    }
    if Sorted(t) {
      forall y | y in s ensures DayLe(x.key.day, y.key.day) {
        var j :| 0 <= j < |s| && s[j] == y;
        assert t[0] == x && t[j + 1] == y;
      }
      forall i, j | 0 <= i < j < |s| ensures DayLe(s[i].key.day, s[j].key.day) {
        assert t[i + 1] == s[i] && t[j + 1] == s[j];
      }
    }
  }

  /** The rows of `s` with key `k`, in order. */
  function FilterKey(s: seq<Row>, k: Key): (r: seq<Row>)
    ensures forall y :: y in r ==> y in s && y.key == k
    ensures |r| <= |s|
  {
    if |s| == 0 then [] else (if s[0].key == k then [s[0]] else []) + FilterKey(s[1..], k)
  }

  lemma {:induction false} FilterKeyAppend(a: seq<Row>, b: seq<Row>, k: Key)
    ensures FilterKey(a + b, k) == FilterKey(a, k) + FilterKey(b, k)
    decreases |a|
  {
    if |a| == 0 {
      assert a + b == b;
    } else {
      assert (a + b)[1..] == a[1..] + b;
      FilterKeyAppend(a[1..], b, k);
    }
  }

  lemma {:induction false} FilterKeyNone(s: seq<Row>, k: Key)
    requires forall y :: y in s ==> y.key != k
    ensures FilterKey(s, k) == []
    decreases |s|
  {
    if |s| > 0 {
      assert s[0] in s;
      FilterKeyNone(s[1..], k);
    }
  }

  /** The first row of `s` with key `k`. */
  function FirstOf(s: seq<Row>, k: Key): (r: Option<Row>)
    ensures r.Some? ==> r.value in s && r.value.key == k
    ensures r.None? ==> forall y :: y in s ==> y.key != k
  {
    if |s| == 0 then None else if s[0].key == k then Some(s[0]) else FirstOf(s[1..], k)
  }

  lemma {:induction false} FirstOfFilter(s: seq<Row>, k: Key)
    ensures FirstOf(s, k) == if |FilterKey(s, k)| > 0 then Some(FilterKey(s, k)[0]) else None
    decreases |s|
  {
    if |s| > 0 && s[0].key != k {
      FirstOfFilter(s[1..], k);
    }
  }

  /** What one key contributes to a grouped output: its first row. */
  function FirstList(s: seq<Row>, k: Key): seq<Row>
  {
    match FirstOf(s, k)
    case Some(x) => [x]
    case None => []
  }

  // ------------------------------------------------------------- $sort

  /** Place `x` after every row of `s` whose day is not later than its own. */
  function Insert(s: seq<Row>, x: Row): (r: seq<Row>)
    ensures |r| == |s| + 1
    ensures multiset(r) == multiset(s) + multiset{x}
  {
    if |s| == 0 then [x]
    else if !DayLe(s[0].key.day, x.key.day) then [x] + s
    else
      assert s == [s[0]] + s[1..];
      [s[0]] + Insert(s[1..], x)
  }

  /** `{"$sort": {"scraped_timestamp": 1}}`, taken to be stable: an
      insertion sort that keeps captures of one day in their stored order. */
  function SortByDay(s: seq<Row>): (r: seq<Row>)
    ensures multiset(r) == multiset(s)
    decreases |s|
  {
    if |s| == 0 then []
    else
      assert s == s[..|s| - 1] + [s[|s| - 1]];
      Insert(SortByDay(s[..|s| - 1]), s[|s| - 1])
  }

  lemma {:induction false} InsertSorted(s: seq<Row>, x: Row)
    requires Sorted(s)
    ensures Sorted(Insert(s, x))
    decreases |s|
  {
    if |s| == 0 {
    } else if !DayLe(s[0].key.day, x.key.day) {
      DayLeTotal(s[0].key.day, x.key.day);
      SortedCons(s[0], s[1..]);
      assert s == [s[0]] + s[1..];
      forall y | y in s ensures DayLe(x.key.day, y.key.day) {
        if y != s[0] { DayLeTrans(x.key.day, s[0].key.day, y.key.day); }
      }
      SortedCons(x, s);
    } else {
      assert s == [s[0]] + s[1..];
      SortedCons(s[0], s[1..]);
      InsertSorted(s[1..], x);
      var t := Insert(s[1..], x);
      forall y | y in t ensures DayLe(s[0].key.day, y.key.day) {
        assert y in multiset(t);
        assert y == x || y in s[1..];
      }
      SortedCons(s[0], t);
    }
  }

  /** In a sorted sequence that starts later than `x`, no row shares its day. */
  lemma LaterDays(s: seq<Row>, x: Row)
    requires Sorted(s) && |s| > 0 && !DayLe(s[0].key.day, x.key.day)
    ensures forall y :: y in s ==> y.key != x.key
  {
    assert s == [s[0]] + s[1..];
    SortedCons(s[0], s[1..]);
    DayLeRefl(x.key.day);
    forall y | y in s ensures y.key.day != x.key.day {
      if y != s[0] {
        assert DayLe(s[0].key.day, y.key.day);
      }
    }
  }

  lemma InsertFrontFilterKey(s: seq<Row>, x: Row, k: Key)
    requires Sorted(s) && |s| > 0 && !DayLe(s[0].key.day, x.key.day)
    ensures FilterKey(Insert(s, x), k) == FilterKey(s, k) + (if x.key == k then [x] else [])
  {
    assert Insert(s, x) == [x] + s;
    FilterKeyAppend([x], s, k);
    if x.key == k {
      LaterDays(s, x);
      FilterKeyNone(s, k);
    }
  }

  /** Inserting keeps each key's rows in order, the new row last. */
  lemma {:induction false} InsertFilterKey(s: seq<Row>, x: Row, k: Key)
    requires Sorted(s)
    ensures FilterKey(Insert(s, x), k) == FilterKey(s, k) + (if x.key == k then [x] else [])
    decreases |s|
  {
    if |s| == 0 {
    } else if !DayLe(s[0].key.day, x.key.day) {
      InsertFrontFilterKey(s, x, k);
    } else {
      assert s == [s[0]] + s[1..];
      var t := Insert(s[1..], x);
      assert Insert(s, x) == [s[0]] + t;
      SortedCons(s[0], s[1..]);
      InsertFilterKey(s[1..], x, k);
      FilterKeyAppend([s[0]], t, k);
      FilterKeyAppend([s[0]], s[1..], k);
    }
  }

  /** The sort orders rows by day, is a permutation, and is stable: each
      key's rows keep their stored order. */
  lemma SortByDaySpec(s: seq<Row>)
    ensures Sorted(SortByDay(s))
    ensures multiset(SortByDay(s)) == multiset(s)
    ensures forall k :: FilterKey(SortByDay(s), k) == FilterKey(s, k)
  {
    SortByDaySorted(s);
    forall k ensures FilterKey(SortByDay(s), k) == FilterKey(s, k) {
      SortByDayStable(s, k);
    }
  }

  lemma {:induction false} SortByDaySorted(s: seq<Row>)
    ensures Sorted(SortByDay(s))
    decreases |s|
  {
    if |s| > 0 {
      var init := s[..|s| - 1];
      var x := s[|s| - 1];
      assert SortByDay(s) == Insert(SortByDay(init), x);
      SortByDaySorted(init);
      InsertSorted(SortByDay(init), x);
    }
  }

  lemma {:induction false} SortByDayStable(s: seq<Row>, k: Key)
    ensures FilterKey(SortByDay(s), k) == FilterKey(s, k)
    decreases |s|
  {
    if |s| > 0 {
      var init := s[..|s| - 1];
      var x := s[|s| - 1];
      assert s == init + [x];
      assert SortByDay(s) == Insert(SortByDay(init), x);
      SortByDaySorted(init);
      SortByDayStable(init, k);
      InsertFilterKey(SortByDay(init), x, k);
      FilterKeyAppend(init, [x], k);
      assert FilterKey([x], k) == (if x.key == k then [x] else []) by {
        assert [x][1..] == [];
      }
    }
  }

  // ----------------------------------------------------- $group with $first

  /** The rows of `s` whose key is not `k`. */
  function Without(s: seq<Row>, k: Key): (r: seq<Row>)
    ensures |r| <= |s|
    ensures forall y :: y in r <==> y in s && y.key != k
  {
    if |s| == 0 then []
    else
      assert s == [s[0]] + s[1..];
      (if s[0].key != k then [s[0]] else []) + Without(s[1..], k)
  }

  lemma {:induction false} FirstOfWithout(s: seq<Row>, k0: Key, k: Key)
    ensures FirstOf(Without(s, k0), k) == if k == k0 then None else FirstOf(s, k)
    decreases |s|
  {
    if |s| > 0 {
      var w := Without(s[1..], k0);
      FirstOfWithout(s[1..], k0, k);
      if s[0].key != k0 {
        assert Without(s, k0) == [s[0]] + w;
        assert ([s[0]] + w)[1..] == w;
      } else {
        assert Without(s, k0) == w;
      }
    }
  }

  lemma {:induction false} WithoutSorted(s: seq<Row>, k: Key)
    requires Sorted(s)
    ensures Sorted(Without(s, k))
    decreases |s|
  {
    if |s| > 0 {
      assert s == [s[0]] + s[1..];
      SortedCons(s[0], s[1..]);
      WithoutSorted(s[1..], k);
      if s[0].key != k {
        SortedCons(s[0], Without(s[1..], k));
      }
    }
  }

  /** `$group` by key keeping `$first` of every field: one row per key, in
      order of first appearance. */
  function GroupFirst(s: seq<Row>): (r: seq<Row>)
    ensures forall y :: y in r ==> y in s
    decreases |s|
  {
    if |s| == 0 then []
    else
      var rest := GroupFirst(Without(s[1..], s[0].key));
      assert forall y :: y in rest ==> y in s[1..];
      [s[0]] + rest
  }

  /** Each key that occurs yields exactly one row, the first with that key;
      no other key yields any. */
  lemma {:induction false} GroupFirstKey(s: seq<Row>, k: Key)
    ensures FilterKey(GroupFirst(s), k) == FirstList(s, k)
    decreases |s|
  {
    if |s| > 0 {
      var w := Without(s[1..], s[0].key);
      GroupFirstKey(w, k);
      FirstOfWithout(s[1..], s[0].key, k);
      FilterKeyAppend([s[0]], GroupFirst(w), k);
      assert GroupFirst(s) == [s[0]] + GroupFirst(w);
    }
  }

  lemma {:induction false} GroupFirstSorted(s: seq<Row>)
    requires Sorted(s)
    ensures Sorted(GroupFirst(s))
    decreases |s|
  {
    if |s| > 0 {
      assert s == [s[0]] + s[1..];
      SortedCons(s[0], s[1..]);
      var w := Without(s[1..], s[0].key);
      WithoutSorted(s[1..], s[0].key);
      GroupFirstSorted(w);
      SortedCons(s[0], GroupFirst(w));
    }
  }

  /** Group after a stable sort: sorted by day, and each key's single row
      is its first row in stored order. */
  lemma GroupOfSorted(s: seq<Row>)
    ensures Sorted(GroupFirst(SortByDay(s)))
    ensures forall k :: FilterKey(GroupFirst(SortByDay(s)), k) == FirstList(s, k)
  {
    SortByDaySpec(s);
    GroupFirstSorted(SortByDay(s));
    forall k ensures FilterKey(GroupFirst(SortByDay(s)), k) == FirstList(s, k) {
      GroupFirstKey(SortByDay(s), k);
      FirstOfFilter(SortByDay(s), k);
      FirstOfFilter(s, k);
    }
  }

  // ------------------------------------------- Lazada's double $group

  /** A first-stage Lazada group: `$first` title and the `$push`ed
      `{skuId, salePrice}` of every row with the key. */
  datatype Bucket = Bucket(key: Key, title: Json, prices: seq<(Json, Json)>)

  function Prices(s: seq<Row>): (r: seq<(Json, Json)>)
    ensures |r| == |s|
    ensures forall i :: 0 <= i < |s| ==> r[i] == (s[i].skuId, s[i].salePrice)
  {
    if |s| == 0 then [] else [(s[0].skuId, s[0].salePrice)] + Prices(s[1..])
  }

  function GroupPush(s: seq<Row>): (r: seq<Bucket>)
    decreases |s|
  {
    if |s| == 0 then []
    else [Bucket(s[0].key, s[0].title, Prices(FilterKey(s, s[0].key)))] + GroupPush(Without(s[1..], s[0].key))
  }

  /** `$unwind: "$prices"`: one row per pushed price, carrying its bucket's
      key and title. */
  function UnwindBucket(b: Bucket): (r: seq<Row>)
    ensures |r| == |b.prices|
    ensures forall y :: y in r ==> y.key == b.key
  {
    seq(|b.prices|, i requires 0 <= i < |b.prices| => Row(b.key, b.title, b.prices[i].1, b.prices[i].0, JNull))
  }

  function UnwindBuckets(bs: seq<Bucket>): seq<Row>
  {
    if |bs| == 0 then [] else UnwindBucket(bs[0]) + UnwindBuckets(bs[1..])
  }

  /** The Lazada pipeline's two-stage grouping. */
  function Regroup(s: seq<Row>): seq<Row>
  {
    GroupFirst(UnwindBuckets(GroupPush(s)))
  }

  /** The keys of the unwound buckets of a first-stage grouping are keys of
      its input. */
  lemma {:induction false} UnwindGroupPushKeys(s: seq<Row>, k: Key)
    requires forall y :: y in s ==> y.key != k
    ensures forall y :: y in UnwindBuckets(GroupPush(s)) ==> y.key != k
    decreases |s|
  {
    if |s| > 0 {
      var w := Without(s[1..], s[0].key);
      assert s[0] in s;
      UnwindGroupPushKeys(w, k);
      var b := Bucket(s[0].key, s[0].title, Prices(FilterKey(s, s[0].key)));
      assert UnwindBuckets(GroupPush(s)) == UnwindBucket(b) + UnwindBuckets(GroupPush(w));
    }
  }

  /** Grouping a sequence that starts with a run of one key, no later row
      having that key, yields the run's first row and then the grouping of
      the rest. */
  lemma GroupFirstRun(a: seq<Row>, b: seq<Row>, k: Key)
    requires |a| > 0 && forall y :: y in a ==> y.key == k
    requires forall y :: y in b ==> y.key != k
    ensures GroupFirst(a + b) == [a[0]] + GroupFirst(b)
  {
    var t := a + b;
    assert t[0] == a[0];
    assert t[1..] == a[1..] + b;
    WithoutAll(a[1..], b, k);
  }

  lemma {:induction false} WithoutAll(a: seq<Row>, b: seq<Row>, k: Key)
    requires forall y :: y in a ==> y.key == k
    requires forall y :: y in b ==> y.key != k
    ensures Without(a + b, k) == b
    decreases |a| + |b|
  {
    if |a| > 0 {
      assert (a + b)[1..] == a[1..] + b;
      assert a[0] in a;
      WithoutAll(a[1..], b, k);
    } else if |b| > 0 {
      assert a + b == b;
      assert b[0] in b;
      WithoutAll(a, b[1..], k);
      assert (a + b)[1..] == a + b[1..];
    }
  }

  /** For Lazada rows (no stock field), pushing every sku into a per-key
      list, unwinding it and grouping again with `$first` gives what one
      grouping with `$first` gives. */
  lemma {:induction false} RegroupIsGroupFirst(s: seq<Row>)
    requires forall y :: y in s ==> y.stockQty == JNull
    ensures Regroup(s) == GroupFirst(s)
    decreases |s|
  {
    if |s| > 0 {
      var k0 := s[0].key;
      var w := Without(s[1..], k0);
      var b := Bucket(k0, s[0].title, Prices(FilterKey(s, k0)));
      assert |FilterKey(s, k0)| > 0 && FilterKey(s, k0)[0] == s[0];
      var a := UnwindBucket(b);
      assert a[0] == s[0];
      assert forall y :: y in w ==> y in s;
      RegroupIsGroupFirst(w);
      UnwindGroupPushKeys(w, k0);
      assert UnwindBuckets(GroupPush(s)) == a + UnwindBuckets(GroupPush(w));
      GroupFirstRun(a, UnwindBuckets(GroupPush(w)), k0);
    }
  }

  // ------------------------------------------------------ stage operators

  /** The value at a field path, `null` when it is missing. */
  function At(v: Json, path: seq<string>): (r: Json)
    ensures PathValue(v, path).Some? ==> r == PathValue(v, path).value
    ensures PathValue(v, path).None? ==> r == JNull
  {
    match PathValue(v, path)
    case Some(x) => x
    case None => JNull
  }

  /** `$unwind` without options: a missing, null or empty array yields no
      document, an array one per element, any other value one. */
  function UnwindValues(v: Option<Json>): (r: seq<Json>)
    ensures v.None? || v == Some(JNull) ==> r == []
    ensures v.Some? && v.value.JArr? ==> r == v.value.items
    ensures v.Some? && v.value != JNull && !v.value.JArr? ==> r == [v.value]
  {
    match v
    case None => []
    case Some(JNull) => []
    case Some(JArr(xs)) => xs
    case Some(x) => [x]
  }

  /** `$divide: [x, 100000]`: a number becomes the quotient, null or a
      missing field stays null, anything else is an aggregation error. */
  function DivideBy100000(v: Json): (r: Result<Json>)
    ensures v.JInt? ==> r == Ok(JReal(v.i as real / 100000.0))
    ensures v.JReal? ==> r == Ok(JReal(v.r / 100000.0))
    ensures v == JNull ==> r == Ok(JNull)
    ensures !(v.JInt? || v.JReal? || v == JNull) ==> r.Raised? && r.exc.AggregateError?
  {
    match v
    case JInt(i) => Ok(JReal(i as real / 100000.0))
    case JReal(x) => Ok(JReal(x / 100000.0))
    case JNull => Ok(JNull)
    case _ => Raised(AggregateError("$divide only supports numeric types"))
  }

  /** `$toDate` then `$dateToString "%Y-%m-%d"` of a stored timestamp:
      calendar arithmetic is not modelled, so this is a parameter. */
  type DayOf = Json -> Day

  const TimestampPath: seq<string> := ["scraped_timestamp"]

  /** `$match` on the platform's id path. */
  function MatchId(c: Collection, p: Platform, q: Json): (r: Collection)
    ensures forall d :: d in r <==> d in c && Matches(d, IdPath(p), q)
  {
    if |c| == 0 then []
    else
      assert c == [c[0]] + c[1..];
      (if Matches(c[0], IdPath(p), q) then [c[0]] else []) + MatchId(c[1..], p, q)
  }

  /** `$match` keeps a single capture exactly when it matches. */
  lemma MatchIdSingleton(d: Doc, p: Platform, q: Json)
    ensures MatchId([d], p, q) == if Matches(d, IdPath(p), q) then [d] else []
  {
    assert [d][1..] == [];
  }

  /** `$match` is a filter: it keeps the order and the multiplicity of the
      captures, so matching a concatenation concatenates the matches. */
  lemma {:induction false} MatchIdAppend(a: Collection, b: Collection, p: Platform, q: Json)
    ensures MatchId(a + b, p, q) == MatchId(a, p, q) + MatchId(b, p, q)
    decreases |a|
  {
    if |a| == 0 {
      assert a + b == b;
    } else {
      assert (a + b)[0] == a[0];
      assert (a + b)[1..] == a[1..] + b;
      MatchIdAppend(a[1..], b, p, q);
    }
  }

  // ------------------------------------------------------- projections

  /** Shopee: item id, title, and price / 100000 from `responseBody.data.item`. */
  function ShopeeRow(d: Doc, dayOf: DayOf): (r: Result<Row>)
    ensures r.Raised? <==> DivideBy100000(At(JObj(d), [BodyKey, "data", "item", "price"])).Raised?
    ensures r.Raised? ==> r.exc.AggregateError?
    ensures r.Ok? ==> r.value == Row(Key(At(JObj(d), IdPath(Shopee)), dayOf(At(JObj(d), TimestampPath))),
                                     At(JObj(d), [BodyKey, "data", "item", "title"]),
                                     DivideBy100000(At(JObj(d), [BodyKey, "data", "item", "price"])).value,
                                     JNull, JNull)
  {
    var price :- DivideBy100000(At(JObj(d), [BodyKey, "data", "item", "price"]));
    Ok(Row(Key(At(JObj(d), IdPath(Shopee)), dayOf(At(JObj(d), TimestampPath))),
           At(JObj(d), [BodyKey, "data", "item", "title"]), price, JNull, JNull))
  }

  function ShopeeRows(c: Collection, dayOf: DayOf): (r: Result<seq<Row>>)
    ensures r.Ok? ==> |r.value| == |c| && forall i :: 0 <= i < |c| ==> ShopeeRow(c[i], dayOf) == Ok(r.value[i])
    ensures r.Raised? ==> exists i :: 0 <= i < |c| && ShopeeRow(c[i], dayOf).Raised?
    ensures r.Raised? ==> r.exc.AggregateError?
  {
    if |c| == 0 then Ok([])
    else
      var x :- ShopeeRow(c[0], dayOf);
      var rest :- ShopeeRows(c[1..], dayOf);
      assert forall i :: 1 <= i < |c| ==> c[i] == c[1..][i - 1];
      Ok([x] + rest)
  }

  /** Lazada: one row per element of `responseBody.skus`, with the capture's
      item id and title and the element's `skuId` and `salePrice`. */
  function LazadaRowsOf(d: Doc, dayOf: DayOf): (r: seq<Row>)
    ensures |r| == |UnwindValues(PathValue(JObj(d), [BodyKey, "skus"]))|
    ensures var skus := UnwindValues(PathValue(JObj(d), [BodyKey, "skus"]));
      forall i :: 0 <= i < |r| ==>
        r[i] == Row(Key(At(JObj(d), IdPath(Lazada)), dayOf(At(JObj(d), TimestampPath))),
                    At(JObj(d), [BodyKey, "title"]), At(skus[i], ["salePrice"]), At(skus[i], ["skuId"]), JNull)
  {
    var skus := UnwindValues(PathValue(JObj(d), [BodyKey, "skus"]));
    var key := Key(At(JObj(d), IdPath(Lazada)), dayOf(At(JObj(d), TimestampPath)));
    var title := At(JObj(d), [BodyKey, "title"]);
    seq(|skus|, i requires 0 <= i < |skus| => Row(key, title, At(skus[i], ["salePrice"]), At(skus[i], ["skuId"]), JNull))
  }

  /** Tiki: one row per `stock_item` (a single dict in practice), with the
      capture's id, name and price and the entry's `qty`. */
  function TikiRowsOf(d: Doc, dayOf: DayOf): (r: seq<Row>)
    ensures |r| == |UnwindValues(PathValue(JObj(d), ["stock_item"]))|
    ensures var items := UnwindValues(PathValue(JObj(d), ["stock_item"]));
      forall i :: 0 <= i < |r| ==>
        r[i] == Row(Key(At(JObj(d), IdPath(Tiki)), dayOf(At(JObj(d), TimestampPath))),
                    At(JObj(d), ["name"]), At(JObj(d), ["price"]), JNull, At(items[i], ["qty"]))
  {
    var items := UnwindValues(PathValue(JObj(d), ["stock_item"]));
    var key := Key(At(JObj(d), IdPath(Tiki)), dayOf(At(JObj(d), TimestampPath)));
    seq(|items|, i requires 0 <= i < |items| => Row(key, At(JObj(d), ["name"]), At(JObj(d), ["price"]), JNull, At(items[i], ["qty"])))
  }

  /** The rows one Lazada or Tiki capture unwinds into. */
  function UnwoundOf(p: Platform, d: Doc, dayOf: DayOf): seq<Row>
  {
    if p == Lazada then LazadaRowsOf(d, dayOf) else TikiRowsOf(d, dayOf)
  }

  /** The unwound rows of the matched Lazada or Tiki captures, in order. */
  function UnwoundRows(p: Platform, c: Collection, dayOf: DayOf): seq<Row>
  {
    if |c| == 0 then [] else UnwoundOf(p, c[0], dayOf) + UnwoundRows(p, c[1..], dayOf)
  }

  /** The projected rows of the matched captures, in stored order; only the
      Shopee projection can fail. */
  function Rows(p: Platform, c: Collection, dayOf: DayOf): (r: Result<seq<Row>>)
    ensures p != Shopee ==> r.Ok?
    ensures r.Raised? ==> r.exc.AggregateError?
  {
    if p == Shopee then ShopeeRows(c, dayOf) else Ok(UnwoundRows(p, c, dayOf))
  }

  /** Every row of a capture carries the capture's value at the id path. */
  lemma RowsCarryId(p: Platform, c: Collection, dayOf: DayOf)
    requires Rows(p, c, dayOf).Ok?
    ensures forall y :: y in Rows(p, c, dayOf).value ==>
      exists d :: d in c && y.key.itemId == At(JObj(d), IdPath(p))
  {
    if p == Shopee {
      var r := Rows(p, c, dayOf).value;
      forall y | y in r ensures exists d :: d in c && y.key.itemId == At(JObj(d), IdPath(p)) {
        var i :| 0 <= i < |r| && r[i] == y;
        assert c[i] in c;
      }
    } else {
      UnwoundCarryId(p, c, dayOf);
    }
  }

  lemma {:induction false} UnwoundCarryId(p: Platform, c: Collection, dayOf: DayOf)
    requires p != Shopee
    ensures forall y :: y in UnwoundRows(p, c, dayOf) ==>
      exists d :: d in c && y.key.itemId == At(JObj(d), IdPath(p))
    decreases |c|
  {
    if |c| > 0 {
      UnwoundCarryId(p, c[1..], dayOf);
      assert forall d :: d in c[1..] ==> d in c;
      assert c[0] in c;
      assert forall y :: y in UnwoundOf(p, c[0], dayOf) ==> y.key.itemId == At(JObj(c[0]), IdPath(p));
    }
  }

  // ----------------------------------------------------------- pipelines

  /** `get_shopee_price_history`, `get_lazada_price_history` and
      `get_tiki_price_history`: coerce the id, match, project, sort by day
      and group by `(itemId, day)`. */
  function PriceHistory(p: Platform, itemId: string, c: Collection, dayOf: DayOf): (r: Result<seq<Row>>)
    ensures r.Raised? ==> p == Shopee && r.exc.AggregateError?
  {
    var rows :- Rows(p, MatchId(c, p, CoerceId(itemId)), dayOf);
    var sorted := SortByDay(rows);
    Ok(if p == Lazada then Regroup(sorted) else GroupFirst(sorted))
  }

  /** A history is sorted by day, every point has the requested id, and for
      each `(itemId, day)` it holds exactly one point, the first projected
      row of that key in stored order, when any row has that key. */
  lemma PriceHistorySpec(p: Platform, itemId: string, c: Collection, dayOf: DayOf)
    requires PriceHistory(p, itemId, c, dayOf).Ok?
    ensures var h := PriceHistory(p, itemId, c, dayOf).value;
            var rows := Rows(p, MatchId(c, p, CoerceId(itemId)), dayOf).value;
      && Sorted(h)
      && (forall y :: y in h ==> y.key.itemId == CoerceId(itemId))
      && forall k :: FilterKey(h, k) == FirstList(rows, k)
  {
    var q := CoerceId(itemId);
    var rows := Rows(p, MatchId(c, p, q), dayOf).value;
    PriceHistoryGroups(p, itemId, c, dayOf);
    GroupOfSorted(rows);
    MatchedRowsCarryId(p, q, c, dayOf);
    GroupFirstSortedKeepsId(rows, q);
  }

  /** Whichever grouping a pipeline runs, its history is the first-stage
      grouping of the sorted rows. */
  lemma PriceHistoryGroups(p: Platform, itemId: string, c: Collection, dayOf: DayOf)
    requires PriceHistory(p, itemId, c, dayOf).Ok?
    ensures PriceHistory(p, itemId, c, dayOf).value ==
      GroupFirst(SortByDay(Rows(p, MatchId(c, p, CoerceId(itemId)), dayOf).value))
  {
    var m := MatchId(c, p, CoerceId(itemId));
    if p == Lazada {
      var rows := Rows(p, m, dayOf).value;
      LazadaRowsNoStock(m, dayOf);
      SortByDaySpec(rows);
      assert forall y :: y in SortByDay(rows) ==> y in multiset(rows);
      RegroupIsGroupFirst(SortByDay(rows));
    }
  }

  /** Every row projected from the matched documents has the requested id. */
  lemma MatchedRowsCarryId(p: Platform, q: Json, c: Collection, dayOf: DayOf)
    requires Rows(p, MatchId(c, p, q), dayOf).Ok?
    ensures forall y :: y in Rows(p, MatchId(c, p, q), dayOf).value ==> y.key.itemId == q
  {
    var m := MatchId(c, p, q);
    RowsCarryId(p, m, dayOf);
    forall y | y in Rows(p, m, dayOf).value ensures y.key.itemId == q {
      var d :| d in m && y.key.itemId == At(JObj(d), IdPath(p));
      assert Matches(d, IdPath(p), q);
    }
  }

  /** Sorting and grouping keep only rows of the input. */
  lemma GroupFirstSortedKeepsId(rows: seq<Row>, q: Json)
    requires forall y :: y in rows ==> y.key.itemId == q
    ensures forall y :: y in GroupFirst(SortByDay(rows)) ==> y.key.itemId == q
  {
    forall y | y in GroupFirst(SortByDay(rows)) ensures y.key.itemId == q {
      assert y in multiset(SortByDay(rows));
    }
  }

  lemma {:induction false} LazadaRowsNoStock(c: Collection, dayOf: DayOf)
    ensures forall y :: y in UnwoundRows(Lazada, c, dayOf) ==> y.stockQty == JNull
    decreases |c|
  {
    if |c| > 0 {
      LazadaRowsNoStock(c[1..], dayOf);
    }
  }

  /** A Lazada capture with no `skus`, a null one or an empty list adds no
      row, and so no history point. */
  lemma LazadaNoSkusNoRows(d: Doc, dayOf: DayOf)
    requires var v := PathValue(JObj(d), [BodyKey, "skus"]); v.None? || v == Some(JNull) || v == Some(JArr([]))
    ensures LazadaRowsOf(d, dayOf) == []
  {
  }

  /** A Lazada point carries the sku of the first sku entry of the first
      capture of its day. */
  lemma LazadaPointIsFirstSku(itemId: string, c: Collection, dayOf: DayOf, i: nat)
    requires PriceHistory(Lazada, itemId, c, dayOf).Ok?
    requires var m := MatchId(c, Lazada, CoerceId(itemId));
      i < |m| && |LazadaRowsOf(m[i], dayOf)| > 0
    requires var m := MatchId(c, Lazada, CoerceId(itemId));
      forall j :: 0 <= j < i ==> forall y :: y in LazadaRowsOf(m[j], dayOf) ==> y.key != LazadaRowsOf(m[i], dayOf)[0].key
    ensures var m := MatchId(c, Lazada, CoerceId(itemId));
            var first := LazadaRowsOf(m[i], dayOf)[0];
      FilterKey(PriceHistory(Lazada, itemId, c, dayOf).value, first.key) == [first]
  {
    var m := MatchId(c, Lazada, CoerceId(itemId));
    var first := LazadaRowsOf(m[i], dayOf)[0];
    PriceHistorySpec(Lazada, itemId, c, dayOf);
    LazadaFirstOf(m, dayOf, i, first.key);
  }

  lemma {:induction false} LazadaFirstOf(m: Collection, dayOf: DayOf, i: nat, k: Key)
    requires i < |m| && |LazadaRowsOf(m[i], dayOf)| > 0 && LazadaRowsOf(m[i], dayOf)[0].key == k
    requires forall j :: 0 <= j < i ==> forall y :: y in LazadaRowsOf(m[j], dayOf) ==> y.key != k
    ensures FirstOf(UnwoundRows(Lazada, m, dayOf), k) == Some(LazadaRowsOf(m[i], dayOf)[0])
    decreases i, 1
  {
    var own := LazadaRowsOf(m[0], dayOf);
    var rest := UnwoundRows(Lazada, m[1..], dayOf);
    assert UnwoundRows(Lazada, m, dayOf) == own + rest;
    FirstOfAppend(own, rest, k);
    if i > 0 {
      LazadaFirstOfTail(m, dayOf, i, k);
    } else {
      FirstOfHead(own, k);
    }
  }

  lemma {:induction false} LazadaFirstOfTail(m: Collection, dayOf: DayOf, i: nat, k: Key)
    requires 0 < i < |m| && |LazadaRowsOf(m[i], dayOf)| > 0 && LazadaRowsOf(m[i], dayOf)[0].key == k
    requires forall j :: 0 <= j < i ==> forall y :: y in LazadaRowsOf(m[j], dayOf) ==> y.key != k
    ensures FirstOf(LazadaRowsOf(m[0], dayOf), k) == None
    ensures FirstOf(UnwoundRows(Lazada, m[1..], dayOf), k) == Some(LazadaRowsOf(m[i], dayOf)[0])
    decreases i, 0
  {
    var tail := m[1..];
    forall j | 0 <= j < i - 1
      ensures forall y :: y in LazadaRowsOf(tail[j], dayOf) ==> y.key != k
    {
      assert tail[j] == m[j + 1];
    }
    assert tail[i - 1] == m[i];
    LazadaFirstOf(tail, dayOf, i - 1, k);
    FirstOfNone(LazadaRowsOf(m[0], dayOf), k);
  }

  lemma {:induction false} FirstOfNone(s: seq<Row>, k: Key)
    requires forall y :: y in s ==> y.key != k
    ensures FirstOf(s, k) == None
    decreases |s|
  {
    if |s| > 0 {
      assert s[0] in s;
      FirstOfNone(s[1..], k);
    }
  }

  lemma {:induction false} FirstOfAppend(a: seq<Row>, b: seq<Row>, k: Key)
    ensures FirstOf(a + b, k) == if FirstOf(a, k).Some? then FirstOf(a, k) else FirstOf(b, k)
    decreases |a|
  {
    if |a| > 0 {
      assert (a + b)[1..] == a[1..] + b;
      FirstOfAppend(a[1..], b, k);
    } else {
      assert a + b == b;
    }
  }

  lemma FirstOfHead(s: seq<Row>, k: Key)
    requires |s| > 0 && s[0].key == k
    ensures FirstOf(s, k) == Some(s[0])
  {
  }

  // ---------------------------------------------------------- statistics

  /** Numbers as Python compares them (a bool is 0 or 1). */
  predicate IsNumber(v: Json) { v.JInt? || v.JReal? || v.JBool? }

  function NumValue(v: Json): real
    requires IsNumber(v)
  {
    match v
    case JInt(i) => i as real
    case JReal(x) => x
    case JBool(b) => if b then 1.0 else 0.0
  }

  /** Python's `a < b`: numbers with numbers, strings with strings; any
      other pairing (a `None` among them) raises TypeError. */
  function PyLess(a: Json, b: Json): (r: Result<bool>)
    ensures IsNumber(a) && IsNumber(b) ==> r == Ok(NumValue(a) < NumValue(b))
    ensures a.JStr? && b.JStr? ==> r == Ok(StrLe(a.s, b.s) && a.s != b.s)
    ensures a == JNull || b == JNull ==> r.Raised?
    ensures r.Raised? ==> r.exc.TypeError?
  {
    if IsNumber(a) && IsNumber(b) then Ok(NumValue(a) < NumValue(b))
    else if a.JStr? && b.JStr? then Ok(StrLe(a.s, b.s) && a.s != b.s)
    else Raised(TypeError("'<' not supported between these types"))
  }

  /** Python's `min(xs)`: scan left to right, replacing the current value
      only by a strictly smaller one (so the first minimum is kept). */
  function PyMin(xs: seq<Json>): (r: Result<Json>)
    requires |xs| > 0
    ensures r.Raised? ==> r.exc.TypeError?
  {
    if |xs| == 1 then Ok(xs[0])
    else
      var m :- PyMin(xs[..|xs| - 1]);
      var lt :- PyLess(xs[|xs| - 1], m);
      Ok(if lt then xs[|xs| - 1] else m)
  }

  /** Python's `max(xs)`: the mirror image, keeping the first maximum. */
  function PyMax(xs: seq<Json>): (r: Result<Json>)
    requires |xs| > 0
    ensures r.Raised? ==> r.exc.TypeError?
  {
    if |xs| == 1 then Ok(xs[0])
    else
      var m :- PyMax(xs[..|xs| - 1]);
      var gt :- PyLess(m, xs[|xs| - 1]);
      Ok(if gt then xs[|xs| - 1] else m)
  }

  predicate AllNumbers(xs: seq<Json>) { forall i :: 0 <= i < |xs| ==> IsNumber(xs[i]) }

  /** Over numbers `min` succeeds with the first least element. */
  lemma {:induction false} PyMinSpec(xs: seq<Json>)
    requires |xs| > 0 && AllNumbers(xs)
    ensures PyMin(xs).Ok?
    ensures exists i :: 0 <= i < |xs| && xs[i] == PyMin(xs).value &&
                        (forall j :: 0 <= j < i ==> NumValue(xs[j]) > NumValue(xs[i]))
    ensures forall j :: 0 <= j < |xs| ==> NumValue(PyMin(xs).value) <= NumValue(xs[j])
    decreases |xs|
  {
    if |xs| > 1 {
      var init := xs[..|xs| - 1];
      PyMinSpec(init);
      var m := PyMin(init).value;
      var i :| 0 <= i < |init| && init[i] == m && forall j :: 0 <= j < i ==> NumValue(init[j]) > NumValue(init[i]);
      if NumValue(xs[|xs| - 1]) < NumValue(m) {
        assert PyMin(xs).value == xs[|xs| - 1];
        forall j | 0 <= j < |xs| - 1 ensures NumValue(xs[j]) > NumValue(xs[|xs| - 1]) {
          assert xs[j] == init[j];
        }
      } else {
        assert PyMin(xs).value == m;
        assert xs[i] == m;
        forall j | 0 <= j < i ensures NumValue(xs[j]) > NumValue(xs[i]) {
          assert xs[j] == init[j];
        }
        forall j | 0 <= j < |xs| ensures NumValue(m) <= NumValue(xs[j]) {
          if j < |xs| - 1 { assert xs[j] == init[j]; }
        }
      }
    }
  }

  /** Over numbers `max` succeeds with the first greatest element. */
  lemma {:induction false} PyMaxSpec(xs: seq<Json>)
    requires |xs| > 0 && AllNumbers(xs)
    ensures PyMax(xs).Ok?
    ensures exists i :: 0 <= i < |xs| && xs[i] == PyMax(xs).value &&
                        (forall j :: 0 <= j < i ==> NumValue(xs[j]) < NumValue(xs[i]))
    ensures forall j :: 0 <= j < |xs| ==> NumValue(xs[j]) <= NumValue(PyMax(xs).value)
    decreases |xs|
  {
    if |xs| > 1 {
      var init := xs[..|xs| - 1];
      PyMaxSpec(init);
      var m := PyMax(init).value;
      var i :| 0 <= i < |init| && init[i] == m && forall j :: 0 <= j < i ==> NumValue(init[j]) < NumValue(init[i]);
      if NumValue(m) < NumValue(xs[|xs| - 1]) {
        assert PyMax(xs).value == xs[|xs| - 1];
        forall j | 0 <= j < |xs| - 1 ensures NumValue(xs[j]) < NumValue(xs[|xs| - 1]) {
          assert xs[j] == init[j];
        }
      } else {
        assert PyMax(xs).value == m;
        assert xs[i] == m;
        forall j | 0 <= j < i ensures NumValue(xs[j]) < NumValue(xs[i]) {
          assert xs[j] == init[j];
        }
        forall j | 0 <= j < |xs| ensures NumValue(xs[j]) <= NumValue(m) {
          if j < |xs| - 1 { assert xs[j] == init[j]; }
        }
      }
    }
  }

  /** With two or more values, a `None` among them makes `min` raise. */
  lemma {:induction false} PyMinNone(xs: seq<Json>, i: nat)
    requires |xs| > 1 && i < |xs| && xs[i] == JNull
    ensures PyMin(xs).Raised? && PyMin(xs).exc.TypeError?
    decreases |xs|
  {
    var init := xs[..|xs| - 1];
    if i < |xs| - 1 && |init| > 1 {
      PyMinNone(init, i);
    } else if i < |xs| - 1 {
      assert PyMin(init) == Ok(JNull);
      assert PyLess(xs[1], JNull).Raised?;
    } else {
      if PyMin(init).Ok? {
        assert PyLess(JNull, PyMin(init).value).Raised?;
      }
    }
  }

  /** With two or more values, a `None` among them makes `max` raise. */
  lemma {:induction false} PyMaxNone(xs: seq<Json>, i: nat)
    requires |xs| > 1 && i < |xs| && xs[i] == JNull
    ensures PyMax(xs).Raised? && PyMax(xs).exc.TypeError?
    decreases |xs|
  {
    var init := xs[..|xs| - 1];
    if i < |xs| - 1 && |init| > 1 {
      PyMaxNone(init, i);
    } else if i < |xs| - 1 {
      assert PyMax(init) == Ok(JNull);
      assert PyLess(JNull, xs[1]).Raised?;
    } else {
      if PyMax(init).Ok? {
        assert PyLess(PyMax(init).value, JNull).Raised?;
      }
    }
  }

  /** The `statistics` block (with the `product_info` it sits beside). */
  datatype Stats = Stats(
    itemId: Json, title: Json, platform: string,
    lowest: Json, highest: Json, latest: Json,
    firstDay: Day, lastDay: Day, total: nat,
    currentStock: Option<Json>)   // Tiki only

  function SalePrices(h: seq<Row>): (r: seq<Json>)
    ensures |r| == |h|
    ensures forall i :: 0 <= i < |h| ==> r[i] == h[i].salePrice
  {
    seq(|h|, i requires 0 <= i < |h| => h[i].salePrice)
  }

  /** The statistics of a history; nothing for an empty one. */
  function Statistics(p: Platform, h: seq<Row>): (r: Result<Option<Stats>>)
    ensures |h| == 0 <==> r == Ok(None)
  {
    if |h| == 0 then Ok(None)
    else
      var lo :- PyMin(SalePrices(h));
      var hi :- PyMax(SalePrices(h));
      Ok(Some(Stats(h[0].key.itemId, h[0].title, p.Name(), lo, hi, h[|h| - 1].salePrice,
                    h[0].key.day, h[|h| - 1].key.day, |h|,
                    if p == Tiki then Some(h[|h| - 1].stockQty) else None)))
  }

  /** Over numeric prices: the lowest and highest are the extremes, so the
      latest price lies between them; the dates come from the two ends, the
      count is the length, and Tiki reports the last stock quantity. */
  lemma StatisticsSpec(p: Platform, h: seq<Row>)
    requires |h| > 0 && AllNumbers(SalePrices(h))
    ensures var r := Statistics(p, h);
      && r.Ok? && r.value.Some?
      && var st := r.value.value;
      && IsNumber(st.lowest) && IsNumber(st.highest)
      && (forall i :: 0 <= i < |h| ==> NumValue(st.lowest) <= NumValue(h[i].salePrice) <= NumValue(st.highest))
      && (exists i :: 0 <= i < |h| && st.lowest == h[i].salePrice)
      && (exists i :: 0 <= i < |h| && st.highest == h[i].salePrice)
      && NumValue(st.lowest) <= NumValue(st.latest) <= NumValue(st.highest)
      && st.latest == h[|h| - 1].salePrice
      && st.firstDay == h[0].key.day && st.lastDay == h[|h| - 1].key.day
      && st.total == |h|
      && (st.currentStock.Some? <==> p == Tiki)
      && (p == Tiki ==> st.currentStock == Some(h[|h| - 1].stockQty))
  {
    var xs := SalePrices(h);
    PyMinSpec(xs);
    PyMaxSpec(xs);
  }

  /** A history of two or more points with a missing price has no
      statistics: the comparison raises. */
  lemma StatisticsMissingPrice(p: Platform, h: seq<Row>, i: nat)
    requires |h| > 1 && i < |h| && h[i].salePrice == JNull
    ensures Statistics(p, h).Raised? && Statistics(p, h).exc.TypeError?
  {
    PyMinNone(SalePrices(h), i);
  }
}

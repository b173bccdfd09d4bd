/** The document store as the query code sees it: a collection is a sequence
    of documents in natural order, a field path is read the way MongoDB
    reads dotted paths through embedded documents, and `find_one` returns
    the first document whose path value equals the query. Also the id
    coercion every lookup applies to the id it is given. */
module Store {
  import opened Common
  import opened Text
  import opened Json

  /** A stored document: always a dict. */
  type Doc = seq<Field>

  type Collection = seq<Doc>

  // ------------------------------------------------------------ id coercion

  /** `int(s) if s.isdigit() else s`: a non-empty all-digit string becomes
      the integer it denotes, anything else stays the string it was. */
  function CoerceId(s: string): (r: Json)
    ensures r.JInt? || r.JStr?
    ensures r.JInt? <==> IsDigitString(s)
    ensures r.JInt? ==> r.i >= 0 && r.i == DecimalValue(s)
    ensures r.JStr? ==> r.s == s
  {
    if IsDigitString(s) then JInt(DecimalValue(s)) else JStr(s)
  }

  /** `str(n)` coerces back to `n`: the id a client got from a listing
      finds the same product. */
  lemma CoerceShowNat(n: nat)
    ensures CoerceId(ShowNat(n)) == JInt(n)
  {
    DecimalOfShowNat(n);
  }

  /** On canonical numerals (no leading zero) coercion is reversible:
      `str(int(s)) == s`. */
  lemma CoerceCanonical(s: string)
    requires IsDigitString(s) && (|s| > 1 ==> s[0] != '0')
    ensures CoerceId(s).JInt? && ShowNat(CoerceId(s).i) == s
  {
    ShowNatOfDecimal(s);
  }

  /** Two ids look up the same value exactly when they are the same string
      or both numerals of one number. */
  lemma CoerceSame(s: string, t: string)
    ensures CoerceId(s) == CoerceId(t) <==>
      s == t || (IsDigitString(s) && IsDigitString(t) && DecimalValue(s) == DecimalValue(t))
  {
  }

  /** Leading zeros are lost: `007` and `7` find the same product. */
  lemma CoerceLeadingZeros()
    ensures CoerceId("007") == CoerceId("7") == JInt(7)
  {
    assert IsDigitString("007") && IsDigitString("7");
    assert DecimalValue("007") == 7 by {
      assert "007"[..2] == "00" && "00"[..1] == "0" && "0"[..0] == "";
    }
    assert DecimalValue("7") == 7 by {
      assert "7"[..0] == "";
    }
  }

  // ------------------------------------------------------------ field paths

  /** The value at a dotted path (`["responseBody", "itemId"]` for
      `responseBody.itemId`): nothing when a key is missing or a step meets
      something other than an embedded document. */
  function PathValue(v: Json, path: seq<string>): (r: Option<Json>)
    ensures |path| == 0 ==> r == Some(v)
    ensures |path| > 0 && r.Some? ==> v.JObj? && HasKey(v.fields, path[0])
    decreases |path|
  {
    if |path| == 0 then Some(v)
    else match v
      case JObj(fs) =>
        (match Get(fs, path[0])
         case Some(x) => PathValue(x, path[1..])
         case None => None)
      case _ => None
  }

  /** The `.get` chain `v.get(p0, {}).get(p1, {})...get(pn)`: every step but
      the last defaults to `{}`, the last to `None`; a step on a value that
      is not a dict (including a stored `None`) raises AttributeError. */
  function GetChain(v: Json, path: seq<string>): (r: Result<Json>)
    requires |path| > 0
    decreases |path|
  {
    var x :- PyGet(v, path[0], if |path| == 1 then JNull else JObj([]));
    if |path| == 1 then Ok(x) else GetChain(x, path[1..])
  }

  /** Some step of the chain meets a value that is not a dict (a stored
      `None` included): a proper prefix of the path reaches it. */
  ghost predicate NonDictStep(v: Json, path: seq<string>)
  {
    exists i :: 0 <= i < |path| && PathValue(v, path[..i]).Some? && !PathValue(v, path[..i]).value.JObj?
  }

  /** A `.get` chain reads the path, `None` standing for a missing key; it
      raises, and then only AttributeError, exactly when some step meets a
      value that is not a dict. A document lacking the first key reads
      `None`. */
  lemma {:induction false} GetChainReadsPath(v: Json, path: seq<string>)
    requires |path| > 0
    ensures PathValue(v, path).Some? ==> GetChain(v, path) == Ok(PathValue(v, path).value)
    ensures GetChain(v, path).Ok? && PathValue(v, path).None? ==> GetChain(v, path) == Ok(JNull)
    ensures GetChain(v, path).Raised? ==> GetChain(v, path).exc.AttributeError?
    ensures GetChain(v, path).Raised? <==> NonDictStep(v, path)
    ensures v.JObj? && !HasKey(v.fields, path[0]) ==> GetChain(v, path) == Ok(JNull)
    decreases |path|
  {
    if !v.JObj? {
      assert path[..0] == [];
    } else {
      NotNonDictAtRoot(v, path);
      if |path| > 1 {
        match Get(v.fields, path[0])
        case Some(x) =>
          GetChainReadsPath(x, path[1..]);
          NonDictStepTail(v, path, x);
        case None =>
          GetChainOnEmpty(path[1..]);
          NoStepPastMissing(v, path);
      }
    }
  }

  /** PathValue one key deeper: the first step reads `path[0]` of the dict. */
  lemma PathValueStep(v: Json, path: seq<string>, i: nat)
    requires v.JObj? && i < |path|
    ensures PathValue(v, path[..i + 1]) ==
      match Get(v.fields, path[0])
      case Some(x) => PathValue(x, path[1..][..i])
      case None => None
  {
    var s := path[..i + 1];
    assert s[0] == path[0];
    assert s[1..] == path[1..][..i];
  }

  /** The root of a chain on a dict is not a non-dict step. */
  lemma NotNonDictAtRoot(v: Json, path: seq<string>)
    requires v.JObj? && |path| > 0
    ensures PathValue(v, path[..0]) == Some(v)
  {
    assert path[..0] == [];
  }

  /** Below a present key the non-dict steps are those of the tail. */
  lemma NonDictStepTail(v: Json, path: seq<string>, x: Json)
    requires v.JObj? && |path| > 1 && Get(v.fields, path[0]) == Some(x)
    ensures NonDictStep(v, path) <==> NonDictStep(x, path[1..])
  {
    NotNonDictAtRoot(v, path);
    if NonDictStep(v, path) {
      var i :| 0 <= i < |path| && PathValue(v, path[..i]).Some? && !PathValue(v, path[..i]).value.JObj?;
      PathValueStep(v, path, i - 1);
    }
    if NonDictStep(x, path[1..]) {
      var i :| 0 <= i < |path[1..]| && PathValue(x, path[1..][..i]).Some? && !PathValue(x, path[1..][..i]).value.JObj?;
      PathValueStep(v, path, i);
    }
  }

  /** Past a missing key nothing is read, so no step is a non-dict. */
  lemma NoStepPastMissing(v: Json, path: seq<string>)
    requires v.JObj? && |path| > 0 && Get(v.fields, path[0]).None?
    ensures !NonDictStep(v, path)
  {
    NotNonDictAtRoot(v, path);
    forall i | 1 <= i < |path| ensures PathValue(v, path[..i]).None? {
      PathValueStep(v, path, i - 1);
    }
  }

  /** Past a missing key the chain runs on `{}` and yields `None`. */
  lemma {:induction false} GetChainOnEmpty(path: seq<string>)
    requires |path| > 0
    ensures GetChain(JObj([]), path) == Ok(JNull)
    decreases |path|
  {
    if |path| > 1 {
      GetChainOnEmpty(path[1..]);
    }
  }

  // --------------------------------------------------------------- find_one

  /** Where each marketplace's capture keeps the product id. */
  function IdPath(p: Platform): (path: seq<string>)
    ensures |path| > 0
  {
    match p
    case Lazada => [BodyKey, "itemId"]
    case Shopee => [BodyKey, "data", "item", "item_id"]
    case Tiki => ["id"]
  }


  /** `doc` satisfies the query `{path: q}` (equality on the path value). */
  predicate Matches(doc: Doc, path: seq<string>, q: Json)
  {
    PathValue(JObj(doc), path) == Some(q)
  }

  /** Index of the first document at or after `from` that matches. */
  function FindFrom(c: Collection, path: seq<string>, q: Json, from: nat): (r: Option<nat>)
    requires from <= |c|
    ensures r.Some? ==> from <= r.value < |c| && Matches(c[r.value], path, q)
    ensures r.Some? ==> forall j :: from <= j < r.value ==> !Matches(c[j], path, q)
    ensures r.None? ==> forall j :: from <= j < |c| ==> !Matches(c[j], path, q)
    decreases |c| - from
  {
    if from == |c| then None
    else if Matches(c[from], path, q) then Some(from)
    else FindFrom(c, path, q, from + 1)
  }

  /** `find_one({path: q})`: the first document in natural order that
      matches, or nothing. */
  function FindOne(c: Collection, path: seq<string>, q: Json): (r: Option<Doc>)
    ensures r.Some? ==>
      exists i :: 0 <= i < |c| && c[i] == r.value && Matches(c[i], path, q) &&
        forall j :: 0 <= j < i ==> !Matches(c[j], path, q)
    ensures r.None? ==> forall i :: 0 <= i < |c| ==> !Matches(c[i], path, q)
  {
    match FindFrom(c, path, q, 0)
    case Some(i) => Some(c[i])
    case None => None
  }
}

/** JSON documents as stored in MongoDB and handled by the Python code.

    An object is an ORDERED sequence of fields, as a Python dict is; Python
    dicts never repeat a key, which `Distinct` states. `Put`, `Remove`,
    `Update` and `AddMissing` are the dict operations the normalisers use:
    `d[k] = v`, `del d[k]`, `d.update(e)` / `{**d, **e}`, and the
    "add only the keys not yet present" loop. */
module Json {
  import opened Common
  import opened Text

  datatype Json =
    | JNull
    | JBool(b: bool)
    | JInt(i: int)
    | JReal(r: real)
    | JStr(s: string)
    | JOid(hex: string)          // a BSON ObjectId, by its hex rendering
    | JArr(items: seq<Json>)
    | JObj(fields: seq<Field>)

  datatype Field = Field(key: string, val: Json)

  // ---------------------------------------------------------------- objects

  /** Value of the first field named `k` (dict lookup). */
  function Get(fs: seq<Field>, k: string): Option<Json>
  {
    if |fs| == 0 then None
    else if fs[0].key == k then Some(fs[0].val)
    else Get(fs[1..], k)
  }

  predicate HasKey(fs: seq<Field>, k: string) { Get(fs, k).Some? }

  function Keys(fs: seq<Field>): seq<string>
  {
    if |fs| == 0 then [] else [fs[0].key] + Keys(fs[1..])
  }

  /** No key occurs twice: every Python dict satisfies this. */
  predicate Distinct(fs: seq<Field>)
  {
    forall i, j :: 0 <= i < j < |fs| ==> fs[i].key != fs[j].key
  }

  lemma {:induction false} HasKeyIndex(fs: seq<Field>, k: string)
    ensures HasKey(fs, k) <==> exists i :: 0 <= i < |fs| && fs[i].key == k
  {
    if |fs| > 0 {
      HasKeyIndex(fs[1..], k);
      if HasKey(fs[1..], k) {
        var i :| 0 <= i < |fs[1..]| && fs[1..][i].key == k;
        assert fs[i + 1].key == k;
      }
      if !HasKey(fs, k) {
        forall i | 0 <= i < |fs| ensures fs[i].key != k {
          if i > 0 { assert fs[1..][i - 1] == fs[i]; }
        }
      }
    }
  }

  /** `d[k] = v`: overwrite in place when `k` is present, else append. */
  function Put(fs: seq<Field>, k: string, v: Json): (r: seq<Field>)
    ensures Get(r, k) == Some(v)
    ensures forall k' :: k' != k ==> Get(r, k') == Get(fs, k')
    ensures HasKey(fs, k) ==> Keys(r) == Keys(fs)
    ensures !HasKey(fs, k) ==> Keys(r) == Keys(fs) + [k]
  {
    if |fs| == 0 then [Field(k, v)]
    else if fs[0].key == k then [Field(k, v)] + fs[1..]
    else [fs[0]] + Put(fs[1..], k, v)
  }

  /** `del d[k]` (every field named `k` goes). */
  function Remove(fs: seq<Field>, k: string): (r: seq<Field>)
    ensures Get(r, k) == None
    ensures forall k' :: k' != k ==> Get(r, k') == Get(fs, k')
    ensures |r| <= |fs|
  {
    if |fs| == 0 then []
    else if fs[0].key == k then Remove(fs[1..], k)
    else [fs[0]] + Remove(fs[1..], k)
  }

  /** `d.update(e)`, and `{**d, **e}` for a dict `d`: fields of `e` are
      assigned one after the other, so on a shared key `e`'s value wins. */
  function Update(fs: seq<Field>, gs: seq<Field>): seq<Field>
    decreases |gs|
  {
    if |gs| == 0 then fs else Update(Put(fs, gs[0].key, gs[0].val), gs[1..])
  }

  /** `for k, v in e.items(): if k not in d: d[k] = v` — on a shared key
      `d`'s value wins. */
  function AddMissing(fs: seq<Field>, gs: seq<Field>): seq<Field>
    decreases |gs|
  {
    if |gs| == 0 then fs
    else if HasKey(fs, gs[0].key) then AddMissing(fs, gs[1..])
    else AddMissing(fs + [gs[0]], gs[1..])
  }

  /** `v[k]` with a string key: the value, `KeyError` on a dict without `k`,
      `TypeError` on anything that is not a dict. */
  function Subscript(v: Json, k: string): (r: Result<Json>)
    ensures r.Ok? <==> v.JObj? && HasKey(v.fields, k)
    ensures r.Ok? ==> Get(v.fields, k) == Some(r.value)
    ensures r.Raised? ==> if v.JObj? then r.exc == KeyError(k) else r.exc.TypeError?
  {
    match v
    case JObj(fs) =>
      (match Get(fs, k)
       case Some(x) => Ok(x)
       case None => Raised(KeyError(k)))
    case _ => Raised(TypeError("string index into a non-dict"))
  }

  /** `v[k] = x`: only a dict accepts it. */
  function SetKey(v: Json, k: string, x: Json): (r: Result<Json>)
    ensures r.Ok? <==> v.JObj?
    ensures r.Ok? ==> r.value.JObj? && Get(r.value.fields, k) == Some(x)
    ensures r.Ok? ==> forall k' :: k' != k ==> Get(r.value.fields, k') == Get(v.fields, k')
    ensures r.Raised? ==> r.exc.TypeError?
  {
    match v
    case JObj(fs) => Ok(JObj(Put(fs, k, x)))
    case _ => Raised(TypeError("item assignment on a non-dict"))
  }

  /** `v.get(k, dflt)`: the value, or `dflt` when `k` is missing; only a
      dict has `.get`. */
  function PyGet(v: Json, k: string, dflt: Json): (r: Result<Json>)
    ensures r.Ok? <==> v.JObj?
    ensures r.Ok? && HasKey(v.fields, k) ==> Get(v.fields, k) == Some(r.value)
    ensures r.Ok? && !HasKey(v.fields, k) ==> r.value == dflt
    ensures r.Raised? ==> r.exc.AttributeError?
  {
    match v
    case JObj(fs) =>
      (match Get(fs, k)
       case Some(x) => Ok(x)
       case None => Ok(dflt))
    case _ => Raised(AttributeError("'.get' on a non-dict"))
  }

  /** Python's `str(v)`: exact for None, booleans, integers, strings and
      ObjectIds (`str(ObjectId)` is its hex form); `reprOf` stands for the
      rendering of floats, lists and dicts. */
  function Str(v: Json, reprOf: Json -> string): (r: string)
    ensures v.JInt? && v.i >= 0 ==> IsDigitString(r) && DecimalValue(r) == v.i
    ensures v.JStr? ==> r == v.s
    ensures v.JOid? ==> r == v.hex
  {
    match v
    case JNull => "None"
    case JBool(b) => if b then "True" else "False"
    case JInt(i) => if i >= 0 then DecimalOfShowNat(i); ShowInt(i) else ShowInt(i)
    case JStr(s) => s
    case JOid(h) => h
    case _ => reprOf(v)
  }

  /** The key under which a capture keeps the marketplace's own response. */
  const BodyKey := "responseBody"

  /** Every object, at every depth, has distinct keys: true of every value
      Python's json module or MongoDB hands over. */
  predicate DeepDistinct(v: Json)
    decreases v
  {
    match v
    case JArr(xs) => forall i :: 0 <= i < |xs| ==> DeepDistinct(xs[i])
    case JObj(fs) => Distinct(fs) && forall i :: 0 <= i < |fs| ==> DeepDistinct(fs[i].val)
    case _ => true
  }

  /** A looked-up value is the value of one of the fields. */
  lemma {:induction false} GetIn(fs: seq<Field>, k: string)
    requires HasKey(fs, k)
    ensures exists i :: 0 <= i < |fs| && fs[i].key == k && fs[i].val == Get(fs, k).value
  {
    if fs[0].key != k {
      GetIn(fs[1..], k);
      var i :| 0 <= i < |fs[1..]| && fs[1..][i].key == k && fs[1..][i].val == Get(fs[1..], k).value;
      assert fs[i + 1].key == k;
    } else {
      assert fs[0].key == k;
    }
  }

  /** Inside a deeply distinct object, a looked-up object is deeply distinct. */
  lemma GetDeepDistinct(fs: seq<Field>, k: string)
    requires DeepDistinct(JObj(fs)) && HasKey(fs, k)
    ensures DeepDistinct(Get(fs, k).value)
  {
    GetIn(fs, k);
  }

  lemma GetAppend(fs: seq<Field>, f: Field, k: string)
    ensures Get(fs + [f], k) == if HasKey(fs, k) then Get(fs, k) else if f.key == k then Some(f.val) else None
  {
    if |fs| > 0 {
      assert (fs + [f])[1..] == fs[1..] + [f];
      GetAppend(fs[1..], f, k);
    }
  }

  /** In `d.update(e)` the later dict wins every shared key; keys of
      neither stay absent. */
  lemma {:induction false} GetUpdate(fs: seq<Field>, gs: seq<Field>, k: string)
    requires Distinct(gs)
    ensures Get(Update(fs, gs), k) == if HasKey(gs, k) then Get(gs, k) else Get(fs, k)
    decreases |gs|
  {
    if |gs| > 0 {
      DistinctTail(gs);
      GetUpdate(Put(fs, gs[0].key, gs[0].val), gs[1..], k);
    }
  }

  /** The tail of a dict is a dict that lacks the head's key. */
  lemma DistinctTail(fs: seq<Field>)
    requires |fs| > 0 && Distinct(fs)
    ensures Distinct(fs[1..])
    ensures !HasKey(fs[1..], fs[0].key)
  {
    var rest := fs[1..];
    forall i, j | 0 <= i < j < |rest| ensures rest[i].key != rest[j].key {
      assert rest[i] == fs[i + 1] && rest[j] == fs[j + 1];
    }
    forall i | 0 <= i < |rest| ensures rest[i].key != fs[0].key {
      assert rest[i] == fs[i + 1];
    }
    HasKeyIndex(rest, fs[0].key);
  }

  /** In the "add missing keys" loop the first dict wins every shared key. */
  lemma {:induction false} GetAddMissing(fs: seq<Field>, gs: seq<Field>, k: string)
    ensures Get(AddMissing(fs, gs), k) == if HasKey(fs, k) then Get(fs, k) else Get(gs, k)
    decreases |gs|
  {
    if |gs| > 0 {
      if HasKey(fs, gs[0].key) {
        GetAddMissing(fs, gs[1..], k);
      } else {
        GetAppend(fs, gs[0], k);
        GetAddMissing(fs + [gs[0]], gs[1..], k);
      }
    }
  }

  lemma {:induction false} DistinctPut(fs: seq<Field>, k: string, v: Json)
    requires Distinct(fs)
    ensures Distinct(Put(fs, k, v))
  {
    if |fs| > 0 {
      DistinctTail(fs);
      if fs[0].key != k {
        DistinctPut(fs[1..], k, v);
        var r := Put(fs[1..], k, v);
        assert !HasKey(r, fs[0].key);
        HasKeyIndex(r, fs[0].key);
        DistinctCons(fs[0], r);
      } else {
        DistinctCons(Field(k, v), fs[1..]);
      }
    }
  }

  /** Prepending a field whose key the dict lacks keeps it a dict. */
  lemma DistinctCons(f: Field, fs: seq<Field>)
    requires Distinct(fs) && !HasKey(fs, f.key)
    ensures Distinct([f] + fs)
  {
    HasKeyIndex(fs, f.key);
    var s := [f] + fs;
    forall i, j | 0 <= i < j < |s| ensures s[i].key != s[j].key {
      assert s[j] == fs[j - 1];
      if i > 0 { assert s[i] == fs[i - 1]; }
    }
  }

  lemma {:induction false} DistinctRemove(fs: seq<Field>, k: string)
    requires Distinct(fs)
    ensures Distinct(Remove(fs, k))
  {
    if |fs| > 0 {
      DistinctTail(fs);
      DistinctRemove(fs[1..], k);
      if fs[0].key != k {
        var r := Remove(fs[1..], k);
        assert !HasKey(r, fs[0].key);
        DistinctCons(fs[0], r);
      }
    }
  }

  lemma {:induction false} DistinctUpdate(fs: seq<Field>, gs: seq<Field>)
    requires Distinct(fs)
    ensures Distinct(Update(fs, gs))
    decreases |gs|
  {
    if |gs| > 0 {
      DistinctPut(fs, gs[0].key, gs[0].val);
      DistinctUpdate(Put(fs, gs[0].key, gs[0].val), gs[1..]);
    }
  }

  lemma {:induction false} DistinctAddMissing(fs: seq<Field>, gs: seq<Field>)
    requires Distinct(fs)
    ensures Distinct(AddMissing(fs, gs))
    decreases |gs|
  {
    if |gs| > 0 {
      if HasKey(fs, gs[0].key) {
        DistinctAddMissing(fs, gs[1..]);
      } else {
        var s := fs + [gs[0]];
        HasKeyIndex(fs, gs[0].key);
        forall i, j | 0 <= i < j < |s| ensures s[i].key != s[j].key {
          if j == |fs| { assert s[i] == fs[i]; }
        }
        DistinctAddMissing(s, gs[1..]);
      }
    }
  }

  // ------------------------------------------------------- ObjectId -> str

  /** No ObjectId anywhere inside `v`. */
  predicate NoOid(v: Json)
    decreases v
  {
    match v
    case JOid(_) => false
    case JArr(xs) => forall i :: 0 <= i < |xs| ==> NoOid(xs[i])
    case JObj(fs) => forall i :: 0 <= i < |fs| ==> NoOid(fs[i].val)
    case _ => true
  }

  /** `json.loads(json.dumps(v, cls=JSONEncoder))` where the encoder renders
      every ObjectId, at any depth, as its string. */
  function Stringify(v: Json): Json
    decreases v
  {
    match v
    case JOid(h) => JStr(h)
    case JArr(xs) => JArr(seq(|xs|, i requires 0 <= i < |xs| => Stringify(xs[i])))
    case JObj(fs) => JObj(seq(|fs|, i requires 0 <= i < |fs| => Field(fs[i].key, Stringify(fs[i].val))))
    case _ => v
  }

  function StringifyFields(fs: seq<Field>): (r: seq<Field>)
    ensures JObj(r) == Stringify(JObj(fs))
  {
    seq(|fs|, i requires 0 <= i < |fs| => Field(fs[i].key, Stringify(fs[i].val)))
  }

  lemma {:induction false} StringifyRemovesOids(v: Json)
    ensures NoOid(Stringify(v))
    decreases v
  {
    match v
    case JArr(xs) =>
      forall i | 0 <= i < |xs| { StringifyRemovesOids(xs[i]); }
    case JObj(fs) =>
      forall i | 0 <= i < |fs| { StringifyRemovesOids(fs[i].val); }
    case _ =>
  }

  /** A value without ObjectIds survives the dump/load round trip unchanged. */
  lemma {:induction false} StringifyIdentity(v: Json)
    requires NoOid(v)
    ensures Stringify(v) == v
    decreases v
  {
    match v
    case JArr(xs) =>
      forall i | 0 <= i < |xs| ensures Stringify(xs[i]) == xs[i] { StringifyIdentity(xs[i]); }
    case JObj(fs) =>
      forall i | 0 <= i < |fs| ensures Stringify(fs[i].val) == fs[i].val { StringifyIdentity(fs[i].val); }
      assert StringifyFields(fs) == fs;
    case _ =>
  }

  lemma StringifyIdempotent(v: Json)
    ensures Stringify(Stringify(v)) == Stringify(v)
  {
    StringifyRemovesOids(v);
    StringifyIdentity(Stringify(v));
  }

  /** Lookup commutes with stringifying: keys stay, values are stringified. */
  lemma {:induction false} GetStringifyFields(fs: seq<Field>, k: string)
    ensures Get(StringifyFields(fs), k) ==
            (if HasKey(fs, k) then Some(Stringify(Get(fs, k).value)) else None)
    ensures Keys(StringifyFields(fs)) == Keys(fs)
  {
    if |fs| > 0 {
      assert StringifyFields(fs)[1..] == StringifyFields(fs[1..]);
      GetStringifyFields(fs[1..], k);
    }
  }

  lemma DistinctStringifyFields(fs: seq<Field>)
    requires Distinct(fs)
    ensures Distinct(StringifyFields(fs))
  {
  }

  /** `str(x) if isinstance(x, ObjectId) else x`. */
  function OidToStr(v: Json): Json
  {
    if v.JOid? then JStr(v.hex) else v
  }

  /** One value of `serialize_mongo_document`: an ObjectId, the ObjectIds
      directly inside a list, and the ObjectIds directly inside a dict are
      rendered; anything deeper is left alone. */
  function ShallowStringify(v: Json): Json
  {
    match v
    case JOid(h) => JStr(h)
    case JArr(xs) => JArr(seq(|xs|, i requires 0 <= i < |xs| => OidToStr(xs[i])))
    case JObj(fs) => JObj(seq(|fs|, i requires 0 <= i < |fs| => Field(fs[i].key, OidToStr(fs[i].val))))
    case _ => v
  }

  /** The shallow pass is a first step of the deep one: finishing it with the
      deep pass gives what the deep pass gives. */
  lemma ShallowThenDeep(v: Json)
    ensures Stringify(ShallowStringify(v)) == Stringify(v)
  {
    match v
    case JArr(xs) =>
      var ys := seq(|xs|, i requires 0 <= i < |xs| => OidToStr(xs[i]));
      forall i | 0 <= i < |xs| ensures Stringify(ys[i]) == Stringify(xs[i]) { }
    case JObj(fs) =>
      var gs := seq(|fs|, i requires 0 <= i < |fs| => Field(fs[i].key, OidToStr(fs[i].val)));
      forall i | 0 <= i < |fs| ensures Stringify(gs[i].val) == Stringify(fs[i].val) { }
      assert StringifyFields(gs) == StringifyFields(fs);
    case _ =>
  }

  /** The shallow pass leaves ObjectId-free values alone. */
  lemma ShallowIdentity(v: Json)
    requires NoOid(v)
    ensures ShallowStringify(v) == v
  {
    match v
    case JArr(xs) =>
      assert forall i :: 0 <= i < |xs| ==> OidToStr(xs[i]) == xs[i];
    case JObj(fs) =>
      assert forall i :: 0 <= i < |fs| ==> OidToStr(fs[i].val) == fs[i].val;
    case _ =>
  }

  /** An ObjectId two containers deep is not reached by the shallow pass. */
  lemma ShallowMissesDepthTwo()
    ensures ShallowStringify(JArr([JArr([JOid("ab")])])) == JArr([JArr([JOid("ab")])])
    ensures Stringify(JArr([JArr([JOid("ab")])])) == JArr([JArr([JStr("ab")])])
  {
    var inner := JArr([JOid("ab")]);
    assert Stringify(inner) == JArr([JStr("ab")]);
  }
}

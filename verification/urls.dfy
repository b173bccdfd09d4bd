/** The URL classifier of tiki.py (`parse_url`).

    Each regular expression of the source is given twice: as a declarative
    "split" predicate over string indices (the pattern matches exactly when
    such a split exists) and as an explicit left-to-right scanner; lemmas
    prove the two agree. Regex conventions follow Python's `re`: `.` matches
    any character but a newline, `$` matches at the end or just before a final
    newline, `re.match` is anchored at the start, `re.search` and
    `re.findall` take the leftmost match, and greedy quantifiers prefer the
    longest alternative. */
module Urls {
  import opened Common
  import opened Text

  // ------------------------------------------------ `name(\d+)` by re.search

  /** `name` followed by at least one digit starts at `i`. */
  predicate ParamAt(s: string, i: nat, name: string)
  {
    LitAt(s, i, name) && i + |name| < |s| && IsDigit(s[i + |name|])
  }

  /** Leftmost `j >= i` at which `ParamAt` holds. */
  function FindParamFrom(s: string, name: string, i: nat): (r: Option<nat>)
    requires i <= |s|
    ensures r.Some? ==> i <= r.value < |s| && ParamAt(s, r.value, name)
    ensures r.Some? ==> forall j :: i <= j < r.value ==> !ParamAt(s, j, name)
    ensures r.None? ==> forall j :: i <= j ==> !ParamAt(s, j, name)
    decreases |s| - i
  {
    if i == |s| then None
    else if ParamAt(s, i, name) then Some(i)
    else FindParamFrom(s, name, i + 1)
  }

  /** The regex `name(\d+)` matches at `j` with group `s[j+|name|..j+|name|+n]`. */
  ghost predicate ParamSplit(s: string, name: string, j: nat, n: nat)
  {
    LitAt(s, j, name) && n >= 1 && j + |name| + n <= |s| && DigitsIn(s, j + |name|, j + |name| + n)
  }

  /** `re.search(name + r'(\d+)', s).group(1)`, or None when it finds nothing. */
  function SearchParam(s: string, name: string): (r: Option<string>)
    ensures r.Some? ==> IsDigitString(r.value)
  {
    match FindParamFrom(s, name, 0)
    case None => None
    case Some(j) =>
      var n := DigitRun(s, j + |name|);
      DigitsInSlice(s, j + |name|, j + |name| + n);
      Some(s[j + |name|..j + |name| + n])
  }

  /** SearchParam is re.search: it fails exactly when no split exists, and
      otherwise returns the group of the leftmost split, with the digit run
      taken as long as possible. */
  lemma SearchParamSpec(s: string, name: string)
    ensures SearchParam(s, name).None? <==> forall j: nat, n: nat :: !ParamSplit(s, name, j, n)
    ensures SearchParam(s, name).Some? ==>
      exists j: nat, n: nat :: ParamSplit(s, name, j, n) && SearchParam(s, name).value == s[j + |name|..j + |name| + n]
        && (forall j': nat, n': nat :: ParamSplit(s, name, j', n') ==> j <= j' && (j == j' ==> n' <= n))
  {
    forall j, n | ParamSplit(s, name, j, n) ensures ParamAt(s, j, name) { }
    match FindParamFrom(s, name, 0)
    case None =>
    case Some(j) =>
      var n := DigitRun(s, j + |name|);
      assert ParamSplit(s, name, j, n);
      forall j', n' | ParamSplit(s, name, j', n') ensures j <= j' && (j == j' ==> n' <= n) {
        if j == j' { DigitRunUnique(s, j + |name|, j + |name| + n'); }
      }
  }

  // -------------------------------------------------- rule 1: Shopee API URL

  const ShopeePrefix := "https://shopee.vn/api/v4/pdp/hot_sales/get"

  /** `^https://shopee\.vn/api/v4/pdp/hot_sales/get.*item_id=\d+.*shop_id=\d+`
      matches `url` with `item_id=` at `i` followed by `a` digits, and
      `shop_id=` at `j` followed by `b` digits. */
  ghost predicate ShopeeApiSplit(url: string, i: nat, a: nat, j: nat, b: nat)
  {
    && LitAt(url, 0, ShopeePrefix)
    && |ShopeePrefix| <= i && i + 8 + a <= j && j + 8 + b <= |url|
    && NoNewlineIn(url, |ShopeePrefix|, i)
    && LitAt(url, i, "item_id=") && a >= 1 && DigitsIn(url, i + 8, i + 8 + a)
    && NoNewlineIn(url, i + 8 + a, j)
    && LitAt(url, j, "shop_id=") && b >= 1 && DigitsIn(url, j + 8, j + 8 + b)
  }

  ghost predicate ShopeeApiMatches(url: string)
  {
    exists i: nat, a: nat, j: nat, b: nat :: ShopeeApiSplit(url, i, a, j, b)
  }

  /** Scanner: take the first `item_id=<digit>` after the prefix, then the
      first `shop_id=<digit>` after its first digit, both on the first line. */
  function ShopeeApiScan(url: string): bool
  {
    && LitAt(url, 0, ShopeePrefix)
    && match FindParamFrom(url, "item_id=", |ShopeePrefix|)
       case None => false
       case Some(i) =>
         && NoNewlineIn(url, |ShopeePrefix|, i)
         && match FindParamFrom(url, "shop_id=", i + 9)
            case None => false
            case Some(j) => NoNewlineIn(url, i, j)
  }

  lemma ShopeeApiScanSpec(url: string)
    ensures ShopeeApiScan(url) <==> ShopeeApiMatches(url)
  {
    if ShopeeApiScan(url) {
      ShopeeApiScanSplits(url);
    }
    if ShopeeApiMatches(url) {
      var i', a', j', b' :| ShopeeApiSplit(url, i', a', j', b');
      ShopeeApiSplitScans(url, i', a', j', b');
    }
  }

  lemma ShopeeApiScanSplits(url: string)
    requires ShopeeApiScan(url)
    ensures ShopeeApiMatches(url)
  {
    assert LitAt(url, 0, ShopeePrefix);
    var oi := FindParamFrom(url, "item_id=", |ShopeePrefix|);
    var i := oi.value;
    assert ParamAt(url, i, "item_id=") && NoNewlineIn(url, |ShopeePrefix|, i);
    var oj := FindParamFrom(url, "shop_id=", i + 9);
    var j := oj.value;
    assert ParamAt(url, j, "shop_id=") && NoNewlineIn(url, i, j);
    assert DigitsIn(url, i + 8, i + 9) && DigitsIn(url, j + 8, j + 9);
    assert NoNewlineIn(url, i + 9, j);
    assert ShopeeApiSplit(url, i, 1, j, 1);
  }

  lemma ShopeeApiSplitScans(url: string, i': nat, a': nat, j': nat, b': nat)
    requires ShopeeApiSplit(url, i', a', j', b')
    ensures ShopeeApiScan(url)
  {
    assert ParamAt(url, i', "item_id=");
    assert ParamAt(url, j', "shop_id=");
    var i := FindParamFrom(url, "item_id=", |ShopeePrefix|).value;
    var j := FindParamFrom(url, "shop_id=", i + 9).value;
    assert j <= j';
    forall k | i <= k < j ensures url[k] != '\n' {
      if k < i' {
      } else if k < i' + 8 {
        LitAtChar(url, i', "item_id=", k - i');
      } else if k < i' + 8 + a' {
      } else {
      }
    }
  }

  // ------------------------------------------------- rule 2: Tiki product page

  /** `$` may match at index `e`: the end, or just before a final newline. */
  predicate AtEnd(url: string, e: nat)
  {
    e == |url| || (e + 1 == |url| && url[e] == '\n')
  }

  /** `^https:\/\/tiki.vn\/.*\d+.html.*spid=\d+$` matches `url`: the `\d+`
      before `.html` covers `url[k..k+n]`, `spid=` sits at `m` and the final
      `\d+` covers `t` digits. Both unescaped dots match any character but a
      newline. */
  ghost predicate TikiPageSplit(url: string, k: nat, n: nat, m: nat, t: nat)
  {
    && LitAt(url, 0, "https://tiki") && |url| > 16 && url[12] != '\n' && LitAt(url, 13, "vn/")
    && 16 <= k && n >= 1 && k + n + 5 <= m && m + 5 + t <= |url|
    && NoNewlineIn(url, 16, k)
    && DigitsIn(url, k, k + n) && url[k + n] != '\n' && LitAt(url, k + n + 1, "html")
    && NoNewlineIn(url, k + n + 5, m)
    && LitAt(url, m, "spid=") && t >= 1 && DigitsIn(url, m + 5, m + 5 + t)
    && AtEnd(url, m + 5 + t)
  }

  ghost predicate TikiPageMatches(url: string)
  {
    exists k: nat, n: nat, m: nat, t: nat :: TikiPageSplit(url, k, n, m, t)
  }

  /** Where `$` has to match: before a final newline if there is one. */
  function MatchEnd(url: string): (e: nat)
    ensures e <= |url| && AtEnd(url, e)
  {
    if |url| > 0 && url[|url| - 1] == '\n' then |url| - 1 else |url|
  }

  /** A digit at `k` followed, one character later, by `html`. */
  predicate DigitHtmlAt(s: string, k: nat)
  {
    k < |s| && IsDigit(s[k]) && LitAt(s, k + 2, "html")
  }

  function FindDigitHtmlFrom(s: string, i: nat): (r: Option<nat>)
    requires i <= |s|
    ensures r.Some? ==> i <= r.value < |s| && DigitHtmlAt(s, r.value)
    ensures r.Some? ==> forall k :: i <= k < r.value ==> !DigitHtmlAt(s, k)
    ensures r.None? ==> forall k :: i <= k ==> !DigitHtmlAt(s, k)
    decreases |s| - i
  {
    if i == |s| then None
    else if DigitHtmlAt(s, i) then Some(i)
    else FindDigitHtmlFrom(s, i + 1)
  }

  /** Index of the `spid=` the anchored tail `spid=\d+$` would use. */
  function SpidTail(url: string): (m: int)
  {
    MatchEnd(url) - TrailingDigits(url[..MatchEnd(url)]) - 5
  }

  /** Scanner: the matched stretch ends at `MatchEnd` and holds no newline;
      the final `spid=` is fixed by the trailing digits; some digit followed
      by one character and `html` must end before it. */
  function TikiPageScan(url: string): bool
  {
    var e := MatchEnd(url);
    var m := SpidTail(url);
    && LitAt(url, 0, "https://tiki") && |url| > 16 && LitAt(url, 13, "vn/")
    && NoNewlineIn(url, 0, e)
    && TrailingDigits(url[..e]) >= 1 && m >= 16 && LitAt(url, m, "spid=")
    && match FindDigitHtmlFrom(url, 16)
       case None => false
       case Some(k) => k + 6 <= m
  }

  lemma TikiPageScanSpec(url: string)
    ensures TikiPageScan(url) <==> TikiPageMatches(url)
  {
    if TikiPageScan(url) {
      TikiPageScanSplits(url);
    }
    if TikiPageMatches(url) {
      var k, n, m, t :| TikiPageSplit(url, k, n, m, t);
      TikiPageSplitScans(url, k, n, m, t);
    }
  }

  lemma TikiPageScanSplits(url: string)
    requires TikiPageScan(url)
    ensures TikiPageMatches(url)
  {
    var e := MatchEnd(url);
    var m := SpidTail(url);
    var t := TrailingDigits(url[..e]);
    var k := FindDigitHtmlFrom(url, 16).value;
    LitAtChar(url, 0, "https://tiki", 0);
    assert url[12] != '\n';
    forall x | m + 5 <= x < m + 5 + t ensures IsDigit(url[x]) {
      assert url[..e][|url[..e]| - t..][x - (m + 5)] == url[x];
    }
    assert TikiPageSplit(url, k, 1, m, t);
  }

  /** The whole matched stretch of a split is free of newlines. */
  lemma TikiSplitNoNewline(url: string, k: nat, n: nat, m: nat, t: nat)
    requires TikiPageSplit(url, k, n, m, t)
    ensures NoNewlineIn(url, 0, m + 5 + t)
  {
    forall x | 0 <= x < m + 5 + t ensures url[x] != '\n' {
      if x < 12 {
        LitAtChar(url, 0, "https://tiki", x);
      } else if x == 12 {
      } else if x < 16 {
        LitAtChar(url, 13, "vn/", x - 13);
      } else if x < k + n + 1 {
      } else if x < k + n + 5 {
        LitAtChar(url, k + n + 1, "html", x - (k + n + 1));
      } else if x < m {
      } else if x < m + 5 {
        LitAtChar(url, m, "spid=", x - m);
      }
    }
  }

  /** A split ends where `MatchEnd` says and its `spid=` is the final one. */
  lemma TikiSplitTail(url: string, k: nat, n: nat, m: nat, t: nat)
    requires TikiPageSplit(url, k, n, m, t)
    ensures m + 5 + t == MatchEnd(url)
    ensures t == TrailingDigits(url[..MatchEnd(url)]) && m == SpidTail(url)
  {
    TikiSplitNoNewline(url, k, n, m, t);
    var e := m + 5 + t;
    var body := url[..e];
    LitAtChar(url, m, "spid=", 4);
    var tail := body[m + 5..];
    forall x | 0 <= x < |tail| ensures IsDigit(tail[x]) {
      assert tail[x] == url[m + 5 + x];
    }
    TrailingDigitsUnique(body, m + 5);
  }

  lemma TikiPageSplitScans(url: string, k: nat, n: nat, m: nat, t: nat)
    requires TikiPageSplit(url, k, n, m, t)
    ensures TikiPageScan(url)
  {
    TikiSplitTail(url, k, n, m, t);
    TikiSplitNoNewline(url, k, n, m, t);
    var e := MatchEnd(url);
    assert NoNewlineIn(url, 0, e);
    assert TrailingDigits(url[..e]) >= 1 && m >= 16 && LitAt(url, m, "spid=");
    assert DigitHtmlAt(url, k + n - 1);
    var k' := FindDigitHtmlFrom(url, 16).value;
    assert k' <= k + n - 1;
    assert k' + 6 <= m;
  }

  // ------------------- rule 2, extraction: re.findall(r"p(\d+).html.*spid=(\d+)")

  /** `p(\d+).html` matches at `p` with the group covering `c` digits. */
  ghost predicate TikiHeadSplit(url: string, p: nat, c: nat)
  {
    && p < |url| && url[p] == 'p' && c >= 1 && p + 2 + c <= |url|
    && DigitsIn(url, p + 1, p + 1 + c) && url[p + 1 + c] != '\n' && LitAt(url, p + 2 + c, "html")
  }

  /** `p(\d+).html.*spid=(\d+)` matches at `p`: first group `c` digits,
      `spid=` at `r`, second group `url[r+5..e]`. */
  ghost predicate TikiIdSplit(url: string, p: nat, c: nat, r: nat, e: nat)
  {
    && TikiHeadSplit(url, p, c)
    && p + 6 + c <= r && r + 5 < e <= |url|
    && NoNewlineIn(url, p + 6 + c, r)
    && LitAt(url, r, "spid=") && DigitsIn(url, r + 5, e)
  }

  /** The only digit count the head `p(\d+).html` can take at `p`: the greedy
      run when a character and `html` follow it, else one digit fewer when
      `html` follows the run directly (the unescaped dot eats a digit). */
  function HeadCut(url: string, p: nat): (r: Option<nat>)
    ensures r.Some? ==> p + 6 + r.value <= |url|
  {
    if p < |url| && url[p] == 'p' then
      var n := DigitRun(url, p + 1);
      if n >= 1 && p + 1 + n < |url| && url[p + 1 + n] != '\n' && LitAt(url, p + 2 + n, "html") then Some(n)
      else if n >= 2 && LitAt(url, p + 1 + n, "html") then Some(n - 1)
      else None
    else None
  }

  lemma HeadCutSpec(url: string, p: nat, c: nat)
    ensures TikiHeadSplit(url, p, c) <==> HeadCut(url, p) == Some(c)
  {
    if TikiHeadSplit(url, p, c) {
      HeadCutComplete(url, p, c);
    }
    if HeadCut(url, p) == Some(c) {
      var n := DigitRun(url, p + 1);
      if c == n - 1 {
        assert IsDigit(url[p + n]);
      }
    }
  }

  lemma HeadCutComplete(url: string, p: nat, c: nat)
    requires TikiHeadSplit(url, p, c)
    ensures HeadCut(url, p) == Some(c)
  {
    var n := DigitRun(url, p + 1);
    DigitRunUnique(url, p + 1, p + 1 + c);
    var h := url[p + 2 + c];
    LitAtChar(url, p + 2 + c, "html", 0);
    LitAtChar(url, p + 2 + c, "html", 1);
    assert h == 'h' && !IsDigit(h);
    assert n == c || n == c + 1;
    if n == c + 1 {
      assert url[p + 2 + n] == 't';
      LitAtHead(url, p + 2 + n, "html");
    }
  }

  /** Index of the first newline at or after `i`, or the end. */
  function LineEnd(s: string, i: nat): (e: nat)
    requires i <= |s|
    ensures i <= e <= |s| && NoNewlineIn(s, i, e) && (e == |s| || s[e] == '\n')
    decreases |s| - i
  {
    if i == |s| || s[i] == '\n' then i else LineEnd(s, i + 1)
  }

  /** Rightmost `r` in `[lo, hi)` at which `ParamAt` holds. */
  function FindLastParamBelow(s: string, name: string, lo: nat, hi: nat): (r: Option<nat>)
    requires lo <= hi <= |s|
    ensures r.Some? ==> lo <= r.value < hi && ParamAt(s, r.value, name)
    decreases hi - lo
  {
    if hi == lo then None
    else if ParamAt(s, hi - 1, name) then Some(hi - 1)
    else FindLastParamBelow(s, name, lo, hi - 1)
  }

  /** The backward search stops at the latest at any position where
      `ParamAt` holds. */
  lemma {:induction false} LastParamAtLeast(s: string, name: string, lo: nat, hi: nat, r: nat)
    requires lo <= r < hi <= |s| && ParamAt(s, r, name)
    ensures FindLastParamBelow(s, name, lo, hi).Some? && r <= FindLastParamBelow(s, name, lo, hi).value
    decreases hi - lo
  {
    if !ParamAt(s, hi - 1, name) {
      LastParamAtLeast(s, name, lo, hi - 1, r);
    }
  }

  /** FindLastParamBelow skips only positions where `ParamAt` fails. */
  lemma {:induction false} FindLastParamBelowSpec(s: string, name: string, lo: nat, hi: nat)
    requires lo <= hi <= |s|
    ensures var r := FindLastParamBelow(s, name, lo, hi);
      && (r.Some? ==> forall j :: r.value < j < hi ==> !ParamAt(s, j, name))
      && (r.None? ==> forall j :: lo <= j < hi ==> !ParamAt(s, j, name))
    decreases hi - lo
  {
    if hi > lo && !ParamAt(s, hi - 1, name) {
      FindLastParamBelowSpec(s, name, lo, hi - 1);
    }
  }

  /** Match positions of one regex match: group one ends at `p+1+c`,
      `spid=` is at `r`, the match ends at `e`. */
  datatype Hit = Hit(c: nat, r: nat, e: nat)

  /** The match the regex engine reports when it starts at `p`: the head's
      only possible cut, then the greedy `.*` reaching the last `spid=<digit>`
      of the line, then the greedy digit run. */
  function TikiMatchAt(url: string, p: nat): (h: Option<Hit>)
    ensures h.Some? ==> p + 1 + h.value.c <= h.value.r + 5 < h.value.e <= |url|
  {
    match HeadCut(url, p)
    case None => None
    case Some(c) =>
      var q := p + 6 + c;
      match FindLastParamBelow(url, "spid=", q, LineEnd(url, q))
      case None => None
      case Some(r) => Some(Hit(c, r, r + 5 + DigitRun(url, r + 5)))
  }

  /** At a fixed start the engine's match is a split, and the greediest one:
      no split has another head, a later `spid=`, or a longer last group. */
  lemma TikiMatchAtSpec(url: string, p: nat)
    ensures TikiMatchAt(url, p).Some? ==>
      var h := TikiMatchAt(url, p).value;
      && TikiIdSplit(url, p, h.c, h.r, h.e)
      && forall c: nat, r: nat, e: nat :: TikiIdSplit(url, p, c, r, e) ==> c == h.c && r <= h.r && (r == h.r ==> e <= h.e)
    ensures TikiMatchAt(url, p).None? ==> forall c: nat, r: nat, e: nat :: !TikiIdSplit(url, p, c, r, e)
  {
    forall c: nat, r: nat, e: nat | TikiIdSplit(url, p, c, r, e)
      ensures TikiMatchAt(url, p).Some?
      ensures c == TikiMatchAt(url, p).value.c && r <= TikiMatchAt(url, p).value.r
      ensures r == TikiMatchAt(url, p).value.r ==> e <= TikiMatchAt(url, p).value.e
    {
      TikiMatchAtGreedy(url, p, c, r, e);
    }
    if TikiMatchAt(url, p).Some? {
      TikiMatchAtSound(url, p);
    }
  }

  lemma TikiMatchAtSound(url: string, p: nat)
    requires TikiMatchAt(url, p).Some?
    ensures var h := TikiMatchAt(url, p).value; TikiIdSplit(url, p, h.c, h.r, h.e)
  {
    var h := TikiMatchAt(url, p).value;
    HeadCutSpec(url, p, h.c);
  }

  lemma TikiMatchAtGreedy(url: string, p: nat, c: nat, r: nat, e: nat)
    requires TikiIdSplit(url, p, c, r, e)
    ensures TikiMatchAt(url, p).Some?
    ensures c == TikiMatchAt(url, p).value.c && r <= TikiMatchAt(url, p).value.r
    ensures r == TikiMatchAt(url, p).value.r ==> e <= TikiMatchAt(url, p).value.e
  {
    HeadCutComplete(url, p, c);
    SpidParamBelow(url, p + 6 + c, r, e);
    TikiMatchAtFrom(url, p, c, r);
    if r == TikiMatchAt(url, p).value.r {
      DigitRunUnique(url, r + 5, e);
    }
  }

  /** Past the head, the engine settles on the last `spid=<digit>` of the
      line, so at or after any such `r`. */
  lemma TikiMatchAtFrom(url: string, p: nat, c: nat, r: nat)
    requires HeadCut(url, p) == Some(c)
    requires p + 6 + c <= r < LineEnd(url, p + 6 + c) && ParamAt(url, r, "spid=")
    ensures TikiMatchAt(url, p).Some?
    ensures TikiMatchAt(url, p).value.c == c && r <= TikiMatchAt(url, p).value.r
    ensures TikiMatchAt(url, p).value.r == r ==> TikiMatchAt(url, p).value.e == r + 5 + DigitRun(url, r + 5)
  {
    LastParamAtLeast(url, "spid=", p + 6 + c, LineEnd(url, p + 6 + c), r);
  }

  /** A `spid=<digits>` reached by `.*` from `q` lies inside the line, where
      the engine looks for it. */
  lemma SpidParamBelow(url: string, q: nat, r: nat, e: nat)
    requires q <= r && r + 5 < e <= |url|
    requires NoNewlineIn(url, q, r) && LitAt(url, r, "spid=") && DigitsIn(url, r + 5, e)
    ensures q <= r < LineEnd(url, q) && ParamAt(url, r, "spid=")
  {
    LineEndPast(url, q, r);
    LitAtChar(url, r, "spid=", 0);
    assert IsDigit(url[r + 5]);
  }

  /** The line that starts at `i` reaches past a newline-free stretch. */
  lemma {:induction false} LineEndPast(s: string, i: nat, j: nat)
    requires i <= j <= |s| && NoNewlineIn(s, i, j)
    ensures j <= LineEnd(s, i)
    decreases j - i
  {
    if i < j {
      LineEndPast(s, i + 1, j);
    }
  }

  /** Leftmost start at or after `p` where the engine finds a match. */
  function FindTikiFrom(url: string, p: nat): (r: Option<(nat, Hit)>)
    requires p <= |url|
    ensures r.Some? ==> p <= r.value.0 < |url|
    ensures r.Some? ==> r.value.0 + 1 + r.value.1.c <= r.value.1.r + 5 < r.value.1.e <= |url|
    decreases |url| - p, 1
  {
    if p == |url| then None else FindTikiAt(url, p)
  }

  /** One step of the search: the match at `p`, else the search from `p + 1`. */
  function FindTikiAt(url: string, p: nat): (r: Option<(nat, Hit)>)
    requires p < |url|
    ensures r.Some? ==> p <= r.value.0 < |url|
    ensures r.Some? ==> r.value.0 + 1 + r.value.1.c <= r.value.1.r + 5 < r.value.1.e <= |url|
    decreases |url| - p, 0
  {
    match TikiMatchAt(url, p)
    case Some(h) => Some((p, h))
    case None => FindTikiFrom(url, p + 1)
  }


  /** What the search reports is the engine's match at the start it reports. */
  lemma {:induction false} FindTikiFound(url: string, p: nat)
    requires p <= |url| && FindTikiFrom(url, p).Some?
    ensures TikiMatchAt(url, FindTikiFrom(url, p).value.0) == Some(FindTikiFrom(url, p).value.1)
    decreases |url| - p
  {
    assert FindTikiFrom(url, p) == FindTikiAt(url, p);
    if TikiMatchAt(url, p).None? {
      FindTikiFound(url, p + 1);
    }
  }

  /** The search stops at the latest at any start that has a match: it
      skips only starts without one, and gives up only when none has one. */
  lemma {:induction false} FindTikiFinds(url: string, p: nat, p': nat)
    requires p <= p' && TikiMatchAt(url, p').Some?
    ensures p <= |url|
    ensures FindTikiFrom(url, p).Some? && FindTikiFrom(url, p).value.0 <= p'
    decreases p' - p
  {
    assert FindTikiFrom(url, p) == FindTikiAt(url, p);
    if TikiMatchAt(url, p).None? {
      FindTikiFinds(url, p + 1, p');
    }
  }

  /** The two groups of one match. */
  datatype Ids = Ids(item: string, shop: string)

  /** `re.findall(r"p(\d+).html.*spid=(\d+)", url)[0]`, or None when the
      list is empty. */
  function TikiIds(url: string): (r: Option<Ids>)
    ensures r.Some? ==> IsDigitString(r.value.item) && IsDigitString(r.value.shop)
  {
    match FindTikiFrom(url, 0)
    case None => None
    case Some((p, h)) =>
      FindTikiFound(url, 0);
      TikiGroupsDigits(url, p, h);
      Some(Ids(url[p + 1..p + 1 + h.c], url[h.r + 5..h.e]))
  }

  /** The two groups of the match the engine reports at `p` are digits. */
  lemma TikiGroupsDigits(url: string, p: nat, h: Hit)
    requires TikiMatchAt(url, p) == Some(h)
    ensures p + 1 + h.c <= h.r + 5 < h.e <= |url|
    ensures IsDigitString(url[p + 1..p + 1 + h.c]) && IsDigitString(url[h.r + 5..h.e])
  {
    TikiMatchAtSpec(url, p);
    DigitsInSlice(url, p + 1, p + 1 + h.c);
    DigitsInSlice(url, h.r + 5, h.e);
  }

  /** A split at `p` that is the one the engine reports: no split starts
      earlier, and at `p` none has another head, a later `spid=` or a longer
      last group. */
  ghost predicate TikiFirstMatch(url: string, p: nat, c: nat, r: nat, e: nat)
  {
    && TikiIdSplit(url, p, c, r, e)
    && forall p': nat, c': nat, r': nat, e': nat :: TikiIdSplit(url, p', c', r', e') ==>
         p <= p' && (p == p' ==> c' == c && r' <= r && (r' == r ==> e' <= e))
  }

  /** TikiIds reports the groups of the engine's first match, and reports
      nothing exactly when no split exists. */
  lemma TikiIdsSpec(url: string)
    ensures TikiIds(url).None? <==> forall p: nat, c: nat, r: nat, e: nat :: !TikiIdSplit(url, p, c, r, e)
    ensures TikiIds(url).Some? ==>
      exists p: nat, c: nat, r: nat, e: nat ::
        TikiFirstMatch(url, p, c, r, e) && TikiIds(url).value == Ids(url[p + 1..p + 1 + c], url[r + 5..e])
  {
    TikiIdsNone(url);
    TikiIdsSome(url);
  }

  lemma TikiIdsSome(url: string)
    ensures TikiIds(url).Some? ==>
      exists p: nat, c: nat, r: nat, e: nat ::
        TikiFirstMatch(url, p, c, r, e) && TikiIds(url).value == Ids(url[p + 1..p + 1 + c], url[r + 5..e])
  {
    if FindTikiFrom(url, 0).Some? {
      var p := FindTikiFrom(url, 0).value.0;
      var h := FindTikiFrom(url, 0).value.1;
      TikiFirstMatchFound(url, p, h);
      TikiIdsOfFirst(url, p, h);
      TikiIdsWitness(url, p, h.c, h.r, h.e, TikiIds(url).value);
    }
  }

  lemma TikiIdsWitness(url: string, p: nat, c: nat, r: nat, e: nat, g: Ids)
    requires TikiFirstMatch(url, p, c, r, e) && g == Ids(url[p + 1..p + 1 + c], url[r + 5..e])
    ensures exists p: nat, c: nat, r: nat, e: nat ::
      TikiFirstMatch(url, p, c, r, e) && g == Ids(url[p + 1..p + 1 + c], url[r + 5..e])
  {
  }

  lemma TikiIdsNone(url: string)
    ensures TikiIds(url).None? <==> FindTikiFrom(url, 0).None?
    ensures FindTikiFrom(url, 0).None? <==> forall p: nat, c: nat, r: nat, e: nat :: !TikiIdSplit(url, p, c, r, e)
  {
    forall p: nat, c: nat, r: nat, e: nat | TikiIdSplit(url, p, c, r, e)
      ensures FindTikiFrom(url, 0).Some?
    {
      TikiMatchAtSpec(url, p);
      FindTikiFinds(url, 0, p);
    }
    if FindTikiFrom(url, 0).Some? {
      var (p, h) := FindTikiFrom(url, 0).value;
      FindTikiFound(url, 0);
      TikiMatchAtSpec(url, p);
    }
  }

  lemma TikiFirstMatchFound(url: string, p: nat, h: Hit)
    requires FindTikiFrom(url, 0) == Some((p, h))
    ensures TikiFirstMatch(url, p, h.c, h.r, h.e)
  {
    FindTikiFound(url, 0);
    TikiMatchAtSpec(url, p);
    forall p': nat, c': nat, r': nat, e': nat | TikiIdSplit(url, p', c', r', e')
      ensures p <= p' && (p == p' ==> c' == h.c && r' <= h.r && (r' == h.r ==> e' <= h.e))
    {
      TikiMatchAtSpec(url, p');
      FindTikiFinds(url, 0, p');
    }
  }

  // ----------------------------------------------- rule 3: Lazada product page

  const LazadaPrefix := "https://www.lazada.vn/products/"

  /** `-i\d+-s\d+\.html` matches at `k` with `a` and `b` digits. */
  ghost predicate LazadaTailSplit(url: string, k: nat, a: nat, b: nat)
  {
    && k + 9 + a + b <= |url|
    && LitAt(url, k, "-i") && a >= 1 && DigitsIn(url, k + 2, k + 2 + a)
    && LitAt(url, k + 2 + a, "-s") && b >= 1 && DigitsIn(url, k + 4 + a, k + 4 + a + b)
    && LitAt(url, k + 4 + a + b, ".html")
  }

  /** Scanner for the tail at `k`: both digit runs are necessarily maximal. */
  predicate LazadaTailAt(url: string, k: nat)
  {
    && LitAt(url, k, "-i")
    && var a := DigitRun(url, k + 2);
    && a >= 1 && LitAt(url, k + 2 + a, "-s")
    && var b := DigitRun(url, k + 4 + a);
    && b >= 1 && LitAt(url, k + 4 + a + b, ".html")
  }

  lemma LazadaTailAtSpec(url: string, k: nat, a: nat, b: nat)
    ensures LazadaTailSplit(url, k, a, b) ==>
      LazadaTailAt(url, k) && a == DigitRun(url, k + 2) && b == DigitRun(url, k + 4 + a)
    ensures LazadaTailAt(url, k) && a == DigitRun(url, k + 2) && b == DigitRun(url, k + 4 + a) ==>
      LazadaTailSplit(url, k, a, b)
  {
    if LazadaTailSplit(url, k, a, b) {
      LazadaTailRuns(url, k, a, b);
    }
  }

  lemma LazadaTailRuns(url: string, k: nat, a: nat, b: nat)
    requires LazadaTailSplit(url, k, a, b)
    ensures a == DigitRun(url, k + 2) && b == DigitRun(url, k + 4 + a)
  {
    LitAtChar(url, k + 2 + a, "-s", 0);
    DigitRunUnique(url, k + 2, k + 2 + a);
    LitAtChar(url, k + 4 + a + b, ".html", 0);
    DigitRunUnique(url, k + 4 + a, k + 4 + a + b);
  }

  function FindLazadaTailFrom(url: string, i: nat): (r: Option<nat>)
    requires i <= |url|
    ensures r.Some? ==> i <= r.value < |url| && LazadaTailAt(url, r.value)
    decreases |url| - i
  {
    if i == |url| then None
    else if LazadaTailAt(url, i) then Some(i)
    else FindLazadaTailFrom(url, i + 1)
  }

  /** The search stops at the latest at any position where the tail is
      found: it skips only positions without one. */
  lemma {:induction false} FindLazadaFinds(url: string, i: nat, k: nat)
    requires i <= k < |url| && LazadaTailAt(url, k)
    ensures FindLazadaTailFrom(url, i).Some? && FindLazadaTailFrom(url, i).value <= k
    decreases k - i
  {
    if !LazadaTailAt(url, i) {
      FindLazadaFinds(url, i + 1, k);
    }
  }

  /** `re.search(r'-i(\d+)-s(\d+)\.html', url)`: its two groups, or None. */
  function LazadaIds(url: string): (r: Option<Ids>)
    ensures r.Some? ==> IsDigitString(r.value.item) && IsDigitString(r.value.shop)
  {
    match FindLazadaTailFrom(url, 0)
    case None => None
    case Some(k) => LazadaGroupsDigits(url, k); Some(LazadaGroups(url, k))
  }

  /** The two digit runs of the tail at `k`. */
  function LazadaGroups(url: string, k: nat): Ids
    requires k + 2 <= |url| && k + 4 + DigitRun(url, k + 2) <= |url|
  {
    var a := DigitRun(url, k + 2);
    var b := DigitRun(url, k + 4 + a);
    Ids(url[k + 2..k + 2 + a], url[k + 4 + a..k + 4 + a + b])
  }

  lemma LazadaGroupsDigits(url: string, k: nat)
    requires LazadaTailAt(url, k)
    ensures IsDigitString(LazadaGroups(url, k).item) && IsDigitString(LazadaGroups(url, k).shop)
  {
    var a := DigitRun(url, k + 2);
    DigitsInSlice(url, k + 2, k + 2 + a);
    DigitsInSlice(url, k + 4 + a, k + 4 + a + DigitRun(url, k + 4 + a));
  }

  /** A tail split that no other tail split precedes. */
  ghost predicate LazadaFirstTail(url: string, k: nat, a: nat, b: nat)
  {
    && LazadaTailSplit(url, k, a, b)
    && forall k': nat, a': nat, b': nat :: LazadaTailSplit(url, k', a', b') ==> k <= k'
  }

  /** LazadaIds reports the groups of the leftmost split, and nothing exactly
      when there is none. */
  lemma LazadaIdsSpec(url: string)
    ensures LazadaIds(url).None? <==> forall k: nat, a: nat, b: nat :: !LazadaTailSplit(url, k, a, b)
    ensures LazadaIds(url).Some? ==>
      exists k: nat, a: nat, b: nat ::
        LazadaFirstTail(url, k, a, b) && LazadaIds(url).value == Ids(url[k + 2..k + 2 + a], url[k + 4 + a..k + 4 + a + b])
  {
    LazadaIdsNone(url);
    LazadaIdsSome(url);
  }

  lemma LazadaIdsSome(url: string)
    ensures LazadaIds(url).Some? ==>
      exists k: nat, a: nat, b: nat ::
        LazadaFirstTail(url, k, a, b) && LazadaIds(url).value == Ids(url[k + 2..k + 2 + a], url[k + 4 + a..k + 4 + a + b])
  {
    if FindLazadaTailFrom(url, 0).Some? {
      var k := FindLazadaTailFrom(url, 0).value;
      var a := DigitRun(url, k + 2);
      var b := DigitRun(url, k + 4 + a);
      LazadaFirstTailFound(url, k);
      LazadaIdsOfFirst(url, k);
      LazadaIdsWitness(url, k, a, b, LazadaIds(url).value);
    }
  }

  lemma LazadaIdsNone(url: string)
    ensures LazadaIds(url).None? <==> FindLazadaTailFrom(url, 0).None?
    ensures FindLazadaTailFrom(url, 0).None? <==> forall k: nat, a: nat, b: nat :: !LazadaTailSplit(url, k, a, b)
  {
    forall k: nat, a: nat, b: nat | LazadaTailSplit(url, k, a, b)
      ensures FindLazadaTailFrom(url, 0).Some?
    {
      LazadaTailAtSpec(url, k, a, b);
      FindLazadaFinds(url, 0, k);
    }
    if FindLazadaTailFrom(url, 0).Some? {
      var k := FindLazadaTailFrom(url, 0).value;
      var a := DigitRun(url, k + 2);
      LazadaTailAtSpec(url, k, a, DigitRun(url, k + 4 + a));
    }
  }

  lemma LazadaIdsOfFirst(url: string, k: nat)
    requires FindLazadaTailFrom(url, 0) == Some(k)
    ensures k + 4 + DigitRun(url, k + 2) <= |url|
    ensures LazadaIds(url) == Some(LazadaGroups(url, k))
  {
  }

  lemma LazadaGroupsAt(url: string, k: nat, a: nat)
    requires k + 2 <= |url| && a == DigitRun(url, k + 2) && k + 4 + a <= |url|
    ensures var b := DigitRun(url, k + 4 + a);
      LazadaGroups(url, k) == Ids(url[k + 2..k + 2 + a], url[k + 4 + a..k + 4 + a + b])
  {
  }

  lemma LazadaIdsWitness(url: string, k: nat, a: nat, b: nat, g: Ids)
    requires LazadaFirstTail(url, k, a, b) && a == DigitRun(url, k + 2) && b == DigitRun(url, k + 4 + a)
    requires k + 4 + a <= |url| && g == LazadaGroups(url, k)
    ensures exists k: nat, a: nat, b: nat ::
      LazadaFirstTail(url, k, a, b) && g == Ids(url[k + 2..k + 2 + a], url[k + 4 + a..k + 4 + a + b])
  {
    LazadaGroupsAt(url, k, a);
  }

  lemma LazadaFirstTailFound(url: string, k: nat)
    requires FindLazadaTailFrom(url, 0) == Some(k)
    ensures LazadaFirstTail(url, k, DigitRun(url, k + 2), DigitRun(url, k + 4 + DigitRun(url, k + 2)))
  {
    var a := DigitRun(url, k + 2);
    LazadaTailAtSpec(url, k, a, DigitRun(url, k + 4 + a));
    forall k': nat, a': nat, b': nat | LazadaTailSplit(url, k', a', b') ensures k <= k' {
      LazadaTailAtSpec(url, k', a', b');
      FindLazadaFinds(url, 0, k');
    }
  }

  /** `^https:\/\/www\.lazada\.vn\/products\/.*-i\d+-s\d+\.html` matches. */
  ghost predicate LazadaPageSplit(url: string, k: nat, a: nat, b: nat)
  {
    && LitAt(url, 0, LazadaPrefix) && |LazadaPrefix| <= k <= |url|
    && NoNewlineIn(url, |LazadaPrefix|, k)
    && LazadaTailSplit(url, k, a, b)
  }

  ghost predicate LazadaPageMatches(url: string)
  {
    exists k: nat, a: nat, b: nat :: LazadaPageSplit(url, k, a, b)
  }

  /** Scanner: the first tail after the prefix must lie on the first line. */
  function LazadaPageScan(url: string): bool
  {
    && LitAt(url, 0, LazadaPrefix)
    && match FindLazadaTailFrom(url, |LazadaPrefix|)
       case None => false
       case Some(k) => NoNewlineIn(url, |LazadaPrefix|, k)
  }

  lemma LazadaPageScanSpec(url: string)
    ensures LazadaPageScan(url) <==> LazadaPageMatches(url)
  {
    if LazadaPageScan(url) {
      var k := FindLazadaTailFrom(url, |LazadaPrefix|).value;
      var a := DigitRun(url, k + 2);
      LazadaTailAtSpec(url, k, a, DigitRun(url, k + 4 + a));
      assert LazadaPageSplit(url, k, a, DigitRun(url, k + 4 + a));
    }
    if LazadaPageMatches(url) {
      var k', a', b' :| LazadaPageSplit(url, k', a', b');
      LazadaTailAtSpec(url, k', a', b');
      FindLazadaFinds(url, |LazadaPrefix|, k');
      var k := FindLazadaTailFrom(url, |LazadaPrefix|).value;
      assert k <= k';
    }
  }

  // ------------------------------------------------------------- parse_url

  /** `(item_id, shop_id, platform)`; `parse_url`'s `(None, None, None)` is `None`. */
  datatype Parsed = Parsed(itemId: string, shopId: string, platform: Platform)

  /** `parse_url`: the three rules in source order, first match wins; a rule
      whose extraction finds nothing gives up instead of trying the next. */
  function ParseUrl(url: string): (r: Option<Parsed>)
    ensures r.Some? ==> IsDigitString(r.value.itemId) && IsDigitString(r.value.shopId)
  {
    if ShopeeApiScan(url) then
      match (SearchParam(url, "item_id="), SearchParam(url, "shop_id="))
      case (Some(item), Some(shop)) => Some(Parsed(item, shop, Shopee))
      case _ => None
    else if TikiPageScan(url) then
      match TikiIds(url)
      case Some(ids) => Some(Parsed(ids.item, ids.shop, Tiki))
      case None => None
    else if LazadaPageScan(url) then
      match LazadaIds(url)
      case Some(ids) => Some(Parsed(ids.item, ids.shop, Lazada))
      case None => None
    else None
  }

  /** The three prefixes differ at index 8, so at most one rule can match and
      their order never matters. */
  lemma RulesExclusive(url: string)
    ensures !(ShopeeApiMatches(url) && TikiPageMatches(url))
    ensures !(ShopeeApiMatches(url) && LazadaPageMatches(url))
    ensures !(TikiPageMatches(url) && LazadaPageMatches(url))
  {
    if ShopeeApiMatches(url) {
      var i, a, j, b :| ShopeeApiSplit(url, i, a, j, b);
      LitAtChar(url, 0, ShopeePrefix, 8);
    }
    if TikiPageMatches(url) {
      var k, n, m, t :| TikiPageSplit(url, k, n, m, t);
      LitAtChar(url, 0, "https://tiki", 8);
    }
    if LazadaPageMatches(url) {
      var k, a, b :| LazadaPageSplit(url, k, a, b);
      LitAtChar(url, 0, LazadaPrefix, 8);
    }
  }

  /** Rule 1: a Shopee API URL always parses, to the first `item_id=` and the
      first `shop_id=` digit runs (its error branch is unreachable). */
  lemma ParseShopee(url: string)
    requires ShopeeApiMatches(url)
    ensures SearchParam(url, "item_id=").Some? && SearchParam(url, "shop_id=").Some?
    ensures ParseUrl(url) == Some(Parsed(SearchParam(url, "item_id=").value, SearchParam(url, "shop_id=").value, Shopee))
  {
    ShopeeApiScanSpec(url);
    var i, a, j, b :| ShopeeApiSplit(url, i, a, j, b);
    assert ParamSplit(url, "item_id=", i, a);
    assert ParamSplit(url, "shop_id=", j, b);
    SearchParamSpec(url, "item_id=");
    SearchParamSpec(url, "shop_id=");
  }

  /** Rule 2: a Tiki page URL parses to the first findall match, or to
      nothing when findall finds none. */
  lemma ParseTiki(url: string)
    requires TikiPageMatches(url)
    ensures ParseUrl(url) == match TikiIds(url)
                             case Some(ids) => Some(Parsed(ids.item, ids.shop, Tiki))
                             case None => None
  {
    RulesExclusive(url);
    ShopeeApiScanSpec(url);
    TikiPageScanSpec(url);
  }

  /** Rule 3: a Lazada page URL always parses, to the digits after `-i` and
      after `-s` of the first `-i<digits>-s<digits>.html`. */
  lemma ParseLazada(url: string)
    requires LazadaPageMatches(url)
    ensures LazadaIds(url).Some?
    ensures ParseUrl(url) == Some(Parsed(LazadaIds(url).value.item, LazadaIds(url).value.shop, Lazada))
  {
    RulesExclusive(url);
    ShopeeApiScanSpec(url);
    TikiPageScanSpec(url);
    LazadaPageScanSpec(url);
    var k, a, b :| LazadaPageSplit(url, k, a, b);
    LazadaIdsSpec(url);
  }

  /** Any other URL is rejected. */
  lemma ParseOther(url: string)
    requires !ShopeeApiMatches(url) && !TikiPageMatches(url) && !LazadaPageMatches(url)
    ensures ParseUrl(url) == None
  {
    ShopeeApiScanSpec(url);
    TikiPageScanSpec(url);
    LazadaPageScanSpec(url);
  }

  /** A parse result names the rule that produced it. */
  lemma ParseSound(url: string)
    ensures ParseUrl(url).Some? && ParseUrl(url).value.platform == Shopee ==> ShopeeApiMatches(url)
    ensures ParseUrl(url).Some? && ParseUrl(url).value.platform == Tiki ==> TikiPageMatches(url)
    ensures ParseUrl(url).Some? && ParseUrl(url).value.platform == Lazada ==> LazadaPageMatches(url)
  {
    ShopeeApiScanSpec(url);
    TikiPageScanSpec(url);
    LazadaPageScanSpec(url);
  }

  /** From the final `spid=` on, a Tiki page URL holds no `l` and no `s`
      but the one that starts `spid=`. */
  lemma TikiTailChar(url: string, k: nat, n: nat, m: nat, t: nat, x: nat)
    requires TikiPageSplit(url, k, n, m, t) && m <= x < |url|
    ensures url[x] != 'l' && (x > m ==> url[x] != 's')
  {
    if x < m + 5 {
      LitAtChar(url, m, "spid=", x - m);
    } else if x < m + 5 + t {
      assert IsDigit(url[x]);
    }
  }

  /** On a Tiki page URL every `p<digits>.html` head lies before the final
      `spid=`, and the extraction pattern matches from it up to the end. */
  lemma TikiHeadSpidSplit(url: string, k: nat, n: nat, m: nat, t: nat, p: nat, c: nat)
    requires TikiPageSplit(url, k, n, m, t) && TikiHeadSplit(url, p, c)
    ensures TikiIdSplit(url, p, c, m, m + 5 + t)
  {
    TikiSplitNoNewline(url, k, n, m, t);
    LitAtChar(url, p + 2 + c, "html", 3);
    if p + 5 + c >= m {
      TikiTailChar(url, k, n, m, t, p + 5 + c);
    }
  }

  /** No split of the extraction pattern uses a `spid=` other than the final
      one, nor a longer last group. */
  lemma TikiSpidIsLast(url: string, k: nat, n: nat, m: nat, t: nat, p: nat, c: nat, r: nat, e: nat)
    requires TikiPageSplit(url, k, n, m, t) && TikiIdSplit(url, p, c, r, e) && m <= r
    ensures r == m && e <= m + 5 + t
  {
    LitAtChar(url, r, "spid=", 0);
    TikiTailChar(url, k, n, m, t, r);
    assert m + 5 + t < |url| ==> url[m + 5 + t] == '\n';
  }

  /** On a Tiki page URL every `p<digits>.html` head reaches the final
      `spid=`: the engine's match there ends where `$` matches. */
  lemma TikiHeadReachesSpid(url: string, k: nat, n: nat, m: nat, t: nat, p: nat, c: nat)
    requires TikiPageSplit(url, k, n, m, t) && TikiHeadSplit(url, p, c)
    ensures TikiMatchAt(url, p) == Some(Hit(c, m, m + 5 + t))
  {
    TikiHeadSpidSplit(url, k, n, m, t, p, c);
    TikiMatchAtGreedy(url, p, c, m, m + 5 + t);
    TikiMatchAtSound(url, p);
    var h := TikiMatchAt(url, p).value;
    TikiSpidIsLast(url, k, n, m, t, p, h.c, h.r, h.e);
    assert h == Hit(c, m, m + 5 + t);
  }

  /** On a Tiki page URL the shop id is the final `spid=` value, and the item
      id comes from the leftmost `p<digits>.html`; when there is none the URL
      is rejected although the page rule matched. */
  lemma TikiPageIds(url: string)
    requires TikiPageMatches(url)
    ensures TikiIds(url).None? <==> forall p: nat, c: nat :: !TikiHeadSplit(url, p, c)
    ensures TikiIds(url).Some? ==> TikiIds(url).value.shop == url[SpidTail(url) + 5..MatchEnd(url)]
    ensures TikiIds(url).Some? ==>
      exists p: nat, c: nat ::
        && TikiHeadSplit(url, p, c) && TikiIds(url).value.item == url[p + 1..p + 1 + c]
        && forall p': nat, c': nat :: TikiHeadSplit(url, p', c') ==> p <= p'
  {
    var k, n, m, t :| TikiPageSplit(url, k, n, m, t);
    TikiPageNone(url, k, n, m, t);
    if FindTikiFrom(url, 0).Some? {
      var (p, h) := FindTikiFrom(url, 0).value;
      TikiPageSome(url, k, n, m, t, p, h);
    }
  }

  lemma TikiPageNone(url: string, k: nat, n: nat, m: nat, t: nat)
    requires TikiPageSplit(url, k, n, m, t)
    ensures TikiIds(url).None? <==> FindTikiFrom(url, 0).None?
    ensures FindTikiFrom(url, 0).None? <==> forall p: nat, c: nat :: !TikiHeadSplit(url, p, c)
  {
    TikiIdsNone(url);
    forall p: nat, c: nat | TikiHeadSplit(url, p, c) ensures FindTikiFrom(url, 0).Some? {
      TikiPageHeadFound(url, k, n, m, t, p, c);
    }
  }

  lemma TikiPageHeadFound(url: string, k: nat, n: nat, m: nat, t: nat, p: nat, c: nat)
    requires TikiPageSplit(url, k, n, m, t) && TikiHeadSplit(url, p, c)
    ensures FindTikiFrom(url, 0).Some? && FindTikiFrom(url, 0).value.0 <= p
  {
    TikiHeadReachesSpid(url, k, n, m, t, p, c);
    FindTikiFinds(url, 0, p);
  }

  lemma TikiPageSome(url: string, k: nat, n: nat, m: nat, t: nat, p: nat, h: Hit)
    requires TikiPageSplit(url, k, n, m, t) && FindTikiFrom(url, 0) == Some((p, h))
    ensures TikiIds(url).Some?
    ensures TikiIds(url).value.shop == url[SpidTail(url) + 5..MatchEnd(url)]
    ensures exists p: nat, c: nat ::
        && TikiHeadSplit(url, p, c) && TikiIds(url).value.item == url[p + 1..p + 1 + c]
        && forall p': nat, c': nat :: TikiHeadSplit(url, p', c') ==> p <= p'
  {
    TikiPageFirstHead(url, k, n, m, t, p, h);
    TikiIdsOfFirst(url, p, h);
    TikiPageHeadLeftmost(url, k, n, m, t, p, h);
  }

  lemma TikiPageFirstHead(url: string, k: nat, n: nat, m: nat, t: nat, p: nat, h: Hit)
    requires TikiPageSplit(url, k, n, m, t) && FindTikiFrom(url, 0) == Some((p, h))
    ensures h.r == SpidTail(url) && h.e == MatchEnd(url)
  {
    FindTikiFound(url, 0);
    TikiSplitTail(url, k, n, m, t);
    TikiMatchAtSound(url, p);
    TikiHeadReachesSpid(url, k, n, m, t, p, h.c);
  }

  lemma TikiIdsOfFirst(url: string, p: nat, h: Hit)
    requires FindTikiFrom(url, 0) == Some((p, h))
    ensures TikiIds(url) == Some(Ids(url[p + 1..p + 1 + h.c], url[h.r + 5..h.e]))
    ensures TikiHeadSplit(url, p, h.c)
  {
    TikiIdsValue(url, p, h);
    TikiHeadOfFirst(url, p, h);
  }

  lemma TikiIdsValue(url: string, p: nat, h: Hit)
    requires FindTikiFrom(url, 0) == Some((p, h))
    ensures TikiIds(url) == Some(Ids(url[p + 1..p + 1 + h.c], url[h.r + 5..h.e]))
  {
    TikiIdsFields(url, p, h);
  }

  lemma TikiIdsFields(url: string, p: nat, h: Hit)
    requires FindTikiFrom(url, 0) == Some((p, h))
    ensures TikiIds(url).Some?
    ensures TikiIds(url).value.item == url[p + 1..p + 1 + h.c]
    ensures TikiIds(url).value.shop == url[h.r + 5..h.e]
  {
  }

  lemma TikiHeadOfFirst(url: string, p: nat, h: Hit)
    requires FindTikiFrom(url, 0) == Some((p, h))
    ensures TikiHeadSplit(url, p, h.c)
  {
    FindTikiFound(url, 0);
    HeadCutSpec(url, p, h.c);
  }

  lemma TikiPageHeadLeftmost(url: string, k: nat, n: nat, m: nat, t: nat, p: nat, h: Hit)
    requires TikiPageSplit(url, k, n, m, t) && FindTikiFrom(url, 0) == Some((p, h))
    ensures forall p': nat, c': nat :: TikiHeadSplit(url, p', c') ==> p <= p'
  {
    forall p': nat, c': nat | TikiHeadSplit(url, p', c') ensures p <= p' {
      TikiPageHeadFound(url, k, n, m, t, p', c');
    }
  }

  /** The page rule only asks for some digit before `.html`, so a URL with
      no `p<digits>` matches it; such a URL is rejected (see TikiPageIds). */
  lemma TikiPageNeedsNoHead()
    ensures TikiPageMatches("https://tiki.vn/1.htmlspid=5")
    ensures ParseUrl("https://tiki.vn/1.htmlspid=5") == None
  {
    var u := "https://tiki.vn/1.htmlspid=5";
    assert u[0..12] == "https://tiki" && u[13..16] == "vn/" && u[18..22] == "html" && u[22..27] == "spid=";
    assert TikiPageSplit(u, 16, 1, 22, 1);
    NoTikiHeadIn(u);
    TikiPageWithoutHead(u);
  }

  /** The example URL holds no `p<digits>.html`: its only `p`s are the one
      of `https` and the one of `spid`, neither followed by a digit. */
  lemma NoTikiHeadIn(u: string)
    requires u == "https://tiki.vn/1.htmlspid=5"
    ensures forall p: nat, c: nat :: !TikiHeadSplit(u, p, c)
  {
    forall p: nat, c: nat ensures !TikiHeadSplit(u, p, c) {
      if p + 1 < |u| && u[p] == 'p' {
        assert p == 3 || p == 23;
        assert !IsDigit(u[p + 1]);
      }
    }
  }

  /** A URL the Tiki classification accepts but that holds no head is
      rejected: `parse_url` returns nothing for it. */
  lemma TikiPageWithoutHead(url: string)
    requires TikiPageMatches(url) && forall p: nat, c: nat :: !TikiHeadSplit(url, p, c)
    ensures ParseUrl(url) == None
  {
    ParseTiki(url);
    TikiPageIds(url);
  }

  /** The unescaped dot of `p(\d+).html` may eat a digit: in `p123html` the
      head's group is `12`, never `123` nor `1`. */
  lemma TikiHeadDotEatsDigit()
    ensures TikiHeadSplit("p123html", 0, 2)
    ensures !TikiHeadSplit("p123html", 0, 3) && !TikiHeadSplit("p123html", 0, 1)
  {
    LitAtHead("p123html", 5, "html");
    LitAtHead("p123html", 3, "html");
  }
}

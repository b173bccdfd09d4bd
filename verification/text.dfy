/** Character classes, literal matching and decimal numerals: the pieces the
    URL scanners and the id coercion are built from. Digits are ASCII digits. */
module Text {

  predicate IsDigit(c: char) { '0' <= c <= '9' }

  predicate AllDigits(s: string) { forall k :: 0 <= k < |s| ==> IsDigit(s[k]) }

  /** Python's `s.isdigit()` restricted to ASCII: non-empty and all digits. */
  predicate IsDigitString(s: string) { |s| > 0 && AllDigits(s) }

  predicate NoNewline(s: string) { forall k :: 0 <= k < |s| ==> s[k] != '\n' }

  /** No newline among `s[i..j]`: the stretch a regex `.*` may cover. */
  predicate NoNewlineIn(s: string, i: nat, j: nat)
    requires i <= j <= |s|
  {
    forall k :: i <= k < j ==> s[k] != '\n'
  }

  /** Only digits among `s[i..j]`. */
  predicate DigitsIn(s: string, i: nat, j: nat)
    requires i <= j <= |s|
  {
    forall k :: i <= k < j ==> IsDigit(s[k])
  }

  /** `lit` occurs in `s` starting at index `i`. */
  predicate LitAt(s: string, i: nat, lit: string) {
    i + |lit| <= |s| && forall x :: 0 <= x < |lit| ==> s[i + x] == lit[x]
  }

  /** `lit in t` for strings: `lit` occurs somewhere at or after `i`. */
  function OccursFrom(t: string, lit: string, i: nat): (r: bool)
    ensures r <==> exists j :: i <= j && LitAt(t, j, lit)
    decreases |t| - i
  {
    if i + |lit| > |t| then
      assert forall j :: i <= j ==> !LitAt(t, j, lit);
      false
    else LitAt(t, i, lit) || OccursFrom(t, lit, i + 1)
  }

  /** Length of the maximal run of digits of `s` that starts at `i`
      (what a greedy `\d+` or `\d*` consumes there). */
  function DigitRun(s: string, i: nat): (n: nat)
    requires i <= |s|
    ensures i + n <= |s|
    ensures DigitsIn(s, i, i + n)
    ensures i + n == |s| || !IsDigit(s[i + n])
    decreases |s| - i
  {
    if i < |s| && IsDigit(s[i]) then 1 + DigitRun(s, i + 1) else 0
  }

  lemma LitAtChar(s: string, i: nat, lit: string, x: nat)
    requires LitAt(s, i, lit) && x < |lit|
    ensures s[i + x] == lit[x]
  {
  }

  lemma LitAtHead(s: string, i: nat, lit: string)
    ensures LitAt(s, i, lit) && |lit| > 0 ==> s[i] == lit[0]
  {
    if LitAt(s, i, lit) && |lit| > 0 {
      LitAtChar(s, i, lit, 0);
    }
  }

  lemma LitAtIntro(s: string, i: nat, lit: string)
    requires i + |lit| <= |s|
    requires forall x :: 0 <= x < |lit| ==> s[i + x] == lit[x]
    ensures LitAt(s, i, lit)
  {
  }

  lemma DigitsInSlice(s: string, i: nat, j: nat)
    requires i <= j <= |s|
    ensures DigitsIn(s, i, j) <==> AllDigits(s[i..j])
  {
    if DigitsIn(s, i, j) {
      forall k | 0 <= k < j - i ensures IsDigit(s[i..j][k]) { assert s[i..j][k] == s[i + k]; }
    }
    if AllDigits(s[i..j]) {
      forall k | i <= k < j ensures IsDigit(s[k]) { assert s[i..j][k - i] == s[k]; }
    }
  }

  /** A digit run is maximal exactly when it is the greedy one. */
  lemma {:induction false} DigitRunUnique(s: string, i: nat, j: nat)
    requires i <= j <= |s|
    requires DigitsIn(s, i, j)
    ensures j <= i + DigitRun(s, i)
    ensures (j == |s| || !IsDigit(s[j])) ==> j == i + DigitRun(s, i)
    decreases j - i
  {
    if i < j {
      DigitRunUnique(s, i + 1, j);
    }
  }

  /** Number of trailing digits of `s`. */
  function TrailingDigits(s: string): (n: nat)
    ensures n <= |s|
    ensures AllDigits(s[|s| - n..])
    ensures n == |s| || !IsDigit(s[|s| - n - 1])
  {
    if |s| > 0 && IsDigit(s[|s| - 1]) then
      var m := TrailingDigits(s[..|s| - 1]);
      assert s[|s| - 1 - m..] == s[..|s| - 1][|s| - 1 - m..] + [s[|s| - 1]];
      1 + m
    else 0
  }

  lemma TrailingDigitsUnique(s: string, j: nat)
    requires j <= |s|
    requires AllDigits(s[j..])
    requires j == 0 || !IsDigit(s[j - 1])
    ensures j == |s| - TrailingDigits(s)
    decreases |s|
  {
    if j < |s| {
      assert IsDigit(s[j..][|s| - 1 - j]);
      assert s[..|s| - 1][j..] == s[j..][..|s| - 1 - j];
      TrailingDigitsUnique(s[..|s| - 1], j);
    }
  }

  function DigitValue(c: char): nat
    requires IsDigit(c)
  {
    c as int - '0' as int
  }

  function DigitChar(d: nat): (c: char)
    requires d < 10
    ensures IsDigit(c) && DigitValue(c) == d
  {
    ('0' as int + d) as char
  }

  /** The number a string of decimal digits denotes (Python's `int(s)`). */
  function DecimalValue(s: string): nat
    requires AllDigits(s)
    decreases |s|
  {
    if |s| == 0 then 0
    else DecimalValue(s[..|s| - 1]) * 10 + DigitValue(s[|s| - 1])
  }

  /** Python's `str(n)` for a natural number: shortest decimal numeral. */
  function ShowNat(n: nat): (s: string)
    ensures IsDigitString(s)
    ensures |s| > 1 ==> s[0] != '0'
    decreases n
  {
    if n < 10 then [DigitChar(n)]
    else
      var p := ShowNat(n / 10);
      assert n / 10 > 0;
      p + [DigitChar(n % 10)]
  }

  /** Python's `str(i)` for any integer. */
  function ShowInt(i: int): string
  {
    if i < 0 then "-" + ShowNat(-i) else ShowNat(i)
  }

  /** Reading back a rendered numeral gives the number. */
  lemma {:induction false} DecimalOfShowNat(n: nat)
    ensures DecimalValue(ShowNat(n)) == n
    decreases n
  {
    if n >= 10 {
      var p := ShowNat(n / 10);
      var s := p + [DigitChar(n % 10)];
      assert s[..|s| - 1] == p;
      DecimalOfShowNat(n / 10);
    }
  }

  /** Rendering the value of a numeral without leading zeros gives it back. */
  lemma {:induction false} ShowNatOfDecimal(s: string)
    requires IsDigitString(s)
    requires |s| > 1 ==> s[0] != '0'
    ensures ShowNat(DecimalValue(s)) == s
    decreases |s|
  {
    var init := s[..|s| - 1];
    var d := DigitValue(s[|s| - 1]);
    if |s| == 1 {
      assert DecimalValue(s) == DecimalValue(init) * 10 + d;
      assert init == [];
      assert DigitChar(d) == s[0];
    } else {
      assert init[0] == s[0];
      ShowNatOfDecimal(init);
      var v := DecimalValue(init);
      DecimalPositive(init);
      assert DecimalValue(s) == v * 10 + d;
      assert (v * 10 + d) / 10 == v;
      assert (v * 10 + d) % 10 == d;
      assert DigitChar(d) == s[|s| - 1];
      assert s == init + [s[|s| - 1]];
    }
  }

  lemma {:induction false} DecimalPositive(s: string)
    requires IsDigitString(s) && s[0] != '0'
    ensures DecimalValue(s) > 0
    decreases |s|
  {
    if |s| > 1 {
      var init := s[..|s| - 1];
      assert init[0] == s[0];
      DecimalPositive(init);
    }
  }
}

/**
 * The few JavaScript string built-ins the dashboard relies on, over Dafny
 * strings: `trim`, `indexOf`, `replace` with a string pattern and an empty
 * replacement, and the decimal digit strings of `Number.prototype.toString`.
 */
module JsText {
  import opened Options

  /** The characters `String.prototype.trim` strips: the WhiteSpace and
      LineTerminator code points of ECMAScript (section 12.2 and 12.3 of ECMA-262). */
  predicate IsTrimmable(c: char) {
    var n := c as int;
    n == 0x09 || n == 0x0A || n == 0x0B || n == 0x0C || n == 0x0D || n == 0x20
    || n == 0xA0 || n == 0x1680 || (0x2000 <= n <= 0x200A)
    || n == 0x2028 || n == 0x2029 || n == 0x202F || n == 0x205F || n == 0x3000
    || n == 0xFEFF
  }

  /** Leading trimmable characters removed: a suffix of `s`. */
  function TrimStart(s: string): (r: string)
    ensures |r| <= |s| && r == s[|s| - |r|..]
    ensures r == [] || !IsTrimmable(r[0])
    ensures forall k :: 0 <= k < |s| - |r| ==> IsTrimmable(s[k])
  {
    if |s| > 0 && IsTrimmable(s[0]) then TrimStart(s[1..]) else s
  }

  /** Trailing trimmable characters removed: a prefix of `s`. */
  function TrimEnd(s: string): (r: string)
    ensures |r| <= |s| && r == s[..|r|]
    ensures r == [] || !IsTrimmable(r[|r| - 1])
    ensures forall k :: |r| <= k < |s| ==> IsTrimmable(s[k])
  {
    if |s| > 0 && IsTrimmable(s[|s| - 1]) then TrimEnd(s[..|s| - 1]) else s
  }

  /** `s.trim()`: the slice of `s` that has neither a trimmable first nor a
      trimmable last character; everything cut off on either side is
      trimmable. */
  function Trim(s: string): (r: string)
    ensures r == [] || (!IsTrimmable(r[0]) && !IsTrimmable(r[|r| - 1]))
    ensures TrimStartIndex(s) + |r| <= |s| && r == s[TrimStartIndex(s)..TrimStartIndex(s) + |r|]
    ensures forall k :: 0 <= k < TrimStartIndex(s) ==> IsTrimmable(s[k])
    ensures forall k :: TrimStartIndex(s) + |r| <= k < |s| ==> IsTrimmable(s[k])
  {
    TrimEnd(TrimStart(s))
  }

  /** Where the trimmed text starts inside `s`. */
  function TrimStartIndex(s: string): nat {
    |s| - |TrimStart(s)|
  }

  /** `pat` occurs in `s` at index `k`. */
  predicate OccursAt(s: string, pat: string, k: int) {
    0 <= k && k + |pat| <= |s| && s[k..k + |pat|] == pat
  }

  /** `s.indexOf(pat, from)` for `from <= |s|`: the leftmost occurrence of
      `pat` at or after `from`. Beyond the end JavaScript clamps `from` to
      `|s|`, so an empty `pat` is found at `|s|` there; this function reports
      no occurrence in that case. */
  function IndexOf(s: string, pat: string, from: nat): (r: Option<nat>)
    ensures r.Some? ==> from <= r.value && OccursAt(s, pat, r.value)
    ensures r.Some? ==> forall k :: from <= k < r.value ==> !OccursAt(s, pat, k)
    ensures r.None? ==> forall k :: from <= k ==> !OccursAt(s, pat, k)
    decreases |s| - from
  {
    if from + |pat| > |s| then None
    else if s[from..from + |pat|] == pat then Some(from)
    else IndexOf(s, pat, from + 1)
  }

  /** `s.replace(pat, '')`: the first occurrence of `pat` cut out; `s` itself
      when `pat` does not occur. */
  function RemoveFirst(s: string, pat: string): (r: string)
    ensures |r| == |s| - |pat| || r == s
    ensures (forall k :: !OccursAt(s, pat, k)) ==> r == s
  {
    match IndexOf(s, pat, 0)
    case Some(i) => s[..i] + s[i + |pat|..]
    case None => s
  }

  /** Cutting out the first occurrence when it is known to be at `p`. */
  lemma RemoveFirstAt(s: string, pat: string, p: nat)
    requires OccursAt(s, pat, p)
    requires forall k :: 0 <= k < p ==> !OccursAt(s, pat, k)
    ensures RemoveFirst(s, pat) == s[..p] + s[p + |pat|..]
  {
    var r := IndexOf(s, pat, 0);
    assert r.Some?;
    assert r.value == p;
  }

  predicate IsDigit(c: char) {
    '0' <= c <= '9'
  }

  predicate AllDigits(s: string) {
    forall k :: 0 <= k < |s| ==> IsDigit(s[k])
  }

  function DigitChar(d: nat): (c: char)
    requires d < 10
    ensures IsDigit(c) && c as int - '0' as int == d
  {
    ('0' as int + d) as char
  }

  /** The number a string of decimal digits denotes (leading zeros allowed). */
  function DigitsValue(ds: string): nat
    requires AllDigits(ds)
  {
    if ds == [] then 0
    else DigitsValue(ds[..|ds| - 1]) * 10 + (ds[|ds| - 1] as int - '0' as int)
  }

  function Pow10(n: nat): (p: nat)
    ensures p >= 1
  {
    if n == 0 then 1 else 10 * Pow10(n - 1)
  }

  /** `n.toString()` for a non-negative integer: its shortest decimal digits. */
  function DecimalString(n: nat): (ds: string)
    ensures |ds| >= 1 && AllDigits(ds)
    ensures ds[0] != '0' || ds == "0"
    ensures DigitsValue(ds) == n
  {
    if n < 10 then [DigitChar(n)]
    else
      var init := DecimalString(n / 10);
      var ds := init + [DigitChar(n % 10)];
      assert ds[..|ds| - 1] == init;
      ds
  }

  /** A digit string without a superfluous leading zero. */
  predicate IsCanonical(ds: string) {
    |ds| >= 1 && AllDigits(ds) && (ds[0] != '0' || ds == "0")
  }

  /** Reading back a canonical digit string and printing it again gives the
      same string, so `DecimalString` is onto the canonical strings. */
  lemma {:induction false} DecimalStringOfValue(ds: string)
    requires IsCanonical(ds)
    ensures DecimalString(DigitsValue(ds)) == ds
  {
    if |ds| == 1 {
      assert ds == [DigitChar(DigitsValue(ds))];
    } else {
      var init := ds[..|ds| - 1];
      var last := ds[|ds| - 1] as int - '0' as int;
      assert IsCanonical(init);
      DecimalStringOfValue(init);
      DigitsValueLowerBound(init);
      var n := DigitsValue(ds);
      assert n == DigitsValue(init) * 10 + last;
      assert n / 10 == DigitsValue(init) && n % 10 == last;
      assert DecimalString(n) == DecimalString(n / 10) + [DigitChar(n % 10)];
      assert DigitChar(last) == ds[|ds| - 1];
    }
  }

  /** A canonical digit string other than "0" denotes a positive number. */
  lemma {:induction false} DigitsValueLowerBound(ds: string)
    requires IsCanonical(ds) && ds != "0"
    ensures DigitsValue(ds) >= 1
  {
    if |ds| > 1 {
      DigitsValueLowerBound(ds[..|ds| - 1]);
    }
  }

  /** A string of digits denotes less than 10 to the power of its length. */
  lemma {:induction false} DigitsValueBelowPow10(ds: string)
    requires AllDigits(ds)
    ensures DigitsValue(ds) < Pow10(|ds|)
  {
    if ds != [] {
      DigitsValueBelowPow10(ds[..|ds| - 1]);
    }
  }

  /** A string of digits denotes a positive number iff one of its digits is not zero. */
  lemma {:induction false} DigitsValuePositive(ds: string)
    requires AllDigits(ds)
    ensures DigitsValue(ds) >= 1 <==> exists k :: 0 <= k < |ds| && ds[k] != '0'
  {
    if ds != [] {
      var init := ds[..|ds| - 1];
      DigitsValuePositive(init);
      if exists k :: 0 <= k < |init| && init[k] != '0' {
        var k :| 0 <= k < |init| && init[k] != '0';
        assert ds[k] != '0';
      }
      if exists k :: 0 <= k < |ds| && ds[k] != '0' {
        var k :| 0 <= k < |ds| && ds[k] != '0';
        if k < |init| { assert init[k] != '0'; }
      }
    }
  }
}

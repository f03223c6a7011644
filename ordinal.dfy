/** The English ordinal suffix of a day number, as used by the page's date
    display (`getOrdinal` in assets/script.js). */
module Ordinal {
  import opened Wrappers

  /** The lookup table `s` of getOrdinal. */
  const Suffixes: seq<string> := ["th", "st", "nd", "rd"]

  /** JavaScript's `%` on integers: the remainder truncates toward zero, so it
      takes the sign of the dividend (unlike Dafny's Euclidean `%`). */
  function JsRem(a: int, b: int): (r: int)
    requires b != 0
    ensures a >= 0 ==> 0 <= r < Abs(b)
    ensures a <= 0 ==> -Abs(b) < r <= 0
    ensures Abs(r) == Abs(a) % Abs(b)
  {
    if a >= 0 then a % Abs(b) else -((-a) % Abs(b))
  }

  function Abs(x: int): (r: int)
    ensures r >= 0 && (r == x || r == -x)
  {
    if x < 0 then -x else x
  }

  /** `s[i]` read as a JavaScript array: an index outside the table yields
      `undefined`, written `None` here. Every entry is a non-empty string,
      so a hit is truthy for `||`. */
  function Lookup(i: int): Option<string>
  {
    if 0 <= i < |Suffixes| then Some(Suffixes[i]) else None
  }

  /** `s[(v - 20) % 10] || s[v] || s[0]` with `v = n % 100`. */
  function GetOrdinal(n: int): (r: string)
    ensures r in Suffixes
  {
    var v := JsRem(n, 100);
    match Lookup(JsRem(v - 20, 10))
    case Some(x) => x
    case None =>
      match Lookup(v)
      case Some(x) => x
      case None => Suffixes[0]
  }

  /** The usual English rule, the independent reference for GetOrdinal:
      11th, 12th and 13th (mod 100) are exceptions, otherwise the last digit
      decides. */
  function EnglishSuffix(n: nat): string
  {
    if 11 <= n % 100 <= 13 then "th"
    else if n % 10 == 1 then "st"
    else if n % 10 == 2 then "nd"
    else if n % 10 == 3 then "rd"
    else "th"
  }

  lemma LastDigitOfRem100(n: nat)
    ensures (n % 100) % 10 == n % 10
  {
    var q := n / 100;
    assert n == 100 * q + n % 100;
    assert n == 10 * (10 * q) + n % 100;
  }

  /** Below 20 the first table read of getOrdinal misses, except where
      `v - 20` is a multiple of ten (v = 10 and, through JavaScript's -0,
      v = 0), and a hit there is always s[0]. */
  lemma FirstLookupBelowTwenty(v: int)
    requires 0 <= v < 20
    ensures Lookup(JsRem(v - 20, 10)).Some? <==> v == 0 || v == 10
    ensures Lookup(JsRem(v - 20, 10)).Some? ==> Lookup(JsRem(v - 20, 10)).value == "th"
  {
    var r := JsRem(v - 20, 10);
    assert r == -((20 - v) % 10);
  }

  /** From 20 on, the first read is the last digit's entry. */
  lemma FirstLookupFromTwenty(v: int)
    requires 20 <= v < 100
    ensures JsRem(v - 20, 10) == v % 10
  {
  }

  /** For every non-negative day number getOrdinal agrees with the English rule. */
  lemma GetOrdinalIsEnglish(n: nat)
    ensures GetOrdinal(n) == EnglishSuffix(n)
  {
    var v := n % 100;
    assert JsRem(n, 100) == v;
    LastDigitOfRem100(n);
    if v < 20 {
      FirstLookupBelowTwenty(v);
    } else {
      FirstLookupFromTwenty(v);
    }
  }

  /** A negative number always gets "th": both table reads miss and the
      fallback s[0] is used. */
  lemma GetOrdinalNegative(n: int)
    requires n < 0
    ensures GetOrdinal(n) == "th"
  {
    var v := JsRem(n, 100);
    assert -100 < v <= 0;
    var i := JsRem(v - 20, 10);
    assert -10 < i <= 0;
    if i == 0 {
      assert Lookup(i).value == "th";
    }
  }

  /** The three non-"th" suffixes, each with both directions. */
  lemma GetOrdinalSt(n: int)
    ensures GetOrdinal(n) == "st" <==> n >= 0 && n % 10 == 1 && n % 100 != 11
  {
    if n >= 0 { GetOrdinalIsEnglish(n); } else { GetOrdinalNegative(n); }
  }

  lemma GetOrdinalNd(n: int)
    ensures GetOrdinal(n) == "nd" <==> n >= 0 && n % 10 == 2 && n % 100 != 12
  {
    if n >= 0 { GetOrdinalIsEnglish(n); } else { GetOrdinalNegative(n); }
  }

  lemma GetOrdinalRd(n: int)
    ensures GetOrdinal(n) == "rd" <==> n >= 0 && n % 10 == 3 && n % 100 != 13
  {
    if n >= 0 { GetOrdinalIsEnglish(n); } else { GetOrdinalNegative(n); }
  }

  /** The days of a month, the only values the page passes in. */
  lemma DaysOfMonth(d: int)
    requires 1 <= d <= 31
    ensures GetOrdinal(d) == (if d in {1, 21, 31} then "st"
                              else if d in {2, 22} then "nd"
                              else if d in {3, 23} then "rd"
                              else "th")
  {
    GetOrdinalIsEnglish(d);
  }
}

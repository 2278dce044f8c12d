/**
 * String operations the source uses through Python's `str`: `in`, `find`, `split`,
 * `lower`, `endswith`, `strip` and decimal rendering of integers.
 * Lower-casing is ASCII; white space is what `str.isspace` accepts.
 */
module Text {
  import opened Wrappers

  /** `sub` occurs in `s` starting at index `i`. */
  predicate OccursAt(s: string, sub: string, i: int)
  {
    0 <= i && i + |sub| <= |s| && s[i..i + |sub|] == sub
  }

  lemma OccursAtTail(s: string, sub: string)
    requires |s| > 0
    ensures forall i :: 1 <= i ==> (OccursAt(s, sub, i) <==> OccursAt(s[1..], sub, i - 1))
  {
    forall i | 1 <= i
      ensures OccursAt(s, sub, i) <==> OccursAt(s[1..], sub, i - 1)
    {
      if i + |sub| <= |s| {
        assert s[1..][i - 1..i - 1 + |sub|] == s[i..i + |sub|];
      }
    }
  }

  /** Index of the first occurrence of `sub` in `s` (Python's `str.find`, None for -1). */
  function Find(s: string, sub: string): (r: Option<nat>)
    ensures r.Some? ==> OccursAt(s, sub, r.value)
    ensures r.Some? ==> forall i :: 0 <= i < r.value ==> !OccursAt(s, sub, i)
    ensures r.None? ==> forall i :: !OccursAt(s, sub, i)
    decreases |s|
  {
    if |s| < |sub| then None
    else if s[..|sub|] == sub then Some(0)
    else
      OccursAtTail(s, sub);
      match Find(s[1..], sub)
      case Some(k) => Some(k + 1)
      case None => None
  }

  /** Python's `sub in s`. */
  predicate Contains(s: string, sub: string)
  {
    Find(s, sub).Some?
  }

  lemma {:induction false} ContainsAt(s: string, sub: string, i: int)
    requires OccursAt(s, sub, i)
    ensures Contains(s, sub)
  {
  }

  /** The occurrence at `i` is the first one, so `Find` reports it. */
  lemma {:induction false} FindFirst(s: string, sub: string, i: nat)
    requires OccursAt(s, sub, i)
    requires forall j :: 0 <= j < i ==> !OccursAt(s, sub, j)
    ensures Find(s, sub) == Some(i)
  {
  }

  /** Whatever surrounds `b`, the concatenation contains `b`. */
  lemma {:induction false} InfixContained(a: string, b: string, c: string)
    ensures Contains(a + b + c, b)
  {
    var s := a + b + c;
    assert s[|a|..|a| + |b|] == b;
    ContainsAt(s, b, |a|);
  }

  /** A string lacking the first character of `sub` does not contain `sub`. */
  lemma {:induction false} MissingHeadNotContained(s: string, sub: string)
    requires |sub| > 0 && sub[0] !in s
    ensures !Contains(s, sub)
  {
    forall i
      ensures !OccursAt(s, sub, i)
    {
      if 0 <= i && i + |sub| <= |s| {
        assert s[i..i + |sub|][0] == s[i];
      }
    }
  }

  /** Python's `s.split(c)[0]` for a one-character separator: the text before the first `c`. */
  function BeforeFirst(s: string, c: char): (r: string)
    ensures c in s ==> |r| < |s| && s[|r|] == c
    ensures c !in s ==> r == s
    ensures r <= s && c !in r
  {
    match Find(s, [c])
    case Some(i) =>
      assert s[i..i + 1] == [c];
      SingleCharOccurrences(s, c, i);
      s[..i]
    case None =>
      SingleCharOccurrences(s, c, |s|);
      s
  }

  lemma SingleCharOccurrences(s: string, c: char, n: nat)
    requires n <= |s|
    requires forall j :: 0 <= j < n ==> !OccursAt(s, [c], j)
    ensures c !in s[..n]
  {
    forall j | 0 <= j < n
      ensures s[..n][j] != c
    {
      assert !OccursAt(s, [c], j);
      assert s[j..j + 1] == [s[j]];
    }
  }

  /** The part before the separator is recovered exactly. */
  lemma {:induction false} BeforeFirstOfJoin(a: string, c: char, b: string)
    requires c !in a
    ensures BeforeFirst(a + [c] + b, c) == a
  {
    var s := a + [c] + b;
    assert s[|a|..|a| + 1] == [c];
    forall j | 0 <= j < |a|
      ensures !OccursAt(s, [c], j)
    {
      assert s[j..j + 1][0] == a[j];
    }
    FindFirst(s, [c], |a|);
  }

  predicate EndsWith(s: string, suffix: string)
  {
    |suffix| <= |s| && s[|s| - |suffix|..] == suffix
  }

  function LowerChar(c: char): (r: char)
    ensures 'A' <= c <= 'Z' ==> r as int == c as int + 32
    ensures !('A' <= c <= 'Z') ==> r == c
  {
    if 'A' <= c <= 'Z' then (c as int + 32) as char else c
  }

  /** Python's `str.lower` restricted to ASCII letters. */
  function Lower(s: string): (r: string)
    ensures |r| == |s|
    ensures forall i :: 0 <= i < |s| ==> r[i] == LowerChar(s[i])
  {
    seq(|s|, i requires 0 <= i < |s| => LowerChar(s[i]))
  }

  lemma LowerSlice(s: string, i: int, j: int)
    requires 0 <= i <= j <= |s|
    ensures Lower(s)[i..j] == Lower(s[i..j])
  {
  }

  /** A case-sensitive occurrence is also a case-insensitive one. */
  lemma {:induction false} ContainsImpliesLowerContains(s: string, sub: string)
    requires Contains(s, sub)
    ensures Contains(Lower(s), Lower(sub))
  {
    var i := Find(s, sub).value;
    LowerSlice(s, i, i + |sub|);
    ContainsAt(Lower(s), Lower(sub), i);
  }

  /**
   * The white space removed by Python's `str.strip()` with no argument: the characters
   * for which `str.isspace` holds (Unicode category Zs or bidirectional class WS, B or S).
   */
  predicate IsSpace(c: char)
  {
    ('\t' <= c <= '\r') || ('\U{001C}' <= c <= ' ') || c == '\U{0085}' || c == '\U{00A0}' ||
    c == '\U{1680}' || ('\U{2000}' <= c <= '\U{200A}') || c == '\U{2028}' || c == '\U{2029}' ||
    c == '\U{202F}' || c == '\U{205F}' || c == '\U{3000}'
  }

  /** Every character of `s` is white space (so is the empty string). */
  predicate AllSpace(s: string)
  {
    forall i :: 0 <= i < |s| ==> IsSpace(s[i])
  }

  /** `s` neither starts nor ends with white space. */
  predicate Unpadded(s: string)
  {
    s == [] || (!IsSpace(s[0]) && !IsSpace(s[|s| - 1]))
  }

  /** The first index from `i` on that is not white space, or `|s|`. */
  function SpaceEnd(s: string, i: nat): (n: nat)
    requires i <= |s|
    ensures i <= n <= |s| && (forall k :: i <= k < n ==> IsSpace(s[k]))
    ensures n < |s| ==> !IsSpace(s[n])
    decreases |s| - i
  {
    if i == |s| || !IsSpace(s[i]) then i else SpaceEnd(s, i + 1)
  }

  /** The last index down from `j` to `lo` with no white space just before it. */
  function SpaceStart(s: string, lo: nat, j: nat): (n: nat)
    requires lo <= j <= |s|
    ensures lo <= n <= j && (forall k :: n <= k < j ==> IsSpace(s[k]))
    ensures n > lo ==> !IsSpace(s[n - 1])
  {
    if j == lo || !IsSpace(s[j - 1]) then j else SpaceStart(s, lo, j - 1)
  }

  /** The length of the white space `s` starts with. */
  function LeadingSpace(s: string): (n: nat)
    ensures n <= |s| && AllSpace(s[..n])
    ensures n < |s| ==> !IsSpace(s[n])
  {
    SpaceEnd(s, 0)
  }

  /**
   * Python's `str.strip()`: the part of `s` from the end of its leading white space,
   * with only white space after it and none at either of its own ends.
   */
  function Strip(s: string): (r: string)
    ensures |r| <= |s| && Unpadded(r)
    ensures var a := LeadingSpace(s); a + |r| <= |s| && r == s[a..a + |r|] && AllSpace(s[a + |r|..])
    ensures Unpadded(s) ==> r == s
  {
    var a := LeadingSpace(s);
    var b := SpaceStart(s, a, |s|);
    assert a < b ==> !IsSpace(s[a]);
    assert AllSpace(s[b..]) by {
      forall k | 0 <= k < |s| - b
        ensures IsSpace(s[b..][k])
      {
        assert s[b..][k] == s[b + k];
      }
    }
    assert Unpadded(s) ==> a == 0 && b == |s|;
    s[a..b]
  }

  /**
   * Strip gives back the middle of any split of `s` into white space, a part with no
   * white space at its ends, and white space.
   */
  lemma {:induction false} StripSplit(pre: string, mid: string, post: string)
    requires AllSpace(pre) && Unpadded(mid) && AllSpace(post)
    ensures Strip(pre + mid + post) == mid
  {
    var s := pre + mid + post;
    var r := Strip(s);
    var a, b := LeadingSpace(s), LeadingSpace(s) + |Strip(s)|;
    var m, n := |pre|, |pre| + |mid|;
    forall k | 0 <= k < m || n <= k < |s|
      ensures IsSpace(s[k])
    {
      if k < m { assert s[k] == pre[k]; } else { assert s[k] == post[k - n]; }
    }
    forall k | 0 <= k < a
      ensures IsSpace(s[k])
    {
      assert s[..a][k] == s[k];
    }
    forall k | b <= k < |s|
      ensures IsSpace(s[k])
    {
      assert s[b..][k - b] == s[k];
    }
    if mid != [] {
      assert s[m] == mid[0] && s[n - 1] == mid[|mid| - 1];
      assert a == m;
      assert r != [] && s[b - 1] == r[|r| - 1];
      assert b == n;
      assert s[m..n] == mid;
    }
  }

  /** `s` is its leading white space, its stripped text and the white space after it. */
  lemma {:induction false} StripParts(s: string)
    ensures var a, r := LeadingSpace(s), Strip(s);
      s == s[..a] + r + s[a + |r|..] && AllSpace(s[..a]) && AllSpace(s[a + |r|..])
  {
    var a, r := LeadingSpace(s), Strip(s);
    assert s == s[..a] + s[a..a + |r|] + s[a + |r|..];
  }

  lemma {:induction false} AllSpaceAppend(x: string, y: string)
    requires AllSpace(x) && AllSpace(y)
    ensures AllSpace(x + y)
  {
    forall k | 0 <= k < |x + y|
      ensures IsSpace((x + y)[k])
    {
      if k < |x| { assert (x + y)[k] == x[k]; } else { assert (x + y)[k] == y[k - |x|]; }
    }
  }

  function DigitChar(d: nat): (c: char)
    requires d < 10
    ensures '0' <= c <= '9' && c as int - '0' as int == d
  {
    ('0' as int + d) as char
  }

  predicate IsDigits(s: string)
  {
    forall i :: 0 <= i < |s| ==> '0' <= s[i] <= '9'
  }

  /** Python's `str(n)` for a non-negative integer. */
  function NatToString(n: nat): (r: string)
    ensures |r| > 0 && IsDigits(r)
    ensures r[0] == '0' <==> n == 0
  {
    if n < 10 then [DigitChar(n)] else NatToString(n / 10) + [DigitChar(n % 10)]
  }

  /** Decimal reading of a digit string; the inverse of `NatToString`. */
  function DigitsValue(s: string): nat
    requires IsDigits(s)
  {
    if s == [] then 0 else DigitsValue(s[..|s| - 1]) * 10 + (s[|s| - 1] as int - '0' as int)
  }

  lemma {:induction false} NatToStringRoundTrip(n: nat)
    ensures DigitsValue(NatToString(n)) == n
  {
    if n >= 10 {
      var s := NatToString(n);
      assert s[..|s| - 1] == NatToString(n / 10);
      NatToStringRoundTrip(n / 10);
    }
  }

  /** `strftime`-style two-digit field (`%m`, `%d`, `%H`, `%M`). */
  function Pad2(n: nat): (r: string)
    requires n < 100
    ensures |r| == 2 && IsDigits(r)
    ensures DigitsValue(r) == n
  {
    var r := [DigitChar(n / 10), DigitChar(n % 10)];
    assert r[..1] == [DigitChar(n / 10)] && r[..1][..0] == [];
    assert DigitsValue(r[..1]) == n / 10;
    r
  }

  /** `strftime`'s `%Y`: four digits, zero-padded below 1000. */
  function Pad4(n: nat): (r: string)
    requires n < 10000
    ensures |r| == 4 && IsDigits(r)
    ensures DigitsValue(r) == n
  {
    var hi := Pad2(n / 100);
    var lo := Pad2(n % 100);
    DigitsValueTwoMore(hi, lo);
    hi + lo
  }

  /** Two more digits multiply the value read so far by a hundred. */
  lemma {:induction false} DigitsValueTwoMore(a: string, b: string)
    requires IsDigits(a) && IsDigits(b) && |b| == 2
    ensures IsDigits(a + b) && DigitsValue(a + b) == DigitsValue(a) * 100 + DigitsValue(b)
  {
    var s := a + b;
    var da, d0, d1 := DigitsValue(a), b[0] as int - '0' as int, b[1] as int - '0' as int;
    assert s[..|s| - 1] == a + [b[0]];
    assert (a + [b[0]])[..|a|] == a;
    assert DigitsValue(a + [b[0]]) == da * 10 + d0;
    assert DigitsValue(s) == (da * 10 + d0) * 10 + d1;
    assert b[..|b| - 1] == [b[0]] && [b[0]][..0] == [];
    assert DigitsValue([b[0]]) == d0;
    assert DigitsValue(b) == d0 * 10 + d1;
    ShiftTwoDigits(da, d0, d1);
  }

  lemma ShiftTwoDigits(x: int, y: int, z: int)
    ensures (x * 10 + y) * 10 + z == x * 100 + (y * 10 + z)
  {
  }
}

/** The handful of Python `str` operations the backend relies on: `strip()`,
    `in`, `split(sep)[k]`, `str(n)` for naturals, `lower()`/`upper()` and
    `sep.join(parts)`. */
module Text {
  import opened Wrappers

  // ---------------------------------------------------------------------------
  // Whitespace and strip()
  // ---------------------------------------------------------------------------

  /** Python's `str.isspace` for one character: the ASCII separators and
      control whitespace plus the Unicode space separators. */
  predicate IsSpace(c: char)
  {
    || c == ' ' || c == '\t' || c == '\n' || c == '\r'
    || c == '\U{000B}' || c == '\U{000C}'
    || ('\U{001C}' <= c <= '\U{001F}')
    || c == '\U{0085}' || c == '\U{00A0}' || c == '\U{1680}'
    || ('\U{2000}' <= c <= '\U{200A}')
    || c == '\U{2028}' || c == '\U{2029}' || c == '\U{202F}' || c == '\U{205F}'
    || c == '\U{3000}'
  }

  predicate AllSpace(s: string)
  {
    forall i :: 0 <= i < |s| ==> IsSpace(s[i])
  }

  /** The position of the first non-whitespace character at or after `from`
      (or `|s|`). */
  function SkipSpace(s: string, from: nat): (i: nat)
    requires from <= |s|
    ensures from <= i <= |s|
    ensures forall k :: from <= k < i ==> IsSpace(s[k])
    ensures i == |s| || !IsSpace(s[i])
    decreases |s| - from
  {
    if from == |s| || !IsSpace(s[from]) then from else SkipSpace(s, from + 1)
  }

  /** One past the last non-whitespace character before `stop` and at or
      after `lo` (or `lo`). */
  function SkipSpaceBack(s: string, lo: nat, stop: nat): (j: nat)
    requires lo <= stop <= |s|
    ensures lo <= j <= stop
    ensures forall k :: j <= k < stop ==> IsSpace(s[k])
    ensures j == lo || !IsSpace(s[j - 1])
    decreases stop
  {
    if stop == lo || !IsSpace(s[stop - 1]) then stop else SkipSpaceBack(s, lo, stop - 1)
  }

  /** `r` is `s` with `i` whitespace characters cut from the front and only
      whitespace cut from the back. */
  ghost predicate PaddedAt(s: string, r: string, i: int)
  {
    && 0 <= i <= |s| - |r|
    && s[i..i + |r|] == r
    && (forall k :: 0 <= k < i ==> IsSpace(s[k]))
    && (forall k :: i + |r| <= k < |s| ==> IsSpace(s[k]))
  }

  /** `s.strip()`: the longest infix of `s` that neither starts nor ends with
      whitespace, obtained by cutting whitespace only. */
  function Strip(s: string): (r: string)
    ensures exists i :: PaddedAt(s, r, i)
    ensures r == [] || (!IsSpace(r[0]) && !IsSpace(r[|r| - 1]))
  {
    var i := SkipSpace(s, 0);
    var j := SkipSpaceBack(s, i, |s|);
    assert PaddedAt(s, s[i..j], i);
    s[i..j]
  }

  /** Python's truthiness test `s and s.strip()` fails exactly for these. */
  predicate IsBlank(s: string)
  {
    Strip(s) == []
  }

  /** Only all-whitespace strings are blank, and they all are. */
  lemma BlankIsAllSpace(s: string)
    ensures IsBlank(s) <==> AllSpace(s)
  {
    var r := Strip(s);
    var i :| PaddedAt(s, r, i);
    if r != [] {
      assert s[i] == r[0];
    }
  }

  // ---------------------------------------------------------------------------
  // Substring search: `pat in s`, `s.find(pat)`, `s.split(pat)[k]`
  // ---------------------------------------------------------------------------

  predicate OccursAt(s: string, pat: string, i: int)
  {
    0 <= i && i + |pat| <= |s| && s[i..i + |pat|] == pat
  }

  /** The first occurrence of `pat` in `s` at or after `from`. */
  function FindFrom(s: string, pat: string, from: nat): (r: Option<nat>)
    requires from <= |s|
    ensures r.Some? ==> from <= r.value && OccursAt(s, pat, r.value)
    ensures r.Some? ==> forall j :: from <= j < r.value ==> !OccursAt(s, pat, j)
    ensures r.None? ==> forall j :: from <= j ==> !OccursAt(s, pat, j)
    decreases |s| - from
  {
    if OccursAt(s, pat, from) then Some(from)
    else if from == |s| then None
    else FindFrom(s, pat, from + 1)
  }

  /** `s.find(pat)`, with `None` for Python's `-1`. */
  function Find(s: string, pat: string): (r: Option<nat>)
    ensures r.Some? ==> OccursAt(s, pat, r.value) && forall j :: 0 <= j < r.value ==> !OccursAt(s, pat, j)
    ensures r.None? ==> forall j :: !OccursAt(s, pat, j)
  {
    FindFrom(s, pat, 0)
  }

  /** `pat in s` */
  predicate Contains(s: string, pat: string)
  {
    Find(s, pat).Some?
  }

  /** A prefix of `s` holds only the occurrences that `s` has inside it. */
  lemma NoOccurrenceInPrefix(s: string, pat: string, n: nat)
    requires n <= |s|
    requires forall j :: 0 <= j && j + |pat| <= n ==> !OccursAt(s, pat, j)
    ensures forall j :: !OccursAt(s[..n], pat, j)
  {
    forall j
      ensures !OccursAt(s[..n], pat, j)
    {
      if 0 <= j && j + |pat| <= n {
        assert !OccursAt(s, pat, j);
        assert s[..n][j..j + |pat|] == s[j..j + |pat|];
      }
    }
  }

  /** `s.split(sep)[0]`: everything before the first `sep`, or all of `s`. */
  function SplitHead(s: string, sep: string): (r: string)
    requires sep != []
    ensures |r| <= |s| && r == s[..|r|]
    ensures !Contains(r, sep)
    ensures Contains(s, sep) ==> OccursAt(s, sep, |r|)
    ensures !Contains(s, sep) ==> r == s
  {
    match Find(s, sep)
    case None => s
    case Some(i) =>
      NoOccurrenceInPrefix(s, sep, i);
      s[..i]
  }

  /** The text that follows the first `sep` in `s`. */
  function After(s: string, sep: string): (r: string)
    requires sep != [] && Contains(s, sep)
    ensures exists i :: && OccursAt(s, sep, i) && r == s[i + |sep|..]
                        && forall j :: 0 <= j < i ==> !OccursAt(s, sep, j)
  {
    var i := Find(s, sep).value;
    s[i + |sep|..]
  }

  /** Occurrences that fit inside a prefix are the same in the prefix and in the whole. */
  lemma OccursInPrefixIff(s: string, pat: string, c: nat, j: int)
    requires c <= |s| && 0 <= j && j + |pat| <= c
    ensures OccursAt(s[..c], pat, j) <==> OccursAt(s, pat, j)
  {
    assert s[..c][j..j + |pat|] == s[j..j + |pat|];
  }

  /** Cutting `s` after its first `sep` does not move that first `sep`. */
  lemma SplitHeadOfLongPrefix(s: string, sep: string, c: nat)
    requires sep != [] && c <= |s| && Contains(s, sep)
    requires |SplitHead(s, sep)| + |sep| <= c
    ensures SplitHead(s[..c], sep) == SplitHead(s, sep)
  {
    var q := Find(s, sep).value;
    OccursInPrefixIff(s, sep, c, q);
    var q' := Find(s[..c], sep).value;
    OccursInPrefixIff(s, sep, c, q');
  }

  /** A prefix of `s` that ends before its first `sep` holds no `sep`. */
  lemma SplitHeadOfShortPrefix(s: string, sep: string, c: nat)
    requires sep != [] && c <= |SplitHead(s, sep)|
    ensures SplitHead(s[..c], sep) == s[..c]
  {
    NoOccurrenceInPrefix(s, sep, c);
  }

  /** An occurrence of `pat` is an occurrence of each prefix of `pat`. */
  lemma OccursPrefixOfPattern(s: string, pat: string, n: nat, i: int)
    requires n <= |pat| && OccursAt(s, pat, i)
    ensures OccursAt(s, pat[..n], i)
  {
    assert s[i..i + n] == s[i..i + |pat|][..n];
  }

  /** `s.split(sep)[1]`: the text between the first and the second `sep`
      (or up to the end when there is only one). The caller has checked
      `sep in s`, so Python's `IndexError` cannot arise. */
  function SplitSecond(s: string, sep: string): (r: string)
    requires sep != [] && Contains(s, sep)
  {
    SplitHead(After(s, sep), sep)
  }

  /** Cutting at the first `sep` a second time changes nothing: the piece
      already holds no `sep`. */
  lemma SplitHeadIdempotent(s: string, sep: string)
    requires sep != []
    ensures SplitHead(SplitHead(s, sep), sep) == SplitHead(s, sep)
  {
  }

  // ---------------------------------------------------------------------------
  // Decimal rendering of naturals: `str(n)` and `f"...{n}..."`
  // ---------------------------------------------------------------------------

  predicate IsDigit(c: char)
  {
    '0' <= c <= '9'
  }

  predicate AllDigits(s: string)
  {
    forall i :: 0 <= i < |s| ==> IsDigit(s[i])
  }

  function DigitChar(d: nat): (c: char)
    requires d < 10
    ensures IsDigit(c)
  {
    ('0' as int + d) as char
  }

  function DigitValue(c: char): (d: nat)
    requires IsDigit(c)
    ensures d < 10 && DigitChar(d) == c
  {
    c as int - '0' as int
  }

  /** `str(n)`: decimal digits, most significant first, no leading zero. */
  function NatToString(n: nat): (r: string)
    ensures |r| >= 1 && AllDigits(r)
    ensures r[0] == '0' ==> n == 0
  {
    if n < 10 then [DigitChar(n)] else NatToString(n / 10) + [DigitChar(n % 10)]
  }

  /** `int(s)` for a string of decimal digits. */
  function ParseDigits(s: string): nat
    requires AllDigits(s)
  {
    if s == [] then 0 else ParseDigits(s[..|s| - 1]) * 10 + DigitValue(s[|s| - 1])
  }

  /** Reading back what `str` wrote gives the number again. */
  lemma {:induction false} ParseNatToString(n: nat)
    ensures ParseDigits(NatToString(n)) == n
  {
    if n >= 10 {
      var s := NatToString(n);
      assert s[..|s| - 1] == NatToString(n / 10);
      ParseNatToString(n / 10);
    }
  }

  /** Distinct numbers are rendered as distinct strings. */
  lemma NatToStringInjective(a: nat, b: nat)
    requires NatToString(a) == NatToString(b)
    ensures a == b
  {
    ParseNatToString(a);
    ParseNatToString(b);
  }

  /** Two digit strings followed by a non-digit can only be equal as wholes
      when the digit parts are equal: the first non-digit marks the cut. */
  lemma DigitsPrefixCancel(a: string, x: string, b: string, y: string)
    requires AllDigits(a) && AllDigits(b)
    requires x != [] && y != [] && !IsDigit(x[0]) && !IsDigit(y[0])
    requires a + x == b + y
    ensures a == b && x == y
  {
    DigitRun(a, x);
    DigitRun(b, y);
    assert |a| == |b|;
    assert a == (a + x)[..|a|];
    assert b == (b + y)[..|b|];
    assert x == (a + x)[|a|..];
    assert y == (b + y)[|b|..];
  }

  /** In `a + x`, the first non-digit sits at `|a|`. */
  lemma DigitRun(a: string, x: string)
    requires AllDigits(a) && x != [] && !IsDigit(x[0])
    ensures forall i :: 0 <= i < |a| ==> IsDigit((a + x)[i])
    ensures !IsDigit((a + x)[|a|])
  {
  }

  // ---------------------------------------------------------------------------
  // Case mapping (ASCII letters) and join
  // ---------------------------------------------------------------------------

  function LowerChar(c: char): char
  {
    if 'A' <= c <= 'Z' then (c as int + 32) as char else c
  }

  function UpperChar(c: char): char
  {
    if 'a' <= c <= 'z' then (c as int - 32) as char else c
  }

  /** `s.lower()` */
  function Lower(s: string): (r: string)
    ensures |r| == |s|
  {
    seq(|s|, i requires 0 <= i < |s| => LowerChar(s[i]))
  }

  /** `s.upper()` */
  function Upper(s: string): (r: string)
    ensures |r| == |s|
  {
    seq(|s|, i requires 0 <= i < |s| => UpperChar(s[i]))
  }

  /** `sep.join(parts)` */
  function Join(parts: seq<string>, sep: string): (r: string)
    ensures |parts| == 1 ==> r == parts[0]
    ensures |parts| == 2 ==> r == parts[0] + sep + parts[1]
  {
    if parts == [] then []
    else if |parts| == 1 then parts[0]
    else parts[0] + sep + Join(parts[1..], sep)
  }
}

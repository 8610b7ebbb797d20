/** The few .NET string operations the services rely on, over `string` = `seq<char>`:
    `Char.IsWhiteSpace`, `string.IsNullOrWhiteSpace`, `TrimStart`, `StartsWith`,
    `Contains(_, StringComparison.OrdinalIgnoreCase)`, `string.Join` and `int.TryParse`. */
module Text {
  import opened Wrappers

  // ---------------------------------------------------------------------------
  // White space
  // ---------------------------------------------------------------------------

  /** `Char.IsWhiteSpace`: the Unicode space, line and paragraph separators,
      U+0009..U+000D, U+0085 and U+00A0. */
  predicate IsWhiteSpace(c: char) {
    || ('\t' <= c <= '\r')
    || c == ' '
    || c == '\U{0085}'
    || c == '\U{00A0}'
    || c == '\U{1680}'
    || ('\U{2000}' <= c <= '\U{200A}')
    || c == '\U{2028}'
    || c == '\U{2029}'
    || c == '\U{202F}'
    || c == '\U{205F}'
    || c == '\U{3000}'
  }

  /** Every character of `s` is white space (vacuously true of ""). */
  predicate IsWhiteSpaceOnly(s: string) {
    forall i :: 0 <= i < |s| ==> IsWhiteSpace(s[i])
  }

  /** `string.IsNullOrWhiteSpace`: null, empty, or white space only. */
  predicate IsNullOrWhiteSpace(s: Option<string>) {
    s.None? || IsWhiteSpaceOnly(s.value)
  }

  /** `string.TrimStart()`: the longest suffix of `s` that does not start with white space. */
  function TrimStart(s: string): string
  {
    if s != [] && IsWhiteSpace(s[0]) then TrimStart(s[1..]) else s
  }

  /** What `TrimStart` removes is white space only, and what it keeps is a suffix that
      does not start with white space. */
  lemma {:induction false} TrimStartSpec(s: string)
    ensures var r := TrimStart(s);
      && |r| <= |s| && r == s[|s| - |r|..]
      && IsWhiteSpaceOnly(s[..|s| - |r|])
      && (r != [] ==> !IsWhiteSpace(r[0]))
  {
    if s != [] && IsWhiteSpace(s[0]) {
      TrimStartSpec(s[1..]);
      var r := TrimStart(s);
      assert s[..|s| - |r|] == [s[0]] + s[1..][..|s| - 1 - |r|];
    }
  }

  /** `s.StartsWith(prefix)`. */
  predicate StartsWith(s: string, prefix: string) {
    prefix <= s
  }

  // ---------------------------------------------------------------------------
  // Ordinal, case-insensitive search
  // ---------------------------------------------------------------------------

  /** Upper-casing restricted to the ASCII letters. */
  function ToUpperAscii(c: char): (u: char)
    ensures 'a' <= c <= 'z' ==> u as int == c as int - 32
    ensures !('a' <= c <= 'z') ==> u == c
  {
    if 'a' <= c <= 'z' then (c as int - 32) as char else c
  }

  /** Ordinal comparison of two strings after upper-casing each character. */
  predicate EqualsIgnoreCase(a: string, b: string) {
    |a| == |b| && forall i :: 0 <= i < |a| ==> ToUpperAscii(a[i]) == ToUpperAscii(b[i])
  }

  /** `needle` occurs in `s` at position `k`, ignoring case. */
  predicate OccursAt(s: string, needle: string, k: int) {
    0 <= k && k + |needle| <= |s| && EqualsIgnoreCase(s[k..k + |needle|], needle)
  }

  /** `s.Contains(needle, StringComparison.OrdinalIgnoreCase)`, scanning from the left. */
  function ContainsIgnoreCase(s: string, needle: string): bool
    decreases |s|
  {
    if |s| < |needle| then false
    else if EqualsIgnoreCase(s[..|needle|], needle) then true
    else ContainsIgnoreCase(s[1..], needle)
  }

  /** The scan finds `needle` exactly when it occurs somewhere in `s`. */
  lemma {:induction false} ContainsIgnoreCaseSpec(s: string, needle: string)
    ensures ContainsIgnoreCase(s, needle) <==> exists k :: OccursAt(s, needle, k)
    decreases |s|
  {
    if |s| < |needle| {
      assert forall k :: !OccursAt(s, needle, k);
    } else if EqualsIgnoreCase(s[..|needle|], needle) {
      assert OccursAt(s, needle, 0);
    } else {
      ContainsIgnoreCaseSpec(s[1..], needle);
      assert forall k :: OccursAt(s[1..], needle, k) <==> OccursAt(s, needle, k + 1) by {
        forall k ensures OccursAt(s[1..], needle, k) <==> OccursAt(s, needle, k + 1) {
          if 0 <= k && k + |needle| <= |s| - 1 {
            assert s[1..][k..k + |needle|] == s[k + 1..k + 1 + |needle|];
          }
        }
      }
      if ContainsIgnoreCase(s, needle) {
        var k :| OccursAt(s[1..], needle, k);
        assert OccursAt(s, needle, k + 1);
      }
      if exists k :: OccursAt(s, needle, k) {
        var k :| OccursAt(s, needle, k);
        assert k != 0;
        assert OccursAt(s[1..], needle, k - 1);
      }
    }
  }

  // ---------------------------------------------------------------------------
  // Join and split
  // ---------------------------------------------------------------------------

  /** `string.Join(sep, xs)`. */
  function Join(xs: seq<string>, sep: string): (r: string)
    ensures xs != [] ==> xs[0] <= r
    ensures |xs| == 1 ==> r == xs[0]
  {
    if |xs| == 0 then ""
    else if |xs| == 1 then xs[0]
    else xs[0] + sep + Join(xs[1..], sep)
  }

  /** Splits `s` at every occurrence of `sep` (as `s.Split(sep)` does). */
  function Split(s: string, sep: char): (r: seq<string>)
    ensures r != []
    ensures forall i :: 0 <= i < |r| ==> sep !in r[i]
    decreases |s|
  {
    if sep !in s then [s]
    else
      var k := IndexOf(s, sep);
      [s[..k]] + Split(s[k + 1..], sep)
  }

  /** Index of the first occurrence of `c` in `s`. */
  function IndexOf(s: string, c: char): (k: nat)
    requires c in s
    ensures k < |s| && s[k] == c && c !in s[..k]
  {
    if s[0] == c then 0 else 1 + IndexOf(s[1..], c)
  }

  // ---------------------------------------------------------------------------
  // int.TryParse and int.ToString
  // ---------------------------------------------------------------------------

  const Int32Min: int := -0x8000_0000
  const Int32Max: int := 0x7FFF_FFFF

  /** The white space `NumberStyles.Integer` accepts around a number: U+0009..U+000D and U+0020. */
  predicate IsNumberWhite(c: char) {
    ('\t' <= c <= '\r') || c == ' '
  }

  predicate IsDigit(c: char) {
    '0' <= c <= '9'
  }

  predicate AllDigits(s: string) {
    forall i :: 0 <= i < |s| ==> IsDigit(s[i])
  }

  /** Drops `NumberStyles.Integer` white space at both ends. */
  function TrimNumberWhite(s: string): (r: string)
    ensures |r| <= |s|
    ensures r != [] ==> !IsNumberWhite(r[0]) && !IsNumberWhite(r[|r| - 1])
    ensures s != [] && !IsNumberWhite(s[0]) && !IsNumberWhite(s[|s| - 1]) ==> r == s
    decreases |s|
  {
    if s != [] && IsNumberWhite(s[0]) then TrimNumberWhite(s[1..])
    else if s != [] && IsNumberWhite(s[|s| - 1]) then TrimNumberWhite(s[..|s| - 1])
    else s
  }

  /** The value of a string of decimal digits, most significant first. */
  function DigitsValue(s: string): nat
    requires AllDigits(s)
  {
    if s == [] then 0
    else
      assert IsDigit(s[|s| - 1]);
      10 * DigitsValue(s[..|s| - 1]) + (s[|s| - 1] as int - '0' as int)
  }

  /** `int.TryParse(s, out v)` with `NumberStyles.Integer` and an invariant-culture sign:
      optional white space, an optional `+` or `-`, at least one decimal digit,
      optional white space, and a value that fits in 32 bits. */
  function TryParseInt32(s: string): (r: Option<int>)
    ensures r.Some? ==> Int32Min <= r.value <= Int32Max
  {
    var t := TrimNumberWhite(s);
    var signed := t != [] && (t[0] == '-' || t[0] == '+');
    var digits := if signed then t[1..] else t;
    if digits == [] || !AllDigits(digits) then None
    else
      var v: int := if signed && t[0] == '-' then -(DigitsValue(digits) as int) else DigitsValue(digits);
      if Int32Min <= v <= Int32Max then Some(v) else None
  }

  function DigitChar(d: nat): (c: char)
    requires d < 10
    ensures IsDigit(c) && c as int - '0' as int == d
  {
    ('0' as int + d) as char
  }

  /** The decimal digits of `n`, without leading zeros. */
  function NatToString(n: nat): (s: string)
    ensures s != [] && AllDigits(s)
  {
    if n < 10 then [DigitChar(n)] else NatToString(n / 10) + [DigitChar(n % 10)]
  }

  /** `int.ToString()` in the invariant culture. */
  function IntToString(n: int): (s: string)
    ensures s != []
  {
    if n < 0 then "-" + NatToString(-n) else NatToString(n)
  }

  lemma {:induction false} NatToStringValue(n: nat)
    ensures DigitsValue(NatToString(n)) == n
  {
    var s := NatToString(n);
    if n >= 10 {
      NatToStringValue(n / 10);
      assert s[..|s| - 1] == NatToString(n / 10);
    }
  }

  /** Round trip: `int.TryParse` reads back what `int.ToString` wrote, for every 32-bit value. */
  lemma TryParseIntToString(n: int)
    requires Int32Min <= n <= Int32Max
    ensures TryParseInt32(IntToString(n)) == Some(n)
  {
    var s := IntToString(n);
    var m := if n < 0 then -n else n;
    var digits := NatToString(m);
    NatToStringValue(m);
    assert !IsNumberWhite(s[0]) && !IsNumberWhite(s[|s| - 1]) by {
      assert IsDigit(digits[|digits| - 1]);
      if n >= 0 {
        assert IsDigit(digits[0]);
      }
    }
    assert TrimNumberWhite(s) == s;
    if n < 0 {
      assert s[1..] == digits;
    }
  }

  /** Round trip: joining lines that hold no separator and splitting again gives the lines back. */
  lemma {:induction false} SplitJoin(xs: seq<string>, sep: char)
    requires xs != []
    requires forall i :: 0 <= i < |xs| ==> sep !in xs[i]
    ensures Split(Join(xs, [sep]), sep) == xs
  {
    if |xs| > 1 {
      var rest := Join(xs[1..], [sep]);
      var s := xs[0] + [sep] + rest;
      assert sep in s by { assert s[|xs[0]|] == sep; }
      var k := IndexOf(s, sep);
      assert k == |xs[0]|;
      assert s[..k] == xs[0];
      assert s[k + 1..] == rest;
      SplitJoin(xs[1..], sep);
    }
  }
}

/**
 * The JavaScript (and Java) string operations the client and the entity
 * constraints rely on, written out on `seq<char>`: `trim`, `toLowerCase`,
 * `includes`, `split`, `join`, `length` in UTF-16 code units, decimal
 * rendering of numbers, `parseInt`, and the default `Array.prototype.sort`
 * order on strings.
 */
module JsString {
  import opened Wrappers

  type String = seq<char>

  // ---------------------------------------------------------------------
  // trim
  // ---------------------------------------------------------------------

  /** WhiteSpace and LineTerminator code points of ECMA-262, section 12.2 and 12.3:
      the characters that `String.prototype.trim` removes. */
  predicate IsWhite(c: char) {
    c == '\t' || c == '\n' || c == '\U{000B}' || c == '\U{000C}' || c == '\r' || c == ' '
    || c == '\U{00A0}' || c == '\U{1680}' || ('\U{2000}' <= c <= '\U{200A}')
    || c == '\U{2028}' || c == '\U{2029}' || c == '\U{202F}' || c == '\U{205F}'
    || c == '\U{3000}' || c == '\U{FEFF}'
  }

  /** Every character of `s` is white space (the empty string included). */
  predicate IsBlank(s: String) {
    forall k :: 0 <= k < |s| ==> IsWhite(s[k])
  }

  /** The leading white space that `parseInt` skips: what is left is a
      suffix that does not start with white space, and all that was cut is
      white space. */
  function TrimStart(s: String): (r: String)
    ensures |r| <= |s| && r == s[|s| - |r|..]
    ensures r == [] || !IsWhite(r[0])
    ensures forall k :: 0 <= k < |s| - |r| ==> IsWhite(s[k])
  {
    if s != [] && IsWhite(s[0]) then
      var r := TrimStart(s[1..]);
      assert s[1..][|s| - 1 - |r|..] == s[|s| - |r|..];
      r
    else s
  }

  /** `String.prototype.trim`: white space is cut off at both ends, leaving
      a string that neither starts nor ends with white space. */
  function Trim(s: String): (r: String)
    ensures |r| <= |s|
    ensures r == [] || (!IsWhite(r[0]) && !IsWhite(r[|r| - 1]))
    decreases |s|
  {
    if s != [] && IsWhite(s[0]) then Trim(s[1..])
    else if s != [] && IsWhite(s[|s| - 1]) then Trim(s[..|s| - 1])
    else s
  }

  lemma BlankAppend(a: String, b: String)
    requires IsBlank(a) && IsBlank(b)
    ensures IsBlank(a + b)
  {
    forall k | 0 <= k < |a + b| ensures IsWhite((a + b)[k]) {
      if k < |a| { assert (a + b)[k] == a[k]; } else { assert (a + b)[k] == b[k - |a|]; }
    }
  }

  /** `r` sits in `s` at `i`, with only white space around it. */
  predicate MiddleSlice(s: String, r: String, i: int) {
    0 <= i <= |s| - |r| && r == s[i..i + |r|] && IsBlank(s[..i]) && IsBlank(s[i + |r|..])
  }

  lemma SliceAfterWhite(s: String, r: String, j: int)
    requires s != [] && IsWhite(s[0]) && MiddleSlice(s[1..], r, j)
    ensures MiddleSlice(s, r, j + 1)
  {
    var t := s[1..];
    assert r == s[j + 1..j + 1 + |r|];
    assert t[j + |r|..] == s[j + 1 + |r|..];
    assert s[..j + 1] == [s[0]] + t[..j];
    BlankAppend([s[0]], t[..j]);
  }

  lemma SliceBeforeWhite(s: String, r: String, j: int)
    requires s != [] && IsWhite(s[|s| - 1]) && MiddleSlice(s[..|s| - 1], r, j)
    ensures MiddleSlice(s, r, j)
  {
    var t := s[..|s| - 1];
    assert r == s[j..j + |r|];
    assert t[..j] == s[..j];
    assert s[j + |r|..] == t[j + |r|..] + [s[|s| - 1]];
    BlankAppend(t[j + |r|..], [s[|s| - 1]]);
  }

  /** What trimming keeps is a middle slice; what it cuts off is white
      space. */
  lemma {:induction false} TrimSlice(s: String)
    ensures exists i :: MiddleSlice(s, Trim(s), i)
    decreases |s|
  {
    var r := Trim(s);
    if s != [] && IsWhite(s[0]) {
      TrimSlice(s[1..]);
      var j :| MiddleSlice(s[1..], r, j);
      SliceAfterWhite(s, r, j);
    } else if s != [] && IsWhite(s[|s| - 1]) {
      TrimSlice(s[..|s| - 1]);
      var j :| MiddleSlice(s[..|s| - 1], r, j);
      SliceBeforeWhite(s, r, j);
    } else {
      assert MiddleSlice(s, r, 0);
    }
  }

  /** A string is blank exactly when trimming empties it: the test behind
      every `!x.trim()` guard of the forms. */
  lemma {:induction false} TrimEmptyIffBlank(s: String)
    ensures Trim(s) == [] <==> IsBlank(s)
  {
    var r := Trim(s);
    TrimSlice(s);
    var i :| MiddleSlice(s, r, i);
    if r == [] {
      forall k | 0 <= k < |s| ensures IsWhite(s[k]) {
        if k < i { assert s[..i][k] == s[k]; } else { assert s[i..][k - i] == s[k]; }
      }
    } else {
      assert s[i] == r[0];
    }
  }

  // ---------------------------------------------------------------------
  // toLowerCase
  // ---------------------------------------------------------------------

  /** Lower-case mapping of one character: ASCII, the Latin-1 capitals, and
      the Turkish capitals Ğ, Ş and dotted İ (which lower-cases to two code
      points, i followed by U+0307 COMBINING DOT ABOVE). */
  function LowerChar(c: char): (r: String)
    ensures 1 <= |r| <= 2
  {
    if 'A' <= c <= 'Z' || ('\U{00C0}' <= c <= '\U{00DE}' && c != '\U{00D7}') then [(c as int + 32) as char]
    else if c == '\U{011E}' || c == '\U{015E}' then [(c as int + 1) as char]
    else if c == '\U{0130}' then ['i', '\U{0307}']
    else [c]
  }

  function ToLower(s: String): (r: String)
    ensures |s| <= |r| <= 2 * |s|
  {
    if s == [] then [] else LowerChar(s[0]) + ToLower(s[1..])
  }

  lemma {:induction false} ToLowerAppend(a: String, b: String)
    ensures ToLower(a + b) == ToLower(a) + ToLower(b)
  {
    if a != [] {
      assert (a + b)[0] == a[0] && (a + b)[1..] == a[1..] + b;
      ToLowerAppend(a[1..], b);
      calc {
        ToLower(a + b);
        LowerChar(a[0]) + ToLower(a[1..] + b);
        LowerChar(a[0]) + (ToLower(a[1..]) + ToLower(b));
        (LowerChar(a[0]) + ToLower(a[1..])) + ToLower(b);
      }
    } else {
      assert a + b == b;
    }
  }

  /** Lower-casing is idempotent, so a query that is already lower case is
      matched exactly as the original. */
  lemma {:induction false} ToLowerIdempotent(s: String)
    ensures ToLower(ToLower(s)) == ToLower(s)
  {
    if s != [] {
      var c := s[0];
      assert ToLower(LowerChar(c)) == LowerChar(c) by {
        var l := LowerChar(c);
        if |l| == 1 {
          assert ToLower(l) == LowerChar(l[0]) + ToLower([]);
        } else {
          assert l == ['i', '\U{0307}'];
          assert ToLower(l[1..]) == LowerChar('\U{0307}') + ToLower([]);
        }
      }
      ToLowerAppend(LowerChar(c), ToLower(s[1..]));
      ToLowerIdempotent(s[1..]);
    }
  }

  // ---------------------------------------------------------------------
  // includes
  // ---------------------------------------------------------------------

  predicate IsPrefix(p: String, s: String) {
    |p| <= |s| && s[..|p|] == p
  }

  /** `hay.includes(needle)`, scanning start positions from the left. */
  predicate Contains(hay: String, needle: String) {
    IsPrefix(needle, hay) || (hay != [] && Contains(hay[1..], needle))
  }

  /** `needle` occurs in `hay` starting at position `i`. */
  predicate OccursAt(hay: String, needle: String, i: int) {
    0 <= i <= |hay| - |needle| && hay[i..i + |needle|] == needle
  }

  /** `includes` holds exactly when the needle occurs at some position. */
  lemma {:induction false} ContainsIffOccurs(hay: String, needle: String)
    ensures Contains(hay, needle) <==> exists i :: OccursAt(hay, needle, i)
  {
    if IsPrefix(needle, hay) {
      assert OccursAt(hay, needle, 0);
    } else if hay == [] {
    } else {
      ContainsIffOccurs(hay[1..], needle);
      if exists i :: OccursAt(hay, needle, i) {
        var i :| OccursAt(hay, needle, i);
        assert i != 0;
        assert hay[1..][i - 1..i - 1 + |needle|] == needle;
        assert OccursAt(hay[1..], needle, i - 1);
      }
      if Contains(hay[1..], needle) {
        var i :| OccursAt(hay[1..], needle, i);
        assert hay[i + 1..i + 1 + |needle|] == needle;
        assert OccursAt(hay, needle, i + 1);
      }
    }
  }

  /** Every string includes the empty string. */
  lemma ContainsEmpty(hay: String)
    ensures Contains(hay, [])
  {
    assert IsPrefix([], hay);
  }

  /** A needle longer than the string is never included. */
  lemma {:induction false} ContainsTooLong(hay: String, needle: String)
    requires |needle| > |hay|
    ensures !Contains(hay, needle)
  {
    if hay != [] { ContainsTooLong(hay[1..], needle); }
  }

  // ---------------------------------------------------------------------
  // split and join on one separator character
  // ---------------------------------------------------------------------

  /** `s.split(sep)`: never empty; "" gives [""], and "a," gives ["a", ""]. */
  function Split(s: String, sep: char): (r: seq<String>)
    ensures |r| >= 1
    ensures forall k :: 0 <= k < |r| ==> sep !in r[k]
  {
    if s == [] then [[]]
    else if s[0] == sep then [[]] + Split(s[1..], sep)
    else
      var t := Split(s[1..], sep);
      [[s[0]] + t[0]] + t[1..]
  }

  /** `parts.join(sep)`; the empty list joins to "". */
  function Join(parts: seq<String>, sep: char): String {
    if parts == [] then []
    else if |parts| == 1 then parts[0]
    else parts[0] + [sep] + Join(parts[1..], sep)
  }

  /** Joining the pieces of a split gives the string back. */
  lemma {:induction false} JoinSplit(s: String, sep: char)
    ensures Join(Split(s, sep), sep) == s
  {
    if s == [] {
    } else if s[0] == sep {
      JoinSplit(s[1..], sep);
    } else {
      var t := Split(s[1..], sep);
      JoinSplit(s[1..], sep);
      if |t| > 1 {
        assert Join(t, sep) == t[0] + [sep] + Join(t[1..], sep);
        assert Join([[s[0]] + t[0]] + t[1..], sep) == [s[0]] + t[0] + [sep] + Join(t[1..], sep) by {
          assert ([[s[0]] + t[0]] + t[1..])[1..] == t[1..];
        }
      }
    }
  }

  /** Splitting a join of pieces without the separator gives the pieces back. */
  lemma {:induction false} SplitJoin(parts: seq<String>, sep: char)
    requires |parts| >= 1
    requires forall k :: 0 <= k < |parts| ==> sep !in parts[k]
    ensures Split(Join(parts, sep), sep) == parts
  {
    if |parts| == 1 {
      SplitNoSep(parts[0], sep);
    } else {
      SplitJoin(parts[1..], sep);
      SplitPrefix(parts[0], Join(parts[1..], sep), sep);
      assert [parts[0]] + parts[1..] == parts;
    }
  }

  lemma {:induction false} SplitNoSep(s: String, sep: char)
    requires sep !in s
    ensures Split(s, sep) == [s]
  {
    if s != [] {
      assert s[0] != sep && sep !in s[1..];
      SplitNoSep(s[1..], sep);
      assert [s[0]] + s[1..] == s;
    }
  }

  lemma {:induction false} SplitPrefix(w: String, rest: String, sep: char)
    requires sep !in w
    ensures Split(w + [sep] + rest, sep) == [w] + Split(rest, sep)
  {
    if w == [] {
      assert ([] + [sep] + rest)[1..] == rest;
    } else {
      var s := w + [sep] + rest;
      assert s[0] == w[0] && w[0] != sep;
      assert s[1..] == w[1..] + [sep] + rest;
      assert sep !in w[1..];
      SplitPrefix(w[1..], rest, sep);
      var t := Split(s[1..], sep);
      assert t[0] == w[1..] && t[1..] == Split(rest, sep);
      assert [w[0]] + w[1..] == w;
    }
  }

  // ---------------------------------------------------------------------
  // length in UTF-16 code units
  // ---------------------------------------------------------------------

  /** JavaScript's `length` and Java's `String.length()`: characters outside
      the Basic Multilingual Plane count as a surrogate pair. */
  function Utf16Length(s: String): (n: nat)
    ensures |s| <= n <= 2 * |s|
  {
    if s == [] then 0 else (if s[0] as int > 0xFFFF then 2 else 1) + Utf16Length(s[1..])
  }

  // ---------------------------------------------------------------------
  // numbers as text
  // ---------------------------------------------------------------------

  predicate IsDigit(c: char) { '0' <= c <= '9' }

  function DigitChar(d: nat): char
    requires d < 10
  {
    ('0' as int + d) as char
  }

  /** Decimal digits of a natural number, as template literals print it. */
  function NatToString(n: nat): (r: String)
    ensures |r| >= 1 && forall k :: 0 <= k < |r| ==> IsDigit(r[k])
  {
    if n < 10 then [DigitChar(n)] else NatToString(n / 10) + [DigitChar(n % 10)]
  }

  /** `${n}` for an integer. */
  function IntToString(n: int): String {
    if n < 0 then ['-'] + NatToString(-n) else NatToString(n)
  }

  function DigitValue(c: char): nat
    requires IsDigit(c)
  {
    c as int - '0' as int
  }

  /** The value of a run of decimal digits. */
  function DigitsValue(s: String): nat
    requires forall k :: 0 <= k < |s| ==> IsDigit(s[k])
  {
    if s == [] then 0 else DigitsValue(s[..|s| - 1]) * 10 + DigitValue(s[|s| - 1])
  }

  predicate IsHexDigit(c: char) { IsDigit(c) || 'a' <= c <= 'f' || 'A' <= c <= 'F' }

  function HexDigitValue(c: char): nat
    requires IsHexDigit(c)
  {
    if IsDigit(c) then c as int - '0' as int
    else if 'a' <= c <= 'f' then c as int - 'a' as int + 10
    else c as int - 'A' as int + 10
  }

  function HexValue(s: String): nat
    requires forall k :: 0 <= k < |s| ==> IsHexDigit(s[k])
  {
    if s == [] then 0 else HexValue(s[..|s| - 1]) * 16 + HexDigitValue(s[|s| - 1])
  }

  /** The longest prefix of `s` made of decimal digits. */
  function DigitRun(s: String): (r: String)
    ensures IsPrefix(r, s) && (forall k :: 0 <= k < |r| ==> IsDigit(r[k]))
    ensures |r| == |s| || !IsDigit(s[|r|])
  {
    if s == [] || !IsDigit(s[0]) then [] else [s[0]] + DigitRun(s[1..])
  }

  /** The longest prefix of `s` made of hexadecimal digits. */
  function HexRun(s: String): (r: String)
    ensures IsPrefix(r, s) && (forall k :: 0 <= k < |r| ==> IsHexDigit(r[k]))
    ensures |r| == |s| || !IsHexDigit(s[|r|])
  {
    if s == [] || !IsHexDigit(s[0]) then [] else [s[0]] + HexRun(s[1..])
  }

  /** The unsigned part of `parseInt`: a "0x"/"0X" prefix selects base 16,
      otherwise the longest run of decimal digits is converted; no digit at
      all is NaN, here None. */
  function ParseMagnitude(u: String): Option<nat> {
    if |u| >= 2 && u[0] == '0' && (u[1] == 'x' || u[1] == 'X') then
      var h := HexRun(u[2..]);
      if h == [] then None else Some(HexValue(h))
    else
      var d := DigitRun(u);
      if d == [] then None else Some(DigitsValue(d))
  }

  /** `parseInt(s)` with no radix: leading white space is skipped and an
      optional sign is read before the magnitude. */
  function ParseInt(s: String): Option<int> {
    var t := TrimStart(s);
    if t != [] && (t[0] == '-' || t[0] == '+') then
      match ParseMagnitude(t[1..])
      case None => None
      case Some(m) => var v: int := m; Some(if t[0] == '-' then -v else v)
    else
      match ParseMagnitude(t)
      case None => None
      case Some(m) => Some(m)
  }

  lemma {:induction false} DigitsValueOfNat(n: nat)
    ensures DigitsValue(NatToString(n)) == n
  {
    if n >= 10 {
      var s := NatToString(n);
      assert s[..|s| - 1] == NatToString(n / 10);
      DigitsValueOfNat(n / 10);
    }
  }

  lemma {:induction false} DigitRunAll(s: String)
    requires forall k :: 0 <= k < |s| ==> IsDigit(s[k])
    ensures DigitRun(s) == s
  {
    if s != [] { DigitRunAll(s[1..]); }
  }

  /** A run of decimal digits has its digit value as magnitude. */
  lemma {:induction false} MagnitudeOfDigits(d: String)
    requires |d| >= 1 && forall k :: 0 <= k < |d| ==> IsDigit(d[k])
    ensures ParseMagnitude(d) == Some(DigitsValue(d))
  {
    assert !(|d| >= 2 && d[0] == '0' && (d[1] == 'x' || d[1] == 'X')) by {
      if |d| >= 2 { assert IsDigit(d[1]); }
    }
    DigitRunAll(d);
  }

  lemma TrimStartMinus(d: String)
    ensures TrimStart(['-'] + d) == ['-'] + d
  {
    var s := ['-'] + d;
    assert !IsWhite(s[0]);
  }

  lemma {:induction false} ParseIntMinus(d: String, m: nat)
    requires ParseMagnitude(d) == Some(m)
    ensures ParseInt(['-'] + d) == Some(-(m as int))
  {
    var s := ['-'] + d;
    TrimStartMinus(d);
    assert s[0] == '-' && s[1..] == d;
  }

  lemma {:induction false} ParseIntSigned(d: String)
    requires |d| >= 1 && forall k :: 0 <= k < |d| ==> IsDigit(d[k])
    ensures ParseInt(['-'] + d) == Some(-(DigitsValue(d) as int))
  {
    MagnitudeOfDigits(d);
    ParseIntMinus(d, DigitsValue(d));
  }

  lemma {:induction false} ParseIntPlain(t: String, m: nat)
    requires t != [] && TrimStart(t) == t && t[0] != '-' && t[0] != '+' && ParseMagnitude(t) == Some(m)
    ensures ParseInt(t) == Some(m as int)
  {
  }

  lemma TrimStartDigit(d: String)
    requires d != [] && IsDigit(d[0])
    ensures TrimStart(d) == d
  {
    assert !IsWhite(d[0]);
  }

  lemma {:induction false} ParseIntUnsigned(d: String)
    requires |d| >= 1 && forall k :: 0 <= k < |d| ==> IsDigit(d[k])
    ensures ParseInt(d) == Some(DigitsValue(d) as int)
  {
    assert IsDigit(d[0]);
    TrimStartDigit(d);
    MagnitudeOfDigits(d);
    ParseIntPlain(d, DigitsValue(d));
  }

  lemma {:induction false} ParseIntOfNegative(n: int)
    requires n < 0
    ensures ParseInt(IntToString(n)) == Some(n)
  {
    var d := NatToString(-n);
    assert IntToString(n) == ['-'] + d;
    DigitsValueOfNat(-n);
    ParseIntSigned(d);
  }

  lemma {:induction false} ParseIntOfNonNegative(n: int)
    requires n >= 0
    ensures ParseInt(IntToString(n)) == Some(n)
  {
    var d := NatToString(n);
    assert IntToString(n) == d;
    DigitsValueOfNat(n);
    ParseIntUnsigned(d);
  }

  /** Reading back a rendered integer gives the integer: `parseInt(String(n)) === n`. */
  lemma {:induction false} ParseIntOfIntToString(n: int)
    ensures ParseInt(IntToString(n)) == Some(n)
  {
    if n < 0 {
      ParseIntOfNegative(n);
    } else {
      ParseIntOfNonNegative(n);
    }
  }

  // ---------------------------------------------------------------------
  // the default sort order of strings
  // ---------------------------------------------------------------------

  /** `a` sorts no later than `b`: `a` is a prefix of `b`, or the first
      character where they differ is smaller in `a`. */
  predicate LexLe(a: String, b: String) {
    a == [] || (b != [] && (a[0] < b[0] || (a[0] == b[0] && LexLe(a[1..], b[1..]))))
  }

  lemma {:induction false} LexLeTotal(a: String, b: String)
    ensures LexLe(a, b) || LexLe(b, a)
  {
    if a != [] && b != [] && a[0] == b[0] { LexLeTotal(a[1..], b[1..]); }
  }

  lemma {:induction false} LexLeAntisymmetric(a: String, b: String)
    requires LexLe(a, b) && LexLe(b, a)
    ensures a == b
  {
    if a != [] && b != [] {
      LexLeAntisymmetric(a[1..], b[1..]);
      assert a == [a[0]] + a[1..] && b == [b[0]] + b[1..];
    }
  }

  lemma {:induction false} LexLeTransitive(a: String, b: String, c: String)
    requires LexLe(a, b) && LexLe(b, c)
    ensures LexLe(a, c)
  {
    if a != [] && b != [] && c != [] && a[0] == b[0] && b[0] == c[0] {
      LexLeTransitive(a[1..], b[1..], c[1..]);
    }
  }

  // ---------------------------------------------------------------------
  // truthiness of values that may be undefined or null (None)
  // ---------------------------------------------------------------------

  /** A string property is truthy when it is present and non-empty. */
  predicate TruthyStr(s: Option<String>) { s.Some? && s.value != [] }

  /** A numeric property (an id) is truthy when it is present and non-zero. */
  predicate TruthyNum(n: Option<int>) { n.Some? && n.value != 0 }
}

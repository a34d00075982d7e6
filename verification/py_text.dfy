/** The Python `str` builtins the receipt parser is written with, over `string`
    (a sequence of Unicode scalar values, the units Python's `len` counts).
    The character classes are those of CPython 3.12, which follows Unicode 15.0. */
module PyText {

  /** The non-ASCII parts of three character classes of CPython 3.12 (Unicode 15.0), each a
      sorted list of inclusive ranges of code points. */
  datatype CharTable =
    | SpaceTable       // `str.isspace()`; also what `strip()` removes and what `\s` matches
    | DecimalTable     // general category Nd: `str.isdecimal()`, and what `\d` matches
    | OtherDigitTable  // what `str.isdigit()` accepts beyond Nd: Numeric_Type=Digit

  function TableSize(t: CharTable): (n: nat)
    ensures n > 0
  {
    match t
    case SpaceTable => 8
    case DecimalTable => 63
    case OtherDigitTable => 20
  }

  /** The `k`-th range of table `t`. */
  function TableRange(t: CharTable, k: nat): (char, char)
    requires k < TableSize(t)
  {
    match t
    case SpaceTable => (
      match k
      case 0 => ('\U{85}', '\U{85}')
      case 1 => ('\U{A0}', '\U{A0}')
      case 2 => ('\U{1680}', '\U{1680}')
      case 3 => ('\U{2000}', '\U{200A}')
      case 4 => ('\U{2028}', '\U{2029}')
      case 5 => ('\U{202F}', '\U{202F}')
      case 6 => ('\U{205F}', '\U{205F}')
      case _ => ('\U{3000}', '\U{3000}'))
    case DecimalTable => (
      match k
      case 0 => ('\U{660}', '\U{669}')
      case 1 => ('\U{6F0}', '\U{6F9}')
      case 2 => ('\U{7C0}', '\U{7C9}')
      case 3 => ('\U{966}', '\U{96F}')
      case 4 => ('\U{9E6}', '\U{9EF}')
      case 5 => ('\U{A66}', '\U{A6F}')
      case 6 => ('\U{AE6}', '\U{AEF}')
      case 7 => ('\U{B66}', '\U{B6F}')
      case 8 => ('\U{BE6}', '\U{BEF}')
      case 9 => ('\U{C66}', '\U{C6F}')
      case 10 => ('\U{CE6}', '\U{CEF}')
      case 11 => ('\U{D66}', '\U{D6F}')
      case 12 => ('\U{DE6}', '\U{DEF}')
      case 13 => ('\U{E50}', '\U{E59}')
      case 14 => ('\U{ED0}', '\U{ED9}')
      case 15 => ('\U{F20}', '\U{F29}')
      case 16 => ('\U{1040}', '\U{1049}')
      case 17 => ('\U{1090}', '\U{1099}')
      case 18 => ('\U{17E0}', '\U{17E9}')
      case 19 => ('\U{1810}', '\U{1819}')
      case 20 => ('\U{1946}', '\U{194F}')
      case 21 => ('\U{19D0}', '\U{19D9}')
      case 22 => ('\U{1A80}', '\U{1A89}')
      case 23 => ('\U{1A90}', '\U{1A99}')
      case 24 => ('\U{1B50}', '\U{1B59}')
      case 25 => ('\U{1BB0}', '\U{1BB9}')
      case 26 => ('\U{1C40}', '\U{1C49}')
      case 27 => ('\U{1C50}', '\U{1C59}')
      case 28 => ('\U{A620}', '\U{A629}')
      case 29 => ('\U{A8D0}', '\U{A8D9}')
      case 30 => ('\U{A900}', '\U{A909}')
      case 31 => ('\U{A9D0}', '\U{A9D9}')
      case 32 => ('\U{A9F0}', '\U{A9F9}')
      case 33 => ('\U{AA50}', '\U{AA59}')
      case 34 => ('\U{ABF0}', '\U{ABF9}')
      case 35 => ('\U{FF10}', '\U{FF19}')
      case 36 => ('\U{104A0}', '\U{104A9}')
      case 37 => ('\U{10D30}', '\U{10D39}')
      case 38 => ('\U{11066}', '\U{1106F}')
      case 39 => ('\U{110F0}', '\U{110F9}')
      case 40 => ('\U{11136}', '\U{1113F}')
      case 41 => ('\U{111D0}', '\U{111D9}')
      case 42 => ('\U{112F0}', '\U{112F9}')
      case 43 => ('\U{11450}', '\U{11459}')
      case 44 => ('\U{114D0}', '\U{114D9}')
      case 45 => ('\U{11650}', '\U{11659}')
      case 46 => ('\U{116C0}', '\U{116C9}')
      case 47 => ('\U{11730}', '\U{11739}')
      case 48 => ('\U{118E0}', '\U{118E9}')
      case 49 => ('\U{11950}', '\U{11959}')
      case 50 => ('\U{11C50}', '\U{11C59}')
      case 51 => ('\U{11D50}', '\U{11D59}')
      case 52 => ('\U{11DA0}', '\U{11DA9}')
      case 53 => ('\U{11F50}', '\U{11F59}')
      case 54 => ('\U{16A60}', '\U{16A69}')
      case 55 => ('\U{16AC0}', '\U{16AC9}')
      case 56 => ('\U{16B50}', '\U{16B59}')
      case 57 => ('\U{1D7CE}', '\U{1D7FF}')
      case 58 => ('\U{1E140}', '\U{1E149}')
      case 59 => ('\U{1E2F0}', '\U{1E2F9}')
      case 60 => ('\U{1E4F0}', '\U{1E4F9}')
      case 61 => ('\U{1E950}', '\U{1E959}')
      case _ => ('\U{1FBF0}', '\U{1FBF9}'))
    case OtherDigitTable => (
      match k
      case 0 => ('\U{B2}', '\U{B3}')
      case 1 => ('\U{B9}', '\U{B9}')
      case 2 => ('\U{1369}', '\U{1371}')
      case 3 => ('\U{19DA}', '\U{19DA}')
      case 4 => ('\U{2070}', '\U{2070}')
      case 5 => ('\U{2074}', '\U{2079}')
      case 6 => ('\U{2080}', '\U{2089}')
      case 7 => ('\U{2460}', '\U{2468}')
      case 8 => ('\U{2474}', '\U{247C}')
      case 9 => ('\U{2488}', '\U{2490}')
      case 10 => ('\U{24EA}', '\U{24EA}')
      case 11 => ('\U{24F5}', '\U{24FD}')
      case 12 => ('\U{24FF}', '\U{24FF}')
      case 13 => ('\U{2776}', '\U{277E}')
      case 14 => ('\U{2780}', '\U{2788}')
      case 15 => ('\U{278A}', '\U{2792}')
      case 16 => ('\U{10A40}', '\U{10A43}')
      case 17 => ('\U{10E60}', '\U{10E68}')
      case 18 => ('\U{11052}', '\U{1105A}')
      case _ => ('\U{1F100}', '\U{1F10A}'))
  }

  /** `c` lies in the `k`-th range of `t`. */
  predicate InRange(c: char, t: CharTable, k: nat)
    requires k < TableSize(t)
  {
    TableRange(t, k).0 <= c <= TableRange(t, k).1
  }

  /** `c` lies in one of the ranges of `t`. A character outside the span from the first
      range to the last is rejected without looking at the ranges one by one. */
  predicate InTable(c: char, t: CharTable) {
    TableRange(t, 0).0 <= c <= TableRange(t, TableSize(t) - 1).1 &&
    exists k :: 0 <= k < TableSize(t) && InRange(c, t, k)
  }

  /** `str.isspace()` on one character: tab, line feed, vertical tab, form feed, carriage
      return, the four information separators and space in ASCII, the table beyond it. */
  predicate IsSpace(c: char) {
    if c < '\U{80}' then '\t' <= c <= '\r' || '\U{1C}' <= c <= ' ' else InTable(c, SpaceTable)
  }

  /** `\d` on one character: `0` to `9` in ASCII, the table beyond it. */
  predicate IsDecimal(c: char) {
    if c < '\U{80}' then '0' <= c <= '9' else InTable(c, DecimalTable)
  }

  /** `str.isdigit()` on one character. */
  predicate IsDigitChar(c: char) {
    IsDecimal(c) || InTable(c, OtherDigitTable)
  }

  /** `s.isdigit()`: true of a non-empty string of digit characters, false of "". */
  predicate IsDigitStr(s: string) {
    |s| > 0 && forall i :: 0 <= i < |s| ==> IsDigitChar(s[i])
  }

  /** The whitespace beyond ASCII: next line, no-break space, ogham space mark, the spaces
      and separators of the General Punctuation block, and ideographic space. */
  lemma NonAsciiSpace(c: char)
    requires '\U{80}' <= c
    ensures IsSpace(c) ==>
      c == '\U{85}' || c == '\U{A0}' || c == '\U{1680}' || '\U{2000}' <= c <= '\U{205F}' || c == '\U{3000}'
  {
  }

  /** No decimal digit is whitespace. */
  lemma DecimalIsNotSpace(c: char)
    requires IsDecimal(c)
    ensures !IsSpace(c)
  {
    if '\U{80}' <= c {
      NonAsciiSpace(c);
    }
  }

  /** No digit is whitespace. */
  lemma DigitIsNotSpace(c: char)
    requires IsDigitChar(c)
    ensures !IsSpace(c)
  {
    if IsDecimal(c) {
      DecimalIsNotSpace(c);
    } else {
      NonAsciiSpace(c);
    }
  }

  /** CJK punctuation, kana, CJK ideographs and Yi, the characters from U+3001 to U+A61F,
      are neither digits nor whitespace. */
  lemma CjkIsNotDigitOrSpace(c: char)
    requires '\U{3001}' <= c <= '\U{A61F}'
    ensures !IsDigitChar(c) && !IsSpace(c)
  {
  }

  /** A digit string has no whitespace to strip. */
  lemma DigitsAreStripped(s: string)
    requires IsDigitStr(s)
    ensures Strip(s) == s
  {
    DigitIsNotSpace(s[0]);
    DigitIsNotSpace(s[|s| - 1]);
    StripStripped(s);
  }

  /** Every character of `s` is whitespace. */
  ghost predicate AllSpace(s: string) {
    forall i :: 0 <= i < |s| ==> IsSpace(s[i])
  }

  /** `s` neither starts nor ends with whitespace: `s.strip() == s`. */
  predicate IsStripped(s: string) {
    s == [] || (!IsSpace(s[0]) && !IsSpace(s[|s| - 1]))
  }

  /** The first index at or after `i` that does not hold whitespace, or `|s|`. */
  function SkipSpace(s: string, i: nat): (j: nat)
    requires i <= |s|
    ensures i <= j <= |s|
    ensures forall m :: i <= m < j ==> IsSpace(s[m])
    ensures j == |s| || !IsSpace(s[j])
    decreases |s| - i
  {
    if i < |s| && IsSpace(s[i]) then SkipSpace(s, i + 1) else i
  }

  /** The end of `s[lo..hi]` once its trailing whitespace is dropped. */
  function SkipSpaceBack(s: string, lo: nat, hi: nat): (j: nat)
    requires lo <= hi <= |s|
    ensures lo <= j <= hi
    ensures forall m :: j <= m < hi ==> IsSpace(s[m])
    ensures j == lo || !IsSpace(s[j - 1])
    decreases hi
  {
    if lo < hi && IsSpace(s[hi - 1]) then SkipSpaceBack(s, lo, hi - 1) else hi
  }

  /** `s.strip()`: `s` without its leading and trailing whitespace. The result neither
      starts nor ends with whitespace. */
  function Strip(s: string): (r: string)
    ensures |r| <= |s|
    ensures IsStripped(r)
  {
    var lo := SkipSpace(s, 0);
    s[lo..SkipSpaceBack(s, lo, |s|)]
  }

  /** `r` is `s[lo..lo + |r|]` and everything of `s` outside it is whitespace. */
  ghost predicate StripsTo(s: string, lo: int, r: string) {
    0 <= lo <= |s| - |r| && r == s[lo..lo + |r|] &&
    (forall m :: 0 <= m < lo ==> IsSpace(s[m])) &&
    (forall m :: lo + |r| <= m < |s| ==> IsSpace(s[m]))
  }

  /** Strip removes only whitespace, and only from the two ends; it keeps only characters of
      its argument, is empty exactly for blank strings and leaves a stripped string alone. */
  lemma StripFacts(s: string)
    ensures StripsTo(s, SkipSpace(s, 0), Strip(s))
    ensures forall c :: c in Strip(s) ==> c in s
    ensures forall c :: c in s && !IsSpace(c) ==> c in Strip(s)
    ensures Strip(s) == [] <==> AllSpace(s)
    ensures IsStripped(s) ==> Strip(s) == s
  {
    StripIsInner(s);
    StripKeepsChars(s);
    StripEmpty(s);
    StripStripped(s);
  }

  /** Strip keeps the part between the leading and the trailing whitespace. */
  lemma StripIsInner(s: string)
    ensures StripsTo(s, SkipSpace(s, 0), Strip(s))
  {
  }

  lemma StripKeepsChars(s: string)
    ensures forall c :: c in Strip(s) ==> c in s
    ensures forall c :: c in s && !IsSpace(c) ==> c in Strip(s)
  {
    StripIsInner(s);
  }

  lemma StripEmpty(s: string)
    ensures Strip(s) == [] <==> AllSpace(s)
  {
    StripIsInner(s);
  }

  lemma StripStripped(s: string)
    ensures IsStripped(s) ==> Strip(s) == s
  {
    StripIsInner(s);
  }


  /** `s.replace(c, '')`: every occurrence of `c` deleted, the other characters kept in order. */
  function RemoveAll(s: string, c: char): (r: string)
    ensures forall x :: x in r <==> x in s && x != c
    ensures c !in s ==> r == s
  {
    if s == [] then []
    else
      assert s == [s[0]] + s[1..];
      (if s[0] == c then [] else [s[0]]) + RemoveAll(s[1..], c)
  }

  /** `replace(c, '')` removes every `c` and keeps every other character as often as it occurs. */
  lemma {:induction false} RemoveAllCounts(s: string, c: char)
    ensures multiset(RemoveAll(s, c)) == multiset(s)[c := 0]
  {
    if s != [] {
      RemoveAllCounts(s[1..], c);
      assert s == [s[0]] + s[1..];
    }
  }

  /** `replace(c, '')` works character by character: on one character it keeps it or drops it. */
  lemma RemoveAllSingle(x: char, c: char)
    ensures RemoveAll([x], c) == if x == c then [] else [x]
  {
    assert [x][1..] == [];
  }

  /** `replace(c, '')` keeps the order of what it keeps: it distributes over concatenation, so
      together with `RemoveAllSingle` it is the in-order deletion of every `c`. */
  lemma {:induction false} RemoveAllAppend(a: string, b: string, c: char)
    ensures RemoveAll(a + b, c) == RemoveAll(a, c) + RemoveAll(b, c)
    decreases |a|
  {
    if a != [] {
      var head := if a[0] == c then [] else [a[0]];
      var rest := a[1..] + b;
      assert (a + b)[0] == a[0] && (a + b)[1..] == rest;
      assert RemoveAll(a + b, c) == head + RemoveAll(rest, c);
      assert RemoveAll(a, c) == head + RemoveAll(a[1..], c);
      RemoveAllAppend(a[1..], b, c);
      assert head + (RemoveAll(a[1..], c) + RemoveAll(b, c)) == (head + RemoveAll(a[1..], c)) + RemoveAll(b, c);
    } else {
      assert a + b == b;
    }
  }

  /** `k` occurs in `s` starting at index `i`. */
  ghost predicate OccursAt(s: string, k: string, i: int) {
    0 <= i && i + |k| <= |s| && s[i..i + |k|] == k
  }

  /** Python's `k in s` for strings: `k` occurs in `s` as a contiguous substring. */
  function Contains(s: string, k: string): (b: bool)
    ensures b <==> exists i :: OccursAt(s, k, i)
    decreases |s|
  {
    if |k| > |s| then false
    else if s[..|k|] == k then assert OccursAt(s, k, 0); true
    else
      ContainsShift(s, k);
      Contains(s[1..], k)
  }

  /** A character that is not whitespace lies inside the part `strip()` keeps. */
  lemma NonSpaceKept(s: string, m: int)
    requires 0 <= m < |s| && !IsSpace(s[m])
    ensures SkipSpace(s, 0) <= m < SkipSpace(s, 0) + |Strip(s)|
  {
    StripFacts(s);
  }

  /** A slice of a slice is a slice of the whole. */
  lemma SliceOfSlice(s: string, a: int, b: int, i: int, j: int)
    requires 0 <= a <= b <= |s| && 0 <= i <= j <= b - a
    ensures s[a..b][i..j] == s[a + i..a + j]
  {
    forall m | 0 <= m < j - i
      ensures s[a..b][i..j][m] == s[a + i..a + j][m]
    {
      assert s[a..b][i..j][m] == s[a..b][i + m];
    }
  }

  /** An occurrence of a substring that neither starts nor ends with whitespace survives
      `strip()`, shifted by the leading whitespace removed. */
  lemma OccursStripped(s: string, k: string, i: int)
    requires |k| > 0 && IsStripped(k) && OccursAt(s, k, i)
    ensures OccursAt(Strip(s), k, i - SkipSpace(s, 0))
  {
    var lo := SkipSpace(s, 0);
    var hi := SkipSpaceBack(s, lo, |s|);
    var e := i + |k|;
    assert s[i] == k[0] by { assert s[i..e][0] == s[i]; }
    assert s[e - 1] == k[|k| - 1] by { assert s[i..e][|k| - 1] == s[e - 1]; }
    NonSpaceKept(s, i);
    NonSpaceKept(s, e - 1);
    SliceOfSlice(s, lo, hi, i - lo, e - lo);
  }

  /** A substring that neither starts nor ends with whitespace survives `strip()`. */
  lemma ContainsStripped(s: string, k: string)
    requires |k| > 0 && IsStripped(k) && Contains(s, k)
    ensures Contains(Strip(s), k)
  {
    var i :| OccursAt(s, k, i);
    OccursStripped(s, k, i);
  }

  /** A substring whose first character is missing from `s` does not occur in `s`. */
  lemma NotContainedWithoutFirst(s: string, k: string)
    requires |k| > 0 && k[0] !in s
    ensures !Contains(s, k)
  {
    if i :| OccursAt(s, k, i) {
    }
  }

  /** An occurrence in `s + t` lies within `s` when it cannot reach into `t`: either the last
      character of the substring does not occur in `t`, or its last but one does not occur in
      `t` and its last is not the first of `t`. */
  lemma OccursInPrefix(s: string, t: string, k: string, i: int)
    requires |k| > 0 && OccursAt(s + t, k, i)
    requires k[|k| - 1] !in t || (|k| > 1 && |t| > 0 && k[|k| - 2] !in t && k[|k| - 1] != t[0])
    ensures OccursAt(s, k, i)
  {
    var e := i + |k|;
    assert (s + t)[e - 1] == k[|k| - 1] by { assert (s + t)[i..e][|k| - 1] == (s + t)[e - 1]; }
    if k[|k| - 1] !in t {
      assert e <= |s|;
    } else {
      assert (s + t)[e - 2] == k[|k| - 2] by { assert (s + t)[i..e][|k| - 2] == (s + t)[e - 2]; }
      assert e - 2 < |s|;
      assert e - 1 != |s|;
    }
    assert (s + t)[i..e] == s[i..e];
  }

  /** A substring that cannot reach into `t`, as in `OccursInPrefix`, occurs in `s + t` only
      within `s`. */
  lemma ContainedInPrefix(s: string, t: string, k: string)
    requires |k| > 0 && Contains(s + t, k)
    requires k[|k| - 1] !in t || (|k| > 1 && |t| > 0 && k[|k| - 2] !in t && k[|k| - 1] != t[0])
    ensures Contains(s, k)
  {
    var i :| OccursAt(s + t, k, i);
    OccursInPrefix(s, t, k, i);
  }

  /** When `k` does not start `s`, its occurrences in `s` are those in `s[1..]`. */
  lemma ContainsShift(s: string, k: string)
    requires |k| <= |s| && s[..|k|] != k
    ensures (exists i :: OccursAt(s, k, i)) <==> (exists i :: OccursAt(s[1..], k, i))
  {
    if i :| OccursAt(s, k, i) {
      assert i > 0;
      assert s[1..][i - 1..i - 1 + |k|] == s[i..i + |k|];
      assert OccursAt(s[1..], k, i - 1);
    }
    if i :| OccursAt(s[1..], k, i) {
      assert s[i + 1..i + 1 + |k|] == s[1..][i..i + |k|];
      assert OccursAt(s, k, i + 1);
    }
  }

  /** `sep.join(parts)`. */
  function Join(parts: seq<string>, sep: char): string {
    if |parts| == 0 then []
    else if |parts| == 1 then parts[0]
    else parts[0] + [sep] + Join(parts[1..], sep)
  }

  /** `s.split(sep)` with an explicit one-character separator: always at least one
      piece, and no piece holds the separator. */
  function Split(s: string, sep: char): (r: seq<string>)
    ensures |r| >= 1
    ensures forall i :: 0 <= i < |r| ==> sep !in r[i]
  {
    if s == [] then [[]]
    else
      var rest := Split(s[1..], sep);
      if s[0] == sep then [[]] + rest
      else [[s[0]] + rest[0]] + rest[1..]
  }

  /** Joining the pieces back with the separator gives the string. */
  lemma {:induction false} JoinSplit(s: string, sep: char)
    ensures Join(Split(s, sep), sep) == s
  {
    if s != [] {
      var rest := Split(s[1..], sep);
      var r := Split(s, sep);
      JoinSplit(s[1..], sep);
      if s[0] == sep {
        assert r[1..] == rest;
      } else if |rest| == 1 {
        assert r == [[s[0]] + rest[0]];
      } else {
        assert r[1..] == rest[1..];
        assert Join(rest, sep) == rest[0] + [sep] + Join(rest[1..], sep);
      }
      assert [s[0]] + s[1..] == s;
    }
  }

  /** There is one more piece than there are separators. */
  lemma {:induction false} SplitCount(s: string, sep: char)
    ensures |Split(s, sep)| == multiset(s)[sep] + 1
  {
    if s != [] {
      SplitCount(s[1..], sep);
      assert s == [s[0]] + s[1..];
    }
  }

  /** Every character of a piece comes from the split string. */
  lemma {:induction false} SplitPieceChars(s: string, sep: char, i: int, c: char)
    requires 0 <= i < |Split(s, sep)| && c in Split(s, sep)[i]
    ensures c in s
  {
    if s != [] {
      var rest := Split(s[1..], sep);
      if s[0] == sep {
        SplitPieceChars(s[1..], sep, i - 1, c);
      } else if i == 0 {
        if c != s[0] {
          SplitPieceChars(s[1..], sep, 0, c);
        }
      } else {
        SplitPieceChars(s[1..], sep, i, c);
      }
    }
  }

  /** The other round trip: splitting a join of separator-free pieces gives the pieces back. */
  lemma {:induction false} SplitJoin(parts: seq<string>, sep: char)
    requires |parts| >= 1
    requires forall i :: 0 <= i < |parts| ==> sep !in parts[i]
    ensures Split(Join(parts, sep), sep) == parts
  {
    if |parts| == 1 {
      SplitNoSeparator(parts[0], sep);
    } else {
      SplitJoin(parts[1..], sep);
      SplitCons(parts[0], Join(parts[1..], sep), sep);
    }
  }

  lemma {:induction false} SplitNoSeparator(s: string, sep: char)
    requires sep !in s
    ensures Split(s, sep) == [s]
  {
    if s != [] {
      SplitNoSeparator(s[1..], sep);
      assert [s[0]] + s[1..] == s;
    }
  }

  /** Splitting `p + [sep] + t` for a separator-free `p` puts `p` in front of the split of `t`. */
  lemma {:induction false} SplitCons(p: string, t: string, sep: char)
    requires sep !in p
    ensures Split(p + [sep] + t, sep) == [p] + Split(t, sep)
  {
    if p != [] {
      var s := p + [sep] + t;
      assert s[0] == p[0] && s[1..] == p[1..] + [sep] + t;
      SplitCons(p[1..], t, sep);
      assert [p[0]] + p[1..] == p;
    } else {
      assert ([sep] + t)[1..] == t;
    }
  }
}

/**
 * The few pieces of Python string and sequence semantics the server relies on:
 * slicing with Python's index normalisation, `str.lower`, the `in` substring test,
 * `str.strip`, `str(int)` and `pathlib.PurePath.name` / `.suffix`.
 */
module PyText {

  // ---------------------------------------------------------------------------
  // Slicing: s[start:stop] with step 1
  // ---------------------------------------------------------------------------

  /** Python's normalisation of a slice bound against a sequence of length n:
      a negative bound counts from the end, and the result is clamped to [0, n]. */
  function SliceIndex(i: int, n: nat): (r: nat)
    ensures r <= n
    ensures 0 <= i ==> r == if i <= n then i else n
    ensures i < 0 ==> r == if -i <= n then n + i else 0
  {
    if i < 0 then (if i + n < 0 then 0 else i + n)
    else if i > n then n
    else i
  }

  /** `s[start:stop]`. */
  function Slice<T>(s: seq<T>, start: int, stop: int): (r: seq<T>)
    ensures |r| <= |s|
    ensures multiset(r) <= multiset(s)
  {
    var lo, hi := SliceIndex(start, |s|), SliceIndex(stop, |s|);
    if lo < hi then
      assert s == s[..lo] + s[lo..hi] + s[hi..];
      s[lo..hi]
    else []
  }

  /** `s[:stop]` is a prefix of s. */
  lemma SliceFromStart<T>(s: seq<T>, stop: int)
    ensures Slice(s, 0, stop) == s[..SliceIndex(stop, |s|)]
  {
  }

  /** For non-negative bounds a slice is the window of positions start <= p < stop
      that exist in s: its length and every element are determined by position. */
  lemma SliceWindow<T>(s: seq<T>, start: int, stop: int)
    requires 0 <= start <= stop
    ensures |Slice(s, start, stop)| == (if stop <= |s| then stop else |s|) - (if start <= |s| then start else |s|)
    ensures forall k :: 0 <= k < |Slice(s, start, stop)| ==> Slice(s, start, stop)[k] == s[start + k]
  {
  }

  /** `s[:n]` for a non-negative n. */
  function Take<T>(s: seq<T>, n: nat): (r: seq<T>)
    ensures |r| == if n <= |s| then n else |s|
    ensures r == s[..|r|]
  {
    if n <= |s| then s[..n] else s
  }

  // ---------------------------------------------------------------------------
  // str.lower (ASCII letters)
  // ---------------------------------------------------------------------------

  predicate IsUpper(c: char) {
    'A' <= c <= 'Z'
  }

  function LowerChar(c: char): (r: char)
    ensures !IsUpper(r)
    ensures !IsUpper(c) ==> r == c
  {
    if IsUpper(c) then (c as int + 32) as char else c
  }

  /** `s.lower()`, restricted to the ASCII letters. */
  function Lower(s: string): (r: string)
    ensures |r| == |s|
    ensures forall i :: 0 <= i < |s| ==> r[i] == LowerChar(s[i])
  {
    if s == [] then [] else [LowerChar(s[0])] + Lower(s[1..])
  }

  /** Lowering twice is lowering once. */
  lemma LowerIdempotent(s: string)
    ensures Lower(Lower(s)) == Lower(s)
  {
    assert forall i :: 0 <= i < |s| ==> Lower(Lower(s))[i] == Lower(s)[i];
  }

  // ---------------------------------------------------------------------------
  // needle in hay
  // ---------------------------------------------------------------------------

  /** needle occurs in hay starting at position i. */
  predicate OccursAt(hay: string, needle: string, i: int) {
    0 <= i && i + |needle| <= |hay| && hay[i..i + |needle|] == needle
  }

  /** Python's `needle in hay` for strings. */
  function Contains(hay: string, needle: string): (r: bool)
    ensures r <==> exists i :: OccursAt(hay, needle, i)
    decreases |hay|
  {
    if |needle| > |hay| then
      assert forall i :: !OccursAt(hay, needle, i);
      false
    else if hay[..|needle|] == needle then
      assert OccursAt(hay, needle, 0);
      true
    else
      var r := Contains(hay[1..], needle);
      ContainsShift(hay, needle);
      r
  }

  lemma ContainsShift(hay: string, needle: string)
    requires |needle| <= |hay| && hay[..|needle|] != needle
    ensures (exists i :: OccursAt(hay, needle, i)) <==> (exists i :: OccursAt(hay[1..], needle, i))
  {
    if i :| OccursAt(hay, needle, i) {
      assert i != 0;
      assert hay[1..][i - 1..i - 1 + |needle|] == hay[i..i + |needle|];
      assert OccursAt(hay[1..], needle, i - 1);
    }
    if i :| OccursAt(hay[1..], needle, i) {
      assert hay[1..][i..i + |needle|] == hay[i + 1..i + 1 + |needle|];
      assert OccursAt(hay, needle, i + 1);
    }
  }

  /** The empty string is in every string (why the server tests `if keywords:` first). */
  lemma EmptyIsContained(hay: string)
    ensures Contains(hay, "")
  {
    assert OccursAt(hay, "", 0);
  }

  // ---------------------------------------------------------------------------
  // str.strip()
  // ---------------------------------------------------------------------------

  /** The characters `str.isspace` accepts, the set `str.strip()` removes. */
  predicate IsSpace(c: char) {
    c == ' ' || ('\t' <= c <= '\r') || ('\U{1C}' <= c <= '\U{1F}')
    || c == '\U{85}' || c == '\U{A0}' || c == '\U{1680}' || ('\U{2000}' <= c <= '\U{200A}')
    || c == '\U{2028}' || c == '\U{2029}' || c == '\U{202F}' || c == '\U{205F}' || c == '\U{3000}'
  }

  ghost predicate AllSpace(s: string) {
    forall i :: 0 <= i < |s| ==> IsSpace(s[i])
  }

  /** How many whitespace characters `s` starts with. */
  function LeadingSpaces(s: string): (n: nat)
    ensures n <= |s|
    ensures forall i :: 0 <= i < n ==> IsSpace(s[i])
    ensures n < |s| ==> !IsSpace(s[n])
  {
    if s == [] || !IsSpace(s[0]) then 0 else 1 + LeadingSpaces(s[1..])
  }

  /** How many whitespace characters `s` ends with. */
  function TrailingSpaces(s: string): (n: nat)
    ensures n <= |s|
    ensures forall i :: |s| - n <= i < |s| ==> IsSpace(s[i])
    ensures n < |s| ==> !IsSpace(s[|s| - 1 - n])
  {
    if s == [] || !IsSpace(s[|s| - 1]) then 0 else 1 + TrailingSpaces(s[..|s| - 1])
  }

  /** `s.strip()`: the middle part of s between leading and trailing whitespace.
      Only whitespace is removed around it, and it is empty exactly when s is all
      whitespace. */
  function Strip(s: string): (r: string)
    ensures exists a :: OccursAt(s, r, a) && AllSpace(s[..a]) && AllSpace(s[a + |r|..])
    ensures r != [] ==> !IsSpace(r[0]) && !IsSpace(r[|r| - 1])
    ensures r == [] <==> AllSpace(s)
  {
    var a, b := LeadingSpaces(s), |s| - TrailingSpaces(s);
    var r := if a == |s| then [] else s[a..b];
    StripShape(s, a, b, r);
    r
  }

  /** The middle part between the leading and the trailing whitespace. */
  lemma StripShape(s: string, a: nat, b: int, r: string)
    requires a == LeadingSpaces(s) && b == |s| - TrailingSpaces(s)
    requires a < |s| ==> a <= b && r == s[a..b]
    requires a == |s| ==> r == []
    ensures exists k :: OccursAt(s, r, k) && AllSpace(s[..k]) && AllSpace(s[k + |r|..])
    ensures r != [] ==> !IsSpace(r[0]) && !IsSpace(r[|r| - 1])
    ensures r == [] <==> AllSpace(s)
  {
    if a == |s| {
      EmptyMiddle(s);
    } else {
      Middle(s, a, b);
      assert !IsSpace(s[a]);
    }
  }

  /** An all-whitespace string is the empty middle between two runs of whitespace. */
  lemma EmptyMiddle(s: string)
    requires forall i :: 0 <= i < |s| ==> IsSpace(s[i])
    ensures exists k :: OccursAt(s, [], k) && AllSpace(s[..k]) && AllSpace(s[k..])
  {
    assert s[0..] == s;
    assert OccursAt(s, [], 0) && AllSpace(s[..0]) && AllSpace(s[0..]);
  }

  /** The part between a whitespace prefix of length a and a whitespace suffix from b. */
  lemma Middle(s: string, a: nat, b: nat)
    requires a <= b <= |s|
    requires forall i :: 0 <= i < a ==> IsSpace(s[i])
    requires forall i :: b <= i < |s| ==> IsSpace(s[i])
    ensures exists k :: OccursAt(s, s[a..b], k) && AllSpace(s[..k]) && AllSpace(s[k + |s[a..b]|..])
    ensures a < b ==> s[a..b][0] == s[a] && s[a..b][|s[a..b]| - 1] == s[b - 1]
  {
    assert forall i :: 0 <= i < a ==> s[..a][i] == s[i];
    assert forall i :: 0 <= i < |s| - b ==> s[b..][i] == s[b + i];
    assert OccursAt(s, s[a..b], a) && AllSpace(s[..a]) && AllSpace(s[a + |s[a..b]|..]);
  }

  // ---------------------------------------------------------------------------
  // str(int)
  // ---------------------------------------------------------------------------

  predicate IsDigit(c: char) {
    '0' <= c <= '9'
  }

  function DigitChar(d: nat): (c: char)
    requires d < 10
    ensures IsDigit(c) && c as int - '0' as int == d
  {
    ('0' as int + d) as char
  }

  /** Decimal notation of n, as `str(n)` prints it. */
  function NatToString(n: nat): (r: string)
    ensures |r| >= 1
    ensures forall i :: 0 <= i < |r| ==> IsDigit(r[i])
    ensures r[0] == '0' ==> n == 0
  {
    if n < 10 then [DigitChar(n)] else NatToString(n / 10) + [DigitChar(n % 10)]
  }

  /** The number a digit string denotes. */
  function DigitsValue(s: string): nat
    requires forall i :: 0 <= i < |s| ==> IsDigit(s[i])
  {
    if s == [] then 0
    else
      assert IsDigit(s[|s| - 1]);
      DigitsValue(s[..|s| - 1]) * 10 + (s[|s| - 1] as int - '0' as int)
  }

  /** Reading back the decimal notation of n gives n. */
  lemma {:induction false} DigitsRoundTrip(n: nat)
    ensures DigitsValue(NatToString(n)) == n
  {
    if n >= 10 {
      DigitsRoundTrip(n / 10);
      var s := NatToString(n);
      assert s[..|s| - 1] == NatToString(n / 10);
    }
  }

  /** Different numbers have different decimal notations. */
  lemma NatToStringInjective(a: nat, b: nat)
    requires NatToString(a) == NatToString(b)
    ensures a == b
  {
    DigitsRoundTrip(a);
    DigitsRoundTrip(b);
  }

  /** `str(i)` for any integer. */
  function IntToString(i: int): (r: string)
    ensures |r| >= 1
    ensures i < 0 <==> r[0] == '-'
  {
    if i < 0 then "-" + NatToString(-i) else NatToString(i)
  }

  // ---------------------------------------------------------------------------
  // pathlib: name and suffix
  // ---------------------------------------------------------------------------

  /** The last position of c among the first n characters of s, or -1. */
  function LastBefore(s: string, n: nat, c: char): (r: int)
    requires n <= |s|
    ensures -1 <= r < n
    ensures 0 <= r ==> s[r] == c
    ensures forall j :: r < j < n ==> s[j] != c
  {
    if n == 0 then -1
    else if s[n - 1] == c then n - 1
    else LastBefore(s, n - 1, c)
  }

  /** `s.rfind(c)`: the last position of c in s, or -1. */
  function LastIndex(s: string, c: char): (r: int)
    ensures -1 <= r < |s|
    ensures 0 <= r ==> s[r] == c
    ensures forall j :: r < j < |s| ==> s[j] != c
  {
    LastBefore(s, |s|, c)
  }

  /** Between lo and hi, s holds nothing but separators and "." parts, the parts
      that `PurePosixPath` drops when it parses a path: every character is '/' or '.',
      and no two neighbours are both dots. */
  ghost predicate DotPartsIn(s: string, lo: nat, hi: nat)
    requires lo <= hi <= |s|
  {
    && (forall j :: lo <= j < hi ==> s[j] == '/' || s[j] == '.')
    && (forall j, k :: lo <= j && j + 1 == k && k < hi ==> s[j] == '/' || s[k] == '/')
  }

  /** Where the final component of the first n characters of path ends, once trailing
      separators and "." parts are dropped; 0 when there is no component. */
  function EndBefore(path: string, n: nat): (e: nat)
    requires n <= |path|
    ensures e <= n
    decreases n
  {
    var i := LastBefore(path, n, '/');
    if i + 1 < n && (i + 2 != n || path[i + 1] != '.') then n
    else if i < 0 then 0
    else EndBefore(path, i)
  }

  /** Only dot parts follow the final component, which ends at a separator or at n
      and is neither empty nor ".". */
  lemma {:induction false} EndBeforeFacts(path: string, n: nat)
    requires n <= |path|
    ensures var e := EndBefore(path, n);
      && DotPartsIn(path, e, n)
      && (0 < e < n ==> path[e] == '/')
      && (0 < e ==> var b := LastBefore(path, e, '/') + 1; b < e && (e - b != 1 || path[b] != '.'))
    decreases n
  {
    var i := LastBefore(path, n, '/');
    if i + 1 < n && (i + 2 != n || path[i + 1] != '.') {
    } else if i >= 0 {
      EndBeforeFacts(path, i);
      var e := EndBefore(path, i);
      assert path[i] == '/';
    }
  }

  /** Where the final component of path ends. */
  function NameEnd(path: string): (e: nat)
    ensures e <= |path|
  {
    EndBefore(path, |path|)
  }

  /** Where the final component of path starts: just after the last '/' before its end. */
  function NameStart(path: string): (b: nat)
    ensures b <= NameEnd(path)
  {
    LastBefore(path, NameEnd(path), '/') + 1
  }

  /** `PurePosixPath(path).name`: the final component, after dropping trailing
      separators and "." parts; empty when there is no component. It sits between
      separators (or the ends of the path), and only dot parts follow it. */
  function BaseName(path: string): (r: string)
    ensures '/' !in r && r != "."
    ensures r == "" ==> DotPartsIn(path, 0, |path|)
    ensures r != "" ==>
      var b, e := NameStart(path), NameEnd(path);
      && r == path[b..e]
      && (b == 0 || path[b - 1] == '/') && (e == |path| || path[e] == '/')
      && DotPartsIn(path, e, |path|)
  {
    EndBeforeFacts(path, |path|);
    var b, e := NameStart(path), NameEnd(path);
    assert forall m :: 0 <= m < e - b ==> path[b..e][m] == path[b + m];
    path[b..e]
  }

  /** A path names a file, rather than a directory, when nothing follows its final
      component: a trailing '/' or "/." makes `open(path, "wb")` raise. */
  ghost predicate EndsInName(path: string) {
    NameEnd(path) == |path|
  }

  /** `PurePath.suffix` of a final component: from the last '.', provided that dot is
      neither the first nor the last character; otherwise empty. */
  function Suffix(name: string): (r: string)
    ensures r != [] ==> |r| >= 2 && r[0] == '.' && '.' !in r[1..]
    ensures r != [] ==> |r| < |name| && r == name[|name| - |r|..]
    ensures r == [] <==> forall i :: 0 < i < |name| - 1 ==> name[i] != '.' || (exists j :: i < j < |name| && name[j] == '.')
  {
    var i := LastIndex(name, '.');
    if 0 < i < |name| - 1 then
      assert name[i..][1..] == name[i + 1..];
      name[i..]
    else
      name[0..0]
  }

  /** Below a directory, the last c before position |dir| + n of dir + file is the
      last one in file's first n characters, or dir's closing one. */
  lemma {:induction false} LastBeforeUnderDirectory(dir: string, file: string, n: nat, c: char)
    requires |dir| > 0 && dir[|dir| - 1] == c && n <= |file|
    ensures LastBefore(dir + file, |dir| + n, c) == if LastBefore(file, n, c) >= 0 then |dir| + LastBefore(file, n, c) else |dir| - 1
    decreases n
  {
    var p := dir + file;
    if n == 0 {
      assert p[|dir| - 1] == c;
    } else {
      assert p[|dir| + n - 1] == file[n - 1];
      if file[n - 1] != c {
        LastBeforeUnderDirectory(dir, file, n - 1, c);
      }
    }
  }

  /** Below a directory, a component of file ends at the same place, shifted by the
      directory's length. */
  lemma {:induction false} EndBeforeUnderDirectory(dir: string, file: string, n: nat)
    requires |dir| > 0 && dir[|dir| - 1] == '/' && n <= |file|
    requires EndBefore(file, n) > 0
    ensures EndBefore(dir + file, |dir| + n) == |dir| + EndBefore(file, n)
    decreases n
  {
    var p := dir + file;
    var i := LastBefore(file, n, '/');
    LastBeforeUnderDirectory(dir, file, n, '/');
    if i + 1 < n && (i + 2 != n || file[i + 1] != '.') {
      assert p[|dir| + i + 1] == file[i + 1];
    } else {
      assert i >= 0;
      assert i + 1 == n || p[|dir| + i + 1] == file[i + 1];
      EndBeforeUnderDirectory(dir, file, i);
    }
  }

  /** A file saved under a directory keeps its name: the server recomputes the
      extension from `./data/<filename>` and gets the one it checked at upload. */
  lemma BaseNameUnderDirectory(dir: string, file: string)
    requires |dir| > 0 && dir[|dir| - 1] == '/'
    requires BaseName(file) != ""
    ensures BaseName(dir + file) == BaseName(file)
  {
    BaseNameIsSlice(file);
    NameUnderDirectory(dir, file);
    BaseNameIsSlice(dir + file);
    SliceUnderDirectory(dir, file, NameStart(file), NameEnd(file));
  }

  /** The final component of a path is the text between its bounds. */
  lemma BaseNameIsSlice(path: string)
    ensures BaseName(path) == path[NameStart(path)..NameEnd(path)]
  {
  }

  /** Below a directory, the final component's bounds shift by the directory's length. */
  lemma NameUnderDirectory(dir: string, file: string)
    requires |dir| > 0 && dir[|dir| - 1] == '/'
    requires NameEnd(file) > 0
    ensures NameEnd(dir + file) == |dir| + NameEnd(file) && NameStart(dir + file) == |dir| + NameStart(file)
  {
    EndBeforeUnderDirectory(dir, file, |file|);
    LastBeforeUnderDirectory(dir, file, NameEnd(file), '/');
  }

  /** Slicing below a directory is slicing the file, shifted by the directory's length. */
  lemma SliceUnderDirectory(dir: string, file: string, b: nat, e: nat)
    requires b <= e <= |file|
    ensures (dir + file)[|dir| + b..|dir| + e] == file[b..e]
  {
    assert forall m :: 0 <= m < e - b ==> (dir + file)[|dir| + b..|dir| + e][m] == file[b..e][m];
  }
}

/** Character classes and string helpers shared by the code generator and the
    engine's path and name helpers, and the float-to-integer cast. Strings
    are sequences of characters; only ASCII case mapping is modelled. */
module Text {

  datatype Option<T> = None | Some(value: T)

  /** The outcome of an operation that the source lets raise an exception. */
  datatype Result<T> = Ok(value: T) | Err(error: string)

  /** A C++ cast of a float to an integer (`(int)x`, `static_cast<int32>`):
      the fraction is dropped, rounding towards zero. */
  function TruncateToInt(v: real): (r: int)
    ensures v >= 0.0 ==> 0.0 <= r as real <= v && v < r as real + 1.0
    ensures v < 0.0 ==> v <= r as real <= 0.0 && r as real - 1.0 < v
  {
    if v >= 0.0 then v.Floor else -((-v).Floor)
  }

  function ValueOr<T>(o: Option<T>, default: T): T
  {
    match o
    case Some(v) => v
    case None => default
  }

  /** Whitespace as Python's `\s` and `str.isspace` see it, restricted to ASCII:
      space, tab to carriage return, and the four separator controls. */
  predicate IsSpace(c: char)
  {
    c == ' ' || ('\t' <= c <= '\r') || ('\U{1C}' <= c <= '\U{1F}')
  }

  /** Word characters as Python's `\w` sees them, restricted to ASCII. */
  predicate IsWordChar(c: char)
  {
    ('a' <= c <= 'z') || ('A' <= c <= 'Z') || ('0' <= c <= '9') || c == '_'
  }

  predicate IsDigit(c: char)
  {
    '0' <= c <= '9'
  }

  function LowerChar(c: char): (r: char)
    ensures 'A' <= c <= 'Z' ==> 'a' <= r <= 'z'
    ensures !('A' <= c <= 'Z') ==> r == c
  {
    if 'A' <= c <= 'Z' then (c as int - 'A' as int + 'a' as int) as char else c
  }

  /** ASCII lower-casing, character by character. */
  function Lower(s: string): (r: string)
    ensures |r| == |s|
    ensures forall i :: 0 <= i < |s| ==> r[i] == LowerChar(s[i])
  {
    if s == [] then [] else [LowerChar(s[0])] + Lower(s[1..])
  }

  predicate StartsAt(s: string, i: int, t: string)
  {
    0 <= i && i + |t| <= |s| && s[i..i + |t|] == t
  }

  /** The first index at or after `i` where `t` occurs in `s`, or -1. */
  function FindFrom(s: string, t: string, i: nat): (r: int)
    requires i <= |s| + 1
    ensures r == -1 || (i <= r && StartsAt(s, r, t))
    ensures forall j :: i <= j && (r == -1 || j < r) ==> !StartsAt(s, j, t)
    decreases |s| + 1 - i
  {
    if i + |t| > |s| then -1
    else if s[i..i + |t|] == t then i
    else FindFrom(s, t, i + 1)
  }

  /** Python's `t in s`. */
  predicate Contains(s: string, t: string)
  {
    FindFrom(s, t, 0) >= 0
  }

  lemma ContainsIff(s: string, t: string)
    ensures Contains(s, t) <==> exists i :: StartsAt(s, i, t)
  {
    if exists i :: StartsAt(s, i, t) {
      var i :| StartsAt(s, i, t);
      assert FindFrom(s, t, 0) != -1;
    }
  }

  /** The first index at or after `i` holding character `c`, or |s|. */
  function IndexOfChar(s: string, c: char, i: nat): (r: nat)
    requires i <= |s|
    ensures i <= r <= |s|
    ensures r < |s| ==> s[r] == c
    decreases |s| - i
  {
    if i == |s| || s[i] == c then i else IndexOfChar(s, c, i + 1)
  }

  /** No occurrence of `c` is skipped. */
  lemma {:induction false} IndexOfCharFirst(s: string, c: char, i: nat)
    requires i <= |s|
    ensures forall j :: i <= j < IndexOfChar(s, c, i) ==> s[j] != c
    decreases |s| - i
  {
    if i < |s| && s[i] != c {
      IndexOfCharFirst(s, c, i + 1);
    }
  }

  /** The first index at or after `i` that is not whitespace, or |s|. */
  function SkipSpaces(s: string, i: nat): (r: nat)
    requires i <= |s|
    ensures i <= r <= |s|
    ensures r < |s| ==> !IsSpace(s[r])
    decreases |s| - i
  {
    if i < |s| && IsSpace(s[i]) then SkipSpaces(s, i + 1) else i
  }

  /** Everything skipped is whitespace. */
  lemma {:induction false} SkipSpacesSkipsSpaces(s: string, i: nat)
    requires i <= |s|
    ensures forall j :: i <= j < SkipSpaces(s, i) ==> IsSpace(s[j])
    decreases |s| - i
  {
    if i < |s| && IsSpace(s[i]) {
      SkipSpacesSkipsSpaces(s, i + 1);
    }
  }

  /** The first index at or after `i` that is not a word character, or |s|. */
  function SkipWord(s: string, i: nat): (r: nat)
    requires i <= |s|
    ensures i <= r <= |s|
    ensures r < |s| ==> !IsWordChar(s[r])
    decreases |s| - i
  {
    if i < |s| && IsWordChar(s[i]) then SkipWord(s, i + 1) else i
  }

  /** Everything skipped is a word character. */
  lemma {:induction false} SkipWordSkipsWord(s: string, i: nat)
    requires i <= |s|
    ensures forall j :: i <= j < SkipWord(s, i) ==> IsWordChar(s[j])
    decreases |s| - i
  {
    if i < |s| && IsWordChar(s[i]) {
      SkipWordSkipsWord(s, i + 1);
    }
  }

  /** Over a run of word characters ended by a non-word character or the end,
      the skip stops exactly at the end of the run. */
  lemma {:induction false} SkipWordRun(s: string, i: nat, j: nat)
    requires i <= j <= |s|
    requires forall k :: i <= k < j ==> IsWordChar(s[k])
    requires j == |s| || !IsWordChar(s[j])
    ensures SkipWord(s, i) == j
    decreases j - i
  {
    if i < j {
      SkipWordRun(s, i + 1, j);
    }
  }

  /** The index just past the last non-whitespace character before `j`, or 0. */
  function TrimEndIndex(s: string, j: nat): (r: nat)
    requires j <= |s|
    ensures r <= j
    ensures r == 0 || !IsSpace(s[r - 1])
  {
    if j > 0 && IsSpace(s[j - 1]) then TrimEndIndex(s, j - 1) else j
  }

  /** Everything trimmed is whitespace. */
  lemma {:induction false} TrimEndIndexTrimsSpaces(s: string, j: nat)
    requires j <= |s|
    ensures forall k :: TrimEndIndex(s, j) <= k < j ==> IsSpace(s[k])
  {
    if j > 0 && IsSpace(s[j - 1]) {
      TrimEndIndexTrimsSpaces(s, j - 1);
    }
  }

  /** Python's `str.lstrip()`. */
  function TrimStart(s: string): (r: string)
    ensures r == [] || !IsSpace(r[0])
  {
    s[SkipSpaces(s, 0)..]
  }

  /** Python's `str.rstrip()`. */
  function TrimEnd(s: string): (r: string)
    ensures r == [] || !IsSpace(r[|r| - 1])
  {
    s[..TrimEndIndex(s, |s|)]
  }

  /** Python's `str.strip()`. */
  function Strip(s: string): (r: string)
    ensures r == [] || (!IsSpace(r[0]) && !IsSpace(r[|r| - 1]))
    ensures |r| <= |s|
  {
    var a := SkipSpaces(s, 0);
    var b := TrimEndIndex(s, |s|);
    if a < b then s[a..b] else []
  }

  /** Stripping adds no character. */
  lemma StripKeepsOut(s: string, ch: char)
    requires ch !in s
    ensures ch !in Strip(s)
  {
    var a := SkipSpaces(s, 0);
    var b := TrimEndIndex(s, |s|);
    if a < b {
      var r := s[a..b];
      forall k | 0 <= k < |r| ensures r[k] != ch {
        assert r[k] == s[a + k];
      }
    }
  }

  /** Stripping removes exactly the leading and trailing whitespace: what
      remains is a slice of the text with only whitespace around it. */
  lemma StripSlice(s: string)
    ensures exists a, b :: (0 <= a <= b <= |s| && Strip(s) == s[a..b]
      && (forall k :: 0 <= k < a ==> IsSpace(s[k])) && (forall k :: b <= k < |s| ==> IsSpace(s[k])))
  {
    var a := SkipSpaces(s, 0);
    var b := TrimEndIndex(s, |s|);
    SkipSpacesSkipsSpaces(s, 0);
    TrimEndIndexTrimsSpaces(s, |s|);
    if a < b {
      assert Strip(s) == s[a..b];
    } else {
      assert a == |s|;
      assert Strip(s) == s[a..a];
    }
  }

  /** The parts of `s[i..]` between occurrences of `c`. */
  function SplitFrom(s: string, c: char, i: nat): (parts: seq<string>)
    requires i <= |s|
    ensures |parts| >= 1
    decreases |s| - i
  {
    var k := IndexOfChar(s, c, i);
    if k == |s| then [s[i..]] else [s[i..k]] + SplitFrom(s, c, k + 1)
  }

  /** Python's `s.split(c)` for a one-character separator. */
  function Split(s: string, c: char): (parts: seq<string>)
    ensures |parts| >= 1
  {
    SplitFrom(s, c, 0)
  }

  /** No part of a split holds the separator. */
  lemma {:induction false} SplitFromNoSeparator(s: string, c: char, i: nat)
    requires i <= |s|
    ensures forall m :: 0 <= m < |SplitFrom(s, c, i)| ==> c !in SplitFrom(s, c, i)[m]
    decreases |s| - i
  {
    var k := IndexOfChar(s, c, i);
    IndexOfCharFirst(s, c, i);
    var parts := SplitFrom(s, c, i);
    assert c !in parts[0] by {
      assert forall m :: 0 <= m < |parts[0]| ==> parts[0][m] == s[i + m];
    }
    if k < |s| {
      SplitFromNoSeparator(s, c, k + 1);
      var rest := SplitFrom(s, c, k + 1);
      assert parts == [s[i..k]] + rest;
      forall m | 0 <= m < |parts| ensures c !in parts[m] {
        if m > 0 {
          assert parts[m] == rest[m - 1];
        }
      }
    }
  }

  lemma SplitNoSeparator(s: string, c: char)
    ensures forall m :: 0 <= m < |Split(s, c)| ==> c !in Split(s, c)[m]
  {
    SplitFromNoSeparator(s, c, 0);
  }

  /** Python's `sep.join(parts)`. */
  function Join(parts: seq<string>, sep: string): string
  {
    if parts == [] then []
    else if |parts| == 1 then parts[0]
    else parts[0] + sep + Join(parts[1..], sep)
  }

  lemma {:induction false} JoinSplitFrom(s: string, c: char, i: nat)
    requires i <= |s|
    ensures Join(SplitFrom(s, c, i), [c]) == s[i..]
    decreases |s| - i
  {
    var k := IndexOfChar(s, c, i);
    if k < |s| {
      JoinSplitFrom(s, c, k + 1);
      var parts := SplitFrom(s, c, i);
      assert parts[1..] == SplitFrom(s, c, k + 1);
      assert s[i..] == s[i..k] + [c] + s[k + 1..];
    }
  }

  /** Joining one more part adds the separator and the part at the end. */
  lemma {:induction false} JoinSnoc(parts: seq<string>, x: string, sep: string)
    requires |parts| >= 1
    ensures Join(parts + [x], sep) == Join(parts, sep) + sep + x
    decreases |parts|
  {
    if |parts| > 1 {
      assert (parts + [x])[1..] == parts[1..] + [x];
      JoinSnoc(parts[1..], x, sep);
    }
  }

  /** An empty first part makes the joined text start with the separator. */
  lemma JoinEmptyThen(x: string, sep: string)
    ensures Join(["", x], sep) == sep + x
  {
    assert ["", x][1..] == [x];
  }

  /** Joining the parts of a split with the separator gives back the text. */
  lemma JoinSplit(s: string, c: char)
    ensures Join(Split(s, c), [c]) == s
  {
    JoinSplitFrom(s, c, 0);
  }

  /** The number of occurrences of `c` in `s`. */
  function CountChar(s: string, c: char): nat
  {
    if s == [] then 0 else (if s[0] == c then 1 else 0) + CountChar(s[1..], c)
  }

  lemma CountCharAppend(a: string, b: string, c: char)
    ensures CountChar(a + b, c) == CountChar(a, c) + CountChar(b, c)
  {
    if a != [] {
      assert (a + b)[0] == a[0] && (a + b)[1..] == a[1..] + b;
      CountCharAppend(a[1..], b, c);
    } else {
      assert a + b == b;
    }
  }

  /** The occurrences of `c` from `i` on: none before the first one, which
      counts once. */
  lemma CountFromFirst(s: string, c: char, i: nat)
    requires i <= |s|
    ensures IndexOfChar(s, c, i) == |s| ==> CountChar(s[i..], c) == 0
    ensures IndexOfChar(s, c, i) < |s| ==>
      CountChar(s[i..], c) == 1 + CountChar(s[IndexOfChar(s, c, i) + 1..], c)
  {
    var k := IndexOfChar(s, c, i);
    IndexOfCharFirst(s, c, i);
    assert c !in s[i..k] by {
      assert forall m :: 0 <= m < k - i ==> s[i..k][m] == s[i + m];
    }
    NoCharCount(s[i..k], c);
    if k == |s| {
      assert s[i..] == s[i..k];
    } else {
      assert s[i..] == s[i..k] + ([c] + s[k + 1..]);
      CountCharAppend(s[i..k], [c] + s[k + 1..], c);
      CountCharAppend([c], s[k + 1..], c);
    }
  }

  lemma {:induction false} SplitFromCount(s: string, c: char, i: nat)
    requires i <= |s|
    ensures |SplitFrom(s, c, i)| == CountChar(s[i..], c) + 1
    decreases |s| - i
  {
    CountFromFirst(s, c, i);
    var k := IndexOfChar(s, c, i);
    if k < |s| {
      SplitFromCount(s, c, k + 1);
    }
  }

  /** A split on `c` has exactly one part more than `c` occurs in the text. */
  lemma SplitCount(s: string, c: char)
    ensures |Split(s, c)| == CountChar(s, c) + 1
  {
    SplitFromCount(s, c, 0);
    assert s[0..] == s;
  }

  lemma NoCharCount(s: string, c: char)
    requires c !in s
    ensures CountChar(s, c) == 0
  {
    if s != [] {
      NoCharCount(s[1..], c);
    }
  }

  /** The index one past the last occurrence of `c` in `s` before `j`, or 0. */
  function AfterLast(s: string, c: char, j: nat): (r: nat)
    requires j <= |s|
    ensures r <= j
    ensures r > 0 ==> s[r - 1] == c
  {
    if j == 0 then 0
    else if s[j - 1] == c then j
    else AfterLast(s, c, j - 1)
  }

  /** Whether `s` ends with `t`. */
  predicate EndsWith(s: string, t: string)
  {
    |t| <= |s| && s[|s| - |t|..] == t
  }

  /** Decimal text of a natural number. */
  function NatToString(n: nat): (r: string)
    ensures |r| >= 1
    ensures forall k :: 0 <= k < |r| ==> IsDigit(r[k])
  {
    if n < 10 then [DigitChar(n)] else NatToString(n / 10) + [DigitChar(n % 10)]
  }

  function DigitChar(d: nat): (c: char)
    requires d < 10
    ensures IsDigit(c) && c as int - '0' as int == d
  {
    ('0' as int + d) as char
  }

  /** The value of a string of decimal digits. */
  function DigitsValue(s: string): nat
    requires forall k :: 0 <= k < |s| ==> IsDigit(s[k])
  {
    if s == [] then 0
    else
      assert IsDigit(s[|s| - 1]);
      DigitsValue(s[..|s| - 1]) * 10 + (s[|s| - 1] as int - '0' as int)
  }

  /** Reading back the decimal text of a number gives the number. */
  lemma {:induction false} DigitsValueOfNatToString(n: nat)
    ensures DigitsValue(NatToString(n)) == n
  {
    if n >= 10 {
      DigitsValueOfNatToString(n / 10);
      var r := NatToString(n);
      assert r[..|r| - 1] == NatToString(n / 10);
    }
  }

  /** Distinct numbers have distinct decimal texts. */
  lemma NatToStringInjective(m: nat, n: nat)
    requires m != n
    ensures NatToString(m) != NatToString(n)
  {
    DigitsValueOfNatToString(m);
    DigitsValueOfNatToString(n);
  }

  predicate IsPathSeparator(c: char)
  {
    c == '/' || c == '\\'
  }

  /** One past the last `/` or `\\` of `path` (`find_last_of("/\\") + 1`),
      0 when it has neither: where its file name starts. */
  function FileNameStart(path: string): (start: nat)
    ensures start <= |path|
    ensures start > 0 ==> IsPathSeparator(path[start - 1])
    ensures forall k :: start <= k < |path| ==> !IsPathSeparator(path[k])
  {
    if path == [] then 0
    else if IsPathSeparator(path[|path| - 1]) then |path|
    else FileNameStart(path[..|path| - 1])
  }

  /** The file name of a path: what follows its last `/` or `\\`, the
      whole path when it has neither. */
  function FileNameOf(path: string): (r: string)
    ensures |r| <= |path| && r == path[|path| - |r|..]
    ensures forall k :: 0 <= k < |r| ==> !IsPathSeparator(r[k])
    ensures |r| < |path| ==> IsPathSeparator(path[|path| - |r| - 1])
  {
    path[FileNameStart(path)..]
  }

  lemma ObjHasNoSeparator()
    ensures forall k :: 0 <= k < |".obj"| ==> !IsPathSeparator(".obj"[k])
  {
  }

  /** What lower-cases to a text without separators has none either. */
  lemma LowerKeepsNoSeparator(s: string, lowered: string)
    requires Lower(s) == lowered
    requires forall k :: 0 <= k < |lowered| ==> !IsPathSeparator(lowered[k])
    ensures forall k :: 0 <= k < |s| ==> !IsPathSeparator(s[k])
  {
    forall k | 0 <= k < |s|
      ensures !IsPathSeparator(s[k])
    {
      assert lowered[k] == LowerChar(s[k]);
    }
  }

  /** The file name starts just after a separator that no other one
      follows. */
  lemma FileNameStartAfter(path: string, start: nat)
    requires 0 < start <= |path| && IsPathSeparator(path[start - 1])
    requires forall k :: start <= k < |path| ==> !IsPathSeparator(path[k])
    ensures FileNameStart(path) == start
  {
  }

  /** The file name of `dir/name` starts after the slash when `name` has
      no separator. */
  lemma FileNameStartOfDirEntry(dir: string, name: string)
    requires forall k :: 0 <= k < |name| ==> !IsPathSeparator(name[k])
    ensures FileNameStart(dir + "/" + name) == |dir| + 1
  {
    var path := dir + "/" + name;
    forall k | |dir| + 1 <= k < |path|
      ensures !IsPathSeparator(path[k])
    {
      assert path[k] == name[k - |dir| - 1];
    }
    FileNameStartAfter(path, |dir| + 1);
  }

  /** A suffix without separators lies inside the file name: the file
      name is the text between its start and the suffix, then the
      suffix. */
  lemma FileNameKeepsSuffix(path: string, ext: string)
    requires EndsWith(path, ext)
    requires forall k :: 0 <= k < |ext| ==> !IsPathSeparator(ext[k])
    ensures FileNameStart(path) <= |path| - |ext|
    ensures path[FileNameStart(path)..|path| - |ext|] + ext == FileNameOf(path)
  {
    StartBeforeSuffix(path, ext);
    SplitBeforeSuffix(path, ext, FileNameStart(path), FileNameOf(path));
  }

  lemma SplitBeforeSuffix(path: string, ext: string, start: nat, tail: string)
    requires EndsWith(path, ext)
    requires start <= |path| - |ext| && path[start..] == tail
    ensures path[start..|path| - |ext|] + ext == tail
  {
    var m := |path| - |ext|;
    assert path[m..] == ext;
    assert path[start..] == path[start..m] + path[m..];
  }

  lemma StartBeforeSuffix(path: string, ext: string)
    requires EndsWith(path, ext)
    requires forall k :: 0 <= k < |ext| ==> !IsPathSeparator(ext[k])
    ensures FileNameStart(path) <= |path| - |ext|
  {
    var m := |path| - |ext|;
    forall k | m <= k < |path|
      ensures !IsPathSeparator(path[k])
    {
      assert path[k] == ext[k - m];
    }
  }

  /** The index of the last `c` in `s`, or -1. */
  function LastIndexOfChar(s: string, c: char): (r: int)
    ensures -1 <= r < |s|
    ensures r >= 0 ==> s[r] == c
    ensures forall k :: r < k < |s| ==> s[k] != c
  {
    if s == [] then -1
    else if s[|s| - 1] == c then |s| - 1
    else LastIndexOfChar(s[..|s| - 1], c)
  }
}

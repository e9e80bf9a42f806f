/**
 * Python `str` operations the scripts rely on, over `seq<char>`.
 * Case mapping is ASCII only and whitespace is the ASCII and Latin-1 part
 * of Python's `str.isspace` (which `str.strip()` and the regex class `\s` use).
 */
module Text {
  import opened Common

  // ---------------------------------------------------------------- whitespace

  predicate IsSpace(c: char) {
    c == ' ' || c == '\t' || c == '\n' || c == '\r' || c == '\U{000B}' || c == '\U{000C}'
    || ('\U{001C}' <= c <= '\U{001F}') || c == '\U{0085}' || c == '\U{00A0}'
  }

  predicate AllSpace(s: string) {
    forall k :: 0 <= k < |s| ==> IsSpace(s[k])
  }

  /** No whitespace at either end: what `str.strip()` returns. */
  predicate IsStripped(s: string) {
    s == [] || (!IsSpace(s[0]) && !IsSpace(s[|s| - 1]))
  }

  /** `s.lstrip()` */
  function TrimLeft(s: string): (r: string)
    ensures |r| <= |s| && r == s[|s| - |r|..]
    ensures AllSpace(s[..|s| - |r|])
    ensures r == [] || !IsSpace(r[0])
  {
    if s != [] && IsSpace(s[0]) then
      var r := TrimLeft(s[1..]);
      assert forall k :: 1 <= k < |s| - |r| ==> s[k] == s[1..][..|s| - 1 - |r|][k - 1];
      r
    else s
  }

  /** `s.rstrip()` */
  function TrimRight(s: string): (r: string)
    ensures |r| <= |s| && r == s[..|r|]
    ensures AllSpace(s[|r|..])
    ensures r == [] || !IsSpace(r[|r| - 1])
  {
    if s != [] && IsSpace(s[|s| - 1]) then
      var r := TrimRight(s[..|s| - 1]);
      assert s[|r|..] == s[..|s| - 1][|r|..] + [s[|s| - 1]];
      r
    else s
  }

  /** Index of the first character `str.strip()` keeps. */
  function StripStart(s: string): nat {
    |s| - |TrimLeft(s)|
  }

  /**
   * `s.strip()`: the slice of `s` that remains once the leading and the
   * trailing whitespace are removed.
   */
  function Strip(s: string): (r: string)
    ensures IsStripped(r) && |r| <= |s|
  {
    var l := TrimLeft(s);
    var r := TrimRight(l);
    assert r != [] ==> r[0] == l[0];
    r
  }

  /** What `str.strip()` removes is whitespace, from both ends only. */
  lemma StripSlice(s: string)
    ensures StripStart(s) + |Strip(s)| <= |s| && Strip(s) == s[StripStart(s)..StripStart(s) + |Strip(s)|]
    ensures AllSpace(s[..StripStart(s)]) && AllSpace(s[StripStart(s) + |Strip(s)|..])
  {
    var st := StripStart(s);
    var l := TrimLeft(s);
    var r := TrimRight(l);
    assert Strip(s) == r;
    SuffixSlices(s, st, |r|);
  }

  lemma StripOfStripped(s: string)
    requires IsStripped(s)
    ensures Strip(s) == s
  {
    StripSlice(s);
  }

  lemma StripIdempotent(s: string)
    ensures Strip(Strip(s)) == Strip(s)
  {
    StripOfStripped(Strip(s));
  }

  // ---------------------------------------------------------------- case

  function LowerChar(c: char): char {
    if 'A' <= c <= 'Z' then (c as int + 32) as char else c
  }

  function UpperChar(c: char): char {
    if 'a' <= c <= 'z' then (c as int - 32) as char else c
  }

  predicate IsLetter(c: char) {
    ('a' <= c <= 'z') || ('A' <= c <= 'Z')
  }

  /** `s.lower()` */
  function Lower(s: string): (r: string)
    ensures |r| == |s| && forall i :: 0 <= i < |s| ==> r[i] == LowerChar(s[i])
  {
    seq(|s|, i requires 0 <= i < |s| => LowerChar(s[i]))
  }

  /**
   * `s.title()`: a letter that follows a non-letter (or starts the string) is
   * upper-cased, every other letter is lower-cased, other characters stay.
   */
  function TitleCase(s: string): (r: string)
    ensures |r| == |s|
  {
    seq(|s|, i requires 0 <= i < |s| =>
      if !IsLetter(s[i]) then s[i]
      else if i == 0 || !IsLetter(s[i - 1]) then UpperChar(s[i])
      else LowerChar(s[i]))
  }

  /** Strings that agree up to case have the same title case. */
  lemma TitleCaseOfLower(a: string, b: string)
    requires Lower(a) == Lower(b)
    ensures TitleCase(a) == TitleCase(b)
  {
    forall i | 0 <= i < |a| ensures TitleCase(a)[i] == TitleCase(b)[i] {
      assert LowerChar(a[i]) == Lower(a)[i];
      if i > 0 {
        assert LowerChar(a[i - 1]) == Lower(a)[i - 1];
      }
    }
  }

  /** Title-casing changes letters' case only. */
  lemma LowerTitleCase(s: string)
    ensures Lower(TitleCase(s)) == Lower(s)
  {
  }

  /** Python truthiness of an optional string: present and not empty. */
  predicate Truthy(s: Option<string>) {
    s.Some? && s.value != []
  }

  // ---------------------------------------------------------------- searching

  predicate OccursAt(s: string, pat: string, j: nat) {
    j + |pat| <= |s| && s[j..j + |pat|] == pat
  }

  /** `s.startswith(p)` */
  predicate StartsWith(s: string, p: string) {
    OccursAt(s, p, 0)
  }

  /** The first occurrence of `pat` at or after `from`. */
  function IndexFrom(s: string, pat: string, from: nat): (r: Option<nat>)
    requires from <= |s|
    decreases |s| - from
    ensures r.Some? ==> from <= r.value && OccursAt(s, pat, r.value)
    ensures r.Some? ==> forall j :: from <= j < r.value ==> !OccursAt(s, pat, j)
    ensures r.None? ==> forall j :: from <= j ==> !OccursAt(s, pat, j)
  {
    if OccursAt(s, pat, from) then Some(from)
    else if from == |s| then None
    else IndexFrom(s, pat, from + 1)
  }

  /** `s.find(pat)`, with `None` for -1. */
  function IndexOf(s: string, pat: string): Option<nat> {
    IndexFrom(s, pat, 0)
  }

  /** `pat in s` */
  predicate Contains(s: string, pat: string) {
    IndexOf(s, pat).Some?
  }

  lemma ContainsAt(s: string, pat: string, j: nat)
    requires OccursAt(s, pat, j)
    ensures Contains(s, pat)
  {
  }

  lemma OccursInPrefix(s: string, pat: string, j: nat, m: nat)
    requires j + |pat| <= m <= |s|
    ensures OccursAt(s[..m], pat, j) <==> OccursAt(s, pat, j)
  {
    assert s[..m][j..j + |pat|] == s[j..j + |pat|];
  }

  /** A pattern whose character `c` the text lacks does not occur in it. */
  lemma MissingChar(s: string, pat: string, c: char)
    requires c in pat && c !in s
    ensures !Contains(s, pat)
  {
  }

  /** `find` returns `j` when the pattern occurs at `j` and nowhere before. */
  lemma IndexOfFirst(s: string, pat: string, j: nat)
    requires OccursAt(s, pat, j) && forall k: nat :: k < j ==> !OccursAt(s, pat, k)
    ensures IndexOf(s, pat) == Some(j)
  {
  }

  /** The last occurrence of `pat` at or before `upto`. */
  function LastIndexUpTo(s: string, pat: string, upto: nat): (r: Option<nat>)
    ensures r.Some? ==> r.value <= upto && OccursAt(s, pat, r.value)
    ensures r.Some? ==> forall j :: r.value < j <= upto ==> !OccursAt(s, pat, j)
    ensures r.None? ==> forall j: nat :: j <= upto ==> !OccursAt(s, pat, j)
  {
    if OccursAt(s, pat, upto) then Some(upto)
    else if upto == 0 then None
    else LastIndexUpTo(s, pat, upto - 1)
  }

  /** `s.rfind(pat)`, with `None` for -1. */
  function LastIndexOf(s: string, pat: string): (r: Option<nat>)
    ensures r.Some? ==> OccursAt(s, pat, r.value) && forall j :: r.value < j ==> !OccursAt(s, pat, j)
    ensures r.None? ==> forall j: nat :: !OccursAt(s, pat, j)
  {
    LastIndexUpTo(s, pat, |s|)
  }

  /**
   * `s.split(sep, 1)`: the text before the first `sep` and the rest, or
   * `None` when `sep` does not occur (Python then returns a one-element list).
   */
  function SplitOnce(s: string, sep: string): (r: Option<(string, string)>)
    requires |sep| > 0
    ensures r.Some? ==> s == r.value.0 + sep + r.value.1
    ensures r.Some? ==> forall j: nat :: j < |r.value.0| ==> !OccursAt(s, sep, j)
    ensures r.None? <==> !Contains(s, sep)
  {
    match IndexOf(s, sep)
    case None => None
    case Some(i) =>
      assert s == s[..i] + sep + s[i + |sep|..];
      Some((s[..i], s[i + |sep|..]))
  }

  // ---------------------------------------------------------------- replacing

  /** `s.replace(target, repl)`: every non-overlapping occurrence, scanned left to right. */
  function ReplaceAll(s: string, target: string, repl: string): (r: string)
    requires |target| > 0
    decreases |s|
  {
    if OccursAt(s, target, 0) then repl + ReplaceAll(s[|target|..], target, repl)
    else if s == [] then []
    else [s[0]] + ReplaceAll(s[1..], target, repl)
  }

  lemma OccursInTail(s: string, pat: string, j: nat)
    requires s != []
    ensures OccursAt(s[1..], pat, j) <==> OccursAt(s, pat, j + 1)
  {
    if j + |pat| <= |s| - 1 {
      assert s[1..][j..j + |pat|] == s[j + 1..j + 1 + |pat|];
    }
  }

  /** A string without the pattern is left as it is. */
  lemma {:induction false} ReplaceAbsent(s: string, target: string, repl: string)
    requires |target| > 0
    requires forall j: nat :: !OccursAt(s, target, j)
    ensures ReplaceAll(s, target, repl) == s
    decreases |s|
  {
    if s != [] {
      assert !OccursAt(s, target, 0);
      forall j: nat ensures !OccursAt(s[1..], target, j) {
        OccursInTail(s, target, j);
      }
      ReplaceAbsent(s[1..], target, repl);
    }
  }

  /** Replacing every `c` by a text without `c` leaves no `c`. */
  lemma {:induction false} ReplaceRemoves(s: string, c: char, repl: string)
    requires c !in repl
    ensures c !in ReplaceAll(s, [c], repl)
    decreases |s|
  {
    if OccursAt(s, [c], 0) {
      ReplaceRemoves(s[1..], c, repl);
    } else if s != [] {
      assert s[0] != c by { assert !OccursAt(s, [c], 0) && s[0..1] == [s[0]]; }
      ReplaceRemoves(s[1..], c, repl);
    }
  }

  /** Replacing by something no longer never lengthens the text. */
  lemma {:induction false} ReplaceShrinks(s: string, target: string, repl: string)
    requires |target| > 0 && |repl| <= |target|
    ensures |ReplaceAll(s, target, repl)| <= |s|
    decreases |s|
  {
    if OccursAt(s, target, 0) {
      ReplaceShrinks(s[|target|..], target, repl);
    } else if s != [] {
      ReplaceShrinks(s[1..], target, repl);
    }
  }

  // ---------------------------------------------------------------- split / join on one character

  /** `s.split(c)` for a one-character separator: never an empty list. */
  function Split(s: string, c: char): (r: seq<string>)
    ensures |r| >= 1
    ensures forall k :: 0 <= k < |r| ==> c !in r[k]
    decreases |s|
  {
    if s == [] then [[]]
    else
      var rest := Split(s[1..], c);
      if s[0] == c then [[]] + rest
      else [[s[0]] + rest[0]] + rest[1..]
  }

  /** `sep.join(parts)` */
  function Join(parts: seq<string>, sep: string): string
    decreases |parts|
  {
    if parts == [] then []
    else if |parts| == 1 then parts[0]
    else parts[0] + sep + Join(parts[1..], sep)
  }

  /** Joining the pieces of a split with the same character rebuilds the text. */
  lemma {:induction false} JoinSplit(s: string, c: char)
    ensures Join(Split(s, c), [c]) == s
    decreases |s|
  {
    if s != [] {
      var rest := Split(s[1..], c);
      JoinSplit(s[1..], c);
      if s[0] == c {
        assert Split(s, c) == [[]] + rest;
        assert s == [c] + s[1..];
      } else {
        assert Split(s, c) == [[s[0]] + rest[0]] + rest[1..];
        if |rest| == 1 {
          assert s == [s[0]] + rest[0];
        } else {
          assert Join(rest, [c]) == rest[0] + [c] + Join(rest[1..], [c]);
          assert s == [s[0]] + s[1..];
        }
      }
    }
  }

  lemma {:induction false} SplitWithout(a: string, c: char)
    requires c !in a
    ensures Split(a, c) == [a]
    decreases |a|
  {
    if a != [] {
      SplitWithout(a[1..], c);
      assert [a[0]] + a[1..] == a;
    }
  }

  lemma {:induction false} SplitAcross(a: string, c: char, b: string)
    requires c !in a
    ensures Split(a + [c] + b, c) == [a] + Split(b, c)
    decreases |a|
  {
    if a == [] {
      assert a + [c] + b == [c] + b;
      assert ([c] + b)[1..] == b;
    } else {
      assert (a + [c] + b)[1..] == a[1..] + [c] + b;
      SplitAcross(a[1..], c, b);
      assert [a[0]] + a[1..] == a;
    }
  }

  /** Splitting a join gives the pieces back when no piece holds the separator. */
  lemma {:induction false} SplitJoin(parts: seq<string>, c: char)
    requires |parts| >= 1
    requires forall k :: 0 <= k < |parts| ==> c !in parts[k]
    ensures Split(Join(parts, [c]), c) == parts
    decreases |parts|
  {
    if |parts| == 1 {
      SplitWithout(parts[0], c);
    } else {
      SplitJoin(parts[1..], c);
      SplitAcross(parts[0], c, Join(parts[1..], [c]));
      assert [parts[0]] + parts[1..] == parts;
    }
  }

  // ---------------------------------------------------------------- numbers

  predicate IsDigit(c: char) {
    '0' <= c <= '9'
  }

  predicate AllDigits(s: string) {
    forall k :: 0 <= k < |s| ==> IsDigit(s[k])
  }

  function DigitValue(c: char): nat
    requires IsDigit(c)
  {
    (c as int - '0' as int) as nat
  }

  function DigitChar(d: nat): (c: char)
    requires d < 10
    ensures IsDigit(c) && DigitValue(c) == d
  {
    ('0' as int + d) as char
  }

  /** The decimal value of a string of digits. */
  function DigitsValue(s: string): nat
    requires AllDigits(s)
  {
    if s == [] then 0 else DigitsValue(s[..|s| - 1]) * 10 + DigitValue(s[|s| - 1])
  }

  /** A non-empty run of ASCII digits, read as a number; `None` otherwise. */
  function ParseDigits(s: string): Option<nat> {
    if s != [] && AllDigits(s) then Some(DigitsValue(s)) else None
  }

  /** `str(n)` for a natural number. */
  function ShowNat(n: nat): (r: string)
    ensures r != [] && AllDigits(r)
  {
    if n < 10 then [DigitChar(n)] else ShowNat(n / 10) + [DigitChar(n % 10)]
  }

  /** `str(i)` */
  function ShowInt(i: int): (r: string)
    ensures r != []
  {
    if i < 0 then "-" + ShowNat(-i) else ShowNat(i)
  }

  /** Reading back what `str()` printed gives the number again. */
  lemma {:induction false} ParseShow(n: nat)
    ensures ParseDigits(ShowNat(n)) == Some(n)
  {
    if n >= 10 {
      ParseShow(n / 10);
      var s := ShowNat(n);
      assert s[..|s| - 1] == ShowNat(n / 10);
      assert DigitValue(s[|s| - 1]) == n % 10;
      assert DigitsValue(s) == DigitsValue(ShowNat(n / 10)) * 10 + n % 10;
    }
  }

  /**
   * Python `int(s)` for a base-10 literal: surrounding whitespace, an optional
   * sign, then ASCII digits. `None` stands for the `ValueError` Python raises.
   */
  function PyInt(s: string): (r: Option<int>)
    ensures r.Some? ==> Strip(s) != []
  {
    var t := Strip(s);
    if t != [] && (t[0] == '-' || t[0] == '+') then
      match ParseDigits(t[1..])
      case None => None
      case Some(v) =>
        var i: int := if t[0] == '-' then 0 - (v as int) else v as int;
        Some(i)
    else
      match ParseDigits(t)
      case None => None
      case Some(v) => Some(v)
  }

  /** `int(str(n)) == n` */
  lemma PyIntShowNat(n: nat)
    ensures PyInt(ShowNat(n)) == Some(n)
  {
    var t := ShowNat(n);
    assert !IsSpace(t[0]) && !IsSpace(t[|t| - 1]);
    StripOfStripped(t);
    ParseShow(n);
  }

  /** `int(str(i)) == i`, negative numbers included. */
  lemma PyIntShowInt(i: int)
    ensures PyInt(ShowInt(i)) == Some(i)
  {
    if i < 0 {
      var d := ShowNat(-i);
      var t := ShowInt(i);
      assert t == "-" + d && t[1..] == d;
      assert IsStripped(t) by {
        assert !IsSpace(t[0]) && !IsSpace(t[|t| - 1]);
      }
      StripOfStripped(t);
      ParseShow(-i);
      assert ParseDigits(t[1..]) == Some(-i);
    } else {
      PyIntShowNat(i);
    }
  }

  /** The text before the first `c` of `a + [c] + b` is `a`. */
  lemma FirstPiece(a: string, c: char, b: string)
    requires c !in a
    ensures Split(a + [c] + b, c)[0] == a
  {
    SplitAcross(a, c, b);
  }
}

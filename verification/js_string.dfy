/**
  The JavaScript string operations the chunkers and decision functions rely on,
  stated over `seq<char>`. A `char` is one Unicode scalar value, so `|s|` is
  JavaScript's `s.length` only for text without characters outside the Basic
  Multilingual Plane, which JavaScript counts twice.
 */
module JsString {

  /** The characters `String.prototype.trim` removes: WhiteSpace and LineTerminator. */
  predicate IsWhitespace(c: char) {
    || c == '\t' || c == '\n' || c == '\U{000B}' || c == '\U{000C}' || c == '\r'
    || c == ' ' || c == '\U{00A0}' || c == '\U{1680}'
    || ('\U{2000}' <= c <= '\U{200A}')
    || c == '\U{2028}' || c == '\U{2029}' || c == '\U{202F}' || c == '\U{205F}'
    || c == '\U{3000}' || c == '\U{FEFF}'
  }

  /** The characters a regular-expression `.` does not match. */
  predicate IsLineTerminator(c: char) {
    c == '\n' || c == '\r' || c == '\U{2028}' || c == '\U{2029}'
  }

  predicate AllWhitespace(s: string) {
    forall i :: 0 <= i < |s| ==> IsWhitespace(s[i])
  }

  /** The non-whitespace content of `s`, in order. */
  function RemoveWhitespace(s: string): (r: string)
    ensures |r| <= |s|
  {
    if s == [] then []
    else (if IsWhitespace(s[0]) then [] else [s[0]]) + RemoveWhitespace(s[1..])
  }

  /** The content holds exactly the characters of `s` that are not whitespace. */
  lemma {:induction false} RemoveWhitespaceMembers(s: string)
    ensures forall c :: c in RemoveWhitespace(s) <==> c in s && !IsWhitespace(c)
  {
    if s != [] {
      RemoveWhitespaceMembers(s[1..]);
      assert s == [s[0]] + s[1..];
    }
  }

  lemma {:induction false} RemoveWhitespaceAppend(a: string, b: string)
    ensures RemoveWhitespace(a + b) == RemoveWhitespace(a) + RemoveWhitespace(b)
  {
    if a != [] {
      assert (a + b)[0] == a[0];
      assert (a + b)[1..] == a[1..] + b;
      RemoveWhitespaceAppend(a[1..], b);
      calc {
        RemoveWhitespace(a + b);
        (if IsWhitespace(a[0]) then [] else [a[0]]) + RemoveWhitespace(a[1..] + b);
        (if IsWhitespace(a[0]) then [] else [a[0]]) + RemoveWhitespace(a[1..]) + RemoveWhitespace(b);
      }
    } else {
      assert a + b == b;
    }
  }

  lemma {:induction false} RemoveWhitespaceOfBlank(s: string)
    requires AllWhitespace(s)
    ensures RemoveWhitespace(s) == []
  {
    if s != [] {
      RemoveWhitespaceOfBlank(s[1..]);
    }
  }

  lemma {:induction false} RemoveWhitespaceEmptyIsBlank(s: string)
    requires RemoveWhitespace(s) == []
    ensures AllWhitespace(s)
  {
    if s != [] {
      RemoveWhitespaceEmptyIsBlank(s[1..]);
    }
  }

  // ---------------------------------------------------------------------------
  // trim

  /** Number of leading whitespace characters of `s`. */
  function LeadingWhitespace(s: string): (k: nat)
    ensures k <= |s|
  {
    if s != [] && IsWhitespace(s[0]) then 1 + LeadingWhitespace(s[1..]) else 0
  }

  /** The leading run is all whitespace and stops at the first other character. */
  lemma {:induction false} LeadingWhitespaceSpec(s: string)
    ensures var k := LeadingWhitespace(s);
      AllWhitespace(s[..k]) && (k == |s| || !IsWhitespace(s[k]))
  {
    if s != [] && IsWhitespace(s[0]) {
      LeadingWhitespaceSpec(s[1..]);
      var k := LeadingWhitespace(s);
      assert s[..k] == [s[0]] + s[1..][..k - 1];
    }
  }

  /** Length of `s` without its trailing whitespace. */
  function TrailingCut(s: string): (e: nat)
    ensures e <= |s|
  {
    if s != [] && IsWhitespace(s[|s| - 1]) then TrailingCut(s[..|s| - 1]) else |s|
  }

  /** What follows the cut is all whitespace, and the character before it is not. */
  lemma {:induction false} TrailingCutSpec(s: string)
    ensures var e := TrailingCut(s);
      AllWhitespace(s[e..]) && (e == 0 || !IsWhitespace(s[e - 1]))
  {
    if s != [] && IsWhitespace(s[|s| - 1]) {
      var init := s[..|s| - 1];
      TrailingCutSpec(init);
      var e := TrailingCut(s);
      assert s[e..] == init[e..] + [s[|s| - 1]];
      if e > 0 {
        assert s[e - 1] == init[e - 1];
      }
    }
  }

  /** `s.trim()` */
  function Trim(s: string): (r: string)
    ensures |r| <= |s|
  {
    var t := s[LeadingWhitespace(s)..];
    t[..TrailingCut(t)]
  }

  /**
    The trimmed string is a slice of `s` that neither starts nor ends with
    whitespace, and everything cut off around it is whitespace.
   */
  lemma TrimSpec(s: string)
    ensures var r := Trim(s);
      && |r| <= |s|
      && (r == [] || (!IsWhitespace(r[0]) && !IsWhitespace(r[|r| - 1])))
      && var k := LeadingWhitespace(s);
         k + |r| <= |s| && s[k..k + |r|] == r
         && AllWhitespace(s[..k]) && AllWhitespace(s[k + |r|..])
  {
    TrimIsSlice(s);
    TrimEnds(s);
    TrimCutsBlanks(s);
  }

  lemma TrimIsSlice(s: string)
    ensures var k := LeadingWhitespace(s);
      k + |Trim(s)| <= |s| && s[k..k + |Trim(s)|] == Trim(s)
  {
    var k := LeadingWhitespace(s);
    var t := s[k..];
    var e := TrailingCut(t);
    assert Trim(s) == t[..e];
    SliceOfSuffix(s, k, 0, e);
  }

  lemma TrimEnds(s: string)
    ensures var r := Trim(s);
      r == [] || (!IsWhitespace(r[0]) && !IsWhitespace(r[|r| - 1]))
  {
    var k := LeadingWhitespace(s);
    var t := s[k..];
    var e := TrailingCut(t);
    var r := t[..e];
    assert Trim(s) == r;
    if e > 0 {
      LeadingWhitespaceSpec(s);
      TrailingCutSpec(t);
      assert r[0] == s[k];
      assert r[e - 1] == t[e - 1];
    }
  }

  lemma TrimCutsBlanks(s: string)
    ensures var k := LeadingWhitespace(s);
      k + |Trim(s)| <= |s| && AllWhitespace(s[..k]) && AllWhitespace(s[k + |Trim(s)|..])
  {
    var k := LeadingWhitespace(s);
    var t := s[k..];
    var e := TrailingCut(t);
    assert |Trim(s)| == e;
    LeadingWhitespaceSpec(s);
    assert AllWhitespace(s[k + e..]) by {
      TrailingCutSpec(t);
      SliceOfSuffix(s, k, e, |t|);
      assert t[e..] == t[e..|t|];
    }
  }

  lemma TrimKeepsContent(s: string)
    ensures RemoveWhitespace(Trim(s)) == RemoveWhitespace(s)
  {
    TrimSpec(s);
    var r := Trim(s);
    var k := LeadingWhitespace(s);
    assert s == s[..k] + r + s[k + |r|..];
    RemoveWhitespaceAppend(s[..k] + r, s[k + |r|..]);
    RemoveWhitespaceAppend(s[..k], r);
    RemoveWhitespaceOfBlank(s[..k]);
    RemoveWhitespaceOfBlank(s[k + |r|..]);
  }

  /** `s.trim()` is falsy exactly when `s` is all whitespace. */
  lemma TrimEmptyIffBlank(s: string)
    ensures Trim(s) == [] <==> AllWhitespace(s)
  {
    TrimSpec(s);
    var k := LeadingWhitespace(s);
    if Trim(s) == [] {
      assert s == s[..k] + s[k..];
    } else {
      assert !IsWhitespace(s[k]);
    }
  }

  /** A string ending in whitespace loses at least that character to `trim`. */
  lemma TrimDropsTrailing(s: string)
    requires s != [] && IsWhitespace(s[|s| - 1])
    ensures |Trim(s)| < |s|
  {
    TrimSpec(s);
    var r := Trim(s);
    var k := LeadingWhitespace(s);
    if r != [] {
      assert r[|r| - 1] == s[k + |r| - 1];
    }
  }

  lemma TrimOfTrimmed(s: string)
    requires s == [] || (!IsWhitespace(s[0]) && !IsWhitespace(s[|s| - 1]))
    ensures Trim(s) == s
  {
    var k := LeadingWhitespace(s);
    assert k == 0;
  }

  lemma TrimIdempotent(s: string)
    ensures Trim(Trim(s)) == Trim(s)
  {
    TrimSpec(s);
    TrimOfTrimmed(Trim(s));
  }

  // ---------------------------------------------------------------------------
  // Searching

  predicate OccursAt(s: string, pat: string, i: int) {
    0 <= i && i + |pat| <= |s| && s[i..i + |pat|] == pat
  }

  /** `s.indexOf(pat, from)` for `0 <= from`. */
  function IndexOfFrom(s: string, pat: string, from: nat): (r: int)
    ensures r == -1 || (from <= r && OccursAt(s, pat, r))
    ensures forall j :: from <= j && (r == -1 || j < r) ==> !OccursAt(s, pat, j)
    decreases |s| - from
  {
    if from + |pat| > |s| then -1
    else if s[from..from + |pat|] == pat then from
    else IndexOfFrom(s, pat, from + 1)
  }

  /** `s.indexOf(pat)`: the first occurrence, or -1. */
  function IndexOf(s: string, pat: string): (r: int)
    ensures r == -1 || OccursAt(s, pat, r)
    ensures forall j :: 0 <= j && (r == -1 || j < r) ==> !OccursAt(s, pat, j)
  {
    IndexOfFrom(s, pat, 0)
  }

  /** `s.includes(pat)` */
  predicate Contains(s: string, pat: string) {
    IndexOf(s, pat) >= 0
  }

  lemma ContainsIff(s: string, pat: string)
    ensures Contains(s, pat) <==> exists i :: OccursAt(s, pat, i)
  {
  }

  /** An occurrence inside a slice is an occurrence in the whole string. */
  lemma ContainsInSlice(s: string, pat: string, a: nat, b: nat)
    requires a <= b <= |s|
    requires Contains(s[a..b], pat)
    ensures Contains(s, pat)
  {
    var i := IndexOf(s[a..b], pat);
    assert OccursAt(s[a..b], pat, i);
    assert s[a..b][i..i + |pat|] == s[a + i..a + i + |pat|];
    assert OccursAt(s, pat, a + i);
  }

  /** `s.startsWith(p)` */
  predicate StartsWith(s: string, p: string) {
    |p| <= |s| && s[..|p|] == p
  }

  /**
    `s.lastIndexOf(c, from)` for a one-character search string: the largest
    index `i <= from` with `s[i] == c`, or -1.
   */
  function LastIndexOf(s: string, c: char, from: int): (r: int)
    ensures -1 <= r < |s| && r <= (if from < 0 then 0 else from)
    ensures r >= 0 ==> s[r] == c
    ensures forall j :: r < j <= from && 0 <= j < |s| ==> s[j] != c
  {
    var start := if from >= |s| then |s| - 1 else if from < 0 then (if s == [] then -1 else 0) else from;
    LastIndexAtOrBefore(s, c, start)
  }

  function LastIndexAtOrBefore(s: string, c: char, i: int): (r: int)
    requires -1 <= i < |s|
    ensures -1 <= r <= i
    ensures r >= 0 ==> s[r] == c
    ensures forall j :: r < j <= i && 0 <= j ==> s[j] != c
    decreases i + 1
  {
    if i < 0 then -1
    else if s[i] == c then i
    else LastIndexAtOrBefore(s, c, i - 1)
  }

  /** `s.substring(a, b)`: both ends clamped into `[0, |s|]`, then swapped if needed. */
  function Substring(s: string, a: int, b: int): (r: string)
    ensures 0 <= a <= b <= |s| ==> r == s[a..b]
    ensures |r| <= |s|
  {
    var a' := if a < 0 then 0 else if a > |s| then |s| else a;
    var b' := if b < 0 then 0 else if b > |s| then |s| else b;
    if a' <= b' then s[a'..b'] else s[b'..a']
  }

  /** `s.replace(pat, rep)` with a string pattern: only the first occurrence is replaced. */
  function ReplaceFirst(s: string, pat: string, rep: string): (r: string)
    ensures !Contains(s, pat) ==> r == s
    ensures Contains(s, pat) ==>
      var i := IndexOf(s, pat); r == s[..i] + rep + s[i + |pat|..]
  {
    var i := IndexOf(s, pat);
    if i < 0 then s else s[..i] + rep + s[i + |pat|..]
  }

  /** ASCII lower-casing; see the README for why this suffices for the comparisons made. */
  function LowerChar(c: char): char {
    if 'A' <= c <= 'Z' then (c as int + 32) as char else c
  }

  function ToLower(s: string): (r: string)
    ensures |r| == |s|
    ensures forall i :: 0 <= i < |s| ==> r[i] == LowerChar(s[i])
  {
    seq(|s|, i requires 0 <= i < |s| => LowerChar(s[i]))
  }

  // ---------------------------------------------------------------------------
  // split / join

  /** The concatenation of all pieces. */
  function Flatten(parts: seq<string>): string {
    if parts == [] then [] else parts[0] + Flatten(parts[1..])
  }

  lemma {:induction false} FlattenAppend(a: seq<string>, b: seq<string>)
    ensures Flatten(a + b) == Flatten(a) + Flatten(b)
  {
    if a != [] {
      assert (a + b)[0] == a[0];
      assert (a + b)[1..] == a[1..] + b;
      FlattenAppend(a[1..], b);
    } else {
      assert a + b == b;
    }
  }

  /** `parts.join(sep)` */
  function Join(parts: seq<string>, sep: string): string {
    if parts == [] then []
    else if |parts| == 1 then parts[0]
    else parts[0] + sep + Join(parts[1..], sep)
  }

  lemma FlattenSingle(x: string)
    ensures Flatten([x]) == x
  {
    assert Flatten([x]) == x + Flatten([]);
    assert x + [] == x;
  }

  /** Each piece with the separator in front of it: `parts.map(p => sep + p)`. */
  function PrefixEach(parts: seq<string>, sep: string): (r: seq<string>)
    ensures |r| == |parts|
    ensures forall i :: 0 <= i < |parts| ==> r[i] == sep + parts[i]
  {
    seq(|parts|, i requires 0 <= i < |parts| => sep + parts[i])
  }

  /** A join is the first piece followed by every other piece with the separator in front. */
  lemma {:induction false} JoinIsHeadThenPrefixed(parts: seq<string>, sep: string)
    requires |parts| >= 1
    ensures Join(parts, sep) == parts[0] + Flatten(PrefixEach(parts[1..], sep))
  {
    if |parts| == 1 {
      assert parts[1..] == [];
      assert PrefixEach(parts[1..], sep) == [];
      assert parts[0] + [] == parts[0];
    } else {
      var tail := parts[1..];
      JoinIsHeadThenPrefixed(tail, sep);
      assert tail[1..] == parts[2..];
      var p := PrefixEach(tail, sep);
      assert p == [sep + tail[0]] + PrefixEach(tail[1..], sep);
      assert p[1..] == PrefixEach(tail[1..], sep);
      assert Flatten(p) == sep + tail[0] + Flatten(PrefixEach(tail[1..], sep));
    }
  }

  /** `s.split(sep)` for a non-empty separator: left-to-right, non-overlapping matches. */
  function Split(s: string, sep: string): (parts: seq<string>)
    requires sep != []
    ensures |parts| >= 1
    ensures forall i :: 0 <= i < |parts| ==> !Contains(parts[i], sep)
    decreases |s|
  {
    var i := IndexOf(s, sep);
    if i < 0 then [s]
    else
      assert !Contains(s[..i], sep) by {
        if Contains(s[..i], sep) {
          var j := IndexOf(s[..i], sep);
          assert s[..i][j..j + |sep|] == s[j..j + |sep|];
          assert OccursAt(s, sep, j);
        }
      }
      [s[..i]] + Split(s[i + |sep|..], sep)
  }

  /** A split at the first occurrence of the separator: the piece before it, then the split of the rest. */
  lemma SplitAtFirst(s: string, sep: string)
    requires sep != [] && IndexOf(s, sep) >= 0
    ensures var i := IndexOf(s, sep);
      Split(s, sep) == [s[..i]] + Split(s[i + |sep|..], sep)
  {
  }

  lemma JoinCons(x: string, rest: seq<string>, sep: string)
    requires rest != []
    ensures Join([x] + rest, sep) == x + sep + Join(rest, sep)
  {
    assert ([x] + rest)[1..] == rest;
  }

  lemma SplitAround(s: string, i: nat, sep: string)
    requires i + |sep| <= |s| && OccursAt(s, sep, i)
    ensures s == s[..i] + sep + s[i + |sep|..]
  {
    assert s == s[..i] + s[i..i + |sep|] + s[i + |sep|..];
  }

  /** Joining the pieces of a split with the same separator gives back the input. */
  lemma {:induction false} JoinSplit(s: string, sep: string)
    requires sep != []
    ensures Join(Split(s, sep), sep) == s
    decreases |s|
  {
    var i := IndexOf(s, sep);
    if i >= 0 {
      var rest := s[i + |sep|..];
      JoinSplit(rest, sep);
      SplitAtFirst(s, sep);
      JoinCons(s[..i], Split(rest, sep), sep);
      SplitAround(s, i, sep);
    } else {
      assert Split(s, sep) == [s];
    }
  }

  /** A string without the separator splits into itself alone. */
  lemma SplitWithoutSeparator(s: string, sep: string)
    requires sep != [] && !Contains(s, sep)
    ensures Split(s, sep) == [s]
  {
  }

  /** Joining two non-empty lists puts one separator between their joins. */
  lemma {:induction false} JoinAppend(a: seq<string>, b: seq<string>, sep: string)
    requires a != [] && b != []
    ensures Join(a + b, sep) == Join(a, sep) + sep + Join(b, sep)
  {
    if |a| == 1 {
      assert (a + b)[1..] == b;
    } else {
      assert (a + b)[1..] == a[1..] + b;
      JoinAppend(a[1..], b, sep);
    }
  }

  /** Joining with a whitespace-only separator keeps exactly the content of the pieces. */
  lemma {:induction false} JoinContent(parts: seq<string>, sep: string)
    requires AllWhitespace(sep)
    ensures RemoveWhitespace(Join(parts, sep)) == RemoveWhitespace(Flatten(parts))
  {
    if |parts| > 1 {
      JoinContent(parts[1..], sep);
      RemoveWhitespaceAppend(parts[0] + sep, Join(parts[1..], sep));
      RemoveWhitespaceAppend(parts[0], sep);
      RemoveWhitespaceOfBlank(sep);
      RemoveWhitespaceAppend(parts[0], Flatten(parts[1..]));
    } else if |parts| == 1 {
      assert Flatten(parts) == parts[0] + Flatten([]);
      assert parts[0] + [] == parts[0];
    }
  }

  // ---------------------------------------------------------------------------
  // Deciding `includes` on known strings

  /** A string contains each of its prefixes. */
  lemma StartsWithContains(s: string, p: string)
    requires StartsWith(s, p)
    ensures Contains(s, p)
  {
    assert OccursAt(s, p, 0);
  }

  /** A string cannot contain a pattern that has a character the string lacks. */
  lemma MissingCharNotContained(s: string, pat: string, k: nat)
    requires k < |pat| && pat[k] !in s
    ensures !Contains(s, pat)
  {
  }

  lemma SliceOfRightPart(u: string, v: string, a: int, b: int)
    requires |u| <= a <= b <= |u| + |v|
    ensures (u + v)[a..b] == v[a - |u|..b - |u|]
  {
    assert (u + v)[|u|..] == v;
    assert (u + v)[a..b] == (u + v)[|u|..][a - |u|..b - |u|];
  }

  lemma SliceOfSuffix(w: string, a: int, b: int, c: int)
    requires 0 <= a <= |w| && 0 <= b <= c <= |w| - a
    ensures w[a..][b..c] == w[a + b..a + c]
  {
  }

  /** An occurrence starts at a copy of the pattern's first character, so it lies past a prefix without one. */
  lemma ContainsPastPrefix(u: string, v: string, pat: string)
    requires pat != [] && pat[0] !in u && Contains(u + v, pat)
    ensures Contains(v, pat)
  {
    var i := IndexOf(u + v, pat);
    assert (u + v)[i] == pat[0];
    assert forall j :: 0 <= j < |u| ==> (u + v)[j] == u[j];
    assert i >= |u|;
    SliceOfRightPart(u, v, i, i + |pat|);
    assert OccursAt(v, pat, i - |u|);
  }

  /** An occurrence that is not at the start lies in the rest. */
  lemma ContainsPastFirst(w: string, pat: string)
    requires w != [] && Contains(w, pat) && !OccursAt(w, pat, 0)
    ensures Contains(w[1..], pat)
  {
    var i := IndexOf(w, pat);
    assert i >= 1;
    SliceOfSuffix(w, 1, i - 1, i - 1 + |pat|);
    assert OccursAt(w[1..], pat, i - 1);
  }

  lemma ContainsMiddle(a: string, p: string, b: string)
    ensures Contains(a + p + b, p)
  {
    assert (a + p + b)[|a|..|a| + |p|] == p;
    assert OccursAt(a + p + b, p, |a|);
  }

  /** One differing character rules out an occurrence. */
  lemma MismatchNotAt(w: string, pat: string, i: nat, k: nat)
    requires k < |pat| && i + k < |w| && w[i + k] != pat[k]
    ensures !OccursAt(w, pat, i)
  {
  }
}

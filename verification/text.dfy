/** The few Python string operations the service relies on: `str.lower()` (restricted
    to ASCII), the substring test `a in b`, `str.strip()` and `str.split(sep)`. */
module Text {

  /** ASCII lower-casing of one character; every other character is left as it is. */
  function LowerChar(c: char): char {
    if 'A' <= c <= 'Z' then (c as int + 32) as char else c
  }

  /** `s.lower()`, character by character, for the ASCII letters. */
  function Lower(s: string): string {
    seq(|s|, i requires 0 <= i < |s| => LowerChar(s[i]))
  }

  /** Lower-casing twice is lower-casing once. */
  lemma LowerIdempotent(s: string)
    ensures Lower(Lower(s)) == Lower(s)
  {
    assert forall i :: 0 <= i < |s| ==> LowerChar(LowerChar(s[i])) == LowerChar(s[i]);
  }

  /** `needle` occurs in `hay` starting at offset `i`. */
  predicate OccursAt(needle: string, hay: string, i: int) {
    0 <= i && i + |needle| <= |hay| && hay[i..i + |needle|] == needle
  }

  /** The meaning of Python's `needle in hay` on strings: some offset of `hay` starts a copy of `needle`. */
  ghost predicate IsSubstring(needle: string, hay: string) {
    exists i :: OccursAt(needle, hay, i)
  }

  /** Python's `needle in hay`, computed by trying every start position from the left. */
  function Contains(hay: string, needle: string): bool
    decreases |hay|
  {
    if needle <= hay then true
    else if |hay| == 0 then false
    else Contains(hay[1..], needle)
  }

  /** The left-to-right scan answers exactly the substring question. */
  lemma {:induction false} ContainsIsSubstring(hay: string, needle: string)
    ensures Contains(hay, needle) <==> IsSubstring(needle, hay)
    decreases |hay|
  {
    if needle <= hay {
      assert OccursAt(needle, hay, 0);
    } else if |hay| == 0 {
      assert !IsSubstring(needle, hay);
    } else {
      ContainsIsSubstring(hay[1..], needle);
      if Contains(hay[1..], needle) {
        var j :| OccursAt(needle, hay[1..], j);
        assert hay[1..][j..j + |needle|] == hay[j + 1..j + 1 + |needle|];
        assert OccursAt(needle, hay, j + 1);
      }
      if IsSubstring(needle, hay) {
        var i :| OccursAt(needle, hay, i);
        if i == 0 {
          assert false;
        }
        assert hay[1..][i - 1..i - 1 + |needle|] == hay[i..i + |needle|];
        assert OccursAt(needle, hay[1..], i - 1);
      }
    }
  }

  /** The empty string is in every string, as in Python (`"" in s` is true). */
  lemma EmptyIsEverywhere(hay: string)
    ensures Contains(hay, "")
  {
  }

  /** A needle holding a character the haystack lacks does not occur in it. */
  lemma NotContainsMissingChar(hay: string, needle: string, c: char)
    requires c in needle && c !in hay
    ensures !Contains(hay, needle)
  {
    ContainsIsSubstring(hay, needle);
    assert !IsSubstring(needle, hay);
  }

  /** The same, seen through lower-casing: a lower-case letter of `needle` that `hay` holds in
      neither case keeps `needle.lower()` out of `hay.lower()`. */
  lemma LowerNotContainsMissingChar(hay: string, needle: string, c: char)
    requires 'a' <= c <= 'z'
    requires c in needle && c !in hay && (c as int - 32) as char !in hay
    ensures !Contains(Lower(hay), Lower(needle))
  {
    var i :| 0 <= i < |needle| && needle[i] == c;
    assert Lower(needle)[i] == c;
    forall j | 0 <= j < |hay|
      ensures Lower(hay)[j] != c
    {
      assert hay[j] != c && hay[j] != (c as int - 32) as char;
    }
    NotContainsMissingChar(Lower(hay), Lower(needle), c);
  }

  /** An occurrence lies either in the part before `m` (plus the overlap an occurrence starting
      before `m` can reach) or in the part from `m` on. */
  lemma ContainsSplit(hay: string, needle: string, m: int)
    requires 0 <= m <= |hay| && |needle| >= 1
    ensures var left := hay[..if m + |needle| - 1 <= |hay| then m + |needle| - 1 else |hay|];
            Contains(hay, needle) ==> Contains(left, needle) || Contains(hay[m..], needle)
  {
    var end := if m + |needle| - 1 <= |hay| then m + |needle| - 1 else |hay|;
    var left := hay[..end];
    ContainsIsSubstring(hay, needle);
    ContainsIsSubstring(left, needle);
    ContainsIsSubstring(hay[m..], needle);
    if IsSubstring(needle, hay) {
      var i :| OccursAt(needle, hay, i);
      if i < m {
        assert left[i..i + |needle|] == hay[i..i + |needle|];
        assert OccursAt(needle, left, i);
      } else {
        assert hay[m..][i - m..i - m + |needle|] == hay[i..i + |needle|];
        assert OccursAt(needle, hay[m..], i - m);
      }
    }
  }

  /** The characters Python's `str.isspace()` accepts, hence those `str.strip()` removes. */
  const Whitespace: set<char> := {
    '\U{9}', '\U{A}', '\U{B}', '\U{C}', '\U{D}', '\U{1C}', '\U{1D}', '\U{1E}',
    '\U{1F}', '\U{20}', '\U{85}', '\U{A0}', '\U{1680}', '\U{2000}', '\U{2001}', '\U{2002}',
    '\U{2003}', '\U{2004}', '\U{2005}', '\U{2006}', '\U{2007}', '\U{2008}', '\U{2009}', '\U{200A}',
    '\U{2028}', '\U{2029}', '\U{202F}', '\U{205F}', '\U{3000}'
  }

  predicate IsSpace(c: char) {
    c in Whitespace
  }

  /** `s.lstrip()`: drops the longest all-whitespace prefix. */
  function TrimStart(s: string): (r: string)
    ensures |r| <= |s| && r == s[|s| - |r|..]
    ensures forall k :: 0 <= k < |s| - |r| ==> IsSpace(s[k])
    ensures r == [] || !IsSpace(r[0])
  {
    if |s| > 0 && IsSpace(s[0]) then
      var r := TrimStart(s[1..]);
      assert s[1..][|s| - 1 - |r|..] == s[|s| - |r|..];
      assert forall k :: 1 <= k < |s| - |r| ==> s[k] == s[1..][k - 1];
      r
    else s
  }

  /** `s.rstrip()`: drops the longest all-whitespace suffix. */
  function TrimEnd(s: string): (r: string)
    ensures |r| <= |s| && r == s[..|r|]
    ensures forall k :: |r| <= k < |s| ==> IsSpace(s[k])
    ensures r == [] || !IsSpace(r[|r| - 1])
  {
    if |s| > 0 && IsSpace(s[|s| - 1]) then
      var r := TrimEnd(s[..|s| - 1]);
      assert s[..|s| - 1][..|r|] == s[..|r|];
      assert forall k :: |r| <= k < |s| - 1 ==> s[k] == s[..|s| - 1][k];
      r
    else s
  }

  /** `s.strip()`. */
  function Strip(s: string): string {
    TrimEnd(TrimStart(s))
  }

  /** A prefix `u` of the suffix `t = s[i..]` is the slice `s[i..i + |u|]`, and whitespace after
      `u` in `t` is whitespace after that slice in `s`. */
  lemma PrefixOfSuffix(s: string, i: nat, t: string, u: string)
    requires i <= |s| && t == s[i..] && |u| <= |t| && u == t[..|u|]
    requires forall k :: |u| <= k < |t| ==> IsSpace(t[k])
    ensures u == s[i..i + |u|]
    ensures forall k :: i + |u| <= k < |s| ==> IsSpace(s[k])
  {
    assert s[i..][..|u|] == s[i..i + |u|];
    forall k | i + |u| <= k < |s| ensures IsSpace(s[k]) {
      assert s[k] == t[k - i];
    }
  }

  /** The slice of `s` that stripping keeps, with only whitespace before and after it. */
  lemma StripBounds(s: string) returns (i: nat, j: nat)
    ensures i <= j <= |s| && Strip(s) == s[i..j]
    ensures forall k :: 0 <= k < i ==> IsSpace(s[k])
    ensures forall k :: j <= k < |s| ==> IsSpace(s[k])
  {
    var t := TrimStart(s);
    var u := TrimEnd(t);
    i := |s| - |t|;
    PrefixOfSuffix(s, i, t, u);
    j := i + |u|;
  }

  /** The result of stripping neither starts nor ends with whitespace. */
  lemma StripEnds(s: string)
    ensures Strip(s) == [] || (!IsSpace(Strip(s)[0]) && !IsSpace(Strip(s)[|Strip(s)| - 1]))
  {
    var t := TrimStart(s);
    var u := TrimEnd(t);
    if u != [] {
      assert u[0] == t[0];
    }
  }

  /** Stripping keeps a contiguous middle part of `s`, removes only whitespace around it,
      and leaves no whitespace at either end of the result. */
  lemma StripSpec(s: string)
    ensures exists i, j :: 0 <= i <= j <= |s| && Strip(s) == s[i..j]
                          && (forall k :: 0 <= k < i ==> IsSpace(s[k]))
                          && (forall k :: j <= k < |s| ==> IsSpace(s[k]))
    ensures Strip(s) == [] || (!IsSpace(Strip(s)[0]) && !IsSpace(Strip(s)[|Strip(s)| - 1]))
  {
    var i, j := StripBounds(s);
    StripEnds(s);
  }

  /** Leading whitespace makes no difference to `lstrip()`. */
  lemma {:induction false} TrimStartSpaces(pre: string, x: string)
    requires forall i :: 0 <= i < |pre| ==> IsSpace(pre[i])
    ensures TrimStart(pre + x) == TrimStart(x)
    decreases |pre|
  {
    if |pre| > 0 {
      var px := pre + x;
      assert px[0] == pre[0] && IsSpace(px[0]);
      assert TrimStart(px) == TrimStart(px[1..]);
      assert px[1..] == pre[1..] + x;
      TrimStartSpaces(pre[1..], x);
    } else {
      assert pre + x == x;
    }
  }

  /** Trailing whitespace makes no difference to `rstrip()`. */
  lemma {:induction false} TrimEndSpaces(x: string, post: string)
    requires forall i :: 0 <= i < |post| ==> IsSpace(post[i])
    ensures TrimEnd(x + post) == TrimEnd(x)
    decreases |post|
  {
    if |post| > 0 {
      var xp := x + post;
      assert xp[|xp| - 1] == post[|post| - 1] && IsSpace(xp[|xp| - 1]);
      assert TrimEnd(xp) == TrimEnd(xp[..|xp| - 1]);
      assert xp[..|xp| - 1] == x + post[..|post| - 1];
      TrimEndSpaces(x, post[..|post| - 1]);
    } else {
      assert x + post == x;
    }
  }

  /** Padding a string that neither starts nor ends with whitespace with whitespace on both
      sides, and stripping it, gives the string back. */
  lemma StripPadded(pre: string, t: string, post: string)
    requires forall i :: 0 <= i < |pre| ==> IsSpace(pre[i])
    requires forall i :: 0 <= i < |post| ==> IsSpace(post[i])
    requires t == [] || (!IsSpace(t[0]) && !IsSpace(t[|t| - 1]))
    ensures Strip(pre + t + post) == t
  {
    var tp := t + post;
    assert pre + t + post == pre + tp;
    TrimStartSpaces(pre, tp);
    if t == [] {
      TrimStartSpaces(post, []);
      assert post + [] == post && tp == post;
    } else {
      assert tp[0] == t[0];
      assert TrimStart(tp) == tp;
      TrimEndSpaces(t, post);
      assert TrimEnd(t) == t;
    }
  }

  /** Stripping an already stripped string changes nothing. */
  lemma StripIdempotent(s: string)
    ensures Strip(Strip(s)) == Strip(s)
  {
  }

  /** Python's `s.split(sep)` for a one-character separator: the pieces between separators,
      always at least one (an empty `s` gives `[""]`). */
  function Split(s: string, sep: char): (parts: seq<string>)
    ensures |parts| >= 1
    ensures forall k :: 0 <= k < |parts| ==> sep !in parts[k]
  {
    if |s| == 0 then [""]
    else
      var rest := Split(s[1..], sep);
      if s[0] == sep then [""] + rest
      else [[s[0]] + rest[0]] + rest[1..]
  }

  /** Python's `sep.join(parts)`. */
  function Join(parts: seq<string>, sep: char): string {
    if |parts| == 0 then ""
    else if |parts| == 1 then parts[0]
    else parts[0] + [sep] + Join(parts[1..], sep)
  }

  /** Number of occurrences of `c` in `s`. */
  function CountChar(s: string, c: char): nat {
    if |s| == 0 then 0 else (if s[0] == c then 1 else 0) + CountChar(s[1..], c)
  }

  /** Joining a list that starts with `p` puts `p` and a separator before the join of the rest. */
  lemma JoinCons(p: string, parts: seq<string>, sep: char)
    requires |parts| >= 1
    ensures Join([p] + parts, sep) == p + [sep] + Join(parts, sep)
  {
    assert ([p] + parts)[1..] == parts;
  }

  /** Prefixing the first piece with `c` prefixes the whole join with `c`. */
  lemma JoinExtendHead(c: char, parts: seq<string>, sep: char)
    requires |parts| >= 1
    ensures Join([[c] + parts[0]] + parts[1..], sep) == [c] + Join(parts, sep)
  {
    var q := [[c] + parts[0]] + parts[1..];
    if |parts| > 1 {
      assert q[1..] == parts[1..];
      assert Join(q, sep) == ([c] + parts[0]) + [sep] + Join(parts[1..], sep);
    }
  }

  /** Splitting a string with first character `c` looks at the rest of it. */
  lemma SplitCons(c: char, t: string, sep: char)
    ensures Split([c] + t, sep) ==
              (if c == sep then [""] + Split(t, sep)
               else [[c] + Split(t, sep)[0]] + Split(t, sep)[1..])
  {
    assert ([c] + t)[1..] == t;
  }

  /** Joining the pieces back with the separator gives the original string. */
  lemma {:induction false} JoinSplit(s: string, sep: char)
    ensures Join(Split(s, sep), sep) == s
    decreases |s|
  {
    if |s| > 0 {
      var rest := Split(s[1..], sep);
      JoinSplit(s[1..], sep);
      if s[0] == sep {
        JoinCons("", rest, sep);
      } else {
        JoinExtendHead(s[0], rest, sep);
      }
      assert s == [s[0]] + s[1..];
    }
  }

  /** Dropping the first character of the first piece keeps every piece separator-free. */
  lemma DropFirstCharSepFree(parts: seq<string>, sep: char)
    requires |parts| >= 1 && |parts[0]| > 0
    requires forall k :: 0 <= k < |parts| ==> sep !in parts[k]
    ensures var tail := [parts[0][1..]] + parts[1..];
      forall k :: 0 <= k < |tail| ==> sep !in tail[k]
  {
    var tail := [parts[0][1..]] + parts[1..];
    forall k | 0 <= k < |tail| ensures sep !in tail[k] {
      if k == 0 {
        assert forall c :: c in parts[0][1..] ==> c in parts[0];
      } else {
        assert tail[k] == parts[k];
      }
    }
  }

  /** Splitting a join of separator-free pieces gives the pieces back. */
  lemma {:induction false} SplitJoin(parts: seq<string>, sep: char)
    requires |parts| >= 1
    requires forall k :: 0 <= k < |parts| ==> sep !in parts[k]
    ensures Split(Join(parts, sep), sep) == parts
    decreases |parts|, |parts[0]|
  {
    var p := parts[0];
    if |p| > 0 {
      var tail := [p[1..]] + parts[1..];
      DropFirstCharSepFree(parts, sep);
      SplitJoin(tail, sep);
      assert [p[0]] + p[1..] == p;
      assert parts == [[p[0]] + tail[0]] + tail[1..];
      JoinExtendHead(p[0], tail, sep);
      SplitCons(p[0], Join(tail, sep), sep);
    } else if |parts| > 1 {
      SplitJoin(parts[1..], sep);
      assert parts == [""] + parts[1..];
      JoinCons("", parts[1..], sep);
      SplitCons(sep, Join(parts[1..], sep), sep);
    }
  }

  /** `s.split(sep)` has one more piece than `s` has separators. */
  lemma {:induction false} SplitCount(s: string, sep: char)
    ensures |Split(s, sep)| == CountChar(s, sep) + 1
    decreases |s|
  {
    if |s| > 0 {
      SplitCount(s[1..], sep);
    }
  }
}

/** The comparison form the duplicate check puts words and Front fields in:
    Python's `s.lower().strip()`. */
module Normalization {

  /** Upper-case letters this model lower-cases: ASCII `A`-`Z` and the
      Latin-1 letters U+00C0-U+00DE except the multiplication sign U+00D7. */
  predicate IsUpper(c: char) {
    (65 <= c as int <= 90) || (0xC0 <= c as int <= 0xDE && c as int != 0xD7)
  }

  /** `str.lower()` on one character of the modelled range. */
  function LowerChar(c: char): (d: char)
    ensures !IsUpper(d)
    ensures IsUpper(c) ==> d as int == c as int + 32
    ensures !IsUpper(c) ==> d == c
    ensures IsSpace(d) <==> IsSpace(c)
  {
    if IsUpper(c) then (c as int + 32) as char else c
  }

  /** The characters Python's `str.isspace()` accepts, which `str.strip()`
      removes from both ends. */
  predicate IsSpace(c: char) {
    var n := c as int;
    (9 <= n <= 13) || (0x1C <= n <= 0x20) || n == 0x85 || n == 0xA0 || n == 0x1680
    || (0x2000 <= n <= 0x200A) || n == 0x2028 || n == 0x2029 || n == 0x202F
    || n == 0x205F || n == 0x3000
  }

  predicate AllSpace(s: string) {
    forall i :: 0 <= i < |s| ==> IsSpace(s[i])
  }

  /** `str.lower()`, character by character. */
  function Lower(s: string): (r: string)
    ensures |r| == |s|
    ensures forall i :: 0 <= i < |s| ==> r[i] == LowerChar(s[i])
  {
    seq(|s|, i requires 0 <= i < |s| => LowerChar(s[i]))
  }

  /** `str.lstrip()`: drops the leading whitespace, keeps the rest. */
  function StripLeading(s: string): (r: string)
    ensures |r| <= |s| && r == s[|s| - |r|..]
    ensures forall i :: 0 <= i < |s| - |r| ==> IsSpace(s[i])
    ensures r == [] || !IsSpace(r[0])
    decreases |s|
  {
    if |s| > 0 && IsSpace(s[0]) then StripLeading(s[1..]) else s
  }

  /** `str.rstrip()`: drops the trailing whitespace, keeps the rest. */
  function StripTrailing(s: string): (r: string)
    ensures |r| <= |s| && r == s[..|r|]
    ensures forall i :: |r| <= i < |s| ==> IsSpace(s[i])
    ensures r == [] || !IsSpace(r[|r| - 1])
    decreases |s|
  {
    if |s| > 0 && IsSpace(s[|s| - 1]) then StripTrailing(s[..|s| - 1]) else s
  }

  /** `str.strip()`: keeps one contiguous slice of `s`, drops only
      whitespace around it, and the slice neither starts nor ends with
      whitespace. */
  function Strip(s: string): (r: string)
    ensures |r| <= |s|
    ensures r == [] || (!IsSpace(r[0]) && !IsSpace(r[|r| - 1]))
    ensures exists a, b :: 0 <= a <= b <= |s| && r == s[a..b] && AllSpace(s[..a]) && AllSpace(s[b..])
  {
    var t := StripLeading(s);
    var r := StripTrailing(t);
    assert r != [] ==> r[0] == t[0];
    PrefixIsSpace(s, |s| - |t|);
    SuffixIsSpace(t, |r|);
    SliceOfSuffix(s, |s| - |t|, |r|);
    r
  }

  lemma PrefixIsSpace(s: string, n: nat)
    requires n <= |s|
    requires forall i :: 0 <= i < n ==> IsSpace(s[i])
    ensures AllSpace(s[..n])
  {
    var pre := s[..n];
    forall i | 0 <= i < |pre| ensures IsSpace(pre[i]) {
      assert pre[i] == s[i];
    }
  }

  lemma SuffixIsSpace(s: string, n: nat)
    requires n <= |s|
    requires forall i :: n <= i < |s| ==> IsSpace(s[i])
    ensures AllSpace(s[n..])
  {
    var post := s[n..];
    forall i | 0 <= i < |post| ensures IsSpace(post[i]) {
      assert post[i] == s[n + i];
    }
  }

  lemma SliceOfSuffix(s: string, a: nat, n: nat)
    requires a + n <= |s|
    ensures s[a..][..n] == s[a..a + n]
    ensures s[a..][n..] == s[a + n..]
  {
  }

  /** `s.lower().strip()` (sync_to_anki.py:59 for the word, :111 for the
      Front field of the first note found). */
  function Normalize(s: string): (r: string)
    ensures |r| <= |s|
    ensures r == [] || (!IsSpace(r[0]) && !IsSpace(r[|r| - 1]))
    ensures forall i :: 0 <= i < |r| ==> !IsUpper(r[i])
    ensures exists a, b :: 0 <= a <= b <= |s| && r == Lower(s)[a..b]
              && AllSpace(Lower(s)[..a]) && AllSpace(Lower(s)[b..])
  {
    NoUpperAfterStrip(Lower(s));
    Strip(Lower(s))
  }

  lemma NoUpperAfterStrip(l: string)
    requires forall i :: 0 <= i < |l| ==> !IsUpper(l[i])
    ensures forall i :: 0 <= i < |Strip(l)| ==> !IsUpper(Strip(l)[i])
  {
    var a, b :| 0 <= a <= b <= |l| && Strip(l) == l[a..b];
    SliceHasNoUpper(l, a, b);
  }

  lemma SliceHasNoUpper(l: string, a: nat, b: nat)
    requires a <= b <= |l|
    requires forall i :: 0 <= i < |l| ==> !IsUpper(l[i])
    ensures forall i :: 0 <= i < b - a ==> !IsUpper(l[a..b][i])
  {
    forall i | 0 <= i < b - a ensures !IsUpper(l[a..b][i]) {
      assert l[a..b][i] == l[a + i];
    }
  }

  /** The duplicate rule: a Front field matches a word when both agree after
      lower-casing and stripping. */
  predicate FrontMatches(front: string, word: string)
    ensures Lower(front) == Lower(word) ==> FrontMatches(front, word)
    ensures Strip(front) == Strip(word) ==> FrontMatches(front, word)
  {
    StripLowerCommute(front);
    StripLowerCommute(word);
    Normalize(front) == Normalize(word)
  }

  lemma {:induction false} StripLeadingLower(s: string)
    ensures StripLeading(Lower(s)) == Lower(StripLeading(s))
    decreases |s|
  {
    if |s| > 0 {
      assert Lower(s)[0] == LowerChar(s[0]);
    }
    if |s| > 0 && IsSpace(s[0]) {
      assert Lower(s)[1..] == Lower(s[1..]) by {
        var tail := Lower(s)[1..];
        forall i | 0 <= i < |s| - 1 ensures tail[i] == Lower(s[1..])[i] {
          assert tail[i] == LowerChar(s[i + 1]);
        }
      }
      StripLeadingLower(s[1..]);
    }
  }

  lemma {:induction false} StripTrailingLower(s: string)
    ensures StripTrailing(Lower(s)) == Lower(StripTrailing(s))
    decreases |s|
  {
    if |s| > 0 {
      assert Lower(s)[|s| - 1] == LowerChar(s[|s| - 1]);
    }
    if |s| > 0 && IsSpace(s[|s| - 1]) {
      assert Lower(s)[..|s| - 1] == Lower(s[..|s| - 1]) by {
        var front := Lower(s)[..|s| - 1];
        forall i | 0 <= i < |s| - 1 ensures front[i] == Lower(s[..|s| - 1])[i] {
          assert front[i] == LowerChar(s[i]);
        }
      }
      StripTrailingLower(s[..|s| - 1]);
    }
  }

  /** Lower-casing and stripping commute, since lower-casing maps no
      whitespace character to a non-whitespace one or back. */
  lemma StripLowerCommute(s: string)
    ensures Strip(Lower(s)) == Lower(Strip(s))
  {
    StripLeadingLower(s);
    StripTrailingLower(StripLeading(s));
  }

  lemma StripIdempotent(s: string)
    ensures Strip(Strip(s)) == Strip(s)
  {
    var t := StripLeading(s);
    var r := StripTrailing(t);
    assert r != [] ==> r[0] == t[0];
    assert StripLeading(r) == r;
    assert StripTrailing(r) == r;
  }

  /** Normalizing twice gives the same key as normalizing once, so a word that
      was already normalized is its own comparison key. */
  lemma NormalizeIdempotent(s: string)
    ensures Normalize(Normalize(s)) == Normalize(s)
  {
    var l := Lower(s);
    StripLowerCommute(l);
    assert Lower(l) == l;
    StripIdempotent(l);
  }

  /** Case does not matter to the comparison key. */
  lemma NormalizeIgnoresCase(s: string)
    ensures Normalize(Lower(s)) == Normalize(s)
  {
    assert Lower(Lower(s)) == Lower(s);
  }

  lemma {:induction false} StripLeadingSkipsSpaces(pre: string, t: string)
    requires AllSpace(pre)
    ensures StripLeading(pre + t) == StripLeading(t)
    decreases |pre|
  {
    if pre == [] {
      assert pre + t == t;
    } else {
      assert IsSpace((pre + t)[0]);
      assert (pre + t)[1..] == pre[1..] + t;
      StripLeadingSkipsSpaces(pre[1..], t);
    }
  }

  lemma {:induction false} StripTrailingSkipsSpaces(t: string, post: string)
    requires AllSpace(post)
    ensures StripTrailing(t + post) == StripTrailing(t)
    decreases |post|
  {
    if post == [] {
      assert t + post == t;
    } else {
      var p := post[..|post| - 1];
      assert IsSpace((t + post)[|t + post| - 1]);
      assert (t + post)[..|t + post| - 1] == t + p;
      StripTrailingSkipsSpaces(t, p);
    }
  }

  lemma {:induction false} StripLeadingKeepsTail(t: string, post: string)
    ensures StripLeading(t) != [] ==> StripLeading(t + post) == StripLeading(t) + post
    ensures StripLeading(t) == [] ==> StripLeading(t + post) == StripLeading(post)
    decreases |t|
  {
    if t == [] {
      assert t + post == post;
    } else if IsSpace(t[0]) {
      assert (t + post)[1..] == t[1..] + post;
      StripLeadingKeepsTail(t[1..], post);
    }
  }

  /** `strip()` ignores whitespace added around a string. */
  lemma StripIgnoresPadding(pre: string, u: string, post: string)
    requires AllSpace(pre) && AllSpace(post)
    ensures Strip(pre + u + post) == Strip(u)
  {
    assert pre + u + post == pre + (u + post);
    StripLeadingSkipsSpaces(pre, u + post);
    StripLeadingKeepsTail(u, post);
    if StripLeading(u) != [] {
      StripTrailingSkipsSpaces(StripLeading(u), post);
    } else {
      assert post + [] == post;
      StripLeadingSkipsSpaces(post, []);
    }
  }

  /** The comparison key ignores surrounding whitespace. */
  lemma NormalizeIgnoresPadding(pre: string, s: string, post: string)
    requires AllSpace(pre) && AllSpace(post)
    ensures Normalize(pre + s + post) == Normalize(s)
  {
    assert Lower(pre + s + post) == Lower(pre) + Lower(s) + Lower(post);
    StripIgnoresPadding(Lower(pre), Lower(s), Lower(post));
  }
}

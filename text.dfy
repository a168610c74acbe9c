/**
 * The three Python string operations the reply cleanup is built from:
 * `s.replace(p, '')`, `s.strip()` and the substring test `p in s`.
 */
module Text {

  /** Python's `str.isspace` on one character: exactly the characters `strip()` removes. */
  predicate IsSpace(c: char) {
    || '\t' <= c <= '\r'
    || '\U{1C}' <= c <= '\U{1F}'
    || c == ' '
    || c == '\U{85}'
    || c == '\U{A0}'
    || c == '\U{1680}'
    || '\U{2000}' <= c <= '\U{200A}'
    || c == '\U{2028}'
    || c == '\U{2029}'
    || c == '\U{202F}'
    || c == '\U{205F}'
    || c == '\U{3000}'
  }

  predicate AllSpace(s: string) {
    forall i :: 0 <= i < |s| ==> IsSpace(s[i])
  }

  /** Neither end of `s` is whitespace. */
  predicate Trimmed(s: string) {
    s == [] || (!IsSpace(s[0]) && !IsSpace(s[|s| - 1]))
  }

  predicate StartsWith(s: string, p: string) {
    |p| <= |s| && s[..|p|] == p
  }

  /** Python's `p in s` on strings: `p` occurs at some position of `s`. The empty string occurs in every string. */
  predicate Contains(s: string, p: string)
    ensures p == [] ==> Contains(s, p)
    ensures StartsWith(s, p) ==> Contains(s, p)
    ensures Contains(s, p) ==> |p| <= |s|
  {
    assert s[0..] == s;
    exists i :: 0 <= i <= |s| - |p| && StartsWith(s[i..], p)
  }

  /**
   * Python's `s.replace(p, '')`: scanning left to right, every non-overlapping
   * occurrence of `p` is dropped and the scan resumes after it.
   */
  function RemoveAll(s: string, p: string): (r: string)
    requires p != []
    ensures |r| <= |s|
    decreases |s|
  {
    if |s| < |p| then s
    else if s[..|p|] == p then RemoveAll(s[|p|..], p)
    else [s[0]] + RemoveAll(s[1..], p)
  }

  /** Leading whitespace removed: `r` is the suffix of `s` left after its whitespace prefix. */
  function TrimStart(s: string): (r: string)
    ensures |r| <= |s| && r == s[|s| - |r|..]
    ensures AllSpace(s[..|s| - |r|])
    ensures r == [] || !IsSpace(r[0])
  {
    if s != [] && IsSpace(s[0]) then
      var r := TrimStart(s[1..]);
      assert s[..|s| - |r|] == [s[0]] + s[1..][..|s| - 1 - |r|];
      r
    else s
  }

  /** Trailing whitespace removed: `r` is the prefix of `s` left before its whitespace suffix. */
  function TrimEnd(s: string): (r: string)
    ensures |r| <= |s| && r == s[..|r|]
    ensures AllSpace(s[|r|..])
    ensures r == [] || !IsSpace(r[|r| - 1])
  {
    if s != [] && IsSpace(s[|s| - 1]) then
      var r := TrimEnd(s[..|s| - 1]);
      assert s[|r|..] == s[..|s| - 1][|r|..] + [s[|s| - 1]];
      r
    else s
  }

  /** Python's `s.strip()`: the slice of `s` between a whitespace prefix and a whitespace suffix, itself trimmed. */
  function Strip(s: string): (r: string)
    ensures Trimmed(r)
    ensures exists i :: 0 <= i <= |s| - |r| && r == s[i..][..|r|] && AllSpace(s[..i]) && AllSpace(s[i..][|r|..])
  {
    var t := TrimStart(s);
    var r := TrimEnd(t);
    var i := |s| - |t|;
    assert s[i..] == t && r == t[..|r|];
    assert AllSpace(s[..i]) && AllSpace(s[i..][|r|..]);
    r
  }

  /** Leading whitespace followed by a non-space start is exactly what `TrimStart` drops. */
  lemma {:induction false} TrimStartOfPadded(a: string, rest: string)
    requires AllSpace(a) && (rest == [] || !IsSpace(rest[0]))
    ensures TrimStart(a + rest) == rest
    decreases |a|
  {
    if a != [] {
      assert (a + rest)[0] == a[0] && (a + rest)[1..] == a[1..] + rest;
      TrimStartOfPadded(a[1..], rest);
    }
  }

  /** Trailing whitespace after a non-space end is exactly what `TrimEnd` drops. */
  lemma {:induction false} TrimEndOfPadded(m: string, b: string)
    requires AllSpace(b) && (m == [] || !IsSpace(m[|m| - 1]))
    ensures TrimEnd(m + b) == m
    decreases |b|
  {
    if b != [] {
      var s := m + b;
      assert s[|s| - 1] == b[|b| - 1] && s[..|s| - 1] == m + b[..|b| - 1];
      TrimEndOfPadded(m, b[..|b| - 1]);
    } else {
      assert m + b == m;
    }
  }

  /** `strip()` gives back the middle of any whitespace-padded trimmed string, so it is determined by its contract. */
  lemma StripOfPadded(a: string, m: string, b: string)
    requires AllSpace(a) && Trimmed(m) && AllSpace(b)
    ensures Strip(a + m + b) == m
  {
    if m == [] {
      assert a + m + b == (a + b) + [];
      TrimStartOfPadded(a + b, []);
    } else {
      assert a + m + b == a + (m + b);
      TrimStartOfPadded(a, m + b);
      TrimEndOfPadded(m, b);
    }
  }

  /** Stripping a string that is already trimmed changes nothing. */
  lemma StripTrimmed(s: string)
    requires Trimmed(s)
    ensures Strip(s) == s
  {
    StripOfPadded([], s, []);
    assert [] + s + [] == s;
  }

  /** `replace(p, '')` is the identity exactly when `p` does not occur. */
  lemma {:induction false} RemoveAllIdentity(s: string, p: string)
    requires p != []
    ensures RemoveAll(s, p) == s <==> !Contains(s, p)
    decreases |s|
  {
    if |s| < |p| {
    } else if s[..|p|] == p {
      assert StartsWith(s[0..], p);
    } else {
      RemoveAllIdentity(s[1..], p);
      if Contains(s[1..], p) {
        var i :| 0 <= i <= |s[1..]| - |p| && StartsWith(s[1..][i..], p);
        assert s[1..][i..] == s[i + 1..];
        RemoveAllShrinks(s[1..], p);
      } else {
        forall i | 1 <= i <= |s| - |p| ensures !StartsWith(s[i..], p) {
          assert s[1..][i - 1..] == s[i..];
        }
        assert !StartsWith(s[0..], p) by { assert s[0..] == s; }
      }
    }
  }

  /** Whenever `p` occurs, `replace(p, '')` makes the string strictly shorter. */
  lemma {:induction false} RemoveAllShrinks(s: string, p: string)
    requires p != [] && Contains(s, p)
    ensures |RemoveAll(s, p)| < |s|
    decreases |s|
  {
    var i :| 0 <= i <= |s| - |p| && StartsWith(s[i..], p);
    if s[..|p|] != p {
      assert i != 0 by { assert s[0..] == s; }
      assert s[1..][i - 1..] == s[i..];
      RemoveAllShrinks(s[1..], p);
    }
  }

  /** The Markdown code fence. */
  const Fence := "```"

  /** Number of backticks `s` starts with. */
  function LeadingTicks(s: string): nat {
    if s != [] && s[0] == '`' then 1 + LeadingTicks(s[1..]) else 0
  }

  lemma {:induction false} LeadingTicksBound(s: string)
    ensures LeadingTicks(s) <= |s|
  {
    if s != [] && s[0] == '`' { LeadingTicksBound(s[1..]); }
  }

  /** A string that begins with a fence begins with at least three backticks. */
  lemma FenceTicks(s: string)
    requires StartsWith(s, Fence)
    ensures LeadingTicks(s) >= 3
  {
    assert s[0] == s[1] == s[2] == '`' by { assert s[..3] == Fence; }
    var s1 := s[1..];
    var s2 := s1[1..];
    assert s2[0] == s[2];
    assert LeadingTicks(s2) >= 1;
    assert LeadingTicks(s1) == 1 + LeadingTicks(s2);
  }

  /** Removing fences turns a run of n leading backticks into n mod 3 of them. */
  lemma {:induction false} LeadingTicksAfterRemoval(s: string)
    ensures LeadingTicks(RemoveAll(s, Fence)) == LeadingTicks(s) % 3
    decreases |s|
  {
    if |s| < 3 {
      LeadingTicksBound(s);
      assert RemoveAll(s, Fence) == s;
    } else if s[..3] == Fence {
      LeadingTicksAfterRemoval(s[3..]);
      TicksAfterFence(s);
      assert RemoveAll(s, Fence) == RemoveAll(s[3..], Fence);
    } else {
      LeadingTicksAfterRemoval(s[1..]);
      TicksAfterOther(s);
    }
  }

  /** Past a position that does not start a fence, removal keeps the first character. */
  lemma TicksAfterOther(s: string)
    requires |s| >= 3 && s[..3] != Fence
    requires LeadingTicks(RemoveAll(s[1..], Fence)) == LeadingTicks(s[1..]) % 3
    ensures LeadingTicks(RemoveAll(s, Fence)) == LeadingTicks(s) % 3
  {
    var rest := RemoveAll(s[1..], Fence);
    assert |Fence| == 3 && s[..|Fence|] != Fence;
    assert RemoveAll(s, Fence) == [s[0]] + rest;
    assert s == [s[0]] + s[1..];
    ConsTicks(s[0], rest);
    ConsTicks(s[0], s[1..]);
    if s[0] == '`' {
      FewTicks(s);
      SmallMod(LeadingTicks(s[1..]));
    }
  }

  lemma ConsTicks(c: char, t: string)
    ensures LeadingTicks([c] + t) == if c == '`' then 1 + LeadingTicks(t) else 0
  {
    assert ([c] + t)[1..] == t;
  }

  lemma SmallMod(k: nat)
    requires k <= 1
    ensures (1 + k) % 3 == 1 + k % 3
  {
  }

  /** A string that begins with a fence has three more leading backticks than what follows the fence. */
  lemma TicksAfterFence(s: string)
    requires |s| >= 3 && s[..3] == Fence
    ensures LeadingTicks(s) == 3 + LeadingTicks(s[3..])
  {
    assert s[0] == s[1] == s[2] == '`' by { assert s[..3] == Fence; }
    var s1 := s[1..];
    var s2 := s1[1..];
    assert s2[1..] == s[3..] && s2[0] == s[2] && s1[0] == s[1];
    assert LeadingTicks(s2) == 1 + LeadingTicks(s[3..]);
    assert LeadingTicks(s1) == 1 + LeadingTicks(s2);
  }

  /** A string that begins with a backtick but not with a fence has one or two leading backticks. */
  lemma FewTicks(s: string)
    requires |s| >= 3 && s[..3] != Fence && s[0] == '`'
    ensures LeadingTicks(s[1..]) <= 1
  {
    var s1 := s[1..];
    assert s[..3] == [s[0], s[1], s[2]];
    assert s1[1..] == s[2..];
    assert s1[0] == s[1] && s1[1..][0] == s[2];
  }

  /** After `replace('```', '')` no fence is left: removal never joins backticks into a new fence. */
  lemma {:induction false} RemoveFenceLeavesNone(s: string)
    ensures !Contains(RemoveAll(s, Fence), Fence)
    decreases |s|
  {
    if |s| < 3 {
    } else if s[..3] == Fence {
      RemoveFenceLeavesNone(s[3..]);
    } else {
      var r, rest := RemoveAll(s, Fence), RemoveAll(s[1..], Fence);
      RemoveFenceLeavesNone(s[1..]);
      LeadingTicksAfterRemoval(s);
      forall i | 0 <= i <= |r| - 3 ensures !StartsWith(r[i..], Fence) {
        if i == 0 {
          assert r[0..] == r;
          if StartsWith(r, Fence) { FenceTicks(r); }
        } else {
          assert r[i..] == rest[i - 1..];
        }
      }
    }
  }

  /** A substring of a string without `p` has no `p` either. */
  lemma AbsentFromSlice(s: string, p: string, i: nat, n: nat)
    requires !Contains(s, p) && i + n <= |s|
    ensures !Contains(s[i..][..n], p)
  {
    var t := s[i..][..n];
    forall k | 0 <= k <= |t| - |p| ensures !StartsWith(t[k..], p) {
      assert !StartsWith(s[i + k..], p);
      assert forall j :: 0 <= j < |p| ==> t[k..][j] == s[i + k..][j];
      assert t[k..][..|p|] == s[i + k..][..|p|];
    }
  }

  /** A string without `p` has no longer pattern that starts with `p`. */
  lemma AbsentExtension(s: string, p: string, q: string)
    requires !Contains(s, p)
    ensures !Contains(s, p + q)
  {
    forall i | 0 <= i <= |s| - |p + q| ensures !StartsWith(s[i..], p + q) {
      assert !StartsWith(s[i..], p);
      assert s[i..][..|p + q|][..|p|] == s[i..][..|p|];
      assert (p + q)[..|p|] == p;
    }
  }

  /** Stripping never creates an occurrence of a pattern. */
  lemma StripKeepsAbsence(s: string, p: string)
    requires !Contains(s, p)
    ensures !Contains(Strip(s), p)
  {
    var r := Strip(s);
    var i :| 0 <= i <= |s| - |r| && r == s[i..][..|r|] && AllSpace(s[..i]) && AllSpace(s[i..][|r|..]);
    AbsentFromSlice(s, p, i, |r|);
  }

  /** A string without backticks holds no fence. */
  lemma NoTicksNoFence(s: string)
    requires forall j :: 0 <= j < |s| ==> s[j] != '`'
    ensures !Contains(s, Fence)
  {
    forall i | 0 <= i <= |s| - 3 ensures !StartsWith(s[i..], Fence) {
      assert s[i..][0] == s[i];
    }
  }
}

/** The part of Python's `str` that the analyzer relies on: `isspace()` on one
    character, `strip()`, `lstrip()`, `rstrip()`, and substring tests
    (`in`, `startswith`, `endswith`). Strings are sequences of code points. */
module PyStr {

  /** `c.isspace()`: the code points CPython treats as whitespace, which are
      exactly the ones `str.strip()` with no argument removes. */
  predicate IsSpace(c: char) {
    var n := c as int;
    (0x09 <= n <= 0x0D) || (0x1C <= n <= 0x20) || n == 0x85 || n == 0xA0
    || n == 0x1680 || (0x2000 <= n <= 0x200A) || n == 0x2028 || n == 0x2029
    || n == 0x202F || n == 0x205F || n == 0x3000
  }

  predicate AllSpace(s: string) {
    forall i :: 0 <= i < |s| ==> IsSpace(s[i])
  }

  /** Neither the first nor the last character is whitespace. */
  predicate IsStripped(s: string) {
    s == [] || (!IsSpace(s[0]) && !IsSpace(s[|s| - 1]))
  }

  predicate OccursAt(s: string, t: string, i: int) {
    0 <= i <= |s| - |t| && s[i..i + |t|] == t
  }

  /** Python's `t in s`. */
  predicate Contains(s: string, t: string) {
    exists i :: 0 <= i <= |s| - |t| && OccursAt(s, t, i)
  }

  predicate StartsWith(s: string, t: string) {
    |t| <= |s| && s[..|t|] == t
  }

  predicate EndsWith(s: string, t: string) {
    |t| <= |s| && s[|s| - |t|..] == t
  }

  /** `s.lstrip()`: the longest suffix of `s` that does not start with whitespace. */
  function LStrip(s: string): (r: string)
    ensures EndsWith(s, r)
    ensures AllSpace(s[..|s| - |r|])
    ensures r == [] || !IsSpace(r[0])
    decreases |s|
  {
    if |s| > 0 && IsSpace(s[0]) then
      var r := LStrip(s[1..]);
      assert s[1..][|s| - 1 - |r|..] == s[|s| - |r|..];
      assert forall i :: 1 <= i < |s| - |r| ==> s[i] == s[1..][..|s| - 1 - |r|][i - 1];
      r
    else
      s
  }

  /** `s.rstrip()`: the longest prefix of `s` that does not end with whitespace. */
  function RStrip(s: string): (r: string)
    ensures StartsWith(s, r)
    ensures AllSpace(s[|r|..])
    ensures r == [] || !IsSpace(r[|r| - 1])
    decreases |s|
  {
    if |s| > 0 && IsSpace(s[|s| - 1]) then
      var r := RStrip(s[..|s| - 1]);
      assert s[..|s| - 1][..|r|] == s[..|r|];
      assert forall i :: |r| <= i < |s| - 1 ==> s[i] == s[..|s| - 1][|r|..][i - |r|];
      r
    else
      s
  }

  /** `s.strip()`: whitespace removed from both ends. */
  function Strip(s: string): (r: string)
    ensures IsStripped(r)
    ensures |r| <= |s|
  {
    var l := LStrip(s);
    var r := RStrip(l);
    assert r != [] ==> r[0] == l[0];
    r
  }

  /** `s[i..j]` is what remains of `s` once whitespace is trimmed from both ends:
      everything before `i` and from `j` on is whitespace, and the middle part
      neither starts nor ends with whitespace. */
  predicate Trims(s: string, i: int, j: int) {
    0 <= i <= j <= |s| && AllSpace(s[..i]) && AllSpace(s[j..]) && IsStripped(s[i..j])
  }

  /** If `s` has only whitespace before index `i` and no whitespace at `i`,
      `lstrip()` cuts exactly there. */
  lemma {:induction false} LStripAt(s: string, i: nat)
    requires i <= |s| && AllSpace(s[..i])
    requires i == |s| || !IsSpace(s[i])
    ensures LStrip(s) == s[i..]
    decreases i
  {
    if i > 0 {
      assert s[..i][0] == s[0];
      assert s[1..][..i - 1] == s[1..i];
      assert forall k :: 0 <= k < i - 1 ==> s[1..i][k] == s[..i][k + 1];
      assert i < |s| ==> s[1..][i - 1] == s[i];
      LStripAt(s[1..], i - 1);
      assert s[1..][i - 1..] == s[i..];
    }
  }

  /** If `s` has only whitespace from index `j` on and no whitespace just
      before `j`, `rstrip()` cuts exactly there. */
  lemma {:induction false} RStripAt(s: string, j: nat)
    requires j <= |s| && AllSpace(s[j..])
    requires j == 0 || !IsSpace(s[j - 1])
    ensures RStrip(s) == s[..j]
    decreases |s| - j
  {
    if j < |s| {
      assert s[j..][|s| - 1 - j] == s[|s| - 1];
      var t := s[..|s| - 1];
      assert t[j..] == s[j..|s| - 1];
      assert forall k :: 0 <= k < |t| - j ==> t[j..][k] == s[j..][k];
      assert j > 0 ==> t[j - 1] == s[j - 1];
      RStripAt(t, j);
      assert t[..j] == s[..j];
    }
  }

  /** `strip()` is sound: its result is a trimming of its input. */
  lemma {:induction false} StripSound(s: string)
    ensures exists i, j :: Trims(s, i, j) && Strip(s) == s[i..j]
  {
    var l := LStrip(s);
    var r := RStrip(l);
    var i := |s| - |l|;
    var j := i + |r|;
    assert l == s[i..];
    assert r == s[i..j];
    assert s[j..] == l[|r|..];
    assert Trims(s, i, j);
  }

  lemma {:induction false} StripSolid(s: string, i: int, j: int)
    requires Trims(s, i, j) && i < j
    ensures Strip(s) == s[i..j]
  {
    assert s[i..j][0] == s[i];
    LStripAt(s, i);
    var t := s[i..];
    assert t[j - i..] == s[j..];
    assert t[j - i - 1] == s[i..j][j - i - 1];
    RStripAt(t, j - i);
    assert t[..j - i] == s[i..j];
  }

  /** A trimming with nothing left means the string is all whitespace. */
  lemma {:induction false} SpaceAround(s: string, i: int, j: int)
    requires 0 <= i == j <= |s| && AllSpace(s[..i]) && AllSpace(s[j..])
    ensures AllSpace(s)
  {
    forall k | 0 <= k < |s| ensures IsSpace(s[k]) {
      if k < i { assert s[..i][k] == s[k]; } else { assert s[j..][k - j] == s[k]; }
    }
  }

  /** `strip()` is complete: every trimming of `s` is the one `strip()` returns. */
  lemma {:induction false} StripUnique(s: string, i: int, j: int)
    requires Trims(s, i, j)
    ensures Strip(s) == s[i..j]
  {
    if i < j {
      StripSolid(s, i, j);
    } else {
      SpaceAround(s, i, j);
      LStripAt(s, |s|);
    }
  }

  /** `strip()` equals the declarative definition: `r` is `s.strip()` exactly
      when `r` is a trimming of `s`. */
  lemma {:induction false} StripCharacterization(s: string, r: string)
    ensures r == Strip(s) <==> exists i, j :: Trims(s, i, j) && r == s[i..j]
  {
    StripSound(s);
    if exists i, j :: Trims(s, i, j) && r == s[i..j] {
      var i, j :| Trims(s, i, j) && r == s[i..j];
      StripUnique(s, i, j);
    }
  }

  /** A string without leading or trailing whitespace is left as it is. */
  lemma {:induction false} StripFixpoint(s: string)
    requires IsStripped(s)
    ensures Strip(s) == s
  {
    assert s[..0] == [] && s[|s|..] == [] && s[0..|s|] == s;
    StripUnique(s, 0, |s|);
  }

  /** `strip()` is idempotent. */
  lemma {:induction false} StripIdempotent(s: string)
    ensures Strip(Strip(s)) == Strip(s)
  {
    StripFixpoint(Strip(s));
  }

  /** The result of `strip()` is a contiguous substring of its input. */
  lemma {:induction false} StripContained(s: string)
    ensures Contains(s, Strip(s))
  {
    StripSound(s);
    var i, j :| Trims(s, i, j) && Strip(s) == s[i..j];
    assert OccursAt(s, Strip(s), i);
  }

  /** A string that starts with a non-whitespace character is only stripped
      on the right. */
  lemma {:induction false} StripAfterSolidLead(p: string, m: string)
    requires |p| > 0 && !IsSpace(p[0])
    ensures Strip(p + m) == RStrip(p + m)
  {
    assert (p + m)[0] == p[0];
  }

  /** Stripping the right end of `p + m` only touches `m` when `m` has a
      non-whitespace character. */
  lemma {:induction false} RStripSolidTail(p: string, m: string)
    requires !AllSpace(m)
    ensures RStrip(p + m) == p + RStrip(m)
  {
    var k := |RStrip(m)|;
    assert k > 0;
    assert (p + m)[|p| + k..] == m[k..];
    assert (p + m)[|p| + k - 1] == RStrip(m)[k - 1];
    RStripAt(p + m, |p| + k);
    assert (p + m)[..|p| + k] == p + m[..k];
  }

  /** Whitespace-only `m` vanishes, and `rstrip()` then reaches into `p`. */
  lemma {:induction false} RStripSpaceTail(p: string, m: string)
    requires AllSpace(m)
    ensures RStrip(p + m) == RStrip(p)
  {
    var k := |RStrip(p)|;
    assert (p + m)[k..] == p[k..] + m;
    assert k > 0 ==> (p + m)[k - 1] == RStrip(p)[k - 1];
    RStripAt(p + m, k);
    assert (p + m)[..k] == p[..k];
  }

  /** Stripping a title, a blank and a message: the title stays whole, the
      message loses its trailing whitespace, and the blank survives only if
      the message has a non-whitespace character. */
  lemma {:induction false} StripLabelled(title: string, message: string)
    requires |title| > 0 && !IsSpace(title[0]) && !IsSpace(title[|title| - 1])
    ensures StartsWith(Strip(title + " " + message), title)
    ensures EndsWith(Strip(title + " " + message), RStrip(message))
    ensures !AllSpace(message) ==> Strip(title + " " + message) == title + " " + RStrip(message)
    ensures AllSpace(message) ==> Strip(title + " " + message) == title
  {
    var p := title + " ";
    var r := Strip(p + message);
    assert p[0] == title[0];
    StripAfterSolidLead(p, message);
    if AllSpace(message) {
      RStripSpaceTail(p, message);
      RStripAt(p, |title|);
      assert p[..|title|] == title;
      RStripAt(message, 0);
    } else {
      RStripSolidTail(p, message);
      assert r == title + (" " + RStrip(message));
    }
  }

  /** `b` sits in `a + b + c` right after `a`. */
  lemma {:induction false} OccursBetween(a: string, b: string, c: string)
    ensures OccursAt(a + b + c, b, |a|)
  {
    assert (a + b + c)[|a|..|a| + |b|] == b;
  }

  lemma {:induction false} ConcatEnds(a: string, b: string)
    ensures StartsWith(a + b, a) && EndsWith(a + b, b)
  {
    assert (a + b)[..|a|] == a;
    assert (a + b)[|a|..] == b;
  }

  /** A part of an occurrence is an occurrence. */
  lemma {:induction false} OccursInside(s: string, a: string, b: string, c: string, i: int)
    requires OccursAt(s, a + b + c, i)
    ensures OccursAt(s, b, i + |a|)
  {
    var w := s[i..i + |a + b + c|];
    assert w == a + b + c;
    var v := s[i + |a|..i + |a| + |b|];
    assert forall k :: 0 <= k < |b| ==> v[k] == w[|a| + k];
    assert s[i + |a|..i + |a| + |b|] == w[|a|..|a| + |b|];
    assert (a + b + c)[|a|..|a| + |b|] == b;
  }

  /** Two strings that differ at index `k` cannot both start `s`. */
  lemma {:induction false} StartsWithDiffer(s: string, t: string, u: string, k: nat)
    requires StartsWith(s, u) && k < |t| && k < |u| && t[k] != u[k]
    ensures !StartsWith(s, t)
  {
    assert s[k] == s[..|u|][k];
  }

  lemma {:induction false} Regroup(a: string, b: string, c: string, d: string, e: string)
    ensures a + b + c + d + e == a + (b + c + d) + e
  {
  }
}

/**
 * String helpers used by the executor: substring search and Python's
 * `str.strip()` with no arguments.
 */
module Text {
  import opened Options

  /** The whitespace that `str.strip()` removes, restricted to the ASCII set
      space, tab, line feed, carriage return, vertical tab and form feed. */
  predicate IsSpace(c: char) {
    c == ' ' || c == '\t' || c == '\n' || c == '\r' || c == '\U{000B}' || c == '\U{000C}'
  }

  predicate AllSpace(s: string) {
    forall i :: 0 <= i < |s| ==> IsSpace(s[i])
  }

  /** Neither the first nor the last character of `s` is whitespace. */
  predicate NoEdgeSpace(s: string) {
    s == [] || (!IsSpace(s[0]) && !IsSpace(s[|s| - 1]))
  }

  /** `pat` occurs in `s` starting at index `i`. */
  predicate StartsAt(pat: string, s: string, i: nat) {
    i + |pat| <= |s| && s[i..i + |pat|] == pat
  }

  /** The first index at or after `from` where `pat` occurs in `s`. */
  function FindFrom(pat: string, s: string, from: nat): (r: Option<nat>)
    ensures r.Some? ==> from <= r.value && StartsAt(pat, s, r.value)
    ensures r.Some? ==> forall k: nat :: from <= k < r.value ==> !StartsAt(pat, s, k)
    ensures r.None? ==> forall k: nat :: from <= k ==> !StartsAt(pat, s, k)
    decreases |s| - from
  {
    if from + |pat| > |s| then None
    else if s[from..from + |pat|] == pat then Some(from)
    else FindFrom(pat, s, from + 1)
  }

  /** The first index at or after `i` that does not hold whitespace, or
      `|s|`. */
  function SkipSpace(s: string, i: nat): (r: nat)
    requires i <= |s|
    ensures i <= r <= |s|
    ensures forall k :: i <= k < r ==> IsSpace(s[k])
    ensures r < |s| ==> !IsSpace(s[r])
    decreases |s| - i
  {
    if i < |s| && IsSpace(s[i]) then SkipSpace(s, i + 1) else i
  }

  /** The end of `s[lo..j]` once its trailing whitespace is dropped. */
  function SkipSpaceBack(s: string, lo: nat, j: nat): (r: nat)
    requires lo <= j <= |s|
    ensures lo <= r <= j
    ensures forall k :: r <= k < j ==> IsSpace(s[k])
    ensures r > lo ==> !IsSpace(s[r - 1])
  {
    if j > lo && IsSpace(s[j - 1]) then SkipSpaceBack(s, lo, j - 1) else j
  }

  /** Where the stripped part of `s` starts: everything before it is
      whitespace. */
  function StripStart(s: string): (a: nat)
    ensures a <= |s| && forall k :: 0 <= k < a ==> IsSpace(s[k])
    ensures a < |s| ==> !IsSpace(s[a])
  {
    SkipSpace(s, 0)
  }

  /** Where the stripped part of `s` ends: everything from there on is
      whitespace. */
  function StripEnd(s: string): (b: nat)
    ensures StripStart(s) <= b <= |s| && forall k :: b <= k < |s| ==> IsSpace(s[k])
    ensures b > StripStart(s) ==> !IsSpace(s[b - 1])
  {
    SkipSpaceBack(s, StripStart(s), |s|)
  }

  /** Python's `str.strip()`: `s` without its leading and trailing
      whitespace. */
  function Strip(s: string): (r: string)
    ensures |r| <= |s| && NoEdgeSpace(r)
  {
    s[StripStart(s)..StripEnd(s)]
  }

  /** `Strip(s)` is the unique slice `s[a..b]` with only whitespace outside
      it and none at its edges. */
  lemma {:induction false} StripCharacterised(s: string, a: nat, b: nat)
    requires a <= b <= |s|
    requires forall k :: 0 <= k < a ==> IsSpace(s[k])
    requires forall k :: b <= k < |s| ==> IsSpace(s[k])
    requires NoEdgeSpace(s[a..b])
    ensures Strip(s) == s[a..b]
  {
    var a', b' := StripStart(s), StripEnd(s);
    if a < b {
      assert s[a..b][0] == s[a] && s[a..b][b - a - 1] == s[b - 1];
      assert a' == a;
      assert b' == b;
    } else {
      assert a' == |s|;
    }
  }

  /** Whitespace on both sides of a string with no whitespace at its edges
      is exactly what `Strip` removes. */
  lemma {:induction false} StripUnique(w1: string, r: string, w2: string)
    requires AllSpace(w1) && AllSpace(w2) && NoEdgeSpace(r)
    ensures Strip(w1 + r + w2) == r
  {
    var s := w1 + r + w2;
    assert s[|w1|..|w1| + |r|] == r;
    StripCharacterised(s, |w1|, |w1| + |r|);
  }

  /** A string with no whitespace at its edges is left as it is. */
  lemma {:induction false} StripLeavesUnchanged(c: string)
    requires NoEdgeSpace(c)
    ensures Strip(c) == c
  {
    assert c[0..|c|] == c;
    StripCharacterised(c, 0, |c|);
  }

  /** Stripping twice is stripping once. */
  lemma {:induction false} StripIdempotent(s: string)
    ensures Strip(Strip(s)) == Strip(s)
  {
    StripLeavesUnchanged(Strip(s));
  }

  /** Whitespace added around a string does not change its stripped form. */
  lemma {:induction false} StripIgnoresSurroundingSpace(w1: string, c: string, w2: string)
    requires AllSpace(w1) && AllSpace(w2)
    ensures Strip(w1 + c + w2) == Strip(c)
  {
    var s := w1 + c + w2;
    var a, b := StripStart(c), StripEnd(c);
    var n := |w1|;
    forall k | 0 <= k < n + a ensures IsSpace(s[k]) {
      if k >= n { assert s[k] == c[k - n]; }
    }
    forall k | n + b <= k < |s| ensures IsSpace(s[k]) {
      if k < n + |c| { assert s[k] == c[k - n]; }
    }
    assert s[n + a..n + b] == c[a..b];
    StripCharacterised(s, n + a, n + b);
  }

  /** Where `m` is the slice of `s` from `off`, whether `pat` starts at
      offset `k` of `m` decides whether it starts at `off + k` of `s`, when
      `pat` fits inside `m` from `k`. */
  lemma {:induction false} StartsAtWithin(pat: string, s: string, off: nat, m: string, k: nat)
    requires off + |m| <= |s| && s[off..off + |m|] == m && k + |pat| <= |m|
    ensures StartsAt(pat, s, off + k) <==> StartsAt(pat, m, k)
  {
    var u, v := s[off + k..off + k + |pat|], m[k..k + |pat|];
    forall t | 0 <= t < |pat| ensures u[t] == v[t] {
      assert s[off..off + |m|][k + t] == m[k + t];
    }
    assert u == v;
  }

  /** A copy of `tag` that starts inside `x` and runs into the `tag`
      appended to `x` puts the first character of `tag` at offset `|x| - k`
      of itself. */
  lemma {:induction false} StraddleEcho(tag: string, x: string, k: nat)
    requires k < |x| < k + |tag| && StartsAt(tag, x + tag, k)
    ensures tag[|x| - k] == tag[0]
  {
    var s := x + tag;
    assert s[k..k + |tag|][|x| - k] == tag[|x| - k];
  }

  /** A tag whose first character does not reappear in it occurs in
      `x + tag` at an index inside `x` only if it occurs in `x` there. */
  lemma {:induction false} NoStraddle(tag: string, x: string, k: nat)
    requires |tag| > 0 && forall d :: 0 < d < |tag| ==> tag[d] != tag[0]
    requires k < |x|
    ensures StartsAt(tag, x + tag, k) ==> StartsAt(tag, x, k)
  {
    if StartsAt(tag, x + tag, k) {
      if k + |tag| > |x| {
        StraddleEcho(tag, x, k);
        assert false;
      }
      assert (x + tag)[k..k + |tag|] == x[k..k + |tag|];
    }
  }

  /** A string that lacks the first character of `tag` has no occurrence
      of `tag`. */
  lemma {:induction false} AbsentFirstChar(tag: string, x: string)
    requires |tag| > 0 && tag[0] !in x
    ensures forall k: nat :: !StartsAt(tag, x, k)
  {
    forall k: nat ensures !StartsAt(tag, x, k) {
      if k + |tag| <= |x| {
        assert x[k..k + |tag|][0] == x[k] && x[k] in x;
      }
    }
  }
}

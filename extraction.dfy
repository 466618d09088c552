/**
 * The tag extraction that `run_pipeline` performs twice:
 * `re.search(open + "(.*?)" + close, text, re.DOTALL)` followed by
 * `.group(1).strip()`, for a literal `open` and `close`.
 */
module Extraction {
  import opened Options
  import opened Text

  /** The regular expression matches `text` from index `i`: `open` starts at
      `i`, and `close` starts at some `j` no earlier than the end of `open`.
      The `(.*?)` group under `re.DOTALL` accepts any characters in between,
      line breaks included. */
  ghost predicate IsMatch(open: string, close: string, text: string, i: nat, j: nat) {
    StartsAt(open, text, i) && i + |open| <= j && StartsAt(close, text, j)
  }

  /** The match `re.search` reports: the leftmost start, and, because `*?` is
      lazy, the shortest group at that start. */
  ghost predicate IsSearchResult(open: string, close: string, text: string, i: nat, j: nat) {
    && IsMatch(open, close, text, i, j)
    && (forall i': nat, j': nat :: IsMatch(open, close, text, i', j') ==> i <= i')
    && (forall j': nat :: IsMatch(open, close, text, i, j') ==> j <= j')
  }

  /** The span `(i, j)` of the match: `open` at `i`, `close` at `j`. It is
      found as the first `open`, then the first `close` after it; this is
      exactly the match `re.search` reports, and there is none exactly when
      the pattern matches nowhere. */
  function Search(open: string, close: string, text: string): (r: Option<(nat, nat)>)
    ensures r.None? <==> forall i: nat, j: nat :: !IsMatch(open, close, text, i, j)
    ensures forall i: nat, j: nat :: r == Some((i, j)) <==> IsSearchResult(open, close, text, i, j)
  {
    match FindFrom(open, text, 0)
    case None => None
    case Some(i) =>
      match FindFrom(close, text, i + |open|)
      case None => None
      case Some(j) =>
        assert IsSearchResult(open, close, text, i, j);
        Some((i, j))
  }

  /** `match.group(1)`: the text between the two tags, unstripped. */
  function Capture(open: string, close: string, text: string): (r: Option<string>)
    ensures r.None? <==> forall i: nat, j: nat :: !IsMatch(open, close, text, i, j)
    ensures forall i: nat, j: nat :: IsSearchResult(open, close, text, i, j) ==> r == Some(text[i + |open|..j])
  {
    match Search(open, close, text)
    case None => None
    case Some((i, j)) => Some(text[i + |open|..j])
  }

  /** `match.group(1).strip()` if the pattern matches, `None` if it does not. */
  function Extract(open: string, close: string, text: string): (r: Option<string>)
    ensures r.None? <==> forall i: nat, j: nat :: !IsMatch(open, close, text, i, j)
    ensures forall i: nat, j: nat :: IsSearchResult(open, close, text, i, j) ==>
      r == Some(Strip(text[i + |open|..j]))
  {
    match Capture(open, close, text)
    case None => None
    case Some(c) => Some(Strip(c))
  }

  /** The captured group never contains `close`: it ends at the first
      `close` after `open`. */
  lemma {:induction false} CaptureExcludesClose(open: string, close: string, text: string, k: nat)
    requires |close| > 0 && Capture(open, close, text).Some?
    ensures !StartsAt(close, Capture(open, close, text).value, k)
  {
    var (i, j) := Search(open, close, text).value;
    var c := text[i + |open|..j];
    if k + |close| <= |c| {
      StartsAtWithin(close, text, i + |open|, c, k);
      assert !IsMatch(open, close, text, i, i + |open| + k);
    }
  }

  /** The extracted block never contains `close` either: stripping only
      shortens the captured group. */
  lemma {:induction false} ExtractExcludesClose(open: string, close: string, text: string, k: nat)
    requires |close| > 0 && Extract(open, close, text).Some?
    ensures !StartsAt(close, Extract(open, close, text).value, k)
  {
    var c := Capture(open, close, text).value;
    var r := Strip(c);
    var a, b := StripStart(c), StripEnd(c);
    if k + |close| <= |r| {
      StartsAtWithin(close, c, a, r, k);
      CaptureExcludesClose(open, close, text, a + k);
    }
  }

  /** The extracted block has no whitespace at either end, so stripping it
      again changes nothing. */
  lemma ExtractIsStripped(open: string, close: string, text: string)
    requires Extract(open, close, text).Some?
    ensures NoEdgeSpace(Extract(open, close, text).value)
    ensures Strip(Extract(open, close, text).value) == Extract(open, close, text).value
  {
    StripIdempotent(Capture(open, close, text).value);
  }

  /** In `pre + open + c + close + post`, `pre + open` is the prefix and
      `c + close` comes right after it. */
  lemma {:induction false} FramedSlices(t: string, pre: string, open: string, c: string, close: string, post: string)
    requires t == pre + open + c + close + post
    ensures |pre| + |open| + |c| + |close| <= |t|
    ensures t[0..|pre| + |open|] == pre + open
    ensures t[|pre| + |open|..|pre| + |open| + |c| + |close|] == c + close
    ensures t[|pre| + |open|..|pre| + |open| + |c|] == c
  {
    var p := |pre| + |open|;
    var u, v, w := t[0..p], t[p..p + |c| + |close|], t[p..p + |c|];
    forall x | 0 <= x < p ensures u[x] == (pre + open)[x] { }
    forall x | 0 <= x < |c| + |close| ensures v[x] == (c + close)[x] { }
    forall x | 0 <= x < |c| ensures w[x] == c[x] { }
    assert u == pre + open;
    assert v == c + close;
    assert w == c;
  }

  /** Text framed by the two tags yields the stripped frame contents,
      whatever surrounds it, provided `open` does not start before the frame
      and `close` does not start inside it. */
  lemma {:induction false} ExtractFramed(open: string, close: string, t: string, pre: string, c: string, post: string)
    requires t == pre + open + c + close + post
    requires forall k: nat :: k < |pre| ==> !StartsAt(open, pre + open, k)
    requires forall k: nat :: k < |c| ==> !StartsAt(close, c + close, k)
    ensures Extract(open, close, t) == Some(Strip(c))
  {
    FramedSlices(t, pre, open, c, close, post);
    ExtractBetween(open, close, t, pre, c);
  }

  /** The same, stated on the slices of `t` that hold `pre + open` and
      `c + close`. */
  lemma {:induction false} ExtractBetween(open: string, close: string, t: string, pre: string, c: string)
    requires |pre| + |open| + |c| + |close| <= |t|
    requires t[0..|pre| + |open|] == pre + open
    requires t[|pre| + |open|..|pre| + |open| + |c| + |close|] == c + close
    requires t[|pre| + |open|..|pre| + |open| + |c|] == c
    requires forall k: nat :: k < |pre| ==> !StartsAt(open, pre + open, k)
    requires forall k: nat :: k < |c| ==> !StartsAt(close, c + close, k)
    ensures Extract(open, close, t) == Some(Strip(c))
  {
    var i, j := |pre|, |pre| + |open| + |c|;
    EndsWith(pre, open);
    EndsWith(c, close);
    FirstAt(open, t, 0, pre + open, i);
    FirstAt(close, t, i + |open|, c + close, |c|);
    SearchResultOf(open, close, t, i, j);
    ExtractOfSearchResult(open, close, t, i, j);
  }

  /** `pat` occurs at the end of `x + pat`. */
  lemma {:induction false} EndsWith(x: string, pat: string)
    ensures StartsAt(pat, x + pat, |x|)
  {
    assert (x + pat)[|x|..|x| + |pat|] == pat;
  }

  /** The leftmost `open`, then the first `close` after it, is the search result. */
  lemma {:induction false} SearchResultOf(open: string, close: string, t: string, i: nat, j: nat)
    requires StartsAt(open, t, i) && forall p: nat :: 0 <= p < i ==> !StartsAt(open, t, p)
    requires i + |open| <= j && StartsAt(close, t, j)
    requires forall p: nat :: i + |open| <= p < j ==> !StartsAt(close, t, p)
    ensures IsSearchResult(open, close, t, i, j)
  {
  }

  /** Extract strips whatever lies between the search result's tags. */
  lemma {:induction false} ExtractOfSearchResult(open: string, close: string, t: string, i: nat, j: nat)
    requires IsSearchResult(open, close, t, i, j)
    ensures Extract(open, close, t) == Some(Strip(t[i + |open|..j]))
  {
  }

  /** Where `m` is the slice of `t` from `off` and `pat` first occurs in
      `m` at `k`, it first occurs in `t` from `off` on at `off + k`. */
  lemma {:induction false} FirstAt(pat: string, t: string, off: nat, m: string, k: nat)
    requires off + |m| <= |t| && t[off..off + |m|] == m && k + |pat| <= |m|
    requires StartsAt(pat, m, k) && forall x: nat :: x < k ==> !StartsAt(pat, m, x)
    ensures StartsAt(pat, t, off + k)
    ensures forall p: nat :: off <= p < off + k ==> !StartsAt(pat, t, p)
  {
    StartsAtWithin(pat, t, off, m, k);
    forall p: nat | off <= p < off + k ensures !StartsAt(pat, t, p) {
      StartsAtWithin(pat, t, off, m, p - off);
    }
  }
}

/** The one piece of JavaScript string semantics the handlers rely on:
    `s.split(sep)[1]`, the text between the first occurrence of `sep` and the next
    one (or the end), which is `undefined` when `sep` does not occur at all, and
    the way a template literal renders that `undefined`. */
module Strings {
  import opened Common

  /** `sep` occurs in `s` starting at index `k`. */
  predicate OccursAt(s: string, sep: string, k: nat) {
    k + |sep| <= |s| && s[k..k + |sep|] == sep
  }

  /** The first index `k >= from` at which `sep` occurs in `s`, if any. */
  function FindFrom(s: string, sep: string, from: nat): (r: Option<nat>)
    requires from <= |s|
    decreases |s| - from
    ensures r.Some? ==> from <= r.value && OccursAt(s, sep, r.value)
    ensures r.Some? ==> forall k :: from <= k < r.value ==> !OccursAt(s, sep, k)
    ensures r.None? ==> forall k :: from <= k <= |s| ==> !OccursAt(s, sep, k)
  {
    if OccursAt(s, sep, from) then Some(from)
    else if from == |s| then None
    else FindFrom(s, sep, from + 1)
  }

  /** An occurrence in a suffix of `s` is an occurrence in `s`, shifted by where the
      suffix starts. */
  lemma OccursInSuffix(s: string, sep: string, i: nat, k: nat)
    requires i <= |s|
    ensures OccursAt(s[i..], sep, k) <==> OccursAt(s, sep, i + k)
  {
    if i + k + |sep| <= |s| {
      assert s[i..][k..k + |sep|] == s[i + k..i + k + |sep|];
    }
  }

  /** When no `sep` occurs in `s[i..]`, none occurs in `s` from `i` on. */
  lemma NoneInSuffix(s: string, sep: string, i: nat)
    requires i <= |s|
    requires forall k :: 0 <= k <= |s| - i ==> !OccursAt(s[i..], sep, k)
    ensures forall k :: i <= k <= |s| ==> !OccursAt(s, sep, k)
  {
    forall k | i <= k <= |s|
      ensures !OccursAt(s, sep, k)
    {
      OccursInSuffix(s, sep, i, k - i);
    }
  }

  /** The text before the first `sep` in `rest` holds no `sep`. */
  lemma NoneBeforeFirst(rest: string, sep: string, j: nat)
    requires |sep| > 0 && FindFrom(rest, sep, 0) == Some(j)
    ensures forall k :: 0 <= k <= j ==> !OccursAt(rest[..j], sep, k)
  {
    forall k | 0 <= k <= j
      ensures !OccursAt(rest[..j], sep, k)
    {
      if OccursAt(rest[..j], sep, k) {
        assert rest[..j][k..k + |sep|] == rest[k..k + |sep|];
        assert OccursAt(rest, sep, k);
      }
    }
  }

  /** When the first `sep` in `s[i..]` is at `j`, the text `s[i..i + j]` runs up to an
      occurrence in `s`, and none occurs in `s` between `i` and `i + j`. */
  lemma PieceBeforeNext(s: string, sep: string, i: nat, j: nat)
    requires i <= |s|
    requires FindFrom(s[i..], sep, 0) == Some(j)
    ensures i + j <= |s| && s[i..][..j] == s[i..i + j]
    ensures OccursAt(s, sep, i + j)
    ensures forall k :: i <= k < i + j ==> !OccursAt(s, sep, k)
  {
    OccursInSuffix(s, sep, i, j);
    forall k | i <= k < i + j
      ensures !OccursAt(s, sep, k)
    {
      OccursInSuffix(s, sep, i, k - i);
    }
  }

  /** `s.split(sep)[1]` for a non-empty separator; None stands for `undefined`.
      The piece starts right after the first occurrence of `sep` and runs up to the
      next occurrence, or to the end of `s` when there is none. */
  function SplitSecond(s: string, sep: string): (r: Option<string>)
    requires |sep| > 0
    ensures r.None? <==> forall k :: 0 <= k <= |s| ==> !OccursAt(s, sep, k)
    ensures r.Some? ==> forall k :: 0 <= k <= |r.value| ==> !OccursAt(r.value, sep, k)
    ensures r.Some? ==>
      FindFrom(s, sep, 0).Some? &&
      var i := FindFrom(s, sep, 0).value + |sep|;
      i + |r.value| <= |s| && r.value == s[i..i + |r.value|] &&
      (i + |r.value| == |s| || OccursAt(s, sep, i + |r.value|)) &&
      (forall k :: i <= k < i + |r.value| ==> !OccursAt(s, sep, k))
  {
    match FindFrom(s, sep, 0)
    case None => None
    case Some(first) =>
      var i := first + |sep|;
      match FindFrom(s[i..], sep, 0)
      case None =>
        NoneInSuffix(s, sep, i);
        Some(s[i..])
      case Some(j) =>
        NoneBeforeFirst(s[i..], sep, j);
        PieceBeforeNext(s, sep, i, j);
        Some(s[i..][..j])
  }

  /** When `s` is `sep` followed by text too short to hold another `sep`, the second
      piece of the split is exactly that text. */
  lemma SplitSecondAfterPrefix(sep: string, rest: string)
    requires |sep| > 0 && |rest| < |sep|
    ensures SplitSecond(sep + rest, sep) == Some(rest)
  {
  }

  /** How a template literal renders an interpolated value that may be `undefined`. */
  function Render(v: Option<string>): (text: string)
    ensures v.Some? ==> text == v.value
    ensures v.None? ==> text == "undefined"
  {
    match v
    case Some(x) => x
    case None => "undefined"
  }
}

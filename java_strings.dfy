/**
 * The part of java.lang.String the command relies on: `String.replace(CharSequence,
 * CharSequence)`, which replaces every non-overlapping occurrence of a target,
 * scanning from left to right, and `String.indexOf(String, int)`, which drives
 * that scan. Both are written over a fixed string and a moving index, as the
 * JDK implements them.
 */
module JavaStrings {
  import opened Wrappers

  /**
   * The comparison loop of `s.startsWith(t, k)`: the characters of `t` from
   * index `j` on equal those of `s` from index `k + j` on.
   */
  predicate SameFrom(s: string, t: string, k: nat, j: nat)
    requires k + |t| <= |s| && j <= |t|
    decreases |t| - j
  {
    j == |t| || (s[k + j] == t[j] && SameFrom(s, t, k, j + 1))
  }

  /** `s.startsWith(t, k)`: `t` occurs in `s` at index `k`. */
  predicate MatchesAt(s: string, t: string, k: nat) {
    k + |t| <= |s| && SameFrom(s, t, k, 0)
  }

  lemma {:induction false} SameFromSlice(s: string, t: string, k: nat, j: nat)
    requires k + |t| <= |s| && j <= |t|
    ensures SameFrom(s, t, k, j) <==> s[k + j..k + |t|] == t[j..]
    decreases |t| - j
  {
    if j < |t| {
      SameFromSlice(s, t, k, j + 1);
      assert s[k + j..k + |t|] == [s[k + j]] + s[k + j + 1..k + |t|];
      assert t[j..] == [t[j]] + t[j + 1..];
    }
  }

  /** The comparison loop decides whether the slice of `s` at `k` is `t`. */
  lemma MatchesAtSlice(s: string, t: string, k: nat)
    ensures MatchesAt(s, t, k) <==> k + |t| <= |s| && s[k..k + |t|] == t
  {
    if k + |t| <= |s| {
      SameFromSlice(s, t, k, 0);
    }
  }

  /** `s.contains(t)`. */
  predicate Occurs(s: string, t: string) {
    exists k :: 0 <= k <= |s| && MatchesAt(s, t, k)
  }

  /** `s.indexOf(t, from)`: the leftmost index at or after `from` where `t` occurs; None stands for -1. */
  function IndexOfFrom(s: string, t: string, from: nat): (r: Option<nat>)
    requires from <= |s|
    ensures r.Some? ==> from <= r.value <= |s| && MatchesAt(s, t, r.value)
    ensures r.Some? ==> forall k :: from <= k < r.value ==> !MatchesAt(s, t, k)
    ensures r.None? ==> forall k :: from <= k <= |s| ==> !MatchesAt(s, t, k)
    decreases |s| - from
  {
    if MatchesAt(s, t, from) then Some(from)
    else if from == |s| then None
    else IndexOfFrom(s, t, from + 1)
  }

  /** `s.indexOf(t)`. */
  function IndexOf(s: string, t: string): (r: Option<nat>)
    ensures r.Some? ==> MatchesAt(s, t, r.value) && forall k :: 0 <= k < r.value ==> !MatchesAt(s, t, k)
    ensures r.None? <==> !Occurs(s, t)
  {
    IndexOfFrom(s, t, 0)
  }

  /**
   * What `s.replace(target, replacement)` produces for the part of `s` from
   * index `k` on. An empty target matches before every character and at the
   * end, so the replacement is inserted once more than there are characters.
   */
  function ReplaceFrom(s: string, target: string, replacement: string, k: nat): string
    requires k <= |s|
    decreases |s| - k
  {
    if target == [] then
      if k == |s| then replacement
      else replacement + [s[k]] + ReplaceFrom(s, target, replacement, k + 1)
    else if k == |s| then []
    else if MatchesAt(s, target, k) then replacement + ReplaceFrom(s, target, replacement, k + |target|)
    else [s[k]] + ReplaceFrom(s, target, replacement, k + 1)
  }

  /** `s.replace(target, replacement)`. */
  function ReplaceAll(s: string, target: string, replacement: string): (r: string)
    ensures target != [] && |replacement| <= |target| ==> |r| <= |s|
    ensures target != [] && |replacement| >= |target| ==> |r| >= |s|
    ensures target == [] ==> |r| >= |s| + |replacement|
  {
    ReplaceFromLength(s, target, replacement, 0);
    ReplaceFrom(s, target, replacement, 0)
  }

  /**
   * The length of the rewritten suffix: a replacement no longer than the
   * target never lengthens it, one no shorter never shortens it, and an
   * empty target inserts the replacement at least once.
   */
  lemma {:induction false} ReplaceFromLength(s: string, target: string, replacement: string, k: nat)
    requires k <= |s|
    ensures var r := ReplaceFrom(s, target, replacement, k);
      (target != [] && |replacement| <= |target| ==> |r| <= |s| - k)
      && (target != [] && |replacement| >= |target| ==> |r| >= |s| - k)
      && (target == [] ==> |r| >= |s| - k + |replacement|)
    decreases |s| - k
  {
    if k < |s| {
      if target == [] {
        ReplaceFromLength(s, target, replacement, k + 1);
      } else if MatchesAt(s, target, k) {
        ReplaceFromLength(s, target, replacement, k + |target|);
      } else {
        ReplaceFromLength(s, target, replacement, k + 1);
      }
    }
  }

  // One step of the scan each: the end, an empty target, an occurrence and
  // a character copied over.

  lemma ReplaceFromAtEnd(s: string, t: string, r: string, k: nat)
    requires k == |s|
    ensures ReplaceFrom(s, t, r, k) == if t == [] then r else []
  {
  }

  lemma ReplaceFromEmptyTarget(s: string, r: string, k: nat, next: nat)
    requires k < |s| && next == k + 1
    ensures ReplaceFrom(s, [], r, k) == r + [s[k]] + ReplaceFrom(s, [], r, next)
  {
  }

  lemma ReplaceFromAtMatch(s: string, t: string, r: string, k: nat, next: nat)
    requires t != [] && k < |s| && MatchesAt(s, t, k) && next == k + |t|
    ensures next <= |s|
    ensures ReplaceFrom(s, t, r, k) == r + ReplaceFrom(s, t, r, next)
  {
  }

  lemma ReplaceFromAtCopy(s: string, t: string, r: string, k: nat, next: nat)
    requires t != [] && k < |s| && !MatchesAt(s, t, k) && next == k + 1
    ensures ReplaceFrom(s, t, r, k) == [s[k]] + ReplaceFrom(s, t, r, next)
  {
  }

  /** A string in which the target does not occur is returned unchanged. */
  lemma ReplaceAllWithoutOccurrence(s: string, target: string, replacement: string)
    requires target != [] && !Occurs(s, target)
    ensures ReplaceAll(s, target, replacement) == s
  {
    ReplaceFromWithoutOccurrence(s, target, replacement, 0);
  }

  lemma {:induction false} ReplaceFromWithoutOccurrence(s: string, target: string, replacement: string, k: nat)
    requires target != [] && k <= |s| && IndexOfFrom(s, target, k).None?
    ensures ReplaceFrom(s, target, replacement, k) == s[k..]
    decreases |s| - k
  {
    if k == |s| {
      ReplaceFromAtEnd(s, target, replacement, k);
    } else {
      ReplaceFromWithoutOccurrence(s, target, replacement, k + 1);
      ReplaceFromAtCopy(s, target, replacement, k, k + 1);
      ScannedPiece(s, k, k + 1, ReplaceFrom(s, target, replacement, k), [s[k]], ReplaceFrom(s, target, replacement, k + 1));
    }
  }

  /**
   * The indexOf-driven loop of the JDK: everything before the leftmost
   * occurrence is copied, the occurrence becomes the replacement, and the
   * scan resumes right after it.
   */
  lemma ReplaceAllAtFirstOccurrence(s: string, target: string, replacement: string, i: nat)
    requires target != [] && IndexOf(s, target) == Some(i)
    ensures i + |target| <= |s|
    ensures ReplaceAll(s, target, replacement)
         == s[..i] + replacement + ReplaceFrom(s, target, replacement, i + |target|)
  {
    ReplaceFromUpTo(s, target, replacement, 0, i);
    assert s[0..i] == s[..i];
  }

  lemma {:induction false} ReplaceFromUpTo(s: string, target: string, replacement: string, k: nat, i: nat)
    requires target != [] && k <= |s| && IndexOfFrom(s, target, k) == Some(i)
    ensures k <= i && i + |target| <= |s|
    ensures ReplaceFrom(s, target, replacement, k)
         == s[k..i] + replacement + ReplaceFrom(s, target, replacement, i + |target|)
    decreases i - k
  {
    assert k <= i && MatchesAt(s, target, i);
    if k < i {
      assert !MatchesAt(s, target, k) && IndexOfFrom(s, target, k + 1) == Some(i);
      ReplaceFromUpTo(s, target, replacement, k + 1, i);
      ReplaceFromAtCopy(s, target, replacement, k, k + 1);
      CopiedBeforeOccurrence(s, k, i, ReplaceFrom(s, target, replacement, k), ReplaceFrom(s, target, replacement, k + 1),
                             replacement, ReplaceFrom(s, target, replacement, i + |target|));
    } else {
      ReplaceFromAtMatch(s, target, replacement, i, i + |target|);
      assert s[k..i] + replacement == replacement;
    }
  }

  /** The copy step of `ReplaceFromUpTo`: one more character copied before the occurrence. */
  lemma CopiedBeforeOccurrence(s: string, k: nat, i: nat, whole: string, rest: string, replacement: string, tail: string)
    requires k < i <= |s|
    requires whole == [s[k]] + rest && rest == s[k + 1..i] + replacement + tail
    ensures whole == s[k..i] + replacement + tail
  {
    assert s[k..i] == [s[k]] + s[k + 1..i];
  }

  /** Replacing a target by itself changes nothing (the "/" pattern rewrite on a "/" platform). */
  lemma ReplaceAllBySelf(s: string, target: string)
    ensures ReplaceAll(s, target, target) == s
  {
    ReplaceFromBySelf(s, target, 0);
  }

  lemma {:induction false} ReplaceFromBySelf(s: string, target: string, k: nat)
    requires k <= |s|
    ensures ReplaceFrom(s, target, target, k) == s[k..]
    decreases |s| - k
  {
    if k == |s| {
      ReplaceFromAtEnd(s, target, target, k);
    } else {
      var next := BySelfScanStep(s, target, k);
      ReplaceFromBySelf(s, target, next);
    }
  }

  /** One step of the scan with the target as its own replacement: what is emitted is what was scanned. */
  lemma BySelfScanStep(s: string, target: string, k: nat) returns (next: nat)
    requires k < |s|
    ensures k < next <= |s|
    ensures ReplaceFrom(s, target, target, next) == s[next..] ==> ReplaceFrom(s, target, target, k) == s[k..]
  {
    if target == [] {
      next := k + 1;
      BySelfEmptyStep(s, k, next);
    } else if MatchesAt(s, target, k) {
      next := k + |target|;
      BySelfMatchStep(s, target, k, next);
    } else {
      next := k + 1;
      BySelfCopyStep(s, target, k, next);
    }
  }

  lemma BySelfEmptyStep(s: string, k: nat, next: nat)
    requires k < |s| && next == k + 1
    ensures ReplaceFrom(s, [], [], next) == s[next..] ==> ReplaceFrom(s, [], [], k) == s[k..]
  {
    ReplaceFromEmptyTarget(s, [], k, next);
    assert [] + [s[k]] == s[k..next];
    ScannedPiece(s, k, next, ReplaceFrom(s, [], [], k), s[k..next], ReplaceFrom(s, [], [], next));
  }

  lemma BySelfMatchStep(s: string, target: string, k: nat, next: nat)
    requires target != [] && k < |s| && MatchesAt(s, target, k) && next == k + |target|
    ensures next <= |s|
    ensures ReplaceFrom(s, target, target, next) == s[next..] ==> ReplaceFrom(s, target, target, k) == s[k..]
  {
    ReplaceFromAtMatch(s, target, target, k, next);
    MatchesAtSlice(s, target, k);
    ScannedPiece(s, k, next, ReplaceFrom(s, target, target, k), target, ReplaceFrom(s, target, target, next));
  }

  lemma BySelfCopyStep(s: string, target: string, k: nat, next: nat)
    requires target != [] && k < |s| && !MatchesAt(s, target, k) && next == k + 1
    ensures ReplaceFrom(s, target, target, next) == s[next..] ==> ReplaceFrom(s, target, target, k) == s[k..]
  {
    ReplaceFromAtCopy(s, target, target, k, next);
    assert [s[k]] == s[k..next];
    ScannedPiece(s, k, next, ReplaceFrom(s, target, target, k), [s[k]], ReplaceFrom(s, target, target, next));
  }

  /** Emitting the scanned piece `s[k..next]` before the rest of `s` gives back `s[k..]`. */
  lemma ScannedPiece(s: string, k: nat, next: nat, whole: string, piece: string, rest: string)
    requires k <= next <= |s| && piece == s[k..next] && whole == piece + rest
    ensures rest == s[next..] ==> whole == s[k..]
  {
    assert s[k..] == s[k..next] + s[next..];
  }

  /**
   * Replacing a one-character target by a one-character replacement maps
   * every character on its own: the length is kept and exactly the
   * occurrences of `c` become `d`.
   */
  lemma ReplaceAllChar(s: string, c: char, d: char)
    ensures |ReplaceAll(s, [c], [d])| == |s|
    ensures forall i :: 0 <= i < |s| ==> ReplaceAll(s, [c], [d])[i] == if s[i] == c then d else s[i]
  {
    ReplaceFromChar(s, c, d, 0);
  }

  lemma {:induction false} ReplaceFromChar(s: string, c: char, d: char, k: nat)
    requires k <= |s|
    ensures |ReplaceFrom(s, [c], [d], k)| == |s| - k
    ensures forall i :: k <= i < |s| ==> ReplaceFrom(s, [c], [d], k)[i - k] == if s[i] == c then d else s[i]
    decreases |s| - k
  {
    if k < |s| {
      ReplaceFromChar(s, c, d, k + 1);
      var rest := ReplaceFrom(s, [c], [d], k + 1);
      assert SameFrom(s, [c], k, 1);
      assert MatchesAt(s, [c], k) <==> s[k] == c;
      var r := ReplaceFrom(s, [c], [d], k);
      assert r == [if s[k] == c then d else s[k]] + rest;
      forall i | k < i < |s|
        ensures r[i - k] == if s[i] == c then d else s[i]
      {
        assert r[i - k] == rest[i - (k + 1)];
      }
    }
  }

  /** `u` sits in `s` at index `o`, character by character. */
  predicate Embedded(s: string, u: string, o: nat) {
    o + |u| <= |s| && forall i :: 0 <= i < |u| ==> s[o + i] == u[i]
  }

  /**
   * The scan over a tail of `s` does not depend on what comes before it:
   * `startsWith` only looks forward. `q` sits in `s` at index `o`, and the
   * scan of `s` at index `i` and that of `q` at index `k = i - o` agree.
   */
  lemma {:induction false} ReplaceFromShift(s: string, q: string, o: nat, t: string, r: string, i: nat, k: nat)
    requires |s| == o + |q| && Embedded(s, q, o) && i == o + k && k <= |q|
    ensures ReplaceFrom(s, t, r, i) == ReplaceFrom(q, t, r, k)
    decreases |q| - k
  {
    if k == |q| {
      ReplaceFromAtEnd(s, t, r, i);
      ReplaceFromAtEnd(q, t, r, k);
    } else {
      MatchesAtShift(s, q, o, t, i, k);
      var ni, nk := ShiftScanStep(s, q, t, r, i, k);
      ReplaceFromShift(s, q, o, t, r, ni, nk);
    }
  }

  /** One step of the scan at index `i` of `s` and index `k` of `q`: both move on by the same amount. */
  lemma ShiftScanStep(s: string, q: string, t: string, r: string, i: nat, k: nat) returns (ni: nat, nk: nat)
    requires |s| - i == |q| - k && k < |q| && s[i] == q[k]
    requires MatchesAt(s, t, i) <==> MatchesAt(q, t, k)
    ensures k < nk <= |q| && ni - i == nk - k
    ensures ReplaceFrom(s, t, r, ni) == ReplaceFrom(q, t, r, nk) ==>
              ReplaceFrom(s, t, r, i) == ReplaceFrom(q, t, r, k)
  {
    if t == [] {
      ni, nk := i + 1, k + 1;
      ShiftEmptyTarget(s, q, r, i, k, ni, nk);
    } else if MatchesAt(q, t, k) {
      ni, nk := i + |t|, k + |t|;
      ShiftAtMatch(s, q, t, r, i, k, ni, nk);
    } else {
      ni, nk := i + 1, k + 1;
      ShiftAtCopy(s, q, t, r, i, k, ni, nk);
    }
  }

  lemma ShiftEmptyTarget(s: string, q: string, r: string, i: nat, k: nat, ni: nat, nk: nat)
    requires i < |s| && k < |q| && s[i] == q[k] && ni == i + 1 && nk == k + 1
    ensures ReplaceFrom(s, [], r, ni) == ReplaceFrom(q, [], r, nk) ==>
              ReplaceFrom(s, [], r, i) == ReplaceFrom(q, [], r, k)
  {
    ReplaceFromEmptyTarget(s, r, i, ni);
    ReplaceFromEmptyTarget(q, r, k, nk);
  }

  lemma ShiftAtMatch(s: string, q: string, t: string, r: string, i: nat, k: nat, ni: nat, nk: nat)
    requires i < |s| && k < |q| && t != [] && ni == i + |t| && nk == k + |t|
    requires MatchesAt(s, t, i) && MatchesAt(q, t, k)
    ensures ni <= |s| && nk <= |q|
    ensures ReplaceFrom(s, t, r, ni) == ReplaceFrom(q, t, r, nk) ==>
              ReplaceFrom(s, t, r, i) == ReplaceFrom(q, t, r, k)
  {
    ReplaceFromAtMatch(s, t, r, i, ni);
    ReplaceFromAtMatch(q, t, r, k, nk);
  }

  lemma ShiftAtCopy(s: string, q: string, t: string, r: string, i: nat, k: nat, ni: nat, nk: nat)
    requires i < |s| && k < |q| && s[i] == q[k] && t != [] && ni == i + 1 && nk == k + 1
    requires !MatchesAt(s, t, i) && !MatchesAt(q, t, k)
    ensures ReplaceFrom(s, t, r, ni) == ReplaceFrom(q, t, r, nk) ==>
              ReplaceFrom(s, t, r, i) == ReplaceFrom(q, t, r, k)
  {
    ReplaceFromAtCopy(s, t, r, i, ni);
    ReplaceFromAtCopy(q, t, r, k, nk);
  }

  lemma MatchesAtShift(s: string, q: string, o: nat, t: string, i: nat, k: nat)
    requires |s| == o + |q| && Embedded(s, q, o) && i == o + k && k < |q|
    ensures s[i] == q[k]
    ensures MatchesAt(s, t, i) <==> MatchesAt(q, t, k)
  {
    MatchesAtSlice(s, t, i);
    MatchesAtSlice(q, t, k);
    if k + |t| <= |q| {
      var x, y := s[i..i + |t|], q[k..k + |t|];
      forall j | 0 <= j < |x| ensures x[j] == y[j] {
        assert x[j] == s[o + (k + j)];
      }
    }
  }

  /** A string missing some character of the target holds no occurrence and is returned unchanged. */
  lemma ReplaceAllWithoutChar(s: string, t: string, r: string, c: char)
    requires c in t && c !in s
    ensures ReplaceAll(s, t, r) == s
  {
    var j :| 0 <= j < |t| && t[j] == c;
    forall k | 0 <= k <= |s|
      ensures !MatchesAt(s, t, k)
    {
      if k + |t| <= |s| {
        MatchesAtSlice(s, t, k);
        assert s[k..k + |t|][j] == s[k + j] != c;
      }
    }
    ReplaceAllWithoutOccurrence(s, t, r);
  }

  /**
   * When the first part ends in a character the target does not contain, no
   * occurrence straddles the cut, and the two parts are rewritten separately.
   */
  lemma ReplaceAllConcat(p: string, q: string, t: string, r: string)
    requires t != [] && (p == [] || p[|p| - 1] !in t)
    ensures ReplaceAll(p + q, t, r) == ReplaceAll(p, t, r) + ReplaceAll(q, t, r)
  {
    var s := p + q;
    assert forall i :: 0 <= i < |q| ==> s[|p| + i] == q[i];
    ReplaceFromConcat(s, p, q, t, r, 0);
  }

  lemma ReplaceFromConcat(s: string, p: string, q: string, t: string, r: string, k: nat)
    requires |s| == |p| + |q| && Embedded(s, p, 0) && Embedded(s, q, |p|)
    requires t != [] && (p == [] || p[|p| - 1] !in t) && k <= |p|
    ensures ReplaceFrom(s, t, r, k) == ReplaceFrom(p, t, r, k) + ReplaceAll(q, t, r)
  {
    ReplaceFromPrefix(s, p, t, r, k);
    ReplaceFromShift(s, q, |p|, t, r, |p|, 0);
  }

  /**
   * The scan of a string whose prefix `p` ends in a character the target
   * does not contain: the scan of `p` alone, then the scan of the rest.
   */
  lemma {:induction false} ReplaceFromPrefix(s: string, p: string, t: string, r: string, k: nat)
    requires |p| <= |s| && Embedded(s, p, 0)
    requires t != [] && (p == [] || p[|p| - 1] !in t) && k <= |p|
    ensures ReplaceFrom(s, t, r, k) == ReplaceFrom(p, t, r, k) + ReplaceFrom(s, t, r, |p|)
    decreases |p| - k
  {
    if k == |p| {
      ReplaceFromAtEnd(p, t, r, k);
      assert [] + ReplaceFrom(s, t, r, |p|) == ReplaceFrom(s, t, r, |p|);
    } else {
      var next := PrefixScanStep(s, p, t, r, k);
      ReplaceFromPrefix(s, p, t, r, next);
    }
  }

  /** One step of the scan at index `k` inside the prefix: both scans move on to the same index. */
  lemma PrefixScanStep(s: string, p: string, t: string, r: string, k: nat) returns (next: nat)
    requires |p| <= |s| && Embedded(s, p, 0)
    requires k < |p| && t != [] && p[|p| - 1] !in t
    ensures k < next <= |p|
    ensures ReplaceFrom(s, t, r, next) == ReplaceFrom(p, t, r, next) + ReplaceFrom(s, t, r, |p|) ==>
              ReplaceFrom(s, t, r, k) == ReplaceFrom(p, t, r, k) + ReplaceFrom(s, t, r, |p|)
  {
    MatchesAtPrefix(s, p, t, k);
    var h;
    if MatchesAt(p, t, k) {
      next, h := k + |t|, r;
      ReplaceFromAtMatch(p, t, r, k, next);
      ReplaceFromAtMatch(s, t, r, k, next);
    } else {
      next, h := k + 1, [p[k]];
      ReplaceFromAtCopy(s, t, r, k, next);
      ReplaceFromAtCopy(p, t, r, k, next);
    }
    AppendAssoc(h, ReplaceFrom(p, t, r, next), ReplaceFrom(s, t, r, |p|));
  }

  /** Inside the prefix, an occurrence in the whole is one in the prefix: none straddles the cut. */
  lemma MatchesAtPrefix(s: string, p: string, t: string, k: nat)
    requires |p| <= |s| && Embedded(s, p, 0)
    requires k < |p| && t != [] && p[|p| - 1] !in t
    ensures s[k] == p[k]
    ensures MatchesAt(s, t, k) <==> MatchesAt(p, t, k)
  {
    MatchesAtSlice(s, t, k);
    MatchesAtSlice(p, t, k);
    assert s[0 + k] == p[k];
    if k + |t| <= |p| {
      var x, y := s[k..k + |t|], p[k..k + |t|];
      forall i | 0 <= i < |x| ensures x[i] == y[i] {
        assert x[i] == s[0 + (k + i)];
      }
    } else if k + |t| <= |s| {
      assert s[0 + (|p| - 1)] == p[|p| - 1];
      assert s[k..k + |t|][|p| - 1 - k] == s[|p| - 1];
    }
  }

  lemma AppendAssoc(a: string, b: string, c: string)
    ensures a + (b + c) == (a + b) + c
  {
  }

  /** Four pieces cut after characters the target does not contain are rewritten separately. */
  lemma ReplaceAllPieces(a: string, b: string, c: string, d: string, t: string, r: string)
    requires t != [] && a != [] && b != [] && c != []
    requires a[|a| - 1] !in t && b[|b| - 1] !in t && c[|c| - 1] !in t
    ensures ReplaceAll(a + b + c + d, t, r)
         == ReplaceAll(a, t, r) + ReplaceAll(b, t, r) + ReplaceAll(c, t, r) + ReplaceAll(d, t, r)
  {
    ReplaceAllConcat(c, d, t, r);
    ReplaceAllConcat(b, c + d, t, r);
    ReplaceAllConcat(a, b + (c + d), t, r);
    assert a + b + c + d == a + (b + (c + d));
  }
}

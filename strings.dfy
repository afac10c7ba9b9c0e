/**
 * The handful of Python `str` operations the parser relies on, as functions on
 * `seq<char>`: substring test (`sub in s`), `s.split(sep)` and
 * `s.replace(c, '')`, plus the subsequence relation used to state what the
 * entry extractor keeps.
 */
module Strings {
  import opened Wrappers

  /** `sub` occurs in `s` starting at index `i`. */
  predicate OccursAt(s: string, sub: string, i: nat)
  {
    i + |sub| <= |s| && s[i..i + |sub|] == sub
  }

  /** Python's `sub in s` for two strings. */
  predicate Contains(s: string, sub: string)
  {
    exists i: nat :: i <= |s| && OccursAt(s, sub, i)
  }

  lemma OccursShift(s: string, sub: string, j: nat)
    requires |s| > 0
    ensures OccursAt(s, sub, j + 1) <==> OccursAt(s[1..], sub, j)
  {
    if j + 1 + |sub| <= |s| {
      assert s[j + 1..j + 1 + |sub|] == s[1..][j..j + |sub|];
    }
  }

  /** The index of the first occurrence of `sub` in `s`, as `s.find(sub)` without the -1. */
  function IndexOf(s: string, sub: string): (r: Option<nat>)
    ensures r.Some? ==> OccursAt(s, sub, r.value)
    ensures r.Some? ==> forall j: nat :: j < r.value ==> !OccursAt(s, sub, j)
    ensures r.None? <==> !Contains(s, sub)
    decreases |s|
  {
    if |s| < |sub| then None
    else if s[..|sub|] == sub then Some(0)
    else
      match IndexOf(s[1..], sub)
      case None =>
        assert forall j: nat :: j <= |s| ==> !OccursAt(s, sub, j) by {
          forall j: nat | j <= |s| ensures !OccursAt(s, sub, j) {
            if j > 0 { OccursShift(s, sub, j - 1); }
          }
        }
        None
      case Some(i) =>
        assert forall j: nat :: j < i + 1 ==> !OccursAt(s, sub, j) by {
          forall j: nat | j < i + 1 ensures !OccursAt(s, sub, j) {
            if j > 0 { OccursShift(s, sub, j - 1); }
          }
        }
        OccursShift(s, sub, i);
        Some(i + 1)
  }

  /** The inverse of `Split`: the pieces glued back together with `sep` between them. */
  function Join(pieces: seq<string>, sep: string): string
  {
    if |pieces| == 0 then ""
    else if |pieces| == 1 then pieces[0]
    else pieces[0] + sep + Join(pieces[1..], sep)
  }

  /**
   * Python's `s.split(sep)` for a non-empty separator: the pieces between the
   * occurrences of `sep`, scanning from the left. Gluing the pieces back
   * together gives `s` again, and no piece holds the separator.
   */
  function Split(s: string, sep: string): (r: seq<string>)
    requires |sep| > 0
    ensures |r| >= 1
    ensures Join(r, sep) == s
    ensures forall k :: 0 <= k < |r| ==> !Contains(r[k], sep)
    decreases |s|
  {
    match IndexOf(s, sep)
    case None => [s]
    case Some(i) =>
      var head, tail := s[..i], s[i + |sep|..];
      assert s == head + sep + tail;
      assert !Contains(head, sep) by {
        forall j: nat | j <= |head| ensures !OccursAt(head, sep, j) {
          if OccursAt(head, sep, j) {
            assert head[j..j + |sep|] == s[j..j + |sep|];
            assert OccursAt(s, sep, j);
          }
        }
      }
      [head] + Split(tail, sep)
  }

  /** Python's `s.replace(c, '')` for a one-character `c`. */
  function Remove(s: string, c: char): (r: string)
    ensures c !in r
    ensures forall x :: x in r <==> x in s && x != c
    ensures c !in s ==> r == s
    ensures |r| <= |s|
  {
    if s == [] then []
    else if s[0] == c then Remove(s[1..], c)
    else [s[0]] + Remove(s[1..], c)
  }

  /** `Remove` deletes exactly the occurrences of `c` and keeps the other characters in order. */
  lemma {:induction false} RemoveKeepsOrder(s: string, c: char)
    ensures IsSubsequence(Remove(s, c), s)
    ensures |Remove(s, c)| + multiset(s)[c] == |s|
  {
    if s != [] {
      RemoveKeepsOrder(s[1..], c);
      assert s == [s[0]] + s[1..];
      var rest := Remove(s[1..], c);
      if s[0] != c {
        assert ([s[0]] + rest)[1..] == rest;
      }
    }
  }

  /** `xs` can be obtained from `ys` by deleting elements. */
  predicate IsSubsequence<T(==)>(xs: seq<T>, ys: seq<T>)
    decreases |ys|
  {
    if xs == [] then true
    else if ys == [] then false
    else if xs[0] == ys[0] then IsSubsequence(xs[1..], ys[1..])
    else IsSubsequence(xs, ys[1..])
  }

  lemma {:induction false} SubsequenceSingleton<T>(ys: seq<T>, y: T)
    ensures IsSubsequence([y], ys + [y])
    decreases |ys|
  {
    if ys != [] {
      assert (ys + [y])[1..] == ys[1..] + [y];
      if ys[0] != y {
        SubsequenceSingleton(ys[1..], y);
      }
    }
  }

  lemma {:induction false} SubsequenceAppend<T>(xs: seq<T>, ys: seq<T>, y: T)
    requires IsSubsequence(xs, ys)
    ensures IsSubsequence(xs + [y], ys + [y])
    decreases |ys|
  {
    if xs == [] {
      assert xs + [y] == [y];
      SubsequenceSingleton(ys, y);
    } else {
      assert (ys + [y])[1..] == ys[1..] + [y];
      assert (xs + [y])[0] == xs[0] && (xs + [y])[1..] == xs[1..] + [y];
      if xs[0] == ys[0] {
        SubsequenceAppend(xs[1..], ys[1..], y);
      } else {
        SubsequenceAppend(xs, ys[1..], y);
      }
    }
  }

  lemma {:induction false} SubsequencePrefix<T>(xs: seq<T>, zs: seq<T>, ys: seq<T>)
    requires IsSubsequence(xs + zs, ys)
    ensures IsSubsequence(xs, ys)
    decreases |ys|
  {
    if xs != [] && ys != [] {
      assert (xs + zs)[0] == xs[0] && (xs + zs)[1..] == xs[1..] + zs;
      if xs[0] == ys[0] {
        SubsequencePrefix(xs[1..], zs, ys[1..]);
      } else {
        SubsequencePrefix(xs, zs, ys[1..]);
      }
    }
  }
}

/**
 * The three Python string operations the generator and the validator rely on,
 * with their Python semantics for a non-empty separator or pattern:
 *   `sep.join(parts)`, `s.split(sep)` and `s.replace(pat, rep)`,
 * and `s.count(pat)`, which ties the lengths of the other three together.
 * All scans are left to right and never overlap, as in CPython.
 */
module Strings {

  /** `sep.join(parts)`: the parts with `sep` between neighbours, none at the end. */
  function Join(parts: seq<string>, sep: string): string
  {
    if |parts| == 0 then ""
    else if |parts| == 1 then parts[0]
    else parts[0] + sep + Join(parts[1..], sep)
  }

  /** `s.split(sep)`: the pieces between the non-overlapping occurrences of `sep`. */
  function Split(s: string, sep: string): (parts: seq<string>)
    requires sep != []
    ensures |parts| >= 1
    decreases |s|
  {
    if |s| < |sep| then [s]
    else if s[..|sep|] == sep then [""] + Split(s[|sep|..], sep)
    else
      var rest := Split(s[1..], sep);
      [[s[0]] + rest[0]] + rest[1..]
  }

  /** `s.replace(pat, rep)`: every non-overlapping occurrence of `pat`, found left to right, becomes `rep`. */
  function ReplaceAll(s: string, pat: string, rep: string): string
    requires pat != []
    decreases |s|
  {
    if |s| < |pat| then s
    else if s[..|pat|] == pat then rep + ReplaceAll(s[|pat|..], pat, rep)
    else [s[0]] + ReplaceAll(s[1..], pat, rep)
  }

  /** `s.count(pat)`: the number of occurrences `ReplaceAll` and `Split` act on. */
  function Count(s: string, pat: string): nat
    requires pat != []
    decreases |s|
  {
    if |s| < |pat| then 0
    else if s[..|pat|] == pat then 1 + Count(s[|pat|..], pat)
    else Count(s[1..], pat)
  }

  predicate OccursAt(s: string, pat: string, i: nat)
  {
    i + |pat| <= |s| && s[i..i + |pat|] == pat
  }

  /** `pat in s`. */
  predicate Occurs(s: string, pat: string)
  {
    exists i: nat | i <= |s| :: OccursAt(s, pat, i)
  }

  /** A string with no occurrence of the pattern comes back from `replace` unchanged. */
  lemma {:induction false} ReplaceAllWithoutOccurrence(s: string, pat: string, rep: string)
    requires pat != []
    requires !Occurs(s, pat)
    ensures ReplaceAll(s, pat, rep) == s
    decreases |s|
  {
    if |s| >= |pat| {
      assert !OccursAt(s, pat, 0);
      assert s[..|pat|] == s[0..0 + |pat|];
      forall i: nat | OccursAt(s[1..], pat, i)
        ensures OccursAt(s, pat, i + 1)
      {
        assert s[1..][i..i + |pat|] == s[i + 1..i + 1 + |pat|];
      }
      ReplaceAllWithoutOccurrence(s[1..], pat, rep);
    }
  }

  /** Without an occurrence there is nothing to split on: one piece, the whole string. */
  lemma {:induction false} SplitWithoutOccurrence(s: string, sep: string)
    requires sep != []
    requires !Occurs(s, sep)
    ensures Split(s, sep) == [s]
    decreases |s|
  {
    if |s| >= |sep| {
      assert !OccursAt(s, sep, 0);
      assert s[..|sep|] == s[0..0 + |sep|];
      forall i: nat | OccursAt(s[1..], sep, i)
        ensures OccursAt(s, sep, i + 1)
      {
        assert s[1..][i..i + |sep|] == s[i + 1..i + 1 + |sep|];
      }
      SplitWithoutOccurrence(s[1..], sep);
      assert [s[0]] + s[1..] == s;
    }
  }

  /** Putting one more character in front of the first piece puts it in front of the joined string. */
  lemma JoinConsFirst(c: char, parts: seq<string>, sep: string)
    requires |parts| >= 1
    ensures Join([[c] + parts[0]] + parts[1..], sep) == [c] + Join(parts, sep)
  {
    var ps := [[c] + parts[0]] + parts[1..];
    assert ps[1..] == parts[1..];
  }

  /** Python's identity `s.replace(p, r) == r.join(s.split(p))`. */
  lemma {:induction false} ReplaceAllIsJoinOfSplit(s: string, pat: string, rep: string)
    requires pat != []
    ensures ReplaceAll(s, pat, rep) == Join(Split(s, pat), rep)
    decreases |s|
  {
    if |s| < |pat| {
    } else if s[..|pat|] == pat {
      ReplaceAllIsJoinOfSplit(s[|pat|..], pat, rep);
      var rest := Split(s[|pat|..], pat);
      assert ([""] + rest)[1..] == rest;
    } else {
      ReplaceAllIsJoinOfSplit(s[1..], pat, rep);
      JoinConsFirst(s[0], Split(s[1..], pat), rep);
    }
  }

  /** Replacing a pattern by itself changes nothing. */
  lemma {:induction false} ReplaceAllBySelf(s: string, pat: string)
    requires pat != []
    ensures ReplaceAll(s, pat, pat) == s
    decreases |s|
  {
    if |s| < |pat| {
    } else if s[..|pat|] == pat {
      ReplaceAllBySelf(s[|pat|..], pat);
      assert s[..|pat|] + s[|pat|..] == s;
    } else {
      ReplaceAllBySelf(s[1..], pat);
      assert [s[0]] + s[1..] == s;
    }
  }

  /** `sep.join(s.split(sep)) == s`. */
  lemma JoinSplitRoundTrip(s: string, sep: string)
    requires sep != []
    ensures Join(Split(s, sep), sep) == s
  {
    ReplaceAllIsJoinOfSplit(s, sep, sep);
    ReplaceAllBySelf(s, sep);
  }

  /** `len(s.split(p)) == s.count(p) + 1`. */
  lemma {:induction false} SplitLength(s: string, sep: string)
    requires sep != []
    ensures |Split(s, sep)| == Count(s, sep) + 1
    decreases |s|
  {
    if |s| < |sep| {
    } else if s[..|sep|] == sep {
      SplitLength(s[|sep|..], sep);
    } else {
      SplitLength(s[1..], sep);
    }
  }

  /** Every occurrence grows or shrinks the string by the difference of the two lengths. */
  lemma OneMoreTimes(c: int, d: int)
    ensures (1 + c) * d == d + c * d
  {
  }

  lemma {:induction false} ReplaceAllLength(s: string, pat: string, rep: string)
    requires pat != []
    ensures |ReplaceAll(s, pat, rep)| == |s| + Count(s, pat) * (|rep| - |pat|)
    decreases |s|
  {
    var d := |rep| - |pat|;
    if |s| < |pat| {
      assert Count(s, pat) == 0;
    } else if s[..|pat|] == pat {
      var t := s[|pat|..];
      ReplaceAllLength(t, pat, rep);
      var c := Count(t, pat);
      assert Count(s, pat) == 1 + c;
      assert |ReplaceAll(s, pat, rep)| == |rep| + |ReplaceAll(t, pat, rep)|;
      assert |ReplaceAll(t, pat, rep)| == |t| + c * d;
      assert |t| == |s| - |pat|;
      OneMoreTimes(c, d);
    } else {
      ReplaceAllLength(s[1..], pat, rep);
      assert Count(s, pat) == Count(s[1..], pat);
    }
  }

  /** A one-character pattern occurs only where its character does. */
  lemma AbsentCharDoesNotOccur(s: string, sep: string)
    requires |sep| == 1 && sep[0] !in s
    ensures !Occurs(s, sep)
  {
    forall i: nat | i <= |s|
      ensures !OccursAt(s, sep, i)
    {
      if i + 1 <= |s| {
        assert s[i..i + 1][0] == s[i];
      }
    }
  }

  /** Splitting on a one-character separator stops at its first occurrence. */
  lemma {:induction false} SplitAtFirstSeparator(x: string, sep: string, y: string)
    requires |sep| == 1 && sep[0] !in x
    ensures Split(x + sep + y, sep) == [x] + Split(y, sep)
    decreases |x|
  {
    var s := x + sep + y;
    if |x| == 0 {
      assert s == sep + y;
      assert s[..|sep|] == sep && s[|sep|..] == y;
    } else {
      assert s[..1] == [x[0]] != sep;
      assert s[1..] == x[1..] + sep + y;
      SplitAtFirstSeparator(x[1..], sep, y);
      assert [x[0]] + x[1..] == x;
    }
  }

  /**
   * Splitting on a one-character separator undoes joining on it, provided no
   * part contains that character: `sep.join(parts).split(sep) == parts`.
   */
  lemma {:induction false} SplitJoinRoundTrip(parts: seq<string>, sep: string)
    requires |sep| == 1 && |parts| >= 1
    requires forall p | p in parts :: sep[0] !in p
    ensures Split(Join(parts, sep), sep) == parts
    decreases |parts|
  {
    if |parts| == 1 {
      assert parts[0] in parts;
      AbsentCharDoesNotOccur(parts[0], sep);
      SplitWithoutOccurrence(parts[0], sep);
    } else {
      assert parts[0] in parts;
      SplitAtFirstSeparator(parts[0], sep, Join(parts[1..], sep));
      assert forall p | p in parts[1..] :: p in parts;
      SplitJoinRoundTrip(parts[1..], sep);
      assert [parts[0]] + parts[1..] == parts;
    }
  }

  /** An occurrence in a suffix of `s` is an occurrence in `s`, shifted by where the suffix starts. */
  lemma OccursInSuffix(s: string, pat: string, d: nat, j: nat)
    requires d <= |s|
    ensures OccursAt(s[d..], pat, j) == OccursAt(s, pat, j + d)
  {
    if j + |pat| <= |s| - d {
      assert s[d..][j..j + |pat|] == s[j + d..j + d + |pat|];
    }
  }

  /** No occurrence of the pattern overlaps positions `lo..hi` of `s`. */
  predicate NoneOverlaps(s: string, pat: string, lo: nat, hi: nat)
  {
    forall j: nat | j < hi && lo < j + |pat| :: !OccursAt(s, pat, j)
  }

  lemma NoneOverlapsSuffix(s: string, pat: string, lo: nat, hi: nat, d: nat)
    requires d <= lo <= hi && d <= |s|
    requires NoneOverlaps(s, pat, lo, hi)
    ensures NoneOverlaps(s[d..], pat, lo - d, hi - d)
  {
    forall j: nat | j < hi - d && lo - d < j + |pat|
      ensures !OccursAt(s[d..], pat, j)
    {
      OccursInSuffix(s, pat, d, j);
    }
  }

  lemma Regroup(x: string, y: string, q: string, z: string)
    ensures x + (y + q + z) == (x + y) + q + z
  {
  }

  /** `replace` copies a prefix `q` at which no occurrence of the pattern starts. */
  lemma {:induction false} ReplaceAllCopies(q: string, b: string, pat: string, rep: string)
    requires pat != []
    requires NoneOverlaps(q + b, pat, 0, |q|)
    ensures ReplaceAll(q + b, pat, rep) == q + ReplaceAll(b, pat, rep)
    decreases |q|
  {
    var s := q + b;
    if |q| == 0 {
      assert s == b;
    } else if |s| >= |pat| {
      assert !OccursAt(s, pat, 0);
      assert s[..|pat|] == s[0..0 + |pat|];
      var q' := q[1..];
      assert s[1..] == q' + b;
      NoneOverlapsSuffix(s, pat, 1, |q|, 1);
      ReplaceAllCopies(q', b, pat, rep);
      Regroup([q[0]], q', [], ReplaceAll(b, pat, rep));
      assert [q[0]] + q' == q;
    }
  }

  /** The first `|pat|` characters of `a + q + b` when `a` has at least that many. */
  lemma PrefixOfSplice(a: string, q: string, b: string, n: nat)
    requires n <= |a|
    ensures (a + q + b)[..n] == a[..n]
  {
  }

  /**
   * `replace` leaves alone a stretch `q` of the string that no occurrence of
   * the pattern overlaps, and works on what lies before and after it on its own.
   */
  lemma {:induction false} ReplaceAllSplice(a: string, q: string, b: string, pat: string, rep: string)
    requires pat != []
    requires NoneOverlaps(a + q + b, pat, |a|, |a| + |q|)
    ensures ReplaceAll(a + q + b, pat, rep) == ReplaceAll(a, pat, rep) + q + ReplaceAll(b, pat, rep)
    decreases |a|
  {
    var s := a + q + b;
    if |a| == 0 {
      assert s == q + b;
      ReplaceAllCopies(q, b, pat, rep);
    } else if |s| >= |pat| && s[..|pat|] == pat {
      SpliceAtPattern(a, q, b, pat, rep);
    } else if |s| >= |pat| {
      SpliceSkip(a, q, b, pat, rep);
    } else {
      assert |a| < |pat|;
    }
  }

  /** The step of `ReplaceAllSplice` where the pattern starts the string. */
  lemma {:induction false} SpliceAtPattern(a: string, q: string, b: string, pat: string, rep: string)
    requires pat != [] && |a| > 0
    requires NoneOverlaps(a + q + b, pat, |a|, |a| + |q|)
    requires |a + q + b| >= |pat| && (a + q + b)[..|pat|] == pat
    ensures ReplaceAll(a + q + b, pat, rep) == ReplaceAll(a, pat, rep) + q + ReplaceAll(b, pat, rep)
    decreases |a|, 0
  {
    var s := a + q + b;
    assert s[0..0 + |pat|] == s[..|pat|];
    assert OccursAt(s, pat, 0);
    PrefixOfSplice(a, q, b, |pat|);
    var a' := a[|pat|..];
    assert s[|pat|..] == a' + q + b;
    NoneOverlapsSuffix(s, pat, |a|, |a| + |q|, |pat|);
    ReplaceAllSplice(a', q, b, pat, rep);
    Regroup(rep, ReplaceAll(a', pat, rep), q, ReplaceAll(b, pat, rep));
  }

  /** The step of `ReplaceAllSplice` where the first character is copied. */
  lemma {:induction false} SpliceSkip(a: string, q: string, b: string, pat: string, rep: string)
    requires pat != [] && |a| > 0
    requires NoneOverlaps(a + q + b, pat, |a|, |a| + |q|)
    requires |a + q + b| >= |pat| && (a + q + b)[..|pat|] != pat
    ensures ReplaceAll(a + q + b, pat, rep) == ReplaceAll(a, pat, rep) + q + ReplaceAll(b, pat, rep)
    decreases |a|, 0
  {
    var s := a + q + b;
    var a' := a[1..];
    assert s[1..] == a' + q + b;
    NoneOverlapsSuffix(s, pat, |a|, |a| + |q|, 1);
    ReplaceAllSplice(a', q, b, pat, rep);
    if |a| >= |pat| {
      PrefixOfSplice(a, q, b, |pat|);
    } else {
      assert [a[0]] + a' == a;
    }
    Regroup([a[0]], ReplaceAll(a', pat, rep), q, ReplaceAll(b, pat, rep));
  }

  /** An occurrence of `q` that no occurrence of the pattern overlaps survives `replace`, shifted. */
  lemma ReplaceAllKeepsOccurrence(s: string, pat: string, rep: string, q: string, i: nat)
    requires pat != [] && OccursAt(s, q, i)
    requires NoneOverlaps(s, pat, i, i + |q|)
    ensures OccursAt(ReplaceAll(s, pat, rep), q, |ReplaceAll(s[..i], pat, rep)|)
  {
    var a, b := s[..i], s[i + |q|..];
    assert s == a + q + b;
    ReplaceAllSplice(a, q, b, pat, rep);
    var r := ReplaceAll(s, pat, rep);
    var k := |ReplaceAll(a, pat, rep)|;
    assert r[k..k + |q|] == q;
  }
}

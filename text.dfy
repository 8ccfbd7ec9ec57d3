/** String helpers used by the engine model: prefixes, suffixes, and the
    searches that Python's `str.startswith`, `str.split` and `str.find` do. */
module Text {

  predicate StartsWith(s: string, p: string) {
    |p| <= |s| && s[..|p|] == p
  }

  predicate EndsWith(s: string, p: string) {
    |p| <= |s| && s[|s| - |p|..] == p
  }

  /** True when sep occurs in s starting at index k. */
  predicate OccursAt(s: string, sep: string, k: nat)
    requires k <= |s|
  {
    StartsWith(s[k..], sep)
  }

  /** Index of the first character of s that belongs to stop, or |s| when none does. */
  function FindAny(s: string, stop: set<char>): (i: nat)
    ensures i <= |s|
    ensures forall k :: 0 <= k < i ==> s[k] !in stop
    ensures i < |s| ==> s[i] in stop
  {
    if s == [] || s[0] in stop then 0 else 1 + FindAny(s[1..], stop)
  }

  /** The first stop character of a + b is the one that ends a. */
  lemma {:induction false} FindAnyAfter(a: string, b: string, stop: set<char>)
    requires forall k :: 0 <= k < |a| ==> a[k] !in stop
    requires b == [] || b[0] in stop
    ensures FindAny(a + b, stop) == |a|
  {
    if a != [] {
      assert (a + b)[1..] == a[1..] + b;
      FindAnyAfter(a[1..], b, stop);
    }
  }

  /** The text of s before the first occurrence of sep, or all of s when sep
      does not occur: the second piece of `(sep + s).split(sep)` in Python. */
  function Before(s: string, sep: string): (r: string)
    requires |sep| > 0
    ensures StartsWith(s, r)
    ensures forall k :: 0 <= k < |r| ==> !OccursAt(s, sep, k)
    ensures r == s || OccursAt(s, sep, |r|)
  {
    if |s| < |sep| then
      assert forall k :: 0 <= k < |s| ==> |s[k..]| < |sep|;
      s
    else if StartsWith(s, sep) then []
    else
      var r' := Before(s[1..], sep);
      assert forall k :: 1 <= k <= |s| ==> s[k..] == s[1..][k - 1..];
      assert forall k :: 1 <= k <= |s| ==> OccursAt(s, sep, k) == OccursAt(s[1..], sep, k - 1);
      [s[0]] + r'
  }

  /** Python's `s.split(sep)` for a non-empty separator: the pieces between
      the occurrences of sep, found from the left without overlap. */
  function Split(s: string, sep: string): (pieces: seq<string>)
    requires |sep| > 0
    ensures |pieces| > 0
    ensures forall i: nat, k: nat :: i < |pieces| && k <= |pieces[i]| ==> !OccursAt(pieces[i], sep, k)
    decreases |s|
  {
    var r := Before(s, sep);
    NoOccurrenceInBefore(s, sep);
    if r == s then [s] else [r] + Split(s[|r| + |sep|..], sep)
  }

  /** The text before the first occurrence of sep does not contain sep. */
  lemma NoOccurrenceInBefore(s: string, sep: string)
    requires |sep| > 0
    ensures forall k :: 0 <= k <= |Before(s, sep)| ==> !OccursAt(Before(s, sep), sep, k)
  {
    var r := Before(s, sep);
    forall k | 0 <= k <= |r|
      ensures !OccursAt(r, sep, k)
    {
      if k + |sep| <= |r| {
        assert r == s[..|r|];
        assert r[k..][..|sep|] == s[k..][..|sep|];
        assert !OccursAt(s, sep, k);
      }
    }
  }

  /** Python's `sep.join(pieces)`. */
  function Join(sep: string, pieces: seq<string>): string
    requires |pieces| > 0
  {
    if |pieces| == 1 then pieces[0] else pieces[0] + sep + Join(sep, pieces[1..])
  }

  /** A string with sep at the end of its prefix r is r, sep and the rest. */
  lemma CutAt(s: string, r: string, sep: string)
    requires StartsWith(s, r) && |r| <= |s| && OccursAt(s, sep, |r|)
    ensures s == r + sep + s[|r| + |sep|..]
  {
    assert s[..|r|] == r;
    assert s[|r|..][..|sep|] == sep;
  }

  /** Joining the pieces with the separator gives the string back. */
  lemma {:induction false} JoinSplit(s: string, sep: string)
    requires |sep| > 0
    ensures Join(sep, Split(s, sep)) == s
    decreases |s|
  {
    var r := Before(s, sep);
    if r != s {
      var rest := s[|r| + |sep|..];
      var tail := Split(rest, sep);
      assert Split(s, sep) == [r] + tail;
      JoinSplit(rest, sep);
      assert Join(sep, [r] + tail) == r + sep + Join(sep, tail);
      CutAt(s, r, sep);
    }
  }

  /** No proper prefix of sep is also a suffix of it, so two occurrences of
      sep can never overlap. */
  predicate Unbordered(sep: string) {
    forall d :: 0 < d < |sep| ==> sep[..d] != sep[|sep| - d..]
  }

  /** A separator whose last character occurs nowhere else in it is unbordered. */
  lemma EndMarkUnbordered(sep: string)
    requires |sep| > 0
    requires forall k :: 0 <= k < |sep| - 1 ==> sep[k] != sep[|sep| - 1]
    ensures Unbordered(sep)
  {
    forall d | 0 < d < |sep|
      ensures sep[..d] != sep[|sep| - d..]
    {
      assert sep[..d][d - 1] == sep[d - 1] != sep[|sep| - 1] == sep[|sep| - d..][d - 1];
    }
  }

  /** Before the first piece ends, an unbordered separator that follows it
      cannot have begun. */
  lemma NoEarlyOccurrence(p: string, sep: string, rest: string, k: nat)
    requires |sep| > 0 && Unbordered(sep)
    requires forall j: nat :: j <= |p| ==> !OccursAt(p, sep, j)
    requires k < |p|
    ensures !OccursAt(p + sep + rest, sep, k)
  {
    var t := p + sep + rest;
    var w := t[k..][..|sep|];
    if k + |sep| <= |p| {
      assert w == p[k..][..|sep|];
      assert !OccursAt(p, sep, k);
    } else {
      var d := k + |sep| - |p|;
      assert t[|p|..] == sep + rest;
      assert w[|sep| - d..] == t[|p|..][..d];
      assert (sep + rest)[..d] == sep[..d];
      assert sep[..d] != sep[|sep| - d..];
    }
  }

  /** For an unbordered separator the pieces are determined: any non-empty
      list that joins back to s and whose pieces do not contain sep is
      `s.split(sep)`. */
  lemma {:induction false} SplitUnique(s: string, sep: string, pieces: seq<string>)
    requires |sep| > 0 && Unbordered(sep)
    requires |pieces| > 0 && Join(sep, pieces) == s
    requires forall i: nat, k: nat :: i < |pieces| && k <= |pieces[i]| ==> !OccursAt(pieces[i], sep, k)
    ensures pieces == Split(s, sep)
    decreases |pieces|
  {
    var r := Before(s, sep);
    var p := pieces[0];
    if |pieces| == 1 {
      assert s == p;
      assert !OccursAt(p, sep, |r|);
    } else {
      var tail := pieces[1..];
      var rest := Join(sep, tail);
      assert s == p + sep + rest;
      assert OccursAt(s, sep, |p|) by {
        assert s[|p|..][..|sep|] == sep;
      }
      forall k: nat | k < |p|
        ensures !OccursAt(s, sep, k)
      {
        NoEarlyOccurrence(p, sep, rest, k);
      }
      assert r == p by { assert r == s[..|r|]; }
      assert s[|r| + |sep|..] == rest;
      forall i: nat, k: nat | i < |tail| && k <= |tail[i]|
        ensures !OccursAt(tail[i], sep, k)
      {
        assert tail[i] == pieces[i + 1];
      }
      SplitUnique(rest, sep, tail);
    }
  }

  /** When s begins with sep, the first piece of `s.split(sep)` is empty and
      the second is the text after sep, up to its next occurrence. */
  lemma SplitAfterPrefix(s: string, sep: string)
    requires |sep| > 0 && StartsWith(s, sep)
    ensures |Split(s, sep)| >= 2
    ensures Split(s, sep)[0] == ""
    ensures Split(s, sep)[1] == Before(s[|sep|..], sep)
  {
    assert OccursAt(s, sep, 0) by { assert s[0..] == s; }
    var r := Before(s, sep);
    assert r == [];
    var rest := s[|sep|..];
    var r2 := Before(rest, sep);
    if r2 != rest {
      assert Split(rest, sep)[0] == r2;
    }
  }
}

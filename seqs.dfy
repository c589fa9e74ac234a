/** Sequence operations the JavaScript code gets from `Array.prototype`:
    `filter(e => e !== x)`, `indexOf`, `join`, and `split` as the inverse of `join`. */
module Seqs {

  /** `s` with every occurrence of `x` filtered out, the rest in their order. */
  function Without<T(==)>(s: seq<T>, x: T): (r: seq<T>)
    ensures multiset(r) == multiset(s)[x := 0]
    ensures x !in r
    ensures x !in s ==> r == s
  {
    if |s| == 0 then []
    else
      assert s == [s[0]] + s[1..];
      if s[0] == x then Without(s[1..], x)
      else [s[0]] + Without(s[1..], x)
  }

  /** Filtering distributes over concatenation, so it keeps the survivors in order. */
  lemma {:induction false} WithoutConcat<T>(a: seq<T>, b: seq<T>, x: T)
    ensures Without(a + b, x) == Without(a, x) + Without(b, x)
  {
    if |a| == 0 {
      assert a + b == b;
    } else {
      assert (a + b)[1..] == a[1..] + b;
      WithoutConcat(a[1..], b, x);
    }
  }

  /** Filtering out an element that was just appended gives the original back. */
  lemma WithoutAppended<T>(s: seq<T>, x: T)
    requires x !in s
    ensures Without(s + [x], x) == s
  {
    WithoutConcat(s, [x], x);
    assert Without([x], x) == [];
  }

  /** Filtering out an element held once cuts it out of its place. */
  lemma WithoutOnce<T>(a: seq<T>, x: T, b: seq<T>)
    requires x !in a && x !in b
    ensures Without(a + [x] + b, x) == a + b
  {
    var ax := a + [x];
    WithoutConcat(ax, b, x);
    assert Without(ax + b, x) == Without(ax, x) + Without(b, x);
    WithoutConcat(a, [x], x);
    assert Without(ax, x) == Without(a, x) + Without([x], x);
    assert Without([x], x) == [];
    assert Without(ax, x) == a;
  }

  /** In a list without duplicates, filtering out a member removes just its
      one position. */
  lemma WithoutCutsOut<T>(s: seq<T>, x: T)
    requires NoDuplicates(s) && x in s
    ensures 0 <= IndexOf(s, x) < |s|
    ensures Without(s, x) == s[..IndexOf(s, x)] + s[IndexOf(s, x) + 1..]
  {
    var i := IndexOf(s, x);
    UniqueAfter(s, i);
    WithoutAt(s, i);
  }

  /** Filtering out an element that occurs only at `i` cuts position `i` out. */
  lemma WithoutAt<T>(s: seq<T>, i: int)
    requires 0 <= i < |s| && s[i] !in s[..i] && s[i] !in s[i + 1..]
    ensures Without(s, s[i]) == s[..i] + s[i + 1..]
  {
    var a, x, b := s[..i], s[i], s[i + 1..];
    SplitAt(s, i);
    WithoutOnce(a, x, b);
  }

  lemma SplitAt<T>(s: seq<T>, i: int)
    requires 0 <= i < |s|
    ensures s == s[..i] + [s[i]] + s[i + 1..]
  {
  }

  /** In a list without duplicates, an element does not come back later. */
  lemma UniqueAfter<T>(s: seq<T>, i: int)
    requires NoDuplicates(s) && 0 <= i < |s|
    ensures s[i] !in s[i + 1..]
  {
    var b := s[i + 1..];
    forall k | 0 <= k < |b| ensures b[k] != s[i] {
      assert b[k] == s[i + 1 + k];
    }
  }

  /** Dropping the head keeps a list free of duplicates. */
  lemma TailNoDuplicates<T>(s: seq<T>)
    requires NoDuplicates(s) && |s| > 0
    ensures NoDuplicates(s[1..])
  {
    var tail := s[1..];
    forall p, q | 0 <= p < q < |tail| ensures tail[p] != tail[q] {
      assert tail[p] == s[p + 1] && tail[q] == s[q + 1];
    }
  }

  /** Putting a new element in front keeps a list free of duplicates. */
  lemma ConsNoDuplicates<T>(x: T, s: seq<T>)
    requires NoDuplicates(s) && x !in s
    ensures NoDuplicates([x] + s)
  {
    var t := [x] + s;
    forall p, q | 0 <= p < q < |t| ensures t[p] != t[q] {
      assert t[q] == s[q - 1];
      if p > 0 {
        assert t[p] == s[p - 1];
      }
    }
  }

  /** What survives a filter was there before. */
  lemma {:induction false} WithoutSubset<T>(s: seq<T>, x: T, y: T)
    requires y in Without(s, x)
    ensures y in s
  {
    if |s| > 0 && !(s[0] != x && y == s[0]) {
      WithoutSubset(s[1..], x, y);
    }
  }

  /** Filtering never creates a repeat. */
  lemma {:induction false} WithoutKeepsDistinct<T>(s: seq<T>, x: T)
    requires NoDuplicates(s)
    ensures NoDuplicates(Without(s, x))
  {
    if |s| > 0 {
      var tail := s[1..];
      TailNoDuplicates(s);
      WithoutKeepsDistinct(tail, x);
      if s[0] != x {
        var r := Without(tail, x);
        assert s[0] !in r by {
          UniqueAfter(s, 0);
          if s[0] in r {
            WithoutSubset(tail, x, s[0]);
          }
        }
        ConsNoDuplicates(s[0], r);
      }
    }
  }

  /** Cutting one position out of a list keeps it free of duplicates. */
  /** Appending an element the list lacks keeps it free of duplicates. */
  lemma AppendNoDuplicates<T>(s: seq<T>, x: T)
    requires NoDuplicates(s) && x !in s
    ensures NoDuplicates(s + [x])
  {
  }

  /** JavaScript `indexOf`: the first position of `x`, or -1. */
  function IndexOf<T(==)>(s: seq<T>, x: T): (i: int)
    ensures -1 <= i < |s|
    ensures i == -1 <==> x !in s
    ensures 0 <= i ==> s[i] == x && x !in s[..i]
  {
    if |s| == 0 then -1
    else if s[0] == x then 0
    else
      var j := IndexOf(s[1..], x);
      if j == -1 then -1
      else
        assert s[..j + 1] == [s[0]] + s[1..][..j];
        j + 1
  }

  /** The first position holding `x` is what `IndexOf` finds. */
  lemma {:induction false} IndexOfFirst<T>(s: seq<T>, x: T, i: int)
    requires 0 <= i < |s| && s[i] == x
    requires forall k :: 0 <= k < i ==> s[k] != x
    ensures IndexOf(s, x) == i
  {
    if i > 0 {
      IndexOfFirst(s[1..], x, i - 1);
    }
  }

  predicate NoDuplicates<T(==)>(s: seq<T>) {
    forall i, j :: 0 <= i < j < |s| ==> s[i] != s[j]
  }

  /** JavaScript `parts.join(sep)`. */
  function Join(parts: seq<string>, sep: char): string {
    if |parts| == 0 then ""
    else if |parts| == 1 then parts[0]
    else parts[0] + [sep] + Join(parts[1..], sep)
  }

  /** JavaScript `s.split(sep)`: the pieces between separators (at least one). */
  function Split(s: string, sep: char): (r: seq<string>)
    ensures |r| >= 1
    decreases |s|
  {
    var i := IndexOf(s, sep);
    if i == -1 then [s] else [s[..i]] + Split(s[i + 1..], sep)
  }

  /** Splitting a joined list at the separator gives the list back, as long as
      no part holds the separator: `join` loses nothing. */
  lemma {:induction false} SplitJoin(parts: seq<string>, sep: char)
    requires |parts| >= 1
    requires forall k :: 0 <= k < |parts| ==> sep !in parts[k]
    ensures Split(Join(parts, sep), sep) == parts
  {
    if |parts| > 1 {
      SplitFirst(parts[0], sep, Join(parts[1..], sep));
      SplitJoin(parts[1..], sep);
    }
  }

  /** A piece without the separator, then the separator, splits off first. */
  lemma SplitFirst(p: string, sep: char, rest: string)
    requires sep !in p
    ensures Split(p + [sep] + rest, sep) == [p] + Split(rest, sep)
  {
    var s := p + [sep] + rest;
    assert forall k :: 0 <= k < |p| ==> s[k] == p[k];
    IndexOfFirst(s, sep, |p|);
    assert s[..|p|] == p;
    assert s[|p| + 1..] == rest;
  }
}

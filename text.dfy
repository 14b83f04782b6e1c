/**
 * String utilities printMap relies on: the byte-wise order Go compares
 * strings by, sort.Strings as an in-place insertion sort, strings.Join
 * and its inverse strings.Split.
 */
module Text {
  import opened Arrays

  /** Lexicographic order on strings, character by character; a prefix comes first. */
  predicate LexLessEq(a: string, b: string)
    ensures a <= b ==> LexLessEq(a, b)
    decreases |a|
  {
    if |a| == 0 then true
    else if |b| == 0 then false
    else if a[0] != b[0] then a[0] < b[0]
    else LexLessEq(a[1..], b[1..])
  }

  lemma {:induction false} LexTotal(a: string, b: string)
    ensures LexLessEq(a, b) || LexLessEq(b, a)
    decreases |a|
  {
    if |a| > 0 && |b| > 0 && a[0] == b[0] {
      LexTotal(a[1..], b[1..]);
    }
  }

  lemma {:induction false} LexAntisymmetric(a: string, b: string)
    requires LexLessEq(a, b) && LexLessEq(b, a)
    ensures a == b
    decreases |a|
  {
    if |a| > 0 {
      LexAntisymmetric(a[1..], b[1..]);
      assert a == [a[0]] + a[1..];
      assert b == [b[0]] + b[1..];
    }
  }

  lemma {:induction false} LexTransitive(a: string, b: string, c: string)
    requires LexLessEq(a, b) && LexLessEq(b, c)
    ensures LexLessEq(a, c)
    decreases |a|
  {
    if |a| > 0 && a[0] == b[0] && b[0] == c[0] {
      LexTransitive(a[1..], b[1..], c[1..]);
    }
  }

  /** Ascending in the lexicographic order, every pair compared. */
  ghost predicate Sorted(s: seq<string>)
  {
    forall i, j :: 0 <= i < j < |s| ==> LexLessEq(s[i], s[j])
  }

  /** Ascending, comparing neighbours only. */
  ghost predicate NeighboursSorted(s: seq<string>)
  {
    forall i, j :: 0 <= i < j < |s| && j == i + 1 ==> LexLessEq(s[i], s[j])
  }

  lemma {:induction false} NeighboursSortedIsSorted(s: seq<string>)
    requires NeighboursSorted(s)
    ensures Sorted(s)
  {
    if |s| > 1 {
      var t := s[..|s| - 1];
      assert NeighboursSorted(t) by {
        forall i, j | 0 <= i < j < |t| && j == i + 1
          ensures LexLessEq(t[i], t[j])
        {
          assert t[i] == s[i] && t[j] == s[j];
        }
      }
      NeighboursSortedIsSorted(t);
      forall i, j | 0 <= i < j < |s|
        ensures LexLessEq(s[i], s[j])
      {
        if j < |s| - 1 {
          assert s[i] == t[i] && s[j] == t[j];
        } else if i < |s| - 2 {
          assert s[i] == t[i] && s[|s| - 2] == t[|s| - 2];
          LexTransitive(s[i], s[|s| - 2], s[j]);
        }
      }
    }
  }

  /** Inserts x before the first element it does not exceed. */
  function Insert(x: string, s: seq<string>): seq<string>
  {
    if s == [] || LexLessEq(x, s[0]) then [x] + s
    else [s[0]] + Insert(x, s[1..])
  }

  /** A lower bound of x and of every element of s bounds every element after the insertion. */
  lemma {:induction false} InsertKeepsLowerBound(lo: string, x: string, s: seq<string>)
    requires LexLessEq(lo, x)
    requires forall j :: 0 <= j < |s| ==> LexLessEq(lo, s[j])
    ensures forall j :: 0 <= j < |Insert(x, s)| ==> LexLessEq(lo, Insert(x, s)[j])
  {
    if s != [] && !LexLessEq(x, s[0]) {
      InsertKeepsLowerBound(lo, x, s[1..]);
    }
  }

  /** Inserting into an ascending sequence keeps it ascending and adds exactly x. */
  lemma {:induction false} InsertSorted(x: string, s: seq<string>)
    requires Sorted(s)
    ensures Sorted(Insert(x, s))
    ensures multiset(Insert(x, s)) == multiset(s) + multiset{x}
  {
    if s == [] || LexLessEq(x, s[0]) {
      forall j | 0 <= j < |s|
        ensures LexLessEq(x, s[j])
      {
        if j > 0 { LexTransitive(x, s[0], s[j]); }
      }
    } else {
      LexTotal(x, s[0]);
      assert s == [s[0]] + s[1..];
      InsertSorted(x, s[1..]);
      InsertKeepsLowerBound(s[0], x, s[1..]);
      var tail := Insert(x, s[1..]);
      var r := [s[0]] + tail;
      forall i, j | 0 <= i < j < |r|
        ensures LexLessEq(r[i], r[j])
      {
        assert r[j] == tail[j - 1];
        if i > 0 {
          assert r[i] == tail[i - 1];
        }
      }
    }
  }

  /** The sorted arrangement of s (insertion sort): the reference sort.Strings is held to. */
  function SortedCopy(s: seq<string>): (r: seq<string>)
    ensures Sorted(r)
    ensures multiset(r) == multiset(s)
  {
    if s == [] then []
    else
      assert s == [s[0]] + s[1..];
      InsertSorted(s[0], SortedCopy(s[1..]));
      Insert(s[0], SortedCopy(s[1..]))
  }

  /** Sorting keeps the length and the elements. */
  lemma SortedCopyMembers(s: seq<string>)
    ensures |SortedCopy(s)| == |s|
    ensures forall e :: e in SortedCopy(s) <==> e in s
  {
    var r := SortedCopy(s);
    assert |r| == |multiset(r)| == |multiset(s)| == |s|;
    forall e
      ensures e in r <==> e in s
    {
      assert e in r <==> e in multiset(r);
      assert e in s <==> e in multiset(s);
    }
  }

  /** The first element of an ascending sequence is at most each of its elements. */
  lemma SortedHeadIsLeast(s: seq<string>, x: string)
    requires Sorted(s) && x in multiset(s)
    ensures LexLessEq(s[0], x)
  {
    var j :| 0 <= j < |s| && s[j] == x;
    if j == 0 {
      assert x <= x;
    }
  }

  /** A multiset of strings has exactly one ascending arrangement. */
  lemma {:induction false} SortedUnique(a: seq<string>, b: seq<string>)
    requires Sorted(a) && Sorted(b) && multiset(a) == multiset(b)
    ensures a == b
  {
    if a == [] {
      assert |multiset(b)| == 0;
    } else {
      assert |b| == |multiset(b)| == |multiset(a)| == |a|;
      SortedHeadIsLeast(b, a[0]);
      SortedHeadIsLeast(a, b[0]);
      LexAntisymmetric(a[0], b[0]);
      assert a == [a[0]] + a[1..];
      assert b == [b[0]] + b[1..];
      assert multiset(a[1..]) == multiset(a) - multiset{a[0]};
      assert multiset(b[1..]) == multiset(b) - multiset{b[0]};
      SortedUnique(a[1..], b[1..]);
    }
  }

  /** sort.Strings: sorts the array in place, ascending. */
  method SortStrings(a: array<string>)
    modifies a
    ensures a[..] == SortedCopy(old(a[..]))
  {
    for i := 0 to a.Length
      invariant forall k, l :: 0 <= k && l == k + 1 && l < i ==> LexLessEq(a[k], a[l])
      invariant multiset(a[..]) == multiset(old(a[..]))
    {
      var j := i;
      while j > 0 && !LexLessEq(a[j - 1], a[j])
        invariant 0 <= j <= i
        invariant forall k, l :: 0 <= k && l == k + 1 && l <= i && l != j ==> LexLessEq(a[k], a[l])
        invariant 0 < j < i ==> LexLessEq(a[j - 1], a[j + 1])
        invariant multiset(a[..]) == multiset(old(a[..]))
      {
        LexTotal(a[j - 1], a[j]);
        Swap(a, j - 1, j);
        j := j - 1;
      }
    }
    NeighboursSortedIsSorted(a[..]);
    SortedUnique(a[..], SortedCopy(old(a[..])));
  }

  /** strings.Join: the elements with sep between neighbours; no elements give "". */
  function Join(xs: seq<string>, sep: char): (r: string)
    ensures |xs| > 0 ==> xs[0] <= r
    ensures (forall i :: 0 <= i < |xs| ==> sep !in xs[i]) ==> (sep in r <==> |xs| > 1)
  {
    if xs == [] then ""
    else if |xs| == 1 then xs[0]
    else xs[0] + [sep] + Join(xs[1..], sep)
  }

  /** strings.Split: the pieces between occurrences of sep; always at least one piece. */
  function Split(s: string, sep: char): (pieces: seq<string>)
    ensures |pieces| >= 1
  {
    if s == [] then [""]
    else if s[0] == sep then [""] + Split(s[1..], sep)
    else
      var rest := Split(s[1..], sep);
      [[s[0]] + rest[0]] + rest[1..]
  }

  lemma {:induction false} SplitWithoutSep(a: string, sep: char)
    requires sep !in a
    ensures Split(a, sep) == [a]
  {
    if a != [] {
      SplitWithoutSep(a[1..], sep);
      assert a == [a[0]] + a[1..];
    }
  }

  lemma {:induction false} SplitAtSep(a: string, b: string, sep: char)
    requires sep !in a
    ensures Split(a + [sep] + b, sep) == [a] + Split(b, sep)
  {
    var s := a + [sep] + b;
    if a == [] {
      assert s[1..] == b;
    } else {
      assert s[1..] == a[1..] + [sep] + b;
      SplitAtSep(a[1..], b, sep);
      assert a == [a[0]] + a[1..];
    }
  }

  /** Splitting a join at a separator no element contains gives the elements back. */
  lemma {:induction false} SplitJoin(xs: seq<string>, sep: char)
    requires |xs| > 0
    requires forall i :: 0 <= i < |xs| ==> sep !in xs[i]
    ensures Split(Join(xs, sep), sep) == xs
  {
    if |xs| == 1 {
      SplitWithoutSep(xs[0], sep);
    } else {
      SplitJoin(xs[1..], sep);
      SplitAtSep(xs[0], Join(xs[1..], sep), sep);
      assert xs == [xs[0]] + xs[1..];
    }
  }
}

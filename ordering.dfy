/**
 Order-insensitive comparison of two lists of option ids, as the quiz's
 `arraysEqualIgnoreOrder` does it: compare the lengths, sort copies of both
 lists, and compare the sorted copies position by position.
 */
module Ordering {

  /** Lexicographic order by code point, character by character, a proper
      prefix before its extensions; it stands in for the UTF-16 code-unit
      order of `Array.prototype.sort`. */
  predicate Below(a: string, b: string) {
    a == [] || (b != [] && (a[0] < b[0] || (a[0] == b[0] && Below(a[1..], b[1..]))))
  }

  lemma {:induction false} BelowReflexive(a: string)
    ensures Below(a, a)
  {
    if a != [] {
      BelowReflexive(a[1..]);
    }
  }

  lemma {:induction false} BelowAntisymmetric(a: string, b: string)
    requires Below(a, b) && Below(b, a)
    ensures a == b
  {
    if a != [] && b != [] {
      BelowAntisymmetric(a[1..], b[1..]);
      assert a == [a[0]] + a[1..] && b == [b[0]] + b[1..];
    }
  }

  lemma {:induction false} BelowTransitive(a: string, b: string, c: string)
    requires Below(a, b) && Below(b, c)
    ensures Below(a, c)
  {
    if a != [] && b != [] && c != [] && a[0] == b[0] == c[0] {
      BelowTransitive(a[1..], b[1..], c[1..]);
    }
  }

  lemma {:induction false} BelowTotal(a: string, b: string)
    ensures Below(a, b) || Below(b, a)
  {
    if a != [] && b != [] && a[0] == b[0] {
      BelowTotal(a[1..], b[1..]);
    }
  }

  predicate Sorted(s: seq<string>) {
    forall i, j :: 0 <= i < j < |s| ==> Below(s[i], s[j])
  }

  /** Puts `x` in front of the first element it is below. */
  function Insert(x: string, s: seq<string>): (r: seq<string>)
    ensures |r| == |s| + 1
  {
    if s == [] then [x]
    else if Below(x, s[0]) then [x] + s
    else [s[0]] + Insert(x, s[1..])
  }

  lemma {:induction false} InsertPermutes(x: string, s: seq<string>)
    ensures multiset(Insert(x, s)) == multiset(s) + multiset{x}
  {
    if s != [] && !Below(x, s[0]) {
      var tail := Insert(x, s[1..]);
      InsertPermutes(x, s[1..]);
      assert Insert(x, s) == [s[0]] + tail;
      assert multiset([s[0]] + tail) == multiset{s[0]} + multiset(tail);
      MultisetCons(s);
    }
  }

  lemma MultisetCons(s: seq<string>)
    requires s != []
    ensures multiset(s) == multiset{s[0]} + multiset(s[1..])
  {
    assert s == [s[0]] + s[1..];
  }

  lemma {:induction false} InsertSorted(x: string, s: seq<string>)
    requires Sorted(s)
    ensures Sorted(Insert(x, s))
  {
    if s == [] {
    } else if Below(x, s[0]) {
      forall j | 0 < j < |[x] + s| ensures Below(x, ([x] + s)[j]) {
        if j > 1 { BelowTransitive(x, s[0], s[j - 1]); }
      }
    } else {
      SortedTail(s);
      InsertSorted(x, s[1..]);
      InsertPermutes(x, s[1..]);
      var tail := Insert(x, s[1..]);
      BelowTotal(x, s[0]);
      forall j | 0 <= j < |tail| ensures Below(s[0], tail[j]) {
        assert tail[j] in multiset(tail);
        assert tail[j] in multiset(s[1..]) + multiset{x};
        if tail[j] != x {
          var k :| 0 <= k < |s[1..]| && s[1..][k] == tail[j];
          assert s[k + 1] == tail[j];
        }
      }
      assert Insert(x, s) == [s[0]] + tail;
    }
  }

  /** Insertion sort. */
  function Sort(s: seq<string>): (r: seq<string>)
    ensures |r| == |s|
  {
    if s == [] then [] else Insert(s[0], Sort(s[1..]))
  }

  /** Sorting keeps every element, duplicates included. */
  lemma {:induction false} SortPermutes(s: seq<string>)
    ensures multiset(Sort(s)) == multiset(s)
  {
    if s != [] {
      SortPermutes(s[1..]);
      InsertPermutes(s[0], Sort(s[1..]));
      assert s == [s[0]] + s[1..];
    }
  }

  lemma {:induction false} SortSorts(s: seq<string>)
    ensures Sorted(Sort(s))
  {
    if s != [] {
      SortSorts(s[1..]);
      InsertSorted(s[0], Sort(s[1..]));
    }
  }

  lemma {:induction false} SortedHeadIsLeast(s: seq<string>, x: string)
    requires Sorted(s) && x in multiset(s)
    ensures Below(s[0], x)
  {
    var k :| 0 <= k < |s| && s[k] == x;
    if k == 0 { BelowReflexive(x); }
  }

  lemma MultisetTail(s: seq<string>)
    requires s != []
    ensures multiset(s[1..]) == multiset(s) - multiset{s[0]}
  {
    assert s == [s[0]] + s[1..];
  }

  lemma SortedTail(s: seq<string>)
    requires s != [] && Sorted(s)
    ensures Sorted(s[1..])
  {
    forall i, j | 0 <= i < j < |s[1..]| ensures Below(s[1..][i], s[1..][j]) {
      assert s[1..][i] == s[i + 1] && s[1..][j] == s[j + 1];
    }
  }

  /** Two sorted arrangements of one multiset start with the same element. */
  lemma SortedSameHead(a: seq<string>, b: seq<string>)
    requires a != [] && b != [] && Sorted(a) && Sorted(b) && multiset(a) == multiset(b)
    ensures a[0] == b[0]
  {
    assert a[0] in multiset(a);
    assert b[0] in multiset(b);
    SortedHeadIsLeast(a, b[0]);
    SortedHeadIsLeast(b, a[0]);
    BelowAntisymmetric(a[0], b[0]);
  }

  /** Under a total order, a multiset has one sorted arrangement. */
  lemma {:induction false} SortedUnique(a: seq<string>, b: seq<string>)
    requires Sorted(a) && Sorted(b) && multiset(a) == multiset(b)
    ensures a == b
  {
    assert |a| == |multiset(a)| == |multiset(b)| == |b|;
    if a != [] {
      SortedSameHead(a, b);
      MultisetTail(a);
      MultisetTail(b);
      SortedTail(a);
      SortedTail(b);
      SortedUnique(a[1..], b[1..]);
      MultisetConsEq(a, b);
    }
  }

  lemma MultisetConsEq(a: seq<string>, b: seq<string>)
    requires a != [] && b != [] && a[0] == b[0] && a[1..] == b[1..]
    ensures a == b
  {
    assert a == [a[0]] + a[1..] && b == [b[0]] + b[1..];
  }

  /** `arraysEqualIgnoreOrder`: different lengths never match; otherwise the
      sorted copies must agree at every position. */
  function ArraysEqualIgnoreOrder(a: seq<string>, b: seq<string>): (r: bool)
    ensures |a| != |b| ==> !r
  {
    if |a| != |b| then false
    else
      var sortedA, sortedB := Sort(a), Sort(b);
      forall i :: 0 <= i < |sortedA| ==> sortedA[i] == sortedB[i]
  }

  /** The comparison is exactly multiset equality: `b` is a rearrangement of
      `a`, element for element, duplicates included. */
  lemma ArraysEqualIgnoreOrderIsPermutation(a: seq<string>, b: seq<string>)
    ensures ArraysEqualIgnoreOrder(a, b) <==> multiset(a) == multiset(b)
  {
    var sortedA, sortedB := Sort(a), Sort(b);
    SortPermutes(a);
    SortPermutes(b);
    if multiset(a) == multiset(b) {
      assert |a| == |multiset(a)| == |multiset(b)| == |b|;
      SortSorts(a);
      SortSorts(b);
      SortedUnique(sortedA, sortedB);
    }
    if ArraysEqualIgnoreOrder(a, b) {
      assert sortedA == sortedB;
    }
  }

  lemma ArraysEqualIgnoreOrderSymmetric(a: seq<string>, b: seq<string>)
    ensures ArraysEqualIgnoreOrder(a, b) == ArraysEqualIgnoreOrder(b, a)
  {
    ArraysEqualIgnoreOrderIsPermutation(a, b);
    ArraysEqualIgnoreOrderIsPermutation(b, a);
  }

  /** Rearranging either list does not change the verdict. */
  lemma ArraysEqualIgnoreOrderInvariant(a: seq<string>, a': seq<string>, b: seq<string>, b': seq<string>)
    requires multiset(a) == multiset(a') && multiset(b) == multiset(b')
    ensures ArraysEqualIgnoreOrder(a, b) == ArraysEqualIgnoreOrder(a', b')
  {
    ArraysEqualIgnoreOrderIsPermutation(a, b);
    ArraysEqualIgnoreOrderIsPermutation(a', b');
  }

  /** No partial credit: a list that misses an element of the other, or has
      one too many, never matches. */
  lemma ProperSubOrSupersetNeverMatches(a: seq<string>, b: seq<string>)
    requires multiset(a) < multiset(b) || multiset(b) < multiset(a)
    ensures !ArraysEqualIgnoreOrder(a, b)
  {
    ArraysEqualIgnoreOrderIsPermutation(a, b);
  }

  /** The comparison counts repetitions: two lists with the same members
      but different multiplicities do not match. */
  lemma SameMembersDifferentCountsNeverMatch(a: seq<string>, b: seq<string>)
    requires (set x | x in a) == (set x | x in b) && multiset(a) != multiset(b)
    ensures !ArraysEqualIgnoreOrder(a, b)
  {
    ArraysEqualIgnoreOrderIsPermutation(a, b);
  }

  /** Such lists exist, so the comparison is not set equality. */
  lemma RepetitionsCount()
    ensures (set x | x in ["A", "A", "B"]) == (set x | x in ["A", "B", "B"])
    ensures !ArraysEqualIgnoreOrder(["A", "A", "B"], ["A", "B", "B"])
  {
    assert multiset(["A", "A", "B"])["A"] == 2;
    assert multiset(["A", "B", "B"])["A"] == 1;
    ArraysEqualIgnoreOrderIsPermutation(["A", "A", "B"], ["A", "B", "B"]);
  }
}

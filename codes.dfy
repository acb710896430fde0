/**
 * get_unique_codes: the category labels offered in the dropdown. The fetched
 * CodeDesc column loses its NULLs and is sorted in place, in Python's order on
 * strings.
 */
module Codes {
  import opened Wrappers

  /** Python's `<=` on str: compare code point by code point; a proper prefix comes first. */
  predicate LexLe(a: string, b: string)
  {
    if a == [] then true
    else if b == [] then false
    else if a[0] != b[0] then a[0] < b[0]
    else LexLe(a[1..], b[1..])
  }

  lemma {:induction false} LexLeTotal(a: string, b: string)
    ensures LexLe(a, b) || LexLe(b, a)
  {
    if a != [] && b != [] && a[0] == b[0] {
      LexLeTotal(a[1..], b[1..]);
    }
  }

  lemma {:induction false} LexLeTransitive(a: string, b: string, c: string)
    requires LexLe(a, b) && LexLe(b, c)
    ensures LexLe(a, c)
  {
    if a != [] && a[0] == b[0] && b[0] == c[0] {
      LexLeTransitive(a[1..], b[1..], c[1..]);
    }
  }

  lemma {:induction false} LexLeAntisymmetric(a: string, b: string)
    requires LexLe(a, b) && LexLe(b, a)
    ensures a == b
  {
    if a != [] {
      LexLeAntisymmetric(a[1..], b[1..]);
      assert a == [a[0]] + a[1..] && b == [b[0]] + b[1..];
    }
  }

  /** Ascending in Python's order, as `list.sort()` leaves a list of str. */
  predicate Sorted(s: seq<string>)
  {
    forall i, j :: 0 <= i < j < |s| ==> LexLe(s[i], s[j])
  }

  /** `dropna().tolist()`: the values that are not NULL, in column order. */
  function Present(column: seq<Option<string>>): (r: seq<string>)
    ensures |r| <= |column|
    ensures forall x :: multiset(r)[x] == multiset(column)[Some(x)]
  {
    if column == [] then []
    else
      var init := column[..|column| - 1];
      var last := column[|column| - 1];
      assert column == init + [last];
      Present(init) + (if last.Some? then [last.value] else [])
  }

  /** Inserts `x` into a sorted list before the first element not below it. */
  function Insert(x: string, s: seq<string>): seq<string>
  {
    if s == [] then [x]
    else if LexLe(x, s[0]) then [x] + s
    else [s[0]] + Insert(x, s[1..])
  }

  /** A functional reading of the sort: insertion sort. */
  function SortCodes(s: seq<string>): seq<string>
  {
    if s == [] then [] else Insert(s[0], SortCodes(s[1..]))
  }

  lemma SortedCons(h: string, t: seq<string>)
    requires Sorted(t)
    requires forall y :: y in t ==> LexLe(h, y)
    ensures Sorted([h] + t)
  {
    var s := [h] + t;
    forall i, j | 0 <= i < j < |s| ensures LexLe(s[i], s[j]) {
      if i > 0 {
        assert s[i] == t[i - 1] && s[j] == t[j - 1];
      } else {
        assert s[j] == t[j - 1] && t[j - 1] in t;
      }
    }
  }

  lemma SortedTail(s: seq<string>)
    requires Sorted(s) && s != []
    ensures Sorted(s[1..])
  {
    forall i, j | 0 <= i < j < |s[1..]| ensures LexLe(s[1..][i], s[1..][j]) {
      assert s[1..][i] == s[i + 1] && s[1..][j] == s[j + 1];
    }
  }

  lemma {:induction false} InsertMultiset(x: string, s: seq<string>)
    ensures multiset(Insert(x, s)) == multiset(s) + multiset{x}
  {
    if s != [] && !LexLe(x, s[0]) {
      InsertMultiset(x, s[1..]);
      assert s == [s[0]] + s[1..];
    }
  }

  lemma {:induction false} InsertSorted(x: string, s: seq<string>)
    requires Sorted(s)
    ensures Sorted(Insert(x, s))
  {
    if s == [] {
    } else if LexLe(x, s[0]) {
      forall y | y in s ensures LexLe(x, y) {
        var k :| 0 <= k < |s| && s[k] == y;
        if k > 0 {
          LexLeTransitive(x, s[0], y);
        }
      }
      SortedCons(x, s);
    } else {
      LexLeTotal(x, s[0]);
      SortedTail(s);
      InsertSorted(x, s[1..]);
      InsertMultiset(x, s[1..]);
      var rest := Insert(x, s[1..]);
      forall y | y in rest ensures LexLe(s[0], y) {
        assert y in multiset(rest);
        if y != x {
          assert y in multiset(s[1..]);
          var k :| 0 <= k < |s[1..]| && s[1..][k] == y;
          assert s[k + 1] == y;
        }
      }
      SortedCons(s[0], rest);
    }
  }

  lemma {:induction false} SortCodesFacts(s: seq<string>)
    ensures Sorted(SortCodes(s))
    ensures multiset(SortCodes(s)) == multiset(s)
  {
    if s != [] {
      SortCodesFacts(s[1..]);
      InsertSorted(s[0], SortCodes(s[1..]));
      InsertMultiset(s[0], SortCodes(s[1..]));
      assert s == [s[0]] + s[1..];
    }
  }

  lemma SortedHeadsEqual(a: seq<string>, b: seq<string>)
    requires Sorted(a) && Sorted(b) && a != []
    requires multiset(a) == multiset(b)
    ensures b != [] && a[0] == b[0]
  {
    assert a[0] in multiset(b);
    var k :| 0 <= k < |b| && b[k] == a[0];
    assert b[0] in multiset(a);
    var m :| 0 <= m < |a| && a[m] == b[0];
    if k > 0 && m > 0 {
      LexLeAntisymmetric(a[0], b[0]);
    }
  }

  /** Two sorted lists with the same elements are the same list: the sorted order is unique. */
  lemma {:induction false} SortedUnique(a: seq<string>, b: seq<string>)
    requires Sorted(a) && Sorted(b)
    requires multiset(a) == multiset(b)
    ensures a == b
  {
    if a == [] {
      assert |multiset(b)| == 0;
    } else {
      SortedHeadsEqual(a, b);
      assert a == [a[0]] + a[1..] && b == [b[0]] + b[1..];
      assert multiset(a[1..]) == multiset(a) - multiset{a[0]};
      assert multiset(b[1..]) == multiset(b) - multiset{b[0]};
      SortedTail(a);
      SortedTail(b);
      SortedUnique(a[1..], b[1..]);
    }
  }

  /** `unique_codes.sort()` (main.py:28): an insertion sort in place. */
  method SortInPlace(a: array<string>)
    modifies a
    ensures Sorted(a[..])
    ensures multiset(a[..]) == multiset(old(a[..]))
  {
    var i := 0;
    while i < a.Length
      invariant 0 <= i <= a.Length
      invariant forall k, l :: 0 <= k < l < i ==> LexLe(a[k], a[l])
      invariant multiset(a[..]) == multiset(old(a[..]))
    {
      SinkInto(a, i);
      i := i + 1;
    }
  }

  /** One step of the insertion sort: moves `a[i]` down into the sorted prefix `a[..i]`. */
  method SinkInto(a: array<string>, i: nat)
    requires i < a.Length
    requires forall k, l :: 0 <= k < l < i ==> LexLe(a[k], a[l])
    modifies a
    ensures forall k, l :: 0 <= k < l <= i ==> LexLe(a[k], a[l])
    ensures multiset(a[..]) == multiset(old(a[..]))
  {
    var j := i;
    while j > 0 && !LexLe(a[j - 1], a[j])
      invariant 0 <= j <= i
      invariant forall k, l :: 0 <= k < l <= i && k != j && l != j ==> LexLe(a[k], a[l])
      invariant forall l :: j < l <= i ==> LexLe(a[j], a[l])
      invariant multiset(a[..]) == multiset(old(a[..]))
    {
      LexLeTotal(a[j - 1], a[j]);
      a[j - 1], a[j] := a[j], a[j - 1];
      j := j - 1;
    }
    forall k, l | 0 <= k < l <= i ensures LexLe(a[k], a[l]) {
      if l == j && k < j - 1 {
        LexLeTransitive(a[k], a[j - 1], a[j]);
      }
    }
  }

  /** The codes get_unique_codes returns for a fetched column; None stands for a failed query. */
  function UniqueCodes(fetched: Option<seq<Option<string>>>): seq<string>
  {
    match fetched
    case None => []
    case Some(column) => SortCodes(Present(column))
  }

  /**
   * get_unique_codes (main.py:23-32): the non-NULL values of the fetched
   * column, sorted; no codes when the query fails.
   */
  method GetUniqueCodes(fetched: Option<seq<Option<string>>>) returns (codes: seq<string>)
    ensures fetched.None? ==> codes == []
    ensures fetched.Some? ==> Sorted(codes)
    ensures fetched.Some? ==> forall x :: multiset(codes)[x] == multiset(fetched.value)[Some(x)]
    ensures codes == UniqueCodes(fetched)
  {
    match fetched
    case None =>
      codes := [];
    case Some(column) =>
      var present := Present(column);
      var a := new string[|present|](k requires 0 <= k < |present| => present[k]);
      assert a[..] == present;
      SortInPlace(a);
      codes := a[..];
      SortCodesFacts(present);
      SortedUnique(codes, SortCodes(present));
  }

  lemma TwoOccurrences(s: seq<string>, i: nat, j: nat)
    requires i < j < |s| && s[i] == s[j]
    ensures multiset(s)[s[i]] >= 2
  {
    assert s == s[..i] + [s[i]] + s[i + 1..j] + [s[j]] + s[j + 1..];
  }

  /**
   * When the fetched column holds each code at most once (the query asks
   * for DISTINCT values), the codes come out strictly ascending.
   */
  lemma DistinctCodesStrictlyAscending(column: seq<Option<string>>)
    requires forall x :: multiset(column)[Some(x)] <= 1
    ensures var codes := UniqueCodes(Some(column));
      forall i, j :: 0 <= i < j < |codes| ==> LexLe(codes[i], codes[j]) && codes[i] != codes[j]
  {
    var codes := UniqueCodes(Some(column));
    SortCodesFacts(Present(column));
    forall i, j | 0 <= i < j < |codes| ensures codes[i] != codes[j] {
      if codes[i] == codes[j] {
        TwoOccurrences(codes, i, j);
      }
    }
  }
}

/** Stable sorting by a comparison, as the library sorts of the modelled programs do it, and when the
    result depends only on which elements there are. */
module Sorting {

  /** `x` goes after every element it is not before. */
  function Insert<T>(x: T, s: seq<T>, before: (T, T) -> bool): (r: seq<T>)
    ensures |r| == |s| + 1
  {
    if s == [] then [x]
    else if before(x, s[0]) then [x] + s
    else [s[0]] + Insert(x, s[1..], before)
  }

  function Sort<T>(s: seq<T>, before: (T, T) -> bool): (r: seq<T>)
    ensures |r| == |s|
  {
    if s == [] then [] else Insert(s[|s| - 1], Sort(s[..|s| - 1], before), before)
  }

  ghost predicate Sorted<T>(s: seq<T>, before: (T, T) -> bool)
  {
    forall i, j :: 0 <= i < j < |s| ==> !before(s[j], s[i])
  }

  /** `before` is asymmetric, transitive and negatively transitive. */
  ghost predicate WeakOrder<T(!new)>(before: (T, T) -> bool)
  {
    && (forall a, b :: before(a, b) ==> !before(b, a))
    && (forall a, b, c :: before(a, b) && before(b, c) ==> before(a, c))
    && (forall a, b, c :: !before(a, b) && !before(b, c) ==> !before(a, c))
  }

  ghost predicate TotalOn<T>(s: seq<T>, before: (T, T) -> bool)
  {
    forall a, b :: a in s && b in s && a != b ==> before(a, b) || before(b, a)
  }

  lemma {:induction false} InsertElements<T>(x: T, s: seq<T>, before: (T, T) -> bool)
    ensures multiset(Insert(x, s, before)) == multiset(s) + multiset{x}
  {
    if s != [] {
      assert s == [s[0]] + s[1..];
      InsertElements(x, s[1..], before);
    }
  }

  /** Sorting permutes. */
  lemma {:induction false} SortElements<T>(s: seq<T>, before: (T, T) -> bool)
    ensures multiset(Sort(s, before)) == multiset(s)
  {
    if s != [] {
      assert s == s[..|s| - 1] + [s[|s| - 1]];
      SortElements(s[..|s| - 1], before);
      InsertElements(s[|s| - 1], Sort(s[..|s| - 1], before), before);
    }
  }

  lemma SortOfOne<T>(x: T, before: (T, T) -> bool)
    ensures Sort([x], before) == [x]
  {
    assert [x][..0] == [];
    assert Sort([x][..0], before) == [];
  }

  lemma SameElements<T>(s: seq<T>, t: seq<T>)
    requires multiset(s) == multiset(t)
    ensures |s| == |t|
    ensures forall x :: x in s <==> x in t
  {
    assert |multiset(s)| == |s| && |multiset(t)| == |t|;
    forall x ensures x in s <==> x in t {
      assert x in s <==> x in multiset(s);
      assert x in t <==> x in multiset(t);
    }
  }

  lemma SortMember<T>(s: seq<T>, before: (T, T) -> bool, x: T)
    ensures x in Sort(s, before) <==> x in s
  {
    SortElements(s, before);
    assert x in s <==> x in multiset(s);
    assert x in Sort(s, before) <==> x in multiset(Sort(s, before));
  }

  /** The head of the result comes before none of its other elements. */
  lemma InsertHead<T(!new)>(x: T, s: seq<T>, before: (T, T) -> bool, j: nat)
    requires WeakOrder(before) && Sorted(s, before) && s != [] && 0 < j <= |s|
    ensures !before(Insert(x, s, before)[j], Insert(x, s, before)[0])
  {
    var r := Insert(x, s, before);
    if before(x, s[0]) {
      assert r[j] == s[j - 1];
    } else {
      InsertElements(x, s[1..], before);
      var t := Insert(x, s[1..], before);
      assert r[j] == t[j - 1] && t[j - 1] in multiset(t);
      assert r[j] == x || r[j] in s[1..];
    }
  }

  lemma {:induction false} InsertSorted<T(!new)>(x: T, s: seq<T>, before: (T, T) -> bool)
    requires WeakOrder(before) && Sorted(s, before)
    ensures Sorted(Insert(x, s, before), before)
  {
    if s != [] {
      var r := Insert(x, s, before);
      if !before(x, s[0]) {
        InsertSorted(x, s[1..], before);
      }
      forall j | 0 < j < |r| ensures !before(r[j], r[0]) {
        InsertHead(x, s, before, j);
      }
    }
  }

  lemma {:induction false} SortSorted<T(!new)>(s: seq<T>, before: (T, T) -> bool)
    requires WeakOrder(before)
    ensures Sorted(Sort(s, before), before)
  {
    if s != [] {
      SortSorted(s[..|s| - 1], before);
      InsertSorted(s[|s| - 1], Sort(s[..|s| - 1], before), before);
    }
  }

  /** Sorting leaves a sorted sequence alone. */
  lemma {:induction false} SortOfSorted<T>(s: seq<T>, before: (T, T) -> bool)
    requires Sorted(s, before)
    ensures Sort(s, before) == s
  {
    if s != [] {
      var n := |s| - 1;
      SortOfSorted(s[..n], before);
      InsertLast(s[n], s[..n], before);
    }
  }

  lemma {:induction false} InsertLast<T>(x: T, s: seq<T>, before: (T, T) -> bool)
    requires forall y :: y in s ==> !before(x, y)
    ensures Insert(x, s, before) == s + [x]
  {
    if s != [] {
      InsertLast(x, s[1..], before);
    }
  }

  /** Two sorted sequences of the same elements are the same when the order is total on them. */
  lemma {:induction false} SortedIsUnique<T>(s: seq<T>, t: seq<T>, before: (T, T) -> bool)
    requires TotalOn(s, before) && Sorted(s, before) && Sorted(t, before) && multiset(s) == multiset(t)
    ensures s == t
  {
    SameElements(s, t);
    if s != [] {
      HeadIsUnique(s, t, before);
      assert s == [s[0]] + s[1..] && t == [t[0]] + t[1..];
      assert multiset(s[1..]) == multiset(s) - multiset{s[0]};
      assert multiset(t[1..]) == multiset(t) - multiset{t[0]};
      SortedIsUnique(s[1..], t[1..], before);
    }
  }

  lemma HeadIsUnique<T>(s: seq<T>, t: seq<T>, before: (T, T) -> bool)
    requires TotalOn(s, before) && Sorted(s, before) && Sorted(t, before)
    requires s != [] && t != [] && s[0] in t && t[0] in s
    ensures s[0] == t[0]
  {
    var i :| 0 <= i < |t| && t[i] == s[0];
    var j :| 0 <= j < |s| && s[j] == t[0];
  }

  /** Under an order that is total on the elements, sorting forgets how they were listed. */
  lemma SortForgetsOrder<T(!new)>(s: seq<T>, t: seq<T>, before: (T, T) -> bool)
    requires WeakOrder(before) && TotalOn(s, before) && multiset(s) == multiset(t)
    ensures Sort(s, before) == Sort(t, before)
  {
    SortElements(s, before);
    SortElements(t, before);
    SortSorted(s, before);
    SortSorted(t, before);
    SameElements(s, Sort(s, before));
    SortedIsUnique(Sort(s, before), Sort(t, before), before);
  }

  // ----- distinct keys

  ghost predicate DistinctKeys<T, K>(s: seq<T>, key: T -> K)
  {
    forall i, j :: 0 <= i < j < |s| ==> key(s[i]) != key(s[j])
  }

  lemma {:induction false} DistinctCounts<T, K>(s: seq<T>, key: T -> K, x: T)
    requires DistinctKeys(s, key)
    ensures multiset(s)[x] <= 1
  {
    if s != [] {
      assert s == [s[0]] + s[1..];
      DistinctCounts(s[1..], key, x);
      forall j | 0 <= j < |s[1..]| ensures s[1..][j] != s[0] {
        assert key(s[0]) != key(s[j + 1]);
      }
      assert s[0] !in s[1..];
    }
  }

  lemma {:induction false} RepeatedCounts<T>(s: seq<T>, i: nat, j: nat)
    requires i < j < |s| && s[i] == s[j]
    ensures multiset(s)[s[i]] >= 2
  {
    assert s == s[..j] + s[j..];
    assert multiset(s) == multiset(s[..j]) + multiset(s[j..]);
    assert s[i] == s[..j][i] && s[..j][i] in multiset(s[..j]);
    assert s[j] == s[j..][0] && s[j..][0] in multiset(s[j..]);
  }

  /** Distinct keys stay distinct when the sequence is permuted. */
  lemma DistinctIsPermutable<T, K>(s: seq<T>, t: seq<T>, key: T -> K)
    requires DistinctKeys(s, key) && multiset(s) == multiset(t)
    ensures DistinctKeys(t, key)
  {
    SameElements(s, t);
    forall i, j | 0 <= i < j < |t| ensures key(t[i]) != key(t[j]) {
      if t[i] == t[j] {
        RepeatedCounts(t, i, j);
        DistinctCounts(s, key, t[i]);
      } else {
        assert t[i] in t && t[j] in t;
        var a :| 0 <= a < |s| && s[a] == t[i];
        var b :| 0 <= b < |s| && s[b] == t[j];
        assert a < b || b < a;
      }
    }
  }

  // ----- text order

  /** Lexicographic order of texts. */
  predicate TextBefore(a: string, b: string)
  {
    b != "" && (a == "" || a[0] < b[0] || (a[0] == b[0] && TextBefore(a[1..], b[1..])))
  }

  /** The first difference decides, or the end of the shorter text. */
  lemma {:induction false} TextBeforeIff(a: string, b: string)
    ensures TextBefore(a, b) <==>
      exists k: nat :: k <= |a| && k < |b| && a[..k] == b[..k] && (k == |a| || a[k] < b[k])
  {
    if a == "" || b == "" {
      assert b != "" ==> a[..0] == b[..0];
    } else {
      TextBeforeIff(a[1..], b[1..]);
      if a[0] == b[0] && TextBefore(a, b) {
        var x, y := a[1..], b[1..];
        var k: nat :| k <= |x| && k < |y| && x[..k] == y[..k] && (k == |x| || x[k] < y[k]);
        assert a[..k + 1] == [a[0]] + x[..k] && b[..k + 1] == [b[0]] + y[..k];
      } else if a[0] < b[0] {
        assert a[..0] == b[..0];
      }
      if k: nat :| k <= |a| && k < |b| && a[..k] == b[..k] && (k == |a| || a[k] < b[k]) {
        if k > 0 {
          assert a[0] == a[..k][0] == b[..k][0] == b[0];
          assert a[1..][..k - 1] == a[..k][1..] && b[1..][..k - 1] == b[..k][1..];
        }
      }
    }
  }

  lemma {:induction false} TextTrichotomy(a: string, b: string)
    ensures TextBefore(a, b) ==> !TextBefore(b, a) && a != b
    ensures a != b ==> TextBefore(a, b) || TextBefore(b, a)
  {
    if a != "" && b != "" {
      TextTrichotomy(a[1..], b[1..]);
      assert a == [a[0]] + a[1..] && b == [b[0]] + b[1..];
    }
  }

  lemma {:induction false} TextTransitive(a: string, b: string, c: string)
    requires TextBefore(a, b) && TextBefore(b, c)
    ensures TextBefore(a, c)
  {
    if a != "" {
      if a[0] == b[0] == c[0] {
        TextTransitive(a[1..], b[1..], c[1..]);
      }
    }
  }
}

/**
 * Go's ordering of strings (`<` on strings, `sort.Strings`) and the order in
 * which a key-ordered store or a sorted key list enumerates a set of keys.
 * Go compares strings byte by byte; on UTF-8 text that is the same as comparing
 * code points one by one, which is what Below does on Dafny's characters.
 */
module StringOrder {

  /** Go's `a < b` on strings: lexicographic, a proper prefix first. */
  predicate Below(a: string, b: string): (r: bool)
    ensures r ==> a != b
    ensures |a| < |b| && a == b[..|a|] ==> r
  {
    if a == [] then b != []
    else if b == [] then false
    else a[0] < b[0] || (a[0] == b[0] && Below(a[1..], b[1..]))
  }

  lemma {:induction false} BelowIrreflexive(a: string)
    ensures !Below(a, a)
  {
    if a != [] {
      BelowIrreflexive(a[1..]);
    }
  }

  lemma {:induction false} BelowTransitive(a: string, b: string, c: string)
    requires Below(a, b) && Below(b, c)
    ensures Below(a, c)
  {
    if a != [] && b != [] && c != [] && a[0] == b[0] == c[0] {
      BelowTransitive(a[1..], b[1..], c[1..]);
    }
  }

  /** Any two different strings are ordered one way or the other. */
  lemma {:induction false} BelowTotal(a: string, b: string)
    ensures a == b || Below(a, b) || Below(b, a)
  {
    if a != [] && b != [] && a[0] == b[0] {
      BelowTotal(a[1..], b[1..]);
      if a[1..] == b[1..] {
        assert a == [a[0]] + a[1..] && b == [b[0]] + b[1..];
      }
    }
  }

  lemma BelowAsymmetric(a: string, b: string)
    requires Below(a, b)
    ensures !Below(b, a)
  {
    if Below(b, a) {
      BelowTransitive(a, b, a);
      BelowIrreflexive(a);
    }
  }

  /** Strictly ascending: sorted and free of duplicates. */
  predicate Ascending(s: seq<string>) {
    forall i, j :: 0 <= i < j < |s| ==> Below(s[i], s[j])
  }

  /** What `sort.Strings` promises: no element is below an earlier one. */
  predicate NonDecreasing(s: seq<string>) {
    forall i, j :: 0 <= i < j < |s| ==> !Below(s[j], s[i])
  }

  /** Every non-empty set of strings has a least element. */
  lemma {:induction false} LeastExists(s: set<string>)
    requires s != {}
    ensures exists m :: m in s && forall x :: x in s && x != m ==> Below(m, x)
    decreases |s|
  {
    var y :| y in s;
    var rest := s - {y};
    if rest != {} {
      LeastExists(rest);
      var m :| m in rest && forall x :: x in rest && x != m ==> Below(m, x);
      BelowTotal(y, m);
      if Below(y, m) {
        forall x | x in s && x != y
          ensures Below(y, x)
        {
          if x != m {
            BelowTransitive(y, m, x);
          }
        }
      } else {
        assert forall x :: x in s && x != m ==> Below(m, x);
      }
    } else {
      assert s == {y};
    }
  }

  /** The keys of a set in ascending order: the order a key-ordered store iterates in. */
  ghost function KeyOrder(s: set<string>): (r: seq<string>)
    ensures Ascending(r)
    ensures forall x :: x in r <==> x in s
    ensures |r| == |s|
    decreases |s|
  {
    if s == {} then []
    else
      LeastExists(s);
      var m :| m in s && forall x :: x in s && x != m ==> Below(m, x);
      var r := KeyOrder(s - {m});
      PrependLeast(s, m, r);
      [m] + r
  }

  /** The least key followed by the ascending enumeration of the others is ascending. */
  lemma PrependLeast(s: set<string>, m: string, r: seq<string>)
    requires m in s && forall x :: x in s && x != m ==> Below(m, x)
    requires Ascending(r) && forall x :: x in r <==> x in s - {m}
    ensures Ascending([m] + r)
    ensures forall x :: x in [m] + r <==> x in s
  {
    var t := [m] + r;
    forall i, j | 0 <= i < j < |t|
      ensures Below(t[i], t[j])
    {
      assert t[j] == r[j - 1] && r[j - 1] in r;
      if i > 0 {
        assert t[i] == r[i - 1];
      }
    }
  }

  /** A set has only one ascending enumeration. */
  lemma {:induction false} AscendingUnique(r1: seq<string>, r2: seq<string>)
    requires Ascending(r1) && Ascending(r2)
    requires forall x :: x in r1 <==> x in r2
    ensures r1 == r2
    decreases |r1|
  {
    if r2 != [] {
      assert r2[0] in r1;
    }
    if r1 != [] {
      assert r1[0] in r2;
      if r1[0] != r2[0] {
        var i :| 0 <= i < |r1| && r1[i] == r2[0];
        var j :| 0 <= j < |r2| && r2[j] == r1[0];
        assert Below(r1[0], r2[0]);
        assert Below(r2[0], r1[0]);
        BelowAsymmetric(r1[0], r2[0]);
      }
      forall x
        ensures x in r1[1..] <==> x in r2[1..]
      {
        if x in r1[1..] {
          var i :| 1 <= i < |r1| && r1[i] == x;
          assert Below(r1[0], x);
          BelowIrreflexive(x);
          assert x in r1 && x in r2;
          var k :| 0 <= k < |r2| && r2[k] == x;
          assert k != 0;
          assert r2[1..][k - 1] == x;
        }
        if x in r2[1..] {
          var j :| 1 <= j < |r2| && r2[j] == x;
          assert Below(r2[0], x);
          BelowIrreflexive(x);
          assert x in r2 && x in r1;
          var k :| 0 <= k < |r1| && r1[k] == x;
          assert k != 0;
          assert r1[1..][k - 1] == x;
        }
      }
      AscendingUnique(r1[1..], r2[1..]);
      assert r1 == [r1[0]] + r1[1..] && r2 == [r2[0]] + r2[1..];
    }
  }

  /** Two equal elements make a multiset count of at least two. */
  lemma RepeatCounts(s: seq<string>, i: int, j: int)
    requires 0 <= i < j < |s| && s[i] == s[j]
    ensures multiset(s)[s[i]] >= 2
  {
    assert s == s[..j] + [s[j]] + s[j + 1..];
    assert s[i] in s[..j];
  }

  /** A sorted sequence without repetitions is strictly ascending. */
  lemma NonDecreasingDistinct(s: seq<string>)
    requires NonDecreasing(s)
    requires forall x :: multiset(s)[x] <= 1
    ensures Ascending(s)
  {
    forall i, j | 0 <= i < j < |s|
      ensures Below(s[i], s[j])
    {
      if s[i] == s[j] {
        RepeatCounts(s, i, j);
      }
      BelowTotal(s[i], s[j]);
    }
  }

  /** `sort.Strings` on a slice: an insertion sort in place. */
  method Sort(a: array<string>)
    modifies a
    ensures NonDecreasing(a[..])
    ensures multiset(a[..]) == old(multiset(a[..]))
  {
    var i := 0;
    while i < a.Length
      invariant 0 <= i <= a.Length
      invariant NonDecreasing(a[..i])
      invariant multiset(a[..]) == old(multiset(a[..]))
    {
      Insert(a, i);
      i := i + 1;
    }
  }

  /** Moves a[i] left past every larger element, extending the sorted prefix by one. */
  method Insert(a: array<string>, i: int)
    requires 0 <= i < a.Length
    requires NonDecreasing(a[..i])
    modifies a
    ensures NonDecreasing(a[..i + 1])
    ensures multiset(a[..]) == old(multiset(a[..]))
  {
    var j := i;
    while j > 0 && Below(a[j], a[j - 1])
      invariant 0 <= j <= i
      invariant forall p, q :: 0 <= p < q <= i && p != j && q != j ==> !Below(a[q], a[p])
      invariant forall q :: j < q <= i ==> Below(a[j], a[q])
      invariant multiset(a[..]) == old(multiset(a[..]))
    {
      Swap(a, j - 1, j);
      j := j - 1;
    }
    InsertedInPlace(a[..i + 1], j);
  }

  /** Exchanges two adjacent elements of the array. */
  method Swap(a: array<string>, p: int, q: int)
    requires 0 <= p < q < a.Length
    modifies a
    ensures a[p] == old(a[q]) && a[q] == old(a[p])
    ensures forall k :: 0 <= k < a.Length && k != p && k != q ==> a[k] == old(a[k])
    ensures multiset(a[..]) == old(multiset(a[..]))
  {
    a[p], a[q] := a[q], a[p];
  }

  /**
   * The state an insertion step stops in is sorted: everything but position j
   * is in order, j is below what follows it and not below what precedes it.
   */
  lemma InsertedInPlace(s: seq<string>, j: int)
    requires 0 <= j < |s|
    requires forall p, q :: 0 <= p < q < |s| && p != j && q != j ==> !Below(s[q], s[p])
    requires forall q :: j < q < |s| ==> Below(s[j], s[q])
    requires j > 0 ==> !Below(s[j], s[j - 1])
    ensures NonDecreasing(s)
  {
    forall p, q | 0 <= p < q < |s|
      ensures !Below(s[q], s[p])
    {
      if q == j && p < j - 1 {
        if Below(s[j], s[p]) {
          BelowTotal(s[p], s[j - 1]);
          if s[p] != s[j - 1] {
            BelowTransitive(s[j], s[p], s[j - 1]);
          }
        }
      } else if p == j {
        BelowAsymmetric(s[j], s[q]);
      }
    }
  }

  /**
   * `for k := range m { keys = append(keys, k) }; sort.Strings(keys)`: the
   * keys of a map, collected in whatever order the map yields them, then sorted.
   */
  method SortedKeys<V>(m: map<string, V>) returns (keys: seq<string>)
    ensures keys == KeyOrder(m.Keys)
  {
    var collected: seq<string> := [];
    var rest := m.Keys;
    while rest != {}
      invariant rest <= m.Keys
      invariant forall x :: x in collected <==> x in m.Keys && x !in rest
      invariant forall x :: multiset(collected)[x] <= 1
      decreases rest
    {
      var k :| k in rest;
      collected := collected + [k];
      rest := rest - {k};
    }
    var a := new string[|collected|](i requires 0 <= i < |collected| => collected[i]);
    assert a[..] == collected;
    Sort(a);
    keys := a[..];
    assert forall x :: x in keys <==> x in multiset(collected);
    NonDecreasingDistinct(keys);
    AscendingUnique(keys, KeyOrder(m.Keys));
  }
}

/** Facts about sequences, sorting and permutations that several modules need. */
module Collections {
  import opened Wrappers

  // ---------------------------------------------------------------- permutations

  ghost predicate Injective<T(!new)>(s: seq<T>) {
    forall i, j :: 0 <= i < j < |s| ==> s[i] != s[j]
  }

  /** `p` lists every number below `|p|` exactly once. */
  ghost predicate Permutation(p: seq<nat>) {
    && (forall i :: 0 <= i < |p| ==> p[i] < |p|)
    && Injective(p)
  }

  /** `q` undoes `p`. */
  ghost predicate Inverses(p: seq<nat>, q: seq<nat>) {
    && |p| == |q|
    && (forall i :: 0 <= i < |p| ==> p[i] < |p| && q[p[i]] == i)
    && (forall i :: 0 <= i < |q| ==> q[i] < |q| && p[q[i]] == i)
  }

  /** The numbers below `n`. */
  function Below(n: nat): (s: set<nat>)
    ensures forall i :: i in s <==> 0 <= i < n
    ensures |s| == n
  {
    if n == 0 then {} else Below(n - 1) + {n - 1}
  }

  lemma {:induction false} DistinctCount<T(!new)>(s: seq<T>)
    requires Injective(s)
    ensures |set x | x in s| == |s|
  {
    if s == [] {
    } else {
      var init, last := s[..|s| - 1], s[|s| - 1];
      DistinctCount(init);
      assert s == init + [last];
      assert (set x | x in s) == (set x | x in init) + {last};
    }
  }

  lemma PermutationOnto(p: seq<nat>, x: nat)
    requires Permutation(p) && x < |p|
    ensures x in p
  {
    if x !in p {
      var range := set y | y in p;
      DistinctCount(p);
      assert range <= Below(|p|) - {x};
      SubsetCount(range, Below(|p|) - {x});
      assert false;
    }
  }

  lemma {:induction false} SubsetCount<T>(a: set<T>, b: set<T>)
    requires a <= b
    ensures |a| <= |b|
    ensures |a| == |b| ==> a == b
  {
    if a == {} {
    } else {
      var x :| x in a;
      SubsetCount(a - {x}, b - {x});
    }
  }

  ghost function IndexOf<T(!new)>(s: seq<T>, x: T): (k: nat)
    requires x in s
    ensures k < |s| && s[k] == x
  {
    var k: nat :| k < |s| && s[k] == x;
    k
  }

  ghost function Inverse(p: seq<nat>): (q: seq<nat>)
    requires Permutation(p)
    ensures Inverses(p, q)
  {
    assert forall x | 0 <= x < |p| :: x in p by {
      forall x | 0 <= x < |p| ensures x in p { PermutationOnto(p, x); }
    }
    seq(|p|, i requires 0 <= i < |p| => IndexOf(p, i))
  }

  /** An ascending permutation lists every number at its own place. */
  lemma {:induction false} AscendingPermutation(p: seq<nat>, k: nat)
    requires Permutation(p) && (forall i, j :: 0 <= i < j < |p| ==> p[i] <= p[j])
    requires k < |p|
    ensures p[k] == k
  {
    AscendingAtLeast(p, k);
    AscendingAtMost(p, k);
  }

  lemma {:induction false} AscendingAtLeast(p: seq<nat>, k: nat)
    requires Permutation(p) && (forall i, j :: 0 <= i < j < |p| ==> p[i] <= p[j])
    requires k < |p|
    ensures p[k] >= k
  {
    if k > 0 {
      AscendingAtLeast(p, k - 1);
      assert p[k - 1] != p[k];
    }
  }

  lemma {:induction false} AscendingAtMost(p: seq<nat>, k: nat)
    requires Permutation(p) && (forall i, j :: 0 <= i < j < |p| ==> p[i] <= p[j])
    requires k < |p|
    ensures p[k] <= k
    decreases |p| - k
  {
    if k + 1 < |p| {
      AscendingAtMost(p, k + 1);
      assert p[k] != p[k + 1];
    }
  }

  // ---------------------------------------------------------------- reordering

  /** `t` is `s` read in the order `p`. */
  ghost predicate Reorders<T>(p: seq<nat>, s: seq<T>, t: seq<T>) {
    && |p| == |s| == |t|
    && Permutation(p)
    && forall i :: 0 <= i < |t| ==> t[i] == s[p[i]]
  }

  function Without<T>(s: seq<T>, k: nat): seq<T>
    requires k < |s|
  {
    s[..k] + s[k + 1..]
  }

  lemma MultisetWithout<T>(s: seq<T>, k: nat)
    requires k < |s|
    ensures multiset(s) == multiset(Without(s, k)) + multiset{s[k]}
  {
    assert s == s[..k] + [s[k]] + s[k + 1..];
  }

  /** A reordering of what is left after taking out `s[k]`, followed by `s[k]`. */
  lemma ReorderAppend<T>(p: seq<nat>, s: seq<T>, t: seq<T>, k: nat) returns (p': seq<nat>)
    requires k < |s| && Reorders(p, Without(s, k), t)
    ensures Reorders(p', s, t + [s[k]])
  {
    p' := seq(|p|, i requires 0 <= i < |p| => if p[i] < k then p[i] else p[i] + 1) + [k];
    forall i | 0 <= i < |t|
      ensures t[i] == s[p'[i]]
    {
      assert t[i] == Without(s, k)[p[i]];
    }
  }

  /** Sequences with the same elements are reorderings of each other. */
  lemma {:induction false} SameElementsReorder<T>(s: seq<T>, t: seq<T>) returns (p: seq<nat>)
    requires multiset(s) == multiset(t)
    ensures Reorders(p, s, t)
    decreases |t|
  {
    assert |multiset(s)| == |s|;
    if t == [] {
      p := [];
    } else {
      var last := |t| - 1;
      var k := Occurrence(s, t, last);
      MultisetWithout(s, k);
      MultisetWithout(t, last);
      assert Without(t, last) == t[..last];
      assert t[..last] + [t[last]] == t;
      MultisetCancel(multiset(Without(s, k)), multiset(t[..last]), t[last]);
      p := SameElementsReorder(Without(s, k), t[..last]);
      p := ReorderAppend(p, s, t[..last], k);
    }
  }

  lemma NextPrefix<T>(s: seq<T>, n: nat)
    requires n < |s|
    ensures s[..n + 1] == s[..n] + [s[n]]
  {
  }

  lemma CountAppended<T>(s: seq<T>, x: T, y: T)
    ensures multiset(s + [x])[y] == multiset(s)[y] + if x == y then 1 else 0
  {
    assert multiset(s + [x]) == multiset(s) + multiset{x};
  }

  lemma MultisetCancel<T>(a: multiset<T>, b: multiset<T>, x: T)
    requires a + multiset{x} == b + multiset{x}
    ensures a == b
  {
    assert a == a + multiset{x} - multiset{x};
    assert b == b + multiset{x} - multiset{x};
  }

  lemma Occurrence<T>(s: seq<T>, t: seq<T>, i: nat) returns (k: nat)
    requires multiset(s) == multiset(t) && i < |t|
    ensures k < |s| && s[k] == t[i]
  {
    assert t[i] in multiset(t);
    k :| k < |s| && s[k] == t[i];
  }

  /** Dropping the last element of the reordered sequence. */
  lemma ReorderDropLast<T>(p: seq<nat>, s: seq<T>, t: seq<T>) returns (p': seq<nat>)
    requires Reorders(p, s, t) && t != []
    ensures Reorders(p', Without(s, p[|t| - 1]), t[..|t| - 1])
  {
    var last := |t| - 1;
    var k := p[last];
    p' := seq(last, i requires 0 <= i < last => if p[i] < k then p[i] else p[i] - 1);
    forall i | 0 <= i < last
      ensures p'[i] < last && t[i] == Without(s, k)[p'[i]]
    {
      assert p[i] != p[last];
    }
    DropDistinct(p, p', last);
  }

  lemma DropDistinct(p: seq<nat>, p': seq<nat>, last: nat)
    requires |p| == last + 1 && Injective(p) && |p'| == last
    requires forall i :: 0 <= i < last ==> p'[i] == if p[i] < p[last] then p[i] else p[i] - 1
    ensures Injective(p')
  {
    forall i, j | 0 <= i < j < last
      ensures p'[i] != p'[j]
    {
      assert p[i] != p[j] && p[i] != p[last] && p[j] != p[last];
    }
  }

  /** Reading a sequence in another order conserves its elements. */
  lemma {:induction false} ReorderKeepsElements<T>(p: seq<nat>, s: seq<T>, t: seq<T>)
    requires Reorders(p, s, t)
    ensures multiset(s) == multiset(t)
    decreases |t|
  {
    if t == [] {
    } else {
      var last := |t| - 1;
      var p' := ReorderDropLast(p, s, t);
      ReorderKeepsElements(p', Without(s, p[last]), t[..last]);
      MultisetWithout(s, p[last]);
      assert t == t[..last] + [t[last]];
    }
  }

  // ---------------------------------------------------------------- sorting

  ghost predicate SortedBy<T>(s: seq<T>, key: T -> int) {
    forall i, j :: 0 <= i < j < |s| ==> key(s[i]) <= key(s[j])
  }

  /** The key of a number is itself. */
  function IndexKey(k: nat): int {
    k
  }

  /** Stable sort by an integer key. */
  function SortBy<T>(s: seq<T>, key: T -> int): (r: seq<T>)
    ensures SortedBy(r, key)
    ensures multiset(r) == multiset(s)
  {
    if s == [] then []
    else
      assert s == [s[0]] + s[1..];
      InsertBy(s[0], SortBy(s[1..], key), key)
  }

  function InsertBy<T>(x: T, s: seq<T>, key: T -> int): (r: seq<T>)
    requires SortedBy(s, key)
    ensures SortedBy(r, key)
    ensures multiset(r) == multiset(s) + multiset{x}
  {
    var k := Rank(x, s, key);
    InsertKeepsElements(x, s, k);
    Inserted(s, k, x)
  }

  lemma InsertFirst<T>(x: T, s: seq<T>, key: T -> int)
    requires SortedBy(s, key) && (s == [] || key(x) <= key(s[0]))
    ensures InsertBy(x, s, key) == [x] + s
  {
    assert Rank(x, s, key) == 0;
    assert s[..0] + [x] + s[0..] == [x] + s;
  }

  lemma InsertLater<T>(x: T, y: T, rest: seq<T>, key: T -> int)
    requires SortedBy([y] + rest, key) && SortedBy(rest, key) && key(y) < key(x)
    ensures InsertBy(x, [y] + rest, key) == [y] + InsertBy(x, rest, key)
  {
    var s := [y] + rest;
    assert s[1..] == rest;
    var k := Rank(x, rest, key);
    assert Rank(x, s, key) == k + 1;
    assert s[..k + 1] == [y] + rest[..k] && s[k + 1..] == rest[k..];
  }

  lemma SortCons<T>(x: T, rest: seq<T>, key: T -> int)
    ensures SortBy([x] + rest, key) == InsertBy(x, SortBy(rest, key), key)
  {
    assert ([x] + rest)[1..] == rest;
  }

  /** Sorting what is already sorted changes nothing. */
  lemma {:induction false} SortSorted<T>(s: seq<T>, key: T -> int)
    requires SortedBy(s, key)
    ensures SortBy(s, key) == s
  {
    if s != [] {
      assert s == [s[0]] + s[1..];
      SortSorted(s[1..], key);
    }
  }

  lemma InsertKeepsElements<T>(x: T, s: seq<T>, k: nat)
    requires k <= |s|
    ensures multiset(s[..k] + [x] + s[k..]) == multiset(s) + multiset{x}
  {
    var r := s[..k] + [x] + s[k..];
    MultisetWithout(r, k);
    assert Without(r, k) == s;
  }

  /** Elements with equal keys are in the order of their places in `p`. */
  ghost predicate IsStable<T>(p: seq<nat>, t: seq<T>, key: T -> int) {
    |p| == |t| && forall i, j :: 0 <= i < j < |t| && key(t[i]) == key(t[j]) ==> p[i] < p[j]
  }

  /** Sorting reorders, and leaves what has equal keys in its order. */
  lemma {:induction false} StableSort<T>(s: seq<T>, key: T -> int) returns (p: seq<nat>)
    ensures Reorders(p, s, SortBy(s, key)) && IsStable(p, SortBy(s, key), key)
  {
    if s == [] {
      p := [];
    } else {
      var x, rest := s[0], s[1..];
      assert s == [x] + rest;
      p := StableSort(rest, key);
      SortCons(x, rest, key);
      p := StableInsert(x, rest, SortBy(rest, key), key, p);
    }
  }

  lemma StableInsert<T>(x: T, s: seq<T>, t: seq<T>, key: T -> int, q: seq<nat>) returns (p: seq<nat>)
    requires SortedBy(t, key) && Reorders(q, s, t) && IsStable(q, t, key)
    ensures Reorders(p, [x] + s, InsertBy(x, t, key)) && IsStable(p, InsertBy(x, t, key), key)
  {
    var k := Rank(x, t, key);
    var later := seq(|q|, i requires 0 <= i < |q| => q[i] + 1);
    p := Inserted(later, k, 0);
    InsertedPlaces(q, later, k);
    InsertedInOrder(x, s, t, q, later, k);
    InsertedStable(x, t, key, later, k);
  }

  function Inserted<T>(s: seq<T>, k: nat, x: T): (r: seq<T>)
    requires k <= |s|
    ensures |r| == |s| + 1
    ensures forall i :: 0 <= i < |r| ==> r[i] == if i < k then s[i] else if i == k then x else s[i - 1]
  {
    s[..k] + [x] + s[k..]
  }

  lemma InsertedStable<T>(x: T, t: seq<T>, key: T -> int, later: seq<nat>, k: nat)
    requires SortedBy(t, key) && IsStable(later, t, key) && k == Rank(x, t, key) && (forall i :: 0 <= i < |later| ==> 0 < later[i])
    ensures IsStable(Inserted(later, k, 0), Inserted(t, k, x), key)
  {
    var p, r := Inserted(later, k, 0), Inserted(t, k, x);
    forall i, j | 0 <= i < j < |r| && key(r[i]) == key(r[j])
      ensures p[i] < p[j]
    {
      if i < k {
        assert r[i] == t[i] && key(t[i]) < key(x);
        assert j < k;
      } else if i > k {
        assert r[i] == t[i - 1] && r[j] == t[j - 1];
      }
    }
  }

  lemma InsertedPlaces(q: seq<nat>, later: seq<nat>, k: nat)
    requires Permutation(q) && k <= |q| == |later| && forall i :: 0 <= i < |q| ==> later[i] == q[i] + 1
    ensures Permutation(Inserted(later, k, 0))
  {
    var p := Inserted(later, k, 0);
    forall i, j | 0 <= i < j < |p|
      ensures p[i] != p[j]
    {
      if i != k && j != k {
        var a, b := if i < k then i else i - 1, if j < k then j else j - 1;
        assert q[a] != q[b];
      }
    }
  }

  lemma InsertedInOrder<T>(x: T, s: seq<T>, t: seq<T>, q: seq<nat>, later: seq<nat>, k: nat)
    requires Reorders(q, s, t) && k <= |q| == |later| && forall i :: 0 <= i < |q| ==> later[i] == q[i] + 1
    ensures forall i :: 0 <= i <= |t| ==> Inserted(later, k, 0)[i] <= |s| && Inserted(t, k, x)[i] == ([x] + s)[Inserted(later, k, 0)[i]]
  {
  }

  /** How many elements of the sorted `s` come before `x`. */
  function Rank<T>(x: T, s: seq<T>, key: T -> int): (k: nat)
    requires SortedBy(s, key)
    ensures k <= |s|
    ensures forall i :: 0 <= i < k ==> key(s[i]) < key(x)
    ensures forall i :: k <= i < |s| ==> key(x) <= key(s[i])
  {
    if s == [] || key(x) <= key(s[0]) then 0 else
      var k := Rank(x, s[1..], key);
      assert forall i :: 1 <= i < |s| ==> s[i] == s[1..][i - 1];
      1 + k
  }

  lemma HasMember<T>(s: seq<T>)
    ensures s == [] || exists x :: x in s
  {
    if s != [] {
      assert s[0] in s;
    }
  }

  // ---------------------------------------------------------------- ordered sets

  ghost predicate Ascending(s: seq<nat>) {
    forall i, j :: 0 <= i < j < |s| ==> s[i] < s[j]
  }

  ghost predicate IsLeast(m: nat, s: set<nat>) {
    m in s && forall x :: x in s ==> m <= x
  }

  lemma {:induction false} LeastElement(s: set<nat>) returns (m: nat)
    requires s != {}
    ensures IsLeast(m, s)
  {
    var y :| y in s;
    if s == {y} {
      m := y;
    } else {
      var m' := LeastElement(s - {y});
      m := if y < m' then y else m';
      forall x | x in s
        ensures m <= x
      {
        assert x == y || x in s - {y};
      }
    }
  }

  lemma HasLeast(s: set<nat>)
    requires s != {}
    ensures exists m :: m in s && forall x :: x in s ==> m <= x
  {
    var m := LeastElement(s);
    assert m in s && forall x :: x in s ==> m <= x;
  }

  function Least(s: set<nat>): (m: nat)
    requires s != {}
    ensures m in s && forall x :: x in s ==> m <= x
  {
    HasLeast(s);
    var m :| m in s && forall x :: x in s ==> m <= x;
    m
  }

  /** The elements in ascending order, as an ordered map or set is iterated. */
  function SortedSet(s: set<nat>): (r: seq<nat>)
    ensures Ascending(r) && |r| == |s|
    ensures forall x :: x in r <==> x in s
  {
    if s == {} then []
    else
      var m := Least(s);
      [m] + SortedSet(s - {m})
  }

  /** There is only one ascending list of a set. */
  lemma {:induction false} AscendingUnique(a: seq<nat>, b: seq<nat>)
    requires Ascending(a) && Ascending(b) && forall x :: x in a <==> x in b
    ensures a == b
  {
    assert a != [] ==> a[0] in a;
    assert b != [] ==> b[0] in b;
    if a != [] && b != [] {
      assert a[0] == b[0];
      forall x
        ensures x in a[1..] <==> x in b[1..]
      {
        assert x in a <==> x == a[0] || x in a[1..];
        assert x in b <==> x == b[0] || x in b[1..];
        assert a[0] !in a[1..] && b[0] !in b[1..];
      }
      AscendingUnique(a[1..], b[1..]);
    }
  }

  /** Index of the first element that satisfies `p`. */
  function Position<T>(s: seq<T>, p: T -> bool): (r: Option<nat>)
    ensures r.Some? ==> r.value < |s| && p(s[r.value]) && forall i :: 0 <= i < r.value ==> !p(s[i])
    ensures r.None? ==> forall i :: 0 <= i < |s| ==> !p(s[i])
  {
    if s == [] then None
    else if p(s[0]) then Some(0)
    else
      match Position(s[1..], p)
      case None => None
      case Some(k) => Some(k + 1)
  }

  /** Distinct indices come out of sorting in ascending order. */
  lemma DistinctIndices(indices: seq<nat>)
    ensures forall k :: k in SortBy(indices, IndexKey) <==> k in indices
    ensures Injective(indices) ==> Ascending(SortBy(indices, IndexKey))
  {
    var r := SortBy(indices, IndexKey);
    SameMembers(r, indices);
    if Injective(indices) {
      var p := SameElementsReorder(indices, r);
      DistinctReorder(p, indices, r);
      DistinctAscend(r);
    }
  }

  lemma SameMembers<T>(s: seq<T>, t: seq<T>)
    requires multiset(s) == multiset(t)
    ensures forall x :: x in s <==> x in t
  {
    assert forall x :: x in s <==> x in multiset(s);
    assert forall x :: x in t <==> x in multiset(t);
  }

  lemma DistinctReorder<T(!new)>(p: seq<nat>, s: seq<T>, t: seq<T>)
    requires Reorders(p, s, t) && Injective(s)
    ensures Injective(t)
  {
    forall i, j | 0 <= i < j < |t|
      ensures t[i] != t[j]
    {
      var k, l := if p[i] < p[j] then p[i] else p[j], if p[i] < p[j] then p[j] else p[i];
      assert s[k] != s[l];
    }
  }

  lemma DistinctAscend(r: seq<nat>)
    requires SortedBy(r, IndexKey) && Injective(r)
    ensures Ascending(r)
  {
    forall i, j | 0 <= i < j < |r|
      ensures r[i] < r[j]
    {
      assert IndexKey(r[i]) <= IndexKey(r[j]);
    }
  }
}

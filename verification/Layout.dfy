/** Buffers that hold fixed-width chunks in two nested orders. */
module Layout {
  import opened Collections
  import opened Grid

  /** Where chunk (outer, inner) starts when `inners` chunks of width `w` follow each
      other for every outer index. */
  function Offset(outer: nat, inner: nat, inners: nat, w: nat): nat {
    (outer * inners + inner) * w
  }

  function Chunk<T>(s: seq<T>, at: nat, w: nat): (r: seq<T>)
    requires at + w <= |s|
  {
    s[at..at + w]
  }

  lemma CellInRange(outer: nat, inner: nat, outers: nat, inners: nat)
    requires outer < outers && inner < inners
    ensures outer * inners + inner + 1 <= outers * inners
  {
    assert (outer + 1) * inners <= outers * inners;
  }

  lemma CellUnique(outer: nat, inner: nat, outer': nat, inner': nat, inners: nat)
    requires inner < inners && inner' < inners
    requires outer * inners + inner == outer' * inners + inner'
    ensures outer == outer' && inner == inner'
  {
    if outer < outer' {
      CellInRange(outer, inner, outer', inners);
    } else if outer' < outer {
      CellInRange(outer', inner', outer, inners);
    }
  }

  lemma OffsetInRange(outer: nat, inner: nat, outers: nat, inners: nat, w: nat)
    requires outer < outers && inner < inners
    ensures Offset(outer, inner, inners, w) + w <= outers * inners * w
  {
    CellInRange(outer, inner, outers, inners);
    Scale(outer * inners + inner + 1, outers * inners, w);
    assert (outer * inners + inner + 1) * w == Offset(outer, inner, inners, w) + w;
  }

  /** Different chunks do not overlap. */
  lemma OffsetsApart(outer: nat, inner: nat, outer': nat, inner': nat, inners: nat, w: nat)
    requires inner < inners && inner' < inners && !(outer == outer' && inner == inner')
    ensures Offset(outer, inner, inners, w) + w <= Offset(outer', inner', inners, w)
         || Offset(outer', inner', inners, w) + w <= Offset(outer, inner, inners, w)
  {
    var x, y := outer * inners + inner, outer' * inners + inner';
    if x == y {
      CellUnique(outer, inner, outer', inner', inners);
    }
    if x < y {
      Scale(x + 1, y, w);
      assert (x + 1) * w == x * w + w;
    } else {
      Scale(y + 1, x, w);
      assert (y + 1) * w == y * w + w;
    }
  }

  /** Every cell of the buffer lies in exactly one chunk. */
  lemma OffsetOnto(k: nat, outers: nat, inners: nat, w: nat) returns (outer: nat, inner: nat, r: nat)
    requires k < outers * inners * w
    ensures outer < outers && inner < inners && r < w && k == Offset(outer, inner, inners, w) + r
  {
    var cell: nat;
    cell, r := Quotient(k, outers * inners, w);
    outer, inner := Quotient(cell, outers, inners);
  }

  lemma Quotient(k: nat, m: nat, n: nat) returns (d: nat, r: nat)
    requires k < m * n
    ensures d < m && r < n && k == d * n + r
  {
    assert n == 0 ==> m * n == 0;
    d, r := k / n, k % n;
    if d >= m {
      Scale(m, d, n);
    }
  }

  // ---------------------------------------------------------------- exchanging the two orders

  /** `t` holds the chunks of `s` with the roles of the two indices exchanged. */
  ghost predicate Transposed<T>(s: seq<T>, t: seq<T>, outers: nat, inners: nat, w: nat) {
    && |s| == |t| == outers * inners * w
    && forall o, i :: 0 <= o < outers && 0 <= i < inners ==> ChunkMoved(s, t, o, i, outers, inners, w)
  }

  ghost predicate ChunkMoved<T>(s: seq<T>, t: seq<T>, o: nat, i: nat, outers: nat, inners: nat, w: nat) {
    && Offset(o, i, inners, w) + w <= |s|
    && Offset(i, o, outers, w) + w <= |t|
    && Chunk(t, Offset(i, o, outers, w), w) == Chunk(s, Offset(o, i, inners, w), w)
  }

  /** Exchanging twice gives back the buffer. */
  lemma TransposeTwice<T>(s: seq<T>, t: seq<T>, u: seq<T>, outers: nat, inners: nat, w: nat)
    requires Transposed(s, t, outers, inners, w) && Transposed(t, u, inners, outers, w)
    ensures u == s
  {
    assert |u| == inners * outers * w == outers * inners * w;
    forall k | 0 <= k < |s|
      ensures u[k] == s[k]
    {
      var o, i, r := OffsetOnto(k, outers, inners, w);
      assert ChunkMoved(s, t, o, i, outers, inners, w) && ChunkMoved(t, u, i, o, inners, outers, w);
      var at := Offset(o, i, inners, w);
      assert Chunk(s, at, w) == Chunk(u, at, w);
      assert s[k] == Chunk(s, at, w)[r] && u[k] == Chunk(u, at, w)[r];
    }
  }

  /** Two buffers that are exchanges of the same one are equal. */
  lemma TransposeUnique<T>(s: seq<T>, t: seq<T>, u: seq<T>, outers: nat, inners: nat, w: nat)
    requires Transposed(s, t, outers, inners, w) && Transposed(s, u, outers, inners, w)
    ensures t == u
  {
    forall k | 0 <= k < |t|
      ensures t[k] == u[k]
    {
      assert inners * outers * w == outers * inners * w;
      var i, o, r := OffsetOnto(k, inners, outers, w);
      assert ChunkMoved(s, t, o, i, outers, inners, w) && ChunkMoved(s, u, o, i, outers, inners, w);
      assert t[k] == Chunk(t, Offset(i, o, outers, w), w)[r] == Chunk(u, Offset(i, o, outers, w), w)[r];
    }
  }

  /** Cell `k` of the exchanged buffer comes from cell `c`. */
  ghost predicate Moves(k: nat, c: nat, o: nat, i: nat, r: nat, outers: nat, inners: nat, w: nat) {
    && o < outers && i < inners && r < w
    && k == Offset(i, o, outers, w) + r
    && c == Offset(o, i, inners, w) + r
  }

  lemma SourceExists(k: nat, outers: nat, inners: nat, w: nat) returns (c: nat, o: nat, i: nat, r: nat)
    requires k < outers * inners * w
    ensures c < outers * inners * w && Moves(k, c, o, i, r, outers, inners, w)
  {
    assert inners * outers * w == outers * inners * w;
    i, o, r := OffsetOnto(k, inners, outers, w);
    OffsetInRange(o, i, outers, inners, w);
    c := Offset(o, i, inners, w) + r;
  }

  ghost predicate IsSource(k: nat, c: nat, outers: nat, inners: nat, w: nat) {
    exists o: nat, i: nat, r: nat :: Moves(k, c, o, i, r, outers, inners, w)
  }

  lemma SourcesDistinct(k: nat, k': nat, c: nat, outers: nat, inners: nat, w: nat)
    requires IsSource(k, c, outers, inners, w) && IsSource(k', c, outers, inners, w)
    ensures k == k'
  {
    var o: nat, i: nat, r: nat :| Moves(k, c, o, i, r, outers, inners, w);
    var o': nat, i': nat, r': nat :| Moves(k', c, o', i', r', outers, inners, w);
    if !(o == o' && i == i') {
      OffsetsApart(o, i, o', i', inners, w);
    }
  }

  lemma SourceMap(n: nat, outers: nat, inners: nat, w: nat) returns (p: seq<nat>)
    requires n <= outers * inners * w
    ensures |p| == n
    ensures forall k :: 0 <= k < n ==> p[k] < outers * inners * w && IsSource(k, p[k], outers, inners, w)
  {
    p := [];
    while |p| < n
      invariant |p| <= n
      invariant forall k :: 0 <= k < |p| ==> p[k] < outers * inners * w && IsSource(k, p[k], outers, inners, w)
    {
      var c, o, i, r := SourceExists(|p|, outers, inners, w);
      p := p + [c];
    }
  }

  /** Exchanging moves every cell to a place of its own, so the contents are conserved. */
  lemma TransposeKeepsElements<T>(s: seq<T>, t: seq<T>, outers: nat, inners: nat, w: nat)
    requires Transposed(s, t, outers, inners, w)
    ensures multiset(s) == multiset(t)
  {
    var p := SourceMap(|t|, outers, inners, w);
    forall k | 0 <= k < |t|
      ensures t[k] == s[p[k]]
    {
      var o: nat, i: nat, r: nat :| Moves(k, p[k], o, i, r, outers, inners, w);
      assert ChunkMoved(s, t, o, i, outers, inners, w);
      assert t[k] == Chunk(t, Offset(i, o, outers, w), w)[r] == Chunk(s, Offset(o, i, inners, w), w)[r];
    }
    forall j, k | 0 <= j < k < |p|
      ensures p[j] != p[k]
    {
      if p[j] == p[k] {
        SourcesDistinct(j, k, p[j], outers, inners, w);
      }
    }
    ReorderKeepsElements(p, s, t);
  }
}

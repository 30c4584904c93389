/** Flat buffers of a batched tensor.  Batch entry `b` of a buffer whose
  * entries have `len` elements is the slab `[b * len, (b + 1) * len)`. */
module Blocks {
  import opened Shapes

  /** A freshly allocated buffer: `n` zeros. */
  function ZeroBuffer(n: nat): (r: seq<real>)
    ensures |r| == n && forall i :: 0 <= i < n ==> r[i] == 0.0
  {
    seq(n, _ => 0.0)
  }

  /** Batch entry `b` of a buffer. */
  function Slab(s: seq<real>, b: int, len: int): (r: seq<real>)
    requires 0 <= b && 0 <= len && (b + 1) * len <= |s|
    ensures |r| == len
    ensures forall j :: 0 <= j < len ==> r[j] == s[b * len + j]
  {
    s[b * len .. (b + 1) * len]
  }

  /** Slab `b` is the slice of `len` elements from `base = b * len`. */
  lemma SlabAt(s: seq<real>, b: int, len: int, base: int)
    requires 0 <= b && 0 <= len && base == b * len && base + len <= |s|
    ensures (b + 1) * len <= |s| && Slab(s, b, len) == s[base .. base + len]
  {
    assert (b + 1) * len == base + len;
  }

  /** Slab `b` of a buffer with `n` entries of `len` elements lies inside it. */
  lemma SlabInside(b: int, n: int, len: int)
    requires 0 <= b < n && 0 <= len
    ensures 0 <= b * len && (b + 1) * len <= n * len
    ensures b * len + len == (b + 1) * len && n * len == len * n
  {
    assert (b + 1) * len <= n * len by {
      assert n * len - (b + 1) * len == (n - b - 1) * len;
    }
  }

  /** Element `o` of slab `b` lies inside the buffer. */
  lemma InSlab(b: int, n: int, len: int, o: int)
    requires 0 <= b < n && 0 <= o < len
    ensures 0 <= b * len + o < n * len && n * len == len * n
  {
    SlabInside(b, n, len);
  }

  /** Slabs of lower batch entries end before slabs of higher ones begin. */
  lemma SlabOrder(c: int, b: int, len: int)
    requires 0 <= c < b && 0 <= len
    ensures c * len + len <= b * len
  {
    assert b * len - c * len == (b - c - 1) * len + len;
    assert (b - c - 1) * len >= 0;
  }

  /** Writing one element of slab `b` changes that element of slab `b`. */
  lemma SlabUpdateSame(s: seq<real>, len: int, b: int, j: int, t: int, v: real)
    requires 0 <= len && 0 <= b && 0 <= j < len && (b + 1) * len <= |s| && t == b * len + j
    ensures Slab(s[t := v], b, len) == Slab(s, b, len)[j := v]
  {
  }

  /** Writing one element of slab `b` leaves slab `c` as it was. */
  lemma SlabUpdateOther(s: seq<real>, len: int, b: int, j: int, t: int, v: real, c: int)
    requires 0 <= len && 0 <= b && 0 <= c && b != c && 0 <= j < len && t == b * len + j
    requires (b + 1) * len <= |s| && (c + 1) * len <= |s|
    ensures Slab(s[t := v], c, len) == Slab(s, c, len)
  {
    if c < b {
      SlabOrder(c, b, len);
    } else {
      SlabOrder(b, c, len);
    }
    var t := s[b * len + j := v];
    forall k | 0 <= k < len ensures Slab(t, c, len)[k] == Slab(s, c, len)[k] {
      assert c * len + k != b * len + j;
    }
  }

  /** A buffer that differs from another only inside slab `b` has the same
    * slab `c` for every other `c`. */
  lemma SlabKeep(s: seq<real>, s': seq<real>, len: int, b: int, c: int)
    requires 0 <= len && 0 <= b && 0 <= c && b != c && |s'| == |s|
    requires (b + 1) * len <= |s| && (c + 1) * len <= |s|
    requires forall k :: 0 <= k < |s| && !(b * len <= k < b * len + len) ==> s'[k] == s[k]
    ensures Slab(s', c, len) == Slab(s, c, len)
  {
    if c < b {
      SlabOrder(c, b, len);
    } else {
      SlabOrder(b, c, len);
    }
    forall k | 0 <= k < len ensures Slab(s', c, len)[k] == Slab(s, c, len)[k] {
      assert !(b * len <= c * len + k < b * len + len);
    }
  }

  /** Writing one element of slab `b` changes that element of slab `b` and
    * leaves every other slab as it was. */
  lemma SlabUpdate(s: seq<real>, n: int, len: int, b: int, j: int, t: int, v: real, c: int)
    requires |s| == n * len && 0 <= len && 0 <= b < n && 0 <= j < len && 0 <= c < n && t == b * len + j
    requires (b + 1) * len <= |s| && (c + 1) * len <= |s|
    ensures Slab(s[t := v], c, len)
        == if c == b then Slab(s, b, len)[j := v] else Slab(s, c, len)
  {
    if c == b {
      SlabUpdateSame(s, len, b, j, t, v);
    } else {
      SlabUpdateOther(s, len, b, j, t, v, c);
    }
  }

  /** Adding element `i` of slab `bb` of `src` to element `o` of slab `bb`
    * of `dst` updates that one element of the slab. */
  lemma SlabAdd(dst: seq<real>, src: seq<real>, n: int, len: int, rlen: int, bb: int, i: int, o: int,
                t: int, k: int)
    requires 0 <= bb < n && 0 <= i < len && 0 <= o < rlen
    requires |src| == n * len && |dst| == n * rlen
    requires t == bb * rlen + o && k == bb * len + i
    ensures 0 <= k < |src| && 0 <= t < |dst|
    ensures (bb + 1) * len <= |src| && (bb + 1) * rlen <= |dst|
    ensures Slab(dst[t := dst[t] + src[k]], bb, rlen)
         == Slab(dst, bb, rlen)[o := Slab(dst, bb, rlen)[o] + Slab(src, bb, len)[i]]
  {
    InSlab(bb, n, len, i);
    InSlab(bb, n, rlen, o);
    SlabInside(bb, n, len);
    SlabInside(bb, n, rlen);
    SlabUpdateSame(dst, rlen, bb, o, t, dst[t] + src[k]);
  }

  /** Batch entries of `len` elements each, taken from the front of every
    * sequence of `xs`, laid out one after the other. */
  function Stack(xs: seq<seq<real>>, len: int): (r: seq<real>)
    requires len >= 0 && forall k :: 0 <= k < |xs| ==> |xs[k]| >= len
    ensures |r| == len * |xs|
  {
    if |xs| == 0 then []
    else Stack(xs[..|xs| - 1], len) + xs[|xs| - 1][..len]
  }

  /** Slab `i` of a stack is the front of its `i`-th sequence. */
  lemma {:induction false} StackSlab(xs: seq<seq<real>>, len: int, i: int)
    requires len >= 0 && forall k :: 0 <= k < |xs| ==> |xs[k]| >= len
    requires 0 <= i < |xs|
    ensures 0 <= i * len && (i + 1) * len <= |Stack(xs, len)|
    ensures Slab(Stack(xs, len), i, len) == xs[i][..len]
  {
    SlabInside(i, |xs|, len);
    var n := |xs| - 1;
    var init := xs[..n];
    assert Stack(xs, len) == Stack(init, len) + xs[n][..len];
    if i < n {
      StackSlab(init, len, i);
      SlabInside(i, n, len);
      forall j | 0 <= j < len ensures Slab(Stack(xs, len), i, len)[j] == xs[i][j] {
        assert Slab(Stack(init, len), i, len)[j] == init[i][j];
      }
    } else {
      forall j | 0 <= j < len ensures Slab(Stack(xs, len), i, len)[j] == xs[i][j] {
        assert i * len + j - |Stack(init, len)| == j;
      }
    }
  }

  /** Element `j` of equal slabs `b`. */
  lemma SlabsAgreeAt(s: seq<real>, t: seq<real>, b: int, len: int, j: int)
    requires 0 <= b && 0 <= j < len && (b + 1) * len <= |s| && (b + 1) * len <= |t|
    requires Slab(s, b, len) == Slab(t, b, len)
    ensures 0 <= b * len + j < |s| && s[b * len + j] == t[b * len + j]
  {
    assert Slab(s, b, len)[j] == Slab(t, b, len)[j];
  }

  /** Offset `x` of a buffer of `n` entries of `len` elements is element `j`
    * of entry `b`. */
  lemma Locate(x: int, n: int, len: int) returns (b: int, j: int)
    requires 0 <= n && 0 <= len && 0 <= x < n * len
    ensures 0 <= b < n && 0 <= j < len && x == b * len + j && (b + 1) * len <= n * len
  {
    assert len > 0;
    DivSplit(x, len);
    DivBelow(x, n, len);
    b, j := x / len, x % len;
    SlabInside(b, n, len);
  }

  /** Two buffers of `n` entries of `len` elements that agree entry by
    * entry are equal. */
  lemma SlabsEqual(s: seq<real>, t: seq<real>, n: int, len: int)
    requires 0 <= n && 0 <= len && |s| == n * len && |t| == n * len
    requires forall b :: 0 <= b < n ==> (b + 1) * len <= |s| && Slab(s, b, len) == Slab(t, b, len)
    ensures s == t
  {
    forall x | 0 <= x < |s|
      ensures s[x] == t[x]
    {
      var b, j := Locate(x, n, len);
      SlabsAgreeAt(s, t, b, len, j);
    }
  }
}

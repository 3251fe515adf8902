/**
 Copying between two vectors of memory buffers. Memory is one array of bytes, a buffer is
 a range of addresses, and a vector has a cursor: the current buffer and an offset in it.
 */
module BufCopy {
  type Byte = b: int | 0 <= b < 256

  /** `struct fuse_buf` without flags, file descriptor and position */
  datatype Buf = Buf(size: nat, mem: nat)

  /** `struct fuse_bufvec`, as a value */
  datatype Vec = Vec(bufs: seq<Buf>, idx: nat, off: nat)

  /** All buffers lie in memory, and the cursor is in its buffer. */
  ghost predicate VecOk(v: Vec, top: nat) {
    && v.idx <= |v.bufs|
    && (v.idx < |v.bufs| ==> v.off <= v.bufs[v.idx].size)
    && (forall i :: 0 <= i < |v.bufs| ==> v.bufs[i].mem + v.bufs[i].size <= top)
  }

  function Range(a: nat, n: nat): seq<nat> {
    seq(n, i requires 0 <= i < n => a + i)
  }

  /** The addresses of the buffers from the `i`-th on. */
  function AddressesFrom(bufs: seq<Buf>, i: nat): seq<nat>
    decreases |bufs| - i
  {
    if i >= |bufs| then [] else Range(bufs[i].mem, bufs[i].size) + AddressesFrom(bufs, i + 1)
  }

  /** The addresses that are left behind the cursor. */
  function Addresses(v: Vec): seq<nat>
    requires v.idx < |v.bufs| ==> v.off <= v.bufs[v.idx].size
  {
    if v.idx >= |v.bufs| then []
    else Range(v.bufs[v.idx].mem + v.off, v.bufs[v.idx].size - v.off) + AddressesFrom(v.bufs, v.idx + 1)
  }

  /** `fuse_bufvec_advance`; at the end of the vector the offset stays. */
  function Advanced(v: Vec, len: nat): (bool, Vec)
    requires v.idx < |v.bufs| && v.off + len <= v.bufs[v.idx].size
  {
    if v.off + len < v.bufs[v.idx].size then (true, v.(off := v.off + len))
    else if v.idx + 1 == |v.bufs| then (false, v.(idx := v.idx + 1, off := v.off + len))
    else (true, v.(idx := v.idx + 1, off := 0))
  }

  /** `len` bytes at `s` are moved to `d`, which may overlap. */
  function Move(m: seq<Byte>, d: nat, s: nat, len: nat): (r: seq<Byte>)
    requires d + len <= |m| && s + len <= |m|
    ensures |r| == |m|
  {
    m[..d] + m[s..s + len] + m[d + len..]
  }

  function Min(a: nat, b: nat): nat {
    if a < b then a else b
  }

  /**
   What a copy leaves: memory, the cursors, the bytes copied, and the bytes by which the
   destination's cursor lags.
   */
  datatype Copied = Copied(m: seq<Byte>, dst: Vec, src: Vec, n: nat, lag: nat)

  /** The length of the next piece that lies in one buffer on either side. */
  function Piece(dst: Vec, src: Vec): nat
    requires src.idx < |src.bufs| && src.off <= src.bufs[src.idx].size
    requires dst.idx < |dst.bufs| && dst.off <= dst.bufs[dst.idx].size
  {
    Min(src.bufs[src.idx].size - src.off, dst.bufs[dst.idx].size - dst.off)
  }

  /** The loop of `fuse_buf_copy`, for memory buffers, piece by piece. */
  function Copy(m: seq<Byte>, dst: Vec, src: Vec): (r: Copied)
    requires VecOk(dst, |m|) && VecOk(src, |m|)
    ensures |r.m| == |m| && VecOk(r.dst, |m|) && VecOk(r.src, |m|)
    decreases |dst.bufs| - dst.idx + |src.bufs| - src.idx
  {
    if src.idx == |src.bufs| || dst.idx == |dst.bufs| then Copied(m, dst, src, 0, 0)
    else
      var len := Piece(dst, src);
      var m1 := Move(m, dst.bufs[dst.idx].mem + dst.off, src.bufs[src.idx].mem + src.off, len);
      var (more, src1) := Advanced(src, len);
      if !more then Copied(m1, dst, src1, len, len)
      else
        var (room, dst1) := Advanced(dst, len);
        if !room then Copied(m1, dst1, src1, len, 0)
        else
          var r := Copy(m1, dst1, src1);
          r.(n := len + r.n)
  }

  lemma RangeSplit(a: nat, n: nat, k: nat)
    requires k <= n
    ensures Range(a, n) == Range(a, k) + Range(a + k, n - k)
  {
  }

  lemma RangeHas(a: nat, n: nat, x: nat)
    ensures x in Range(a, n) <==> a <= x < a + n
  {
    if a <= x < a + n {
      assert Range(a, n)[x - a] == x;
    }
  }

  /** Advancing drops the addresses that were passed. */
  lemma AdvanceDrops(v: Vec, len: nat, top: nat)
    requires VecOk(v, top) && v.idx < |v.bufs| && v.off + len <= v.bufs[v.idx].size
    ensures var (more, v1) := Advanced(v, len);
            && VecOk(v1, top) && v1.bufs == v.bufs && (more <==> v1.idx < |v1.bufs|)
            && Addresses(v) == Range(v.bufs[v.idx].mem + v.off, len) + Addresses(v1)
  {
    var b := v.bufs[v.idx];
    RangeSplit(b.mem + v.off, b.size - v.off, len);
    if v.off + len == b.size && v.idx + 1 < |v.bufs| {
      assert Range(b.mem + v.off + len, 0) == [];
      var next := v.bufs[v.idx + 1];
      assert Range(next.mem + 0, next.size - 0) == Range(next.mem, next.size);
    }
  }

  lemma NoAddresses(v: Vec)
    requires v.idx == |v.bufs|
    ensures Addresses(v) == []
  {
  }

  lemma RangeLength(a: nat, n: nat)
    ensures |Range(a, n)| == n
  {
  }

  lemma DropConcat(a: seq<nat>, b: seq<nat>, k: nat)
    requires k <= |b|
    ensures (a + b)[|a| + k..] == b[k..]
  {
  }

  lemma CopyEnds(m: seq<Byte>, dst: Vec, src: Vec)
    requires VecOk(dst, |m|) && VecOk(src, |m|)
    ensures src.idx == |src.bufs| || dst.idx == |dst.bufs| ==> Copy(m, dst, src) == Copied(m, dst, src, 0, 0)
  {
  }

  /** The copy that begins with a piece of `len` bytes. */
  function CopyFrom(m: seq<Byte>, dst: Vec, src: Vec, len: nat): Copied
    requires VecOk(dst, |m|) && VecOk(src, |m|) && src.idx < |src.bufs| && dst.idx < |dst.bufs|
    requires src.off + len <= src.bufs[src.idx].size && dst.off + len <= dst.bufs[dst.idx].size
    requires VecOk(Advanced(dst, len).1, |m|) && VecOk(Advanced(src, len).1, |m|)
  {
    var m1 := Move(m, dst.bufs[dst.idx].mem + dst.off, src.bufs[src.idx].mem + src.off, len);
    if !Advanced(src, len).0 then Copied(m1, dst, Advanced(src, len).1, len, len)
    else if !Advanced(dst, len).0 then Copied(m1, Advanced(dst, len).1, Advanced(src, len).1, len, 0)
    else var r := Copy(m1, Advanced(dst, len).1, Advanced(src, len).1); r.(n := len + r.n)
  }

  /** One turn of the loop. */
  lemma CopyStep(m: seq<Byte>, dst: Vec, src: Vec)
    requires VecOk(dst, |m|) && VecOk(src, |m|) && src.idx < |src.bufs| && dst.idx < |dst.bufs|
    ensures var len := Piece(dst, src);
            && VecOk(Advanced(dst, len).1, |m|) && VecOk(Advanced(src, len).1, |m|)
            && Copy(m, dst, src) == CopyFrom(m, dst, src, len)
  {
    AdvanceDrops(src, Piece(dst, src), |m|);
    AdvanceDrops(dst, Piece(dst, src), |m|);
    hide VecOk;
  }

  lemma PieceEnds(dst: Vec, src: Vec)
    requires src.idx < |src.bufs| && src.off <= src.bufs[src.idx].size
    requires dst.idx < |dst.bufs| && dst.off <= dst.bufs[dst.idx].size
    ensures var len := Piece(dst, src);
            && Advanced(dst, len).1.bufs == dst.bufs && Advanced(src, len).1.bufs == src.bufs
            && Advanced(dst, len).1.idx + Advanced(src, len).1.idx > dst.idx + src.idx
  {
  }

  /** The bytes copied are the bytes that are left in the shorter vector, and the source's cursor moves by as much. */
  lemma {:induction false} CopiesAll(m: seq<Byte>, dst: Vec, src: Vec)
    requires VecOk(dst, |m|) && VecOk(src, |m|)
    ensures var r, n := Copy(m, dst, src), Min(|Addresses(dst)|, |Addresses(src)|);
            && r.n == n && Addresses(r.src) == Addresses(src)[n..] && r.lag <= n
                   && Addresses(r.dst) == Addresses(dst)[n - r.lag..]
    decreases |dst.bufs| - dst.idx + |src.bufs| - src.idx
  {
    hide Copy, Move, Addresses, Advanced, Range;
    if src.idx == |src.bufs| {
      CopyEnds(m, dst, src);
      NoAddresses(src);
    } else if dst.idx == |dst.bufs| {
      CopyEnds(m, dst, src);
      NoAddresses(dst);
    } else {
      var len := Piece(dst, src);
      CopyStep(m, dst, src);
      PieceEnds(dst, src);
      AdvanceDrops(src, len, |m|);
      AdvanceDrops(dst, len, |m|);
      var m1 := Move(m, dst.bufs[dst.idx].mem + dst.off, src.bufs[src.idx].mem + src.off, len);
      var (more, src1) := Advanced(src, len);
      var (room, dst1) := Advanced(dst, len);
      RangeLength(dst.bufs[dst.idx].mem + dst.off, len);
      RangeLength(src.bufs[src.idx].mem + src.off, len);
      if more && room {
        CopiesAll(m1, dst1, src1);
        var r1 := Copy(m1, dst1, src1);
        DropConcat(Range(src.bufs[src.idx].mem + src.off, len), Addresses(src1), r1.n);
        DropConcat(Range(dst.bufs[dst.idx].mem + dst.off, len), Addresses(dst1), r1.n - r1.lag);
      } else if more {
        NoAddresses(dst1);
      } else {
        NoAddresses(src1);
      }
    }
  }

  /** Destination addresses are all different, and none is read from. */
  ghost predicate Apart(to: seq<nat>, from: seq<nat>) {
    && (forall i, j :: 0 <= i < j < |to| ==> to[i] != to[j])
    && (forall i, j :: 0 <= i < |to| && 0 <= j < |from| ==> to[i] != from[j])
  }

  /** Memory after copying the first `n` bytes at `from` to `to`, with one flat copy. */
  ghost predicate FlatCopied(m: seq<Byte>, to: seq<nat>, from: seq<nat>, n: nat, r: seq<Byte>)
    requires n <= |to| && n <= |from|
  {
    && |r| == |m|
    && (forall k :: 0 <= k < n ==> to[k] < |m| && from[k] < |m| && r[to[k]] == m[from[k]])
    && (forall a :: 0 <= a < |m| && a !in to[..n] ==> r[a] == m[a])
  }

  lemma ApartParts(a: seq<nat>, to: seq<nat>, b: seq<nat>, from: seq<nat>)
    requires |a| == |b| && Apart(a + to, b + from)
    ensures Apart(a, b) && Apart(to, from) && (forall x :: x in a ==> x !in to && x !in from)
            && (forall x :: x in b ==> x !in to)
  {
    var ta, tb := a + to, b + from;
    assert forall i :: 0 <= i < |a| ==> ta[i] == a[i] && tb[i] == b[i];
    assert forall i :: 0 <= i < |to| ==> ta[|a| + i] == to[i];
    assert forall i :: 0 <= i < |from| ==> tb[|b| + i] == from[i];
  }

  lemma MoveAt(m: seq<Byte>, d: nat, s: nat, len: nat, x: nat)
    requires d + len <= |m| && s + len <= |m| && x < |m|
    ensures Move(m, d, s, len)[x] == if x in Range(d, len) then m[s + (x - d)] else m[x]
  {
    RangeHas(d, len, x);
  }

  /** A byte of the first piece is not overwritten later. */
  lemma FlatHead(m: seq<Byte>, d: nat, s: nat, len: nat, to: seq<nat>, n: nat, r: seq<Byte>, k: nat)
    requires d + len <= |m| && s + len <= |m| && n <= |to| && k < len
    requires d + k !in to && |r| == |m|
    requires forall a :: 0 <= a < |m| && a !in to[..n] ==> r[a] == Move(m, d, s, len)[a]
    ensures r[d + k] == m[s + k]
  {
    hide Move;
    RangeHas(d, len, d + k);
    MoveAt(m, d, s, len, d + k);
  }

  /** One piece, and then the rest, is one flat copy. */
  lemma FlatJoins(m: seq<Byte>, d: nat, s: nat, len: nat, to: seq<nat>, from: seq<nat>, n: nat, r: seq<Byte>)
    requires d + len <= |m| && s + len <= |m| && n <= |to| && n <= |from|
    requires Apart(Range(d, len) + to, Range(s, len) + from)
    requires FlatCopied(Move(m, d, s, len), to, from, n, r)
    ensures FlatCopied(m, Range(d, len) + to, Range(s, len) + from, len + n, r)
  {
    hide Move, Apart;
    var a, b := Range(d, len), Range(s, len);
    ApartParts(a, to, b, from);
    var ta, tb := a + to, b + from;
    forall k | 0 <= k < len + n ensures ta[k] < |m| && tb[k] < |m| && r[ta[k]] == m[tb[k]] {
      if k < len {
        assert ta[k] == d + k && tb[k] == s + k && a[k] in a;
        FlatHead(m, d, s, len, to, n, r, k);
      } else {
        assert ta[k] == to[k - len] && tb[k] == from[k - len];
        assert from[k - len] in from;
        MoveAt(m, d, s, len, from[k - len]);
      }
    }
    forall x | 0 <= x < |m| && x !in ta[..len + n] ensures r[x] == m[x] {
      assert ta[..len + n] == a + to[..n];
      MoveAt(m, d, s, len, x);
    }
  }

  /**
   For vectors of disjoint buffers, the loop is one flat copy of the bytes behind the
   source's cursor to the addresses behind the destination's, however both are cut up.
   */
  lemma {:induction false} CopyIsFlat(m: seq<Byte>, dst: Vec, src: Vec)
    requires VecOk(dst, |m|) && VecOk(src, |m|) && Apart(Addresses(dst), Addresses(src))
    ensures Copy(m, dst, src).n <= |Addresses(dst)| && Copy(m, dst, src).n <= |Addresses(src)|
    ensures FlatCopied(m, Addresses(dst), Addresses(src), Copy(m, dst, src).n, Copy(m, dst, src).m)
    decreases |dst.bufs| - dst.idx + |src.bufs| - src.idx
  {
    hide FlatCopied, Apart, Move, Addresses;
    CopiesAll(m, dst, src);
    if src.idx == |src.bufs| || dst.idx == |dst.bufs| {
      NothingCopied(m, Addresses(dst), Addresses(src));
    } else {
      var len := Piece(dst, src);
      var d, s := dst.bufs[dst.idx].mem + dst.off, src.bufs[src.idx].mem + src.off;
      var (more, src1) := Advanced(src, len);
      var (room, dst1) := Advanced(dst, len);
      AdvanceDrops(src, len, |m|);
      AdvanceDrops(dst, len, |m|);
      ApartParts(Range(d, len), Addresses(dst1), Range(s, len), Addresses(src1));
      if more && room {
        CopyIsFlat(Move(m, d, s, len), dst1, src1);
        FlatJoins(m, d, s, len, Addresses(dst1), Addresses(src1), Copy(Move(m, d, s, len), dst1, src1).n,
               Copy(m, dst, src).m);
      } else {
        NothingCopied(Move(m, d, s, len), Addresses(dst1), Addresses(src1));
        FlatJoins(m, d, s, len, Addresses(dst1), Addresses(src1), 0, Copy(m, dst, src).m);
      }
    }
  }

  lemma NothingCopied(m: seq<Byte>, to: seq<nat>, from: seq<nat>)
    ensures FlatCopied(m, to, from, 0, m)
  {
  }

  /** What is left of the last buffer of a vector. */
  function LastLeft(v: Vec): int {
    if v.idx >= |v.bufs| then 0
    else if v.idx + 1 == |v.bufs| then v.bufs[v.idx].size - v.off
    else v.bufs[|v.bufs| - 1].size
  }

  lemma {:induction false} LastLeftFits(v: Vec, i: nat)
    requires i < |v.bufs|
    ensures |AddressesFrom(v.bufs, i)| >= v.bufs[|v.bufs| - 1].size
    decreases |v.bufs| - i
  {
    if i + 1 < |v.bufs| {
      LastLeftFits(v, i + 1);
    }
  }

  lemma LastLeftBound(v: Vec, top: nat)
    requires VecOk(v, top)
    ensures 0 <= LastLeft(v) <= |Addresses(v)|
  {
    if v.idx + 1 < |v.bufs| {
      LastLeftFits(v, v.idx + 1);
    }
  }

  /**
   The destination's cursor lags exactly if the source, with bytes left in its last buffer,
   ends no later than the destination does; otherwise it is where it should be.
   */
  lemma {:induction false} LagsIff(m: seq<Byte>, dst: Vec, src: Vec)
    requires VecOk(dst, |m|) && VecOk(src, |m|)
    ensures Copy(m, dst, src).lag > 0 <==> |Addresses(src)| <= |Addresses(dst)| && LastLeft(src) > 0
    decreases |dst.bufs| - dst.idx + |src.bufs| - src.idx
  {
    hide Addresses, Move, LastLeft, Range;
    LastLeftBound(src, |m|);
    if src.idx == |src.bufs| {
      NoAddresses(src);
    } else if dst.idx == |dst.bufs| {
      NoAddresses(dst);
    } else {
      var len := Piece(dst, src);
      var m1 := Move(m, dst.bufs[dst.idx].mem + dst.off, src.bufs[src.idx].mem + src.off, len);
      var (more, src1) := Advanced(src, len);
      var (room, dst1) := Advanced(dst, len);
      AdvanceDrops(src, len, |m|);
      AdvanceDrops(dst, len, |m|);
      RangeLength(dst.bufs[dst.idx].mem + dst.off, len);
      RangeLength(src.bufs[src.idx].mem + src.off, len);
      LastLeftBound(src1, |m|);
      LastLeftMoves(src, len);
      if more && room {
        LagsIff(m1, dst1, src1);
      } else if more {
        NoAddresses(dst1);
      } else {
        NoAddresses(src1);
      }
    }
  }

  lemma LastLeftMoves(v: Vec, len: nat)
    requires v.idx < |v.bufs| && v.off + len <= v.bufs[v.idx].size
    ensures var (more, v1) := Advanced(v, len);
            && LastLeft(v) == LastLeft(v1) + (if v.idx + 1 == |v.bufs| then len else 0)
            && (more && v.idx + 1 == |v.bufs| ==> LastLeft(v1) > 0)
  {
  }

  /** Four bytes into a buffer of eight: all are copied, but the destination's cursor is still at its beginning. */
  lemma DestinationLags(m: seq<Byte>)
    requires |m| == 12
    ensures var r := Copy(m, Vec([Buf(8, 4)], 0, 0), Vec([Buf(4, 0)], 0, 0));
            r.n == 4 && r.dst == Vec([Buf(8, 4)], 0, 0)
  {
  }

  // ---------- the size of a vector ----------

  const SIZE_MAX: nat := 0xffff_ffff_ffff_ffff

  /** The loop of `fuse_buf_size`; a buffer of size SIZE_MAX is one without limit, and sums wrap. */
  function SizeFrom(bufs: seq<Buf>, i: nat, size: nat): nat
    decreases |bufs| - i
  {
    if i >= |bufs| then size
    else SizeFrom(bufs, i + 1, if bufs[i].size == SIZE_MAX then SIZE_MAX else (size + bufs[i].size) % (SIZE_MAX + 1))
  }

  function SumFrom(bufs: seq<Buf>, i: nat): nat
    decreases |bufs| - i
  {
    if i >= |bufs| then 0 else bufs[i].size + SumFrom(bufs, i + 1)
  }

  lemma WrapTwice(a: nat, b: nat)
    ensures (a % (SIZE_MAX + 1) + b) % (SIZE_MAX + 1) == (a + b) % (SIZE_MAX + 1)
  {
    var q, r := a / (SIZE_MAX + 1), a % (SIZE_MAX + 1);
    assert a + b == (r + b) + q * (SIZE_MAX + 1);
  }

  /** The sizes of limited buffers add up, and wrap as 64-bit numbers do. */
  lemma {:induction false} SizeOfLimited(bufs: seq<Buf>, i: nat, size: nat)
    requires i <= |bufs| && size <= SIZE_MAX && (forall j :: i <= j < |bufs| ==> bufs[j].size < SIZE_MAX)
    ensures SizeFrom(bufs, i, size) == (size + SumFrom(bufs, i)) % (SIZE_MAX + 1)
    decreases |bufs| - i
  {
    if i < |bufs| {
      SizeOfLimited(bufs, i + 1, (size + bufs[i].size) % (SIZE_MAX + 1));
      WrapTwice(size + bufs[i].size, SumFrom(bufs, i + 1));
    }
  }

  /** The size is the number of addresses, if every buffer is limited and the sum fits. */
  lemma {:induction false} SizeCounts(bufs: seq<Buf>, i: nat)
    requires i <= |bufs|
    ensures SumFrom(bufs, i) == |AddressesFrom(bufs, i)|
    decreases |bufs| - i
  {
    if i < |bufs| {
      SizeCounts(bufs, i + 1);
    }
  }

  lemma {:induction false} SizeForgets(bufs: seq<Buf>, i: nat, k: nat, size: nat)
    requires i <= k < |bufs| && bufs[k].size == SIZE_MAX
    ensures SizeFrom(bufs, i, size) == SizeFrom(bufs, k + 1, SIZE_MAX)
    decreases k - i
  {
    if i < k {
      SizeForgets(bufs, i + 1, k,
             if bufs[i].size == SIZE_MAX then SIZE_MAX else (size + bufs[i].size) % (SIZE_MAX + 1));
    }
  }

  /**
   A vector with an unlimited buffer is reported as unlimited exactly if the sizes behind
   its last unlimited one add up to nothing, as 64-bit numbers.
   */
  lemma UnlimitedIff(bufs: seq<Buf>, k: nat)
    requires k < |bufs| && bufs[k].size == SIZE_MAX && (forall j :: k < j < |bufs| ==> bufs[j].size < SIZE_MAX)
    ensures SizeFrom(bufs, 0, 0) == SIZE_MAX <==> SumFrom(bufs, k + 1) % (SIZE_MAX + 1) == 0
  {
    SizeForgets(bufs, 0, k, 0);
    SizeOfLimited(bufs, k + 1, SIZE_MAX);
  }

  /** One byte behind a buffer without limit: the vector is reported as empty. */
  lemma UnlimitedLost(mem: nat)
    ensures SizeFrom([Buf(SIZE_MAX, mem), Buf(1, 0)], 0, 0) == 0
  {
    var bufs := [Buf(SIZE_MAX, mem), Buf(1, 0)];
    assert SizeFrom(bufs, 2, 0) == 0;
    assert SizeFrom(bufs, 1, SIZE_MAX) == SizeFrom(bufs, 2, 0);
  }

  // ---------- the code ----------

  /** `struct fuse_bufvec` */
  class BufVec {
    const bufs: seq<Buf>
    var idx: nat
    var off: nat

    ghost function V(): Vec
      reads this
    {
      Vec(bufs, idx, off)
    }

    constructor (bufs: seq<Buf>)
      ensures V() == Vec(bufs, 0, 0)
    {
      this.bufs, idx, off := bufs, 0, 0;
    }

    /** `fuse_buf_size` */
    method Size() returns (size: nat)
      ensures size == SizeFrom(bufs, 0, 0)
    {
      size := 0;
      var i := 0;
      while i < |bufs|
        invariant i <= |bufs| && SizeFrom(bufs, i, size) == SizeFrom(bufs, 0, 0)
      {
        size := if bufs[i].size == SIZE_MAX then SIZE_MAX else (size + bufs[i].size) % (SIZE_MAX + 1);
        i := i + 1;
      }
    }

    /** `fuse_bufvec_advance`, whose assertions hold */
    method Advance(len: nat) returns (more: bool)
      requires idx < |bufs| && off + len <= bufs[idx].size
      modifies this
      ensures (more, V()) == Advanced(old(V()), len)
    {
      off := off + len;
      assert off <= bufs[idx].size;
      if off == bufs[idx].size {
        assert idx < |bufs|;
        idx := idx + 1;
        if idx == |bufs| {
          return false;
        }
        off := 0;
      }
      return true;
    }
  }

  lemma MoveOneMore(m: seq<Byte>, d: nat, s: nat, i: nat)
    requires d + i < |m| && s + i < |m| && (d <= s || s + i < d)
    ensures Move(m, d, s, i)[s + i] == m[s + i]
    ensures Move(m, d, s, i + 1) == Move(m, d, s, i)[d + i := m[s + i]]
  {
  }

  method MoveUpwards(mem: array<Byte>, d: nat, s: nat, len: nat)
    requires d + len <= mem.Length && s + len <= mem.Length && (d <= s || s + len <= d)
    modifies mem
    ensures mem[..] == Move(old(mem[..]), d, s, len)
  {
    hide Move;
    ghost var was := mem[..];
    MoveNothing(was, d, s);
    var i := 0;
    while i < len
      invariant i <= len && mem[..] == Move(was, d, s, i)
    {
      MoveOneMore(was, d, s, i);
      assert mem[..][s + i] == was[s + i];
      mem[d + i] := mem[s + i];
      i := i + 1;
    }
  }

  lemma MoveNothing(m: seq<Byte>, d: nat, s: nat)
    requires d <= |m| && s <= |m|
    ensures Move(m, d, s, 0) == m
  {
  }

  method MoveDownwards(mem: array<Byte>, d: nat, s: nat, len: nat)
    requires d + len <= mem.Length && s + len <= mem.Length && s <= d
    modifies mem
    ensures mem[..] == Move(old(mem[..]), d, s, len)
  {
    var i: nat := len;
    while i > 0
      invariant i <= len
      invariant forall a :: d + i <= a < d + len ==> mem[a] == old(mem[s + (a - d)])
      invariant forall a :: 0 <= a < mem.Length && !(d + i <= a < d + len) ==> mem[a] == old(mem[a])
    {
      i := i - 1;
      mem[d + i] := mem[s + i];
    }
  }

  /** `memcpy`, for ranges that do not overlap */
  method Memcpy(mem: array<Byte>, d: nat, s: nat, len: nat)
    requires d + len <= mem.Length && s + len <= mem.Length && (d + len <= s || s + len <= d)
    modifies mem
    ensures mem[..] == Move(old(mem[..]), d, s, len)
  {
    MoveUpwards(mem, d, s, len);
  }

  /** `memmove`, for any ranges */
  method Memmove(mem: array<Byte>, d: nat, s: nat, len: nat)
    requires d + len <= mem.Length && s + len <= mem.Length
    modifies mem
    ensures mem[..] == Move(old(mem[..]), d, s, len)
  {
    if d <= s {
      MoveUpwards(mem, d, s, len);
    } else {
      MoveDownwards(mem, d, s, len);
    }
  }

  /** The memory case of `fuse_buf_copy_one`: the ranges given to `memcpy` never overlap. */
  method CopyOne(mem: array<Byte>, dst: Buf, dstOff: nat, src: Buf, srcOff: nat, len: nat) returns (res: nat)
    requires dst.mem + dstOff + len <= mem.Length && src.mem + srcOff + len <= mem.Length
    modifies mem
    ensures mem[..] == Move(old(mem[..]), dst.mem + dstOff, src.mem + srcOff, len) && res == len
  {
    var d, s := dst.mem + dstOff, src.mem + srcOff;
    if d != s {
      if d + len <= s || s + len <= d {
        Memcpy(mem, d, s, len);
      } else {
        Memmove(mem, d, s, len);
      }
    }
    return len;
  }

  /** `fuse_buf_copy` between memory buffers */
  method BufferCopy(mem: array<Byte>, dstv: BufVec, srcv: BufVec) returns (copied: nat, ghost lag: nat)
    requires VecOk(dstv.V(), mem.Length) && VecOk(srcv.V(), mem.Length)
    modifies mem, dstv, srcv
    ensures dstv == srcv ==> copied == SizeFrom(dstv.bufs, 0, 0) && mem[..] == old(mem[..]) && dstv.V() == old(dstv.V())
    ensures dstv != srcv ==>
            Copied(mem[..], dstv.V(), srcv.V(), copied, lag) == Copy(old(mem[..]), old(dstv.V()), old(srcv.V()))
  {
    hide Copy, Move, Advanced;
    copied, lag := 0, 0;
    if dstv == srcv {
      copied := dstv.Size();
      return;
    }
    ghost var all := Copy(mem[..], dstv.V(), srcv.V());
    while srcv.idx < |srcv.bufs| && dstv.idx < |dstv.bufs|
      invariant VecOk(dstv.V(), mem.Length) && VecOk(srcv.V(), mem.Length) && lag == 0
      invariant var r := Copy(mem[..], dstv.V(), srcv.V()); r.(n := copied + r.n) == all
      decreases |dstv.bufs| - dstv.idx + |srcv.bufs| - srcv.idx
    {
      CopyStep(mem[..], dstv.V(), srcv.V());
      PieceEnds(dstv.V(), srcv.V());
      var src, dst := srcv.bufs[srcv.idx], dstv.bufs[dstv.idx];
      var len := Min(src.size - srcv.off, dst.size - dstv.off);
      assert len == Piece(dstv.V(), srcv.V());
      var res := CopyOne(mem, dst, dstv.off, src, srcv.off, len);
      copied := copied + res;
      var more := srcv.Advance(res);
      if !more {
        lag := len;
        return;
      }
      more := dstv.Advance(res);
      if !more {
        return;
      }
    }
    CopyEnds(mem[..], dstv.V(), srcv.V());
  }
}

/**
 The buffer in which `try_get_path` builds a path from its last component to its first:
 it is filled from the end towards the start, and moved to a larger block when full.
 */
module PathBuffer {

  const UINT_MAX: nat := 0xffff_ffff

  /** One turn of the loop in `add_name` that enlarges the buffer, in 32-bit arithmetic. */
  function Grow(size: nat): nat {
    if size >= 0x8000_0000 then UINT_MAX else size * 2
  }

  function GrowTimes(size: nat, k: nat): nat {
    if k == 0 then size else Grow(GrowTimes(size, k - 1))
  }

  /** The size that the loop stops at. */
  function Grown(size: nat, need: nat): (r: nat)
    requires 0 < size <= UINT_MAX && need <= UINT_MAX
    ensures need <= r <= UINT_MAX && size <= r
    decreases UINT_MAX - size
  {
    if size >= need then size else Grown(Grow(size), need)
  }

  lemma {:induction false} GrownIsReached(size: nat, need: nat) returns (k: nat)
    requires 0 < size <= UINT_MAX && need <= UINT_MAX
    ensures GrowTimes(size, k) >= need
    decreases UINT_MAX - size
  {
    if size >= need {
      k := 0;
    } else {
      k := GrownIsReached(Grow(size), need);
      GrowFirst(size, k);
      k := k + 1;
    }
  }

  lemma {:induction false} GrowFirst(size: nat, k: nat)
    ensures GrowTimes(size, k + 1) == GrowTimes(Grow(size), k)
  {
    if k > 0 {
      GrowFirst(size, k - 1);
    }
  }

  lemma {:induction false} GrowBounded(size: nat, k: nat)
    requires size <= UINT_MAX
    ensures GrowTimes(size, k) <= UINT_MAX
  {
    if k > 0 {
      GrowBounded(size, k - 1);
    }
  }

  /** The enlarging loop ends exactly for paths that fit in 32 bits; for a longer one it would never end. */
  lemma GrowthEndsIff(size: nat, need: nat)
    requires 0 < size <= UINT_MAX
    ensures (exists k :: GrowTimes(size, k) >= need) <==> need <= UINT_MAX
  {
    if need <= UINT_MAX {
      var k := GrownIsReached(size, need);
    } else {
      forall k ensures GrowTimes(size, k) < need {
        GrowBounded(size, k);
      }
    }
  }

  /** The loop in `add_name` that finds the new block's size. */
  method NewSize(bufsize: nat, need: nat) returns (newbufsize: nat)
    requires 0 < bufsize <= UINT_MAX && need <= UINT_MAX
    ensures newbufsize == Grown(bufsize, need)
  {
    newbufsize := bufsize;
    while newbufsize < need
      invariant 0 < newbufsize <= UINT_MAX && Grown(newbufsize, need) == Grown(bufsize, need)
      decreases UINT_MAX - newbufsize
    {
      if newbufsize >= 0x8000_0000 {
        newbufsize := 0xffff_ffff;
      } else {
        newbufsize := newbufsize * 2;
      }
    }
  }

  /** `realloc` to a larger block: the old contents come first. */
  method Realloc(a: array<char>, size: nat) returns (b: array<char>)
    requires a.Length <= size
    ensures fresh(b) && b.Length == size
    ensures forall i :: 0 <= i < a.Length ==> b[i] == a[i]
  {
    b := new char[size];
    forall i | 0 <= i < a.Length {
      b[i] := a[i];
    }
  }

  /** Copying a block to the start of a larger one and moving its tail to the end keeps the tail. */
  lemma Relocated(old_block: string, copied: string, block: string, s: nat)
    requires s < |old_block| <= |copied| == |block|
    requires forall i :: 0 <= i < |old_block| ==> copied[i] == old_block[i]
    requires forall i :: |block| - (|old_block| - s) <= i < |block| ==>
             block[i] == copied[i - (|block| - (|old_block| - s)) + s]
    ensures block[|block| - (|old_block| - s)..|block| - 1] == old_block[s..|old_block| - 1]
    ensures block[|block| - 1] == old_block[|old_block| - 1]
  {
    var moved := |block| - (|old_block| - s);
    var t, t' := old_block[s..|old_block| - 1], block[moved..|block| - 1];
    forall i | 0 <= i < |t| ensures t'[i] == t[i] {
      assert t'[i] == block[moved + i];
    }
  }

  lemma Prepended(block: string, block': string, s: nat, name: string)
    requires |block'| == |block| && |name| + 1 <= s < |block|
    requires block'[s - |name| - 1] == '/'
    requires forall i :: s - |name| <= i < s ==> block'[i] == name[i - (s - |name|)]
    requires forall i :: s <= i < |block| ==> block'[i] == block[i]
    ensures block'[s - |name| - 1..|block| - 1] == "/" + name + block[s..|block| - 1]
  {
    var n := |block| - 1;
    assert block'[s - |name|..s] == name;
    assert block'[s..n] == block[s..n];
    assert block'[s - |name| - 1..n] == [block'[s - |name| - 1]] + block'[s - |name|..s] + block'[s..n];
  }

  class PathBuffer {
    var buf: array<char>
    var s: nat

    ghost predicate Valid()
      reads this, buf
    {
      && 256 <= buf.Length <= UINT_MAX && s < buf.Length
      && buf[buf.Length - 1] == '\0'
    }

    /** The text built so far. */
    ghost function Contents(): string
      reads this, buf
      requires Valid()
    {
      buf[s..buf.Length - 1]
    }

    constructor ()
      ensures Valid() && fresh(buf) && Contents() == ""
    {
      buf := new char[256];
      s := 255;
      new;
      buf[255] := '\0';
    }

    /** The enlarging branch of `add_name`: the text moves to the end of a block with room for `len + 1` more. */
    method Enlarge(len: nat)
      requires Valid() && s <= len && |Contents()| + len + 2 <= UINT_MAX
      modifies this
      ensures Valid() && fresh(buf) && s >= len + 1
      ensures Contents() == old(Contents())
    {
      var pathlen := buf.Length - s;
      var newbufsize := NewSize(buf.Length, pathlen + len + 1);
      var newbuf := Realloc(buf, newbufsize);
      ghost var block := newbuf[..];
      var moved := newbufsize - pathlen;
      forall i | moved <= i < newbufsize {
        newbuf[i] := newbuf[i - moved + s];
      }
      Relocated(buf[..], block, newbuf[..], s);
      buf := newbuf;
      s := moved;
    }

    /** The rest of `add_name`, where there is room: "/" and `name` are written in front of the text. */
    method Prepend(name: string)
      requires Valid() && s >= |name| + 1
      modifies this`s, buf
      ensures Valid() && Contents() == "/" + name + old(Contents())
    {
      var len := |name|;
      ghost var block, room := buf[..], s;
      s := s - len;
      forall i | s <= i < s + len {
        buf[i] := name[i - s];
      }
      s := s - 1;
      buf[s] := '/';
      Prepended(block, buf[..], room, name);
    }

    /** `add_name`: puts "/" and `name` in front. Every index used lies inside the buffer. */
    method AddName(name: string)
      requires Valid() && |Contents()| + |name| + 2 <= UINT_MAX
      modifies this, buf
      ensures Valid() && (buf == old(buf) || fresh(buf))
      ensures Contents() == "/" + name + old(Contents())
    {
      if s <= |name| {
        Enlarge(|name|);
      }
      Prepend(name);
    }

    /** The end of `try_get_path`: the text moves to the start, and no text at all means the root. */
    method Finish() returns (path: string)
      requires Valid() && '\0' !in Contents()
      modifies buf
      ensures path == if old(Contents()) == "" then "/" else old(Contents())
      ensures |path| < buf.Length && buf[..|path|] == path && buf[|path|] == '\0'
    {
      ghost var text := Contents();
      var n := buf.Length - 1 - s;
      assert s < buf.Length - 1 ==> buf[s] == text[0];
      if buf[s] != '\0' {
        forall i | 0 <= i < n + 1 {
          buf[i] := buf[s + i];
        }
        path := buf[..n];
        assert path == text;
      } else {
        buf[0], buf[1] := '/', '\0';
        path := "/";
      }
    }
  }
}

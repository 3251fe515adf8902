/**
 The allocator for nodes: pages cut into slots, each page with a header, a list of its
 free slots and a count of the others. Pages with a free slot are on one list, pages
 without on another, and a page is unmapped when its last node is freed.
 */
module NodeSlab {
  import opened Common

  /** `struct node_slab`: `free` are the addresses on its free list. */
  datatype Slab = Slab(free: seq<nat>, used: nat)

  /** The sizes of a page, of the header and of a node; at least one node fits. */
  datatype Sizes = Sizes(page: nat, header: nat, node: nat)

  predicate SizesOk(z: Sizes) {
    z.node > 0 && z.header + z.node <= z.page
  }

  /** The number of nodes in a page */
  function Capacity(z: Sizes): nat
    requires SizesOk(z)
  {
    (z.page - z.header) / z.node
  }

  /** The slots stand at the end of the page. */
  function Slot(z: Sizes, base: nat, i: nat): int
    requires SizesOk(z)
  {
    base + z.page - Capacity(z) * z.node + i * z.node
  }

  /** `node_to_slab`: the page that an address lies in */
  function PageOf(z: Sizes, a: nat): nat
    requires SizesOk(z)
  {
    a - a % z.page
  }

  lemma CapacityFits(z: Sizes)
    requires SizesOk(z)
    ensures Capacity(z) >= 1 && z.header + Capacity(z) * z.node <= z.page
  {
    var n := z.page - z.header;
    assert n == Capacity(z) * z.node + n % z.node;
  }

  lemma MulMono(a: nat, b: nat, c: nat)
    requires a <= b
    ensures a * c <= b * c && (b - a) * c == b * c - a * c
  {
  }

  /** A slot lies in its page behind the header, and slots do not overlap. */
  lemma SlotPlace(z: Sizes, base: nat, i: nat)
    requires SizesOk(z) && i < Capacity(z)
    ensures base + z.header <= Slot(z, base, i) && Slot(z, base, i) + z.node <= base + z.page
  {
    CapacityFits(z);
    MulMono(i + 1, Capacity(z), z.node);
    assert (i + 1) * z.node == i * z.node + z.node;
    assert i * z.node >= 0;
  }

  lemma SlotsApart(z: Sizes, base: nat, i: nat, j: nat)
    requires SizesOk(z) && i < j
    ensures Slot(z, base, i) + z.node <= Slot(z, base, j)
  {
    MulMono(i + 1, j, z.node);
    assert (i + 1) * z.node == i * z.node + z.node;
  }

  lemma PageOfSlot(z: Sizes, base: nat, a: nat)
    requires SizesOk(z) && base % z.page == 0 && base <= a < base + z.page
    ensures PageOf(z, a) == base
  {
    var q := base / z.page;
    assert base == q * z.page;
    Quotient(a, z.page, q);
  }

  lemma Quotient(a: nat, p: nat, q: nat)
    requires p > 0 && q * p <= a < q * p + p
    ensures a % p == a - q * p
  {
    var k, r := a / p, a % p;
    assert a == k * p + r;
    assert (k + 1) * p == k * p + p && (q + 1) * p == q * p + p;
    if k < q {
      MulMono(k + 1, q, p);
    } else if k > q {
      MulMono(q + 1, k, p);
    }
  }

  // ---------- the state ----------

  type Pages = map<nat, Slab>

  /** All slots of a page, in order */
  ghost function Slots(z: Sizes, base: nat): seq<int>
    requires SizesOk(z)
  {
    seq(Capacity(z), i requires 0 <= i < Capacity(z) => Slot(z, base, i))
  }

  /**
   One page: its free list holds some of its slots, each once, and `used` counts the others, of
   which there is one at least.
   */
  ghost predicate SlabOk(z: Sizes, base: nat, s: Slab)
    requires SizesOk(z)
  {
    && base % z.page == 0 && Distinct(s.free) && (forall a :: a in s.free ==> a in Slots(z, base))
    && s.used + |s.free| == Capacity(z) && s.used > 0
  }

  /** The pages with a free slot are on `partial`, the others on `full`, each once. */
  ghost predicate Lists(pages: Pages, partial: seq<nat>, full: seq<nat>) {
    && Distinct(partial) && Distinct(full)
    && (forall b :: b in partial <==> b in pages && pages[b].free != [])
    && (forall b :: b in full <==> b in pages && pages[b].free == [])
  }

  ghost predicate PagesOk(z: Sizes, pages: Pages)
    requires SizesOk(z)
  {
    forall b :: b in pages ==> SlabOk(z, b, pages[b])
  }

  /** The nodes in use: slots of a page that are not on its free list */
  ghost predicate Live(z: Sizes, pages: Pages, a: int)
    requires SizesOk(z)
  {
    a >= 0 && PageOf(z, a) in pages && a in Slots(z, PageOf(z, a)) && a !in pages[PageOf(z, a)].free
  }

  lemma SlotOfPage(z: Sizes, base: nat, a: int)
    requires SizesOk(z) && base % z.page == 0 && a in Slots(z, base)
    ensures a >= 0 && base + z.header <= a && a + z.node <= base + z.page && PageOf(z, a) == base
  {
    var i :| 0 <= i < |Slots(z, base)| && Slots(z, base)[i] == a;
    SlotPlace(z, base, i);
    PageOfSlot(z, base, a);
  }

  /** Nodes in use never overlap, nor the header of a page. */
  lemma LiveApart(z: Sizes, pages: Pages, a: int, b: int)
    requires SizesOk(z) && PagesOk(z, pages) && Live(z, pages, a) && Live(z, pages, b) && a != b
    ensures a + z.node <= b || b + z.node <= a
    ensures PageOf(z, a) + z.header <= a && a + z.node <= PageOf(z, a) + z.page
  {
    hide Slot, Capacity, PageOf;
    var p, q := PageOf(z, a), PageOf(z, b);
    assert SlabOk(z, p, pages[p]) && SlabOk(z, q, pages[q]);
    SlotOfPage(z, p, a);
    SlotOfPage(z, q, b);
    if p == q {
      var i :| 0 <= i < |Slots(z, p)| && Slots(z, p)[i] == a;
      var j :| 0 <= j < |Slots(z, p)| && Slots(z, p)[j] == b;
      if i < j {
        SlotsApart(z, p, i, j);
      } else if j < i {
        SlotsApart(z, p, j, i);
      }
    } else {
      PagesApart(z, p, q);
    }
  }

  lemma PagesApart(z: Sizes, p: nat, q: nat)
    requires SizesOk(z) && p % z.page == 0 && q % z.page == 0 && p != q
    ensures p + z.page <= q || q + z.page <= p
  {
    var i, j := p / z.page, q / z.page;
    assert p == i * z.page && q == j * z.page;
    assert (i + 1) * z.page == p + z.page && (j + 1) * z.page == q + z.page;
    if i < j {
      MulMono(i + 1, j, z.page);
    } else if j < i {
      MulMono(j + 1, i, z.page);
    }
  }

  lemma {:induction false} FewerThanAll(free: seq<int>, slots: seq<int>) returns (a: int)
    requires Distinct(free) && |free| < |slots| && Distinct(slots)
    ensures a in slots && a !in free
    decreases |slots|
  {
    var last := slots[|slots| - 1];
    if last !in free {
      a := last;
    } else {
      var k :| 0 <= k < |free| && free[k] == last;
      var fewer := free[..k] + free[k + 1..];
      assert forall i :: 0 <= i < |fewer| ==> fewer[i] == free[if i < k then i else i + 1];
      a := FewerThanAll(fewer, slots[..|slots| - 1]);
      var i :| 0 <= i < |slots| - 1 && slots[i] == a;
      assert a != last;
      forall j | 0 <= j < |free| ensures free[j] != a {
        if j != k {
          assert fewer[if j < k then j else j - 1] == free[j];
        }
      }
    }
  }

  lemma SlotsDistinct(z: Sizes, base: nat)
    requires SizesOk(z)
    ensures Distinct(Slots(z, base))
  {
    hide Slot, Capacity;
    forall i, j | 0 <= i < j < |Slots(z, base)| ensures Slots(z, base)[i] != Slots(z, base)[j] {
      SlotsApart(z, base, i, j);
    }
  }

  /** A page that is mapped holds a node that is in use. */
  lemma PageInUse(z: Sizes, pages: Pages, base: nat) returns (a: int)
    requires SizesOk(z) && PagesOk(z, pages) && base in pages
    ensures Live(z, pages, a) && PageOf(z, a) == base
  {
    hide Slot, Capacity, PageOf;
    assert SlabOk(z, base, pages[base]);
    SlotsDistinct(z, base);
    a := FewerThanAll(pages[base].free, Slots(z, base));
    SlotOfPage(z, base, a);
  }

  lemma HasElement(s: seq<nat>)
    ensures s != [] ==> exists x :: x in s
  {
    if s != [] {
      assert s[0] in s;
    }
  }

  /** When no node is in use, both lists are empty: nothing is left mapped. */
  lemma NothingLeft(z: Sizes, pages: Pages, partial: seq<nat>, full: seq<nat>)
    requires SizesOk(z) && PagesOk(z, pages) && Lists(pages, partial, full)
    requires forall a :: !Live(z, pages, a)
    ensures partial == [] && full == [] && pages == map[]
  {
    forall b | b in pages ensures false {
      var a := PageInUse(z, pages, b);
    }
    HasElement(partial);
    HasElement(full);
  }

  // ---------- what one operation does to the pages ----------

  /** Only the page `base` has changed; it may be new, or gone. */
  lemma OnePage(z: Sizes, pages: Pages, pages': Pages, base: nat)
    requires SizesOk(z) && PagesOk(z, pages) && (base in pages' ==> SlabOk(z, base, pages'[base]))
    requires forall b :: b != base ==> (b in pages' <==> b in pages) && (b in pages ==> pages'[b] == pages[b])
    ensures PagesOk(z, pages')
    ensures forall a :: a >= 0 && PageOf(z, a) != base ==> (Live(z, pages', a) <==> Live(z, pages, a))
  {
    hide SlabOk, PageOf;
  }

  /** A fresh page, all of whose slots are free */
  lemma FreshPage(z: Sizes, base: nat, free: seq<nat>)
    requires SizesOk(z) && base % z.page == 0 && free == Slots(z, base)
    ensures |free| == Capacity(z) >= 1 && Distinct(free) && (forall a :: a in free ==> a in Slots(z, base))
  {
    hide Slot, Capacity;
    CapacityFits(z);
    SlotsDistinct(z, base);
  }

  /** The first free slot is taken. */
  lemma SlotTaken(z: Sizes, pages: Pages, base: nat, s: Slab)
    requires SizesOk(z) && PagesOk(z, pages) && base % z.page == 0
    requires s.free != [] && Distinct(s.free) && (forall a :: a in s.free ==> a in Slots(z, base))
             && s.used + |s.free| == Capacity(z)
    requires if base in pages then pages[base] == s else s.used == 0
    ensures var pages' := pages[base := Slab(s.free[1..], s.used + 1)];
            && PagesOk(z, pages') && !Live(z, pages, s.free[0])
            && forall a :: Live(z, pages', a) <==> Live(z, pages, a) || a == s.free[0]
  {
    hide Slot, Capacity, PageOf;
    var node, s' := s.free[0], Slab(s.free[1..], s.used + 1);
    var pages' := pages[base := s'];
    assert s.free == [node] + s'.free;
    assert node in s.free && node !in s'.free;
    SlotOfPage(z, base, node);
    OnePage(z, pages, pages', base);
    forall a ensures Live(z, pages', a) <==> Live(z, pages, a) || a == node {
      if a >= 0 && PageOf(z, a) == base && base !in pages && a in Slots(z, base) {
        AllFree(z, base, s.free, a);
      }
    }
  }

  /** A free list that is as long as the page has slots holds them all. */
  lemma AllFree(z: Sizes, base: nat, free: seq<nat>, a: nat)
    requires SizesOk(z) && a in Slots(z, base) && |free| == Capacity(z) && Distinct(free)
             && (forall x :: x in free ==> x in Slots(z, base))
    ensures a in free
  {
    hide Slot, Capacity;
    SlotsDistinct(z, base);
    var slots := Slots(z, base);
    var k :| 0 <= k < |slots| && slots[k] == a;
    var others := slots[..k] + slots[k + 1..];
    AllButOne(slots, k);
    if a !in free {
      var x := FewerThanAll(others, free);
      assert false;
    }
  }

  lemma AllButOne(s: seq<int>, k: nat)
    requires k < |s| && Distinct(s)
    ensures var others := s[..k] + s[k + 1..];
            Distinct(others) && forall x :: x in others <==> x in s && x != s[k]
  {
    var others := s[..k] + s[k + 1..];
    assert forall i :: 0 <= i < |others| ==> others[i] == s[if i < k then i else i + 1];
    forall x | x in s && x != s[k] ensures x in others {
      var j :| 0 <= j < |s| && s[j] == x;
      assert others[if j < k then j else j - 1] == x;
    }
  }

  /** The slot of a node that is freed goes to the head of the free list. */
  lemma SlotFreed(z: Sizes, pages: Pages, base: nat, node: nat)
    requires SizesOk(z) && PagesOk(z, pages) && Live(z, pages, node) && PageOf(z, node) == base && pages[base].used > 1
    ensures var s := pages[base];
            var pages' := pages[base := Slab([node] + s.free, s.used - 1)];
            PagesOk(z, pages') && forall a :: Live(z, pages', a) <==> Live(z, pages, a) && a != node
  {
    hide Slot, Capacity, PageOf;
    assert SlabOk(z, base, pages[base]);
    var pages' := pages[base := Slab([node] + pages[base].free, pages[base].used - 1)];
    OnePage(z, pages, pages', base);
  }

  /** The last node of a page takes the page with it. */
  lemma PageFreed(z: Sizes, pages: Pages, base: nat, node: nat)
    requires SizesOk(z) && PagesOk(z, pages) && Live(z, pages, node) && PageOf(z, node) == base && pages[base].used == 1
    ensures var pages' := pages - {base};
            PagesOk(z, pages') && forall a :: Live(z, pages', a) <==> Live(z, pages, a) && a != node
  {
    hide Slot, Capacity, PageOf;
    var free := pages[base].free;
    assert SlabOk(z, base, pages[base]);
    OnePage(z, pages, pages - {base}, base);
    forall a | Live(z, pages, a) && PageOf(z, a) == base ensures a == node {
      OneMissing(z, base, free, node, a);
    }
  }

  /** A free list that is one shorter than the page has slots lacks one slot only. */
  lemma OneMissing(z: Sizes, base: nat, free: seq<nat>, a: int, b: int)
    requires SizesOk(z) && a in Slots(z, base) && b in Slots(z, base) && a !in free && b !in free
    requires Distinct(free) && (forall x :: x in free ==> x in Slots(z, base)) && |free| + 1 == Capacity(z)
    ensures a == b
  {
    hide Slot, Capacity;
    SlotsDistinct(z, base);
    var slots := Slots(z, base);
    var i :| 0 <= i < |slots| && slots[i] == a;
    var fewer := slots[..i] + slots[i + 1..];
    AllButOne(slots, i);
    if a != b {
      var j :| 0 <= j < |fewer| && fewer[j] == b;
      AllButOne(fewer, j);
      var x := FewerThanAll(fewer[..j] + fewer[j + 1..], free);
      assert false;
    }
  }

  // ---------- the code ----------

  /** The part of `struct fuse` that the allocator uses; `pages` is what is mapped. */
  class Allocator {
    const z: Sizes
    var pages: Pages
    var partialSlabs: seq<nat>
    var fullSlabs: seq<nat>

    ghost predicate Valid()
      reads this
    {
      SizesOk(z) && PagesOk(z, pages) && Lists(pages, partialSlabs, fullSlabs)
    }

    constructor (z: Sizes)
      requires SizesOk(z)
      ensures Valid() && this.z == z && pages == map[]
    {
      this.z, pages, partialSlabs, fullSlabs := z, map[], [], [];
    }

    /** `alloc_slab`; `mem` is what `mmap` returns, and None its failure. */
    method AllocSlab(mem: Option<nat>) returns (ok: bool)
      requires Valid() && (mem.Some? ==> mem.value % z.page == 0 && mem.value !in pages)
      modifies this
      ensures ok == mem.Some? && fullSlabs == old(fullSlabs)
      ensures !ok ==> pages == old(pages) && partialSlabs == old(partialSlabs)
      ensures ok ==> mem.value in pages && pages == old(pages)[mem.value := pages[mem.value]]
                     && pages[mem.value].free == Slots(z, mem.value) && pages[mem.value].used == 0
                     && partialSlabs == old(partialSlabs) + [mem.value]
    {
      if mem == None {
        return false;
      }
      var num := (z.page - z.header) / z.node;
      assert num == Capacity(z);
      CapacityFits(z);
      var start := mem.value + z.page - num * z.node;
      var freelist: seq<nat> := [];
      var i := 0;
      while i < num
        invariant i <= num && |freelist| == i && forall k :: 0 <= k < i ==> freelist[k] == Slot(z, mem.value, k)
      {
        freelist := freelist + [start + i * z.node];
        i := i + 1;
      }
      assert freelist == Slots(z, mem.value);
      pages := pages[mem.value := Slab(freelist, 0)];
      partialSlabs := partialSlabs + [mem.value];
      return true;
    }

    /** `alloc_node`: a slot that is not in use; it fails only if a page is needed and none is mapped. */
    method AllocNode(mem: Option<nat>) returns (node: Option<nat>)
      requires Valid() && (mem.Some? ==> mem.value % z.page == 0 && mem.value !in pages)
      modifies this
      ensures Valid()
      ensures node.None? <==> old(partialSlabs) == [] && mem.None?
      ensures node.None? ==> pages == old(pages)
      ensures node.Some? ==>
                && !Live(z, old(pages), node.value)
                && forall a :: Live(z, pages, a) <==> Live(z, old(pages), a) || a == node.value
    {
      hide Slots, SlabOk, Live;
      if partialSlabs == [] {
        var ok := AllocSlab(mem);
        if !ok {
          return None;
        }
      }
      var slab := partialSlabs[0];
      ghost var pages0 := old(pages);
      assert slab in partialSlabs;
      TakeReady(z, pages0, slab, pages);
      var s := pages[slab];
      SlotTaken(z, pages0, slab, s);
      node := Some(s.free[0]);
      pages := pages[slab := Slab(s.free[1..], s.used + 1)];
      assert pages == pages0[slab := Slab(s.free[1..], s.used + 1)];
      if s.free[1..] == [] {
        partialSlabs := partialSlabs[1..];
        fullSlabs := fullSlabs + [slab];
      }
    }

    /** `free_node_mem` */
    method FreeNodeMem(node: nat)
      requires Valid() && Live(z, pages, node)
      modifies this
      ensures Valid() && forall a :: Live(z, pages, a) <==> Live(z, old(pages), a) && a != node
    {
      hide Slots, SlabOk, Distinct, Lists;
      var slab := PageOf(z, node);
      var s := pages[slab];
      InUse(z, pages, slab);
      ListsPart(pages, partialSlabs, fullSlabs);
      if s.used - 1 != 0 {
        SlotFreed(z, pages, slab, node);
        if s.free == [] {
          fullSlabs := Without(fullSlabs, slab);
          partialSlabs := partialSlabs + [slab];
        }
        pages := pages[slab := Slab([node] + s.free, s.used - 1)];
        MovedBack(old(pages), old(partialSlabs), old(fullSlabs), slab, pages[slab]);
        return;
      }
      PageFreed(z, pages, slab, node);
      partialSlabs, fullSlabs := Without(partialSlabs, slab), Without(fullSlabs, slab);
      pages := pages - {slab};
      Unlisted(old(pages), old(partialSlabs), old(fullSlabs), slab);
    }

    /** The loop of `fuse_destroy` over all nodes, and its assertions */
    method FreeAll(nodes: seq<nat>)
      requires Valid() && Distinct(nodes) && forall a :: Live(z, pages, a) <==> a in nodes
      modifies this
      ensures Valid() && partialSlabs == [] && fullSlabs == [] && pages == map[]
    {
      hide Live, PagesOk, Lists;
      var i := 0;
      while i < |nodes|
        invariant i <= |nodes| && Valid() && forall a :: Live(z, pages, a) <==> a in nodes[i..]
      {
        assert nodes[i..] == [nodes[i]] + nodes[i + 1..];
        assert nodes[i] !in nodes[i + 1..];
        FreeNodeMem(nodes[i]);
        i := i + 1;
      }
      NothingLeft(z, pages, partialSlabs, fullSlabs);
    }
  }

  /** `list_del` */
  function Without(s: seq<nat>, b: nat): seq<nat> {
    if s == [] then [] else if s[0] == b then s[1..] else [s[0]] + Without(s[1..], b)
  }

  lemma {:induction false} WithoutOne(s: seq<nat>, b: nat)
    requires Distinct(s)
    ensures Distinct(Without(s, b)) && forall x :: x in Without(s, b) <==> x in s && x != b
  {
    if s != [] {
      assert s == [s[0]] + s[1..] && s[0] !in s[1..];
      WithoutOne(s[1..], b);
    }
  }

  lemma InUse(z: Sizes, pages: Pages, base: nat)
    requires SizesOk(z) && PagesOk(z, pages) && base in pages
    ensures pages[base].used > 0
  {
    assert SlabOk(z, base, pages[base]);
  }

  lemma ListsPart(pages: Pages, partial: seq<nat>, full: seq<nat>)
    requires Lists(pages, partial, full)
    ensures forall b :: b in partial <==> b in pages && pages[b].free != []
    ensures forall b :: b in full <==> b in pages && pages[b].free == []
  {
  }

  /** What `alloc_node` finds on the first page of the list */
  lemma TakeReady(z: Sizes, pages: Pages, base: nat, pages1: Pages)
    requires SizesOk(z) && PagesOk(z, pages) && base in pages1
    requires if base in pages then pages1 == pages && pages[base].free != []
             else base % z.page == 0 && pages1[base] == Slab(pages1[base].free, 0)
                    && pages1[base].free == Slots(z, base)
    ensures var s := pages1[base];
            && s.free != [] && Distinct(s.free) && (forall a :: a in s.free ==> a in Slots(z, base))
                   && s.used + |s.free| == Capacity(z)
            && base % z.page == 0 && (if base in pages then pages[base] == s else s.used == 0)
  {
    if base in pages {
      assert SlabOk(z, base, pages[base]);
    } else {
      FreshPage(z, base, pages1[base].free);
    }
  }

  /** A page that had no free slot goes back to the other list. */
  lemma MovedBack(pages: Pages, partial: seq<nat>, full: seq<nat>, slab: nat, s: Slab)
    requires Lists(pages, partial, full) && slab in pages && s.free != []
    ensures if pages[slab].free == [] then Lists(pages[slab := s], partial + [slab], Without(full, slab))
            else Lists(pages[slab := s], partial, full)
  {
    WithoutOne(full, slab);
  }

  lemma Unlisted(pages: Pages, partial: seq<nat>, full: seq<nat>, slab: nat)
    requires Lists(pages, partial, full)
    ensures Lists(pages - {slab}, Without(partial, slab), Without(full, slab))
  {
    WithoutOne(partial, slab);
    WithoutOne(full, slab);
  }
}

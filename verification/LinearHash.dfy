/**
 The incrementally resized hash tables of libfuse (`id_table` and `name_table`).

 A table of `size` buckets is in the middle of a round: the lowest `split` buckets of
 its lower half have already been split into the upper half. The bucket of a key
 therefore depends on `split` and `size`, and every insertion or removal may change
 both. The table is proved to behave as a map all the same.
 */
module LinearHash {
  import opened Common

  /** NODE_TABLE_MIN_SIZE */
  const MIN_SIZE: nat := 8192

  /** One hashed node: its key (node id, or parent id and name) and the node itself. */
  datatype Entry<K, V> = Entry(key: K, node: V)

  /** The multiplicative hash of `id_hash`, in 32-bit unsigned arithmetic. */
  function IdHash(ino: nat): (h: nat)
    ensures h < 0x1_0000_0000
  {
    (ino % 0x1_0000_0000 * 2654435761) % 0x1_0000_0000
  }

  /**
   The multiplier is odd, so that ids of 32 bits have different hashes; they collide only when
   these are reduced to buckets.
   */
  lemma IdHashApart(a: nat, b: nat)
    requires a < 0x1_0000_0000 && b < 0x1_0000_0000 && IdHash(a) == IdHash(b)
    ensures a == b
  {
    IdHashBack(a);
    IdHashBack(b);
  }

  /** The inverse of the multiplier takes a hash back to its id. */
  lemma IdHashBack(a: nat)
    requires a < 0x1_0000_0000
    ensures IdHash(a) * 244002641 % 0x1_0000_0000 == a
  {
    var q, h := a * 2654435761 / 0x1_0000_0000, IdHash(a);
    assert h == a * 2654435761 - q * 0x1_0000_0000;
    ModIs(h * 244002641, 0x1_0000_0000, a * 150801925 - q * 244002641, a);
  }

  /** The string hash of `name_hash`, in 64-bit unsigned arithmetic. */
  function NameHash(parent: nat, name: seq<nat>): (h: nat)
    ensures h < 0x1_0000_0000_0000_0000
  {
    if name == [] then parent % 0x1_0000_0000_0000_0000
    else (NameHash(parent, name[..|name| - 1]) * 31 + name[|name| - 1]) % 0x1_0000_0000_0000_0000
  }

  /** The loop of `name_hash`, before the hash is reduced to a bucket */
  method HashName(parent: nat, name: seq<nat>) returns (h: nat)
    ensures h == NameHash(parent, name)
  {
    h := parent % 0x1_0000_0000_0000_0000;
    for i := 0 to |name|
      invariant h == NameHash(parent, name[..i])
    {
      h := (h * 31 + name[i]) % 0x1_0000_0000_0000_0000;
      assert name[..i + 1][..i] == name[..i];
    }
    assert name[..|name|] == name;
  }

  /** Multiplying by 31 keeps 64-bit values apart: this takes them back. */
  lemma Times31Back(x: nat, c: nat, h: nat)
    requires x < 0x1_0000_0000_0000_0000 && h == (x * 31 + c) % 0x1_0000_0000_0000_0000
    ensures (h - c) * 17256631552825064415 % 0x1_0000_0000_0000_0000 == x
  {
    var q := (x * 31 + c) / 0x1_0000_0000_0000_0000;
    assert h - c == x * 31 - q * 0x1_0000_0000_0000_0000;
    ModIs((h - c) * 17256631552825064415, 0x1_0000_0000_0000_0000, x * 29 - q * 17256631552825064415, x);
  }

  /** Behind different hashes the same characters lead to different hashes again. */
  lemma {:induction false} SameEnding(p: nat, a: seq<nat>, q: nat, b: seq<nat>, end: seq<nat>)
    requires NameHash(p, a + end) == NameHash(q, b + end)
    ensures NameHash(p, a) == NameHash(q, b)
  {
    if end == [] {
      assert a + end == a && b + end == b;
    } else {
      var k := |end| - 1;
      var s, t := a + end, b + end;
      assert s[..|s| - 1] == a + end[..k] && t[..|t| - 1] == b + end[..k];
      Times31Back(NameHash(p, a + end[..k]), end[k], NameHash(p, s));
      Times31Back(NameHash(q, b + end[..k]), end[k], NameHash(q, t));
      SameEnding(p, a, q, b, end[..k]);
    }
  }

  /** Two names in one directory that differ in one character have different hashes. */
  lemma NameHashApart(parent: nat, front: seq<nat>, x: nat, y: nat, end: seq<nat>)
    requires x < 256 && y < 256 && NameHash(parent, front + [x] + end) == NameHash(parent, front + [y] + end)
    ensures x == y
  {
    SameEnding(parent, front + [x], parent, front + [y], end);
    var u, v := front + [x], front + [y];
    assert u[..|u| - 1] == front && v[..|v| - 1] == front;
    var h, m := NameHash(parent, front) * 31, 0x1_0000_0000_0000_0000;
    assert (h + x) % m == (h + y) % m;
    assert h + x == (h + x) / m * m + (h + x) % m && h + y == (h + y) / m * m + (h + y) % m;
  }

  /** So has one name in two directories. */
  lemma ParentsApart(p: nat, q: nat, name: seq<nat>)
    requires p < 0x1_0000_0000_0000_0000 && q < 0x1_0000_0000_0000_0000 && NameHash(p, name) == NameHash(q, name)
    ensures p == q
  {
    assert [] + name == name;
    SameEnding(p, [], q, [], name);
  }

  /** The bucket that a full hash `h` names while `split` buckets have been split. */
  function Bucket(h: nat, size: nat, split: nat): nat
    requires size >= 2
  {
    var hash := h % size;
    var oldhash := hash % (size / 2);
    if oldhash >= split then oldhash else hash
  }

  /** Sizes are NODE_TABLE_MIN_SIZE times a power of two. */
  predicate TableSize(n: nat) {
    n == MIN_SIZE || (n > MIN_SIZE && n % 2 == 0 && TableSize(n / 2))
  }

  lemma {:induction false} TableSizeEven(n: nat)
    requires TableSize(n)
    ensures n >= MIN_SIZE && n % 4 == 0
  {
    if n > MIN_SIZE {
      TableSizeEven(n / 2);
    }
  }

  // ---------- arithmetic of one round ----------

  lemma MulAtLeast(d: int, m: int)
    requires d >= 1 && m > 0
    ensures d * m >= m
  {
    assert (d - 1) * m >= 0;
  }

  lemma ModIs(h: int, m: int, q: int, r: int)
    requires m > 0 && 0 <= r < m && h == q * m + r
    ensures h % m == r
  {
    var q', r' := h / m, h % m;
    assert h == q' * m + r';
    var d := q' - q;
    assert d * m == r - r';
    if d >= 1 {
      MulAtLeast(d, m);
    } else if d <= -1 {
      assert (-d) * m == r' - r;
      MulAtLeast(-d, m);
    }
  }

  lemma ModHalf(h: nat, half: nat)
    requires half > 0
    ensures (h % (2 * half)) % half == h % half
    ensures h % (2 * half) == h % half || h % (2 * half) == h % half + half
  {
    var q, r := h / (2 * half), h % (2 * half);
    assert h == q * (2 * half) + r;
    if r < half {
      assert h == (2 * q) * half + r;
      ModIs(h, half, 2 * q, r);
      ModIs(r, half, 0, r);
    } else {
      assert h == (2 * q + 1) * half + (r - half);
      ModIs(h, half, 2 * q + 1, r - half);
      ModIs(r, half, 1, r - half);
    }
  }

  /** The bucket of any hash is one of those in use. */
  lemma BucketInRange(h: nat, half: nat, split: nat)
    requires 0 < half && split <= half
    ensures Bucket(h, 2 * half, split) < half + split
  {
    ModHalf(h, half);
  }

  /** Advancing `split` moves keys only from bucket `split` to bucket `split + half`. */
  lemma BucketSplit(h: nat, half: nat, split: nat)
    requires 0 < half && split < half
    ensures Bucket(h, 2 * half, split) != split + half
    ensures Bucket(h, 2 * half, split + 1) ==
            (if Bucket(h, 2 * half, split) == split then h % (2 * half) else Bucket(h, 2 * half, split))
    ensures Bucket(h, 2 * half, split) == split <==> h % half == split
    ensures Bucket(h, 2 * half, split) == split ==> h % (2 * half) == split || h % (2 * half) == split + half
  {
    ModHalf(h, half);
  }

  /** A finished round at one size is a fresh round at twice the size. */
  lemma BucketDouble(h: nat, half: nat)
    requires 0 < half
    ensures Bucket(h, 2 * half, half) == Bucket(h, 4 * half, 0)
  {
    ModHalf(h, half);
    ModHalf(h, 2 * half);
  }

  // ---------- placement of the entries, on values ----------

  ghost predicate DistinctKeys<K, V>(c: seq<Entry<K, V>>) {
    forall i, j :: 0 <= i < j < |c| ==> c[i].key != c[j].key
  }

  /** The entries of the map `m` whose current hash names bucket `b`. */
  ghost predicate BelongsIn<K(!new), V(!new)>(e: Entry<K, V>, m: map<K, V>,
         hash: K -> nat, size: nat, split: nat, b: nat)
    requires size >= 2
  {
    e.key in m && m[e.key] == e.node && Bucket(hash(e.key), size, split) == b
  }

  /** Bucket `b` holds exactly the entries that belong in it, each once. */
  ghost predicate ChainOk<K(!new), V(!new)>(c: seq<Entry<K, V>>, m: map<K, V>,
         hash: K -> nat, size: nat, split: nat, b: nat)
    requires size >= 2
  {
    && DistinctKeys(c)
    && forall e :: e in c <==> BelongsIn(e, m, hash, size, split, b)
  }

  ghost predicate Placed<K(!new), V(!new)>(bs: seq<seq<Entry<K, V>>>, m: map<K, V>,
         hash: K -> nat, size: nat, split: nat)
    requires size >= 2
  {
    |bs| == size && forall b :: 0 <= b < size ==> ChainOk(bs[b], m, hash, size, split, b)
  }

  lemma PlacedInsert<K(!new), V(!new)>(bs: seq<seq<Entry<K, V>>>, m: map<K, V>,
         hash: K -> nat, half: nat, split: nat, k: K, v: V)
    requires half > 0 && split <= half && Placed(bs, m, hash, 2 * half, split) && k !in m
    ensures var b := Bucket(hash(k), 2 * half, split);
            b < 2 * half && Placed(bs[b := [Entry(k, v)] + bs[b]], m[k := v], hash, 2 * half, split)
  {
    var b := Bucket(hash(k), 2 * half, split);
    BucketInRange(hash(k), half, split);
    var bs' := bs[b := [Entry(k, v)] + bs[b]];
    forall i | 0 <= i < 2 * half ensures ChainOk(bs'[i], m[k := v], hash, 2 * half, split, i) {
      assert ChainOk(bs[i], m, hash, 2 * half, split, i);
      if i == b {
        assert forall j :: 0 <= j < |bs[b]| ==> bs[b][j] in bs[b];
      }
    }
  }

  lemma PlacedRemove<K(!new), V(!new)>(bs: seq<seq<Entry<K, V>>>, m: map<K, V>,
         hash: K -> nat, half: nat, split: nat, b: nat, i: nat)
    requires half > 0 && split <= half && Placed(bs, m, hash, 2 * half, split)
    requires b < 2 * half && i < |bs[b]|
    ensures Placed(bs[b := bs[b][..i] + bs[b][i + 1..]], m - {bs[b][i].key}, hash, 2 * half, split)
  {
    var gone := bs[b][i];
    var c := bs[b][..i] + bs[b][i + 1..];
    var bs' := bs[b := c];
    assert gone in bs[b];
    forall j | 0 <= j < 2 * half ensures ChainOk(bs'[j], m - {gone.key}, hash, 2 * half, split, j) {
      assert ChainOk(bs[j], m, hash, 2 * half, split, j);
      if j == b {
        forall e ensures e in c <==> e in bs[b] && e.key != gone.key {
          RemovedAt(bs[b], i, e);
        }
      } else {
        assert BelongsIn(gone, m, hash, 2 * half, split, b);
      }
    }
  }

  lemma RemovedAt<K, V>(c: seq<Entry<K, V>>, i: nat, e: Entry<K, V>)
    requires i < |c| && DistinctKeys(c)
    ensures e in c[..i] + c[i + 1..] <==> e in c && e.key != c[i].key
  {
    var c' := c[..i] + c[i + 1..];
    if e in c && e.key != c[i].key {
      var j :| 0 <= j < |c| && c[j] == e;
      assert c'[if j < i then j else j - 1] == e;
    }
  }

  /** Splitting bucket `split`: its entries go to the lower or the upper bucket by their new hash. */
  lemma PlacedSplit<K(!new), V(!new)>(bs: seq<seq<Entry<K, V>>>, m: map<K, V>, hash: K -> nat, half: nat, split: nat,
                                      low: seq<Entry<K, V>>, up: seq<Entry<K, V>>)
    requires 0 < half && split < half && Placed(bs, m, hash, 2 * half, split)
    requires DistinctKeys(low) && DistinctKeys(up)
    requires forall e :: e in low <==> e in bs[split] && hash(e.key) % (2 * half) == split
    requires forall e :: e in up <==> e in bs[split] && hash(e.key) % (2 * half) != split
    ensures bs[split + half] == []
    ensures Placed(bs[split := low][split + half := up], m, hash, 2 * half, split + 1)
  {
    var bs' := bs[split := low][split + half := up];
    assert ChainOk(bs[split], m, hash, 2 * half, split, split);
    assert ChainOk(bs[split + half], m, hash, 2 * half, split, split + half);
    PlacedUpperEmpty(bs, m, hash, half, split);
    forall b | 0 <= b < 2 * half ensures ChainOk(bs'[b], m, hash, 2 * half, split + 1, b) {
      assert ChainOk(bs[b], m, hash, 2 * half, split, b);
      forall e ensures e in bs'[b] <==> BelongsIn(e, m, hash, 2 * half, split + 1, b) {
        BucketSplit(hash(e.key), half, split);
      }
    }
  }

  lemma PlacedUpperEmpty<K(!new), V(!new)>(bs: seq<seq<Entry<K, V>>>, m: map<K, V>,
         hash: K -> nat, half: nat, split: nat)
    requires 0 < half && split < half && Placed(bs, m, hash, 2 * half, split)
    ensures bs[split + half] == []
  {
    assert ChainOk(bs[split + half], m, hash, 2 * half, split, split + half);
    if bs[split + half] != [] {
      var e := bs[split + half][0];
      assert e in bs[split + half];
      BucketSplit(hash(e.key), half, split);
      assert false;
    }
  }

  /** Moving an entry between two chains keeps their keys distinct. */
  lemma MoveEntry<K, V>(c: seq<Entry<K, V>>, i: nat, d: seq<Entry<K, V>>)
    requires i < |c| && DistinctKeys(c) && DistinctKeys(d)
    requires forall e, e' :: e in c && e' in d ==> e.key != e'.key
    ensures var c', d' := c[..i] + c[i + 1..], [c[i]] + d;
            && DistinctKeys(c') && DistinctKeys(d')
            && (forall e, e' :: e in c' && e' in d' ==> e.key != e'.key)
            && (forall e :: e in c || e in d <==> e in c' || e in d')
  {
    var c', d' := c[..i] + c[i + 1..], [c[i]] + d;
    assert c[i] in c;
    forall e ensures e in c' <==> e in c && e.key != c[i].key {
      RemovedAt(c, i, e);
    }
    forall e | e in c && e !in c' ensures e == c[i] {
      var j :| 0 <= j < |c| && c[j] == e;
    }
    assert forall j :: 0 <= j < |d| ==> d[j] in d;
  }

  /**
   While the bucket `c` at the cursor `b` is being distributed: `low` is what is left of
   it, of which the first `i` entries stay, and `up` is what has moved.
   */
  ghost predicate Parted<K(!new), V(!new)>(c: seq<Entry<K, V>>, low: seq<Entry<K, V>>, up: seq<Entry<K, V>>,
                                           hash: K -> nat, size: nat, b: nat, i: nat)
    requires size > 0
  {
    && DistinctKeys(low) && DistinctKeys(up) && i <= |low|
    && (forall e :: e in c <==> e in low || e in up)
    && (forall e :: e in up ==> hash(e.key) % size != b)
    && (forall j :: 0 <= j < i ==> hash(low[j].key) % size == b)
    && (forall e, e' :: e in low && e' in up ==> e.key != e'.key)
  }

  lemma EntryMoves<K(!new), V(!new)>(c: seq<Entry<K, V>>, low: seq<Entry<K, V>>, up: seq<Entry<K, V>>,
                         hash: K -> nat, size: nat, b: nat, i: nat)
    requires size > 0 && Parted(c, low, up, hash, size, b, i) && i < |low| && hash(low[i].key) % size != b
    ensures Parted(c, low[..i] + low[i + 1..], [low[i]] + up, hash, size, b, i)
  {
    MoveEntry(low, i, up);
  }

  lemma PartStarts<K(!new), V(!new)>(bs: seq<seq<Entry<K, V>>>, m: map<K, V>, hash: K -> nat, half: nat, b: nat)
    requires 0 < half && b < half && Placed(bs, m, hash, 2 * half, b)
    ensures |bs| == 2 * half && Parted(bs[b], bs[b], [], hash, 2 * half, b, 0)
  {
    assert ChainOk(bs[b], m, hash, 2 * half, b, b);
  }

  /** An entry of the bucket at the cursor stays or belongs in the upper partner. */
  lemma EntryGoes<K(!new), V(!new)>(bs: seq<seq<Entry<K, V>>>, m: map<K, V>, hash: K -> nat, half: nat, b: nat,
                        low: seq<Entry<K, V>>, up: seq<Entry<K, V>>, i: nat)
    requires 0 < half && b < half && Placed(bs, m, hash, 2 * half, b)
    requires Parted(bs[b], low, up, hash, 2 * half, b, i) && i < |low|
    ensures var h := hash(low[i].key);
            && (Bucket(h, 2 * half, b + 1) == h % (2 * half) == b
                   || Bucket(h, 2 * half, b + 1) == h % (2 * half) == b + half)
            && (h % (2 * half) == b ==> Parted(bs[b], low, up, hash, 2 * half, b, i + 1))
  {
    hide DistinctKeys, Bucket;
    assert low[i] in low && low[i] in bs[b];
    assert ChainOk(bs[b], m, hash, 2 * half, b, b);
    BucketSplit(hash(low[i].key), half, b);
  }

  lemma AllParted<K(!new), V(!new)>(c: seq<Entry<K, V>>, low: seq<Entry<K, V>>, up: seq<Entry<K, V>>,
                        hash: K -> nat, size: nat, b: nat)
    requires size > 0 && Parted(c, low, up, hash, size, b, |low|)
    ensures DistinctKeys(low) && DistinctKeys(up)
    ensures forall e :: e in low <==> e in c && hash(e.key) % size == b
    ensures forall e :: e in up <==> e in c && hash(e.key) % size != b
  {
  }

  /** Merging the last split bucket back: the exact inverse of a split. */
  lemma PlacedMerge<K(!new), V(!new)>(bs: seq<seq<Entry<K, V>>>, m: map<K, V>, hash: K -> nat, half: nat, split: nat)
    requires 0 < half && split < half && Placed(bs, m, hash, 2 * half, split + 1)
    ensures Placed(bs[split := bs[split] + bs[split + half]][split + half := []], m, hash, 2 * half, split)
  {
    var low, up := bs[split], bs[split + half];
    var bs' := bs[split := low + up][split + half := []];
    assert ChainOk(low, m, hash, 2 * half, split + 1, split);
    assert ChainOk(up, m, hash, 2 * half, split + 1, split + half);
    forall i, j | 0 <= i < |low| && 0 <= j < |up| ensures low[i].key != up[j].key {
      assert low[i] in low && up[j] in up;
    }
    forall b | 0 <= b < 2 * half ensures ChainOk(bs'[b], m, hash, 2 * half, split, b) {
      assert ChainOk(bs[b], m, hash, 2 * half, split + 1, b);
      forall e ensures e in bs'[b] <==> BelongsIn(e, m, hash, 2 * half, split, b) {
        BucketSplit(hash(e.key), half, split);
      }
    }
  }

  /** Doubling the array of a completely split table starts a new round. */
  lemma PlacedDouble<K(!new), V(!new)>(bs: seq<seq<Entry<K, V>>>, m: map<K, V>,
         hash: K -> nat, half: nat, bs': seq<seq<Entry<K, V>>>)
    requires 0 < half && Placed(bs, m, hash, 2 * half, half)
    requires |bs'| == 4 * half
    requires forall b :: 0 <= b < 4 * half ==> bs'[b] == if b < 2 * half then bs[b] else []
    ensures Placed(bs', m, hash, 4 * half, 0)
  {
    forall b | 0 <= b < 4 * half ensures ChainOk(bs'[b], m, hash, 4 * half, 0, b) {
      if b < 2 * half {
        assert ChainOk(bs[b], m, hash, 2 * half, half, b);
      }
      forall e ensures e in bs'[b] <==> BelongsIn(e, m, hash, 4 * half, 0, b) {
        BucketDouble(hash(e.key), half);
        BucketInRange(hash(e.key), 2 * half, 0);
      }
    }
  }

  /** Halving the array of a completely merged table loses no entry: the upper half is empty. */
  lemma PlacedHalve<K(!new), V(!new)>(bs: seq<seq<Entry<K, V>>>, m: map<K, V>, hash: K -> nat, half: nat)
    requires 0 < half && Placed(bs, m, hash, 4 * half, 0)
    ensures Placed(bs[..2 * half], m, hash, 2 * half, half)
  {
    forall b | 0 <= b < 2 * half ensures ChainOk(bs[..2 * half][b], m, hash, 2 * half, half, b) {
      assert ChainOk(bs[b], m, hash, 4 * half, 0, b);
      forall e ensures BelongsIn(e, m, hash, 4 * half, 0, b) <==> BelongsIn(e, m, hash, 2 * half, half, b) {
        BucketDouble(hash(e.key), half);
      }
    }
  }

  // ---------- the table ----------

  class NodeTable<K(==, !new), V(==, !new)> {
    const hash: K -> nat
    var buckets: array<seq<Entry<K, V>>>
    var use: nat
    var size: nat
    var split: nat
    ghost var contents: map<K, V>

    /**
     Every node is in the bucket that its key names; `split` is at the half only while the array
     could not be enlarged.
     */
    ghost predicate Valid()
      reads this, buckets
    {
      && buckets.Length == size && TableSize(size) && size % 2 == 0
      && split <= size / 2
      && use == |contents|
      && Placed(buckets[..], contents, hash, size, split)
    }

    /** The number of buckets in use is `size / 2 + split`, so this bounds the average chain length by one. */
    ghost predicate Loaded()
      reads this
    {
      split < size / 2 && use <= size / 2 + split
    }

    constructor (hash: K -> nat)
      ensures Valid() && Loaded() && fresh(buckets) && contents == map[] && this.hash == hash
    {
      this.hash := hash;
      buckets := new seq<Entry<K, V>>[MIN_SIZE](_ => []);
      size, use, split := MIN_SIZE, 0, 0;
      contents := map[];
    }

    /** `get_node_nocheck` and `lookup_node`. */
    method Lookup(k: K) returns (r: Option<V>)
      requires Valid()
      ensures r == if k in contents then Some(contents[k]) else None
    {
      var b := Bucket(hash(k), size, split);
      BucketInRange(hash(k), size / 2, split);
      var chain := buckets[b];
      assert ChainOk(chain, contents, hash, size, split, b);
      var i := 0;
      while i < |chain|
        invariant 0 <= i <= |chain|
        invariant forall j :: 0 <= j < i ==> chain[j].key != k
      {
        if chain[i].key == k {
          assert chain[i] in chain;
          return Some(chain[i].node);
        }
        i := i + 1;
      }
      assert k in contents ==> BelongsIn(Entry(k, contents[k]), contents, hash, size, split, b);
      return None;
    }

    /** `hash_id`, and the hashing half of `hash_name`; `mem` says whether the array could be enlarged. */
    method Insert(k: K, v: V, mem: bool)
      requires Valid() && k !in contents
      modifies this, buckets
      ensures Valid() && contents == old(contents)[k := v]
      ensures old(Loaded()) && mem ==> Loaded()
      ensures buckets == old(buckets) || fresh(buckets)
    {
      PlacedInsert(buckets[..], contents, hash, size / 2, split, k, v);
      var b := Bucket(hash(k), size, split);
      ghost var bs := buckets[..];
      buckets[b] := [Entry(k, v)] + buckets[b];
      assert buckets[..] == bs[b := [Entry(k, v)] + bs[b]];
      contents := contents[k := v];
      use := use + 1;
      if use >= size / 2 {
        Rehash(mem);
      }
    }

    /**
     `rehash_id` / `rehash_name`: splits one more bucket, and doubles the array after the
     last. If that fails nothing is split any more, until a bucket has been merged again.
     */
    method Rehash(mem: bool)
      requires Valid()
      modifies this, buckets
      ensures Valid()
      ensures contents == old(contents) && use == old(use)
      ensures old(split < size / 2) ==> size / 2 + split == old(size / 2 + split) + 1 && (mem ==> split < size / 2)
      ensures old(split == size / 2) ==> size == old(size) && split == old(split) && buckets == old(buckets)
      ensures buckets == old(buckets) || fresh(buckets)
    {
      hide Placed, Parted, DistinctKeys, Bucket;
      if split == size / 2 {
        return;
      }
      var b := split;
      ghost var bs := buckets[..];
      ghost var half := size / 2;
      split := split + 1;
      var up := b + size / 2;
      PartStarts(bs, contents, hash, half, b);
      PlacedUpperEmpty(bs, contents, hash, half, b);
      var i := 0;
      while i < |buckets[b]|
        invariant buckets == old(buckets) && buckets.Length == size == old(size) && split == b + 1 && use == old(use)
        invariant contents == old(contents) && i <= |buckets[b]|
        invariant forall j :: 0 <= j < size && j != b && j != up ==> buckets[j] == bs[j]
        invariant Parted(bs[b], buckets[b], buckets[up], hash, size, b, i)
        decreases |buckets[b]| - i
      {
        var e := buckets[b][i];
        EntryGoes(bs, contents, hash, half, b, buckets[b], buckets[up], i);
        var newhash := Bucket(hash(e.key), size, split);
        if newhash != b {
          EntryMoves(bs[b], buckets[b], buckets[up], hash, size, b, i);
          buckets[b] := buckets[b][..i] + buckets[b][i + 1..];
          buckets[newhash] := [e] + buckets[newhash];
        } else {
          i := i + 1;
        }
      }
      AllParted(bs[b], buckets[b], buckets[up], hash, size, b);
      PlacedSplit(bs, contents, hash, half, b, buckets[b], buckets[up]);
      assert buckets[..] == bs[b := buckets[b]][up := buckets[up]];
      if split == size / 2 {
        var ok := Resize(mem);
      }
    }

    /** `node_table_resize` */
    method Resize(mem: bool) returns (ok: bool)
      requires Valid() && split == size / 2
      modifies this
      ensures Valid() && contents == old(contents) && use == old(use) && ok == mem
      ensures ok ==> fresh(buckets) && size == 2 * old(size) && split == 0
      ensures !ok ==> buckets == old(buckets) && size == old(size) && split == old(split)
    {
      var newsize := size * 2;
      if !mem {
        return false;
      }
      var a := buckets;
      ghost var bs := a[..];
      buckets := new seq<Entry<K, V>>[newsize](
        i requires 0 <= i < newsize reads a => if i < a.Length then a[i] else []);
      PlacedDouble(bs, contents, hash, size / 2, buckets[..]);
      size := newsize;
      split := 0;
      return true;
    }

    /** `unhash_id`, and the unhashing half of `unhash_name`: finds the node by identity. */
    method Remove(k: K, v: V)
      requires Valid() && k in contents && contents[k] == v
      modifies this, buckets
      ensures Valid() && contents == old(contents) - {k} && (old(Loaded()) ==> Loaded())
      ensures buckets == old(buckets) || fresh(buckets)
    {
      var b := Bucket(hash(k), size, split);
      BucketInRange(hash(k), size / 2, split);
      ghost var bs := buckets[..];
      assert ChainOk(bs[b], contents, hash, size, split, b);
      assert BelongsIn(Entry(k, v), contents, hash, size, split, b);
      var i := 0;
      while i < |buckets[b]|
        invariant 0 <= i <= |buckets[b]| && buckets[..] == bs && Valid() && contents == old(contents)
                  && buckets == old(buckets)
        invariant old(Loaded()) ==> Loaded()
        invariant forall j :: 0 <= j < i ==> bs[b][j] != Entry(k, v)
      {
        if buckets[b][i] == Entry(k, v) {
          PlacedRemove(bs, contents, hash, size / 2, split, b, i);
          buckets[b] := buckets[b][..i] + buckets[b][i + 1..];
          assert buckets[..] == bs[b := bs[b][..i] + bs[b][i + 1..]];
          contents := contents - {k};
          use := use - 1;
          if use < size / 4 {
            Remerge();
          }
          return;
        }
        i := i + 1;
      }
      // "unable to unhash node" would be reported here
      assert false;
    }

    /** `node_table_reduce` */
    method Reduce()
      requires Valid() && split == 0 && use < size / 4
      modifies this
      ensures Valid() && (buckets == old(buckets) || fresh(buckets))
      ensures contents == old(contents) && use == old(use)
      ensures if old(size) / 2 < MIN_SIZE then size == old(size) && split == 0
              else size == old(size) / 2 && split == size / 2
    {
      var newsize := size / 2;
      if newsize < MIN_SIZE {
        return;
      }
      TableSizeEven(newsize);
      var a := buckets;
      buckets := new seq<Entry<K, V>>[newsize](i requires 0 <= i < newsize && i < a.Length reads a => a[i]);
      assert buckets[..] == a[..newsize] == a[..][..newsize];
      PlacedHalve(a[..], contents, hash, newsize / 2);
      size := newsize;
      split := size / 2;
    }

    /** One turn of the loop in `remerge_id` / `remerge_name`: whether it had entries to move. */
    method MergeOne() returns (moved: bool)
      requires Valid() && split > 0
      modifies this`split, buckets
      ensures Valid() && split == old(split) - 1
    {
      ghost var bs := buckets[..];
      split := split - 1;
      var up := split + size / 2;
      ghost var merged := bs[split := bs[split] + bs[up]][up := []];
      PlacedMerge(bs, contents, hash, size / 2, split);
      moved := buckets[up] != [];
      if moved {
        buckets[split] := buckets[split] + buckets[up];
        buckets[up] := [];
      } else {
        assert bs[split] + [] == bs[split];
      }
      assert buckets[..] == merged;
    }

    /** `remerge_id` / `remerge_name`: merges back until one bucket had something to move, at most eight. */
    method Remerge()
      requires Valid() && use < size / 4
      modifies this, buckets
      ensures Valid() && Loaded() && contents == old(contents) && use == old(use)
      ensures buckets == old(buckets) || fresh(buckets)
    {
      if split == 0 {
        Reduce();
      }
      var iter := 8;
      while split > 0 && iter > 0
        invariant Valid() && contents == old(contents) && use == old(use) && use <= size / 2
        invariant iter < 8 ==> split < size / 2
        invariant buckets == old(buckets) || fresh(buckets)
        decreases iter
      {
        var moved := MergeOne();
        if moved {
          break;
        }
        iter := iter - 1;
      }
    }
  }
}

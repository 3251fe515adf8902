/**
 The graph of file system nodes that libfuse keeps for the kernel: names, parents,
 lookup counts and reference counts, and the deletion that cascades to the parents
 when the last reference to a node goes away.
 */
module NodeGraph {
  import opened Common

  type Ino = nat

  /** FUSE_ROOT_ID */
  const ROOT: Ino := 1

  /** `node->parent` (by id) and `node->name`, which are always set and cleared together. */
  datatype Link = Link(parent: Ino, name: string)

  datatype Node = Node(link: Option<Link>, refctr: int, nlookup: nat, generation: nat)

  /** `id_table` and `name_table` as the maps that they implement. */
  datatype Graph = Graph(nodes: map<Ino, Node>, names: map<Link, Ino>)

  // ---------- the operations, in the order in which the code updates the tables ----------

  function SetRefs(g: Graph, n: Ino, r: int): Graph
    requires n in g.nodes
  {
    g.(nodes := g.nodes[n := g.nodes[n].(refctr := r)])
  }

  function SetLink(g: Graph, n: Ino, l: Option<Link>): Graph
    requires n in g.nodes
  {
    g.(nodes := g.nodes[n := g.nodes[n].(link := l)])
  }

  function SetLookups(g: Graph, n: Ino, k: nat): Graph
    requires n in g.nodes
  {
    g.(nodes := g.nodes[n := g.nodes[n].(nlookup := k)])
  }

  function DropName(g: Graph, l: Link): Graph {
    g.(names := g.names - {l})
  }

  function FreeNode(g: Graph, n: Ino): Graph {
    g.(nodes := g.nodes - {n})
  }

  /** `unref_node`: the last reference takes the node's name, one reference to its parent, and the node. */
  function Unref(g: Graph, n: Ino): Graph
    decreases |g.names|
  {
    if n !in g.nodes then g
    else
      var g1 := SetRefs(g, n, g.nodes[n].refctr - 1);
      if g1.nodes[n].refctr != 0 then g1
      else if g.nodes[n].link.None? || g.nodes[n].link.value !in g.names then FreeNode(g1, n)
      else
        var l := g.nodes[n].link.value;
        assert g.names.Keys == DropName(g1, l).names.Keys + {l};
        FreeNode(Unref(DropName(g1, l), l.parent), n)
  }

  /** `unhash_name` */
  function UnhashName(g: Graph, n: Ino): Graph {
    if n !in g.nodes || g.nodes[n].link.None? || g.nodes[n].link.value !in g.names then g
    else
      var l := g.nodes[n].link.value;
      var g1 := Unref(DropName(g, l), l.parent);
      if n in g1.nodes then SetLink(g1, n, None) else g1
  }

  /** `hash_name` */
  function HashName(g: Graph, n: Ino, l: Link): Graph
    requires n in g.nodes && l.parent in g.nodes
  {
    var g1 := SetRefs(g, l.parent, g.nodes[l.parent].refctr + 1);
    var g2 := SetLink(g1, n, Some(l));
    g2.(names := g.names[l := n])
  }

  /** `inc_nlookup` */
  function IncLookup(g: Graph, n: Ino): Graph
    requires n in g.nodes
  {
    var node := g.nodes[n];
    SetLookups(if node.nlookup == 0 then SetRefs(g, n, node.refctr + 1) else g, n, node.nlookup + 1)
  }

  /** `find_node` for a name; `id` and `generation` are what `next_id` would hand out. */
  function FindNode(g: Graph, l: Link, id: Ino, generation: nat): Graph
    requires l.parent in g.nodes && (l in g.names ==> g.names[l] in g.nodes)
  {
    if l in g.names then IncLookup(g, g.names[l])
    else IncLookup(HashName(g.(nodes := g.nodes[id := Node(None, 0, 0, generation)]), id, l), id)
  }

  /** `forget_node`, once it no longer waits. */
  function Forget(g: Graph, n: Ino, k: nat): Graph
    requires n in g.nodes && k <= g.nodes[n].nlookup
  {
    if n == ROOT then g
    else
      var g1 := SetLookups(g, n, g.nodes[n].nlookup - k);
      if g1.nodes[n].nlookup == 0 then Unref(g1, n) else g1
  }

  /** `remove_node` */
  function Remove(g: Graph, l: Link): Graph {
    if l in g.names then UnhashName(g, g.names[l]) else g
  }

  datatype RenameResult = RenameResult(g: Graph, busy: bool)

  /** `rename_node` */
  function Rename(g: Graph, lo: Link, ln: Link, hiding: bool): RenameResult {
    if lo !in g.names then RenameResult(g, false)
    else if ln in g.names && hiding then RenameResult(g, true)
    else
      var g1 := if ln in g.names then UnhashName(g, g.names[ln]) else g;
      var g2 := UnhashName(g1, g.names[lo]);
      if g.names[lo] in g2.nodes && ln.parent in g2.nodes
      then RenameResult(HashName(g2, g.names[lo], ln), false)
      else RenameResult(g2, false)
  }

  // ---------- the invariant ----------

  /** The names hashed under directory `p`: its children in the name table. */
  function HashedChildren(g: Graph, p: Ino): set<Link> {
    set l | l in g.names && l.parent == p
  }

  /** The references that exist to a node; `pins` are those held for a short time by requests. */
  function Refs(g: Graph, pins: multiset<Ino>, n: Ino): nat
    requires n in g.nodes
  {
    (if g.nodes[n].nlookup > 0 then 1 else 0) + |HashedChildren(g, n)| + pins[n]
  }

  /**
   The two tables agree. `dying` are the nodes inside `delete_node`, whose name has left
   the name table already.
   */
  ghost predicate Structure(g: Graph, dying: set<Ino>) {
    && (forall l :: l in g.names ==>
          && g.names[l] in g.nodes && g.nodes[g.names[l]].link == Some(l) && l.parent in g.nodes
          && g.names[l] !in dying && l.parent !in dying)
    && (forall n :: n in g.nodes && n !in dying && g.nodes[n].link.Some? ==>
          g.nodes[n].link.value in g.names && g.names[g.nodes[n].link.value] == n)
    && (forall n :: n in dying ==> n in g.nodes)
  }

  /** Every reference count is exact, except that `surplus` counts one reference too many. */
  ghost predicate Counted(g: Graph, pins: multiset<Ino>, dying: set<Ino>, surplus: Option<Ino>) {
    forall n :: n in g.nodes ==>
      && g.nodes[n].refctr == Refs(g, pins, n) + (if surplus == Some(n) then 1 else 0)
      && (g.nodes[n].refctr == 0 <==> n in dying)
  }

  /** A witness that following parents always ends. */
  ghost predicate Ranked(g: Graph, rank: map<Ino, nat>) {
    && (forall n :: n in g.nodes ==> n in rank)
    && (forall l :: l in g.names ==> g.names[l] in rank && l.parent in rank && rank[g.names[l]] > rank[l.parent])
  }

  ghost predicate Acyclic(g: Graph) {
    exists rank :: Ranked(g, rank)
  }

  ghost predicate RootOk(g: Graph) {
    ROOT in g.nodes && g.nodes[ROOT].link.None? && g.nodes[ROOT].nlookup > 0
  }

  ghost predicate PinsOk(g: Graph, pins: multiset<Ino>) {
    forall n :: n in pins ==> n in g.nodes
  }

  /** The state of the node graph between operations. */
  ghost predicate GraphInv(g: Graph, pins: multiset<Ino>) {
    Structure(g, {}) && Counted(g, pins, {}, None) && Acyclic(g) && RootOk(g) && PinsOk(g, pins)
  }

  /** A node that the kernel has looked up, or that a running request has pinned. */
  ghost predicate Anchor(g: Graph, pins: multiset<Ino>, n: Ino) {
    n in g.nodes && (g.nodes[n].nlookup > 0 || pins[n] > 0)
  }

  /** A non-empty walk from child to parent in the name table. */
  ghost predicate UpPath(g: Graph, p: seq<Ino>) {
    && |p| > 0 && p[0] in g.nodes
    && forall i :: 0 <= i < |p| - 1 ==> Edge(g, p[i], p[i + 1])
  }

  ghost predicate Edge(g: Graph, n: Ino, parent: Ino) {
    && n in g.nodes && g.nodes[n].link.Some?
    && g.nodes[n].link.value in g.names && g.names[g.nodes[n].link.value] == n
    && g.nodes[n].link.value.parent == parent
  }

  /** A node is needed when it, or something below it, is anchored. */
  ghost predicate Supported(g: Graph, pins: multiset<Ino>, n: Ino) {
    exists p :: UpPath(g, p) && Anchor(g, pins, p[0]) && p[|p| - 1] == n
  }

  // ---------- the cascade ----------

  lemma UnhashedChildren(g: Graph, l: Link, p: Ino)
    requires l in g.names
    ensures HashedChildren(DropName(g, l), p) == HashedChildren(g, p) - {l}
    ensures |HashedChildren(DropName(g, l), p)| == |HashedChildren(g, p)| - (if l.parent == p then 1 else 0)
  {
    assert HashedChildren(DropName(g, l), p) == HashedChildren(g, p) - {l};
  }

  /** Updates of node records leave the children alone. */
  lemma SameChildren(g: Graph, g': Graph)
    requires g'.names == g.names
    ensures forall p :: HashedChildren(g', p) == HashedChildren(g, p)
  {
  }

  lemma NoChildren(g: Graph, n: Ino)
    requires HashedChildren(g, n) == {}
    ensures forall l :: l in g.names ==> l.parent != n
  {
    forall l | l in g.names ensures l.parent != n {
      assert l !in HashedChildren(g, n);
    }
  }

  /** The last reference to `n` is gone: nothing is hashed under it and nobody needs it. */
  lemma LastReference(g: Graph, pins: multiset<Ino>, dying: set<Ino>, n: Ino)
    requires Structure(g, dying) && Counted(g, pins, dying, Some(n))
    requires n in g.nodes && g.nodes[n].refctr == 1
    ensures n !in dying && HashedChildren(g, n) == {} && !Anchor(g, pins, n)
    ensures Structure(SetRefs(g, n, 0), dying) && Counted(SetRefs(g, n, 0), pins, dying + {n}, None)
  {
    assert Refs(g, pins, n) == 0;
    SameChildren(g, SetRefs(g, n, 0));
  }

  /** Its name leaves the name table, so its parent has one reference too many. */
  lemma NameLeaves(g: Graph, dying: set<Ino>, n: Ino, l: Link)
    requires Structure(g, dying)
    requires n in g.nodes && n !in dying && g.nodes[n].link == Some(l) && HashedChildren(g, n) == {}
    ensures l.parent in g.nodes && l.parent != n
    ensures forall l' :: l' in g.names && g.names[l'] == n <==> l' == l
    ensures Structure(DropName(g, l), dying + {n})
  {
    NoChildren(g, n);
  }

  lemma NameLeavesCounted(g: Graph, pins: multiset<Ino>, dying: set<Ino>, l: Link)
    requires Counted(g, pins, dying, None) && l in g.names
    ensures Counted(DropName(g, l), pins, dying, Some(l.parent))
  {
    forall p ensures |HashedChildren(DropName(g, l), p)| == |HashedChildren(g, p)| - (if l.parent == p then 1 else 0) {
      UnhashedChildren(g, l, p);
    }
  }

  /** What a cascade may do: it drops nodes with their names, never an anchored or a dying one. */
  ghost predicate Collected(g: Graph, g': Graph, pins: multiset<Ino>, dying: set<Ino>) {
    && (forall m :: m in g'.nodes ==>
          && m in g.nodes && g'.nodes[m].link == g.nodes[m].link
          && g'.nodes[m].nlookup == g.nodes[m].nlookup && g'.nodes[m].generation == g.nodes[m].generation)
    && (forall l :: l in g'.names <==> l in g.names && g.names[l] in g'.nodes)
    && (forall l :: l in g'.names ==> g'.names[l] == g.names[l])
    && (forall m :: Anchor(g, pins, m) ==> m in g'.nodes)
    && (forall m :: m in dying ==> m in g'.nodes && g'.nodes[m] == g.nodes[m])
  }

  /** Freeing a dead node that nothing refers to any more completes its deletion. */
  lemma FreeDead(g: Graph, pins: multiset<Ino>, dying: set<Ino>, n: Ino)
    requires n !in dying && Structure(g, dying + {n}) && Counted(g, pins, dying + {n}, None)
    ensures Structure(FreeNode(g, n), dying) && Counted(FreeNode(g, n), pins, dying, None)
  {
    assert n in dying + {n};
    SameChildren(g, FreeNode(g, n));
  }

  lemma FreeCollected(g: Graph, g2: Graph, g3: Graph, pins: multiset<Ino>, dying: set<Ino>, n: Ino)
    requires n in g.nodes && n !in dying && !Anchor(g, pins, n)
    requires g2.nodes == SetRefs(g, n, 0).nodes
    requires forall l :: l in g2.names <==> l in g.names && g.names[l] != n
    requires forall l :: l in g2.names ==> g2.names[l] == g.names[l]
    requires Collected(g2, g3, pins, dying + {n})
    ensures Collected(g, FreeNode(g3, n), pins, dying)
  {
    assert forall m :: Anchor(g, pins, m) ==> Anchor(g2, pins, m);
  }

  /** Entering `delete_node` for a named node: the node dies, and its parent is left with the surplus. */
  lemma NamedDies(g: Graph, pins: multiset<Ino>, dying: set<Ino>, n: Ino, l: Link)
    requires Structure(g, dying) && Counted(g, pins, dying, Some(n))
    requires n in g.nodes && g.nodes[n].refctr == 1 && g.nodes[n].link == Some(l)
    ensures n !in dying && !Anchor(g, pins, n) && l in g.names && l.parent in g.nodes && l.parent != n
    ensures forall l' :: l' in g.names && g.names[l'] == n <==> l' == l
    ensures var g2 := DropName(SetRefs(g, n, 0), l);
            Structure(g2, dying + {n}) && Counted(g2, pins, dying + {n}, Some(l.parent))
  {
    hide Structure, Counted;
    var g1 := SetRefs(g, n, 0);
    LastReference(g, pins, dying, n);
    SameChildren(g, g1);
    NameLeaves(g1, dying, n, l);
    NameLeavesCounted(g1, pins, dying + {n}, l);
  }

  /** Entering `delete_node` for a node without a name. */
  lemma NamelessDies(g: Graph, pins: multiset<Ino>, dying: set<Ino>, n: Ino)
    requires Structure(g, dying) && Counted(g, pins, dying, Some(n))
    requires n in g.nodes && g.nodes[n].refctr == 1 && g.nodes[n].link.None?
    ensures n !in dying && !Anchor(g, pins, n)
    ensures forall l :: l in g.names ==> g.names[l] != n
    ensures var g2 := SetRefs(g, n, 0);
            Structure(g2, dying + {n}) && Counted(g2, pins, dying + {n}, None) && Collected(g2, g2, pins, dying + {n})
  {
    LastReference(g, pins, dying, n);
    NoChildren(g, n);
  }

  /** Releasing a surplus reference restores the exact counts, deleting upwards as far as needed. */
  lemma {:induction false} UnrefCollects(g: Graph, pins: multiset<Ino>, dying: set<Ino>, n: Ino)
    requires Structure(g, dying) && n in g.nodes && Counted(g, pins, dying, Some(n))
    ensures Structure(Unref(g, n), dying) && Counted(Unref(g, n), pins, dying, None)
    ensures Collected(g, Unref(g, n), pins, dying)
    decreases |g.names|
  {
    hide Structure, Counted, Collected;
    if g.nodes[n].refctr == 1 {
      var g1 := SetRefs(g, n, 0);
      var g3;
      if g.nodes[n].link.Some? {
        var l := g.nodes[n].link.value;
        NamedDies(g, pins, dying, n, l);
        var g2 := DropName(g1, l);
        assert g.names.Keys == g2.names.Keys + {l};
        UnrefCollects(g2, pins, dying + {n}, l.parent);
        g3 := Unref(g2, l.parent);
        FreeCollected(g, g2, g3, pins, dying, n);
      } else {
        NamelessDies(g, pins, dying, n);
        g3 := g1;
        FreeCollected(g, g1, g1, pins, dying, n);
      }
      FreeDead(g3, pins, dying, n);
      assert Unref(g, n) == FreeNode(g3, n);
    } else {
      JustCounted(g, pins, dying, n);
    }
  }

  /** Two graphs that differ in reference and lookup counts only. */
  ghost predicate SameShape(g: Graph, g': Graph) {
    && g'.names == g.names && g'.nodes.Keys == g.nodes.Keys
    && forall n :: n in g.nodes ==>
           g'.nodes[n].link == g.nodes[n].link && g'.nodes[n].generation == g.nodes[n].generation
  }

  lemma ShapeKeepsStructure(g: Graph, g': Graph, dying: set<Ino>)
    requires Structure(g, dying) && SameShape(g, g')
    ensures Structure(g', dying)
  {
  }

  lemma CountsDown(g: Graph, pins: multiset<Ino>, dying: set<Ino>, n: Ino)
    requires n in g.nodes && Counted(g, pins, dying, Some(n)) && g.nodes[n].refctr != 1
    ensures n !in dying && Counted(SetRefs(g, n, g.nodes[n].refctr - 1), pins, dying, None)
  {
    var g' := SetRefs(g, n, g.nodes[n].refctr - 1);
    SameChildren(g, g');
    assert forall m :: m in g.nodes ==> Refs(g', pins, m) == Refs(g, pins, m);
  }

  lemma JustCounted(g: Graph, pins: multiset<Ino>, dying: set<Ino>, n: Ino)
    requires Structure(g, dying) && n in g.nodes && Counted(g, pins, dying, Some(n)) && g.nodes[n].refctr != 1
    ensures var g' := SetRefs(g, n, g.nodes[n].refctr - 1);
            Structure(g', dying) && Counted(g', pins, dying, None) && Collected(g, g', pins, dying)
  {
    hide Counted;
    CountsDown(g, pins, dying, n);
    ShapeKeepsStructure(g, SetRefs(g, n, g.nodes[n].refctr - 1), dying);
  }

  // ---------- which nodes a cascade frees ----------

  /** Everything above a surviving node survives. */
  lemma {:induction false} PathSurvives(g: Graph, g': Graph, pins: multiset<Ino>, p: seq<Ino>)
    requires Structure(g', {}) && Collected(g, g', pins, {}) && UpPath(g, p) && p[0] in g'.nodes
    ensures p[|p| - 1] in g'.nodes
    decreases |p|
  {
    if |p| > 1 {
      assert Edge(g, p[0], p[1]);
      var l := g.nodes[p[0]].link.value;
      assert l in g'.names;
      forall i | 0 <= i < |p[1..]| - 1 ensures Edge(g, p[1..][i], p[1..][i + 1]) {
        assert Edge(g, p[i + 1], p[i + 2]);
      }
      PathSurvives(g, g', pins, p[1..]);
    }
  }

  lemma NeededSurvive(g: Graph, g': Graph, pins: multiset<Ino>, n: Ino)
    requires Structure(g', {}) && Collected(g, g', pins, {}) && Supported(g, pins, n)
    ensures n in g'.nodes
  {
    var p :| UpPath(g, p) && Anchor(g, pins, p[0]) && p[|p| - 1] == n;
    PathSurvives(g, g', pins, p);
  }

  lemma SupportFromBefore(g: Graph, g': Graph, pins: multiset<Ino>, n: Ino)
    requires Collected(g, g', pins, {}) && Supported(g', pins, n)
    ensures Supported(g, pins, n)
  {
    var p :| UpPath(g', p) && Anchor(g', pins, p[0]) && p[|p| - 1] == n;
    forall i | 0 <= i < |p| - 1 ensures Edge(g, p[i], p[i + 1]) {
      assert Edge(g', p[i], p[i + 1]);
    }
    assert UpPath(g, p) && Anchor(g, pins, p[0]);
  }

  lemma {:induction false} RankBound(s: set<Ino>, rank: map<Ino, nat>) returns (m: nat)
    requires forall n :: n in s ==> n in rank
    ensures forall n :: n in s ==> rank[n] <= m
  {
    m := 0;
    if s != {} {
      var x :| x in s;
      var m' := RankBound(s - {x}, rank);
      m := if rank[x] > m' then rank[x] else m';
    }
  }

  /** With exact counts, a node that is not anchored has a child; going down must end at an anchor. */
  lemma {:induction false} DownToAnchor(g: Graph, pins: multiset<Ino>, rank: map<Ino, nat>, bound: nat, p: seq<Ino>)
    requires Structure(g, {}) && Counted(g, pins, {}, None) && Ranked(g, rank)
    requires forall n :: n in g.nodes ==> rank[n] <= bound
    requires UpPath(g, p)
    ensures Supported(g, pins, p[|p| - 1])
    decreases bound - rank[p[0]]
  {
    var n := p[0];
    if !Anchor(g, pins, n) {
      assert |HashedChildren(g, n)| > 0;
      var l :| l in HashedChildren(g, n);
      assert Edge(g, g.names[l], n);
      UpPathCons(g, g.names[l], p);
      DownToAnchor(g, pins, rank, bound, [g.names[l]] + p);
    }
  }

  /** In every state between operations, each node in the id table is needed by the kernel or a request. */
  lemma AllSupported(g: Graph, pins: multiset<Ino>, n: Ino)
    requires Structure(g, {}) && Counted(g, pins, {}, None) && Acyclic(g) && n in g.nodes
    ensures Supported(g, pins, n)
  {
    var rank :| Ranked(g, rank);
    var bound := RankBound(g.nodes.Keys, rank);
    DownToAnchor(g, pins, rank, bound, [n]);
  }

  lemma CollectedAcyclic(g: Graph, g': Graph, pins: multiset<Ino>)
    requires Acyclic(g) && Collected(g, g', pins, {})
    ensures Acyclic(g')
  {
    var rank :| Ranked(g, rank);
    assert Ranked(g', rank);
  }

  lemma AnchorsStay(g: Graph, g': Graph, pins: multiset<Ino>)
    requires RootOk(g) && PinsOk(g, pins) && Collected(g, g', pins, {})
    ensures RootOk(g') && PinsOk(g', pins)
  {
    assert Anchor(g, pins, ROOT);
    assert forall m :: m in pins ==> Anchor(g, pins, m);
  }

  lemma CollectedFrom(g: Graph, g': Graph, pins: multiset<Ino>, m: Ino)
    requires Collected(g, g', pins, {}) && m in g'.nodes
    ensures m in g.nodes
  {
  }

  /**
   Releasing a reference frees exactly the nodes that neither are anchored nor have an
   anchored descendant; all others stay, with their names and lookup counts.
   */
  lemma UnrefFreesUnneeded(g: Graph, pins: multiset<Ino>, n: Ino)
    requires Structure(g, {}) && Acyclic(g) && RootOk(g) && PinsOk(g, pins)
    requires n in g.nodes && Counted(g, pins, {}, Some(n))
    ensures GraphInv(Unref(g, n), pins)
    ensures forall m :: m in Unref(g, n).nodes <==> m in g.nodes && Supported(g, pins, m)
    ensures Collected(g, Unref(g, n), pins, {})
  {
    hide Structure, Counted, Collected, Acyclic, RootOk, PinsOk, Supported, Unref;
    var g' := Unref(g, n);
    UnrefCollects(g, pins, {}, n);
    CollectedAcyclic(g, g', pins);
    AnchorsStay(g, g', pins);
    forall m ensures m in g'.nodes <==> m in g.nodes && Supported(g, pins, m) {
      if m in g'.nodes {
        CollectedFrom(g, g', pins, m);
        AllSupported(g', pins, m);
        SupportFromBefore(g, g', pins, m);
      } else if m in g.nodes && Supported(g, pins, m) {
        NeededSurvive(g, g', pins, m);
      }
    }
  }

  // ---------- the operations keep the invariant ----------

  lemma CountsLookup(g: Graph, pins: multiset<Ino>, n: Ino, k: nat)
    requires n in g.nodes && Counted(g, pins, {}, None)
    ensures (g.nodes[n].nlookup > 0) == (k > 0) ==> Counted(SetLookups(g, n, k), pins, {}, None)
    ensures g.nodes[n].nlookup > 0 && k == 0 ==> Counted(SetLookups(g, n, k), pins, {}, Some(n))
  {
    SameChildren(g, SetLookups(g, n, k));
  }

  lemma ShapeKeepsAcyclic(g: Graph, g': Graph)
    requires Acyclic(g) && SameShape(g, g')
    ensures Acyclic(g')
  {
    var rank :| Ranked(g, rank);
    assert Ranked(g', rank);
  }

  /** Changing one lookup count leaves everything exact but perhaps that node's references. */
  lemma LookupsChange(g: Graph, pins: multiset<Ino>, n: Ino, k: nat)
    requires GraphInv(g, pins) && n in g.nodes && (n == ROOT ==> k > 0)
    ensures var g1 := SetLookups(g, n, k);
            && SameShape(g, g1) && Structure(g1, {}) && Acyclic(g1) && RootOk(g1) && PinsOk(g1, pins)
            && ((g.nodes[n].nlookup > 0) == (k > 0) ==> Counted(g1, pins, {}, None))
            && (g.nodes[n].nlookup > 0 && k == 0 ==> Counted(g1, pins, {}, Some(n)))
  {
    hide Counted;
    var g1 := SetLookups(g, n, k);
    ShapeKeepsStructure(g, g1, {});
    ShapeKeepsAcyclic(g, g1);
    CountsLookup(g, pins, n, k);
  }

  lemma NothingToFree(g: Graph, pins: multiset<Ino>)
    requires GraphInv(g, pins)
    ensures forall m :: m in g.nodes <==> m in g.nodes && Supported(g, pins, m)
    ensures Collected(g, g, pins, {})
  {
    hide Supported, Counted, Acyclic;
    forall m | m in g.nodes ensures Supported(g, pins, m) {
      AllSupported(g, pins, m);
    }
  }

  /** `forget_node`: dropping the last lookup frees exactly what nothing needs any more. */
  lemma ForgetFreesUnneeded(g: Graph, pins: multiset<Ino>, n: Ino, k: nat)
    requires GraphInv(g, pins) && n in g.nodes && n != ROOT && k <= g.nodes[n].nlookup && g.nodes[n].nlookup > 0
    ensures var g1 := SetLookups(g, n, g.nodes[n].nlookup - k);
            && GraphInv(Forget(g, n, k), pins)
            && (forall m :: m in Forget(g, n, k).nodes <==> m in g.nodes && Supported(g1, pins, m))
            && Collected(g1, Forget(g, n, k), pins, {})
  {
    hide Structure, Counted, Acyclic, Collected, Supported, Unref;
    var g1 := SetLookups(g, n, g.nodes[n].nlookup - k);
    LookupsChange(g, pins, n, g.nodes[n].nlookup - k);
    if g1.nodes[n].nlookup == 0 {
      UnrefFreesUnneeded(g1, pins, n);
    } else {
      NothingToFree(g1, pins);
    }
  }

  lemma PinCounted(g: Graph, pins: multiset<Ino>, n: Ino)
    requires n in g.nodes && Counted(g, pins, {}, None)
    ensures Counted(SetRefs(g, n, g.nodes[n].refctr + 1), pins + multiset{n}, {}, None)
  {
    var g1 := SetRefs(g, n, g.nodes[n].refctr + 1);
    SameChildren(g, g1);
    assert forall m :: m in g.nodes ==> Refs(g1, pins + multiset{n}, m) == Refs(g, pins, m) + (if m == n then 1 else 0);
  }

  /** `dot->refctr++` of a lookup of "." */
  lemma PinKeepsInv(g: Graph, pins: multiset<Ino>, n: Ino)
    requires GraphInv(g, pins) && n in g.nodes
    ensures GraphInv(SetRefs(g, n, g.nodes[n].refctr + 1), pins + multiset{n})
  {
    hide Structure, Counted, Acyclic;
    var g1 := SetRefs(g, n, g.nodes[n].refctr + 1);
    PinCounted(g, pins, n);
    ShapeKeepsStructure(g, g1, {});
    ShapeKeepsAcyclic(g, g1);
  }

  lemma UnpinCounted(g: Graph, pins: multiset<Ino>, n: Ino)
    requires n in g.nodes && n in pins && Counted(g, pins, {}, None)
    ensures Counted(g, pins - multiset{n}, {}, Some(n))
  {
    assert forall m :: m in g.nodes ==> Refs(g, pins, m) == Refs(g, pins - multiset{n}, m) + (if m == n then 1 else 0);
  }

  /** ... and its release, which may free the node and nodes above it. */
  lemma UnpinFreesUnneeded(g: Graph, pins: multiset<Ino>, n: Ino)
    requires GraphInv(g, pins) && n in pins
    ensures GraphInv(Unref(g, n), pins - multiset{n})
    ensures forall m :: m in Unref(g, n).nodes <==> m in g.nodes && Supported(g, pins - multiset{n}, m)
    ensures Collected(g, Unref(g, n), pins - multiset{n}, {})
  {
    hide Structure, Counted, Collected, Acyclic, Supported, Unref;
    UnpinCounted(g, pins, n);
    UnrefFreesUnneeded(g, pins - multiset{n}, n);
  }

  lemma IncLookupCounted(g: Graph, pins: multiset<Ino>, n: Ino)
    requires n in g.nodes && Counted(g, pins, {}, None)
    ensures Counted(IncLookup(g, n), pins, {}, None)
  {
    var g1 := IncLookup(g, n);
    SameChildren(g, g1);
    assert forall m :: m in g.nodes && m != n ==> Refs(g1, pins, m) == Refs(g, pins, m);
  }

  /** `inc_nlookup` */
  lemma IncLookupKeepsInv(g: Graph, pins: multiset<Ino>, n: Ino)
    requires GraphInv(g, pins) && n in g.nodes
    ensures GraphInv(IncLookup(g, n), pins) && SameShape(g, IncLookup(g, n))
    ensures IncLookup(g, n).nodes[n].nlookup == g.nodes[n].nlookup + 1
    ensures forall m :: m in g.nodes && m != n ==> IncLookup(g, n).nodes[m] == g.nodes[m]
  {
    hide Structure, Counted, Acyclic;
    var g1 := IncLookup(g, n);
    IncLookupCounted(g, pins, n);
    ShapeKeepsStructure(g, g1, {});
    ShapeKeepsAcyclic(g, g1);
  }

  lemma HashedOneMore(g: Graph, g': Graph, l: Link, n: Ino, p: Ino)
    requires l !in g.names && g'.names == g.names[l := n]
    ensures |HashedChildren(g', p)| == |HashedChildren(g, p)| + (if l.parent == p then 1 else 0)
  {
    assert HashedChildren(g', p) == HashedChildren(g, p) + (if l.parent == p then {l} else {});
  }

  /** The graph with a new node `id` hashed as `l` and looked up once. */
  function WithNewNode(g: Graph, l: Link, id: Ino, generation: nat): Graph
    requires l.parent in g.nodes
  {
    Graph(g.nodes[l.parent := g.nodes[l.parent].(refctr := g.nodes[l.parent].refctr + 1)]
                 [id := Node(Some(l), 1, 1, generation)],
          g.names[l := id])
  }

  lemma NewNodeCounted(g: Graph, pins: multiset<Ino>, l: Link, id: Ino, generation: nat)
    requires Structure(g, {}) && Counted(g, pins, {}, None) && PinsOk(g, pins)
    requires l.parent in g.nodes && l !in g.names && id !in g.nodes
    ensures Counted(WithNewNode(g, l, id, generation), pins, {}, None)
  {
    var g' := WithNewNode(g, l, id, generation);
    assert HashedChildren(g, id) == {};
    assert pins[id] == 0;
    forall n | n in g'.nodes ensures g'.nodes[n].refctr == Refs(g', pins, n) && g'.nodes[n].refctr != 0 {
      HashedOneMore(g, g', l, id, n);
      if n != id {
        assert g.nodes[n].refctr == Refs(g, pins, n) && g.nodes[n].refctr != 0;
      }
    }
  }

  lemma NewNodeAcyclic(g: Graph, l: Link, id: Ino, generation: nat)
    requires Structure(g, {}) && Acyclic(g) && l.parent in g.nodes && l !in g.names && id !in g.nodes
    ensures Acyclic(WithNewNode(g, l, id, generation))
  {
    var rank :| Ranked(g, rank);
    assert Ranked(WithNewNode(g, l, id, generation), rank[id := rank[l.parent] + 1]);
  }

  lemma NewNodeStructure(g: Graph, l: Link, id: Ino, generation: nat)
    requires Structure(g, {}) && l.parent in g.nodes && l !in g.names && id !in g.nodes
    ensures Structure(WithNewNode(g, l, id, generation), {})
  {
  }

  lemma FindIsNew(g: Graph, l: Link, id: Ino, generation: nat)
    requires l.parent in g.nodes && l !in g.names && id !in g.nodes
    ensures FindNode(g, l, id, generation) == WithNewNode(g, l, id, generation)
  {
    var g1 := HashName(g.(nodes := g.nodes[id := Node(None, 0, 0, generation)]), id, l);
    assert g1.nodes[id] == Node(Some(l), 0, 0, generation);
    assert FindNode(g, l, id, generation).nodes == WithNewNode(g, l, id, generation).nodes;
  }

  /** `find_node` when the name is new: a node with one lookup appears under the directory. */
  lemma FindCreates(g: Graph, pins: multiset<Ino>, l: Link, id: Ino, generation: nat)
    requires GraphInv(g, pins) && l.parent in g.nodes && l !in g.names && id !in g.nodes
    ensures FindNode(g, l, id, generation) == WithNewNode(g, l, id, generation)
    ensures GraphInv(WithNewNode(g, l, id, generation), pins)
  {
    hide Structure, Counted, Acyclic, FindNode;
    NewNodeStructure(g, l, id, generation);
    NewNodeCounted(g, pins, l, id, generation);
    NewNodeAcyclic(g, l, id, generation);
    FindIsNew(g, l, id, generation);
  }

  // ---------- names come and go: unlink and rename ----------

  /** Some walk from `m` towards the root passes `n`, or `m` is `n`. */
  ghost predicate AtOrBelow(g: Graph, m: Ino, n: Ino) {
    exists p :: UpPath(g, p) && p[0] == m && p[|p| - 1] == n
  }

  /** The graph without the name `l` of node `n`. */
  function WithoutName(g: Graph, n: Ino, l: Link): Graph
    requires n in g.nodes && l.parent in g.nodes
  {
    SetLink(SetRefs(DropName(g, l), l.parent, g.nodes[l.parent].refctr - 1), n, None)
  }

  lemma ParentHasSpare(g: Graph, pins: multiset<Ino>, l: Link)
    requires Counted(g, pins, {}, None) && l in g.names && Anchor(g, pins, l.parent)
    ensures g.nodes[l.parent].refctr >= 2
  {
    assert l in HashedChildren(g, l.parent);
    assert |HashedChildren(g, l.parent)| >= 1;
  }

  lemma UnhashIs(g: Graph, n: Ino, l: Link)
    requires Structure(g, {})
    requires n in g.nodes && g.nodes[n].link == Some(l)
    ensures l in g.names && g.names[l] == n && l.parent in g.nodes
    ensures g.nodes[l.parent].refctr >= 2 ==> UnhashName(g, n) == WithoutName(g, n, l)
  {
  }

  lemma WithoutNameCounted(g: Graph, pins: multiset<Ino>, n: Ino, l: Link)
    requires Counted(g, pins, {}, None) && n in g.nodes && l in g.names && l.parent in g.nodes
             && g.nodes[l.parent].refctr >= 2
    ensures Counted(WithoutName(g, n, l), pins, {}, None)
  {
    var g' := WithoutName(g, n, l);
    NameLeavesCounted(g, pins, {}, l);
    SameChildren(DropName(g, l), g');
    assert forall m :: m in g.nodes ==> Refs(g', pins, m) == Refs(DropName(g, l), pins, m);
  }

  lemma WithoutNameStructure(g: Graph, n: Ino, l: Link)
    requires Structure(g, {}) && n in g.nodes && g.nodes[n].link == Some(l) && l.parent in g.nodes
    ensures Structure(WithoutName(g, n, l), {})
  {
  }

  lemma WithoutNameAcyclic(g: Graph, n: Ino, l: Link)
    requires Acyclic(g) && n in g.nodes && l.parent in g.nodes
    ensures Acyclic(WithoutName(g, n, l))
  {
    var rank :| Ranked(g, rank);
    assert Ranked(WithoutName(g, n, l), rank);
  }

  /** `unhash_name` under a directory that the kernel knows: the name goes, no node does. */
  lemma UnlinkKeepsInv(g: Graph, pins: multiset<Ino>, n: Ino, l: Link)
    requires GraphInv(g, pins) && n in g.nodes && g.nodes[n].link == Some(l) && n != ROOT
    requires l.parent in g.nodes && Anchor(g, pins, l.parent)
    ensures UnhashName(g, n) == WithoutName(g, n, l) && l in g.names && g.names[l] == n
    ensures GraphInv(WithoutName(g, n, l), pins)
  {
    hide Structure, Counted, Acyclic, UnhashName;
    UnhashIs(g, n, l);
    ParentHasSpare(g, pins, l);
    WithoutNameStructure(g, n, l);
    WithoutNameCounted(g, pins, n, l);
    WithoutNameAcyclic(g, n, l);
  }

  lemma HashCounted(g: Graph, pins: multiset<Ino>, n: Ino, l: Link)
    requires Counted(g, pins, {}, None) && n in g.nodes && l !in g.names && l.parent in g.nodes
    ensures Counted(HashName(g, n, l), pins, {}, None)
  {
    var g' := HashName(g, n, l);
    forall m | m in g'.nodes ensures g'.nodes[m].refctr == Refs(g', pins, m) && g'.nodes[m].refctr != 0 {
      HashedOneMore(g, g', l, n, m);
      assert g.nodes[m].refctr == Refs(g, pins, m) && g.nodes[m].refctr != 0;
    }
  }

  lemma HashStructure(g: Graph, n: Ino, l: Link)
    requires Structure(g, {}) && n in g.nodes && g.nodes[n].link.None? && l !in g.names && l.parent in g.nodes
    ensures Structure(HashName(g, n, l), {})
  {
  }

  /** Lifting everything at or below `n` above the new parent ranks the new graph. */
  lemma HashAcyclic(g: Graph, n: Ino, l: Link)
    requires Structure(g, {}) && Acyclic(g) && n in g.nodes && g.nodes[n].link.None? && l !in g.names
             && l.parent in g.nodes
    requires !AtOrBelow(g, l.parent, n)
    ensures Acyclic(HashName(g, n, l))
  {
    var g' := HashName(g, n, l);
    var rank :| Ranked(g, rank);
    var lift := rank[l.parent] + 1;
    var rank' := map m | m in rank :: if AtOrBelow(g, m, n) then rank[m] + lift else rank[m];
    forall k | k in g'.names ensures rank'[g'.names[k]] > rank'[k.parent] {
      if k == l {
        assert UpPath(g, [n]) && [n][0] == n && [n][|[n]| - 1] == n;
      } else {
        StepBelow(g, g.names[k], k, n);
      }
    }
    assert Ranked(g', rank');
  }

  /** A child is at or below `n` exactly when its parent is, unless it is `n` itself. */
  lemma StepBelow(g: Graph, m: Ino, k: Link, n: Ino)
    requires Structure(g, {}) && k in g.names && g.names[k] == m && n in g.nodes && g.nodes[n].link.None?
    ensures AtOrBelow(g, m, n) <==> AtOrBelow(g, k.parent, n)
  {
    assert Edge(g, m, k.parent);
    if AtOrBelow(g, m, n) {
      var p :| UpPath(g, p) && p[0] == m && p[|p| - 1] == n;
      assert |p| > 1;
      assert Edge(g, p[0], p[1]);
      UpPathTail(g, p);
      assert p[1..][|p[1..]| - 1] == n;
    }
    if AtOrBelow(g, k.parent, n) {
      var p :| UpPath(g, p) && p[0] == k.parent && p[|p| - 1] == n;
      UpPathCons(g, m, p);
      assert ([m] + p)[|[m] + p| - 1] == n;
    }
  }

  lemma UpPathTail(g: Graph, p: seq<Ino>)
    requires Structure(g, {}) && UpPath(g, p) && |p| > 1
    ensures UpPath(g, p[1..]) && Edge(g, p[0], p[1])
  {
    assert Edge(g, p[0], p[1]);
    forall i | 0 <= i < |p[1..]| - 1 ensures Edge(g, p[1..][i], p[1..][i + 1]) {
      assert Edge(g, p[i + 1], p[i + 2]);
    }
  }

  lemma UpPathCons(g: Graph, m: Ino, p: seq<Ino>)
    requires UpPath(g, p) && Edge(g, m, p[0])
    ensures UpPath(g, [m] + p)
  {
    var q := [m] + p;
    forall i | 0 <= i < |q| - 1 ensures Edge(g, q[i], q[i + 1]) {
      if i > 0 {
        assert Edge(g, p[i - 1], p[i]);
      }
    }
  }

  /** `hash_name` of a nameless node under a directory that is not inside it. */
  lemma LinkKeepsInv(g: Graph, pins: multiset<Ino>, n: Ino, l: Link)
    requires GraphInv(g, pins) && n in g.nodes && n != ROOT && g.nodes[n].link.None?
    requires l !in g.names && l.parent in g.nodes && !AtOrBelow(g, l.parent, n)
    ensures GraphInv(HashName(g, n, l), pins)
  {
    hide Structure, Counted, Acyclic, AtOrBelow;
    HashStructure(g, n, l);
    HashCounted(g, pins, n, l);
    HashAcyclic(g, n, l);
  }

  /** The graph without the name `l`, if it was hashed. */
  function Cleared(g: Graph, l: Link): Graph
    requires l in g.names ==> g.names[l] in g.nodes && l.parent in g.nodes
  {
    if l in g.names then WithoutName(g, g.names[l], l) else g
  }

  lemma BelowBefore(g: Graph, l: Link, m: Ino, n: Ino)
    requires l in g.names && g.names[l] in g.nodes && l.parent in g.nodes
    requires AtOrBelow(Cleared(g, l), m, n)
    ensures AtOrBelow(g, m, n)
  {
    var g' := Cleared(g, l);
    var p :| UpPath(g', p) && p[0] == m && p[|p| - 1] == n;
    forall i | 0 <= i < |p| - 1 ensures Edge(g, p[i], p[i + 1]) {
      assert Edge(g', p[i], p[i + 1]);
    }
    assert UpPath(g, p);
  }

  /** What is the same about two graphs whose names may differ. */
  ghost predicate SameNodes(g: Graph, g': Graph) {
    && g'.nodes.Keys == g.nodes.Keys
    && (forall m :: m in g.nodes ==>
           g'.nodes[m].nlookup == g.nodes[m].nlookup && g'.nodes[m].generation == g.nodes[m].generation)
  }

  lemma NamedNode(g: Graph, pins: multiset<Ino>, l: Link)
    requires GraphInv(g, pins) && l in g.names
    ensures g.names[l] in g.nodes && g.nodes[g.names[l]].link == Some(l) && g.names[l] != ROOT && l.parent in g.nodes
    ensures forall l' :: l' in g.names && g.names[l'] == g.names[l] ==> l' == l
  {
  }

  /** Unlinking whatever is hashed as `l`. */
  lemma ClearKeepsInv(g: Graph, pins: multiset<Ino>, l: Link)
    requires GraphInv(g, pins) && (l in g.names ==> Anchor(g, pins, l.parent))
    ensures l in g.names ==> g.names[l] in g.nodes && l.parent in g.nodes
    ensures Remove(g, l) == Cleared(g, l) && GraphInv(Cleared(g, l), pins)
    ensures SameNodes(g, Cleared(g, l)) && Cleared(g, l).names == g.names - {l}
    ensures forall m :: m in g.nodes ==>
              Cleared(g, l).nodes[m].link == if l in g.names && g.names[l] == m then None else g.nodes[m].link
  {
    hide Structure, Counted, Acyclic, UnhashName;
    if l in g.names {
      NamedNode(g, pins, l);
      UnlinkKeepsInv(g, pins, g.names[l], l);
    }
  }

  lemma AnchorStays(g: Graph, g': Graph, pins: multiset<Ino>, m: Ino)
    requires SameNodes(g, g') && Anchor(g, pins, m)
    ensures Anchor(g', pins, m)
  {
  }

  /** The graph after node `n` has moved from `lo` to `ln`, over whatever was hashed there. */
  ghost predicate Renamed(g: Graph, g': Graph, n: Ino, lo: Link, ln: Link) {
    && SameNodes(g, g')
    && g'.names == (g.names - {lo, ln})[ln := n]
    && forall m :: m in g.nodes ==>
         g'.nodes[m].link ==
         if m == n then Some(ln) else if ln in g.names && g.names[ln] == m then None else g.nodes[m].link
  }

  /** The two names are free and the node is nameless. */
  lemma RenameClears(g: Graph, pins: multiset<Ino>, lo: Link, ln: Link) returns (g1: Graph, g2: Graph)
    requires GraphInv(g, pins) && lo in g.names
    requires Anchor(g, pins, lo.parent) && Anchor(g, pins, ln.parent)
    requires !AtOrBelow(g, ln.parent, g.names[lo])
    ensures g1 == Remove(g, ln) && g2 == UnhashName(g1, g.names[lo])
    ensures GraphInv(g2, pins) && SameNodes(g, g2) && g2.names == g.names - {lo, ln}
    ensures !AtOrBelow(g2, ln.parent, g.names[lo]) && g.names[lo] in g.nodes && g.names[lo] != ROOT
    ensures forall m :: m in g.nodes ==>
              g2.nodes[m].link ==
              if m == g.names[lo] || (ln in g.names && g.names[ln] == m) then None else g.nodes[m].link
  {
    hide AtOrBelow, GraphInv, Anchor;
    var n := g.names[lo];
    NamedNode(g, pins, lo);
    ClearKeepsInv(g, pins, ln);
    g1 := Cleared(g, ln);
    if ln in g.names && AtOrBelow(g1, ln.parent, n) {
      BelowBefore(g, ln, ln.parent, n);
      assert false;
    }
    AnchorStays(g, g1, pins, lo.parent);
    ClearKeepsInv(g1, pins, lo);
    g2 := Cleared(g1, lo);
    if lo in g1.names && AtOrBelow(g2, ln.parent, n) {
      BelowBefore(g1, lo, ln.parent, n);
      assert false;
    }
  }

  /** `rename_node` moves the name and nothing else, provided the target directory is not inside the node. */
  lemma RenameKeepsInv(g: Graph, pins: multiset<Ino>, lo: Link, ln: Link, hiding: bool)
    requires GraphInv(g, pins) && lo in g.names && (hiding ==> ln !in g.names)
    requires Anchor(g, pins, lo.parent) && Anchor(g, pins, ln.parent)
    requires !AtOrBelow(g, ln.parent, g.names[lo])
    ensures !Rename(g, lo, ln, hiding).busy
    ensures GraphInv(Rename(g, lo, ln, hiding).g, pins)
    ensures Renamed(g, Rename(g, lo, ln, hiding).g, g.names[lo], lo, ln)
  {
    hide AtOrBelow, UnhashName, GraphInv;
    var g1, g2 := RenameClears(g, pins, lo, ln);
    LinkKeepsInv(g2, pins, g.names[lo], ln);
  }
}

/**
 `struct fuse` and the functions that change its node tables, each section under the
 mutex being one method. The methods are proved to perform exactly the steps of the state
 machine in TreeLocks, and none of the assertions and aborts in the code can be reached.
 */
module FuseNodes {
  import opened Common
  import opened NodeGraph
  import opened TreeLocks
  import opened DeadEnds
  import opened LockedNames
  import opened PathWalk
  import opened PathQueue

  /** FUSE_UNKNOWN_INO */
  const UNKNOWN_INO: Ino := 0xffff_ffff

  const TWO32: nat := 0x1_0000_0000

  /** Fewer than 2^32 - 2 nodes are live, so that some id is free. */
  ghost predicate FreeIdExists(live: set<Ino>) {
    exists id :: 0 < id < TWO32 && id != UNKNOWN_INO && id !in live
  }

  function UpTo(n: nat): set<Ino> {
    if n == 0 then {} else UpTo(n - 1) + {n}
  }

  lemma {:induction false} UpToSize(n: nat)
    ensures |UpTo(n)| == n
    ensures forall i :: i in UpTo(n) <==> 0 < i <= n
  {
    if n > 0 {
      UpToSize(n - 1);
    }
  }

  lemma FreeIdWhileFew(live: set<Ino>)
    requires |live| < TWO32 - 2
    ensures FreeIdExists(live)
  {
    UpToSize(TWO32 - 2);
    if UpTo(TWO32 - 2) <= live {
      SubsetSize(UpTo(TWO32 - 2), live);
      assert false;
    }
    var id :| id in UpTo(TWO32 - 2) && id !in live;
    assert 0 < id < TWO32 && id != UNKNOWN_INO;
  }

  /** The serial number of an id: what the 64-bit counter showed when it was handed out. */
  function Serial(generation: nat, ctr: nat): nat {
    generation * TWO32 + ctr
  }

  /** `generation` and `ctr`, read as one 64-bit counter, have counted `clock` turns. */
  ghost predicate ClockShows(clock: nat, generation: nat, ctr: nat) {
    ctr < TWO32 && generation < TWO32 && clock % (TWO32 * TWO32) == Serial(generation, ctr)
  }

  /** No id was handed out later than `clock`. */
  ghost predicate NoneAhead(issued: set<(nat, Ino)>, clock: nat) {
    clock < TWO32 * TWO32 ==> forall p :: p in issued ==> Serial(p.0, p.1) <= clock
  }

  /** One turn of the loop in `next_id` adds one to that counter. */
  lemma ClockTicks(clock: nat, generation: nat, ctr: nat)
    requires ClockShows(clock, generation, ctr)
    ensures ctr < TWO32
    ensures var ctr' := (ctr + 1) % TWO32;
            ClockShows(clock + 1, if ctr' == 0 then (generation + 1) % TWO32 else generation, ctr')
    ensures (ctr + 1) % TWO32 == if ctr + 1 == TWO32 then 0 else ctr + 1
  {
  }

  lemma SerialIsClock(clock: nat, generation: nat, ctr: nat)
    requires ClockShows(clock, generation, ctr) && clock < TWO32 * TWO32
    ensures Serial(generation, ctr) == clock
  {
  }

  lemma NewerThanIssued(issued: set<(nat, Ino)>, clock: nat, clock': nat, generation: nat, ctr: nat)
    requires ClockShows(clock', generation, ctr) && clock < clock' && NoneAhead(issued, clock)
    ensures clock' < TWO32 * TWO32 ==> (generation, ctr) !in issued
    ensures NoneAhead(issued + {(generation, ctr)}, clock')
  {
    if clock' < TWO32 * TWO32 {
      SerialIsClock(clock', generation, ctr);
    }
  }

  // ---------- the cascade, as seen by the recursive methods ----------

  /** Only needed nodes are locked. */
  ghost predicate LockedAreNeeded(g: Graph, words: Words, pins: multiset<Ino>) {
    words.Keys == g.nodes.Keys && forall m :: m in words && words[m] != 0 ==> Supported(g, pins, m)
  }

  /** One reference to `n` is to be released; all other counts are exact. */
  ghost predicate CascadeReady(g: Graph, words: Words, pins: multiset<Ino>, n: Ino, dying: set<Ino>) {
    Structure(g, dying) && n in g.nodes && Counted(g, pins, dying, Some(n)) && LockedAreNeeded(g, words, pins)
  }

  /** `n` has lost its last reference: its word is zero, and the cascade can go on to its parent. */
  ghost predicate Dying(g: Graph, words: Words, pins: multiset<Ino>, n: Ino, dying: set<Ino>) {
    && words.Keys == g.nodes.Keys && n in words && words[n] == 0
    && (g.nodes[n].link.Some? ==>
          var l := g.nodes[n].link.value;
          && l in g.names && g.names[l] == n && l.parent in g.nodes && l.parent != n
          && CascadeReady(DropName(g, l), words, pins, l.parent, dying + {n}))
  }

  /** `delete_node` of a node without references. */
  function Deleted(g: Graph, n: Ino): Graph {
    FreeNode(NodeGraph.UnhashName(g, n), n)
  }

  lemma DeletedIs(g: Graph, n: Ino)
    requires n in g.nodes && g.nodes[n].refctr == 1
    ensures Unref(g, n) == Deleted(SetRefs(g, n, 0), n)
  {
    var g1 := SetRefs(g, n, 0);
    if g.nodes[n].link.Some? && g.nodes[n].link.value in g.names {
      var l := g.nodes[n].link.value;
      UnnamedFreed(Unref(DropName(g1, l), l.parent), n);
      UnhashIs(g1, n, l);
    }
  }

  /** Clearing the link of a node that is freed makes no difference. */
  lemma UnnamedFreed(g: Graph, n: Ino)
    ensures n in g.nodes ==> FreeNode(SetLink(g, n, None), n) == FreeNode(g, n)
  {
    if n in g.nodes {
      assert SetLink(g, n, None).nodes - {n} == g.nodes - {n};
    }
  }

  lemma UnhashIs(g: Graph, n: Ino, l: Link)
    requires n in g.nodes && g.nodes[n].link == Some(l) && l in g.names
    ensures var g1 := Unref(DropName(g, l), l.parent);
            NodeGraph.UnhashName(g, n) == if n in g1.nodes then SetLink(g1, n, None) else g1
  {
    hide Unref;
  }

  /** A node without children, lookups or pins is not needed, so it is not locked. */
  lemma DeadNotSupported(g: Graph, pins: multiset<Ino>, n: Ino)
    requires HashedChildren(g, n) == {} && !Anchor(g, pins, n)
    ensures !Supported(g, pins, n)
  {
    NoChildren(g, n);
    forall p | UpPath(g, p) && Anchor(g, pins, p[0]) ensures p[|p| - 1] != n {
      if |p| > 1 {
        assert Edge(g, p[|p| - 2], p[|p| - 2 + 1]);
      }
    }
  }

  lemma PrefixSupported(g: Graph, pins: multiset<Ino>, p: seq<Ino>, i: nat)
    requires UpPath(g, p) && Anchor(g, pins, p[0]) && i < |p|
    ensures Supported(g, pins, p[i])
  {
    var q := p[..i + 1];
    forall j | 0 <= j < |q| - 1 ensures Edge(g, q[j], q[j + 1]) {
      assert Edge(g, p[j], p[j + 1]);
    }
    assert UpPath(g, q) && q[|q| - 1] == p[i];
  }

  /** Support never passes a dead node, so dropping its name takes no support away. */
  lemma SupportAvoidsDead(g: Graph, g': Graph, pins: multiset<Ino>, n: Ino, l: Link, m: Ino)
    requires n in g.nodes && g.nodes[n].link == Some(l) && l in g.names && g.names[l] == n
    requires !Supported(g, pins, n) && Supported(g, pins, m)
    requires g' == DropName(SetRefs(g, n, 0), l)
    ensures Supported(g', pins, m)
  {
    var p :| UpPath(g, p) && Anchor(g, pins, p[0]) && p[|p| - 1] == m;
    forall i | 0 <= i < |p| - 1 ensures Edge(g', p[i], p[i + 1]) {
      assert Edge(g, p[i], p[i + 1]);
      PrefixSupported(g, pins, p, i);
    }
    assert UpPath(g', p) && Anchor(g', pins, p[0]);
  }

  lemma LockedStayNeeded(g: Graph, words: Words, pins: multiset<Ino>, n: Ino, l: Link)
    requires LockedAreNeeded(g, words, pins) && !Supported(g, pins, n)
    requires n in g.nodes && g.nodes[n].link == Some(l) && l in g.names && g.names[l] == n
    ensures LockedAreNeeded(DropName(SetRefs(g, n, 0), l), words, pins)
  {
    hide Supported;
    forall m | m in words && words[m] != 0 ensures Supported(DropName(SetRefs(g, n, 0), l), pins, m) {
      SupportAvoidsDead(g, DropName(SetRefs(g, n, 0), l), pins, n, l, m);
    }
  }

  lemma CascadeGoesOn(g: Graph, words: Words, pins: multiset<Ino>, n: Ino, dying: set<Ino>)
    requires CascadeReady(g, words, pins, n, dying) && g.nodes[n].refctr == 1
    ensures Dying(SetRefs(g, n, 0), words, pins, n, dying)
  {
    hide Structure, Counted, Supported;
    LastReference(g, pins, dying, n);
    DeadNotSupported(g, pins, n);
    if g.nodes[n].link.Some? {
      var l := g.nodes[n].link.value;
      NamedDies(g, pins, dying, n, l);
      LockedStayNeeded(g, words, pins, n, l);
    }
  }

  lemma DyingStay(g: Graph, g': Graph, pins: multiset<Ino>, dying: set<Ino>, n: Ino)
    requires Collected(g, g', pins, dying) && n in dying
    ensures n in g'.nodes
  {
  }

  lemma OnlyRoot()
    ensures Inv(State(Graph(map[ROOT := Node(None, 1, 1, 0)], map[]), map[ROOT := 0], map[], multiset{}))
  {
    var g := Graph(map[ROOT := Node(None, 1, 1, 0)], map[]);
    assert Ranked(g, map[ROOT := 0]);
    assert HashedChildren(g, ROOT) == {};
    assert ReadersOf(map[], ROOT) == {} && WritersOf(map[], ROOT) == {};
  }

  class Fuse {
    var nodes: map<Ino, Node>
    var names: map<Link, Ino>
    var words: map<Ino, int>
    var ctr: nat
    var generation: nat
    var lockq: seq<Elem>
    ghost var held: Holders
    ghost var pins: multiset<Ino>
    ghost var clock: nat
    ghost var issued: set<(nat, Ino)>

    ghost function G(): Graph
      reads this`nodes, this`names
    {
      Graph(nodes, names)
    }

    ghost function S(): State
      reads this`nodes, this`names, this`words, this`held, this`pins
    {
      State(G(), words, held, pins)
    }

    /**
     `ctr` and `generation` form one 64-bit counter that `clock` counts without wrapping.
     Until it wraps, no pair handed out before lies ahead of it.
     */
    ghost predicate IdsOk()
      reads this`ctr, this`generation, this`clock, this`issued
    {
      ClockShows(clock, generation, ctr) && NoneAhead(issued, clock)
    }

    ghost predicate Valid()
      reads this
    {
      Inv(S()) && IdsOk()
    }

    /**
     The waiting requests hold what their flags say, only the first may hold a part, those
     that have ended with ENOENT hold nothing, and the nodes that were write-locked for the
     others still have the names that they were found by.
     */
    ghost predicate QValid()
      reads this`lockq, this`held, this`nodes, this`names
    {
      QueueOk(lockq, held) && Discipline(lockq) && QueueLive(G(), lockq) && QueueNamed(G(), held, lockq)
    }

    /** The path locks that are held or waited for. */
    ghost function Wanted(): nat
      reads this`lockq, this`held
    {
      |held| + Missing(lockq)
    }

    /** `fuse_new_common`: a file system with only the root node. */
    constructor ()
      ensures Valid() && QValid() && held == map[] && pins == multiset{} && issued == {} && lockq == []
      ensures nodes.Keys == {ROOT} && names == map[]
    {
      nodes := map[ROOT := Node(None, 1, 1, 0)];
      names := map[];
      words := map[ROOT := 0];
      ctr, generation := 0, 0;
      lockq := [];
      held, pins, clock, issued := map[], multiset{}, 0, {};
      new;
      OnlyRoot();
    }

    /** One turn of the loop in `next_id` */
    method Tick()
      requires ClockShows(clock, generation, ctr)
      modifies this`ctr, this`generation, this`clock
      ensures ClockShows(clock, generation, ctr) && clock == old(clock) + 1
      ensures old(ctr) < TWO32 && ctr == if old(ctr) + 1 == TWO32 then 0 else old(ctr) + 1
    {
      hide ClockShows;
      ClockTicks(clock, generation, ctr);
      ctr := (ctr + 1) % TWO32;
      if ctr == 0 {
        generation := (generation + 1) % TWO32;
      }
      clock := clock + 1;
    }

    /** `next_id` */
    method NextId() returns (id: Ino)
      requires IdsOk() && |nodes| < TWO32 - 2
      modifies this`ctr, this`generation, this`clock, this`issued
      ensures IdsOk() && clock > old(clock)
      ensures id !in nodes && 0 < id < TWO32 && id != UNKNOWN_INO && id == ctr
      ensures issued == old(issued) + {(generation, id)}
      ensures clock < TWO32 * TWO32 ==> (generation, id) !in old(issued)
    {
      hide ClockShows, Serial, NoneAhead;
      FreeIdWhileFew(nodes.Keys);
      ClockTicks(clock, generation, ctr);
      ghost var free :| 0 < free < TWO32 && free != UNKNOWN_INO && free !in nodes.Keys;
      ghost var left: nat := if free > ctr then free - ctr else free - ctr + TWO32;
      while true
        invariant ClockShows(clock, generation, ctr) && clock >= old(clock) && left > 0
        invariant ctr < TWO32 && (ctr + left == free || ctr + left == free + TWO32)
        invariant issued == old(issued)
        decreases left
      {
        Tick();
        left := left - 1;
        if !(ctr == 0 || ctr == UNKNOWN_INO || ctr in nodes) {
          break;
        }
      }
      id := ctr;
      NewerThanIssued(issued, old(clock), clock, generation, ctr);
      issued := issued + {(generation, id)};
    }

    /** `unref_node` */
    method UnrefNode(n: Ino, ghost dying: set<Ino>)
      requires n in nodes && words.Keys == nodes.Keys
      requires nodes[n].refctr >= 2 || CascadeReady(G(), words, pins, n, dying)
      modifies this`nodes, this`names, this`words
      ensures G() == Unref(old(G()), n)
      ensures words == Restricted(old(words), G()) && words.Keys == nodes.Keys
      decreases |names|, 2
    {
      hide Structure, LockedAreNeeded;
      assert nodes[n].refctr > 0;
      if nodes[n].refctr == 1 {
        CascadeGoesOn(G(), words, pins, n, dying);
        DeletedIs(G(), n);
      }
      nodes := nodes[n := nodes[n].(refctr := nodes[n].refctr - 1)];
      if nodes[n].refctr == 0 {
        DeleteNode(n, dying);
      }
    }

    /** `delete_node` */
    method DeleteNode(n: Ino, ghost dying: set<Ino>)
      requires n in nodes && Dying(G(), words, pins, n, dying)
      modifies this`nodes, this`names, this`words
      ensures G() == Deleted(old(G()), n)
      ensures words == Restricted(old(words), G()) && words.Keys == nodes.Keys
      decreases |names|, 1
    {
      hide CascadeReady;
      assert words[n] == 0;
      UnhashName(n, dying + {n});
      nodes := nodes - {n};
      words := words - {n};
    }

    /** `unhash_name` */
    method UnhashName(n: Ino, ghost dying: set<Ino>)
      requires n in nodes && words.Keys == nodes.Keys
      requires nodes[n].link.Some? ==>
                 var l := nodes[n].link.value;
                 && l in names && names[l] == n && l.parent in nodes && l.parent != n
                 && (nodes[l.parent].refctr >= 2
                        || (n in dying && CascadeReady(DropName(G(), l), words, pins, l.parent, dying)))
      modifies this`nodes, this`names, this`words
      ensures G() == NodeGraph.UnhashName(old(G()), n) && n in nodes
      ensures words == Restricted(old(words), G()) && words.Keys == nodes.Keys
      decreases |names|, 0
    {
      hide Structure, LockedAreNeeded, Counted, Collected;
      if nodes[n].link.Some? {
        var l := nodes[n].link.value;
        assert names[l] == n;
        ghost var g := DropName(G(), l);
        assert names.Keys == g.names.Keys + {l};
        if nodes[l.parent].refctr < 2 {
          UnrefCollects(g, pins, dying, l.parent);
          DyingStay(g, Unref(g, l.parent), pins, dying, n);
        }
        names := names - {l};
        UnrefNode(l.parent, dying);
        nodes := nodes[n := nodes[n].(link := None)];
      }
    }

    /** `hash_name` */
    method HashName(n: Ino, l: Link)
      requires n in nodes && l.parent in nodes && l !in names
      modifies this`nodes, this`names
      ensures G() == NodeGraph.HashName(old(G()), n, l)
    {
      nodes := nodes[l.parent := nodes[l.parent].(refctr := nodes[l.parent].refctr + 1)];
      nodes := nodes[n := nodes[n].(link := Some(l))];
      names := names[l := n];
    }

    /** `inc_nlookup` */
    method IncLookup(n: Ino)
      requires n in nodes
      modifies this`nodes
      ensures G() == NodeGraph.IncLookup(old(G()), n)
    {
      if nodes[n].nlookup == 0 {
        nodes := nodes[n := nodes[n].(refctr := nodes[n].refctr + 1)];
      }
      nodes := nodes[n := nodes[n].(nlookup := nodes[n].nlookup + 1)];
    }

    /** `find_node`: the node called `name` in directory `parent`, or the directory itself, gets one more lookup. */
    method FindNode(parent: Ino, name: Option<string>) returns (n: Ino)
      requires Valid() && QValid() && parent in nodes && |nodes| < TWO32 - 2
      modifies this`nodes, this`names, this`words, this`ctr, this`generation, this`clock, this`issued
      ensures Valid() && QValid()
      ensures name.None? ==> n == parent && Steps(old(S()), FindSelf(parent), S())
      ensures n in nodes && (name.Some? ==> Link(parent, name.value) in names && names[Link(parent, name.value)] == n)
      ensures name.Some? ==> Steps(old(S()), Find(Link(parent, name.value), n, nodes[n].generation), S())
      ensures n in old(nodes) ==> issued == old(issued)
      ensures n !in old(nodes) ==> issued == old(issued) + {(nodes[n].generation, n)}
      ensures n !in old(nodes) && clock < TWO32 * TWO32 ==> (nodes[n].generation, n) !in old(issued)
    {
      hide GraphInv, LockInv, Homed, Acyclic, Structure, Counted, QueueLive, QueueNamed, QueueOk, Discipline,
           NodeGraph.FindNode;
      if name.None? {
        FindSelfKeeps(S(), parent);
        QueueStays(S(), FindSelf(parent), lockq);
        n := parent;
        IncLookup(n);
        return;
      }
      var l := Link(parent, name.value);
      if l in names {
        NamedNode(G(), pins, l);
        n := names[l];
        FindKeeps(S(), l, n, nodes[n].generation);
        FindFound(G(), l, n, nodes[n].generation);
        QueueStays(S(), Find(l, n, nodes[n].generation), lockq);
        IncLookup(n);
        return;
      }
      n := NewNode(l);
    }

    /** The part of `find_node` that enters a new node */
    method NewNode(l: Link) returns (n: Ino)
      requires Valid() && QValid() && l.parent in nodes && l !in names && |nodes| < TWO32 - 2
      modifies this`nodes, this`names, this`words, this`ctr, this`generation, this`clock, this`issued
      ensures Valid() && QValid() && n !in old(nodes) && n in nodes && l in names && names[l] == n
      ensures Steps(old(S()), Find(l, n, nodes[n].generation), S())
      ensures issued == old(issued) + {(nodes[n].generation, n)}
      ensures clock < TWO32 * TWO32 ==> (nodes[n].generation, n) !in old(issued)
    {
      hide GraphInv, LockInv, Homed, QueueLive, QueueNamed, QueueOk, Discipline;
      n := NextId();
      FindKeeps(S(), l, n, generation);
      QueueStays(S(), Find(l, n, generation), lockq);
      nodes := nodes[n := Node(None, 0, 0, generation)];
      HashName(n, l);
      words := words[n := 0];
      IncLookup(n);
    }

    /** `forget_node`, in the section after it has stopped waiting. */
    method ForgetNode(n: Ino, k: nat)
      requires Valid() && QValid() && n in nodes
      requires n != ROOT ==> Enabled(S(), Op.Forget(n, k)) && QueueSpared(lockq, n, nodes[n].nlookup, k)
      modifies this`nodes, this`names, this`words
      ensures Valid() && QValid()
      ensures if n == ROOT then S() == old(S()) else Steps(old(S()), Op.Forget(n, k), S())
    {
      hide GraphInv, LockInv, Homed, Acyclic, Structure, Counted, CascadeReady, QueueLive, QueueNamed, QueueOk,
           Discipline, QueueSpared;
      if n == ROOT {
        return;
      }
      ForgetKeeps(S(), n, k);
      QueueStays(S(), Op.Forget(n, k), lockq);
      ReadyToForget(S(), n, k);
      assert nodes[n].nlookup >= k;
      nodes := nodes[n := nodes[n].(nlookup := nodes[n].nlookup - k)];
      if nodes[n].nlookup == 0 {
        UnrefNode(n, {});
      } else {
        RestrictedSame(words, G());
      }
    }

    /** `dot->refctr++` */
    method PinNode(n: Ino)
      requires Valid() && QValid() && n in nodes
      modifies this`nodes, this`pins
      ensures Valid() && QValid() && Steps(old(S()), Pin(n), S())
    {
      hide GraphInv, LockInv, Homed, QueueLive, QueueNamed, QueueOk, Discipline;
      PinKeeps(S(), n);
      QueueStays(S(), Pin(n), lockq);
      nodes := nodes[n := nodes[n].(refctr := nodes[n].refctr + 1)];
      pins := pins + multiset{n};
    }

    /** ... and `unref_node(dot)` */
    method UnpinNode(n: Ino)
      requires Valid() && QValid() && n in pins
      modifies this`nodes, this`names, this`words, this`pins
      ensures Valid() && QValid() && Steps(old(S()), Unpin(n), S())
    {
      hide GraphInv, LockInv, Homed, CascadeReady, QueueLive, QueueNamed, QueueOk, Discipline;
      UnpinKeeps(S(), n);
      QueueStays(S(), Unpin(n), lockq);
      ReadyToUnpin(S(), n);
      pins := pins - multiset{n};
      UnrefNode(n, {});
    }

    /** `remove_node`, by the request that holds path lock `id`. */
    method RemoveNode(dir: Ino, name: string, ghost id: nat)
      requires Valid() && QValid() && NameLocked(S(), id, Link(dir, name))
      requires NotQueued(lockq, id / 2)
      modifies this`nodes, this`names, this`words
      ensures Valid() && QValid() && Steps(old(S()), Op.Remove(id, Link(dir, name)), S())
    {
      hide GraphInv, LockInv, Homed, CascadeReady, Unref, QueueLive, QueueNamed, QueueOk, Discipline;
      RemoveKeeps(S(), id, Link(dir, name));
      QueueStays(S(), Op.Remove(id, Link(dir, name)), lockq);
      var l := Link(dir, name);
      if l in names {
        VictimUnread(S(), id, l);
        ReadyToUnlink(G(), pins, l);
        KeysAgree(S());
        UnhashName(names[l], {});
        RestrictedSame(old(words), G());
      }
    }

    /** `rename_node`, by the request that holds path locks `id1` and `id2`. */
    method RenameNode(olddir: Ino, oldname: string, newdir: Ino, newname: string, hiding: bool, ghost id1: nat,
           ghost id2: nat)
      returns (busy: bool)
      requires Valid() && QValid() && OneRequest(id1, id2) && NotQueued(lockq, id1 / 2) && NotQueued(lockq, id2 / 2)
      requires NameLocked(S(), id1, Link(olddir, oldname)) && TargetLocked(S(), id2, Link(newdir, newname), hiding)
      modifies this`nodes, this`names, this`words
      ensures Valid() && QValid()
      ensures Steps(old(S()), Op.Rename(id1, id2, Link(olddir, oldname), Link(newdir, newname), hiding), S())
      ensures busy == (hiding && Link(olddir, oldname) in old(names) && Link(newdir, newname) in old(names))
    {
      hide GraphInv, LockInv, Homed, CascadeReady, ReadyToMove, Moved, NodeGraph.Rename, QueueLive, QueueNamed,
           QueueOk, Discipline;
      var lo, ln := Link(olddir, oldname), Link(newdir, newname);
      RenameKeeps(S(), id1, id2, lo, ln, hiding);
      QueueStays(S(), Op.Rename(id1, id2, lo, ln, hiding), lockq);
      RenameSame(G(), lo, ln, hiding);
      if lo !in names {
        return false;
      }
      if ln in names && hiding {
        return true;
      }
      ReadyToRename(S(), id1, id2, lo, ln);
      Relink(lo, ln);
      RenameIs(old(G()), lo, ln, hiding);
      return false;
    }

    /** The part of `rename_node` that moves the node */
    method Relink(lo: Link, ln: Link)
      requires words.Keys == nodes.Keys && lo in names && ReadyToMove(G(), lo, ln)
      modifies this`nodes, this`names, this`words
      ensures G() == Moved(old(G()), lo, ln) && words == old(words)
    {
      hide CascadeReady, Unref, NodeGraph.UnhashName, NodeGraph.HashName;
      var node := names[lo];
      if ln in names {
        UnhashName(names[ln], {});
      }
      UnhashName(node, {});
      RestrictedSame(old(words), G());
      HashName(node, ln);
    }

    /** `unlock_path`, for the walk `h` from `nodeid` up to the root, or up to `end` when a failed attempt is undone. */
    method UnlockPath(nodeid: Ino, wnode: Option<Ino>, end: Option<Ino>, ghost h: Held)
      requires words.Keys == nodes.Keys && nodeid in nodes
      requires Walk(G(), nodeid, h) && |h.links| == |h.chain| && (h.chain != [] ==> h.chain[0] == nodeid)
               && Distinct(h.chain) && h.victim == wnode && (wnode.Some? ==> wnode.value !in h.chain)
      requires UnlockAsserts(words, h)
      requires end.None? ==> Stop(nodeid, h) == ROOT
      requires end.Some? ==> Stop(nodeid, h) == end.value && end.value !in h.chain
      modifies this`words
      ensures words == Unlocked(old(words), h)
    {
      hide Walk, Unlocked, Distinct;
      UnlockStarts(words, h);
      if wnode.Some? {
        assert words[wnode.value] == WRITE;
        words := words[wnode.value := 0];
      }
      var node := nodeid;
      ghost var i := 0;
      while end != Some(node) && node != ROOT
        invariant i <= |h.chain| == |h.links|
        invariant node == if i < |h.chain| then h.chain[i] else Stop(nodeid, h)
        invariant words == Unlocked(old(words), Prefix(h, i))
        decreases |h.chain| - i
      {
        WalkAt(G(), nodeid, h, i);
        UnlockedFurther(old(words), h, i);
        assert words[node] != 0;
        assert words[node] != WAIT_OFFSET;
        assert words[node] != WRITE;
        words := words[node := words[node] - 1];
        if words[node] == WAIT_OFFSET {
          words := words[node := 0];
        }
        node := nodes[node].link.value.parent;
        i := i + 1;
      }
      assert i == |h.chain| by {
        if i < |h.chain| {
          WalkAt(G(), nodeid, h, i);
        }
      }
    }

    /**
     The walk of `try_get_path`; a failed one is undone. `words0` are the words before the
     attempt, and `links` are the names to be spelled.
     */
    method WalkUp(nodeid: Ino, needLock: bool, wnode: Option<Ino>,
                  ghost name: Option<string>, ghost wr: bool, ghost rank: map<Ino, nat>, ghost words0: Words)
      returns (err: Err, links: seq<Link>, ghost h: Held)
      requires GraphInv(G(), pins) && Ranked(G(), rank) && nodeid in nodes
      requires words0.Keys == nodes.Keys && wnode == Victim(G(), nodeid, name, wr)
      requires Free(words0, Held([], [], wnode)) && words == Locked(words0, Held([], [], wnode)) && (wr ==> needLock)
      modifies this`words
      ensures Walk(G(), nodeid, h) && Descends(rank, nodeid, h) && h.links == links && h.victim == wnode
              && (needLock ==> Free(words0, h))
      ensures err == OK ==> Stop(nodeid, h) == ROOT
      ensures err == OK ==> words == if needLock then Locked(words0, h) else words0
      ensures err != OK ==> words == words0 && Stop(nodeid, h) in nodes && Stop(nodeid, h) != ROOT
      ensures err == NOENT ==> nodes[Stop(nodeid, h)].link.None?
      ensures err == AGAIN ==> needLock && words0[Stop(nodeid, h)] < 0 && nodes[Stop(nodeid, h)].link.Some?
    {
      hide GraphInv, Walk, Descends, Locked, Unlocked, Free, Victim, Ranked;
      var node := nodeid;
      links := [];
      h := Held([], [], wnode);
      WalkBegins(G(), rank, nodeid, wnode);
      if !needLock {
        NoVictim(G(), nodeid, name);
        LockStarts(words0, None);
      }
      while node != ROOT
        invariant node in nodes && node in rank && h.victim == wnode && h.links == links
        invariant Walk(G(), nodeid, h) && Stop(nodeid, h) == node && Descends(rank, nodeid, h)
        invariant words == if needLock then Locked(words0, h) else words0
        invariant needLock ==> Free(words0, h)
        decreases rank[node]
      {
        if nodes[node].link.None? {
          err := NOENT;
          Undo(nodeid, needLock, wnode, node, name, wr, rank, words0, h);
          return;
        }
        var l := nodes[node].link.value;
        WalkGoesOn(G(), pins, rank, nodeid, h, l);
        if needLock {
          LockGoesOn(G(), pins, rank, words0, nodeid, name, wr, h, l);
          if words[node] < 0 {
            err := AGAIN;
            Undo(nodeid, needLock, wnode, node, name, wr, rank, words0, h);
            return;
          }
          words := words[node := words[node] + 1];
        }
        h := Extended(h, node, l);
        links := links + [l];
        node := l.parent;
      }
      err := OK;
    }

    /** `out_unlock`: a failed attempt leaves no lock behind. */
    method Undo(nodeid: Ino, needLock: bool, wnode: Option<Ino>, node: Ino,
                ghost name: Option<string>, ghost wr: bool, ghost rank: map<Ino, nat>, ghost words0: Words,
                       ghost h: Held)
      requires Ranked(G(), rank) && Walk(G(), nodeid, h) && Descends(rank, nodeid, h) && Stop(nodeid, h) == node
               && nodeid in nodes
      requires words0.Keys == nodes.Keys && h.victim == wnode == Victim(G(), nodeid, name, wr)
      requires words == if needLock then Locked(words0, h) else words0
      requires needLock ==> Free(words0, h)
      modifies this`words
      ensures words == words0
    {
      hide Walk, Descends, Locked, Unlocked, Free, Victim, Ranked;
      if needLock {
        UndoReady(G(), rank, words0, nodeid, name, wr, h);
        UnlockPath(nodeid, wnode, Some(node), h);
      }
    }

    /** The write-locking part of `try_get_path`: with `wr`, the node called `name`, if there is one, must be free. */
    method LockVictim(nodeid: Ino, name: Option<string>, wr: bool) returns (busy: bool, wnode: Option<Ino>)
      requires Inv(S()) && (wr ==> name.Some?)
      modifies this`words
      ensures busy ==> wr && Blocked(G(), old(words), nodeid, name, wr, Held([], [], None), words)
      ensures !busy ==> wnode == Victim(G(), nodeid, name, wr)
                        && Free(old(words), Held([], [], wnode)) && words == Locked(old(words), Held([], [], wnode))
    {
      hide GraphInv, LockInv, Locked, Free, Blocked;
      KeysAgree(S());
      busy, wnode := false, None;
      if wr && Link(nodeid, name.value) in names {
        NamedNode(G(), pins, Link(nodeid, name.value));
        var v := names[Link(nodeid, name.value)];
        if words[v] != 0 {
          busy := true;
          BusyVictim(G(), words, nodeid, name, wr);
          if words[v] > 0 {
            words := words[v := words[v] + WAIT_OFFSET];
          }
          return;
        }
        words := words[v := WRITE];
        wnode := Some(v);
      }
      LockStarts(old(words), wnode);
    }

    /** The locking side of `try_get_path`: the victim first, then the walk. */
    method Attempt(nodeid: Ino, name: Option<string>, wr: bool, needLock: bool, ghost rank: map<Ino, nat>)
      returns (err: Err, links: seq<Link>, wnode: Option<Ino>, ghost h: Held)
      requires Inv(S()) && nodeid in nodes && (wr ==> name.Some? && needLock) && Ranked(G(), rank)
      modifies this`words
      ensures Walk(G(), nodeid, h) && Descends(rank, nodeid, h) && h.links == links
      ensures needLock ==> Passable(old(words), h)
      ensures err == OK ==> Stop(nodeid, h) == ROOT && wnode == h.victim == Victim(G(), nodeid, name, wr)
      ensures err == OK ==>
              if needLock then Free(old(words), h) && words == Locked(old(words), h) else words == old(words)
      ensures err == NOENT ==>
              words == old(words) && Stop(nodeid, h) in nodes && Stop(nodeid, h) != ROOT
                     && nodes[Stop(nodeid, h)].link.None?
      ensures err == AGAIN ==> needLock && Blocked(G(), old(words), nodeid, name, wr, h, words)
    {
      hide Inv, Walk, Descends, Locked, Free, Victim, Ranked, Blocked;
      KeysAgree(S());
      InvParts(S());
      links := [];
      var busy;
      busy, wnode := LockVictim(nodeid, name, wr);
      if busy {
        WalkBegins(G(), rank, nodeid, None);
        h := Held([], [], None);
        err := AGAIN;
        return;
      }
      err, links, h := WalkUp(nodeid, needLock, wnode, name, wr, rank, old(words));
      WalkBlocked(G(), old(words), nodeid, name, wr, needLock, h);
    }

    /**
     `try_get_path`: walks up from `nodeid`, spelling the path and, with `needLock`,
     read-locking each node; with `wr` it first write-locks the node called `name`.
     `h` records the walk.
     */
    method TryGetPath(nodeid: Ino, name: Option<string>, wr: bool, needLock: bool, ghost id: nat)
      returns (err: Err, path: string, wnode: Option<Ino>, ghost h: Held)
      requires Valid() && nodeid in nodes && (wr ==> name.Some? && needLock)
      requires PathsFit(G(), nodeid, name)
      requires needLock ==> id !in held && |held| + 1 < INT_MAX && Promised(G(), nodeid, name, wr)
      modifies this`words, this`held
      ensures Valid() && Walk(G(), nodeid, h)
      ensures needLock ==> Passable(old(words), h)
      ensures err == OK ==> Stop(nodeid, h) == ROOT && wnode == h.victim == Victim(G(), nodeid, name, wr)
      ensures err == OK ==> path == PathText(h.links, name)
      ensures err == OK ==> if needLock then Steps(old(S()), Lock(id, h), S()) else S() == old(S())
      ensures held == if err == OK && needLock then old(held)[id := h] else old(held)
      ensures err == NOENT ==>
              S() == old(S()) && Stop(nodeid, h) in nodes && Stop(nodeid, h) != ROOT
                     && nodes[Stop(nodeid, h)].link.None?
      ensures err == AGAIN ==> needLock && Blocked(G(), old(words), nodeid, name, wr, h, words)
      ensures err == AGAIN ==> Steps(old(S()), Busy(Blocker(G(), old(words), nodeid, name, wr, h)), S())
      ensures err == NOENT <==> DeadEnd(G(), nodeid)
      ensures err == OK && needLock ==> Usable(G(), held, id, PathReq(nodeid, name, wr))
      ensures err == OK && wr && Link(nodeid, name.value) in names ==>
              var n := names[Link(nodeid, name.value)];
              n in words && words[n] == WRITE && forall i :: i in held ==> n !in held[i].chain
      ensures err == AGAIN ==> Marks(G(), old(words), PathReq(nodeid, name, wr), words)
    {
      hide ClockShows, NoneAhead, Inv, Walk, Descends, Locked, Free, PathsFit, PathFits, PathOf, PathText, Spelled,
           Promised, Victim, Steps, Blocked, Ranked, DeadEnd, Usable, Marks;
      ghost var rank := RankOf(S());
      path := "";
      var links;
      err, links, wnode, h := Attempt(nodeid, name, wr, needLock, rank);
      OutcomeOfWalk(old(S()), nodeid, name, wr, h, err, words);
      if err == OK {
        WalkFits(G(), nodeid, name, h);
        path := BuildPath(links, name);
        if needLock {
          LockTaken(old(S()), rank, nodeid, name, wr, id, h);
          held := held[id := h];
          StopsAtBottom(G(), nodeid, h);
          LockIsUsable(S(), nodeid, name, wr, id);
        }
      } else if err == AGAIN {
        BlockedStep(old(S()), nodeid, name, wr, h, words);
        BlockedMarks(old(S()), PathReq(nodeid, name, wr), h, words);
      }
    }

    /** `unlock_path` for path lock `id`. */
    method Unlock(nodeid: Ino, wnode: Option<Ino>, ghost id: nat)
      requires Valid() && id in held && Bottom(held[id]) == nodeid && held[id].victim == wnode && FirstGone(held, id)
      modifies this`words, this`held
      ensures Valid() && Steps(old(S()), Op.Unlock(id), S()) && held == old(held) - {id}
    {
      hide ClockShows, NoneAhead, GraphInv, LockInv, Homed, Walk, Unlocked, Distinct, UnlockAsserts;
      UnlockReady(S(), id);
      UnlockKeeps(S(), id);
      UnlockPath(nodeid, wnode, None, held[id]);
      held := held - {id};
    }

    /** `queue_element_unlock` */
    method QueueElementUnlock(e: Elem) returns (e': Elem)
      requires Valid() && Slots(e, held)
      modifies this`words, this`held
      ensures Valid() && e' == e.(first := false, second := false)
      ensures Progress(e, old(held), e', held)
      ensures forall n :: n in old(words) && Untaken(e, old(held), n) ==> n in words && words[n] == old(words)[n]
    {
      hide ClockShows, NoneAhead, Inv, Progress;
      e' := UnlockFirst(e);
      ProgressSlots(e, old(held), e', held);
      label Second:
      ghost var e1 := e';
      e' := UnlockSecond(e');
      ProgressTrans(e, old(held), e1, old@Second(held), e', held);
    }

    method UnlockFirst(e: Elem) returns (e': Elem)
      requires Valid() && Slots(e, held)
      modifies this`words, this`held
      ensures Valid() && e' == e.(first := false) && Progress(e, old(held), e', held)
      ensures Id2(e.ticket) in old(held) ==> Id2(e.ticket) in held && held[Id2(e.ticket)] == old(held)[Id2(e.ticket)]
      ensures forall n :: n in old(words) && (e.first ==> Untouched(old(held)[Id1(e.ticket)], n)) ==>
              n in words && words[n] == old(words)[n]
    {
      hide ClockShows, NoneAhead, Inv, Progress;
      e' := e;
      if e.first {
        DropsFirst(e, held);
        Unlock(e.path1.value.nodeid, e.wnode1, Id1(e.ticket));
        e' := e.(first := false);
      } else {
        NoProgress(e, held);
      }
    }

    method UnlockSecond(e: Elem) returns (e': Elem)
      requires Valid() && Slots(e, held) && !e.first
      modifies this`words, this`held
      ensures Valid() && e' == e.(second := false) && Progress(e, old(held), e', held)
      ensures forall n :: n in old(words) && (e.second ==> Untouched(old(held)[Id2(e.ticket)], n)) ==>
              n in words && words[n] == old(words)[n]
    {
      hide ClockShows, NoneAhead, Inv, Progress;
      e' := e;
      if e.second {
        DropsSecond(e, held);
        Unlock(e.path2.value.nodeid, e.wnode2, Id2(e.ticket));
        e' := e.(second := false);
      } else {
        NoProgress(e, held);
      }
    }

    /** The first or second `try_get_path` for a queue element. */
    method TryElement(r: PathReq, ghost id: nat) returns (err: Err, path: string, wnode: Option<Ino>)
      requires Valid() && ReqOk(G(), r) && id !in held && |held| + 1 < INT_MAX
      modifies this`words, this`held
      ensures Valid()
      ensures err == OK ==> id in held && held == old(held)[id := held[id]] && Serves(held[id], r, wnode, path)
      ensures err == NOENT <==> DeadEnd(G(), r.nodeid)
      ensures err == OK ==> Granted(G(), old(words), r, held[id], words) && Usable(G(), held, id, r)
      ensures err != OK ==> held == old(held) && Refused(G(), old(words), r, err)
      ensures err == NOENT ==> words == old(words)
      ensures err == AGAIN ==> exists n :: words == Waiting(old(words), n)
      ensures err == AGAIN ==> Marks(G(), old(words), r, words)
      ensures Tighter(old(words), words) && (err == OK ==> Spares(old(words), held[id]))
    {
      hide ClockShows, NoneAhead, Inv, Walk, Passable, PathText, Blocked, Promised, PathsFit, HeldOk, FoundBelow,
           Locked, Waiting, Free, Tighter, Spares, DeadEnd, Usable, Marks;
      ghost var h;
      err, path, wnode, h := TryGetPath(r.nodeid, r.name, r.wr, true, id);
      if err == OK {
        StopsAtBottom(G(), r.nodeid, h);
        LockTightens(old(words), h);
      } else {
        WaitTightens(old(S()),
               if err == AGAIN then Some(Blocker(G(), old(words), r.nodeid, r.name, r.wr, h)) else None);
        IsRefused(G(), old(words), r, err, h, words);
      }
    }

    /** The first path of `queue_element_wakeup`. */
    method TryFirst(e: Elem) returns (err: Err, e': Elem)
      requires Valid() && Slots(e, held) && e.path1.Some? && ReqOk(G(), e.path1.value)
               && |held| + MissingOf(e) < INT_MAX
      modifies this`words, this`held
      ensures Valid() && Progress(e, old(held), e', held)
      ensures e'.second == e.second && (err == OK <==> e'.first) && e'.done == e.done && e'.err == e.err
      ensures e.first ==> e' == e && held == old(held) && words == old(words)
      ensures err == OK && !e.first ==>
              Id1(e.ticket) in held && Granted(G(), old(words), e.path1.value, held[Id1(e.ticket)], words)
      ensures err != OK ==> Refused(G(), old(words), e.path1.value, err)
      ensures !e.first && e'.first ==> Usable(G(), held, Id1(e.ticket), e.path1.value)
      ensures forall id :: id in old(held) ==> id in held && held[id] == old(held)[id]
      ensures !e.first ==> (err == NOENT <==> DeadEnd(G(), e.path1.value.nodeid))
      ensures Tighter(old(words), words) && (!e.first && e'.first ==> Spares(old(words), held[Id1(e.ticket)]))
    {
      hide ClockShows, NoneAhead, Inv, Progress, ReqOk, Granted, Refused, Spares, Serves, DeadEnd, Usable, Marks;
      err, e' := OK, e;
      NoProgress(e, held);
      if !e.first {
        var text, wnode;
        err, text, wnode := TryElement(e.path1.value, Id1(e.ticket));
        if err == OK {
          TakesFirst(e, old(held), held, wnode, text);
          e' := e.(first := true, wnode1 := wnode, text1 := text);
        }
      }
    }

    /** The second path of `queue_element_wakeup`. */
    method TrySecond(e: Elem) returns (err: Err, e': Elem)
      requires Valid() && Slots(e, held) && (e.path2.Some? ==> ReqOk(G(), e.path2.value))
               && |held| + MissingOf(e) < INT_MAX
      modifies this`words, this`held
      ensures Valid() && Progress(e, old(held), e', held)
      ensures e'.first == e.first && (err == OK <==> e'.second || e.path2.None?) && e'.done == e.done && e'.err == e.err
      ensures e.second || e.path2.None? ==> e' == e && held == old(held) && words == old(words)
      ensures forall id :: id in old(held) ==> id in held && held[id] == old(held)[id]
      ensures err != OK ==> !e.second && Refused(G(), old(words), e.path2.value, err)
      ensures !e.second && e'.second ==> Usable(G(), held, Id2(e.ticket), e.path2.value)
      ensures !e.second && e.path2.Some? ==> (err == NOENT <==> DeadEnd(G(), e.path2.value.nodeid))
      ensures Tighter(old(words), words) && (!e.second && e'.second ==> Spares(old(words), held[Id2(e.ticket)]))
    {
      hide ClockShows, NoneAhead, Inv, Progress, ReqOk, Granted, Refused, Spares, Serves, DeadEnd, Usable, Marks;
      err, e' := OK, e;
      NoProgress(e, held);
      if !e.second && e.path2.Some? {
        var text, wnode;
        err, text, wnode := TryElement(e.path2.value, Id2(e.ticket));
        if err == OK {
          TakesSecond(e, old(held), held, wnode, text);
          e' := e.(second := true, wnode2 := wnode, text2 := text);
        }
      }
    }

    /** The attempts of `queue_element_wakeup`: each path that the element lacks is tried. */
    method TryMissing(e: Elem) returns (err: Err, e': Elem)
      requires Valid() && Slots(e, held) && e.path1.Some? && ElemReqsOk(G(), e) && |held| + MissingOf(e) < INT_MAX
      modifies this`words, this`held
      ensures Valid() && Progress(e, old(held), e', held) && e'.done == e.done && e'.err == e.err
      ensures err == OK <==> Complete(e')
      ensures err != OK ==> MustWait(G(), old(words), e, err)
      ensures err == AGAIN ==> MustWait(G(), words, e', AGAIN) && AllRefused(G(), words, e')
      ensures (e.first ==> e'.first) && (e.second ==> e'.second)
      ensures forall id :: id in old(held) ==> id in held && held[id] == old(held)[id]
      ensures !e.first && e'.first ==> Usable(G(), held, Id1(e.ticket), e.path1.value)
      ensures !e.second && e'.second ==> Usable(G(), held, Id2(e.ticket), e.path2.value)
      ensures err == NOENT ==> LeadsNowhere(G(), e)
      ensures !e.first && !e.second && LeadsNowhere(G(), e) ==> err == NOENT
      ensures Complete(e) ==> e' == e && held == old(held) && words == old(words)
      ensures Tighter(old(words), words)
      ensures !e.first && e'.first ==> Id1(e.ticket) in held && Spares(old(words), held[Id1(e.ticket)])
      ensures !e.second && e'.second ==> Id2(e.ticket) in held && Spares(old(words), held[Id2(e.ticket)])
    {
      hide ClockShows, NoneAhead, Inv, Progress, ReqOk, Slots, Granted, Refused, MustWait, Spares, Tighter, DeadEnd,
           Usable;
      var first, second;
      first, e' := TryFirst(e);
      ProgressSlots(e, old(held), e', held);
      FlagsHold(e', held);
      if first != OK {
        FirstRefused(G(), old(words), e, first);
      }
      if first == NOENT {
        err := NOENT;
        return;
      }
      label Second:
      ghost var e1 := e';
      second, e' := TrySecond(e');
      ProgressTrans(e, old(held), e1, old@Second(held), e', held);
      ProgressSlots(e, old(held), e', held);
      ProgressSlots(e1, old@Second(held), e', held);
      FlagsHold(e', held);
      TightensTwice(old(words), old@Second(words), words);
      if e'.second && !e.second {
        SparesEarlier(old(words), old@Second(words), held[Id2(e.ticket)]);
      }
      if second != OK && (first == OK || second == NOENT) {
        SecondRefused(G(), old(words), old@Second(words), e, second,
                      if e.first || first != OK then None else Some(old@Second(held)[Id1(e.ticket)]));
      }
      err := if second == NOENT then NOENT else if first == OK then second else first;
      if e'.first && !e.first {
        UsableStill(G(), old@Second(held), held, Id1(e.ticket), e.path1.value);
      }
      if first == AGAIN {
        RefusedStill(G(), old(words), words, e.path1.value, AGAIN);
      }
      if second == AGAIN {
        RefusedStill(G(), old@Second(words), words, e.path2.value, AGAIN);
        LacksSecond(G(), words, e');
      } else if second == OK && first == AGAIN {
        FirstRefused(G(), words, e', AGAIN);
      }
    }

    /** `queue_element_wakeup` for an element that asks for paths; `first` says whether it heads the queue. */
    method WakeElement(e: Elem, first: bool) returns (e': Elem, ghost why: Err)
      requires Valid() && ElemOk(e, held) && ElemLive(G(), e) && ElemNamed(G(), held, e)
      requires e.path1.Some? && ElemReqsOk(G(), e)
               && |held| + MissingOf(e) < INT_MAX
      modifies this`words, this`held
      ensures Valid() && ElemOk(e', held) && ElemLive(G(), e') && ElemNamed(G(), held, e')
      ensures Progress(e, old(held), e', held)
      ensures first && why == AGAIN ==> AllRefused(G(), words, e')
      ensures first && why != NOENT ==> KeepsLocks(e, old(held), e', held)
      ensures Gains(G(), held, e, e')
      ensures !first ==> AllOrNone(e')
      ensures Complete(e) ==> e' == e && held == old(held)
      ensures Complete(e') <==> why == OK
      ensures why != OK ==> MustWait(G(), old(words), e, why)
      ensures why == AGAIN && (first || AllOrNone(e)) ==> MustWait(G(), words, e', AGAIN)
      ensures why == NOENT ==> LeadsNowhere(G(), e')
      ensures why == NOENT ==> e'.done && e'.err == NOENT && !e'.first && !e'.second
      ensures why == AGAIN ==> e'.done == e.done && e'.err == e.err
      ensures AllOrNone(e) ==> Tighter(old(words), words)
    {
      hide ClockShows, NoneAhead, Inv, Progress, ReqOk, Slots, Granted, Refused, MustWait, Tighter, Spares, ElemReqsOk,
           DeadEnd, Usable, SlotNamed, AllRefused;
      var err;
      err, e' := TryMissing(e);
      why := err;
      ProgressSlots(e, old(held), e', held);
      GainsNamed(G(), old(held), held, e, e');
      if err == OK {
        Flagged(e, old(held), e', held, OK);
        e' := e'.(done := true, err := OK);
        return;
      }
      if err == NOENT || !first {
        label Undo:
        ghost var e2 := e';
        e' := QueueElementUnlock(e');
        ProgressTrans(e, old(held), e2, old@Undo(held), e', held);
        ProgressSlots(e, old(held), e', held);
        FlagsHold(e', held);
        NothingNamed(G(), held, e');
        if AllOrNone(e) {
          HoldsNothing(e, old(held));
          UndoTightens(old(S()), e, old@Undo(words), old@Undo(held), e2, S());
          if err == AGAIN {
            MustWaitStill(G(), old(words), words, e, e');
          }
        }
        if err == NOENT {
          Flagged(e, old(held), e', held, NOENT);
          e' := e'.(done := true, err := NOENT);
        }
      }
    }

    /** `queue_element_wakeup` for any element. */
    method ElementWakeup(e: Elem, first: bool) returns (e': Elem, ghost why: Err)
      requires Valid() && ElemOk(e, held) && ElemLive(G(), e) && ElemNamed(G(), held, e)
      requires ElemReqsOk(G(), e) && |held| + MissingOf(e) < INT_MAX
      modifies this`words, this`held
      ensures Valid() && ElemOk(e', held) && ElemLive(G(), e') && ElemNamed(G(), held, e')
      ensures Progress(e, old(held), e', held) && Gains(G(), held, e, e')
      ensures first && !e'.done ==> AllRefused(G(), words, e')
      ensures first && why != NOENT ==> KeepsLocks(e, old(held), e', held)
      ensures !first ==> AllOrNone(e')
      ensures e.path1.None? ==> e.nodeid1 in words && e'.signalled == (e.signalled || words[e.nodeid1] == 0)
      ensures Complete(e) ==> e' == e && held == old(held)
      ensures e.path1.Some? ==>
                && (Complete(e') <==> why == OK)
                && (why != OK ==> MustWait(G(), old(words), e, why))
                && (why == NOENT ==> e'.done && e'.err == NOENT)
      ensures AllOrNone(e) ==> Tighter(old(words), words)
      ensures first || AllOrNone(e) ==> Settled(G(), words, e')
    {
      hide ClockShows, NoneAhead, Inv, ElemReqsOk, ElemOk, ElemLive, Progress, MustWait, Tighter, Settled,
           LeadsNowhere, SlotNamed, AllRefused, Usable;
      if e.path1.Some? {
        e', why := WakeElement(e, first);
        SameProgress(e, old(held), e', held);
        if Complete(e') {
          CompleteIsDone(e', held);
        }
        IsSettled(G(), words, e', why, first || AllOrNone(e));
        return;
      }
      e', why := e, OK;
      KeysAgree(S());
      ElemInGraph(G(), e);
      SignalKeeps(e, held);
      SignalLive(G(), e);
      NothingRefused(G(), words, e, held);
      TightensNot(words);
      if words[e.nodeid1] == 0 {
        e' := e.(signalled := true);
      }
      IsSettled(G(), words, e', why, true);
    }

    /** ... and for element `i`, which is written back. */
    method QueueElementWakeup(i: nat) returns (ghost why: Err)
      requires Valid() && QueueOk(lockq, held) && QueueLive(G(), lockq) && QueueNamed(G(), held, lockq)
      requires i < |lockq| && ElemReqsOk(G(), lockq[i])
               && Wanted() < INT_MAX
      modifies this`words, this`held, this`lockq
      ensures Valid() && QueueOk(lockq, held) && QueueLive(G(), lockq) && Wanted() == old(Wanted())
      ensures |lockq| == old(|lockq|) && lockq == old(lockq)[i := lockq[i]] && SameRequest(old(lockq)[i], lockq[i])
      ensures OthersSame(old(held), held, lockq[i].ticket)
      ensures QueueNamed(G(), held, lockq) && Gains(G(), held, old(lockq)[i], lockq[i])
      ensures i == 0 && !lockq[i].done ==> AllRefused(G(), words, lockq[i])
      ensures i == 0 && why != NOENT ==> KeepsLocks(old(lockq)[i], old(held), lockq[i], held)
      ensures i > 0 ==> AllOrNone(lockq[i])
      ensures lockq[i].path1.None? && lockq[i].nodeid1 in words ==>
              lockq[i].signalled == (old(lockq)[i].signalled || words[lockq[i].nodeid1] == 0)
      ensures old(Complete(lockq[i])) ==> lockq[i] == old(lockq)[i] && held == old(held)
      ensures lockq[i].path1.Some? ==>
                && (Complete(lockq[i]) <==> why == OK)
                && (why != OK ==> MustWait(G(), old(words), old(lockq)[i], why))
                && (why == NOENT ==> lockq[i].done && lockq[i].err == NOENT)
      ensures AllOrNone(old(lockq)[i]) ==> Tighter(old(words), words)
      ensures i == 0 || AllOrNone(old(lockq)[i]) ==> Settled(G(), words, lockq[i])
    {
      hide ClockShows, NoneAhead, Inv, ElemReqsOk, ElemOk, ElemLive, Progress, MustWait, Tighter, Settled, QueueOk,
           QueueLive, OthersSame, QueueNamed, ElemNamed, Gains, AllRefused, KeepsLocks;
      MissingAt(lockq, i);
      ElemAt(G(), lockq, i, held);
      assert ElemNamed(G(), held, lockq[i]) by { NamedAt(G(), held, lockq, i); }
      var e;
      e, why := ElementWakeup(lockq[i], i == 0);
      SameProgress(lockq[i], old(held), e, held);
      ElementDone(lockq, i, e, old(held), held);
      LiveUpdate(G(), lockq, i, e);
      NamedUpdate(G(), lockq, i, e, old(held), held);
      lockq := lockq[i := e];
    }

    /** `wake_up_queued` */
    method WakeUpQueued()
      requires Valid() && QValid() && QueueReqsOk(G(), lockq) && Wanted() < INT_MAX
      modifies this`words, this`held, this`lockq
      ensures Valid() && QValid() && Wanted() == old(Wanted())
      ensures Passed(old(lockq), old(held), lockq, held)
      ensures NoneOverlooked(G(), words, lockq, |lockq|)
      ensures HeadWaits(G(), words, lockq) && AllGained(G(), held, old(lockq), lockq, |lockq|)
    {
      hide ClockShows, NoneAhead, Inv, ElemReqsOk, ElemOk, ElemLive, Passed, MustWait, OthersSame, Tighter, Settled,
           QueueOk, QueueNamed, Gains, AllGained, AllRefused, KeepsLocks;
      PassBegins(lockq, held);
      NoneGained(G(), held, lockq);
      var i := 0;
      while i < |lockq|
        invariant i <= |lockq| && Valid() && QValid() && Wanted() == old(Wanted())
        invariant Passed(old(lockq), old(held), lockq, held) && QueueReqsOk(G(), lockq)
        invariant NoneOverlooked(G(), words, lockq, i) && (i > 0 ==> HeadWaits(G(), words, lockq))
        invariant |lockq| == old(|lockq|) && AllGained(G(), held, old(lockq), lockq, i) && lockq[i..] == old(lockq)[i..]
      {
        label Before:
        PassedParts(old(lockq), old(held), lockq, held);
        ghost var why := QueueElementWakeup(i);
        PassedOne(old(lockq), old(held), old@Before(lockq), old@Before(held), i, lockq[i], held);
        SameReqsOk(G(), old@Before(lockq), i, lockq[i]);
        StillSettled(G(), old@Before(words), words, old@Before(lockq), i, lockq[i]);
        HeadStillWaits(G(), old@Before(words), words, old@Before(lockq), i, lockq[i]);
        GainedOne(G(), old@Before(held), held, old(lockq), old@Before(lockq), i, lockq[i]);
        i := i + 1;
      }
    }

    /** `get_path_common`: on EAGAIN the request joins the queue. */
    method GetPath(ticket: nat, r: PathReq) returns (err: Err, path: string, wnode: Option<Ino>)
      requires Valid() && QValid() && ReqOk(G(), r) && Wanted() + 1 < INT_MAX
      requires NotQueued(lockq, ticket) && Id1(ticket) !in held && Id2(ticket) !in held
      modifies this`words, this`held, this`lockq
      ensures Valid() && QValid() && Wanted() == old(Wanted()) + if err == NOENT then 0 else 1
      ensures err == OK ==>
              lockq == old(lockq) && Id1(ticket) in held && held == old(held)[Id1(ticket) := held[Id1(ticket)]]
      ensures err == OK ==>
              Granted(G(), old(words), r, held[Id1(ticket)], words) && Serves(held[Id1(ticket)], r, wnode, path)
      ensures err == OK ==> Usable(G(), held, Id1(ticket), r)
      ensures err == NOENT <==> DeadEnd(G(), r.nodeid)
      ensures err != OK ==> held == old(held) && Refused(G(), old(words), r, err)
      ensures err == NOENT ==> lockq == old(lockq) && words == old(words)
      ensures err == AGAIN ==> exists n :: words == Waiting(old(words), n)
      ensures err == AGAIN ==> Marks(G(), old(words), r, words)
      ensures err == AGAIN ==> lockq == old(lockq) + [Queued(ticket, r.nodeid, Some(r), None)]
    {
      hide ClockShows, NoneAhead, Inv, ReqOk, ElemOk, ElemLive, Granted, Refused, PathText, DeadEnd, Usable,
           QueueNamed, Marks;
      ReqLookedUp(G(), r);
      err, path, wnode := TryElement(r, Id1(ticket));
      if err == OK {
        QueueOthers(lockq, old(held), held, ticket);
        NamedOthers(G(), lockq, old(held), held, ticket);
        HolderNumber(old(held), Id1(ticket), held[Id1(ticket)]);
        return;
      }
      if err == AGAIN {
        QueuePath(ticket, r.nodeid, Some(r), None);
      }
    }

    /** `queue_path` for a request that holds nothing yet. */
    method QueuePath(ticket: nat, nodeid: Ino, path1: Option<PathReq>, path2: Option<PathReq>)
      requires QValid() && NotQueued(lockq, ticket) && Id1(ticket) !in held && Id2(ticket) !in held
      requires path1.None? ==> path2.None?
      requires path1.Some? ==> LookedUp(G(), path1.value.nodeid)
      requires path2.Some? ==> LookedUp(G(), path2.value.nodeid)
      modifies this`lockq
      ensures QValid() && lockq == old(lockq) + [Queued(ticket, nodeid, path1, path2)]
      ensures var e := lockq[|lockq| - 1];
              && e.ticket == ticket && e.nodeid1 == nodeid && e.path1 == path1 && e.path2 == path2
              && !e.first && !e.second && !e.done && !e.signalled
      ensures Wanted() == old(Wanted()) + (if path1.Some? then 1 else 0) + (if path2.Some? then 1 else 0)
    {
      hide QueueOk, Discipline, DeadEnd, QueueNamed;
      var e := Queued(ticket, nodeid, path1, path2);
      MissingAppend(lockq, e);
      QueueAppend(lockq, e, held);
      NamedAppend(G(), lockq, e, held);
      lockq := lockq + [e];
    }

    /** `try_get_path2`: both paths are locked or neither is. */
    method TryGetPath2(ticket: nat, r1: PathReq, r2: PathReq)
      returns (err: Err, text1: string, text2: string, wnode1: Option<Ino>, wnode2: Option<Ino>)
      requires Valid() && ReqOk(G(), r1) && ReqOk(G(), r2) && |held| + 2 < INT_MAX
      requires Id1(ticket) !in held && Id2(ticket) !in held
      modifies this`words, this`held
      ensures Valid()
      ensures err == OK ==> BothGranted(G(), old(words), r1, r2, old(held), ticket, words, held)
      ensures err == OK ==> Serves(held[Id1(ticket)], r1, wnode1, text1) && Serves(held[Id2(ticket)], r2, wnode2, text2)
      ensures err == OK ==> Usable(G(), held, Id1(ticket), r1) && Usable(G(), held, Id2(ticket), r2)
      ensures err != OK ==> Tighter(old(words), words)
      ensures err != OK ==>
              held == old(held) && MustWait(G(), old(words), Queued(ticket, r1.nodeid, Some(r1), Some(r2)), err)
    {
      hide ClockShows, NoneAhead, Inv, ReqOk, Granted, Refused, PathText, MustWait, Tighter, Spares, Waiting, Locked,
           Free, DeadEnd, Usable;
      ghost var e := Queued(ticket, r1.nodeid, Some(r1), Some(r2));
      text2, wnode2 := "", None;
      err, text1, wnode1 := TryElement(r1, Id1(ticket));
      if err != OK {
        FirstRefused(G(), old(words), e, err);
        return;
      }
      label Second:
      HolderNumber(old(held), Id1(ticket), held[Id1(ticket)]);
      err, text2, wnode2 := TryElement(r2, Id2(ticket));
      if err != OK {
        SecondRefused(G(), old(words), old@Second(words), e, err, Some(held[Id1(ticket)]));
        TightensTwice(old(words), old@Second(words), words);
        label Undo:
        Unlock(r1.nodeid, wnode1, Id1(ticket));
        assert held == old(held);
        UndoTightens(old(S()), e, old@Undo(words), old@Undo(held), e.(first := true), S());
        return;
      }
      UsableStill(G(), old@Second(held), held, Id1(ticket), r1);
      GrantedWords(G(), old(words), r1, held[Id1(ticket)], old@Second(words));
    }

    /** `get_path2`: on EAGAIN the request joins the queue. */
    method GetPath2(ticket: nat, r1: PathReq, r2: PathReq)
      returns (err: Err, text1: string, text2: string, wnode1: Option<Ino>, wnode2: Option<Ino>)
      requires Valid() && QValid() && ReqOk(G(), r1) && ReqOk(G(), r2) && Wanted() + 2 < INT_MAX
      requires NotQueued(lockq, ticket) && Id1(ticket) !in held && Id2(ticket) !in held
      modifies this`words, this`held, this`lockq
      ensures Valid() && QValid() && Wanted() == old(Wanted()) + if err == NOENT then 0 else 2
      ensures err == OK ==> BothGranted(G(), old(words), r1, r2, old(held), ticket, words, held)
      ensures err == OK ==> Serves(held[Id1(ticket)], r1, wnode1, text1) && Serves(held[Id2(ticket)], r2, wnode2, text2)
      ensures err == OK ==> Usable(G(), held, Id1(ticket), r1) && Usable(G(), held, Id2(ticket), r2)
      ensures err != OK ==>
              held == old(held) && MustWait(G(), old(words), Queued(ticket, r1.nodeid, Some(r1), Some(r2)), err)
      ensures err != OK ==> Tighter(old(words), words)
      ensures lockq == if err == AGAIN then old(lockq) + [Queued(ticket, r1.nodeid, Some(r1), Some(r2))] else old(lockq)
    {
      hide ClockShows, NoneAhead, Inv, ReqOk, ElemOk, ElemLive, BothGranted, MustWait, Tighter, Serves, Usable,
           QueueNamed;
      ReqLookedUp(G(), r1);
      ReqLookedUp(G(), r2);
      err, text1, text2, wnode1, wnode2 := TryGetPath2(ticket, r1, r2);
      if err == OK {
        TwoMore(G(), old(words), r1, r2, old(held), ticket, words, held);
        QueueOthers(lockq, old(held), held, ticket);
        NamedOthers(G(), lockq, old(held), held, ticket);
        return;
      }
      if err == AGAIN {
        QueuePath(ticket, r1.nodeid, Some(r1), Some(r2));
      }
    }

    /**
     `dequeue_path`, when the request at `k` is done (or, for a `forget`, stops waiting). A
     request that was served keeps its locks, and has their paths; one that was refused for
     good holds nothing.
     */
    method DequeuePath(k: nat) returns (e: Elem)
      requires QValid() && k < |lockq| && (lockq[k].path1.Some? ==> lockq[k].done)
      modifies this`lockq
      ensures QValid() && e == old(lockq)[k] && lockq == old(lockq)[..k] + old(lockq)[k + 1..]
      ensures NotQueued(lockq, e.ticket) && Wanted() == old(Wanted()) - MissingOf(e)
      ensures e.path1.Some? ==> e.err == OK || e.err == NOENT
      ensures e.path1.Some? && e.err == OK ==>
                && Id1(e.ticket) in held && Serves(held[Id1(e.ticket)], e.path1.value, e.wnode1, e.text1)
                && (e.path2.Some? ==>
                       Id2(e.ticket) in held && Serves(held[Id2(e.ticket)], e.path2.value, e.wnode2, e.text2))
      ensures e.path1.Some? && e.err == OK ==>
                && MayProceed(S(), Id1(e.ticket), e.path1.value, e.wnode1)
                && (e.path2.Some? ==> MayProceed(S(), Id2(e.ticket), e.path2.value, e.wnode2))
      ensures e.path1.None? || e.err == NOENT ==> Id1(e.ticket) !in held && Id2(e.ticket) !in held
      ensures e.path1.Some? && e.err == NOENT ==> LeadsNowhere(G(), e)
    {
      hide Discipline, QueueOk, QueueLive, DeadEnd, QueueNamed, StillNamed;
      e := lockq[k];
      QueueRemove(lockq, k, held);
      MissingRemove(lockq, k);
      Removed(lockq, k, held);
      LiveRemoved(G(), lockq, k);
      NamedRemoved(G(), lockq, k, held);
      ServedProceeds(S(), lockq[k]);
      lockq := lockq[..k] + lockq[k + 1..];
    }

    /** `free_path_wrlock`, by the request `ticket`, which is not queued. */
    method FreePath(nodeid: Ino, wnode: Option<Ino>, ghost ticket: nat)
      requires Valid() && QValid() && NotQueued(lockq, ticket) && QueueReqsOk(G(), lockq) && Wanted() <= INT_MAX
      requires Id1(ticket) in held && Bottom(held[Id1(ticket)]) == nodeid && held[Id1(ticket)].victim == wnode
      modifies this`words, this`held, this`lockq
      ensures Valid() && QValid() && Wanted() == old(Wanted()) - 1
      ensures Id1(ticket) !in held && Passed(old(lockq), old(held) - {Id1(ticket)}, lockq, held)
      ensures NoneOverlooked(G(), words, lockq, |lockq|) && HeadWaits(G(), words, lockq)
      ensures AllGained(G(), held, old(lockq), lockq, |lockq|)
    {
      hide ClockShows, NoneAhead, Inv, Apply, ElemOk, ElemLive, ElemNamed, Gains;
      HolderNumber(held, Id1(ticket), held[Id1(ticket)]);
      QueueOthers(lockq, held, held - {Id1(ticket)}, ticket);
      NamedOthers(G(), lockq, held, held - {Id1(ticket)}, ticket);
      Unlock(nodeid, wnode, Id1(ticket));
      if lockq != [] {
        WakeUpQueued();
      }
    }

    /** `free_path2` */
    method FreePath2(nodeid1: Ino, nodeid2: Ino, wnode1: Option<Ino>, wnode2: Option<Ino>, ghost ticket: nat)
      requires Valid() && QValid() && NotQueued(lockq, ticket) && QueueReqsOk(G(), lockq) && Wanted() <= INT_MAX
      requires Id1(ticket) in held && Bottom(held[Id1(ticket)]) == nodeid1 && held[Id1(ticket)].victim == wnode1
      requires Id2(ticket) in held && Bottom(held[Id2(ticket)]) == nodeid2 && held[Id2(ticket)].victim == wnode2
      modifies this`words, this`held, this`lockq
      ensures Valid() && QValid() && Wanted() == old(Wanted()) - 2
      ensures Id1(ticket) !in held && Id2(ticket) !in held
      ensures Passed(old(lockq), old(held) - {Id1(ticket), Id2(ticket)}, lockq, held)
      ensures NoneOverlooked(G(), words, lockq, |lockq|) && HeadWaits(G(), words, lockq)
      ensures AllGained(G(), held, old(lockq), lockq, |lockq|)
    {
      hide ClockShows, NoneAhead, Inv, Apply, ElemOk, NoneOverlooked, QueueReqsOk, ElemLive, ElemNamed, AllGained,
           HeadWaits, QueueNamed, QueueOk, NotQueued, Passed, Discipline, QueueLive;
      HolderNumber(held, Id1(ticket), held[Id1(ticket)]);
      Unlock(nodeid1, wnode1, Id1(ticket));
      HolderNumber(held, Id2(ticket), held[Id2(ticket)]);
      Unlock(nodeid2, wnode2, Id2(ticket));
      assert held == old(held) - {Id1(ticket), Id2(ticket)};
      BothFreed(G(), lockq, old(held), ticket);
      label Wake:
      WakeUpQueued();
      PassedSpares(lockq, held, old@Wake(lockq), old@Wake(held), ticket);
    }

    /** `forget_node`, up to its decision to wait: a node that is locked is not given up. */
    method Forget(ticket: nat, n: Ino, k: nat) returns (waits: bool)
      requires Valid() && QValid() && n in nodes && (n != ROOT ==> 0 < nodes[n].nlookup && k <= nodes[n].nlookup)
      requires n != ROOT ==> QueueSpared(lockq, n, nodes[n].nlookup, k)
      requires NotQueued(lockq, ticket) && Id1(ticket) !in held && Id2(ticket) !in held
      modifies this`nodes, this`names, this`words, this`lockq
      ensures Valid() && QValid() && Wanted() == old(Wanted())
      ensures waits <==> n != ROOT && old(nodes)[n].nlookup == k && old(words)[n] != 0
      ensures waits ==> S() == old(S()) && lockq == old(lockq) + [Queued(ticket, n, None, None)]
      ensures !waits ==> lockq == old(lockq)
      ensures !waits ==> if n == ROOT then S() == old(S()) else Steps(old(S()), Op.Forget(n, k), S())
    {
      hide ClockShows, NoneAhead, GraphInv, LockInv, ElemOk, Apply, QueueOk;
      KeysAgree(S());
      waits := n != ROOT && nodes[n].nlookup == k && words[n] != 0;
      if waits {
        QueuePath(ticket, n, None, None);
        return;
      }
      ForgetNode(n, k);
    }
  }

  /** What the kernel promises for a queued request, and that its path can be built. */
  ghost predicate ReqOk(g: Graph, r: PathReq) {
    r.nodeid in g.nodes && (r.wr ==> r.name.Some?) && PathsFit(g, r.nodeid, r.name)
           && Promised(g, r.nodeid, r.name, r.wr)
  }

  ghost predicate ElemReqsOk(g: Graph, e: Elem) {
    && e.nodeid1 in g.nodes
    && (e.path1.Some? ==> ReqOk(g, e.path1.value))
    && (e.path2.Some? ==> ReqOk(g, e.path2.value))
  }

  /** The attempt for `r` found all the way up free and locked it: `h` is its record. */
  ghost predicate Granted(g: Graph, words: Words, r: PathReq, h: Held, words': Words) {
    && Walk(g, r.nodeid, h) && Stop(r.nodeid, h) == ROOT && h.victim == Victim(g, r.nodeid, r.name, r.wr)
    && Free(words, h) && words' == Locked(words, h)
  }

  /** Why the attempt for `r` fails: the path leads nowhere, or there is a lock in its way. */
  ghost predicate RefusedAt(g: Graph, words: Words, r: PathReq, err: Err, h: Held) {
    var v, top := Victim(g, r.nodeid, r.name, r.wr), Stop(r.nodeid, h);
    match err
    case OK => false
    case NOENT => top in g.nodes && top != ROOT && g.nodes[top].link.None?
    case AGAIN =>
      || (v.Some? && v.value in words && words[v.value] != 0)
      || (top in words && words[top] < 0 && top != ROOT && HasName(g, top))
  }

  ghost predicate Refused(g: Graph, words: Words, r: PathReq, err: Err) {
    exists h :: Walk(g, r.nodeid, h) && RefusedAt(g, words, r, err, h)
  }

  /** Why a queued request is not served: one of the paths that it lacks is refused. */
  ghost predicate MustWait(g: Graph, words: Words, e: Elem, err: Err) {
    || (e.path1.Some? && !e.first && Refused(g, words, e.path1.value, err))
    || (e.path2.Some? && !e.second && Refused(g, words, e.path2.value, err))
    || (e.path1.Some? && e.path2.Some? && !e.first && !e.second
        && exists h :: Granted(g, words, e.path1.value, h, Locked(words, h))
               && Refused(g, Locked(words, h), e.path2.value, err))
  }

  /** Two paths are granted one after the other. */
  ghost predicate BothGranted(g: Graph, words: Words, r1: PathReq, r2: PathReq, held: Holders, ticket: nat,
         words': Words, held': Holders) {
    && Id1(ticket) in held' && Id2(ticket) in held'
    && held' == held[Id1(ticket) := held'[Id1(ticket)]][Id2(ticket) := held'[Id2(ticket)]]
    && Granted(g, words, r1, held'[Id1(ticket)], Locked(words, held'[Id1(ticket)]))
    && Granted(g, Locked(words, held'[Id1(ticket)]), r2, held'[Id2(ticket)], words')
  }

  lemma TwoMore(g: Graph, words: Words, r1: PathReq, r2: PathReq, held: Holders, ticket: nat, words': Words,
         held': Holders)
    requires BothGranted(g, words, r1, r2, held, ticket, words', held') && Id1(ticket) !in held && Id2(ticket) !in held
    ensures |held'| == |held| + 2 && OthersSame(held, held', ticket)
  {
    hide Granted;
    var held1 := held[Id1(ticket) := held'[Id1(ticket)]];
    HolderNumber(held, Id1(ticket), held'[Id1(ticket)]);
    HolderNumber(held1, Id2(ticket), held'[Id2(ticket)]);
  }

  lemma GrantedWords(g: Graph, words: Words, r: PathReq, h: Held, words': Words)
    requires Granted(g, words, r, h, words')
    ensures words' == Locked(words, h)
  {
  }

  // ---------- no wake-up is lost ----------

  /** No lock that stood in somebody's way has gone. */
  ghost predicate Tighter(words: Words, words': Words) {
    && words'.Keys == words.Keys
    && forall n :: n in words ==> (words[n] != 0 ==> words'[n] != 0) && (words[n] < 0 ==> words'[n] == words[n])
  }

  ghost predicate Untouched(h: Held, n: Ino) {
    n !in h.chain && h.victim != Some(n)
  }

  /** The locks of a request do not touch `n`. */
  ghost predicate Untaken(e: Elem, held: Holders, n: Ino) {
    && (e.first && Id1(e.ticket) in held ==> Untouched(held[Id1(e.ticket)], n))
    && (e.second && Id2(e.ticket) in held ==> Untouched(held[Id2(e.ticket)], n))
  }

  /** The lock `h` leaves the nodes that are closed alone. */
  ghost predicate Spares(words: Words, h: Held) {
    forall n :: n in words && words[n] < 0 ==> Untouched(h, n)
  }

  /**
   A queued request is served, or has failed for good, or there is a lock in its way in the
   state as it is now; a waiting `forget` is told when its node is unlocked.
   */
  ghost predicate Settled(g: Graph, words: Words, e: Elem) {
    && (e.path1.Some? && !Complete(e) ==> MustWait(g, words, e, AGAIN) || (e.done && LeadsNowhere(g, e)))
    && (e.path1.None? && e.path2.None? && e.nodeid1 in words && words[e.nodeid1] == 0 ==> e.signalled)
  }

  ghost predicate NoneOverlooked(g: Graph, words: Words, q: seq<Elem>, n: nat) {
    forall i :: 0 <= i < n && i < |q| ==> Settled(g, words, q[i])
  }

  /** Every path that the request lacks is refused as the words are now. */
  ghost predicate AllRefused(g: Graph, words: Words, e: Elem) {
    && (e.path1.Some? && !e.first ==> Refused(g, words, e.path1.value, AGAIN))
    && (e.path2.Some? && !e.second ==> Refused(g, words, e.path2.value, AGAIN))
  }

  /** The first request of the queue holds whatever of its paths it could get. */
  ghost predicate HeadWaits(g: Graph, words: Words, q: seq<Elem>) {
    q != [] && !q[0].done ==> AllRefused(g, words, q[0])
  }

  ghost predicate KeepsLocks(e: Elem, held: Holders, e': Elem, held': Holders) {
    && (e.first ==> e'.first) && (e.second ==> e'.second)
    && (forall id :: id in held ==> id in held' && held'[id] == held[id])
  }

  /** A request may use the names of the locks that it has got. */
  ghost predicate Gains(g: Graph, held: Holders, e: Elem, e': Elem) {
    && (!e.first && e'.first && e.path1.Some? ==> Usable(g, held, Id1(e.ticket), e.path1.value))
    && (!e.second && e'.second && e.path2.Some? ==> Usable(g, held, Id2(e.ticket), e.path2.value))
  }

  ghost predicate AllGained(g: Graph, held: Holders, q: seq<Elem>, q': seq<Elem>, n: nat) {
    forall i :: 0 <= i < n && i < |q| && i < |q'| ==> Gains(g, held, q[i], q'[i])
  }

  /**
   What a refused attempt leaves behind: a node that it was to write-lock, and that is in use,
   takes no further readers, and nothing else is changed.
   */
  ghost predicate Marks(g: Graph, words: Words, r: PathReq, words': Words) {
    if r.wr && r.name.Some? && Link(r.nodeid, r.name.value) in g.names
    then
      var v := g.names[Link(r.nodeid, r.name.value)];
      && v in words && v in words' && words'.Keys == words.Keys
      && (forall n :: n in words && n != v ==> words'[n] == words[n])
      && (if words[v] == 0 then words'[v] == 0
          else words'[v] < 0 && DecodeReaders(words'[v]) == DecodeReaders(words[v]))
    else words' == words
  }

  /**
   A request that was served, when it leaves the queue: it may use its name, unless the name was
   none and has been entered since.
   */
  ghost predicate MayProceed(s: State, id: nat, r: PathReq, wnode: Option<Ino>) {
    r.wr && r.name.Some? ==>
      var l := Link(r.nodeid, r.name.value);
      NameLocked(s, id, l) <==> wnode.Some? || l !in s.g.names
  }

  lemma AllRefusedStill(g: Graph, words: Words, words': Words, e: Elem)
    requires AllRefused(g, words, e) && Tighter(words, words')
    ensures AllRefused(g, words', e)
  {
    hide Refused, Tighter;
    if e.path1.Some? && !e.first {
      RefusedStill(g, words, words', e.path1.value, AGAIN);
    }
    if e.path2.Some? && !e.second {
      RefusedStill(g, words, words', e.path2.value, AGAIN);
    }
  }

  lemma HeadStillWaits(g: Graph, words: Words, words': Words, q: seq<Elem>, i: nat, e: Elem)
    requires i < |q| && (i > 0 ==> HeadWaits(g, words, q) && Tighter(words, words'))
    requires i == 0 && !e.done ==> AllRefused(g, words', e)
    ensures HeadWaits(g, words', q[i := e])
  {
    hide AllRefused, Tighter;
    if i > 0 && !q[0].done {
      AllRefusedStill(g, words, words', q[0]);
    }
  }

  lemma GainedOne(g: Graph, held: Holders, held': Holders, q0: seq<Elem>, q: seq<Elem>, i: nat, e: Elem)
    requires AllGained(g, held, q0, q, i) && i < |q| == |q0| && QueueOk(q, held)
    requires (forall j :: 0 <= j < |q| ==> SameRequest(q0[j], q[j])) && OthersSame(held, held', q[i].ticket)
    requires Gains(g, held', q0[i], e)
    ensures AllGained(g, held', q0, q[i := e], i + 1)
  {
    hide Usable, ElemOk;
    forall j | 0 <= j < i ensures Gains(g, held', q0[j], q[j]) {
      assert Gains(g, held, q0[j], q[j]) && q[j].ticket != q[i].ticket && SameRequest(q0[j], q[j]);
      GainsStill(g, held, held', q0[j], q[j], q[i].ticket);
    }
  }

  lemma GainsStill(g: Graph, held: Holders, held': Holders, e: Elem, e': Elem, ticket: nat)
    requires Gains(g, held, e, e') && OthersSame(held, held', ticket) && e.ticket != ticket
    ensures Gains(g, held', e, e')
  {
    hide MayUse;
  }

  lemma NoneGained(g: Graph, held: Holders, q: seq<Elem>)
    ensures AllGained(g, held, q, q, 0)
  {
  }

  /** With the locks that it had and those that it got, a request is named in all of them. */
  lemma GainsNamed(g: Graph, held: Holders, held': Holders, e: Elem, e': Elem)
    requires ElemNamed(g, held, e) && Slots(e, held) && Slots(e', held') && SameRequest(e, e')
    requires KeepsLocks(e, held, e', held') && Gains(g, held', e, e')
    ensures ElemNamed(g, held', e')
  {
    hide StillNamed, Usable, Serves;
    if !e.first && e'.first {
      UsableNamed(g, held', Id1(e.ticket), e.path1.value);
    }
    if !e.second && e'.second {
      UsableNamed(g, held', Id2(e.ticket), e.path2.value);
    }
  }

  lemma NothingNamed(g: Graph, held: Holders, e: Elem)
    requires Id1(e.ticket) !in held && Id2(e.ticket) !in held
    ensures ElemNamed(g, held, e)
  {
  }

  lemma NothingRefused(g: Graph, words: Words, e: Elem, held: Holders)
    requires ElemOk(e, held) && e.path1.None?
    ensures AllRefused(g, words, e) && AllRefused(g, words, e.(signalled := true))
    ensures forall g1: Graph :: Gains(g1, held, e, e) && Gains(g1, held, e, e.(signalled := true))
    ensures KeepsLocks(e, held, e, held) && KeepsLocks(e, held, e.(signalled := true), held)
  {
  }

  lemma NamedAt(g: Graph, held: Holders, q: seq<Elem>, i: nat)
    requires QueueNamed(g, held, q) && i < |q|
    ensures ElemNamed(g, held, q[i])
  {
  }

  lemma ServedProceeds(s: State, e: Elem)
    requires ElemOk(e, s.held) && ElemNamed(s.g, s.held, e)
    ensures e.path1.Some? && e.done && e.err == OK ==>
              && MayProceed(s, Id1(e.ticket), e.path1.value, e.wnode1)
              && (e.path2.Some? ==> MayProceed(s, Id2(e.ticket), e.path2.value, e.wnode2))
  {
  }

  /** What a lock record says when the attempt was granted. */
  lemma LockIsUsable(s: State, n: Ino, name: Option<string>, wr: bool, id: nat)
    requires Inv(s) && id in s.held && Bottom(s.held[id]) == n && s.held[id].victim == Victim(s.g, n, name, wr)
    requires wr ==> name.Some?
    ensures Usable(s.g, s.held, id, PathReq(n, name, wr))
    ensures wr && Link(n, name.value) in s.g.names ==>
              var v := s.g.names[Link(n, name.value)];
              v in s.words && s.words[v] == WRITE && forall i :: i in s.held ==> v !in s.held[i].chain
  {
    hide Inv;
    if wr {
      assert MayUse(s.g, s.held[id], Link(n, name.value));
      NameIsLocked(s, id, Link(n, name.value));
    }
  }

  lemma BlockedMarks(s: State, r: PathReq, h: Held, words': Words)
    requires Inv(s) && Blocked(s.g, s.words, r.nodeid, r.name, r.wr, h, words') && |s.held| < INT_MAX
    ensures Marks(s.g, s.words, r, words')
  {
    hide Structure, Counted, Acyclic, Homed, WordsOk;
    var l := Link(r.nodeid, if r.name.Some? then r.name.value else "");
    if r.wr && r.name.Some? && l in s.g.names {
      NamedNode(s.g, s.pins, l);
      KeysAgree(s);
      if s.words[s.g.names[l]] != 0 {
        WaitCloses(s.words, s.held, s.g.names[l], h);
        WordOf(s.words, s.held, s.g.names[l]);
        WordDecodes(s.words[s.g.names[l]], |ReadersOf(s.held, s.g.names[l])|, |WritersOf(s.held, s.g.names[l])|);
      }
    }
  }

  lemma TightensNot(words: Words)
    ensures Tighter(words, words)
  {
  }

  lemma TightensTwice(words: Words, words1: Words, words2: Words)
    requires Tighter(words, words1) && Tighter(words1, words2)
    ensures Tighter(words, words2)
  {
  }

  lemma SparesEarlier(words: Words, words1: Words, h: Held)
    requires Tighter(words, words1) && Spares(words1, h)
    ensures Spares(words, h)
  {
  }

  lemma LockTightens(words: Words, h: Held)
    requires Free(words, h)
    ensures Tighter(words, Locked(words, h)) && Spares(words, h)
  {
  }

  lemma WaitTightens(s: State, n: Option<Ino>)
    requires Inv(s)
    ensures Tighter(s.words, if n.Some? then Waiting(s.words, n.value) else s.words)
  {
    hide GraphInv, HoldersOk, WordsOk, ReadersOf, WritersOf;
    if n.Some? && n.value in s.words {
      WordFits(s.words, s.held, n.value);
    }
  }

  lemma WordFits(words: Words, held: Holders, n: Ino)
    requires WordsOk(words, held) && |held| < INT_MAX && n in words
    ensures WAIT_OFFSET < words[n] <= INT_MAX
  {
    WordOf(words, held, n);
    WordDecodes(words[n], |ReadersOf(held, n)|, |WritersOf(held, n)|);
  }

  lemma ZeroMeansUnheld(words: Words, held: Holders, n: Ino)
    requires WordsOk(words, held) && |held| < INT_MAX && n in words
    ensures words[n] == 0 <==> |ReadersOf(held, n)| == 0 && |WritersOf(held, n)| == 0
  {
    WordOf(words, held, n);
    WordDecodes(words[n], |ReadersOf(held, n)|, |WritersOf(held, n)|);
  }

  lemma FlagsHold(e: Elem, held: Holders)
    requires Slots(e, held)
    ensures e.first <==> Id1(e.ticket) in held
    ensures e.second <==> Id2(e.ticket) in held
    ensures e.second ==> e.path2.Some?
  {
  }

  lemma CompleteIsDone(e: Elem, held: Holders)
    requires ElemOk(e, held) && Complete(e)
    ensures e.done
  {
  }

  /** An element that is not served and not partially locked holds nothing. */
  lemma HoldsNothing(e: Elem, held: Holders)
    requires Slots(e, held) && AllOrNone(e) && !Complete(e) && e.path1.Some?
    ensures !e.first && !e.second && Id1(e.ticket) !in held && Id2(e.ticket) !in held
  {
  }

  /** Undoing what was taken a moment ago opens nothing that was closed before. */
  lemma UndoTightens(s: State, e: Elem, words1: Words, held1: Holders, e1: Elem, s2: State)
    requires Inv(s) && Inv(s2) && s2.g == s.g && Slots(e, s.held) && !e.first && !e.second
    requires SameRequest(e, e1) && OthersSame(s.held, s2.held, e.ticket) && Id1(e.ticket) !in s2.held
             && Id2(e.ticket) !in s2.held
    requires Tighter(s.words, words1)
    requires e1.first ==> Id1(e.ticket) in held1 && Spares(s.words, held1[Id1(e.ticket)])
    requires e1.second ==> Id2(e.ticket) in held1 && Spares(s.words, held1[Id2(e.ticket)])
    requires forall n :: n in words1 && Untaken(e1, held1, n) ==> n in s2.words && s2.words[n] == words1[n]
    ensures Tighter(s.words, s2.words)
  {
    hide HoldersOk, GraphInv, WordsOk, ReadersOf, WritersOf;
    assert s.held == s2.held;
    forall n | n in s.words && s.words[n] != 0 ensures s2.words[n] != 0 {
      ZeroMeansUnheld(s.words, s.held, n);
      ZeroMeansUnheld(s2.words, s2.held, n);
    }
  }

  lemma RefusedStill(g: Graph, words: Words, words': Words, r: PathReq, err: Err)
    requires Refused(g, words, r, err) && Tighter(words, words')
    ensures Refused(g, words', r, err)
  {
    hide Walk;
    var h :| Walk(g, r.nodeid, h) && RefusedAt(g, words, r, err, h);
    assert RefusedAt(g, words', r, err, h);
  }

  /** A way that was free is still free, or there is a lock on it now. */
  lemma FreeOrBarred(g: Graph, words: Words, words': Words, r: PathReq, h: Held)
    requires Granted(g, words, r, h, Locked(words, h)) && Tighter(words, words')
    ensures Refused(g, words', r, AGAIN)
            || (Granted(g, words', r, h, Locked(words', h)) && Tighter(Locked(words, h), Locked(words', h)))
  {
    if Free(words', h) {
      StillTighter(words, words', h);
    } else if h.victim.Some? && words'[h.victim.value] != 0 {
      hide Walk;
      assert RefusedAt(g, words', r, AGAIN, h);
    } else {
      var n :| n in h.chain && words'[n] < 0;
      var i :| 0 <= i < |h.chain| && h.chain[i] == n;
      WalkAt(g, r.nodeid, h, i);
      WalkPrefix(g, r.nodeid, h, i);
      assert RefusedAt(g, words', r, AGAIN, Prefix(h, i));
    }
  }

  lemma StillTighter(words: Words, words': Words, h: Held)
    requires Tighter(words, words') && Free(words, h) && Free(words', h)
    ensures Tighter(Locked(words, h), Locked(words', h))
  {
  }

  lemma WalkPrefix(g: Graph, n: Ino, h: Held, i: nat)
    requires Walk(g, n, h) && i < |h.chain| == |h.links|
    ensures Walk(g, n, Prefix(h, i)) && Stop(n, Prefix(h, i)) == h.chain[i] && h.chain[i] != ROOT
  {
    if i > 0 {
      assert h.links[i - 1].parent == h.chain[i];
    }
  }

  /** Whoever had to wait must still wait. */
  lemma MustWaitStill(g: Graph, words: Words, words': Words, e: Elem, e': Elem)
    requires MustWait(g, words, e, AGAIN) && Tighter(words, words')
    requires SameRequest(e, e') && e'.first == e.first && e'.second == e.second
    ensures MustWait(g, words', e', AGAIN)
  {
    hide Refused, Granted, Tighter, Locked;
    if e.path1.Some? && !e.first && Refused(g, words, e.path1.value, AGAIN) {
      RefusedStill(g, words, words', e.path1.value, AGAIN);
    } else if e.path2.Some? && !e.second && Refused(g, words, e.path2.value, AGAIN) {
      RefusedStill(g, words, words', e.path2.value, AGAIN);
    } else {
      var h :| Granted(g, words, e.path1.value, h, Locked(words, h))
             && Refused(g, Locked(words, h), e.path2.value, AGAIN);
      FreeOrBarred(g, words, words', e.path1.value, h);
      if !Refused(g, words', e.path1.value, AGAIN) {
        RefusedStill(g, Locked(words, h), Locked(words', h), e.path2.value, AGAIN);
      }
    }
  }

  lemma SignalLive(g: Graph, e: Elem)
    requires ElemLive(g, e) && e.path1.None?
    ensures ElemLive(g, e.(signalled := true))
  {
  }

  lemma ElemAt(g: Graph, q: seq<Elem>, i: nat, held: Holders)
    requires QueueOk(q, held) && QueueLive(g, q) && i < |q|
    ensures ElemOk(q[i], held) && ElemLive(g, q[i])
  {
  }

  lemma LiveUpdate(g: Graph, q: seq<Elem>, i: nat, e: Elem)
    requires QueueLive(g, q) && i < |q| && ElemLive(g, e)
    ensures QueueLive(g, q[i := e])
  {
    hide ElemLive;
  }

  lemma SameProgress(e: Elem, held: Holders, e': Elem, held': Holders)
    requires Progress(e, held, e', held')
    ensures SameRequest(e, e') && OthersSame(held, held', e.ticket)
  {
  }

  lemma LiveRemoved(g: Graph, q: seq<Elem>, k: nat)
    requires QueueLive(g, q) && k < |q|
    ensures QueueLive(g, q[..k] + q[k + 1..]) && ElemLive(g, q[k])
  {
    hide ElemLive;
    var q' := q[..k] + q[k + 1..];
    assert forall i :: 0 <= i < |q'| ==> q'[i] == q[if i < k then i else i + 1];
  }

  lemma ReqLookedUp(g: Graph, r: PathReq)
    requires ReqOk(g, r)
    ensures LookedUp(g, r.nodeid)
  {
  }

  lemma LacksSecond(g: Graph, words: Words, e: Elem)
    requires e.path2.Some? && !e.second && Refused(g, words, e.path2.value, AGAIN)
    ensures MustWait(g, words, e, AGAIN)
  {
    hide Refused;
  }

  lemma IsSettled(g: Graph, words: Words, e: Elem, why: Err, known: bool)
    requires e.path1.None? ==> e.nodeid1 in words && words[e.nodeid1] == 0 ==> e.signalled
    requires e.path1.Some? && !Complete(e) ==> why != OK && (why == NOENT ==> e.done && LeadsNowhere(g, e))
    requires e.path1.Some? && known && why == AGAIN ==> MustWait(g, words, e, AGAIN)
    ensures known ==> Settled(g, words, e)
  {
    hide LeadsNowhere, MustWait;
  }

  lemma StillSettled(g: Graph, words: Words, words': Words, q: seq<Elem>, i: nat, e: Elem)
    requires NoneOverlooked(g, words, q, i) && i < |q|
    requires i > 0 ==> Tighter(words, words')
    requires Settled(g, words', e)
    ensures NoneOverlooked(g, words', q[i := e], i + 1)
  {
    hide Settled, Tighter;
    forall j | 0 <= j < i ensures Settled(g, words', q[j]) {
      assert Settled(g, words, q[j]);
      SettledStill(g, words, words', q[j]);
    }
  }

  lemma SettledStill(g: Graph, words: Words, words': Words, e: Elem)
    requires Settled(g, words, e) && Tighter(words, words')
    ensures Settled(g, words', e)
  {
    hide MustWait, LeadsNowhere;
    if MustWait(g, words, e, AGAIN) {
      MustWaitStill(g, words, words', e, e);
    }
  }

  lemma IsRefused(g: Graph, words: Words, r: PathReq, err: Err, h: Held, words': Words)
    requires Walk(g, r.nodeid, h) && err != OK
    requires err == NOENT ==>
             Stop(r.nodeid, h) in g.nodes && Stop(r.nodeid, h) != ROOT && g.nodes[Stop(r.nodeid, h)].link.None?
    requires err == AGAIN ==> Blocked(g, words, r.nodeid, r.name, r.wr, h, words')
    ensures Refused(g, words, r, err)
  {
    hide Walk;
    assert RefusedAt(g, words, r, err, h);
  }

  lemma FirstRefused(g: Graph, words: Words, e: Elem, err: Err)
    requires e.path1.Some? && !e.first && Refused(g, words, e.path1.value, err)
    ensures MustWait(g, words, e, err)
  {
  }

  /** The second attempt starts from the words that the first one left. */
  lemma SecondRefused(g: Graph, words: Words, words1: Words, e: Elem, err: Err, h: Option<Held>)
    requires e.path2.Some? && !e.second && Refused(g, words1, e.path2.value, err)
    requires h.Some? ==> e.path1.Some? && !e.first && Granted(g, words, e.path1.value, h.value, words1)
    requires h.None? ==> err == NOENT || words1 == words
    ensures MustWait(g, words, e, err)
  {
    if h.Some? {
      assert Granted(g, words, e.path1.value, h.value, Locked(words, h.value)) by { hide Walk; }
    } else if err == NOENT {
      var r := e.path2.value;
      var h2 :| Walk(g, r.nodeid, h2) && RefusedAt(g, words1, r, err, h2);
      assert RefusedAt(g, words, r, err, h2);
    }
  }

  ghost predicate QueueReqsOk(g: Graph, q: seq<Elem>) {
    forall i :: 0 <= i < |q| ==> ElemReqsOk(g, q[i])
  }

  /** A request as it joins the queue. */
  function Queued(ticket: nat, nodeid: Ino, path1: Option<PathReq>, path2: Option<PathReq>): Elem {
    Elem(ticket, nodeid, path1, path2, false, false, None, None, "", "", false, OK, false)
  }

  lemma BothFreed(g: Graph, q: seq<Elem>, held: Holders, ticket: nat)
    requires QueueOk(q, held) && QueueNamed(g, held, q) && NotQueued(q, ticket)
    ensures QueueOk(q, held - {Id1(ticket), Id2(ticket)}) && QueueNamed(g, held - {Id1(ticket), Id2(ticket)}, q)
  {
    hide QueueOk, QueueNamed;
    QueueOthers(q, held, held - {Id1(ticket), Id2(ticket)}, ticket);
    NamedOthers(g, q, held, held - {Id1(ticket), Id2(ticket)}, ticket);
  }

  /** A pass over the queue leaves the locks of a request that is not queued alone. */
  lemma PassedSpares(q': seq<Elem>, held': Holders, q: seq<Elem>, held: Holders, ticket: nat)
    requires Passed(q, held, q', held') && NotQueued(q, ticket)
    ensures Id1(ticket) in held' <==> Id1(ticket) in held
    ensures Id2(ticket) in held' <==> Id2(ticket) in held
  {
  }

  lemma PassBegins(q: seq<Elem>, held: Holders)
    ensures Passed(q, held, q, held)
  {
  }

  lemma PassedParts(q: seq<Elem>, held: Holders, q': seq<Elem>, held': Holders)
    requires Passed(q, held, q', held')
    ensures |q'| == |q| && forall i :: 0 <= i < |q| ==> SameRequest(q[i], q'[i])
  {
  }

  lemma SameReqsOk(g: Graph, q: seq<Elem>, i: nat, e: Elem)
    requires QueueReqsOk(g, q) && i < |q| && SameRequest(q[i], e)
    ensures QueueReqsOk(g, q[i := e])
  {
    assert ElemReqsOk(g, q[i]);
  }

  lemma Removed(q: seq<Elem>, k: nat, held: Holders)
    requires QueueOk(q, held) && k < |q|
    ensures NotQueued(q[..k] + q[k + 1..], q[k].ticket) && ElemOk(q[k], held)
  {
    var q' := q[..k] + q[k + 1..];
    assert forall i :: 0 <= i < |q'| ==> q'[i] == q[if i < k then i else i + 1];
  }

  lemma ElemInGraph(g: Graph, e: Elem)
    requires ElemReqsOk(g, e)
    ensures e.nodeid1 in g.nodes
  {
  }

  lemma StopsAtBottom(g: Graph, n: Ino, h: Held)
    requires Walk(g, n, h) && Stop(n, h) == ROOT
    ensures Bottom(h) == n
  {
  }

  lemma UnlockReady(s: State, id: nat)
    requires Inv(s) && id in s.held
    ensures s.words.Keys == s.g.nodes.Keys && Bottom(s.held[id]) in s.g.nodes
    ensures var h := s.held[id];
            && Walk(s.g, Bottom(h), h) && Stop(Bottom(h), h) == ROOT && |h.links| == |h.chain| && Distinct(h.chain)
            && (h.chain != [] ==> h.chain[0] == Bottom(h)) && (h.victim.Some? ==> h.victim.value !in h.chain)
            && UnlockAsserts(s.words, h)
  {
    assert HeldOk(s.g, s.held[id]);
    ChainIsWalk(s.g, s.held[id]);
    UnlockAssertsHold(s.g, s.words, s.held, id);
  }

  /** The node that a write-locking request locks: the one called `name`, if there is one. */
  function Victim(g: Graph, n: Ino, name: Option<string>, wr: bool): Option<Ino> {
    if wr && name.Some? && Link(n, name.value) in g.names then Some(g.names[Link(n, name.value)]) else None
  }

  /** What the kernel promises while a request is outstanding: the nodes that it names stay looked up. */
  ghost predicate Promised(g: Graph, n: Ino, name: Option<string>, wr: bool) {
    && n in g.nodes && g.nodes[n].nlookup > 0
    && (Victim(g, n, name, wr).Some? ==>
          Victim(g, n, name, wr).value in g.nodes && g.nodes[Victim(g, n, name, wr).value].nlookup > 0)
  }

  /** All nodes that the walk passed were open to readers. */
  ghost predicate Passable(words: Words, h: Held) {
    forall n :: n in h.chain ==> n in words && words[n] >= 0
  }

  /** The node that makes an attempt fail for now. */
  function Blocker(g: Graph, words: Words, n: Ino, name: Option<string>, wr: bool, h: Held): Ino {
    var v := Victim(g, n, name, wr);
    if v.Some? && v.value in words && words[v.value] != 0 then v.value else Stop(n, h)
  }

  predicate HasName(g: Graph, n: Ino) {
    n in g.nodes && g.nodes[n].link.Some?
  }

  /**
   Why an attempt has to be repeated: the node to write-lock is locked, and is told that
   a writer waits, or a node on the way up is write-locked or has a writer waiting, and
   nothing is changed.
   */
  ghost predicate Blocked(g: Graph, words: Words, n: Ino, name: Option<string>, wr: bool, h: Held, words': Words) {
    var v := Victim(g, n, name, wr);
    if v.Some? && v.value in words && words[v.value] != 0
    then h.chain == [] && words' == Waiting(words, v.value)
    else words' == words && Stop(n, h) in words && words[Stop(n, h)] < 0 && Stop(n, h) != ROOT && HasName(g, Stop(n, h))
  }

  lemma RestrictedSame(words: Words, g: Graph)
    requires words.Keys == g.nodes.Keys
    ensures Restricted(words, g) == words
  {
  }

  lemma InvParts(s: State)
    requires Inv(s)
    ensures GraphInv(s.g, s.pins) && LockInv(s.g, s.words, s.held)
  {
  }

  lemma KeysAgree(s: State)
    requires Inv(s)
    ensures s.words.Keys == s.g.nodes.Keys
  {
  }

  lemma HeldNeeded(s: State, g: Graph, pins: multiset<Ino>)
    requires LockInv(s.g, s.words, s.held) && Structure(g, {}) && HoldersOk(g, s.held) && g.nodes.Keys == s.g.nodes.Keys
    ensures LockedAreNeeded(g, s.words, pins)
  {
    forall m | m in s.words && s.words[m] != 0 ensures Supported(g, pins, m) {
      WordOf(s.words, s.held, m);
      if ReadersOf(s.held, m) != {} {
        var id :| id in ReadersOf(s.held, m);
        assert HeldOk(g, s.held[id]);
        HeldSupported(g, pins, s.held[id], m);
      } else {
        var id :| id in WritersOf(s.held, m);
        assert HeldOk(g, s.held[id]);
        HeldSupported(g, pins, s.held[id], m);
      }
    }
  }

  lemma ReadyToForget(s: State, n: Ino, k: nat)
    requires Inv(s) && Enabled(s, Op.Forget(n, k))
    ensures s.words.Keys == s.g.nodes.Keys
    ensures s.g.nodes[n].nlookup == k ==> CascadeReady(SetLookups(s.g, n, 0), s.words, s.pins, n, {})
  {
    var g1 := SetLookups(s.g, n, 0);
    if s.g.nodes[n].nlookup == k {
      hide Structure, Counted, Acyclic, HoldersOk, WordsOk, Supported, LockedAreNeeded;
      LookupsChange(s.g, s.pins, n, 0);
      ForgetSparesHolders(s.g, s.words, s.held, n, 0);
      HeldNeeded(s, g1, s.pins);
    }
  }

  lemma ReadyToUnpin(s: State, n: Ino)
    requires Inv(s) && n in s.pins
    ensures s.words.Keys == s.g.nodes.Keys && n in s.g.nodes
    ensures CascadeReady(s.g, s.words, s.pins - multiset{n}, n, {})
  {
    hide Structure, Counted, Acyclic, HoldersOk, WordsOk, Supported, LockedAreNeeded;
    UnpinCounted(s.g, s.pins, n);
    HeldNeeded(s, s.g, s.pins - multiset{n});
  }

  lemma ReadyToUnlink(g: Graph, pins: multiset<Ino>, l: Link)
    requires GraphInv(g, pins) && l in g.names && Anchor(g, pins, l.parent)
    ensures NodeGraph.Remove(g, l).nodes.Keys == g.nodes.Keys
    ensures g.names[l] in g.nodes && g.nodes[g.names[l]].link == Some(l)
    ensures l.parent in g.nodes && l.parent != g.names[l] && g.nodes[l.parent].refctr >= 2
    ensures NodeGraph.Remove(g, l).names == g.names - {l}
  {
    ParentHasSpare(g, pins, l);
    ClearKeepsInv(g, pins, l);
    var rank :| Ranked(g, rank);
  }

  /** What the two unlinks of a rename and the link after them need. */
  ghost predicate ReadyToMove(g: Graph, lo: Link, ln: Link)
    requires lo in g.names
  {
    var g1, n := NodeGraph.Remove(g, ln), g.names[lo];
    var g2 := NodeGraph.UnhashName(g1, n);
    && n in g.nodes && ln.parent in g.nodes && g1.nodes.Keys == g2.nodes.Keys == g.nodes.Keys && ln !in g2.names
    && (ln in g.names ==>
          && g.names[ln] in g.nodes && g.nodes[g.names[ln]].link == Some(ln)
          && ln.parent != g.names[ln] && g.nodes[ln.parent].refctr >= 2)
    && (if lo == ln then g1.nodes[n].link.None?
        else
          && g1.nodes[n].link == Some(lo) && lo in g1.names && g1.names[lo] == n
          && lo.parent in g1.nodes && lo.parent != n && g1.nodes[lo.parent].refctr >= 2)
  }

  ghost function Moved(g: Graph, lo: Link, ln: Link): Graph
    requires lo in g.names && ReadyToMove(g, lo, ln)
  {
    NodeGraph.HashName(NodeGraph.UnhashName(NodeGraph.Remove(g, ln), g.names[lo]), g.names[lo], ln)
  }

  lemma RenameIs(g: Graph, lo: Link, ln: Link, hiding: bool)
    requires lo in g.names && (hiding ==> ln !in g.names) && ReadyToMove(g, lo, ln)
    ensures NodeGraph.Rename(g, lo, ln, hiding).g == Moved(g, lo, ln)
  {
    hide NodeGraph.UnhashName, NodeGraph.HashName;
  }

  /** The second unlink of a rename is as ready as the first; the target's old node is gone by then. */
  lemma ReadyToRename(s: State, id1: nat, id2: nat, lo: Link, ln: Link)
    requires Inv(s) && NameLocked(s, id1, lo) && NameLocked(s, id2, ln) && lo in s.g.names
    ensures s.words.Keys == s.g.nodes.Keys && ReadyToMove(s.g, lo, ln)
  {
    hide GraphInv, NodeGraph.Remove, NodeGraph.UnhashName, WordsOk, HoldersOk;
    VictimUnread(s, id1, lo);
    VictimUnread(s, id2, ln);
    NamedNode(s.g, s.pins, lo);
    ClearKeepsInv(s.g, s.pins, ln);
    var g1 := Cleared(s.g, ln);
    if ln in s.g.names {
      ReadyToUnlink(s.g, s.pins, ln);
    }
    AnchorStays(s.g, g1, s.pins, lo.parent);
    if lo != ln {
      NamedNode(s.g, s.pins, lo);
      ReadyToUnlink(g1, s.pins, lo);
      RemoveIs(g1, lo);
    } else {
      UnhashNameless(g1, s.g.names[lo]);
    }
  }

  lemma RemoveIs(g: Graph, l: Link)
    requires l in g.names
    ensures NodeGraph.Remove(g, l) == NodeGraph.UnhashName(g, g.names[l])
  {
  }

  lemma UnhashNameless(g: Graph, n: Ino)
    requires n in g.nodes && g.nodes[n].link.None?
    ensures NodeGraph.UnhashName(g, n) == g
  {
  }

  // ---------- the steps of try_get_path ----------

  ghost function RankOf(s: State): (rank: map<Ino, nat>)
    requires Inv(s)
    ensures Ranked(s.g, rank) && (forall n :: n in s.g.nodes ==> n in rank)
  {
    var rank :| Ranked(s.g, rank);
    rank
  }

  lemma WalkBegins(g: Graph, rank: map<Ino, nat>, n: Ino, victim: Option<Ino>)
    requires Ranked(g, rank) && n in g.nodes
    ensures n in rank && Walk(g, n, Held([], [], victim)) && Descends(rank, n, Held([], [], victim))
  {
    WalkStarts(g, n, victim, rank);
  }

  lemma NoVictim(g: Graph, n: Ino, name: Option<string>)
    ensures Victim(g, n, name, false) == None
  {
  }

  lemma BusyVictim(g: Graph, words: Words, n: Ino, name: Option<string>, wr: bool)
    requires Victim(g, n, name, wr).Some? && Victim(g, n, name, wr).value in words
             && words[Victim(g, n, name, wr).value] != 0
    ensures Blocked(g, words, n, name, wr, Held([], [], None), Waiting(words, Victim(g, n, name, wr).value))
  {
  }

  lemma BlockedStep(s: State, n: Ino, name: Option<string>, wr: bool, h: Held, words': Words)
    requires Inv(s) && Blocked(s.g, s.words, n, name, wr, h, words')
    ensures var s' := s.(words := words');
            Inv(s') && Steps(s, Busy(Blocker(s.g, s.words, n, name, wr, h)), s')
  {
    hide GraphInv, LockInv;
    WaitKeepsInv(s.g, s.words, s.held, Blocker(s.g, s.words, n, name, wr, h));
  }

  /** An attempt answers ENOENT exactly at a dead end: no lock can hide that there is no path. */
  lemma OutcomeOfWalk(s: State, n: Ino, name: Option<string>, wr: bool, h: Held, err: Err, words': Words)
    requires Inv(s) && Walk(s.g, n, h)
    requires err == OK ==> Stop(n, h) == ROOT
    requires err == NOENT ==> Stop(n, h) in s.g.nodes && Stop(n, h) != ROOT && s.g.nodes[Stop(n, h)].link.None?
    requires err == AGAIN ==> Blocked(s.g, s.words, n, name, wr, h, words')
    ensures err == NOENT <==> DeadEnd(s.g, n)
  {
    hide Inv, DeadEnd, Walk, GraphInv;
    SoundParts(s);
    InvParts(s);
    KeysAgree(s);
    WalkToDeadEnd(s.g, n, h, |h.chain|);
    if err == OK {
      RootIsNotDead(s.g);
    } else if err == NOENT {
      NamelessIsDead(s.g, Stop(n, h));
    } else if Victim(s.g, n, name, wr).Some? && s.words[Victim(s.g, n, name, wr).value] != 0 {
      var l := Link(n, name.value);
      NamedNode(s.g, s.pins, l);
      LockedIsNotDead(s, s.g.names[l]);
      DeadAsParent(s.g, s.g.names[l], l);
    } else {
      LockedIsNotDead(s, Stop(n, h));
    }
  }

  lemma WalkBlocked(g: Graph, words: Words, n: Ino, name: Option<string>, wr: bool, needLock: bool, h: Held)
    requires h.victim == Victim(g, n, name, wr) && (needLock ==> Free(words, h)) && (wr ==> needLock)
    ensures needLock ==> Passable(words, h)
    ensures Stop(n, h) in words && words[Stop(n, h)] < 0 && Stop(n, h) != ROOT && HasName(g, Stop(n, h)) ==>
            Blocked(g, words, n, name, wr, h, words)
  {
    if !wr {
      NoVictim(g, n, name);
    }
  }

  lemma LockTaken(s: State, rank: map<Ino, nat>, n: Ino, name: Option<string>, wr: bool, id: nat, h: Held)
    requires Inv(s) && Ranked(s.g, rank) && Walk(s.g, n, h) && Descends(rank, n, h) && Stop(n, h) == ROOT
    requires h.victim == Victim(s.g, n, name, wr) && Promised(s.g, n, name, wr) && Free(s.words, h)
    requires id !in s.held && |s.held| + 1 < INT_MAX
    ensures var s' := s.(words := Locked(s.words, h), held := s.held[id := h]);
            Inv(s') && Steps(s, Lock(id, h), s')
  {
    hide GraphInv, LockInv, Homed, HeldOk, FoundBelow, Walk, Descends, Free, Promised;
    LockReady(s.g, s.pins, rank, s.words, n, name, wr, h);
    LockKeeps(s, id, h);
  }

  lemma LockStarts(words: Words, victim: Option<Ino>)
    requires victim.Some? ==> victim.value in words && words[victim.value] == 0
    ensures Locked(words, Held([], [], victim)) == if victim.Some? then words[victim.value := WRITE] else words
    ensures Free(words, Held([], [], victim))
  {
  }

  lemma WalkGoesOn(g: Graph, pins: multiset<Ino>, rank: map<Ino, nat>, n: Ino, h: Held, l: Link)
    requires GraphInv(g, pins) && Ranked(g, rank)
    requires Walk(g, n, h) && Descends(rank, n, h) && Stop(n, h) in g.nodes && Stop(n, h) != ROOT
             && g.nodes[Stop(n, h)].link == Some(l)
    ensures var h' := Extended(h, Stop(n, h), l);
            && Walk(g, n, h') && Descends(rank, n, h') && Stop(n, h') == l.parent && l.parent in g.nodes
            && l.parent in rank && Stop(n, h) in rank && rank[l.parent] < rank[Stop(n, h)]
  {
    hide Descends, Counted, Acyclic, Walk;
    WalkExtends(g, n, h, l);
    WalkLengths(g, n, h);
    DescendsFurther(g, rank, n, h, l);
  }

  lemma WalkLengths(g: Graph, n: Ino, h: Held)
    requires Walk(g, n, h)
    ensures |h.links| == |h.chain|
  {
  }

  lemma WalkFits(g: Graph, n: Ino, name: Option<string>, h: Held)
    requires PathsFit(g, n, name) && Walk(g, n, h)
    ensures PathFits(h.links, name)
  {
  }

  lemma LockGoesOn(g: Graph, pins: multiset<Ino>, rank: map<Ino, nat>, words: Words, n: Ino, name: Option<string>,
         wr: bool, h: Held, l: Link)
    requires GraphInv(g, pins) && Ranked(g, rank) && Descends(rank, n, h) && words.Keys == g.nodes.Keys
    requires Stop(n, h) in g.nodes && h.victim == Victim(g, n, name, wr) && Free(words, h)
    ensures var node := Stop(n, h);
            && node in Locked(words, h) && node in words && Locked(words, h)[node] == words[node]
            && Locked(words, h)[node := words[node] + 1] == Locked(words, Extended(h, node, l))
            && (words[node] >= 0 ==> Free(words, Extended(h, node, l)))
  {
    var node := Stop(n, h);
    if h.victim.Some? {
      ChildNotOnWalk(g, rank, n, h, Link(n, name.value));
    }
    assert node !in h.chain;
    LockedFurther(words, h, node, l);
  }

  /** A failed attempt leaves the words as they were. */
  lemma UndoReady(g: Graph, rank: map<Ino, nat>, words: Words, n: Ino, name: Option<string>, wr: bool, h: Held)
    requires Ranked(g, rank) && Walk(g, n, h) && Descends(rank, n, h) && words.Keys == g.nodes.Keys
    requires h.victim == Victim(g, n, name, wr) && Free(words, h)
    ensures |h.links| == |h.chain| && (h.chain != [] ==> h.chain[0] == n) && Distinct(h.chain)
    ensures (h.victim.Some? ==> h.victim.value !in h.chain) && Stop(n, h) !in h.chain
    ensures UnlockAsserts(Locked(words, h), h) && Unlocked(Locked(words, h), h) == words
    ensures Locked(words, h).Keys == words.Keys
  {
    if h.victim.Some? {
      ChildNotOnWalk(g, rank, n, h, Link(n, name.value));
    }
    LockUnlock(words, h);
  }

  lemma LockReady(g: Graph, pins: multiset<Ino>, rank: map<Ino, nat>, words: Words, n: Ino, name: Option<string>,
         wr: bool, h: Held)
    requires GraphInv(g, pins) && Ranked(g, rank) && Walk(g, n, h) && Descends(rank, n, h) && Stop(n, h) == ROOT
    requires h.victim == Victim(g, n, name, wr) && Promised(g, n, name, wr)
    ensures HeldOk(g, h) && FoundBelow(g, h)
  {
    WalkIsChain(g, rank, n, h);
    if h.victim.Some? {
      ChildNotOnWalk(g, rank, n, h, Link(n, name.value));
      NamedNode(g, pins, Link(n, name.value));
    }
  }
}

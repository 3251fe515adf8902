/**
 Nodes whose path has been taken away: the way up from them ends at a node without a name.
 `try_get_path` answers ENOENT for them. They stay without a path, and no lock can be in
 the way of that answer.
 */
module DeadEnds {
  import opened Common
  import opened NodeGraph
  import opened TreeLocks

  ghost predicate EndsDead(g: Graph, p: seq<Ino>) {
    UpPath(g, p) && p[|p| - 1] in g.nodes && p[|p| - 1] != ROOT && g.nodes[p[|p| - 1]].link.None?
  }

  ghost predicate DeadEnd(g: Graph, n: Ino) {
    exists p :: EndsDead(g, p) && p[0] == n
  }

  /** A node without a name is a dead end, unless it is the root. */
  lemma NamelessIsDead(g: Graph, n: Ino)
    requires n in g.nodes && n != ROOT && g.nodes[n].link.None?
    ensures DeadEnd(g, n)
  {
    assert EndsDead(g, [n]) && [n][0] == n;
  }

  /** Any other node is one exactly if its parent is. */
  lemma DeadAsParent(g: Graph, n: Ino, l: Link)
    requires Structure(g, {}) && n in g.nodes && g.nodes[n].link == Some(l)
    ensures DeadEnd(g, n) <==> DeadEnd(g, l.parent)
  {
    assert Edge(g, n, l.parent);
    if DeadEnd(g, n) {
      var p :| EndsDead(g, p) && p[0] == n;
      assert |p| > 1;
      UpPathTail(g, p);
      assert EndsDead(g, p[1..]) && p[1..][0] == l.parent;
    }
    if DeadEnd(g, l.parent) {
      var p :| EndsDead(g, p) && p[0] == l.parent;
      UpPathCons(g, n, p);
      assert EndsDead(g, [n] + p) && ([n] + p)[0] == n;
    }
  }

  lemma RootIsNotDead(g: Graph)
    requires Structure(g, {}) && RootOk(g)
    ensures !DeadEnd(g, ROOT)
  {
    if DeadEnd(g, ROOT) {
      var p :| EndsDead(g, p) && p[0] == ROOT;
      assert |p| > 1;
      UpPathTail(g, p);
      assert false;
    }
  }

  /** No node of a held path is one. */
  lemma {:induction false} HeldIsNotDead(g: Graph, h: Held, i: nat)
    requires Structure(g, {}) && RootOk(g) && ChainOk(g, h) && i <= |h.chain|
    ensures !DeadEnd(g, if i < |h.chain| then h.chain[i] else ROOT)
    decreases |h.chain| - i
  {
    hide Structure, DeadEnd;
    if i == |h.chain| {
      RootIsNotDead(g);
    } else {
      HeldIsNotDead(g, h, i + 1);
      DeadAsParent(g, h.chain[i], h.links[i]);
    }
  }

  lemma BottomIsNotDead(g: Graph, h: Held)
    requires Structure(g, {}) && RootOk(g) && ChainOk(g, h)
    ensures !DeadEnd(g, Bottom(h))
  {
    HeldIsNotDead(g, h, 0);
  }

  /**
   A node with a name that is locked is not a dead end: who holds it holds a path to the root from
   it, or from its directory.
   */
  lemma LockedIsNotDead(s: State, n: Ino)
    requires Inv(s) && n in s.words && s.words[n] != 0 && s.g.nodes[n].link.Some?
    ensures !DeadEnd(s.g, n)
  {
    hide Counted, Acyclic, DeadEnd, Structure, Encodes;
    WordOf(s.words, s.held, n);
    SomeHolder(s.words, s.held, n);
    if id :| id in s.held && n in s.held[id].chain {
      var i :| 0 <= i < |s.held[id].chain| && s.held[id].chain[i] == n;
      assert HeldOk(s.g, s.held[id]);
      HeldIsNotDead(s.g, s.held[id], i);
    } else if id :| id in s.held && s.held[id].victim == Some(n) {
      assert HeldOk(s.g, s.held[id]) && AtHome(s.g, s.held, id);
      var l := s.g.nodes[n].link.value;
      DeadAsParent(s.g, n, l);
      if l.parent == Bottom(s.held[id]) {
        BottomIsNotDead(s.g, s.held[id]);
      } else {
        assert HeldOk(s.g, s.held[id + 1]);
        BottomIsNotDead(s.g, s.held[id + 1]);
      }
    }
  }

  lemma SomeHolder(words: Words, held: Holders, n: Ino)
    requires WordsOk(words, held) && n in words && words[n] != 0
    ensures exists id :: id in held && (n in held[id].chain || held[id].victim == Some(n))
  {
    assert Encodes(words[n], |ReadersOf(held, n)|, |WritersOf(held, n)|);
    if ReadersOf(held, n) != {} {
      var id :| id in ReadersOf(held, n);
    } else {
      assert |WritersOf(held, n)| > 0;
      var id :| id in WritersOf(held, n);
    }
  }

  // ---------- a dead end stays one ----------

  /** What changes of the graph are harmless: links are kept or lost, but for nodes that are no dead ends. */
  ghost predicate OnlyLost(g: Graph, g': Graph) {
    forall m :: m in g.nodes && m in g'.nodes ==>
      g'.nodes[m].link == g.nodes[m].link || g'.nodes[m].link.None? || !DeadEnd(g, m)
  }

  lemma {:induction false} DeadStays(g: Graph, g': Graph, p: seq<Ino>)
    requires Structure(g, {}) && Structure(g', {}) && OnlyLost(g, g') && EndsDead(g, p) && p[0] in g'.nodes
             && p[0] != ROOT
    requires RootOk(g)
    ensures DeadEnd(g', p[0])
    decreases |p|
  {
    hide Structure, OnlyLost;
    var n := p[0];
    assert DeadEnd(g, n);
    KeptOrLost(g, g', n);
    if g'.nodes[n].link.None? {
      NamelessIsDead(g', n);
    } else {
      var l := g.nodes[n].link.value;
      assert |p| > 1 && Edge(g, p[0], p[1]);
      UpPathTail(g, p);
      assert EndsDead(g, p[1..]) && p[1..][0] == l.parent;
      NamedParent(g', n, l);
      if l.parent == ROOT {
        assert DeadEnd(g, ROOT);
        RootIsNotDead(g);
        assert false;
      }
      DeadStays(g, g', p[1..]);
      DeadAsParent(g', n, l);
    }
  }

  lemma KeptOrLost(g: Graph, g': Graph, n: Ino)
    requires OnlyLost(g, g') && DeadEnd(g, n) && n in g.nodes && n in g'.nodes
    ensures g'.nodes[n].link == g.nodes[n].link || g'.nodes[n].link.None?
  {
  }

  lemma NamedParent(g: Graph, n: Ino, l: Link)
    requires Structure(g, {}) && n in g.nodes && g.nodes[n].link == Some(l)
    ensures l.parent in g.nodes
  {
  }

  lemma StaysDead(g: Graph, g': Graph, n: Ino)
    requires Structure(g, {}) && Structure(g', {}) && RootOk(g) && OnlyLost(g, g') && DeadEnd(g, n) && n in g'.nodes
    ensures DeadEnd(g', n)
  {
    hide Structure, OnlyLost;
    var p :| EndsDead(g, p) && p[0] == n;
    if n == ROOT {
      RootIsNotDead(g);
      assert false;
    }
    DeadStays(g, g', p);
  }

  /** The node that a request renames is none: its directory's path is held. */
  lemma RenamedIsNotDead(s: State, id: nat, l: Link)
    requires Inv(s) && NameLocked(s, id, l) && l in s.g.names
    ensures !DeadEnd(s.g, s.g.names[l])
  {
    hide Counted, Acyclic, DeadEnd, WordsOk, Homed, Structure;
    NamedNode(s.g, s.pins, l);
    assert HeldOk(s.g, s.held[id]);
    BottomIsNotDead(s.g, s.held[id]);
    DeadAsParent(s.g, s.g.names[l], l);
  }

  lemma RenameOnlyLost(s: State, id1: nat, id2: nat, lo: Link, ln: Link, hiding: bool)
    requires Inv(s) && Enabled(s, Op.Rename(id1, id2, lo, ln, hiding))
    ensures OnlyLost(s.g, Apply(s, Op.Rename(id1, id2, lo, ln, hiding)).g)
  {
    hide Inv, DeadEnd, NodeGraph.Rename, TargetLocked, NameLocked;
    RenameKeeps(s, id1, id2, lo, ln, hiding);
    if lo in s.g.names {
      RenamedIsNotDead(s, id1, lo);
    }
    RenameSame(s.g, lo, ln, hiding);
  }

  lemma RenameSame(g: Graph, lo: Link, ln: Link, hiding: bool)
    ensures !(lo in g.names && (hiding ==> ln !in g.names)) ==> NodeGraph.Rename(g, lo, ln, hiding).g == g
  {
  }

  /** Steps other than renames give no node a new link. */
  lemma OtherOnlyLost(s: State, op: Op)
    requires Inv(s) && Enabled(s, op) && !op.Rename?
    ensures OnlyLost(s.g, Apply(s, op).g)
  {
    hide DeadEnd, LockInv, Homed, HeldOk;
    OtherLinks(s, op);
  }

  lemma OtherLinks(s: State, op: Op)
    requires Inv(s) && Enabled(s, op) && !op.Rename?
    ensures forall m :: m in s.g.nodes && m in Apply(s, op).g.nodes ==>
              Apply(s, op).g.nodes[m].link == s.g.nodes[m].link || Apply(s, op).g.nodes[m].link.None?
  {
    hide Inv, NodeGraph.Remove;
    if op.Remove? {
      RemoveLinks(s, op.id, op.l);
    } else {
      LinksKept(s, op);
    }
  }

  /** Only `remove_node` and `rename_node` change the name of a node that lives on. */
  lemma LinksKept(s: State, op: Op)
    requires Inv(s) && Enabled(s, op) && !op.Rename? && !op.Remove?
    ensures forall m :: m in s.g.nodes && m in Apply(s, op).g.nodes ==>
              Apply(s, op).g.nodes[m].link == s.g.nodes[m].link
  {
    hide Structure, Counted, Acyclic, LockInv, Homed, HeldOk, Collected, Unref, NodeGraph.Forget, FindNode, IncLookup,
         Supported;
    match op
    case Find(l, id, gen) =>
      if l in s.g.names {
        FindFound(s.g, l, id, gen);
        IncLookupKeepsInv(s.g, s.pins, s.g.names[l]);
      } else {
        FindCreates(s.g, s.pins, l, id, gen);
      }
    case FindSelf(n) => IncLookupKeepsInv(s.g, s.pins, n);
    case Forget(n, k) =>
      ForgetFreesUnneeded(s.g, s.pins, n, k);
      CollectedLinks(SetLookups(s.g, n, s.g.nodes[n].nlookup - k), NodeGraph.Forget(s.g, n, k), s.pins);
    case Unpin(n) =>
      UnpinFreesUnneeded(s.g, s.pins, n);
      CollectedLinks(s.g, Unref(s.g, n), s.pins - multiset{n});
    case _ =>
  }

  lemma RemoveLinks(s: State, id: nat, l: Link)
    requires Inv(s) && NameLocked(s, id, l)
    ensures SameNodes(s.g, NodeGraph.Remove(s.g, l))
    ensures forall m :: m in s.g.nodes ==>
              NodeGraph.Remove(s.g, l).nodes[m].link == s.g.nodes[m].link
                     || NodeGraph.Remove(s.g, l).nodes[m].link.None?
  {
    hide Structure, Counted, Acyclic, LockInv, Homed, NodeGraph.Remove;
    VictimUnread(s, id, l);
    ClearKeepsInv(s.g, s.pins, l);
  }

  /** ENOENT is final: whatever happens, a node without a path never gets one, as long as it lives. */
  lemma DeadForGood(s: State, op: Op, n: Ino)
    requires Inv(s) && Enabled(s, op) && DeadEnd(s.g, n) && n in Apply(s, op).g.nodes
    ensures DeadEnd(Apply(s, op).g, n)
  {
    hide Inv, DeadEnd, OnlyLost, Structure, Enabled, Apply;
    StepKeepsInv(s, op);
    SoundParts(s);
    SoundParts(Apply(s, op));
    if op.Rename? {
      RenameOnlyLost(s, op.id1, op.id2, op.lo, op.ln, op.hiding);
    } else {
      OtherOnlyLost(s, op);
    }
    StaysDead(s.g, Apply(s, op).g, n);
  }

  lemma SoundParts(s: State)
    requires Inv(s)
    ensures Structure(s.g, {}) && RootOk(s.g)
  {
  }

  /** ... over whole runs. */
  lemma {:induction false} DeadForEver(states: seq<State>, ops: seq<Op>, n: Ino, i: nat, j: nat)
    requires Run(states, ops) && i <= j < |states| && DeadEnd(states[i].g, n)
    requires forall k :: i <= k <= j ==> n in states[k].g.nodes
    ensures DeadEnd(states[j].g, n)
    decreases j - i
  {
    hide Inv, DeadEnd, Enabled, Apply;
    if i < j {
      DeadForEver(states, ops, n, i, j - 1);
      RunKeepsInv(states, ops, j - 1);
      assert Steps(states[j - 1], ops[j - 1], states[j - 1 + 1]);
      DeadForGood(states[j - 1], ops[j - 1], n);
    }
  }

  // ---------- nodes that the kernel has looked up ----------

  predicate LookedUp(g: Graph, n: Ino) {
    n in g.nodes && g.nodes[n].nlookup > 0
  }

  /** Only a `forget` of all its lookups takes a node away that has some. */
  lemma LookedUpStays(s: State, op: Op, n: Ino)
    requires Inv(s) && Enabled(s, op) && LookedUp(s.g, n)
    requires op.Forget? && op.n == n ==> op.k < s.g.nodes[n].nlookup
    ensures LookedUp(Apply(s, op).g, n)
  {
    hide Structure, Counted, Acyclic, LockInv, Homed, HeldOk, Collected, Unref, NodeGraph.Forget, FindNode, IncLookup,
         NodeGraph.Remove, NodeGraph.Rename, Supported;
    match op
    case Find(l, id, gen) =>
      if l in s.g.names {
        FindFound(s.g, l, id, gen);
        IncLookupKeepsInv(s.g, s.pins, s.g.names[l]);
      } else {
        FindCreates(s.g, s.pins, l, id, gen);
      }
    case FindSelf(m) => IncLookupKeepsInv(s.g, s.pins, m);
    case Forget(m, k) =>
      ForgetFreesUnneeded(s.g, s.pins, m, k);
      CollectedLookups(SetLookups(s.g, m, s.g.nodes[m].nlookup - k), NodeGraph.Forget(s.g, m, k), s.pins, n);
    case Unpin(m) =>
      UnpinFreesUnneeded(s.g, s.pins, m);
      CollectedLookups(s.g, Unref(s.g, m), s.pins - multiset{m}, n);
    case Remove(id, l) => RemoveLinks(s, id, l);
    case Rename(id1, id2, lo, ln, hiding) =>
      RenamedLookups(s, op, n);
    case _ =>
  }

  lemma CollectedLookups(g: Graph, g': Graph, pins: multiset<Ino>, n: Ino)
    requires Collected(g, g', pins, {}) && LookedUp(g, n)
    ensures LookedUp(g', n)
  {
    assert Anchor(g, pins, n);
  }

  lemma RenamedLookups(s: State, op: Op, n: Ino)
    requires Inv(s) && Enabled(s, op) && op.Rename? && LookedUp(s.g, n)
    ensures LookedUp(Apply(s, op).g, n)
  {
    hide Inv, NodeGraph.Rename, TargetLocked, NameLocked;
    RenameKeeps(s, op.id1, op.id2, op.lo, op.ln, op.hiding);
    RenameSame(s.g, op.lo, op.ln, op.hiding);
  }
}

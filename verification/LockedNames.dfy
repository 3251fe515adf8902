/**
 The name that a path lock is taken to unlink or rename: the node that it belongs to is
 write-locked, and it stays the name of that node until the request itself takes it away.
 */
module LockedNames {
  import opened Common
  import opened NodeGraph
  import opened TreeLocks
  import opened DeadEnds

  /**
   The name `l` may be used under lock `h`: its directory is the end of the path, and the node it
   names is the write-locked one.
   */
  ghost predicate MayUse(g: Graph, h: Held, l: Link) {
    l.parent == Bottom(h) && if l in g.names then h.victim == Some(g.names[l]) else h.victim.None?
  }

  /** ... as far as others can change it: a name that was none may have been entered since. */
  ghost predicate StillNamed(g: Graph, h: Held, l: Link) {
    l.parent == Bottom(h) && (h.victim.Some? ==> l in g.names && h.victim == Some(g.names[l]))
  }

  /** Under such a lock the name may be removed or renamed, and the node has no reader and no other writer. */
  lemma NameIsLocked(s: State, id: nat, l: Link)
    requires Inv(s) && id in s.held && MayUse(s.g, s.held[id], l)
    ensures NameLocked(s, id, l) && StillNamed(s.g, s.held[id], l)
    ensures l in s.g.names ==>
              && s.g.names[l] in s.words && s.words[s.g.names[l]] == WRITE
              && (forall i :: i in s.held ==> s.g.names[l] !in s.held[i].chain)
              && (forall i :: i in s.held && s.held[i].victim == Some(s.g.names[l]) ==> i == id)
  {
    hide Structure, Counted, Acyclic, Homed;
    if l in s.g.names {
      NamedNode(s.g, s.pins, l);
      WordOf(s.words, s.held, s.g.names[l]);
      forall i | i in s.held && s.held[i].victim == Some(s.g.names[l]) ensures i == id {
        OneWriter(s.words, s.held, s.g.names[l], i, id);
      }
    }
  }

  /** Later the name may be used exactly if it had a node, or still has none. */
  lemma StillLockedIff(s: State, id: nat, l: Link)
    requires id in s.held && StillNamed(s.g, s.held[id], l)
    ensures NameLocked(s, id, l) <==> s.held[id].victim.Some? || l !in s.g.names
  {
  }

  /** An operation by the request that holds path lock `id` itself. */
  predicate Own(op: Op, id: nat) {
    match op
    case Remove(i, _) => i == id
    case Rename(i1, i2, _, _, _) => i1 == id || i2 == id
    case _ => false
  }

  /** Nobody else takes the name away, or gives it to another node. */
  lemma StaysNamed(s: State, op: Op, id: nat, l: Link)
    requires Inv(s) && Enabled(s, op) && id in s.held && StillNamed(s.g, s.held[id], l) && !Own(op, id)
    requires id in Apply(s, op).held
    ensures Apply(s, op).held[id] == s.held[id] && StillNamed(Apply(s, op).g, s.held[id], l)
  {
    hide Inv, Enabled, Apply;
    StepKeepsInv(s, op);
    StepKeepsRecord(s, op, id);
    if s.held[id].victim.Some? {
      var v := s.held[id].victim.value;
      VictimLives(s, id);
      VictimLives(Apply(s, op), id);
      LinkOfName(s, v, l);
      if op.Remove? {
        RemoveElsewhere(s, op.id, op.l, id, v);
      } else if op.Rename? {
        RenameElsewhere(s, op.id1, op.id2, op.lo, op.ln, op.hiding, id, v);
      } else {
        LinksKept(s, op);
      }
      NameOfLink(Apply(s, op), v, l);
    }
  }

  lemma VictimLives(s: State, id: nat)
    requires Inv(s) && id in s.held && s.held[id].victim.Some?
    ensures s.held[id].victim.value in s.g.nodes
  {
    assert HeldOk(s.g, s.held[id]);
  }

  lemma LinkOfName(s: State, v: Ino, l: Link)
    requires Inv(s) && l in s.g.names && s.g.names[l] == v
    ensures v in s.g.nodes && s.g.nodes[v].link == Some(l)
  {
  }

  lemma NameOfLink(s: State, v: Ino, l: Link)
    requires Inv(s) && v in s.g.nodes && s.g.nodes[v].link == Some(l)
    ensures l in s.g.names && s.g.names[l] == v
  {
  }

  lemma RemoveElsewhere(s: State, id2: nat, l2: Link, id: nat, v: Ino)
    requires Inv(s) && Enabled(s, Op.Remove(id2, l2)) && id2 != id && id in s.held && s.held[id].victim == Some(v)
    ensures var g' := Apply(s, Op.Remove(id2, l2)).g;
            v in s.g.nodes && v in g'.nodes && g'.nodes[v].link == s.g.nodes[v].link
  {
    hide Structure, Counted, Acyclic, Homed, NodeGraph.Remove, HoldersOk, WordsOk;
    VictimLives(s, id);
    VictimUnread(s, id2, l2);
    ClearKeepsInv(s.g, s.pins, l2);
    if l2 in s.g.names && s.g.names[l2] == v {
      OneWriter(s.words, s.held, v, id, id2);
    }
  }

  lemma RenameElsewhere(s: State, id1: nat, id2: nat, lo: Link, ln: Link, hiding: bool, id: nat, v: Ino)
    requires Inv(s) && Enabled(s, Op.Rename(id1, id2, lo, ln, hiding)) && id1 != id && id2 != id
    requires id in s.held && s.held[id].victim == Some(v)
    ensures var g' := Apply(s, Op.Rename(id1, id2, lo, ln, hiding)).g;
            v in s.g.nodes && v in g'.nodes && g'.nodes[v].link == s.g.nodes[v].link
  {
    hide Structure, Counted, Acyclic, Homed, NodeGraph.Rename, HoldersOk, WordsOk;
    VictimLives(s, id);
    RenameSame(s.g, lo, ln, hiding);
    if lo in s.g.names && (hiding ==> ln !in s.g.names) {
      RenameKeeps(s, id1, id2, lo, ln, hiding);
      if s.g.names[lo] == v {
        OneWriter(s.words, s.held, v, id, id1);
      }
      if ln in s.g.names && s.g.names[ln] == v {
        OneWriter(s.words, s.held, v, id, id2);
      }
    }
  }

  /** In every run: from the moment it is locked until its request uses it or lets go, a name stays that of its node. */
  lemma {:induction false} LockedNameIsStable(states: seq<State>, ops: seq<Op>, id: nat, l: Link, i: nat, j: nat)
    requires Run(states, ops) && i <= j < |states|
    requires forall k :: i <= k <= j ==> id in states[k].held
    requires forall k :: i <= k < j ==> !Own(ops[k], id)
    requires StillNamed(states[i].g, states[i].held[id], l)
    ensures states[j].held[id] == states[i].held[id] && StillNamed(states[j].g, states[j].held[id], l)
    decreases j - i
  {
    hide Inv, Enabled, Apply, StillNamed;
    if i < j {
      LockedNameIsStable(states, ops, id, l, i, j - 1);
      RunKeepsInv(states, ops, j - 1);
      assert Steps(states[j - 1], ops[j - 1], states[j - 1 + 1]);
      StaysNamed(states[j - 1], ops[j - 1], id, l);
    }
  }
}

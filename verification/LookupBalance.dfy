/**
 The kernel's account of its lookups: every reply that names a node gives it one, a FORGET takes
 some back, and while any are left the number and the generation that the kernel was told mean
 the node that they meant then.
 */
module LookupBalance {
  import opened Common
  import opened NodeGraph
  import opened TreeLocks
  import opened DeadEnds

  function Lookups(g: Graph, n: Ino): nat {
    if n in g.nodes then g.nodes[n].nlookup else 0
  }

  /** The lookups of `n` that the kernel is told of. */
  function Told(g: Graph, op: Op, n: Ino): nat {
    match op
    case Find(l, id, _) => if n == (if l in g.names then g.names[l] else id) then 1 else 0
    case FindSelf(m) => if m == n then 1 else 0
    case _ => 0
  }

  /** The lookups of `n` that it gives up. */
  function GivenUp(op: Op, n: Ino): nat {
    if op.Forget? && op.n == n then op.k else 0
  }

  function ToldIn(states: seq<State>, ops: seq<Op>, n: Ino, i: nat, j: nat): nat
    requires i <= j <= |ops| <= |states|
    decreases j - i
  {
    if i == j then 0 else ToldIn(states, ops, n, i, j - 1) + Told(states[j - 1].g, ops[j - 1], n)
  }

  function GivenUpIn(ops: seq<Op>, n: Ino, i: nat, j: nat): nat
    requires i <= j <= |ops|
    decreases j - i
  {
    if i == j then 0 else GivenUpIn(ops, n, i, j - 1) + GivenUp(ops[j - 1], n)
  }

  /** Each operation keeps the account, also when it makes or frees the node. */
  lemma StepBalances(s: State, op: Op, n: Ino)
    requires Inv(s) && Enabled(s, op)
    ensures Lookups(Apply(s, op).g, n) + GivenUp(op, n) == Lookups(s.g, n) + Told(s.g, op, n)
    ensures LookedUp(s.g, n) && LookedUp(Apply(s, op).g, n) ==>
              Apply(s, op).g.nodes[n].generation == s.g.nodes[n].generation
  {
    hide Structure, Counted, Acyclic, LockInv, Homed, HeldOk, Collected, Unref, NodeGraph.Forget, FindNode, IncLookup,
         NodeGraph.Remove, NodeGraph.Rename, Supported;
    match op
    case Find(l, id, gen) =>
      if l in s.g.names {
        FindFound(s.g, l, id, gen);
        IncBalances(s, s.g.names[l]);
      } else {
        FindCreates(s.g, s.pins, l, id, gen);
      }
    case FindSelf(m) => IncBalances(s, m);
    case Forget(m, k) =>
      ForgetFreesUnneeded(s.g, s.pins, m, k);
      CascadeBalances(SetLookups(s.g, m, s.g.nodes[m].nlookup - k), NodeGraph.Forget(s.g, m, k), s.pins, n);
    case Unpin(m) =>
      UnpinFreesUnneeded(s.g, s.pins, m);
      CascadeBalances(s.g, Unref(s.g, m), s.pins - multiset{m}, n);
    case Remove(id, l) => RemoveLinks(s, id, l);
    case Rename(id1, id2, lo, ln, hiding) => RenameBalances(s, op, n);
    case _ =>
  }

  lemma IncBalances(s: State, m: Ino)
    requires Inv(s) && m in s.g.nodes
    ensures IncLookup(s.g, m).nodes.Keys == s.g.nodes.Keys
    ensures forall n :: n in s.g.nodes ==>
              && IncLookup(s.g, m).nodes[n].nlookup == s.g.nodes[n].nlookup + (if n == m then 1 else 0)
              && IncLookup(s.g, m).nodes[n].generation == s.g.nodes[n].generation
  {
    hide Inv;
  }

  lemma CascadeBalances(g: Graph, g': Graph, pins: multiset<Ino>, n: Ino)
    requires Collected(g, g', pins, {})
    ensures Lookups(g', n) == Lookups(g, n)
    ensures n in g'.nodes ==> n in g.nodes && g'.nodes[n].generation == g.nodes[n].generation
  {
    if LookedUp(g, n) {
      assert Anchor(g, pins, n);
    }
  }

  lemma RenameBalances(s: State, op: Op, n: Ino)
    requires Inv(s) && Enabled(s, op) && op.Rename?
    ensures Lookups(Apply(s, op).g, n) == Lookups(s.g, n)
    ensures n in s.g.nodes ==>
              n in Apply(s, op).g.nodes && Apply(s, op).g.nodes[n].generation == s.g.nodes[n].generation
  {
    hide Inv, NodeGraph.Rename, TargetLocked, NameLocked;
    RenameKeeps(s, op.id1, op.id2, op.lo, op.ln, op.hiding);
    RenameSame(s.g, op.lo, op.ln, op.hiding);
  }

  /** The account over a part of a run: what was there and what was told is what is left and what was given up. */
  lemma {:induction false} LookupsBalance(states: seq<State>, ops: seq<Op>, n: Ino, i: nat, j: nat)
    requires Run(states, ops) && i <= j <= |ops|
    ensures Lookups(states[j].g, n) + GivenUpIn(ops, n, i, j)
         == Lookups(states[i].g, n) + ToldIn(states, ops, n, i, j)
    decreases j - i
  {
    hide Inv, Enabled, Apply, GivenUp, Told;
    if i < j {
      LookupsBalance(states, ops, n, i, j - 1);
      RunKeepsInv(states, ops, j - 1);
      assert Steps(states[j - 1], ops[j - 1], states[j - 1 + 1]);
      StepBalances(states[j - 1], ops[j - 1], n);
    }
  }

  /** The kernel has not given up all lookups of `n` that it had or was told of since `i`. */
  ghost predicate Remembered(states: seq<State>, ops: seq<Op>, n: Ino, i: nat, j: nat)
    requires i <= j <= |ops| < |states|
  {
    forall k :: i <= k <= j ==> GivenUpIn(ops, n, i, k) < Lookups(states[i].g, n) + ToldIn(states, ops, n, i, k)
  }

  /**
   As long as the kernel remembers a node by its number, that is the same node: it lives, and its
   generation has not changed.
   */
  lemma {:induction false} RememberedIsSame(states: seq<State>, ops: seq<Op>, n: Ino, i: nat, j: nat)
    requires Run(states, ops) && i <= j <= |ops| && Remembered(states, ops, n, i, j)
    ensures LookedUp(states[i].g, n) && LookedUp(states[j].g, n)
    ensures states[j].g.nodes[n].generation == states[i].g.nodes[n].generation
    decreases j - i
  {
    hide Inv, Enabled, Apply, GivenUp, Told;
    LookupsBalance(states, ops, n, i, j);
    if i < j {
      RememberedIsSame(states, ops, n, i, j - 1);
      RunKeepsInv(states, ops, j - 1);
      assert Steps(states[j - 1], ops[j - 1], states[j - 1 + 1]);
      StepBalances(states[j - 1], ops[j - 1], n);
    }
  }

  /** In a run, the kernel can give up a node's lookups only if it has been told of them. */
  lemma NeverTooMany(states: seq<State>, ops: seq<Op>, n: Ino, i: nat, j: nat)
    requires Run(states, ops) && i <= j <= |ops| && n !in states[i].g.nodes
    ensures GivenUpIn(ops, n, i, j) <= ToldIn(states, ops, n, i, j)
    ensures GivenUpIn(ops, n, i, j) == ToldIn(states, ops, n, i, j) <==> !LookedUp(states[j].g, n)
  {
    LookupsBalance(states, ops, n, i, j);
  }
}

/**
 The queue of path lock requests that could not be served at once, on values: what its
 elements hold, and the rule that keeps requests for two paths from blocking each other.
 */
module PathQueue {
  import opened Common
  import opened NodeGraph
  import opened TreeLocks
  import opened DeadEnds
  import opened LockedNames
  import opened PathWalk

  datatype Err = OK | AGAIN | NOENT

  /** The arguments of one `try_get_path`. */
  datatype PathReq = PathReq(nodeid: Ino, name: Option<string>, wr: bool)

  /**
   `struct lock_queue_element`. The ticket identifies the waiting request. A waiting
   `forget_node` asks for no path (`path1` is NULL); `second` is for two-path requests.
   */
  datatype Elem = Elem(ticket: nat, nodeid1: Ino, path1: Option<PathReq>, path2: Option<PathReq>,
                       first: bool, second: bool, wnode1: Option<Ino>, wnode2: Option<Ino>,
                       text1: string, text2: string, done: bool, err: Err, signalled: bool)

  /** The path locks of a request are numbered by its ticket. */
  function Id1(ticket: nat): nat { 2 * ticket }

  function Id2(ticket: nat): nat { 2 * ticket + 1 }

  predicate Complete(e: Elem) {
    e.path1.Some? && e.first && (e.path2.Some? ==> e.second)
  }

  /** A flag `first` or `second` says whether the lock `id` for `r` is held. */
  ghost predicate SlotOk(locked: bool, id: nat, r: Option<PathReq>, wnode: Option<Ino>, text: string, held: Holders) {
    && (locked <==> id in held)
    && (locked ==> r.Some? && Serves(held[id], r.value, wnode, text))
  }

  /**
   The lock `h` is the one that was asked for, and the write-locked node and the path are those
   that it was taken with.
   */
  ghost predicate Serves(h: Held, r: PathReq, wnode: Option<Ino>, text: string) {
    Bottom(h) == r.nodeid && h.victim == wnode && text == PathText(h.links, r.name)
  }

  ghost predicate Slots(e: Elem, held: Holders) {
    && SlotOk(e.first, Id1(e.ticket), e.path1, e.wnode1, e.text1, held)
    && SlotOk(e.second, Id2(e.ticket), e.path2, e.wnode2, e.text2, held)
  }

  ghost predicate ElemOk(e: Elem, held: Holders) {
    && Slots(e, held)
    && (e.path1.None? ==> e.path2.None? && !e.done)
    && (e.done ==> e.err == OK || e.err == NOENT)
    && (e.path1.Some? ==> (Complete(e) ==> e.done && e.err == OK) && (e.done && e.err == OK ==> Complete(e)))
  }

  ghost predicate QueueOk(q: seq<Elem>, held: Holders) {
    && (forall i :: 0 <= i < |q| ==> ElemOk(q[i], held))
    && (forall i, j :: 0 <= i < j < |q| ==> q[i].ticket != q[j].ticket)
  }

  /** A path that a request asks for leads nowhere. */
  ghost predicate LeadsNowhere(g: Graph, e: Elem) {
    (e.path1.Some? && DeadEnd(g, e.path1.value.nodeid)) || (e.path2.Some? && DeadEnd(g, e.path2.value.nodeid))
  }

  /**
   The nodes that a queued request names are looked up, and one that has ended with ENOENT holds
   nothing and will not get its paths.
   */
  ghost predicate ElemLive(g: Graph, e: Elem) {
    && (e.path1.Some? ==> LookedUp(g, e.path1.value.nodeid))
    && (e.path2.Some? ==> LookedUp(g, e.path2.value.nodeid))
    && (e.done && e.err == NOENT ==> !e.first && !e.second && LeadsNowhere(g, e))
  }

  ghost predicate QueueLive(g: Graph, q: seq<Elem>) {
    forall i :: 0 <= i < |q| ==> ElemLive(g, q[i])
  }

  /** `forget_node` does not take the last lookup of a node that a queued request names. */
  predicate ForgetSpares(e: Elem, n: Ino, nlookup: nat, k: nat) {
    (e.path1.Some? && e.path1.value.nodeid == n) || (e.path2.Some? && e.path2.value.nodeid == n) ==> k < nlookup
  }

  predicate QueueSpared(q: seq<Elem>, n: Ino, nlookup: nat, k: nat) {
    forall i :: 0 <= i < |q| ==> ForgetSpares(q[i], n, nlookup, k)
  }

  lemma ElemStaysLive(s: State, op: Op, e: Elem)
    requires Inv(s) && Enabled(s, op) && ElemLive(s.g, e)
    requires op.Forget? && op.n in s.g.nodes ==> ForgetSpares(e, op.n, s.g.nodes[op.n].nlookup, op.k)
    ensures ElemLive(Apply(s, op).g, e)
  {
    hide Inv, Enabled, Apply, DeadEnd;
    if e.path1.Some? {
      LookedUpStays(s, op, e.path1.value.nodeid);
    }
    if e.path2.Some? {
      LookedUpStays(s, op, e.path2.value.nodeid);
    }
    if e.path1.Some? && DeadEnd(s.g, e.path1.value.nodeid) {
      DeadForGood(s, op, e.path1.value.nodeid);
    }
    if e.path2.Some? && DeadEnd(s.g, e.path2.value.nodeid) {
      DeadForGood(s, op, e.path2.value.nodeid);
    }
  }

  /** Whatever operation comes between, the queue stays as good as it is. */
  lemma QueueStaysLive(s: State, op: Op, q: seq<Elem>)
    requires Inv(s) && Enabled(s, op) && QueueLive(s.g, q)
    requires op.Forget? && op.n in s.g.nodes ==> QueueSpared(q, op.n, s.g.nodes[op.n].nlookup, op.k)
    ensures QueueLive(Apply(s, op).g, q)
  {
    hide Inv, Enabled, Apply, ElemLive, ForgetSpares;
    forall i | 0 <= i < |q| ensures ElemLive(Apply(s, op).g, q[i]) {
      ElemStaysLive(s, op, q[i]);
    }
  }

  /** A request for two paths holds both or none. */
  predicate AllOrNone(e: Elem) {
    e.path2.Some? ==> (e.first <==> e.second)
  }

  /** Only the first element may be partially locked. */
  ghost predicate Discipline(q: seq<Elem>) {
    forall i :: 0 < i < |q| ==> AllOrNone(q[i])
  }

  /** Of the two locks that a request needs, exactly one is outstanding. */
  ghost predicate HoldsPart(e: Elem, held: Holders) {
    e.path2.Some? && (Id1(e.ticket) in held) != (Id2(e.ticket) in held)
  }

  /**
   In a queue as the code keeps it, at most one request holds a part of what it needs: the first,
   and it still waits.
   */
  lemma AtMostOnePartial(g: Graph, q: seq<Elem>, held: Holders, i: nat, j: nat)
    requires QueueOk(q, held) && Discipline(q) && QueueLive(g, q)
    requires i < |q| && j < |q| && HoldsPart(q[i], held) && HoldsPart(q[j], held)
    ensures i == j == 0 && !q[0].done
  {
    assert ElemOk(q[i], held) && ElemOk(q[j], held);
    assert ElemLive(g, q[0]);
  }

  /** The locks that an element still waits for. */
  function MissingOf(e: Elem): nat {
    (if e.path1.Some? && !e.first then 1 else 0) + (if e.path2.Some? && !e.second then 1 else 0)
  }

  function Missing(q: seq<Elem>): nat {
    if q == [] then 0 else MissingOf(q[0]) + Missing(q[1..])
  }

  lemma {:induction false} MissingUpdate(q: seq<Elem>, i: nat, e: Elem)
    requires i < |q|
    ensures Missing(q[i := e]) == Missing(q) - MissingOf(q[i]) + MissingOf(e)
  {
    var q' := q[i := e];
    if i == 0 {
      assert q'[1..] == q[1..];
    } else {
      assert q'[1..] == q[1..][i - 1 := e];
      MissingUpdate(q[1..], i - 1, e);
    }
  }

  lemma {:induction false} MissingAt(q: seq<Elem>, i: nat)
    requires i < |q|
    ensures MissingOf(q[i]) <= Missing(q)
  {
    if i > 0 {
      MissingAt(q[1..], i - 1);
    }
  }

  lemma {:induction false} MissingConcat(a: seq<Elem>, b: seq<Elem>)
    ensures Missing(a + b) == Missing(a) + Missing(b)
  {
    if a == [] {
      assert a + b == b;
    } else {
      assert (a + b)[1..] == a[1..] + b;
      MissingConcat(a[1..], b);
    }
  }

  /** Two sets of outstanding locks that differ in the locks of one request only. */
  ghost predicate OthersSame(held: Holders, held': Holders, ticket: nat) {
    forall id :: id != Id1(ticket) && id != Id2(ticket) ==>
           (id in held <==> id in held') && (id in held ==> held'[id] == held[id])
  }

  predicate SameRequest(e: Elem, e': Elem) {
    e'.ticket == e.ticket && e'.nodeid1 == e.nodeid1 && e'.path1 == e.path1 && e'.path2 == e.path2
  }

  /** What one call for a queue element does to its flags and to the locks. */
  ghost predicate Progress(e: Elem, held: Holders, e': Elem, held': Holders) {
    && SameRequest(e, e') && Slots(e', held') && OthersSame(held, held', e.ticket)
    && |held'| + MissingOf(e') == |held| + MissingOf(e)
  }

  lemma ProgressTrans(e: Elem, held: Holders, e1: Elem, held1: Holders, e2: Elem, held2: Holders)
    requires Progress(e, held, e1, held1) && Progress(e1, held1, e2, held2)
    ensures Progress(e, held, e2, held2)
  {
  }

  lemma NoProgress(e: Elem, held: Holders)
    requires Slots(e, held)
    ensures Progress(e, held, e, held)
  {
  }

  lemma ProgressSlots(e: Elem, held: Holders, e': Elem, held': Holders)
    requires Progress(e, held, e', held')
    ensures SameRequest(e, e') && Slots(e', held') && |held'| + MissingOf(e') == |held| + MissingOf(e)
    ensures OthersSame(held, held', e.ticket)
  {
  }

  lemma Flagged(e: Elem, held: Holders, e': Elem, held': Holders, err: Err)
    requires Progress(e, held, e', held')
    ensures Progress(e, held, e'.(done := true, err := err), held')
    ensures Slots(e'.(done := true, err := err), held')
  {
  }

  lemma TakesFirst(e: Elem, held: Holders, held': Holders, wnode: Option<Ino>, text: string)
    requires Slots(e, held) && e.path1.Some? && !e.first && Id1(e.ticket) in held'
             && held' == held[Id1(e.ticket) := held'[Id1(e.ticket)]]
    requires Serves(held'[Id1(e.ticket)], e.path1.value, wnode, text)
    ensures Progress(e, held, e.(first := true, wnode1 := wnode, text1 := text), held')
  {
    HolderNumber(held, Id1(e.ticket), held'[Id1(e.ticket)]);
  }

  lemma TakesSecond(e: Elem, held: Holders, held': Holders, wnode: Option<Ino>, text: string)
    requires Slots(e, held) && e.path2.Some? && !e.second && Id2(e.ticket) in held'
             && held' == held[Id2(e.ticket) := held'[Id2(e.ticket)]]
    requires Serves(held'[Id2(e.ticket)], e.path2.value, wnode, text)
    ensures Progress(e, held, e.(second := true, wnode2 := wnode, text2 := text), held')
  {
    HolderNumber(held, Id2(e.ticket), held'[Id2(e.ticket)]);
  }

  lemma DropsFirst(e: Elem, held: Holders)
    requires Slots(e, held) && e.first
    ensures Progress(e, held, e.(first := false), held - {Id1(e.ticket)})
  {
    HolderNumber(held, Id1(e.ticket), held[Id1(e.ticket)]);
  }

  lemma DropsSecond(e: Elem, held: Holders)
    requires Slots(e, held) && e.second
    ensures Progress(e, held, e.(second := false), held - {Id2(e.ticket)})
  {
    HolderNumber(held, Id2(e.ticket), held[Id2(e.ticket)]);
  }

  /** A waiting element is only told to look again. */
  lemma SignalKeeps(e: Elem, held: Holders)
    requires ElemOk(e, held) && e.path1.None?
    ensures Progress(e, held, e, held)
    ensures Progress(e, held, e.(signalled := true), held) && ElemOk(e.(signalled := true), held)
  {
  }

  /** Writing an element back after such a call. */
  lemma ElementDone(q: seq<Elem>, i: nat, e: Elem, held: Holders, held': Holders)
    requires QueueOk(q, held) && i < |q| && Progress(q[i], held, e, held') && ElemOk(e, held')
    ensures QueueOk(q[i := e], held') && |held'| + Missing(q[i := e]) == |held| + Missing(q)
  {
    QueueUpdate(q, i, e, held, held');
    MissingUpdate(q, i, e);
  }

  /** Changing the locks of one element leaves the others as they were. */
  lemma QueueUpdate(q: seq<Elem>, i: nat, e: Elem, held: Holders, held': Holders)
    requires QueueOk(q, held) && i < |q| && e.ticket == q[i].ticket && ElemOk(e, held')
    requires OthersSame(held, held', e.ticket)
    ensures QueueOk(q[i := e], held')
  {
    var q' := q[i := e];
    forall j | 0 <= j < |q'| ensures ElemOk(q'[j], held') {
      if j != i {
        assert ElemOk(q[j], held);
        assert q[j].ticket != e.ticket;
      }
    }
  }

  lemma QueueAppend(q: seq<Elem>, e: Elem, held: Holders)
    requires QueueOk(q, held) && ElemOk(e, held) && (forall i :: 0 <= i < |q| ==> q[i].ticket != e.ticket)
    ensures QueueOk(q + [e], held)
    ensures Discipline(q) && AllOrNone(e) ==> Discipline(q + [e])
  {
  }

  lemma QueueRemove(q: seq<Elem>, k: nat, held: Holders)
    requires QueueOk(q, held) && k < |q|
    ensures QueueOk(q[..k] + q[k + 1..], held)
    ensures Discipline(q) ==> Discipline(q[..k] + q[k + 1..])
  {
    var q' := q[..k] + q[k + 1..];
    assert forall i :: 0 <= i < |q'| ==> q'[i] == q[if i < k then i else i + 1];
  }

  /** No queued request goes by this ticket. */
  ghost predicate NotQueued(q: seq<Elem>, ticket: nat) {
    forall i :: 0 <= i < |q| ==> q[i].ticket != ticket
  }

  /** The locks of requests that do not wait are no concern of the queue. */
  lemma QueueOthers(q: seq<Elem>, held: Holders, held': Holders, ticket: nat)
    requires QueueOk(q, held) && NotQueued(q, ticket) && OthersSame(held, held', ticket)
    ensures QueueOk(q, held')
  {
    forall i | 0 <= i < |q| ensures ElemOk(q[i], held') {
      assert ElemOk(q[i], held) && q[i].ticket != ticket;
    }
  }

  // ---------- the names that requests have locked ----------

  /** What a request was granted: with `wr` it may use its name, and otherwise it has write-locked nothing. */
  ghost predicate Usable(g: Graph, held: Holders, id: nat, r: PathReq) {
    && id in held
    && (if r.wr then r.name.Some? ==> MayUse(g, held[id], Link(r.nodeid, r.name.value)) else held[id].victim.None?)
  }

  ghost predicate SlotNamed(g: Graph, held: Holders, id: nat, r: Option<PathReq>) {
    id in held && r.Some? && r.value.wr && r.value.name.Some? ==>
      StillNamed(g, held[id], Link(r.value.nodeid, r.value.name.value))
  }

  ghost predicate ElemNamed(g: Graph, held: Holders, e: Elem) {
    SlotNamed(g, held, Id1(e.ticket), e.path1) && SlotNamed(g, held, Id2(e.ticket), e.path2)
  }

  ghost predicate QueueNamed(g: Graph, held: Holders, q: seq<Elem>) {
    forall i :: 0 <= i < |q| ==> ElemNamed(g, held, q[i])
  }

  lemma UsableNamed(g: Graph, held: Holders, id: nat, r: PathReq)
    requires Usable(g, held, id, r)
    ensures SlotNamed(g, held, id, Some(r))
  {
  }

  /** A request that waits uses no name. */
  ghost predicate Idle(q: seq<Elem>, op: Op) {
    match op
    case Remove(id, _) => NotQueued(q, id / 2)
    case Rename(id1, id2, _, _, _) => NotQueued(q, id1 / 2) && NotQueued(q, id2 / 2)
    case Lock(_, _) => false
    case Unlock(_) => false
    case _ => true
  }

  lemma SlotStaysNamed(s: State, op: Op, id: nat, r: Option<PathReq>)
    requires Inv(s) && Enabled(s, op) && SlotNamed(s.g, s.held, id, r) && !Own(op, id) && !op.Lock? && !op.Unlock?
    ensures Apply(s, op).held == s.held && SlotNamed(Apply(s, op).g, s.held, id, r)
  {
    hide Inv, StillNamed;
    SameHeld(s, op);
    if id in s.held && r.Some? && r.value.wr && r.value.name.Some? {
      StaysNamed(s, op, id, Link(r.value.nodeid, r.value.name.value));
    }
  }

  lemma SameHeld(s: State, op: Op)
    requires Enabled(s, op) && !op.Lock? && !op.Unlock?
    ensures Apply(s, op).held == s.held
  {
  }

  lemma NotOwn(q: seq<Elem>, op: Op, i: nat)
    requires Idle(q, op) && i < |q|
    ensures !Own(op, Id1(q[i].ticket)) && !Own(op, Id2(q[i].ticket)) && !op.Lock? && !op.Unlock?
  {
    assert forall t: nat :: Id1(t) / 2 == t && Id2(t) / 2 == t;
  }

  /** Whatever operation comes between, the queue stays as good as it is. */
  lemma QueueStays(s: State, op: Op, q: seq<Elem>)
    requires Inv(s) && Enabled(s, op) && QueueLive(s.g, q) && QueueNamed(s.g, s.held, q) && Idle(q, op)
    requires op.Forget? && op.n in s.g.nodes ==> QueueSpared(q, op.n, s.g.nodes[op.n].nlookup, op.k)
    ensures QueueLive(Apply(s, op).g, q) && Apply(s, op).held == s.held && QueueNamed(Apply(s, op).g, s.held, q)
  {
    hide Inv, Enabled, Apply, ElemLive, ForgetSpares, SlotNamed, Own, QueueLive;
    QueueStaysLive(s, op, q);
    IdleKeeps(q, op);
    SameHeld(s, op);
    forall i | 0 <= i < |q| ensures ElemNamed(Apply(s, op).g, s.held, q[i]) {
      NotOwn(q, op, i);
      assert ElemNamed(s.g, s.held, q[i]);
      SlotStaysNamed(s, op, Id1(q[i].ticket), q[i].path1);
      SlotStaysNamed(s, op, Id2(q[i].ticket), q[i].path2);
    }
  }

  lemma IdleKeeps(q: seq<Elem>, op: Op)
    requires Idle(q, op)
    ensures !op.Lock? && !op.Unlock?
  {
  }

  lemma NamedElem(g: Graph, held: Holders, held': Holders, e: Elem)
    requires ElemNamed(g, held, e)
    requires forall id :: (id == Id1(e.ticket) || id == Id2(e.ticket)) && id in held' ==>
               id in held && held'[id] == held[id]
    ensures ElemNamed(g, held', e)
  {
    hide StillNamed;
    assert Id1(e.ticket) in held' ==> held'[Id1(e.ticket)] == held[Id1(e.ticket)];
    assert Id2(e.ticket) in held' ==> held'[Id2(e.ticket)] == held[Id2(e.ticket)];
  }

  lemma NamedOthers(g: Graph, q: seq<Elem>, held: Holders, held': Holders, ticket: nat)
    requires QueueNamed(g, held, q) && NotQueued(q, ticket) && OthersSame(held, held', ticket)
    ensures QueueNamed(g, held', q)
  {
    hide ElemNamed;
    forall i | 0 <= i < |q| ensures ElemNamed(g, held', q[i]) {
      assert ElemNamed(g, held, q[i]) && q[i].ticket != ticket;
      NamedElem(g, held, held', q[i]);
    }
  }

  lemma NamedUpdate(g: Graph, q: seq<Elem>, i: nat, e: Elem, held: Holders, held': Holders)
    requires QueueNamed(g, held, q) && QueueOk(q, held) && i < |q| && e.ticket == q[i].ticket
    requires OthersSame(held, held', e.ticket) && ElemNamed(g, held', e)
    ensures QueueNamed(g, held', q[i := e])
  {
    hide ElemNamed, ElemOk;
    var q' := q[i := e];
    forall j | 0 <= j < |q'| ensures ElemNamed(g, held', q'[j]) {
      if j != i {
        assert ElemNamed(g, held, q[j]) && q[j].ticket != q[i].ticket;
        NamedElem(g, held, held', q[j]);
      }
    }
  }

  lemma NamedAppend(g: Graph, q: seq<Elem>, e: Elem, held: Holders)
    requires QueueNamed(g, held, q) && Id1(e.ticket) !in held && Id2(e.ticket) !in held
    ensures QueueNamed(g, held, q + [e])
  {
    hide StillNamed;
    var q' := q + [e];
    forall j | 0 <= j < |q'| ensures ElemNamed(g, held, q'[j]) {
      assert j < |q| ==> ElemNamed(g, held, q[j]);
    }
  }

  lemma NamedRemoved(g: Graph, q: seq<Elem>, k: nat, held: Holders)
    requires QueueNamed(g, held, q) && k < |q|
    ensures QueueNamed(g, held, q[..k] + q[k + 1..]) && ElemNamed(g, held, q[k])
  {
    hide ElemNamed;
    var q' := q[..k] + q[k + 1..];
    assert forall i :: 0 <= i < |q'| ==> q'[i] == q[if i < k then i else i + 1];
  }

  /** What one request was granted does not depend on the locks of others. */
  lemma UsableStill(g: Graph, held: Holders, held': Holders, id: nat, r: PathReq)
    requires Usable(g, held, id, r) && id in held' && held'[id] == held[id]
    ensures Usable(g, held', id, r)
  {
  }

  /** A queue after a wake-up pass, and the locks after it. */
  ghost predicate Passed(q: seq<Elem>, held: Holders, q': seq<Elem>, held': Holders) {
    && |q'| == |q|
    && (forall i :: 0 <= i < |q| ==> SameRequest(q[i], q'[i]) && (Complete(q[i]) ==> q'[i] == q[i]))
    && (forall id: nat :: NotQueued(q, id / 2) ==>
           (id in held <==> id in held') && (id in held ==> held'[id] == held[id]))
  }

  lemma PassedOne(q: seq<Elem>, held: Holders, q1: seq<Elem>, held1: Holders, i: nat, e: Elem, held2: Holders)
    requires Passed(q, held, q1, held1) && i < |q| && SameRequest(q1[i], e) && (Complete(q1[i]) ==> e == q1[i])
    requires OthersSame(held1, held2, e.ticket)
    ensures Passed(q, held, q1[i := e], held2)
  {
    forall id: nat | NotQueued(q, id / 2)
      ensures (id in held <==> id in held2) && (id in held ==> held2[id] == held[id])
    {
      assert q[i].ticket != id / 2;
    }
  }

  lemma MissingAppend(q: seq<Elem>, e: Elem)
    ensures Missing(q + [e]) == Missing(q) + MissingOf(e)
  {
    MissingConcat(q, [e]);
    assert [e][1..] == [];
  }

  lemma MissingRemove(q: seq<Elem>, k: nat)
    requires k < |q|
    ensures Missing(q[..k] + q[k + 1..]) == Missing(q) - MissingOf(q[k])
  {
    assert q == q[..k] + q[k..];
    MissingConcat(q[..k], q[k..]);
    MissingConcat(q[..k], q[k + 1..]);
  }
}

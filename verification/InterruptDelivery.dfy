/**
 No interrupt is lost: over whole runs, in terms of what the kernel and the file system
 did, every INTERRUPT for a request that is there is noted in it, and a callback that was
 registered for it is called.
 */
module InterruptDelivery {
  import opened Common
  import opened Interrupts

  /** The step interrupts request `rid`: an INTERRUPT finds it, or it arrives and one for it is pending. */
  predicate Hits(s: State, op: Op, rid: Rid) {
    match op
    case Interrupt(_, _, target, _) =>
      exists i | 0 <= i < |s.live| :: s.live[i] == rid && First(s, i, target)
    case Arrive(r, unique) => r == rid && exists p | p in s.pending :: HasTarget(s.reqs, p, unique)
    case _ => false
  }

  /** The `i`-th live request is the first of this number. */
  predicate First(s: State, i: nat, unique: nat)
    requires i < |s.live|
  {
    HasUnique(s.reqs, s.live[i], unique) && forall j :: 0 <= j < i ==> !HasUnique(s.reqs, s.live[j], unique)
  }

  /** The thread has found request `rid` for this INTERRUPT, and has not noted it yet. */
  predicate OnItsWay(s: State, t: Tid, rid: Rid) {
    t in s.finds && s.finds[t].req == rid && (s.finds[t].phase.Wants? || s.finds[t].phase.Holds?)
  }

  lemma FirstIs(s: State, i: nat, unique: nat)
    requires i < |s.live| && First(s, i, unique)
    ensures FirstLive(s.reqs, s.live, unique) == i
  {
    var k := FirstLive(s.reqs, s.live, unique);
    assert k <= i;
  }

  lemma HitIs(s: State, p: Rid, unique: nat)
    requires p in s.pending && HasTarget(s.reqs, p, unique)
    ensures Hit(s, unique)
  {
    var i :| 0 <= i < |s.pending| && s.pending[i] == p;
  }

  // ---------- requests come once ----------

  lemma LiveBefore(s: State, op: Op, rid: Rid)
    requires Enabled(s, op) && rid in s.past && rid in Apply(s, op).live
    ensures rid in s.live
  {
    match op
    case Arrive(r, unique) => assert Apply(s, op).live == s.live + [r];
    case Free(r) => WithoutLess(s.live, r, rid);
    case _ =>
  }

  lemma {:induction false} WithoutLess(list: seq<Rid>, r: Rid, rid: Rid)
    requires rid in Without(list, r)
    ensures rid in list
  {
    if list != [] && list[0] != r && rid != list[0] {
      WithoutLess(list[1..], r, rid);
    }
  }

  lemma PastStays(s: State, op: Op, rid: Rid)
    requires Enabled(s, op) && rid in s.past
    ensures rid in Apply(s, op).past
  {
  }

  lemma {:induction false} RunPast(states: seq<State>, ops: seq<Op>, i: nat, j: nat, rid: Rid)
    requires Run(states, ops) && i <= j < |states| && rid in states[i].past
    ensures rid in states[j].past
    decreases j - i
  {
    hide Apply, Enabled;
    if i < j {
      RunPast(states, ops, i, j - 1, rid);
      assert Steps(states[j - 1], ops[j - 1], states[j - 1 + 1]);
      PastStays(states[j - 1], ops[j - 1], rid);
    }
  }

  // ---------- what was found is noted ----------

  /** The request is interrupted, or a thread that found it for the INTERRUPT is about to note it. */
  ghost predicate Noted(s: State, rid: Rid) {
    rid in s.reqs && (s.reqs[rid].interrupted || exists t :: OnItsWay(s, t, rid))
  }

  /** A step that interrupts a request begins to note it. */
  lemma HitNotes(s: State, op: Op, rid: Rid)
    requires InUseExist(s) && Enabled(s, op) && Hits(s, op, rid)
    ensures Noted(Apply(s, op), rid) && (op.Interrupt? ==> rid in s.live) && rid in Apply(s, op).past
  {
    match op
    case Interrupt(own, unique, target, t) =>
      var i :| 0 <= i < |s.live| && s.live[i] == rid && First(s, i, target);
      FirstIs(s, i, target);
      assert OnItsWay(Apply(s, op), t, rid);
    case Arrive(r, unique) =>
      var p :| p in s.pending && HasTarget(s.reqs, p, unique);
      HitIs(s, p, unique);
    case _ =>
  }

  /** ... and no step gives that up. */
  lemma NotedStays(s: State, op: Op, rid: Rid)
    requires Enabled(s, op) && InUseExist(s) && Noted(s, rid) && rid in s.live && rid in Apply(s, op).live
    requires InUseExist(Apply(s, op))
    ensures Noted(Apply(s, op), rid)
  {
    var s' := Apply(s, op);
    if s.reqs[rid].interrupted {
      StaysInterrupted(s, op, rid);
    } else {
      var t :| OnItsWay(s, t, rid);
      if op == Take(t) {
      } else {
        StaysOnItsWay(s, op, t, rid);
        assert OnItsWay(s', t, rid);
      }
    }
  }

  lemma StaysInterrupted(s: State, op: Op, rid: Rid)
    requires Enabled(s, op) && rid in s.reqs && s.reqs[rid].interrupted && rid in s.past && rid in Apply(s, op).reqs
    ensures Apply(s, op).reqs[rid].interrupted
  {
  }

  lemma StaysOnItsWay(s: State, op: Op, t: Tid, rid: Rid)
    requires Enabled(s, op) && OnItsWay(s, t, rid) && op != Take(t)
    ensures OnItsWay(Apply(s, op), t, rid)
  {
  }

  /**
   In every run: once an INTERRUPT has found a request, or was waiting for it, the request
   is interrupted, or a thread is on its way to note it, for as long as it is live.
   */
  lemma {:induction false} InterruptIsNoted(states: seq<State>, ops: seq<Op>, rid: Rid, k: nat, j: nat)
    requires Run(states, ops) && k < j < |states| && Hits(states[k], ops[k], rid) && rid in states[j].live
    ensures Noted(states[j], rid)
    decreases j - k
  {
    hide Apply, Enabled, Counted, DestroyedOnce, Locks, Fires, InUseExist, Hits, Noted;
    RunKeepsInv(states, ops, j - 1);
    RunKeepsInv(states, ops, j);
    assert Steps(states[j - 1], ops[j - 1], states[j - 1 + 1]);
    if k + 1 == j {
      HitNotes(states[k], ops[k], rid);
    } else {
      RunKeepsInv(states, ops, k);
      assert Steps(states[k], ops[k], states[k + 1]);
      HitNotes(states[k], ops[k], rid);
      RunPast(states, ops, k + 1, j - 1, rid);
      LiveBefore(states[j - 1], ops[j - 1], rid);
      InterruptIsNoted(states, ops, rid, k, j - 1);
      NotedStays(states[j - 1], ops[j - 1], rid);
    }
  }

  /** When nobody is on the way any more it is interrupted. */
  lemma InterruptArrives(states: seq<State>, ops: seq<Op>, rid: Rid, k: nat, j: nat)
    requires Run(states, ops) && k < j < |states| && Hits(states[k], ops[k], rid) && rid in states[j].live
    requires forall t :: !OnItsWay(states[j], t, rid)
    ensures rid in states[j].reqs && states[j].reqs[rid].interrupted
  {
    InterruptIsNoted(states, ops, rid, k, j);
  }

  // ---------- what was registered is set ----------

  /** Step `k` registers callback `func` for `rid`, and no other step up to `j` registers one. */
  ghost predicate RegisteredAt(ops: seq<Op>, rid: Rid, func: Option<nat>, k: nat, j: nat) {
    && k < j <= |ops| && ops[k].RegCall? && ops[k].rid == rid && ops[k].func == func
    && forall i :: 0 <= i < j && i != k ==> !(ops[i].RegCall? && ops[i].rid == rid)
  }

  predicate Registering(s: State, t: Tid, rid: Rid, func: Option<nat>) {
    t in s.regs && s.regs[t].req == rid && s.regs[t].func == func
  }

  /** Before its registration a request has no callback, and nobody registers one. */
  ghost predicate NoCallback(s: State, rid: Rid) {
    (rid in s.live && rid in s.reqs ==> s.reqs[rid].func.None?) && forall t :: t in s.regs ==> s.regs[t].req != rid
  }

  /** The thread that registers `func` is the only one, and has stored it or is about to. */
  ghost predicate IsRegistered(s: State, t: Tid, rid: Rid, func: Option<nat>) {
    && (forall u :: u in s.regs && s.regs[u].req == rid ==> u == t && s.regs[u].func == func)
    && (rid in s.reqs && s.reqs[rid].func != func ==>
          t in s.regs && s.regs[t].req == rid && (s.regs[t].phase.RegWants? || s.regs[t].phase.RegHolds?))
  }

  /** Only `fuse_req_interrupt_func` changes the callback of a request that stays live. */
  lemma FuncSame(s: State, op: Op, rid: Rid)
    requires InUseExist(s) && Enabled(s, op) && !op.RegStore?
    requires rid in s.live && rid in s.past && rid in Apply(s, op).live
    ensures rid in s.reqs && (rid in Apply(s, op).reqs ==> Apply(s, op).reqs[rid].func == s.reqs[rid].func)
  {
    hide Apply;
    if op.Interrupt? {
      InterruptFunc(s, op.rid, op.unique, op.target, op.t, rid);
    } else if op.Arrive? {
      ArriveFunc(s, op.rid, op.unique, rid);
    } else {
      OthersFunc(s, op, rid);
    }
  }

  lemma InterruptFunc(s: State, own: Rid, unique: nat, target: nat, t: Tid, rid: Rid)
    requires InUseExist(s) && own !in s.past && t !in s.finds && rid in s.live
    ensures var s' := Apply(s, Interrupt(own, unique, target, t));
            rid in s.reqs && (rid in s'.reqs ==> s'.reqs[rid].func == s.reqs[rid].func)
  {
    hide Hit;
  }

  lemma ArriveFunc(s: State, r: Rid, unique: nat, rid: Rid)
    requires InUseExist(s) && r !in s.past && rid in s.live
    ensures var s' := Apply(s, Arrive(r, unique));
            rid in s.reqs && (rid in s'.reqs ==> s'.reqs[rid].func == s.reqs[rid].func)
  {
    hide Hit;
  }

  lemma OthersFunc(s: State, op: Op, rid: Rid)
    requires InUseExist(s) && Enabled(s, op) && !op.RegStore? && rid in s.live && rid in Apply(s, op).live
    requires !op.Interrupt? && !op.Arrive?
    ensures rid in s.reqs && (rid in Apply(s, op).reqs ==> Apply(s, op).reqs[rid].func == s.reqs[rid].func)
  {
    hide Interrupted, Arrived, Without, PastOf;
    if op.Free? {
      WithoutOne(s.live, op.rid);
    }
  }

  predicate RegOp(op: Op) {
    op.RegCall? || op.RegLock? || op.RegStore? || op.RegCheck? || op.RegUnlock?
  }

  lemma RegsSame(s: State, op: Op)
    requires Enabled(s, op) && !RegOp(op)
    ensures Apply(s, op).regs == s.regs
  {
    hide FirstLive, FirstPending, Without, PastOf;
  }

  lemma NoCallbackStays(s: State, op: Op, rid: Rid)
    requires InUseExist(s) && Enabled(s, op) && NoCallback(s, rid) && !(op.RegCall? && op.rid == rid)
    requires rid in Apply(s, op).live ==> rid in s.live || rid !in s.past
    ensures NoCallback(Apply(s, op), rid)
  {
    if rid in s.live && rid in Apply(s, op).live {
      assert rid in s.past;
      if !op.RegStore? {
        FuncSame(s, op, rid);
      }
    }
    if RegOp(op) {
      RegOpNone(s, op, rid);
    } else {
      RegsSame(s, op);
      if rid in Apply(s, op).live && rid !in s.live {
        NewHasNone(s, op, rid);
      }
    }
  }

  lemma RegOpNone(s: State, op: Op, rid: Rid)
    requires InUseExist(s) && Enabled(s, op) && RegOp(op) && NoCallback(s, rid) && !(op.RegCall? && op.rid == rid)
    ensures NoCallback(Apply(s, op), rid)
  {
    hide PastOf;
  }

  lemma NewHasNone(s: State, op: Op, rid: Rid)
    requires InUseExist(s) && Enabled(s, op) && rid in Apply(s, op).live && rid !in s.live && rid !in s.past
    ensures rid in Apply(s, op).reqs && Apply(s, op).reqs[rid].func.None?
  {
    hide FirstLive, FirstPending, PastOf;
    match op
    case Arrive(r, unique) => assert Apply(s, op).live == s.live + [r];
    case Free(r) => WithoutLess(s.live, r, rid);
    case _ =>
  }

  lemma {:induction false} NothingRegistered(states: seq<State>, ops: seq<Op>, rid: Rid, j: nat)
    requires Run(states, ops) && j < |states|
    requires forall i :: 0 <= i < j ==> !(ops[i].RegCall? && ops[i].rid == rid)
    ensures NoCallback(states[j], rid)
    decreases j
  {
    hide Apply, Enabled, Counted, DestroyedOnce, Locks, Fires, InUseExist, NoCallback;
    if j == 0 {
      assert NoCallback(START, rid) by { NothingAtStart(rid); }
    } else {
      NothingRegistered(states, ops, rid, j - 1);
      RunKeepsInv(states, ops, j - 1);
      assert Steps(states[j - 1], ops[j - 1], states[j - 1 + 1]);
      if rid in states[j].live && rid in states[j - 1].past {
        LiveBefore(states[j - 1], ops[j - 1], rid);
      }
      NoCallbackStays(states[j - 1], ops[j - 1], rid);
    }
  }

  lemma NothingAtStart(rid: Rid)
    ensures NoCallback(START, rid)
  {
  }

  lemma CallRegisters(s: State, op: Op, rid: Rid)
    requires Enabled(s, op) && op.RegCall? && op.rid == rid && NoCallback(s, rid)
    ensures IsRegistered(Apply(s, op), op.t, rid, op.func)
  {
  }

  lemma RegisteredStays(s: State, op: Op, t: Tid, rid: Rid, func: Option<nat>)
    requires InUseExist(s) && Enabled(s, op) && IsRegistered(s, t, rid, func) && !(op.RegCall? && op.rid == rid)
    requires rid in s.live && rid in s.past && rid in Apply(s, op).live
    ensures IsRegistered(Apply(s, op), t, rid, func)
  {
    hide Apply, Enabled;
    if RegOp(op) {
      RegOpStays(s, op, t, rid, func);
    } else {
      RegsSame(s, op);
      FuncSame(s, op, rid);
    }
  }

  lemma RegOpStays(s: State, op: Op, t: Tid, rid: Rid, func: Option<nat>)
    requires InUseExist(s) && Enabled(s, op) && RegOp(op) && IsRegistered(s, t, rid, func)
    requires !(op.RegCall? && op.rid == rid) && rid in s.live
    ensures IsRegistered(Apply(s, op), t, rid, func)
  {
    hide IsRegistered;
    match op
    case RegCall(u, r, f) => CallStays(s, u, r, f, t, rid, func);
    case RegLock(u) => LockStays(s, u, t, rid, func);
    case RegStore(u) => StoreStays(s, u, t, rid, func);
    case RegCheck(u) => CheckStays(s, u, t, rid, func);
    case RegUnlock(u) => UnlockStays(s, u, t, rid, func);
  }

  lemma CallStays(s: State, u: Tid, r: Rid, f: Option<nat>, t: Tid, rid: Rid, func: Option<nat>)
    requires IsRegistered(s, t, rid, func) && Enabled(s, RegCall(u, r, f)) && r != rid
    ensures IsRegistered(RegCalled(s, u, r, f), t, rid, func)
  {
  }

  lemma LockStays(s: State, u: Tid, t: Tid, rid: Rid, func: Option<nat>)
    requires IsRegistered(s, t, rid, func) && Enabled(s, RegLock(u))
    ensures IsRegistered(RegLocked(s, u), t, rid, func)
  {
  }

  lemma StoreStays(s: State, u: Tid, t: Tid, rid: Rid, func: Option<nat>)
    requires IsRegistered(s, t, rid, func) && Enabled(s, RegStore(u))
    ensures IsRegistered(RegStored(s, u), t, rid, func)
  {
  }

  lemma CheckStays(s: State, u: Tid, t: Tid, rid: Rid, func: Option<nat>)
    requires IsRegistered(s, t, rid, func) && Enabled(s, RegCheck(u))
    ensures IsRegistered(RegCheckMade(s, u), t, rid, func)
  {
  }

  lemma UnlockStays(s: State, u: Tid, t: Tid, rid: Rid, func: Option<nat>)
    requires IsRegistered(s, t, rid, func) && Enabled(s, RegUnlock(u))
    ensures IsRegistered(RegUnlocked(s, u), t, rid, func)
  {
  }

  /**
   In every run: a callback that is registered once is set, or about to be set by the
   thread that registers it, for as long as the request is live.
   */
  lemma {:induction false} CallbackIsSet(states: seq<State>, ops: seq<Op>, rid: Rid, func: Option<nat>, k: nat, j: nat)
    requires Run(states, ops) && j < |states| && RegisteredAt(ops, rid, func, k, j) && rid in states[j].live
    ensures IsRegistered(states[j], ops[k].t, rid, func)
    decreases j - k
  {
    hide Apply, Enabled, Counted, DestroyedOnce, Locks, Fires, InUseExist, NoCallback, IsRegistered;
    assert Steps(states[k], ops[k], states[k + 1]);
    assert Steps(states[j - 1], ops[j - 1], states[j - 1 + 1]);
    RunKeepsInv(states, ops, j - 1);
    if k + 1 == j {
      NothingRegistered(states, ops, rid, k);
      CallRegisters(states[k], ops[k], rid);
    } else {
      RegCallPast(states[k], ops[k]);
      RunPast(states, ops, k + 1, j - 1, rid);
      LiveBefore(states[j - 1], ops[j - 1], rid);
      CallbackIsSet(states, ops, rid, func, k, j - 1);
      RegisteredStays(states[j - 1], ops[j - 1], ops[k].t, rid, func);
    }
  }

  lemma RegCallPast(s: State, op: Op)
    requires Enabled(s, op) && op.RegCall?
    ensures op.rid in Apply(s, op).past
  {
  }

  // ---------- and so the callback is called ----------

  /** The steps that have interrupted a request, and those that have registered a callback for it. */
  ghost function HitsOf(states: seq<State>, ops: seq<Op>, rid: Rid, j: nat): nat
    requires j <= |ops| <= |states|
  {
    if j == 0 then 0 else HitsOf(states, ops, rid, j - 1) + One(Hits(states[j - 1], ops[j - 1], rid))
  }

  ghost function CallsFor(ops: seq<Op>, rid: Rid, j: nat): nat
    requires j <= |ops|
  {
    if j == 0 then 0 else CallsFor(ops, rid, j - 1) + One(ops[j - 1].RegCall? && ops[j - 1].rid == rid)
  }

  lemma FoundCounts(s: State, op: Op, rid: Rid)
    requires InUseExist(s) && Enabled(s, op)
    ensures PastOf(Apply(s, op), rid).found == PastOf(s, rid).found + One(Hits(s, op, rid))
  {
    if op.Interrupt? {
      InterruptCounts(s, op.rid, op.unique, op.target, op.t, rid);
    } else if op.Arrive? {
      ArriveCounts(s, op.rid, op.unique, rid);
    } else {
      hide FirstLive, FirstPending, Without, Hits;
      OthersCount(s, op, rid);
    }
  }

  lemma OthersCount(s: State, op: Op, rid: Rid)
    requires InUseExist(s) && Enabled(s, op) && !op.Interrupt? && !op.Arrive?
    ensures PastOf(Apply(s, op), rid).found == PastOf(s, rid).found && !Hits(s, op, rid)
  {
    hide Interrupted, Arrived, Without;
  }

  lemma InterruptCounts(s: State, own: Rid, unique: nat, target: nat, t: Tid, rid: Rid)
    requires InUseExist(s) && own !in s.past
    ensures PastOf(Interrupted(s, own, unique, target, t), rid).found ==
            PastOf(s, rid).found + One(Hits(s, Interrupt(own, unique, target, t), rid))
  {
    var op := Interrupt(own, unique, target, t);
    var i := FirstLive(s.reqs, s.live, target);
    if i < |s.live| {
      assert First(s, i, target);
    }
    if Hits(s, op, rid) {
      var k :| 0 <= k < |s.live| && s.live[k] == rid && First(s, k, target);
      FirstIs(s, k, target);
    }
  }

  lemma ArriveCounts(s: State, r: Rid, unique: nat, rid: Rid)
    requires InUseExist(s) && r !in s.past
    ensures PastOf(Arrived(s, r, unique), rid).found == PastOf(s, rid).found + One(Hits(s, Arrive(r, unique), rid))
  {
    if Hit(s, unique) {
      var p := s.pending[FirstPending(s.reqs, s.pending, unique)];
      assert p in s.pending && HasTarget(s.reqs, p, unique);
    } else if p :| p in s.pending && HasTarget(s.reqs, p, unique) {
      HitIs(s, p, unique);
    }
  }

  lemma RegisteredCounts(s: State, op: Op, rid: Rid)
    requires Enabled(s, op)
    ensures PastOf(Apply(s, op), rid).registered == PastOf(s, rid).registered + One(op.RegCall? && op.rid == rid)
  {
    if op.Interrupt? {
      InterruptRegisters(s, op.rid, op.unique, op.target, op.t, rid);
    } else if op.Arrive? {
      ArriveRegisters(s, op.rid, op.unique, rid);
    } else {
      OthersRegister(s, op, rid);
    }
  }

  lemma InterruptRegisters(s: State, own: Rid, unique: nat, target: nat, t: Tid, rid: Rid)
    requires own !in s.past
    ensures PastOf(Interrupted(s, own, unique, target, t), rid).registered == PastOf(s, rid).registered
  {
    hide Hit;
  }

  lemma ArriveRegisters(s: State, r: Rid, unique: nat, rid: Rid)
    requires r !in s.past
    ensures PastOf(Arrived(s, r, unique), rid).registered == PastOf(s, rid).registered
  {
    hide Hit;
  }

  lemma OthersRegister(s: State, op: Op, rid: Rid)
    requires Enabled(s, op) && !op.Interrupt? && !op.Arrive?
    ensures PastOf(Apply(s, op), rid).registered == PastOf(s, rid).registered + One(op.RegCall? && op.rid == rid)
  {
    hide FirstLive, FirstPending, Without, Interrupted, Arrived;
  }

  lemma {:induction false} HistoryCounts(states: seq<State>, ops: seq<Op>, rid: Rid, j: nat)
    requires Run(states, ops) && j < |states|
    ensures PastOf(states[j], rid).found == HitsOf(states, ops, rid, j)
    ensures PastOf(states[j], rid).registered == CallsFor(ops, rid, j)
    decreases j
  {
    hide Apply, Enabled, Counted, DestroyedOnce, Locks, Fires, InUseExist, Hits;
    if j > 0 {
      HistoryCounts(states, ops, rid, j - 1);
      RunKeepsInv(states, ops, j - 1);
      assert Steps(states[j - 1], ops[j - 1], states[j - 1 + 1]);
      FoundCounts(states[j - 1], ops[j - 1], rid);
      RegisteredCounts(states[j - 1], ops[j - 1], rid);
    }
  }

  lemma {:induction false} OneCall(ops: seq<Op>, rid: Rid, func: Option<nat>, k: nat, i: nat, j: nat)
    requires RegisteredAt(ops, rid, func, k, j) && i <= j
    ensures CallsFor(ops, rid, i) == One(k < i)
    decreases i
  {
    if i > 0 {
      OneCall(ops, rid, func, k, i - 1, j);
    }
  }

  lemma {:induction false} OneHit(states: seq<State>, ops: seq<Op>, rid: Rid, j: nat)
    requires j <= |ops| <= |states| && HitsOf(states, ops, rid, j) > 0
    ensures exists k :: 0 <= k < j && Hits(states[k], ops[k], rid)
    decreases j
  {
    hide Hits;
    if Hits(states[j - 1], ops[j - 1], rid) {
    } else {
      OneHit(states, ops, rid, j - 1);
    }
  }

  /**
   In every run: for a live request with one callback registered, once, and at most one
   INTERRUPT, when nobody is at work on it: the callback has been called once if there was
   an INTERRUPT, before or after the registration, and not at all if there was none.
   */
  lemma CallbackDelivered(states: seq<State>, ops: seq<Op>, rid: Rid, func: Option<nat>, k: nat, j: nat)
    requires Run(states, ops) && j < |states| && RegisteredAt(ops, rid, func, k, j) && rid in states[j].live
    requires HitsOf(states, ops, rid, j) <= 1 && !Busy(states[j], rid)
    ensures PastOf(states[j], rid).fired == if func.Some? then HitsOf(states, ops, rid, j) else 0
  {
    hide Apply, Enabled, Counted, DestroyedOnce, Locks, Fires, Hits, FireOk, InUseExist, HitsOf, Noted;
    var s := states[j];
    RunKeepsInv(states, ops, j);
    assert Steps(states[k], ops[k], states[k + 1]);
    RegCallPast(states[k], ops[k]);
    RunPast(states, ops, k + 1, j, rid);
    CallbackIsSet(states, ops, rid, func, k, j);
    HistoryCounts(states, ops, rid, j);
    OneCall(ops, rid, func, k, j, j);
    CallbackFiresOnce(states, ops, j, rid);
    RegisteredIsSet(states, ops, j, rid);
    if HitsOf(states, ops, rid, j) > 0 {
      OneHit(states, ops, rid, j);
      var i :| 0 <= i < j && Hits(states[i], ops[i], rid);
      InterruptIsNoted(states, ops, rid, i, j);
      NobodyOnTheWay(s, rid);
    } else {
      NotNoted(s, rid);
    }
  }

  lemma NobodyOnTheWay(s: State, rid: Rid)
    requires Noted(s, rid) && !Busy(s, rid)
    ensures s.reqs[rid].interrupted
  {
  }

  lemma NotNoted(s: State, rid: Rid)
    requires Inv(s) && rid in s.past && s.past[rid].found == 0 && s.past[rid].registered <= 1
    ensures !s.past[rid].noted
  {
    hide InUseExist, Counted, DestroyedOnce, Locks;
    assert FireOk(s, rid);
  }

  // ---------- nothing waits that could be delivered ----------

  /** Pending INTERRUPTs are for different requests, none of which is live. */
  ghost predicate PendingRight(s: State) {
    && (forall p, q :: p in s.pending && q in s.pending && p in s.reqs && q in s.reqs && p != q ==>
          s.reqs[p].target != s.reqs[q].target)
    && (forall p, r :: p in s.pending && r in s.live && p in s.reqs && r in s.reqs ==>
          s.reqs[p].target != Some(s.reqs[r].unique))
  }

  lemma PendingStaysRight(s: State, op: Op)
    requires InUseExist(s) && Enabled(s, op) && PendingRight(s)
    ensures PendingRight(Apply(s, op))
  {
    hide Arrived, Interrupted, PendingRight;
    if op.Arrive? {
      ArriveRight(s, op.rid, op.unique);
    } else if op.Interrupt? {
      InterruptRight(s, op.rid, op.unique, op.target, op.t);
    } else {
      OthersRight(s, op);
    }
  }

  lemma OthersRight(s: State, op: Op)
    requires InUseExist(s) && Enabled(s, op) && PendingRight(s) && !op.Arrive? && !op.Interrupt?
    ensures PendingRight(Apply(s, op))
  {
    hide InUseExist, PastOf, Without;
    var s' := Apply(s, op);
    forall r | r in s'.live ensures r in s.live {
      if op.Free? {
        WithoutLess(s.live, op.rid, r);
      }
    }
    SameNames(s, op);
  }

  lemma SameNames(s: State, op: Op)
    requires Enabled(s, op) && !op.Arrive? && !op.Interrupt?
    ensures Apply(s, op).pending == s.pending
    ensures forall r :: r in Apply(s, op).reqs ==>
              && r in s.reqs && Apply(s, op).reqs[r].unique == s.reqs[r].unique
              && Apply(s, op).reqs[r].target == s.reqs[r].target
  {
    hide PastOf, Without;
  }

  lemma ArriveRight(s: State, rid: Rid, unique: nat)
    requires InUseExist(s) && rid !in s.past && PendingRight(s)
    ensures PendingRight(Arrived(s, rid, unique))
  {
    var s' := Arrived(s, rid, unique);
    assert s'.live == s.live + [rid];
    NoneForNew(s, rid, unique);
    forall p | p in s'.pending ensures p in s.pending && p != rid && s'.reqs[p] == s.reqs[p] {
    }
  }

  /** What is still pending behind the check is not for the new request. */
  lemma NoneForNew(s: State, rid: Rid, unique: nat)
    requires InUseExist(s) && rid !in s.past && PendingRight(s)
    ensures forall p :: p in Arrived(s, rid, unique).pending ==>
              p in s.pending && p != rid && p in Arrived(s, rid, unique).reqs
              && Arrived(s, rid, unique).reqs[p] == s.reqs[p] && s.reqs[p].target != Some(unique)
  {
    var s' := Arrived(s, rid, unique);
    var i := FirstPending(s.reqs, s.pending, unique);
    if i < |s.pending| {
      CutAt(s.pending, i);
      assert forall p :: p in s'.pending ==> p in s.pending && p != s.pending[i];
    } else {
      forall p | p in s.pending ensures s.reqs[p].target != Some(unique) {
        var k :| 0 <= k < |s.pending| && s.pending[k] == p;
        assert !HasTarget(s.reqs, s.pending[k], unique);
      }
      assert forall p :: p in s'.pending ==> p in s.pending;
    }
  }

  lemma InterruptRight(s: State, rid: Rid, unique: nat, target: nat, t: Tid)
    requires InUseExist(s) && rid !in s.past && PendingRight(s)
    ensures PendingRight(Interrupted(s, rid, unique, target, t))
  {
    var s' := Interrupted(s, rid, unique, target, t);
    if FirstLive(s.reqs, s.live, target) == |s.live| && !Hit(s, target) {
      assert s'.pending == s.pending + [rid];
      forall p | p in s.pending ensures s.reqs[p].target != Some(target) {
        var k :| 0 <= k < |s.pending| && s.pending[k] == p;
        assert !HasTarget(s.reqs, s.pending[k], target);
      }
      forall r | r in s.live ensures s.reqs[r].unique != target {
        var k :| 0 <= k < |s.live| && s.live[k] == r;
        assert !HasUnique(s.reqs, s.live[k], target);
      }
    }
  }

  /** In every state of every run no INTERRUPT is pending for a live request, and no two for the same. */
  lemma {:induction false} NoneForgotten(states: seq<State>, ops: seq<Op>, j: nat)
    requires Run(states, ops) && j < |states|
    ensures PendingRight(states[j])
    decreases j
  {
    hide Apply, Enabled, Counted, DestroyedOnce, Locks, Fires, InUseExist, PendingRight;
    if j == 0 {
      RightAtStart();
    } else {
      NoneForgotten(states, ops, j - 1);
      RunKeepsInv(states, ops, j - 1);
      assert Steps(states[j - 1], ops[j - 1], states[j - 1 + 1]);
      PendingStaysRight(states[j - 1], ops[j - 1]);
    }
  }

  lemma RightAtStart()
    ensures PendingRight(START)
  {
  }

  /**
   What becomes of an INTERRUPT: a thread has found its request, it is dropped because one is
   pending, or it is pending.
   */
  lemma InterruptOutcome(s: State, own: Rid, unique: nat, target: nat, t: Tid)
    requires InUseExist(s) && Enabled(s, Interrupt(own, unique, target, t))
    ensures var s' := Apply(s, Interrupt(own, unique, target, t));
            if exists r :: r in s.live && HasUnique(s.reqs, r, target)
            then t in s'.finds && s'.finds[t].own == own && s'.finds[t].req in s.live
                 && s.reqs[s'.finds[t].req].unique == target && s'.pending == s.pending
            else if exists p :: p in s.pending && HasTarget(s.reqs, p, target)
            then own !in s'.reqs && s'.pending == s.pending && s'.finds == s.finds
            else s'.pending == s.pending + [own] && HasTarget(s'.reqs, own, target) && s'.finds == s.finds
  {
    var i, k := FirstLive(s.reqs, s.live, target), FirstPending(s.reqs, s.pending, target);
    assert forall j :: 0 <= j < |s.live| ==> s.live[j] in s.live;
    assert forall j :: 0 <= j < |s.pending| ==> s.pending[j] in s.pending;
  }
}

/**
 How long threads are at work on a request: each INTERRUPT that finds it is worth five
 steps, each call of `fuse_req_interrupt_func` four, and no other step delays them.
 */
module InterruptProgress {
  import opened Interrupts

  /** The steps that a thread in this phase has still to take. */
  function FindLeft(phase: FindPhase): nat {
    match phase
    case Wants => 5
    case Holds => 4
    case Took(_) => 3
    case Called => 2
    case Released => 1
  }

  function RegLeft(phase: RegPhase): nat {
    match phase
    case RegWants => 4
    case RegHolds => 3
    case RegSet => 2
    case RegChecked => 1
  }

  /** The finders of `c` that have more than `k` steps to take. */
  ghost function Finders(finds: map<Tid, Find>, c: Rid, k: nat): set<Tid> {
    set t | t in finds && finds[t].req == c && FindLeft(finds[t].phase) > k
  }

  ghost function Registrars(regs: map<Tid, Reg>, c: Rid, k: nat): set<Tid> {
    set t | t in regs && regs[t].req == c && RegLeft(regs[t].phase) > k
  }

  ghost function FindWork(finds: map<Tid, Find>, c: Rid): nat {
    |Finders(finds, c, 0)| + |Finders(finds, c, 1)| + |Finders(finds, c, 2)| + |Finders(finds, c, 3)| + |Finders(finds,
           c, 4)|
  }

  ghost function RegWork(regs: map<Tid, Reg>, c: Rid): nat {
    |Registrars(regs, c, 0)| + |Registrars(regs, c, 1)| + |Registrars(regs, c, 2)| + |Registrars(regs, c, 3)|
  }

  /** The steps that all threads at work on `c` have still to take. */
  ghost function Work(s: State, c: Rid): nat {
    FindWork(s.finds, c) + RegWork(s.regs, c)
  }

  /** What a step adds to that: an INTERRUPT that finds `c`, or a call for it. */
  ghost function NewWork(s: State, op: Op, c: Rid): nat {
    match op
    case Interrupt(_, _, target, _) =>
      var i := FirstLive(s.reqs, s.live, target);
      if i < |s.live| && s.live[i] == c then 5 else 0
    case RegCall(_, rid, _) => if rid == c then 4 else 0
    case _ => 0
  }

  lemma WithAndWithout(a: set<Tid>, t: Tid)
    ensures |a| == |a - {t}| + One(t in a)
  {
    if t in a {
      assert a == (a - {t}) + {t};
    } else {
      assert a == a - {t};
    }
  }

  lemma FinderAt(finds: map<Tid, Find>, finds': map<Tid, Find>, c: Rid, t: Tid, k: nat)
    requires forall u :: u != t ==> (u in finds <==> u in finds') && (u in finds ==> finds'[u] == finds[u])
    requires t in finds' && t in finds ==> finds'[t].req == finds[t].req
    ensures var a, b := Finders(finds, c, k), Finders(finds', c, k);
            |b| + One(t in a) == |a| + One(t in b)
  {
    var a, b := Finders(finds, c, k), Finders(finds', c, k);
    assert a - {t} == b - {t};
    WithAndWithout(a, t);
    WithAndWithout(b, t);
  }

  lemma RegistrarAt(regs: map<Tid, Reg>, regs': map<Tid, Reg>, c: Rid, t: Tid, k: nat)
    requires forall u :: u != t ==> (u in regs <==> u in regs') && (u in regs ==> regs'[u] == regs[u])
    ensures var a, b := Registrars(regs, c, k), Registrars(regs', c, k);
            |b| + One(t in a) == |a| + One(t in b)
  {
    var a, b := Registrars(regs, c, k), Registrars(regs', c, k);
    assert a - {t} == b - {t};
    WithAndWithout(a, t);
    WithAndWithout(b, t);
  }

  /** The steps left to one thread, if it is at work on `c`. */
  ghost function FindShare(finds: map<Tid, Find>, c: Rid, t: Tid): nat {
    if t in finds && finds[t].req == c then FindLeft(finds[t].phase) else 0
  }

  ghost function RegShare(regs: map<Tid, Reg>, c: Rid, t: Tid): nat {
    if t in regs && regs[t].req == c then RegLeft(regs[t].phase) else 0
  }

  lemma FindWorkAt(finds: map<Tid, Find>, finds': map<Tid, Find>, c: Rid, t: Tid)
    requires forall u :: u != t ==> (u in finds <==> u in finds') && (u in finds ==> finds'[u] == finds[u])
    requires t in finds' && t in finds ==> finds'[t].req == finds[t].req
    ensures FindWork(finds', c) + FindShare(finds, c, t) == FindWork(finds, c) + FindShare(finds', c, t)
  {
    FinderAt(finds, finds', c, t, 0);
    FinderAt(finds, finds', c, t, 1);
    FinderAt(finds, finds', c, t, 2);
    FinderAt(finds, finds', c, t, 3);
    FinderAt(finds, finds', c, t, 4);
  }

  lemma RegWorkAt(regs: map<Tid, Reg>, regs': map<Tid, Reg>, c: Rid, t: Tid)
    requires forall u :: u != t ==> (u in regs <==> u in regs') && (u in regs ==> regs'[u] == regs[u])
    ensures RegWork(regs', c) + RegShare(regs, c, t) == RegWork(regs, c) + RegShare(regs', c, t)
  {
    RegistrarAt(regs, regs', c, t, 0);
    RegistrarAt(regs, regs', c, t, 1);
    RegistrarAt(regs, regs', c, t, 2);
    RegistrarAt(regs, regs', c, t, 3);
  }

  lemma InterruptWork(s: State, rid: Rid, unique: nat, target: nat, t: Tid, c: Rid)
    requires t !in s.finds
    ensures Interrupted(s, rid, unique, target, t).regs == s.regs
    ensures FindWork(Interrupted(s, rid, unique, target, t).finds, c) ==
            FindWork(s.finds, c) + NewWork(s, Interrupt(rid, unique, target, t), c)
  {
    hide FindWork;
    FindWorkAt(s.finds, Interrupted(s, rid, unique, target, t).finds, c, t);
  }

  /** The sections of `find_interrupted` behind the search */
  predicate FindOp(op: Op) {
    op.Lock? || op.Take? || op.Call? || op.Unlock? || op.Finish?
  }

  /** Those of `fuse_req_interrupt_func` */
  predicate RegOp(op: Op) {
    op.RegLock? || op.RegStore? || op.RegCheck? || op.RegUnlock?
  }

  lemma FindStep(s: State, op: Op, c: Rid)
    requires Enabled(s, op) && FindOp(op)
    ensures Apply(s, op).regs == s.regs
            && FindWork(Apply(s, op).finds, c) + One(AtWork(s, op, c)) == FindWork(s.finds, c)
  {
    hide FindWork;
    match op
    case Lock(t) => FindWorkAt(s.finds, Locked(s, t).finds, c, t);
    case Take(t) => FindWorkAt(s.finds, Taken(s, t).finds, c, t);
    case Call(t) => FindWorkAt(s.finds, CallMade(s, t).finds, c, t);
    case Unlock(t) => FindWorkAt(s.finds, Unlocked(s, t).finds, c, t);
    case Finish(t) => FindWorkAt(s.finds, Finished(s, t).finds, c, t);
  }

  lemma RegStep(s: State, op: Op, c: Rid)
    requires Enabled(s, op) && RegOp(op)
    ensures Apply(s, op).finds == s.finds && RegWork(Apply(s, op).regs, c) + One(AtWork(s, op, c)) == RegWork(s.regs, c)
  {
    hide RegWork;
    match op
    case RegLock(t) => RegWorkAt(s.regs, RegLocked(s, t).regs, c, t);
    case RegStore(t) => RegWorkAt(s.regs, RegStored(s, t).regs, c, t);
    case RegCheck(t) => RegWorkAt(s.regs, RegCheckMade(s, t).regs, c, t);
    case RegUnlock(t) => RegWorkAt(s.regs, RegUnlocked(s, t).regs, c, t);
  }

  lemma OtherStep(s: State, op: Op, c: Rid)
    requires Enabled(s, op) && (op.Arrive? || op.Free? || op.Reap?)
    ensures Apply(s, op).finds == s.finds && Apply(s, op).regs == s.regs && !AtWork(s, op, c)
  {
  }

  /**
   A step of a thread at work on `c` is one step less to take; no other step changes what is left,
   but for new work.
   */
  lemma WorkStep(s: State, op: Op, c: Rid)
    requires Enabled(s, op)
    ensures Work(Apply(s, op), c) + One(AtWork(s, op, c)) == Work(s, c) + NewWork(s, op, c)
  {
    hide FindWork, RegWork;
    if FindOp(op) {
      FindStep(s, op, c);
    } else if RegOp(op) {
      RegStep(s, op, c);
    } else if op.Interrupt? {
      InterruptWork(s, op.rid, op.unique, op.target, op.t, c);
    } else if op.RegCall? {
      RegWorkAt(s.regs, RegCalled(s, op.t, op.rid, op.func).regs, c, op.t);
    } else {
      OtherStep(s, op, c);
    }
  }

  lemma NoWorkIff(s: State, c: Rid)
    ensures Work(s, c) == 0 <==> !Busy(s, c)
  {
    if t :| t in s.finds && s.finds[t].req == c {
      assert t in Finders(s.finds, c, 0);
    }
    if t :| t in s.regs && s.regs[t].req == c {
      assert t in Registrars(s.regs, c, 0);
    }
    if !Busy(s, c) {
      assert forall k: nat :: Finders(s.finds, c, k) == {} && Registrars(s.regs, c, k) == {};
    }
  }

  /** The steps of threads at work on `c` from state `i` to state `j`. */
  ghost function StepsOn(states: seq<State>, ops: seq<Op>, c: Rid, i: nat, j: nat): nat
    requires i <= j <= |ops| == |states| - 1
  {
    if i == j then 0 else StepsOn(states, ops, c, i, j - 1) + One(AtWork(states[j - 1], ops[j - 1], c))
  }

  /**
   While no new INTERRUPT finds a request and no new callback is registered for it, the
   threads at work on it take exactly the steps that they had left, whatever happens
   elsewhere meanwhile; and when they have taken them nobody is at work on it any more.
   */
  lemma {:induction false} ThreadsFinish(states: seq<State>, ops: seq<Op>, c: Rid, i: nat, j: nat)
    requires Run(states, ops) && i <= j <= |ops|
    requires forall k :: i <= k < j ==> NewWork(states[k], ops[k], c) == 0
    ensures StepsOn(states, ops, c, i, j) + Work(states[j], c) == Work(states[i], c)
    ensures StepsOn(states, ops, c, i, j) == Work(states[i], c) <==> !Busy(states[j], c)
    decreases j - i
  {
    hide Work, Busy, Apply, Enabled, AtWork, NewWork;
    NoWorkIff(states[j], c);
    if i < j {
      ThreadsFinish(states, ops, c, i, j - 1);
      assert Steps(states[j - 1], ops[j - 1], states[j - 1 + 1]);
      WorkStep(states[j - 1], ops[j - 1], c);
    }
  }

  /** And as long as somebody is at work, one of them can go on. */
  lemma RunGoesOn(states: seq<State>, ops: seq<Op>, c: Rid, j: nat) returns (op: Op)
    requires Run(states, ops) && j <= |ops| && Work(states[j], c) > 0
    ensures Enabled(states[j], op) && AtWork(states[j], op, c)
            && Work(Apply(states[j], op), c) == Work(states[j], c) - 1
  {
    hide Work, Busy, Apply, Enabled, NewWork, Inv;
    RunKeepsInv(states, ops, j);
    NoWorkIff(states[j], c);
    op := SomebodyCanMove(states[j], c);
    WorkStep(states[j], op, c);
    AtWorkIsNotNew(states[j], op, c);
  }

  lemma AtWorkIsNotNew(s: State, op: Op, c: Rid)
    requires AtWork(s, op, c)
    ensures NewWork(s, op, c) == 0
  {
  }
}

/**
 The handshake between requests and the INTERRUPT requests that name them. Threads share
 the list of live requests and the list of INTERRUPTs whose request has not arrived, under
 one mutex, and call interrupt callbacks under a second mutex that every request has of
 its own. One step of the state machine is one section under the common mutex, or one
 change of hands of a request's mutex, or one call of a callback.
 */
module Interrupts {
  import opened Common

  /** The address of a `struct fuse_req`; it is never used again. */
  type Rid = nat

  type Tid = nat

  /** Who holds the mutex of a request: a thread in `find_interrupted`, or one in `fuse_req_interrupt_func`. */
  datatype Owner = Finder(t: Tid) | Registrar(t: Tid)

  /** `struct fuse_req`; `target` is `u.i.unique` of an INTERRUPT, `func` is `u.ni.func` of any other request. */
  datatype Req = Req(unique: nat, ctr: int, interrupted: bool, func: Option<nat>, target: Option<nat>,
         owner: Option<Owner>)

  /** How far a thread has got in the loop body of `find_interrupted`. */
  datatype FindPhase = Wants | Holds | Took(func: Option<nat>) | Called | Released

  /** A thread that found `req` for the INTERRUPT `own`. */
  datatype Find = Find(req: Rid, own: Rid, phase: FindPhase)

  datatype RegPhase = RegWants | RegHolds | RegSet | RegChecked

  /** A thread in `fuse_req_interrupt_func(req, func)`. */
  datatype Reg = Reg(req: Rid, func: Option<nat>, phase: RegPhase)

  /**
   What has happened to a request so far: calls of `fuse_req_interrupt_func`, INTERRUPTs
   that found it, whether a callback was set and whether an interrupt was noted while it
   was live, how often a callback was called, and how often it was destroyed.
   */
  datatype History = History(registered: nat, found: nat, stored: bool, noted: bool, fired: nat, destroyed: nat)

  /**
   `bounced` are the INTERRUPTs to be answered EAGAIN; `doomed` are the requests whose `ctr` has
   reached zero in `fuse_free_req`.
   */
  datatype State = State(reqs: map<Rid, Req>, live: seq<Rid>, pending: seq<Rid>, bounced: set<Rid>, doomed: set<Rid>,
                         finds: map<Tid, Find>, regs: map<Tid, Reg>, past: map<Rid, History>)

  const NEW: History := History(0, 0, false, false, 0, 0)

  // ---------- the steps ----------

  predicate HasUnique(reqs: map<Rid, Req>, rid: Rid, unique: nat) {
    rid in reqs && reqs[rid].unique == unique
  }

  predicate HasTarget(reqs: map<Rid, Req>, rid: Rid, unique: nat) {
    rid in reqs && reqs[rid].target == Some(unique)
  }

  /** The first entry of a list that a search for `unique` finds. */
  function FirstLive(reqs: map<Rid, Req>, list: seq<Rid>, unique: nat): (i: nat)
    ensures i <= |list| && (forall j :: 0 <= j < i ==> !HasUnique(reqs, list[j], unique))
    ensures i < |list| ==> HasUnique(reqs, list[i], unique)
  {
    if list == [] || HasUnique(reqs, list[0], unique) then 0 else 1 + FirstLive(reqs, list[1..], unique)
  }

  function FirstPending(reqs: map<Rid, Req>, list: seq<Rid>, unique: nat): (i: nat)
    ensures i <= |list| && (forall j :: 0 <= j < i ==> !HasTarget(reqs, list[j], unique))
    ensures i < |list| ==> HasTarget(reqs, list[i], unique)
  {
    if list == [] || HasTarget(reqs, list[0], unique) then 0 else 1 + FirstPending(reqs, list[1..], unique)
  }

  /** `list_del_req` */
  function Without(list: seq<Rid>, rid: Rid): seq<Rid> {
    if list == [] then [] else if list[0] == rid then list[1..] else [list[0]] + Without(list[1..], rid)
  }

  /** `destroy_req`, or `free` */
  function Destroy(s: State, rid: Rid): State {
    s.(reqs := s.reqs - {rid},
       past := if rid in s.past then s.past[rid := s.past[rid].(destroyed := s.past[rid].destroyed + 1)] else s.past)
  }

  function SetReq(s: State, rid: Rid, r: Req): State {
    s.(reqs := s.reqs[rid := r])
  }

  function SetPast(s: State, rid: Rid, h: History): State {
    s.(past := s.past[rid := h])
  }

  /**
   `Arrive`: `fuse_ll_process_buf` lists a request. `Interrupt`: `do_interrupt` looks for
   its request. `Lock` to `Finish`: the sections of `find_interrupted` that follow.
   `RegCall` to `RegUnlock`: those of `fuse_req_interrupt_func`. `Free` and `Reap`:
   `fuse_free_req`, for an answered request or a bounced INTERRUPT.
   */
  datatype Op =
    | Arrive(rid: Rid, unique: nat)
    | Interrupt(rid: Rid, unique: nat, target: nat, t: Tid)
    | Lock(t: Tid)
    | Take(t: Tid)
    | Call(t: Tid)
    | Unlock(t: Tid)
    | Finish(t: Tid)
    | RegCall(t: Tid, rid: Rid, func: Option<nat>)
    | RegLock(t: Tid)
    | RegStore(t: Tid)
    | RegCheck(t: Tid)
    | RegUnlock(t: Tid)
    | Free(rid: Rid)
    | Reap(rid: Rid)

  predicate FindAt(s: State, t: Tid, phase: FindPhase) {
    t in s.finds && s.finds[t].phase == phase && s.finds[t].req in s.reqs && s.finds[t].req in s.past
  }

  predicate RegAt(s: State, t: Tid, phase: RegPhase) {
    t in s.regs && s.regs[t].phase == phase && s.regs[t].req in s.reqs && s.regs[t].req in s.past
  }

  /**
   When a step can happen. A file system answers a request once, and not while it is registering a
   callback for it.
   */
  ghost predicate Enabled(s: State, op: Op) {
    match op
    case Arrive(rid, _) => rid !in s.past
    case Interrupt(rid, _, _, t) => rid !in s.past && t !in s.finds
    case Lock(t) => FindAt(s, t, Wants) && s.reqs[s.finds[t].req].owner == None
    case Take(t) => FindAt(s, t, Holds)
    case Call(t) => t in s.finds && s.finds[t].phase.Took? && FindAt(s, t, s.finds[t].phase)
    case Unlock(t) => FindAt(s, t, Called)
    case Finish(t) => FindAt(s, t, Released)
    case RegCall(t, rid, _) => t !in s.regs && rid in s.live && rid in s.past
    case RegLock(t) => RegAt(s, t, RegWants) && s.reqs[s.regs[t].req].owner == None
    case RegStore(t) => RegAt(s, t, RegHolds)
    case RegCheck(t) => RegAt(s, t, RegSet)
    case RegUnlock(t) => RegAt(s, t, RegChecked)
    case Free(rid) =>
      && rid in s.reqs
      && (rid in s.bounced || (rid in s.live && forall t :: t in s.regs ==> s.regs[t].req != rid))
    case Reap(rid) => rid in s.doomed
  }

  function PastOf(s: State, rid: Rid): History {
    if rid in s.past then s.past[rid] else NEW
  }

  predicate Hit(s: State, unique: nat) {
    FirstPending(s.reqs, s.pending, unique) < |s.pending|
  }

  /**
   `check_interrupt`: the INTERRUPT for the new request goes; if there is none, the oldest one is
   to be answered EAGAIN.
   */
  function Checked(s: State, unique: nat): State {
    if Hit(s, unique) then
      var i := FirstPending(s.reqs, s.pending, unique);
      Destroy(s.(pending := s.pending[..i] + s.pending[i + 1..]), s.pending[i])
    else if s.pending != [] then s.(pending := s.pending[1..], bounced := s.bounced + {s.pending[0]})
    else s
  }

  /** A request appears. */
  function Added(s: State, rid: Rid, r: Req, h: History): State {
    s.(reqs := s.reqs[rid := r], past := s.past[rid := h])
  }

  /** `check_interrupt` and `list_add_req` for the new request `rid`. */
  function Arrived(s: State, rid: Rid, unique: nat): State {
    var hit := Hit(s, unique);
    var s1 := Checked(s, unique);
    Added(s1, rid, Req(unique, 1, hit, None, None, None),
           NEW.(found := if hit then 1 else 0, noted := hit)).(live := s1.live + [rid])
  }

  /** A thread has found request `c` for the INTERRUPT `own`. */
  function Found(s: State, c: Rid, own: Rid, t: Tid): State
    requires c in s.reqs
  {
    SetPast(SetReq(s, c, s.reqs[c].(ctr := s.reqs[c].ctr + 1)), c, PastOf(s, c).(found := PastOf(s, c).found + 1))
      .(finds := s.finds[t := Find(c, own, Wants)])
  }

  /** `do_interrupt`, up to the end of the search: found, or pending already, or pending from now on. */
  function Interrupted(s: State, rid: Rid, unique: nat, target: nat, t: Tid): State {
    var s1 := Added(s, rid, Req(unique, 1, false, None, Some(target), None), NEW);
    var i := FirstLive(s.reqs, s.live, target);
    if i < |s.live| then Found(s1, s.live[i], rid, t)
    else if Hit(s, target) then Destroy(s1, rid)
    else s1.(pending := s.pending + [rid])
  }

  function SetPhase(s: State, t: Tid, phase: FindPhase): State
    requires t in s.finds
  {
    s.(finds := s.finds[t := s.finds[t].(phase := phase)])
  }

  function SetRegPhase(s: State, t: Tid, phase: RegPhase): State
    requires t in s.regs
  {
    s.(regs := s.regs[t := s.regs[t].(phase := phase)])
  }

  function Fire(s: State, rid: Rid, yes: bool): State
    requires rid in s.past
  {
    if yes then SetPast(s, rid, s.past[rid].(fired := s.past[rid].fired + 1)) else s
  }

  /** The last section: the reference goes, the request may go with it, and the INTERRUPT goes. */
  function Finished(s: State, t: Tid): State
    requires t in s.finds && s.finds[t].req in s.reqs
  {
    var c := s.finds[t].req;
    var s1 := s.(finds := s.finds - {t});
    var s2 := SetReq(s1, c, s.reqs[c].(ctr := s.reqs[c].ctr - 1));
    Destroy(if s2.reqs[c].ctr == 0 then Destroy(s2, c) else s2, s.finds[t].own)
  }

  /** `fuse_free_req`, up to the decision to destroy. */
  function Freed(s: State, rid: Rid): State
    requires rid in s.reqs
  {
    var r := s.reqs[rid].(func := None, ctr := s.reqs[rid].ctr - 1);
    s.(reqs := s.reqs[rid := r], live := Without(s.live, rid), bounced := s.bounced - {rid},
       doomed := if r.ctr == 0 then s.doomed + {rid} else s.doomed)
  }

  function Locked(s: State, t: Tid): State
    requires FindAt(s, t, Wants)
  {
    SetPhase(SetReq(s, s.finds[t].req, s.reqs[s.finds[t].req].(owner := Some(Finder(t)))), t, Holds)
  }

  /** The interrupt is noted, and the callback is looked up. */
  function Taken(s: State, t: Tid): State
    requires FindAt(s, t, Holds)
  {
    var c := s.finds[t].req;
    var s1 := SetReq(s, c, s.reqs[c].(interrupted := true));
    SetPast(SetPhase(s1, t, Took(s.reqs[c].func)), c, s.past[c].(noted := s.past[c].noted || c in s.live))
  }

  function CallMade(s: State, t: Tid): State
    requires t in s.finds && s.finds[t].phase.Took? && s.finds[t].req in s.past
  {
    SetPhase(Fire(s, s.finds[t].req, s.finds[t].phase.func.Some?), t, Called)
  }

  function Unlocked(s: State, t: Tid): State
    requires FindAt(s, t, Called)
  {
    SetPhase(SetReq(s, s.finds[t].req, s.reqs[s.finds[t].req].(owner := None)), t, Released)
  }

  function RegCalled(s: State, t: Tid, rid: Rid, func: Option<nat>): State
    requires rid in s.past
  {
    SetPast(s, rid, s.past[rid].(registered := s.past[rid].registered + 1))
      .(regs := s.regs[t := Reg(rid, func, RegWants)])
  }

  function RegLocked(s: State, t: Tid): State
    requires RegAt(s, t, RegWants)
  {
    SetRegPhase(SetReq(s, s.regs[t].req, s.reqs[s.regs[t].req].(owner := Some(Registrar(t)))), t, RegHolds)
  }

  function RegStored(s: State, t: Tid): State
    requires RegAt(s, t, RegHolds)
  {
    var c := s.regs[t].req;
    var s1 := SetReq(s, c, s.reqs[c].(func := s.regs[t].func));
    SetPast(SetRegPhase(s1, t, RegSet), c, s.past[c].(stored := s.past[c].stored || s.regs[t].func.Some?))
  }

  function RegCheckMade(s: State, t: Tid): State
    requires RegAt(s, t, RegSet)
  {
    SetRegPhase(Fire(s, s.regs[t].req, s.reqs[s.regs[t].req].interrupted && s.regs[t].func.Some?), t, RegChecked)
  }

  function RegUnlocked(s: State, t: Tid): State
    requires RegAt(s, t, RegChecked)
  {
    SetReq(s, s.regs[t].req, s.reqs[s.regs[t].req].(owner := None)).(regs := s.regs - {t})
  }

  ghost function Apply(s: State, op: Op): State
    requires Enabled(s, op)
  {
    match op
    case Arrive(rid, unique) => Arrived(s, rid, unique)
    case Interrupt(rid, unique, target, t) => Interrupted(s, rid, unique, target, t)
    case Lock(t) => Locked(s, t)
    case Take(t) => Taken(s, t)
    case Call(t) => CallMade(s, t)
    case Unlock(t) => Unlocked(s, t)
    case Finish(t) => Finished(s, t)
    case RegCall(t, rid, func) => RegCalled(s, t, rid, func)
    case RegLock(t) => RegLocked(s, t)
    case RegStore(t) => RegStored(s, t)
    case RegCheck(t) => RegCheckMade(s, t)
    case RegUnlock(t) => RegUnlocked(s, t)
    case Free(rid) => Freed(s, rid)
    case Reap(rid) => Destroy(s, rid).(doomed := s.doomed - {rid})
  }

  // ---------- what every step keeps ----------

  ghost function FindsOf(finds: map<Tid, Find>, rid: Rid): set<Tid> {
    set t | t in finds && finds[t].req == rid
  }

  ghost function OwnedBy(finds: map<Tid, Find>, rid: Rid): set<Tid> {
    set t | t in finds && finds[t].own == rid
  }

  function One(b: bool): nat {
    if b then 1 else 0
  }

  /** The references to a request: it is on a list, about to be answered, or in the hands of a thread. */
  ghost function Refs(s: State, rid: Rid): nat {
    One(rid in s.live) + One(rid in s.pending) + One(rid in s.bounced)
    + |FindsOf(s.finds, rid)| + |OwnedBy(s.finds, rid)|
  }

  /** Whatever is on a list or in the hands of a thread exists. */
  ghost predicate InUseExist(s: State) {
    && (forall rid :: rid in s.reqs ==> rid in s.past)
    && Distinct(s.live) && Distinct(s.pending)
    && (forall rid :: rid in s.live ==> rid in s.reqs && s.reqs[rid].target.None?)
    && (forall rid :: rid in s.pending || rid in s.bounced ==> rid in s.reqs && s.reqs[rid].target.Some?)
    && (forall t :: t in s.finds ==> s.finds[t].req in s.reqs && s.reqs[s.finds[t].req].target.None?
                                     && s.finds[t].own in s.reqs && s.reqs[s.finds[t].own].target.Some?)
    && (forall t :: t in s.regs ==> s.regs[t].req in s.live)
  }

  /** `ctr` counts the references, and an INTERRUPT has never more than one. */
  ghost predicate Counted(s: State) {
    && (forall rid :: rid in s.reqs ==> s.reqs[rid].ctr == Refs(s, rid))
    && (forall rid :: rid in s.reqs && s.reqs[rid].target.Some? ==> Refs(s, rid) <= 1)
    && (forall rid :: rid in s.doomed <==> rid in s.reqs && s.reqs[rid].ctr == 0)
  }

  /** A request is destroyed once, and then it is gone. */
  ghost predicate DestroyedOnce(s: State) {
    forall rid :: rid in s.past ==> s.past[rid].destroyed == if rid in s.reqs then 0 else 1
  }

  predicate HoldsLock(phase: FindPhase) {
    phase.Holds? || phase.Took? || phase.Called?
  }

  /** The mutex of a request is held by exactly the thread that its owner field names. */
  ghost predicate Locks(s: State) {
    && (forall t :: t in s.finds && s.finds[t].req in s.reqs ==>
          (HoldsLock(s.finds[t].phase) <==> s.reqs[s.finds[t].req].owner == Some(Finder(t))))
    && (forall t :: t in s.regs && s.regs[t].req in s.reqs ==>
          (!s.regs[t].phase.RegWants? <==> s.reqs[s.regs[t].req].owner == Some(Registrar(t))))
    && (forall rid :: rid in s.reqs && s.reqs[rid].owner.Some? ==>
          match s.reqs[rid].owner.value
          case Finder(t) => t in s.finds && s.finds[t].req == rid
          case Registrar(t) => t in s.regs && s.regs[t].req == rid)
  }

  /** A callback is about to be called by a thread that noted an interrupt. */
  ghost predicate CallDue(s: State, rid: Rid) {
    exists t :: t in s.finds && s.finds[t].req == rid && s.finds[t].phase.Took? && s.finds[t].phase.func.Some?
  }

  /** ... or by the thread that registers it. */
  ghost predicate CheckDue(s: State, rid: Rid) {
    && rid in s.reqs && s.reqs[rid].interrupted
    && exists t :: t in s.regs && s.regs[t].req == rid && s.regs[t].phase.RegSet? && s.regs[t].func.Some?
  }

  /** One thread at most is at work on the request in each role, and has not got further than the history says. */
  ghost predicate RolesOk(s: State, rid: Rid)
    requires rid in s.past
  {
    var h := s.past[rid];
    && (forall t1, t2 :: t1 in s.finds && t2 in s.finds && s.finds[t1].req == rid && s.finds[t2].req == rid ==>
           t1 == t2)
    && (forall t1, t2 :: t1 in s.regs && t2 in s.regs && s.regs[t1].req == rid && s.regs[t2].req == rid ==> t1 == t2)
    && (h.found == 0 ==> !h.noted && forall t :: t in s.finds ==> s.finds[t].req != rid)
    && (h.registered == 0 ==> !h.stored && forall t :: t in s.regs ==> s.regs[t].req != rid)
    && (forall t :: t in s.finds && s.finds[t].req == rid && (s.finds[t].phase.Wants? || s.finds[t].phase.Holds?) ==>
           !h.noted)
    && (forall t :: t in s.regs && s.regs[t].req == rid && (s.regs[t].phase.RegWants? || s.regs[t].phase.RegHolds?) ==>
           !h.stored)
  }

  /** The fields of the request agree with its history. */
  ghost predicate FieldsOk(s: State, rid: Rid)
    requires rid in s.past
  {
    var h := s.past[rid];
    rid in s.reqs ==>
      var r := s.reqs[rid];
      && (h.noted ==> r.interrupted) && (rid in s.live && r.interrupted ==> h.noted)
      && (r.func.Some? ==> h.stored && rid in s.live) && (rid in s.live && h.stored ==> r.func.Some?)
      && (r.interrupted ==> forall t :: t in s.finds && s.finds[t].req == rid ==>
             !(s.finds[t].phase.Wants? || s.finds[t].phase.Holds?))
  }

  /** The callback has been called, or is about to be, exactly if it was set and an interrupt noted. */
  ghost predicate FiresExactly(s: State, rid: Rid)
    requires rid in s.past
  {
    s.past[rid].fired + One(CallDue(s, rid)) + One(CheckDue(s, rid)) == One(s.past[rid].stored && s.past[rid].noted)
  }

  /** All this for a request whose callback is registered at most once and that is interrupted at most once. */
  ghost predicate FireOk(s: State, rid: Rid)
    requires rid in s.past
  {
    s.past[rid].registered <= 1 && s.past[rid].found <= 1 ==>
           RolesOk(s, rid) && FieldsOk(s, rid) && FiresExactly(s, rid)
  }

  ghost predicate Fires(s: State) {
    forall rid :: rid in s.past ==> FireOk(s, rid)
  }

  ghost predicate Inv(s: State) {
    InUseExist(s) && Counted(s) && DestroyedOnce(s) && Locks(s) && Fires(s)
  }

  // ---------- steps that move no reference ----------

  ghost predicate SameKeysAndRefs(s: State, s': State) {
    && s'.live == s.live && s'.pending == s.pending && s'.bounced == s.bounced && s'.doomed == s.doomed
    && s'.finds.Keys == s.finds.Keys
           && (forall t :: t in s.finds ==> s'.finds[t].req == s.finds[t].req && s'.finds[t].own == s.finds[t].own)
    && s'.reqs.Keys == s.reqs.Keys && s'.past.Keys == s.past.Keys
    && (forall rid :: rid in s.reqs ==>
           s'.reqs[rid].ctr == s.reqs[rid].ctr && s'.reqs[rid].target == s.reqs[rid].target)
    && (forall rid :: rid in s.past ==> s'.past[rid].destroyed == s.past[rid].destroyed)
    && (forall t :: t in s'.regs ==> s'.regs[t].req in s.live)
  }

  lemma RefsSame(s: State, s': State, rid: Rid)
    requires SameKeysAndRefs(s, s')
    ensures Refs(s', rid) == Refs(s, rid)
  {
    assert FindsOf(s'.finds, rid) == FindsOf(s.finds, rid);
    assert OwnedBy(s'.finds, rid) == OwnedBy(s.finds, rid);
  }

  lemma QuietKeeps(s: State, s': State)
    requires InUseExist(s) && Counted(s) && DestroyedOnce(s) && SameKeysAndRefs(s, s')
    ensures InUseExist(s') && Counted(s') && DestroyedOnce(s')
  {
    hide SameKeysAndRefs, InUseExist;
    hide Refs;
    forall rid | rid in s.reqs ensures Refs(s', rid) == Refs(s, rid) {
      RefsSame(s, s', rid);
    }
    QuietExist(s, s');
    assert Counted(s') by { QuietCounted(s, s'); }
  }

  lemma QuietExist(s: State, s': State)
    requires InUseExist(s) && DestroyedOnce(s) && SameKeysAndRefs(s, s')
    ensures InUseExist(s') && DestroyedOnce(s')
  {
  }

  lemma QuietCounted(s: State, s': State)
    requires Counted(s) && SameKeysAndRefs(s, s')
    requires forall rid :: rid in s.reqs ==> Refs(s', rid) == Refs(s, rid)
    ensures Counted(s')
  {
    hide Refs;
  }

  // ---------- callbacks are called once ----------

  /** For request `rid`, a step changed nothing that matters for its callback. */
  ghost predicate SameFor(s: State, s': State, rid: Rid)
    requires rid in s.past
  {
    && rid in s'.past && s'.past[rid] == s.past[rid].(destroyed := s'.past[rid].destroyed)
    && (rid in s'.reqs ==>
           rid in s.reqs && s'.reqs[rid].interrupted == s.reqs[rid].interrupted && s'.reqs[rid].func == s.reqs[rid].func
                           && (rid in s'.live <==> rid in s.live))
    && (forall t :: t in s'.finds && s'.finds[t].req == rid ==>
           t in s.finds && s.finds[t].req == rid && s'.finds[t].phase == s.finds[t].phase)
    && (forall t :: t in s.finds && s.finds[t].req == rid ==>
           t in s'.finds && s'.finds[t].req == rid && s'.finds[t].phase == s.finds[t].phase)
    && (forall t :: t in s'.regs && s'.regs[t].req == rid ==> t in s.regs && s'.regs[t] == s.regs[t])
    && (forall t :: t in s.regs && s.regs[t].req == rid ==> t in s'.regs && s'.regs[t] == s.regs[t] && rid in s'.reqs)
  }

  lemma SameFires(s: State, s': State, rid: Rid)
    requires rid in s.past && FireOk(s, rid) && SameFor(s, s', rid)
    ensures FireOk(s', rid)
  {
    assert CallDue(s', rid) == CallDue(s, rid);
    assert CheckDue(s', rid) == CheckDue(s, rid);
  }

  /** It is enough to look at the request that the step is about. */
  lemma FiresFrame(s: State, s': State, c: Rid)
    requires Fires(s) && (c in s'.past ==> FireOk(s', c))
    requires forall rid :: rid in s'.past && rid != c ==> rid in s.past && SameFor(s, s', rid)
    ensures Fires(s')
  {
    hide FireOk, SameFor;
    forall rid | rid in s'.past ensures FireOk(s', rid) {
      if rid != c {
        SameFires(s, s', rid);
      }
    }
  }

  /** How a step of thread `me` may change the mutex of its request. */
  predicate OwnerMove(owner: Option<Owner>, owner': Option<Owner>, me: Owner, holds': bool) {
    && (holds' <==> owner' == Some(me))
    && (owner' == owner || (owner == None && owner' == Some(me)) || (owner == Some(me) && owner' == None))
  }

  /** Fields of a request and of its history that no thread changes on its way. */
  predicate SameObject(r: Req, r': Req, h: History, h': History) {
    r'.ctr == r.ctr && r'.target == r.target && h'.destroyed == h.destroyed
  }

  /** One thread in `find_interrupted` has moved on. */
  ghost predicate FindMove(s: State, s': State, t: Tid) {
    && t in s.finds && t in s'.finds
    && var c := s.finds[t].req;
       && c in s.reqs && c in s'.reqs && c in s.past && c in s'.past
       && SameObject(s.reqs[c], s'.reqs[c], s.past[c], s'.past[c])
       && OwnerMove(s.reqs[c].owner, s'.reqs[c].owner, Finder(t), HoldsLock(s'.finds[t].phase))
       && s' == s.(reqs := s.reqs[c := s'.reqs[c]], past := s.past[c := s'.past[c]],
                   finds := s.finds[t := s.finds[t].(phase := s'.finds[t].phase)])
  }

  /** One thread in `fuse_req_interrupt_func` has begun, moved on, or returned. */
  ghost predicate RegMove(s: State, s': State, t: Tid, c: Rid) {
    && c in s.reqs && c in s'.reqs && c in s.past && c in s'.past && c in s.live
    && (t in s.regs ==> s.regs[t].req == c) && (t in s'.regs ==> s'.regs[t].req == c)
    && SameObject(s.reqs[c], s'.reqs[c], s.past[c], s'.past[c])
    && OwnerMove(s.reqs[c].owner, s'.reqs[c].owner, Registrar(t), t in s'.regs && !s'.regs[t].phase.RegWants?)
    && s' == s.(reqs := s.reqs[c := s'.reqs[c]], past := s.past[c := s'.past[c]],
                regs := if t in s'.regs then s.regs[t := s'.regs[t]] else s.regs - {t})
  }

  lemma FindMoveQuiet(s: State, s': State, t: Tid)
    requires InUseExist(s) && FindMove(s, s', t)
    ensures SameKeysAndRefs(s, s')
  {
  }

  lemma RegMoveQuiet(s: State, s': State, t: Tid, c: Rid)
    requires InUseExist(s) && RegMove(s, s', t, c)
    ensures SameKeysAndRefs(s, s')
  {
  }

  lemma FindMoveLocks(s: State, s': State, t: Tid)
    requires Locks(s) && FindMove(s, s', t)
    ensures Locks(s')
  {
  }

  lemma RegMoveLocks(s: State, s': State, t: Tid, c: Rid)
    requires Locks(s) && RegMove(s, s', t, c)
    ensures Locks(s')
  {
  }

  lemma FindMoveSame(s: State, s': State, t: Tid, rid: Rid)
    requires FindMove(s, s', t) && InUseExist(s) && rid in s.past && rid != s.finds[t].req
    ensures SameFor(s, s', rid)
  {
  }

  lemma RegMoveSame(s: State, s': State, t: Tid, c: Rid, rid: Rid)
    requires RegMove(s, s', t, c) && InUseExist(s) && rid in s.past && rid != c
    ensures SameFor(s, s', rid)
  {
  }

  lemma FindMoveKeeps(s: State, s': State, t: Tid)
    requires Inv(s) && FindMove(s, s', t) && FireOk(s', s.finds[t].req)
    ensures Inv(s')
  {
    hide InUseExist, Counted, DestroyedOnce, Locks, FireOk, SameKeysAndRefs, SameFor, OwnerMove;
    FindMoveQuiet(s, s', t);
    QuietKeeps(s, s');
    FindMoveLocks(s, s', t);
    forall rid | rid in s.past && rid != s.finds[t].req ensures SameFor(s, s', rid) {
      FindMoveSame(s, s', t, rid);
    }
    FiresFrame(s, s', s.finds[t].req);
  }

  lemma RegMoveKeeps(s: State, s': State, t: Tid, c: Rid)
    requires Inv(s) && RegMove(s, s', t, c) && FireOk(s', c)
    ensures Inv(s')
  {
    hide InUseExist, Counted, DestroyedOnce, Locks, FireOk, SameKeysAndRefs, SameFor, OwnerMove;
    RegMoveQuiet(s, s', t, c);
    QuietKeeps(s, s');
    RegMoveLocks(s, s', t, c);
    forall rid | rid in s.past && rid != c ensures SameFor(s, s', rid) {
      RegMoveSame(s, s', t, c, rid);
    }
    FiresFrame(s, s', c);
  }

  lemma LockFires(s: State, t: Tid)
    requires InUseExist(s) && Locks(s) && Fires(s) && FindAt(s, t, Wants) && s.reqs[s.finds[t].req].owner == None
    ensures FireOk(Locked(s, t), s.finds[t].req)
  {
    var c, s' := s.finds[t].req, Locked(s, t);
    assert FireOk(s, c);
    assert CallDue(s', c) == CallDue(s, c);
    assert CheckDue(s', c) == CheckDue(s, c);
  }

  lemma TakeFires(s: State, t: Tid)
    requires InUseExist(s) && Locks(s) && Fires(s) && FindAt(s, t, Holds)
    ensures FireOk(Taken(s, t), s.finds[t].req)
    ensures var c := s.finds[t].req;
            Taken(s, t).reqs[c].interrupted && Taken(s, t).finds[t].phase == Took(s.reqs[c].func)
  {
    var c, s' := s.finds[t].req, Taken(s, t);
    assert FireOk(s, c);
    if s.past[c].registered <= 1 && s.past[c].found <= 1 {
      assert !CallDue(s, c);
      assert CallDue(s', c) <==> s.reqs[c].func.Some? by {
        assert s'.finds[t].req == c && s'.finds[t].phase == Took(s.reqs[c].func);
      }
      assert !CheckDue(s', c);
    }
  }

  lemma CallFires(s: State, t: Tid)
    requires InUseExist(s) && Locks(s) && Fires(s) && t in s.finds && s.finds[t].phase.Took?
             && FindAt(s, t, s.finds[t].phase)
    ensures FireOk(CallMade(s, t), s.finds[t].req)
  {
    var c, s' := s.finds[t].req, CallMade(s, t);
    assert FireOk(s, c);
    if s.past[c].registered <= 1 && s.past[c].found <= 1 {
      assert CallDue(s, c) <==> s.finds[t].phase.func.Some?;
      assert !CallDue(s', c);
      assert CheckDue(s', c) == CheckDue(s, c);
    }
  }

  lemma UnlockFires(s: State, t: Tid)
    requires InUseExist(s) && Locks(s) && Fires(s) && FindAt(s, t, Called)
    ensures FireOk(Unlocked(s, t), s.finds[t].req)
  {
    var c, s' := s.finds[t].req, Unlocked(s, t);
    assert FireOk(s, c);
    assert CallDue(s', c) == CallDue(s, c);
    assert CheckDue(s', c) == CheckDue(s, c);
  }

  lemma RegCallFires(s: State, t: Tid, rid: Rid, func: Option<nat>)
    requires InUseExist(s) && Locks(s) && Fires(s) && t !in s.regs && rid in s.live && rid in s.past
    ensures FireOk(RegCalled(s, t, rid, func), rid)
  {
    var s' := RegCalled(s, t, rid, func);
    assert FireOk(s, rid);
    assert CallDue(s', rid) == CallDue(s, rid);
    assert forall u :: u in s.regs ==> u in s'.regs && s'.regs[u] == s.regs[u];
    assert CheckDue(s', rid) == CheckDue(s, rid);
  }

  lemma RegLockFires(s: State, t: Tid)
    requires InUseExist(s) && Locks(s) && Fires(s) && RegAt(s, t, RegWants) && s.reqs[s.regs[t].req].owner == None
    ensures FireOk(RegLocked(s, t), s.regs[t].req)
  {
    var c, s' := s.regs[t].req, RegLocked(s, t);
    assert FireOk(s, c);
    assert CallDue(s', c) == CallDue(s, c);
    assert CheckDue(s', c) == CheckDue(s, c);
  }

  lemma RegStoreFires(s: State, t: Tid)
    requires InUseExist(s) && Locks(s) && Fires(s) && RegAt(s, t, RegHolds)
    ensures FireOk(RegStored(s, t), s.regs[t].req)
  {
    var c, s' := s.regs[t].req, RegStored(s, t);
    assert FireOk(s, c);
    if s.past[c].registered <= 1 && s.past[c].found <= 1 {
      assert CallDue(s', c) == CallDue(s, c);
      assert !CheckDue(s, c);
      assert CheckDue(s', c) <==> s.reqs[c].interrupted && s.regs[t].func.Some? by {
        assert s'.regs[t].req == c && s'.regs[t].phase == RegSet && s'.regs[t].func == s.regs[t].func;
      }
    }
  }

  lemma RegCheckFires(s: State, t: Tid)
    requires InUseExist(s) && Locks(s) && Fires(s) && RegAt(s, t, RegSet)
    ensures FireOk(RegCheckMade(s, t), s.regs[t].req)
  {
    var c, s' := s.regs[t].req, RegCheckMade(s, t);
    assert FireOk(s, c);
    if s.past[c].registered <= 1 && s.past[c].found <= 1 {
      assert CallDue(s', c) == CallDue(s, c);
      assert CheckDue(s, c) <==> s.reqs[c].interrupted && s.regs[t].func.Some?;
      assert !CheckDue(s', c);
    }
  }

  lemma RegUnlockFires(s: State, t: Tid)
    requires InUseExist(s) && Locks(s) && Fires(s) && RegAt(s, t, RegChecked)
    ensures FireOk(RegUnlocked(s, t), s.regs[t].req)
  {
    var c, s' := s.regs[t].req, RegUnlocked(s, t);
    assert FireOk(s, c);
    assert CallDue(s', c) == CallDue(s, c);
    assert CheckDue(s', c) == CheckDue(s, c);
  }

  /** A thread past its wait for the mutex of its request has it. */
  lemma HasMutex(s: State, t: Tid)
    requires Locks(s)
    ensures t in s.finds && s.finds[t].req in s.reqs && HoldsLock(s.finds[t].phase) ==>
            s.reqs[s.finds[t].req].owner == Some(Finder(t))
    ensures t in s.regs && s.regs[t].req in s.reqs && !s.regs[t].phase.RegWants? ==>
            s.reqs[s.regs[t].req].owner == Some(Registrar(t))
  {
  }

  lemma RegLive(s: State, t: Tid)
    requires InUseExist(s)
    ensures t in s.regs ==> s.regs[t].req in s.live && s.regs[t].req in s.reqs
    ensures forall rid :: rid in s.live ==> rid in s.reqs
  {
  }

  lemma LockMoves(s: State, t: Tid)
    requires FindAt(s, t, Wants) && s.reqs[s.finds[t].req].owner == None
    ensures FindMove(s, Locked(s, t), t)
  {
  }

  lemma LockKeeps(s: State, t: Tid)
    requires Inv(s) && FindAt(s, t, Wants) && s.reqs[s.finds[t].req].owner == None
    ensures Inv(Locked(s, t))
  {
    hide InUseExist, Counted, DestroyedOnce, Locks, FireOk, Fires, FindMove, RegMove, Locked;
    HasMutex(s, t);
    LockFires(s, t);
    LockMoves(s, t);
    FindMoveKeeps(s, Locked(s, t), t);
  }

  lemma TakeMoves(s: State, t: Tid)
    requires FindAt(s, t, Holds)
    requires s.reqs[s.finds[t].req].owner == Some(Finder(t))
    ensures FindMove(s, Taken(s, t), t)
  {
  }

  lemma TakeKeeps(s: State, t: Tid)
    requires Inv(s) && FindAt(s, t, Holds)
    ensures Inv(Taken(s, t))
  {
    hide InUseExist, Counted, DestroyedOnce, Locks, FireOk, Fires, FindMove, RegMove, Taken;
    HasMutex(s, t);
    TakeFires(s, t);
    TakeMoves(s, t);
    FindMoveKeeps(s, Taken(s, t), t);
  }

  lemma CallMoves(s: State, t: Tid)
    requires t in s.finds && s.finds[t].phase.Took? && FindAt(s, t, s.finds[t].phase)
    requires s.reqs[s.finds[t].req].owner == Some(Finder(t))
    ensures FindMove(s, CallMade(s, t), t)
  {
  }

  lemma CallKeeps(s: State, t: Tid)
    requires Inv(s) && t in s.finds && s.finds[t].phase.Took? && FindAt(s, t, s.finds[t].phase)
    ensures Inv(CallMade(s, t))
  {
    hide InUseExist, Counted, DestroyedOnce, Locks, FireOk, Fires, FindMove, RegMove, CallMade;
    HasMutex(s, t);
    CallFires(s, t);
    CallMoves(s, t);
    FindMoveKeeps(s, CallMade(s, t), t);
  }

  lemma UnlockMoves(s: State, t: Tid)
    requires FindAt(s, t, Called)
    requires s.reqs[s.finds[t].req].owner == Some(Finder(t))
    ensures FindMove(s, Unlocked(s, t), t)
  {
  }

  lemma UnlockKeeps(s: State, t: Tid)
    requires Inv(s) && FindAt(s, t, Called)
    ensures Inv(Unlocked(s, t))
  {
    hide InUseExist, Counted, DestroyedOnce, Locks, FireOk, Fires, FindMove, RegMove, Unlocked;
    HasMutex(s, t);
    UnlockFires(s, t);
    UnlockMoves(s, t);
    FindMoveKeeps(s, Unlocked(s, t), t);
  }

  lemma RegLockMoves(s: State, t: Tid)
    requires RegAt(s, t, RegWants) && s.reqs[s.regs[t].req].owner == None
    requires s.regs[t].req in s.live
    ensures RegMove(s, RegLocked(s, t), t, s.regs[t].req)
  {
  }

  lemma RegLockKeeps(s: State, t: Tid)
    requires Inv(s) && RegAt(s, t, RegWants) && s.reqs[s.regs[t].req].owner == None
    ensures Inv(RegLocked(s, t))
  {
    hide InUseExist, Counted, DestroyedOnce, Locks, FireOk, Fires, FindMove, RegMove, RegLocked;
    HasMutex(s, t);
    RegLive(s, t);
    RegLockFires(s, t);
    RegLockMoves(s, t);
    RegMoveKeeps(s, RegLocked(s, t), t, s.regs[t].req);
  }

  lemma RegStoreMoves(s: State, t: Tid)
    requires RegAt(s, t, RegHolds)
    requires s.reqs[s.regs[t].req].owner == Some(Registrar(t))
    requires s.regs[t].req in s.live
    ensures RegMove(s, RegStored(s, t), t, s.regs[t].req)
  {
  }

  lemma RegStoreKeeps(s: State, t: Tid)
    requires Inv(s) && RegAt(s, t, RegHolds)
    ensures Inv(RegStored(s, t))
  {
    hide InUseExist, Counted, DestroyedOnce, Locks, FireOk, Fires, FindMove, RegMove, RegStored;
    HasMutex(s, t);
    RegLive(s, t);
    RegStoreFires(s, t);
    RegStoreMoves(s, t);
    RegMoveKeeps(s, RegStored(s, t), t, s.regs[t].req);
  }

  lemma RegCheckMoves(s: State, t: Tid)
    requires RegAt(s, t, RegSet)
    requires s.reqs[s.regs[t].req].owner == Some(Registrar(t))
    requires s.regs[t].req in s.live
    ensures RegMove(s, RegCheckMade(s, t), t, s.regs[t].req)
  {
  }

  lemma RegCheckKeeps(s: State, t: Tid)
    requires Inv(s) && RegAt(s, t, RegSet)
    ensures Inv(RegCheckMade(s, t))
  {
    hide InUseExist, Counted, DestroyedOnce, Locks, FireOk, Fires, FindMove, RegMove, RegCheckMade;
    HasMutex(s, t);
    RegLive(s, t);
    RegCheckFires(s, t);
    RegCheckMoves(s, t);
    RegMoveKeeps(s, RegCheckMade(s, t), t, s.regs[t].req);
  }

  lemma RegUnlockMoves(s: State, t: Tid)
    requires RegAt(s, t, RegChecked)
    requires s.reqs[s.regs[t].req].owner == Some(Registrar(t))
    requires s.regs[t].req in s.live
    ensures RegMove(s, RegUnlocked(s, t), t, s.regs[t].req)
  {
  }

  lemma RegUnlockKeeps(s: State, t: Tid)
    requires Inv(s) && RegAt(s, t, RegChecked)
    ensures Inv(RegUnlocked(s, t))
  {
    hide InUseExist, Counted, DestroyedOnce, Locks, FireOk, Fires, FindMove, RegMove, RegUnlocked;
    HasMutex(s, t);
    RegLive(s, t);
    RegUnlockFires(s, t);
    RegUnlockMoves(s, t);
    RegMoveKeeps(s, RegUnlocked(s, t), t, s.regs[t].req);
  }

  lemma RegCallMoves(s: State, t: Tid, rid: Rid, func: Option<nat>)
    requires t !in s.regs && rid in s.live && rid in s.past && rid in s.reqs && s.reqs[rid].owner != Some(Registrar(t))
    ensures RegMove(s, RegCalled(s, t, rid, func), t, rid)
  {
  }

  lemma NotOwner(s: State, t: Tid, rid: Rid)
    requires Locks(s) && t !in s.regs && rid in s.reqs
    ensures s.reqs[rid].owner != Some(Registrar(t))
  {
  }

  lemma RegCallKeeps(s: State, t: Tid, rid: Rid, func: Option<nat>)
    requires Inv(s) && t !in s.regs && rid in s.live && rid in s.past
    ensures Inv(RegCalled(s, t, rid, func))
  {
    hide InUseExist, Counted, DestroyedOnce, Locks, FireOk, Fires, RegMove, RegCalled;
    RegLive(s, t);
    NotOwner(s, t, rid);
    RegCallFires(s, t, rid, func);
    RegCallMoves(s, t, rid, func);
    RegMoveKeeps(s, RegCalled(s, t, rid, func), t, rid);
  }

  // ---------- steps that move references ----------

  lemma {:induction false} WithoutOne(list: seq<Rid>, rid: Rid)
    requires Distinct(list)
    ensures Distinct(Without(list, rid)) && (forall r :: r in Without(list, rid) <==> r in list && r != rid)
  {
    if list != [] {
      assert list == [list[0]] + list[1..];
      assert list[0] !in list[1..];
      WithoutOne(list[1..], rid);
    }
  }

  lemma CutAt(list: seq<Rid>, i: nat)
    requires Distinct(list) && i < |list|
    ensures Distinct(list[..i] + list[i + 1..])
            && (forall r :: r in list[..i] + list[i + 1..] <==> r in list && r != list[i])
  {
    var cut := list[..i] + list[i + 1..];
    assert forall j :: 0 <= j < |cut| ==> cut[j] == list[if j < i then j else j + 1];
    forall r | r in list && r != list[i] ensures r in cut {
      var j :| 0 <= j < |list| && list[j] == r;
      assert cut[if j < i then j else j - 1] == r;
    }
  }

  /** The references that the lists hold. */
  ghost function Listed(s: State, rid: Rid): nat {
    One(rid in s.live) + One(rid in s.pending) + One(rid in s.bounced)
  }

  lemma SameThreadsSameRefs(s: State, s': State, rid: Rid)
    requires s'.finds == s.finds
    ensures Refs(s', rid) == Refs(s, rid) - Listed(s, rid) + Listed(s', rid)
  {
  }

  lemma FreeMoves(s: State, rid: Rid)
    requires InUseExist(s) && rid in s.reqs && (rid in s.bounced || rid in s.live)
    ensures var s' := Freed(s, rid);
            && (forall r :: r in s'.live <==> r in s.live && r != rid) && Distinct(s'.live)
            && (forall r :: Refs(s', r) == Refs(s, r) - One(r == rid))
            && !(rid in s.bounced && rid in s.live)
  {
    var s' := Freed(s, rid);
    WithoutOne(s.live, rid);
    forall r ensures Refs(s', r) == Refs(s, r) - One(r == rid) {
      SameThreadsSameRefs(s, s', r);
    }
  }

  lemma FreeExist(s: State, rid: Rid)
    requires InUseExist(s) && DestroyedOnce(s) && Enabled(s, Free(rid))
    ensures InUseExist(Freed(s, rid)) && DestroyedOnce(Freed(s, rid))
  {
    hide Refs, Without;
    FreeMoves(s, rid);
  }

  lemma FreeCounted(s: State, s': State, rid: Rid)
    requires Counted(s) && rid in s.reqs && s' == Freed(s, rid)
    requires forall r :: Refs(s', r) == Refs(s, r) - One(r == rid)
    ensures Counted(s')
  {
    hide Refs, Without;
  }

  lemma FreeLocks(s: State, rid: Rid)
    requires Locks(s) && Enabled(s, Free(rid))
    ensures Locks(Freed(s, rid))
  {
    hide Without;
  }

  lemma FreeFires(s: State, rid: Rid)
    requires InUseExist(s) && Fires(s) && Enabled(s, Free(rid))
    ensures FireOk(Freed(s, rid), rid)
  {
    hide Refs, Without;
    var s' := Freed(s, rid);
    FreeMoves(s, rid);
    assert FireOk(s, rid);
    assert CallDue(s', rid) == CallDue(s, rid);
    assert !CheckDue(s, rid) && !CheckDue(s', rid);
  }

  lemma FreeSame(s: State, rid: Rid, r: Rid)
    requires InUseExist(s) && Enabled(s, Free(rid)) && r in s.past && r != rid
    ensures SameFor(s, Freed(s, rid), r)
  {
    hide Refs, Without;
    FreeMoves(s, rid);
  }

  lemma FreeKeeps(s: State, rid: Rid)
    requires Inv(s) && Enabled(s, Free(rid))
    ensures Inv(Freed(s, rid))
  {
    hide InUseExist, Counted, DestroyedOnce, Locks, FireOk, SameFor, Without;
    FreeExist(s, rid);
    FreeMoves(s, rid);
    FreeCounted(s, Freed(s, rid), rid);
    FreeLocks(s, rid);
    FreeFires(s, rid);
    forall r | r in s.past && r != rid ensures SameFor(s, Freed(s, rid), r) {
      FreeSame(s, rid, r);
    }
    FiresFrame(s, Freed(s, rid), rid);
  }

  lemma NoRefsUnused(s: State, rid: Rid)
    requires Refs(s, rid) == 0
    ensures Unused(s, rid)
  {
    forall t | t in s.finds ensures s.finds[t].req != rid && s.finds[t].own != rid {
      assert t !in FindsOf(s.finds, rid) && t !in OwnedBy(s.finds, rid);
    }
  }

  /** A request without references is in nobody's way. */
  ghost predicate Unused(s: State, rid: Rid) {
    && rid !in s.live && rid !in s.pending && rid !in s.bounced
    && (forall t :: t in s.finds ==> s.finds[t].req != rid && s.finds[t].own != rid)
  }

  lemma UnusedExist(s: State, s': State, rid: Rid)
    requires InUseExist(s) && DestroyedOnce(s) && Unused(s, rid) && rid in s.reqs
    requires s' == Destroy(s, rid).(doomed := s'.doomed)
    ensures InUseExist(s') && DestroyedOnce(s')
  {
  }

  lemma UnusedLocks(s: State, s': State, rid: Rid)
    requires Locks(s) && s' == Destroy(s, rid).(doomed := s'.doomed)
    ensures Locks(s')
  {
  }

  lemma UnusedSame(s: State, s': State, rid: Rid, r: Rid)
    requires InUseExist(s) && Unused(s, rid) && s' == Destroy(s, rid).(doomed := s'.doomed) && r in s.past
    ensures SameFor(s, s', r)
  {
  }

  lemma UnusedFires(s: State, s': State, rid: Rid)
    requires InUseExist(s) && Fires(s) && Unused(s, rid) && s' == Destroy(s, rid).(doomed := s'.doomed)
    ensures Fires(s')
  {
    hide InUseExist, FireOk, SameFor, Unused;
    forall r | r in s.past ensures FireOk(s', r) {
      UnusedSame(s, s', rid, r);
      SameFires(s, s', r);
    }
  }

  lemma ReapCounted(s: State, rid: Rid)
    requires Counted(s) && Enabled(s, Reap(rid))
    ensures Counted(Apply(s, Reap(rid)))
  {
    hide Refs;
    var s' := Apply(s, Reap(rid));
    forall r ensures Refs(s', r) == Refs(s, r) {
      SameThreadsSameRefs(s, s', r);
    }
  }

  lemma ReapKeeps(s: State, rid: Rid)
    requires Inv(s) && Enabled(s, Reap(rid))
    ensures Inv(Apply(s, Reap(rid)))
  {
    hide InUseExist, DestroyedOnce, Locks, FireOk, SameFor, Refs;
    var s' := Apply(s, Reap(rid));
    NoRefsUnused(s, rid);
    UnusedExist(s, s', rid);
    UnusedLocks(s, s', rid);
    UnusedFires(s, s', rid);
    ReapCounted(s, rid);
  }

  // the last section of find_interrupted

  /** The thread has let go of the request and of the INTERRUPT. */
  function Dropped(s: State, t: Tid): State
    requires t in s.finds && s.finds[t].req in s.reqs
  {
    var c := s.finds[t].req;
    SetReq(s.(finds := s.finds - {t}), c, s.reqs[c].(ctr := s.reqs[c].ctr - 1))
  }

  lemma DroppedRefs(s: State, t: Tid)
    requires InUseExist(s) && t in s.finds
    ensures var f := s.finds[t];
            && f.req != f.own && f.req in s.reqs && f.own in s.reqs && s.reqs[f.own].target.Some?
                   && s.reqs[f.req].target.None?
            && forall r :: Refs(Dropped(s, t), r) == Refs(s, r) - One(r == f.req) - One(r == f.own)
  {
    var s', f := Dropped(s, t), s.finds[t];
    forall r ensures Refs(s', r) == Refs(s, r) - One(r == f.req) - One(r == f.own) {
      assert FindsOf(s'.finds, r) == FindsOf(s.finds, r) - {t};
      assert OwnedBy(s'.finds, r) == OwnedBy(s.finds, r) - {t};
      assert t in FindsOf(s.finds, r) <==> r == f.req;
      assert t in OwnedBy(s.finds, r) <==> r == f.own;
    }
  }

  lemma DroppedExist(s: State, t: Tid)
    requires InUseExist(s) && DestroyedOnce(s) && Enabled(s, Finish(t))
    ensures InUseExist(Dropped(s, t)) && DestroyedOnce(Dropped(s, t))
  {
  }

  lemma DroppedLocks(s: State, t: Tid)
    requires Locks(s) && Enabled(s, Finish(t))
    ensures Locks(Dropped(s, t))
  {
  }

  lemma DroppedSame(s: State, t: Tid, r: Rid)
    requires InUseExist(s) && Enabled(s, Finish(t)) && r in s.past && r != s.finds[t].req
    ensures SameFor(s, Dropped(s, t), r)
  {
  }

  lemma DroppedFireOk(s: State, t: Tid)
    requires InUseExist(s) && Fires(s) && Enabled(s, Finish(t))
    ensures FireOk(Dropped(s, t), s.finds[t].req)
  {
    var c, s' := s.finds[t].req, Dropped(s, t);
    assert FireOk(s, c);
    assert forall u :: u in s.finds && u != t ==> u in s'.finds && s'.finds[u] == s.finds[u];
    assert CallDue(s', c) == CallDue(s, c);
    assert CheckDue(s', c) == CheckDue(s, c);
  }

  lemma DroppedFires(s: State, t: Tid)
    requires InUseExist(s) && Fires(s) && Enabled(s, Finish(t))
    ensures Fires(Dropped(s, t))
  {
    hide InUseExist, FireOk, SameFor;
    DroppedFireOk(s, t);
    forall r | r in s.past && r != s.finds[t].req ensures SameFor(s, Dropped(s, t), r) {
      DroppedSame(s, t, r);
    }
    FiresFrame(s, Dropped(s, t), s.finds[t].req);
  }

  lemma CountsLeft(s: State, s': State, c: Rid, own: Rid)
    requires Counted(s) && c in s.reqs && own in s.reqs && own != c && s.reqs[own].target.Some?
             && s.reqs[c].target.None?
    requires forall r :: Refs(s', r) == Refs(s, r) - One(r == c) - One(r == own)
    requires s'.doomed == s.doomed
    requires s'.reqs == s.reqs[c := s.reqs[c].(ctr := s.reqs[c].ctr - 1)]
                        - (if s.reqs[c].ctr == 1 then {c, own} else {own})
    ensures Counted(s')
  {
    hide Refs;
    assert Refs(s', c) == Refs(s, c) - 1 && Refs(s', own) == Refs(s, own) - 1;
  }

  /** What is left of the counts when the request, if it was the last reference, and the INTERRUPT are gone. */
  lemma FinishCounted(s: State, s': State, t: Tid)
    requires InUseExist(s) && Counted(s) && Enabled(s, Finish(t)) && s' == Finished(s, t)
    ensures Counted(s')
  {
    hide InUseExist, Counted, Refs;
    var f := s.finds[t];
    DroppedRefs(s, t);
    forall r ensures Refs(s', r) == Refs(s, r) - One(r == f.req) - One(r == f.own) {
      assert Refs(Dropped(s, t), r) == Refs(s, r) - One(r == f.req) - One(r == f.own);
      SameThreadsSameRefs(Dropped(s, t), s', r);
    }
    CountsLeft(s, s', f.req, f.own);
  }

  lemma FinishUnused(s: State, t: Tid)
    requires InUseExist(s) && Counted(s) && Enabled(s, Finish(t))
    ensures Unused(Dropped(s, t), s.finds[t].own) && s.finds[t].own in Dropped(s, t).reqs
    ensures Dropped(s, t).reqs[s.finds[t].req].ctr == 0 ==> Unused(Dropped(s, t), s.finds[t].req)
    ensures s.finds[t].own != s.finds[t].req
  {
    hide InUseExist, Refs, Unused;
    var s1, f := Dropped(s, t), s.finds[t];
    DroppedRefs(s, t);
    NoRefsUnused(s1, f.own);
    if s1.reqs[f.req].ctr == 0 {
      NoRefsUnused(s1, f.req);
    }
  }

  lemma StillUnused(s: State, rid: Rid, r: Rid)
    requires Unused(s, r)
    ensures Unused(Destroy(s, rid), r)
  {
  }

  lemma FinishKeeps(s: State, t: Tid)
    requires Inv(s) && Enabled(s, Finish(t))
    ensures Inv(Finished(s, t))
  {
    hide InUseExist, Counted, DestroyedOnce, Locks, FireOk, Fires, SameFor, Unused, Refs;
    var s1, f := Dropped(s, t), s.finds[t];
    FinishUnused(s, t);
    FinishCounted(s, Finished(s, t), t);
    DroppedExist(s, t);
    DroppedLocks(s, t);
    DroppedFires(s, t);
    var s2 := if s1.reqs[f.req].ctr == 0 then Destroy(s1, f.req) else s1;
    if s1.reqs[f.req].ctr == 0 {
      UnusedExist(s1, s2, f.req);
      UnusedLocks(s1, s2, f.req);
      UnusedFires(s1, s2, f.req);
      StillUnused(s1, f.req, f.own);
    }
    UnusedExist(s2, Finished(s, t), f.own);
    UnusedLocks(s2, Finished(s, t), f.own);
    UnusedFires(s2, Finished(s, t), f.own);
  }

  // a request arrives

  lemma CheckedRefs(s: State, unique: nat)
    requires InUseExist(s)
    ensures var s', i := Checked(s, unique), FirstPending(s.reqs, s.pending, unique);
            if Hit(s, unique)
            then s.pending[i] in s.reqs && s.reqs[s.pending[i]].target.Some? && Distinct(s'.pending)
                 && (forall r :: r in s'.pending <==> r in s.pending && r != s.pending[i])
                 && (forall r :: Refs(s', r) == Refs(s, r) - One(r == s.pending[i]))
            else forall r :: r in s'.pending ==> r in s.pending
  {
    var s', i := Checked(s, unique), FirstPending(s.reqs, s.pending, unique);
    if Hit(s, unique) {
      CutAt(s.pending, i);
      forall r ensures Refs(s', r) == Refs(s, r) - One(r == s.pending[i]) {
        SameThreadsSameRefs(s, s', r);
      }
    }
  }

  lemma BouncedRefs(s: State)
    requires InUseExist(s) && Counted(s) && s.pending != []
    ensures var s' := s.(pending := s.pending[1..], bounced := s.bounced + {s.pending[0]});
            && Distinct(s'.pending) && s.pending[0] in s.pending && (forall r :: r in s'.pending ==> r in s.pending)
            && forall r :: Refs(s', r) == Refs(s, r)
  {
    var s' := s.(pending := s.pending[1..], bounced := s.bounced + {s.pending[0]});
    var c := s.pending[0];
    assert s.pending == [c] + s'.pending;
    assert Refs(s, c) <= 1;
    forall r ensures Refs(s', r) == Refs(s, r) {
      SameThreadsSameRefs(s, s', r);
    }
  }

  lemma OneLessCounted(s: State, s': State, c: Rid)
    requires Counted(s) && c in s.reqs && s.reqs[c].target.Some?
    requires forall r :: Refs(s', r) == Refs(s, r) - One(r == c)
    requires s'.doomed == s.doomed && s'.reqs == s.reqs - {c}
    ensures Counted(s') && Refs(s', c) == 0
  {
    hide Refs;
    assert Refs(s', c) == Refs(s, c) - 1;
  }

  lemma SameCounted(s: State, s': State)
    requires Counted(s) && s'.doomed == s.doomed && s'.reqs == s.reqs
    requires forall r :: Refs(s', r) == Refs(s, r)
    ensures Counted(s')
  {
    hide Refs;
  }

  lemma HitKeeps(s: State, unique: nat)
    requires Inv(s) && Hit(s, unique)
    ensures Inv(Checked(s, unique))
  {
    hide Counted, DestroyedOnce, Locks, FireOk, Fires, SameFor, Refs, Unused;
    var s', c := Checked(s, unique), s.pending[FirstPending(s.reqs, s.pending, unique)];
    var s1 := s.(pending := s'.pending);
    CheckedRefs(s, unique);
    OneLessCounted(s, s', c);
    NoRefsUnused(s', c);
    assert InUseExist(s1);
    PendingMatters(s, s1);
    assert Unused(s1, c) by { UnusedBefore(s1, c); }
    UnusedExist(s1, s', c);
    UnusedLocks(s1, s', c);
    UnusedFires(s1, s', c);
  }

  lemma UnusedBefore(s: State, c: Rid)
    requires Unused(Destroy(s, c), c)
    ensures Unused(s, c)
  {
  }

  /** Which INTERRUPTs are pending or bounced does not matter to mutexes and callbacks. */
  lemma PendingMatters(s: State, s': State)
    requires InUseExist(s) && s' == s.(pending := s'.pending, bounced := s'.bounced)
    ensures DestroyedOnce(s) ==> DestroyedOnce(s')
    ensures Locks(s) ==> Locks(s')
    ensures Fires(s) ==> Fires(s')
  {
    if Fires(s) {
      hide FireOk, SameFor, InUseExist;
      forall r | r in s.past ensures FireOk(s', r) {
        PendingSame(s, s', r);
        SameFires(s, s', r);
      }
    }
  }

  lemma PendingSame(s: State, s': State, r: Rid)
    requires InUseExist(s) && s' == s.(pending := s'.pending, bounced := s'.bounced) && r in s.past
    ensures SameFor(s, s', r)
  {
  }

  lemma BounceKeeps(s: State, unique: nat)
    requires Inv(s) && !Hit(s, unique) && s.pending != []
    ensures Inv(Checked(s, unique))
  {
    hide DestroyedOnce, Locks, FireOk, Fires, Refs;
    var s' := Checked(s, unique);
    BouncedRefs(s);
    PendingMatters(s, s');
    assert InUseExist(s');
    SameCounted(s, s');
  }

  lemma CheckedKeeps(s: State, unique: nat)
    requires Inv(s)
    ensures Inv(Checked(s, unique)) && Checked(s, unique).past.Keys == s.past.Keys
  {
    hide InUseExist, Counted, DestroyedOnce, Locks, Fires;
    if Hit(s, unique) {
      HitKeeps(s, unique);
    } else if s.pending != [] {
      BounceKeeps(s, unique);
    }
  }

  /** Nothing refers to an address that was never used. */
  lemma FreshUnused(s: State, rid: Rid)
    requires InUseExist(s) && Locks(s) && rid !in s.past
    ensures Unused(s, rid) && Refs(s, rid) == 0 && rid !in s.reqs
    ensures forall t :: t in s.regs ==> s.regs[t].req != rid
  {
    assert FindsOf(s.finds, rid) == {} && OwnedBy(s.finds, rid) == {};
  }

  lemma AddedCounted(s: State, s': State, rid: Rid)
    requires Counted(s) && rid !in s.reqs && rid in s'.reqs && Refs(s, rid) == 0
    requires forall r :: Refs(s', r) == Refs(s, r) + One(r == rid)
    requires s'.doomed == s.doomed && s'.reqs == s.reqs[rid := s'.reqs[rid]] && s'.reqs[rid].ctr == 1
    ensures Counted(s')
  {
    hide Refs;
  }

  lemma AddedLocks(s: State, s': State, rid: Rid)
    requires InUseExist(s) && Locks(s) && rid !in s.reqs && rid in s'.reqs && s'.reqs[rid].owner.None?
    requires s'.reqs == s.reqs[rid := s'.reqs[rid]] && s'.finds == s.finds && s'.regs == s.regs
    ensures Locks(s')
  {
  }

  lemma AddedSame(s: State, s': State, rid: Rid, r: Rid)
    requires InUseExist(s) && r in s.past && r != rid && rid in s'.reqs && rid in s'.past
    requires s'.reqs == s.reqs[rid := s'.reqs[rid]] && s'.finds == s.finds && s'.regs == s.regs
             && s'.past == s.past[rid := s'.past[rid]]
    requires r in s'.live <==> r in s.live
    ensures SameFor(s, s', r)
  {
  }

  /** A request that is new has not called back yet. */
  lemma NewFireOk(s: State, rid: Rid)
    requires rid in s.past && rid in s.reqs
    requires forall t :: t in s.finds ==> s.finds[t].req != rid
    requires forall t :: t in s.regs ==> s.regs[t].req != rid
    requires s.past[rid] == NEW || (rid in s.live && s.past[rid] == NEW.(found := 1, noted := true))
    requires s.reqs[rid].func.None? && s.reqs[rid].interrupted == s.past[rid].noted
    ensures FireOk(s, rid)
  {
    assert !CallDue(s, rid) && !CheckDue(s, rid);
  }

  lemma UnusedUnlisted(s: State, rid: Rid)
    requires Unused(s, rid)
    ensures rid !in s.live && rid !in s.pending && rid !in s.bounced
    ensures forall t :: t in s.finds ==> s.finds[t].req != rid
  {
  }

  lemma ListedExist(s: State, rid: Rid, r: Req, h: History)
    requires InUseExist(s) && DestroyedOnce(s) && rid !in s.past && r.target.None? && h.destroyed == 0
    ensures var s' := Added(s, rid, r, h).(live := s.live + [rid]); InUseExist(s') && DestroyedOnce(s')
  {
  }

  lemma PendingExist(s: State, rid: Rid, r: Req)
    requires InUseExist(s) && DestroyedOnce(s) && rid !in s.past && r.target.Some?
    ensures var s' := Added(s, rid, r, NEW).(pending := s.pending + [rid]); InUseExist(s') && DestroyedOnce(s')
  {
  }

  lemma ListedKeeps(s: State, rid: Rid, r: Req, h: History)
    requires Inv(s) && rid !in s.past && r.ctr == 1 && r.target.None? && r.func.None? && r.owner.None?
             && r.interrupted == h.noted
    requires h == NEW || h == NEW.(found := 1, noted := true)
    ensures Inv(Added(s, rid, r, h).(live := s.live + [rid]))
  {
    hide Counted, Locks, Fires, FireOk, SameFor, Refs, InUseExist, DestroyedOnce, Unused;
    var s' := Added(s, rid, r, h).(live := s.live + [rid]);
    FreshUnused(s, rid);
    forall c ensures Refs(s', c) == Refs(s, c) + One(c == rid) {
      UnusedUnlisted(s, rid);
      SameThreadsSameRefs(s, s', c);
    }
    ListedExist(s, rid, r, h);
    AddedCounted(s, s', rid);
    AddedLocks(s, s', rid);
    UnusedUnlisted(s, rid);
    NewFireOk(s', rid);
    forall c | c in s.past && c != rid ensures SameFor(s, s', c) {
      AddedSame(s, s', rid, c);
    }
    FiresFrame(s, s', rid);
  }

  lemma ArriveKeeps(s: State, rid: Rid, unique: nat)
    requires Inv(s) && rid !in s.past
    ensures Inv(Arrived(s, rid, unique))
  {
    hide Inv;
    CheckedKeeps(s, unique);
    var hit := Hit(s, unique);
    LiveStays(s, unique);
    ListedKeeps(Checked(s, unique), rid, Req(unique, 1, hit, None, None, None),
           NEW.(found := if hit then 1 else 0, noted := hit));
  }

  lemma LiveStays(s: State, unique: nat)
    ensures Checked(s, unique).live == s.live
  {
  }

  // an INTERRUPT arrives

  lemma PendKeeps(s: State, rid: Rid, r: Req)
    requires Inv(s) && rid !in s.past && r.ctr == 1 && r.target.Some? && r.func.None? && r.owner.None? && !r.interrupted
    ensures Inv(Added(s, rid, r, NEW).(pending := s.pending + [rid]))
  {
    hide Counted, Locks, Fires, FireOk, SameFor, Refs, InUseExist, DestroyedOnce, Unused;
    var s' := Added(s, rid, r, NEW).(pending := s.pending + [rid]);
    FreshUnused(s, rid);
    forall c ensures Refs(s', c) == Refs(s, c) + One(c == rid) {
      UnusedUnlisted(s, rid);
      SameThreadsSameRefs(s, s', c);
    }
    PendingExist(s, rid, r);
    AddedCounted(s, s', rid);
    AddedLocks(s, s', rid);
    UnusedUnlisted(s, rid);
    NewFireOk(s', rid);
    forall c | c in s.past && c != rid ensures SameFor(s, s', c) {
      AddedSame(s, s', rid, c);
    }
    FiresFrame(s, s', rid);
  }

  /** An INTERRUPT for a request that has one pending is dropped. */
  lemma DropKeeps(s: State, rid: Rid, r: Req)
    requires Inv(s) && rid !in s.past && r.func.None? && !r.interrupted
    ensures Inv(Destroy(Added(s, rid, r, NEW), rid))
  {
    hide Counted, Fires, FireOk, SameFor, Refs, InUseExist, DestroyedOnce, Locks, Unused;
    var s' := Destroy(Added(s, rid, r, NEW), rid);
    FreshUnused(s, rid);
    assert s'.reqs == s.reqs;
    forall c ensures Refs(s', c) == Refs(s, c) {
      SameThreadsSameRefs(s, s', c);
    }
    SameCounted(s, s');
    GoneExist(s, s', rid);
    UnusedUnlisted(s, rid);
    GoneFireOk(s', rid);
    forall c | c in s.past && c != rid ensures SameFor(s, s', c) {
      PastSame(s, s', rid, c);
    }
    FiresFrame(s, s', rid);
  }

  lemma GoneExist(s: State, s': State, rid: Rid)
    requires InUseExist(s) && DestroyedOnce(s) && Locks(s) && rid !in s.reqs
             && s' == s.(past := s.past[rid := NEW.(destroyed := 1)])
    ensures InUseExist(s') && DestroyedOnce(s') && Locks(s')
  {
  }

  lemma PastSame(s: State, s': State, rid: Rid, c: Rid)
    requires InUseExist(s) && rid in s'.past && s' == s.(past := s.past[rid := s'.past[rid]]) && c in s.past && c != rid
    ensures SameFor(s, s', c)
  {
  }

  lemma GoneFireOk(s: State, rid: Rid)
    requires rid in s.past && rid !in s.reqs && s.past[rid] == NEW.(destroyed := 1)
    requires forall t :: t in s.finds ==> s.finds[t].req != rid
    requires forall t :: t in s.regs ==> s.regs[t].req != rid
    ensures FireOk(s, rid)
  {
    assert !CallDue(s, rid) && !CheckDue(s, rid);
  }

  lemma FoundRefs(s: State, s': State, c: Rid, rid: Rid, t: Tid)
    requires t !in s.finds && s'.finds == s.finds[t := Find(c, rid, Wants)]
    requires s'.live == s.live && s'.pending == s.pending && s'.bounced == s.bounced
    ensures forall r :: Refs(s', r) == Refs(s, r) + One(r == c) + One(r == rid)
  {
    hide FindsOf, OwnedBy;
    forall r ensures Refs(s', r) == Refs(s, r) + One(r == c) + One(r == rid) {
      OneMoreFind(s.finds, t, Find(c, rid, Wants), r);
      OneMoreOwned(s.finds, t, Find(c, rid, Wants), r);
    }
  }

  lemma OneMoreFind(finds: map<Tid, Find>, t: Tid, f: Find, r: Rid)
    requires t !in finds
    ensures |FindsOf(finds[t := f], r)| == |FindsOf(finds, r)| + One(r == f.req)
  {
    if r == f.req {
      assert FindsOf(finds[t := f], r) == FindsOf(finds, r) + {t};
    } else {
      assert FindsOf(finds[t := f], r) == FindsOf(finds, r);
    }
  }

  lemma OneMoreOwned(finds: map<Tid, Find>, t: Tid, f: Find, r: Rid)
    requires t !in finds
    ensures |OwnedBy(finds[t := f], r)| == |OwnedBy(finds, r)| + One(r == f.own)
  {
    if r == f.own {
      assert OwnedBy(finds[t := f], r) == OwnedBy(finds, r) + {t};
    } else {
      assert OwnedBy(finds[t := f], r) == OwnedBy(finds, r);
    }
  }

  lemma FoundCounted(s: State, s': State, c: Rid, rid: Rid, r: Req)
    requires Counted(s) && rid !in s.reqs && Refs(s, rid) == 0 && c in s.reqs && s.reqs[c].target.None? && r.ctr == 1
             && Refs(s, c) > 0
    requires forall x :: Refs(s', x) == Refs(s, x) + One(x == c) + One(x == rid)
    requires s'.doomed == s.doomed && s'.reqs == s.reqs[rid := r][c := s.reqs[c].(ctr := s.reqs[c].ctr + 1)]
    ensures Counted(s')
  {
    hide Refs;
  }

  lemma FoundExist(s: State, c: Rid, rid: Rid, r: Req, t: Tid)
    requires InUseExist(s) && DestroyedOnce(s) && c in s.live && rid !in s.past && t !in s.finds && r.target.Some?
    ensures var s' := Found(Added(s, rid, r, NEW), c, rid, t); InUseExist(s') && DestroyedOnce(s')
  {
  }

  lemma FoundLocks(s: State, c: Rid, rid: Rid, r: Req, t: Tid)
    requires InUseExist(s) && Locks(s) && c in s.live && rid !in s.past && t !in s.finds && r.owner.None?
    ensures Locks(Found(Added(s, rid, r, NEW), c, rid, t))
  {
  }

  lemma FoundFireOk(s: State, c: Rid, rid: Rid, r: Req, t: Tid)
    requires InUseExist(s) && Fires(s) && c in s.live && rid !in s.past && t !in s.finds
    ensures FireOk(Found(Added(s, rid, r, NEW), c, rid, t), c)
  {
    var s' := Found(Added(s, rid, r, NEW), c, rid, t);
    assert FireOk(s, c);
    assert forall u :: u in s.finds ==> u in s'.finds && s'.finds[u] == s.finds[u];
    assert CallDue(s', c) == CallDue(s, c);
    assert CheckDue(s', c) == CheckDue(s, c);
  }

  lemma FoundSame(s: State, c: Rid, rid: Rid, r: Req, t: Tid, x: Rid)
    requires InUseExist(s) && c in s.live && rid !in s.past && t !in s.finds && x in s.past && x != c
    ensures SameFor(s, Found(Added(s, rid, r, NEW), c, rid, t), x)
  {
  }

  lemma FoundNew(s: State, c: Rid, rid: Rid, r: Req, t: Tid)
    requires InUseExist(s) && Locks(s) && c in s.live && rid !in s.past && t !in s.finds && r.func.None?
             && !r.interrupted
    ensures FireOk(Found(Added(s, rid, r, NEW), c, rid, t), rid)
  {
    hide FireOk;
    FreshUnused(s, rid);
    NewFireOk(Found(Added(s, rid, r, NEW), c, rid, t), rid);
  }

  lemma LiveHasRefs(s: State, c: Rid)
    requires InUseExist(s) && c in s.live
    ensures Refs(s, c) > 0 && c in s.reqs && s.reqs[c].target.None? && c in s.past
  {
  }

  lemma FoundKeeps(s: State, c: Rid, rid: Rid, r: Req, t: Tid)
    requires Inv(s) && c in s.live && rid !in s.past && t !in s.finds
    requires r.ctr == 1 && r.target.Some? && r.func.None? && r.owner.None? && !r.interrupted
    ensures c in s.reqs && Inv(Found(Added(s, rid, r, NEW), c, rid, t))
  {
    hide InUseExist, DestroyedOnce, Counted, Locks, Fires, FireOk, SameFor, Refs;
    LiveHasRefs(s, c);
    FreshUnused(s, rid);
    var s' := Found(Added(s, rid, r, NEW), c, rid, t);
    FoundRefs(s, s', c, rid, t);
    FoundCounted(s, s', c, rid, r);
    FoundExist(s, c, rid, r, t);
    FoundLocks(s, c, rid, r, t);
    FoundFires(s, s', c, rid, r, t);
  }

  lemma FoundFires(s: State, s': State, c: Rid, rid: Rid, r: Req, t: Tid)
    requires InUseExist(s) && Locks(s) && Fires(s) && c in s.live && c in s.reqs && rid !in s.past && t !in s.finds
    requires r.func.None? && !r.interrupted && s' == Found(Added(s, rid, r, NEW), c, rid, t)
    ensures Fires(s')
  {
    hide InUseExist, Locks, FireOk, SameFor;
    FoundFireOk(s, c, rid, r, t);
    FoundNew(s, c, rid, r, t);
    forall x | x in s'.past ensures FireOk(s', x) {
      if x != c && x != rid {
        FoundSame(s, c, rid, r, t, x);
        SameFires(s, s', x);
      }
    }
  }

  lemma InterruptKeeps(s: State, rid: Rid, unique: nat, target: nat, t: Tid)
    requires Inv(s) && rid !in s.past && t !in s.finds
    ensures Inv(Interrupted(s, rid, unique, target, t))
  {
    hide Inv;
    var i := FirstLive(s.reqs, s.live, target);
    var r := Req(unique, 1, false, None, Some(target), None);
    if i < |s.live| {
      FoundKeeps(s, s.live[i], rid, r, t);
    } else if Hit(s, target) {
      DropKeeps(s, rid, r);
    } else {
      PendKeeps(s, rid, r);
    }
  }

  /** Every step of every thread keeps the counts, the mutexes and the callbacks right. */
  lemma StepKeepsInv(s: State, op: Op)
    requires Inv(s) && Enabled(s, op)
    ensures Inv(Apply(s, op))
  {
    hide Inv;
    match op
    case Arrive(rid, unique) => ArriveKeeps(s, rid, unique);
    case Interrupt(rid, unique, target, t) => InterruptKeeps(s, rid, unique, target, t);
    case Lock(t) => LockKeeps(s, t);
    case Take(t) => TakeKeeps(s, t);
    case Call(t) => CallKeeps(s, t);
    case Unlock(t) => UnlockKeeps(s, t);
    case Finish(t) => FinishKeeps(s, t);
    case RegCall(t, rid, func) => RegCallKeeps(s, t, rid, func);
    case RegLock(t) => RegLockKeeps(s, t);
    case RegStore(t) => RegStoreKeeps(s, t);
    case RegCheck(t) => RegCheckKeeps(s, t);
    case RegUnlock(t) => RegUnlockKeeps(s, t);
    case Free(rid) => FreeKeeps(s, rid);
    case Reap(rid) => ReapKeeps(s, rid);
  }

  // ---------- whole runs ----------

  ghost predicate Steps(s: State, op: Op, s': State) {
    Enabled(s, op) && s' == Apply(s, op)
  }

  const START: State := State(map[], [], [], {}, {}, map[], map[], map[])

  ghost predicate Run(states: seq<State>, ops: seq<Op>) {
    && |states| == |ops| + 1 && states[0] == START
    && forall i :: 0 <= i < |ops| ==> Steps(states[i], ops[i], states[i + 1])
  }

  lemma StartOk()
    ensures Inv(START)
  {
  }

  lemma {:induction false} RunKeepsInv(states: seq<State>, ops: seq<Op>, i: nat)
    requires Run(states, ops) && i < |states|
    ensures Inv(states[i])
  {
    hide Inv, Enabled, Apply;
    if i == 0 {
      StartOk();
    } else {
      RunKeepsInv(states, ops, i - 1);
      assert Steps(states[i - 1], ops[i - 1], states[i - 1 + 1]);
      StepKeepsInv(states[i - 1], ops[i - 1]);
    }
  }

  /**
   A request exists as long as anything refers to it, its count is the number of list
   entries and threads that do, and it is never destroyed twice.
   */
  lemma CountIsExact(states: seq<State>, ops: seq<Op>, i: nat, rid: Rid)
    requires Run(states, ops) && i < |states| && rid in states[i].past
    ensures var s := states[i];
            && s.past[rid].destroyed == (if rid in s.reqs then 0 else 1)
            && (rid in s.reqs && s.reqs[rid].target.None? ==>
                   s.reqs[rid].ctr == One(rid in s.live) + |FindsOf(s.finds, rid)|)
            && (rid !in s.reqs ==> Unused(s, rid) && forall t :: t in s.regs ==> s.regs[t].req != rid)
  {
    hide Locks, Fires;
    RunKeepsInv(states, ops, i);
    var s := states[i];
    if rid in s.reqs && s.reqs[rid].target.None? {
      assert OwnedBy(s.finds, rid) == {};
    }
  }

  /** When every thread has returned and every answer is given, only requests on the two lists are left. */
  lemma NothingLeaks(states: seq<State>, ops: seq<Op>, i: nat, rid: Rid)
    requires Run(states, ops) && i < |states|
    requires states[i].finds == map[] && states[i].bounced == {} && states[i].doomed == {}
    ensures rid in states[i].reqs <==> rid in states[i].live || rid in states[i].pending
  {
    hide Locks, Fires;
    RunKeepsInv(states, ops, i);
    var s := states[i];
    assert FindsOf(s.finds, rid) == {} && OwnedBy(s.finds, rid) == {};
  }

  /**
   A callback that was registered once, for a request that was interrupted once, is called
   once if the interrupt was noted while the request was live, whichever came first. While
   threads are under way it has been called at most once.
   */
  lemma CallbackFiresOnce(states: seq<State>, ops: seq<Op>, i: nat, rid: Rid)
    requires Run(states, ops) && i < |states| && rid in states[i].past
    requires states[i].past[rid].registered <= 1 && states[i].past[rid].found <= 1
    ensures states[i].past[rid].fired <= 1
    ensures (forall t :: t in states[i].finds ==> states[i].finds[t].req != rid)
            && (forall t :: t in states[i].regs ==> states[i].regs[t].req != rid) ==>
              states[i].past[rid].fired == One(states[i].past[rid].stored && states[i].past[rid].noted)
  {
    hide InUseExist, Counted, DestroyedOnce, Locks, RolesOk, FieldsOk;
    RunKeepsInv(states, ops, i);
    assert FireOk(states[i], rid);
  }

  /**
   A registered callback waits for its interrupt, and an interrupt for its callback: both have been
   seen when both calls are over and the request is live.
   */
  lemma RegisteredIsSet(states: seq<State>, ops: seq<Op>, i: nat, rid: Rid)
    requires Run(states, ops) && i < |states| && rid in states[i].live && rid in states[i].past
    requires states[i].past[rid].registered <= 1 && states[i].past[rid].found <= 1
    ensures rid in states[i].reqs
    ensures states[i].past[rid].stored <==> states[i].reqs[rid].func.Some?
    ensures states[i].past[rid].noted <==> states[i].reqs[rid].interrupted
  {
    hide Counted, DestroyedOnce, Locks, RolesOk, FiresExactly;
    RunKeepsInv(states, ops, i);
    assert FireOk(states[i], rid);
  }

  /** A pending INTERRUPT leaves its list only for the request that it names, or to be answered EAGAIN. */
  lemma PendingLeaves(s: State, op: Op, c: Rid)
    requires Inv(s) && Enabled(s, op) && c in s.pending && c !in Apply(s, op).pending
    ensures op.Arrive?
    ensures var s' := Apply(s, op);
            || (s.reqs[c].target == Some(op.unique) && c !in s'.reqs && s'.reqs[op.rid].interrupted
                   && op.rid in s'.live)
            || (c == s.pending[0] && c in s'.bounced && !s'.reqs[op.rid].interrupted
                && forall p :: p in s.pending ==> s.reqs[p].target != Some(op.unique))
  {
    hide Counted, DestroyedOnce, Locks, Fires;
    match op
    case Arrive(rid, unique) =>
      PendingCut(s, rid, unique, c);
    case Interrupt(rid, unique, target, t) =>
      InterruptAdds(s, rid, unique, target, t, c);
    case _ =>
  }

  lemma InterruptAdds(s: State, rid: Rid, unique: nat, target: nat, t: Tid, c: Rid)
    requires c in s.pending
    ensures c in Interrupted(s, rid, unique, target, t).pending
  {
    assert c in s.pending + [rid];
  }

  lemma PendingCut(s: State, rid: Rid, unique: nat, c: Rid)
    requires InUseExist(s) && rid !in s.past && c in s.pending && c !in Arrived(s, rid, unique).pending
    ensures var s' := Arrived(s, rid, unique);
            && rid in s'.reqs && rid in s'.live && c in s.reqs
            && ((s.reqs[c].target == Some(unique) && c !in s'.reqs && s'.reqs[rid].interrupted)
                || (c == s.pending[0] && c in s'.bounced && !s'.reqs[rid].interrupted
                    && forall p :: p in s.pending ==> s.reqs[p].target != Some(unique)))
  {
    var i := FirstPending(s.reqs, s.pending, unique);
    assert rid in s.live + [rid];
    if i < |s.pending| {
      CutAt(s.pending, i);
    } else {
      forall p | p in s.pending ensures s.reqs[p].target != Some(unique) {
        var j :| 0 <= j < |s.pending| && s.pending[j] == p;
        assert !HasTarget(s.reqs, s.pending[j], unique);
      }
      assert s.pending == [s.pending[0]] + s.pending[1..];
    }
  }

  // ---------- progress ----------

  /**
   The step is one of a thread that is at work on request `c`, in `find_interrupted` or in
   `fuse_req_interrupt_func`.
   */
  predicate AtWork(s: State, op: Op, c: Rid) {
    match op
    case Lock(t) => t in s.finds && s.finds[t].req == c
    case Take(t) => t in s.finds && s.finds[t].req == c
    case Call(t) => t in s.finds && s.finds[t].req == c
    case Unlock(t) => t in s.finds && s.finds[t].req == c
    case Finish(t) => t in s.finds && s.finds[t].req == c
    case RegLock(t) => t in s.regs && s.regs[t].req == c
    case RegStore(t) => t in s.regs && s.regs[t].req == c
    case RegCheck(t) => t in s.regs && s.regs[t].req == c
    case RegUnlock(t) => t in s.regs && s.regs[t].req == c
    case _ => false
  }

  ghost predicate Busy(s: State, c: Rid) {
    (exists t :: t in s.finds && s.finds[t].req == c) || (exists t :: t in s.regs && s.regs[t].req == c)
  }

  /** The next step of the thread that owns the mutex of `c`. */
  function OwnersStep(s: State, c: Rid): Op
    requires c in s.reqs && s.reqs[c].owner.Some?
  {
    match s.reqs[c].owner.value
    case Finder(t) =>
      if t in s.finds && s.finds[t].phase.Holds? then Take(t)
      else if t in s.finds && s.finds[t].phase.Took? then Call(t)
      else Unlock(t)
    case Registrar(t) =>
      if t in s.regs && s.regs[t].phase.RegHolds? then RegStore(t)
      else if t in s.regs && s.regs[t].phase.RegSet? then RegCheck(t)
      else RegUnlock(t)
  }

  /**
   As long as threads are at work on a request, whether they hold its mutex, wait for it in
   either function, or have released it, one of them can take its next step.
   */
  lemma SomebodyCanMove(s: State, c: Rid) returns (op: Op)
    requires Inv(s) && Busy(s, c)
    ensures Enabled(s, op) && AtWork(s, op, c)
  {
    hide Counted, DestroyedOnce, Fires;
    if exists t :: t in s.finds && s.finds[t].req == c {
      var t :| t in s.finds && s.finds[t].req == c;
      op := if s.reqs[c].owner.Some? then OwnersStep(s, c) else if s.finds[t].phase.Wants? then Lock(t) else Finish(t);
    } else {
      var t :| t in s.regs && s.regs[t].req == c;
      assert s.regs[t].req in s.live;
      op := if s.reqs[c].owner.Some? then OwnersStep(s, c) else RegLock(t);
    }
  }
}

/**
 `struct fuse_ll` as far as interrupts go: the requests, and the lists that
 `fuse_ll_process_buf`, `do_interrupt` and `fuse_free_req` search and change. Each method is
 one section under the mutex of the session, and performs one step of Interrupts.
 */
module InterruptSession {
  import opened Common
  import opened Interrupts

  lemma FirstLiveAt(reqs: map<Rid, Req>, list: seq<Rid>, unique: nat, i: nat)
    requires i <= |list| && (forall j :: 0 <= j < i ==> !HasUnique(reqs, list[j], unique))
    requires i < |list| ==> HasUnique(reqs, list[i], unique)
    ensures FirstLive(reqs, list, unique) == i
  {
    var k := FirstLive(reqs, list, unique);
  }

  lemma FirstPendingAt(reqs: map<Rid, Req>, list: seq<Rid>, unique: nat, i: nat)
    requires i <= |list| && (forall j :: 0 <= j < i ==> !HasTarget(reqs, list[j], unique))
    requires i < |list| ==> HasTarget(reqs, list[i], unique)
    ensures FirstPending(reqs, list, unique) == i
  {
    var k := FirstPending(reqs, list, unique);
  }

  lemma ArriveIs(s: State, rid: Rid, unique: nat)
    requires Inv(s) && rid !in s.past
    ensures Inv(Arrived(s, rid, unique)) && Steps(s, Arrive(rid, unique), Arrived(s, rid, unique))
    ensures !Hit(s, unique) && s.pending != [] ==> s.pending[0] in Arrived(s, rid, unique).bounced
    ensures Checked(s, unique).live == s.live
  {
    hide Inv;
    ArriveKeeps(s, rid, unique);
  }

  lemma InterruptIs(s: State, rid: Rid, unique: nat, target: nat, t: Tid)
    requires Inv(s) && rid !in s.past && t !in s.finds
    ensures var s' := Interrupted(s, rid, unique, target, t); Inv(s') && Steps(s, Interrupt(rid, unique, target, t), s')
    ensures var s', i := Interrupted(s, rid, unique, target, t), FirstLive(s.reqs, s.live, target);
            var s1 := Added(s, rid, Req(unique, 1, false, None, Some(target), None), NEW);
            if i < |s.live| then s.live[i] in s1.reqs && s' == Found(s1, s.live[i], rid, t)
            else if FirstPending(s.reqs, s.pending, target) < |s.pending| then s' == Destroy(s1, rid)
            else s' == s1.(pending := s.pending + [rid])
  {
    hide Inv;
    InterruptKeeps(s, rid, unique, target, t);
  }

  lemma TakeIs(s: State, t: Tid)
    requires Inv(s) && FindAt(s, t, Holds)
    ensures Inv(Taken(s, t)) && Steps(s, Take(t), Taken(s, t))
  {
    hide Inv;
    TakeKeeps(s, t);
  }

  lemma FinishIs(s: State, t: Tid)
    requires Inv(s) && FindAt(s, t, Released)
    ensures Inv(Finished(s, t)) && Steps(s, Finish(t), Finished(s, t))
    ensures s.finds[t].req != s.finds[t].own && s.finds[t].req in s.reqs && s.finds[t].own in s.reqs
  {
    hide Counted, Locks, Fires, DestroyedOnce;
    FinishKeeps(s, t);
  }

  lemma StoreIs(s: State, t: Tid)
    requires Inv(s) && RegAt(s, t, RegHolds)
    ensures Inv(RegStored(s, t)) && Steps(s, RegStore(t), RegStored(s, t))
  {
    hide Inv;
    RegStoreKeeps(s, t);
  }

  lemma FreeIs(s: State, rid: Rid)
    requires Inv(s) && Enabled(s, Op.Free(rid))
    ensures Inv(Freed(s, rid)) && Steps(s, Op.Free(rid), Freed(s, rid))
    ensures rid !in s.doomed && rid in s.reqs
  {
    hide Inv;
    FreeKeeps(s, rid);
    NotDoomed(s, rid);
  }

  class Session {
    var reqs: map<Rid, Req>
    var list: seq<Rid>
    var interrupts: seq<Rid>
    ghost var bounced: set<Rid>
    ghost var doomed: set<Rid>
    ghost var finds: map<Tid, Find>
    ghost var regs: map<Tid, Reg>
    ghost var past: map<Rid, History>

    ghost function S(): State
      reads this
    {
      State(reqs, list, interrupts, bounced, doomed, finds, regs, past)
    }

    ghost predicate Valid()
      reads this
    {
      Inv(S())
    }

    constructor ()
      ensures Valid() && S() == START
    {
      reqs, list, interrupts := map[], [], [];
      bounced, doomed, finds, regs, past := {}, {}, map[], map[], map[];
      new;
      StartOk();
    }

    method FindListed(unique: nat) returns (i: nat)
      requires Valid()
      ensures i == FirstLive(reqs, list, unique)
    {
      i := 0;
      while i < |list| && reqs[list[i]].unique != unique
        invariant i <= |list| && forall j :: 0 <= j < i ==> !HasUnique(reqs, list[j], unique)
      {
        i := i + 1;
      }
      FirstLiveAt(reqs, list, unique, i);
    }

    method FindPending(unique: nat) returns (i: nat)
      requires Valid()
      ensures i == FirstPending(reqs, interrupts, unique)
    {
      i := 0;
      while i < |interrupts| && reqs[interrupts[i]].target != Some(unique)
        invariant i <= |interrupts| && forall j :: 0 <= j < i ==> !HasTarget(reqs, interrupts[j], unique)
      {
        i := i + 1;
      }
      FirstPendingAt(reqs, interrupts, unique, i);
    }

    /**
     `check_interrupt`: whether the new request is interrupted already, and which INTERRUPT is to be
     answered EAGAIN.
     */
    method CheckInterrupt(unique: nat) returns (interrupted: bool, again: Option<Rid>)
      requires Valid()
      modifies this`reqs, this`interrupts, this`bounced, this`past
      ensures S() == Checked(old(S()), unique)
      ensures interrupted == Hit(old(S()), unique)
      ensures again == if interrupted || old(interrupts) == [] then None else Some(old(interrupts)[0])
    {
      var i := FindPending(unique);
      if i < |interrupts| {
        var curr := interrupts[i];
        interrupts := interrupts[..i] + interrupts[i + 1..];
        reqs := reqs - {curr};
        past := Destroy(old(S()), curr).past;
        return true, None;
      }
      if interrupts != [] {
        again := Some(interrupts[0]);
        bounced := bounced + {interrupts[0]};
        interrupts := interrupts[1..];
        return false, again;
      }
      return false, None;
    }

    /** The registration of a request in `fuse_ll_process_buf`. */
    method ProcessRequest(rid: Rid, unique: nat) returns (again: Option<Rid>)
      requires Valid() && rid !in past
      modifies this`reqs, this`list, this`interrupts, this`bounced, this`past
      ensures Valid() && Steps(old(S()), Arrive(rid, unique), S())
      ensures again.Some? <==> !Hit(old(S()), unique) && old(interrupts) != []
      ensures again.Some? ==> again.value in bounced
    {
      hide Inv, Checked, Steps, Hit;
      ArriveIs(S(), rid, unique);
      var interrupted;
      interrupted, again := CheckInterrupt(unique);
      assert S() == Checked(old(S()), unique);
      reqs := reqs[rid := Req(unique, 1, interrupted, None, None, None)];
      past := past[rid := NEW.(found := if interrupted then 1 else 0, noted := interrupted)];
      list := list + [rid];
      assert S() == Arrived(old(S()), rid, unique);
    }

    /** `do_interrupt` and the search in `find_interrupted`; `found` is the request that the thread goes on with. */
    method DoInterrupt(rid: Rid, unique: nat, target: nat, ghost t: Tid) returns (found: Option<Rid>)
      requires Valid() && rid !in past && t !in finds
      modifies this`reqs, this`interrupts, this`finds, this`past
      ensures Valid() && Steps(old(S()), Interrupt(rid, unique, target, t), S())
      ensures var i := FirstLive(old(reqs), list, target); found == if i < |list| then Some(list[i]) else None
    {
      hide Inv, Steps, FirstLive, FirstPending, Interrupted, Found;
      InterruptIs(S(), rid, unique, target, t);
      var i := FindListed(target);
      var k := FindPending(target);
      reqs := reqs[rid := Req(unique, 1, false, None, Some(target), None)];
      past := past[rid := NEW];
      if i < |list| {
        Attach(list[i], rid, t);
        return Some(list[i]);
      }
      if k < |interrupts| {
        reqs := reqs - {rid};
        past := past[rid := NEW.(destroyed := 1)];
        return None;
      }
      interrupts := interrupts + [rid];
      return None;
    }

    /** `find_interrupted` takes a reference to the request that it has found. */
    method Attach(c: Rid, own: Rid, ghost t: Tid)
      requires c in reqs
      modifies this`reqs, this`finds, this`past
      ensures S() == Found(old(S()), c, own, t)
    {
      past := past[c := PastOf(S(), c).(found := PastOf(S(), c).found + 1)];
      reqs := reqs[c := reqs[c].(ctr := reqs[c].ctr + 1)];
      finds := finds[t := Find(c, own, Wants)];
    }

    /** The section of `find_interrupted` that notes the interrupt. */
    method NoteInterrupt(c: Rid, ghost t: Tid) returns (func: Option<nat>)
      requires Valid() && FindAt(S(), t, Holds) && finds[t].req == c
      modifies this`reqs, this`finds, this`past
      ensures Valid() && Steps(old(S()), Take(t), S()) && t in finds && finds[t].phase == Took(func)
      ensures c in old(reqs) && func == old(reqs)[c].func && reqs == old(reqs)[c := old(reqs)[c].(interrupted := true)]
    {
      hide Inv, Steps;
      TakeIs(S(), t);
      func := reqs[c].func;
      reqs := reqs[c := reqs[c].(interrupted := true)];
      finds := finds[t := finds[t].(phase := Took(func))];
      past := past[c := past[c].(noted := past[c].noted || c in list)];
      assert S() == Taken(old(S()), t);
    }

    /** The last section of `find_interrupted`, and `destroy_req` for the INTERRUPT. */
    method LeaveRequest(c: Rid, own: Rid, ghost t: Tid) returns (destroyed: bool)
      requires Valid() && FindAt(S(), t, Released) && finds[t].req == c && finds[t].own == own
      modifies this`reqs, this`finds, this`past
      ensures Valid() && Steps(old(S()), Finish(t), S())
      ensures destroyed <==> c !in reqs
    {
      hide Inv, Steps;
      FinishIs(S(), t);
      reqs := reqs[c := reqs[c].(ctr := reqs[c].ctr - 1)];
      finds := finds - {t};
      destroyed := reqs[c].ctr == 0;
      if destroyed {
        past := Destroy(S(), c).past;
        reqs := reqs - {c};
      }
      past := Destroy(S(), own).past;
      reqs := reqs - {own};
      assert S() == Finished(old(S()), t);
    }

    /** The section of `fuse_req_interrupt_func`. */
    method StoreFunc(c: Rid, func: Option<nat>, ghost t: Tid)
      requires Valid() && RegAt(S(), t, RegHolds) && regs[t].req == c && regs[t].func == func
      modifies this`reqs, this`regs, this`past
      ensures Valid() && Steps(old(S()), RegStore(t), S())
    {
      hide Inv, Steps;
      StoreIs(S(), t);
      reqs := reqs[c := reqs[c].(func := func)];
      regs := regs[t := regs[t].(phase := RegSet)];
      past := past[c := past[c].(stored := past[c].stored || func.Some?)];
      assert S() == RegStored(old(S()), t);
    }

    /** `list_del_req` */
    method Unlist(rid: Rid)
      modifies this`list
      ensures list == Without(old(list), rid)
    {
      var i := 0;
      while i < |list| && list[i] != rid
        invariant i <= |list| && forall j :: 0 <= j < i ==> list[j] != rid
      {
        i := i + 1;
      }
      WithoutAt(list, rid, i);
      if i < |list| {
        list := list[..i] + list[i + 1..];
      }
    }

    /** `fuse_free_req`; the caller destroys the request if it is the last to let go. */
    method FreeReq(rid: Rid) returns (destroy: bool)
      requires Valid() && Enabled(S(), Free(rid))
      modifies this`reqs, this`list, this`bounced, this`doomed
      ensures Valid() && Steps(old(S()), Free(rid), S())
      ensures destroy <==> rid in doomed
    {
      hide Inv, Steps, Enabled, Without;
      FreeIs(S(), rid);
      reqs := reqs[rid := reqs[rid].(func := None)];
      Unlist(rid);
      reqs := reqs[rid := reqs[rid].(ctr := reqs[rid].ctr - 1)];
      bounced := bounced - {rid};
      destroy := reqs[rid].ctr == 0;
      if destroy {
        doomed := doomed + {rid};
      }
      assert S() == Freed(old(S()), rid);
    }

    /** ... and that is this. */
    method DestroyReq(rid: Rid)
      requires Valid() && rid in doomed
      modifies this`reqs, this`doomed, this`past
      ensures Valid() && Steps(old(S()), Reap(rid), S()) && rid !in reqs
    {
      hide Inv;
      ReapKeeps(S(), rid);
      past := Destroy(S(), rid).past;
      reqs := reqs - {rid};
      doomed := doomed - {rid};
    }
  }

  lemma NotDoomed(s: State, rid: Rid)
    requires Inv(s) && Enabled(s, Free(rid))
    ensures rid !in s.doomed
  {
    hide Locks, Fires, DestroyedOnce;
  }

  lemma {:induction false} WithoutAt(list: seq<Rid>, rid: Rid, i: nat)
    requires i <= |list| && (forall j :: 0 <= j < i ==> list[j] != rid) && (i < |list| ==> list[i] == rid)
    ensures Without(list, rid) == if i < |list| then list[..i] + list[i + 1..] else list
  {
    if i > 0 {
      WithoutAt(list[1..], rid, i - 1);
      assert list == [list[0]] + list[1..];
      if i < |list| {
        assert list[..i] + list[i + 1..] == [list[0]] + (list[1..][..i - 1] + list[1..][i..]);
      }
    }
  }
}

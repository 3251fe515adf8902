/**
 How long an INTERRUPT can be pending: every request that arrives and is not the one that it is
 for brings it one place forward, and the first in line is answered.
 */
module InterruptQueue {
  import opened Common
  import opened Interrupts
  import opened InterruptDelivery

  /** A request arrives that no pending INTERRUPT is for. */
  predicate Misses(s: State, op: Op) {
    op.Arrive? && forall p :: p in s.pending ==> !HasTarget(s.reqs, p, op.unique)
  }

  function MissesIn(states: seq<State>, ops: seq<Op>, i: nat, j: nat): nat
    requires i <= j <= |ops| <= |states|
    decreases j - i
  {
    if i == j then 0 else MissesIn(states, ops, i, j - 1) + if Misses(states[j - 1], ops[j - 1]) then 1 else 0
  }

  /** How many are in line before `c`. */
  function Place(q: seq<Rid>, c: Rid): nat {
    if q == [] || q[0] == c then 0 else 1 + Place(q[1..], c)
  }

  lemma {:induction false} PlaceCut(q: seq<Rid>, i: nat, c: Rid)
    requires i < |q| && q[i] != c && c in q
    ensures c in q[..i] + q[i + 1..] && Place(q[..i] + q[i + 1..], c) == Place(q, c) - if i < Place(q, c) then 1 else 0
  {
    var cut := q[..i] + q[i + 1..];
    if i == 0 {
      assert cut == q[1..];
    } else {
      assert cut[0] == q[0] && cut[1..] == q[1..][..i - 1] + q[1..][i..];
      if q[0] != c {
        PlaceCut(q[1..], i - 1, c);
      }
    }
  }

  lemma {:induction false} PlaceAppend(q: seq<Rid>, r: Rid, c: Rid)
    requires c in q
    ensures Place(q + [r], c) == Place(q, c)
  {
    if q[0] != c {
      assert (q + [r])[1..] == q[1..] + [r];
      PlaceAppend(q[1..], r, c);
    }
  }

  lemma TakesItsOwn(s: State, rid: Rid, unique: nat)
    requires Hit(s, unique)
    ensures var i := FirstPending(s.reqs, s.pending, unique);
            Arrived(s, rid, unique).pending == s.pending[..i] + s.pending[i + 1..]
    ensures Arrived(s, rid, unique).bounced == s.bounced
  {
  }

  lemma TakesOldest(s: State, rid: Rid, unique: nat)
    requires !Hit(s, unique) && s.pending != []
    ensures Arrived(s, rid, unique).pending == s.pending[1..]
    ensures Arrived(s, rid, unique).bounced == s.bounced + {s.pending[0]}
  {
  }

  /**
   An arriving request takes one pending INTERRUPT off the list: one that is for it, or else the
   oldest, which is then answered EAGAIN.
   */
  lemma ArrivalTakesOne(s: State, rid: Rid, unique: nat) returns (i: nat)
    requires s.pending != []
    ensures i < |s.pending| && Arrived(s, rid, unique).pending == s.pending[..i] + s.pending[i + 1..]
    ensures if exists p :: p in s.pending && HasTarget(s.reqs, p, unique)
            then HasTarget(s.reqs, s.pending[i], unique) && Arrived(s, rid, unique).bounced == s.bounced
            else i == 0 && Arrived(s, rid, unique).bounced == s.bounced + {s.pending[0]}
  {
    hide Arrived, HasTarget;
    i := FirstPending(s.reqs, s.pending, unique);
    assert forall j :: 0 <= j < |s.pending| ==> s.pending[j] in s.pending;
    if i < |s.pending| {
      TakesItsOwn(s, rid, unique);
    } else {
      TakesOldest(s, rid, unique);
      i := 0;
      assert s.pending[1..] == s.pending[..0] + s.pending[1..];
    }
  }

  /** A step brings `c` forward by one place if it misses, and never back. */
  lemma StepPlace(s: State, op: Op, c: Rid)
    requires InUseExist(s) && Enabled(s, op) && c in s.pending && c in Apply(s, op).pending
    ensures Place(Apply(s, op).pending, c) + (if Misses(s, op) then 1 else 0) <= Place(s.pending, c)
  {
    hide InUseExist, Arrived, PastOf, Without, HasTarget;
    match op
    case Arrive(rid, unique) =>
      var i := ArrivalTakesOne(s, rid, unique);
      assert s.pending[i] != c by { OnlyOnce(s, i); }
      PlaceCut(s.pending, i, c);
    case Interrupt(rid, unique, target, t) =>
      PlaceAppend(s.pending, rid, c);
    case _ =>
  }

  lemma OnlyOnce(s: State, i: nat)
    requires InUseExist(s) && i < |s.pending|
    ensures s.pending[i] !in s.pending[..i] + s.pending[i + 1..]
  {
    CutAt(s.pending, i);
  }

  /** An INTERRUPT that is not pending any more never is again. */
  lemma PendingBefore(s: State, op: Op, c: Rid)
    requires Inv(s) && Enabled(s, op) && c in s.past && c in Apply(s, op).pending
    ensures c in s.pending
  {
    hide Counted, DestroyedOnce, Locks, Fires, PastOf, Without, HasTarget;
    match op
    case Arrive(rid, unique) =>
      if s.pending != [] {
        var i := ArrivalTakesOne(s, rid, unique);
      }
    case _ =>
  }

  /**
   In any part of a run, an INTERRUPT that was `k`-th in line and still is pending has seen at
   most `k` arrivals that missed: so it ends, by its request or with EAGAIN, at the latest when
   `k + 1` other requests have come.
   */
  lemma {:induction false} PendingEnds(states: seq<State>, ops: seq<Op>, c: Rid, i: nat, j: nat)
    requires Run(states, ops) && i <= j <= |ops| && c in states[i].pending && c in states[j].pending
    ensures Place(states[j].pending, c) + MissesIn(states, ops, i, j) <= Place(states[i].pending, c)
    decreases j - i
  {
    hide Apply, Enabled, Counted, DestroyedOnce, Locks, Fires, Misses;
    if i < j {
      RunKeepsInv(states, ops, i);
      RunKeepsInv(states, ops, j - 1);
      RunPast(states, ops, i, j - 1, c);
      assert Steps(states[j - 1], ops[j - 1], states[j - 1 + 1]);
      PendingBefore(states[j - 1], ops[j - 1], c);
      PendingEnds(states, ops, c, i, j - 1);
      StepPlace(states[j - 1], ops[j - 1], c);
    }
  }
}

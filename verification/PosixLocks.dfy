/**
 The POSIX byte-range locks that libfuse keeps per inode: one list shared by all
 lock owners, rewritten in place by `locks_insert`.

 The specification is pointwise: a lock list means a function from (owner, offset)
 to the kind of lock held there, and a request overrides that function on its own
 range. The list is shown to be the canonical representation of that function.
 */
module PosixLocks {
  import opened Common

  /** `off_t`: every arithmetic operation below is proved to stay inside 64 bits. */
  newtype Off = x: int | -0x8000_0000_0000_0000 <= x <= 0x7fff_ffff_ffff_ffff

  const OFFSET_MAX: Off := 0x7fff_ffff_ffff_ffff

  datatype LockKind = ReadLock | WriteLock | Unlock

  datatype Lock = Lock(kind: LockKind, start: Off, end: Off, pid: int, owner: nat)

  /** A range inside [0, OFFSET_MAX], as the kernel hands it over. */
  predicate ValidRange(l: Lock) {
    0 <= l.start <= l.end
  }

  predicate InRange(l: Lock, owner: nat, off: Off) {
    l.owner == owner && l.start <= off <= l.end
  }

  /** The kind of lock that `owner` holds at `off`; `Unlock` when it holds none. */
  function TypeAt(locks: seq<Lock>, owner: nat, off: Off): LockKind {
    if locks == [] then Unlock
    else if InRange(locks[0], owner, off) then locks[0].kind
    else TypeAt(locks[1..], owner, off)
  }

  /** What a request asks for: its own kind on its own range, no change elsewhere. */
  function Overridden(locks: seq<Lock>, req: Lock, owner: nat, off: Off): LockKind {
    if InRange(req, owner, off) then req.kind else TypeAt(locks, owner, off)
  }

  /** `a` ends before `b` starts, and they do not touch when they are of one kind. */
  predicate Apart(a: Lock, b: Lock) {
    a.end < b.start && (a.kind == b.kind ==> a.end as int + 1 < b.start as int)
  }

  /** Each owner's entries are non-empty, sorted, disjoint and maximally coalesced. */
  ghost predicate Canonical(locks: seq<Lock>) {
    && (forall i :: 0 <= i < |locks| ==> ValidRange(locks[i]) && locks[i].kind != Unlock)
    && (forall i, j :: 0 <= i < j < |locks| && locks[i].owner == locks[j].owner ==> Apart(locks[i], locks[j]))
  }

  /** All of the request's owner's entries in `locks` end before the request starts. */
  ghost predicate AllBefore(locks: seq<Lock>, req: Lock) {
    forall i :: 0 <= i < |locks| && locks[i].owner == req.owner ==> Apart(locks[i], req)
  }

  ghost predicate AllAfter(locks: seq<Lock>, req: Lock) {
    forall i :: 0 <= i < |locks| && locks[i].owner == req.owner ==> Apart(req, locks[i])
  }

  lemma {:induction false} TypeAtConcat(a: seq<Lock>, b: seq<Lock>, owner: nat, off: Off)
    requires Canonical(a)
    ensures TypeAt(a + b, owner, off) ==
            if TypeAt(a, owner, off) != Unlock then TypeAt(a, owner, off) else TypeAt(b, owner, off)
  {
    if a == [] {
      assert a + b == b;
    } else {
      assert (a + b)[1..] == a[1..] + b;
      TypeAtConcat(a[1..], b, owner, off);
    }
  }

  /** A lock is held at an offset exactly when some entry of that kind covers it. */
  lemma {:induction false} TypeAtEntry(locks: seq<Lock>, owner: nat, off: Off)
    requires Canonical(locks)
    ensures TypeAt(locks, owner, off) != Unlock <==> exists i :: 0 <= i < |locks| && InRange(locks[i], owner, off)
    ensures forall i :: 0 <= i < |locks| && InRange(locks[i], owner, off) ==> TypeAt(locks, owner, off) == locks[i].kind
  {
    if locks != [] {
      TypeAtEntry(locks[1..], owner, off);
      assert forall i :: 0 < i < |locks| ==> locks[i] == locks[1..][i - 1];
      if InRange(locks[0], owner, off) {
        assert forall i :: 0 < i < |locks| && InRange(locks[i], owner, off) ==> Apart(locks[0], locks[i]);
      }
    }
  }

  lemma CanonicalParts(a: seq<Lock>, b: seq<Lock>)
    requires Canonical(a + b)
    ensures Canonical(a) && Canonical(b)
    ensures forall i, j :: 0 <= i < |a| && 0 <= j < |b| && a[i].owner == b[j].owner ==> Apart(a[i], b[j])
  {
    assert forall i :: 0 <= i < |a| ==> a[i] == (a + b)[i];
    assert forall i :: 0 <= i < |b| ==> b[i] == (a + b)[|a| + i];
  }

  lemma CanonicalJoin(a: seq<Lock>, b: seq<Lock>)
    requires Canonical(a) && Canonical(b)
    requires forall i, j :: 0 <= i < |a| && 0 <= j < |b| && a[i].owner == b[j].owner ==> Apart(a[i], b[j])
    ensures Canonical(a + b)
  {
    var r := a + b;
    forall i, j | 0 <= i < j < |r| && r[i].owner == r[j].owner ensures Apart(r[i], r[j]) {
      if i < |a| <= j {
        assert Apart(a[i], b[j - |a|]);
      }
    }
  }

  /** Putting the request between the entries before it and those after it is what was asked for. */
  lemma PlaceRequest(a: seq<Lock>, b: seq<Lock>, req: Lock)
    requires Canonical(a + b) && ValidRange(req)
    requires AllBefore(a, req) && AllAfter(b, req)
    ensures var r := if req.kind == Unlock then a + b else a + [req] + b;
            Canonical(r) && forall o: nat, off: Off :: TypeAt(r, o, off) == Overridden(a + b, req, o, off)
  {
    var r := if req.kind == Unlock then a + b else a + [req] + b;
    CanonicalParts(a, b);
    if req.kind != Unlock {
      CanonicalJoin(a, [req]);
      CanonicalJoin(a + [req], b);
    }
    forall o: nat, off: Off ensures TypeAt(r, o, off) == Overridden(a + b, req, o, off) {
      TypeAtConcat(a, b, o, off);
      TypeAtEntry(a, o, off);
      TypeAtEntry(b, o, off);
      if req.kind != Unlock {
        assert a + [req] + b == a + ([req] + b);
        TypeAtConcat(a, [req] + b, o, off);
        assert ([req] + b)[1..] == b;
      }
    }
  }

  /** Two locks that overlap, or touch while being of one kind: the entries a request must rewrite. */
  predicate Meets(l: Lock, req: Lock) {
    !Apart(l, req) && !Apart(req, l)
  }

  /** What is left of an entry that the request meets. */
  function Remainder(l: Lock, req: Lock): seq<Lock>
    requires ValidRange(l) && ValidRange(req)
  {
    if l.kind == req.kind then []
    else
      (if l.start < req.start then [l.(end := req.start - 1)] else []) +
      (if req.end < l.end then [l.(start := req.end + 1)] else [])
  }

  /** The request after it has swallowed an entry of its own kind. */
  function Grown(req: Lock, l: Lock): Lock {
    if l.kind != req.kind then req
    else req.(start := if l.start < req.start then l.start else req.start,
              end := if req.end < l.end then l.end else req.end)
  }

  lemma RemainderPieces(l: Lock, req: Lock)
    requires ValidRange(l) && ValidRange(req) && Meets(l, req) && l.owner == req.owner && l.kind != Unlock
    ensures Canonical(Remainder(l, req))
    ensures forall r :: r in Remainder(l, req) ==>
            r.owner == l.owner && r.kind == l.kind && l.start <= r.start && r.end <= l.end
  {
  }

  lemma RemainderTypeAt(l: Lock, req: Lock, off: Off)
    requires ValidRange(l) && ValidRange(req) && Meets(l, req) && l.owner == req.owner && l.kind != Unlock
    requires !InRange(Grown(req, l), l.owner, off)
    ensures TypeAt(Remainder(l, req), l.owner, off) == TypeAt([l], l.owner, off)
  {
    if l.kind != req.kind {
      var low := if l.start < req.start then [l.(end := req.start - 1)] else [];
      var high := if req.end < l.end then [l.(start := req.end + 1)] else [];
      assert Remainder(l, req) == low + high;
      TypeAtConcat(low, high, l.owner, off);
      assert |low| <= 1 && |high| <= 1;
    }
  }

  /**
   The state of the loop in `locks_insert`: the list is `done + rest`, the entries in
   `done` end before the (possibly grown) request `req`, and placing `req` would give
   what the original request `req0` asked of the original list `locks0`.
   */
  ghost predicate Pending(locks0: seq<Lock>, req0: Lock, done: seq<Lock>, rest: seq<Lock>, req: Lock) {
    && Canonical(done + rest) && ValidRange(req) && AllBefore(done, req)
    && req.kind == req0.kind && req.owner == req0.owner
    && (forall o: nat, off: Off :: Overridden(locks0, req0, o, off) == Overridden(done + rest, req, o, off))
  }

  lemma PendingEntry(locks0: seq<Lock>, req0: Lock, done: seq<Lock>, l: Lock, rest: seq<Lock>, req: Lock)
    requires Pending(locks0, req0, done, [l] + rest, req)
    ensures ValidRange(l) && l.kind != Unlock && ValidRange(req)
  {
    assert (done + ([l] + rest))[|done|] == l;
  }

  lemma StartLoop(locks: seq<Lock>, req: Lock)
    requires Canonical(locks) && ValidRange(req)
    ensures Pending(locks, req, [], locks, req)
  {
    assert [] + locks == locks;
  }

  /** Skipping an entry of another owner, or one that ends before the request. */
  lemma SkipEntry(locks0: seq<Lock>, req0: Lock, done: seq<Lock>, l: Lock, rest: seq<Lock>, req: Lock)
    requires Pending(locks0, req0, done, [l] + rest, req)
    requires l.owner == req.owner ==> Apart(l, req)
    ensures done + [l] + rest == done + ([l] + rest)
    ensures Pending(locks0, req0, done + [l], rest, req)
  {
    assert done + [l] + rest == done + ([l] + rest);
  }

  /** At each offset, the rewritten entry and the grown request say what the entry and the request said. */
  lemma RewriteAt(done: seq<Lock>, l: Lock, rest: seq<Lock>, req: Lock, o: nat, off: Off)
    requires Canonical(done + [l] + rest) && ValidRange(req) && AllBefore(done, req)
    requires ValidRange(l) && l.kind != Unlock && Meets(l, req) && l.owner == req.owner
    ensures Overridden(done + [l] + rest, req, o, off) ==
            Overridden(done + Remainder(l, req) + rest, Grown(req, l), o, off)
  {
    CanonicalParts(done + [l], rest);
    CanonicalParts(done, [l]);
    assert [l][0] == l;
    var repl := Remainder(l, req);
    RemainderPieces(l, req);
    assert Canonical(done + repl) by { KeepBefore(done, l, repl); }
    TypeAtConcat(done + [l], rest, o, off);
    TypeAtConcat(done, [l], o, off);
    TypeAtConcat(done + repl, rest, o, off);
    TypeAtConcat(done, repl, o, off);
    TypeAtEntry(done, o, off);
    TypeAtEntry(repl, o, off);
    if o == l.owner && !InRange(Grown(req, l), o, off) {
      RemainderTypeAt(l, req, off);
    }
  }

  /** Pieces of an entry fit wherever the entry did. */
  lemma KeepBefore(done: seq<Lock>, l: Lock, repl: seq<Lock>)
    requires Canonical(done + [l]) && Canonical(repl)
    requires forall r :: r in repl ==> r.owner == l.owner && r.kind == l.kind && l.start <= r.start && r.end <= l.end
    ensures Canonical(done + repl)
  {
    CanonicalParts(done, [l]);
    assert [l][0] == l;
    assert forall i :: 0 <= i < |repl| ==> repl[i] in repl;
    CanonicalJoin(done, repl);
  }

  /** Rewriting an entry that the request meets. */
  lemma RewriteEntry(locks0: seq<Lock>, req0: Lock, done: seq<Lock>, l: Lock, rest: seq<Lock>, req: Lock)
    requires Pending(locks0, req0, done, [l] + rest, req)
    requires Meets(l, req) && l.owner == req.owner
    ensures ValidRange(l) && Pending(locks0, req0, done, Remainder(l, req) + rest, Grown(req, l))
  {
    PendingEntry(locks0, req0, done, l, rest, req);
    var repl, req' := Remainder(l, req), Grown(req, l);
    assert done + ([l] + rest) == done + [l] + rest;
    assert done + (repl + rest) == done + repl + rest;
    CanonicalParts(done + [l], rest);
    CanonicalParts(done, [l]);
    assert (done + [l])[|done|] == l && [l][0] == l;
    RemainderPieces(l, req);
    KeepBefore(done, l, repl);
    assert forall i :: 0 <= i < |done| ==> (done + [l])[i] == done[i];
    assert forall i :: 0 <= i < |repl| ==> repl[i] in repl;
    CanonicalJoin(done + repl, rest);
    forall o: nat, off: Off
      ensures Overridden(locks0, req0, o, off) == Overridden(done + (repl + rest), req', o, off)
    {
      RewriteAt(done, l, rest, req, o, off);
    }
  }

  /**
   Leaving the loop: at the end of the list, or (`break`) once an entry of the owner
   lies after the request, because then all its later entries do.
   */
  lemma LeaveLoop(locks0: seq<Lock>, req0: Lock, done: seq<Lock>, rest: seq<Lock>, req: Lock)
    requires Pending(locks0, req0, done, rest, req)
    requires rest == [] || (rest[0].owner == req.owner && Apart(req, rest[0]))
    ensures var r := if req.kind == Unlock then done + rest else done + [req] + rest;
            Canonical(r) && forall o: nat, off: Off :: TypeAt(r, o, off) == Overridden(locks0, req0, o, off)
  {
    CanonicalParts(done, rest);
    forall i | 0 <= i < |rest| && rest[i].owner == req.owner ensures Apart(req, rest[i]) {
      assert i > 0 ==> Apart(rest[0], rest[i]);
    }
    PlaceRequest(done, rest, req);
  }

  /** The `goto out` exit: an entry of the same kind already covers the request. */
  lemma CoveredRequest(locks0: seq<Lock>, req0: Lock, done: seq<Lock>, l: Lock, rest: seq<Lock>, req: Lock)
    requires Pending(locks0, req0, done, [l] + rest, req)
    requires l.owner == req.owner && l.kind == req.kind && l.start <= req.start && req.end <= l.end
    ensures Canonical(done + ([l] + rest))
    ensures forall o: nat, off: Off :: TypeAt(done + ([l] + rest), o, off) == Overridden(locks0, req0, o, off)
  {
    var locks := done + ([l] + rest);
    assert locks[|done|] == l;
    forall o: nat, off: Off ensures TypeAt(locks, o, off) == Overridden(locks0, req0, o, off) {
      TypeAtEntry(locks, o, off);
    }
  }

  /** The list surgery of `delete_lock` and `insert_lock`, with the list cut at the cursor. */
  lemma Splice(done: seq<Lock>, l: Lock, tail: seq<Lock>, mid: seq<Lock>)
    ensures var locks, lp := done + ([l] + tail), |done|;
            && locks[..lp] + mid + locks[lp + 1..] == done + (mid + tail)
            && locks[lp] == l
            && (forall x :: mid == [x] ==> locks[lp := x] == done + (mid + tail))
  {
  }

  /** Whether an entry is one that `locks_conflict` stops at. */
  predicate Blocks(l: Lock, req: Lock) {
    && l.owner != req.owner
    && req.start <= l.end && l.start <= req.end
    && (l.kind == WriteLock || req.kind == WriteLock)
  }

  /** Two owners may hold these kinds of lock on the same byte. */
  predicate Share(a: LockKind, b: LockKind) {
    a == Unlock || b == Unlock || (a == ReadLock && b == ReadLock)
  }

  /** The request's owner could hold `req.kind` on the whole range beside all other owners. */
  ghost predicate Grantable(locks: seq<Lock>, req: Lock) {
    forall o: nat, off: Off :: o != req.owner && InRange(req, req.owner, off) ==> Share(TypeAt(locks, o, off), req.kind)
  }

  /** At no offset do two owners hold locks that exclude each other. */
  ghost predicate Compatible(locks: seq<Lock>) {
    forall o1: nat, o2: nat, off: Off :: o1 != o2 ==> Share(TypeAt(locks, o1, off), TypeAt(locks, o2, off))
  }

  /** The list scan of `locks_conflict` decides the pointwise question. */
  lemma ConflictScan(locks: seq<Lock>, req: Lock)
    requires Canonical(locks) && ValidRange(req) && req.kind != Unlock
    ensures Grantable(locks, req) <==> forall i :: 0 <= i < |locks| ==> !Blocks(locks[i], req)
  {
    forall i | 0 <= i < |locks| && Blocks(locks[i], req) ensures !Grantable(locks, req) {
      var l := locks[i];
      var off := if l.start < req.start then req.start else l.start;
      assert InRange(l, l.owner, off);
      TypeAtEntry(locks, l.owner, off);
    }
    forall o: nat, off: Off | o != req.owner && InRange(req, req.owner, off) && !Share(TypeAt(locks, o, off), req.kind)
      ensures exists i :: 0 <= i < |locks| && Blocks(locks[i], req)
    {
      TypeAtEntry(locks, o, off);
      var i :| 0 <= i < |locks| && InRange(locks[i], o, off);
      assert Blocks(locks[i], req);
    }
  }

  /**
   Granting a request that `locks_conflict` accepts, or any unlock, keeps the locks of
   all owners compatible, although the entry inserted may be wider than the request.
   */
  lemma GrantKeepsCompatible(locks: seq<Lock>, req: Lock, locks': seq<Lock>)
    requires Compatible(locks) && (req.kind == Unlock || Grantable(locks, req))
    requires forall o: nat, off: Off :: TypeAt(locks', o, off) == Overridden(locks, req, o, off)
    ensures Compatible(locks')
  {
    forall o1: nat, o2: nat, off: Off | o1 != o2
      ensures Share(TypeAt(locks', o1, off), TypeAt(locks', o2, off))
    {
      assert Share(TypeAt(locks, o1, off), TypeAt(locks, o2, off));
      assert TypeAt(locks', o1, off) == Overridden(locks, req, o1, off);
      assert TypeAt(locks', o2, off) == Overridden(locks, req, o2, off);
    }
  }

  datatype Span = Span(kind: LockKind, start: Off, end: Off)

  /** The entries of one owner, as kinds and ranges. */
  function OwnedSpans(locks: seq<Lock>, owner: nat): seq<Span> {
    if locks == [] then []
    else (if locks[0].owner == owner then [Span(locks[0].kind, locks[0].start, locks[0].end)] else [])
         + OwnedSpans(locks[1..], owner)
  }

  /** Dropping a foreign head changes neither the meaning nor the spans of an owner. */
  lemma CanonicalTail(locks: seq<Lock>)
    requires Canonical(locks) && locks != []
    ensures Canonical(locks[1..]) && ValidRange(locks[0]) && locks[0].kind != Unlock
    ensures forall i :: 0 <= i < |locks| - 1 && locks[1..][i].owner == locks[0].owner ==> Apart(locks[0], locks[1..][i])
  {
    assert forall i :: 0 <= i < |locks| - 1 ==> locks[1..][i] == locks[i + 1];
  }

  /** After an owner's first entry comes a gap or a lock of another kind. */
  lemma AfterHead(locks: seq<Lock>, off: Off)
    requires Canonical(locks) && locks != [] && off >= 0
    ensures off < locks[0].start ==> TypeAt(locks, locks[0].owner, off) == Unlock
    ensures locks[0].start <= off <= locks[0].end ==> TypeAt(locks, locks[0].owner, off) == locks[0].kind
    ensures off <= locks[0].end ==> TypeAt(locks[1..], locks[0].owner, off) == Unlock
    ensures off as int == locks[0].end as int + 1 ==> TypeAt(locks, locks[0].owner, off) != locks[0].kind
  {
    CanonicalTail(locks);
    TypeAtEntry(locks[1..], locks[0].owner, off);
  }

  /**
   The list is a normal form: two canonical lists that give an owner the same locks
   hold the same entries for it, in the same order, whatever requests built them.
   */
  lemma {:induction false} CanonicalUnique(a: seq<Lock>, b: seq<Lock>, owner: nat)
    requires Canonical(a) && Canonical(b)
    requires forall off: Off :: TypeAt(a, owner, off) == TypeAt(b, owner, off)
    ensures OwnedSpans(a, owner) == OwnedSpans(b, owner)
    decreases |a| + |b|
  {
    if a != [] && a[0].owner != owner {
      CanonicalTail(a);
      CanonicalUnique(a[1..], b, owner);
    } else if b != [] && b[0].owner != owner {
      CanonicalTail(b);
      CanonicalUnique(a, b[1..], owner);
    } else if a != [] && b != [] {
      SameHead(a, b);
      CanonicalTail(a);
      CanonicalTail(b);
      forall off: Off ensures TypeAt(a[1..], owner, off) == TypeAt(b[1..], owner, off) {
        assert TypeAt(a, owner, off) == TypeAt(b, owner, off);
        TypeAtEntry(a[1..], owner, off);
        TypeAtEntry(b[1..], owner, off);
        if off >= 0 {
          AfterHead(a, off);
          AfterHead(b, off);
        }
      }
      CanonicalUnique(a[1..], b[1..], owner);
    } else if a != [] {
      CanonicalTail(a);
      AfterHead(a, a[0].start);
    } else if b != [] {
      CanonicalTail(b);
      AfterHead(b, b[0].start);
    }
  }

  lemma SameHead(a: seq<Lock>, b: seq<Lock>)
    requires Canonical(a) && Canonical(b) && a != [] && b != [] && a[0].owner == b[0].owner
    requires forall off: Off :: TypeAt(a, a[0].owner, off) == TypeAt(b, a[0].owner, off)
    ensures a[0].kind == b[0].kind && a[0].start == b[0].start && a[0].end == b[0].end
  {
    var x, y := a[0], b[0];
    CanonicalTail(a);
    CanonicalTail(b);
    AfterHead(b, x.start);
    AfterHead(a, y.start);
    assert TypeAt(a, x.owner, x.start) == x.kind && TypeAt(b, x.owner, y.start) == y.kind;
    if x.end < y.end {
      AfterHead(a, x.end + 1);
    } else if y.end < x.end {
      AfterHead(b, y.end + 1);
    }
  }

  /** `struct flock` as it travels to and from the kernel; length 0 means "to the end". */
  datatype Flock = Flock(kind: LockKind, start: Off, len: Off, pid: int)

  function FlockToLock(f: Flock, owner: nat): Lock
    requires 0 <= f.start && 0 <= f.len && f.start as int + f.len as int - 1 <= OFFSET_MAX as int
  {
    Lock(f.kind, f.start, if f.len != 0 then f.start + (f.len - 1) else OFFSET_MAX, f.pid, owner)
  }

  function LockToFlock(l: Lock): Flock
    requires ValidRange(l)
  {
    Flock(l.kind, l.start, if l.end == OFFSET_MAX then 0 else l.end - l.start + 1, l.pid)
  }

  /** Reporting a lock and reading the report back gives the same lock, including those that reach OFFSET_MAX. */
  lemma FlockRoundTrip(l: Lock)
    requires ValidRange(l)
    ensures var f := LockToFlock(l);
            && 0 <= f.start && 0 <= f.len && f.start as int + f.len as int - 1 <= OFFSET_MAX as int
            && FlockToLock(f, l.owner) == l
  {
  }

  /** A request from the kernel covers `len` bytes from `start` on, or everything from there on. */
  lemma FlockCovers(f: Flock, owner: nat, off: Off)
    requires 0 <= f.start && 0 <= f.len && f.start as int + f.len as int - 1 <= OFFSET_MAX as int
    ensures InRange(FlockToLock(f, owner), owner, off) <==>
            f.start <= off && (f.len == 0 || off as int < f.start as int + f.len as int)
  {
  }

  /** So does the report of a lock. */
  lemma ReportCovers(l: Lock, off: Off)
    requires ValidRange(l)
    ensures var f := LockToFlock(l);
            InRange(l, l.owner, off) <==> f.start <= off && (f.len == 0 || off as int < f.start as int + f.len as int)
  {
  }

  /** The lock list of one inode, `node->locks`. */
  class InodeLocks {
    var locks: seq<Lock>

    ghost predicate Valid()
      reads this
    {
      Canonical(locks)
    }

    constructor ()
      ensures Valid() && locks == []
    {
      locks := [];
    }

    /**
     The entry at `lp`, of another kind, is deleted, trimmed at either end, or split in two
     with the second spare entry.
     */
    method CutEntry(lp: nat, lock: Lock, newl2: bool, ghost locks0: seq<Lock>, ghost request: Lock,
           ghost done: seq<Lock>, ghost tail: seq<Lock>)
      returns (next: nat, used: bool, stop: bool, ghost done': seq<Lock>, ghost rest': seq<Lock>)
      requires lp == |done| && lp < |locks| && locks == done + ([locks[lp]] + tail)
      requires Pending(locks0, request, done, [locks[lp]] + tail, lock)
      requires locks[lp].owner == lock.owner && locks[lp].kind != lock.kind
      requires locks[lp].end >= lock.start && lock.end >= locks[lp].start
      requires newl2 || (lock.start == 0 && lock.end == OFFSET_MAX)
      modifies this
      ensures next == |done'| && locks == done' + rest' && Pending(locks0, request, done', rest', lock)
      ensures stop || used ==> rest' != [] && rest'[0].owner == lock.owner && Apart(lock, rest'[0])
      ensures |rest'| == |tail| + if stop || used then 1 else 0
      ensures used ==> newl2 && !stop
    {
      hide Pending, TypeAt, Overridden, Canonical;
      var l := locks[lp];
      PendingEntry(locks0, request, done, l, tail, lock);
      RewriteEntry(locks0, request, done, l, tail, lock);
      next, used, stop, done', rest' := lp, false, false, done, tail;
      if lock.start <= l.start && l.end <= lock.end {
        Splice(done, l, tail, []);
        locks := locks[..lp] + [] + locks[lp + 1..];
        assert Remainder(l, lock) == [];
        assert [] + tail == tail;
      } else if l.end <= lock.end {
        var l' := l.(end := lock.start - 1);
        Splice(done, l, tail, [l']);
        locks := locks[lp := l'];
        assert Remainder(l, lock) == [l'];
        SkipEntry(locks0, request, done, l', tail, lock);
        next, done' := lp + 1, done + [l'];
      } else if lock.start <= l.start {
        var l' := l.(start := lock.end + 1);
        Splice(done, l, tail, [l']);
        locks := locks[lp := l'];
        assert Remainder(l, lock) == [l'];
        stop, rest' := true, [l'] + tail;
      } else {
        var low, high := l.(end := lock.start - 1), l.(start := lock.end + 1);
        Splice(done, l, tail, [low, high]);
        locks := locks[..lp] + [low, high] + locks[lp + 1..];
        assert Remainder(l, lock) == [low, high];
        assert [low, high] + tail == [low] + ([high] + tail);
        SkipEntry(locks0, request, done, low, [high] + tail, lock);
        next, used, done', rest' := lp + 1, true, done + [low], [high] + tail;
      }
    }

    /**
     Merges, trims, splits and deletes the owner's entries so that the list means the
     old one overridden by the request. `mem1` and `mem2` say whether the two spare
     entries could be allocated.
     */
    method LocksInsert(request: Lock, mem1: bool, mem2: bool) returns (ok: bool)
      requires Valid() && ValidRange(request)
      modifies this
      ensures Valid()
      ensures ok <==> (mem1 && mem2) || (request.kind == Unlock && request.start == 0 && request.end == OFFSET_MAX)
      ensures !ok ==> locks == old(locks)
      ensures ok ==> forall o: nat, off: Off :: TypeAt(locks, o, off) == Overridden(old(locks), request, o, off)
    {
      hide Pending, TypeAt, Overridden, Canonical;
      var lock := request;
      var newl1, newl2 := false, false;
      if lock.kind != Unlock || lock.start != 0 || lock.end != OFFSET_MAX {
        newl1, newl2 := mem1, mem2;
        if !newl1 || !newl2 {
          return false;
        }
      }
      ghost var split := false;
      ghost var done, rest := [], locks;
      var lp := 0;
      StartLoop(locks, lock);

      while lp < |locks|
        invariant lp == |done| && locks == done + rest
        invariant Pending(old(locks), request, done, rest, lock)
        invariant lock.kind != Unlock ==> newl1
        invariant newl2 || split || (lock.start == 0 && lock.end == OFFSET_MAX)
        invariant split ==> rest != [] && rest[0].owner == lock.owner && Apart(lock, rest[0])
        decreases |rest|, !split
      {
        var l := locks[lp];
        ghost var tail := rest[1..];
        assert rest == [l] + tail;
        PendingEntry(old(locks), request, done, l, tail, lock);
        if l.owner != lock.owner {
          SkipEntry(old(locks), request, done, l, tail, lock);
          done, rest := done + [l], tail;
          lp := lp + 1;
          assert locks == done + rest;
          continue;
        } else if lock.kind == l.kind {
          if l.end < lock.start - 1 {
            SkipEntry(old(locks), request, done, l, tail, lock);
            done, rest := done + [l], tail;
            lp := lp + 1;
            assert locks == done + rest;
            continue;
          } else if lock.end < l.start - 1 {
            break;
          } else if l.start <= lock.start && lock.end <= l.end {
            CoveredRequest(old(locks), request, done, l, tail, lock);
            return true;
          } else {
            RewriteEntry(old(locks), request, done, l, tail, lock);
            if l.start < lock.start {
              lock := lock.(start := l.start);
            }
            if lock.end < l.end {
              lock := lock.(end := l.end);
            }
            Splice(done, l, tail, []);
            locks := locks[..lp] + [] + locks[lp + 1..];
            rest := [] + tail;
            assert locks == done + rest;
            continue;
          }
        } else if l.end < lock.start {
          SkipEntry(old(locks), request, done, l, tail, lock);
          done, rest := done + [l], tail;
          lp := lp + 1;
          assert locks == done + rest;
          continue;
        } else if lock.end < l.start {
          break;
        } else {
          var used, stop;
          lp, used, stop, done, rest := CutEntry(lp, lock, newl2, old(locks), request, done, tail);
          if stop {
            break;
          }
          newl2, split := newl2 && !used, used;
          continue;
        }
      }
      LeaveLoop(old(locks), request, done, rest, lock);
      assert locks[..lp] == done && locks[lp..] == rest;
      if lock.kind != Unlock {
        assert newl1;
        locks := locks[..lp] + [lock] + locks[lp..];
      }
      return true;
    }

    /** The first entry of another owner that the request cannot share with, as `F_GETLK` reports it. */
    method LocksConflict(req: Lock) returns (r: Option<Lock>)
      requires Valid() && ValidRange(req)
      ensures r.Some? ==> exists i :: 0 <= i < |locks| && locks[i] == r.value && Blocks(locks[i], req)
                                      && forall j :: 0 <= j < i ==> !Blocks(locks[j], req)
      ensures r.None? ==> forall i :: 0 <= i < |locks| ==> !Blocks(locks[i], req)
      ensures req.kind != Unlock ==> (r.None? <==> Grantable(locks, req))
    {
      if req.kind != Unlock {
        ConflictScan(locks, req);
      }
      var i := 0;
      while i < |locks|
        invariant 0 <= i <= |locks|
        invariant forall j :: 0 <= j < i ==> !Blocks(locks[j], req)
      {
        var l := locks[i];
        if l.owner != req.owner && req.start <= l.end && l.start <= req.end
               && (l.kind == WriteLock || req.kind == WriteLock) {
          return Some(l);
        }
        i := i + 1;
      }
      return None;
    }
  }
}

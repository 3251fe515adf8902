/**
 The path locks of libfuse. A request that uses a path read-locks every node from the
 one it names up to the root's child; unlink, rmdir and rename also write-lock the node
 that they take away. Each node keeps its locks in one signed word.

 The state records, beside the words, which path locks are outstanding and which nodes
 and links each of them found when it was taken. The invariant says that the words count
 exactly those locks, and that what a lock found is still there.
 */
module TreeLocks {
  import opened Common
  import opened NodeGraph

  const INT_MAX: int := 0x7fff_ffff

  /** TREELOCK_WRITE */
  const WRITE: int := -1

  /** TREELOCK_WAIT_OFFSET, which is INT_MIN */
  const WAIT_OFFSET: int := -0x8000_0000

  /**
   One outstanding path lock: the read-locked nodes from the named one upwards, the link
   that each of them had when it was locked, and the write-locked node, if any (`wnode`).
   */
  datatype Held = Held(chain: seq<Ino>, links: seq<Link>, victim: Option<Ino>)

  type Holders = map<nat, Held>

  type Words = map<Ino, int>

  /** The node that the path was asked for. */
  function Bottom(h: Held): Ino {
    if h.chain == [] then ROOT else h.chain[0]
  }

  ghost function ReadersOf(held: Holders, n: Ino): set<nat> {
    set id | id in held && n in held[id].chain
  }

  ghost function WritersOf(held: Holders, n: Ino): set<nat> {
    set id | id in held && held[id].victim == Some(n)
  }

  /** The word of a node with `r` readers and `w` writers; a writer may be waiting for the readers. */
  predicate Encodes(t: int, r: nat, w: nat) {
    if w > 0 then w == 1 && r == 0 && t == WRITE
    else t == r || (r > 0 && t == r + WAIT_OFFSET)
  }

  /** The reader count that a word stands for. */
  function DecodeReaders(t: int): int {
    if t == WRITE then 0 else if t < 0 then t - WAIT_OFFSET else t
  }

  /** A word fits in an `int` and tells readers from a writer, as long as there are fewer than INT_MAX readers. */
  lemma WordDecodes(t: int, r: nat, w: nat)
    requires Encodes(t, r, w) && r < INT_MAX
    ensures WAIT_OFFSET < t <= INT_MAX
    ensures w > 0 <==> t == WRITE
    ensures r == DecodeReaders(t)
    ensures r > 0 ==> t != 0 && t != WAIT_OFFSET && t != WRITE
    ensures t == 0 <==> r == 0 && w == 0
  {
  }

  /** With INT_MAX readers and a waiting writer, the word is that of a writer. */
  lemma WordAmbiguous()
    ensures Encodes(WRITE, INT_MAX, 0) && Encodes(WRITE, 0, 1)
  {
  }

  /** The node above the `i`-th of a chain that ends below `top`. */
  function Above(chain: seq<Ino>, i: nat, top: Ino): Ino {
    if i + 1 < |chain| then chain[i + 1] else top
  }

  /** The chain of `h` is the path that the graph has now, link by link. */
  ghost predicate ChainOk(g: Graph, h: Held) {
    && |h.links| == |h.chain|
    && forall i :: 0 <= i < |h.chain| ==>
         && h.chain[i] in g.nodes && h.chain[i] != ROOT && g.nodes[h.chain[i]].link == Some(h.links[i])
         && h.links[i].parent == Above(h.chain, i, ROOT)
  }

  ghost predicate HeldOk(g: Graph, h: Held) {
    && ChainOk(g, h) && Distinct(h.chain)
    && Bottom(h) in g.nodes && g.nodes[Bottom(h)].nlookup > 0
    && (h.victim.Some? ==> h.victim.value in g.nodes && g.nodes[h.victim.value].nlookup > 0
                           && h.victim.value != ROOT && h.victim.value !in h.chain)
  }

  /** The words count exactly the outstanding locks, and every outstanding lock is still sound. */
  ghost predicate LockInv(g: Graph, words: Words, held: Holders) {
    && words.Keys == g.nodes.Keys
    && |held| < INT_MAX
    && HoldersOk(g, held)
    && WordsOk(words, held)
  }

  ghost predicate HoldersOk(g: Graph, held: Holders) {
    forall id :: id in held ==> HeldOk(g, held[id])
  }

  ghost predicate WordsOk(words: Words, held: Holders) {
    forall n :: n in words ==> Encodes(words[n], |ReadersOf(held, n)|, |WritersOf(held, n)|)
  }

  // ---------- taking and releasing one path lock ----------

  /** The words after `try_get_path` succeeded. */
  function Locked(words: Words, h: Held): Words {
    map n | n in words :: if h.victim == Some(n) then WRITE else if n in h.chain then words[n] + 1 else words[n]
  }

  /** The words after `unlock_path`. */
  function Unlocked(words: Words, h: Held): Words {
    map n | n in words ::
      if h.victim == Some(n) then 0
      else if n in h.chain then (if words[n] - 1 == WAIT_OFFSET then 0 else words[n] - 1)
      else words[n]
  }

  /** The words after an attempt that found `n` busy: readers are told that a writer waits. */
  function Waiting(words: Words, n: Ino): Words {
    if n in words && words[n] > 0 then words[n := words[n] + WAIT_OFFSET] else words
  }

  /** What `try_get_path` requires of the words to succeed. */
  ghost predicate Free(words: Words, h: Held) {
    && (forall n :: n in h.chain ==> n in words && words[n] >= 0)
    && (h.victim.Some? ==> h.victim.value in words && words[h.victim.value] == 0)
  }

  lemma HoldersAtMost(held: Holders, s: set<nat>)
    requires forall id :: id in s ==> id in held
    ensures |s| <= |held|
  {
    SubsetSize(s, held.Keys);
  }

  lemma {:induction false} SubsetSize(s: set<nat>, t: set<nat>)
    requires s <= t
    ensures |s| <= |t|
  {
    if s != {} {
      var x :| x in s;
      SubsetSize(s - {x}, t - {x});
    }
  }

  lemma OneMoreReader(held: Holders, id: nat, h: Held, n: Ino)
    requires id !in held
    ensures |ReadersOf(held[id := h], n)| == |ReadersOf(held, n)| + (if n in h.chain then 1 else 0)
  {
    if n in h.chain {
      assert ReadersOf(held[id := h], n) == ReadersOf(held, n) + {id};
    } else {
      assert ReadersOf(held[id := h], n) == ReadersOf(held, n);
    }
  }

  lemma OneMoreWriter(held: Holders, id: nat, h: Held, n: Ino)
    requires id !in held
    ensures |WritersOf(held[id := h], n)| == |WritersOf(held, n)| + (if h.victim == Some(n) then 1 else 0)
  {
    if h.victim == Some(n) {
      assert WritersOf(held[id := h], n) == WritersOf(held, n) + {id};
    } else {
      assert WritersOf(held[id := h], n) == WritersOf(held, n);
    }
  }

  lemma OneReaderLess(held: Holders, id: nat, n: Ino)
    requires id in held
    ensures |ReadersOf(held - {id}, n)| == |ReadersOf(held, n)| - (if n in held[id].chain then 1 else 0)
  {
    assert ReadersOf(held - {id}, n) == ReadersOf(held, n) - {id};
  }

  lemma OneWriterLess(held: Holders, id: nat, n: Ino)
    requires id in held
    ensures |WritersOf(held - {id}, n)| == |WritersOf(held, n)| - (if held[id].victim == Some(n) then 1 else 0)
  {
    assert WritersOf(held - {id}, n) == WritersOf(held, n) - {id};
  }

  lemma HolderNumber(held: Holders, id: nat, h: Held)
    ensures id !in held ==> |held[id := h]| == |held| + 1
    ensures id in held ==> |held - {id}| == |held| - 1
  {
    if id !in held {
      assert held[id := h].Keys == held.Keys + {id};
    } else {
      assert (held - {id}).Keys == held.Keys - {id};
    }
  }

  /** The word of one node and the locks that it counts. */
  lemma WordOf(words: Words, held: Holders, n: Ino)
    requires WordsOk(words, held) && n in words && |held| < INT_MAX
    ensures Encodes(words[n], |ReadersOf(held, n)|, |WritersOf(held, n)|) && |ReadersOf(held, n)| < INT_MAX
    ensures words[n] == WRITE <==> exists id :: id in held && held[id].victim == Some(n)
    ensures words[n] == WRITE ==> forall id :: id in held ==> n !in held[id].chain
    ensures words[n] == 0 ==> forall id :: id in held ==> n !in held[id].chain && held[id].victim != Some(n)
    ensures forall id :: id in held && n in held[id].chain ==>
            words[n] != 0 && words[n] != WAIT_OFFSET && words[n] != WRITE
    ensures forall id :: id in held && held[id].victim == Some(n) ==> words[n] == WRITE
  {
    HoldersAtMost(held, ReadersOf(held, n));
    WordDecodes(words[n], |ReadersOf(held, n)|, |WritersOf(held, n)|);
    if words[n] == WRITE {
      var id :| id in WritersOf(held, n);
    }
    forall id | id in held && n in held[id].chain ensures |ReadersOf(held, n)| > 0 {
      assert id in ReadersOf(held, n);
    }
    forall id | id in held && held[id].victim == Some(n) ensures |WritersOf(held, n)| > 0 {
      assert id in WritersOf(held, n);
    }
  }

  /** A node is open to readers exactly if nobody has write-locked it and no writer waits for its readers. */
  lemma OpenIff(words: Words, held: Holders, n: Ino)
    requires WordsOk(words, held) && n in words && |held| < INT_MAX
    ensures words[n] >= 0 <==> WritersOf(held, n) == {} && words[n] == |ReadersOf(held, n)|
    ensures words[n] == 0 <==> WritersOf(held, n) == {} && ReadersOf(held, n) == {}
  {
    WordOf(words, held, n);
    WordDecodes(words[n], |ReadersOf(held, n)|, |WritersOf(held, n)|);
  }

  /** So a lock can be taken exactly if its whole way is open and the node to write-lock has no holder. */
  lemma FreeIff(words: Words, held: Holders, h: Held)
    requires WordsOk(words, held) && |held| < INT_MAX
    requires (forall n :: n in h.chain ==> n in words) && (h.victim.Some? ==> h.victim.value in words)
    ensures Free(words, h) <==>
              && (forall n :: n in h.chain ==> WritersOf(held, n) == {} && words[n] == |ReadersOf(held, n)|)
              && (h.victim.Some? ==> WritersOf(held, h.victim.value) == {} && ReadersOf(held, h.victim.value) == {})
  {
    hide WordsOk, ReadersOf, WritersOf;
    forall n | n in h.chain
      ensures words[n] >= 0 <==> WritersOf(held, n) == {} && words[n] == |ReadersOf(held, n)|
    {
      OpenIff(words, held, n);
    }
    if h.victim.Some? {
      OpenIff(words, held, h.victim.value);
    }
  }

  /** A refused writer closes the node to further readers, and changes nothing else: its readers are still counted. */
  lemma WaitCloses(words: Words, held: Holders, n: Ino, h: Held)
    requires WordsOk(words, held) && n in words && |held| < INT_MAX && words[n] != 0
    ensures Waiting(words, n)[n] < 0 && DecodeReaders(Waiting(words, n)[n]) == |ReadersOf(held, n)|
    ensures n in h.chain ==> !Free(Waiting(words, n), h)
    ensures forall m :: m in words && m != n ==> m in Waiting(words, n) && Waiting(words, n)[m] == words[m]
  {
    WordOf(words, held, n);
    WordDecodes(words[n], |ReadersOf(held, n)|, |WritersOf(held, n)|);
  }

  lemma LockCounts(words: Words, held: Holders, id: nat, h: Held, n: Ino)
    requires WordsOk(words, held) && id !in held && |held| + 1 < INT_MAX && n in words
    requires Free(words, h) && (h.victim.Some? ==> h.victim.value !in h.chain)
    ensures Encodes(Locked(words, h)[n], |ReadersOf(held[id := h], n)|, |WritersOf(held[id := h], n)|)
  {
    hide WordsOk;
    WordOf(words, held, n);
    OneMoreReader(held, id, h, n);
    OneMoreWriter(held, id, h, n);
    WordDecodes(words[n], |ReadersOf(held, n)|, |WritersOf(held, n)|);
  }

  lemma LockKeepsWords(words: Words, held: Holders, id: nat, h: Held)
    requires WordsOk(words, held) && id !in held && |held| + 1 < INT_MAX
    requires Free(words, h) && (h.victim.Some? ==> h.victim.value !in h.chain)
    ensures WordsOk(Locked(words, h), held[id := h])
  {
    hide Encodes, Free, ReadersOf, WritersOf;
    forall n | n in words
      ensures Encodes(Locked(words, h)[n], |ReadersOf(held[id := h], n)|, |WritersOf(held[id := h], n)|)
    {
      LockCounts(words, held, id, h, n);
    }
  }

  lemma OneMoreOk(g: Graph, held: Holders, id: nat, h: Held)
    requires HoldersOk(g, held) && HeldOk(g, h)
    ensures HoldersOk(g, held[id := h])
  {
    hide HeldOk;
  }

  lemma VictimApart(g: Graph, h: Held)
    requires HeldOk(g, h)
    ensures h.victim.Some? ==> h.victim.value !in h.chain
  {
  }

  /** A successful attempt adds exactly its own lock to the account. */
  lemma LockKeepsInv(g: Graph, words: Words, held: Holders, id: nat, h: Held)
    requires LockInv(g, words, held) && id !in held && |held| + 1 < INT_MAX
    requires HeldOk(g, h) && Free(words, h)
    ensures LockInv(g, Locked(words, h), held[id := h])
  {
    hide HeldOk, WordsOk, Free, HoldersOk;
    VictimApart(g, h);
    LockKeepsWords(words, held, id, h);
    OneMoreOk(g, held, id, h);
    HolderNumber(held, id, h);
  }

  /** What the assertions of `unlock_path` claim about a lock that is outstanding. */
  ghost predicate UnlockAsserts(words: Words, h: Held) {
    && (h.victim.Some? ==> h.victim.value in words && words[h.victim.value] == WRITE)
    && forall n :: n in h.chain ==> n in words && words[n] != 0 && words[n] != WAIT_OFFSET && words[n] != WRITE
  }

  lemma UnlockAssertsHold(g: Graph, words: Words, held: Holders, id: nat)
    requires LockInv(g, words, held) && id in held
    ensures UnlockAsserts(words, held[id])
  {
    var h := held[id];
    assert HeldOk(g, h);
    forall n | n in h.chain ensures n in words && words[n] != 0 && words[n] != WAIT_OFFSET && words[n] != WRITE {
      var i :| 0 <= i < |h.chain| && h.chain[i] == n;
      WordOf(words, held, n);
    }
    if h.victim.Some? {
      WordOf(words, held, h.victim.value);
    }
  }

  lemma UnlockCounts(words: Words, held: Holders, id: nat, n: Ino)
    requires WordsOk(words, held) && id in held && |held| < INT_MAX && n in words
    ensures Encodes(Unlocked(words, held[id])[n], |ReadersOf(held - {id}, n)|, |WritersOf(held - {id}, n)|)
  {
    hide WordsOk;
    WordOf(words, held, n);
    OneReaderLess(held, id, n);
    OneWriterLess(held, id, n);
    WordDecodes(words[n], |ReadersOf(held, n)|, |WritersOf(held, n)|);
    if n in held[id].chain {
      assert id in ReadersOf(held, n);
    }
    if held[id].victim == Some(n) {
      assert id in WritersOf(held, n);
    }
  }

  lemma UnlockKeepsWords(words: Words, held: Holders, id: nat)
    requires WordsOk(words, held) && id in held && |held| < INT_MAX
    ensures WordsOk(Unlocked(words, held[id]), held - {id})
  {
    hide Encodes, ReadersOf, WritersOf;
    forall n | n in words
      ensures Encodes(Unlocked(words, held[id])[n], |ReadersOf(held - {id}, n)|, |WritersOf(held - {id}, n)|)
    {
      UnlockCounts(words, held, id, n);
    }
  }

  lemma OneLessOk(g: Graph, held: Holders, id: nat)
    requires HoldersOk(g, held)
    ensures HoldersOk(g, held - {id})
  {
    hide HeldOk;
  }

  /** Releasing a lock takes exactly its own share out of the account. */
  lemma UnlockKeepsInv(g: Graph, words: Words, held: Holders, id: nat)
    requires LockInv(g, words, held) && id in held
    ensures LockInv(g, Unlocked(words, held[id]), held - {id})
  {
    hide WordsOk, HoldersOk;
    UnlockKeepsWords(words, held, id);
    OneLessOk(g, held, id);
    HolderNumber(held, id, held[id]);
  }

  lemma WaitKeepsWords(words: Words, held: Holders, n: Ino)
    requires WordsOk(words, held) && |held| < INT_MAX
    ensures WordsOk(Waiting(words, n), held)
  {
    hide ReadersOf, WritersOf;
    if n in words {
      WordOf(words, held, n);
      WordDecodes(words[n], |ReadersOf(held, n)|, |WritersOf(held, n)|);
    }
  }

  /** Announcing a waiting writer changes no account. */
  lemma WaitKeepsInv(g: Graph, words: Words, held: Holders, n: Ino)
    requires LockInv(g, words, held)
    ensures LockInv(g, Waiting(words, n), held)
  {
    hide HoldersOk, WordsOk;
    WaitKeepsWords(words, held, n);
  }

  /** Taking a lock and releasing it again restores the words of all nodes. */
  lemma LockUnlock(words: Words, h: Held)
    requires Free(words, h) && (h.victim.Some? ==> h.victim.value !in h.chain)
    ensures Unlocked(Locked(words, h), h) == words
  {
  }

  // ---------- the node graph moves while locks are held ----------

  /** A lock stays sound while its chain keeps its links and its ends stay looked up. */
  lemma HeldFrame(g: Graph, g': Graph, h: Held)
    requires HeldOk(g, h)
    requires forall n :: n in h.chain ==> n in g'.nodes && g'.nodes[n].link == g.nodes[n].link
    requires Bottom(h) in g'.nodes && g'.nodes[Bottom(h)].nlookup > 0
    requires h.victim.Some? ==> h.victim.value in g'.nodes && g'.nodes[h.victim.value].nlookup > 0
    ensures HeldOk(g', h)
  {
  }

  /** Steps that keep all nodes, links and positive lookup counts keep every lock sound. */
  lemma HoldersFrame(g: Graph, g': Graph, held: Holders)
    requires HoldersOk(g, held)
    requires forall n :: n in g.nodes ==> n in g'.nodes && g'.nodes[n].link == g.nodes[n].link
    requires forall n :: n in g.nodes && g.nodes[n].nlookup > 0 ==> g'.nodes[n].nlookup > 0
    ensures HoldersOk(g', held)
  {
    forall id | id in held ensures HeldOk(g', held[id]) {
      assert HeldOk(g, held[id]);
      HeldFrame(g, g', held[id]);
    }
  }

  /** Node `m` has lost its link, or got another; that is harmless exactly when nobody reads it. */
  lemma RelinkUnread(g: Graph, g': Graph, held: Holders, unread: set<Ino>)
    requires HoldersOk(g, held) && SameNodes(g, g')
    requires forall n :: n in g.nodes && n !in unread ==> g'.nodes[n].link == g.nodes[n].link
    requires forall id, n :: id in held && n in unread ==> n !in held[id].chain
    ensures HoldersOk(g', held)
  {
    forall id | id in held ensures HeldOk(g', held[id]) {
      assert HeldOk(g, held[id]);
      forall n | n in held[id].chain ensures n in g'.nodes && g'.nodes[n].link == g.nodes[n].link {
        var i :| 0 <= i < |held[id].chain| && held[id].chain[i] == n;
      }
      HeldFrame(g, g', held[id]);
    }
  }

  /** The walk up from the node that a lock was taken for is the lock's chain. */
  lemma {:induction false} ChainIsTheWay(g: Graph, h: Held, p: seq<Ino>, i: nat)
    requires Structure(g, {}) && RootOk(g) && ChainOk(g, h) && UpPath(g, p) && p[0] == Bottom(h) && i < |p|
    ensures i <= |h.chain| && p[i] == if i < |h.chain| then h.chain[i] else ROOT
  {
    if i > 0 {
      ChainIsTheWay(g, h, p, i - 1);
      assert Edge(g, p[i - 1], p[i - 1 + 1]);
      if i - 1 < |h.chain| {
        assert g.nodes[h.chain[i - 1]].link == Some(h.links[i - 1]);
      }
    }
  }

  /** A node that no reader of the chain passes is not above the node that the chain starts from. */
  lemma NotAbove(g: Graph, h: Held, n: Ino)
    requires Structure(g, {}) && RootOk(g) && ChainOk(g, h) && n !in h.chain && n != ROOT
    ensures !AtOrBelow(g, Bottom(h), n)
  {
    if AtOrBelow(g, Bottom(h), n) {
      var p :| UpPath(g, p) && p[0] == Bottom(h) && p[|p| - 1] == n;
      ChainIsTheWay(g, h, p, |p| - 1);
      assert false;
    }
  }

  // ---------- forgetting while locks are held ----------

  /** Each node of a held chain has the chain's bottom below it. */
  lemma ChainPath(g: Graph, h: Held, i: nat)
    requires Structure(g, {}) && ChainOk(g, h) && i < |h.chain|
    ensures UpPath(g, h.chain[..i + 1])
  {
    var p := h.chain[..i + 1];
    forall j | 0 <= j < |p| - 1 ensures Edge(g, p[j], p[j + 1]) {
      assert g.nodes[h.chain[j]].link == Some(h.links[j]);
    }
  }

  lemma HeldSupported(g: Graph, pins: multiset<Ino>, h: Held, n: Ino)
    requires Structure(g, {}) && HeldOk(g, h)
    requires n in h.chain || h.victim == Some(n) || n == Bottom(h)
    ensures n in g.nodes && Supported(g, pins, n)
  {
    if n in h.chain {
      var i :| 0 <= i < |h.chain| && h.chain[i] == n;
      ChainPath(g, h, i);
      var p := h.chain[..i + 1];
      assert UpPath(g, p) && Anchor(g, pins, p[0]) && p[|p| - 1] == n;
    } else {
      var p := [n];
      assert UpPath(g, p) && Anchor(g, pins, p[0]) && p[|p| - 1] == n;
    }
  }

  function Restricted(words: Words, g: Graph): Words {
    map n | n in words && n in g.nodes :: words[n]
  }

  /** A collection of unneeded nodes frees no node of a held path, and none whose word is not zero. */
  lemma CollectKeepsHolders(g: Graph, g': Graph, pins: multiset<Ino>, held: Holders)
    requires Structure(g, {}) && HoldersOk(g, held) && Collected(g, g', pins, {})
    requires forall m :: m in g'.nodes <==> m in g.nodes && Supported(g, pins, m)
    ensures HoldersOk(g', held)
  {
    forall id | id in held ensures HeldOk(g', held[id]) {
      var h := held[id];
      assert HeldOk(g, h);
      forall n | n in h.chain || h.victim == Some(n) || n == Bottom(h) ensures n in g'.nodes {
        HeldSupported(g, pins, h, n);
      }
      HeldFrame(g, g', h);
    }
  }

  lemma CollectKeepsWords(g: Graph, g': Graph, pins: multiset<Ino>, words: Words, held: Holders)
    requires WordsOk(words, held) && |held| < INT_MAX && words.Keys == g.nodes.Keys
    requires HoldersOk(g', held) && (forall m :: m in g'.nodes ==> m in g.nodes)
    ensures WordsOk(Restricted(words, g'), held) && Restricted(words, g').Keys == g'.nodes.Keys
    ensures forall n :: n in g.nodes && n !in g'.nodes ==> words[n] == 0
  {
    forall n | n in g.nodes && n !in g'.nodes ensures words[n] == 0 {
      forall id | id in held ensures n !in held[id].chain && held[id].victim != Some(n) {
        assert HeldOk(g', held[id]);
      }
      assert ReadersOf(held, n) == {} && WritersOf(held, n) == {};
      assert Encodes(words[n], |ReadersOf(held, n)|, |WritersOf(held, n)|);
    }
  }

  // ---------- the state machine: one step per section under the mutex ----------

  datatype State = State(g: Graph, words: Words, held: Holders, pins: multiset<Ino>)

  ghost predicate Inv(s: State) {
    GraphInv(s.g, s.pins) && LockInv(s.g, s.words, s.held) && Homed(s.g, s.held)
  }

  /** The two path locks of one request are numbered 2n and 2n + 1. */
  predicate First(id: nat) {
    id % 2 == 0
  }

  /**
   The request that has write-locked a node holds the path of the directory that the node
   is in: the one that it was found in or, after a rename, that of the request's second path.
   */
  ghost predicate AtHome(g: Graph, held: Holders, id: nat)
    requires id in held
  {
    var v := held[id].victim;
    v.Some? && v.value in g.nodes && g.nodes[v.value].link.Some? ==>
      var parent := g.nodes[v.value].link.value.parent;
      parent == Bottom(held[id]) || (First(id) && id + 1 in held && parent == Bottom(held[id + 1]))
  }

  ghost predicate Homed(g: Graph, held: Holders) {
    forall id :: id in held ==> AtHome(g, held, id)
  }

  /** A node is write-locked where it was found by name. */
  ghost predicate FoundBelow(g: Graph, h: Held) {
    h.victim.Some? ==>
      h.victim.value in g.nodes && g.nodes[h.victim.value].link.Some?
             && g.nodes[h.victim.value].link.value.parent == Bottom(h)
  }

  /** The second lock of a request is given back when the first has been. */
  ghost predicate FirstGone(held: Holders, id: nat) {
    First(id) || id - 1 !in held
  }

  /**
   `Find`: `find_node` by name; `FindSelf`: without a name. `Pin` and `Unpin`: the
   reference held during a lookup of ".". `Lock`, `Busy` and `Unlock`: path locks taken,
   refused and released. `Remove` and `Rename` happen under path locks `id`, `id1`, `id2`.
   */
  datatype Op =
    | Find(l: Link, fresh_id: Ino, generation: nat)
    | FindSelf(n: Ino)
    | Forget(n: Ino, k: nat)
    | Pin(n: Ino)
    | Unpin(n: Ino)
    | Lock(id: nat, h: Held)
    | Busy(n: Ino)
    | Unlock(id: nat)
    | Remove(id: nat, l: Link)
    | Rename(id1: nat, id2: nat, lo: Link, ln: Link, hiding: bool)

  /** The name is one that lock `id` write-locked, or is not a node. */
  ghost predicate NameLocked(s: State, id: nat, l: Link) {
    && id in s.held && l.parent == Bottom(s.held[id])
    && (l in s.g.names ==> s.held[id].victim == Some(s.g.names[l]))
  }

  /**
   The new name of a rename; one that is only for hiding a file gives way to a node of that name,
   which nobody has locked.
   */
  ghost predicate TargetLocked(s: State, id: nat, l: Link, hiding: bool) {
    && id in s.held && l.parent == Bottom(s.held[id])
    && (l in s.g.names && !hiding ==> s.held[id].victim == Some(s.g.names[l]))
  }

  /** A request renames under its two path locks, or hides a file under the one that it has. */
  predicate OneRequest(id1: nat, id2: nat) {
    id2 == id1 || (First(id1) && id2 == id1 + 1)
  }

  /** When an operation may happen. */
  ghost predicate Enabled(s: State, op: Op) {
    match op
    case Find(l, id, _) =>
      && l.parent in s.g.nodes
      && if l in s.g.names then s.g.names[l] in s.g.nodes else id !in s.g.nodes
    case FindSelf(n) => n in s.g.nodes
    // forget_node waits while the last lookup of a locked node would go
    case Forget(n, k) =>
      && n in s.g.nodes && n in s.words && n != ROOT && 0 < s.g.nodes[n].nlookup && k <= s.g.nodes[n].nlookup
      && !(s.g.nodes[n].nlookup == k && s.words[n] != 0)
    case Pin(n) => n in s.g.nodes
    case Unpin(n) => n in s.pins
    case Lock(id, h) =>
      && id !in s.held && |s.held| + 1 < INT_MAX && HeldOk(s.g, h) && FoundBelow(s.g, h)
      && Free(s.words, h)
    case Busy(n) => true
    case Unlock(id) => id in s.held && FirstGone(s.held, id)
    case Remove(id, l) => NameLocked(s, id, l)
    case Rename(id1, id2, lo, ln, hiding) =>
      && OneRequest(id1, id2) && NameLocked(s, id1, lo)
      && TargetLocked(s, id2, ln, hiding)
  }

  /** The effect of an enabled operation. */
  ghost function Apply(s: State, op: Op): State
    requires Enabled(s, op)
  {
    match op
    case Find(l, id, gen) =>
      var g' := FindNode(s.g, l, id, gen);
      s.(g := g', words := if l in s.g.names then s.words else s.words[id := 0])
    case FindSelf(n) => s.(g := IncLookup(s.g, n))
    case Forget(n, k) =>
      var g' := NodeGraph.Forget(s.g, n, k);
      s.(g := g', words := Restricted(s.words, g'))
    case Pin(n) => s.(g := SetRefs(s.g, n, s.g.nodes[n].refctr + 1), pins := s.pins + multiset{n})
    case Unpin(n) =>
      var g' := Unref(s.g, n);
      s.(g := g', words := Restricted(s.words, g'), pins := s.pins - multiset{n})
    case Lock(id, h) => s.(words := Locked(s.words, h), held := s.held[id := h])
    case Busy(n) => s.(words := Waiting(s.words, n))
    case Unlock(id) => s.(words := Unlocked(s.words, s.held[id]), held := s.held - {id})
    case Remove(id, l) => s.(g := NodeGraph.Remove(s.g, l))
    case Rename(id1, id2, lo, ln, hiding) => s.(g := NodeGraph.Rename(s.g, lo, ln, hiding).g)
  }

  ghost predicate Steps(s: State, op: Op, s': State) {
    Enabled(s, op) && s' == Apply(s, op)
  }

  // ---------- write-locked nodes stay where their request can reach them ----------

  lemma HomedFrame(g: Graph, g': Graph, held: Holders)
    requires Homed(g, held) && HoldersOk(g, held)
    requires forall m :: m in g.nodes && m in g'.nodes ==> g'.nodes[m].link == g.nodes[m].link || g'.nodes[m].link.None?
    ensures Homed(g', held)
  {
    forall id | id in held ensures AtHome(g', held, id) {
      assert AtHome(g, held, id) && HeldOk(g, held[id]);
    }
  }

  lemma HomedLock(g: Graph, held: Holders, id: nat, h: Held)
    requires Homed(g, held) && id !in held && FoundBelow(g, h)
    ensures Homed(g, held[id := h])
  {
    var held' := held[id := h];
    forall i | i in held' ensures AtHome(g, held', i) {
      if i != id {
        assert AtHome(g, held, i);
      }
    }
  }

  lemma HomedUnlock(g: Graph, held: Holders, id: nat)
    requires Homed(g, held) && id in held && FirstGone(held, id)
    ensures Homed(g, held - {id})
  {
    var held' := held - {id};
    forall i | i in held' ensures AtHome(g, held', i) {
      assert AtHome(g, held, i);
    }
  }

  lemma HomeOfOther(g: Graph, g': Graph, held: Holders, i: nat, n: Ino, lo: Link, ln: Link)
    requires Renamed(g, g', n, lo, ln) && i in held && AtHome(g, held, i) && HeldOk(g, held[i])
             && held[i].victim != Some(n)
    ensures AtHome(g', held, i)
  {
    hide ChainOk, First;
  }

  lemma HomeOfRenamed(g: Graph, g': Graph, held: Holders, id1: nat, id2: nat, n: Ino, lo: Link, ln: Link)
    requires Renamed(g, g', n, lo, ln) && OneRequest(id1, id2) && id1 in held && id2 in held && n in g.nodes
    requires held[id1].victim == Some(n) && ln.parent == Bottom(held[id2])
    ensures AtHome(g', held, id1)
  {
    hide First;
  }

  lemma HomedRename(g: Graph, g': Graph, words: Words, held: Holders, id1: nat, id2: nat, n: Ino, lo: Link, ln: Link)
    requires Homed(g, held) && HoldersOk(g, held) && WordsOk(words, held) && words.Keys == g.nodes.Keys
             && |held| < INT_MAX
    requires Renamed(g, g', n, lo, ln) && OneRequest(id1, id2) && id1 in held && id2 in held && n in g.nodes
    requires held[id1].victim == Some(n) && ln.parent == Bottom(held[id2])
    ensures Homed(g', held)
  {
    hide WordsOk, Renamed, AtHome, HeldOk, OneRequest;
    forall i | i in held ensures AtHome(g', held, i) {
      if held[i].victim == Some(n) {
        OneWriter(words, held, n, i, id1);
        HomeOfRenamed(g, g', held, id1, id2, n, lo, ln);
      } else {
        assert AtHome(g, held, i) && HeldOk(g, held[i]);
        HomeOfOther(g, g', held, i, n, lo, ln);
      }
    }
  }

  lemma OneWriter(words: Words, held: Holders, n: Ino, i: nat, j: nat)
    requires WordsOk(words, held) && n in words && i in held && j in held && held[i].victim == held[j].victim == Some(n)
    ensures i == j
  {
    SubsetSize({i, j}, WritersOf(held, n));
    assert i != j ==> |{i, j}| == 2;
  }

  lemma CollectedLinks(g: Graph, g': Graph, pins: multiset<Ino>)
    requires Collected(g, g', pins, {})
    ensures forall m :: m in g'.nodes ==> m in g.nodes && g'.nodes[m].link == g.nodes[m].link
  {
  }

  lemma FindKeeps(s: State, l: Link, id: Ino, generation: nat)
    requires Inv(s) && Enabled(s, Find(l, id, generation))
    ensures Inv(Apply(s, Find(l, id, generation)))
  {
    hide Structure, Counted, Acyclic, WordsOk, HoldersOk, FindNode, IncLookup, Homed;
    if l in s.g.names {
      NamedNode(s.g, s.pins, l);
      FindFound(s.g, l, id, generation);
      IncLookupKeepsInv(s.g, s.pins, s.g.names[l]);
      HoldersFrame(s.g, IncLookup(s.g, s.g.names[l]), s.held);
      HomedFrame(s.g, IncLookup(s.g, s.g.names[l]), s.held);
    } else {
      FindCreates(s.g, s.pins, l, id, generation);
      var g' := WithNewNode(s.g, l, id, generation);
      HoldersFrame(s.g, g', s.held);
      HomedFrame(s.g, g', s.held);
      NewWord(s.g, s.words, s.held, id);
    }
  }

  lemma FindFound(g: Graph, l: Link, id: Ino, generation: nat)
    requires l in g.names && g.names[l] in g.nodes && l.parent in g.nodes
    ensures FindNode(g, l, id, generation) == IncLookup(g, g.names[l])
  {
  }

  lemma NewWord(g: Graph, words: Words, held: Holders, id: Ino)
    requires HoldersOk(g, held) && WordsOk(words, held) && id !in g.nodes
    ensures WordsOk(words[id := 0], held)
  {
    forall i | i in held ensures id !in held[i].chain && held[i].victim != Some(id) {
      assert HeldOk(g, held[i]);
    }
    assert ReadersOf(held, id) == {} && WritersOf(held, id) == {};
  }

  lemma FindSelfKeeps(s: State, n: Ino)
    requires Inv(s) && Enabled(s, FindSelf(n))
    ensures Inv(Apply(s, FindSelf(n)))
  {
    hide Structure, Counted, Acyclic, WordsOk, HoldersOk, IncLookup, Homed;
    IncLookupKeepsInv(s.g, s.pins, n);
    HoldersFrame(s.g, IncLookup(s.g, n), s.held);
    HomedFrame(s.g, IncLookup(s.g, n), s.held);
  }

  /** Whoever holds a node, as an end of a path or as the victim, sees to it that its word is not zero. */
  lemma HolderMarks(g: Graph, words: Words, held: Holders, id: nat)
    requires HoldersOk(g, held) && WordsOk(words, held) && words.Keys == g.nodes.Keys && |held| < INT_MAX && id in held
    ensures HeldOk(g, held[id])
    ensures Bottom(held[id]) == ROOT || words[Bottom(held[id])] != 0
    ensures held[id].victim.Some? ==> words[held[id].victim.value] != 0
  {
    assert HeldOk(g, held[id]);
    WordOf(words, held, Bottom(held[id]));
    if held[id].victim.Some? {
      WordOf(words, held, held[id].victim.value);
    }
  }

  lemma HeldLookups(g: Graph, h: Held, n: Ino, k: nat)
    requires HeldOk(g, h) && n in g.nodes
    requires k == 0 ==> n != Bottom(h) && h.victim != Some(n)
    ensures HeldOk(SetLookups(g, n, k), h)
  {
    HeldFrame(g, SetLookups(g, n, k), h);
  }

  /** The last lookup of a node only goes while nobody holds it. */
  lemma ForgetSparesHolders(g: Graph, words: Words, held: Holders, n: Ino, k: nat)
    requires HoldersOk(g, held) && WordsOk(words, held) && words.Keys == g.nodes.Keys && |held| < INT_MAX
    requires n in g.nodes && n != ROOT && (k == 0 ==> words[n] == 0)
    ensures HoldersOk(SetLookups(g, n, k), held)
  {
    hide HeldOk, WordsOk;
    forall id | id in held ensures HeldOk(SetLookups(g, n, k), held[id]) {
      HolderMarks(g, words, held, id);
      HeldLookups(g, held[id], n, k);
    }
  }

  lemma ForgetKeeps(s: State, n: Ino, k: nat)
    requires Inv(s) && Enabled(s, Forget(n, k))
    ensures Inv(Apply(s, Forget(n, k)))
    ensures forall m :: m in s.g.nodes && m !in Apply(s, Forget(n, k)).g.nodes ==> s.words[m] == 0
  {
    hide Structure, Counted, Acyclic, WordsOk, HoldersOk, Collected, Supported, NodeGraph.Forget, Homed;
    var g1 := SetLookups(s.g, n, s.g.nodes[n].nlookup - k);
    var g' := NodeGraph.Forget(s.g, n, k);
    ForgetSparesHolders(s.g, s.words, s.held, n, s.g.nodes[n].nlookup - k);
    StructureOfLookups(s.g, n, s.g.nodes[n].nlookup - k);
    ForgetFreesUnneeded(s.g, s.pins, n, k);
    CollectKeepsHolders(g1, g', s.pins, s.held);
    CollectKeepsWords(g1, g', s.pins, s.words, s.held);
    CollectedLinks(g1, g', s.pins);
    HomedFrame(s.g, g', s.held);
  }

  lemma StructureOfLookups(g: Graph, n: Ino, k: nat)
    requires Structure(g, {}) && n in g.nodes
    ensures Structure(SetLookups(g, n, k), {})
  {
  }

  lemma UnpinKeeps(s: State, n: Ino)
    requires Inv(s) && Enabled(s, Unpin(n))
    ensures Inv(Apply(s, Unpin(n)))
    ensures forall m :: m in s.g.nodes && m !in Apply(s, Unpin(n)).g.nodes ==> s.words[m] == 0
  {
    hide Structure, Counted, Acyclic, WordsOk, HoldersOk, Collected, Supported, Unref, Homed;
    UnpinFreesUnneeded(s.g, s.pins, n);
    CollectedLinks(s.g, Unref(s.g, n), s.pins - multiset{n});
    HomedFrame(s.g, Unref(s.g, n), s.held);
    CollectKeepsHolders(s.g, Unref(s.g, n), s.pins - multiset{n}, s.held);
    CollectKeepsWords(s.g, Unref(s.g, n), s.pins - multiset{n}, s.words, s.held);
  }

  lemma PinKeeps(s: State, n: Ino)
    requires Inv(s) && Enabled(s, Pin(n))
    ensures Inv(Apply(s, Pin(n)))
  {
    hide Structure, Counted, Acyclic, WordsOk, HoldersOk, Homed;
    PinKeepsInv(s.g, s.pins, n);
    HomedFrame(s.g, SetRefs(s.g, n, s.g.nodes[n].refctr + 1), s.held);
    HoldersFrame(s.g, SetRefs(s.g, n, s.g.nodes[n].refctr + 1), s.held);
  }

  /** The node whose name a request may take away is read by nobody. */
  lemma VictimUnread(s: State, id: nat, l: Link)
    requires Inv(s) && NameLocked(s, id, l)
    ensures Anchor(s.g, s.pins, l.parent)
    ensures l in s.g.names ==> forall i :: i in s.held ==> s.g.names[l] !in s.held[i].chain
  {
    assert HeldOk(s.g, s.held[id]);
    if l in s.g.names {
      WordOf(s.words, s.held, s.g.names[l]);
    }
  }

  lemma RemoveKeeps(s: State, id: nat, l: Link)
    requires Inv(s) && Enabled(s, Op.Remove(id, l))
    ensures Inv(Apply(s, Op.Remove(id, l)))
  {
    hide Structure, Counted, Acyclic, WordsOk, HoldersOk, NodeGraph.Remove, Homed;
    VictimUnread(s, id, l);
    ClearKeepsInv(s.g, s.pins, l);
    HomedFrame(s.g, Cleared(s.g, l), s.held);
    RelinkUnread(s.g, Cleared(s.g, l), s.held, if l in s.g.names then {s.g.names[l]} else {});
  }

  /** A renamed graph differs in the links of unread nodes only. */
  lemma RenameRelinks(g: Graph, g': Graph, held: Holders, n: Ino, lo: Link, ln: Link)
    requires HoldersOk(g, held) && Renamed(g, g', n, lo, ln)
    requires forall i :: i in held ==> n !in held[i].chain && (ln in g.names ==> g.names[ln] !in held[i].chain)
    ensures HoldersOk(g', held)
  {
    hide HoldersOk;
    RelinkUnread(g, g', held, if ln in g.names then {n, g.names[ln]} else {n});
  }

  lemma RenameParts(s: State, id1: nat, id2: nat, lo: Link, ln: Link, hiding: bool)
    requires Inv(s) && NameLocked(s, id1, lo) && NameLocked(s, id2, ln) && OneRequest(id1, id2)
    requires lo in s.g.names && (hiding ==> ln !in s.g.names)
    ensures var g' := NodeGraph.Rename(s.g, lo, ln, hiding).g;
            GraphInv(g', s.pins) && HoldersOk(g', s.held) && Homed(g', s.held) && g'.nodes.Keys == s.g.nodes.Keys
            && Renamed(s.g, g', s.g.names[lo], lo, ln)
  {
    hide GraphInv, WordsOk, HoldersOk, AtOrBelow, Renamed, Anchor, NodeGraph.Rename, Homed;
    NamedNode(s.g, s.pins, lo);
    RenameStaysOutside(s, id1, id2, lo, ln);
    VictimUnread(s, id1, lo);
    VictimUnread(s, id2, ln);
    RenameKeepsInv(s.g, s.pins, lo, ln, hiding);
    RenameRelinks(s.g, NodeGraph.Rename(s.g, lo, ln, hiding).g, s.held, s.g.names[lo], lo, ln);
    RenamedKeys(s.g, NodeGraph.Rename(s.g, lo, ln, hiding).g, s.g.names[lo], lo, ln);
    HomedRename(s.g, NodeGraph.Rename(s.g, lo, ln, hiding).g, s.words, s.held, id1, id2, s.g.names[lo], lo, ln);
  }

  /** A rename under both path locks keeps everything, and moves exactly the name it should. */
  lemma RenameKeeps(s: State, id1: nat, id2: nat, lo: Link, ln: Link, hiding: bool)
    requires Inv(s) && Enabled(s, Op.Rename(id1, id2, lo, ln, hiding))
    ensures Inv(Apply(s, Op.Rename(id1, id2, lo, ln, hiding)))
    ensures lo in s.g.names && (hiding ==> ln !in s.g.names) ==>
              Renamed(s.g, Apply(s, Op.Rename(id1, id2, lo, ln, hiding)).g, s.g.names[lo], lo, ln)
  {
    hide GraphInv, WordsOk, HoldersOk, Renamed, Homed;
    if lo in s.g.names && (hiding ==> ln !in s.g.names) {
      RenameParts(s, id1, id2, lo, ln, hiding);
    }
  }

  lemma RenamedKeys(g: Graph, g': Graph, n: Ino, lo: Link, ln: Link)
    requires Renamed(g, g', n, lo, ln)
    ensures g'.nodes.Keys == g.nodes.Keys
  {
  }

  /** A rename that holds both path locks cannot move a directory into itself. */
  lemma RenameStaysOutside(s: State, id1: nat, id2: nat, lo: Link, ln: Link)
    requires Inv(s) && NameLocked(s, id1, lo) && NameLocked(s, id2, ln) && lo in s.g.names
    ensures !AtOrBelow(s.g, ln.parent, s.g.names[lo])
  {
    hide AtOrBelow;
    VictimUnread(s, id1, lo);
    NamedNode(s.g, s.pins, lo);
    assert HeldOk(s.g, s.held[id2]);
    NotAbove(s.g, s.held[id2], s.g.names[lo]);
  }

  /**
   Without that lock the result is false: taking the name of a node away leaves every
   held path intact exactly when no held path passes the node.
   */
  lemma RemoveKeepsPathsIff(s: State, l: Link)
    requires Inv(s) && l in s.g.names && Anchor(s.g, s.pins, l.parent)
    ensures HoldersOk(NodeGraph.Remove(s.g, l), s.held) <==> DecodeReaders(s.words[s.g.names[l]]) == 0
  {
    var n := s.g.names[l];
    var g' := NodeGraph.Remove(s.g, l);
    ClearKeepsInv(s.g, s.pins, l);
    NamedNode(s.g, s.pins, l);
    WordOf(s.words, s.held, n);
    WordDecodes(s.words[n], |ReadersOf(s.held, n)|, |WritersOf(s.held, n)|);
    if DecodeReaders(s.words[n]) == 0 {
      forall id | id in s.held ensures n !in s.held[id].chain {
        assert id !in ReadersOf(s.held, n);
      }
      RelinkUnread(s.g, g', s.held, {n});
    } else {
      var id :| id in ReadersOf(s.held, n);
      var i :| 0 <= i < |s.held[id].chain| && s.held[id].chain[i] == n;
      assert !ChainOk(g', s.held[id]);
      assert !HeldOk(g', s.held[id]);
    }
  }

  lemma LockKeeps(s: State, id: nat, h: Held)
    requires Inv(s) && Enabled(s, Lock(id, h))
    ensures Inv(Apply(s, Lock(id, h)))
  {
    hide GraphInv, LockInv, Homed, HeldOk, Free;
    LockKeepsInv(s.g, s.words, s.held, id, h);
    HomedLock(s.g, s.held, id, h);
  }

  lemma UnlockKeeps(s: State, id: nat)
    requires Inv(s) && Enabled(s, Op.Unlock(id))
    ensures Inv(Apply(s, Op.Unlock(id)))
  {
    hide GraphInv, LockInv, Homed, Unlocked;
    UnlockKeepsInv(s.g, s.words, s.held, id);
    HomedUnlock(s.g, s.held, id);
  }

  lemma BusyKeeps(s: State, n: Ino)
    requires Inv(s) && Enabled(s, Busy(n))
    ensures Inv(Apply(s, Busy(n)))
  {
    hide GraphInv, LockInv, Homed;
    WaitKeepsInv(s.g, s.words, s.held, n);
  }

  /** Every step that may happen keeps the graph sound, the words exact and the held paths in place. */
  lemma StepKeepsInv(s: State, op: Op)
    requires Inv(s) && Enabled(s, op)
    ensures Inv(Apply(s, op))
  {
    hide Inv;
    match op
    case Find(l, id, gen) => FindKeeps(s, l, id, gen);
    case FindSelf(n) => FindSelfKeeps(s, n);
    case Forget(n, k) => ForgetKeeps(s, n, k);
    case Pin(n) => PinKeeps(s, n);
    case Unpin(n) => UnpinKeeps(s, n);
    case Lock(id, h) => LockKeeps(s, id, h);
    case Busy(n) => BusyKeeps(s, n);
    case Unlock(id) => UnlockKeeps(s, id);
    case Remove(id, l) => RemoveKeeps(s, id, l);
    case Rename(id1, id2, lo, ln, hiding) => RenameKeeps(s, id1, id2, lo, ln, hiding);
  }

  // ---------- whole runs ----------

  /** A run: the states passed through while performing `ops`, each enabled in its turn. */
  ghost predicate Run(states: seq<State>, ops: seq<Op>) {
    && |states| == |ops| + 1 && Inv(states[0])
    && forall i :: 0 <= i < |ops| ==> Steps(states[i], ops[i], states[i + 1])
  }

  lemma {:induction false} RunKeepsInv(states: seq<State>, ops: seq<Op>, i: nat)
    requires Run(states, ops) && i < |states|
    ensures Inv(states[i])
  {
    hide Inv, Enabled, Apply;
    if i > 0 {
      RunKeepsInv(states, ops, i - 1);
      assert Steps(states[i - 1], ops[i - 1], states[i - 1 + 1]);
      StepKeepsInv(states[i - 1], ops[i - 1]);
    }
  }

  lemma StepKeepsRecord(s: State, op: Op, id: nat)
    requires Enabled(s, op) && id in s.held && id in Apply(s, op).held
    ensures Apply(s, op).held[id] == s.held[id]
  {
  }

  /** A lock is never rewritten while it is outstanding. */
  lemma {:induction false} RecordStays(states: seq<State>, ops: seq<Op>, id: nat, i: nat, j: nat)
    requires Run(states, ops) && i <= j < |states|
    requires forall k :: i <= k <= j ==> id in states[k].held
    ensures states[j].held[id] == states[i].held[id]
    decreases j - i
  {
    hide Inv, Enabled, Apply;
    if i < j {
      RecordStays(states, ops, id, i, j - 1);
      assert Steps(states[j - 1], ops[j - 1], states[j - 1 + 1]);
      StepKeepsRecord(states[j - 1], ops[j - 1], id);
    }
  }

  /**
   Held paths are stable: from the moment a path is locked until it is unlocked, whatever
   happens in between, each of its nodes lives and keeps its name and its parent.
   */
  lemma HeldPathIsStable(states: seq<State>, ops: seq<Op>, id: nat, i: nat, j: nat)
    requires Run(states, ops) && i <= j < |states|
    requires forall k :: i <= k <= j ==> id in states[k].held
    ensures states[j].held[id] == states[i].held[id]
    ensures forall n :: n in states[i].held[id].chain ==>
              n in states[i].g.nodes && n in states[j].g.nodes && states[j].g.nodes[n].link == states[i].g.nodes[n].link
    ensures UnlockAsserts(states[j].words, states[i].held[id])
  {
    RecordStays(states, ops, id, i, j);
    RunKeepsInv(states, ops, i);
    RunKeepsInv(states, ops, j);
    var h := states[i].held[id];
    assert HeldOk(states[i].g, h) && HeldOk(states[j].g, h);
    forall n | n in h.chain
      ensures n in states[i].g.nodes && n in states[j].g.nodes && states[j].g.nodes[n].link == states[i].g.nodes[n].link
    {
      var k :| 0 <= k < |h.chain| && h.chain[k] == n;
    }
    UnlockAssertsHold(states[j].g, states[j].words, states[j].held, id);
  }

  /**
   The account at every point of every run: a word is WRITE for one writer, and counts the paths
   through the node otherwise.
   */
  lemma WordsCountPaths(states: seq<State>, ops: seq<Op>, i: nat, n: Ino)
    requires Run(states, ops) && i < |states| && n in states[i].g.nodes
    ensures n in states[i].words
    ensures DecodeReaders(states[i].words[n]) == |ReadersOf(states[i].held, n)|
    ensures states[i].words[n] == WRITE <==> |WritersOf(states[i].held, n)| == 1
    ensures |WritersOf(states[i].held, n)| <= 1
    ensures |WritersOf(states[i].held, n)| == 1 ==> ReadersOf(states[i].held, n) == {}
  {
    RunKeepsInv(states, ops, i);
    WordOf(states[i].words, states[i].held, n);
    WordDecodes(states[i].words[n], |ReadersOf(states[i].held, n)|, |WritersOf(states[i].held, n)|);
  }
}

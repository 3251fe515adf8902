/**
 The walk of `try_get_path` from a node up to the root, on values: which nodes it passes,
 which path it spells, and what it does to the lock words on the way.
 */
module PathWalk {
  import opened Common
  import opened NodeGraph
  import opened TreeLocks
  import opened DeadEnds
  import PathBuffer

  /** The node at which the walk `h` from `n` stands. */
  function Stop(n: Ino, h: Held): Ino {
    if h.links == [] then n else h.links[|h.links| - 1].parent
  }

  /** `h` records a walk from `n` upwards: nodes other than the root, each with the link it has. */
  ghost predicate Walk(g: Graph, n: Ino, h: Held) {
    && |h.links| == |h.chain|
    && (forall i :: 0 <= i < |h.chain| ==>
          && h.chain[i] in g.nodes && h.chain[i] != ROOT && g.nodes[h.chain[i]].link == Some(h.links[i])
          && h.links[i].parent == Above(h.chain, i, Stop(n, h)))
    && (h.chain != [] ==> h.chain[0] == n)
  }

  /** The ranks go down along the walk, so no node comes twice. */
  ghost predicate Descends(rank: map<Ino, nat>, n: Ino, h: Held) {
    && n in rank && Stop(n, h) in rank && rank[Stop(n, h)] <= rank[n]
    && (forall i :: 0 <= i < |h.chain| ==>
           h.chain[i] in rank && rank[h.chain[i]] > rank[Stop(n, h)] && rank[h.chain[i]] <= rank[n])
    && Distinct(h.chain)
  }

  function Extended(h: Held, n: Ino, l: Link): Held {
    h.(chain := h.chain + [n], links := h.links + [l])
  }

  /** The path spelled by the links of a walk, from the top down. */
  function Spelled(links: seq<Link>): string {
    if links == [] then "" else "/" + links[|links| - 1].name + Spelled(links[..|links| - 1])
  }

  /** The path that `try_get_path` returns for a walk, with the optional last component. */
  function PathOf(links: seq<Link>, last: Option<string>): string {
    Spelled(links) + (match last case None => "" case Some(name) => "/" + name)
  }

  /** ... and the string for it: the path of the root is a slash. */
  function PathText(links: seq<Link>, last: Option<string>): string {
    if PathOf(links, last) == "" then "/" else PathOf(links, last)
  }

  /** The components of a path: what stands between its slashes. */
  function Cut(s: string): (r: seq<string>)
    ensures r != []
  {
    if s == [] then [""]
    else if s[0] == '/' then [""] + Cut(s[1..])
    else var r := Cut(s[1..]); [[s[0]] + r[0]] + r[1..]
  }

  lemma {:induction false} CutWord(w: string)
    requires '/' !in w
    ensures Cut(w) == [w]
  {
    if w != [] {
      assert w[0] in w;
      CutWord(w[1..]);
      assert w == [w[0]] + w[1..];
    }
  }

  lemma CutStep(s: string)
    ensures s == [] ==> Cut(s) == [""]
    ensures s != [] && s[0] == '/' ==> Cut(s) == [""] + Cut(s[1..])
    ensures s != [] && s[0] != '/' ==> Cut(s) == [[s[0]] + Cut(s[1..])[0]] + Cut(s[1..])[1..]
  {
  }

  lemma {:induction false} CutJoins(a: string, b: string)
    ensures Cut(a + "/" + b) == Cut(a) + Cut(b)
  {
    hide Cut;
    var t := a + "/" + b;
    CutStep(t);
    CutStep(a);
    if a == [] {
      assert t == ['/'] + b;
    } else {
      assert t == [a[0]] + (a[1..] + "/" + b);
      CutJoins(a[1..], b);
    }
  }

  /** No name holds a slash. */
  predicate SlashFree(links: seq<Link>, last: Option<string>) {
    && (forall l :: l in links ==> '/' !in l.name)
    && (last.Some? ==> '/' !in last.value)
  }

  /** The names from the root down come back when the path is cut at its slashes. */
  lemma {:induction false} SpelledNames(links: seq<Link>)
    requires SlashFree(links, None) && links != []
    ensures var s := Spelled(links);
            && s != [] && s[0] == '/' && |Cut(s[1..])| == |links|
            && (forall i :: 0 <= i < |links| ==> Cut(s[1..])[i] == links[|links| - 1 - i].name)
  {
    hide Spelled, Cut;
    var k := |links| - 1;
    var name, rest := links[k].name, Spelled(links[..k]);
    assert links[k] in links;
    CutWord(name);
    SpelledStep(links);
    Behind(name, rest);
    if k == 0 {
      SpelledNone();
      assert links[..k] == [];
    } else {
      assert SlashFree(links[..k], None) by { assert forall l :: l in links[..k] ==> l in links; }
      SpelledNames(links[..k]);
      assert rest == "/" + rest[1..];
      assert name + rest == name + "/" + rest[1..];
      CutJoins(name, rest[1..]);
    }
  }

  lemma Behind(name: string, rest: string)
    ensures ("/" + name + rest)[1..] == name + rest && name + "" == name
  {
    assert "/" + name + rest == ['/'] + (name + rest);
  }

  lemma SpelledNone()
    ensures Spelled([]) == ""
  {
  }

  lemma SpelledStep(links: seq<Link>)
    requires links != []
    ensures Spelled(links) == "/" + links[|links| - 1].name + Spelled(links[..|links| - 1])
  {
  }

  /**
   The path begins with a slash. Without a name it is that slash alone; otherwise cutting it
   at its slashes gives the names on the way from the root down, and then the last name.
   */
  ghost predicate SpellsNames(text: string, links: seq<Link>, last: Option<string>) {
    var n := |links| + if last.Some? then 1 else 0;
    && text != "" && text[0] == '/' && (n == 0 ==> text == "/")
    && (n > 0 ==>
          && |Cut(text[1..])| == n
          && (forall i :: 0 <= i < |links| ==> Cut(text[1..])[i] == links[|links| - 1 - i].name)
          && (last.Some? ==> Cut(text[1..])[n - 1] == last.value))
  }

  lemma TextNames(links: seq<Link>, last: Option<string>)
    requires SlashFree(links, last)
    ensures SpellsNames(PathText(links, last), links, last)
  {
    var path, front := PathOf(links, last), Spelled(links);
    if links != [] {
      SpelledNames(links);
    }
    if last.None? {
      assert path == front;
    } else {
      CutWord(last.value);
      if links == [] {
        assert path[1..] == last.value;
      } else {
        assert path[1..] == front[1..] + "/" + last.value;
        CutJoins(front[1..], last.value);
      }
    }
  }

  /** The path, with its NUL, fits in 32-bit buffer sizes; names hold no NUL. */
  ghost predicate PathFits(links: seq<Link>, last: Option<string>) {
    |PathOf(links, last)| + 1 <= PathBuffer.UINT_MAX && '\0' !in PathOf(links, last)
  }

  /** No path that a request for node `n` may build is too long. */
  ghost predicate PathsFit(g: Graph, n: Ino, last: Option<string>) {
    forall h: Held :: Walk(g, n, h) ==> PathFits(h.links, last)
  }

  lemma PathExtends(links: seq<Link>, i: nat, last: Option<string>)
    requires i < |links|
    ensures PathOf(links[..i + 1], last) == "/" + links[i].name + PathOf(links[..i], last)
  {
    assert links[..i + 1][..i] == links[..i];
  }

  lemma PathGrows(links: seq<Link>, i: nat, last: Option<string>)
    requires i <= |links|
    ensures |PathOf(links[..i], last)| <= |PathOf(links, last)|
    ensures forall c :: c in PathOf(links[..i], last) ==> c in PathOf(links, last)
    decreases |links| - i
  {
    if i < |links| {
      PathExtends(links, i, last);
      PathGrows(links, i + 1, last);
    } else {
      assert links[..i] == links;
    }
  }

  /** The uses of `add_name` in `try_get_path`: last component first, then each node's name on the way up. */
  method BuildPath(links: seq<Link>, last: Option<string>) returns (path: string)
    requires PathFits(links, last)
    ensures path == PathText(links, last)
    ensures SlashFree(links, last) ==> SpellsNames(path, links, last)
  {
    hide PathOf, Spelled, SlashFree, SpellsNames, Cut;
    if SlashFree(links, last) {
      TextNames(links, last);
    }
    var pb := new PathBuffer.PathBuffer();
    PathStarts(last);
    PathGrows(links, 0, last);
    assert links[..0] == [];
    if last.Some? {
      pb.AddName(last.value);
    }
    var i := 0;
    while i < |links|
      invariant 0 <= i <= |links| && pb.Valid() && fresh(pb) && fresh(pb.buf)
      invariant pb.Contents() == PathOf(links[..i], last)
    {
      PathExtends(links, i, last);
      PathGrows(links, i + 1, last);
      pb.AddName(links[i].name);
      i := i + 1;
    }
    assert links[..i] == links;
    path := pb.Finish();
  }

  lemma PathStarts(last: Option<string>)
    ensures PathOf([], last) == if last.Some? then "/" + last.value else ""
  {
  }

  lemma WalkStarts(g: Graph, n: Ino, victim: Option<Ino>, rank: map<Ino, nat>)
    requires n in rank
    ensures Walk(g, n, Held([], [], victim)) && Descends(rank, n, Held([], [], victim))
            && Stop(n, Held([], [], victim)) == n
  {
  }

  lemma WalkExtends(g: Graph, n: Ino, h: Held, l: Link)
    requires Walk(g, n, h) && Stop(n, h) != ROOT && Stop(n, h) in g.nodes && g.nodes[Stop(n, h)].link == Some(l)
    ensures Walk(g, n, Extended(h, Stop(n, h), l)) && Stop(n, Extended(h, Stop(n, h), l)) == l.parent
    ensures Spelled(Extended(h, Stop(n, h), l).links) == "/" + l.name + Spelled(h.links)
  {
    var h' := Extended(h, Stop(n, h), l);
    assert h'.links[..|h.links|] == h.links;
    forall i | 0 <= i < |h'.chain|
      ensures h'.chain[i] in g.nodes && h'.chain[i] != ROOT && g.nodes[h'.chain[i]].link == Some(h'.links[i])
      ensures h'.links[i].parent == Above(h'.chain, i, Stop(n, h'))
    {
      if i < |h.chain| {
        assert h'.chain[i] == h.chain[i] && h'.links[i] == h.links[i];
      }
    }
  }

  lemma DescendsFurther(g: Graph, rank: map<Ino, nat>, n: Ino, h: Held, l: Link)
    requires Structure(g, {}) && Ranked(g, rank) && Descends(rank, n, h) && |h.links| == |h.chain|
    requires Stop(n, h) in g.nodes && g.nodes[Stop(n, h)].link == Some(l)
    ensures l.parent in g.nodes && Descends(rank, n, Extended(h, Stop(n, h), l))
    ensures rank[l.parent] < rank[Stop(n, h)]
  {
    var h' := Extended(h, Stop(n, h), l);
    assert Stop(n, h') == l.parent;
    assert l in g.names && g.names[l] == Stop(n, h);
  }

  /** Counting one more reader in the word of the next node. */
  lemma LockedFurther(words: Words, h: Held, n: Ino, l: Link)
    requires n in words && n !in h.chain && h.victim != Some(n)
    ensures Locked(words, h)[n := words[n] + 1] == Locked(words, Extended(h, n, l))
    ensures Locked(words, h)[n] == words[n]
  {
  }

  /** The first `i` nodes of a walk. */
  function Prefix(h: Held, i: nat): Held
    requires i <= |h.chain| == |h.links|
  {
    Held(h.chain[..i], h.links[..i], h.victim)
  }

  /** One turn of the loop in `unlock_path`. */
  lemma UnlockedFurther(words: Words, h: Held, i: nat)
    requires i < |h.chain| == |h.links| && Distinct(h.chain) && (h.victim.Some? ==> h.victim.value !in h.chain)
    requires h.chain[i] in words
    ensures var n := h.chain[i];
            && n in Unlocked(words, Prefix(h, i)) && Unlocked(words, Prefix(h, i))[n] == words[n]
            && Unlocked(words, Prefix(h, i))[n := if words[n] - 1 == WAIT_OFFSET then 0 else words[n] - 1]
               == Unlocked(words, Prefix(h, i + 1))
  {
    var n := h.chain[i];
    var p, p' := Prefix(h, i), Prefix(h, i + 1);
    assert p'.chain == p.chain + [n];
    assert n !in p.chain;
  }

  lemma UnlockStarts(words: Words, h: Held)
    requires |h.chain| == |h.links| && (h.victim.Some? ==> h.victim.value in words)
    ensures Unlocked(words, Prefix(h, 0)) == if h.victim.Some? then words[h.victim.value := 0] else words
    ensures Prefix(h, |h.chain|) == h
  {
    assert h.chain[..|h.chain|] == h.chain && h.links[..|h.chain|] == h.links;
  }

  lemma WalkAt(g: Graph, n: Ino, h: Held, i: nat)
    requires Walk(g, n, h) && i < |h.chain|
    ensures |h.links| == |h.chain| && h.chain[i] in g.nodes && h.chain[i] != ROOT
            && g.nodes[h.chain[i]].link == Some(h.links[i])
    ensures h.links[i].parent == Above(h.chain, i, Stop(n, h))
  {
  }

  /** A node found by name below `n` is not on the walk up from `n`. */
  lemma ChildNotOnWalk(g: Graph, rank: map<Ino, nat>, n: Ino, h: Held, l: Link)
    requires Ranked(g, rank) && Descends(rank, n, h) && l in g.names && l.parent == n
    ensures g.names[l] !in h.chain && g.names[l] != Stop(n, h)
  {
  }

  /** A walk that has reached the root is a lock's chain. */
  lemma WalkIsChain(g: Graph, rank: map<Ino, nat>, n: Ino, h: Held)
    requires Walk(g, n, h) && Stop(n, h) == ROOT && Descends(rank, n, h)
    ensures ChainOk(g, h) && Distinct(h.chain) && Bottom(h) == n
  {
  }

  lemma ChainIsWalk(g: Graph, h: Held)
    requires ChainOk(g, h)
    ensures Walk(g, Bottom(h), h) && Stop(Bottom(h), h) == ROOT
  {
    if h.chain != [] {
      var i := |h.chain| - 1;
      assert h.links[i].parent == ROOT;
    }
  }

  /** A walk from a dead end leads to one, and only such a walk does. */
  lemma {:induction false} WalkToDeadEnd(g: Graph, n: Ino, h: Held, i: nat)
    requires Structure(g, {}) && Walk(g, n, h) && i <= |h.chain|
    ensures DeadEnd(g, n) <==> DeadEnd(g, if i < |h.chain| then h.chain[i] else Stop(n, h))
  {
    hide Structure, DeadEnd;
    if i > 0 {
      WalkToDeadEnd(g, n, h, i - 1);
      WalkAt(g, n, h, i - 1);
      DeadAsParent(g, h.chain[i - 1], h.links[i - 1]);
    } else if h.chain != [] {
      assert h.chain[0] == n;
    }
  }

  /** Looking the names up one after the other, from node `n` down. */
  function Resolve(g: Graph, n: Ino, names: seq<string>): Option<Ino>
    decreases |names|
  {
    if names == [] then Some(n)
    else if Link(n, names[0]) in g.names then Resolve(g, g.names[Link(n, names[0])], names[1..])
    else None
  }

  lemma {:induction false} WalkResolves(g: Graph, n: Ino, h: Held, names: seq<string>, i: nat)
    requires Structure(g, {}) && Walk(g, n, h) && i <= |h.chain| && |names| == i
    requires forall j :: 0 <= j < i ==> names[j] == h.links[i - 1 - j].name
    ensures Resolve(g, if i < |h.chain| then h.chain[i] else Stop(n, h), names) == Some(n)
  {
    if i > 0 {
      WalkAt(g, n, h, i - 1);
      var l := h.links[i - 1];
      assert names[0] == l.name && l in g.names && g.names[l] == h.chain[i - 1];
      assert l == Link(if i < |h.chain| then h.chain[i] else Stop(n, h), names[0]);
      WalkResolves(g, n, h, names[1..], i - 1);
    } else if h.chain == [] {
      assert h.links == [];
    }
  }

  lemma WalkLength(g: Graph, n: Ino, h: Held)
    requires Walk(g, n, h)
    ensures |h.links| == |h.chain|
  {
  }

  /** The names of a path, looked up from the root, lead to the node that it was asked for. */
  lemma PathLeadsBack(g: Graph, n: Ino, h: Held, last: Option<string>)
    requires Structure(g, {}) && Walk(g, n, h) && Stop(n, h) == ROOT && SlashFree(h.links, last)
    ensures var text, k := PathText(h.links, last), |h.links|;
            && text != "" && |Cut(text[1..])| >= k && Resolve(g, ROOT, Cut(text[1..])[..k]) == Some(n)
            && (last.Some? ==> Cut(text[1..]) == Cut(text[1..])[..k] + [last.value])
            && (last.None? && k > 0 ==> Cut(text[1..])[..k] == Cut(text[1..]))
  {
    hide Structure, PathText, Cut, Resolve, Walk, SlashFree;
    assert |h.links| == |h.chain| by { WalkLength(g, n, h); }
    TextNames(h.links, last);
    var names := Cut(PathText(h.links, last)[1..]);
    if h.links == [] {
      assert names[..0] == [];
    }
    WalkResolves(g, n, h, names[..|h.links|], |h.links|);
  }
}

/**
 What the shell's parser promises: the parts of every pipe that it returns fit together,
 and a line that spells a list of pipes is read back as that list.
 */
module ShellRoundTrip {
  import opened Common
  import opened ShellGrammar
  import opened ShellSpelling

  // ---------- every pipe that is returned ----------

  /** The array of arguments has room for the NULL, and the command is a new one. */
  ghost predicate CmdFits(c: Cmd) {
    |c.args| >= 1 && |c.args| + 1 <= c.maxargs && (c.exec == Tsemi || c.exec == Tamp)
  }

  lemma {:induction false} LoopFits(s: string, st: PState, c: Cmd)
    requires st.pos <= |s| && CmdFits(c) && !PipeToken(c.out)
    ensures var (m, _) := CmdLoop(s, st, c);
            m.Made? ==> CmdFits(m.c) && !PipeToken(m.c.out) && (c.inn != Tnil ==> m.c.inn == c.inn)
    decreases Left(s, st)
  {
    if st.la == Tin {
      if c.inn == Tnil {
        var st1 := Next(s, st);
        if st1.la == Tword {
          LoopFits(s, Next(s, st1), c.(inn := Tin, infile := Some(st1.word)));
        }
      }
    } else if OutToken(st.la) {
      if c.out == Tnil {
        var st1 := Next(s, st);
        if st1.la == Tword {
          LoopFits(s, Next(s, st1), c.(out := st.la, outfile := Some(st1.word)));
        }
      }
    } else if st.la == Tword {
      LoopFits(s, Next(s, st), AddArg(c, st.word));
    }
  }

  lemma MadeFits(s: string, st: PState, inpipe: Token)
    requires st.pos <= |s|
    ensures var (m, _) := MkCmd(s, st, inpipe);
            m.Made? ==> CmdFits(m.c) && !PipeToken(m.c.out) && (inpipe != Tnil ==> m.c.inn == inpipe)
  {
    var st1 := SkipCmdTokens(s, st);
    if st1.la == Tword {
      LoopFits(s, Next(s, st1), NewCmd(st1.word, inpipe));
    }
  }

  /** Command `i` hands its output to the next one, or the input has ended behind its joint. */
  ghost predicate Linked(cmds: seq<Cmd>, i: nat)
    requires i + 1 < |cmds|
  {
    PipeToken(cmds[i].out) && (cmds[i + 1] == END || cmds[i + 1].inn == cmds[i].out)
  }

  /**
   `End` stands for a command that the input ended before: it can only be the last, and `la` is the
   end of input then.
   */
  ghost predicate CmdAt(cmds: seq<Cmd>, i: nat, la: Token)
    requires i < |cmds|
  {
    if cmds[i] == END then i + 1 == |cmds| && la == Tend else CmdFits(cmds[i])
  }

  ghost predicate PipelineOk(p: Pipeline, la: Token) {
    && p.cmds != [] && !PipeToken(p.cmds[|p.cmds| - 1].out)
    && (forall i :: 0 <= i < |p.cmds| - 1 ==> Linked(p.cmds, i))
    && (forall i :: 0 <= i < |p.cmds| ==> CmdAt(p.cmds, i, la))
  }

  lemma JoinKeeps(p: Pipeline, la: Token, ptype: Ptype, c: Cmd, la': Token)
    requires PipelineOk(p, la) && la != Tend
    requires !PipeToken(c.out) && (if c == END then la' == Tend else CmdFits(c) && c.inn == Joint(ptype))
    ensures PipelineOk(Pipeline(ptype, SetLastOut(p.cmds, Joint(ptype)) + [c]), la')
  {
    var n, cmds := |p.cmds|, SetLastOut(p.cmds, Joint(ptype)) + [c];
    forall i | 0 <= i <= n ensures CmdAt(cmds, i, la') {
      if i < n {
        assert CmdAt(p.cmds, i, la);
      }
    }
    forall i | 0 <= i < n ensures Linked(cmds, i) {
      if i + 1 < n {
        assert Linked(p.cmds, i) && CmdAt(p.cmds, i + 1, la);
      }
    }
  }

  lemma {:induction false} LoopChains(s: string, st: PState, ptype: Ptype, cmds: seq<Cmd>)
    requires st.pos <= |s| && PipelineOk(Pipeline(ptype, cmds), st.la)
    ensures var (p, st') := PipeLoop(s, st, ptype, cmds); p.Done? ==> PipelineOk(p.p, st'.la)
    decreases Left(s, st)
  {
    if PipeToken(st.la) && cmds[|cmds| - 1].out == Tnil {
      var ptype1 := if st.la == TpipeErr then PoutErr else Pout;
      var (m, st1) := MkCmd(s, Next(s, st), Joint(ptype1));
      MadeFits(s, Next(s, st), Joint(ptype1));
      if m.Made? || m.End? {
        var cmds1 := SetLastOut(cmds, Joint(ptype1)) + [CmdOf(m)];
        JoinKeeps(Pipeline(ptype, cmds), st.la, ptype1, CmdOf(m), st1.la);
        LoopChains(s, st1, ptype1, cmds1);
      }
    }
  }

  /** Only the last pipe of a list can be one that the input ended in. */
  ghost predicate ListOk(ps: seq<Pipeline>, la: Token) {
    forall i :: 0 <= i < |ps| ==> PipelineOk(ps[i], if i + 1 == |ps| then la else Tnil)
  }

  /**
   Whatever the input is, the commands of every pipe fit together, and their arguments fit
   in their arrays. `End` is found only behind the last joint of the last pipe, and only if
   the parser stopped at the end of the input.
   */
  lemma {:induction false} PipesOk(s: string, st: PState)
    requires st.pos <= |s|
    ensures var (ps, st') := MkPipe(s, st); ListOk(ps, st'.la)
    decreases Left(s, st), 1
  {
    var (m, st1) := MkCmd(s, st, Tnil);
    MadeFits(s, st, Tnil);
    if m.Made? || m.End? {
      assert PipelineOk(Pipeline(Pout, [CmdOf(m)]), st1.la);
      var (p, st2) := PipeLoop(s, st1, Pout, [CmdOf(m)]);
      LoopChains(s, st1, Pout, [CmdOf(m)]);
      if p.Done? && !EndOfInput(st2.la) {
        RestOk(s, st2, []);
        var (ps, st3) := MkPipes(s, st2, []);
        FirstOfList(p.p, st2.la, ps, st3.la);
      }
    }
  }

  lemma FirstOfList(p: Pipeline, la: Token, ps: seq<Pipeline>, la': Token)
    requires PipelineOk(p, la) && la != Tend && ListOk(ps, la')
    ensures ListOk([p] + ps, la')
  {
    forall k, t | 0 <= k < |p.cmds| ensures CmdAt(p.cmds, k, t) {
      assert CmdAt(p.cmds, k, la);
    }
    var qs := [p] + ps;
    forall i | 0 <= i < |qs| ensures PipelineOk(qs[i], if i + 1 == |qs| then la' else Tnil) {
      if i > 0 {
        assert qs[i] == ps[i - 1];
      }
    }
  }

  lemma {:induction false} RestOk(s: string, st: PState, ps: seq<Pipeline>)
    requires st.pos <= |s| && ListOk(ps, st.la)
    ensures var (qs, st') := MkPipes(s, st, ps); ListOk(qs, st'.la)
    decreases Left(s, st), 2
  {
    if !EndOfInput(st.la) {
      var (ps1, st1) := MkPipe(s, st);
      PipesOk(s, st);
      if ps1 != [] {
        RestOk(s, st1, ps1);
      }
    }
  }

  /** So a line that was read up to its newline has real commands only, each the input of the next. */
  lemma NoEndInLine(s: string, st: PState, p: Pipeline)
    requires st.pos <= |s| && p in MkPipe(s, st).0 && MkPipe(s, st).1.la == Tnl
    ensures forall i :: 0 <= i < |p.cmds| ==> CmdFits(p.cmds[i])
    ensures forall i :: 0 <= i < |p.cmds| - 1 ==> PipeToken(p.cmds[i].out) && p.cmds[i + 1].inn == p.cmds[i].out
  {
    hide MkPipe;
    var (ps, st') := MkPipe(s, st);
    PipesOk(s, st);
    var k :| 0 <= k < |ps| && ps[k] == p;
    forall i | 0 <= i < |p.cmds| ensures CmdFits(p.cmds[i]) {
      assert CmdAt(p.cmds, i, if k + 1 == |ps| then st'.la else Tnil);
    }
    forall i | 0 <= i < |p.cmds| - 1 ensures PipeToken(p.cmds[i].out) && p.cmds[i + 1].inn == p.cmds[i].out {
      assert Linked(p.cmds, i);
    }
  }

  // ---------- the parser reads the tokens ----------

  /** The look-ahead is item `n`, and the rest of the items are still to be read, up to position `end`. */
  ghost predicate Reads(s: string, st: PState, items: seq<Item>, n: nat, end: nat) {
    && ItemsOk(items) && n < |items| && st.la == items[n].tok && st.word == items[n].word
    && st.pos <= |s| && At(s, st.pos, LineText(items[n + 1..])) && st.pos + |LineText(items[n + 1..])| == end
  }

  lemma ReadsToken(s: string, st: PState, items: seq<Item>, n: nat, end: nat)
    requires Reads(s, st, items, n, end)
    ensures n < |items| && st.la == items[n].tok && st.word == items[n].word && st.pos <= |s|
  {
  }

  /** What follows an item of a line continues it. */
  lemma LineContinues(items: seq<Item>, n: nat)
    requires ItemsOk(items) && n < |items|
    ensures LineText(items[n..]) == Text(items[n]) + LineText(items[n + 1..])
            && Continues(items[n], LineText(items[n + 1..]))
  {
    hide Text, ItemOk, Delimiter;
    assert items[n..][1..] == items[n + 1..];
    if NeedsMore(items[n].tok) {
      assert ApartAt(items, n + 1, items[n].tok);
      ItemStarts(items[n + 1]);
    }
    if Abuts(items[n]) {
      assert DelimiterAt(items, n + 1);
      OperatorStarts(items[n + 1]);
    }
  }

  lemma Advance(s: string, st: PState, items: seq<Item>, n: nat, end: nat)
    requires Reads(s, st, items, n, end) && n + 1 < |items|
    ensures st.pos <= |s| && Reads(s, Next(s, st), items, n + 1, end)
  {
    hide Lexed, Text, At, ItemOk, Continues;
    LineContinues(items, n + 1);
    LexItem(s, st.pos, items[n + 1], LineText(items[n + 2..]));
    AtParts(s, st.pos, Text(items[n + 1]), LineText(items[n + 2..]));
  }

  /** A token with its word. */
  datatype Tok = Tok(tok: Token, word: string)

  ghost predicate Match(items: seq<Item>, n: nat, toks: seq<Tok>) {
    n + |toks| <= |items| && forall j :: 0 <= j < |toks| ==>
           items[n + j].tok == toks[j].tok && items[n + j].word == toks[j].word
  }

  lemma MatchParts(items: seq<Item>, n: nat, a: seq<Tok>, b: seq<Tok>)
    requires Match(items, n, a + b)
    ensures Match(items, n, a) && Match(items, n + |a|, b)
  {
    assert forall j :: 0 <= j < |a| ==> (a + b)[j] == a[j];
    forall j | 0 <= j < |b|
      ensures items[n + |a| + j].tok == b[j].tok && items[n + |a| + j].word == b[j].word
    {
      assert (a + b)[|a| + j] == b[j];
    }
  }

  lemma MatchHead(items: seq<Item>, n: nat, toks: seq<Tok>)
    requires Match(items, n, toks) && toks != []
    ensures n < |items| && items[n].tok == toks[0].tok && items[n].word == toks[0].word
            && Match(items, n + 1, toks[1..])
  {
    assert items[n + 0].tok == toks[0].tok && items[n + 0].word == toks[0].word;
    assert [toks[0]] + toks[1..] == toks;
    MatchParts(items, n, [toks[0]], toks[1..]);
  }

  function Op(t: Token): Tok {
    Tok(t, "")
  }

  // ---------- how a command is written ----------

  /** What a command is written of: arguments, and redirections anywhere behind the first. */
  datatype Piece = Arg(word: string) | Redirect(t: Token, file: string)

  function PieceToks(p: Piece): seq<Tok> {
    match p
    case Arg(word) => [Tok(Tword, word)]
    case Redirect(t, file) => [Op(t), Tok(Tword, file)]
  }

  function PiecesToks(ps: seq<Piece>): seq<Tok> {
    if ps == [] then [] else PieceToks(ps[0]) + PiecesToks(ps[1..])
  }

  function ArgsOf(ps: seq<Piece>): seq<string> {
    if ps == [] then []
    else ArgsOf(ps[..|ps| - 1]) + if ps[|ps| - 1].Arg? then [ps[|ps| - 1].word] else []
  }

  function Inputs(ps: seq<Piece>): seq<string> {
    if ps == [] then []
    else Inputs(ps[..|ps| - 1]) + if ps[|ps| - 1].Redirect? && ps[|ps| - 1].t == Tin then [ps[|ps| - 1].file] else []
  }

  function Outputs(ps: seq<Piece>): (r: seq<Piece>)
    ensures forall p :: p in r ==> p.Redirect? && p.t != Tin
  {
    if ps == [] then []
    else Outputs(ps[..|ps| - 1]) + if ps[|ps| - 1].Redirect? && ps[|ps| - 1].t != Tin then [ps[|ps| - 1]] else []
  }

  ghost predicate PiecesOk(ps: seq<Piece>) {
    ps != [] && ps[0].Arg? && forall p :: p in ps && p.Redirect? ==> p.t == Tin || OutToken(p.t)
  }

  /** The pieces are those of the command: its arguments in their order, and its redirections. */
  ghost predicate MadeOf(c: Cmd, ps: seq<Piece>) {
    && PiecesOk(ps) && ArgsOf(ps) == c.args
    && Inputs(ps) == (if c.infile.Some? then [c.infile.value] else [])
    && Outputs(ps) == (if c.outfile.Some? then [Redirect(c.out, c.outfile.value)] else [])
  }

  function Background(c: Cmd): seq<Tok> {
    if c.exec == Tamp then [Op(Tamp)] else []
  }

  function CmdToks(c: Cmd, ps: seq<Piece>): seq<Tok> {
    PiecesToks(ps) + Background(c)
  }

  /** The size that the array of arguments grows to. */
  function Capacity(n: nat): (m: nat)
    ensures m >= 4 && m >= n + 1
  {
    if n <= 1 then 4 else if n + 1 > Capacity(n - 1) then 2 * Capacity(n - 1) else Capacity(n - 1)
  }

  /** A command of a well-formed pipe, before it is joined to the next one. */
  ghost predicate CmdOk(c: Cmd, inpipe: Token) {
    && c.args != [] && c.maxargs == Capacity(|c.args|) && (c.exec == Tsemi || c.exec == Tamp)
    && (if c.infile.Some? then inpipe == Tnil && c.inn == Tin else c.inn == inpipe)
    && (if c.outfile.Some? then OutToken(c.out) else c.out == Tnil)
  }

  function LastOf<T>(list: seq<T>): Option<T> {
    if list == [] then None else Some(list[|list| - 1])
  }

  /** What the loop of `mkCmd` has made of the first `k` pieces. */
  function Partly(inpipe: Token, ps: seq<Piece>, k: nat): Cmd
    requires k <= |ps|
  {
    var inn, out := LastOf(Inputs(ps[..k])), LastOf(Outputs(ps[..k]));
    Cmd(Tsemi, if inn.None? then inpipe else Tin, if out.None? then Tnil else out.value.t,
        inn, if out.None? then None else Some(out.value.file),
        ArgsOf(ps[..k]), Capacity(|ArgsOf(ps[..k])|))
  }

  /** The loop goes on with piece `k`: it is no second redirection of its kind, and no input of a joined command. */
  ghost predicate Takes(inpipe: Token, ps: seq<Piece>, k: nat)
    requires k < |ps|
  {
    ps[k].Redirect? ==> if ps[k].t == Tin then inpipe == Tnil && Inputs(ps[..k]) == [] else Outputs(ps[..k]) == []
  }

  /** There is one source of input at most, the joint in front counted, and one redirection of the output. */
  ghost predicate Fits(inpipe: Token, ps: seq<Piece>) {
    |Inputs(ps)| + (if inpipe == Tnil then 0 else 1) <= 1 && |Outputs(ps)| <= 1
  }

  /** One more piece. */
  lemma Snoc(ps: seq<Piece>, k: nat)
    requires k < |ps|
    ensures ArgsOf(ps[..k + 1]) == if ps[k].Arg? then ArgsOf(ps[..k]) + [ps[k].word] else ArgsOf(ps[..k])
    ensures Inputs(ps[..k + 1]) ==
            if ps[k].Redirect? && ps[k].t == Tin then Inputs(ps[..k]) + [ps[k].file] else Inputs(ps[..k])
    ensures Outputs(ps[..k + 1]) ==
            if ps[k].Redirect? && ps[k].t != Tin then Outputs(ps[..k]) + [ps[k]] else Outputs(ps[..k])
  {
    assert ps[..k + 1][..k] == ps[..k] && ps[..k + 1][k] == ps[k];
  }

  /** What the first pieces contribute is the beginning of what all do. */
  lemma {:induction false} Prefixes(ps: seq<Piece>, k: nat)
    requires k <= |ps|
    ensures Inputs(ps[..k]) <= Inputs(ps) && Outputs(ps[..k]) <= Outputs(ps)
    decreases |ps| - k
  {
    hide ArgsOf, Inputs, Outputs;
    if k == |ps| {
      assert ps[..k] == ps;
    } else {
      Snoc(ps, k);
      Prefixes(ps, k + 1);
    }
  }

  lemma WordStep(s: string, st: PState, c: Cmd)
    requires st.pos <= |s| && st.la == Tword
    ensures CmdLoop(s, st, c) == CmdLoop(s, Next(s, st), AddArg(c, st.word))
  {
  }

  lemma InputStep(s: string, st: PState, c: Cmd)
    requires st.pos <= |s| && st.la == Tin && c.inn == Tnil && Next(s, st).la == Tword
    ensures CmdLoop(s, st, c) == CmdLoop(s, Next(s, Next(s, st)), c.(inn := Tin, infile := Some(Next(s, st).word)))
  {
  }

  lemma OutputStep(s: string, st: PState, c: Cmd)
    requires st.pos <= |s| && OutToken(st.la) && c.out == Tnil && Next(s, st).la == Tword
    ensures CmdLoop(s, st, c) == CmdLoop(s, Next(s, Next(s, st)), c.(out := st.la, outfile := Some(Next(s, st).word)))
  {
  }

  /** Reading an operator and the word behind it. */
  lemma PairRead(s: string, st: PState, items: seq<Item>, n: nat, end: nat, t: Token, w: string)
    requires Reads(s, st, items, n, end) && Match(items, n, [Op(t), Tok(Tword, w)]) && n + 2 < |items|
    ensures st.pos <= |s| && st.la == t && Next(s, st).la == Tword && Next(s, st).word == w
    ensures Next(s, st).pos <= |s| && Reads(s, Next(s, Next(s, st)), items, n + 2, end)
  {
    hide Reads, Next, Match;
    MatchHead(items, n, [Op(t), Tok(Tword, w)]);
    MatchHead(items, n + 1, [Op(t), Tok(Tword, w)][1..]);
    ReadsToken(s, st, items, n, end);
    Advance(s, st, items, n, end);
    ReadsToken(s, Next(s, st), items, n + 1, end);
    Advance(s, Next(s, st), items, n + 1, end);
  }

  lemma {:induction false} FirstArg(ps: seq<Piece>, k: nat)
    requires 0 < k <= |ps| && ps[0].Arg?
    ensures ArgsOf(ps[..k]) != [] && ArgsOf(ps[..k])[0] == ps[0].word
  {
    hide ArgsOf, Inputs, Outputs;
    Snoc(ps, k - 1);
    if k > 1 {
      FirstArg(ps, k - 1);
    } else {
      NoPieces();
      assert ps[..0] == [];
    }
  }

  lemma NoPieces()
    ensures ArgsOf([]) == [] && Inputs([]) == [] && Outputs([]) == []
  {
  }

  /** An argument adds to what has been made. */
  lemma PartlyArg(inpipe: Token, ps: seq<Piece>, k: nat)
    requires 0 < k < |ps| && ps[0].Arg? && ps[k].Arg?
    ensures Partly(inpipe, ps, k + 1) == AddArg(Partly(inpipe, ps, k), ps[k].word)
  {
    hide ArgsOf, Inputs, Outputs;
    Snoc(ps, k);
    FirstArg(ps, k);
  }

  /** So does a redirection, if it is the first of its kind. */
  lemma PartlyRedirect(inpipe: Token, ps: seq<Piece>, k: nat)
    requires k < |ps| && ps[k].Redirect? && Takes(inpipe, ps, k)
    ensures var c := Partly(inpipe, ps, k);
            if ps[k].t == Tin
            then c.inn == Tnil && Partly(inpipe, ps, k + 1) == c.(inn := Tin, infile := Some(ps[k].file))
            else c.out == Tnil && Partly(inpipe, ps, k + 1) == c.(out := ps[k].t, outfile := Some(ps[k].file))
  {
    hide Capacity, ArgsOf, Inputs, Outputs;
    Snoc(ps, k);
  }

  /** Otherwise what was read before is in its way. */
  lemma PartlyTaken(inpipe: Token, ps: seq<Piece>, k: nat)
    requires PiecesOk(ps) && k < |ps| && !Takes(inpipe, ps, k)
    ensures ps[k].Redirect?
            && if ps[k].t == Tin then Partly(inpipe, ps, k).inn != Tnil else Partly(inpipe, ps, k).out != Tnil
  {
    hide Capacity, ArgsOf, Inputs, Outputs;
    OutputsOk(ps, k);
  }

  lemma {:induction false} OutputsOk(ps: seq<Piece>, k: nat)
    requires PiecesOk(ps) && k <= |ps|
    ensures forall p :: p in Outputs(ps[..k]) ==> p in ps && p.Redirect? && OutToken(p.t)
  {
    hide ArgsOf, Inputs, Outputs;
    if k == 0 {
      NoPieces();
      assert ps[..0] == [];
    } else {
      Snoc(ps, k - 1);
      OutputsOk(ps, k - 1);
      assert ps[k - 1] in ps;
    }
  }

  lemma FitsTake(inpipe: Token, ps: seq<Piece>, k: nat)
    requires Fits(inpipe, ps) && k < |ps|
    ensures Takes(inpipe, ps, k)
  {
    hide ArgsOf, Inputs, Outputs;
    Snoc(ps, k);
    Prefixes(ps, k + 1);
  }

  /** The first piece that is refused, if the pieces do not fit. */
  lemma {:induction false} FirstRefused(inpipe: Token, ps: seq<Piece>, k: nat)
    requires 0 < k <= |ps| && !Fits(inpipe, ps[..k])
    ensures exists j :: 0 <= j < k && !Takes(inpipe, ps, j)
  {
    hide ArgsOf, Inputs, Outputs;
    Snoc(ps, k - 1);
    if k > 1 && !Fits(inpipe, ps[..k - 1]) {
      FirstRefused(inpipe, ps, k - 1);
    } else {
      NoPieces();
      assert ps[..0] == [];
      assert !Takes(inpipe, ps, k - 1);
    }
  }

  /** One piece is read. */
  lemma PieceRead(s: string, st: PState, items: seq<Item>, n: nat, end: nat, inpipe: Token, ps: seq<Piece>, k: nat)
    returns (st': PState)
    requires PiecesOk(ps) && 0 < k < |ps| && Takes(inpipe, ps, k) && Reads(s, st, items, n, end)
    requires Match(items, n, PieceToks(ps[k])) && n + |PieceToks(ps[k])| < |items|
    ensures Reads(s, st', items, n + |PieceToks(ps[k])|, end) && st.pos <= |s| && st'.pos <= |s|
    ensures CmdLoop(s, st, Partly(inpipe, ps, k)) == CmdLoop(s, st', Partly(inpipe, ps, k + 1))
  {
    hide Reads, Match, CmdLoop, Partly, AddArg, Next, Takes;
    ReadsToken(s, st, items, n, end);
    var c := Partly(inpipe, ps, k);
    match ps[k]
    case Arg(word) =>
      MatchHead(items, n, [Tok(Tword, word)]);
      Advance(s, st, items, n, end);
      WordStep(s, st, c);
      PartlyArg(inpipe, ps, k);
      st' := Next(s, st);
      ReadsToken(s, st', items, n + 1, end);
    case Redirect(t, file) =>
      assert ps[k] in ps;
      PairRead(s, st, items, n, end, t, file);
      PartlyRedirect(inpipe, ps, k);
      if t == Tin {
        InputStep(s, st, c);
      } else {
        OutputStep(s, st, c);
      }
      st' := Next(s, Next(s, st));
      ReadsToken(s, st', items, n + 2, end);
  }

  lemma FirstIsArg(c: Cmd, ps: seq<Piece>)
    requires MadeOf(c, ps)
    ensures ps != [] && ps[0].Arg? && c.args != [] && c.args[0] == ps[0].word
  {
    FirstArg(ps, |ps|);
    assert ps[..|ps|] == ps;
  }

  lemma PiecesStep(ps: seq<Piece>, k: nat)
    requires k < |ps|
    ensures PiecesToks(ps[k..]) == PieceToks(ps[k]) + PiecesToks(ps[k + 1..])
  {
    assert ps[k..][1..] == ps[k + 1..];
  }

  /** The pieces from the `k`-th on are read. */
  lemma {:induction false} PiecesRead(s: string, st: PState, items: seq<Item>, n: nat, end: nat, inpipe: Token,
         ps: seq<Piece>, k: nat)
    returns (st': PState)
    requires PiecesOk(ps) && Fits(inpipe, ps) && 0 < k <= |ps| && Reads(s, st, items, n, end)
    requires Match(items, n, PiecesToks(ps[k..])) && n + |PiecesToks(ps[k..])| < |items|
    ensures Reads(s, st', items, n + |PiecesToks(ps[k..])|, end) && st.pos <= |s| && st'.pos <= |s|
    ensures CmdLoop(s, st, Partly(inpipe, ps, k)) == CmdLoop(s, st', Partly(inpipe, ps, |ps|))
    decreases |ps| - k
  {
    hide Reads, Match, CmdLoop, Partly, PieceToks, PiecesOk, Fits, Takes;
    ReadsToken(s, st, items, n, end);
    if k == |ps| {
      assert PiecesToks(ps[|ps|..]) == [];
      st' := st;
    } else {
      PiecesStep(ps, k);
      MatchParts(items, n, PieceToks(ps[k]), PiecesToks(ps[k + 1..]));
      FitsTake(inpipe, ps, k);
      var st1 := PieceRead(s, st, items, n, end, inpipe, ps, k);
      st' := PiecesRead(s, st1, items, n + |PieceToks(ps[k])|, end, inpipe, ps, k + 1);
    }
  }

  /** The pieces of a command fit, and it is what the loop makes of them. */
  lemma AllPieces(c: Cmd, inpipe: Token, ps: seq<Piece>)
    requires CmdOk(c, inpipe) && MadeOf(c, ps)
    ensures Partly(inpipe, ps, |ps|) == c.(exec := Tsemi) && Fits(inpipe, ps) && PiecesOk(ps)
  {
    hide ArgsOf, Inputs, Outputs;
    assert ps[..|ps|] == ps;
  }

  /** A redirection that is in the way of another ends the command, and the rest of the line is skipped. */
  lemma RefuseStep(s: string, st: PState, c: Cmd)
    requires st.pos <= |s| && (if st.la == Tin then c.inn != Tnil else OutToken(st.la) && c.out != Tnil)
    ensures CmdLoop(s, st, c) == (Null, SkipToEnd(s, Next(s, st)))
  {
  }

  /** The pieces from the `k`-th on are read up to the one, at `j`, that is refused. */
  lemma {:induction false} PiecesRefused(s: string, st: PState, items: seq<Item>, n: nat, end: nat, inpipe: Token,
         ps: seq<Piece>, k: nat, j: nat)
    returns (st': PState, n': nat)
    requires PiecesOk(ps) && 0 < k <= j < |ps| && Reads(s, st, items, n, end) && !Takes(inpipe, ps, j)
    requires forall i :: 0 <= i < j ==> Takes(inpipe, ps, i)
    requires Match(items, n, PiecesToks(ps[k..])) && n + |PiecesToks(ps[k..])| < |items|
    ensures st.pos <= |s| && st'.pos <= |s| && Reads(s, st', items, n', end) && n' < n + |PiecesToks(ps[k..])|
    ensures CmdLoop(s, st, Partly(inpipe, ps, k)) == (Null, SkipToEnd(s, st')) && n < n'
    decreases j - k
  {
    hide Reads, Match, CmdLoop, Partly, PiecesOk, Takes, Next, SkipToEnd;
    ReadsToken(s, st, items, n, end);
    PiecesStep(ps, k);
    MatchParts(items, n, PieceToks(ps[k]), PiecesToks(ps[k + 1..]));
    if k < j {
      var st1 := PieceRead(s, st, items, n, end, inpipe, ps, k);
      st', n' := PiecesRefused(s, st1, items, n + |PieceToks(ps[k])|, end, inpipe, ps, k + 1, j);
    } else {
      PartlyTaken(inpipe, ps, k);
      assert ps[k].t == Tin || OutToken(ps[k].t) by { OkToken(ps, k); }
      PairRead(s, st, items, n, end, ps[k].t, ps[k].file);
      RefuseStep(s, st, Partly(inpipe, ps, k));
      Advance(s, st, items, n, end);
      st', n' := Next(s, st), n + 1;
      ReadsToken(s, st', items, n', end);
    }
  }

  lemma OkToken(ps: seq<Piece>, k: nat)
    requires PiecesOk(ps) && k < |ps| && ps[k].Redirect?
    ensures ps[k].t == Tin || OutToken(ps[k].t)
  {
    assert ps[k] in ps;
  }

  /** The item behind a command that stands in the foreground. */
  predicate EndsCmd(t: Token) {
    t == Tsemi || PipeToken(t) || t == Tnl
  }

  /** A semicolon behind a command in the foreground is read with the command. */
  function Semi(items: seq<Item>, m: nat, c: Cmd): nat
    requires m < |items|
  {
    if c.exec == Tsemi && items[m].tok == Tsemi then 1 else 0
  }

  lemma EndStep(s: string, st: PState, c: Cmd)
    requires st.pos <= |s| && (EndsCmd(st.la) || st.la == Tamp)
    ensures CmdLoop(s, st, c) ==
            (Made(if st.la == Tamp then c.(exec := Tamp) else c), if CmdToken(st.la) then Next(s, st) else st)
  {
  }

  lemma FirstStep(s: string, st: PState, st0: PState, inpipe: Token, ps: seq<Piece>)
    requires st.pos <= |s| && SkipCmdTokens(s, st) == st0 && st0.la == Tword
    requires ps != [] && ps[0] == Arg(st0.word)
    ensures MkCmd(s, st, inpipe) == CmdLoop(s, Next(s, st0), Partly(inpipe, ps, 1))
  {
    Snoc(ps, 0);
    assert ps[..0] == [] && [] + [st0.word] == [st0.word];
  }

  lemma NoSkip(s: string, st: PState)
    requires st.pos <= |s| && !CmdToken(st.la)
    ensures SkipCmdTokens(s, st) == st
  {
  }

  lemma CmdMatch(items: seq<Item>, n: nat, c: Cmd, ps: seq<Piece>)
    requires Match(items, n, CmdToks(c, ps)) && ps != [] && ps[0].Arg?
    ensures n < |items| && items[n].tok == Tword && items[n].word == ps[0].word
    ensures |CmdToks(c, ps)| == 1 + |PiecesToks(ps[1..])| + |Background(c)|
    ensures Match(items, n + 1, PiecesToks(ps[1..]))
    ensures Match(items, n + 1 + |PiecesToks(ps[1..])|, Background(c))
  {
    hide Match, Background;
    MatchParts(items, n, PiecesToks(ps), Background(c));
    assert PiecesToks(ps) == [Tok(Tword, ps[0].word)] + PiecesToks(ps[1..]);
    MatchHead(items, n, PiecesToks(ps));
    assert PiecesToks(ps)[1..] == PiecesToks(ps[1..]);
  }

  lemma BackgroundMatch(items: seq<Item>, m: nat, c: Cmd)
    requires Match(items, m, Background(c))
    ensures c.exec == Tamp ==> m < |items| && items[m].tok == Tamp
    ensures |Background(c)| == if c.exec == Tamp then 1 else 0
  {
    if c.exec == Tamp {
      assert items[m + 0].tok == Background(c)[0].tok;
    }
  }

  /** A command is read back, from `st0` on, in front of which the parser has skipped separators. */
  lemma CmdRead(s: string, st: PState, st0: PState, items: seq<Item>, n: nat, end: nat, c: Cmd, inpipe: Token,
         ps: seq<Piece>)
    returns (st': PState)
    requires st.pos <= |s| && SkipCmdTokens(s, st) == st0
    requires CmdOk(c, inpipe) && MadeOf(c, ps) && Reads(s, st0, items, n, end) && Match(items, n, CmdToks(c, ps))
    requires n + |CmdToks(c, ps)| < |items| && (c.exec == Tsemi ==> EndsCmd(items[n + |CmdToks(c, ps)|].tok))
    requires n + |CmdToks(c, ps)| + Semi(items, n + |CmdToks(c, ps)|, c) < |items|
    ensures MkCmd(s, st, inpipe) == (Made(c), st')
    ensures Reads(s, st', items, n + |CmdToks(c, ps)| + Semi(items, n + |CmdToks(c, ps)|, c), end)
  {
    hide Reads, Next, CmdLoop, Match, Capacity, Background, CmdToks, MkCmd, Partly, PiecesToks, SkipCmdTokens, MadeOf,
         Fits, PiecesOk;
    FirstIsArg(c, ps);
    CmdMatch(items, n, c, ps);
    var m := n + 1 + |PiecesToks(ps[1..])|;
    BackgroundMatch(items, m, c);
    ReadsToken(s, st0, items, n, end);
    AllPieces(c, inpipe, ps);
    FirstStep(s, st, st0, inpipe, ps);
    Advance(s, st0, items, n, end);
    var st2 := PiecesRead(s, Next(s, st0), items, n + 1, end, inpipe, ps, 1);
    ReadsToken(s, st2, items, m, end);
    EndStep(s, st2, c.(exec := Tsemi));
    st' := st2;
    if CmdToken(st2.la) {
      Advance(s, st2, items, m, end);
      st' := Next(s, st2);
    }
  }

  // ---------- how a pipe is written ----------

  /** A pipe, from its `k`-th command on. */
  function PipeToks(cmds: seq<Cmd>, how: seq<seq<Piece>>, k: nat): seq<Tok>
    requires k < |cmds| == |how|
    decreases |cmds| - k
  {
    CmdToks(cmds[k], how[k]) + Rest(cmds, how, k)
  }

  /** What is behind the `k`-th command: a joint and the next command, or nothing. */
  function Rest(cmds: seq<Cmd>, how: seq<seq<Piece>>, k: nat): seq<Tok>
    requires k < |cmds| == |how|
    decreases |cmds| - k, 0
  {
    if k + 1 < |cmds| then [Op(cmds[k].out)] + PipeToks(cmds, how, k + 1) else []
  }

  /** Redirections are found at the ends of the pipe only. */
  ghost predicate PipeOk(p: Pipeline) {
    && p.cmds != []
    && (forall k :: 0 <= k < |p.cmds| ==> CmdOk(Unjoined(p.cmds, k), Inpipe(p.cmds, k)))
    && (forall k :: 0 <= k < |p.cmds| - 1 ==> PipeToken(p.cmds[k].out))
    && p.ptype == PtypeAt(p.cmds, |p.cmds| - 1)
  }

  ghost predicate PipeMadeOf(p: Pipeline, how: seq<seq<Piece>>) {
    |how| == |p.cmds| && forall k :: 0 <= k < |how| ==> MadeOf(Unjoined(p.cmds, k), how[k])
  }

  function Unjoined(cmds: seq<Cmd>, k: nat): Cmd
    requires k < |cmds|
  {
    if k + 1 < |cmds| then cmds[k].(out := Tnil) else cmds[k]
  }

  function Inpipe(cmds: seq<Cmd>, k: nat): Token
    requires k < |cmds|
  {
    if k == 0 then Tnil else cmds[k - 1].out
  }

  /** The type of a pipe is that of its last joint. */
  function PtypeAt(cmds: seq<Cmd>, k: nat): Ptype
    requires k < |cmds|
  {
    if k > 0 && cmds[k - 1].out == TpipeErr then PoutErr else Pout
  }

  /** The commands of a pipe up to the `k`-th, which is not joined yet. */
  function Parsed(cmds: seq<Cmd>, k: nat): seq<Cmd>
    requires k < |cmds|
  {
    cmds[..k] + [Unjoined(cmds, k)]
  }

  lemma JoinStep(s: string, st: PState, cmds: seq<Cmd>, k: nat, st1: PState)
    requires st.pos <= |s| && k + 1 < |cmds| && PipeToken(cmds[k].out) && st.la == cmds[k].out
    requires MkCmd(s, Next(s, st), cmds[k].out) == (Made(Unjoined(cmds, k + 1)), st1)
    ensures st1.pos <= |s|
    ensures PipeLoop(s, st, PtypeAt(cmds, k), Parsed(cmds, k)) ==
            PipeLoop(s, st1, PtypeAt(cmds, k + 1), Parsed(cmds, k + 1))
  {
    hide MkCmd;
    assert SetLastOut(Parsed(cmds, k), cmds[k].out) == cmds[..k + 1];
  }

  lemma LoopEnds(s: string, st: PState, p: Pipeline)
    requires st.pos <= |s| && PipeOk(p) && !PipeToken(st.la)
    ensures PipeLoop(s, st, PtypeAt(p.cmds, |p.cmds| - 1), Parsed(p.cmds, |p.cmds| - 1)) == (Done(p), st)
  {
    var n := |p.cmds|;
    assert Parsed(p.cmds, n - 1) == p.cmds;
  }

  lemma PipeOkAt(p: Pipeline, how: seq<seq<Piece>>, k: nat)
    requires PipeOk(p) && PipeMadeOf(p, how) && k < |p.cmds|
    ensures |how| == |p.cmds| && MadeOf(Unjoined(p.cmds, k), how[k]) && how[k] != [] && how[k][0].Arg?
    ensures CmdOk(Unjoined(p.cmds, k), Inpipe(p.cmds, k)) && (k + 1 < |p.cmds| ==> PipeToken(p.cmds[k].out))
    ensures PipeToks(p.cmds, how, k) == CmdToks(Unjoined(p.cmds, k), how[k]) + Rest(p.cmds, how, k)
  {
  }

  /** Where the rest of a pipe ends: what follows its last command, and the semicolon if there is one. */
  ghost predicate PipeEnds(items: seq<Item>, m: nat, c: Cmd) {
    && m < |items| && m + Semi(items, m, c) < |items|
    && (c.exec == Tsemi ==> items[m].tok == Tsemi || items[m].tok == Tnl)
    && !PipeToken(items[m + Semi(items, m, c)].tok)
  }

  lemma NextCmdRead(s: string, st: PState, st0: PState, items: seq<Item>, n: nat, end: nat, p: Pipeline,
         how: seq<seq<Piece>>, k: nat, m: nat)
    returns (st': PState, n': nat)
    requires st.pos <= |s| && SkipCmdTokens(s, st) == st0 && PipeOk(p) && PipeMadeOf(p, how) && k < |p.cmds| == |how|
    requires Reads(s, st0, items, n, end) && Match(items, n, PipeToks(p.cmds, how, k))
    requires m == n + |PipeToks(p.cmds, how, k)| && PipeEnds(items, m, p.cmds[|p.cmds| - 1])
    ensures MkCmd(s, st, Inpipe(p.cmds, k)) == (Made(Unjoined(p.cmds, k)), st')
    ensures Reads(s, st', items, n', end) && Match(items, n', Rest(p.cmds, how, k))
    ensures n' + |Rest(p.cmds, how, k)| == if k + 1 < |p.cmds| then m else m + Semi(items, m, p.cmds[k])
  {
    hide Reads, MkCmd, CmdToks, CmdOk, PipeOk, Rest, PipeToks, SkipCmdTokens, MadeOf, PipeMadeOf;
    PipeOkAt(p, how, k);
    var c := Unjoined(p.cmds, k);
    MatchParts(items, n, CmdToks(c, how[k]), Rest(p.cmds, how, k));
    n' := n + |CmdToks(c, how[k])|;
    if k + 1 < |p.cmds| {
      RestStarts(items, n', p.cmds, how, k);
    } else {
      NoRest(p.cmds, how, k);
    }
    st' := CmdRead(s, st, st0, items, n, end, c, Inpipe(p.cmds, k), how[k]);
    n' := n' + Semi(items, n', c);
  }

  lemma RestStarts(items: seq<Item>, n: nat, cmds: seq<Cmd>, how: seq<seq<Piece>>, k: nat)
    requires k + 1 < |cmds| == |how| && Match(items, n, Rest(cmds, how, k)) && PipeToken(cmds[k].out)
    ensures n < |items| && items[n].tok == cmds[k].out && Rest(cmds, how, k) != []
    ensures Match(items, n + 1, PipeToks(cmds, how, k + 1)) && |Rest(cmds, how, k)| == 1 + |PipeToks(cmds, how, k + 1)|
  {
    hide Match, PipeToks;
    MatchHead(items, n, Rest(cmds, how, k));
    assert Rest(cmds, how, k)[1..] == PipeToks(cmds, how, k + 1);
  }

  lemma NoRest(cmds: seq<Cmd>, how: seq<seq<Piece>>, k: nat)
    requires k + 1 == |cmds| == |how|
    ensures Rest(cmds, how, k) == []
  {
  }

  /** The next command begins with a word, so that there is nothing to skip. */
  lemma PipeStarts(items: seq<Item>, n: nat, p: Pipeline, how: seq<seq<Piece>>, k: nat)
    requires PipeOk(p) && PipeMadeOf(p, how) && k < |p.cmds| == |how| && Match(items, n, PipeToks(p.cmds, how, k))
    ensures n < |items| && items[n].tok == Tword && PipeToks(p.cmds, how, k) != []
  {
    hide Match, PipeOk, PipeMadeOf, CmdToks, Rest, PipeToks, MadeOf, CmdOk;
    PipeOkAt(p, how, k);
    MatchParts(items, n, CmdToks(Unjoined(p.cmds, k), how[k]), Rest(p.cmds, how, k));
    CmdMatch(items, n, Unjoined(p.cmds, k), how[k]);
  }

  /** The rest of a pipe is read back. */
  lemma {:induction false} PipeRead(s: string, st: PState, items: seq<Item>, n: nat, end: nat, p: Pipeline,
         how: seq<seq<Piece>>, k: nat, m: nat)
    returns (st': PState)
    requires PipeOk(p) && PipeMadeOf(p, how) && k < |p.cmds| == |how|
    requires Reads(s, st, items, n, end) && Match(items, n, Rest(p.cmds, how, k))
    requires PipeEnds(items, m, p.cmds[|p.cmds| - 1])
    requires k + 1 == |p.cmds| ==> !PipeToken(st.la) && n == m + Semi(items, m, p.cmds[k])
    requires k + 1 < |p.cmds| ==> n + |Rest(p.cmds, how, k)| == m
    ensures st.pos <= |s| && PipeLoop(s, st, PtypeAt(p.cmds, k), Parsed(p.cmds, k)) == (Done(p), st')
    ensures Reads(s, st', items, m + Semi(items, m, p.cmds[|p.cmds| - 1]), end)
    decreases |p.cmds| - k
  {
    hide Reads, MkCmd, CmdToks, CmdOk, PipeOk, Rest, PipeToks, PipeLoop, Parsed, PtypeAt, Unjoined, Next, Match, MadeOf,
         PipeMadeOf, SkipCmdTokens;
    ReadsToken(s, st, items, n, end);
    if k + 1 == |p.cmds| {
      LoopEnds(s, st, p);
      st' := st;
    } else {
      PipeOkAt(p, how, k);
      RestStarts(items, n, p.cmds, how, k);
      PipeStarts(items, n + 1, p, how, k + 1);
      Advance(s, st, items, n, end);
      ReadsToken(s, Next(s, st), items, n + 1, end);
      NoSkip(s, Next(s, st));
      var st1, n1 := NextCmdRead(s, Next(s, st), Next(s, st), items, n + 1, end, p, how, k + 1, m);
      JoinStep(s, st, p.cmds, k, st1);
      ReadsToken(s, st1, items, n1, end);
      if k + 2 == |p.cmds| {
        NoRest(p.cmds, how, k + 1);
      }
      st' := PipeRead(s, st1, items, n1, end, p, how, k + 1, m);
    }
  }

  // ---------- how a line is written ----------

  /** The separators in front of a pipe, and the pieces of its commands. */
  datatype Layout = Layout(before: seq<Token>, how: seq<seq<Piece>>)

  function Ops(ts: seq<Token>): seq<Tok> {
    if ts == [] then [] else [Op(ts[0])] + Ops(ts[1..])
  }

  predicate Foreground(p: Pipeline) {
    p.cmds != [] && p.cmds[|p.cmds| - 1].exec == Tsemi
  }

  /**
   Semicolons and ampersands between pipes. Behind a command in the foreground the first is
   a semicolon, for an ampersand would be the command's own, and there is one if there are
   `more` pipes.
   */
  predicate SepsOk(seps: seq<Token>, fg: bool, more: bool) {
    && (forall t :: t in seps ==> CmdToken(t))
    && (fg ==> (seps != [] ==> seps[0] == Tsemi) && (more ==> seps != []))
  }

  /** The separators that the parser finds next. */
  function SepsAt(ls: seq<Layout>, trail: seq<Token>): seq<Token> {
    if ls == [] then trail else ls[0].before
  }

  /**
   The pipes are well-formed, and written as the layouts say; `fg` says that a foreground command
   has just been read.
   */
  ghost predicate LineOk(ps: seq<Pipeline>, ls: seq<Layout>, trail: seq<Token>, fg: bool) {
    && |ls| == |ps| && SepsOk(SepsAt(ls, trail), fg, ps != [])
    && (ps != [] ==>
          && PipeOk(ps[0]) && PipeMadeOf(ps[0], ls[0].how)
          && LineOk(ps[1..], ls[1..], trail, Foreground(ps[0])))
  }

  ghost function LineToks(ps: seq<Pipeline>, ls: seq<Layout>, trail: seq<Token>, fg: bool): seq<Tok>
    requires LineOk(ps, ls, trail, fg)
    decreases |ps|, 1
  {
    Ops(SepsAt(ls, trail)) + Body(ps, ls, trail, fg)
  }

  /** The line behind the next separators. */
  ghost function Body(ps: seq<Pipeline>, ls: seq<Layout>, trail: seq<Token>, fg: bool): seq<Tok>
    requires LineOk(ps, ls, trail, fg)
    decreases |ps|, 0
  {
    if ps == [] then [Op(Tnl)]
    else PipeToks(ps[0].cmds, ls[0].how, 0) + LineToks(ps[1..], ls[1..], trail, Foreground(ps[0]))
  }

  lemma {:induction false} OpsLength(ts: seq<Token>)
    ensures |Ops(ts)| == |ts|
  {
    if ts != [] {
      OpsLength(ts[1..]);
    }
  }

  /** A line goes on with a word or ends, behind its separators. */
  lemma BodyStarts(items: seq<Item>, n: nat, ps: seq<Pipeline>, ls: seq<Layout>, trail: seq<Token>, fg: bool)
    requires LineOk(ps, ls, trail, fg) && Match(items, n, Body(ps, ls, trail, fg))
    ensures n < |items| && items[n].tok == (if ps == [] then Tnl else Tword) && Body(ps, ls, trail, fg) != []
  {
    hide PipeOk, PipeMadeOf, Match, PipeToks, LineToks;
    if ps == [] {
      MatchHead(items, n, [Op(Tnl)]);
    } else {
      LineOkHead(ps, ls, trail, fg);
      MatchParts(items, n, PipeToks(ps[0].cmds, ls[0].how, 0), LineToks(ps[1..], ls[1..], trail, Foreground(ps[0])));
      PipeStarts(items, n, ps[0], ls[0].how, 0);
    }
  }

  /** The separators that are left when the first semicolon has been read with a command. */
  function Taken(seps: seq<Token>, fg: bool): seq<Token> {
    if fg && seps != [] then seps[1..] else seps
  }

  /** Where a pipe ends, and what is left in front of the body behind it. */
  lemma SeparatorsFollow(items: seq<Item>, m: nat, c: Cmd, ps: seq<Pipeline>, ls: seq<Layout>, trail: seq<Token>)
    requires c.exec == Tsemi || c.exec == Tamp
    requires LineOk(ps, ls, trail, c.exec == Tsemi) && Match(items, m, LineToks(ps, ls, trail, c.exec == Tsemi))
    ensures var fg, seps := c.exec == Tsemi, SepsAt(ls, trail);
            && PipeEnds(items, m, c) && m + Semi(items, m, c) + |Taken(seps, fg)| == m + |seps|
            && Match(items, m + Semi(items, m, c), Ops(Taken(seps, fg)))
            && Match(items, m + |seps|, Body(ps, ls, trail, fg))
  {
    hide Match, Body, PipeOk, PipeMadeOf, LineOk;
    var fg, seps := c.exec == Tsemi, SepsAt(ls, trail);
    assert SepsOk(seps, fg, ps != []) by { LineSeps(ps, ls, trail, fg); }
    OpsLength(seps);
    MatchParts(items, m, Ops(seps), Body(ps, ls, trail, fg));
    BodyStarts(items, m + |seps|, ps, ls, trail, fg);
    if seps != [] {
      assert Ops(seps) == [Op(seps[0])] + Ops(seps[1..]);
      MatchHead(items, m, Ops(seps));
      assert Ops(seps)[1..] == Ops(seps[1..]);
      if |seps| > 1 {
        MatchHead(items, m + 1, Ops(seps[1..]));
        assert seps[1] in seps;
      }
      assert seps[0] in seps;
    }
  }

  lemma LineSeps(ps: seq<Pipeline>, ls: seq<Layout>, trail: seq<Token>, fg: bool)
    requires LineOk(ps, ls, trail, fg)
    ensures |ls| == |ps| && SepsOk(SepsAt(ls, trail), fg, ps != [])
  {
  }

  /** Separators are skipped. */
  lemma {:induction false} SkipRead(s: string, st: PState, items: seq<Item>, n: nat, end: nat, seps: seq<Token>)
    returns (st': PState)
    requires Reads(s, st, items, n, end) && Match(items, n, Ops(seps)) && (forall t :: t in seps ==> CmdToken(t))
    requires n + |seps| < |items| && !CmdToken(items[n + |seps|].tok)
    ensures st.pos <= |s| && SkipCmdTokens(s, st) == st' && Reads(s, st', items, n + |seps|, end)
    decreases |seps|
  {
    hide Reads, Match, Next, SkipCmdTokens;
    ReadsToken(s, st, items, n, end);
    if seps == [] {
      NoSkip(s, st);
      st' := st;
    } else {
      assert Ops(seps) == [Op(seps[0])] + Ops(seps[1..]);
      MatchHead(items, n, Ops(seps));
      assert Ops(seps)[1..] == Ops(seps[1..]) && seps[0] in seps;
      Advance(s, st, items, n, end);
      SkipStep(s, st);
      st' := SkipRead(s, Next(s, st), items, n + 1, end, seps[1..]);
    }
  }

  lemma SkipStep(s: string, st: PState)
    requires st.pos <= |s| && CmdToken(st.la)
    ensures SkipCmdTokens(s, st) == SkipCmdTokens(s, Next(s, st))
  {
  }

  lemma ListStep(s: string, st: PState, p: Pipeline, st1: PState, st2: PState)
    requires st.pos <= |s| && p.cmds != [] && MkCmd(s, st, Tnil) == (Made(Unjoined(p.cmds, 0)), st1)
    requires st1.pos <= |s| && PipeLoop(s, st1, PtypeAt(p.cmds, 0), Parsed(p.cmds, 0)) == (Done(p), st2)
    ensures st2.pos <= |s|
    ensures MkPipe(s, st) ==
            if EndOfInput(st2.la) then ([p], st2) else ([p] + MkPipes(s, st2, []).0, MkPipes(s, st2, []).1)
  {
    hide MkCmd, PipeLoop, MkPipes;
    assert Parsed(p.cmds, 0) == [Unjoined(p.cmds, 0)];
  }

  lemma ListEnds(s: string, st: PState, ps: seq<Pipeline>, st1: PState)
    requires st.pos <= |s| && !EndOfInput(st.la) && MkPipe(s, st) == (ps, st1) && EndOfInput(st1.la)
    ensures MkPipes(s, st, []) == (ps, st1)
  {
    hide MkPipe;
  }

  /** Where nothing but separators is left there are no pipes. */
  lemma EmptyStep(s: string, st: PState, st0: PState)
    requires st.pos <= |s| && SkipCmdTokens(s, st) == st0 && st0.la == Tnl
    ensures MkPipe(s, st) == ([], st0)
  {
  }

  lemma LastItem(s: string, st: PState, items: seq<Item>, n: nat, end: nat)
    requires Reads(s, st, items, n, end) && n + 1 == |items|
    ensures st.pos == end
  {
    assert items[n + 1..] == [];
  }

  /** What is left of a line without pipes is read, if it does not end at once. */
  lemma TrailRead(s: string, st: PState, items: seq<Item>, n: nat, end: nat, seps: seq<Token>) returns (st': PState)
    requires Reads(s, st, items, n, end) && Match(items, n, Ops(seps)) && (forall t :: t in seps ==> CmdToken(t))
    requires n + |seps| + 1 == |items| && items[n + |seps|].tok == Tnl
    ensures st.pos <= |s| && MkPipe(s, st) == ([], st') && st'.la == Tnl && st'.pos == end
  {
    hide Reads, Match, MkPipe, SkipCmdTokens;
    st' := SkipRead(s, st, items, n, end, seps);
    ReadsToken(s, st', items, n + |seps|, end);
    LastItem(s, st', items, n + |seps|, end);
    EmptyStep(s, st, st');
  }

  lemma LineOkHead(ps: seq<Pipeline>, ls: seq<Layout>, trail: seq<Token>, fg: bool)
    requires LineOk(ps, ls, trail, fg) && ps != []
    ensures |ls| == |ps| && PipeOk(ps[0]) && ps[0].cmds != [] && PipeMadeOf(ps[0], ls[0].how)
    ensures |ls[0].how| == |ps[0].cmds| && LineOk(ps[1..], ls[1..], trail, Foreground(ps[0]))
    ensures Inpipe(ps[0].cmds, 0) == Tnil
    ensures var c := ps[0].cmds[|ps[0].cmds| - 1];
            (c.exec == Tsemi || c.exec == Tamp) && (Foreground(ps[0]) <==> c.exec == Tsemi)
    ensures Body(ps, ls, trail, fg) ==
            PipeToks(ps[0].cmds, ls[0].how, 0) + LineToks(ps[1..], ls[1..], trail, Foreground(ps[0]))
  {
    hide PipeToks;
    var k := |ps[0].cmds| - 1;
    assert CmdOk(Unjoined(ps[0].cmds, k), Inpipe(ps[0].cmds, k));
  }

  /** A whole pipe is read, from `st0` on, in front of which the parser has skipped separators. */
  lemma WholePipeRead(s: string, st: PState, st0: PState, items: seq<Item>, n: nat, end: nat, p: Pipeline,
         how: seq<seq<Piece>>, m: nat)
    returns (st': PState)
    requires st.pos <= |s| && SkipCmdTokens(s, st) == st0 && PipeOk(p) && PipeMadeOf(p, how) && 0 < |p.cmds| == |how|
    requires Reads(s, st0, items, n, end) && Match(items, n, PipeToks(p.cmds, how, 0))
    requires m == n + |PipeToks(p.cmds, how, 0)| && PipeEnds(items, m, p.cmds[|p.cmds| - 1])
    ensures st'.pos <= |s| && Reads(s, st', items, m + Semi(items, m, p.cmds[|p.cmds| - 1]), end)
    ensures MkPipe(s, st) ==
            if EndOfInput(st'.la) then ([p], st') else ([p] + MkPipes(s, st', []).0, MkPipes(s, st', []).1)
  {
    hide Reads, Match, PipeToks, MkCmd, MkPipe, MkPipes, PipeLoop, Parsed, PipeOk, Rest, PtypeAt, Unjoined, PipeMadeOf,
         SkipCmdTokens;
    var st1, n1 := NextCmdRead(s, st, st0, items, n, end, p, how, 0, m);
    ReadsToken(s, st1, items, n1, end);
    if |p.cmds| == 1 {
      NoRest(p.cmds, how, 0);
    }
    st' := PipeRead(s, st1, items, n1, end, p, how, 0, m);
    ReadsToken(s, st', items, m + Semi(items, m, p.cmds[|p.cmds| - 1]), end);
    ListStep(s, st, p, st1, st');
  }

  /** The first pipe of what is left of a line is read. */
  lemma FirstPipeRead(s: string, st: PState, items: seq<Item>, n: nat, end: nat,
         ps: seq<Pipeline>, ls: seq<Layout>, trail: seq<Token>, fg: bool, seps: seq<Token>)
    returns (st': PState, n': nat)
    requires LineOk(ps, ls, trail, fg) && ps != [] && Reads(s, st, items, n, end)
    requires Match(items, n, Ops(seps)) && (forall t :: t in seps ==> CmdToken(t))
    requires Match(items, n + |seps|, Body(ps, ls, trail, fg))
    ensures |ls| == |ps| && LineOk(ps[1..], ls[1..], trail, Foreground(ps[0]))
    ensures st.pos <= |s| && st'.pos <= |s| && Reads(s, st', items, n', end)
    ensures MkPipe(s, st) ==
            if EndOfInput(st'.la) then ([ps[0]], st') else ([ps[0]] + MkPipes(s, st', []).0, MkPipes(s, st', []).1)
    ensures var seps' := SepsAt(ls[1..], trail);
            && Match(items, n', Ops(Taken(seps', Foreground(ps[0]))))
            && Match(items, n' + |Taken(seps', Foreground(ps[0]))|, Body(ps[1..], ls[1..], trail, Foreground(ps[0])))
            && n' + |Taken(seps', Foreground(ps[0]))| + |Body(ps[1..], ls[1..], trail, Foreground(ps[0]))| ==
               n + |seps| + |Body(ps, ls, trail, fg)|
  {
    hide Reads, Match, PipeToks, MkPipe, MkPipes, LineOk, PipeOk, Body, PipeMadeOf, SkipCmdTokens, SepsOk;
    LineOkHead(ps, ls, trail, fg);
    BodyStarts(items, n + |seps|, ps, ls, trail, fg);
    var st0 := SkipRead(s, st, items, n, end, seps);
    var p, how, n0 := ps[0], ls[0].how, n + |seps|;
    var c := p.cmds[|p.cmds| - 1];
    var m := n0 + |PipeToks(p.cmds, how, 0)|;
    MatchParts(items, n0, PipeToks(p.cmds, how, 0), LineToks(ps[1..], ls[1..], trail, Foreground(p)));
    SeparatorsFollow(items, m, c, ps[1..], ls[1..], trail);
    OpsLength(SepsAt(ls[1..], trail));
    st' := WholePipeRead(s, st, st0, items, n0, end, p, how, m);
    n' := m + Semi(items, m, c);
  }

  /** A list of pipes is read back, from the separators `seps` on that are left in front of it. */
  lemma {:induction false} LineRead(s: string, st: PState, items: seq<Item>, n: nat, end: nat,
         ps: seq<Pipeline>, ls: seq<Layout>, trail: seq<Token>, fg: bool, seps: seq<Token>)
    returns (st': PState)
    requires LineOk(ps, ls, trail, fg) && Reads(s, st, items, n, end)
    requires Match(items, n, Ops(seps)) && (forall t :: t in seps ==> CmdToken(t))
    requires Match(items, n + |seps|, Body(ps, ls, trail, fg)) && n + |seps| + |Body(ps, ls, trail, fg)| == |items|
    ensures st.pos <= |s| && MkPipe(s, st) == (ps, st') && st'.la == Tnl && st'.pos == end
    decreases |ps|
  {
    hide Reads, Match, MkPipe, MkPipes, LineOk, Body, SepsOk;
    BodyStarts(items, n + |seps|, ps, ls, trail, fg);
    if ps == [] {
      EmptyBody(ps, ls, trail, fg);
      st' := TrailRead(s, st, items, n, end, seps);
    } else {
      var st1, n1 := FirstPipeRead(s, st, items, n, end, ps, ls, trail, fg, seps);
      var left := Taken(SepsAt(ls[1..], trail), Foreground(ps[0]));
      LineSeps(ps[1..], ls[1..], trail, Foreground(ps[0]));
      LeftAreSeps(SepsAt(ls[1..], trail), Foreground(ps[0]), |ps| > 1);
      var st2 := LineRead(s, st1, items, n1, end, ps[1..], ls[1..], trail, Foreground(ps[0]), left);
      BodyStarts(items, n1 + |left|, ps[1..], ls[1..], trail, Foreground(ps[0]));
      ReadsToken(s, st1, items, n1, end);
      assert [ps[0]] + ps[1..] == ps;
      st' := st2;
      if EndOfInput(st1.la) {
        AtTheEnd(items, n1, left);
        EmptyBody(ps[1..], ls[1..], trail, Foreground(ps[0]));
        LastItem(s, st1, items, n1, end);
        assert ps == [ps[0]];
        st' := st1;
      } else {
        ListEnds(s, st1, ps[1..], st2);
      }
    }
  }

  lemma EmptyBody(ps: seq<Pipeline>, ls: seq<Layout>, trail: seq<Token>, fg: bool)
    requires LineOk(ps, ls, trail, fg)
    ensures ps == [] ==> |Body(ps, ls, trail, fg)| == 1
  {
  }

  lemma LeftAreSeps(seps: seq<Token>, fg: bool, more: bool)
    requires SepsOk(seps, fg, more)
    ensures forall t :: t in Taken(seps, fg) ==> CmdToken(t)
  {
  }

  /** The end of the line is no separator. */
  lemma AtTheEnd(items: seq<Item>, n: nat, seps: seq<Token>)
    requires Match(items, n, Ops(seps)) && (forall t :: t in seps ==> CmdToken(t)) && n < |items|
    requires EndOfInput(items[n].tok)
    ensures seps == []
  {
    if seps != [] {
      assert seps[0] in seps;
      MatchHead(items, n, Ops(seps));
    }
  }

  /** The items spell the line that lists these pipes, in this layout. */
  ghost predicate Spells(items: seq<Item>, ps: seq<Pipeline>, ls: seq<Layout>, trail: seq<Token>) {
    && ItemsOk(items) && LineOk(ps, ls, trail, false)
    && Match(items, 0, LineToks(ps, ls, trail, false)) && |items| == |LineToks(ps, ls, trail, false)|
  }

  /**
   The round trip: wherever in the input a line stands that spells a list of pipes, with any
   blanks before the tokens, any quoting of the words, redirections anywhere behind the
   first word of their command, and superfluous separators, the parser returns that list
   and has read exactly that line.
   */
  lemma RoundTrip(s: string, pos: nat, items: seq<Item>, ps: seq<Pipeline>, ls: seq<Layout>, trail: seq<Token>)
    requires Spells(items, ps, ls, trail) && At(s, pos, LineText(items))
    ensures Parse(s, pos) == (ps, pos + |LineText(items)|)
  {
    hide Match, Body, LineOk, MkPipe, Text, Lexed, LineText, At, Reads, NeedsMore, Abuts, ItemOk;
    var seps := SepsAt(ls, trail);
    MatchParts(items, 0, Ops(seps), Body(ps, ls, trail, false));
    OpsLength(seps);
    BodyStarts(items, |seps|, ps, ls, trail, false);
    LineSeps(ps, ls, trail, false);
    var st := PState(Lexed(s, pos).pos, Lexed(s, pos).tok, Lexed(s, pos).word);
    FirstItem(s, pos, items);
    var st1 := LineRead(s, st, items, 0, pos + |LineText(items)|, ps, ls, trail, false, seps);
    AtFits(s, pos, LineText(items));
  }

  lemma AtFits(s: string, pos: nat, text: string)
    requires At(s, pos, text)
    ensures pos + |text| <= |s|
  {
  }

  lemma FirstItem(s: string, pos: nat, items: seq<Item>)
    requires ItemsOk(items) && items != [] && At(s, pos, LineText(items))
    ensures var l := Lexed(s, pos); Reads(s, PState(l.pos, l.tok, l.word), items, 0, pos + |LineText(items)|)
  {
    hide Lexed, Text, At, ItemOk, Continues, LineText, NeedsMore, Abuts;
    assert items[0..] == items && items[0 + 1..] == items[1..];
    assert ItemOk(items[0]);
    AtFits(s, pos, LineText(items));
    LineContinues(items, 0);
    LexItem(s, pos, items[0], LineText(items[1..]));
    AtParts(s, pos, Text(items[0]), LineText(items[1..]));
  }

  // ---------- lines that are refused ----------

  /** The items are one line. */
  ghost predicate OneLine(items: seq<Item>) {
    && ItemsOk(items) && items != [] && items[|items| - 1].tok == Tnl
    && forall i :: 0 <= i < |items| - 1 ==> !EndOfInput(items[i].tok)
  }

  lemma {:induction false} LineSkipped(s: string, st: PState, items: seq<Item>, n: nat, end: nat) returns (st': PState)
    requires OneLine(items) && Reads(s, st, items, n, end)
    ensures st.pos <= |s| && SkipToEnd(s, st) == st' && st'.la == Tnl && st'.pos == end
    decreases |items| - n
  {
    hide Reads, Next, SkipToEnd, ItemsOk;
    ReadsToken(s, st, items, n, end);
    SkipToEndStep(s, st);
    if n + 1 == |items| {
      LastItem(s, st, items, n, end);
      st' := st;
    } else {
      Advance(s, st, items, n, end);
      st' := LineSkipped(s, Next(s, st), items, n + 1, end);
    }
  }

  lemma SkipToEndStep(s: string, st: PState)
    requires st.pos <= |s|
    ensures SkipToEnd(s, st) == if EndOfInput(st.la) then st else SkipToEnd(s, Next(s, st))
  {
  }

  /**
   A command that is written of these pieces is made exactly if they fit; otherwise there is
   no command, and the rest of the line has been skipped.
   */
  lemma CmdMadeIff(s: string, st: PState, items: seq<Item>, n: nat, end: nat, inpipe: Token, ps: seq<Piece>)
    returns (st': PState)
    requires OneLine(items) && PiecesOk(ps) && Reads(s, st, items, n, end) && Match(items, n, PiecesToks(ps))
    requires n + |PiecesToks(ps)| < |items|
             && (EndsCmd(items[n + |PiecesToks(ps)|].tok) || items[n + |PiecesToks(ps)|].tok == Tamp)
    ensures st.pos <= |s| && MkCmd(s, st, inpipe).1 == st'
    ensures MkCmd(s, st, inpipe).0.Made? <==> Fits(inpipe, ps)
    ensures !Fits(inpipe, ps) ==> MkCmd(s, st, inpipe).0 == Null && st'.la == Tnl && st'.pos == end
    ensures Fits(inpipe, ps) && PipeToken(items[n + |PiecesToks(ps)|].tok) ==>
              && MkCmd(s, st, inpipe).0.c.out == Partly(inpipe, ps, |ps|).out
              && Reads(s, st', items, n + |PiecesToks(ps)|, end)
  {
    hide Reads, Next, CmdLoop, Match, Capacity, MkCmd, Partly, Fits, PiecesToks, SkipCmdTokens, Takes, SkipToEnd,
         ItemsOk;
    var m := n + |PiecesToks(ps)|;
    PiecesStep(ps, 0);
    assert ps[0..] == ps;
    MatchParts(items, n, PieceToks(ps[0]), PiecesToks(ps[1..]));
    MatchHead(items, n, PieceToks(ps[0]));
    ReadsToken(s, st, items, n, end);
    NoSkip(s, st);
    FirstStep(s, st, st, inpipe, ps);
    Advance(s, st, items, n, end);
    if Fits(inpipe, ps) {
      var st2 := PiecesRead(s, Next(s, st), items, n + 1, end, inpipe, ps, 1);
      ReadsToken(s, st2, items, m, end);
      EndStep(s, st2, Partly(inpipe, ps, |ps|));
      st' := if CmdToken(st2.la) then Next(s, st2) else st2;
    } else {
      var j := Refused(inpipe, ps);
      var st2, n2 := PiecesRefused(s, Next(s, st), items, n + 1, end, inpipe, ps, 1, j);
      st' := LineSkipped(s, st2, items, n2, end);
    }
  }

  lemma Refused(inpipe: Token, ps: seq<Piece>) returns (j: nat)
    requires PiecesOk(ps) && !Fits(inpipe, ps)
    ensures 0 < j < |ps| && !Takes(inpipe, ps, j) && forall i :: 0 <= i < j ==> Takes(inpipe, ps, i)
  {
    hide Fits;
    assert ps[..|ps|] == ps;
    FirstRefused(inpipe, ps, |ps|);
    var k :| 0 <= k < |ps| && !Takes(inpipe, ps, k);
    j := LeastRefused(inpipe, ps, k);
  }

  lemma {:induction false} LeastRefused(inpipe: Token, ps: seq<Piece>, k: nat) returns (j: nat)
    requires k < |ps| && !Takes(inpipe, ps, k)
    ensures j <= k && !Takes(inpipe, ps, j) && forall i :: 0 <= i < j ==> Takes(inpipe, ps, i)
    decreases k
  {
    hide Takes;
    if i :| 0 <= i < k && !Takes(inpipe, ps, i) {
      j := LeastRefused(inpipe, ps, i);
    } else {
      j := k;
    }
  }

  /**
   An ambiguous line is refused: if the first command has two redirections of one kind, or a
   redirected output and a joint behind it, there are no pipes, and the line has been read.
   */
  lemma AmbiguousRefused(s: string, pos: nat, items: seq<Item>, ps: seq<Piece>)
    requires OneLine(items) && At(s, pos, LineText(items)) && PiecesOk(ps) && Match(items, 0, PiecesToks(ps))
    requires |PiecesToks(ps)| < |items| && (EndsCmd(items[|PiecesToks(ps)|].tok) || items[|PiecesToks(ps)|].tok == Tamp)
    requires |Inputs(ps)| > 1 || |Outputs(ps)| > if PipeToken(items[|PiecesToks(ps)|].tok) then 0 else 1
    ensures Parse(s, pos) == ([], pos + |LineText(items)|)
  {
    hide Reads, MkCmd, Lexed, LineText, At, Match, PiecesToks, NeedsMore, Abuts, ItemOk, Next, SkipToEnd, Partly,
         PiecesOk, OneLine, DelimiterAt, ApartAt;
    LineItems(items);
    var l := Lexed(s, pos);
    var st, end, m := PState(l.pos, l.tok, l.word), pos + |LineText(items)|, |PiecesToks(ps)|;
    FirstItem(s, pos, items);
    AtFits(s, pos, LineText(items));
    var st1 := CmdMadeIff(s, st, items, 0, end, Tnil, ps);
    if Fits(Tnil, ps) {
      OutputTaken(ps);
      ReadsToken(s, st1, items, m, end);
      var st2 := LineSkipped(s, st1, items, m, end);
      SkipToEndStep(s, st1);
      JointRefused(s, st, st1);
    } else {
      NoPipe(s, st);
    }
  }

  /** So is a joint that no command follows: `Invalid null command`, or another joint. */
  lemma NullRefused(s: string, pos: nat, items: seq<Item>, ps: seq<Piece>)
    requires OneLine(items) && At(s, pos, LineText(items)) && PiecesOk(ps) && Match(items, 0, PiecesToks(ps))
    requires |PiecesToks(ps)| + 1 < |items| && PipeToken(items[|PiecesToks(ps)|].tok)
    requires items[|PiecesToks(ps)| + 1].tok != Tword && !CmdToken(items[|PiecesToks(ps)| + 1].tok)
    ensures Parse(s, pos) == ([], pos + |LineText(items)|)
  {
    hide Reads, MkCmd, Lexed, LineText, At, Match, PiecesToks, NeedsMore, Abuts, ItemOk, Next, SkipToEnd, Partly,
         PiecesOk, OneLine, DelimiterAt, ApartAt, Fits;
    LineItems(items);
    var l := Lexed(s, pos);
    var st, end, m := PState(l.pos, l.tok, l.word), pos + |LineText(items)|, |PiecesToks(ps)|;
    FirstItem(s, pos, items);
    AtFits(s, pos, LineText(items));
    var st1 := CmdMadeIff(s, st, items, 0, end, Tnil, ps);
    if Fits(Tnil, ps) {
      ReadsToken(s, st1, items, m, end);
      SkipToEndStep(s, st1);
      var st2 := LineSkipped(s, st1, items, m, end);
      Advance(s, st1, items, m, end);
      ReadsToken(s, Next(s, st1), items, m + 1, end);
      LineTokens(items, m + 1);
      if MkCmd(s, st, Tnil).0.c.out == Tnil {
        JointAlone(s, st, st1);
      } else {
        JointRefused(s, st, st1);
      }
    } else {
      NoPipe(s, st);
    }
  }

  lemma LineTokens(items: seq<Item>, n: nat)
    requires OneLine(items) && n < |items|
    ensures EndOfInput(items[n].tok) ==> items[n].tok == Tnl
  {
  }

  lemma JointAlone(s: string, st: PState, st1: PState)
    requires st.pos <= |s| && MkCmd(s, st, Tnil).0.Made? && MkCmd(s, st, Tnil).1 == st1 && st1.pos <= |s|
    requires PipeToken(st1.la) && MkCmd(s, st, Tnil).0.c.out == Tnil
    requires var la := Next(s, st1).la; la != Tword && !CmdToken(la) && la != Tend
    ensures MkPipe(s, st) == ([], SkipToEnd(s, Next(s, st1)))
  {
    hide Next, SkipToEnd, CmdLoop;
    var st2 := Next(s, st1);
    NoSkip(s, st2);
    MkCmdAlone(s, st2, Joint(if st1.la == TpipeErr then PoutErr else Pout));
    JointStops(s, st, st1);
  }

  lemma MkCmdAlone(s: string, st: PState, inpipe: Token)
    requires st.pos <= |s| && st.la != Tword && st.la != Tend && SkipCmdTokens(s, st) == st
    ensures MkCmd(s, st, inpipe) == (if st.la == Tnl || st.la == Terror then Empty else Null, st)
  {
  }

  lemma JointStops(s: string, st: PState, st1: PState)
    requires st.pos <= |s| && MkCmd(s, st, Tnil).0.Made? && MkCmd(s, st, Tnil).1 == st1 && st1.pos <= |s|
    requires PipeToken(st1.la) && MkCmd(s, st, Tnil).0.c.out == Tnil
    requires var m := MkCmd(s, Next(s, st1), Joint(if st1.la == TpipeErr then PoutErr else Pout));
             (m.0.Null? || m.0.Empty?) && m.1 == Next(s, st1)
    ensures MkPipe(s, st) == ([], SkipToEnd(s, Next(s, st1)))
  {
    hide MkCmd, SkipToEnd, Next;
  }

  lemma LineItems(items: seq<Item>)
    requires OneLine(items)
    ensures ItemsOk(items) && items != []
  {
  }

  lemma OutputTaken(ps: seq<Piece>)
    requires PiecesOk(ps) && Outputs(ps) != []
    ensures Partly(Tnil, ps, |ps|).out != Tnil
  {
    hide ArgsOf, Inputs, Outputs;
    assert ps[..|ps|] == ps;
    OutputsOk(ps, |ps|);
  }

  lemma NoPipe(s: string, st: PState)
    requires st.pos <= |s| && MkCmd(s, st, Tnil).0 == Null
    ensures MkPipe(s, st) == ([], MkCmd(s, st, Tnil).1)
  {
    hide MkCmd;
  }

  lemma JointRefused(s: string, st: PState, st1: PState)
    requires st.pos <= |s| && MkCmd(s, st, Tnil).0.Made? && MkCmd(s, st, Tnil).1 == st1
    requires PipeToken(st1.la) && MkCmd(s, st, Tnil).0.c.out != Tnil
    ensures st1.pos <= |s| && MkPipe(s, st) == ([], SkipToEnd(s, Next(s, st1)))
  {
    hide MkCmd, SkipToEnd, Next;
  }

  // ---------- an ordinary line ----------

  const LS := Cmd(Tsemi, Tnil, Tpipe, None, None, ["ls"], 4)
  const WC := Cmd(Tsemi, Tpipe, Tnil, None, None, ["wc"], 4)
  const LS_WC := Pipeline(Pout, [LS, WC])
  const LS_WC_LAYOUT := Layout([], [[Arg("ls")], [Arg("wc")]])
  const PLAIN := Style([false, false], Abutting)

  const LS_WC_ITEMS :=
    [Item(Tword, "ls", "", PLAIN), Item(Tpipe, "", "", PLAIN), Item(Tword, "wc", "", PLAIN), Item(Tnl, "", "", PLAIN)]

  /** `ls|wc`: the words are ended by the joint and the newline alone. */
  lemma OrdinaryLine(s: string, pos: nat)
    requires At(s, pos, "ls|wc\n")
    ensures Parse(s, pos) == ([LS_WC], pos + 6)
  {
    hide Parse, At, LineOk, ItemsOk, Match, LineToks, LineText, ItemOk;
    OrdinaryOk();
    OrdinaryToks();
    OrdinaryItems();
    OrdinaryText();
    RoundTrip(s, pos, LS_WC_ITEMS, [LS_WC], [LS_WC_LAYOUT], []);
  }

  lemma OrdinaryOk()
    ensures LineOk([LS_WC], [LS_WC_LAYOUT], [], false)
  {
    hide MadeOf;
    assert Capacity(1) == 4 && PipeOk(LS_WC);
    OneWord("ls", Unjoined(LS_WC.cmds, 0));
    OneWord("wc", Unjoined(LS_WC.cmds, 1));
    assert PipeMadeOf(LS_WC, LS_WC_LAYOUT.how);
    assert LineOk([], [], [], true);
    assert [LS_WC][1..] == [] && [LS_WC_LAYOUT][1..] == [];
  }

  lemma OneWord(w: string, c: Cmd)
    requires c.args == [w] && c.infile.None? && c.outfile.None?
    ensures MadeOf(c, [Arg(w)]) && PiecesToks([Arg(w)]) == [Tok(Tword, w)]
  {
    Snoc([Arg(w)], 0);
    assert [Arg(w)][..1] == [Arg(w)] && [Arg(w)][..0] == [];
  }

  lemma OrdinaryToks()
    requires LineOk([LS_WC], [LS_WC_LAYOUT], [], false)
    ensures LineToks([LS_WC], [LS_WC_LAYOUT], [], false) == [Tok(Tword, "ls"), Op(Tpipe), Tok(Tword, "wc"), Op(Tnl)]
    ensures Match(LS_WC_ITEMS, 0, LineToks([LS_WC], [LS_WC_LAYOUT], [], false))
  {
    hide LineOk, PiecesToks, MadeOf;
    OneWord("ls", Unjoined(LS_WC.cmds, 0));
    OneWord("wc", Unjoined(LS_WC.cmds, 1));
    var cmds, how := LS_WC.cmds, LS_WC_LAYOUT.how;
    assert CmdToks(LS, how[0]) == [Tok(Tword, "ls")] && CmdToks(WC, how[1]) == [Tok(Tword, "wc")];
    assert PipeToks(cmds, how, 1) == [Tok(Tword, "wc")];
    assert PipeToks(cmds, how, 0) == [Tok(Tword, "ls")] + ([Op(Tpipe)] + PipeToks(cmds, how, 1));
    LineOkHead([LS_WC], [LS_WC_LAYOUT], [], false);
    LastBody(LS_WC, LS_WC_LAYOUT);
  }

  lemma LastBody(p: Pipeline, l: Layout)
    requires LineOk([p], [l], [], false) && l.before == []
    ensures p.cmds != [] && |l.how| == |p.cmds|
    ensures LineToks([p], [l], [], false) == PipeToks(p.cmds, l.how, 0) + [Op(Tnl)]
  {
    hide PipeOk, PipeMadeOf, PipeToks;
    LineOkHead([p], [l], [], false);
    assert [p][1..] == [] && [l][1..] == [];
    var fg := Foreground(p);
    assert LineToks([], [], [], fg) == [] + Body([], [], [], fg) == [Op(Tnl)];
    assert LineToks([p], [l], [], false) == [] + Body([p], [l], [], false);
  }

  lemma PlainItem(w: string)
    requires |w| == 2 && forall c :: c in w ==> WordChar(c) && !Special(c)
    ensures ItemOk(Item(Tword, w, "", PLAIN)) && Text(Item(Tword, w, "", PLAIN)) == w
  {
    hide Special;
    assert w[..2] == w;
    SpellStep(w, [false, false]);
    SpellStep(w[1..], [false]);
    assert w == [w[0]] + ([w[1]] + []);
  }

  lemma PlainItems()
    ensures ItemOk(LS_WC_ITEMS[0]) && Text(LS_WC_ITEMS[0]) == "ls"
    ensures ItemOk(LS_WC_ITEMS[2]) && Text(LS_WC_ITEMS[2]) == "wc"
  {
    hide Text, ItemOk;
    PlainItem("ls");
    PlainItem("wc");
  }

  lemma OrdinaryItems()
    ensures ItemsOk(LS_WC_ITEMS)
  {
    hide Spellable, Text;
    PlainItems();
  }

  lemma OrdinaryText()
    ensures forall i :: 0 <= i < |LS_WC_ITEMS| ==> ItemOk(LS_WC_ITEMS[i])
    ensures LineText(LS_WC_ITEMS) == "ls|wc\n"
  {
    hide WordText, Special;
    var items := LS_WC_ITEMS;
    OrdinaryItems();
    PlainItems();
    assert Text(items[1]) == "|" && Text(items[3]) == "\n";
    assert LineText(items[4..]) == "" && items[3..][1..] == items[4..];
    assert LineText(items[3..]) == "\n" && items[2..][1..] == items[3..];
    assert LineText(items[2..]) == "wc\n" && items[1..][1..] == items[2..];
    assert LineText(items[1..]) == "|wc\n";
  }

  // ---------- every well-formed line can be written ----------

  predicate WordOk(w: string) {
    1 <= |w| <= BUF_SIZE && forall c :: c in w ==> WordChar(c)
  }

  ghost predicate WordsOk(ps: seq<Pipeline>) {
    forall p, c :: p in ps && c in p.cmds ==> CmdWordsOk(c)
  }

  ghost predicate CmdWordsOk(c: Cmd) {
    && (forall w :: w in c.args ==> WordOk(w))
    && (c.infile.Some? ==> WordOk(c.infile.value)) && (c.outfile.Some? ==> WordOk(c.outfile.value))
  }

  ghost predicate WellFormed(ps: seq<Pipeline>) {
    forall p :: p in ps ==> PipeOk(p)
  }

  function Args(ws: seq<string>): seq<Piece> {
    if ws == [] then [] else Args(ws[..|ws| - 1]) + [Arg(ws[|ws| - 1])]
  }

  /** The redirections behind the arguments. */
  function Pieces(c: Cmd): seq<Piece> {
    Args(c.args)
    + (if c.infile.Some? then [Redirect(Tin, c.infile.value)] else [])
    + (if c.outfile.Some? then [Redirect(c.out, c.outfile.value)] else [])
  }

  lemma {:induction false} ArgsAre(ws: seq<string>)
    ensures |Args(ws)| == |ws| && (ws != [] ==> Args(ws)[0] == Arg(ws[0]))
    ensures ArgsOf(Args(ws)) == ws && Inputs(Args(ws)) == [] && Outputs(Args(ws)) == []
    ensures forall p :: p in Args(ws) ==> p.Arg? && p.word in ws
  {
    hide ArgsOf, Inputs, Outputs;
    NoPieces();
    if ws != [] {
      var k := |ws| - 1;
      ArgsAre(ws[..k]);
      PieceAdded(Args(ws[..k]), Arg(ws[k]));
      assert ws == ws[..k] + [ws[k]];
    }
  }

  lemma PieceAdded(ps: seq<Piece>, p: Piece)
    ensures ArgsOf(ps + [p]) == if p.Arg? then ArgsOf(ps) + [p.word] else ArgsOf(ps)
    ensures Inputs(ps + [p]) == if p.Redirect? && p.t == Tin then Inputs(ps) + [p.file] else Inputs(ps)
    ensures Outputs(ps + [p]) == if p.Redirect? && p.t != Tin then Outputs(ps) + [p] else Outputs(ps)
  {
    var qs := ps + [p];
    Snoc(qs, |ps|);
    assert qs[..|ps| + 1] == qs && qs[..|ps|] == ps;
  }

  lemma PiecesFine(c: Cmd, inpipe: Token)
    requires CmdOk(c, inpipe)
    ensures PiecesOk(Pieces(c))
  {
    hide Capacity, ArgsOf, Inputs, Outputs, Args;
    ArgsAre(c.args);
  }

  lemma PiecesMakeIt(c: Cmd, inpipe: Token)
    requires CmdOk(c, inpipe)
    ensures MadeOf(c, Pieces(c))
  {
    hide Capacity, ArgsOf, Inputs, Outputs, PiecesOk, Args;
    ArgsAre(c.args);
    PiecesFine(c, inpipe);
    var a := Args(c.args);
    var b := if c.infile.Some? then a + [Redirect(Tin, c.infile.value)] else a;
    if c.infile.Some? {
      PieceAdded(a, Redirect(Tin, c.infile.value));
    }
    if c.outfile.Some? {
      PieceAdded(b, Redirect(c.out, c.outfile.value));
    }
    assert Pieces(c) == if c.outfile.Some? then b + [Redirect(c.out, c.outfile.value)] else b;
  }

  function PipePieces(cmds: seq<Cmd>): seq<seq<Piece>> {
    seq(|cmds|, k requires 0 <= k < |cmds| => Pieces(Unjoined(cmds, k)))
  }

  /** One semicolon behind each pipe in the foreground that is not the last. */
  function Layouts(ps: seq<Pipeline>, fg: bool): seq<Layout> {
    if ps == [] then []
    else [Layout(if fg then [Tsemi] else [], PipePieces(ps[0].cmds))] + Layouts(ps[1..], Foreground(ps[0]))
  }

  lemma PipePiecesMakeIt(p: Pipeline)
    requires PipeOk(p)
    ensures PipeMadeOf(p, PipePieces(p.cmds))
  {
    hide MadeOf, Pieces, CmdOk;
    forall k | 0 <= k < |p.cmds| ensures MadeOf(Unjoined(p.cmds, k), PipePieces(p.cmds)[k]) {
      PiecesMakeIt(Unjoined(p.cmds, k), Inpipe(p.cmds, k));
    }
  }

  lemma {:induction false} LayoutsOk(ps: seq<Pipeline>, fg: bool)
    requires WellFormed(ps)
    ensures LineOk(ps, Layouts(ps, fg), [], fg)
  {
    hide PipeOk, PipeMadeOf, PipePieces;
    if ps != [] {
      assert ps[0] in ps && forall p :: p in ps[1..] ==> p in ps;
      PipePiecesMakeIt(ps[0]);
      LayoutsOk(ps[1..], Foreground(ps[0]));
      assert Layouts(ps, fg)[1..] == Layouts(ps[1..], Foreground(ps[0]));
    }
  }

  ghost predicate TokOk(t: Tok) {
    t.tok != Terror && t.tok != Tnil && t.tok != Tend && if t.tok == Tword then WordOk(t.word) else t.word == ""
  }

  predicate WordNext(toks: seq<Tok>, i: int) {
    0 <= i < |toks| && toks[i].tok == Tword
  }

  ghost predicate ToksOk(toks: seq<Tok>) {
    && (forall i :: 0 <= i < |toks| ==> TokOk(toks[i]))
    && (forall i :: 0 <= i < |toks| && NeedsMore(toks[i].tok) ==> WordNext(toks, i + 1))
  }

  lemma JoinToks(a: seq<Tok>, b: seq<Tok>)
    requires ToksOk(a) && ToksOk(b)
    ensures ToksOk(a + b)
  {
    hide TokOk;
    var t := a + b;
    forall i | 0 <= i < |t| && NeedsMore(t[i].tok) ensures WordNext(t, i + 1) {
      if i < |a| {
        assert WordNext(a, i + 1);
      } else {
        assert WordNext(b, i - |a| + 1);
      }
    }
  }

  lemma OpOk(t: Token)
    requires t != Terror && t != Tnil && t != Tend && t != Tword
    ensures TokOk(Op(t)) && (!NeedsMore(t) ==> ToksOk([Op(t)]))
  {
  }

  ghost predicate PieceOk(p: Piece) {
    match p
    case Arg(word) => WordOk(word)
    case Redirect(t, file) => (t == Tin || OutToken(t)) && WordOk(file)
  }

  lemma PieceToksOk(p: Piece)
    requires PieceOk(p)
    ensures ToksOk(PieceToks(p))
  {
    hide WordOk;
    if p.Redirect? {
      assert WordNext(PieceToks(p), 1);
    }
  }

  lemma {:induction false} PiecesToksOk(ps: seq<Piece>)
    requires forall p :: p in ps ==> PieceOk(p)
    ensures ToksOk(PiecesToks(ps))
  {
    hide PieceOk, TokOk, PieceToks;
    if ps != [] {
      assert ps[0] in ps;
      PieceToksOk(ps[0]);
      PiecesToksOk(ps[1..]);
      JoinToks(PieceToks(ps[0]), PiecesToks(ps[1..]));
    }
  }

  lemma CmdToksOk(c: Cmd)
    requires CmdWordsOk(c) && (c.outfile.Some? ==> OutToken(c.out)) && c.args != []
    ensures ToksOk(CmdToks(c, Pieces(c)))
  {
    hide WordOk, ToksOk, PiecesToks, ArgsOf, Inputs, Outputs;
    ArgsAre(c.args);
    PiecesToksOk(Pieces(c));
    OpOk(Tamp);
    NoToksOk();
    JoinToks(PiecesToks(Pieces(c)), Background(c));
  }

  lemma NoToksOk()
    ensures ToksOk([])
  {
  }

  lemma {:induction false} PipeToksOk(p: Pipeline, k: nat)
    requires PipeOk(p) && k < |p.cmds| && (forall c :: c in p.cmds ==> CmdWordsOk(c))
    ensures ToksOk(PipeToks(p.cmds, PipePieces(p.cmds), k))
    decreases |p.cmds| - k
  {
    hide PipeOk, ToksOk, CmdToks, CmdWordsOk, CmdOk, MadeOf, Pieces;
    var how := PipePieces(p.cmds);
    PipePiecesMakeIt(p);
    PipeOkAt(p, how, k);
    assert p.cmds[k] in p.cmds;
    CmdToksOk(Unjoined(p.cmds, k)) by { UnjoinedWords(p, k); }
    NoToksOk();
    if k + 1 < |p.cmds| {
      PipeToksOk(p, k + 1);
      FirstWord(p, how, k + 1);
      JointToksOk(p.cmds[k].out, PipeToks(p.cmds, how, k + 1));
    }
    JoinToks(CmdToks(Unjoined(p.cmds, k), how[k]), Rest(p.cmds, how, k));
  }

  lemma UnjoinedWords(p: Pipeline, k: nat)
    requires PipeOk(p) && k < |p.cmds| && CmdWordsOk(p.cmds[k])
    ensures var c := Unjoined(p.cmds, k); CmdWordsOk(c) && (c.outfile.Some? ==> OutToken(c.out)) && c.args != []
  {
    assert CmdOk(Unjoined(p.cmds, k), Inpipe(p.cmds, k));
  }

  lemma FirstWord(p: Pipeline, how: seq<seq<Piece>>, k: nat)
    requires PipeOk(p) && PipeMadeOf(p, how) && k < |p.cmds| == |how|
    ensures PipeToks(p.cmds, how, k) != [] && PipeToks(p.cmds, how, k)[0].tok == Tword
  {
    PipeOkAt(p, how, k);
    assert PiecesToks(how[k]) == [Tok(Tword, how[k][0].word)] + PiecesToks(how[k][1..]);
  }

  lemma JointToksOk(t: Token, toks: seq<Tok>)
    requires PipeToken(t) && ToksOk(toks) && toks != [] && toks[0].tok == Tword
    ensures ToksOk([Op(t)] + toks)
  {
    hide TokOk;
    var t1 := [Op(t)] + toks;
    assert TokOk(Op(t)) by { OpOk(t); }
    forall i | 0 <= i < |t1| && NeedsMore(t1[i].tok) ensures WordNext(t1, i + 1) {
      if i > 0 {
        assert WordNext(toks, i - 1 + 1);
      }
    }
  }

  lemma {:induction false} LineToksOk(ps: seq<Pipeline>, fg: bool)
    requires WellFormed(ps) && WordsOk(ps) && LineOk(ps, Layouts(ps, fg), [], fg)
    ensures ToksOk(LineToks(ps, Layouts(ps, fg), [], fg))
  {
    hide PipeOk, PipeToks, CmdWordsOk, ToksOk, PipePieces, PipeMadeOf;
    var ls := Layouts(ps, fg);
    OpOk(Tsemi);
    OpOk(Tnl);
    NoToksOk();
    assert Ops([]) == [] && Ops([Tsemi]) == [Op(Tsemi)] + Ops([]) == [Op(Tsemi)];
    if ps != [] {
      assert ps[0] in ps && forall p :: p in ps[1..] ==> p in ps;
      LineOkHead(ps, ls, [], fg);
      assert ls[1..] == Layouts(ps[1..], Foreground(ps[0]));
      PipeToksOk(ps[0], 0);
      LineToksOk(ps[1..], Foreground(ps[0]));
      JoinToks(PipeToks(ps[0].cmds, ls[0].how, 0), LineToks(ps[1..], ls[1..], [], Foreground(ps[0])));
    }
    JoinToks(Ops(SepsAt(ls, [])), Body(ps, ls, [], fg));
  }

  /** Every character of every word behind a backslash, and no blanks but those that end words. */
  function Canonical(t: Tok): Item {
    Item(t.tok, t.word, "", Style(seq(|t.word|, _ => true), Gap(' ')))
  }

  function CanonicalItems(toks: seq<Tok>): seq<Item> {
    seq(|toks|, i requires 0 <= i < |toks| => Canonical(toks[i]))
  }

  ghost function CanonicalLine(ps: seq<Pipeline>): seq<Item>
    requires LineOk(ps, Layouts(ps, false), [], false)
  {
    CanonicalItems(LineToks(ps, Layouts(ps, false), [], false))
  }

  /** Every well-formed list of pipes has a spelling, and parsing that spelling gives the list back. */
  lemma CanonicalRoundTrip(ps: seq<Pipeline>)
    requires WellFormed(ps) && WordsOk(ps)
    ensures LineOk(ps, Layouts(ps, false), [], false)
    ensures Spells(CanonicalLine(ps), ps, Layouts(ps, false), [])
    ensures Parse(LineText(CanonicalLine(ps)), 0) == (ps, |LineText(CanonicalLine(ps))|)
  {
    hide LineText, LineOk, WordsOk, ToksOk, LineToks, Parse, PipeOk, ItemOk, Match, At, CanonicalItems, Layouts;
    LayoutsOk(ps, false);
    LineToksOk(ps, false);
    CanonicalSpells(LineToks(ps, Layouts(ps, false), [], false));
    WholeText(LineText(CanonicalLine(ps)));
    RoundTrip(LineText(CanonicalLine(ps)), 0, CanonicalLine(ps), ps, Layouts(ps, false), []);
  }

  lemma WholeText(text: string)
    ensures At(text, 0, text)
  {
    assert text[0..0 + |text|] == text;
  }

  lemma CanonicalSpells(toks: seq<Tok>)
    requires ToksOk(toks)
    ensures var items := CanonicalItems(toks); ItemsOk(items) && Match(items, 0, toks) && |items| == |toks|
  {
    hide TokOk, WordOk;
    var items := CanonicalItems(toks);
    forall i | 0 <= i < |items| ensures ItemOk(items[i]) {
      CanonicalOk(toks[i]);
    }
    forall i | 0 <= i < |items| && NeedsMore(items[i].tok) ensures ApartAt(items, i + 1, items[i].tok) {
      assert WordNext(toks, i + 1);
    }
  }

  lemma CanonicalOk(t: Tok)
    requires TokOk(t)
    ensures ItemOk(Canonical(t))
  {
  }
}

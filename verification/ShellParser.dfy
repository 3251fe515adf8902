/**
 The shell's parser: a stream of characters that are read once and can be put back, one
 look-ahead token, and a word buffer of fixed size. The methods are proved against
 ShellGrammar; the buffer and the arrays of arguments are never overrun.
 */
module ShellParser {
  import opened Common
  import opened ShellGrammar

  lemma {:induction false} CStrCut(w: string, n: nat)
    requires n < |w| && w[n] == EOS
    ensures CStr(w) == CStr(w[..n])
  {
    if n > 0 {
      CStrCut(w[1..], n - 1);
      assert w[..n][1..] == w[1..][..n - 1];
    }
  }

  /** The strings that the first entries of an array of arguments point to. */
  function Values(a: seq<Option<string>>): (r: seq<string>)
    requires forall i :: 0 <= i < |a| ==> a[i].Some?
    ensures |r| == |a|
  {
    if a == [] then [] else Values(a[..|a| - 1]) + [a[|a| - 1].value]
  }

  class Parser {
    const input: string
    var pos: nat
    var lookahead: Token
    const word: array<char>

    ghost predicate Valid()
      reads this`pos
    {
      word.Length == BUF_SIZE + 1 && pos <= |input|
    }

    /** The look-ahead is that of `st`; the buffer holds its word. */
    ghost predicate At(st: PState)
      reads this`pos, this`lookahead, word
    {
      pos == st.pos && lookahead == st.la && (lookahead == Tword ==> CStr(word[..]) == st.word)
    }

    constructor (s: string)
      ensures Valid() && input == s && pos == 0 && fresh(word)
    {
      input, pos, lookahead := s, 0, Terror;
      word := new char[BUF_SIZE + 1](_ => EOS);
    }

    /** `getchar`; None is a negative character. */
    method GetChar() returns (c: Option<char>)
      requires Valid()
      modifies this`pos
      ensures Valid() && pos == After(input, old(pos))
      ensures c == if Readable(input, old(pos)) then Some(input[old(pos)]) else None
    {
      if pos == |input| {
        return None;
      }
      pos := pos + 1;
      return if input[pos - 1] as int < 128 then Some(input[pos - 1]) else None;
    }

    /** `ungetc` of the character that was read last */
    method UngetChar()
      requires Valid() && pos > 0
      modifies this`pos
      ensures Valid() && pos == old(pos) - 1
    {
      pos := pos - 1;
    }

    method DiscardLine()
      requires Valid()
      modifies this`pos
      ensures Valid() && pos == SkipLine(input, old(pos))
    {
      while true
        invariant Valid() && SkipLine(input, pos) == SkipLine(input, old(pos))
        decreases |input| - pos
      {
        var c := GetChar();
        if c == None || c == Some(EOS) || c == Some('\n') {
          break;
        }
      }
    }

    method FinishWord(p: nat)
      requires Valid() && p <= BUF_SIZE
      modifies word
      ensures CStr(word[..]) == CStr(old(word[..p]))
    {
      word[p] := EOS;
      CStrCut(word[..], p);
      assert word[..][..p] == old(word[..p]);
    }

    /** The part of `nextToken` that reads up to the closing quote, with `p` characters in the buffer. */
    method ReadString(q: char, start: nat) returns (t: Token)
      requires Valid() && start <= BUF_SIZE
      modifies this`pos, word
      ensures Valid()
      ensures var l := ScanString(input, old(pos), q, old(word[..start]));
              t == l.tok && pos == l.pos && (t == Tword ==> CStr(word[..]) == l.word)
    {
      var p: nat := start;
      while true
        invariant Valid() && p <= BUF_SIZE
        invariant ScanString(input, pos, q, word[..p]) == ScanString(input, old(pos), q, old(word[..start]))
        decreases |input| - pos
      {
        var c := GetChar();
        if c == Some(q) {
          break;
        }
        if c == None || c == Some('\n') {
          return Terror;
        }
        ghost var acc := word[..p];
        word[p] := c.value;
        assert word[..p + 1] == acc + [c.value];
        p := p + 1;
        if p > BUF_SIZE {
          DiscardLine();
          return Terror;
        }
      }
      FinishWord(p);
      return Tword;
    }

    /** The part of `nextToken` that reads a word; its first character has been read. */
    method ReadWord(first: char) returns (t: Token)
      requires Valid()
      modifies this`pos, word
      ensures Valid()
      ensures var l := ScanWord(input, old(pos), first, "");
              t == l.tok && pos == l.pos && (t == Tword ==> CStr(word[..]) == l.word)
    {
      var p: nat, c := 0, Some(first);
      assert word[..0] == "";
      while true
        invariant Valid() && p <= BUF_SIZE && c.Some?
        invariant ScanWord(input, pos, c.value, word[..p]) == ScanWord(input, old(pos), first, "")
        decreases |input| - pos
      {
        if c == Some('\\') {
          c := GetChar();
          if c == None {
            return Terror;
          }
        }
        ghost var acc := word[..p];
        word[p] := c.value;
        assert word[..p + 1] == acc + [c.value];
        p := p + 1;
        if p > BUF_SIZE {
          DiscardLine();
          return Terror;
        }
        c := GetChar();
        if c == None {
          return Terror;
        }
        if Blank(c.value) {
          FinishWord(p);
          return Tword;
        }
        if Delimiter(c.value) {
          FinishWord(p);
          UngetChar();
          return Tword;
        }
        if Quote(c.value) {
          t := ReadString(c.value, p);
          return;
        }
      }
    }

    /** `nextToken` */
    method NextToken() returns (t: Token)
      requires Valid()
      modifies this`pos, word
      ensures Valid()
      ensures var l := Lexed(input, old(pos));
              t == l.tok && pos == l.pos && (t == Tword ==> CStr(word[..]) == l.word)
      decreases |input| - pos
    {
      hide ScanString, ScanWord;
      word[0] := EOS;
      var c := GetChar();
      if c == None {
        return Tend;
      }
      if Blank(c.value) {
        t := NextToken();
        return;
      }
      if Quote(c.value) {
        t := ReadString(c.value, 0);
        assert old(word[..0]) == "";
        return;
      }
      if !Delimiter(c.value) {
        t := ReadWord(c.value);
        return;
      }
      t := ReadOperator(c.value);
    }

    method ReadOperator(c: char) returns (t: Token)
      requires Valid() && pos > 0 && Readable(input, pos - 1) && input[pos - 1] == c && Delimiter(c)
      modifies this`pos
      ensures Valid() && var l := Lexed(input, old(pos) - 1); t == l.tok && pos == l.pos && t != Tword
    {
      if c == '\n' {
        return Tnl;
      }
      if c == '&' {
        return Tamp;
      }
      if c == ';' {
        return Tsemi;
      }
      if c == '<' {
        return Tin;
      }
      var d := GetChar();
      if d == None {
        return Terror;
      }
      if c == '|' {
        if d == Some('&') {
          return TpipeErr;
        }
        UngetChar();
        return Tpipe;
      }
      if d == Some('&') {
        return ToutErr;
      }
      if d != Some('>') {
        UngetChar();
        return Tout;
      }
      d := GetChar();
      if d == None {
        return Terror;
      }
      if d == Some('&') {
        return TappErr;
      }
      UngetChar();
      return Tapp;
    }

    /** The macro `Next` */
    method Shift(ghost st: PState) returns (ghost st': PState)
      requires Valid() && At(st)
      modifies this`pos, this`lookahead, word
      ensures Valid() && st' == Next(input, st) && At(st')
    {
      st' := Next(input, st);
      lookahead := NextToken();
    }

    /** The rest of the line is skipped after an error. */
    method SkipTokens(ghost st: PState) returns (ghost st': PState)
      requires Valid() && At(st)
      modifies this`pos, this`lookahead, word
      ensures Valid() && st' == SkipToEnd(input, st) && At(st')
    {
      st' := st;
      while !EndOfInput(lookahead)
        invariant Valid() && At(st') && SkipToEnd(input, st') == SkipToEnd(input, st)
        decreases Left(input, st')
      {
        st' := Shift(st');
      }
    }

    /** `mkCmd` */
    method MkCmd(inpipe: Token, ghost st: PState) returns (m: Made, ghost st': PState)
      requires Valid() && At(st)
      modifies this`pos, this`lookahead, word
      ensures Valid() && At(st') && (m, st') == ShellGrammar.MkCmd(input, st, inpipe)
    {
      hide CmdLoop, CStr, Next;
      st' := st;
      while CmdToken(lookahead)
        invariant Valid() && At(st') && SkipCmdTokens(input, st') == SkipCmdTokens(input, st)
        decreases Left(input, st')
      {
        st' := Shift(st');
      }
      if lookahead != Tword {
        m := if lookahead == Tend then End else if lookahead == Tnl || lookahead == Terror then Empty else Null;
        return;
      }
      m, st' := ReadCmd(inpipe, st');
    }

    /** The part of `mkCmd` behind the first word: `newCmd` and the loop over words and redirections. */
    method ReadCmd(inpipe: Token, ghost st: PState) returns (m: Made, ghost st': PState)
      requires Valid() && At(st) && lookahead == Tword
      modifies this`pos, this`lookahead, word
      ensures Valid() && At(st') && (m, st') == CmdLoop(input, Next(input, st), NewCmd(st.word, inpipe))
    {
      hide CStr, Next, CmdLoop, Values;
      var args, nargs := new Option<string>[4](_ => None), 1;
      args[0] := Some(CStr(word[..]));
      var inn, out, infile, outfile := inpipe, Tnil, None, None;
      OneValue(args[..1]);
      ghost var c := NewCmd(st.word, inpipe);
      st' := Shift(st);
      ghost var st1 := st';
      while InCmd(lookahead)
        invariant Valid() && At(st') && fresh(args)
                  && CmdLoop(input, st', c) == CmdLoop(input, st1, NewCmd(st.word, inpipe))
        invariant 1 <= nargs && nargs + 1 <= args.Length && forall i :: 0 <= i < nargs ==> args[i].Some?
        invariant c == Cmd(Tsemi, inn, out, infile, outfile, Values(args[..nargs]), args.Length)
        decreases Left(input, st')
      {
        LoopStep(input, st', c);
        if lookahead == Tword {
          var w := CStr(word[..]);
          args := StoreArg(args, nargs, w);
          c, nargs := AddArg(c, w), nargs + 1;
          st' := Shift(st');
          continue;
        }
        var t := lookahead;
        if (if t == Tin then inn else out) != Tnil {
          st' := Shift(st');
          st' := SkipTokens(st');
          return Null, st';
        }
        st' := Shift(st');
        if lookahead != Tword {
          st' := Shift(st');
          st' := SkipTokens(st');
          return Null, st';
        }
        var w := CStr(word[..]);
        if t == Tin {
          inn, infile := Tin, Some(w);
          c := c.(inn := Tin, infile := Some(w));
        } else {
          out, outfile := t, Some(w);
          c := c.(out := t, outfile := Some(w));
        }
        st' := Shift(st');
      }
      LoopStep(input, st', c);
      if lookahead == Terror {
        return Null, st';
      }
      var exec := Tsemi;
      if lookahead == Tsemi {
        st' := Shift(st');
      } else if lookahead == Tamp {
        exec := Tamp;
        st' := Shift(st');
      }
      m := Made(Cmd(exec, inn, out, infile, outfile, Values(args[..nargs]), args.Length));
      args[nargs] := None;
    }

    /** `mkPipe`; the list is empty for NULL. */
    method MkPipe(ghost st: PState) returns (ps: seq<Pipeline>, ghost st': PState)
      requires Valid() && At(st)
      modifies this`pos, this`lookahead, word
      ensures Valid() && At(st') && (ps, st') == ShellGrammar.MkPipe(input, st)
      decreases Left(input, st), 1
    {
      hide CStr, Next, CmdLoop, PipeLoop, ShellGrammar.MkCmd, MkPipes;
      var m, p;
      m, st' := MkCmd(Tnil, st);
      if m.Null? || m.Empty? {
        return [], st';
      }
      NoJoint(input, st', Pout, [CmdOf(m)]);
      p, st' := ReadPipe(CmdOf(m), st');
      if p.Failed? {
        return [], st';
      }
      ps := [];
      ghost var st2 := st';
      assert !EndOfInput(st2.la) ==> Left(input, st2) < Left(input, st);
      while !EndOfInput(lookahead)
        invariant Valid() && At(st') && Left(input, st') <= Left(input, st2)
        invariant MkPipes(input, st', ps) == MkPipes(input, st2, [])
        invariant EndOfInput(st2.la) ==> st' == st2 && ps == []
        decreases Left(input, st')
      {
        MorePipes(input, st', ps);
        ps, st' := MkPipe(st');
        if ps == [] {
          assert [p.p] + ps == [p.p];
          return [p.p], st';
        }
      }
      LastPipes(input, st', ps);
      assert ps == [] ==> [p.p] + ps == [p.p];
      ps := [p.p] + ps;
    }

    /** The loop of `mkPipe` over the commands of one pipe. */
    method ReadPipe(head: Cmd, ghost st: PState) returns (p: Piped, ghost st': PState)
      requires Valid() && At(st)
      modifies this`pos, this`lookahead, word
      ensures Valid() && At(st') && (p, st') == PipeLoop(input, st, Pout, [head])
    {
      hide CStr, Next, CmdLoop, ShellGrammar.MkCmd;
      var ptype, cmds := Pout, [head];
      st' := st;
      while PipeToken(lookahead)
        invariant Valid() && At(st') && cmds != []
                  && PipeLoop(input, st', ptype, cmds) == PipeLoop(input, st, Pout, [head])
        decreases Left(input, st')
      {
        ptype := if lookahead == TpipeErr then PoutErr else Pout;
        if cmds[|cmds| - 1].out != Tnil {
          st' := Shift(st');
          st' := SkipTokens(st');
          return Failed, st';
        }
        cmds := SetLastOut(cmds, Joint(ptype));
        st' := Shift(st');
        var m;
        m, st' := MkCmd(Joint(ptype), st');
        if m.Null? || m.Empty? {
          st' := SkipTokens(st');
          return Failed, st';
        }
        cmds := cmds + [CmdOf(m)];
      }
      p := Done(Pipeline(ptype, cmds));
    }

    /** `parse` */
    method Parse() returns (ps: seq<Pipeline>)
      requires Valid()
      modifies this`pos, this`lookahead, word
      ensures Valid() && (ps, pos) == ShellGrammar.Parse(input, old(pos))
    {
      hide CStr, Lexed, ShellGrammar.MkPipe;
      lookahead := NextToken();
      ghost var l := Lexed(input, old(pos));
      ghost var st;
      ps, st := MkPipe(PState(l.pos, l.tok, l.word));
    }
  }

  /** The array doubles when another argument and the NULL would not fit. */
  method Room(args: array<Option<string>>, nargs: nat) returns (args': array<Option<string>>)
    requires 1 <= nargs && nargs + 1 <= args.Length
    ensures args' == args || fresh(args')
    ensures args'.Length == if nargs + 2 > args.Length then args.Length + args.Length else args.Length
    ensures args'[..nargs] == args[..nargs]
  {
    args' := args;
    if nargs + 2 > args.Length {
      args' := new Option<string>[args.Length + args.Length](_ => None);
      forall i | 0 <= i < nargs {
        args'[i] := args[i];
      }
    }
  }

  /** The argument is stored behind the others. */
  method StoreArg(args: array<Option<string>>, nargs: nat, w: string) returns (args': array<Option<string>>)
    requires 1 <= nargs && nargs + 1 <= args.Length && forall i :: 0 <= i < nargs ==> args[i].Some?
    modifies args
    ensures args' == args || fresh(args')
    ensures args'.Length == if nargs + 2 > args.Length then args.Length + args.Length else args.Length
    ensures nargs + 2 <= args'.Length && forall i :: 0 <= i < nargs + 1 ==> args'[i].Some?
    ensures Values(args'[..nargs + 1]) == Values(old(args[..nargs])) + [w]
  {
    args' := Room(args, nargs);
    args'[nargs] := Some(w);
    assert args'[..nargs + 1][..nargs] == old(args[..nargs]);
    OneMoreValue(args'[..nargs + 1]);
  }

  lemma OneValue(a: seq<Option<string>>)
    requires |a| == 1 && a[0].Some?
    ensures Values(a) == [a[0].value]
  {
  }

  lemma OneMoreValue(a: seq<Option<string>>)
    requires a != [] && forall i :: 0 <= i < |a| ==> a[i].Some?
    ensures Values(a) == Values(a[..|a| - 1]) + [a[|a| - 1].value]
  {
  }

  /** One turn of the loop of `mkCmd`. */
  lemma LoopStep(s: string, st: PState, c: Cmd)
    requires st.pos <= |s|
    ensures st.la == Tword ==> CmdLoop(s, st, c) == CmdLoop(s, Next(s, st), AddArg(c, st.word))
    ensures InCmd(st.la) && st.la != Tword ==>
              var st1 := Next(s, st);
              CmdLoop(s, st, c) == if (if st.la == Tin then c.inn else c.out) != Tnil then (Null, SkipToEnd(s, st1))
                                   else if st1.la != Tword then (Null, SkipToEnd(s, Next(s, st1)))
                                   else CmdLoop(s, Next(s, st1),
                                          if st.la == Tin then c.(inn := Tin, infile := Some(st1.word))
                                                                 else c.(out := st.la, outfile := Some(st1.word)))
    ensures !InCmd(st.la) ==>
              CmdLoop(s, st, c) == if st.la == Terror then (Null, st)
                                   else if st.la == Tsemi then (Made(c), Next(s, st))
                                   else if st.la == Tamp then (Made(c.(exec := Tamp)), Next(s, st))
                                   else (Made(c), st)
  {
  }

  lemma MorePipes(s: string, st: PState, ps: seq<Pipeline>)
    requires st.pos <= |s| && !EndOfInput(st.la)
    ensures var (ps1, st1) := ShellGrammar.MkPipe(s, st);
            MkPipes(s, st, ps) == if ps1 == [] then ([], st1) else MkPipes(s, st1, ps1)
  {
    hide ShellGrammar.MkPipe;
  }

  lemma NoJoint(s: string, st: PState, ptype: Ptype, cmds: seq<Cmd>)
    requires st.pos <= |s| && cmds != []
    ensures st.la == Tend ==> PipeLoop(s, st, ptype, cmds) == (Done(Pipeline(ptype, cmds)), st)
  {
  }

  lemma LastPipes(s: string, st: PState, ps: seq<Pipeline>)
    requires st.pos <= |s| && EndOfInput(st.la)
    ensures MkPipes(s, st, ps) == (ps, st)
  {
  }
}

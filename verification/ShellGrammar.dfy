/**
 The grammar of the shell's parser, on values: what its tokenizer reads from a position of
 the input, and what the parser makes of the tokens, errors included.
 */
module ShellGrammar {
  import opened Common

  datatype Token =
    | Terror | Tword | Tamp | Tpipe | Tsemi | Tin | Tout | Tapp | TpipeErr | ToutErr | TappErr | Tnl | Tnil | Tend

  const BUF_SIZE: nat := 63

  const EOS: char := '\0'

  // ---------- tokens ----------

  /** A token with its word, and the position behind it. */
  datatype Lex = Lex(tok: Token, word: string, pos: nat)

  /** `getchar` stores into a signed `char`: end of input and bytes above 127 are negative. */
  predicate Readable(s: string, pos: nat) {
    pos < |s| && s[pos] as int < 128
  }

  function After(s: string, pos: nat): nat {
    if pos < |s| then pos + 1 else pos
  }

  predicate Blank(c: char) {
    c == ' ' || c == '\t'
  }

  predicate Quote(c: char) {
    c == '\'' || c == '"'
  }

  /** Ends a word, and is read again as the next token. */
  predicate Delimiter(c: char) {
    c == '\n' || c == '&' || c == ';' || c == '<' || c == '|' || c == '>'
  }

  /** The string that C sees in a buffer. */
  function CStr(w: string): string {
    if w == [] || w[0] == EOS then [] else [w[0]] + CStr(w[1..])
  }

  /** The rest of the line is thrown away. */
  function SkipLine(s: string, pos: nat): (p: nat)
    ensures pos <= p && (pos <= |s| ==> p <= |s|)
    decreases |s| - pos
  {
    if !Readable(s, pos) then After(s, pos)
    else if s[pos] == EOS || s[pos] == '\n' then pos + 1
    else SkipLine(s, pos + 1)
  }

  /** Inside quotes `q`, with `acc` in the buffer. */
  function ScanString(s: string, pos: nat, q: char, acc: string): (l: Lex)
    ensures pos <= l.pos && (pos <= |s| ==> l.pos <= |s|) && (l.tok == Tword || l.tok == Terror)
    decreases |s| - pos
  {
    if !Readable(s, pos) then Lex(Terror, "", After(s, pos))
    else if s[pos] == q then Lex(Tword, CStr(acc), pos + 1)
    else if s[pos] == '\n' then Lex(Terror, "", pos + 1)
    else if |acc| + 1 > BUF_SIZE then Lex(Terror, "", SkipLine(s, pos + 1))
    else ScanString(s, pos + 1, q, acc + [s[pos]])
  }

  /** In a word: `c` has been read from before `pos`, and `acc` is in the buffer. */
  function ScanWord(s: string, pos: nat, c: char, acc: string): (l: Lex)
    ensures pos <= l.pos && (pos <= |s| ==> l.pos <= |s|) && (l.tok == Tword || l.tok == Terror)
    decreases |s| - pos
  {
    if c == '\\' then
      if !Readable(s, pos) then Lex(Terror, "", After(s, pos)) else ScanMore(s, pos + 1, acc + [s[pos]])
    else ScanMore(s, pos, acc + [c])
  }

  /** ... after a character has been stored. */
  function ScanMore(s: string, pos: nat, acc: string): (l: Lex)
    ensures pos <= l.pos && (pos <= |s| ==> l.pos <= |s|) && (l.tok == Tword || l.tok == Terror)
    decreases |s| - pos, 0
  {
    if |acc| > BUF_SIZE then Lex(Terror, "", SkipLine(s, pos))
    else if !Readable(s, pos) then Lex(Terror, "", After(s, pos))
    else if Blank(s[pos]) then Lex(Tword, CStr(acc), pos + 1)
    else if Delimiter(s[pos]) then Lex(Tword, CStr(acc), pos)
    else if Quote(s[pos]) then ScanString(s, pos + 1, s[pos], acc)
    else ScanWord(s, pos + 1, s[pos], acc)
  }

  /** `nextToken` */
  function Lexed(s: string, pos: nat): (l: Lex)
    ensures pos <= l.pos && (pos <= |s| ==> l.pos <= |s|)
    ensures l.pos == pos ==> l.tok == Tend
    ensures l.tok != Tnil
    decreases |s| - pos
  {
    if !Readable(s, pos) then Lex(Tend, "", After(s, pos))
    else
      var c := s[pos];
      if Blank(c) then Lexed(s, pos + 1)
      else if c == '\n' then Lex(Tnl, "", pos + 1)
      else if c == '&' then Lex(Tamp, "", pos + 1)
      else if c == ';' then Lex(Tsemi, "", pos + 1)
      else if c == '<' then Lex(Tin, "", pos + 1)
      else if c == '|' then
        if !Readable(s, pos + 1) then Lex(Terror, "", After(s, pos + 1))
        else if s[pos + 1] == '&' then Lex(TpipeErr, "", pos + 2)
        else Lex(Tpipe, "", pos + 1)
      else if c == '>' then
        if !Readable(s, pos + 1) then Lex(Terror, "", After(s, pos + 1))
        else if s[pos + 1] == '>' then
          if !Readable(s, pos + 2) then Lex(Terror, "", After(s, pos + 2))
          else if s[pos + 2] == '&' then Lex(TappErr, "", pos + 3)
          else Lex(Tapp, "", pos + 2)
        else if s[pos + 1] == '&' then Lex(ToutErr, "", pos + 2)
        else Lex(Tout, "", pos + 1)
      else if Quote(c) then ScanString(s, pos + 1, c, "")
      else ScanWord(s, pos + 1, c, "")
  }

  // ---------- commands and pipelines ----------

  /** `struct cmd_t`; `maxargs` is the size of the array that `args` and the NULL behind them are kept in. */
  datatype Cmd = Cmd(exec: Token, inn: Token, out: Token, infile: Option<string>, outfile: Option<string>,
                     args: seq<string>, maxargs: nat)

  datatype Ptype = Pout | PoutErr

  datatype Pipeline = Pipeline(ptype: Ptype, cmds: seq<Cmd>)

  /** What `mkCmd` returns: NULL, the address of `Empty` or of `End`, or a new command. */
  datatype Made = Null | Empty | End | Made(c: Cmd)

  const END: Cmd := Cmd(Tnil, Tnil, Tnil, Some(""), Some(""), ["end"], 1)

  /** The look-ahead token, its word, and what is read next. */
  datatype PState = PState(pos: nat, la: Token, word: string)

  predicate InCmd(t: Token) {
    t == Tword || t == Tin || OutToken(t)
  }

  predicate OutToken(t: Token) {
    t == Tout || t == Tapp || t == ToutErr || t == TappErr
  }

  predicate PipeToken(t: Token) {
    t == Tpipe || t == TpipeErr
  }

  predicate CmdToken(t: Token) {
    t == Tsemi || t == Tamp
  }

  predicate EndOfInput(t: Token) {
    t == Tend || t == Tnl || t == Terror
  }

  /** What is left to read; `Tend` is read once. */
  function Left(s: string, st: PState): nat {
    (if st.pos <= |s| then |s| - st.pos else 0) + if st.la == Tend then 0 else 1
  }

  function Next(s: string, st: PState): (r: PState)
    requires st.pos <= |s|
    ensures r.pos <= |s| && st.pos <= r.pos && (st.la != Tend ==> Left(s, r) < Left(s, st))
  {
    var l := Lexed(s, st.pos);
    PState(l.pos, l.tok, l.word)
  }

  function SkipCmdTokens(s: string, st: PState): (r: PState)
    requires st.pos <= |s|
    ensures r.pos <= |s| && Left(s, r) <= Left(s, st) && !CmdToken(r.la) && (r == st || Left(s, r) < Left(s, st))
    decreases Left(s, st)
  {
    if CmdToken(st.la) then SkipCmdTokens(s, Next(s, st)) else st
  }

  function SkipToEnd(s: string, st: PState): (r: PState)
    requires st.pos <= |s|
    ensures r.pos <= |s| && Left(s, r) <= Left(s, st) && EndOfInput(r.la)
    decreases Left(s, st)
  {
    if EndOfInput(st.la) then st else SkipToEnd(s, Next(s, st))
  }

  function NewCmd(word: string, inpipe: Token): Cmd {
    Cmd(Tsemi, inpipe, Tnil, None, None, [word], 4)
  }

  /** The array is doubled when the new argument and the NULL would not fit. */
  function AddArg(c: Cmd, word: string): Cmd {
    c.(args := c.args + [word], maxargs := if |c.args| + 2 > c.maxargs then c.maxargs + c.maxargs else c.maxargs)
  }

  /** `mkCmd` */
  function MkCmd(s: string, st: PState, inpipe: Token): (r: (Made, PState))
    requires st.pos <= |s|
    ensures r.1.pos <= |s| && Left(s, r.1) <= Left(s, st)
    ensures r.0.Made? ==> Left(s, r.1) < Left(s, st)
    ensures r.0.End? ==> r.1.la == Tend
  {
    var st1 := SkipCmdTokens(s, st);
    if st1.la != Tword then
      (if st1.la == Tend then End else if st1.la == Tnl || st1.la == Terror then Empty else Null, st1)
    else CmdLoop(s, Next(s, st1), NewCmd(st1.word, inpipe))
  }

  function CmdLoop(s: string, st: PState, c: Cmd): (r: (Made, PState))
    requires st.pos <= |s|
    ensures r.1.pos <= |s| && Left(s, r.1) <= Left(s, st) && !r.0.End?
    decreases Left(s, st)
  {
    if st.la == Tin then
      if c.inn != Tnil then (Null, SkipToEnd(s, Next(s, st)))
      else
        var st1 := Next(s, st);
        if st1.la != Tword then (Null, SkipToEnd(s, Next(s, st1)))
        else CmdLoop(s, Next(s, st1), c.(inn := Tin, infile := Some(st1.word)))
    else if OutToken(st.la) then
      if c.out != Tnil then (Null, SkipToEnd(s, Next(s, st)))
      else
        var st1 := Next(s, st);
        if st1.la != Tword then (Null, SkipToEnd(s, Next(s, st1)))
        else CmdLoop(s, Next(s, st1), c.(out := st.la, outfile := Some(st1.word)))
    else if st.la == Tword then CmdLoop(s, Next(s, st), AddArg(c, st.word))
    else if st.la == Terror then (Null, st)
    else if st.la == Tsemi then (Made(c), Next(s, st))
    else if st.la == Tamp then (Made(c.(exec := Tamp)), Next(s, st))
    else (Made(c), st)
  }

  /** What becomes of a pipe that `mkPipe` has begun. */
  datatype Piped = Failed | Done(p: Pipeline)

  function Joint(ptype: Ptype): Token {
    if ptype == Pout then Tpipe else TpipeErr
  }

  function SetLastOut(cmds: seq<Cmd>, out: Token): seq<Cmd>
    requires cmds != []
  {
    cmds[|cmds| - 1 := cmds[|cmds| - 1].(out := out)]
  }

  function CmdOf(m: Made): Cmd
    requires m.Made? || m.End?
  {
    if m.Made? then m.c else END
  }

  /** The loop of `mkPipe` over the commands of one pipe. */
  function PipeLoop(s: string, st: PState, ptype: Ptype, cmds: seq<Cmd>): (r: (Piped, PState))
    requires st.pos <= |s| && cmds != []
    ensures r.1.pos <= |s| && Left(s, r.1) <= Left(s, st) && (r.0.Failed? ==> EndOfInput(r.1.la))
    decreases Left(s, st)
  {
    if !PipeToken(st.la) then (Done(Pipeline(ptype, cmds)), st)
    else if cmds[|cmds| - 1].out != Tnil then (Failed, SkipToEnd(s, Next(s, st)))
    else
      var ptype1 := if st.la == TpipeErr then PoutErr else Pout;
      var (m, st1) := MkCmd(s, Next(s, st), Joint(ptype1));
      if m.Null? || m.Empty? then (Failed, SkipToEnd(s, st1))
      else PipeLoop(s, st1, ptype1, SetLastOut(cmds, Joint(ptype1)) + [CmdOf(m)])
  }

  /** `mkPipe`: the list of pipes from here on, or NULL. */
  function MkPipe(s: string, st: PState): (r: (seq<Pipeline>, PState))
    requires st.pos <= |s|
    ensures r.1.pos <= |s| && Left(s, r.1) <= Left(s, st)
    ensures r.0 != [] && st.la != Tend ==> Left(s, r.1) < Left(s, st)
    decreases Left(s, st), 1
  {
    var (m, st1) := MkCmd(s, st, Tnil);
    if m.Null? || m.Empty? then ([], st1)
    else
      var (p, st2) := PipeLoop(s, st1, Pout, [CmdOf(m)]);
      if p.Failed? then ([], st2)
      else if EndOfInput(st2.la) then ([p.p], st2)
      else
        assert Left(s, st2) < Left(s, st) || st.la == Tend;
        var (ps, st3) := MkPipes(s, st2, []);
        ([p.p] + ps, st3)
  }

  /** The last loop of `mkPipe`: a list that is read later replaces one that was read before. */
  function MkPipes(s: string, st: PState, ps: seq<Pipeline>): (r: (seq<Pipeline>, PState))
    requires st.pos <= |s|
    ensures r.1.pos <= |s| && Left(s, r.1) <= Left(s, st)
    decreases Left(s, st), 2
  {
    if EndOfInput(st.la) then (ps, st)
    else
      var (ps1, st1) := MkPipe(s, st);
      if ps1 == [] then ([], st1) else MkPipes(s, st1, ps1)
  }

  /** `parse`, from a position of the input. */
  function Parse(s: string, pos: nat): (r: (seq<Pipeline>, nat))
    requires pos <= |s|
    ensures r.1 <= |s|
  {
    var l := Lexed(s, pos);
    var (ps, st) := MkPipe(s, PState(l.pos, l.tok, l.word));
    (ps, st.pos)
  }
}

/**
 Option groups, the argument of `-o`: options joined by commas, with a backslash before
 each comma and backslash of an option. Groups are built by appending to a C string, and
 taken apart in place.
 */
module OptionGroup {
  const NUL: char := '\0'

  /** The string that C sees in a buffer. */
  function CStr(a: string): string {
    if a == [] || a[0] == NUL then [] else [a[0]] + CStr(a[1..])
  }

  // ---------- building ----------

  predicate Special(c: char) {
    c == ',' || c == '\\'
  }

  function Escape(opt: string): string {
    if opt == [] then [] else (if Special(opt[0]) then ['\\', opt[0]] else [opt[0]]) + Escape(opt[1..])
  }

  /** The group after `add_opt_common`; an empty group gets no comma. */
  function AddOpt(group: string, opt: string, esc: bool): string {
    (if group == [] then [] else group + ",") + if esc then Escape(opt) else opt
  }

  function Build(opts: seq<string>): string {
    if opts == [] then [] else AddOpt(Build(opts[..|opts| - 1]), opts[|opts| - 1], true)
  }

  // ---------- taking apart ----------

  /** Three octal digits that make a byte */
  predicate Octal(s: string) {
    |s| >= 3 && '0' <= s[0] <= '3' && '0' <= s[1] <= '7' && '0' <= s[2] <= '7'
  }

  function OctalChar(s: string): char
    requires Octal(s)
  {
    ((s[0] - '0') as int * 64 + (s[1] - '0') as int * 8 + (s[2] - '0') as int) as char
  }

  /** What `process_gopt` is called with, from here on, when `acc` has been collected. */
  function Options(s: string, acc: string): seq<string> {
    if s == [] then [CStr(acc)]
    else if s[0] == ',' then [CStr(acc)] + Options(s[1..], [])
    else if s[0] == '\\' && |s| > 1 then
      if Octal(s[1..]) then Options(s[4..], acc + [OctalChar(s[1..])]) else Options(s[2..], acc + [s[1]])
    else Options(s[1..], acc + [s[0]])
  }

  /** The options that are handed over: nothing after one that is refused. */
  function Handed(opts: seq<string>, accepts: string -> bool): seq<string> {
    if opts == [] || !accepts(opts[0]) then opts[..Min(|opts|, 1)] else [opts[0]] + Handed(opts[1..], accepts)
  }

  function Min(a: nat, b: nat): nat {
    if a < b then a else b
  }

  // ---------- the round trip ----------

  /** An escaped option is collected as it was, whatever follows; octal digits are never decoded. */
  lemma {:induction false} EscapedIsRead(opt: string, more: string, acc: string)
    ensures Options(Escape(opt) + more, acc) == Options(more, acc + opt)
  {
    if opt == [] {
      assert Escape(opt) + more == more && acc + opt == acc;
    } else {
      var s, rest := Escape(opt) + more, Escape(opt[1..]) + more;
      assert s == (if Special(opt[0]) then ['\\', opt[0]] else [opt[0]]) + rest;
      if Special(opt[0]) {
        assert s[1] == opt[0] && s[2..] == rest && !Octal(s[1..]);
      } else {
        assert s[0] == opt[0] && s[1..] == rest;
      }
      EscapedIsRead(opt[1..], more, acc + [opt[0]]);
      assert acc + [opt[0]] + opt[1..] == acc + opt;
    }
  }

  lemma {:induction false} CStrWhole(s: string)
    requires NUL !in s
    ensures CStr(s) == s
  {
    if s != [] {
      assert s[0] in s;
      CStrWhole(s[1..]);
    }
  }

  /** How a character is written: bare, behind a backslash, or by its octal code. */
  datatype How = Bare | Marked | Coded

  /** A character of the first four digits is not marked, for it could begin a code. */
  predicate CanBe(c: char, how: How) {
    match how
    case Bare => !Special(c)
    case Marked => !('0' <= c <= '3')
    case Coded => c as int < 256
  }

  function Digit(n: nat): char
    requires n < 8
  {
    "01234567"[n]
  }

  function WriteChar(c: char, how: How): string
    requires CanBe(c, how)
  {
    match how
    case Bare => [c]
    case Marked => ['\\', c]
    case Coded => ['\\', Digit(c as int / 64), Digit(c as int / 8 % 8), Digit(c as int % 8)]
  }

  function Write(opt: string, hows: seq<How>): string
    requires |hows| == |opt| && forall i :: 0 <= i < |opt| ==> CanBe(opt[i], hows[i])
  {
    if opt == [] then [] else WriteChar(opt[0], hows[0]) + Write(opt[1..], hows[1..])
  }

  lemma DigitValue(n: nat)
    requires n < 8
    ensures '0' <= Digit(n) <= '7' && (Digit(n) - '0') as int == n && (n < 4 ==> Digit(n) <= '3')
  {
  }

  lemma CodedDigits(c: char, more: string)
    requires CanBe(c, Coded)
    ensures var s := WriteChar(c, Coded) + more;
            |s| >= 4 && s[0] == '\\' && s[4..] == more && Octal(s[1..]) && OctalChar(s[1..]) == c
  {
    var s, n := WriteChar(c, Coded) + more, c as int;
    DigitValue(n / 64);
    DigitValue(n / 8 % 8);
    DigitValue(n % 8);
    assert s[1..][0] == Digit(n / 64) && s[1..][1] == Digit(n / 8 % 8) && s[1..][2] == Digit(n % 8);
    assert n == n / 64 * 64 + n / 8 % 8 * 8 + n % 8;
  }

  lemma CodedIsRead(c: char, more: string, acc: string)
    requires CanBe(c, Coded)
    ensures Options(WriteChar(c, Coded) + more, acc) == Options(more, acc + [c])
  {
    hide WriteChar, Octal, OctalChar, CanBe;
    CodedDigits(c, more);
  }

  /** One written character is read back, whatever follows. */
  lemma CharIsRead(c: char, how: How, more: string, acc: string)
    requires CanBe(c, how)
    ensures Options(WriteChar(c, how) + more, acc) == Options(more, acc + [c])
  {
    var s := WriteChar(c, how) + more;
    match how
    case Bare => assert s[1..] == more;
    case Marked => assert s[1] == c && s[2..] == more;
    case Coded => CodedIsRead(c, more, acc);
  }

  /** An option whose characters are written in any of these ways is collected as it is, whatever follows. */
  lemma {:induction false} WrittenIsRead(opt: string, hows: seq<How>, more: string, acc: string)
    requires |hows| == |opt| && forall i :: 0 <= i < |opt| ==> CanBe(opt[i], hows[i])
    ensures Options(Write(opt, hows) + more, acc) == Options(more, acc + opt)
  {
    hide Options, WriteChar;
    if opt == [] {
      assert Write(opt, hows) + more == more && acc + opt == acc;
    } else {
      var rest := Write(opt[1..], hows[1..]) + more;
      assert Write(opt, hows) + more == WriteChar(opt[0], hows[0]) + rest;
      CharIsRead(opt[0], hows[0], rest, acc);
      WrittenIsRead(opt[1..], hows[1..], more, acc + [opt[0]]);
      assert acc + [opt[0]] + opt[1..] == acc + opt;
    }
  }

  /** A group whose last character is a backslash that nothing has escaped; it would escape what comes next. */
  predicate Hanging(s: string) {
    if s == [] then false
    else if s[0] == '\\' then |s| == 1 || (if Octal(s[1..]) then Hanging(s[4..]) else Hanging(s[2..]))
    else Hanging(s[1..])
  }

  /** A comma ends what was read before it, unless a hanging backslash takes it for a character. */
  lemma {:induction false} CommaParts(s: string, t: string, acc: string)
    requires !Hanging(s)
    ensures Options(s + "," + t, acc) == Options(s, acc) + Options(t, [])
    decreases |s|
  {
    var u := s + "," + t;
    if s == [] {
      assert u[1..] == t;
    } else if s[0] == ',' {
      assert u[1..] == s[1..] + "," + t;
      CommaParts(s[1..], t, []);
    } else if s[0] == '\\' {
      assert |s| > 1 && (Octal(u[1..]) <==> Octal(s[1..])) by {
        SameOctal(s[1..], t);
        assert u[1..] == s[1..] + "," + t;
      }
      if Octal(s[1..]) {
        assert u[4..] == s[4..] + "," + t;
        CommaParts(s[4..], t, acc + [OctalChar(s[1..])]);
      } else {
        assert u[2..] == s[2..] + "," + t;
        CommaParts(s[2..], t, acc + [s[1]]);
      }
    } else {
      assert u[1..] == s[1..] + "," + t;
      CommaParts(s[1..], t, acc + [s[0]]);
    }
  }

  /** Looking for a code does not go beyond the comma. */
  lemma SameOctal(s: string, t: string)
    ensures Octal(s + "," + t) <==> Octal(s)
    ensures Octal(s) ==> OctalChar(s + "," + t) == OctalChar(s)
  {
    var u := s + "," + t;
    assert forall i :: 0 <= i < |s| ==> u[i] == s[i];
    assert u[|s|] == ',';
  }

  /** The number of options does not depend on what has been collected. */
  lemma {:induction false} SameCount(s: string, a: string, b: string)
    ensures |Options(s, a)| == |Options(s, b)|
    decreases |s|
  {
    if s != [] && s[0] != ',' {
      if s[0] == '\\' && |s| > 1 {
        if Octal(s[1..]) {
          SameCount(s[4..], a + [OctalChar(s[1..])], b + [OctalChar(s[1..])]);
        } else {
          SameCount(s[2..], a + [s[1]], b + [s[1]]);
        }
      } else {
        SameCount(s[1..], a + [s[0]], b + [s[0]]);
      }
    }
  }

  lemma {:induction false} HangingJoins(s: string, t: string, acc: string)
    requires Hanging(s)
    ensures |Options(s + "," + t, acc)| + 1 == |Options(s, acc)| + |Options(t, [])|
    decreases |s|
  {
    var u := s + "," + t;
    if s[0] == ',' {
      assert u[1..] == s[1..] + "," + t;
      HangingJoins(s[1..], t, []);
    } else if s == "\\" {
      assert u[1..] == "," + t && u[2..] == t && u[1] == ',' && s[1..] == [];
      SameCount(t, acc + [','], []);
    } else if s[0] == '\\' {
      assert Octal(u[1..]) <==> Octal(s[1..]) by { SameOctal(s[1..], t); assert u[1..] == s[1..] + "," + t; }
      if Octal(s[1..]) {
        assert u[4..] == s[4..] + "," + t;
        HangingJoins(s[4..], t, acc + [OctalChar(s[1..])]);
        SameCount(u[4..], acc + [OctalChar(u[1..])], acc + [OctalChar(s[1..])]);
      } else {
        assert u[2..] == s[2..] + "," + t;
        HangingJoins(s[2..], t, acc + [s[1]]);
      }
    } else {
      assert u[1..] == s[1..] + "," + t;
      HangingJoins(s[1..], t, acc + [s[0]]);
    }
  }

  /** Alone, an option is read back if it was escaped or is plain. */
  lemma AloneIsRead(opt: string, esc: bool)
    requires NUL !in opt && (esc || Plain(opt))
    ensures Options(if esc then Escape(opt) else opt, []) == [opt]
  {
    assert [] + opt == opt;
    if esc {
      assert Escape(opt) + [] == Escape(opt);
      EscapedIsRead(opt, [], []);
      CStrWhole(opt);
    } else {
      UnescapedIff(opt, []);
    }
  }

  /**
   Appending an option, escaped or plain: it is read behind the options that the group had,
   exactly if the group was not left with a hanging backslash. An empty group has no options yet.
   */
  lemma AppendedIff(group: string, opt: string, esc: bool)
    requires NUL !in opt && (esc || Plain(opt))
    ensures group == [] ==> Options(AddOpt(group, opt, esc), []) == [opt]
    ensures group != [] ==>
              (Options(AddOpt(group, opt, esc), []) == Options(group, []) + [opt] <==> !Hanging(group))
  {
    AloneIsRead(opt, esc);
    var t := if esc then Escape(opt) else opt;
    if group == [] {
      assert [] + t == t;
    } else if Hanging(group) {
      HangingJoins(group, t, []);
    } else {
      CommaParts(group, t, []);
    }
  }

  /** An option that is not plain must be escaped. */
  lemma UnescapedAppendedIff(group: string, opt: string)
    requires NUL !in opt && group != [] && !Hanging(group)
    ensures Options(AddOpt(group, opt, false), []) == Options(group, []) + [opt] <==> Plain(opt)
  {
    CommaParts(group, opt, []);
    UnescapedIff(opt, []);
    assert [] + opt == opt;
    var a, b := Options(group, []), Options(opt, []);
    assert (a + b)[|a|..] == b && (a + [opt])[|a|..] == [opt];
  }

  lemma {:induction false} EscapedEnds(opt: string)
    ensures !Hanging(Escape(opt))
  {
    if opt != [] {
      EscapedEnds(opt[1..]);
      var s := Escape(opt);
      if Special(opt[0]) {
        assert s[1] == opt[0] && s[2..] == Escape(opt[1..]) && !Octal(s[1..]);
      } else {
        assert s[1..] == Escape(opt[1..]);
      }
    }
  }

  lemma {:induction false} PlainEnds(opt: string)
    requires Plain(opt)
    ensures Hanging(opt) <==> opt != [] && opt[|opt| - 1] == '\\'
  {
    if |opt| > 1 {
      PlainTail(opt);
      PlainEnds(opt[1..]);
    } else if opt != [] {
      assert opt[1..] == [];
    }
  }

  lemma {:induction false} HangingBehind(s: string, t: string)
    requires !Hanging(s)
    ensures Hanging(s + "," + t) <==> Hanging(t)
    decreases |s|
  {
    var u := s + "," + t;
    if s == [] {
      assert u[1..] == t;
    } else if s[0] == '\\' {
      assert Octal(u[1..]) <==> Octal(s[1..]) by { SameOctal(s[1..], t); assert u[1..] == s[1..] + "," + t; }
      if Octal(s[1..]) {
        assert u[4..] == s[4..] + "," + t;
        HangingBehind(s[4..], t);
      } else {
        assert u[2..] == s[2..] + "," + t;
        HangingBehind(s[2..], t);
      }
    } else {
      assert u[1..] == s[1..] + "," + t;
      HangingBehind(s[1..], t);
    }
  }

  /** Only an unescaped option that ends with a backslash leaves one hanging. */
  lemma HangingIff(group: string, opt: string, esc: bool)
    requires !Hanging(group) && (esc || Plain(opt))
    ensures Hanging(AddOpt(group, opt, esc)) <==> !esc && opt != [] && opt[|opt| - 1] == '\\'
  {
    var t := if esc then Escape(opt) else opt;
    EscapedEnds(opt);
    if !esc {
      PlainEnds(opt);
    }
    if group == [] {
      assert [] + t == t;
    } else {
      HangingBehind(group, t);
    }
  }

  /** Every backslash stands before a special character. */
  predicate Complete(s: string) {
    if s == [] then true
    else if s[0] == '\\' then |s| > 1 && Special(s[1]) && Complete(s[2..])
    else Complete(s[1..])
  }

  lemma {:induction false} CompleteEnds(s: string)
    requires Complete(s)
    ensures !Hanging(s)
  {
    if s != [] {
      if s[0] == '\\' {
        assert !Octal(s[1..]);
        CompleteEnds(s[2..]);
      } else {
        CompleteEnds(s[1..]);
      }
    }
  }

  lemma {:induction false} CompleteJoins(a: string, b: string)
    requires Complete(a) && Complete(b)
    ensures Complete(a + b)
    decreases |a|
  {
    var t := a + b;
    if a == [] {
      assert t == b;
    } else if a[0] == '\\' {
      assert t[2..] == a[2..] + b;
      CompleteJoins(a[2..], b);
    } else {
      assert t[1..] == a[1..] + b;
      CompleteJoins(a[1..], b);
    }
  }

  lemma {:induction false} EscapeComplete(opt: string)
    ensures Complete(Escape(opt)) && (Escape(opt) == [] <==> opt == [])
  {
    if opt != [] {
      EscapeComplete(opt[1..]);
      var head := if Special(opt[0]) then ['\\', opt[0]] else [opt[0]];
      assert Complete(head) by {
        if Special(opt[0]) {
          assert head[2..] == [];
        } else {
          assert head[1..] == [];
        }
      }
      CompleteJoins(head, Escape(opt[1..]));
    }
  }

  lemma {:induction false} BuildComplete(opts: seq<string>)
    ensures Complete(Build(opts))
    ensures Build(opts) == [] <==> forall o :: o in opts ==> o == []
  {
    if opts != [] {
      var k := |opts| - 1;
      BuildComplete(opts[..k]);
      EscapeComplete(opts[k]);
      assert opts == opts[..k] + [opts[k]];
      if Build(opts[..k]) != [] {
        assert Complete(",");
        CompleteJoins(Build(opts[..k]), ",");
        CompleteJoins(Build(opts[..k]) + ",", Escape(opts[k]));
        var o :| o in opts[..k] && o != [];
        assert o in opts;
      } else {
        assert AddOpt([], opts[k], true) == Escape(opts[k]);
        assert opts[k] in opts;
        assert forall o :: o in opts[..k] ==> o == [];
        assert (forall o :: o in opts ==> o == []) <==> opts[k] == [];
      }
    }
  }

  /** The options without the empty ones in front, of which the last stays if there is nothing else. */
  function Trimmed(opts: seq<string>): seq<string> {
    if |opts| > 1 && opts[0] == [] then Trimmed(opts[1..]) else opts
  }

  lemma {:induction false} TrimmedSnoc(opts: seq<string>, opt: string)
    requires opts != []
    ensures Trimmed(opts + [opt]) == if forall o :: o in opts ==> o == [] then [opt] else Trimmed(opts) + [opt]
  {
    var all := opts + [opt];
    if opts[0] == [] {
      assert all[1..] == opts[1..] + [opt];
      if |opts| == 1 {
        assert all[1..] == [opt];
        assert forall o :: o in opts ==> o == opts[0];
      } else {
        TrimmedSnoc(opts[1..], opt);
        assert forall o :: o in opts <==> o == opts[0] || o in opts[1..];
      }
    } else {
      assert opts[0] in opts;
    }
  }

  /**
   The round trip: the options of the group that is built are the options that were added, but for
   empty ones in front.
   */
  lemma {:induction false} BuiltIsRead(opts: seq<string>)
    requires opts != [] && forall o :: o in opts ==> NUL !in o
    ensures Options(Build(opts), []) == Trimmed(opts)
  {
    var k := |opts| - 1;
    var group, opt := Build(opts[..k]), opts[k];
    assert opts == opts[..k] + [opt];
    BuildComplete(opts[..k]);
    if group == [] {
      assert AddOpt(group, opt, true) == Escape(opt) + [];
      EscapedIsRead(opt, [], []);
      CStrWhole(opt);
      assert [] + opt == opt;
      if k > 0 {
        TrimmedSnoc(opts[..k], opt);
      }
    } else {
      assert k > 0;
      BuiltIsRead(opts[..k]);
      CompleteEnds(group);
      AppendedIff(group, opt, true);
      TrimmedSnoc(opts[..k], opt);
    }
  }

  lemma {:induction false} TrimmedShorter(opts: seq<string>)
    ensures |Trimmed(opts)| <= |opts|
  {
    if |opts| > 1 && opts[0] == [] {
      TrimmedShorter(opts[1..]);
    }
  }

  /** The list comes back exactly if it does not begin with an empty option, or consists of one. */
  lemma RoundTripIff(opts: seq<string>)
    requires opts != [] && forall o :: o in opts ==> NUL !in o
    ensures Options(Build(opts), []) == opts <==> |opts| == 1 || opts[0] != []
  {
    BuiltIsRead(opts);
    if |opts| > 1 {
      TrimmedShorter(opts[1..]);
    }
  }

  /** An empty option and one behind it: only the second is read back. */
  lemma LeadingLost(opt: string)
    requires opt != [] && NUL !in opt
    ensures Options(Build([[], opt]), []) == [opt]
  {
    BuiltIsRead([[], opt]);
    assert [[], opt][1..] == [opt];
  }

  /** A comma that was not escaped parts an option in two. */
  lemma UnescapedComma()
    ensures Options("a,b", []) == ["a", "b"]
  {
    UnescapedIff("b", []);
    CStrWhole("a");
    assert "a,b"[1..] == ",b" && ",b"[1..] == "b" && [] + ['a'] == "a" && [] + "b" == "b";
    assert Options("a,b", []) == Options(",b", "a") == [CStr("a")] + Options("b", []);
  }

  /** Characters that mean something in a group: a comma, or a backslash with something behind it. */
  predicate Plain(s: string) {
    forall i :: 0 <= i < |s| ==> s[i] != ',' && (s[i] == '\\' ==> i == |s| - 1)
  }

  lemma {:induction false} OptionsLength(s: string, acc: string)
    ensures |Options(s, acc)| >= 1 && |Options(s, acc)[0]| <= |acc| + |s|
    decreases |s|
  {
    CStrShorter(acc);
    if s != [] && s[0] != ',' {
      if s[0] == '\\' && |s| > 1 {
        if Octal(s[1..]) {
          OptionsLength(s[4..], acc + [OctalChar(s[1..])]);
        } else {
          OptionsLength(s[2..], acc + [s[1]]);
        }
      } else {
        OptionsLength(s[1..], acc + [s[0]]);
      }
    }
  }

  lemma {:induction false} CStrShorter(a: string)
    ensures |CStr(a)| <= |a|
  {
    if a != [] {
      CStrShorter(a[1..]);
    }
  }

  /** An option that is added without escaping is read back exactly if it is plain. */
  lemma {:induction false} UnescapedIff(s: string, acc: string)
    requires NUL !in s && NUL !in acc
    ensures Options(s, acc) == [acc + s] <==> Plain(s)
    decreases |s|
  {
    CStrWhole(acc);
    if s == [] {
      assert acc + s == acc;
    } else if s[0] == ',' {
      OptionsLength(s[1..], []);
    } else if s[0] == '\\' && |s| > 1 {
      if Octal(s[1..]) {
        OptionsLength(s[4..], acc + [OctalChar(s[1..])]);
      } else {
        OptionsLength(s[2..], acc + [s[1]]);
      }
      assert !Plain(s);
    } else {
      UnescapedIff(s[1..], acc + [s[0]]);
      assert acc + [s[0]] + s[1..] == acc + s;
      assert Plain(s) <==> Plain(s[1..]) by { PlainTail(s); }
    }
  }

  lemma PlainTail(s: string)
    requires s != [] && s[0] != ',' && (s[0] == '\\' ==> |s| == 1)
    ensures Plain(s) <==> Plain(s[1..])
  {
    if Plain(s[1..]) {
      forall i | 0 <= i < |s| ensures s[i] != ',' && (s[i] == '\\' ==> i == |s| - 1) {
        if i > 0 {
          assert s[1..][i - 1] == s[i];
        }
      }
    }
    if Plain(s) {
      assert forall i :: 0 <= i < |s| - 1 ==> s[1..][i] == s[i + 1];
    }
  }

  lemma {:induction false} CStrCut(a: string, n: nat)
    requires n < |a| && a[n] == NUL
    ensures CStr(a) == CStr(a[..n])
  {
    if n > 0 {
      CStrCut(a[1..], n - 1);
      assert a[..n][1..] == a[1..][..n - 1];
    }
  }

  lemma {:induction false} CStrPrefix(a: string, n: nat)
    requires n < |a| && a[n] == NUL && NUL !in a[..n]
    ensures CStr(a) == a[..n]
  {
    CStrCut(a, n);
    CStrWhole(a[..n]);
  }

  // ---------- the code ----------

  /** The loop of `add_opt_common`: two places are needed for a character at most. */
  method CopyOption(r: array<char>, start: nat, opt: string, esc: bool) returns (d: nat)
    requires start + 2 * |opt| < r.Length
    modifies r
    ensures start <= d <= start + 2 * |opt| && r[..d] == old(r[..start]) + Written(opt, esc)
  {
    hide Written;
    d := start;
    var i := 0;
    Told(opt, esc, 0);
    while i < |opt|
      invariant i <= |opt| && start <= d <= start + 2 * i
      invariant r[..d] == old(r[..start]) + Written(opt[..i], esc)
    {
      Told(opt, esc, i);
      ghost var before := r[..d];
      if esc && (opt[i] == ',' || opt[i] == '\\') {
        r[d] := '\\';
        d := d + 1;
        assert r[..d] == before + ['\\'];
      }
      ghost var middle := r[..d];
      r[d] := opt[i];
      d := d + 1;
      assert r[..d] == middle + [opt[i]];
      i := i + 1;
    }
    assert opt[..i] == opt;
  }

  lemma {:induction false} EscapeNoNul(opt: string)
    requires NUL !in opt
    ensures NUL !in Escape(opt)
  {
    if opt != [] {
      assert opt[0] in opt;
      EscapeNoNul(opt[1..]);
    }
  }

  /**
   `add_opt_common`: the old group, a comma and the option with all its characters doubled
   fit in the new size, whatever the characters are.
   */
  method AddOptCommon(opts: array<char>, oldlen: nat, opt: string, esc: bool) returns (r: array<char>)
    requires oldlen < opts.Length && opts[oldlen] == NUL && NUL !in opts[..oldlen] && NUL !in opt
    ensures fresh(r) && r.Length == oldlen + 1 + |opt| * 2 + 1
    ensures CStr(r[..]) == AddOpt(opts[..oldlen], opt, esc)
  {
    r := new char[oldlen + 1 + |opt| * 2 + 1](_ => NUL);
    forall i | 0 <= i < oldlen {
      r[i] := opts[i];
    }
    var d := oldlen;
    if oldlen != 0 {
      r[d] := ',';
      d := d + 1;
    }
    assert r[..d] == if oldlen == 0 then [] else opts[..oldlen] + ",";
    d := CopyOption(r, d, opt, esc);
    EscapeNoNul(opt);
    ghost var text := r[..d];
    r[d] := NUL;
    assert r[..][..d] == text;
    CStrPrefix(r[..], d);
  }

  function Written(opt: string, esc: bool): string {
    if esc then Escape(opt) else opt
  }

  /** Characters are written one after the other. */
  lemma Told(opt: string, esc: bool, i: nat)
    requires i <= |opt|
    ensures Written(opt[..0], esc) == []
    ensures i < |opt| ==>
            Written(opt[..i + 1], esc) ==
            Written(opt[..i], esc) + if esc && Special(opt[i]) then ['\\', opt[i]] else [opt[i]]
  {
    if i < |opt| {
      assert opt[..i + 1] == opt[..i] + [opt[i]];
      EscapeSnoc(opt[..i], opt[i]);
    }
  }

  lemma {:induction false} EscapeSnoc(a: string, c: char)
    ensures Escape(a + [c]) == Escape(a) + if Special(c) then ['\\', c] else [c]
  {
    if a == [] {
      assert a + [c] == [c] && [c][1..] == [];
    } else {
      assert (a + [c])[1..] == a[1..] + [c];
      EscapeSnoc(a[1..], c);
    }
  }

  /** The next character of an option, and how much of the group it takes. */
  function Take(s: string): (char, nat)
    requires s != []
  {
    if s[0] == '\\' && |s| > 1 then if Octal(s[1..]) then (OctalChar(s[1..]), 4) else (s[1], 2)
    else (s[0], 1)
  }

  lemma OptionsTake(s: string, acc: string)
    requires s != [] && s[0] != ','
    ensures Take(s).1 <= |s| && Options(s, acc) == Options(s[Take(s).1..], acc + [Take(s).0])
  {
  }

  lemma OptionsComma(s: string, acc: string)
    ensures s == [] ==> Options(s, acc) == [CStr(acc)]
    ensures s != [] && s[0] == ',' ==> Options(s, acc) == [CStr(acc)] + Options(s[1..], [])
  {
  }

  /** What the group still holds, from position `s` on. */
  ghost predicate Holds(opts: array<char>, text: string, s: nat)
    reads opts
  {
    |text| < opts.Length && NUL !in text && forall k :: s <= k <= |text| ==>
           opts[k] == if k < |text| then text[k] else NUL
  }

  /** Reading one character; looking ahead never goes beyond the end of the string. */
  method NextChar(opts: array<char>, ghost text: string, start: nat) returns (c: char, s: nat)
    requires start < |text| && Holds(opts, text, start)
    ensures start < s <= |text| && (c, s - start) == Take(text[start..])
  {
    s := start;
    c := opts[s];
    if c == '\\' && opts[s + 1] != NUL {
      s := s + 1;
      c := opts[s];
      if '0' <= opts[s] <= '3' && '0' <= opts[s + 1] <= '7' && '0' <= opts[s + 2] <= '7' {
        c := ((opts[s] - '0') as int * 64 + (opts[s + 1] - '0') as int * 8 + (opts[s + 2] - '0') as int) as char;
        s := s + 2;
      }
    }
    s := s + 1;
  }

  /** Cutting the option off at the write position and reading it as a C string. */
  method CutOption(opts: array<char>, d: nat) returns (o: string)
    requires d < opts.Length
    modifies opts
    ensures o == CStr(old(opts[..d])) && forall k :: 0 <= k < opts.Length && k != d ==> opts[k] == old(opts[k])
  {
    ghost var acc := opts[..d];
    opts[d] := NUL;
    assert opts[..][..d] == acc;
    CStrCut(opts[..], d);
    o := CStr(opts[..]);
  }

  /**
   `process_real_option_group`: the write position never passes the read position, and
   the options are handed over in order until one is refused. `accepts` stands for
   `process_gopt`, and `text` is the string in the buffer.
   */
  method ProcessRealOptionGroup(opts: array<char>, ghost text: string, accepts: string -> bool)
    returns (ok: bool, handed: seq<string>)
    requires Holds(opts, text, 0)
    modifies opts
    ensures handed == Handed(Options(text, []), accepts)
    ensures ok <==> forall o :: o in handed ==> accepts(o)
  {
    hide Options, Take, CStr, Handed;
    var s, d: nat := 0, 0;
    handed := [];
    assert text[0..] == text && opts[..0] == [];
    while true
      invariant d <= s <= |text| && Holds(opts, text, s)
      invariant forall o :: o in handed ==> accepts(o)
      invariant Handed(Options(text, []), accepts) == handed + Handed(Options(text[s..], opts[..d]), accepts)
      decreases |text| - s
    {
      var end := opts[s] == NUL;
      if end || opts[s] == ',' {
        OptionsComma(text[s..], opts[..d]);
        HandedOne(CStr(opts[..d]), if end then [] else Options(text[s + 1..], []), accepts);
        var o := CutOption(opts, d);
        handed := handed + [o];
        if !accepts(o) {
          return false, handed;
        }
        if end {
          return true, handed;
        }
        assert text[s..][1..] == text[s + 1..] && opts[..0] == [];
        d, s := 0, s + 1;
        continue;
      }
      ghost var acc := opts[..d];
      OptionsTake(text[s..], acc);
      var c, next := NextChar(opts, text, s);
      assert text[s..][next - s..] == text[next..];
      opts[d] := c;
      assert opts[..d + 1] == acc + [c];
      d, s := d + 1, next;
    }
  }

  lemma HandedOne(o: string, rest: seq<string>, accepts: string -> bool)
    ensures Handed([o] + rest, accepts) == if accepts(o) then [o] + Handed(rest, accepts) else [o]
    ensures Handed([], accepts) == [] && [o] + [] == [o]
  {
    assert ([o] + rest)[1..] == rest && ([o] + rest)[..1] == [o];
  }

  /** The options are handed over up to the first that is refused, which is the last; `k` is its place. */
  lemma {:induction false} HandedUpTo(opts: seq<string>, accepts: string -> bool, k: nat)
    requires k <= |opts| && (forall i :: 0 <= i < k ==> accepts(opts[i])) && (k < |opts| ==> !accepts(opts[k]))
    ensures Handed(opts, accepts) == if k < |opts| then opts[..k + 1] else opts
  {
    if k > 0 {
      HandedUpTo(opts[1..], accepts, k - 1);
      assert opts == [opts[0]] + opts[1..];
    }
  }

  /** When every option is accepted, all are handed over. */
  lemma {:induction false} AllHanded(opts: seq<string>, accepts: string -> bool)
    requires forall o :: o in opts ==> accepts(o)
    ensures Handed(opts, accepts) == opts
  {
    if opts != [] {
      AllHanded(opts[1..], accepts);
      assert opts == [opts[0]] + opts[1..];
    }
  }
}

/**
 How a line of the shell is spelled: tokens behind blanks, and words with backslashes and
 quotes. The tokenizer reads a token exactly where one is spelled.
 */
module ShellSpelling {
  import opened ShellGrammar

  predicate Special(c: char) {
    Blank(c) || Delimiter(c) || Quote(c) || c == '\\'
  }

  predicate WordChar(c: char) {
    0 < c as int < 128
  }

  /** What ends a word: a string in quotes that belongs to it, a blank, or nothing, if a delimiter follows at once. */
  datatype Ending = Closing(q: char) | Gap(blank: char) | Abutting

  /**
   How a word is written: its first characters one by one, some of them behind a backslash,
   and the others, if there are any, in the quotes that end it.
   */
  datatype Style = Style(marks: seq<bool>, ending: Ending)

  /** A token as it is written: blanks, and then the token, for a word in some style. */
  datatype Item = Item(tok: Token, word: string, pad: string, style: Style)

  /** Special characters need a backslash or quotes, and quotes cannot hold themselves or a newline. */
  predicate Written(w: string, style: Style) {
    var k := |style.marks|;
    && k <= |w| && (forall i :: 0 <= i < k && !style.marks[i] ==> !Special(w[i]))
    && match style.ending
       case Closing(q) => Quote(q) && q !in w[k..] && '\n' !in w[k..]
       case Gap(blank) => Blank(blank) && k == |w|
       case Abutting => k == |w|
  }

  /** Only quotes can spell the empty word. */
  predicate Spellable(w: string, style: Style) {
    Written(w, style) && (w == [] ==> style.ending.Closing?)
  }

  predicate ItemOk(it: Item) {
    && (forall c :: c in it.pad ==> Blank(c))
    && it.tok != Terror && it.tok != Tnil && it.tok != Tend
    && (if it.tok == Tword then |it.word| <= BUF_SIZE && (forall c :: c in it.word ==> WordChar(c))
           && Spellable(it.word, it.style)
        else it.word == "")
  }

  function Spell(w: string, marks: seq<bool>): string
    requires |marks| == |w|
  {
    if w == [] then [] else (if marks[0] then ['\\', w[0]] else [w[0]]) + Spell(w[1..], marks[1..])
  }

  function Tail(w: string, style: Style): string
    requires |style.marks| <= |w|
  {
    match style.ending
    case Closing(q) => [q] + (w[|style.marks|..] + [q])
    case Gap(blank) => [blank]
    case Abutting => []
  }

  function WordText(w: string, style: Style): string
    requires |style.marks| <= |w|
  {
    Spell(w[..|style.marks|], style.marks) + Tail(w, style)
  }

  function Core(it: Item): string
    requires ItemOk(it)
  {
    match it.tok
    case Tword => WordText(it.word, it.style)
    case Tamp => "&"
    case Tpipe => "|"
    case Tsemi => ";"
    case Tin => "<"
    case Tout => ">"
    case Tapp => ">>"
    case TpipeErr => "|&"
    case ToutErr => ">&"
    case TappErr => ">>&"
    case _ => "\n"
  }

  function Text(it: Item): string
    requires ItemOk(it)
  {
    it.pad + Core(it)
  }

  /** Tokens that the tokenizer tells from longer ones by the next character. */
  predicate NeedsMore(t: Token) {
    t == Tpipe || t == Tout || t == Tapp
  }

  /** A word that nothing ends but the delimiter behind it. */
  predicate Abuts(it: Item) {
    it.tok == Tword && it.style.ending.Abutting?
  }

  /** What must come behind a token so that it is not read as a longer one. */
  predicate Continues(it: Item, more: string) {
    && (NeedsMore(it.tok) ==> more != [] && more[0] != '&' && more[0] as int < 128)
    && (it.tok == Tout ==> more[0] != '>')
    && (Abuts(it) ==> more != [] && Delimiter(more[0]))
  }

  ghost predicate ItemsOk(items: seq<Item>) {
    && (forall i :: 0 <= i < |items| ==> ItemOk(items[i]))
    && (forall i :: 0 <= i < |items| && NeedsMore(items[i].tok) ==> ApartAt(items, i + 1, items[i].tok))
    && (forall i :: 0 <= i < |items| && Abuts(items[i]) ==> DelimiterAt(items, i + 1))
  }

  /** Item `i` is not one that would make the operator in front of it longer. */
  predicate ApartAt(items: seq<Item>, i: int, t: Token) {
    0 <= i < |items| && (items[i].pad == "" ==> items[i].tok != Tamp && (t == Tout ==> !OutToken(items[i].tok)))
  }

  /** Every operator, and the newline, begins with a delimiter. */
  predicate DelimiterAt(items: seq<Item>, i: int) {
    0 <= i < |items| && items[i].tok != Tword && items[i].pad == ""
  }

  ghost function LineText(items: seq<Item>): string
    requires forall i :: 0 <= i < |items| ==> ItemOk(items[i])
  {
    if items == [] then [] else Text(items[0]) + LineText(items[1..])
  }

  ghost predicate At(s: string, pos: nat, text: string) {
    pos + |text| <= |s| && s[pos..pos + |text|] == text
  }

  lemma AtParts(s: string, pos: nat, a: string, b: string)
    requires At(s, pos, a + b)
    ensures At(s, pos, a) && At(s, pos + |a|, b)
  {
    var t := s[pos..pos + |a + b|];
    assert t[..|a|] == a && t[|a|..] == b;
    assert s[pos..pos + |a|] == t[..|a|];
    assert s[pos + |a|..pos + |a| + |b|] == t[|a|..];
  }

  lemma AtChar(s: string, pos: nat, text: string, i: nat)
    requires At(s, pos, text) && i < |text|
    ensures s[pos + i] == text[i]
  {
    assert s[pos..pos + |text|][i] == text[i];
  }

  // ---------- the tokenizer reads what is spelled ----------

  lemma {:induction false} CStrWord(w: string)
    requires forall c :: c in w ==> WordChar(c)
    ensures CStr(w) == w
  {
    if w != [] {
      assert w[0] in w;
      CStrWord(w[1..]);
    }
  }

  /** How the first character of a word is written. */
  function Head(c: char, marked: bool): string {
    if marked then ['\\', c] else [c]
  }

  lemma Reassociate(a: string, b: string, c: string)
    ensures (a + b) + c == a + (b + c)
  {
  }

  lemma SpellStep(w: string, marks: seq<bool>)
    requires |marks| == |w|
    ensures if w == [] then Spell(w, marks) == []
            else Spell(w, marks) == Head(w[0], marks[0]) + Spell(w[1..], marks[1..])
  {
  }

  lemma SpellParts(s: string, pos: nat, w: string, marks: seq<bool>, tail: string)
    requires |marks| == |w| && w != [] && At(s, pos, Spell(w, marks) + tail)
    ensures At(s, pos, Head(w[0], marks[0])) && At(s, pos + |Head(w[0], marks[0])|, Spell(w[1..], marks[1..]) + tail)
    ensures |Spell(w, marks)| == |Head(w[0], marks[0])| + |Spell(w[1..], marks[1..])|
  {
    hide At, Spell, Head;
    SpellStep(w, marks);
    Reassociate(Head(w[0], marks[0]), Spell(w[1..], marks[1..]), tail);
    AtParts(s, pos, Head(w[0], marks[0]), Spell(w[1..], marks[1..]) + tail);
  }

  lemma MoreHead(s: string, pos: nat, c: char, marked: bool, acc: string)
    requires At(s, pos, Head(c, marked)) && WordChar(c) && (!marked ==> !Special(c)) && |acc| <= BUF_SIZE
    ensures ScanMore(s, pos, acc) == ScanMore(s, pos + |Head(c, marked)|, acc + [c])
  {
    hide ScanString;
    AtChar(s, pos, Head(c, marked), 0);
    if marked {
      AtChar(s, pos, Head(c, marked), 1);
    }
  }

  lemma TooLong(s: string, pos: nat, acc: string)
    requires |acc| > BUF_SIZE
    ensures ScanMore(s, pos, acc).tok == Terror
  {
  }

  /** Reading on in a word, as far as its characters are written one by one. */
  lemma {:induction false} ScanMarked(s: string, pos: nat, w: string, marks: seq<bool>, tail: string, acc: string)
    requires |marks| == |w| && At(s, pos, Spell(w, marks) + tail)
    requires forall c :: c in w ==> WordChar(c)
    requires forall i :: 0 <= i < |w| && !marks[i] ==> !Special(w[i])
    ensures |acc| + |w| <= BUF_SIZE ==> ScanMore(s, pos, acc) == ScanMore(s, pos + |Spell(w, marks)|, acc + w)
    ensures |acc| + |w| > BUF_SIZE && |w| > 0 ==> ScanMore(s, pos, acc).tok == Terror
    decreases |w|
  {
    hide ScanMore, Spell, Head, At, WordChar, Special;
    SpellStep(w, marks);
    if w == [] {
      assert acc + w == acc;
    } else if |acc| > BUF_SIZE {
      TooLong(s, pos, acc);
    } else {
      SpellParts(s, pos, w, marks, tail);
      assert w[0] in w;
      MoreHead(s, pos, w[0], marks[0], acc);
      var pos1, acc1 := pos + |Head(w[0], marks[0])|, acc + [w[0]];
      if |acc1| > BUF_SIZE {
        TooLong(s, pos1, acc1);
      } else {
        ScanMarked(s, pos1, w[1..], marks[1..], tail, acc1);
        assert acc1 + w[1..] == acc + w;
      }
    }
  }

  lemma {:induction false} ScanQuoted(s: string, pos: nat, q: char, w: string, acc: string)
    requires Quote(q) && q !in w && '\n' !in w && At(s, pos, w + [q]) && |acc| <= BUF_SIZE
    requires forall c :: c in w ==> WordChar(c)
    ensures |acc| + |w| <= BUF_SIZE ==> ScanString(s, pos, q, acc) == Lex(Tword, CStr(acc + w), pos + |w| + 1)
    ensures |acc| + |w| > BUF_SIZE ==> ScanString(s, pos, q, acc).tok == Terror
    decreases |w|
  {
    AtChar(s, pos, w + [q], 0);
    if w == [] {
      assert acc + w == acc;
    } else {
      assert w + [q] == [w[0]] + (w[1..] + [q]);
      AtParts(s, pos, [w[0]], w[1..] + [q]);
      assert w[0] in w;
      if |acc| < BUF_SIZE {
        ScanQuoted(s, pos + 1, q, w[1..], acc + [w[0]]);
      }
      assert (acc + [w[0]]) + w[1..] == acc + w;
    }
  }

  /** The end of a word: the string in quotes, the blank, or the delimiter that is not read. */
  lemma ScanTail(s: string, pos: nat, w: string, style: Style, more: string, acc: string)
    requires Spellable(w, style) && At(s, pos, Tail(w, style) + more) && |acc| <= BUF_SIZE
    requires (forall c :: c in w ==> WordChar(c)) && (style.ending.Abutting? ==> more != [] && Delimiter(more[0]))
    ensures var rest := w[|style.marks|..];
            if |acc| + |rest| <= BUF_SIZE
            then ScanMore(s, pos, acc) == Lex(Tword, CStr(acc + rest), pos + |Tail(w, style)|)
            else ScanMore(s, pos, acc).tok == Terror
  {
    hide ScanString, CStr;
    var rest := w[|style.marks|..];
    AtChar(s, pos, Tail(w, style) + more, 0);
    if style.ending.Closing? {
      var q := style.ending.q;
      QuotesAt(s, pos, q, rest, more);
      ScanQuoted(s, pos + 1, q, rest, acc);
    } else {
      assert acc + rest == acc;
    }
  }

  lemma LexHead(s: string, pos: nat, c: char, marked: bool)
    requires At(s, pos, Head(c, marked)) && WordChar(c) && (!marked ==> !Special(c))
    ensures Lexed(s, pos) == ScanMore(s, pos + |Head(c, marked)|, [c])
  {
    hide ScanMore, ScanString;
    AtChar(s, pos, Head(c, marked), 0);
    if marked {
      AtChar(s, pos, Head(c, marked), 1);
    }
    assert "" + [c] == [c];
  }

  lemma QuotesAt(s: string, pos: nat, q: char, w: string, more: string)
    requires At(s, pos, ([q] + (w + [q])) + more)
    ensures At(s, pos, [q]) && At(s, pos + 1, w + [q])
  {
    hide At;
    assert ([q] + (w + [q])) + more == [q] + ((w + [q]) + more);
    AtParts(s, pos, [q], (w + [q]) + more);
    AtParts(s, pos + 1, w + [q], more);
  }

  lemma LexString(s: string, pos: nat, q: char, w: string)
    requires Quote(q) && q !in w && '\n' !in w && At(s, pos, [q]) && At(s, pos + 1, w + [q])
    requires forall c :: c in w ==> WordChar(c)
    ensures |w| <= BUF_SIZE ==> Lexed(s, pos) == Lex(Tword, CStr(w), pos + |w| + 2)
    ensures |w| > BUF_SIZE ==> Lexed(s, pos).tok == Terror
  {
    hide ScanMore, ScanString, CStr;
    AtChar(s, pos, [q], 0);
    ScanQuoted(s, pos + 1, q, w, "");
    assert "" + w == w;
  }

  /** A word that begins with characters written one by one. */
  lemma LexMarked(s: string, pos: nat, w: string, style: Style, more: string)
    requires Spellable(w, style) && style.marks != [] && At(s, pos, WordText(w, style) + more)
    requires (forall c :: c in w ==> WordChar(c)) && (style.ending.Abutting? ==> more != [] && Delimiter(more[0]))
    ensures |w| <= BUF_SIZE ==> Lexed(s, pos) == Lex(Tword, CStr(w), pos + |WordText(w, style)|)
    ensures |w| > BUF_SIZE ==> Lexed(s, pos).tok == Terror
  {
    hide ScanMore, Lexed, CStr, Spell, Tail, At, WordChar, Special, Delimiter, Quote, Blank, Head;
    var marks, k := style.marks, |style.marks|;
    var front := w[..k];
    var tail := Tail(w, style) + more;
    assert front + w[k..] == w;
    Reassociate(Spell(front, marks), Tail(w, style), more);
    SpellParts(s, pos, front, marks, tail);
    assert w[0] in w && front[0] == w[0];
    LexHead(s, pos, w[0], marks[0]);
    ScanMarked(s, pos + |Head(w[0], marks[0])|, front[1..], marks[1..], tail, [w[0]]);
    assert [w[0]] + front[1..] == front;
    if k <= BUF_SIZE {
      AtParts(s, pos, Spell(front, marks), tail);
      ScanTail(s, pos + |Spell(front, marks)|, w, style, more, front);
    }
  }

  lemma LexWord(s: string, pos: nat, w: string, style: Style, more: string)
    requires Spellable(w, style) && At(s, pos, WordText(w, style) + more)
    requires (forall c :: c in w ==> WordChar(c)) && (style.ending.Abutting? ==> more != [] && Delimiter(more[0]))
    ensures |w| <= BUF_SIZE ==> Lexed(s, pos) == Lex(Tword, CStr(w), pos + |WordText(w, style)|)
    ensures |w| > BUF_SIZE ==> Lexed(s, pos).tok == Terror
  {
    hide ScanMore, Lexed, CStr, At, WordChar, Special, Delimiter, Quote, Blank;
    if style.marks == [] {
      assert w[..0] == [] && w[0..] == w;
      assert WordText(w, style) == [style.ending.q] + (w + [style.ending.q]);
      QuotesAt(s, pos, style.ending.q, w, more);
      LexString(s, pos, style.ending.q, w);
    } else {
      LexMarked(s, pos, w, style, more);
    }
  }

  /** A word is read, and read back, exactly if it fits in the buffer, however it is written. */
  lemma WordReadIff(s: string, pos: nat, w: string, style: Style, more: string)
    requires Spellable(w, style) && At(s, pos, WordText(w, style) + more)
    requires (forall c :: c in w ==> WordChar(c)) && (style.ending.Abutting? ==> more != [] && Delimiter(more[0]))
    ensures Lexed(s, pos).tok == Tword <==> |w| <= BUF_SIZE
    ensures |w| <= BUF_SIZE ==> Lexed(s, pos) == Lex(Tword, w, pos + |WordText(w, style)|)
  {
    hide Lexed, CStr, Spell, At;
    LexWord(s, pos, w, style, more);
    CStrWord(w);
  }

  /** An ampersand or a greater-than sign in front is that of an operator without blanks. */
  lemma ItemStarts(it: Item)
    requires ItemOk(it)
    ensures Text(it) != [] && Text(it)[0] as int < 128
    ensures Text(it)[0] == '&' ==> it.pad == "" && it.tok == Tamp
    ensures Text(it)[0] == '>' ==> it.pad == "" && OutToken(it.tok)
  {
    if it.pad != [] {
      assert it.pad[0] in it.pad;
    } else if it.tok == Tword && it.style.marks != [] {
      assert it.word[0] in it.word;
    }
  }

  /** That of an operator ends a word. */
  lemma OperatorStarts(it: Item)
    requires ItemOk(it) && it.tok != Tword && it.pad == ""
    ensures Text(it) != [] && Delimiter(Text(it)[0])
  {
  }

  lemma LexOperator(s: string, pos: nat, it: Item, more: string)
    requires ItemOk(it) && it.tok != Tword && At(s, pos, Core(it) + more) && Continues(it, more)
    ensures Lexed(s, pos) == Lex(it.tok, it.word, pos + |Core(it)|)
  {
    var text := Core(it) + more;
    AtChar(s, pos, text, 0);
    if |text| > 1 {
      AtChar(s, pos, text, 1);
    }
    if |text| > 2 {
      AtChar(s, pos, text, 2);
    }
  }

  lemma LessPad(it: Item)
    requires ItemOk(it) && it.pad != []
    ensures var it1 := it.(pad := it.pad[1..]); ItemOk(it1) && Core(it1) == Core(it)
  {
  }

  lemma {:induction false} LexItem(s: string, pos: nat, it: Item, more: string)
    requires ItemOk(it) && At(s, pos, Text(it) + more) && Continues(it, more)
    ensures Lexed(s, pos) == Lex(it.tok, it.word, pos + |Text(it)|)
    decreases |it.pad|
  {
    hide ScanString, ScanWord, Core, Spellable, WordText, At;
    if it.pad == [] {
      assert Text(it) == Core(it);
      if it.tok == Tword {
        CoreOfWord(it);
        WordReadIff(s, pos, it.word, it.style, more);
      } else {
        LexOperator(s, pos, it, more);
      }
    } else {
      var it1 := it.(pad := it.pad[1..]);
      LessPad(it);
      assert Text(it) + more == [it.pad[0]] + (Text(it1) + more);
      AtParts(s, pos, [it.pad[0]], Text(it1) + more);
      AtChar(s, pos, [it.pad[0]], 0);
      assert it.pad[0] in it.pad;
      LexItem(s, pos + 1, it1, more);
    }
  }

  lemma CoreOfWord(it: Item)
    requires ItemOk(it) && it.tok == Tword
    ensures Spellable(it.word, it.style) && Core(it) == WordText(it.word, it.style)
  {
  }

  // ---------- and every token that it reads is spelled there ----------

  lemma AtJoin(s: string, pos: nat, a: string, b: string)
    requires At(s, pos, a) && At(s, pos + |a|, b)
    ensures At(s, pos, a + b)
  {
    assert s[pos..pos + |a + b|] == s[pos..pos + |a|] + s[pos + |a|..pos + |a| + |b|];
  }

  lemma AtOne(s: string, pos: nat, c: char)
    requires pos < |s| && s[pos] == c
    ensures At(s, pos, [c])
  {
  }

  predicate Ascii(w: string) {
    forall c :: c in w ==> c as int < 128
  }

  /** The string in quotes that was read. */
  lemma {:induction false} StringSpelled(s: string, pos: nat, q: char, acc: string) returns (w: string)
    requires Quote(q) && |acc| <= BUF_SIZE && ScanString(s, pos, q, acc).tok == Tword
    ensures q !in w && '\n' !in w && Ascii(w) && |acc| + |w| <= BUF_SIZE && At(s, pos, w + [q])
    ensures ScanString(s, pos, q, acc) == Lex(Tword, CStr(acc + w), pos + |w| + 1)
    decreases |s| - pos
  {
    hide CStr, At;
    AtOne(s, pos, s[pos]);
    if s[pos] == q {
      w := [];
      assert acc + w == acc && w + [q] == [q];
    } else {
      var w1 := StringSpelled(s, pos + 1, q, acc + [s[pos]]);
      w := [s[pos]] + w1;
      assert (acc + [s[pos]]) + w1 == acc + w;
      AtJoin(s, pos, [s[pos]], w1 + [q]);
      assert w + [q] == [s[pos]] + (w1 + [q]);
    }
  }

  /** One more character in front of what is written. */
  function Before(c: char, marked: bool, style: Style): Style {
    style.(marks := [marked] + style.marks)
  }

  lemma WrittenBefore(c: char, marked: bool, w: string, style: Style)
    requires Written(w, style) && (!marked ==> !Special(c))
    ensures Written([c] + w, Before(c, marked, style)) && [c] + w != []
    ensures WordText([c] + w, Before(c, marked, style)) == Head(c, marked) + WordText(w, style)
  {
    hide Special, Head;
    var w1, style1, k := [c] + w, Before(c, marked, style), |style.marks|;
    assert w1[k + 1..] == w[k..];
    var front := w1[..k + 1];
    assert front[1..] == w[..k] && style1.marks[1..] == style.marks;
    SpellStep(front, style1.marks);
    Reassociate(Head(c, marked), Spell(w[..k], style.marks), Tail(w, style));
  }

  /** The word `w` stands at `pos`, written in this style, and ends at `end`. */
  ghost predicate StandsAt(s: string, pos: nat, w: string, style: Style, end: nat) {
    && Written(w, style) && Ascii(w) && At(s, pos, WordText(w, style)) && end == pos + |WordText(w, style)|
    && (style.ending.Abutting? ==> end < |s| && Delimiter(s[end]))
  }

  lemma StandsBefore(s: string, pos: nat, c: char, marked: bool, w: string, style: Style, end: nat)
    requires At(s, pos, Head(c, marked)) && c as int < 128 && (!marked ==> !Special(c))
    requires StandsAt(s, pos + |Head(c, marked)|, w, style, end)
    ensures StandsAt(s, pos, [c] + w, Before(c, marked, style), end)
  {
    hide At, WordText, Delimiter, Special, Head;
    WrittenBefore(c, marked, w, style);
    AtJoin(s, pos, Head(c, marked), WordText(w, style));
  }

  /** The end of a word that was read. */
  lemma TailSpelled(s: string, pos: nat, acc: string) returns (w: string, style: Style)
    requires ScanMore(s, pos, acc).tok == Tword && (Blank(s[pos]) || Delimiter(s[pos]) || Quote(s[pos]))
    ensures StandsAt(s, pos, w, style, ScanMore(s, pos, acc).pos) && |acc| + |w| <= BUF_SIZE
    ensures style.marks == [] && ScanMore(s, pos, acc).word == CStr(acc + w)
  {
    hide CStr;
    w := [];
    assert acc + w == acc;
    AtOne(s, pos, s[pos]);
    if Blank(s[pos]) {
      style := Style([], Gap(s[pos]));
      assert WordText(w, style) == [s[pos]];
    } else if Delimiter(s[pos]) {
      style := Style([], Abutting);
      assert WordText(w, style) == [];
    } else {
      style := Style([], Closing(s[pos]));
      w := StringSpelled(s, pos + 1, s[pos], acc);
      AtJoin(s, pos, [s[pos]], w + [s[pos]]);
      assert w[..0] == [] && w[0..] == w;
      assert WordText(w, style) == [s[pos]] + (w + [s[pos]]);
    }
  }

  /** The rest of a word that was read. */
  lemma {:induction false} MoreSpelled(s: string, pos: nat, acc: string) returns (w: string, style: Style)
    requires ScanMore(s, pos, acc).tok == Tword
    ensures StandsAt(s, pos, w, style, ScanMore(s, pos, acc).pos) && |acc| + |w| <= BUF_SIZE
    ensures ScanMore(s, pos, acc).word == CStr(acc + w)
    decreases |s| - pos
  {
    hide CStr, StandsAt, ScanString;
    assert pos < |s|;
    if Blank(s[pos]) || Delimiter(s[pos]) || Quote(s[pos]) {
      w, style := TailSpelled(s, pos, acc);
    } else {
      var marked := s[pos] == '\\';
      var c := if marked then s[pos + 1] else s[pos];
      var w1, style1 := MoreSpelled(s, pos + |Head(c, marked)|, acc + [c]);
      HeadAt(s, pos, c, marked);
      StandsBefore(s, pos, c, marked, w1, style1, ScanMore(s, pos, acc).pos);
      w, style := [c] + w1, Before(c, marked, style1);
      assert (acc + [c]) + w1 == acc + w;
    }
  }

  lemma HeadAt(s: string, pos: nat, c: char, marked: bool)
    requires if marked then pos + 1 < |s| && s[pos] == '\\' && s[pos + 1] == c else pos < |s| && s[pos] == c
    ensures At(s, pos, Head(c, marked))
  {
  }

  /** A word that was read, from its first character on. */
  lemma WordSpelled(s: string, pos: nat) returns (w: string, style: Style)
    requires Lexed(s, pos).tok == Tword && !Blank(s[pos])
    ensures Spellable(w, style) && StandsAt(s, pos, w, style, Lexed(s, pos).pos) && |w| <= BUF_SIZE
    ensures Lexed(s, pos).word == CStr(w)
  {
    hide CStr, ScanString, ScanMore, At, WordText;
    if Quote(s[pos]) {
      w := StringSpelled(s, pos + 1, s[pos], "");
      style := Style([], Closing(s[pos]));
      AtOne(s, pos, s[pos]);
      AtJoin(s, pos, [s[pos]], w + [s[pos]]);
      assert "" + w == w;
      QuotesText(s[pos], w);
    } else {
      var marked := s[pos] == '\\';
      var c := if marked then s[pos + 1] else s[pos];
      assert "" + [c] == [c];
      var w1, style1 := MoreSpelled(s, pos + |Head(c, marked)|, [c]);
      HeadAt(s, pos, c, marked);
      StandsBefore(s, pos, c, marked, w1, style1, Lexed(s, pos).pos);
      w, style := [c] + w1, Before(c, marked, style1);
    }
  }

  lemma QuotesText(q: char, w: string)
    ensures w[0..] == w && WordText(w, Style([], Closing(q))) == [q] + (w + [q])
  {
    assert w[..0] == [] && w[0..] == w;
  }

  /** The item is spelled at `pos` and ends at `end`, and what follows does not make it another. */
  ghost predicate SpelledAt(s: string, pos: nat, it: Item, end: nat) {
    ItemOk(it) && pos <= end <= |s| && s[pos..end] == Text(it) && Continues(it, s[end..])
  }

  lemma {:induction false} SpellHas(w: string, marks: seq<bool>, c: char)
    requires |marks| == |w| && c in w
    ensures c in Spell(w, marks)
  {
    SpellStep(w, marks);
    if c != w[0] {
      SpellHas(w[1..], marks[1..], c);
    }
  }

  lemma TextHas(w: string, style: Style, c: char)
    requires Written(w, style) && c in w
    ensures c in WordText(w, style)
  {
    var k := |style.marks|;
    assert w == w[..k] + w[k..];
    if c in w[..k] {
      SpellHas(w[..k], style.marks, c);
    }
  }

  lemma WordItem(s: string, pos: nat, w: string, style: Style, end: nat)
    requires Spellable(w, style) && StandsAt(s, pos, w, style, end) && |w| <= BUF_SIZE && end <= |s|
             && EOS !in s[pos..end]
    ensures SpelledAt(s, pos, Item(Tword, w, "", style), end) && CStr(w) == w
  {
    hide WordText, CStr, Spellable;
    forall c | c in w ensures WordChar(c) {
      TextHas(w, style, c);
      assert c in s[pos..end];
    }
    CStrWord(w);
    var it := Item(Tword, w, "", style);
    assert "" + WordText(w, style) == WordText(w, style);
  }

  lemma MorePad(it: Item, blank: char)
    requires ItemOk(it) && Blank(blank)
    ensures var it1 := it.(pad := [blank] + it.pad); ItemOk(it1) && Text(it1) == [blank] + Text(it)
  {
    hide Core;
    var it1 := it.(pad := [blank] + it.pad);
    assert Core(it1) == Core(it) by { PadIsNoCore(it, it1.pad); }
  }

  lemma PadIsNoCore(it: Item, pad: string)
    requires ItemOk(it) && ItemOk(it.(pad := pad))
    ensures Core(it.(pad := pad)) == Core(it)
  {
  }

  lemma Slices(s: string, pos: nat)
    ensures pos + 1 <= |s| ==> s[pos..pos + 1] == [s[pos]] && (pos + 1 < |s| ==> s[pos + 1..][0] == s[pos + 1])
    ensures pos + 2 <= |s| ==>
            s[pos..pos + 2] == [s[pos], s[pos + 1]] && (pos + 2 < |s| ==> s[pos + 2..][0] == s[pos + 2])
    ensures pos + 3 <= |s| ==> s[pos..pos + 3] == [s[pos], s[pos + 1], s[pos + 2]]
  {
  }

  lemma OperatorText(s: string, pos: nat, it: Item)
    requires pos <= |s| && it == Item(Lexed(s, pos).tok, "", "", Style([], Abutting))
    requires it.tok != Tword && it.tok != Terror && it.tok != Tend && !Blank(s[pos])
    ensures ItemOk(it) && Lexed(s, pos).pos <= |s| && Lexed(s, pos).word == ""
    ensures s[pos..Lexed(s, pos).pos] == Core(it)
  {
    hide ScanString, ScanWord, WordText, Spellable;
    Slices(s, pos);
  }

  lemma OperatorContinues(s: string, pos: nat, it: Item)
    requires pos < |s| && it.tok == Lexed(s, pos).tok && it.tok != Tword && it.tok != Terror && !Blank(s[pos])
    ensures Continues(it, s[Lexed(s, pos).pos..])
  {
    hide ScanString, ScanWord;
    Slices(s, pos);
  }

  lemma OperatorReadable(s: string, pos: nat)
    requires Lexed(s, pos).tok != Tend
    ensures pos < |s|
  {
  }

  lemma OperatorSpelled(s: string, pos: nat, it: Item)
    requires pos <= |s| && it == Item(Lexed(s, pos).tok, "", "", Style([], Abutting))
    requires it.tok != Tword && it.tok != Terror && it.tok != Tend && !Blank(s[pos])
    ensures SpelledAt(s, pos, it, Lexed(s, pos).pos) && Lexed(s, pos).word == ""
  {
    hide Lexed, Core, Spellable, Continues;
    OperatorText(s, pos, it);
    OperatorReadable(s, pos);
    OperatorContinues(s, pos, it);
    assert Text(it) == "" + Core(it) == Core(it);
  }

  /** A token that was read without error is spelled where it was read. */
  lemma {:induction false} ReadIsSpelled(s: string, pos: nat) returns (it: Item)
    requires pos <= |s| && Lexed(s, pos).tok != Terror && Lexed(s, pos).tok != Tend && EOS !in s[pos..Lexed(s, pos).pos]
    ensures SpelledAt(s, pos, it, Lexed(s, pos).pos) && it.tok == Lexed(s, pos).tok && it.word == Lexed(s, pos).word
    decreases |s| - pos
  {
    hide ScanString, ScanWord, CStr;
    var l := Lexed(s, pos);
    if Blank(s[pos]) {
      assert forall c :: c in s[pos + 1..l.pos] ==> c in s[pos..l.pos];
      var it1 := ReadIsSpelled(s, pos + 1);
      it := it1.(pad := [s[pos]] + it1.pad);
      MorePad(it1, s[pos]);
      assert s[pos..l.pos] == [s[pos]] + s[pos + 1..l.pos];
    } else if l.tok == Tword {
      var w, style := WordSpelled(s, pos);
      it := Item(Tword, w, "", style);
      WordItem(s, pos, w, style, l.pos);
    } else {
      it := Item(l.tok, "", "", Style([], Abutting));
      OperatorSpelled(s, pos, it);
    }
  }

  /** So a token is read exactly where it is spelled. */
  lemma TokenReadIff(s: string, pos: nat, t: Token, w: string, end: nat)
    requires pos <= end <= |s| && EOS !in s[pos..end] && t != Terror && t != Tend
    ensures Lexed(s, pos) == Lex(t, w, end) <==>
            exists it: Item :: it.tok == t && it.word == w && SpelledAt(s, pos, it, end)
  {
    hide Lexed, ItemOk, Text, Continues;
    if Lexed(s, pos) == Lex(t, w, end) {
      var it := ReadIsSpelled(s, pos);
    }
    forall it: Item | it.tok == t && it.word == w && SpelledAt(s, pos, it, end)
      ensures Lexed(s, pos) == Lex(t, w, end)
    {
      assert s[pos..] == Text(it) + s[end..];
      WholeFrom(s, pos);
      LexItem(s, pos, it, s[end..]);
    }
  }

  lemma WholeFrom(s: string, pos: nat)
    requires pos <= |s|
    ensures At(s, pos, s[pos..])
  {
    assert s[pos..pos + |s[pos..]|] == s[pos..];
  }
}

/**
 * The Lexer of lexer.cpp: a maximal-munch scanner over the source text that
 * counts lines.  Tokenize is proved to compute Scan, a recursive description
 * of the same scan built from Next, the token (if any) recognised at one
 * position; the lemmas say what every scan produces.
 */
module Lexer {

  /** The TokenType enumeration, by value; -1 is the type of the "~" token
      and of a default-constructed Token. */
  const SyIf := 0
  const SyThen := 1
  const SyElse := 2
  const SyWhile := 3
  const SyBegin := 4
  const SyDo := 5
  const SyEnd := 6
  const SemicolonType := 8
  const Jinghao := 10
  const Plus := 34
  const Times := 36
  const Becomes := 38
  const OpAnd := 39
  const OpOr := 40
  const OpNot := 41
  const Rop := 42
  const LParent := 48
  const RParent := 49
  const Ident := 56
  const IntConst := 57
  const Special := -1

  datatype Token = Token(kind: int, value: string, line: int)

  datatype Option<T> = None | Some(value: T)

  predicate IsDigit(c: char) {
    '0' <= c <= '9'
  }

  predicate IsLetter(c: char) {
    ('a' <= c <= 'z') || ('A' <= c <= 'Z')
  }

  predicate IsWhitespace(c: char) {
    c == ' ' || c == '\t' || c == '\n' || c == '\r'
  }

  /** The ten reserved words and their token types. */
  function KeywordTable(): map<string, int> {
    map["if" := SyIf, "then" := SyThen, "else" := SyElse, "while" := SyWhile,
        "begin" := SyBegin, "do" := SyDo, "end" := SyEnd,
        "and" := OpAnd, "or" := OpOr, "not" := OpNot]
  }

  /** The end of the run of letters and digits starting at pos. */
  function WordEnd(src: string, pos: nat): (e: nat)
    requires pos <= |src|
    ensures pos <= e <= |src|
    ensures forall k :: pos <= k < e ==> IsLetter(src[k]) || IsDigit(src[k])
    ensures e < |src| ==> !(IsLetter(src[e]) || IsDigit(src[e]))
    decreases |src| - pos
  {
    if pos < |src| && (IsLetter(src[pos]) || IsDigit(src[pos])) then WordEnd(src, pos + 1) else pos
  }

  /** The end of the run of digits starting at pos. */
  function DigitsEnd(src: string, pos: nat): (e: nat)
    requires pos <= |src|
    ensures pos <= e <= |src|
    ensures forall k :: pos <= k < e ==> IsDigit(src[k])
    ensures e < |src| ==> !IsDigit(src[e])
    decreases |src| - pos
  {
    if pos < |src| && IsDigit(src[pos]) then DigitsEnd(src, pos + 1) else pos
  }

  /** A word's token type: its keyword type, or IDENT. */
  function WordKind(keywords: map<string, int>, word: string): int {
    if word in keywords then keywords[word] else Ident
  }

  /** A one-character operator's token type, for the characters that are one. */
  function SingleKind(c: char): Option<int> {
    match c
    case '+' => Some(Plus)
    case '*' => Some(Times)
    case '(' => Some(LParent)
    case ')' => Some(RParent)
    case ';' => Some(SemicolonType)
    case '#' => Some(Jinghao)
    case '~' => Some(Special)
    case '=' => Some(Rop)
    case _ => None
  }

  /** What the switch of tokenize's loop recognises at pos, a character
      that is neither whitespace, a letter nor a digit. */
  function NextOperator(src: string, pos: nat): (r: (Option<(int, string)>, nat))
    requires pos < |src|
    ensures pos < r.1 <= pos + 2 && r.1 <= |src|
    ensures r.0.Some? ==> r.1 == pos + |r.0.value.1| && src[pos..r.1] == r.0.value.1
    ensures r.0.None? ==> r.1 == pos + 1
    ensures SingleKind(src[pos]).Some? ==> r == (Some((SingleKind(src[pos]).value, [src[pos]])), pos + 1)
    ensures src[pos] == ':' ==>
      (r.0 == Some((Becomes, ":=")) <==> pos + 1 < |src| && src[pos + 1] == '=') &&
      (r.0.None? <==> !(pos + 1 < |src| && src[pos + 1] == '='))
    ensures src[pos] in "<>" ==>
      r.0.Some? && r.0.value.0 == Rop && (r.1 == pos + 2 <==> pos + 1 < |src| && src[pos + 1] == '=')
    ensures r.0.None? <==>
      SingleKind(src[pos]).None? && src[pos] !in "<>" && !(src[pos] == ':' && pos + 1 < |src| && src[pos + 1] == '=')
  {
    var c := src[pos];
    if c == ':' then
      if pos + 1 < |src| && src[pos + 1] == '=' then (Some((Becomes, ":=")), pos + 2) else (None, pos + 1)
    else if c == '>' || c == '<' then
      if pos + 1 < |src| && src[pos + 1] == '=' then (Some((Rop, [c, '='])), pos + 2)
      else (Some((Rop, [c])), pos + 1)
    else if SingleKind(c).Some? then (Some((SingleKind(c).value, [c])), pos + 1)
    else (None, pos + 1)
  }

  /** One iteration of tokenize's loop at position pos: the token type and
      text recognised there, if any, and the position after it.  The text is
      always exactly the characters consumed; a word or a number is the
      longest run there. */
  function Next(keywords: map<string, int>, src: string, pos: nat): (r: (Option<(int, string)>, nat))
    requires pos < |src|
    ensures pos < r.1 <= |src|
    ensures r.0.Some? ==> r.1 == pos + |r.0.value.1| && src[pos..r.1] == r.0.value.1
    ensures r.0.None? ==> r.1 == pos + 1
    ensures IsLetter(src[pos]) ==>
      r.0 == Some((WordKind(keywords, src[pos..r.1]), src[pos..r.1])) && r.1 == WordEnd(src, pos)
    ensures IsDigit(src[pos]) ==> r.0 == Some((IntConst, src[pos..r.1])) && r.1 == DigitsEnd(src, pos)
    ensures IsWhitespace(src[pos]) ==> r == (None, pos + 1)
    ensures !IsWhitespace(src[pos]) && !IsLetter(src[pos]) && !IsDigit(src[pos]) ==> r == NextOperator(src, pos)
  {
    var c := src[pos];
    if IsWhitespace(c) then (None, pos + 1)
    else if IsLetter(c) then
      var e := WordEnd(src, pos);
      (Some((WordKind(keywords, src[pos..e]), src[pos..e])), e)
    else if IsDigit(c) then
      var e := DigitsEnd(src, pos);
      (Some((IntConst, src[pos..e])), e)
    else NextOperator(src, pos)
  }

  /** The line after the character at pos: one more after a newline. */
  function LineAfter(src: string, pos: nat, line: int): int
    requires pos < |src|
  {
    if src[pos] == '\n' then line + 1 else line
  }

  /** The tokens of src from pos on, starting on line `line`. */
  function Scan(keywords: map<string, int>, src: string, pos: nat, line: int): seq<Token>
    requires pos <= |src|
    decreases |src| - pos
  {
    if pos == |src| then []
    else
      var (t, next) := Next(keywords, src, pos);
      var rest := Scan(keywords, src, next, LineAfter(src, pos, line));
      if t.Some? then [Token(t.value.0, t.value.1, line)] + rest else rest
  }

  /** Where each token of Scan starts. */
  ghost function Starts(keywords: map<string, int>, src: string, pos: nat): seq<nat>
    requires pos <= |src|
    decreases |src| - pos
  {
    if pos == |src| then []
    else
      var (t, next) := Next(keywords, src, pos);
      var rest := Starts(keywords, src, next);
      if t.Some? then [pos] + rest else rest
  }

  /** The number of newlines in s. */
  function Newlines(s: string): nat {
    if |s| == 0 then 0 else Newlines(s[..|s| - 1]) + if s[|s| - 1] == '\n' then 1 else 0
  }

  lemma NewlinesStep(src: string, pos: nat, next: nat)
    requires pos < next <= |src| && (next == pos + 1 || forall k :: pos <= k < next ==> src[k] != '\n')
    ensures Newlines(src[..next]) == Newlines(src[..pos]) + if src[pos] == '\n' then 1 else 0
    decreases next - pos
  {
    if next == pos + 1 {
      assert src[..next][..pos] == src[..pos];
    } else {
      NewlinesStep(src, pos, next - 1);
      assert src[..next][..next - 1] == src[..next - 1];
    }
  }

  /** Tokens collected so far followed by the scan from pos: the token of
      the first step joins the collected ones. */
  lemma ScanStep(done: seq<Token>, keywords: map<string, int>, src: string, pos: nat, line: int)
    requires pos < |src|
    ensures var (t, next) := Next(keywords, src, pos);
      done + Scan(keywords, src, pos, line) ==
        (done + if t.Some? then [Token(t.value.0, t.value.1, line)] else []) +
        Scan(keywords, src, next, LineAfter(src, pos, line))
  {
  }

  /** A token's text never holds whitespace. */
  lemma NextHasNoWhitespace(keywords: map<string, int>, src: string, pos: nat)
    requires pos < |src|
    ensures var r := Next(keywords, src, pos);
      r.0.Some? ==> forall c :: c in r.0.value.1 ==> !IsWhitespace(c)
  {
    var r := Next(keywords, src, pos);
    if r.0.Some? {
      forall c | c in r.0.value.1 ensures !IsWhitespace(c) {
        var k :| 0 <= k < |r.0.value.1| && r.0.value.1[k] == c;
        assert src[pos + k] == c;
      }
    }
  }

  /** Token i of ts, recorded as starting at ss[i], at or after pos: its
      value is exactly the non-empty text of src there and holds no
      whitespace. */
  predicate TextAt(src: string, ts: seq<Token>, ss: seq<nat>, pos: nat, i: int) {
    0 <= i < |ts| && i < |ss| && pos <= ss[i] && ss[i] + |ts[i].value| <= |src| &&
    src[ss[i]..ss[i] + |ts[i].value|] == ts[i].value && |ts[i].value| > 0 &&
    forall c :: c in ts[i].value ==> !IsWhitespace(c)
  }

  /** Token i ends before token i + 1 starts. */
  predicate OrderedAt(ts: seq<Token>, ss: seq<nat>, i: int) {
    0 <= i && i + 1 < |ts| && i + 1 < |ss| && ss[i] + |ts[i].value| <= ss[i + 1]
  }

  /** Each step's token is followed by the tokens and starts of the rest. */
  lemma ScanSplit(keywords: map<string, int>, src: string, pos: nat, line: int)
    requires pos < |src|
    ensures var (t, next) := Next(keywords, src, pos);
      var rest, rs := Scan(keywords, src, next, LineAfter(src, pos, line)), Starts(keywords, src, next);
      var ts, ss := Scan(keywords, src, pos, line), Starts(keywords, src, pos);
      (t.Some? ==> ts == [Token(t.value.0, t.value.1, line)] + rest && ss == [pos] + rs) &&
      (t.None? ==> ts == rest && ss == rs)
  {
  }

  /** What every scan satisfies: each token's value is exactly the
      non-empty text at its recorded start, and no value holds whitespace. */
  lemma {:induction false} ScanText(keywords: map<string, int>, src: string, pos: nat, line: int)
    requires pos <= |src|
    ensures var ts, ss := Scan(keywords, src, pos, line), Starts(keywords, src, pos);
      |ss| == |ts| && forall i :: 0 <= i < |ts| ==> TextAt(src, ts, ss, pos, i)
    decreases |src| - pos
  {
    if pos < |src| {
      var (t, next) := Next(keywords, src, pos);
      var line' := LineAfter(src, pos, line);
      ScanText(keywords, src, next, line');
      ScanSplit(keywords, src, pos, line);
      var rest, rs := Scan(keywords, src, next, line'), Starts(keywords, src, next);
      var ts, ss := Scan(keywords, src, pos, line), Starts(keywords, src, pos);
      if t.Some? {
        NextHasNoWhitespace(keywords, src, pos);
        forall i | 0 <= i < |ts| ensures TextAt(src, ts, ss, pos, i) {
          if i > 0 {
            assert TextAt(src, rest, rs, next, i - 1);
            assert ts[i] == rest[i - 1] && ss[i] == rs[i - 1];
          }
        }
      } else {
        forall i | 0 <= i < |ts| ensures TextAt(src, ts, ss, pos, i) {
          assert TextAt(src, rest, rs, next, i);
        }
      }
    }
  }

  /** Tokens appear in source order and do not overlap. */
  lemma {:induction false} ScanOrdered(keywords: map<string, int>, src: string, pos: nat, line: int)
    requires pos <= |src|
    ensures var ts, ss := Scan(keywords, src, pos, line), Starts(keywords, src, pos);
      |ss| == |ts| && forall i :: 0 <= i < |ts| - 1 ==> OrderedAt(ts, ss, i)
    decreases |src| - pos
  {
    ScanText(keywords, src, pos, line);
    if pos < |src| {
      var (t, next) := Next(keywords, src, pos);
      var line' := LineAfter(src, pos, line);
      ScanOrdered(keywords, src, next, line');
      ScanText(keywords, src, next, line');
      ScanSplit(keywords, src, pos, line);
      var rest, rs := Scan(keywords, src, next, line'), Starts(keywords, src, next);
      var ts, ss := Scan(keywords, src, pos, line), Starts(keywords, src, pos);
      if t.Some? {
        forall i | 0 <= i < |ts| - 1 ensures OrderedAt(ts, ss, i) {
          if i > 0 {
            assert OrderedAt(rest, rs, i - 1);
            assert ts[i] == rest[i - 1] && ss[i] == rs[i - 1] && ss[i + 1] == rs[i];
          } else {
            assert TextAt(src, rest, rs, next, 0);
          }
        }
      } else {
        forall i | 0 <= i < |ts| - 1 ensures OrderedAt(ts, ss, i) {
          assert OrderedAt(rest, rs, i);
        }
      }
    }
  }

  /** A token of type kind and text `text` starting at p is what tokenize's
      loop makes of the character there: never whitespace; a letter starts
      the whole letter/digit run, typed by the keyword table or IDENT; a
      digit the whole digit run, typed INTCONST; a one-character operator
      its own type; ':' only ":=", typed BECOMES; '<' and '>' a ROP of two
      characters exactly when '=' follows. */
  predicate TokenClassified(keywords: map<string, int>, src: string, p: nat, kind: int, text: string)
    requires p < |src|
  {
    !IsWhitespace(src[p]) &&
    (IsLetter(src[p]) ==> p + |text| == WordEnd(src, p) && kind == WordKind(keywords, text)) &&
    (IsDigit(src[p]) ==> p + |text| == DigitsEnd(src, p) && kind == IntConst) &&
    (SingleKind(src[p]).Some? ==> kind == SingleKind(src[p]).value && text == [src[p]]) &&
    (src[p] == ':' ==> kind == Becomes && text == ":=") &&
    (src[p] in "<>" ==> kind == Rop && (|text| == 2 <==> p + 1 < |src| && src[p + 1] == '='))
  }

  /** Token i of a scan from pos, starting at ss[i], is classified. */
  predicate ClassifiedAt(keywords: map<string, int>, src: string, ts: seq<Token>, ss: seq<nat>, pos: nat, i: int) {
    0 <= i < |ts| && i < |ss| && pos <= ss[i] < |src| &&
    TokenClassified(keywords, src, ss[i], ts[i].kind, ts[i].value)
  }

  /** The token one step recognises is classified. */
  lemma NextClassified(keywords: map<string, int>, src: string, pos: nat)
    requires pos < |src| && Next(keywords, src, pos).0.Some?
    ensures var v := Next(keywords, src, pos).0.value; TokenClassified(keywords, src, pos, v.0, v.1)
  {
  }

  /** Every token of a scan is classified. */
  lemma {:induction false} ScanClassifies(keywords: map<string, int>, src: string, pos: nat, line: int)
    requires pos <= |src|
    ensures var ts, ss := Scan(keywords, src, pos, line), Starts(keywords, src, pos);
      |ss| == |ts| && forall i :: 0 <= i < |ts| ==> ClassifiedAt(keywords, src, ts, ss, pos, i)
    decreases |src| - pos
  {
    if pos < |src| {
      var (t, next) := Next(keywords, src, pos);
      var line' := LineAfter(src, pos, line);
      ScanClassifies(keywords, src, next, line');
      ScanSplit(keywords, src, pos, line);
      var rest, rs := Scan(keywords, src, next, line'), Starts(keywords, src, next);
      var ts, ss := Scan(keywords, src, pos, line), Starts(keywords, src, pos);
      if t.Some? {
        NextClassified(keywords, src, pos);
        forall i | 0 <= i < |ts| ensures ClassifiedAt(keywords, src, ts, ss, pos, i) {
          if i > 0 {
            assert ClassifiedAt(keywords, src, rest, rs, next, i - 1);
            assert ts[i] == rest[i - 1] && ss[i] == rs[i - 1];
          }
        }
      } else {
        forall i | 0 <= i < |ts| ensures ClassifiedAt(keywords, src, ts, ss, pos, i) {
          assert ClassifiedAt(keywords, src, rest, rs, next, i);
        }
      }
    }
  }

  /** The reserved words are typed apart from identifiers and from each other. */
  lemma KeywordsAreReserved()
    ensures forall w :: w in KeywordTable() ==> KeywordTable()[w] != Ident && KeywordTable()[w] != IntConst
    ensures |KeywordTable()| == 10
  {
    // The table built one entry at a time; each word is new when it is
    // added (words of one length differ in their first letter).
    var m := map["if" := SyIf];
    assert "then" !in m;
    var m2 := m["then" := SyThen];
    assert "else" != "then" by { assert "else"[0] != "then"[0]; }
    assert "else" !in m2;
    var m3 := m2["else" := SyElse];
    assert "while" !in m3;
    var m4 := m3["while" := SyWhile];
    assert "begin" != "while" by { assert "begin"[0] != "while"[0]; }
    assert "begin" !in m4;
    var m5 := m4["begin" := SyBegin];
    assert "do" != "if" by { assert "do"[0] != "if"[0]; }
    assert "do" !in m5;
    var m6 := m5["do" := SyDo];
    assert "end" !in m6;
    var m7 := m6["end" := SyEnd];
    assert "and" != "end" by { assert "and"[0] != "end"[0]; }
    assert "and" !in m7;
    var m8 := m7["and" := OpAnd];
    assert "or" != "if" by { assert "or"[0] != "if"[0]; }
    assert "or" != "do" by { assert "or"[0] != "do"[0]; }
    assert "or" !in m8;
    var m9 := m8["or" := OpOr];
    assert "not" != "end" by { assert "not"[0] != "end"[0]; }
    assert "not" != "and" by { assert "not"[0] != "and"[0]; }
    assert "not" !in m9;
    assert KeywordTable() == m9["not" := OpNot];
  }

  /** A step passes a newline only when it skips one. */
  lemma NextNewlines(keywords: map<string, int>, src: string, pos: nat)
    requires pos < |src|
    ensures var next := Next(keywords, src, pos).1;
      Newlines(src[..next]) == Newlines(src[..pos]) + if src[pos] == '\n' then 1 else 0
  {
    var (t, next) := Next(keywords, src, pos);
    NextHasNoWhitespace(keywords, src, pos);
    if t.Some? {
      forall k | pos <= k < next ensures src[k] != '\n' {
        assert src[k] == t.value.1[k - pos];
      }
    }
    NewlinesStep(src, pos, next);
  }

  /** Line counting: each token's line is the starting line plus the number
      of newlines between pos and the token's start. */
  lemma {:induction false} ScanLines(keywords: map<string, int>, src: string, pos: nat, line: int)
    requires pos <= |src|
    ensures var ts, ss := Scan(keywords, src, pos, line), Starts(keywords, src, pos);
      |ss| == |ts| &&
      forall i :: 0 <= i < |ts| ==>
        pos <= ss[i] <= |src| && ts[i].line == line + Newlines(src[..ss[i]]) - Newlines(src[..pos])
    decreases |src| - pos
  {
    if pos < |src| {
      var (t, next) := Next(keywords, src, pos);
      var line' := LineAfter(src, pos, line);
      ScanLines(keywords, src, next, line');
      NextNewlines(keywords, src, pos);
      var rest, rs := Scan(keywords, src, next, line'), Starts(keywords, src, next);
      if t.Some? {
        var ts, ss := Scan(keywords, src, pos, line), Starts(keywords, src, pos);
        assert ts == [Token(t.value.0, t.value.1, line)] + rest;
        assert ss == [pos] + rs;
        assert forall i :: 1 <= i < |ts| ==> ts[i] == rest[i - 1] && ss[i] == rs[i - 1];
      }
    }
  }

  /** Line numbers never decrease along a scan. */
  lemma {:induction false} ScanLinesIncrease(keywords: map<string, int>, src: string, pos: nat, line: int)
    requires pos <= |src|
    ensures var ts := Scan(keywords, src, pos, line);
      (forall i :: 0 <= i < |ts| ==> line <= ts[i].line) &&
      (forall i, j :: 0 <= i < j < |ts| ==> ts[i].line <= ts[j].line)
    decreases |src| - pos
  {
    if pos < |src| {
      var (t, next) := Next(keywords, src, pos);
      var line' := LineAfter(src, pos, line);
      ScanLinesIncrease(keywords, src, next, line');
      ScanSplit(keywords, src, pos, line);
      var rest, ts := Scan(keywords, src, next, line'), Scan(keywords, src, pos, line);
      assert line <= line';
      if t.Some? {
        forall i | 0 <= i < |ts| ensures line <= ts[i].line {
          if i > 0 {
            assert ts[i] == rest[i - 1];
          }
        }
        forall i, j | 0 <= i < j < |ts| ensures ts[i].line <= ts[j].line {
          assert ts[j] == rest[j - 1];
          if i > 0 {
            assert ts[i] == rest[i - 1];
          }
        }
      }
    }
  }

  class Lexer {
    var keywords: map<string, int>

    constructor()
      ensures keywords == KeywordTable()
    {
      keywords := map[];
      new;
      InitKeywords();
      assert map[] + KeywordTable() == KeywordTable();
    }

    /** initKeywords: enters the ten reserved words, keeping other entries. */
    method InitKeywords()
      modifies this
      ensures keywords == old(keywords) + KeywordTable()
    {
      keywords := keywords + KeywordTable();
    }

    /** The run of letters and digits from pos on. */
    method ReadWord(source: string, pos: nat) returns (word: string, next: nat)
      requires pos <= |source|
      ensures next == WordEnd(source, pos) && word == source[pos..next]
    {
      word := "";
      next := pos;
      while next < |source| && (IsLetter(source[next]) || IsDigit(source[next]))
        invariant pos <= next <= WordEnd(source, pos)
        invariant word == source[pos..next]
        invariant WordEnd(source, next) == WordEnd(source, pos)
        decreases |source| - next
      {
        word := word + [source[next]];
        next := next + 1;
      }
    }

    /** The run of digits from pos on. */
    method ReadNumber(source: string, pos: nat) returns (number: string, next: nat)
      requires pos <= |source|
      ensures next == DigitsEnd(source, pos) && number == source[pos..next]
    {
      number := "";
      next := pos;
      while next < |source| && IsDigit(source[next])
        invariant pos <= next <= DigitsEnd(source, pos)
        invariant number == source[pos..next]
        invariant DigitsEnd(source, next) == DigitsEnd(source, pos)
        decreases |source| - next
      {
        number := number + [source[next]];
        next := next + 1;
      }
    }

    /** The switch of tokenize's loop. */
    method ReadOperator(source: string, pos: nat) returns (t: Option<(int, string)>, next: nat)
      requires pos < |source|
      ensures (t, next) == NextOperator(source, pos)
    {
      var c := source[pos];
      match c {
        case '+' => t, next := Some((Plus, "+")), pos + 1;
        case '*' => t, next := Some((Times, "*")), pos + 1;
        case '(' => t, next := Some((LParent, "(")), pos + 1;
        case ')' => t, next := Some((RParent, ")")), pos + 1;
        case ';' => t, next := Some((SemicolonType, ";")), pos + 1;
        case '#' => t, next := Some((Jinghao, "#")), pos + 1;
        case '~' => t, next := Some((Special, "~")), pos + 1;
        case ':' =>
          if pos + 1 < |source| && source[pos + 1] == '=' {
            t, next := Some((Becomes, ":=")), pos + 2;
          } else {
            t, next := None, pos + 1;
          }
        case '>' =>
          if pos + 1 < |source| && source[pos + 1] == '=' {
            t, next := Some((Rop, ">=")), pos + 2;
          } else {
            t, next := Some((Rop, ">")), pos + 1;
          }
        case '<' =>
          if pos + 1 < |source| && source[pos + 1] == '=' {
            t, next := Some((Rop, "<=")), pos + 2;
          } else {
            t, next := Some((Rop, "<")), pos + 1;
          }
        case '=' => t, next := Some((Rop, "=")), pos + 1;
        case _ => t, next := None, pos + 1;
      }
    }

    /** tokenize: the scan of the whole source from line 1. */
    method Tokenize(source: string) returns (tokens: seq<Token>)
      ensures tokens == Scan(keywords, source, 0, 1)
    {
      tokens := [];
      var line := 1;
      var pos := 0;
      while pos < |source|
        invariant 0 <= pos <= |source|
        invariant Scan(keywords, source, 0, 1) == tokens + Scan(keywords, source, pos, line)
        decreases |source| - pos
      {
        var c := source[pos];
        ScanStep(tokens, keywords, source, pos, line);
        if IsWhitespace(c) {
          if c == '\n' {
            line := line + 1;
          }
          pos := pos + 1;
        } else if IsLetter(c) {
          var word;
          word, pos := ReadWord(source, pos);
          if word in keywords {
            tokens := tokens + [Token(keywords[word], word, line)];
          } else {
            tokens := tokens + [Token(Ident, word, line)];
          }
        } else if IsDigit(c) {
          var number;
          number, pos := ReadNumber(source, pos);
          tokens := tokens + [Token(IntConst, number, line)];
        } else {
          var t;
          t, pos := ReadOperator(source, pos);
          if t.Some? {
            tokens := tokens + [Token(t.value.0, t.value.1, line)];
          }
        }
      }
    }
  }
}

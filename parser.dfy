/**
 * The recursive-descent Parser of parser.cpp and the quadruples it emits
 * while it parses.  Quadruples are numbered from 100; every entry begins
 * with its own number, jumps are emitted with placeholder targets and
 * backpatched in place once the target is known.
 */
module Parser {
  import opened Text
  import opened Lexer

  /** The text generateQuadruple emits: the operands are written only for
      "+", "*" and ":=". */
  function QuadText(idx: int, op: string, arg1: string, arg2: string, result: string): string {
    Label(idx) +
    ((if op == "+" || op == "*" || op == ":=" then op + "," + arg1 + ", " + arg2 + ", " + result else "") + ")")
  }

  /** The text generateJump emits. */
  function JumpText(idx: int, op: string, arg1: string, arg2: string, target: int): string {
    Label(idx) + ("j" + op + ", " + arg1 + ", " + arg2 + ", " + IntToString(target) + ")")
  }

  /** The text backPatch writes over entry j. */
  function PatchText(j: int, target: int): string {
    Label(j) + ("j, , , " + IntToString(target) + ")")
  }

  /** What an entry begins with: its number and " (". */
  function Label(idx: int): string {
    IntToString(idx) + " ("
  }

  /** Entry s carries the number idx. */
  predicate Numbered(idx: int, s: string) {
    |Label(idx)| <= |s| && s[..|Label(idx)|] == Label(idx)
  }

  /** Entry k of q carries the number 100 + k. */
  predicate EntryNumbered(q: seq<string>, k: int) {
    0 <= k < |q| && Numbered(100 + k, q[k])
  }

  /** Every entry of q carries its own number. */
  predicate EntriesNumbered(q: seq<string>) {
    forall k :: 0 <= k < |q| ==> EntryNumbered(q, k)
  }

  lemma LabelPrefix(idx: int, rest: string)
    ensures Numbered(idx, Label(idx) + rest)
  {
    assert (Label(idx) + rest)[..|Label(idx)|] == Label(idx);
  }

  /** Every text the parser writes is numbered by its index argument. */
  lemma QuadTextNumbered(idx: int, op: string, a1: string, a2: string, r: string)
    ensures Numbered(idx, QuadText(idx, op, a1, a2, r))
  {
    var body := if op == "+" || op == "*" || op == ":=" then op + "," + a1 + ", " + a2 + ", " + r else "";
    LabelPrefix(idx, body + ")");
  }

  lemma JumpTextNumbered(idx: int, op: string, a1: string, a2: string, t: int)
    ensures Numbered(idx, JumpText(idx, op, a1, a2, t))
  {
    LabelPrefix(idx, "j" + op + ", " + a1 + ", " + a2 + ", " + IntToString(t) + ")");
  }

  /** A backpatched entry is the plain jump generateJump writes with no
      operator and no operands, and so is numbered too. */
  lemma PatchTextIsJump(idx: int, t: int)
    ensures PatchText(idx, t) == JumpText(idx, "", "", "", t)
    ensures Numbered(idx, PatchText(idx, t))
  {
    assert "j" + "" + ", " + "" + ", " + "" + ", " == "j, , , ";
    JumpTextNumbered(idx, "", "", "", t);
  }

  predicate NumeralChar(c: char) {
    c == '-' || '0' <= c <= '9'
  }

  /** The longest prefix of s made of digits and minus signs. */
  function NumberPart(s: string): string {
    if |s| == 0 || !NumeralChar(s[0]) then "" else [s[0]] + NumberPart(s[1..])
  }

  lemma IntToStringChars(i: int)
    ensures forall k :: 0 <= k < |IntToString(i)| ==> NumeralChar(IntToString(i)[k])
  {
    NatToStringShape(if i < 0 then -i else i);
  }

  lemma {:induction false} NumberPartOf(x: string, rest: string)
    requires forall k :: 0 <= k < |x| ==> NumeralChar(x[k])
    ensures NumberPart(x + " (" + rest) == x
    decreases |x|
  {
    if |x| > 0 {
      assert (x + " (" + rest)[1..] == x[1..] + " (" + rest;
      NumberPartOf(x[1..], rest);
    } else {
      assert (x + " (" + rest)[0] == ' ';
    }
  }

  /** An entry's number can be read back: no entry carries two numbers. */
  lemma NumberedUnique(i: int, j: int, s: string)
    requires Numbered(i, s) && Numbered(j, s)
    ensures i == j
  {
    IntToStringChars(i);
    IntToStringChars(j);
    assert s == IntToString(i) + " (" + s[|Label(i)|..];
    assert s == IntToString(j) + " (" + s[|Label(j)|..];
    NumberPartOf(IntToString(i), s[|Label(i)|..]);
    NumberPartOf(IntToString(j), s[|Label(j)|..]);
    IntToStringInjective(i, j);
  }

  /** The entries the parser has emitted, as values: what generateQuadruple
      and generateJump were given.  Each is rendered as the text that is
      stored. */
  datatype Entry =
    | Quad(idx: int, op: string, arg1: string, arg2: string, result: string)
    | Jump(idx: int, op: string, arg1: string, arg2: string, target: int)

  function Render(e: Entry): string {
    match e
    case Quad(idx, op, a1, a2, r) => QuadText(idx, op, a1, a2, r)
    case Jump(idx, op, a1, a2, t) => JumpText(idx, op, a1, a2, t)
  }

  /** The entry backPatch writes: a plain jump, rendered as PatchText. */
  function Patch(j: int, target: int): Entry {
    Jump(j, "", "", "", target)
  }

  lemma PatchRendered(j: int, target: int)
    ensures Render(Patch(j, target)) == PatchText(j, target)
  {
    PatchTextIsJump(j, target);
  }

  /** The conditional jump numbered idx whose target skips the entry after it. */
  predicate IsCondJump(e: Entry, idx: int) {
    e.Jump? && e.idx == idx && e.target == idx + 2
  }

  /** Entry k is numbered 100 + k. */
  predicate IndexedFrom100(es: seq<Entry>) {
    forall k :: 0 <= k < |es| ==> es[k].idx == 100 + k
  }

  predicate RenderedAt(q: seq<string>, es: seq<Entry>, k: int) {
    0 <= k < |q| && k < |es| && q[k] == Render(es[k])
  }

  /** The stored texts are the rendered entries. */
  predicate Renders(q: seq<string>, es: seq<Entry>) {
    |q| == |es| && forall k :: 0 <= k < |es| ==> RenderedAt(q, es, k)
  }

  lemma RendersAppend(q: seq<string>, es: seq<Entry>, e: Entry)
    requires Renders(q, es)
    ensures Renders(q + [Render(e)], es + [e])
  {
    forall k | 0 <= k < |es| + 1 ensures RenderedAt(q + [Render(e)], es + [e], k) {
      if k < |es| {
        assert RenderedAt(q, es, k);
      }
    }
  }

  lemma RendersOverwrite(q: seq<string>, es: seq<Entry>, j: int, e: Entry)
    requires Renders(q, es) && 0 <= j < |es|
    ensures Renders(q[j := Render(e)], es[j := e])
  {
    var q', es' := q[j := Render(e)], es[j := e];
    forall k | 0 <= k < |es| ensures RenderedAt(q', es', k) {
      if k != j {
        assert RenderedAt(q, es, k);
      }
    }
  }

  /** Every rendered entry carries its number, so the stored list is
      numbered from 100. */
  lemma RenderNumbered(e: Entry)
    ensures Numbered(e.idx, Render(e))
  {
    match e
    case Quad(idx, op, a1, a2, r) => QuadTextNumbered(idx, op, a1, a2, r);
    case Jump(idx, op, a1, a2, t) => JumpTextNumbered(idx, op, a1, a2, t);
  }

  lemma RendersNumbered(q: seq<string>, es: seq<Entry>)
    requires Renders(q, es) && IndexedFrom100(es)
    ensures EntriesNumbered(q)
  {
    forall k | 0 <= k < |q| ensures EntryNumbered(q, k) {
      assert RenderedAt(q, es, k);
      RenderNumbered(es[k]);
    }
  }

  // Entries already emitted are never touched by what comes after them.

  predicate SameAt<T(==)>(a: seq<T>, b: seq<T>, k: int) {
    0 <= k < |a| && k < |b| && a[k] == b[k]
  }

  /** a is a prefix of b. */
  predicate Prefix<T(==)>(a: seq<T>, b: seq<T>) {
    |a| <= |b| && forall k :: 0 <= k < |a| ==> SameAt(a, b, k)
  }

  lemma PrefixTrans<T>(a: seq<T>, b: seq<T>, c: seq<T>)
    requires Prefix(a, b) && Prefix(b, c)
    ensures Prefix(a, c)
  {
    forall k | 0 <= k < |a| ensures SameAt(a, c, k) {
      assert SameAt(a, b, k) && SameAt(b, c, k);
    }
  }

  lemma PrefixAppend<T>(a: seq<T>, b: seq<T>, s: T)
    requires Prefix(a, b)
    ensures Prefix(a, b + [s]) && Prefix(b, b + [s])
  {
    forall k | 0 <= k < |a| ensures SameAt(a, b + [s], k) {
      assert SameAt(a, b, k);
    }
    forall k | 0 <= k < |b| ensures SameAt(b, b + [s], k) {
    }
  }

  lemma PrefixRefl<T>(a: seq<T>)
    ensures Prefix(a, a)
  {
    forall k | 0 <= k < |a| ensures SameAt(a, a, k) {
    }
  }

  /** Overwriting an entry past the end of a keeps a a prefix. */
  lemma PrefixOverwrite<T>(a: seq<T>, b: seq<T>, j: int, s: T)
    requires Prefix(a, b) && |a| <= j < |b|
    ensures Prefix(a, b[j := s])
  {
    var b' := b[j := s];
    forall k | 0 <= k < |a| ensures SameAt(a, b', k) {
      assert SameAt(a, b, k);
    }
  }

  lemma PrefixAt<T>(a: seq<T>, b: seq<T>, k: int)
    requires Prefix(a, b) && 0 <= k < |a|
    ensures b[k] == a[k]
  {
    assert SameAt(a, b, k);
  }

  lemma PrefixCutAt<T>(a: seq<T>, n: int, b: seq<T>, k: int)
    requires 0 <= k < n <= |a| && Prefix(a[..n], b)
    ensures b[k] == a[k]
  {
    assert SameAt(a[..n], b, k);
  }

  /** A prefix of b that fits in its first n entries is a prefix of
      whatever b[..n] is a prefix of. */
  lemma PrefixCut<T>(a: seq<T>, b: seq<T>, n: int, c: seq<T>)
    requires Prefix(a, b) && |a| <= n <= |b| && Prefix(b[..n], c)
    ensures Prefix(a, c)
  {
    forall k | 0 <= k < |a| ensures SameAt(a, c, k) {
      assert SameAt(a, b, k) && SameAt(b[..n], c, k);
    }
  }

  /** Extending the entries extends the stored texts. */
  lemma RendersPrefix(q0: seq<string>, e0: seq<Entry>, q: seq<string>, e: seq<Entry>)
    requires Renders(q0, e0) && Renders(q, e) && Prefix(e0, e)
    ensures Prefix(q0, q)
  {
    forall k | 0 <= k < |q0| ensures SameAt(q0, q, k) {
      assert RenderedAt(q0, e0, k) && RenderedAt(q, e, k) && SameAt(e0, e, k);
    }
  }

  /** The text stored at k is the rendering of entry k. */
  lemma RenderedText(q: seq<string>, es: seq<Entry>, k: int)
    requires Renders(q, es) && 0 <= k < |es|
    ensures q[k] == Render(es[k])
  {
    assert RenderedAt(q, es, k);
  }

  /** The entries of es past e0 are arithmetic quadruples, "+" or "*",
      storing into the temporaries numbered from t0 in order. */
  predicate TempsFrom(e0: seq<Entry>, t0: int, es: seq<Entry>) {
    |e0| <= |es| &&
    forall k :: |e0| <= k < |es| ==>
      es[k].Quad? && es[k].op in {"+", "*"} && es[k].result == TempName(t0 + k - |e0|)
  }

  lemma TempsTrans(e0: seq<Entry>, t0: int, e1: seq<Entry>, t1: int, e2: seq<Entry>)
    requires TempsFrom(e0, t0, e1) && |e1| - |e0| == t1 - t0
    requires Prefix(e1, e2) && TempsFrom(e1, t1, e2)
    ensures TempsFrom(e0, t0, e2)
  {
    forall k | |e0| <= k < |e2|
      ensures e2[k].Quad? && e2[k].op in {"+", "*"} && e2[k].result == TempName(t0 + k - |e0|)
    {
      if k < |e1| {
        assert SameAt(e1, e2, k);
      }
    }
  }

  lemma TempsAppend(e0: seq<Entry>, t0: int, es: seq<Entry>, t: int, q: Entry)
    requires TempsFrom(e0, t0, es) && t == t0 + |es| - |e0|
    requires q.Quad? && q.op in {"+", "*"} && q.result == TempName(t)
    ensures TempsFrom(e0, t0, es + [q])
  {
  }

  /** One "+" or "*" round of an expression: the entries e0..e1 of the
      left operand, those of the right operand e1..e2, and the quadruple q
      into temporary t2 make up an expression whose value is T<t2>. */
  lemma RoundDone(tokens: seq<Token>, start: int, p: int, e0: seq<Entry>, t0: int,
                  e1: seq<Entry>, t1: int, e2: seq<Entry>, t2: int, q: Entry)
    requires 0 <= start <= p <= |tokens|
    requires |e1| - |e0| == t1 - t0 && TempsFrom(e0, t0, e1)
    requires Prefix(e1, e2) && |e2| - |e1| == t2 - t1 && TempsFrom(e1, t1, e2)
    requires q.Quad? && q.op in {"+", "*"} && q.result == TempName(t2)
    ensures |e2 + [q]| - |e0| == t2 + 1 - t0 && TempsFrom(e0, t0, e2 + [q])
    ensures OperandOf(tokens, start, p, t0, t2 + 1, q.result)
  {
    TempsTrans(e0, t0, e1, t1, e2);
    TempsAppend(e0, t0, e2, t2, q);
  }

  /** The value an expression spanning tokens[a..b] leaves behind, when
      the temporaries t0 up to t1 were minted for it: the last of them, or,
      when none was, an identifier or a constant among its tokens.  The
      temporary case is written over n so that TempName is only unfolded
      where a caller asks for it. */
  ghost predicate OperandOf(tokens: seq<Token>, a: int, b: int, t0: int, t1: int, r: string)
    requires 0 <= a <= b <= |tokens|
  {
    (t1 > t0 ==> forall n {:trigger TempName(n)} :: n == t1 - 1 ==> r == TempName(n)) &&
    (t1 == t0 ==> exists p :: a <= p < b && tokens[p].kind in {Ident, IntConst} && tokens[p].value == r)
  }

  /** starts lists where the statements before the end marker at endAt
      begin: the first at 0, in increasing order, each at begin, while, if
      or an identifier; with no statement the marker is the first token. */
  ghost predicate StatementStarts(tokens: seq<Token>, starts: seq<nat>, endAt: nat) {
    (|starts| == 0 ==> endAt == 0) &&
    (|starts| > 0 ==> starts[0] == 0 && starts[|starts| - 1] < endAt) &&
    (forall i :: 0 <= i < |starts| ==>
      starts[i] < |tokens| && tokens[starts[i]].kind in {SyBegin, SyWhile, SyIf, Ident}) &&
    (forall i :: 0 < i < |starts| ==> starts[i - 1] < starts[i])
  }

  class Parser {
    var quadruples: seq<string>
    var quadIndex: int
    var tempVarCounter: int
    var expressionResult: string
    /** The entries whose renderings quadruples holds. */
    ghost var entries: seq<Entry>

    /** quadIndex is the number of the next entry, entry k is numbered
        100 + k, quadruples holds the rendered entries, and temporaries are
        numbered from 1. */
    ghost predicate Valid()
      reads this
    {
      quadIndex == 100 + |entries| && tempVarCounter >= 1 &&
      IndexedFrom100(entries) && Renders(quadruples, entries)
    }

    /** The entries of e0 are untouched, temporaries were not reused, and
        the parser is still valid. */
    ghost predicate Extends(e0: seq<Entry>, t0: int)
      reads this
    {
      Valid() && Prefix(e0, entries) && t0 <= tempVarCounter
    }

    constructor()
      ensures Valid() && quadruples == [] && entries == []
      ensures quadIndex == 100 && tempVarCounter == 1 && expressionResult == ""
    {
      quadruples := [];
      entries := [];
      quadIndex := 100;
      tempVarCounter := 1;
      expressionResult := "";
    }

    /** Every entry text carries its own number. */
    lemma ValidNumbered()
      requires Valid()
      ensures |quadruples| == quadIndex - 100 && EntriesNumbered(quadruples)
    {
      RendersNumbered(quadruples, entries);
    }

    /** Appends e, which is numbered quadIndex, and its text. */
    method Append(e: Entry)
      requires Valid() && e.idx == quadIndex
      modifies this
      ensures Extends(old(entries), old(tempVarCounter))
      ensures entries == old(entries) + [e] && quadruples == old(quadruples) + [Render(e)]
      ensures quadIndex == old(quadIndex) + 1
      ensures tempVarCounter == old(tempVarCounter) && expressionResult == old(expressionResult)
    {
      RendersAppend(quadruples, entries, e);
      PrefixRefl(entries);
      PrefixAppend(entries, entries, e);
      quadruples := quadruples + [Render(e)];
      entries := entries + [e];
      quadIndex := quadIndex + 1;
    }

    /** generateQuadruple: appends one entry numbered quadIndex. */
    method GenerateQuadruple(op: string, arg1: string, arg2: string, result: string)
      requires Valid()
      modifies this
      ensures Extends(old(entries), old(tempVarCounter))
      ensures entries == old(entries) + [Quad(old(quadIndex), op, arg1, arg2, result)]
      ensures quadIndex == old(quadIndex) + 1
      ensures tempVarCounter == old(tempVarCounter) && expressionResult == old(expressionResult)
    {
      Append(Quad(quadIndex, op, arg1, arg2, result));
    }

    /** generateJump: appends one jump entry numbered quadIndex. */
    method GenerateJump(op: string, arg1: string, arg2: string, target: int)
      requires Valid()
      modifies this
      ensures Extends(old(entries), old(tempVarCounter))
      ensures entries == old(entries) + [Jump(old(quadIndex), op, arg1, arg2, target)]
      ensures quadIndex == old(quadIndex) + 1
      ensures tempVarCounter == old(tempVarCounter) && expressionResult == old(expressionResult)
    {
      Append(Jump(quadIndex, op, arg1, arg2, target));
    }

    /** backPatch: rewrites entry j, if it exists, as a plain jump to target. */
    method BackPatch(jumpInstr: int, target: int)
      requires Valid()
      modifies this
      ensures Valid()
      ensures 100 <= jumpInstr < old(quadIndex) ==>
        entries == old(entries)[jumpInstr - 100 := Patch(jumpInstr, target)]
      ensures !(100 <= jumpInstr < old(quadIndex)) ==> entries == old(entries)
      ensures quadIndex == old(quadIndex) && tempVarCounter == old(tempVarCounter)
      ensures expressionResult == old(expressionResult)
    {
      if jumpInstr >= 100 && jumpInstr < quadIndex {
        PatchRendered(jumpInstr, target);
        RendersOverwrite(quadruples, entries, jumpInstr - 100, Patch(jumpInstr, target));
        quadruples := quadruples[jumpInstr - 100 := PatchText(jumpInstr, target)];
        entries := entries[jumpInstr - 100 := Patch(jumpInstr, target)];
      }
    }

    /** The step shared by every "+" and "*" of parseExpression and
        parseTerm: mint "T" + std::to_string(tempVarCounter++), emit the
        quadruple into it, and make it the expression's result. */
    method EmitBinary(op: string, leftOperand: string, rightOperand: string)
      requires Valid()
      modifies this
      ensures Extends(old(entries), old(tempVarCounter))
      ensures entries ==
        old(entries) + [Quad(old(quadIndex), op, leftOperand, rightOperand, TempName(old(tempVarCounter)))]
      ensures quadIndex == old(quadIndex) + 1 && tempVarCounter == old(tempVarCounter) + 1
      ensures expressionResult == TempName(old(tempVarCounter))
    {
      var result := TempName(tempVarCounter);
      tempVarCounter := tempVarCounter + 1;
      GenerateQuadruple(op, leftOperand, rightOperand, result);
      expressionResult := result;
    }

    /** parse: statements up to the end marker "#~"; true only when a
        JINGHAO token is reached and the token after it is "~".  The texts
        already stored are never changed. */
    method Parse(tokens: seq<Token>) returns (ok: bool, ghost endAt: nat, ghost starts: seq<nat>)
      requires Valid()
      modifies this
      ensures Extends(old(entries), old(tempVarCounter))
      ensures Prefix(old(quadruples), quadruples)
      ensures ok ==> endAt + 1 < |tokens| && tokens[endAt].kind == Jinghao && tokens[endAt + 1].value == "~"
      ensures ok ==> StatementStarts(tokens, starts, endAt)
    {
      endAt, starts := 0, [];
      PrefixRefl(entries);
      PrefixRefl(quadruples);
      var pos := 0;
      while pos < |tokens|
        invariant 0 <= pos <= |tokens|
        invariant Extends(old(entries), old(tempVarCounter))
        invariant Prefix(old(quadruples), quadruples)
        invariant StatementStarts(tokens, starts, pos)
        decreases |tokens| - pos
      {
        var kind := tokens[pos].kind;
        ghost var e1 := entries;
        ghost var start := pos;
        var done: bool;
        if kind == SyBegin {
          done, pos := ParseCompoundStatement(tokens, pos);
        } else if kind == SyWhile {
          ghost var c;
          done, pos, c := ParseWhileStatement(tokens, pos);
        } else if kind == SyIf {
          ghost var f, s;
          done, pos, f, s := ParseIfStatement(tokens, pos);
        } else if kind == Ident {
          done, pos := ParseAssignmentStatement(tokens, pos);
        } else if kind == Jinghao {
          endAt := pos;
          pos := pos + 1;
          if pos < |tokens| && tokens[pos].value == "~" {
            return true, endAt, starts;
          }
          return false, endAt, starts;
        } else {
          return false, endAt, starts;
        }
        PrefixTrans(old(entries), e1, entries);
        RendersPrefix(old(quadruples), old(entries), quadruples, entries);
        if !done {
          return false, endAt, starts;
        }
        starts := starts + [start];
      }
      return false, endAt, starts;
    }

    /** parseCompoundStatement: begin, then if, while and assignment
        statements with optional semicolons, then end.  A nested begin is
        not accepted directly inside the block. */
    method ParseCompoundStatement(tokens: seq<Token>, pos: nat) returns (ok: bool, pos': nat)
      requires Valid() && pos < |tokens|
      modifies this
      ensures Extends(old(entries), old(tempVarCounter))
      ensures pos <= pos' <= |tokens|
      ensures ok ==> pos < pos' && tokens[pos].kind == SyBegin && tokens[pos' - 1].kind == SyEnd
      decreases |tokens| - pos, 4
    {
      PrefixRefl(entries);
      if tokens[pos].kind != SyBegin {
        return false, pos;
      }
      pos' := pos + 1;
      while pos' < |tokens| && tokens[pos'].kind != SyEnd
        invariant pos < pos' <= |tokens|
        invariant Extends(old(entries), old(tempVarCounter))
        decreases |tokens| - pos'
      {
        var kind := tokens[pos'].kind;
        ghost var e1 := entries;
        var done: bool;
        if kind == SyIf {
          ghost var f, s;
          done, pos', f, s := ParseIfStatement(tokens, pos');
        } else if kind == SyWhile {
          ghost var c;
          done, pos', c := ParseWhileStatement(tokens, pos');
        } else if kind == Ident {
          done, pos' := ParseAssignmentStatement(tokens, pos');
        } else if kind == SemicolonType {
          pos' := pos' + 1;
          continue;
        } else {
          // Inside the loop the token is never end, so this is always an error.
          return false, pos';
        }
        PrefixTrans(old(entries), e1, entries);
        if !done {
          return false, pos';
        }
        if pos' < |tokens| && tokens[pos'].kind == SemicolonType {
          pos' := pos' + 1;
        }
      }
      if pos' >= |tokens| || tokens[pos'].kind != SyEnd {
        return false, pos';
      }
      return true, pos' + 1;
    }

    /** parseStatement: dispatch on the first token. */
    method ParseStatement(tokens: seq<Token>, pos: nat) returns (ok: bool, pos': nat)
      requires Valid() && pos <= |tokens|
      modifies this
      ensures Extends(old(entries), old(tempVarCounter))
      ensures pos <= pos' <= |tokens|
      ensures ok ==> pos < pos'
      ensures ok ==> tokens[pos].kind in {SyIf, SyWhile, SyBegin, Ident}
      decreases |tokens| - pos, 5
    {
      PrefixRefl(entries);
      if pos >= |tokens| {
        return false, pos;
      }
      var kind := tokens[pos].kind;
      if kind == SyIf {
        ghost var f, s;
        ok, pos', f, s := ParseIfStatement(tokens, pos);
      } else if kind == SyWhile {
        ghost var c;
        ok, pos', c := ParseWhileStatement(tokens, pos);
      } else if kind == SyBegin {
        ok, pos' := ParseCompoundStatement(tokens, pos);
      } else if kind == Ident {
        ok, pos' := ParseAssignmentStatement(tokens, pos);
      } else {
        ok, pos' := false, pos;
      }
    }

    /** parseIfStatement: the condition's jump lands on the then-part, the
        placeholder after it is patched to jump just past the skip-else
        jump, and the skip-else jump is patched to the end of the
        statement. */
    method ParseIfStatement(tokens: seq<Token>, pos: nat)
      returns (ok: bool, pos': nat, ghost falseAt: int, ghost skipAt: int)
      requires Valid() && pos < |tokens|
      modifies this
      ensures Extends(old(entries), old(tempVarCounter))
      ensures pos < pos' <= |tokens|
      ensures ok ==>
        old(quadIndex) < falseAt < skipAt < quadIndex &&
        IsCondJump(entries[falseAt - 101], falseAt - 1) &&
        entries[falseAt - 100] == Patch(falseAt, skipAt + 1) &&
        entries[skipAt - 100] == Patch(skipAt, quadIndex)
      decreases |tokens| - pos, 4
    {
      ok, pos' := false, pos + 1;
      falseAt, skipAt := 0, 0;
      ghost var e0 := entries;
      var done;
      ghost var ropAt, tMid, left, right;
      done, pos', ropAt, tMid, left, right := ParseBooleanExpression(tokens, pos');
      if !done {
        return;
      }
      // The condition's jump is the last entry of e1.
      ghost var e1 := entries;
      ghost var cond := entries[|entries| - 1];
      var falseJump := quadIndex;
      falseAt := falseJump;
      GenerateJump("", "", "", 0);
      PrefixTrans(e0, e1, entries);
      ghost var e2 := entries;
      assert e2[falseJump - 101] == cond;
      var skipElseJump;
      ok, pos', skipElseJump := ParseThenPart(tokens, pos', falseJump);
      PrefixCut(e0, e2, falseJump - 100, entries);
      PrefixCutAt(e2, falseJump - 100, entries, falseJump - 101);
      if !ok {
        return;
      }
      skipAt := skipElseJump;
      ghost var e5 := entries;
      ok, pos' := ParseElsePart(tokens, pos', skipElseJump);
      PrefixCut(e0, e5, skipElseJump - 100, entries);
      PrefixCutAt(e5, skipElseJump - 100, entries, falseJump - 100);
      PrefixCutAt(e5, skipElseJump - 100, entries, falseJump - 101);
    }

    /** The middle of parseIfStatement: "then statement", then the
        skip-else placeholder jump, and the false jump patched to land just
        past it.  Only the entries from the false jump on may change. */
    method ParseThenPart(tokens: seq<Token>, pos: nat, falseJump: int)
      returns (ok: bool, pos': nat, skipElseJump: int)
      requires Valid() && 100 <= falseJump == quadIndex - 1 && pos <= |tokens|
      modifies this
      ensures Valid() && old(tempVarCounter) <= tempVarCounter && old(quadIndex) <= quadIndex
      ensures Prefix(old(entries)[..falseJump - 100], entries)
      ensures pos <= pos' <= |tokens|
      ensures ok ==>
        falseJump < skipElseJump < quadIndex &&
        entries[falseJump - 100] == Patch(falseJump, skipElseJump + 1)
      decreases |tokens| - pos, 4
    {
      ghost var e0 := entries;
      ghost var cut := e0[..falseJump - 100];
      assert Prefix(cut, e0) by {
        forall k | 0 <= k < |cut| ensures SameAt(cut, e0, k) {
        }
      }
      ok, pos', skipElseJump := false, pos, 0;
      if pos' >= |tokens| || tokens[pos'].kind != SyThen {
        return;
      }
      pos' := pos' + 1;
      var done;
      done, pos' := ParseStatement(tokens, pos');
      PrefixTrans(cut, e0, entries);
      if !done {
        return;
      }
      skipElseJump := quadIndex;
      ghost var e3 := entries;
      GenerateJump("", "", "", 0);
      PrefixTrans(cut, e3, entries);
      ghost var e4 := entries;
      BackPatch(falseJump, quadIndex);
      PrefixOverwrite(cut, e4, falseJump - 100, Patch(falseJump, skipElseJump + 1));
      ok := true;
    }

    /** The end of parseIfStatement: an optional "else statement", then the
        skip-else jump patched to the entry after the statement.  Only the
        entries from the skip-else jump on may change. */
    method ParseElsePart(tokens: seq<Token>, pos: nat, skipElseJump: int) returns (ok: bool, pos': nat)
      requires Valid() && 100 <= skipElseJump < quadIndex && pos <= |tokens|
      modifies this
      ensures Valid() && old(tempVarCounter) <= tempVarCounter && old(quadIndex) <= quadIndex
      ensures Prefix(old(entries)[..skipElseJump - 100], entries)
      ensures pos <= pos' <= |tokens|
      ensures ok ==> entries[skipElseJump - 100] == Patch(skipElseJump, quadIndex)
      decreases |tokens| - pos, 3
    {
      ghost var e0 := entries;
      ghost var cut := e0[..skipElseJump - 100];
      assert Prefix(cut, e0) by {
        forall k | 0 <= k < |cut| ensures SameAt(cut, e0, k) {
        }
      }
      pos' := pos;
      if pos' < |tokens| && tokens[pos'].kind == SyElse {
        pos' := pos' + 1;
        var done;
        done, pos' := ParseStatement(tokens, pos');
        PrefixTrans(cut, e0, entries);
        if !done {
          return false, pos';
        }
      }
      ghost var e1 := entries;
      BackPatch(skipElseJump, quadIndex);
      PrefixOverwrite(cut, e1, skipElseJump - 100, Patch(skipElseJump, quadIndex));
      ok := true;
    }

    /** parseWhileStatement: the condition (optionally parenthesised), a
        jump that is patched to the end of the loop, the body, and a jump
        back to the first entry of the condition. */
    method ParseWhileStatement(tokens: seq<Token>, pos: nat) returns (ok: bool, pos': nat, ghost condAt: int)
      requires Valid() && pos < |tokens|
      modifies this
      ensures Extends(old(entries), old(tempVarCounter))
      ensures pos < pos' <= |tokens|
      ensures ok ==> (|entries| > 0 &&
        entries[|entries| - 1] == Jump(quadIndex - 1, "", "", "", old(quadIndex)))
      ensures ok ==>
        old(quadIndex) < condAt < quadIndex - 1 &&
        IsCondJump(entries[condAt - 101], condAt - 1) &&
        entries[condAt - 100] == Patch(condAt, quadIndex)
      decreases |tokens| - pos, 4
    {
      ok, condAt := false, 0;
      var startLabel := quadIndex;
      ghost var e0 := entries;
      pos' := pos + 1;
      if pos' < |tokens| && tokens[pos'].kind == LParent {
        pos' := pos' + 1;
      }
      var done;
      ghost var ropAt, tMid, left, right;
      done, pos', ropAt, tMid, left, right := ParseBooleanExpression(tokens, pos');
      if !done {
        return;
      }
      if pos' < |tokens| && tokens[pos'].kind == RParent {
        pos' := pos' + 1;
      }
      // The condition's jump is the last entry of e1.
      ghost var e1 := entries;
      var condJump := quadIndex;
      condAt := condJump;
      var elseLabel := quadIndex + 2;
      GenerateJump("", "", "", elseLabel);
      PrefixTrans(e0, e1, entries);
      ghost var e2 := entries;
      ok, pos' := ParseLoopBody(tokens, pos', condJump, startLabel);
      PrefixCut(e0, e2, condJump - 100, entries);
      PrefixCutAt(e2, condJump - 100, entries, condJump - 101);
    }

    /** The end of parseWhileStatement: "do statement", the jump back to
        startLabel, and the exit jump at condJump patched to the entry after
        it.  Only the entries from the exit jump on may change. */
    method ParseLoopBody(tokens: seq<Token>, pos: nat, condJump: int, startLabel: int)
      returns (ok: bool, pos': nat)
      requires Valid() && 100 <= condJump == quadIndex - 1 && pos <= |tokens|
      modifies this
      ensures Valid() && old(tempVarCounter) <= tempVarCounter && old(quadIndex) <= quadIndex
      ensures Prefix(old(entries)[..condJump - 100], entries)
      ensures pos <= pos' <= |tokens|
      ensures ok ==>
        condJump < quadIndex - 1 &&
        entries[|entries| - 1] == Jump(quadIndex - 1, "", "", "", startLabel) &&
        entries[condJump - 100] == Patch(condJump, quadIndex)
      decreases |tokens| - pos, 4
    {
      ghost var e0 := entries;
      ghost var cut := e0[..condJump - 100];
      assert Prefix(cut, e0) by {
        forall k | 0 <= k < |cut| ensures SameAt(cut, e0, k) {
        }
      }
      ok, pos' := false, pos;
      if pos' >= |tokens| || tokens[pos'].kind != SyDo {
        return;
      }
      pos' := pos' + 1;
      var done;
      done, pos' := ParseStatement(tokens, pos');
      PrefixTrans(cut, e0, entries);
      if !done {
        return;
      }
      ghost var e3 := entries;
      GenerateJump("", "", "", startLabel);
      PrefixTrans(cut, e3, entries);
      var endLabel := quadIndex;
      ghost var e4 := entries;
      BackPatch(condJump, endLabel);
      PrefixOverwrite(cut, e4, condJump - 100, Patch(condJump, endLabel));
      ok := true;
    }

    /** parseAssignmentStatement: identifier := expression, emitting
        "(:=,<result>, , <identifier>)". */
    method ParseAssignmentStatement(tokens: seq<Token>, pos: nat) returns (ok: bool, pos': nat)
      requires Valid() && pos <= |tokens|
      modifies this
      ensures Extends(old(entries), old(tempVarCounter))
      ensures pos <= pos' <= |tokens|
      ensures ok ==> pos + 2 < pos' && tokens[pos].kind == Ident && tokens[pos + 1].kind == Becomes
      ensures ok ==> (|entries| > 0 &&
        entries[|entries| - 1] == Quad(quadIndex - 1, ":=", expressionResult, "", tokens[pos].value))
      decreases |tokens| - pos, 4
    {
      PrefixRefl(entries);
      if pos >= |tokens| || tokens[pos].kind != Ident {
        return false, pos;
      }
      var identifier := tokens[pos].value;
      pos' := pos + 1;
      if pos' >= |tokens| || tokens[pos'].kind != Becomes {
        return false, pos';
      }
      pos' := pos' + 1;
      var done;
      done, pos' := ParseExpression(tokens, pos');
      if !done {
        return false, pos';
      }
      ghost var e1 := entries;
      GenerateQuadruple(":=", expressionResult, "", identifier);
      PrefixTrans(old(entries), e1, entries);
      return true, pos';
    }

    /** What parseExpression, parseTerm and parseFactor promise: the new
        entries are "+" and "*" quadruples into the temporaries minted, one
        each and in order, and the result is the last of them, or an
        identifier or constant of the expression when none was minted. */
    ghost predicate ExpressionDone(tokens: seq<Token>, pos: nat, pos': nat, e0: seq<Entry>, t0: int)
      reads this
      requires pos <= pos' <= |tokens|
    {
      Extends(e0, t0) &&
      |entries| - |e0| == tempVarCounter - t0 &&
      TempsFrom(e0, t0, entries) &&
      OperandOf(tokens, pos, pos', t0, tempVarCounter, expressionResult)
    }
    /** parseExpression: a term, then "+ term" and "* factor" repetitions,
        each emitting one quadruple into a fresh temporary. */
    method ParseExpression(tokens: seq<Token>, pos: nat) returns (ok: bool, pos': nat)
      requires Valid() && pos <= |tokens|
      modifies this
      ensures Extends(old(entries), old(tempVarCounter))
      ensures pos <= pos' <= |tokens|
      ensures ok ==> pos < pos' && ExpressionDone(tokens, pos, pos', old(entries), old(tempVarCounter))
      decreases |tokens| - pos, 2
    {
      var done;
      done, pos' := ParseTerm(tokens, pos);
      if !done {
        return false, pos';
      }
      ghost var e1 := entries;
      ok, pos' := ParseSums(tokens, pos, pos', old(entries), old(tempVarCounter));
      PrefixTrans(old(entries), e1, entries);
      if ok {
        ghost var e2 := entries;
        ok, pos' := ParseProducts(tokens, pos, pos', old(entries), old(tempVarCounter));
        PrefixTrans(old(entries), e2, entries);
      }
    }

    /** parseTerm: a factor, then "+ term" and "* factor" repetitions. */
    method ParseTerm(tokens: seq<Token>, pos: nat) returns (ok: bool, pos': nat)
      requires Valid() && pos <= |tokens|
      modifies this
      ensures Extends(old(entries), old(tempVarCounter))
      ensures pos <= pos' <= |tokens|
      ensures ok ==> pos < pos' && ExpressionDone(tokens, pos, pos', old(entries), old(tempVarCounter))
      decreases |tokens| - pos, 1
    {
      var done;
      done, pos' := ParseFactor(tokens, pos);
      if !done {
        return false, pos';
      }
      ghost var e1 := entries;
      ok, pos' := ParseSums(tokens, pos, pos', old(entries), old(tempVarCounter));
      PrefixTrans(old(entries), e1, entries);
      if ok {
        ghost var e2 := entries;
        ok, pos' := ParseProducts(tokens, pos, pos', old(entries), old(tempVarCounter));
        PrefixTrans(old(entries), e2, entries);
      }
    }

    /** The "+ term" loop that parseExpression and parseTerm both run after
        their first operand: each round parses a term and emits
        "(+,left, right, T<n>)" into a fresh temporary, which becomes the
        left operand of the next round. */
    method ParseSums(tokens: seq<Token>, ghost start: nat, pos: nat, ghost e0: seq<Entry>, ghost t0: int)
      returns (ok: bool, pos': nat)
      requires start < pos <= |tokens| && ExpressionDone(tokens, start, pos, e0, t0)
      modifies this
      ensures Extends(old(entries), old(tempVarCounter))
      ensures pos <= pos' <= |tokens|
      ensures ok ==> ExpressionDone(tokens, start, pos', e0, t0)
      ensures ok ==> pos' == |tokens| || tokens[pos'].kind != Plus
      decreases |tokens| - pos, 0
    {
      PrefixRefl(entries);
      pos' := pos;
      while pos' < |tokens| && tokens[pos'].kind == Plus
        invariant pos <= pos' <= |tokens|
        invariant Extends(old(entries), old(tempVarCounter))
        invariant ExpressionDone(tokens, start, pos', e0, t0)
        decreases |tokens| - pos'
      {
        pos' := pos' + 1;
        var leftOperand := expressionResult;
        ghost var e1, t1 := entries, tempVarCounter;
        var done;
        done, pos' := ParseTerm(tokens, pos');
        PrefixTrans(old(entries), e1, entries);
        if !done {
          return false, pos';
        }
        PrefixTrans(e0, e1, entries);
        var rightOperand := expressionResult;
        ghost var e2, t2 := entries, tempVarCounter;
        EmitBinary("+", leftOperand, rightOperand);
        PrefixTrans(old(entries), e2, entries);
        PrefixTrans(e0, e2, entries);
        RoundDone(tokens, start, pos', e0, t0, e1, t1, e2, t2, entries[|entries| - 1]);
      }
      return true, pos';
    }

    /** The "* factor" loop that parseExpression and parseTerm both run
        after the "+" loop: each round parses a factor and emits
        "(*,left, right, T<n>)" into a fresh temporary. */
    method ParseProducts(tokens: seq<Token>, ghost start: nat, pos: nat, ghost e0: seq<Entry>, ghost t0: int)
      returns (ok: bool, pos': nat)
      requires start < pos <= |tokens| && ExpressionDone(tokens, start, pos, e0, t0)
      modifies this
      ensures Extends(old(entries), old(tempVarCounter))
      ensures pos <= pos' <= |tokens|
      ensures ok ==> ExpressionDone(tokens, start, pos', e0, t0)
      ensures ok ==> pos' == |tokens| || tokens[pos'].kind != Times
      decreases |tokens| - pos, 0
    {
      PrefixRefl(entries);
      pos' := pos;
      while pos' < |tokens| && tokens[pos'].kind == Times
        invariant pos <= pos' <= |tokens|
        invariant Extends(old(entries), old(tempVarCounter))
        invariant ExpressionDone(tokens, start, pos', e0, t0)
        decreases |tokens| - pos'
      {
        pos' := pos' + 1;
        var leftOperand := expressionResult;
        ghost var e1, t1 := entries, tempVarCounter;
        var done;
        done, pos' := ParseFactor(tokens, pos');
        PrefixTrans(old(entries), e1, entries);
        if !done {
          return false, pos';
        }
        PrefixTrans(e0, e1, entries);
        var rightOperand := expressionResult;
        ghost var e2, t2 := entries, tempVarCounter;
        EmitBinary("*", leftOperand, rightOperand);
        PrefixTrans(old(entries), e2, entries);
        PrefixTrans(e0, e2, entries);
        RoundDone(tokens, start, pos', e0, t0, e1, t1, e2, t2, entries[|entries| - 1]);
      }
      return true, pos';
    }

    /** parseFactor: an identifier, a constant, or a parenthesised
        expression. */
    method ParseFactor(tokens: seq<Token>, pos: nat) returns (ok: bool, pos': nat)
      requires Valid() && pos <= |tokens|
      modifies this
      ensures Extends(old(entries), old(tempVarCounter))
      ensures pos <= pos' <= |tokens|
      ensures ok ==> pos < pos' && ExpressionDone(tokens, pos, pos', old(entries), old(tempVarCounter))
      ensures ok ==> tokens[pos].kind in {Ident, IntConst, LParent}
      ensures ok && tokens[pos].kind in {Ident, IntConst} ==>
        pos' == pos + 1 && expressionResult == tokens[pos].value && entries == old(entries)
      ensures ok && tokens[pos].kind == LParent ==> pos + 2 < pos' && tokens[pos' - 1].kind == RParent
      decreases |tokens| - pos, 0
    {
      PrefixRefl(entries);
      if pos >= |tokens| {
        return false, pos;
      }
      var token := tokens[pos];
      if token.kind == Ident || token.kind == IntConst {
        expressionResult := token.value;
        return true, pos + 1;
      } else if token.kind == LParent {
        pos' := pos + 1;
        var done;
        done, pos' := ParseExpression(tokens, pos');
        if !done {
          return false, pos';
        }
        if pos' >= |tokens| || tokens[pos'].kind != RParent {
          return false, pos';
        }
        return true, pos' + 1;
      }
      return false, pos;
    }

    /** parseParenBooleanExpression: ( boolean-expression ). */
    method ParseParenBooleanExpression(tokens: seq<Token>, pos: nat) returns (ok: bool, pos': nat)
      requires Valid() && pos <= |tokens|
      modifies this
      ensures Extends(old(entries), old(tempVarCounter))
      ensures pos <= pos' <= |tokens|
      ensures ok ==> pos < pos' && tokens[pos].kind == LParent && tokens[pos' - 1].kind == RParent
      ensures ok ==> |entries| > 0 && IsCondJump(entries[|entries| - 1], quadIndex - 1)
      decreases |tokens| - pos, 4
    {
      PrefixRefl(entries);
      if pos >= |tokens| || tokens[pos].kind != LParent {
        return false, pos;
      }
      pos' := pos + 1;
      var done;
      ghost var ropAt, tMid, left, right;
      done, pos', ropAt, tMid, left, right := ParseBooleanExpression(tokens, pos');
      if !done {
        return false, pos';
      }
      if pos' >= |tokens| || tokens[pos'].kind != RParent {
        return false, pos';
      }
      return true, pos' + 1;
    }

    /** What parseBooleanExpression promises: the entries past e0 are the
        quadruples of the two expressions, into temporaries from t0, then
        the jump on the relational operator at ropAt, comparing the value
        of the expression before it (temporaries t0 up to tMid) with the
        value of the expression after it. */
    ghost predicate ConditionDone(tokens: seq<Token>, pos: nat, pos': nat, ropAt: nat, tMid: int,
                                  left: string, right: string, e0: seq<Entry>, t0: int)
      reads this
      requires pos <= pos' <= |tokens|
    {
      Extends(e0, t0) && |entries| > |e0| &&
      TempsFrom(e0, t0, entries[..|entries| - 1]) &&
      |entries| - 1 - |e0| == tempVarCounter - t0 &&
      pos < ropAt < pos' && tokens[ropAt].kind == Rop && t0 <= tMid <= tempVarCounter &&
      entries[|entries| - 1] == Jump(quadIndex - 1, tokens[ropAt].value, left, right, quadIndex + 1) &&
      OperandOf(tokens, pos, ropAt, t0, tMid, left) &&
      OperandOf(tokens, ropAt + 1, pos', tMid, tempVarCounter, right)
    }

    /** parseBooleanExpression: expression ROP expression, emitting the
        conditional jump "j<rop>" whose target skips the entry after it. */
    method ParseBooleanExpression(tokens: seq<Token>, pos: nat)
      returns (ok: bool, pos': nat, ghost ropAt: nat, ghost tMid: int, ghost left: string, ghost right: string)
      requires Valid() && pos <= |tokens|
      modifies this
      ensures Extends(old(entries), old(tempVarCounter))
      ensures pos <= pos' <= |tokens|
      ensures ok ==> ConditionDone(tokens, pos, pos', ropAt, tMid, left, right, old(entries), old(tempVarCounter))
      ensures ok ==> |entries| > 0 && IsCondJump(entries[|entries| - 1], quadIndex - 1)
      decreases |tokens| - pos, 3
    {
      ropAt, tMid, left, right := 0, 0, "", "";
      var done;
      done, pos' := ParseExpression(tokens, pos);
      if !done {
        return false, pos', ropAt, tMid, left, right;
      }
      var leftOperand := expressionResult;
      if pos' >= |tokens| || tokens[pos'].kind != Rop {
        return false, pos', ropAt, tMid, left, right;
      }
      ropAt, tMid := pos', tempVarCounter;
      var op := tokens[pos'].value;
      pos' := pos' + 1;
      ghost var e1 := entries;
      done, pos' := ParseExpression(tokens, pos');
      PrefixTrans(old(entries), e1, entries);
      if !done {
        return false, pos', ropAt, tMid, left, right;
      }
      TempsTrans(old(entries), old(tempVarCounter), e1, tMid, entries);
      var rightOperand := expressionResult;
      var nextQuad := quadIndex + 2;
      ghost var e2 := entries;
      GenerateJump(op, leftOperand, rightOperand, nextQuad);
      PrefixTrans(old(entries), e2, entries);
      assert entries[..|entries| - 1] == e2;
      left, right := leftOperand, rightOperand;
      return true, pos', ropAt, tMid, left, right;
    }
  }
}

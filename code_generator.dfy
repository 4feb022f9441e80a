/**
 * The tree walk of code_generator.cpp.  processNode handles a node and then
 * visits each of its children in order; processExpression turns a node
 * with two children into one quadruple into a fresh temporary "T<n>";
 * processStatement lays out if and while statements around fresh labels
 * "L<n>".  A node is handled before its children, and processNode's loop
 * over the children also runs after processStatement, so the parts of an
 * if or while statement are walked twice.
 *
 * The tree is a value here: processing returns the tree with the updated
 * node values instead of writing through Node pointers.
 */
module CodeGen {
  import opened Text

  /** A Node pointer: null, or a node with its type, value and children. */
  datatype Node = Nil | Node(kind: string, value: string, children: seq<Node>)

  /** One line of the generated code. */
  datatype Line =
    | Binary(op: string, arg1: string, arg2: string, temp: int)  // (op, arg1, arg2, T<temp>)
    | Branch(cond: string, target: int)                        // (jnz, cond, , L<target>)
    | Goto(target: int)                                        // (j, , , L<target>)
    | Mark(mark: int)                                          // L<mark>:

  /** The name of the label minted from counter value n. */
  function LabelName(n: int): string {
    "L" + IntToString(n)
  }

  /** The text code_generator.cpp pushes for a line. */
  function Render(e: Line): string {
    match e
    case Binary(op, a1, a2, t) => "(" + op + ", " + a1 + ", " + a2 + ", " + TempName(t) + ")"
    case Branch(c, k) => "(jnz, " + c + ", , " + LabelName(k) + ")"
    case Goto(k) => "(j, , , " + LabelName(k) + ")"
    case Mark(k) => LabelName(k) + ":"
  }

  function Texts(code: seq<Line>): (r: seq<string>)
    ensures |r| == |code|
  {
    if code == [] then [] else Texts(code[..|code| - 1]) + [Render(code[|code| - 1])]
  }

  lemma TextsSnoc(code: seq<Line>, e: Line)
    ensures Texts(code + [e]) == Texts(code) + [Render(e)]
  {
    assert (code + [e])[..|code|] == code;
  }

  lemma {:induction false} TextsAppend(a: seq<Line>, b: seq<Line>)
    ensures Texts(a + b) == Texts(a) + Texts(b)
    decreases |b|
  {
    if b == [] {
      assert a + b == a;
    } else {
      var b', x := b[..|b| - 1], b[|b| - 1];
      assert b == b' + [x];
      assert a + b == (a + b') + [x];
      TextsAppend(a, b');
      TextsSnoc(a + b', x);
      TextsSnoc(b', x);
      Associative(Texts(a), Texts(b'), [Render(x)]);
    }
  }
  // The size of a tree, which the walk keeps and which bounds its recursion.

  function Size(n: Node): (s: nat)
    ensures s >= 1
    decreases n
  {
    match n
    case Nil => 1
    case Node(_, _, cs) => 1 + SizeAll(cs)
  }

  function SizeAll(cs: seq<Node>): nat
    decreases cs
  {
    if cs == [] then 0 else SizeAll(cs[..|cs| - 1]) + Size(cs[|cs| - 1])
  }

  lemma {:induction false} SizeBound(cs: seq<Node>, i: int)
    requires 0 <= i < |cs|
    ensures Size(cs[i]) <= SizeAll(cs)
    decreases |cs|
  {
    if i < |cs| - 1 {
      SizeBound(cs[..|cs| - 1], i);
    }
  }

  /** What processStatement and processExpression dereference: an if or a
      while statement has a condition node and a second child, and a node
      with two children handled as an expression has no null child. */
  predicate Accepted(n: Node)
    decreases n
  {
    n.Node? ==>
      (n.kind == "Statement" && (n.value == "if" || n.value == "while") ==>
        |n.children| >= 2 && n.children[0].Node?) &&
      (n.kind == "Expression" && |n.children| == 2 ==>
        n.children[0].Node? && n.children[1].Node?) &&
      forall i :: 0 <= i < |n.children| ==> Accepted(n.children[i])
  }

  /** b is a with at most the values of Expression nodes replaced. */
  predicate Revalued(a: Node, b: Node)
    decreases a
  {
    match a
    case Nil => b.Nil?
    case Node(k, v, cs) =>
      b.Node? && b.kind == k && (k != "Expression" ==> b.value == v) && |b.children| == |cs| &&
      forall i :: 0 <= i < |cs| ==> Revalued(cs[i], b.children[i])
  }

  lemma {:induction false} RevaluedRefl(a: Node)
    ensures Revalued(a, a)
    decreases a
  {
    if a.Node? {
      forall i | 0 <= i < |a.children| ensures Revalued(a.children[i], a.children[i]) {
        RevaluedRefl(a.children[i]);
      }
    }
  }

  lemma {:induction false} RevaluedTrans(a: Node, b: Node, c: Node)
    requires Revalued(a, b) && Revalued(b, c)
    ensures Revalued(a, c)
    decreases a
  {
    if a.Node? {
      forall i | 0 <= i < |a.children| ensures Revalued(a.children[i], c.children[i]) {
        RevaluedTrans(a.children[i], b.children[i], c.children[i]);
      }
    }
  }

  /** Replacing child i by a revalued child revalues the node. */
  lemma RevaluedUpdate(a: Node, i: int, c: Node)
    requires a.Node? && 0 <= i < |a.children| && Revalued(a.children[i], c)
    ensures Revalued(a, a.(children := a.children[i := c]))
  {
    forall k | 0 <= k < |a.children| && k != i ensures Revalued(a.children[k], a.children[k]) {
      RevaluedRefl(a.children[k]);
    }
  }

  /** Revaluing keeps the size of a tree and what it may dereference. */
  lemma {:induction false} RevaluedKeeps(a: Node, b: Node)
    requires Revalued(a, b)
    ensures Size(a) == Size(b)
    ensures Accepted(a) ==> Accepted(b)
    decreases a, 1
  {
    if a.Node? {
      RevaluedKeepsAll(a.children, b.children);
    }
  }

  lemma {:induction false} RevaluedKeepsAll(xs: seq<Node>, ys: seq<Node>)
    requires |xs| == |ys| && forall i :: 0 <= i < |xs| ==> Revalued(xs[i], ys[i])
    ensures SizeAll(xs) == SizeAll(ys)
    ensures (forall i :: 0 <= i < |xs| ==> Accepted(xs[i])) ==> forall i :: 0 <= i < |ys| ==> Accepted(ys[i])
    decreases xs, 0
  {
    if xs != [] {
      var n := |xs| - 1;
      RevaluedKeepsAll(xs[..n], ys[..n]);
      RevaluedKeeps(xs[n], ys[n]);
      assert forall i :: 0 <= i < n ==> ys[..n][i] == ys[i];
    }
  }

  // The walk, as functions of the tree and the two counters.

  /** What walking a node appends, the node afterwards, and the counters
      afterwards. */
  datatype Walk = Walk(code: seq<Line>, node: Node, temps: int, labels: int)
  datatype Walks = Walks(code: seq<Line>, nodes: seq<Node>, temps: int, labels: int)

  /** processExpression with the temporary counter at t. */
  function ExpressionStep(n: Node, t: int, l: int): (r: Walk)
    requires n.Node? && n.kind == "Expression" && Accepted(n)
    ensures Revalued(n, r.node)
  {
    RevaluedRefl(n);
    if |n.children| == 2 then
      Walk([Binary(n.value, n.children[0].value, n.children[1].value, t + 1)],
           n.(value := TempName(t + 1)), t + 1, l)
    else
      Walk([], n, t, l)
  }

  /** The layout of an if statement with labels L(l+1) and L(l+2):
      (jnz, c, , L(l+1)), the then part, (j, , , L(l+2)), L(l+1):, the
      else part, L(l+2):. */
  function IfCode(c: string, thenCode: seq<Line>, elseCode: seq<Line>, l: int): seq<Line> {
    [Branch(c, l + 1)] + thenCode + [Goto(l + 2)] + [Mark(l + 1)] + elseCode + [Mark(l + 2)]
  }

  /** The layout of a while statement with labels L(l+1), L(l+2), L(l+3):
      L(l+1):, (jnz, c, , L(l+2)), (j, , , L(l+3)), L(l+2):, the body,
      (j, , , L(l+1)), L(l+3):. */
  function WhileCode(c: string, body: seq<Line>, l: int): seq<Line> {
    [Mark(l + 1)] + [Branch(c, l + 2)] + [Goto(l + 3)] + [Mark(l + 2)] + body + [Goto(l + 1)] + [Mark(l + 3)]
  }

  /** processStatement with the counters at t and l. */
  function StatementStep(n: Node, t: int, l: int): (r: Walk)
    requires n.Node? && n.kind == "Statement" && Accepted(n)
    ensures Revalued(n, r.node)
    decreases Size(n), 0
  {
    if n.value == "if" then
      SizeBound(n.children, 1);
      var thenPart := WalkNode(n.children[1], t, l + 2);
      RevaluedUpdate(n, 1, thenPart.node);
      var n1 := n.(children := n.children[1 := thenPart.node]);
      if |n.children| > 2 then
        SizeBound(n.children, 2);
        var elsePart := WalkNode(n.children[2], thenPart.temps, thenPart.labels);
        RevaluedUpdate(n1, 2, elsePart.node);
        RevaluedTrans(n, n1, n1.(children := n1.children[2 := elsePart.node]));
        Walk(IfCode(n.children[0].value, thenPart.code, elsePart.code, l),
             n1.(children := n1.children[2 := elsePart.node]), elsePart.temps, elsePart.labels)
      else
        Walk(IfCode(n.children[0].value, thenPart.code, [], l),
             n1, thenPart.temps, thenPart.labels)
    else if n.value == "while" then
      SizeBound(n.children, 1);
      var body := WalkNode(n.children[1], t, l + 3);
      RevaluedUpdate(n, 1, body.node);
      Walk(WhileCode(n.children[0].value, body.code, l),
           n.(children := n.children[1 := body.node]), body.temps, body.labels)
    else
      RevaluedRefl(n);
      Walk([], n, t, l)
  }

  /** The dispatch at the head of processNode. */
  function HandleNode(n: Node, t: int, l: int): (r: Walk)
    requires n.Node? && Accepted(n)
    ensures Revalued(n, r.node)
    decreases Size(n), 1
  {
    if n.kind == "Expression" then ExpressionStep(n, t, l)
    else if n.kind == "Statement" then StatementStep(n, t, l)
    else RevaluedRefl(n); Walk([], n, t, l)
  }

  /** processNode: handle the node, then walk its (updated) children. */
  function WalkNode(n: Node, t: int, l: int): (r: Walk)
    requires Accepted(n)
    ensures Revalued(n, r.node)
    decreases Size(n), 2
  {
    if n.Nil? then Walk([], n, t, l)
    else
      var h := HandleNode(n, t, l);
      RevaluedKeeps(n, h.node);
      var kids := WalkChildren(h.node.children, h.temps, h.labels);
      assert Revalued(h.node, h.node.(children := kids.nodes));
      RevaluedTrans(n, h.node, h.node.(children := kids.nodes));
      Walk(h.code + kids.code, h.node.(children := kids.nodes), kids.temps, kids.labels)
  }

  /** The loop of processNode over the children, first to last. */
  function WalkChildren(cs: seq<Node>, t: int, l: int): (r: Walks)
    requires forall i :: 0 <= i < |cs| ==> Accepted(cs[i])
    ensures |r.nodes| == |cs| && forall i :: 0 <= i < |cs| ==> Revalued(cs[i], r.nodes[i])
    decreases SizeAll(cs), 3
  {
    if cs == [] then Walks([], [], t, l)
    else
      var front := WalkChildren(cs[..|cs| - 1], t, l);
      var last := WalkNode(cs[|cs| - 1], front.temps, front.labels);
      Walks(front.code + last.code, front.nodes + [last.node], last.temps, last.labels)
  }

  /** Emitting the texts of a and then those of b emits the texts of a + b. */
  lemma EmitMore(q0: seq<string>, q1: seq<string>, q2: seq<string>, a: seq<Line>, b: seq<Line>)
    requires q1 == q0 + Texts(a) && q2 == q1 + Texts(b)
    ensures q2 == q0 + Texts(a + b)
  {
    TextsAppend(a, b);
    Associative(q0, Texts(a), Texts(b));
  }

  lemma Associative<T>(x: seq<T>, y: seq<T>, z: seq<T>)
    ensures x + y + z == x + (y + z)
  {
  }

  /** The loop of processNode after i + 1 children: the first i, then
      child i. */
  lemma WalkChildrenStep(cs: seq<Node>, i: int, t: int, l: int)
    requires 0 <= i < |cs| && forall k :: 0 <= k < |cs| ==> Accepted(cs[k])
    ensures var ws := WalkChildren(cs[..i], t, l);
      var w := WalkNode(cs[i], ws.temps, ws.labels);
      WalkChildren(cs[..i + 1], t, l) == Walks(ws.code + w.code, ws.nodes + [w.node], w.temps, w.labels)
  {
    assert cs[..i + 1][..i] == cs[..i];
    assert cs[..i + 1][i] == cs[i];
  }

  // What the walk promises about the names it mints.

  /** The temporaries the code's quadruples write, in order. */
  function Temps(code: seq<Line>): seq<int> {
    if code == [] then []
    else Temps(code[..|code| - 1]) + (if code[|code| - 1].Binary? then [code[|code| - 1].temp] else [])
  }

  /** The labels the code places, in order. */
  function Marks(code: seq<Line>): seq<int> {
    if code == [] then []
    else Marks(code[..|code| - 1]) + (if code[|code| - 1].Mark? then [code[|code| - 1].mark] else [])
  }

  lemma Single(code: seq<Line>, e: Line)
    ensures Temps(code + [e]) == Temps(code) + (if e.Binary? then [e.temp] else [])
    ensures Marks(code + [e]) == Marks(code) + (if e.Mark? then [e.mark] else [])
  {
    assert (code + [e])[..|code|] == code;
  }

  lemma {:induction false} TempsAppend(a: seq<Line>, b: seq<Line>)
    ensures Temps(a + b) == Temps(a) + Temps(b)
    decreases |b|
  {
    if b == [] {
      assert a + b == a;
    } else {
      var b' := b[..|b| - 1];
      assert (a + b)[..|a + b| - 1] == a + b';
      TempsAppend(a, b');
    }
  }

  lemma {:induction false} MarksAppend(a: seq<Line>, b: seq<Line>)
    ensures Marks(a + b) == Marks(a) + Marks(b)
    decreases |b|
  {
    if b == [] {
      assert a + b == a;
    } else {
      var b' := b[..|b| - 1];
      assert (a + b)[..|a + b| - 1] == a + b';
      MarksAppend(a, b');
    }
  }

  /** lo + 1, lo + 2, ..., hi. */
  function Upto(lo: int, hi: int): seq<int>
    decreases hi - lo
  {
    if hi <= lo then [] else Upto(lo, hi - 1) + [hi]
  }

  lemma {:induction false} UptoAt(lo: int, hi: int)
    ensures |Upto(lo, hi)| == if hi <= lo then 0 else hi - lo
    ensures forall i :: 0 <= i < |Upto(lo, hi)| ==> Upto(lo, hi)[i] == lo + 1 + i
    decreases hi - lo
  {
    if lo < hi {
      UptoAt(lo, hi - 1);
    }
  }

  lemma {:induction false} UptoAppend(a: int, b: int, c: int)
    requires a <= b <= c
    ensures Upto(a, b) + Upto(b, c) == Upto(a, c)
    decreases c - b
  {
    if b == c {
      assert Upto(a, b) + [] == Upto(a, b);
    } else {
      UptoAppend(a, b, c - 1);
      assert Upto(a, b) + (Upto(b, c - 1) + [c]) == (Upto(a, b) + Upto(b, c - 1)) + [c];
    }
  }

  /** Every number from lo + 1 to hi occurs once in Upto(lo, hi), and no other. */
  lemma {:induction false} UptoCount(lo: int, hi: int, k: int)
    ensures multiset(Upto(lo, hi))[k] == if lo < k <= hi then 1 else 0
    decreases hi - lo
  {
    if lo < hi {
      UptoCount(lo, hi - 1, k);
      assert multiset(Upto(lo, hi)) == multiset(Upto(lo, hi - 1)) + multiset{hi};
    }
  }

  /** A jump of the code goes to a label from lo + 1 to hi. */
  predicate TargetWithin(e: Line, lo: int, hi: int) {
    (e.Branch? || e.Goto?) ==> lo < e.target <= hi
  }

  predicate JumpsWithin(code: seq<Line>, lo: int, hi: int) {
    forall i :: 0 <= i < |code| ==> TargetWithin(code[i], lo, hi)
  }

  lemma JumpsAppend(a: seq<Line>, b: seq<Line>, lo: int, hi: int)
    requires JumpsWithin(a, lo, hi) && JumpsWithin(b, lo, hi)
    ensures JumpsWithin(a + b, lo, hi)
  {
    forall i | 0 <= i < |a + b| ensures TargetWithin((a + b)[i], lo, hi) {
      if i < |a| {
        assert (a + b)[i] == a[i];
      } else {
        assert (a + b)[i] == b[i - |a|];
      }
    }
  }

  lemma JumpsWiden(code: seq<Line>, lo: int, hi: int, lo': int, hi': int)
    requires JumpsWithin(code, lo, hi) && lo' <= lo && hi <= hi'
    ensures JumpsWithin(code, lo', hi')
  {
    forall i | 0 <= i < |code| ensures TargetWithin(code[i], lo', hi') {
      assert TargetWithin(code[i], lo, hi);
    }
  }

  /** The code walked with the counters moving from t to t' and from l to
      l' writes T(t+1), ..., T(t') in that order, places each of L(l+1),
      ..., L(l') once, and jumps only to those labels. */
  ghost predicate Numbering(code: seq<Line>, t: int, t': int, l: int, l': int) {
    t <= t' && l <= l' && Temps(code) == Upto(t, t') &&
    multiset(Marks(code)) == multiset(Upto(l, l')) && JumpsWithin(code, l, l')
  }

  lemma NumberingAppend(a: seq<Line>, b: seq<Line>, t0: int, t1: int, t2: int, l0: int, l1: int, l2: int)
    requires Numbering(a, t0, t1, l0, l1) && Numbering(b, t1, t2, l1, l2)
    ensures Numbering(a + b, t0, t2, l0, l2)
  {
    TempsAppend(a, b);
    MarksAppend(a, b);
    UptoAppend(t0, t1, t2);
    UptoAppend(l0, l1, l2);
    JumpsWiden(a, l0, l1, l0, l2);
    JumpsWiden(b, l1, l2, l0, l2);
    JumpsAppend(a, b, l0, l2);
  }

  /** The labels an if places: those of its then part, its own two, and
      those of its else part. */
  lemma IfLabels(l: int, l1: int, l2: int, mt: seq<int>, me: seq<int>)
    requires l + 2 <= l1 <= l2
    requires multiset(mt) == multiset(Upto(l + 2, l1)) && multiset(me) == multiset(Upto(l1, l2))
    ensures multiset(mt + [l + 1] + me + [l + 2]) == multiset(Upto(l, l2))
  {
    forall k ensures multiset(mt + [l + 1] + me + [l + 2])[k] == multiset(Upto(l, l2))[k] {
      IfLabelsAt(l, l1, l2, k);
    }
  }

  lemma IfLabelsAt(l: int, l1: int, l2: int, k: int)
    requires l + 2 <= l1 <= l2
    ensures (multiset(Upto(l + 2, l1)) + multiset{l + 1} + multiset(Upto(l1, l2)) + multiset{l + 2})[k] ==
            multiset(Upto(l, l2))[k]
  {
    UptoCount(l + 2, l1, k);
    UptoCount(l1, l2, k);
    UptoCount(l, l2, k);
  }

  /** The labels a while places: its own three and those of its body. */
  lemma WhileLabels(l: int, l1: int, mb: seq<int>)
    requires l + 3 <= l1
    requires multiset(mb) == multiset(Upto(l + 3, l1))
    ensures multiset([l + 1] + [l + 2] + mb + [l + 3]) == multiset(Upto(l, l1))
  {
    forall k ensures multiset([l + 1] + [l + 2] + mb + [l + 3])[k] == multiset(Upto(l, l1))[k] {
      WhileLabelsAt(l, l1, k);
    }
  }

  lemma WhileLabelsAt(l: int, l1: int, k: int)
    requires l + 3 <= l1
    ensures (multiset{l + 1} + multiset{l + 2} + multiset(Upto(l + 3, l1)) + multiset{l + 3})[k] ==
            multiset(Upto(l, l1))[k]
  {
    UptoCount(l + 3, l1, k);
    UptoCount(l, l1, k);
  }

  lemma IfTemps(c: string, thenCode: seq<Line>, elseCode: seq<Line>, l: int)
    ensures Temps(IfCode(c, thenCode, elseCode, l)) == Temps(thenCode) + Temps(elseCode)
  {
    var p1 := [Branch(c, l + 1)];
    var p2 := p1 + thenCode;
    var p3 := p2 + [Goto(l + 2)];
    var p4 := p3 + [Mark(l + 1)];
    var p5 := p4 + elseCode;
    assert IfCode(c, thenCode, elseCode, l) == p5 + [Mark(l + 2)];
    Single([], Branch(c, l + 1));
    assert [] + p1 == p1;
    TempsAppend(p1, thenCode);
    assert Temps(p2) == Temps(thenCode);
    Single(p2, Goto(l + 2));
    Single(p3, Mark(l + 1));
    assert Temps(p4) == Temps(thenCode);
    TempsAppend(p4, elseCode);
    Single(p5, Mark(l + 2));
  }
  lemma IfMarks(c: string, thenCode: seq<Line>, elseCode: seq<Line>, l: int)
    ensures Marks(IfCode(c, thenCode, elseCode, l)) == Marks(thenCode) + [l + 1] + Marks(elseCode) + [l + 2]
  {
    var p1 := [Branch(c, l + 1)];
    Single([], Branch(c, l + 1));
    assert [] + p1 == p1;
    MarksAppend(p1, thenCode);
    Single(p1 + thenCode, Goto(l + 2));
    Single(p1 + thenCode + [Goto(l + 2)], Mark(l + 1));
    MarksAppend(p1 + thenCode + [Goto(l + 2)] + [Mark(l + 1)], elseCode);
    Single(p1 + thenCode + [Goto(l + 2)] + [Mark(l + 1)] + elseCode, Mark(l + 2));
  }

  lemma IfJumps(c: string, thenCode: seq<Line>, elseCode: seq<Line>, l: int, hi: int)
    requires JumpsWithin(thenCode, l, hi) && JumpsWithin(elseCode, l, hi) && l + 2 <= hi
    ensures JumpsWithin(IfCode(c, thenCode, elseCode, l), l, hi)
  {
    var p1 := [Branch(c, l + 1)];
    JumpsAppend(p1, thenCode, l, hi);
    JumpsAppend(p1 + thenCode, [Goto(l + 2)], l, hi);
    JumpsAppend(p1 + thenCode + [Goto(l + 2)], [Mark(l + 1)], l, hi);
    JumpsAppend(p1 + thenCode + [Goto(l + 2)] + [Mark(l + 1)], elseCode, l, hi);
    JumpsAppend(p1 + thenCode + [Goto(l + 2)] + [Mark(l + 1)] + elseCode, [Mark(l + 2)], l, hi);
  }

  /** The if layout around numbered then and else parts is numbered. */
  lemma IfNumbering(c: string, thenCode: seq<Line>, elseCode: seq<Line>,
                    t: int, t1: int, t2: int, l: int, l1: int, l2: int)
    requires Numbering(thenCode, t, t1, l + 2, l1) && Numbering(elseCode, t1, t2, l1, l2)
    ensures Numbering(IfCode(c, thenCode, elseCode, l), t, t2, l, l2)
  {
    IfTemps(c, thenCode, elseCode, l);
    UptoAppend(t, t1, t2);
    IfMarks(c, thenCode, elseCode, l);
    IfLabels(l, l1, l2, Marks(thenCode), Marks(elseCode));
    JumpsWiden(thenCode, l + 2, l1, l, l2);
    JumpsWiden(elseCode, l1, l2, l, l2);
    IfJumps(c, thenCode, elseCode, l, l2);
  }

  lemma WhileTemps(c: string, body: seq<Line>, l: int)
    ensures Temps(WhileCode(c, body, l)) == Temps(body)
  {
    var p1 := [Mark(l + 1)];
    Single([], Mark(l + 1));
    assert [] + p1 == p1;
    Single(p1, Branch(c, l + 2));
    Single(p1 + [Branch(c, l + 2)], Goto(l + 3));
    Single(p1 + [Branch(c, l + 2)] + [Goto(l + 3)], Mark(l + 2));
    var p4 := p1 + [Branch(c, l + 2)] + [Goto(l + 3)] + [Mark(l + 2)];
    TempsAppend(p4, body);
    Single(p4 + body, Goto(l + 1));
    Single(p4 + body + [Goto(l + 1)], Mark(l + 3));
  }

  lemma WhileMarks(c: string, body: seq<Line>, l: int)
    ensures Marks(WhileCode(c, body, l)) == [l + 1] + [l + 2] + Marks(body) + [l + 3]
  {
    var p1 := [Mark(l + 1)];
    Single([], Mark(l + 1));
    assert [] + p1 == p1;
    Single(p1, Branch(c, l + 2));
    Single(p1 + [Branch(c, l + 2)], Goto(l + 3));
    Single(p1 + [Branch(c, l + 2)] + [Goto(l + 3)], Mark(l + 2));
    var p4 := p1 + [Branch(c, l + 2)] + [Goto(l + 3)] + [Mark(l + 2)];
    MarksAppend(p4, body);
    Single(p4 + body, Goto(l + 1));
    Single(p4 + body + [Goto(l + 1)], Mark(l + 3));
  }

  lemma WhileJumps(c: string, body: seq<Line>, l: int, hi: int)
    requires JumpsWithin(body, l, hi) && l + 3 <= hi
    ensures JumpsWithin(WhileCode(c, body, l), l, hi)
  {
    var p1 := [Mark(l + 1)];
    JumpsAppend(p1, [Branch(c, l + 2)], l, hi);
    JumpsAppend(p1 + [Branch(c, l + 2)], [Goto(l + 3)], l, hi);
    JumpsAppend(p1 + [Branch(c, l + 2)] + [Goto(l + 3)], [Mark(l + 2)], l, hi);
    var p4 := p1 + [Branch(c, l + 2)] + [Goto(l + 3)] + [Mark(l + 2)];
    JumpsAppend(p4, body, l, hi);
    JumpsAppend(p4 + body, [Goto(l + 1)], l, hi);
    JumpsAppend(p4 + body + [Goto(l + 1)], [Mark(l + 3)], l, hi);
  }

  /** The while layout around a numbered body is numbered. */
  lemma WhileNumbering(c: string, body: seq<Line>, t: int, t1: int, l: int, l1: int)
    requires Numbering(body, t, t1, l + 3, l1)
    ensures Numbering(WhileCode(c, body, l), t, t1, l, l1)
  {
    WhileTemps(c, body, l);
    WhileMarks(c, body, l);
    WhileLabels(l, l1, Marks(body));
    JumpsWiden(body, l + 3, l1, l, l1);
    WhileJumps(c, body, l, l1);
  }

  lemma {:induction false} NodeNumbering(n: Node, t: int, l: int)
    requires Accepted(n)
    ensures var w := WalkNode(n, t, l); Numbering(w.code, t, w.temps, l, w.labels)
    decreases Size(n), 2
  {
    if n.Nil? {
      assert multiset(Marks([])) == multiset(Upto(l, l));
    } else {
      var h := HandleNode(n, t, l);
      RevaluedKeeps(n, h.node);
      HandleNumbering(n, t, l);
      var kids := WalkChildren(h.node.children, h.temps, h.labels);
      ChildrenNumbering(h.node.children, h.temps, h.labels);
      NumberingAppend(h.code, kids.code, t, h.temps, kids.temps, l, h.labels, kids.labels);
    }
  }

  lemma {:induction false} HandleNumbering(n: Node, t: int, l: int)
    requires n.Node? && Accepted(n)
    ensures var h := HandleNode(n, t, l); Numbering(h.code, t, h.temps, l, h.labels)
    decreases Size(n), 1
  {
    if n.kind == "Expression" {
      if |n.children| == 2 {
        var e := Binary(n.value, n.children[0].value, n.children[1].value, t + 1);
        assert Temps([e]) == [t + 1] by {
          assert [e][..0] == [];
        }
        assert Marks([e]) == [] by {
          assert [e][..0] == [];
        }
      }
      assert multiset(Marks([])) == multiset(Upto(l, l));
    } else if n.kind == "Statement" && (n.value == "if" || n.value == "while") {
      ControlNumbering(n, t, l);
    } else {
      assert multiset(Marks([])) == multiset(Upto(l, l));
    }
  }

  /** The if and while cases of HandleNumbering. */
  lemma {:induction false} ControlNumbering(n: Node, t: int, l: int)
    requires n.Node? && Accepted(n) && n.kind == "Statement" && (n.value == "if" || n.value == "while")
    ensures var h := HandleNode(n, t, l); Numbering(h.code, t, h.temps, l, h.labels)
    decreases Size(n), 0
  {
    SizeBound(n.children, 1);
    if n.value == "if" {
      var thenPart := WalkNode(n.children[1], t, l + 2);
      NodeNumbering(n.children[1], t, l + 2);
      if |n.children| > 2 {
        SizeBound(n.children, 2);
        var elsePart := WalkNode(n.children[2], thenPart.temps, thenPart.labels);
        NodeNumbering(n.children[2], thenPart.temps, thenPart.labels);
        IfNumbering(n.children[0].value, thenPart.code, elsePart.code,
                    t, thenPart.temps, elsePart.temps, l, thenPart.labels, elsePart.labels);
      } else {
        assert Numbering([], thenPart.temps, thenPart.temps, thenPart.labels, thenPart.labels) by {
          assert multiset(Marks([])) == multiset(Upto(thenPart.labels, thenPart.labels));
        }
        IfNumbering(n.children[0].value, thenPart.code, [],
                    t, thenPart.temps, thenPart.temps, l, thenPart.labels, thenPart.labels);
      }
    } else {
      NodeNumbering(n.children[1], t, l + 3);
      var body := WalkNode(n.children[1], t, l + 3);
      WhileNumbering(n.children[0].value, body.code, t, body.temps, l, body.labels);
    }
  }

  lemma {:induction false} ChildrenNumbering(cs: seq<Node>, t: int, l: int)
    requires forall i :: 0 <= i < |cs| ==> Accepted(cs[i])
    ensures var w := WalkChildren(cs, t, l); Numbering(w.code, t, w.temps, l, w.labels)
    decreases SizeAll(cs), 3
  {
    if cs == [] {
      assert multiset(Marks([])) == multiset(Upto(l, l));
    } else {
      var front := WalkChildren(cs[..|cs| - 1], t, l);
      ChildrenNumbering(cs[..|cs| - 1], t, l);
      NodeNumbering(cs[|cs| - 1], front.temps, front.labels);
      var last := WalkNode(cs[|cs| - 1], front.temps, front.labels);
      NumberingAppend(front.code, last.code, t, front.temps, last.temps, l, front.labels, last.labels);
    }
  }

  /** The i-th quadruple of the walked code writes T(t+1+i), so every
      temporary is fresh and they increase along the code. */
  lemma TempsFresh(n: Node, t: int, l: int)
    requires Accepted(n)
    ensures var w := WalkNode(n, t, l);
      |Temps(w.code)| == w.temps - t &&
      forall i :: 0 <= i < |Temps(w.code)| ==> Temps(w.code)[i] == t + 1 + i
  {
    NodeNumbering(n, t, l);
    UptoAt(t, WalkNode(n, t, l).temps);
  }

  /** Every label the walk mints is placed exactly once, and every jump of
      the walked code goes to one of them. */
  lemma LabelsResolve(n: Node, t: int, l: int)
    requires Accepted(n)
    ensures var w := WalkNode(n, t, l);
      (forall k :: l < k <= w.labels ==> multiset(Marks(w.code))[k] == 1) &&
      (forall i :: 0 <= i < |w.code| && (w.code[i].Branch? || w.code[i].Goto?) ==>
         l < w.code[i].target <= w.labels && multiset(Marks(w.code))[w.code[i].target] == 1)
  {
    var w := WalkNode(n, t, l);
    NodeNumbering(n, t, l);
    forall k | l < k <= w.labels ensures multiset(Marks(w.code))[k] == 1 {
      UptoCount(l, w.labels, k);
    }
    forall i | 0 <= i < |w.code| && (w.code[i].Branch? || w.code[i].Goto?)
      ensures l < w.code[i].target <= w.labels && multiset(Marks(w.code))[w.code[i].target] == 1
    {
      assert TargetWithin(w.code[i], l, w.labels);
      UptoCount(l, w.labels, w.code[i].target);
    }
  }

  // The second visit.  processNode walks a statement's children after
  // processStatement has walked the then, else or loop part already, so
  // those parts are translated twice, the second time with the values the
  // first pass left in the tree.

  /** An expression node without children: a name or a constant. */
  predicate Leaf(x: Node) {
    x.Node? && x.kind == "Expression" && x.children == []
  }

  /** An expression with two leaf operands. */
  predicate BinaryOverLeaves(e: Node) {
    e.Node? && e.kind == "Expression" && |e.children| == 2 && Leaf(e.children[0]) && Leaf(e.children[1])
  }

  /** Walking a leaf emits nothing and changes nothing. */
  lemma LeafWalk(x: Node, t: int, l: int)
    requires Leaf(x)
    ensures WalkNode(x, t, l) == Walk([], x, t, l)
  {
    assert WalkChildren([], t, l) == Walks([], [], t, l);
  }

  /** Walking leaves emits nothing and changes nothing. */
  lemma {:induction false} LeavesWalk(cs: seq<Node>, t: int, l: int)
    requires forall i :: 0 <= i < |cs| ==> Leaf(cs[i]) && Accepted(cs[i])
    ensures WalkChildren(cs, t, l) == Walks([], cs, t, l)
  {
    if cs != [] {
      LeavesWalk(cs[..|cs| - 1], t, l);
      LeafWalk(cs[|cs| - 1], t, l);
      assert cs[..|cs| - 1] + [cs[|cs| - 1]] == cs;
    }
  }

  /** A binary expression over leaves emits its one quadruple and takes the
      next temporary as its value. */
  lemma BinaryWalk(e: Node, t: int, l: int)
    requires BinaryOverLeaves(e)
    ensures WalkNode(e, t, l) == Walk([Binary(e.value, e.children[0].value, e.children[1].value, t + 1)],
                                      e.(value := TempName(t + 1)), t + 1, l)
  {
    LeavesWalk(e.children, t + 1, l);
  }

  /** processStatement on "while c do a op b": the loop layout around the
      body's quadruple. */
  lemma WhileBinaryStep(s: Node, t: int, l: int)
    requires s.Node? && s.kind == "Statement" && s.value == "while" && |s.children| == 2
    requires Leaf(s.children[0]) && BinaryOverLeaves(s.children[1])
    ensures var e := s.children[1];
      StatementStep(s, t, l) ==
      Walk(WhileCode(s.children[0].value, [Binary(e.value, e.children[0].value, e.children[1].value, t + 1)], l),
           s.(children := [s.children[0], e.(value := TempName(t + 1))]), t + 1, l + 3)
  {
    BinaryWalk(s.children[1], t, l + 3);
  }

  /** processNode's loop over [c, a op b] once the body holds T<t+1>: the
      body is translated again, with T<t+1> as its operator. */
  lemma RevisitChildren(c: Node, e: Node, t: int, l: int)
    requires Leaf(c) && BinaryOverLeaves(e)
    ensures WalkChildren([c, e], t, l) ==
      Walks([Binary(e.value, e.children[0].value, e.children[1].value, t + 1)],
            [c, e.(value := TempName(t + 1))], t + 1, l)
  {
    LeafWalk(c, t, l);
    BinaryWalk(e, t, l);
    assert [c, e][..1] == [c];
    assert [c][..0] == [];
  }

  /** processNode on "while c do a op b": the loop layout, followed by a
      second quadruple for the body, written after the loop's end label and
      with the first temporary in the operator place. */
  lemma WhileRevisit(s: Node, t: int, l: int)
    requires s.Node? && s.kind == "Statement" && s.value == "while" && |s.children| == 2
    requires Leaf(s.children[0]) && BinaryOverLeaves(s.children[1])
    ensures var c := s.children[0];
      var e := s.children[1];
      var w := WalkNode(s, t, l);
      w.code == WhileCode(c.value, [Binary(e.value, e.children[0].value, e.children[1].value, t + 1)], l) +
                [Binary(TempName(t + 1), e.children[0].value, e.children[1].value, t + 2)] &&
      w.temps == t + 2 && w.labels == l + 3
  {
    var e := s.children[1];
    WhileBinaryStep(s, t, l);
    RevisitChildren(s.children[0], e.(value := TempName(t + 1)), t + 1, l + 3);
  }

  /** The generator: two counters, both starting at 0, and the member list
      of generated lines. */
  class CodeGenerator {
    var labelCounter: int
    var tempVarCounter: int
    var quadruples: seq<string>

    constructor()
      ensures labelCounter == 0 && tempVarCounter == 0 && quadruples == []
    {
      labelCounter := 0;
      tempVarCounter := 0;
      quadruples := [];
    }

    /** newTemp: bumps the counter first, so the first name is T1. */
    method NewTemp() returns (name: string)
      modifies this
      ensures tempVarCounter == old(tempVarCounter) + 1 && name == TempName(tempVarCounter)
      ensures labelCounter == old(labelCounter) && quadruples == old(quadruples)
    {
      tempVarCounter := tempVarCounter + 1;
      name := "T" + IntToString(tempVarCounter);
    }

    /** newLabel: the same with "L" and the label counter. */
    method NewLabel() returns (name: string)
      modifies this
      ensures labelCounter == old(labelCounter) + 1 && name == LabelName(labelCounter)
      ensures tempVarCounter == old(tempVarCounter) && quadruples == old(quadruples)
    {
      labelCounter := labelCounter + 1;
      name := "L" + IntToString(labelCounter);
    }

    /** Appends the text of one line. */
    method Push(ghost q0: seq<string>, ghost code: seq<Line>, ghost e: Line, text: string)
      requires text == Render(e) && quadruples == q0 + Texts(code)
      modifies this
      ensures quadruples == old(quadruples) + [text] && quadruples == q0 + Texts(code + [e])
      ensures tempVarCounter == old(tempVarCounter) && labelCounter == old(labelCounter)
    {
      TextsSnoc(code, e);
      quadruples := quadruples + [text];
    }

    /** generateQuadruples: walks the tree, then returns its own local
        vector, which nothing was added to. */
    method GenerateQuadruples(ast: Node) returns (result: seq<string>, ast': Node)
      requires Accepted(ast)
      modifies this
      ensures result == []
      ensures var w := WalkNode(ast, old(tempVarCounter), old(labelCounter));
        ast' == w.node && quadruples == old(quadruples) + Texts(w.code) &&
        tempVarCounter == w.temps && labelCounter == w.labels
    {
      result := [];
      ast' := ProcessNode(ast);
    }

    /** processNode: nothing for a null node; otherwise the node is handled
        and then every child, as the handling left it, is walked in order. */
    method ProcessNode(n: Node) returns (n': Node)
      requires Accepted(n)
      modifies this
      ensures var w := WalkNode(n, old(tempVarCounter), old(labelCounter));
        n' == w.node && quadruples == old(quadruples) + Texts(w.code) &&
        tempVarCounter == w.temps && labelCounter == w.labels
      decreases Size(n), 2
    {
      if n.Nil? {
        assert quadruples == old(quadruples) + Texts([]);
        return n;
      }
      ghost var h := HandleNode(n, tempVarCounter, labelCounter);
      var node := n;
      if n.kind == "Expression" {
        node := ProcessExpression(n);
      } else if n.kind == "Statement" {
        node := ProcessStatement(n);
      } else {
        assert quadruples == old(quadruples) + Texts([]);
      }
      ghost var q1 := quadruples;
      RevaluedKeeps(n, node);
      var kids := ProcessChildren(node.children);
      EmitMore(old(quadruples), q1, quadruples, h.code, WalkChildren(node.children, h.temps, h.labels).code);
      n' := node.(children := kids);
    }

    /** The loop of processNode: each child in turn, first to last. */
    method ProcessChildren(cs: seq<Node>) returns (cs': seq<Node>)
      requires forall i :: 0 <= i < |cs| ==> Accepted(cs[i])
      modifies this
      ensures var w := WalkChildren(cs, old(tempVarCounter), old(labelCounter));
        cs' == w.nodes && quadruples == old(quadruples) + Texts(w.code) &&
        tempVarCounter == w.temps && labelCounter == w.labels
      decreases SizeAll(cs), 3
    {
      ghost var t0, l0 := tempVarCounter, labelCounter;
      assert cs[..0] == [];
      assert quadruples == old(quadruples) + Texts([]);
      cs' := [];
      var i := 0;
      while i < |cs|
        invariant 0 <= i <= |cs|
        invariant var ws := WalkChildren(cs[..i], t0, l0);
          cs' == ws.nodes && quadruples == old(quadruples) + Texts(ws.code) &&
          tempVarCounter == ws.temps && labelCounter == ws.labels
        decreases |cs| - i
      {
        ghost var ws := WalkChildren(cs[..i], t0, l0);
        ghost var q1 := quadruples;
        WalkChildrenStep(cs, i, t0, l0);
        SizeBound(cs, i);
        var child := ProcessNode(cs[i]);
        EmitMore(old(quadruples), q1, quadruples, ws.code, WalkNode(cs[i], ws.temps, ws.labels).code);
        cs' := cs' + [child];
        i := i + 1;
      }
      assert cs[..i] == cs;
    }

    /** processExpression: a node with exactly two children gets a fresh
        temporary, one quadruple "(op, c0, c1, T<n>)", and the temporary as
        its value; any other node is left alone. */
    method ProcessExpression(n: Node) returns (n': Node)
      requires n.Node? && n.kind == "Expression" && Accepted(n)
      modifies this
      ensures var w := ExpressionStep(n, old(tempVarCounter), old(labelCounter));
        n' == w.node && quadruples == old(quadruples) + Texts(w.code) &&
        tempVarCounter == w.temps && labelCounter == w.labels
    {
      n' := n;
      assert quadruples == old(quadruples) + Texts([]);
      if |n.children| == 2 {
        var result := NewTemp();
        var op := n.value;
        var arg1 := n.children[0].value;
        var arg2 := n.children[1].value;
        Push(old(quadruples), [], Binary(op, arg1, arg2, tempVarCounter), "(" + op + ", " + arg1 + ", " + arg2 + ", " + result + ")");
        assert [] + [Binary(op, arg1, arg2, tempVarCounter)] == [Binary(op, arg1, arg2, tempVarCounter)];
        n' := n.(value := result);
      }
    }

    /** processStatement: the if and while layouts; any other statement
        emits nothing. */
    method ProcessStatement(n: Node) returns (n': Node)
      requires n.Node? && n.kind == "Statement" && Accepted(n)
      modifies this
      ensures var w := StatementStep(n, old(tempVarCounter), old(labelCounter));
        n' == w.node && quadruples == old(quadruples) + Texts(w.code) &&
        tempVarCounter == w.temps && labelCounter == w.labels
      decreases Size(n), 1
    {
      if n.value == "if" {
        n' := ProcessIf(n);
      } else if n.value == "while" {
        n' := ProcessWhile(n);
      } else {
        n' := n;
        assert quadruples == old(quadruples) + Texts([]);
      }
    }

    /** The if branch of processStatement.  The condition is the value
        children[0] has when the statement is handled. */
    method ProcessIf(n: Node) returns (n': Node)
      requires n.Node? && n.kind == "Statement" && n.value == "if" && Accepted(n)
      modifies this
      ensures var w := StatementStep(n, old(tempVarCounter), old(labelCounter));
        n' == w.node && quadruples == old(quadruples) + Texts(w.code) &&
        tempVarCounter == w.temps && labelCounter == w.labels
      decreases Size(n), 0
    {
      ghost var q0, t, l := quadruples, tempVarCounter, labelCounter;
      var labelTrue := NewLabel();
      var labelEnd := NewLabel();
      var cond := n.children[0].value;
      assert quadruples == q0 + Texts([]);
      Push(q0, [], Branch(cond, l + 1), "(jnz, " + cond + ", , " + labelTrue + ")");
      ghost var code := [Branch(cond, l + 1)];
      assert [] + code == code;
      SizeBound(n.children, 1);
      ghost var tw := WalkNode(n.children[1], t, l + 2);
      ghost var q1 := quadruples;
      var thenPart := ProcessNode(n.children[1]);
      EmitMore(q0, q1, quadruples, code, tw.code);
      code := code + tw.code;
      var kids := n.children[1 := thenPart];
      Push(q0, code, Goto(l + 2), "(j, , , " + labelEnd + ")");
      code := code + [Goto(l + 2)];
      Push(q0, code, Mark(l + 1), labelTrue + ":");
      code := code + [Mark(l + 1)];
      ghost var elseCode := [];
      if |kids| > 2 {
        SizeBound(n.children, 2);
        ghost var ew := WalkNode(n.children[2], tw.temps, tw.labels);
        ghost var q2 := quadruples;
        var elsePart := ProcessNode(kids[2]);
        EmitMore(q0, q2, quadruples, code, ew.code);
        elseCode := ew.code;
        kids := kids[2 := elsePart];
      } else {
        assert code + elseCode == code;
      }
      code := code + elseCode;
      Push(q0, code, Mark(l + 2), labelEnd + ":");
      assert code + [Mark(l + 2)] == IfCode(cond, tw.code, elseCode, l);
      n' := n.(children := kids);
    }

    /** The while branch of processStatement. */
    method ProcessWhile(n: Node) returns (n': Node)
      requires n.Node? && n.kind == "Statement" && n.value == "while" && Accepted(n)
      modifies this
      ensures var w := StatementStep(n, old(tempVarCounter), old(labelCounter));
        n' == w.node && quadruples == old(quadruples) + Texts(w.code) &&
        tempVarCounter == w.temps && labelCounter == w.labels
      decreases Size(n), 0
    {
      ghost var q0, t, l := quadruples, tempVarCounter, labelCounter;
      var labelStart := NewLabel();
      var labelBody := NewLabel();
      var labelEnd := NewLabel();
      var cond := n.children[0].value;
      assert quadruples == q0 + Texts([]);
      Push(q0, [], Mark(l + 1), labelStart + ":");
      ghost var code := [Mark(l + 1)];
      assert [] + code == code;
      Push(q0, code, Branch(cond, l + 2), "(jnz, " + cond + ", , " + labelBody + ")");
      code := code + [Branch(cond, l + 2)];
      Push(q0, code, Goto(l + 3), "(j, , , " + labelEnd + ")");
      code := code + [Goto(l + 3)];
      Push(q0, code, Mark(l + 2), labelBody + ":");
      code := code + [Mark(l + 2)];
      SizeBound(n.children, 1);
      ghost var bw := WalkNode(n.children[1], t, l + 3);
      ghost var q1 := quadruples;
      var body := ProcessNode(n.children[1]);
      EmitMore(q0, q1, quadruples, code, bw.code);
      code := code + bw.code;
      Push(q0, code, Goto(l + 1), "(j, , , " + labelStart + ")");
      code := code + [Goto(l + 1)];
      Push(q0, code, Mark(l + 3), labelEnd + ":");
      assert code + [Mark(l + 3)] == WhileCode(cond, bw.code, l);
      n' := n.(children := n.children[1 := body]);
    }
  }
}

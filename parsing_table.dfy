/**
 * The ACTION and GOTO tables generateParsingTable fills: which cells each
 * item of each state writes, and what a cell holds once all writes are done
 * (the last write to a cell wins).
 */
module ParsingTable {
  import opened Productions
  import opened LR0Items
  import opened Grammar
  import opened SymbolMaps
  import opened Text
  import opened Automaton

  /** ActionTable and GotoTable: state number -> symbol -> entry. */
  type Table = map<int, map<string, string>>

  datatype Option<T> = None | Some(value: T)

  function Row(tbl: Table, s: int): map<string, string> {
    if s in tbl then tbl[s] else map[]
  }

  function Lookup(tbl: Table, s: int, t: string): Option<string> {
    if s in tbl && t in tbl[s] then Some(tbl[s][t]) else None
  }

  /** The production index the reduce entries name: the first k with
      productions[k] == p, or 0 when p is not listed. */
  function FirstIndex(ps: seq<Production>, p: Production): (k: nat)
    ensures p in ps ==> k < |ps| && ps[k] == p && forall i :: 0 <= i < k ==> ps[i] != p
    ensures p !in ps ==> k == 0
    decreases |ps|
  {
    if |ps| == 0 then 0
    else if ps[0] == p then 0
    else if p in ps[1..] then 1 + FirstIndex(ps[1..], p)
    else 0
  }

  /** The row that holds v under every symbol of keys. */
  function Const(keys: set<string>, v: string): map<string, string> {
    map t | t in keys :: v
  }

  /** The ACTION cells one item of a state writes. */
  function ActionWrites(ps: seq<Production>, follow: SymbolMap, st: State, it: LR0Item): map<string, string> {
    if it.dotPos == |it.prod.right| then
      if it.prod.left == AugmentedStart then map[EndMarker := "acc"]
      else
        Const(Get(follow, it.prod.left), "r" + NatToString(FirstIndex(ps, it.prod)))
    else if it.dotPos < |it.prod.right| then
      var x := it.prod.right[it.dotPos];
      if x in st.transitions && IsTerminal(x) then map[x := "s" + IntToString(st.transitions[x])] else map[]
    else map[]
  }

  /** A complete S' item accepts on #; any other complete item reduces by
      its production on every symbol of FOLLOW of its left side; an item
      whose dot precedes a terminal with a transition shifts to that
      transition's state; every other item writes nothing. */
  lemma ActionWritesCases(ps: seq<Production>, follow: SymbolMap, st: State, it: LR0Item)
    ensures it.dotPos == |it.prod.right| && it.prod.left == AugmentedStart ==>
      ActionWrites(ps, follow, st, it) == map[EndMarker := "acc"]
    ensures it.dotPos == |it.prod.right| && it.prod.left != AugmentedStart ==>
      ActionWrites(ps, follow, st, it).Keys == Get(follow, it.prod.left) &&
      forall t :: t in ActionWrites(ps, follow, st, it) ==>
        ActionWrites(ps, follow, st, it)[t] == "r" + NatToString(FirstIndex(ps, it.prod))
    ensures (it.dotPos < |it.prod.right| && it.prod.right[it.dotPos] in st.transitions &&
             IsTerminal(it.prod.right[it.dotPos])) ==>
      ActionWrites(ps, follow, st, it) ==
        map[it.prod.right[it.dotPos] := "s" + IntToString(st.transitions[it.prod.right[it.dotPos]])]
    ensures (it.dotPos < |it.prod.right| &&
             !(it.prod.right[it.dotPos] in st.transitions && IsTerminal(it.prod.right[it.dotPos]))) ==>
      ActionWrites(ps, follow, st, it) == map[]
  {
  }

  /** The item's dot precedes a nonterminal the state has a transition on. */
  predicate GotoWritten(st: State, it: LR0Item) {
    it.dotPos < |it.prod.right| && it.prod.right[it.dotPos] in st.transitions &&
    !IsTerminal(it.prod.right[it.dotPos])
  }

  /** The GOTO cell one item of a state writes: a transition on a nonterminal. */
  function GotoWrites(st: State, it: LR0Item): (w: map<string, string>)
    ensures GotoWritten(st, it) ==>
      w == map[it.prod.right[it.dotPos] := IntToString(st.transitions[it.prod.right[it.dotPos]])]
    ensures !GotoWritten(st, it) ==> w == map[]
  {
    if it.dotPos < |it.prod.right| then
      var x := it.prod.right[it.dotPos];
      if x in st.transitions && !IsTerminal(x) then map[x := IntToString(st.transitions[x])] else map[]
    else map[]
  }

  /** The entries the items write into their state's row, in item order:
      a later write to the same symbol replaces an earlier one. */
  function Overlay(writes: LR0Item -> map<string, string>, items: seq<LR0Item>): map<string, string>
    decreases |items|
  {
    if |items| == 0 then map[]
    else Overlay(writes, items[..|items| - 1]) + writes(items[|items| - 1])
  }

  function ActionRow(ps: seq<Production>, follow: SymbolMap, st: State): map<string, string> {
    Overlay(it => ActionWrites(ps, follow, st, it), st.items)
  }

  function GotoRow(st: State): map<string, string> {
    Overlay(it => GotoWrites(st, it), st.items)
  }

  /** What the first n items of a state write into its rows. */
  function ActionRowUpTo(ps: seq<Production>, follow: SymbolMap, st: State, n: nat): map<string, string>
    requires n <= |st.items|
  {
    Overlay(it => ActionWrites(ps, follow, st, it), st.items[..n])
  }

  function GotoRowUpTo(st: State, n: nat): map<string, string>
    requires n <= |st.items|
  {
    Overlay(it => GotoWrites(st, it), st.items[..n])
  }

  /** No item writes nothing; one more item adds its writes; all items
      write the rows. */
  lemma RowUpToStep(ps: seq<Production>, follow: SymbolMap, st: State, n: nat)
    requires n < |st.items|
    ensures ActionRowUpTo(ps, follow, st, n + 1) == ActionRowUpTo(ps, follow, st, n) + ActionWrites(ps, follow, st, st.items[n])
    ensures GotoRowUpTo(st, n + 1) == GotoRowUpTo(st, n) + GotoWrites(st, st.items[n])
  {
    assert st.items[..n + 1][..n] == st.items[..n];
  }

  lemma RowUpToEnds(ps: seq<Production>, follow: SymbolMap, st: State)
    ensures ActionRowUpTo(ps, follow, st, 0) == map[] && GotoRowUpTo(st, 0) == map[]
    ensures ActionRowUpTo(ps, follow, st, |st.items|) == ActionRow(ps, follow, st)
    ensures GotoRowUpTo(st, |st.items|) == GotoRow(st)
  {
    assert st.items[..|st.items|] == st.items;
  }

  /** table[s][t] = v for every (t, v) of w; no row appears when w is empty. */
  function Write(tbl: Table, s: int, w: map<string, string>): Table {
    if w.Keys == {} then tbl else tbl[s := Row(tbl, s) + w]
  }

  /** The ACTION table after the states, in order, wrote their rows. */
  function ActionTableOf(ps: seq<Production>, follow: SymbolMap, states: seq<State>): Table
    decreases |states|
  {
    if |states| == 0 then map[]
    else
      var st := states[|states| - 1];
      Write(ActionTableOf(ps, follow, states[..|states| - 1]), st.stateNum, ActionRow(ps, follow, st))
  }

  function GotoTableOf(states: seq<State>): Table
    decreases |states|
  {
    if |states| == 0 then map[]
    else
      var st := states[|states| - 1];
      Write(GotoTableOf(states[..|states| - 1]), st.stateNum, GotoRow(st))
  }

  lemma WriteLookup(tbl: Table, s: int, w: map<string, string>, r: int, t: string)
    ensures Lookup(Write(tbl, s, w), r, t) == if r == s && t in w then Some(w[t]) else Lookup(tbl, r, t)
  {
  }

  /** Setting one cell of row s after the writes w is writing one more
      single-cell map after them. */
  lemma WriteCell(tbl: Table, s: int, w: map<string, string>, t: string, v: string)
    ensures var cur := Write(tbl, s, w);
      cur[s := Row(cur, s)[t := v]] == Write(tbl, s, w + map[t := v])
  {
    var cur := Write(tbl, s, w);
    assert w + map[t := v] == w[t := v];
    assert t in w[t := v];
    if w.Keys != {} {
      assert Row(cur, s) == Row(tbl, s) + w;
      assert (Row(tbl, s) + w)[t := v] == Row(tbl, s) + w[t := v];
    } else {
      assert w[t := v] == map[t := v];
      assert Row(tbl, s)[t := v] == Row(tbl, s) + map[t := v];
    }
  }

  lemma UnionEmpty(w: map<string, string>)
    ensures w + map[] == w
  {
  }

  /** One more symbol of a reduce loop. */
  lemma ConstStep(w: map<string, string>, done: set<string>, t: string, v: string)
    ensures (w + Const(done, v)) + map[t := v] == w + Const(done + {t}, v)
  {
  }

  /** Last write wins: a symbol is in the row exactly when some item writes
      it, and it holds what the last item writing it wrote. */
  lemma {:induction false} OverlayLastWins(writes: LR0Item -> map<string, string>, items: seq<LR0Item>, t: string)
    ensures t in Overlay(writes, items) <==> exists i :: 0 <= i < |items| && t in writes(items[i])
    ensures forall i ::
      (0 <= i < |items| && t in writes(items[i]) &&
       (forall j :: i < j < |items| ==> t !in writes(items[j]))) ==>
      t in Overlay(writes, items) && Overlay(writes, items)[t] == writes(items[i])[t]
    decreases |items|
  {
    if |items| > 0 {
      var n := |items| - 1;
      var prev := items[..n];
      OverlayLastWins(writes, prev, t);
      assert forall i :: 0 <= i < n ==> prev[i] == items[i];
      if t in Overlay(writes, items) && t !in writes(items[n]) {
        var i :| 0 <= i < n && t in writes(prev[i]);
      }
    }
  }

  /** Every GOTO entry of a row is a transition of the state on a
      nonterminal, naming the state it leads to. */
  lemma {:induction false} GotoOverlayIsTransitions(st: State, items: seq<LR0Item>, x: string)
    requires x in Overlay(it => GotoWrites(st, it), items)
    ensures !IsTerminal(x) && x in st.transitions
    ensures Overlay(it => GotoWrites(st, it), items)[x] == IntToString(st.transitions[x])
    decreases |items|
  {
    var n := |items| - 1;
    if x !in GotoWrites(st, items[n]) {
      GotoOverlayIsTransitions(st, items[..n], x);
    }
  }

  /** Each state writes only its own row: the cell (k, t) of the finished
      table is what state k's row holds for t, and nothing for a number that
      is not a state's. */
  lemma {:induction false} ActionCell(ps: seq<Production>, follow: SymbolMap, states: seq<State>, k: int, t: string)
    requires Numbered(states)
    ensures !(0 <= k < |states|) ==> Lookup(ActionTableOf(ps, follow, states), k, t) == None
    ensures 0 <= k < |states| ==>
      var w := ActionRow(ps, follow, states[k]);
      Lookup(ActionTableOf(ps, follow, states), k, t) == if t in w then Some(w[t]) else None
    decreases |states|
  {
    if |states| > 0 {
      var n := |states| - 1;
      var prev := states[..n];
      assert Numbered(prev);
      ActionCell(ps, follow, prev, k, t);
      WriteLookup(ActionTableOf(ps, follow, prev), n, ActionRow(ps, follow, states[n]), k, t);
      if 0 <= k < n {
        assert prev[k] == states[k];
      }
    }
  }

  lemma {:induction false} GotoCell(states: seq<State>, k: int, t: string)
    requires Numbered(states)
    ensures !(0 <= k < |states|) ==> Lookup(GotoTableOf(states), k, t) == None
    ensures 0 <= k < |states| ==>
      var w := GotoRow(states[k]);
      Lookup(GotoTableOf(states), k, t) == if t in w then Some(w[t]) else None
    decreases |states|
  {
    if |states| > 0 {
      var n := |states| - 1;
      var prev := states[..n];
      assert Numbered(prev);
      GotoCell(prev, k, t);
      WriteLookup(GotoTableOf(prev), n, GotoRow(states[n]), k, t);
      if 0 <= k < n {
        assert prev[k] == states[k];
      }
    }
  }

  /** A GOTO entry always names the state the transition leads to; GOTO
      entries are written only on nonterminals. */
  lemma GotoEntryIsTransition(states: seq<State>, k: int, x: string)
    requires Numbered(states)
    requires Lookup(GotoTableOf(states), k, x).Some?
    ensures 0 <= k < |states| && !IsTerminal(x) && x in states[k].transitions
    ensures Lookup(GotoTableOf(states), k, x) == Some(IntToString(states[k].transitions[x]))
  {
    GotoCell(states, k, x);
    GotoOverlayIsTransitions(states[k], states[k].items, x);
  }
}

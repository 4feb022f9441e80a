/**
 * The SLRGenerator class of slr_generator.cpp: a grammar, its FIRST and
 * FOLLOW maps, and the LR(0) states, filled in by the methods below.  Each
 * method is proved to compute the function of the specification modules
 * that describes it (FirstFix, FollowSets, ClosureOf, GotoOf, the canonical
 * collection, ActionTableOf and GotoTableOf).
 */
module SlrGenerator {
  import opened Orders
  import opened Productions
  import opened LR0Items
  import opened Grammar
  import opened SymbolMaps
  import opened FirstFollow
  import opened ItemSets
  import opened Automaton
  import opened ParsingTable
  import opened Text

  class SlrGenerator {
    var productions: seq<Production>
    var first: SymbolMap
    var follow: SymbolMap
    var states: seq<State>

    /** The constructor runs the three grammar initialisations in turn, so
        the statement grammar is the one left in place. */
    constructor()
      ensures productions == StatementGrammar()
      ensures first == map[] && follow == map[] && states == []
    {
      productions := ArithmeticGrammar();
      productions := BooleanGrammar();
      productions := StatementGrammar();
      first := map[];
      follow := map[];
      states := [];
    }

    method InitArithmeticGrammar()
      modifies this
      ensures productions == ArithmeticGrammar()
      ensures first == old(first) && follow == old(follow) && states == old(states)
    {
      productions := ArithmeticGrammar();
    }

    method InitBooleanGrammar()
      modifies this
      ensures productions == BooleanGrammar()
      ensures first == old(first) && follow == old(follow) && states == old(states)
    {
      productions := BooleanGrammar();
    }

    method InitStatementGrammar()
      modifies this
      ensures productions == StatementGrammar()
      ensures first == old(first) && follow == old(follow) && states == old(states)
    {
      productions := StatementGrammar();
    }

    /** computeFirstSets, with the epsilon branch reaching the size check.
        The map is not cleared first: the passes start from what an earlier
        run left.  On a grammar without epsilon rules the result is the one
        the loop as written computes. */
    method ComputeFirstSets()
      modifies this
      ensures first == FirstFix(productions, old(first))
      ensures NoEmptyRules(productions) ==> first == FirstFixAsWritten(productions, old(first))
      ensures productions == old(productions) && follow == old(follow) && states == old(states)
    {
      ghost var ps := productions;
      var changed := true;
      while changed
        invariant productions == ps && follow == old(follow) && states == old(states)
        invariant changed ==> FirstFix(ps, first) == FirstFix(ps, old(first))
        invariant !changed ==> first == FirstFix(ps, old(first))
        decreases Budget(first, Lefts(ps), FirstVals(ps)) - Pairs(first), if changed then 1 else 0
      {
        ghost var start := first;
        changed := FirstRound();
        FirstPassProgress(ps, ps, start);
        ProgressMeasure(start, first, changed, Lefts(ps), FirstVals(ps));
      }
      if NoEmptyRules(ps) {
        FirstFixAsWrittenAgrees(ps, old(first));
      }
    }

    /** One pass of computeFirstSets' do-while loop over the productions. */
    method FirstRound() returns (changed: bool)
      modifies this
      ensures (first, changed) == FirstPass(productions, old(first))
      ensures productions == old(productions) && follow == old(follow) && states == old(states)
    {
      ghost var ps := productions;
      changed := false;
      var i := 0;
      while i < |productions|
        invariant productions == ps && follow == old(follow) && states == old(states)
        invariant 0 <= i <= |productions|
        invariant (first, changed) == FirstPass(ps[..i], old(first))
      {
        var prod := productions[i];
        var firstSet := Get(first, prod.left);
        var oldSize := |firstSet|;
        if |prod.right| == 0 {
          firstSet := firstSet + {Epsilon};
        } else if IsTerminal(prod.right[0]) {
          firstSet := firstSet + {prod.right[0]};
        } else {
          firstSet := firstSet + Get(first, prod.right[0]);
        }
        first := first[prod.left := firstSet];
        if |firstSet| > oldSize {
          changed := true;
        }
        assert ps[..i + 1][..i] == ps[..i];
        i := i + 1;
      }
      assert ps[..i] == ps;
    }

    /** computeFollowSets: # goes into FOLLOW of production 0's left side,
        then passes over every nonterminal position until none changes a
        set.  Like FIRST, the map is not cleared between runs. */
    method ComputeFollowSets()
      requires |productions| > 0
      modifies this
      ensures productions == old(productions) && first == old(first) && states == old(states)
      ensures follow == FollowSets(old(productions), old(first), old(follow))
    {
      ghost var ps := productions;
      follow := follow[productions[0].left := Get(follow, productions[0].left) + {EndMarker}];
      assert follow == FollowSeed(ps, old(follow));
      var changed := true;
      while changed
        invariant productions == ps && first == old(first) && states == old(states)
        invariant changed ==> FollowFix(ps, first, follow) == FollowSets(ps, first, old(follow))
        invariant !changed ==> follow == FollowSets(ps, first, old(follow))
        decreases Budget(follow, Symbols(ps), FollowVals(ps, first)) - Pairs(follow), if changed then 1 else 0
      {
        ghost var start := follow;
        changed := FollowRound();
        FollowPassProgress(ps, ps, first, start);
        ProgressMeasure(start, follow, changed, Symbols(ps), FollowVals(ps, first));
      }
    }

    /** One pass of computeFollowSets' do-while loop over the productions. */
    method FollowRound() returns (changed: bool)
      modifies this
      ensures (follow, changed) == FollowPass(productions, first, old(follow))
      ensures productions == old(productions) && first == old(first) && states == old(states)
    {
      ghost var ps := productions;
      changed := false;
      var k := 0;
      while k < |productions|
        invariant productions == ps && first == old(first) && states == old(states)
        invariant 0 <= k <= |productions|
        invariant (follow, changed) == FollowPass(ps[..k], first, old(follow))
      {
        var prod := productions[k];
        ghost var mid, c0 := follow, changed;
        var c := FollowProduction(prod);
        changed := changed || c;
        assert ps[..k + 1][..k] == ps[..k] && ps[..k + 1][k] == prod;
        assert FollowPass(ps[..k + 1], first, old(follow)) ==
          (FollowProd(prod, |prod.right|, first, mid).0, c0 || FollowProd(prod, |prod.right|, first, mid).1);
        k := k + 1;
      }
      assert ps[..k] == ps;
    }

    /** The position loop over one production's right side. */
    method FollowProduction(prod: Production) returns (changed: bool)
      modifies this
      ensures (follow, changed) == FollowProd(prod, |prod.right|, first, old(follow))
      ensures productions == old(productions) && first == old(first) && states == old(states)
    {
      changed := false;
      var i := 0;
      while i < |prod.right|
        invariant productions == old(productions) && first == old(first) && states == old(states)
        invariant 0 <= i <= |prod.right|
        invariant (follow, changed) == FollowProd(prod, i, first, old(follow))
      {
        var c := FollowPosition(prod, i);
        changed := changed || c;
        i := i + 1;
      }
    }

    /** One position of the loop: a nonterminal at i receives the next
        symbol, FIRST of it, or FOLLOW of the left side at the end. */
    method FollowPosition(prod: Production, i: nat) returns (changed: bool)
      requires i < |prod.right|
      modifies this
      ensures (follow, changed) == FollowStep(prod, i, first, old(follow))
      ensures productions == old(productions) && first == old(first) && states == old(states)
    {
      changed := false;
      if !IsTerminal(prod.right[i]) {
        var followSet := Get(follow, prod.right[i]);
        var oldSize := |followSet|;
        if i < |prod.right| - 1 {
          if IsTerminal(prod.right[i + 1]) {
            followSet := followSet + {prod.right[i + 1]};
          } else {
            followSet := followSet + Get(first, prod.right[i + 1]);
          }
        } else {
          followSet := followSet + Get(follow, prod.left);
        }
        follow := follow[prod.right[i] := followSet];
        if |followSet| > oldSize {
          changed := true;
        }
      }
    }

    /** closure: rounds that add (Q, 0) for every production Q of the
        nonterminal after some item's dot, until a round adds nothing. */
    method Closure(items: seq<LR0Item>) returns (r: seq<LR0Item>)
      requires ItemSet(items)
      ensures ItemSet(r) && Elems(r) == ClosureOf(productions, Elems(items))
    {
      r := items;
      var changed := true;
      while changed
        invariant ItemSet(r)
        invariant changed ==> ClosureOf(productions, Elems(r)) == ClosureOf(productions, Elems(items))
        invariant !changed ==> Elems(r) == ClosureOf(productions, Elems(items))
        decreases Dot0(productions) - Elems(r), if changed then 1 else 0
      {
        var newItems;
        newItems, changed := ClosureRound(r);
        ExpansionInDot0(productions, Elems(r));
        if changed {
          ClosureOfStep(productions, Elems(r));
          var x :| x in Elems(newItems) && x !in Elems(r);
          assert x in Dot0(productions) - Elems(r);
        }
        r := newItems;
      }
    }

    /** One round of closure's do-while loop: newItems starts as a copy of
        the items and receives the start items each item asks for; the flag
        says whether any insertion was new. */
    method ClosureRound(r: seq<LR0Item>) returns (newItems: seq<LR0Item>, changed: bool)
      requires ItemSet(r)
      ensures ItemSet(newItems) && Elems(newItems) == ClosureStep(productions, Elems(r))
      ensures changed <==> Elems(newItems) != Elems(r)
    {
      changed := false;
      newItems := r;
      var k := 0;
      while k < |r|
        invariant 0 <= k <= |r|
        invariant ItemSet(newItems)
        invariant Elems(newItems) == Elems(r) + Expansion(productions, Elems(r[..k]))
        invariant changed <==> Elems(newItems) != Elems(r)
      {
        var item := r[k];
        ghost var before := Expansion(productions, Elems(r[..k]));
        ExpansionPrefix(productions, r, k);
        if item.dotPos < |item.prod.right| && !IsTerminal(item.prod.right[item.dotPos]) {
          ghost var acc := newItems;
          var added;
          newItems, added := AddStartItems(newItems, item.prod.right[item.dotPos]);
          RoundAdds(Elems(r), before, Elems(acc), Elems(newItems), Expand(productions, item));
          changed := changed || added;
        } else {
          assert Expand(productions, item) == {};
        }
        k := k + 1;
      }
      assert r[..k] == r;
    }

    /** The production loop inside a round: insert (Q, 0) for every
        production Q of nonterminal x, noting whether an insertion was new. */
    method AddStartItems(acc: seq<LR0Item>, x: string) returns (out: seq<LR0Item>, added: bool)
      requires ItemSet(acc)
      ensures ItemSet(out) && Elems(out) == Elems(acc) + StartItems(productions, x)
      ensures added <==> Elems(out) != Elems(acc)
    {
      out, added := acc, false;
      var j := 0;
      while j < |productions|
        invariant 0 <= j <= |productions|
        invariant ItemSet(out) && Elems(out) == Elems(acc) + StartItems(productions[..j], x)
        invariant added <==> Elems(out) != Elems(acc)
      {
        StartItemsPrefix(productions, j, x);
        if productions[j].left == x {
          var newItem := LR0Item(productions[j], 0);
          if newItem !in out {
            out := InsertItem(out, newItem);
            added := true;
          }
        }
        j := j + 1;
      }
      assert productions[..j] == productions;
    }

    /** computeGoto: advance the dot over symbol in every item that allows
        it, then close the result. */
    method ComputeGoto(items: seq<LR0Item>, symbol: string) returns (r: seq<LR0Item>)
      ensures ItemSet(r) && Elems(r) == GotoOf(productions, Elems(items), symbol)
    {
      var gotoSet: seq<LR0Item> := [];
      var k := 0;
      while k < |items|
        invariant 0 <= k <= |items|
        invariant ItemSet(gotoSet) && Elems(gotoSet) == Advance(Elems(items[..k]), symbol)
      {
        var item := items[k];
        AdvancePrefix(items, k, symbol);
        if item.dotPos < |item.prod.right| && item.prod.right[item.dotPos] == symbol {
          gotoSet := InsertItem(gotoSet, LR0Item(item.prod, item.dotPos + 1));
        }
        k := k + 1;
      }
      assert items[..k] == items;
      r := Closure(gotoSet);
    }

    /** The symbols after a dot in the items, collected into an ordered set. */
    method CollectSymbols(items: seq<LR0Item>) returns (symbols: seq<string>)
      ensures Sorted(StringLess, symbols) && Elems(symbols) == NextSymbols(Elems(items))
    {
      StringLessStrictTotal();
      symbols := [];
      var k := 0;
      while k < |items|
        invariant 0 <= k <= |items|
        invariant Sorted(StringLess, symbols) && Elems(symbols) == NextSymbols(Elems(items[..k]))
      {
        var item := items[k];
        NextSymbolsPrefix(items, k);
        if item.dotPos < |item.prod.right| {
          symbols := Insert(StringLess, symbols, item.prod.right[item.dotPos]);
        }
        k := k + 1;
      }
      assert items[..k] == items;
    }

    /** One round of constructLR0Items' queue loop for the state popped
        from the queue: every goto on a symbol after a dot becomes a
        transition, to a new state appended and queued when the item set
        has no state yet. */
    method ExpandState(current: int, stateMap: map<seq<LR0Item>, int>, queue: seq<int>,
                       ghost ps: seq<Production>, ghost parent: seq<(int, string)>)
      returns (stateMap': map<seq<LR0Item>, int>, queue': seq<int>, ghost parent': seq<(int, string)>)
      requires ps == productions
      requires Explored(ps, states, stateMap, current) && current < |states|
      requires DiscoveredBy(states, parent)
      requires QueueFrom(queue, current + 1, |states|)
      modifies this`states
      ensures Explored(ps, states, stateMap', current + 1) && DiscoveredBy(states, parent')
      ensures QueueFrom(queue', current + 1, |states|)
      ensures |old(states)| <= |states| && forall k :: 0 <= k < |old(states)| ==> states[k].items == old(states)[k].items
      ensures Powerset(AllItems(ps)) - ItemSetsOf(states) < Powerset(AllItems(ps)) - ItemSetsOf(old(states)) ||
              (Powerset(AllItems(ps)) - ItemSetsOf(states) == Powerset(AllItems(ps)) - ItemSetsOf(old(states)) &&
               |states| == |old(states)|)
    {
      ghost var states0 := states;
      ghost var items0 := states[current].items;
      stateMap', queue', parent' := stateMap, queue, parent;
      var symbols := CollectSymbols(states[current].items);
      var j := 0;
      while j < |symbols|
        invariant productions == ps
        invariant 0 <= j <= |symbols|
        invariant Expanding(ps, states, stateMap', current, states0)
        invariant forall x :: x in states[current].transitions <==> x in symbols[..j] && GotoOf(ps, Elems(items0), x) != {}
        invariant QueueFrom(queue', current + 1, |states|)
        invariant DiscoveredBy(states, parent')
      {
        SymbolsBefore(ps, Elems(items0), symbols, j, states[current].transitions);
        ghost var before := states[current].transitions;
        stateMap', queue', parent' := AddTransition(current, symbols[j], stateMap', queue', ps, states0, parent');
        SymbolStep(ps, Elems(items0), symbols, j, before, states[current].transitions);
        j := j + 1;
      }
      assert symbols[..j] == symbols;
      ExpansionDone(ps, states0, states, stateMap', current, symbols);
    }

    /** The body of the symbol loop: compute the goto of the current state
        on symbol and, when it is not empty, record the transition, first
        appending and queueing a new state if no state holds that item set. */
    method AddTransition(current: int, symbol: string, stateMap: map<seq<LR0Item>, int>, queue: seq<int>,
                         ghost ps: seq<Production>, ghost states0: seq<State>, ghost parent: seq<(int, string)>)
      returns (stateMap': map<seq<LR0Item>, int>, queue': seq<int>, ghost parent': seq<(int, string)>)
      requires ps == productions
      requires Expanding(ps, states, stateMap, current, states0)
      requires DiscoveredBy(states, parent) && forall y :: y in states[current].transitions ==> StringLess(y, symbol)
      requires QueueFrom(queue, current + 1, |states|)
      modifies this`states
      ensures Expanding(ps, states, stateMap', current, states0)
      ensures QueueFrom(queue', current + 1, |states|)
      ensures DiscoveredBy(states, parent')
      ensures forall x :: x in states[current].transitions <==>
        x in old(states)[current].transitions ||
        (x == symbol && GotoOf(ps, Elems(states0[current].items), symbol) != {})
    {
      var gotoSet := ComputeGoto(states[current].items, symbol);
      assert |gotoSet| == 0 <==> GotoOf(ps, Elems(states0[current].items), symbol) == {} by {
        if |gotoSet| != 0 {
          assert gotoSet[0] in Elems(gotoSet);
        }
      }
      if |gotoSet| != 0 {
        stateMap', queue', parent' := LinkState(current, symbol, gotoSet, stateMap, queue, ps, states0, parent);
      } else {
        stateMap', queue', parent' := stateMap, queue, parent;
      }
    }

    /** Records the transition on symbol to the state holding gotoSet,
        appending and queueing that state first when it is new. */
    method LinkState(current: int, symbol: string, gotoSet: seq<LR0Item>, stateMap: map<seq<LR0Item>, int>,
                     queue: seq<int>, ghost ps: seq<Production>, ghost states0: seq<State>,
                     ghost parent: seq<(int, string)>)
      returns (stateMap': map<seq<LR0Item>, int>, queue': seq<int>, ghost parent': seq<(int, string)>)
      requires ps == productions
      requires Expanding(ps, states, stateMap, current, states0)
      requires DiscoveredBy(states, parent) && forall y :: y in states[current].transitions ==> StringLess(y, symbol)
      requires ItemSet(gotoSet) && Elems(gotoSet) == GotoOf(ps, Elems(states[current].items), symbol)
      requires QueueFrom(queue, current + 1, |states|)
      modifies this`states
      ensures Expanding(ps, states, stateMap', current, states0)
      ensures DiscoveredBy(states, parent')
      ensures QueueFrom(queue', current + 1, |states|)
      ensures gotoSet in stateMap' &&
        states[current].transitions == old(states)[current].transitions[symbol := stateMap'[gotoSet]]
    {
      if gotoSet !in stateMap {
        var newStateNum := |states|;
        stateMap' := stateMap[gotoSet := newStateNum];
        QueueAppend(queue, current + 1, newStateNum);
        queue' := queue + [newStateNum];
        parent' := parent + [(current, symbol)];
        states := Relink(states + [NewState(gotoSet, newStateNum)], current, symbol, newStateNum);
        LinkedNew(ps, old(states), stateMap, current, states0, parent, gotoSet, symbol);
      } else {
        stateMap', queue', parent' := stateMap, queue, parent;
        states := Relink(states, current, symbol, stateMap[gotoSet]);
        LinkedOld(ps, old(states), stateMap, current, states0, parent, gotoSet, symbol);
      }
    }

    /** constructLR0Items: state 0 is the closure of (production 0, 0); a
        breadth-first search from it numbers every item set reachable by
        goto.  The collection is cleared first. */
    method ConstructLR0Items()
      requires |productions| > 0
      modifies this
      ensures productions == old(productions) && first == old(first) && follow == old(follow)
      ensures CanonicalCollection(productions, states)
    {
      ghost var ps := productions;
      states := [];
      var stateMap: map<seq<LR0Item>, int> := map[];
      var initialItems := Closure([LR0Item(productions[0], 0)]);
      assert Elems([LR0Item(ps[0], 0)]) == {LR0Item(ps[0], 0)};
      assert Elems(initialItems) <= AllItems(ps) && ClosedItems(ps, Elems(initialItems)) by {
        ClosureProperties(ps, {LR0Item(ps[0], 0)});
        ClosureWithin(ps, {LR0Item(ps[0], 0)});
      }
      states := states + [NewState(initialItems, 0)];
      stateMap := stateMap[initialItems := 0];
      var queue := [0];
      ghost var head := 0;
      ghost var parent := [(0, "")];
      while |queue| > 0
        invariant productions == ps && first == old(first) && follow == old(follow)
        invariant Explored(ps, states, stateMap, head) && DiscoveredBy(states, parent)
        invariant QueueFrom(queue, head, |states|)
        invariant |states| > 0 && Elems(states[0].items) == ClosureOf(ps, {LR0Item(ps[0], 0)})
        decreases Powerset(AllItems(ps)) - ItemSetsOf(states), |queue|
      {
        var currentState := queue[0];
        queue := queue[1..];
        stateMap, queue, parent := ExpandState(currentState, stateMap, queue, ps, parent);
        head := head + 1;
      }
      ExploredAll(ps, states, stateMap, parent);
    }

    /** The production-number search of generateParsingTable: the first
        index whose production equals p, 0 when there is none. */
    method ProductionIndex(p: Production) returns (prodIndex: nat)
      ensures prodIndex == FirstIndex(productions, p)
    {
      prodIndex := 0;
      var i := 0;
      while i < |productions|
        invariant 0 <= i <= |productions|
        invariant forall j :: 0 <= j < i ==> productions[j] != p
      {
        if Equal(productions[i], p) {
          prodIndex := i;
          return;
        }
        i := i + 1;
      }
    }

    /** The cells one item of state st writes: accept, a reduce on every
        symbol of FOLLOW of the item's left side, a shift, or a goto.  The
        tables are what earlier items wrote into rows prevA and prevG. */
    method WriteItem(st: State, item: LR0Item, action: Table, gotoTable: Table,
                     ghost prevA: Table, ghost wA: map<string, string>, ghost prevG: Table, ghost wG: map<string, string>)
      returns (action': Table, gotoTable': Table)
      requires action == Write(prevA, st.stateNum, wA) && gotoTable == Write(prevG, st.stateNum, wG)
      ensures action' == Write(prevA, st.stateNum, wA + ActionWrites(productions, follow, st, item))
      ensures gotoTable' == Write(prevG, st.stateNum, wG + GotoWrites(st, item))
    {
      var s := st.stateNum;
      ActionWritesCases(productions, follow, st, item);
      UnionEmpty(wA);
      UnionEmpty(wG);
      action', gotoTable' := action, gotoTable;
      if item.dotPos == |item.prod.right| {
        if item.prod.left == AugmentedStart {
          WriteCell(prevA, s, wA, EndMarker, "acc");
          action' := action'[s := Row(action', s)[EndMarker := "acc"]];
        } else {
          var prodIndex := ProductionIndex(item.prod);
          action' := WriteReduces(s, Get(follow, item.prod.left), "r" + NatToString(prodIndex), action', prevA, wA);
        }
      } else if item.dotPos < |item.prod.right| {
        var nextSymbol := item.prod.right[item.dotPos];
        if nextSymbol in st.transitions {
          var nextState := st.transitions[nextSymbol];
          if IsTerminal(nextSymbol) {
            WriteCell(prevA, s, wA, nextSymbol, "s" + IntToString(nextState));
            action' := action'[s := Row(action', s)[nextSymbol := "s" + IntToString(nextState)]];
          } else {
            WriteCell(prevG, s, wG, nextSymbol, IntToString(nextState));
            gotoTable' := gotoTable'[s := Row(gotoTable', s)[nextSymbol := IntToString(nextState)]];
          }
        }
      }
    }

    /** The loop over FOLLOW of a reduce item: the same reduce entry v in
        row s for every symbol of the set, in any order. */
    method WriteReduces(s: int, symbols: set<string>, v: string, action: Table, ghost prevA: Table, ghost wA: map<string, string>)
      returns (action': Table)
      requires action == Write(prevA, s, wA)
      ensures action' == Write(prevA, s, wA + Const(symbols, v))
    {
      action' := action;
      var rest := symbols;
      assert Const(symbols - rest, v) == map[] by {
        assert symbols - rest == {};
      }
      UnionEmpty(wA);
      while rest != {}
        invariant rest <= symbols
        invariant action' == Write(prevA, s, wA + Const(symbols - rest, v))
        decreases rest
      {
        var symbol :| symbol in rest;
        ghost var done := symbols - rest;
        WriteCell(prevA, s, wA + Const(done, v), symbol, v);
        ConstStep(wA, done, symbol, v);
        action' := action'[s := Row(action', s)[symbol := v]];
        rest := rest - {symbol};
        assert symbols - rest == done + {symbol};
      }
      assert symbols - rest == symbols;
    }

    /** The table-filling loops of generateParsingTable, over the states and
        their items in order. */
    method FillTables() returns (action: Table, gotoTable: Table)
      ensures action == ActionTableOf(productions, follow, states)
      ensures gotoTable == GotoTableOf(states)
    {
      action, gotoTable := map[], map[];
      var k := 0;
      while k < |states|
        invariant 0 <= k <= |states|
        invariant action == ActionTableOf(productions, follow, states[..k])
        invariant gotoTable == GotoTableOf(states[..k])
      {
        action, gotoTable := FillState(states[k], action, gotoTable);
        assert states[..k + 1][..k] == states[..k] && states[..k + 1][k] == states[k];
        k := k + 1;
      }
      assert states[..k] == states;
    }

    /** The item loop for one state: every item writes its cells into the
        state's rows, in item order. */
    method FillState(st: State, action: Table, gotoTable: Table) returns (action': Table, gotoTable': Table)
      ensures action' == Write(action, st.stateNum, ActionRow(productions, follow, st))
      ensures gotoTable' == Write(gotoTable, st.stateNum, GotoRow(st))
    {
      RowUpToEnds(productions, follow, st);
      action', gotoTable' := action, gotoTable;
      var i := 0;
      while i < |st.items|
        invariant 0 <= i <= |st.items|
        invariant action' == Write(action, st.stateNum, ActionRowUpTo(productions, follow, st, i))
        invariant gotoTable' == Write(gotoTable, st.stateNum, GotoRowUpTo(st, i))
      {
        RowUpToStep(productions, follow, st, i);
        action', gotoTable' := WriteItem(st, st.items[i], action', gotoTable',
          action, ActionRowUpTo(productions, follow, st, i), gotoTable, GotoRowUpTo(st, i));
        i := i + 1;
      }
    }

    /** generateParsingTable: FIRST, FOLLOW, the canonical collection, then
        the two tables, returned here instead of printed. */
    method GenerateParsingTable() returns (action: Table, gotoTable: Table)
      requires |productions| > 0
      modifies this
      ensures productions == old(productions)
      ensures first == FirstFix(productions, old(first))
      ensures follow == FollowSets(productions, first, old(follow))
      ensures CanonicalCollection(productions, states)
      ensures action == ActionTableOf(productions, follow, states) && gotoTable == GotoTableOf(states)
    {
      ComputeFirstSets();
      ComputeFollowSets();
      ConstructLR0Items();
      action, gotoTable := FillTables();
    }

    /** generateArithmeticTable: the arithmetic grammar, then its tables.
        FIRST and FOLLOW start from whatever an earlier run left. */
    method GenerateArithmeticTable() returns (action: Table, gotoTable: Table)
      modifies this
      ensures productions == ArithmeticGrammar()
      ensures first == FirstFix(productions, old(first)) == FirstFixAsWritten(productions, old(first))
      ensures follow == FollowSets(productions, first, old(follow))
      ensures CanonicalCollection(productions, states)
      ensures action == ActionTableOf(productions, follow, states) && gotoTable == GotoTableOf(states)
    {
      InitArithmeticGrammar();
      FixedGrammarsHaveNoEmptyRules();
      FirstFixAsWrittenAgrees(productions, first);
      action, gotoTable := GenerateParsingTable();
    }

    method GenerateBooleanTable() returns (action: Table, gotoTable: Table)
      modifies this
      ensures productions == BooleanGrammar()
      ensures first == FirstFix(productions, old(first)) == FirstFixAsWritten(productions, old(first))
      ensures follow == FollowSets(productions, first, old(follow))
      ensures CanonicalCollection(productions, states)
      ensures action == ActionTableOf(productions, follow, states) && gotoTable == GotoTableOf(states)
    {
      InitBooleanGrammar();
      FixedGrammarsHaveNoEmptyRules();
      FirstFixAsWrittenAgrees(productions, first);
      action, gotoTable := GenerateParsingTable();
    }

    method GenerateStatementTable() returns (action: Table, gotoTable: Table)
      modifies this
      ensures productions == StatementGrammar()
      ensures first == FirstFix(productions, old(first)) == FirstFixAsWritten(productions, old(first))
      ensures follow == FollowSets(productions, first, old(follow))
      ensures CanonicalCollection(productions, states)
      ensures action == ActionTableOf(productions, follow, states) && gotoTable == GotoTableOf(states)
    {
      InitStatementGrammar();
      FixedGrammarsHaveNoEmptyRules();
      FirstFixAsWrittenAgrees(productions, first);
      action, gotoTable := GenerateParsingTable();
    }
  }
}

/**
 * What the canonical collection built by constructLR0Items satisfies: states
 * numbered by position, distinct closed item sets, transitions that are
 * exactly the gotos on the symbols after a dot, and numbers given in the
 * breadth-first order in which the states are first reached.
 */
module Automaton {
  import opened Orders
  import opened LR0Items
  import opened ItemSets
  import opened Productions

  ghost function Powerset<T>(s: set<T>): set<set<T>> {
    set x: set<T> | x <= s
  }

  /** The item sets held by the states. */
  ghost function ItemSetsOf(states: seq<State>): set<set<LR0Item>> {
    set k | 0 <= k < |states| :: Elems(states[k].items)
  }

  /** states[k].stateNum == k for every k. */
  ghost predicate Numbered(states: seq<State>) {
    forall k :: 0 <= k < |states| ==> states[k].stateNum == k
  }

  /** No two states hold the same item set. */
  ghost predicate DistinctItemSets(states: seq<State>) {
    forall i, j :: 0 <= i < |states| && 0 <= j < |states| && i != j ==> states[i].items != states[j].items
  }

  /** Every state holds an ordered, closed set of items of the grammar. */
  ghost predicate StatesWellFormed(ps: seq<Production>, states: seq<State>) {
    forall k :: 0 <= k < |states| ==>
      ItemSet(states[k].items) && Elems(states[k].items) <= AllItems(ps) &&
      ClosedItems(ps, Elems(states[k].items))
  }

  /** Every transition on x leads to an existing state whose items are the
      goto of the source state's items on x. */
  ghost predicate TransitionsSound(ps: seq<Production>, states: seq<State>) {
    forall k, x :: 0 <= k < |states| && x in states[k].transitions ==>
      0 <= states[k].transitions[x] < |states| &&
      Elems(states[states[k].transitions[x]].items) == GotoOf(ps, Elems(states[k].items), x)
  }

  /** A state has a transition on exactly the symbols that follow a dot in it. */
  ghost predicate TransitionsComplete(states: seq<State>) {
    forall k :: 0 <= k < |states| ==> states[k].transitions.Keys == NextSymbols(Elems(states[k].items))
  }

  /** Transition (j1, x1) is handled before transition (j2, x2) by the queue
      loop: states in queue order, and within a state the symbols in the
      order of the symbol set. */
  ghost predicate EdgeBefore(j1: int, x1: string, j2: int, x2: string) {
    j1 < j2 || (j1 == j2 && StringLess(x1, x2))
  }

  /** parent[k] is the transition that discovered state k: it leaves an
      earlier state and leads to k, and every transition handled before it
      leads to a state numbered below k.  So every state is reachable from
      state 0, and states are numbered in the order they are first reached. */
  ghost predicate DiscoveredBy(states: seq<State>, parent: seq<(int, string)>) {
    |parent| == |states| &&
    (forall k :: 0 < k < |states| ==>
      0 <= parent[k].0 < k && parent[k].1 in states[parent[k].0].transitions &&
      states[parent[k].0].transitions[parent[k].1] == k) &&
    (forall k, j, x ::
      (0 < k < |states| && 0 <= j < |states| && x in states[j].transitions &&
       EdgeBefore(j, x, parent[k].0, parent[k].1)) ==> states[j].transitions[x] < k)
  }

  /** The states are numbered breadth-first, by first discovery. */
  ghost predicate BreadthFirst(states: seq<State>) {
    exists parent :: DiscoveredBy(states, parent)
  }

  /** The full contract of constructLR0Items on a grammar with a first production. */
  ghost predicate CanonicalCollection(ps: seq<Production>, states: seq<State>)
    requires |ps| > 0
  {
    |states| > 0 &&
    Elems(states[0].items) == ClosureOf(ps, {LR0Item(ps[0], 0)}) &&
    Numbered(states) && DistinctItemSets(states) && StatesWellFormed(ps, states) &&
    TransitionsSound(ps, states) && TransitionsComplete(states) && BreadthFirst(states)
  }

  /** Distinct ordered item sequences hold distinct item sets, so the state
      map keyed by sequences tells item sets apart. */
  lemma DistinctSetsOf(ps: seq<Production>, states: seq<State>, i: int, j: int)
    requires DistinctItemSets(states) && StatesWellFormed(ps, states)
    requires 0 <= i < |states| && 0 <= j < |states| && i != j
    ensures Elems(states[i].items) != Elems(states[j].items)
  {
    ItemLessIsStrictTotal();
    if Elems(states[i].items) == Elems(states[j].items) {
      SortedUnique(ItemLess, states[i].items, states[j].items);
    }
  }

  /** The collection is closed under goto: from any state, the goto on any
      symbol after a dot is itself a state, reached by that transition. */
  lemma GotoIsAState(ps: seq<Production>, states: seq<State>, k: int, x: string)
    requires |ps| > 0 && CanonicalCollection(ps, states)
    requires 0 <= k < |states| && x in NextSymbols(Elems(states[k].items))
    ensures x in states[k].transitions
    ensures var t := states[k].transitions[x];
      0 <= t < |states| && Elems(states[t].items) == GotoOf(ps, Elems(states[k].items), x) &&
      GotoOf(ps, Elems(states[k].items), x) != {}
  {
    GotoEmptyIff(ps, Elems(states[k].items), x);
  }

  /** A transition from a state with the same items in both collections
      exists in both and leads to states with the same item set. */
  lemma SameEdge(ps: seq<Production>, a: seq<State>, b: seq<State>, j: int, x: string)
    requires |ps| > 0 && CanonicalCollection(ps, a) && CanonicalCollection(ps, b)
    requires 0 <= j < |a| && j < |b| && a[j].items == b[j].items && x in a[j].transitions
    ensures x in b[j].transitions && 0 <= b[j].transitions[x] < |b|
    ensures Elems(b[b[j].transitions[x]].items) == Elems(a[a[j].transitions[x]].items)
  {
    assert x in NextSymbols(Elems(a[j].items));
  }

  /** State k has the same items in both collections once every state
      below it does, provided a's discoverer of k is handled no later than
      b's: in b that transition leads to a state no higher than k with the
      same item set, so to k itself. */
  lemma AgreeAt(ps: seq<Production>, a: seq<State>, b: seq<State>,
                pa: seq<(int, string)>, pb: seq<(int, string)>, k: int)
    requires |ps| > 0 && CanonicalCollection(ps, a) && CanonicalCollection(ps, b)
    requires DiscoveredBy(a, pa) && DiscoveredBy(b, pb)
    requires 0 < k < |a| && k < |b| && forall i :: 0 <= i < k ==> a[i].items == b[i].items
    requires pa[k] == pb[k] || EdgeBefore(pa[k].0, pa[k].1, pb[k].0, pb[k].1)
    ensures a[k].items == b[k].items
  {
    var j, x := pa[k].0, pa[k].1;
    SameEdge(ps, a, b, j, x);
    var t := b[j].transitions[x];
    assert t <= k;
    if t < k {
      assert a[t].items == b[t].items;
      DistinctSetsOf(ps, a, t, k);
    }
    ItemLessIsStrictTotal();
    SortedUnique(ItemLess, a[k].items, b[k].items);
  }

  /** State k has the same items in both collections once every state
      below it does, whichever discoverer is handled first. */
  lemma AgreeNext(ps: seq<Production>, a: seq<State>, b: seq<State>,
                  pa: seq<(int, string)>, pb: seq<(int, string)>, k: int)
    requires |ps| > 0 && CanonicalCollection(ps, a) && CanonicalCollection(ps, b)
    requires DiscoveredBy(a, pa) && DiscoveredBy(b, pb)
    requires 0 <= k < |a| && k < |b| && forall i :: 0 <= i < k ==> a[i].items == b[i].items
    ensures a[k].items == b[k].items
  {
    if k == 0 {
      ItemLessIsStrictTotal();
      SortedUnique(ItemLess, a[0].items, b[0].items);
    } else if pa[k] == pb[k] || EdgeBefore(pa[k].0, pa[k].1, pb[k].0, pb[k].1) {
      AgreeAt(ps, a, b, pa, pb, k);
    } else {
      StringLessStrictTotal();
      assert EdgeBefore(pb[k].0, pb[k].1, pa[k].0, pa[k].1);
      AgreeAt(ps, b, a, pb, pa, k);
    }
  }

  /** The two collections agree on the items of their first n states. */
  lemma {:induction false} AgreeBelow(ps: seq<Production>, a: seq<State>, b: seq<State>,
                                      pa: seq<(int, string)>, pb: seq<(int, string)>, n: int)
    requires |ps| > 0 && CanonicalCollection(ps, a) && CanonicalCollection(ps, b)
    requires DiscoveredBy(a, pa) && DiscoveredBy(b, pb)
    requires 0 <= n <= |a| && n <= |b|
    ensures forall i :: 0 <= i < n ==> a[i].items == b[i].items
    decreases n
  {
    if n > 0 {
      AgreeBelow(ps, a, b, pa, pb, n - 1);
      AgreeNext(ps, a, b, pa, pb, n - 1);
    }
  }

  /** A collection that agrees with a longer one on its states would miss
      the longer one's next state: its discoverer leads, in the shorter
      collection, to a state with the same item set. */
  lemma SameLength(ps: seq<Production>, a: seq<State>, b: seq<State>, pb: seq<(int, string)>)
    requires |ps| > 0 && CanonicalCollection(ps, a) && CanonicalCollection(ps, b) && DiscoveredBy(b, pb)
    requires |a| <= |b| && forall i :: 0 <= i < |a| ==> a[i].items == b[i].items
    ensures |a| == |b|
  {
    if |a| < |b| {
      var k := |a|;
      var j, x := pb[k].0, pb[k].1;
      SameEdge(ps, b, a, j, x);
      var t := a[j].transitions[x];
      assert b[t].items == a[t].items;
      DistinctSetsOf(ps, b, t, k);
    }
  }

  /** The contract determines the collection: two lists of states that
      both satisfy it are equal, so the number of states, their items,
      their numbers and every transition's target are fixed by the grammar. */
  lemma CanonicalUnique(ps: seq<Production>, a: seq<State>, b: seq<State>)
    requires |ps| > 0 && CanonicalCollection(ps, a) && CanonicalCollection(ps, b)
    ensures a == b
  {
    var pa :| DiscoveredBy(a, pa);
    var pb :| DiscoveredBy(b, pb);
    if |a| <= |b| {
      AgreeBelow(ps, a, b, pa, pb, |a|);
      SameLength(ps, a, b, pb);
    } else {
      AgreeBelow(ps, a, b, pa, pb, |b|);
      SameLength(ps, b, a, pa);
    }
    forall j | 0 <= j < |a| ensures a[j] == b[j] {
      forall x | x in a[j].transitions ensures x in b[j].transitions && a[j].transitions[x] == b[j].transitions[x] {
        SameEdge(ps, a, b, j, x);
        var ta, tb := a[j].transitions[x], b[j].transitions[x];
        assert a[tb].items == b[tb].items;
        if ta != tb {
          DistinctSetsOf(ps, a, ta, tb);
        }
      }
      assert a[j].transitions.Keys == b[j].transitions.Keys;
      assert a[j].transitions == b[j].transitions;
    }
  }

  /** There are no more states than subsets of the grammar's items. */
  lemma StatesBounded(ps: seq<Production>, states: seq<State>)
    requires StatesWellFormed(ps, states)
    ensures ItemSetsOf(states) <= Powerset(AllItems(ps))
  {
  }

  /** Keeping the item sets of the first |a| states and adding states only
      adds item sets. */
  lemma ItemSetsOfGrow(a: seq<State>, b: seq<State>)
    requires |a| <= |b| && forall k :: 0 <= k < |a| ==> a[k].items == b[k].items
    ensures ItemSetsOf(a) <= ItemSetsOf(b)
    ensures |a| == |b| ==> ItemSetsOf(a) == ItemSetsOf(b)
  {
    forall s | s in ItemSetsOf(a) ensures s in ItemSetsOf(b) {
      var k :| 0 <= k < |a| && s == Elems(a[k].items);
      assert s == Elems(b[k].items);
    }
    if |a| == |b| {
      forall s | s in ItemSetsOf(b) ensures s in ItemSetsOf(a) {
        var k :| 0 <= k < |b| && s == Elems(b[k].items);
        assert s == Elems(a[k].items);
      }
    }
  }

  // The state of the breadth-first construction of constructLR0Items.

  /** stateMap sends every state's items to its number and holds nothing else. */
  ghost predicate MapIndexes(states: seq<State>, stateMap: map<seq<LR0Item>, int>) {
    (forall s :: s in stateMap ==> 0 <= stateMap[s] < |states| && states[stateMap[s]].items == s) &&
    (forall k :: 0 <= k < |states| ==> states[k].items in stateMap && stateMap[states[k].items] == k)
  }

  /** The states before n have all their transitions. */
  ghost predicate CompleteBelow(states: seq<State>, n: int) {
    forall k :: 0 <= k < n && k < |states| ==> states[k].transitions.Keys == NextSymbols(Elems(states[k].items))
  }

  /** The states from n on, still queued, have none yet. */
  ghost predicate PendingFrom(states: seq<State>, n: int) {
    forall k :: 0 <= n <= k < |states| ==> states[k].transitions == map[]
  }

  /** What holds between rounds of the breadth-first loop, once the first
      done states have been expanded. */
  ghost predicate Explored(ps: seq<Production>, states: seq<State>, stateMap: map<seq<LR0Item>, int>, done: int) {
    0 <= done <= |states| &&
    Numbered(states) && StatesWellFormed(ps, states) && TransitionsSound(ps, states) &&
    MapIndexes(states, stateMap) && CompleteBelow(states, done) && PendingFrom(states, done)
  }

  /** Once every state is expanded the collection is canonical. */
  lemma ExploredAll(ps: seq<Production>, states: seq<State>, stateMap: map<seq<LR0Item>, int>,
                    parent: seq<(int, string)>)
    requires |ps| > 0 && |states| > 0 && Explored(ps, states, stateMap, |states|)
    requires Elems(states[0].items) == ClosureOf(ps, {LR0Item(ps[0], 0)})
    requires DiscoveredBy(states, parent)
    ensures CanonicalCollection(ps, states)
  {
  }

  /** Every discovering transition so far was handled before a symbol that
      comes after all the current state's symbols. */
  lemma ParentsBefore(states: seq<State>, parent: seq<(int, string)>, current: int, symbol: string)
    requires DiscoveredBy(states, parent) && 0 <= current < |states|
    requires PendingFrom(states, current + 1)
    requires forall y :: y in states[current].transitions ==> StringLess(y, symbol)
    ensures forall k :: 0 < k < |states| ==>
      EdgeBefore(parent[k].0, parent[k].1, current, symbol) &&
      !EdgeBefore(current, symbol, parent[k].0, parent[k].1)
  {
    StringLessStrictTotal();
    forall k | 0 < k < |states|
      ensures EdgeBefore(parent[k].0, parent[k].1, current, symbol)
    {
      assert parent[k].0 <= current;
    }
  }

  /** Recording a transition to an existing state, on a symbol after every
      symbol the current state already has, keeps the discovery record. */
  lemma LinkOld(states: seq<State>, parent: seq<(int, string)>, current: int, symbol: string, t: int)
    requires DiscoveredBy(states, parent) && 0 <= current < |states| && 0 <= t < |states|
    requires PendingFrom(states, current + 1)
    requires forall y :: y in states[current].transitions ==> StringLess(y, symbol)
    ensures var st := states[current];
      DiscoveredBy(states[current := st.(transitions := st.transitions[symbol := t])], parent)
  {
    StringLessStrictTotal();
    ParentsBefore(states, parent, current, symbol);
  }

  /** Appending a new state and recording the transition that reaches it
      makes that transition the new state's discoverer. */
  lemma LinkNew(states: seq<State>, parent: seq<(int, string)>, current: int, symbol: string, g: seq<LR0Item>)
    requires DiscoveredBy(states, parent) && 0 <= current < |states|
    requires PendingFrom(states, current + 1)
    requires forall y :: y in states[current].transitions ==> StringLess(y, symbol)
    requires forall j, x :: 0 <= j < |states| && x in states[j].transitions ==> states[j].transitions[x] < |states|
    ensures var next := states + [NewState(g, |states|)]; var st := next[current];
      DiscoveredBy(next[current := st.(transitions := st.transitions[symbol := |states|])],
                   parent + [(current, symbol)])
  {
    StringLessStrictTotal();
    ParentsBefore(states, parent, current, symbol);
    var n := |states|;
    var wide := states + [NewState(g, n)];
    var st := wide[current];
    var next := wide[current := st.(transitions := st.transitions[symbol := n])];
    var parent' := parent + [(current, symbol)];
    assert forall k :: 0 <= k < n ==> wide[k] == states[k];
    forall k, j, x | 0 < k < |next| && 0 <= j < |next| && x in next[j].transitions &&
        EdgeBefore(j, x, parent'[k].0, parent'[k].1)
      ensures next[j].transitions[x] < k
    {
      if k == n {
        assert j < n && x in states[j].transitions;
      }
    }
  }

  /** An ordered item set missing from the map is no state's item set. */
  lemma NewStateIsNew(states: seq<State>, stateMap: map<seq<LR0Item>, int>, items: seq<LR0Item>)
    requires MapIndexes(states, stateMap) && ItemSet(items) && items !in stateMap
    requires forall k :: 0 <= k < |states| ==> ItemSet(states[k].items)
    ensures Elems(items) !in ItemSetsOf(states)
  {
    if Elems(items) in ItemSetsOf(states) {
      var k :| 0 <= k < |states| && Elems(items) == Elems(states[k].items);
      ItemLessIsStrictTotal();
      SortedUnique(ItemLess, items, states[k].items);
    }
  }

  /** What holds while state current is being expanded: the states of
      states0 kept their items, and the first state added, if any, holds an
      item set none of states0 held. */
  ghost predicate Expanding(ps: seq<Production>, states: seq<State>, stateMap: map<seq<LR0Item>, int>,
                            current: int, states0: seq<State>) {
    0 <= current < |states0| <= |states| &&
    (forall k :: 0 <= k < |states0| ==> states[k].items == states0[k].items) &&
    Numbered(states) && StatesWellFormed(ps, states) && TransitionsSound(ps, states) &&
    MapIndexes(states, stateMap) && CompleteBelow(states, current) && PendingFrom(states, current + 1) &&
    (|states| > |states0| ==> Elems(states[|states0|].items) !in ItemSetsOf(states0))
  }

  /** Appending the goto set of the current state as a new, unexpanded state. */
  lemma AppendState(ps: seq<Production>, states: seq<State>, stateMap: map<seq<LR0Item>, int>,
                    current: int, states0: seq<State>, gotoSet: seq<LR0Item>, x: string)
    requires Expanding(ps, states, stateMap, current, states0)
    requires ItemSet(gotoSet) && Elems(gotoSet) == GotoOf(ps, Elems(states[current].items), x)
    requires gotoSet !in stateMap
    ensures var next := states + [NewState(gotoSet, |states|)];
      Expanding(ps, next, stateMap[gotoSet := |states|], current, states0) &&
      next[current] == states[current]
  {
    var next := states + [NewState(gotoSet, |states|)];
    GotoProperties(ps, Elems(states[current].items), x);
    NewStateIsNew(states, stateMap, gotoSet);
    if |states| == |states0| {
      ItemSetsOfGrow(states0, states);
    }
    assert forall k :: 0 <= k < |states| ==> next[k] == states[k];
  }

  /** Changing only transitions keeps numbering, well-formedness and the
      state map. */
  lemma SameItemsKeep(ps: seq<Production>, a: seq<State>, b: seq<State>, stateMap: map<seq<LR0Item>, int>)
    requires |a| == |b| && forall k :: 0 <= k < |a| ==> a[k].items == b[k].items && a[k].stateNum == b[k].stateNum
    ensures Numbered(a) ==> Numbered(b)
    ensures StatesWellFormed(ps, a) ==> StatesWellFormed(ps, b)
    ensures MapIndexes(a, stateMap) ==> MapIndexes(b, stateMap)
  {
  }

  /** A transition to the state holding the goto set is sound. */
  lemma SetTransitionSound(ps: seq<Production>, states: seq<State>, stateMap: map<seq<LR0Item>, int>,
                           current: int, gotoSet: seq<LR0Item>, x: string)
    requires TransitionsSound(ps, states) && MapIndexes(states, stateMap) && 0 <= current < |states|
    requires Elems(gotoSet) == GotoOf(ps, Elems(states[current].items), x) && gotoSet in stateMap
    ensures var st := states[current];
      TransitionsSound(ps, states[current := st.(transitions := st.transitions[x := stateMap[gotoSet]])])
  {
    var st := states[current];
    var next := states[current := st.(transitions := st.transitions[x := stateMap[gotoSet]])];
    forall k, y | 0 <= k < |next| && y in next[k].transitions
      ensures 0 <= next[k].transitions[y] < |next| &&
        Elems(next[next[k].transitions[y]].items) == GotoOf(ps, Elems(next[k].items), y)
    {
      var t := next[k].transitions[y];
      if k == current && y == x {
        assert t == stateMap[gotoSet];
      } else {
        assert t == states[k].transitions[y];
      }
      assert next[t].items == states[t].items && next[k].items == states[k].items;
    }
  }

  /** Recording the transition on x of the current state to the state that
      holds its goto set. */
  lemma SetTransition(ps: seq<Production>, states: seq<State>, stateMap: map<seq<LR0Item>, int>,
                      current: int, states0: seq<State>, gotoSet: seq<LR0Item>, x: string)
    requires Expanding(ps, states, stateMap, current, states0)
    requires Elems(gotoSet) == GotoOf(ps, Elems(states[current].items), x) && gotoSet in stateMap
    ensures var st := states[current];
      Expanding(ps, states[current := st.(transitions := st.transitions[x := stateMap[gotoSet]])],
                stateMap, current, states0)
  {
    var st := states[current];
    var next := states[current := st.(transitions := st.transitions[x := stateMap[gotoSet]])];
    SameItemsKeep(ps, states, next, stateMap);
    SetTransitionSound(ps, states, stateMap, current, gotoSet, x);
    assert forall k :: 0 <= k < |states0| ==> next[k].items == states[k].items;
    assert |states| > |states0| ==> next[|states0|].items == states[|states0|].items;
    assert CompleteBelow(next, current) && PendingFrom(next, current + 1);
  }

  /** The symbol loop of one expansion: before symbol j, exactly the earlier
      symbols with a non-empty goto have transitions, and all of them come
      before symbol j in string order. */
  lemma SymbolsBefore(ps: seq<Production>, items: set<LR0Item>, symbols: seq<string>, j: int,
                      transitions: map<string, int>)
    requires Sorted(StringLess, symbols) && 0 <= j < |symbols|
    requires forall x :: x in transitions <==> x in symbols[..j] && GotoOf(ps, items, x) != {}
    ensures forall y :: y in transitions ==> StringLess(y, symbols[j])
  {
    forall y | y in transitions ensures StringLess(y, symbols[j]) {
      var i :| 0 <= i < j && symbols[i] == y;
    }
  }

  /** Handling symbol j extends the handled prefix by one. */
  lemma SymbolStep(ps: seq<Production>, items: set<LR0Item>, symbols: seq<string>, j: int,
                   before: map<string, int>, after: map<string, int>)
    requires 0 <= j < |symbols|
    requires forall x :: x in before <==> x in symbols[..j] && GotoOf(ps, items, x) != {}
    requires forall x :: x in after <==> x in before || (x == symbols[j] && GotoOf(ps, items, symbols[j]) != {})
    ensures forall x :: x in after <==> x in symbols[..j + 1] && GotoOf(ps, items, x) != {}
  {
    assert symbols[..j + 1] == symbols[..j] + [symbols[j]];
  }

  /** After the symbol loop the current state is complete, and the
      collection either gained a new item set or kept its size. */
  lemma ExpansionDone(ps: seq<Production>, states0: seq<State>, states: seq<State>,
                      stateMap: map<seq<LR0Item>, int>, current: int, symbols: seq<string>)
    requires Expanding(ps, states, stateMap, current, states0)
    requires Elems(symbols) == NextSymbols(Elems(states0[current].items))
    requires forall x :: x in states[current].transitions <==>
      x in symbols && GotoOf(ps, Elems(states0[current].items), x) != {}
    ensures Explored(ps, states, stateMap, current + 1)
    ensures Powerset(AllItems(ps)) - ItemSetsOf(states) < Powerset(AllItems(ps)) - ItemSetsOf(states0) ||
            (Powerset(AllItems(ps)) - ItemSetsOf(states) == Powerset(AllItems(ps)) - ItemSetsOf(states0) &&
             |states| == |states0|)
  {
    forall x ensures x in states[current].transitions <==> x in NextSymbols(Elems(states0[current].items)) {
      GotoEmptyIff(ps, Elems(states0[current].items), x);
    }
    ItemSetsOfGrow(states0, states);
    StatesBounded(ps, states);
    if |states| > |states0| {
      assert Elems(states[|states0|].items) in ItemSetsOf(states);
    }
  }

  /** The BFS queue holds exactly the states numbered lo up to hi, in order. */
  ghost predicate QueueFrom(queue: seq<int>, lo: int, hi: int) {
    |queue| == hi - lo && forall t :: 0 <= t < |queue| ==> queue[t] == lo + t
  }

  lemma QueueAppend(queue: seq<int>, lo: int, hi: int)
    requires QueueFrom(queue, lo, hi)
    ensures QueueFrom(queue + [hi], lo, hi + 1)
  {
  }

  /** The collection with the transition of state `current` on `x` set to `t`. */
  function Relink(states: seq<State>, current: int, x: string, t: int): (r: seq<State>)
    requires 0 <= current < |states|
    ensures |r| == |states| && r[current].transitions == states[current].transitions[x := t]
    ensures forall k :: 0 <= k < |states| && k != current ==> r[k] == states[k]
  {
    states[current := states[current].(transitions := states[current].transitions[x := t])]
  }

  /** The new-state branch of the symbol loop: append the goto set as state
      |states|, then record the transition to it.  The construction
      invariant holds afterwards, and the transition is the new state's
      discoverer. */
  lemma LinkedNew(ps: seq<Production>, states: seq<State>, stateMap: map<seq<LR0Item>, int>,
                  current: int, states0: seq<State>, parent: seq<(int, string)>, gotoSet: seq<LR0Item>, x: string)
    requires Expanding(ps, states, stateMap, current, states0) && DiscoveredBy(states, parent)
    requires forall y :: y in states[current].transitions ==> StringLess(y, x)
    requires ItemSet(gotoSet) && Elems(gotoSet) == GotoOf(ps, Elems(states[current].items), x)
    requires gotoSet !in stateMap
    ensures Expanding(ps, Relink(states + [NewState(gotoSet, |states|)], current, x, |states|),
                      stateMap[gotoSet := |states|], current, states0)
    ensures DiscoveredBy(Relink(states + [NewState(gotoSet, |states|)], current, x, |states|), parent + [(current, x)])
  {
    AppendState(ps, states, stateMap, current, states0, gotoSet, x);
    LinkNew(states, parent, current, x, gotoSet);
    SetTransition(ps, states + [NewState(gotoSet, |states|)], stateMap[gotoSet := |states|], current, states0, gotoSet, x);
  }

  /** The existing-state branch: record the transition to the state that
      already holds the goto set. */
  lemma LinkedOld(ps: seq<Production>, states: seq<State>, stateMap: map<seq<LR0Item>, int>,
                  current: int, states0: seq<State>, parent: seq<(int, string)>, gotoSet: seq<LR0Item>, x: string)
    requires Expanding(ps, states, stateMap, current, states0) && DiscoveredBy(states, parent)
    requires forall y :: y in states[current].transitions ==> StringLess(y, x)
    requires Elems(gotoSet) == GotoOf(ps, Elems(states[current].items), x)
    requires gotoSet in stateMap
    ensures Expanding(ps, Relink(states, current, x, stateMap[gotoSet]), stateMap, current, states0)
    ensures DiscoveredBy(Relink(states, current, x, stateMap[gotoSet]), parent)
  {
    LinkOld(states, parent, current, x, stateMap[gotoSet]);
    SetTransition(ps, states, stateMap, current, states0, gotoSet, x);
  }
}

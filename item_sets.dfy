/**
 * LR(0) closure and goto over item sets, as sets.  The generator's methods
 * work on ordered sequences and are proved to produce exactly these sets.
 */
module ItemSets {
  import opened Orders
  import opened Productions
  import opened LR0Items
  import opened Grammar

  /** The items (Q, 0) of every listed production Q with left side x. */
  function StartItems(ps: seq<Production>, x: string): set<LR0Item> {
    set q | q in ps && q.left == x :: LR0Item(q, 0)
  }

  /** The nonterminal after an item's dot, if any, asks for its start items. */
  function Expand(ps: seq<Production>, it: LR0Item): set<LR0Item> {
    if it.dotPos < |it.prod.right| && !IsTerminal(it.prod.right[it.dotPos])
    then StartItems(ps, it.prod.right[it.dotPos])
    else {}
  }

  function Expansion(ps: seq<Production>, items: set<LR0Item>): set<LR0Item> {
    set it, x | it in items && x in Expand(ps, it) :: x
  }

  /** One round of the do-while loop of closure: newItems = items plus
      every start item an item of items asks for. */
  function ClosureStep(ps: seq<Production>, items: set<LR0Item>): set<LR0Item> {
    items + Expansion(ps, items)
  }

  /** Every item (Q, 0) of a listed production. */
  function Dot0(ps: seq<Production>): set<LR0Item> {
    set q | q in ps :: LR0Item(q, 0)
  }

  /** Every item of a listed production, with any dot position. */
  function AllItems(ps: seq<Production>): set<LR0Item> {
    set q, d | q in ps && 0 <= d <= |q.right| :: LR0Item(q, d)
  }

  lemma ExpansionInDot0(ps: seq<Production>, items: set<LR0Item>)
    ensures Expansion(ps, items) <= Dot0(ps)
  {
  }

  /** The rounds repeated until one adds nothing. */
  function ClosureOf(ps: seq<Production>, items: set<LR0Item>): set<LR0Item>
    decreases Dot0(ps) - items
  {
    var next := ClosureStep(ps, items);
    if next == items then items
    else
      ExpansionInDot0(ps, items);
      ClosureOf(ps, next)
  }

  /** For every item whose dot precedes a nonterminal B, every (Q, 0) with
      Q.left == B is present. */
  ghost predicate ClosedItems(ps: seq<Production>, items: set<LR0Item>) {
    forall it, q ::
      (it in items && q in ps && it.dotPos < |it.prod.right| &&
       !IsTerminal(it.prod.right[it.dotPos]) && q.left == it.prod.right[it.dotPos]) ==>
        LR0Item(q, 0) in items
  }

  lemma ClosedIsStable(ps: seq<Production>, items: set<LR0Item>)
    ensures ClosedItems(ps, items) <==> ClosureStep(ps, items) == items
  {
    if ClosedItems(ps, items) {
      forall x | x in Expansion(ps, items) ensures x in items {
        var it :| it in items && x in Expand(ps, it);
      }
    }
    if ClosureStep(ps, items) == items {
      forall it, q | it in items && q in ps && it.dotPos < |it.prod.right| &&
        !IsTerminal(it.prod.right[it.dotPos]) && q.left == it.prod.right[it.dotPos]
        ensures LR0Item(q, 0) in items
      {
        assert LR0Item(q, 0) in Expand(ps, it);
      }
    }
  }

  /** closure(I) is closed, contains I, and adds only start items of
      listed productions. */
  lemma {:induction false} ClosureProperties(ps: seq<Production>, items: set<LR0Item>)
    ensures items <= ClosureOf(ps, items)
    ensures ClosedItems(ps, ClosureOf(ps, items))
    ensures ClosureOf(ps, items) - items <= Dot0(ps)
    decreases Dot0(ps) - items
  {
    var next := ClosureStep(ps, items);
    ExpansionInDot0(ps, items);
    if next == items {
      ClosedIsStable(ps, items);
    } else {
      ClosureProperties(ps, next);
    }
  }

  /** closure(I) is the least closed set containing I. */
  lemma {:induction false} ClosureLeast(ps: seq<Production>, items: set<LR0Item>, bound: set<LR0Item>)
    requires items <= bound && ClosedItems(ps, bound)
    ensures ClosureOf(ps, items) <= bound
    decreases Dot0(ps) - items
  {
    var next := ClosureStep(ps, items);
    ExpansionInDot0(ps, items);
    if next != items {
      forall x | x in Expansion(ps, items) ensures x in bound {
        var it :| it in items && x in Expand(ps, it);
      }
      ClosureLeast(ps, next, bound);
    }
  }

  /** A closed set is its own closure. */
  lemma ClosureOfClosed(ps: seq<Production>, items: set<LR0Item>)
    requires ClosedItems(ps, items)
    ensures ClosureOf(ps, items) == items
  {
    ClosedIsStable(ps, items);
  }

  /** closure is idempotent. */
  lemma ClosureIdempotent(ps: seq<Production>, items: set<LR0Item>)
    ensures ClosureOf(ps, ClosureOf(ps, items)) == ClosureOf(ps, items)
  {
    ClosureProperties(ps, items);
    ClosureOfClosed(ps, ClosureOf(ps, items));
  }

  /** A round of the loop does not change where the loop ends. */
  lemma ClosureOfStep(ps: seq<Production>, items: set<LR0Item>)
    ensures ClosureOf(ps, ClosureStep(ps, items)) == ClosureOf(ps, items)
  {
  }

  lemma ClosureWithin(ps: seq<Production>, items: set<LR0Item>)
    requires items <= AllItems(ps)
    ensures ClosureOf(ps, items) <= AllItems(ps)
  {
    ClosureProperties(ps, items);
    forall x | x in ClosureOf(ps, items) ensures x in AllItems(ps) {
      if x !in items {
        assert x in Dot0(ps);
      }
    }
  }

  /** The items of I whose dot precedes x, with the dot moved past x. */
  function Advance(items: set<LR0Item>, x: string): set<LR0Item> {
    set it | it in items && it.dotPos < |it.prod.right| && it.prod.right[it.dotPos] == x ::
      LR0Item(it.prod, it.dotPos + 1)
  }

  /** computeGoto(I, X): the closure of the advanced items. */
  function GotoOf(ps: seq<Production>, items: set<LR0Item>, x: string): set<LR0Item> {
    ClosureOf(ps, Advance(items, x))
  }

  /** The symbols that follow a dot in some item of I. */
  function NextSymbols(items: set<LR0Item>): set<string> {
    set it | it in items && it.dotPos < |it.prod.right| :: it.prod.right[it.dotPos]
  }

  lemma ClosureOfEmpty(ps: seq<Production>)
    ensures ClosureOf(ps, {}) == {}
  {
    assert Expansion(ps, {}) == {};
  }

  /** goto(I, X) is empty exactly when no item of I has X after its dot. */
  lemma GotoEmptyIff(ps: seq<Production>, items: set<LR0Item>, x: string)
    ensures GotoOf(ps, items, x) == {} <==> x !in NextSymbols(items)
  {
    if x in NextSymbols(items) {
      var it :| it in items && it.dotPos < |it.prod.right| && it.prod.right[it.dotPos] == x;
      assert LR0Item(it.prod, it.dotPos + 1) in Advance(items, x);
      ClosureProperties(ps, Advance(items, x));
    } else {
      assert Advance(items, x) == {};
      ClosureOfEmpty(ps);
    }
  }

  /** goto(I, X) is closed and, for items of listed productions, stays
      within the items of listed productions. */
  lemma GotoProperties(ps: seq<Production>, items: set<LR0Item>, x: string)
    ensures ClosedItems(ps, GotoOf(ps, items, x))
    ensures ClosureOf(ps, GotoOf(ps, items, x)) == GotoOf(ps, items, x)
    ensures items <= AllItems(ps) ==> GotoOf(ps, items, x) <= AllItems(ps)
  {
    ClosureProperties(ps, Advance(items, x));
    ClosureIdempotent(ps, Advance(items, x));
    if items <= AllItems(ps) {
      assert Advance(items, x) <= AllItems(ps) by {
        forall y | y in Advance(items, x) ensures y in AllItems(ps) {
          var it :| it in items && it.dotPos < |it.prod.right| && it.prod.right[it.dotPos] == x &&
            y == LR0Item(it.prod, it.dotPos + 1);
          assert it in AllItems(ps);
        }
      }
      ClosureWithin(ps, Advance(items, x));
    }
  }

  // The sets above, built up one element of a sequence at a time.

  /** One item of a closure round: adding the start items it asks for to
      acc, which already holds r and the expansion before it. */
  lemma RoundAdds(r: set<LR0Item>, before: set<LR0Item>, acc: set<LR0Item>, out: set<LR0Item>, e: set<LR0Item>)
    requires acc == r + before && out == acc + e
    ensures out == r + (before + e)
    ensures (out != r) <==> (acc != r || out != acc)
  {
  }

  lemma StartItemsPrefix(ps: seq<Production>, j: int, x: string)
    requires 0 <= j < |ps|
    ensures StartItems(ps[..j + 1], x) ==
      StartItems(ps[..j], x) + if ps[j].left == x then {LR0Item(ps[j], 0)} else {}
  {
    assert ps[..j + 1] == ps[..j] + [ps[j]];
  }

  lemma ExpansionPrefix(ps: seq<Production>, items: seq<LR0Item>, k: int)
    requires 0 <= k < |items|
    ensures Expansion(ps, Elems(items[..k + 1])) == Expansion(ps, Elems(items[..k])) + Expand(ps, items[k])
  {
    assert Elems(items[..k + 1]) == Elems(items[..k]) + {items[k]} by {
      assert items[..k + 1] == items[..k] + [items[k]];
    }
  }

  lemma AdvancePrefix(items: seq<LR0Item>, k: int, x: string)
    requires 0 <= k < |items|
    ensures Advance(Elems(items[..k + 1]), x) == Advance(Elems(items[..k]), x) +
      if items[k].dotPos < |items[k].prod.right| && items[k].prod.right[items[k].dotPos] == x
      then {LR0Item(items[k].prod, items[k].dotPos + 1)} else {}
  {
    assert Elems(items[..k + 1]) == Elems(items[..k]) + {items[k]} by {
      assert items[..k + 1] == items[..k] + [items[k]];
    }
  }

  lemma NextSymbolsPrefix(items: seq<LR0Item>, k: int)
    requires 0 <= k < |items|
    ensures NextSymbols(Elems(items[..k + 1])) == NextSymbols(Elems(items[..k])) +
      if items[k].dotPos < |items[k].prod.right| then {items[k].prod.right[items[k].dotPos]} else {}
  {
    assert Elems(items[..k + 1]) == Elems(items[..k]) + {items[k]} by {
      assert items[..k + 1] == items[..k] + [items[k]];
    }
  }
}

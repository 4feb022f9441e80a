/** The LR(0) item and automaton state records of lr0_item.h. */
module LR0Items {
  import opened Orders
  import opened Productions

  /** A production with a dot position; dotPos is never negative in the source. */
  datatype LR0Item = LR0Item(prod: Production, dotPos: nat)

  /** operator==: left sides, right sides and dot positions all agree. */
  function ItemEqual(a: LR0Item, b: LR0Item): (r: bool)
    ensures r <==> a == b
  {
    a.prod.left == b.prod.left && a.prod.right == b.prod.right && a.dotPos == b.dotPos
  }

  /** operator<: by left side, then by right side (lexicographically), then by dot. */
  function ItemLess(a: LR0Item, b: LR0Item): bool {
    if a.prod.left != b.prod.left then StringLess(a.prod.left, b.prod.left)
    else if a.prod.right != b.prod.right then StringsLess(a.prod.right, b.prod.right)
    else a.dotPos < b.dotPos
  }

  /** ItemLess orders items first by their production's own order, then by the dot. */
  lemma ItemLessRefinesProductionLess(a: LR0Item, b: LR0Item)
    ensures a.prod != b.prod ==> (ItemLess(a, b) <==> Less(a.prod, b.prod))
    ensures a.prod == b.prod ==> (ItemLess(a, b) <==> a.dotPos < b.dotPos)
  {
  }

  lemma ItemLessIsStrictTotal()
    ensures StrictTotal(ItemLess)
  {
    LessIsStrictTotal();
    forall a | true ensures !ItemLess(a, a) {
      assert !Less(a.prod, a.prod);
    }
    forall a, b, c | ItemLess(a, b) && ItemLess(b, c) ensures ItemLess(a, c) {
      ItemLessRefinesProductionLess(a, b);
      ItemLessRefinesProductionLess(b, c);
      ItemLessRefinesProductionLess(a, c);
      if a.prod != b.prod && b.prod != c.prod {
        assert Less(a.prod, b.prod) && Less(b.prod, c.prod);
      }
    }
    forall a, b | a != b ensures ItemLess(a, b) || ItemLess(b, a) {
      ItemLessRefinesProductionLess(a, b);
      ItemLessRefinesProductionLess(b, a);
    }
  }

  /** For any two items exactly one of a < b, b < a and a == b holds. */
  lemma ItemLessTrichotomous(a: LR0Item, b: LR0Item)
    ensures ItemLess(a, b) || ItemLess(b, a) || ItemEqual(a, b)
    ensures !(ItemLess(a, b) && ItemLess(b, a))
    ensures ItemEqual(a, b) ==> !ItemLess(a, b) && !ItemLess(b, a)
  {
    ItemLessIsStrictTotal();
  }

  /** An ordered item set, the std::set<LR0Item> of a state. */
  ghost predicate ItemSet(s: seq<LR0Item>) {
    Sorted(ItemLess, s)
  }

  /** Insertion into an ordered item set. */
  function InsertItem(s: seq<LR0Item>, x: LR0Item): (r: seq<LR0Item>)
    requires ItemSet(s)
    ensures ItemSet(r) && Elems(r) == Elems(s) + {x}
  {
    ItemLessIsStrictTotal();
    Insert(ItemLess, s, x)
  }

  /** A state of the LR(0) automaton: its ordered items, its outgoing
      transitions by symbol, and its number. */
  datatype State = State(items: seq<LR0Item>, transitions: map<string, int>, stateNum: int)

  /** The State constructor: items and number as given, no transitions yet. */
  function NewState(items: seq<LR0Item>, num: int): (s: State)
    ensures s.items == items && s.stateNum == num && s.transitions == map[]
  {
    State(items, map[], num)
  }

  /** State::operator< looks only at the number. */
  function StateLess(a: State, b: State): bool {
    a.stateNum < b.stateNum
  }

  /** Two states with the same number are equivalent under StateLess whatever
      their items and transitions, so StateLess is not a total order on states. */
  lemma StateLessIgnoresContents(a: State, b: State)
    requires a.stateNum == b.stateNum
    ensures !StateLess(a, b) && !StateLess(b, a)
    ensures StateLess(a, NewState(a.items, a.stateNum + 1))
  {
  }
}

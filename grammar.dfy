/** Symbol classification and the three fixed grammars of slr_generator.cpp. */
module Grammar {
  import opened Productions

  /** The fixed nonterminal names shared by all three grammars. */
  const NonTerminals: set<string> := {"S'", "S", "E", "B", "A", "O", "L"}

  /** The augmented start symbol and the two sentinels. */
  const AugmentedStart: string := "S'"
  const Epsilon: string := "ε"
  const EndMarker: string := "#"

  /** isTerminal: everything that is not one of the fixed nonterminals,
      including symbols no grammar declares. */
  predicate IsTerminal(symbol: string) {
    symbol !in NonTerminals
  }

  /** E -> E+E | E*E | (E) | i, augmented. */
  function ArithmeticGrammar(): seq<Production> {
    [ Production("S'", ["E"]),
      Production("E", ["E", "+", "E"]),
      Production("E", ["E", "*", "E"]),
      Production("E", ["(", "E", ")"]),
      Production("E", ["i"]) ]
  }

  /** The boolean-expression grammar, with its right-recursive-prefix rules for and/or. */
  function BooleanGrammar(): seq<Production> {
    [ Production("S'", ["B"]),
      Production("B", ["i"]),
      Production("B", ["i", "rop", "i"]),
      Production("B", ["(", "B", ")"]),
      Production("B", ["not", "B"]),
      Production("A", ["B", "and"]),
      Production("B", ["A", "B"]),
      Production("O", ["B", "or"]),
      Production("B", ["O", "B"]) ]
  }

  /** The statement grammar. */
  function StatementGrammar(): seq<Production> {
    [ Production("S'", ["S"]),
      Production("S", ["if", "e", "then", "S", "else", "S"]),
      Production("S", ["while", "e", "do", "S"]),
      Production("S", ["begin", "L", "end"]),
      Production("S", ["a"]),
      Production("L", ["S"]),
      Production("L", ["S", ";", "L"]) ]
  }

  /** The terminals a grammar's right sides mention. */
  function Terminals(ps: seq<Production>): set<string> {
    set p, x | p in ps && x in p.right && IsTerminal(x) :: x
  }

  lemma TerminalAt(ps: seq<Production>, k: nat, j: nat)
    requires k < |ps| && j < |ps[k].right| && IsTerminal(ps[k].right[j])
    ensures ps[k].right[j] in Terminals(ps)
  {
    assert ps[k] in ps && ps[k].right[j] in ps[k].right;
  }

  /** Production 0 rewrites the augmented start symbol, and that symbol
      occurs on no right side. */
  ghost predicate Augmented(ps: seq<Production>) {
    |ps| > 0 && ps[0].left == AugmentedStart &&
    forall p, x :: p in ps && x in p.right ==> x != AugmentedStart
  }

  /** Every left side is one of the fixed nonterminals. */
  ghost predicate LeftSidesAreNonTerminals(ps: seq<Production>) {
    forall p :: p in ps ==> !IsTerminal(p.left)
  }

  /** Every symbol on a right side of ps: not the augmented start, and a
      member of bound when it is a terminal. */
  ghost predicate RightSidesWithin(ps: seq<Production>, bound: set<string>) {
    forall k, j :: 0 <= k < |ps| && 0 <= j < |ps[k].right| ==>
      ps[k].right[j] != AugmentedStart && (IsTerminal(ps[k].right[j]) ==> ps[k].right[j] in bound)
  }

  /** Checking the right sides position by position bounds the terminals. */
  lemma WithinByPositions(ps: seq<Production>, bound: set<string>)
    requires |ps| > 0 && ps[0].left == AugmentedStart && RightSidesWithin(ps, bound)
    requires forall k :: 0 <= k < |ps| ==> !IsTerminal(ps[k].left)
    ensures Augmented(ps) && LeftSidesAreNonTerminals(ps) && Terminals(ps) <= bound
  {
    forall p, x | p in ps && x in p.right ensures x != AugmentedStart && (IsTerminal(x) ==> x in bound) {
      var k :| 0 <= k < |ps| && ps[k] == p;
      var j :| 0 <= j < |p.right| && p.right[j] == x;
    }
    forall p | p in ps ensures !IsTerminal(p.left) {
      var k :| 0 <= k < |ps| && ps[k] == p;
    }
  }

  lemma ArithmeticTerminalsWithin()
    ensures Augmented(ArithmeticGrammar()) && LeftSidesAreNonTerminals(ArithmeticGrammar())
    ensures Terminals(ArithmeticGrammar()) <= {"+", "*", "(", ")", "i"}
  {
    WithinByPositions(ArithmeticGrammar(), {"+", "*", "(", ")", "i"});
  }

  lemma ArithmeticTerminalsCovered()
    ensures {"+", "*", "(", ")", "i"} <= Terminals(ArithmeticGrammar())
  {
    var g := ArithmeticGrammar();
    TerminalAt(g, 1, 1); TerminalAt(g, 2, 1); TerminalAt(g, 3, 0); TerminalAt(g, 3, 2);
    TerminalAt(g, 4, 0);
  }

  /** The arithmetic grammar is augmented, declares its left sides, and its
      terminals are exactly the operator, parenthesis and operand symbols. */
  lemma ArithmeticGrammarClassified()
    ensures Augmented(ArithmeticGrammar()) && LeftSidesAreNonTerminals(ArithmeticGrammar())
    ensures Terminals(ArithmeticGrammar()) == {"+", "*", "(", ")", "i"}
  {
    ArithmeticTerminalsWithin();
    ArithmeticTerminalsCovered();
  }

  lemma BooleanTerminalsWithin()
    ensures Augmented(BooleanGrammar()) && LeftSidesAreNonTerminals(BooleanGrammar())
    ensures Terminals(BooleanGrammar()) <= {"i", "rop", "(", ")", "not", "and", "or"}
  {
    WithinByPositions(BooleanGrammar(), {"i", "rop", "(", ")", "not", "and", "or"});
  }

  lemma BooleanTerminalsCovered()
    ensures {"i", "rop", "(", ")", "not", "and", "or"} <= Terminals(BooleanGrammar())
  {
    var g := BooleanGrammar();
    forall x | x in {"i", "rop", "(", ")", "not", "and", "or"} ensures x in Terminals(g) {
      if x == "i" { TerminalAt(g, 2, 0); }
      else if x == "rop" { TerminalAt(g, 2, 1); }
      else if x == "(" { TerminalAt(g, 3, 0); }
      else if x == ")" { TerminalAt(g, 3, 2); }
      else if x == "not" { TerminalAt(g, 4, 0); }
      else if x == "and" { TerminalAt(g, 5, 1); }
      else { TerminalAt(g, 7, 1); }
    }
  }

  /** In the boolean grammar "rop", "not", "and" and "or" are terminals only
      because they are not among the declared nonterminals. */
  lemma BooleanGrammarClassified()
    ensures Augmented(BooleanGrammar()) && LeftSidesAreNonTerminals(BooleanGrammar())
    ensures Terminals(BooleanGrammar()) == {"i", "rop", "(", ")", "not", "and", "or"}
  {
    BooleanTerminalsWithin();
    BooleanTerminalsCovered();
  }

  lemma StatementTerminalsWithin()
    ensures Augmented(StatementGrammar()) && LeftSidesAreNonTerminals(StatementGrammar())
    ensures Terminals(StatementGrammar()) <= {"if", "e", "then", "else", "while", "do", "begin", "end", "a", ";"}
  {
    WithinByPositions(StatementGrammar(), {"if", "e", "then", "else", "while", "do", "begin", "end", "a", ";"});
  }

  lemma StatementTerminalsCovered()
    ensures {"if", "e", "then", "else", "while", "do", "begin", "end", "a", ";"} <= Terminals(StatementGrammar())
  {
    var g := StatementGrammar();
    forall x | x in {"if", "e", "then", "else", "while", "do", "begin", "end", "a", ";"}
      ensures x in Terminals(g)
    {
      if x == "if" { TerminalAt(g, 1, 0); }
      else if x == "e" { TerminalAt(g, 1, 1); }
      else if x == "then" { TerminalAt(g, 1, 2); }
      else if x == "else" { TerminalAt(g, 1, 4); }
      else if x == "while" { TerminalAt(g, 2, 0); }
      else if x == "do" { TerminalAt(g, 2, 2); }
      else if x == "begin" { TerminalAt(g, 3, 0); }
      else if x == "end" { TerminalAt(g, 3, 2); }
      else if x == "a" { TerminalAt(g, 4, 0); }
      else { TerminalAt(g, 6, 1); }
    }
  }

  /** In the statement grammar the condition placeholder "e" and the statement
      placeholder "a" are terminals. */
  lemma StatementGrammarClassified()
    ensures Augmented(StatementGrammar()) && LeftSidesAreNonTerminals(StatementGrammar())
    ensures Terminals(StatementGrammar()) == {"if", "e", "then", "else", "while", "do", "begin", "end", "a", ";"}
  {
    StatementTerminalsWithin();
    StatementTerminalsCovered();
  }

  /** No production has an empty right side. */
  predicate NoEmptyRules(ps: seq<Production>) {
    forall p :: p in ps ==> |p.right| > 0
  }

  lemma FixedGrammarsHaveNoEmptyRules()
    ensures NoEmptyRules(ArithmeticGrammar())
    ensures NoEmptyRules(BooleanGrammar())
    ensures NoEmptyRules(StatementGrammar())
  {
  }
}

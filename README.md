# A verified model of a teaching compiler

The system is a small compiler toolchain for a Pascal-like teaching
language. A maximal-munch lexer turns source text into tokens. A
recursive-descent parser emits numbered quadruples (the three-address
intermediate form) and backpatches forward jumps. A tree-walking code
generator emits label-based quadruples from a syntax tree. An assembler
helper writes the fixed data and code segments of an 8086 listing.

Beside it sits an SLR(1) table generator for three fixed grammars:
arithmetic expressions, boolean expressions and statements. It computes
FIRST and FOLLOW by fixpoint iteration and builds the canonical LR(0)
collection by breadth-first search over closure/goto. It then derives the
ACTION and GOTO tables; a later write to a cell overwrites an earlier one.

The model follows the source file by file:

- **Values.** `production.h` and `lr0_item.h` become datatypes with their
  orders (`Productions`, `LR0Items`). `std::set` becomes a strictly sorted
  sequence (`Orders`), so iteration order, which decides state numbering
  and table overwrites, is kept.
- **Specification functions.** `ItemSets`, `FirstFollow`, `Automaton` and
  `ParsingTable` describe what closure, goto, FIRST, FOLLOW, the canonical
  collection and the tables are. `SymbolMaps` holds the helpers for the
  sets-of-symbols maps.
- **Classes.** `SlrGenerator`, `Lexer`, `Parser`, `CodeGen` and `Assembler`
  model the source's classes. Their methods update fields in place, as the
  C++ does. The methods of `SlrGenerator`, `Lexer`, `CodeGen` and
  `Assembler` are proved to compute their specification functions, and the
  properties are proved about those functions. The recursive-descent
  methods of `Parser` have no such reference function: each is proved
  against the properties of the quadruples it emits (jump layout,
  backpatch targets, fresh temporaries, operand values).
- **Syntax trees.** The `Node*` tree of the code generator is a value of
  type `CodeGen.Node`. Every method returns the tree as it left it, since
  in the C++ `processExpression` writes into `node->value`.

## Model

| member | source | states |
|---|---|---|
| Orders.StringLessStrictTotal | production.h:17-20 | std::string's operator< (lexicographic on characters) is irreflexive, transitive and total |
| Orders.StringsLessStrictTotal | production.h:19 | the std::vector<std::string> operator< used on right sides is a strict total order |
| Orders.Insert | slr_generator.cpp:152 | std::set::insert: the result is sorted, holds exactly the old elements plus x, is unchanged if x was present, and is one longer otherwise |
| Orders.SortedUnique | slr_generator.cpp:188 | two sorted sequences that hold the same elements are equal, so an ordered item set is a canonical key of the state map |
| Orders.SortedDistinct | slr_generator.cpp:152 | a strictly sorted sequence holds no element twice, as a std::set holds none |
| Productions.Equal | production.h:13-15 | operator== holds exactly when left and right sides both agree |
| Productions.LessIsStrictTotal | production.h:17-20 | operator< on productions (left side first, then right side) is irreflexive, transitive and total |
| Productions.LessTrichotomous | production.h:17-20 | for any two productions exactly one of p<q, q<p, p==q holds |
| LR0Items.ItemEqual | lr0_item.h:15-19 | operator== holds exactly when production and dot position agree |
| LR0Items.ItemLessRefinesProductionLess | lr0_item.h:21-25 | items are ordered by their production's order first, then by the dot position |
| LR0Items.ItemLessIsStrictTotal | lr0_item.h:21-25 | the item order is irreflexive, transitive and total, as std::set requires |
| LR0Items.ItemLessTrichotomous | lr0_item.h:21-25 | the item order is a strict total order compatible with operator== |
| LR0Items.NewState | lr0_item.h:34 | the State constructor keeps the items and number and starts with no transitions |
| LR0Items.StateLessIgnoresContents | lr0_item.h:36-38 | State::operator< looks only at the number: states with equal numbers are equivalent under it |
| Grammar.ArithmeticGrammarClassified | slr_generator.cpp:13-22 | the arithmetic grammar is augmented, its left sides are nonterminals, and its terminals are exactly + * ( ) i |
| Grammar.BooleanGrammarClassified | slr_generator.cpp:24-36 | the boolean grammar's terminals are exactly i rop ( ) not and or, by the nonterminal list of isTerminal |
| Grammar.StatementGrammarClassified | slr_generator.cpp:38-48 | the statement grammar's terminals are exactly if e then else while do begin end a ; |
| Grammar.FixedGrammarsHaveNoEmptyRules | slr_generator.cpp:13-48 | none of the three fixed grammars has an empty right side |
| SymbolMaps.AddTo | slr_generator.cpp:65-66 | set.insert on entry k of a map (default-inserting it): entry k gains the new members, other entries are unchanged, and the growth flag is raised exactly when something new was added |
| SymbolMaps.ProgressMeasure | slr_generator.cpp:60-87 | a pass that reports a change shrinks the unused part of a finite budget, so the do-while loops terminate |
| SymbolMaps.PairsGrows | slr_generator.cpp:80 | pair inclusion coincides with every set growing |
| FirstFollow.FirstFixClosed | slr_generator.cpp:58-88 | the corrected FIRST loop ends with every FIRST rule satisfied, and no set loses a member |
| FirstFollow.FirstFixLeast | slr_generator.cpp:58-88 | the FIRST result is the least map that satisfies the rules and contains the starting sets |
| FirstFollow.FirstClosedIsStable | slr_generator.cpp:68-81 | the FIRST rules hold exactly when no production has anything left to add |
| FirstFollow.FirstPassStable | slr_generator.cpp:60-87 | a pass that reports no change leaves every set as it was and has every production satisfied |
| FirstFollow.FirstPassAsWrittenSameSets | slr_generator.cpp:68-71 | the pass as written computes the same sets as the corrected pass; only its change flag can be lower |
| FirstFollow.FirstPassesAgreeWithoutEpsilonRules | slr_generator.cpp:68-85 | without empty right sides the pass as written and the corrected pass agree, flag included |
| FirstFollow.FirstFixAsWrittenAgrees | slr_generator.cpp:60-87 | without empty right sides the loop as written ends where the corrected loop ends |
| FirstFollow.FirstFixAsWrittenMissesEpsilon | slr_generator.cpp:68-71 | on S' -> S, S -> (empty), the loop as written stops with epsilon in FIRST(S) but not in FIRST(S') |
| FirstFollow.FollowSetsClosed | slr_generator.cpp:91-133 | after computeFollowSets "#" is in FOLLOW of the start rule's left side, every FOLLOW rule holds, and no set lost a member |
| FirstFollow.FollowFixClosed | slr_generator.cpp:95-132 | the FOLLOW passes end with every FOLLOW rule satisfied, and no set loses a member |
| FirstFollow.FollowFixLeast | slr_generator.cpp:95-132 | the FOLLOW passes stop at the least map that satisfies the FOLLOW rules and contains their starting sets |
| FirstFollow.FollowClosedIsStable | slr_generator.cpp:100-125 | the FOLLOW rules hold exactly when no position has anything left to add |
| ItemSets.ClosureProperties | slr_generator.cpp:135-162 | closure(I) contains I, is closed, and adds only dot-0 items of listed productions |
| ItemSets.ClosureLeast | slr_generator.cpp:135-162 | closure(I) is contained in every closed set that contains I |
| ItemSets.ClosureIdempotent | slr_generator.cpp:135-162 | closing a closed set changes nothing |
| ItemSets.ClosureOfClosed | slr_generator.cpp:135-162 | a closed set is its own closure |
| ItemSets.ClosedIsStable | slr_generator.cpp:141-158 | a set is closed exactly when a round of the loop adds nothing |
| ItemSets.GotoEmptyIff | slr_generator.cpp:164-183 | goto(I, X) is empty exactly when no item of I has X after its dot |
| ItemSets.GotoProperties | slr_generator.cpp:164-183 | goto(I, X) is closed, is its own closure, and stays within the grammar's items |
| Automaton.GotoIsAState | slr_generator.cpp:210-224 | in the canonical collection, every symbol after a dot has a transition to the state holding the goto set, and that set is non-empty |
| Automaton.DistinctSetsOf | slr_generator.cpp:215-219 | no two states hold the same item set |
| Automaton.StatesBounded | slr_generator.cpp:186-227 | the states' item sets are subsets of the grammar's items, so there are finitely many states |
| Automaton.AppendState | slr_generator.cpp:216-220 | appending the goto set as a new numbered state keeps numbering, well-formedness, sound transitions and the state map, and the new set is new |
| Automaton.NewStateIsNew | slr_generator.cpp:215 | an item set missing from the state map is the item set of no state |
| Automaton.SetTransition | slr_generator.cpp:223 | recording the transition to the state holding the goto set keeps the construction invariant |
| Automaton.ExploredAll | slr_generator.cpp:199-226 | when the queue is empty, the states form the canonical collection, each state discovered by the first transition (in queue and symbol order) that reaches its item set |
| Automaton.CanonicalUnique | slr_generator.cpp:186-227 | the canonical collection is determined by the grammar: two state lists that both start from the closure of the start item, have distinct closed sets, exactly the non-empty gotos as transitions and breadth-first discovery numbering are equal |
| ParsingTable.FirstIndex | slr_generator.cpp:252-258 | the reduce number is the first index whose production equals the item's, or 0 when none does |
| ParsingTable.ActionWritesCases | slr_generator.cpp:244-283 | a completed S' item writes acc on "#"; another completed item writes r<k> on every FOLLOW symbol; a terminal after the dot with a transition writes s<n>; any other item writes nothing to ACTION |
| ParsingTable.OverlayLastWins | slr_generator.cpp:241-285 | a row holds a symbol exactly when some item writes it, with the value the last such item wrote |
| ParsingTable.ActionCell | slr_generator.cpp:241-285 | an ACTION cell is the last write of the state's items; rows of non-states are empty |
| ParsingTable.GotoEntryIsTransition | slr_generator.cpp:276-281 | a GOTO entry always names the state the nonterminal transition leads to |
| ParsingTable.GotoWrites | slr_generator.cpp:276-281 | an item writes a GOTO cell exactly when a nonterminal follows its dot and the state has a transition on it, and the cell names that transition's state |
| ParsingTable.GotoOverlayIsTransitions | slr_generator.cpp:241-285 | every GOTO entry of a row is a nonterminal transition of the state, naming the state it leads to |
| ParsingTable.GotoCell | slr_generator.cpp:241-285 | a GOTO cell is the last write of the state's items; rows of non-states are empty |
| SlrGenerator.SlrGenerator.constructor | slr_generator.cpp:7-11 | the three initialisations run in turn, leaving the statement grammar in place and empty FIRST, FOLLOW and states |
| SlrGenerator.SlrGenerator.InitArithmeticGrammar | slr_generator.cpp:13-22 | the productions become the arithmetic grammar; nothing else changes |
| SlrGenerator.SlrGenerator.InitBooleanGrammar | slr_generator.cpp:24-36 | the productions become the boolean grammar; nothing else changes |
| SlrGenerator.SlrGenerator.InitStatementGrammar | slr_generator.cpp:38-48 | the productions become the statement grammar; nothing else changes |
| SlrGenerator.SlrGenerator.ComputeFirstSets | slr_generator.cpp:58-88 | first becomes the corrected fixpoint of the old first map, equal to the as-written loop's result when the grammar has no empty rule |
| SlrGenerator.SlrGenerator.FirstRound | slr_generator.cpp:62-86 | one pass over the productions computes the corrected pass on the old map; nothing else changes |
| SlrGenerator.SlrGenerator.ComputeFollowSets | slr_generator.cpp:91-133 | follow becomes the fixpoint of the FOLLOW rules seeded with "#" |
| SlrGenerator.SlrGenerator.FollowRound | slr_generator.cpp:97-131 | one pass over the productions computes the FOLLOW pass; nothing else changes |
| SlrGenerator.SlrGenerator.FollowProduction | slr_generator.cpp:100-130 | the position loop over one right side computes the production's FOLLOW step |
| SlrGenerator.SlrGenerator.FollowPosition | slr_generator.cpp:102-129 | one position: a nonterminal gets the next terminal, FIRST of the next nonterminal, or FOLLOW of the left side at the end |
| SlrGenerator.SlrGenerator.Closure | slr_generator.cpp:135-162 | the loop yields an ordered set equal to closure(I) |
| SlrGenerator.SlrGenerator.ClosureRound | slr_generator.cpp:137-160 | one round yields the set of the closure step, and changed is raised exactly when the set grew |
| SlrGenerator.SlrGenerator.AddStartItems | slr_generator.cpp:146-155 | inserts (Q, 0) for every production Q of the nonterminal, and reports an insertion exactly when the set grew |
| SlrGenerator.SlrGenerator.ComputeGoto | slr_generator.cpp:164-183 | the result is the ordered set goto(I, X) |
| SlrGenerator.SlrGenerator.CollectSymbols | slr_generator.cpp:203-208 | the collected symbols are the sorted set of symbols after a dot |
| SlrGenerator.SlrGenerator.ExpandState | slr_generator.cpp:199-225 | expanding the front state keeps the construction invariant: every state before the next is explored, and the queue holds exactly the unexplored states in order |
| SlrGenerator.SlrGenerator.AddTransition | slr_generator.cpp:210-224 | one symbol: an empty goto set adds nothing, otherwise the transition is linked and the invariant kept |
| SlrGenerator.SlrGenerator.LinkState | slr_generator.cpp:213-223 | the goto set becomes a state (a new one, numbered next and queued, when no state holds it) and the transition names it |
| SlrGenerator.SlrGenerator.ConstructLR0Items | slr_generator.cpp:186-227 | states becomes the canonical LR(0) collection: state 0 is the closure of the start item, states have distinct closed item sets, the transitions are exactly the non-empty gotos, and each state is numbered in the breadth-first order in which a transition first reaches it; by CanonicalUnique this fixes the states uniquely |
| SlrGenerator.SlrGenerator.ProductionIndex | slr_generator.cpp:252-258 | the search returns the first index of an equal production, 0 if none |
| SlrGenerator.SlrGenerator.WriteItem | slr_generator.cpp:244-283 | one item adds exactly its ACTION and GOTO writes to what earlier items wrote into the state's rows |
| SlrGenerator.SlrGenerator.WriteReduces | slr_generator.cpp:261-263 | the reduce entry is written for every symbol of the FOLLOW set |
| SlrGenerator.SlrGenerator.FillState | slr_generator.cpp:243-284 | the item loop fills the state's rows with exactly its ACTION and GOTO rows |
| SlrGenerator.SlrGenerator.FillTables | slr_generator.cpp:241-285 | the loops over states and items produce exactly the ACTION and GOTO tables of the specification |
| SlrGenerator.SlrGenerator.GenerateParsingTable | slr_generator.cpp:229-290 | FIRST and FOLLOW become their fixpoints, states the unique canonical collection, and the two tables are the ACTION and GOTO tables the specification functions derive from them, so the result is a function of the grammar alone |
| SlrGenerator.SlrGenerator.GenerateArithmeticTable | slr_generator.cpp:349-353 | the productions become the arithmetic grammar and the tables are the ones determined by it (unique collection, fixpoint FIRST and FOLLOW), with FIRST equal to the as-written loop's result |
| SlrGenerator.SlrGenerator.GenerateBooleanTable | slr_generator.cpp:355-359 | the same for the boolean grammar |
| SlrGenerator.SlrGenerator.GenerateStatementTable | slr_generator.cpp:361-365 | the same for the statement grammar |
| Text.SignShown | parser.cpp:350 | std::to_string(int) starts with '-' exactly for a negative number |
| Text.NatToStringInjective | parser.cpp:350 | distinct naturals have distinct decimal texts |
| Text.IntToStringInjective | parser.cpp:350 | distinct integers have distinct decimal texts |
| Text.TempNamesDistinct | parser.cpp:350 | temporaries minted from different counter values have different names |
| Lexer.WordEnd | lexer.cpp:57-60 | the identifier loop stops at the first character that is neither letter nor digit |
| Lexer.DigitsEnd | lexer.cpp:76-79 | the number loop stops at the first non-digit |
| Lexer.NextOperator | lexer.cpp:85-158 | the switch: `+ * ( ) ; #` give PLUS, TIMES, LPARENT, RPARENT, SEMICOLON, JINGHAO, `~` type -1 and `=` ROP, each as one character; `:` gives BECOMES ":=" exactly when `=` follows and is otherwise skipped; `<` and `>` give ROP, two characters exactly when `=` follows; any other character is skipped without a token |
| Lexer.Next | lexer.cpp:43-158 | one step of tokenize: whitespace is skipped one character at a time without a token, letters start a maximal word, digits a maximal number, and any other character is exactly the switch's result |
| Lexer.ScanText | lexer.cpp:38-162 | every token's value is the non-empty source text at its start, with no whitespace in it |
| Lexer.ScanOrdered | lexer.cpp:38-162 | tokens appear in source order and do not overlap |
| Lexer.ScanClassifies | lexer.cpp:43-158 | every token starts at a non-blank character and is typed by it: words are maximal and typed by the keyword table or as IDENT, numbers maximal and INTCONST, operators by the switch (BECOMES for ":=", ROP for `=`, `<`, `>`, `<=`, `>=`, one type per single-character operator) |
| Lexer.ScanLines | lexer.cpp:39-49 | each token's line is the starting line plus the newlines between the scan's start and the token's start (tokenize starts at line 1) |
| Lexer.ScanLinesIncrease | lexer.cpp:39-49 | line numbers never decrease along the tokens |
| Lexer.KeywordsAreReserved | lexer.cpp:9-20 | the ten reserved words have types apart from IDENT and INTCONST |
| Lexer.NextHasNoWhitespace | lexer.cpp:47-51 | whitespace is skipped, so no token text holds a blank, tab or newline |
| Lexer.Lexer.constructor | lexer.cpp:4-6 | the keyword table holds exactly the ten reserved words |
| Lexer.Lexer.InitKeywords | lexer.cpp:9-20 | the keyword map gains the ten reserved words |
| Lexer.Lexer.ReadWord | lexer.cpp:57-60 | the word is the maximal run of letters and digits from the start position |
| Lexer.Lexer.ReadNumber | lexer.cpp:76-79 | the number is the maximal run of digits from the start position |
| Lexer.Lexer.ReadOperator | lexer.cpp:85-158 | the switch's token and next position are those of NextOperator, so it has the operator types stated there |
| Lexer.Lexer.Tokenize | lexer.cpp:38-162 | the token list is the scan of the whole source from line 1 |
| Parser.QuadTextNumbered | parser.cpp:20-29 | a generateQuadruple text starts with its number and " (" |
| Parser.JumpTextNumbered | parser.cpp:32-37 | a generateJump text starts with its number and " (" |
| Parser.PatchTextIsJump | parser.cpp:40-46 | a backpatched entry is the plain jump generateJump would write, so it is numbered too |
| Parser.NumberedUnique | parser.cpp:20-46 | an entry's number can be read back, so no text carries two numbers |
| Parser.RendersNumbered | parser.cpp:20-46 | every stored text carries its index plus 100 |
| Parser.Parser.GenerateQuadruple | parser.cpp:20-29 | appends one quadruple entry numbered quadIndex, and quadIndex grows by one |
| Parser.Parser.constructor | parser.cpp:6-9 | quadIndex starts at 100 and tempVarCounter at 1, with nothing emitted |
| Parser.Parser.GenerateJump | parser.cpp:32-37 | appends one jump entry numbered quadIndex |
| Parser.Parser.BackPatch | parser.cpp:40-46 | an index in [100, quadIndex) has its entry rewritten as a plain jump to the target; any other index changes nothing |
| Parser.Parser.Parse | parser.cpp:49-114 | success means statements start at token 0 and at increasing positions, each at if, while, begin or an identifier, and are followed by "#" and then "~" (with no statement, "#" is the first token); stored entries are only ever extended |
| Parser.Parser.ParseCompoundStatement | parser.cpp:117-176 | success consumes begin ... end |
| Parser.Parser.ParseStatement | parser.cpp:179-201 | dispatches on if, while, begin and identifiers, and fails on anything else or at the end |
| Parser.Parser.ParseIfStatement | parser.cpp:204-249 | on success the condition's conditional jump is followed by the false jump, which goes to just after the skip-else jump, and the skip-else jump goes to the end |
| Parser.Parser.ParseThenPart | parser.cpp:218-235 | "then statement" emits the skip-else placeholder after the statement and patches the false jump to the entry after it; entries before the false jump are untouched |
| Parser.Parser.ParseElsePart | parser.cpp:238-246 | the optional else part, after which the skip-else jump is patched to the current end |
| Parser.Parser.ParseWhileStatement | parser.cpp:252-299 | on success the condition's conditional jump is followed by the exit jump, the loop ends with a jump back to its first condition entry, and the exit jump is patched past it |
| Parser.Parser.ParseLoopBody | parser.cpp:277-299 | "do statement" ends with the jump back to the loop start and patches the exit jump to the entry after it; entries before the exit jump are untouched |
| Parser.Parser.ParseAssignmentStatement | parser.cpp:302-329 | identifier := expression emits "(:=,result, , identifier)" last |
| Parser.Parser.ParseExpression | parser.cpp:332-373 | the new entries are "+" and "*" quadruples into the fresh temporaries in order, one per temporary; the result is the last of them, or an identifier or constant of the expression when none was minted |
| Parser.Parser.ParseTerm | parser.cpp:376-416 | the same as parseExpression, starting from a factor |
| Parser.Parser.ParseSums | parser.cpp:341-354 | the "+" loop: every round adds a quadruple into the next temporary, so the emitted entries stay "+"/"*" quadruples into consecutive temporaries with the last as result, and it stops before a token that is not "+" |
| Parser.Parser.EmitBinary | parser.cpp:349-352 | one operator step mints the next temporary, emits one quadruple into it, and makes it the result |
| Parser.Parser.ParseProducts | parser.cpp:357-369 | the "*" loop: the same invariant for "*" rounds, stopping before a token that is not "*" |
| Parser.Parser.ParseFactor | parser.cpp:419-455 | a factor starts at an identifier, a constant or "("; an identifier or constant is its own result with nothing emitted; a parenthesised expression ends at its ")" and yields the inner expression's quadruples and result |
| Parser.Parser.ParseParenBooleanExpression | parser.cpp:458-481 | ( boolean ) ends with the conditional jump of the inner expression |
| Parser.Parser.ParseBooleanExpression | parser.cpp:484-512 | expression ROP expression: the two expressions' quadruples into consecutive temporaries, then "j<rop>" on the ROP token's text comparing the two expressions' values, targeting the entry two after it |
| CodeGen.TempsFresh | code_generator.cpp:39-52 | the temporaries the walk writes are T(t+1), T(t+2), ... in order, one per minted name, so each is fresh |
| CodeGen.LabelsResolve | code_generator.cpp:54-124 | every label minted during the walk is placed exactly once, and every jump goes to one of them |
| CodeGen.NodeNumbering | code_generator.cpp:23-37 | the walk of a node emits temporaries T(t+1)... and labels L(l+1)... in order, each counter ending past every name it minted |
| CodeGen.HandleNumbering | code_generator.cpp:26-31 | the same for the handling of one node |
| CodeGen.ChildrenNumbering | code_generator.cpp:34-36 | the same for the loop over children |
| CodeGen.IfNumbering | code_generator.cpp:55-86 | the if layout "(jnz, c, , L1)", then-part, "(j, , , L2)", "L1:", else-part, "L2:" keeps temporaries and labels numbered |
| CodeGen.WhileNumbering | code_generator.cpp:87-124 | the while layout "L1:", "(jnz, c, , L2)", "(j, , , L3)", "L2:", body, "(j, , , L1)", "L3:" keeps them numbered |
| CodeGen.BinaryWalk | code_generator.cpp:39-52 | a binary expression over leaves emits its one quadruple and takes the next temporary as its value |
| CodeGen.LeavesWalk | code_generator.cpp:34-36 | childless nodes emit nothing and change nothing |
| CodeGen.RevisitChildren | code_generator.cpp:34-36 | after the while layout, the loop over [condition, body] translates the body again once its value holds the first temporary |
| CodeGen.WhileRevisit | code_generator.cpp:23-124 | processNode on a while over a binary body emits the loop layout and then the body's quadruple once more after the end label, with the first temporary as the operator |
| CodeGen.CodeGenerator.constructor | code_generator.cpp:4 | both counters start at 0 and the member list is empty |
| CodeGen.CodeGenerator.NewTemp | code_generator.cpp:6-8 | the counter is bumped first, so the name is T plus the new value (T1 first) |
| CodeGen.CodeGenerator.NewLabel | code_generator.cpp:10-12 | the same with L and the label counter |
| CodeGen.CodeGenerator.GenerateQuadruples | code_generator.cpp:14-21 | returns an empty list; the walk's lines go to the member list |
| CodeGen.CodeGenerator.ProcessNode | code_generator.cpp:23-37 | nothing for null; otherwise the node is handled, then every child as updated is walked in order |
| CodeGen.CodeGenerator.ProcessChildren | code_generator.cpp:34-36 | the children are walked first to last |
| CodeGen.CodeGenerator.ProcessExpression | code_generator.cpp:39-52 | exactly two children: one "(op, c0, c1, Tn)" with a fresh Tn, which becomes the node's value; otherwise nothing |
| CodeGen.CodeGenerator.ProcessStatement | code_generator.cpp:54-125 | if and while get their layouts; any other statement emits nothing |
| CodeGen.CodeGenerator.ProcessIf | code_generator.cpp:55-86 | the if layout with two fresh labels, the else part only when there is a third child |
| CodeGen.CodeGenerator.ProcessWhile | code_generator.cpp:87-124 | the while layout with three fresh labels |
| Assembler.EmptyIsNotNumber | assembler.cpp:11 | the empty string is not a number |
| Assembler.IntTextIsNumber | assembler.cpp:10-13 | the text of an integer is a number exactly when the integer is not negative |
| Assembler.NamesAreNotNumbers | assembler.cpp:12 | temporary and label names are never numbers |
| Assembler.NumberConcat | assembler.cpp:12 | two non-empty strings joined form a number exactly when both are numbers |
| Assembler.CleanedHasNoSeparator | assembler.cpp:15-23 | the cleaned name holds no ',', ')' or space |
| Assembler.CleanedCounts | assembler.cpp:15-23 | every other character is kept as often as it occurs; separators are dropped |
| Assembler.CleanedAppend | assembler.cpp:17-21 | cleaning works piecewise, so order is kept |
| Assembler.CleanedUnchanged | assembler.cpp:15-23 | a name is left unchanged exactly when it holds no separator |
| Assembler.CleanedIdempotent | assembler.cpp:15-23 | cleaning twice is cleaning once |
| Assembler.NumberIsClean | assembler.cpp:10-23 | a number comes through cleaning unchanged |
| Assembler.DataSectionShape | assembler.cpp:25-31 | the data section has two more lines than variables: "data segment", one "    v           DW" per variable in order (each declares its variable), and "data ends" |
| Assembler.Assembler.constructor | assembler.cpp:8 | the listing and the variable list start empty |
| Assembler.Assembler.CleanVarName | assembler.cpp:15-23 | the loop builds exactly the cleaned name |
| Assembler.Assembler.GenerateDataSection | assembler.cpp:25-31 | appends the data section and nothing else; earlier lines are kept |
| Assembler.Assembler.GenerateCodeSection | assembler.cpp:33-45 | appends exactly the eleven fixed lines in order |

## Left out

- printParsingTable, printing of results and logging to std::cout are I/O and not modelled. generateParsingTable returns its tables instead of printing them.
- main.cpp (file reading and writing, exception handling) is I/O. The functions declared in assembler.h (parse_quads, collect_vars, generate_assembly) are defined in no file shown, so they are not modelled.
- Assembler::processQuadruple, writeToFile and printAssembly are left out: they parse quadruple text with stringstream extraction and write files.
- The parser's AST building (Node allocation, currentStatement, the destructor), getTokenInfo, reportError and tokenTypeToString are left out. They do not affect the quadruples.
- Parser.Parser.Parse: the exception handler around the loop is not modelled; no modelled operation throws.
- The integer counters (quadIndex, tempVarCounter, labelCounter) are unbounded; a 32-bit int overflow is not modelled.
- The syntax tree of code_generator.cpp is a value, not a graph of pointers. Sharing between subtrees (one Node* reachable twice) is not modelled.
- CodeGen.CodeGenerator.ProcessNode requires Accepted(n): an if/while statement has a non-null condition and a then/body child, and a binary expression has non-null operands. The C++ dereferences these unchecked, and behaviour without them is undefined.
- Several loops of the source are split into helper methods with their own contracts. These are FirstRound, FollowRound, FollowProduction, FollowPosition, ClosureRound, AddStartItems, ExpandState, AddTransition, LinkState, FillState, WriteItem, WriteReduces, ParseSums, ParseProducts, ParseThenPart, ParseElsePart, ParseLoopBody, ProcessChildren, ProcessIf and ProcessWhile. The order of the updates is the source's.
- Parser: the recursive-descent methods are not proved equal to a reference grammar function. Their contracts state what the emitted quadruples are (see the table) but not, for example, that the tokens between two statement starts form exactly one statement.
- Parser.Parser.Parse: the contract places the statement starts and the "#" "~" ending; it does not state that no "#" occurs inside an accepted statement.
- SymbolMaps.Get: reading a FIRST or FOLLOW entry does not insert the key, while std::map::operator[] in computeFirstSets and computeFollowSets default-inserts an empty set. The maps' key sets can then differ from the source's; the set held for every symbol agrees, and a missing key reads as the empty set.
- Lexer: the TokenType of Special (-1) is kept; the lexer's isDigit, isLetter and isWhitespace are predicates, with no separate methods.
- Assembler.IsNumber: ::isdigit is taken in the C locale ('0' to '9'); negative char values, which are undefined behaviour for ::isdigit, are not modelled.

## Findings

| source | as written | input that shows it | evidently intended | confidence | as-written member | corrected member |
|---|---|---|---|---|---|---|
| slr_generator.cpp:68-71 | an empty right side inserts "ε" and then `continue`s past the `changed` check, so a pass whose only growth is an ε can end the loop | grammar S' -> S, S -> (empty), starting from empty sets: one pass leaves FIRST(S) = {ε} and FIRST(S') = {} | the ε insertion counts as a change like any other insertion, so the loop runs until FIRST(S') also holds ε | not executed; the three fixed grammars have no empty rule, so their tables are unaffected | FirstFollow.FirstFixAsWrittenMissesEpsilon | FirstFollow.FirstFixClosed |

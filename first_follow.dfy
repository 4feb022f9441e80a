/**
 * The FIRST and FOLLOW computations of slr_generator.cpp as passes over the
 * productions, repeated until a pass reports no change.  The generator's
 * methods are proved to compute FirstFix and FollowSets; the lemmas here say
 * what those fixpoints satisfy.
 */
module FirstFollow {
  import opened Productions
  import opened Grammar
  import opened SymbolMaps

  /** The left sides of a grammar. */
  function Lefts(ps: seq<Production>): set<string> {
    set p | p in ps :: p.left
  }

  /** Every symbol on some right side. */
  function Symbols(ps: seq<Production>): set<string> {
    set p, x | p in ps && x in p.right :: x
  }

  lemma SymbolAt(ps: seq<Production>, p: Production, i: int)
    requires p in ps && 0 <= i < |p.right|
    ensures p.right[i] in Symbols(ps)
  {
    assert p.right[i] in p.right;
  }

  lemma PrefixSymbols(ps: seq<Production>, n: nat)
    requires n <= |ps|
    ensures Symbols(ps[..n]) <= Symbols(ps) && Lefts(ps[..n]) <= Lefts(ps)
  {
    assert forall p :: p in ps[..n] ==> p in ps;
  }

  // ---------------------------------------------------------------- FIRST

  /** What one production adds to FIRST(left) given the current sets:
      epsilon for an empty right side, a leading terminal itself, or the
      FIRST set of a leading nonterminal. */
  function FirstAdd(p: Production, f: SymbolMap): set<string> {
    if |p.right| == 0 then {Epsilon}
    else if IsTerminal(p.right[0]) then {p.right[0]}
    else Get(f, p.right[0])
  }

  /** One iteration of the production loop; every case reaches the size check. */
  function FirstStep(p: Production, f: SymbolMap): (SymbolMap, bool) {
    AddTo(f, p.left, FirstAdd(p, f))
  }

  /** The same iteration as written: the epsilon branch leaves by `continue`
      before the size check, so it never raises the change flag. */
  function FirstStepAsWritten(p: Production, f: SymbolMap): (SymbolMap, bool) {
    var (g, c) := AddTo(f, p.left, FirstAdd(p, f));
    (g, c && |p.right| > 0)
  }

  /** One full pass over the productions, in order; the flag is or-ed. */
  function FirstPass(ps: seq<Production>, f: SymbolMap): (SymbolMap, bool)
    decreases |ps|
  {
    if |ps| == 0 then (f, false)
    else
      var (g, c) := FirstPass(ps[..|ps| - 1], f);
      var (h, d) := FirstStep(ps[|ps| - 1], g);
      (h, c || d)
  }

  function FirstPassAsWritten(ps: seq<Production>, f: SymbolMap): (SymbolMap, bool)
    decreases |ps|
  {
    if |ps| == 0 then (f, false)
    else
      var (g, c) := FirstPassAsWritten(ps[..|ps| - 1], f);
      var (h, d) := FirstStepAsWritten(ps[|ps| - 1], g);
      (h, c || d)
  }

  /** The members a FIRST set can receive. */
  function FirstVals(ps: seq<Production>): set<string> {
    Symbols(ps) + {Epsilon}
  }

  lemma {:induction false} FirstPassProgress(ps: seq<Production>, qs: seq<Production>, f: SymbolMap)
    requires Lefts(qs) <= Lefts(ps) && Symbols(qs) <= Symbols(ps)
    ensures Progress(f, FirstPass(qs, f).0, FirstPass(qs, f).1, Lefts(ps), FirstVals(ps))
    decreases |qs|
  {
    if |qs| == 0 {
      ProgressRefl(f, Lefts(ps), FirstVals(ps));
    } else {
      var n := |qs| - 1;
      var p := qs[n];
      PrefixSymbols(qs, n);
      FirstPassProgress(ps, qs[..n], f);
      var (g, c) := FirstPass(qs[..n], f);
      assert p in qs;
      assert p.left in Lefts(ps);
      if |p.right| > 0 {
        SymbolAt(qs, p, 0);
        forall v | v in Get(g, p.right[0]) ensures v in Values(g) {
          ValuesGet(g, p.right[0], v);
        }
      }
      AddToProgress(g, p.left, FirstAdd(p, g), Lefts(ps), FirstVals(ps));
      var (h, d) := FirstStep(p, g);
      ProgressTrans(f, g, h, c, d, Lefts(ps), FirstVals(ps));
    }
  }

  /** The pass as written computes the same sets; only its flag can be lower. */
  lemma {:induction false} FirstPassAsWrittenSameSets(ps: seq<Production>, f: SymbolMap)
    ensures FirstPassAsWritten(ps, f).0 == FirstPass(ps, f).0
    ensures FirstPassAsWritten(ps, f).1 ==> FirstPass(ps, f).1
    decreases |ps|
  {
    if |ps| > 0 {
      FirstPassAsWrittenSameSets(ps[..|ps| - 1], f);
    }
  }

  /** Without epsilon rules the pass as written and the corrected pass agree,
      flag included: the three fixed grammars are computed alike. */
  lemma {:induction false} FirstPassesAgreeWithoutEpsilonRules(ps: seq<Production>, f: SymbolMap)
    requires forall p :: p in ps ==> |p.right| > 0
    ensures FirstPassAsWritten(ps, f) == FirstPass(ps, f)
    decreases |ps|
  {
    if |ps| > 0 {
      assert ps[|ps| - 1] in ps;
      assert forall p :: p in ps[..|ps| - 1] ==> p in ps;
      FirstPassesAgreeWithoutEpsilonRules(ps[..|ps| - 1], f);
    }
  }

  /** The do-while loop of computeFirstSets with the corrected pass. */
  function FirstFix(ps: seq<Production>, f: SymbolMap): SymbolMap
    decreases Budget(f, Lefts(ps), FirstVals(ps)) - Pairs(f)
  {
    var (g, c) := FirstPass(ps, f);
    FirstPassProgress(ps, ps, f);
    ProgressMeasure(f, g, c, Lefts(ps), FirstVals(ps));
    if c then FirstFix(ps, g) else g
  }

  /** The do-while loop of computeFirstSets as written. */
  function FirstFixAsWritten(ps: seq<Production>, f: SymbolMap): SymbolMap
    decreases Budget(f, Lefts(ps), FirstVals(ps)) - Pairs(f)
  {
    var (g, c) := FirstPassAsWritten(ps, f);
    FirstPassAsWrittenSameSets(ps, f);
    FirstPassProgress(ps, ps, f);
    ProgressMeasure(f, g, FirstPass(ps, f).1, Lefts(ps), FirstVals(ps));
    if c then FirstFixAsWritten(ps, g) else g
  }

  /** Without epsilon rules the loop as written ends where the corrected
      loop ends. */
  lemma {:induction false} FirstFixAsWrittenAgrees(ps: seq<Production>, f: SymbolMap)
    requires forall p :: p in ps ==> |p.right| > 0
    ensures FirstFixAsWritten(ps, f) == FirstFix(ps, f)
    decreases Budget(f, Lefts(ps), FirstVals(ps)) - Pairs(f)
  {
    FirstPassesAgreeWithoutEpsilonRules(ps, f);
    var (g, c) := FirstPass(ps, f);
    FirstPassProgress(ps, ps, f);
    ProgressMeasure(f, g, c, Lefts(ps), FirstVals(ps));
    if c {
      FirstFixAsWrittenAgrees(ps, g);
    }
  }

  /** The three FIRST rules, for every production of the grammar. */
  ghost predicate FirstClosed(ps: seq<Production>, f: SymbolMap) {
    (forall p :: p in ps && |p.right| == 0 ==> Epsilon in Get(f, p.left)) &&
    (forall p :: p in ps && |p.right| > 0 && IsTerminal(p.right[0]) ==> p.right[0] in Get(f, p.left)) &&
    (forall p :: p in ps && |p.right| > 0 && !IsTerminal(p.right[0]) ==> Get(f, p.right[0]) <= Get(f, p.left))
  }

  /** The rules hold exactly when no production has anything left to add. */
  lemma FirstClosedIsStable(ps: seq<Production>, f: SymbolMap)
    ensures FirstClosed(ps, f) <==> forall p :: p in ps ==> FirstAdd(p, f) <= Get(f, p.left)
  {
  }

  lemma FirstAddSameSets(p: Production, f: SymbolMap, g: SymbolMap)
    requires Pairs(f) == Pairs(g)
    ensures FirstAdd(p, f) == FirstAdd(p, g) && Get(f, p.left) == Get(g, p.left)
  {
    SamePairsSameSets(f, g, p.left);
    if |p.right| > 0 {
      SamePairsSameSets(f, g, p.right[0]);
    }
  }

  /** A pass that reports no change found every production satisfied. */
  lemma {:induction false} FirstPassStable(ps: seq<Production>, f: SymbolMap)
    requires !FirstPass(ps, f).1
    ensures Pairs(FirstPass(ps, f).0) == Pairs(f)
    ensures forall i :: 0 <= i < |ps| ==> FirstAdd(ps[i], f) <= Get(f, ps[i].left)
    decreases |ps|
  {
    if |ps| > 0 {
      var n := |ps| - 1;
      var prev := ps[..n];
      FirstPassStable(prev, f);
      var (g, c) := FirstPass(prev, f);
      assert FirstPass(ps, f) == (FirstStep(ps[n], g).0, c || FirstStep(ps[n], g).1);
      AddToUnchanged(g, ps[n].left, FirstAdd(ps[n], g));
      FirstAddSameSets(ps[n], f, g);
      forall i | 0 <= i < |ps| ensures FirstAdd(ps[i], f) <= Get(f, ps[i].left) {
        if i < n {
          assert ps[i] == prev[i];
        }
      }
    }
  }

  /** computeFirstSets' result: every FIRST rule holds, and every set holds at
      least what it held before the call (the sets are never cleared). */
  lemma {:induction false} FirstFixClosed(ps: seq<Production>, f: SymbolMap)
    ensures FirstClosed(ps, FirstFix(ps, f))
    ensures Grows(f, FirstFix(ps, f))
    decreases Budget(f, Lefts(ps), FirstVals(ps)) - Pairs(f)
  {
    var (g, c) := FirstPass(ps, f);
    FirstPassProgress(ps, ps, f);
    ProgressMeasure(f, g, c, Lefts(ps), FirstVals(ps));
    PairsGrows(f, g);
    if c {
      FirstFixClosed(ps, g);
    } else {
      FirstPassStable(ps, f);
      forall p | p in ps ensures FirstAdd(p, g) <= Get(g, p.left) {
        var i :| 0 <= i < |ps| && ps[i] == p;
        FirstAddSameSets(p, f, g);
      }
      FirstClosedIsStable(ps, g);
    }
  }

  lemma FirstAddMonotone(p: Production, g: SymbolMap, h: SymbolMap)
    requires Grows(g, h)
    ensures FirstAdd(p, g) <= FirstAdd(p, h)
  {
    if |p.right| > 0 {
      assert Get(g, p.right[0]) <= Get(h, p.right[0]);
    }
  }

  lemma {:induction false} FirstPassBelow(qs: seq<Production>, f: SymbolMap, h: SymbolMap)
    requires Grows(f, h)
    requires forall p :: p in qs ==> FirstAdd(p, h) <= Get(h, p.left)
    ensures Grows(FirstPass(qs, f).0, h)
    decreases |qs|
  {
    if |qs| > 0 {
      var n := |qs| - 1;
      assert forall p :: p in qs[..n] ==> p in qs;
      FirstPassBelow(qs[..n], f, h);
      var g := FirstPass(qs[..n], f).0;
      assert qs[n] in qs;
      FirstAddMonotone(qs[n], g, h);
      var o := FirstStep(qs[n], g).0;
      forall k ensures Get(o, k) <= Get(h, k) {
        if k != qs[n].left {
          assert Get(g, k) <= Get(h, k);
        }
      }
    }
  }

  /** The result is the least map that satisfies the FIRST rules and contains
      the starting sets. */
  lemma {:induction false} FirstFixLeast(ps: seq<Production>, f: SymbolMap, h: SymbolMap)
    requires Grows(f, h) && FirstClosed(ps, h)
    ensures Grows(FirstFix(ps, f), h)
    decreases Budget(f, Lefts(ps), FirstVals(ps)) - Pairs(f)
  {
    var (g, c) := FirstPass(ps, f);
    FirstPassProgress(ps, ps, f);
    ProgressMeasure(f, g, c, Lefts(ps), FirstVals(ps));
    FirstClosedIsStable(ps, h);
    FirstPassBelow(ps, f, h);
    if c {
      FirstFixLeast(ps, g, h);
    }
  }

  /** The loop as written stops after one pass on S' -> S, S -> (empty) and
      leaves epsilon out of FIRST(S') although it is in FIRST(S). */
  lemma FirstFixAsWrittenMissesEpsilon()
    ensures var g := [Production("S'", ["S"]), Production("S", [])];
            var r := FirstFixAsWritten(g, map[]);
            Epsilon in Get(r, "S") && Epsilon !in Get(r, "S'") && !FirstClosed(g, r)
  {
    var g := [Production("S'", ["S"]), Production("S", [])];
    assert g[..1] == [g[0]] && g[..1][..0] == [];
    assert FirstPassAsWritten(g[..1][..0], map[]) == (map[], false);
    assert !IsTerminal("S") && FirstAdd(g[0], map[]) == {};
    assert FirstStepAsWritten(g[0], map[]) == (map["S'" := {}], false);
    var m1 := FirstPassAsWritten(g[..1], map[]);
    assert m1 == (map["S'" := {}], false);
    var m2 := FirstPassAsWritten(g, map[]);
    assert m2 == (map["S'" := {}, "S" := {Epsilon}], false);
    var r := FirstFixAsWritten(g, map[]);
    assert r == m2.0;
    assert g[0] in g && |g[0].right| > 0 && !IsTerminal(g[0].right[0]);
  }

  // --------------------------------------------------------------- FOLLOW

  /** What position i of production p adds to FOLLOW(p.right[i]): the next
      symbol if it is a terminal, FIRST of the next symbol if it is a
      nonterminal, and FOLLOW(p.left) at the last position. */
  function FollowAdd(p: Production, i: nat, first: SymbolMap, f: SymbolMap): set<string>
    requires i < |p.right|
  {
    if i < |p.right| - 1 then
      (if IsTerminal(p.right[i + 1]) then {p.right[i + 1]} else Get(first, p.right[i + 1]))
    else Get(f, p.left)
  }

  /** One iteration of the position loop; terminals are skipped. */
  function FollowStep(p: Production, i: nat, first: SymbolMap, f: SymbolMap): (SymbolMap, bool)
    requires i < |p.right|
  {
    if IsTerminal(p.right[i]) then (f, false)
    else AddTo(f, p.right[i], FollowAdd(p, i, first, f))
  }

  /** The first n positions of production p, in order. */
  function FollowProd(p: Production, n: nat, first: SymbolMap, f: SymbolMap): (SymbolMap, bool)
    requires n <= |p.right|
    decreases n
  {
    if n == 0 then (f, false)
    else
      var (g, c) := FollowProd(p, n - 1, first, f);
      var (h, d) := FollowStep(p, n - 1, first, g);
      (h, c || d)
  }

  /** One full pass over the productions. */
  function FollowPass(ps: seq<Production>, first: SymbolMap, f: SymbolMap): (SymbolMap, bool)
    decreases |ps|
  {
    if |ps| == 0 then (f, false)
    else
      var (g, c) := FollowPass(ps[..|ps| - 1], first, f);
      var p := ps[|ps| - 1];
      var (h, d) := FollowProd(p, |p.right|, first, g);
      (h, c || d)
  }

  /** The members a FOLLOW set can receive from the passes. */
  function FollowVals(ps: seq<Production>, first: SymbolMap): set<string> {
    Symbols(ps) + Values(first)
  }

  lemma {:induction false} FollowProdProgress(ps: seq<Production>, p: Production, n: nat, first: SymbolMap, f: SymbolMap)
    requires p in ps && n <= |p.right|
    ensures Progress(f, FollowProd(p, n, first, f).0, FollowProd(p, n, first, f).1, Symbols(ps), FollowVals(ps, first))
    decreases n
  {
    var K, V := Symbols(ps), FollowVals(ps, first);
    if n == 0 {
      ProgressRefl(f, K, V);
    } else {
      FollowProdProgress(ps, p, n - 1, first, f);
      var (g, c) := FollowProd(p, n - 1, first, f);
      var (h, d) := FollowStep(p, n - 1, first, g);
      if IsTerminal(p.right[n - 1]) {
        ProgressRefl(g, K, V);
      } else {
        SymbolAt(ps, p, n - 1);
        var add := FollowAdd(p, n - 1, first, g);
        if n - 1 < |p.right| - 1 {
          SymbolAt(ps, p, n);
          forall v | v in Get(first, p.right[n]) ensures v in Values(first) {
            ValuesGet(first, p.right[n], v);
          }
        } else {
          forall v | v in Get(g, p.left) ensures v in Values(g) {
            ValuesGet(g, p.left, v);
          }
        }
        AddToProgress(g, p.right[n - 1], add, K, V);
      }
      ProgressTrans(f, g, h, c, d, K, V);
    }
  }

  lemma {:induction false} FollowPassProgress(ps: seq<Production>, qs: seq<Production>, first: SymbolMap, f: SymbolMap)
    requires forall p :: p in qs ==> p in ps
    ensures Progress(f, FollowPass(qs, first, f).0, FollowPass(qs, first, f).1, Symbols(ps), FollowVals(ps, first))
    decreases |qs|
  {
    var K, V := Symbols(ps), FollowVals(ps, first);
    if |qs| == 0 {
      ProgressRefl(f, K, V);
    } else {
      var n := |qs| - 1;
      assert forall p :: p in qs[..n] ==> p in qs;
      FollowPassProgress(ps, qs[..n], first, f);
      var (g, c) := FollowPass(qs[..n], first, f);
      assert qs[n] in qs;
      FollowProdProgress(ps, qs[n], |qs[n].right|, first, g);
      var (h, d) := FollowProd(qs[n], |qs[n].right|, first, g);
      ProgressTrans(f, g, h, c, d, K, V);
    }
  }

  /** The do-while loop of computeFollowSets. */
  function FollowFix(ps: seq<Production>, first: SymbolMap, f: SymbolMap): SymbolMap
    decreases Budget(f, Symbols(ps), FollowVals(ps, first)) - Pairs(f)
  {
    var (g, c) := FollowPass(ps, first, f);
    FollowPassProgress(ps, ps, first, f);
    ProgressMeasure(f, g, c, Symbols(ps), FollowVals(ps, first));
    if c then FollowFix(ps, first, g) else g
  }

  /** The seed: the end marker goes into FOLLOW of the first production's left side. */
  function FollowSeed(ps: seq<Production>, f: SymbolMap): SymbolMap
    requires |ps| > 0
  {
    AddTo(f, ps[0].left, {EndMarker}).0
  }

  /** computeFollowSets: the seed, then the passes. */
  function FollowSets(ps: seq<Production>, first: SymbolMap, f: SymbolMap): SymbolMap
    requires |ps| > 0
  {
    FollowFix(ps, first, FollowSeed(ps, f))
  }

  /** The FOLLOW rules for every nonterminal occurrence on a right side. */
  ghost predicate FollowClosed(ps: seq<Production>, first: SymbolMap, f: SymbolMap) {
    (forall p, i :: p in ps && 0 <= i < |p.right| - 1 && !IsTerminal(p.right[i]) && IsTerminal(p.right[i + 1])
       ==> p.right[i + 1] in Get(f, p.right[i])) &&
    (forall p, i :: p in ps && 0 <= i < |p.right| - 1 && !IsTerminal(p.right[i]) && !IsTerminal(p.right[i + 1])
       ==> Get(first, p.right[i + 1]) <= Get(f, p.right[i])) &&
    (forall p :: p in ps && |p.right| > 0 && !IsTerminal(p.right[|p.right| - 1])
       ==> Get(f, p.left) <= Get(f, p.right[|p.right| - 1]))
  }

  /** The rules hold exactly when no position has anything left to add. */
  lemma FollowClosedIsStable(ps: seq<Production>, first: SymbolMap, f: SymbolMap)
    ensures FollowClosed(ps, first, f) <==>
      forall p, i :: p in ps && 0 <= i < |p.right| && !IsTerminal(p.right[i])
        ==> FollowAdd(p, i, first, f) <= Get(f, p.right[i])
  {
    if FollowClosed(ps, first, f) {
      forall p, i | p in ps && 0 <= i < |p.right| && !IsTerminal(p.right[i])
        ensures FollowAdd(p, i, first, f) <= Get(f, p.right[i])
      {
        if i == |p.right| - 1 {
          assert Get(f, p.left) <= Get(f, p.right[|p.right| - 1]);
        }
      }
    }
    if forall p, i :: p in ps && 0 <= i < |p.right| && !IsTerminal(p.right[i])
        ==> FollowAdd(p, i, first, f) <= Get(f, p.right[i])
    {
      forall p | p in ps && |p.right| > 0 && !IsTerminal(p.right[|p.right| - 1])
        ensures Get(f, p.left) <= Get(f, p.right[|p.right| - 1])
      {
        assert FollowAdd(p, |p.right| - 1, first, f) <= Get(f, p.right[|p.right| - 1]);
      }
    }
  }

  lemma FollowAddSameSets(p: Production, i: nat, first: SymbolMap, f: SymbolMap, g: SymbolMap)
    requires i < |p.right| && Pairs(f) == Pairs(g)
    ensures FollowAdd(p, i, first, f) == FollowAdd(p, i, first, g)
    ensures Get(f, p.right[i]) == Get(g, p.right[i])
  {
    SamePairsSameSets(f, g, p.left);
    SamePairsSameSets(f, g, p.right[i]);
  }

  lemma {:induction false} FollowProdStable(p: Production, n: nat, first: SymbolMap, f: SymbolMap)
    requires n <= |p.right| && !FollowProd(p, n, first, f).1
    ensures Pairs(FollowProd(p, n, first, f).0) == Pairs(f)
    ensures forall i :: 0 <= i < n && !IsTerminal(p.right[i]) ==> FollowAdd(p, i, first, f) <= Get(f, p.right[i])
    decreases n
  {
    if n > 0 {
      FollowProdStable(p, n - 1, first, f);
      var (g, c) := FollowProd(p, n - 1, first, f);
      if !IsTerminal(p.right[n - 1]) {
        var add := FollowAdd(p, n - 1, first, g);
        AddToProgress(g, p.right[n - 1], add, {p.right[n - 1]}, add);
        FollowAddSameSets(p, n - 1, first, f, g);
      }
    }
  }

  lemma {:induction false} FollowPassStable(ps: seq<Production>, first: SymbolMap, f: SymbolMap)
    requires !FollowPass(ps, first, f).1
    ensures Pairs(FollowPass(ps, first, f).0) == Pairs(f)
    ensures forall k, i :: 0 <= k < |ps| && 0 <= i < |ps[k].right| && !IsTerminal(ps[k].right[i]) ==>
              FollowAdd(ps[k], i, first, f) <= Get(f, ps[k].right[i])
    decreases |ps|
  {
    if |ps| > 0 {
      var n := |ps| - 1;
      FollowPassStable(ps[..n], first, f);
      var (g, c) := FollowPass(ps[..n], first, f);
      FollowProdStable(ps[n], |ps[n].right|, first, g);
      forall i | 0 <= i < |ps[n].right| && !IsTerminal(ps[n].right[i])
        ensures FollowAdd(ps[n], i, first, f) <= Get(f, ps[n].right[i])
      {
        FollowAddSameSets(ps[n], i, first, f, g);
      }
      assert forall k :: 0 <= k < n ==> ps[k] == ps[..n][k];
    }
  }

  lemma {:induction false} FollowFixClosed(ps: seq<Production>, first: SymbolMap, f: SymbolMap)
    ensures FollowClosed(ps, first, FollowFix(ps, first, f))
    ensures Grows(f, FollowFix(ps, first, f))
    decreases Budget(f, Symbols(ps), FollowVals(ps, first)) - Pairs(f)
  {
    var (g, c) := FollowPass(ps, first, f);
    FollowPassProgress(ps, ps, first, f);
    ProgressMeasure(f, g, c, Symbols(ps), FollowVals(ps, first));
    PairsGrows(f, g);
    if c {
      FollowFixClosed(ps, first, g);
    } else {
      FollowPassStable(ps, first, f);
      forall p, i | p in ps && 0 <= i < |p.right| && !IsTerminal(p.right[i])
        ensures FollowAdd(p, i, first, g) <= Get(g, p.right[i])
      {
        var k :| 0 <= k < |ps| && ps[k] == p;
        FollowAddSameSets(p, i, first, f, g);
      }
      FollowClosedIsStable(ps, first, g);
    }
  }

  /** computeFollowSets' result: the end marker is in FOLLOW of the start
      rule's left side, every FOLLOW rule holds, and no set lost a member. */
  lemma FollowSetsClosed(ps: seq<Production>, first: SymbolMap, f: SymbolMap)
    requires |ps| > 0
    ensures EndMarker in Get(FollowSets(ps, first, f), ps[0].left)
    ensures FollowClosed(ps, first, FollowSets(ps, first, f))
    ensures Grows(f, FollowSets(ps, first, f))
  {
    var s := FollowSeed(ps, f);
    FollowFixClosed(ps, first, s);
    assert Grows(f, s);
    assert Get(s, ps[0].left) <= Get(FollowSets(ps, first, f), ps[0].left);
  }

  lemma FollowAddMonotone(p: Production, i: nat, first: SymbolMap, g: SymbolMap, h: SymbolMap)
    requires i < |p.right| && Grows(g, h)
    ensures FollowAdd(p, i, first, g) <= FollowAdd(p, i, first, h)
  {
    assert Get(g, p.left) <= Get(h, p.left);
  }

  lemma {:induction false} FollowProdBelow(p: Production, n: nat, first: SymbolMap, f: SymbolMap, h: SymbolMap)
    requires n <= |p.right| && Grows(f, h)
    requires forall i :: 0 <= i < |p.right| && !IsTerminal(p.right[i]) ==> FollowAdd(p, i, first, h) <= Get(h, p.right[i])
    ensures Grows(FollowProd(p, n, first, f).0, h)
    decreases n
  {
    if n > 0 {
      FollowProdBelow(p, n - 1, first, f, h);
      var g := FollowProd(p, n - 1, first, f).0;
      if !IsTerminal(p.right[n - 1]) {
        FollowAddMonotone(p, n - 1, first, g, h);
        var o := FollowStep(p, n - 1, first, g).0;
        forall k ensures Get(o, k) <= Get(h, k) {
          if k != p.right[n - 1] {
            assert Get(g, k) <= Get(h, k);
          }
        }
      }
    }
  }

  lemma {:induction false} FollowPassBelow(qs: seq<Production>, first: SymbolMap, f: SymbolMap, h: SymbolMap)
    requires Grows(f, h)
    requires forall p, i :: p in qs && 0 <= i < |p.right| && !IsTerminal(p.right[i]) ==>
               FollowAdd(p, i, first, h) <= Get(h, p.right[i])
    ensures Grows(FollowPass(qs, first, f).0, h)
    decreases |qs|
  {
    if |qs| > 0 {
      var n := |qs| - 1;
      assert forall p :: p in qs[..n] ==> p in qs;
      FollowPassBelow(qs[..n], first, f, h);
      assert qs[n] in qs;
      FollowProdBelow(qs[n], |qs[n].right|, first, FollowPass(qs[..n], first, f).0, h);
    }
  }

  /** The passes stop at the least map that satisfies the FOLLOW rules and
      contains the sets they started from. */
  lemma {:induction false} FollowFixLeast(ps: seq<Production>, first: SymbolMap, f: SymbolMap, h: SymbolMap)
    requires Grows(f, h) && FollowClosed(ps, first, h)
    ensures Grows(FollowFix(ps, first, f), h)
    decreases Budget(f, Symbols(ps), FollowVals(ps, first)) - Pairs(f)
  {
    var (g, c) := FollowPass(ps, first, f);
    FollowPassProgress(ps, ps, first, f);
    ProgressMeasure(f, g, c, Symbols(ps), FollowVals(ps, first));
    FollowClosedIsStable(ps, first, h);
    FollowPassBelow(ps, first, f, h);
    if c {
      FollowFixLeast(ps, first, g, h);
    }
  }
}

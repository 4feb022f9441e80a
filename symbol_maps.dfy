/**
 * The std::map<std::string, std::set<std::string>> values that hold the FIRST
 * and FOLLOW sets, with the one update the generator performs on them:
 * inserting a range of symbols into the set stored under a key.
 */
module SymbolMaps {

  type SymbolMap = map<string, set<string>>

  /** Reading an entry through operator[]: a missing key reads as the empty
      set a default-constructed entry holds. */
  function Get(m: SymbolMap, k: string): set<string> {
    if k in m then m[k] else {}
  }

  /** Every set only grew from m to n. */
  ghost predicate Grows(m: SymbolMap, n: SymbolMap) {
    forall k :: Get(m, k) <= Get(n, k)
  }

  /** The (key, member) pairs of a map: what its sets hold, ignoring empty entries. */
  function Pairs(m: SymbolMap): set<(string, string)> {
    set k, v | k in m && v in m[k] :: (k, v)
  }

  /** Every symbol stored in any set of m. */
  function Values(m: SymbolMap): set<string> {
    set k, v | k in m && v in m[k] :: v
  }

  function Product(keys: set<string>, vals: set<string>): set<(string, string)> {
    set k, v | k in keys && v in vals :: (k, v)
  }

  /** All pairs a map can come to hold when new keys are drawn from keys and
      new members from vals: the measure that bounds the fixpoint loops. */
  function Budget(m: SymbolMap, keys: set<string>, vals: set<string>): set<(string, string)> {
    Product(m.Keys + keys, Values(m) + vals)
  }

  /** set.insert(first, last) on the entry m[k]: the new map, and whether the
      entry's size grew (the oldSize comparison of the source). */
  function AddTo(m: SymbolMap, k: string, add: set<string>): (r: (SymbolMap, bool))
    ensures Get(r.0, k) == Get(m, k) + add
    ensures forall j :: j != k ==> Get(r.0, j) == Get(m, j)
    ensures r.0.Keys == m.Keys + {k}
    ensures r.1 <==> !(add <= Get(m, k))
  {
    var s := Get(m, k);
    var t := s + add;
    assert !(add <= s) ==> s < t;
    (m[k := t], |t| > |s|)
  }

  /** How a map may evolve in one pass: it keeps its keys and pairs, adds
      keys only from keys and members only from vals or its own members,
      and the change flag is raised exactly when some set grew. */
  ghost predicate Progress(m: SymbolMap, n: SymbolMap, changed: bool, keys: set<string>, vals: set<string>) {
    m.Keys <= n.Keys <= m.Keys + keys &&
    Pairs(m) <= Pairs(n) &&
    Values(n) <= Values(m) + vals &&
    (changed <==> Pairs(m) != Pairs(n))
  }

  lemma PairsGet(m: SymbolMap, k: string, v: string)
    ensures (k, v) in Pairs(m) <==> v in Get(m, k)
  {
  }

  lemma ValuesGet(m: SymbolMap, k: string, v: string)
    requires v in Get(m, k)
    ensures v in Values(m)
  {
  }

  /** Pair inclusion is the same thing as every set growing. */
  lemma {:induction false} PairsGrows(m: SymbolMap, n: SymbolMap)
    ensures Pairs(m) <= Pairs(n) <==> Grows(m, n)
  {
    if Pairs(m) <= Pairs(n) {
      forall k ensures Get(m, k) <= Get(n, k) {
        forall v | v in Get(m, k) ensures v in Get(n, k) {
          PairsGet(m, k, v);
          PairsGet(n, k, v);
        }
      }
    }
    if Grows(m, n) {
      forall p | p in Pairs(m) ensures p in Pairs(n) {
        PairsGet(m, p.0, p.1);
        PairsGet(n, p.0, p.1);
      }
    }
  }

  /** Equal pairs mean every entry reads the same. */
  lemma SamePairsSameSets(m: SymbolMap, n: SymbolMap, k: string)
    requires Pairs(m) == Pairs(n)
    ensures Get(m, k) == Get(n, k)
  {
    PairsGrows(m, n);
    PairsGrows(n, m);
  }

  /** One AddTo is a Progress step that may add the key k and the members add. */
  lemma {:induction false} AddToProgress(m: SymbolMap, k: string, add: set<string>, keys: set<string>, vals: set<string>)
    requires k in keys && add <= Values(m) + vals
    ensures Progress(m, AddTo(m, k, add).0, AddTo(m, k, add).1, keys, vals)
  {
    var (n, c) := AddTo(m, k, add);
    assert Grows(m, n);
    PairsGrows(m, n);
    forall v | v in Values(n) ensures v in Values(m) + vals {
      var j :| j in n && v in n[j];
      if j != k {
        ValuesGet(m, j, v);
      }
    }
    if c {
      var v :| v in add && v !in Get(m, k);
      PairsGet(m, k, v);
      PairsGet(n, k, v);
    } else {
      assert Grows(n, m);
      PairsGrows(n, m);
    }
  }

  /** An AddTo that reports no growth added nothing new. */
  lemma AddToUnchanged(m: SymbolMap, k: string, add: set<string>)
    requires !AddTo(m, k, add).1
    ensures add <= Get(m, k) && Pairs(AddTo(m, k, add).0) == Pairs(m)
  {
    var n := AddTo(m, k, add).0;
    assert Grows(m, n) && Grows(n, m);
    PairsGrows(m, n);
    PairsGrows(n, m);
  }

  lemma ProgressRefl(m: SymbolMap, keys: set<string>, vals: set<string>)
    ensures Progress(m, m, false, keys, vals)
  {
  }

  /** Two Progress steps make one, with the flags or-ed as a pass or-s them. */
  lemma ProgressTrans(m: SymbolMap, n: SymbolMap, o: SymbolMap, c: bool, d: bool, keys: set<string>, vals: set<string>)
    requires Progress(m, n, c, keys, vals) && Progress(n, o, d, keys, vals)
    ensures Progress(m, o, c || d, keys, vals)
  {
  }

  lemma {:induction false} PairsInBudget(m: SymbolMap, keys: set<string>, vals: set<string>)
    ensures Pairs(m) <= Budget(m, keys, vals)
  {
    forall p | p in Pairs(m) ensures p in Budget(m, keys, vals) {
      PairsGet(m, p.0, p.1);
      ValuesGet(m, p.0, p.1);
    }
  }

  /** A step that raises the flag shrinks the unused part of the budget,
      and one that does not leaves it unchanged: the loops terminate. */
  lemma {:induction false} ProgressMeasure(m: SymbolMap, n: SymbolMap, c: bool, keys: set<string>, vals: set<string>)
    requires Progress(m, n, c, keys, vals)
    ensures Budget(n, keys, vals) == Budget(m, keys, vals)
    ensures c ==> Budget(n, keys, vals) - Pairs(n) < Budget(m, keys, vals) - Pairs(m)
    ensures !c ==> Budget(n, keys, vals) - Pairs(n) == Budget(m, keys, vals) - Pairs(m)
  {
    PairsGrows(m, n);
    forall v | v in Values(m) ensures v in Values(n) {
      var j :| j in m && v in m[j];
      assert v in Get(n, j);
    }
    assert n.Keys + keys == m.Keys + keys;
    assert Values(n) + vals == Values(m) + vals;
    PairsInBudget(n, keys, vals);
    if c {
      var p :| p in Pairs(n) && p !in Pairs(m);
      assert p in Budget(m, keys, vals) - Pairs(m);
    }
  }
}

/**
 * Strict orders, the lexicographic order that std::string and std::vector use
 * for operator<, and strictly sorted sequences standing for std::set values.
 */
module Orders {

  ghost predicate Irreflexive<T(!new)>(lt: (T, T) -> bool) {
    forall a :: !lt(a, a)
  }

  ghost predicate Transitive<T(!new)>(lt: (T, T) -> bool) {
    forall a, b, c :: lt(a, b) && lt(b, c) ==> lt(a, c)
  }

  ghost predicate Connected<T(!new)>(lt: (T, T) -> bool) {
    forall a, b :: a != b ==> lt(a, b) || lt(b, a)
  }

  /** A strict total order: the requirement std::set places on its comparator. */
  ghost predicate StrictTotal<T(!new)>(lt: (T, T) -> bool) {
    Irreflexive(lt) && Transitive(lt) && Connected(lt)
  }

  /** Lexicographic comparison as std::lexicographical_compare does it:
      the first differing position decides, and a proper prefix is smaller. */
  function LexLess<T(==)>(lt: (T, T) -> bool, a: seq<T>, b: seq<T>): bool
  {
    if |b| == 0 then false
    else if |a| == 0 then true
    else if a[0] != b[0] then lt(a[0], b[0])
    else LexLess(lt, a[1..], b[1..])
  }

  /** Character order of std::string (code-point order). */
  function CharLess(a: char, b: char): bool { a < b }

  /** std::string operator< */
  function StringLess(a: string, b: string): bool { LexLess(CharLess, a, b) }

  /** std::vector<std::string> operator< */
  function StringsLess(a: seq<string>, b: seq<string>): bool { LexLess(StringLess, a, b) }

  lemma {:induction false} LexIrreflexive<T(!new)>(lt: (T, T) -> bool, a: seq<T>)
    ensures !LexLess(lt, a, a)
  {
    if |a| > 0 {
      LexIrreflexive(lt, a[1..]);
    }
  }

  lemma {:induction false} LexTransitive<T(!new)>(lt: (T, T) -> bool, a: seq<T>, b: seq<T>, c: seq<T>)
    requires StrictTotal(lt)
    requires LexLess(lt, a, b) && LexLess(lt, b, c)
    ensures LexLess(lt, a, c)
  {
    if |a| > 0 && a[0] == b[0] && b[0] == c[0] {
      LexTransitive(lt, a[1..], b[1..], c[1..]);
    }
  }

  lemma {:induction false} LexConnected<T(!new)>(lt: (T, T) -> bool, a: seq<T>, b: seq<T>)
    requires StrictTotal(lt)
    requires a != b
    ensures LexLess(lt, a, b) || LexLess(lt, b, a)
  {
    if |a| > 0 && |b| > 0 && a[0] == b[0] {
      assert a == [a[0]] + a[1..] && b == [b[0]] + b[1..];
      LexConnected(lt, a[1..], b[1..]);
    }
  }

  lemma StringLessStrictTotal()
    ensures StrictTotal(StringLess)
  {
    forall a ensures !StringLess(a, a) {
      LexIrreflexive(CharLess, a);
    }
    forall a, b, c | StringLess(a, b) && StringLess(b, c) ensures StringLess(a, c) {
      LexTransitive(CharLess, a, b, c);
    }
    forall a, b | a != b ensures StringLess(a, b) || StringLess(b, a) {
      LexConnected(CharLess, a, b);
    }
  }

  lemma StringsLessStrictTotal()
    ensures StrictTotal(StringsLess)
  {
    StringLessStrictTotal();
    forall a ensures !StringsLess(a, a) {
      LexIrreflexive(StringLess, a);
    }
    forall a, b, c | StringsLess(a, b) && StringsLess(b, c) ensures StringsLess(a, c) {
      LexTransitive(StringLess, a, b, c);
    }
    forall a, b | a != b ensures StringsLess(a, b) || StringsLess(b, a) {
      LexConnected(StringLess, a, b);
    }
  }

  /** A strictly increasing sequence: the element order of a std::set. */
  ghost predicate Sorted<T>(lt: (T, T) -> bool, s: seq<T>) {
    forall i, j :: 0 <= i < j < |s| ==> lt(s[i], s[j])
  }

  function Elems<T>(s: seq<T>): set<T> {
    set x | x in s
  }

  /** std::set::insert: adds x at its place, or leaves the set alone if x is present. */
  function Insert<T(==,!new)>(lt: (T, T) -> bool, s: seq<T>, x: T): (r: seq<T>)
    requires StrictTotal(lt) && Sorted(lt, s)
    ensures Sorted(lt, r)
    ensures Elems(r) == Elems(s) + {x}
    ensures x in s ==> r == s
    ensures x !in s ==> |r| == |s| + 1
  {
    if |s| == 0 then [x]
    else if x == s[0] then s
    else if lt(x, s[0]) then
      InsertFront(lt, s, x);
      [x] + s
    else
      var t := Insert(lt, s[1..], x);
      InsertBehind(lt, s, x, t);
      [s[0]] + t
  }

  /** x below the least element goes in front. */
  lemma InsertFront<T(!new)>(lt: (T, T) -> bool, s: seq<T>, x: T)
    requires StrictTotal(lt) && Sorted(lt, s) && |s| > 0 && lt(x, s[0])
    ensures Sorted(lt, [x] + s) && x !in s
  {
    assert forall k :: 0 < k < |s| ==> lt(s[0], s[k]);
    assert forall k :: 0 <= k < |s| ==> lt(x, s[k]);
  }

  /** x above the least element goes into the rest. */
  lemma InsertBehind<T(!new)>(lt: (T, T) -> bool, s: seq<T>, x: T, t: seq<T>)
    requires StrictTotal(lt) && Sorted(lt, s) && |s| > 0 && x != s[0] && !lt(x, s[0])
    requires Sorted(lt, t) && Elems(t) == Elems(s[1..]) + {x}
    requires x in s[1..] ==> t == s[1..]
    requires x !in s[1..] ==> |t| == |s[1..]| + 1
    ensures Sorted(lt, [s[0]] + t) && Elems([s[0]] + t) == Elems(s) + {x}
    ensures x in s ==> [s[0]] + t == s
    ensures x !in s ==> |[s[0]] + t| == |s| + 1
  {
    assert s == [s[0]] + s[1..];
    assert Elems(s) == {s[0]} + Elems(s[1..]);
    assert Elems([s[0]] + t) == {s[0]} + Elems(t);
    assert lt(s[0], x);
    forall k | 0 <= k < |t| ensures lt(s[0], t[k]) {
      assert t[k] in Elems(t);
      if t[k] != x {
        var i :| 0 <= i < |s[1..]| && s[1..][i] == t[k];
        assert s[i + 1] == t[k];
      }
    }
    var r := [s[0]] + t;
    forall i, j | 0 <= i < j < |r| ensures lt(r[i], r[j]) {
      if i > 0 {
        assert r[i] == t[i - 1] && r[j] == t[j - 1];
      }
    }
  }

  /** Two sorted sequences with the same elements are equal: a sorted
      sequence is a canonical key for the set it holds. */
  lemma {:induction false} SortedUnique<T(!new)>(lt: (T, T) -> bool, a: seq<T>, b: seq<T>)
    requires StrictTotal(lt) && Sorted(lt, a) && Sorted(lt, b)
    requires Elems(a) == Elems(b)
    ensures a == b
  {
    assert |a| > 0 ==> a[0] in Elems(a);
    assert |b| > 0 ==> b[0] in Elems(b);
    if |a| > 0 && |b| > 0 {
      assert a[0] == b[0] by {
        assert a[0] in Elems(b) && b[0] in Elems(a);
      }
      assert Elems(a[1..]) == Elems(a) - {a[0]} by {
        assert a == [a[0]] + a[1..];
        assert forall k :: 0 < k < |a| ==> a[k] != a[0];
      }
      assert Elems(b[1..]) == Elems(b) - {b[0]} by {
        assert b == [b[0]] + b[1..];
        assert forall k :: 0 < k < |b| ==> b[k] != b[0];
      }
      SortedUnique(lt, a[1..], b[1..]);
      assert a == [a[0]] + a[1..] && b == [b[0]] + b[1..];
    }
  }

  /** A sorted sequence holds no element twice. */
  lemma SortedDistinct<T(!new)>(lt: (T, T) -> bool, s: seq<T>, i: int, j: int)
    requires StrictTotal(lt) && Sorted(lt, s)
    requires 0 <= i < |s| && 0 <= j < |s| && i != j
    ensures s[i] != s[j]
  {
    if i < j { assert lt(s[i], s[j]); } else { assert lt(s[j], s[i]); }
  }
}

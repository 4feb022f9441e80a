/** The grammar rule record of production.h. */
module Productions {
  import opened Orders

  /** A rule left -> right; an empty right side is an epsilon rule.
      The datatype constructor is the C++ constructor: it stores both parts unchanged. */
  datatype Production = Production(left: string, right: seq<string>)

  /** operator==: both sides compared member by member. */
  function Equal(p: Production, q: Production): (r: bool)
    ensures r <==> p == q
  {
    p.left == q.left && p.right == q.right
  }

  /** operator<: the left sides decide; on equal left sides, the right sides
      are compared lexicographically. */
  function Less(p: Production, q: Production): bool {
    if p.left != q.left then StringLess(p.left, q.left) else StringsLess(p.right, q.right)
  }

  lemma LessIsStrictTotal()
    ensures StrictTotal(Less)
  {
    StringLessStrictTotal();
    StringsLessStrictTotal();
    forall p, q, r | Less(p, q) && Less(q, r) ensures Less(p, r) {
      if p.left == q.left && q.left == r.left {
        assert StringsLess(p.right, q.right) && StringsLess(q.right, r.right);
      } else if p.left == q.left {
        assert StringLess(q.left, r.left);
      } else if q.left == r.left {
        assert StringLess(p.left, q.left);
      } else {
        assert StringLess(p.left, q.left) && StringLess(q.left, r.left);
      }
    }
    forall p, q | p != q ensures Less(p, q) || Less(q, p) {
      if p.left == q.left {
        assert p.right != q.right;
      }
    }
  }

  /** For any two productions exactly one of p < q, q < p and p == q holds. */
  lemma LessTrichotomous(p: Production, q: Production)
    ensures Less(p, q) || Less(q, p) || Equal(p, q)
    ensures !(Less(p, q) && Less(q, p))
    ensures Equal(p, q) ==> !Less(p, q) && !Less(q, p)
  {
    LessIsStrictTotal();
  }
}

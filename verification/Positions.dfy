/** Positions of symbols and their order (Utility/symbol.h).

A position is a list of identifiers. `Symbol::compare` orders positions lexicographically,
a proper prefix coming first; the whole document is kept sorted by that order.
*/
module Positions {

  datatype Identifier = Identifier(digit: int, site: int)

  type Position = seq<Identifier>

  /** `Identifier::compare`: by digit, ties broken by the site. */
  function CompareIdentifiers(i1: Identifier, i2: Identifier): int {
    if i1.digit < i2.digit then -1
    else if i1.digit > i2.digit then 1
    else if i1.site < i2.site then -1
    else if i1.site > i2.site then 1
    else 0
  }

  /** The lexicographic comparison that `Symbol::compare` computes with its loop. */
  function Compare(p: Position, q: Position): int {
    if p == [] then (if q == [] then 0 else -1)
    else if q == [] then 1
    else
      var c := CompareIdentifiers(p[0], q[0]);
      if c != 0 then c else Compare(p[1..], q[1..])
  }

  predicate Less(p: Position, q: Position) {
    Compare(p, q) < 0
  }

  /** The loop of `Symbol::compare`: it meets the lexicographic comparison, and says what that is. */
  method CompareLoop(p1: Position, p2: Position) returns (r: int)
    ensures r == Compare(p1, p2)
    ensures r == 0 <==> p1 == p2
    ensures r < 0 <==> exists k :: LessAt(p1, p2, k)
    ensures r > 0 <==> exists k :: LessAt(p2, p1, k)
  {
    OrderMeaning(p1, p2);
    OrderMeaning(p2, p1);
    Antisymmetric(p1, p2);
    var i := 0;
    while i < if |p1| < |p2| then |p1| else |p2|
      invariant i <= |p1| && i <= |p2|
      invariant Compare(p1, p2) == Compare(p1[i..], p2[i..])
    {
      var comp := CompareIdentifiers(p1[i], p2[i]);
      if comp != 0 {
        return comp;
      }
      i := i + 1;
    }
    return if |p1| < |p2| then -1 else if |p1| > |p2| then 1 else 0;
  }

  /** `p` goes before `q` because they agree below `k`, where `p` ends or has the smaller identifier. */
  ghost predicate LessAt(p: Position, q: Position, k: int) {
    && 0 <= k <= |p| && k < |q| && p[..k] == q[..k]
    && (k == |p| || CompareIdentifiers(p[k], q[k]) < 0)
  }

  lemma {:induction false} LessAtIsLess(p: Position, q: Position, k: int)
    requires LessAt(p, q, k)
    ensures Less(p, q)
    decreases k
  {
    if k > 0 {
      assert p[0] == p[..k][0] && q[0] == q[..k][0];
      assert p[1..][..k - 1] == p[..k][1..] && q[1..][..k - 1] == q[..k][1..];
      LessAtIsLess(p[1..], q[1..], k - 1);
    }
  }

  lemma {:induction false} LessHasWitness(p: Position, q: Position) returns (k: int)
    requires Less(p, q)
    ensures LessAt(p, q, k)
  {
    if p == [] || CompareIdentifiers(p[0], q[0]) < 0 {
      k := 0;
    } else {
      var j := LessHasWitness(p[1..], q[1..]);
      k := j + 1;
      assert p[..k] == [p[0]] + p[1..][..j] && q[..k] == [q[0]] + q[1..][..j];
    }
  }

  lemma {:induction false} OrderMeaning(p: Position, q: Position)
    ensures Less(p, q) <==> exists k :: LessAt(p, q, k)
  {
    if Less(p, q) {
      var k := LessHasWitness(p, q);
    }
    if k :| LessAt(p, q, k) {
      LessAtIsLess(p, q, k);
    }
  }

  /** The comparison is antisymmetric, and zero exactly on equal positions. */
  lemma {:induction false} Antisymmetric(p: Position, q: Position)
    ensures Compare(p, q) == -Compare(q, p)
    ensures Compare(p, q) == 0 <==> p == q
  {
    if p != [] && q != [] {
      assert p == [p[0]] + p[1..] && q == [q[0]] + q[1..];
      Antisymmetric(p[1..], q[1..]);
    }
  }

  lemma {:induction false} Transitive(p: Position, q: Position, r: Position)
    requires Less(p, q) && Less(q, r)
    ensures Less(p, r)
  {
    if p != [] && CompareIdentifiers(p[0], q[0]) == 0 && CompareIdentifiers(q[0], r[0]) == 0 {
      Transitive(p[1..], q[1..], r[1..]);
    }
  }

  /** Any two positions are ordered one way, the other way, or equal: never two of these. */
  lemma {:induction false} Trichotomy(p: Position, q: Position)
    ensures (Less(p, q) && !Less(q, p) && p != q)
         || (Less(q, p) && !Less(p, q) && p != q)
         || (p == q && !Less(p, q) && !Less(q, p))
  {
    Antisymmetric(p, q);
  }
}

/** Symbols and flat documents: the sorted list that every replica agrees on. */
module Documents {
  import opened Positions
  import opened Generation

  const TERMINATOR: CharCode := 0
  const NEWLINE: CharCode := 10

  /** A UTF-16 code unit (`ushort`). */
  type CharCode = x: int | 0 <= x < 0x1_0000

  datatype Alignment = AlignLeft | AlignRight | AlignCenter

  /** Font and colour, which `setFormat` replaces together. */
  datatype Style = Style(italic: bool, bold: bool, underline: bool,
                         font: seq<CharCode>, size: int, color: seq<CharCode>)

  datatype Format = Format(align: Alignment, style: Style)

  datatype Symbol = Symbol(value: CharCode, position: Position, counter: int, format: Format)

  type Document = seq<Symbol>

  /** Strictly sorted, so no position occurs twice. */
  predicate Sorted(d: Document) {
    forall i, j :: 0 <= i < j < |d| ==> Less(d[i].position, d[j].position)
  }

  predicate AllWellFormed(d: Document) {
    forall i :: 0 <= i < |d| ==> WellFormed(d[i].position)
  }

  predicate Has(d: Document, p: Position) {
    exists i :: 0 <= i < |d| && d[i].position == p
  }

  /** No position comes twice. */
  predicate Distinct(ss: seq<Symbol>) {
    forall i, j :: 0 <= i < j < |ss| ==> ss[i].position != ss[j].position
  }

  /** How many symbols lie before a position. */
  function CountLess(d: Document, p: Position): (n: nat)
    ensures n <= |d|
  {
    if d == [] then 0 else (if Less(d[0].position, p) then 1 else 0) + CountLess(d[1..], p)
  }

  function InsertAt(d: Document, k: nat, s: Symbol): Document
    requires k <= |d|
  {
    d[..k] + [s] + d[k..]
  }

  function RemoveAt(d: Document, k: nat): Document
    requires k < |d|
  {
    d[..k] + d[k + 1..]
  }

  /** Insertion where the order puts it: the meaning of every remote insert. */
  function SortedInsert(d: Document, s: Symbol): Document {
    InsertAt(d, CountLess(d, s.position), s)
  }

  function InsertAll(d: Document, ss: seq<Symbol>): Document {
    if ss == [] then d else SortedInsert(InsertAll(d, ss[..|ss| - 1]), ss[|ss| - 1])
  }

  /** The document without the symbol at a position: the meaning of every remote erase. */
  function Without(d: Document, p: Position): Document {
    if d == [] then []
    else if d[0].position == p then Without(d[1..], p)
    else [d[0]] + Without(d[1..], p)
  }

  function WithoutAll(d: Document, ss: seq<Symbol>): Document {
    if ss == [] then d else Without(WithoutAll(d, ss[..|ss| - 1]), ss[|ss| - 1].position)
  }

  /** `k` symbols are smaller than `p` as soon as `p` fits between the neighbours at `k`. */
  predicate Fits(d: Document, k: int, p: Position) {
    && 0 <= k <= |d|
    && (k > 0 ==> Less(d[k - 1].position, p))
    && (k < |d| ==> !Less(d[k].position, p))
  }

  lemma {:induction false} FitsIsCountLess(d: Document, k: int, p: Position)
    requires Sorted(d) && Fits(d, k, p)
    ensures CountLess(d, p) == k
  {
    if d != [] {
      if k > 0 {
        if k > 1 {
          Transitive(d[0].position, d[k - 1].position, p);
        }
        FitsIsCountLess(d[1..], k - 1, p);
      } else {
        if |d| > 1 && Less(d[1].position, p) {
          Transitive(d[0].position, d[1].position, p);
        }
        FitsIsCountLess(d[1..], 0, p);
      }
    }
  }

  lemma {:induction false} CountLessFits(d: Document, p: Position)
    requires Sorted(d)
    ensures Fits(d, CountLess(d, p), p)
  {
    if d != [] {
      CountLessFits(d[1..], p);
      var k := CountLess(d[1..], p);
      if !Less(d[0].position, p) && k > 0 {
        Transitive(d[0].position, d[k].position, p);
      }
    }
  }

  /** On either side of where `p` fits, everything is smaller or larger. */
  lemma {:induction false} FitsSeparates(d: Document, k: int, p: Position)
    requires Sorted(d) && Fits(d, k, p)
    ensures forall i :: 0 <= i < k ==> Less(d[i].position, p)
    ensures forall i :: k < i < |d| ==> Less(p, d[i].position)
    ensures k < |d| ==> d[k].position == p || Less(p, d[k].position)
    ensures Has(d, p) <==> k < |d| && d[k].position == p
  {
    forall i | 0 <= i < k ensures Less(d[i].position, p) {
      if i < k - 1 {
        Transitive(d[i].position, d[k - 1].position, p);
      }
    }
    if k < |d| {
      Antisymmetric(d[k].position, p);
    }
    forall i | k < i < |d| ensures Less(p, d[i].position) {
      if d[k].position != p {
        Transitive(p, d[k].position, d[i].position);
      }
    }
    if i :| 0 <= i < |d| && d[i].position == p {
      Antisymmetric(p, p);
    }
  }

  lemma {:induction false} InsertAtContents(d: Document, k: nat, s: Symbol)
    requires k <= |d|
    ensures multiset(InsertAt(d, k, s)) == multiset(d) + multiset{s}
  {
    assert d == d[..k] + d[k..];
  }

  lemma {:induction false} InsertedHas(d: Document, k: nat, s: Symbol, p: Position)
    requires k <= |d|
    ensures Has(InsertAt(d, k, s), p) <==> Has(d, p) || p == s.position
  {
    var r := InsertAt(d, k, s);
    if i :| 0 <= i < |d| && d[i].position == p {
      assert r[if i < k then i else i + 1] == d[i];
    }
    if i :| 0 <= i < |r| && r[i].position == p {
      assert r[i] == if i < k then d[i] else if i == k then s else d[i - 1];
    }
    assert r[k] == s;
  }

  lemma {:induction false} SortedInsertKeepsSorted(d: Document, s: Symbol)
    requires Sorted(d) && !Has(d, s.position)
    ensures Sorted(SortedInsert(d, s))
  {
    var k := CountLess(d, s.position);
    CountLessFits(d, s.position);
    FitsSeparates(d, k, s.position);
    var r := SortedInsert(d, s);
    forall i, j | 0 <= i < j < |r| ensures Less(r[i].position, r[j].position) {
      assert r[i] == if i < k then d[i] else if i == k then s else d[i - 1];
      assert r[j] == if j < k then d[j] else if j == k then s else d[j - 1];
    }
  }

  /** A position generated between the neighbours at `k` is inserted exactly there, wherever it is replayed. */
  lemma {:induction false} BetweenFits(d: Document, k: nat, p: Position)
    requires Sorted(d) && k <= |d|
    requires k > 0 ==> Less(d[k - 1].position, p)
    requires k < |d| ==> Less(p, d[k].position)
    ensures !Has(d, p) && CountLess(d, p) == k
  {
    if k < |d| {
      Antisymmetric(d[k].position, p);
    }
    FitsIsCountLess(d, k, p);
    FitsSeparates(d, k, p);
  }

  lemma {:induction false} RemoveAtKeepsSorted(d: Document, k: nat)
    requires Sorted(d) && k < |d|
    ensures Sorted(RemoveAt(d, k))
    ensures multiset(RemoveAt(d, k)) == multiset(d) - multiset{d[k]}
    ensures !Has(RemoveAt(d, k), d[k].position)
  {
    assert d == d[..k] + [d[k]] + d[k + 1..];
    var r := RemoveAt(d, k);
    Antisymmetric(d[k].position, d[k].position);
    forall i | 0 <= i < |r| ensures r[i].position != d[k].position {
      Antisymmetric(r[i].position, d[k].position);
    }
  }

  /** Taking a symbol out and inserting it where the order puts it changes nothing. */
  lemma {:induction false} RemoveThenInsert(d: Document, k: nat)
    requires Sorted(d) && k < |d|
    ensures Sorted(RemoveAt(d, k)) && !Has(RemoveAt(d, k), d[k].position)
    ensures SortedInsert(RemoveAt(d, k), d[k]) == d
  {
    RemoveAtKeepsSorted(d, k);
    Antisymmetric(d[k].position, d[k].position);
    if k + 1 < |d| {
      Antisymmetric(d[k].position, d[k + 1].position);
    }
    FitsIsCountLess(RemoveAt(d, k), k, d[k].position);
    PutBack(d, k);
  }

  lemma {:induction false} PutBack(d: Document, k: nat)
    requires k < |d|
    ensures InsertAt(RemoveAt(d, k), k, d[k]) == d
  {
  }

  lemma {:induction false} WithoutAbsent(d: Document, p: Position)
    requires !Has(d, p)
    ensures Without(d, p) == d
  {
    if d != [] {
      assert d[0].position != p;
      assert forall i :: 0 <= i < |d[1..]| ==> d[1..][i] == d[i + 1];
      WithoutAbsent(d[1..], p);
    }
  }

  lemma {:induction false} InWithout(d: Document, p: Position, x: Symbol)
    ensures x in Without(d, p) <==> x in d && x.position != p
  {
    if d != [] {
      InWithout(d[1..], p, x);
      assert x in d <==> x == d[0] || x in d[1..];
    }
  }

  lemma {:induction false} WithoutPresent(d: Document, k: nat)
    requires Sorted(d) && k < |d|
    ensures Without(d, d[k].position) == RemoveAt(d, k)
  {
    if k == 0 {
      RemoveAtKeepsSorted(d, 0);
      assert RemoveAt(d, 0) == d[1..];
      WithoutAbsent(d[1..], d[0].position);
    } else {
      Antisymmetric(d[0].position, d[k].position);
      WithoutPresent(d[1..], k - 1);
      assert RemoveAt(d, k) == [d[0]] + RemoveAt(d[1..], k - 1);
    }
  }

  lemma {:induction false} SortedDistinct(d: Document)
    requires Sorted(d)
    ensures Distinct(d)
  {
    forall i, j | 0 <= i < j < |d| ensures d[i].position != d[j].position {
      Antisymmetric(d[i].position, d[j].position);
    }
  }

  /** A sorted document is determined by its set of symbols. */
  lemma {:induction false} SortedUnique(a: Document, b: Document)
    requires Sorted(a) && Sorted(b)
    requires forall s :: s in a <==> s in b
    ensures a == b
  {
    if a != [] {
      assert a[0] in b;
    }
    if b != [] {
      assert b[0] in a;
    }
    if a != [] && b != [] {
      Antisymmetric(a[0].position, b[0].position);
      assert a[0] == b[0];
      assert a == [a[0]] + a[1..] && b == [b[0]] + b[1..];
      TailLacksHead(a);
      TailLacksHead(b);
      forall s ensures s in a[1..] <==> s in b[1..] {
        assert s in a <==> s == a[0] || s in a[1..];
        assert s in b <==> s == b[0] || s in b[1..];
      }
      SortedUnique(a[1..], b[1..]);
    }
  }

  lemma {:induction false} TailLacksHead(a: Document)
    requires Sorted(a) && a != []
    ensures a[0] !in a[1..]
  {
    RemoveAtKeepsSorted(a, 0);
    assert RemoveAt(a, 0) == a[1..];
  }
}

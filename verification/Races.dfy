/** Two clients edit ranges at the same time, and one of the edits at least is a change of formats: exactly
when their documents, and the server's, agree once everybody has handled everything. For two erasures
see `LateErasures` and `DoubleErasure`.
*/
module Races {
  import opened Positions
  import opened Documents
  import opened Lines
  import opened ClientDocument
  import opened ReplayAgreement
  import opened PositionKey
  import opened EndToEnd
  import opened Delivery
  import opened LateErasures
  import opened LateChanges
  import opened DoubleErasure

  /** Symbols `k` to `k + n` are erased at one site, while symbols `k2` to `e2` change at another, which makes
  `d'` of `d`. The ranges have nothing in common, or the erased one starts the document and the change would
  do nothing behind it, or it starts a line that goes on behind it with a symbol that changes too. */
  predicate ChangeSafe(d: Document, d': Document, k: nat, n: nat, k2: nat, e2: nat)
    requires k + n < |d| == |d'| && k2 <= e2 <= |d|
  {
    || Apart(k, n, k2, e2 - k2)
    || (k == 0 && (e2 <= n || d'[n..e2] == d[n..e2]))
    || (k > 0 && k + n < e2 && k + n < |d| - 1 && d[k - 1].value == NEWLINE && d[k + n].value != NEWLINE)
  }

  // ----- What the erasing client makes of the change -----

  lemma {:induction false} StartsAreLineStarts(lines: seq<Line>, k: nat)
    requires Canonical(lines) && k < |Flatten(lines)|
    ensures StartsOf(lines)[k] == LineStart(Flatten(lines), k)
  {
    var line, index := PlaceOf(lines, k);
    LineOfOffset(lines, line, index);
    LineStartAt(lines, line, index);
  }

  /** The place behind the cut repairs itself when the cut starts a line that goes on with a changed symbol. */
  lemma {:induction false} RepairedCut(d: Document, k: nat, n: nat, ss: seq<Symbol>)
    requires 0 < k && k + n < |d|
    ensures var cut := Cut(d, k, n);
            && Flatten(Split(cut)) == cut
            && (Repaired(cut, StartsOf(Split(cut)), ss, k)
                <==> k + n < |d| - 1 && d[k - 1].value == NEWLINE && d[k + n].value != NEWLINE && Has(ss, d[k + n].position))
  {
    var cut := Cut(d, k, n);
    SplitIsCanonical(cut);
    assert cut[k - 1] == d[k - 1] && cut[k] == d[k + n];
    StartsAreLineStarts(Split(cut), k);
    if k + 1 < |cut| {
      StartsAreLineStarts(Split(cut), k + 1);
    }
  }

  /** What the erasing client looks up, symbol by symbol. */
  lemma {:induction false} Sent(d: Document, d': Document, k: nat, n: nat, k2: nat, e2: nat, style: Style, i: nat)
    requires Sorted(d) && k + n < |d| && Restyled(d, k2, e2, style, d') && i < e2 - k2
    ensures var cut, s := Cut(d, k, n), d'[k2..e2][i];
            && s == d'[k2 + i] && s.position == d[k2 + i].position
            && (Has(cut, s.position) <==> !(k <= k2 + i < k + n))
            && (k <= k2 + i < k + n ==> CountLess(cut, s.position) == k)
  {
    LeftByCut(d, k, n, k2 + i);
  }

  /** Whether it is there already. */
  lemma {:induction false} SentStays(d: Document, d': Document, k: nat, n: nat, k2: nat, e2: nat, style: Style, i: nat)
    requires Sorted(d) && k + n < |d| && Restyled(d, k2, e2, style, d') && i < e2 - k2
    ensures d'[k2 + i] in Cut(d, k, n) <==> !(k <= k2 + i < k + n) && d'[k2 + i] == d[k2 + i]
  {
    var s := d'[k2 + i];
    InCut(d, k, n, s);
    ErasedHas(d, k, n, k2 + i);
    if s in d {
      var j :| 0 <= j < |d| && d[j] == s;
      Antisymmetric(d[k2 + i].position, d[j].position);
    }
  }

  lemma {:induction false} AbsentInRange(d: Document, k: nat, n: nat, i: nat)
    requires Sorted(d) && 0 < k <= i < k + n < |d|
    ensures InRange(Cut(d, k, n), d[i].position)
  {
    var cut := Cut(d, k, n);
    assert cut[0] == d[0] && cut[|cut| - 1] == d[|d| - 1];
    Antisymmetric(d[0].position, d[i].position);
    Antisymmetric(d[i].position, d[|d| - 1].position);
  }

  lemma {:induction false} ChangeSafeInFront(d: Document, d': Document, n: nat, k2: nat, e2: nat, style: Style)
    requires Sorted(d) && n < |d| && Restyled(d, k2, e2, style, d') && k2 < e2 && k2 < n
    ensures var cut, ss := Cut(d, 0, n), d'[k2..e2];
            (forall i :: 0 <= i < |ss| && Has(cut, ss[i].position) ==> ss[i] in cut) <==> e2 <= n || d'[n..e2] == d[n..e2]
  {
    var cut, ss := Cut(d, 0, n), d'[k2..e2];
    forall i | 0 <= i < |ss|
      ensures Has(cut, ss[i].position) <==> n <= k2 + i
      ensures n <= k2 + i ==> (ss[i] in cut <==> d'[k2 + i] == d[k2 + i])
    {
      Sent(d, d', 0, n, k2, e2, style, i);
      SentStays(d, d', 0, n, k2, e2, style, i);
    }
    if n < e2 {
      if forall i :: 0 <= i < |ss| && Has(cut, ss[i].position) ==> ss[i] in cut {
        forall j | n <= j < e2 ensures d'[j] == d[j] {
          assert Has(cut, ss[j - k2].position);
        }
      }
      if d'[n..e2] == d[n..e2] {
        forall i | 0 <= i < |ss| && Has(cut, ss[i].position) ensures ss[i] in cut {
          assert d'[n..e2][k2 + i - n] == d[n..e2][k2 + i - n];
        }
      }
    }
  }

  lemma {:induction false} ChangeSafeBehind(d: Document, d': Document, k: nat, n: nat, k2: nat, e2: nat, style: Style)
    requires Sorted(d) && k + n < |d| && Restyled(d, k2, e2, style, d') && k2 < e2 && (k == 0 ==> Apart(k, n, k2, e2 - k2))
    ensures Flatten(Split(Cut(d, k, n))) == Cut(d, k, n)
    ensures AbsentRepaired(Cut(d, k, n), StartsOf(Split(Cut(d, k, n))), d'[k2..e2]) <==> ChangeSafe(d, d', k, n, k2, e2)
  {
    SplitIsCanonical(Cut(d, k, n));
    if Apart(k, n, k2, e2 - k2) {
      ApartRepaired(d, d', k, n, k2, e2, style, StartsOf(Split(Cut(d, k, n))));
    } else {
      OverlapRepaired(d, d', k, n, k2, e2, style, StartsOf(Split(Cut(d, k, n))));
      RepairedCut(d, k, n, d'[k2..e2]);
      ChangedHas(d, d', k2, e2, style, k + n);
    }
  }

  /** A change of symbols that are all there needs no repair. */
  lemma {:induction false} ApartRepaired(d: Document, d': Document, k: nat, n: nat, k2: nat, e2: nat, style: Style, b: seq<nat>)
    requires Sorted(d) && k + n < |d| && Restyled(d, k2, e2, style, d') && Apart(k, n, k2, e2 - k2)
    requires |b| == |Cut(d, k, n)|
    ensures AbsentRepaired(Cut(d, k, n), b, d'[k2..e2])
  {
    forall i | 0 <= i < |d'[k2..e2]| ensures Has(Cut(d, k, n), d'[k2..e2][i].position) {
      Sent(d, d', k, n, k2, e2, style, i);
    }
  }

  /** Where the ranges overlap, every absent symbol belongs behind the cut. */
  lemma {:induction false} OverlapRepaired(d: Document, d': Document, k: nat, n: nat, k2: nat, e2: nat, style: Style, b: seq<nat>)
    requires Sorted(d) && 0 < k && k + n < |d| && Restyled(d, k2, e2, style, d') && !Apart(k, n, k2, e2 - k2)
    requires |b| == |Cut(d, k, n)|
    ensures AbsentRepaired(Cut(d, k, n), b, d'[k2..e2]) <==> Repaired(Cut(d, k, n), b, d'[k2..e2], k)
  {
    var cut, ss := Cut(d, k, n), d'[k2..e2];
    forall i | 0 <= i < |ss|
      ensures Lacks(cut, ss[i].position) ==> CountLess(cut, ss[i].position) == k
      ensures k <= k2 + i < k + n ==> Lacks(cut, ss[i].position) && CountLess(cut, ss[i].position) == k
    {
      Sent(d, d', k, n, k2, e2, style, i);
      if k <= k2 + i < k + n {
        AbsentInRange(d, k, n, k2 + i);
      }
    }
    var i := if k2 < k then k - k2 else 0;
    assert k <= k2 + i < k + n && Lacks(cut, ss[i].position);
  }

  lemma {:induction false} ChangedHas(d: Document, d': Document, k2: nat, e2: nat, style: Style, i: nat)
    requires Sorted(d) && Restyled(d, k2, e2, style, d') && i < |d|
    ensures Has(d'[k2..e2], d[i].position) <==> k2 <= i < e2
  {
    var ss := d'[k2..e2];
    if j :| 0 <= j < |ss| && ss[j].position == d[i].position {
      Antisymmetric(d[k2 + j].position, d[i].position);
    }
    if k2 <= i < e2 {
      assert ss[i - k2].position == d[i].position;
    }
  }

  lemma {:induction false} ChangeSafeExactly(d: Document, d': Document, k: nat, n: nat, k2: nat, e2: nat, style: Style)
    requires Sorted(d) && k + n < |d| && Restyled(d, k2, e2, style, d')
    ensures Sorted(d'[k2..e2])
    ensures Changes(Split(Cut(d, k, n)), d'[k2..e2]) <==> ChangeSafe(d, d', k, n, k2, e2)
  {
    var cut, ss := Cut(d, k, n), d'[k2..e2];
    SplitIsCanonical(cut);
    RestyledSorted(d, k2, e2, style, d');
    if k2 < e2 {
      assert ss[0].position == d[k2].position && cut[0] == if k == 0 then d[n] else d[0];
      Antisymmetric(d[k2].position, cut[0].position);
      if k == 0 && k2 < n {
        ChangeSafeInFront(d, d', n, k2, e2, style);
      } else {
        ChangeSafeBehind(d, d', k, n, k2, e2, style);
      }
    }
  }

  /** What the change means on the document without the erased range. */
  lemma {:induction false} ChangeMeans(d: Document, d': Document, k: nat, n: nat, k2: nat, e2: nat, style: Style)
    requires Sorted(d) && k + n < |d| && Restyled(d, k2, e2, style, d')
    ensures ReplaceAll(Cut(d, k, n), d'[k2..e2]) == Cut(d', k, n)
  {
    var cut, ss, r := Cut(d, k, n), d'[k2..e2], ReplaceAll(Cut(d, k, n), d'[k2..e2]);
    CutSorted(d, k, n);
    RestyledSorted(d, k2, e2, style, d');
    SortedDistinct(ss);
    ReplacedCells(cut, ss);
    forall j | 0 <= j < |cut| ensures r[j] == Cut(d', k, n)[j] {
      var i := if j < k then j else j + n;
      assert cut[j] == d[i] && Cut(d', k, n)[j] == d'[i];
      ChangedHas(d, d', k2, e2, style, i);
      if k2 <= i < e2 {
        assert ss[i - k2] == d'[i];
      }
    }
  }

  /** The smallest instance: one client restyles the symbol that the other one erases. Unless it was the
  document's first one, it comes back in the place of the first symbol of the line behind it. */
  lemma {:induction false} OneChangedLate(d: Document, k: nat, x: Symbol, lines: seq<Line>, all: bool)
    requires Sorted(d) && k < |d| - 1 && x.position == d[k].position
    requires ChangedUntil(Split(Cut(d, k, 1)), [x], lines, all)
    ensures var cut := Cut(d, k, 1);
            && k < |cut|
            && Flatten(lines) == if k == 0 then cut else cut[LineStart(cut, k) := x]
  {
    var cut, start := Cut(d, k, 1), Split(Cut(d, k, 1));
    SplitIsCanonical(cut);
    ChangesRun(start, [x], lines, all);
    LeftByCut(d, k, 1, k);
    CutSorted(d, k, 1);
    assert cut[k] == d[k + 1];
    assert [x][1..] == [];
    StartsAreLineStarts(start, k);
    if k == 0 {
      Antisymmetric(d[0].position, d[1].position);
    } else {
      AbsentInRange(d, k, 1, k);
      assert !Has(cut, x.position);
    }
  }

  // ----- What the changing client makes of the erasure -----

  lemma {:induction false} ErasedFromChanged(d: Document, d': Document, k: nat, n: nat, k2: nat, e2: nat, style: Style)
    requires Sorted(d) && Terminated(d) && k + n < |d| && Restyled(d, k2, e2, style, d')
    ensures Sorted(d') && Erasable(d', d[k..k + n]) && WithoutAll(d', d[k..k + n]) == Cut(d', k, n)
  {
    RestyledSorted(d, k2, e2, style, d');
    EraseReplays(d', k, n);
    WithoutSame(d', d[k..k + n], d'[k..k + n]);
    ErasableFromChanged(d, d', k, n, k2, e2, style);
  }

  lemma {:induction false} ErasableFromChanged(d: Document, d': Document, k: nat, n: nat, k2: nat, e2: nat, style: Style)
    requires Sorted(d) && Terminated(d) && k + n < |d| && Restyled(d, k2, e2, style, d')
    ensures Erasable(d', d[k..k + n])
  {
    var erased := d[k..k + n];
    SliceErasable(d, k, n);
    forall i | 0 <= i < |erased| ensures Removable(d', erased[i]) {
      assert StoredAt(d', k + i, erased[i]);
    }
  }

  lemma {:induction false} WithoutSame(d: Document, ss: seq<Symbol>, tt: seq<Symbol>)
    requires SamePositions(ss, tt)
    ensures WithoutAll(d, ss) == WithoutAll(d, tt)
    decreases |ss|
  {
    if ss != [] {
      WithoutSame(d, ss[..|ss| - 1], tt[..|tt| - 1]);
    }
  }

  // ----- The two clients -----

  /** Of two identical replicas one erases a range while the other one changes a range; then each handles the
  other's message. The changing client ends as it should; the erasing one agrees with it exactly when the
  change is safe. */
  method EraseAndChange(a: CRDT, b: CRDT, line: nat, index: nat, n: nat,
                        startLine: nat, endLine: nat, startIndex: nat, endIndex: nat, style: Style)
    returns (ghost d': Document)
    requires a != b && a.Valid() && b.Valid() && a.symbols == b.symbols && Terminated(a.Flat())
    requires Place(a.symbols, line, index) && Offset(a.symbols, line, index) + n < |a.Flat()|
    requires Range(b.symbols, startLine, endLine, startIndex, endIndex)
    modifies a`symbols, a`size, b`symbols, b`size
    ensures var d, k := old(a.Flat()), Offset(old(a.symbols), line, index);
            var k2, e2 := Offset(old(b.symbols), startLine, startIndex), Offset(old(b.symbols), endLine, endIndex + 1);
            && Restyled(d, k2, e2, style, d')
            && b.Valid() && b.Flat() == Cut(d', k, n)
            && (exists all :: ChangedUntil(Split(Cut(d, k, n)), d'[k2..e2], a.symbols, all))
            && (a.Flat() == b.Flat() <==> ChangeSafe(d, d', k, n, k2, e2))
  {
    ghost var d, k, lines := a.Flat(), Offset(a.symbols, line, index), b.symbols;
    ghost var k2, e2 := Offset(lines, startLine, startIndex), Offset(lines, endLine, endIndex + 1);
    var erased := a.LocalErase(line, index, n);
    var changed;
    d', changed := ChangeForward(b, startLine, endLine, startIndex, endIndex, style);
    HandleBoth(a, b, erased, changed, d, d', k, n, k2, e2, style);
  }

  method HandleBoth(a: CRDT, b: CRDT, erased: seq<Symbol>, changed: seq<Symbol>, ghost d: Document, ghost d': Document,
                    ghost k: nat, ghost n: nat, ghost k2: nat, ghost e2: nat, ghost style: Style)
    requires a != b && Sorted(d) && Terminated(d) && k + n < |d| && Restyled(d, k2, e2, style, d')
    requires erased == d[k..k + n] && changed == d'[k2..e2]
    requires a.Valid() && a.Flat() == Cut(d, k, n) && b.Valid() && b.Flat() == d'
    modifies a`symbols, a`size, b`symbols, b`size
    ensures b.Valid() && b.Flat() == Cut(d', k, n)
    ensures exists all :: ChangedUntil(Split(Cut(d, k, n)), changed, a.symbols, all)
    ensures a.Flat() == b.Flat() <==> ChangeSafe(d, d', k, n, k2, e2)
  {
    ChangeErased(a, changed, d, d', k, n, k2, e2, style);
    EraseChanged(b, erased, d, d', k, n, k2, e2, style);
  }

  method EraseChanged(b: CRDT, erased: seq<Symbol>, ghost d: Document, ghost d': Document,
                      ghost k: nat, ghost n: nat, ghost k2: nat, ghost e2: nat, ghost style: Style)
    requires Sorted(d) && Terminated(d) && k + n < |d| && Restyled(d, k2, e2, style, d') && erased == d[k..k + n]
    requires b.Valid() && b.Flat() == d'
    modifies b`symbols, b`size
    ensures b.Valid() && b.Flat() == Cut(d', k, n)
  {
    ErasedFromChanged(d, d', k, n, k2, e2, style);
    var line, index := HandleErasable(b, erased);
  }

  method ChangeForward(b: CRDT, startLine: nat, endLine: nat, startIndex: nat, endIndex: nat, style: Style)
    returns (ghost d': Document, changed: seq<Symbol>)
    requires b.Valid() && Range(b.symbols, startLine, endLine, startIndex, endIndex)
    modifies b`symbols
    ensures var k2, e2 := Offset(old(b.symbols), startLine, startIndex), Offset(old(b.symbols), endLine, endIndex + 1);
            && b.Valid() && b.Flat() == d'
            && Restyled(old(b.Flat()), k2, e2, style, d') && changed == d'[k2..e2]
  {
    ghost var lines := b.symbols;
    var r := b.LocalChangeGroup(startLine, endLine, startIndex, endIndex, style);
    changed, d' := r.value, b.Flat();
    ForwardRestyles(lines, startLine, endLine, startIndex, endIndex, style, d', changed);
  }

  lemma {:induction false} ForwardRestyles(lines: seq<Line>, startLine: nat, endLine: nat, startIndex: nat, endIndex: nat,
                                           style: Style, d': Document, changed: seq<Symbol>)
    requires Range(lines, startLine, endLine, startIndex, endIndex)
    requires ChangedBetween(lines, startLine, endLine, startIndex, endIndex, style, d', changed)
    ensures var k2, e2 := Offset(lines, startLine, startIndex), Offset(lines, endLine, endIndex + 1);
            Restyled(Flatten(lines), k2, e2, style, d') && changed == d'[k2..e2]
  {
    OffsetMonotone(lines, startLine, endLine);
    FlattenAt(lines, endLine);
  }

  method ChangeErased(a: CRDT, changed: seq<Symbol>, ghost d: Document, ghost d': Document,
                      ghost k: nat, ghost n: nat, ghost k2: nat, ghost e2: nat, ghost style: Style)
    requires Sorted(d) && Terminated(d) && k + n < |d| && Restyled(d, k2, e2, style, d') && changed == d'[k2..e2]
    requires a.Valid() && a.Flat() == Cut(d, k, n)
    modifies a`symbols
    ensures exists all :: ChangedUntil(Split(Cut(d, k, n)), changed, a.symbols, all)
    ensures a.Flat() == Cut(d', k, n) <==> ChangeSafe(d, d', k, n, k2, e2)
  {
    ghost var lines := a.symbols;
    CutFilled(lines, d, k, n);
    var emitted := a.HandleRemoteChange(changed);
    ChangeSafeExactly(d, d', k, n, k2, e2, style);
    ChangedExactly(lines, changed, a.symbols, emitted);
    ChangeMeans(d, d', k, n, k2, e2, style);
  }

  // ----- Two changes -----

  lemma {:induction false} ChangedOver(d: Document, a: nat, b: nat, d': Document, style: Style, m: Document)
    requires Sorted(d) && Restyled(d, a, b, style, d') && Sorted(m) && SamePositions(m, d)
    ensures |ReplaceAll(m, d'[a..b])| == |d|
    ensures forall i :: 0 <= i < |d| ==> ReplaceAll(m, d'[a..b])[i] == if a <= i < b then d'[i] else m[i]
  {
    var ss := d'[a..b];
    RestyledSorted(d, a, b, style, d');
    SortedDistinct(ss);
    ReplacedCells(m, ss);
    forall i | 0 <= i < |d| ensures ReplaceAll(m, ss)[i] == if a <= i < b then d'[i] else m[i] {
      ChangedHas(d, d', a, b, style, i);
      if a <= i < b {
        assert ss[i - a].position == m[i].position;
      }
    }
  }

  /** Two changes at the same time: each client ends with the other one's style where both changed. */
  lemma {:induction false} ChangesCross(d: Document, a: nat, b: nat, style: Style, d1: Document,
                                        a2: nat, b2: nat, style2: Style, d2: Document)
    requires Sorted(d) && Restyled(d, a, b, style, d1) && Restyled(d, a2, b2, style2, d2)
    ensures ReplaceAll(d1, d2[a2..b2]) == ReplaceAll(d2, d1[a..b]) <==> Apart(a, b - a, a2, b2 - a2) || style == style2
  {
    RestyledSorted(d, a, b, style, d1);
    RestyledSorted(d, a2, b2, style2, d2);
    assert SamePositions(d1, d) && SamePositions(d2, d);
    ChangedOver(d, a2, b2, d2, style2, d1);
    ChangedOver(d, a, b, d1, style, d2);
    var r, r2 := ReplaceAll(d1, d2[a2..b2]), ReplaceAll(d2, d1[a..b]);
    if !Apart(a, b - a, a2, b2 - a2) {
      var i := if a < a2 then a2 else a;
      assert r[i] == SetStyle(d[i], style2) && r2[i] == SetStyle(d[i], style);
    }
  }

  /** Two identical replicas each change a range and then handle each other's message. They stay identical
  exactly when the ranges have nothing in common or the styles are the same. */
  method ChangeTwice(a: CRDT, b: CRDT, startLine: nat, endLine: nat, startIndex: nat, endIndex: nat, style: Style,
                     startLine2: nat, endLine2: nat, startIndex2: nat, endIndex2: nat, style2: Style)
    requires a != b && a.Valid() && b.Valid() && a.symbols == b.symbols && Terminated(a.Flat())
    requires Range(a.symbols, startLine, endLine, startIndex, endIndex)
    requires Range(b.symbols, startLine2, endLine2, startIndex2, endIndex2)
    modifies a`symbols, b`symbols
    ensures a.Valid() && b.Valid()
    ensures var k, e := Offset(old(a.symbols), startLine, startIndex), Offset(old(a.symbols), endLine, endIndex + 1);
            var k2, e2 := Offset(old(b.symbols), startLine2, startIndex2), Offset(old(b.symbols), endLine2, endIndex2 + 1);
            k <= e && k2 <= e2 && (a.symbols == b.symbols <==> Apart(k, e - k, k2, e2 - k2) || style == style2)
  {
    ghost var d, lines := a.Flat(), a.symbols;
    ghost var d1, d2;
    var changedByA, changedByB;
    d1, changedByA := ChangeForward(a, startLine, endLine, startIndex, endIndex, style);
    d2, changedByB := ChangeForward(b, startLine2, endLine2, startIndex2, endIndex2, style2);
    CrossChanges(a, b, changedByA, changedByB, d,
                 Offset(lines, startLine, startIndex), Offset(lines, endLine, endIndex + 1), style, d1,
                 Offset(lines, startLine2, startIndex2), Offset(lines, endLine2, endIndex2 + 1), style2, d2);
  }

  method CrossChanges(a: CRDT, b: CRDT, changedByA: seq<Symbol>, changedByB: seq<Symbol>, ghost d: Document,
                      ghost k: nat, ghost e: nat, ghost style: Style, ghost d1: Document,
                      ghost k2: nat, ghost e2: nat, ghost style2: Style, ghost d2: Document)
    requires a != b && a.Valid() && b.Valid() && a.Flat() == d1 && b.Flat() == d2
    requires Sorted(d) && Terminated(d) && Restyled(d, k, e, style, d1) && Restyled(d, k2, e2, style2, d2)
    requires changedByA == d1[k..e] && changedByB == d2[k2..e2]
    modifies a`symbols, b`symbols
    ensures a.Valid() && b.Valid()
    ensures a.symbols == b.symbols <==> Apart(k, e - k, k2, e2 - k2) || style == style2
  {
    ChangesCross(d, k, e, style, d1, k2, e2, style2, d2);
    ChangeOver(a, changedByB, d, k2, e2, style2, d2, k, e, style);
    ChangeOver(b, changedByA, d, k, e, style, d1, k2, e2, style2);
    if a.Flat() == b.Flat() {
      SameFlatSameReplica(a.symbols, a.size, b.symbols, b.size);
    }
  }

  method ChangeOver(crdt: CRDT, changed: seq<Symbol>, ghost d: Document, ghost a: nat, ghost b: nat, ghost style: Style,
                    ghost d': Document, ghost k: nat, ghost e: nat, ghost own: Style)
    requires Sorted(d) && Terminated(d) && Restyled(d, a, b, style, d') && changed == d'[a..b]
    requires crdt.Valid() && Restyled(d, k, e, own, crdt.Flat())
    modifies crdt`symbols
    ensures crdt.Valid() && crdt.Flat() == ReplaceAll(old(crdt.Flat()), changed)
  {
    ghost var m := crdt.Flat();
    CanonicalLookableAll(crdt.symbols);
    RestyledStored(d, a, b, style, d');
    forall i | 0 <= i < |changed| ensures Stored(m, changed[i]) {
      assert Stored(d, changed[i]);
      var j :| StoredAt(d, j, changed[i]);
      assert StoredAt(m, j, changed[i]);
    }
    var emitted := crdt.HandleRemoteChange(changed);
  }

  // ----- The server -----

  /** A change of format is stored like a pasted text: new under a new key, or in the place of what was there. */
  lemma {:induction false} StoredContents(m: SymbolMap, ss: seq<Symbol>, x: Symbol)
    requires Keyed(m) && Distinct(ss)
    ensures x in Contents(ApplyAll(m, EditsOf(PastedText, ss))) <==> x in ss || (x in Contents(m) && !Has(ss, x.position))
    decreases |ss|
  {
    if ss == [] {
      assert EditsOf(PastedText, ss) == [];
    } else {
      var n := |ss| - 1;
      StoredContents(m, ss[..n], x);
      StoredKeyed(m, ss[..n]);
      assert ss[..n + 1] == ss;
      ApplyOne(m, PastedText, ss, n);
      StoredMember(ApplyAll(m, EditsOf(PastedText, ss[..n])), ss[n], x);
      LastNamed(ss, x);
    }
  }

  lemma {:induction false} LastNamed(ss: seq<Symbol>, x: Symbol)
    requires ss != [] && Distinct(ss)
    ensures var n := |ss| - 1;
            && (x in ss <==> x in ss[..n] || x == ss[n])
            && (Has(ss, x.position) <==> Has(ss[..n], x.position) || x.position == ss[n].position)
            && (x in ss[..n] ==> x.position != ss[n].position)
  {
    assert ss == ss[..|ss| - 1] + [ss[|ss| - 1]];
    HasSnoc(ss, x.position);
  }

  lemma {:induction false} StoredMember(m: SymbolMap, s: Symbol, x: Symbol)
    requires Keyed(m)
    ensures x in Contents(Apply(m, Put(s))) <==> x == s || (x in Contents(m) && x.position != s.position)
  {
    ApplyKeepsKeyed(m, Put(s));
    ContentsMember(m, x);
    ContentsMember(Apply(m, Put(s)), x);
    KeyInjective(x.position, s.position);
  }

  lemma {:induction false} StoredKeyed(m: SymbolMap, ss: seq<Symbol>)
    requires Keyed(m)
    ensures Keyed(ApplyAll(m, EditsOf(PastedText, ss)))
    decreases |ss|
  {
    if ss == [] {
      assert EditsOf(PastedText, ss) == [];
    } else {
      var n := |ss| - 1;
      StoredKeyed(m, ss[..n]);
      assert ss[..n + 1] == ss;
      ApplyOne(m, PastedText, ss, n);
      ApplyKeepsKeyed(ApplyAll(m, EditsOf(PastedText, ss[..n])), Put(ss[n]));
    }
  }

  lemma {:induction false} InCut(d: Document, k: nat, n: nat, x: Symbol)
    requires Sorted(d) && k + n <= |d|
    ensures x in Cut(d, k, n) <==> x in d && !Has(d[k..k + n], x.position)
  {
    EraseReplays(d, k, n);
    MembersWithoutAll(d, d[k..k + n], x);
  }

  /** What the change makes of the document, seen as a set of symbols. */
  lemma {:induction false} InChanged(d: Document, d': Document, k2: nat, e2: nat, style: Style, x: Symbol)
    requires Sorted(d) && Restyled(d, k2, e2, style, d')
    ensures x in d' <==> x in d'[k2..e2] || (x in d && !Has(d'[k2..e2], x.position))
  {
    var ss := d'[k2..e2];
    if i :| 0 <= i < |d'| && d'[i] == x {
      ChangedHas(d, d', k2, e2, style, i);
      if k2 <= i < e2 {
        assert ss[i - k2] == x;
      } else {
        assert d[i] == x;
      }
    }
    if j :| 0 <= j < |ss| && ss[j] == x {
      assert d'[k2 + j] == x;
    }
    if i :| 0 <= i < |d| && d[i] == x {
      ChangedHas(d, d', k2, e2, style, i);
      assert !(k2 <= i < e2) ==> d'[i] == x;
    }
  }

  ghost function Erased(m: SymbolMap, ss: seq<Symbol>): SymbolMap {
    ApplyAll(m, EditsOf(Kind.Erased, ss))
  }

  ghost function Changed(m: SymbolMap, ss: seq<Symbol>): SymbolMap {
    ApplyAll(m, EditsOf(PastedText, ss))
  }

  /** A change that the server handles before the erasure does no harm to it. */
  lemma {:induction false} ChangedFirst(m: SymbolMap, d: Document, d': Document, k: nat, n: nat, k2: nat, e2: nat, style: Style)
    requires Sorted(d) && Keyed(m) && Contents(m) == multiset(d) && k + n < |d| && Restyled(d, k2, e2, style, d')
    ensures ListsServer(Cut(d', k, n), Erased(Changed(m, d'[k2..e2]), d[k..k + n]))
  {
    var ss, m1 := d'[k2..e2], Changed(m, d'[k2..e2]);
    RestyledSorted(d, k2, e2, style, d');
    SortedDistinct(ss);
    CutSorted(d', k, n);
    StoredKeyed(m, ss);
    DroppedKeyed(m1, d[k..k + n]);
    forall x ensures x in Cut(d', k, n) <==> x in Contents(Erased(m1, d[k..k + n])) {
      InChangedCut(d, d', k, n, k2, e2, style, x);
      ChangedThenErased(m, d, ss, d[k..k + n], x);
    }
    ListsByMembers(Cut(d', k, n), Erased(m1, d[k..k + n]));
  }

  lemma {:induction false} ChangedThenErased(m: SymbolMap, d: Document, ss: seq<Symbol>, erased: seq<Symbol>, x: Symbol)
    requires Keyed(m) && Contents(m) == multiset(d) && Distinct(ss)
    ensures x in Contents(Erased(Changed(m, ss), erased))
       <==> !Has(erased, x.position) && (x in ss || (x in d && !Has(ss, x.position)))
  {
    StoredKeyed(m, ss);
    StoredContents(m, ss, x);
    DropContentsOf(Changed(m, ss), erased, x);
    assert x in multiset(d) <==> x in d;
  }

  /** One that it handles after the erasure brings every symbol of the message back. */
  lemma {:induction false} ErasedFirst(m: SymbolMap, d: Document, d': Document, k: nat, n: nat, k2: nat, e2: nat, style: Style)
    requires Sorted(d) && Keyed(m) && Contents(m) == multiset(d) && k + n < |d| && Restyled(d, k2, e2, style, d')
    ensures var r := Changed(Erased(m, d[k..k + n]), d'[k2..e2]);
            && (forall x <- d'[k2..e2] :: x in Contents(r))
            && (ListsServer(Cut(d', k, n), r) <==> Apart(k, n, k2, e2 - k2))
  {
    var ss := d'[k2..e2];
    var r := Changed(Erased(m, d[k..k + n]), ss);
    forall x <- ss ensures x in Contents(r) {
      BroughtBack(m, d, d', k, n, k2, e2, style, x);
    }
    if Apart(k, n, k2, e2 - k2) {
      ErasedFirstApart(m, d, d', k, n, k2, e2, style);
    } else {
      var x := ErasedAndChanged(d, d', k, n, k2, e2, style);
      assert x in Contents(r) && x !in multiset(Cut(d', k, n));
    }
  }

  lemma {:induction false} ErasedAndChanged(d: Document, d': Document, k: nat, n: nat, k2: nat, e2: nat, style: Style)
    returns (x: Symbol)
    requires Sorted(d) && k + n < |d| && Restyled(d, k2, e2, style, d') && !Apart(k, n, k2, e2 - k2)
    ensures x in d'[k2..e2] && x !in multiset(Cut(d', k, n))
  {
    var i := if k2 < k then k else k2;
    x := d'[i];
    RestyledSorted(d, k2, e2, style, d');
    ErasedHas(d, k, n, i);
    InCut(d', k, n, x);
    HasSamePositions(d[k..k + n], d'[k..k + n], x.position);
    assert d'[k2..e2][i - k2] == x;
    assert x in multiset(Cut(d', k, n)) <==> x in Cut(d', k, n);
  }

  lemma {:induction false} BroughtBack(m: SymbolMap, d: Document, d': Document, k: nat, n: nat, k2: nat, e2: nat,
                                       style: Style, x: Symbol)
    requires Sorted(d) && Keyed(m) && Contents(m) == multiset(d) && k + n < |d| && Restyled(d, k2, e2, style, d')
    ensures x in Contents(Changed(Erased(m, d[k..k + n]), d'[k2..e2]))
       <==> x in d'[k2..e2] || (x in d && !Has(d[k..k + n], x.position) && !Has(d'[k2..e2], x.position))
  {
    RestyledSorted(d, k2, e2, style, d');
    SortedDistinct(d'[k2..e2]);
    DroppedKeyed(m, d[k..k + n]);
    StoredContents(Erased(m, d[k..k + n]), d'[k2..e2], x);
    DropContentsOf(m, d[k..k + n], x);
    assert x in multiset(d) <==> x in d;
  }

  lemma {:induction false} ErasedFirstApart(m: SymbolMap, d: Document, d': Document, k: nat, n: nat, k2: nat, e2: nat, style: Style)
    requires Sorted(d) && Keyed(m) && Contents(m) == multiset(d) && k + n < |d| && Restyled(d, k2, e2, style, d')
    requires Apart(k, n, k2, e2 - k2)
    ensures ListsServer(Cut(d', k, n), Changed(Erased(m, d[k..k + n]), d'[k2..e2]))
  {
    var ss, erased := d'[k2..e2], d[k..k + n];
    var r := Changed(Erased(m, erased), ss);
    RestyledSorted(d, k2, e2, style, d');
    CutSorted(d', k, n);
    DroppedKeyed(m, erased);
    StoredKeyed(Erased(m, erased), ss);
    forall x ensures x in Cut(d', k, n) <==> x in Contents(r) {
      BroughtBack(m, d, d', k, n, k2, e2, style, x);
      InChangedCut(d, d', k, n, k2, e2, style, x);
      ApartHas(d, d', k, n, k2, e2, style, x);
    }
    ListsByMembers(Cut(d', k, n), r);
  }

  /** The symbols that should be left. */
  lemma {:induction false} InChangedCut(d: Document, d': Document, k: nat, n: nat, k2: nat, e2: nat, style: Style, x: Symbol)
    requires Sorted(d) && k + n < |d| && Restyled(d, k2, e2, style, d')
    ensures x in Cut(d', k, n)
       <==> !Has(d[k..k + n], x.position) && (x in d'[k2..e2] || (x in d && !Has(d'[k2..e2], x.position)))
  {
    RestyledSorted(d, k2, e2, style, d');
    InCut(d', k, n, x);
    HasSamePositions(d[k..k + n], d'[k..k + n], x.position);
    InChanged(d, d', k2, e2, style, x);
  }

  lemma {:induction false} ApartHas(d: Document, d': Document, k: nat, n: nat, k2: nat, e2: nat, style: Style, x: Symbol)
    requires Sorted(d) && k + n < |d| && Restyled(d, k2, e2, style, d') && Apart(k, n, k2, e2 - k2)
    ensures x in d'[k2..e2] ==> !Has(d[k..k + n], x.position)
  {
    if x in d'[k2..e2] {
      var i :| 0 <= i < e2 - k2 && d'[k2..e2][i] == x;
      ErasedHas(d, k, n, k2 + i);
    }
  }

  lemma {:induction false} ErasedHas(d: Document, k: nat, n: nat, i: nat)
    requires Sorted(d) && k + n <= |d| && i < |d|
    ensures Has(d[k..k + n], d[i].position) <==> k <= i < k + n
  {
    var erased := d[k..k + n];
    if j :| 0 <= j < |erased| && erased[j].position == d[i].position {
      Antisymmetric(d[k + j].position, d[i].position);
    }
    if k <= i < k + n {
      assert erased[i - k] == d[i];
    }
  }

  /** All three agree exactly when, with the erasure first at the server, the ranges have nothing in common,
  and with the change first, the change is safe. */
  lemma {:induction false} ChangeAgreement(m: SymbolMap, d: Document, d': Document, k: nat, n: nat, k2: nat, e2: nat,
                                           style: Style, lines: seq<Line>, all: bool)
    requires Sorted(d) && Keyed(m) && Contents(m) == multiset(d) && k + n < |d| && Restyled(d, k2, e2, style, d')
    requires ChangedUntil(Split(Cut(d, k, n)), d'[k2..e2], lines, all)
    ensures var a, b, erased, changed := Flatten(lines), Cut(d', k, n), d[k..k + n], d'[k2..e2];
            && (ListsServer(a, Changed(Erased(m, erased), changed)) && ListsServer(b, Changed(Erased(m, erased), changed))
                <==> Apart(k, n, k2, e2 - k2))
            && (ListsServer(a, Erased(Changed(m, changed), erased)) && ListsServer(b, Erased(Changed(m, changed), erased))
                <==> ChangeSafe(d, d', k, n, k2, e2))
  {
    var a, b, erased, changed := Flatten(lines), Cut(d', k, n), d[k..k + n], d'[k2..e2];
    ErasedFirst(m, d, d', k, n, k2, e2, style);
    ChangedFirst(m, d, d', k, n, k2, e2, style);
    assert a == b <==> ChangeSafe(d, d', k, n, k2, e2) by {
      SplitIsCanonical(Cut(d, k, n));
      CutSorted(d, k, n);
      ChangeSafeExactly(d, d', k, n, k2, e2, style);
      ChangedExactly(Split(Cut(d, k, n)), changed, lines, all);
      ChangeMeans(d, d', k, n, k2, e2, style);
    }
    if ListsServer(a, Erased(Changed(m, changed), erased)) {
      OneList(a, b, Erased(Changed(m, changed), erased));
    }
  }
}

/** Replaying an editor's broadcast on an identical replica leaves the two replicas identical. */
module ReplayAgreement {
  import opened Wrappers
  import opened Positions
  import opened Generation
  import opened Documents
  import opened Lines
  import opened ClientDocument

  // ----- On flat documents -----

  lemma {:induction false} PasteShape(d: Document, k: nat, ss: seq<Symbol>)
    requires k <= |d| && ss != []
    ensures var n, r := |ss| - 1, Paste(d, k, ss);
            var r0 := Paste(d, k, ss[..n]);
            && |r| == |r0| + 1 && r[k + n] == ss[n]
            && RemoveAt(r, k + n) == r0
  {
    var n, r := |ss| - 1, Paste(d, k, ss);
    assert r[..k + n] == d[..k] + ss[..n] && r[k + n + 1..] == d[k..];
  }

  lemma {:induction false} PasteLast(d: Document, k: nat, ss: seq<Symbol>)
    requires k <= |d| && ss != [] && Sorted(Paste(d, k, ss))
    ensures var n := |ss| - 1;
            && Sorted(Paste(d, k, ss[..n]))
            && SortedInsert(Paste(d, k, ss[..n]), ss[n]) == Paste(d, k, ss)
  {
    PasteShape(d, k, ss);
    var i := k + |ss| - 1;
    RemoveThenInsert(Paste(d, k, ss), i);
    assert Paste(d, k, ss)[i] == ss[|ss| - 1];
  }

  /** Inserting pasted symbols one by one where the order puts them rebuilds the contiguous text. */
  lemma {:induction false} PasteReplays(d: Document, k: nat, ss: seq<Symbol>)
    requires k <= |d| && Sorted(Paste(d, k, ss))
    ensures InsertAll(d, ss) == Paste(d, k, ss)
    decreases |ss|
  {
    if ss == [] {
      assert Paste(d, k, ss) == d;
    } else {
      PasteLast(d, k, ss);
      PasteReplays(d, k, ss[..|ss| - 1]);
    }
  }

  lemma {:induction false} PasteInsertable(d: Document, k: nat, ss: seq<Symbol>)
    requires k < |d| && Terminated(d)
    requires Sorted(Paste(d, k, ss)) && AllWellFormed(Paste(d, k, ss))
    ensures Insertable(d, ss)
  {
    forall i | 0 <= i < |ss| ensures NewBelowLast(d, ss[i]) {
      PastedIsNew(d, k, ss, i);
    }
    forall i, j | 0 <= i < j < |ss| ensures ss[i].position != ss[j].position {
      PastedApart(Paste(d, k, ss), k + i, k + j);
    }
  }

  lemma {:induction false} PastedApart(r: Document, i: nat, j: nat)
    requires Sorted(r) && i < j < |r|
    ensures r[i].position != r[j].position
  {
    Antisymmetric(r[i].position, r[j].position);
  }

  lemma {:induction false} PastedIsNew(d: Document, k: nat, ss: seq<Symbol>, i: nat)
    requires k < |d| && i < |ss| && Sorted(Paste(d, k, ss)) && AllWellFormed(Paste(d, k, ss))
    ensures NewBelowLast(d, ss[i])
  {
    var r := Paste(d, k, ss);
    assert r[k + i] == ss[i] && r[|r| - 1] == d[|d| - 1];
    forall j | 0 <= j < |d| ensures d[j].position != ss[i].position {
      if j < k {
        assert r[j] == d[j];
        PastedApart(r, j, k + i);
      } else {
        assert r[j + |ss|] == d[j];
        PastedApart(r, k + i, j + |ss|);
      }
    }
  }

  /** Pasted newlines already end their lines, so the alignment pass changes nothing. */
  lemma {:induction false} NewlinesKeepAlignment(d: Document, ss: seq<Symbol>)
    requires Sorted(d)
    requires forall i :: 0 <= i < |ss| ==> ss[i].value != TERMINATOR && ss[i] in d
    ensures AlignAll(d, ss) == d
    decreases |ss|
  {
    if ss != [] {
      var n := |ss| - 1;
      NewlinesKeepAlignment(d, ss[..n]);
      if EndsLine(ss[n]) {
        var e := LineEnders(ss);
        assert e[..|e| - 1] == LineEnders(ss[..n]) && e[|e| - 1] == ss[n];
        var k :| 0 <= k < |d| && d[k] == ss[n];
        Antisymmetric(d[k].position, d[k].position);
        FitsIsCountLess(d, k, d[k].position);
        HasInRange(d, d[k].position);
        assert AlignAt(d, ss[n].position, ss[n].format.align) == d[k := ss[n]] == d;
      } else {
        assert LineEnders(ss) == LineEnders(ss[..n]);
      }
    }
  }

  lemma {:induction false} VisibleText(ss: seq<Symbol>, text: seq<CharCode>)
    requires |ss| == |text| && forall i :: 0 <= i < |ss| ==> ss[i].value == text[i] && text[i] != TERMINATOR
    ensures Visible(ss) == text
    decreases |ss|
  {
    if ss != [] {
      VisibleText(ss[..|ss| - 1], text[..|ss| - 1]);
    }
  }

  /** Erasing a slice symbol by symbol, wherever they are looked up, cuts the slice out. */
  lemma {:induction false} EraseReplays(d: Document, k: nat, n: nat)
    requires Sorted(d) && k + n <= |d|
    ensures WithoutAll(d, d[k..k + n]) == Cut(d, k, n)
    decreases n
  {
    if n == 0 {
      EraseNothing(d, k);
    } else {
      WithoutPresent(d, k);
      RemoveAtKeepsSorted(d, k);
      EraseReplays(RemoveAt(d, k), k, n - 1);
      EraseFirst(d, k, n);
    }
  }

  /** The first symbol of a slice goes first. */
  lemma {:induction false} EraseFirst(d: Document, k: nat, n: nat)
    requires 0 < n && k + n <= |d| && Without(d, d[k].position) == RemoveAt(d, k)
    requires var r := RemoveAt(d, k); WithoutAll(r, r[k..k + (n - 1)]) == Cut(r, k, n - 1)
    ensures WithoutAll(d, d[k..k + n]) == Cut(d, k, n)
  {
    CutFirst(d, k, n);
    WithoutAllFront(d, d[k..k + n]);
  }

  lemma {:induction false} CutFirst(d: Document, k: nat, n: nat)
    requires 0 < n && k + n <= |d|
    ensures d[k..k + n][0] == d[k] && d[k..k + n][1..] == RemoveAt(d, k)[k..k + (n - 1)]
    ensures Cut(RemoveAt(d, k), k, n - 1) == Cut(d, k, n)
  {
    var r := RemoveAt(d, k);
    assert forall i :: k <= i < |r| ==> r[i] == d[i + 1];
    var rest, slice := d[k..k + n][1..], r[k..k + (n - 1)];
    assert forall i :: 0 <= i < |rest| ==> rest[i] == d[k + 1 + i] == slice[i];
    assert r[..k] == d[..k] && r[k + (n - 1)..] == d[k + n..];
  }

  lemma {:induction false} CutSorted(d: Document, k: nat, n: nat)
    requires Sorted(d) && k + n <= |d|
    ensures Sorted(Cut(d, k, n))
  {
    var r := Cut(d, k, n);
    forall i, j | 0 <= i < j < |r| ensures Less(r[i].position, r[j].position) {
      assert r[i] == d[if i < k then i else i + n] && r[j] == d[if j < k then j else j + n];
    }
  }

  lemma {:induction false} EraseNothing(d: Document, k: nat)
    requires k <= |d|
    ensures WithoutAll(d, d[k..k]) == d == Cut(d, k, 0)
  {
    assert d[k..k] == [];
  }

  lemma {:induction false} SliceErasable(d: Document, k: nat, n: nat)
    requires Sorted(d) && Terminated(d) && k + n < |d|
    ensures Erasable(d, d[k..k + n])
  {
    var slice := d[k..k + n];
    forall i | 0 <= i < n ensures Removable(d, slice[i]) {
      assert StoredAt(d, k + i, slice[i]);
    }
    forall i, j | 0 <= i < j < n ensures slice[i].position != slice[j].position {
      Antisymmetric(d[k + i].position, d[k + j].position);
    }
  }

  lemma {:induction false} ReplaceHere(d: Document, k: nat, s: Symbol)
    requires Sorted(d) && k < |d| && d[k].position == s.position
    ensures Replace(d, s) == d[k := s]
  {
    OwnCount(d, k);
  }

  lemma {:induction false} RestyledSorted(d: Document, a: nat, b: nat, style: Style, m: Document)
    requires Sorted(d) && Restyled(d, a, b, style, m)
    ensures Sorted(m)
  {
    forall i, j | 0 <= i < j < |m| ensures Less(m[i].position, m[j].position) {
      assert Less(d[i].position, d[j].position);
    }
  }

  lemma {:induction false} RestyledButLast(d: Document, a: nat, b: nat, style: Style, d': Document, m: Document)
    requires Sorted(d) && Restyled(d, a, b, style, d') && a < b && m == d'[b - 1 := d[b - 1]]
    ensures Restyled(d, a, b - 1, style, m) && Sorted(m)
    ensures m[b - 1].position == d'[b - 1].position && m[b - 1 := d'[b - 1]] == d'
    ensures m[a..b - 1] + [d'[b - 1]] == d'[a..b]
  {
    RestyledSorted(d, a, b - 1, style, m);
  }

  lemma {:induction false} ReplaceLast(d: Document, ss: seq<Symbol>, m: Document, k: nat, s: Symbol)
    requires ReplaceAll(d, ss) == m && Sorted(m) && k < |m| && m[k].position == s.position
    ensures ReplaceAll(d, ss + [s]) == m[k := s]
  {
    assert (ss + [s])[..|ss|] == ss;
    ReplaceHere(m, k, s);
  }

  /** Replacing symbols by their restyled versions restyles the range. */
  lemma {:induction false} ChangeReplays(d: Document, a: nat, b: nat, style: Style, d': Document)
    requires Sorted(d) && Restyled(d, a, b, style, d')
    ensures ReplaceAll(d, d'[a..b]) == d'
    decreases b - a
  {
    if a == b {
      assert d'[a..b] == [] && d' == d;
    } else {
      var m := d'[b - 1 := d[b - 1]];
      RestyledButLast(d, a, b, style, d', m);
      ChangeReplays(d, a, b - 1, style, m);
      ReplaceLast(d, m[a..b - 1], m, b - 1, d'[b - 1]);
    }
  }

  lemma {:induction false} RestyledStored(d: Document, a: nat, b: nat, style: Style, d': Document)
    requires Restyled(d, a, b, style, d')
    ensures AllStored(d, d'[a..b])
  {
    forall i | 0 <= i < b - a ensures Stored(d, d'[a..b][i]) {
      assert StoredAt(d, a + i, d'[a..b][i]);
    }
  }

  /** Two restyled ranges replay one after the other. */
  lemma {:induction false} ApartReplays(d: Document, a: nat, b: nat, a2: nat, b2: nat, style: Style, d': Document)
    requires Sorted(d) && RestyledApart(d, a, b, a2, b2, style, d')
    ensures AllStored(d, d'[a..b] + d'[a2..b2]) && ReplaceAll(d, d'[a..b] + d'[a2..b2]) == d'
  {
    var m := d[..a] + d'[a..b] + d[b..];
    assert Restyled(d, a, b, style, m) && m[a..b] == d'[a..b];
    assert Restyled(m, a2, b2, style, d');
    RestyledSorted(d, a, b, style, m);
    ChangeReplays(d, a, b, style, m);
    ChangeReplays(m, a2, b2, style, d');
    ReplaceAllConcat(d, d'[a..b], d'[a2..b2]);
    ApartStored(d, a, b, a2, b2, style, d');
  }

  lemma {:induction false} ApartStored(d: Document, a: nat, b: nat, a2: nat, b2: nat, style: Style, d': Document)
    requires RestyledApart(d, a, b, a2, b2, style, d')
    ensures AllStored(d, d'[a..b] + d'[a2..b2])
  {
    var ss := d'[a..b] + d'[a2..b2];
    forall i | 0 <= i < |ss| ensures Stored(d, ss[i]) {
      var k := if i < b - a then a + i else a2 + i - (b - a);
      assert ss[i] == d'[k];
      assert StoredAt(d, k, ss[i]);
    }
  }

  lemma {:induction false} ReplaceAllConcat(d: Document, ss: seq<Symbol>, tt: seq<Symbol>)
    ensures ReplaceAll(d, ss + tt) == ReplaceAll(ReplaceAll(d, ss), tt)
    decreases |tt|
  {
    if tt == [] {
      assert ss + tt == ss;
    } else {
      var n := |tt| - 1;
      ReplaceAllConcat(d, ss, tt[..n]);
      assert (ss + tt)[..|ss + tt| - 1] == ss + tt[..n];
    }
  }

  lemma {:induction false} ChangeBroadcast(lines: seq<Line>, startLine: nat, endLine: nat, startIndex: nat, endIndex: nat,
                                           style: Style, d': Document, changed: seq<Symbol>)
    requires Sorted(Flatten(lines)) && startLine < |lines| && endLine < |lines|
    requires ChangedBetween(lines, startLine, endLine, startIndex, endIndex, style, d', changed)
    ensures AllStored(Flatten(lines), changed) && ReplaceAll(Flatten(lines), changed) == d'
  {
    var d := Flatten(lines);
    var a, b := RangeStart(lines, startLine, startIndex), Offset(lines, endLine, endIndex + 1);
    if startLine > endLine {
      ApartReplays(d, a, Offset(lines, startLine, |lines[startLine]|), Offset(lines, endLine, 0), b, style, d');
    } else if startLine < endLine || startIndex <= endIndex {
      RestyledStored(d, a, b, style, d');
      ChangeReplays(d, a, b, style, d');
    }
  }

  // ----- On the client documents -----

  /** Two valid replicas with the same flat document have the same lines and size. */
  lemma {:induction false} SameFlatSameReplica(lines1: seq<Line>, size1: int, lines2: seq<Line>, size2: int)
    requires ValidLines(lines1, size1) && ValidLines(lines2, size2) && Flatten(lines1) == Flatten(lines2)
    ensures lines1 == lines2 && size1 == size2
  {
    CanonicalUnique(lines1, lines2);
  }

  /** A symbol typed at one replica and replayed at the other, which shows it at the same place. */
  method ReplayInsert(a: CRDT, b: CRDT, line: nat, index: nat, value: CharCode, format: Format)
    returns (r: Result<Symbol>, shown: Option<(int, int)>)
    requires a != b && a.Valid() && b.Valid() && a.symbols == b.symbols && Place(a.symbols, line, index)
    requires Terminated(a.Flat()) || Offset(a.symbols, line, index) == 0
    modifies a`symbols, a`size, a`counter, a`strategyCache, b`symbols, b`size
    ensures a.Valid() && b.Valid() && a.symbols == b.symbols && a.size == b.size
    ensures r.Err? <==> BlockedPlace(old(a.symbols), line, index, a.siteId)
    ensures r.Err? ==> a.symbols == old(a.symbols) && shown.None?
    ensures r.Ok? ==>
              && TypedAs(r.value, value, a.counter, format)
              && Offset(old(a.symbols), line, index) <= |old(a.Flat())|
              && b.Flat() == Paste(old(a.Flat()), Offset(old(a.symbols), line, index), [r.value])
              && shown == if value == TERMINATOR then None else Some((line, index))
  {
    ghost var d, k, lines := a.Flat(), Offset(a.symbols, line, index), a.symbols;
    PlaceHoldsSymbol(a.symbols, line, index);
    PlaceIsSpot(a.symbols, line, index);
    r := a.LocalInsert(line, index, value, format);
    shown := None;
    if r.Ok? {
      shown := ReceiveTyped(b, r.value, d, k, line, index, a.siteId);
      assert a.Flat() == Paste(d, k, [r.value]);
    }
    SameFlatSameReplica(a.symbols, a.size, b.symbols, b.size);
  }

  /** The message of a typed symbol, on a replica without it. */
  method ReceiveTyped(b: CRDT, s: Symbol, ghost d: Document, ghost k: nat, ghost line: nat, ghost index: nat,
                      ghost site: int)
    returns (shown: Option<(int, int)>)
    requires b.Valid() && b.Flat() == d && (Terminated(d) || k == 0) && k <= |d|
    requires Place(b.symbols, line, index) && Offset(b.symbols, line, index) == k
    requires Generated(PositionBefore(d, k), s.position, PositionAfter(d, k), site)
    modifies b`symbols, b`size
    ensures b.Valid() && b.Flat() == InsertAt(d, k, s)
    ensures shown == if s.value == TERMINATOR then None else Some((line, index))
  {
    ghost var lines := b.symbols;
    GeneratedFits(d, k, s, site);
    if k == 0 && d != [] {
      Antisymmetric(d[0].position, s.position);
    }
    shown := b.HandleRemoteInsert(s);
    if shown.Some? {
      PlaceUnique(lines, line, index, shown.value.0, shown.value.1);
    }
  }

  /** A paste that goes through shows the same text at the same place; one that throws leaves both
  replicas as they were. */
  method ReplayPaste(a: CRDT, b: CRDT, line: nat, index: nat, partial: seq<CharCode>, format: Format)
    returns (r: Result<seq<Symbol>>, firstLine: int, firstIndex: int, text: seq<CharCode>)
    requires a != b && a.Valid() && b.Valid() && a.symbols == b.symbols && Place(a.symbols, line, index)
    requires Terminated(a.Flat()) && Offset(a.symbols, line, index) < |a.Flat()|
    requires forall i :: 0 <= i < |partial| ==> partial[i] != TERMINATOR
    modifies a`symbols, a`size, a`counter, a`strategyCache, b`symbols, b`size
    ensures a.Valid() && b.Valid() && a.symbols == b.symbols && a.size == b.size
    ensures r.Err? <==> partial != [] && BlockedPlace(old(a.symbols), line, index, a.siteId)
    ensures r.Err? ==> a.symbols == old(a.symbols)
    ensures r.Ok? ==>
              && |r.value| == |partial| && AllTypedAs(r.value, partial, old(a.counter), format)
              && b.Flat() == Paste(old(a.Flat()), Offset(old(a.symbols), line, index), r.value)
              && text == partial
    ensures r.Ok? && partial != [] ==> firstLine == line && firstIndex == index
  {
    ghost var d, k := a.Flat(), Offset(a.symbols, line, index);
    ghost var lines := a.symbols;
    var line', index';
    line', index', r := a.LocalInsertGroup(line, index, partial, format);
    firstLine, firstIndex, text := line, index, [];
    if r.Ok? {
      PastedReplays(d, k, r.value, partial, a.Flat());
      firstLine, firstIndex, text := b.HandleRemotePaste(r.value);
      if partial != [] {
        PlaceUnique(lines, line, index, firstLine, firstIndex);
      }
    }
    SameFlatSameReplica(a.symbols, a.size, b.symbols, b.size);
  }

  lemma {:induction false} PastedReplays(d: Document, k: nat, ss: seq<Symbol>, partial: seq<CharCode>, d': Document)
    requires k < |d| && Terminated(d) && d' == Paste(d, k, ss) && |ss| == |partial|
    requires forall i :: 0 <= i < |ss| ==> ss[i].value == partial[i]
    requires Sorted(d') && AllWellFormed(d')
    requires forall i :: 0 <= i < |partial| ==> partial[i] != TERMINATOR
    ensures Insertable(d, ss)
    ensures AlignAll(InsertAll(d, ss), ss) == d' && Visible(ss) == partial
    ensures ss != [] ==> CountLess(d, ss[0].position) == k
  {
    PasteReplays(d, k, ss);
    PasteInsertable(d, k, ss);
    PastedAt(d, k, ss);
    NewlinesKeepAlignment(d', ss);
    VisibleText(ss, partial);
    if ss != [] {
      FirstPasted(d, k, ss);
    }
  }

  lemma {:induction false} PastedAt(d: Document, k: nat, ss: seq<Symbol>)
    requires k <= |d|
    ensures forall i :: 0 <= i < |ss| ==> ss[i] in Paste(d, k, ss)
  {
    assert forall i :: 0 <= i < |ss| ==> Paste(d, k, ss)[k + i] == ss[i];
  }

  lemma {:induction false} FirstPasted(d: Document, k: nat, ss: seq<Symbol>)
    requires k <= |d| && ss != [] && Sorted(Paste(d, k, ss))
    ensures CountLess(d, ss[0].position) == k
  {
    var r := Paste(d, k, ss);
    assert r[k] == ss[0];
    assert k > 0 ==> r[k - 1] == d[k - 1];
    assert k < |d| ==> r[k + |ss|] == d[k];
    PrefixSorted(d, k, ss);
    BetweenFits(d, k, ss[0].position);
  }

  lemma {:induction false} PrefixSorted(d: Document, k: nat, ss: seq<Symbol>)
    requires k <= |d| && Sorted(Paste(d, k, ss))
    ensures Sorted(d)
  {
    var r := Paste(d, k, ss);
    forall i, j | 0 <= i < j < |d| ensures Less(d[i].position, d[j].position) {
      assert r[if i < k then i else i + |ss|] == d[i] && r[if j < k then j else j + |ss|] == d[j];
    }
  }

  method ReplayErase(a: CRDT, b: CRDT, line: nat, index: nat, length: nat)
    returns (startLine: int, startIndex: int)
    requires a != b && a.Valid() && b.Valid() && a.symbols == b.symbols && Place(a.symbols, line, index)
    requires Terminated(a.Flat()) && Offset(a.symbols, line, index) + length < |a.Flat()|
    modifies a`symbols, a`size, b`symbols, b`size
    ensures a.Valid() && b.Valid() && a.symbols == b.symbols && a.size == b.size
    ensures b.Flat() == Cut(old(a.Flat()), Offset(old(a.symbols), line, index), length)
    ensures length > 0 ==> startLine == line && startIndex == index
  {
    ghost var d, k := a.Flat(), Offset(a.symbols, line, index);
    var erased := a.LocalErase(line, index, length);
    startLine, startIndex := ReceiveErased(b, erased, d, k, length, line, index);
    SameFlatSameReplica(a.symbols, a.size, b.symbols, b.size);
  }

  /** A message of stored symbols. */
  method HandleErasable(b: CRDT, ss: seq<Symbol>) returns (startLine: int, startIndex: int)
    requires b.Valid() && Erasable(b.Flat(), ss)
    modifies b`symbols, b`size
    ensures b.Valid() && b.Flat() == WithoutAll(old(b.Flat()), ss)
    ensures ss != [] ==>
              && Place(old(b.symbols), startLine, startIndex)
              && Offset(old(b.symbols), startLine, startIndex) == CountLess(old(b.Flat()), ss[0].position)
  {
    ErasableRun(b.symbols, b.size, ss);
    var emitted;
    startLine, startIndex, emitted := b.HandleRemoteErase(ss);
  }

  /** The message of a local erase, on a replica that still has the slice. */
  method ReceiveErased(b: CRDT, erased: seq<Symbol>, ghost d: Document, ghost k: nat, ghost n: nat,
                       ghost line: nat, ghost index: nat)
    returns (startLine: int, startIndex: int)
    requires b.Valid() && b.Flat() == d && Terminated(d) && k + n < |d| && erased == d[k..k + n]
    requires Place(b.symbols, line, index) && Offset(b.symbols, line, index) == k
    modifies b`symbols, b`size
    ensures b.Valid() && b.Flat() == Cut(d, k, n)
    ensures n > 0 ==> startLine == line && startIndex == index
  {
    ghost var lines := b.symbols;
    SliceErasable(d, k, n);
    EraseReplays(d, k, n);
    startLine, startIndex := HandleErasable(b, erased);
    if n > 0 {
      assert erased[0] == d[k];
      OwnCount(d, k);
      PlaceUnique(lines, line, index, startLine, startIndex);
    }
  }

  method ReplayChange(a: CRDT, b: CRDT, startLine: nat, endLine: nat, startIndex: nat, endIndex: nat, style: Style)
    returns (changed: seq<Symbol>)
    requires a != b && a.Valid() && b.Valid() && a.symbols == b.symbols && Terminated(a.Flat())
    requires Changeable(a.symbols, startLine, endLine, startIndex, endIndex)
    modifies a`symbols, b`symbols
    ensures a.Valid() && b.Valid() && a.symbols == b.symbols && a.size == b.size
    ensures ChangedBetween(old(a.symbols), startLine, endLine, startIndex, endIndex, style, b.Flat(), changed)
  {
    ghost var lines := a.symbols;
    var r := a.LocalChangeGroup(startLine, endLine, startIndex, endIndex, style);
    changed := r.value;
    ChangeBroadcast(lines, startLine, endLine, startIndex, endIndex, style, a.Flat(), changed);
    CanonicalLookableAll(b.symbols);
    var emitted := b.HandleRemoteChange(changed);
    SameFlatSameReplica(a.symbols, a.size, b.symbols, b.size);
  }

  /** A stored symbol is found at one place. */
  lemma {:induction false} FoundUnique(lines: seq<Line>, p: Position, line1: int, index1: int, line2: int, index2: int)
    requires Sorted(Flatten(lines)) && Has(Flatten(lines), p)
    requires Found(lines, p, line1, index1) && Found(lines, p, line2, index2)
    ensures line1 == line2 && index1 == index2
  {
    SymbolAt(lines, line1, index1);
    SymbolAt(lines, line2, index2);
    var i, j := Offset(lines, line1, index1), Offset(lines, line2, index2);
    OwnCount(Flatten(lines), i);
    OwnCount(Flatten(lines), j);
    PlaceUnique(lines, line1, index1, line2, index2);
  }

  /** The message of an alignment change, on a replica with the same lines. */
  method ReceiveAligned(b: CRDT, s: Symbol, ghost line: nat) returns (shown: Option<(int, int)>)
    requires b.Valid() && Terminated(b.Flat()) && line < |b.symbols| && b.symbols[line] != []
    requires s.position == LastPosition(b.symbols, line)
    modifies b`symbols
    ensures b.Valid() && b.Flat() == AlignAt(old(b.Flat()), s.position, s.format.align)
    ensures shown == Some((line, |old(b.symbols)[line]| - 1))
  {
    ghost var lines := b.symbols;
    LastIsFound(lines, line);
    HasSymbol(lines, line, |lines[line]| - 1);
    shown := b.HandleRemoteAlignChange(s);
    FoundUnique(lines, s.position, line, |lines[line]| - 1, shown.value.0, shown.value.1);
  }

  method ReplayAlignment(a: CRDT, b: CRDT, line: nat, align: Alignment) returns (shown: Option<(int, int)>)
    requires a != b && a.Valid() && b.Valid() && a.symbols == b.symbols && Terminated(a.Flat())
    requires line < |a.symbols| && a.symbols[line] != []
    modifies a`symbols, b`symbols
    ensures a.Valid() && b.Valid() && a.symbols == b.symbols && a.size == b.size
    ensures var k := Offset(old(a.symbols), line, |old(a.symbols)[line]| - 1);
            && k < |old(a.Flat())|
            && b.Flat() == old(a.Flat())[k := SetAlignment(old(a.Flat())[k], align)]
    ensures shown == Some((line, |old(a.symbols)[line]| - 1))
  {
    SymbolAt(a.symbols, line, |a.symbols[line]| - 1);
    var s := a.LocalChangeAlignment(line, align);
    shown := ReceiveAligned(b, s, line);
    SameFlatSameReplica(a.symbols, a.size, b.symbols, b.size);
  }
}

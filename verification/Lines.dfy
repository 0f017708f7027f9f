/** The line structure of the client document: a list of lines, each but the last closed by its
only newline (the `_symbols` of Client/CRDT.h). */
module Lines {
  import opened Positions
  import opened Documents

  type Line = seq<Symbol>

  function Flatten(lines: seq<Line>): Document {
    if lines == [] then [] else lines[0] + Flatten(lines[1..])
  }

  /** The flat offset of a place in a line. */
  function Offset(lines: seq<Line>, line: nat, index: nat): nat
    requires line <= |lines|
  {
    |Flatten(lines[..line])| + index
  }

  predicate Open(l: Line) {
    forall i :: 0 <= i < |l| ==> l[i].value != NEWLINE
  }

  predicate Closed(l: Line) {
    l != [] && forall i :: 0 <= i < |l| ==> (l[i].value == NEWLINE <==> i == |l| - 1)
  }

  /** The shape kept by every operation: only the last line may be empty, and only it has no newline. */
  predicate Canonical(lines: seq<Line>) {
    && lines != []
    && (forall i :: 0 <= i < |lines| - 1 ==> Closed(lines[i]))
    && Open(lines[|lines| - 1])
  }

  /** The lines of a flat document. */
  function Split(d: Document): (lines: seq<Line>)
    ensures lines != []
  {
    if d == [] then [[]]
    else
      var rest := Split(d[1..]);
      if d[0].value == NEWLINE then [[d[0]]] + rest
      else [[d[0]] + rest[0]] + rest[1..]
  }

  /** A place where a symbol may be inserted: behind a newline begins the next line. */
  predicate Place(lines: seq<Line>, line: int, index: int) {
    && 0 <= line < |lines| && 0 <= index <= |lines[line]|
    && (index == |lines[line]| ==> line == |lines| - 1)
  }

  /** Any index up to the length of a line, or the start of a line behind the last one. */
  predicate Within(lines: seq<Line>, line: int, index: int) {
    0 <= line <= |lines| && 0 <= index <= if line < |lines| then |lines[line]| else 0
  }

  /** Where the generator may look for neighbours: behind a line's end it reads the next line's first symbol. */
  predicate Spot(lines: seq<Line>, line: int, index: int) {
    && 0 <= line < |lines| && 0 <= index <= |lines[line]|
    && (index == |lines[line]| && line + 1 < |lines| ==> lines[line + 1] != [])
  }

  lemma {:induction false} FlattenConcat(a: seq<Line>, b: seq<Line>)
    ensures Flatten(a + b) == Flatten(a) + Flatten(b)
  {
    if a == [] {
      assert a + b == b;
    } else {
      assert (a + b)[1..] == a[1..] + b;
      FlattenConcat(a[1..], b);
    }
  }

  lemma {:induction false} FlattenOne(l: Line)
    ensures Flatten([l]) == l
  {
    assert [l][1..] == [];
  }

  lemma {:induction false} Regroup(a: Document, l1: Document, l2: Document, b: Document)
    ensures a + l1 + (l2 + b) == a + (l1 + l2) + b
  {
  }

  lemma {:induction false} FlattenAround(a: seq<Line>, l: Line, b: seq<Line>)
    ensures Flatten(a + [l] + b) == Flatten(a) + l + Flatten(b)
  {
    FlattenConcat(a + [l], b);
    FlattenConcat(a, [l]);
    FlattenOne(l);
  }

  lemma {:induction false} FlattenAt(lines: seq<Line>, line: nat)
    requires line < |lines|
    ensures Flatten(lines) == Flatten(lines[..line]) + lines[line] + Flatten(lines[line + 1..])
    ensures Offset(lines, line + 1, 0) == Offset(lines, line, |lines[line]|) <= |Flatten(lines)|
  {
    assert lines == lines[..line] + [lines[line]] + lines[line + 1..];
    FlattenAround(lines[..line], lines[line], lines[line + 1..]);
    assert lines[..line + 1] == lines[..line] + [lines[line]] + [];
    FlattenAround(lines[..line], lines[line], []);
  }

  lemma {:induction false} SymbolAt(lines: seq<Line>, line: nat, index: nat)
    requires line < |lines| && index < |lines[line]|
    ensures Offset(lines, line, index) < |Flatten(lines)|
    ensures Flatten(lines)[Offset(lines, line, index)] == lines[line][index]
  {
    FlattenAt(lines, line);
  }

  lemma {:induction false} OffsetMonotone(lines: seq<Line>, a: nat, b: nat)
    requires a <= b <= |lines|
    ensures Offset(lines, a, 0) <= Offset(lines, b, 0)
    decreases b - a
  {
    if a < b {
      FlattenAt(lines, a);
      OffsetMonotone(lines, a + 1, b);
    }
  }

  /** A place is determined by its flat offset. */
  lemma {:induction false} PlaceUnique(lines: seq<Line>, line1: nat, index1: nat, line2: nat, index2: nat)
    requires Place(lines, line1, index1) && Place(lines, line2, index2)
    requires Offset(lines, line1, index1) == Offset(lines, line2, index2)
    ensures line1 == line2 && index1 == index2
  {
    if line1 < line2 {
      FlattenAt(lines, line1);
      OffsetMonotone(lines, line1 + 1, line2);
    } else if line2 < line1 {
      FlattenAt(lines, line2);
      OffsetMonotone(lines, line2 + 1, line1);
    }
  }

  /** A place short of the end of the document holds a symbol. */
  lemma {:induction false} PlaceHoldsSymbol(lines: seq<Line>, line: nat, index: nat)
    requires Place(lines, line, index)
    ensures Offset(lines, line, index) <= |Flatten(lines)|
    ensures Offset(lines, line, index) < |Flatten(lines)| <==> index < |lines[line]|
  {
    FlattenAt(lines, line);
  }

  // ----- The structure is the unique split of the flat document -----

  lemma {:induction false} SplitIsCanonical(d: Document)
    ensures Canonical(Split(d)) && Flatten(Split(d)) == d
  {
    if d == [] {
      FlattenOne([]);
    } else {
      SplitIsCanonical(d[1..]);
      SplitStep(d, Split(d[1..]));
    }
  }

  lemma {:induction false} SplitStep(d: Document, rest: seq<Line>)
    requires d != [] && rest == Split(d[1..]) && Canonical(rest) && Flatten(rest) == d[1..]
    ensures Canonical(Split(d)) && Flatten(Split(d)) == d
  {
    if d[0].value == NEWLINE {
      ConsLine([d[0]], rest);
    } else {
      ExtendLine(d[0], rest);
    }
    assert d == [d[0]] + d[1..];
  }

  lemma {:induction false} ConsLine(l: Line, rest: seq<Line>)
    requires Closed(l) && Canonical(rest)
    ensures Canonical([l] + rest) && Flatten([l] + rest) == l + Flatten(rest)
  {
    var r := [l] + rest;
    assert r[1..] == rest;
    assert forall i :: 1 <= i < |r| ==> r[i] == rest[i - 1];
  }

  lemma {:induction false} ExtendLine(x: Symbol, rest: seq<Line>)
    requires x.value != NEWLINE && Canonical(rest)
    ensures Canonical([[x] + rest[0]] + rest[1..])
    ensures Flatten([[x] + rest[0]] + rest[1..]) == [x] + Flatten(rest)
  {
    var l, more := [x] + rest[0], rest[1..];
    assert [l] + more == rest[0 := l];
    assert Canonical(rest[0 := l]) by {
      assert forall i :: 1 <= i < |l| ==> l[i] == rest[0][i - 1];
    }
    ExtendFlat(x, rest[0], more);
    assert rest == [rest[0]] + more;
  }

  lemma {:induction false} ExtendFlat(x: Symbol, l: Line, more: seq<Line>)
    ensures Flatten([[x] + l] + more) == [x] + Flatten([l] + more)
  {
    assert ([[x] + l] + more)[1..] == more && ([l] + more)[1..] == more;
    Regroup([], [x], l, Flatten(more));
  }

  lemma {:induction false} CanonicalUnique(a: seq<Line>, b: seq<Line>)
    requires Canonical(a) && Canonical(b) && Flatten(a) == Flatten(b)
    ensures a == b
    decreases |a|
  {
    SameFirstLine(a, b);
    assert a == [a[0]] + a[1..] && b == [b[0]] + b[1..];
    if |a| > 1 {
      assert Flatten(a[1..]) == Flatten(a)[|a[0]|..] == Flatten(b[1..]);
      assert Canonical(a[1..]) && Canonical(b[1..]);
      CanonicalUnique(a[1..], b[1..]);
    }
  }

  lemma {:induction false} SameFirstLine(a: seq<Line>, b: seq<Line>)
    requires Canonical(a) && Canonical(b) && Flatten(a) == Flatten(b)
    ensures a[0] == b[0] && (|a| == 1 <==> |b| == 1)
  {
    var d, m, n := Flatten(a), |a[0]|, |b[0]|;
    assert a[0] == d[..m] && b[0] == d[..n];
    assert |a| == 1 ==> a[1..] == [] && m == |d|;
    assert |b| == 1 ==> b[1..] == [] && n == |d|;
    assert |a| > 1 ==> Closed(a[0]) && a[0][m - 1] == d[m - 1];
    assert |b| > 1 ==> Closed(b[0]) && b[0][n - 1] == d[n - 1];
    assert forall i :: 0 <= i < m && i < n ==> a[0][i] == b[0][i];
  }

  /** Replicas with equal flat documents have equal lines. */
  lemma {:induction false} CanonicalIsSplit(lines: seq<Line>)
    ensures Canonical(lines) <==> lines == Split(Flatten(lines))
  {
    SplitIsCanonical(Flatten(lines));
    if Canonical(lines) {
      CanonicalUnique(lines, Split(Flatten(lines)));
    }
  }

  // ----- Inserting and erasing one symbol -----

  function InsertInLines(lines: seq<Line>, line: nat, index: nat, s: Symbol): seq<Line>
    requires line < |lines| && index <= |lines[line]|
  {
    var l := lines[line];
    if s.value == NEWLINE then lines[..line] + [l[..index] + [s], l[index..]] + lines[line + 1..]
    else lines[..line] + [l[..index] + [s] + l[index..]] + lines[line + 1..]
  }

  /** Removes a symbol; when a newline goes, the next line is appended. */
  function EraseInLines(lines: seq<Line>, line: nat, index: nat, newline: bool): seq<Line>
    requires line < |lines| && index < |lines[line]|
  {
    var l := RemoveAt(lines[line], index);
    if newline && line + 1 < |lines| then lines[..line] + [l + lines[line + 1]] + lines[line + 2..]
    else lines[..line] + [l] + lines[line + 1..]
  }

  /** A symbol put behind the newline of its line breaks the lines. */
  lemma {:induction false} InsertBreaksLines(lines: seq<Line>, line: nat, index: nat, s: Symbol)
    requires Canonical(lines) && line < |lines| && index <= |lines[line]| && !Place(lines, line, index)
    ensures !Canonical(InsertInLines(lines, line, index, s))
  {
    var l, r := lines[line], InsertInLines(lines, line, index, s);
    assert Closed(l) && r[line] == l + [s];
    var before: Symbol := r[line][|l| - 1];
    assert before.value == NEWLINE && !Closed(r[line]);
  }

  lemma {:induction false} InsertAround(a: Document, l: Document, b: Document, index: nat, s: Symbol)
    requires index <= |l|
    ensures a + (l[..index] + [s] + l[index..]) + b == InsertAt(a + l + b, |a| + index, s)
  {
  }

  lemma {:induction false} RemoveAround(a: Document, l: Document, b: Document, index: nat)
    requires index < |l|
    ensures a + RemoveAt(l, index) + b == RemoveAt(a + l + b, |a| + index)
  {
  }

  lemma {:induction false} FlattenTwo(a: seq<Line>, l1: Line, l2: Line, b: seq<Line>)
    ensures Flatten(a + [l1, l2] + b) == Flatten(a) + (l1 + l2) + Flatten(b)
  {
    assert a + [l1, l2] + b == a + [l1] + ([l2] + b);
    FlattenAround(a, l1, [l2] + b);
    assert ([l2] + b)[1..] == b;
    Regroup(Flatten(a), l1, l2, Flatten(b));
  }

  lemma {:induction false} InsertFlat(lines: seq<Line>, line: nat, index: nat, s: Symbol)
    requires line < |lines| && index <= |lines[line]|
    ensures Offset(lines, line, index) <= |Flatten(lines)|
    ensures Flatten(InsertInLines(lines, line, index, s))
         == InsertAt(Flatten(lines), Offset(lines, line, index), s)
  {
    var l, a, b := lines[line], lines[..line], lines[line + 1..];
    var inserted := l[..index] + [s] + l[index..];
    assert Flatten(InsertInLines(lines, line, index, s)) == Flatten(a) + inserted + Flatten(b) by {
      if s.value == NEWLINE {
        FlattenTwo(a, l[..index] + [s], l[index..], b);
      } else {
        FlattenAround(a, inserted, b);
      }
    }
    assert Flatten(lines) == Flatten(a) + l + Flatten(b) by {
      FlattenAt(lines, line);
    }
    InsertAround(Flatten(a), l, Flatten(b), index, s);
  }

  lemma {:induction false} InsertCanonical(lines: seq<Line>, line: nat, index: nat, s: Symbol)
    requires Canonical(lines) && Place(lines, line, index)
    ensures Canonical(InsertInLines(lines, line, index, s))
  {
    var l, r := lines[line], InsertInLines(lines, line, index, s);
    if s.value == NEWLINE {
      var l1, l2 := l[..index] + [s], l[index..];
      forall i | 0 <= i < |r| - 1 ensures Closed(r[i]) {
        assert r[i] == if i < line then lines[i] else if i == line then l1 else if i == line + 1 then l2 else lines[i - 1];
      }
      assert r[|r| - 1] == if line == |lines| - 1 then l2 else lines[|lines| - 1];
    } else {
      var l1 := l[..index] + [s] + l[index..];
      forall i | 0 <= i < |r| - 1 ensures Closed(r[i]) {
        assert r[i] == if i == line then l1 else lines[i];
      }
      assert r[|r| - 1] == if line == |lines| - 1 then l1 else lines[|lines| - 1];
    }
  }

  lemma {:induction false} EraseFlat(lines: seq<Line>, line: nat, index: nat, newline: bool)
    requires line < |lines| && index < |lines[line]|
    ensures Offset(lines, line, index) < |Flatten(lines)|
    ensures Flatten(EraseInLines(lines, line, index, newline))
         == RemoveAt(Flatten(lines), Offset(lines, line, index))
  {
    var l, a, rest := RemoveAt(lines[line], index), lines[..line], lines[line + 1..];
    assert Flatten(EraseInLines(lines, line, index, newline)) == Flatten(a) + l + Flatten(rest) by {
      if newline && line + 1 < |lines| {
        MergeFlat(a, l, rest);
        assert rest[1..] == lines[line + 2..];
      } else {
        FlattenAround(a, l, rest);
      }
    }
    assert Flatten(lines) == Flatten(a) + lines[line] + Flatten(rest) by {
      FlattenAt(lines, line);
    }
    RemoveAround(Flatten(a), lines[line], Flatten(rest), index);
  }

  lemma {:induction false} MergeFlat(a: seq<Line>, l: Line, rest: seq<Line>)
    requires rest != []
    ensures Flatten(a + [l + rest[0]] + rest[1..]) == Flatten(a) + l + Flatten(rest)
  {
    FlattenAround(a, l + rest[0], rest[1..]);
    Regroup(Flatten(a), l, rest[0], Flatten(rest[1..]));
  }

  lemma {:induction false} EraseCanonical(lines: seq<Line>, line: nat, index: nat)
    requires Canonical(lines) && line < |lines| && index < |lines[line]|
    ensures var r := EraseInLines(lines, line, index, lines[line][index].value == NEWLINE);
            Canonical(r) && Place(r, line, index)
  {
    var l0, n := lines[line], |lines|;
    var l := RemoveAt(l0, index);
    var r := EraseInLines(lines, line, index, l0[index].value == NEWLINE);
    if l0[index].value == NEWLINE {
      assert line < n - 1 && index == |l0| - 1;
      var next := lines[line + 1];
      assert l == l0[..index] && Open(l);
      assert r[line] == l + next;
      assert forall i :: 0 <= i < line ==> r[i] == lines[i];
      assert forall i :: line < i < n - 1 ==> r[i] == lines[i + 1];
    } else {
      assert r[line] == l;
      assert forall i :: 0 <= i < n && i != line ==> r[i] == lines[i];
    }
  }

  // ----- Searching -----

  function LastPosition(lines: seq<Line>, i: nat): Position
    requires i < |lines| && lines[i] != []
  {
    lines[i][|lines[i]| - 1].position
  }

  lemma {:induction false} LineSorted(lines: seq<Line>, line: nat)
    requires Sorted(Flatten(lines)) && line < |lines|
    ensures Sorted(lines[line])
  {
    var l, d := lines[line], Flatten(lines);
    forall i, j | 0 <= i < j < |l| ensures Less(l[i].position, l[j].position) {
      SymbolAt(lines, line, i);
      SymbolAt(lines, line, j);
    }
  }

  /** A position that fits in a line, above the line before, fits at the same place of the flat document. */
  lemma {:induction false} FitsInLine(lines: seq<Line>, line: nat, index: nat, p: Position)
    requires line < |lines| && index < |lines[line]| && Fits(lines[line], index, p)
    requires line > 0 ==> lines[line - 1] != [] && Less(LastPosition(lines, line - 1), p)
    ensures Place(lines, line, index)
    ensures Fits(Flatten(lines), Offset(lines, line, index), p)
  {
    SymbolAt(lines, line, index);
    if index > 0 {
      SymbolAt(lines, line, index - 1);
    } else if line > 0 {
      SymbolAt(lines, line - 1, |lines[line - 1]| - 1);
      FlattenAt(lines, line - 1);
    } else {
      assert lines[..0] == [];
    }
  }

  lemma {:induction false} FirstLine(lines: seq<Line>)
    requires Canonical(lines)
    ensures Flatten(lines) == [] <==> lines == [[]]
    ensures Flatten(lines) != [] ==> lines[0] != [] && Flatten(lines)[0] == lines[0][0]
  {
    assert Flatten(lines) == lines[0] + Flatten(lines[1..]);
    if lines[0] == [] {
      assert lines == [[]] && lines[1..] == [];
    }
  }

  lemma {:induction false} FirstAndLast(lines: seq<Line>)
    requires Canonical(lines)
    ensures Flatten(lines) == [] <==> lines == [[]]
    ensures Flatten(lines) != [] ==> lines[0] != [] && Flatten(lines)[0] == lines[0][0]
    ensures lines[|lines| - 1] != [] ==>
              Flatten(lines) != [] && Flatten(lines)[|Flatten(lines)| - 1].position == LastPosition(lines, |lines| - 1)
    ensures lines[|lines| - 1] == [] <==>
              Flatten(lines) == [] || Flatten(lines)[|Flatten(lines)| - 1].value == NEWLINE
  {
    var n := |lines|;
    FirstLine(lines);
    FlattenAt(lines, n - 1);
    assert lines[n..] == [];
    if lines[n - 1] != [] {
      SymbolAt(lines, n - 1, |lines[n - 1]| - 1);
    } else if n > 1 {
      FlattenAt(lines, n - 2);
      SymbolAt(lines, n - 2, |lines[n - 2]| - 1);
    }
  }
}

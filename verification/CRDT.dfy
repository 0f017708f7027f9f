/** The client document: a vector of lines, searched in two levels (Client/CRDT.cpp).

Every method is tied to an operation on the flat document; `Valid` keeps the lines canonical, so
equal flat documents mean equal lines (`Lines.CanonicalUnique`).
*/
module ClientDocument {
  import opened Wrappers
  import opened Positions
  import opened Generation
  import opened Documents
  import opened Lines

  /** The last line is not empty, as with the terminator in place: the searches may look at its last symbol. */
  predicate Terminated(d: Document) {
    d != [] && d[|d| - 1].value != NEWLINE
  }

  /** What a search for `p` needs: it reads the last line's last symbol unless it stops at the first symbol. */
  predicate Searchable(d: Document, p: Position) {
    d == [] || Terminated(d) || !Less(d[0].position, p)
  }

  /** No line is empty, as a search by the lines' last symbols needs it. */
  predicate Filled(lines: seq<Line>) {
    lines != [] && forall i :: 0 <= i < |lines| ==> lines[i] != []
  }

  /** What a lookup of `p` needs: it stops at an empty document or before the first symbol, and else
  reads the last symbols of lines. */
  predicate Lookable(lines: seq<Line>, p: Position) {
    || lines == [[]]
    || (lines != [] && lines[0] != [] && Less(p, lines[0][0].position))
    || Filled(lines)
  }

  /** A stored symbol at the position of `s`, which is a newline just when `s` is. */
  predicate StoredAt(d: Document, k: int, s: Symbol) {
    && 0 <= k < |d| && d[k].position == s.position
    && (d[k].value == NEWLINE <==> s.value == NEWLINE)
  }

  predicate InRange(d: Document, p: Position) {
    d != [] && !Less(p, d[0].position) && !Less(d[|d| - 1].position, p)
  }

  ghost function PositionBefore(d: Document, k: nat): Position
    requires k <= |d|
  {
    if k == 0 then [] else d[k - 1].position
  }

  ghost function PositionAfter(d: Document, k: nat): Position
    requires k <= |d|
  {
    if k == |d| then [] else d[k].position
  }

  // ----- What the messages of other sites require and do -----

  /** Distinct new symbols that all belong before the last symbol of the document. */
  predicate Insertable(d: Document, ss: seq<Symbol>) {
    && Terminated(d)
    && (forall i :: 0 <= i < |ss| ==> NewBelowLast(d, ss[i]))
    && (forall i, j :: 0 <= i < j < |ss| ==> ss[i].position != ss[j].position)
  }

  predicate NewBelowLast(d: Document, s: Symbol) {
    && WellFormed(s.position) && !Has(d, s.position)
    && d != [] && Less(s.position, d[|d| - 1].position)
  }

  /** Stored, and not the last symbol of the document. */
  ghost predicate Removable(d: Document, s: Symbol) {
    exists k :: StoredAt(d, k, s) && k < |d| - 1
  }

  ghost predicate Erasable(d: Document, ss: seq<Symbol>) {
    && Terminated(d)
    && (forall i :: 0 <= i < |ss| ==> Removable(d, ss[i]))
    && (forall i, j :: 0 <= i < j < |ss| ==> ss[i].position != ss[j].position)
  }

  /** The text of pasted symbols, without terminators. */
  function Visible(ss: seq<Symbol>): seq<CharCode> {
    if ss == [] then []
    else
      var s := ss[|ss| - 1];
      Visible(ss[..|ss| - 1]) + if s.value == TERMINATOR then [] else [s.value]
  }

  predicate EndsLine(s: Symbol) {
    s.value == TERMINATOR || s.value == NEWLINE
  }

  function LineEnders(ss: seq<Symbol>): seq<Symbol> {
    if ss == [] then []
    else LineEnders(ss[..|ss| - 1]) + if EndsLine(ss[|ss| - 1]) then [ss[|ss| - 1]] else []
  }

  /** What is shown, and which symbols the alignment pass is about, symbol by symbol and in order. */
  lemma {:induction false} ShownParts(ss: seq<Symbol>, s: Symbol)
    ensures Visible(ss + [s]) == Visible(ss) + if s.value == TERMINATOR then [] else [s.value]
    ensures LineEnders(ss + [s]) == LineEnders(ss) + if s.value == TERMINATOR || s.value == NEWLINE then [s] else []
    ensures Visible([]) == [] && LineEnders([]) == []
  {
    assert (ss + [s])[..|ss|] == ss;
  }

  function SetAlignment(s: Symbol, a: Alignment): (r: Symbol)
    ensures r.value == s.value && r.position == s.position && r.counter == s.counter
    ensures r.format.align == a && r.format.style == s.format.style
  {
    s.(format := s.format.(align := a))
  }

  /** Where the line through `k` ends. */
  function LineEnd(d: Document, k: nat): (e: nat)
    requires k < |d|
    ensures k <= e < |d|
    decreases |d| - k
  {
    if k == |d| - 1 || d[k].value == NEWLINE then k else LineEnd(d, k + 1)
  }

  /** Where the line through `k` starts. */
  function LineStart(d: Document, k: nat): (b: nat)
    requires k < |d|
    ensures b <= k
  {
    if k == 0 || d[k - 1].value == NEWLINE then k else LineStart(d, k - 1)
  }

  /** The line that holds a position, or would hold it, takes an alignment. */
  function AlignAt(d: Document, p: Position, a: Alignment): Document {
    var k := CountLess(d, p);
    if k < |d| && InRange(d, p) then d[LineEnd(d, k) := SetAlignment(d[LineEnd(d, k)], a)] else d
  }

  /** The symbol that a remote erasure removes: the one at the position, or else the first one of the
  line that would hold it. */
  function Target(d: Document, p: Position): nat
    requires CountLess(d, p) < |d|
  {
    var k := CountLess(d, p);
    if d[k].position == p then k else LineStart(d, k)
  }

  function AlignEach(d: Document, ss: seq<Symbol>): Document {
    if ss == [] then d
    else AlignAt(AlignEach(d, ss[..|ss| - 1]), ss[|ss| - 1].position, ss[|ss| - 1].format.align)
  }

  /** The alignment pass after a remote paste. */
  function AlignAll(d: Document, ss: seq<Symbol>): Document {
    AlignEach(d, LineEnders(ss))
  }

  /** The alignment pass takes the symbols that end a line one after the other. */
  lemma {:induction false} AlignAllMore(d: Document, ss: seq<Symbol>, s: Symbol)
    ensures AlignAll(d, []) == d
    ensures AlignAll(d, ss + [s])
         == if s.value == TERMINATOR || s.value == NEWLINE then AlignAt(AlignAll(d, ss), s.position, s.format.align)
            else AlignAll(d, ss)
  {
    ShownParts(ss, s);
    if s.value == TERMINATOR || s.value == NEWLINE {
      AlignEachMore(d, LineEnders(ss), s);
    } else {
      assert LineEnders(ss + [s]) == LineEnders(ss);
    }
  }

  lemma {:induction false} AlignEachMore(d: Document, ss: seq<Symbol>, s: Symbol)
    ensures AlignEach(d, ss + [s]) == AlignAt(AlignEach(d, ss), s.position, s.format.align)
  {
    assert (ss + [s])[..|ss + [s]| - 1] == ss;
  }

  /** Aligning touches one symbol: the end of the line that holds the position, or would hold it. */
  lemma {:induction false} AlignAtMeaning(d: Document, p: Position, a: Alignment)
    ensures var k, r := CountLess(d, p), AlignAt(d, p, a);
            if !InRange(d, p) || k == |d| then r == d
            else
              exists e :: k <= e < |d|
                && (forall i :: k <= i < e ==> d[i].value != NEWLINE) && (e == |d| - 1 || d[e].value == NEWLINE)
                && r == d[e := Symbol(d[e].value, d[e].position, d[e].counter, Format(a, d[e].format.style))]
  {
    var k := CountLess(d, p);
    if InRange(d, p) && k < |d| {
      LineEndMeaning(d, k);
    }
  }

  lemma {:induction false} LineEndMeaning(d: Document, k: nat)
    requires k < |d|
    ensures forall i :: k <= i < LineEnd(d, k) ==> d[i].value != NEWLINE
    ensures LineEnd(d, k) == |d| - 1 || d[LineEnd(d, k)].value == NEWLINE
    decreases |d| - k
  {
    if k < |d| - 1 && d[k].value != NEWLINE {
      LineEndMeaning(d, k + 1);
    }
  }

  /** What a client makes of a remote erasure. */
  function AfterErase(d: Document, p: Position): Document {
    if CountLess(d, p) < |d| && InRange(d, p) then RemoveAt(d, Target(d, p)) else d
  }

  /** What a client makes of a remote change of format. */
  function AfterChange(d: Document, s: Symbol): Document {
    if CountLess(d, s.position) < |d| && InRange(d, s.position) then d[Target(d, s.position) := s] else d
  }

  predicate SamePositions(d: Document, d': Document) {
    |d| == |d'| && forall i :: 0 <= i < |d| ==> d[i].position == d'[i].position
  }

  predicate SameShape(lines: seq<Line>, lines': seq<Line>) {
    |lines| == |lines'| && forall i :: 0 <= i < |lines| ==> |lines[i]| == |lines'[i]|
  }

  /** The document invariant: canonical lines, strictly sorted well-formed positions, and a size
  that does not count the terminator. */
  predicate ValidLines(lines: seq<Line>, size: int) {
    && Canonical(lines)
    && Sorted(Flatten(lines)) && AllWellFormed(Flatten(lines))
    && size == |Flatten(lines)| - 1
  }

  /** What a successful lookup points at: the line that holds `p` or would hold it, and the symbol at
  `p`, or else the line's first one. */
  ghost predicate Found(lines: seq<Line>, p: Position, line: int, index: int) {
    && 0 <= line < |lines| && 0 <= index < |lines[line]|
    && Offset(lines, line, 0) <= CountLess(Flatten(lines), p) < Offset(lines, line, |lines[line]|)
    && if Has(Flatten(lines), p) then lines[line][index].position == p else index == 0
  }

  // ----- What a client makes of any erasure or change of format -----

  /** The line that holds the symbol at a flat offset. */
  function LineOf(lines: seq<Line>, k: nat): (line: nat)
    requires k < |Flatten(lines)|
    ensures line < |lines|
  {
    if k < |lines[0]| then 0 else 1 + LineOf(lines[1..], k - |lines[0]|)
  }

  /** The place a successful lookup points at (`FoundIsLocated`). */
  function Locate(lines: seq<Line>, p: Position): (int, int)
    requires CountLess(Flatten(lines), p) < |Flatten(lines)|
  {
    var k := CountLess(Flatten(lines), p);
    var line := LineOf(lines, k);
    (line, if Flatten(lines)[k].position == p then k - Offset(lines, line, 0) else 0)
  }

  predicate Inside(lines: seq<Line>, place: (int, int)) {
    0 <= place.0 < |lines| && 0 <= place.1 < |lines[place.0]|
  }

  /** Erasing one symbol: whatever the lookup points at goes, by one of the three branches. */
  function EraseOne(lines: seq<Line>, s: Symbol): seq<Line>
    requires CountLess(Flatten(lines), s.position) < |Flatten(lines)|
  {
    var place := Locate(lines, s.position);
    if Inside(lines, place) then EraseBranches(lines, place.0, place.1, s.value == NEWLINE) else lines
  }

  /** The loop over the symbols of an erasure, which ends at the first one outside the document's range. */
  function EraseUntil(lines: seq<Line>, ss: seq<Symbol>): seq<Line>
    decreases |ss|
  {
    if ss == [] || Stops(Flatten(lines), ss[0].position) then lines
    else EraseUntil(EraseOne(lines, ss[0]), ss[1..])
  }

  /** The loop reaches the end of the message. */
  predicate ErasesAll(lines: seq<Line>, ss: seq<Symbol>)
    decreases |ss|
  {
    ss == [] || (!Stops(Flatten(lines), ss[0].position) && ErasesAll(EraseOne(lines, ss[0]), ss[1..]))
  }

  /** Every lookup of the loop is defined: the document does not run out of lines, nor ends in an empty one. */
  predicate Outlasts(lines: seq<Line>, ss: seq<Symbol>)
    decreases |ss|
  {
    ss == []
    || (Lookable(lines, ss[0].position)
        && (Stops(Flatten(lines), ss[0].position) || Outlasts(EraseOne(lines, ss[0]), ss[1..])))
  }

  predicate Stops(d: Document, p: Position) {
    !InRange(d, p) || CountLess(d, p) == |d|
  }

  /** Changing one symbol: it replaces what the lookup points at. While the order is intact, that is the
  symbol at its position, or else the first one of the line that would hold it. */
  ghost predicate ChangedOnce(lines: seq<Line>, s: Symbol, lines': seq<Line>) {
    exists line, index ::
      && Inside(lines, (line, index)) && lines' == lines[line := lines[line][index := s]]
      && (Sorted(Flatten(lines)) ==> Found(lines, s.position, line, index))
  }

  /** The loop over the symbols of a change; `all` tells whether it reaches the end of the message. */
  ghost predicate ChangedUntil(lines: seq<Line>, ss: seq<Symbol>, lines': seq<Line>, all: bool)
    decreases |ss|
  {
    if ss == [] || !InRange(Flatten(lines), ss[0].position) then lines' == lines && (all <==> ss == [])
    else exists mid :: ChangedOnce(lines, ss[0], mid) && ChangedUntil(mid, ss[1..], lines', all)
  }

  /** Above the last symbol of the line before and not above this line's own. */
  predicate BelongsTo(lines: seq<Line>, p: Position, line: int) {
    && 0 <= line < |lines| && lines[line] != []
    && (line > 0 ==> lines[line - 1] != [] && Less(LastPosition(lines, line - 1), p))
    && !Less(LastPosition(lines, line), p)
  }

  /** What the search for a symbol ends with, seen from the one line it reads. */
  predicate Points(lines: seq<Line>, p: Position, line: int, index: int) {
    && Inside(lines, (line, index))
    && (lines[line][index].position == p
        || (BelongsTo(lines, p, line) && (Sorted(lines[line]) ==> !Has(lines[line], p) && index == 0)))
  }

  /** The same for the search of a place to insert at. */
  predicate Aimed(lines: seq<Line>, p: Position, line: int, index: int) {
    && Inside(lines, (line, index))
    && (lines[line][index].position == p || (BelongsTo(lines, p, line) && Fits(lines[line], index, p)))
  }

  class CRDT {
    var symbols: seq<Line>
    var siteId: int
    var counter: int
    var strategyCache: StrategyCache
    var size: int

    ghost function Flat(): Document
      reads this
    {
      Flatten(symbols)
    }

    ghost predicate Valid()
      reads this
    {
      ValidLines(symbols, size)
    }

    constructor (site: int)
      ensures Valid() && Flat() == [] && symbols == [[]] && size == -1
      ensures siteId == site && counter == 0 && strategyCache == map[]
    {
      symbols, siteId, counter, strategyCache, size := [[]], site, 0, map[], -1;
      new;
      FlattenOne([]);
    }

    // ----- Searching -----

    method FindInsertIndexInLine(p: Position, line: Line) returns (index: int)
      requires Sorted(line)
      ensures line != [] && !Less(line[|line| - 1].position, p) ==> 0 <= index < |line| && Fits(line, index, p)
      ensures line != [] && Less(line[|line| - 1].position, p) ==> index == |symbols|
      ensures line == [] ==> index == 0
    {
      var left, right := 0, |line| - 1;
      if |line| == 0 || Compare(p, line[left].position) < 0 {
        if line != [] {
          Antisymmetric(p, line[0].position);
          BetweenFits(line, 0, p);
          FitsSeparates(line, 0, p);
          Antisymmetric(p, line[right].position);
        }
        return left;
      }
      Antisymmetric(p, line[right].position);
      if Compare(p, line[right].position) > 0 {
        return |symbols|;
      }
      while left + 1 < right
        invariant 0 <= left <= right == |line| - 1 || 0 <= left < right < |line|
        invariant !Less(p, line[left].position) && !Less(line[right].position, p)
      {
        var mid := left + (right - left) / 2;
        var compareNum := Compare(p, line[mid].position);
        Antisymmetric(p, line[mid].position);
        if compareNum == 0 {
          Antisymmetric(p, p);
          return mid;
        } else if compareNum > 0 {
          left := mid;
        } else {
          right := mid;
        }
      }
      Antisymmetric(p, line[left].position);
      index := if Compare(p, line[left].position) == 0 then left else right;
    }

    method FindIndexInLine(p: Position, line: Line) returns (index: int)
      ensures line != [] && !Less(line[|line| - 1].position, p) ==>
                && 0 <= index < |line|
                && (Sorted(line) && Has(line, p) ==> line[index].position == p)
                && (Sorted(line) && !Has(line, p) ==> index == 0)
      ensures line == [] ==> index == 0
    {
      var left, right := 0, |line| - 1;
      if |line| == 0 || Compare(p, line[left].position) < 0 {
        if line != [] && Sorted(line) {
          Antisymmetric(p, line[0].position);
          BetweenFits(line, 0, p);
        }
        return left;
      }
      Antisymmetric(p, line[right].position);
      if Compare(p, line[right].position) > 0 {
        return |symbols|;
      }
      while left + 1 < right
        invariant 0 <= left <= right < |line|
        invariant !Less(p, line[left].position) && !Less(line[right].position, p)
      {
        var mid := left + (right - left) / 2;
        var compareNum := Compare(p, line[mid].position);
        Antisymmetric(p, line[mid].position);
        if compareNum == 0 {
          return mid;
        } else if compareNum > 0 {
          left := mid;
        } else {
          right := mid;
        }
      }
      Antisymmetric(p, line[left].position);
      Antisymmetric(p, line[right].position);
      if Compare(p, line[left].position) == 0 {
        index := left;
      } else if Compare(p, line[right].position) == 0 {
        index := right;
      } else {
        if Sorted(line) {
          BetweenFits(line, right, p);
        }
        index := 0; // `return false`
      }
    }

    /** The binary search over lines, by each line's last symbol: two neighbouring candidate
    lines remain, or a line that ends exactly at `p`. */
    method NarrowToLines(p: Position) returns (exact: bool, minLine: nat, maxLine: nat)
      requires Filled(symbols) && !Less(LastPosition(symbols, |symbols| - 1), p)
      ensures minLine <= maxLine < |symbols| && maxLine <= minLine + 1
      ensures symbols[minLine] != [] && symbols[maxLine] != []
      ensures exact ==> LastPosition(symbols, minLine) == p
      ensures !exact ==> (minLine > 0 ==> Less(LastPosition(symbols, minLine), p))
      ensures !exact ==> !Less(LastPosition(symbols, maxLine), p)
      ensures minLine == maxLine && !exact ==> minLine == 0
    {
      exact, minLine, maxLine := false, 0, |symbols| - 1;
      while minLine + 1 < maxLine
        invariant minLine <= maxLine < |symbols|
        invariant minLine == maxLine ==> minLine == 0
        invariant symbols[maxLine] != []
        invariant minLine > 0 ==> Less(LastPosition(symbols, minLine), p)
        invariant !Less(LastPosition(symbols, maxLine), p)
      {
        var midLine := minLine + (maxLine - minLine) / 2;
        var currentLine := symbols[midLine];
        var lastChar := currentLine[|currentLine| - 1];
        Antisymmetric(p, lastChar.position);
        if Compare(p, lastChar.position) == 0 {
          return true, midLine, midLine;
        } else if Compare(p, lastChar.position) < 0 {
          maxLine := midLine;
        } else {
          minLine := midLine;
        }
      }
    }

    /** Of two neighbouring lines, the one whose range `p` falls in. */
    method ChooseLine(p: Position, minLine: nat, maxLine: nat) returns (line: nat)
      requires minLine <= maxLine < |symbols| && maxLine <= minLine + 1
      requires symbols[minLine] != [] && symbols[maxLine] != []
      requires minLine > 0 ==> Less(LastPosition(symbols, minLine), p)
      requires !Less(LastPosition(symbols, maxLine), p)
      requires minLine == maxLine ==> minLine == 0
      ensures line < |symbols| && symbols[line] != []
      ensures line > 0 ==> symbols[line - 1] != [] && Less(LastPosition(symbols, line - 1), p)
      ensures !Less(LastPosition(symbols, line), p)
    {
      var minCurrentLine := symbols[minLine];
      var minLastChar := minCurrentLine[|minCurrentLine| - 1];
      Antisymmetric(p, minLastChar.position);
      line := if Compare(p, minLastChar.position) <= 0 then minLine else maxLine;
    }

    /** The place where a remote symbol goes: its flat offset is the number of smaller symbols. */
    method FindInsertPosition(p: Position) returns (line: int, index: int)
      requires Valid() && Searchable(Flat(), p)
      ensures Place(symbols, line, index)
      ensures Offset(symbols, line, index) == CountLess(Flat(), p)
    {
      SearchableByLines(symbols, p);
      var totalLines := |symbols|;
      var lastLine := symbols[totalLines - 1];
      if (|symbols| == 1 && |symbols[0]| == 0) || Compare(p, symbols[0][0].position) <= 0 {
        AtStart(symbols, p);
        return 0, 0;
      }
      var lastChar := lastLine[|lastLine| - 1];
      Antisymmetric(p, lastChar.position);
      if Compare(p, lastChar.position) > 0 {
        AtEnd(symbols, p);
        line, index := FindEndPosition(lastChar, lastLine, totalLines);
      } else {
        LinesSorted(symbols);
        line, index := FindInsertInRange(p);
        AimedPlace(symbols, line, index, p);
      }
    }

    method FindInsertInRange(p: Position) returns (line: int, index: int)
      requires Filled(symbols) && !Less(LastPosition(symbols, |symbols| - 1), p)
      requires forall i :: 0 <= i < |symbols| ==> Sorted(symbols[i])
      ensures Aimed(symbols, p, line, index)
    {
      var exact, minLine, maxLine := NarrowToLines(p);
      if exact {
        line, index := minLine, |symbols[minLine]| - 1;
      } else {
        line := ChooseLine(p, minLine, maxLine);
        index := FindInsertIndexInLine(p, symbols[line]);
      }
    }

    method FindEndPosition(lastChar: Symbol, lastLine: Line, totalLines: int) returns (line: int, index: int)
      ensures if lastChar.value == NEWLINE then line == totalLines && index == 0
              else line == totalLines - 1 && index == |lastLine|
    {
      if lastChar.value == NEWLINE {
        line, index := totalLines, 0;
      } else {
        line, index := totalLines - 1, |lastLine|;
      }
    }

    /** Looks a symbol up. Between the first and the last symbol it reports success even when the
    symbol is absent, and then points at the start of the line that would hold it. */
    method FindPosition(p: Position) returns (found: bool, line: int, index: int)
      requires Lookable(symbols, p)
      ensures found <==> InRange(Flat(), p)
      ensures found ==> Filled(symbols) && 0 <= line < |symbols| && 0 <= index < |symbols[line]|
      ensures found && Sorted(Flat()) ==> Found(symbols, p, line, index)
    {
      RangeByLines(symbols, p);
      var lastLine := symbols[|symbols| - 1];
      if (|symbols| == 1 && |symbols[0]| == 0) || Compare(p, symbols[0][0].position) < 0 {
        return false, 0, 0;
      }
      var lastChar := lastLine[|lastLine| - 1];
      Antisymmetric(p, lastChar.position);
      if Compare(p, lastChar.position) > 0 {
        return false, 0, 0;
      }
      found, line, index := FindInRange(p);
      if Sorted(Flat()) {
        PointedAt(symbols, p, line, index);
      }
    }

    method FindInRange(p: Position) returns (found: bool, line: int, index: int)
      requires Filled(symbols) && !Less(LastPosition(symbols, |symbols| - 1), p)
      ensures found && Points(symbols, p, line, index)
    {
      var exact, minLine, maxLine := NarrowToLines(p);
      if exact {
        return true, minLine, |symbols[minLine]| - 1;
      }
      found := true;
      line, index := FindBetween(p, minLine, maxLine);
    }

    method FindBetween(p: Position, minLine: nat, maxLine: nat) returns (line: nat, index: int)
      requires minLine <= maxLine < |symbols| && maxLine <= minLine + 1
      requires symbols[minLine] != [] && symbols[maxLine] != []
      requires minLine > 0 ==> Less(LastPosition(symbols, minLine), p)
      requires !Less(LastPosition(symbols, maxLine), p)
      requires minLine == maxLine ==> minLine == 0
      ensures Points(symbols, p, line, index)
    {
      line := ChooseLine(p, minLine, maxLine);
      index := FindOnLine(p, line);
    }

    method FindOnLine(p: Position, line: nat) returns (index: int)
      requires line < |symbols| && symbols[line] != []
      requires line > 0 ==> symbols[line - 1] != [] && Less(LastPosition(symbols, line - 1), p)
      requires !Less(LastPosition(symbols, line), p)
      ensures Points(symbols, p, line, index)
    {
      index := FindIndexInLine(p, symbols[line]);
    }

    // ----- Editing at this site -----

    method FindPosBefore(line: nat, index: nat) returns (p: Position)
      requires Canonical(symbols) && Within(symbols, line, index)
      requires line == |symbols| ==> symbols[line - 1] != []
      ensures Offset(symbols, line, index) <= |Flat()|
      ensures p == PositionBefore(Flat(), Offset(symbols, line, index))
    {
      var newLine, newIndex := line, index;
      NeighbourBefore(symbols, line, index);
      if index == 0 && line == 0 {
        return [];
      } else if index == 0 && line != 0 {
        newLine := line - 1;
        newIndex := |symbols[newLine]|;
      }
      p := symbols[newLine][newIndex - 1].position;
    }

    method FindPosAfter(line: nat, index: nat) returns (p: Position)
      requires symbols != [] && Within(symbols, line, index)
      requires line < |symbols| ==> Spot(symbols, line, index)
      ensures Offset(symbols, line, index) <= |Flat()|
      ensures p == PositionAfter(Flat(), Offset(symbols, line, index))
    {
      var newLine, newIndex := line, index;
      var numLines := |symbols|;
      var numChars := if line < |symbols| then |symbols[line]| else 0;
      NeighbourAfter(symbols, line, index);
      if line == numLines - 1 && index == numChars {
        return [];
      } else if line < numLines - 1 && index == numChars {
        newLine, newIndex := line + 1, 0;
      } else if line > numLines - 1 && index == 0 {
        return [];
      }
      p := symbols[newLine][newIndex].position;
    }

    method InsertChar(s: Symbol, line: nat, index: nat)
      requires line < |symbols| && index <= |symbols[line]|
      modifies this`symbols
      ensures symbols == InsertInLines(old(symbols), line, index, s)
    {
      if s.value == NEWLINE {
        var lineBefore, lineAfter := symbols[line][..index], symbols[line][index..];
        lineBefore := lineBefore + [s];
        symbols := symbols[line := lineBefore];
        symbols := symbols[..line + 1] + [lineAfter] + symbols[line + 1..];
      } else {
        symbols := symbols[line := InsertAt(symbols[line], index, s)];
      }
      assert symbols == InsertInLines(old(symbols), line, index, s);
    }

    /** The alignment is chosen only for a symbol that ends a line; otherwise the original leaves it
    uninitialised, so here it is arbitrary. */
    method NewSymbol(value: CharCode, position: Position, format: Format) returns (s: Symbol)
      modifies this`counter
      ensures counter == old(counter) + 1
      ensures s.position == position && TypedAs(s, value, counter, format)
    {
      counter := counter + 1;
      var align: Alignment :| true;
      s := Symbol(value, position, counter, Format(align, format.style));
      if s.value == TERMINATOR || s.value == NEWLINE {
        s := SetAlignment(s, format.align);
      }
    }

    /** Generates a position at a place and inserts a symbol there; nothing changes when generation throws. */
    method InsertGenerated(line: nat, index: nat, value: CharCode, format: Format) returns (r: Result<Symbol>)
      requires Valid() && Spot(symbols, line, index)
      modifies this`symbols, this`size, this`counter, this`strategyCache
      ensures Valid() <==> r.Err? || Place(old(symbols), line, index)
      ensures Offset(old(symbols), line, index) <= |old(Flat())|
      ensures var d, k := old(Flat()), Offset(old(symbols), line, index);
              && (r.Err? <==> Blocked(PositionBefore(d, k), PositionAfter(d, k), siteId))
              && (r.Ok? ==>
                    && Generated(PositionBefore(d, k), r.value.position, PositionAfter(d, k), siteId)
                    && Drawn(PositionBefore(d, k), r.value.position, PositionAfter(d, k), siteId, 0,
                             old(strategyCache), strategyCache))
      ensures r.Err? ==>
                && r.error == InvalidOrdering && symbols == old(symbols)
                && counter == old(counter) && strategyCache == old(strategyCache)
      ensures r.Ok? ==>
                && TypedAs(r.value, value, counter, format) && counter == old(counter) + 1
                && symbols == InsertInLines(old(symbols), line, index, r.value)
                && Flat() == InsertAt(old(Flat()), Offset(old(symbols), line, index), r.value)
    {
      var posBefore := FindPosBefore(line, index);
      var posAfter := FindPosAfter(line, index);
      var newPos: Position := [];
      GapAt(Flat(), Offset(symbols, line, index));
      assert posBefore == Tail(posBefore, 0) && posAfter == Tail(posAfter, 0);
      var position, cache := GeneratePositionBetween(siteId, posBefore, posAfter, newPos, 0, strategyCache);
      strategyCache := cache;
      if position.Err? {
        return Err(position.error);
      }
      assert position.value[|newPos|..] == position.value;
      var s := NewSymbol(value, position.value, format);
      GeneratedFits(Flat(), Offset(symbols, line, index), s, siteId);
      InsertFlat(symbols, line, index, s);
      InsertKeepsLines(symbols, line, index, s);
      InsertChar(s, line, index);
      size := size + 1;
      r := Ok(s);
    }

    /** Types one symbol; the result is the symbol to broadcast. The lines stay in order exactly when it
    does not go behind the newline of its line. */
    method LocalInsert(line: int, index: int, value: CharCode, format: Format) returns (r: Result<Symbol>)
      requires Valid() && (0 <= line && 0 <= index ==> Spot(symbols, line, index))
      modifies this`symbols, this`size, this`counter, this`strategyCache
      ensures Valid() <==> r.Err? || Place(old(symbols), line, index)
      ensures r == Err(IndexOutOfBound) <==> line < 0 || index < 0
      ensures 0 <= line && 0 <= index ==> Offset(old(symbols), line, index) <= |old(Flat())|
      ensures r.Err? ==>
                symbols == old(symbols) && counter == old(counter) && strategyCache == old(strategyCache)
      ensures 0 <= line && 0 <= index ==>
                var d, k := old(Flat()), Offset(old(symbols), line, index);
                && (r.Err? <==> Blocked(PositionBefore(d, k), PositionAfter(d, k), siteId))
                && (r.Err? ==> r.error == InvalidOrdering)
                && (r.Ok? ==>
                      && TypedAs(r.value, value, counter, format) && counter == old(counter) + 1
                      && Generated(PositionBefore(d, k), r.value.position, PositionAfter(d, k), siteId)
                      && Drawn(PositionBefore(d, k), r.value.position, PositionAfter(d, k), siteId, 0,
                               old(strategyCache), strategyCache)
                      && Flat() == InsertAt(d, k, r.value))
    {
      if line < 0 || index < 0 {
        return Err(IndexOutOfBound);
      }
      r := InsertGenerated(line, index, value, format);
    }

    /** Pastes a text; the result is broadcast, and `line` and `index` come back behind the text. Only
    the first symbol can find its gap blocked, so a paste goes through as a whole or changes nothing. */
    method LocalInsertGroup(line0: int, index0: int, partial: seq<CharCode>, format: Format)
      returns (line: int, index: int, r: Result<seq<Symbol>>)
      requires Valid() && (0 <= line0 && 0 <= index0 ==> Place(symbols, line0, index0))
      modifies this`symbols, this`size, this`counter, this`strategyCache
      ensures Valid()
      ensures r == Err(IndexOutOfBound) <==> line0 < 0 || index0 < 0
      ensures 0 <= line0 && 0 <= index0 ==>
                && Offset(old(symbols), line0, index0) <= |old(Flat())|
                && (r.Err? <==> partial != [] && BlockedPlace(old(symbols), line0, index0, siteId))
                && (r.Err? ==> r.error == InvalidOrdering)
      ensures r.Err? ==>
                && symbols == old(symbols) && counter == old(counter) && strategyCache == old(strategyCache)
                && line == line0 && index == index0
      ensures r.Ok? ==>
                && |r.value| == |partial| && counter == old(counter) + |partial|
                && AllTypedAs(r.value, partial, old(counter), format)
                && Pasted(old(Flat()), Offset(old(symbols), line0, index0), r.value, Flat(), siteId,
                          old(strategyCache), strategyCache)
                && Place(symbols, line, index)
                && Offset(symbols, line, index) == Offset(old(symbols), line0, index0) + |r.value|
    {
      if line0 < 0 || index0 < 0 {
        return line0, index0, Err(IndexOutOfBound);
      }
      line, index, r := InsertGroup(line0, index0, partial, format);
    }

    /** One round of a paste: inserts a symbol and moves behind it. */
    method InsertNext(line0: nat, index0: nat, value: CharCode, format: Format)
      returns (line: nat, index: nat, s: Result<Symbol>)
      requires Valid() && Place(symbols, line0, index0)
      modifies this`symbols, this`size, this`counter, this`strategyCache
      ensures Valid() && Place(symbols, line, index)
      ensures Offset(old(symbols), line0, index0) <= |old(Flat())|
      ensures s.Err? <==> BlockedPlace(old(symbols), line0, index0, siteId)
      ensures s.Err? ==>
                && s.error == InvalidOrdering && line == line0 && index == index0
                && symbols == old(symbols) && counter == old(counter) && strategyCache == old(strategyCache)
      ensures s.Ok? ==>
                && !BlockedPlace(symbols, line, index, siteId)
                && TypedAs(s.value, value, counter, format) && counter == old(counter) + 1
                && NextPosition(old(Flat()), Offset(old(symbols), line0, index0), s.value.position, siteId,
                                old(strategyCache), strategyCache)
                && Flat() == InsertAt(old(Flat()), Offset(old(symbols), line0, index0), s.value)
                && Offset(symbols, line, index) == Offset(old(symbols), line0, index0) + 1
    {
      ghost var before := symbols;
      line, index := line0, index0;
      PlaceIsSpot(symbols, line, index);
      s := InsertGenerated(line, index, value, format);
      if s.Ok? {
        MovesBehind(before, line, index, s.value, siteId);
        if s.value.value == NEWLINE {
          line, index := line + 1, 0;
        } else {
          index := index + 1;
        }
      }
    }

    /** Where a paste that began at offset `k` of `d` is, with `vector` inserted: behind these symbols. */
    ghost predicate Pasting(d: Document, k: nat, vector: seq<Symbol>, text: seq<CharCode>, format: Format,
                            counter0: int, cache: StrategyCache, line: int, index: int)
      reads this
    {
      && Valid() && Place(symbols, line, index) && Offset(symbols, line, index) == k + |vector|
      && counter == counter0 + |vector| && AllTypedAs(vector, text, counter0, format)
      && Pasted(d, k, vector, Flat(), siteId, cache, strategyCache)
    }

    /** The same round, seen from where the paste began. */
    method PasteNext(line0: nat, index0: nat, value: CharCode, format: Format, ghost text: seq<CharCode>,
                     ghost d: Document, ghost k: nat, ghost vector: seq<Symbol>, ghost counter0: int,
                     ghost cache: StrategyCache)
      returns (line: nat, index: nat, s: Result<Symbol>)
      requires Pasting(d, k, vector, text, format, counter0, cache, line0, index0)
      requires |vector| < |text| && value == text[|vector|]
      modifies this`symbols, this`size, this`counter, this`strategyCache
      ensures s.Err? <==> BlockedPlace(old(symbols), line0, index0, siteId)
      ensures s.Err? ==>
                && s.error == InvalidOrdering && line == line0 && index == index0
                && symbols == old(symbols) && size == old(size)
                && counter == old(counter) && strategyCache == old(strategyCache)
      ensures s.Ok? ==>
                && !BlockedPlace(symbols, line, index, siteId)
                && Pasting(d, k, vector + [s.value], text, format, counter0, cache, line, index)
    {
      ghost var mid := strategyCache;
      line, index, s := InsertNext(line0, index0, value, format);
      if s.Ok? {
        PastedMore(d, k, vector, s.value, siteId, cache, mid, strategyCache);
      }
    }

    method InsertGroup(line0: nat, index0: nat, partial: seq<CharCode>, format: Format)
      returns (line: nat, index: nat, r: Result<seq<Symbol>>)
      requires Valid() && Place(symbols, line0, index0)
      modifies this`symbols, this`size, this`counter, this`strategyCache
      ensures Valid() && Offset(old(symbols), line0, index0) <= |old(Flat())|
      ensures r.Err? <==> partial != [] && BlockedPlace(old(symbols), line0, index0, siteId)
      ensures r.Err? ==>
                && r.error == InvalidOrdering && line == line0 && index == index0
                && symbols == old(symbols) && counter == old(counter) && strategyCache == old(strategyCache)
      ensures r.Ok? ==>
                && |r.value| == |partial|
                && Pasting(old(Flat()), Offset(old(symbols), line0, index0), r.value, partial, format,
                           old(counter), old(strategyCache), line, index)
    {
      ghost var d, k, blocked := Flat(), Offset(symbols, line0, index0), BlockedPlace(symbols, line0, index0, siteId);
      ghost var counter0, cache := counter, strategyCache;
      line, index := line0, index0;
      var vector: seq<Symbol> := [];
      PasteStarts(symbols, line, index, siteId, cache);
      for i := 0 to |partial|
        invariant |vector| == i && Pasting(d, k, vector, partial, format, counter0, cache, line, index)
        invariant i == 0 ==>
                    && symbols == old(symbols) && size == old(size) && counter == old(counter)
                    && strategyCache == old(strategyCache) && line == line0 && index == index0
        invariant i > 0 ==> !blocked
        invariant BlockedPlace(symbols, line, index, siteId) <==> i == 0 && blocked
      {
        var s;
        line, index, s := PasteNext(line, index, partial[i], format, partial, d, k, vector, counter0, cache);
        if s.Err? {
          return line, index, Err(s.error);
        }
        vector := vector + [s.value];
      }
      r := Ok(vector);
    }

    /** Erases `length` symbols from a place on; the result is the list to broadcast. */
    method LocalErase(line: nat, index: nat, length: nat) returns (erased: seq<Symbol>)
      requires Valid() && Place(symbols, line, index)
      requires Offset(symbols, line, index) + length <= |Flat()|
      modifies this`symbols, this`size
      ensures Valid() && Place(symbols, line, index)
      ensures var d, k := old(Flat()), Offset(old(symbols), line, index);
              erased == d[k..k + length] && Flat() == Cut(d, k, length)
              && Offset(symbols, line, index) == k
    {
      ghost var d, k := Flat(), Offset(symbols, line, index);
      erased := [];
      for i := 0 to length
        invariant Valid() && Place(symbols, line, index) && Offset(symbols, line, index) == k
        invariant erased == d[k..k + i] && Flat() == Cut(d, k, i)
      {
        var s := EraseNext(line, index, d, k, i);
        erased := erased + [s];
      }
    }

    method EraseNext(line: nat, index: nat, ghost d: Document, ghost k: nat, ghost i: nat) returns (s: Symbol)
      requires Valid() && Place(symbols, line, index) && Offset(symbols, line, index) == k
      requires k + i < |d| && Flat() == Cut(d, k, i)
      modifies this`symbols, this`size
      ensures Valid() && Place(symbols, line, index) && Offset(symbols, line, index) == k
      ensures s == d[k + i] && Flat() == Cut(d, k, i + 1)
    {
      CutOneMore(d, k, i);
      PlaceHoldsSymbol(symbols, line, index);
      SymbolAt(symbols, line, index);
      s := symbols[line][index];
      EraseAt(line, index, s.value == NEWLINE);
    }

    /** Removes one symbol as `localErase` does, appending the next line when a newline goes. */
    method EraseAt(line: nat, index: nat, newLineRemoved: bool)
      requires Valid() && line < |symbols| && index < |symbols[line]|
      requires newLineRemoved <==> symbols[line][index].value == NEWLINE
      modifies this`symbols, this`size
      ensures Valid() && symbols == EraseInLines(old(symbols), line, index, newLineRemoved)
      ensures Place(symbols, line, index) && Offset(symbols, line, index) == Offset(old(symbols), line, index)
      ensures Offset(old(symbols), line, index) < |old(Flat())|
      ensures Flat() == RemoveAt(old(Flat()), Offset(old(symbols), line, index))
    {
      EraseAtOutcome(symbols, size, line, index, newLineRemoved);
      ShortenLine(line, index, newLineRemoved);
      size := size - 1;
    }

    method ShortenLine(line: nat, index: nat, newLineRemoved: bool)
      requires line < |symbols| && index < |symbols[line]|
      modifies this`symbols
      ensures symbols == EraseInLines(old(symbols), line, index, newLineRemoved)
    {
      symbols := symbols[line := RemoveAt(symbols[line], index)];
      if newLineRemoved && line + 1 < |symbols| {
        symbols := symbols[line := symbols[line] + symbols[line + 1]];
        symbols := symbols[..line + 1] + symbols[line + 2..];
      }
      assert symbols == EraseInLines(old(symbols), line, index, newLineRemoved);
    }

    // ----- Messages from other sites -----

    /** Inserts a remote symbol; the result is the place to show it at, none for the terminator. The
    document stays valid exactly when the position is well formed and new. */
    method HandleRemoteInsert(s: Symbol) returns (shown: Option<(int, int)>)
      requires Valid() && Searchable(Flat(), s.position)
      modifies this`symbols, this`size
      ensures Flat() == SortedInsert(old(Flat()), s)
      ensures Valid() <==> WellFormed(s.position) && !Has(old(Flat()), s.position)
      ensures shown.None? <==> s.value == TERMINATOR
      ensures shown.Some? ==>
                && Place(old(symbols), shown.value.0, shown.value.1)
                && Offset(old(symbols), shown.value.0, shown.value.1) == CountLess(old(Flat()), s.position)
    {
      var line, index := InsertRemote(s);
      shown := if s.value == TERMINATOR then None else Some((line, index));
    }

    method InsertRemote(s: Symbol) returns (line: nat, index: nat)
      requires Valid() && Searchable(Flat(), s.position)
      modifies this`symbols, this`size
      ensures Flat() == SortedInsert(old(Flat()), s)
      ensures Valid() <==> WellFormed(s.position) && !Has(old(Flat()), s.position)
      ensures Place(old(symbols), line, index)
      ensures Offset(old(symbols), line, index) == CountLess(old(Flat()), s.position)
    {
      line, index := FindInsertPosition(s.position);
      InsertValidExactly(Flat(), s);
      InsertFlat(symbols, line, index, s);
      InsertCanonical(symbols, line, index, s);
      InsertChar(s, line, index);
      size := size + 1;
    }

    /** Inserts remote symbols one by one, then gives the lines of pasted newlines their alignment.
    The result is what the text editor shows: the first place and the text. */
    method HandleRemotePaste(ss: seq<Symbol>) returns (firstLine: int, firstIndex: int, partial: seq<CharCode>)
      requires Valid() && Insertable(Flat(), ss)
      modifies this`symbols, this`size
      ensures Valid() && Flat() == AlignAll(InsertAll(old(Flat()), ss), ss)
      ensures partial == Visible(ss)
      ensures ss != [] ==>
                && Place(old(symbols), firstLine, firstIndex)
                && Offset(old(symbols), firstLine, firstIndex) == CountLess(old(Flat()), ss[0].position)
    {
      ghost var d := Flat();
      var alignChanges: seq<Symbol>;
      firstLine, firstIndex, partial, alignChanges := InsertPasted(ss);
      AllInserted(d, ss);
      EndersAmong(ss, Flat());
      AlignLines(alignChanges);
    }

    method AlignLines(alignChanges: seq<Symbol>)
      requires Valid() && Terminated(Flat())
      requires forall j :: 0 <= j < |alignChanges| ==> Has(Flat(), alignChanges[j].position)
      modifies this`symbols
      ensures Valid() && Flat() == AlignEach(old(Flat()), alignChanges)
    {
      ghost var d := Flat();
      for i := 0 to |alignChanges|
        invariant Valid() && Terminated(Flat()) && Flat() == AlignEach(d, alignChanges[..i])
        invariant SamePositions(d, Flat())
      {
        var s := alignChanges[i];
        assert alignChanges[..i + 1][..i] == alignChanges[..i];
        HasSamePositions(d, Flat(), s.position);
        AlignKeepsPositions(Flat(), s.position, s.format.align);
        var shown := HandleRemoteAlignChange(s);
      }
      assert alignChanges[..|alignChanges|] == alignChanges;
    }

    method InsertPasted(ss: seq<Symbol>)
      returns (firstLine: int, firstIndex: int, partial: seq<CharCode>, alignChanges: seq<Symbol>)
      requires Valid() && Insertable(Flat(), ss)
      modifies this`symbols, this`size
      ensures Valid() && Flat() == InsertAll(old(Flat()), ss)
      ensures partial == Visible(ss) && alignChanges == LineEnders(ss)
      ensures ss != [] ==>
                && Place(old(symbols), firstLine, firstIndex)
                && Offset(old(symbols), firstLine, firstIndex) == CountLess(old(Flat()), ss[0].position)
    {
      ghost var d := Flat();
      partial, alignChanges := [], [];
      firstLine, firstIndex := 0, 0;
      for i := 0 to |ss|
        invariant Valid() && Flat() == InsertAll(d, ss[..i]) && Insertable(Flat(), ss[i..])
        invariant partial == Visible(ss[..i]) && alignChanges == LineEnders(ss[..i])
        invariant i == 0 ==> symbols == old(symbols)
        invariant i > 0 ==>
                    && Place(old(symbols), firstLine, firstIndex)
                    && Offset(old(symbols), firstLine, firstIndex) == CountLess(d, ss[0].position)
      {
        var s := ss[i];
        InsertableStep(Flat(), ss[i..]);
        PastedOneMore(d, ss, i);
        var line, index := InsertRemote(s);
        if i == 0 {
          firstLine, firstIndex := line, index;
        }
        if s.value == TERMINATOR || s.value == NEWLINE {
          alignChanges := alignChanges + [s];
        }
        if s.value != TERMINATOR {
          partial := partial + [s.value];
        }
      }
      assert ss[..|ss|] == ss;
    }

    /** Gives the line of a symbol its alignment, which its last symbol carries; the result is where the
    symbol was found. */
    method HandleRemoteAlignChange(s: Symbol) returns (shown: Option<(int, int)>)
      requires Valid() && (Flat() == [] || Terminated(Flat()) || Less(s.position, Flat()[0].position))
      modifies this`symbols
      ensures Valid() && Flat() == AlignAt(old(Flat()), s.position, s.format.align)
      ensures shown.Some? <==> InRange(old(Flat()), s.position)
      ensures shown.Some? ==> Found(old(symbols), s.position, shown.value.0, shown.value.1)
    {
      CanonicalLookable(symbols, s.position);
      var found, line, index := FindPosition(s.position);
      if !found {
        return None;
      }
      AlignLine(line, s.position, s.format.align);
      shown := Some((line, index));
    }

    method AlignLine(line: nat, ghost p: Position, a: Alignment)
      requires Valid() && InRange(Flat(), p) && line < |symbols| && symbols[line] != []
      requires Offset(symbols, line, 0) <= CountLess(Flat(), p) < Offset(symbols, line, |symbols[line]|)
      modifies this`symbols
      ensures Valid() && Flat() == AlignAt(old(Flat()), p, a)
      ensures var last := |old(symbols)[line]| - 1;
              Overwritten(old(symbols), line, last, SetAlignment(old(symbols)[line][last], a), symbols)
    {
      var last := |symbols[line]| - 1;
      AlignInLine(symbols, size, line, p, a);
      Overwrite(line, last, SetAlignment(symbols[line][last], a));
    }

    /** Puts another symbol with the same position in a place. */
    method Overwrite(line: nat, index: nat, s: Symbol)
      requires Valid() && line < |symbols| && index < |symbols[line]|
      requires s.position == symbols[line][index].position
      requires s.value == NEWLINE <==> symbols[line][index].value == NEWLINE
      modifies this`symbols
      ensures Valid() && Overwritten(old(symbols), line, index, s, symbols)
    {
      OverwriteOutcome(symbols, size, line, index, s);
      symbols := symbols[line := symbols[line][index := s]];
    }

    /** Erases what the search points at. For a stored symbol that is the symbol itself; for an
    absent one within the document's range it is the first symbol of the line that would hold it. */
    method EraseRemote(s: Symbol) returns (found: bool, line: nat, index: nat)
      requires Sorted(Flat()) && Lookable(symbols, s.position)
      modifies this`symbols, this`size
      ensures found <==> InRange(old(Flat()), s.position)
      ensures found <==> !Stops(old(Flat()), s.position)
      ensures symbols == if found then EraseOne(old(symbols), s) else old(symbols)
      ensures size - |Flat()| == old(size - |Flat()|) && Sorted(Flat())
      ensures found ==> (line, index) == Locate(old(symbols), s.position)
      ensures Flat() == Without(old(Flat()), s.position)
         <==> Has(old(Flat()), s.position) || !InRange(old(Flat()), s.position)
      ensures old(Canonical(symbols)) ==> Flat() == AfterErase(old(Flat()), s.position)
      ensures Removable(old(Flat()), s) ==> found && (old(Valid()) ==> Valid())
    {
      var l, x: int;
      found, l, x := FindPosition(s.position);
      if !found {
        NotInRange(Flat(), s.position);
        WithoutAbsent(Flat(), s.position);
        return false, 0, 0;
      }
      line, index := l, x;
      EraseOutcome(symbols, size, line, index, s);
      EraseFound(line, index, s.value == NEWLINE);
    }

    /** The three branches of a remote erase: merge with the next line, drop the line, or shorten it. */
    method EraseFound(line: nat, index: nat, newLineRemoved: bool)
      requires line < |symbols| && index < |symbols[line]|
      modifies this`symbols, this`size
      ensures symbols == EraseBranches(old(symbols), line, index, newLineRemoved)
      ensures size == old(size) - 1
    {
      if newLineRemoved && line + 1 < |symbols| {
        symbols := symbols[line := RemoveAt(symbols[line], index)];
        symbols := symbols[line := symbols[line] + symbols[line + 1]];
        symbols := symbols[..line + 1] + symbols[line + 2..];
        assert symbols == EraseInLines(old(symbols), line, index, true);
      } else if index == 0 && |symbols[line]| == 1 {
        symbols := symbols[line := RemoveAt(symbols[line], index)];
        symbols := symbols[..line] + symbols[line + 1..];
        assert symbols == old(symbols)[..line] + old(symbols)[line + 1..];
      } else {
        symbols := symbols[line := RemoveAt(symbols[line], index)];
        assert symbols == EraseInLines(old(symbols), line, index, false);
      }
      size := size - 1;
    }

    /** Erases the symbols that another site erased, up to the first one outside the document's range;
    the result is where the first one was. A message of stored symbols is handled to its end. */
    method HandleRemoteErase(ss: seq<Symbol>) returns (startLine: int, startIndex: int, emitted: bool)
      requires Sorted(Flat()) && Outlasts(symbols, ss)
      modifies this`symbols, this`size
      ensures symbols == EraseUntil(old(symbols), ss) && (emitted <==> ErasesAll(old(symbols), ss))
      ensures size - |Flat()| == old(size - |Flat()|) && Sorted(Flat())
      ensures ss != [] && !Stops(old(Flat()), ss[0].position) ==>
                (startLine, startIndex) == Locate(old(symbols), ss[0].position)
      ensures old(Valid()) && Erasable(old(Flat()), ss) ==>
                && emitted && Valid() && Flat() == WithoutAll(old(Flat()), ss)
                && (ss != [] ==>
                      && Place(old(symbols), startLine, startIndex)
                      && Offset(old(symbols), startLine, startIndex) == CountLess(old(Flat()), ss[0].position))
    {
      if ValidLines(symbols, size) && Erasable(Flat(), ss) {
        ErasableRun(symbols, size, ss);
      }
      startLine, startIndex, emitted := EraseSymbols(ss);
    }

    method EraseSymbols(ss: seq<Symbol>) returns (startLine: int, startIndex: int, emitted: bool)
      requires Sorted(Flat()) && Outlasts(symbols, ss)
      modifies this`symbols, this`size
      ensures symbols == EraseUntil(old(symbols), ss) && (emitted <==> ErasesAll(old(symbols), ss))
      ensures size - |Flat()| == old(size - |Flat()|) && Sorted(Flat())
      ensures ss != [] && !Stops(old(Flat()), ss[0].position) ==>
                (startLine, startIndex) == Locate(old(symbols), ss[0].position)
    {
      startLine, startIndex := 0, 0;
      for i := 0 to |ss|
        invariant Sorted(Flat()) && size - |Flat()| == old(size - |Flat()|) && Outlasts(symbols, ss[i..])
        invariant EraseUntil(symbols, ss[i..]) == EraseUntil(old(symbols), ss)
        invariant ErasesAll(symbols, ss[i..]) <==> ErasesAll(old(symbols), ss)
        invariant i == 0 ==> symbols == old(symbols)
        invariant i > 0 && !Stops(old(Flat()), ss[0].position) ==>
                    (startLine, startIndex) == Locate(old(symbols), ss[0].position)
      {
        assert ss[i..][0] == ss[i] && ss[i..][1..] == ss[i + 1..];
        var res, line, index := EraseRemote(ss[i]);
        if i == 0 {
          startLine, startIndex := line, index;
        }
        if !res {
          return startLine, startIndex, false;
        }
      }
      emitted := true;
    }

    // ----- Changing formats -----

    /** Restyles the symbols of one line from `start` up to `end`. */
    method ChangeSpan(line: nat, start: nat, end: nat, style: Style) returns (changed: seq<Symbol>)
      requires Valid() && line < |symbols| && start <= end <= |symbols[line]|
      modifies this`symbols
      ensures Valid() && SameShape(old(symbols), symbols)
      ensures var o := Offset(old(symbols), line, start);
              && o <= Offset(old(symbols), line, end)
              && Restyled(old(Flat()), o, Offset(old(symbols), line, end), style, Flat())
              && changed == Flat()[o..Offset(old(symbols), line, end)]
    {
      ghost var d, o, lines := Flat(), Offset(symbols, line, start), symbols;
      FlattenAt(symbols, line);
      changed := [];
      for i := start to end
        invariant Valid() && SameShape(lines, symbols)
        invariant Restyled(d, o, Offset(lines, line, i), style, Flat())
        invariant changed == Flat()[o..Offset(lines, line, i)]
      {
        var s := ChangeNext(line, i, style, d, o, lines);
        changed := changed + [s];
      }
    }

    method ChangeNext(line: nat, i: nat, style: Style, ghost d: Document, ghost o: nat, ghost lines: seq<Line>)
      returns (s: Symbol)
      requires Valid() && line < |symbols| && i < |symbols[line]| && SameShape(lines, symbols)
      requires o <= Offset(lines, line, i) && Restyled(d, o, Offset(lines, line, i), style, Flat())
      modifies this`symbols
      ensures Valid() && SameShape(lines, symbols)
      ensures Restyled(d, o, Offset(lines, line, i) + 1, style, Flat())
      ensures Flat()[o..Offset(lines, line, i) + 1] == old(Flat())[o..Offset(lines, line, i)] + [s]
    {
      SameShapeOffset(lines, symbols, line, i);
      SymbolAt(symbols, line, i);
      s := SetStyle(symbols[line][i], style);
      RestyledMore(d, o, Offset(lines, line, i), style, Flat());
      Overwrite(line, i, s);
    }

    /** Restyles everything from one place to another, both included; the result is broadcast. When the
    end comes before the start, a line apart, the rest of the one line and the front of the other are
    restyled instead. */
    method LocalChangeGroup(startLine: int, endLine: int, startIndex: int, endIndex: int, style: Style)
      returns (r: Result<seq<Symbol>>)
      requires Valid()
      requires startLine >= 0 && startIndex >= 0 && endLine >= 0 && endIndex >= 0 ==>
                 Changeable(symbols, startLine, endLine, startIndex, endIndex)
      modifies this`symbols
      ensures Valid() && SameShape(old(symbols), symbols)
      ensures r == Err(IndexOutOfBound) <==> startLine < 0 || startIndex < 0 || endLine < 0 || endIndex < 0
      ensures r.Err? ==> r.error == IndexOutOfBound && symbols == old(symbols)
      ensures r.Ok? ==> ChangedBetween(old(symbols), startLine, endLine, startIndex, endIndex, style, Flat(), r.value)
      ensures OnlyStyled(old(Flat()), style, Flat())
    {
      if startLine < 0 || startIndex < 0 || endLine < 0 || endIndex < 0 {
        return Err(IndexOutOfBound);
      }
      var vector: seq<Symbol> := [];
      if startLine == endLine {
        if startIndex <= endIndex {
          vector := ChangeSpan(startLine, startIndex, endIndex + 1, style);
        }
      } else {
        var first := if startIndex < |symbols[startLine]| then startIndex else |symbols[startLine]|;
        if startLine < endLine {
          vector := ChangeLines(startLine, endLine, first, endIndex, style);
        } else {
          vector := ChangeApart(startLine, endLine, first, endIndex, style);
        }
      }
      r := Ok(vector);
    }

    method ChangeApart(startLine: nat, endLine: nat, startIndex: nat, endIndex: nat, style: Style)
      returns (vector: seq<Symbol>)
      requires Valid() && endLine < startLine < |symbols|
      requires startIndex <= |symbols[startLine]| && endIndex < |symbols[endLine]|
      modifies this`symbols
      ensures Valid() && SameShape(old(symbols), symbols)
      ensures var lines := old(symbols);
              var a, b := Offset(lines, startLine, startIndex), Offset(lines, startLine, |lines[startLine]|);
              var a2, b2 := Offset(lines, endLine, 0), Offset(lines, endLine, endIndex + 1);
              a <= b <= |Flat()| && a2 <= b2 <= |Flat()|
              && RestyledApart(old(Flat()), a, b, a2, b2, style, Flat()) && vector == Flat()[a..b] + Flat()[a2..b2]
    {
      ghost var d, lines := Flat(), symbols;
      NextLine(lines, endLine);
      OffsetMonotone(lines, endLine + 1, startLine);
      vector := ChangeSpan(startLine, startIndex, |symbols[startLine]|, style);
      ghost var mid := Flat();
      SameShapeOffset(lines, symbols, endLine, 0);
      var front := ChangeSpan(endLine, 0, endIndex + 1, style);
      vector := vector + front;
      RestyledTwice(d, Offset(lines, startLine, startIndex), Offset(lines, startLine, |lines[startLine]|),
                    Offset(lines, endLine, 0), Offset(lines, endLine, endIndex + 1), style, mid, Flat());
    }

    method ChangeLines(startLine: nat, endLine: nat, startIndex: nat, endIndex: nat, style: Style)
      returns (vector: seq<Symbol>)
      requires Valid() && startLine < endLine && Range(symbols, startLine, endLine, startIndex, endIndex)
      modifies this`symbols
      ensures Valid() && SameShape(old(symbols), symbols)
      ensures var a, b := Offset(old(symbols), startLine, startIndex), Offset(old(symbols), endLine, endIndex + 1);
              a <= b && Restyled(old(Flat()), a, b, style, Flat()) && vector == Flat()[a..b]
    {
      ghost var d, lines := Flat(), symbols;
      ghost var a := Offset(symbols, startLine, startIndex);
      NextLine(lines, startLine);
      vector := ChangeSpan(startLine, startIndex, |symbols[startLine]|, style);
      for j := startLine + 1 to endLine
        invariant Valid() && SameShape(lines, symbols)
        invariant Restyled(d, a, Offset(lines, j, 0), style, Flat())
        invariant vector == Flat()[a..Offset(lines, j, 0)]
      {
        NextLine(lines, j);
        vector := ChangeMore(j, |symbols[j]|, style, vector, d, a, lines);
      }
      vector := ChangeMore(endLine, endIndex + 1, style, vector, d, a, lines);
    }

    /** Goes on restyling into line `j`, up to index `n`. */
    method ChangeMore(j: nat, n: nat, style: Style, vector: seq<Symbol>,
                      ghost d: Document, ghost a: nat, ghost lines: seq<Line>)
      returns (changed: seq<Symbol>)
      requires Valid() && SameShape(lines, symbols) && j < |symbols| && n <= |symbols[j]|
      requires Restyled(d, a, Offset(lines, j, 0), style, Flat()) && vector == Flat()[a..Offset(lines, j, 0)]
      modifies this`symbols
      ensures Valid() && SameShape(lines, symbols)
      ensures Restyled(d, a, Offset(lines, j, n), style, Flat()) && changed == Flat()[a..Offset(lines, j, n)]
    {
      SameShapeOffset(lines, symbols, j, 0);
      ghost var mid := Flat();
      changed := ChangeSpan(j, 0, n, style);
      changed := vector + changed;
      RestyledJoin(d, a, Offset(lines, j, 0), Offset(lines, j, n), style, mid, Flat());
    }

    /** Gives a line an alignment; the result, the line's last symbol, is broadcast. */
    method LocalChangeAlignment(line: nat, a: Alignment) returns (s: Symbol)
      requires Valid() && line < |symbols| && symbols[line] != []
      modifies this`symbols
      ensures Valid() && SameShape(old(symbols), symbols)
      ensures var o := old(symbols)[line][|old(symbols)[line]| - 1];
              && s.value == o.value && s.position == o.position && s.counter == o.counter
              && s.format == Format(a, o.format.style)
      ensures var k := Offset(old(symbols), line, |old(symbols)[line]| - 1);
              && k < |old(Flat())| && old(Flat())[k].position == s.position && Flat() == old(Flat())[k := s]
      ensures Flat() == AlignAt(old(Flat()), s.position, a)
    {
      var last := |symbols[line]| - 1;
      s := SetAlignment(symbols[line][last], a);
      LastIsFound(symbols, line);
      AlignLine(line, symbols[line][last].position, a);
      SymbolAt(old(symbols), line, last);
    }

    /** Replaces what the search points at. For a stored symbol that is the symbol itself; for an absent
    one within the document's range it is the first symbol of the line that would hold it. */
    method ChangeRemote(s: Symbol) returns (found: bool)
      requires Lookable(symbols, s.position)
      modifies this`symbols
      ensures found <==> InRange(old(Flat()), s.position)
      ensures if found then Filled(symbols) && ChangedOnce(old(symbols), s, symbols) else symbols == old(symbols)
      ensures old(Sorted(Flat())) ==>
                (Flat() == Replace(old(Flat()), s)
                 <==> Has(old(Flat()), s.position) || !InRange(old(Flat()), s.position))
      ensures old(Canonical(symbols) && Sorted(Flat())) ==> Flat() == AfterChange(old(Flat()), s)
      ensures old(Valid()) && Stored(old(Flat()), s) ==> found && Valid()
    {
      var line, index: int;
      found, line, index := FindPosition(s.position);
      if Sorted(Flat()) {
        ChangeOutcome(symbols, size, found, line, index, s);
      }
      if !found {
        return;
      }
      assert Inside(symbols, (line, index));
      symbols := symbols[line := symbols[line][index := s]];
    }

    /** Replaces symbols by those that another site restyled, up to the first one outside the document's
    range. A message of stored symbols is handled to its end. */
    method HandleRemoteChange(ss: seq<Symbol>) returns (emitted: bool)
      requires ss != [] ==> Lookable(symbols, ss[0].position)
      modifies this`symbols
      ensures ChangedUntil(old(symbols), ss, symbols, emitted)
      ensures old(Valid()) && Terminated(old(Flat())) && AllStored(old(Flat()), ss) ==>
                emitted && Valid() && Flat() == ReplaceAll(old(Flat()), ss)
    {
      ghost var lines := symbols;
      emitted := ChangeSymbols(ss);
      if ValidLines(lines, size) && Terminated(Flatten(lines)) && AllStored(Flatten(lines), ss) {
        StoredRun(lines, size, ss, symbols, emitted);
      }
    }

    method ChangeSymbols(ss: seq<Symbol>) returns (emitted: bool)
      requires ss != [] ==> Lookable(symbols, ss[0].position)
      modifies this`symbols
      ensures ChangedUntil(old(symbols), ss, symbols, emitted)
    {
      ghost var lines := symbols;
      for i := 0 to |ss|
        invariant i < |ss| ==> Lookable(symbols, ss[i].position)
        invariant forall r, all :: ChangedUntil(symbols, ss[i..], r, all) ==> ChangedUntil(lines, ss, r, all)
      {
        assert ss[i..][0] == ss[i] && ss[i..][1..] == ss[i + 1..];
        var res := ChangeRemote(ss[i]);
        if !res {
          return false;
        }
      }
      emitted := true;
    }
  }

  // ----- What changing formats does -----

  function SetStyle(s: Symbol, style: Style): (r: Symbol)
    ensures r.value == s.value && r.position == s.position && r.counter == s.counter
    ensures r.format.align == s.format.align && r.format.style == style
  {
    s.(format := s.format.(style := style))
  }

  /** `d'` is `d` with the symbols from `a` up to `b` restyled. */
  predicate Restyled(d: Document, a: nat, b: nat, style: Style, d': Document) {
    && a <= b <= |d| == |d'|
    && forall i :: 0 <= i < |d| ==> d'[i] == if a <= i < b then SetStyle(d[i], style) else d[i]
  }

  /** Restyling a range changes font and colour, there and nowhere else. */
  lemma {:induction false} RestyledMeaning(d: Document, a: nat, b: nat, style: Style, d': Document)
    requires Restyled(d, a, b, style, d')
    ensures |d'| == |d|
    ensures forall i :: 0 <= i < |d| ==> d'[i] == d[i] || a <= i < b
    ensures forall i :: a <= i < b ==>
              d'[i] == Symbol(d[i].value, d[i].position, d[i].counter, Format(d[i].format.align, style))
  {
  }

  /** Nothing changed but fonts and colours, which are the new ones wherever they did. */
  predicate OnlyStyled(d: Document, style: Style, d': Document) {
    |d| == |d'|
    && forall i :: 0 <= i < |d| ==>
         || d'[i] == d[i]
         || d'[i] == Symbol(d[i].value, d[i].position, d[i].counter, Format(d[i].format.align, style))
  }

  /** `d'` is the document after a change of formats, and `changed` what is broadcast. */
  ghost predicate ChangedBetween(lines: seq<Line>, startLine: nat, endLine: nat, startIndex: nat, endIndex: nat,
                                 style: Style, d': Document, changed: seq<Symbol>)
    requires startLine < |lines| && endLine < |lines|
  {
    var d := Flatten(lines);
    var a, b := RangeStart(lines, startLine, startIndex), Offset(lines, endLine, endIndex + 1);
    if startLine > endLine then
      var a2, b2 := Offset(lines, endLine, 0), Offset(lines, startLine, |lines[startLine]|);
      && RestyledApart(d, a, b2, a2, b, style, d')
      && changed == d'[a..b2] + d'[a2..b]
    else if startLine == endLine && startIndex > endIndex then d' == d && changed == []
    else a <= b && Restyled(d, a, b, style, d') && changed == d'[a..b]
  }

  /** What is restyled, seen from the lines: everything from the start to the end, both included; when the
  end comes on an earlier line, the rest of the start's line and the front of the end's. */
  predicate Selected(line: nat, i: nat, startLine: nat, endLine: nat, startIndex: nat, endIndex: nat) {
    if startLine <= endLine then
      && (line > startLine || (line == startLine && i >= startIndex))
      && (line < endLine || (line == endLine && i <= endIndex))
    else (line == startLine && i >= startIndex) || (line == endLine && i <= endIndex)
  }

  /** Symbol by symbol: exactly the selected ones get the font and the colour. */
  lemma {:induction false} SelectedRestyled(lines: seq<Line>, startLine: nat, endLine: nat, startIndex: nat,
                                            endIndex: nat, style: Style, d': Document, changed: seq<Symbol>,
                                            line: nat, i: nat)
    requires Changeable(lines, startLine, endLine, startIndex, endIndex)
    requires ChangedBetween(lines, startLine, endLine, startIndex, endIndex, style, d', changed)
    requires line < |lines| && i < |lines[line]|
    ensures Offset(lines, line, i) < |d'|
    ensures d'[Offset(lines, line, i)]
         == if Selected(line, i, startLine, endLine, startIndex, endIndex) then SetStyle(lines[line][i], style)
            else lines[line][i]
  {
    SymbolAt(lines, line, i);
    LineBefore(lines, line, startLine);
    LineBefore(lines, startLine, line);
    LineBefore(lines, line, endLine);
    LineBefore(lines, endLine, line);
  }

  /** All of an earlier line comes first. */
  lemma {:induction false} LineBefore(lines: seq<Line>, a: nat, b: nat)
    requires a < |lines| && b < |lines|
    ensures a < b ==> Offset(lines, a, |lines[a]|) <= Offset(lines, b, 0)
  {
    if a < b {
      FlattenAt(lines, a);
      OffsetMonotone(lines, a + 1, b);
    }
  }

  /** Two ranges were restyled, the second one before the first. */
  predicate RestyledApart(d: Document, a: nat, b: nat, a2: nat, b2: nat, style: Style, d': Document) {
    && a2 <= b2 <= a <= b <= |d| == |d'|
    && forall i :: 0 <= i < |d| ==> d'[i] == if a <= i < b || a2 <= i < b2 then SetStyle(d[i], style) else d[i]
  }

  lemma {:induction false} RestyledTwice(d: Document, a: nat, b: nat, a2: nat, b2: nat, style: Style, m: Document, d': Document)
    requires a2 <= b2 <= a && Restyled(d, a, b, style, m) && Restyled(m, a2, b2, style, d')
    ensures RestyledApart(d, a, b, a2, b2, style, d') && d'[a..b] == m[a..b]
  {
  }

  lemma {:induction false} RestyledMore(d: Document, a: nat, b: nat, style: Style, d': Document)
    requires Restyled(d, a, b, style, d') && b < |d|
    ensures d'[b] == d[b]
    ensures var r := d'[b := SetStyle(d[b], style)];
            Restyled(d, a, b + 1, style, r) && r[a..b + 1] == d'[a..b] + [SetStyle(d[b], style)]
  {
  }

  lemma {:induction false} RestyledJoin(d: Document, a: nat, b: nat, c: nat, style: Style, d1: Document, d2: Document)
    requires Restyled(d, a, b, style, d1) && Restyled(d1, b, c, style, d2)
    ensures Restyled(d, a, c, style, d2) && d2[a..c] == d1[a..b] + d2[b..c]
  {
  }

  /** The indices that a change of formats looks at exist. */
  predicate Changeable(lines: seq<Line>, startLine: int, endLine: int, startIndex: int, endIndex: int) {
    && 0 <= startLine < |lines| && 0 <= endLine < |lines|
    && (startLine != endLine || startIndex <= endIndex ==> endIndex < |lines[endLine]|)
  }

  function RangeStart(lines: seq<Line>, line: nat, index: nat): nat
    requires line < |lines|
  {
    Offset(lines, line, if index < |lines[line]| then index else |lines[line]|)
  }

  predicate Range(lines: seq<Line>, startLine: int, endLine: int, startIndex: int, endIndex: int) {
    && 0 <= startLine <= endLine < |lines| && 0 <= startIndex && 0 <= endIndex < |lines[endLine]|
    && startIndex <= (if startLine == endLine then endIndex + 1 else |lines[startLine]|)
  }

  lemma {:induction false} NextLine(lines: seq<Line>, line: nat)
    requires line < |lines|
    ensures Offset(lines, line + 1, 0) == Offset(lines, line, |lines[line]|)
  {
    FlattenAt(lines, line);
  }

  lemma {:induction false} SameShapeOffset(lines: seq<Line>, lines': seq<Line>, line: nat, index: nat)
    requires SameShape(lines, lines') && line <= |lines|
    ensures Offset(lines, line, index) == Offset(lines', line, index)
    decreases line
  {
    if line == 0 {
      assert lines[..0] == lines'[..0];
    } else {
      SameShapeOffset(lines, lines', line - 1, 0);
      FlattenAt(lines, line - 1);
      FlattenAt(lines', line - 1);
    }
  }

  ghost predicate Stored(d: Document, s: Symbol) {
    exists k :: StoredAt(d, k, s)
  }

  ghost predicate AllStored(d: Document, ss: seq<Symbol>) {
    forall i :: 0 <= i < |ss| ==> Stored(d, ss[i])
  }

  function Replace(d: Document, s: Symbol): Document {
    var k := CountLess(d, s.position);
    if k < |d| && d[k].position == s.position then d[k := s] else d
  }

  function ReplaceAll(d: Document, ss: seq<Symbol>): Document {
    if ss == [] then d else Replace(ReplaceAll(d, ss[..|ss| - 1]), ss[|ss| - 1])
  }

  lemma {:induction false} StoredInRange(d: Document, s: Symbol)
    requires Sorted(d) && Stored(d, s)
    ensures Has(d, s.position) && InRange(d, s.position)
  {
    if !InRange(d, s.position) {
      NotInRange(d, s.position);
    }
  }

  /** A change replaces the symbol it points at; for a stored symbol the lines stay valid. */
  lemma {:induction false} ChangeOutcome(lines: seq<Line>, size: int, found: bool, line: int, index: int, s: Symbol)
    requires Sorted(Flatten(lines)) && (found <==> InRange(Flatten(lines), s.position))
    requires found ==> Found(lines, s.position, line, index)
    ensures var r := if found then lines[line := lines[line][index := s]] else lines;
            && (Flatten(r) == Replace(Flatten(lines), s) <==> Has(Flatten(lines), s.position) || !found)
            && (Canonical(lines) ==> Flatten(r) == AfterChange(Flatten(lines), s))
            && (Stored(Flatten(lines), s) ==> found && (ValidLines(lines, size) ==> ValidLines(r, size)))
  {
    if found {
      ChangeFound(lines, line, index, s);
      if Stored(Flatten(lines), s) {
        ChangeStored(lines, size, line, index, s);
      }
    } else {
      NotInRange(Flatten(lines), s.position);
    }
  }

  lemma {:induction false} ChangeFound(lines: seq<Line>, line: nat, index: nat, s: Symbol)
    requires Sorted(Flatten(lines)) && Found(lines, s.position, line, index) && InRange(Flatten(lines), s.position)
    ensures var r := lines[line := lines[line][index := s]];
            && (Flatten(r) == Replace(Flatten(lines), s) <==> Has(Flatten(lines), s.position))
            && (Canonical(lines) ==> Flatten(r) == AfterChange(Flatten(lines), s))
  {
    var d, k := Flatten(lines), Offset(lines, line, index);
    OverwriteFlat(lines, line, index, s);
    SymbolAt(lines, line, index);
    if Canonical(lines) {
      TargetAt(lines, line, index, s.position);
    }
    if Has(d, s.position) {
      ExactPlace(lines, line, index);
    } else {
      CountLessFits(d, s.position);
      FitsSeparates(d, CountLess(d, s.position), s.position);
    }
  }

  lemma {:induction false} ChangeStored(lines: seq<Line>, size: int, line: nat, index: nat, s: Symbol)
    requires Sorted(Flatten(lines)) && Found(lines, s.position, line, index) && Stored(Flatten(lines), s)
    ensures ValidLines(lines, size) ==> ValidLines(lines[line := lines[line][index := s]], size)
  {
    var d, k := Flatten(lines), Offset(lines, line, index);
    SymbolAt(lines, line, index);
    var j :| StoredAt(d, j, s);
    assert Has(d, s.position);
    Antisymmetric(d[j].position, d[k].position);
    assert j == k;
    if ValidLines(lines, size) {
      OverwriteOutcome(lines, size, line, index, s);
    }
  }

  lemma {:induction false} ReplaceAllFront(d: Document, ss: seq<Symbol>)
    requires ss != []
    ensures ReplaceAll(d, ss) == ReplaceAll(Replace(d, ss[0]), ss[1..])
    decreases |ss|
  {
    var n := |ss| - 1;
    if n == 0 {
      assert ss[..0] == [] && ss[1..] == [];
    } else {
      ReplaceAllFront(d, ss[..n]);
      FrontAndBack(ss);
    }
  }

  lemma {:induction false} FrontAndBack(ss: seq<Symbol>)
    requires |ss| > 1
    ensures var n, rest := |ss| - 1, ss[1..];
            |rest| == n && ss[..n][0] == ss[0] && ss[..n][1..] == rest[..n - 1] && rest[n - 1] == ss[n]
  {
  }

  /** A change of stored symbols is handled to its end. */
  lemma {:induction false} StoredRun(lines: seq<Line>, size: int, ss: seq<Symbol>, lines': seq<Line>, all: bool)
    requires ValidLines(lines, size) && Terminated(Flatten(lines)) && AllStored(Flatten(lines), ss)
    requires ChangedUntil(lines, ss, lines', all)
    ensures all && ValidLines(lines', size) && Flatten(lines') == ReplaceAll(Flatten(lines), ss)
    decreases |ss|
  {
    if ss != [] {
      var d := Flatten(lines);
      ReplaceKeeps(d, ss, 0);
      StoredInRange(d, ss[0]);
      var mid :| ChangedOnce(lines, ss[0], mid) && ChangedUntil(mid, ss[1..], lines', all);
      var line, index :| Inside(lines, (line, index)) && mid == lines[line := lines[line][index := ss[0]]]
                         && Found(lines, ss[0].position, line, index);
      ChangeOutcome(lines, size, true, line, index, ss[0]);
      assert AllStored(Flatten(mid), ss[1..]) by {
        forall i | 0 <= i < |ss| - 1 ensures Stored(Flatten(mid), ss[1..][i]) {
          assert Stored(Flatten(mid), ss[i + 1]);
        }
      }
      StoredRun(mid, size, ss[1..], lines', all);
      ReplaceAllFront(d, ss);
    }
  }

  /** Replacing a stored symbol leaves all symbols stored that were, and the last line not empty. */
  lemma {:induction false} ReplaceKeeps(d: Document, ss: seq<Symbol>, i: nat)
    requires Sorted(d) && Terminated(d) && AllStored(d, ss) && i < |ss|
    ensures Has(d, ss[i].position) && Stored(d, ss[i])
    ensures AllStored(Replace(d, ss[i]), ss) && Terminated(Replace(d, ss[i]))
  {
    StoredInRange(d, ss[i]);
    StillStored(d, ss, i);
    var k :| StoredAt(d, k, ss[i]);
    SamePositionsValid(d, k, ss[i]);
    OwnCount(d, k);
  }

  lemma {:induction false} OwnCount(d: Document, k: nat)
    requires Sorted(d) && k < |d|
    ensures CountLess(d, d[k].position) == k
  {
    Antisymmetric(d[k].position, d[k].position);
    FitsIsCountLess(d, k, d[k].position);
  }

  lemma {:induction false} StillStored(d: Document, ss: seq<Symbol>, i: nat)
    requires Sorted(d) && AllStored(d, ss) && i < |ss|
    ensures AllStored(Replace(d, ss[i]), ss)
  {
    assert Stored(d, ss[i]);
    var m :| StoredAt(d, m, ss[i]);
    Antisymmetric(d[m].position, d[m].position);
    FitsIsCountLess(d, m, d[m].position);
    var r := Replace(d, ss[i]);
    assert r == d[m := ss[i]];
    forall j | 0 <= j < |ss| ensures Stored(r, ss[j]) {
      assert Stored(d, ss[j]);
      var k :| StoredAt(d, k, ss[j]);
      assert StoredAt(r, k, ss[j]);
    }
  }

  /** A document without the `i` symbols from `k` on. */
  function Cut(d: Document, k: nat, i: nat): Document
    requires k + i <= |d|
  {
    d[..k] + d[k + i..]
  }

  lemma {:induction false} CutOneMore(d: Document, k: nat, i: nat)
    requires k + i < |d|
    ensures k < |Cut(d, k, i)| && Cut(d, k, i)[k] == d[k + i]
    ensures RemoveAt(Cut(d, k, i), k) == Cut(d, k, i + 1)
  {
  }

  /** A symbol as it was typed: only the alignment of a symbol that ends no line is left open. */
  predicate TypedAs(s: Symbol, value: CharCode, counter: int, format: Format) {
    && s.value == value && s.counter == counter && s.format.style == format.style
    && (EndsLine(s) ==> s.format.align == format.align)
  }

  /** The symbols of a text, numbered from `counter` on. */
  predicate AllTypedAs(ss: seq<Symbol>, text: seq<CharCode>, counter: int, format: Format) {
    |ss| <= |text| && forall i :: 0 <= i < |ss| ==> TypedAs(ss[i], text[i], counter + 1 + i, format)
  }

  /** A position generated at offset `k`. */
  ghost predicate NextPosition(d: Document, k: nat, p: Position, site: int,
                               cache: StrategyCache, cache': StrategyCache) {
    && k <= |d|
    && Generated(PositionBefore(d, k), p, PositionAfter(d, k), site)
    && Drawn(PositionBefore(d, k), p, PositionAfter(d, k), site, 0, cache, cache')
  }

  /** What the `i`-th of the symbols inserted at `k` was put behind. */
  ghost function PutBehind(d: Document, k: nat, inserted: seq<Symbol>, i: nat): Position
    requires k <= |d| && i <= |inserted|
  {
    if i == 0 then PositionBefore(d, k) else inserted[i - 1].position
  }

  /** Every position was generated between the one before it and what follows the place, on the strategies
  of the cache; a strategy drawn before is kept, and one drawn now was drawn for one of the symbols. */
  ghost predicate PastedPositions(d: Document, k: nat, inserted: seq<Symbol>, site: int,
                                  cache: StrategyCache, cache': StrategyCache) {
    && k <= |d|
    && (forall i :: 0 <= i < |inserted| ==> PastedPosition(d, k, inserted, i, site, cache'))
    && (forall level <- cache :: level in cache' && cache'[level] == cache[level])
    && (forall level <- cache' ::
          level in cache || exists i :: 0 <= i < |inserted| && level == |inserted[i].position| - 1)
  }

  ghost predicate PastedPosition(d: Document, k: nat, inserted: seq<Symbol>, i: nat, site: int, cache: StrategyCache)
    requires k <= |d| && i < |inserted|
  {
    var p, t, q := PutBehind(d, k, inserted, i), inserted[i].position, PositionAfter(d, k);
    Generated(p, t, q, site) && Shortest(p, t, q, site) && OnStrategy(p, t, q, site, 0, cache)
  }

  /** The gap at a place in which generation throws. */
  ghost predicate BlockedPlace(lines: seq<Line>, line: int, index: int, site: int) {
    && Place(lines, line, index) && Offset(lines, line, index) <= |Flatten(lines)|
    && Blocked(PositionBefore(Flatten(lines), Offset(lines, line, index)),
               PositionAfter(Flatten(lines), Offset(lines, line, index)), site)
  }

  /** `inserted` went into `d` at `k`, one symbol after the other. */
  ghost predicate Pasted(d: Document, k: nat, inserted: seq<Symbol>, d': Document, site: int,
                         cache: StrategyCache, cache': StrategyCache) {
    k <= |d| && d' == Paste(d, k, inserted) && PastedPositions(d, k, inserted, site, cache, cache')
  }

  /** A document with `inserted` put in at `k`. */
  function Paste(d: Document, k: nat, inserted: seq<Symbol>): Document
    requires k <= |d|
  {
    d[..k] + inserted + d[k..]
  }

  lemma {:induction false} PasteStarts(lines: seq<Line>, line: nat, index: nat, site: int, cache: StrategyCache)
    requires Place(lines, line, index)
    ensures Offset(lines, line, index) <= |Flatten(lines)|
    ensures Pasted(Flatten(lines), Offset(lines, line, index), [], Flatten(lines), site, cache, cache)
  {
    PlaceHoldsSymbol(lines, line, index);
    var d, k := Flatten(lines), Offset(lines, line, index);
    assert d == d[..k] + [] + d[k..];
  }

  lemma {:induction false} PastedMore(d: Document, k: nat, inserted: seq<Symbol>, s: Symbol, site: int,
                                      cache: StrategyCache, mid: StrategyCache, cache': StrategyCache)
    requires PastedPositions(d, k, inserted, site, cache, mid)
    requires NextPosition(Paste(d, k, inserted), k + |inserted|, s.position, site, mid, cache')
    ensures Pasted(d, k, inserted + [s], InsertAt(Paste(d, k, inserted), k + |inserted|, s), site, cache, cache')
  {
    var r, n, all := Paste(d, k, inserted), |inserted|, inserted + [s];
    assert InsertAt(r, k + n, s) == Paste(d, k, all);
    assert PositionBefore(r, k + n) == PutBehind(d, k, all, n);
    assert PositionAfter(r, k + n) == PositionAfter(d, k);
    forall i | 0 <= i < |all| ensures PastedPosition(d, k, all, i, site, cache') {
      if i < n {
        assert PastedPosition(d, k, inserted, i, site, mid);
      }
    }
    forall level | level in cache'
      ensures level in cache || exists i :: 0 <= i < |all| && level == |all[i].position| - 1
    {
      if level !in mid {
        assert all[n] == s;
      } else if level !in cache {
        var i :| 0 <= i < n && level == |inserted[i].position| - 1;
        assert all[i] == inserted[i];
      }
    }
  }

  lemma {:induction false} NeighbourBefore(lines: seq<Line>, line: nat, index: nat)
    requires Canonical(lines) && Within(lines, line, index)
    requires line == |lines| ==> lines[line - 1] != []
    ensures Offset(lines, line, index) <= |Flatten(lines)|
    ensures line == 0 && index == 0 ==> Offset(lines, line, index) == 0
    ensures index > 0 ==> Flatten(lines)[Offset(lines, line, index) - 1] == lines[line][index - 1]
    ensures index == 0 && line > 0 ==>
              && Offset(lines, line, index) > 0 && lines[line - 1] != []
              && Flatten(lines)[Offset(lines, line, index) - 1] == lines[line - 1][|lines[line - 1]| - 1]
  {
    if index > 0 {
      SymbolAt(lines, line, index - 1);
    } else if line > 0 {
      LineBehind(lines, line - 1);
    }
  }

  lemma {:induction false} LineBehind(lines: seq<Line>, line: nat)
    requires line < |lines| && lines[line] != []
    ensures 0 < Offset(lines, line + 1, 0) <= |Flatten(lines)|
    ensures Flatten(lines)[Offset(lines, line + 1, 0) - 1] == lines[line][|lines[line]| - 1]
  {
    FlattenAt(lines, line);
    SymbolAt(lines, line, |lines[line]| - 1);
  }

  lemma {:induction false} NeighbourAfter(lines: seq<Line>, line: nat, index: nat)
    requires Within(lines, line, index) && (line < |lines| ==> Spot(lines, line, index))
    ensures var k := Offset(lines, line, index);
            && k <= |Flatten(lines)|
            && (line == |lines| ==> k == |Flatten(lines)|)
            && (line < |lines| && index < |lines[line]| ==> k < |Flatten(lines)| && Flatten(lines)[k] == lines[line][index])
            && (line == |lines| - 1 && index == |lines[line]| ==> k == |Flatten(lines)|)
            && (line < |lines| - 1 && index == |lines[line]| ==>
                  k < |Flatten(lines)| && Flatten(lines)[k] == lines[line + 1][0])
  {
    if line == |lines| {
      assert lines[..line] == lines;
    } else {
      FlattenAt(lines, line);
      if index < |lines[line]| {
        SymbolAt(lines, line, index);
      } else if line < |lines| - 1 {
        FlattenAt(lines, line + 1);
        SymbolAt(lines, line + 1, 0);
      }
    }
  }

  /** The neighbours of an offset delimit a gap for the generator. */
  lemma {:induction false} GapAt(d: Document, k: nat)
    requires Sorted(d) && AllWellFormed(d) && k <= |d|
    ensures Gap(PositionBefore(d, k), PositionAfter(d, k))
  {
  }

  lemma {:induction false} GeneratedFits(d: Document, k: nat, s: Symbol, site: int)
    requires Sorted(d) && AllWellFormed(d) && k <= |d|
    requires Generated(PositionBefore(d, k), s.position, PositionAfter(d, k), site)
    ensures Sorted(InsertAt(d, k, s)) && AllWellFormed(InsertAt(d, k, s))
    ensures !Has(d, s.position) && CountLess(d, s.position) == k
  {
    BetweenFits(d, k, s.position);
    SortedInsertKeepsSorted(d, s);
    InsertKeepsWellFormed(d, k, s);
  }

  /** Behind a symbol that was just generated the gap is open. */
  lemma {:induction false} OpenBehind(d: Document, k: nat, s: Symbol, site: int)
    requires k <= |d| && Generated(PositionBefore(d, k), s.position, PositionAfter(d, k), site)
    ensures !Blocked(PositionBefore(InsertAt(d, k, s), k + 1), PositionAfter(InsertAt(d, k, s), k + 1), site)
  {
    OpenBehindGenerated(PositionBefore(d, k), s.position, PositionAfter(d, k), site, site);
  }

  lemma {:induction false} PlaceIsSpot(lines: seq<Line>, line: nat, index: nat)
    requires Place(lines, line, index)
    ensures Spot(lines, line, index) && Offset(lines, line, index) <= |Flatten(lines)|
  {
    PlaceHoldsSymbol(lines, line, index);
  }

  lemma {:induction false} InsertKeepsLines(lines: seq<Line>, line: nat, index: nat, s: Symbol)
    requires Canonical(lines) && line < |lines| && index <= |lines[line]|
    ensures Canonical(InsertInLines(lines, line, index, s)) <==> Place(lines, line, index)
  {
    if Place(lines, line, index) {
      InsertCanonical(lines, line, index, s);
    } else {
      InsertBreaksLines(lines, line, index, s);
    }
  }

  lemma {:induction false} InsertValidExactly(d: Document, s: Symbol)
    requires Sorted(d) && AllWellFormed(d)
    ensures Sorted(SortedInsert(d, s)) && AllWellFormed(SortedInsert(d, s))
       <==> WellFormed(s.position) && !Has(d, s.position)
  {
    var k, r := CountLess(d, s.position), SortedInsert(d, s);
    assert r[k] == s;
    if Has(d, s.position) {
      CountLessFits(d, s.position);
      FitsSeparates(d, k, s.position);
      Antisymmetric(s.position, s.position);
      assert r[k + 1] == d[k];
    } else {
      SortedInsertKeepsSorted(d, s);
      if WellFormed(s.position) {
        InsertKeepsWellFormed(d, k, s);
      }
    }
  }

  lemma {:induction false} InsertKeepsWellFormed(d: Document, k: nat, s: Symbol)
    requires AllWellFormed(d) && WellFormed(s.position) && k <= |d|
    ensures AllWellFormed(InsertAt(d, k, s))
  {
  }

  /** Erasing a symbol keeps the document valid and its place a place. */
  lemma {:induction false} EraseAtOutcome(lines: seq<Line>, size: int, line: nat, index: nat, newline: bool)
    requires ValidLines(lines, size) && line < |lines| && index < |lines[line]|
    requires newline <==> lines[line][index].value == NEWLINE
    ensures var k, r := Offset(lines, line, index), EraseInLines(lines, line, index, newline);
            && k < |Flatten(lines)| && Flatten(r) == RemoveAt(Flatten(lines), k)
            && ValidLines(r, size - 1) && Place(r, line, index) && Offset(r, line, index) == k
  {
    var r := EraseInLines(lines, line, index, newline);
    EraseFlat(lines, line, index, newline);
    EraseCanonical(lines, line, index);
    RemoveKeepsShape(Flatten(lines), Offset(lines, line, index));
    assert r[..line] == lines[..line];
  }

  lemma {:induction false} RemoveKeepsShape(d: Document, k: nat)
    requires Sorted(d) && AllWellFormed(d) && k < |d|
    ensures Sorted(RemoveAt(d, k)) && AllWellFormed(RemoveAt(d, k))
  {
    RemoveAtKeepsSorted(d, k);
  }

  /** Behind an inserted newline begins the next line; behind anything else, the next index. */
  lemma {:induction false} PlaceBehind(lines: seq<Line>, line: nat, index: nat, s: Symbol)
    requires Canonical(lines) && Place(lines, line, index)
    ensures var r := InsertInLines(lines, line, index, s);
            if s.value == NEWLINE then
              Place(r, line + 1, 0) && Offset(r, line + 1, 0) == Offset(lines, line, index) + 1
            else
              Place(r, line, index + 1) && Offset(r, line, index + 1) == Offset(lines, line, index) + 1
  {
    var r := InsertInLines(lines, line, index, s);
    InsertCanonical(lines, line, index, s);
    assert r[..line] == lines[..line];
    if s.value == NEWLINE {
      FlattenAt(r, line);
    }
  }

  /** Behind the newline begins the next line; behind any other symbol the same goes on. There the gap is open. */
  lemma {:induction false} MovesBehind(lines: seq<Line>, line: nat, index: nat, s: Symbol, site: int)
    requires Canonical(lines) && Place(lines, line, index) && Offset(lines, line, index) <= |Flatten(lines)|
    requires var d, k := Flatten(lines), Offset(lines, line, index);
             && Generated(PositionBefore(d, k), s.position, PositionAfter(d, k), site)
             && Flatten(InsertInLines(lines, line, index, s)) == InsertAt(d, k, s)
    ensures var r := InsertInLines(lines, line, index, s);
            var line', index' := if s.value == NEWLINE then line + 1 else line, if s.value == NEWLINE then 0 else index + 1;
            && Place(r, line', index') && Offset(r, line', index') == Offset(lines, line, index) + 1
            && !BlockedPlace(r, line', index', site)
  {
    OpenBehind(Flatten(lines), Offset(lines, line, index), s, site);
    PlaceBehind(lines, line, index, s);
  }

  lemma {:induction false} HasSymbol(lines: seq<Line>, line: nat, index: nat)
    requires line < |lines| && index < |lines[line]|
    ensures Has(Flatten(lines), lines[line][index].position)
  {
    SymbolAt(lines, line, index);
  }

  lemma {:induction false} ExactIsFound(lines: seq<Line>, line: nat, p: Position)
    requires line < |lines| && lines[line] != [] && LastPosition(lines, line) == p
    ensures Sorted(Flatten(lines)) ==> Found(lines, p, line, |lines[line]| - 1)
  {
    HasSymbol(lines, line, |lines[line]| - 1);
    if Sorted(Flatten(lines)) {
      ExactPlace(lines, line, |lines[line]| - 1);
    }
  }

  lemma {:induction false} LastIsFound(lines: seq<Line>, line: nat)
    requires Canonical(lines) && Sorted(Flatten(lines)) && line < |lines| && lines[line] != []
    ensures Found(lines, LastPosition(lines, line), line, |lines[line]| - 1)
    ensures InRange(Flatten(lines), LastPosition(lines, line))
  {
    ExactIsFound(lines, line, LastPosition(lines, line));
    HasSymbol(lines, line, |lines[line]| - 1);
    HasInRange(Flatten(lines), LastPosition(lines, line));
  }

  lemma {:induction false} LinesSorted(lines: seq<Line>)
    requires Sorted(Flatten(lines))
    ensures forall i :: 0 <= i < |lines| ==> Sorted(lines[i])
  {
    forall i | 0 <= i < |lines| ensures Sorted(lines[i]) {
      LineSorted(lines, i);
    }
  }

  lemma {:induction false} PointedAt(lines: seq<Line>, p: Position, line: nat, index: nat)
    requires Sorted(Flatten(lines)) && Points(lines, p, line, index)
    ensures Found(lines, p, line, index)
  {
    if lines[line][index].position == p {
      HasSymbol(lines, line, index);
      ExactPlace(lines, line, index);
    } else {
      LineSorted(lines, line);
      OnlyInLine(lines, line, p);
    }
  }

  lemma {:induction false} AimedPlace(lines: seq<Line>, line: nat, index: nat, p: Position)
    requires Sorted(Flatten(lines)) && Aimed(lines, p, line, index)
    ensures Place(lines, line, index) && CountLess(Flatten(lines), p) == Offset(lines, line, index)
  {
    if lines[line][index].position == p {
      ExactPlace(lines, line, index);
    } else {
      PlaceInLine(lines, line, index, p);
    }
  }

  lemma {:induction false} FilledEnds(lines: seq<Line>)
    requires Filled(lines)
    ensures Flatten(lines) != [] && Flatten(lines)[0] == lines[0][0]
    ensures Flatten(lines)[|Flatten(lines)| - 1].position == LastPosition(lines, |lines| - 1)
  {
    var n := |lines| - 1;
    FlattenAt(lines, n);
    assert lines[n + 1..] == [];
    SymbolAt(lines, n, |lines[n]| - 1);
  }

  lemma {:induction false} RangeByLines(lines: seq<Line>, p: Position)
    requires Lookable(lines, p)
    ensures Flatten([[]]) == []
    ensures lines != [[]] ==> lines[0] != [] && Flatten(lines) != [] && Flatten(lines)[0] == lines[0][0]
    ensures Filled(lines) ==>
              (InRange(Flatten(lines), p)
               <==> !Less(p, lines[0][0].position) && !Less(LastPosition(lines, |lines| - 1), p))
  {
    FlattenOne([]);
    if Filled(lines) {
      FilledEnds(lines);
    }
  }

  /** In canonical lines a lookup needs a last line that is not empty, unless it stops before. */
  lemma {:induction false} CanonicalLookable(lines: seq<Line>, p: Position)
    requires Canonical(lines)
    ensures Lookable(lines, p) <==> Flatten(lines) == [] || Terminated(Flatten(lines)) || Less(p, Flatten(lines)[0].position)
  {
    FirstAndLast(lines);
  }

  lemma {:induction false} CanonicalLookableAll(lines: seq<Line>)
    requires Canonical(lines) && (Flatten(lines) == [] || Terminated(Flatten(lines)))
    ensures forall p :: Lookable(lines, p)
  {
    FirstAndLast(lines);
  }

  lemma {:induction false} SearchableByLines(lines: seq<Line>, p: Position)
    requires Canonical(lines)
    ensures lines != [[]] ==> lines[0] != []
    ensures Searchable(Flatten(lines), p)
       <==> lines == [[]] || Compare(p, lines[0][0].position) <= 0 || lines[|lines| - 1] != []
  {
    FirstAndLast(lines);
    if lines != [[]] {
      Antisymmetric(p, lines[0][0].position);
    }
  }

  lemma {:induction false} AtStart(lines: seq<Line>, p: Position)
    requires Canonical(lines) && Sorted(Flatten(lines))
    requires lines != [[]] ==> lines[0] != [] && Compare(p, lines[0][0].position) <= 0
    ensures Place(lines, 0, 0) && Offset(lines, 0, 0) == 0 == CountLess(Flatten(lines), p)
  {
    FirstAndLast(lines);
    assert lines[..0] == [];
    if lines != [[]] {
      Antisymmetric(p, lines[0][0].position);
      FitsIsCountLess(Flatten(lines), 0, p);
    }
  }

  lemma {:induction false} AtEnd(lines: seq<Line>, p: Position)
    requires Canonical(lines) && Sorted(Flatten(lines))
    requires lines[|lines| - 1] != [] && Less(LastPosition(lines, |lines| - 1), p)
    ensures var n := |lines| - 1;
            Place(lines, n, |lines[n]|) && Offset(lines, n, |lines[n]|) == CountLess(Flatten(lines), p)
  {
    var n := |lines| - 1;
    FirstAndLast(lines);
    FlattenAt(lines, n);
    assert lines[n + 1..] == [];
    FitsIsCountLess(Flatten(lines), |Flatten(lines)|, p);
  }

  lemma {:induction false} ExactPlace(lines: seq<Line>, line: nat, index: nat)
    requires Sorted(Flatten(lines)) && line < |lines| && index < |lines[line]|
    ensures Place(lines, line, index)
    ensures CountLess(Flatten(lines), lines[line][index].position) == Offset(lines, line, index)
  {
    SymbolAt(lines, line, index);
    Antisymmetric(lines[line][index].position, lines[line][index].position);
    FitsIsCountLess(Flatten(lines), Offset(lines, line, index), lines[line][index].position);
  }

  lemma {:induction false} PlaceInLine(lines: seq<Line>, line: nat, index: nat, p: Position)
    requires Sorted(Flatten(lines)) && line < |lines| && index < |lines[line]| && Fits(lines[line], index, p)
    requires line > 0 ==> lines[line - 1] != [] && Less(LastPosition(lines, line - 1), p)
    ensures Place(lines, line, index) && CountLess(Flatten(lines), p) == Offset(lines, line, index)
  {
    FitsInLine(lines, line, index, p);
    FitsIsCountLess(Flatten(lines), Offset(lines, line, index), p);
  }

  /** A position above one line's end and not above the next is in no other line. */
  lemma {:induction false} OnlyInLine(lines: seq<Line>, line: nat, p: Position)
    requires Sorted(Flatten(lines)) && line < |lines| && lines[line] != []
    requires line > 0 ==> lines[line - 1] != [] && Less(LastPosition(lines, line - 1), p)
    requires !Less(LastPosition(lines, line), p)
    ensures Has(Flatten(lines), p) <==> Has(lines[line], p)
    ensures Offset(lines, line, 0) <= CountLess(Flatten(lines), p) < Offset(lines, line, |lines[line]|)
  {
    LineSorted(lines, line);
    var l, d := lines[line], Flatten(lines);
    var k := CountLess(l, p);
    CountLessFits(l, p);
    FitsSeparates(l, k, p);
    FitsInLine(lines, line, k, p);
    FitsSeparates(d, Offset(lines, line, k), p);
    FitsIsCountLess(d, Offset(lines, line, k), p);
    SymbolAt(lines, line, k);
  }

  // ----- Steps of the remote handlers -----

  lemma {:induction false} InsertableStep(d: Document, ss: seq<Symbol>)
    requires Sorted(d) && Insertable(d, ss) && ss != []
    ensures Searchable(d, ss[0].position) && !Has(d, ss[0].position) && WellFormed(ss[0].position)
    ensures Insertable(SortedInsert(d, ss[0]), ss[1..])
  {
    var s := ss[0];
    assert NewBelowLast(d, s);
    var k, r := CountLess(d, s.position), SortedInsert(d, s);
    CountLessFits(d, s.position);
    FitsSeparates(d, k, s.position);
    Antisymmetric(s.position, d[|d| - 1].position);
    assert k < |d|;
    assert r[|r| - 1] == d[|d| - 1];
    forall i | 0 <= i < |ss[1..]| ensures NewBelowLast(r, ss[1..][i]) {
      assert NewBelowLast(d, ss[i + 1]);
      forall j | 0 <= j < |r| ensures r[j].position != ss[i + 1].position {
        assert r[j] == if j < k then d[j] else if j == k then s else d[j - 1];
      }
    }
  }

  lemma {:induction false} PastedOneMore(d: Document, ss: seq<Symbol>, i: nat)
    requires i < |ss|
    ensures ss[i..][0] == ss[i] && ss[i..][1..] == ss[i + 1..]
    ensures InsertAll(d, ss[..i + 1]) == SortedInsert(InsertAll(d, ss[..i]), ss[i])
    ensures Visible(ss[..i + 1]) == Visible(ss[..i]) + if ss[i].value == TERMINATOR then [] else [ss[i].value]
    ensures LineEnders(ss[..i + 1]) == LineEnders(ss[..i]) + if EndsLine(ss[i]) then [ss[i]] else []
  {
    assert ss[..i + 1][..i] == ss[..i];
  }

  /** After inserting them all, exactly the new symbols are there too, and the last symbol is still last. */
  lemma {:induction false} AllInserted(d: Document, ss: seq<Symbol>)
    requires Sorted(d) && Insertable(d, ss)
    ensures var r := InsertAll(d, ss); Sorted(r) && Terminated(r) && r[|r| - 1] == d[|d| - 1]
    ensures forall p :: Has(InsertAll(d, ss), p) <==> Has(d, p) || Has(ss, p)
  {
    if ss != [] {
      var n := |ss| - 1;
      var r, s := InsertAll(d, ss[..n]), ss[n];
      AllInserted(d, ss[..n]);
      assert NewBelowLast(d, s);
      forall p ensures Has(ss, p) <==> Has(ss[..n], p) || p == s.position {
        HasSnoc(ss, p);
      }
      forall i | 0 <= i < n ensures ss[..n][i].position != s.position {
      }
      InsertedBelowLast(r, s);
      forall p ensures Has(InsertAll(d, ss), p) <==> Has(r, p) || p == s.position {
        InsertedHas(r, CountLess(r, s.position), s, p);
      }
    }
  }

  lemma {:induction false} InsertedBelowLast(d: Document, s: Symbol)
    requires Sorted(d) && Terminated(d) && !Has(d, s.position) && Less(s.position, d[|d| - 1].position)
    ensures var r := SortedInsert(d, s); Sorted(r) && Terminated(r) && r[|r| - 1] == d[|d| - 1]
  {
    var k := CountLess(d, s.position);
    SortedInsertKeepsSorted(d, s);
    CountLessFits(d, s.position);
    Antisymmetric(s.position, d[|d| - 1].position);
    assert k < |d|;
  }

  lemma {:induction false} HasCons(ss: seq<Symbol>, p: Position)
    requires ss != []
    ensures Has(ss, p) <==> ss[0].position == p || Has(ss[1..], p)
  {
    if i :| 0 <= i < |ss| && ss[i].position == p {
      assert i > 0 ==> ss[1..][i - 1] == ss[i];
    }
    if i :| 0 <= i < |ss[1..]| && ss[1..][i].position == p {
      assert ss[i + 1] == ss[1..][i];
    }
  }

  lemma {:induction false} HasSnoc(ss: seq<Symbol>, p: Position)
    requires ss != []
    ensures var n := |ss| - 1; Has(ss, p) <==> Has(ss[..n], p) || ss[n].position == p
  {
    var n := |ss| - 1;
    if i :| 0 <= i < |ss| && ss[i].position == p {
      assert i < n ==> ss[..n][i].position == p;
    }
    if i :| 0 <= i < n && ss[..n][i].position == p {
      assert ss[i].position == p;
    }
  }

  lemma {:induction false} AlignKeepsPositions(d: Document, p: Position, a: Alignment)
    ensures SamePositions(d, AlignAt(d, p, a))
    ensures Terminated(d) ==> Terminated(AlignAt(d, p, a))
  {
    var k := CountLess(d, p);
    if k < |d| {
      SamePositionsValid(d, LineEnd(d, k), SetAlignment(d[LineEnd(d, k)], a));
    }
  }

  lemma {:induction false} EndersAmong(ss: seq<Symbol>, d: Document)
    requires forall j :: 0 <= j < |ss| ==> Has(d, ss[j].position)
    ensures forall j :: 0 <= j < |LineEnders(ss)| ==> Has(d, LineEnders(ss)[j].position)
  {
    if ss != [] {
      EndersAmong(ss[..|ss| - 1], d);
    }
  }

  lemma {:induction false} HasSamePositions(d: Document, d': Document, p: Position)
    requires SamePositions(d, d')
    ensures Has(d, p) <==> Has(d', p)
  {
  }

  lemma {:induction false} CountSame(d: Document, d': Document, p: Position)
    requires SamePositions(d, d')
    ensures CountLess(d, p) == CountLess(d', p) && (Has(d, p) <==> Has(d', p))
    ensures InRange(d, p) <==> InRange(d', p)
  {
    if d != [] {
      CountSame(d[1..], d'[1..], p);
    }
    HasSamePositions(d, d', p);
  }

  lemma {:induction false} NotInRange(d: Document, p: Position)
    requires Sorted(d) && !InRange(d, p)
    ensures !Has(d, p)
  {
    if d != [] {
      if Less(p, d[0].position) {
        BetweenFits(d, 0, p);
      } else {
        BetweenFits(d, |d|, p);
      }
    }
  }

  lemma {:induction false} HasInRange(d: Document, p: Position)
    requires Sorted(d) && Has(d, p)
    ensures InRange(d, p)
  {
    if !InRange(d, p) {
      NotInRange(d, p);
    }
  }

  lemma {:induction false} AlignInLine(lines: seq<Line>, size: int, line: nat, p: Position, a: Alignment)
    requires ValidLines(lines, size) && InRange(Flatten(lines), p) && line < |lines| && lines[line] != []
    requires Offset(lines, line, 0) <= CountLess(Flatten(lines), p) < Offset(lines, line, |lines[line]|)
    ensures var last := |lines[line]| - 1;
            && Offset(lines, line, last) < |Flatten(lines)|
            && Flatten(lines)[Offset(lines, line, last) := SetAlignment(lines[line][last], a)]
               == AlignAt(Flatten(lines), p, a)
  {
    var last := |lines[line]| - 1;
    SymbolAt(lines, line, last);
    LineEndAt(lines, line, CountLess(Flatten(lines), p) - Offset(lines, line, 0));
  }

  lemma {:induction false} LineStartAt(lines: seq<Line>, line: nat, index: nat)
    requires Canonical(lines) && line < |lines| && index < |lines[line]|
    ensures Offset(lines, line, index) < |Flatten(lines)|
    ensures LineStart(Flatten(lines), Offset(lines, line, index)) == Offset(lines, line, 0)
    decreases index
  {
    SymbolAt(lines, line, index);
    if index > 0 {
      SymbolAt(lines, line, index - 1);
      LineStartAt(lines, line, index - 1);
    } else {
      NeighbourBefore(lines, line, 0);
    }
  }

  lemma {:induction false} LineEndAt(lines: seq<Line>, line: nat, index: nat)
    requires Canonical(lines) && line < |lines| && index < |lines[line]|
    ensures Offset(lines, line, index) < |Flatten(lines)|
    ensures LineEnd(Flatten(lines), Offset(lines, line, index)) == Offset(lines, line, |lines[line]| - 1)
    decreases |lines[line]| - index
  {
    SymbolAt(lines, line, index);
    if index < |lines[line]| - 1 {
      SymbolAt(lines, line, index + 1);
      LineEndAt(lines, line, index + 1);
    } else if line == |lines| - 1 {
      FlattenAt(lines, line);
      assert lines[line + 1..] == [];
    }
  }

  lemma {:induction false} UpdateFlat(lines: seq<Line>, line: nat, index: nat, s: Symbol)
    requires Canonical(lines) && line < |lines| && index < |lines[line]|
    requires s.value == NEWLINE <==> lines[line][index].value == NEWLINE
    ensures var r := lines[line := lines[line][index := s]];
            && Canonical(r) && Offset(lines, line, index) < |Flatten(lines)|
            && Flatten(r) == Flatten(lines)[Offset(lines, line, index) := s]
  {
    OverwriteFlat(lines, line, index, s);
  }

  lemma {:induction false} OverwriteFlat(lines: seq<Line>, line: nat, index: nat, s: Symbol)
    requires line < |lines| && index < |lines[line]|
    ensures Offset(lines, line, index) < |Flatten(lines)|
    ensures Flatten(lines[line := lines[line][index := s]]) == Flatten(lines)[Offset(lines, line, index) := s]
  {
    var l := lines[line][index := s];
    FlattenAt(lines, line);
    FlattenAround(lines[..line], l, lines[line + 1..]);
    assert lines[line := l] == lines[..line] + [l] + lines[line + 1..];
    UpdateAround(Flatten(lines[..line]), lines[line], Flatten(lines[line + 1..]), index, s);
  }

  /** One symbol was replaced by another with the same position. */
  ghost predicate Overwritten(lines: seq<Line>, line: nat, index: nat, s: Symbol, r: seq<Line>)
    requires line <= |lines|
  {
    && SameShape(lines, r) && r[..line] == lines[..line]
    && Offset(lines, line, index) < |Flatten(lines)|
    && Flatten(r) == Flatten(lines)[Offset(lines, line, index) := s]
    && SamePositions(Flatten(lines), Flatten(r))
    && (Terminated(Flatten(lines)) ==> Terminated(Flatten(r)))
  }

  lemma {:induction false} OverwriteOutcome(lines: seq<Line>, size: int, line: nat, index: nat, s: Symbol)
    requires ValidLines(lines, size) && line < |lines| && index < |lines[line]|
    requires s.position == lines[line][index].position
    requires s.value == NEWLINE <==> lines[line][index].value == NEWLINE
    ensures var r := lines[line := lines[line][index := s]];
            ValidLines(r, size) && Overwritten(lines, line, index, s, r)
  {
    var r := lines[line := lines[line][index := s]];
    var d := Flatten(lines);
    UpdateFlat(lines, line, index, s);
    SymbolAt(lines, line, index);
    SamePositionsValid(d, Offset(lines, line, index), s);
    assert r[..line] == lines[..line];
  }

  lemma {:induction false} SamePositionsValid(d: Document, k: nat, s: Symbol)
    requires k < |d| && s.position == d[k].position && (s.value == NEWLINE <==> d[k].value == NEWLINE)
    ensures SamePositions(d, d[k := s]) && (Terminated(d) ==> Terminated(d[k := s]))
    ensures Sorted(d) ==> Sorted(d[k := s])
    ensures AllWellFormed(d) ==> AllWellFormed(d[k := s])
  {
    var r := d[k := s];
    assert forall i :: 0 <= i < |d| ==> d[i].position == r[i].position;
    if Sorted(d) {
      forall i, j | 0 <= i < j < |r| ensures Less(r[i].position, r[j].position) {
        assert Less(d[i].position, d[j].position);
      }
    }
  }

  lemma {:induction false} UpdateAround(a: Document, l: Document, b: Document, index: nat, s: Symbol)
    requires index < |l|
    ensures a + l[index := s] + b == (a + l + b)[|a| + index := s]
  {
  }

  function EraseBranches(lines: seq<Line>, line: nat, index: nat, newline: bool): seq<Line>
    requires line < |lines| && index < |lines[line]|
  {
    if newline && line + 1 < |lines| then EraseInLines(lines, line, index, true)
    else if |lines[line]| == 1 then lines[..line] + lines[line + 1..]
    else EraseInLines(lines, line, index, false)
  }

  /** A lookup points at one place. */
  lemma {:induction false} FoundIsLocated(lines: seq<Line>, p: Position, line: nat, index: nat)
    requires Sorted(Flatten(lines)) && Found(lines, p, line, index)
    ensures CountLess(Flatten(lines), p) < |Flatten(lines)|
    ensures (line, index) == Locate(lines, p)
  {
    var d, k := Flatten(lines), CountLess(Flatten(lines), p);
    FlattenAt(lines, line);
    LineOfOffset(lines, line, k - Offset(lines, line, 0));
    CountLessFits(d, p);
    FitsSeparates(d, k, p);
    SymbolAt(lines, line, index);
    if Has(d, p) {
      ExactPlace(lines, line, index);
    }
  }

  lemma {:induction false} LineOfOffset(lines: seq<Line>, line: nat, index: nat)
    requires line < |lines| && index < |lines[line]|
    ensures Offset(lines, line, index) < |Flatten(lines)| && LineOf(lines, Offset(lines, line, index)) == line
  {
    SymbolAt(lines, line, index);
    if line == 0 {
      assert lines[..0] == [];
    } else {
      assert lines[..line] == [lines[0]] + lines[1..][..line - 1];
      LineOfOffset(lines[1..], line - 1, index);
    }
  }

  /** Every branch of a remote erase removes the symbol it points at. */
  lemma {:induction false} EraseFoundOutcome(lines: seq<Line>, line: nat, index: nat, s: Symbol)
    requires Sorted(Flatten(lines)) && Found(lines, s.position, line, index)
    ensures var d, k, r := Flatten(lines), Offset(lines, line, index), EraseBranches(lines, line, index, s.value == NEWLINE);
            && k < |d| && Flatten(r) == RemoveAt(d, k) && Sorted(Flatten(r))
            && (Flatten(r) == Without(d, s.position) <==> Has(d, s.position))
            && (Has(d, s.position) ==> Place(lines, line, index) && k == CountLess(d, s.position))
  {
    var d, k := Flatten(lines), Offset(lines, line, index);
    EraseBranchesFlat(lines, line, index, s.value == NEWLINE);
    RemoveAtKeepsSorted(d, k);
    if Has(d, s.position) {
      ExactPlace(lines, line, index);
      SymbolAt(lines, line, index);
      WithoutPresent(d, k);
    } else {
      WithoutAbsent(d, s.position);
    }
  }

  lemma {:induction false} EraseOneFound(lines: seq<Line>, line: nat, index: nat, s: Symbol)
    requires Sorted(Flatten(lines)) && Found(lines, s.position, line, index)
    ensures CountLess(Flatten(lines), s.position) < |Flatten(lines)|
    ensures (line, index) == Locate(lines, s.position)
    ensures EraseOne(lines, s) == EraseBranches(lines, line, index, s.value == NEWLINE)
  {
    FoundIsLocated(lines, s.position, line, index);
  }

  /** What `EraseRemote` does once the symbol is found; for a removable symbol the lines stay valid. */
  lemma {:induction false} EraseOutcome(lines: seq<Line>, size: int, line: nat, index: nat, s: Symbol)
    requires Sorted(Flatten(lines)) && Found(lines, s.position, line, index)
    ensures CountLess(Flatten(lines), s.position) < |Flatten(lines)|
    ensures var d, r := Flatten(lines), EraseBranches(lines, line, index, s.value == NEWLINE);
            && (line, index) == Locate(lines, s.position) && r == EraseOne(lines, s)
            && |Flatten(r)| == |d| - 1 && Sorted(Flatten(r))
            && (Flatten(r) == Without(d, s.position) <==> Has(d, s.position))
            && (Canonical(lines) ==> Flatten(r) == RemoveAt(d, Target(d, s.position)))
            && (Removable(d, s) ==> Has(d, s.position) && (ValidLines(lines, size) ==> ValidLines(r, size - 1)))
  {
    EraseOneFound(lines, line, index, s);
    EraseFoundOutcome(lines, line, index, s);
    if Canonical(lines) {
      TargetAt(lines, line, index, s.position);
    }
    if Removable(Flatten(lines), s) {
      EraseRemovable(lines, size, line, index, s);
    }
  }

  lemma {:induction false} EraseRemovable(lines: seq<Line>, size: int, line: nat, index: nat, s: Symbol)
    requires Sorted(Flatten(lines)) && Found(lines, s.position, line, index) && Removable(Flatten(lines), s)
    ensures Has(Flatten(lines), s.position)
    ensures ValidLines(lines, size) ==> ValidLines(EraseBranches(lines, line, index, s.value == NEWLINE), size - 1)
  {
    var d := Flatten(lines);
    var j :| StoredAt(d, j, s) && j < |d| - 1;
    assert Has(d, s.position);
    if ValidLines(lines, size) {
      EraseBranchesFlat(lines, line, index, s.value == NEWLINE);
      EraseKeepsCanonical(lines, line, index, s);
    }
  }

  lemma {:induction false} WithoutAllFront(d: Document, ss: seq<Symbol>)
    requires ss != []
    ensures WithoutAll(d, ss) == WithoutAll(Without(d, ss[0].position), ss[1..])
    decreases |ss|
  {
    var n := |ss| - 1;
    if n == 0 {
      assert ss[..0] == [] && ss[1..] == [];
    } else {
      WithoutAllFront(d, ss[..n]);
      FrontAndBack(ss);
    }
  }

  /** Where the search of an erasure in range points. */
  lemma {:induction false} Sought(lines: seq<Line>, p: Position) returns (line: nat, index: nat)
    requires Sorted(Flatten(lines)) && CountLess(Flatten(lines), p) < |Flatten(lines)|
    ensures Found(lines, p, line, index)
  {
    var d, k := Flatten(lines), CountLess(Flatten(lines), p);
    line, index := PlaceOf(lines, k);
    CountLessFits(d, p);
    FitsSeparates(d, k, p);
    SymbolAt(lines, line, index);
    if !Has(d, p) {
      index := 0;
    }
  }

  /** Every symbol of the flat document stands somewhere in the lines. */
  lemma {:induction false} PlaceOf(lines: seq<Line>, k: nat) returns (line: nat, index: nat)
    requires k < |Flatten(lines)|
    ensures line < |lines| && index < |lines[line]| && Offset(lines, line, index) == k
  {
    if k < |lines[0]| {
      assert lines[..0] == [];
      line, index := 0, k;
    } else {
      line, index := PlaceOf(lines[1..], k - |lines[0]|);
      assert lines[..line + 1] == [lines[0]] + lines[1..][..line];
      line := line + 1;
    }
  }

  /** An erasure of stored symbols is handled to its end. */
  lemma {:induction false} ErasableRun(lines: seq<Line>, size: int, ss: seq<Symbol>)
    requires ValidLines(lines, size) && Erasable(Flatten(lines), ss)
    ensures Outlasts(lines, ss) && ErasesAll(lines, ss)
    ensures ValidLines(EraseUntil(lines, ss), size - |ss|)
    ensures Flatten(EraseUntil(lines, ss)) == WithoutAll(Flatten(lines), ss)
    ensures ss != [] ==>
              var k := CountLess(Flatten(lines), ss[0].position);
              && k < |Flatten(lines)| && var place := Locate(lines, ss[0].position);
              && place.0 >= 0 && Place(lines, place.0, place.1) && Offset(lines, place.0, place.1) == k
    decreases |ss|
  {
    if ss != [] {
      var d := Flatten(lines);
      ErasableStep(d, ss);
      ErasedFirst(lines, size, ss[0]);
      ErasableRun(EraseOne(lines, ss[0]), size - 1, ss[1..]);
      WithoutAllFront(d, ss);
    }
  }

  lemma {:induction false} ErasedFirst(lines: seq<Line>, size: int, s: Symbol)
    requires ValidLines(lines, size) && Terminated(Flatten(lines)) && Removable(Flatten(lines), s)
    ensures Lookable(lines, s.position) && !Stops(Flatten(lines), s.position)
    ensures ValidLines(EraseOne(lines, s), size - 1)
    ensures Flatten(EraseOne(lines, s)) == Without(Flatten(lines), s.position)
    ensures var place := Locate(lines, s.position);
            && place.0 >= 0 && Place(lines, place.0, place.1)
            && Offset(lines, place.0, place.1) == CountLess(Flatten(lines), s.position)
  {
    var d := Flatten(lines);
    var j :| StoredAt(d, j, s) && j < |d| - 1;
    assert Has(d, s.position);
    HasInRange(d, s.position);
    CanonicalLookable(lines, s.position);
    OwnCount(d, j);
    var line, index := Sought(lines, s.position);
    EraseOutcome(lines, size, line, index, s);
    EraseFoundOutcome(lines, line, index, s);
  }

  lemma {:induction false} TargetAt(lines: seq<Line>, line: nat, index: nat, p: Position)
    requires Canonical(lines) && Sorted(Flatten(lines)) && Found(lines, p, line, index)
    ensures CountLess(Flatten(lines), p) < |Flatten(lines)|
    ensures Target(Flatten(lines), p) == Offset(lines, line, index)
  {
    var d := Flatten(lines);
    var k := CountLess(d, p);
    LineStartAt(lines, line, k - Offset(lines, line, 0));
    CountLessFits(d, p);
    FitsSeparates(d, k, p);
    if Has(d, p) {
      ExactPlace(lines, line, index);
    }
  }

  lemma {:induction false} EraseBranchesFlat(lines: seq<Line>, line: nat, index: nat, newline: bool)
    requires line < |lines| && index < |lines[line]|
    ensures Offset(lines, line, index) < |Flatten(lines)|
    ensures Flatten(EraseBranches(lines, line, index, newline))
         == RemoveAt(Flatten(lines), Offset(lines, line, index))
  {
    EraseFlat(lines, line, index, newline);
    DropLine(lines, line);
    if !(newline && line + 1 < |lines|) {
      EraseFlat(lines, line, index, false);
    }
  }

  lemma {:induction false} DropLine(lines: seq<Line>, line: nat)
    requires line < |lines|
    ensures |lines[line]| == 1 ==>
              && Offset(lines, line, 0) < |Flatten(lines)|
              && Flatten(lines[..line] + lines[line + 1..]) == RemoveAt(Flatten(lines), Offset(lines, line, 0))
  {
    FlattenAt(lines, line);
    FlattenConcat(lines[..line], lines[line + 1..]);
  }

  lemma {:induction false} EraseKeepsCanonical(lines: seq<Line>, line: nat, index: nat, s: Symbol)
    requires Canonical(lines) && Sorted(Flatten(lines)) && AllWellFormed(Flatten(lines))
    requires line < |lines| && index < |lines[line]| && lines[line][index].position == s.position
    requires Removable(Flatten(lines), s)
    ensures var d, k := Flatten(lines), Offset(lines, line, index);
            && k < |d| - 1 && Sorted(RemoveAt(d, k)) && AllWellFormed(RemoveAt(d, k))
    ensures s.value == NEWLINE <==> lines[line][index].value == NEWLINE
    ensures Canonical(EraseInLines(lines, line, index, s.value == NEWLINE))
    ensures |lines[line]| == 1 ==> s.value == NEWLINE && line + 1 < |lines|
  {
    var d, k := Flatten(lines), Offset(lines, line, index);
    SymbolAt(lines, line, index);
    var j :| StoredAt(d, j, s) && j < |d| - 1;
    Antisymmetric(d[j].position, d[k].position);
    assert j == k;
    RemoveKeepsShape(d, k);
    EraseCanonical(lines, line, index);
    if line == |lines| - 1 {
      FlattenAt(lines, line);
      assert lines[line + 1..] == [];
    }
  }

  lemma {:induction false} ErasableStep(d: Document, ss: seq<Symbol>)
    requires Sorted(d) && Erasable(d, ss) && ss != []
    ensures Removable(d, ss[0]) && Has(d, ss[0].position)
    ensures Erasable(Without(d, ss[0].position), ss[1..])
  {
    assert Removable(d, ss[0]);
    var k :| StoredAt(d, k, ss[0]) && k < |d| - 1;
    WithoutPresent(d, k);
    var r := RemoveAt(d, k);
    assert r[|r| - 1] == d[|d| - 1];
    forall i | 0 <= i < |ss[1..]| ensures Removable(r, ss[1..][i]) {
      assert Removable(d, ss[i + 1]);
      var j :| StoredAt(d, j, ss[i + 1]) && j < |d| - 1;
      var j' := if j < k then j else j - 1;
      assert r[j'] == d[j];
      assert StoredAt(r, j', ss[1..][i]);
    }
  }
}

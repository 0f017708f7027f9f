/** Erasures of symbols that are no longer there: what the loop of `handleRemoteErase`
(Client/CRDT.cpp:656-696) makes of any message, and exactly when that is what the message means.
*/
module LateErasures {
  import opened Positions
  import opened Documents
  import opened Lines
  import opened ClientDocument
  import opened ReplayAgreement

  // ----- The loop on flat documents -----

  /** The loop as it acts on the flat document: a stored symbol goes, for an absent one within the
  document's range some symbol not behind its place goes, and the first one outside the range ends it. */
  ghost predicate EraseRun(d: Document, ss: seq<Symbol>, r: Document)
    decreases |ss|
  {
    if ss == [] || Stops(d, ss[0].position) then r == d
    else exists t: nat :: Hit(d, ss[0].position, t) && EraseRun(RemoveAt(d, t), ss[1..], r)
  }

  predicate Hit(d: Document, p: Position, t: nat) {
    t < |d| && t <= CountLess(d, p) && (Has(d, p) ==> t == CountLess(d, p))
  }

  lemma {:induction false} ErasedAt(lines: seq<Line>, s: Symbol) returns (t: nat)
    requires Sorted(Flatten(lines)) && CountLess(Flatten(lines), s.position) < |Flatten(lines)|
    ensures Hit(Flatten(lines), s.position, t) && Flatten(EraseOne(lines, s)) == RemoveAt(Flatten(lines), t)
    ensures Sorted(RemoveAt(Flatten(lines), t))
  {
    var line, index := Sought(lines, s.position);
    EraseOutcome(lines, 0, line, index, s);
    EraseFoundOutcome(lines, line, index, s);
    t := Offset(lines, line, index);
  }

  lemma {:induction false} UntilRuns(lines: seq<Line>, ss: seq<Symbol>)
    requires Sorted(Flatten(lines))
    ensures EraseRun(Flatten(lines), ss, Flatten(EraseUntil(lines, ss))) && Sorted(Flatten(EraseUntil(lines, ss)))
    decreases |ss|
  {
    if ss != [] && !Stops(Flatten(lines), ss[0].position) {
      var t := ErasedAt(lines, ss[0]);
      UntilRuns(EraseOne(lines, ss[0]), ss[1..]);
    }
  }

  // ----- What is left -----

  lemma {:induction false} MembersWithoutAll(d: Document, ss: seq<Symbol>, x: Symbol)
    ensures x in WithoutAll(d, ss) <==> x in d && !Has(ss, x.position)
    decreases |ss|
  {
    if ss != [] {
      MembersWithoutAll(d, ss[..|ss| - 1], x);
      InWithout(WithoutAll(d, ss[..|ss| - 1]), ss[|ss| - 1].position, x);
      HasSnoc(ss, x.position);
    }
  }

  lemma {:induction false} WithoutNone(d: Document, ss: seq<Symbol>)
    requires forall i :: 0 <= i < |ss| ==> !Has(d, ss[i].position)
    ensures WithoutAll(d, ss) == d
    decreases |ss|
  {
    if ss != [] {
      WithoutNone(d, ss[..|ss| - 1]);
      WithoutAbsent(d, ss[|ss| - 1].position);
    }
  }

  /** Nothing goes exactly when nothing named is there. */
  lemma {:induction false} WithoutAnything(d: Document, ss: seq<Symbol>)
    ensures WithoutAll(d, ss) == d <==> forall i :: 0 <= i < |ss| ==> !Has(d, ss[i].position)
  {
    if forall i :: 0 <= i < |ss| ==> !Has(d, ss[i].position) {
      WithoutNone(d, ss);
    } else {
      var i :| 0 <= i < |ss| && Has(d, ss[i].position);
      var k :| 0 <= k < |d| && d[k].position == ss[i].position;
      MembersWithoutAll(d, ss, d[k]);
    }
  }

  lemma {:induction false} RunRemoves(d: Document, ss: seq<Symbol>, r: Document, x: Symbol)
    requires EraseRun(d, ss, r) && x in r
    ensures x in d
    decreases |ss|
  {
    if ss != [] && !Stops(d, ss[0].position) {
      var t: nat :| Hit(d, ss[0].position, t) && EraseRun(RemoveAt(d, t), ss[1..], r);
      RunRemoves(RemoveAt(d, t), ss[1..], r, x);
    }
  }

  // ----- Stored symbols before the end of the range -----

  /** Any message, in any order: stored symbols go one by one until the first one outside the range, and
  what comes behind that one is never erased. */
  lemma {:induction false} StopsBehind(d: Document, ss: seq<Symbol>, j: nat, r: Document)
    requires Sorted(d) && EraseRun(d, ss, r) && j < |ss|
    requires forall i :: 0 <= i < j ==> Has(d, ss[i].position)
    requires forall i, k :: 0 <= i < k < j ==> ss[i].position != ss[k].position
    requires Stops(WithoutAll(d, ss[..j]), ss[j].position)
    ensures r == WithoutAll(d, ss[..j])
    ensures r == WithoutAll(d, ss) <==> forall i :: j <= i < |ss| ==> !Has(r, ss[i].position)
    decreases |ss|
  {
    if j == 0 {
      assert ss[..0] == [];
      WithoutAnything(d, ss);
    } else {
      var t := FirstGoes(d, ss, r);
      WithoutAllFront(d, ss);
      FrontStays(d, ss, j, t);
      StopsBehind(RemoveAt(d, t), ss[1..], j - 1, r);
      assert (forall i :: j <= i < |ss| ==> !Has(r, ss[i].position)) <==>
             (forall i :: j - 1 <= i < |ss[1..]| ==> !Has(r, ss[1..][i].position)) by {
        BehindFirst(ss, j, r);
      }
    }
  }

  lemma {:induction false} FrontStays(d: Document, ss: seq<Symbol>, j: nat, t: nat)
    requires 0 < j < |ss| && t < |d| && d[t].position == ss[0].position
    requires Without(d, ss[0].position) == RemoveAt(d, t)
    requires forall i :: 0 <= i < j ==> Has(d, ss[i].position)
    requires forall i, k :: 0 <= i < k < j ==> ss[i].position != ss[k].position
    ensures forall i :: 0 <= i < j - 1 ==> Has(RemoveAt(d, t), ss[1..][i].position)
    ensures forall i, k :: 0 <= i < k < j - 1 ==> ss[1..][i].position != ss[1..][k].position
    ensures WithoutAll(d, ss[..j]) == WithoutAll(RemoveAt(d, t), ss[1..][..j - 1])
  {
    assert ss[1..][..j - 1] == ss[..j][1..];
    WithoutAllFront(d, ss[..j]);
    forall i | 0 <= i < j - 1 ensures Has(RemoveAt(d, t), ss[1..][i].position) {
      assert Has(d, ss[i + 1].position) && ss[0].position != ss[i + 1].position;
      StillThere(d, t, ss[i + 1].position);
    }
  }

  lemma {:induction false} BehindFirst(ss: seq<Symbol>, j: nat, r: Document)
    requires 0 < j < |ss|
    ensures (forall i :: j <= i < |ss| ==> !Has(r, ss[i].position)) <==>
            (forall i :: j - 1 <= i < |ss[1..]| ==> !Has(r, ss[1..][i].position))
  {
    assert forall i :: j <= i < |ss| ==> ss[i] == ss[1..][i - 1];
    assert forall i :: j - 1 <= i < |ss[1..]| ==> ss[1..][i] == ss[i + 1];
  }

  /** A stored symbol at the front of a message goes, and nothing else. */
  lemma {:induction false} FirstGoes(d: Document, ss: seq<Symbol>, r: Document) returns (t: nat)
    requires Sorted(d) && EraseRun(d, ss, r) && ss != [] && Has(d, ss[0].position)
    ensures t < |d| && d[t].position == ss[0].position && t == CountLess(d, ss[0].position)
    ensures Without(d, ss[0].position) == RemoveAt(d, t) && Sorted(RemoveAt(d, t))
    ensures EraseRun(RemoveAt(d, t), ss[1..], r)
  {
    var p := ss[0].position;
    HasInRange(d, p);
    t := CountLess(d, p);
    CountLessFits(d, p);
    FitsSeparates(d, t, p);
    WithoutPresent(d, t);
    RemoveAtKeepsSorted(d, t);
  }

  lemma {:induction false} StillThere(d: Document, t: nat, p: Position)
    requires t < |d|
    ensures Has(RemoveAt(d, t), p) ==> Has(d, p)
    ensures Has(d, p) && d[t].position != p ==> Has(RemoveAt(d, t), p)
  {
    var r := RemoveAt(d, t);
    if i :| 0 <= i < |r| && r[i].position == p {
      assert d[if i < t then i else i + 1] == r[i];
    }
    if i :| 0 <= i < |d| && d[i].position == p && i != t {
      assert r[if i < t then i else i - 1] == d[i];
    }
  }

  // ----- Messages in document order -----

  /** As clients send them: in document order, all before the receiver's last symbol. */
  predicate Orderly(d: Document, ss: seq<Symbol>) {
    && Sorted(d) && d != [] && Sorted(ss)
    && (ss != [] ==> Less(ss[|ss| - 1].position, d[|d| - 1].position))
  }

  /** The stored symbols come first; behind them, if anything is left, the document has nothing else
  in front of the next one. */
  predicate FrontGone(d: Document, ss: seq<Symbol>, j: int) {
    && 0 <= j <= |ss|
    && (forall i :: 0 <= i < j ==> Has(d, ss[i].position))
    && (forall i :: j <= i < |ss| ==> !Has(d, ss[i].position))
    && (j < |ss| ==> CountLess(d, ss[j].position) == j)
  }

  ghost predicate Erases(d: Document, ss: seq<Symbol>) {
    exists j :: FrontGone(d, ss, j)
  }

  lemma {:induction false} OrderlyRest(d: Document, ss: seq<Symbol>, t: nat)
    requires Orderly(d, ss) && ss != [] && t < |d| - 1
    ensures Orderly(RemoveAt(d, t), ss[1..]) && RemoveAt(d, t)[|d| - 2] == d[|d| - 1]
  {
    RemoveAtKeepsSorted(d, t);
    assert Sorted(ss[1..]);
  }

  lemma {:induction false} NotLastIn(d: Document, ss: seq<Symbol>)
    requires Orderly(d, ss)
    ensures !Has(ss, d[|d| - 1].position)
    ensures forall i :: 0 <= i < |ss| ==> Less(ss[i].position, d[|d| - 1].position)
    ensures ss != [] ==> (Stops(d, ss[0].position) <==> Less(ss[0].position, d[0].position))
  {
    if ss != [] {
      var t := d[|d| - 1].position;
      forall i | 0 <= i < |ss| ensures ss[i].position != t && Less(ss[i].position, t) {
        if i < |ss| - 1 {
          Transitive(ss[i].position, ss[|ss| - 1].position, t);
        }
        Antisymmetric(ss[i].position, t);
      }
      CountLessFits(d, ss[0].position);
      FitsSeparates(d, CountLess(d, ss[0].position), ss[0].position);
      Antisymmetric(ss[0].position, t);
    }
  }

  /** Erasing an absent symbol within the range takes away, at once or in the end, a symbol that the
  message does not name. */
  lemma {:induction false} OutsiderLost(d: Document, ss: seq<Symbol>, r: Document) returns (x: Symbol)
    requires Orderly(d, ss) && EraseRun(d, ss, r)
    requires ss != [] && !Has(d, ss[0].position) && Less(d[0].position, ss[0].position)
    ensures x in d && !Has(ss, x.position) && x !in r
    decreases |ss|
  {
    var p := ss[0].position;
    NotLastIn(d, ss);
    Antisymmetric(d[0].position, p);
    var t: nat :| Hit(d, p, t) && EraseRun(RemoveAt(d, t), ss[1..], r);
    if Has(ss, d[t].position) {
      x := NextLost(d, ss, t, r);
    } else {
      x := d[t];
      TakenOut(d, t, ss[1..], r);
    }
  }

  lemma {:induction false} TakenOut(d: Document, t: nat, ss: seq<Symbol>, r: Document)
    requires Sorted(d) && t < |d| && EraseRun(RemoveAt(d, t), ss, r)
    ensures d[t] !in r
  {
    RemoveAtKeepsSorted(d, t);
    if d[t] in r {
      RunRemoves(RemoveAt(d, t), ss, r, d[t]);
    }
  }

  /** The symbol that went is named further on: then the next one of the message is absent too. */
  lemma {:induction false} NextLost(d: Document, ss: seq<Symbol>, t: nat, r: Document) returns (x: Symbol)
    requires Orderly(d, ss) && ss != [] && !Has(d, ss[0].position) && Less(d[0].position, ss[0].position)
    requires Hit(d, ss[0].position, t) && Has(ss, d[t].position) && EraseRun(RemoveAt(d, t), ss[1..], r)
    ensures x in d && !Has(ss, x.position) && x !in r
    decreases |ss|, 0
  {
    var p, d' := ss[0].position, RemoveAt(d, t);
    var j :| 0 <= j < |ss| && ss[j].position == d[t].position;
    CountLessFits(d, p);
    FitsSeparates(d, CountLess(d, p), p);
    assert j > 0 && t == CountLess(d, p) by {
      assert Less(p, ss[j].position) || j == 0;
      Antisymmetric(p, d[t].position);
    }
    assert t > 0;
    NotLastIn(d, ss);
    OrderlyRest(d, ss, t);
    AbsentNext(d, ss, t, j);
    x := OutsiderLost(d', ss[1..], r);
    HasCons(ss, x.position);
  }

  lemma {:induction false} AbsentNext(d: Document, ss: seq<Symbol>, t: nat, j: nat)
    requires Sorted(d) && Sorted(ss) && 0 < j < |ss| && 0 < t < |d| - 1 && ss[j].position == d[t].position
    requires Less(d[t - 1].position, ss[0].position)
    ensures var q := ss[1].position; !Has(RemoveAt(d, t), q) && Less(RemoveAt(d, t)[0].position, q)
  {
    var q, r := ss[1].position, RemoveAt(d, t);
    Transitive(d[t - 1].position, ss[0].position, q);
    if j > 1 {
      Transitive(q, d[t].position, d[t + 1].position);
    }
    assert r[t - 1] == d[t - 1] && r[t] == d[t + 1];
    RemoveAtKeepsSorted(d, t);
    BetweenFits(r, t, q);
    if t > 1 {
      Transitive(d[0].position, d[t - 1].position, q);
    }
  }

  /** The condition before and after the first symbol, a stored one, is gone. */
  lemma {:induction false} ErasesRest(d: Document, ss: seq<Symbol>, t: nat)
    requires Sorted(d) && Sorted(ss) && ss != [] && t < |d| && d[t].position == ss[0].position
    ensures Erases(d, ss) <==> Erases(RemoveAt(d, t), ss[1..])
  {
    var d', rest := RemoveAt(d, t), ss[1..];
    RemoveAtKeepsSorted(d, t);
    forall i | 0 <= i < |rest|
      ensures Has(d', rest[i].position) <==> Has(d, ss[i + 1].position)
      ensures CountLess(d, ss[i + 1].position) == CountLess(d', rest[i].position) + 1
    {
      Antisymmetric(ss[0].position, ss[i + 1].position);
      StillThere(d, t, ss[i + 1].position);
      CountWithout(d, t, ss[i + 1].position);
    }
    if j :| FrontGone(d, ss, j) {
      assert Has(d, ss[0].position);
      assert FrontGone(d', rest, j - 1);
    }
    if j :| FrontGone(d', rest, j) {
      assert FrontGone(d, ss, j + 1) by {
        forall i | 0 <= i < j + 1 ensures Has(d, ss[i].position) {
          assert i > 0 ==> Has(d', rest[i - 1].position);
        }
        forall i | j + 1 <= i < |ss| ensures !Has(d, ss[i].position) {
          assert !Has(d', rest[i - 1].position);
        }
      }
    }
  }

  lemma {:induction false} CountWithout(d: Document, t: nat, p: Position)
    requires Sorted(d) && t < |d| && Less(d[t].position, p)
    ensures CountLess(d, p) == CountLess(RemoveAt(d, t), p) + 1
  {
    var k, r := CountLess(d, p), RemoveAt(d, t);
    CountLessFits(d, p);
    FitsSeparates(d, k, p);
    Antisymmetric(d[t].position, p);
    assert t < k;
    RemoveAtKeepsSorted(d, t);
    assert k > 1 ==> r[k - 2] == if k - 1 == t then d[k - 2] else d[k - 1];
    assert k < |d| ==> r[k - 1] == d[k];
    FitsIsCountLess(r, k - 1, p);
  }

  /** A message in document order does what it means exactly when its stored symbols come first, and
  nothing else of the document lies before the rest of it. */
  lemma {:induction false} ErasesExactly(d: Document, ss: seq<Symbol>, r: Document)
    requires Orderly(d, ss) && EraseRun(d, ss, r)
    ensures r == WithoutAll(d, ss) <==> Erases(d, ss)
    decreases |ss|
  {
    if ss == [] {
      assert FrontGone(d, ss, 0);
    } else {
      NotLastIn(d, ss);
      var p := ss[0].position;
      if Has(d, p) {
        var t := FirstGoes(d, ss, r);
        Antisymmetric(p, d[|d| - 1].position);
        OrderlyRest(d, ss, t);
        ErasesExactly(RemoveAt(d, t), ss[1..], r);
        ErasesRest(d, ss, t);
        WithoutAllFront(d, ss);
      } else {
        ErasesAbsent(d, ss, r);
      }
    }
  }

  lemma {:induction false} ErasesAbsent(d: Document, ss: seq<Symbol>, r: Document)
    requires Orderly(d, ss) && EraseRun(d, ss, r) && ss != [] && !Has(d, ss[0].position)
    ensures r == WithoutAll(d, ss) <==> Erases(d, ss)
  {
    var p := ss[0].position;
    NotLastIn(d, ss);
    CountLessFits(d, p);
    FitsSeparates(d, CountLess(d, p), p);
    Antisymmetric(p, d[0].position);
    if Less(p, d[0].position) {
      WithoutAnything(d, ss);
      assert CountLess(d, p) == 0;
      assert Erases(d, ss) <==> FrontGone(d, ss, 0);
    } else {
      var x := OutsiderLost(d, ss, r);
      MembersWithoutAll(d, ss, x);
      assert forall j :: FrontGone(d, ss, j) ==> j == 0;
    }
  }

  // ----- On the lines -----

  lemma {:induction false} FilledErase(lines: seq<Line>, s: Symbol)
    requires Filled(lines) && CountLess(Flatten(lines), s.position) < |Flatten(lines)|
    ensures Flatten(EraseOne(lines, s)) != [] ==> Filled(EraseOne(lines, s))
  {
    var place, r := Locate(lines, s.position), EraseOne(lines, s);
    if Inside(lines, place) {
      FilledBranches(lines, place.0, place.1, s.value == NEWLINE);
    }
  }

  lemma {:induction false} FilledBranches(lines: seq<Line>, line: nat, index: nat, newline: bool)
    requires Filled(lines) && line < |lines| && index < |lines[line]|
    ensures EraseBranches(lines, line, index, newline) == [] || Filled(EraseBranches(lines, line, index, newline))
  {
    var r := EraseBranches(lines, line, index, newline);
    if newline && line + 1 < |lines| {
      assert forall i :: 0 <= i < |r| ==>
               r[i] == if i < line then lines[i] else if i == line then RemoveAt(lines[line], index) + lines[line + 1] else lines[i + 1];
    } else if |lines[line]| == 1 {
      assert forall i :: 0 <= i < |r| ==> r[i] == lines[if i < line then i else i + 1];
    } else {
      assert forall i :: 0 <= i < |r| ==> r[i] == if i == line then RemoveAt(lines[line], index) else lines[i];
    }
  }

  /** The searches of an orderly message stay defined: a last symbol is left behind everything it names,
  or, once that one is gone too, the next search stops the loop. */
  lemma {:induction false} OrderlyOutlasts(lines: seq<Line>, ss: seq<Symbol>)
    requires Filled(lines) && Orderly(Flatten(lines), ss)
    ensures Outlasts(lines, ss)
    decreases |ss|
  {
    if ss != [] && !Stops(Flatten(lines), ss[0].position) {
      var d := Flatten(lines);
      var t := ErasedAt(lines, ss[0]);
      FilledErase(lines, ss[0]);
      NotLastIn(d, ss);
      if t < |d| - 1 {
        OrderlyRest(d, ss, t);
        OrderlyOutlasts(EraseOne(lines, ss[0]), ss[1..]);
      } else {
        LastGone(d, ss);
        BeyondOutlasts(EraseOne(lines, ss[0]), ss[1..]);
      }
    }
  }

  lemma {:induction false} BeyondOutlasts(lines: seq<Line>, ss: seq<Symbol>)
    requires Filled(lines) && (ss != [] ==> Less(Flatten(lines)[|Flatten(lines)| - 1].position, ss[0].position))
    ensures Outlasts(lines, ss)
  {
  }

  lemma {:induction false} LastGone(d: Document, ss: seq<Symbol>)
    requires Orderly(d, ss) && ss != [] && Hit(d, ss[0].position, |d| - 1) && !Stops(d, ss[0].position)
    ensures |d| > 1 && RemoveAt(d, |d| - 1) == d[..|d| - 1]
    ensures |ss| > 1 ==> Less(d[|d| - 2].position, ss[1].position)
  {
    var p := ss[0].position;
    NotLastIn(d, ss);
    CountLessFits(d, p);
    assert |d| > 1;
    if |ss| > 1 {
      Transitive(d[|d| - 2].position, p, ss[1].position);
    }
  }

  /** What a client makes of an orderly message: nothing fails, and the message is done exactly when its
  stored symbols come first and nothing else of the document lies before the rest of it. */
  lemma {:induction false} HandledExactly(lines: seq<Line>, ss: seq<Symbol>)
    requires Filled(lines) && Orderly(Flatten(lines), ss)
    ensures Outlasts(lines, ss)
    ensures Flatten(EraseUntil(lines, ss)) == WithoutAll(Flatten(lines), ss) <==> Erases(Flatten(lines), ss)
  {
    OrderlyOutlasts(lines, ss);
    UntilRuns(lines, ss);
    ErasesExactly(Flatten(lines), ss, Flatten(EraseUntil(lines, ss)));
  }

  // ----- Two clients that erase at the same time -----

  predicate Apart(k: nat, n: nat, k2: nat, n2: nat) {
    n == 0 || n2 == 0 || k + n <= k2 || k2 + n2 <= k
  }

  /** What the other client erased does no harm here: the ranges have nothing in common, or one of them
  starts the document and the other client's ends first. */
  predicate Safe(k: nat, n: nat, k2: nat, n2: nat) {
    Apart(k, n, k2, n2) || ((k == 0 || k2 == 0) && k2 + n2 <= k + n)
  }

  lemma {:induction false} SliceOrderly(d: Document, k: nat, n: nat, k2: nat, n2: nat)
    requires Sorted(d) && k + n < |d| && k2 + n2 < |d|
    ensures Orderly(Cut(d, k, n), d[k2..k2 + n2])
  {
    CutSorted(d, k, n);
    assert Cut(d, k, n)[|d| - n - 1] == d[|d| - 1];
  }

  /** Which symbols of a range are left after a cut, and how many stay in front of the others. */
  lemma {:induction false} LeftByCut(d: Document, k: nat, n: nat, i: nat)
    requires Sorted(d) && k + n < |d| && i < |d|
    ensures Has(Cut(d, k, n), d[i].position) <==> !(k <= i < k + n)
    ensures CountLess(Cut(d, k, n), d[i].position) == if i < k then i else if i < k + n then k else i - n
  {
    var r, p := Cut(d, k, n), d[i].position;
    CutSorted(d, k, n);
    if k <= i < k + n {
      assert k > 0 ==> r[k - 1] == d[k - 1];
      assert r[k] == d[k + n];
      BetweenFits(r, k, p);
    } else {
      var j := if i < k then i else i - n;
      assert r[j] == d[i];
      OwnCount(r, j);
    }
  }

  lemma {:induction false} SafeExactly(d: Document, k: nat, n: nat, k2: nat, n2: nat)
    requires Sorted(d) && k + n < |d| && k2 + n2 < |d|
    ensures Erases(Cut(d, k, n), d[k2..k2 + n2]) <==> Safe(k, n, k2, n2)
  {
    var r, ss := Cut(d, k, n), d[k2..k2 + n2];
    forall i | 0 <= i < n2
      ensures Has(r, ss[i].position) <==> !(k <= k2 + i < k + n)
      ensures k <= k2 + i < k + n ==> CountLess(r, ss[i].position) == k
    {
      LeftByCut(d, k, n, k2 + i);
    }
    if Safe(k, n, k2, n2) {
      var j := if Apart(k, n, k2, n2) then n2 else if k2 < k then k - k2 else 0;
      assert FrontGone(r, ss, j);
    }
    if j :| FrontGone(r, ss, j) {
      if !Apart(k, n, k2, n2) {
        var i := if k2 < k then k - k2 else 0;
        assert !Has(r, ss[i].position) && j <= i;
        assert j > 0 ==> Has(r, ss[j - 1].position);
        assert !Has(r, ss[n2 - 1].position);
        assert i > 0 ==> Has(r, ss[0].position) && Has(r, ss[i - 1].position);
      }
    }
  }

  /** What is left when both erasures do what they mean. */
  function BothErased(d: Document, k: nat, n: nat, k2: nat, n2: nat): Document
    requires k + n <= |d| && k2 + n2 <= |d|
  {
    WithoutAll(Cut(d, k, n), d[k2..k2 + n2])
  }

  lemma {:induction false} BothErasedMembers(d: Document, k: nat, n: nat, k2: nat, n2: nat, x: Symbol)
    requires Sorted(d) && k + n <= |d| && k2 + n2 <= |d|
    ensures x in BothErased(d, k, n, k2, n2)
       <==> x in d && !Has(d[k..k + n], x.position) && !Has(d[k2..k2 + n2], x.position)
  {
    EraseReplays(d, k, n);
    MembersWithoutAll(d, d[k..k + n], x);
    MembersWithoutAll(Cut(d, k, n), d[k2..k2 + n2], x);
  }

  lemma {:induction false} BothErasedSorted(d: Document, k: nat, n: nat, k2: nat, n2: nat)
    requires Sorted(d) && k + n <= |d| && k2 + n2 <= |d|
    ensures Sorted(BothErased(d, k, n, k2, n2))
  {
    CutSorted(d, k, n);
    WithoutAllSorted(Cut(d, k, n), d[k2..k2 + n2]);
  }

  lemma {:induction false} WithoutAllSorted(d: Document, ss: seq<Symbol>)
    requires Sorted(d)
    ensures Sorted(WithoutAll(d, ss))
    decreases |ss|
  {
    if ss != [] {
      var r, p := WithoutAll(d, ss[..|ss| - 1]), ss[|ss| - 1].position;
      WithoutAllSorted(d, ss[..|ss| - 1]);
      if k :| 0 <= k < |r| && r[k].position == p {
        WithoutPresent(r, k);
        RemoveAtKeepsSorted(r, k);
      } else {
        WithoutAbsent(r, p);
      }
    }
  }

  /** It does not matter who erased first. */
  lemma {:induction false} BothErasedSame(d: Document, k: nat, n: nat, k2: nat, n2: nat)
    requires Sorted(d) && k + n <= |d| && k2 + n2 <= |d|
    ensures BothErased(d, k, n, k2, n2) == BothErased(d, k2, n2, k, n)
  {
    forall x ensures x in BothErased(d, k, n, k2, n2) <==> x in BothErased(d, k2, n2, k, n) {
      BothErasedMembers(d, k, n, k2, n2, x);
      BothErasedMembers(d, k2, n2, k, n, x);
    }
    BothErasedSorted(d, k, n, k2, n2);
    BothErasedSorted(d, k2, n2, k, n);
    SortedUnique(BothErased(d, k, n, k2, n2), BothErased(d, k2, n2, k, n));
  }

  lemma {:induction false} CutFilled(lines: seq<Line>, d: Document, k: nat, n: nat)
    requires Canonical(lines) && Terminated(d) && k + n < |d| && Flatten(lines) == Cut(d, k, n)
    ensures Filled(lines) && lines == Split(Cut(d, k, n))
  {
    assert Cut(d, k, n)[|d| - n - 1] == d[|d| - 1];
    FirstAndLast(lines);
    CanonicalIsSplit(lines);
  }

  /** The condition for both clients at once. */
  predicate Harmless(k: nat, n: nat, k2: nat, n2: nat) {
    Apart(k, n, k2, n2) || ((k == 0 || k2 == 0) && k + n == k2 + n2)
  }

  lemma {:induction false} HarmlessIsSafe(k: nat, n: nat, k2: nat, n2: nat)
    ensures Harmless(k, n, k2, n2) <==> Safe(k, n, k2, n2) && Safe(k2, n2, k, n)
  {
  }

  /** Two identical replicas each erase a range and then handle each other's message. Both do what was
  meant exactly when the ranges have nothing in common, or when one starts the document and they end
  together; otherwise one of them loses a symbol that nobody erased, or keeps one that was erased. */
  method EraseTwice(a: CRDT, b: CRDT, line: nat, index: nat, n: nat, line2: nat, index2: nat, n2: nat)
    requires a != b && a.Valid() && b.Valid() && a.symbols == b.symbols && Terminated(a.Flat())
    requires Place(a.symbols, line, index) && Offset(a.symbols, line, index) + n < |a.Flat()|
    requires Place(b.symbols, line2, index2) && Offset(b.symbols, line2, index2) + n2 < |b.Flat()|
    modifies a`symbols, a`size, b`symbols, b`size
    ensures var d, k, k2 := old(a.Flat()), Offset(old(a.symbols), line, index), Offset(old(b.symbols), line2, index2);
            && a.symbols == EraseUntil(Split(Cut(d, k, n)), d[k2..k2 + n2])
            && b.symbols == EraseUntil(Split(Cut(d, k2, n2)), d[k..k + n])
            && (a.Flat() == BothErased(d, k, n, k2, n2) <==> Safe(k, n, k2, n2))
            && (b.Flat() == BothErased(d, k, n, k2, n2) <==> Safe(k2, n2, k, n))
            && (a.Flat() == b.Flat() == BothErased(d, k, n, k2, n2) <==> Harmless(k, n, k2, n2))
  {
    ghost var d, k, k2 := a.Flat(), Offset(a.symbols, line, index), Offset(b.symbols, line2, index2);
    var erasedByA, erasedByB := EraseBoth(a, b, line, index, n, line2, index2, n2);
    BothErasedSame(d, k, n, k2, n2);
    HarmlessIsSafe(k, n, k2, n2);
    EraseTogether(a, d, k, n, k2, n2, erasedByB);
    EraseTogether(b, d, k2, n2, k, n, erasedByA);
  }

  method EraseBoth(a: CRDT, b: CRDT, line: nat, index: nat, n: nat, line2: nat, index2: nat, n2: nat)
    returns (erasedByA: seq<Symbol>, erasedByB: seq<Symbol>)
    requires a != b && a.Valid() && b.Valid()
    requires Place(a.symbols, line, index) && Offset(a.symbols, line, index) + n < |a.Flat()|
    requires Place(b.symbols, line2, index2) && Offset(b.symbols, line2, index2) + n2 < |b.Flat()|
    modifies a`symbols, a`size, b`symbols, b`size
    ensures a.Valid() && b.Valid()
    ensures var d, k := old(a.Flat()), Offset(old(a.symbols), line, index);
            a.Flat() == Cut(d, k, n) && erasedByA == d[k..k + n]
    ensures var d, k := old(b.Flat()), Offset(old(b.symbols), line2, index2);
            b.Flat() == Cut(d, k, n2) && erasedByB == d[k..k + n2]
  {
    erasedByA := a.LocalErase(line, index, n);
    erasedByB := b.LocalErase(line2, index2, n2);
  }

  /** One of the two. */
  method EraseTogether(crdt: CRDT, ghost d: Document, ghost k: nat, ghost n: nat, ghost k2: nat, ghost n2: nat,
                       ss: seq<Symbol>)
    requires Sorted(d) && Terminated(d) && k + n < |d| && k2 + n2 < |d| && ss == d[k2..k2 + n2]
    requires crdt.Valid() && crdt.Flat() == Cut(d, k, n)
    modifies crdt`symbols, crdt`size
    ensures crdt.symbols == EraseUntil(Split(Cut(d, k, n)), ss)
    ensures crdt.Flat() == BothErased(d, k, n, k2, n2) <==> Safe(k, n, k2, n2)
  {
    CutFilled(crdt.symbols, d, k, n);
    SliceOrderly(d, k, n, k2, n2);
    HandledExactly(crdt.symbols, ss);
    SafeExactly(d, k, n, k2, n2);
    var line, index, emitted := crdt.HandleRemoteErase(ss);
  }

  /** The smallest instance: a symbol that both erase. Unless it was the document's first one, the first
  symbol of the line behind it goes too. */
  lemma {:induction false} OneErasedTwice(d: Document, k: nat)
    requires Sorted(d) && Terminated(d) && k < |d| - 1
    ensures var cut := Cut(d, k, 1);
            && k < |cut|
            && Flatten(EraseUntil(Split(cut), [d[k]])) == if k == 0 then cut else RemoveAt(cut, LineStart(cut, k))
  {
    var cut, p, lines := Cut(d, k, 1), d[k].position, Split(Cut(d, k, 1));
    SplitIsCanonical(cut);
    LeftByCut(d, k, 1, k);
    CutSorted(d, k, 1);
    assert cut[k] == d[k + 1];
    assert [d[k]][1..] == [];
    SliceOrderly(d, k, 1, k, 1);
    assert d[k..k + 1] == [d[k]];
    NotLastIn(cut, [d[k]]);
    assert cut[0] == if k == 0 then d[1] else d[0];
    Antisymmetric(p, cut[0].position);
    if k > 0 {
      var line, index := Sought(lines, p);
      EraseOutcome(lines, 0, line, index, d[k]);
    }
  }
}

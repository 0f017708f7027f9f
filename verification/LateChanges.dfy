/** Changes of format that name symbols which are no longer there: what the loop of `handleRemoteChange`
(Client/CRDT.cpp:698-710) makes of a message, and exactly when that is what the message means.

A change of an absent symbol overwrites the first symbol of the line that would hold it. That can
repair itself: while the overwritten symbol is still to come in the message and its line goes on
behind it, the next symbols of the message go to the same place.
*/
module LateChanges {
  import opened Positions
  import opened Documents
  import opened Lines
  import opened ClientDocument

  // ----- The loop on flat documents -----

  /** For every symbol of a document, where its line starts. */
  function StartsOf(lines: seq<Line>): (b: seq<nat>)
    ensures |b| == |Flatten(lines)|
  {
    seq(|Flatten(lines)|, k requires 0 <= k < |Flatten(lines)| => Offset(lines, LineOf(lines, k), 0))
  }

  /** Starts as lines have them. */
  predicate Starts(b: seq<nat>) {
    && (forall i :: 0 <= i < |b| ==> b[i] <= i)
    && (forall i, j :: 0 <= i <= j < |b| && b[j] <= i ==> b[i] == b[j])
  }

  /** What a change overwrites while the order is intact. */
  predicate Struck(f: Document, b: seq<nat>, p: Position, t: nat)
    requires |b| == |f|
  {
    var k := CountLess(f, p);
    k < |f| && t == if f[k].position == p then k else b[k]
  }

  /** The loop as it acts on the flat document; where the order is broken it may overwrite anything. */
  ghost predicate ChangeRun(f: Document, b: seq<nat>, ss: seq<Symbol>, r: Document)
    requires |b| == |f|
    decreases |ss|
  {
    if ss == [] || !InRange(f, ss[0].position) then r == f
    else exists t: nat :: MayStrike(f, b, ss[0].position, t) && ChangeRun(f[t := ss[0]], b, ss[1..], r)
  }

  predicate MayStrike(f: Document, b: seq<nat>, p: Position, t: nat)
    requires |b| == |f|
  {
    t < |f| && (Sorted(f) ==> Struck(f, b, p, t))
  }

  /** Every symbol of the outcome is an old one or comes from the message. */
  lemma {:induction false} RunCells(f: Document, b: seq<nat>, ss: seq<Symbol>, r: Document)
    requires |b| == |f| && ChangeRun(f, b, ss, r)
    ensures |r| == |f| && forall i :: 0 <= i < |r| ==> r[i] == f[i] || r[i] in ss
    decreases |ss|
  {
    if ss != [] && InRange(f, ss[0].position) {
      var t: nat :| MayStrike(f, b, ss[0].position, t) && ChangeRun(f[t := ss[0]], b, ss[1..], r);
      RunCells(f[t := ss[0]], b, ss[1..], r);
      forall i | 0 <= i < |r| ensures r[i] == f[i] || r[i] in ss {
        if r[i] in ss[1..] {
          assert r[i] in ss;
        }
      }
    }
  }

  // ----- Where the document differs from what is meant -----

  predicate Displaced(f: Document, m: Document, i: nat)
    requires i < |f| == |m|
  {
    f[i].position != m[i].position
  }

  /** `f` is the document, `m` what it should be by now, and `ss` the rest of the message. They differ
  only at starts of lines, where smaller symbols stand that the message is past. */
  predicate Tracks(f: Document, b: seq<nat>, m: Document, ss: seq<Symbol>) {
    && |f| == |m| == |b| && f != [] && f[0] == m[0]
    && Sorted(f) && Sorted(m) && Sorted(ss) && Starts(b)
    && (ss != [] ==> !Less(ss[0].position, m[0].position))
    && (forall i :: 0 <= i < |f| ==> f[i] == m[i] || DisplacedAt(f, b, m, ss, i))
  }

  predicate DisplacedAt(f: Document, b: seq<nat>, m: Document, ss: seq<Symbol>, i: nat)
    requires i < |f| == |m| == |b|
  {
    && b[i] == i && Less(f[i].position, m[i].position)
    && (forall j :: 0 <= j < |ss| ==> Less(f[i].position, ss[j].position))
  }

  /** Place `k` repairs itself: its line goes on behind it, and the message still names its symbol. */
  predicate Repaired(m: Document, b: seq<nat>, ss: seq<Symbol>, k: nat)
    requires |m| == |b|
  {
    k + 1 < |m| && b[k] == k == b[k + 1] && Has(ss, m[k].position)
  }

  /** Every displaced place repairs itself. */
  predicate AllRepaired(f: Document, b: seq<nat>, m: Document, ss: seq<Symbol>)
    requires |f| == |m| == |b|
  {
    forall i :: 0 <= i < |f| && Displaced(f, m, i) ==> Repaired(m, b, ss, i)
  }

  predicate Lacks(m: Document, p: Position) {
    !Has(m, p) && InRange(m, p)
  }

  /** Every absent symbol within the range belongs right before a place that repairs itself. */
  predicate AbsentRepaired(m: Document, b: seq<nat>, ss: seq<Symbol>)
    requires |m| == |b|
  {
    forall j :: 0 <= j < |ss| && Lacks(m, ss[j].position) ==> Repaired(m, b, ss, CountLess(m, ss[j].position))
  }

  lemma {:induction false} DisplacedWhere(f: Document, b: seq<nat>, m: Document, ss: seq<Symbol>, i: nat)
    requires Tracks(f, b, m, ss) && i < |f|
    ensures Displaced(f, m, i) <==> f[i] != m[i]
  {
    Antisymmetric(f[i].position, m[i].position);
  }

  // ----- One step -----

  lemma {:induction false} ReplaceCell(m: Document, s: Symbol)
    requires Sorted(m)
    ensures SamePositions(m, Replace(m, s)) && Sorted(Replace(m, s))
    ensures forall i :: 0 <= i < |m| ==> Replace(m, s)[i] == if m[i].position == s.position then s else m[i]
  {
    var k, p := CountLess(m, s.position), s.position;
    CountLessFits(m, p);
    FitsSeparates(m, k, p);
    Antisymmetric(p, p);
    var r := Replace(m, s);
    assert SamePositions(m, r);
    forall i, j | 0 <= i < j < |r| ensures Less(r[i].position, r[j].position) {
      assert m[i].position == r[i].position && m[j].position == r[j].position;
    }
  }

  /** On either side of the count of smaller symbols. */
  lemma {:induction false} CountSplits(f: Document, p: Position)
    requires Sorted(f) && InRange(f, p)
    ensures var k := CountLess(f, p);
            && k < |f| && (f[k].position == p || Less(p, f[k].position))
            && (forall i :: 0 <= i < k ==> Less(f[i].position, p))
            && (forall i :: k < i < |f| ==> Less(p, f[i].position))
            && (Has(f, p) <==> f[k].position == p)
  {
    var k := CountLess(f, p);
    CountLessFits(f, p);
    FitsSeparates(f, k, p);
  }

  /** The change goes to a place that it cannot have been meant for, and that nothing later puts right. */
  predicate Spoils(m: Document, t: nat, p: Position)
    requires t < |m|
  {
    Less(m[t].position, p)
  }

  lemma {:induction false} SpoiledForGood(f: Document, b: seq<nat>, m: Document, ss: seq<Symbol>, t: nat, r: Document)
    requires |b| == |f| == |m| && t < |f| && ss != [] && Sorted(ss) && Spoils(m, t, ss[0].position)
    requires ChangeRun(f[t := ss[0]], b, ss[1..], r)
    ensures |r| == |f| && r[t].position != m[t].position
  {
    RunCells(f[t := ss[0]], b, ss[1..], r);
    Antisymmetric(m[t].position, ss[0].position);
    if r[t] in ss[1..] {
      var j :| 0 <= j < |ss[1..]| && ss[1..][j] == r[t];
      assert Less(ss[0].position, ss[j + 1].position);
      Transitive(m[t].position, ss[0].position, ss[j + 1].position);
      Antisymmetric(m[t].position, ss[j + 1].position);
    }
  }

  /** A stored symbol is where it is meant to be. */
  lemma {:induction false} StoredInPlace(f: Document, b: seq<nat>, m: Document, ss: seq<Symbol>, k: nat)
    requires Tracks(f, b, m, ss) && ss != [] && k < |f| && f[k].position == ss[0].position
    ensures f[k] == m[k]
  {
    Antisymmetric(ss[0].position, ss[0].position);
  }

  lemma {:induction false} StepStored(f: Document, b: seq<nat>, m: Document, ss: seq<Symbol>, k: nat)
    requires Tracks(f, b, m, ss) && ss != [] && k < |f| && f[k].position == ss[0].position
    ensures Tracks(f[k := ss[0]], b, Replace(m, ss[0]), ss[1..])
  {
    var s, f', m', rest := ss[0], f[k := ss[0]], Replace(m, ss[0]), ss[1..];
    StoredInPlace(f, b, m, ss, k);
    ReplaceCell(m, s);
    Antisymmetric(s.position, s.position);
    assert SamePositions(f, f');
    assert Sorted(f') by {
      forall i, j | 0 <= i < j < |f'| ensures Less(f'[i].position, f'[j].position) {
        assert Less(f[i].position, f[j].position);
      }
    }
    RestLarger(ss, m);
    forall i | 0 <= i < |f| ensures f'[i] == m'[i] || DisplacedAt(f', b, m', rest, i) {
      assert f[i] == m[i] || DisplacedAt(f, b, m, ss, i);
    }
  }

  lemma {:induction false} RestLarger(ss: seq<Symbol>, m: Document)
    requires Sorted(ss) && ss != [] && m != [] && !Less(ss[0].position, m[0].position)
    ensures Sorted(ss[1..]) && forall j :: 0 <= j < |ss[1..]| ==> ss[1..][j] == ss[j + 1] && Less(ss[0].position, ss[j + 1].position)
    ensures ss[1..] != [] ==> !Less(ss[1..][0].position, m[0].position)
  {
    if |ss| > 1 && Less(ss[1].position, m[0].position) {
      Transitive(ss[0].position, ss[1].position, m[0].position);
    }
  }

  /** An absent symbol goes to a place where it keeps the order and is too small. */
  lemma {:induction false} StepAbsent(f: Document, b: seq<nat>, m: Document, ss: seq<Symbol>, t: nat)
    requires Tracks(f, b, m, ss) && ss != [] && !Has(f, ss[0].position)
    requires 0 < t < |f| && b[t] == t
    requires Less(f[t - 1].position, ss[0].position) && (t + 1 < |f| ==> Less(ss[0].position, f[t + 1].position))
    requires ss[0].position == m[t].position || Less(ss[0].position, m[t].position)
    ensures Tracks(f[t := ss[0]], b, Replace(m, ss[0]), ss[1..])
  {
    var s, f', m', rest := ss[0], f[t := ss[0]], Replace(m, ss[0]), ss[1..];
    ReplaceCell(m, s);
    RestLarger(ss, m);
    OverwriteSorted(f, t, s);
    Antisymmetric(s.position, m[0].position);
    assert m'[0] == m[0] by {
      assert f[0].position != s.position;
    }
    forall i | 0 <= i < |f| ensures f'[i] == m'[i] || DisplacedAt(f', b, m', rest, i) {
      assert f[i] == m[i] || DisplacedAt(f, b, m, ss, i);
      assert f[i].position != s.position;
    }
  }

  lemma {:induction false} OverwriteSorted(f: Document, t: nat, s: Symbol)
    requires Sorted(f) && t < |f|
    requires t > 0 ==> Less(f[t - 1].position, s.position)
    requires t + 1 < |f| ==> Less(s.position, f[t + 1].position)
    ensures Sorted(f[t := s])
  {
    var r := f[t := s];
    forall i, j | 0 <= i < j < |r| ensures Less(r[i].position, r[j].position) {
      if j == t && i < t - 1 {
        Transitive(f[i].position, f[t - 1].position, s.position);
      } else if i == t && j > t + 1 {
        Transitive(s.position, f[t + 1].position, f[j].position);
      }
    }
  }

  /** Every step spoils the outcome or keeps the document on track. */
  lemma {:induction false} Step(f: Document, b: seq<nat>, m: Document, ss: seq<Symbol>, t: nat)
    requires Tracks(f, b, m, ss) && ss != [] && InRange(f, ss[0].position) && Struck(f, b, ss[0].position, t)
    ensures Spoils(m, t, ss[0].position) || Tracks(f[t := ss[0]], b, Replace(m, ss[0]), ss[1..])
  {
    var p, k := ss[0].position, CountLess(f, ss[0].position);
    CountSplits(f, p);
    if f[k].position == p {
      StepStored(f, b, m, ss, k);
    } else if !Spoils(m, t, p) {
      Antisymmetric(m[t].position, p);
      AbsentPlace(f, b, m, ss, t);
      StepAbsent(f, b, m, ss, t);
    }
  }

  /** Where an absent symbol goes when it spoils nothing: to its own count, or to the start just before it. */
  lemma {:induction false} AbsentPlace(f: Document, b: seq<nat>, m: Document, ss: seq<Symbol>, t: nat)
    requires Tracks(f, b, m, ss) && ss != [] && InRange(f, ss[0].position) && Struck(f, b, ss[0].position, t)
    requires !Has(f, ss[0].position) && !Less(m[t].position, ss[0].position)
    ensures var k := CountLess(f, ss[0].position);
            && k < |f| && (t == k || (t + 1 == k && b[k] == t))
    ensures 0 < t && b[t] == t
    ensures Less(f[t - 1].position, ss[0].position) && (t + 1 < |f| ==> Less(ss[0].position, f[t + 1].position))
  {
    var p, k := ss[0].position, CountLess(f, ss[0].position);
    CountSplits(f, p);
    assert f[0].position != p;
    Antisymmetric(f[0].position, p);
    assert t == b[k] && b[t] == t;
    assert k > 0;
    if t < k {
      assert Displaced(f, m, t) && t > 0;
      if t + 1 < k {
        assert b[t + 1] == t;
        assert f[t + 1] == m[t + 1];
        Transitive(m[t].position, m[t + 1].position, p);
      }
    }
  }

  // ----- Only a message that repairs itself is done -----

  /** Going back over one step: what the rest repairs, the message repairs. */
  lemma {:induction false} RepairedBefore(m: Document, m': Document, b: seq<nat>, ss: seq<Symbol>, k: nat)
    requires |m| == |b| && SamePositions(m, m') && ss != [] && Repaired(m', b, ss[1..], k)
    ensures Repaired(m, b, ss, k)
  {
    HasCons(ss, m[k].position);
  }

  lemma {:induction false} DisplacedBefore(f: Document, b: seq<nat>, m: Document, ss: seq<Symbol>, t: nat, i: nat)
    requires Tracks(f, b, m, ss) && ss != [] && InRange(f, ss[0].position) && Struck(f, b, ss[0].position, t)
    requires !Spoils(m, t, ss[0].position)
    requires AllRepaired(f[t := ss[0]], b, Replace(m, ss[0]), ss[1..])
    requires i < |f| && Displaced(f, m, i)
    ensures Repaired(m, b, ss, i)
  {
    var p, f', m', k := ss[0].position, f[t := ss[0]], Replace(m, ss[0]), CountLess(f, ss[0].position);
    ReplaceCell(m, ss[0]);
    if Displaced(f', m', i) {
      RepairedBefore(m, m', b, ss, i);
    } else {
      assert i == t && p == m[t].position;
      CountSplits(f, p);
      AbsentPlace(f, b, m, ss, t);
      Antisymmetric(f[k].position, p);
      assert t + 1 == k;
      HasCons(ss, p);
    }
  }

  /** The place behind an absent symbol is displaced after the step. */
  lemma {:induction false} AbsentDisplaces(f: Document, b: seq<nat>, m: Document, ss: seq<Symbol>, t: nat)
    requires Tracks(f, b, m, ss) && ss != [] && InRange(f, ss[0].position) && Struck(f, b, ss[0].position, t)
    requires !Spoils(m, t, ss[0].position) && Lacks(m, ss[0].position)
    ensures var j := CountLess(m, ss[0].position); j < |m| && Displaced(f[t := ss[0]], m, j)
  {
    var p, f', k, j := ss[0].position, f[t := ss[0]], CountLess(f, ss[0].position), CountLess(m, ss[0].position);
    CountSplits(f, p);
    CountSplits(m, p);
    if f[k].position == p {
      StoredInPlace(f, b, m, ss, k);
    }
    AbsentPlace(f, b, m, ss, t);
    Antisymmetric(m[j].position, p);
    if f'[j].position == m[j].position {
      if j != t {
        CountBetween(f, m, j, k, p);
      }
    }
  }

  lemma {:induction false} CountBetween(f: Document, m: Document, j: nat, k: nat, p: Position)
    requires Sorted(f) && |f| == |m| && j < |f| && k < |f| && f[j].position == m[j].position && Less(p, m[j].position)
    requires forall i :: 0 <= i < |f| ==> f[i].position == m[i].position || Less(f[i].position, m[i].position)
    requires forall i :: 0 <= i < k ==> Less(f[i].position, p)
    requires !Less(f[k].position, p)
    requires forall i :: 0 <= i < j ==> Less(m[i].position, p)
    ensures j == k
  {
    if j < k {
      Antisymmetric(f[j].position, p);
    } else if k < j {
      if f[k].position != m[k].position {
        Transitive(f[k].position, m[k].position, p);
      }
    }
  }

  lemma {:induction false} AbsentBefore(f: Document, b: seq<nat>, m: Document, ss: seq<Symbol>, t: nat)
    requires Tracks(f, b, m, ss) && ss != [] && InRange(f, ss[0].position) && Struck(f, b, ss[0].position, t)
    requires !Spoils(m, t, ss[0].position)
    requires AllRepaired(f[t := ss[0]], b, Replace(m, ss[0]), ss[1..]) && AbsentRepaired(Replace(m, ss[0]), b, ss[1..])
    ensures AbsentRepaired(m, b, ss)
  {
    var m' := Replace(m, ss[0]);
    ReplaceCell(m, ss[0]);
    forall j | 0 <= j < |ss| && Lacks(m, ss[j].position)
      ensures Repaired(m, b, ss, CountLess(m, ss[j].position))
    {
      var k := CountLess(m, ss[j].position);
      CountSame(m, m', ss[j].position);
      if j > 0 {
        assert ss[1..][j - 1] == ss[j];
        RepairedBefore(m, m', b, ss, k);
      } else {
        AbsentDisplaces(f, b, m, ss, t);
        assert Displaced(f[t := ss[0]], m', k);
        RepairedBefore(m, m', b, ss, k);
      }
    }
  }

  /** A document that ends at the right positions had nothing displaced that was not repaired. */
  lemma {:induction false} OnlyRepaired(f: Document, b: seq<nat>, m: Document, ss: seq<Symbol>, r: Document)
    requires Tracks(f, b, m, ss) && ChangeRun(f, b, ss, r) && SamePositions(r, m)
    ensures AllRepaired(f, b, m, ss) && AbsentRepaired(m, b, ss)
    decreases |ss|
  {
    if ss != [] {
      if InRange(f, ss[0].position) {
        var t: nat :| MayStrike(f, b, ss[0].position, t) && ChangeRun(f[t := ss[0]], b, ss[1..], r);
        Step(f, b, m, ss, t);
        if Spoils(m, t, ss[0].position) {
          SpoiledForGood(f, b, m, ss, t, r);
          assert false;
        }
        var m' := Replace(m, ss[0]);
        ReplaceCell(m, ss[0]);
        OnlyRepaired(f[t := ss[0]], b, m', ss[1..], r);
        forall i | 0 <= i < |f| && Displaced(f, m, i) ensures Repaired(m, b, ss, i) {
          DisplacedBefore(f, b, m, ss, t, i);
        }
        AbsentBefore(f, b, m, ss, t);
      } else {
        Beyond(f, m, ss);
      }
    }
  }

  /** A message that starts behind the last symbol names nothing of the document. */
  lemma {:induction false} Beyond(f: Document, m: Document, ss: seq<Symbol>)
    requires SamePositions(f, m) && Sorted(m) && Sorted(ss) && m != [] && ss != []
    requires !Less(ss[0].position, m[0].position) && !InRange(f, ss[0].position)
    ensures forall j :: 0 <= j < |ss| ==> !InRange(m, ss[j].position) && !Has(m, ss[j].position)
  {
    forall j | 0 <= j < |ss| ensures !InRange(m, ss[j].position) && !Has(m, ss[j].position) {
      if j > 0 {
        Transitive(m[|m| - 1].position, ss[0].position, ss[j].position);
      }
      NotInRange(m, ss[j].position);
    }
  }

  // ----- A message that repairs itself is done -----

  lemma {:induction false} RepairedAfter(m: Document, m': Document, b: seq<nat>, ss: seq<Symbol>, k: nat)
    requires |m| == |b| && SamePositions(m, m') && ss != [] && Repaired(m, b, ss, k) && m[k].position != ss[0].position
    ensures Repaired(m', b, ss[1..], k)
  {
    HasCons(ss, m[k].position);
  }

  /** While all is repaired, an absent symbol goes to a displaced place, or displaces one, and spoils nothing. */
  lemma {:induction false} AbsentGoes(f: Document, b: seq<nat>, m: Document, ss: seq<Symbol>, t: nat)
    requires Tracks(f, b, m, ss) && ss != [] && InRange(f, ss[0].position) && Struck(f, b, ss[0].position, t)
    requires !Has(f, ss[0].position) && AllRepaired(f, b, m, ss) && AbsentRepaired(m, b, ss)
    ensures t == CountLess(m, ss[0].position) && t < |m| && Repaired(m, b, ss, t)
    ensures !Less(m[t].position, ss[0].position)
  {
    var p, k, j := ss[0].position, CountLess(f, ss[0].position), CountLess(m, ss[0].position);
    MeantInRange(f, b, m, ss, p);
    CountSplits(f, p);
    CountSplits(m, p);
    Antisymmetric(m[j].position, p);
    Antisymmetric(f[k].position, p);
    assert Repaired(m, b, ss, j) by {
      if m[j].position == p {
        assert Displaced(f, m, j);
      } else {
        assert Lacks(m, ss[0].position);
      }
    }
    assert f[j + 1] == m[j + 1];
    PlaceNear(f, m, j, k, p);
  }

  lemma {:induction false} PlaceNear(f: Document, m: Document, j: nat, k: nat, p: Position)
    requires Sorted(f) && Sorted(m) && |f| == |m| && j + 1 < |f| && k < |f| && f[j + 1] == m[j + 1]
    requires forall i :: 0 <= i < |f| ==> f[i].position == m[i].position || Less(f[i].position, m[i].position)
    requires forall i :: 0 <= i < k ==> Less(f[i].position, p)
    requires !Less(f[k].position, p) && !Less(m[j].position, p)
    requires forall i :: 0 <= i < j ==> Less(m[i].position, p)
    ensures k == j || k == j + 1
  {
    if k < j {
      if f[k].position != m[k].position {
        Transitive(f[k].position, m[k].position, p);
      }
    } else if k > j + 1 {
      Transitive(m[j].position, m[j + 1].position, p);
    }
  }

  lemma {:induction false} MeantInRange(f: Document, b: seq<nat>, m: Document, ss: seq<Symbol>, p: Position)
    requires Tracks(f, b, m, ss) && InRange(f, p)
    ensures InRange(m, p)
  {
    var n := |f| - 1;
    if Less(m[n].position, p) && f[n] != m[n] {
      Transitive(f[n].position, m[n].position, p);
    }
  }

  lemma {:induction false} StillAllRepaired(f: Document, b: seq<nat>, m: Document, ss: seq<Symbol>, t: nat)
    requires Tracks(f, b, m, ss) && ss != [] && InRange(f, ss[0].position) && Struck(f, b, ss[0].position, t)
    requires AllRepaired(f, b, m, ss) && AbsentRepaired(m, b, ss)
    ensures !Spoils(m, t, ss[0].position)
    ensures AllRepaired(f[t := ss[0]], b, Replace(m, ss[0]), ss[1..])
  {
    var p, f', m', k := ss[0].position, f[t := ss[0]], Replace(m, ss[0]), CountLess(f, ss[0].position);
    ReplaceCell(m, ss[0]);
    CountSplits(f, p);
    Antisymmetric(p, p);
    if f[k].position == p {
      StoredInPlace(f, b, m, ss, k);
    } else {
      AbsentGoes(f, b, m, ss, t);
    }
    forall i | 0 <= i < |f| && Displaced(f', m', i) ensures Repaired(m', b, ss[1..], i) {
      if m[i].position == p {
        OwnCount(m, i);
        if f[k].position == p {
          OwnCount(m, k);
        }
      }
      RepairedAfter(m, m', b, ss, i);
    }
  }

  lemma {:induction false} StillAbsentRepaired(m: Document, b: seq<nat>, ss: seq<Symbol>)
    requires Sorted(m) && Sorted(ss) && |m| == |b| && ss != [] && AbsentRepaired(m, b, ss)
    ensures AbsentRepaired(Replace(m, ss[0]), b, ss[1..])
  {
    var m' := Replace(m, ss[0]);
    ReplaceCell(m, ss[0]);
    forall j | 0 <= j < |ss[1..]| && Lacks(m', ss[1..][j].position)
      ensures Repaired(m', b, ss[1..], CountLess(m', ss[1..][j].position))
    {
      var q := ss[j + 1].position;
      CountSame(m, m', q);
      CountSplits(m, q);
      var k := CountLess(m, q);
      Transitive(ss[0].position, q, m[k].position);
      Antisymmetric(ss[0].position, m[k].position);
      RepairedAfter(m, m', b, ss, k);
    }
  }

  lemma {:induction false} ReplaceNone(d: Document, ss: seq<Symbol>)
    requires Sorted(d) && forall j :: 0 <= j < |ss| ==> !Has(d, ss[j].position)
    ensures ReplaceAll(d, ss) == d
    decreases |ss|
  {
    if ss != [] {
      ReplaceNone(d, ss[..|ss| - 1]);
      var s := ss[|ss| - 1];
      ReplaceCell(d, s);
      assert Replace(d, s) == d;
    }
  }

  /** Nothing is displaced any more once the message is past all of the document. */
  lemma {:induction false} NothingLeft(f: Document, b: seq<nat>, m: Document, ss: seq<Symbol>)
    requires Tracks(f, b, m, ss) && AllRepaired(f, b, m, ss)
    requires ss != [] ==> Less(f[|f| - 1].position, ss[0].position)
    ensures f == m
  {
    var n := |f| - 1;
    DisplacedWhere(f, b, m, ss, n);
    forall i | 0 <= i < |f| ensures f[i] == m[i] {
      DisplacedWhere(f, b, m, ss, i);
      if Displaced(f, m, i) {
        assert Has(ss, m[i].position);
        var j :| 0 <= j < |ss| && ss[j].position == m[i].position;
        assert i < n;
        if j > 0 {
          Transitive(m[n].position, ss[0].position, ss[j].position);
        }
        Antisymmetric(m[n].position, m[i].position);
      }
    }
  }

  lemma {:induction false} RepairedDone(f: Document, b: seq<nat>, m: Document, ss: seq<Symbol>, r: Document)
    requires Tracks(f, b, m, ss) && ChangeRun(f, b, ss, r)
    requires AllRepaired(f, b, m, ss) && AbsentRepaired(m, b, ss)
    ensures r == ReplaceAll(m, ss)
    decreases |ss|
  {
    if ss == [] {
      NothingLeft(f, b, m, ss);
    } else if InRange(f, ss[0].position) {
      var t: nat :| MayStrike(f, b, ss[0].position, t) && ChangeRun(f[t := ss[0]], b, ss[1..], r);
      StillAllRepaired(f, b, m, ss, t);
      StillAbsentRepaired(m, b, ss);
      Step(f, b, m, ss, t);
      RepairedDone(f[t := ss[0]], b, Replace(m, ss[0]), ss[1..], r);
      ReplaceAllFront(m, ss);
    } else {
      NothingLeft(f, b, m, ss);
      Beyond(f, m, ss);
      ReplaceNone(m, ss);
    }
  }

  // ----- Messages that stop early -----

  /** What a message without repetitions leaves in each place. */
  lemma {:induction false} ReplacedCell(d: Document, ss: seq<Symbol>, k: nat)
    requires Sorted(d) && Distinct(ss) && k < |d|
    ensures Sorted(ReplaceAll(d, ss)) && SamePositions(d, ReplaceAll(d, ss))
    ensures forall i :: 0 <= i < |ss| && ss[i].position == d[k].position ==> ReplaceAll(d, ss)[k] == ss[i]
    ensures !Has(ss, d[k].position) ==> ReplaceAll(d, ss)[k] == d[k]
    decreases |ss|
  {
    if ss != [] {
      var n := |ss| - 1;
      ReplacedCell(d, ss[..n], k);
      ReplaceCell(ReplaceAll(d, ss[..n]), ss[n]);
      HasSnoc(ss, d[k].position);
      assert forall i :: 0 <= i < n ==> ss[..n][i] == ss[i];
    }
  }

  lemma {:induction false} ReplacedCells(d: Document, ss: seq<Symbol>)
    requires Sorted(d) && Distinct(ss)
    ensures SamePositions(d, ReplaceAll(d, ss)) && Sorted(ReplaceAll(d, ss))
    ensures forall k :: 0 <= k < |d| && !Has(ss, d[k].position) ==> ReplaceAll(d, ss)[k] == d[k]
    ensures forall i, k :: 0 <= i < |ss| && 0 <= k < |d| && ss[i].position == d[k].position ==> ReplaceAll(d, ss)[k] == ss[i]
  {
    if d == [] {
      ReplaceNone(d, ss);
    } else {
      ReplacedCell(d, ss, 0);
      forall k | 0 <= k < |d|
        ensures !Has(ss, d[k].position) ==> ReplaceAll(d, ss)[k] == d[k]
        ensures forall i :: 0 <= i < |ss| && ss[i].position == d[k].position ==> ReplaceAll(d, ss)[k] == ss[i]
      {
        ReplacedCell(d, ss, k);
      }
    }
  }

  /** A message changes nothing exactly when what it names is there already. */
  lemma {:induction false} ChangesNothing(d: Document, ss: seq<Symbol>)
    requires Sorted(d) && Distinct(ss)
    ensures ReplaceAll(d, ss) == d <==> forall i :: 0 <= i < |ss| && Has(d, ss[i].position) ==> ss[i] in d
  {
    ReplacedCells(d, ss);
    forall i, k | 0 <= i < |ss| && 0 <= k < |d| && ss[i].position == d[k].position && ss[i] in d ensures d[k] == ss[i] {
      var j :| 0 <= j < |d| && d[j] == ss[i];
      Antisymmetric(d[j].position, d[k].position);
    }
    if forall i :: 0 <= i < |ss| && Has(d, ss[i].position) ==> ss[i] in d {
      forall k | 0 <= k < |d| ensures ReplaceAll(d, ss)[k] == d[k] {
        if i :| 0 <= i < |ss| && ss[i].position == d[k].position {
          assert Has(d, ss[i].position);
        }
      }
    }
  }

  /** Any message, in any order: stored symbols are replaced one by one until the first one outside the
  range, and what comes behind that one is never changed. */
  lemma {:induction false} StopsBehind(d: Document, b: seq<nat>, ss: seq<Symbol>, j: nat, r: Document)
    requires Sorted(d) && |b| == |d| && ChangeRun(d, b, ss, r) && j < |ss|
    requires forall i :: 0 <= i < j ==> Has(d, ss[i].position)
    requires !InRange(d, ss[j].position)
    ensures r == ReplaceAll(d, ss[..j])
    decreases |ss|
  {
    if j == 0 {
      assert ss[..0] == [];
    } else {
      FirstReplaced(d, b, ss, r);
      FrontKept(d, Replace(d, ss[0]), ss, j);
      StopsBehind(Replace(d, ss[0]), b, ss[1..], j - 1, r);
    }
  }

  lemma {:induction false} FrontKept(d: Document, d': Document, ss: seq<Symbol>, j: nat)
    requires 0 < j < |ss| && SamePositions(d, d') && d' == Replace(d, ss[0])
    requires forall i :: 0 <= i < j ==> Has(d, ss[i].position)
    requires !InRange(d, ss[j].position)
    ensures forall i :: 0 <= i < j - 1 ==> Has(d', ss[1..][i].position)
    ensures !InRange(d', ss[1..][j - 1].position)
    ensures ReplaceAll(d, ss[..j]) == ReplaceAll(d', ss[1..][..j - 1])
  {
    forall i | 0 <= i < j - 1 ensures Has(d', ss[1..][i].position) {
      CountSame(d, d', ss[i + 1].position);
    }
    CountSame(d, d', ss[j].position);
    assert ss[..j][1..] == ss[1..][..j - 1];
    ReplaceAllFront(d, ss[..j]);
  }

  /** A stored symbol at the front of a message replaces what is at its position. */
  lemma {:induction false} FirstReplaced(d: Document, b: seq<nat>, ss: seq<Symbol>, r: Document)
    requires Sorted(d) && |b| == |d| && ChangeRun(d, b, ss, r) && ss != [] && Has(d, ss[0].position)
    ensures var d' := Replace(d, ss[0]);
            |d'| == |b| && Sorted(d') && SamePositions(d, d') && ChangeRun(d', b, ss[1..], r)
  {
    HasInRange(d, ss[0].position);
    var t: nat :| MayStrike(d, b, ss[0].position, t) && ChangeRun(d[t := ss[0]], b, ss[1..], r);
    CountSplits(d, ss[0].position);
    ReplaceCell(d, ss[0]);
    assert Replace(d, ss[0]) == d[t := ss[0]];
  }

  /** Such a message is done exactly when the rest of it would change nothing. */
  lemma {:induction false} StoppedExactly(d: Document, b: seq<nat>, ss: seq<Symbol>, j: nat, r: Document)
    requires Sorted(d) && |b| == |d| && ChangeRun(d, b, ss, r) && j < |ss| && Distinct(ss)
    requires forall i :: 0 <= i < j ==> Has(d, ss[i].position)
    requires !InRange(d, ss[j].position)
    ensures r == ReplaceAll(d, ss) <==> forall i :: j <= i < |ss| && Has(d, ss[i].position) ==> ss[i] in r
  {
    StopsBehind(d, b, ss, j, r);
    ReplaceAllSplits(d, ss, j);
    ReplacedCells(d, ss[..j]);
    ChangesNothing(r, ss[j..]);
    NamedBehind(d, ss, j, r);
  }

  lemma {:induction false} NamedBehind(d: Document, ss: seq<Symbol>, j: nat, r: Document)
    requires j <= |ss| && SamePositions(d, r)
    ensures (forall i :: j <= i < |ss| && Has(d, ss[i].position) ==> ss[i] in r)
       <==> forall i :: 0 <= i < |ss[j..]| && Has(r, ss[j..][i].position) ==> ss[j..][i] in r
  {
    forall i | j <= i < |ss| ensures ss[j..][i - j] == ss[i] && (Has(d, ss[i].position) <==> Has(r, ss[i].position)) {
      HasSamePositions(d, r, ss[i].position);
    }
    assert forall i :: 0 <= i < |ss[j..]| ==> ss[j..][i] == ss[j + i];
  }

  lemma {:induction false} ReplaceAllSplits(d: Document, ss: seq<Symbol>, j: nat)
    requires j <= |ss|
    ensures ReplaceAll(d, ss) == ReplaceAll(ReplaceAll(d, ss[..j]), ss[j..])
    decreases |ss| - j
  {
    if j == |ss| {
      assert ss[..j] == ss;
    } else {
      ReplaceAllSplits(d, ss, j + 1);
      assert ss[..j + 1][..j] == ss[..j] && ss[j..][1..] == ss[j + 1..];
      ReplaceAllFront(ReplaceAll(d, ss[..j]), ss[j..]);
    }
  }

  // ----- On the lines -----

  lemma {:induction false} LineOfSame(lines: seq<Line>, lines': seq<Line>, k: nat)
    requires SameShape(lines, lines') && k < |Flatten(lines)|
    ensures k < |Flatten(lines')| && LineOf(lines, k) == LineOf(lines', k)
  {
    if k >= |lines[0]| {
      LineOfSame(lines[1..], lines'[1..], k - |lines[0]|);
    }
  }

  lemma {:induction false} StartsSame(lines: seq<Line>, lines': seq<Line>)
    requires SameShape(lines, lines')
    ensures StartsOf(lines) == StartsOf(lines')
  {
    SameShapeOffset(lines, lines', |lines|, 0);
    assert lines[..|lines|] == lines && lines'[..|lines'|] == lines';
    forall k | 0 <= k < |Flatten(lines)| ensures StartsOf(lines)[k] == StartsOf(lines')[k] {
      LineOfSame(lines, lines', k);
      SameShapeOffset(lines, lines', LineOf(lines, k), 0);
    }
  }

  lemma {:induction false} StartsOrdered(lines: seq<Line>)
    ensures Starts(StartsOf(lines))
  {
    var b := StartsOf(lines);
    forall i, j | 0 <= i <= j < |b|
      ensures b[j] <= j
      ensures b[j] <= i ==> b[i] == b[j]
    {
      var line, index := PlaceOf(lines, j);
      LineOfOffset(lines, line, index);
      if b[j] <= i {
        LineOfOffset(lines, line, i - b[j]);
      }
    }
  }

  lemma {:induction false} OnceStruck(lines: seq<Line>, s: Symbol, mid: seq<Line>) returns (t: nat)
    requires ChangedOnce(lines, s, mid)
    ensures SameShape(lines, mid) && StartsOf(mid) == StartsOf(lines)
    ensures t < |Flatten(lines)| && Flatten(mid) == Flatten(lines)[t := s]
    ensures Sorted(Flatten(lines)) ==> Struck(Flatten(lines), StartsOf(lines), s.position, t)
  {
    var line: nat, index: nat :| Inside(lines, (line, index)) && mid == lines[line := lines[line][index := s]]
                                 && (Sorted(Flatten(lines)) ==> Found(lines, s.position, line, index));
    OverwriteFlat(lines, line, index, s);
    StartsSame(lines, mid);
    t := Offset(lines, line, index);
    if Sorted(Flatten(lines)) {
      FoundIsStruck(lines, s.position, line, index);
    }
  }

  lemma {:induction false} FoundIsStruck(lines: seq<Line>, p: Position, line: nat, index: nat)
    requires Sorted(Flatten(lines)) && Found(lines, p, line, index)
    ensures Offset(lines, line, index) < |Flatten(lines)|
    ensures Struck(Flatten(lines), StartsOf(lines), p, Offset(lines, line, index))
  {
    var d, k := Flatten(lines), CountLess(Flatten(lines), p);
    SymbolAt(lines, line, index);
    LineOfOffset(lines, line, k - Offset(lines, line, 0));
    CountLessFits(d, p);
    FitsSeparates(d, k, p);
    if Has(d, p) {
      ExactPlace(lines, line, index);
    }
  }

  lemma {:induction false} RunFrom(f: Document, b: seq<nat>, ss: seq<Symbol>, t: nat, r: Document)
    requires |b| == |f| && ss != [] && InRange(f, ss[0].position)
    requires MayStrike(f, b, ss[0].position, t) && ChangeRun(f[t := ss[0]], b, ss[1..], r)
    ensures ChangeRun(f, b, ss, r)
  {
  }

  lemma {:induction false} ChangesRun(lines: seq<Line>, ss: seq<Symbol>, lines': seq<Line>, all: bool)
    requires ChangedUntil(lines, ss, lines', all)
    ensures ChangeRun(Flatten(lines), StartsOf(lines), ss, Flatten(lines'))
    decreases |ss|
  {
    if ss != [] && InRange(Flatten(lines), ss[0].position) {
      var mid :| ChangedOnce(lines, ss[0], mid) && ChangedUntil(mid, ss[1..], lines', all);
      ChangesRun(mid, ss[1..], lines', all);
      var t := OnceStruck(lines, ss[0], mid);
      RunFrom(Flatten(lines), StartsOf(lines), ss, t, Flatten(lines'));
    }
  }

  /** A message that starts in front of the document is done when it would change nothing; any other, when
  every absent symbol belongs right before a line that goes on and whose first symbol it changes too. */
  predicate Changes(lines: seq<Line>, ss: seq<Symbol>) {
    var d := Flatten(lines);
    if ss == [] || d == [] then true
    else if Less(ss[0].position, d[0].position) then
      forall i :: 0 <= i < |ss| && Has(d, ss[i].position) ==> ss[i] in d
    else AbsentRepaired(d, StartsOf(lines), ss)
  }

  /** A message in document order does what it means exactly then. */
  lemma {:induction false} ChangedExactly(lines: seq<Line>, ss: seq<Symbol>, lines': seq<Line>, all: bool)
    requires Sorted(Flatten(lines)) && Sorted(ss) && ChangedUntil(lines, ss, lines', all)
    ensures Flatten(lines') == ReplaceAll(Flatten(lines), ss) <==> Changes(lines, ss)
  {
    var d, b := Flatten(lines), StartsOf(lines);
    ChangesRun(lines, ss, lines', all);
    StartsOrdered(lines);
    if d == [] {
      ReplaceNone(d, ss);
    } else if ss != [] && Less(ss[0].position, d[0].position) {
      SortedDistinct(ss);
      ChangesNothing(d, ss);
    } else {
      ExactlyRepaired(d, b, ss, Flatten(lines'));
    }
  }

  lemma {:induction false} ExactlyRepaired(d: Document, b: seq<nat>, ss: seq<Symbol>, r: Document)
    requires Tracks(d, b, d, ss) && ChangeRun(d, b, ss, r)
    ensures r == ReplaceAll(d, ss) <==> AbsentRepaired(d, b, ss)
  {
    if AbsentRepaired(d, b, ss) {
      RepairedDone(d, b, d, ss, r);
    }
    SortedDistinct(ss);
    ReplacedCell(d, ss, 0);
    if r == ReplaceAll(d, ss) {
      OnlyRepaired(d, b, d, ss, r);
    }
  }
}

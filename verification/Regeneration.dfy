/** What happens when an editor reuses a position: exactly which edits keep the replicas in agreement.

`ReferenceProtocol` proves convergence when no position is ever reused. The generator does not rule
reuse out: the random choices may hit the position of a symbol that was erased. Here nothing is
assumed about where positions come from, and each edit is given the exact condition on the queue
under which it preserves agreement.
*/
module Regeneration {
  import opened Wrappers
  import opened Positions
  import opened Generation
  import opened Documents
  import opened ReferenceProtocol

  /** Every editor, after replaying the messages it did not send, holds `final`. */
  predicate Agree(s: State, final: Document) {
    forall e <- s.docs :: Sorted(s.docs[e]) && Replay(s.docs[e], s.queue, e) == Some(final)
  }

  /** The last queued operation on a position that comes from another editor. */
  function LastOperation(queue: seq<Message>, e: int, p: Position): Option<Operation> {
    if queue == [] then None
    else
      var m := queue[|queue| - 1];
      if m.editorId != e && m.symbol.position == p then Some(m.operation)
      else LastOperation(queue[..|queue| - 1], e, p)
  }

  lemma {:induction false} MembersInserted(d: Document, x: Symbol)
    requires Sorted(d) && !Has(d, x.position)
    ensures forall y :: y in SortedInsert(d, x) <==> y in d || y == x
    ensures Sorted(SortedInsert(d, x))
  {
    InsertKeys(d, CountLess(d, x.position), x);
    SortedInsertKeepsSorted(d, x);
  }

  lemma {:induction false} MembersWithout(d: Document, p: Position)
    requires Sorted(d)
    ensures forall y :: y in Without(d, p) <==> y in d && y.position != p
    ensures Sorted(Without(d, p)) && !Has(Without(d, p), p)
  {
    WithoutKeys(d, p);
    forall y ensures y in Without(d, p) <==> y in d && y.position != p {
      InWithout(d, p, y);
    }
    assert p !in Keys(Without(d, p));
  }

  lemma {:induction false} HasWithout(d: Document, q: Position, p: Position)
    requires Sorted(d)
    ensures Has(Without(d, q), p) <==> Has(d, p) && p != q
  {
    WithoutKeys(d, q);
    assert p in Keys(Without(d, q)) <==> p in Keys(d) - {q};
  }

  /** Erasing undoes inserting. */
  lemma {:induction false} WithoutInserted(d: Document, x: Symbol)
    requires Sorted(d) && !Has(d, x.position)
    ensures Without(SortedInsert(d, x), x.position) == d
  {
    MembersInserted(d, x);
    MembersWithout(SortedInsert(d, x), x.position);
    forall y | y in d ensures y.position != x.position {
      assert y.position in Keys(d);
    }
    SortedUnique(Without(SortedInsert(d, x), x.position), d);
  }

  /** A message about another position commutes with having one symbol more. */
  lemma {:induction false} ProcessCommutesInsert(d: Document, x: Symbol, m: Message)
    requires Sorted(d) && !Has(d, x.position) && m.symbol.position != x.position
    ensures Process(SortedInsert(d, x), m).Some? <==> Process(d, m).Some?
    ensures Process(d, m).Some? ==>
              && Sorted(Process(d, m).value) && !Has(Process(d, m).value, x.position)
              && Process(SortedInsert(d, x), m).value == SortedInsert(Process(d, m).value, x)
  {
    var y := m.symbol;
    InsertedHas(d, CountLess(d, x.position), x, y.position);
    if Process(d, m).Some? {
      var d', e' := Process(d, m).value, Process(SortedInsert(d, x), m).value;
      MembersInserted(d, x);
      if m.operation == Insert {
        InsertedHas(d, CountLess(d, y.position), y, x.position);
        MembersInserted(d, y);
        MembersInserted(SortedInsert(d, x), y);
      } else {
        HasWithout(d, y.position, x.position);
        MembersWithout(d, y.position);
        MembersWithout(SortedInsert(d, x), y.position);
      }
      MembersInserted(d', x);
      SortedUnique(e', SortedInsert(d', x));
    }
  }

  lemma {:induction false} ReplaySnoc(d: Document, queue: seq<Message>, m: Message, e: int)
    ensures Replay(d, queue + [m], e)
         == match Replay(d, queue, e)
            case None => None
            case Some(r) => if m.editorId == e then Some(r) else Process(r, m)
    decreases |queue|
  {
    if queue == [] {
      assert queue + [m] == [m] && [m][1..] == [];
    } else {
      assert (queue + [m])[1..] == queue[1..] + [m];
      if queue[0].editorId == e {
        ReplaySnoc(d, queue[1..], m, e);
      } else if Process(d, queue[0]).Some? {
        ReplaySnoc(Process(d, queue[0]).value, queue[1..], m, e);
      }
    }
  }

  /** A replica with one symbol more keeps it through a replay that does not mention its position;
  otherwise it throws, or forgets the symbol and ends where it would have ended without it. */
  lemma {:induction false} ReplayWithOneMore(d: Document, x: Symbol, queue: seq<Message>, e: int)
    requires Sorted(d) && !Has(d, x.position) && Replay(d, queue, e).Some?
    ensures Sorted(Replay(d, queue, e).value)
    ensures Has(Replay(d, queue, e).value, x.position) <==> LastOperation(queue, e, x.position) == Some(Insert)
    ensures LastOperation(queue, e, x.position) == None
        ==> Replay(SortedInsert(d, x), queue, e) == Some(SortedInsert(Replay(d, queue, e).value, x))
    ensures LastOperation(queue, e, x.position) != None
        ==> Replay(SortedInsert(d, x), queue, e) in {None, Replay(d, queue, e)}
    decreases |queue|
  {
    if queue != [] {
      var m, q := queue[|queue| - 1], queue[..|queue| - 1];
      assert queue == q + [m];
      ReplaySnoc(d, q, m, e);
      ReplaySnoc(SortedInsert(d, x), q, m, e);
      ReplayWithOneMore(d, x, q, e);
      var r := Replay(d, q, e).value;
      if m.editorId != e {
        if m.operation == Insert {
          InsertedHas(r, CountLess(r, m.symbol.position), m.symbol, x.position);
          MembersInserted(r, m.symbol);
        } else {
          MembersWithout(r, m.symbol.position);
          HasWithout(r, m.symbol.position, x.position);
        }
        if LastOperation(q, e, x.position) == None {
          if m.symbol.position != x.position {
            ProcessCommutesInsert(r, x, m);
          } else if m.operation == Insert {
            InsertedHas(r, CountLess(r, x.position), x, x.position);
          } else {
            WithoutInserted(r, x);
            WithoutAbsent(r, x.position);
          }
        }
      }
    }
  }

  /** Typing at a position that no waiting message mentions keeps the replicas in agreement. */
  lemma {:induction false} InsertAgrees(s: State, s': State, e: int, k: nat, x: Symbol, final: Document)
    requires Agree(s, final) && InsertStep(s, s', e, k, x) && LastOperation(s.queue, e, x.position) == None
    ensures Agree(s', SortedInsert(final, x))
  {
    var m := Message(e, x, Insert);
    BetweenFits(s.docs[e], k, x.position);
    MembersInserted(s.docs[e], x);
    ReplayWithOneMore(s.docs[e], x, s.queue, e);
    ReplaySnoc(s'.docs[e], s.queue, m, e);
    forall g <- s.docs | g != e ensures Replay(s'.docs[g], s'.queue, g) == Some(SortedInsert(final, x)) {
      ReplaySnoc(s.docs[g], s.queue, m, g);
    }
  }

  /** Typing a symbol keeps the replicas in agreement exactly when no message waiting for the
  editor mentions the symbol's position, whether or not it was ever used before. */
  lemma {:induction false} InsertAgreesExactly(s: State, s': State, e: int, k: nat, x: Symbol, f: int, final: Document)
    requires Agree(s, final) && InsertStep(s, s', e, k, x)
    requires f in s.docs && f != e
    ensures (exists final' :: Agree(s', final')) <==> LastOperation(s.queue, e, x.position) == None
  {
    var m := Message(e, x, Insert);
    var p := x.position;
    BetweenFits(s.docs[e], k, p);
    MembersInserted(s.docs[e], x);
    ReplayWithOneMore(s.docs[e], x, s.queue, e);
    ReplaySnoc(s'.docs[e], s.queue, m, e);
    forall g <- s.docs | g != e ensures Replay(s'.docs[g], s'.queue, g) == Process(final, m) {
      ReplaySnoc(s.docs[g], s.queue, m, g);
    }
    InsertedHas(final, CountLess(final, x.position), x, p);
    if LastOperation(s.queue, e, p) == None {
      InsertAgrees(s, s', e, k, x, final);
    }
    if final' :| Agree(s', final') {
      assert Replay(s'.docs[f], s'.queue, f) == Some(final') == Replay(s'.docs[e], s'.queue, e);
    }
  }

  /** Whatever a replica with the extra symbol survives, the replica without it survives too. */
  lemma {:induction false} ReplayWithOneLess(d: Document, x: Symbol, queue: seq<Message>, e: int)
    requires Sorted(d) && !Has(d, x.position) && Replay(SortedInsert(d, x), queue, e).Some?
    ensures Replay(d, queue, e).Some?
    decreases |queue|
  {
    if queue != [] {
      var m, q := queue[|queue| - 1], queue[..|queue| - 1];
      assert queue == q + [m];
      ReplaySnoc(d, q, m, e);
      ReplaySnoc(SortedInsert(d, x), q, m, e);
      ReplayWithOneLess(d, x, q, e);
      ReplayWithOneMore(d, x, q, e);
      var r := Replay(d, q, e).value;
      if m.editorId != e && LastOperation(q, e, x.position) == None {
        InsertedHas(r, CountLess(r, x.position), x, x.position);
        if m.symbol.position != x.position {
          ProcessCommutesInsert(r, x, m);
        }
      }
    }
  }

  /** Erasing a symbol that no waiting message brings back keeps the replicas in agreement. */
  lemma {:induction false} EraseAgrees(s: State, s': State, e: int, k: nat, final: Document)
    requires Agree(s, final) && EraseStep(s, s', e, k)
    requires LastOperation(s.queue, e, s.docs[e][k].position) != Some(Insert)
    ensures Agree(s', Without(final, s.docs[e][k].position))
  {
    var x, d := s.docs[e][k], s'.docs[e];
    var p, m := x.position, Message(e, x, Delete);
    RemoveThenInsert(s.docs[e], k);
    ReplayWithOneLess(d, x, s.queue, e);
    ReplayWithOneMore(d, x, s.queue, e);
    var r := Replay(d, s.queue, e).value;
    ReplaySnoc(d, s.queue, m, e);
    forall g <- s.docs | g != e ensures Replay(s'.docs[g], s'.queue, g) == Some(Without(final, p)) {
      ReplaySnoc(s.docs[g], s.queue, m, g);
    }
    if LastOperation(s.queue, e, p) == None {
      WithoutInserted(r, x);
    } else {
      WithoutAbsent(r, p);
    }
  }

  /** Erasing a symbol keeps the replicas in agreement exactly when the last message about its
  position waiting for the editor is not an insertion, which would bring the position back. */
  lemma {:induction false} EraseAgreesExactly(s: State, s': State, e: int, k: nat, f: int, final: Document)
    requires Agree(s, final) && EraseStep(s, s', e, k)
    requires f in s.docs && f != e
    ensures (exists final' :: Agree(s', final'))
       <==> LastOperation(s.queue, e, s.docs[e][k].position) != Some(Insert)
  {
    var x, d := s.docs[e][k], s'.docs[e];
    var p, m := x.position, Message(e, x, Delete);
    RemoveThenInsert(s.docs[e], k);
    ReplayWithOneLess(d, x, s.queue, e);
    ReplayWithOneMore(d, x, s.queue, e);
    var r := Replay(d, s.queue, e).value;
    ReplaySnoc(d, s.queue, m, e);
    forall g <- s.docs | g != e ensures Replay(s'.docs[g], s'.queue, g) == Some(Without(final, p)) {
      ReplaySnoc(s.docs[g], s.queue, m, g);
    }
    if LastOperation(s.queue, e, p) != Some(Insert) {
      EraseAgrees(s, s', e, k, final);
    } else {
      HasWithout(r, p, p);
      assert Replay(s'.docs[f], s'.queue, f) != Replay(s'.docs[e], s'.queue, e);
    }
  }

  // ----- Whole runs -----

  /** Some step of the protocol, wherever its positions come from. */
  ghost predicate AnyStep(s: State, s': State) {
    || (exists e, k: nat, x :: InsertStep(s, s', e, k, x))
    || (exists e, k: nat :: EraseStep(s, s', e, k))
    || DispatchStep(s, s')
    || (exists e :: DisconnectStep(s, s', e))
  }

  /** The step meets the exact condition of its kind. */
  ghost predicate Harmless(s: State, s': State) {
    && (forall e, k: nat, x :: InsertStep(s, s', e, k, x) ==> LastOperation(s.queue, e, x.position) == None)
    && (forall e, k: nat :: EraseStep(s, s', e, k) ==>
          LastOperation(s.queue, e, s.docs[e][k].position) != Some(Insert))
  }

  ghost predicate AnyRun(run: seq<State>) {
    && run != [] && Initial(run[0])
    && forall i :: 0 <= i < |run| - 1 ==> AnyStep(run[i], run[i + 1])
  }

  ghost predicate InAgreement(s: State) {
    exists final :: Agree(s, final)
  }

  lemma {:induction false} ProcessSorted(d: Document, m: Message)
    requires Sorted(d) && Process(d, m).Some?
    ensures Sorted(Process(d, m).value)
  {
    if m.operation == Insert {
      MembersInserted(d, m.symbol);
    } else {
      MembersWithout(d, m.symbol.position);
    }
  }

  lemma {:induction false} ReplayHead(d: Document, queue: seq<Message>, e: int)
    requires Sorted(d) && queue != [] && Replay(d, queue[..1], e).Some?
    ensures Sorted(Replay(d, queue[..1], e).value)
    ensures Replay(d, queue, e) == Replay(Replay(d, queue[..1], e).value, queue[1..], e)
  {
    var m := queue[0];
    assert queue[..1] == [m] && [m][1..] == [];
    if m.editorId != e {
      ProcessSorted(d, m);
    }
  }

  lemma {:induction false} DispatchAgrees(s: State, s': State, final: Document)
    requires Agree(s, final) && DispatchStep(s, s')
    ensures Agree(s', final)
  {
    forall e <- s'.docs ensures Sorted(s'.docs[e]) && Replay(s'.docs[e], s'.queue, e) == Some(final) {
      ReplayHead(s.docs[e], s.queue, e);
    }
  }

  lemma {:induction false} HarmlessAgrees(s: State, s': State)
    requires InAgreement(s) && AnyStep(s, s') && Harmless(s, s')
    ensures InAgreement(s')
  {
    var final :| Agree(s, final);
    if e, k: nat, x :| InsertStep(s, s', e, k, x) {
      InsertAgrees(s, s', e, k, x, final);
    } else if e, k: nat :| EraseStep(s, s', e, k) {
      EraseAgrees(s, s', e, k, final);
    } else if DispatchStep(s, s') {
      DispatchAgrees(s, s', final);
    } else {
      var e :| DisconnectStep(s, s', e);
      assert Agree(s', final);
    }
  }

  lemma {:induction false} AgreementNeedsHarmless(s: State, s': State)
    requires InAgreement(s) && InAgreement(s') && |s.docs| >= 2
    ensures Harmless(s, s')
  {
    var final :| Agree(s, final);
    forall e, k: nat, x | InsertStep(s, s', e, k, x) ensures LastOperation(s.queue, e, x.position) == None {
      var f := Another(s.docs.Keys, e);
      InsertAgreesExactly(s, s', e, k, x, f, final);
    }
    forall e, k: nat | EraseStep(s, s', e, k)
      ensures LastOperation(s.queue, e, s.docs[e][k].position) != Some(Insert)
    {
      var f := Another(s.docs.Keys, e);
      EraseAgreesExactly(s, s', e, k, f, final);
    }
  }

  lemma {:induction false} Another(es: set<int>, e: int) returns (f: int)
    requires |es| >= 2 && e in es
    ensures f in es && f != e
  {
    assert |es - {e}| >= 1;
    f := Member(es - {e});
  }

  /** The exact condition for whole runs: among two or more editors the replicas agree all along if and
  only if every insertion and every erasure meets its condition. */
  lemma {:induction false} RunsAgreeExactly(run: seq<State>)
    requires AnyRun(run) && forall i :: 0 <= i < |run| ==> |run[i].docs| >= 2
    ensures (forall n :: 0 <= n < |run| ==> InAgreement(run[n]))
       <==> (forall i :: 0 <= i < |run| - 1 ==> Harmless(run[i], run[i + 1]))
  {
    if forall i :: 0 <= i < |run| - 1 ==> Harmless(run[i], run[i + 1]) {
      forall n | 0 <= n < |run| ensures InAgreement(run[n]) {
        HarmlessRunAgrees(run, n);
      }
    }
    if forall n :: 0 <= n < |run| ==> InAgreement(run[n]) {
      forall i | 0 <= i < |run| - 1 ensures Harmless(run[i], run[i + 1]) {
        AgreementNeedsHarmless(run[i], run[i + 1]);
      }
    }
  }

  lemma {:induction false} HarmlessRunAgrees(run: seq<State>, n: nat)
    requires AnyRun(run) && n < |run| && forall i :: 0 <= i < n ==> Harmless(run[i], run[i + 1])
    ensures InAgreement(run[n])
  {
    if n == 0 {
      assert Agree(run[0], []);
    } else {
      HarmlessRunAgrees(run, n - 1);
      assert AnyStep(run[n - 1], run[n - 1 + 1]) && Harmless(run[n - 1], run[n - 1 + 1]);
      HarmlessAgrees(run[n - 1], run[n]);
    }
  }

  /** Replicas in agreement are equal once the queue is empty. */
  lemma {:induction false} AgreementIsEquality(s: State)
    requires s.queue == []
    ensures InAgreement(s) <==>
              (forall e <- s.docs :: Sorted(s.docs[e])) && (forall e <- s.docs, f <- s.docs :: s.docs[e] == s.docs[f])
  {
    if (forall e <- s.docs :: Sorted(s.docs[e])) && (forall e <- s.docs, f <- s.docs :: s.docs[e] == s.docs[f]) {
      if s.docs.Keys == {} {
        assert Agree(s, []);
      } else {
        var e := Member(s.docs.Keys);
        assert Agree(s, s.docs[e]);
      }
    }
  }

  /** A state of two editors in which one symbol was typed, and is live or not. */
  function Two(a: Document, b: Document, queue: seq<Message>, x: Symbol, live: bool): State {
    State(map[0 := a, 1 := b], queue, map[x.position := x], if live then {x.position} else {})
  }

  /** A whole run: the first editor types a symbol, which reaches the second one; both erase it, and the first
  generates its position again, in the same empty document. Once everything is dispatched, the second
  editor has the new symbol and the first does not. */
  lemma {:induction false} RegenerationDiverges(x: Symbol)
    requires Generated([], x.position, [], 0)
    ensures exists i0, i1, s0, s1, s2, s3: State ::
              && Initial(i0) && i0.docs == map[0 := [], 1 := []]
              && InsertStep(i0, i1, 0, 0, x) && DispatchStep(i1, s0)
              && EraseStep(s0, s1, 0, 0) && EraseStep(s1, s2, 1, 0) && InsertStep(s2, s3, 0, 0, x)
              && s2.docs[0] == [] && Replay(s3.docs[0], s3.queue, 0) == Some([])
              && Replay(s3.docs[1], s3.queue, 1) == Some([x])
  {
    var typed, erase0, erase1 := Message(0, x, Insert), Message(0, x, Delete), Message(1, x, Delete);
    FirstTyped(x);
    BothErase(x);
    TypedAgain(x);
    RetypedDiverges(x);
    assert Two([], [], [erase0, erase1], x, false).docs[0] == [];
    assert Two([x], [], [erase0, erase1, typed], x, true).docs == map[0 := [x], 1 := []];
  }

  lemma {:induction false} FirstTyped(x: Symbol)
    ensures var i0, i1 := State(map[0 := [], 1 := []], [], map[], {}), Two([x], [], [Message(0, x, Insert)], x, true);
            Initial(i0) && InsertStep(i0, i1, 0, 0, x) && DispatchStep(i1, Two([x], [x], [], x, true))
  {
    var typed := Message(0, x, Insert);
    TypedArrives(x);
    assert [typed][..1] == [typed] && [typed][1..] == [];
    assert InsertAt([], 0, x) == [x];
    assert map[0 := [], 1 := []][0 := [x]] == map[0 := [x], 1 := []];
  }

  lemma {:induction false} BothErase(x: Symbol)
    ensures EraseStep(Two([x], [x], [], x, true), Two([], [x], [Message(0, x, Delete)], x, false), 0, 0)
    ensures EraseStep(Two([], [x], [Message(0, x, Delete)], x, false),
                      Two([], [], [Message(0, x, Delete), Message(1, x, Delete)], x, false), 1, 0)
  {
    assert RemoveAt([x], 0) == [];
    assert map[0 := [x], 1 := [x]][0 := []] == map[0 := [], 1 := [x]];
    assert map[0 := [], 1 := [x]][1 := []] == map[0 := [], 1 := []];
  }

  lemma {:induction false} TypedAgain(x: Symbol)
    ensures var erased := [Message(0, x, Delete), Message(1, x, Delete)];
            InsertStep(Two([], [], erased, x, false), Two([x], [], erased + [Message(0, x, Insert)], x, true), 0, 0, x)
  {
    assert InsertAt([], 0, x) == [x];
    assert map[0 := [], 1 := []][0 := [x]] == map[0 := [x], 1 := []];
    assert map[x.position := x][x.position := x] == map[x.position := x];
  }

  lemma {:induction false} TypedArrives(x: Symbol)
    ensures Replay([x], [Message(0, x, Insert)], 0) == Some([x]) == Replay([], [Message(0, x, Insert)], 1)
  {
    assert [Message(0, x, Insert)][1..] == [];
    assert SortedInsert([], x) == [x];
  }

  lemma {:induction false} RetypedDiverges(x: Symbol)
    ensures var queue := [Message(0, x, Delete), Message(1, x, Delete), Message(0, x, Insert)];
            Replay([x], queue, 0) == Some([]) && Replay([], queue, 1) == Some([x])
  {
    var erase0, erase1, typed := Message(0, x, Delete), Message(1, x, Delete), Message(0, x, Insert);
    var queue := [erase0, erase1, typed];
    assert queue[1..] == [erase1, typed] && [erase1, typed][1..] == [typed] && [typed][1..] == [];
    assert Without([], x.position) == [] && Without([x], x.position) == [];
    TypedArrives(x);
    calc {
      Replay([x], queue, 0);
      Replay([x], [erase1, typed], 0);
      { assert Process([x], erase1) == Some([]); }
      Replay([], [typed], 0);
      Some([]);
    }
    calc {
      Replay([], queue, 1);
      { assert Process([], erase0) == Some([]); }
      Replay([], [erase1, typed], 1);
      Replay([], [typed], 1);
    }
  }
}

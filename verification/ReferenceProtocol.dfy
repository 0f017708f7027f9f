/** The reference protocol: flat replicas and one FIFO broadcast queue
(Resources/CRDT_LSEQ_implementation_in_c++).

A state machine over the documents of the connected editors and the queue. Its history remembers
every symbol ever inserted and which of them nobody has erased yet.
*/
module ReferenceProtocol {
  import opened Wrappers
  import opened Positions
  import opened Documents

  datatype Operation = Insert | Delete

  datatype Message = Message(editorId: int, symbol: Symbol, operation: Operation)

  /** `process`: inserting an occupied position throws, deleting an absent symbol does nothing. */
  function Process(d: Document, m: Message): Option<Document> {
    match m.operation
    case Insert => if Has(d, m.symbol.position) then None else Some(SortedInsert(d, m.symbol))
    case Delete => Some(Without(d, m.symbol.position))
  }

  /** Editor `e` processing the queued messages that it did not send itself. */
  function Replay(d: Document, queue: seq<Message>, e: int): Option<Document>
    decreases |queue|
  {
    if queue == [] then Some(d)
    else if queue[0].editorId == e then Replay(d, queue[1..], e)
    else
      match Process(d, queue[0])
      case None => None
      case Some(d') => Replay(d', queue[1..], e)
  }

  datatype State = State(
    docs: map<int, Document>,
    queue: seq<Message>,
    history: map<Position, Symbol>,
    live: set<Position>)

  predicate Initial(s: State) {
    s.queue == [] && s.history == map[] && s.live == {} && forall e <- s.docs :: s.docs[e] == []
  }

  /** Editor `e` types a symbol at index `k`, at a position it generated between the neighbours. */
  predicate InsertStep(s: State, s': State, e: int, k: nat, x: Symbol) {
    && e in s.docs && k <= |s.docs[e]|
    && (k > 0 ==> Less(s.docs[e][k - 1].position, x.position))
    && (k < |s.docs[e]| ==> Less(x.position, s.docs[e][k].position))
    && s' == State(s.docs[e := InsertAt(s.docs[e], k, x)],
                   s.queue + [Message(e, x, Insert)],
                   s.history[x.position := x],
                   s.live + {x.position})
  }

  /** Editor `e` erases the symbol at index `k`. */
  predicate EraseStep(s: State, s': State, e: int, k: nat) {
    && e in s.docs && k < |s.docs[e]|
    && s' == State(s.docs[e := RemoveAt(s.docs[e], k)],
                   s.queue + [Message(e, s.docs[e][k], Delete)],
                   s.history,
                   s.live - {s.docs[e][k].position})
  }

  /** The oldest message reaches every editor but its sender. */
  predicate DispatchStep(s: State, s': State) {
    && s.queue != []
    && s'.docs.Keys == s.docs.Keys
    && (forall e <- s.docs :: Replay(s.docs[e], s.queue[..1], e) == Some(s'.docs[e]))
    && s' == s.(docs := s'.docs, queue := s.queue[1..])
  }

  /** An editor leaves; its messages stay queued. */
  predicate DisconnectStep(s: State, s': State, e: int) {
    s' == s.(docs := s.docs - {e})
  }

  /** No editor regenerates a position that was used before. */
  ghost predicate Next(s: State, s': State) {
    || (exists e, k: nat, x :: InsertStep(s, s', e, k, x) && x.position !in s.history)
    || (exists e, k: nat :: EraseStep(s, s', e, k))
    || DispatchStep(s, s')
    || (exists e :: DisconnectStep(s, s', e))
  }

  ghost predicate IsRun(run: seq<State>) {
    && run != [] && Initial(run[0])
    && forall i :: 0 <= i < |run| - 1 ==> Next(run[i], run[i + 1])
  }

  // ----- What holds in every reachable state -----

  ghost function Keys(d: Document): (ps: set<Position>)
    ensures forall p :: p in ps <==> Has(d, p)
  {
    set i | 0 <= i < |d| :: d[i].position
  }

  /** Positions that messages from other editors still insert, and still delete. */
  ghost function Pending(queue: seq<Message>, e: int, op: Operation): set<Position> {
    set i | 0 <= i < |queue| && queue[i].editorId != e && queue[i].operation == op :: queue[i].symbol.position
  }

  predicate Known(x: Symbol, history: map<Position, Symbol>) {
    x.position in history && history[x.position] == x
  }

  predicate DocKnown(d: Document, history: map<Position, Symbol>) {
    Sorted(d) && forall i :: 0 <= i < |d| ==> Known(d[i], history)
  }

  predicate QueueKnown(queue: seq<Message>, history: map<Position, Symbol>) {
    forall i :: 0 <= i < |queue| ==> Known(queue[i].symbol, history)
  }

  /** An insertion is queued once, and never behind a deletion of the same position. */
  predicate InsertsFirst(queue: seq<Message>) {
    forall i, j :: 0 <= i < j < |queue| && queue[j].operation == Insert
               ==> queue[i].symbol.position != queue[j].symbol.position
  }

  ghost predicate EditorConsistent(d: Document, queue: seq<Message>, e: int, s: State) {
    && DocKnown(d, s.history)
    && Keys(d) !! Pending(queue, e, Insert)
    && (Keys(d) + Pending(queue, e, Insert)) - Pending(queue, e, Delete) == s.live
  }

  ghost predicate Inv(s: State) {
    && s.live <= s.history.Keys
    && QueueKnown(s.queue, s.history)
    && InsertsFirst(s.queue)
    && forall e <- s.docs :: EditorConsistent(s.docs[e], s.queue, e, s)
  }

  /** Two documents over the same positions, with symbols from one history, are the same list. */
  lemma {:induction false} KeysDetermine(a: Document, b: Document, history: map<Position, Symbol>)
    requires DocKnown(a, history) && DocKnown(b, history) && Keys(a) == Keys(b)
    ensures a == b
  {
    forall x ensures x in a <==> x in b {
      if x in a {
        assert x.position in Keys(b);
      }
      if x in b {
        assert x.position in Keys(a);
      }
    }
    SortedUnique(a, b);
  }

  lemma {:induction false} InsertKeys(d: Document, k: nat, x: Symbol)
    requires k <= |d|
    ensures Keys(InsertAt(d, k, x)) == Keys(d) + {x.position}
    ensures forall y :: y in InsertAt(d, k, x) <==> y in d || y == x
  {
    var r := InsertAt(d, k, x);
    assert d == d[..k] + d[k..];
    forall i | 0 <= i < |d| ensures d[i].position in Keys(r) {
      assert r[if i < k then i else i + 1] == d[i];
    }
    assert r[k] == x;
  }

  lemma {:induction false} RemoveKeys(d: Document, k: nat)
    requires Sorted(d) && k < |d|
    ensures Keys(RemoveAt(d, k)) == Keys(d) - {d[k].position}
  {
    var r := RemoveAt(d, k);
    RemoveAtKeepsSorted(d, k);
    forall i | 0 <= i < |d| && i != k ensures d[i].position in Keys(r) {
      assert r[if i < k then i else i - 1] == d[i];
    }
  }

  lemma {:induction false} WithoutKeys(d: Document, p: Position)
    requires Sorted(d)
    ensures Sorted(Without(d, p)) && Keys(Without(d, p)) == Keys(d) - {p}
    ensures forall x :: x in Without(d, p) ==> x in d
  {
    if k :| 0 <= k < |d| && d[k].position == p {
      WithoutPresent(d, k);
      RemoveAtKeepsSorted(d, k);
      RemoveKeys(d, k);
    } else {
      WithoutAbsent(d, p);
    }
  }

  lemma {:induction false} ProcessConsistent(d: Document, m: Message, history: map<Position, Symbol>)
    requires DocKnown(d, history) && Known(m.symbol, history)
    requires m.operation == Insert ==> !Has(d, m.symbol.position)
    ensures Process(d, m).Some? && DocKnown(Process(d, m).value, history)
    ensures Keys(Process(d, m).value)
         == if m.operation == Insert then Keys(d) + {m.symbol.position} else Keys(d) - {m.symbol.position}
  {
    var r := Process(d, m).value;
    if m.operation == Insert {
      SortedInsertKeepsSorted(d, m.symbol);
      InsertKeys(d, CountLess(d, m.symbol.position), m.symbol);
    } else {
      WithoutKeys(d, m.symbol.position);
    }
    forall i | 0 <= i < |r| ensures Known(r[i], history) {
      assert r[i] in r;
    }
  }

  lemma {:induction false} PendingCons(queue: seq<Message>, e: int, op: Operation)
    requires queue != []
    ensures Pending(queue, e, op)
         == Pending(queue[1..], e, op)
          + if queue[0].editorId != e && queue[0].operation == op then {queue[0].symbol.position} else {}
  {
    forall p | p in Pending(queue[1..], e, op) ensures p in Pending(queue, e, op) {
      var i :| 0 <= i < |queue[1..]| && queue[1..][i].editorId != e && queue[1..][i].operation == op
             && queue[1..][i].symbol.position == p;
      assert queue[i + 1] == queue[1..][i];
    }
    forall i | 1 <= i < |queue| ensures queue[i] == queue[1..][i - 1] {
    }
  }

  lemma {:induction false} PendingSnoc(queue: seq<Message>, m: Message, e: int, op: Operation)
    ensures Pending(queue + [m], e, op)
         == Pending(queue, e, op) + if m.editorId != e && m.operation == op then {m.symbol.position} else {}
  {
    var q := queue + [m];
    assert forall i :: 0 <= i < |queue| ==> q[i] == queue[i];
    assert q[|queue|] == m;
  }

  /** One delivery keeps an editor consistent with what is still queued. */
  lemma {:induction false} DeliverConsistent(d: Document, s: State, queue: seq<Message>, e: int)
    requires queue != [] && EditorConsistent(d, queue, e, s)
    requires QueueKnown(queue, s.history) && InsertsFirst(queue)
    ensures QueueKnown(queue[1..], s.history) && InsertsFirst(queue[1..])
    ensures Replay(d, queue[..1], e).Some?
    ensures EditorConsistent(Replay(d, queue[..1], e).value, queue[1..], e, s)
  {
    var m := queue[0];
    PendingCons(queue, e, Insert);
    PendingCons(queue, e, Delete);
    assert queue[..1] == [m];
    assert Replay(d, [m], e) == if m.editorId == e then Some(d) else Process(d, m);
    if m.editorId != e {
      if m.operation == Insert {
        assert m.symbol.position !in Keys(d);
      }
      ProcessConsistent(d, m, s.history);
      forall p | p in Pending(queue[1..], e, Insert) ensures p != m.symbol.position {
        var i :| 0 <= i < |queue[1..]| && queue[1..][i].operation == Insert && queue[1..][i].symbol.position == p;
        assert queue[i + 1] == queue[1..][i];
      }
    }
  }

  /** Replaying the whole queue never throws, and leaves exactly the live positions. */
  lemma {:induction false} ReplayReachesLive(d: Document, s: State, queue: seq<Message>, e: int)
    requires EditorConsistent(d, queue, e, s)
    requires QueueKnown(queue, s.history) && InsertsFirst(queue)
    ensures var r := Replay(d, queue, e);
            r.Some? && DocKnown(r.value, s.history) && Keys(r.value) == s.live
    decreases |queue|
  {
    if queue != [] {
      DeliverConsistent(d, s, queue, e);
      var r := Replay(d, queue[..1], e).value;
      assert queue[..1] == [queue[0]];
      assert Replay(d, [queue[0]], e) == if queue[0].editorId == e then Some(d) else Process(d, queue[0]);
      ReplayReachesLive(r, s, queue[1..], e);
    }
  }

  lemma {:induction false} InsertKnown(d: Document, k: nat, x: Symbol, history: map<Position, Symbol>)
    requires DocKnown(d, history) && x.position !in history && k <= |d|
    requires Sorted(InsertAt(d, k, x))
    ensures DocKnown(InsertAt(d, k, x), history[x.position := x])
  {
    var r := InsertAt(d, k, x);
    forall i | 0 <= i < |r| ensures Known(r[i], history[x.position := x]) {
      assert r[i] == if i < k then d[i] else if i == k then x else d[i - 1];
    }
  }

  lemma {:induction false} InsertConsistent(s: State, s': State, e: int, k: nat, x: Symbol)
    requires InsertStep(s, s', e, k, x) && x.position !in s.history
    requires EditorConsistent(s.docs[e], s.queue, e, s) && QueueKnown(s.queue, s.history)
    ensures EditorConsistent(s'.docs[e], s'.queue, e, s')
  {
    var d := s.docs[e];
    assert DocKnown(s'.docs[e], s'.history) by {
      BetweenFits(d, k, x.position);
      SortedInsertKeepsSorted(d, x);
      InsertKnown(d, k, x, s.history);
    }
    InsertKeys(d, k, x);
    PendingSnoc(s.queue, Message(e, x, Insert), e, Insert);
    PendingSnoc(s.queue, Message(e, x, Insert), e, Delete);
    PendingKnown(s.queue, e, s.history);
  }

  lemma {:induction false} PendingKnown(queue: seq<Message>, e: int, history: map<Position, Symbol>)
    requires QueueKnown(queue, history)
    ensures Pending(queue, e, Insert) <= history.Keys && Pending(queue, e, Delete) <= history.Keys
  {
  }

  lemma {:induction false} InsertConsistentElsewhere(s: State, s': State, e: int, k: nat, x: Symbol, f: int)
    requires f in s.docs && f != e
    requires EditorConsistent(s.docs[f], s.queue, f, s) && QueueKnown(s.queue, s.history)
    requires InsertStep(s, s', e, k, x) && x.position !in s.history
    ensures EditorConsistent(s'.docs[f], s'.queue, f, s')
  {
    PendingSnoc(s.queue, Message(e, x, Insert), f, Insert);
    PendingSnoc(s.queue, Message(e, x, Insert), f, Delete);
    PendingKnown(s.queue, f, s.history);
    assert DocKnown(s.docs[f], s'.history);
    assert x.position !in Keys(s.docs[f]);
  }

  lemma {:induction false} InsertKeepsInv(s: State, s': State, e: int, k: nat, x: Symbol)
    requires Inv(s) && InsertStep(s, s', e, k, x) && x.position !in s.history
    ensures Inv(s')
  {
    assert QueueKnown(s'.queue, s'.history);
    assert InsertsFirst(s'.queue) by {
      assert forall i :: 0 <= i < |s.queue| ==> s.queue[i].symbol.position in s.history;
    }
    forall f <- s'.docs ensures EditorConsistent(s'.docs[f], s'.queue, f, s') {
      assert EditorConsistent(s.docs[f], s.queue, f, s);
      if f == e {
        InsertConsistent(s, s', e, k, x);
      } else {
        InsertConsistentElsewhere(s, s', e, k, x, f);
      }
    }
  }

  lemma {:induction false} EraseKeepsInv(s: State, s': State, e: int, k: nat)
    requires Inv(s) && EraseStep(s, s', e, k)
    ensures Inv(s')
  {
    var d := s.docs[e];
    var m := Message(e, d[k], Delete);
    assert EditorConsistent(d, s.queue, e, s);
    RemoveAtKeepsSorted(d, k);
    RemoveKeys(d, k);
    assert d[k].position in Keys(d);
    forall f <- s'.docs ensures EditorConsistent(s'.docs[f], s'.queue, f, s') {
      assert EditorConsistent(s.docs[f], s.queue, f, s);
      PendingSnoc(s.queue, m, f, Insert);
      PendingSnoc(s.queue, m, f, Delete);
    }
  }

  lemma {:induction false} DispatchKeepsInv(s: State, s': State)
    requires Inv(s) && DispatchStep(s, s')
    ensures Inv(s')
  {
    forall e <- s'.docs ensures EditorConsistent(s'.docs[e], s'.queue, e, s') {
      assert EditorConsistent(s.docs[e], s.queue, e, s);
      DeliverConsistent(s.docs[e], s, s.queue, e);
    }
  }

  lemma {:induction false} NextKeepsInv(s: State, s': State)
    requires Inv(s) && Next(s, s')
    ensures Inv(s')
  {
    if e, k: nat, x :| InsertStep(s, s', e, k, x) && x.position !in s.history {
      InsertKeepsInv(s, s', e, k, x);
    } else if e, k: nat :| EraseStep(s, s', e, k) {
      EraseKeepsInv(s, s', e, k);
    } else if DispatchStep(s, s') {
      DispatchKeepsInv(s, s');
    } else {
      var e :| DisconnectStep(s, s', e);
      forall f <- s'.docs ensures EditorConsistent(s'.docs[f], s'.queue, f, s') {
        assert EditorConsistent(s.docs[f], s.queue, f, s);
      }
    }
  }

  lemma {:induction false} RunKeepsInv(run: seq<State>, n: nat)
    requires IsRun(run) && n < |run|
    ensures Inv(run[n])
  {
    if n == 0 {
      forall e <- run[0].docs ensures EditorConsistent(run[0].docs[e], run[0].queue, e, run[0]) {
      }
    } else {
      RunKeepsInv(run, n - 1);
      assert Next(run[n - 1], run[n - 1 + 1]);
      NextKeepsInv(run[n - 1], run[n]);
    }
  }

  /** Any two editors that replay what they have not seen end with the same list, without a throw. */
  lemma {:induction false} EditorsAgree(s: State, e: int, f: int)
    requires Inv(s) && e in s.docs && f in s.docs
    ensures Replay(s.docs[e], s.queue, e).Some?
    ensures Replay(s.docs[e], s.queue, e) == Replay(s.docs[f], s.queue, f)
  {
    ReplayReachesLive(s.docs[e], s, s.queue, e);
    ReplayReachesLive(s.docs[f], s, s.queue, f);
    KeysDetermine(Replay(s.docs[e], s.queue, e).value, Replay(s.docs[f], s.queue, f).value, s.history);
  }

  /** Convergence: along every run, in every state, all editors replay to one list; so they are
  equal whenever the queue is empty, and hold just the symbols inserted and erased by nobody. */
  lemma {:induction false} Convergence(run: seq<State>, n: nat, e: int, f: int)
    requires IsRun(run) && n < |run|
    requires e in run[n].docs && f in run[n].docs
    ensures Replay(run[n].docs[e], run[n].queue, e).Some?
    ensures Replay(run[n].docs[e], run[n].queue, e) == Replay(run[n].docs[f], run[n].queue, f)
    ensures run[n].queue == [] ==> run[n].docs[e] == run[n].docs[f]
    ensures run[n].queue == [] ==> forall p :: Has(run[n].docs[e], p) <==> p in run[n].live
  {
    RunKeepsInv(run, n);
    EditorsAgree(run[n], e, f);
    ReplayReachesLive(run[n].docs[e], run[n], run[n].queue, e);
  }

  /** In every reachable state the oldest message can be dispatched: no editor throws. */
  lemma {:induction false} DispatchNeverThrows(run: seq<State>, n: nat)
    requires IsRun(run) && n < |run| && run[n].queue != []
    ensures exists s' :: DispatchStep(run[n], s')
  {
    RunKeepsInv(run, n);
    var s := run[n];
    forall e <- s.docs ensures Replay(s.docs[e], s.queue[..1], e).Some? {
      DeliverConsistent(s.docs[e], s, s.queue, e);
    }
    var docs := map e <- s.docs :: Replay(s.docs[e], s.queue[..1], e).value;
    var s' := s.(docs := docs, queue := s.queue[1..]);
    assert DispatchStep(s, s');
  }
}

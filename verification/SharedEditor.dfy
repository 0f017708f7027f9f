/** The reference editor and its server as objects
(Resources/CRDT_LSEQ_implementation_in_c++/SharedEditor.h and NetworkServer.cpp). */
module Reference {
  import opened Wrappers
  import opened Positions
  import opened Generation
  import opened Documents
  import opened ReferenceProtocol

  /** The reference symbol carries no format. */
  const PLAIN: Format := Format(AlignLeft, Style(false, false, false, [], 0, []))

  class SharedEditor {
    const server: NetworkServer
    var siteId: int
    var symbols: Document
    var counter: int
    var strategyCache: StrategyCache

    ghost predicate Valid()
      reads this
    {
      Sorted(symbols) && AllWellFormed(symbols)
    }

    ghost predicate Connected()
      reads this, server
    {
      siteId in server.editors && server.editors[siteId] == this
    }

    constructor (network: NetworkServer)
      requires network.Valid()
      modifies network`id, network`editors
      ensures Valid() && server == network && network.Valid() && Connected()
      ensures counter == 0 && strategyCache == map[] && network.id == old(network.id) + 1
      ensures siteId == old(network.id) && symbols == []
      ensures network.State() == old(network.State()).(docs := old(network.State()).docs[siteId := []])
    {
      server, symbols, counter, strategyCache := network, [], 0, map[];
      new;
      var site := network.Connect(this);
      siteId := site;
    }

    method LocalInsert(index: int, value: CharCode) returns (r: Result<Symbol>)
      requires Valid() && server.Valid() && Connected()
      modifies this`symbols, this`counter, this`strategyCache, server`queue, server`history, server`live
      ensures Valid() && server.Valid() && Connected()
      ensures r == Err(IndexOutOfBound) <==> index < 0 || index > |old(symbols)|
      ensures r == Err(InvalidOrdering) <==>
                && 0 <= index <= |old(symbols)|
                && Blocked(Before(old(symbols), index), After(old(symbols), index), siteId)
      ensures r.Err? ==>
                && symbols == old(symbols) && counter == old(counter) && strategyCache == old(strategyCache)
                && server.State() == old(server.State())
      ensures r.Ok? ==>
                && r.value == Symbol(value, r.value.position, counter, PLAIN) && counter == old(counter) + 1
                && Generated(Before(old(symbols), index), r.value.position, After(old(symbols), index), siteId)
                && Drawn(Before(old(symbols), index), r.value.position, After(old(symbols), index), siteId, 0,
                         old(strategyCache), strategyCache)
                && InsertStep(old(server.State()), server.State(), siteId, index, r.value)
    {
      if index < 0 || index > |symbols| {
        return Err(IndexOutOfBound);
      }
      r := NewSymbol(index, value);
      if r.Ok? {
        InsertAndSend(index, r.value);
      }
    }

    /** The first half, seen from the server: nothing happens yet. */
    method NewSymbol(index: nat, value: CharCode) returns (r: Result<Symbol>)
      requires Valid() && server.Valid() && Connected() && index <= |symbols|
      modifies this`counter, this`strategyCache
      ensures Valid() && server.Valid() && Connected() && server.State() == old(server.State())
      ensures r.Err? ==>
                r.error == InvalidOrdering && counter == old(counter) && strategyCache == old(strategyCache)
      ensures r.Err? <==> Blocked(Before(symbols, index), After(symbols, index), siteId)
      ensures r.Ok? ==>
                && r.value == Symbol(value, r.value.position, counter, PLAIN) && counter == old(counter) + 1
                && Generated(Before(symbols, index), r.value.position, After(symbols, index), siteId)
                && Drawn(Before(symbols, index), r.value.position, After(symbols, index), siteId, 0,
                         old(strategyCache), strategyCache)
    {
      r := MakeSymbol(index, value);
      assert server.State().docs == old(server.State().docs);
    }

    method MakeSymbol(index: nat, value: CharCode) returns (r: Result<Symbol>)
      requires Valid() && index <= |symbols|
      modifies this`counter, this`strategyCache
      ensures r.Err? ==>
                r.error == InvalidOrdering && counter == old(counter) && strategyCache == old(strategyCache)
      ensures r.Err? <==> Blocked(Before(symbols, index), After(symbols, index), siteId)
      ensures r.Ok? ==>
                && r.value == Symbol(value, r.value.position, counter, PLAIN) && counter == old(counter) + 1
                && Generated(Before(symbols, index), r.value.position, After(symbols, index), siteId)
                && Drawn(Before(symbols, index), r.value.position, After(symbols, index), siteId, 0,
                         old(strategyCache), strategyCache)
    {
      var position := GeneratePosition(index);
      if position.Err? {
        return Err(position.error);
      }
      counter := counter + 1;
      r := Ok(Symbol(value, position.value, counter, PLAIN));
    }

    /** The second half: the symbol goes into the vector and, as a message, into the queue. */
    method InsertAndSend(index: nat, s: Symbol)
      requires Valid() && server.Valid() && Connected() && index <= |symbols|
      requires WellFormed(s.position) && Between(Before(symbols, index), s.position, After(symbols, index))
      modifies this`symbols, server`queue, server`history, server`live
      ensures Valid() && server.Valid() && Connected()
      ensures InsertStep(old(server.State()), server.State(), siteId, index, s)
    {
      symbols := InsertedAt(symbols, index, s);
      server.Send(Message(siteId, s, Insert));
      server.history, server.live := server.history[s.position := s], server.live + {s.position};
      assert forall e <- server.editors :: e != siteId ==> server.editors[e] != this;
      assert server.State().docs == old(server.State().docs)[siteId := symbols];
    }

    /** A position between the neighbours at `index`. */
    method GeneratePosition(index: nat) returns (r: Result<Position>)
      requires Valid() && index <= |symbols|
      modifies this`strategyCache
      ensures r.Err? ==> r.error == InvalidOrdering && strategyCache == old(strategyCache)
      ensures r.Err? <==> Blocked(Before(symbols, index), After(symbols, index), siteId)
      ensures r.Ok? ==>
                && Generated(Before(symbols, index), r.value, After(symbols, index), siteId)
                && Drawn(Before(symbols, index), r.value, After(symbols, index), siteId, 0,
                         old(strategyCache), strategyCache)
    {
      var posBefore, posAfter: Position := [], [];
      if symbols != [] && index != 0 {
        posBefore := symbols[index - 1].position;
      }
      if symbols != [] && index < |symbols| {
        posAfter := symbols[index].position;
      }
      var newPos: Position := [];
      assert posBefore == Tail(posBefore, 0) && posAfter == Tail(posAfter, 0);
      r, strategyCache := GeneratePositionBetween(siteId, posBefore, posAfter, newPos, 0, strategyCache);
      if r.Ok? {
        assert r.value[|newPos|..] == r.value;
      }
    }

    method LocalErase(index: nat)
      requires Valid() && server.Valid() && Connected()
      requires index < |symbols|
      modifies this`symbols, server`queue, server`live
      ensures Valid() && server.Valid() && Connected()
      ensures EraseStep(old(server.State()), server.State(), siteId, index)
    {
      var s := symbols[index];
      RemoveAtKeepsSorted(symbols, index);
      symbols := RemoveAt(symbols, index);
      server.Send(Message(siteId, s, Delete));
      server.live := server.live - {s.position};
      assert forall e <- server.editors :: e != siteId ==> server.editors[e] != this;
      assert server.State().docs == old(server.State().docs)[siteId := symbols];
    }

    /** Handles a message from another editor; `ok` is false when the original throws. */
    method ProcessMessage(m: Message) returns (ok: bool)
      requires Valid() && WellFormed(m.symbol.position)
      modifies this`symbols
      ensures Valid()
      ensures ok <==> Process(old(symbols), m).Some?
      ensures symbols == if ok then Process(old(symbols), m).value else old(symbols)
    {
      if m.operation == Insert {
        var index := FindInsertIndex(m.symbol.position);
        if index.None? {
          return false;
        }
        SortedInsertKeepsSorted(symbols, m.symbol);
        symbols := InsertAt(symbols, index.value, m.symbol);
      } else {
        var index := FindIndexByPosition(m.symbol.position);
        if index >= 0 {
          WithoutPresent(symbols, index);
          RemoveAtKeepsSorted(symbols, index);
          symbols := RemoveAt(symbols, index);
        } else {
          WithoutAbsent(symbols, m.symbol.position);
        }
      }
      ok := true;
    }

    /** Binary search for a symbol; negative when it is absent. */
    method FindIndexByPosition(p: Position) returns (index: int)
      requires Valid()
      ensures index >= 0 ==> index < |symbols| && symbols[index].position == p
      ensures index < 0 ==> !Has(symbols, p)
    {
      var l, r := 0, |symbols| - 1;
      while l <= r
        invariant 0 <= l <= r + 1 <= |symbols|
        invariant l > 0 ==> Less(symbols[l - 1].position, p)
        invariant r + 1 < |symbols| ==> Less(p, symbols[r + 1].position)
      {
        var m := (l + r) / 2;
        var comp := CompareLoop(p, symbols[m].position);
        Antisymmetric(p, symbols[m].position);
        if comp == 0 {
          return m;
        } else if comp > 0 {
          l := m + 1;
        } else {
          r := m - 1;
        }
      }
      BetweenFits(symbols, l, p);
      index := -1;
    }

    /** Binary search for where to insert; none when the position is occupied (the original throws). */
    method FindInsertIndex(p: Position) returns (index: Option<nat>)
      requires Valid()
      ensures index.None? <==> Has(symbols, p)
      ensures index.Some? ==> index.value == CountLess(symbols, p)
    {
      var l, r := 0, |symbols| - 1;
      while l <= r
        invariant 0 <= l <= r + 1 <= |symbols|
        invariant l > 0 ==> Less(symbols[l - 1].position, p)
        invariant r + 1 < |symbols| ==> Less(p, symbols[r + 1].position)
      {
        var m := (l + r) / 2;
        var comp := CompareLoop(p, symbols[m].position);
        Antisymmetric(p, symbols[m].position);
        if comp < 0 {
          r := m - 1;
        } else if comp > 0 {
          l := m + 1;
        } else {
          return None;
        }
      }
      BetweenFits(symbols, l, p);
      index := Some(l);
    }
  }

  /** Insertion into the vector: sorted again, because the position fits between the neighbours. */
  method InsertedAt(d: Document, index: nat, s: Symbol) returns (d': Document)
    requires Sorted(d) && AllWellFormed(d) && index <= |d|
    requires WellFormed(s.position) && Between(Before(d, index), s.position, After(d, index))
    ensures d' == InsertAt(d, index, s) && Sorted(d') && AllWellFormed(d')
  {
    BetweenFits(d, index, s.position);
    SortedInsertKeepsSorted(d, s);
    d' := InsertAt(d, index, s);
  }

  function Before(d: Document, index: int): Position {
    if 0 < index <= |d| then d[index - 1].position else []
  }

  function After(d: Document, index: int): Position {
    if 0 <= index < |d| then d[index].position else []
  }

  /** No editor throws while it processes the messages. */
  ghost predicate Survives(s: State, messages: seq<Message>) {
    forall e <- s.docs :: Replay(s.docs[e], messages, e).Some?
  }

  /** Every editor has processed the messages. */
  ghost predicate Delivered(s: State, docs: map<int, Document>, messages: seq<Message>) {
    docs.Keys == s.docs.Keys && forall e <- s.docs :: Replay(s.docs[e], messages, e) == Some(docs[e])
  }

  /** Replaying a queue is delivering its first message and replaying the rest. */
  lemma {:induction false} ReplayByHead(s: State, docs: map<int, Document>)
    requires s.queue != []
    ensures Survives(s, s.queue) ==> Survives(s, [s.queue[0]])
    ensures Delivered(s, docs, [s.queue[0]]) ==>
              forall e <- s.docs :: Replay(s.docs[e], s.queue, e) == Replay(docs[e], s.queue[1..], e)
  {
    var m := s.queue[0];
    assert [m][1..] == [];
    forall e <- s.docs
      ensures Replay(s.docs[e], s.queue, e)
           == match Replay(s.docs[e], [m], e)
              case None => None
              case Some(d) => Replay(d, s.queue[1..], e)
    {
    }
  }

  lemma {:induction false} InvSurvives(s: State)
    requires Inv(s)
    ensures Survives(s, s.queue)
  {
    forall e <- s.docs ensures Replay(s.docs[e], s.queue, e).Some? {
      ReplayReachesLive(s.docs[e], s, s.queue, e);
    }
  }

  lemma {:induction false} DeliveredAgrees(s: State, s': State)
    requires Inv(s) && Delivered(s, s'.docs, s.queue) && s' == s.(docs := s'.docs, queue := [])
    ensures Inv(s') && forall e <- s'.docs, f <- s'.docs :: s'.docs[e] == s'.docs[f]
  {
    forall e <- s'.docs ensures EditorConsistent(s'.docs[e], [], e, s') {
      ReplayReachesLive(s.docs[e], s, s.queue, e);
    }
    forall e <- s'.docs, f <- s'.docs ensures s'.docs[e] == s'.docs[f] {
      EditorsAgree(s, e, f);
    }
  }

  class NetworkServer {
    var id: int
    var editors: map<int, SharedEditor>
    var queue: seq<Message>
    ghost var history: map<Position, Symbol>
    ghost var live: set<Position>

    ghost predicate Valid()
      reads this, editors.Values
    {
      && (forall e <- editors ::
            e < id && editors[e].siteId == e && editors[e].server == this && editors[e].Valid())
      && (forall i :: 0 <= i < |queue| ==> WellFormed(queue[i].symbol.position))
    }

    /** The protocol state that these objects implement. */
    ghost function State(): State
      reads this, editors.Values
    {
      ReferenceProtocol.State(map e <- editors :: editors[e].symbols, queue, history, live)
    }

    constructor ()
      ensures Valid() && Initial(State()) && editors == map[] && id == 0
    {
      id, editors, queue, history, live := 0, map[], [], map[], {};
    }

    method Connect(editor: SharedEditor) returns (site: int)
      modifies this`id, this`editors
      ensures site == old(id) && id == site + 1
      ensures editors == old(editors)[site := editor]
    {
      editors := editors[id := editor];
      site := id;
      id := id + 1;
    }

    method Disconnect(editor: SharedEditor)
      requires Valid()
      modifies this`editors
      ensures Valid() && editors == old(editors) - {editor.siteId}
      ensures DisconnectStep(old(State()), State(), editor.siteId)
    {
      editors := editors - {editor.siteId};
    }

    method Send(m: Message)
      modifies this`queue
      ensures queue == old(queue) + [m]
    {
      queue := queue + [m];
    }

    /** Delivers one message to every editor but its sender. */
    method Deliver(m: Message) returns (ok: bool)
      requires Valid() && WellFormed(m.symbol.position)
      modifies set e <- editors :: editors[e]
      ensures Valid()
      ensures ok <==> Survives(old(State()), [m])
      ensures ok ==> Delivered(old(State()), State().docs, [m])
    {
      var todo: set<int> := editors.Keys;
      assert [m][1..] == [];
      while todo != {}
        invariant todo <= editors.Keys && Valid()
        invariant forall e <- todo :: editors[e].symbols == old(editors[e].symbols)
        invariant forall e <- editors.Keys - todo ::
                    Replay(old(editors[e].symbols), [m], e) == Some(editors[e].symbols)
      {
        var e := AnyOf(todo);
        if e != m.editorId {
          var processed := editors[e].ProcessMessage(m);
          if !processed {
            assert Replay(old(State()).docs[e], [m], e).None?;
            return false;
          }
        }
        todo := todo - {e};
      }
      ok := true;
    }

    /** Drains the queue; `ok` is false when some editor throws on the way. */
    method DrainQueue() returns (ok: bool)
      requires Valid()
      modifies this`queue, set e <- editors :: editors[e]
      ensures Valid()
      ensures ok <==> Survives(old(State()), old(queue))
      ensures ok ==> Delivered(old(State()), State().docs, old(queue)) && queue == []
    {
      ghost var start := State();
      while queue != []
        invariant Valid() && State().docs.Keys == start.docs.Keys
        invariant forall e <- start.docs ::
                    Replay(start.docs[e], start.queue, e) == Replay(State().docs[e], queue, e)
        decreases |queue|
      {
        var m := queue[0];
        ghost var before := State();
        ok := Deliver(m);
        ReplayByHead(before, State().docs);
        if !ok {
          assert Survives(start, start.queue) ==> Survives(before, before.queue);
          return;
        }
        queue := queue[1..];
      }
      ok := true;
    }

    /** `dispatchMessages`: in every consistent state no editor throws, and afterwards all are equal. */
    method DispatchMessages() returns (ok: bool)
      requires Valid()
      modifies this`queue, set e <- editors :: editors[e]
      ensures Valid()
      ensures ok <==> Survives(old(State()), old(queue))
      ensures ok ==> Delivered(old(State()), State().docs, old(queue)) && queue == []
      ensures old(Inv(State())) ==>
                && ok && Inv(State())
                && forall e <- editors, f <- editors :: editors[e].symbols == editors[f].symbols
    {
      ghost var start := State();
      ok := DrainQueue();
      if Inv(start) {
        InvSurvives(start);
        DeliveredAgrees(start, State());
        assert forall e <- editors :: State().docs[e] == editors[e].symbols;
      }
    }
  }
}

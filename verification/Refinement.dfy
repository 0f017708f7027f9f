/** The client and server objects implement the steps of `EndToEnd`: what is proved there about runs
holds of the documents that the objects keep.
*/
module Refinement {
  import opened Wrappers
  import opened Positions
  import opened Generation
  import opened Documents
  import opened Lines
  import opened ClientDocument
  import opened ReplayAgreement
  import opened PositionKey
  import opened EndToEnd
  import opened Delivery
  import opened FileServer
  import opened Bytes
  import opened Payload
  import opened Opening
  import opened Membership
  import Races

  /** The object of client `c` holds its document. */
  ghost predicate Holds(crdt: CRDT, s: State, c: nat)
    reads crdt
  {
    c < |s.docs| && crdt.Valid() && crdt.Flat() == s.docs[c]
  }

  /** The positions of the symbols were never inserted before. */
  ghost predicate New(s: State, ss: seq<Symbol>) {
    forall i, x :: 0 <= i < |ss| && x in s.inserted ==> x.position != ss[i].position
  }

  ghost function Sent(s: State, c: nat, d: Document, m: Message): State
    requires c < |s.docs| == |s.up|
  {
    s.(docs := s.docs[c := d], up := s.up[c := s.up[c] + [m]], inserted := s.inserted + multiset(m.symbols))
  }

  /** Typing a symbol in front of another: nothing happens when no position can be generated, and
  otherwise it is an insertion step, unless the position was used before. */
  method TypeSymbol(crdt: CRDT, ghost s: State, ghost t: Symbol, ghost c: nat,
                    line: nat, index: nat, value: CharCode, format: Format)
    returns (r: Result<Symbol>, ghost s': State)
    requires Inv(s, t) && Holds(crdt, s, c) && value != TERMINATOR
    requires Place(crdt.symbols, line, index) && Offset(crdt.symbols, line, index) < |crdt.Flat()|
    modifies crdt`symbols, crdt`size, crdt`counter, crdt`strategyCache
    ensures r.Err? <==> BlockedPlace(old(crdt.symbols), line, index, crdt.siteId)
    ensures r.Err? ==> s' == s && Holds(crdt, s, c)
    ensures r.Ok? ==> TypedAs(r.value, value, crdt.counter, format)
    ensures r.Ok? && New(s, [r.value]) ==>
              && InsertStep(s, s', c, Offset(old(crdt.symbols), line, index), Message(Typed, [r.value]))
              && Holds(crdt, s', c) && Inv(s', t)
  {
    ghost var k := Offset(crdt.symbols, line, index);
    r := TypeAt(crdt, line, index, value, format);
    s' := s;
    if r.Ok? {
      s' := TakeInsertStep(s, t, c, k, Message(Typed, [r.value]));
    }
  }

  method TypeAt(crdt: CRDT, line: nat, index: nat, value: CharCode, format: Format) returns (r: Result<Symbol>)
    requires crdt.Valid() && Place(crdt.symbols, line, index)
    modifies crdt`symbols, crdt`size, crdt`counter, crdt`strategyCache
    ensures crdt.Valid()
    ensures r.Err? <==> BlockedPlace(old(crdt.symbols), line, index, crdt.siteId)
    ensures r.Err? ==> crdt.Flat() == old(crdt.Flat())
    ensures r.Ok? ==>
              && TypedAs(r.value, value, crdt.counter, format)
              && Offset(old(crdt.symbols), line, index) <= |old(crdt.Flat())|
              && crdt.Flat() == Paste(old(crdt.Flat()), Offset(old(crdt.symbols), line, index), [r.value])
  {
    PlaceIsSpot(crdt.symbols, line, index);
    r := crdt.LocalInsert(line, index, value, format);
  }

  /** The insertion step exists, unless a position was used before. */
  lemma {:induction false} TakeInsertStep(s: State, t: Symbol, c: nat, k: nat, m: Message) returns (s': State)
    requires Inv(s, t) && c < |s.docs| && k < |s.docs[c]| && m.kind != Erased && (m.kind == Typed ==> |m.symbols| == 1)
    requires Sorted(Paste(s.docs[c], k, m.symbols)) && AllWellFormed(Paste(s.docs[c], k, m.symbols))
    requires forall i :: 0 <= i < |m.symbols| ==> m.symbols[i].value != TERMINATOR
    ensures |s'.docs| == |s.docs| && s'.docs[c] == Paste(s.docs[c], k, m.symbols)
    ensures New(s, m.symbols) ==> InsertStep(s, s', c, k, m) && Inv(s', t)
  {
    s' := Sent(s, c, Paste(s.docs[c], k, m.symbols), m);
    if New(s, m.symbols) {
      InsertKeepsInv(s, s', c, k, m, t);
    }
  }

  /** Pasting a text: an insertion step of the whole text, or nothing happens. */
  method PasteText(crdt: CRDT, ghost s: State, ghost t: Symbol, ghost c: nat,
                   line: nat, index: nat, text: seq<CharCode>, format: Format)
    returns (r: Result<seq<Symbol>>, ghost s': State)
    requires Inv(s, t) && Holds(crdt, s, c) && forall i :: 0 <= i < |text| ==> text[i] != TERMINATOR
    requires Place(crdt.symbols, line, index) && Offset(crdt.symbols, line, index) < |crdt.Flat()|
    modifies crdt`symbols, crdt`size, crdt`counter, crdt`strategyCache
    ensures r.Err? <==> text != [] && BlockedPlace(old(crdt.symbols), line, index, crdt.siteId)
    ensures r.Err? ==> s' == s && Holds(crdt, s, c)
    ensures r.Ok? ==> |r.value| == |text| && AllTypedAs(r.value, text, old(crdt.counter), format)
    ensures r.Ok? && New(s, r.value) ==>
              && InsertStep(s, s', c, Offset(old(crdt.symbols), line, index), Message(PastedText, r.value))
              && Holds(crdt, s', c) && Inv(s', t)
  {
    ghost var k := Offset(crdt.symbols, line, index);
    r := PasteAt(crdt, line, index, text, format);
    s' := s;
    if r.Ok? {
      s' := TakeInsertStep(s, t, c, k, Message(PastedText, r.value));
    }
  }

  method PasteAt(crdt: CRDT, line: nat, index: nat, text: seq<CharCode>, format: Format) returns (r: Result<seq<Symbol>>)
    requires crdt.Valid() && Place(crdt.symbols, line, index)
    modifies crdt`symbols, crdt`size, crdt`counter, crdt`strategyCache
    ensures crdt.Valid()
    ensures r.Err? <==> text != [] && BlockedPlace(old(crdt.symbols), line, index, crdt.siteId)
    ensures r.Err? ==> crdt.Flat() == old(crdt.Flat())
    ensures r.Ok? ==>
              && |r.value| == |text| && AllTypedAs(r.value, text, old(crdt.counter), format)
              && Offset(old(crdt.symbols), line, index) <= |old(crdt.Flat())|
              && crdt.Flat() == Paste(old(crdt.Flat()), Offset(old(crdt.symbols), line, index), r.value)
  {
    var line', index';
    line', index', r := crdt.LocalInsertGroup(line, index, text, format);
  }

  /** Erasing a range that nobody else erased. */
  method EraseRange(crdt: CRDT, ghost s: State, ghost t: Symbol, ghost c: nat, line: nat, index: nat, length: nat)
    returns (erased: seq<Symbol>, ghost s': State)
    requires Inv(s, t) && Holds(crdt, s, c) && Place(crdt.symbols, line, index)
    requires Offset(crdt.symbols, line, index) + length < |crdt.Flat()|
    requires forall i :: Offset(crdt.symbols, line, index) <= i < Offset(crdt.symbols, line, index) + length ==>
                           crdt.Flat()[i] !in s.erased
    modifies crdt`symbols, crdt`size
    ensures EraseStep(s, s', c, Offset(old(crdt.symbols), line, index), length)
    ensures s'.up[c] == s.up[c] + [Message(Erased, erased)]
    ensures Holds(crdt, s', c) && Inv(s', t)
  {
    ghost var d, k := crdt.Flat(), Offset(crdt.symbols, line, index);
    erased := crdt.LocalErase(line, index, length);
    s' := s.(docs := s.docs[c := Cut(d, k, length)],
             up := s.up[c := s.up[c] + [Message(Erased, Slice(d, k, length))]],
             erased := s.erased + multiset(Slice(d, k, length)));
    EraseKeepsInv(s, s', c, k, length, t);
  }

  /** A client handles a relayed message. */
  method HandleMessage(crdt: CRDT, ghost s: State, ghost t: Symbol, ghost c: nat, m: Message) returns (ghost s': State)
    requires Inv(s, t) && AllSingle(s) && Holds(crdt, s, c) && s.down[c] != [] && m == s.down[c][0]
    modifies crdt`symbols, crdt`size
    ensures ClientStep(s, s', c) && Holds(crdt, s', c) && Inv(s', t) && AllSingle(s')
  {
    SingleRest(s.down[c]);
    ClientAccepts(s, t, c);
    s' := s.(docs := s.docs[c := Receive(s.docs[c], m)], down := s.down[c := s.down[c][1..]]);
    ClientKeepsInv(s, s', c, t);
    ClientKeepsSingle(s, s', c);
    match m.kind {
      case Typed => HandleTyped(crdt, m.symbols[0], m.symbols);
      case PastedText => var line, index, text := crdt.HandleRemotePaste(m.symbols);
      case Erased => var line, index := HandleErasable(crdt, m.symbols);
    }
  }

  method HandleTyped(crdt: CRDT, x: Symbol, ghost ss: seq<Symbol>)
    requires crdt.Valid() && Insertable(crdt.Flat(), ss) && ss == [x]
    modifies crdt`symbols, crdt`size
    ensures crdt.Valid() && crdt.Flat() == InsertAll(old(crdt.Flat()), ss)
  {
    InsertableStep(crdt.Flat(), ss);
    assert ss[..0] == [];
    var shown := crdt.HandleRemoteInsert(x);
  }

  /** The server handles a client's message: its map takes the step, and everybody else who has the
  file open is sent the message. */
  method ServeMessage(server: Server, sender: ServerWorker, ghost s: State, ghost t: Symbol, ghost c: nat, m: Message)
    returns (relayed: seq<ServerWorker>, ghost s': State)
    requires server.Valid() && sender.filename in server.symbolsList
    requires Inv(s, t) && AllSingle(s) && c < |s.up| && s.up[c] != [] && m == s.up[c][0]
    requires server.symbolsList[sender.filename] == s.server
    modifies server`symbolsList, server`changed
    ensures server.Valid() && (old(server.Coherent()) ==> server.Coherent())
    ensures ServerStep(s, s', c) && Inv(s', t) && AllSingle(s') && (Seated(s, t) ==> Seated(s', t))
    ensures server.symbolsList == old(server.symbolsList)[sender.filename := s'.server]
    ensures forall w <- relayed :: w != sender
    ensures server.changed == old(server.changed)[sender.filename := true]
    ensures forall w :: w in server.mapFileWorkers[sender.filename] && w != sender ==> w in relayed
  {
    s' := TakeServerStep(s, t, c);
    relayed := ServeOthers(server, sender, m);
  }

  method ServeOthers(server: Server, sender: ServerWorker, m: Message) returns (relayed: seq<ServerWorker>)
    requires server.Valid() && sender.filename in server.symbolsList && (m.kind == Typed ==> |m.symbols| == 1)
    modifies server`symbolsList, server`changed
    ensures server.Valid() && (old(server.Coherent()) ==> server.Coherent())
    ensures server.symbolsList
         == old(server.symbolsList)[sender.filename := ApplyAll(old(server.symbolsList)[sender.filename], Edits(m))]
    ensures server.changed == old(server.changed)[sender.filename := true]
    ensures forall w <- relayed :: w != sender
    ensures forall w :: w in server.mapFileWorkers[sender.filename] && w != sender ==> w in relayed
  {
    OthersMembers(server.mapFileWorkers[sender.filename], sender);
    relayed := ServeEdit(server, sender, m);
  }

  /** The server's step exists, and keeps everything. */
  lemma {:induction false} TakeServerStep(s: State, t: Symbol, c: nat) returns (s': State)
    requires Inv(s, t) && AllSingle(s) && c < |s.up| && s.up[c] != []
    ensures ServerStep(s, s', c) && Inv(s', t) && AllSingle(s') && (Seated(s, t) ==> Seated(s', t))
    ensures s'.server == ApplyAll(s.server, Edits(s.up[c][0]))
    ensures s.up[c][0].kind == Typed ==> |s.up[c][0].symbols| == 1
  {
    var m := s.up[c][0];
    s' := s.(server := ApplyAll(s.server, Edits(m)),
             up := s.up[c := s.up[c][1..]],
             down := seq(|s.down|, i requires 0 <= i < |s.down| => if i == c then s.down[i] else s.down[i] + [m]));
    ServerKeepsInv(s, s', c, t);
    ServerKeepsSingle(s, s', c);
    SingleRest(s.up[c]);
    if Seated(s, t) {
      ServerKeepsTerminator(s, s', c, t);
    }
  }

  /** The server's half: a typed symbol comes alone, everything else in bulk. */
  method ServeEdit(server: Server, sender: ServerWorker, m: Message) returns (relayed: seq<ServerWorker>)
    requires server.Valid() && sender.filename in server.symbolsList && (m.kind == Typed ==> |m.symbols| == 1)
    modifies server`symbolsList, server`changed
    ensures server.Valid() && (old(server.Coherent()) ==> server.Coherent())
    ensures server.symbolsList
         == old(server.symbolsList)[sender.filename := ApplyAll(old(server.symbolsList)[sender.filename], Edits(m))]
    ensures server.changed == old(server.changed)[sender.filename := true]
    ensures relayed == Others(server.mapFileWorkers[sender.filename], sender)
  {
    if m.kind == Typed {
      TypedEdit(server.symbolsList[sender.filename], m);
      relayed := server.SingleOperation(sender, Some(m.symbols[0]));
    } else {
      relayed := server.BulkOperation(sender, m);
    }
  }

  lemma {:induction false} TypedEdit(server: SymbolMap, m: Message)
    requires m.kind == Typed && |m.symbols| == 1
    ensures ApplyAll(server, Edits(m)) == Apply(server, Put(m.symbols[0]))
  {
    assert Edits(m)[..0] == [];
  }

  // ----- Formats -----

  /** Storing a symbol in the place of another keeps the server's map a listing of the document. */
  lemma {:induction false} ReplaceListed(m: SymbolMap, d: Document, s: Symbol)
    requires Keyed(m) && ListsServer(d, m) && Has(d, s.position)
    ensures Keyed(Apply(m, Put(s))) && ListsServer(Replace(d, s), Apply(m, Put(s)))
  {
    var r, m' := Replace(d, s), Apply(m, Put(s));
    ReplacedAt(d, s);
    ApplyKeepsKeyed(m, Put(s));
    SortedDistinct(r);
    forall x ensures multiset(r)[x] == Contents(m')[x] {
      Races.StoredMember(m, s, x);
      ReplacedMember(d, s, x);
      assert x in multiset(d) <==> x in Contents(m);
      ContentsMember(m', x);
      DistinctCount(r, x);
    }
  }

  lemma {:induction false} ReplacedAt(d: Document, s: Symbol)
    requires Sorted(d) && Has(d, s.position)
    ensures Sorted(Replace(d, s)) && SamePositions(d, Replace(d, s)) && s in Replace(d, s)
  {
    var k :| 0 <= k < |d| && d[k].position == s.position;
    OwnCount(d, k);
    assert Replace(d, s)[k] == s;
  }

  lemma {:induction false} ReplacedMember(d: Document, s: Symbol, x: Symbol)
    requires Sorted(d) && Has(d, s.position)
    ensures x in Replace(d, s) <==> x == s || (x in d && x.position != s.position)
  {
    var k :| 0 <= k < |d| && d[k].position == s.position;
    OwnCount(d, k);
    var r := Replace(d, s);
    assert r == d[k := s] && r[k] == s;
    forall i | 0 <= i < |d| && i != k ensures r[i] == d[i] && d[i].position != s.position {
      Antisymmetric(d[i].position, d[k].position);
    }
  }

  /** The same for all symbols of a change, which are stored like a pasted text. */
  lemma {:induction false} ReplaceAllListed(m: SymbolMap, d: Document, ss: seq<Symbol>)
    requires Keyed(m) && ListsServer(d, m) && AllStored(d, ss)
    ensures var m' := ApplyAll(m, EditsOf(PastedText, ss));
            Keyed(m') && ListsServer(ReplaceAll(d, ss), m') && SamePositions(d, ReplaceAll(d, ss))
    decreases |ss|
  {
    if ss == [] {
      assert EditsOf(PastedText, ss) == [];
    } else {
      var n := |ss| - 1;
      var e, r := ReplaceAll(d, ss[..n]), ApplyAll(m, EditsOf(PastedText, ss[..n]));
      ReplaceAllListed(m, d, ss[..n]);
      assert ss[..n + 1] == ss;
      ApplyOne(m, PastedText, ss, n);
      assert Stored(d, ss[n]);
      var k :| StoredAt(d, k, ss[n]);
      assert e[k].position == ss[n].position;
      ReplaceListed(r, e, ss[n]);
      ReplacedAt(e, ss[n]);
    }
  }

  /** A client aligns a line and the server stores the message: it still lists the client's document. */
  method AlignAndStore(crdt: CRDT, server: Server, sender: ServerWorker, line: nat, a: Alignment)
    returns (s: Symbol, relayed: seq<ServerWorker>)
    requires crdt.Valid() && server.Valid() && sender.filename in server.symbolsList
    requires line < |crdt.symbols| && crdt.symbols[line] != []
    requires ListsServer(crdt.Flat(), server.symbolsList[sender.filename])
    modifies crdt`symbols, server`symbolsList, server`changed
    ensures crdt.Valid() && crdt.Flat() == AlignAt(old(crdt.Flat()), LastPosition(old(crdt.symbols), line), a)
    ensures server.Valid() && (old(server.Coherent()) ==> server.Coherent())
    ensures sender.filename in server.symbolsList && ListsServer(crdt.Flat(), server.symbolsList[sender.filename])
  {
    s := AlignReplaces(crdt, line, a);
    relayed := StoreSymbol(server, sender, s, old(crdt.Flat()));
  }

  /** The client's half: the symbol that is sent goes in the place of the one it came from. */
  method AlignReplaces(crdt: CRDT, line: nat, a: Alignment) returns (s: Symbol)
    requires crdt.Valid() && line < |crdt.symbols| && crdt.symbols[line] != []
    modifies crdt`symbols
    ensures crdt.Valid() && crdt.Flat() == AlignAt(old(crdt.Flat()), LastPosition(old(crdt.symbols), line), a)
    ensures Has(old(crdt.Flat()), s.position) && crdt.Flat() == Replace(old(crdt.Flat()), s)
  {
    ghost var d := crdt.Flat();
    s := crdt.LocalChangeAlignment(line, a);
    ghost var k :| 0 <= k < |d| && d[k].position == s.position && crdt.Flat() == d[k := s];
    OwnCount(d, k);
  }

  /** The server's half. */
  method StoreSymbol(server: Server, sender: ServerWorker, s: Symbol, ghost d: Document)
    returns (relayed: seq<ServerWorker>)
    requires server.Valid() && sender.filename in server.symbolsList
    requires ListsServer(d, server.symbolsList[sender.filename]) && Has(d, s.position)
    modifies server`symbolsList, server`changed
    ensures server.Valid() && (old(server.Coherent()) ==> server.Coherent())
    ensures sender.filename in server.symbolsList && ListsServer(Replace(d, s), server.symbolsList[sender.filename])
    ensures relayed == Others(server.mapFileWorkers[sender.filename], sender)
  {
    ReplaceListed(server.symbolsList[sender.filename], d, s);
    relayed := server.SingleOperation(sender, Some(s));
  }

  /** A client restyles a range and the server stores the message: it still lists the client's document. */
  method RestyleAndStore(crdt: CRDT, server: Server, sender: ServerWorker,
                         startLine: nat, endLine: nat, startIndex: nat, endIndex: nat, style: Style)
    returns (changed: seq<Symbol>, relayed: seq<ServerWorker>)
    requires crdt.Valid() && server.Valid() && sender.filename in server.symbolsList
    requires Changeable(crdt.symbols, startLine, endLine, startIndex, endIndex)
    requires ListsServer(crdt.Flat(), server.symbolsList[sender.filename])
    modifies crdt`symbols, server`symbolsList, server`changed
    ensures crdt.Valid()
    ensures ChangedBetween(old(crdt.symbols), startLine, endLine, startIndex, endIndex, style, crdt.Flat(), changed)
    ensures server.Valid() && (old(server.Coherent()) ==> server.Coherent())
    ensures sender.filename in server.symbolsList && ListsServer(crdt.Flat(), server.symbolsList[sender.filename])
  {
    changed := RestyleReplaces(crdt, startLine, endLine, startIndex, endIndex, style);
    relayed := StoreSymbols(server, sender, changed, old(crdt.Flat()));
  }

  method RestyleReplaces(crdt: CRDT, startLine: nat, endLine: nat, startIndex: nat, endIndex: nat, style: Style)
    returns (changed: seq<Symbol>)
    requires crdt.Valid() && Changeable(crdt.symbols, startLine, endLine, startIndex, endIndex)
    modifies crdt`symbols
    ensures crdt.Valid()
    ensures ChangedBetween(old(crdt.symbols), startLine, endLine, startIndex, endIndex, style, crdt.Flat(), changed)
    ensures AllStored(old(crdt.Flat()), changed) && crdt.Flat() == ReplaceAll(old(crdt.Flat()), changed)
    ensures OnlyStyled(old(crdt.Flat()), style, crdt.Flat())
  {
    ghost var lines := crdt.symbols;
    var r := crdt.LocalChangeGroup(startLine, endLine, startIndex, endIndex, style);
    changed := r.value;
    ChangeBroadcast(lines, startLine, endLine, startIndex, endIndex, style, crdt.Flat(), changed);
  }

  method StoreSymbols(server: Server, sender: ServerWorker, ss: seq<Symbol>, ghost d: Document)
    returns (relayed: seq<ServerWorker>)
    requires server.Valid() && sender.filename in server.symbolsList
    requires ListsServer(d, server.symbolsList[sender.filename]) && AllStored(d, ss)
    modifies server`symbolsList, server`changed
    ensures server.Valid() && (old(server.Coherent()) ==> server.Coherent())
    ensures sender.filename in server.symbolsList && ListsServer(ReplaceAll(d, ss), server.symbolsList[sender.filename])
    ensures relayed == Others(server.mapFileWorkers[sender.filename], sender)
  {
    ReplaceAllListed(server.symbolsList[sender.filename], d, ss);
    relayed := server.BulkOperation(sender, Message(PastedText, ss));
  }

  /** What the server lists has its terminator at the end, in whatever order it comes. */
  lemma {:induction false} ListedTerminator(s: State, t: Symbol, vec: seq<Symbol>)
    requires Inv(s, t) && Seated(s, t) && Lists(vec, s.server)
    ensures Distinct(vec) && TerminatorLargest(vec) && vec != []
    ensures forall i :: 0 <= i < |vec| ==> WellFormed(vec[i].position)
  {
    ListedOnce(vec, s.server);
    forall i | 0 <= i < |vec|
      ensures WellFormed(vec[i].position)
      ensures vec[i] == t || (Less(vec[i].position, t.position) && vec[i].value != TERMINATOR)
    {
      assert vec[i] in multiset(vec);
      ServerHolds(s, t, vec[i]);
    }
    assert t in multiset(vec);
  }

  /** A newcomer loads what the server sends, and has the document that every settled client has. */
  lemma {:induction false} LoadsAgreed(run: seq<State>, d: Document, n: nat, vec: seq<Symbol>, c: nat)
    requires IsRun(run, d) && n < |run| && Lists(vec, run[n].server)
    requires c < |run[n].docs| && Settled(run[n], c)
    ensures Load(vec) == run[n].docs[c]
  {
    RunKeepsInv(run, d, n);
    ListedTerminator(run[n], d[|d| - 1], vec);
    Agreement(run, d, n, c);
    OpensServerList(vec, run[n].server, run[n].docs[c]);
  }

  /** A user opens the file while others edit it, and the client loads the answer: the step of a newcomer.
  Where a newline comes before everything larger, loading is not defined, and nothing is promised. */
  method OpenDocument(server: Server, filename: string, sender: ServerWorker,
                      write: Header -> bytes, describe: bytes -> Header,
                      crdt: CRDT, ghost s: State, ghost t: Symbol)
    returns (r: Opened, ghost s': State)
    requires server.Valid() && sender.filename == "" && filename != "" && filename in server.symbolsList
    requires Answerable(server.symbolsList, server.store, filename,
                        |OtherUsers(Present(server.mapFileWorkers, filename, sender), sender.username)|, write, describe)
    requires forall u <- server.images :: |server.images[u]| + 4 < ARRAY_LIMIT
    requires Inv(s, t) && Seated(s, t) && server.symbolsList[filename] == s.server
    requires crdt.Valid() && crdt.Flat() == []
    modifies server`mapFileWorkers, server`symbolsList, server`changed, sender, crdt`symbols, crdt`size
    ensures server.Valid() && sender.filename == filename
    ensures FileEntered(filename, sender, old(server.mapFileWorkers), old(server.symbolsList), old(server.changed),
                        server.store, server.mapFileWorkers, server.symbolsList, server.changed)
    ensures r.Shown? && Lists(r.symbols, s.server)
    ensures NewlinesAfterLarger(r.symbols) ==>
              JoinStep(s, s', crdt.Flat()) && Holds(crdt, s', |s.docs|) && Inv(s', t)
  {
    r := ReceiveAnswer(server, filename, sender, write, describe, t);
    s' := LoadAnswer(crdt, r.symbols, s, t);
  }

  method ReceiveAnswer(server: Server, filename: string, sender: ServerWorker,
                       write: Header -> bytes, describe: bytes -> Header, ghost t: Symbol)
    returns (r: Opened)
    requires server.Valid() && sender.filename == "" && filename != "" && filename in server.symbolsList
    requires Answerable(server.symbolsList, server.store, filename,
                        |OtherUsers(Present(server.mapFileWorkers, filename, sender), sender.username)|, write, describe)
    requires forall u <- server.images :: |server.images[u]| + 4 < ARRAY_LIMIT
    requires t in Contents(server.symbolsList[filename])
    modifies server`mapFileWorkers, server`symbolsList, server`changed, sender
    ensures server.Valid() && sender.filename == filename
    ensures FileEntered(filename, sender, old(server.mapFileWorkers), old(server.symbolsList), old(server.changed),
                        server.store, server.mapFileWorkers, server.symbolsList, server.changed)
    ensures r.Shown? && Lists(r.symbols, server.symbolsList[filename])
  {
    ghost var symbols, store, images := server.symbolsList, server.store, server.images;
    var users;
    r, users := Join(server, filename, sender, write, describe);
    ShownWhenNotEmpty(symbols, store, images, filename, users, r, t);
  }

  lemma {:induction false} ShownWhenNotEmpty(symbols: map<string, SymbolMap>, store: map<string, seq<Symbol>>,
                                             images: map<string, bytes>, filename: string, users: seq<string>,
                                             r: Opened, t: Symbol)
    requires Seen(symbols, store, images, filename, users, r)
    requires filename in symbols && t in Contents(symbols[filename])
    ensures r.Shown? && Lists(r.symbols, symbols[filename])
  {
    assert t !in multiset([]);
  }

  /** The client's half. */
  method LoadAnswer(crdt: CRDT, vec: seq<Symbol>, ghost s: State, ghost t: Symbol) returns (ghost s': State)
    requires Inv(s, t) && Seated(s, t) && Lists(vec, s.server) && crdt.Valid() && crdt.Flat() == []
    modifies crdt`symbols, crdt`size
    ensures NewlinesAfterLarger(vec) ==> JoinStep(s, s', crdt.Flat()) && Holds(crdt, s', |s.docs|) && Inv(s', t)
  {
    s' := s;
    ListedTerminator(s, t, vec);
    if NewlinesAfterLarger(vec) {
      LoadFile(crdt, vec);
      s' := TakeJoinStep(s, t, vec);
    }
  }

  /** The newcomer's step exists. */
  lemma {:induction false} TakeJoinStep(s: State, t: Symbol, vec: seq<Symbol>) returns (s': State)
    requires Inv(s, t) && Seated(s, t) && Lists(vec, s.server)
    ensures JoinStep(s, s', Load(vec)) && Inv(s', t) && |s'.docs| == |s.docs| + 1 && s'.docs[|s.docs|] == Load(vec)
  {
    ListedTerminator(s, t, vec);
    LoadContents(vec);
    s' := s.(docs := s.docs + [Load(vec)], up := s.up + [[]], down := s.down + [[]]);
    JoinKeepsInv(s, s', Load(vec), t);
  }

  /** End-to-end agreement of the objects: once everything is delivered, they have the same lines and size. */
  lemma {:induction false} ObjectsAgree(run: seq<State>, d: Document, n: nat, a: CRDT, c: nat, b: CRDT, e: nat)
    requires IsRun(run, d) && n < |run| && Settled(run[n], c) && Settled(run[n], e)
    requires Holds(a, run[n], c) && Holds(b, run[n], e)
    ensures a.symbols == b.symbols && a.size == b.size
  {
    ClientsAgree(run, d, n, c, e);
    SameFlatSameReplica(a.symbols, a.size, b.symbols, b.size);
  }
}

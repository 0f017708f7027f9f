/** Opening a file that others edit: the server's answer, and loading it into the client's document
(Server/server.cpp:946-1035, Client/client.cpp:371-480).

The symbols come in the order of the server's map, which is not the order of the document. The client
inserts them from the last to the first, and aligns a line after each newline and terminator.
*/
module Opening {
  import opened Wrappers
  import opened Bytes
  import opened Positions
  import opened Generation
  import opened Documents
  import opened Lines
  import opened ClientDocument
  import opened PositionKey
  import opened EndToEnd
  import opened FileServer
  import opened SymbolCodec
  import opened Payload

  // ----- Loading -----

  function LoadOne(d: Document, s: Symbol): Document {
    var r := SortedInsert(d, s);
    if EndsLine(s) then AlignAt(r, s.position, s.format.align) else r
  }

  /** Symbol by symbol: each is inserted where the order puts it, and one that ends a line aligns it. */
  lemma {:induction false} LoadMore(s: Symbol, vec: seq<Symbol>)
    ensures Load([]) == []
    ensures Load([s] + vec)
         == if s.value == TERMINATOR || s.value == NEWLINE then
              AlignAt(SortedInsert(Load(vec), s), s.position, s.format.align)
            else SortedInsert(Load(vec), s)
  {
    assert ([s] + vec)[1..] == vec;
  }

  /** The document after loading, last symbol first. */
  function Load(vec: seq<Symbol>): Document {
    if vec == [] then [] else LoadOne(Load(vec[1..]), vec[0])
  }

  /** What looking a symbol up needs: it reads the last line's last symbol unless `p` comes first. */
  predicate Alignable(d: Document, p: Position) {
    d == [] || Terminated(d) || Less(p, d[0].position)
  }

  /** Every step of loading finds the symbols that it looks at. */
  ghost predicate Defined(vec: seq<Symbol>) {
    forall i :: 0 <= i < |vec| ==> StepDefined(Load(vec[i + 1..]), vec[i])
  }

  predicate StepDefined(d: Document, s: Symbol) {
    && Searchable(d, s.position)
    && (EndsLine(s) ==> Alignable(SortedInsert(d, s), s.position))
  }

  /** Every newline comes when some larger symbol is already there. */
  predicate NewlinesAfterLarger(vec: seq<Symbol>) {
    forall i :: 0 <= i < |vec| && vec[i].value == NEWLINE ==> LargerBehind(vec, i)
  }

  predicate LargerBehind(vec: seq<Symbol>, i: nat)
    requires i < |vec|
  {
    exists j :: i < j < |vec| && Less(vec[i].position, vec[j].position)
  }

  predicate Carries(d: Document, p: Position, v: CharCode) {
    exists k :: 0 <= k < |d| && d[k].position == p && d[k].value == v
  }

  predicate SameSymbols(d: Document, vec: seq<Symbol>) {
    && (forall i :: 0 <= i < |vec| ==> Carries(d, vec[i].position, vec[i].value))
    && (forall k :: 0 <= k < |d| ==> Carries(vec, d[k].position, d[k].value))
  }

  lemma {:induction false} AlignKeepsShape(d: Document, p: Position, a: Alignment)
    ensures SamePositions(d, AlignAt(d, p, a))
    ensures forall k :: 0 <= k < |d| ==> AlignAt(d, p, a)[k].value == d[k].value
    ensures Sorted(d) ==> Sorted(AlignAt(d, p, a))
  {
  }

  lemma {:induction false} InsertedSymbols(d: Document, s: Symbol, vec: seq<Symbol>)
    requires SameSymbols(d, vec)
    ensures SameSymbols(SortedInsert(d, s), [s] + vec)
  {
    var k, r, all := CountLess(d, s.position), SortedInsert(d, s), [s] + vec;
    forall i | 0 <= i < |all| ensures Carries(r, all[i].position, all[i].value) {
      if i == 0 {
        assert r[k] == s;
      } else {
        assert all[i] == vec[i - 1];
        var j :| 0 <= j < |d| && d[j].position == vec[i - 1].position && d[j].value == vec[i - 1].value;
        assert r[if j < k then j else j + 1] == d[j];
      }
    }
    forall i | 0 <= i < |r| ensures Carries(all, r[i].position, r[i].value) {
      if i == k {
        assert all[0] == s;
      } else {
        var j := if i < k then i else i - 1;
        assert r[i] == d[j];
        var h :| 0 <= h < |vec| && vec[h].position == d[j].position && vec[h].value == d[j].value;
        assert all[h + 1] == vec[h];
      }
    }
  }

  lemma {:induction false} AlignedSymbols(d: Document, p: Position, a: Alignment, vec: seq<Symbol>)
    requires SameSymbols(d, vec)
    ensures SameSymbols(AlignAt(d, p, a), vec)
  {
    AlignKeepsShape(d, p, a);
    var r := AlignAt(d, p, a);
    forall i | 0 <= i < |vec| ensures Carries(r, vec[i].position, vec[i].value) {
      var j :| 0 <= j < |d| && d[j].position == vec[i].position && d[j].value == vec[i].value;
      assert r[j].position == d[j].position;
    }
  }

  /** Loading in any order gives a sorted document of the same characters. */
  lemma {:induction false} LoadSorted(vec: seq<Symbol>)
    requires Distinct(vec)
    ensures Sorted(Load(vec)) && SameSymbols(Load(vec), vec)
  {
    if vec != [] {
      var d, s := Load(vec[1..]), vec[0];
      LoadSorted(vec[1..]);
      NewHere(d, vec);
      SortedInsertKeepsSorted(d, s);
      InsertedSymbols(d, s, vec[1..]);
      assert [s] + vec[1..] == vec;
      AlignKeepsShape(SortedInsert(d, s), s.position, s.format.align);
      AlignedSymbols(SortedInsert(d, s), s.position, s.format.align, vec);
    }
  }

  lemma {:induction false} NewHere(d: Document, vec: seq<Symbol>)
    requires vec != [] && Distinct(vec) && SameSymbols(d, vec[1..])
    ensures !Has(d, vec[0].position)
  {
    forall k | 0 <= k < |d| ensures d[k].position != vec[0].position {
      assert Carries(vec[1..], d[k].position, d[k].value);
    }
  }

  lemma {:induction false} LastIsLargest(d: Document, p: Position)
    requires Sorted(d) && Has(d, p)
    ensures !Less(d[|d| - 1].position, p)
  {
    var k :| 0 <= k < |d| && d[k].position == p;
    Antisymmetric(p, p);
    Antisymmetric(p, d[|d| - 1].position);
  }

  /** With the newlines after something larger, the largest symbol is no newline. */
  lemma {:induction false} LargestIsNoNewline(d: Document, vec: seq<Symbol>)
    requires Sorted(d) && SameSymbols(d, vec) && NewlinesAfterLarger(vec) && vec != []
    ensures Terminated(d)
  {
    assert Carries(d, vec[0].position, vec[0].value);
    var last := d[|d| - 1];
    assert Carries(vec, last.position, last.value);
    var i :| 0 <= i < |vec| && vec[i].position == last.position && vec[i].value == last.value;
    forall j | i < j < |vec| ensures !Less(last.position, vec[j].position) {
      assert Carries(d, vec[j].position, vec[j].value);
      LastIsLargest(d, vec[j].position);
    }
    assert !LargerBehind(vec, i);
  }

  lemma {:induction false} LoadTerminated(vec: seq<Symbol>)
    requires Distinct(vec) && NewlinesAfterLarger(vec) && vec != []
    ensures Terminated(Load(vec))
  {
    LoadSorted(vec);
    LargestIsNoNewline(Load(vec), vec);
  }

  lemma {:induction false} BehindSuffix(vec: seq<Symbol>, i: nat)
    requires i <= |vec|
    ensures Distinct(vec) ==> Distinct(vec[i..])
    ensures NewlinesAfterLarger(vec) ==> NewlinesAfterLarger(vec[i..])
  {
    if NewlinesAfterLarger(vec) {
      forall k | 0 <= k < |vec| - i && vec[i..][k].value == NEWLINE ensures LargerBehind(vec[i..], k) {
        assert vec[i..][k] == vec[i + k] && LargerBehind(vec, i + k);
        var j :| i + k < j < |vec| && Less(vec[i + k].position, vec[j].position);
        assert vec[i..][j - i] == vec[j];
      }
    }
  }

  /** Inserting a newline as the largest symbol leaves the last line empty, and its own alignment
  looks there. */
  lemma {:induction false} NewlineNeedsLarger(d: Document, s: Symbol)
    requires Sorted(d) && !Has(d, s.position) && s.value == NEWLINE && StepDefined(d, s)
    ensures d != [] && Less(s.position, d[|d| - 1].position)
  {
    var r, k := SortedInsert(d, s), CountLess(d, s.position);
    SortedInsertKeepsSorted(d, s);
    assert r[k] == s && |r| == |d| + 1;
    Antisymmetric(s.position, s.position);
    Antisymmetric(r[0].position, s.position);
    assert k < |r| - 1;
    assert r[|r| - 1] == d[|d| - 1];
  }

  lemma {:induction false} NewlineBehind(vec: seq<Symbol>)
    requires vec != [] && Distinct(vec) && vec[0].value == NEWLINE && StepDefined(Load(vec[1..]), vec[0])
    ensures LargerBehind(vec, 0)
  {
    var d := Load(vec[1..]);
    BehindSuffix(vec, 1);
    LoadSorted(vec[1..]);
    NewHere(d, vec);
    NewlineNeedsLarger(d, vec[0]);
    var last := d[|d| - 1];
    assert Carries(vec[1..], last.position, last.value);
    var j :| 0 <= j < |vec[1..]| && vec[1..][j].position == last.position;
    assert vec[j + 1].position == last.position;
  }

  /** When loading is defined: exactly when every newline comes after some larger symbol. */
  lemma {:induction false} LoadingDefined(vec: seq<Symbol>)
    requires Distinct(vec)
    ensures Defined(vec) <==> NewlinesAfterLarger(vec)
  {
    if NewlinesAfterLarger(vec) {
      forall i | 0 <= i < |vec| ensures StepDefined(Load(vec[i + 1..]), vec[i]) {
        StepIsDefined(vec, i);
      }
    }
    if Defined(vec) {
      forall i | 0 <= i < |vec| && vec[i].value == NEWLINE ensures LargerBehind(vec, i) {
        BehindSuffix(vec, i);
        assert vec[i..][1..] == vec[i + 1..];
        NewlineBehind(vec[i..]);
        var j :| 0 < j < |vec[i..]| && Less(vec[i..][0].position, vec[i..][j].position);
        assert vec[i..][j] == vec[i + j];
      }
    }
  }

  lemma {:induction false} StepIsDefined(vec: seq<Symbol>, i: nat)
    requires Distinct(vec) && NewlinesAfterLarger(vec) && i < |vec|
    ensures StepDefined(Load(vec[i + 1..]), vec[i])
  {
    BehindSuffix(vec, i);
    BehindSuffix(vec, i + 1);
    assert vec[i..][1..] == vec[i + 1..] && vec[i..][0] == vec[i];
    if i + 1 < |vec| {
      LoadTerminated(vec[i + 1..]);
    }
    LoadTerminated(vec[i..]);
    AlignKeepsShape(SortedInsert(Load(vec[i + 1..]), vec[i]), vec[i].position, vec[i].format.align);
  }

  method LoadSymbol(crdt: CRDT, s: Symbol)
    requires crdt.Valid() && StepDefined(crdt.Flat(), s)
    requires WellFormed(s.position) && !Has(crdt.Flat(), s.position)
    modifies crdt`symbols, crdt`size
    ensures crdt.Valid() && crdt.Flat() == LoadOne(old(crdt.Flat()), s)
  {
    ghost var d := crdt.Flat();
    var shown := crdt.HandleRemoteInsert(s);
    if EndsLine(s) {
      assert crdt.Flat()[CountLess(d, s.position)] == s;
      var aligned := crdt.HandleRemoteAlignChange(s);
    }
  }

  /** The client's loop over the symbols of an opened file. */
  method LoadFile(crdt: CRDT, vec: seq<Symbol>)
    requires crdt.Valid() && crdt.Flat() == []
    requires Distinct(vec) && (forall i :: 0 <= i < |vec| ==> WellFormed(vec[i].position))
    requires NewlinesAfterLarger(vec)
    modifies crdt`symbols, crdt`size
    ensures crdt.Valid() && crdt.Flat() == Load(vec) && crdt.symbols == Split(Load(vec))
  {
    for i := |vec| downto 0
      invariant crdt.Valid() && crdt.Flat() == Load(vec[i..])
    {
      ReadyFor(vec, i);
      LoadSymbol(crdt, vec[i]);
    }
    assert vec[0..] == vec;
    CanonicalIsSplit(crdt.symbols);
  }

  lemma {:induction false} ReadyFor(vec: seq<Symbol>, i: nat)
    requires Distinct(vec) && NewlinesAfterLarger(vec) && i < |vec|
    ensures var d := Load(vec[i + 1..]);
            StepDefined(d, vec[i]) && !Has(d, vec[i].position) && Load(vec[i..]) == LoadOne(d, vec[i])
  {
    var rest := vec[i..];
    assert rest[1..] == vec[i + 1..] && rest[0] == vec[i];
    StepIsDefined(vec, i);
    BehindSuffix(vec, i);
    BehindSuffix(vec, i + 1);
    LoadSorted(vec[i + 1..]);
    NewHere(Load(vec[i + 1..]), rest);
  }

  // ----- What is loaded -----

  /** No symbol is larger than a terminator. */
  predicate TerminatorLargest(vec: seq<Symbol>) {
    forall i, j :: 0 <= i < |vec| && 0 <= j < |vec| && vec[i].value == TERMINATOR && vec[i].position != vec[j].position ==>
                     Less(vec[j].position, vec[i].position)
  }

  /** Then the alignments of loading change nothing. */
  lemma {:induction false} OwnAlignment(d: Document, s: Symbol)
    requires Sorted(d) && !Has(d, s.position) && EndsLine(s)
    requires s.value == TERMINATOR ==> forall k :: 0 <= k < |d| ==> Less(d[k].position, s.position)
    ensures AlignAt(SortedInsert(d, s), s.position, s.format.align) == SortedInsert(d, s)
  {
    var r, k := SortedInsert(d, s), CountLess(d, s.position);
    SortedInsertKeepsSorted(d, s);
    CountLessFits(d, s.position);
    FitsSeparates(d, k, s.position);
    assert r[k] == s;
    Antisymmetric(s.position, s.position);
    FitsIsCountLess(r, k, s.position);
    assert s.value == TERMINATOR ==> k == |d|;
    assert LineEnd(r, k) == k;
  }

  lemma {:induction false} LoadOneContents(d: Document, s: Symbol)
    requires Sorted(d) && !Has(d, s.position)
    requires s.value == TERMINATOR ==> forall k :: 0 <= k < |d| ==> Less(d[k].position, s.position)
    ensures multiset(LoadOne(d, s)) == multiset(d) + multiset{s}
  {
    if EndsLine(s) {
      OwnAlignment(d, s);
    }
    InsertAtContents(d, CountLess(d, s.position), s);
  }

  lemma {:induction false} BelowTerminator(d: Document, vec: seq<Symbol>)
    requires vec != [] && Distinct(vec) && TerminatorLargest(vec) && SameSymbols(d, vec[1..])
    ensures vec[0].value == TERMINATOR ==> forall k :: 0 <= k < |d| ==> Less(d[k].position, vec[0].position)
    ensures TerminatorLargest(vec[1..])
  {
    assert forall i :: 0 <= i < |vec| - 1 ==> vec[1..][i] == vec[i + 1];
    forall k | 0 <= k < |d| && vec[0].value == TERMINATOR ensures Less(d[k].position, vec[0].position) {
      assert Carries(vec[1..], d[k].position, d[k].value);
    }
  }

  /** Loading gives exactly the loaded symbols, sorted, in whatever order they come. */
  lemma {:induction false} LoadContents(vec: seq<Symbol>)
    requires Distinct(vec) && TerminatorLargest(vec)
    ensures Sorted(Load(vec)) && multiset(Load(vec)) == multiset(vec)
  {
    LoadSorted(vec);
    if vec != [] {
      BehindSuffix(vec, 1);
      LoadSorted(vec[1..]);
      BelowTerminator(Load(vec[1..]), vec);
      LoadContents(vec[1..]);
      LoadFirst(Load(vec[1..]), vec);
    }
  }

  lemma {:induction false} LoadFirst(d: Document, vec: seq<Symbol>)
    requires vec != [] && Distinct(vec) && TerminatorLargest(vec)
    requires Sorted(d) && SameSymbols(d, vec[1..]) && multiset(d) == multiset(vec[1..])
    ensures multiset(LoadOne(d, vec[0])) == multiset(vec)
  {
    NewHere(d, vec);
    BelowTerminator(d, vec);
    LoadOneContents(d, vec[0]);
    assert vec == [vec[0]] + vec[1..];
  }

  /** The client that opens a file gets the document that every client already has: the sorted list
  of the server's symbols. */
  lemma {:induction false} OpensServerList(vec: seq<Symbol>, m: SymbolMap, d: Document)
    requires Keyed(m) && Lists(vec, m) && TerminatorLargest(vec) && ListsServer(d, m)
    ensures Distinct(vec) && Load(vec) == d
  {
    ListedOnce(vec, m);
    LoadContents(vec);
    forall x ensures x in d <==> x in Load(vec) {
      assert x in d <==> x in multiset(d);
      assert x in Load(vec) <==> x in multiset(Load(vec));
    }
    SortedUnique(d, Load(vec));
  }

  // ----- The order of the server's map -----

  /** The order of `QString`, by which the map's `values()` come. */
  predicate StringLess(a: string, b: string) {
    if b == [] then false
    else a == [] || a[0] < b[0] || (a[0] == b[0] && StringLess(a[1..], b[1..]))
  }

  predicate KeyOrder(vec: seq<Symbol>) {
    forall i, j :: 0 <= i < j < |vec| ==> StringLess(Key(vec[i].position), Key(vec[j].position))
  }

  lemma {:induction false} KeyOfDigit(digit: nat)
    requires digit < 100
    ensures Key([Identifier(digit, 1)])
         == "[" + (if digit < 10 then [DigitChar(digit)] else [DigitChar(digit / 10), DigitChar(digit % 10)]) + "_1]"
  {
    assert NatString(1) == "1";
    assert NatString(digit) == if digit < 10 then [DigitChar(digit)] else [DigitChar(digit / 10), DigitChar(digit % 10)];
  }

  lemma {:induction false} TwentyFiveBeforeFive()
    ensures StringLess(Key([Identifier(25, 1)]), Key([Identifier(5, 1)]))
  {
    KeyOfDigit(5);
    KeyOfDigit(25);
    assert "[25_1]"[1..] == "25_1]" && "[5_1]"[1..] == "5_1]";
    assert StringLess("25_1]", "5_1]");
  }

  /** Loading is not always defined: keys are ordered as strings, so a newline at digit 5 comes
  behind a terminator at digit 25, and is loaded first. */
  lemma {:induction false} LoadingUndefined(newline: Symbol, terminator: Symbol)
    requires newline.value == NEWLINE && newline.position == [Identifier(5, 1)]
    requires terminator.value == TERMINATOR && terminator.position == [Identifier(25, 1)]
    ensures var d := [newline, terminator]; Sorted(d) && AllWellFormed(d) && Terminated(d)
    ensures var vec := [terminator, newline];
            Distinct(vec) && TerminatorLargest(vec) && KeyOrder(vec) && !Defined(vec)
  {
    var vec := [terminator, newline];
    TwentyFiveBeforeFive();
    assert StringLess(Key(vec[0].position), Key(vec[1].position));
    assert Less(newline.position, terminator.position) && !LargerBehind(vec, 1);
    Antisymmetric(newline.position, terminator.position);
    LoadingDefined(vec);
  }

  // ----- Opening over the wire -----

  /** The header of the server's answer. */
  function AnswerTo(success: bool, total: nat, users: nat): Header {
    FileAnswer(Some(success), total, true, users)
  }

  /** The client reads in the header what the server wrote, and the answer fits an array. */
  ghost predicate Understood(write: Header -> bytes, describe: bytes -> Header,
                             success: bool, content: seq<Symbol>, users: nat)
  {
    var h := AnswerTo(success, |content|, users);
    describe(write(h)) == h && Sized(write(h), content)
  }

  /** The server's answer, and what the client reads in it; one without symbols is ignored. */
  method Answer(write: Header -> bytes, describe: bytes -> Header, success: bool, content: seq<Symbol>, pictures: seq<bytes>)
    returns (r: Opened)
    requires Understood(write, describe, success, content, |pictures|)
    requires forall i :: 0 <= i < |pictures| ==> |pictures[i]| + 4 < ARRAY_LIMIT
    ensures r == if !success then Failed else if content == [] then Ignored else Shown(content, Images(Pictures(pictures)))
  {
    var header := write(AnswerTo(success, |content|, |pictures|));
    var answer := CreateByteArrayFileContentImage(header, content, pictures);
    r := OpenFile(answer, describe);
    TakeFirst(header, Part(EncodeSymbols(content)) + ImageParts(pictures));
    if success && content != [] {
      FileRoundTrip(header, content, pictures, describe, |content|);
    }
  }

  lemma {:induction false} NothingListed(vs: seq<Symbol>, m: SymbolMap)
    requires Lists(vs, m)
    ensures vs == [] <==> m == map[]
  {
    if m != map[] {
      var k :| k in m;
      assert m[k] in Contents(m);
    }
    if vs != [] {
      assert vs[0] in multiset(vs);
    }
  }

  /** The symbols that the server may send: some listing of its map, or what the database holds. */
  ghost predicate MaySend(symbols: map<string, SymbolMap>, store: map<string, seq<Symbol>>, filename: string,
                          content: seq<Symbol>)
  {
    if filename in symbols then Lists(content, symbols[filename])
    else content == if filename in store then store[filename] else []
  }

  predicate Known(symbols: map<string, SymbolMap>, store: map<string, seq<Symbol>>, filename: string) {
    filename in symbols || filename in store
  }

  /** The answer to a user who opens a file is understood, whatever the order of the server's map. */
  ghost predicate Answerable(symbols: map<string, SymbolMap>, store: map<string, seq<Symbol>>, filename: string,
                             others: nat, write: Header -> bytes, describe: bytes -> Header)
  {
    forall vs :: MaySend(symbols, store, filename, vs) ==>
                   Understood(write, describe, Known(symbols, store, filename), vs, others)
  }

  /** What the client sees of a file that it opens. */
  ghost predicate Seen(symbols: map<string, SymbolMap>, store: map<string, seq<Symbol>>, images: map<string, bytes>,
                       filename: string, users: seq<string>, r: Opened)
  {
    if !Known(symbols, store, filename) then r == Failed
    else if MaySend(symbols, store, filename, []) then r == Ignored
    else r.Shown? && MaySend(symbols, store, filename, r.symbols) && r.users == Images(Pictures(ImagesOf(users, images)))
  }

  /** A user opens a file: the client recovers the symbols that the server holds, and one image for each of
  the other users, in the order of their list; a file without symbols is ignored. */
  method Join(server: Server, filename: string, sender: ServerWorker, write: Header -> bytes, describe: bytes -> Header)
    returns (r: Opened, users: seq<string>)
    requires server.Valid() && sender.filename == "" && filename != ""
    requires Answerable(server.symbolsList, server.store, filename,
                        |OtherUsers(Present(server.mapFileWorkers, filename, sender), sender.username)|, write, describe)
    requires forall u <- server.images :: |server.images[u]| + 4 < ARRAY_LIMIT
    modifies server`mapFileWorkers, server`symbolsList, server`changed, sender
    ensures server.Valid() && sender.filename == filename
    ensures FileEntered(filename, sender, old(server.mapFileWorkers), old(server.symbolsList), old(server.changed),
                        server.store, server.mapFileWorkers, server.symbolsList, server.changed)
    ensures users == OtherUsers(Present(old(server.mapFileWorkers), filename, sender), sender.username)
    ensures Seen(old(server.symbolsList), old(server.store), old(server.images), filename, users, r)
  {
    ghost var symbols, store, images := server.symbolsList, server.store, server.images;
    var success, content, pictures;
    success, content, users, pictures := Serve(server, filename, sender);
    r := Respond(server, symbols, store, images, filename, users, write, describe, success, content, pictures);
  }

  /** What the server looks up for the answer. */
  method Serve(server: Server, filename: string, sender: ServerWorker)
    returns (success: bool, content: seq<Symbol>, users: seq<string>, pictures: seq<bytes>)
    requires server.Valid() && sender.filename == "" && filename != ""
    modifies server`mapFileWorkers, server`symbolsList, server`changed, sender
    ensures server.Valid() && sender.filename == filename
    ensures FileEntered(filename, sender, old(server.mapFileWorkers), old(server.symbolsList), old(server.changed),
                        server.store, server.mapFileWorkers, server.symbolsList, server.changed)
    ensures users == OtherUsers(Present(old(server.mapFileWorkers), filename, sender), sender.username)
    ensures pictures == ImagesOf(users, old(server.images))
    ensures MaySend(old(server.symbolsList), old(server.store), filename, content)
    ensures success == Known(old(server.symbolsList), old(server.store), filename)
  {
    var relayed;
    success, content, users, pictures, relayed := server.SendFile(filename, sender);
  }

  method Respond(ghost server: Server, ghost symbols: map<string, SymbolMap>, ghost store: map<string, seq<Symbol>>,
                 ghost images: map<string, bytes>, ghost filename: string, ghost users: seq<string>,
                 write: Header -> bytes, describe: bytes -> Header,
                 success: bool, content: seq<Symbol>, pictures: seq<bytes>)
    returns (r: Opened)
    requires server.Valid()
    requires MaySend(symbols, store, filename, content) && success == Known(symbols, store, filename)
    requires pictures == ImagesOf(users, images)
    requires Answerable(symbols, store, filename, |users|, write, describe)
    requires forall u <- images :: |images[u]| + 4 < ARRAY_LIMIT
    ensures server.Valid()
    ensures Seen(symbols, store, images, filename, users, r)
  {
    ImagesFit(users, images);
    r := Answer(write, describe, success, content, pictures);
    EmptyOnly(symbols, store, filename, content);
  }

  lemma {:induction false} EmptyOnly(symbols: map<string, SymbolMap>, store: map<string, seq<Symbol>>, filename: string,
                                     content: seq<Symbol>)
    requires MaySend(symbols, store, filename, content)
    ensures MaySend(symbols, store, filename, []) <==> content == []
  {
    if filename in symbols {
      NothingListed(content, symbols[filename]);
      if Lists([], symbols[filename]) {
        NothingListed([], symbols[filename]);
      }
    }
  }

  lemma {:induction false} ImagesFit(users: seq<string>, images: map<string, bytes>)
    requires forall u <- images :: |images[u]| + 4 < ARRAY_LIMIT
    ensures forall i :: 0 <= i < |users| ==> |ImagesOf(users, images)[i]| + 4 < ARRAY_LIMIT
  {
    if users != [] {
      ImagesFit(users[..|users| - 1], images);
    }
  }

  lemma {:induction false} OnlyListing(x: Symbol, vs: seq<Symbol>)
    requires Lists(vs, Loaded([x]))
    ensures vs == [x]
  {
    LoadedContents([x]);
    forall y ensures multiset(vs)[y] == multiset([x])[y] {
      assert Count([x], y) == Contents(Loaded([x]))[y];
    }
    assert multiset(vs) == multiset([x]);
    assert |vs| == |multiset(vs)| == 1;
    assert vs[0] in multiset(vs);
  }

  lemma {:induction false} OneOther(first: ServerWorker, second: ServerWorker)
    requires first.username == "first" && second.username == "second"
    ensures OtherUsers([first, second], "second") == ["first"]
  {
    assert [first, second][..1] == [first] && [first][..0] == [];
    assert "first"[0] != "second"[0];
    assert OtherUsers([first], "second") == [] + ["first"];
  }

  lemma {:induction false} NoPictures()
    ensures Pictures(ImagesOf(["first"], map[])) == [None]
  {
    assert ["first"][..0] == [];
    var v := ImagesOf(["first"], map[]);
    assert v == [[]] && v[1..] == [];
  }

  /** For instance: a second user opens a file that holds just a symbol. */
  method SecondUser(symbol: Symbol) returns (r: Opened, users: seq<string>)
    requires StorableSymbol(symbol) && |EncodeSymbols([symbol])| + 4 < ARRAY_LIMIT
    ensures r == Shown([symbol], Images([None])) && users == ["first"]
  {
    var server := new Server(map["file" := [symbol]], map[]);
    var first := new ServerWorker("first");
    var second := new ServerWorker("second");
    var success, content, others, pictures, relayed := server.SendFile("file", first);
    r, users := JoinFirst(server, first, second, symbol);
  }

  method JoinFirst(server: Server, first: ServerWorker, second: ServerWorker, symbol: Symbol)
    returns (r: Opened, users: seq<string>)
    requires server.Valid() && first.username == "first" && second.username == "second" && second.filename == ""
    requires server.mapFileWorkers == map["file" := [first]] && server.images == map[]
    requires server.symbolsList == map["file" := Loaded([symbol])]
    requires StorableSymbol(symbol) && |EncodeSymbols([symbol])| + 4 < ARRAY_LIMIT
    modifies server`mapFileWorkers, server`symbolsList, server`changed, second
    ensures r == Shown([symbol], Images([None])) && users == ["first"]
  {
    OneOther(first, second);
    assert Present(server.mapFileWorkers, "file", second) == [first, second];
    ghost var symbols, store := server.symbolsList, server.store;
    var write: Header -> bytes := h => [];
    var describe := (b: bytes) => AnswerTo(true, 1, 1);
    OneAnswer(symbol, symbols, store, write, describe);
    r, users := Join(server, "file", second, write, describe);
    OneSeen(symbol, symbols, store, r);
  }

  lemma {:induction false} OneAnswer(x: Symbol, symbols: map<string, SymbolMap>, store: map<string, seq<Symbol>>,
                                     write: Header -> bytes, describe: bytes -> Header)
    requires symbols == map["file" := Loaded([x])]
    requires StorableSymbol(x) && |EncodeSymbols([x])| + 4 < ARRAY_LIMIT
    requires write(AnswerTo(true, 1, 1)) == [] && describe([]) == AnswerTo(true, 1, 1)
    ensures Answerable(symbols, store, "file", 1, write, describe)
  {
    OneListing(x, symbols, store);
  }

  lemma {:induction false} OneSeen(x: Symbol, symbols: map<string, SymbolMap>, store: map<string, seq<Symbol>>, r: Opened)
    requires symbols == map["file" := Loaded([x])] && Seen(symbols, store, map[], "file", ["first"], r)
    ensures r == Shown([x], Images([None]))
  {
    OneListing(x, symbols, store);
    NoPictures();
  }

  lemma {:induction false} OneListing(x: Symbol, symbols: map<string, SymbolMap>, store: map<string, seq<Symbol>>)
    requires symbols == map["file" := Loaded([x])]
    ensures forall vs :: MaySend(symbols, store, "file", vs) ==> vs == [x]
  {
    forall vs | MaySend(symbols, store, "file", vs) ensures vs == [x] {
      OnlyListing(x, vs);
    }
  }
}

/** The server's open files: a write-back cache over the database (Server/server.cpp).

Three maps are kept in step: who has a file open, its symbols in memory, and whether memory is ahead
of the database. Files are saved when the last editor leaves, and periodically.
*/
module FileServer {
  import opened Wrappers
  import opened Documents
  import opened PositionKey
  import opened EndToEnd
  import opened Delivery
  import opened Bytes

  /** A connection; the empty file name means that it holds no file. */
  class ServerWorker {
    const username: string
    var filename: string

    constructor (name: string)
      ensures username == name && filename == ""
    {
      username, filename := name, "";
    }

    method SetFilename(name: string)
      modifies this
      ensures filename == name
    {
      filename := name;
    }

    method CloseFile()
      modifies this
      ensures filename == ""
    {
      filename := "";
    }
  }

  /** The map that storing a list of symbols builds. */
  function Loaded(vs: seq<Symbol>): SymbolMap {
    ApplyAll(map[], EditsOf(PastedText, vs))
  }

  /** Some enumeration of a map's values. */
  ghost predicate Lists(vs: seq<Symbol>, m: SymbolMap) {
    multiset(vs) == Contents(m)
  }

  function Others<T(==)>(ws: seq<T>, w: T): seq<T> {
    if ws == [] then []
    else Others(ws[..|ws| - 1], w) + if ws[|ws| - 1] == w then [] else [ws[|ws| - 1]]
  }

  /** Everybody in the list but one, in order, each once. */
  lemma {:induction false} OthersMembers<T>(ws: seq<T>, w: T)
    requires NoDuplicates(ws)
    ensures NoDuplicates(Others(ws, w))
    ensures forall x :: x in Others(ws, w) <==> x in ws && x != w
  {
    if ws != [] {
      var n := |ws| - 1;
      OthersMembers(ws[..n], w);
      assert ws == ws[..n] + [ws[n]];
      assert ws[n] !in ws[..n];
    }
  }

  lemma {:induction false} OthersFrom<T>(ws: seq<T>, w: T, i: nat) returns (j: nat)
    requires i < |Others(ws, w)|
    ensures j < |ws| && ws[j] == Others(ws, w)[i] != w
  {
    var n := |ws| - 1;
    if i < |Others(ws[..n], w)| {
      j := OthersFrom(ws[..n], w, i);
    } else {
      j := n;
    }
  }

  predicate NoDuplicates<T(==)>(ws: seq<T>) {
    forall i, j :: 0 <= i < j < |ws| ==> ws[i] != ws[j]
  }

  lemma {:induction false} ContentsDetermine(a: SymbolMap, b: SymbolMap)
    requires Keyed(a) && Keyed(b) && Contents(a) == Contents(b)
    ensures a == b
  {
    forall k ensures k in a ==> k in b && a[k] == b[k] {
      if k in a {
        ContentsMember(a, a[k]);
        ContentsMember(b, a[k]);
      }
    }
    forall k ensures k in b ==> k in a {
      if k in b {
        ContentsMember(a, b[k]);
        ContentsMember(b, b[k]);
      }
    }
  }

  /** A listing of a map's values has every position once. */
  lemma {:induction false} ListedOnce(vs: seq<Symbol>, m: SymbolMap)
    requires Keyed(m) && Lists(vs, m)
    ensures Distinct(vs)
  {
    forall x ensures Count(vs, x) <= 1 {
      ContentsMember(m, x);
      assert Count(vs, x) == Contents(m)[x];
    }
    forall x, y | x in vs && y in vs && x.position == y.position ensures x == y {
      assert x in multiset(vs) && y in multiset(vs);
      ContentsMember(m, x);
      ContentsMember(m, y);
    }
    CountedOnce(vs);
  }

  /** Storing distinct symbols stores exactly these. */
  lemma {:induction false} LoadedContents(vs: seq<Symbol>)
    requires Distinct(vs)
    ensures Keyed(Loaded(vs)) && forall x :: Contents(Loaded(vs))[x] == Count(vs, x)
  {
    if vs == [] {
      assert EditsOf(PastedText, vs) == [];
    } else {
      PutAll(map[], PastedText, vs, vs[0]);
    }
    forall x ensures Contents(Loaded(vs))[x] == Count(vs, x) {
      PutAll(map[], PastedText, vs, x);
      assert Contents(map[])[x] == 0;
    }
  }

  /** Saving a map's values in any order and loading them again gives the map back. */
  lemma {:induction false} SaveLoad(vs: seq<Symbol>, m: SymbolMap)
    requires Keyed(m) && Lists(vs, m)
    ensures Loaded(vs) == m && Keyed(Loaded(vs))
  {
    ListedOnce(vs, m);
    LoadedContents(vs);
    forall x ensures Contents(Loaded(vs))[x] == Contents(m)[x] {
      assert Count(vs, x) == Contents(m)[x];
    }
    ContentsDetermine(Loaded(vs), m);
  }

  ghost predicate MapsValid(symbols: map<string, SymbolMap>, changed: map<string, bool>) {
    symbols.Keys == changed.Keys && forall f <- symbols :: Keyed(symbols[f])
  }

  lemma {:induction false} PutMapsValid(symbols: map<string, SymbolMap>, changed: map<string, bool>,
                                        f: string, m: SymbolMap, flag: bool)
    requires MapsValid(symbols, changed) && Keyed(m)
    ensures MapsValid(symbols[f := m], changed[f := flag])
    ensures symbols[f := map[]][f := m] == symbols[f := m]
  {
  }

  /** A stored file that is not marked as changed is what memory holds. */
  ghost predicate CoherentMaps(symbols: map<string, SymbolMap>, changed: map<string, bool>,
                               store: map<string, seq<Symbol>>) {
    forall f <- symbols :: f in changed && !changed[f] && f in store ==> Loaded(store[f]) == symbols[f]
  }

  /** What writing back does: every changed file that the database knows is stored as memory holds it, and
  no other file is touched. */
  ghost predicate WrittenBack(symbols: map<string, SymbolMap>, changed: map<string, bool>,
                              store: map<string, seq<Symbol>>, store': map<string, seq<Symbol>>) {
    && store'.Keys == store.Keys
    && (forall g <- store :: (g in symbols && g in changed ==> !changed[g]) ==> store'[g] == store[g])
    && (forall g <- symbols :: g in changed && changed[g] && g in store' ==> Loaded(store'[g]) == symbols[g])
  }

  /** The other users of a file, in the order of its list. */
  function OtherUsers(list: seq<ServerWorker>, username: string): seq<string> {
    if list == [] then []
    else
      var n := |list| - 1;
      OtherUsers(list[..n], username) + if list[n].username == username then [] else [list[n].username]
  }

  /** Exactly the names of the workers under another name are listed. */
  lemma {:induction false} OtherUsersMember(list: seq<ServerWorker>, username: string, u: string)
    ensures u in OtherUsers(list, username) <==> u != username && exists w :: w in list && w.username == u
  {
    if list != [] {
      var n := |list| - 1;
      OtherUsersMember(list[..n], username, u);
      assert list == list[..n] + [list[n]];
    }
  }

  /** They are listed one after the other, in the order of the list. */
  lemma {:induction false} OtherUsersMore(list: seq<ServerWorker>, more: ServerWorker, username: string)
    ensures OtherUsers([], username) == []
    ensures OtherUsers(list + [more], username)
         == OtherUsers(list, username) + if more.username == username then [] else [more.username]
  {
    assert (list + [more])[..|list|] == list;
  }

  /** Every user's own image, or an empty one. */
  lemma {:induction false} ImagesAt(users: seq<string>, images: map<string, bytes>, i: nat)
    requires i < |users|
    ensures ImagesOf(users, images)[i] == if users[i] in images then images[users[i]] else []
  {
    if i < |users| - 1 {
      ImagesAt(users[..|users| - 1], images, i);
    }
  }

  function ImagesOf(users: seq<string>, images: map<string, bytes>): (v: seq<bytes>)
    ensures |v| == |users|
  {
    if users == [] then []
    else
      var n := |users| - 1;
      ImagesOf(users[..n], images) + [if users[n] in images then images[users[n]] else []]
  }

  /** Everybody who has the file open, and the user who opens it. */
  function Present(workers: map<string, seq<ServerWorker>>, filename: string, sender: ServerWorker): seq<ServerWorker> {
    (if filename in workers then workers[filename] else []) + [sender]
  }

  /** What opening a file does to the maps: the worker goes to the end of its list, and a file that nobody had
  open comes into memory as the database has it. */
  ghost predicate FileEntered(filename: string, sender: ServerWorker,
                              workers: map<string, seq<ServerWorker>>, symbols: map<string, SymbolMap>,
                              changed: map<string, bool>, store: map<string, seq<Symbol>>,
                              workers': map<string, seq<ServerWorker>>, symbols': map<string, SymbolMap>,
                              changed': map<string, bool>)
  {
    && workers' == workers[filename := Present(workers, filename, sender)]
    && if filename in symbols then symbols' == symbols && changed' == changed
       else
         && symbols' == symbols[filename := Loaded(if filename in store then store[filename] else [])]
         && changed' == changed[filename := false]
  }

  /** What leaving a file does to the maps and the database: the last editor to leave writes it back and
  drops it from memory, otherwise only the list of workers gets shorter. */
  ghost predicate FileLeft(filename: string, rest: seq<ServerWorker>,
                           workers: map<string, seq<ServerWorker>>, symbols: map<string, SymbolMap>,
                           changed: map<string, bool>, store: map<string, seq<Symbol>>,
                           workers': map<string, seq<ServerWorker>>, symbols': map<string, SymbolMap>,
                           changed': map<string, bool>, store': map<string, seq<Symbol>>)
  {
    if rest != [] then
      workers' == workers[filename := rest] && symbols' == symbols && changed' == changed && store' == store
    else
      && workers' == workers - {filename} && symbols' == symbols - {filename}
      && changed'.Keys == changed.Keys - {filename} && (forall g <- changed' :: !changed'[g])
      && WrittenBack(symbols, changed, store, store')
  }

  /** The server's loops over the symbols of a message, or of a file read from the database. */
  method ApplyEdits(m: SymbolMap, kind: Kind, vec: seq<Symbol>) returns (r: SymbolMap)
    requires Keyed(m)
    ensures r == ApplyAll(m, EditsOf(kind, vec)) && Keyed(r)
  {
    r := m;
    assert EditsOf(kind, vec[..0]) == [];
    for i := 0 to |vec|
      invariant r == ApplyAll(m, EditsOf(kind, vec[..i])) && Keyed(r)
    {
      ApplyOne(m, kind, vec, i);
      ApplyKeepsKeyed(r, EditOf(kind, vec[i]));
      if kind == Erased {
        r := r - {Key(vec[i].position)};
      } else {
        r := r[Key(vec[i].position) := vec[i]];
      }
    }
    assert vec[..|vec|] == vec;
  }

  class Server {
    var mapFileWorkers: map<string, seq<ServerWorker>>
    var symbolsList: map<string, SymbolMap>
    var changed: map<string, bool>
    /** The database: files by name, profile images by user. */
    var store: map<string, seq<Symbol>>
    var images: map<string, bytes>

    ghost function Workers(): set<ServerWorker>
      reads this`mapFileWorkers
    {
      set f, i | f in mapFileWorkers && 0 <= i < |mapFileWorkers[f]| :: mapFileWorkers[f][i]
    }

    ghost predicate ValidLists()
      reads this`mapFileWorkers, Workers()
    {
      forall f <- mapFileWorkers ::
        && f != "" && mapFileWorkers[f] != [] && NoDuplicates(mapFileWorkers[f])
        && forall i :: 0 <= i < |mapFileWorkers[f]| ==> mapFileWorkers[f][i].filename == f
    }

    ghost predicate ValidMaps()
      reads this`symbolsList, this`changed
    {
      MapsValid(symbolsList, changed)
    }

    /** Between events: the three maps have the same files, and every file somebody who holds it. */
    ghost predicate Valid()
      reads this, Workers()
    {
      mapFileWorkers.Keys == symbolsList.Keys && ValidLists() && ValidMaps()
    }

    ghost predicate Coherent()
      reads this`symbolsList, this`changed, this`store
    {
      CoherentMaps(symbolsList, changed, store)
    }

    constructor (files: map<string, seq<Symbol>>, pictures: map<string, bytes>)
      ensures Valid() && Coherent() && store == files && images == pictures && symbolsList == map[]
    {
      mapFileWorkers, symbolsList, changed, store, images := map[], map[], map[], files, pictures;
    }

    /** `values()` of a symbol map. */
    method Values(m: SymbolMap) returns (vs: seq<Symbol>)
      requires Keyed(m)
      ensures Lists(vs, m)
    {
      vs := [];
      var todo := m;
      while todo != map[]
        invariant Keyed(todo)
        invariant forall x :: Count(vs, x) + Contents(todo)[x] == Contents(m)[x]
        decreases |todo|
      {
        assert todo.Keys != {};
        var k := AnyOf(todo.Keys);
        var s := todo[k];
        forall x ensures Contents(todo - {k})[x] == Contents(todo)[x] - if x == s then 1 else 0 {
          DropContents(todo, s, x);
        }
        ApplyKeepsKeyed(todo, Drop(s));
        forall x ensures Count(vs + [s], x) == Count(vs, x) + if x == s then 1 else 0 {
          CountSnoc(vs + [s], x);
          assert (vs + [s])[..|vs|] == vs;
        }
        vs := vs + [s];
        todo := todo - {k};
      }
      assert Contents(todo) == multiset{};
      forall x ensures multiset(vs)[x] == Contents(m)[x] {
        assert Count(vs, x) == multiset(vs)[x];
      }
    }

    /** `saveFile`: writes every changed file that the database knows, and clears all flags. */
    method SaveFile()
      requires ValidMaps()
      modifies this`store, this`changed
      ensures ValidMaps() && forall f <- symbolsList :: !changed[f]
      ensures WrittenBack(symbolsList, old(changed), old(store), store)
      ensures old(Coherent()) ==> Coherent()
    {
      var todo := symbolsList.Keys;
      while todo != {}
        invariant todo <= symbolsList.Keys == changed.Keys
        invariant store.Keys == old(store).Keys
        invariant forall f <- todo :: changed[f] == old(changed)[f]
        invariant forall f <- symbolsList :: f !in todo ==> !changed[f]
        invariant forall f <- symbolsList :: f !in todo && old(changed)[f] && f in store ==>
                    Loaded(store[f]) == symbolsList[f]
        invariant forall f <- store :: f in todo || (f in symbolsList ==> !old(changed)[f]) ==> store[f] == old(store)[f]
      {
        var f := AnyOf(todo);
        SaveIfChanged(f);
        todo := todo - {f};
      }
    }

    /** One round: writes a file that is marked as changed, and clears its flag. */
    method SaveIfChanged(f: string)
      requires ValidMaps() && f in symbolsList
      modifies this`store, this`changed
      ensures changed == old(changed)[f := false] && store.Keys == old(store).Keys
      ensures old(changed)[f] && f in store ==> Loaded(store[f]) == symbolsList[f]
      ensures forall g <- store :: g != f || !old(changed)[f] ==> store[g] == old(store)[g]
    {
      if changed[f] {
        SaveOne(f);
      }
      changed := changed[f := false];
    }

    method SaveOne(f: string)
      requires f in symbolsList && Keyed(symbolsList[f])
      modifies this`store
      ensures store.Keys == old(store).Keys && (f in store ==> Loaded(store[f]) == symbolsList[f])
      ensures forall g <- store :: g != f ==> store[g] == old(store)[g]
    {
      var data := Values(symbolsList[f]);
      SaveLoad(data, symbolsList[f]);
      if f in store {
        store := store[f := data];
      }
    }

    // ----- Opening -----

    /** `storeSymbolsServerMemory`: takes a file read from the database into memory. */
    method StoreSymbolsServerMemory(filename: string, loaded: seq<Symbol>)
      requires ValidMaps()
      modifies this`symbolsList, this`changed
      ensures ValidMaps()
      ensures symbolsList == old(symbolsList)[filename := ApplyAll(
                if filename in old(symbolsList) then old(symbolsList)[filename] else map[],
                EditsOf(PastedText, loaded))]
      ensures changed == old(changed)[filename := false]
    {
      ghost var before := symbolsList;
      if filename !in symbolsList {
        symbolsList := symbolsList[filename := map[]];
      }
      var stored := ApplyEdits(symbolsList[filename], PastedText, loaded);
      symbolsList := symbolsList[filename := stored];
      PutMapsValid(before, changed, filename, stored, false);
      changed := changed[filename := false];
    }

    /** The other users of a file, each with the profile image or an empty one. */
    method ConnectedUsers(list: seq<ServerWorker>, username: string) returns (users: seq<string>, pictures: seq<bytes>)
      ensures users == OtherUsers(list, username) && pictures == ImagesOf(users, images)
      ensures forall u :: u in users <==> u != username && exists w :: w in list && w.username == u
      ensures forall i :: 0 <= i < |users| ==> pictures[i] == if users[i] in images then images[users[i]] else []
    {
      users, pictures := [], [];
      for i := 0 to |list|
        invariant users == OtherUsers(list[..i], username) && pictures == ImagesOf(users, images)
      {
        assert list[..i + 1][..i] == list[..i];
        if list[i].username != username {
          assert (users + [list[i].username])[..|users|] == users;
          users := users + [list[i].username];
          pictures := pictures + [if list[i].username in images then images[list[i].username] else []];
        }
      }
      assert list[..|list|] == list;
      forall u ensures u in users <==> u != username && exists w :: w in list && w.username == u {
        OtherUsersMember(list, username, u);
      }
      forall i | 0 <= i < |users| ensures pictures[i] == if users[i] in images then images[users[i]] else [] {
        ImagesAt(users, images, i);
      }
    }

    /** `sendFile`: opens a file, from memory when somebody has it open, else from the database.
    A file that the database does not know is opened all the same, empty, and reported as a failure. */
    method SendFile(filename: string, sender: ServerWorker)
      returns (success: bool, content: seq<Symbol>, users: seq<string>, pictures: seq<bytes>, relayed: seq<ServerWorker>)
      requires Valid() && sender.filename == ""
      modifies this`mapFileWorkers, this`symbolsList, this`changed, sender
      ensures Valid() && (old(Coherent()) ==> Coherent())
      ensures filename == "" ==>
                !success && mapFileWorkers == old(mapFileWorkers) && symbolsList == old(symbolsList) && changed == old(changed)
      ensures filename != "" ==>
                && sender.filename == filename
                && FileEntered(filename, sender, old(mapFileWorkers), old(symbolsList), old(changed), store,
                               mapFileWorkers, symbolsList, changed)
                && relayed == (if filename in old(mapFileWorkers) then old(mapFileWorkers)[filename] else [])
                && (success <==> filename in old(symbolsList) || filename in store)
                && users == OtherUsers(relayed + [sender], sender.username) && pictures == ImagesOf(users, images)
      ensures filename != "" ==>
                if filename in old(symbolsList) then Lists(content, symbolsList[filename])
                else content == if filename in store then store[filename] else []
    {
      if filename == "" {
        return false, [], [], [], [];
      }
      relayed := AddWorker(filename, sender);
      users, pictures := ConnectedUsers(mapFileWorkers[filename], sender.username);
      success, content := FetchListed(filename);
    }

    /** The same as `FetchSymbols`, for a file that somebody is listed for. */
    method FetchListed(filename: string) returns (success: bool, content: seq<Symbol>)
      requires ValidLists() && ValidMaps() && mapFileWorkers.Keys == symbolsList.Keys + {filename}
      modifies this`symbolsList, this`changed
      ensures Valid() && (old(Coherent()) ==> Coherent())
      ensures success <==> filename in old(symbolsList) || filename in store
      ensures filename in old(symbolsList) ==>
                symbolsList == old(symbolsList) && changed == old(changed) && Lists(content, symbolsList[filename])
      ensures filename !in old(symbolsList) ==>
                && content == (if filename in store then store[filename] else [])
                && symbolsList == old(symbolsList)[filename := Loaded(content)]
                && changed == old(changed)[filename := false]
    {
      success, content := FetchSymbols(filename);
    }

    /** Puts a worker on the list of those who have a file open; the result is who had it open before. */
    method AddWorker(filename: string, sender: ServerWorker) returns (before: seq<ServerWorker>)
      requires ValidLists() && sender.filename == "" && filename != ""
      modifies this`mapFileWorkers, sender
      ensures ValidLists() && sender.filename == filename
      ensures before == if filename in old(mapFileWorkers) then old(mapFileWorkers)[filename] else []
      ensures mapFileWorkers == old(mapFileWorkers)[filename := before + [sender]]
    {
      assert forall f <- mapFileWorkers :: forall i :: 0 <= i < |mapFileWorkers[f]| ==> mapFileWorkers[f][i] != sender;
      sender.SetFilename(filename);
      before := if filename in mapFileWorkers then mapFileWorkers[filename] else [];
      mapFileWorkers := mapFileWorkers[filename := before + [sender]];
    }

    /** The symbols of a file, from memory or from the database; what was read is kept in memory. */
    method FetchSymbols(filename: string) returns (success: bool, content: seq<Symbol>)
      requires ValidMaps()
      modifies this`symbolsList, this`changed
      ensures ValidMaps() && (old(Coherent()) ==> Coherent())
      ensures success <==> filename in old(symbolsList) || filename in store
      ensures filename in old(symbolsList) ==>
                symbolsList == old(symbolsList) && changed == old(changed) && Lists(content, symbolsList[filename])
      ensures filename !in old(symbolsList) ==>
                && content == (if filename in store then store[filename] else [])
                && symbolsList == old(symbolsList)[filename := Loaded(content)]
                && changed == old(changed)[filename := false]
    {
      success := true;
      if filename in symbolsList {
        content := Values(symbolsList[filename]);
      } else {
        success := filename in store;
        content := if filename in store then store[filename] else [];
        StoreSymbolsServerMemory(filename, content);
      }
    }

    /** `createNewFile`, once the user's list of files took the name (`registered`); `None` when the
    original throws because the database has a file of that name. */
    method CreateNewFile(file: string, sender: ServerWorker, registered: bool) returns (created: Option<bool>)
      requires Valid() && sender.filename == "" && file != ""
      modifies this`mapFileWorkers, this`symbolsList, this`changed, this`store, sender
      ensures Valid()
      ensures created.None? <==> registered && file in old(store)
      ensures created == Some(true) <==> registered && file !in old(store)
      ensures created != Some(true) ==>
                mapFileWorkers == old(mapFileWorkers) && symbolsList == old(symbolsList)
                && changed == old(changed) && store == old(store)
      ensures created == Some(true) ==>
                && sender.filename == file && mapFileWorkers == old(mapFileWorkers)[file := [sender]]
                && store == old(store)[file := []]
                && (file !in old(symbolsList) ==>
                      symbolsList == old(symbolsList)[file := map[]] && changed == old(changed)[file := true])
                && (file in old(symbolsList) ==> symbolsList == old(symbolsList) && changed == old(changed))
      ensures created == Some(true) && old(Coherent()) ==>
                (Coherent() <==>
                   file !in old(symbolsList) || old(changed)[file] || old(symbolsList)[file] == map[])
    {
      if !registered {
        return Some(false);
      }
      if file in store {
        StaysListed(sender);
        sender.SetFilename(file);
        return None;
      }
      ListNewFile(file, sender);
      StoreNewFile(file);
      created := Some(true);
    }

    method StoreNewFile(file: string)
      requires MapsValid(symbolsList, changed) && file !in store
      modifies this`symbolsList, this`changed, this`store
      ensures MapsValid(symbolsList, changed) && store == old(store)[file := []]
      ensures if file in old(symbolsList) then symbolsList == old(symbolsList) && changed == old(changed)
              else symbolsList == old(symbolsList)[file := map[]] && changed == old(changed)[file := true]
      ensures old(Coherent()) ==>
                (Coherent() <==>
                   file !in old(symbolsList) || old(changed)[file] || old(symbolsList)[file] == map[])
    {
      store := store[file := []];
      if file !in symbolsList {
        symbolsList := symbolsList[file := map[]];
        changed := changed[file := true];
      }
      assert EditsOf(PastedText, []) == [];
    }

    /** A worker that holds no file is on no list. */
    lemma {:induction false} StaysListed(sender: ServerWorker)
      requires ValidLists() && sender.filename == ""
      ensures sender !in Workers()
    {
    }

    method ListNewFile(file: string, sender: ServerWorker)
      requires ValidLists() && sender.filename == "" && file != ""
      modifies this`mapFileWorkers, sender
      ensures ValidLists() && sender.filename == file
      ensures mapFileWorkers == old(mapFileWorkers)[file := [sender]]
    {
      StaysListed(sender);
      sender.SetFilename(file);
      mapFileWorkers := mapFileWorkers[file := [sender]];
    }

    // ----- Editing -----

    /** A single insertion or alignment change (none for a cursor move): applied and relayed. */
    method SingleOperation(sender: ServerWorker, s: Option<Symbol>) returns (relayed: seq<ServerWorker>)
      requires Valid() && sender.filename in symbolsList
      modifies this`symbolsList, this`changed
      ensures Valid() && (old(Coherent()) ==> Coherent())
      ensures var f := sender.filename;
              && symbolsList == old(symbolsList)[f :=
                   if s.Some? then Apply(old(symbolsList)[f], Put(s.value)) else old(symbolsList)[f]]
              && changed == old(changed)[f := true]
              && relayed == Others(mapFileWorkers[f], sender)
    {
      var f := sender.filename;
      if s.Some? {
        ApplyKeepsKeyed(symbolsList[f], Put(s.value));
        PutMapsValid(symbolsList, changed, f, Apply(symbolsList[f], Put(s.value)), true);
        symbolsList := symbolsList[f := Apply(symbolsList[f], Put(s.value))];
      }
      changed := changed[f := true];
      relayed := Broadcast(sender);
    }

    /** A paste, format change or deletion: every symbol is stored or removed, then all is relayed. */
    method BulkOperation(sender: ServerWorker, m: Message) returns (relayed: seq<ServerWorker>)
      requires Valid() && sender.filename in symbolsList
      modifies this`symbolsList, this`changed
      ensures Valid() && (old(Coherent()) ==> Coherent())
      ensures var f := sender.filename;
              && symbolsList == old(symbolsList)[f := ApplyAll(old(symbolsList)[f], Edits(m))]
              && changed == old(changed)[f := true]
              && relayed == Others(mapFileWorkers[f], sender)
    {
      var f := sender.filename;
      var edited := ApplyEdits(symbolsList[f], m.kind, m.symbols);
      assert m == Message(m.kind, m.symbols);
      PutMapsValid(symbolsList, changed, f, edited, true);
      symbolsList := symbolsList[f := edited];
      changed := changed[f := true];
      relayed := Broadcast(sender);
    }

    /** Everybody who has the sender's file open, but the sender. */
    method Broadcast(exclude: ServerWorker) returns (relayed: seq<ServerWorker>)
      requires exclude.filename in mapFileWorkers
      ensures relayed == Others(mapFileWorkers[exclude.filename], exclude)
    {
      var active := mapFileWorkers[exclude.filename];
      relayed := [];
      for i := 0 to |active|
        invariant relayed == Others(active[..i], exclude)
      {
        assert active[..i + 1][..i] == active[..i];
        if active[i] != exclude {
          relayed := relayed + [active[i]];
        }
      }
      assert active[..|active|] == active;
    }

    // ----- Closing -----

    /** `udpateSymbolListAndCommunicateDisconnection`: the last editor to leave writes the file back
    and drops it from memory; otherwise the remaining editors are told. */
    method UpdateSymbolListAndCommunicateDisconnection(filename: string, sender: ServerWorker)
      returns (ok: bool, relayed: seq<ServerWorker>)
      requires Valid()
      modifies this`mapFileWorkers, this`symbolsList, this`changed, this`store
      ensures Valid() && (old(Coherent()) ==> Coherent()) && (ok ==> sender !in Workers())
      ensures ok <==> filename in old(mapFileWorkers) && sender in old(mapFileWorkers)[filename]
      ensures !ok ==> mapFileWorkers == old(mapFileWorkers) && symbolsList == old(symbolsList)
                      && changed == old(changed) && store == old(store)
      ensures ok ==> sender.filename == filename && relayed == Others(old(mapFileWorkers)[filename], sender)
      ensures ok ==> FileLeft(filename, relayed, old(mapFileWorkers), old(symbolsList), old(changed), old(store),
                              mapFileWorkers, symbolsList, changed, store)
    {
      if filename !in mapFileWorkers {
        return false, [];
      }
      if sender !in mapFileWorkers[filename] {
        return false, [];
      }
      relayed := RemoveWorker(filename, sender);
      ok := true;
      if filename !in mapFileWorkers {
        WriteBack(sender.filename);
      }
    }

    /** Saves, and drops a file from memory. */
    method WriteBack(filename: string)
      requires ValidMaps() && filename in symbolsList
      modifies this`symbolsList, this`changed, this`store
      ensures ValidMaps() && (old(Coherent()) ==> Coherent())
      ensures symbolsList == old(symbolsList) - {filename}
      ensures changed.Keys == old(changed).Keys - {filename} && forall g <- changed :: !changed[g]
      ensures WrittenBack(old(symbolsList), old(changed), old(store), store)
    {
      SaveFile();
      DropKeepsCoherent(symbolsList, changed, store, filename);
      symbolsList := symbolsList - {filename};
      changed := changed - {filename};
    }

    /** Takes a worker off its file's list, and an emptied list off the map; the result is who is left
    and is told. */
    method RemoveWorker(filename: string, sender: ServerWorker) returns (rest: seq<ServerWorker>)
      requires ValidLists() && filename in mapFileWorkers && sender in mapFileWorkers[filename]
      modifies this`mapFileWorkers
      ensures ValidLists() && sender.filename == filename && sender !in Workers()
      ensures rest == Others(old(mapFileWorkers)[filename], sender)
      ensures mapFileWorkers
           == if rest == [] then old(mapFileWorkers) - {filename} else old(mapFileWorkers)[filename := rest]
    {
      ghost var list := mapFileWorkers[filename];
      rest := Unlist(filename, sender);
      if |rest| == 0 {
        mapFileWorkers := mapFileWorkers - {filename};
      } else {
        assert mapFileWorkers[filename] == rest && rest[0].filename == filename;
        rest := Broadcast(sender);
        OthersIdempotent(list, sender);
      }
    }

    method Unlist(filename: string, sender: ServerWorker) returns (rest: seq<ServerWorker>)
      requires ValidLists() && filename in mapFileWorkers && sender in mapFileWorkers[filename]
      modifies this`mapFileWorkers
      ensures rest == Others(old(mapFileWorkers)[filename], sender) && NoDuplicates(rest)
      ensures sender.filename == filename
      ensures forall i :: 0 <= i < |rest| ==> rest[i] != sender && rest[i].filename == filename
      ensures mapFileWorkers == old(mapFileWorkers)[filename := rest]
    {
      var list := mapFileWorkers[filename];
      OthersMembers(list, sender);
      rest := RemoveOne(list, sender);
      forall i | 0 <= i < |rest| ensures rest[i] != sender && rest[i].filename == filename {
        var j := OthersFrom(list, sender, i);
      }
      mapFileWorkers := mapFileWorkers[filename := rest];
    }

    /** `closeFile`; the worker then holds no file. */
    method CloseFile(filename: string, sender: ServerWorker) returns (ok: bool)
      requires Valid()
      modifies this`mapFileWorkers, this`symbolsList, this`changed, this`store, sender
      ensures Valid() && (old(Coherent()) ==> Coherent())
      ensures ok <==> filename in old(mapFileWorkers) && sender in old(mapFileWorkers)[filename]
      ensures ok ==> sender.filename == "" && sender !in Workers()
      ensures ok ==> FileLeft(filename, Others(old(mapFileWorkers)[filename], sender),
                              old(mapFileWorkers), old(symbolsList), old(changed), old(store),
                              mapFileWorkers, symbolsList, changed, store)
      ensures !ok ==> mapFileWorkers == old(mapFileWorkers) && symbolsList == old(symbolsList)
                      && changed == old(changed) && store == old(store) && sender.filename == old(sender.filename)
    {
      var relayed;
      ok, relayed := UpdateSymbolListAndCommunicateDisconnection(filename, sender);
      if ok {
        sender.CloseFile();
      }
    }

    /** A lost connection leaves its file the same way. */
    method UserDisconnected(sender: ServerWorker)
      requires Valid()
      modifies this`mapFileWorkers, this`symbolsList, this`changed, this`store
      ensures Valid() && (old(Coherent()) ==> Coherent())
      ensures sender !in Workers()
      ensures var f := sender.filename;
              if f in old(mapFileWorkers) && sender in old(mapFileWorkers)[f] then
                FileLeft(f, Others(old(mapFileWorkers)[f], sender),
                         old(mapFileWorkers), old(symbolsList), old(changed), old(store),
                         mapFileWorkers, symbolsList, changed, store)
              else mapFileWorkers == old(mapFileWorkers) && symbolsList == old(symbolsList)
                   && changed == old(changed) && store == old(store)
    {
      if sender.filename != "" {
        var ok, relayed := UpdateSymbolListAndCommunicateDisconnection(sender.filename, sender);
      }
    }
  }

  lemma {:induction false} OthersSingle<T>(w: T)
    ensures Others([w], w) == []
  {
    assert [w][..0] == [];
  }

  lemma {:induction false} DropKeepsCoherent(symbols: map<string, SymbolMap>, changed: map<string, bool>,
                                             store: map<string, seq<Symbol>>, f: string)
    requires MapsValid(symbols, changed)
    ensures MapsValid(symbols - {f}, changed - {f})
    ensures CoherentMaps(symbols, changed, store) ==> CoherentMaps(symbols - {f}, changed - {f}, store)
  {
  }

  /** Removes the first occurrence (`removeOne`); without duplicates that leaves everybody else. */
  method RemoveOne<T(==)>(ws: seq<T>, w: T) returns (rest: seq<T>)
    requires NoDuplicates(ws) && w in ws
    ensures rest == Others(ws, w)
  {
    var i := 0;
    while ws[i] != w
      invariant 0 <= i < |ws| && w !in ws[..i]
      decreases |ws| - i
    {
      i := i + 1;
    }
    rest := ws[..i] + ws[i + 1..];
    OthersWithout(ws, i);
  }

  lemma {:induction false} OthersAbsent<T>(ws: seq<T>, w: T)
    requires w !in ws
    ensures Others(ws, w) == ws
  {
    if ws != [] {
      OthersAbsent(ws[..|ws| - 1], w);
    }
  }

  lemma {:induction false} OthersWithout<T>(ws: seq<T>, i: nat)
    requires NoDuplicates(ws) && i < |ws|
    ensures Others(ws, ws[i]) == ws[..i] + ws[i + 1..]
  {
    var n := |ws| - 1;
    if i == n {
      OthersAbsent(ws[..n], ws[n]);
    } else {
      OthersWithout(ws[..n], i);
      assert ws[..i] + ws[i + 1..] == ws[..n][..i] + ws[..n][i + 1..] + [ws[n]];
    }
  }

  lemma {:induction false} OthersIdempotent<T>(ws: seq<T>, w: T)
    requires NoDuplicates(ws)
    ensures Others(Others(ws, w), w) == Others(ws, w)
  {
    OthersMembers(ws, w);
    OthersAbsent(Others(ws, w), w);
  }

  /** After the last editor leaves, whoever opens the file next gets exactly the symbols that were
  in memory at that moment. */
  method CloseThenReopen(server: Server, filename: string, last: ServerWorker, next: ServerWorker)
    returns (content: seq<Symbol>)
    requires server.Valid() && server.Coherent() && filename in server.store
    requires filename in server.mapFileWorkers && server.mapFileWorkers[filename] == [last]
    requires next != last && next.filename == ""
    modifies server, last, next
    ensures server.Valid() && server.Coherent()
    ensures filename in server.symbolsList && server.symbolsList[filename] == old(server.symbolsList)[filename]
    ensures Loaded(content) == old(server.symbolsList)[filename]
  {
    assert filename != "";
    CloseLast(server, filename, last);
    content := OpenStored(server, filename, next);
  }

  method OpenStored(server: Server, filename: string, next: ServerWorker) returns (content: seq<Symbol>)
    requires server.Valid() && server.Coherent() && filename !in server.symbolsList && filename in server.store
    requires next.filename == "" && filename != ""
    modifies server, next
    ensures server.Valid() && server.Coherent() && content == old(server.store)[filename]
    ensures filename in server.symbolsList && server.symbolsList[filename] == Loaded(content)
  {
    var success, users, pictures, relayed;
    success, content, users, pictures, relayed := server.SendFile(filename, next);
  }

  method CloseLast(server: Server, filename: string, last: ServerWorker)
    requires server.Valid() && server.Coherent() && filename in server.store
    requires filename in server.mapFileWorkers && server.mapFileWorkers[filename] == [last]
    modifies server, last
    ensures server.Valid() && server.Coherent() && filename !in server.symbolsList && filename in server.store
    ensures Loaded(server.store[filename]) == old(server.symbolsList)[filename]
  {
    OthersSingle(last);
    var ok := server.CloseFile(filename, last);
  }

  /** How coherence is lost: a worker opens a file that does not exist and edits it, the periodic
  save clears its flag although nothing was stored, and then somebody creates the file. */
  method PhantomFile(server: Server, opener: ServerWorker, creator: ServerWorker, file: string, s: Symbol)
    requires server.Valid() && server.Coherent() && file != "" && file !in server.store && file !in server.symbolsList
    requires opener != creator && opener.filename == "" && creator.filename == ""
    modifies server, opener, creator
    ensures server.Valid() && !server.Coherent()
    ensures file in server.store && file in server.changed && !server.changed[file]
  {
    EditUnknownFile(server, opener, file, s);
    var created := server.CreateNewFile(file, creator, true);
  }

  method EditUnknownFile(server: Server, opener: ServerWorker, file: string, s: Symbol)
    requires server.Valid() && server.Coherent() && file != "" && file !in server.store && file !in server.symbolsList
    requires opener.filename == ""
    modifies server, opener
    ensures server.Valid() && server.Coherent() && file !in server.store
    ensures file in server.symbolsList && server.symbolsList[file] != map[] && !server.changed[file]
  {
    OpenAndEdit(server, opener, file, s);
    server.SaveFile();
  }

  method OpenAndEdit(server: Server, opener: ServerWorker, file: string, s: Symbol)
    requires server.Valid() && server.Coherent() && file != "" && file !in server.store && file !in server.symbolsList
    requires opener.filename == ""
    modifies server, opener
    ensures server.Valid() && server.Coherent() && server.store == old(server.store)
    ensures file in server.symbolsList && server.symbolsList[file] != map[]
  {
    var success, content, users, pictures, relayed := server.SendFile(file, opener);
    relayed := server.SingleOperation(opener, Some(s));
    assert Key(s.position) in server.symbolsList[file];
  }
}

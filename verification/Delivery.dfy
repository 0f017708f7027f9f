/** The server's and the clients' steps of `EndToEnd`, and the agreement theorem. */
module Delivery {
  import opened Positions
  import opened Generation
  import opened Documents
  import opened Lines
  import opened ClientDocument
  import opened ReplayAgreement
  import opened PositionKey
  import opened EndToEnd
  import opened Membership

  // ----- The server's map -----

  function EditsOf(kind: Kind, ss: seq<Symbol>): seq<Edit> {
    Edits(Message(kind, ss))
  }

  lemma {:induction false} EditsSnoc(kind: Kind, ss: seq<Symbol>)
    requires ss != []
    ensures var n := |ss| - 1;
            EditsOf(kind, ss)[..n] == EditsOf(kind, ss[..n]) && EditsOf(kind, ss)[n] == EditOf(kind, ss[n])
    ensures |EditsOf(kind, ss)| == |ss|
  {
  }

  /** A symbol is in the map exactly under its own key. */
  lemma {:induction false} ContentsMember(m: SymbolMap, x: Symbol)
    requires Keyed(m)
    ensures Contents(m)[x] <= 1
    ensures x in Contents(m) <==> Key(x.position) in m && m[Key(x.position)] == x
  {
    if x in m.Values {
      var k :| k in m && m[k] == x;
    }
  }

  lemma {:induction false} PutContents(m: SymbolMap, s: Symbol, x: Symbol)
    requires Keyed(m) && Key(s.position) !in m
    ensures Keyed(Apply(m, Put(s)))
    ensures Contents(Apply(m, Put(s)))[x] == Contents(m)[x] + if x == s then 1 else 0
  {
    var r := Apply(m, Put(s));
    ApplyKeepsKeyed(m, Put(s));
    ContentsMember(m, x);
    ContentsMember(r, x);
    KeyInjective(x.position, s.position);
  }

  lemma {:induction false} DropContents(m: SymbolMap, s: Symbol, x: Symbol)
    requires Keyed(m) && s in Contents(m)
    ensures Keyed(Apply(m, Drop(s)))
    ensures Contents(Apply(m, Drop(s)))[x] == Contents(m)[x] - if x == s then 1 else 0
  {
    var r := Apply(m, Drop(s));
    ContentsMember(m, x);
    ContentsMember(m, s);
    ContentsMember(r, x);
    KeyInjective(x.position, s.position);
  }

  lemma {:induction false} CountSnoc(ss: seq<Symbol>, x: Symbol)
    requires ss != []
    ensures Count(ss, x) == Count(ss[..|ss| - 1], x) + if ss[|ss| - 1] == x then 1 else 0
  {
    assert ss == ss[..|ss| - 1] + [ss[|ss| - 1]];
  }

  lemma {:induction false} ApplyOne(m: SymbolMap, kind: Kind, ss: seq<Symbol>, i: nat)
    requires i < |ss|
    ensures ApplyAll(m, EditsOf(kind, ss[..i + 1])) == Apply(ApplyAll(m, EditsOf(kind, ss[..i])), EditOf(kind, ss[i]))
  {
    EditsSnoc(kind, ss[..i + 1]);
    assert ss[..i + 1][..i] == ss[..i];
  }

  /** Storing symbols adds only their keys. */
  lemma {:induction false} PutAllKeys(m: SymbolMap, kind: Kind, ss: seq<Symbol>, p: Position)
    requires kind != Erased && forall i :: 0 <= i < |ss| ==> ss[i].position != p
    ensures Key(p) in ApplyAll(m, EditsOf(kind, ss)) <==> Key(p) in m
    decreases |ss|
  {
    if ss == [] {
      assert EditsOf(kind, ss) == [];
    } else {
      EditsSnoc(kind, ss);
      PutAllKeys(m, kind, ss[..|ss| - 1], p);
      KeyInjective(ss[|ss| - 1].position, p);
    }
  }

  /** Storing the symbols of a message adds them, when their positions are new. */
  lemma {:induction false} PutAll(m: SymbolMap, kind: Kind, ss: seq<Symbol>, x: Symbol)
    requires Keyed(m) && kind != Erased && Distinct(ss)
    requires forall i :: 0 <= i < |ss| ==> Key(ss[i].position) !in m
    ensures Keyed(ApplyAll(m, EditsOf(kind, ss)))
    ensures Contents(ApplyAll(m, EditsOf(kind, ss)))[x] == Contents(m)[x] + Count(ss, x)
    decreases |ss|
  {
    if ss == [] {
      assert EditsOf(kind, ss) == [];
    } else {
      var n := |ss| - 1;
      PutAll(m, kind, ss[..n], x);
      CountSnoc(ss, x);
      PutAllKeys(m, kind, ss[..n], ss[n].position);
      assert ss[..n + 1] == ss;
      ApplyOne(m, kind, ss, n);
      PutContents(ApplyAll(m, EditsOf(kind, ss[..n])), ss[n], x);
    }
  }

  /** `r` is what is left of `m` without some of its symbols. */
  ghost predicate Dropped(m: SymbolMap, ss: seq<Symbol>, r: SymbolMap) {
    Keyed(r) && forall x :: Contents(r)[x] + Count(ss, x) == Contents(m)[x]
  }

  /** Dropping the symbols of a message takes them away, when they are stored. */
  lemma {:induction false} DropAll(m: SymbolMap, ss: seq<Symbol>)
    requires Keyed(m) && Distinct(ss)
    requires forall i :: 0 <= i < |ss| ==> ss[i] in Contents(m)
    ensures Dropped(m, ss, ApplyAll(m, EditsOf(Erased, ss)))
    decreases |ss|
  {
    DropFirst(m, ss, |ss|);
    assert ss[..|ss|] == ss;
  }

  lemma {:induction false} DropFirst(m: SymbolMap, ss: seq<Symbol>, n: nat)
    requires Keyed(m) && Distinct(ss) && n <= |ss|
    requires forall i :: 0 <= i < |ss| ==> ss[i] in Contents(m)
    ensures Dropped(m, ss[..n], ApplyAll(m, EditsOf(Erased, ss[..n])))
  {
    if n == 0 {
      assert EditsOf(Erased, ss[..0]) == [];
    } else {
      DropFirst(m, ss, n - 1);
      DropMore(m, ss, n - 1);
    }
  }

  lemma {:induction false} DropMore(m: SymbolMap, ss: seq<Symbol>, n: nat)
    requires n < |ss| && Distinct(ss) && ss[n] in Contents(m)
    requires Dropped(m, ss[..n], ApplyAll(m, EditsOf(Erased, ss[..n])))
    ensures Dropped(m, ss[..n + 1], ApplyAll(m, EditsOf(Erased, ss[..n + 1])))
  {
    ApplyOne(m, Erased, ss, n);
    DropOne(m, ApplyAll(m, EditsOf(Erased, ss[..n])), ss, n);
  }

  lemma {:induction false} DropOne(m: SymbolMap, r: SymbolMap, ss: seq<Symbol>, n: nat)
    requires n < |ss| && Distinct(ss) && ss[n] in Contents(m) && Dropped(m, ss[..n], r)
    ensures Dropped(m, ss[..n + 1], Apply(r, Drop(ss[n])))
  {
    var s := ss[n];
    assert ss[..n + 1] == ss[..n] + [s];
    assert forall i :: 0 <= i < n ==> ss[..n][i] == ss[i];
    assert Contents(r)[s] + Count(ss[..n], s) == Contents(m)[s];
    assert s in Contents(r);
    DropContents(r, s, s);
    forall x ensures Contents(Apply(r, Drop(s)))[x] + Count(ss[..n + 1], x) == Contents(m)[x] {
      DropContents(r, s, x);
      assert Contents(r)[x] + Count(ss[..n], x) == Contents(m)[x];
    }
  }

  // ----- A message that the server takes -----

  lemma {:induction false} CountTwice(ss: seq<Symbol>, i: nat, j: nat)
    requires i < j < |ss| && ss[i] == ss[j]
    ensures Count(ss, ss[i]) >= 2
  {
    assert ss == ss[..i] + [ss[i]] + ss[i + 1..j] + [ss[j]] + ss[j + 1..];
  }

  /** Symbols counted once, with positions that determine them, have distinct positions. */
  lemma {:induction false} CountedOnce(ss: seq<Symbol>)
    requires forall x :: Count(ss, x) <= 1
    requires forall x, y :: x in ss && y in ss && x.position == y.position ==> x == y
    ensures Distinct(ss)
  {
    forall i, j | 0 <= i < j < |ss| ensures ss[i].position != ss[j].position {
      if ss[i] == ss[j] {
        CountTwice(ss, i, j);
      }
    }
  }

  lemma {:induction false} UpHead(s: State, c: nat, op: Op, x: Symbol)
    requires c < |s.up| && s.up[c] != []
    ensures Count(Of(s.up[c][0], op), x) <= Content(s.up[c], op, x) <= Up(s.up, -1, op, x)
  {
    UpAtLeast(s.up, c, -1, op, x);
  }

  /** An insertion reaching the server brings new positions, each once. */
  lemma {:induction false} ServerAcceptsInsert(s: State, t: Symbol, c: nat)
    requires Inv(s, t) && c < |s.up| && s.up[c] != [] && s.up[c][0].kind != Erased
    ensures var ss := s.up[c][0].symbols;
            Distinct(ss) && forall i :: 0 <= i < |ss| ==> Key(ss[i].position) !in s.server
  {
    var ss := s.up[c][0].symbols;
    forall x ensures Count(ss, x) <= 1 && (x in ss ==> x in s.inserted && x !in Contents(s.server)) {
      UpHead(s, c, Ins, x);
      CountMember(ss, x);
    }
    CountedOnce(ss);
    forall i, k | 0 <= i < |ss| && k in s.server ensures k != Key(ss[i].position) {
      var y := s.server[k];
      assert y in Contents(s.server) && ss[i] in s.inserted && ss[i] !in Contents(s.server);
      assert y in s.inserted by {
        assert Up(s.up, -1, Del, y) <= s.erased[y];
      }
      KeyInjective(y.position, ss[i].position);
    }
  }

  /** An erasure reaching the server names stored symbols, each once. */
  lemma {:induction false} ServerAcceptsErase(s: State, t: Symbol, c: nat)
    requires Inv(s, t) && c < |s.up| && s.up[c] != [] && s.up[c][0].kind == Erased
    ensures var ss := s.up[c][0].symbols;
            Distinct(ss) && forall i :: 0 <= i < |ss| ==> ss[i] in Contents(s.server)
  {
    var ss := s.up[c][0].symbols;
    forall x ensures Count(ss, x) <= 1 && (x in ss ==> x in s.inserted && x in Contents(s.server)) {
      UpHead(s, c, Del, x);
      CountMember(ss, x);
      if x in ss {
        NothingBehindErasure(s, c, x);
      }
    }
    CountedOnce(ss);
  }

  lemma {:induction false} NothingBehindErasure(s: State, c: nat, x: Symbol)
    requires Ordered(s.up, s.down) && c < |s.up| && s.up[c] != [] && x in Of(s.up[c][0], Del)
    ensures Up(s.up, -1, Ins, x) == 0
  {
    UpMember(s.up, -1, Ins, x);
    ContentMember(s.up[c], Del, x);
    assert s.up[c] + [] == s.up[c];
    CausalBehind(s.up[c], [], x);
    forall j | 0 <= j < |s.up| ensures Content(s.up[j], Ins, x) == 0 {
      assert j != c ==> Content(s.up[c], Del, x) > 0;
    }
  }

  // ----- The server's step -----

  lemma {:induction false} ServerInbound(s: State, s': State, c: nat, e: nat, op: Op, x: Symbol)
    requires ServerStep(s, s', c) && |s.docs| == |s.down| && e < |s.docs|
    ensures Inbound(s', e, op, x) == Inbound(s, e, op, x)
    ensures Up(s'.up, -1, op, x) == Up(s.up, -1, op, x) - Count(Of(s.up[c][0], op), x)
  {
    var m := s.up[c][0];
    UpUpdate(s.up, c, s.up[c][1..], e, op, x);
    UpUpdate(s.up, c, s.up[c][1..], -1, op, x);
    ContentSnoc(s.down[e], m, op, x);
  }

  lemma {:induction false} ServerContents(s: State, t: Symbol, c: nat, x: Symbol)
    requires Inv(s, t) && c < |s.up| && s.up[c] != []
    ensures var m := s.up[c][0];
            var r := ApplyAll(s.server, Edits(m));
            Keyed(r) && Contents(r)[x] + Count(Of(m, Del), x) == Contents(s.server)[x] + Count(Of(m, Ins), x)
  {
    var m := s.up[c][0];
    if m.kind == Erased {
      ServerAcceptsErase(s, t, c);
    } else {
      ServerAcceptsInsert(s, t, c);
    }
    EditedContents(s.server, m, x);
  }

  lemma {:induction false} EditedContents(server: SymbolMap, m: Message, x: Symbol)
    requires Keyed(server) && Distinct(m.symbols)
    requires m.kind == Erased ==> forall i :: 0 <= i < |m.symbols| ==> m.symbols[i] in Contents(server)
    requires m.kind != Erased ==> forall i :: 0 <= i < |m.symbols| ==> Key(m.symbols[i].position) !in server
    ensures var r := ApplyAll(server, Edits(m));
            Keyed(r) && Contents(r)[x] + Count(Of(m, Del), x) == Contents(server)[x] + Count(Of(m, Ins), x)
  {
    assert m == Message(m.kind, m.symbols);
    if m.kind == Erased {
      DropAll(server, m.symbols);
    } else {
      PutAll(server, m.kind, m.symbols, x);
    }
  }

  lemma {:induction false} ServerLaws(s: State, s': State, c: nat, t: Symbol)
    requires Inv(s, t) && ServerStep(s, s', c)
    ensures Laws(s')
  {
    forall e, x | 0 <= e < |s'.docs|
      ensures Count(s'.docs[e], x) + Inbound(s', e, Ins, x) + s'.erased[x]
           == s'.inserted[x] + Inbound(s', e, Del, x)
      ensures Inbound(s', e, Del, x) <= s'.erased[x] && Inbound(s', e, Ins, x) <= s'.inserted[x]
    {
      assert Conserved(s, e);
      ServerInbound(s, s', c, e, Ins, x);
      ServerInbound(s, s', c, e, Del, x);
    }
    forall x
      ensures Contents(s'.server)[x] + Up(s'.up, -1, Ins, x) + s'.erased[x]
           == s'.inserted[x] + Up(s'.up, -1, Del, x)
      ensures Up(s'.up, -1, Del, x) <= s'.erased[x] && Up(s'.up, -1, Ins, x) <= s'.inserted[x]
    {
      ServerInbound(s, s', c, c, Ins, x);
      ServerInbound(s, s', c, c, Del, x);
      ServerContents(s, t, c, x);
    }
  }

  lemma {:induction false} CausalTail(q: seq<Message>, r: seq<Message>)
    requires q != [] && Causal(q + r)
    ensures Causal(q[1..] + r)
  {
    var a, b := q + r, q[1..] + r;
    assert forall i :: 0 <= i < |b| ==> b[i] == a[i + 1];
  }

  /** Moving the first message of `u` behind `d` keeps the path through `v` causal. */
  lemma {:induction false} CausalRelay(d: seq<Message>, u: seq<Message>, v: seq<Message>)
    requires u != [] && Causal(d + u) && Causal(d + v)
    requires forall x :: x in Of(u[0], Del) ==> Content(v, Ins, x) == 0
    ensures Causal(d + [u[0]] + v)
  {
    var a, b, r := d + u, d + v, d + [u[0]] + v;
    forall i, k, x | 0 <= i <= k < |r| && x in Of(r[i], Del) ensures x !in Of(r[k], Ins) {
      if k <= |d| {
        assert r[i] == a[i] && r[k] == a[k];
      } else if i == |d| {
        ContentMember(v, Ins, x);
        assert r[k] == v[k - |d| - 1];
      } else {
        assert r[i] == b[if i < |d| then i else i - 1] && r[k] == b[k - 1];
      }
    }
  }

  lemma {:induction false} RelayedCausal(s: State, s': State, c: nat, j: nat, e: nat)
    requires ServerStep(s, s', c) && |s.docs| == |s.down| && Ordered(s.up, s.down)
    requires j < |s.up| && e < |s.down| && j != e
    ensures Causal(s'.down[e] + s'.up[j])
  {
    var u := s.up[c];
    assert Causal(s.down[e] + s.up[j]);
    if j == c {
      assert s.down[e] + [u[0]] + u[1..] == s.down[e] + u;
    } else if e != c {
      assert Causal(s.down[e] + u);
      forall x | x in Of(u[0], Del) ensures Content(s.up[j], Ins, x) == 0 {
        ContentMember(u, Del, x);
      }
      CausalRelay(s.down[e], u, s.up[j]);
    }
  }

  lemma {:induction false} ServerOrdered(s: State, s': State, c: nat)
    requires ServerStep(s, s', c) && |s.docs| == |s.down| && Ordered(s.up, s.down)
    ensures Ordered(s'.up, s'.down)
  {
    var u := s.up[c];
    assert u[1..] + [] == u[1..] && u + [] == u;
    CausalTail(u, []);
    forall j, e | 0 <= j < |s'.up| && 0 <= e < |s'.down| && j != e ensures Causal(s'.down[e] + s'.up[j]) {
      RelayedCausal(s, s', c, j, e);
    }
    forall e | 0 <= e < |s'.down| ensures Causal(s'.down[e]) {
      assert Causal(s.down[e]);
      if e != c {
        assert Causal(s.down[e] + u);
        CausalRelay(s.down[e], u, []);
        assert s.down[e] + [] == s.down[e] && s.down[e] + [u[0]] + [] == s.down[e] + [u[0]];
      }
    }
    forall i, j, x | 0 <= i < |s'.up| && 0 <= j < |s'.up| && i != j && Content(s'.up[j], Del, x) > 0
      ensures Content(s'.up[i], Ins, x) == 0
    {
      assert Content(u, Del, x) >= Content(u[1..], Del, x) && Content(u, Ins, x) >= Content(u[1..], Ins, x);
      assert Content(s.up[j], Del, x) > 0 ==> Content(s.up[i], Ins, x) == 0;
    }
  }

  lemma {:induction false} ServerKeepsInv(s: State, s': State, c: nat, t: Symbol)
    requires Inv(s, t) && ServerStep(s, s', c)
    ensures Inv(s', t)
  {
    ServerLaws(s, s', c, t);
    ServerOrdered(s, s', c);
    ServerContents(s, t, c, t);
  }

  /** Nobody erases the terminator. */
  lemma {:induction false} ServerKeepsTerminator(s: State, s': State, c: nat, t: Symbol)
    requires Inv(s, t) && ServerStep(s, s', c) && Seated(s, t)
    ensures Seated(s', t)
  {
    ServerContents(s, t, c, t);
    UpHead(s, c, Del, t);
  }

  // ----- A client's step -----

  lemma {:induction false} Held(s: State, t: Symbol, c: nat, x: Symbol)
    requires Inv(s, t) && c < |s.docs| && x in s.docs[c]
    ensures x in s.inserted
  {
    assert Conserved(s, c);
    assert Inbound(s, c, Del, x) <= s.erased[x];
    CountMember(s.docs[c], x);
  }

  /** A relayed insertion fits the client's document: the handler's precondition holds. */
  lemma {:induction false} ClientAcceptsInsert(s: State, t: Symbol, c: nat)
    requires Inv(s, t) && c < |s.down| && s.down[c] != [] && s.down[c][0].kind != Erased
    ensures Insertable(s.docs[c], s.down[c][0].symbols)
    ensures forall i :: 0 <= i < |s.down[c][0].symbols| ==> s.down[c][0].symbols[i].value != TERMINATOR
  {
    var d, ss := s.docs[c], s.down[c][0].symbols;
    assert Conserved(s, c);
    assert t in d;
    forall x ensures Count(ss, x) <= 1 && (x in ss ==> x in s.inserted && x !in d && x != t) {
      assert Inbound(s, c, Del, x) <= s.erased[x];
      CountMember(ss, x);
      CountMember(d, x);
    }
    CountedOnce(ss);
    forall i | 0 <= i < |ss| ensures NewBelowLast(d, ss[i]) && ss[i].value != TERMINATOR {
      assert ss[i] in s.inserted && ss[i] != t;
      forall k | 0 <= k < |d| ensures d[k].position != ss[i].position {
        Held(s, t, c, d[k]);
        assert ss[i] !in d;
      }
    }
  }

  lemma {:induction false} NothingBehindRelay(s: State, c: nat, x: Symbol)
    requires Ordered(s.up, s.down) && c < |s.down| && s.down[c] != [] && x in Of(s.down[c][0], Del)
    ensures Inbound(s, c, Ins, x) == 0
  {
    var q := s.down[c];
    assert q + [] == q;
    CausalBehind(q, [], x);
    UpMember(s.up, c, Ins, x);
    forall j | 0 <= j < |s.up| && j != c ensures Content(s.up[j], Ins, x) == 0 {
      CausalBehind(q, s.up[j], x);
    }
  }

  /** Behind a message that erases a symbol nothing inserts it. */
  lemma {:induction false} CausalBehind(q: seq<Message>, u: seq<Message>, x: Symbol)
    requires Causal(q + u) && q != [] && x in Of(q[0], Del)
    ensures Content(q, Ins, x) == 0 && Content(u, Ins, x) == 0
  {
    var p := q + u;
    assert p[0] == q[0];
    ContentMember(q, Ins, x);
    ContentMember(u, Ins, x);
    forall k | 0 <= k < |q| ensures x !in Of(q[k], Ins) {
      assert p[k] == q[k];
    }
    forall k | 0 <= k < |u| ensures x !in Of(u[k], Ins) {
      assert p[|q| + k] == u[k];
    }
  }

  lemma {:induction false} ErasedOnce(s: State, t: Symbol, c: nat, x: Symbol)
    requires Inv(s, t) && c < |s.down| && s.down[c] != [] && s.down[c][0].kind == Erased
    ensures var ss := s.down[c][0].symbols;
            Count(ss, x) <= 1 && (x in ss ==> x in s.inserted && x in s.docs[c] && x != t)
  {
    var d, ss := s.docs[c], s.down[c][0].symbols;
    assert Conserved(s, c);
    assert Inbound(s, c, Del, x) <= s.erased[x];
    CountMember(ss, x);
    CountMember(d, x);
    if x in ss {
      NothingBehindRelay(s, c, x);
    }
  }

  /** A relayed erasure names symbols that the client holds, before the terminator. */
  lemma {:induction false} ClientAcceptsErase(s: State, t: Symbol, c: nat)
    requires Inv(s, t) && c < |s.down| && s.down[c] != [] && s.down[c][0].kind == Erased
    ensures Erasable(s.docs[c], s.down[c][0].symbols) && Distinct(s.down[c][0].symbols)
    ensures forall x :: x in s.down[c][0].symbols ==> x in s.docs[c] && x != t
  {
    var d, ss := s.docs[c], s.down[c][0].symbols;
    forall x ensures Count(ss, x) <= 1 && (x in ss ==> x in s.inserted && x in d && x != t) {
      ErasedOnce(s, t, c, x);
    }
    CountedOnce(ss);
    HeldErasable(d, ss, t);
  }

  lemma {:induction false} HeldErasable(d: Document, ss: seq<Symbol>, t: Symbol)
    requires DocumentValid(d, t) && t.value == TERMINATOR && Distinct(ss)
    requires forall x :: x in ss ==> x in d && x != t
    ensures Erasable(d, ss)
  {
    forall i | 0 <= i < |ss| ensures Removable(d, ss[i]) {
      assert ss[i] in d;
      var k :| 0 <= k < |d| && d[k] == ss[i];
      assert StoredAt(d, k, ss[i]) && k < |d| - 1;
    }
  }

  lemma {:induction false} ClientAccepts(s: State, t: Symbol, c: nat)
    requires Inv(s, t) && c < |s.down| && s.down[c] != []
    ensures Acceptable(s.docs[c], s.down[c][0])
  {
    if s.down[c][0].kind == Erased {
      ClientAcceptsErase(s, t, c);
    } else {
      ClientAcceptsInsert(s, t, c);
    }
  }

  lemma {:induction false} InsertAllKeeps(d: Document, ss: seq<Symbol>, t: Symbol, x: Symbol)
    requires DocumentValid(d, t) && Insertable(d, ss)
    ensures DocumentValid(InsertAll(d, ss), t)
    ensures Count(InsertAll(d, ss), x) == Count(d, x) + Count(ss, x)
    decreases |ss|
  {
    AllInserted(d, ss);
    if ss != [] {
      var n := |ss| - 1;
      assert forall i :: 0 <= i < n ==> ss[..n][i] == ss[i];
      InsertAllKeeps(d, ss[..n], t, x);
      CountSnoc(ss, x);
      var r, s := InsertAll(d, ss[..n]), ss[n];
      assert NewBelowLast(d, s);
      InsertAtContents(r, CountLess(r, s.position), s);
      InsertKeepsWellFormed(r, CountLess(r, s.position), s);
    }
  }

  lemma {:induction false} WithoutAllKeeps(d: Document, ss: seq<Symbol>, t: Symbol)
    requires DocumentValid(d, t) && Distinct(ss) && forall x :: x in ss ==> x in d && x != t
    ensures DocumentValid(WithoutAll(d, ss), t)
    ensures forall x :: Count(WithoutAll(d, ss), x) + Count(ss, x) == Count(d, x)
    decreases |ss|
  {
    if ss != [] {
      var n := |ss| - 1;
      var s := ss[n];
      assert forall x :: x in ss[..n] ==> x in ss;
      assert Distinct(ss[..n]);
      WithoutAllKeeps(d, ss[..n], t);
      assert s in ss && s !in ss[..n];
      WithoutStep(d, WithoutAll(d, ss[..n]), ss[..n], s, t);
      assert ss == ss[..n] + [s];
    }
  }

  /** One more erasure. */
  lemma {:induction false} WithoutStep(d: Document, r: Document, ss: seq<Symbol>, s: Symbol, t: Symbol)
    requires DocumentValid(r, t) && s in d && s != t && s !in ss
    requires forall x :: Count(r, x) + Count(ss, x) == Count(d, x)
    ensures DocumentValid(Without(r, s.position), t)
    ensures forall x :: Count(Without(r, s.position), x) + Count(ss + [s], x) == Count(d, x)
  {
    CountMember(ss, s);
    CountMember(d, s);
    CountMember(r, s);
    var k :| 0 <= k < |r| && r[k] == s;
    WithoutPresent(r, k);
    RemoveBeforeLast(r, k, t);
    RemoveAtKeepsSorted(r, k);
    CountsWithout(d, r, RemoveAt(r, k), ss, s);
  }

  lemma {:induction false} CountsWithout(d: Document, r: Document, after: Document, ss: seq<Symbol>, s: Symbol)
    requires multiset(after) == multiset(r) - multiset{s} && s in r
    requires forall x :: Count(r, x) + Count(ss, x) == Count(d, x)
    ensures forall x :: Count(after, x) + Count(ss + [s], x) == Count(d, x)
  {
  }

  lemma {:induction false} RemoveBeforeLast(r: Document, k: nat, t: Symbol)
    requires DocumentValid(r, t) && k < |r| && r[k] != t
    ensures DocumentValid(RemoveAt(r, k), t)
  {
    RemoveKeepsShape(r, k);
    RemoveAtKeepsSorted(r, k);
    assert RemoveAt(r, k)[|r| - 2] == t;
  }

  /** What handling the oldest relayed message does to the client's counts. */
  lemma {:induction false} ReceiveEffect(s: State, t: Symbol, c: nat, x: Symbol)
    requires Inv(s, t) && c < |s.down| && s.down[c] != []
    ensures var m, d := s.down[c][0], s.docs[c];
            && DocumentValid(Receive(d, m), t)
            && Count(Receive(d, m), x) + Count(Of(m, Del), x) == Count(d, x) + Count(Of(m, Ins), x)
  {
    var m, d := s.down[c][0], s.docs[c];
    if m.kind == Erased {
      ClientAcceptsErase(s, t, c);
      WithoutAllKeeps(d, m.symbols, t);
    } else {
      ClientAcceptsInsert(s, t, c);
      ReceiveInsertion(d, m, t, x);
    }
  }

  lemma {:induction false} ReceiveInsertion(d: Document, m: Message, t: Symbol, x: Symbol)
    requires DocumentValid(d, t) && m.kind != Erased && Insertable(d, m.symbols)
    requires forall i :: 0 <= i < |m.symbols| ==> m.symbols[i].value != TERMINATOR
    ensures DocumentValid(Receive(d, m), t)
    ensures Count(Receive(d, m), x) == Count(d, x) + Count(m.symbols, x)
  {
    InsertAllKeeps(d, m.symbols, t, x);
    if m.kind == PastedText {
      PasteKeepsAlignment(d, m.symbols, t);
    }
  }

  lemma {:induction false} PasteKeepsAlignment(d: Document, ss: seq<Symbol>, t: Symbol)
    requires DocumentValid(d, t) && Insertable(d, ss)
    requires forall i :: 0 <= i < |ss| ==> ss[i].value != TERMINATOR
    ensures AlignAll(InsertAll(d, ss), ss) == InsertAll(d, ss)
  {
    var r := InsertAll(d, ss);
    forall i | 0 <= i < |ss| ensures ss[i] in r {
      InsertAllKeeps(d, ss, t, ss[i]);
      CountMember(ss, ss[i]);
      CountMember(r, ss[i]);
    }
    AllInserted(d, ss);
    NewlinesKeepAlignment(r, ss);
  }

  lemma {:induction false} ClientLaws(s: State, s': State, c: nat, t: Symbol)
    requires Inv(s, t) && ClientStep(s, s', c)
    ensures Laws(s')
  {
    forall e, x | 0 <= e < |s'.docs|
      ensures Count(s'.docs[e], x) + Inbound(s', e, Ins, x) + s'.erased[x]
           == s'.inserted[x] + Inbound(s', e, Del, x)
      ensures Inbound(s', e, Del, x) <= s'.erased[x] && Inbound(s', e, Ins, x) <= s'.inserted[x]
    {
      assert Conserved(s, e);
      if e == c {
        ReceiveEffect(s, t, c, x);
      }
    }
  }

  lemma {:induction false} ClientOrdered(s: State, s': State, c: nat)
    requires ClientStep(s, s', c) && |s.docs| == |s.up| && Ordered(s.up, s.down)
    ensures Ordered(s'.up, s'.down)
  {
    forall e | 0 <= e < |s'.down| ensures Causal(s'.down[e]) {
      assert Causal(s.down[e]);
      if e == c {
        assert s.down[c] + [] == s.down[c] && s.down[c][1..] + [] == s.down[c][1..];
        CausalTail(s.down[c], []);
      }
    }
    forall j, e | 0 <= j < |s'.up| && 0 <= e < |s'.down| && j != e ensures Causal(s'.down[e] + s'.up[j]) {
      assert Causal(s.down[e] + s.up[j]);
      if e == c {
        CausalTail(s.down[c], s.up[j]);
      }
    }
  }

  lemma {:induction false} ClientKeepsInv(s: State, s': State, c: nat, t: Symbol)
    requires Inv(s, t) && ClientStep(s, s', c)
    ensures Inv(s', t)
  {
    ClientLaws(s, s', c, t);
    ClientOrdered(s, s', c);
    ReceiveEffect(s, t, c, t);
  }

  // ----- Agreement -----

  lemma {:induction false} InitialLaws(s: State, d: Document)
    requires Initial(s, d)
    ensures Laws(s)
  {
    forall x ensures Up(s.up, -1, Ins, x) == 0 && Up(s.up, -1, Del, x) == 0 {
      UpEmpty(s.up, -1, Ins, x);
      UpEmpty(s.up, -1, Del, x);
    }
    forall c: nat, x | c < |s.docs| ensures Inbound(s, c, Ins, x) == 0 && Inbound(s, c, Del, x) == 0 {
      UpEmpty(s.up, c, Ins, x);
      UpEmpty(s.up, c, Del, x);
    }
    assert forall x :: Contents(s.server)[x] == s.inserted[x] && s.erased[x] == 0;
  }

  lemma {:induction false} BelowLast(d: Document, x: Symbol)
    requires Sorted(d) && AllWellFormed(d) && x in d
    requires forall i :: 0 <= i < |d| ==> (d[i].value == TERMINATOR <==> i == |d| - 1)
    ensures WellFormed(x.position)
    ensures x == d[|d| - 1] || (Less(x.position, d[|d| - 1].position) && x.value != TERMINATOR)
  {
  }

  lemma {:induction false} InitialHistory(d: Document)
    requires Sorted(d) && AllWellFormed(d) && d != []
    requires forall i :: 0 <= i < |d| ==> (d[i].value == TERMINATOR <==> i == |d| - 1)
    ensures History(multiset(d), multiset{}, d[|d| - 1])
  {
    SortedDistinct(d);
    forall x ensures multiset(d)[x] <= 1 {
      DistinctCount(d, x);
      assert Count(d, x) == multiset(d)[x];
    }
    forall x | x in multiset(d)
      ensures WellFormed(x.position)
      ensures x == d[|d| - 1] || (Less(x.position, d[|d| - 1].position) && x.value != TERMINATOR)
    {
      BelowLast(d, x);
    }
  }

  lemma {:induction false} InitialOrdered(s: State, d: Document)
    requires Initial(s, d)
    ensures Ordered(s.up, s.down)
  {
    forall j, x | 0 <= j < |s.up| ensures Content(s.up[j], Del, x) == 0 {
    }
  }

  lemma {:induction false} InitialDocuments(s: State, d: Document)
    requires Initial(s, d)
    ensures forall c :: 0 <= c < |s.docs| ==> DocumentValid(s.docs[c], d[|d| - 1])
  {
  }

  lemma {:induction false} InitialInv(s: State, d: Document)
    requires Initial(s, d)
    ensures Inv(s, d[|d| - 1]) && Seated(s, d[|d| - 1])
  {
    InitialLaws(s, d);
    InitialHistory(d);
    InitialOrdered(s, d);
    InitialDocuments(s, d);
    assert d[|d| - 1] in multiset(d);
  }

  lemma {:induction false} NextKeepsInv(s: State, s': State, t: Symbol)
    requires Inv(s, t) && Seated(s, t) && Next(s, s')
    ensures Inv(s', t) && Seated(s', t)
  {
    if c: nat, k: nat, m :| InsertStep(s, s', c, k, m) {
      InsertKeepsInv(s, s', c, k, m, t);
    } else if c: nat, k: nat, n: nat :| EraseStep(s, s', c, k, n) {
      EraseKeepsInv(s, s', c, k, n, t);
    } else if c: nat :| ServerStep(s, s', c) {
      ServerKeepsInv(s, s', c, t);
      ServerKeepsTerminator(s, s', c, t);
    } else if c: nat :| ClientStep(s, s', c) {
      ClientKeepsInv(s, s', c, t);
    } else if d :| JoinStep(s, s', d) {
      JoinKeepsInv(s, s', d, t);
    } else {
      var c: nat :| LeaveStep(s, s', c);
      LeaveKeepsInv(s, s', c, t);
    }
  }

  lemma {:induction false} StepsKeepInv(run: seq<State>, n: nat, t: Symbol)
    requires n < |run| && Inv(run[0], t) && Seated(run[0], t)
    requires forall i :: 0 <= i < |run| - 1 ==> Next(run[i], run[i + 1])
    ensures Inv(run[n], t) && Seated(run[n], t)
  {
    if n > 0 {
      StepsKeepInv(run, n - 1, t);
      var s, s' := run[n - 1], run[n];
      assert Next(s, s') by {
        assert Next(run[n - 1], run[n - 1 + 1]);
      }
      NextKeepsInv(s, s', t);
    }
  }

  lemma {:induction false} RunKeepsInv(run: seq<State>, d: Document, n: nat)
    requires IsRun(run, d) && n < |run|
    ensures d != [] && Inv(run[n], d[|d| - 1]) && Seated(run[n], d[|d| - 1])
  {
    InitialInv(run[0], d);
    StepsKeepInv(run, n, d[|d| - 1]);
  }

  /** In every reachable state the handler's precondition holds for the message it gets next: remote
  insertions are new, and remote erasures find the very symbols they name. */
  lemma {:induction false} HandlersAlwaysApply(run: seq<State>, d: Document, n: nat, c: nat)
    requires IsRun(run, d) && n < |run| && c < |run[n].docs|
    ensures |run[n].down| == |run[n].docs|
    ensures run[n].down[c] != [] ==> Acceptable(run[n].docs[c], run[n].down[c][0])
  {
    RunKeepsInv(run, d, n);
    if run[n].down[c] != [] {
      ClientAccepts(run[n], d[|d| - 1], c);
    }
  }

  /** A typed message carries one symbol. */
  predicate Single(q: seq<Message>) {
    forall i :: 0 <= i < |q| && q[i].kind == Typed ==> |q[i].symbols| == 1
  }

  predicate AllSingle(s: State) {
    && (forall c :: 0 <= c < |s.up| ==> Single(s.up[c]))
    && (forall c :: 0 <= c < |s.down| ==> Single(s.down[c]))
  }

  lemma {:induction false} NextKeepsSingle(s: State, s': State)
    requires AllSingle(s) && Next(s, s')
    ensures AllSingle(s')
  {
    if c: nat, k: nat, m :| InsertStep(s, s', c, k, m) {
      SentKeepsSingle(s, s', c, m);
    } else if c: nat, k: nat, n: nat :| EraseStep(s, s', c, k, n) {
      SentKeepsSingle(s, s', c, Message(Erased, Slice(s.docs[c], k, n)));
    } else if c: nat :| ServerStep(s, s', c) {
      ServerKeepsSingle(s, s', c);
    } else if c: nat :| ClientStep(s, s', c) {
      ClientKeepsSingle(s, s', c);
    } else if d :| JoinStep(s, s', d) {
      JoinKeepsSingle(s, s', d);
    } else {
      var c: nat :| LeaveStep(s, s', c);
      LeaveKeepsSingle(s, s', c);
    }
  }

  lemma {:induction false} SentKeepsSingle(s: State, s': State, c: nat, m: Message)
    requires AllSingle(s) && c < |s.up| && s'.up == s.up[c := s.up[c] + [m]] && s'.down == s.down
    requires m.kind == Typed ==> |m.symbols| == 1
    ensures AllSingle(s')
  {
    SingleMore(s.up[c], m);
  }

  lemma {:induction false} ClientKeepsSingle(s: State, s': State, c: nat)
    requires AllSingle(s) && ClientStep(s, s', c)
    ensures AllSingle(s')
  {
    SingleRest(s.down[c]);
  }

  lemma {:induction false} JoinKeepsSingle(s: State, s': State, d: Document)
    requires AllSingle(s) && JoinStep(s, s', d)
    ensures AllSingle(s')
  {
  }

  lemma {:induction false} LeaveKeepsSingle(s: State, s': State, c: nat)
    requires AllSingle(s) && LeaveStep(s, s', c)
    ensures AllSingle(s')
  {
  }

  lemma {:induction false} SingleMore(q: seq<Message>, m: Message)
    requires Single(q) && (m.kind == Typed ==> |m.symbols| == 1)
    ensures Single(q + [m])
  {
  }

  lemma {:induction false} SingleRest(q: seq<Message>)
    requires Single(q) && q != []
    ensures Single(q[1..]) && (q[0].kind == Typed ==> |q[0].symbols| == 1)
  {
  }

  lemma {:induction false} ServerKeepsSingle(s: State, s': State, c: nat)
    requires AllSingle(s) && ServerStep(s, s', c)
    ensures AllSingle(s')
  {
    SingleRest(s.up[c]);
    forall e | 0 <= e < |s.down| ensures Single(s.down[e] + [s.up[c][0]]) {
      SingleMore(s.down[e], s.up[c][0]);
    }
  }

  /** So it is in every reachable state. */
  lemma {:induction false} TypedCarryOne(run: seq<State>, d: Document, n: nat)
    requires IsRun(run, d) && n < |run|
    ensures AllSingle(run[n])
  {
    if n > 0 {
      TypedCarryOne(run, d, n - 1);
      assert Next(run[n - 1], run[n - 1 + 1]);
      NextKeepsSingle(run[n - 1], run[n]);
    }
  }

  /** Nothing is on its way to the server or to client `c`. */
  predicate Settled(s: State, c: nat) {
    && (forall j :: 0 <= j < |s.up| ==> s.up[j] == [])
    && (c < |s.down| ==> s.down[c] == [])
  }

  lemma {:induction false} SettledCounts(s: State, c: nat, x: Symbol)
    requires |s.docs| == |s.down| && Laws(s) && c < |s.docs| && Settled(s, c)
    ensures multiset(s.docs[c])[x] == Contents(s.server)[x] == (s.inserted - s.erased)[x]
  {
    assert Conserved(s, c);
    UpEmpty(s.up, c, Ins, x);
    UpEmpty(s.up, c, Del, x);
    UpEmpty(s.up, -1, Ins, x);
    UpEmpty(s.up, -1, Del, x);
    assert Count(s.docs[c], x) == multiset(s.docs[c])[x];
  }

  lemma {:induction false} SettledLists(s: State, t: Symbol, c: nat)
    requires Inv(s, t) && c < |s.docs| && Settled(s, c)
    ensures ListsServer(s.docs[c], s.server) && multiset(s.docs[c]) == s.inserted - s.erased
  {
    SettledContents(s, c);
  }

  lemma {:induction false} SettledContents(s: State, c: nat)
    requires |s.docs| == |s.down| && Laws(s) && c < |s.docs| && Settled(s, c)
    ensures multiset(s.docs[c]) == Contents(s.server) == s.inserted - s.erased
  {
    forall x ensures multiset(s.docs[c])[x] == Contents(s.server)[x] == (s.inserted - s.erased)[x] {
      SettledCounts(s, c, x);
    }
  }

  /** There is only one sorted list of a map's symbols. */
  lemma {:induction false} OneList(d: Document, e: Document, m: SymbolMap)
    requires ListsServer(d, m) && ListsServer(e, m)
    ensures d == e
  {
    forall x ensures x in d <==> x in e {
      assert x in d <==> x in multiset(d);
      assert x in e <==> x in multiset(e);
    }
    SortedUnique(d, e);
  }

  /** End-to-end agreement: along every run, as soon as everything is delivered to the server and to a
  client, that client's document is the sorted list of the server's symbols. */
  lemma {:induction false} Agreement(run: seq<State>, d: Document, n: nat, c: nat)
    requires IsRun(run, d) && n < |run| && c < |run[n].docs| && Settled(run[n], c)
    ensures ListsServer(run[n].docs[c], run[n].server)
  {
    RunKeepsInv(run, d, n);
    SettledLists(run[n], d[|d| - 1], c);
  }

  /** Then all such clients have the same document, and so the same lines. */
  lemma {:induction false} ClientsAgree(run: seq<State>, d: Document, n: nat, c: nat, e: nat)
    requires IsRun(run, d) && n < |run| && c < |run[n].docs| && e < |run[n].docs|
    requires Settled(run[n], c) && Settled(run[n], e)
    ensures run[n].docs[c] == run[n].docs[e]
    ensures forall lines :: Canonical(lines) && Flatten(lines) == run[n].docs[c] ==> lines == Split(run[n].docs[e])
  {
    Agreement(run, d, n, c);
    Agreement(run, d, n, e);
    OneList(run[n].docs[c], run[n].docs[e], run[n].server);
    forall lines | Canonical(lines) && Flatten(lines) == run[n].docs[c] ensures lines == Split(run[n].docs[e]) {
      CanonicalIsSplit(lines);
    }
  }

  /** And nothing was lost or came twice: the document is what was inserted less what was erased. */
  lemma {:induction false} NothingLost(run: seq<State>, d: Document, n: nat, c: nat)
    requires IsRun(run, d) && n < |run| && c < |run[n].docs| && Settled(run[n], c)
    ensures multiset(run[n].docs[c]) == run[n].inserted - run[n].erased
  {
    RunKeepsInv(run, d, n);
    SettledLists(run[n], d[|d| - 1], c);
  }

  /** In every reachable state the server's symbols have a sorted list, which is a document with the
  terminator last: a client may join at any time. */
  lemma {:induction false} MayJoin(run: seq<State>, d: Document, n: nat, e: Document)
    requires IsRun(run, d) && n < |run| && ListsServer(e, run[n].server)
    ensures d != [] && DocumentValid(e, d[|d| - 1])
  {
    RunKeepsInv(run, d, n);
    JoinedValid(run[n], d[|d| - 1], e);
  }
}

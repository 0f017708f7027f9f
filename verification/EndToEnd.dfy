/** Clients, server and the channels between them, for one file (Server/server.cpp:424-439 and
:553-567, with the handlers of Client/CRDT.cpp).

Every client edits its own document and sends each edit up its FIFO channel. The server applies an
edit to its string-keyed map and relays it down the channels of all other clients. Clients open and
leave the file at any time. The effects on the documents are those that the methods of
`ClientDocument.CRDT` are proved to have.

The proof rests on a conservation law over multisets of symbols: what a client holds, plus the
insertions still on their way to it, plus everything ever erased, is everything ever inserted plus
the erasures still on their way to it.
*/
module EndToEnd {
  import opened Positions
  import opened Generation
  import opened Documents
  import opened ClientDocument
  import opened ReplayAgreement
  import opened PositionKey

  datatype Kind = Typed | PastedText | Erased

  datatype Message = Message(kind: Kind, symbols: seq<Symbol>)

  datatype Op = Ins | Del

  /** The symbols a message inserts, or those it erases. */
  function Of(m: Message, op: Op): seq<Symbol> {
    if m.kind == Erased <==> op == Del then m.symbols else []
  }

  datatype State = State(
    docs: seq<Document>,
    up: seq<seq<Message>>,
    down: seq<seq<Message>>,
    server: SymbolMap,
    inserted: multiset<Symbol>,
    erased: multiset<Symbol>)

  // ----- Steps -----

  /** What the client's handler does with a message, and what it needs to do so. */
  function Receive(d: Document, m: Message): Document {
    match m.kind
    case Typed => InsertAll(d, m.symbols)
    case PastedText => AlignAll(InsertAll(d, m.symbols), m.symbols)
    case Erased => WithoutAll(d, m.symbols)
  }

  ghost predicate Acceptable(d: Document, m: Message) {
    if m.kind == Erased then Erasable(d, m.symbols) else Insertable(d, m.symbols)
  }

  function EditOf(kind: Kind, s: Symbol): Edit {
    if kind == Erased then Drop(s) else Put(s)
  }

  /** The server's loop over the symbols of a message. */
  function Edits(m: Message): seq<Edit> {
    seq(|m.symbols|, i requires 0 <= i < |m.symbols| => EditOf(m.kind, m.symbols[i]))
  }

  /** All clients start from one document that ends with the terminator, and the server holds it. */
  ghost predicate Initial(s: State, d: Document) {
    && |s.docs| == |s.up| == |s.down|
    && Sorted(d) && AllWellFormed(d) && d != []
    && (forall i :: 0 <= i < |d| ==> (d[i].value == TERMINATOR <==> i == |d| - 1))
    && (forall c :: 0 <= c < |s.docs| ==> s.docs[c] == d && s.up[c] == [] && s.down[c] == [])
    && Keyed(s.server) && Contents(s.server) == multiset(d)
    && s.inserted == multiset(d) && s.erased == multiset{}
  }

  /** Client `c` types or pastes in front of a symbol, at positions nobody inserted before. */
  predicate InsertStep(s: State, s': State, c: nat, k: nat, m: Message) {
    && c < |s.docs| == |s.up| && m.kind != Erased && (m.kind == Typed ==> |m.symbols| == 1)
    && k < |s.docs[c]|
    && Sorted(Paste(s.docs[c], k, m.symbols)) && AllWellFormed(Paste(s.docs[c], k, m.symbols))
    && (forall i :: 0 <= i < |m.symbols| ==> m.symbols[i].value != TERMINATOR)
    && (forall i, x :: 0 <= i < |m.symbols| && x in s.inserted ==> x.position != m.symbols[i].position)
    && s' == s.(docs := s.docs[c := Paste(s.docs[c], k, m.symbols)],
                up := s.up[c := s.up[c] + [m]],
                inserted := s.inserted + multiset(m.symbols))
  }

  /** Client `c` erases a range short of the terminator, of symbols nobody else erased. */
  predicate EraseStep(s: State, s': State, c: nat, k: nat, n: nat) {
    && EraseAnyStep(s, s', c, k, n)
    && (forall i :: k <= i < k + n ==> s.docs[c][i] !in s.erased)
  }

  /** The same with no regard to what others erased. */
  predicate EraseAnyStep(s: State, s': State, c: nat, k: nat, n: nat) {
    && c < |s.docs| == |s.up| && k + n < |s.docs[c]|
    && s' == s.(docs := s.docs[c := Cut(s.docs[c], k, n)],
                up := s.up[c := s.up[c] + [Message(Erased, Slice(s.docs[c], k, n))]],
                erased := s.erased + multiset(Slice(s.docs[c], k, n)))
  }

  function Slice(d: Document, k: nat, n: nat): seq<Symbol>
    requires k + n <= |d|
  {
    d[k..k + n]
  }

  /** The server takes the oldest message of client `c`, applies it and relays it. */
  predicate ServerStep(s: State, s': State, c: nat) {
    && c < |s.docs| == |s.up| && s.up[c] != []
    && var m := s.up[c][0];
       s' == s.(server := ApplyAll(s.server, Edits(m)),
                up := s.up[c := s.up[c][1..]],
                down := seq(|s.down|, i requires 0 <= i < |s.down| =>
                              if i == c then s.down[i] else s.down[i] + [m]))
  }

  /** Client `c` handles the oldest message relayed to it. */
  predicate ClientStep(s: State, s': State, c: nat) {
    && c < |s.docs| == |s.down| && s.down[c] != []
    && s' == s.(docs := s.docs[c := Receive(s.docs[c], s.down[c][0])],
                down := s.down[c := s.down[c][1..]])
  }

  /** `d` is the sorted list of the symbols in the server's map. */
  ghost predicate ListsServer(d: Document, m: SymbolMap) {
    Sorted(d) && multiset(d) == Contents(m)
  }

  /** A client opens the file: it starts from the server's symbols, with empty channels. */
  ghost predicate JoinStep(s: State, s': State, d: Document) {
    && ListsServer(d, s.server)
    && s' == s.(docs := s.docs + [d], up := s.up + [[]], down := s.down + [[]])
  }

  /** Client `c` leaves. What the server has not received from it is lost, and never happened to anyone else. */
  ghost predicate LeaveStep(s: State, s': State, c: nat) {
    && c < |s.docs| == |s.up| == |s.down|
    && s' == s.(docs := Leaving(s.docs, c), up := Leaving(s.up, c), down := Leaving(s.down, c),
                inserted := s.inserted - Sent(s.up[c], Ins),
                erased := s.erased - Sent(s.up[c], Del))
  }

  function Leaving<T>(q: seq<T>, c: nat): seq<T>
    requires c < |q|
  {
    q[..c] + q[c + 1..]
  }

  /** All symbols that the messages of a channel insert, or erase. */
  ghost function Sent(q: seq<Message>, op: Op): multiset<Symbol> {
    if q == [] then multiset{} else multiset(Of(q[0], op)) + Sent(q[1..], op)
  }

  ghost predicate Next(s: State, s': State) {
    && |s.docs| == |s.up| == |s.down|
    && (|| (exists c: nat, k: nat, m :: InsertStep(s, s', c, k, m))
        || (exists c: nat, k: nat, n: nat :: EraseStep(s, s', c, k, n))
        || (exists c: nat :: ServerStep(s, s', c))
        || (exists c: nat :: ClientStep(s, s', c))
        || (exists d :: JoinStep(s, s', d))
        || (exists c: nat :: LeaveStep(s, s', c)))
  }

  ghost predicate IsRun(run: seq<State>, d: Document) {
    && run != [] && Initial(run[0], d)
    && forall i :: 0 <= i < |run| - 1 ==> Next(run[i], run[i + 1])
  }

  // ----- What the channels carry -----

  function Count(ss: seq<Symbol>, x: Symbol): nat {
    multiset(ss)[x]
  }

  /** How often the messages of a channel insert, or erase, a symbol. */
  ghost function Content(q: seq<Message>, op: Op, x: Symbol): nat {
    if q == [] then 0 else Count(Of(q[0], op), x) + Content(q[1..], op, x)
  }

  /** The same over the upward channels of all clients but `c`. */
  ghost function Up(up: seq<seq<Message>>, c: int, op: Op, x: Symbol): nat {
    if up == [] then 0
    else
      var n := |up| - 1;
      Up(up[..n], c, op, x) + if n == c then 0 else Content(up[n], op, x)
  }

  /** What is still on its way to client `c`. */
  ghost function Inbound(s: State, c: nat, op: Op, x: Symbol): nat
    requires c < |s.down|
  {
    Content(s.down[c], op, x) + Up(s.up, c, op, x)
  }

  /** The symbols in the server's map. */
  ghost function Contents(m: SymbolMap): multiset<Symbol> {
    multiset(m.Values)
  }

  lemma {:induction false} CountMember(ss: seq<Symbol>, x: Symbol)
    ensures Count(ss, x) > 0 <==> x in ss
  {
  }

  lemma {:induction false} ContentSnoc(q: seq<Message>, m: Message, op: Op, x: Symbol)
    ensures Content(q + [m], op, x) == Content(q, op, x) + Count(Of(m, op), x)
  {
    if q == [] {
      assert q + [m] == [m] && [m][1..] == [];
    } else {
      assert (q + [m])[1..] == q[1..] + [m];
      ContentSnoc(q[1..], m, op, x);
    }
  }

  lemma {:induction false} ContentMember(q: seq<Message>, op: Op, x: Symbol)
    ensures Content(q, op, x) > 0 <==> exists i :: 0 <= i < |q| && x in Of(q[i], op)
  {
    if q != [] {
      ContentMember(q[1..], op, x);
      if i :| 0 <= i < |q[1..]| && x in Of(q[1..][i], op) {
        assert q[i + 1] == q[1..][i];
      }
      if i :| 0 <= i < |q| && x in Of(q[i], op) {
        assert i > 0 ==> q[1..][i - 1] == q[i];
      }
    }
  }

  /** Exchanging one upward channel exchanges its share of the sum. */
  lemma {:induction false} UpUpdate(up: seq<seq<Message>>, j: nat, q: seq<Message>, c: int, op: Op, x: Symbol)
    requires j < |up|
    ensures Up(up[j := q], c, op, x)
         == Up(up, c, op, x) + if j == c then 0 else Content(q, op, x) - Content(up[j], op, x)
    decreases |up|
  {
    var n, r := |up| - 1, up[j := q];
    if j == n {
      assert r[..n] == up[..n];
    } else {
      assert r[..n] == up[..n][j := q];
      UpUpdate(up[..n], j, q, c, op, x);
    }
  }

  lemma {:induction false} UpMember(up: seq<seq<Message>>, c: int, op: Op, x: Symbol)
    ensures Up(up, c, op, x) > 0 <==> exists j :: 0 <= j < |up| && j != c && Content(up[j], op, x) > 0
  {
    if up != [] {
      var n := |up| - 1;
      UpMember(up[..n], c, op, x);
      MemberLast(up, c, op, x);
    }
  }

  lemma {:induction false} MemberLast(up: seq<seq<Message>>, c: int, op: Op, x: Symbol)
    requires up != []
    ensures (exists j :: 0 <= j < |up| && j != c && Content(up[j], op, x) > 0)
       <==> var n := |up| - 1;
            (n != c && Content(up[n], op, x) > 0)
            || exists j :: 0 <= j < |up[..n]| && j != c && Content(up[..n][j], op, x) > 0
  {
    var n := |up| - 1;
    assert forall j :: 0 <= j < n ==> up[..n][j] == up[j];
  }

  lemma {:induction false} UpEmpty(up: seq<seq<Message>>, c: int, op: Op, x: Symbol)
    requires forall j :: 0 <= j < |up| ==> up[j] == []
    ensures Up(up, c, op, x) == 0
  {
    if up != [] {
      UpEmpty(up[..|up| - 1], c, op, x);
    }
  }

  // ----- The invariant -----

  /** Conservation at client `c`: held + on its way in + erased = inserted + erasures on their way. */
  ghost predicate Conserved(s: State, c: nat)
    requires c < |s.docs| && c < |s.down|
  {
    forall x :: Count(s.docs[c], x) + Inbound(s, c, Ins, x) + s.erased[x] == s.inserted[x] + Inbound(s, c, Del, x)
  }

  /** The same at the server, which hears from every client. */
  ghost predicate ServerConserved(s: State) {
    forall x :: Contents(s.server)[x] + Up(s.up, -1, Ins, x) + s.erased[x] == s.inserted[x] + Up(s.up, -1, Del, x)
  }

  /** No message erases a symbol that the same or a later message of the channel inserts. */
  ghost predicate Causal(q: seq<Message>) {
    forall i, k, x :: 0 <= i <= k < |q| && x in Of(q[i], Del) ==> x !in Of(q[k], Ins)
  }

  /** Erasures follow their insertions on every path from a client through the server to another. */
  ghost predicate Ordered(up: seq<seq<Message>>, down: seq<seq<Message>>) {
    && (forall j :: 0 <= j < |up| ==> Causal(up[j]))
    && (forall c :: 0 <= c < |down| ==> Causal(down[c]))
    && (forall j, c :: 0 <= j < |up| && 0 <= c < |down| && j != c ==> Causal(down[c] + up[j]))
    && (forall i, j, x :: 0 <= i < |up| && 0 <= j < |up| && i != j && Content(up[j], Del, x) > 0
          ==> Content(up[i], Ins, x) == 0)
  }

  /** Every position was inserted at most once, is well formed, and lies before the terminator `t`. */
  ghost predicate History(inserted: multiset<Symbol>, erased: multiset<Symbol>, t: Symbol) {
    && (forall x :: erased[x] <= inserted[x] <= 1)
    && (forall x, y :: x in inserted && y in inserted && x.position == y.position ==> x == y)
    && (forall x :: x in inserted ==>
          WellFormed(x.position) && (x == t || (Less(x.position, t.position) && x.value != TERMINATOR)))
    && t.value == TERMINATOR && t in inserted && t !in erased
  }

  /** Only what was erased is announced as erased, and only what was inserted as inserted. */
  ghost predicate Announced(s: State)
    requires |s.docs| == |s.down|
  {
    && (forall c, x :: 0 <= c < |s.down| ==>
          Inbound(s, c, Del, x) <= s.erased[x] && Inbound(s, c, Ins, x) <= s.inserted[x])
    && (forall x :: Up(s.up, -1, Del, x) <= s.erased[x] && Up(s.up, -1, Ins, x) <= s.inserted[x])
  }

  predicate DocumentValid(d: Document, t: Symbol) {
    Sorted(d) && AllWellFormed(d) && d != [] && d[|d| - 1] == t
  }

  ghost predicate Laws(s: State)
    requires |s.docs| == |s.down|
  {
    && (forall c :: 0 <= c < |s.docs| ==> Conserved(s, c))
    && ServerConserved(s) && Announced(s)
  }

  ghost predicate Inv(s: State, t: Symbol) {
    && |s.docs| == |s.up| == |s.down|
    && Laws(s) && Keyed(s.server)
    && (forall c :: 0 <= c < |s.docs| ==> DocumentValid(s.docs[c], t))
    && Ordered(s.up, s.down) && History(s.inserted, s.erased, t)
  }

  /** The server holds the terminator. */
  ghost predicate Seated(s: State, t: Symbol) {
    t in Contents(s.server)
  }

  // ----- Local edits -----

  /** What both kinds of local edit do to the counts. */
  ghost predicate LocalEffect(s: State, s': State, c: nat, m: Message) {
    && c < |s.docs| == |s.up| == |s.down| == |s'.docs| && s'.down == s.down && s'.server == s.server
    && s'.up == s.up[c := s.up[c] + [m]]
    && s'.docs == s.docs[c := s'.docs[c]]
    && (forall x :: Count(s'.docs[c], x) + Count(Of(m, Del), x) == Count(s.docs[c], x) + Count(Of(m, Ins), x))
    && (forall x :: s'.inserted[x] == s.inserted[x] + Count(Of(m, Ins), x))
    && (forall x :: s'.erased[x] == s.erased[x] + Count(Of(m, Del), x))
  }

  lemma {:induction false} LocalInbound(s: State, s': State, c: nat, m: Message, e: nat, op: Op, x: Symbol)
    requires LocalEffect(s, s', c, m) && e < |s.docs|
    ensures Inbound(s', e, op, x) == Inbound(s, e, op, x) + if e == c then 0 else Count(Of(m, op), x)
    ensures Up(s'.up, -1, op, x) == Up(s.up, -1, op, x) + Count(Of(m, op), x)
  {
    ContentSnoc(s.up[c], m, op, x);
    UpUpdate(s.up, c, s.up[c] + [m], e, op, x);
    UpUpdate(s.up, c, s.up[c] + [m], -1, op, x);
  }

  lemma {:induction false} LocalLaws(s: State, s': State, c: nat, m: Message)
    requires LocalEffect(s, s', c, m) && Laws(s)
    ensures Laws(s')
  {
    forall e, x | 0 <= e < |s'.docs|
      ensures Count(s'.docs[e], x) + Inbound(s', e, Ins, x) + s'.erased[x]
           == s'.inserted[x] + Inbound(s', e, Del, x)
      ensures Inbound(s', e, Del, x) <= s'.erased[x] && Inbound(s', e, Ins, x) <= s'.inserted[x]
    {
      assert Conserved(s, e);
      LocalInbound(s, s', c, m, e, Ins, x);
      LocalInbound(s, s', c, m, e, Del, x);
    }
    forall x
      ensures Contents(s'.server)[x] + Up(s'.up, -1, Ins, x) + s'.erased[x]
           == s'.inserted[x] + Up(s'.up, -1, Del, x)
      ensures Up(s'.up, -1, Del, x) <= s'.erased[x] && Up(s'.up, -1, Ins, x) <= s'.inserted[x]
    {
      LocalInbound(s, s', c, m, c, Ins, x);
      LocalInbound(s, s', c, m, c, Del, x);
    }
  }

  /** Appending a message keeps a path causal when nothing on it erases what the message inserts. */
  lemma {:induction false} CausalSnoc(q: seq<Message>, m: Message)
    requires Causal(q)
    requires forall x :: x in Of(m, Ins) ==> Content(q, Del, x) == 0
    ensures Causal(q + [m])
  {
    var r := q + [m];
    forall i, k, x | 0 <= i <= k < |r| && x in Of(r[i], Del) ensures x !in Of(r[k], Ins) {
      if i < |q| && k == |q| {
        assert r[i] == q[i];
        ContentMember(q, Del, x);
      } else if k < |q| {
        assert r[i] == q[i] && r[k] == q[k];
      }
    }
  }

  lemma {:induction false} ContentConcat(q: seq<Message>, r: seq<Message>, op: Op, x: Symbol)
    ensures Content(q + r, op, x) == Content(q, op, x) + Content(r, op, x)
  {
    if q == [] {
      assert q + r == r;
    } else {
      assert (q + r)[1..] == q[1..] + r;
      ContentConcat(q[1..], r, op, x);
    }
  }

  /** What is in one upward channel is in the sum for everybody else. */
  lemma {:induction false} UpAtLeast(up: seq<seq<Message>>, j: nat, c: int, op: Op, x: Symbol)
    requires j < |up| && j != c
    ensures Content(up[j], op, x) <= Up(up, c, op, x)
    decreases |up|
  {
    var n := |up| - 1;
    if j < n {
      UpAtLeast(up[..n], j, c, op, x);
    }
  }

  lemma {:induction false} InsertOrdered(up: seq<seq<Message>>, down: seq<seq<Message>>, c: nat, m: Message)
    requires Ordered(up, down) && c < |up| && m.kind != Erased
    requires forall x, j :: x in m.symbols && 0 <= j < |up| ==> Content(up[j], Del, x) == 0
    requires forall x, e :: x in m.symbols && 0 <= e < |down| ==> Content(down[e], Del, x) == 0
    ensures Ordered(up[c := up[c] + [m]], down)
  {
    var r := up[c := up[c] + [m]];
    assert Causal(r[c]) by {
      CausalSnoc(up[c], m);
    }
    forall j, e | 0 <= j < |r| && 0 <= e < |down| && j != e ensures Causal(down[e] + r[j]) {
      assert Causal(down[e] + up[j]);
      if j == c {
        forall x | x in Of(m, Ins) ensures Content(down[e] + up[c], Del, x) == 0 {
          ContentConcat(down[e], up[c], Del, x);
        }
        CausalSnoc(down[e] + up[c], m);
        assert down[e] + r[c] == down[e] + up[c] + [m];
      }
    }
    forall i, j, x | 0 <= i < |r| && 0 <= j < |r| && i != j && Content(r[j], Del, x) > 0
      ensures Content(r[i], Ins, x) == 0
    {
      ContentSnoc(up[c], m, Del, x);
      ContentSnoc(up[c], m, Ins, x);
      CountMember(m.symbols, x);
      assert Content(up[j], Del, x) > 0 ==> Content(up[i], Ins, x) == 0;
    }
  }

  lemma {:induction false} EraseOrdered(up: seq<seq<Message>>, down: seq<seq<Message>>, c: nat, m: Message)
    requires Ordered(up, down) && c < |up| && m.kind == Erased
    requires forall x, i :: x in m.symbols && 0 <= i < |up| && i != c ==> Content(up[i], Ins, x) == 0
    ensures Ordered(up[c := up[c] + [m]], down)
  {
    var r := up[c := up[c] + [m]];
    assert Causal(r[c]) by {
      CausalSnoc(up[c], m);
    }
    forall j, e | 0 <= j < |r| && 0 <= e < |down| && j != e ensures Causal(down[e] + r[j]) {
      assert Causal(down[e] + up[j]);
      if j == c {
        CausalSnoc(down[e] + up[c], m);
        assert down[e] + r[c] == down[e] + up[c] + [m];
      }
    }
    forall i, j, x | 0 <= i < |r| && 0 <= j < |r| && i != j && Content(r[j], Del, x) > 0
      ensures Content(r[i], Ins, x) == 0
    {
      ContentSnoc(up[c], m, Del, x);
      ContentSnoc(up[c], m, Ins, x);
      CountMember(m.symbols, x);
      assert Content(up[j], Del, x) > 0 ==> Content(up[i], Ins, x) == 0;
    }
  }

  lemma {:induction false} PasteCount(d: Document, k: nat, ss: seq<Symbol>, x: Symbol)
    requires k <= |d|
    ensures Count(Paste(d, k, ss), x) == Count(d, x) + Count(ss, x)
  {
    assert d == d[..k] + d[k..];
  }

  lemma {:induction false} CutCount(d: Document, k: nat, n: nat, x: Symbol)
    requires k + n <= |d|
    ensures Count(Cut(d, k, n), x) + Count(Slice(d, k, n), x) == Count(d, x)
  {
    assert d == d[..k] + d[k..k + n] + d[k + n..];
  }

  lemma {:induction false} DistinctCount(ss: seq<Symbol>, x: Symbol)
    requires Distinct(ss)
    ensures Count(ss, x) <= 1
  {
    if ss != [] {
      var n := |ss| - 1;
      assert ss == ss[..n] + [ss[n]];
      DistinctCount(ss[..n], x);
      if ss[n] == x {
        assert forall i :: 0 <= i < n ==> ss[..n][i] != x;
        assert x !in ss[..n];
      }
    }
  }

  lemma {:induction false} PasteValid(d: Document, k: nat, ss: seq<Symbol>, t: Symbol)
    requires DocumentValid(d, t) && k < |d|
    requires Sorted(Paste(d, k, ss)) && AllWellFormed(Paste(d, k, ss))
    ensures DocumentValid(Paste(d, k, ss), t) && Distinct(ss)
    ensures forall i :: 0 <= i < |ss| ==> WellFormed(ss[i].position) && Less(ss[i].position, t.position)
  {
    var r := Paste(d, k, ss);
    assert r[|r| - 1] == t;
    forall i | 0 <= i < |ss| ensures WellFormed(ss[i].position) && Less(ss[i].position, t.position) {
      assert r[k + i] == ss[i];
    }
    forall i, j | 0 <= i < j < |ss| ensures ss[i].position != ss[j].position {
      assert r[k + i] == ss[i] && r[k + j] == ss[j];
      Antisymmetric(r[k + i].position, r[k + j].position);
    }
  }

  lemma {:induction false} CutValid(d: Document, k: nat, n: nat, t: Symbol)
    requires DocumentValid(d, t) && k + n < |d|
    ensures DocumentValid(Cut(d, k, n), t) && Distinct(Slice(d, k, n))
    ensures forall x :: x in Slice(d, k, n) ==> x in d && x != t
  {
    var r := Cut(d, k, n);
    CutSorted(d, k, n);
    assert r[|r| - 1] == t;
    assert forall i :: 0 <= i < |r| ==> r[i] == d[if i < k then i else i + n];
    SliceBeforeLast(d, k, n);
  }

  lemma {:induction false} SliceBeforeLast(d: Document, k: nat, n: nat)
    requires Sorted(d) && k + n < |d|
    ensures Distinct(Slice(d, k, n))
    ensures forall x :: x in Slice(d, k, n) ==> x in d && x != d[|d| - 1]
  {
    var ss := d[k..k + n];
    forall i, j | 0 <= i < j < |ss| ensures ss[i].position != ss[j].position {
      Antisymmetric(d[k + i].position, d[k + j].position);
    }
    forall i | 0 <= i < |ss| ensures ss[i] in d && ss[i] != d[|d| - 1] {
      assert ss[i] == d[k + i];
      Antisymmetric(d[k + i].position, d[|d| - 1].position);
    }
  }

  lemma {:induction false} HistoryInsert(inserted: multiset<Symbol>, erased: multiset<Symbol>, t: Symbol, ss: seq<Symbol>)
    requires History(inserted, erased, t) && Distinct(ss)
    requires forall i :: 0 <= i < |ss| ==>
               WellFormed(ss[i].position) && Less(ss[i].position, t.position) && ss[i].value != TERMINATOR
    requires forall i, x :: 0 <= i < |ss| && x in inserted ==> x.position != ss[i].position
    ensures History(inserted + multiset(ss), erased, t)
  {
    var r := inserted + multiset(ss);
    forall x ensures r[x] <= 1 {
      DistinctCount(ss, x);
      if x in ss {
        var i :| 0 <= i < |ss| && ss[i] == x;
        assert x !in inserted;
      }
    }
    forall x, y | x in r && y in r && x.position == y.position ensures x == y {
      assert x in ss || y in ss || x in inserted;
      if i :| 0 <= i < |ss| && ss[i] == x {
        assert y in ss;
        var j :| 0 <= j < |ss| && ss[j] == y;
      }
    }
  }

  lemma {:induction false} HistoryErase(inserted: multiset<Symbol>, erased: multiset<Symbol>, t: Symbol, ss: seq<Symbol>)
    requires History(inserted, erased, t) && Distinct(ss)
    requires forall x :: x in ss ==> x in inserted && x !in erased && x != t
    ensures History(inserted, erased + multiset(ss), t)
  {
    forall x ensures (erased + multiset(ss))[x] <= inserted[x] {
      DistinctCount(ss, x);
    }
  }

  /** What a client holds was inserted, and is neither on its way to it nor, unless erased, announced as erased. */
  lemma {:induction false} HeldSymbol(s: State, t: Symbol, c: nat, x: Symbol)
    requires Inv(s, t) && c < |s.docs| && x in s.docs[c] && x !in s.erased
    ensures x in s.inserted
    ensures forall i :: 0 <= i < |s.up| && i != c ==> Content(s.up[i], Ins, x) == 0
  {
    assert Conserved(s, c);
    assert Inbound(s, c, Del, x) <= s.erased[x];
    assert Count(s.docs[c], x) >= 1;
    forall i | 0 <= i < |s.up| && i != c ensures Content(s.up[i], Ins, x) == 0 {
      UpAtLeast(s.up, i, c, Ins, x);
    }
  }

  lemma {:induction false} HeldRange(s: State, t: Symbol, c: nat, k: nat, n: nat)
    requires Inv(s, t) && c < |s.docs| && k + n < |s.docs[c]|
    requires forall i :: k <= i < k + n ==> s.docs[c][i] !in s.erased
    ensures forall x :: x in Slice(s.docs[c], k, n) ==> x in s.inserted && x !in s.erased
    ensures forall x, i :: x in Slice(s.docs[c], k, n) && 0 <= i < |s.up| && i != c ==> Content(s.up[i], Ins, x) == 0
  {
    var ss := Slice(s.docs[c], k, n);
    forall x | x in ss
      ensures x in s.inserted && x !in s.erased
      ensures forall i :: 0 <= i < |s.up| && i != c ==> Content(s.up[i], Ins, x) == 0
    {
      var i := SliceAt(s.docs[c], k, n, x);
      HeldSymbol(s, t, c, s.docs[c][i]);
    }
  }

  lemma {:induction false} SliceAt(d: Document, k: nat, n: nat, x: Symbol) returns (i: nat)
    requires k + n <= |d| && x in Slice(d, k, n)
    ensures k <= i < k + n && d[i] == x
  {
    i :| 0 <= i < n && Slice(d, k, n)[i] == x;
    i := k + i;
  }

  /** Nothing is announced about a symbol that was never inserted. */
  lemma {:induction false} NewSymbol(s: State, t: Symbol, x: Symbol)
    requires Inv(s, t) && x !in s.inserted
    ensures forall j :: 0 <= j < |s.up| ==> Content(s.up[j], Del, x) == 0
    ensures forall e :: 0 <= e < |s.down| ==> Content(s.down[e], Del, x) == 0
  {
    assert s.erased[x] == 0;
    forall j | 0 <= j < |s.up| ensures Content(s.up[j], Del, x) == 0 {
      UpAtLeast(s.up, j, -1, Del, x);
    }
    forall e | 0 <= e < |s.down| ensures Content(s.down[e], Del, x) == 0 {
      assert Inbound(s, e, Del, x) <= s.erased[x];
    }
  }

  lemma {:induction false} InsertEffect(s: State, s': State, c: nat, k: nat, m: Message)
    requires InsertStep(s, s', c, k, m) && |s.docs| == |s.up| == |s.down|
    ensures LocalEffect(s, s', c, m)
  {
    forall x ensures Count(s'.docs[c], x) == Count(s.docs[c], x) + Count(m.symbols, x) {
      PasteCount(s.docs[c], k, m.symbols, x);
    }
  }

  lemma {:induction false} EraseEffect(s: State, s': State, c: nat, k: nat, n: nat)
    requires EraseStep(s, s', c, k, n) && |s.docs| == |s.up| == |s.down|
    ensures LocalEffect(s, s', c, Message(Erased, Slice(s.docs[c], k, n)))
  {
    forall x ensures Count(s'.docs[c], x) + Count(Slice(s.docs[c], k, n), x) == Count(s.docs[c], x) {
      CutCount(s.docs[c], k, n, x);
    }
  }

  lemma {:induction false} InsertKeepsInv(s: State, s': State, c: nat, k: nat, m: Message, t: Symbol)
    requires Inv(s, t) && InsertStep(s, s', c, k, m)
    ensures Inv(s', t)
  {
    PasteValid(s.docs[c], k, m.symbols, t);
    assert Laws(s') by {
      InsertEffect(s, s', c, k, m);
      LocalLaws(s, s', c, m);
    }
    assert History(s'.inserted, s'.erased, t) by {
      HistoryInsert(s.inserted, s.erased, t, m.symbols);
    }
    InsertKeepsOrder(s, c, m, t);
  }

  lemma {:induction false} InsertKeepsOrder(s: State, c: nat, m: Message, t: Symbol)
    requires Inv(s, t) && c < |s.up| && m.kind != Erased
    requires forall i, x :: 0 <= i < |m.symbols| && x in s.inserted ==> x.position != m.symbols[i].position
    ensures Ordered(s.up[c := s.up[c] + [m]], s.down)
  {
    forall x | x in m.symbols
      ensures forall j :: 0 <= j < |s.up| ==> Content(s.up[j], Del, x) == 0
      ensures forall e :: 0 <= e < |s.down| ==> Content(s.down[e], Del, x) == 0
    {
      NewSymbol(s, t, x);
    }
    InsertOrdered(s.up, s.down, c, m);
  }

  lemma {:induction false} EraseKeepsInv(s: State, s': State, c: nat, k: nat, n: nat, t: Symbol)
    requires Inv(s, t) && EraseStep(s, s', c, k, n)
    ensures Inv(s', t)
  {
    var ss := Slice(s.docs[c], k, n);
    CutValid(s.docs[c], k, n, t);
    assert Laws(s') by {
      EraseEffect(s, s', c, k, n);
      LocalLaws(s, s', c, Message(Erased, ss));
    }
    HeldRange(s, t, c, k, n);
    assert History(s'.inserted, s'.erased, t) by {
      HistoryErase(s.inserted, s.erased, t, ss);
    }
    assert Ordered(s'.up, s'.down) by {
      EraseOrdered(s.up, s.down, c, Message(Erased, ss));
    }
  }
}

/** The machine of `EndToEnd` with changes of format and of alignment on the same channels.

A change keeps every symbol's position and character, so a run without its formats is a run of
`EndToEnd`, as long as every change finds the symbols it names. It does when nobody erases a symbol
while another client's change of it is on its way to them, and nobody changes one that is erased.
*/
module Formatting {
  import opened Positions
  import opened Documents
  import opened ClientDocument
  import opened PositionKey
  import opened EndToEnd
  import opened Membership
  import opened Delivery
  import opened LateChanges
  import opened DoubleErasure

  // ----- Symbols without their formats -----

  const PLAIN: Format := Format(AlignLeft, Style(false, false, false, [], 0, []))

  function Bare(s: Symbol): Symbol {
    s.(format := PLAIN)
  }

  function BareAll(ss: seq<Symbol>): (r: seq<Symbol>)
    ensures |r| == |ss| && forall i :: 0 <= i < |ss| ==> r[i] == Bare(ss[i])
  {
    seq(|ss|, i requires 0 <= i < |ss| => Bare(ss[i]))
  }

  function BareMessage(m: Message): Message {
    Message(m.kind, BareAll(m.symbols))
  }

  function BareMap(m: SymbolMap): SymbolMap {
    map k <- m :: Bare(m[k])
  }

  lemma {:induction false} BareSame(d: Document)
    ensures SamePositions(d, BareAll(d))
    ensures Sorted(d) <==> Sorted(BareAll(d))
    ensures AllWellFormed(d) <==> AllWellFormed(BareAll(d))
  {
    var r := BareAll(d);
    assert forall i :: 0 <= i < |d| ==> d[i].position == r[i].position;
  }

  lemma {:induction false} BareSlices(d: Document, k: nat, n: nat, ss: seq<Symbol>)
    requires k + n <= |d|
    ensures BareAll(Cut(d, k, n)) == Cut(BareAll(d), k, n)
    ensures BareAll(Slice(d, k, n)) == Slice(BareAll(d), k, n)
    ensures BareAll(Paste(d, k, ss)) == Paste(BareAll(d), k, BareAll(ss))
  {
  }

  lemma {:induction false} BareInsertAll(d: Document, ss: seq<Symbol>)
    ensures BareAll(InsertAll(d, ss)) == InsertAll(BareAll(d), BareAll(ss))
    decreases |ss|
  {
    if ss != [] {
      var n := |ss| - 1;
      var r, s := InsertAll(d, ss[..n]), ss[n];
      BareInsertAll(d, ss[..n]);
      assert BareAll(ss)[..n] == BareAll(ss[..n]);
      BareSortedInsert(r, s);
    }
  }

  lemma {:induction false} BareSortedInsert(d: Document, s: Symbol)
    ensures BareAll(SortedInsert(d, s)) == SortedInsert(BareAll(d), Bare(s))
  {
    BareSame(d);
    CountSame(d, BareAll(d), s.position);
    BareInsertAt(d, CountLess(d, s.position), s);
  }

  lemma {:induction false} BareInsertAt(d: Document, k: nat, s: Symbol)
    requires k <= |d|
    ensures BareAll(InsertAt(d, k, s)) == InsertAt(BareAll(d), k, Bare(s))
  {
  }

  lemma {:induction false} BareWithout(d: Document, p: Position)
    ensures BareAll(Without(d, p)) == Without(BareAll(d), p)
  {
    if d != [] {
      BareWithout(d[1..], p);
      assert BareAll(d)[1..] == BareAll(d[1..]);
    }
  }

  lemma {:induction false} BareWithoutAll(d: Document, ss: seq<Symbol>)
    ensures BareAll(WithoutAll(d, ss)) == WithoutAll(BareAll(d), BareAll(ss))
    decreases |ss|
  {
    if ss != [] {
      BareWithoutAll(d, ss[..|ss| - 1]);
      assert BareAll(ss)[..|ss| - 1] == BareAll(ss[..|ss| - 1]);
      BareWithout(WithoutAll(d, ss[..|ss| - 1]), ss[|ss| - 1].position);
    }
  }

  /** Aligning a line changes formats only. */
  lemma {:induction false} BareAlignEach(d: Document, ss: seq<Symbol>)
    ensures BareAll(AlignEach(d, ss)) == BareAll(d)
    ensures BareAll(d) == d && BareAll(ss) == ss ==> AlignEach(d, ss) == d
    decreases |ss|
  {
    if ss != [] {
      var n := |ss| - 1;
      BareAlignEach(d, ss[..n]);
      BareAlignAt(AlignEach(d, ss[..n]), ss[n].position, ss[n].format.align);
      if BareAll(d) == d && BareAll(ss) == ss {
        assert BareAll(ss[..n]) == ss[..n];
      }
    }
  }

  lemma {:induction false} BareAlignAt(d: Document, p: Position, a: Alignment)
    ensures BareAll(AlignAt(d, p, a)) == BareAll(d)
    ensures BareAll(d) == d && a == AlignLeft ==> AlignAt(d, p, a) == d
  {
  }

  lemma {:induction false} BareLineEnders(ss: seq<Symbol>)
    requires BareAll(ss) == ss
    ensures BareAll(LineEnders(ss)) == LineEnders(ss)
    decreases |ss|
  {
    if ss != [] {
      assert BareAll(ss[..|ss| - 1]) == ss[..|ss| - 1];
      BareLineEnders(ss[..|ss| - 1]);
    }
  }

  lemma {:induction false} BareReceive(d: Document, m: Message)
    ensures BareAll(Receive(d, m)) == Receive(BareAll(d), BareMessage(m))
  {
    BareInsertAll(d, m.symbols);
    if m.kind == PastedText {
      var r, ss := InsertAll(BareAll(d), BareAll(m.symbols)), BareAll(m.symbols);
      BareAlignEach(InsertAll(d, m.symbols), LineEnders(m.symbols));
      assert BareAll(ss) == ss && BareAll(r) == r;
      BareLineEnders(ss);
      BareAlignEach(r, LineEnders(ss));
    } else {
      BareWithoutAll(d, m.symbols);
    }
  }

  function BareEdit(e: Edit): Edit {
    match e
    case Put(s) => Put(Bare(s))
    case Drop(s) => Drop(Bare(s))
  }

  lemma {:induction false} BareApplyAll(m: SymbolMap, es: seq<Edit>, es': seq<Edit>)
    requires |es| == |es'| && forall i :: 0 <= i < |es| ==> es'[i] == BareEdit(es[i])
    ensures BareMap(ApplyAll(m, es)) == ApplyAll(BareMap(m), es')
    decreases |es|
  {
    if es != [] {
      BareApplyAll(m, es[..|es| - 1], es'[..|es| - 1]);
    }
  }

  lemma {:induction false} BareEdits(m: SymbolMap, msg: Message)
    ensures BareMap(ApplyAll(m, Edits(msg))) == ApplyAll(BareMap(m), Edits(BareMessage(msg)))
  {
    BareApplyAll(m, Edits(msg), Edits(BareMessage(msg)));
  }

  lemma {:induction false} BareKeyed(m: SymbolMap)
    ensures Keyed(m) <==> Keyed(BareMap(m))
  {
    assert forall k <- m :: BareMap(m)[k].position == m[k].position;
  }

  // ----- The machine -----

  datatype Event = Text(message: Message) | Restyle(changed: seq<Symbol>) | Realign(symbol: Symbol)

  /** The symbols that a change names. */
  function Named(e: Event): seq<Symbol> {
    match e
    case Text(_) => []
    case Restyle(ss) => BareAll(ss)
    case Realign(s) => [Bare(s)]
  }

  datatype Full = Full(
    docs: seq<Document>,
    up: seq<seq<Event>>,
    down: seq<seq<Event>>,
    server: SymbolMap,
    inserted: multiset<Symbol>,
    erased: multiset<Symbol>)

  function TextsOf(q: seq<Event>): seq<Message> {
    if q == [] then []
    else TextOf(q[0]) + TextsOf(q[1..])
  }

  function TextOf(e: Event): seq<Message> {
    if e.Text? then [BareMessage(e.message)] else []
  }

  function TextsEach(qs: seq<seq<Event>>): (r: seq<seq<Message>>)
    ensures |r| == |qs| && forall i :: 0 <= i < |qs| ==> r[i] == TextsOf(qs[i])
  {
    seq(|qs|, i requires 0 <= i < |qs| => TextsOf(qs[i]))
  }

  function BareEach(docs: seq<Document>): (r: seq<Document>)
    ensures |r| == |docs| && forall i :: 0 <= i < |docs| ==> r[i] == BareAll(docs[i])
  {
    seq(|docs|, i requires 0 <= i < |docs| => BareAll(docs[i]))
  }

  /** The same without changes and formats. */
  function Texts(s: Full): State {
    State(BareEach(s.docs), TextsEach(s.up), TextsEach(s.down), BareMap(s.server), s.inserted, s.erased)
  }

  ghost predicate FullInitial(s: Full, d: Document) {
    && |s.docs| == |s.up| == |s.down|
    && Sorted(d) && AllWellFormed(d) && d != []
    && (forall i :: 0 <= i < |d| ==> (d[i].value == TERMINATOR <==> i == |d| - 1))
    && (forall c :: 0 <= c < |s.docs| ==> s.docs[c] == d && s.up[c] == [] && s.down[c] == [])
    && Keyed(s.server) && Contents(s.server) == multiset(d)
    && s.inserted == multiset(BareAll(d)) && s.erased == multiset{}
  }

  predicate FullInsert(s: Full, s': Full, c: nat, k: nat, m: Message) {
    && c < |s.docs| == |s.up| && m.kind != Kind.Erased && (m.kind == Typed ==> |m.symbols| == 1)
    && k < |s.docs[c]|
    && Sorted(Paste(s.docs[c], k, m.symbols)) && AllWellFormed(Paste(s.docs[c], k, m.symbols))
    && (forall i :: 0 <= i < |m.symbols| ==> m.symbols[i].value != TERMINATOR)
    && (forall i, x :: 0 <= i < |m.symbols| && x in s.inserted ==> x.position != m.symbols[i].position)
    && s' == s.(docs := s.docs[c := Paste(s.docs[c], k, m.symbols)],
                up := s.up[c := s.up[c] + [Text(m)]],
                inserted := s.inserted + multiset(BareAll(m.symbols)))
  }

  /** A change of `x` is on its way to client `c`. */
  predicate ChangeComes(s: Full, c: nat, x: Symbol)
    requires c < |s.down|
  {
    || (exists i :: 0 <= i < |s.down[c]| && x in Named(s.down[c][i]))
    || (exists j, i :: 0 <= j < |s.up| && j != c && 0 <= i < |s.up[j]| && x in Named(s.up[j][i]))
  }

  predicate FullErase(s: Full, s': Full, c: nat, k: nat, n: nat) {
    && c < |s.docs| == |s.up| == |s.down| && k + n < |s.docs[c]|
    && (forall i :: k <= i < k + n ==>
          Bare(s.docs[c][i]) !in s.erased && !ChangeComes(s, c, Bare(s.docs[c][i])))
    && s' == s.(docs := s.docs[c := Cut(s.docs[c], k, n)],
                up := s.up[c := s.up[c] + [Text(Message(Kind.Erased, Slice(s.docs[c], k, n)))]],
                erased := s.erased + multiset(BareAll(Slice(s.docs[c], k, n))))
  }

  /** Client `c` changes formats or an alignment, of symbols that nobody erased, and tells the others. */
  predicate FullChange(s: Full, s': Full, c: nat, d: Document, e: Event) {
    && c < |s.docs| == |s.up| && BareAll(d) == BareAll(s.docs[c])
    && !e.Text? && (forall x <- Named(e) :: x in BareAll(d) && x !in s.erased)
    && s' == s.(docs := s.docs[c := d], up := s.up[c := s.up[c] + [e]])
  }

  /** What the server stores of an event. */
  function Stored(m: SymbolMap, e: Event): SymbolMap {
    match e
    case Text(msg) => ApplyAll(m, Edits(msg))
    case Restyle(ss) => ApplyAll(m, EditsOf(PastedText, ss))
    case Realign(s) => Apply(m, Put(s))
  }

  predicate FullServe(s: Full, s': Full, c: nat) {
    && c < |s.docs| == |s.up| && s.up[c] != []
    && var e := s.up[c][0];
       s' == s.(server := Stored(s.server, e),
                up := s.up[c := s.up[c][1..]],
                down := seq(|s.down|, i requires 0 <= i < |s.down| =>
                              if i == c then s.down[i] else s.down[i] + [e]))
  }

  /** What a client makes of an event. */
  function Handled(d: Document, e: Event): Document {
    match e
    case Text(msg) => Receive(d, msg)
    case Restyle(ss) => ReplaceAll(d, ss)
    case Realign(s) => AlignAt(d, s.position, s.format.align)
  }

  predicate FullHandle(s: Full, s': Full, c: nat) {
    && c < |s.docs| == |s.down| && s.down[c] != []
    && s' == s.(docs := s.docs[c := Handled(s.docs[c], s.down[c][0])],
                down := s.down[c := s.down[c][1..]])
  }

  ghost predicate FullJoin(s: Full, s': Full, d: Document) {
    && ListsServer(d, s.server)
    && s' == s.(docs := s.docs + [d], up := s.up + [[]], down := s.down + [[]])
  }

  ghost predicate FullLeave(s: Full, s': Full, c: nat) {
    && c < |s.docs| == |s.up| == |s.down|
    && s' == s.(docs := Leaving(s.docs, c), up := Leaving(s.up, c), down := Leaving(s.down, c),
                inserted := s.inserted - EndToEnd.Sent(TextsOf(s.up[c]), Ins),
                erased := s.erased - EndToEnd.Sent(TextsOf(s.up[c]), Del))
  }

  ghost predicate FullNext(s: Full, s': Full) {
    && |s.docs| == |s.up| == |s.down|
    && (|| (exists c: nat, k: nat, m :: FullInsert(s, s', c, k, m))
        || (exists c: nat, k: nat, n: nat :: FullErase(s, s', c, k, n))
        || (exists c: nat, d, e :: FullChange(s, s', c, d, e))
        || (exists c: nat :: FullServe(s, s', c))
        || (exists c: nat :: FullHandle(s, s', c))
        || (exists d :: FullJoin(s, s', d))
        || (exists c: nat :: FullLeave(s, s', c)))
  }

  ghost predicate IsFullRun(run: seq<Full>, d: Document) {
    && run != [] && FullInitial(run[0], d)
    && forall i :: 0 <= i < |run| - 1 ==> FullNext(run[i], run[i + 1])
  }

  // ----- Channels -----

  lemma {:induction false} TextsOne(e: Event)
    ensures TextsOf([e]) == TextOf(e)
  {
    assert [e][1..] == [] && TextOf(e) + [] == TextOf(e);
  }

  lemma {:induction false} TextsSnoc(q: seq<Event>, e: Event)
    ensures TextsOf(q + [e]) == TextsOf(q) + TextsOf([e])
    ensures TextsOf([e]) == TextOf(e)
    decreases |q|
  {
    TextsOne(e);
    if q == [] {
      assert q + [e] == [e];
    } else {
      var rest := q[1..];
      assert (q + [e])[0] == q[0] && (q + [e])[1..] == rest + [e];
      TextsSnoc(rest, e);
      assert TextOf(q[0]) + (TextsOf(rest) + TextOf(e)) == TextOf(q[0]) + TextsOf(rest) + TextOf(e);
    }
  }

  lemma {:induction false} TextsEachUpdate(qs: seq<seq<Event>>, c: nat, q: seq<Event>)
    requires c < |qs|
    ensures TextsEach(qs[c := q]) == TextsEach(qs)[c := TextsOf(q)]
  {
  }

  lemma {:induction false} BareEachUpdate(docs: seq<Document>, c: nat, d: Document)
    requires c < |docs|
    ensures BareEach(docs[c := d]) == BareEach(docs)[c := BareAll(d)]
  {
  }

  // ----- Every step is a step of `EndToEnd`, or none -----

  lemma {:induction false} InsertWithout(s: Full, s': Full, c: nat, k: nat, m: Message)
    requires FullInsert(s, s', c, k, m)
    ensures InsertStep(Texts(s), Texts(s'), c, k, BareMessage(m))
  {
    var d, r := s.docs[c], Paste(s.docs[c], k, m.symbols);
    BareSlices(d, k, 0, m.symbols);
    BareSame(r);
    BareEachUpdate(s.docs, c, r);
    TextsSnoc(s.up[c], Text(m));
    TextsEachUpdate(s.up, c, s.up[c] + [Text(m)]);
    assert BareAll(m.symbols) == BareMessage(m).symbols;
  }

  lemma {:induction false} EraseWithout(s: Full, s': Full, c: nat, k: nat, n: nat)
    requires FullErase(s, s', c, k, n)
    ensures EndToEnd.EraseStep(Texts(s), Texts(s'), c, k, n)
  {
    var d, m := s.docs[c], Message(Kind.Erased, Slice(s.docs[c], k, n));
    BareSlices(d, k, n, []);
    BareEachUpdate(s.docs, c, Cut(d, k, n));
    TextsSnoc(s.up[c], Text(m));
    TextsEachUpdate(s.up, c, s.up[c] + [Text(m)]);
  }

  lemma {:induction false} ChangeWithout(s: Full, s': Full, c: nat, d: Document, e: Event)
    requires FullChange(s, s', c, d, e)
    ensures Texts(s') == Texts(s)
  {
    BareEachUpdate(s.docs, c, d);
    assert BareEach(s.docs)[c := BareAll(s.docs[c])] == BareEach(s.docs);
    TextsSnoc(s.up[c], e);
    assert TextsOf(s.up[c]) + [] == TextsOf(s.up[c]);
    TextsEachUpdate(s.up, c, s.up[c] + [e]);
    assert TextsEach(s.up)[c := TextsOf(s.up[c])] == TextsEach(s.up);
  }

  /** Relaying an event to everybody else. */
  lemma {:induction false} RelayWithout(down: seq<seq<Event>>, c: nat, e: Event, r: seq<seq<Event>>)
    requires |r| == |down| && forall i :: 0 <= i < |down| ==> r[i] == if i == c then down[i] else down[i] + [e]
    ensures !e.Text? ==> TextsEach(r) == TextsEach(down)
    ensures e.Text? ==> forall i :: 0 <= i < |down| ==>
              TextsEach(r)[i] == if i == c then TextsEach(down)[i] else TextsEach(down)[i] + [BareMessage(e.message)]
  {
    forall i | 0 <= i < |down|
      ensures TextsOf(r[i]) == TextsOf(down[i]) + if e.Text? && i != c then [BareMessage(e.message)] else []
    {
      TextsSnoc(down[i], e);
      assert TextsOf(down[i]) + [] == TextsOf(down[i]);
    }
    if !e.Text? {
      forall i | 0 <= i < |down| ensures TextsEach(r)[i] == TextsEach(down)[i] {
        assert TextsOf(down[i]) + [] == TextsOf(down[i]);
      }
    }
  }

  lemma {:induction false} ServeTextWithout(s: Full, s': Full, c: nat)
    requires FullServe(s, s', c) && s.up[c][0].Text?
    ensures ServerStep(Texts(s), Texts(s'), c)
  {
    var e, t := s.up[c][0], Texts(s);
    var m := BareMessage(e.message);
    BareEdits(s.server, e.message);
    TextsEachUpdate(s.up, c, s.up[c][1..]);
    RelayWithout(s.down, c, e, s'.down);
    assert t.up[c] == [m] + TextsOf(s.up[c][1..]);
    assert Texts(s').down
        == seq(|t.down|, i requires 0 <= i < |t.down| => if i == c then t.down[i] else t.down[i] + [m]);
  }

  /** A change whose symbols the server holds changes nothing but formats. */
  lemma {:induction false} ServeChangeWithout(s: Full, s': Full, c: nat)
    requires FullServe(s, s', c) && !s.up[c][0].Text? && Keyed(s.server)
    requires forall x <- Named(s.up[c][0]) :: x in Contents(BareMap(s.server))
    ensures Texts(s') == Texts(s)
  {
    var e := s.up[c][0];
    TextsEachUpdate(s.up, c, s.up[c][1..]);
    assert TextsOf(s.up[c]) == TextsOf(s.up[c][1..]);
    assert TextsEach(s.up)[c := TextsOf(s.up[c])] == TextsEach(s.up);
    RelayWithout(s.down, c, e, s'.down);
    StoredChange(s.server, e);
  }

  lemma {:induction false} StoredChange(m: SymbolMap, e: Event)
    requires !e.Text? && Keyed(m) && forall x <- Named(e) :: x in Contents(BareMap(m))
    ensures BareMap(Stored(m, e)) == BareMap(m)
  {
    match e
    case Restyle(ss) =>
      forall i | 0 <= i < |ss| ensures Bare(ss[i]) in Contents(BareMap(m)) {
        assert BareAll(ss)[i] in Named(e);
      }
      PutChanged(m, ss);
    case Realign(s) =>
      assert Bare(s) in Named(e);
      PutOneChanged(m, s);
  }

  lemma {:induction false} PutOneChanged(m: SymbolMap, s: Symbol)
    requires Keyed(m) && Bare(s) in Contents(BareMap(m))
    ensures BareMap(Apply(m, Put(s))) == BareMap(m)
  {
    BareKeyed(m);
    ContentsMember(BareMap(m), Bare(s));
  }

  lemma {:induction false} PutChanged(m: SymbolMap, ss: seq<Symbol>)
    requires Keyed(m) && forall i :: 0 <= i < |ss| ==> Bare(ss[i]) in Contents(BareMap(m))
    ensures BareMap(ApplyAll(m, EditsOf(PastedText, ss))) == BareMap(m) && Keyed(ApplyAll(m, EditsOf(PastedText, ss)))
    decreases |ss|
  {
    if ss == [] {
      assert EditsOf(PastedText, ss) == [];
    } else {
      var n := |ss| - 1;
      var r := ApplyAll(m, EditsOf(PastedText, ss[..n]));
      PutChanged(m, ss[..n]);
      assert ss[..n + 1] == ss;
      ApplyOne(m, PastedText, ss, n);
      PutOneChanged(r, ss[n]);
      ApplyKeepsKeyed(r, Put(ss[n]));
    }
  }

  lemma {:induction false} HandleTextWithout(s: Full, s': Full, c: nat)
    requires FullHandle(s, s', c) && s.down[c][0].Text?
    ensures ClientStep(Texts(s), Texts(s'), c)
  {
    var m := s.down[c][0].message;
    BareReceive(s.docs[c], m);
    BareEachUpdate(s.docs, c, Receive(s.docs[c], m));
    TextsEachUpdate(s.down, c, s.down[c][1..]);
  }

  /** A change whose symbols the client holds changes nothing but formats there. */
  lemma {:induction false} HandleChangeWithout(s: Full, s': Full, c: nat)
    requires FullHandle(s, s', c) && !s.down[c][0].Text? && Sorted(s.docs[c])
    requires forall x <- Named(s.down[c][0]) :: x in BareAll(s.docs[c])
    ensures Texts(s') == Texts(s)
  {
    var e := s.down[c][0];
    HandledChange(s.docs[c], e);
    BareEachUpdate(s.docs, c, Handled(s.docs[c], e));
    assert BareEach(s.docs)[c := BareAll(s.docs[c])] == BareEach(s.docs);
    TextsEachUpdate(s.down, c, s.down[c][1..]);
    assert TextsOf(s.down[c]) == TextsOf(s.down[c][1..]);
    assert TextsEach(s.down)[c := TextsOf(s.down[c])] == TextsEach(s.down);
  }

  lemma {:induction false} HandledChange(d: Document, e: Event)
    requires !e.Text? && Sorted(d) && forall x <- Named(e) :: x in BareAll(d)
    ensures BareAll(Handled(d, e)) == BareAll(d)
  {
    match e
    case Restyle(ss) =>
      forall i | 0 <= i < |ss| ensures Bare(ss[i]) in BareAll(d) {
        assert BareAll(ss)[i] in Named(e);
      }
      BareReplaceAll(d, ss);
    case Realign(s) =>
      BareAlignAt(d, s.position, s.format.align);
  }

  lemma {:induction false} BareReplaceAll(d: Document, ss: seq<Symbol>)
    requires Sorted(d) && forall i :: 0 <= i < |ss| ==> Bare(ss[i]) in BareAll(d)
    ensures Sorted(ReplaceAll(d, ss)) && BareAll(ReplaceAll(d, ss)) == BareAll(d)
    decreases |ss|
  {
    if ss != [] {
      var r, s := ReplaceAll(d, ss[..|ss| - 1]), ss[|ss| - 1];
      BareReplaceAll(d, ss[..|ss| - 1]);
      ReplaceCell(r, s);
      BareReplace(r, s);
    }
  }

  lemma {:induction false} BareReplace(d: Document, s: Symbol)
    requires Sorted(d) && Bare(s) in BareAll(d)
    ensures BareAll(Replace(d, s)) == BareAll(d)
  {
    var j :| 0 <= j < |d| && Bare(d[j]) == Bare(s);
    ReplaceCell(d, s);
    forall i | 0 <= i < |d| ensures Bare(Replace(d, s)[i]) == Bare(d[i]) {
      Antisymmetric(d[i].position, d[j].position);
    }
  }

  lemma {:induction false} JoinWithout(s: Full, s': Full, d: Document)
    requires FullJoin(s, s', d) && Keyed(s.server)
    ensures JoinStep(Texts(s), Texts(s'), BareAll(d))
  {
    BareLists(d, s.server);
    BareEachJoined(s.docs, d);
    TextsEachJoined(s.up);
    TextsEachJoined(s.down);
  }

  lemma {:induction false} BareEachJoined(docs: seq<Document>, d: Document)
    ensures BareEach(docs + [d]) == BareEach(docs) + [BareAll(d)]
  {
  }

  lemma {:induction false} TextsEachJoined(qs: seq<seq<Event>>)
    ensures TextsEach(qs + [[]]) == TextsEach(qs) + [[]]
  {
  }

  lemma {:induction false} BareLists(d: Document, m: SymbolMap)
    requires ListsServer(d, m) && Keyed(m)
    ensures ListsServer(BareAll(d), BareMap(m))
  {
    BareSame(d);
    BareKeyed(m);
    forall x ensures x in BareAll(d) <==> x in Contents(BareMap(m)) {
      if i :| 0 <= i < |d| && BareAll(d)[i] == x {
        assert d[i] in multiset(d);
        ContentsMember(m, d[i]);
        ContentsMember(BareMap(m), x);
      }
      if x in Contents(BareMap(m)) {
        ContentsMember(BareMap(m), x);
        var y := m[Key(x.position)];
        ContentsMember(m, y);
        assert y in multiset(d);
        var i :| 0 <= i < |d| && d[i] == y;
        assert BareAll(d)[i] == x;
      }
    }
    ListsByMembers(BareAll(d), BareMap(m));
  }

  lemma {:induction false} LeaveWithout(s: Full, s': Full, c: nat)
    requires FullLeave(s, s', c)
    ensures LeaveStep(Texts(s), Texts(s'), c)
  {
    assert BareEach(Leaving(s.docs, c)) == Leaving(BareEach(s.docs), c);
    assert TextsEach(Leaving(s.up, c)) == Leaving(TextsEach(s.up), c);
    assert TextsEach(Leaving(s.down, c)) == Leaving(TextsEach(s.down), c);
  }

  // ----- Every change on its way finds its symbols -----

  /** Behind a change of `x` on a channel of client `j`, with `rest` behind it: `x` was inserted, nothing still
  brings it, and every erasure of it is behind the change. */
  ghost predicate Due(t: State, rest: seq<Message>, j: int, x: Symbol) {
    && t.inserted[x] == 1
    && Content(rest, Ins, x) == 0 && Up(t.up, j, Ins, x) == 0
    && t.erased[x] == Content(rest, Del, x) + Up(t.up, j, Del, x)
  }

  ghost predicate QueueDue(t: State, q: seq<Event>, j: int) {
    forall i, x :: 0 <= i < |q| && x in Named(q[i]) ==> Due(t, TextsOf(q[i + 1..]), j, x)
  }

  /** Nobody else's erasure races with a change on its way to the server. */
  ghost predicate Undisturbed(t: State, q: seq<Event>, j: int) {
    forall i, x :: 0 <= i < |q| && x in Named(q[i]) ==> Up(t.up, j, Del, x) == 0
  }

  ghost predicate AllDue(s: Full) {
    && (forall j :: 0 <= j < |s.up| ==> QueueDue(Texts(s), s.up[j], j) && Undisturbed(Texts(s), s.up[j], j))
    && (forall j :: 0 <= j < |s.down| ==> QueueDue(Texts(s), s.down[j], j))
  }

  lemma {:induction false} DueTail(t: State, q: seq<Event>, j: int)
    requires QueueDue(t, q, j) && q != []
    ensures QueueDue(t, q[1..], j)
  {
    forall i, x | 0 <= i < |q[1..]| && x in Named(q[1..][i]) ensures Due(t, TextsOf(q[1..][i + 1..]), j, x) {
      assert q[1..][i] == q[i + 1] && q[1..][i + 1..] == q[i + 2..];
    }
  }

  lemma {:induction false} DueSnoc(t: State, q: seq<Event>, e: Event, j: int)
    requires forall i, x :: 0 <= i < |q| && x in Named(q[i]) ==> Due(t, TextsOf(q[i + 1..]) + TextsOf([e]), j, x)
    requires forall x <- Named(e) :: Due(t, [], j, x)
    ensures QueueDue(t, q + [e], j)
  {
    forall i, x | 0 <= i < |q + [e]| && x in Named((q + [e])[i]) ensures Due(t, TextsOf((q + [e])[i + 1..]), j, x) {
      BehindSnoc(q, e, i);
    }
  }

  lemma {:induction false} BehindSnoc(q: seq<Event>, e: Event, i: nat)
    requires i <= |q|
    ensures (q + [e])[i] == if i < |q| then q[i] else e
    ensures TextsOf((q + [e])[i + 1..]) == if i < |q| then TextsOf(q[i + 1..]) + TextsOf([e]) else []
  {
    if i < |q| {
      assert (q + [e])[i + 1..] == q[i + 1..] + [e];
      TextsSnoc(q[i + 1..], e);
    }
  }

  /** What a step does to one channel of a client, which stands at `j` before it and at `j'` after it. */
  ghost predicate Carries(t: State, t': State, j: int, j': int) {
    forall rest: seq<Message>, x :: Due(t, rest, j, x) ==> Due(t', rest, j', x)
  }

  ghost predicate CarriesUp(t: State, t': State, j: int, j': int) {
    forall rest: seq<Message>, x ::
      Due(t, rest, j, x) && Up(t.up, j, Del, x) == 0 ==> Due(t', rest, j', x) && Up(t'.up, j', Del, x) == 0
  }

  lemma {:induction false} Carried(t: State, t': State, q: seq<Event>, j: int, j': int)
    requires QueueDue(t, q, j)
    ensures Carries(t, t', j, j') ==> QueueDue(t', q, j')
    ensures CarriesUp(t, t', j, j') && Undisturbed(t, q, j) ==> QueueDue(t', q, j') && Undisturbed(t', q, j')
  {
  }

  // Typing and erasing.

  lemma {:induction false} LocalUp(t: State, t': State, c: nat, m: Message, j: int, op: Op, x: Symbol)
    requires LocalEffect(t, t', c, m)
    ensures Up(t'.up, j, op, x) == Up(t.up, j, op, x) + if j == c then 0 else Count(Of(m, op), x)
  {
    ContentSnoc(t.up[c], m, op, x);
    UpUpdate(t.up, c, t.up[c] + [m], j, op, x);
  }

  /** An edit of another client, or one that does not erase `x`. */
  lemma {:induction false} LocalDue(t: State, t': State, c: nat, m: Message, rest: seq<Message>, j: int, x: Symbol)
    requires LocalEffect(t, t', c, m) && Due(t, rest, j, x) && Count(Of(m, Ins), x) == 0
    requires j == c ==> Count(Of(m, Del), x) == 0
    ensures Due(t', rest, j, x)
  {
    LocalUp(t, t', c, m, j, Ins, x);
    LocalUp(t, t', c, m, j, Del, x);
  }

  /** An edit behind an own change. */
  lemma {:induction false} LocalDueBehind(t: State, t': State, c: nat, m: Message, rest: seq<Message>, x: Symbol)
    requires LocalEffect(t, t', c, m) && Due(t, rest, c, x) && Count(Of(m, Ins), x) == 0
    ensures Due(t', rest + [m], c, x)
  {
    LocalUp(t, t', c, m, c, Ins, x);
    LocalUp(t, t', c, m, c, Del, x);
    ContentSnoc(rest, m, Ins, x);
    ContentSnoc(rest, m, Del, x);
  }

  /** What both kinds of local edit need. */
  ghost predicate Discreet(s: Full, c: nat, m: Message)
    requires c < |s.up| && c < |s.down|
  {
    && (forall x :: s.inserted[x] == 1 ==> Count(Of(BareMessage(m), Ins), x) == 0)
    && (forall x <- Of(BareMessage(m), Del) :: !ChangeComes(s, c, x))
  }

  lemma {:induction false} LocalQueueDue(t: State, t': State, c: nat, m: Message, q: seq<Event>, j: int)
    requires LocalEffect(t, t', c, BareMessage(m)) && QueueDue(t, q, j)
    requires forall x :: t.inserted[x] == 1 ==> Count(Of(BareMessage(m), Ins), x) == 0
    requires j == c ==> forall i, x :: 0 <= i < |q| && x in Named(q[i]) ==> x !in Of(BareMessage(m), Del)
    ensures QueueDue(t', q, j)
  {
    forall i, x | 0 <= i < |q| && x in Named(q[i]) ensures Due(t', TextsOf(q[i + 1..]), j, x) {
      CountMember(Of(BareMessage(m), Del), x);
      LocalDue(t, t', c, BareMessage(m), TextsOf(q[i + 1..]), j, x);
    }
  }

  lemma {:induction false} LocalOwnDue(t: State, t': State, c: nat, m: Message, q: seq<Event>)
    requires LocalEffect(t, t', c, BareMessage(m)) && QueueDue(t, q, c)
    requires forall x :: t.inserted[x] == 1 ==> Count(Of(BareMessage(m), Ins), x) == 0
    ensures QueueDue(t', q + [Text(m)], c)
  {
    TextsSnoc(q, Text(m));
    forall i, x | 0 <= i < |q| && x in Named(q[i])
      ensures Due(t', TextsOf(q[i + 1..]) + TextsOf([Text(m)]), c, x)
    {
      LocalDueBehind(t, t', c, BareMessage(m), TextsOf(q[i + 1..]), x);
    }
    DueSnoc(t', q, Text(m), c);
  }

  lemma {:induction false} LocalUndisturbed(s: Full, t': State, c: nat, m: Message, j: nat)
    requires c < |s.up| && c < |s.down| && LocalEffect(Texts(s), t', c, BareMessage(m)) && Discreet(s, c, m)
    requires j < |s.up| && Undisturbed(Texts(s), s.up[j], j)
    ensures Undisturbed(t', s.up[j], j)
  {
    forall i, x | 0 <= i < |s.up[j]| && x in Named(s.up[j][i]) ensures Up(t'.up, j, Del, x) == 0 {
      LocalUp(Texts(s), t', c, BareMessage(m), j, Del, x);
      if j != c && x in Of(BareMessage(m), Del) {
        assert ChangeComes(s, c, x);
      }
    }
  }

  lemma {:induction false} LocalKeepsDue(s: Full, s': Full, c: nat, m: Message)
    requires c < |s.up| && |s.up| == |s.down| && AllDue(s) && Discreet(s, c, m)
    requires LocalEffect(Texts(s), Texts(s'), c, BareMessage(m))
    requires s'.up == s.up[c := s.up[c] + [Text(m)]] && s'.down == s.down
    ensures AllDue(s')
  {
    var t, t' := Texts(s), Texts(s');
    forall j | 0 <= j < |s.up| ensures QueueDue(t', s'.up[j], j) && Undisturbed(t', s'.up[j], j) {
      LocalUndisturbed(s, t', c, m, j);
      if j == c {
        LocalOwnDue(t, t', c, m, s.up[c]);
        assert forall i :: 0 <= i < |s'.up[c]| && Named(s'.up[c][i]) != [] ==> i < |s.up[c]| && s'.up[c][i] == s.up[c][i];
      } else {
        LocalQueueDue(t, t', c, m, s.up[j], j);
      }
    }
    forall j | 0 <= j < |s.down| ensures QueueDue(t', s'.down[j], j) {
      LocalDownDue(s, t', c, m, j);
    }
  }

  lemma {:induction false} LocalDownDue(s: Full, t': State, c: nat, m: Message, j: nat)
    requires c < |s.up| && c < |s.down| && LocalEffect(Texts(s), t', c, BareMessage(m)) && Discreet(s, c, m)
    requires j < |s.down| && QueueDue(Texts(s), s.down[j], j)
    ensures QueueDue(t', s.down[j], j)
  {
    if j == c {
      forall i, x | 0 <= i < |s.down[c]| && x in Named(s.down[c][i]) ensures x !in Of(BareMessage(m), Del) {
        assert ChangeComes(s, c, x);
      }
    }
    LocalQueueDue(Texts(s), t', c, m, s.down[j], j);
  }

  lemma {:induction false} InsertKeepsDue(s: Full, s': Full, c: nat, k: nat, m: Message)
    requires |s.docs| == |s.down| && AllDue(s) && FullInsert(s, s', c, k, m)
    ensures AllDue(s')
  {
    InsertWithout(s, s', c, k, m);
    InsertEffect(Texts(s), Texts(s'), c, k, BareMessage(m));
    forall x | s.inserted[x] == 1 ensures Count(BareAll(m.symbols), x) == 0 {
      assert x in s.inserted;
      CountMember(BareAll(m.symbols), x);
      forall i | 0 <= i < |m.symbols| ensures BareAll(m.symbols)[i] != x {
      }
    }
    LocalKeepsDue(s, s', c, m);
  }

  lemma {:induction false} EraseKeepsDue(s: Full, s': Full, c: nat, k: nat, n: nat)
    requires AllDue(s) && FullErase(s, s', c, k, n)
    ensures AllDue(s')
  {
    EraseIsLocal(s, s', c, k, n);
    EraseDiscreet(s, s', c, k, n);
    LocalKeepsDue(s, s', c, Message(Kind.Erased, Slice(s.docs[c], k, n)));
  }

  lemma {:induction false} EraseIsLocal(s: Full, s': Full, c: nat, k: nat, n: nat)
    requires FullErase(s, s', c, k, n)
    ensures LocalEffect(Texts(s), Texts(s'), c, BareMessage(Message(Kind.Erased, Slice(s.docs[c], k, n))))
  {
    EraseWithout(s, s', c, k, n);
    BareSlices(s.docs[c], k, n, []);
    EraseEffect(Texts(s), Texts(s'), c, k, n);
  }

  lemma {:induction false} EraseDiscreet(s: Full, s': Full, c: nat, k: nat, n: nat)
    requires FullErase(s, s', c, k, n)
    ensures Discreet(s, c, Message(Kind.Erased, Slice(s.docs[c], k, n)))
  {
    var ss := BareAll(Slice(s.docs[c], k, n));
    forall x | x in ss ensures !ChangeComes(s, c, x) {
      var i :| 0 <= i < |ss| && ss[i] == x;
      assert x == Bare(s.docs[c][k + i]);
    }
  }

  // Changing.

  lemma {:induction false} HeldDue(t: State, last: Symbol, c: nat, x: Symbol)
    requires Inv(t, last) && c < |t.docs| && x in t.docs[c] && x !in t.erased
    ensures Due(t, [], c, x) && Up(t.up, c, Del, x) == 0
  {
    HeldSymbol(t, last, c, x);
    UpMember(t.up, c, Ins, x);
    assert Inbound(t, c, Del, x) <= t.erased[x];
  }

  lemma {:induction false} ChangeKeepsDue(s: Full, s': Full, c: nat, d: Document, e: Event, last: Symbol)
    requires Inv(Texts(s), last) && AllDue(s) && FullChange(s, s', c, d, e)
    ensures AllDue(s')
  {
    var t := Texts(s);
    ChangeWithout(s, s', c, d, e);
    forall x | x in Named(e) ensures Due(t, [], c, x) && Up(t.up, c, Del, x) == 0 {
      HeldDue(t, last, c, x);
    }
    DueChange(t, s.up[c], e, c);
    UndisturbedMore(t, s.up[c], e, c);
  }

  /** A change at the end of a queue leaves everything before it due. */
  lemma {:induction false} DueChange(t: State, q: seq<Event>, e: Event, j: int)
    requires QueueDue(t, q, j) && !e.Text? && forall x <- Named(e) :: Due(t, [], j, x)
    ensures QueueDue(t, q + [e], j)
  {
    TextsSnoc(q, e);
    forall i, x | 0 <= i < |q| && x in Named(q[i]) ensures Due(t, TextsOf(q[i + 1..]) + TextsOf([e]), j, x) {
      assert TextsOf(q[i + 1..]) + [] == TextsOf(q[i + 1..]);
    }
    DueSnoc(t, q, e, j);
  }

  lemma {:induction false} UndisturbedMore(t: State, q: seq<Event>, e: Event, j: int)
    requires Undisturbed(t, q, j) && forall x <- Named(e) :: Up(t.up, j, Del, x) == 0
    ensures Undisturbed(t, q + [e], j)
  {
  }

  // Serving.

  lemma {:induction false} ServedUp(t: State, t': State, c: nat, j: int, op: Op, x: Symbol)
    requires ServerStep(t, t', c)
    ensures Up(t'.up, j, op, x) == Up(t.up, j, op, x) - if j == c then 0 else Count(Of(t.up[c][0], op), x)
  {
    UpUpdate(t.up, c, t.up[c][1..], j, op, x);
  }

  /** On the channel down, what the server relays moves behind the change. */
  lemma {:induction false} ServedDue(t: State, t': State, c: nat, rest: seq<Message>, j: int, x: Symbol)
    requires ServerStep(t, t', c) && Due(t, rest, j, x)
    ensures Due(t', if j == c then rest else rest + [t.up[c][0]], j, x)
  {
    var m := t.up[c][0];
    ServedUp(t, t', c, j, Ins, x);
    ServedUp(t, t', c, j, Del, x);
    ContentSnoc(rest, m, Ins, x);
    ContentSnoc(rest, m, Del, x);
  }

  /** On a channel up, the served message was somebody else's and has nothing to do with the change. */
  lemma {:induction false} ServedDueUp(t: State, t': State, c: nat, rest: seq<Message>, j: int, x: Symbol)
    requires ServerStep(t, t', c) && Due(t, rest, j, x) && Up(t.up, j, Del, x) == 0
    ensures Due(t', rest, j, x) && Up(t'.up, j, Del, x) == 0
  {
    ServedUp(t, t', c, j, Ins, x);
    ServedUp(t, t', c, j, Del, x);
  }

  lemma {:induction false} ServedQueueUp(t: State, t': State, c: nat, q: seq<Event>, j: int)
    requires ServerStep(t, t', c) && QueueDue(t, q, j) && Undisturbed(t, q, j)
    ensures QueueDue(t', q, j) && Undisturbed(t', q, j)
  {
    forall rest: seq<Message>, x | Due(t, rest, j, x) && Up(t.up, j, Del, x) == 0
      ensures Due(t', rest, j, x) && Up(t'.up, j, Del, x) == 0
    {
      ServedDueUp(t, t', c, rest, j, x);
    }
    Carried(t, t', q, j, j);
  }

  lemma {:induction false} ServedQueueDown(t: State, t': State, c: nat, q: seq<Event>, e: Event, j: int)
    requires ServerStep(t, t', c) && QueueDue(t, q, j) && e.Text? && t.up[c][0] == BareMessage(e.message)
    ensures QueueDue(t', if j == c then q else q + [e], j)
  {
    TextsSnoc(q, e);
    forall i, x | 0 <= i < |q| && x in Named(q[i])
      ensures Due(t', if j == c then TextsOf(q[i + 1..]) else TextsOf(q[i + 1..]) + TextsOf([e]), j, x)
    {
      ServedDue(t, t', c, TextsOf(q[i + 1..]), j, x);
    }
    if j != c {
      DueSnoc(t', q, e, j);
    }
  }

  lemma {:induction false} UndisturbedTail(t: State, q: seq<Event>, j: int)
    requires Undisturbed(t, q, j) && q != []
    ensures Undisturbed(t, q[1..], j)
  {
    forall i, x | 0 <= i < |q[1..]| && x in Named(q[1..][i]) ensures Up(t.up, j, Del, x) == 0 {
      assert q[1..][i] == q[i + 1];
    }
  }

  lemma {:induction false} ServeTextKeepsDue(s: Full, s': Full, c: nat)
    requires AllDue(s) && FullServe(s, s', c) && s.up[c][0].Text?
    ensures AllDue(s')
  {
    var t, t', e := Texts(s), Texts(s'), s.up[c][0];
    ServeTextWithout(s, s', c);
    forall j | 0 <= j < |s'.up| ensures QueueDue(t', s'.up[j], j) && Undisturbed(t', s'.up[j], j) {
      ServedQueueUp(t, t', c, s.up[j], j);
      if j == c {
        DueTail(t', s.up[c], c);
        UndisturbedTail(t', s.up[c], c);
      }
    }
    forall j | 0 <= j < |s'.down| ensures QueueDue(t', s'.down[j], j) {
      ServedQueueDown(t, t', c, s.down[j], e, j);
    }
  }

  /** A change that reaches the server finds its symbols there, and is due on every channel down. */
  lemma {:induction false} ServedChange(t: State, last: Symbol, c: nat, rest: seq<Message>, x: Symbol)
    requires Inv(t, last) && c < |t.up| && t.up[c] == rest && Due(t, rest, c, x) && Up(t.up, c, Del, x) == 0
    ensures x in Contents(t.server)
    ensures forall j :: 0 <= j < |t.up| && j != c ==> Due(t, [], j, x)
  {
    UpWithout(t.up, c, Ins, x);
    UpWithout(t.up, c, Del, x);
    assert Contents(t.server)[x] + Up(t.up, -1, Ins, x) + t.erased[x] == t.inserted[x] + Up(t.up, -1, Del, x);
    forall j | 0 <= j < |t.up| && j != c ensures Due(t, [], j, x) {
      UpWithout(t.up, j, Ins, x);
      UpWithout(t.up, j, Del, x);
      UpAtLeast(t.up, j, c, Del, x);
    }
  }

  lemma {:induction false} HeadDue(s: Full, last: Symbol, c: nat, x: Symbol)
    requires Inv(Texts(s), last) && AllDue(s) && c < |s.up| && s.up[c] != [] && x in Named(s.up[c][0])
    ensures x in Contents(BareMap(s.server))
    ensures forall j :: 0 <= j < |s.up| && j != c ==> Due(Texts(s), [], j, x)
  {
    var t, q := Texts(s), s.up[c];
    assert QueueDue(t, q, c) && Undisturbed(t, q, c);
    FirstDue(t, q, c, x);
    ServedChange(t, last, c, TextsOf(q), x);
  }

  /** The change at the head of a queue has the whole queue behind it. */
  lemma {:induction false} FirstDue(t: State, q: seq<Event>, j: int, x: Symbol)
    requires QueueDue(t, q, j) && q != [] && x in Named(q[0])
    ensures Due(t, TextsOf(q), j, x)
    ensures Undisturbed(t, q, j) ==> Up(t.up, j, Del, x) == 0
  {
    assert Due(t, TextsOf(q[0 + 1..]), j, x);
    assert TextsOf(q) == TextsOf(q[1..]);
  }

  lemma {:induction false} ServeChangeKeepsDue(s: Full, s': Full, c: nat, last: Symbol)
    requires Inv(Texts(s), last) && AllDue(s) && FullServe(s, s', c) && !s.up[c][0].Text?
    ensures Texts(s') == Texts(s) && AllDue(s')
  {
    var t, e := Texts(s), s.up[c][0];
    BareKeyed(s.server);
    forall x | x in Named(e)
      ensures x in Contents(BareMap(s.server)) && forall j :: 0 <= j < |s.up| && j != c ==> Due(t, [], j, x)
    {
      HeadDue(s, last, c, x);
    }
    ServeChangeWithout(s, s', c);
    ChangeServed(s, s', c);
  }

  lemma {:induction false} ChangeServed(s: Full, s': Full, c: nat)
    requires |s.down| == |s.docs| && AllDue(s) && FullServe(s, s', c) && Texts(s') == Texts(s) && !s.up[c][0].Text?
    requires forall x <- Named(s.up[c][0]) :: forall j :: 0 <= j < |s.up| && j != c ==> Due(Texts(s), [], j, x)
    ensures AllDue(s')
  {
    var t, e := Texts(s), s.up[c][0];
    DueTail(t, s.up[c], c);
    UndisturbedTail(t, s.up[c], c);
    forall j | 0 <= j < |s'.down| ensures QueueDue(t, s'.down[j], j) {
      if j != c {
        DueChange(t, s.down[j], e, j);
      }
    }
  }

  // Handling.

  lemma {:induction false} HandledQueue(t: State, t': State, q: seq<Event>, j: int)
    requires t'.up == t.up && t'.inserted == t.inserted && t'.erased == t.erased
    ensures QueueDue(t, q, j) ==> QueueDue(t', q, j)
    ensures Undisturbed(t, q, j) ==> Undisturbed(t', q, j)
  {
    if QueueDue(t, q, j) {
      Carried(t, t', q, j, j);
    }
  }

  lemma {:induction false} HandleKeepsDue(s: Full, s': Full, c: nat)
    requires AllDue(s) && FullHandle(s, s', c)
    ensures AllDue(s')
  {
    var t, t' := Texts(s), Texts(s');
    forall j | 0 <= j < |s'.up| ensures QueueDue(t', s'.up[j], j) && Undisturbed(t', s'.up[j], j) {
      HandledQueue(t, t', s.up[j], j);
    }
    forall j | 0 <= j < |s'.down| ensures QueueDue(t', s'.down[j], j) {
      HandledQueue(t, t', s.down[j], j);
      if j == c {
        DueTail(t', s.down[c], c);
      }
    }
  }

  /** A change that reaches a client finds its symbols there. */
  lemma {:induction false} ChangeFinds(s: Full, last: Symbol, c: nat, x: Symbol)
    requires Inv(Texts(s), last) && AllDue(s) && c < |s.down| && s.down[c] != [] && x in Named(s.down[c][0])
    ensures c < |s.docs| && x in BareAll(s.docs[c])
  {
    var t, q := Texts(s), s.down[c];
    assert QueueDue(t, q, c);
    FirstDue(t, q, c, x);
    DueIsHeld(t, c, x);
  }

  /** What is due with nothing of it in the way is held. */
  lemma {:induction false} DueIsHeld(t: State, c: nat, x: Symbol)
    requires |t.docs| == |t.down| && Laws(t) && c < |t.docs| && Due(t, t.down[c], c, x)
    ensures x in t.docs[c]
  {
    assert Conserved(t, c);
    assert Count(t.docs[c], x) + Inbound(t, c, Ins, x) + t.erased[x] == t.inserted[x] + Inbound(t, c, Del, x);
    CountMember(t.docs[c], x);
  }

  // Opening and leaving.

  lemma {:induction false} JoinKeepsDue(s: Full, s': Full, d: Document)
    requires |s.docs| == |s.up| == |s.down| && Keyed(s.server) && AllDue(s) && FullJoin(s, s', d)
    ensures AllDue(s')
  {
    var t, t' := Texts(s), Texts(s');
    JoinWithout(s, s', d);
    forall j: int, q: seq<Event>
      ensures QueueDue(t, q, j) ==> QueueDue(t', q, j)
      ensures Undisturbed(t, q, j) ==> Undisturbed(t', q, j)
    {
      JoinedQueue(t, t', q, j);
    }
  }

  lemma {:induction false} JoinedQueue(t: State, t': State, q: seq<Event>, j: int)
    requires t'.up == t.up + [[]] && t'.inserted == t.inserted && t'.erased == t.erased
    ensures QueueDue(t, q, j) ==> QueueDue(t', q, j)
    ensures Undisturbed(t, q, j) ==> Undisturbed(t', q, j)
  {
    forall op: Op, x ensures Up(t'.up, j, op, x) == Up(t.up, j, op, x) {
      UpJoined(t.up, j, op, x);
    }
    forall rest: seq<Message>, x ensures Due(t, rest, j, x) <==> Due(t', rest, j, x) {
    }
  }

  lemma {:induction false} LeaveDue(t: State, t': State, c: nat, rest: seq<Message>, j: nat, x: Symbol)
    requires |t.docs| == |t.down| && Laws(t) && LeaveStep(t, t', c) && Due(t, rest, Shifted(j, c), x)
    ensures Due(t', rest, j, x)
    ensures Up(t.up, Shifted(j, c), Del, x) == 0 ==> Up(t'.up, j, Del, x) == 0
  {
    LeaveCounts(t, t', c, x);
    UpLeaving(t.up, c, j, Ins, x);
    UpLeaving(t.up, c, j, Del, x);
    UpAtLeast(t.up, c, Shifted(j, c), Ins, x);
  }

  lemma {:induction false} LeaveQueue(t: State, t': State, c: nat, q: seq<Event>, j: nat)
    requires |t.docs| == |t.down| && Laws(t) && LeaveStep(t, t', c) && QueueDue(t, q, Shifted(j, c))
    ensures QueueDue(t', q, j)
    ensures Undisturbed(t, q, Shifted(j, c)) ==> Undisturbed(t', q, j)
  {
    forall rest: seq<Message>, x | Due(t, rest, Shifted(j, c), x)
      ensures Due(t', rest, j, x)
      ensures Up(t.up, Shifted(j, c), Del, x) == 0 ==> Up(t'.up, j, Del, x) == 0
    {
      LeaveDue(t, t', c, rest, j, x);
    }
    Carried(t, t', q, Shifted(j, c), j);
  }

  lemma {:induction false} LeaveKeepsDue(s: Full, s': Full, c: nat)
    requires |s.docs| == |s.down| && Laws(Texts(s)) && AllDue(s) && FullLeave(s, s', c)
    ensures AllDue(s')
  {
    forall j | 0 <= j < |s'.up|
      ensures QueueDue(Texts(s'), s'.up[j], j) && Undisturbed(Texts(s'), s'.up[j], j)
      ensures QueueDue(Texts(s'), s'.down[j], j)
    {
      LeaveQueues(s, s', c, j);
    }
  }

  lemma {:induction false} LeaveQueues(s: Full, s': Full, c: nat, j: nat)
    requires |s.docs| == |s.down| && Laws(Texts(s)) && AllDue(s) && FullLeave(s, s', c) && j < |s'.up|
    ensures QueueDue(Texts(s'), s'.up[j], j) && Undisturbed(Texts(s'), s'.up[j], j)
    ensures QueueDue(Texts(s'), s'.down[j], j)
  {
    var e := Shifted(j, c);
    LeaveOne(s.up, c, j);
    LeaveOne(s.down, c, j);
    assert QueueDue(Texts(s), s.up[e], e) && Undisturbed(Texts(s), s.up[e], e) && QueueDue(Texts(s), s.down[e], e);
    LeaveWithout(s, s', c);
    LeaveQueue(Texts(s), Texts(s'), c, s.up[e], j);
    LeaveQueue(Texts(s), Texts(s'), c, s.down[e], j);
  }

  // ----- Whole runs -----

  ghost predicate FullInv(s: Full, last: Symbol) {
    && |s.docs| == |s.up| == |s.down| && Keyed(s.server)
    && Inv(Texts(s), last) && Seated(Texts(s), last) && AllDue(s)
  }

  /** Without its changes a step is one of `EndToEnd`, or none at all. */
  lemma {:induction false} StepWithout(s: Full, s': Full, last: Symbol)
    requires FullInv(s, last) && FullNext(s, s')
    ensures Texts(s') == Texts(s) || Next(Texts(s), Texts(s'))
    ensures AllDue(s')
  {
    if c: nat, k: nat, m :| FullInsert(s, s', c, k, m) {
      InsertWithout(s, s', c, k, m);
      InsertKeepsDue(s, s', c, k, m);
    } else if c: nat, k: nat, n: nat :| FullErase(s, s', c, k, n) {
      EraseWithout(s, s', c, k, n);
      EraseKeepsDue(s, s', c, k, n);
    } else if c: nat, d, e :| FullChange(s, s', c, d, e) {
      ChangeWithout(s, s', c, d, e);
      ChangeKeepsDue(s, s', c, d, e, last);
    } else if c: nat :| FullServe(s, s', c) {
      ServeWithout(s, s', c, last);
    } else if c: nat :| FullHandle(s, s', c) {
      HandleWithout(s, s', c, last);
    } else if d :| FullJoin(s, s', d) {
      JoinWithout(s, s', d);
      JoinKeepsDue(s, s', d);
    } else {
      var c: nat :| FullLeave(s, s', c);
      LeaveWithout(s, s', c);
      LeaveKeepsDue(s, s', c);
    }
  }

  lemma {:induction false} ServeWithout(s: Full, s': Full, c: nat, last: Symbol)
    requires FullInv(s, last) && FullServe(s, s', c)
    ensures AllDue(s') && (Texts(s') == Texts(s) || ServerStep(Texts(s), Texts(s'), c))
  {
    if s.up[c][0].Text? {
      ServeTextWithout(s, s', c);
      ServeTextKeepsDue(s, s', c);
    } else {
      ServeChangeKeepsDue(s, s', c, last);
    }
  }

  lemma {:induction false} HandleWithout(s: Full, s': Full, c: nat, last: Symbol)
    requires FullInv(s, last) && FullHandle(s, s', c)
    ensures AllDue(s') && (Texts(s') == Texts(s) || ClientStep(Texts(s), Texts(s'), c))
  {
    HandleKeepsDue(s, s', c);
    if s.down[c][0].Text? {
      HandleTextWithout(s, s', c);
    } else {
      forall x | x in Named(s.down[c][0]) ensures x in BareAll(s.docs[c]) {
        ChangeFinds(s, last, c, x);
      }
      BareSame(s.docs[c]);
      assert DocumentValid(Texts(s).docs[c], last);
      HandleChangeWithout(s, s', c);
    }
  }

  lemma {:induction false} FullKeepsInv(s: Full, s': Full, last: Symbol)
    requires FullInv(s, last) && FullNext(s, s')
    ensures FullInv(s', last)
  {
    StepWithout(s, s', last);
    if Next(Texts(s), Texts(s')) {
      NextKeepsInv(Texts(s), Texts(s'), last);
    }
    assert |Texts(s').docs| == |Texts(s').up| == |Texts(s').down|;
    BareKeyed(s'.server);
  }

  lemma {:induction false} FullStart(s: Full, d: Document)
    requires FullInitial(s, d)
    ensures d != [] && FullInv(s, Bare(d[|d| - 1]))
  {
    StartsInitial(s, d);
    NothingDue(s);
    StartInv(Texts(s), BareAll(d), Bare(d[|d| - 1]));
  }

  lemma {:induction false} StartInv(t: State, r: Document, last: Symbol)
    requires Initial(t, r) && r[|r| - 1] == last
    ensures Inv(t, last) && Seated(t, last)
  {
    InitialInv(t, r);
  }

  lemma {:induction false} StartsInitial(s: Full, d: Document)
    requires FullInitial(s, d)
    ensures Initial(Texts(s), BareAll(d))
  {
    BareSame(d);
    BareKeyed(s.server);
    BareLists(d, s.server);
    assert forall i :: 0 <= i < |d| ==> BareAll(d)[i].value == d[i].value;
  }

  lemma {:induction false} NothingDue(s: Full)
    requires |s.up| == |s.down| && forall c :: 0 <= c < |s.up| ==> s.up[c] == [] && s.down[c] == []
    ensures AllDue(s)
  {
  }

  lemma {:induction false} FullRunKeepsInv(run: seq<Full>, d: Document, n: nat)
    requires IsFullRun(run, d) && n < |run|
    ensures d != [] && FullInv(run[n], Bare(d[|d| - 1]))
  {
    FullStart(run[0], d);
    if n > 0 {
      FullRunKeepsInv(run, d, n - 1);
      assert FullNext(run[n - 1], run[n - 1 + 1]);
      FullKeepsInv(run[n - 1], run[n], Bare(d[|d| - 1]));
    }
  }

  predicate FullSettled(s: Full, c: nat) {
    && (forall j :: 0 <= j < |s.up| ==> s.up[j] == [])
    && (c < |s.down| ==> s.down[c] == [])
  }

  /** Agreement with changes of format among the messages: along every run, as soon as everything is delivered
  to the server and to a client, that client's document is, but for formats, the sorted list of the
  server's symbols. */
  lemma {:induction false} FullAgreement(run: seq<Full>, d: Document, n: nat, c: nat)
    requires IsFullRun(run, d) && n < |run| && c < |run[n].docs| && FullSettled(run[n], c)
    ensures ListsServer(BareAll(run[n].docs[c]), BareMap(run[n].server))
  {
    FullRunKeepsInv(run, d, n);
    var t := Texts(run[n]);
    assert Settled(t, c);
    SettledLists(t, Bare(d[|d| - 1]), c);
    assert t.docs[c] == BareAll(run[n].docs[c]);
  }

  /** And in every reachable state, what arrives at a client meets what its handler needs, changes included. */
  lemma {:induction false} FullHandlersApply(run: seq<Full>, d: Document, n: nat, c: nat)
    requires IsFullRun(run, d) && n < |run| && c < |run[n].docs|
    ensures c < |run[n].down|
    ensures run[n].down[c] != [] ==>
              match run[n].down[c][0]
              case Text(m) => Acceptable(run[n].docs[c], m)
              case Restyle(ss) => AllStored(run[n].docs[c], ss)
              case Realign(s) => ClientDocument.Stored(run[n].docs[c], s)
  {
    FullRunKeepsInv(run, d, n);
    if run[n].down[c] != [] {
      if run[n].down[c][0].Text? {
        TextApplies(run[n], Bare(d[|d| - 1]), c);
      } else {
        ChangeApplies(run[n], Bare(d[|d| - 1]), c);
      }
    }
  }

  lemma {:induction false} TextApplies(s: Full, last: Symbol, c: nat)
    requires FullInv(s, last) && c < |s.down| && s.down[c] != [] && s.down[c][0].Text?
    ensures Acceptable(s.docs[c], s.down[c][0].message)
  {
    assert Texts(s).down[c][0] == BareMessage(s.down[c][0].message);
    ClientAccepts(Texts(s), last, c);
    AcceptableBare(s.docs[c], s.down[c][0].message);
  }

  /** What a message needs has nothing to do with formats. */
  lemma {:induction false} AcceptableBare(d: Document, m: Message)
    requires Acceptable(BareAll(d), BareMessage(m))
    ensures Acceptable(d, m)
  {
    var r, ss := BareAll(d), BareAll(m.symbols);
    BareSame(d);
    assert forall i :: 0 <= i < |ss| ==> ss[i].position == m.symbols[i].position;
    forall i | 0 <= i < |ss|
      ensures Removable(r, ss[i]) ==> Removable(d, m.symbols[i])
      ensures NewBelowLast(r, ss[i]) ==> NewBelowLast(d, m.symbols[i])
    {
      HasSamePositions(d, r, ss[i].position);
      if Removable(r, ss[i]) {
        var k :| StoredAt(r, k, ss[i]) && k < |r| - 1;
        assert StoredAt(d, k, m.symbols[i]);
      }
    }
  }

  lemma {:induction false} ChangeApplies(s: Full, last: Symbol, c: nat)
    requires FullInv(s, last) && c < |s.down| && s.down[c] != [] && !s.down[c][0].Text?
    ensures s.down[c][0].Restyle? ==> AllStored(s.docs[c], s.down[c][0].changed)
    ensures s.down[c][0].Realign? ==> ClientDocument.Stored(s.docs[c], s.down[c][0].symbol)
  {
    forall x | x in Named(s.down[c][0]) ensures x in BareAll(s.docs[c]) {
      ChangeFinds(s, last, c, x);
    }
    FoundStored(s.docs[c], s.down[c][0]);
  }

  lemma {:induction false} FoundStored(d: Document, e: Event)
    requires !e.Text? && forall x <- Named(e) :: x in BareAll(d)
    ensures e.Restyle? ==> AllStored(d, e.changed)
    ensures e.Realign? ==> ClientDocument.Stored(d, e.symbol)
  {
    match e
    case Restyle(ss) =>
      forall i | 0 <= i < |ss| ensures ClientDocument.Stored(d, ss[i]) {
        assert BareAll(ss)[i] in Named(e);
        BareStored(d, ss[i]);
      }
    case Realign(s) =>
      assert Bare(s) in Named(e);
      BareStored(d, s);
  }

  lemma {:induction false} BareStored(d: Document, s: Symbol)
    requires Bare(s) in BareAll(d)
    ensures ClientDocument.Stored(d, s)
  {
    var k :| 0 <= k < |d| && BareAll(d)[k] == Bare(s);
    assert d[k].value == Bare(d[k]).value && d[k].position == Bare(d[k]).position;
    assert StoredAt(d, k, s);
  }
}

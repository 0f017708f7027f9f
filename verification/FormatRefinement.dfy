/** The client and server objects implement the changes of `Formatting`; its other steps are those of
`EndToEnd`, which `Refinement` is about.
*/
module FormatRefinement {
  import opened Wrappers
  import opened Positions
  import opened Documents
  import opened Lines
  import opened ClientDocument
  import opened ReplayAgreement
  import opened PositionKey
  import opened EndToEnd
  import opened Delivery
  import opened FileServer
  import opened Formatting
  import Refinement

  /** The object of client `c` holds its document. */
  ghost predicate HoldsFull(crdt: CRDT, s: Full, c: nat)
    reads crdt
  {
    c < |s.docs| && crdt.Valid() && crdt.Flat() == s.docs[c]
  }

  /** The symbols that a change names were erased by nobody. */
  ghost predicate Unerased(s: Full, e: Event) {
    forall x <- Named(e) :: x !in s.erased
  }

  // ----- At the client that changes -----

  /** A client restyles a range of symbols that nobody erased: a changing step, which sends the range. */
  method RestyleHere(crdt: CRDT, ghost s: Full, ghost last: Symbol, ghost c: nat,
                     startLine: nat, endLine: nat, startIndex: nat, endIndex: nat, style: Style)
    returns (changed: seq<Symbol>, ghost s': Full)
    requires FullInv(s, last) && HoldsFull(crdt, s, c)
    requires Changeable(crdt.symbols, startLine, endLine, startIndex, endIndex)
    modifies crdt`symbols
    ensures ChangedBetween(old(crdt.symbols), startLine, endLine, startIndex, endIndex, style, crdt.Flat(), changed)
    ensures HoldsFull(crdt, s', c)
    ensures Unerased(s, Restyle(changed)) ==> FullChange(s, s', c, crdt.Flat(), Restyle(changed)) && FullInv(s', last)
  {
    changed := Refinement.RestyleReplaces(crdt, startLine, endLine, startIndex, endIndex, style);
    StyledBare(old(crdt.Flat()), style, crdt.Flat());
    ChangedMembers(old(crdt.symbols), startLine, endLine, startIndex, endIndex, style, crdt.Flat(), changed);
    MembersNamed(crdt.Flat(), Restyle(changed), changed);
    s' := TakeChangeStep(s, last, c, crdt.Flat(), Restyle(changed));
  }

  /** A client aligns a line whose last symbol nobody erased: a changing step, which sends that symbol. */
  method RealignHere(crdt: CRDT, ghost s: Full, ghost last: Symbol, ghost c: nat, line: nat, a: Alignment)
    returns (x: Symbol, ghost s': Full)
    requires FullInv(s, last) && HoldsFull(crdt, s, c) && line < |crdt.symbols| && crdt.symbols[line] != []
    modifies crdt`symbols
    ensures crdt.Flat() == AlignAt(old(crdt.Flat()), LastPosition(old(crdt.symbols), line), a)
    ensures HoldsFull(crdt, s', c)
    ensures Unerased(s, Realign(x)) ==> FullChange(s, s', c, crdt.Flat(), Realign(x)) && FullInv(s', last)
  {
    x := Refinement.AlignReplaces(crdt, line, a);
    BareAlignAt(old(crdt.Flat()), LastPosition(old(crdt.symbols), line), a);
    Refinement.ReplacedAt(old(crdt.Flat()), x);
    MembersNamed(crdt.Flat(), Realign(x), [x]);
    s' := TakeChangeStep(s, last, c, crdt.Flat(), Realign(x));
  }

  lemma {:induction false} StyledBare(d: Document, style: Style, d': Document)
    requires OnlyStyled(d, style, d')
    ensures BareAll(d') == BareAll(d)
  {
  }

  /** What a change sends is in the changed document. */
  lemma {:induction false} ChangedMembers(lines: seq<Line>, startLine: nat, endLine: nat, startIndex: nat, endIndex: nat,
                                          style: Style, d': Document, changed: seq<Symbol>)
    requires startLine < |lines| && endLine < |lines|
    requires ChangedBetween(lines, startLine, endLine, startIndex, endIndex, style, d', changed)
    ensures forall x <- changed :: x in d'
  {
  }

  lemma {:induction false} MembersNamed(d: Document, e: Event, ss: seq<Symbol>)
    requires (e.Restyle? && e.changed == ss) || (e.Realign? && [e.symbol] == ss)
    requires forall x <- ss :: x in d
    ensures forall x <- Named(e) :: x in BareAll(d)
  {
    forall i | 0 <= i < |ss| ensures Bare(ss[i]) in BareAll(d) {
      assert ss[i] in ss;
      var k :| 0 <= k < |d| && d[k] == ss[i];
      assert BareAll(d)[k] == Bare(ss[i]);
    }
    forall x <- Named(e) ensures x in BareAll(d) {
      var i :| 0 <= i < |ss| && x == Bare(ss[i]);
    }
  }

  /** The changing step exists. */
  lemma {:induction false} TakeChangeStep(s: Full, last: Symbol, c: nat, d: Document, e: Event) returns (s': Full)
    requires FullInv(s, last) && c < |s.docs| && !e.Text?
    requires BareAll(d) == BareAll(s.docs[c]) && forall x <- Named(e) :: x in BareAll(d)
    ensures c < |s'.docs| && s'.docs[c] == d
    ensures Unerased(s, e) ==> FullChange(s, s', c, d, e) && FullInv(s', last)
  {
    s' := s.(docs := s.docs[c := d], up := s.up[c := s.up[c] + [e]]);
    if Unerased(s, e) {
      assert FullChange(s, s', c, d, e);
      FullKeepsInv(s, s', last);
    }
  }

  // ----- At the clients that are told -----

  /** In every reachable state the handler of a relayed change applies, and takes the client's step. */
  method HandleChange(crdt: CRDT, ghost s: Full, ghost last: Symbol, ghost c: nat, e: Event) returns (ghost s': Full)
    requires FullInv(s, last) && HoldsFull(crdt, s, c) && s.down[c] != [] && e == s.down[c][0] && !e.Text?
    modifies crdt`symbols
    ensures FullHandle(s, s', c) && HoldsFull(crdt, s', c)
  {
    ChangeApplies(s, last, c);
    StaysTerminated(s, last, c);
    s' := s.(docs := s.docs[c := Handled(s.docs[c], e)], down := s.down[c := s.down[c][1..]]);
    match e {
      case Restyle(ss) =>
        CanonicalLookableAll(crdt.symbols);
        var emitted := crdt.HandleRemoteChange(ss);
      case Realign(x) =>
        var shown := crdt.HandleRemoteAlignChange(x);
    }
  }

  lemma {:induction false} StaysTerminated(s: Full, last: Symbol, c: nat)
    requires FullInv(s, last) && c < |s.docs|
    ensures Terminated(s.docs[c])
  {
    EndsWithTerminator(Texts(s), last, c);
    BareTerminated(s.docs[c], last);
  }

  lemma {:induction false} EndsWithTerminator(t: State, last: Symbol, c: nat)
    requires Inv(t, last) && c < |t.docs|
    ensures DocumentValid(t.docs[c], last) && last.value == TERMINATOR
  {
  }

  lemma {:induction false} BareTerminated(d: Document, last: Symbol)
    requires DocumentValid(BareAll(d), last) && last.value == TERMINATOR
    ensures Terminated(d)
  {
    assert Bare(d[|d| - 1]) == last;
  }

  // ----- At the server -----

  /** The server object takes its step: the file's map stores the change, which goes to all others. */
  method ServeChange(server: Server, sender: ServerWorker, ghost s: Full, ghost c: nat, e: Event)
    returns (relayed: seq<ServerWorker>, ghost s': Full)
    requires server.Valid() && sender.filename in server.symbolsList
    requires |s.docs| == |s.up| && c < |s.up| && s.up[c] != [] && e == s.up[c][0] && !e.Text?
    requires server.symbolsList[sender.filename] == s.server
    modifies server`symbolsList, server`changed
    ensures server.Valid() && (old(server.Coherent()) ==> server.Coherent())
    ensures FullServe(s, s', c)
    ensures server.symbolsList == old(server.symbolsList)[sender.filename := s'.server]
    ensures server.changed == old(server.changed)[sender.filename := true]
    ensures relayed == Others(server.mapFileWorkers[sender.filename], sender)
  {
    s' := s.(server := Formatting.Stored(s.server, e),
             up := s.up[c := s.up[c][1..]],
             down := seq(|s.down|, i requires 0 <= i < |s.down| => if i == c then s.down[i] else s.down[i] + [e]));
    match e {
      case Restyle(ss) => relayed := server.BulkOperation(sender, Message(PastedText, ss));
      case Realign(x) => relayed := server.SingleOperation(sender, Some(x));
    }
  }
}

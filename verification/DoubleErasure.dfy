/** Why the end-to-end theorem speaks of symbols that are erased by one client only: what happens when two
clients erase ranges before they hear of each other.
*/
module DoubleErasure {
  import opened Documents
  import opened Lines
  import opened ClientDocument
  import opened ReplayAgreement
  import opened PositionKey
  import opened EndToEnd
  import opened Delivery
  import opened LateErasures

  /** The message of a client that erases `n` symbols from `k` on. */
  function Erasure(d: Document, k: nat, n: nat): Message
    requires k + n <= |d|
  {
    Message(Erased, Slice(d, k, n))
  }

  /** The first client erased its range. */
  ghost function OnceErased(s: State, d: Document, k: nat, n: nat): State
    requires k + n <= |d|
  {
    s.(docs := [Cut(d, k, n), d], up := [[Erasure(d, k, n)], []], erased := s.erased + multiset(Slice(d, k, n)))
  }

  /** So did the second one. */
  ghost function TwiceErased(s: State, d: Document, k: nat, n: nat, k2: nat, n2: nat): State
    requires k + n <= |d| && k2 + n2 <= |d|
  {
    s.(docs := [Cut(d, k, n), Cut(d, k2, n2)], up := [[Erasure(d, k, n)], [Erasure(d, k2, n2)]],
       erased := s.erased + multiset(Slice(d, k, n)) + multiset(Slice(d, k2, n2)))
  }

  /** The server relayed the first message. */
  ghost function OnceServed(s: State, d: Document, k: nat, n: nat, k2: nat, n2: nat): State
    requires k + n <= |d| && k2 + n2 <= |d|
  {
    TwiceErased(s, d, k, n, k2, n2).(server := ApplyAll(s.server, Edits(Erasure(d, k, n))),
                                     up := [[], [Erasure(d, k2, n2)]], down := [[], [Erasure(d, k, n)]])
  }

  /** The state after one round: both clients erased their range, and the server relayed both messages. */
  ghost function Relayed(s: State, d: Document, k: nat, n: nat, k2: nat, n2: nat): State
    requires k + n <= |d| && k2 + n2 <= |d|
  {
    var served := OnceServed(s, d, k, n, k2, n2);
    served.(server := ApplyAll(served.server, Edits(Erasure(d, k2, n2))),
            up := [[], []], down := [[Erasure(d, k2, n2)], [Erasure(d, k, n)]])
  }

  lemma {:induction false} TwoClients(s: State, d: Document)
    requires Initial(s, d) && |s.docs| == 2
    ensures s.docs == [d, d] && s.up == [[], []] && s.down == [[], []]
  {
  }

  lemma {:induction false} FirstErases(s: State, d: Document, k: nat, n: nat)
    requires s.docs == [d, d] && s.up == [[], []] && k + n < |d|
    ensures EraseAnyStep(s, OnceErased(s, d, k, n), 0, k, n)
  {
    var s1, m := OnceErased(s, d, k, n), Erasure(d, k, n);
    assert s.docs[0 := Cut(d, k, n)] == s1.docs;
    assert s.up[0] + [m] == [m] && s.up[0 := [m]] == s1.up;
  }

  lemma {:induction false} SecondErases(s: State, d: Document, k: nat, n: nat, k2: nat, n2: nat)
    requires k + n < |d| && k2 + n2 < |d|
    ensures EraseAnyStep(OnceErased(s, d, k, n), TwiceErased(s, d, k, n, k2, n2), 1, k2, n2)
  {
    var s1, s2, m := OnceErased(s, d, k, n), TwiceErased(s, d, k, n, k2, n2), Erasure(d, k2, n2);
    assert s1.docs[1 := Cut(d, k2, n2)] == s2.docs;
    assert s1.up[1] + [m] == [m] && s1.up[1 := [m]] == s2.up;
  }

  lemma {:induction false} FirstServed(s: State, d: Document, k: nat, n: nat, k2: nat, n2: nat)
    requires s.down == [[], []] && k + n <= |d| && k2 + n2 <= |d|
    ensures ServerStep(TwiceErased(s, d, k, n, k2, n2), OnceServed(s, d, k, n, k2, n2), 0)
  {
    var s2, s3, m := TwiceErased(s, d, k, n, k2, n2), OnceServed(s, d, k, n, k2, n2), Erasure(d, k, n);
    assert [m][1..] == [] && s2.up[0 := []] == s3.up;
    assert s2.down[1] + [m] == [m];
    assert s3.down == seq(2, i requires 0 <= i < 2 => if i == 0 then s2.down[i] else s2.down[i] + [m]);
  }

  lemma {:induction false} SecondServed(s: State, d: Document, k: nat, n: nat, k2: nat, n2: nat)
    requires k + n <= |d| && k2 + n2 <= |d|
    ensures ServerStep(OnceServed(s, d, k, n, k2, n2), Relayed(s, d, k, n, k2, n2), 1)
  {
    var s3, s4, m := OnceServed(s, d, k, n, k2, n2), Relayed(s, d, k, n, k2, n2), Erasure(d, k2, n2);
    assert [m][1..] == [] && s3.up[1 := []] == s4.up;
    assert s3.down[0] + [m] == [m];
    assert s4.down == seq(2, i requires 0 <= i < 2 => if i == 1 then s3.down[i] else s3.down[i] + [m]);
  }

  lemma {:induction false} RelayedIsReached(s: State, d: Document, k: nat, n: nat, k2: nat, n2: nat)
    requires Initial(s, d) && |s.docs| == 2 && k + n < |d| && k2 + n2 < |d|
    ensures exists s1, s2, s3 ::
              && EraseAnyStep(s, s1, 0, k, n) && EraseAnyStep(s1, s2, 1, k2, n2)
              && ServerStep(s2, s3, 0) && ServerStep(s3, Relayed(s, d, k, n, k2, n2), 1)
  {
    TwoClients(s, d);
    FirstErases(s, d, k, n);
    SecondErases(s, d, k, n, k2, n2);
    FirstServed(s, d, k, n, k2, n2);
    SecondServed(s, d, k, n, k2, n2);
  }

  // ----- The server -----

  /** Dropping symbols, stored or not, takes exactly their positions out of the map. */
  lemma {:induction false} DropContentsOf(m: SymbolMap, ss: seq<Symbol>, x: Symbol)
    requires Keyed(m)
    ensures x in Contents(ApplyAll(m, EditsOf(Erased, ss))) <==> x in Contents(m) && !Has(ss, x.position)
    decreases |ss|
  {
    if ss == [] {
      assert EditsOf(Erased, ss) == [];
    } else {
      var n := |ss| - 1;
      DropContentsOf(m, ss[..n], x);
      assert ss[..n + 1] == ss;
      ApplyOne(m, Erased, ss, n);
      DroppedKeyed(m, ss[..n]);
      DroppedMember(ApplyAll(m, EditsOf(Erased, ss[..n])), ss[n], x);
      HasSnoc(ss, x.position);
    }
  }

  lemma {:induction false} DroppedKeyed(m: SymbolMap, ss: seq<Symbol>)
    requires Keyed(m)
    ensures Keyed(ApplyAll(m, EditsOf(Erased, ss)))
    decreases |ss|
  {
    if ss == [] {
      assert EditsOf(Erased, ss) == [];
    } else {
      var n := |ss| - 1;
      DroppedKeyed(m, ss[..n]);
      assert ss[..n + 1] == ss;
      ApplyOne(m, Erased, ss, n);
      ApplyKeepsKeyed(ApplyAll(m, EditsOf(Erased, ss[..n])), Drop(ss[n]));
    }
  }

  lemma {:induction false} DroppedMember(m: SymbolMap, s: Symbol, x: Symbol)
    requires Keyed(m)
    ensures x in Contents(Apply(m, Drop(s))) <==> x in Contents(m) && x.position != s.position
  {
    ApplyKeepsKeyed(m, Drop(s));
    ContentsMember(m, x);
    ContentsMember(Apply(m, Drop(s)), x);
    KeyInjective(x.position, s.position);
  }

  /** A sorted document lists a map when they have the same symbols. */
  lemma {:induction false} ListsByMembers(d: Document, m: SymbolMap)
    requires Sorted(d) && Keyed(m) && forall x :: x in d <==> x in Contents(m)
    ensures ListsServer(d, m)
  {
    SortedDistinct(d);
    forall x ensures multiset(d)[x] == Contents(m)[x] {
      assert x in multiset(d) <==> x in d;
      DistinctCount(d, x);
      assert Count(d, x) == multiset(d)[x];
      ContentsMember(m, x);
    }
  }

  lemma {:induction false} ServerHoldsBoth(s: State, d: Document, k: nat, n: nat, k2: nat, n2: nat)
    requires Sorted(d) && Keyed(s.server) && Contents(s.server) == multiset(d) && k + n <= |d| && k2 + n2 <= |d|
    ensures ListsServer(BothErased(d, k, n, k2, n2), Relayed(s, d, k, n, k2, n2).server)
  {
    var m1 := ApplyAll(s.server, EditsOf(Erased, Slice(d, k, n)));
    var m2 := ApplyAll(m1, EditsOf(Erased, Slice(d, k2, n2)));
    BothErasedSorted(d, k, n, k2, n2);
    DroppedKeyed(s.server, Slice(d, k, n));
    DroppedKeyed(m1, Slice(d, k2, n2));
    forall x ensures x in BothErased(d, k, n, k2, n2) <==> x in Contents(m2) {
      BothErasedMembers(d, k, n, k2, n2, x);
      DropContentsOf(s.server, Slice(d, k, n), x);
      DropContentsOf(m1, Slice(d, k2, n2), x);
      assert x in multiset(d) <==> x in d;
    }
    ListsByMembers(BothErased(d, k, n, k2, n2), m2);
  }

  // ----- The clients -----

  /** What a client receives meets what its handler needs exactly when the ranges have nothing in common. */
  lemma {:induction false} AcceptableExactly(d: Document, k: nat, n: nat, k2: nat, n2: nat)
    requires Sorted(d) && Terminated(d) && k + n < |d| && k2 + n2 < |d|
    ensures Acceptable(Cut(d, k, n), Erasure(d, k2, n2)) <==> Apart(k, n, k2, n2)
  {
    var r, ss := Cut(d, k, n), Slice(d, k2, n2);
    assert r[|r| - 1] == d[|d| - 1];
    SliceErasable(d, k2, n2);
    if Apart(k, n, k2, n2) {
      forall i | 0 <= i < |ss| ensures Removable(r, ss[i]) {
        var j := if k2 + i < k then k2 + i else k2 + i - n;
        assert StoredAt(r, j, ss[i]);
      }
    } else {
      var i := if k2 < k then k else k2;
      LeftByCut(d, k, n, i);
      assert ss[i - k2] == d[i];
      assert !Removable(r, ss[i - k2]);
    }
  }

  /** One client has the server's symbols exactly when the other's erasure is safe for it. */
  lemma {:induction false} ClientAgrees(d: Document, k: nat, n: nat, k2: nat, n2: nat, m: SymbolMap)
    requires Sorted(d) && Terminated(d) && k + n < |d| && k2 + n2 < |d|
    requires ListsServer(BothErased(d, k, n, k2, n2), m)
    ensures ListsServer(Flatten(EraseUntil(Split(Cut(d, k, n)), Slice(d, k2, n2))), m) <==> Safe(k, n, k2, n2)
  {
    var lines := Split(Cut(d, k, n));
    SplitIsCanonical(Cut(d, k, n));
    CutFilled(lines, d, k, n);
    SliceOrderly(d, k, n, k2, n2);
    HandledExactly(lines, Slice(d, k2, n2));
    SafeExactly(d, k, n, k2, n2);
    var r := Flatten(EraseUntil(lines, Slice(d, k2, n2)));
    if ListsServer(r, m) {
      OneList(r, BothErased(d, k, n, k2, n2), m);
    }
  }

  /** Without the guard agreement is lost. The server holds the right list. A client that receives a message
  with a symbol that it erased itself is not prepared for it, and once it has handled the message it agrees
  with the server exactly when the erasures are safe for it; both do exactly when they are harmless. */
  lemma {:induction false} AgreementLost(s: State, d: Document, k: nat, n: nat, k2: nat, n2: nat)
    requires Initial(s, d) && |s.docs| == 2 && k + n < |d| && k2 + n2 < |d|
    ensures var r := Relayed(s, d, k, n, k2, n2);
            var m1, m2 := r.down[1][0], r.down[0][0];
            var after1 := Flatten(EraseUntil(Split(r.docs[0]), m2.symbols));
            var after2 := Flatten(EraseUntil(Split(r.docs[1]), m1.symbols));
            && r.up == [[], []] && r.down == [[m2], [m1]]
            && ListsServer(BothErased(d, k, n, k2, n2), r.server)
            && (Acceptable(r.docs[0], m2) <==> Apart(k, n, k2, n2))
            && (ListsServer(after1, r.server) <==> Safe(k, n, k2, n2))
            && (ListsServer(after2, r.server) <==> Safe(k2, n2, k, n))
            && (ListsServer(after1, r.server) && ListsServer(after2, r.server) <==> Harmless(k, n, k2, n2))
  {
    assert Sorted(d) && Terminated(d);
    var m := Relayed(s, d, k, n, k2, n2).server;
    ServerHoldsBoth(s, d, k, n, k2, n2);
    AcceptableExactly(d, k, n, k2, n2);
    ClientAgrees(d, k, n, k2, n2, m);
    BothErasedSame(d, k, n, k2, n2);
    ClientAgrees(d, k2, n2, k, n, m);
    HarmlessIsSafe(k, n, k2, n2);
  }
}

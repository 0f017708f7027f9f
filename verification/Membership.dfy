/** Clients that open or leave the file while others edit it: both keep the invariant of `EndToEnd`. */
module Membership {
  import opened Positions
  import opened Generation
  import opened Documents
  import opened EndToEnd

  // ----- Opening -----

  lemma {:induction false} UpBeyond(up: seq<seq<Message>>, c: nat, op: Op, x: Symbol)
    requires c >= |up|
    ensures Up(up, c, op, x) == Up(up, -1, op, x)
  {
    if up != [] {
      UpBeyond(up[..|up| - 1], c, op, x);
    }
  }

  lemma {:induction false} UpJoined(up: seq<seq<Message>>, c: int, op: Op, x: Symbol)
    ensures Up(up + [[]], c, op, x) == Up(up, c, op, x)
  {
    assert (up + [[]])[..|up|] == up;
  }

  /** What the server holds was inserted. */
  lemma {:induction false} ServerHolds(s: State, t: Symbol, x: Symbol)
    requires Inv(s, t) && x in Contents(s.server)
    ensures x in s.inserted
  {
    assert Up(s.up, -1, Del, x) <= s.erased[x];
  }

  /** The list of the server's symbols is a document like the others, with the terminator last. */
  lemma {:induction false} JoinedValid(s: State, t: Symbol, d: Document)
    requires Inv(s, t) && Seated(s, t) && ListsServer(d, s.server)
    ensures DocumentValid(d, t)
  {
    assert t in multiset(d);
    forall i | 0 <= i < |d| ensures WellFormed(d[i].position) && (d[i] == t || Less(d[i].position, t.position)) {
      assert d[i] in multiset(d);
      ServerHolds(s, t, d[i]);
    }
    LastIs(d, t);
  }

  lemma {:induction false} LastIs(d: Document, t: Symbol)
    requires Sorted(d) && t in d
    requires forall i :: 0 <= i < |d| ==> d[i] == t || Less(d[i].position, t.position)
    ensures d[|d| - 1] == t
  {
    var k :| 0 <= k < |d| && d[k] == t;
    if k < |d| - 1 {
      Antisymmetric(d[k].position, d[|d| - 1].position);
    }
  }

  lemma {:induction false} JoinInbound(s: State, s': State, d: Document, e: nat, op: Op, x: Symbol)
    requires |s.docs| == |s.up| == |s.down| && JoinStep(s, s', d) && e <= |s.docs|
    ensures Inbound(s', e, op, x) == if e < |s.docs| then Inbound(s, e, op, x) else Up(s.up, -1, op, x)
    ensures Up(s'.up, -1, op, x) == Up(s.up, -1, op, x)
  {
    UpJoined(s.up, e, op, x);
    UpJoined(s.up, -1, op, x);
    if e == |s.docs| {
      UpBeyond(s.up, e, op, x);
    }
  }

  /** The server's own balance is the balance of the newcomer. */
  lemma {:induction false} JoinBalance(s: State, s': State, d: Document, e: nat, x: Symbol)
    requires |s.docs| == |s.up| == |s.down| && Laws(s) && JoinStep(s, s', d) && e < |s'.docs|
    ensures Count(s'.docs[e], x) + Inbound(s', e, Ins, x) + s'.erased[x] == s'.inserted[x] + Inbound(s', e, Del, x)
    ensures Inbound(s', e, Del, x) <= s'.erased[x] && Inbound(s', e, Ins, x) <= s'.inserted[x]
  {
    JoinInbound(s, s', d, e, Ins, x);
    JoinInbound(s, s', d, e, Del, x);
    if e < |s.docs| {
      assert Conserved(s, e);
    } else {
      assert Count(d, x) == Contents(s.server)[x];
    }
  }

  lemma {:induction false} JoinLaws(s: State, s': State, d: Document)
    requires |s.docs| == |s.up| == |s.down| && Laws(s) && JoinStep(s, s', d)
    ensures Laws(s')
  {
    forall e, x | 0 <= e < |s'.docs|
      ensures Count(s'.docs[e], x) + Inbound(s', e, Ins, x) + s'.erased[x]
           == s'.inserted[x] + Inbound(s', e, Del, x)
      ensures Inbound(s', e, Del, x) <= s'.erased[x] && Inbound(s', e, Ins, x) <= s'.inserted[x]
    {
      JoinBalance(s, s', d, e, x);
    }
    forall op: Op, x ensures Up(s'.up, -1, op, x) == Up(s.up, -1, op, x) {
      UpJoined(s.up, -1, op, x);
    }
  }

  lemma {:induction false} JoinOrdered(up: seq<seq<Message>>, down: seq<seq<Message>>)
    requires Ordered(up, down)
    ensures Ordered(up + [[]], down + [[]])
  {
    var up', down' := up + [[]], down + [[]];
    forall j, c | 0 <= j < |up'| && 0 <= c < |down'| && j != c ensures Causal(down'[c] + up'[j]) {
      JoinCausal(up, down, j, c);
    }
  }

  lemma {:induction false} JoinCausal(up: seq<seq<Message>>, down: seq<seq<Message>>, j: nat, c: nat)
    requires Ordered(up, down) && j <= |up| && c <= |down| && j != c
    ensures Causal((down + [[]])[c] + (up + [[]])[j])
  {
    var q, r := (down + [[]])[c], (up + [[]])[j];
    if c == |down| {
      assert q + r == r;
    } else if j == |up| {
      assert q + r == q;
    } else {
      assert Causal(down[c] + up[j]);
    }
  }

  lemma {:induction false} JoinKeepsInv(s: State, s': State, d: Document, t: Symbol)
    requires Inv(s, t) && Seated(s, t) && JoinStep(s, s', d)
    ensures Inv(s', t) && Seated(s', t)
  {
    JoinedValid(s, t, d);
    JoinLaws(s, s', d);
    JoinOrdered(s.up, s.down);
    JoinDocuments(s.docs, d, t);
  }

  lemma {:induction false} JoinDocuments(docs: seq<Document>, d: Document, t: Symbol)
    requires DocumentValid(d, t) && forall e :: 0 <= e < |docs| ==> DocumentValid(docs[e], t)
    ensures forall e :: 0 <= e < |docs + [d]| ==> DocumentValid((docs + [d])[e], t)
  {
  }

  // ----- Leaving -----

  lemma {:induction false} SentContent(q: seq<Message>, op: Op, x: Symbol)
    ensures Sent(q, op)[x] == Content(q, op, x)
  {
    if q != [] {
      SentContent(q[1..], op, x);
    }
  }

  /** Where a client stands after client `j` left. */
  function Shifted(c: int, j: nat): int {
    if c < j then c else c + 1
  }

  /** Without channel `j` the sums lack its share. */
  lemma {:induction false} UpLeaving(up: seq<seq<Message>>, j: nat, c: int, op: Op, x: Symbol)
    requires j < |up|
    ensures Up(Leaving(up, j), c, op, x) + Content(up[j], op, x) == Up(up, Shifted(c, j), op, x)
    decreases |up|
  {
    var n := |up| - 1;
    if j == n {
      UpLeavingLast(up, c, op, x);
    } else {
      UpLeaving(up[..n], j, c, op, x);
      UpLeavingMore(up, j, c, op, x);
    }
  }

  /** A channel behind the one that goes. */
  lemma {:induction false} UpLeavingMore(up: seq<seq<Message>>, j: nat, c: int, op: Op, x: Symbol)
    requires j < |up| - 1
    requires var front := up[..|up| - 1];
             Up(Leaving(front, j), c, op, x) + Content(front[j], op, x) == Up(front, Shifted(c, j), op, x)
    ensures Up(Leaving(up, j), c, op, x) + Content(up[j], op, x) == Up(up, Shifted(c, j), op, x)
  {
    var n, r := |up| - 1, Leaving(up, j);
    LeavingLast(up, j);
    UpLast(r, c, op, x);
    UpLast(up, Shifted(c, j), op, x);
  }

  lemma {:induction false} UpLast(up: seq<seq<Message>>, c: int, op: Op, x: Symbol)
    requires up != []
    ensures var n := |up| - 1; Up(up, c, op, x) == Up(up[..n], c, op, x) + if n == c then 0 else Content(up[n], op, x)
  {
  }

  /** The last channel goes. */
  lemma {:induction false} UpLeavingLast(up: seq<seq<Message>>, c: int, op: Op, x: Symbol)
    requires up != []
    ensures var n := |up| - 1; Up(Leaving(up, n), c, op, x) + Content(up[n], op, x) == Up(up, Shifted(c, n), op, x)
  {
    var n := |up| - 1;
    assert Leaving(up, n) == up[..n];
    UpLast(up, Shifted(c, n), op, x);
    if c >= n {
      UpBeyond(up[..n], c, op, x);
      UpBeyond(up[..n], c + 1, op, x);
    }
  }

  lemma {:induction false} LeavingLast(up: seq<seq<Message>>, j: nat)
    requires j < |up| - 1
    ensures var n, r := |up| - 1, Leaving(up, j);
            |r| == n && r[..n - 1] == Leaving(up[..n], j) && r[n - 1] == up[n] && up[..n][j] == up[j]
  {
  }

  /** What is still on its way to the others, less what the leaving client had not delivered. */
  lemma {:induction false} LeaveInbound(s: State, s': State, c: nat, e: nat, op: Op, x: Symbol)
    requires LeaveStep(s, s', c) && e < |s'.docs|
    ensures Inbound(s', e, op, x) + Content(s.up[c], op, x) == Inbound(s, Shifted(e, c), op, x)
  {
    UpLeaving(s.up, c, e, op, x);
    assert s'.down[e] == s.down[Shifted(e, c)];
  }

  lemma {:induction false} LeaveCounts(s: State, s': State, c: nat, x: Symbol)
    requires |s.docs| == |s.down| && Laws(s) && LeaveStep(s, s', c)
    ensures s'.inserted[x] + Content(s.up[c], Ins, x) == s.inserted[x]
    ensures s'.erased[x] + Content(s.up[c], Del, x) == s.erased[x]
    ensures Up(s'.up, -1, Ins, x) + Content(s.up[c], Ins, x) == Up(s.up, -1, Ins, x)
    ensures Up(s'.up, -1, Del, x) + Content(s.up[c], Del, x) == Up(s.up, -1, Del, x)
  {
    SentContent(s.up[c], Ins, x);
    SentContent(s.up[c], Del, x);
    UpLeaving(s.up, c, -1, Ins, x);
    UpLeaving(s.up, c, -1, Del, x);
    assert Up(s.up, -1, Del, x) <= s.erased[x] && Up(s.up, -1, Ins, x) <= s.inserted[x];
  }

  lemma {:induction false} LeaveBalance(s: State, s': State, c: nat, e: nat, x: Symbol)
    requires |s.docs| == |s.down| && Laws(s) && LeaveStep(s, s', c) && e < |s'.docs|
    ensures Count(s'.docs[e], x) + Inbound(s', e, Ins, x) + s'.erased[x] == s'.inserted[x] + Inbound(s', e, Del, x)
    ensures Inbound(s', e, Del, x) <= s'.erased[x] && Inbound(s', e, Ins, x) <= s'.inserted[x]
  {
    LeaveCounts(s, s', c, x);
    LeaveInbound(s, s', c, e, Ins, x);
    LeaveInbound(s, s', c, e, Del, x);
    LeaveDoc(s, s', c, e);
    var e0 := Shifted(e, c);
    Balanced(s, e0, x);
    Rebalanced(Count(s.docs[e0], x), Inbound(s, e0, Ins, x), Inbound(s, e0, Del, x), s.inserted[x], s.erased[x],
               Content(s.up[c], Ins, x), Content(s.up[c], Del, x));
  }

  lemma {:induction false} LeaveDoc(s: State, s': State, c: nat, e: nat)
    requires LeaveStep(s, s', c) && e < |s'.docs|
    ensures s'.docs[e] == s.docs[Shifted(e, c)]
  {
  }

  lemma {:induction false} Rebalanced(held: nat, coming: nat, going: nat, inserted: nat, erased: nat, lost: nat, kept: nat)
    requires held + coming + erased == inserted + going && going <= erased && coming <= inserted
    ensures held + (coming - lost) + (erased - kept) == (inserted - lost) + (going - kept)
    ensures going - kept <= erased - kept && coming - lost <= inserted - lost
  {
  }

  /** The laws, for one client and one symbol. */
  lemma {:induction false} Balanced(s: State, e: nat, x: Symbol)
    requires |s.docs| == |s.down| && Laws(s) && e < |s.docs|
    ensures Count(s.docs[e], x) + Inbound(s, e, Ins, x) + s.erased[x] == s.inserted[x] + Inbound(s, e, Del, x)
    ensures Inbound(s, e, Del, x) <= s.erased[x] && Inbound(s, e, Ins, x) <= s.inserted[x]
  {
    assert Conserved(s, e);
  }

  lemma {:induction false} LeaveLaws(s: State, s': State, c: nat)
    requires |s.docs| == |s.down| && Laws(s) && LeaveStep(s, s', c)
    ensures Laws(s')
  {
    forall e, x | 0 <= e < |s'.docs|
      ensures Count(s'.docs[e], x) + Inbound(s', e, Ins, x) + s'.erased[x]
           == s'.inserted[x] + Inbound(s', e, Del, x)
      ensures Inbound(s', e, Del, x) <= s'.erased[x] && Inbound(s', e, Ins, x) <= s'.inserted[x]
    {
      LeaveBalance(s, s', c, e, x);
    }
    forall x
      ensures Contents(s'.server)[x] + Up(s'.up, -1, Ins, x) + s'.erased[x]
           == s'.inserted[x] + Up(s'.up, -1, Del, x)
      ensures Up(s'.up, -1, Del, x) <= s'.erased[x] && Up(s'.up, -1, Ins, x) <= s'.inserted[x]
    {
      LeaveCounts(s, s', c, x);
      assert Up(s.up, -1, Del, x) <= s.erased[x] && Up(s.up, -1, Ins, x) <= s.inserted[x];
    }
  }

  lemma {:induction false} LeaveCausal(up: seq<seq<Message>>, down: seq<seq<Message>>, c: nat, j: nat, e: nat)
    requires Ordered(up, down) && c < |up| == |down| && j < |up| - 1 && e < |up| - 1 && j != e
    ensures Causal(Leaving(down, c)[e] + Leaving(up, c)[j])
  {
    assert Causal(down[Shifted(e, c)] + up[Shifted(j, c)]);
  }

  lemma {:induction false} LeaveOrdered(up: seq<seq<Message>>, down: seq<seq<Message>>, c: nat)
    requires Ordered(up, down) && c < |up| == |down|
    ensures Ordered(Leaving(up, c), Leaving(down, c))
  {
    var up', down' := Leaving(up, c), Leaving(down, c);
    forall j | 0 <= j < |up'| ensures Causal(up'[j]) && Causal(down'[j]) {
      LeaveOne(up, c, j);
      LeaveOne(down, c, j);
    }
    forall j, e | 0 <= j < |up'| && 0 <= e < |down'| && j != e ensures Causal(down'[e] + up'[j]) {
      LeaveCausal(up, down, c, j, e);
    }
    forall i, j, x | 0 <= i < |up'| && 0 <= j < |up'| && i != j && Content(up'[j], Del, x) > 0
      ensures Content(up'[i], Ins, x) == 0
    {
      LeaveOne(up, c, i);
      LeaveOne(up, c, j);
      assert Content(up[Shifted(j, c)], Del, x) > 0;
    }
  }

  lemma {:induction false} LeaveOne<T>(qs: seq<T>, c: nat, j: nat)
    requires c < |qs| && j < |qs| - 1
    ensures Leaving(qs, c)[j] == qs[Shifted(j, c)]
  {
  }

  /** An insertion that is lost was not erased by anyone else, so its erasure is lost with it. */
  lemma {:induction false} LostTogether(s: State, s': State, c: nat, t: Symbol, x: Symbol)
    requires Inv(s, t) && LeaveStep(s, s', c)
    ensures s'.erased[x] <= s'.inserted[x] <= s.inserted[x] && s'.erased[x] <= s.erased[x]
  {
    LeaveCounts(s, s', c, x);
    if Content(s.up[c], Ins, x) > 0 {
      NobodyElseErases(s.up, s.down, c, x);
      assert Contents(s.server)[x] + Up(s.up, -1, Ins, x) + s.erased[x] == s.inserted[x] + Up(s.up, -1, Del, x);
    }
  }

  lemma {:induction false} NobodyElseErases(up: seq<seq<Message>>, down: seq<seq<Message>>, c: nat, x: Symbol)
    requires Ordered(up, down) && c < |up| && Content(up[c], Ins, x) > 0
    ensures Up(up, -1, Del, x) == Content(up[c], Del, x)
  {
    UpMember(up, c, Del, x);
    UpWithout(up, c, Del, x);
  }

  lemma {:induction false} UpWithout(up: seq<seq<Message>>, c: nat, op: Op, x: Symbol)
    requires c < |up|
    ensures Up(up, -1, op, x) == Up(up, c, op, x) + Content(up[c], op, x)
  {
    var n := |up| - 1;
    if c < n {
      UpWithout(up[..n], c, op, x);
    } else {
      UpBeyond(up[..n], n, op, x);
    }
  }

  lemma {:induction false} LeaveHistory(s: State, s': State, c: nat, t: Symbol)
    requires Inv(s, t) && Seated(s, t) && LeaveStep(s, s', c)
    ensures History(s'.inserted, s'.erased, t)
  {
    forall x ensures s'.erased[x] <= s'.inserted[x] <= s.inserted[x] && s'.erased[x] <= s.erased[x] {
      LostTogether(s, s', c, t, x);
    }
    LeaveCounts(s, s', c, t);
    assert Up(s.up, -1, Del, t) <= s.erased[t];
    UpWithout(s.up, c, Ins, t);
  }

  lemma {:induction false} LeaveKeepsInv(s: State, s': State, c: nat, t: Symbol)
    requires Inv(s, t) && Seated(s, t) && LeaveStep(s, s', c)
    ensures Inv(s', t) && Seated(s', t)
  {
    LeaveLaws(s, s', c);
    LeaveOrdered(s.up, s.down, c);
    LeaveHistory(s, s', c, t);
    LeaveDocuments(s.docs, c, t);
  }

  lemma {:induction false} LeaveDocuments(docs: seq<Document>, c: nat, t: Symbol)
    requires c < |docs| && forall e :: 0 <= e < |docs| ==> DocumentValid(docs[e], t)
    ensures forall e :: 0 <= e < |Leaving(docs, c)| ==> DocumentValid(Leaving(docs, c)[e], t)
  {
    forall e | 0 <= e < |Leaving(docs, c)| ensures DocumentValid(Leaving(docs, c)[e], t) {
      assert Leaving(docs, c)[e] == docs[Shifted(e, c)];
    }
  }
}

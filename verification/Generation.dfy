/** Inventing a position strictly between two others (Client/CRDT.cpp:186-247).

The reference editor holds the same code
(Resources/CRDT_LSEQ_implementation_in_c++/SharedEditor.h:57-114), so both classes use these methods.
The empty position stands for minus infinity on the left and plus infinity on the right.
*/
module Generation {
  import opened Wrappers
  import opened Positions

  const BASE: int := 32
  const BOUNDARY: int := 10

  /** The boundary strategy chosen once per level: true for boundary+, false for boundary-. */
  type StrategyCache = map<nat, bool>

  predicate DigitsInRange(p: Position) {
    forall i :: 0 <= i < |p| ==> 0 <= p[i].digit < BASE
  }

  /** What every position in a document looks like: a last digit of 0 would leave no room before it. */
  predicate WellFormed(p: Position) {
    p != [] && DigitsInRange(p) && p[|p| - 1].digit >= 1
  }

  /** `p` and `q` delimit a gap; either may be empty, for an infinite end. */
  predicate Gap(p: Position, q: Position) {
    && DigitsInRange(p)
    && (q != [] ==> WellFormed(q) && Less(p, q))
  }

  predicate Between(p: Position, t: Position, q: Position) {
    Less(p, t) && (q != [] ==> Less(t, q))
  }

  /** What every generated position guarantees, whatever the random choices. That it is no prefix of
  the right end is what keeps the gap behind it open for good. */
  predicate Generated(p: Position, t: Position, q: Position, site: int) {
    && Between(p, t, q) && !(t <= q)
    && WellFormed(t)
    && t[|t| - 1].site == site
    && |t| <= (if |p| > |q| then |p| else |q|) + 1
  }

  /** The gap in which generation throws: `p` is a prefix of `q`, and `q` goes on with padding
  identifiers of this site followed by digit 0 of a smaller site. */
  ghost predicate Blocked(p: Position, q: Position, site: int) {
    p <= q && exists k :: BlockedAt(p, q, site, k)
  }

  ghost predicate BlockedAt(p: Position, q: Position, site: int, k: int) {
    && |p| <= k < |q|
    && (forall i :: |p| <= i < k ==> q[i] == Identifier(0, site))
    && q[k].digit == 0 && q[k].site < site
  }

  /** The identifiers still to be read at a level; past the end a position is padded. */
  function Tail(p: Position, level: nat): Position {
    if level <= |p| then p[level..] else []
  }

  /** A shared first identifier plays no part in whether a gap is blocked. */
  lemma {:induction false} BlockedSkipsEqualHead(x: Identifier, p: Position, q: Position, site: int)
    ensures Blocked([x] + p, [x] + q, site) <==> Blocked(p, q, site)
  {
    var p1, q1 := [x] + p, [x] + q;
    assert p1 <= q1 <==> p <= q by {
      assert p1 <= q1 ==> p1[1..] <= q1[1..];
      assert p1[1..] == p && q1[1..] == q;
    }
    if Blocked(p1, q1, site) {
      var k :| BlockedAt(p1, q1, site, k);
      forall i | |p| <= i < k - 1 ensures q[i] == Identifier(0, site) {
        assert q1[i + 1] == q[i];
      }
      assert BlockedAt(p, q, site, k - 1);
    }
    if Blocked(p, q, site) {
      var k :| BlockedAt(p, q, site, k);
      assert BlockedAt(p1, q1, site, k + 1);
    }
  }

  /** Padding an exhausted left end with `(0, site)` does not change whether the gap is blocked. */
  lemma {:induction false} BlockedSkipsPadding(q: Position, site: int)
    ensures Blocked([], [Identifier(0, site)] + q, site) <==> Blocked([], q, site)
  {
    var x := Identifier(0, site);
    var q1 := [x] + q;
    if Blocked([], q1, site) {
      var k :| BlockedAt([], q1, site, k);
      forall i | 0 <= i < k - 1 ensures q[i] == x {
        assert q1[i + 1] == q[i];
      }
      assert BlockedAt([], q, site, k - 1);
    }
    if Blocked([], q, site) {
      var k :| BlockedAt([], q, site, k);
      assert BlockedAt([], q1, site, k + 1);
    }
  }

  /** When the ends differ at once, only a digit 0 of a smaller site behind an exhausted left end blocks. */
  lemma {:induction false} BlockedAtOnce(p: Position, q: Position, site: int)
    requires q != []
    requires q[0] != if p != [] then p[0] else Identifier(0, site)
    ensures Blocked(p, q, site) <==> p == [] && q[0].digit == 0 && q[0].site < site
  {
    if Blocked(p, q, site) {
      var k :| BlockedAt(p, q, site, k);
      assert p == [];
      assert k == 0;
    }
    if p == [] && q[0].digit == 0 && q[0].site < site {
      assert BlockedAt(p, q, site, 0);
    }
  }

  /** Reduces an arbitrary random number to the bounds, both included. */
  method GenerateRandomNumBetween(n1: int, n2: int) returns (x: int)
    requires n1 <= n2
    ensures n1 <= x <= n2
  {
    var random: nat := *;
    x := n1 + random % (n2 - n1 + 1);
  }

  /** Picks a digit strictly between two digits, near the end that the level's strategy says. */
  method GenerateIdBetween(id1: int, id2: int, level: nat, cache: StrategyCache)
    returns (digit: int, cache': StrategyCache)
    requires id2 - id1 > 1
    ensures id1 < digit < id2
    ensures level in cache' && cache' == cache[level := cache'[level]]
    ensures level in cache ==> cache' == cache
    ensures if cache'[level] then digit < id1 + BOUNDARY else digit > id2 - BOUNDARY
  {
    var interval := id2 - id1;
    cache' := cache;
    if level !in cache' {
      var boundaryPlus: bool :| true;
      cache' := cache'[level := boundaryPlus];
    }
    var step := if BOUNDARY < interval then BOUNDARY else interval;
    var delta := GenerateRandomNumBetween(1, step - 1);
    digit := if cache'[level] then id1 + delta else id2 - delta;
  }

  /** Head of a position, padded as the generator pads an exhausted left end. */
  function PaddedHead(p: Position, site: int): Identifier {
    if p == [] then Identifier(0, site) else p[0]
  }

  function Rest(p: Position): Position {
    if p == [] then [] else p[1..]
  }

  /** Two digits apart, any digit in between closes the gap. */
  lemma {:induction false} RoomAtOnce(p: Position, q: Position, site: int, digit: int)
    requires Gap(p, q)
    requires PaddedHead(p, site).digit < digit < if q == [] then BASE else q[0].digit
    ensures Generated(p, [Identifier(digit, site)], q, site)
    ensures !Blocked(p, q, site)
  {
    if q != [] {
      BlockedAtOnce(p, q, site);
    }
  }

  /** The left identifier is taken over and is already below `q`, so the rest has no upper end. */
  lemma {:induction false} KeepLeft(p: Position, q: Position, site: int, t: Position)
    requires Gap(p, q)
    requires p != [] || q != []
    requires q != [] ==> CompareIdentifiers(PaddedHead(p, site), q[0]) < 0
    ensures !Blocked(p, q, site) && Gap(Rest(p), []) && !Blocked(Rest(p), [], site)
    ensures Generated(Rest(p), t, [], site) ==> Generated(p, [PaddedHead(p, site)] + t, q, site)
  {
    if q != [] {
      BlockedAtOnce(p, q, site);
    }
    var x := PaddedHead(p, site);
    var u := [x] + t;
    assert u[1..] == t;
    if Generated(Rest(p), t, [], site) {
      assert Between(p, u, q);
      assert q != [] ==> x != q[0];
    }
  }

  lemma {:induction false} PrefixTails(x: Identifier, t: Position, q: Position)
    ensures [x] + t <= [x] + q ==> t <= q
  {
    assert ([x] + t)[1..] == t && ([x] + q)[1..] == q;
  }

  /** Equal identifiers are taken over from both ends. */
  lemma {:induction false} KeepBoth(p: Position, q: Position, site: int, t: Position)
    requires Gap(p, q) && q != [] && PaddedHead(p, site) == q[0]
    ensures q[1..] != [] && Gap(Rest(p), q[1..])
    ensures Blocked(p, q, site) <==> Blocked(Rest(p), q[1..], site)
    ensures Generated(Rest(p), t, q[1..], site) ==> Generated(p, [q[0]] + t, q, site)
  {
    assert q == [q[0]] + q[1..];
    assert p != [] ==> Compare(p, q) == Compare(p[1..], q[1..]);
    assert q[1..] != [];
    assert WellFormed(q[1..]) by {
      assert q[1..][|q| - 2] == q[|q| - 1];
    }
    if p != [] {
      assert p == [q[0]] + p[1..];
      BlockedSkipsEqualHead(q[0], p[1..], q[1..], site);
    } else {
      BlockedSkipsPadding(q[1..], site);
    }
    var u := [q[0]] + t;
    assert u[1..] == t;
    if Generated(Rest(p), t, q[1..], site) {
      assert Between(p, u, q);
      PrefixTails(q[0], t, q[1..]);
    }
  }

  /** What a call of the generator has achieved on a gap, with `newPos` fixed before. */
  ghost predicate Outcome(p: Position, q: Position, site: int, newPos: Position, r: Result<Position>) {
    match r
    case Err(error) => Blocked(p, q, site) && error == InvalidOrdering
    case Ok(t) => !Blocked(p, q, site) && newPos <= t && Generated(p, t[|newPos|..], q, site)
  }

  /** A position's identifier at a level, past its end the padding. */
  function Padded(p: Position, i: nat, site: int): Identifier {
    if i < |p| then p[i] else Identifier(0, site)
  }

  /** What the digit of `t` at level `i` has to stay below: the right end's, as long as `t` agrees with it. */
  function Ceiling(t: Position, q: Position, i: nat): int
    requires i <= |t|
  {
    if i < |q| && t[..i] == q[..i] then q[i].digit else BASE
  }

  predicate NoRoom(p: Position, t: Position, q: Position, site: int, i: nat)
    requires i < |t|
  {
    t[i] == Padded(p, i, site) && Ceiling(t, q, i) - t[i].digit <= 1
  }

  /** `t` takes over the left end up to the first level with room for a digit, and ends there. */
  predicate Shortest(p: Position, t: Position, q: Position, site: int) {
    && t != []
    && (forall i :: 0 <= i < |t| - 1 ==> NoRoom(p, t, q, site, i))
    && Padded(p, |t| - 1, site).digit < t[|t| - 1].digit < Ceiling(t, q, |t| - 1)
  }

  /** The last digit keeps to the end that the strategy of its own level says. Levels are counted from
  `level` on. */
  predicate OnStrategy(p: Position, t: Position, q: Position, site: int, level: nat, cache: StrategyCache) {
    && t != []
    && var n := |t| - 1;
       && level + n in cache
       && if cache[level + n] then t[n].digit < Padded(p, n, site).digit + BOUNDARY
          else t[n].digit > Ceiling(t, q, n) - BOUNDARY
  }

  /** That strategy, drawn now or before, is the only one that may have been drawn. */
  predicate Strategic(p: Position, t: Position, q: Position, site: int, level: nat,
                      cache: StrategyCache, cache': StrategyCache) {
    && OnStrategy(p, t, q, site, level, cache')
    && var last := level + |t| - 1;
       cache' == cache[last := cache'[last]] && (last in cache ==> cache' == cache)
  }

  /** How a generated position was put together. */
  predicate Drawn(p: Position, t: Position, q: Position, site: int, level: nat,
                  cache: StrategyCache, cache': StrategyCache) {
    Shortest(p, t, q, site) && Strategic(p, t, q, site, level, cache, cache')
  }

  /** Below a level at which both ends were left behind, and taken over, the same holds of the rest. */
  lemma {:induction false} CeilingBelow(x: Identifier, t: Position, q: Position, i: nat)
    requires i <= |t|
    ensures Ceiling([x] + t, q, i + 1) == if q != [] && q[0] == x then Ceiling(t, q[1..], i) else BASE
  {
    var u := [x] + t;
    assert u[..i + 1] == [x] + t[..i];
    if i + 1 < |q| {
      assert q[..i + 1] == [q[0]] + q[1..][..i];
      assert u[..i + 1] == q[..i + 1] <==> x == q[0] && t[..i] == q[1..][..i] by {
        assert u[..i + 1][0] == x && u[..i + 1][1..] == t[..i];
        assert q[..i + 1][0] == q[0] && q[..i + 1][1..] == q[1..][..i];
      }
    }
  }

  lemma {:induction false} PaddedBelow(p: Position, i: nat, site: int)
    ensures Padded(p, i + 1, site) == Padded(Rest(p), i, site)
  {
  }

  /** What lies behind an identifier that was taken over, seen from before it. */
  function Behind(x: Identifier, q: Position): Position {
    if q != [] && q[0] == x then q[1..] else []
  }

  lemma {:induction false} NoRoomBelow(p: Position, t: Position, q: Position, site: int, i: nat)
    requires i < |t| && NoRoom(Rest(p), t, Behind(PaddedHead(p, site), q), site, i)
    ensures NoRoom(p, [PaddedHead(p, site)] + t, q, site, i + 1)
  {
    CeilingBelow(PaddedHead(p, site), t, q, i);
    PaddedBelow(p, i, site);
  }

  lemma {:induction false} ShortestBelow(p: Position, t: Position, q: Position, site: int)
    requires var x := PaddedHead(p, site);
             && Shortest(Rest(p), t, Behind(x, q), site)
             && (if q == [] then BASE else q[0].digit) - x.digit <= 1
    ensures Shortest(p, [PaddedHead(p, site)] + t, q, site)
  {
    var x := PaddedHead(p, site);
    var u := [x] + t;
    forall i | 0 <= i < |u| - 1 ensures NoRoom(p, u, q, site, i) {
      if i > 0 {
        NoRoomBelow(p, t, q, site, i - 1);
      } else {
        assert u[..0] == q[..0];
      }
    }
    CeilingBelow(x, t, q, |t| - 1);
    PaddedBelow(p, |t| - 1, site);
  }

  lemma {:induction false} StrategicBelow(p: Position, t: Position, q: Position, site: int, level: nat,
                                          cache: StrategyCache, cache': StrategyCache)
    requires Strategic(Rest(p), t, Behind(PaddedHead(p, site), q), site, level + 1, cache, cache')
    ensures Strategic(p, [PaddedHead(p, site)] + t, q, site, level, cache, cache')
  {
    var x, n := PaddedHead(p, site), |t| - 1;
    CeilingBelow(x, t, q, n);
    PaddedBelow(p, n, site);
    assert ([x] + t)[n + 1] == t[n];
  }

  /** A digit drawn at once. */
  lemma {:induction false} DrawnAtOnce(p: Position, q: Position, site: int, level: nat, newPos: Position, digit: int,
                                       cache: StrategyCache, cache': StrategyCache)
    requires PaddedHead(p, site).digit < digit < if q == [] then BASE else q[0].digit
    requires level in cache' && cache' == cache[level := cache'[level]] && (level in cache ==> cache' == cache)
    requires if cache'[level] then digit < PaddedHead(p, site).digit + BOUNDARY
             else digit > (if q == [] then BASE else q[0].digit) - BOUNDARY
    ensures Built(p, q, site, newPos, level, Ok(newPos + [Identifier(digit, site)]), cache, cache')
  {
    var t := [Identifier(digit, site)];
    assert (newPos + t)[|newPos|..] == t;
    assert t[..0] == q[..0];
  }

  /** The same as `Drawn`, with `newPos` fixed before; a failed call draws nothing. */
  ghost predicate Built(p: Position, q: Position, site: int, newPos: Position, level: nat, r: Result<Position>,
                        cache: StrategyCache, cache': StrategyCache) {
    match r
    case Err(_) => cache' == cache
    case Ok(t) => newPos <= t && Drawn(p, t[|newPos|..], q, site, level, cache, cache')
  }

  /** What was built below a level, behind the identifier taken over there. */
  lemma {:induction false} BuiltBelow(p: Position, q: Position, q1: Position, site: int, newPos: Position, level: nat,
                                      r: Result<Position>, cache: StrategyCache, cache': StrategyCache)
    requires var x := PaddedHead(p, site);
             && q1 == Behind(x, q) && (if q == [] then BASE else q[0].digit) - x.digit <= 1
             && Built(Rest(p), q1, site, newPos + [x], level + 1, r, cache, cache')
    ensures Built(p, q, site, newPos, level, r, cache, cache')
  {
    if r.Ok? {
      var x := PaddedHead(p, site);
      var t := r.value[|newPos + [x]|..];
      Prepended(newPos, x, r.value);
      ShortestBelow(p, t, q, site);
      StrategicBelow(p, t, q, site, level, cache, cache');
    }
  }

  lemma {:induction false} Prepended(newPos: Position, x: Identifier, r: Position)
    requires newPos + [x] <= r
    ensures newPos <= r && r[|newPos|..] == [x] + r[|newPos + [x]|..]
  {
  }

  lemma {:induction false} RoomTaken(p: Position, q: Position, site: int, newPos: Position, digit: int)
    requires Gap(p, q)
    requires PaddedHead(p, site).digit < digit < if q == [] then BASE else q[0].digit
    ensures Outcome(p, q, site, newPos, Ok(newPos + [Identifier(digit, site)]))
  {
    RoomAtOnce(p, q, site, digit);
    assert (newPos + [Identifier(digit, site)])[|newPos|..] == [Identifier(digit, site)];
  }

  /** After taking over the left identifier nothing can fail any more. */
  lemma {:induction false} LeftTaken(p: Position, q: Position, site: int, newPos: Position, r: Result<Position>)
    requires Gap(p, q)
    requires p != [] || q != []
    requires q != [] ==> CompareIdentifiers(PaddedHead(p, site), q[0]) < 0
    requires Outcome(Rest(p), [], site, newPos + [PaddedHead(p, site)], r)
    ensures Outcome(p, q, site, newPos, r)
  {
    var x := PaddedHead(p, site);
    KeepLeft(p, q, site, []);
    Prepended(newPos, x, r.value);
    KeepLeft(p, q, site, r.value[|newPos + [x]|..]);
  }

  lemma {:induction false} BothTaken(p: Position, q: Position, site: int, newPos: Position, r: Result<Position>)
    requires Gap(p, q) && q != [] && PaddedHead(p, site) == q[0]
    requires q[1..] != [] && Gap(Rest(p), q[1..])
    requires Outcome(Rest(p), q[1..], site, newPos + [q[0]], r)
    ensures Outcome(p, q, site, newPos, r)
  {
    KeepBoth(p, q, site, []);
    if r.Ok? {
      Prepended(newPos, q[0], r.value);
      KeepBoth(p, q, site, r.value[|newPos + [q[0]]|..]);
    }
  }

  /** Within a gap the digits never go down, and only behind an exhausted left end the site may. */
  lemma {:induction false} HeadsInOrder(p: Position, q: Position, site: int, newPos: Position)
    requires Gap(p, q)
    ensures 0 <= PaddedHead(p, site).digit < BASE
    ensures q != [] ==> PaddedHead(p, site).digit <= q[0].digit
    ensures q != [] && PaddedHead(p, site).digit == q[0].digit && PaddedHead(p, site).site > q[0].site ==>
              Outcome(p, q, site, newPos, Err(InvalidOrdering))
  {
    if q != [] && PaddedHead(p, site) != q[0] {
      BlockedAtOnce(p, q, site);
    }
  }

  /** `generatePositionBetween`: `newPos` accumulates the identifiers already fixed. Generation
  throws exactly in a blocked gap, and otherwise appends a position strictly inside the gap: the left end
  up to the first level with room, and there a digit drawn by the strategy of that level. */
  method GeneratePositionBetween(site: int, pos1: Position, pos2: Position, newPos: Position,
                                 level: nat, cache: StrategyCache)
    returns (r: Result<Position>, cache': StrategyCache)
    requires Gap(Tail(pos1, level), Tail(pos2, level))
    ensures Outcome(Tail(pos1, level), Tail(pos2, level), site, newPos, r)
    ensures Built(Tail(pos1, level), Tail(pos2, level), site, newPos, level, r, cache, cache')
    decreases |Tail(pos1, level)| + |Tail(pos2, level)|, 1
  {
    var id1 := if level < |pos1| then pos1[level] else Identifier(0, site);
    var id2 := if level < |pos2| then pos2[level] else Identifier(BASE, site);
    ghost var p, q := Tail(pos1, level), Tail(pos2, level);
    HeadsInOrder(p, q, site, newPos);
    if id2.digit - id1.digit > 1 {
      r, cache' := TakeRoom(site, id1.digit, id2.digit, newPos, level, cache, p, q);
    } else if id2.digit - id1.digit == 1 {
      r, cache' := TakeLeft(site, pos1, pos2, newPos, level, cache);
    } else if id1.digit == id2.digit {
      if id1.site < id2.site {
        r, cache' := TakeLeft(site, pos1, pos2, newPos, level, cache);
      } else if id1.site == id2.site {
        r, cache' := TakeBoth(site, pos1, pos2, newPos, level, cache);
      } else {
        r, cache' := Err(InvalidOrdering), cache;
      }
    } else {
      assert false; // within a gap the digits never go down
    }
  }

  /** Ends the position with a digit between the two. */
  method TakeRoom(site: int, digit1: int, digit2: int, newPos: Position, level: nat, cache: StrategyCache,
                  ghost p: Position, ghost q: Position)
    returns (r: Result<Position>, cache': StrategyCache)
    requires Gap(p, q) && digit2 - digit1 > 1
    requires digit1 == PaddedHead(p, site).digit && digit2 == if q == [] then BASE else q[0].digit
    ensures Outcome(p, q, site, newPos, r) && Built(p, q, site, newPos, level, r, cache, cache')
  {
    var newDigit;
    newDigit, cache' := GenerateIdBetween(digit1, digit2, level, cache);
    r := Ok(newPos + [Identifier(newDigit, site)]);
    RoomTaken(p, q, site, newPos, newDigit);
    DrawnAtOnce(p, q, site, level, newPos, newDigit, cache, cache');
  }

  /** Takes over the identifier that both ends have at a level. */
  method TakeBoth(site: int, pos1: Position, pos2: Position, newPos: Position, level: nat, cache: StrategyCache)
    returns (r: Result<Position>, cache': StrategyCache)
    requires Gap(Tail(pos1, level), Tail(pos2, level))
    requires level < |pos2| && PaddedHead(Tail(pos1, level), site) == pos2[level]
    ensures Outcome(Tail(pos1, level), Tail(pos2, level), site, newPos, r)
    ensures Built(Tail(pos1, level), Tail(pos2, level), site, newPos, level, r, cache, cache')
    decreases |Tail(pos1, level)| + |Tail(pos2, level)|, 0
  {
    var id1 := if level < |pos1| then pos1[level] else Identifier(0, site);
    ghost var p, q := Tail(pos1, level), Tail(pos2, level);
    assert Rest(p) == Tail(pos1, level + 1) && Rest(q) == Tail(pos2, level + 1);
    KeepBoth(p, q, site, []);
    r, cache' := GeneratePositionBetween(site, pos1, pos2, newPos + [id1], level + 1, cache);
    BothTaken(p, q, site, newPos, r);
    BuiltBelow(p, q, Rest(q), site, newPos, level, r, cache, cache');
  }

  /** Takes over the left identifier, below the right one, and goes on without a right end. */
  method TakeLeft(site: int, pos1: Position, ghost pos2: Position, newPos: Position, level: nat, cache: StrategyCache)
    returns (r: Result<Position>, cache': StrategyCache)
    requires Gap(Tail(pos1, level), Tail(pos2, level))
    requires Tail(pos1, level) != [] || Tail(pos2, level) != []
    requires Tail(pos2, level) != [] ==> CompareIdentifiers(PaddedHead(Tail(pos1, level), site), pos2[level]) < 0
    requires (if Tail(pos2, level) == [] then BASE else pos2[level].digit) - PaddedHead(Tail(pos1, level), site).digit <= 1
    ensures Outcome(Tail(pos1, level), Tail(pos2, level), site, newPos, r)
    ensures Built(Tail(pos1, level), Tail(pos2, level), site, newPos, level, r, cache, cache')
    decreases |Tail(pos1, level)| + |Tail(pos2, level)|, 0
  {
    var id1 := if level < |pos1| then pos1[level] else Identifier(0, site);
    ghost var p, q := Tail(pos1, level), Tail(pos2, level);
    assert Rest(p) == Tail(pos1, level + 1) && id1 == PaddedHead(p, site);
    KeepLeft(p, q, site, []);
    r, cache' := GeneratePositionBetween(site, pos1, [], newPos + [id1], level + 1, cache);
    LeftTaken(p, q, site, newPos, r);
    BuiltBelow(p, q, [], site, newPos, level, r, cache, cache');
  }

  /** Behind a freshly generated position the gap is open, for every site: a paste can only fail at
  its first symbol. */
  lemma {:induction false} OpenBehindGenerated(p: Position, t: Position, q: Position, site: int, other: int)
    requires Generated(p, t, q, site)
    ensures !Blocked(t, q, other)
  {
  }

  /** The throw is reachable: site 1 squeezes a symbol before its own `(1, 1)`, after which site 2,
  larger, finds the front of the document blocked. */
  lemma {:induction false} BlockedGapArises()
    ensures exists first, second ::
              && Generated([], first, [], 1)
              && Generated([], second, first, 1)
              && Gap([], second) && Blocked([], second, 2)
  {
    var first, second := [Identifier(1, 1)], [Identifier(0, 1), Identifier(5, 1)];
    assert Generated([], first, [], 1) && Generated([], second, first, 1);
    assert BlockedAt([], second, 2, 0);
  }

  /** Everything but the last digit is determined by the gap and the site, the length included: no
  position is longer than it has to be. */
  lemma {:induction false} PrefixDetermined(p: Position, q: Position, site: int, t1: Position, t2: Position)
    requires Shortest(p, t1, q, site) && Shortest(p, t2, q, site)
    ensures |t1| == |t2| && t1[..|t1| - 1] == t2[..|t2| - 1]
  {
    NotShorter(p, q, site, t1, t2);
    NotShorter(p, q, site, t2, t1);
    SamePrefix(p, q, site, t1, t2, |t1| - 1);
  }

  lemma {:induction false} SamePrefix(p: Position, q: Position, site: int, t1: Position, t2: Position, n: nat)
    requires Shortest(p, t1, q, site) && Shortest(p, t2, q, site) && n < |t1| && n < |t2|
    ensures t1[..n] == t2[..n]
    ensures n < |t2| - 1 ==> Ceiling(t1, q, n) - Padded(p, n, site).digit <= 1
  {
    assert n < |t2| - 1 ==> NoRoom(p, t2, q, site, n);
    forall i | 0 <= i < n ensures t1[i] == t2[i] {
      assert NoRoom(p, t1, q, site, i) && NoRoom(p, t2, q, site, i);
    }
  }

  lemma {:induction false} NotShorter(p: Position, q: Position, site: int, t1: Position, t2: Position)
    requires Shortest(p, t1, q, site) && Shortest(p, t2, q, site)
    ensures |t1| >= |t2|
  {
    if |t1| < |t2| {
      SamePrefix(p, q, site, t1, t2, |t1| - 1);
    }
  }

  /** Positions invented by different sites never coincide. */
  lemma {:induction false} SitesNeverCollide(p1: Position, t1: Position, q1: Position, site1: int,
                          p2: Position, t2: Position, q2: Position, site2: int)
    requires Generated(p1, t1, q1, site1) && Generated(p2, t2, q2, site2)
    requires site1 != site2
    ensures t1 != t2
    ensures Less(t1, t2) || Less(t2, t1)
  {
    Antisymmetric(t1, t2);
  }
}

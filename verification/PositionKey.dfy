/** The server's string key for a position (Utility/symbol.h:234-248), and its map of symbols. */
module PositionKey {
  import opened Positions
  import opened Documents

  // ----- Decimal numbers, as `QString::number` writes them -----

  function DigitChar(d: int): char
    requires 0 <= d < 10
  {
    '0' + d as char
  }

  function NatString(n: nat): (s: string)
    ensures s != []
  {
    if n < 10 then [DigitChar(n)] else NatString(n / 10) + [DigitChar(n % 10)]
  }

  function NumberString(n: int): string {
    if n < 0 then "-" + NatString(-n) else NatString(n)
  }

  /** Reads a decimal number back. */
  function NatValue(s: string): int {
    if s == [] then 0 else 10 * NatValue(s[..|s| - 1]) + (s[|s| - 1] as int - '0' as int)
  }

  predicate NumberChar(c: char) {
    '0' <= c <= '9' || c == '-'
  }

  lemma {:induction false} NatStringShape(n: nat)
    ensures NatValue(NatString(n)) == n
    ensures forall i :: 0 <= i < |NatString(n)| ==> '0' <= NatString(n)[i] <= '9'
  {
    if n < 10 {
      assert NatString(n)[..0] == [];
    } else {
      NatStringShape(n / 10);
      var s := NatString(n);
      assert s[..|s| - 1] == NatString(n / 10);
    }
  }

  lemma {:induction false} NumberStringShape(n: int)
    ensures forall i :: 0 <= i < |NumberString(n)| ==> NumberChar(NumberString(n)[i])
    ensures NumberString(n) != [] && (NumberString(n)[0] == '-' <==> n < 0)
  {
    NatStringShape(if n < 0 then -n else n);
  }

  lemma {:induction false} NumberStringInjective(m: int, n: int)
    requires NumberString(m) == NumberString(n)
    ensures m == n
  {
    NatStringShape(if m < 0 then -m else m);
    NatStringShape(if n < 0 then -n else n);
    NumberStringShape(m);
    NumberStringShape(n);
    if m < 0 {
      assert NatString(-m) == NumberString(m)[1..] == NumberString(n)[1..] == NatString(-n);
    }
  }

  // ----- Identifiers and positions -----

  function IdentifierString(i: Identifier): string {
    NumberString(i.digit) + "_" + NumberString(i.site)
  }

  function Joined(p: Position): string {
    if p == [] then ""
    else if |p| == 1 then IdentifierString(p[0])
    else Joined(p[..|p| - 1]) + ", " + IdentifierString(p[|p| - 1])
  }

  function Key(p: Position): string {
    "[" + Joined(p) + "]"
  }

  /** A key, character by character. */
  lemma {:induction false} KeyCharacters()
    ensures Key([Identifier(1, 2), Identifier(30, -4)]) == "[1_2, 30_-4]"
  {
    var p := [Identifier(1, 2), Identifier(30, -4)];
    assert p[..1] == [Identifier(1, 2)];
    assert NatString(30) == NatString(3) + "0";
    assert IdentifierString(p[0]) == "1_2" && IdentifierString(p[1]) == "30_-4";
  }

  lemma {:induction false} JoinedMore(p: Position, i: nat)
    requires i < |p|
    ensures "[" + Joined(p[..i + 1]) == "[" + Joined(p[..i]) + (if i == 0 then "" else ", ") + IdentifierString(p[i])
  {
    assert p[..i + 1][..i] == p[..i];
  }

  /** The loop of `positionString`. */
  method PositionString(p: Position) returns (result: string)
    ensures result == Key(p)
  {
    result := "[";
    var first := true;
    for i := 0 to |p|
      invariant first <==> i == 0
      invariant result == "[" + Joined(p[..i])
    {
      JoinedMore(p, i);
      if first {
        first := false;
      } else {
        result := result + ", ";
      }
      result := result + IdentifierString(p[i]);
    }
    assert p[..|p|] == p;
    result := result + "]";
  }

  /** A string splits only one way at the last occurrence of a character. */
  lemma {:induction false} SplitAtLast(a: string, x: string, b: string, y: string, c: char)
    requires a + [c] + x == b + [c] + y && c !in x && c !in y
    ensures a == b && x == y
  {
    var s, t := a + [c] + x, b + [c] + y;
    assert s[|a|] == c && t[|b|] == c;
    assert forall i :: |a| < i < |s| ==> s[i] == x[i - |a| - 1];
    assert forall i :: |b| < i < |t| ==> t[i] == y[i - |b| - 1];
    assert |a| == |b|;
    assert a == s[..|a|] && b == t[..|b|] && x == s[|a| + 1..] && y == t[|b| + 1..];
  }

  lemma {:induction false} IdentifierStringShape(i: Identifier)
    ensures IdentifierString(i) != [] && ',' !in IdentifierString(i) && ' ' !in IdentifierString(i)
  {
    NumberStringShape(i.digit);
    NumberStringShape(i.site);
    var a, b, s := NumberString(i.digit), NumberString(i.site), IdentifierString(i);
    forall k | 0 <= k < |s| ensures s[k] != ',' && s[k] != ' ' {
      assert s[k] == if k < |a| then a[k] else if k == |a| then '_' else b[k - |a| - 1];
    }
  }

  lemma {:induction false} IdentifierStringInjective(i: Identifier, j: Identifier)
    requires IdentifierString(i) == IdentifierString(j)
    ensures i == j
  {
    NumberStringShape(i.site);
    NumberStringShape(j.site);
    SplitAtLast(NumberString(i.digit), NumberString(i.site), NumberString(j.digit), NumberString(j.site), '_');
    NumberStringInjective(i.digit, j.digit);
    NumberStringInjective(i.site, j.site);
  }

  /** Two identifiers or more show a separator; fewer do not. */
  lemma {:induction false} JoinedSeparator(p: Position)
    ensures ' ' in Joined(p) <==> |p| >= 2
    ensures Joined(p) == [] <==> p == []
  {
    if |p| == 1 {
      IdentifierStringShape(p[0]);
    } else if |p| >= 2 {
      assert Joined(p)[|Joined(p[..|p| - 1])| + 1] == ' ';
    }
  }

  lemma {:induction false} SplitAtSeparator(a: string, x: string, b: string, y: string)
    requires a + ", " + x == b + ", " + y && ' ' !in x && ' ' !in y
    ensures a == b && x == y
  {
    var a1, b1 := a + ",", b + ",";
    assert a + ", " + x == a1 + [' '] + x && b + ", " + y == b1 + [' '] + y;
    SplitAtLast(a1, x, b1, y, ' ');
    assert a == a1[..|a1| - 1] && b == b1[..|b1| - 1];
  }

  lemma {:induction false} JoinedLast(p: Position, m: nat, q: Position, n: nat)
    requires m + 1 == |p| && n + 1 == |q| && m > 0 && n > 0 && Joined(p) == Joined(q)
    ensures p[m] == q[n] && Joined(p[..m]) == Joined(q[..n])
  {
    IdentifierStringShape(p[m]);
    IdentifierStringShape(q[n]);
    SplitAtSeparator(Joined(p[..m]), IdentifierString(p[m]), Joined(q[..n]), IdentifierString(q[n]));
    IdentifierStringInjective(p[m], q[n]);
  }

  lemma {:induction false} JoinedInjective(p: Position, q: Position)
    requires Joined(p) == Joined(q)
    ensures p == q
    decreases |p|
  {
    JoinedSeparator(p);
    JoinedSeparator(q);
    if |p| == 1 {
      IdentifierStringInjective(p[0], q[0]);
    } else if |p| >= 2 {
      var m, n := |p| - 1, |q| - 1;
      JoinedLast(p, m, q, n);
      JoinedInjective(p[..m], q[..n]);
      SameBySplit(p, m, q, n);
    }
  }

  lemma {:induction false} SameBySplit(p: Position, m: nat, q: Position, n: nat)
    requires m + 1 == |p| && n + 1 == |q| && p[..m] == q[..n] && p[m] == q[n]
    ensures p == q
  {
    assert p == p[..m] + [p[m]] && q == q[..n] + [q[n]];
  }

  /** The key is faithful: different positions never share a key. */
  lemma {:induction false} KeyInjective(p: Position, q: Position)
    ensures Key(p) == Key(q) <==> p == q
  {
    if Key(p) == Key(q) {
      assert Joined(p) == Key(p)[1..|Key(p)| - 1];
      assert Joined(q) == Key(q)[1..|Key(q)| - 1];
      JoinedInjective(p, q);
    }
  }

  // ----- The server's map of symbols -----

  type SymbolMap = map<string, Symbol>

  datatype Edit = Put(symbol: Symbol) | Drop(symbol: Symbol)

  function Apply(m: SymbolMap, e: Edit): SymbolMap {
    match e
    case Put(s) => m[Key(s.position) := s]
    case Drop(s) => m - {Key(s.position)}
  }

  function ApplyAll(m: SymbolMap, es: seq<Edit>): SymbolMap {
    if es == [] then m else Apply(ApplyAll(m, es[..|es| - 1]), es[|es| - 1])
  }

  /** The same edits on a map keyed by the positions themselves. */
  function ApplyByPosition(m: map<Position, Symbol>, es: seq<Edit>): map<Position, Symbol> {
    if es == [] then m
    else
      var m' := ApplyByPosition(m, es[..|es| - 1]);
      match es[|es| - 1]
      case Put(s) => m'[s.position := s]
      case Drop(s) => m' - {s.position}
  }

  /** Every symbol is stored under its own key. */
  predicate Keyed(m: SymbolMap) {
    forall k <- m :: k == Key(m[k].position)
  }

  ghost predicate SameContents(m: SymbolMap, byPosition: map<Position, Symbol>) {
    && Keyed(m)
    && (forall p :: p in byPosition <==> Key(p) in m)
    && (forall p <- byPosition :: m[Key(p)] == byPosition[p])
  }

  /** Keying by strings loses nothing: after any edits the string-keyed map holds what a map keyed
  by positions would hold. */
  lemma {:induction false} KeyFaithful(m: SymbolMap, byPosition: map<Position, Symbol>, es: seq<Edit>)
    requires SameContents(m, byPosition)
    ensures SameContents(ApplyAll(m, es), ApplyByPosition(byPosition, es))
    decreases |es|
  {
    if es != [] {
      var n := |es| - 1;
      KeyFaithful(m, byPosition, es[..n]);
      var m1, b1, s := ApplyAll(m, es[..n]), ApplyByPosition(byPosition, es[..n]), es[n].symbol;
      var m2, b2 := ApplyAll(m, es), ApplyByPosition(byPosition, es);
      forall p ensures p in b2 <==> Key(p) in m2 {
        KeyInjective(p, s.position);
      }
      forall p <- b2 ensures m2[Key(p)] == b2[p] {
        KeyInjective(p, s.position);
      }
    }
  }

  lemma {:induction false} ApplyKeepsKeyed(m: SymbolMap, e: Edit)
    requires Keyed(m)
    ensures Keyed(Apply(m, e))
  {
  }
}

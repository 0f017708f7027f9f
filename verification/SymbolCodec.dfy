/** The binary form of symbols: the stream operators of Utility/symbol.h over QDataStream.

QDataStream writes integers most significant byte first, a vector as its 4-byte size and its
elements, and a string as its size in bytes and its UTF-16 units.
*/
module SymbolCodec {
  import opened Wrappers
  import opened Bytes
  import opened Positions
  import opened Documents

  datatype Read<+T> = Read(value: T, rest: bytes)

  type Decoder<!T> = bytes -> Option<Read<T>>

  // ----- What is written -----

  function EncodeMany<T>(encode: T -> bytes, xs: seq<T>): bytes {
    if xs == [] then [] else encode(xs[0]) + EncodeMany(encode, xs[1..])
  }

  function EncodeUnit(c: CharCode): bytes {
    BigEndian(c, 2)
  }

  function EncodeBool(b: bool): bytes {
    [if b then 1 else 0]
  }

  function EncodeString(s: seq<CharCode>): bytes {
    BigEndian(2 * |s|, 4) + EncodeMany(EncodeUnit, s)
  }

  function EncodeIdentifier(i: Identifier): bytes {
    Signed(i.digit, 4) + Signed(i.site, 4)
  }

  function EncodePosition(p: Position): bytes {
    BigEndian(|p|, 4) + EncodeMany(EncodeIdentifier, p)
  }

  /** Enumerations are written as 8 bytes. */
  function EncodeAlignment(a: Alignment): bytes {
    Signed(match a case AlignLeft => 0 case AlignRight => 1 case AlignCenter => 2, 8)
  }

  function EncodeFormat(f: Format): bytes {
    EncodeAlignment(f.align)
    + (EncodeBool(f.style.italic) + (EncodeBool(f.style.bold) + (EncodeBool(f.style.underline)
    + (EncodeString(f.style.font) + (Signed(f.style.size, 4) + EncodeString(f.style.color))))))
  }

  function EncodeSymbol(s: Symbol): bytes {
    EncodeUnit(s.value) + (EncodePosition(s.position) + (Signed(s.counter, 4) + EncodeFormat(s.format)))
  }

  function EncodeSymbols(vs: seq<Symbol>): bytes {
    BigEndian(|vs|, 4) + EncodeMany(EncodeSymbol, vs)
  }

  /** The numbers of the alignments and of truth values. */
  lemma {:induction false} EnumerationBytes()
    ensures EncodeAlignment(AlignLeft) == [0, 0, 0, 0, 0, 0, 0, 0]
    ensures EncodeAlignment(AlignRight) == [0, 0, 0, 0, 0, 0, 0, 1]
    ensures EncodeAlignment(AlignCenter) == [0, 0, 0, 0, 0, 0, 0, 2]
    ensures EncodeBool(false) == [0] && EncodeBool(true) == [1]
  {
    EnumeratorBytes(0);
    EnumeratorBytes(1);
    EnumeratorBytes(2);
  }

  lemma {:induction false} EnumeratorBytes(n: nat)
    requires n < 128
    ensures Signed(n, 8) == [0, 0, 0, 0, 0, 0, 0, n]
  {
    SmallPositive(n);
    OneByte(n, 8);
  }

  lemma {:induction false} SmallPositive(n: nat)
    requires n < 128
    ensures Signed(n, 8) == BigEndian(n, 8)
  {
    PowerFour();
    ModWithin(n, Power(8));
  }

  /** Elements lie side by side, in order. */
  lemma {:induction false} ManyAt<T>(encode: T -> bytes, xs: seq<T>, i: nat)
    requires i < |xs|
    ensures EncodeMany(encode, xs) == EncodeMany(encode, xs[..i]) + encode(xs[i]) + EncodeMany(encode, xs[i + 1..])
  {
    if i == 0 {
      assert xs[..0] == [];
    } else {
      ManyAt(encode, xs[1..], i - 1);
      assert xs[1..][..i - 1] == xs[..i][1..] && xs[1..][i..] == xs[i + 1..];
    }
  }

  lemma {:induction false} UnitsSize(s: seq<CharCode>)
    ensures |EncodeMany(EncodeUnit, s)| == 2 * |s|
  {
    if s != [] {
      UnitsSize(s[1..]);
    }
  }

  lemma {:induction false} IdentifiersSize(p: Position)
    ensures |EncodeMany(EncodeIdentifier, p)| == 8 * |p|
  {
    if p != [] {
      IdentifiersSize(p[1..]);
    }
  }

  /** A string is its size in bytes and its UTF-16 units, high byte first. */
  lemma {:induction false} StringBytes(s: seq<CharCode>, i: nat)
    requires i < |s|
    ensures |EncodeString(s)| == 4 + 2 * |s| && EncodeString(s)[..4] == BigEndian(2 * |s|, 4)
    ensures EncodeString(s)[4 + 2 * i] == s[i] / 256 && EncodeString(s)[5 + 2 * i] == s[i] % 256
  {
    UnitsSize(s);
    UnitsSize(s[..i]);
    ManyAt(EncodeUnit, s, i);
    UnitBytes(s[i]);
  }

  lemma {:induction false} UnitBytes(c: CharCode)
    ensures EncodeUnit(c) == [c / 256, c % 256]
  {
    assert BigEndian(c, 2) == BigEndian(c / 256, 1) + [c % 256];
    assert BigEndian(c / 256, 1) == BigEndian(c / 256 / 256, 0) + [c / 256 % 256];
  }

  /** A position is its number of identifiers, and of each the digit and the site. */
  lemma {:induction false} PositionBytes(p: Position, i: nat)
    requires i < |p|
    ensures |EncodePosition(p)| == 4 + 8 * |p| && EncodePosition(p)[..4] == BigEndian(|p|, 4)
    ensures EncodePosition(p)[4 + 8 * i..8 + 8 * i] == Signed(p[i].digit, 4)
    ensures EncodePosition(p)[8 + 8 * i..12 + 8 * i] == Signed(p[i].site, 4)
  {
    IdentifiersSize(p);
    IdentifiersSize(p[..i]);
    ManyAt(EncodeIdentifier, p, i);
  }

  // ----- What is read -----

  function DecodeNat(b: bytes, k: nat): Option<Read<nat>> {
    if |b| < k then None else Some(Read(BigEndianValue(b[..k]), b[k..]))
  }

  function DecodeInt(b: bytes, k: nat): Option<Read<int>> {
    if |b| < k then None else Some(Read(SignedValue(b[..k]), b[k..]))
  }

  function DecodeMany<T>(decode: Decoder<T>, b: bytes, n: nat): Option<Read<seq<T>>>
    decreases n
  {
    if n == 0 then Some(Read([], b))
    else
      var x :- decode(b);
      var xs :- DecodeMany(decode, x.rest, n - 1);
      Some(Read([x.value] + xs.value, xs.rest))
  }

  function DecodeUnit(b: bytes): Option<Read<CharCode>> {
    if |b| < 2 then None
    else
      var high: int, low: int := b[0], b[1];
      var c: CharCode := 256 * high + low;
      Some(Read(c, b[2..]))
  }

  function DecodeBool(b: bytes): Option<Read<bool>> {
    if b == [] then None else Some(Read(b[0] != 0, b[1..]))
  }

  /** The size 2^32 - 1 marks a null string, which reads as an empty one; an odd size is an error. */
  function DecodeString(b: bytes): Option<Read<seq<CharCode>>> {
    var n :- DecodeNat(b, 4);
    if n.value == 0xFFFF_FFFF then Some(Read([], n.rest))
    else if n.value % 2 == 1 then None
    else DecodeMany(DecodeUnit, n.rest, n.value / 2)
  }

  function DecodeIdentifier(b: bytes): Option<Read<Identifier>> {
    var digit :- DecodeInt(b, 4);
    var site :- DecodeInt(digit.rest, 4);
    Some(Read(Identifier(digit.value, site.value), site.rest))
  }

  function DecodePosition(b: bytes): Option<Read<Position>> {
    var n :- DecodeNat(b, 4);
    DecodeMany(DecodeIdentifier, n.rest, n.value)
  }

  function DecodeAlignment(b: bytes): Option<Read<Alignment>> {
    var v :- DecodeInt(b, 8);
    match v.value
    case 0 => Some(Read(AlignLeft, v.rest))
    case 1 => Some(Read(AlignRight, v.rest))
    case 2 => Some(Read(AlignCenter, v.rest))
    case _ => None
  }

  function DecodeFormat(b: bytes): Option<Read<Format>> {
    var align :- DecodeAlignment(b);
    var italic :- DecodeBool(align.rest);
    var bold :- DecodeBool(italic.rest);
    var underline :- DecodeBool(bold.rest);
    var font :- DecodeString(underline.rest);
    var size :- DecodeInt(font.rest, 4);
    var color :- DecodeString(size.rest);
    Some(Read(Format(align.value, Style(italic.value, bold.value, underline.value,
                                        font.value, size.value, color.value)), color.rest))
  }

  function DecodeSymbol(b: bytes): Option<Read<Symbol>> {
    var value :- DecodeUnit(b);
    var position :- DecodePosition(value.rest);
    var counter :- DecodeInt(position.rest, 4);
    var format :- DecodeFormat(counter.rest);
    Some(Read(Symbol(value.value, position.value, counter.value, format.value), format.rest))
  }

  function DecodeSymbols(b: bytes): Option<Read<seq<Symbol>>> {
    var n :- DecodeNat(b, 4);
    DecodeMany(DecodeSymbol, n.rest, n.value)
  }

  // ----- Round trips -----

  /** Values that the program's types can hold: 32-bit integers, and sizes below 2^31. */
  predicate StorableIdentifier(i: Identifier) {
    FitsSigned(i.digit, 4) && FitsSigned(i.site, 4)
  }

  predicate StorableString(s: seq<CharCode>) {
    2 * |s| < ARRAY_LIMIT
  }

  predicate StorableFormat(f: Format) {
    StorableString(f.style.font) && StorableString(f.style.color) && FitsSigned(f.style.size, 4)
  }

  predicate StorableSymbol(s: Symbol) {
    && |s.position| < ARRAY_LIMIT && (forall i :: 0 <= i < |s.position| ==> StorableIdentifier(s.position[i]))
    && FitsSigned(s.counter, 4) && StorableFormat(s.format)
  }

  predicate StorableSymbols(vs: seq<Symbol>) {
    |vs| < ARRAY_LIMIT && forall i :: 0 <= i < |vs| ==> StorableSymbol(vs[i])
  }

  /** `decode` takes exactly what `encode` wrote off the front, whatever follows. */
  ghost predicate Reads<T>(encode: T -> bytes, decode: Decoder<T>, x: T) {
    forall rest :: decode(encode(x) + rest) == Some(Read(x, rest))
  }

  lemma {:induction false} ManyRoundTrip<T>(encode: T -> bytes, decode: Decoder<T>, xs: seq<T>, rest: bytes)
    requires forall i :: 0 <= i < |xs| ==> Reads(encode, decode, xs[i])
    ensures DecodeMany(decode, EncodeMany(encode, xs) + rest, |xs|) == Some(Read(xs, rest))
  {
    if xs == [] {
      assert [] + rest == rest;
    } else {
      var more := EncodeMany(encode, xs[1..]);
      assert EncodeMany(encode, xs) + rest == encode(xs[0]) + (more + rest);
      assert Reads(encode, decode, xs[0]);
      assert decode(encode(xs[0]) + (more + rest)) == Some(Read(xs[0], more + rest));
      ManyRoundTrip(encode, decode, xs[1..], rest);
      assert [xs[0]] + xs[1..] == xs;
    }
  }

  lemma {:induction false} NatRoundTrip(n: nat, k: nat, rest: bytes)
    requires n < Power(k)
    ensures DecodeNat(BigEndian(n, k) + rest, k) == Some(Read(n, rest))
  {
    BigEndianRoundTrip(n, k);
    assert (BigEndian(n, k) + rest)[..k] == BigEndian(n, k);
  }

  lemma {:induction false} IntRoundTrip(n: int, k: nat, rest: bytes)
    requires k > 0 && FitsSigned(n, k)
    ensures DecodeInt(Signed(n, k) + rest, k) == Some(Read(n, rest))
  {
    SignedRoundTrip(n, k);
    assert (Signed(n, k) + rest)[..k] == Signed(n, k);
  }

  lemma {:induction false} UnitRoundTrip(c: CharCode)
    ensures Reads(EncodeUnit, DecodeUnit, c)
  {
    UnitBytes(c);
  }

  lemma {:induction false} StringRoundTrip(s: seq<CharCode>, rest: bytes)
    requires StorableString(s)
    ensures DecodeString(EncodeString(s) + rest) == Some(Read(s, rest))
  {
    PowerFour();
    var units := EncodeMany(EncodeUnit, s);
    NatRoundTrip(2 * |s|, 4, units + rest);
    assert EncodeString(s) + rest == BigEndian(2 * |s|, 4) + (units + rest);
    forall i | 0 <= i < |s| ensures Reads(EncodeUnit, DecodeUnit, s[i]) {
      UnitRoundTrip(s[i]);
    }
    ManyRoundTrip(EncodeUnit, DecodeUnit, s, rest);
  }

  lemma {:induction false} IdentifierRoundTrip(i: Identifier)
    requires StorableIdentifier(i)
    ensures Reads(EncodeIdentifier, DecodeIdentifier, i)
  {
    forall rest ensures DecodeIdentifier(EncodeIdentifier(i) + rest) == Some(Read(i, rest)) {
      assert EncodeIdentifier(i) + rest == Signed(i.digit, 4) + (Signed(i.site, 4) + rest);
      IntRoundTrip(i.digit, 4, Signed(i.site, 4) + rest);
      IntRoundTrip(i.site, 4, rest);
    }
  }

  lemma {:induction false} PositionRoundTrip(p: Position, rest: bytes)
    requires |p| < ARRAY_LIMIT && forall i :: 0 <= i < |p| ==> StorableIdentifier(p[i])
    ensures DecodePosition(EncodePosition(p) + rest) == Some(Read(p, rest))
  {
    PowerFour();
    var ids := EncodeMany(EncodeIdentifier, p);
    NatRoundTrip(|p|, 4, ids + rest);
    assert EncodePosition(p) + rest == BigEndian(|p|, 4) + (ids + rest);
    forall i | 0 <= i < |p| ensures Reads(EncodeIdentifier, DecodeIdentifier, p[i]) {
      IdentifierRoundTrip(p[i]);
    }
    ManyRoundTrip(EncodeIdentifier, DecodeIdentifier, p, rest);
  }

  lemma {:induction false} AlignmentRoundTrip(a: Alignment, rest: bytes)
    ensures DecodeAlignment(EncodeAlignment(a) + rest) == Some(Read(a, rest))
  {
    PowerFour();
    IntRoundTrip(match a case AlignLeft => 0 case AlignRight => 1 case AlignCenter => 2, 8, rest);
  }

  lemma {:induction false} BoolRoundTrip(b: bool, rest: bytes)
    ensures DecodeBool(EncodeBool(b) + rest) == Some(Read(b, rest))
  {
  }

  lemma {:induction false} Associates(a: bytes, b: bytes, rest: bytes)
    ensures (a + b) + rest == a + (b + rest)
  {
  }

  lemma {:induction false} FormatRoundTrip(f: Format, rest: bytes)
    requires StorableFormat(f)
    ensures DecodeFormat(EncodeFormat(f) + rest) == Some(Read(f, rest))
  {
    var s := f.style;
    var e6 := EncodeString(s.color);
    var e5 := Signed(s.size, 4) + e6;
    var e4 := EncodeString(s.font) + e5;
    var e3 := EncodeBool(s.underline) + e4;
    var e2 := EncodeBool(s.bold) + e3;
    var e1 := EncodeBool(s.italic) + e2;
    Associates(EncodeAlignment(f.align), e1, rest);
    Associates(EncodeBool(s.italic), e2, rest);
    Associates(EncodeBool(s.bold), e3, rest);
    Associates(EncodeBool(s.underline), e4, rest);
    Associates(EncodeString(s.font), e5, rest);
    Associates(Signed(s.size, 4), e6, rest);
    AlignmentRoundTrip(f.align, e1 + rest);
    BoolRoundTrip(s.italic, e2 + rest);
    BoolRoundTrip(s.bold, e3 + rest);
    BoolRoundTrip(s.underline, e4 + rest);
    StringRoundTrip(s.font, e5 + rest);
    IntRoundTrip(s.size, 4, e6 + rest);
    StringRoundTrip(s.color, rest);
  }

  /** Every field of a symbol survives, and exactly its bytes are consumed. */
  lemma {:induction false} SymbolRoundTrip(s: Symbol)
    requires StorableSymbol(s)
    ensures Reads(EncodeSymbol, DecodeSymbol, s)
  {
    forall rest ensures DecodeSymbol(EncodeSymbol(s) + rest) == Some(Read(s, rest)) {
      var e3 := EncodeFormat(s.format);
      var e2 := Signed(s.counter, 4) + e3;
      var e1 := EncodePosition(s.position) + e2;
      Associates(EncodeUnit(s.value), e1, rest);
      Associates(EncodePosition(s.position), e2, rest);
      Associates(Signed(s.counter, 4), e3, rest);
      UnitRoundTrip(s.value);
      assert DecodeUnit(EncodeUnit(s.value) + (e1 + rest)) == Some(Read(s.value, e1 + rest));
      PositionRoundTrip(s.position, e2 + rest);
      IntRoundTrip(s.counter, 4, e3 + rest);
      FormatRoundTrip(s.format, rest);
    }
  }

  lemma {:induction false} SymbolsRoundTrip(vs: seq<Symbol>, rest: bytes)
    requires StorableSymbols(vs)
    ensures DecodeSymbols(EncodeSymbols(vs) + rest) == Some(Read(vs, rest))
  {
    PowerFour();
    var ss := EncodeMany(EncodeSymbol, vs);
    NatRoundTrip(|vs|, 4, ss + rest);
    assert EncodeSymbols(vs) + rest == BigEndian(|vs|, 4) + (ss + rest);
    forall i | 0 <= i < |vs| ensures Reads(EncodeSymbol, DecodeSymbol, vs[i]) {
      SymbolRoundTrip(vs[i]);
    }
    ManyRoundTrip(EncodeSymbol, DecodeSymbol, vs, rest);
  }

  /** A file's symbols survive being written and read, in order, and exactly their bytes are consumed. */
  lemma {:induction false} VectorRoundTrip(vs: seq<Symbol>)
    requires StorableSymbols(vs)
    ensures Reads(EncodeSymbols, DecodeSymbols, vs)
  {
    forall rest ensures DecodeSymbols(EncodeSymbols(vs) + rest) == Some(Read(vs, rest)) {
      SymbolsRoundTrip(vs, rest);
    }
  }

  // ----- What cannot be read -----

  /** What `decode` reads does not depend on what follows. */
  ghost predicate Extends<T>(decode: Decoder<T>) {
    forall a, b :: decode(a).Some? ==> decode(a + b) == Followed(decode(a), b)
  }

  /** The same value, with more bytes behind it. */
  function Followed<T>(r: Option<Read<T>>, b: bytes): Option<Read<T>> {
    match r
    case None => None
    case Some(read) => Some(Read(read.value, read.rest + b))
  }

  lemma {:induction false} NatExtends(a: bytes, b: bytes, k: nat)
    requires |a| >= k
    ensures DecodeNat(a + b, k) == Followed(DecodeNat(a, k), b)
    ensures DecodeInt(a + b, k) == Followed(DecodeInt(a, k), b)
  {
    assert (a + b)[..k] == a[..k] && (a + b)[k..] == a[k..] + b;
  }

  lemma {:induction false} ManyExtends<T>(decode: Decoder<T>, a: bytes, b: bytes, n: nat)
    requires Extends(decode) && DecodeMany(decode, a, n).Some?
    ensures DecodeMany(decode, a + b, n) == Followed(DecodeMany(decode, a, n), b)
    decreases n
  {
    if n > 0 {
      assert decode(a + b) == Followed(decode(a), b);
      ManyExtends(decode, decode(a).value.rest, b, n - 1);
    }
  }

  lemma {:induction false} UnitExtends()
    ensures Extends(DecodeUnit)
  {
    forall a, b | DecodeUnit(a).Some? ensures DecodeUnit(a + b) == Followed(DecodeUnit(a), b) {
      assert (a + b)[2..] == a[2..] + b;
    }
  }

  lemma {:induction false} BoolExtends(a: bytes, b: bytes)
    requires DecodeBool(a).Some?
    ensures DecodeBool(a + b) == Followed(DecodeBool(a), b)
  {
    assert (a + b)[1..] == a[1..] + b;
  }

  lemma {:induction false} StringExtends(a: bytes, b: bytes)
    requires DecodeString(a).Some?
    ensures DecodeString(a + b) == Followed(DecodeString(a), b)
  {
    NatExtends(a, b, 4);
    var n := DecodeNat(a, 4).value;
    if n.value != 0xFFFF_FFFF {
      UnitExtends();
      ManyExtends(DecodeUnit, n.rest, b, n.value / 2);
    }
  }

  lemma {:induction false} IdentifierExtends()
    ensures Extends(DecodeIdentifier)
  {
    forall a, b | DecodeIdentifier(a).Some? ensures DecodeIdentifier(a + b) == Followed(DecodeIdentifier(a), b) {
      NatExtends(a, b, 4);
      NatExtends(a[4..], b, 4);
    }
  }

  lemma {:induction false} PositionExtends(a: bytes, b: bytes)
    requires DecodePosition(a).Some?
    ensures DecodePosition(a + b) == Followed(DecodePosition(a), b)
  {
    NatExtends(a, b, 4);
    IdentifierExtends();
    var n := DecodeNat(a, 4).value;
    ManyExtends(DecodeIdentifier, n.rest, b, n.value);
  }

  lemma {:induction false} FormatExtends(a: bytes, b: bytes)
    requires DecodeFormat(a).Some?
    ensures DecodeFormat(a + b) == Followed(DecodeFormat(a), b)
  {
    NatExtends(a, b, 8);
    var align := DecodeAlignment(a).value;
    BoolExtends(align.rest, b);
    var italic := DecodeBool(align.rest).value;
    BoolExtends(italic.rest, b);
    var bold := DecodeBool(italic.rest).value;
    BoolExtends(bold.rest, b);
    var underline := DecodeBool(bold.rest).value;
    StringExtends(underline.rest, b);
    var font := DecodeString(underline.rest).value;
    NatExtends(font.rest, b, 4);
    var size := DecodeInt(font.rest, 4).value;
    StringExtends(size.rest, b);
  }

  lemma {:induction false} SymbolExtends()
    ensures Extends(DecodeSymbol)
  {
    forall a, b | DecodeSymbol(a).Some? ensures DecodeSymbol(a + b) == Followed(DecodeSymbol(a), b) {
      UnitExtends();
      assert DecodeUnit(a + b) == Followed(DecodeUnit(a), b);
      var value := DecodeUnit(a).value;
      PositionExtends(value.rest, b);
      var position := DecodePosition(value.rest).value;
      NatExtends(position.rest, b, 4);
      var counter := DecodeInt(position.rest, 4).value;
      FormatExtends(counter.rest, b);
    }
  }

  lemma {:induction false} SymbolsExtends(a: bytes, b: bytes)
    requires DecodeSymbols(a).Some?
    ensures DecodeSymbols(a + b) == Followed(DecodeSymbols(a), b)
  {
    NatExtends(a, b, 4);
    SymbolExtends();
    var n := DecodeNat(a, 4).value;
    ManyExtends(DecodeSymbol, n.rest, b, n.value);
  }

  /** A vector that was cut short is never read as a shorter one: reading it fails. */
  lemma {:induction false} TruncatedFails(vs: seq<Symbol>, q: bytes)
    requires StorableSymbols(vs) && q <= EncodeSymbols(vs)
    ensures DecodeSymbols(q).Some? <==> q == EncodeSymbols(vs)
  {
    var more := EncodeSymbols(vs)[|q|..];
    assert EncodeSymbols(vs) + [] == EncodeSymbols(vs) == q + more;
    SymbolsRoundTrip(vs, []);
    if DecodeSymbols(q).Some? {
      SymbolsExtends(q, more);
      assert DecodeSymbols(q).value.rest + more == [];
    }
  }

  /** A null string reads as an empty one; a size that is no number of units is an error, and so is an
  alignment outside the enumeration. */
  lemma {:induction false} SpecialCases(n: nat, v: int, rest: bytes)
    requires n < Power(4) && FitsSigned(v, 8)
    ensures DecodeString(BigEndian(0xFFFF_FFFF, 4) + rest) == Some(Read([], rest))
    ensures n % 2 == 1 && n != 0xFFFF_FFFF ==> DecodeString(BigEndian(n, 4) + rest) == None
    ensures !(0 <= v <= 2) ==> DecodeAlignment(Signed(v, 8) + rest) == None
  {
    PowerFour();
    NatRoundTrip(0xFFFF_FFFF, 4, rest);
    NatRoundTrip(n, 4, rest);
    IntRoundTrip(v, 8, rest);
  }

  // ----- The stream operators -----

  /** What a read leaves, given what decoding the stream's bytes yields: an error status stays. */
  predicate Took<T(==)>(r: Option<Read<T>>, wasOk: bool, value: T, data: bytes, ok: bool) {
    && (ok <==> wasOk && r.Some?)
    && (ok ==> r == Some(Read(value, data)))
  }

  function Prepend<T>(xs: seq<T>, r: Option<Read<seq<T>>>): Option<Read<seq<T>>> {
    match r
    case None => None
    case Some(read) => Some(Read(xs + read.value, read.rest))
  }

  /** Within a loop that reads elements: what it will end with, when `xs` were read and `left` are
  still to come. */
  ghost function Ahead<T>(decode: Decoder<T>, xs: seq<T>, data: bytes, left: nat, ok: bool): Option<Read<seq<T>>> {
    if ok then Prepend(xs, DecodeMany(decode, data, left)) else None
  }

  lemma {:induction false} ReadingStarts<T>(decode: Decoder<T>, start: bytes, n: nat)
    ensures Ahead(decode, [], start, n, true) == DecodeMany(decode, start, n)
  {
    var all := DecodeMany(decode, start, n);
    if all.Some? {
      assert [] + all.value.value == all.value.value;
    }
  }

  lemma {:induction false} ReadingStep<T>(decode: Decoder<T>, xs: seq<T>, before: bytes, left: nat,
                                          x: T, data: bytes, ok: bool)
    requires left > 0 && Took(decode(before), true, x, data, ok)
    ensures Ahead(decode, if ok then xs + [x] else [], data, left - 1, ok) == Ahead(decode, xs, before, left, true)
  {
    if ok {
      var more := DecodeMany(decode, data, left - 1);
      if more.Some? {
        assert xs + ([x] + more.value.value) == xs + [x] + more.value.value;
      }
    }
  }

  lemma {:induction false} ReadingEnds<T>(decode: Decoder<T>, xs: seq<T>, data: bytes, left: nat, ok: bool)
    requires left == 0 || !ok
    ensures Ahead(decode, xs, data, left, ok) == if ok then Some(Read(xs, data)) else None
  {
    assert xs + [] == xs;
  }

  lemma {:induction false} EncodeManySnoc<T>(encode: T -> bytes, xs: seq<T>, x: T)
    ensures EncodeMany(encode, xs + [x]) == EncodeMany(encode, xs) + encode(x)
  {
    if xs == [] {
      assert encode(x) + [] == encode(x);
    } else {
      EncodeManySnoc(encode, xs[1..], x);
      assert (xs + [x])[1..] == xs[1..] + [x];
    }
  }

  lemma {:induction false} FormatPieces(start: bytes, f: Format)
    ensures start + EncodeAlignment(f.align) + EncodeBool(f.style.italic) + EncodeBool(f.style.bold)
            + EncodeBool(f.style.underline) + EncodeString(f.style.font) + Signed(f.style.size, 4)
            + EncodeString(f.style.color)
         == start + EncodeFormat(f)
  {
    var s := f.style;
    var e6 := EncodeString(s.color);
    var e5 := Signed(s.size, 4) + e6;
    var e4 := EncodeString(s.font) + e5;
    var e3 := EncodeBool(s.underline) + e4;
    var e2 := EncodeBool(s.bold) + e3;
    var e1 := EncodeBool(s.italic) + e2;
    var b1 := start + EncodeAlignment(f.align);
    var b2 := b1 + EncodeBool(s.italic);
    var b3 := b2 + EncodeBool(s.bold);
    var b4 := b3 + EncodeBool(s.underline);
    var b5 := b4 + EncodeString(s.font);
    Associates(start, EncodeAlignment(f.align), e1);
    Associates(b1, EncodeBool(s.italic), e2);
    Associates(b2, EncodeBool(s.bold), e3);
    Associates(b3, EncodeBool(s.underline), e4);
    Associates(b4, EncodeString(s.font), e5);
    Associates(b5, Signed(s.size, 4), e6);
  }

  lemma {:induction false} SymbolPieces(start: bytes, s: Symbol)
    ensures start + EncodeUnit(s.value) + EncodePosition(s.position) + Signed(s.counter, 4) + EncodeFormat(s.format)
         == start + EncodeSymbol(s)
  {
    var e3 := EncodeFormat(s.format);
    var e2 := Signed(s.counter, 4) + e3;
    var e1 := EncodePosition(s.position) + e2;
    var b1 := start + EncodeUnit(s.value);
    var b2 := b1 + EncodePosition(s.position);
    Associates(start, EncodeUnit(s.value), e1);
    Associates(b1, EncodePosition(s.position), e2);
    Associates(b2, Signed(s.counter, 4), e3);
  }

  lemma {:induction false} ManyPieces<T>(encode: T -> bytes, start: bytes, size: bytes, xs: seq<T>, i: nat)
    requires i < |xs|
    ensures start + (size + EncodeMany(encode, xs[..i])) + encode(xs[i])
         == start + (size + EncodeMany(encode, xs[..i + 1]))
  {
    EncodeManySnoc(encode, xs[..i], xs[i]);
    assert xs[..i] + [xs[i]] == xs[..i + 1];
    var e := EncodeMany(encode, xs[..i]);
    Associates(start, size + e, encode(xs[i]));
    Associates(size, e, encode(xs[i]));
  }

  /** `decode` is `DecodeSymbol`, applied element by element. */
  ghost predicate DecodesSymbols(decode: Decoder<Symbol>) {
    forall b {:trigger DecodeSymbol(b)} :: decode(b) == DecodeSymbol(b)
  }

  class DataStream {
    var data: bytes
    var ok: bool

    constructor (content: bytes)
      ensures data == content && ok
    {
      data, ok := content, true;
    }

    method Write(b: bytes)
      modifies this`data
      ensures data == old(data) + b
    {
      data := data + b;
    }

    method ReadNat(k: nat) returns (v: nat)
      modifies this
      ensures Took(DecodeNat(old(data), k), old(ok), v, data, ok)
    {
      if |data| < k {
        v, data, ok := 0, [], false;
      } else {
        v, data := BigEndianValue(data[..k]), data[k..];
      }
    }

    method ReadInt(k: nat) returns (v: int)
      modifies this
      ensures Took(DecodeInt(old(data), k), old(ok), v, data, ok)
    {
      if |data| < k {
        v, data, ok := 0, [], false;
      } else {
        v, data := SignedValue(data[..k]), data[k..];
      }
    }

    method ReadUnit() returns (c: CharCode)
      modifies this
      ensures Took(DecodeUnit(old(data)), old(ok), c, data, ok)
    {
      var r := DecodeUnit(data);
      if r.Some? {
        c, data := r.value.value, r.value.rest;
      } else {
        c, data, ok := 0, [], false;
      }
    }

    method ReadBool() returns (b: bool)
      modifies this
      ensures Took(DecodeBool(old(data)), old(ok), b, data, ok)
    {
      if data == [] {
        b, ok := false, false;
      } else {
        b, data := data[0] != 0, data[1..];
      }
    }

    method ReadString() returns (s: seq<CharCode>)
      modifies this
      ensures Took(DecodeString(old(data)), old(ok), s, data, ok)
    {
      var r := DecodeString(data);
      if r.Some? {
        s, data := r.value.value, r.value.rest;
      } else {
        s, data, ok := [], [], false;
      }
    }

    method WriteIdentifier(i: Identifier)
      modifies this`data
      ensures data == old(data) + EncodeIdentifier(i)
    {
      Write(Signed(i.digit, 4));
      Write(Signed(i.site, 4));
    }

    method ReadIdentifier() returns (i: Identifier)
      modifies this
      ensures Took(DecodeIdentifier(old(data)), old(ok), i, data, ok)
    {
      var digit := ReadInt(4);
      var site := ReadInt(4);
      i := Identifier(digit, site);
    }

    method WritePosition(p: Position)
      modifies this`data
      ensures data == old(data) + EncodePosition(p)
    {
      Write(BigEndian(|p|, 4));
      for i := 0 to |p|
        invariant data == old(data) + (BigEndian(|p|, 4) + EncodeMany(EncodeIdentifier, p[..i]))
      {
        ManyPieces(EncodeIdentifier, old(data), BigEndian(|p|, 4), p, i);
        WriteIdentifier(p[i]);
      }
      assert p[..|p|] == p;
    }

    method ReadPosition() returns (p: Position)
      modifies this
      ensures Took(DecodePosition(old(data)), old(ok), p, data, ok)
    {
      p := [];
      var n := ReadNat(4);
      ghost var start, was := data, ok;
      ReadingStarts(DecodeIdentifier, start, n);
      var i := 0;
      while i < n && ok
        invariant i <= n && (ok ==> was) && (!ok ==> p == [])
        invariant was ==> Ahead(DecodeIdentifier, p, data, n - i, ok) == DecodeMany(DecodeIdentifier, start, n)
        decreases n - i
      {
        ghost var before := data;
        var id := ReadIdentifier();
        ReadingStep(DecodeIdentifier, p, before, n - i, id, data, ok);
        p := if ok then p + [id] else [];
        i := i + 1;
      }
      ReadingEnds(DecodeIdentifier, p, data, n - i, ok);
    }

    /** `operator<<` of `SymbolFormat`. */
    method WriteFormat(f: Format)
      modifies this`data
      ensures data == old(data) + EncodeFormat(f)
    {
      FormatPieces(data, f);
      Write(EncodeAlignment(f.align));
      Write(EncodeBool(f.style.italic));
      Write(EncodeBool(f.style.bold));
      Write(EncodeBool(f.style.underline));
      Write(EncodeString(f.style.font));
      Write(Signed(f.style.size, 4));
      Write(EncodeString(f.style.color));
    }

    method ReadFormat() returns (f: Format)
      modifies this
      ensures Took(DecodeFormat(old(data)), old(ok), f, data, ok)
    {
      var align := ReadAlignment();
      var italic := ReadBool();
      var bold := ReadBool();
      var underline := ReadBool();
      var font := ReadString();
      var size := ReadInt(4);
      var color := ReadString();
      f := Format(align, Style(italic, bold, underline, font, size, color));
    }

    method ReadAlignment() returns (a: Alignment)
      modifies this
      ensures Took(DecodeAlignment(old(data)), old(ok), a, data, ok)
    {
      var v := ReadInt(8);
      ok := ok && 0 <= v <= 2;
      a := if v == 0 then AlignLeft else if v == 1 then AlignRight else AlignCenter;
    }

    /** `operator<<` of `Symbol`. */
    method WriteSymbol(s: Symbol)
      modifies this`data
      ensures data == old(data) + EncodeSymbol(s)
    {
      SymbolPieces(data, s);
      Write(EncodeUnit(s.value));
      WritePosition(s.position);
      Write(Signed(s.counter, 4));
      WriteFormat(s.format);
    }

    method ReadSymbol() returns (s: Symbol)
      modifies this
      ensures Took(DecodeSymbol(old(data)), old(ok), s, data, ok)
    {
      var value := ReadUnit();
      var position := ReadPosition();
      var counter := ReadInt(4);
      var format := ReadFormat();
      s := Symbol(value, position, counter, format);
    }

    method WriteSymbols(vs: seq<Symbol>)
      modifies this`data
      ensures data == old(data) + EncodeSymbols(vs)
    {
      Write(BigEndian(|vs|, 4));
      for i := 0 to |vs|
        invariant data == old(data) + (BigEndian(|vs|, 4) + EncodeMany(EncodeSymbol, vs[..i]))
      {
        ManyPieces(EncodeSymbol, old(data), BigEndian(|vs|, 4), vs, i);
        WriteSymbol(vs[i]);
      }
      assert vs[..|vs|] == vs;
    }

    /** Reads a vector of symbols, which is left empty when the bytes do not hold one. */
    method ReadSymbols() returns (vs: seq<Symbol>)
      modifies this
      ensures Took(DecodeSymbols(old(data)), old(ok), vs, data, ok)
      ensures !ok ==> vs == []
    {
      var n := ReadNat(4);
      vs := ReadElements(DecodeSymbol, n);
    }

    method ReadElements(ghost decode: Decoder<Symbol>, n: nat) returns (vs: seq<Symbol>)
      requires DecodesSymbols(decode)
      modifies this
      ensures Took(DecodeMany(decode, old(data), n), old(ok), vs, data, ok)
      ensures !ok ==> vs == []
    {
      vs := [];
      ghost var start, was := data, ok;
      ReadingStarts(decode, start, n);
      var i := 0;
      while i < n && ok
        invariant i <= n && (ok ==> was) && (!ok ==> vs == [])
        invariant was ==> Ahead(decode, vs, data, n - i, ok) == DecodeMany(decode, start, n)
        decreases n - i
      {
        ghost var before := data;
        var s := ReadElement(decode);
        ReadingStep(decode, vs, before, n - i, s, data, ok);
        vs := if ok then vs + [s] else [];
        i := i + 1;
      }
      ReadingEnds(decode, vs, data, n - i, ok);
    }

    method ReadElement(ghost decode: Decoder<Symbol>) returns (s: Symbol)
      requires DecodesSymbols(decode)
      modifies this
      ensures Took(decode(old(data)), old(ok), s, data, ok)
    {
      assert decode(data) == DecodeSymbol(data);
      s := ReadSymbol();
    }
  }
}

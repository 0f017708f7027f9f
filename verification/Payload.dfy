/** The multipart payloads of Server/server.cpp and Client/client.cpp: a JSON header, the symbols of a
file and profile images, each after its own 4-byte little-endian length.
*/
module Payload {
  import opened Wrappers
  import opened Bytes
  import opened Documents
  import opened SymbolCodec

  /** One part, as it is appended. */
  function Part(b: bytes): bytes {
    LittleEndian(|b|, 4) + b
  }

  /** The images of a payload; an empty part when there are none. */
  function ImageParts(v: seq<bytes>): bytes {
    if v == [] then Part([]) else EncodeMany(Part, v)
  }

  /** Every image has its own part, in order; where there are none, one empty part stands for them. */
  lemma {:induction false} ImagePartsMore(v: seq<bytes>, x: bytes)
    ensures ImageParts([]) == [0, 0, 0, 0]
    ensures ImageParts(v + [x]) == (if v == [] then [] else ImageParts(v)) + Part(x)
  {
    EncodeManySnoc(Part, v, x);
    assert LittleEndian(0, 4) == [0] + LittleEndian(0, 3) == [0, 0] + LittleEndian(0, 2) == [0, 0, 0] + LittleEndian(0, 1);
  }

  function FilePayload(header: bytes, content: bytes, v: seq<bytes>): bytes {
    Part(header) + (Part(content) + ImageParts(v))
  }

  // ----- Building -----

  method AppendPart(ba: bytes, b: bytes) returns (r: bytes)
    ensures r == ba + Part(b)
  {
    var part := LittleEndian(|b|, 4);
    if |b| != 0 {
      part := part + b;
    }
    assert part == Part(b);
    r := ba + part;
  }

  method AppendImages(ba: bytes, v: seq<bytes>) returns (r: bytes)
    ensures r == ba + ImageParts(v)
  {
    r := ba;
    if |v| == 0 {
      r := AppendPart(r, []);
      return;
    }
    assert ba + [] == ba;
    for i := 0 to |v|
      invariant r == ba + EncodeMany(Part, v[..i])
    {
      EncodeManySnoc(Part, v[..i], v[i]);
      assert v[..i] + [v[i]] == v[..i + 1];
      Associates(ba, EncodeMany(Part, v[..i]), Part(v[i]));
      r := AppendPart(r, v[i]);
    }
    assert v[..|v|] == v;
  }

  /** `createByteArrayFileContent`, given the JSON text of the message: a bulk edit of a client. */
  method CreateByteArrayFileContent(header: bytes, c: seq<Symbol>) returns (ba: bytes)
    ensures ba == Part(header) + Part(EncodeSymbols(c))
  {
    var stream := new DataStream([]);
    stream.WriteSymbols(c);
    assert stream.data == EncodeSymbols(c);
    ba := AppendPart([], header);
    ba := AppendPart(ba, stream.data);
  }

  /** `createByteArrayFileContentImage`: the server's answer to a user who opens a file. */
  method CreateByteArrayFileContentImage(header: bytes, c: seq<Symbol>, v: seq<bytes>) returns (ba: bytes)
    ensures ba == FilePayload(header, EncodeSymbols(c), v)
  {
    ba := CreateByteArrayFileContent(header, c);
    Associates(Part(header), Part(EncodeSymbols(c)), ImageParts(v));
    ba := AppendImages(ba, v);
  }

  // ----- Slicing -----

  const WRAP: nat := 0x1_0000_0000

  /** `QByteArray::mid` with its clamping; a negative length means all that follows. */
  function Mid(b: bytes, position: int, length: int): bytes {
    if position > |b| then []
    else if position < 0 then
      if length < 0 || length + position >= |b| then b
      else if length + position <= 0 then []
      else b[..length + position]
    else if length < 0 || length > |b| - position then b[position..]
    else b[position..position + length]
  }

  /** A `quint32` passed where an `int` is expected. */
  function ToInt(n: nat): int {
    if n % WRAP >= ARRAY_LIMIT then n % WRAP - WRAP else n % WRAP
  }

  /** One step of the slicing: the length, that many bytes, and the rest. */
  function TakePart(b: bytes): Option<Read<bytes>> {
    if |b| < 4 then None
    else
      var size := LittleEndianValue(b[..4]);
      Some(Read(Mid(b, 4, ToInt(size)), Mid(b, ToInt(size + 4), -1)))
  }

  lemma {:induction false} PartPieces(p: bytes, rest: bytes)
    requires |p| + 4 < ARRAY_LIMIT
    ensures var b := Part(p) + rest;
            && |b| >= 4 + |p| && LittleEndianValue(b[..4]) == |p|
            && b[4..4 + |p|] == p && b[4 + |p|..] == rest
  {
    PowerFour();
    LittleEndianRoundTrip(|p|, 4);
    assert (Part(p) + rest)[..4] == LittleEndian(|p|, 4);
  }

  /** Within its bounds, slicing is plain slicing. */
  lemma {:induction false} TakeWithin(b: bytes, size: nat)
    requires |b| >= 4 + size && size + 4 < ARRAY_LIMIT && LittleEndianValue(b[..4]) == size
    ensures TakePart(b) == Some(Read(b[4..4 + size], b[4 + size..]))
  {
    assert Mid(b, 4, ToInt(size)) == b[4..4 + size];
    assert Mid(b, ToInt(size + 4), -1) == b[4 + size..];
  }

  lemma {:induction false} TakeFirst(p: bytes, rest: bytes)
    requires |p| + 4 < ARRAY_LIMIT
    ensures TakePart(Part(p) + rest) == Some(Read(p, rest))
  {
    PartPieces(p, rest);
    TakeWithin(Part(p) + rest, |p|);
  }

  // ----- Bulk edits -----

  /** The parts of a bulk edit; `EmptyContent` is the exception thrown when the content's length is 0,
  `Truncated` stands for reading a length past the end of the array. */
  datatype Sliced =
    | Sliced(header: bytes, content: bytes, symbols: seq<Symbol>, rest: bytes)
    | EmptyContent
    | Truncated

  /** A vector that cannot be read is left empty. */
  function SymbolsOf(content: bytes): seq<Symbol> {
    var r := DecodeSymbols(content);
    if r.Some? then r.value.value else []
  }

  function Slices(doc: bytes): Sliced {
    match TakePart(doc)
    case None => Truncated
    case Some(header) =>
      match TakePart(header.rest)
      case None => Truncated
      case Some(content) =>
        if LittleEndianValue(header.rest[..4]) == 0 then EmptyContent
        else Sliced(header.value, content.value, SymbolsOf(content.value), content.rest)
  }

  method SlicePart(b: bytes) returns (part: bytes, rest: bytes)
    requires |b| >= 4
    ensures TakePart(b) == Some(Read(part, rest))
  {
    var size := LittleEndianValue(b[..4]);
    part := Mid(b, 4, ToInt(size));
    rest := Mid(b, ToInt(size + 4), -1);
  }

  /** How the server takes a client's bulk edit apart, and a client what the server sends. */
  method SliceContent(doc: bytes) returns (r: Sliced)
    ensures r == Slices(doc)
  {
    if |doc| < 4 {
      return Truncated;
    }
    var header, rest := SlicePart(doc);
    if |rest| < 4 {
      return Truncated;
    }
    if LittleEndianValue(rest[..4]) == 0 {
      return EmptyContent;
    }
    var content, left := SlicePart(rest);
    var symbols := ReadContent(content);
    r := Sliced(header, content, symbols, left);
  }

  method ReadContent(content: bytes) returns (symbols: seq<Symbol>)
    ensures symbols == SymbolsOf(content)
  {
    var stream := new DataStream(content);
    symbols := stream.ReadSymbols();
  }

  /** `broadcastByteArray`: what the server sends on, under its own JSON text. */
  method Relay(header: bytes, content: bytes) returns (ba: bytes)
    ensures ba == Part(header) + Part(content)
  {
    ba := AppendPart([], header);
    ba := AppendPart(ba, content);
  }

  predicate Sized(header: bytes, c: seq<Symbol>) {
    |header| + 4 < ARRAY_LIMIT && |EncodeSymbols(c)| + 4 < ARRAY_LIMIT && StorableSymbols(c)
  }

  /** Slicing recovers the header and every symbol, whatever follows; even no symbols are not empty content. */
  lemma {:induction false} ContentRoundTrip(header: bytes, c: seq<Symbol>, rest: bytes)
    requires Sized(header, c)
    ensures Slices(Part(header) + (Part(EncodeSymbols(c)) + rest)) == Sliced(header, EncodeSymbols(c), c, rest)
  {
    var content := EncodeSymbols(c);
    var tail := Part(content) + rest;
    TakeFirst(header, tail);
    TakeFirst(content, rest);
    PartPieces(content, rest);
    assert |content| >= 4;
    SymbolsRoundTrip(c, []);
    assert content + [] == content;
  }

  /** Slicing gives back any two parts, the second one decoded; an empty second part is an exception. */
  lemma {:induction false} SlicesParts(header: bytes, content: bytes, rest: bytes)
    requires |header| + 4 < ARRAY_LIMIT && |content| + 4 < ARRAY_LIMIT
    ensures Slices(Part(header) + (Part(content) + rest))
         == if content == [] then EmptyContent else Sliced(header, content, SymbolsOf(content), rest)
  {
    TakeFirst(header, Part(content) + rest);
    TakeFirst(content, rest);
    PartPieces(content, rest);
  }

  /** Where a length is cut short, so is the slicing. */
  lemma {:induction false} SlicesTruncated(header: bytes, left: bytes)
    requires |header| + 4 < ARRAY_LIMIT && |left| < 4
    ensures Slices(left) == Truncated && Slices(Part(header) + left) == Truncated
  {
    TakeFirst(header, left);
  }

  /** A bulk edit on its way from one client over the server to another: both read what was sent. */
  method BulkEdit(header: bytes, relayed: bytes, c: seq<Symbol>) returns (atServer: Sliced, atClient: Sliced)
    requires Sized(header, c) && Sized(relayed, c)
    ensures atServer == Sliced(header, EncodeSymbols(c), c, [])
    ensures atClient == Sliced(relayed, EncodeSymbols(c), c, [])
  {
    ContentRoundTrip(header, c, []);
    ContentRoundTrip(relayed, c, []);
    assert Part(EncodeSymbols(c)) + [] == Part(EncodeSymbols(c));
    var sent := CreateByteArrayFileContent(header, c);
    atServer := SliceContent(sent);
    var passed := Relay(relayed, atServer.content);
    atClient := SliceContent(passed);
  }

  // ----- Opening a file -----

  /** What the JSON header of a payload says, as far as opening a file goes: whether the file name, the
  link and the list of users are all there, and how many users are listed. */
  datatype Header =
    | NotJson
    | Unrelated
    | FileAnswer(success: Option<bool>, total: int, complete: bool, users: nat)

  /** The users who are shown with a file: their images (the default one for a user without an image),
  nobody because the header is not complete, or `CutShort` for reading past the end of the array. */
  datatype Users = Images(images: seq<Option<bytes>>) | NotListed | CutShort

  /** What the client makes of the payload. `Rejected` and `Broken(EmptyContent)` stand for exceptions. */
  datatype Opened =
    | Shown(symbols: seq<Symbol>, users: Users)
    | Failed
    | Ignored
    | Rejected
    | Broken(why: Sliced)

  function Picture(image: bytes): Option<bytes> {
    if image == [] then None else Some(image)
  }

  function Pictures(v: seq<bytes>): (r: seq<Option<bytes>>)
    ensures |r| == |v|
  {
    if v == [] then [] else [Picture(v[0])] + Pictures(v[1..])
  }

  /** Every image that is not empty is shown, and no other. */
  lemma {:induction false} PicturesAt(v: seq<bytes>, i: nat)
    requires i < |v|
    ensures Pictures(v)[i] == if v[i] == [] then None else Some(v[i])
  {
    if i > 0 {
      PicturesAt(v[1..], i - 1);
    }
  }

  /** The next image, none when its length is 0. */
  function TakePicture(b: bytes): Option<Read<Option<bytes>>> {
    var image :- TakePart(b);
    Some(Read(if LittleEndianValue(b[..4]) == 0 then None else Some(image.value), image.rest))
  }

  lemma {:induction false} TakeFirstPicture(p: bytes, rest: bytes)
    requires |p| + 4 < ARRAY_LIMIT
    ensures TakePicture(Part(p) + rest) == Some(Read(Picture(p), rest))
  {
    PartPieces(p, rest);
    TakeFirst(p, rest);
  }

  lemma {:induction false} ImagesRoundTrip(v: seq<bytes>, rest: bytes)
    requires forall i :: 0 <= i < |v| ==> |v[i]| + 4 < ARRAY_LIMIT
    ensures DecodeMany(TakePicture, EncodeMany(Part, v) + rest, |v|) == Some(Read(Pictures(v), rest))
  {
    if v == [] {
      assert [] + rest == rest;
    } else {
      var more := EncodeMany(Part, v[1..]) + rest;
      assert EncodeMany(Part, v) + rest == Part(v[0]) + more;
      TakeFirstPicture(v[0], more);
      ImagesRoundTrip(v[1..], rest);
    }
  }

  method SliceImage(b: bytes) returns (picture: Option<bytes>, left: bytes)
    requires |b| >= 4
    ensures TakePicture(b) == Some(Read(picture, left))
  {
    var image;
    image, left := SlicePart(b);
    picture := if LittleEndianValue(b[..4]) != 0 then Some(image) else None;
  }

  /** Takes one image per listed user off what is left of the answer; `None` past its end. */
  method SliceImages(rest: bytes, users: nat) returns (images: Option<seq<Option<bytes>>>)
    ensures images == match DecodeMany(TakePicture, rest, users) case None => None case Some(v) => Some(v.value)
  {
    var left, taken := rest, [];
    ReadingStarts(TakePicture, rest, users);
    for i := 0 to users
      invariant Ahead(TakePicture, taken, left, users - i, true) == DecodeMany(TakePicture, rest, users)
    {
      if |left| < 4 {
        ReadingStep(TakePicture, taken, left, users - i, None, [], false);
        return None;
      }
      var picture, more := SliceImage(left);
      ReadingStep(TakePicture, taken, left, users - i, picture, more, true);
      taken, left := taken + [picture], more;
    }
    ReadingEnds(TakePicture, taken, left, 0, true);
    images := Some(taken);
  }

  /** The client's slicing of an answer that opens a file. */
  method OpenFile(doc: bytes, describe: bytes -> Header) returns (r: Opened)
    ensures r == OpenedFrom(doc, describe)
  {
    if |doc| < 4 {
      return Broken(Truncated);
    }
    var header := describe(Mid(doc, 4, ToInt(LittleEndianValue(doc[..4]))));
    match header {
      case NotJson => return Rejected;
      case Unrelated => return Ignored;
      case FileAnswer(success, total, complete, users) =>
        if success.None? {
          return Ignored;
        }
        if !success.value {
          return Failed;
        }
        if total == 0 {
          return Ignored;
        }
        r := ShowFile(doc, complete, users);
    }
  }

  /** A file that can be shown: its symbols first, then the images of its users. */
  method ShowFile(doc: bytes, complete: bool, users: nat) returns (r: Opened)
    ensures r == ShownFrom(doc, complete, users)
  {
    var sliced := SliceContent(doc);
    if !sliced.Sliced? {
      return Broken(sliced);
    }
    if !complete {
      return Shown(sliced.symbols, NotListed);
    }
    var images := SliceImages(sliced.rest, users);
    r := Shown(sliced.symbols, if images.None? then CutShort else Images(images.value));
  }

  function ShownFrom(doc: bytes, complete: bool, users: nat): Opened {
    match Slices(doc)
    case Sliced(_, _, symbols, rest) =>
      if !complete then Shown(symbols, NotListed)
      else
        (match DecodeMany(TakePicture, rest, users)
         case None => Shown(symbols, CutShort)
         case Some(v) => Shown(symbols, Images(v.value)))
    case broken => Broken(broken)
  }

  function OpenedFrom(doc: bytes, describe: bytes -> Header): Opened {
    match TakePart(doc)
    case None => Broken(Truncated)
    case Some(part) =>
      match describe(part.value)
      case NotJson => Rejected
      case Unrelated => Ignored
      case FileAnswer(success, total, complete, users) =>
        if success.None? then Ignored
        else if !success.value then Failed
        else if total == 0 then Ignored
        else ShownFrom(doc, complete, users)
  }

  /** What the client makes of an answer is decided by its header first. */
  lemma {:induction false} OpenedByHeader(header: bytes, rest: bytes, describe: bytes -> Header)
    requires |header| + 4 < ARRAY_LIMIT
    ensures var r, h := OpenedFrom(Part(header) + rest, describe), describe(header);
            && (r == Rejected <==> h == NotJson)
            && (r == Failed <==> h.FileAnswer? && h.success == Some(false))
            && (r == Ignored <==> h == Unrelated || (h.FileAnswer? && (h.success == None || (h.success.value && h.total == 0))))
            && (r.Shown? || r.Broken? <==> h.FileAnswer? && h.success == Some(true) && h.total != 0)
            && (r.Shown? && !h.complete ==> r.users == NotListed)
  {
    TakeFirst(header, rest);
  }

  /** The multipart round trip: with one image per listed user, the client recovers the symbols and
  every image, whatever the header. */
  lemma {:induction false} FileRoundTrip(header: bytes, c: seq<Symbol>, v: seq<bytes>, describe: bytes -> Header, total: int)
    requires Sized(header, c) && forall i :: 0 <= i < |v| ==> |v[i]| + 4 < ARRAY_LIMIT
    requires describe(header) == FileAnswer(Some(true), total, true, |v|) && total != 0
    ensures OpenedFrom(FilePayload(header, EncodeSymbols(c), v), describe) == Shown(c, Images(Pictures(v)))
  {
    var rest := ImageParts(v);
    TakeFirst(header, Part(EncodeSymbols(c)) + rest);
    ContentRoundTrip(header, c, rest);
    if v == [] {
      assert DecodeMany(TakePicture, rest, 0) == Some(Read([], rest));
    } else {
      ImagesRoundTrip(v, []);
      assert rest + [] == rest;
    }
  }
}

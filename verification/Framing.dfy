/** The stream framing (Utility/byte_reader.h, with `sendByteArray` of Client/client.cpp:53-60).

A message is sent as an 8-byte length followed by the byte array, which carries its own 4-byte
length. The receiver appends whatever arrives to a buffer, caches the length it waits for, and
takes complete frames off the front.
*/
module Framing {
  import opened Bytes

  /** How `QJsonDocument::fromJson` classifies a payload. */
  datatype JsonKind = JsonObject | OtherJson | NotJson

  datatype Event = Json(payload: bytes) | Binary(payload: bytes)

  /** What is written to the socket for one message. */
  function Frame(p: bytes): bytes {
    BigEndian(4 + |p|, 8) + BigEndian(|p|, 4) + p
  }

  function Stream(messages: seq<bytes>): bytes {
    if messages == [] then [] else Frame(messages[0]) + Stream(messages[1..])
  }

  const NULL_ARRAY: nat := 0xFFFF_FFFF

  datatype Parse = NeedMore | Parsed(payload: bytes, rest: bytes)

  /** The first frame of a buffer, if it is complete. */
  function ParseFrame(b: bytes): (r: Parse)
    ensures r.Parsed? ==> |r.rest| + 8 < |b|
  {
    if |b| < 8 then NeedMore
    else
      var size := BigEndianValue(b[..8]);
      if size == 0 || |b| < size + 8 || |b| < 12 then NeedMore
      else
        var n := BigEndianValue(b[8..12]);
        if n == NULL_ARRAY then Parsed([], b[8 + size..])
        else if |b| < 12 + n then NeedMore
        else Parsed(if n <= size then b[12..12 + n] else b[12..12 + size], b[8 + size..])
  }

  /** What is left to do with a buffer: the messages it holds, what stays behind, and whether the
  reader throws on a payload that is JSON but no object. */
  datatype Outcome = Outcome(events: seq<Event>, rest: bytes, thrown: bool)

  function Drain(classify: bytes -> JsonKind, b: bytes): Outcome
    decreases |b|
  {
    match ParseFrame(b)
    case NeedMore => Outcome([], b, false)
    case Parsed(p, rest) =>
      match classify(p)
      case OtherJson => Outcome([], b, true)
      case _ =>
        var o := Drain(classify, rest);
        o.(events := [EventOf(classify, p)] + o.events)
  }

  /** `Drain` by one frame. */
  lemma {:induction false} DrainByParse(classify: bytes -> JsonKind, b: bytes)
    ensures var r := ParseFrame(b);
            Drain(classify, b)
            == if r.NeedMore? then Outcome([], b, false)
               else if classify(r.payload) == OtherJson then Outcome([], b, true)
               else Continue(Outcome([EventOf(classify, r.payload)], r.rest, false), Drain(classify, r.rest))
  {
  }

  /** What happened, followed by what happens after it. */
  function Continue(o1: Outcome, o2: Outcome): Outcome {
    Outcome(o1.events + o2.events, o2.rest, o2.thrown)
  }

  lemma {:induction false} Associates(a: seq<Event>, b: seq<Event>, c: seq<Event>)
    ensures a + b + c == a + (b + c)
  {
  }

  function EventOf(classify: bytes -> JsonKind, p: bytes): Event {
    if classify(p) == JsonObject then Json(p) else Binary(p)
  }

  /** JSON objects, and nothing else, are emitted as JSON; other JSON is not emitted at all. */
  predicate Classified(classify: bytes -> JsonKind, e: Event) {
    && (e.Json? <==> classify(e.payload) == JsonObject)
    && (e.Binary? <==> classify(e.payload) == NotJson)
  }

  lemma {:induction false} DrainSorts(classify: bytes -> JsonKind, b: bytes)
    ensures forall i :: 0 <= i < |Drain(classify, b).events| ==> Classified(classify, Drain(classify, b).events[i])
    decreases |b|
  {
    var r := ParseFrame(b);
    DrainByParse(classify, b);
    if r.Parsed? && classify(r.payload) != OtherJson {
      DrainSorts(classify, r.rest);
    }
  }

  /** A buffer behind whose first length the byte array is complete. */
  predicate HasArray(b: bytes) {
    && |b| >= 12
    && (BigEndianValue(b[8..12]) == NULL_ARRAY || |b| >= 12 + BigEndianValue(b[8..12]))
  }

  /** That byte array, cut to the first length; a null array reads as an empty one. */
  function ArrayOf(b: bytes): bytes
    requires HasArray(b)
  {
    var size, n := BigEndianValue(b[..8]), BigEndianValue(b[8..12]);
    if n == NULL_ARRAY then [] else if size < n then b[12..][..size] else b[12..][..n]
  }

  /** Once its first length has arrived, what a frame is parsed to. */
  lemma {:induction false} ParsedArray(b: bytes)
    requires |b| >= 8 && BigEndianValue(b[..8]) > 0 && |b| >= 8 + BigEndianValue(b[..8])
    ensures ParseFrame(b) == if HasArray(b) then Parsed(ArrayOf(b), b[8 + BigEndianValue(b[..8])..]) else NeedMore
  {
    if HasArray(b) {
      var size, n := BigEndianValue(b[..8]), BigEndianValue(b[8..12]);
      if n != NULL_ARRAY {
        assert if size < n then b[12..][..size] == b[12..12 + size] else b[12..][..n] == b[12..12 + n];
      }
    }
  }

  class ByteReader {
    const classify: bytes -> JsonKind
    var receivedData: bytes
    var expectedSize: nat
    var emitted: seq<Event>

    /** The cached length is 0 or the value of the buffer's first 8 bytes. */
    ghost predicate Valid()
      reads this
    {
      expectedSize == 0 || (|receivedData| >= 8 && expectedSize == BigEndianValue(receivedData[..8]))
    }

    constructor (classifier: bytes -> JsonKind)
      ensures Valid() && classify == classifier && receivedData == [] && emitted == []
    {
      classify, receivedData, expectedSize, emitted := classifier, [], 0, [];
    }

    /** Takes one frame off the buffer; not `ok` when its byte array is not complete yet. */
    method ParseJson() returns (ok: bool, thrown: bool)
      requires Valid() && expectedSize > 0 && |receivedData| >= expectedSize + 8
      modifies this`receivedData, this`emitted
      ensures ok || thrown <==> ParseFrame(old(receivedData)).Parsed?
      ensures ok || thrown <==> HasArray(old(receivedData))
      ensures thrown <==> HasArray(old(receivedData)) && classify(ArrayOf(old(receivedData))) == OtherJson
      ensures ok ==>
                && receivedData == old(receivedData)[8 + BigEndianValue(old(receivedData)[..8])..]
                && |emitted| == |old(emitted)| + 1 && emitted[..|old(emitted)|] == old(emitted)
                && emitted[|old(emitted)|].payload == ArrayOf(old(receivedData))
                && Classified(classify, emitted[|old(emitted)|])
      ensures !ok ==> receivedData == old(receivedData) && emitted == old(emitted)
      ensures thrown <==> ParseFrame(old(receivedData)).Parsed?
                          && classify(ParseFrame(old(receivedData)).payload) == OtherJson
      ensures thrown ==> !ok
      ensures ok ==>
                var r := ParseFrame(old(receivedData));
                receivedData == r.rest && emitted == old(emitted) + [EventOf(classify, r.payload)]
    {
      if |receivedData| < 12 {
        return false, false;
      }
      var jsonSize := BigEndianValue(receivedData[..8]);
      var n := BigEndianValue(receivedData[8..12]);
      var jsonData: bytes := [];
      if n != NULL_ARRAY {
        if |receivedData| < 12 + n {
          return false, false;
        }
        jsonData := receivedData[12..12 + n];
      }
      if |jsonData| > jsonSize {
        jsonData := jsonData[..jsonSize];
      }
      ParsedArray(receivedData);
      assert jsonData == ParseFrame(receivedData).payload;
      match classify(jsonData) {
        case JsonObject => emitted := emitted + [Json(jsonData)];
        case OtherJson => return false, true;
        case NotJson => emitted := emitted + [Binary(jsonData)];
      }
      receivedData := receivedData[8 + jsonSize..];
      return true, false;
    }

    /** Handles what has arrived: exactly the complete messages of the buffer are emitted, in order. */
    method OnReadyRead(available: bytes) returns (thrown: bool)
      requires Valid()
      modifies this`receivedData, this`emitted, this`expectedSize
      ensures Valid()
      ensures var o := Drain(classify, old(receivedData) + available);
              emitted == old(emitted) + o.events && receivedData == o.rest && thrown == o.thrown
      ensures forall i :: |old(emitted)| <= i < |emitted| ==> Classified(classify, emitted[i])
      decreases |receivedData| + |available|
    {
      thrown := false;
      assert receivedData + [] == receivedData;
      if |available| > 0 {
        receivedData := receivedData + available;
      }
      ghost var all := old(receivedData) + available;
      assert receivedData == all;
      assert expectedSize != 0 ==> all[..8] == old(receivedData)[..8];
      DrainByParse(classify, all);
      DrainSorts(classify, all);
      if |receivedData| < 8 {
        return;
      }
      if expectedSize == 0 {
        expectedSize := BigEndianValue(receivedData[..8]);
      }
      if expectedSize > 0 && |receivedData| >= expectedSize + 8 {
        var ok;
        ok, thrown := ParseJson();
        if ok {
          expectedSize := 0;
          ghost var left, first := receivedData, emitted[|old(emitted)|..];
          assert left + [] == left;
          thrown := OnReadyRead([]);
          Associates(old(emitted), first, Drain(classify, left).events);
        }
      }
    }
  }

  // ----- Chunks do not matter -----

  /** A complete frame stays complete when more bytes follow. */
  lemma {:induction false} ParseMonotone(a: bytes, b: bytes)
    requires ParseFrame(a).Parsed?
    ensures ParseFrame(a + b) == Parsed(ParseFrame(a).payload, ParseFrame(a).rest + b)
  {
    var size, n := BigEndianValue(a[..8]), BigEndianValue(a[8..12]);
    assert (a + b)[..8] == a[..8] && (a + b)[8..12] == a[8..12];
    assert (a + b)[8 + size..] == a[8 + size..] + b;
    if n != NULL_ARRAY {
      assert (a + b)[12..12 + n] == a[12..12 + n];
      assert n > size ==> (a + b)[12..12 + size] == a[12..12 + size];
    }
  }

  lemma {:induction false} ContinueAssociates(a: Outcome, b: Outcome, c: Outcome)
    ensures Continue(Continue(a, b), c) == Continue(a, Continue(b, c))
  {
  }

  lemma {:induction false} NothingFirst(o: Outcome, rest: bytes)
    ensures Continue(Outcome([], rest, false), o) == o
  {
    assert [] + o.events == o.events;
  }

  /** What handling `b` adds to what handling the bytes before it has done: nothing after an exception. */
  function Resume(classify: bytes -> JsonKind, o: Outcome, b: bytes): Outcome {
    if o.thrown then Outcome(o.events, o.rest + b, true) else Continue(o, Drain(classify, o.rest + b))
  }

  /** Handling bytes in two chunks is handling them in one: for any bytes whatever. */
  lemma {:induction false} DrainInTwo(classify: bytes -> JsonKind, a: bytes, b: bytes)
    ensures Drain(classify, a + b) == Resume(classify, Drain(classify, a), b)
    decreases |a|
  {
    var r := ParseFrame(a);
    DrainByParse(classify, a);
    DrainByParse(classify, a + b);
    if r.NeedMore? {
      NothingFirst(Drain(classify, a + b), a);
    } else {
      ParseMonotone(a, b);
      if classify(r.payload) != OtherJson {
        DrainInTwo(classify, r.rest, b);
        var first, o := Outcome([EventOf(classify, r.payload)], r.rest, false), Drain(classify, r.rest);
        ContinueAssociates(first, o, Drain(classify, o.rest + b));
      }
    }
  }

  function Concatenated(chunks: seq<bytes>): bytes {
    if chunks == [] then [] else Concatenated(chunks[..|chunks| - 1]) + chunks[|chunks| - 1]
  }

  /** However a stream is cut into chunks, the reader does what it would do had all arrived at once; it stops
  at an exception. */
  method FeedChunks(reader: ByteReader, chunks: seq<bytes>) returns (thrown: bool)
    requires reader.Valid() && reader.receivedData == [] && reader.emitted == []
    modifies reader`receivedData, reader`emitted, reader`expectedSize
    ensures reader.Valid()
    ensures var o := Drain(reader.classify, Concatenated(chunks));
            && thrown == o.thrown && reader.emitted == o.events
            && (!thrown ==> reader.receivedData == o.rest)
  {
    thrown := false;
    var i := 0;
    while i < |chunks| && !thrown
      invariant i <= |chunks| && reader.Valid()
      invariant Drain(reader.classify, Concatenated(chunks[..i])) == Outcome(reader.emitted, reader.receivedData, thrown)
    {
      assert chunks[..i + 1][..i] == chunks[..i];
      DrainInTwo(reader.classify, Concatenated(chunks[..i]), chunks[i]);
      thrown := reader.OnReadyRead(chunks[i]);
      i := i + 1;
    }
    ThrownForGood(reader.classify, chunks, i);
    assert chunks[..|chunks|] == chunks;
  }

  /** After an exception nothing more is emitted. */
  lemma {:induction false} ThrownForGood(classify: bytes -> JsonKind, chunks: seq<bytes>, n: nat)
    requires n <= |chunks|
    ensures var o := Drain(classify, Concatenated(chunks[..n]));
            o.thrown ==>
              && Drain(classify, Concatenated(chunks)).thrown
              && Drain(classify, Concatenated(chunks)).events == o.events
    decreases |chunks| - n
  {
    if n == |chunks| {
      assert chunks[..n] == chunks;
    } else {
      assert chunks[..n + 1][..n] == chunks[..n];
      DrainInTwo(classify, Concatenated(chunks[..n]), chunks[n]);
      ThrownForGood(classify, chunks, n + 1);
    }
  }

  // ----- Frames that were sent -----

  /** What is sent: payloads that fit a byte array, each a JSON object or no JSON at all. */
  predicate Sendable(classify: bytes -> JsonKind, p: bytes) {
    |p| + 4 < ARRAY_LIMIT && classify(p) != OtherJson
  }

  function Events(classify: bytes -> JsonKind, messages: seq<bytes>): seq<Event> {
    if messages == [] then [] else [EventOf(classify, messages[0])] + Events(classify, messages[1..])
  }

  /** One event per message, with its bytes. */
  lemma {:induction false} EventsAt(classify: bytes -> JsonKind, messages: seq<bytes>)
    ensures |Events(classify, messages)| == |messages|
    ensures forall i :: 0 <= i < |messages| ==>
              && Events(classify, messages)[i].payload == messages[i]
              && (Events(classify, messages)[i].Json? <==> classify(messages[i]) == JsonObject)
  {
    if messages != [] {
      EventsAt(classify, messages[1..]);
      forall i | 0 < i < |messages|
        ensures Events(classify, messages)[i] == Events(classify, messages[1..])[i - 1] && messages[i] == messages[1..][i - 1]
      {
      }
    }
  }

  lemma {:induction false} FrameHeaders(p: bytes, rest: bytes)
    requires |p| + 4 < ARRAY_LIMIT
    ensures var b := Frame(p) + rest;
            && |Frame(p)| == 12 + |p|
            && b[..8] == BigEndian(4 + |p|, 8) && b[8..12] == BigEndian(|p|, 4)
            && BigEndianValue(b[..8]) == 4 + |p| && BigEndianValue(b[8..12]) == |p|
            && b[12..12 + |p|] == p && b[12 + |p|..] == rest
  {
    PowerFour();
    BigEndianRoundTrip(4 + |p|, 8);
    BigEndianRoundTrip(|p|, 4);
  }

  lemma {:induction false} ParseSent(p: bytes, rest: bytes)
    requires |p| + 4 < ARRAY_LIMIT
    ensures ParseFrame(Frame(p) + rest) == Parsed(p, rest)
  {
    FrameHeaders(p, rest);
  }

  /** An incomplete frame stays in the buffer. */
  lemma {:induction false} IncompleteWaits(p: bytes, q: bytes)
    requires |p| + 4 < ARRAY_LIMIT && q <= Frame(p) && |q| < |Frame(p)|
    ensures ParseFrame(q) == NeedMore
  {
    FrameHeaders(p, []);
    var b := Frame(p) + [];
    assert q == b[..|q|];
    if |q| >= 8 {
      assert q[..8] == b[..8];
    }
  }

  /** The reader has emitted the first `i` messages and holds a proper prefix of the next frame. */
  ghost predicate Progress(classify: bytes -> JsonKind, messages: seq<bytes>, s: bytes, o: Outcome, i: nat) {
    && i <= |messages|
    && !o.thrown
    && o.events == Events(classify, messages[..i])
    && s == Stream(messages[..i]) + o.rest
    && if i == |messages| then o.rest == [] else o.rest <= Frame(messages[i]) && |o.rest| < |Frame(messages[i])|
  }

  lemma {:induction false} ProgressStep(classify: bytes -> JsonKind, messages: seq<bytes>, s: bytes, o: Outcome, i: nat)
    requires messages != [] && Progress(classify, messages[1..], s, o, i)
    ensures Progress(classify, messages, Frame(messages[0]) + s,
                     Continue(Outcome([EventOf(classify, messages[0])], s, false), o), i + 1)
  {
    assert messages[..i + 1][1..] == messages[1..][..i];
    assert Frame(messages[0]) + s == Frame(messages[0]) + Stream(messages[1..][..i]) + o.rest;
  }

  /** Any part of a sent stream from its start emits exactly the messages that are complete in it,
  in order, and keeps a proper prefix of the next frame. */
  lemma {:induction false} StreamPrefix(classify: bytes -> JsonKind, messages: seq<bytes>, s: bytes)
    returns (i: nat)
    requires s <= Stream(messages)
    requires forall j :: 0 <= j < |messages| ==> Sendable(classify, messages[j])
    ensures Progress(classify, messages, s, Drain(classify, s), i)
    decreases |messages|
  {
    if messages == [] {
      i := 0;
    } else {
      var p, more := messages[0], messages[1..];
      var f := Frame(p);
      assert Stream(messages) == f + Stream(more);
      if |s| < |f| {
        i := 0;
        assert s <= f;
        IncompleteWaits(p, s);
        DrainByParse(classify, s);
      } else {
        var rest := s[|f|..];
        assert s == f + rest && rest <= Stream(more);
        ParseSent(p, rest);
        DrainByParse(classify, s);
        i := StreamPrefix(classify, more, rest);
        ProgressStep(classify, messages, rest, Drain(classify, rest), i);
        i := i + 1;
      }
    }
  }

  /** Chunk-invariant framing: whatever the messages and however the sent bytes are cut, the reader
  emits exactly the complete messages in order, and holds a proper prefix of the next frame. */
  method ReceiveSent(reader: ByteReader, messages: seq<bytes>, chunks: seq<bytes>) returns (ghost i: nat)
    requires reader.Valid() && reader.receivedData == [] && reader.emitted == []
    requires Concatenated(chunks) <= Stream(messages)
    requires forall j :: 0 <= j < |messages| ==> Sendable(reader.classify, messages[j])
    modifies reader`receivedData, reader`emitted, reader`expectedSize
    ensures reader.Valid() && i <= |messages|
    ensures |reader.emitted| == i
    ensures forall j :: 0 <= j < i ==>
              && reader.emitted[j].payload == messages[j]
              && (reader.emitted[j].Json? <==> reader.classify(messages[j]) == JsonObject)
    ensures Concatenated(chunks) == Stream(messages[..i]) + reader.receivedData
    ensures i == |messages| ==> reader.receivedData == []
    ensures i < |messages| ==>
              reader.receivedData <= Frame(messages[i]) && |reader.receivedData| < |Frame(messages[i])|
  {
    i := StreamPrefix(reader.classify, messages, Concatenated(chunks));
    var thrown := FeedChunks(reader, chunks);
    EventsAt(reader.classify, messages[..i]);
  }
}

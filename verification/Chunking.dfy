// The numeric limits of the wire contract fit together: what EncodeMessage may return can
// always be sent as chunk frames (protocol/remotecontrol/protocol.go).
module Chunking {
  import opened Options
  import Utf8
  import opened JsonString
  import opened Json
  import opened Wire
  import opened WireBytes
  import opened WireSize
  import opened WireRoundTrip
  import Base64

  // An equal share of the largest message for each of the chunks.
  const SEGMENT := MAX_MESSAGE / MAX_CHUNKS

  function Segments(m: string): (segments: seq<string>)
    ensures |m| <= |segments| * SEGMENT < |m| + SEGMENT
    decreases |m|
  {
    if m == "" then []
    else if |m| <= SEGMENT then [m]
    else [m[..SEGMENT]] + Segments(m[SEGMENT..])
  }

  function Concat(pieces: seq<string>): string {
    if pieces == [] then "" else pieces[0] + Concat(pieces[1..])
  }

  lemma {:induction false} SegmentsDivide(m: string)
    ensures Concat(Segments(m)) == m
    ensures forall s :: s in Segments(m) ==> 1 <= |s| <= SEGMENT
    ensures Base64.IsBytes(m) ==> forall s :: s in Segments(m) ==> Base64.IsBytes(s)
    decreases |m|
  {
    if |m| > SEGMENT {
      SegmentsDivide(m[SEGMENT..]);
      assert m == m[..SEGMENT] + m[SEGMENT..];
      assert Segments(m)[1..] == Segments(m[SEGMENT..]);
      assert Base64.IsBytes(m) ==> Base64.IsBytes(m[..SEGMENT]) && Base64.IsBytes(m[SEGMENT..]);
    }
  }

  lemma SegmentsFew(m: string)
    requires 1 <= |m| <= MAX_MESSAGE
    ensures 1 <= |Segments(m)| <= MAX_CHUNKS
  {
    hide Segments;
  }

  // What a sender may choose freely for a frame.
  datatype Header = Header(clientID: string, streamID: string, seqID: u64, requestID: string, cursor: string)

  predicate Legal(h: Header) {
    && 1 <= |h.clientID| <= MAX_IDENTIFIER && 1 <= |h.streamID| <= MAX_IDENTIFIER
    && |h.requestID| <= MAX_IDENTIFIER && |h.cursor| <= MAX_CURSOR && h.seqID != 0
  }

  function Frame(h: Header, c: Chunk): Envelope {
    Envelope(PROTOCOL_VERSION, "chunk", h.clientID, h.streamID, h.seqID, h.requestID, h.cursor,
             "", "", Absent, Present(c))
  }

  // The envelope that carries segment i of a message.
  function Carrier(h: Header, m: string, i: nat): Envelope
    requires 1 <= |m| <= MAX_MESSAGE && Base64.IsBytes(m) && i < |Segments(m)|
  {
    SegmentsDivide(m);
    SegmentsFew(m);
    Frame(h, Chunk(i, |Segments(m)|, |m|, Base64.Encode(Segments(m)[i])))
  }

  lemma SymbolPlain(n: nat)
    requires n < 64
    ensures IsSafeAscii(Base64.Symbol(n))
  {
  }

  lemma GroupPlain(a: char, b: char, c: char)
    requires a <= '\U{FF}' && b <= '\U{FF}' && c <= '\U{FF}'
    ensures IsPlainName(Base64.EncodeGroup(a, b, c)) && |Base64.EncodeGroup(a, b, c)| == 4
  {
    hide Base64.Symbol, IsSafeAscii;
    forall n: nat | n < 64 ensures IsSafeAscii(Base64.Symbol(n)) { SymbolPlain(n); }
  }

  lemma {:induction false} EncodePlain(s: string)
    requires Base64.IsBytes(s)
    ensures IsPlainName(Base64.Encode(s))
    decreases |s|
  {
    hide Base64.EncodeGroup;
    if |s| >= 1 { GroupPlain(s[0], '\U{00}', '\U{00}'); }
    if |s| >= 2 { GroupPlain(s[0], s[1], '\U{00}'); }
    if |s| >= 3 {
      GroupPlain(s[0], s[1], s[2]);
      EncodePlain(s[3..]);
    }
  }

  lemma FrameAccepted(h: Header, c: Chunk, segment: string)
    requires Legal(h) && Base64.Decode(c.messageChunkBase64) == Base64.Bytes(segment) && segment != ""
    requires 1 <= |c.messageChunkBase64| <= MAX_FRAME
    requires c.segmentID < c.segmentCount <= MAX_CHUNKS && 1 <= c.messageSizeBytes <= MAX_MESSAGE
    ensures Validate(Frame(h, c)) == Wire.Valid && Encodable(Frame(h, c))
  {
    hide Base64.Decode, ParseText;
  }

  lemma LegalSize(h: Header)
    requires Legal(h)
    ensures |h.clientID| + |h.streamID| + |h.requestID| + |h.cursor| <= 3 * MAX_IDENTIFIER + MAX_CURSOR
  {
  }

  // A legal header, a fair segment and any legal numbering make a frame that encodes.
  lemma FrameEncodes(h: Header, segment: string, id: u32, count: u32, size: u64)
    requires Legal(h) && Base64.IsBytes(segment) && 1 <= |segment| <= SEGMENT
    requires id < count <= MAX_CHUNKS && 1 <= size <= MAX_MESSAGE
    ensures var e := Frame(h, Chunk(id, count, size, Base64.Encode(segment)));
            && Validate(e) == Wire.Valid
            && EncodeEnvelope(e) == Encoded(Marshal(e))
            && Base64.Decode(e.chunk.value.messageChunkBase64) == Base64.Bytes(segment)
  {
    hide Base64.Decode, Base64.Encode, Marshal, Size, OptChunk, EncodeEnvelope, Quote, Validate, Legal, IsPlainName;
    var c := Chunk(id, count, size, Base64.Encode(segment));
    var e := Frame(h, c);
    Base64.EncodeDecodes(segment);
    FrameAccepted(h, c, segment);
    LegalSize(h);
    EncodePlain(segment);
    PlainNameReads(c.messageChunkBase64);
    ChunkSize(c);
    EnvelopeSize(e);
    assert OptRaw("payload", "", OptError(Absent, OptChunk(Present(c), NoMembers))) == OptChunk(Present(c), NoMembers);
    SmallEncodes(e);
  }

  predicate HeaderValid(h: Header) {
    Utf8.Valid(h.clientID) && Utf8.Valid(h.streamID) && Utf8.Valid(h.requestID) && Utf8.Valid(h.cursor)
  }

  lemma FrameValid(h: Header, segment: string, id: u32, count: u32, size: u64)
    requires HeaderValid(h) && Base64.IsBytes(segment)
    ensures StringsValid(Frame(h, Chunk(id, count, size, Base64.Encode(segment))))
    ensures NestingFits(Frame(h, Chunk(id, count, size, Base64.Encode(segment))))
  {
    hide Base64.Encode, Utf8.Valid;
    EncodePlain(segment);
    AsciiValid(Base64.Encode(segment));
    AsciiValid("");
  }

  // Any message of a legal size goes out as at most 64 frames, whatever legal headers they
  // are given, and the frames' segments in order make up the message.
  lemma MessageSplits(m: string, headers: seq<Header>)
    requires 1 <= |m| <= MAX_MESSAGE && Base64.IsBytes(m)
    requires |headers| == |Segments(m)| && forall h :: h in headers ==> Legal(h)
    ensures |headers| <= MAX_CHUNKS
    ensures Concat(Segments(m)) == m
    ensures forall i :: 0 <= i < |headers| ==>
              var e := Carrier(headers[i], m, i);
              && Validate(e) == Wire.Valid
              && EncodeEnvelope(e).Encoded?
              && Base64.Decode(e.chunk.value.messageChunkBase64) == Base64.Bytes(Segments(m)[i])
  {
    hide Base64.Decode, Base64.Encode, EncodeEnvelope, Validate, Segments, Concat, Legal;
    SegmentsDivide(m);
    SegmentsFew(m);
    forall i | 0 <= i < |headers|
      ensures var e := Carrier(headers[i], m, i);
              && Validate(e) == Wire.Valid
              && EncodeEnvelope(e).Encoded?
              && Base64.Decode(e.chunk.value.messageChunkBase64) == Base64.Bytes(Segments(m)[i])
    {
      assert Segments(m)[i] in Segments(m) && headers[i] in headers;
      FrameEncodes(headers[i], Segments(m)[i], i, |Segments(m)|, |m|);
    }
  }

  // Every encoded message is of a legal size.
  lemma MessageSize(e: Envelope)
    requires EncodeMessage(e).Encoded?
    ensures 1 <= |EncodeMessage(e).data| <= MAX_MESSAGE
  {
    hide PrintMembers, Validate, EnvelopeMembers;
  }

  // With identifiers of valid UTF-8, decoding the frames gives the message back.
  lemma FramesReassemble(m: string, headers: seq<Header>)
    requires 1 <= |m| <= MAX_MESSAGE && Base64.IsBytes(m)
    requires |headers| == |Segments(m)| && forall h :: h in headers ==> Legal(h) && HeaderValid(h)
    ensures Concat(Segments(m)) == m
    ensures forall i :: 0 <= i < |headers| ==>
              var e := Carrier(headers[i], m, i);
              EncodeEnvelope(e).Encoded? && DecodeEnvelope(EncodeEnvelope(e).data) == Decoded(e)
  {
    hide Base64.Decode, Base64.Encode, EncodeEnvelope, DecodeEnvelope, Validate, Segments, Concat, Legal,
      HeaderValid, StringsValid, NestingFits, Encodable;
    SegmentsDivide(m);
    SegmentsFew(m);
    MessageSplits(m, headers);
    forall i | 0 <= i < |headers|
      ensures DecodeEnvelope(EncodeEnvelope(Carrier(headers[i], m, i)).data) == Decoded(Carrier(headers[i], m, i))
    {
      assert Segments(m)[i] in Segments(m) && headers[i] in headers;
      FrameValid(headers[i], Segments(m)[i], i, |Segments(m)|, |m|);
      RoundTrip(Carrier(headers[i], m, i));
    }
  }

  // Whatever EncodeMessage returns for an envelope whose raw messages are bytes travels as
  // at most 64 frames, and decoding them gives its bytes back.
  lemma MessageTravels(e: Envelope, headers: seq<Header>)
    requires EncodeMessage(e).Encoded? && ByteRaws(e)
    requires |headers| == |Segments(EncodeMessage(e).data)| && forall h :: h in headers ==> Legal(h) && HeaderValid(h)
    ensures var m := EncodeMessage(e).data;
            && 1 <= |m| <= MAX_MESSAGE && Base64.IsBytes(m)
            && |headers| <= MAX_CHUNKS && Concat(Segments(m)) == m
            && forall i :: 0 <= i < |headers| ==>
                 var frame := EncodeEnvelope(Carrier(headers[i], m, i));
                 && frame.Encoded? && DecodeEnvelope(frame.data).Decoded?
                 && var chunk := DecodeEnvelope(frame.data).envelope.chunk;
                    chunk.Present? && Base64.Decode(chunk.value.messageChunkBase64) == Base64.Bytes(Segments(m)[i])
  {
    hide Marshal, Validate, EncodeEnvelope, DecodeEnvelope, Segments, Concat, Legal, HeaderValid, ByteRaws,
      DetailsAreJson, Encodable, Base64.Decode, Base64.IsBytes;
    MessageSize(e);
    ValidIsEncodable(e);
    MarshalBytes(e);
    var m := EncodeMessage(e).data;
    MessageSplits(m, headers);
    FramesReassemble(m, headers);
  }
}

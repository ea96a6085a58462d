// Which envelopes the wire contract accepts, as a table of what each kind needs, and with
// which code it turns the others away.
module WireRules {
  import opened Wire
  import Base64
  import Json

  datatype Need = Stream | Sequence | Request | Operation | Segment

  function Needs(kind: string): set<Need> {
    match kind
    case "request" => {Stream, Sequence, Request, Operation}
    case "response" => {Stream, Sequence, Request}
    case "event" => {Stream, Sequence, Operation}
    case "ack" => {Stream, Sequence}
    case "close" => {Stream}
    case "chunk" => {Stream, Sequence, Segment}
    case _ => {}
  }

  predicate Has(e: Envelope, need: Need) {
    match need
    case Stream => e.streamID != ""
    case Sequence => e.seqID > 0
    case Request => e.requestID != ""
    case Operation => e.operation != ""
    case Segment => e.chunk.Present?
  }

  // The operations by what they work on.
  predicate IsOperation(operation: string) {
    || operation in ["connection.handshake", "environment.status"]
    || operation in ["workspace.list", "agent.list", "model.list", "thread.list", "file.list"]
    || operation in ["thread.create", "thread.snapshot", "thread.submit", "thread.interrupt", "thread.continue"]
    || operation in ["thread.steer", "thread.followUp", "thread.queue.remove", "thread.queue.promote"]
    || operation in ["message.reply", "message.markRead"]
    || operation in ["file.stat", "file.search", "file.preview.open", "file.preview.chunk"]
  }

  predicate IsKind(kind: string) {
    Needs(kind) != {} || kind in ["ping", "pong"]
  }

  lemma KnownExactly(name: string)
    ensures name in KNOWN_OPERATIONS <==> IsOperation(name)
    ensures name in KNOWN_KINDS <==> IsKind(name)
  {
  }

  // The sizes and the payload every kind must respect.
  predicate WellSized(e: Envelope) {
    && 1 <= |e.clientID| <= 128 && |e.streamID| <= 128 && |e.requestID| <= 128 && |e.cursor| <= 1024
    && |e.payload| <= 8388608 && PayloadIsJson(e)
  }

  predicate ChunkFits(c: Chunk) {
    && c.segmentID < c.segmentCount <= 64 && 1 <= c.messageSizeBytes <= 8388608
    && 1 <= |c.messageChunkBase64| <= 262144
    && var d := Base64.Decode(c.messageChunkBase64);
       d.Bytes? && d.bytes != ""
  }

  // Everything but whether a needed operation is a known one.
  predicate Sound(e: Envelope) {
    && e.protocolVersion == 1 && IsKind(e.kind) && WellSized(e)
    && (forall need :: need in Needs(e.kind) ==> Has(e, need))
    && (e.kind == "response" ==> e.payload == "" || e.error.Absent?)
    && (e.kind == "chunk" && e.chunk.Present? ==> ChunkFits(e.chunk.value))
  }

  lemma ChunkFitsExactly(c: Chunk)
    ensures ValidateChunk(c) == if ChunkFits(c) then Valid else Invalid(INVALID_ENVELOPE)
  {
    hide Base64.Decode;
  }

  // What a chunk can carry: any bytes up to three quarters of a frame, and no more.
  lemma ChunkCarriesExactly(bytes: string, id: u32, count: u32, size: u64)
    requires Base64.IsBytes(bytes)
    ensures ValidateChunk(Chunk(id, count, size, Base64.Encode(bytes))) == Valid <==>
            id < count <= 64 && 1 <= size <= 8388608 && 1 <= |bytes| <= 196608
  {
    hide Base64.Encode, Base64.Decode, ValidateChunk;
    EncodedSize(bytes);
    ChunkFitsExactly(Chunk(id, count, size, Base64.Encode(bytes)));
  }

  lemma EncodedSize(bytes: string)
    requires Base64.IsBytes(bytes)
    ensures Base64.Decode(Base64.Encode(bytes)) == Base64.Bytes(bytes)
    ensures |Base64.Encode(bytes)| <= 262144 <==> |bytes| <= 196608
    ensures |Base64.Encode(bytes)| >= 1 <==> |bytes| >= 1
  {
    hide Base64.Encode, Base64.Decode;
    Base64.EncodeDecodes(bytes);
    Quarters(|bytes|);
  }

  lemma Quarters(n: nat)
    ensures (n + 2) / 3 * 4 <= 262144 <==> n <= 196608
    ensures (n + 2) / 3 * 4 >= 1 <==> n >= 1
  {
  }

  // An envelope of the wrong version is incompatible; any other that is not sound is
  // invalid; a sound one is denied exactly if its kind needs an operation that is unknown.
  lemma AcceptsExactly(e: Envelope)
    ensures Validate(e) ==
            if e.protocolVersion != 1 then Invalid("protocol_incompatible")
            else if !Sound(e) then Invalid("invalid_envelope")
            else if Operation in Needs(e.kind) && !IsOperation(e.operation) then Invalid("operation_denied")
            else Valid
  {
    hide Json.ParseText, ValidateChunk, ChunkFits, IsOperation, IsKind;
    KnownExactly(e.kind);
    KnownExactly(e.operation);
    if e.chunk.Present? {
      ChunkFitsExactly(e.chunk.value);
    }
    NeedsByKind(e);
  }

  lemma NeedsByKind(e: Envelope)
    ensures (forall need :: need in Needs(e.kind) ==> Has(e, need)) <==>
            match e.kind
            case "request" => e.streamID != "" && e.seqID > 0 && e.requestID != "" && e.operation != ""
            case "response" => e.streamID != "" && e.seqID > 0 && e.requestID != ""
            case "event" => e.streamID != "" && e.seqID > 0 && e.operation != ""
            case "ack" => e.streamID != "" && e.seqID > 0
            case "close" => e.streamID != ""
            case "chunk" => e.streamID != "" && e.seqID > 0 && e.chunk.Present?
            case _ => true
  {
    var n := Needs(e.kind);
    assert (forall need :: need in n ==> Has(e, need)) <==>
             && (Stream in n ==> Has(e, Stream)) && (Sequence in n ==> Has(e, Sequence))
             && (Request in n ==> Has(e, Request))
             && (Operation in n ==> Has(e, Operation)) && (Segment in n ==> Has(e, Segment));
  }

  // What encoding makes of every envelope: its text, unless it is not acceptable, its
  // details are no JSON, or the text is too long for a message or a frame.
  lemma EncodesExactly(e: Envelope)
    ensures Validate(e).Invalid? ==>
              EncodeMessage(e) == EncodeEnvelope(e) == NotEncoded(Validate(e).code)
    ensures Validate(e).Valid? && !DetailsAreJson(e) ==>
              EncodeMessage(e) == EncodeEnvelope(e) == NotEncoded("invalid_envelope")
    ensures Validate(e).Valid? && DetailsAreJson(e) ==>
              && Encodable(e)
              && EncodeMessage(e) ==
                 (if |Marshal(e)| <= 8388608 then Encoded(Marshal(e)) else NotEncoded("invalid_envelope"))
              && EncodeEnvelope(e) ==
                 (if |Marshal(e)| <= 262144 then Encoded(Marshal(e)) else NotEncoded("invalid_envelope"))
  {
    hide Validate, Marshal, DetailsAreJson;
    if Validate(e).Valid? && DetailsAreJson(e) { ValidIsEncodable(e); }
  }
}

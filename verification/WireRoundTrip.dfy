// Decoding what was encoded (protocol/remotecontrol/protocol.go, EncodeEnvelope and
// DecodeEnvelope).
module WireRoundTrip {
  import opened Options
  import opened Text
  import Utf8
  import opened JsonString
  import opened JsonNumber
  import opened Json
  import opened JsonCompact
  import opened JsonText
  import opened Wire
  import opened WireSize
  import Base64

  // A raw message as it stands in the encoded text.
  function RawText(raw: string): string
    requires raw == "" || ParseText(raw).WellFormed?
  {
    if raw == "" then "" else Print(RawValue(raw))
  }

  function CoercedError(e: RemoteError): RemoteError
    requires e.details == "" || ParseText(e.details).WellFormed?
  {
    RemoteError(Coerce(e.code), Coerce(e.message), e.retryable, RawText(e.details))
  }

  function CoercedChunk(c: Chunk): Chunk {
    c.(messageChunkBase64 := Coerce(c.messageChunkBase64))
  }

  // The envelope with bad bytes in its strings replaced and its raw messages compacted.
  function Coerced(e: Envelope): Envelope
    requires Encodable(e)
  {
    Envelope(PROTOCOL_VERSION, Coerce(e.kind), Coerce(e.clientID), Coerce(e.streamID), e.seqID, Coerce(e.requestID),
      Coerce(e.cursor), Coerce(e.operation), RawText(e.payload),
      if e.error.Present? then Present(CoercedError(e.error.value)) else Absent,
      if e.chunk.Present? then Present(CoercedChunk(e.chunk.value)) else Absent)
  }

  // ---------- field names ----------

  predicate IsPlainName(s: string) {
    forall i :: 0 <= i < |s| ==> IsSafeAscii(s[i])
  }

  lemma {:induction false} PlainNameReads(s: string)
    requires IsPlainName(s)
    ensures Quote(s) == s && Coerce(s) == s
    decreases |s|
  {
    if s == "" {
    } else {
      PlainNameReads(s[1..]);
      assert s[..1] == [s[0]];
      assert s == [s[0]] + s[1..];
    }
  }

  lemma PlainName(s: string)
    requires IsPlainName(s)
    ensures IsBody(s) && Unquote(s) == s
  {
    hide Quote, Coerce, Unquote, IsBody;
    PlainNameReads(s);
    QuoteScans(s, "");
    UnquoteQuote(s);
  }

  lemma {:induction false} FoldAscii(s: string)
    requires AllAscii(s)
    ensures |Fold(s)| == |s| && forall i :: 0 <= i < |s| ==> Fold(s)[i] == LowerChar(s[i])
    decreases |s|
  {
    if s == "" {
    } else {
      FoldAscii(s[1..]);
    }
  }

  predicate SameLetters(key: string, field: string) {
    |key| == |field| && forall i :: 0 <= i < |key| ==> LowerChar(key[i]) == LowerChar(field[i])
  }

  // An ASCII key names a field exactly when they agree but for case.
  lemma NamesAscii(key: string, field: string)
    requires AllAscii(key)
    ensures Names(key, field) <==> SameLetters(key, field)
  {
    hide Fold;
    FoldAscii(key);
  }

  lemma FieldNames()
    ensures FieldOf("protocolVersion") == FVersion && FieldOf("type") == FType && FieldOf("seqID") == FSeq
    ensures FieldOf("clientID") == FClient && FieldOf("streamID") == FStream
    ensures FieldOf("requestID") == FRequest && FieldOf("cursor") == FCursor && FieldOf("operation") == FOperation
    ensures FieldOf("payload") == FPayload && FieldOf("error") == FError && FieldOf("chunk") == FChunk
  {
    hide FieldOf;
    EarlyFieldNames();
    MiddleFieldNames();
    LateFieldNames();
  }

  lemma EarlyFieldNames()
    ensures FieldOf("protocolVersion") == FVersion && FieldOf("type") == FType && FieldOf("seqID") == FSeq
    ensures FieldOf("clientID") == FClient && FieldOf("streamID") == FStream
  {
    hide Names, IsPlainName;
    EnvelopeNamesPlain();
    PlainNamesFields();
    assert "clientID"[0] == 'c' && "streamID"[0] == 's' && "seqID"[0] == 's';
  }

  lemma MiddleFieldNames()
    ensures FieldOf("requestID") == FRequest && FieldOf("cursor") == FCursor && FieldOf("operation") == FOperation
  {
    hide Names, IsPlainName;
    EnvelopeNamesPlain();
    PlainNamesFields();
    assert "requestID"[0] == 'r' && "operation"[0] == 'o';
  }

  lemma LateFieldNames()
    ensures FieldOf("payload") == FPayload && FieldOf("error") == FError && FieldOf("chunk") == FChunk
  {
    hide Names, IsPlainName;
    EnvelopeNamesPlain();
    PlainNamesFields();
    assert "error"[0] == 'e' && "chunk"[0] == 'c';
  }

  lemma PlainNamesFields()
    ensures forall key, field :: IsPlainName(key) ==> (Names(key, field) <==> SameLetters(key, field))
  {
    hide Names, SameLetters, IsPlainName;
    forall key, field | IsPlainName(key) ensures Names(key, field) <==> SameLetters(key, field) {
      PlainIsAscii(key);
      NamesAscii(key, field);
    }
  }

  lemma PlainIsAscii(s: string)
    requires IsPlainName(s)
    ensures AllAscii(s)
  {
  }

  lemma EnvelopeNamesPlain()
    ensures IsPlainName("protocolVersion") && IsPlainName("type") && IsPlainName("seqID")
    ensures IsPlainName("clientID") && IsPlainName("streamID") && IsPlainName("requestID")
    ensures IsPlainName("cursor") && IsPlainName("operation") && IsPlainName("payload")
    ensures IsPlainName("error") && IsPlainName("chunk")
  {
  }

  // ---------- single fields ----------

  // Filling from a plainly named field sets it and goes on.
  lemma FillStep(e: Envelope, key: string, value: Json, rest: Members)
    requires IsPlainName(key)
    ensures Fill(e, Field(key, value, rest)) ==
            var r := SetField(e, FieldOf(key), value, Print(value));
            if r.Present? then Fill(r.value, rest) else Absent
  {
    hide Unquote, FieldOf, SetField, Print;
    PlainName(key);
  }

  lemma NumberReads(n: nat, was: nat, bound: nat)
    requires n < bound
    ensures SetUint(was, Num(Decimal(n)), bound) == Present(n)
  {
    hide Decimal, Undecimal;
    DecimalReads(n);
  }

  lemma VersionReads(was: int)
    ensures SetInt(was, Num(Decimal(PROTOCOL_VERSION))) == Present(PROTOCOL_VERSION)
  {
    hide Decimal, Undecimal;
    DecimalReads(PROTOCOL_VERSION);
  }

  lemma StringReads(s: string, was: string)
    ensures SetString(was, Str(Quote(s))) == Present(Coerce(s))
  {
    hide Quote, Unquote, Coerce;
    UnquoteQuote(s);
  }

  lemma CoerceEmpty()
    ensures Coerce("") == ""
  {
  }

  // ---------- the nested objects ----------

  lemma ErrorNames()
    ensures IsPlainName("code") && IsPlainName("message") && IsPlainName("retryable") && IsPlainName("details")
    ensures !Names("message", "code") && !Names("retryable", "code") && !Names("details", "code")
    ensures !Names("retryable", "message") && !Names("details", "message") && !Names("details", "retryable")
    ensures Names("code", "code") && Names("message", "message")
    ensures Names("retryable", "retryable") && Names("details", "details")
  {
    hide Names;
    PlainNamesFields();
    assert "details"[0] == 'd' && "message"[0] == 'm';
  }

  lemma FillErrorStep(e: RemoteError, key: string, value: Json, rest: Members)
    requires IsPlainName(key)
    ensures FillError(e, Field(key, value, rest)) ==
            var r := SetErrorField(e, key, value, Print(value));
            if r.Present? then FillError(r.value, rest) else Absent
  {
    hide Unquote, SetErrorField, Print;
    PlainName(key);
  }

  lemma ErrorReads(e: RemoteError)
    requires e.details == "" || ParseText(e.details).WellFormed?
    ensures FillError(RemoteError("", "", false, ""), ErrorMembers(e)) == Present(CoercedError(e))
  {
    hide Print, Quote, Coerce, Unquote, FillError, Names, ParseText, RawValue, IsPlainName;
    ErrorNames();
    var details := OptRaw("details", e.details, NoMembers);
    var e0 := RemoteError("", "", false, "");
    var e1 := e0.(code := Coerce(e.code));
    var e2 := e1.(message := Coerce(e.message));
    var e3 := e2.(retryable := e.retryable);
    StringReads(e.code, "");
    StringReads(e.message, "");
    var more := if e.retryable then Field("retryable", Bool(true), details) else details;
    FillErrorStep(e0, "code", Str(Quote(e.code)), StringField("message", e.message, more));
    FillErrorStep(e1, "message", Str(Quote(e.message)), more);
    FillErrorStep(e2, "retryable", Bool(true), details);
    FillErrorEnds(e3);
    if e.details == "" {
      FillErrorEnds(e3);
    } else {
      FillErrorStep(e3, "details", RawValue(e.details), NoMembers);
      FillErrorEnds(e3.(details := Print(RawValue(e.details))));
    }
  }

  lemma FillErrorEnds(e: RemoteError)
    ensures FillError(e, NoMembers) == Present(e)
  {
  }

  lemma ChunkNames()
    ensures IsPlainName("segmentID") && IsPlainName("segmentCount")
    ensures IsPlainName("messageSizeBytes") && IsPlainName("messageChunkBase64")
    ensures !Names("segmentCount", "segmentID") && !Names("messageSizeBytes", "segmentID")
    ensures !Names("messageChunkBase64", "segmentID")
    ensures !Names("messageSizeBytes", "segmentCount") && !Names("messageChunkBase64", "segmentCount")
    ensures !Names("messageChunkBase64", "messageSizeBytes")
    ensures Names("segmentID", "segmentID") && Names("segmentCount", "segmentCount")
    ensures Names("messageSizeBytes", "messageSizeBytes") && Names("messageChunkBase64", "messageChunkBase64")
  {
    hide Names;
    PlainNamesFields();
  }

  lemma FillChunkStep(c: Chunk, key: string, value: Json, rest: Members)
    requires IsPlainName(key)
    ensures FillChunk(c, Field(key, value, rest)) ==
            var r := SetChunkField(c, key, value);
            if r.Present? then FillChunk(r.value, rest) else Absent
  {
    hide Unquote, SetChunkField, Print;
    PlainName(key);
  }

  lemma ChunkReads(c: Chunk)
    ensures FillChunk(Chunk(0, 0, 0, ""), ChunkMembers(c)) == Present(CoercedChunk(c))
  {
    hide Print, Quote, Coerce, Decimal, FillChunk, Names, IsPlainName, SetUint, SetString;
    ChunkNames();
    var c0 := Chunk(0, 0, 0, "");
    var c1 := c0.(segmentID := c.segmentID);
    var c2 := c1.(segmentCount := c.segmentCount);
    var c3 := c2.(messageSizeBytes := c.messageSizeBytes);
    var m3 := StringField("messageChunkBase64", c.messageChunkBase64, NoMembers);
    var m2 := NumberField("messageSizeBytes", c.messageSizeBytes, m3);
    var m1 := NumberField("segmentCount", c.segmentCount, m2);
    NumberReads(c.segmentID, 0, 0x1_0000_0000);
    NumberReads(c.segmentCount, 0, 0x1_0000_0000);
    NumberReads(c.messageSizeBytes, 0, 0x1_0000_0000_0000_0000);
    StringReads(c.messageChunkBase64, "");
    FillChunkStep(c0, "segmentID", Num(Decimal(c.segmentID)), m1);
    FillChunkStep(c1, "segmentCount", Num(Decimal(c.segmentCount)), m2);
    FillChunkStep(c2, "messageSizeBytes", Num(Decimal(c.messageSizeBytes)), m3);
    FillChunkStep(c3, "messageChunkBase64", Str(Quote(c.messageChunkBase64)), NoMembers);
    FillChunkEnds(CoercedChunk(c));
  }

  lemma FillChunkEnds(c: Chunk)
    ensures FillChunk(c, NoMembers) == Present(c)
  {
  }

  // ---------- optional fields of the envelope ----------

  lemma StringStep(e: Envelope, key: string, s: string, rest: Members)
    requires IsPlainName(key)
    ensures Fill(e, StringField(key, s, rest)) ==
            match FieldOf(key)
            case FType => Fill(e.(kind := Coerce(s)), rest)
            case FClient => Fill(e.(clientID := Coerce(s)), rest)
            case FStream => Fill(e.(streamID := Coerce(s)), rest)
            case FRequest => Fill(e.(requestID := Coerce(s)), rest)
            case FCursor => Fill(e.(cursor := Coerce(s)), rest)
            case FOperation => Fill(e.(operation := Coerce(s)), rest)
            case _ => Fill(e, StringField(key, s, rest))
  {
    hide Quote, Unquote, Coerce, FieldOf, Fill, Print, SetString;
    FillStep(e, key, Str(Quote(s)), rest);
    StringReads(s, e.kind);
    StringReads(s, e.clientID);
    StringReads(s, e.streamID);
    StringReads(s, e.requestID);
    StringReads(s, e.cursor);
    StringReads(s, e.operation);
  }

  // The fields read back into an empty envelope, from the last to the first.
  lemma TailReads(e: Envelope, x: Envelope)
    requires Encodable(e)
    requires x.payload == "" && x.error == Absent && x.chunk == Absent
    ensures Fill(x, OptRaw("payload", e.payload, OptError(e.error, OptChunk(e.chunk, NoMembers)))) ==
            Present(x.(payload := Coerced(e).payload, error := Coerced(e).error, chunk := Coerced(e).chunk))
  {
    hide Fill, Print, FieldOf, ParseText, ErrorMembers, ChunkMembers, FillError, FillChunk, CoercedError,
      CoercedChunk, RawValue, Coerce, IsPlainName;
    FieldNames();
    EnvelopeNamesPlain();
    var after := OptChunk(e.chunk, NoMembers);
    var more := OptError(e.error, after);
    var x1 := x.(payload := RawText(e.payload));
    var x2 := x1.(error := Coerced(e).error);
    var x3 := x2.(chunk := Coerced(e).chunk);
    if e.payload != "" {
      FillStep(x, "payload", RawValue(e.payload), more);
    }
    if e.error.Present? {
      ErrorReads(e.error.value);
      FillStep(x1, "error", Obj(ErrorMembers(e.error.value)), after);
    }
    if e.chunk.Present? {
      ChunkReads(e.chunk.value);
      FillStep(x2, "chunk", Obj(ChunkMembers(e.chunk.value)), NoMembers);
    }
    FillEnds(x3);
  }

  lemma FillEnds(e: Envelope)
    ensures Fill(e, NoMembers) == Present(e)
  {
  }

  lemma EnvelopeReads(e: Envelope)
    requires Encodable(e)
    ensures Fill(EMPTY, EnvelopeMembers(e)) == Present(Coerced(e))
  {
    hide Fill, Print, FieldOf, ParseText, Coerce, Quote, Decimal, IsPlainName, RawText, CoercedError, CoercedChunk,
      OptRaw, OptError, OptChunk, SetUint, SetInt;
    FieldNames();
    EnvelopeNamesPlain();
    CoerceEmpty();
    var m8 := OptRaw("payload", e.payload, OptError(e.error, OptChunk(e.chunk, NoMembers)));
    var m7 := OptString("operation", e.operation, m8);
    var m6 := OptString("cursor", e.cursor, m7);
    var m5 := OptString("requestID", e.requestID, m6);
    var m4 := OptNumber("seqID", e.seqID, m5);
    var m3 := OptString("streamID", e.streamID, m4);
    var m2 := OptString("clientID", e.clientID, m3);
    var m1 := StringField("type", e.kind, m2);
    var x0 := EMPTY.(protocolVersion := PROTOCOL_VERSION);
    var x1 := x0.(kind := Coerce(e.kind));
    var x2 := x1.(clientID := Coerce(e.clientID));
    var x3 := x2.(streamID := Coerce(e.streamID));
    var x4 := x3.(seqID := e.seqID);
    var x5 := x4.(requestID := Coerce(e.requestID));
    var x6 := x5.(cursor := Coerce(e.cursor));
    var x7 := x6.(operation := Coerce(e.operation));
    VersionReads(0);
    FillStep(EMPTY, "protocolVersion", Num(Decimal(PROTOCOL_VERSION)), m1);
    StringStep(x0, "type", e.kind, m2);
    StringStep(x1, "clientID", e.clientID, m3);
    StringStep(x2, "streamID", e.streamID, m4);
    NumberReads(e.seqID, 0, 0x1_0000_0000_0000_0000);
    FillStep(x3, "seqID", Num(Decimal(e.seqID)), m5);
    StringStep(x4, "requestID", e.requestID, m6);
    StringStep(x5, "cursor", e.cursor, m7);
    StringStep(x6, "operation", e.operation, m8);
    TailReads(e, x7);
  }

  // ---------- the whole text ----------

  lemma FieldSound(key: string, value: Json, rest: Members)
    requires IsPlainName(key) && Sound(value, true) && SoundMembers(rest, true)
    ensures SoundMembers(Field(key, value, rest), true)
  {
    hide Print, Sound, IsBody;
    PlainName(key);
  }

  lemma StringSound(key: string, s: string, rest: Members)
    requires IsPlainName(key) && SoundMembers(rest, true)
    ensures SoundMembers(StringField(key, s, rest), true)
    ensures SoundMembers(OptString(key, s, rest), true)
  {
    hide SoundMembers, IsBody, Quote;
    QuoteScans(s, "");
    FieldSound(key, Str(Quote(s)), rest);
  }

  lemma NumberSound(key: string, n: nat, rest: Members)
    requires IsPlainName(key) && SoundMembers(rest, true)
    ensures SoundMembers(NumberField(key, n, rest), true)
    ensures SoundMembers(OptNumber(key, n, rest), true)
  {
    hide SoundMembers, Decimal;
    DecimalIsNumber(n);
    FieldSound(key, Num(Decimal(n)), rest);
  }

  lemma RawSound(key: string, raw: string, rest: Members)
    requires IsPlainName(key) && SoundMembers(rest, true)
    requires raw == "" || ParseText(raw).WellFormed?
    ensures SoundMembers(OptRaw(key, raw, rest), true)
  {
    hide SoundMembers, ParseText, Sound;
    if raw != "" {
      CompactValue(raw);
      FieldSound(key, RawValue(raw), rest);
    }
  }

  lemma ErrorSound(e: RemoteError)
    requires e.details == "" || ParseText(e.details).WellFormed?
    ensures SoundMembers(ErrorMembers(e), true)
  {
    hide SoundMembers, ParseText, OptRaw, StringField, IsPlainName, Names;
    ErrorNames();
    assert SoundMembers(NoMembers, true) by { NothingSound(); }
    var details := OptRaw("details", e.details, NoMembers);
    RawSound("details", e.details, NoMembers);
    FieldSound("retryable", Bool(true), details);
    var more := if e.retryable then Field("retryable", Bool(true), details) else details;
    StringSound("message", e.message, more);
    StringSound("code", e.code, StringField("message", e.message, more));
  }

  lemma NothingSound()
    ensures SoundMembers(NoMembers, true)
  {
  }

  lemma ChunkSound(c: Chunk)
    ensures SoundMembers(ChunkMembers(c), true)
  {
    hide SoundMembers, StringField, NumberField, IsPlainName, Names;
    ChunkNames();
    NothingSound();
    var m3 := StringField("messageChunkBase64", c.messageChunkBase64, NoMembers);
    var m2 := NumberField("messageSizeBytes", c.messageSizeBytes, m3);
    var m1 := NumberField("segmentCount", c.segmentCount, m2);
    StringSound("messageChunkBase64", c.messageChunkBase64, NoMembers);
    NumberSound("messageSizeBytes", c.messageSizeBytes, m3);
    NumberSound("segmentCount", c.segmentCount, m2);
    NumberSound("segmentID", c.segmentID, m1);
  }

  lemma TailSound(e: Envelope)
    requires Encodable(e)
    ensures SoundMembers(OptRaw("payload", e.payload, OptError(e.error, OptChunk(e.chunk, NoMembers))), true)
  {
    hide SoundMembers, ParseText, OptRaw, Print, IsPlainName;
    EnvelopeNamesPlain();
    NothingSound();
    if e.chunk.Present? {
      ChunkSound(e.chunk.value);
      FieldSound("chunk", Obj(ChunkMembers(e.chunk.value)), NoMembers);
    }
    if e.error.Present? {
      ErrorSound(e.error.value);
      FieldSound("error", Obj(ErrorMembers(e.error.value)), OptChunk(e.chunk, NoMembers));
    }
    RawSound("payload", e.payload, OptError(e.error, OptChunk(e.chunk, NoMembers)));
  }

  lemma EnvelopeSound(e: Envelope)
    requires Encodable(e)
    ensures SoundMembers(EnvelopeMembers(e), true)
  {
    hide SoundMembers, ParseText, StringField, NumberField, OptString, OptNumber, OptRaw, OptError, OptChunk,
      IsPlainName;
    EnvelopeNamesPlain();
    TailSound(e);
    var m8 := OptRaw("payload", e.payload, OptError(e.error, OptChunk(e.chunk, NoMembers)));
    var m7 := OptString("operation", e.operation, m8);
    var m6 := OptString("cursor", e.cursor, m7);
    var m5 := OptString("requestID", e.requestID, m6);
    var m4 := OptNumber("seqID", e.seqID, m5);
    var m3 := OptString("streamID", e.streamID, m4);
    var m2 := OptString("clientID", e.clientID, m3);
    var m1 := StringField("type", e.kind, m2);
    StringSound("operation", e.operation, m8);
    StringSound("cursor", e.cursor, m7);
    StringSound("requestID", e.requestID, m6);
    NumberSound("seqID", e.seqID, m5);
    StringSound("streamID", e.streamID, m4);
    StringSound("clientID", e.clientID, m3);
    StringSound("type", e.kind, m2);
    NumberSound("protocolVersion", PROTOCOL_VERSION, m1);
  }

  // Unmarshalling a marshalled envelope fails only on nesting, and otherwise yields the
  // coerced envelope.
  lemma MarshalReads(e: Envelope)
    requires Encodable(e)
    ensures Unmarshal(Marshal(e)) == if NestingFits(e) then Present(Coerced(e)) else Absent
  {
    hide ParseText, Print, EnvelopeMembers, SoundMembers, Fill, Encodable, NestingFits, Nesting, Coerced;
    var v := Obj(EnvelopeMembers(e));
    EnvelopeSound(e);
    EnvelopeNests(e);
    EnvelopeReads(e);
    TextParses(v);
  }

  // ---------- decoding what was encoded ----------

  lemma KindsPlain()
    ensures IsPlainName("request") && IsPlainName("response") && IsPlainName("event")
    ensures IsPlainName("ack") && IsPlainName("ping") && IsPlainName("pong")
    ensures IsPlainName("close") && IsPlainName("chunk")
  {
  }

  lemma OperationsPlain1()
    ensures IsPlainName("connection.handshake") && IsPlainName("environment.status") && IsPlainName("workspace.list")
    ensures IsPlainName("agent.list") && IsPlainName("model.list") && IsPlainName("thread.list")
  {
  }

  lemma OperationsPlain2()
    ensures IsPlainName("thread.create") && IsPlainName("thread.snapshot") && IsPlainName("thread.submit")
    ensures IsPlainName("thread.interrupt") && IsPlainName("thread.continue")
  {
  }

  lemma OperationsPlain3()
    ensures IsPlainName("thread.steer") && IsPlainName("thread.followUp") && IsPlainName("thread.queue.remove")
    ensures IsPlainName("thread.queue.promote") && IsPlainName("message.reply")
  {
  }

  lemma OperationsPlain4()
    ensures IsPlainName("message.markRead") && IsPlainName("file.list") && IsPlainName("file.stat")
    ensures IsPlainName("file.search") && IsPlainName("file.preview.open") && IsPlainName("file.preview.chunk")
  {
  }

  lemma KnownCoerces(name: string)
    requires name in KNOWN_KINDS || name in KNOWN_OPERATIONS
    ensures Coerce(name) == name
  {
    hide Coerce, IsPlainName;
    KindsPlain();
    OperationsPlain1();
    OperationsPlain2();
    OperationsPlain3();
    OperationsPlain4();
    assert IsPlainName(name);
    PlainNameReads(name);
  }

  lemma {:induction false} AsciiValid(s: string)
    requires forall i :: 0 <= i < |s| ==> s[i] <= '\U{7F}'
    ensures Utf8.Valid(s)
    decreases |s|
  {
    if s == "" {
    } else {
      AsciiValid(s[1..]);
    }
  }

  lemma CoerceKeepsEmpty(s: string)
    ensures Coerce(s) == "" <==> s == ""
  {
    hide Coerce;
    CoerceEmpty();
    CoerceValid(s);
  }

  lemma ValidChunkCoerces(c: Chunk)
    requires ValidateChunk(c).Valid?
    ensures CoercedChunk(c) == c
  {
    hide Coerce, Base64.Decode;
    Base64.DecodedIsAscii(c.messageChunkBase64);
    AsciiValid(c.messageChunkBase64);
    CoerceValid(c.messageChunkBase64);
  }

  lemma RawTextReads(raw: string)
    requires raw == "" || ParseText(raw).WellFormed?
    ensures raw == "" <==> RawText(raw) == ""
    ensures raw != "" ==>
              && ParseText(RawText(raw)) == WellFormed(RawValue(raw))
              && RawValue(RawText(raw)) == RawValue(raw)
              && Nesting(RawValue(raw)) == Nesting(ParseText(raw).value)
              && Meaning(ParseText(RawText(raw)).value) == Meaning(ParseText(raw).value)
  {
    hide ParseText, Print, Escaped, Meaning, Sound;
    if raw != "" {
      CompactValue(raw);
      TextSound(raw);
      PrintStarts(RawValue(raw), true);
      EscapedMeans(ParseText(raw).value);
      EscapedTwice(ParseText(raw).value);
    }
  }

  // A coerced envelope stays acceptable unless replaced bytes made an identifier too long.
  lemma CoercedValidates(e: Envelope)
    requires Validate(e).Valid? && Encodable(e) && |Marshal(e)| <= MAX_MESSAGE
    ensures Validate(Coerced(e)) == if IdentifiersFit(Coerced(e)) then Valid else Invalid(INVALID_ENVELOPE)
  {
    hide Coerce, ParseText, RawValue, Print, Marshal, CoercedError, CoercedChunk, ValidateChunk, IdentifiersFit,
      RawText, ValidateKind;
    KnownCoerces(e.kind);
    CoerceKeepsEmpty(e.clientID);
    PayloadFits(e);
    RawTextReads(e.payload);
    KindStays(e);
  }

  lemma PayloadFits(e: Envelope)
    requires Encodable(e) && |Marshal(e)| <= MAX_MESSAGE
    ensures |RawText(e.payload)| <= MAX_MESSAGE
  {
    hide ParseText, RawValue, Print, Marshal;
    PayloadSize(e);
  }

  lemma KindStays(e: Envelope)
    requires e.kind in KNOWN_KINDS && ValidateKind(e).Valid? && Encodable(e)
    ensures ValidateKind(Coerced(e)).Valid?
  {
    hide Coerce, ParseText, CoercedError, CoercedChunk, ValidateChunk, RawText;
    KnownCoerces(e.kind);
    CoerceKeepsEmpty(e.streamID);
    CoerceKeepsEmpty(e.requestID);
    RawTextReads(e.payload);
    if e.kind == "request" || e.kind == "event" {
      KnownCoerces(e.operation);
    }
    if e.kind == "chunk" {
      ValidChunkCoerces(e.chunk.value);
    }
  }

  lemma EncodedIsValid(e: Envelope)
    requires EncodeEnvelope(e).Encoded?
    ensures Validate(e).Valid? && Encodable(e) && EncodeEnvelope(e).data == Marshal(e) && |Marshal(e)| <= MAX_FRAME
  {
    hide Validate, Marshal, DetailsAreJson, Encodable;
    ValidIsEncodable(e);
  }

  // What decoding an encoded envelope gives, for every envelope that encodes.
  lemma DecodesExactly(e: Envelope)
    requires EncodeEnvelope(e).Encoded?
    ensures Encodable(e)
    ensures DecodeEnvelope(EncodeEnvelope(e).data) ==
            if NestingFits(e) && IdentifiersFit(Coerced(e)) then Decoded(Coerced(e)) else NotDecoded(INVALID_ENVELOPE)
  {
    hide Validate, Marshal, Encodable, EncodeEnvelope, Unmarshal, NestingFits, IdentifiersFit, Coerced;
    EncodedIsValid(e);
    MarshalReads(e);
    CoercedValidates(e);
  }

  // ---------- envelopes of valid UTF-8 ----------

  predicate StringsValid(e: Envelope) {
    && Utf8.Valid(e.clientID) && Utf8.Valid(e.streamID) && Utf8.Valid(e.requestID)
    && Utf8.Valid(e.cursor) && Utf8.Valid(e.operation)
    && (e.error.Present? ==> Utf8.Valid(e.error.value.code) && Utf8.Valid(e.error.value.message))
    && (e.chunk.Present? ==> Utf8.Valid(e.chunk.value.messageChunkBase64))
  }

  // Equal but for the white space and escaping of the raw messages.
  predicate SameRaw(a: string, b: string) {
    || a == b == ""
    || (a != "" && b != "" && ParseText(a).WellFormed? && ParseText(b).WellFormed?
        && Meaning(ParseText(a).value) == Meaning(ParseText(b).value))
  }

  predicate SameEnvelope(a: Envelope, b: Envelope) {
    && SameRaw(a.payload, b.payload)
    && a.error.Present? == b.error.Present?
    && (a.error.Present? ==>
          && SameRaw(a.error.value.details, b.error.value.details)
          && a.error.value.(details := "") == b.error.value.(details := ""))
    && a.(payload := "", error := Absent) == b.(payload := "", error := Absent)
  }

  lemma ValidErrorCoerces(e: RemoteError)
    requires Utf8.Valid(e.code) && Utf8.Valid(e.message)
    requires e.details == "" || ParseText(e.details).WellFormed?
    ensures CoercedError(e) == e.(details := RawText(e.details)) && SameRaw(e.details, RawText(e.details))
  {
    hide Coerce, Utf8.Valid, ParseText, RawText, Meaning;
    CoerceValid(e.code);
    CoerceValid(e.message);
    RawTextReads(e.details);
  }

  lemma ValidCoerces(e: Envelope)
    requires Validate(e).Valid? && Encodable(e) && StringsValid(e)
    ensures SameEnvelope(e, Coerced(e)) && IdentifiersFit(Coerced(e))
    ensures Coerced(e) == e.(payload := Coerced(e).payload, error := Coerced(e).error)
  {
    hide Coerce, Utf8.Valid, ParseText, RawText, Meaning, ValidateKind, CoercedError, SameRaw;
    KnownCoerces(e.kind);
    CoerceValid(e.clientID);
    CoerceValid(e.streamID);
    CoerceValid(e.requestID);
    CoerceValid(e.cursor);
    CoerceValid(e.operation);
    RawSame(e.payload);
    if e.error.Present? { ValidErrorCoerces(e.error.value); }
    if e.chunk.Present? {
      CoerceValid(e.chunk.value.messageChunkBase64);
    }
  }

  lemma RawSame(raw: string)
    requires raw == "" || ParseText(raw).WellFormed?
    ensures SameRaw(raw, RawText(raw))
  {
    hide ParseText, RawText, Meaning;
    RawTextReads(raw);
  }

  // Encoding the coerced envelope writes the same text again.
  lemma CoercedMarshals(e: Envelope)
    requires Validate(e).Valid? && Encodable(e) && StringsValid(e)
    ensures Encodable(Coerced(e)) && Marshal(Coerced(e)) == Marshal(e)
  {
    hide Coerce, Utf8.Valid, ParseText, RawText, Meaning, Validate, Print, Quote, Decimal, RawValue;
    ValidCoerces(e);
    RawTextReads(e.payload);
    if e.error.Present? {
      RawTextReads(e.error.value.details);
    }
    assert EnvelopeMembers(Coerced(e)) == EnvelopeMembers(e);
  }

  // Valid UTF-8 strings survive encoding and decoding exactly when the raw messages leave
  // room for the envelope's own nesting; the decoded envelope then encodes to the same text.
  lemma RoundTrip(e: Envelope)
    requires EncodeEnvelope(e).Encoded? && StringsValid(e)
    ensures Encodable(e)
    ensures var decoded := DecodeEnvelope(EncodeEnvelope(e).data);
            && (decoded.Decoded? <==> NestingFits(e))
            && (decoded.Decoded? ==>
                  && SameEnvelope(e, decoded.envelope)
                  && EncodeEnvelope(decoded.envelope) == EncodeEnvelope(e))
  {
    hide Validate, Marshal, Encodable, Unmarshal, NestingFits, IdentifiersFit, Coerced, SameEnvelope, StringsValid,
      DetailsAreJson;
    EncodedIsValid(e);
    DecodesExactly(e);
    ValidCoerces(e);
    CoercedValidates(e);
    CoercedMarshals(e);
    EncodableDetails(Coerced(e));
  }

  lemma EncodableDetails(e: Envelope)
    requires Encodable(e)
    ensures DetailsAreJson(e)
  {
  }

  // A heartbeat whose client identifier is n bytes that no UTF-8 text contains: it encodes
  // up to the identifier limit but is read back only while each byte has room for three.
  lemma BadIdentifier(clientID: string)
    requires 1 <= |clientID| <= MAX_IDENTIFIER
    requires forall i :: 0 <= i < |clientID| ==> clientID[i] == '\U{FF}'
    ensures var e := EMPTY.(protocolVersion := PROTOCOL_VERSION, kind := "ping", clientID := clientID);
            && EncodeEnvelope(e).Encoded?
            && (DecodeEnvelope(EncodeEnvelope(e).data).Decoded? <==> 3 * |clientID| <= MAX_IDENTIFIER)
  {
    hide Marshal, Coerce, EncodeEnvelope, DecodeEnvelope, OptChunk, OptError, OptRaw, Size;
    var e := EMPTY.(protocolVersion := PROTOCOL_VERSION, kind := "ping", clientID := clientID);
    EnvelopeSize(e);
    assert Size(OptRaw("payload", "", OptError(Absent, OptChunk(Absent, NoMembers)))) == 1 by { NothingEnds(); }
    SmallEncodes(e);
    DecodesExactly(e);
    CoerceBadBytes(clientID);
    CoerceEmpty();
  }

  lemma NothingEnds()
    ensures Size(OptRaw("payload", "", OptError(Absent, OptChunk(Absent, NoMembers)))) == 1
  {
  }

  lemma SmallEncodes(e: Envelope)
    requires Validate(e).Valid? && Encodable(e) && |Marshal(e)| <= MAX_FRAME
    ensures EncodeEnvelope(e) == Encoded(Marshal(e))
  {
    hide Validate, Marshal;
  }
}

// How large and how deeply nested a marshalled envelope is.
module WireSize {
  import opened Options
  import opened JsonString
  import opened JsonNumber
  import opened Json
  import opened JsonCompact
  import opened Wire

  function RawNesting(raw: string): nat
    requires raw == "" || ParseText(raw).WellFormed?
  {
    if raw == "" then 0 else Nesting(ParseText(raw).value)
  }

  // The raw messages leave room for the levels the envelope adds around them.
  predicate NestingFits(e: Envelope)
    requires Encodable(e)
  {
    && RawNesting(e.payload) <= MAX_NESTING - 1
    && (e.error.Present? ==> RawNesting(e.error.value.details) <= MAX_NESTING - 2)
  }

  // ---------- nesting ----------

  lemma FlatFields(key: string, s: string, n: nat, rest: Members)
    ensures NestingMembers(StringField(key, s, rest)) == NestingMembers(rest)
    ensures NestingMembers(NumberField(key, n, rest)) == NestingMembers(rest)
  {
    hide Quote, Decimal, Print;
  }

  lemma RawFieldNests(key: string, raw: string, rest: Members)
    requires raw == "" || ParseText(raw).WellFormed?
    ensures NestingMembers(OptRaw(key, raw, rest)) == Max(RawNesting(raw), NestingMembers(rest))
  {
    hide ParseText, Print, Escaped;
    if raw != "" {
      CompactValue(raw);
    }
  }

  lemma TailNests(e: Envelope)
    requires Encodable(e)
    ensures var tail := OptRaw("payload", e.payload, OptError(e.error, OptChunk(e.chunk, NoMembers)));
            NestingMembers(tail) <= MAX_NESTING - 1 <==> NestingFits(e)
  {
    hide ParseText, Print, OptRaw, RawNesting, Quote, Decimal, NestingMembers;
    RawFieldNests("payload", e.payload, OptError(e.error, OptChunk(e.chunk, NoMembers)));
    NothingNests();
    if e.chunk.Present? {
      ChunkNests(e.chunk.value);
      FieldNests("chunk", Obj(ChunkMembers(e.chunk.value)), NoMembers);
    }
    if e.error.Present? {
      ErrorNests(e.error.value);
      FieldNests("error", Obj(ErrorMembers(e.error.value)), OptChunk(e.chunk, NoMembers));
    }
  }

  lemma NothingNests()
    ensures NestingMembers(NoMembers) == 0
  {
  }

  lemma FieldNests(key: string, value: Json, rest: Members)
    ensures NestingMembers(Field(key, value, rest)) == Max(Nesting(value), NestingMembers(rest))
  {
    hide Print;
  }

  lemma ChunkNests(c: Chunk)
    ensures NestingMembers(ChunkMembers(c)) == 0
  {
    hide Quote, Decimal, Print, StringField, NumberField, NestingMembers;
    NothingNests();
    var m3 := StringField("messageChunkBase64", c.messageChunkBase64, NoMembers);
    var m2 := NumberField("messageSizeBytes", c.messageSizeBytes, m3);
    var m1 := NumberField("segmentCount", c.segmentCount, m2);
    FlatFields("messageChunkBase64", c.messageChunkBase64, 0, NoMembers);
    FlatFields("messageSizeBytes", "", c.messageSizeBytes, m3);
    FlatFields("segmentCount", "", c.segmentCount, m2);
    FlatFields("segmentID", "", c.segmentID, m1);
  }

  lemma ErrorNests(e: RemoteError)
    requires e.details == "" || ParseText(e.details).WellFormed?
    ensures NestingMembers(ErrorMembers(e)) == RawNesting(e.details)
  {
    hide Quote, Print, StringField, OptRaw, RawNesting, ParseText, NestingMembers;
    NothingNests();
    RawFieldNests("details", e.details, NoMembers);
    var details := OptRaw("details", e.details, NoMembers);
    FieldNests("retryable", Bool(true), details);
    var more := if e.retryable then Field("retryable", Bool(true), details) else details;
    FlatFields("message", e.message, 0, more);
    FlatFields("code", e.code, 0, StringField("message", e.message, more));
  }

  // An envelope's text is nested too deeply exactly when its raw messages are.
  lemma EnvelopeNests(e: Envelope)
    requires Encodable(e)
    ensures Nesting(Obj(EnvelopeMembers(e))) <= MAX_NESTING <==> NestingFits(e)
  {
    hide Quote, Print, StringField, NumberField, OptRaw, OptError, OptChunk, ParseText, RawNesting, NestingMembers,
      NestingFits;
    TailNests(e);
    var m8 := OptRaw("payload", e.payload, OptError(e.error, OptChunk(e.chunk, NoMembers)));
    var m7 := OptString("operation", e.operation, m8);
    var m6 := OptString("cursor", e.cursor, m7);
    var m5 := OptString("requestID", e.requestID, m6);
    var m4 := OptNumber("seqID", e.seqID, m5);
    var m3 := OptString("streamID", e.streamID, m4);
    var m2 := OptString("clientID", e.clientID, m3);
    var m1 := StringField("type", e.kind, m2);
    FlatFields("operation", e.operation, 0, m8);
    FlatFields("cursor", e.cursor, 0, m7);
    FlatFields("requestID", e.requestID, 0, m6);
    FlatFields("seqID", "", e.seqID, m5);
    FlatFields("streamID", e.streamID, 0, m4);
    FlatFields("clientID", e.clientID, 0, m3);
    FlatFields("type", e.kind, 0, m2);
    FlatFields("protocolVersion", "", PROTOCOL_VERSION, m1);
  }

  // ---------- size ----------

  function Size(members: Members): nat {
    |PrintMembers(members)|
  }

  lemma FieldSize(key: string, value: Json, rest: Members)
    ensures var least := Size(rest) + |Print(value)| + |key|;
            least < Size(Field(key, value, rest)) <= least + 4
  {
    hide Print;
  }

  lemma StringSize(key: string, s: string, rest: Members)
    ensures Size(rest) <= Size(StringField(key, s, rest)) <= Size(rest) + 6 * |s| + |key| + 6
    ensures Size(rest) <= Size(OptString(key, s, rest)) <= Size(rest) + 6 * |s| + |key| + 6
  {
    hide Quote, Size, Field;
    QuoteBound(s);
    FieldSize(key, Str(Quote(s)), rest);
  }

  lemma NumberSize(key: string, n: nat, k: nat, rest: Members)
    requires n < Pow10(k) && k >= 1
    ensures Size(rest) <= Size(NumberField(key, n, rest)) <= Size(rest) + |key| + k + 4
    ensures Size(rest) <= Size(OptNumber(key, n, rest)) <= Size(rest) + |key| + k + 4
  {
    hide Decimal, Size, Field;
    DecimalLength(n, k);
    FieldSize(key, Num(Decimal(n)), rest);
  }

  lemma SeqSmall(n: u64)
    ensures n < Pow10(20)
  {
    assert Pow10(10) == 10000000000 by { assert Pow10(5) == 100000; }
    assert Pow10(15) == 1000000000000000;
    assert Pow10(20) == 100000000000000000000;
  }

  lemma SegmentSmall(n: u32)
    ensures n < Pow10(10)
  {
    assert Pow10(5) == 100000;
    assert Pow10(10) == 10000000000;
  }

  // The text of an envelope: at most six bytes for each byte of its strings, besides what
  // its raw messages, its error and its chunk take.
  lemma EnvelopeSize(e: Envelope)
    requires Encodable(e)
    ensures var tail := Size(OptRaw("payload", e.payload, OptError(e.error, OptChunk(e.chunk, NoMembers))));
            tail <= |Marshal(e)| <=
            tail + 6 * (|e.kind| + |e.clientID| + |e.streamID| + |e.requestID| + |e.cursor| + |e.operation|) + 200
  {
    hide Size, StringField, NumberField, OptString, OptNumber, OptRaw, OptError, OptChunk, Pow10;
    var m8 := OptRaw("payload", e.payload, OptError(e.error, OptChunk(e.chunk, NoMembers)));
    var m7 := OptString("operation", e.operation, m8);
    var m6 := OptString("cursor", e.cursor, m7);
    var m5 := OptString("requestID", e.requestID, m6);
    var m4 := OptNumber("seqID", e.seqID, m5);
    var m3 := OptString("streamID", e.streamID, m4);
    var m2 := OptString("clientID", e.clientID, m3);
    var m1 := StringField("type", e.kind, m2);
    StringSize("operation", e.operation, m8);
    StringSize("cursor", e.cursor, m7);
    StringSize("requestID", e.requestID, m6);
    SeqSmall(e.seqID);
    NumberSize("seqID", e.seqID, 20, m5);
    StringSize("streamID", e.streamID, m4);
    StringSize("clientID", e.clientID, m3);
    StringSize("type", e.kind, m2);
    SeqSmall(PROTOCOL_VERSION);
    NumberSize("protocolVersion", PROTOCOL_VERSION, 20, m1);
    MarshalSize(e);
  }

  lemma MarshalSize(e: Envelope)
    requires Encodable(e)
    ensures |Marshal(e)| == 1 + Size(EnvelopeMembers(e))
  {
    hide PrintMembers, EnvelopeMembers;
  }

  lemma PayloadSize(e: Envelope)
    requires Encodable(e)
    ensures e.payload != "" ==> |Print(RawValue(e.payload))| <= |Marshal(e)|
  {
    hide Size, RawValue, Marshal, OptError, OptChunk, Print, ParseText;
    EnvelopeSize(e);
    if e.payload != "" {
      FieldSize("payload", RawValue(e.payload), OptError(e.error, OptChunk(e.chunk, NoMembers)));
    }
  }

  lemma ChunkSize(c: Chunk)
    ensures Size(OptChunk(Present(c), NoMembers)) <= 6 * |c.messageChunkBase64| + 200
    ensures |Quote(c.messageChunkBase64)| <= |c.messageChunkBase64| ==>
              Size(OptChunk(Present(c), NoMembers)) <= |c.messageChunkBase64| + 200
  {
    hide Size, StringField, NumberField, Pow10, Quote, Field, Print;
    var m3 := StringField("messageChunkBase64", c.messageChunkBase64, NoMembers);
    var m2 := NumberField("messageSizeBytes", c.messageSizeBytes, m3);
    var m1 := NumberField("segmentCount", c.segmentCount, m2);
    NothingSize();
    QuotedSize("messageChunkBase64", c.messageChunkBase64, NoMembers);
    StringSize("messageChunkBase64", c.messageChunkBase64, NoMembers);
    SeqSmall(c.messageSizeBytes);
    NumberSize("messageSizeBytes", c.messageSizeBytes, 20, m3);
    SegmentSmall(c.segmentCount);
    NumberSize("segmentCount", c.segmentCount, 10, m2);
    SegmentSmall(c.segmentID);
    NumberSize("segmentID", c.segmentID, 10, m1);
    ObjectSize(ChunkMembers(c));
    FieldSize("chunk", Obj(ChunkMembers(c)), NoMembers);
  }

  lemma NothingSize()
    ensures Size(NoMembers) == 1
  {
  }

  lemma ObjectSize(members: Members)
    ensures |Print(Obj(members))| == 1 + Size(members)
  {
    hide PrintMembers;
  }

  lemma QuotedSize(key: string, s: string, rest: Members)
    ensures Size(StringField(key, s, rest)) <= Size(rest) + |Quote(s)| + |key| + 6
  {
    hide Quote, Size, Field;
    FieldSize(key, Str(Quote(s)), rest);
  }
}

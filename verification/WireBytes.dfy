// What is marshalled from byte strings is a byte string.
module WireBytes {
  import opened JsonString
  import opened JsonNumber
  import opened Json
  import opened JsonCompact
  import opened Wire
  import opened Base64
  import Text

  // Every literal of the value is a byte string.
  predicate ByteValue(v: Json) {
    match v
    case Num(literal) => IsBytes(literal)
    case Str(body) => IsBytes(body)
    case Arr(items) => ByteItems(items)
    case Obj(members) => ByteMembers(members)
    case _ => true
  }

  predicate ByteItems(items: Items) {
    match items
    case NoItems => true
    case Item(head, tail) => ByteValue(head) && ByteItems(tail)
  }

  predicate ByteMembers(members: Members) {
    match members
    case NoMembers => true
    case Member(key, value, _, tail) => IsBytes(key) && ByteValue(value) && ByteMembers(tail)
  }

  // ---------- strings ----------

  lemma QuoteHeadBytes(s: string)
    requires s != ""
    ensures IsBytes(QuoteHead(s))
  {
  }

  // A written string is bytes whatever was written.
  lemma {:induction false} QuoteBytes(s: string)
    ensures IsBytes(Quote(s))
    decreases |s|
  {
    hide QuoteHead, Head;
    if s == "" {
    } else {
      QuoteHeadBytes(s);
      QuoteBytes(s[Head(s)..]);
    }
  }

  lemma {:induction false} EscapeBodyBytes(b: string)
    requires IsBytes(b)
    ensures IsBytes(EscapeBody(b))
    decreases |b|
  {
    hide ReadLen;
    if b == "" {
    } else {
      EscapeBodyBytes(b[ReadLen(b)..]);
    }
  }

  // ---------- reading ----------

  lemma {:induction false} SkipBytes(s: string)
    requires IsBytes(s)
    ensures IsBytes(SkipSpace(s))
    decreases |s|
  {
    if s == "" || !IsSpace(s[0]) {
    } else {
      SkipBytes(s[1..]);
    }
  }

  lemma StringBytes(s: string)
    requires s != "" && IsBytes(s)
    ensures var r := ParseString(s); r.Done? ==> IsBytes(r.value.body) && IsBytes(r.rest)
  {
    hide BodyLen;
  }

  lemma {:induction false} ParsedBytes(s: string, depth: nat)
    requires IsBytes(s)
    ensures var r := ParseValue(s, depth); r.Done? ==> ByteValue(r.value) && IsBytes(r.rest)
    decreases |s|, 0
  {
    hide NumberLen, ParseString, ParseItems, ParseMembers, SkipSpace;
    if s == "" {
    } else {
      StringBytes(s);
      SkipBytes(s[1..]);
      if depth > 0 {
        ParsedItemsBytes(SkipSpace(s[1..]), depth - 1);
        ParsedMembersBytes(SkipSpace(s[1..]), depth - 1);
      }
    }
  }

  lemma {:induction false} ParsedItemsBytes(s: string, depth: nat)
    requires IsBytes(s)
    ensures var r := ParseItems(s, depth); r.Done? ==> ByteItems(r.value) && IsBytes(r.rest)
    decreases |s|, 1
  {
    hide ParseValue, ByteValue, SkipSpace, IsBytes;
    ParsedBytes(s, depth);
    var head := ParseValue(s, depth);
    if head.Done? {
      SkipBytes(head.rest);
      var t := SkipSpace(head.rest);
      AfterMark(t);
      if Text.HasPrefix(t, ",") {
        SkipBytes(t[1..]);
        ParsedItemsBytes(SkipSpace(t[1..]), depth);
      }
    }
  }

  lemma AfterMark(t: string)
    requires IsBytes(t)
    ensures t != "" ==> IsBytes(t[1..])
  {
  }

  lemma {:induction false} ParsedMembersBytes(s: string, depth: nat)
    requires IsBytes(s)
    ensures var r := ParseMembers(s, depth); r.Done? ==> ByteMembers(r.value) && IsBytes(r.rest)
    decreases |s|, 1
  {
    hide ParseValue, ParseString, ByteValue, SkipSpace, IsBytes, AfterColon;
    if !Text.HasPrefix(s, "\"") || ParseString(s).Fail? {
    } else {
      StringBytes(s);
      var key := ParseString(s);
      SkipBytes(key.rest);
      var t := SkipSpace(key.rest);
      AfterMark(t);
      if Text.HasPrefix(t, ":") {
        SkipBytes(t[1..]);
        var v := SkipSpace(t[1..]);
        ParsedBytes(v, depth);
        AfterColonBytes(key.value.body, v, ParseValue(v, depth), depth);
      }
    }
  }

  lemma {:induction false} AfterColonBytes(key: string, v: string, value: Parsed<Json>, depth: nat)
    requires value.Done? ==> |value.rest| < |v| && ByteValue(value.value) && IsBytes(value.rest)
    requires IsBytes(key)
    ensures var r := AfterColon(key, v, value, depth); r.Done? ==> ByteMembers(r.value) && IsBytes(r.rest)
    decreases |v|, 0
  {
    hide ParseMembers, ByteValue, SkipSpace, IsBytes;
    if value.Fail? {
    } else {
      SkipBytes(value.rest);
      var u := SkipSpace(value.rest);
      AfterMark(u);
      if Text.HasPrefix(u, ",") {
        SkipBytes(u[1..]);
        ParsedMembersBytes(SkipSpace(u[1..]), depth);
      }
    }
  }

  // ---------- writing ----------

  lemma {:induction false} EscapedBytes(v: Json)
    requires ByteValue(v)
    ensures ByteValue(Escaped(v))
    decreases v
  {
    hide EscapeBody, IsBytes, Print;
    match v
    case Str(body) => EscapeBodyBytes(body);
    case Arr(items) => EscapedItemsBytes(items);
    case Obj(members) => EscapedMembersBytes(members);
    case _ =>
  }

  lemma {:induction false} EscapedItemsBytes(items: Items)
    requires ByteItems(items)
    ensures ByteItems(EscapedItems(items))
    decreases items
  {
    if items == NoItems {
    } else {
      EscapedBytes(items.head);
      EscapedItemsBytes(items.tail);
    }
  }

  lemma {:induction false} EscapedMembersBytes(members: Members)
    requires ByteMembers(members)
    ensures ByteMembers(EscapedMembers(members))
    decreases members
  {
    hide EscapeBody, IsBytes, Print;
    if members == NoMembers {
    } else {
      EscapeBodyBytes(members.key);
      EscapedBytes(members.value);
      EscapedMembersBytes(members.tail);
    }
  }

  lemma {:induction false} PrintBytes(v: Json)
    requires ByteValue(v)
    ensures IsBytes(Print(v))
    decreases v
  {
    match v
    case Arr(items) => PrintItemsBytes(items);
    case Obj(members) => PrintMembersBytes(members);
    case _ =>
  }

  lemma {:induction false} PrintItemsBytes(items: Items)
    requires ByteItems(items)
    ensures IsBytes(PrintItems(items))
    decreases items
  {
    if items == NoItems {
    } else {
      PrintBytes(items.head);
      PrintItemsBytes(items.tail);
    }
  }

  lemma {:induction false} PrintMembersBytes(members: Members)
    requires ByteMembers(members)
    ensures IsBytes(PrintMembers(members))
    decreases members
  {
    if members == NoMembers {
    } else {
      PrintBytes(members.value);
      PrintMembersBytes(members.tail);
    }
  }

  // ---------- an envelope ----------

  // A raw message is a value of bytes if it is one.
  lemma RawBytes(raw: string)
    requires IsBytes(raw) && ParseText(raw).WellFormed?
    ensures ByteValue(RawValue(raw))
  {
    hide ParseValue, Escaped, IsBytes;
    SkipBytes(raw);
    ParsedBytes(SkipSpace(raw), MAX_NESTING);
    EscapedBytes(ParseText(raw).value);
  }

  lemma FieldBytes(key: string, value: Json, rest: Members)
    requires IsBytes(key) && ByteValue(value) && ByteMembers(rest)
    ensures ByteMembers(Field(key, value, rest))
  {
    hide Print;
  }

  lemma StringFieldBytes(key: string, s: string, rest: Members)
    requires IsBytes(key) && ByteMembers(rest)
    ensures ByteMembers(StringField(key, s, rest)) && ByteMembers(OptString(key, s, rest))
  {
    hide Quote, ByteMembers, IsBytes, Field;
    QuoteBytes(s);
    FieldBytes(key, Str(Quote(s)), rest);
  }

  lemma NumberFieldBytes(key: string, n: nat, rest: Members)
    requires IsBytes(key) && ByteMembers(rest)
    ensures ByteMembers(NumberField(key, n, rest)) && ByteMembers(OptNumber(key, n, rest))
  {
    hide Decimal, ByteMembers, Field;
    DecimalReads(n);
    FieldBytes(key, Num(Decimal(n)), rest);
  }

  lemma RawFieldBytes(key: string, raw: string, rest: Members)
    requires IsBytes(key) && ByteMembers(rest) && IsBytes(raw)
    requires raw == "" || ParseText(raw).WellFormed?
    ensures ByteMembers(OptRaw(key, raw, rest))
  {
    hide ByteMembers, ByteValue, IsBytes, Field, RawValue, ParseText;
    if raw != "" {
      RawBytes(raw);
      FieldBytes(key, RawValue(raw), rest);
    }
  }

  predicate ByteRaws(e: Envelope) {
    IsBytes(e.payload) && (e.error.Present? ==> IsBytes(e.error.value.details))
  }

  lemma NamesAreBytes()
    ensures IsBytes("protocolVersion") && IsBytes("type") && IsBytes("clientID") && IsBytes("streamID")
    ensures IsBytes("seqID") && IsBytes("requestID") && IsBytes("cursor") && IsBytes("operation")
    ensures IsBytes("payload") && IsBytes("error") && IsBytes("chunk")
    ensures IsBytes("code") && IsBytes("message") && IsBytes("retryable") && IsBytes("details")
    ensures IsBytes("segmentID") && IsBytes("segmentCount")
    ensures IsBytes("messageSizeBytes") && IsBytes("messageChunkBase64")
  {
  }

  lemma ErrorBytes(e: RemoteError)
    requires IsBytes(e.details) && (e.details == "" || ParseText(e.details).WellFormed?)
    ensures ByteMembers(ErrorMembers(e))
  {
    hide ByteMembers, IsBytes, StringField, OptRaw, ParseText;
    NamesAreBytes();
    NoMembersBytes();
    var details := OptRaw("details", e.details, NoMembers);
    RawFieldBytes("details", e.details, NoMembers);
    FieldBytes("retryable", Bool(true), details);
    var more := if e.retryable then Field("retryable", Bool(true), details) else details;
    StringFieldBytes("message", e.message, more);
    StringFieldBytes("code", e.code, StringField("message", e.message, more));
  }

  lemma NoMembersBytes()
    ensures ByteMembers(NoMembers)
  {
  }

  lemma ChunkBytes(c: Chunk)
    ensures ByteMembers(ChunkMembers(c))
  {
    hide ByteMembers, IsBytes, StringField, NumberField;
    NamesAreBytes();
    NoMembersBytes();
    var m3 := StringField("messageChunkBase64", c.messageChunkBase64, NoMembers);
    var m2 := NumberField("messageSizeBytes", c.messageSizeBytes, m3);
    var m1 := NumberField("segmentCount", c.segmentCount, m2);
    StringFieldBytes("messageChunkBase64", c.messageChunkBase64, NoMembers);
    NumberFieldBytes("messageSizeBytes", c.messageSizeBytes, m3);
    NumberFieldBytes("segmentCount", c.segmentCount, m2);
    NumberFieldBytes("segmentID", c.segmentID, m1);
  }

  lemma TailBytes(e: Envelope)
    requires Encodable(e) && ByteRaws(e)
    ensures ByteMembers(OptRaw("payload", e.payload, OptError(e.error, OptChunk(e.chunk, NoMembers))))
  {
    hide ByteMembers, IsBytes, OptRaw, ParseText, Print;
    NamesAreBytes();
    NoMembersBytes();
    if e.chunk.Present? {
      ChunkBytes(e.chunk.value);
      FieldBytes("chunk", Obj(ChunkMembers(e.chunk.value)), NoMembers);
    }
    if e.error.Present? {
      ErrorBytes(e.error.value);
      FieldBytes("error", Obj(ErrorMembers(e.error.value)), OptChunk(e.chunk, NoMembers));
    }
    RawFieldBytes("payload", e.payload, OptError(e.error, OptChunk(e.chunk, NoMembers)));
  }

  // An envelope whose raw messages are bytes is marshalled to bytes, whatever its strings.
  lemma MarshalBytes(e: Envelope)
    requires Encodable(e) && ByteRaws(e)
    ensures IsBytes(Marshal(e))
  {
    hide ByteMembers, IsBytes, StringField, NumberField, OptString, OptNumber, OptRaw, OptError, OptChunk, Print;
    NamesAreBytes();
    TailBytes(e);
    var m8 := OptRaw("payload", e.payload, OptError(e.error, OptChunk(e.chunk, NoMembers)));
    var m7 := OptString("operation", e.operation, m8);
    var m6 := OptString("cursor", e.cursor, m7);
    var m5 := OptString("requestID", e.requestID, m6);
    var m4 := OptNumber("seqID", e.seqID, m5);
    var m3 := OptString("streamID", e.streamID, m4);
    var m2 := OptString("clientID", e.clientID, m3);
    var m1 := StringField("type", e.kind, m2);
    StringFieldBytes("operation", e.operation, m8);
    StringFieldBytes("cursor", e.cursor, m7);
    StringFieldBytes("requestID", e.requestID, m6);
    NumberFieldBytes("seqID", e.seqID, m5);
    StringFieldBytes("streamID", e.streamID, m4);
    StringFieldBytes("clientID", e.clientID, m3);
    StringFieldBytes("type", e.kind, m2);
    NumberFieldBytes("protocolVersion", PROTOCOL_VERSION, m1);
    PrintBytes(Obj(EnvelopeMembers(e)));
  }
}

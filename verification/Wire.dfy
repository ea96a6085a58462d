// The Remote Control wire contract (protocol/remotecontrol/protocol.go).
module Wire {
  import opened Options
  import opened Text
  import opened JsonString
  import opened JsonNumber
  import opened Json
  import opened JsonCompact
  import Base64

  const PROTOCOL_VERSION := 1
  const MAX_IDENTIFIER := 128
  const MAX_CURSOR := 1024
  const MAX_FRAME := 256 * 1024
  const MAX_MESSAGE := 8 * 1024 * 1024
  const MAX_CHUNKS := 64

  type u32 = n: nat | n < 0x1_0000_0000

  type u64 = n: nat | n < 0x1_0000_0000_0000_0000

  datatype RemoteError = RemoteError(code: string, message: string, retryable: bool, details: string)

  datatype Chunk = Chunk(segmentID: u32, segmentCount: u32, messageSizeBytes: u64, messageChunkBase64: string)

  // A nil and an empty raw message are alike here: "".
  datatype Envelope = Envelope(
    protocolVersion: int, kind: string, clientID: string, streamID: string, seqID: u64, requestID: string,
    cursor: string, operation: string, payload: string, error: Maybe<RemoteError>, chunk: Maybe<Chunk>)

  const EMPTY := Envelope(0, "", "", "", 0, "", "", "", "", Absent, Absent)

  // ---------- validation ----------

  const INVALID_ENVELOPE := "invalid_envelope"
  const OPERATION_DENIED := "operation_denied"
  const PROTOCOL_INCOMPATIBLE := "protocol_incompatible"

  datatype Verdict = Valid | Invalid(code: string)

  const KNOWN_KINDS := {"request", "response", "event", "ack", "ping", "pong", "close", "chunk"}

  const KNOWN_OPERATIONS := {
    "connection.handshake", "environment.status", "workspace.list", "agent.list", "model.list",
    "thread.list", "thread.create", "thread.snapshot", "thread.submit", "thread.interrupt",
    "thread.continue", "thread.steer", "thread.followUp", "thread.queue.remove", "thread.queue.promote",
    "message.reply", "message.markRead", "file.list", "file.stat", "file.search",
    "file.preview.open", "file.preview.chunk"}

  function ValidateChunk(c: Chunk): Verdict {
    if c.segmentCount == 0 || c.segmentCount > MAX_CHUNKS || c.segmentID >= c.segmentCount then
      Invalid(INVALID_ENVELOPE)
    else if c.messageSizeBytes == 0 || c.messageSizeBytes > MAX_MESSAGE || c.messageChunkBase64 == "" then
      Invalid(INVALID_ENVELOPE)
    else if |c.messageChunkBase64| > MAX_FRAME then Invalid(INVALID_ENVELOPE)
    else
      match Base64.Decode(c.messageChunkBase64)
      case Corrupt => Invalid(INVALID_ENVELOPE)
      case Bytes(bytes) => if bytes == "" then Invalid(INVALID_ENVELOPE) else Valid
  }

  predicate IdentifiersFit(e: Envelope) {
    |e.clientID| <= MAX_IDENTIFIER && |e.streamID| <= MAX_IDENTIFIER && |e.requestID| <= MAX_IDENTIFIER
    && |e.cursor| <= MAX_CURSOR
  }

  predicate PayloadIsJson(e: Envelope) {
    e.payload == "" || ParseText(e.payload).WellFormed?
  }

  // The part of Validate that depends on the envelope's kind.
  function ValidateKind(e: Envelope): Verdict {
    var streamed := e.streamID != "" && e.seqID != 0;
    match e.kind
    case "request" =>
      if !streamed || e.requestID == "" || e.operation == "" then Invalid(INVALID_ENVELOPE)
      else if e.operation !in KNOWN_OPERATIONS then Invalid(OPERATION_DENIED)
      else Valid
    case "response" =>
      if !streamed || e.requestID == "" || (e.payload != "" && e.error.Present?) then Invalid(INVALID_ENVELOPE)
      else Valid
    case "event" =>
      if !streamed || e.operation == "" then Invalid(INVALID_ENVELOPE)
      else if e.operation !in KNOWN_OPERATIONS then Invalid(OPERATION_DENIED)
      else Valid
    case "ack" => if !streamed then Invalid(INVALID_ENVELOPE) else Valid
    case "close" => if e.streamID == "" then Invalid(INVALID_ENVELOPE) else Valid
    case "chunk" =>
      if !streamed || e.chunk.Absent? then Invalid(INVALID_ENVELOPE) else ValidateChunk(e.chunk.value)
    case _ => Valid
  }

  function Validate(e: Envelope): Verdict {
    if e.protocolVersion != PROTOCOL_VERSION then Invalid(PROTOCOL_INCOMPATIBLE)
    else if e.kind !in KNOWN_KINDS || e.clientID == "" || !IdentifiersFit(e) then Invalid(INVALID_ENVELOPE)
    else if |e.payload| > MAX_MESSAGE || !PayloadIsJson(e) then Invalid(INVALID_ENVELOPE)
    else ValidateKind(e)
  }

  // ---------- json.Marshal of an envelope ----------

  predicate DetailsAreJson(e: Envelope) {
    e.error.Present? ==> e.error.value.details == "" || ParseText(e.error.value.details).WellFormed?
  }

  predicate Encodable(e: Envelope) {
    PayloadIsJson(e) && DetailsAreJson(e)
  }

  function Field(key: string, value: Json, rest: Members): Members {
    Member(key, value, Print(value), rest)
  }

  function StringField(key: string, s: string, rest: Members): Members {
    Field(key, Str(Quote(s)), rest)
  }

  // A string field with omitempty.
  function OptString(key: string, s: string, rest: Members): Members {
    if s == "" then rest else StringField(key, s, rest)
  }

  function NumberField(key: string, n: nat, rest: Members): Members {
    Field(key, Num(Decimal(n)), rest)
  }

  function OptNumber(key: string, n: nat, rest: Members): Members {
    if n == 0 then rest else NumberField(key, n, rest)
  }

  // The value a raw message is written as.
  function RawValue(raw: string): Json
    requires ParseText(raw).WellFormed?
  {
    Escaped(ParseText(raw).value)
  }

  function OptRaw(key: string, raw: string, rest: Members): Members
    requires raw == "" || ParseText(raw).WellFormed?
  {
    if raw == "" then rest else Field(key, RawValue(raw), rest)
  }

  function ErrorMembers(e: RemoteError): Members
    requires e.details == "" || ParseText(e.details).WellFormed?
  {
    StringField("code", e.code,
    StringField("message", e.message,
    if e.retryable then Field("retryable", Bool(true), OptRaw("details", e.details, NoMembers))
    else OptRaw("details", e.details, NoMembers)))
  }

  function ChunkMembers(c: Chunk): Members {
    NumberField("segmentID", c.segmentID,
    NumberField("segmentCount", c.segmentCount,
    NumberField("messageSizeBytes", c.messageSizeBytes,
    StringField("messageChunkBase64", c.messageChunkBase64, NoMembers))))
  }

  function OptError(error: Maybe<RemoteError>, rest: Members): Members
    requires error.Present? ==> error.value.details == "" || ParseText(error.value.details).WellFormed?
  {
    if error.Absent? then rest else Field("error", Obj(ErrorMembers(error.value)), rest)
  }

  function OptChunk(chunk: Maybe<Chunk>, rest: Members): Members {
    if chunk.Absent? then rest else Field("chunk", Obj(ChunkMembers(chunk.value)), rest)
  }

  // The fields in declaration order; only an envelope of version 1 is ever marshalled.
  function EnvelopeMembers(e: Envelope): Members
    requires Encodable(e)
  {
    NumberField("protocolVersion", PROTOCOL_VERSION,
    StringField("type", e.kind,
    OptString("clientID", e.clientID,
    OptString("streamID", e.streamID,
    OptNumber("seqID", e.seqID,
    OptString("requestID", e.requestID,
    OptString("cursor", e.cursor,
    OptString("operation", e.operation,
    OptRaw("payload", e.payload,
    OptError(e.error,
    OptChunk(e.chunk, NoMembers)))))))))))
  }

  function Marshal(e: Envelope): string
    requires Encodable(e)
  {
    Print(Obj(EnvelopeMembers(e)))
  }

  // ---------- json.Unmarshal into an envelope ----------

  // Go folds letter case to match a member to a field. Outside ASCII two runes fold to an
  // ASCII letter, U+017F to "s" and U+212A to "k".
  function FoldWidth(s: string): (n: nat)
    requires s != ""
    ensures 1 <= n <= |s|
  {
    if |s| >= 2 && s[0] == '\U{C5}' && s[1] == '\U{BF}' then 2
    else if |s| >= 3 && s[0] == '\U{E2}' && s[1] == '\U{84}' && s[2] == '\U{AA}' then 3
    else 1
  }

  function Fold(s: string): string
    decreases |s|
  {
    if s == "" then ""
    else
      var c := if FoldWidth(s) == 2 then 's' else if FoldWidth(s) == 3 then 'k' else LowerChar(s[0]);
      [c] + Fold(s[FoldWidth(s)..])
  }

  // The member's key names the field.
  predicate Names(key: string, field: string) {
    var folded := Fold(key);
    |folded| == |field| && forall i :: 0 <= i < |field| ==> folded[i] == LowerChar(field[i])
  }

  function SetString(was: string, value: Json): Maybe<string> {
    match value
    case Null => Present(was)
    case Str(body) => Present(Unquote(body))
    case _ => Absent
  }

  function SetBool(was: bool, value: Json): Maybe<bool> {
    match value
    case Null => Present(was)
    case Bool(b) => Present(b)
    case _ => Absent
  }

  // An unsigned integer below the bound of its type.
  function SetUint(was: nat, value: Json, bound: nat): (r: Maybe<nat>)
    ensures was < bound && r.Present? ==> r.value < bound
  {
    match value
    case Null => Present(was)
    case Num(literal) =>
      if AllDigits(literal) && Undecimal(literal) < bound then Present(Undecimal(literal)) else Absent
    case _ => Absent
  }

  function SetInt(was: int, value: Json): Maybe<int> {
    match value
    case Null => Present(was)
    case Num(literal) =>
      if AllDigits(literal) && Undecimal(literal) < 0x8000_0000_0000_0000 then Present(Undecimal(literal))
      else if HasPrefix(literal, "-") && AllDigits(literal[1..]) && Undecimal(literal[1..]) <= 0x8000_0000_0000_0000
      then
        Present(0 - (Undecimal(literal[1..]) as int))
      else Absent
    case _ => Absent
  }

  function SetErrorField(e: RemoteError, key: string, value: Json, raw: string): Maybe<RemoteError> {
    if Names(key, "code") then
      var r := SetString(e.code, value);
      if r.Present? then Present(e.(code := r.value)) else Absent
    else if Names(key, "message") then
      var r := SetString(e.message, value);
      if r.Present? then Present(e.(message := r.value)) else Absent
    else if Names(key, "retryable") then
      var r := SetBool(e.retryable, value);
      if r.Present? then Present(e.(retryable := r.value)) else Absent
    else if Names(key, "details") then Present(e.(details := raw))
    else Present(e)
  }

  function FillError(e: RemoteError, members: Members): Maybe<RemoteError>
    decreases members
  {
    match members
    case NoMembers => Present(e)
    case Member(key, value, raw, tail) =>
      var r := SetErrorField(e, Unquote(key), value, raw);
      if r.Present? then FillError(r.value, tail) else Absent
  }

  function SetChunkField(c: Chunk, key: string, value: Json): Maybe<Chunk> {
    if Names(key, "segmentID") then
      var r := SetUint(c.segmentID, value, 0x1_0000_0000);
      if r.Present? then Present(c.(segmentID := r.value)) else Absent
    else if Names(key, "segmentCount") then
      var r := SetUint(c.segmentCount, value, 0x1_0000_0000);
      if r.Present? then Present(c.(segmentCount := r.value)) else Absent
    else if Names(key, "messageSizeBytes") then
      var r := SetUint(c.messageSizeBytes, value, 0x1_0000_0000_0000_0000);
      if r.Present? then Present(c.(messageSizeBytes := r.value)) else Absent
    else if Names(key, "messageChunkBase64") then
      var r := SetString(c.messageChunkBase64, value);
      if r.Present? then Present(c.(messageChunkBase64 := r.value)) else Absent
    else Present(c)
  }

  function FillChunk(c: Chunk, members: Members): Maybe<Chunk>
    decreases members
  {
    match members
    case NoMembers => Present(c)
    case Member(key, value, raw, tail) =>
      var r := SetChunkField(c, Unquote(key), value);
      if r.Present? then FillChunk(r.value, tail) else Absent
  }

  // A pointer field: null clears it, an object fills what it points to.
  function SetError(was: Maybe<RemoteError>, value: Json): Maybe<Maybe<RemoteError>> {
    match value
    case Null => Present(Absent)
    case Obj(members) =>
      var r := FillError(if was.Present? then was.value else RemoteError("", "", false, ""), members);
      if r.Present? then Present(r) else Absent
    case _ => Absent
  }

  function SetChunk(was: Maybe<Chunk>, value: Json): Maybe<Maybe<Chunk>> {
    match value
    case Null => Present(Absent)
    case Obj(members) =>
      var r := FillChunk(if was.Present? then was.value else Chunk(0, 0, 0, ""), members);
      if r.Present? then Present(r) else Absent
    case _ => Absent
  }

  datatype FieldName =
    | FVersion | FType | FClient | FStream | FSeq | FRequest | FCursor | FOperation | FPayload | FError | FChunk
    | FUnknown

  function FieldOf(key: string): FieldName {
    if Names(key, "protocolVersion") then FVersion
    else if Names(key, "type") then FType
    else if Names(key, "clientID") then FClient
    else if Names(key, "streamID") then FStream
    else if Names(key, "seqID") then FSeq
    else if Names(key, "requestID") then FRequest
    else if Names(key, "cursor") then FCursor
    else if Names(key, "operation") then FOperation
    else if Names(key, "payload") then FPayload
    else if Names(key, "error") then FError
    else if Names(key, "chunk") then FChunk
    else FUnknown
  }

  function SetField(e: Envelope, name: FieldName, value: Json, raw: string): Maybe<Envelope> {
    match name
    case FVersion =>
      var r := SetInt(e.protocolVersion, value);
      if r.Present? then Present(e.(protocolVersion := r.value)) else Absent
    case FType =>
      var r := SetString(e.kind, value);
      if r.Present? then Present(e.(kind := r.value)) else Absent
    case FClient =>
      var r := SetString(e.clientID, value);
      if r.Present? then Present(e.(clientID := r.value)) else Absent
    case FStream =>
      var r := SetString(e.streamID, value);
      if r.Present? then Present(e.(streamID := r.value)) else Absent
    case FSeq =>
      var r := SetUint(e.seqID, value, 0x1_0000_0000_0000_0000);
      if r.Present? then Present(e.(seqID := r.value)) else Absent
    case FRequest =>
      var r := SetString(e.requestID, value);
      if r.Present? then Present(e.(requestID := r.value)) else Absent
    case FCursor =>
      var r := SetString(e.cursor, value);
      if r.Present? then Present(e.(cursor := r.value)) else Absent
    case FOperation =>
      var r := SetString(e.operation, value);
      if r.Present? then Present(e.(operation := r.value)) else Absent
    case FPayload => Present(e.(payload := raw))
    case FError =>
      var r := SetError(e.error, value);
      if r.Present? then Present(e.(error := r.value)) else Absent
    case FChunk =>
      var r := SetChunk(e.chunk, value);
      if r.Present? then Present(e.(chunk := r.value)) else Absent
    case FUnknown => Present(e)
  }

  function Fill(e: Envelope, members: Members): Maybe<Envelope>
    decreases members
  {
    match members
    case NoMembers => Present(e)
    case Member(key, value, raw, tail) =>
      var r := SetField(e, FieldOf(Unquote(key)), value, raw);
      if r.Present? then Fill(r.value, tail) else Absent
  }

  function Unmarshal(data: string): Maybe<Envelope> {
    match ParseText(data)
    case Malformed => Absent
    case WellFormed(Null) => Present(EMPTY)
    case WellFormed(Obj(members)) => Fill(EMPTY, members)
    case WellFormed(_) => Absent
  }

  // ---------- the public operations ----------

  datatype Encoding = Encoded(data: string) | NotEncoded(code: string)

  datatype DecodedEnvelope = Decoded(envelope: Envelope) | NotDecoded(code: string)

  function EncodeMessage(e: Envelope): Encoding {
    match Validate(e)
    case Invalid(code) => NotEncoded(code)
    case Valid =>
      if !DetailsAreJson(e) then NotEncoded(INVALID_ENVELOPE)
      else
        ValidIsEncodable(e);
        if |Marshal(e)| > MAX_MESSAGE then NotEncoded(INVALID_ENVELOPE) else Encoded(Marshal(e))
  }

  lemma ValidIsEncodable(e: Envelope)
    requires Validate(e).Valid? && DetailsAreJson(e)
    ensures Encodable(e)
  {
    hide ParseText;
  }

  function EncodeEnvelope(e: Envelope): Encoding {
    match EncodeMessage(e)
    case NotEncoded(code) => NotEncoded(code)
    case Encoded(data) => if |data| > MAX_FRAME then NotEncoded(INVALID_ENVELOPE) else Encoded(data)
  }

  function DecodeEnvelope(data: string): DecodedEnvelope {
    if |data| > MAX_FRAME then NotDecoded(INVALID_ENVELOPE)
    else
      match Unmarshal(data)
      case Absent => NotDecoded(INVALID_ENVELOPE)
      case Present(e) =>
        match Validate(e)
        case Invalid(code) => NotDecoded(code)
        case Valid => Decoded(e)
  }
}

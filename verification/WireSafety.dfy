// What never stands in an encoded envelope, characters that HTML or JavaScript could take
// amiss, and which members it has.
module WireSafety {
  import opened Json
  import opened JsonCompact
  import opened JsonNumber
  import opened JsonString
  import opened Options
  import opened Utf8
  import opened Wire
  import opened WireRoundTrip

  // No control character, none of HTML's, and neither U+2028 nor U+2029.
  predicate IsSafe(s: string) {
    forall i :: 0 <= i < |s| ==> s[i] >= ' ' && s[i] !in "<>&" && !StartsSeparator(s[i..])
  }

  predicate StartsSeparator(s: string) {
    "\U{E2}\U{80}\U{A8}" <= s || "\U{E2}\U{80}\U{A9}" <= s
  }

  lemma SeparatorMeaning(s: string)
    ensures StartsSeparator(s) <==> IsLineSeparator(s)
  {
  }

  lemma SafeConcat(a: string, b: string)
    requires IsSafe(a) && IsSafe(b) && (b == "" || b[0] <= '\U{7F}')
    ensures IsSafe(a + b)
  {
    var s := a + b;
    forall i | 0 <= i < |s| ensures s[i] >= ' ' && s[i] !in "<>&" && !StartsSeparator(s[i..]) {
      if i < |a| {
        SeparatorMeaning(a[i..]);
        SeparatorMeaning(s[i..]);
        assert forall k :: 0 <= k < |a| - i ==> s[i..][k] == a[i..][k];
        if |a| - i < 3 && b != "" { assert s[i..][|a| - i] == b[0]; }
      } else {
        assert s[i..] == b[i - |a|..];
      }
    }
  }

  // A step that was written is safe if its characters are and no separator starts with it.
  lemma SafeStep(e: string, rest: string)
    requires IsSafe(rest) && !StartsSeparator(e + rest)
    requires forall i :: 0 <= i < |e| ==> e[i] >= ' ' && e[i] !in "<>&"
    requires forall i :: 1 <= i < |e| ==> e[i] != '\U{E2}'
    ensures IsSafe(e + rest)
  {
    var s := e + rest;
    forall i | 0 <= i < |s| ensures s[i] >= ' ' && s[i] !in "<>&" && !StartsSeparator(s[i..]) {
      if i == 0 && e != "" {
        assert s[0..] == s;
      } else if i < |e| {
        assert s[i..][0] == e[i];
      } else {
        assert s[i..] == rest[i - |e|..];
      }
    }
  }

  // ---------- strings ----------

  lemma QuoteHeadSafe(s: string, rest: string)
    requires s != ""
    ensures var q := QuoteHead(s);
            && (forall i :: 0 <= i < |q| ==> q[i] >= ' ' && q[i] !in "<>&")
            && (forall i :: 1 <= i < |q| ==> q[i] != '\U{E2}')
            && !StartsSeparator(q + rest)
  {
    var q := QuoteHead(s);
    SeparatorMeaning(q + rest);
    assert forall i :: 0 <= i < |q| ==> (q + rest)[i] == q[i];
    if s[0] <= '\U{7F}' {
      AsciiSafe(s[0]);
    }
  }

  lemma AsciiSafe(c: char)
    requires c <= '\U{7F}'
    ensures var q := EscapeAscii(c);
            q != "" && forall i :: 0 <= i < |q| ==> ' ' <= q[i] <= '\U{7F}' && q[i] !in "<>&"
  {
  }

  lemma {:induction false} QuoteSafe(s: string)
    ensures IsSafe(Quote(s))
    decreases |s|
  {
    hide QuoteHead, IsSafe, StartsSeparator;
    if s == "" {
      NothingSafe();
    } else {
      var rest := Quote(s[Head(s)..]);
      QuoteSafe(s[Head(s)..]);
      QuoteHeadSafe(s, rest);
      SafeStep(QuoteHead(s), rest);
    }
  }

  lemma NothingSafe()
    ensures IsSafe("")
  {
  }

  predicate IsSafeAsciiText(s: string) {
    forall i :: 0 <= i < |s| ==> ' ' <= s[i] <= '\U{7F}' && s[i] !in "<>&"
  }

  lemma UnitSafe(b: string)
    requires UnitLen(b) >= 2
    ensures IsSafeAsciiText(b[..UnitLen(b)])
  {
  }

  lemma LowHalfSafe(b: string)
    requires |b| >= 12 && HasLowHalf(b, 6)
    ensures IsSafeAsciiText(b[6..12])
  {
    hide Hex4;
  }

  lemma RuneSafe(b: string)
    requires UnitLen(b) == 1
    ensures var e := EscapeHead(b);
            && (forall i :: 0 <= i < |e| ==> e[i] >= ' ' && e[i] !in "<>&")
            && (forall i :: 1 <= i < |e| ==> e[i] != '\U{E2}')
  {
  }

  lemma EscapeHeadSafe(b: string)
    requires b != "" && UnitLen(b) > 0
    ensures var e := EscapeHead(b);
            && (forall i :: 0 <= i < |e| ==> e[i] >= ' ' && e[i] !in "<>&")
            && (forall i :: 1 <= i < |e| ==> e[i] != '\U{E2}')
  {
    hide RuneLen, Hex4, HasLowHalf, IsHex4;
    if UnitLen(b) == 1 {
      RuneSafe(b);
    } else {
      UnitSafe(b);
      if ReadLen(b) == 12 {
        LowHalfSafe(b);
        assert b[..12] == b[..6] + b[6..12];
      }
    }
  }

  lemma {:induction false} EscapeBodySafe(b: string)
    requires IsBody(b)
    ensures IsSafe(EscapeBody(b))
    decreases |b|
  {
    hide EscapeHead, EscapeBody, IsSafe, StartsSeparator, ReadLen, UnitLen;
    EscapeBodyEmpty();
    if b == "" {
      NothingSafe();
    } else {
      BodySplits(b);
      EscapeBodySafe(b[ReadLen(b)..]);
      EscapeBodyStep(b);
      EscapeHeadSafe(b);
      LineSeparatorStays(b);
      SeparatorMeaning(EscapeBody(b));
      SafeStep(EscapeHead(b), EscapeBody(b[ReadLen(b)..]));
    }
  }

  // How many characters are written for what s begins with: one for itself, two for the
  // short escapes, six for any other.
  function QuotedWidth(s: string): nat
    requires s != ""
  {
    if s[0] in "\"\\\n\r\t" || s[0] == '\U{8}' || s[0] == '\U{C}' then 2
    else if s[0] < ' ' || s[0] in "<>&" || RuneLen(s) == 0 || StartsSeparator(s) then 6
    else RuneLen(s)
  }

  // A string is written with the shortest escapes, and none where none is needed; the longer
  // ones have their digits in small letters.
  lemma QuotedShort(s: string)
    requires s != ""
    ensures var q := QuoteHead(s);
            && |q| == QuotedWidth(s)
            && (|q| == 6 ==> q[..2] == "\\u" && forall i :: 2 <= i < 6 ==> q[i] in "0123456789abcdef")
  {
    SeparatorMeaning(s);
    if s[0] <= '\U{7F}' {
      SmallDigits(s[0]);
    }
  }

  lemma SmallDigits(c: char)
    requires c <= '\U{7F}'
    ensures var q := UnicodeEscape(c);
            |q| == 6 && q[..2] == "\\u" && forall i :: 2 <= i < 6 ==> q[i] in "0123456789abcdef"
  {
    SmallDigit(c as int / 16);
    SmallDigit(c as int % 16);
  }

  lemma SmallDigit(n: nat)
    requires n < 16
    ensures HexDigit(n) in "0123456789abcdef"
  {
    var digits := "0123456789abcdef";
    assert digits[n] in digits;
    assert forall k :: 0 <= k < 10 ==> digits[k] as int == 48 + k;
    assert forall k :: 10 <= k < 16 ==> digits[k] as int == 87 + k;
  }

  // The body of a raw literal that is safe already is kept as it is written.
  lemma {:induction false} SafeBodyKept(b: string)
    requires IsBody(b) && IsSafe(b)
    ensures EscapeBody(b) == b
    decreases |b|
  {
    hide EscapeHead, EscapeBody, StartsSeparator, ReadLen, UnitLen, IsSafe;
    EscapeBodyEmpty();
    if b == "" {
    } else {
      BodySplits(b);
      SafeHeadKept(b);
      SafeTail(b, ReadLen(b));
      SafeBodyKept(b[ReadLen(b)..]);
      EscapeBodyStep(b);
      assert b == b[..ReadLen(b)] + b[ReadLen(b)..];
    }
  }

  lemma SafeHeadKept(b: string)
    requires b != "" && IsSafe(b)
    ensures EscapeHead(b) == b[..ReadLen(b)]
  {
    hide ReadLen, StartsSeparator;
    SeparatorMeaning(b);
    assert b[0..] == b;
  }

  lemma SafeTail(b: string, n: nat)
    requires IsSafe(b) && n <= |b|
    ensures IsSafe(b[n..])
  {
    hide StartsSeparator;
    var t := b[n..];
    forall i | 0 <= i < |t| ensures t[i] >= ' ' && t[i] !in "<>&" && !StartsSeparator(t[i..]) {
      assert t[i..] == b[n + i..];
    }
  }

  // ---------- values ----------

  predicate SafeStrings(v: Json) {
    match v
    case Str(body) => IsSafe(body)
    case Arr(items) => SafeItems(items)
    case Obj(members) => SafeMembers(members)
    case _ => true
  }

  predicate SafeItems(items: Items) {
    match items
    case NoItems => true
    case Item(head, tail) => SafeStrings(head) && SafeItems(tail)
  }

  predicate SafeMembers(members: Members) {
    match members
    case NoMembers => true
    case Member(key, value, _, tail) => IsSafe(key) && SafeStrings(value) && SafeMembers(tail)
  }

  lemma AsciiTextSafe(s: string)
    requires forall i :: 0 <= i < |s| ==> ' ' <= s[i] <= '\U{7F}' && s[i] !in "<>&"
    ensures IsSafe(s)
  {
    forall i | 0 <= i < |s| ensures !StartsSeparator(s[i..]) {
      assert s[i..][0] == s[i];
    }
  }

  lemma NumberSafe(x: string)
    requires IsNumber(x)
    ensures IsSafe(x) && x != "" && x[0] <= '\U{7F}'
  {
    hide IsNumber, IsSafe;
    var sign, w, f, e := NumberHasParts(x);
    NumberPlain(x, sign, w, f, e);
    AsciiTextSafe(x);
  }

  lemma NumberPlain(x: string, sign: string, w: string, f: string, e: string)
    requires HasParts(x, sign, w, f, e)
    ensures x != "" && forall i :: 0 <= i < |x| ==> ' ' <= x[i] <= '\U{7F}' && x[i] !in "<>&"
  {
    assert forall i :: 1 <= i < |f| ==> f[i] == f[1..][i - 1];
    assert forall i :: 1 <= i < |e| ==> e[i] == e[1..][i - 1];
    assert forall i :: 2 <= i < |e| ==> e[i] == e[2..][i - 2];
  }

  lemma WordsSafe()
    ensures IsSafe("null") && IsSafe("true") && IsSafe("false") && IsSafe("[") && IsSafe("{") && IsSafe("]")
    ensures IsSafe("}") && IsSafe(",") && IsSafe("\"") && IsSafe("\":") && IsSafe("")
  {
    hide IsSafe;
    AsciiTextSafe("null");
    AsciiTextSafe("true");
    AsciiTextSafe("false");
    AsciiTextSafe("[");
    AsciiTextSafe("{");
    AsciiTextSafe("]");
    AsciiTextSafe("}");
    AsciiTextSafe(",");
    AsciiTextSafe("\"");
    AsciiTextSafe("\":");
    AsciiTextSafe("");
  }

  lemma {:induction false} PrintSafe(v: Json)
    requires Sound(v, true) && SafeStrings(v)
    ensures IsSafe(Print(v)) && Print(v) != "" && Print(v)[0] <= '\U{7F}'
    decreases v, 0
  {
    hide IsSafe, IsNumber, IsBody;
    WordsSafe();
    match v
    case Num(literal) => NumberSafe(literal);
    case Str(body) =>
      SafeConcat("\"", "");
      SafeQuoted(body, "");
      assert Print(v) == "\"" + body + "\"" + "";
    case Arr(items) =>
      PrintItemsSafe(items);
      SafeConcat("[", PrintItems(items));
    case Obj(members) =>
      PrintMembersSafe(members);
      SafeConcat("{", PrintMembers(members));
    case _ =>
  }

  // A literal and what follows its closing quote.
  lemma SafeQuoted(body: string, rest: string)
    requires IsSafe(body) && IsSafe(rest) && (rest == "" || rest[0] <= '\U{7F}')
    ensures IsSafe("\"" + body + "\"" + rest)
  {
    hide IsSafe;
    WordsSafe();
    QuoteThenBody(body);
    SafeConcat("\"" + body, "\"");
    SafeConcat("\"" + body + "\"", rest);
  }

  lemma QuoteThenBody(body: string)
    requires IsSafe(body)
    ensures IsSafe("\"" + body)
  {
    hide IsSafe;
    assert ("\"" + body)[0] == '"';
    SafeStep("\"", body);
  }

  lemma {:induction false} PrintItemsSafe(items: Items)
    requires SoundItems(items, true) && SafeItems(items)
    ensures IsSafe(PrintItems(items)) && PrintItems(items) != "" && PrintItems(items)[0] <= '\U{7F}'
    decreases items, 1
  {
    hide IsSafe, Print, Sound;
    WordsSafe();
    if items.Item? {
      PrintSafe(items.head);
      if items.tail == NoItems {
        SafeConcat(Print(items.head), "]");
      } else {
        PrintItemsSafe(items.tail);
        SafeConcat(Print(items.head), ",");
        SafeConcat(Print(items.head) + ",", PrintItems(items.tail));
      }
    }
  }

  lemma {:induction false} PrintMembersSafe(members: Members)
    requires SoundMembers(members, true) && SafeMembers(members)
    ensures IsSafe(PrintMembers(members)) && PrintMembers(members) != "" && PrintMembers(members)[0] <= '\U{7F}'
    decreases members, 1
  {
    hide IsSafe, Print, Sound, IsBody;
    WordsSafe();
    if members.Member? {
      var p := Print(members.value);
      PrintSafe(members.value);
      if members.tail == NoMembers {
        SafeConcat(p, "}");
        SafeMember(members.key, p + "}");
        assert PrintMembers(members) == "\"" + members.key + "\":" + (p + "}");
      } else {
        var more := PrintMembers(members.tail);
        PrintMembersSafe(members.tail);
        SafeConcat(p, ",");
        SafeConcat(p + ",", more);
        SafeMember(members.key, p + "," + more);
        assert PrintMembers(members) == "\"" + members.key + "\":" + (p + "," + more);
      }
    }
  }

  lemma SafeMember(key: string, rest: string)
    requires IsSafe(key) && IsSafe(rest) && rest != "" && rest[0] <= '\U{7F}'
    ensures IsSafe("\"" + key + "\":" + rest)
  {
    hide IsSafe;
    WordsSafe();
    QuoteThenBody(key);
    SafeConcat("\"" + key, "\":");
    SafeConcat("\"" + key + "\":", rest);
  }

  lemma {:induction false} EscapedSafe(v: Json)
    requires Sound(v, false)
    ensures SafeStrings(Escaped(v))
    decreases v
  {
    hide IsSafe, EscapeBody, IsBody;
    match v
    case Str(body) => EscapeBodySafe(body);
    case Arr(items) => EscapedItemsSafe(items);
    case Obj(members) => EscapedMembersSafe(members);
    case _ =>
  }

  lemma {:induction false} EscapedItemsSafe(items: Items)
    requires SoundItems(items, false)
    ensures SafeItems(EscapedItems(items))
    decreases items
  {
    if items.Item? {
      EscapedSafe(items.head);
      EscapedItemsSafe(items.tail);
    }
  }

  lemma {:induction false} EscapedMembersSafe(members: Members)
    requires SoundMembers(members, false)
    ensures SafeMembers(EscapedMembers(members))
    decreases members
  {
    hide IsSafe, EscapeBody, IsBody, Print;
    if members.Member? {
      EscapeBodySafe(members.key);
      EscapedSafe(members.value);
      EscapedMembersSafe(members.tail);
    }
  }

  // ---------- envelopes ----------

  lemma NameSafe(key: string)
    requires IsPlainName(key)
    ensures IsSafe(key)
  {
    AsciiTextSafe(key);
  }

  lemma FieldSafe(key: string, value: Json, rest: Members)
    requires IsPlainName(key) && SafeStrings(value) && SafeMembers(rest)
    ensures SafeMembers(Field(key, value, rest))
  {
    hide IsSafe, Print;
    NameSafe(key);
  }

  lemma StringFieldSafe(key: string, s: string, rest: Members)
    requires IsPlainName(key) && SafeMembers(rest)
    ensures SafeMembers(StringField(key, s, rest)) && SafeMembers(OptString(key, s, rest))
  {
    hide IsSafe, Print, Quote, SafeMembers;
    QuoteSafe(s);
    FieldSafe(key, Str(Quote(s)), rest);
  }

  lemma NumberFieldSafe(key: string, n: nat, rest: Members)
    requires IsPlainName(key) && SafeMembers(rest)
    ensures SafeMembers(NumberField(key, n, rest)) && SafeMembers(OptNumber(key, n, rest))
  {
    hide Decimal, SafeMembers;
    FieldSafe(key, Num(Decimal(n)), rest);
  }

  lemma RawFieldSafe(key: string, raw: string, rest: Members)
    requires IsPlainName(key) && SafeMembers(rest)
    requires raw == "" || ParseText(raw).WellFormed?
    ensures SafeMembers(OptRaw(key, raw, rest))
  {
    hide SafeMembers, ParseText, SafeStrings;
    if raw != "" {
      TextSound(raw);
      EscapedSafe(ParseText(raw).value);
      FieldSafe(key, RawValue(raw), rest);
    }
  }

  lemma NoMembersSafe()
    ensures SafeMembers(NoMembers)
  {
  }

  lemma ErrorSafe(e: RemoteError)
    requires e.details == "" || ParseText(e.details).WellFormed?
    ensures SafeMembers(ErrorMembers(e))
  {
    hide SafeMembers, ParseText, OptRaw, StringField, IsPlainName, Names;
    ErrorNames();
    NoMembersSafe();
    var details := OptRaw("details", e.details, NoMembers);
    RawFieldSafe("details", e.details, NoMembers);
    FieldSafe("retryable", Bool(true), details);
    var more := if e.retryable then Field("retryable", Bool(true), details) else details;
    StringFieldSafe("message", e.message, more);
    StringFieldSafe("code", e.code, StringField("message", e.message, more));
  }

  lemma ChunkSafe(c: Chunk)
    ensures SafeMembers(ChunkMembers(c))
  {
    hide SafeMembers, StringField, NumberField, IsPlainName, Names;
    ChunkNames();
    NoMembersSafe();
    var m3 := StringField("messageChunkBase64", c.messageChunkBase64, NoMembers);
    var m2 := NumberField("messageSizeBytes", c.messageSizeBytes, m3);
    var m1 := NumberField("segmentCount", c.segmentCount, m2);
    StringFieldSafe("messageChunkBase64", c.messageChunkBase64, NoMembers);
    NumberFieldSafe("messageSizeBytes", c.messageSizeBytes, m3);
    NumberFieldSafe("segmentCount", c.segmentCount, m2);
    NumberFieldSafe("segmentID", c.segmentID, m1);
  }

  lemma TailSafe(e: Envelope)
    requires Encodable(e)
    ensures SafeMembers(OptRaw("payload", e.payload, OptError(e.error, OptChunk(e.chunk, NoMembers))))
  {
    hide SafeMembers, ParseText, OptRaw, Print, IsPlainName;
    EnvelopeNamesPlain();
    NoMembersSafe();
    if e.chunk.Present? {
      ChunkSafe(e.chunk.value);
      ObjectSafe(ChunkMembers(e.chunk.value));
      FieldSafe("chunk", Obj(ChunkMembers(e.chunk.value)), NoMembers);
    }
    if e.error.Present? {
      ErrorSafe(e.error.value);
      ObjectSafe(ErrorMembers(e.error.value));
      FieldSafe("error", Obj(ErrorMembers(e.error.value)), OptChunk(e.chunk, NoMembers));
    }
    RawFieldSafe("payload", e.payload, OptError(e.error, OptChunk(e.chunk, NoMembers)));
  }

  lemma ObjectSafe(members: Members)
    ensures SafeStrings(Obj(members)) <==> SafeMembers(members)
  {
  }

  // Whatever its strings and raw messages hold, an encoded envelope is safe.
  lemma MarshalSafe(e: Envelope)
    requires Encodable(e)
    ensures IsSafe(Marshal(e))
  {
    hide SafeMembers, ParseText, StringField, NumberField, OptString, OptNumber, OptRaw, OptError, OptChunk, Print,
      IsPlainName, IsSafe, Sound;
    EnvelopeNamesPlain();
    TailSafe(e);
    var m8 := OptRaw("payload", e.payload, OptError(e.error, OptChunk(e.chunk, NoMembers)));
    var m7 := OptString("operation", e.operation, m8);
    var m6 := OptString("cursor", e.cursor, m7);
    var m5 := OptString("requestID", e.requestID, m6);
    var m4 := OptNumber("seqID", e.seqID, m5);
    var m3 := OptString("streamID", e.streamID, m4);
    var m2 := OptString("clientID", e.clientID, m3);
    var m1 := StringField("type", e.kind, m2);
    StringFieldSafe("operation", e.operation, m8);
    StringFieldSafe("cursor", e.cursor, m7);
    StringFieldSafe("requestID", e.requestID, m6);
    NumberFieldSafe("seqID", e.seqID, m5);
    StringFieldSafe("streamID", e.streamID, m4);
    StringFieldSafe("clientID", e.clientID, m3);
    StringFieldSafe("type", e.kind, m2);
    NumberFieldSafe("protocolVersion", PROTOCOL_VERSION, m1);
    EnvelopeSound(e);
    ObjectSafe(EnvelopeMembers(e));
    ObjectSound(EnvelopeMembers(e));
    PrintSafe(Obj(EnvelopeMembers(e)));
  }

  lemma ObjectSound(members: Members)
    requires SoundMembers(members, true)
    ensures Sound(Obj(members), true)
  {
  }

  // ---------- which members are written ----------

  function Keys(members: Members): seq<string> {
    match members
    case NoMembers => []
    case Member(key, _, _, tail) => [key] + Keys(tail)
  }

  function KeyIf(key: string, written: bool): seq<string> {
    if written then [key] else []
  }

  lemma OptionalKeys(key: string, s: string, n: nat, rest: Members)
    ensures Keys(OptString(key, s, rest)) == KeyIf(key, s != "") + Keys(rest)
    ensures Keys(OptNumber(key, n, rest)) == KeyIf(key, n > 0) + Keys(rest)
    ensures s == "" || ParseText(s).WellFormed? ==> Keys(OptRaw(key, s, rest)) == KeyIf(key, s != "") + Keys(rest)
  {
    hide Print, Quote, Decimal, ParseText, RawValue;
  }

  lemma FieldKeys(key: string, value: Json, rest: Members)
    ensures Keys(Field(key, value, rest)) == [key] + Keys(rest) && Keys(NoMembers) == []
  {
    hide Print;
  }

  lemma ErrorKeys(e: RemoteError)
    requires e.details == "" || ParseText(e.details).WellFormed?
    ensures Keys(ErrorMembers(e)) ==
            ["code", "message"] + KeyIf("retryable", e.retryable) + KeyIf("details", e.details != "")
  {
    hide Keys, Field, Quote, ParseText, OptRaw;
    var details := OptRaw("details", e.details, NoMembers);
    OptionalKeys("details", e.details, 0, NoMembers);
    FieldKeys("retryable", Bool(true), details);
    var more := if e.retryable then Field("retryable", Bool(true), details) else details;
    FieldKeys("message", Str(Quote(e.message)), more);
    FieldKeys("code", Str(Quote(e.code)), StringField("message", e.message, more));
  }

  lemma ChunkKeys(c: Chunk)
    ensures Keys(ChunkMembers(c)) == ["segmentID", "segmentCount", "messageSizeBytes", "messageChunkBase64"]
  {
    hide Keys, Field, Quote, Decimal;
    var m3 := StringField("messageChunkBase64", c.messageChunkBase64, NoMembers);
    var m2 := NumberField("messageSizeBytes", c.messageSizeBytes, m3);
    var m1 := NumberField("segmentCount", c.segmentCount, m2);
    FieldKeys("messageChunkBase64", Str(Quote(c.messageChunkBase64)), NoMembers);
    FieldKeys("messageSizeBytes", Num(Decimal(c.messageSizeBytes)), m3);
    FieldKeys("segmentCount", Num(Decimal(c.segmentCount)), m2);
    FieldKeys("segmentID", Num(Decimal(c.segmentID)), m1);
  }

  lemma TailKeys(e: Envelope)
    requires Encodable(e)
    ensures Keys(OptRaw("payload", e.payload, OptError(e.error, OptChunk(e.chunk, NoMembers)))) ==
            KeyIf("payload", e.payload != "") + (KeyIf("error", e.error.Present?) + KeyIf("chunk", e.chunk.Present?))
  {
    hide Keys, Field, ParseText, OptRaw, ErrorMembers, ChunkMembers;
    var after := OptChunk(e.chunk, NoMembers);
    OptionalKeys("payload", e.payload, 0, OptError(e.error, after));
    if e.error.Present? { FieldKeys("error", Obj(ErrorMembers(e.error.value)), after); }
    if e.chunk.Present? { FieldKeys("chunk", Obj(ChunkMembers(e.chunk.value)), NoMembers); }
    FieldKeys("", Null, NoMembers);
  }

  // Version and type are always written, every other field exactly if it is not empty.
  lemma EmptyFieldsOmitted(e: Envelope)
    requires Encodable(e)
    ensures Keys(EnvelopeMembers(e)) ==
            ["protocolVersion", "type"] + (KeyIf("clientID", e.clientID != "") + (KeyIf("streamID", e.streamID != "")
            + (KeyIf("seqID", e.seqID > 0) + (KeyIf("requestID", e.requestID != "")
            + (KeyIf("cursor", e.cursor != "") + (KeyIf("operation", e.operation != "")
            + (KeyIf("payload", e.payload != "") + (KeyIf("error", e.error.Present?)
            + KeyIf("chunk", e.chunk.Present?)))))))))
    ensures e.error.Present? ==>
              Keys(ErrorMembers(e.error.value)) ==
              ["code", "message"] + KeyIf("retryable", e.error.value.retryable)
              + KeyIf("details", e.error.value.details != "")
    ensures e.chunk.Present? ==>
              Keys(ChunkMembers(e.chunk.value)) ==
              ["segmentID", "segmentCount", "messageSizeBytes", "messageChunkBase64"]
  {
    hide Keys, EnvelopeMembers, ErrorMembers, ChunkMembers, ParseText;
    if e.error.Present? { ErrorKeys(e.error.value); }
    if e.chunk.Present? { ChunkKeys(e.chunk.value); }
    EnvelopeKeys(e);
  }

  lemma EnvelopeKeys(e: Envelope)
    requires Encodable(e)
    ensures Keys(EnvelopeMembers(e)) ==
            ["protocolVersion", "type"] + (KeyIf("clientID", e.clientID != "") + (KeyIf("streamID", e.streamID != "")
            + (KeyIf("seqID", e.seqID > 0) + (KeyIf("requestID", e.requestID != "")
            + (KeyIf("cursor", e.cursor != "") + (KeyIf("operation", e.operation != "")
            + (KeyIf("payload", e.payload != "") + (KeyIf("error", e.error.Present?)
            + KeyIf("chunk", e.chunk.Present?)))))))))
  {
    hide Keys, Field, Quote, Decimal, ParseText, OptRaw, OptString, OptNumber, OptError, OptChunk, KeyIf;
    var m8 := OptRaw("payload", e.payload, OptError(e.error, OptChunk(e.chunk, NoMembers)));
    var m7 := OptString("operation", e.operation, m8);
    var m6 := OptString("cursor", e.cursor, m7);
    var m5 := OptString("requestID", e.requestID, m6);
    var m4 := OptNumber("seqID", e.seqID, m5);
    var m3 := OptString("streamID", e.streamID, m4);
    var m2 := OptString("clientID", e.clientID, m3);
    var m1 := StringField("type", e.kind, m2);
    TailKeys(e);
    OptionalKeys("operation", e.operation, 0, m8);
    OptionalKeys("cursor", e.cursor, 0, m7);
    OptionalKeys("requestID", e.requestID, 0, m6);
    OptionalKeys("seqID", "", e.seqID, m5);
    OptionalKeys("streamID", e.streamID, 0, m4);
    OptionalKeys("clientID", e.clientID, 0, m3);
    FieldKeys("type", Str(Quote(e.kind)), m2);
    FieldKeys("protocolVersion", Num(Decimal(PROTOCOL_VERSION)), m1);
    assert Keys(EnvelopeMembers(e)) == ["protocolVersion"] + (["type"] + Keys(m2));
    assert Keys(EnvelopeMembers(e)) == ["protocolVersion", "type"] + Keys(m2);
  }
}

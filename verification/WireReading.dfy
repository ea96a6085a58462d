// What a frame from any sender is read as (json.Unmarshal and DecodeEnvelope): members in
// any order, under names in any letter case, with nulls and repeats.
module WireReading {
  import opened Options
  import opened JsonNumber
  import opened JsonString
  import opened Json
  import opened JsonText
  import opened Letters
  import opened Text
  import opened Wire
  import JsonLiterals

  // ---------- names ----------

  // The key is the word in any letter case, U+017F taken for an "s" and U+212A for a "k".
  predicate Called(key: string, word: string)
    decreases |word|
  {
    if word == "" then key == ""
    else
      || (key != "" && IsCaseOf(key[0], word[0]) && Called(key[1..], word[1..]))
      || (word[0] == 's' && HasPrefix(key, "\U{C5}\U{BF}") && Called(key[2..], word[1..]))
      || (word[0] == 'k' && HasPrefix(key, "\U{E2}\U{84}\U{AA}") && Called(key[3..], word[1..]))
  }

  predicate IsWord(word: string) {
    forall i :: 0 <= i < |word| ==> 'a' <= word[i] <= 'z' || word[i] == '6' || word[i] == '4'
  }

  lemma FoldStep(key: string)
    requires key != ""
    ensures Fold(key) ==
            [if FoldWidth(key) == 2 then 's' else if FoldWidth(key) == 3 then 'k' else LowerChar(key[0])]
            + Fold(key[FoldWidth(key)..])
    ensures FoldWidth(key) == 2 <==> HasPrefix(key, "\U{C5}\U{BF}")
    ensures FoldWidth(key) == 3 <==> HasPrefix(key, "\U{E2}\U{84}\U{AA}")
    ensures FoldWidth(key) in {1, 2, 3}
  {
  }

  // Beside the first letter of a key, by how many bytes it has.
  lemma FirstLetter(key: string, d: char)
    requires key != "" && Letters.IsPlain(d)
    ensures IsCaseOf(key[0], d) ==> FoldWidth(key) == 1 && LowerChar(key[0]) == d
    ensures FoldWidth(key) == 1 && LowerChar(key[0]) == d ==> IsCaseOf(key[0], d)
  {
    CaseLowers(key[0], d);
  }

  lemma {:induction false} CalledExactly(key: string, word: string)
    requires IsWord(word)
    ensures Called(key, word) <==> Fold(key) == word
    decreases |word|
  {
    hide IsCaseOf, LowerChar, Fold, FoldWidth;
    FoldNothing(key);
    if word == "" || key == "" {
    } else {
      var n, d := FoldWidth(key), word[0];
      FoldStep(key);
      FirstLetter(key, d);
      CalledExactly(key[n..], word[1..]);
      assert word == [d] + word[1..];
      assert Fold(key)[1..] == Fold(key[n..]);
    }
  }

  lemma FoldNothing(key: string)
    ensures Fold(key) == "" <==> key == ""
    ensures FoldWidth(if key == "" then "x" else key) <= |if key == "" then "x" else key|
  {
  }

  // The field's name in small letters.
  predicate IsSmallOf(field: string, word: string) {
    |field| == |word| && forall i :: 0 <= i < |field| ==> LowerChar(field[i]) == word[i]
  }

  lemma NamedFolds(key: string, field: string, word: string)
    requires IsSmallOf(field, word)
    ensures Names(key, field) <==> Fold(key) == word
  {
    hide Fold;
  }

  function WordOf(name: FieldName): string
    requires name != FUnknown
  {
    match name
    case FVersion => "protocolversion"
    case FType => "type"
    case FClient => "clientid"
    case FStream => "streamid"
    case FSeq => "seqid"
    case FRequest => "requestid"
    case FCursor => "cursor"
    case FOperation => "operation"
    case FPayload => "payload"
    case FError => "error"
    case FChunk => "chunk"
  }

  lemma EarlyWords()
    ensures IsWord("protocolversion") && IsSmallOf("protocolVersion", "protocolversion")
    ensures IsWord("type") && IsSmallOf("type", "type") && IsWord("clientid") && IsSmallOf("clientID", "clientid")
    ensures IsWord("streamid") && IsSmallOf("streamID", "streamid")
  {
  }

  lemma MiddleWords()
    ensures IsWord("seqid") && IsSmallOf("seqID", "seqid") && IsWord("requestid") && IsSmallOf("requestID", "requestid")
    ensures IsWord("cursor") && IsSmallOf("cursor", "cursor")
    ensures IsWord("operation") && IsSmallOf("operation", "operation")
  {
  }

  lemma LateWords()
    ensures IsWord("payload") && IsSmallOf("payload", "payload") && IsWord("error") && IsSmallOf("error", "error")
    ensures IsWord("chunk") && IsSmallOf("chunk", "chunk")
  {
  }

  lemma WordIsWord(name: FieldName)
    requires name != FUnknown
    ensures IsWord(WordOf(name))
  {
    hide IsWord, IsSmallOf;
    EarlyWords();
    MiddleWords();
    LateWords();
  }

  lemma WordsApart(a: FieldName, b: FieldName)
    requires a != FUnknown && b != FUnknown && WordOf(a) == WordOf(b)
    ensures a == b
  {
    assert WordOf(a)[0] == WordOf(b)[0] && WordOf(a)[1] == WordOf(b)[1];
  }

  // A key is for a field exactly if it is the field's name.
  lemma FieldOfExactly(key: string, name: FieldName)
    requires name != FUnknown
    ensures FieldOf(key) == name <==> Called(key, WordOf(name))
  {
    hide Names, Called, WordOf, IsWord, FieldOf, Fold;
    WordIsWord(name);
    CalledExactly(key, WordOf(name));
    FieldChain(key, name);
    if FieldOf(key) != FUnknown && Fold(key) == WordOf(name) { WordsApart(name, FieldOf(key)); }
  }

  lemma FieldChain(key: string, name: FieldName)
    requires name != FUnknown
    ensures FieldOf(key) != FUnknown ==> Fold(key) == WordOf(FieldOf(key))
    ensures FieldOf(key) == FUnknown ==> Fold(key) != WordOf(name)
  {
    hide Names, Called, IsWord, IsSmallOf, Fold;
    EarlyWords();
    MiddleWords();
    LateWords();
    NamedFolds(key, "protocolVersion", "protocolversion");
    NamedFolds(key, "type", "type");
    NamedFolds(key, "clientID", "clientid");
    NamedFolds(key, "streamID", "streamid");
    NamedFolds(key, "seqID", "seqid");
    NamedFolds(key, "requestID", "requestid");
    NamedFolds(key, "cursor", "cursor");
    NamedFolds(key, "operation", "operation");
    NamedFolds(key, "payload", "payload");
    NamedFolds(key, "error", "error");
    NamedFolds(key, "chunk", "chunk");
  }

  // ---------- what a member may hold ----------

  predicate IsText(value: Json) {
    value.Null? || value.Str?
  }

  ghost predicate IsUnsigned(value: Json, bound: nat) {
    value.Null? || (value.Num? && exists n: nat :: n < bound && value.literal == Decimal(n))
  }

  ghost predicate IsSigned(value: Json) {
    || value.Null?
    || (value.Num?
        && exists n: int :: -0x8000_0000_0000_0000 <= n < 0x8000_0000_0000_0000 && IsIntText(value.literal, n))
  }

  ghost predicate FitsError(members: Members) {
    match members
    case NoMembers => true
    case Member(key, value, _, tail) =>
      && (Called(Unquote(key), "code") || Called(Unquote(key), "message") ==> IsText(value))
      && (Called(Unquote(key), "retryable") ==> value.Null? || value.Bool?)
      && FitsError(tail)
  }

  ghost predicate FitsChunk(members: Members) {
    match members
    case NoMembers => true
    case Member(key, value, _, tail) =>
      && (Called(Unquote(key), "segmentid") || Called(Unquote(key), "segmentcount") ==>
            IsUnsigned(value, 0x1_0000_0000))
      && (Called(Unquote(key), "messagesizebytes") ==> IsUnsigned(value, 0x1_0000_0000_0000_0000))
      && (Called(Unquote(key), "messagechunkbase64") ==> IsText(value))
      && FitsChunk(tail)
  }

  ghost predicate FitsField(name: FieldName, value: Json) {
    match name
    case FVersion => IsSigned(value)
    case FSeq => IsUnsigned(value, 0x1_0000_0000_0000_0000)
    case FPayload => true
    case FError => value.Null? || (value.Obj? && FitsError(value.members))
    case FChunk => value.Null? || (value.Obj? && FitsChunk(value.members))
    case FUnknown => true
    case _ => IsText(value)
  }

  // Every member, repeated ones and those overruled later included, fits its field.
  ghost predicate FitsEnvelope(members: Members) {
    match members
    case NoMembers => true
    case Member(key, value, _, tail) =>
      && (forall name :: name != FUnknown && Called(Unquote(key), WordOf(name)) ==> FitsField(name, value))
      && FitsEnvelope(tail)
  }

  // ---------- what the members say ----------

  datatype Said = Said(value: Json, raw: string)

  // The last member of that name, passing over nulls unless they count.
  function LastSaid(members: Members, word: string, nulls: bool): Maybe<Said> {
    match members
    case NoMembers => Absent
    case Member(key, value, raw, tail) =>
      var later := LastSaid(tail, word, nulls);
      if later.Present? then later
      else if Called(Unquote(key), word) && (nulls || !value.Null?) then Present(Said(value, raw))
      else Absent
  }

  function Append(a: Members, b: Members): Members {
    match a
    case NoMembers => b
    case Member(key, value, raw, tail) => Member(key, value, raw, Append(tail, b))
  }

  // The members of all objects of that name since the last null, if any.
  function Gathered(members: Members, word: string, before: Maybe<Members>): Maybe<Members>
    decreases members
  {
    match members
    case NoMembers => before
    case Member(key, value, _, tail) =>
      if !Called(Unquote(key), word) then Gathered(tail, word, before)
      else if value.Obj? then
        Gathered(tail, word, Present(Append(if before.Present? then before.value else NoMembers, value.members)))
      else Gathered(tail, word, Absent)
  }

  ghost predicate SaysText(said: Maybe<Said>, s: string) {
    match said
    case Absent => s == ""
    case Present(m) => m.value.Str? && JsonLiterals.Writes(m.value.body, s)
  }

  predicate SaysUnsigned(said: Maybe<Said>, n: nat) {
    match said
    case Absent => n == 0
    case Present(m) => m.value.Num? && m.value.literal == Decimal(n)
  }

  predicate SaysSigned(said: Maybe<Said>, n: int) {
    match said
    case Absent => n == 0
    case Present(m) => m.value.Num? && IsIntText(m.value.literal, n)
  }

  predicate SaysRaw(said: Maybe<Said>, raw: string) {
    match said
    case Absent => raw == ""
    case Present(m) => raw == m.raw
  }

  ghost predicate TellsError(members: Members, e: RemoteError) {
    && SaysText(LastSaid(members, "code", false), e.code)
    && SaysText(LastSaid(members, "message", false), e.message)
    && (match LastSaid(members, "retryable", false)
        case Absent => !e.retryable
        case Present(m) => m.value == Bool(e.retryable))
    && SaysRaw(LastSaid(members, "details", true), e.details)
  }

  ghost predicate TellsChunk(members: Members, c: Chunk) {
    && SaysUnsigned(LastSaid(members, "segmentid", false), c.segmentID)
    && SaysUnsigned(LastSaid(members, "segmentcount", false), c.segmentCount)
    && SaysUnsigned(LastSaid(members, "messagesizebytes", false), c.messageSizeBytes)
    && SaysText(LastSaid(members, "messagechunkbase64", false), c.messageChunkBase64)
  }

  // The members describe the envelope: each field is what was last said of it.
  ghost predicate TellsEnvelope(members: Members, e: Envelope) {
    && SaysSigned(LastSaid(members, "protocolversion", false), e.protocolVersion)
    && SaysText(LastSaid(members, "type", false), e.kind)
    && SaysText(LastSaid(members, "clientid", false), e.clientID)
    && SaysText(LastSaid(members, "streamid", false), e.streamID)
    && SaysUnsigned(LastSaid(members, "seqid", false), e.seqID)
    && SaysText(LastSaid(members, "requestid", false), e.requestID)
    && SaysText(LastSaid(members, "cursor", false), e.cursor)
    && SaysText(LastSaid(members, "operation", false), e.operation)
    && SaysRaw(LastSaid(members, "payload", true), e.payload)
    && (match Gathered(members, "error", Absent)
        case Absent => e.error.Absent?
        case Present(ms) => e.error.Present? && TellsError(ms, e.error.value))
    && (match Gathered(members, "chunk", Absent)
        case Absent => e.chunk.Absent?
        case Present(ms) => e.chunk.Present? && TellsChunk(ms, e.chunk.value))
  }

  // ---------- single values ----------

  lemma UnsignedRead(was: nat, value: Json, bound: nat)
    requires Sound(value, false)
    ensures SetUint(was, value, bound).Present? <==> IsUnsigned(value, bound)
    ensures value.Num? && SetUint(was, value, bound).Present? ==>
              value.literal == Decimal(SetUint(was, value, bound).value)
  {
    hide Decimal, NumberLen;
    if value.Num? {
      if AllDigits(value.literal) { UnsignedExactly(value.literal, Undecimal(value.literal)); }
      forall n: nat | value.literal == Decimal(n) ensures AllDigits(value.literal) && Undecimal(value.literal) == n {
        UnsignedExactly(value.literal, n);
      }
    }
  }

  lemma SignedRead(was: int, value: Json)
    requires Sound(value, false)
    ensures SetInt(was, value).Present? <==> IsSigned(value)
    ensures value.Num? && SetInt(was, value).Present? ==> IsIntText(value.literal, SetInt(was, value).value)
  {
    hide Decimal, NumberLen, IsIntText;
    if value.Num? {
      var x := value.literal;
      if AllDigits(x) { SignedExactly(x, Undecimal(x)); }
      if x[0] == '-' && AllDigits(x[1..]) { SignedExactly(x, 0 - (Undecimal(x[1..]) as int)); }
      forall n: int | IsIntText(x, n)
        ensures (AllDigits(x) && Undecimal(x) == n)
             || (x[0] == '-' && AllDigits(x[1..]) && 0 - (Undecimal(x[1..]) as int) == n)
      {
        SignedExactly(x, n);
      }
      assert HasPrefix(x, "-") <==> x[0] == '-';
    }
  }

  lemma IntTextUnique(x: string, n: int, m: int)
    requires IsNumber(x) && IsIntText(x, n) && IsIntText(x, m)
    ensures n == m
  {
    hide NumberLen, IsIntText, Decimal;
    SignedExactly(x, n);
    SignedExactly(x, m);
    if x[0] == '-' { assert !IsDigit(x[0]); }
  }

  lemma DecimalInjective(n: nat, m: nat)
    requires Decimal(n) == Decimal(m)
    ensures n == m
  {
    hide Decimal;
    DecimalReads(n);
    DecimalReads(m);
  }

  // What a literal writes is what it is read as.
  lemma TextSaid(body: string, s: string)
    requires IsBody(body)
    ensures JsonLiterals.Writes(body, s) <==> Unquote(body) == s
  {
    hide IsBody, Unquote;
    JsonLiterals.LiteralsExactly(body, s);
  }

  // ---------- filling an error or a chunk ----------

  // What a field is after the members, if it was something before.
  predicate TextOver(said: Maybe<Said>, was: string, s: string) {
    match said
    case Absent => s == was
    case Present(m) => m.value.Str? && s == Unquote(m.value.body)
  }

  predicate BoolOver(said: Maybe<Said>, was: bool, b: bool) {
    match said
    case Absent => b == was
    case Present(m) => m.value == Bool(b)
  }

  predicate RawOver(said: Maybe<Said>, was: string, raw: string) {
    match said
    case Absent => raw == was
    case Present(m) => raw == m.raw
  }

  predicate UnsignedOver(said: Maybe<Said>, was: nat, n: nat) {
    match said
    case Absent => n == was
    case Present(m) => m.value.Num? && m.value.literal == Decimal(n)
  }

  predicate SignedOver(said: Maybe<Said>, was: int, n: int) {
    match said
    case Absent => n == was
    case Present(m) => m.value.Num? && IsIntText(m.value.literal, n)
  }

  lemma ErrorNamed(key: string)
    ensures Names(key, "code") <==> Called(key, "code")
    ensures Names(key, "message") <==> Called(key, "message")
    ensures Names(key, "retryable") <==> Called(key, "retryable")
    ensures Names(key, "details") <==> Called(key, "details")
  {
    hide Names, Called, Fold, IsWord, IsSmallOf;
    ErrorWords();
    NamedExactly(key, "code");
    NamedExactly(key, "message");
    NamedExactly(key, "retryable");
    NamedExactly(key, "details");
  }

  lemma ErrorWords()
    ensures IsWord("code") && IsSmallOf("code", "code") && IsWord("message") && IsSmallOf("message", "message")
    ensures IsWord("retryable") && IsSmallOf("retryable", "retryable")
    ensures IsWord("details") && IsSmallOf("details", "details")
  {
  }

  lemma NamedExactly(key: string, word: string)
    requires IsWord(word) && IsSmallOf(word, word)
    ensures Names(key, word) <==> Called(key, word)
  {
    hide Names, Called, Fold;
    NamedFolds(key, word, word);
    CalledExactly(key, word);
  }

  // No key is called by two words.
  lemma CalledOnce(key: string, a: string, b: string)
    requires IsWord(a) && IsWord(b) && Called(key, a) && Called(key, b)
    ensures a == b
  {
    hide Called, Fold;
    CalledExactly(key, a);
    CalledExactly(key, b);
  }

  lemma ErrorKeysApart(key: string)
    ensures Called(key, "code") ==> !Called(key, "message") && !Called(key, "retryable") && !Called(key, "details")
    ensures Called(key, "message") ==> !Called(key, "retryable") && !Called(key, "details")
    ensures Called(key, "retryable") ==> !Called(key, "details")
  {
    hide Called, IsWord, IsSmallOf;
    ErrorWords();
    assert "message"[0] == 'm' && "details"[0] == 'd';
    forall a, b | IsWord(a) && IsWord(b) && Called(key, a) && Called(key, b) ensures a == b { CalledOnce(key, a, b); }
  }

  lemma SetErrorExactly(e: RemoteError, key: string, value: Json, raw: string)
    ensures SetErrorField(e, key, value, raw).Present? <==>
            && (Called(key, "code") || Called(key, "message") ==> IsText(value))
            && (Called(key, "retryable") ==> value.Null? || value.Bool?)
    ensures SetErrorField(e, key, value, raw).Present? ==>
              var y := SetErrorField(e, key, value, raw).value;
              && y.code == (if Called(key, "code") && value.Str? then Unquote(value.body) else e.code)
              && y.message == (if Called(key, "message") && value.Str? then Unquote(value.body) else e.message)
              && y.retryable == (if Called(key, "retryable") && value.Bool? then value.b else e.retryable)
              && y.details == (if Called(key, "details") then raw else e.details)
  {
    hide Called, Names, Unquote;
    ErrorNamed(key);
    ErrorKeysApart(key);
  }

  lemma {:induction false} FillErrorExactly(e: RemoteError, members: Members)
    ensures FillError(e, members).Present? <==> FitsError(members)
    ensures FillError(e, members).Present? ==>
              var y := FillError(e, members).value;
              && TextOver(LastSaid(members, "code", false), e.code, y.code)
              && TextOver(LastSaid(members, "message", false), e.message, y.message)
              && BoolOver(LastSaid(members, "retryable", false), e.retryable, y.retryable)
              && RawOver(LastSaid(members, "details", true), e.details, y.details)
    decreases members
  {
    hide Called, Unquote, SetErrorField;
    if members.Member? {
      var key := Unquote(members.key);
      SetErrorExactly(e, key, members.value, members.raw);
      var r := SetErrorField(e, key, members.value, members.raw);
      if r.Present? { FillErrorExactly(r.value, members.tail); }
    }
  }

  lemma ChunkWords()
    ensures IsWord("segmentid") && IsSmallOf("segmentID", "segmentid")
    ensures IsWord("segmentcount") && IsSmallOf("segmentCount", "segmentcount")
  {
  }

  lemma ChunkLongWords()
    ensures IsWord("messagesizebytes") && IsSmallOf("messageSizeBytes", "messagesizebytes")
    ensures IsWord("messagechunkbase64") && IsSmallOf("messageChunkBase64", "messagechunkbase64")
  {
  }

  lemma ChunkNamed(key: string)
    ensures Names(key, "segmentID") <==> Called(key, "segmentid")
    ensures Names(key, "segmentCount") <==> Called(key, "segmentcount")
    ensures Names(key, "messageSizeBytes") <==> Called(key, "messagesizebytes")
    ensures Names(key, "messageChunkBase64") <==> Called(key, "messagechunkbase64")
  {
    hide Names, Called, Fold, IsWord, IsSmallOf;
    ChunkWords();
    ChunkLongWords();
    NamedFolds(key, "segmentID", "segmentid");
    NamedFolds(key, "segmentCount", "segmentcount");
    NamedFolds(key, "messageSizeBytes", "messagesizebytes");
    NamedFolds(key, "messageChunkBase64", "messagechunkbase64");
    CalledExactly(key, "segmentid");
    CalledExactly(key, "segmentcount");
    CalledExactly(key, "messagesizebytes");
    CalledExactly(key, "messagechunkbase64");
  }

  lemma ChunkKeysApart(key: string)
    ensures Called(key, "segmentid") ==> !Called(key, "segmentcount")
    ensures Called(key, "segmentid") ==> !Called(key, "messagesizebytes") && !Called(key, "messagechunkbase64")
    ensures Called(key, "segmentcount") ==> !Called(key, "messagesizebytes") && !Called(key, "messagechunkbase64")
    ensures Called(key, "messagesizebytes") ==> !Called(key, "messagechunkbase64")
  {
    hide Called, IsWord, IsSmallOf;
    ChunkWords();
    ChunkLongWords();
    assert |"segmentid"| == 9 && |"segmentcount"| == 12 && |"messagesizebytes"| == 16 && |"messagechunkbase64"| == 18;
    forall a, b | IsWord(a) && IsWord(b) && Called(key, a) && Called(key, b) ensures a == b { CalledOnce(key, a, b); }
  }

  // A member's number, if it is one, else what was there.
  predicate NumberOver(named: bool, value: Json, was: nat, n: nat) {
    if named && value.Num? then value.literal == Decimal(n) else n == was
  }

  lemma SetChunkExactly(c: Chunk, key: string, value: Json)
    requires Sound(value, false)
    ensures SetChunkField(c, key, value).Present? <==>
            && (Called(key, "segmentid") || Called(key, "segmentcount") ==> IsUnsigned(value, 0x1_0000_0000))
            && (Called(key, "messagesizebytes") ==> IsUnsigned(value, 0x1_0000_0000_0000_0000))
            && (Called(key, "messagechunkbase64") ==> IsText(value))
    ensures SetChunkField(c, key, value).Present? ==>
              var y := SetChunkField(c, key, value).value;
              && NumberOver(Called(key, "segmentid"), value, c.segmentID, y.segmentID)
              && NumberOver(Called(key, "segmentcount"), value, c.segmentCount, y.segmentCount)
              && NumberOver(Called(key, "messagesizebytes"), value, c.messageSizeBytes, y.messageSizeBytes)
              && y.messageChunkBase64 == (if Called(key, "messagechunkbase64") && value.Str? then Unquote(value.body)
                                          else c.messageChunkBase64)
  {
    hide Called, Names, Unquote, SetUint, IsUnsigned, Decimal, Sound;
    ChunkNamed(key);
    ChunkKeysApart(key);
    UnsignedRead(c.segmentID, value, 0x1_0000_0000);
    UnsignedRead(c.segmentCount, value, 0x1_0000_0000);
    UnsignedRead(c.messageSizeBytes, value, 0x1_0000_0000_0000_0000);
    NullKept(c.segmentID, value, 0x1_0000_0000);
    NullKept(c.segmentCount, value, 0x1_0000_0000);
    NullKept(c.messageSizeBytes, value, 0x1_0000_0000_0000_0000);
  }

  lemma NullKept(was: nat, value: Json, bound: nat)
    ensures SetUint(was, value, bound).Present? && !value.Num? ==> SetUint(was, value, bound).value == was
  {
  }

  lemma {:induction false} FillChunkExactly(c: Chunk, members: Members)
    requires SoundMembers(members, false)
    ensures FillChunk(c, members).Present? <==> FitsChunk(members)
    ensures FillChunk(c, members).Present? ==>
              var y := FillChunk(c, members).value;
              && UnsignedOver(LastSaid(members, "segmentid", false), c.segmentID, y.segmentID)
              && UnsignedOver(LastSaid(members, "segmentcount", false), c.segmentCount, y.segmentCount)
              && UnsignedOver(LastSaid(members, "messagesizebytes", false), c.messageSizeBytes, y.messageSizeBytes)
              && TextOver(LastSaid(members, "messagechunkbase64", false), c.messageChunkBase64, y.messageChunkBase64)
    decreases members
  {
    hide Called, Unquote, SetChunkField, IsUnsigned, Decimal, Sound;
    if members.Member? {
      var key := Unquote(members.key);
      SetChunkExactly(c, key, members.value);
      var r := SetChunkField(c, key, members.value);
      if r.Present? {
        FillChunkExactly(r.value, members.tail);
        UnsignedOnly(members.value, 0x1_0000_0000);
        UnsignedOnly(members.value, 0x1_0000_0000_0000_0000);
      }
    }
  }

  lemma UnsignedOnly(value: Json, bound: nat)
    ensures IsUnsigned(value, bound) ==> value.Null? || value.Num?
  {
  }

  // ---------- filling an envelope ----------

  const NO_ERROR := RemoteError("", "", false, "")
  const NO_CHUNK := Chunk(0, 0, 0, "")

  // The error is what these members fill it with, or there is none.
  predicate ErrorIs(error: Maybe<RemoteError>, told: Maybe<Members>) {
    match told
    case Absent => error.Absent?
    case Present(ms) => SoundMembers(ms, false) && error.Present? && FillError(NO_ERROR, ms) == error
  }

  predicate ChunkIs(chunk: Maybe<Chunk>, told: Maybe<Members>) {
    match told
    case Absent => chunk.Absent?
    case Present(ms) => SoundMembers(ms, false) && chunk.Present? && FillChunk(NO_CHUNK, ms) == chunk
  }

  lemma {:induction false} FillErrorAppend(e: RemoteError, a: Members, b: Members)
    ensures FillError(e, Append(a, b)) ==
            if FillError(e, a).Present? then FillError(FillError(e, a).value, b) else Absent
    decreases a
  {
    hide SetErrorField, Unquote;
    if a.Member? {
      var r := SetErrorField(e, Unquote(a.key), a.value, a.raw);
      if r.Present? { FillErrorAppend(r.value, a.tail, b); }
    }
  }

  lemma {:induction false} FillChunkAppend(c: Chunk, a: Members, b: Members)
    ensures FillChunk(c, Append(a, b)) ==
            if FillChunk(c, a).Present? then FillChunk(FillChunk(c, a).value, b) else Absent
    decreases a
  {
    hide SetChunkField, Unquote;
    if a.Member? {
      var r := SetChunkField(c, Unquote(a.key), a.value);
      if r.Present? { FillChunkAppend(r.value, a.tail, b); }
    }
  }

  lemma {:induction false} SoundAppend(a: Members, b: Members)
    requires SoundMembers(a, false) && SoundMembers(b, false)
    ensures SoundMembers(Append(a, b), false)
    decreases a
  {
    hide Sound, IsBody;
    if a.Member? { SoundAppend(a.tail, b); }
  }

  // One value of the error field.
  lemma SetErrorTold(was: Maybe<RemoteError>, told: Maybe<Members>, value: Json)
    requires ErrorIs(was, told) && Sound(value, false)
    ensures SetError(was, value).Present? <==> FitsField(FError, value)
    ensures SetError(was, value).Present? ==>
              ErrorIs(SetError(was, value).value,
                      if value.Obj? then Present(Append(if told.Present? then told.value else NoMembers, value.members))
                      else Absent)
  {
    hide FillError, FitsError, SoundMembers;
    if value.Obj? {
      var from := if was.Present? then was.value else NO_ERROR;
      var before := if told.Present? then told.value else NoMembers;
      FillErrorExactly(from, value.members);
      FillNothing();
      FillErrorAppend(NO_ERROR, before, value.members);
      SoundObject(value);
      SoundAppend(before, value.members);
    }
  }

  lemma FillNothing()
    ensures FillError(NO_ERROR, NoMembers) == Present(NO_ERROR) && FillChunk(NO_CHUNK, NoMembers) == Present(NO_CHUNK)
    ensures SoundMembers(NoMembers, false)
  {
  }

  lemma SoundObject(value: Json)
    requires value.Obj? && Sound(value, false)
    ensures SoundMembers(value.members, false)
  {
  }

  lemma SetChunkTold(was: Maybe<Chunk>, told: Maybe<Members>, value: Json)
    requires ChunkIs(was, told) && Sound(value, false)
    ensures SetChunk(was, value).Present? <==> FitsField(FChunk, value)
    ensures SetChunk(was, value).Present? ==>
              ChunkIs(SetChunk(was, value).value,
                      if value.Obj? then Present(Append(if told.Present? then told.value else NoMembers, value.members))
                      else Absent)
  {
    hide FillChunk, FitsChunk, SoundMembers;
    if value.Obj? {
      var from := if was.Present? then was.value else NO_CHUNK;
      var before := if told.Present? then told.value else NoMembers;
      SoundObject(value);
      FillChunkExactly(from, value.members);
      FillNothing();
      FillChunkAppend(NO_CHUNK, before, value.members);
      SoundAppend(before, value.members);
    }
  }

  // The fields that hold a text.
  predicate IsTextField(name: FieldName) {
    || name == FType || name == FClient || name == FStream || name == FRequest || name == FCursor
    || name == FOperation
  }

  function TextField(e: Envelope, name: FieldName): string
    requires IsTextField(name)
  {
    match name
    case FType => e.kind
    case FClient => e.clientID
    case FStream => e.streamID
    case FRequest => e.requestID
    case FCursor => e.cursor
    case _ => e.operation
  }

  // One value sets its own field and no other.
  lemma SetTextExactly(e: Envelope, name: FieldName, value: Json, raw: string)
    requires IsTextField(name)
    ensures SetField(e, name, value, raw).Present? <==> IsText(value)
    ensures SetField(e, name, value, raw).Present? ==>
              var y := SetField(e, name, value, raw).value;
              && TextField(y, name) == (if value.Str? then Unquote(value.body) else TextField(e, name))
              && (forall other :: IsTextField(other) && other != name ==> TextField(y, other) == TextField(e, other))
              && y.protocolVersion == e.protocolVersion && y.seqID == e.seqID && y.payload == e.payload
              && y.error == e.error && y.chunk == e.chunk
  {
    hide Unquote;
  }

  lemma SetOtherExactly(e: Envelope, name: FieldName, value: Json, raw: string)
    requires !IsTextField(name) && Sound(value, false)
    ensures name != FError && name != FChunk ==>
              (SetField(e, name, value, raw).Present? <==> FitsField(name, value))
    ensures SetField(e, name, value, raw).Present? ==>
              var y := SetField(e, name, value, raw).value;
              && (forall other :: IsTextField(other) ==> TextField(y, other) == TextField(e, other))
              && (if name == FVersion && value.Num? then IsIntText(value.literal, y.protocolVersion)
                  else y.protocolVersion == e.protocolVersion)
              && NumberOver(name == FSeq, value, e.seqID, y.seqID)
              && y.payload == (if name == FPayload then raw else e.payload)
              && (if name == FError then SetError(e.error, value) == Present(y.error) else y.error == e.error)
              && (if name == FChunk then SetChunk(e.chunk, value) == Present(y.chunk) else y.chunk == e.chunk)
    ensures name == FError ==> (SetField(e, name, value, raw).Present? <==> SetError(e.error, value).Present?)
    ensures name == FChunk ==> (SetField(e, name, value, raw).Present? <==> SetChunk(e.chunk, value).Present?)
  {
    hide SetUint, SetInt, IsUnsigned, IsSigned, Decimal, IsIntText, SetError, SetChunk, FitsError, FitsChunk, Sound;
    SignedRead(e.protocolVersion, value);
    UnsignedRead(e.seqID, value, 0x1_0000_0000_0000_0000);
    NullKept(e.seqID, value, 0x1_0000_0000_0000_0000);
    NullKeptSigned(e.protocolVersion, value);
  }

  lemma NullKeptSigned(was: int, value: Json)
    ensures SetInt(was, value).Present? && !value.Num? ==> SetInt(was, value).value == was
  {
  }

  // From x the members lead to y in everything but the error and the chunk.
  ghost predicate LeadsTo(members: Members, x: Envelope, y: Envelope) {
    && (forall name :: IsTextField(name) ==>
          TextOver(LastSaid(members, WordOf(name), false), TextField(x, name), TextField(y, name)))
    && SignedOver(LastSaid(members, "protocolversion", false), x.protocolVersion, y.protocolVersion)
    && UnsignedOver(LastSaid(members, "seqid", false), x.seqID, y.seqID)
    && RawOver(LastSaid(members, "payload", true), x.payload, y.payload)
  }

  // What a key is called, by its field.
  lemma KeyField(key: string)
    ensures forall name :: name != FUnknown ==> (Called(key, WordOf(name)) <==> FieldOf(key) == name)
    ensures Called(key, "protocolversion") <==> FieldOf(key) == FVersion
    ensures Called(key, "seqid") <==> FieldOf(key) == FSeq
    ensures Called(key, "payload") <==> FieldOf(key) == FPayload
    ensures Called(key, "error") <==> FieldOf(key) == FError
    ensures Called(key, "chunk") <==> FieldOf(key) == FChunk
  {
    hide Called, FieldOf;
    forall name | name != FUnknown ensures Called(key, WordOf(name)) <==> FieldOf(key) == name {
      FieldOfExactly(key, name);
    }
    assert WordOf(FVersion) == "protocolversion" && WordOf(FSeq) == "seqid" && WordOf(FPayload) == "payload";
    assert WordOf(FError) == "error" && WordOf(FChunk) == "chunk";
  }

  lemma LastSaidStep(m: Members, word: string, nulls: bool)
    requires m.Member?
    ensures LastSaid(m, word, nulls) ==
            if LastSaid(m.tail, word, nulls).Present? then LastSaid(m.tail, word, nulls)
            else if Called(Unquote(m.key), word) && (nulls || !m.value.Null?) then Present(Said(m.value, m.raw))
            else Absent
  {
    hide Called, Unquote;
  }

  lemma TextLeads(m: Members, x: Envelope, x1: Envelope, y: Envelope, name: FieldName)
    requires m.Member? && Sound(m.value, false) && IsTextField(name)
    requires SetField(x, FieldOf(Unquote(m.key)), m.value, m.raw) == Present(x1)
    requires TextOver(LastSaid(m.tail, WordOf(name), false), TextField(x1, name), TextField(y, name))
    ensures TextOver(LastSaid(m, WordOf(name), false), TextField(x, name), TextField(y, name))
  {
    hide SetField, FieldOf, Unquote, LastSaid, Called, Sound, TextField, WordOf;
    var f := FieldOf(Unquote(m.key));
    KeyField(Unquote(m.key));
    LastSaidStep(m, WordOf(name), false);
    if IsTextField(f) {
      SetTextExactly(x, f, m.value, m.raw);
    } else {
      SetOtherExactly(x, f, m.value, m.raw);
    }
  }

  lemma OthersLead(m: Members, x: Envelope, x1: Envelope, y: Envelope)
    requires m.Member? && Sound(m.value, false)
    requires SetField(x, FieldOf(Unquote(m.key)), m.value, m.raw) == Present(x1)
    requires SignedOver(LastSaid(m.tail, "protocolversion", false), x1.protocolVersion, y.protocolVersion)
    requires UnsignedOver(LastSaid(m.tail, "seqid", false), x1.seqID, y.seqID)
    requires RawOver(LastSaid(m.tail, "payload", true), x1.payload, y.payload)
    ensures SignedOver(LastSaid(m, "protocolversion", false), x.protocolVersion, y.protocolVersion)
    ensures UnsignedOver(LastSaid(m, "seqid", false), x.seqID, y.seqID)
    ensures RawOver(LastSaid(m, "payload", true), x.payload, y.payload)
  {
    hide SetField, FieldOf, Unquote, LastSaid, Called, Sound, TextField, WordOf, IsIntText, Decimal, IsSigned,
      IsUnsigned, SetError, SetChunk;
    var f := FieldOf(Unquote(m.key));
    KeyField(Unquote(m.key));
    LastSaidStep(m, "protocolversion", false);
    LastSaidStep(m, "seqid", false);
    LastSaidStep(m, "payload", true);
    if IsTextField(f) {
      SetTextExactly(x, f, m.value, m.raw);
    } else {
      SetOtherExactly(x, f, m.value, m.raw);
      NumbersOnly(m.value);
    }
  }

  lemma NumbersOnly(value: Json)
    ensures FitsField(FVersion, value) || FitsField(FSeq, value) ==> value.Null? || value.Num?
  {
  }

  lemma GatheredStep(m: Members, word: string, before: Maybe<Members>)
    requires m.Member?
    ensures Gathered(m, word, before) ==
            if !Called(Unquote(m.key), word) then Gathered(m.tail, word, before)
            else
              Gathered(m.tail, word,
                       if m.value.Obj? then
                         Present(Append(if before.Present? then before.value else NoMembers, m.value.members))
                       else Absent)
  {
    hide Called, Unquote;
  }

  // One member: it fits or the filling fails, and the error and the chunk follow what is told.
  lemma MemberFits(m: Members, x: Envelope, errors: Maybe<Members>, chunks: Maybe<Members>)
    requires m.Member? && Sound(m.value, false) && ErrorIs(x.error, errors) && ChunkIs(x.chunk, chunks)
    ensures var f := FieldOf(Unquote(m.key)); var r := SetField(x, f, m.value, m.raw);
            && (r.Present? <==> FitsField(f, m.value))
            && (r.Present? ==>
                  && ErrorIs(r.value.error, if f != FError then errors
                       else if m.value.Obj? then
                         Present(Append(if errors.Present? then errors.value else NoMembers, m.value.members))
                       else Absent)
                  && ChunkIs(r.value.chunk, if f != FChunk then chunks
                       else if m.value.Obj? then
                         Present(Append(if chunks.Present? then chunks.value else NoMembers, m.value.members))
                       else Absent))
  {
    hide SetField, FieldOf, Unquote, Sound, TextField, IsIntText, Decimal, IsSigned, IsUnsigned, SetError, SetChunk,
      ErrorIs, ChunkIs, FitsError, FitsChunk;
    var f := FieldOf(Unquote(m.key));
    if IsTextField(f) {
      SetTextExactly(x, f, m.value, m.raw);
    } else {
      SetOtherExactly(x, f, m.value, m.raw);
      SetErrorTold(x.error, errors, m.value);
      SetChunkTold(x.chunk, chunks, m.value);
    }
  }

  lemma FitsStep(m: Members)
    requires m.Member?
    ensures FitsEnvelope(m) <==> FitsField(FieldOf(Unquote(m.key)), m.value) && FitsEnvelope(m.tail)
  {
    hide FieldOf, Called, Unquote, IsSigned, IsUnsigned, FitsError, FitsChunk, IsText, WordOf;
    KeyField(Unquote(m.key));
  }

  lemma FillStep(x: Envelope, m: Members)
    requires m.Member?
    ensures Fill(x, m) ==
            var r := SetField(x, FieldOf(Unquote(m.key)), m.value, m.raw);
            if r.Present? then Fill(r.value, m.tail) else Absent
  {
    hide SetField, FieldOf, Unquote;
  }

  // Filling succeeds exactly if every member fits, and then each field is what was last
  // said of it, or what it was.
  lemma {:induction false} FillExactly(x: Envelope, m: Members, errors: Maybe<Members>, chunks: Maybe<Members>)
    requires SoundMembers(m, false) && ErrorIs(x.error, errors) && ChunkIs(x.chunk, chunks)
    ensures Fill(x, m).Present? <==> FitsEnvelope(m)
    ensures Fill(x, m).Present? ==>
              var y := Fill(x, m).value;
              && LeadsTo(m, x, y)
              && ErrorIs(y.error, Gathered(m, "error", errors)) && ChunkIs(y.chunk, Gathered(m, "chunk", chunks))
    decreases m
  {
    hide Fill, SetField, FieldOf, Unquote, Sound, TextField, ErrorIs, ChunkIs, FitsEnvelope, FitsField, Gathered,
      LastSaid, Called, WordOf, IsBody;
    if m.NoMembers? {
      FillNone(x, errors, chunks);
    } else {
      FillStep(x, m);
      FitsStep(m);
      MemberFits(m, x, errors, chunks);
      KeyField(Unquote(m.key));
      GatheredStep(m, "error", errors);
      GatheredStep(m, "chunk", chunks);
      var f := FieldOf(Unquote(m.key));
      var r := SetField(x, f, m.value, m.raw);
      if r.Present? {
        var joined := if errors.Present? then errors.value else NoMembers;
        var told := if f != FError then errors
                    else if m.value.Obj? then Present(Append(joined, m.value.members)) else Absent;
        var held := if chunks.Present? then chunks.value else NoMembers;
        var counted := if f != FChunk then chunks
                       else if m.value.Obj? then Present(Append(held, m.value.members)) else Absent;
        FillExactly(r.value, m.tail, told, counted);
        if Fill(x, m).Present? {
          var y := Fill(x, m).value;
          forall name | IsTextField(name)
            ensures TextOver(LastSaid(m, WordOf(name), false), TextField(x, name), TextField(y, name))
          {
            TextLeads(m, x, r.value, y, name);
          }
          OthersLead(m, x, r.value, y);
        }
      }
    }
  }

  lemma FillNone(x: Envelope, errors: Maybe<Members>, chunks: Maybe<Members>)
    ensures Fill(x, NoMembers) == Present(x) && FitsEnvelope(NoMembers) && LeadsTo(NoMembers, x, x)
    ensures Gathered(NoMembers, "error", errors) == errors && Gathered(NoMembers, "chunk", chunks) == chunks
  {
  }

  // ---------- what a frame is read as ----------

  lemma {:induction false} LastSaidSound(m: Members, word: string, nulls: bool)
    requires SoundMembers(m, false)
    ensures LastSaid(m, word, nulls).Present? ==> Sound(LastSaid(m, word, nulls).value.value, false)
    decreases m
  {
    hide Called, Unquote, Sound, IsBody;
    if m.Member? { LastSaidSound(m.tail, word, nulls); }
  }

  lemma TextSays(m: Members, word: string, s: string)
    requires SoundMembers(m, false)
    ensures TextOver(LastSaid(m, word, false), "", s) <==> SaysText(LastSaid(m, word, false), s)
  {
    hide Called, Unquote, LastSaid, IsBody;
    LastSaidSound(m, word, false);
    var said := LastSaid(m, word, false);
    if said.Present? && said.value.value.Str? { TextSaid(said.value.value.body, s); }
  }

  lemma ErrorTells(ms: Members, e: RemoteError)
    requires SoundMembers(ms, false) && FitsError(ms)
    ensures FillError(NO_ERROR, ms) == Present(e) <==> TellsError(ms, e)
  {
    hide FillError, LastSaid, SoundMembers, FitsError, TextOver, SaysText;
    FillErrorExactly(NO_ERROR, ms);
    TextSays(ms, "code", e.code);
    TextSays(ms, "message", e.message);
    var y := FillError(NO_ERROR, ms).value;
    TextSays(ms, "code", y.code);
    TextSays(ms, "message", y.message);
    if TellsError(ms, e) {
      SaysOne(LastSaid(ms, "code", false), e.code, y.code);
      SaysOne(LastSaid(ms, "message", false), e.message, y.message);
    }
  }

  lemma SaysOne(said: Maybe<Said>, a: string, b: string)
    requires SaysText(said, a) && SaysText(said, b)
    ensures a == b
  {
    hide JsonLiterals.Writes, Unquote, IsBody;
    if said.Present? {
      JsonLiterals.LiteralsExactly(said.value.value.body, a);
      JsonLiterals.LiteralsExactly(said.value.value.body, b);
    }
  }

  lemma UnsignedSaysOne(said: Maybe<Said>, a: nat, b: nat)
    requires SaysUnsigned(said, a) && SaysUnsigned(said, b)
    ensures a == b
  {
    hide Decimal;
    if said.Present? { DecimalInjective(a, b); }
  }

  lemma SignedSaysOne(m: Members, word: string, a: int, b: int)
    requires SoundMembers(m, false)
    requires SaysSigned(LastSaid(m, word, false), a) && SaysSigned(LastSaid(m, word, false), b)
    ensures a == b
  {
    hide IsIntText, LastSaid, NumberLen;
    LastSaidSound(m, word, false);
    var said := LastSaid(m, word, false);
    if said.Present? { IntTextUnique(said.value.value.literal, a, b); }
  }

  lemma ChunkTells(ms: Members, c: Chunk)
    requires SoundMembers(ms, false) && FitsChunk(ms)
    ensures FillChunk(NO_CHUNK, ms) == Present(c) <==> TellsChunk(ms, c)
  {
    hide FillChunk, LastSaid, SoundMembers, FitsChunk, TextOver, SaysText, Decimal;
    FillChunkExactly(NO_CHUNK, ms);
    var y := FillChunk(NO_CHUNK, ms).value;
    TextSays(ms, "messagechunkbase64", c.messageChunkBase64);
    TextSays(ms, "messagechunkbase64", y.messageChunkBase64);
    if TellsChunk(ms, c) {
      SaysOne(LastSaid(ms, "messagechunkbase64", false), c.messageChunkBase64, y.messageChunkBase64);
      UnsignedSaysOne(LastSaid(ms, "segmentid", false), c.segmentID, y.segmentID);
      UnsignedSaysOne(LastSaid(ms, "segmentcount", false), c.segmentCount, y.segmentCount);
      UnsignedSaysOne(LastSaid(ms, "messagesizebytes", false), c.messageSizeBytes, y.messageSizeBytes);
    }
  }

  // The fields that are no objects, as led to from an empty envelope.
  ghost predicate TellsPlain(m: Members, e: Envelope) {
    && (forall name :: IsTextField(name) ==> SaysText(LastSaid(m, WordOf(name), false), TextField(e, name)))
    && SaysSigned(LastSaid(m, "protocolversion", false), e.protocolVersion)
    && SaysUnsigned(LastSaid(m, "seqid", false), e.seqID)
    && SaysRaw(LastSaid(m, "payload", true), e.payload)
  }

  lemma LeadsTells(m: Members, y: Envelope)
    requires SoundMembers(m, false)
    ensures LeadsTo(m, EMPTY, y) <==> TellsPlain(m, y)
  {
    hide LastSaid, TextOver, SaysText, WordOf, SoundMembers, IsIntText, Decimal;
    forall name | IsTextField(name)
      ensures TextOver(LastSaid(m, WordOf(name), false), "", TextField(y, name)) <==>
              SaysText(LastSaid(m, WordOf(name), false), TextField(y, name))
    {
      TextSays(m, WordOf(name), TextField(y, name));
    }
    assert forall name :: IsTextField(name) ==> TextField(EMPTY, name) == "";
  }

  lemma PlainTellsOne(m: Members, a: Envelope, b: Envelope)
    requires SoundMembers(m, false) && TellsPlain(m, a) && TellsPlain(m, b)
    ensures a == b.(error := a.error, chunk := a.chunk)
  {
    hide LastSaid, SaysText, WordOf, SoundMembers, IsIntText, Decimal;
    forall name | IsTextField(name) ensures TextField(a, name) == TextField(b, name) {
      SaysOne(LastSaid(m, WordOf(name), false), TextField(a, name), TextField(b, name));
    }
    SignedSaysOne(m, "protocolversion", a.protocolVersion, b.protocolVersion);
    UnsignedSaysOne(LastSaid(m, "seqid", false), a.seqID, b.seqID);
    assert a.kind == TextField(a, FType) && b.kind == TextField(b, FType);
    assert a.clientID == TextField(a, FClient) && b.clientID == TextField(b, FClient);
    assert a.streamID == TextField(a, FStream) && b.streamID == TextField(b, FStream);
    assert a.requestID == TextField(a, FRequest) && b.requestID == TextField(b, FRequest);
    assert a.cursor == TextField(a, FCursor) && b.cursor == TextField(b, FCursor);
    assert a.operation == TextField(a, FOperation) && b.operation == TextField(b, FOperation);
  }

  lemma PlainPart(m: Members, e: Envelope)
    ensures TellsEnvelope(m, e) <==>
            && TellsPlain(m, e)
            && (match Gathered(m, "error", Absent)
                case Absent => e.error.Absent?
                case Present(ms) => e.error.Present? && TellsError(ms, e.error.value))
            && (match Gathered(m, "chunk", Absent)
                case Absent => e.chunk.Absent?
                case Present(ms) => e.chunk.Present? && TellsChunk(ms, e.chunk.value))
  {
    hide LastSaid, SaysText, SaysSigned, SaysUnsigned, SaysRaw, Gathered, TellsError, TellsChunk;
    assert WordOf(FType) == "type" && WordOf(FClient) == "clientid" && WordOf(FStream) == "streamid";
    assert WordOf(FRequest) == "requestid" && WordOf(FCursor) == "cursor" && WordOf(FOperation) == "operation";
  }

  lemma ErrorByTold(error: Maybe<RemoteError>, told: Maybe<Members>, e: Maybe<RemoteError>)
    requires ErrorIs(error, told)
    ensures error == e <==>
            match told
            case Absent => e.Absent?
            case Present(ms) => e.Present? && TellsError(ms, e.value)
  {
    hide FillError, TellsError, SoundMembers;
    if told.Present? {
      FillErrorExactly(NO_ERROR, told.value);
      ErrorTells(told.value, error.value);
      if e.Present? { ErrorTells(told.value, e.value); }
    }
  }

  lemma ChunkByTold(chunk: Maybe<Chunk>, told: Maybe<Members>, c: Maybe<Chunk>)
    requires ChunkIs(chunk, told)
    ensures chunk == c <==>
            match told
            case Absent => c.Absent?
            case Present(ms) => c.Present? && TellsChunk(ms, c.value)
  {
    hide FillChunk, TellsChunk, SoundMembers;
    if told.Present? {
      FillChunkExactly(NO_CHUNK, told.value);
      ChunkTells(told.value, chunk.value);
      if c.Present? { ChunkTells(told.value, c.value); }
    }
  }

  // The members of an object fill an envelope exactly if they all fit and describe it.
  lemma FillTells(m: Members, e: Envelope)
    requires SoundMembers(m, false)
    ensures Fill(EMPTY, m) == Present(e) <==> FitsEnvelope(m) && TellsEnvelope(m, e)
  {
    hide Fill, FitsEnvelope, TellsEnvelope, TellsPlain, LeadsTo, SoundMembers, TellsError, TellsChunk, ErrorIs, ChunkIs;
    StartsEmpty();
    FillExactly(EMPTY, m, Absent, Absent);
    PlainPart(m, e);
    if Fill(EMPTY, m).Present? {
      var y := Fill(EMPTY, m).value;
      LeadsTells(m, y);
      ErrorByTold(y.error, Gathered(m, "error", Absent), e.error);
      ChunkByTold(y.chunk, Gathered(m, "chunk", Absent), e.chunk);
      if TellsEnvelope(m, e) { PlainTellsOne(m, y, e); }
    }
  }

  lemma StartsEmpty()
    ensures ErrorIs(EMPTY.error, Absent) && ChunkIs(EMPTY.chunk, Absent)
  {
  }

  // The value is the envelope: null an empty one, an object the one its members describe.
  ghost predicate IsEnvelope(v: Json, e: Envelope) {
    (v.Null? && e == EMPTY) || (v.Obj? && FitsEnvelope(v.members) && TellsEnvelope(v.members, e))
  }

  // The frame lays out such a value in some legal way.
  ghost predicate Holds(data: string, e: Envelope) {
    exists l, before, after ::
      IsTextOf(data, l, before, after) && Nesting(ValueOf(l)) <= 10000 && IsEnvelope(ValueOf(l), e)
  }

  lemma UnmarshalsExactly(data: string, e: Envelope)
    ensures Unmarshal(data) == Present(e) <==> Holds(data, e)
  {
    hide ParseText, Fill, IsTextOf, ValueOf, Nesting, FitsEnvelope, TellsEnvelope;
    if ParseText(data).WellFormed? {
      var v := ParseText(data).value;
      ReadsExactly(data, v);
      var l, before, after :| IsTextOf(data, l, before, after) && ValueOf(l) == v;
      LayoutIsSound(data, l, before, after);
      if v.Obj? { FillTells(v.members, e); }
    }
    forall l, before, after | IsTextOf(data, l, before, after) && Nesting(ValueOf(l)) <= 10000
      ensures ParseText(data) == WellFormed(ValueOf(l))
    {
      ReadsExactly(data, ValueOf(l));
    }
  }

  // A frame is read as an envelope exactly if it is no larger than a frame may be, holds
  // the envelope, and the envelope is valid.
  lemma FramesReadExactly(data: string, e: Envelope)
    ensures DecodeEnvelope(data) == Decoded(e) <==> |data| <= 262144 && Holds(data, e) && Validate(e).Valid?
  {
    hide Validate, Unmarshal, Holds;
    UnmarshalsExactly(data, e);
  }

  // Any other is refused: by the envelope's own code if it holds one, else as invalid.
  lemma FramesRefusedExactly(data: string, code: string)
    ensures DecodeEnvelope(data) == NotDecoded(code) <==>
            if |data| <= 262144 && (exists e :: Holds(data, e)) then
              exists e :: Holds(data, e) && Validate(e) == Invalid(code)
            else code == "invalid_envelope"
  {
    hide Validate, Unmarshal, Holds;
    forall e ensures Unmarshal(data) == Present(e) <==> Holds(data, e) {
      UnmarshalsExactly(data, e);
    }
    if Unmarshal(data).Present? { assert Holds(data, Unmarshal(data).value); }
  }

  lemma LayoutIsSound(data: string, l: Layout, before: string, after: string)
    requires IsTextOf(data, l, before, after)
    ensures ValueOf(l).Obj? ==> SoundMembers(ValueOf(l).members, false)
  {
    hide Legal, Spelled, ValueOf, SoundMembers;
    LayoutSound(l);
    if ValueOf(l).Obj? { SoundObject(ValueOf(l)); }
  }
}

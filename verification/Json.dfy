// JSON texts as Go's encoding/json reads, compacts and writes them (RFC 8259).
module Json {
  import opened Text
  import opened JsonString
  import opened JsonNumber

  // A value by the literals it was written with. A member keeps the text of its value, as
  // a json.RawMessage field receives it.
  datatype Json =
    | Null
    | Bool(b: bool)
    | Num(literal: string)
    | Str(body: string)
    | Arr(items: Items)
    | Obj(members: Members)

  datatype Items = NoItems | Item(head: Json, tail: Items)

  datatype Members = NoMembers | Member(key: string, value: Json, raw: string, tail: Members)

  // The scanner's limit on open arrays and objects.
  const MAX_NESTING := 10000

  // ---------- reading ----------

  predicate IsSpace(c: char) {
    c == ' ' || c == '\t' || c == '\n' || c == '\r'
  }

  function SkipSpace(s: string): (t: string)
    ensures |t| <= |s|
    decreases |s|
  {
    if s != "" && IsSpace(s[0]) then SkipSpace(s[1..]) else s
  }

  datatype Parsed<T> = Fail | Done(value: T, rest: string)

  // The value that s begins with, with at most depth further levels of nesting.
  function ParseValue(s: string, depth: nat): (r: Parsed<Json>)
    ensures r.Done? ==> |r.rest| < |s|
    decreases |s|, 0
  {
    if s == "" then Fail
    else if s[0] == '"' then ParseString(s)
    else if s[0] == '[' then
      var t := SkipSpace(s[1..]);
      if depth == 0 then Fail
      else if HasPrefix(t, "]") then Done(Arr(NoItems), t[1..])
      else ArrayOf(ParseItems(t, depth - 1))
    else if s[0] == '{' then
      var t := SkipSpace(s[1..]);
      if depth == 0 then Fail
      else if HasPrefix(t, "}") then Done(Obj(NoMembers), t[1..])
      else ObjectOf(ParseMembers(t, depth - 1))
    else if HasPrefix(s, "null") then Done(Null, s[4..])
    else if HasPrefix(s, "true") then Done(Bool(true), s[4..])
    else if HasPrefix(s, "false") then Done(Bool(false), s[5..])
    else if NumberLen(s) == 0 then Fail
    else Done(Num(s[..NumberLen(s)]), s[NumberLen(s)..])
  }

  function ArrayOf(r: Parsed<Items>): Parsed<Json> {
    if r.Done? then Done(Arr(r.value), r.rest) else Fail
  }

  function ObjectOf(r: Parsed<Members>): Parsed<Json> {
    if r.Done? then Done(Obj(r.value), r.rest) else Fail
  }

  function ParseString(s: string): (r: Parsed<Json>)
    requires s != ""
    ensures r.Done? ==> |r.rest| < |s| && r.value.Str?
  {
    var n := BodyLen(s[1..]);
    if 1 + n < |s| && s[1 + n] == '"' then Done(Str(s[1..1 + n]), s[n + 2..]) else Fail
  }

  function ParseItems(s: string, depth: nat): (r: Parsed<Items>)
    ensures r.Done? ==> |r.rest| < |s|
    decreases |s|, 1
  {
    match ParseValue(s, depth)
    case Fail => Fail
    case Done(head, rest) =>
      var t := SkipSpace(rest);
      if HasPrefix(t, "]") then Done(Item(head, NoItems), t[1..])
      else if HasPrefix(t, ",") then
        match ParseItems(SkipSpace(t[1..]), depth)
        case Done(tail, last) => Done(Item(head, tail), last)
        case Fail => Fail
      else Fail
  }

  function ParseMembers(s: string, depth: nat): (r: Parsed<Members>)
    ensures r.Done? ==> |r.rest| < |s|
    decreases |s|, 1
  {
    if !HasPrefix(s, "\"") || ParseString(s).Fail? then Fail
    else
      var key := ParseString(s);
      var t := SkipSpace(key.rest);
      if !HasPrefix(t, ":") then Fail
      else
        var v := SkipSpace(t[1..]);
        AfterColon(key.value.body, v, ParseValue(v, depth), depth)
  }

  // The rest of a member whose value was read from v, and the members after it.
  function AfterColon(key: string, v: string, value: Parsed<Json>, depth: nat): (r: Parsed<Members>)
    requires value.Done? ==> |value.rest| < |v|
    ensures r.Done? ==> |r.rest| < |v|
    decreases |v|, 0
  {
    if value.Fail? then Fail
    else
      var raw := v[..|v| - |value.rest|];
      var u := SkipSpace(value.rest);
      if HasPrefix(u, "}") then Done(Member(key, value.value, raw, NoMembers), u[1..])
      else if HasPrefix(u, ",") then
        var more := ParseMembers(SkipSpace(u[1..]), depth);
        if more.Done? then Done(Member(key, value.value, raw, more.value), more.rest) else Fail
      else Fail
  }

  datatype Document = Malformed | WellFormed(value: Json)

  // A whole text: one value with white space around it (json.Valid, json.Unmarshal).
  function ParseText(s: string): Document {
    match ParseValue(SkipSpace(s), MAX_NESTING)
    case Fail => Malformed
    case Done(value, rest) => if SkipSpace(rest) == "" then WellFormed(value) else Malformed
  }

  // ---------- writing ----------

  function Print(v: Json): string {
    match v
    case Null => "null"
    case Bool(b) => if b then "true" else "false"
    case Num(literal) => literal
    case Str(body) => "\"" + body + "\""
    case Arr(items) => "[" + PrintItems(items)
    case Obj(members) => "{" + PrintMembers(members)
  }

  function PrintItems(items: Items): string {
    match items
    case NoItems => "]"
    case Item(head, NoItems) => Print(head) + "]"
    case Item(head, tail) => Print(head) + "," + PrintItems(tail)
  }

  function PrintMembers(members: Members): string {
    match members
    case NoMembers => "}"
    case Member(key, value, _, NoMembers) => "\"" + key + "\":" + Print(value) + "}"
    case Member(key, value, _, tail) => "\"" + key + "\":" + Print(value) + "," + PrintMembers(tail)
  }

  function Max(a: nat, b: nat): nat {
    if a < b then b else a
  }

  function Nesting(v: Json): nat {
    match v
    case Arr(items) => 1 + NestingItems(items)
    case Obj(members) => 1 + NestingMembers(members)
    case _ => 0
  }

  function NestingItems(items: Items): nat {
    match items
    case NoItems => 0
    case Item(head, tail) => Max(Nesting(head), NestingItems(tail))
  }

  function NestingMembers(members: Members): nat {
    match members
    case NoMembers => 0
    case Member(_, value, _, tail) => Max(Nesting(value), NestingMembers(tail))
  }

  // Every literal is one of its kind; compact says that members' texts are as Print writes
  // them.
  predicate Sound(v: Json, compact: bool) {
    match v
    case Num(literal) => IsNumber(literal)
    case Str(body) => IsBody(body)
    case Arr(items) => SoundItems(items, compact)
    case Obj(members) => SoundMembers(members, compact)
    case _ => true
  }

  predicate SoundItems(items: Items, compact: bool) {
    match items
    case NoItems => true
    case Item(head, tail) => Sound(head, compact) && SoundItems(tail, compact)
  }

  predicate SoundMembers(members: Members, compact: bool) {
    match members
    case NoMembers => true
    case Member(key, value, raw, tail) =>
      && IsBody(key) && Sound(value, compact) && SoundMembers(tail, compact)
      && (compact ==> raw == Print(value))
  }

  // ---------- writing, then reading ----------

  // A written value starts with a character that shows its kind.
  lemma PrintStarts(v: Json, compact: bool)
    requires Sound(v, compact)
    ensures var p := Print(v);
            && p != "" && !IsSpace(p[0]) && p[0] !in "]},:"
            && (p[0] == '"' <==> v.Str?) && (p[0] == '[' <==> v.Arr?) && (p[0] == '{' <==> v.Obj?)
  {
    if v.Num? {
      NumberStarts(v.literal);
    }
  }

  lemma StringParses(body: string, tail: string)
    requires IsBody(body)
    ensures ParseString("\"" + body + "\"" + tail) == Done(Str(body), tail)
  {
    hide BodyLen;
    BodyScans(body, tail);
    var s := "\"" + body + "\"" + tail;
    assert s[1..] == body + "\"" + tail;
    assert s[1 + |body|] == '"' && s[1..1 + |body|] == body && s[|body| + 2..] == tail;
  }

  lemma NumberParses(literal: string, tail: string, depth: nat)
    requires IsNumber(literal) && Ends(tail)
    ensures ParseValue(literal + tail, depth) == Done(Num(literal), tail)
  {
    hide NumberLen;
    NumberStarts(literal);
    NumberExtends(literal, tail);
  }
}

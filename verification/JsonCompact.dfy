// Compacting a raw JSON text, as json.Marshal does with a json.RawMessage: white space
// between tokens is dropped and HTML characters in strings are escaped.
module JsonCompact {
  import opened Utf8
  import opened JsonString
  import opened Json
  import opened JsonText

  function Escaped(v: Json): Json {
    match v
    case Str(body) => Str(EscapeBody(body))
    case Arr(items) => Arr(EscapedItems(items))
    case Obj(members) => Obj(EscapedMembers(members))
    case _ => v
  }

  function EscapedItems(items: Items): Items {
    match items
    case NoItems => NoItems
    case Item(head, tail) => Item(Escaped(head), EscapedItems(tail))
  }

  function EscapedMembers(members: Members): Members {
    match members
    case NoMembers => NoMembers
    case Member(key, value, _, tail) =>
      Member(EscapeBody(key), Escaped(value), Print(Escaped(value)), EscapedMembers(tail))
  }

  datatype Compaction = NotJson | Compacted(text: string)

  function Compact(raw: string): Compaction {
    match ParseText(raw)
    case Malformed => NotJson
    case WellFormed(v) => Compacted(Print(Escaped(v)))
  }

  // ---------- what parsing yields ----------

  // What is accepted consists of legal literals and respects the depth.
  lemma ParsedValueSound(s: string, depth: nat)
    ensures var r := ParseValue(s, depth); r.Done? ==> Sound(r.value, false) && Nesting(r.value) <= depth
  {
    hide ParseValue, Legal, Spelled;
    if ParseValue(s, depth).Done? {
      var l := ParsedLayout(s, depth);
      LayoutSound(l);
    }
  }

  // ---------- what escaping keeps ----------

  lemma {:induction false} EscapedSound(v: Json, compact: bool)
    requires Sound(v, compact)
    ensures Sound(Escaped(v), true) && Nesting(Escaped(v)) == Nesting(v)
    decreases v
  {
    hide IsBody, EscapeBody;
    match v
    case Str(body) => EscapeBodyScans(body, "");
    case Arr(items) => EscapedItemsSound(items, compact);
    case Obj(members) => EscapedMembersSound(members, compact);
    case _ =>
  }

  lemma {:induction false} EscapedItemsSound(items: Items, compact: bool)
    requires SoundItems(items, compact)
    ensures SoundItems(EscapedItems(items), true) && NestingItems(EscapedItems(items)) == NestingItems(items)
    decreases items
  {
    if items == NoItems {
    } else {
      EscapedSound(items.head, compact);
      EscapedItemsSound(items.tail, compact);
    }
  }

  lemma {:induction false} EscapedMembersSound(members: Members, compact: bool)
    requires SoundMembers(members, compact)
    ensures SoundMembers(EscapedMembers(members), true)
    ensures NestingMembers(EscapedMembers(members)) == NestingMembers(members)
    decreases members
  {
    hide IsBody, EscapeBody, Print;
    if members == NoMembers {
    } else {
      EscapeBodyScans(members.key, "");
      EscapedSound(members.value, compact);
      EscapedMembersSound(members.tail, compact);
    }
  }

  // The value a text stands for: its strings read, its members' texts forgotten.
  function Meaning(v: Json): Json {
    match v
    case Str(body) => Str(Unquote(body))
    case Arr(items) => Arr(MeaningItems(items))
    case Obj(members) => Obj(MeaningMembers(members))
    case _ => v
  }

  function MeaningItems(items: Items): Items {
    match items
    case NoItems => NoItems
    case Item(head, tail) => Item(Meaning(head), MeaningItems(tail))
  }

  function MeaningMembers(members: Members): Members {
    match members
    case NoMembers => NoMembers
    case Member(key, value, _, tail) => Member(Unquote(key), Meaning(value), "", MeaningMembers(tail))
  }

  lemma {:induction false} EscapedMeans(v: Json)
    requires Sound(v, false)
    ensures Meaning(Escaped(v)) == Meaning(v)
    decreases v
  {
    hide EscapeBody, Unquote;
    match v
    case Str(body) => EscapeBodyMeans(body);
    case Arr(items) => EscapedItemsMean(items);
    case Obj(members) => EscapedMembersMean(members);
    case _ =>
  }

  lemma {:induction false} EscapedItemsMean(items: Items)
    requires SoundItems(items, false)
    ensures MeaningItems(EscapedItems(items)) == MeaningItems(items)
    decreases items
  {
    if items == NoItems {
    } else {
      EscapedMeans(items.head);
      EscapedItemsMean(items.tail);
    }
  }

  lemma {:induction false} EscapedMembersMean(members: Members)
    requires SoundMembers(members, false)
    ensures MeaningMembers(EscapedMembers(members)) == MeaningMembers(members)
    decreases members
  {
    hide EscapeBody, Unquote, Print;
    if members == NoMembers {
    } else {
      EscapeBodyMeans(members.key);
      EscapedMeans(members.value);
      EscapedMembersMean(members.tail);
    }
  }

  // Escaping a second time changes nothing.
  lemma {:induction false} EscapeBodyTwice(b: string)
    requires IsBody(b)
    ensures EscapeBody(EscapeBody(b)) == EscapeBody(b)
    decreases |b|
  {
    hide EscapeBody, EscapeHead, ReadHead, ReadLen, UnitLen;
    EscapeBodyEmpty();
    if b == "" {
    } else {
      BodySplits(b);
      var rest := b[ReadLen(b)..];
      if rest != "" { BodySplits(rest); }
      EscapeHeadReads(b);
      EscapeHeadTwice(b);
      EscapeBodyStep(b);
      EscapeBodyStep(EscapeBody(b));
      EscapeBodyTwice(rest);
      assert EscapeBody(b)[|EscapeHead(b)|..] == EscapeBody(rest);
    }
  }

  lemma EscapeHeadTwice(b: string)
    requires b != "" && UnitLen(b) > 0 && ReadLen(EscapeBody(b)) == |EscapeHead(b)| && EscapeBody(b) != ""
    ensures EscapeHead(EscapeBody(b)) == EscapeHead(b)
  {
    hide EscapeBody, ReadHead, ReadLen, UnitLen;
    EscapeBodyStep(b);
    var e, x := EscapeHead(b), EscapeBody(b);
    assert x[..|e|] == e;
    if IsLineSeparator(x) {
      LineSeparatorStays(b);
    }
    EscapeHeadFirst(b);
  }

  lemma EscapeHeadFirst(b: string)
    requires b != ""
    ensures var e := EscapeHead(b); e != "" && e[0] != '<' && e[0] != '>' && e[0] != '&'
  {
  }

  // No raw line separator is left at the front of an escaped body.
  lemma LineSeparatorStays(b: string)
    requires b != "" && UnitLen(b) > 0
    ensures !IsLineSeparator(EscapeBody(b))
  {
    hide EscapeBody;
    EscapeBodyStep(b);
    var e, x := EscapeHead(b), EscapeBody(b);
    if RuneLen(b) == 0 {
      BadByteStays(b);
      assert RuneLen(x) == 0;
    } else {
      assert forall i :: 0 <= i < |e| ==> x[i] == e[i];
    }
  }

  lemma {:induction false} EscapedTwice(v: Json)
    requires Sound(v, false)
    ensures Escaped(Escaped(v)) == Escaped(v)
    decreases v
  {
    hide EscapeBody;
    match v
    case Str(body) => EscapeBodyTwice(body);
    case Arr(items) => EscapedItemsTwice(items);
    case Obj(members) => EscapedMembersTwice(members);
    case _ =>
  }

  lemma {:induction false} EscapedItemsTwice(items: Items)
    requires SoundItems(items, false)
    ensures EscapedItems(EscapedItems(items)) == EscapedItems(items)
    decreases items
  {
    if items == NoItems {
    } else {
      EscapedTwice(items.head);
      EscapedItemsTwice(items.tail);
    }
  }

  lemma {:induction false} EscapedMembersTwice(members: Members)
    requires SoundMembers(members, false)
    ensures EscapedMembers(EscapedMembers(members)) == EscapedMembers(members)
    decreases members
  {
    hide EscapeBody, Print;
    if members == NoMembers {
    } else {
      EscapeBodyTwice(members.key);
      EscapedTwice(members.value);
      EscapedMembersTwice(members.tail);
    }
  }

  lemma TextSound(raw: string)
    ensures ParseText(raw).WellFormed? ==>
              && Sound(ParseText(raw).value, false) && Nesting(ParseText(raw).value) <= MAX_NESTING
  {
    hide ParseValue;
    ParsedValueSound(SkipSpace(raw), MAX_NESTING);
  }

  // A compacted text reads as the same value, and compacting it again changes nothing.
  lemma CompactMeans(raw: string)
    requires Compact(raw).Compacted?
    ensures ParseText(raw).WellFormed? && ParseText(Compact(raw).text).WellFormed?
    ensures Meaning(ParseText(Compact(raw).text).value) == Meaning(ParseText(raw).value)
    ensures Compact(Compact(raw).text) == Compact(raw)
  {
    hide Print, ParseText, Escaped, Meaning;
    CompactValue(raw);
    TextSound(raw);
    var v := ParseText(raw).value;
    EscapedMeans(v);
    EscapedTwice(v);
    CompactValue(Compact(raw).text);
  }

  lemma CompactValue(raw: string)
    ensures Compact(raw).Compacted? <==> ParseText(raw).WellFormed?
    ensures ParseText(raw).WellFormed? ==>
              && Compact(raw).text == Print(Escaped(ParseText(raw).value))
              && ParseText(Compact(raw).text) == WellFormed(Escaped(ParseText(raw).value))
              && Nesting(Escaped(ParseText(raw).value)) == Nesting(ParseText(raw).value)
              && Sound(Escaped(ParseText(raw).value), true)
  {
    hide Print, ParseText, Escaped;
    TextSound(raw);
    if ParseText(raw).WellFormed? {
      EscapedSound(ParseText(raw).value, false);
      TextParses(Escaped(ParseText(raw).value));
    }
  }
}

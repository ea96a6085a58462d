// Which texts are JSON (sections 2 to 7 of RFC 8259), by the ways of laying a value out as
// text, and that the reader reads exactly these.
module JsonText {
  import opened Json
  import opened JsonNumber
  import opened JsonString
  import opened Text

  // ---------- laying out a value ----------

  // A value as text: a literal, or a list whose parts have white space around them. Only
  // an empty list uses its own blank.
  datatype Layout =
    | Literal(v: Json)
    | ArrayText(blank: string, items: ItemTexts)
    | ObjectText(blank: string, members: MemberTexts)

  datatype ItemTexts = NoItemTexts | ItemText(before: string, item: Layout, after: string, tail: ItemTexts)

  datatype MemberTexts =
    | NoMemberTexts
    | MemberText(before: string, key: string, gap: string, behind: string, value: Layout, after: string,
                 tail: MemberTexts)

  predicate IsBlank(s: string) {
    forall c :: c in s ==> c in " \t\n\r"
  }

  predicate Legal(l: Layout) {
    match l
    case Literal(v) => !v.Arr? && !v.Obj? && Sound(v, true)
    case ArrayText(blank, items) => IsBlank(blank) && LegalItems(items)
    case ObjectText(blank, members) => IsBlank(blank) && LegalMembers(members)
  }

  predicate LegalItems(items: ItemTexts) {
    match items
    case NoItemTexts => true
    case ItemText(before, item, after, tail) => IsBlank(before) && Legal(item) && IsBlank(after) && LegalItems(tail)
  }

  predicate LegalMembers(members: MemberTexts) {
    match members
    case NoMemberTexts => true
    case MemberText(before, key, gap, behind, value, after, tail) =>
      && IsBlank(before) && IsBody(key) && IsBlank(gap) && IsBlank(behind) && Legal(value) && IsBlank(after)
      && LegalMembers(tail)
  }

  function Spelled(l: Layout): string {
    match l
    case Literal(v) => Print(v)
    case ArrayText(blank, items) =>
      "[" + if items.NoItemTexts? then blank + "]" else items.before + ItemsFrom(items)
    case ObjectText(blank, members) =>
      "{" + if members.NoMemberTexts? then blank + "}" else members.before + MembersFrom(members)
  }

  // The items from the first one's text on, with the closing bracket.
  function ItemsFrom(items: ItemTexts): string
    requires items.ItemText?
  {
    Spelled(items.item) + (items.after +
    if items.tail.NoItemTexts? then "]" else "," + (items.tail.before + ItemsFrom(items.tail)))
  }

  function MembersFrom(members: MemberTexts): string
    requires members.MemberText?
  {
    var m := members;
    "\"" + m.key + "\"" + (m.gap + (":" + (m.behind + (Spelled(m.value) + (m.after +
    if m.tail.NoMemberTexts? then "}" else "," + (m.tail.before + MembersFrom(m.tail)))))))
  }

  // The value that is laid out; its members keep their texts as spelled.
  function ValueOf(l: Layout): Json {
    match l
    case Literal(v) => v
    case ArrayText(_, items) => Arr(ItemsOf(items))
    case ObjectText(_, members) => Obj(MembersOf(members))
  }

  function ItemsOf(items: ItemTexts): Items {
    match items
    case NoItemTexts => NoItems
    case ItemText(_, item, _, tail) => Item(ValueOf(item), ItemsOf(tail))
  }

  function MembersOf(members: MemberTexts): Members {
    match members
    case NoMemberTexts => NoMembers
    case MemberText(_, key, _, _, value, _, tail) => Member(key, ValueOf(value), Spelled(value), MembersOf(tail))
  }

  // ---------- white space ----------

  lemma {:induction false} BlankSkipped(a: string, t: string)
    requires IsBlank(a) && (t == "" || !IsSpace(t[0]))
    ensures SkipSpace(a + t) == t
    decreases |a|
  {
    if a == "" {
      assert a + t == t;
    } else {
      assert a[0] in a && (a + t)[1..] == a[1..] + t;
      assert forall c :: c in a[1..] ==> c in a;
      BlankSkipped(a[1..], t);
    }
  }

  lemma BlankEnds(a: string, t: string)
    requires IsBlank(a) && Ends(t)
    ensures Ends(a + t)
  {
    if a != "" { assert a[0] in a; }
  }

  lemma {:induction false} SkippedBlank(s: string) returns (a: string)
    ensures s == a + SkipSpace(s) && IsBlank(a)
    ensures SkipSpace(s) == "" || !IsSpace(SkipSpace(s)[0])
    decreases |s|
  {
    if s != "" && IsSpace(s[0]) {
      var rest := SkippedBlank(s[1..]);
      a := [s[0]] + rest;
    } else {
      a := "";
    }
  }

  // ---------- spelled, then read ----------

  lemma SpelledStarts(l: Layout)
    requires Legal(l)
    ensures var p := Spelled(l);
            && p != "" && !IsSpace(p[0]) && p[0] !in "]},:"
            && (p[0] == '"' <==> ValueOf(l).Str?)
            && (p[0] == '[' <==> ValueOf(l).Arr?) && (p[0] == '{' <==> ValueOf(l).Obj?)
  {
    if l.Literal? { PrintStarts(l.v, true); }
  }

  // A spelled value is read as that value exactly when it nests no deeper than allowed.
  lemma {:induction false} LayoutParses(l: Layout, tail: string, depth: nat)
    requires Legal(l) && Ends(tail)
    ensures ParseValue(Spelled(l) + tail, depth) ==
            if Nesting(ValueOf(l)) <= depth then Done(ValueOf(l), tail) else Fail
    decreases l, 0
  {
    hide BodyLen, NumberLen;
    match l
    case Literal(v) => LiteralParses(v, tail, depth);
    case ArrayText(blank, items) => ArrayParses(blank, items, tail, depth);
    case ObjectText(blank, members) => ObjectParses(blank, members, tail, depth);
  }

  lemma LiteralParses(v: Json, tail: string, depth: nat)
    requires !v.Arr? && !v.Obj? && Sound(v, true) && Ends(tail)
    ensures ParseValue(Print(v) + tail, depth) == Done(v, tail)
  {
    hide BodyLen, NumberLen;
    match v
    case Num(literal) => NumberParses(literal, tail, depth);
    case Str(body) => StringParses(body, tail);
    case _ =>
  }

  lemma OpensArray(t: string, depth: nat)
    ensures ParseValue("[" + t, depth) ==
            var u := SkipSpace(t);
            if depth == 0 then Fail
            else if HasPrefix(u, "]") then Done(Arr(NoItems), u[1..])
            else ArrayOf(ParseItems(u, depth - 1))
  {
    assert ("[" + t)[1..] == t;
  }

  lemma OpensObject(t: string, depth: nat)
    ensures ParseValue("{" + t, depth) ==
            var u := SkipSpace(t);
            if depth == 0 then Fail
            else if HasPrefix(u, "}") then Done(Obj(NoMembers), u[1..])
            else ObjectOf(ParseMembers(u, depth - 1))
  {
    assert ("{" + t)[1..] == t;
  }

  lemma ArrayParses(blank: string, items: ItemTexts, tail: string, depth: nat)
    requires IsBlank(blank) && LegalItems(items)
    ensures ParseValue(Spelled(ArrayText(blank, items)) + tail, depth) ==
            if Nesting(Arr(ItemsOf(items))) <= depth then Done(Arr(ItemsOf(items)), tail) else Fail
    decreases items, 2
  {
    hide ParseValue, ParseItems, SkipSpace, IsBlank, Spelled, ItemsFrom;
    SpellArray(blank, items);
    if items.NoItemTexts? {
      var t := "]" + tail;
      BlankSkipped(blank, t);
      assert Spelled(ArrayText(blank, items)) + tail == "[" + (blank + t);
      OpensArray(blank + t, depth);
      assert t[1..] == tail;
    } else {
      var t := ItemsFrom(items) + tail;
      ItemsStart(items, tail);
      BlankSkipped(items.before, t);
      assert Spelled(ArrayText(blank, items)) + tail == "[" + (items.before + t);
      OpensArray(items.before + t, depth);
      if depth > 0 { ItemsParse(items, tail, depth - 1); }
    }
  }

  lemma SpellArray(blank: string, items: ItemTexts)
    ensures Spelled(ArrayText(blank, items)) ==
            "[" + if items.NoItemTexts? then blank + "]" else items.before + ItemsFrom(items)
    ensures Nesting(Arr(ItemsOf(items))) == 1 + NestingItems(ItemsOf(items))
    ensures NestingItems(NoItems) == 0
  {
  }

  lemma ItemsStart(items: ItemTexts, tail: string)
    requires items.ItemText? && LegalItems(items)
    ensures var t := ItemsFrom(items) + tail; t != "" && !IsSpace(t[0]) && !HasPrefix(t, "]")
  {
    hide Spelled;
    SpelledStarts(items.item);
  }

  // What ParseItems does after a head that was read, or not.
  lemma ItemsStep(s: string, depth: nat, head: Json, blank: string, after: string)
    requires after != "" && !IsSpace(after[0]) && IsBlank(blank)
    requires ParseValue(s, depth) == Fail || ParseValue(s, depth) == Done(head, blank + after)
    ensures ParseValue(s, depth).Fail? ==> ParseItems(s, depth) == Fail
    ensures ParseValue(s, depth).Done? && after[0] == ']' ==>
            ParseItems(s, depth) == Done(Item(head, NoItems), after[1..])
    ensures ParseValue(s, depth).Done? && after[0] == ',' ==>
              var more := ParseItems(SkipSpace(after[1..]), depth);
              ParseItems(s, depth) == if more.Done? then Done(Item(head, more.value), more.rest) else Fail
  {
    hide ParseValue, SkipSpace, IsBlank;
    BlankSkipped(blank, after);
  }

  lemma {:induction false} ItemsParse(items: ItemTexts, tail: string, depth: nat)
    requires items.ItemText? && LegalItems(items)
    ensures ParseItems(ItemsFrom(items) + tail, depth) ==
            if NestingItems(ItemsOf(items)) <= depth then Done(ItemsOf(items), tail) else Fail
    decreases items, 1
  {
    hide Spelled, ParseItems, ParseValue, Nesting, SkipSpace, IsBlank, ItemsFrom, ValueOf;
    var ItemText(before, item, blank, more) := items;
    var s, head := ItemsFrom(items) + tail, ValueOf(item);
    ItemsFromStep(items);
    if more.NoItemTexts? {
      var after := "]" + tail;
      assert s == Spelled(item) + (blank + after);
      BlankEnds(blank, after);
      LayoutParses(item, blank + after, depth);
      ItemsStep(s, depth, head, blank, after);
      assert after[1..] == tail;
    } else {
      var rest := ItemsFrom(more) + tail;
      var after := "," + (more.before + rest);
      assert s == Spelled(item) + (blank + after);
      BlankEnds(blank, after);
      LayoutParses(item, blank + after, depth);
      ItemsStep(s, depth, head, blank, after);
      assert after[1..] == more.before + rest;
      ItemsStart(more, tail);
      BlankSkipped(more.before, rest);
      ItemsParse(more, tail, depth);
    }
  }

  lemma ItemsFromStep(items: ItemTexts)
    requires items.ItemText?
    ensures ItemsFrom(items) == Spelled(items.item) + (items.after +
            if items.tail.NoItemTexts? then "]" else "," + (items.tail.before + ItemsFrom(items.tail)))
  {
  }

  lemma ObjectParses(blank: string, members: MemberTexts, tail: string, depth: nat)
    requires IsBlank(blank) && LegalMembers(members)
    ensures ParseValue(Spelled(ObjectText(blank, members)) + tail, depth) ==
            if Nesting(Obj(MembersOf(members))) <= depth then Done(Obj(MembersOf(members)), tail) else Fail
    decreases members, 2
  {
    hide ParseValue, ParseMembers, SkipSpace, IsBlank, Spelled, MembersFrom;
    SpellObject(blank, members);
    if members.NoMemberTexts? {
      var t := "}" + tail;
      BlankSkipped(blank, t);
      assert Spelled(ObjectText(blank, members)) + tail == "{" + (blank + t);
      OpensObject(blank + t, depth);
      assert t[1..] == tail;
    } else {
      var t := MembersFrom(members) + tail;
      MembersStart(members);
      BlankSkipped(members.before, t);
      assert Spelled(ObjectText(blank, members)) + tail == "{" + (members.before + t);
      OpensObject(members.before + t, depth);
      if depth > 0 { MembersParse(members, tail, depth - 1); }
    }
  }

  lemma SpellObject(blank: string, members: MemberTexts)
    ensures Spelled(ObjectText(blank, members)) ==
            "{" + if members.NoMemberTexts? then blank + "}" else members.before + MembersFrom(members)
    ensures Nesting(Obj(MembersOf(members))) == 1 + NestingMembers(MembersOf(members))
    ensures NestingMembers(NoMembers) == 0
  {
  }

  lemma MembersStart(members: MemberTexts)
    requires members.MemberText?
    ensures MembersFrom(members) != "" && MembersFrom(members)[0] == '"'
  {
  }

  // A member's text from its key on, with what follows the value.
  function MemberFrom(m: MemberTexts, after: string): string
    requires m.MemberText?
  {
    "\"" + m.key + "\"" + (m.gap + (":" + (m.behind + (Spelled(m.value) + after))))
  }

  lemma MembersFromOnce(m: MemberTexts)
    requires m.MemberText?
    ensures MembersFrom(m) ==
            MemberFrom(m, m.after + if m.tail.NoMemberTexts? then "}" else "," + (m.tail.before + MembersFrom(m.tail)))
  {
    hide Spelled;
  }

  lemma MembersFromStep(m: MemberTexts, tail: string)
    requires m.MemberText?
    ensures MembersFrom(m) + tail ==
            if m.tail.NoMemberTexts? then MemberFrom(m, m.after + ("}" + tail))
            else MemberFrom(m, m.after + ("," + (m.tail.before + (MembersFrom(m.tail) + tail))))
  {
    hide Spelled, MemberFrom, MembersFrom;
    MembersFromOnce(m);
    if m.tail.NoMemberTexts? {
      var x := m.after + "}";
      assert x + tail == m.after + ("}" + tail);
      MemberFromTail(m, x, tail);
    } else {
      var more := MembersFrom(m.tail);
      var x := m.after + ("," + (m.tail.before + more));
      assert x + tail == m.after + ("," + (m.tail.before + (more + tail)));
      MemberFromTail(m, x, tail);
    }
  }

  lemma MemberFromTail(m: MemberTexts, x: string, tail: string)
    requires m.MemberText?
    ensures MemberFrom(m, x) + tail == MemberFrom(m, x + tail)
  {
    hide Spelled;
    var v := Spelled(m.value);
    assert v + x + tail == v + (x + tail);
    assert m.behind + (v + x) + tail == m.behind + (v + (x + tail));
    assert ":" + (m.behind + (v + x)) + tail == ":" + (m.behind + (v + (x + tail)));
    assert m.gap + (":" + (m.behind + (v + x))) + tail == m.gap + (":" + (m.behind + (v + (x + tail))));
  }

  // How ParseMembers takes the next member apart.
  lemma MemberTaken(m: MemberTexts, after: string, depth: nat)
    requires m.MemberText? && LegalMembers(m)
    ensures var v := Spelled(m.value) + after;
            && ParseMembers(MemberFrom(m, after), depth) == AfterColon(m.key, v, ParseValue(v, depth), depth)
            && v[..|v| - |after|] == Spelled(m.value)
  {
    hide Spelled, ParseString, ParseValue, AfterColon, SkipSpace, IsBlank, IsBody;
    var v := Spelled(m.value) + after;
    var colon := ":" + (m.behind + v);
    StringParses(m.key, m.gap + colon);
    SpelledStarts(m.value);
    BlankSkipped(m.gap, colon);
    BlankSkipped(m.behind, v);
    assert colon[1..] == m.behind + v;
  }

  // What comes of a member whose value was read, or not.
  lemma MemberEnds(key: string, l: Layout, blank: string, after: string, depth: nat)
    requires after != "" && !IsSpace(after[0]) && IsBlank(blank)
    requires var v := Spelled(l) + (blank + after);
             ParseValue(v, depth) == Fail || ParseValue(v, depth) == Done(ValueOf(l), blank + after)
    ensures var v := Spelled(l) + (blank + after); var r := AfterColon(key, v, ParseValue(v, depth), depth);
            && (ParseValue(v, depth).Fail? ==> r == Fail)
            && (ParseValue(v, depth).Done? && after[0] == '}' ==>
                  r == Done(Member(key, ValueOf(l), Spelled(l), NoMembers), after[1..]))
            && (ParseValue(v, depth).Done? && after[0] == ',' ==>
                  var more := ParseMembers(SkipSpace(after[1..]), depth);
                  r == if more.Done? then Done(Member(key, ValueOf(l), Spelled(l), more.value), more.rest) else Fail)
  {
    hide ParseValue, ParseMembers, Spelled, ValueOf, SkipSpace, IsBlank;
    var v := Spelled(l) + (blank + after);
    assert v[..|v| - |blank + after|] == Spelled(l);
    BlankSkipped(blank, after);
  }

  lemma {:induction false} MembersParse(m: MemberTexts, tail: string, depth: nat)
    requires m.MemberText? && LegalMembers(m)
    ensures ParseMembers(MembersFrom(m) + tail, depth) ==
            if NestingMembers(MembersOf(m)) <= depth then Done(MembersOf(m), tail) else Fail
    decreases m, 1
  {
    hide Spelled, ParseMembers, ParseValue, AfterColon, Nesting, SkipSpace, IsBlank, IsBody, MembersFrom, MemberFrom,
      ValueOf;
    MembersFromStep(m, tail);
    if m.tail.NoMemberTexts? {
      var after := "}" + tail;
      BlankEnds(m.after, after);
      LayoutParses(m.value, m.after + after, depth);
      MemberTaken(m, m.after + after, depth);
      MemberEnds(m.key, m.value, m.after, after, depth);
      assert after[1..] == tail;
    } else {
      var rest := MembersFrom(m.tail) + tail;
      var after := "," + (m.tail.before + rest);
      BlankEnds(m.after, after);
      LayoutParses(m.value, m.after + after, depth);
      MemberTaken(m, m.after + after, depth);
      MemberEnds(m.key, m.value, m.after, after, depth);
      assert after[1..] == m.tail.before + rest;
      MembersStart(m.tail);
      BlankSkipped(m.tail.before, rest);
      MembersParse(m.tail, tail, depth);
    }
  }

  // ---------- written, then read ----------

  // The layout that Print uses: no white space at all.
  function Tight(v: Json): Layout {
    match v
    case Arr(items) => ArrayText("", TightItems(items))
    case Obj(members) => ObjectText("", TightMembers(members))
    case _ => Literal(v)
  }

  function TightItems(items: Items): ItemTexts {
    match items
    case NoItems => NoItemTexts
    case Item(head, tail) => ItemText("", Tight(head), "", TightItems(tail))
  }

  function TightMembers(members: Members): MemberTexts {
    match members
    case NoMembers => NoMemberTexts
    case Member(key, value, _, tail) => MemberText("", key, "", "", Tight(value), "", TightMembers(tail))
  }

  lemma TightArray(items: Items)
    ensures Tight(Arr(items)) == ArrayText("", TightItems(items)) && Print(Arr(items)) == "[" + PrintItems(items)
    ensures LegalItems(TightItems(items)) ==> Legal(ArrayText("", TightItems(items)))
    ensures ValueOf(ArrayText("", TightItems(items))) == Arr(ItemsOf(TightItems(items)))
    ensures TightItems(items).ItemText? ==> TightItems(items).before == ""
  {
    hide ItemsOf, PrintItems;
  }

  lemma TightObject(members: Members)
    ensures Tight(Obj(members)) == ObjectText("", TightMembers(members))
    ensures Print(Obj(members)) == "{" + PrintMembers(members)
    ensures LegalMembers(TightMembers(members)) ==> Legal(ObjectText("", TightMembers(members)))
    ensures ValueOf(ObjectText("", TightMembers(members))) == Obj(MembersOf(TightMembers(members)))
    ensures TightMembers(members).MemberText? ==> TightMembers(members).before == ""
  {
    hide MembersOf, PrintMembers;
  }

  lemma {:induction false} TightSpells(v: Json)
    requires Sound(v, true)
    ensures Legal(Tight(v)) && Spelled(Tight(v)) == Print(v) && ValueOf(Tight(v)) == v
    decreases v, 0
  {
    hide PrintItems, PrintMembers, ItemsFrom, MembersFrom, IsNumber, IsBody;
    match v
    case Arr(items) =>
      hide Spelled, Legal, ValueOf, Print, Tight;
      TightSpellsItems(items);
      TightArray(items);
      SpellArray("", TightItems(items));
    case Obj(members) =>
      hide Spelled, Legal, ValueOf, Print, Tight;
      TightSpellsMembers(members);
      TightObject(members);
      SpellObject("", TightMembers(members));
    case _ =>
  }

  lemma {:induction false} TightSpellsItems(items: Items)
    requires SoundItems(items, true)
    ensures var t := TightItems(items);
            && LegalItems(t) && ItemsOf(t) == items
            && PrintItems(items) == if t.NoItemTexts? then "]" else ItemsFrom(t)
    decreases items, 1
  {
    hide Print, Spelled, Sound, Legal, ValueOf;
    if items == NoItems {
    } else {
      TightSpells(items.head);
      TightSpellsItems(items.tail);
    }
  }

  lemma TightMember(key: string, value: Json, raw: string, tail: Members)
    ensures var m, t := Member(key, value, raw, tail), TightMembers(tail);
            && TightMembers(m) == MemberText("", key, "", "", Tight(value), "", t)
            && PrintMembers(m) ==
               "\"" + key + "\":" + (Print(value) + if tail == NoMembers then "}" else "," + PrintMembers(tail))
            && (t.NoMemberTexts? <==> tail == NoMembers) && (t.MemberText? ==> t.before == "")
  {
    hide Print, Tight;
  }

  // A member without white space, with what follows it.
  lemma TightMemberSpells(key: string, value: Layout, more: MemberTexts)
    requires IsBody(key) && Legal(value) && LegalMembers(more)
    ensures var t := MemberText("", key, "", "", value, "", more);
            && LegalMembers(t) && MembersOf(t) == Member(key, ValueOf(value), Spelled(value), MembersOf(more))
            && MembersFrom(t) ==
               "\"" + key + "\":" + (Spelled(value) + if more.NoMemberTexts? then "}"
                                                     else "," + (more.before + MembersFrom(more)))
  {
    hide Spelled, Legal, ValueOf, IsBody, MembersFrom;
    var t := MemberText("", key, "", "", value, "", more);
    BlankNothing();
    MembersFromOnce(t);
    var x := if more.NoMemberTexts? then "}" else "," + (more.before + MembersFrom(more));
    TightMemberText(key, Spelled(value), x);
  }

  lemma {:induction false} TightSpellsMembers(members: Members)
    requires SoundMembers(members, true)
    ensures var t := TightMembers(members);
            && LegalMembers(t) && MembersOf(t) == members
            && PrintMembers(members) == if t.NoMemberTexts? then "}" else MembersFrom(t)
    decreases members, 1
  {
    hide Print, Spelled, Sound, Legal, ValueOf, IsBody, MembersFrom, PrintMembers, Tight, LegalMembers, MembersOf;
    if members == NoMembers {
      NoMembersPrinted();
      EmptyLists();
    } else {
      var Member(key, value, raw, tail) := members;
      TightSpells(value);
      TightSpellsMembers(tail);
      TightMember(key, value, raw, tail);
      TightMemberSpells(key, Tight(value), TightMembers(tail));
      assert tail != NoMembers ==> "" + PrintMembers(tail) == PrintMembers(tail);
    }
  }

  lemma NoMembersPrinted()
    ensures PrintMembers(NoMembers) == "}"
  {
  }

  lemma TightMemberText(key: string, p: string, x: string)
    ensures "\"" + key + "\"" + ("" + (":" + ("" + (p + ("" + x))))) == "\"" + key + "\":" + (p + x)
  {
  }

  // A written value is read back exactly when it nests no deeper than allowed.
  lemma ValueParses(v: Json, tail: string, depth: nat)
    requires Sound(v, true) && Ends(tail)
    ensures ParseValue(Print(v) + tail, depth) == if Nesting(v) <= depth then Done(v, tail) else Fail
  {
    hide Print, Spelled, ParseValue, Sound, Legal;
    TightSpells(v);
    LayoutParses(Tight(v), tail, depth);
  }

  lemma TextParses(v: Json)
    requires Sound(v, true)
    ensures ParseText(Print(v)) == if Nesting(v) <= MAX_NESTING then WellFormed(v) else Malformed
  {
    hide Print, ParseValue;
    PrintStarts(v, true);
    ValueParses(v, "", MAX_NESTING);
    assert Print(v) + "" == Print(v);
  }

  // ---------- what is read was laid out ----------

  lemma {:induction false} BodyTaken(s: string)
    ensures IsBody(s[..BodyLen(s)])
    decreases |s|
  {
    var n, k := BodyLen(s), UnitLen(s);
    if k == 0 {
    } else {
      BodyTaken(s[k..]);
      UnitTaken(s, n);
      assert s[..n][k..] == s[k..][..n - k];
    }
  }

  lemma UnitTaken(s: string, n: nat)
    requires UnitLen(s) <= n <= |s|
    requires UnitLen(s) > 0
    ensures UnitLen(s[..n]) == UnitLen(s)
  {
  }

  lemma {:induction false} DigitsTaken(s: string, n: nat)
    requires Digits(s) <= n <= |s|
    ensures Digits(s[..n]) == Digits(s)
    decreases n
  {
    if n > 0 && Digits(s) > 0 {
      assert s[..n][1..] == s[1..][..n - 1];
      DigitsTaken(s[1..], n - 1);
    }
  }

  lemma IntegerTaken(s: string, n: nat)
    requires 0 <= IntegerLen(s) <= n <= |s|
    ensures IntegerLen(s[..n]) == IntegerLen(s)
  {
    if s[0] != '0' {
      DigitsTaken(s, n);
    }
  }

  lemma FractionTaken(s: string, n: nat)
    requires 0 <= FractionLen(s) <= n <= |s|
    requires FractionLen(s) == 0 ==> n == 0 || s[0] != '.'
    ensures FractionLen(s[..n]) == FractionLen(s)
  {
    if FractionLen(s) > 0 {
      DigitsTaken(s[1..], n - 1);
      assert s[..n][1..] == s[1..][..n - 1];
    }
  }

  lemma ExponentTaken(s: string)
    requires 0 <= ExponentLen(s)
    ensures ExponentLen(s[..ExponentLen(s)]) == ExponentLen(s)
  {
    var n := ExponentLen(s);
    if n > 0 {
      var sign := if |s| >= 2 && (s[1] == '+' || s[1] == '-') then 1 else 0;
      DigitsTaken(s[1 + sign..], n - 1 - sign);
      assert s[..n][1 + sign..] == s[1 + sign..][..n - 1 - sign];
    }
  }

  lemma NumberTaken(s: string)
    requires NumberLen(s) > 0
    ensures IsNumber(s[..NumberLen(s)])
  {
    hide IntegerLen, FractionLen, ExponentLen;
    var n := NumberLen(s);
    var x := s[..n];
    var sign := if s[0] == '-' then 1 else 0;
    var i := IntegerLen(s[sign..]);
    var f := FractionLen(s[sign + i..]);
    PartsBounded(s[sign..]);
    PartsBounded(s[sign + i..]);
    PartsBounded(s[sign + i + f..]);
    IntegerTaken(s[sign..], n - sign);
    assert x[sign..] == s[sign..][..n - sign];
    FractionTaken(s[sign + i..], n - sign - i);
    assert x[sign + i..] == s[sign + i..][..n - sign - i];
    ExponentTaken(s[sign + i + f..]);
    assert x[sign + i + f..] == s[sign + i + f..][..n - sign - i - f];
  }

  lemma PartsBounded(s: string)
    ensures IntegerLen(s) <= |s| && FractionLen(s) <= |s| && ExponentLen(s) <= |s|
    ensures IntegerLen(s) != 0
    ensures FractionLen(s) == 0 ==> s == "" || s[0] != '.'
  {
  }

  lemma ParsedString(s: string)
    requires s != "" && s[0] == '"' && ParseString(s).Done?
    ensures IsBody(ParseString(s).value.body)
    ensures s == "\"" + ParseString(s).value.body + "\"" + ParseString(s).rest
  {
    hide BodyLen;
    BodyTaken(s[1..]);
    assert s[1..][..BodyLen(s[1..])] == s[1..1 + BodyLen(s[1..])];
  }

  lemma ParsedWord(s: string, depth: nat)
    requires s != "" && s[0] !in "\"[{" && ParseValue(s, depth).Done?
    ensures var r := ParseValue(s, depth); Legal(Literal(r.value)) && s == Print(r.value) + r.rest
  {
    hide NumberLen, IsNumber;
    if NumberLen(s) > 0 { NumberTaken(s); }
  }

  // Every value that is read stands in the text in some layout.
  lemma {:induction false} ParsedLayout(s: string, depth: nat) returns (l: Layout)
    requires ParseValue(s, depth).Done?
    ensures Legal(l) && s == Spelled(l) + ParseValue(s, depth).rest
    ensures ValueOf(l) == ParseValue(s, depth).value && Nesting(ValueOf(l)) <= depth
    decreases |s|, 2
  {
    hide BodyLen, NumberLen, ItemsFrom, MembersFrom, ParseItems, ParseMembers, ParseValue;
    ParsedSomething(s, depth);
    if s[0] == '"' {
      ParsedString(s);
      l := Literal(ParseString(s).value);
      OpensString(s, depth);
    } else if s[0] == '[' {
      l := ParsedArray(s, depth);
    } else if s[0] == '{' {
      l := ParsedObject(s, depth);
    } else {
      ParsedWord(s, depth);
      l := Literal(ParseValue(s, depth).value);
    }
  }

  lemma ParsedSomething(s: string, depth: nat)
    requires ParseValue(s, depth).Done?
    ensures s != "" && (s[0] == '[' || s[0] == '{' ==> depth > 0) && (s[0] == '"' ==> ParseString(s).Done?)
  {
    hide BodyLen, NumberLen, ParseItems, ParseMembers;
  }

  lemma OpensString(s: string, depth: nat)
    requires s != "" && s[0] == '"'
    ensures ParseValue(s, depth) == ParseString(s)
  {
    hide ParseString;
  }

  lemma {:induction false} ParsedArray(s: string, depth: nat) returns (l: Layout)
    requires ParseValue(s, depth).Done? && s[0] == '[' && depth > 0
    ensures Legal(l) && s == Spelled(l) + ParseValue(s, depth).rest
    ensures ValueOf(l) == ParseValue(s, depth).value && Nesting(ValueOf(l)) <= depth
    decreases |s|, 1
  {
    hide ItemsFrom, ParseItems, ParseValue, SkipSpace, IsBlank, LegalItems, Spelled, NestingItems, ItemsOf;
    var rest := s[1..];
    assert s == "[" + rest;
    OpensArray(rest, depth);
    var t := SkipSpace(rest);
    var blank := SkippedBlank(rest);
    if HasPrefix(t, "]") {
      l := ArrayText(blank, NoItemTexts);
      SpellArray(blank, NoItemTexts);
      EmptyLists();
      assert t == "]" + t[1..];
    } else {
      var items := ParsedItems(t, depth - 1);
      SameItems(items, blank);
      l := ArrayText("", items.(before := blank));
      SpellArray("", items.(before := blank));
      BlankNothing();
    }
  }

  lemma EmptyLists()
    ensures ItemsOf(NoItemTexts) == NoItems && MembersOf(NoMemberTexts) == NoMembers
    ensures LegalItems(NoItemTexts) && LegalMembers(NoMemberTexts)
  {
  }

  lemma BlankNothing()
    ensures IsBlank("")
  {
  }

  lemma {:induction false} ParsedObject(s: string, depth: nat) returns (l: Layout)
    requires ParseValue(s, depth).Done? && s[0] == '{' && depth > 0
    ensures Legal(l) && s == Spelled(l) + ParseValue(s, depth).rest
    ensures ValueOf(l) == ParseValue(s, depth).value && Nesting(ValueOf(l)) <= depth
    decreases |s|, 1
  {
    hide MembersFrom, ParseMembers, ParseValue, SkipSpace, IsBlank, LegalMembers, Spelled, NestingMembers, MembersOf;
    var rest := s[1..];
    assert s == "{" + rest;
    OpensObject(rest, depth);
    var t := SkipSpace(rest);
    var blank := SkippedBlank(rest);
    if HasPrefix(t, "}") {
      l := ObjectText(blank, NoMemberTexts);
      SpellObject(blank, NoMemberTexts);
      EmptyLists();
      assert t == "}" + t[1..];
    } else {
      var members := ParsedMembers(t, depth - 1);
      SameMembers(members, blank);
      l := ObjectText("", members.(before := blank));
      SpellObject("", members.(before := blank));
      BlankNothing();
    }
  }

  lemma SameItems(items: ItemTexts, blank: string)
    requires items.ItemText?
    ensures ItemsFrom(items.(before := blank)) == ItemsFrom(items)
    ensures ItemsOf(items.(before := blank)) == ItemsOf(items)
    ensures LegalItems(items) && IsBlank(blank) ==> LegalItems(items.(before := blank))
  {
  }

  lemma SameMembers(members: MemberTexts, blank: string)
    requires members.MemberText?
    ensures MembersFrom(members.(before := blank)) == MembersFrom(members)
    ensures MembersOf(members.(before := blank)) == MembersOf(members)
    ensures LegalMembers(members) && IsBlank(blank) ==> LegalMembers(members.(before := blank))
  {
  }

  // A last item, and one with more behind it, put together with what is around them.
  lemma ItemsPut(item: Layout, blank: string, more: ItemTexts, tail: string)
    requires Legal(item) && IsBlank(blank) && LegalItems(more)
    ensures var items := ItemText("", item, blank, more);
            && LegalItems(items) && ItemsOf(items) == Item(ValueOf(item), ItemsOf(more))
            && ItemsFrom(items) + tail ==
               Spelled(item) + (blank + if more.NoItemTexts? then "]" + tail
                                        else "," + (more.before + (ItemsFrom(more) + tail)))
            && NestingItems(ItemsOf(items)) == Max(Nesting(ValueOf(item)), NestingItems(ItemsOf(more)))
  {
    hide Spelled, Legal, ItemsFrom, Nesting;
    var items := ItemText("", item, blank, more);
    BlankNothing();
    ItemsFromStep(items);
    var x := if more.NoItemTexts? then "]" else "," + (more.before + ItemsFrom(more));
    assert Spelled(item) + (blank + x) + tail == Spelled(item) + (blank + (x + tail));
    if more.ItemText? {
      assert x + tail == "," + (more.before + (ItemsFrom(more) + tail));
    }
  }

  lemma {:induction false} ParsedItems(s: string, depth: nat) returns (items: ItemTexts)
    requires ParseItems(s, depth).Done?
    ensures items.ItemText? && items.before == "" && LegalItems(items)
    ensures s == ItemsFrom(items) + ParseItems(s, depth).rest
    ensures ItemsOf(items) == ParseItems(s, depth).value && NestingItems(ItemsOf(items)) <= depth
    decreases |s|, 3
  {
    hide ParseValue, Spelled, Legal, ValueOf, Nesting, ItemsFrom, LegalItems, ItemsOf, NestingItems, IsBlank, SkipSpace;
    var item := ParsedLayout(s, depth);
    var rest := ParseValue(s, depth).rest;
    var t := SkipSpace(rest);
    var blank := SkippedBlank(rest);
    EmptyLists();
    NestingNothing();
    if HasPrefix(t, "]") {
      items := ItemText("", item, blank, NoItemTexts);
      assert t == "]" + t[1..];
      ItemsPut(item, blank, NoItemTexts, t[1..]);
    } else {
      var u := SkipSpace(t[1..]);
      var gap := SkippedBlank(t[1..]);
      assert t == "," + t[1..];
      var more := ParsedItems(u, depth);
      SameItems(more, gap);
      items := ItemText("", item, blank, more.(before := gap));
      ItemsPut(item, blank, more.(before := gap), ParseItems(u, depth).rest);
    }
  }

  lemma NestingNothing()
    ensures NestingItems(NoItems) == 0 && NestingMembers(NoMembers) == 0
  {
  }

  lemma MembersPut(key: string, gap: string, behind: string, value: Layout, blank: string, more: MemberTexts)
    requires IsBody(key) && IsBlank(gap) && IsBlank(behind) && Legal(value) && IsBlank(blank) && LegalMembers(more)
    ensures var m := MemberText("", key, gap, behind, value, blank, more);
            && LegalMembers(m)
            && MembersOf(m) == Member(key, ValueOf(value), Spelled(value), MembersOf(more))
            && NestingMembers(MembersOf(m)) == Max(Nesting(ValueOf(value)), NestingMembers(MembersOf(more)))
  {
    hide Spelled, Legal, Nesting, IsBody;
    BlankNothing();
  }

  lemma {:induction false} ParsedMembers(s: string, depth: nat) returns (m: MemberTexts)
    requires ParseMembers(s, depth).Done?
    ensures m.MemberText? && m.before == "" && LegalMembers(m)
    ensures s == MembersFrom(m) + ParseMembers(s, depth).rest
    ensures MembersOf(m) == ParseMembers(s, depth).value && NestingMembers(MembersOf(m)) <= depth
    decreases |s|, 3
  {
    hide ParseValue, Spelled, Legal, ValueOf, Nesting, MembersFrom, ParseString, IsBody, MemberFrom, LegalMembers,
      MembersOf, NestingMembers, IsBlank, SkipSpace;
    KeyFirst(s, depth);
    ParsedString(s);
    var key := ParseString(s);
    var t := SkipSpace(key.rest);
    var gap := SkippedBlank(key.rest);
    var v := SkipSpace(t[1..]);
    var behind := SkippedBlank(t[1..]);
    assert t == ":" + t[1..];
    var value := ParsedLayout(v, depth);
    var rest := ParseValue(v, depth).rest;
    var u := SkipSpace(rest);
    var blank := SkippedBlank(rest);
    assert v[..|v| - |rest|] == Spelled(value);
    EmptyLists();
    NestingNothing();
    if HasPrefix(u, "}") {
      m := MemberText("", key.value.body, gap, behind, value, blank, NoMemberTexts);
      assert u == "}" + u[1..];
      MembersPut(key.value.body, gap, behind, value, blank, NoMemberTexts);
      MemberSpelled(m, blank + u, s);
      MembersFromStep(m, u[1..]);
    } else {
      var w := SkipSpace(u[1..]);
      var next := SkippedBlank(u[1..]);
      var more := ParsedMembers(w, depth);
      SameMembers(more, next);
      m := MemberText("", key.value.body, gap, behind, value, blank, more.(before := next));
      assert u == "," + (next + w);
      MembersPut(key.value.body, gap, behind, value, blank, more.(before := next));
      MemberSpelled(m, blank + u, s);
      MembersFromStep(m, ParseMembers(w, depth).rest);
    }
  }

  lemma KeyFirst(s: string, depth: nat)
    requires ParseMembers(s, depth).Done?
    ensures s != "" && s[0] == '"' && ParseString(s).Done?
  {
    hide ParseString;
  }

  lemma MemberSpelled(m: MemberTexts, after: string, s: string)
    requires m.MemberText?
    requires s == "\"" + m.key + "\"" + (m.gap + (":" + (m.behind + (Spelled(m.value) + after))))
    ensures s == MemberFrom(m, after)
  {
    hide Spelled;
  }

  lemma {:induction false} LayoutSound(l: Layout)
    requires Legal(l)
    ensures Sound(ValueOf(l), false)
    decreases l
  {
    hide Spelled, IsBody, IsBlank;
    match l
    case Literal(v) =>
    case ArrayText(_, items) => LayoutSoundItems(items);
    case ObjectText(_, members) => LayoutSoundMembers(members);
  }

  lemma {:induction false} LayoutSoundItems(items: ItemTexts)
    requires LegalItems(items)
    ensures SoundItems(ItemsOf(items), false)
    decreases items
  {
    if items.NoItemTexts? {
    } else {
      LayoutSound(items.item);
      LayoutSoundItems(items.tail);
    }
  }

  lemma {:induction false} LayoutSoundMembers(members: MemberTexts)
    requires LegalMembers(members)
    ensures SoundMembers(MembersOf(members), false)
    decreases members
  {
    if members.NoMemberTexts? {
    } else {
      LayoutSound(members.value);
      LayoutSoundMembers(members.tail);
    }
  }

  // ---------- whole texts ----------

  // The text is the value in some legal layout between white space.
  ghost predicate IsTextOf(s: string, l: Layout, before: string, after: string) {
    Legal(l) && IsBlank(before) && IsBlank(after) && s == before + (Spelled(l) + after)
  }

  // A text is read as a value exactly if it lays the value out, between white space and no
  // deeper than the limit.
  lemma ReadsExactly(s: string, v: Json)
    ensures ParseText(s) == WellFormed(v) <==>
            Nesting(v) <= 10000 && exists l, before, after :: IsTextOf(s, l, before, after) && ValueOf(l) == v
  {
    hide ParseValue, Spelled, Legal, ValueOf, Nesting, IsBlank, SkipSpace;
    if ParseText(s) == WellFormed(v) {
      var before := SkippedBlank(s);
      var t := SkipSpace(s);
      var l := ParsedLayout(t, MAX_NESTING);
      var after := SkippedBlank(ParseValue(t, MAX_NESTING).rest);
      NothingFollows(after);
      assert s == before + (Spelled(l) + after);
      assert IsTextOf(s, l, before, after);
    }
    forall l, before, after | IsTextOf(s, l, before, after) && ValueOf(l) == v
      ensures ParseText(s) == if Nesting(v) <= MAX_NESTING then WellFormed(v) else Malformed
    {
      TextReads(l, before, after);
    }
  }

  lemma NothingFollows(after: string)
    ensures after + "" == after
  {
  }

  lemma TextReads(l: Layout, before: string, after: string)
    requires Legal(l) && IsBlank(before) && IsBlank(after)
    ensures ParseText(before + (Spelled(l) + after)) ==
            if Nesting(ValueOf(l)) <= MAX_NESTING then WellFormed(ValueOf(l)) else Malformed
  {
    hide ParseValue, Spelled, Legal, ValueOf, Nesting, IsBlank, SkipSpace;
    SpelledStarts(l);
    BlankSkipped(before, Spelled(l) + after);
    assert after == after + "";
    BlankEnds(after, "");
    BlankSkipped(after, "");
    LayoutParses(l, after, MAX_NESTING);
  }
}

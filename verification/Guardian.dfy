// Metadata normalisation of the Guardian review client
// (integrations/opagent/guardian/client.go).
module Guardian {
  import opened Letters
  import opened Paths
  import opened Sorting
  import opened Text
  import opened Utf8

  // ---------- truncate ----------

  // Length of the longest valid UTF-8 prefix.
  function LongestValid(s: string): (k: nat)
    ensures k <= |s| && Valid(s[..k])
    ensures forall j :: k < j <= |s| ==> !Valid(s[..j])
    decreases |s|
  {
    if Valid(s) then
      assert s[..|s|] == s;
      |s|
    else
      var k := LongestValid(s[..|s| - 1]);
      assert s[..|s|] == s;
      assert forall j :: 0 <= j < |s| ==> s[..|s| - 1][..j] == s[..j];
      k
  }

  function Truncated(value: string, maximum: int): string {
    var t := TrimSpace(value);
    if maximum <= 0 || |t| <= maximum then t
    else TrimSpace(t[..LongestValid(t[..maximum])])
  }

  method Truncate(value: string, maximum: int) returns (r: string)
    ensures r == Truncated(value, maximum)
  {
    hide TrimSpace, SpaceHead, SpaceTail, RuneLen, Valid;
    var v := TrimSpace(value);
    if maximum <= 0 || |v| <= maximum {
      return v;
    }
    v := v[..maximum];
    ghost var cut := v;
    assert cut[..|cut|] == cut;
    while !Valid(v) && |v| > 0
      invariant |v| <= |cut| && v == cut[..|v|]
      invariant forall j :: |v| < j <= |cut| ==> !Valid(cut[..j])
    {
      v := v[..|v| - 1];
    }
    assert |v| == LongestValid(cut);
    assert v == TrimSpace(value)[..|v|];
    return TrimSpace(v);
  }

  lemma TruncatedFits(value: string, maximum: int)
    requires maximum > 0
    ensures |Truncated(value, maximum)| <= maximum
  {
  }

  // On valid UTF-8 the cut loses at most three bytes, is the longest prefix between runes
  // that fits, and the result is valid again.
  lemma TruncatedCut(value: string, maximum: int)
    requires Valid(value) && 0 < maximum < |TrimSpace(value)|
    ensures var t := TrimSpace(value);
            exists k: nat ::
              && maximum - 3 <= k <= maximum && Valid(t[..k])
              && (forall j :: k < j <= maximum ==> !Valid(t[..j]))
              && Truncated(value, maximum) == TrimSpace(t[..k])
    ensures Valid(Truncated(value, maximum))
  {
    hide TrimSpace, SpaceHead, SpaceTail, RuneLen, Valid;
    var t := TrimSpace(value);
    TrimSpaceValid(value);
    var near := ValidCutNearby(t, maximum);
    var k := LongestValid(t[..maximum]);
    assert forall j :: 0 <= j <= maximum ==> t[..maximum][..j] == t[..j];
    assert k >= near;
    TrimSpaceValid(t[..k]);
  }

  lemma TruncatedIdempotent(value: string, maximum: int)
    ensures Truncated(Truncated(value, maximum), maximum) == Truncated(value, maximum)
  {
    hide TrimSpace, SpaceHead, SpaceTail;
    var t := TrimSpace(value);
    TrimSpaceMeaning(value);
    TrimSpaceMeaning(if maximum > 0 then t[..LongestValid(t[..if maximum <= |t| then maximum else |t|])] else t);
    TrimSpaceKeeps(Truncated(value, maximum));
  }

  // ---------- sanitizeName, sanitizeNames ----------

  predicate IsAlnum(c: char) {
    'A' <= c <= 'Z' || 'a' <= c <= 'z' || '0' <= c <= '9'
  }

  predicate IsSafeChar(c: char) {
    IsAlnum(c) || c == '.' || c == '_' || c == ':' || c == '/' || c == '-'
  }

  const MAX_SAFE_NAME := 192

  // ^[A-Za-z0-9][A-Za-z0-9._:/-]{0,191}$
  predicate IsSafeName(s: string) {
    && 1 <= |s| <= MAX_SAFE_NAME
    && IsAlnum(s[0])
    && forall i :: 1 <= i < |s| ==> IsSafeChar(s[i])
  }

  function SanitizeName(raw: string): string {
    var value := TrimSpace(raw);
    if IsSafeName(value) then value else ""
  }

  // A letter or a digit.
  predicate IsNameStart(c: char) {
    c in CAPITAL || c in SMALL || c in "0123456789"
  }

  lemma AlnumExactly(c: char)
    ensures IsAlnum(c) <==> IsNameStart(c)
  {
    LettersInOrder();
    var digits := "0123456789";
    assert forall i :: 0 <= i < 10 ==> digits[i] as int == 48 + i;
    if 'A' <= c <= 'Z' { assert CAPITAL[c as int - 65] == c; }
    if 'a' <= c <= 'z' { assert SMALL[c as int - 97] == c; }
    if '0' <= c <= '9' { assert digits[c as int - 48] == c; }
  }

  // A name is kept, trimmed, exactly if it has 1 to 192 characters, all of them letters,
  // digits and ".", "_", ":", "/" or "-", and none of the latter first.
  lemma SanitizesExactly(raw: string)
    ensures var t := TrimSpace(raw);
            SanitizeName(raw) ==
            if 1 <= |t| <= 192 && IsNameStart(t[0]) && (forall c :: c in t ==> IsNameStart(c) || c in "._:/-") then t
            else ""
  {
    hide TrimSpace, IsAlnum, IsNameStart;
    var t := TrimSpace(raw);
    forall i | 0 <= i < |t| ensures t[i] in t && (IsAlnum(t[i]) <==> IsNameStart(t[i])) { AlnumExactly(t[i]); }
    forall c | c in t ensures IsSafeChar(c) <==> IsNameStart(c) || c in "._:/-" { AlnumExactly(c); }
  }

  // A sanitised name passes through sanitising and truncation unchanged.
  lemma SafeNameStable(raw: string)
    ensures SanitizeName(SanitizeName(raw)) == SanitizeName(raw)
    ensures Truncated(SanitizeName(raw), MAX_SAFE_NAME) == SanitizeName(raw)
  {
    hide TrimSpace, SpaceHead, SpaceTail;
    TrimSpaceIdempotent(raw);
    TrimSpaceKeeps("");
  }

  // The distinct safe names of values, in order of first appearance.
  function DistinctSafe(values: seq<string>): (names: seq<string>)
    ensures NoRepeats(names) && "" !in names
    ensures |names| <= |values|
    decreases |values|
  {
    hide SanitizeName;
    if values == [] then []
    else
      var names := DistinctSafe(values[..|values| - 1]);
      var name := SanitizeName(values[|values| - 1]);
      if name == "" || name in names then names else names + [name]
  }

  // Position of the first value that sanitises to name, |values| if there is none.
  function FirstAt(values: seq<string>, name: string): (i: nat)
    ensures i <= |values|
    ensures i < |values| ==> SanitizeName(values[i]) == name
    ensures forall j :: 0 <= j < i ==> SanitizeName(values[j]) != name
    decreases |values|
  {
    if values == [] || SanitizeName(values[0]) == name then 0
    else
      var i := FirstAt(values[1..], name);
      assert forall j :: 1 <= j < |values| ==> values[1..][j - 1] == values[j];
      i + 1
  }

  // DistinctSafe holds exactly the nonempty sanitised values, each once, ordered by where
  // each first appears.
  lemma {:induction false} DistinctSafeMeaning(values: seq<string>)
    ensures forall x :: x in DistinctSafe(values) <==> x != "" && FirstAt(values, x) < |values|
    ensures forall i, j :: 0 <= i < j < |DistinctSafe(values)| ==>
              FirstAt(values, DistinctSafe(values)[i]) < FirstAt(values, DistinctSafe(values)[j])
    decreases |values|
  {
    hide SanitizeName, FirstAt, NoRepeats;
    if values == [] {
    } else {
      var init := values[..|values| - 1];
      var last := SanitizeName(values[|init|]);
      DistinctSafeMeaning(init);
      forall x ensures (x != "" && FirstAt(values, x) < |values|) <==> x in DistinctSafe(values) {
        FirstAtSnoc(values, x);
      }
      forall x | x in DistinctSafe(init) ensures FirstAt(values, x) == FirstAt(init, x) < |init| {
        FirstAtSnoc(values, x);
      }
      FirstAtSnoc(values, last);
    }
  }

  lemma FirstAtSnoc(values: seq<string>, x: string)
    requires values != []
    ensures var init := values[..|values| - 1];
            FirstAt(values, x) == if FirstAt(init, x) < |init| then FirstAt(init, x)
                                  else if SanitizeName(values[|init|]) == x then |init| else |values|
  {
    hide SanitizeName;
    var init := values[..|values| - 1];
    var i, j := FirstAt(values, x), FirstAt(init, x);
    assert forall k :: 0 <= k < |init| ==> init[k] == values[k];
    assert j < |init| ==> SanitizeName(values[j]) == x && i <= j;
    assert i < |init| ==> SanitizeName(init[i]) == x && j <= i;
  }

  lemma {:induction false} DistinctSafeGrows(values: seq<string>, i: nat)
    requires i <= |values|
    ensures DistinctSafe(values[..i]) <= DistinctSafe(values)
    decreases |values| - i
  {
    hide SanitizeName;
    if i == |values| {
      assert values[..i] == values;
    } else {
      assert values[..i + 1][..i] == values[..i];
      DistinctSafeGrows(values, i + 1);
    }
  }

  function FirstNames(values: seq<string>, maximum: int): seq<string> {
    var names := DistinctSafe(values);
    if 0 < maximum < |names| then names[..maximum] else names
  }

  method SanitizeNames(values: seq<string>, maximum: int) returns (r: seq<string>)
    ensures r == SortStrings(FirstNames(values, maximum))
  {
    hide SanitizeName, Truncated, SortStrings;
    var seen: set<string> := {};
    var result: seq<string> := [];
    var i := 0;
    while i < |values|
      invariant 0 <= i <= |values|
      invariant result == DistinctSafe(values[..i])
      invariant seen == set x | x in result
      invariant maximum > 0 ==> |result| < maximum
    {
      var name := SanitizeName(values[i]);
      assert values[..i + 1][..i] == values[..i];
      i := i + 1;
      if name == "" || name in seen {
        continue;
      }
      seen := seen + {name};
      SafeNameStable(values[i - 1]);
      var short := Truncate(name, 192);
      result := result + [short];
      if |result| == maximum {
        DistinctSafeGrows(values, i);
        assert result == FirstNames(values, maximum);
        return SortStrings(result);
      }
    }
    assert values[..i] == values;
    r := SortStrings(result);
  }

  // The names come out in strictly increasing order, are the first distinct safe ones,
  // and going through again changes nothing.
  lemma SanitizedNamesOrdered(values: seq<string>, maximum: int)
    ensures StrictlyIncreasing(SortStrings(FirstNames(values, maximum)))
    ensures maximum >= 1 ==> |FirstNames(values, maximum)| <= maximum
    ensures forall x :: x in SortStrings(FirstNames(values, maximum)) ==> x != "" && SanitizeName(x) == x
  {
    hide SanitizeName, Truncated;
    DistinctSafeMeaning(values);
    forall x | x in SortStrings(FirstNames(values, maximum)) ensures x != "" && SanitizeName(x) == x {
      assert x in DistinctSafe(values);
      SafeNameStable(values[FirstAt(values, x)]);
    }
  }

  lemma SanitizedNamesIdempotent(values: seq<string>, maximum: int)
    requires maximum >= 1
    ensures var r := SortStrings(FirstNames(values, maximum));
            SortStrings(FirstNames(r, maximum)) == r
  {
    var r := SortStrings(FirstNames(values, maximum));
    SanitizedNamesOrdered(values, maximum);
    DistinctSafeOfSafe(r);
    StringOrder();
    SortUnique(StringLe, SortStrings(r), r);
  }

  lemma {:induction false} DistinctSafeOfSafe(names: seq<string>)
    requires NoRepeats(names) && forall x :: x in names ==> x != "" && SanitizeName(x) == x
    ensures DistinctSafe(names) == names
    decreases |names|
  {
    hide SanitizeName;
    if names == [] {
    } else {
      var init, last := names[..|names| - 1], names[|names| - 1];
      assert last in names && last !in init && forall x :: x in init ==> x in names;
      DistinctSafeOfSafe(init);
      assert names == init + [last];
    }
  }

  // ---------- the resources of sanitizeRequest ----------

  datatype Resource = Resource(kind: string, value: string)

  // The scope of an approval request; domainOf stands for sanitizeDomain, home for the
  // user's home directory ("" when unknown).
  datatype Scope = Scope(cwd: string, home: string, domainOf: string -> string,
                         readPaths: seq<string>, writePaths: seq<string>, domains: seq<string>, rights: seq<string>)

  predicate ResourceLe(a: Resource, b: Resource) {
    if a.kind != b.kind then StringLe(a.kind, b.kind) else StringLe(a.value, b.value)
  }

  lemma ResourceOrder()
    ensures TotalOrder(ResourceLe)
  {
    StringOrder();
    forall a, b ensures ResourceLe(a, b) || ResourceLe(b, a) {
      assert StringLe(a.kind, b.kind) || StringLe(b.kind, a.kind);
      assert StringLe(a.value, b.value) || StringLe(b.value, a.value);
    }
    forall a, b | ResourceLe(a, b) && ResourceLe(b, a) ensures a == b {
      assert StringLe(a.kind, b.kind) && StringLe(b.kind, a.kind) ==> a.kind == b.kind;
      assert StringLe(a.value, b.value) && StringLe(b.value, a.value) ==> a.value == b.value;
    }
    forall a, b, c | ResourceLe(a, b) && ResourceLe(b, c) ensures ResourceLe(a, c) {
      ResourceLeTransitive(a, b, c);
    }
  }

  lemma ResourceLeTransitive(a: Resource, b: Resource, c: Resource)
    requires ResourceLe(a, b) && ResourceLe(b, c)
    ensures ResourceLe(a, c)
  {
    if a.kind == b.kind == c.kind {
      StringLeTransitive(a.value, b.value, c.value);
    } else if a.kind != b.kind && b.kind != c.kind {
      StringLeTransitive(a.kind, b.kind, c.kind);
      if a.kind == c.kind {
        StringLeAntisymmetric(a.kind, b.kind);
      }
    }
  }

  // What the entries of a list turn into, in order; the lists of names drop the entries
  // that sanitise to nothing.
  function Accept(kind: string, sanitize: string -> string, dropEmpty: bool, s: seq<string>): seq<Resource>
    decreases |s|
  {
    if s == [] then []
    else Accept(kind, sanitize, dropEmpty, s[..|s| - 1]) + AcceptOne(kind, sanitize(s[|s| - 1]), dropEmpty)
  }

  function AcceptOne(kind: string, value: string, dropEmpty: bool): seq<Resource> {
    if dropEmpty && value == "" then [] else [Resource(kind, value)]
  }

  function Classifier(cwd: string, home: string): string -> string {
    p => ClassifyPath(cwd, p, home)
  }

  function Accepted(scope: Scope): seq<Resource> {
    Accept("read_path", Classifier(scope.cwd, scope.home), false, scope.readPaths)
    + Accept("write_path", Classifier(scope.cwd, scope.home), false, scope.writePaths)
    + Accept("network_domain", scope.domainOf, true, scope.domains)
    + Accept("sensitive_right", SanitizeName, true, scope.rights)
  }

  // One of the four loops: each entry is sanitised and appended.
  method AppendAccepted(before: seq<Resource>, kind: string, sanitize: string -> string, dropEmpty: bool,
      s: seq<string>)
    returns (resources: seq<Resource>)
    ensures resources == before + Accept(kind, sanitize, dropEmpty, s)
  {
    resources := before;
    for i := 0 to |s|
      invariant resources == before + Accept(kind, sanitize, dropEmpty, s[..i])
    {
      assert s[..i + 1][..i] == s[..i];
      var value := sanitize(s[i]);
      if !dropEmpty || value != "" {
        resources := resources + [Resource(kind, value)];
      }
    }
    assert s[..|s|] == s;
  }

  method SanitizeResources(scope: Scope) returns (resources: seq<Resource>)
    ensures IsSortOf(ResourceLe, resources, Accepted(scope))
  {
    hide ResourceLe, Accept, Classifier;
    resources := AppendAccepted([], "read_path", Classifier(scope.cwd, scope.home), false, scope.readPaths);
    resources := AppendAccepted(resources, "write_path", Classifier(scope.cwd, scope.home), false, scope.writePaths);
    resources := AppendAccepted(resources, "network_domain", scope.domainOf, true, scope.domains);
    resources := AppendAccepted(resources, "sensitive_right", SanitizeName, true, scope.rights);
    assert resources == Accepted(scope);
    ResourceOrder();
    resources := Sort(ResourceLe, resources);
  }

  lemma {:induction false} AcceptConcat(kind: string, sanitize: string -> string, drop: bool, s: seq<string>,
      t: seq<string>)
    ensures Accept(kind, sanitize, drop, s + t) == Accept(kind, sanitize, drop, s) + Accept(kind, sanitize, drop, t)
    decreases |t|
  {
    if t == [] {
      assert s + t == s;
    } else {
      assert (s + t)[..|s + t| - 1] == s + t[..|t| - 1];
      AcceptConcat(kind, sanitize, drop, s, t[..|t| - 1]);
    }
  }

  // One entry more, wherever it stands, adds what it turns into.
  lemma AcceptOneMore(kind: string, sanitize: string -> string, drop: bool, before: seq<string>, x: string,
      after: seq<string>)
    ensures multiset(Accept(kind, sanitize, drop, before + [x] + after)) ==
            multiset(Accept(kind, sanitize, drop, before + after)) + multiset(AcceptOne(kind, sanitize(x), drop))
  {
    AcceptConcat(kind, sanitize, drop, before, after);
    AcceptConcat(kind, sanitize, drop, before + [x], after);
    assert (before + [x])[..|before|] == before;
  }

  lemma {:induction false} AcceptPermuted(kind: string, sanitize: string -> string, drop: bool, s: seq<string>,
      t: seq<string>)
    requires multiset(s) == multiset(t)
    ensures multiset(Accept(kind, sanitize, drop, s)) == multiset(Accept(kind, sanitize, drop, t))
    decreases |s|
  {
    hide Accept, AcceptOne;
    SameContents(s, t);
    if s == [] {
      assert t == [];
    } else {
      var before, after := Without(s, t);
      AcceptPermuted(kind, sanitize, drop, s[1..], before + after);
      AcceptOneMore(kind, sanitize, drop, [], s[0], s[1..]);
      AcceptOneMore(kind, sanitize, drop, before, s[0], after);
      assert [] + [s[0]] + s[1..] == s && [] + s[1..] == s[1..];
    }
  }

  lemma Without(s: seq<string>, t: seq<string>) returns (before: seq<string>, after: seq<string>)
    requires s != [] && multiset(s) == multiset(t)
    ensures t == before + [s[0]] + after
    ensures multiset(s[1..]) == multiset(before + after)
  {
    SameContents(s, t);
    assert s[0] in t;
    var i :| 0 <= i < |t| && t[i] == s[0];
    before, after := t[..i], t[i + 1..];
    TailContents(s);
    OneOut(t, i);
  }

  lemma OneOut(t: seq<string>, i: nat)
    requires i < |t|
    ensures t == t[..i] + [t[i]] + t[i + 1..]
    ensures multiset(t[..i] + t[i + 1..]) == multiset(t) - multiset{t[i]}
  {
    assert t == t[..i] + [t[i]] + t[i + 1..];
    assert multiset(t) == multiset(t[..i]) + multiset{t[i]} + multiset(t[i + 1..]);
  }

  ghost predicate SameLists(a: Scope, b: Scope) {
    && a.cwd == b.cwd && a.home == b.home && a.domainOf == b.domainOf
    && multiset(a.readPaths) == multiset(b.readPaths) && multiset(a.writePaths) == multiset(b.writePaths)
    && multiset(a.domains) == multiset(b.domains) && multiset(a.rights) == multiset(b.rights)
  }

  lemma AcceptedPermuted(a: Scope, b: Scope)
    requires SameLists(a, b)
    ensures multiset(Accepted(a)) == multiset(Accepted(b))
  {
    hide Accept, Classifier;
    AcceptPermuted("read_path", Classifier(a.cwd, a.home), false, a.readPaths, b.readPaths);
    AcceptPermuted("write_path", Classifier(a.cwd, a.home), false, a.writePaths, b.writePaths);
    AcceptPermuted("network_domain", a.domainOf, true, a.domains, b.domains);
    AcceptPermuted("sensitive_right", SanitizeName, true, a.rights, b.rights);
  }

  // Whatever the order of each input list and however the sort arranges equal records,
  // the resource list is the same.
  lemma ResourcesIgnoreOrder(a: Scope, b: Scope, ra: seq<Resource>, rb: seq<Resource>)
    requires SameLists(a, b)
    requires IsSortOf(ResourceLe, ra, Accepted(a)) && IsSortOf(ResourceLe, rb, Accepted(b))
    ensures ra == rb
  {
    hide Accepted, ResourceLe;
    AcceptedPermuted(a, b);
    ResourceOrder();
    SortUnique(ResourceLe, ra, rb);
  }

  // The kinds in the order they come out in.
  function Rank(kind: string): nat {
    match kind
    case "network_domain" => 0
    case "read_path" => 1
    case "sensitive_right" => 2
    case "write_path" => 3
    case _ => 4
  }

  lemma {:induction false} AcceptKind(kind: string, sanitize: string -> string, drop: bool, s: seq<string>)
    ensures forall x :: x in Accept(kind, sanitize, drop, s) ==> x.kind == kind
    decreases |s|
  {
    if s == [] {
    } else {
      AcceptKind(kind, sanitize, drop, s[..|s| - 1]);
    }
  }

  lemma AcceptedKinds(scope: Scope)
    ensures forall x :: x in Accepted(scope) ==> Rank(x.kind) < 4
  {
    hide Accept, Classifier;
    AcceptKind("read_path", Classifier(scope.cwd, scope.home), false, scope.readPaths);
    AcceptKind("write_path", Classifier(scope.cwd, scope.home), false, scope.writePaths);
    AcceptKind("network_domain", scope.domainOf, true, scope.domains);
    AcceptKind("sensitive_right", SanitizeName, true, scope.rights);
  }

  lemma KindsByRank(a: string, b: string)
    requires Rank(a) < 4 && Rank(b) < 4 && StringLe(a, b)
    ensures Rank(a) <= Rank(b) && (Rank(a) == Rank(b) ==> a == b)
  {
  }

  // The list holds the domains, then the paths read, the rights, and the paths written,
  // each by byte order.
  lemma ResourcesGrouped(scope: Scope, r: seq<Resource>, i: nat, j: nat)
    requires IsSortOf(ResourceLe, r, Accepted(scope)) && i < j < |r|
    ensures Rank(r[i].kind) < Rank(r[j].kind) || (r[i].kind == r[j].kind && Precedes(r[i].value, r[j].value))
  {
    hide Accepted, Rank, Precedes, StringLe;
    AcceptedKinds(scope);
    SameContents(r, Accepted(scope));
    assert r[i] in r && r[j] in r;
    assert ResourceLe(r[i], r[j]);
    StringLeMeaning(r[i].value, r[j].value);
    if r[i].kind != r[j].kind { KindsByRank(r[i].kind, r[j].kind); }
  }

  // ---------- classifyPath ----------

  function HomeClass(relative: string): string {
    var first := ToLower(Split(relative, '/')[0]);
    if first == ".ssh" then "sensitive:ssh"
    else if first in {".aws", ".azure", ".config", ".gnupg", "library"} then "sensitive:user_credentials_or_config"
    else "outside_workspace:user_home"
  }

  function OutsideClass(path: string, home: string): string {
    var fromHome := Rel(home, path);
    if home != "" && fromHome.RelPath? && !GoesUp(fromHome.path) then HomeClass(fromHome.path)
    else if Rooted(path) then "outside_workspace:host_absolute"
    else "outside_workspace:relative"
  }

  function ClassifyPath(workspace: string, raw: string, home: string): string {
    var path := Clean(TrimSpace(raw));
    var root := Clean(TrimSpace(workspace));
    if path == "." || path == "" then "path:unknown"
    else
      var inside := Rel(root, path);
      if root != "." && root != "" && inside.RelPath? && !GoesUp(inside.path) then "workspace:" + inside.path
      else OutsideClass(path, home)
  }

  // The path as trimmed and worked out; two spellings of one path agree here.
  function PathElements(raw: string): seq<string> {
    Elements(TrimSpace(raw))
  }

  predicate SaysWorkspace(answer: string) {
    HasPrefix(answer, "workspace:")
  }

  lemma OutsideClassIsOutside(path: string, home: string)
    ensures !SaysWorkspace(OutsideClass(path, home))
  {
    assert "workspace:"[0] == 'w';
  }

  lemma CleanElements(path: string)
    ensures Elements(Clean(path)) == Elements(path) && Rooted(Clean(path)) == Rooted(path)
    ensures Clean(path) != ""
    ensures Clean(path) == "." <==> !Rooted(path) && Elements(path) == []
  {
    ElementsNormal(path);
    RenderElements(Rooted(path), Elements(path));
    RenderNothing();
  }

  // For every workspace and path: the answer says "workspace" exactly when both are
  // rooted or both relative, the workspace's elements come first in the path's, and what
  // follows does not go up.
  lemma ClassifiesInside(workspace: string, raw: string, home: string)
    ensures SaysWorkspace(ClassifyPath(workspace, raw, home)) <==>
            && Inside(TrimSpace(workspace), TrimSpace(raw))
            && (Rooted(TrimSpace(workspace)) || PathElements(workspace) != [])
  {
    hide TrimSpace, SpaceHead, SpaceTail, Elements, Clean, Rel;
    var path, root := Clean(TrimSpace(raw)), Clean(TrimSpace(workspace));
    CleanElements(TrimSpace(raw));
    CleanElements(TrimSpace(workspace));
    RelInside(root, path);
    OutsideClassIsOutside(path, home);
    var inside := Rel(root, path);
    assert "path:unknown"[0] != "workspace:"[0];
    if inside.RelPath? {
      assert ("workspace:" + inside.path)[..10] == "workspace:";
    }
  }

  // For rooted paths: "workspace" means the workspace's elements come first, the answer
  // names the way down from the workspace without going up, and joining it to the workspace
  // gives the path.
  lemma ClassifiesRooted(workspace: string, raw: string, home: string)
    requires Rooted(TrimSpace(workspace)) && Rooted(TrimSpace(raw))
    ensures SaysWorkspace(ClassifyPath(workspace, raw, home)) <==> PathElements(workspace) <= PathElements(raw)
    ensures PathElements(workspace) <= PathElements(raw) ==>
              exists r ::
                && ClassifyPath(workspace, raw, home) == "workspace:" + r
                && ".." !in Split(r, '/')
                && Clean(Clean(TrimSpace(workspace)) + "/" + r) == Clean(TrimSpace(raw))
  {
    var path, root := Clean(TrimSpace(raw)), Clean(TrimSpace(workspace));
    CleanElements(TrimSpace(raw));
    CleanElements(TrimSpace(workspace));
    ClassifiesInside(workspace, raw, home);
    ElementsNormal(TrimSpace(raw));
    if PathElements(workspace) <= PathElements(raw) {
      RelJoins(root, path);
      RelInside(root, path);
      CleanIdempotent(TrimSpace(raw));
      CleanIdempotent(TrimSpace(workspace));
      assert ClassifyPath(workspace, raw, home) == "workspace:" + Rel(root, path).path;
    }
  }

  // ---------- what is outside the workspace ----------

  // The way down from home as Rel writes it, and its first element.
  lemma RelFirst(home: string, path: string)
    requires Inside(home, path)
    ensures var h, t := Elements(home), Elements(path);
            && Rel(home, path).RelPath? && !GoesUp(Rel(home, path).path)
            && Rel(home, path).path == (if h == t then "." else Join(t[|h|..], "/"))
            && Split(Rel(home, path).path, '/')[0] == if h == t then "." else t[|h|]
  {
    hide Elements, Split, Join;
    var h, t := Elements(home), Elements(path);
    RelInside(home, path);
    CommonLengthPrefix(h, t);
    if h == t {
      JoinOne(".", "/");
      SplitJoin(["."], '/');
    } else {
      ElementsNormal(path);
      var rest := t[|h|..];
      assert Ups(0) + rest == rest;
      assert forall e :: e in rest ==> e in t;
      SplitJoin(rest, '/');
    }
  }

  predicate IsCredentialFolder(name: string) {
    || Spells(name, ".aws") || Spells(name, ".azure") || Spells(name, ".config")
    || Spells(name, ".gnupg") || Spells(name, "library")
  }

  // What the first element below home makes of a path; home itself has none.
  function BelowHome(below: seq<string>): string {
    if below != [] && Spells(below[0], ".ssh") then "sensitive:ssh"
    else if below != [] && IsCredentialFolder(below[0]) then "sensitive:user_credentials_or_config"
    else "outside_workspace:user_home"
  }

  lemma FolderMarks()
    ensures IsMark(".ssh") && IsMark(".aws") && IsMark(".azure") && IsMark(".config") && IsMark(".gnupg")
    ensures IsMark("library")
  {
  }

  lemma HomeFolders(first: string)
    ensures ToLower(first) == ".ssh" <==> Spells(first, ".ssh")
    ensures ToLower(first) in {".aws", ".azure", ".config", ".gnupg", "library"} <==> IsCredentialFolder(first)
  {
    hide ToLower, Spells, IsMark;
    FolderMarks();
    LowerSpells(first, ".ssh");
    LowerSpells(first, ".aws");
    LowerSpells(first, ".azure");
    LowerSpells(first, ".config");
    LowerSpells(first, ".gnupg");
    LowerSpells(first, "library");
  }

  lemma DotIsNoFolder()
    ensures !Spells(".", ".ssh") && !IsCredentialFolder(".")
  {
  }

  // The elements below the workspace, as text.
  function WayDown(below: seq<string>): string {
    if below == [] then "." else Join(below, "/")
  }

  // The whole answer, by elements: what cleans to nothing is unknown; what is in the
  // workspace is named by the way down; the rest is told apart by the folder below home, in
  // any letter case, and else by whether it is rooted.
  lemma ClassifiesExactly(workspace: string, raw: string, home: string)
    ensures var answer, path := ClassifyPath(workspace, raw, home), TrimSpace(raw);
            if !Rooted(path) && PathElements(raw) == [] then answer == "path:unknown"
            else if Inside(TrimSpace(workspace), path) && (Rooted(path) || PathElements(workspace) != []) then
              answer == "workspace:" + WayDown(Elements(path)[|PathElements(workspace)|..])
            else if home != "" && Inside(home, path) then
              answer == BelowHome(Elements(path)[|Elements(home)|..])
            else answer == if Rooted(path) then "outside_workspace:host_absolute" else "outside_workspace:relative"
  {
    hide TrimSpace, Elements, Clean, Rel, ToLower, Spells, Split, GoesUp, IsCredentialFolder;
    var path, root := Clean(TrimSpace(raw)), Clean(TrimSpace(workspace));
    CleanElements(TrimSpace(raw));
    CleanElements(TrimSpace(workspace));
    ClassifiesInside(workspace, raw, home);
    RelInside(root, path);
    RelInside(home, path);
    if Inside(root, path) { RelFirst(root, path); }
    if Inside(home, path) {
      RelFirst(home, path);
      HomeFolders(Split(Rel(home, path).path, '/')[0]);
      DotIsNoFolder();
    }
  }
}

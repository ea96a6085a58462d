// The search for git repositories inside a workspace (detectNestedGit).
module NestedGit {
  import opened Options
  import opened Text
  import opened Sorting

  // A directory tree as the walk sees it; anything that is not a directory is a File.
  datatype Tree = File | Dir(children: Children)

  datatype Children = NoChild | Child(name: string, tree: Tree, rest: Children)

  // ---------- the tree ----------

  function Lookup(dir: Children, name: string): Maybe<Tree>
    decreases dir
  {
    match dir
    case NoChild => Absent
    case Child(n, tree, rest) => if n == name then Present(tree) else Lookup(rest, name)
  }

  // A file name: not empty and without a slash.
  predicate IsName(name: string) {
    name != "" && '/' !in name
  }

  predicate WellFormed(dir: Children)
    decreases dir
  {
    match dir
    case NoChild => true
    case Child(name, tree, rest) =>
      && IsName(name) && Lookup(rest, name).Absent? && WellFormed(rest)
      && (tree.Dir? ==> WellFormed(tree.children))
  }

  // The directory at the path, a list of names, has an entry called .git.
  predicate HoldsRepository(dir: Children, path: seq<string>)
    decreases |path|
  {
    if path == [] then Lookup(dir, ".git").Present?
    else
      var next := Lookup(dir, path[0]);
      next.Present? && next.value.Dir? && HoldsRepository(next.value.children, path[1..])
  }

  // Directories the walk does not go into.
  predicate IsSkipped(name: string) {
    name == ".git" || name == "node_modules" || name == ".cache"
  }

  // Nothing on the path keeps the walk out.
  predicate Entered(path: seq<string>) {
    ".git" !in path && "node_modules" !in path && ".cache" !in path
  }

  // ---------- the allow list ----------

  function TrimSlashesLeft(s: string): (t: string)
    decreases |s|
  {
    if s != "" && s[0] == '/' then TrimSlashesLeft(s[1..]) else s
  }

  function TrimSlashesRight(s: string): (t: string)
    decreases |s|
  {
    if s != "" && s[|s| - 1] == '/' then TrimSlashesRight(s[..|s| - 1]) else s
  }

  function Normalized(path: string): string {
    TrimSlashesRight(TrimSlashesLeft(TrimSpace(path)))
  }

  function AllowedSet(paths: seq<string>): set<string> {
    set p | p in paths && Normalized(p) != "" :: Normalized(p)
  }

  method ReadAllowed(paths: seq<string>) returns (allowed: set<string>)
    ensures allowed == AllowedSet(paths)
  {
    hide TrimSpace, TrimSlashesLeft, TrimSlashesRight;
    allowed := {};
    for i := 0 to |paths|
      invariant allowed == AllowedSet(paths[..i])
    {
      var normalized := Normalized(paths[i]);
      if normalized != "" {
        allowed := allowed + {normalized};
      }
      assert paths[..i + 1] == paths[..i] + [paths[i]];
    }
    assert paths[..|paths|] == paths;
  }

  // ---------- the walk ----------

  function PathText(path: seq<string>): string {
    Join(path, "/")
  }

  function Own(name: string, path: seq<string>, allowed: set<string>): seq<string> {
    if name == ".git" && path != [] && PathText(path) !in allowed then [PathText(path)] else []
  }

  // What the walk records under one entry of the directory at the path.
  function Under(name: string, tree: Tree, path: seq<string>, allowed: set<string>): seq<string>
    decreases tree, 0
  {
    if tree.Dir? && !IsSkipped(name) then Walked(tree.children, path + [name], allowed) else []
  }

  // What the walk records in the directory at the path, in the order it visits.
  function Walked(dir: Children, path: seq<string>, allowed: set<string>): seq<string>
    decreases dir
  {
    match dir
    case NoChild => []
    case Child(name, tree, rest) =>
      Own(name, path, allowed) + Under(name, tree, path, allowed) + Walked(rest, path, allowed)
  }

  method Walk(dir: Children, path: seq<string>, allowed: set<string>, found: seq<string>) returns (nested: seq<string>)
    ensures nested == found + Walked(dir, path, allowed)
    decreases dir
  {
    hide PathText, IsSkipped, Walked, Own, Under;
    nested := found;
    var rest := dir;
    ghost var done: seq<string> := [];
    while rest.Child?
      invariant nested == found + done && done + Walked(rest, path, allowed) == Walked(dir, path, allowed)
      invariant rest == dir || rest < dir
      decreases rest
    {
      var name, tree := rest.name, rest.tree;
      ghost var own, under := Own(name, path, allowed), Under(name, tree, path, allowed);
      OwnStep(name, path, allowed);
      UnderStep(name, tree, path, allowed);
      if name == ".git" && path != [] && PathText(path) !in allowed {
        nested := nested + [PathText(path)];
      }
      assert nested == found + done + own;
      if tree.Dir? && !IsSkipped(name) {
        nested := Walk(tree.children, path + [name], allowed, nested);
      }
      WalkedStep(rest, path, allowed);
      Regroup(found, done, own, under);
      Regroup(done, own, under, Walked(rest.rest, path, allowed));
      done := done + own + under;
      rest := rest.rest;
    }
    WalkedStep(rest, path, allowed);
  }

  lemma OwnStep(name: string, path: seq<string>, allowed: set<string>)
    ensures Own(name, path, allowed) ==
            if name == ".git" && path != [] && PathText(path) !in allowed then [PathText(path)] else []
  {
  }

  lemma UnderStep(name: string, tree: Tree, path: seq<string>, allowed: set<string>)
    ensures Under(name, tree, path, allowed) ==
            if tree.Dir? && !IsSkipped(name) then Walked(tree.children, path + [name], allowed) else []
  {
  }

  lemma Regroup(a: seq<string>, b: seq<string>, c: seq<string>, d: seq<string>)
    ensures a + b + c + d == a + (b + c + d)
  {
  }

  lemma WalkedStep(dir: Children, path: seq<string>, allowed: set<string>)
    ensures Walked(dir, path, allowed) ==
            if dir.NoChild? then []
            else
              Own(dir.name, path, allowed) + Under(dir.name, dir.tree, path, allowed) + Walked(dir.rest, path, allowed)
  {
  }

  // The whole walk. A root that is itself called .git is taken for a repository's own
  // directory, and its parent is recorded.
  function WalkedFrom(rootName: string, dir: Children, allowed: set<string>): seq<string> {
    if rootName == ".git" then if ".." in allowed then [] else [".."]
    else if IsSkipped(rootName) then []
    else Walked(dir, [], allowed)
  }

  function Nested(rootName: string, dir: Children, allowNested: seq<string>): seq<string> {
    SortStrings(WalkedFrom(rootName, dir, AllowedSet(allowNested)))
  }

  // ---------- what the walk finds ----------

  ghost predicate Finds(dir: Children, path: seq<string>, allowed: set<string>, below: seq<string>) {
    path + below != [] && Entered(below) && HoldsRepository(dir, below) && PathText(path + below) !in allowed
  }

  lemma HoldsStep(name: string, tree: Tree, rest: Children, below: seq<string>)
    ensures below == [] ==>
              (HoldsRepository(Child(name, tree, rest), below) <==> name == ".git" || HoldsRepository(rest, below))
    ensures below != [] && below[0] == name ==>
              (HoldsRepository(Child(name, tree, rest), below) <==>
                  tree.Dir? && HoldsRepository(tree.children, below[1..]))
    ensures below != [] && below[0] != name ==>
              (HoldsRepository(Child(name, tree, rest), below) <==> HoldsRepository(rest, below))
    ensures Lookup(rest, name).Absent? && below != [] && below[0] == name ==> !HoldsRepository(rest, below)
  {
  }

  lemma {:induction false} WalkedFinds(dir: Children, path: seq<string>, allowed: set<string>, below: seq<string>)
    requires Finds(dir, path, allowed, below)
    ensures PathText(path + below) in Walked(dir, path, allowed)
    decreases dir
  {
    hide HoldsRepository, PathText;
    HoldsNothing(below);
    var Child(name, tree, rest) := dir;
    HoldsStep(name, tree, rest, below);
    if below == [] {
      assert path + below == path;
      if name != ".git" { WalkedFinds(rest, path, allowed, below); }
    } else if below[0] == name {
      assert path + below == path + [name] + below[1..];
      assert forall n :: n in below[1..] ==> n in below;
      assert below[0] in below;
      WalkedFinds(tree.children, path + [name], allowed, below[1..]);
    } else {
      WalkedFinds(rest, path, allowed, below);
    }
  }

  lemma HoldsNothing(below: seq<string>)
    ensures !HoldsRepository(NoChild, below)
  {
  }

  lemma {:induction false} WalkedFound(dir: Children, path: seq<string>, allowed: set<string>, x: string)
    returns (below: seq<string>)
    requires WellFormed(dir) && x in Walked(dir, path, allowed)
    ensures Finds(dir, path, allowed, below) && x == PathText(path + below)
    decreases dir
  {
    hide HoldsRepository, PathText;
    var Child(name, tree, rest) := dir;
    if x in Own(name, path, allowed) {
      below := [];
      HoldsStep(name, tree, rest, below);
      assert path + below == path;
    } else if tree.Dir? && !IsSkipped(name) && x in Walked(tree.children, path + [name], allowed) {
      var deeper := WalkedFound(tree.children, path + [name], allowed, x);
      below := [name] + deeper;
      HoldsStep(name, tree, rest, below);
      assert path + below == path + [name] + deeper && below[1..] == deeper;
    } else {
      below := WalkedFound(rest, path, allowed, x);
      HoldsStep(name, tree, rest, below);
    }
  }

  // Every name of a path with a repository is an entry's name, so free of slashes.
  lemma {:induction false} NamesOnPath(dir: Children, below: seq<string>)
    requires WellFormed(dir) && HoldsRepository(dir, below)
    ensures forall name :: name in below ==> IsName(name)
    decreases |below|
  {
    if below == [] {
    } else {
      var next := Lookup(dir, below[0]);
      LookupWellFormed(dir, below[0]);
      NamesOnPath(next.value.children, below[1..]);
    }
  }

  lemma {:induction false} LookupWellFormed(dir: Children, name: string)
    requires WellFormed(dir) && Lookup(dir, name).Present?
    ensures IsName(name) && (Lookup(dir, name).value.Dir? ==> WellFormed(Lookup(dir, name).value.children))
    decreases dir
  {
    if dir.name == name {
    } else {
      LookupWellFormed(dir.rest, name);
    }
  }

  predicate AllNames(path: seq<string>) {
    forall name :: name in path ==> IsName(name)
  }

  // Paths of names are told apart by their texts.
  lemma PathTextInjective(a: seq<string>, b: seq<string>)
    requires AllNames(a) && AllNames(b) && PathText(a) == PathText(b)
    ensures a == b
  {
    hide Join, Split;
    NothingText(a);
    NothingText(b);
    if a != [] { SplitJoin(a, '/'); }
    if b != [] { SplitJoin(b, '/'); }
  }

  lemma NothingText(path: seq<string>)
    requires AllNames(path)
    ensures PathText(path) == "" <==> path == []
  {
    if path != [] { assert path[0] in path; }
  }

  // The walk records nothing twice.
  lemma {:induction false} WalkedOnce(dir: Children, path: seq<string>, allowed: set<string>)
    requires WellFormed(dir) && AllNames(path)
    ensures NoRepeats(Walked(dir, path, allowed))
    decreases dir
  {
    hide PathText, HoldsRepository, Walked;
    WalkedStep(dir, path, allowed);
    if dir == NoChild {
    } else {
      var Child(name, tree, rest) := dir;
      var own, under, later := Own(name, path, allowed), Under(name, tree, path, allowed), Walked(rest, path, allowed);
      WalkedOnce(rest, path, allowed);
      if tree.Dir? && !IsSkipped(name) {
        WalkedOnce(tree.children, path + [name], allowed);
      }
      forall x | x in under ensures x !in own && x !in later {
        UnderApart(dir, path, allowed, x);
      }
      forall x | x in own ensures x !in later {
        OwnApart(dir, path, allowed, x);
      }
      NoRepeatsJoined(own, under);
      NoRepeatsJoined(own + under, later);
    }
  }

  lemma NoRepeatsJoined(a: seq<string>, b: seq<string>)
    requires NoRepeats(a) && NoRepeats(b) && forall x :: x in a ==> x !in b
    ensures NoRepeats(a + b)
  {
    assert forall i :: 0 <= i < |a| ==> a[i] in a;
    assert forall i :: |a| <= i < |a + b| ==> (a + b)[i] in b;
  }

  lemma UnderApart(dir: Children, path: seq<string>, allowed: set<string>, x: string)
    requires WellFormed(dir) && AllNames(path) && dir.Child? && x in Under(dir.name, dir.tree, path, allowed)
    ensures x !in Own(dir.name, path, allowed) && x !in Walked(dir.rest, path, allowed)
  {
    hide PathText, HoldsRepository, Walked;
    var Child(name, tree, rest) := dir;
    var deeper := WalkedFound(tree.children, path + [name], allowed, x);
    NamesOnPath(tree.children, deeper);
    var below := path + [name] + deeper;
    assert PathText(path) != x by {
      if PathText(path) == x { PathTextInjective(path, below); }
    }
    if x in Walked(rest, path, allowed) {
      var other := WalkedFound(rest, path, allowed, x);
      NamesOnPath(rest, other);
      PathTextInjective(path + other, below);
      assert (path + other)[|path|..] == other && below[|path|..] == [name] + deeper;
      HoldsStep(name, tree, rest, other);
    }
  }

  lemma OwnApart(dir: Children, path: seq<string>, allowed: set<string>, x: string)
    requires WellFormed(dir) && AllNames(path) && dir.Child? && x in Own(dir.name, path, allowed)
    ensures x !in Walked(dir.rest, path, allowed)
  {
    hide PathText, HoldsRepository, Walked;
    var rest := dir.rest;
    if x in Walked(rest, path, allowed) {
      var other := WalkedFound(rest, path, allowed, x);
      NamesOnPath(rest, other);
      PathTextInjective(path + other, path);
      assert (path + other)[|path|..] == other;
      HoldsHere(rest, other);
    }
  }

  lemma HoldsHere(dir: Children, below: seq<string>)
    ensures below == [] ==> (HoldsRepository(dir, below) <==> Lookup(dir, ".git").Present?)
  {
  }

  // The nested list is, without repeats and in order, exactly the directories below the
  // root that hold a .git entry, are not at or under a skipped name, and are not allowed.
  lemma NestedExactly(rootName: string, dir: Children, allowNested: seq<string>)
    requires WellFormed(dir)
    ensures StrictlyIncreasing(Nested(rootName, dir, allowNested))
    ensures rootName !in {".git", "node_modules", ".cache"} ==> forall x :: x in Nested(rootName, dir, allowNested) <==>
              exists below :: Finds(dir, [], AllowedSet(allowNested), below) && x == PathText(below)
    ensures rootName in {".git", "node_modules", ".cache"} ==>
              Nested(rootName, dir, allowNested) ==
                (if rootName == ".git" && ".." !in AllowedSet(allowNested) then [".."] else [])
  {
    hide PathText, HoldsRepository, Walked, SortStrings, Finds, AllowedSet;
    var allowed := AllowedSet(allowNested);
    WalkedOnce(dir, [], allowed);
    if !IsSkipped(rootName) {
      forall x ensures x in Walked(dir, [], allowed) <==>
          exists below :: Finds(dir, [], allowed, below) && x == PathText(below) {
        if x in Walked(dir, [], allowed) {
          var below := WalkedFound(dir, [], allowed, x);
          assert [] + below == below;
        }
        if exists below :: Finds(dir, [], allowed, below) && x == PathText(below) {
          var below :| Finds(dir, [], allowed, below) && x == PathText(below);
          WalkedFinds(dir, [], allowed, below);
          assert [] + below == below;
        }
      }
    } else {
      SortsShort(WalkedFrom(rootName, dir, allowed));
    }
  }

  lemma SortsShort(s: seq<string>)
    requires |s| <= 1
    ensures SortStrings(s) == s
  {
    var r := SortStrings(s);
    assert |s| == 1 ==> s[0] in s && r[0] in r;
  }

  // ---------- a longer allow list ----------

  function Without(names: seq<string>, banned: set<string>): (r: seq<string>) {
    if names == [] then []
    else (if names[0] in banned then [] else [names[0]]) + Without(names[1..], banned)
  }

  lemma {:induction false} WithoutMeaning(names: seq<string>, banned: set<string>)
    requires StrictlyIncreasing(names)
    ensures StrictlyIncreasing(Without(names, banned))
    ensures forall x :: x in Without(names, banned) <==> x in names && x !in banned
    decreases |names|
  {
    hide StringLe;
    if names == [] {
    } else {
      WithoutMeaning(names[1..], banned);
      assert names == [names[0]] + names[1..];
      assert forall x :: x in names[1..] ==> StringLe(names[0], x) && x != names[0];
      var rest := Without(names[1..], banned);
      assert forall i :: 0 <= i < |rest| ==> rest[i] in rest;
    }
  }

  lemma {:induction false} IncreasingUnique(a: seq<string>, b: seq<string>)
    requires StrictlyIncreasing(a) && StrictlyIncreasing(b) && forall x :: x in a <==> x in b
    ensures a == b
    decreases |a|
  {
    hide StringLe;
    if a == [] {
      assert forall i :: 0 <= i < |b| ==> b[i] in b;
    } else {
      assert a[0] in b && b != [] && b[0] in a;
      StringOrder();
      assert StringLe(a[0], b[0]) && StringLe(b[0], a[0]);
      assert a == [a[0]] + a[1..] && b == [b[0]] + b[1..];
      forall x ensures x in a[1..] <==> x in b[1..] {
        assert x in a[1..] <==> x in a && x != a[0];
        assert x in b[1..] <==> x in b && x != b[0];
      }
      IncreasingUnique(a[1..], b[1..]);
    }
  }

  // Extending the allow list removes exactly the added paths, in their normalised form.
  lemma AllowMore(rootName: string, dir: Children, allowNested: seq<string>, more: seq<string>)
    requires WellFormed(dir)
    ensures Nested(rootName, dir, allowNested + more) == Without(Nested(rootName, dir, allowNested), AllowedSet(more))
  {
    hide PathText, HoldsRepository, Walked, SortStrings, AllowedSet, Nested, Finds;
    AllowedBoth(allowNested, more);
    var a, b := Nested(rootName, dir, allowNested), Nested(rootName, dir, allowNested + more);
    NestedExactly(rootName, dir, allowNested);
    NestedExactly(rootName, dir, allowNested + more);
    WithoutMeaning(a, AllowedSet(more));
    var allowed := AllowedSet(allowNested);
    if !IsSkipped(rootName) {
      forall x ensures x in b <==> x in a && x !in AllowedSet(more) {
        forall below: seq<string>
          ensures Finds(dir, [], allowed + AllowedSet(more), below) <==>
                  Finds(dir, [], allowed, below) && PathText(below) !in AllowedSet(more)
        {
          FindsLess(dir, allowed, AllowedSet(more), below);
        }
      }
    }
    IncreasingUnique(b, Without(a, AllowedSet(more)));
  }

  lemma FindsLess(dir: Children, allowed: set<string>, banned: set<string>, below: seq<string>)
    ensures Finds(dir, [], allowed + banned, below) <==> Finds(dir, [], allowed, below) && PathText(below) !in banned
  {
    hide HoldsRepository, PathText;
    assert [] + below == below;
  }

  lemma AllowedBoth(a: seq<string>, b: seq<string>)
    ensures AllowedSet(a + b) == AllowedSet(a) + AllowedSet(b)
  {
    hide Normalized;
  }

  // ---------- gitlinks ----------

  // Number of bytes before the first white-space rune.
  function WordLen(s: string): (n: nat)
    ensures n <= |s| && (SpaceHead(s) == 0 && s != "" ==> n > 0)
    decreases |s|
  {
    if s == "" || SpaceHead(s) > 0 then 0 else 1 + WordLen(s[1..])
  }

  // strings.Fields
  function Fields(s: string): seq<string>
    decreases |s|
  {
    TrimLeftMeaning(s);
    var t := TrimLeft(s);
    if t == "" then [] else [t[..WordLen(t)]] + Fields(t[WordLen(t)..])
  }

  const GITLINK_MODE := "160000"

  // The path a line of `git ls-files --stage` names if it is a gitlink.
  function GitlinkOf(line: string): seq<string> {
    var fields := Fields(line);
    if |fields| >= 4 && fields[0] == GITLINK_MODE then [fields[|fields| - 1]] else []
  }

  function GitlinksIn(lines: seq<string>): seq<string>
    decreases |lines|
  {
    if lines == [] then [] else GitlinksIn(lines[..|lines| - 1]) + GitlinkOf(lines[|lines| - 1])
  }

  function Gitlinks(text: string): seq<string> {
    SortStrings(GitlinksIn(Split(text, '\n')))
  }

  method ReadGitlinks(text: string) returns (gitlinks: seq<string>)
    ensures gitlinks == Gitlinks(text)
  {
    hide Fields, Split, SortStrings;
    var lines := Split(text, '\n');
    gitlinks := [];
    for i := 0 to |lines|
      invariant gitlinks == GitlinksIn(lines[..i])
    {
      assert lines[..i + 1][..i] == lines[..i];
      var fields := Fields(lines[i]);
      if |fields| >= 4 && fields[0] == GITLINK_MODE {
        gitlinks := gitlinks + [fields[|fields| - 1]];
      }
    }
    assert lines[..|lines|] == lines;
    gitlinks := SortStrings(gitlinks);
  }

  // Everything detectNestedGit does, given the tree and what `git ls-files --stage` said
  // (nothing if it failed).
  method DetectNestedGit(rootName: string, dir: Children, allowNested: seq<string>, stage: Maybe<string>)
    returns (nested: seq<string>, gitlinks: seq<string>)
    ensures nested == Nested(rootName, dir, allowNested)
    ensures gitlinks == if stage.Present? then Gitlinks(stage.value) else []
  {
    hide Walked, Gitlinks, SortStrings, AllowedSet, PathText;
    var allowed := ReadAllowed(allowNested);
    nested := [];
    if rootName == ".git" {
      if ".." !in allowed {
        nested := [".."];
      }
    } else if !IsSkipped(rootName) {
      nested := Walk(dir, [], allowed, nested);
      assert nested == Walked(dir, [], allowed);
    }
    gitlinks := [];
    if stage.Present? {
      gitlinks := ReadGitlinks(stage.value);
    }
    nested := SortStrings(nested);
  }

  // ---------- what a stage line tells ----------

  // A nonempty word of visible ASCII characters.
  predicate IsWord(w: string) {
    w != "" && forall c :: c in w ==> ' ' < c < '\U{7F}'
  }

  function StageLine(mode: string, hash: string, stage: string, path: string): string {
    mode + " " + hash + " " + stage + "\t" + path
  }

  lemma {:induction false} WordTaken(w: string, c: char, rest: string)
    requires forall k :: k in w ==> ' ' < k < '\U{7F}'
    requires c == ' ' || c == '\t'
    ensures WordLen(w + [c] + rest) == |w|
    decreases |w|
  {
    var s := w + [c] + rest;
    if w == "" {
    } else {
      assert w[0] in w && forall k :: k in w[1..] ==> k in w;
      WordTaken(w[1..], c, rest);
      assert s[1..] == w[1..] + [c] + rest;
    }
  }

  lemma FieldTaken(w: string, c: char, rest: string)
    requires IsWord(w) && (c == ' ' || c == '\t')
    ensures Fields(w + [c] + rest) == [w] + Fields(rest)
  {
    var s := w + [c] + rest;
    assert w[0] in w && s[0] == w[0];
    assert TrimLeft(s) == s;
    WordTaken(w, c, rest);
    var t := [c] + rest;
    assert s[|w|..] == t && s[..|w|] == w;
    assert t[1..] == rest;
    assert TrimLeft(t) == TrimLeft(rest);
  }

  lemma {:induction false} BlankHasNoFields(s: string)
    ensures Fields(s) == [] <==> TrimSpace(s) == ""
  {
    hide SpaceHead, SpaceTail;
    TrimLeftMeaning(s);
    var t := TrimLeft(s);
    if t != "" {
      AllBlankStarts(t);
    }
  }

  // Text that does not start with white space is not trimmed away.
  lemma {:induction false} AllBlankStarts(t: string)
    requires t != "" && SpaceHead(t) == 0
    ensures TrimRight(t) != ""
    decreases |t|
  {
    hide SpaceTail;
    var n := SpaceTail(t);
    if n == 0 {
    } else {
      SpaceTailIsHead(t);
      PrefixStartsPlain(t, |t| - n);
      AllBlankStarts(t[..|t| - n]);
    }
  }

  lemma SpaceTailIsHead(t: string)
    ensures SpaceTail(t) > 0 && SpaceTail(t) == |t| ==> SpaceHead(t) > 0
  {
  }

  lemma StageLineFields(mode: string, hash: string, stage: string, path: string)
    requires IsWord(mode) && IsWord(hash) && IsWord(stage)
    ensures Fields(StageLine(mode, hash, stage, path)) == [mode, hash, stage] + Fields(path)
    ensures Fields(path) == [] <==> TrimSpace(path) == ""
  {
    hide Fields, TrimSpace, IsWord;
    FieldTaken(stage, '\t', path);
    var s1 := stage + ['\t'] + path;
    FieldTaken(hash, ' ', s1);
    var s2 := hash + [' '] + s1;
    FieldTaken(mode, ' ', s2);
    assert StageLine(mode, hash, stage, path) == mode + [' '] + s2;
    BlankHasNoFields(path);
    assert [mode] + ([hash] + ([stage] + Fields(path))) == [mode, hash, stage] + Fields(path);
  }

  lemma GitlinkModeIs()
    ensures GITLINK_MODE == "160000"
  {
  }

  // A stage line gives a gitlink exactly when its mode is that of a gitlink and its path is
  // more than white space; what it gives is the path's last word.
  lemma StageLineReads(mode: string, hash: string, stage: string, path: string)
    requires IsWord(mode) && IsWord(hash) && IsWord(stage)
    ensures var found := GitlinkOf(StageLine(mode, hash, stage, path));
            && (found != [] <==> mode == "160000" && TrimSpace(path) != "")
            && (found != [] ==> found == [Fields(path)[|Fields(path)| - 1]])
  {
    hide Fields, TrimSpace, IsWord, StageLine;
    StageLineFields(mode, hash, stage, path);
    GitlinkModeIs();
    var fields := [mode, hash, stage] + Fields(path);
    assert fields[0] == mode && |fields| == 3 + |Fields(path)|;
    assert |fields| > 3 ==> fields[|fields| - 1] == Fields(path)[|Fields(path)| - 1];
  }
}

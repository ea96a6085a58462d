// What an entry of --allow-nested allows (the first lines of detectNestedGit).
module AllowList {
  import opened CodePoints
  import opened NestedGit
  import opened Sorting
  import opened Text

  function Slashes(n: nat): (s: string)
    ensures |s| == n
  {
    seq(n, i => '/')
  }

  // An entry: a path with any slashes at its ends and any white space around all of it.
  function EntryFor(a: string, i: nat, path: seq<string>, j: nat, b: string): string {
    a + (Slashes(i) + PathText(path) + Slashes(j)) + b
  }

  // White space at an end of the path itself is kept apart from what is trimmed.
  predicate Shielded(i: nat, path: seq<string>, j: nat) {
    (i > 0 || !StartsBlank(PathText(path))) && (j > 0 || !EndsBlank(PathText(path)))
  }

  // ---------- slashes ----------

  lemma {:induction false} SlashesLeftGone(i: nat, t: string)
    requires t == "" || t[0] != '/'
    ensures TrimSlashesLeft(Slashes(i) + t) == t
    decreases i
  {
    var s := Slashes(i) + t;
    if i == 0 {
      assert s == t;
    } else {
      assert s[1..] == Slashes(i - 1) + t;
      SlashesLeftGone(i - 1, t);
    }
  }

  lemma {:induction false} SlashesRightGone(t: string, j: nat)
    requires t == "" || t[|t| - 1] != '/'
    ensures TrimSlashesRight(t + Slashes(j)) == t
    decreases j
  {
    var s := t + Slashes(j);
    if j == 0 {
      assert s == t;
    } else {
      assert s[..|s| - 1] == t + Slashes(j - 1);
      SlashesRightGone(t, j - 1);
    }
  }

  lemma {:induction false} SlashesLeftEnd(s: string)
    ensures var t := TrimSlashesLeft(s);
            |t| <= |s| && (t == "" || t[0] != '/') && (t != "" ==> t[|t| - 1] == s[|s| - 1])
    decreases |s|
  {
    if s != "" && s[0] == '/' { SlashesLeftEnd(s[1..]); }
  }

  lemma {:induction false} SlashesRightEnd(s: string)
    ensures TrimSlashesRight(s) <= s
    ensures var t := TrimSlashesRight(s); t == "" || t[|t| - 1] != '/'
    decreases |s|
  {
    if s != "" && s[|s| - 1] == '/' { SlashesRightEnd(s[..|s| - 1]); }
  }

  // No allowed path begins or ends with a slash.
  lemma AllowedPlain(paths: seq<string>)
    ensures forall x :: x in AllowedSet(paths) ==> x != "" && x[0] != '/' && x[|x| - 1] != '/'
  {
    hide TrimSpace, TrimSlashesLeft, TrimSlashesRight;
    forall x | x in AllowedSet(paths) ensures x != "" && x[0] != '/' && x[|x| - 1] != '/' {
      var p :| p in paths && Normalized(p) == x && x != "";
      SlashesLeftEnd(TrimSpace(p));
      SlashesRightEnd(TrimSlashesLeft(TrimSpace(p)));
    }
  }

  // ---------- what is left of an entry ----------

  lemma PathPlain(path: seq<string>)
    requires AllNames(path) && path != []
    ensures var t := PathText(path); t != "" && t[0] != '/' && t[|t| - 1] != '/'
  {
    assert path[0] in path;
    JoinFirst(path, "/");
    PathLast(path);
  }

  lemma {:induction false} PathLast(path: seq<string>)
    requires AllNames(path) && path != []
    ensures PathText(path) != "" && PathText(path)[|PathText(path)| - 1] != '/'
    decreases |path|
  {
    assert path[0] in path;
    if |path| > 1 {
      assert forall n :: n in path[1..] ==> n in path;
      PathLast(path[1..]);
    }
  }

  lemma SlashIsPlain(t: string)
    requires t != ""
    ensures t[0] == '/' ==> !StartsBlank(t)
    ensures t[|t| - 1] == '/' ==> !EndsBlank(t)
  {
    hide StartsBlank, EndsBlank;
    SpaceExactly(t);
    SpaceTailExactly(t);
  }

  lemma SlashesPlain(i: nat, t: string, j: nat)
    requires t != ""
    ensures StartsBlank(Slashes(i) + t + Slashes(j)) <==> i == 0 && StartsBlank(t)
    ensures EndsBlank(Slashes(i) + t + Slashes(j)) <==> j == 0 && EndsBlank(t)
  {
    hide StartsBlank, EndsBlank, SpaceTail;
    var s := Slashes(i) + t + Slashes(j);
    SlashIsPlain(s);
    SpaceExactly(s);
    SpaceExactly(t);
    SpaceTailExactly(s);
    SpaceTailExactly(t);
    if i == 0 {
      assert s == t + Slashes(j);
      StartsBefore(t, Slashes(j));
    }
    if j == 0 {
      assert s == Slashes(i) + t;
      SpaceTailAcross(Slashes(i), t);
    }
  }

  lemma StartsBefore(t: string, rest: string)
    requires t != "" && (rest == "" || rest[0] == '/')
    ensures SpaceHead(t + rest) == SpaceHead(t)
  {
  }

  lemma ShieldedNormal(a: string, i: nat, path: seq<string>, j: nat, b: string)
    requires AllNames(path) && path != [] && AllBlank(a) && AllBlank(b) && Shielded(i, path, j)
    ensures Normalized(EntryFor(a, i, path, j, b)) == PathText(path)
  {
    hide TrimSpace, TrimSlashesLeft, TrimSlashesRight, StartsBlank, EndsBlank, AllBlank, PathText;
    var t := PathText(path);
    PathPlain(path);
    SlashesPlain(i, t, j);
    TrimExactly(a, Slashes(i) + t + Slashes(j), b);
    assert Slashes(i) + t + Slashes(j) == Slashes(i) + (t + Slashes(j));
    SlashesLeftGone(i, t + Slashes(j));
    SlashesRightGone(t, j);
  }

  // Trimming slashes on the left first leaves no more than trimming on the right alone.
  lemma {:induction false} SlashesBoth(s: string)
    ensures |TrimSlashesRight(TrimSlashesLeft(s))| <= |TrimSlashesRight(s)|
    decreases |s|
  {
    hide TrimSlashesRight;
    if s != "" && s[0] == '/' {
      SlashesBoth(s[1..]);
      RightOfTail(s);
    }
  }

  lemma {:induction false} RightOfTail(s: string)
    requires s != ""
    ensures |TrimSlashesRight(s[1..])| <= |TrimSlashesRight(s)|
    decreases |s|
  {
    if |s| > 1 && s[|s| - 1] == '/' {
      assert s[..|s| - 1][1..] == s[1..][..|s| - 2];
      RightOfTail(s[..|s| - 1]);
    }
  }

  // What is trimmed off the right of a path leaves no more than the path.
  lemma RightSide(u: string, j: nat, b: string)
    requires AllBlank(b) && (u == "" || u[|u| - 1] != '/')
    ensures |TrimSlashesRight(TrimRight(u + Slashes(j) + b))| <= |u|
    ensures j == 0 && u != "" && EndsBlank(u) ==> |TrimSlashesRight(TrimRight(u + Slashes(j) + b))| < |u|
  {
    hide SpaceTail, TrimRight, TrimSlashesRight, AllBlank, EndsBlank;
    var s := u + Slashes(j);
    TrimRightBlank(s, b);
    TrimRightMeaning(s);
    TrimRightStep(s);
    if j == 0 {
      assert s == u;
      SpaceTailExactly(u);
      TrimRightStep(u);
      SlashesRightEnd(TrimRight(u));
    } else {
      SlashIsPlain(s);
      SpaceTailExactly(s);
      SlashesRightGone(u, j);
    }
  }

  // Trimming on the left stops within the path or takes all of it.
  lemma {:induction false} LeftSide(u: string, j: nat, b: string)
    returns (v: string, all: bool)
    requires AllBlank(b)
    ensures |v| <= |u| && (StartsBlank(u) ==> |v| < |u|) && (v != "" ==> v[|v| - 1] == u[|u| - 1])
    ensures TrimLeft(u + Slashes(j) + b) == if all then "" else v + Slashes(j) + b
    decreases |u|
  {
    hide SpaceHead, TrimLeft, AllBlank, StartsBlank;
    var s := u + Slashes(j) + b;
    TrimLeftStep(s);
    if u == "" {
      v, all := LeftNothing(j, b);
    } else {
      LeftFirst(u, j, b);
      var n := SpaceHead(u);
      SpaceExactly(u);
      if n == 0 {
        v, all := u, false;
      } else {
        assert s[n..] == u[n..] + Slashes(j) + b;
        v, all := LeftSide(u[n..], j, b);
      }
    }
  }

  lemma LeftFirst(u: string, j: nat, b: string)
    requires u != "" && AllBlank(b)
    ensures SpaceHead(u + Slashes(j) + b) == SpaceHead(u)
  {
    hide AllBlank;
    BlankStep(b);
    assert u + Slashes(j) + b == u + (Slashes(j) + b);
    if j == 0 {
      assert Slashes(0) + b == b;
      SpaceHeadBefore(u, b);
    } else {
      StartsBefore(u, Slashes(j) + b);
    }
  }

  lemma LeftNothing(j: nat, b: string) returns (v: string, all: bool)
    requires AllBlank(b)
    ensures v == "" && TrimLeft("" + Slashes(j) + b) == if all then "" else v + Slashes(j) + b
    ensures !StartsBlank("")
  {
    hide SpaceHead, TrimLeft, AllBlank;
    v := "";
    var s := "" + Slashes(j) + b;
    TrimLeftStep(s);
    if j == 0 {
      all := true;
      assert s == b + "";
      TrimLeftBlank(b, "");
      TrimLeftStep("");
      EmptyIsPlain();
    } else {
      all := false;
      SlashIsPlain(s);
      SpaceExactly(s);
    }
  }

  // Without such a shield the path loses its own white space and is not what is allowed.
  lemma UnshieldedShort(a: string, i: nat, path: seq<string>, j: nat, b: string)
    requires AllNames(path) && path != [] && AllBlank(a) && AllBlank(b) && !Shielded(i, path, j)
    ensures |Normalized(EntryFor(a, i, path, j, b))| < |PathText(path)|
  {
    hide TrimLeft, TrimRight, TrimSlashesLeft, TrimSlashesRight, StartsBlank, EndsBlank, AllBlank, PathText;
    var t := PathText(path);
    PathPlain(path);
    assert EntryFor(a, i, path, j, b) == a + (Slashes(i) + t + Slashes(j) + b);
    TrimLeftBlank(a, Slashes(i) + t + Slashes(j) + b);
    if i == 0 {
      assert Slashes(0) + t == t;
      var v, all := LeftSide(t, j, b);
      if all {
        NothingLeft();
      } else {
        RightSide(v, j, b);
        SlashesBoth(TrimRight(v + Slashes(j) + b));
        UnshieldedPlain(t, j, b, v);
      }
    } else {
      assert j == 0;
      UnshieldedRight(i, t, b);
    }
  }

  lemma NothingLeft()
    ensures TrimSlashesRight(TrimSlashesLeft(TrimRight(""))) == ""
  {
  }

  // On the left nothing was taken, so on the right something is.
  lemma UnshieldedPlain(t: string, j: nat, b: string, v: string)
    requires AllBlank(b) && t != "" && t[|t| - 1] != '/' && (StartsBlank(t) || (j == 0 && EndsBlank(t)))
    requires |v| <= |t| && (StartsBlank(t) ==> |v| < |t|) && (v != "" ==> v[|v| - 1] == t[|t| - 1])
    requires TrimLeft(t + Slashes(j) + b) == v + Slashes(j) + b
    ensures |TrimSlashesRight(TrimRight(v + Slashes(j) + b))| < |t|
  {
    hide SpaceHead, TrimLeft, TrimRight, TrimSlashesLeft, TrimSlashesRight, StartsBlank, EndsBlank, AllBlank;
    RightSide(v, j, b);
    if !StartsBlank(t) {
      TrimLeftStep(t + Slashes(j) + b);
      LeftFirst(t, j, b);
      SpaceExactly(t);
      assert |v| == |t|;
      RightSide(t, j, b);
    }
  }

  lemma UnshieldedRight(i: nat, t: string, b: string)
    requires i > 0 && AllBlank(b) && t != "" && t[0] != '/' && t[|t| - 1] != '/' && EndsBlank(t)
    ensures |TrimSlashesRight(TrimSlashesLeft(TrimRight(TrimLeft(Slashes(i) + t + Slashes(0) + b))))| < |t|
  {
    hide SpaceHead, SpaceTail, TrimLeft, TrimRight, TrimSlashesLeft, TrimSlashesRight, StartsBlank, EndsBlank,
      AllBlank;
    var s := Slashes(i) + t;
    assert s + Slashes(0) + b == s + b;
    SlashIsPlain(s + b);
    SpaceExactly(s + b);
    TrimLeftStep(s + b);
    TrimRightBlank(s, b);
    TrimRightAcross(Slashes(i), t);
    SpaceTailExactly(t);
    TrimRightStep(t);
    TrimRightMeaning(t);
    TrimRightMeaning(t[..|t| - SpaceTail(t)]);
    RightPlain(i, TrimRight(t));
  }

  lemma RightPlain(i: nat, u: string)
    requires u == "" || u[0] != '/'
    ensures |TrimSlashesRight(TrimSlashesLeft(Slashes(i) + u))| <= |u|
    ensures |TrimSlashesRight(TrimSlashesLeft(TrimRight(Slashes(i))))| == 0
  {
    hide TrimSlashesLeft, TrimSlashesRight;
    SlashesLeftGone(i, u);
    SlashesRightEnd(u);
    assert Slashes(i) == Slashes(i) + "";
    SlashesLeftGone(i, "");
    SlashesRightEnd("");
    TrimRightStep(Slashes(i));
  }

  // ---------- what an entry does to the list ----------

  lemma NestedWith(rootName: string, dir: Children, allowNested: seq<string>, entry: string)
    requires WellFormed(dir)
    ensures forall x :: x in Nested(rootName, dir, allowNested + [entry]) <==>
              x in Nested(rootName, dir, allowNested) && x != Normalized(entry)
    ensures Normalized(entry) == "" ==>
              Nested(rootName, dir, allowNested + [entry]) == Nested(rootName, dir, allowNested)
  {
    hide Nested, Normalized, StringLe;
    var all := Nested(rootName, dir, allowNested);
    AllowMore(rootName, dir, allowNested, [entry]);
    NestedExactly(rootName, dir, allowNested);
    WithoutMeaning(all, AllowedSet([entry]));
    assert entry in [entry];
    NamesNotEmpty(rootName, dir, allowNested);
    if Normalized(entry) == "" {
      assert AllowedSet([entry]) == {};
      WithoutNothing(all);
    }
  }

  lemma {:induction false} WithoutNothing(names: seq<string>)
    ensures Without(names, {}) == names
    decreases |names|
  {
    if names == [] {
    } else {
      WithoutNothing(names[1..]);
    }
  }

  lemma NamesNotEmpty(rootName: string, dir: Children, allowNested: seq<string>)
    requires WellFormed(dir)
    ensures "" !in Nested(rootName, dir, allowNested)
  {
    hide Nested, HoldsRepository, PathText, AllowedSet;
    NestedExactly(rootName, dir, allowNested);
    var allowed := AllowedSet(allowNested);
    forall below | Finds(dir, [], allowed, below) ensures PathText(below) != "" {
      NamesOnPath(dir, below);
      NothingText(below);
      assert [] + below == below;
    }
  }

  // An entry for a path takes exactly that path off the list, with any slashes at its ends
  // and any white space around it; but white space of the path's own at an end counts only
  // behind a slash, and without one the path stays listed.
  lemma EntryAllows(rootName: string, dir: Children, allowNested: seq<string>, a: string, i: nat, path: seq<string>,
      j: nat, b: string)
    requires WellFormed(dir) && AllNames(path) && path != [] && AllBlank(a) && AllBlank(b)
    ensures var entry := EntryFor(a, i, path, j, b);
            var before, after := Nested(rootName, dir, allowNested), Nested(rootName, dir, allowNested + [entry]);
            && (Shielded(i, path, j) ==> forall x :: x in after <==> x in before && x != PathText(path))
            && (PathText(path) in before ==> (PathText(path) !in after <==> Shielded(i, path, j)))
  {
    hide Nested, Normalized, AllBlank, Shielded, EntryFor, PathText;
    NestedWith(rootName, dir, allowNested, EntryFor(a, i, path, j, b));
    if Shielded(i, path, j) {
      ShieldedNormal(a, i, path, j, b);
    } else {
      UnshieldedShort(a, i, path, j, b);
    }
  }

  // An entry of slashes alone, or of nothing, with white space around it, changes nothing.
  lemma EmptyEntryAllowsNothing(rootName: string, dir: Children, allowNested: seq<string>, a: string, i: nat, b: string)
    requires WellFormed(dir) && AllBlank(a) && AllBlank(b)
    ensures Nested(rootName, dir, allowNested + [a + Slashes(i) + b]) == Nested(rootName, dir, allowNested)
  {
    hide Nested, AllBlank, TrimSlashesLeft, TrimSlashesRight, TrimSpace, StartsBlank, EndsBlank;
    var s := Slashes(i);
    EmptyEnds();
    if i > 0 { SlashIsPlain(s); }
    TrimExactly(a, s, b);
    assert s == s + "";
    SlashesLeftGone(i, "");
    SlashesRightEnd("");
    NestedWith(rootName, dir, allowNested, a + s + b);
  }

  lemma EmptyEnds()
    ensures !StartsBlank("") && !EndsBlank("")
  {
  }
}

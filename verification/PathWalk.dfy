// Where a path leads, and that cleaning it changes nothing about that.
module PathWalk {
  import opened Paths
  import opened Text

  // A place in a tree of directories by the names on the way from the root. One element of
  // a path goes on from there; above the root is the root.
  function Step(at: seq<string>, part: string): seq<string> {
    if part == "" || part == "." then at
    else if part == ".." then if at == [] then [] else at[..|at| - 1]
    else at + [part]
  }

  function Walk(at: seq<string>, parts: seq<string>): seq<string>
    decreases |parts|
  {
    if parts == [] then at else Walk(Step(at, parts[0]), parts[1..])
  }

  // Where the path leads from a directory, in a tree without links.
  function Leads(at: seq<string>, path: string): seq<string> {
    Walk(if Rooted(path) then [] else at, Split(path, '/'))
  }

  lemma {:induction false} WalkSnoc(at: seq<string>, parts: seq<string>)
    requires parts != []
    ensures Walk(at, parts) == Step(Walk(at, parts[..|parts| - 1]), parts[|parts| - 1])
    decreases |parts|
  {
    if |parts| == 1 {
      assert parts[1..] == [] && parts[..0] == [];
    } else {
      WalkSnoc(Step(at, parts[0]), parts[1..]);
      assert parts[1..][..|parts| - 2] == parts[..|parts| - 1][1..];
    }
  }

  // A name at the end and a step up cancel.
  lemma UpLeads(at: seq<string>, stack: seq<string>)
    requires stack != [] && PlainElement(stack[|stack| - 1]) && stack[|stack| - 1] != ".."
    ensures Step(Walk(at, stack), "..") == Walk(at, stack[..|stack| - 1])
  {
    hide Walk;
    WalkSnoc(at, stack);
    var place, last := Walk(at, stack[..|stack| - 1]), stack[|stack| - 1];
    assert (place + [last])[..|place|] == place;
  }

  lemma OnLeads(at: seq<string>, stack: seq<string>, part: string)
    ensures Walk(at, stack + [part]) == Step(Walk(at, stack), part)
  {
    hide Walk;
    WalkSnoc(at, stack + [part]);
    assert (stack + [part])[..|stack|] == stack;
  }

  // Working an element out keeps the place.
  lemma PushLeads(at: seq<string>, rooted: bool, stack: seq<string>, part: string)
    requires Normal(rooted, stack) && (rooted ==> at == [])
    ensures Walk(at, Push(rooted, stack, part)) == Step(Walk(at, stack), part)
  {
    hide Walk, Normal, PlainElement;
    WalkNowhere(at);
    if stack != [] { NormalFront(rooted, stack); }
    if part == ".." && stack != [] && stack[|stack| - 1] != ".." {
      UpLeads(at, stack);
    } else {
      OnLeads(at, stack, part);
    }
  }

  lemma WalkNowhere(at: seq<string>)
    ensures Walk(at, []) == at
  {
  }

  lemma {:induction false} ReduceLeads(at: seq<string>, rooted: bool, parts: seq<string>)
    requires (rooted ==> at == []) && forall p :: p in parts ==> '/' !in p
    ensures Walk(at, Reduce(rooted, parts)) == Walk(at, parts)
    decreases |parts|
  {
    if parts == [] {
    } else {
      var init, last := parts[..|parts| - 1], parts[|parts| - 1];
      ReduceLeads(at, rooted, init);
      ReduceNormal(rooted, init);
      PushLeads(at, rooted, Reduce(rooted, init), last);
      WalkSnoc(at, parts);
    }
  }

  lemma ElementsLead(at: seq<string>, path: string)
    ensures Leads(at, path) == Walk(if Rooted(path) then [] else at, Elements(path))
  {
    hide Split, Reduce;
    JoinSplit(path, '/');
    ReduceLeads(if Rooted(path) then [] else at, Rooted(path), Split(path, '/'));
  }

  // From every directory the clean path leads where the path leads.
  lemma CleanLeads(at: seq<string>, path: string)
    ensures Leads(at, Clean(path)) == Leads(at, path)
  {
    hide Elements, Leads, Render;
    ElementsNormal(path);
    RenderElements(Rooted(path), Elements(path));
    ElementsLead(at, path);
    ElementsLead(at, Clean(path));
  }

  // ---------- no other normal form does ----------

  function Climbs(elements: seq<string>): (n: nat)
    ensures n <= |elements| && (forall i :: 0 <= i < n ==> elements[i] == "..")
    ensures n < |elements| ==> elements[n] != ".."
  {
    if elements == [] || elements[0] != ".." then 0 else 1 + Climbs(elements[1..])
  }

  // A normal path climbs and then goes down by names.
  lemma {:induction false} NormalWalk(at: seq<string>, elements: seq<string>)
    requires Normal(false, elements) && Climbs(elements) <= |at|
    ensures Walk(at, elements) == at[..|at| - Climbs(elements)] + elements[Climbs(elements)..]
    decreases |elements|
  {
    hide Normal;
    if elements == [] {
      assert at[..|at|] == at;
    } else {
      var rest := elements[1..];
      NormalRest(elements);
      NormalHead(elements);
      if elements[0] == ".." {
        var up := at[..|at| - 1];
        NormalWalk(up, rest);
        assert up[..|up| - Climbs(rest)] == at[..|at| - Climbs(elements)];
        assert rest[Climbs(rest)..] == elements[Climbs(elements)..];
      } else {
        NoClimb(elements);
        var down := at + [elements[0]];
        NormalWalk(down, rest);
        assert down[..|down|] == down && at[..|at|] == at;
        assert down + rest == at + elements;
      }
    }
  }

  lemma NormalHead(elements: seq<string>)
    requires Normal(false, elements) && elements != []
    ensures elements[0] != "" && elements[0] != "."
  {
    assert elements[0] in elements;
  }

  lemma NormalRest(elements: seq<string>)
    requires Normal(false, elements) && elements != []
    ensures Normal(false, elements[1..])
  {
    var rest := elements[1..];
    assert forall e :: e in rest ==> e in elements;
    forall i, j | 0 <= i < j < |rest| && rest[j] == ".." ensures rest[i] == ".." {
      assert elements[j + 1] == ".." && elements[i + 1] == rest[i];
    }
  }

  lemma NoClimb(elements: seq<string>)
    requires Normal(false, elements) && elements != [] && elements[0] != ".."
    ensures Climbs(elements[1..]) == 0 && Climbs(elements) == 0
  {
    var rest := elements[1..];
    assert rest != [] ==> rest[0] == elements[1];
  }

  // Normal paths that climb differently lead apart from somewhere.
  lemma ClimbsApart(a: seq<string>, b: seq<string>) returns (at: seq<string>)
    requires Normal(false, a) && Normal(false, b) && Climbs(a) < Climbs(b)
    ensures Walk(at, a) != Walk(at, b)
  {
    hide Normal, Walk;
    var n, m := Climbs(a), Climbs(b);
    var y := b[m..];
    var z := if y == [] then "" else y[0] + "x";
    at := seq(m, i => z);
    NormalWalk(at, a);
    NormalWalk(at, b);
    assert at[..0] + y == y;
    assert (at[..m - n] + a[n..])[0] == z;
    assert y != [] ==> |y[0] + "x"| == |y[0]| + 1;
  }

  lemma ClimbsNoFurther(a: seq<string>, b: seq<string>)
    requires Normal(false, a) && Normal(false, b) && forall at :: Walk(at, a) == Walk(at, b)
    ensures Climbs(a) >= Climbs(b)
  {
    hide Normal, Walk;
    if Climbs(a) < Climbs(b) {
      var at := ClimbsApart(a, b);
    }
  }

  lemma ClimbsTaken(a: seq<string>, n: nat)
    requires n == Climbs(a)
    ensures a[..n] == seq(n, i => "..") && a == a[..n] + a[n..]
  {
  }

  lemma NormalUnique(a: seq<string>, b: seq<string>)
    requires Normal(false, a) && Normal(false, b) && forall at :: Walk(at, a) == Walk(at, b)
    ensures a == b
  {
    hide Normal, Walk, Climbs;
    ClimbsNoFurther(a, b);
    ClimbsNoFurther(b, a);
    var n := Climbs(a);
    var at := seq(n, i => "");
    NormalWalk(at, a);
    NormalWalk(at, b);
    assert at[..0] + a[n..] == a[n..] && at[..0] + b[n..] == b[n..];
    ClimbsTaken(a, n);
    ClimbsTaken(b, n);
  }

  lemma {:induction false} NamesWalk(at: seq<string>, names: seq<string>)
    requires forall e :: e in names ==> e != "" && e != "." && e != ".."
    ensures Walk(at, names) == at + names
    decreases |names|
  {
    if names == [] {
    } else {
      assert names[0] in names && forall e :: e in names[1..] ==> e in names;
      NamesWalk(at + [names[0]], names[1..]);
      assert at + [names[0]] + names[1..] == at + names;
    }
  }

  // What Elements leaves of a path is the only normal list that leads, from every directory,
  // where the path leads.
  lemma ElementsOnly(path: string, elements: seq<string>)
    requires Normal(Rooted(path), elements)
    requires forall at :: Leads(at, path) == Walk(if Rooted(path) then [] else at, elements)
    ensures elements == Elements(path)
  {
    hide Elements, Leads;
    ElementsNormal(path);
    forall at ensures Leads(at, path) == Walk(if Rooted(path) then [] else at, Elements(path)) {
      ElementsLead(at, path);
    }
    if Rooted(path) {
      NamesWalk([], elements);
      NamesWalk([], Elements(path));
      assert Leads([], path) == Walk([], elements);
      assert [] + elements == elements && [] + Elements(path) == Elements(path);
    } else {
      forall at ensures Walk(at, elements) == Walk(at, Elements(path)) {
        assert Leads(at, path) == Walk(at, elements);
      }
      NormalUnique(elements, Elements(path));
    }
  }
}

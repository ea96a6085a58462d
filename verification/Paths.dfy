// Lexical path functions of Go's path/filepath on Unix, by path elements.
module Paths {
  import opened Text

  // One element of a path applied to the elements before it.
  function Push(rooted: bool, stack: seq<string>, part: string): seq<string> {
    if part == "" || part == "." then stack
    else if part == ".." then
      if stack != [] && stack[|stack| - 1] != ".." then stack[..|stack| - 1]
      else if rooted then stack
      else stack + [".."]
    else stack + [part]
  }

  function Reduce(rooted: bool, parts: seq<string>): seq<string>
    decreases |parts|
  {
    if parts == [] then []
    else Push(rooted, Reduce(rooted, parts[..|parts| - 1]), parts[|parts| - 1])
  }

  predicate Rooted(path: string) {
    HasPrefix(path, "/")
  }

  // The elements that are left of a path once "", "." and ".." are worked out.
  function Elements(path: string): seq<string> {
    Reduce(Rooted(path), Split(path, '/'))
  }

  function Render(rooted: bool, elements: seq<string>): string {
    if rooted then "/" + Join(elements, "/")
    else if elements == [] then "."
    else Join(elements, "/")
  }

  // filepath.Clean
  function Clean(path: string): string {
    Render(Rooted(path), Elements(path))
  }

  predicate PlainElement(e: string) {
    e != "" && e != "." && '/' !in e
  }

  // What Elements leaves: plain elements, with ".." only at the front of a relative path.
  ghost predicate Normal(rooted: bool, elements: seq<string>) {
    && (forall e :: e in elements ==> PlainElement(e))
    && (rooted ==> ".." !in elements)
    && (forall i, j :: 0 <= i < j < |elements| && elements[j] == ".." ==> elements[i] == "..")
  }

  lemma {:induction false} ReduceNormal(rooted: bool, parts: seq<string>)
    requires forall p :: p in parts ==> '/' !in p
    ensures Normal(rooted, Reduce(rooted, parts))
    decreases |parts|
  {
    if parts == [] {
    } else {
      ReduceNormal(rooted, parts[..|parts| - 1]);
    }
  }

  lemma {:induction false} ReduceKeepsNormal(rooted: bool, elements: seq<string>)
    requires Normal(rooted, elements)
    ensures Reduce(rooted, elements) == elements
    decreases |elements|
  {
    if elements == [] {
    } else {
      var init, last := elements[..|elements| - 1], elements[|elements| - 1];
      NormalFront(rooted, elements);
      ReduceKeepsNormal(rooted, init);
      assert Push(rooted, init, last) == init + [last];
    }
  }

  lemma NormalFront(rooted: bool, elements: seq<string>)
    requires Normal(rooted, elements) && elements != []
    ensures Normal(rooted, elements[..|elements| - 1])
    ensures PlainElement(elements[|elements| - 1])
    ensures elements[|elements| - 1] == ".." ==> !rooted && (|elements| > 1 ==> elements[|elements| - 2] == "..")
  {
    assert elements[|elements| - 1] in elements;
    assert forall e :: e in elements[..|elements| - 1] ==> e in elements;
  }

  // Working out a list in two halves is working it out at once.
  lemma {:induction false} ReduceInFront(rooted: bool, front: seq<string>, parts: seq<string>)
    ensures Reduce(rooted, Reduce(rooted, front) + parts) == Reduce(rooted, front + parts)
    requires forall p :: p in front ==> '/' !in p
    decreases |parts|
  {
    var base := Reduce(rooted, front);
    if parts == [] {
      ReduceNormal(rooted, front);
      ReduceKeepsNormal(rooted, base);
      assert base + parts == base && front + parts == front;
    } else {
      var init, last := parts[..|parts| - 1], parts[|parts| - 1];
      ReduceInFront(rooted, front, init);
      assert (base + parts)[..|base + parts| - 1] == base + init;
      assert (front + parts)[..|front + parts| - 1] == front + init;
    }
  }

  lemma {:induction false} ReduceSkipsEmptyHead(rooted: bool, parts: seq<string>)
    ensures Reduce(rooted, [""] + parts) == Reduce(rooted, parts)
    decreases |parts|
  {
    if parts == [] {
      assert Reduce(rooted, [""]) == Push(rooted, Reduce(rooted, [""][..0]), "");
    } else {
      var init, last := parts[..|parts| - 1], parts[|parts| - 1];
      ReduceSkipsEmptyHead(rooted, init);
      assert ([""] + parts)[..|parts|] == [""] + init;
    }
  }

  lemma ElementsNormal(path: string)
    ensures Normal(Rooted(path), Elements(path))
  {
    JoinSplit(path, '/');
    ReduceNormal(Rooted(path), Split(path, '/'));
  }

  // Reading a rendered normal form gives its elements back.
  lemma RenderElements(rooted: bool, elements: seq<string>)
    requires Normal(rooted, elements)
    ensures Rooted(Render(rooted, elements)) == rooted
    ensures Elements(Render(rooted, elements)) == elements
  {
    ReduceKeepsNormal(rooted, elements);
    if elements == [] {
      RenderNothing();
    } else {
      SplitJoin(elements, '/');
      if rooted {
        SplitRooted(Join(elements, "/"));
        ReduceSkipsEmptyHead(true, elements);
      } else {
        assert PlainElement(elements[0]);
        JoinStartsWith(elements, "/");
      }
    }
  }

  lemma RenderNothing()
    ensures Elements("/") == [] && Elements(".") == []
  {
    SplitRooted("");
    ReduceSkipsEmptyHead(true, [""]);
    ReduceSkipsEmptyHead(true, []);
    assert [""] + [] == [""];
    assert Split(".", '/') == ["."] by {
      assert "."[1..] == "";
      assert ['.'] + "" == ".";
    }
    assert Reduce(false, ["."]) == Push(false, Reduce(false, ["."][..0]), ".");
  }

  lemma SplitRooted(rest: string)
    ensures Split("/" + rest, '/') == [""] + Split(rest, '/')
  {
    assert ("/" + rest)[1..] == rest;
  }

  lemma JoinStartsWith(elements: seq<string>, sep: string)
    requires elements != [] && elements[0] != ""
    ensures Join(elements, sep) != "" && Join(elements, sep)[0] == elements[0][0]
  {
  }

  lemma CleanIdempotent(path: string)
    ensures Clean(Clean(path)) == Clean(path)
  {
    ElementsNormal(path);
    RenderElements(Rooted(path), Elements(path));
  }

  function CommonLength(a: seq<string>, b: seq<string>): (n: nat)
    ensures n <= |a| && n <= |b| && a[..n] == b[..n]
    ensures n < |a| && n < |b| ==> a[n] != b[n]
    decreases |a|
  {
    if a == [] || b == [] || a[0] != b[0] then 0
    else 1 + CommonLength(a[1..], b[1..])
  }

  function Ups(n: nat): seq<string> {
    seq(n, i => "..")
  }

  datatype RelResult = RelPath(path: string) | RelError

  // filepath.Rel, for a target that does not clean to "."
  function Rel(base: string, target: string): RelResult {
    var b, t := Elements(base), Elements(target);
    var n := CommonLength(b, t);
    if Rooted(base) != Rooted(target) then RelError
    else if b == t then RelPath(".")
    else if n < |b| && b[n] == ".." then RelError
    else RelPath(Join(Ups(|b| - n) + t[n..], "/"))
  }

  predicate GoesUp(relative: string) {
    relative == ".." || HasPrefix(relative, "../")
  }

  // A joined path goes up exactly when its first element is "..".
  lemma JoinGoesUp(elements: seq<string>)
    requires elements != [] && forall e :: e in elements ==> PlainElement(e)
    ensures GoesUp(Join(elements, "/")) <==> elements[0] == ".."
  {
    var s, e := Join(elements, "/"), elements[0];
    if |elements| == 1 {
      assert s == e && PlainElement(e);
      assert "../"[2] == '/';
    } else {
      var rest := Join(elements[1..], "/");
      assert PlainElement(e);
      assert s == e + "/" + rest && s[|e|] == '/';
      if e == ".." {
        assert s[..3] == "../";
      } else {
        assert |e| >= 2 ==> s[..2] == e[..2];
        assert |e| == 2 ==> e == e[..2];
        assert |e| > 2 ==> s[2] == e[2] != '/';
        assert |e| == 1 ==> s[1] == '/';
        assert "../"[1] == '.' && "../"[2] == '/' && "../"[..2] == "..";
      }
    }
  }

  // Rel leads down without going up exactly when the base's elements are the first
  // elements of the target and the rest does not start by going up.
  lemma RelInside(base: string, target: string)
    ensures var r := Rel(base, target);
            (r.RelPath? && !GoesUp(r.path)) <==> Inside(base, target)
  {
    var b, t := Elements(base), Elements(target);
    var n := CommonLength(b, t);
    ElementsNormal(base);
    ElementsNormal(target);
    CommonLengthPrefix(b, t);
    if Rooted(base) == Rooted(target) && b != t && !(n < |b| && b[n] == "..") {
      var all := Ups(|b| - n) + t[n..];
      assert forall e :: e in all ==> e == ".." || e in t;
      assert PlainElement("..");
      JoinGoesUp(all);
      assert all[0] == if n < |b| then ".." else t[n];
    }
  }

  lemma CommonLengthPrefix(a: seq<string>, b: seq<string>)
    ensures a <= b <==> CommonLength(a, b) == |a|
  {
    var n := CommonLength(a, b);
    if n == |a| {
      assert a == a[..n];
    }
  }

  ghost predicate Inside(base: string, target: string) {
    && Rooted(base) == Rooted(target)
    && Elements(base) <= Elements(target)
    && (Elements(base) < Elements(target) ==> Elements(target)[|Elements(base)|] != "..")
  }

  // The path that Rel gives for a target inside a rooted base.
  lemma RelRest(base: string, target: string) returns (parts: seq<string>)
    requires Rooted(base) && Rooted(target) && Elements(base) <= Elements(target)
    ensures parts == if Elements(base) == Elements(target) then ["."] else Elements(target)[|Elements(base)|..]
    ensures Rel(base, target) == RelPath(Join(parts, "/"))
    ensures forall e :: e in parts ==> '/' !in e && e != ".." && e != ""
  {
    var b, t := Elements(base), Elements(target);
    ElementsNormal(target);
    var n := CommonLength(b, t);
    CommonLengthPrefix(b, t);
    var rest := t[n..];
    assert Ups(0) + rest == rest;
    parts := if b == t then ["."] else rest;
    assert forall e :: e in rest ==> e in t;
  }

  // A target inside a rooted base is the base followed by the relative path, which
  // never goes up.
  lemma RelJoins(base: string, target: string)
    requires Rooted(base) && Rooted(target) && Elements(base) <= Elements(target)
    ensures Rel(base, target).RelPath?
    ensures Clean(Clean(base) + "/" + Rel(base, target).path) == Clean(target)
    ensures ".." !in Split(Rel(base, target).path, '/')
  {
    hide Elements, Rel, Clean, Split, Join;
    var parts := RelRest(base, target);
    SplitJoin(parts, '/');
    JoinedElements(base, target, parts);
    CleanByElements(Clean(base) + "/" + Join(parts, "/"), target);
  }

  // Equal elements make equal clean paths.
  lemma CleanByElements(a: string, b: string)
    requires Rooted(a) == Rooted(b) && Elements(a) == Elements(b)
    ensures Clean(a) == Clean(b)
  {
    hide Elements, Render;
  }

  lemma RestReduces(b: seq<string>, t: seq<string>, parts: seq<string>)
    requires Normal(true, b) && Normal(true, t) && b <= t && parts == if b == t then ["."] else t[|b|..]
    ensures Reduce(true, b + parts) == t
  {
    if b == t {
      assert (b + ["."])[..|b|] == b;
      ReduceKeepsNormal(true, b);
    } else {
      assert b + parts == t;
      ReduceKeepsNormal(true, t);
    }
  }

  lemma JoinedElements(base: string, target: string, parts: seq<string>)
    requires Rooted(base) && Rooted(target) && Elements(base) <= Elements(target)
    requires parts == if Elements(base) == Elements(target) then ["."] else Elements(target)[|Elements(base)|..]
    requires forall e :: e in parts ==> '/' !in e
    ensures var joined := Clean(base) + "/" + Join(parts, "/"); Rooted(joined) && Elements(joined) == Elements(target)
  {
    hide Split, Join, Reduce;
    var b, t := Elements(base), Elements(target);
    ElementsNormal(base);
    ElementsNormal(target);
    SplitJoin(parts, '/');
    RenderElements(true, b);
    JoinSplit(Clean(base), '/');
    SplitAcross(Clean(base), Join(parts, "/"), '/');
    ReduceInFront(true, Split(Clean(base), '/'), parts);
    RestReduces(b, t, parts);
  }
}

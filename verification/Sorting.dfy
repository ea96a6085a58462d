// Sorting by a total order: what Go's sort.Strings and sort.Slice promise, and
// why their results do not depend on how equal elements are arranged.
module Sorting {

  ghost predicate TotalOrder<T(!new)>(le: (T, T) -> bool) {
    && (forall x, y :: le(x, y) || le(y, x))
    && (forall x, y :: le(x, y) && le(y, x) ==> x == y)
    && (forall x, y, z :: le(x, y) && le(y, z) ==> le(x, z))
  }

  ghost predicate SortedBy<T>(le: (T, T) -> bool, s: seq<T>) {
    forall i, j :: 0 <= i < j < |s| ==> le(s[i], s[j])
  }

  // The contract of a sort that may rearrange equal elements as it likes.
  ghost predicate IsSortOf<T>(le: (T, T) -> bool, sorted: seq<T>, s: seq<T>) {
    SortedBy(le, sorted) && multiset(sorted) == multiset(s)
  }

  function Insert<T(!new)>(le: (T, T) -> bool, x: T, s: seq<T>): (r: seq<T>)
    requires TotalOrder(le) && SortedBy(le, s)
    ensures IsSortOf(le, r, [x] + s)
    decreases |s|
  {
    if s == [] || le(x, s[0]) then
      [x] + s
    else
      var t := Insert(le, x, s[1..]);
      InsertBehind(le, x, s, t);
      [s[0]] + t
  }

  lemma InsertBehind<T(!new)>(le: (T, T) -> bool, x: T, s: seq<T>, t: seq<T>)
    requires TotalOrder(le) && SortedBy(le, s) && s != [] && le(s[0], x)
    requires IsSortOf(le, t, [x] + s[1..])
    ensures IsSortOf(le, [s[0]] + t, [x] + s)
  {
    hide TotalOrder, SortedBy;
    SameContents(t, [x] + s[1..]);
    FirstIsLeast(le, s);
    SortedWith(le, s[0], t);
    SwappedContents(x, s, t);
  }

  lemma FirstIsLeast<T>(le: (T, T) -> bool, s: seq<T>)
    requires s != [] && SortedBy(le, s)
    ensures forall y :: y in s[1..] ==> le(s[0], y)
  {
    assert forall i :: 0 <= i < |s[1..]| ==> s[1..][i] == s[i + 1];
  }

  lemma SortedWith<T>(le: (T, T) -> bool, first: T, t: seq<T>)
    requires SortedBy(le, t) && forall y :: y in t ==> le(first, y)
    ensures SortedBy(le, [first] + t)
  {
    assert forall i :: 0 <= i < |t| ==> t[i] in t;
  }

  lemma SwappedContents<T>(x: T, s: seq<T>, t: seq<T>)
    requires s != [] && multiset(t) == multiset([x] + s[1..])
    ensures multiset([s[0]] + t) == multiset([x] + s)
  {
    assert s == [s[0]] + s[1..];
    assert multiset([s[0]] + t) == multiset{s[0]} + multiset(t);
    assert multiset([x] + s[1..]) == multiset{x} + multiset(s[1..]);
    assert multiset([x] + s) == multiset{x} + (multiset{s[0]} + multiset(s[1..]));
  }

  function Sort<T(!new)>(le: (T, T) -> bool, s: seq<T>): (r: seq<T>)
    requires TotalOrder(le)
    ensures IsSortOf(le, r, s)
    decreases |s|
  {
    if s == [] then []
    else
      assert s == [s[0]] + s[1..];
      var t := Sort(le, s[1..]);
      assert multiset([s[0]] + t) == multiset(s) by {
        assert multiset([s[0]] + t) == multiset{s[0]} + multiset(t);
      }
      Insert(le, s[0], t)
  }

  // Equal contents, sorted twice, give the same sequence.
  lemma {:induction false} SortUnique<T(!new)>(le: (T, T) -> bool, a: seq<T>, b: seq<T>)
    requires TotalOrder(le)
    requires SortedBy(le, a) && SortedBy(le, b) && multiset(a) == multiset(b)
    ensures a == b
    decreases |a|
  {
    hide TotalOrder, SortedBy;
    SameContents(a, b);
    if a == [] {
    } else {
      SameLeast(le, a, b);
      TailContents(a);
      TailContents(b);
      SortedTail(le, a);
      SortedTail(le, b);
      SortUnique(le, a[1..], b[1..]);
    }
  }

  lemma TailContents<T>(s: seq<T>)
    requires s != []
    ensures s == [s[0]] + s[1..] && multiset(s[1..]) == multiset(s) - multiset{s[0]}
  {
    assert s == [s[0]] + s[1..];
  }

  lemma SortedTail<T>(le: (T, T) -> bool, s: seq<T>)
    requires s != [] && SortedBy(le, s)
    ensures SortedBy(le, s[1..])
  {
  }

  lemma SameLeast<T(!new)>(le: (T, T) -> bool, a: seq<T>, b: seq<T>)
    requires TotalOrder(le) && SortedBy(le, a) && SortedBy(le, b)
    requires a != [] && b != [] && a[0] in b && b[0] in a
    ensures a[0] == b[0]
  {
    assert le(a[0], b[0]) && le(b[0], a[0]);
  }

  lemma SameContents<T>(a: seq<T>, b: seq<T>)
    requires multiset(a) == multiset(b)
    ensures |a| == |b| && forall x :: x in a <==> x in b
  {
    assert |a| == |multiset(a)| && |b| == |multiset(b)|;
    assert forall x :: x in a <==> x in multiset(a);
    assert forall x :: x in b <==> x in multiset(b);
  }

  // Go's order on strings: byte by byte, a proper prefix first.
  predicate StringLe(a: string, b: string)
    decreases |a|
  {
    a == "" || (b != "" && (a[0] < b[0] || (a[0] == b[0] && StringLe(a[1..], b[1..]))))
  }

  // a comes no later than b: they agree up to some place, where a ends or has the smaller byte.
  predicate Precedes(a: string, b: string) {
    exists k :: 0 <= k <= |a| && k <= |b| && a[..k] == b[..k] && (k == |a| || (k < |b| && a[k] < b[k]))
  }

  lemma {:induction false} StringLeMeaning(a: string, b: string)
    ensures StringLe(a, b) <==> Precedes(a, b)
    decreases |a|
  {
    if a == "" {
      assert a[..0] == b[..0];
    } else if b != "" {
      StringLeMeaning(a[1..], b[1..]);
      if a[0] < b[0] { assert a[..0] == b[..0]; }
      if a[0] == b[0] && StringLe(a[1..], b[1..]) {
        var k :| 0 <= k <= |a[1..]| && k <= |b[1..]| && a[1..][..k] == b[1..][..k]
                 && (k == |a[1..]| || (k < |b[1..]| && a[1..][k] < b[1..][k]));
        PrefixLonger(a, b, k);
      }
      if Precedes(a, b) {
        var k :| 0 <= k <= |a| && k <= |b| && a[..k] == b[..k] && (k == |a| || (k < |b| && a[k] < b[k]));
        if k > 0 { PrefixShorter(a, b, k); }
      }
    }
  }

  lemma PrefixLonger(a: string, b: string, k: nat)
    requires a != "" && b != "" && a[0] == b[0] && k < |a| && k < |b| && a[1..][..k] == b[1..][..k]
    ensures a[..k + 1] == b[..k + 1]
  {
    assert a[..k + 1] == [a[0]] + a[1..][..k] && b[..k + 1] == [b[0]] + b[1..][..k];
  }

  lemma PrefixShorter(a: string, b: string, k: nat)
    requires 0 < k <= |a| && k <= |b| && a[..k] == b[..k]
    ensures a[0] == b[0] && a[1..][..k - 1] == b[1..][..k - 1]
  {
    assert a[..k][0] == a[0] && b[..k][0] == b[0];
    assert a[1..][..k - 1] == a[..k][1..] && b[1..][..k - 1] == b[..k][1..];
  }

  lemma {:induction false} StringLeTotal(a: string, b: string)
    ensures StringLe(a, b) || StringLe(b, a)
    decreases |a|
  {
    if a != "" && b != "" {
      StringLeTotal(a[1..], b[1..]);
    }
  }

  lemma {:induction false} StringLeAntisymmetric(a: string, b: string)
    requires StringLe(a, b) && StringLe(b, a)
    ensures a == b
    decreases |a|
  {
    if a == "" {
    } else {
      StringLeAntisymmetric(a[1..], b[1..]);
      assert a == [a[0]] + a[1..] && b == [b[0]] + b[1..];
    }
  }

  lemma {:induction false} StringLeTransitive(a: string, b: string, c: string)
    requires StringLe(a, b) && StringLe(b, c)
    ensures StringLe(a, c)
    decreases |a|
  {
    if a != "" && a[0] == b[0] == c[0] {
      StringLeTransitive(a[1..], b[1..], c[1..]);
    }
  }

  lemma StringOrder()
    ensures TotalOrder(StringLe)
  {
    forall a, b ensures StringLe(a, b) || StringLe(b, a) { StringLeTotal(a, b); }
    forall a, b | StringLe(a, b) && StringLe(b, a) ensures a == b { StringLeAntisymmetric(a, b); }
    forall a, b, c | StringLe(a, b) && StringLe(b, c) ensures StringLe(a, c) { StringLeTransitive(a, b, c); }
  }

  predicate NoRepeats<T(==)>(s: seq<T>) {
    forall i, j :: 0 <= i < j < |s| ==> s[i] != s[j]
  }

  ghost predicate StrictlyIncreasing(s: seq<string>) {
    forall i, j :: 0 <= i < j < |s| ==> StringLe(s[i], s[j]) && s[i] != s[j]
  }

  // Repeats are a matter of contents alone, so sorting adds none.
  lemma NoRepeatsByContents<T>(a: seq<T>, b: seq<T>)
    requires multiset(a) == multiset(b) && NoRepeats(a)
    ensures NoRepeats(b)
  {
    forall i, j | 0 <= i < j < |b| ensures b[i] != b[j] {
      if b[i] == b[j] {
        TwiceCounted(b, i, j);
        OnceCounted(a, b[i]);
      }
    }
  }

  lemma TwiceCounted<T>(s: seq<T>, i: nat, j: nat)
    requires i < j < |s| && s[i] == s[j]
    ensures multiset(s)[s[i]] >= 2
  {
    assert s == s[..j] + [s[j]] + s[j + 1..];
    assert s[i] in s[..j];
  }

  lemma {:induction false} OnceCounted<T>(s: seq<T>, x: T)
    requires NoRepeats(s)
    ensures multiset(s)[x] <= 1
    decreases |s|
  {
    if s == [] {
    } else {
      assert s == [s[0]] + s[1..];
      assert NoRepeats(s[1..]);
      OnceCounted(s[1..], x);
      if x == s[0] {
        assert x !in s[1..];
      }
    }
  }

  // sort.Strings
  function SortStrings(s: seq<string>): (r: seq<string>)
    ensures IsSortOf(StringLe, r, s)
    ensures NoRepeats(s) ==> StrictlyIncreasing(r)
    ensures |r| == |s| && forall x :: x in r <==> x in s
  {
    StringOrder();
    var r := Sort(StringLe, s);
    assert NoRepeats(s) ==> StrictlyIncreasing(r) by {
      if NoRepeats(s) { NoRepeatsByContents(s, r); }
    }
    SameContents(r, s);
    r
  }
}

// The words of a text between white space (strings.Fields).
module Words {
  import opened CodePoints
  import opened NestedGit
  import opened Text

  // A nonempty text in which no white space begins.
  predicate IsBare(w: string) {
    w != "" && forall k :: 0 <= k < |w| ==> !StartsBlank(w[k..])
  }

  // The text is white space, the first word, and then nothing or white space and the rest.
  ghost predicate HoldsWords(s: string, words: seq<string>)
    decreases |words|
  {
    if words == [] then AllBlank(s)
    else
      exists i ::
        0 <= i && i + |words[0]| <= |s| && SplitsAt(s, words[0], i) && HoldsWords(s[i + |words[0]|..], words[1..])
  }

  predicate SplitsAt(s: string, w: string, i: nat)
    requires i + |w| <= |s|
  {
    && AllBlank(s[..i]) && IsBare(w) && s[i..i + |w|] == w
    && (i + |w| == |s| || StartsBlank(s[i + |w|..]))
  }

  lemma {:induction false} BareMeasured(w: string, rest: string)
    requires (forall k :: 0 <= k < |w| ==> !StartsBlank(w[k..])) && (rest == "" || StartsBlank(rest))
    ensures WordLen(w + rest) == |w|
    decreases |w|
  {
    hide StartsBlank, SpaceHead;
    SpaceExactly(rest);
    if w == "" {
      assert w + rest == rest;
    } else {
      assert w[0..] == w;
      SpaceExactly(w);
      SpaceHeadBefore(w, rest);
      assert (w + rest)[1..] == w[1..] + rest;
      forall k | 0 <= k < |w[1..]| ensures !StartsBlank(w[1..][k..]) {
        assert w[1..][k..] == w[k + 1..];
      }
      BareMeasured(w[1..], rest);
    }
  }

  lemma LaterSlice(t: string, n: nat, k: nat)
    requires 1 <= k <= n <= |t|
    ensures t[..n][k..] == t[1..][..n - 1][k - 1..] && t[1..][n - 1..] == t[n..]
  {
    assert t[..n][k..] == t[k..n];
    assert t[1..][..n - 1] == t[1..n];
    assert t[1..n][k - 1..] == t[k..n];
  }

  lemma WordStep(t: string)
    ensures WordLen(t) == if t == "" || SpaceHead(t) > 0 then 0 else 1 + WordLen(t[1..])
  {
  }

  lemma {:induction false} WordIsBare(t: string)
    ensures var n := WordLen(t);
            && (forall k :: 0 <= k < n ==> !StartsBlank(t[..n][k..]))
            && (n == |t| || StartsBlank(t[n..]))
    decreases |t|
  {
    hide StartsBlank, SpaceHead, WordLen;
    WordStep(t);
    SpaceExactly(t);
    var n := WordLen(t);
    if n == 0 {
      assert t[0..] == t;
    } else {
      WordIsBare(t[1..]);
      LaterSlice(t, n, 1);
      forall k | 0 <= k < n ensures !StartsBlank(t[..n][k..]) {
        if k == 0 {
          PrefixStartsPlain(t, n);
          SpaceExactly(t[..n]);
          assert t[..n][0..] == t[..n];
        } else {
          LaterSlice(t, n, k);
        }
      }
    }
  }

  lemma FieldsStep(s: string)
    ensures Fields(s) ==
            var t := TrimLeft(s);
            if t == "" then [] else [t[..WordLen(t)]] + Fields(t[WordLen(t)..])
    ensures TrimLeft(s) != "" ==> WordLen(TrimLeft(s)) > 0
  {
    hide SpaceHead;
    TrimLeftMeaning(s);
  }

  // A text has words exactly if it holds them, in order, between white space.
  lemma {:induction false} FieldsExactly(s: string, words: seq<string>)
    ensures Fields(s) == words <==> HoldsWords(s, words)
    decreases |s|
  {
    hide StartsBlank, SpaceHead, AllBlank, Fields, TrimLeft, WordLen, IsBare;
    FieldsStep(s);
    var t := TrimLeft(s);
    var blank := LeftBlank(s);
    if words == [] {
      BlankLeft(s, blank);
    } else {
      if t != "" && Fields(s) == words {
        var w, rest := t[..WordLen(t)], t[WordLen(t)..];
        BareWord(t);
        WordTaken(blank, w, rest);
        FieldsExactly(rest, words[1..]);
        assert s == blank + w + rest && words[0] == w;
        assert s[|blank| + |w|..] == rest;
      }
      if HoldsWords(s, words) {
        var i :| 0 <= i && i + |words[0]| <= |s| && SplitsAt(s, words[0], i)
                 && HoldsWords(s[i + |words[0]|..], words[1..]);
        SplitFound(s, words[0], i);
        FieldsExactly(s[i + |words[0]|..], words[1..]);
        assert words == [words[0]] + words[1..];
      }
    }
  }

  lemma BlankLeft(s: string, blank: string)
    requires s == blank + TrimLeft(s) && AllBlank(blank)
    ensures TrimLeft(s) == "" <==> AllBlank(s)
  {
    hide StartsBlank, SpaceHead, AllBlank, TrimLeft;
    if AllBlank(s) {
      TrimLeftBlank(s, "");
      TrimLeftStep("");
      EmptyIsPlain();
      assert s + "" == s;
    }
    if TrimLeft(s) == "" { assert s == blank; }
  }

  lemma BareWord(t: string)
    requires t != "" && WordLen(t) > 0
    ensures IsBare(t[..WordLen(t)]) && (WordLen(t) == |t| || StartsBlank(t[WordLen(t)..]))
  {
    hide StartsBlank, WordLen;
    WordIsBare(t);
  }

  lemma WordTaken(blank: string, w: string, rest: string)
    requires AllBlank(blank) && IsBare(w) && (rest == "" || StartsBlank(rest))
    ensures |blank| + |w| <= |blank + w + rest| && SplitsAt(blank + w + rest, w, |blank|)
  {
    hide StartsBlank, AllBlank, IsBare;
    var s := blank + w + rest;
    assert s[..|blank|] == blank && s[|blank|..|blank| + |w|] == w && s[|blank| + |w|..] == rest;
  }

  lemma SplitFound(s: string, w: string, i: nat)
    requires i + |w| <= |s| && SplitsAt(s, w, i)
    ensures Fields(s) == [w] + Fields(s[i + |w|..])
  {
    hide StartsBlank, SpaceHead, AllBlank, TrimLeft, Fields, WordLen;
    var rest := s[i + |w|..];
    assert s == s[..i] + (w + rest);
    TrimLeftBlank(s[..i], w + rest);
    assert w[0..] == w;
    SpaceExactly(w);
    SpaceExactly(rest);
    SpaceHeadBefore(w, rest);
    TrimLeftStep(w + rest);
    BareMeasured(w, rest);
    FieldsStep(s);
    assert (w + rest)[..|w|] == w && (w + rest)[|w|..] == rest;
  }
}

// Session placeholder substitution in request headers
// (integrations/opagent/integration.go).
module Headers {
  import opened Text

  const PLACEHOLDER := "{openbrain_session}"

  // strings.ReplaceAll for a nonempty pattern: leftmost matches, left to right.
  function ReplaceAll(s: string, pattern: string, with: string): string
    requires pattern != ""
    decreases |s|
  {
    if s == "" then ""
    else if HasPrefix(s, pattern) then with + ReplaceAll(s[|pattern|..], pattern, with)
    else [s[0]] + ReplaceAll(s[1..], pattern, with)
  }

  // The stretches of s between the matches of the pattern.
  function Pieces(s: string, pattern: string): (pieces: seq<string>)
    requires pattern != ""
    ensures pieces != []
    decreases |s|
  {
    if s == "" then [""]
    else if HasPrefix(s, pattern) then [""] + Pieces(s[|pattern|..], pattern)
    else
      var rest := Pieces(s[1..], pattern);
      [[s[0]] + rest[0]] + rest[1..]
  }

  // The value is its pieces with the pattern between them, and replacing puts the new text
  // in exactly those places.
  lemma {:induction false} ReplaceAllPieces(s: string, pattern: string, with: string)
    requires pattern != ""
    ensures Join(Pieces(s, pattern), pattern) == s
    ensures ReplaceAll(s, pattern, with) == Join(Pieces(s, pattern), with)
    decreases |s|
  {
    hide Join;
    if s == "" {
      JoinOne("", pattern);
      JoinOne("", with);
    } else if HasPrefix(s, pattern) {
      var rest := s[|pattern|..];
      ReplaceAllPieces(rest, pattern, with);
      JoinConsEmpty(Pieces(rest, pattern), pattern);
      JoinConsEmpty(Pieces(rest, pattern), with);
      assert s == pattern + rest;
    } else {
      ReplaceAllPieces(s[1..], pattern, with);
      JoinConsChar(s[0], Pieces(s[1..], pattern), pattern);
      JoinConsChar(s[0], Pieces(s[1..], pattern), with);
      assert s == [s[0]] + s[1..];
    }
  }

  // What matters about the placeholder: it opens with its only "{" and closes with its only "}".
  ghost predicate Braced(p: string) {
    && |p| >= 3 && p[0] == '{' && p[|p| - 1] == '}'
    && (forall k :: 1 <= k < |p| ==> p[k] != '{')
    && (forall k :: 0 <= k < |p| - 1 ==> p[k] != '}')
  }

  lemma PlaceholderBraced()
    ensures Braced(PLACEHOLDER)
    ensures Inner(PLACEHOLDER) == "openbrain_session"
  {
  }

  // The placeholder cannot overlap itself, so no piece still holds one.
  lemma {:induction false} PiecesFree(s: string, p: string)
    requires p != ""
    ensures forall x :: x in Pieces(s, p) ==> !Contains(x, p)
    ensures Pieces(s, p)[0] <= s
    decreases |s|
  {
    if s == "" {
      assert !Contains("", p);
    } else if HasPrefix(s, p) {
      PiecesFree(s[|p|..], p);
      assert !Contains("", p);
    } else {
      PiecesFree(s[1..], p);
      var rest := Pieces(s[1..], p);
      assert rest[0] in rest && forall x :: x in rest[1..] ==> x in rest;
      FirstPieceFree(s, rest[0], p);
    }
  }

  lemma FirstPieceFree(s: string, x: string, p: string)
    requires s != "" && p != "" && !HasPrefix(s, p) && x <= s[1..] && !Contains(x, p)
    ensures [s[0]] + x <= s && !Contains([s[0]] + x, p)
  {
    var first := [s[0]] + x;
    assert s == [s[0]] + s[1..];
    assert first[1..|first|] == x;
    forall i | 0 <= i <= |first| ensures !MatchAt(first, p, i) {
      if MatchAt(first, p, i) {
        if i >= 1 {
          MatchWithin(first, p, i, 1, |first|);
        } else {
          MatchOfPrefix(first, s, p);
        }
      }
    }
  }

  lemma MatchOfPrefix(x: string, s: string, p: string)
    requires x <= s && MatchAt(x, p, 0)
    ensures HasPrefix(s, p)
  {
    assert x[0..|p|] == s[..|p|];
  }

  function Inner(p: string): string
    requires |p| >= 2
  {
    p[1..|p| - 1]
  }

  // A token that cannot take part in building p out of what surrounds it.
  predicate Inert(token: string, p: string)
    requires |p| >= 2
  {
    && !Contains(token, p)
    && !Contains(Inner(p), token)
    && forall m :: 1 <= m < |p| ==> !HasSuffix(token, p[..m]) && !HasPrefix(token, p[m..])
  }

  // Joining placeholder-free pieces with an inert token makes no placeholder.
  lemma {:induction false} InertJoin(pieces: seq<string>, token: string, p: string)
    requires pieces != [] && |p| >= 2 && Inert(token, p)
    requires forall x :: x in pieces ==> !Contains(x, p)
    ensures !Contains(Join(pieces, token), p)
    decreases |pieces|
  {
    assert pieces[0] in pieces;
    if |pieces| <= 1 {
    } else {
      InertJoin(pieces[1..], token, p);
      InertSeam(pieces[0], token, Join(pieces[1..], token), p);
    }
  }

  lemma InertSeam(front: string, token: string, rest: string, p: string)
    requires |p| >= 2 && Inert(token, p) && !Contains(front, p) && !Contains(rest, p)
    ensures !Contains(front + token + rest, p)
  {
    var s := front + token + rest;
    var f, t := |front|, |front| + |token|;
    assert s[0..f] == front && s[f..t] == token && s[t..|s|] == rest;
    forall i | 0 <= i <= |s| ensures !MatchAt(s, p, i) {
      if MatchAt(s, p, i) {
        SeamCases(s, f, t, p, i);
      }
    }
  }

  // A match that only begins in the token, only ends in it, or covers it.
  lemma SeamBegins(s: string, f: nat, t: nat, p: string, i: nat)
    requires |p| >= 2 && f <= i < t < i + |p| && t <= |s| && MatchAt(s, p, i)
    ensures !Inert(s[f..t], p)
  {
    var m, token := t - i, s[f..t];
    SubMatch(s, p, i, 0, m);
    assert token[|token| - m..] == p[..m];
    assert HasSuffix(token, p[..m]);
  }

  lemma SeamEnds(s: string, f: nat, t: nat, p: string, i: nat)
    requires |p| >= 2 && i < f < i + |p| <= t <= |s| && MatchAt(s, p, i)
    ensures !Inert(s[f..t], p)
  {
    var m, token := f - i, s[f..t];
    SubMatch(s, p, i, m, |p|);
    assert token[..|p| - m] == p[m..];
    assert HasPrefix(token, p[m..]);
  }

  lemma SeamCovers(s: string, f: nat, t: nat, p: string, i: nat)
    requires |p| >= 2 && i < f <= t < i + |p| && t <= |s| && MatchAt(s, p, i)
    ensures !Inert(s[f..t], p)
  {
    var m, token := f - i, s[f..t];
    SubMatch(s, p, i, m, t - i);
    SliceOfSlice(p, 1, |p| - 1, m - 1, m - 1 + |token|);
    assert MatchAt(Inner(p), token, m - 1);
  }

  // Where a match of p in front + token + rest can lie.
  lemma SeamCases(s: string, f: nat, t: nat, p: string, i: nat)
    requires |p| >= 2 && f <= t <= |s| && MatchAt(s, p, i)
    ensures Contains(s[0..f], p) || Contains(s[t..|s|], p) || !Inert(s[f..t], p)
  {
    hide Contains, Inert;
    var n := |p|;
    InRange(s, p, i);
    if i + n <= f {
      MatchWithin(s, p, i, 0, f);
    } else if i >= t {
      MatchWithin(s, p, i, t, |s|);
    } else if f <= i && i + n <= t {
      MatchWithin(s, p, i, f, t);
      HoldsNotInert(s[f..t], p);
    } else if f <= i {
      SeamBegins(s, f, t, p, i);
    } else if i + n <= t {
      SeamEnds(s, f, t, p, i);
    } else {
      SeamCovers(s, f, t, p, i);
    }
  }

  lemma InRange(s: string, p: string, i: int)
    requires MatchAt(s, p, i)
    ensures 0 <= i && i + |p| <= |s|
  {
  }

  lemma HoldsNotInert(token: string, p: string)
    requires |p| >= 2 && Contains(token, p)
    ensures !Inert(token, p)
  {
    hide Contains;
  }

  // Replacing is safe for every value if the token is inert.
  lemma InertReplaces(value: string, token: string, p: string)
    requires |p| >= 2 && Inert(token, p)
    ensures !Contains(ReplaceAll(value, p, token), p)
  {
    ReplaceAllPieces(value, p, token);
    PiecesFree(value, p);
    InertJoin(Pieces(value, p), token, p);
  }

  lemma MatchLater(s: string, p: string, i: nat)
    requires s != ""
    ensures MatchAt(s[1..], p, i) <==> MatchAt(s, p, i + 1)
  {
    assert i + 1 + |p| <= |s| ==> s[i + 1..i + 1 + |p|] == s[1..][i..i + |p|];
  }

  lemma {:induction false} ReplaceAllSkips(front: string, rest: string, p: string, with: string)
    requires p != "" && forall i :: 0 <= i < |front| ==> !MatchAt(front + rest, p, i)
    ensures ReplaceAll(front + rest, p, with) == front + ReplaceAll(rest, p, with)
    decreases |front|
  {
    var s := front + rest;
    if front == "" {
      assert s == rest;
    } else {
      assert s[1..] == front[1..] + rest;
      assert HasPrefix(s, p) ==> s[0..0 + |p|] == p && MatchAt(s, p, 0);
      forall i | 0 <= i < |front| - 1 ensures !MatchAt(s[1..], p, i) {
        MatchLater(s, p, i);
      }
      ReplaceAllSkips(front[1..], rest, p, with);
      assert front == [front[0]] + front[1..];
    }
  }

  // No match starts where a brace could only stand inside the pattern.
  lemma NoEarlyMatch(front: string, rest: string, p: string, i: nat)
    requires Braced(p) && |front| < |p| && i < |front|
    requires forall k :: 1 <= k < |front| ==> front[k] != '{'
    ensures !MatchAt(front + (p + rest), p, i)
  {
    var s := front + (p + rest);
    assert s[|front|] == p[0] == '{';
    assert forall k :: 0 <= k < |front| ==> s[k] == front[k];
    if i == 0 {
      assert |p| <= |s| ==> s[0..|p|][|front|] == '{' != p[|front|];
    } else {
      assert i + |p| <= |s| ==> s[i..i + |p|][0] == front[i] != p[0];
    }
  }

  lemma NoMatchWithoutBrace(rest: string, p: string, with: string)
    requires Braced(p) && '{' !in rest
    ensures ReplaceAll(rest, p, with) == rest
  {
    hide ReplaceAll;
    forall i | 0 <= i < |rest| ensures !MatchAt(rest + "", p, i) {
      assert rest[i] in rest && rest + "" == rest;
      assert i + |p| <= |rest| ==> rest[i..i + |p|][0] == rest[i] != p[0];
    }
    ReplaceAllSkips(rest, "", p, with);
    assert rest + "" == rest;
    NothingReplaced(p, with);
  }

  lemma NothingReplaced(p: string, with: string)
    requires p != ""
    ensures ReplaceAll("", p, with) == ""
  {
  }

  lemma FirstReplaced(p: string, rest: string, with: string)
    requires p != ""
    ensures ReplaceAll(p + rest, p, with) == with + ReplaceAll(rest, p, with)
  {
    var tail := p + rest;
    assert tail[|p|..] == rest && tail[..|p|] == p;
  }

  // In front + p + rest, with at most the start of p in front of p and no "{" behind it,
  // exactly that p is replaced.
  lemma ReplaceOne(front: string, rest: string, p: string, with: string)
    requires Braced(p) && |front| < |p|
    requires forall k :: 1 <= k < |front| ==> front[k] != '{'
    requires '{' !in rest
    ensures ReplaceAll(front + p + rest, p, with) == front + with + rest
  {
    hide ReplaceAll, MatchAt;
    forall i | 0 <= i < |front| ensures !MatchAt(front + (p + rest), p, i) {
      NoEarlyMatch(front, rest, p, i);
    }
    ReplaceAllSkips(front, p + rest, p, with);
    FirstReplaced(p, rest, with);
    NoMatchWithoutBrace(rest, p, with);
    assert front + p + rest == front + (p + rest);
    assert front + (with + rest) == front + with + rest;
  }

  // A token inside the name of the placeholder, cut out of it.
  lemma InnerCut(token: string, p: string) returns (k: nat)
    requires Braced(p) && Contains(Inner(p), token)
    ensures k + 1 + |token| < |p| && p[..k + 1] + token + p[k + 1 + |token|..] == p
  {
    hide Contains;
    k := FindMatch(Inner(p), token);
    SliceOfSlice(p, 1, |p| - 1, k, k + |token|);
    assert p == p[..k + 1] + p[k + 1..k + 1 + |token|] + p[k + 1 + |token|..];
  }

  lemma InnerRebuilds(token: string, p: string) returns (value: string)
    requires Braced(p) && Contains(Inner(p), token)
    ensures Contains(ReplaceAll(value, p, token), p)
  {
    hide ReplaceAll, Contains;
    var k := InnerCut(token, p);
    var front, rest := p[..k + 1], p[k + 1 + |token|..];
    value := front + p + rest;
    ReplaceOne(front, rest, p, token);
    ContainsItself(p);
  }

  // If the token is not inert, some value comes out with a placeholder in it.
  lemma NotInertRebuilds(token: string, p: string) returns (value: string)
    requires Braced(p) && !Inert(token, p)
    ensures Contains(ReplaceAll(value, p, token), p)
  {
    if Contains(token, p) {
      value := "" + p + "";
      ReplaceOne("", "", p, token);
      assert "" + token + "" == token;
    } else if Contains(Inner(p), token) {
      value := InnerRebuilds(token, p);
    } else {
      value := EndRebuilds(token, p);
    }
  }

  lemma SuffixRebuilds(token: string, p: string, m: nat) returns (value: string)
    requires Braced(p) && 1 <= m < |p| && HasSuffix(token, p[..m])
    ensures Contains(ReplaceAll(value, p, token), p)
  {
    hide ReplaceAll, Contains, MatchAt;
    value := "" + p + p[m..];
    ReplaceOne("", p[m..], p, token);
    var r := "" + token + p[m..];
    assert r[|token| - m..|token|] == token[|token| - m..] && r[|token|..] == p[m..];
    MatchAcross(r, p, m, |token| - m);
  }

  lemma PrefixRebuilds(token: string, p: string, m: nat) returns (value: string)
    requires Braced(p) && 1 <= m < |p| && HasPrefix(token, p[m..])
    ensures Contains(ReplaceAll(value, p, token), p)
  {
    hide ReplaceAll, Contains, MatchAt;
    value := p[..m] + p + "";
    ReplaceOne(p[..m], "", p, token);
    var r := p[..m] + token;
    assert p[..m] + token + "" == r && r[m..] == token;
    assert r[m..|p|] == r[m..][..|p| - m];
    MatchAcross(r, p, m, 0);
  }

  lemma EndRebuilds(token: string, p: string) returns (value: string)
    requires Braced(p)
    requires exists m :: 1 <= m < |p| && (HasSuffix(token, p[..m]) || HasPrefix(token, p[m..]))
    ensures Contains(ReplaceAll(value, p, token), p)
  {
    hide ReplaceAll, Contains, HasSuffix, HasPrefix;
    var m :| 1 <= m < |p| && (HasSuffix(token, p[..m]) || HasPrefix(token, p[m..]));
    if HasSuffix(token, p[..m]) {
      value := SuffixRebuilds(token, p, m);
    } else {
      value := PrefixRebuilds(token, p, m);
    }
  }

  lemma MatchAcross(s: string, p: string, m: nat, i: nat)
    requires m <= |p| && i + |p| <= |s|
    requires s[i..i + m] == p[..m] && s[i + m..i + |p|] == p[m..]
    ensures Contains(s, p)
  {
    assert s[i..i + |p|] == s[i..i + m] + s[i + m..i + |p|];
    assert p == p[..m] + p[m..];
    assert MatchAt(s, p, i);
  }

  // Exactly the inert tokens never leave a placeholder behind.
  lemma InertExactly(token: string)
    ensures Inert(token, PLACEHOLDER) <==> forall value :: !Contains(ReplaceAll(value, PLACEHOLDER, token), PLACEHOLDER)
  {
    hide ReplaceAll, Contains, Inert;
    var p := PLACEHOLDER;
    PlaceholderBraced();
    if Inert(token, p) {
      forall value ensures !Contains(ReplaceAll(value, p, token), p) {
        InertReplaces(value, token, p);
      }
    } else {
      var value := NotInertRebuilds(token, p);
      assert Contains(ReplaceAll(value, p, token), p);
    }
  }

  // A token without braces is inert exactly when it is no part of the placeholder's name.
  lemma BraceFreeInert(token: string)
    requires '{' !in token && '}' !in token
    ensures Inert(token, PLACEHOLDER) <==> !Contains("openbrain_session", token)
  {
    PlaceholderBraced();
    BraceFreeEnds(token, PLACEHOLDER);
  }

  lemma BraceFreeEnds(token: string, p: string)
    requires Braced(p) && '{' !in token && '}' !in token
    ensures !Contains(token, p)
    ensures forall m :: 1 <= m < |p| ==> !HasSuffix(token, p[..m]) && !HasPrefix(token, p[m..])
  {
    forall i | 0 <= i <= |token| ensures !MatchAt(token, p, i) {
      if MatchAt(token, p, i) {
        SubMatch(token, p, i, 0, 1);
      }
    }
    forall m | 1 <= m < |p| ensures !HasSuffix(token, p[..m]) && !HasPrefix(token, p[m..]) {
      if HasSuffix(token, p[..m]) {
        SubMatch(token, p[..m], |token| - m, 0, 1);
      }
      assert p[m..][|p| - 1 - m] == '}';
    }
  }

  // ---------- sessionHeaderResolver ----------

  datatype TokenAnswer = Token(session: string) | TokenFailed

  // The configured token function, by its answer to each successive call; absent when none
  // is configured.
  datatype TokenSource = NoSource | Source(answer: nat -> TokenAnswer)

  datatype Resolution = Resolved(headers: map<string, string>) | Failed

  predicate Usable(answer: TokenAnswer) {
    answer.Token? && TrimSpace(answer.session) != ""
  }

  function NeedsToken(headers: map<string, string>): set<string> {
    set name | name in headers && Contains(headers[name], PLACEHOLDER)
  }

  function Answer(source: TokenSource, k: nat): TokenAnswer {
    if source.Source? then source.answer(k) else TokenFailed
  }

  // The first n calls all give a usable token.
  predicate Serves(source: TokenSource, n: nat) {
    forall k :: 0 <= k < n ==> Usable(Answer(source, k))
  }

  // resolved is what value becomes with the token of one of the first n calls.
  ghost predicate ResolvedValue(source: TokenSource, n: nat, value: string, resolved: string) {
    if Contains(value, PLACEHOLDER) then exists k :: 0 <= k < n && ResolvedBy(source, k, value, resolved)
    else resolved == value
  }

  ghost predicate ResolvedBy(source: TokenSource, k: nat, value: string, resolved: string) {
    && Usable(Answer(source, k))
    && resolved == ReplaceAll(value, PLACEHOLDER, TrimSpace(Answer(source, k).session))
  }

  lemma ResolvedAs(source: TokenSource, k: nat, n: nat, value: string, text: string)
    requires if Contains(value, PLACEHOLDER) then k < n && ResolvedBy(source, k, value, text) else text == value
    ensures ResolvedValue(source, n, value, text)
  {
  }

  lemma NeedsTokenMeaning(headers: map<string, string>)
    ensures NeedsToken(headers) <= headers.Keys
    ensures forall name :: name in headers ==> (name in NeedsToken(headers) <==> Contains(headers[name], PLACEHOLDER))
  {
  }

  datatype Substitution = Replaced(text: string) | NoToken

  // The loop body for a value that holds the placeholder: one call of the token function.
  method Substitute(source: TokenSource, call: nat, value: string) returns (r: Substitution)
    ensures r.Replaced? <==> Usable(Answer(source, call))
    ensures r.Replaced? ==> ResolvedBy(source, call, value, r.text)
  {
    hide TrimSpace, ReplaceAll;
    if source.NoSource? {
      return NoToken;
    }
    var answer := Answer(source, call);
    if answer.TokenFailed? {
      return NoToken;
    }
    var session := TrimSpace(answer.session);
    if session == "" {
      return NoToken;
    }
    r := Replaced(ReplaceAll(value, PLACEHOLDER, session));
  }

  // Inert tokens leave no resolved header with a placeholder in it.
  lemma ResolvedFree(source: TokenSource, n: nat, value: string, resolved: string)
    requires ResolvedValue(source, n, value, resolved)
    requires forall k :: 0 <= k < n && Usable(Answer(source, k)) ==>
             Inert(TrimSpace(Answer(source, k).session), PLACEHOLDER)
    ensures !Contains(resolved, PLACEHOLDER)
  {
    hide TrimSpace, ReplaceAll, Contains, Inert;
    if Contains(value, PLACEHOLDER) {
      var k :| 0 <= k < n && ResolvedBy(source, k, value, resolved);
      InertReplaces(value, TrimSpace(Answer(source, k).session), PLACEHOLDER);
    }
  }

  // The map's iteration order is left open. The resolver succeeds exactly when one call of
  // the token function for each header that needs it succeeds; otherwise there is no map.
  method ResolveHeaders(source: TokenSource, headers: map<string, string>) returns (r: Resolution)
    ensures r.Resolved? <==> Serves(source, |NeedsToken(headers)|)
    ensures r.Resolved? ==> r.headers.Keys == headers.Keys
    ensures r.Resolved? ==> forall name :: name in headers ==>
              ResolvedValue(source, |NeedsToken(headers)|, headers[name], r.headers[name])
  {
    hide Contains, NeedsToken, ResolvedValue, Serves, Usable, Answer;
    NeedsTokenMeaning(headers);
    var resolved: map<string, string> := map[];
    var todo := headers.Keys;
    var calls: nat := 0;
    ghost var left := NeedsToken(headers);
    ghost var need := |left|;
    ServesStep(source, 0, need);
    while todo != {}
      invariant forall name :: name in todo ==> name in headers
      invariant forall name :: name in resolved <==> name in headers && name !in todo
      invariant forall name :: name in left <==> name in todo && name in NeedsToken(headers)
      invariant calls + |left| == need
      invariant Serves(source, calls)
      invariant forall name :: name in resolved ==> ResolvedValue(source, need, headers[name], resolved[name])
      decreases todo
    {
      var name :| name in todo;
      todo := todo - {name};
      if Contains(headers[name], PLACEHOLDER) {
        assert name in left;
        left := left - {name};
        assert calls < need;
        ServesStep(source, calls, need);
        var substitution := Substitute(source, calls, headers[name]);
        if substitution.NoToken? {
          return Failed;
        }
        ResolvedAs(source, calls, need, headers[name], substitution.text);
        resolved := resolved[name := substitution.text];
        calls := calls + 1;
      } else {
        ResolvedAs(source, calls, need, headers[name], headers[name]);
        resolved := resolved[name := headers[name]];
      }
    }
    assert left == {};
    r := Resolved(resolved);
  }

  // Serving one call more, or failing at it for good.
  lemma ServesStep(source: TokenSource, k: nat, n: nat)
    ensures Serves(source, 0)
    ensures Serves(source, k) && Usable(Answer(source, k)) ==> Serves(source, k + 1)
    ensures k < n && !Usable(Answer(source, k)) ==> !Serves(source, n)
  {
  }
}

// Number literals (section 6 of RFC 8259) and the decimal digits that Go writes.
module JsonNumber {

  predicate IsDigit(c: char) {
    '0' <= c <= '9'
  }

  // How many digits s begins with.
  function Digits(s: string): (n: nat)
    ensures n <= |s|
    decreases |s|
  {
    if s == "" || !IsDigit(s[0]) then 0 else 1 + Digits(s[1..])
  }

  // Each part of a number: its length, 0 if it is absent; -1 if it is broken.
  function IntegerLen(s: string): int {
    if s != "" && s[0] == '0' then 1
    else if Digits(s) > 0 then Digits(s)
    else -1
  }

  function FractionLen(s: string): int {
    if s == "" || s[0] != '.' then 0
    else if Digits(s[1..]) > 0 then 1 + Digits(s[1..])
    else -1
  }

  function ExponentLen(s: string): int {
    if s == "" || (s[0] != 'e' && s[0] != 'E') then 0
    else
      var sign := if |s| >= 2 && (s[1] == '+' || s[1] == '-') then 1 else 0;
      if Digits(s[1 + sign..]) > 0 then 1 + sign + Digits(s[1 + sign..]) else -1
  }

  // Length of the number that s begins with; 0 if there is none or it is broken.
  function NumberLen(s: string): (n: nat)
    ensures n <= |s|
  {
    var sign := if s != "" && s[0] == '-' then 1 else 0;
    var i := IntegerLen(s[sign..]);
    if i < 0 then 0
    else
      var f := FractionLen(s[sign + i..]);
      if f < 0 then 0
      else
        var e := ExponentLen(s[sign + i + f..]);
        if e < 0 then 0 else sign + i + f + e
  }

  predicate IsNumber(x: string) {
    x != "" && NumberLen(x) == |x|
  }

  // What may follow a value inside a document.
  predicate Ends(tail: string) {
    tail == "" || tail[0] in ",]} \t\n\r"
  }

  lemma {:induction false} DigitsExtend(x: string, tail: string)
    requires Ends(tail)
    ensures Digits(x + tail) == Digits(x)
    decreases |x|
  {
    if x == "" {
      assert x + tail == tail;
    } else {
      assert (x + tail)[1..] == x[1..] + tail;
      DigitsExtend(x[1..], tail);
    }
  }

  lemma IntegerExtends(x: string, tail: string)
    requires Ends(tail)
    ensures IntegerLen(x + tail) == IntegerLen(x)
  {
    hide Digits;
    DigitsExtend(x, tail);
    if x == "" {
      assert x + tail == tail;
      NoDigits(tail);
    }
  }

  lemma NoDigits(tail: string)
    requires Ends(tail)
    ensures Digits(tail) == 0 && Digits("") == 0
  {
  }

  lemma FractionExtends(x: string, tail: string)
    requires Ends(tail)
    ensures FractionLen(x + tail) == FractionLen(x)
  {
    hide Digits;
    if x == "" {
      assert x + tail == tail;
    } else {
      DigitsExtend(x[1..], tail);
      assert (x + tail)[1..] == x[1..] + tail;
    }
  }

  lemma ExponentExtends(x: string, tail: string)
    requires Ends(tail)
    ensures ExponentLen(x + tail) == ExponentLen(x)
  {
    hide Digits;
    if x == "" {
      assert x + tail == tail;
    } else {
      var sign := if |x| >= 2 && (x[1] == '+' || x[1] == '-') then 1 else 0;
      DigitsExtend(x[1 + sign..], tail);
      assert (x + tail)[1 + sign..] == x[1 + sign..] + tail;
    }
  }

  lemma PartsExtend(x: string, tail: string)
    requires Ends(tail)
    ensures IntegerLen(x + tail) == IntegerLen(x)
    ensures FractionLen(x + tail) == FractionLen(x)
    ensures ExponentLen(x + tail) == ExponentLen(x)
  {
    hide IntegerLen, FractionLen, ExponentLen;
    IntegerExtends(x, tail);
    FractionExtends(x, tail);
    ExponentExtends(x, tail);
  }

  // A number ends where a delimiter begins.
  lemma NumberExtends(x: string, tail: string)
    requires IsNumber(x) && Ends(tail)
    ensures NumberLen(x + tail) == |x|
  {
    hide IntegerLen, FractionLen, ExponentLen;
    var sign := if x[0] == '-' then 1 else 0;
    PartsExtend(x[sign..], tail);
    assert (x + tail)[sign..] == x[sign..] + tail;
    var i := IntegerLen(x[sign..]);
    PartsExtend(x[sign + i..], tail);
    assert (x + tail)[sign + i..] == x[sign + i..] + tail;
    var f := FractionLen(x[sign + i..]);
    PartsExtend(x[sign + i + f..], tail);
    assert (x + tail)[sign + i + f..] == x[sign + i + f..] + tail;
  }

  // The first character shows that a number is no other kind of value.
  lemma NumberStarts(x: string)
    requires IsNumber(x)
    ensures x[0] == '-' || IsDigit(x[0])
  {
  }

  // ---------- integers ----------

  function Digit(n: nat): char
    requires n < 10
  {
    ('0' as int + n) as char
  }

  // strconv.AppendUint, base 10
  function Decimal(n: nat): string {
    if n < 10 then [Digit(n)] else Decimal(n / 10) + [Digit(n % 10)]
  }

  predicate AllDigits(s: string) {
    forall i :: 0 <= i < |s| ==> IsDigit(s[i])
  }

  function Undecimal(s: string): nat
    requires AllDigits(s)
    decreases |s|
  {
    if s == "" then 0
    else 10 * Undecimal(s[..|s| - 1]) + (s[|s| - 1] as int - '0' as int)
  }

  lemma {:induction false} DecimalReads(n: nat)
    ensures Decimal(n) != "" && AllDigits(Decimal(n)) && Undecimal(Decimal(n)) == n
    ensures n > 0 ==> Decimal(n)[0] != '0'
    decreases n
  {
    if n < 10 {
      assert Decimal(n)[..0] == "";
    } else {
      DecimalReads(n / 10);
      assert Decimal(n)[..|Decimal(n)| - 1] == Decimal(n / 10);
    }
  }

  lemma {:induction false} AllDigitsCount(s: string)
    requires AllDigits(s)
    ensures Digits(s) == |s|
    decreases |s|
  {
    if s == "" {
    } else {
      AllDigitsCount(s[1..]);
    }
  }

  lemma DecimalIsNumber(n: nat)
    ensures IsNumber(Decimal(n))
  {
    DecimalReads(n);
    var x := Decimal(n);
    AllDigitsCount(x);
    assert x[0..] == x;
    assert n == 0 ==> x == "0";
    assert IntegerLen(x) == |x|;
    assert x[|x|..] == "";
  }

  function Pow10(k: nat): (p: nat)
    ensures p >= 1
  {
    if k == 0 then 1 else 10 * Pow10(k - 1)
  }

  lemma {:induction false} DecimalLength(n: nat, k: nat)
    requires n < Pow10(k) && k >= 1
    ensures |Decimal(n)| <= k
    decreases k
  {
    if n >= 10 {
      assert Pow10(k) == 10 * Pow10(k - 1);
      DecimalLength(n / 10, k - 1);
    }
  }

  // ---------- which texts are numbers ----------

  lemma {:induction false} DigitsAreDigits(s: string)
    ensures AllDigits(s[..Digits(s)])
    decreases |s|
  {
    if s != "" && IsDigit(s[0]) {
      DigitsAreDigits(s[1..]);
      assert s[..Digits(s)][1..] == s[1..][..Digits(s[1..])];
      assert forall i :: 1 <= i < Digits(s) ==> s[..Digits(s)][i] == s[1..][..Digits(s[1..])][i - 1];
    }
  }

  // The parts of a number as the grammar has them.
  predicate IsWhole(w: string) {
    w != "" && AllDigits(w) && (|w| > 1 ==> w[0] != '0')
  }

  predicate IsFraction(f: string) {
    f == "" || (|f| >= 2 && f[0] == '.' && AllDigits(f[1..]))
  }

  predicate IsExponent(e: string) {
    || e == ""
    || (|e| >= 2 && e[0] in "eE" && AllDigits(e[1..]))
    || (|e| >= 3 && e[0] in "eE" && e[1] in "+-" && AllDigits(e[2..]))
  }

  predicate HasParts(x: string, sign: string, w: string, f: string, e: string) {
    x == sign + (w + (f + e)) && (sign == "" || sign == "-") && IsWhole(w) && IsFraction(f) && IsExponent(e)
  }

  lemma {:induction false} DigitsStop(w: string, rest: string)
    requires AllDigits(w) && (rest == "" || !IsDigit(rest[0]))
    ensures Digits(w + rest) == |w|
    decreases |w|
  {
    if w == "" {
      assert w + rest == rest;
    } else {
      assert (w + rest)[1..] == w[1..] + rest;
      DigitsStop(w[1..], rest);
    }
  }

  lemma ExponentMeasured(e: string)
    requires IsExponent(e)
    ensures ExponentLen(e) == |e|
  {
    if e != "" {
      var sign := if |e| >= 2 && (e[1] == '+' || e[1] == '-') then 1 else 0;
      var w := e[1 + sign..];
      assert sign == 1 ==> w == e[2..];
      assert sign == 1 ==> !IsDigit(e[1..][0]);
      DigitsStop(w, "");
      assert w + "" == w;
    }
  }

  lemma FractionMeasured(f: string, e: string)
    requires IsFraction(f) && IsExponent(e)
    ensures FractionLen(f + e) == |f| && (f + e == "" || !IsDigit((f + e)[0]))
  {
    if f != "" {
      DigitsStop(f[1..], e);
      assert (f + e)[1..] == f[1..] + e;
    } else {
      assert f + e == e;
    }
  }

  lemma WholeMeasured(w: string, rest: string)
    requires IsWhole(w) && (rest == "" || !IsDigit(rest[0]))
    ensures IntegerLen(w + rest) == |w|
  {
    DigitsStop(w, rest);
  }

  lemma PartsApart(x: string, sign: string, w: string, f: string, e: string)
    requires x == sign + (w + (f + e))
    ensures x[|sign|..] == w + (f + e) && x[|sign| + |w|..] == f + e && x[|sign| + |w| + |f|..] == e
  {
  }

  lemma SignMeasured(x: string, sign: string, w: string, rest: string)
    requires x == sign + (w + rest) && (sign == "" || sign == "-") && IsWhole(w)
    ensures x != "" && |sign| == if x[0] == '-' then 1 else 0
  {
    assert x[0] == if sign == "" then w[0] else '-';
  }

  lemma PartsAreNumber(x: string, sign: string, w: string, f: string, e: string)
    requires HasParts(x, sign, w, f, e)
    ensures IsNumber(x)
  {
    hide IntegerLen, FractionLen, ExponentLen, IsExponent, IsFraction, IsWhole, Digits;
    FractionMeasured(f, e);
    WholeMeasured(w, f + e);
    ExponentMeasured(e);
    SignMeasured(x, sign, w, f + e);
    PartsApart(x, sign, w, f, e);
  }

  lemma WholeTaken(s: string)
    requires IntegerLen(s) >= 0
    ensures 0 < IntegerLen(s) <= |s| && IsWhole(s[..IntegerLen(s)])
  {
    hide Digits;
    DigitsAreDigits(s);
    if s != "" && s[0] != '0' && Digits(s) > 0 { assert s[..Digits(s)][0] == s[0]; }
  }

  lemma FractionTakenAs(s: string)
    requires FractionLen(s) >= 0
    ensures FractionLen(s) <= |s| && IsFraction(s[..FractionLen(s)])
  {
    hide Digits;
    if FractionLen(s) > 0 {
      DigitsAreDigits(s[1..]);
      assert s[..FractionLen(s)][1..] == s[1..][..Digits(s[1..])];
    }
  }

  lemma ExponentTakenAs(s: string)
    requires ExponentLen(s) >= 0
    ensures ExponentLen(s) <= |s| && IsExponent(s[..ExponentLen(s)])
  {
    hide Digits;
    if ExponentLen(s) > 0 {
      var sign := if |s| >= 2 && (s[1] == '+' || s[1] == '-') then 1 else 0;
      var t := s[1 + sign..];
      DigitsAreDigits(t);
      assert s[..ExponentLen(s)][1 + sign..] == t[..Digits(t)];
    }
  }

  lemma NumberCuts(x: string) returns (n: nat, i: nat, k: nat)
    requires IsNumber(x)
    ensures n <= i <= k <= |x| && n <= 1 && (n == 1 ==> x[0] == '-')
    ensures IntegerLen(x[n..]) == i - n && FractionLen(x[i..]) == k - i && ExponentLen(x[k..]) == |x| - k
  {
    n := if x[0] == '-' then 1 else 0;
    i := n + IntegerLen(x[n..]);
    k := i + FractionLen(x[i..]);
  }

  lemma CutsJoin(x: string, n: nat, i: nat, k: nat)
    requires n <= i <= k <= |x|
    ensures x == x[..n] + (x[n..i] + (x[i..k] + x[k..]))
  {
  }

  lemma CutTwice(x: string, n: nat, i: nat)
    requires n <= i <= |x|
    ensures x[n..][..i - n] == x[n..i]
  {
  }

  lemma PartsPut(x: string, n: nat, i: nat, k: nat)
    requires n <= i <= k <= |x| && n <= 1 && (n == 1 ==> x[0] == '-')
    requires IsWhole(x[n..i]) && IsFraction(x[i..k]) && IsExponent(x[k..])
    ensures HasParts(x, x[..n], x[n..i], x[i..k], x[k..])
  {
    hide IsWhole, IsFraction, IsExponent;
    CutsJoin(x, n, i, k);
    assert if n == 1 then x[..n] == "-" else x[..n] == "";
  }

  lemma NumberHasParts(x: string) returns (sign: string, w: string, f: string, e: string)
    requires IsNumber(x)
    ensures HasParts(x, sign, w, f, e)
  {
    hide IntegerLen, FractionLen, ExponentLen, IsWhole, IsExponent, IsFraction, IsNumber, Digits, HasParts;
    var n, i, k := NumberCuts(x);
    WholeTaken(x[n..]);
    FractionTakenAs(x[i..]);
    ExponentTakenAs(x[k..]);
    CutTwice(x, n, i);
    CutTwice(x, i, k);
    CutTwice(x, k, |x|);
    assert x[k..|x|] == x[k..];
    PartsPut(x, n, i, k);
    sign, w, f, e := x[..n], x[n..i], x[i..k], x[k..];
  }

  // The texts read as numbers are those of the grammar, and no others.
  lemma NumbersExactly(x: string)
    ensures IsNumber(x) <==> exists sign, w, f, e :: HasParts(x, sign, w, f, e)
  {
    hide IsNumber, HasParts;
    if exists sign, w, f, e :: HasParts(x, sign, w, f, e) {
      var sign, w, f, e :| HasParts(x, sign, w, f, e);
      PartsAreNumber(x, sign, w, f, e);
    }
    if IsNumber(x) {
      var sign, w, f, e := NumberHasParts(x);
    }
  }

  // ---------- integers among the numbers ----------

  lemma {:induction false} DecimalUnique(w: string)
    requires IsWhole(w)
    ensures w == Decimal(Undecimal(w)) && (w[0] != '0' ==> Undecimal(w) > 0)
    decreases |w|
  {
    var init, last := w[..|w| - 1], w[|w| - 1];
    assert w == init + [last];
    if |w| == 1 {
      assert init == "";
    } else {
      assert init[0] == w[0];
      DecimalUnique(init);
    }
  }

  lemma DigitsAreWhole(x: string)
    requires IsNumber(x)
    ensures AllDigits(x) ==> IsWhole(x)
    ensures x[0] == '-' && AllDigits(x[1..]) ==> IsWhole(x[1..])
  {
    hide IsWhole, FractionLen, ExponentLen;
    var n, i, k := NumberCuts(x);
    var t := x[n..];
    WholeTaken(t);
    if AllDigits(t) {
      if i < |x| {
        assert IsDigit(x[i]) by { assert x[i] == t[i - n]; }
        StopsAtDigit(x[i..]);
      }
      assert t[..i - n] == t;
    }
  }

  lemma StopsAtDigit(s: string)
    requires s != "" && IsDigit(s[0])
    ensures FractionLen(s) == 0 && ExponentLen(s) == 0
  {
  }

  // A number is written for an unsigned integer in one way only.
  lemma UnsignedExactly(x: string, n: nat)
    requires IsNumber(x)
    ensures AllDigits(x) && Undecimal(x) == n <==> x == Decimal(n)
  {
    hide NumberLen, IsWhole, Decimal;
    DecimalReads(n);
    DigitsAreWhole(x);
    if AllDigits(x) { DecimalUnique(x); }
  }

  // A number written for a signed integer; zero may have a minus.
  predicate IsIntText(x: string, n: int) {
    if n < 0 then x == "-" + Decimal(-n) else x == Decimal(n) || (n == 0 && x == "-0")
  }

  lemma SignedExactly(x: string, n: int)
    requires IsNumber(x)
    ensures IsIntText(x, n) <==>
            || (AllDigits(x) && Undecimal(x) == n)
            || (x[0] == '-' && AllDigits(x[1..]) && 0 - (Undecimal(x[1..]) as int) == n)
  {
    hide NumberLen, IsWhole, Decimal;
    if n >= 0 { UnsignedExactly(x, n); }
    DigitsAreWhole(x);
    if x[0] == '-' && AllDigits(x[1..]) {
      DecimalUnique(x[1..]);
      assert x == "-" + x[1..];
      ZeroText();
    }
    if n < 0 {
      DecimalReads(-n);
      assert ("-" + Decimal(-n))[1..] == Decimal(-n);
    }
    if x == "-0" { ZeroText(); assert x[1..] == "0"; }
  }

  lemma ZeroText()
    ensures Decimal(0) == "0" && AllDigits("0") && Undecimal("0") == 0
  {
    assert "0"[..0] == "";
  }
}

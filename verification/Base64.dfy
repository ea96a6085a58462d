// Base64 with padding, as Go's base64.StdEncoding (section 4 of RFC 4648).
module Base64 {

  // Every character stands for a byte.
  predicate IsBytes(s: string) {
    forall i :: 0 <= i < |s| ==> s[i] <= '\U{FF}'
  }

  function Symbol(n: nat): char
    requires n < 64
  {
    if n < 26 then ('A' as int + n) as char
    else if n < 52 then ('a' as int + n - 26) as char
    else if n < 62 then ('0' as int + n - 52) as char
    else if n == 62 then '+'
    else '/'
  }

  predicate IsSymbol(c: char) {
    'A' <= c <= 'Z' || 'a' <= c <= 'z' || '0' <= c <= '9' || c == '+' || c == '/'
  }

  function SymbolValue(c: char): (n: nat)
    requires IsSymbol(c)
    ensures n < 64
  {
    if 'A' <= c <= 'Z' then c as int - 'A' as int
    else if 'a' <= c <= 'z' then c as int - 'a' as int + 26
    else if '0' <= c <= '9' then c as int - '0' as int + 52
    else if c == '+' then 62
    else 63
  }

  lemma SymbolReads(n: nat)
    requires n < 64
    ensures IsSymbol(Symbol(n)) && SymbolValue(Symbol(n)) == n
  {
  }

  function EncodeGroup(a: char, b: char, c: char): string
    requires a <= '\U{FF}' && b <= '\U{FF}' && c <= '\U{FF}'
  {
    [Symbol(a as int / 4), Symbol(a as int % 4 * 16 + b as int / 16),
     Symbol(b as int % 16 * 4 + c as int / 64), Symbol(c as int % 64)]
  }

  function Encode(s: string): string
    requires IsBytes(s)
    decreases |s|
  {
    if s == "" then ""
    else if |s| == 1 then EncodeGroup(s[0], '\0', '\0')[..2] + "=="
    else if |s| == 2 then EncodeGroup(s[0], s[1], '\0')[..3] + "="
    else EncodeGroup(s[0], s[1], s[2]) + Encode(s[3..])
  }

  datatype Decoding = Corrupt | Bytes(bytes: string)

  // The decoder skips line breaks anywhere.
  function DropBreaks(t: string): string
    decreases |t|
  {
    if t == "" then ""
    else if t[0] == '\r' || t[0] == '\n' then DropBreaks(t[1..])
    else [t[0]] + DropBreaks(t[1..])
  }

  // The first, second and third byte of a group; spare bits are ignored.
  function Byte1(t: string): char
    requires |t| >= 2 && IsSymbol(t[0]) && IsSymbol(t[1])
  {
    (SymbolValue(t[0]) * 4 + SymbolValue(t[1]) / 16) as char
  }

  function Byte2(t: string): char
    requires |t| >= 3 && IsSymbol(t[1]) && IsSymbol(t[2])
  {
    (SymbolValue(t[1]) % 16 * 16 + SymbolValue(t[2]) / 4) as char
  }

  function Byte3(t: string): char
    requires |t| >= 4 && IsSymbol(t[2]) && IsSymbol(t[3])
  {
    (SymbolValue(t[2]) % 4 * 64 + SymbolValue(t[3])) as char
  }

  // Padding ends the text.
  function DecodeGroups(t: string): Decoding
    decreases |t|
  {
    if t == "" then Bytes("")
    else if |t| < 4 || !IsSymbol(t[0]) || !IsSymbol(t[1]) then Corrupt
    else if t[2..] == "==" then Bytes([Byte1(t)])
    else if !IsSymbol(t[2]) then Corrupt
    else if t[3..] == "=" then Bytes([Byte1(t), Byte2(t)])
    else if !IsSymbol(t[3]) then Corrupt
    else
      match DecodeGroups(t[4..])
      case Corrupt => Corrupt
      case Bytes(rest) => Bytes([Byte1(t), Byte2(t), Byte3(t)] + rest)
  }

  function Decode(t: string): Decoding {
    DecodeGroups(DropBreaks(t))
  }

  // Bits put together in one symbol come apart again.
  lemma BitsSplit(hi: nat, lo: nat)
    ensures lo < 16 ==> (hi * 16 + lo) / 16 == hi && (hi * 16 + lo) % 16 == lo
    ensures lo < 4 ==> (hi * 4 + lo) / 4 == hi && (hi * 4 + lo) % 4 == lo
  {
  }

  lemma GroupArithmetic(x: nat, y: nat, z: nat)
    requires x < 256 && y < 256 && z < 256
    ensures var s, t := x % 4 * 16 + y / 16, y % 16 * 4 + z / 64;
            && s < 64 && t < 64
            && x / 4 * 4 + s / 16 == x && s % 16 * 16 + t / 4 == y && t % 4 * 64 + z % 64 == z
  {
    BitsSplit(x % 4, y / 16);
    BitsSplit(y % 16, z / 64);
  }

  lemma GroupReads(a: char, b: char, c: char)
    requires a <= '\U{FF}' && b <= '\U{FF}' && c <= '\U{FF}'
    ensures var g := EncodeGroup(a, b, c);
            && |g| == 4 && (forall i :: 0 <= i < 4 ==> IsSymbol(g[i]))
            && Byte1(g) == a && Byte2(g) == b && Byte3(g) == c
  {
    hide Symbol, SymbolValue, IsSymbol;
    var x, y, z := a as int, b as int, c as int;
    GroupArithmetic(x, y, z);
    SymbolReads(x / 4);
    SymbolReads(x % 4 * 16 + y / 16);
    SymbolReads(y % 16 * 4 + z / 64);
    SymbolReads(z % 64);
  }

  predicate HasNoBreaks(t: string) {
    forall i :: 0 <= i < |t| ==> t[i] != '\r' && t[i] != '\n'
  }

  lemma {:induction false} DropNothing(t: string)
    requires HasNoBreaks(t)
    ensures DropBreaks(t) == t
    decreases |t|
  {
    if t == "" {
    } else {
      DropNothing(t[1..]);
    }
  }

  lemma {:induction false} EncodeReads(s: string)
    requires IsBytes(s)
    ensures DecodeGroups(Encode(s)) == Bytes(s) && HasNoBreaks(Encode(s))
    decreases |s|
  {
    hide Byte1, Byte2, Byte3, EncodeGroup;
    if |s| == 1 {
      GroupReads(s[0], '\0', '\0');
      PaddedReads(EncodeGroup(s[0], '\0', '\0'));
    } else if |s| == 2 {
      GroupReads(s[0], s[1], '\0');
      PaddedReads(EncodeGroup(s[0], s[1], '\0'));
    } else if |s| >= 3 {
      EncodeReads(s[3..]);
      GroupReads(s[0], s[1], s[2]);
      FullReads(EncodeGroup(s[0], s[1], s[2]), Encode(s[3..]));
      assert s == [s[0], s[1], s[2]] + s[3..];
    }
  }

  lemma GroupLength(a: char, b: char, c: char)
    requires a <= '\U{FF}' && b <= '\U{FF}' && c <= '\U{FF}'
    ensures |EncodeGroup(a, b, c)| == 4
  {
    hide Symbol;
  }

  lemma {:induction false} EncodeLength(s: string)
    requires IsBytes(s)
    ensures |Encode(s)| == (|s| + 2) / 3 * 4
    decreases |s|
  {
    hide EncodeGroup;
    if |s| >= 3 {
      GroupLength(s[0], s[1], s[2]);
      EncodeLength(s[3..]);
    } else if |s| >= 1 {
      GroupLength(s[0], '\0', '\0');
      GroupLength(s[0], if |s| == 2 then s[1] else '\0', '\0');
    }
  }

  lemma PaddedReads(g: string)
    requires |g| == 4 && forall i :: 0 <= i < 4 ==> IsSymbol(g[i])
    ensures DecodeGroups(g[..2] + "==") == Bytes([Byte1(g)]) && HasNoBreaks(g[..2] + "==")
    ensures DecodeGroups(g[..3] + "=") == Bytes([Byte1(g), Byte2(g)]) && HasNoBreaks(g[..3] + "=")
  {
    assert (g[..2] + "==")[2..] == "==";
    assert (g[..3] + "=")[3..] == "=";
    assert (g[..3] + "=")[2..] != "==" by { assert (g[..3] + "=")[2..][0] == g[2]; }
  }

  lemma FullReads(g: string, rest: string)
    requires |g| == 4 && forall i :: 0 <= i < 4 ==> IsSymbol(g[i])
    requires HasNoBreaks(rest)
    ensures HasNoBreaks(g + rest)
    ensures DecodeGroups(rest).Bytes? ==>
              DecodeGroups(g + rest) == Bytes([Byte1(g), Byte2(g), Byte3(g)] + DecodeGroups(rest).bytes)
  {
    var t := g + rest;
    assert t[4..] == rest;
    assert t[2..] != "==" by { assert t[2..][0] == g[2]; }
    assert t[3..] != "=" by { assert t[3..][0] == g[3]; }
  }

  // What is encoded is decoded again.
  lemma EncodeDecodes(s: string)
    requires IsBytes(s)
    ensures Decode(Encode(s)) == Bytes(s)
    ensures |Encode(s)| == (|s| + 2) / 3 * 4
  {
    hide Encode, DecodeGroups, DropBreaks, HasNoBreaks;
    EncodeReads(s);
    EncodeLength(s);
    DropNothing(Encode(s));
  }

  // Text that decodes is ASCII.
  lemma {:induction false} DecodedIsAscii(t: string)
    requires Decode(t).Bytes?
    ensures forall i :: 0 <= i < |t| ==> t[i] <= '\U{7F}'
  {
    GroupsAreAscii(DropBreaks(t));
    BreaksAreAscii(t);
  }

  lemma {:induction false} GroupsAreAscii(t: string)
    requires DecodeGroups(t).Bytes?
    ensures forall i :: 0 <= i < |t| ==> t[i] <= '\U{7F}'
    decreases |t|
  {
    if |t| >= 4 {
      if t[2..] == "==" {
        assert |t| == 4 && t[2] == t[2..][0] && t[3] == t[2..][1];
      } else if t[3..] == "=" {
        assert |t| == 4 && t[3] == t[3..][0];
      } else {
        GroupsAreAscii(t[4..]);
        assert forall i :: 4 <= i < |t| ==> t[i] == t[4..][i - 4];
      }
    }
  }

  lemma {:induction false} BreaksAreAscii(t: string)
    requires forall i :: 0 <= i < |DropBreaks(t)| ==> DropBreaks(t)[i] <= '\U{7F}'
    ensures forall i :: 0 <= i < |t| ==> t[i] <= '\U{7F}'
    decreases |t|
  {
    if t == "" {
    } else {
      var rest := DropBreaks(t[1..]);
      if t[0] != '\r' && t[0] != '\n' {
        assert DropBreaks(t)[0] == t[0];
        assert forall i :: 0 <= i < |rest| ==> rest[i] == DropBreaks(t)[i + 1];
      } else {
        assert DropBreaks(t) == rest;
      }
      BreaksAreAscii(t[1..]);
      assert forall i :: 1 <= i < |t| ==> t[i] == t[1..][i - 1];
    }
  }

  // ---------- by the alphabet ----------

  const CAPITALS := "ABCDEFGHIJKLMNOPQRSTUVWXYZ"
  const SMALLS := "abcdefghijklmnopqrstuvwxyz"
  const DIGITS := "0123456789"
  const ALPHABET := CAPITALS + SMALLS + DIGITS + "+/"

  // The character stands for the six bits.
  predicate StandsFor(c: char, v: int) {
    0 <= v < 64 && |ALPHABET| == 64 && ALPHABET[v] == c
  }

  // The text writes the bytes: 24 bits by four characters, and a last group of one or two
  // bytes by two or three and padding. Strictly, the bits left over are zero.
  ghost predicate Writes(t: string, bytes: string, strict: bool)
    decreases |bytes|
  {
    if bytes == "" then t == ""
    else if |bytes| == 1 then
      |t| == 4 && t[2..] == "==" &&
      exists v0, v1 ::
        && StandsFor(t[0], v0) && StandsFor(t[1], v1)
        && (v0 * 64 + v1) / 16 == bytes[0] as int && (strict ==> (v0 * 64 + v1) % 16 == 0)
    else if |bytes| == 2 then
      |t| == 4 && t[3] == '=' &&
      exists v0, v1, v2 ::
        && StandsFor(t[0], v0) && StandsFor(t[1], v1) && StandsFor(t[2], v2)
        && ((v0 * 64 + v1) * 64 + v2) / 4 == bytes[0] as int * 256 + bytes[1] as int
        && (strict ==> ((v0 * 64 + v1) * 64 + v2) % 4 == 0)
    else
      |t| >= 4 && Writes(t[4..], bytes[3..], strict) &&
      exists v0, v1, v2, v3 ::
        && StandsFor(t[0], v0) && StandsFor(t[1], v1) && StandsFor(t[2], v2) && StandsFor(t[3], v3)
        && ((v0 * 64 + v1) * 64 + v2) * 64 + v3 ==
           (bytes[0] as int * 256 + bytes[1] as int) * 256 + bytes[2] as int
  }

  lemma LettersInOrder()
    ensures |CAPITALS| == 26 && |SMALLS| == 26
    ensures forall v :: 0 <= v < 26 ==> CAPITALS[v] as int == 65 + v && SMALLS[v] as int == 97 + v
  {
  }

  lemma DigitsInOrder()
    ensures |DIGITS| == 10 && forall v :: 0 <= v < 10 ==> DIGITS[v] as int == 48 + v
  {
  }

  lemma AlphabetParts(a: string, b: string, c: string, d: string)
    requires |a| == |b| == 26 && |c| == 10 && |d| == 2
    ensures var all := a + b + c + d;
            && |all| == 64 && all[62] == d[0] && all[63] == d[1]
            && (forall v :: 0 <= v < 26 ==> all[v] == a[v]) && (forall v :: 26 <= v < 52 ==> all[v] == b[v - 26])
            && (forall v :: 52 <= v < 62 ==> all[v] == c[v - 52])
  {
  }

  lemma AlphabetInOrder()
    ensures |ALPHABET| == 64 && ALPHABET[62] == '+' && ALPHABET[63] == '/'
    ensures forall v :: 0 <= v < 26 ==> ALPHABET[v] as int == 65 + v
    ensures forall v :: 26 <= v < 52 ==> ALPHABET[v] as int == 71 + v
    ensures forall v :: 52 <= v < 62 ==> ALPHABET[v] as int == v - 4
  {
    LettersInOrder();
    DigitsInOrder();
    AlphabetParts(CAPITALS, SMALLS, DIGITS, "+/");
  }

  lemma SymbolExactly(c: char, v: int)
    ensures StandsFor(c, v) <==> IsSymbol(c) && SymbolValue(c) == v
  {
    AlphabetInOrder();
  }

  // ---------- decoding by the alphabet ----------

  lemma OneByte(t: string, bytes: string, strict: bool)
    requires |bytes| == 1 && bytes[0] <= '\U{FF}' && |t| == 4 && t[2..] == "=="
    ensures Writes(t, bytes, strict) <==>
            && IsSymbol(t[0]) && IsSymbol(t[1]) && Byte1(t) == bytes[0]
            && (strict ==> SymbolValue(t[1]) % 16 == 0)
  {
    hide IsSymbol, SymbolValue, StandsFor;
    forall v ensures StandsFor(t[0], v) <==> IsSymbol(t[0]) && SymbolValue(t[0]) == v { SymbolExactly(t[0], v); }
    forall v ensures StandsFor(t[1], v) <==> IsSymbol(t[1]) && SymbolValue(t[1]) == v { SymbolExactly(t[1], v); }
    if IsSymbol(t[0]) && IsSymbol(t[1]) {
      var v0, v1 := SymbolValue(t[0]), SymbolValue(t[1]);
      TwelveBits(v0, v1);
      assert StandsFor(t[0], v0) && StandsFor(t[1], v1);
    }
  }

  lemma TwelveBits(v0: nat, v1: nat)
    requires v0 < 64 && v1 < 64
    ensures (v0 * 64 + v1) / 16 == v0 * 4 + v1 / 16 && (v0 * 64 + v1) % 16 == v1 % 16
  {
  }

  lemma TwoBytes(t: string, bytes: string, strict: bool)
    requires |bytes| == 2 && bytes[0] <= '\U{FF}' && bytes[1] <= '\U{FF}' && |t| == 4 && t[3] == '='
    ensures Writes(t, bytes, strict) <==>
            && IsSymbol(t[0]) && IsSymbol(t[1]) && IsSymbol(t[2]) && Byte1(t) == bytes[0] && Byte2(t) == bytes[1]
            && (strict ==> SymbolValue(t[2]) % 4 == 0)
  {
    hide IsSymbol, SymbolValue, StandsFor;
    forall v ensures StandsFor(t[0], v) <==> IsSymbol(t[0]) && SymbolValue(t[0]) == v { SymbolExactly(t[0], v); }
    forall v ensures StandsFor(t[1], v) <==> IsSymbol(t[1]) && SymbolValue(t[1]) == v { SymbolExactly(t[1], v); }
    forall v ensures StandsFor(t[2], v) <==> IsSymbol(t[2]) && SymbolValue(t[2]) == v { SymbolExactly(t[2], v); }
    if IsSymbol(t[0]) && IsSymbol(t[1]) && IsSymbol(t[2]) {
      var v0, v1, v2 := SymbolValue(t[0]), SymbolValue(t[1]), SymbolValue(t[2]);
      EighteenBits(v0, v1, v2, bytes[0] as int, bytes[1] as int);
      assert StandsFor(t[0], v0) && StandsFor(t[1], v1) && StandsFor(t[2], v2);
    }
  }

  lemma EighteenBits(v0: nat, v1: nat, v2: nat, a: nat, b: nat)
    requires v0 < 64 && v1 < 64 && v2 < 64 && a < 256 && b < 256
    ensures ((v0 * 64 + v1) * 64 + v2) / 4 == a * 256 + b <==> v0 * 4 + v1 / 16 == a && v1 % 16 * 16 + v2 / 4 == b
    ensures ((v0 * 64 + v1) * 64 + v2) % 4 == v2 % 4
  {
    assert v1 == v1 / 16 * 16 + v1 % 16;
    assert ((v0 * 64 + v1) * 64 + v2) / 4 == (v0 * 4 + v1 / 16) * 256 + (v1 % 16 * 16 + v2 / 4);
  }

  lemma ThreeBytes(t: string, bytes: string)
    requires |bytes| >= 3 && |t| >= 4 && IsBytes(bytes)
    ensures (exists v0, v1, v2, v3 ::
              && StandsFor(t[0], v0) && StandsFor(t[1], v1) && StandsFor(t[2], v2) && StandsFor(t[3], v3)
              && ((v0 * 64 + v1) * 64 + v2) * 64 + v3 ==
                 (bytes[0] as int * 256 + bytes[1] as int) * 256 + bytes[2] as int) <==>
            && IsSymbol(t[0]) && IsSymbol(t[1]) && IsSymbol(t[2]) && IsSymbol(t[3])
            && Byte1(t) == bytes[0] && Byte2(t) == bytes[1] && Byte3(t) == bytes[2]
  {
    hide IsSymbol, SymbolValue, StandsFor;
    forall v ensures StandsFor(t[0], v) <==> IsSymbol(t[0]) && SymbolValue(t[0]) == v { SymbolExactly(t[0], v); }
    forall v ensures StandsFor(t[1], v) <==> IsSymbol(t[1]) && SymbolValue(t[1]) == v { SymbolExactly(t[1], v); }
    forall v ensures StandsFor(t[2], v) <==> IsSymbol(t[2]) && SymbolValue(t[2]) == v { SymbolExactly(t[2], v); }
    forall v ensures StandsFor(t[3], v) <==> IsSymbol(t[3]) && SymbolValue(t[3]) == v { SymbolExactly(t[3], v); }
    if IsSymbol(t[0]) && IsSymbol(t[1]) && IsSymbol(t[2]) && IsSymbol(t[3]) {
      var v0, v1, v2, v3 := SymbolValue(t[0]), SymbolValue(t[1]), SymbolValue(t[2]), SymbolValue(t[3]);
      TwentyFourBits(v0, v1, v2, v3, bytes[0] as int, bytes[1] as int, bytes[2] as int);
      assert StandsFor(t[0], v0) && StandsFor(t[1], v1) && StandsFor(t[2], v2) && StandsFor(t[3], v3);
    }
  }

  lemma TwentyFourBits(v0: nat, v1: nat, v2: nat, v3: nat, a: nat, b: nat, c: nat)
    requires v0 < 64 && v1 < 64 && v2 < 64 && v3 < 64 && a < 256 && b < 256 && c < 256
    ensures ((v0 * 64 + v1) * 64 + v2) * 64 + v3 == (a * 256 + b) * 256 + c <==>
            v0 * 4 + v1 / 16 == a && v1 % 16 * 16 + v2 / 4 == b && v2 % 4 * 64 + v3 == c
  {
    assert v1 == v1 / 16 * 16 + v1 % 16 && v2 == v2 / 4 * 4 + v2 % 4;
    var x, y, z := v0 * 4 + v1 / 16, v1 % 16 * 16 + v2 / 4, v2 % 4 * 64 + v3;
    assert ((v0 * 64 + v1) * 64 + v2) * 64 + v3 == (x * 256 + y) * 256 + z;
  }

  lemma GroupsStep(t: string)
    requires |t| >= 4
    ensures DecodeGroups(t) ==
            if !IsSymbol(t[0]) || !IsSymbol(t[1]) then Corrupt
            else if t[2..] == "==" then Bytes([Byte1(t)])
            else if !IsSymbol(t[2]) then Corrupt
            else if t[3..] == "=" then Bytes([Byte1(t), Byte2(t)])
            else if !IsSymbol(t[3]) || DecodeGroups(t[4..]).Corrupt? then Corrupt
            else Bytes([Byte1(t), Byte2(t), Byte3(t)] + DecodeGroups(t[4..]).bytes)
    ensures !IsSymbol('=')
  {
    hide Byte1, Byte2, Byte3;
  }

  lemma GroupsShort(t: string)
    requires |t| < 4
    ensures DecodeGroups(t) == if t == "" then Bytes("") else Corrupt
  {
  }

  lemma AppendThree(bytes: string, rest: string)
    requires |bytes| >= 3
    ensures forall a, b, c :: [a, b, c] + rest == bytes <==> a == bytes[0] && b == bytes[1] && c == bytes[2]
                                                             && rest == bytes[3..]
  {
    forall a, b, c ensures ([a, b, c] + rest)[3..] == rest {
    }
    assert bytes == [bytes[0], bytes[1], bytes[2]] + bytes[3..];
  }

  // The groups of a text are read as bytes exactly if the text writes them, the bits left
  // over being anything.
  lemma {:induction false} GroupsExactly(t: string, bytes: string)
    requires IsBytes(bytes)
    ensures DecodeGroups(t) == Bytes(bytes) <==> Writes(t, bytes, false)
    decreases |t|
  {
    hide IsSymbol, Byte1, Byte2, Byte3, StandsFor, DecodeGroups;
    if |t| < 4 {
      GroupsShort(t);
    } else {
      GroupsStep(t);
      assert t[2..] == "==" ==> t[2] == '=' && t[3] == t[2..][1];
      assert t[3..] == "=" <==> |t| == 4 && t[3] == '=';
      if |bytes| == 1 {
        assert bytes == [bytes[0]];
        if |t| == 4 && t[2..] == "==" { OneByte(t, bytes, false); }
      } else if |bytes| == 2 {
        assert bytes == [bytes[0], bytes[1]];
        if |t| == 4 && t[3] == '=' { TwoBytes(t, bytes, false); }
      } else if |bytes| >= 3 {
        assert bytes == [bytes[0], bytes[1], bytes[2]] + bytes[3..];
        ThreeBytes(t, bytes);
        GroupsExactly(t[4..], bytes[3..]);
        if DecodeGroups(t[4..]).Bytes? { AppendThree(bytes, DecodeGroups(t[4..]).bytes); }
      }
    }
  }

  // Which texts decode to which bytes: those that, but for line breaks anywhere, write them.
  lemma DecodesExactly(t: string, bytes: string)
    requires IsBytes(bytes)
    ensures Decode(t) == Bytes(bytes) <==> exists u :: BreaksOnly(t, u) && Writes(u, bytes, false)
  {
    hide DecodeGroups, Writes;
    DroppedBreaks(t);
    GroupsExactly(DropBreaks(t), bytes);
    forall u | BreaksOnly(t, u) ensures u == DropBreaks(t) { BreaksDropped(t, u); }
  }

  // u is t without its line breaks.
  predicate BreaksOnly(t: string, u: string)
    decreases |t|
  {
    if t == "" then u == ""
    else if t[0] in "\r\n" then BreaksOnly(t[1..], u)
    else u != "" && u[0] == t[0] && BreaksOnly(t[1..], u[1..])
  }

  lemma {:induction false} DroppedBreaks(t: string)
    ensures BreaksOnly(t, DropBreaks(t))
    decreases |t|
  {
    if t == "" {
    } else {
      DroppedBreaks(t[1..]);
      if t[0] !in "\r\n" { assert DropBreaks(t)[1..] == DropBreaks(t[1..]); }
    }
  }

  lemma {:induction false} BreaksDropped(t: string, u: string)
    requires BreaksOnly(t, u)
    ensures u == DropBreaks(t)
    decreases |t|
  {
    if t == "" {
    } else if t[0] in "\r\n" {
      BreaksDropped(t[1..], u);
    } else {
      BreaksDropped(t[1..], u[1..]);
      assert u == [u[0]] + u[1..];
    }
  }

  // ---------- encoding by the alphabet ----------

  lemma SpareBits(a: nat, b: nat)
    ensures (a % 4 * 16 + 0 / 16) % 16 == 0 && (b % 16 * 4 + 0 / 64) % 4 == 0
  {
  }

  lemma GroupSpare(a: char, b: char)
    requires a <= '\U{FF}' && b <= '\U{FF}'
    ensures SymbolValue(EncodeGroup(a, '\0', '\0')[1]) % 16 == 0
    ensures SymbolValue(EncodeGroup(a, b, '\0')[2]) % 4 == 0
  {
    hide Symbol, SymbolValue;
    SpareBits(a as int, b as int);
    var x, y := a as int, b as int;
    SymbolReads(x % 4 * 16 + 0 / 16);
    SymbolReads(y % 16 * 4 + 0 / 64);
  }

  // What is encoded writes the bytes, with no bits left over: in the alphabet's own order,
  // four characters for three bytes.
  lemma {:induction false} EncodesExactly(s: string)
    requires IsBytes(s)
    ensures Writes(Encode(s), s, true)
    decreases |s|
  {
    hide IsSymbol, Symbol, SymbolValue, Byte1, Byte2, Byte3, StandsFor, EncodeGroup;
    if |s| == 1 {
      var g := EncodeGroup(s[0], '\0', '\0');
      GroupReads(s[0], '\0', '\0');
      GroupSpare(s[0], '\0');
      var t := g[..2] + "==";
      assert t[2..] == "==";
      SameByte1(t, g);
      OneByte(t, s, true);
    } else if |s| == 2 {
      var g := EncodeGroup(s[0], s[1], '\0');
      GroupReads(s[0], s[1], '\0');
      GroupSpare(s[0], s[1]);
      var t := g[..3] + "=";
      SameByte1(t, g);
      SameByte2(t, g);
      TwoBytes(t, s, true);
    } else if |s| >= 3 {
      var g := EncodeGroup(s[0], s[1], s[2]);
      GroupReads(s[0], s[1], s[2]);
      EncodesExactly(s[3..]);
      var t := Encode(s);
      assert t == g + Encode(s[3..]) && t[4..] == Encode(s[3..]);
      SameByte1(t, g);
      SameByte2(t, g);
      SameByte3(t, g);
      ThreeBytes(t, s);
    }
  }

  lemma SameByte1(t: string, g: string)
    requires |t| >= 4 && |g| == 4 && t[0] == g[0] && t[1] == g[1] && IsSymbol(g[0]) && IsSymbol(g[1])
    ensures Byte1(t) == Byte1(g)
  {
  }

  lemma SameByte2(t: string, g: string)
    requires |t| >= 4 && |g| == 4 && t[1] == g[1] && t[2] == g[2] && IsSymbol(g[1]) && IsSymbol(g[2])
    ensures Byte2(t) == Byte2(g)
  {
  }

  lemma SameByte3(t: string, g: string)
    requires |t| >= 4 && |g| == 4 && t[2] == g[2] && t[3] == g[3] && IsSymbol(g[2]) && IsSymbol(g[3])
    ensures Byte3(t) == Byte3(g)
  {
  }
}

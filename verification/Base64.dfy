/** Unpadded standard base64 (section 4 of RFC 4648, padding omitted per section 3.2), as
    Go's base64.RawStdEncoding implements it: the decoder skips CR and LF, rejects every
    other foreign character and a quantum of one symbol, and ignores the value of the
    unused low bits of the last symbol. */
module Base64 {
  import opened Common

  /** The symbol of a sextet: A-Z, a-z, 0-9, '+', '/'. */
  function Symbol(i: int): char
    requires 0 <= i < 64
  {
    if i < 26 then (65 + i) as char
    else if i < 52 then (71 + i) as char
    else if i < 62 then (i - 4) as char
    else if i == 62 then '+'
    else '/'
  }

  /** The sextet of a symbol, if it is one. */
  function Sextet(c: char): (r: Option<int>)
    ensures r.Some? ==> 0 <= r.value < 64
  {
    if 'A' <= c <= 'Z' then Some(c as int - 65)
    else if 'a' <= c <= 'z' then Some(c as int - 71)
    else if '0' <= c <= '9' then Some(c as int + 4)
    else if c == '+' then Some(62)
    else if c == '/' then Some(63)
    else None
  }

  predicate IsSymbol(c: char) {
    Sextet(c).Some?
  }

  predicate IsNewline(c: char) {
    c == '\r' || c == '\n'
  }

  // The bit fields of a 24-bit group: bytes b0 b1 b2 on one side, sextets v0 v1 v2 v3 on the
  // other. A short last group is filled with zero bits.

  function V0(b0: byte): int { b0 as int / 4 }
  function V1(b0: byte, b1: byte): int { b0 as int % 4 * 16 + b1 as int / 16 }
  function V2(b1: byte, b2: byte): int { b1 as int % 16 * 4 + b2 as int / 64 }
  function V3(b2: byte): int { b2 as int % 64 }

  function Group(b0: byte, b1: byte, b2: byte): string {
    [Symbol(V0(b0)), Symbol(V1(b0, b1)), Symbol(V2(b1, b2)), Symbol(V3(b2))]
  }

  function At(b: Bytes, i: nat): byte {
    if i < |b| then b[i] else 0
  }

  /** RawStdEncoding.EncodeToString: a last group of one or two bytes gives two or three symbols. */
  function Encode(b: Bytes): string
  {
    if |b| == 0 then ""
    else if |b| <= 2 then Group(At(b, 0), At(b, 1), At(b, 2))[..|b| + 1]
    else Group(b[0], b[1], b[2]) + Encode(b[3..])
  }

  function DropNewlines(s: string): string
  {
    if s == "" then ""
    else if IsNewline(s[0]) then DropNewlines(s[1..])
    else [s[0]] + DropNewlines(s[1..])
  }

  function B0(v0: int, v1: int): byte
    requires 0 <= v0 < 64 && 0 <= v1 < 64
  { (v0 * 4 + v1 / 16) as byte }

  function B1(v1: int, v2: int): byte
    requires 0 <= v1 < 64 && 0 <= v2 < 64
  { (v1 % 16 * 16 + v2 / 4) as byte }

  function B2(v2: int, v3: int): byte
    requires 0 <= v2 < 64 && 0 <= v3 < 64
  { (v2 % 4 * 64 + v3) as byte }

  function DecodeQuanta(s: string): Option<Bytes>
  {
    if |s| == 0 then Some([])
    else if |s| == 1 || !IsSymbol(s[0]) || !IsSymbol(s[1]) then None
    else
      var v0, v1 := Sextet(s[0]).value, Sextet(s[1]).value;
      if |s| == 2 then Some([B0(v0, v1)])
      else if !IsSymbol(s[2]) then None
      else
        var v2 := Sextet(s[2]).value;
        if |s| == 3 then Some([B0(v0, v1), B1(v1, v2)])
        else if !IsSymbol(s[3]) then None
        else
          var rest := DecodeQuanta(s[4..]);
          if rest.None? then None
          else Some([B0(v0, v1), B1(v1, v2), B2(v2, Sextet(s[3]).value)] + rest.value)
  }

  /** RawStdEncoding.DecodeString. */
  function Decode(s: string): Option<Bytes> {
    DecodeQuanta(DropNewlines(s))
  }

  predicate AllSymbols(s: string) {
    forall i :: 0 <= i < |s| ==> IsSymbol(s[i])
  }

  lemma SextetOfSymbol(i: int)
    requires 0 <= i < 64
    ensures Sextet(Symbol(i)) == Some(i)
  {
  }

  lemma GroupIsSymbols(b0: byte, b1: byte, b2: byte)
    ensures AllSymbols(Group(b0, b1, b2)) && |Group(b0, b1, b2)| == 4
  {
    SextetOfSymbol(V0(b0));
    SextetOfSymbol(V1(b0, b1));
    SextetOfSymbol(V2(b1, b2));
    SextetOfSymbol(V3(b2));
  }

  /** The encoding uses only the 64 symbols, and its length fixes the residue. */
  lemma {:induction false} EncodingIsSymbols(b: Bytes)
    ensures AllSymbols(Encode(b)) && |Encode(b)| == (|b| * 4 + 2) / 3
    decreases |b|
  {
    if 1 <= |b| <= 2 {
      GroupIsSymbols(At(b, 0), At(b, 1), At(b, 2));
    } else if |b| >= 3 {
      GroupIsSymbols(b[0], b[1], b[2]);
      EncodingIsSymbols(b[3..]);
    }
  }

  /** Cutting three bytes into sextets and gluing them back changes nothing. */
  lemma FieldsRoundTrip(b0: byte, b1: byte, b2: byte)
    ensures
      var v0, v1, v2, v3 := V0(b0), V1(b0, b1), V2(b1, b2), V3(b2);
      && 0 <= v0 < 64 && 0 <= v1 < 64 && 0 <= v2 < 64 && 0 <= v3 < 64
      && B0(v0, v1) == b0 && B1(v1, v2) == b1 && B2(v2, v3) == b2
  {
  }

  /** A full group at the front of the input. */
  lemma DecodeGroup(b0: byte, b1: byte, b2: byte, rest: string)
    requires DecodeQuanta(rest).Some?
    ensures DecodeQuanta(Group(b0, b1, b2) + rest) == Some([b0, b1, b2] + DecodeQuanta(rest).value)
  {
    FieldsRoundTrip(b0, b1, b2);
    SextetOfSymbol(V0(b0));
    SextetOfSymbol(V1(b0, b1));
    SextetOfSymbol(V2(b1, b2));
    SextetOfSymbol(V3(b2));
    var s := Group(b0, b1, b2) + rest;
    assert s[4..] == rest;
  }

  /** A last group of two bytes; the fill does not reach them. */
  lemma DecodeTwoBytes(b0: byte, b1: byte, fill: byte)
    ensures DecodeQuanta(Group(b0, b1, fill)[..3]) == Some([b0, b1])
  {
    FieldsRoundTrip(b0, b1, fill);
    SextetOfSymbol(V0(b0));
    SextetOfSymbol(V1(b0, b1));
    SextetOfSymbol(V2(b1, fill));
  }

  /** A last group of one byte. */
  lemma DecodeOneByte(b0: byte, fill: byte, fill': byte)
    ensures DecodeQuanta(Group(b0, fill, fill')[..2]) == Some([b0])
  {
    FieldsRoundTrip(b0, fill, fill');
    SextetOfSymbol(V0(b0));
    SextetOfSymbol(V1(b0, fill));
  }

  lemma ShortRoundTrip(b: Bytes)
    requires 1 <= |b| <= 2
    ensures DecodeQuanta(Encode(b)) == Some(b)
  {
    hide Symbol, Sextet, Group, DecodeQuanta;
    var b0, b1, b2 := At(b, 0), At(b, 1), At(b, 2);
    if |b| == 1 {
      DecodeOneByte(b0, b1, b2);
      assert b == [b0];
    } else {
      DecodeTwoBytes(b0, b1, b2);
      assert b == [b0, b1];
    }
  }

  lemma {:induction false} QuantaRoundTrip(b: Bytes)
    ensures DecodeQuanta(Encode(b)) == Some(b)
    decreases |b|
  {
    if 1 <= |b| <= 2 {
      ShortRoundTrip(b);
    } else if |b| >= 3 {
      QuantaRoundTrip(b[3..]);
      DecodeGroup(b[0], b[1], b[2], Encode(b[3..]));
      assert b == [b[0], b[1], b[2]] + b[3..];
    }
  }

  lemma {:induction false} NoNewlinesToDrop(s: string)
    requires AllSymbols(s)
    ensures DropNewlines(s) == s
  {
    if s != "" {
      assert IsSymbol(s[0]);
      assert AllSymbols(s[1..]) by {
        forall i | 0 <= i < |s[1..]| ensures IsSymbol(s[1..][i]) { assert IsSymbol(s[i + 1]); }
      }
      NoNewlinesToDrop(s[1..]);
    }
  }

  /** Decoding undoes encoding for every byte string, in all three length residues. */
  lemma RoundTrip(b: Bytes)
    ensures Decode(Encode(b)) == Some(b)
  {
    EncodingIsSymbols(b);
    NoNewlinesToDrop(Encode(b));
    QuantaRoundTrip(b);
  }

  /** What the decoder accepts, said without decoding: symbols only once CR and LF are
      gone, and no dangling single symbol. */
  predicate Decodable(s: string) {
    AllSymbols(DropNewlines(s)) && |DropNewlines(s)| % 4 != 1
  }

  lemma AllSymbolsSplit(s: string)
    requires |s| >= 4
    ensures AllSymbols(s)
            <==> IsSymbol(s[0]) && IsSymbol(s[1]) && IsSymbol(s[2]) && IsSymbol(s[3]) && AllSymbols(s[4..])
  {
  }

  lemma ShortAcceptance(s: string)
    requires |s| < 4
    ensures DecodeQuanta(s).Some? <==> AllSymbols(s) && |s| != 1
  {
  }

  lemma LongAcceptance(s: string)
    requires |s| >= 4
    ensures DecodeQuanta(s).Some?
            <==> IsSymbol(s[0]) && IsSymbol(s[1]) && IsSymbol(s[2]) && IsSymbol(s[3]) && DecodeQuanta(s[4..]).Some?
  {
  }

  /** Full groups of symbols, then none, two or three. */
  predicate Groups(s: string)
  {
    if |s| < 4 then AllSymbols(s) && |s| != 1
    else IsSymbol(s[0]) && IsSymbol(s[1]) && IsSymbol(s[2]) && IsSymbol(s[3]) && Groups(s[4..])
  }

  lemma {:induction false} DecodesGroups(s: string)
    ensures DecodeQuanta(s).Some? <==> Groups(s)
    decreases |s|
  {
    if |s| < 4 {
      ShortAcceptance(s);
    } else {
      DecodesGroups(s[4..]);
      LongAcceptance(s);
    }
  }

  lemma {:induction false} GroupsAreSymbols(s: string)
    ensures Groups(s) <==> AllSymbols(s) && |s| % 4 != 1
    decreases |s|
  {
    hide AllSymbols, IsSymbol;
    if |s| >= 4 {
      GroupsAreSymbols(s[4..]);
      AllSymbolsSplit(s);
      FourLess(|s|);
    }
  }

  lemma FourLess(n: nat)
    requires n >= 4
    ensures (n - 4) % 4 == n % 4
  {
  }

  lemma DecoderAcceptance(s: string)
    ensures Decode(s).Some? <==> Decodable(s)
  {
    DecodesGroups(DropNewlines(s));
    GroupsAreSymbols(DropNewlines(s));
  }

  /** CR and LF, and nothing else, are skipped wherever they stand. */
  lemma {:induction false} NewlinesAreSkipped(a: string, b: string)
    ensures Decode(a + "\r" + b) == Decode(a + b) && Decode(a + "\n" + b) == Decode(a + b)
    ensures '\r' !in a && '\n' !in a ==> DropNewlines(a) == a
  {
    DropIsLocal(a, b, '\r');
    DropIsLocal(a, b, '\n');
    if '\r' !in a && '\n' !in a {
      NothingToDrop(a);
    }
  }

  lemma {:induction false} DropIsLocal(a: string, b: string, c: char)
    requires c == '\r' || c == '\n'
    ensures DropNewlines(a + [c] + b) == DropNewlines(a + b)
  {
    if a == "" {
      assert (a + [c] + b)[1..] == b && a + b == b;
    } else {
      assert (a + [c] + b)[1..] == a[1..] + [c] + b && (a + b)[1..] == a[1..] + b;
      DropIsLocal(a[1..], b, c);
    }
  }

  lemma {:induction false} NothingToDrop(a: string)
    requires '\r' !in a && '\n' !in a
    ensures DropNewlines(a) == a
  {
    if a != "" {
      NothingToDrop(a[1..]);
      assert a == [a[0]] + a[1..];
    }
  }

  /** The test vectors of section 10 of RFC 4648, without their padding. */
  lemma TestVectors()
    ensures Encode([102]) == "Zg" && Encode([102, 111]) == "Zm8" && Encode([102, 111, 111]) == "Zm9v"
    ensures Encode([102, 111, 111, 98]) == "Zm9vYg" && Encode([102, 111, 111, 98, 97]) == "Zm9vYmE"
    ensures Encode([102, 111, 111, 98, 97, 114]) == "Zm9vYmFy"
  {
    FirstGroup();
    SecondGroup();
    hide Group;
    assert [102 as byte, 111, 111][3..] == [];
    assert [102 as byte, 111, 111, 98][3..] == [98];
    assert [102 as byte, 111, 111, 98, 97][3..] == [98, 97];
    assert [102 as byte, 111, 111, 98, 97, 114][3..] == [98, 97, 114];
    assert [98 as byte, 97, 114][3..] == [];
  }

  lemma FirstGroup()
    ensures Group(102, 0, 0)[..2] == "Zg" && Group(102, 111, 0)[..3] == "Zm8" && Group(102, 111, 111) == "Zm9v"
  {
    hide Symbol, V0, V1, V2, V3;
    SomeSextets();
    SomeSymbols();
  }

  lemma SecondGroup()
    ensures Group(98, 0, 0)[..2] == "Yg" && Group(98, 97, 0)[..3] == "YmE" && Group(98, 97, 114) == "YmFy"
  {
    hide Symbol, V0, V1, V2, V3;
    SomeSextets();
    SomeSymbols();
  }

  lemma SomeSextets()
    ensures V0(102) == 25 && V1(102, 0) == 32 && V1(102, 111) == 38 && V2(111, 0) == 60 && V2(111, 111) == 61
    ensures V3(111) == 47 && V0(98) == 24 && V1(98, 0) == 32 && V1(98, 97) == 38 && V2(97, 0) == 4
    ensures V2(97, 114) == 5 && V3(114) == 50
  {
  }

  lemma SomeSymbols()
    ensures Symbol(25) == 'Z' && Symbol(32) == 'g' && Symbol(38) == 'm' && Symbol(60) == '8' && Symbol(61) == '9'
    ensures Symbol(47) == 'v' && Symbol(24) == 'Y' && Symbol(4) == 'E' && Symbol(5) == 'F' && Symbol(50) == 'y'
  {
  }
}

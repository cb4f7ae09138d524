/** Decimal numerals: what %d prints, what strconv.Atoi and the %d verb of fmt.Sscanf read. */
module Numerals {
  import opened Common

  const UINT8_LIMIT: int := 0x100
  const UINT32_LIMIT: int := 0x1_0000_0000
  const UINT64_LIMIT: int := 0x1_0000_0000_0000_0000
  const INT64_LIMIT: int := 0x8000_0000_0000_0000

  predicate IsDigit(c: char) {
    '0' <= c <= '9'
  }

  predicate AllDigits(s: string) {
    forall i :: 0 <= i < |s| ==> IsDigit(s[i])
  }

  function Print(n: nat): (s: string)
    ensures |s| > 0
  {
    if n < 10 then [(48 + n) as char] else Print(n / 10) + [(48 + n % 10) as char]
  }

  function PrintInt(i: int): string {
    if i < 0 then "-" + Print(-i) else Print(i)
  }

  /** The number a digit string denotes. */
  function Denote(s: string): nat
    requires AllDigits(s)
  {
    if s == "" then 0 else 10 * Denote(s[..|s| - 1]) + (s[|s| - 1] as int - 48)
  }

  /** strconv.Atoi: an optional sign, at least one digit, a value that fits 64 bits. */
  function Atoi(s: string): Option<int> {
    var digits := if s != "" && (s[0] == '+' || s[0] == '-') then s[1..] else s;
    if digits == "" || !AllDigits(digits) then None
    else
      var n: int := Denote(digits);
      if s[0] == '-' then (if n <= INT64_LIMIT then Some(-n) else None)
      else if n < INT64_LIMIT then Some(n) else None
  }

  /** The characters fmt's scanner counts as space. */
  predicate IsSpace(c: char) {
    var x := c as int;
    || 0x09 <= x <= 0x0d || x == 0x20 || x == 0x85 || x == 0xa0 || x == 0x1680
    || 0x2000 <= x <= 0x200a || x == 0x2028 || x == 0x2029 || x == 0x202f || x == 0x205f || x == 0x3000
  }

  /** Space before a verb is skipped; a newline there is an error. */
  function SkipSpace(s: string): Option<string> {
    if s == "" then Some("")
    else if s[0] == '\n' then None
    else if IsSpace(s[0]) then SkipSpace(s[1..])
    else Some(s)
  }

  function DigitCount(s: string): (n: nat)
    ensures n <= |s| && AllDigits(s[..n])
    ensures n < |s| ==> !IsDigit(s[n])
  {
    if s == "" || !IsDigit(s[0]) then 0 else 1 + DigitCount(s[1..])
  }

  /** The %d verb into an unsigned variable of the given width: value and unread input. */
  function ScanUint(s: string, limit: int): Option<(nat, string)> {
    var t := SkipSpace(s);
    if t.None? then None
    else
      var n := DigitCount(t.value);
      if n == 0 then None
      else
        var v := Denote(t.value[..n]);
        if v < UINT64_LIMIT && v < limit then Some((v, t.value[n..])) else None
  }

  /** A literal stretch of the format. */
  function ScanLiteral(s: string, literal: string): Option<string> {
    if literal <= s then Some(s[|literal|..]) else None
  }

  lemma {:induction false} PrintDenotes(n: nat)
    ensures AllDigits(Print(n)) && Denote(Print(n)) == n
  {
    if n >= 10 {
      PrintDenotes(n / 10);
      var s := Print(n);
      assert s[..|s| - 1] == Print(n / 10);
    }
  }

  /** Atoi reads back every integer of 64 bits that %d prints, and nothing wider. */
  lemma AtoiOfPrint(i: int)
    ensures Atoi(PrintInt(i)) == if -INT64_LIMIT <= i < INT64_LIMIT then Some(i) else None
  {
    var s, digits := PrintInt(i), Print(if i < 0 then -i else i);
    PrintDenotes(if i < 0 then -i else i);
    assert IsDigit(digits[0]);
    assert i < 0 ==> s[0] == '-' && s[1..] == digits;
  }

  /** Every string Atoi takes is one of digits, plus and digits, or minus and digits, with a value that
      fits 64 bits; every other is an error. */
  lemma AtoiShapes(s: string, d: string)
    requires d != "" && AllDigits(d)
    ensures
      var n: int := Denote(d);
      && Atoi(d) == Atoi("+" + d) == (if n < 0x8000_0000_0000_0000 then Some(n) else None)
      && Atoi("-" + d) == (if n <= 0x8000_0000_0000_0000 then Some(-n) else None)
    ensures Atoi(s).Some? ==>
      s != "" && ((AllDigits(s)) || ((s[0] == '+' || s[0] == '-') && s[1..] != "" && AllDigits(s[1..])))
  {
    assert IsDigit(d[0]);
    assert ("+" + d)[1..] == d && ("-" + d)[1..] == d;
  }

  /** The %d verb skips spaces and tabs, and refuses a newline. */
  lemma {:induction false} ScanSkipsSpace(spaces: string, s: string, limit: int)
    requires forall i :: 0 <= i < |spaces| ==> spaces[i] == ' ' || spaces[i] == '\t'
    ensures ScanUint(spaces + s, limit) == ScanUint(s, limit)
    ensures ScanUint(spaces + "\n" + s, limit) == None
  {
    SkipsSpace(spaces, s);
    SkipsSpace(spaces, "\n" + s);
    assert spaces + "\n" + s == spaces + ("\n" + s);
  }

  lemma {:induction false} SkipsSpace(spaces: string, s: string)
    requires forall i :: 0 <= i < |spaces| ==> spaces[i] == ' ' || spaces[i] == '\t'
    ensures SkipSpace(spaces + s) == SkipSpace(s)
  {
    if spaces == "" {
      assert spaces + s == s;
    } else {
      assert spaces[0] == ' ' || spaces[0] == '\t';
      assert (spaces + s)[1..] == spaces[1..] + s;
      SkipsSpace(spaces[1..], s);
    }
  }

  lemma {:induction false} DigitCountOfPrefix(d: string, rest: string)
    requires AllDigits(d) && (rest == "" || !IsDigit(rest[0]))
    ensures DigitCount(d + rest) == |d|
  {
    if d == "" {
      assert d + rest == rest;
    } else {
      assert (d + rest)[1..] == d[1..] + rest;
      DigitCountOfPrefix(d[1..], rest);
    }
  }

  lemma LiteralThenRest(literal: string, rest: string)
    ensures ScanLiteral(literal + rest, literal) == Some(rest)
  {
  }

  /** The %d verb reads back a printed number that fits, and stops right after it; one that does not fit
      is an error. */
  lemma ScanOfPrint(n: nat, rest: string, limit: int)
    requires rest == "" || !IsDigit(rest[0])
    ensures ScanUint(Print(n) + rest, limit)
            == if n < limit && n < 0x1_0000_0000_0000_0000 then Some((n, rest)) else None
  {
    PrintDenotes(n);
    var s := Print(n) + rest;
    assert s[0] == Print(n)[0] && IsDigit(s[0]);
    DigitCountOfPrefix(Print(n), rest);
    assert s[..|Print(n)|] == Print(n) && s[|Print(n)|..] == rest;
  }
}

/** strings.Split on the separator '$'. */
module Splitting {

  function Split(s: string): (parts: seq<string>)
    ensures |parts| >= 1
  {
    if s == "" then [""]
    else
      var rest := Split(s[1..]);
      if s[0] == '$' then [""] + rest else [[s[0]] + rest[0]] + rest[1..]
  }

  function Join(parts: seq<string>): string
    requires |parts| >= 1
  {
    if |parts| == 1 then parts[0] else parts[0] + "$" + Join(parts[1..])
  }

  lemma {:induction false} SplitOff(a: string, rest: string)
    requires '$' !in a
    ensures Split(a + "$" + rest) == [a] + Split(rest)
  {
    var s := a + "$" + rest;
    if a == "" {
      assert s[1..] == rest;
    } else {
      assert s[1..] == a[1..] + "$" + rest;
      SplitOff(a[1..], rest);
      assert a == [a[0]] + a[1..];
    }
  }

  lemma {:induction false} SplitLast(a: string)
    requires '$' !in a
    ensures Split(a) == [a]
  {
    if a != "" {
      SplitLast(a[1..]);
      assert a == [a[0]] + a[1..];
    }
  }

  /** Joining the parts gives the text back, and no part holds a separator. */
  lemma {:induction false} JoinUndoesSplit(s: string)
    ensures Join(Split(s)) == s
    ensures forall i :: 0 <= i < |Split(s)| ==> '$' !in Split(s)[i]
  {
    if s != "" {
      var rest := Split(s[1..]);
      JoinUndoesSplit(s[1..]);
      assert s == [s[0]] + s[1..];
      if s[0] == '$' {
        assert ([""] + rest)[1..] == rest;
      } else {
        JoinPrepends(s[0], rest);
      }
    }
  }

  lemma {:induction false} JoinPrepends(c: char, parts: seq<string>)
    requires |parts| >= 1
    ensures Join([[c] + parts[0]] + parts[1..]) == [c] + Join(parts)
  {
    var longer := [[c] + parts[0]] + parts[1..];
    if |parts| > 1 {
      assert longer[1..] == parts[1..];
    }
  }

  /** No other list of parts does both. */
  lemma {:induction false} SplitUndoesJoin(parts: seq<string>)
    requires |parts| >= 1 && forall i :: 0 <= i < |parts| ==> '$' !in parts[i]
    ensures Split(Join(parts)) == parts
  {
    if |parts| == 1 {
      SplitLast(parts[0]);
    } else {
      SplitUndoesJoin(parts[1..]);
      SplitOff(parts[0], Join(parts[1..]));
    }
  }
}

/** The PHC string of pkg/hash: printer, parser and password check. Argon2id (section 3.1 of
    RFC 9106) is the parameter `idKey`. */
module Phc {
  import opened Common
  import Base64
  import opened Numerals
  import opened Splitting

  const ALG_VERSION := 0x13
  const TIME_COST := 2
  const MEMORY_COST := 64 * 1024
  const THREADS := 1
  const LEN := 32

  /** password, salt, time, memory, threads, keyLen */
  type KeyFunction = (Bytes, Bytes, nat, nat, nat, nat) -> Bytes

  datatype Verdict =
    | Accepted
    | WrongPassword
    | BadVersion
    | VersionMismatch(have: int)
    | BadParameters
    | BadSalt
    | BadHash
    | IndexPanic

  /** The third field of the format: m=%d,t=%d,p=%d. */
  function ParameterText(timeCost: nat, memoryCost: nat, threads: nat): string {
    "m=" + (Print(memoryCost) + (",t=" + (Print(timeCost) + (",p=" + Print(threads)))))
  }

  function Dollar(before: string, after: string): string {
    before + "$" + after
  }

  /** The format $argon2id$v=%d$m=%d,t=%d,p=%d$%s$%s. */
  function GeneratePhc(passwordHash: Bytes, salt: Bytes, version: int,
                       timeCost: nat, memoryCost: nat, threads: nat): string
  {
    Dollar("", Dollar("argon2id", Dollar("v=" + PrintInt(version),
      Dollar(ParameterText(timeCost, memoryCost, threads), Dollar(Base64.Encode(salt), Base64.Encode(passwordHash))))))
  }

  /** The printed string for a password and a random salt. The cost arguments are passed in the
      order memory, time, although the printer takes time first. */
  function GenerateFromPassword(idKey: KeyFunction, password: Bytes, salt: Bytes): string {
    var hash := idKey(password, salt, TIME_COST, MEMORY_COST, THREADS, LEN);
    GeneratePhc(hash, salt, ALG_VERSION, MEMORY_COST, TIME_COST, THREADS)
  }

  function TrimPrefix(s: string, prefix: string): string {
    if prefix <= s then s[|prefix|..] else s
  }

  /** fmt.Sscanf(params, "m=%d,t=%d,p=%d", &mCost, &tCost, &threadCount); input after the last
      number is left unread. */
  function ScanParameters(s: string): Option<(nat, nat, nat)> {
    var s1 := ScanLiteral(s, "m=");
    if s1.None? then None else
    var m := ScanUint(s1.value, UINT32_LIMIT);
    if m.None? then None else
    var s2 := ScanLiteral(m.value.1, ",t=");
    if s2.None? then None else
    var t := ScanUint(s2.value, UINT32_LIMIT);
    if t.None? then None else
    var s3 := ScanLiteral(t.value.1, ",p=");
    if s3.None? then None else
    var p := ScanUint(s3.value, UINT8_LIMIT);
    if p.None? then None else Some((m.value.0, t.value.0, p.value.0))
  }

  function CompareHashAndPassword(idKey: KeyFunction, phc: string, password: Bytes): Verdict {
    CompareParts(idKey, Split(phc), password)
  }

  function CompareParts(idKey: KeyFunction, parts: seq<string>, password: Bytes): Verdict {
    if |parts| <= 2 then IndexPanic else
    var version := Atoi(TrimPrefix(parts[2], "v="));
    if version.None? then BadVersion
    else if version.value != ALG_VERSION then VersionMismatch(version.value)
    else if |parts| <= 5 then IndexPanic else
    var params := ScanParameters(parts[3]);
    if params.None? then BadParameters else
    var (mCost, tCost, threadCount) := params.value;
    var salt := Base64.Decode(parts[4]);
    if salt.None? then BadSalt else
    var hash := Base64.Decode(parts[5]);
    if hash.None? then BadHash else
    var computed := idKey(password, salt.value, tCost, mCost, threadCount, |hash.value| % UINT32_LIMIT);
    if computed == hash.value then Accepted else WrongPassword
  }

  // ---- Printing then parsing ----

  /** Costs of 32 bits and a thread count of 8. */
  predicate Fit(timeCost: nat, memoryCost: nat, threads: nat) {
    timeCost < 0x1_0000_0000 && memoryCost < 0x1_0000_0000 && threads < 0x100
  }

  /** The costs are read back exactly if they fit, whatever follows the last number. */
  lemma ParametersRoundTrip(timeCost: nat, memoryCost: nat, threads: nat, rest: string)
    requires rest == "" || !IsDigit(rest[0])
    ensures ScanParameters(ParameterText(timeCost, memoryCost, threads) + rest)
            == if Fit(timeCost, memoryCost, threads) then Some((memoryCost, timeCost, threads)) else None
  {
    var r3 := Print(threads) + rest;
    var r2 := Print(timeCost) + (",p=" + r3);
    var r1 := Print(memoryCost) + (",t=" + r2);
    assert ParameterText(timeCost, memoryCost, threads) + rest == "m=" + r1;
    LiteralThenRest("m=", r1);
    ScanOfPrint(memoryCost, ",t=" + r2, UINT32_LIMIT);
    LiteralThenRest(",t=", r2);
    ScanOfPrint(timeCost, ",p=" + r3, UINT32_LIMIT);
    LiteralThenRest(",p=", r3);
    ScanOfPrint(threads, rest, UINT8_LIMIT);
  }

  lemma ParametersReadBack(t: nat, m: nat, p: nat)
    ensures ScanParameters(ParameterText(t, m, p)) == if Fit(t, m, p) then Some((m, t, p)) else None
  {
    hide ScanParameters, ParameterText;
    ParametersRoundTrip(t, m, p, "");
    assert ParameterText(t, m, p) + "" == ParameterText(t, m, p);
  }

  lemma NoDollarInPrint(n: nat)
    ensures '$' !in Print(n)
  {
  }

  lemma NoDollarInParameters(t: nat, m: nat, p: nat)
    ensures '$' !in ParameterText(t, m, p)
  {
    NoDollarInPrint(t);
    NoDollarInPrint(m);
    NoDollarInPrint(p);
  }

  lemma NoDollarInBase64(b: Bytes)
    ensures '$' !in Base64.Encode(b)
  {
  }

  lemma TrimVersion(v: int)
    ensures TrimPrefix("v=" + PrintInt(v), "v=") == PrintInt(v)
  {
  }

  lemma SplitFive(a: string, b: string, c: string, d: string, e: string)
    requires '$' !in a && '$' !in b && '$' !in c && '$' !in d && '$' !in e
    ensures Split(Dollar("", Dollar(a, Dollar(b, Dollar(c, Dollar(d, e)))))) == ["", a, b, c, d, e]
  {
    SplitOff("", Dollar(a, Dollar(b, Dollar(c, Dollar(d, e)))));
    SplitOff(a, Dollar(b, Dollar(c, Dollar(d, e))));
    SplitOff(b, Dollar(c, Dollar(d, e)));
    SplitOff(c, Dollar(d, e));
    SplitOff(d, e);
    SplitLast(e);
  }

  /** The printed PHC splits into exactly six parts, each holding its own field. */
  lemma PhcSplits(h: Bytes, s: Bytes, v: int, t: nat, m: nat, p: nat)
    ensures Split(GeneratePhc(h, s, v, t, m, p))
         == ["", "argon2id", "v=" + PrintInt(v), ParameterText(t, m, p), Base64.Encode(s), Base64.Encode(h)]
  {
    NoDollarInPrint(if v < 0 then -v else v);
    NoDollarInParameters(t, m, p);
    NoDollarInBase64(s);
    NoDollarInBase64(h);
    SplitFive("argon2id", "v=" + PrintInt(v), ParameterText(t, m, p), Base64.Encode(s), Base64.Encode(h));
  }

  predicate Int64(v: int) {
    -0x8000_0000_0000_0000 <= v < 0x8000_0000_0000_0000
  }

  /** What the check is to say of a printed string. */
  function Expected(idKey: KeyFunction, h: Bytes, s: Bytes, v: int, t: nat, m: nat, p: nat, password: Bytes): Verdict {
    if !Int64(v) then BadVersion
    else if v != 19 then VersionMismatch(v)
    else if !Fit(t, m, p) then BadParameters
    else if idKey(password, s, t, m, p, |h| % 0x1_0000_0000) == h then Accepted
    else WrongPassword
  }

  lemma CompareOfFields(idKey: KeyFunction, parts: seq<string>, h: Bytes, s: Bytes, v: int, t: nat, m: nat, p: nat,
                        password: Bytes)
    requires |parts| == 6
    requires Atoi(TrimPrefix(parts[2], "v=")) == if Int64(v) then Some(v) else None
    requires ScanParameters(parts[3]) == if Fit(t, m, p) then Some((m, t, p)) else None
    requires Base64.Decode(parts[4]) == Some(s) && Base64.Decode(parts[5]) == Some(h)
    ensures CompareParts(idKey, parts, password) == Expected(idKey, h, s, v, t, m, p, password)
  {
  }

  /** The whole check on every printed string: for the supported version and costs that fit it accepts a
      password exactly when the key derived from the printed salt and costs is the printed hash; any
      other 64-bit version is reported, and wider ones and costs that do not fit are errors. */
  lemma CompareOfGenerated(idKey: KeyFunction, h: Bytes, s: Bytes, v: int, t: nat, m: nat, p: nat, password: Bytes)
    ensures CompareHashAndPassword(idKey, GeneratePhc(h, s, v, t, m, p), password)
            == Expected(idKey, h, s, v, t, m, p, password)
  {
    hide ScanParameters, ParameterText, GeneratePhc, Split, Atoi, CompareParts, Expected;
    PhcSplits(h, s, v, t, m, p);
    TrimVersion(v);
    AtoiOfPrint(v);
    ParametersReadBack(t, m, p);
    Base64.RoundTrip(s);
    Base64.RoundTrip(h);
    CompareOfFields(idKey, Split(GeneratePhc(h, s, v, t, m, p)), h, s, v, t, m, p, password);
  }

  /** The printer is injective: two settings with one printed form are one setting. */
  lemma GeneratedIsInjective(h: Bytes, s: Bytes, v: int, t: nat, m: nat, p: nat,
                             h': Bytes, s': Bytes, v': int, t': nat, m': nat, p': nat)
    requires t < UINT32_LIMIT && m < UINT32_LIMIT && p < UINT8_LIMIT && -INT64_LIMIT <= v < INT64_LIMIT
    requires t' < UINT32_LIMIT && m' < UINT32_LIMIT && p' < UINT8_LIMIT && -INT64_LIMIT <= v' < INT64_LIMIT
    requires GeneratePhc(h, s, v, t, m, p) == GeneratePhc(h', s', v', t', m', p')
    ensures (h, s, v, t, m, p) == (h', s', v', t', m', p')
  {
    PhcSplits(h, s, v, t, m, p);
    PhcSplits(h', s', v', t', m', p');
    TrimVersion(v);
    TrimVersion(v');
    AtoiOfPrint(v);
    AtoiOfPrint(v');
    ParametersReadBack(t, m, p);
    ParametersReadBack(t', m', p');
    Base64.RoundTrip(s);
    Base64.RoundTrip(s');
    Base64.RoundTrip(h);
    Base64.RoundTrip(h');
  }

  // ---- Strings that were not printed ----

  /** Exactly when the check runs past the end of the parts, although it could report an error: with
      fewer than three parts, or with a right version and fewer than six. */
  lemma PanicsIff(idKey: KeyFunction, phc: string, password: Bytes)
    ensures CompareHashAndPassword(idKey, phc, password) == IndexPanic
            <==> var parts := Split(phc);
                 |parts| < 3 || (|parts| < 6 && Atoi(TrimPrefix(parts[2], "v=")) == Some(19))
  {
    hide Split, Atoi, TrimPrefix, ScanParameters, Base64.Decode;
  }

  /** For instance on a string without any separator. */
  lemma PlainTextPanics(idKey: KeyFunction, phc: string, password: Bytes)
    requires '$' !in phc
    ensures CompareHashAndPassword(idKey, phc, password) == IndexPanic
  {
    SplitLast(phc);
  }

  /** Whatever is accepted has version 19, readable costs, and a hash that is the key derived from its
      salt and costs; each other verdict has its own cause, in the order of the fields. */
  lemma VerdictsMean(idKey: KeyFunction, phc: string, password: Bytes)
    ensures
      var parts := Split(phc);
      match CompareHashAndPassword(idKey, phc, password)
      case Accepted => |parts| >= 6 && HashMatches(idKey, parts, password, true)
      case WrongPassword => |parts| >= 6 && HashMatches(idKey, parts, password, false)
      case BadVersion => |parts| >= 3 && Atoi(TrimPrefix(parts[2], "v=")).None?
      case VersionMismatch(v) => |parts| >= 3 && v != 19 && Atoi(TrimPrefix(parts[2], "v=")) == Some(v)
      case BadParameters => |parts| >= 6 && ScanParameters(parts[3]).None?
      case BadSalt => |parts| >= 6 && ScanParameters(parts[3]).Some? && !Base64.Decodable(parts[4])
      case BadHash => |parts| >= 6 && Base64.Decodable(parts[4]) && !Base64.Decodable(parts[5])
      case IndexPanic => |parts| < 6
  {
    hide Split, Atoi, TrimPrefix, ScanParameters, Base64.Decode, Base64.Decodable;
    var parts := Split(phc);
    if |parts| >= 6 {
      Base64.DecoderAcceptance(parts[4]);
      Base64.DecoderAcceptance(parts[5]);
    }
  }

  /** The fields are all readable, and the key derived from them is the hash, or is not. */
  predicate HashMatches(idKey: KeyFunction, parts: seq<string>, password: Bytes, same: bool)
    requires |parts| >= 6
  {
    && Atoi(TrimPrefix(parts[2], "v=")) == Some(19) && ScanParameters(parts[3]).Some?
    && Base64.Decode(parts[4]).Some? && Base64.Decode(parts[5]).Some?
    && var (m, t, p) := ScanParameters(parts[3]).value;
       var salt, hash := Base64.Decode(parts[4]).value, Base64.Decode(parts[5]).value;
       (idKey(password, salt, t, m, p, |hash| % 0x1_0000_0000) == hash) == same
  }

  // ---- Registering then logging in ----

  /** What is stored for a new user, field by field. */
  lemma GeneratedText(idKey: KeyFunction, password: Bytes, salt: Bytes)
    ensures Split(GenerateFromPassword(idKey, password, salt))
            == ["", "argon2id", "v=19", "m=2,t=65536,p=1",
                Base64.Encode(salt), Base64.Encode(idKey(password, salt, 2, 65536, 1, 32))]
  {
    DefaultFields();
    hide ParameterText, PrintInt, GeneratePhc, Split;
    PhcSplits(idKey(password, salt, 2, 65536, 1, 32), salt, 19, 65536, 2, 1);
  }

  lemma DefaultFields()
    ensures "v=" + PrintInt(19) == "v=19" && ParameterText(65536, 2, 1) == "m=2,t=65536,p=1"
  {
    PrintedCosts();
    assert Print(19) == Print(1) + "9";
    hide Print;
    var tail := ",p=" + Print(1);
    assert tail == ",p=1";
    assert ",t=" + (Print(65536) + tail) == ",t=65536,p=1";
  }

  lemma PrintedCosts()
    ensures Print(2) == "2" && Print(1) == "1" && Print(65536) == "65536"
  {
    assert Print(65) == Print(6) + "5";
    assert Print(655) == Print(65) + "5";
    assert Print(6553) == Print(655) + "3";
    assert Print(65536) == Print(6553) + "6";
  }

  /** What a freshly registered user meets at login. Because the costs are swapped when the
      string is printed, the right password is accepted exactly when the key derivation gives
      one key under both orders of the costs. */
  lemma LoginAfterRegistration(idKey: KeyFunction, password: Bytes, salt: Bytes, attempt: Bytes)
    requires |idKey(password, salt, 2, 65536, 1, 32)| == 32
    ensures
      CompareHashAndPassword(idKey, GenerateFromPassword(idKey, password, salt), attempt) == Accepted
      <==>
      idKey(attempt, salt, 65536, 2, 1, 32) == idKey(password, salt, 2, 65536, 1, 32)
  {
    CompareOfGenerated(idKey, idKey(password, salt, TIME_COST, MEMORY_COST, THREADS, LEN), salt,
                       ALG_VERSION, MEMORY_COST, TIME_COST, THREADS, attempt);
  }

  /** A key function whose output shows the time cost it was given. */
  function OrderSensitive(password: Bytes, salt: Bytes, time: nat, memory: nat, threads: nat, keyLen: nat): Bytes {
    seq(keyLen, i => if time == TIME_COST then 1 else 2)
  }

  /** A key function that tells the two orders apart locks the user out. */
  lemma SwappedCostsLockOut(password: Bytes, salt: Bytes)
    ensures CompareHashAndPassword(OrderSensitive, GenerateFromPassword(OrderSensitive, password, salt), password)
            == WrongPassword
  {
    var h := OrderSensitive(password, salt, TIME_COST, MEMORY_COST, THREADS, LEN);
    var g := OrderSensitive(password, salt, MEMORY_COST, TIME_COST, THREADS, LEN);
    assert h[0] == 1 && g[0] == 2;
    CompareOfGenerated(OrderSensitive, h, salt, ALG_VERSION, MEMORY_COST, TIME_COST, THREADS, password);
  }
}

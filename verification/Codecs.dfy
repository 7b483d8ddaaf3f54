/** Positional digits in the bases that the text forms use. */
module Digits {
  import opened Common

  predicate Base(b: nat) {
    b == 10 || b == 16 || b == 32
  }

  predicate DigitsOf(s: seq<nat>, b: nat) {
    forall d :: d in s ==> d < b
  }

  function Value(s: seq<nat>, b: nat): nat {
    if s == [] then 0 else Value(s[..|s| - 1], b) * b + s[|s| - 1]
  }

  /** Exactly `width` digits, most significant first. */
  function Fixed(n: nat, b: nat, width: nat): (s: seq<nat>)
    requires Base(b)
    ensures |s| == width && DigitsOf(s, b)
  {
    if width == 0 then [] else Fixed(n / b, b, width - 1) + [n % b]
  }

  function Pow(b: nat, k: nat): nat {
    if k == 0 then 1 else Pow(b, k - 1) * b
  }

  lemma DivMod(q: nat, r: nat, b: nat)
    requires Base(b) && r < b
    ensures (q * b + r) / b == q && (q * b + r) % b == r
  {
    if b == 10 {
      assert (q * 10 + r) / 10 == q;
    } else if b == 16 {
      assert (q * 16 + r) / 16 == q;
    } else {
      assert (q * 32 + r) / 32 == q;
    }
  }

  lemma {:induction false} FixedOfValue(s: seq<nat>, b: nat)
    requires Base(b) && DigitsOf(s, b)
    ensures Fixed(Value(s, b), b, |s|) == s
  {
    if s != [] {
      var init, d := s[..|s| - 1], s[|s| - 1];
      assert d in s && forall x :: x in init ==> x in s;
      FixedOfValue(init, b);
      DivMod(Value(init, b), d, b);
    }
  }

  lemma {:induction false} ValueOfFixed(n: nat, b: nat, width: nat)
    requires Base(b) && n < Pow(b, width)
    ensures Value(Fixed(n, b, width), b) == n
  {
    if width > 0 {
      QuotientFits(n, b, Pow(b, width - 1));
      ValueOfFixed(n / b, b, width - 1);
      Split(n, b);
    }
  }

  lemma Split(n: nat, b: nat)
    requires Base(b)
    ensures n / b * b + n % b == n && n % b < b
  {
    if b == 10 {
      assert n / 10 * 10 + n % 10 == n;
    } else if b == 16 {
      assert n / 16 * 16 + n % 16 == n;
    } else {
      assert n / 32 * 32 + n % 32 == n;
    }
  }

  lemma QuotientFits(n: nat, b: nat, p: nat)
    requires Base(b) && n < p * b
    ensures n / b < p
  {
    Split(n, b);
    if n / b >= p {
      MulMonotone(p, n / b, b);
    }
  }

  lemma MulMonotone(x: nat, y: nat, b: nat)
    requires x <= y
    ensures x * b <= y * b
  {
  }

  lemma {:induction false} ValueFits(s: seq<nat>, b: nat)
    requires Base(b) && DigitsOf(s, b)
    ensures Value(s, b) < Pow(b, |s|)
  {
    if s != [] {
      var init, d := s[..|s| - 1], s[|s| - 1];
      assert d in s && forall x :: x in init ==> x in s;
      ValueFits(init, b);
      MulMonotone(Value(init, b) + 1, Pow(b, |s| - 1), b);
      assert (Value(init, b) + 1) * b == Value(init, b) * b + b;
    }
  }
}

/** The text forms of IDs, digests and logical integers, and the names of sealed files. */
module Codecs {
  import opened Common
  import opened Digits

  // ------------------------------------------------------------------- IDs

  const ID_LENGTH: nat := 26

  /** 128-bit values; 0 is no ID. */
  const ID_LIMIT: nat := 0x1_0000_0000_0000_0000_0000_0000_0000_0000

  /** The alphabet 0123456789ABCDEFGHJKMNPQRSTVWXYZ. */
  function Crockford(d: nat): char
    requires d < 32
  {
    if d < 10 then '0' + d as char
    else if d < 18 then 'A' + (d - 10) as char
    else if d < 20 then 'J' + (d - 18) as char
    else if d < 22 then 'M' + (d - 20) as char
    else if d < 27 then 'P' + (d - 22) as char
    else 'V' + (d - 27) as char
  }

  function FromCrockford(c: char): (d: Option<nat>)
    ensures d.Some? ==> d.value < 32
  {
    if '0' <= c <= '9' then Some((c - '0') as nat)
    else if 'A' <= c <= 'H' then Some(10 + (c - 'A') as nat)
    else if 'J' <= c <= 'K' then Some(18 + (c - 'J') as nat)
    else if 'M' <= c <= 'N' then Some(20 + (c - 'M') as nat)
    else if 'P' <= c <= 'T' then Some(22 + (c - 'P') as nat)
    else if 'V' <= c <= 'Z' then Some(27 + (c - 'V') as nat)
    else None
  }

  lemma CrockfordRoundTrip(d: nat, c: char)
    ensures d < 32 ==> FromCrockford(Crockford(d)) == Some(d) && Crockford(d) != ':'
    ensures FromCrockford(c).Some? ==> Crockford(FromCrockford(c).value) == c
  {
  }

  function Spell(s: seq<nat>): (t: string)
    requires DigitsOf(s, 32)
    ensures |t| == |s|
  {
    seq(|s|, i requires 0 <= i < |s| => assert s[i] in s; Crockford(s[i]))
  }

  function Unspell(t: string): (s: seq<nat>)
    requires forall c :: c in t ==> FromCrockford(c).Some?
    ensures |s| == |t| && forall i :: 0 <= i < |t| ==> s[i] == FromCrockford(t[i]).value
  {
    seq(|t|, i requires 0 <= i < |t| => FromCrockford(t[i]).value)
  }

  function IdText(id: nat): (t: string)
    ensures |t| == ID_LENGTH
  {
    Spell(Fixed(id, 32, ID_LENGTH))
  }

  /** The canonical texts: 26 alphabet characters, the first at most 7, not all zero. */
  predicate CanonicalId(t: string) {
    && |t| == ID_LENGTH && (forall c :: c in t ==> FromCrockford(c).Some?)
    && FromCrockford(t[0]).value <= 7 && Value(Unspell(t), 32) != 0
  }

  method ParseId(t: string) returns (id: Option<nat>)
    ensures id.Some? <==> CanonicalId(t)
    ensures id.Some? ==> id.value == Value(Unspell(t), 32)
  {
    if |t| != ID_LENGTH {
      return None;
    }
    var first := FromCrockford(t[0]);
    if first.None? || first.value > 7 {
      assert t[0] in t;
      return None;
    }
    var i := 0;
    while i < |t|
      invariant 0 <= i <= |t|
      invariant forall k :: 0 <= k < i ==> FromCrockford(t[k]).Some?
    {
      if FromCrockford(t[i]).None? {
        assert t[i] in t;
        return None;
      }
      i := i + 1;
    }
    var value := Value(Unspell(t), 32);
    return if value == 0 then None else Some(value);
  }

  lemma ShiftBounds(x: nat, p: nat, v: nat, d: nat)
    requires x * p <= v < (x + 1) * p && d < 32
    ensures x * (p * 32) <= v * 32 + d < (x + 1) * (p * 32)
  {
    var low, high := x * p, (x + 1) * p;
    assert x * (p * 32) == low * 32;
    assert (x + 1) * (p * 32) == high * 32;
  }

  /** The first of several digits bounds the value from both sides. */
  lemma {:induction false} FirstDigitLimits(s: seq<nat>)
    requires |s| > 0 && DigitsOf(s, 32)
    ensures s[0] * Pow(32, |s| - 1) <= Value(s, 32) < (s[0] + 1) * Pow(32, |s| - 1)
  {
    var init, d := s[..|s| - 1], s[|s| - 1];
    assert d in s && forall x :: x in init ==> x in s;
    if |s| > 1 {
      FirstDigitLimits(init);
      ShiftBounds(s[0], Pow(32, |s| - 2), Value(init, 32), d);
    } else {
      assert init == [] && Pow(32, 0) == 1;
    }
  }

  lemma Pow25()
    ensures Pow(32, 25) == 0x2000_0000_0000_0000_0000_0000_0000_0000
    ensures Pow(32, 26) == 4 * ID_LIMIT
  {
    assert Pow(32, 5) == 0x200_0000;
    assert Pow(32, 10) == 0x4_0000_0000_0000;
    assert Pow(32, 15) == 0x800_0000_0000_0000_0000;
    assert Pow(32, 20) == 0x10_0000_0000_0000_0000_0000_0000;
  }

  /** Every 128-bit value but zero has a canonical text, which reads back as that value. */
  lemma IdTextRoundTrip(id: nat)
    requires 0 < id < ID_LIMIT
    ensures CanonicalId(IdText(id)) && Value(Unspell(IdText(id)), 32) == id
    ensures ':' !in IdText(id)
  {
    var s := Fixed(id, 32, ID_LENGTH);
    Pow25();
    ValueOfFixed(id, 32, ID_LENGTH);
    forall i | 0 <= i < ID_LENGTH
      ensures FromCrockford(IdText(id)[i]) == Some(s[i]) && IdText(id)[i] != ':'
    {
      assert s[i] in s;
      CrockfordRoundTrip(s[i], 'A');
    }
    assert Unspell(IdText(id)) == s;
    FirstDigitLimits(s);
  }

  /** Every accepted text is the text of the 128-bit value it reads as. */
  lemma CanonicalIdRoundTrip(t: string)
    requires CanonicalId(t)
    ensures 0 < Value(Unspell(t), 32) < ID_LIMIT && IdText(Value(Unspell(t), 32)) == t
  {
    var s := Unspell(t);
    forall i | 0 <= i < |t|
      ensures s[i] < 32 && Crockford(s[i]) == t[i]
    {
      assert t[i] in t;
      CrockfordRoundTrip(0, t[i]);
    }
    FixedOfValue(s, 32);
    FirstDigitLimits(s);
    Pow25();
    MulMonotone(s[0] + 1, 8, Pow(32, 25));
    assert t == Spell(s);
  }

  // ------------------------------------------------------ logical integers

  predicate IsDigit(c: char) {
    '0' <= c <= '9'
  }

  predicate AllDigits(s: string) {
    forall c :: c in s ==> IsDigit(c)
  }

  function NatText(n: nat): string {
    if n < 10 then ['0' + n as char] else NatText(n / 10) + ['0' + (n % 10) as char]
  }

  function NatValue(s: string): nat
    requires AllDigits(s)
  {
    if s == [] then 0
    else
      assert s[|s| - 1] in s && forall c :: c in s[..|s| - 1] ==> c in s;
      NatValue(s[..|s| - 1]) * 10 + (s[|s| - 1] - '0') as nat
  }

  function FormatInt(v: int): string {
    if v < 0 then "-" + NatText(-v) else NatText(v)
  }

  function Unsigned(s: string): string {
    if s != "" && s[0] == '-' then s[1..] else s
  }

  predicate CanonicalDecimal(s: string) {
    s == "0" || (Unsigned(s) != "" && '1' <= Unsigned(s)[0] <= '9' && AllDigits(Unsigned(s)))
  }

  method IsCanonicalDecimal(s: string) returns (canonical: bool)
    ensures canonical <==> CanonicalDecimal(s)
  {
    if s == "0" {
      return true;
    }
    if s == "" {
      return false;
    }
    var start := 0;
    if s[0] == '-' {
      if |s| == 1 {
        return false;
      }
      start := 1;
    }
    assert Unsigned(s) == s[start..];
    if s[start] < '1' || s[start] > '9' {
      return false;
    }
    var i := start + 1;
    while i < |s|
      invariant start + 1 <= i <= |s|
      invariant forall k :: start <= k < i ==> IsDigit(s[k])
    {
      if s[i] < '0' || s[i] > '9' {
        assert Unsigned(s)[i - start] == s[i] && s[i] in Unsigned(s);
        return false;
      }
      i := i + 1;
    }
    assert AllDigits(s[start..]);
    return true;
  }

  /** `strconv.ParseInt` on a canonical decimal, then the range of the logical type. */
  function DecodeInteger(s: string, minimum: Int64, maximum: Int64): Option<int> {
    if !CanonicalDecimal(s) then None
    else
      assert s == "0" ==> Unsigned(s) == "0";
      var magnitude: int := NatValue(Unsigned(s));
      var v: int := if s[0] == '-' then -magnitude else magnitude;
      if MIN_INT64 <= v <= MAX_INT64 && minimum <= v <= maximum then Some(v) else None
  }

  lemma {:induction false} NatTextRoundTrip(n: nat)
    ensures NatText(n) != "" && AllDigits(NatText(n)) && NatValue(NatText(n)) == n
    ensures n > 0 ==> NatText(n)[0] != '0'
    ensures NatText(n)[0] != '-' && ':' !in NatText(n)
  {
    if n >= 10 {
      NatTextRoundTrip(n / 10);
      var init := NatText(n / 10);
      assert NatText(n)[..|init|] == init;
    } else {
      assert NatText(n)[..0] == "";
    }
  }

  lemma NatTextSnoc(q: nat, c: char)
    requires q > 0 && IsDigit(c)
    ensures NatText(q * 10 + (c - '0') as nat) == NatText(q) + [c]
  {
    DivMod(q, (c - '0') as nat, 10);
  }

  lemma {:induction false} NatValueRoundTrip(s: string)
    requires s != "" && AllDigits(s) && s[0] != '0'
    ensures NatText(NatValue(s)) == s && NatValue(s) > 0
  {
    var init, c := s[..|s| - 1], s[|s| - 1];
    assert c in s && s[0] in s && forall x :: x in init ==> x in s;
    assert NatValue(s) == NatValue(init) * 10 + (c - '0') as nat;
    if init == "" {
      assert s == [c];
    } else {
      NatValueRoundTrip(init);
      NatTextSnoc(NatValue(init), c);
      assert s == init + [c];
    }
  }

  lemma EncodingDecodes(v: int)
    ensures CanonicalDecimal(FormatInt(v)) && AllDigits(Unsigned(FormatInt(v)))
    ensures NatValue(Unsigned(FormatInt(v))) == if v < 0 then -v else v
    ensures FormatInt(v)[0] == '-' <==> v < 0
  {
    var n: nat := if v < 0 then -v else v;
    NatTextRoundTrip(n);
    assert Unsigned(FormatInt(v)) == NatText(n);
    assert NatText(n)[0] in NatText(n);
    hide NatText, NatValue;
    if v == 0 {
      assert FormatInt(v) == NatText(0) == "0" by {
        ZeroText();
      }
    }
  }

  lemma ZeroText()
    ensures NatText(0) == "0" && AllDigits("0") && NatValue("0") == 0
  {
    assert "0"[..0] == "";
  }

  lemma DecodedWasEncoded(s: string)
    requires CanonicalDecimal(s)
    ensures AllDigits(Unsigned(s)) && s == FormatInt(if s[0] == '-' then -(NatValue(Unsigned(s)) as int) else NatValue(Unsigned(s)))
  {
    if s == "0" {
      ZeroText();
      assert Unsigned(s) == "0";
    } else {
      NatValueRoundTrip(Unsigned(s));
      hide NatText, NatValue;
      assert s[0] == '-' ==> s == "-" + Unsigned(s);
    }
  }

  /** A decimal is accepted exactly when it is the encoding of a value in range. */
  lemma DecodesExactlyTheEncodings(s: string, minimum: Int64, maximum: Int64, v: int)
    ensures DecodeInteger(s, minimum, maximum) == Some(v) <==> s == FormatInt(v) && minimum <= v <= maximum
  {
    EncodingDecodes(v);
    if CanonicalDecimal(s) {
      DecodedWasEncoded(s);
    }
    hide CanonicalDecimal, NatText, NatValue, FormatInt, Unsigned;
  }

  // -------------------------------------------------------- hex and names

  const DIGEST_LENGTH: nat := 64

  function HexChar(d: nat): char
    requires d < 16
  {
    if d < 10 then '0' + d as char else 'a' + (d - 10) as char
  }

  function FromHex(c: char): (d: Option<nat>)
    ensures d.Some? ==> d.value < 16 && HexChar(d.value) == c
  {
    if '0' <= c <= '9' then Some((c - '0') as nat)
    else if 'a' <= c <= 'f' then Some(10 + (c - 'a') as nat)
    else None
  }

  function HexText(digest: nat): (t: string)
    ensures |t| == DIGEST_LENGTH
  {
    var s := Fixed(digest, 16, DIGEST_LENGTH);
    seq(DIGEST_LENGTH, i requires 0 <= i < DIGEST_LENGTH => assert s[i] in s; HexChar(s[i]))
  }

  predicate CanonicalHex(t: string) {
    |t| == DIGEST_LENGTH && forall c :: c in t ==> FromHex(c).Some?
  }

  function HexDigits(t: string): (s: seq<nat>)
    requires CanonicalHex(t)
    ensures |s| == |t| && forall i :: 0 <= i < |t| ==> s[i] == FromHex(t[i]).value
  {
    seq(|t|, i requires 0 <= i < |t| => FromHex(t[i]).value)
  }

  function ParseDigestHex(t: string): Option<nat> {
    if CanonicalHex(t) then Some(Value(HexDigits(t), 16)) else None
  }

  lemma HexRoundTrip(digest: nat)
    requires digest < Pow(16, DIGEST_LENGTH)
    ensures ParseDigestHex(HexText(digest)) == Some(digest)
  {
    var s, t := Fixed(digest, 16, DIGEST_LENGTH), HexText(digest);
    forall i | 0 <= i < |t|
      ensures FromHex(t[i]) == Some(s[i])
    {
      assert s[i] in s;
    }
    assert HexDigits(t) == s;
    ValueOfFixed(digest, 16, DIGEST_LENGTH);
  }

  lemma HexIsCanonical(t: string)
    requires CanonicalHex(t)
    ensures ParseDigestHex(t).value < Pow(16, DIGEST_LENGTH) && HexText(ParseDigestHex(t).value) == t
  {
    var s := HexDigits(t);
    forall i | 0 <= i < |t|
      ensures s[i] < 16 && HexChar(s[i]) == t[i]
    {
      assert t[i] in t;
    }
    FixedOfValue(s, 16);
    ValueFits(s, 16);
  }

  const STAGE_PREFIX := "stage-"
  const PARTIAL_PREFIX := "partial-"

  predicate IsPartialName(name: string) {
    && PARTIAL_PREFIX < name
    && forall c :: c in name[|PARTIAL_PREFIX|..] ==> '0' <= c <= '9' || 'A' <= c <= 'Z' || 'a' <= c <= 'z'
  }

  function SealedName(resident: nat, digest: nat, partial: string): string {
    STAGE_PREFIX + IdText(resident) + "-" + HexText(digest) + "-" + partial
  }

  /** Resident and digest of a sealed name; every other name is refused. */
  function ParseSealedName(name: string): Option<(nat, nat)> {
    if !(STAGE_PREFIX <= name) then None
    else
      var rest := name[|STAGE_PREFIX|..];
      if |rest| < 26 + 1 + DIGEST_LENGTH + 1 + |PARTIAL_PREFIX| + 1 || rest[26] != '-' || rest[26 + 1 + DIGEST_LENGTH] != '-' then None
      else if !CanonicalId(rest[..26]) then None
      else if !CanonicalHex(rest[27..27 + DIGEST_LENGTH]) || !IsPartialName(rest[28 + DIGEST_LENGTH..]) then None
      else Some((Value(Unspell(rest[..26]), 32), ParseDigestHex(rest[27..27 + DIGEST_LENGTH]).value))
  }

  lemma SealedNameParses(resident: nat, digest: nat, partial: string)
    requires 0 < resident < ID_LIMIT && digest < Pow(16, DIGEST_LENGTH) && IsPartialName(partial)
    ensures ParseSealedName(SealedName(resident, digest, partial)) == Some((resident, digest))
  {
    IdTextRoundTrip(resident);
    HexRoundTrip(digest);
    hide CanonicalId, IdText, HexText, CanonicalHex, Unspell, HexDigits;
    var id, hex := IdText(resident), HexText(digest);
    var rest := id + "-" + hex + "-" + partial;
    assert SealedName(resident, digest, partial) == STAGE_PREFIX + rest;
    assert rest[..26] == id && rest[27..27 + DIGEST_LENGTH] == hex && rest[28 + DIGEST_LENGTH..] == partial;
  }

  lemma OnlySealedNamesParse(name: string)
    requires ParseSealedName(name).Some?
    ensures var (resident, digest) := ParseSealedName(name).value;
            && 0 < resident < ID_LIMIT && digest < Pow(16, DIGEST_LENGTH)
            && exists partial :: IsPartialName(partial) && name == SealedName(resident, digest, partial)
  {
    var rest := name[|STAGE_PREFIX|..];
    var id, hex, partial := rest[..26], rest[27..27 + DIGEST_LENGTH], rest[28 + DIGEST_LENGTH..];
    CanonicalIdRoundTrip(id);
    HexIsCanonical(hex);
    hide CanonicalId, IdText, HexText, CanonicalHex, Unspell, HexDigits;
    assert rest == id + "-" + hex + "-" + partial;
    assert name == STAGE_PREFIX + rest;
  }

  /** Parsing a name yields a resident and a digest exactly when the name was made from them. */
  lemma SealedNamesParseExactly(name: string, resident: nat, digest: nat)
    requires 0 < resident < ID_LIMIT && digest < Pow(16, DIGEST_LENGTH)
    ensures ParseSealedName(name) == Some((resident, digest))
            <==> exists partial :: IsPartialName(partial) && name == SealedName(resident, digest, partial)
  {
    if ParseSealedName(name) == Some((resident, digest)) {
      OnlySealedNamesParse(name);
    }
    if exists partial :: IsPartialName(partial) && name == SealedName(resident, digest, partial) {
      var partial :| IsPartialName(partial) && name == SealedName(resident, digest, partial);
      SealedNameParses(resident, digest, partial);
    }
  }
}

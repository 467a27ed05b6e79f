/** newEventID: sixteen random bytes, two of them masked, printed as an RFC 4122 version 4 UUID. */
module EventIdentifier {
  import opened Wrappers

  function MaskVersion(x: bv8): bv8 {
    (x & 0x0f) | 0x40
  }

  function MaskVariant(x: bv8): bv8 {
    (x & 0x3f) | 0x80
  }

  function Masked(b: Bytes): Bytes
    requires |b| == 16
  {
    b[6 := MaskVersion(b[6])][8 := MaskVariant(b[8])]
  }

  // ------------------------------------------------------------- hex digits

  const DIGITS := "0123456789abcdef"

  predicate IsDigit(c: char) {
    '0' <= c <= '9' || 'a' <= c <= 'f'
  }

  function Digit(n: bv8): char
    requires n < 16
  {
    DIGITS[n as int]
  }

  /** The number a digit stands for; anything else reads as zero. */
  function Value(c: char): bv8 {
    if '0' <= c <= '9' then (c as int - '0' as int) as bv8
    else if 'a' <= c <= 'f' then (c as int - 'a' as int + 10) as bv8
    else 0
  }

  function HexByte(x: bv8): string {
    [Digit(x >> 4), Digit(x & 0x0f)]
  }

  function ByteOf(hi: char, lo: char): bv8 {
    (Value(hi) << 4) | Value(lo)
  }

  lemma DigitValue(n: bv8)
    requires n < 16
    ensures IsDigit(Digit(n)) && Value(Digit(n)) == n
  {
    assert n as int < 16;
    var i := n as int;
    assert i as bv8 == n;
    if i < 10 {
      assert DIGITS[i] as int == '0' as int + i;
    } else {
      assert DIGITS[i] as int == 'a' as int + i - 10;
    }
  }

  /** The digits are 0 to 9 and a to f, in the order of the characters. */
  lemma DigitSpelled(n: bv8)
    requires n < 16
    ensures n as int < 10 ==> Digit(n) as int == '0' as int + n as int
    ensures n as int >= 10 ==> Digit(n) as int == 'a' as int + n as int - 10
  {
    var i := n as int;
    assert 0 <= i < 16;
    assert i < 10 ==> DIGITS[i] as int == '0' as int + i;
    assert i >= 10 ==> DIGITS[i] as int == 'a' as int + i - 10;
  }

  lemma HexByteValue(x: bv8)
    ensures IsDigit(HexByte(x)[0]) && IsDigit(HexByte(x)[1])
    ensures ByteOf(HexByte(x)[0], HexByte(x)[1]) == x
  {
    DigitValue(x >> 4);
    DigitValue(x & 0x0f);
    assert ((x >> 4) << 4) | (x & 0x0f) == x;
  }

  lemma DigitOfValue(c: char)
    requires IsDigit(c)
    ensures Value(c) < 16 && Digit(Value(c)) == c
  {
    var i := if c <= '9' then c as int - '0' as int else c as int - 'a' as int + 10;
    assert 0 <= i < 16 && Value(c) == i as bv8;
    SmallByte(i);
    if i < 10 {
      assert DIGITS[i] as int == '0' as int + i;
    } else {
      assert DIGITS[i] as int == 'a' as int + i - 10;
    }
  }

  lemma SmallByte(i: nat)
    requires i < 16
    ensures i as bv8 < 16 && (i as bv8) as int == i
  {
  }

  lemma ByteHex(hi: char, lo: char)
    requires IsDigit(hi) && IsDigit(lo)
    ensures HexByte(ByteOf(hi, lo)) == [hi, lo]
  {
    DigitOfValue(hi);
    DigitOfValue(lo);
    Nibbles(Value(hi), Value(lo));
  }

  lemma Nibbles(h: bv8, l: bv8)
    requires h < 16 && l < 16
    ensures ((h << 4) | l) >> 4 == h && ((h << 4) | l) & 0x0f == l
  {
  }

  // ------------------------------------------------------- strings of bytes

  predicate AllDigits(s: string) {
    forall i | 0 <= i < |s| :: IsDigit(s[i])
  }

  /** %x of bytes: two digits each, the high one first. */
  function Hex(b: Bytes): string {
    seq(2 * |b|, i requires 0 <= i < 2 * |b| => HexByte(b[i / 2])[i % 2])
  }

  function Unhex(s: string): Bytes {
    seq(|s| / 2, k requires 0 <= k < |s| / 2 => ByteOf(s[2 * k], s[2 * k + 1]))
  }

  lemma HexAt(b: Bytes, k: nat)
    requires k < |b|
    ensures Hex(b)[2 * k] == HexByte(b[k])[0] && Hex(b)[2 * k + 1] == HexByte(b[k])[1]
  {
  }

  lemma HexRoundTrip(b: Bytes)
    ensures |Hex(b)| == 2 * |b| && AllDigits(Hex(b)) && Unhex(Hex(b)) == b
  {
    forall i | 0 <= i < |Hex(b)|
      ensures IsDigit(Hex(b)[i])
    {
      HexByteValue(b[i / 2]);
    }
    forall k | 0 <= k < |b|
      ensures Unhex(Hex(b))[k] == b[k]
    {
      HexAt(b, k);
      HexByteValue(b[k]);
    }
  }

  lemma UnhexAt(s: string, k: nat)
    requires 2 * k + 1 < |s| && |s| % 2 == 0 && AllDigits(s)
    ensures Hex(Unhex(s))[2 * k] == s[2 * k] && Hex(Unhex(s))[2 * k + 1] == s[2 * k + 1]
  {
    ByteHex(s[2 * k], s[2 * k + 1]);
    HexAt(Unhex(s), k);
  }

  lemma UnhexRoundTrip(s: string)
    requires |s| % 2 == 0 && AllDigits(s)
    ensures |Unhex(s)| == |s| / 2 && Hex(Unhex(s)) == s
  {
    forall i | 0 <= i < |s|
      ensures Hex(Unhex(s))[i] == s[i]
    {
      UnhexAt(s, i / 2);
      assert i == 2 * (i / 2) || i == 2 * (i / 2) + 1;
    }
  }

  // ------------------------------------------------------------- the layout

  function Join(p: string, q: string, r: string, t: string, u: string): string {
    p + "-" + q + "-" + r + "-" + t + "-" + u
  }

  /** %x-%x-%x-%x-%x over 4, 2, 2, 2 and 6 bytes. */
  function Format(b: Bytes): string
    requires |b| == 16
  {
    Join(Hex(b[0..4]), Hex(b[4..6]), Hex(b[6..8]), Hex(b[8..10]), Hex(b[10..16]))
  }

  predicate IsDash(i: int) {
    i == 8 || i == 13 || i == 18 || i == 23
  }

  /** The string form of section 3 of RFC 4122, in lower case. */
  predicate Layout(s: string) {
    |s| == 36 && forall i | 0 <= i < 36 :: if IsDash(i) then s[i] == '-' else IsDigit(s[i])
  }

  function Parse(s: string): Option<Bytes> {
    if !Layout(s) then None
    else Some(Unhex(s[0..8]) + Unhex(s[9..13]) + Unhex(s[14..18]) + Unhex(s[19..23]) + Unhex(s[24..36]))
  }

  predicate GroupsOk(p: string, q: string, r: string, t: string, u: string) {
    && |p| == 8 && |q| == 4 && |r| == 4 && |t| == 4 && |u| == 12
    && AllDigits(p) && AllDigits(q) && AllDigits(r) && AllDigits(t) && AllDigits(u)
  }

  lemma JoinGroups(p: string, q: string, r: string, t: string, u: string)
    requires GroupsOk(p, q, r, t, u)
    ensures var s := Join(p, q, r, t, u);
            && Layout(s)
            && s[0..8] == p && s[9..13] == q && s[14..18] == r && s[19..23] == t && s[24..36] == u
  {
  }

  lemma SplitGroups(s: string)
    requires Layout(s)
    ensures GroupsOk(s[0..8], s[9..13], s[14..18], s[19..23], s[24..36])
    ensures Join(s[0..8], s[9..13], s[14..18], s[19..23], s[24..36]) == s
  {
  }

  lemma SplitBytes(b: Bytes)
    requires |b| == 16
    ensures b == b[0..4] + b[4..6] + b[6..8] + b[8..10] + b[10..16]
  {
  }

  lemma JoinBytes(p: Bytes, q: Bytes, r: Bytes, t: Bytes, u: Bytes)
    requires |p| == 4 && |q| == 2 && |r| == 2 && |t| == 2 && |u| == 6
    ensures var b := p + q + r + t + u;
            |b| == 16 && b[0..4] == p && b[4..6] == q && b[6..8] == r && b[8..10] == t && b[10..16] == u
  {
  }

  /** The groups of a printed id are the printed groups of bytes. */
  lemma FormatGroups(b: Bytes)
    requires |b| == 16
    ensures GroupsOk(Hex(b[0..4]), Hex(b[4..6]), Hex(b[6..8]), Hex(b[8..10]), Hex(b[10..16]))
    ensures Layout(Format(b))
    ensures Format(b)[0..8] == Hex(b[0..4]) && Format(b)[9..13] == Hex(b[4..6]) && Format(b)[14..18] == Hex(b[6..8])
    ensures Format(b)[19..23] == Hex(b[8..10]) && Format(b)[24..36] == Hex(b[10..16])
  {
    HexRoundTrip(b[0..4]);
    HexRoundTrip(b[4..6]);
    HexRoundTrip(b[6..8]);
    HexRoundTrip(b[8..10]);
    HexRoundTrip(b[10..16]);
    JoinGroups(Hex(b[0..4]), Hex(b[4..6]), Hex(b[6..8]), Hex(b[8..10]), Hex(b[10..16]));
  }

  lemma GroupParse(g: string, b: Bytes)
    requires g == Hex(b)
    ensures |g| % 2 == 0 && AllDigits(g) && Unhex(g) == b
  {
    HexRoundTrip(b);
  }

  /** Where byte k is printed: two characters a byte, and the dashes before it. */
  function At(k: nat): nat {
    2 * k + (if k >= 4 then 1 else 0) + (if k >= 6 then 1 else 0) + (if k >= 8 then 1 else 0) + (if k >= 10 then 1 else 0)
  }

  /** The digits of a group of bytes are the group of digits. */
  lemma HexGroup(b: Bytes, lo: nat, hi: nat)
    requires lo <= hi <= |b|
    ensures |Hex(b)| == 2 * |b| && Hex(b[lo..hi]) == Hex(b)[2 * lo..2 * hi]
  {
    forall i | 0 <= i < 2 * (hi - lo)
      ensures Hex(b[lo..hi])[i] == Hex(b)[2 * lo + i]
    {
      assert (2 * lo + i) / 2 == lo + i / 2 && (2 * lo + i) % 2 == i % 2;
    }
  }

  lemma CutAt(s: string, h: string, start: nat, lo: nat, hi: nat, i: nat)
    requires lo <= i < hi <= |h| && start + (hi - lo) <= |s| && s[start..start + (hi - lo)] == h[lo..hi]
    ensures s[start + (i - lo)] == h[i]
  {
    assert s[start..start + (hi - lo)][i - lo] == h[lo..hi][i - lo];
  }

  /** Thirty-two digits with dashes in between: where digit i stands. */
  lemma DigitPlace(s: string, h: string, i: nat)
    requires |h| == 32 && i < 32 && |s| == 36
    requires s[0..8] == h[0..8] && s[9..13] == h[8..12] && s[14..18] == h[12..16]
    requires s[19..23] == h[16..20] && s[24..36] == h[20..32]
    ensures s[At(i / 2) + i % 2] == h[i]
  {
    if i < 8 {
      CutAt(s, h, 0, 0, 8, i);
    } else if i < 12 {
      CutAt(s, h, 9, 8, 12, i);
    } else if i < 16 {
      CutAt(s, h, 14, 12, 16, i);
    } else if i < 20 {
      CutAt(s, h, 19, 16, 20, i);
    } else {
      CutAt(s, h, 24, 20, 32, i);
    }
  }

  lemma DigitsInPlace(b: Bytes, k: nat)
    requires |b| == 16 && k < 16
    ensures |Format(b)| == 36 && |Hex(b)| == 32
    ensures Format(b)[At(k)] == Hex(b)[2 * k] && Format(b)[At(k) + 1] == Hex(b)[2 * k + 1]
  {
    FormatGroups(b);
    HexGroup(b, 0, 4);
    HexGroup(b, 4, 6);
    HexGroup(b, 6, 8);
    HexGroup(b, 8, 10);
    HexGroup(b, 10, 16);
    BothPlaces(Format(b), Hex(b), k);
  }

  lemma BothPlaces(s: string, h: string, k: nat)
    requires |h| == 32 && k < 16 && |s| == 36
    requires s[0..8] == h[0..8] && s[9..13] == h[8..12] && s[14..18] == h[12..16]
    requires s[19..23] == h[16..20] && s[24..36] == h[20..32]
    ensures s[At(k)] == h[2 * k] && s[At(k) + 1] == h[2 * k + 1]
  {
    DigitPlace(s, h, 2 * k);
    DigitPlace(s, h, 2 * k + 1);
  }

  lemma DigitsOfByte(s: string, b: Bytes, k: nat)
    requires |b| == 16 && k < 16 && |s| == 36 && |Hex(b)| == 32
    requires s[At(k)] == Hex(b)[2 * k] && s[At(k) + 1] == Hex(b)[2 * k + 1]
    ensures s[At(k)] == Digit(b[k] >> 4) && s[At(k) + 1] == Digit(b[k] & 0x0f)
  {
    HexAt(b, k);
  }

  /** Every byte is printed at its place, the high digit first. */
  lemma FormatSpelled(b: Bytes, k: nat)
    requires |b| == 16 && k < 16
    ensures |Format(b)| == 36
    ensures Format(b)[At(k)] == Digit(b[k] >> 4) && Format(b)[At(k) + 1] == Digit(b[k] & 0x0f)
  {
    DigitsInPlace(b, k);
    DigitsOfByte(Format(b), b, k);
  }

  /** Parsing what was printed gives back the bytes. */
  lemma FormatParse(b: Bytes)
    requires |b| == 16
    ensures Layout(Format(b)) && Parse(Format(b)) == Some(b)
  {
    var s := Format(b);
    FormatGroups(b);
    GroupParse(s[0..8], b[0..4]);
    GroupParse(s[9..13], b[4..6]);
    GroupParse(s[14..18], b[6..8]);
    GroupParse(s[19..23], b[8..10]);
    GroupParse(s[24..36], b[10..16]);
    SplitBytes(b);
  }

  /** Printing what was parsed gives back the string. */
  lemma ParseFormat(s: string)
    requires Layout(s)
    ensures Parse(s).Some? && |Parse(s).value| == 16 && Format(Parse(s).value) == s
  {
    SplitGroups(s);
    UnhexRoundTrip(s[0..8]);
    UnhexRoundTrip(s[9..13]);
    UnhexRoundTrip(s[14..18]);
    UnhexRoundTrip(s[19..23]);
    UnhexRoundTrip(s[24..36]);
    JoinBytes(Unhex(s[0..8]), Unhex(s[9..13]), Unhex(s[14..18]), Unhex(s[19..23]), Unhex(s[24..36]));
  }

  // --------------------------------------------------- version and variant

  /** Version 4 and the variant of RFC 4122, as the printed form shows them. */
  predicate VersionAndVariant(s: string)
    requires |s| == 36
  {
    s[14] == '4' && s[19] in "89ab"
  }

  lemma MaskDigits(x: bv8)
    ensures Digit(MaskVersion(x) >> 4) == '4'
    ensures Digit(MaskVariant(x) >> 4) in "89ab"
  {
    assert MaskVersion(x) >> 4 == 4;
    var n := MaskVariant(x) >> 4;
    assert n == 8 || n == 9 || n == 10 || n == 11;
    assert "89ab"[0] == '8' && "89ab"[1] == '9' && "89ab"[2] == 'a' && "89ab"[3] == 'b';
  }

  lemma FirstDigit(b: Bytes)
    requires |b| == 2
    ensures |Hex(b)| == 4 && Hex(b)[0] == Digit(b[0] >> 4)
  {
    HexAt(b, 0);
  }

  /** Characters 14 and 19 are the high digits of bytes 6 and 8. */
  lemma MarkedDigits(b: Bytes)
    requires |b| == 16
    ensures |Format(b)| == 36 && Format(b)[14] == Digit(b[6] >> 4) && Format(b)[19] == Digit(b[8] >> 4)
  {
    FormatGroups(b);
    FirstDigit(b[6..8]);
    FirstDigit(b[8..10]);
    assert Format(b)[14] == Format(b)[14..18][0] && Format(b)[19] == Format(b)[19..23][0];
  }

  /** For all sixteen bytes the printed id is a version 4 UUID, and parsing it returns the masked bytes. */
  lemma EventIdIsUuid(b: Bytes)
    requires |b| == 16
    ensures var s := Format(Masked(b));
            Layout(s) && VersionAndVariant(s) && Parse(s) == Some(Masked(b))
  {
    FormatParse(Masked(b));
    MarkedDigits(Masked(b));
    MaskDigits(b[6]);
    MaskDigits(b[8]);
  }

  /** The 122 bits that masking leaves alone. */
  predicate SameFreeBits(a: Bytes, b: Bytes)
    requires |a| == 16 && |b| == 16
  {
    && (forall i | 0 <= i < 16 && i != 6 && i != 8 :: a[i] == b[i])
    && a[6] & 0x0f == b[6] & 0x0f
    && a[8] & 0x3f == b[8] & 0x3f
  }

  lemma MasksAgree(x: bv8, y: bv8)
    ensures MaskVersion(x) == MaskVersion(y) <==> x & 0x0f == y & 0x0f
    ensures MaskVariant(x) == MaskVariant(y) <==> x & 0x3f == y & 0x3f
  {
  }

  lemma UpdatesEqualIff<T>(a: seq<T>, b: seq<T>, x: T, y: T, u: T, v: T)
    requires |a| == 16 && |b| == 16
    ensures a[6 := x][8 := u] == b[6 := y][8 := v] <==>
              x == y && u == v && forall i | 0 <= i < 16 && i != 6 && i != 8 :: a[i] == b[i]
  {
    var a', b' := a[6 := x][8 := u], b[6 := y][8 := v];
    if a' == b' {
      assert a'[6] == x && b'[6] == y && a'[8] == u && b'[8] == v;
      assert forall i | 0 <= i < 16 && i != 6 && i != 8 :: a'[i] == a[i] && b'[i] == b[i];
    }
  }

  /** Two printed ids are equal exactly when the 122 free bits agree. */
  lemma EqualIdsIff(a: Bytes, b: Bytes)
    requires |a| == 16 && |b| == 16
    ensures Format(Masked(a)) == Format(Masked(b)) <==> SameFreeBits(a, b)
  {
    FormatParse(Masked(a));
    FormatParse(Masked(b));
    MasksAgree(a[6], b[6]);
    MasksAgree(a[8], b[8]);
    UpdatesEqualIff(a, b, MaskVersion(a[6]), MaskVersion(b[6]), MaskVariant(a[8]), MaskVariant(b[8]));
  }

  lemma MaskedFixes(b: Bytes)
    requires |b| == 16 && Digit(b[6] >> 4) == '4' && Digit(b[8] >> 4) in "89ab"
    ensures Masked(b) == b
  {
    FixedByMask(b[6], b[8]);
  }

  lemma FixedByMask(x: bv8, y: bv8)
    requires Digit(x >> 4) == '4' && Digit(y >> 4) in "89ab"
    ensures MaskVersion(x) == x && MaskVariant(y) == y
  {
    DigitValue(x >> 4);
    DigitValue(y >> 4);
    assert Value('4') == 4 && Value('8') == 8 && Value('9') == 9 && Value('a') == 10 && Value('b') == 11;
  }

  /** Every version 4 string in the layout is the id of some bytes: masking fixes its parsed bytes. */
  lemma EveryUuidIsAnEventId(s: string)
    requires Layout(s) && VersionAndVariant(s)
    ensures Parse(s).Some? && |Parse(s).value| == 16 && Format(Masked(Parse(s).value)) == s
  {
    ParseFormat(s);
    var b := Parse(s).value;
    MarkedDigits(b);
    MaskedFixes(b);
  }

  /** The bytes are masked in place, then printed. */
  method NewEventId(b: array<bv8>) returns (id: string)
    requires b.Length == 16
    modifies b
    ensures b[..] == Masked(old(b[..]))
    ensures id == Format(b[..])
    ensures Layout(id) && VersionAndVariant(id) && Parse(id) == Some(Masked(old(b[..])))
  {
    ghost var random := b[..];
    b[6] := (b[6] & 0x0f) | 0x40;
    b[8] := (b[8] & 0x3f) | 0x80;
    assert b[..] == Masked(random);
    EventIdIsUuid(random);
    assert b[0..4] == b[..][0..4] && b[4..6] == b[..][4..6] && b[6..8] == b[..][6..8];
    assert b[8..10] == b[..][8..10] && b[10..16] == b[..][10..16];
    id := Join(Hex(b[0..4]), Hex(b[4..6]), Hex(b[6..8]), Hex(b[8..10]), Hex(b[10..16]));
  }
}

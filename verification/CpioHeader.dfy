// The header of an entry by its bytes: what an encoder writes is what parse_header() reads.
module CpioHeader {
  import opened CpioSpec
  import opened Numbers

  // b is the hexadecimal digit d, in either case.
  predicate IsDigit(b: byte, d: nat) {
    (d < 10 && b == 48 + d) || (10 <= d < 16 && (b == 55 + d || b == 87 + d))
  }

  // Eight digits, the highest first.
  predicate Spells(s: seq<byte>, n: nat) {
    && |s| == 8 && n < 0x1_0000_0000
    && IsDigit(s[0], n / 0x1000_0000) && IsDigit(s[1], n / 0x100_0000 % 16)
    && IsDigit(s[2], n / 0x10_0000 % 16) && IsDigit(s[3], n / 0x1_0000 % 16)
    && IsDigit(s[4], n / 0x1000 % 16) && IsDigit(s[5], n / 0x100 % 16)
    && IsDigit(s[6], n / 0x10 % 16) && IsDigit(s[7], n % 16)
  }

  // The fields of a newc header by their places. The last eight bytes, a check sum, are not looked at.
  predicate Encodes(s: HeaderBytes, h: Hdr) {
    && s[..6] == [48, 55, 48, 55, 48, 49]
    && Spells(s[6..14], h.ino) && Spells(s[14..22], h.mode) && h.mode < 0x1_0000
    && Spells(s[22..30], h.uid) && Spells(s[30..38], h.gid) && Spells(s[38..46], h.nlink)
    && Spells(s[46..54], h.mtime) && Spells(s[54..62], h.bodyLen)
    && Spells(s[62..70], h.major) && Spells(s[70..78], h.minor)
    && Spells(s[78..86], h.rmajor) && Spells(s[86..94], h.rminor)
    && Spells(s[94..102], h.nameLen)
  }

  lemma DigitIs(s: seq<byte>, acc: nat, d: nat)
    requires s != [] && IsDigit(s[0], d)
    ensures Digits(s, acc) == Digits(s[1..], acc * 16 + d)
  {
  }

  lemma Shifted(n: nat, m: nat)
    requires m > 0
    ensures n / m == n / (m * 16) * 16 + n / m % 16
  {
    var x := n / m;
    var q, r := x / 16, x % 16;
    Splits(n, m);
    Distributes(q * 16, r, m);
    Associates(q, 16, m);
    assert 16 * m == m * 16;
    Multiples(15 - r, m);
    Distributes(15 - r, r, m);
    Remainder(n, m * 16, q, r * m + n % m);
  }

  lemma HighDigits(n: nat)
    ensures n / 0x100_0000 == n / 0x1000_0000 * 16 + n / 0x100_0000 % 16
    ensures n / 0x10_0000 == n / 0x100_0000 * 16 + n / 0x10_0000 % 16
    ensures n / 0x1_0000 == n / 0x10_0000 * 16 + n / 0x1_0000 % 16
    ensures n / 0x1000 == n / 0x1_0000 * 16 + n / 0x1000 % 16
    ensures n / 0x100 == n / 0x1000 * 16 + n / 0x100 % 16
    ensures n / 0x10 == n / 0x100 * 16 + n / 0x10 % 16
  {
    Shifted(n, 0x100_0000);
    Shifted(n, 0x10_0000);
    Shifted(n, 0x1_0000);
    Shifted(n, 0x1000);
    Shifted(n, 0x100);
    Shifted(n, 0x10);
  }

  lemma SpellsRead(s: seq<byte>, n: nat)
    requires Spells(s, n)
    ensures Hex(s) == n
  {
    hide Digits;
    HighDigits(n);
    DigitIs(s, 0, n / 0x1000_0000);
    DigitIs(s[1..], n / 0x1000_0000, n / 0x100_0000 % 16);
    DigitIs(s[1..][1..], n / 0x100_0000, n / 0x10_0000 % 16);
    DigitIs(s[1..][1..][1..], n / 0x10_0000, n / 0x1_0000 % 16);
    var t := s[4..];
    assert s[1..][1..][1..][1..] == t;
    DigitIs(t, n / 0x1_0000, n / 0x1000 % 16);
    DigitIs(t[1..], n / 0x1000, n / 0x100 % 16);
    DigitIs(t[1..][1..], n / 0x100, n / 0x10 % 16);
    DigitIs(t[1..][1..][1..], n / 0x10, n % 16);
    assert t[1..][1..][1..][1..] == [];
    NoDigits(n);
  }

  lemma NoDigits(acc: nat)
    ensures Digits([], acc) == acc
  {
  }

  // parse_header() finds each field in its place.
  lemma ParseReads(s: HeaderBytes, h: Hdr)
    requires Encodes(s, h)
    ensures Parse(s) == h
  {
    hide Spells, Hex;
    SpellsRead(s[6..14], h.ino);
    SpellsRead(s[14..22], h.mode);
    SpellsRead(s[22..30], h.uid);
    SpellsRead(s[30..38], h.gid);
    SpellsRead(s[38..46], h.nlink);
    SpellsRead(s[46..54], h.mtime);
    SpellsRead(s[54..62], h.bodyLen);
    SpellsRead(s[62..70], h.major);
    SpellsRead(s[70..78], h.minor);
    SpellsRead(s[78..86], h.rmajor);
    SpellsRead(s[86..94], h.rminor);
    SpellsRead(s[94..102], h.nameLen);
  }

  // ---- an encoder ---------------------------------------------------------------------------------

  predicate Fits(h: Hdr) {
    && h.ino < 0x1_0000_0000 && h.mode < 0x1_0000 && h.uid < 0x1_0000_0000 && h.gid < 0x1_0000_0000
    && h.nlink < 0x1_0000_0000 && h.mtime < 0x1_0000_0000 && h.bodyLen < 0x1_0000_0000
    && h.major < 0x1_0000_0000 && h.minor < 0x1_0000_0000 && h.rmajor < 0x1_0000_0000
    && h.rminor < 0x1_0000_0000 && h.nameLen < 0x1_0000_0000
  }

  function DigitOf(d: nat): byte
    requires d < 16
  {
    if d < 10 then 48 + d else 55 + d
  }

  function Spelled(n: nat): (s: seq<byte>)
    requires n < 0x1_0000_0000
    ensures |s| == 8
  {
    [DigitOf(n / 0x1000_0000), DigitOf(n / 0x100_0000 % 16), DigitOf(n / 0x10_0000 % 16), DigitOf(n / 0x1_0000 % 16),
     DigitOf(n / 0x1000 % 16), DigitOf(n / 0x100 % 16), DigitOf(n / 0x10 % 16), DigitOf(n % 16)]
  }

  function Encode(h: Hdr): (s: HeaderBytes)
    requires Fits(h)
  {
    [48, 55, 48, 55, 48, 49]
    + Spelled(h.ino) + Spelled(h.mode) + Spelled(h.uid) + Spelled(h.gid) + Spelled(h.nlink) + Spelled(h.mtime)
    + Spelled(h.bodyLen) + Spelled(h.major) + Spelled(h.minor) + Spelled(h.rmajor) + Spelled(h.rminor)
    + Spelled(h.nameLen) + Spelled(0)
  }

  lemma SpelledSpells(n: nat)
    requires n < 0x1_0000_0000
    ensures Spells(Spelled(n), n)
  {
  }

  lemma EncodePlaces(h: Hdr)
    requires Fits(h)
    ensures Encodes(Encode(h), h)
  {
    hide Spelled, Spells;
    var s := Encode(h);
    assert s[..6] == [48, 55, 48, 55, 48, 49];
    assert s[6..14] == Spelled(h.ino);
    assert s[14..22] == Spelled(h.mode);
    assert s[22..30] == Spelled(h.uid);
    assert s[30..38] == Spelled(h.gid);
    assert s[38..46] == Spelled(h.nlink);
    assert s[46..54] == Spelled(h.mtime);
    assert s[54..62] == Spelled(h.bodyLen);
    assert s[62..70] == Spelled(h.major);
    assert s[70..78] == Spelled(h.minor);
    assert s[78..86] == Spelled(h.rmajor);
    assert s[86..94] == Spelled(h.rminor);
    assert s[94..102] == Spelled(h.nameLen);
    SpelledSpells(h.ino);
    SpelledSpells(h.mode);
    SpelledSpells(h.uid);
    SpelledSpells(h.gid);
    SpelledSpells(h.nlink);
    SpelledSpells(h.mtime);
    SpelledSpells(h.bodyLen);
    SpelledSpells(h.major);
    SpelledSpells(h.minor);
    SpelledSpells(h.rmajor);
    SpelledSpells(h.rminor);
    SpelledSpells(h.nameLen);
  }

  // What is written as a header is read as it was.
  lemma HeaderRoundTrip(h: Hdr)
    requires Fits(h)
    ensures Parse(Encode(h)) == h
  {
    hide Encode, Parse;
    EncodePlaces(h);
    ParseReads(Encode(h), h);
  }
}

/**
 * Base64 as defined in section 4 of RFC 4648 (alphabet `A-Z a-z 0-9 + /`, `=` padding) and the
 * lowercase hex rendering of `bytes.hex()`. The remote store reports SHA-256 checksums as
 * `sha2:` followed by the base64 of the digest; the ingest code turns them into hex.
 */
module Base64 {
  import opened Wrappers

  type Byte = b: int | 0 <= b < 256

  type Sextet = v: int | 0 <= v < 64

  /** The value of one base64 alphabet character. */
  function SextetOf(c: char): Option<Sextet> {
    if 'A' <= c <= 'Z' then Some(c as int - 'A' as int)
    else if 'a' <= c <= 'z' then Some(c as int - 'a' as int + 26)
    else if '0' <= c <= '9' then Some(c as int - '0' as int + 52)
    else if c == '+' then Some(62)
    else if c == '/' then Some(63)
    else None
  }

  /** The alphabet character for a 6-bit value. */
  function CharOf(v: Sextet): char {
    if v < 26 then ('A' as int + v) as char
    else if v < 52 then ('a' as int + (v - 26)) as char
    else if v < 62 then ('0' as int + (v - 52)) as char
    else if v == 62 then '+'
    else '/'
  }

  lemma SextetOfCharOf(v: Sextet)
    ensures SextetOf(CharOf(v)) == Some(v)
  {
  }

  /** Three bytes from four sextets. */
  function Bytes3(a: Sextet, b: Sextet, c: Sextet, d: Sextet): seq<Byte> {
    [a * 4 + b / 16, (b % 16) * 16 + c / 4, (c % 4) * 64 + d]
  }

  /** Decodes one final group of four characters, which may end in `=` or `==`. */
  function DecodeLastGroup(g: string): Option<seq<Byte>>
    requires |g| == 4
  {
    var a, b, c, d := SextetOf(g[0]), SextetOf(g[1]), SextetOf(g[2]), SextetOf(g[3]);
    if a.None? || b.None? then None
    else if g[2] == '=' && g[3] == '=' then Some([a.value * 4 + b.value / 16])
    else if c.None? then None
    else if g[3] == '=' then Some(Bytes3(a.value, b.value, c.value, 0)[..2])
    else if d.None? then None
    else Some(Bytes3(a.value, b.value, c.value, d.value))
  }

  /** Decodes one group of four alphabet characters that is not the last group. */
  function DecodeGroup(g: string): Option<seq<Byte>>
    requires |g| == 4
  {
    var a, b, c, d := SextetOf(g[0]), SextetOf(g[1]), SextetOf(g[2]), SextetOf(g[3]);
    if a.None? || b.None? || c.None? || d.None? then None
    else Some(Bytes3(a.value, b.value, c.value, d.value))
  }

  /**
   * `base64.b64decode(s)` on canonical input: `None` for text whose length is not a multiple of
   * four, that holds a character outside the alphabet, or padding other than at the very end.
   */
  function Decode(s: string): (r: Option<seq<Byte>>)
    ensures r.Some? ==> forall i :: 0 <= i < |s| - 2 ==> SextetOf(s[i]).Some?
    decreases |s|
  {
    if |s| == 0 then Some([])
    else if |s| % 4 != 0 then None
    else if |s| == 4 then DecodeLastGroup(s)
    else
      match DecodeGroup(s[..4])
      case None => None
      case Some(head) =>
        match Decode(s[4..])
        case None => None
        case Some(tail) => Some(head + tail)
  }

  /** A decoded text has a length that is a multiple of four: three bytes per group, less at most two of padding. */
  lemma {:induction false} DecodeLength(s: string)
    requires Decode(s).Some?
    ensures |s| % 4 == 0 && 4 * |Decode(s).value| <= 3 * |s| <= 4 * |Decode(s).value| + 8
    decreases |s|
  {
    if |s| > 4 {
      DecodeLength(s[4..]);
    }
  }

  /** Four characters for three bytes. */
  function EncodeGroup(x: Byte, y: Byte, z: Byte): string {
    [CharOf(x / 4), CharOf((x % 4) * 16 + y / 16), CharOf((y % 16) * 4 + z / 64), CharOf(z % 64)]
  }

  /** `base64.b64encode(b)`: groups of three bytes, the last one padded with `=`. */
  function Encode(b: seq<Byte>): (r: string)
    ensures |r| % 4 == 0
    ensures |r| == 0 <==> |b| == 0
    decreases |b|
  {
    if |b| == 0 then ""
    else if |b| == 1 then EncodeGroup(b[0], 0, 0)[..2] + "=="
    else if |b| == 2 then EncodeGroup(b[0], b[1], 0)[..3] + "="
    else EncodeGroup(b[0], b[1], b[2]) + Encode(b[3..])
  }

  lemma Group3(x: Byte, y: Byte, z: Byte)
    ensures DecodeGroup(EncodeGroup(x, y, z)) == Some([x, y, z])
    ensures DecodeLastGroup(EncodeGroup(x, y, z)) == Some([x, y, z])
  {
    var a, b, c, d := x / 4, (x % 4) * 16 + y / 16, (y % 16) * 4 + z / 64, z % 64;
    SextetOfCharOf(a);
    SextetOfCharOf(b);
    SextetOfCharOf(c);
    SextetOfCharOf(d);
    RegroupFirst(x, y);
    RegroupSecond(x, y, z);
    RegroupThird(y, z);
    assert Bytes3(a, b, c, d) == [x, y, z];
  }

  /** The first byte is recovered from the first two sextets. */
  lemma RegroupFirst(x: Byte, y: Byte)
    ensures (x / 4) * 4 + ((x % 4) * 16 + y / 16) / 16 == x
  {
    assert ((x % 4) * 16 + y / 16) / 16 == x % 4;
  }

  /** The second byte is recovered from the second and third sextets. */
  lemma RegroupSecond(x: Byte, y: Byte, z: Byte)
    ensures (((x % 4) * 16 + y / 16) % 16) * 16 + ((y % 16) * 4 + z / 64) / 4 == y
  {
    assert ((x % 4) * 16 + y / 16) % 16 == y / 16;
    assert ((y % 16) * 4 + z / 64) / 4 == y % 16;
  }

  /** The third byte is recovered from the last two sextets. */
  lemma RegroupThird(y: Byte, z: Byte)
    ensures (((y % 16) * 4 + z / 64) % 4) * 64 + z % 64 == z
  {
    assert ((y % 16) * 4 + z / 64) % 4 == z / 64;
  }

  lemma Group2(x: Byte, y: Byte)
    ensures DecodeLastGroup(EncodeGroup(x, y, 0)[..3] + "=") == Some([x, y])
  {
    var g := EncodeGroup(x, y, 0)[..3] + "=";
    SextetOfCharOf(x / 4);
    SextetOfCharOf((x % 4) * 16 + y / 16);
    SextetOfCharOf((y % 16) * 4);
    var a, b, c := x / 4, (x % 4) * 16 + y / 16, (y % 16) * 4;
    assert a * 4 + b / 16 == x by {
      assert b / 16 == x % 4;
    }
    assert (b % 16) * 16 + c / 4 == y by {
      assert b % 16 == y / 16;
      assert c / 4 == y % 16;
    }
    assert g == [CharOf(a), CharOf(b), CharOf(c), '='];
    assert g[2] != '=';
    assert Bytes3(a, b, c, 0)[..2] == [x, y];
  }

  lemma Group1(x: Byte)
    ensures DecodeLastGroup(EncodeGroup(x, 0, 0)[..2] + "==") == Some([x])
  {
    SextetOfCharOf(x / 4);
    SextetOfCharOf((x % 4) * 16);
    var a, b := x / 4, (x % 4) * 16;
    assert a * 4 + b / 16 == x by {
      assert b / 16 == x % 4;
    }
  }

  /** A full group followed by more groups decodes to the group's bytes followed by the rest's. */
  lemma DecodeConcat(g: string, rest: string)
    requires |g| == 4 && |rest| > 0 && |rest| % 4 == 0
    requires DecodeGroup(g).Some? && Decode(rest).Some?
    ensures Decode(g + rest) == Some(DecodeGroup(g).value + Decode(rest).value)
  {
    var s := g + rest;
    assert s[..4] == g && s[4..] == rest;
    NextMultipleOfFour(|rest|);
  }

  lemma NextMultipleOfFour(n: nat)
    requires n % 4 == 0
    ensures (n + 4) % 4 == 0
  {
  }

  lemma EncodeOne(b: seq<Byte>)
    requires |b| == 1
    ensures Decode(Encode(b)) == Some(b)
  {
    Group1(b[0]);
    var e := EncodeGroup(b[0], 0, 0)[..2] + "==";
    assert Encode(b) == e && |e| == 4;
    assert b == [b[0]];
  }

  lemma EncodeTwo(b: seq<Byte>)
    requires |b| == 2
    ensures Decode(Encode(b)) == Some(b)
  {
    Group2(b[0], b[1]);
    var e := EncodeGroup(b[0], b[1], 0)[..3] + "=";
    assert Encode(b) == e && |e| == 4;
    assert b == [b[0], b[1]];
  }

  lemma EncodeThree(b: seq<Byte>)
    requires |b| == 3
    ensures Decode(Encode(b)) == Some(b)
  {
    Group3(b[0], b[1], b[2]);
    assert Encode(b) == EncodeGroup(b[0], b[1], b[2]) + "";
    assert b == [b[0], b[1], b[2]];
  }

  lemma EncodeLong(b: seq<Byte>)
    requires |b| > 3
    ensures Encode(b) == EncodeGroup(b[0], b[1], b[2]) + Encode(b[3..])
    ensures |Encode(b[3..])| > 0
  {
  }

  /** Decoding undoes encoding: every byte string has exactly the base64 text `Encode` gives it. */
  lemma {:induction false} DecodeEncode(b: seq<Byte>)
    ensures Decode(Encode(b)) == Some(b)
    decreases |b|
  {
    if |b| == 1 {
      EncodeOne(b);
    } else if |b| == 2 {
      EncodeTwo(b);
    } else if |b| == 3 {
      EncodeThree(b);
    } else if |b| > 3 {
      Group3(b[0], b[1], b[2]);
      DecodeEncode(b[3..]);
      EncodeLong(b);
      DecodeConcat(EncodeGroup(b[0], b[1], b[2]), Encode(b[3..]));
      SplitFirstThree(b);
    }
  }

  lemma SplitFirstThree(b: seq<Byte>)
    requires |b| >= 3
    ensures b == [b[0], b[1], b[2]] + b[3..]
  {
    assert b[..3] == [b[0], b[1], b[2]];
    assert b == b[..3] + b[3..];
  }

  /** A lowercase hexadecimal digit. */
  predicate IsHexDigit(c: char) {
    '0' <= c <= '9' || 'a' <= c <= 'f'
  }

  /** The lowercase digit of a value below sixteen. */
  function HexDigit(v: int): (r: char)
    requires 0 <= v < 16
    ensures IsHexDigit(r)
    ensures v < 10 ==> r as int == '0' as int + v
    ensures v >= 10 ==> r as int == 'a' as int + (v - 10)
  {
    if v < 10 then ('0' as int + v) as char else ('a' as int + (v - 10)) as char
  }

  /** `bytes.hex()`: two lowercase hex digits per byte. */
  function Hex(b: seq<Byte>): (r: string)
    ensures |r| == 2 * |b|
    ensures forall k :: 0 <= k < |r| ==> IsHexDigit(r[k])
  {
    if b == [] then "" else [HexDigit(b[0] / 16), HexDigit(b[0] % 16)] + Hex(b[1..])
  }

  /** SHA-256 of the empty input, as the store reports it and as `hashdeep` prints it. */
  const EmptySha256: seq<Byte> := [
    0xe3, 0xb0, 0xc4, 0x42, 0x98, 0xfc, 0x1c, 0x14, 0x9a, 0xfb, 0xf4, 0xc8, 0x99, 0x6f, 0xb9, 0x24,
    0x27, 0xae, 0x41, 0xe4, 0x64, 0x9b, 0x93, 0x4c, 0xa4, 0x95, 0x99, 0x1b, 0x78, 0x52, 0xb8, 0x55]

  /**
   * The base64 text of `EmptySha256`, "47DEQpj8HBSa+/TImW+5JCeuQeRkm5NMpJWZG3hSuFU=", written
   * group by group.
   */
  const EmptySha256Base64: string :=
    "47DE" + ("Qpj8" + ("HBSa" + ("+/TI" + ("mW+5" + ("JCeu" + ("QeRk" + ("m5NM" + ("pJWZ" + ("G3hS" + ("uFU="))))))))))

  /** The hex text of `EmptySha256`, "e3b0c442...7852b855", written four bytes at a time. */
  const EmptySha256Hex: string :=
    "e3b0c442" + ("98fc1c14" + ("9afbf4c8" + ("996fb924" + ("27ae41e4" + ("649b934c" + ("a495991b" + ("7852b855")))))))

  lemma HexAppend(a: seq<Byte>, c: seq<Byte>)
    ensures Hex(a + c) == Hex(a) + Hex(c)
  {
    if a != [] {
      assert (a + c)[1..] == a[1..] + c;
      HexAppend(a[1..], c);
    } else {
      assert a + c == c;
    }
  }

  lemma EncodeStep(b: seq<Byte>, k: nat)
    requires k + 3 < |b|
    ensures Encode(b[k..]) == EncodeGroup(b[k], b[k + 1], b[k + 2]) + Encode(b[k + 3..])
  {
    assert b[k..][3..] == b[k + 3..];
  }

  /** `Encode(EmptySha256[k..])` for every group start `k`, from the last group back to the first. */
  lemma {:induction false} EmptySha256Suffix(k: nat)
    requires k <= 30 && k % 3 == 0
    ensures Encode(EmptySha256[k..]) == EncodedGroupsFrom(k / 3)
    decreases 30 - k
  {
    var b := EmptySha256;
    if k == 30 {
      assert b[30..] == [0xb8, 0x55];
    } else {
      EmptySha256Suffix(k + 3);
      EncodeStep(b, k);
      EmptySha256Group(k);
    }
  }

  const EmptySha256Groups: seq<string> := ["47DE", "Qpj8", "HBSa", "+/TI", "mW+5", "JCeu", "QeRk", "m5NM", "pJWZ", "G3hS", "uFU="]

  /** The groups of `EmptySha256Base64` from the `i`-th on. */
  function EncodedGroupsFrom(i: nat): string
    requires i < |EmptySha256Groups|
    decreases |EmptySha256Groups| - i
  {
    if i == |EmptySha256Groups| - 1 then EmptySha256Groups[i]
    else EmptySha256Groups[i] + EncodedGroupsFrom(i + 1)
  }

  lemma EmptySha256Group(k: nat)
    requires k < 30 && k % 3 == 0
    ensures EncodeGroup(EmptySha256[k], EmptySha256[k + 1], EmptySha256[k + 2]) == EmptySha256Groups[k / 3]
  {
    if k == 0 { EmptySha256Group0(); }
    else if k == 3 { EmptySha256Group1(); }
    else if k == 6 { EmptySha256Group2(); }
    else if k == 9 { EmptySha256Group3(); }
    else if k == 12 { EmptySha256Group4(); }
    else if k == 15 { EmptySha256Group5(); }
    else if k == 18 { EmptySha256Group6(); }
    else if k == 21 { EmptySha256Group7(); }
    else if k == 24 { EmptySha256Group8(); }
    else if k == 27 { EmptySha256Group9(); }
  }

  lemma EmptySha256Group0()
    ensures EncodeGroup(EmptySha256[0], EmptySha256[1], EmptySha256[2]) == EmptySha256Groups[0]
  {
    assert EmptySha256[0] == 0xe3 && EmptySha256[1] == 0xb0 && EmptySha256[2] == 0xc4;
    assert EncodeGroup(0xe3, 0xb0, 0xc4) == "47DE";
  }

  lemma EmptySha256Group1()
    ensures EncodeGroup(EmptySha256[3], EmptySha256[4], EmptySha256[5]) == EmptySha256Groups[1]
  {
    assert EmptySha256[3] == 0x42 && EmptySha256[4] == 0x98 && EmptySha256[5] == 0xfc;
    assert EncodeGroup(0x42, 0x98, 0xfc) == "Qpj8";
  }

  lemma EmptySha256Group2()
    ensures EncodeGroup(EmptySha256[6], EmptySha256[7], EmptySha256[8]) == EmptySha256Groups[2]
  {
    assert EmptySha256[6] == 0x1c && EmptySha256[7] == 0x14 && EmptySha256[8] == 0x9a;
    assert EncodeGroup(0x1c, 0x14, 0x9a) == "HBSa";
  }

  lemma EmptySha256Group3()
    ensures EncodeGroup(EmptySha256[9], EmptySha256[10], EmptySha256[11]) == EmptySha256Groups[3]
  {
    assert EmptySha256[9] == 0xfb && EmptySha256[10] == 0xf4 && EmptySha256[11] == 0xc8;
    assert EncodeGroup(0xfb, 0xf4, 0xc8) == "+/TI";
  }

  lemma EmptySha256Group4()
    ensures EncodeGroup(EmptySha256[12], EmptySha256[13], EmptySha256[14]) == EmptySha256Groups[4]
  {
    assert EmptySha256[12] == 0x99 && EmptySha256[13] == 0x6f && EmptySha256[14] == 0xb9;
    assert EncodeGroup(0x99, 0x6f, 0xb9) == "mW+5";
  }

  lemma EmptySha256Group5()
    ensures EncodeGroup(EmptySha256[15], EmptySha256[16], EmptySha256[17]) == EmptySha256Groups[5]
  {
    assert EmptySha256[15] == 0x24 && EmptySha256[16] == 0x27 && EmptySha256[17] == 0xae;
    assert EncodeGroup(0x24, 0x27, 0xae) == "JCeu";
  }

  lemma EmptySha256Group6()
    ensures EncodeGroup(EmptySha256[18], EmptySha256[19], EmptySha256[20]) == EmptySha256Groups[6]
  {
    assert EmptySha256[18] == 0x41 && EmptySha256[19] == 0xe4 && EmptySha256[20] == 0x64;
    assert EncodeGroup(0x41, 0xe4, 0x64) == "QeRk";
  }

  lemma EmptySha256Group7()
    ensures EncodeGroup(EmptySha256[21], EmptySha256[22], EmptySha256[23]) == EmptySha256Groups[7]
  {
    assert EmptySha256[21] == 0x9b && EmptySha256[22] == 0x93 && EmptySha256[23] == 0x4c;
    assert EncodeGroup(0x9b, 0x93, 0x4c) == "m5NM";
  }

  lemma EmptySha256Group8()
    ensures EncodeGroup(EmptySha256[24], EmptySha256[25], EmptySha256[26]) == EmptySha256Groups[8]
  {
    assert EmptySha256[24] == 0xa4 && EmptySha256[25] == 0x95 && EmptySha256[26] == 0x99;
    assert EncodeGroup(0xa4, 0x95, 0x99) == "pJWZ";
  }

  lemma EmptySha256Group9()
    ensures EncodeGroup(EmptySha256[27], EmptySha256[28], EmptySha256[29]) == EmptySha256Groups[9]
  {
    assert EmptySha256[27] == 0x1b && EmptySha256[28] == 0x78 && EmptySha256[29] == 0x52;
    assert EncodeGroup(0x1b, 0x78, 0x52) == "G3hS";
  }

  lemma EmptySha256Encoding()
    ensures Encode(EmptySha256) == EmptySha256Base64
  {
    EmptySha256Suffix(0);
    assert EmptySha256[0..] == EmptySha256;
    assert EncodedGroupsFrom(0) == EmptySha256Groups[0] + EncodedGroupsFrom(1);
    assert EncodedGroupsFrom(1) == EmptySha256Groups[1] + EncodedGroupsFrom(2);
    assert EncodedGroupsFrom(2) == EmptySha256Groups[2] + EncodedGroupsFrom(3);
    assert EncodedGroupsFrom(3) == EmptySha256Groups[3] + EncodedGroupsFrom(4);
    assert EncodedGroupsFrom(4) == EmptySha256Groups[4] + EncodedGroupsFrom(5);
    assert EncodedGroupsFrom(5) == EmptySha256Groups[5] + EncodedGroupsFrom(6);
    assert EncodedGroupsFrom(6) == EmptySha256Groups[6] + EncodedGroupsFrom(7);
    assert EncodedGroupsFrom(7) == EmptySha256Groups[7] + EncodedGroupsFrom(8);
    assert EncodedGroupsFrom(8) == EmptySha256Groups[8] + EncodedGroupsFrom(9);
    assert EncodedGroupsFrom(9) == EmptySha256Groups[9] + EncodedGroupsFrom(10);
  }

  /** The hex text of four bytes, digit by digit. */
  lemma Hex4(p: Byte, q: Byte, r: Byte, t: Byte)
    ensures Hex([p, q, r, t]) ==
      [HexDigit(p / 16), HexDigit(p % 16), HexDigit(q / 16), HexDigit(q % 16),
       HexDigit(r / 16), HexDigit(r % 16), HexDigit(t / 16), HexDigit(t % 16)]
  {
    assert [t][1..] == [];
    assert Hex([t]) == [HexDigit(t / 16), HexDigit(t % 16)];
    assert [r, t][1..] == [t];
    assert Hex([r, t]) == [HexDigit(r / 16), HexDigit(r % 16)] + Hex([t]);
    assert [q, r, t][1..] == [r, t];
    assert Hex([q, r, t]) == [HexDigit(q / 16), HexDigit(q % 16)] + Hex([r, t]);
    assert [p, q, r, t][1..] == [q, r, t];
  }

  /** `EmptySha256` four bytes at a time, nested as `EmptySha256Hex` is. */
  lemma EmptySha256Chunks()
    ensures EmptySha256 == [0xe3, 0xb0, 0xc4, 0x42] + ([0x98, 0xfc, 0x1c, 0x14] + ([0x9a, 0xfb, 0xf4, 0xc8] + ([0x99, 0x6f, 0xb9, 0x24] + ([0x27, 0xae, 0x41, 0xe4] + ([0x64, 0x9b, 0x93, 0x4c] + ([0xa4, 0x95, 0x99, 0x1b] + ([0x78, 0x52, 0xb8, 0x55])))))))
  {
  }

  lemma HexChunk0()
    ensures Hex([0xe3, 0xb0, 0xc4, 0x42]) == "e3b0c442"
  {
    Hex4(0xe3, 0xb0, 0xc4, 0x42);
  }

  lemma HexChunk1()
    ensures Hex([0x98, 0xfc, 0x1c, 0x14]) == "98fc1c14"
  {
    Hex4(0x98, 0xfc, 0x1c, 0x14);
  }

  lemma HexChunk2()
    ensures Hex([0x9a, 0xfb, 0xf4, 0xc8]) == "9afbf4c8"
  {
    Hex4(0x9a, 0xfb, 0xf4, 0xc8);
  }

  lemma HexChunk3()
    ensures Hex([0x99, 0x6f, 0xb9, 0x24]) == "996fb924"
  {
    Hex4(0x99, 0x6f, 0xb9, 0x24);
  }

  lemma HexChunk4()
    ensures Hex([0x27, 0xae, 0x41, 0xe4]) == "27ae41e4"
  {
    Hex4(0x27, 0xae, 0x41, 0xe4);
  }

  lemma HexChunk5()
    ensures Hex([0x64, 0x9b, 0x93, 0x4c]) == "649b934c"
  {
    Hex4(0x64, 0x9b, 0x93, 0x4c);
  }

  lemma HexChunk6()
    ensures Hex([0xa4, 0x95, 0x99, 0x1b]) == "a495991b"
  {
    Hex4(0xa4, 0x95, 0x99, 0x1b);
  }

  lemma HexChunk7()
    ensures Hex([0x78, 0x52, 0xb8, 0x55]) == "7852b855"
  {
    Hex4(0x78, 0x52, 0xb8, 0x55);
  }

  lemma EmptySha256HexText()
    ensures Hex(EmptySha256) == EmptySha256Hex
  {
    var c0 := [0xe3, 0xb0, 0xc4, 0x42];
    var c1 := [0x98, 0xfc, 0x1c, 0x14];
    var c2 := [0x9a, 0xfb, 0xf4, 0xc8];
    var c3 := [0x99, 0x6f, 0xb9, 0x24];
    var c4 := [0x27, 0xae, 0x41, 0xe4];
    var c5 := [0x64, 0x9b, 0x93, 0x4c];
    var c6 := [0xa4, 0x95, 0x99, 0x1b];
    var c7 := [0x78, 0x52, 0xb8, 0x55];
    EmptySha256Chunks();
    HexChunk0();
    HexChunk1();
    HexChunk2();
    HexChunk3();
    HexChunk4();
    HexChunk5();
    HexChunk6();
    HexChunk7();
    var t6 := c6 + c7;
    var t5 := c5 + t6;
    var t4 := c4 + t5;
    var t3 := c3 + t4;
    var t2 := c2 + t3;
    var t1 := c1 + t2;
    var t0 := c0 + t1;
    HexAppend(c6, c7);
    HexAppend(c5, t6);
    HexAppend(c4, t5);
    HexAppend(c3, t4);
    HexAppend(c2, t3);
    HexAppend(c1, t2);
    HexAppend(c0, t1);
  }

  /** The checksum of an empty file in both renderings the two manifests use. */
  lemma EmptySha256Vector()
    ensures Decode(EmptySha256Base64) == Some(EmptySha256)
    ensures Hex(EmptySha256) == EmptySha256Hex
  {
    EmptySha256Encoding();
    DecodeEncode(EmptySha256);
    EmptySha256HexText();
  }
}

/** The base64 encoder of `src/ci_audit.rs` (section 4 of RFC 4648), against a decoder that knows only the alphabet. */
module Base64 {

  newtype Byte = x: int | 0 <= x < 256

  const UPPER := "ABCDEFGHIJKLMNOPQRSTUVWXYZ"
  const LOWER := "abcdefghijklmnopqrstuvwxyz"
  const REST := "0123456789+/"
  const ALPHABET := UPPER + LOWER + REST

  function Symbol(d: nat): char
    requires d < 64
  {
    ALPHABET[d]
  }

  /** The bytes of a group as one number; missing bytes count as zero. */
  function Triple(chunk: seq<Byte>): (t: nat)
    requires 1 <= |chunk| <= 3
    ensures t < 0x1000000
  {
    (chunk[0] as int) * 65536
    + (if |chunk| > 1 then chunk[1] as int else 0) * 256
    + (if |chunk| > 2 then chunk[2] as int else 0)
  }

  /** One group of up to three bytes as four characters. */
  function Group(chunk: seq<Byte>): (r: string)
    requires 1 <= |chunk| <= 3
    ensures |r| == 4
  {
    var triple := Triple(chunk);
    [Symbol(triple / 262144 % 64),
     Symbol(triple / 4096 % 64),
     if |chunk| > 1 then Symbol(triple / 64 % 64) else '=',
     if |chunk| > 2 then Symbol(triple % 64) else '=']
  }

  function Encode(bytes: seq<Byte>): string {
    if bytes == [] then ""
    else if |bytes| <= 3 then Group(bytes)
    else Group(bytes[..3]) + Encode(bytes[3..])
  }

  /** `base64_standard`. */
  method EncodeStandard(bytes: seq<Byte>) returns (encoded: string)
    ensures encoded == Encode(bytes)
  {
    hide Group, Symbol;
    encoded := "";
    var start := 0;
    assert bytes[0..] == bytes;
    while start < |bytes|
      invariant 0 <= start <= |bytes|
      invariant encoded + Encode(bytes[start..]) == Encode(bytes)
    {
      var rest := bytes[start..];
      var chunk := if |rest| <= 3 then rest else rest[..3];
      var four := EncodeChunk(chunk);
      encoded := encoded + four;
      start := start + |chunk|;
      assert bytes[start..] == rest[|chunk|..];
    }
  }

  method EncodeChunk(chunk: seq<Byte>) returns (four: string)
    requires 1 <= |chunk| <= 3
    ensures four == Group(chunk)
  {
    hide Symbol;
    var b0 := chunk[0] as int;
    var b1 := if |chunk| > 1 then chunk[1] as int else 0;
    var b2 := if |chunk| > 2 then chunk[2] as int else 0;
    var triple := b0 * 65536 + b1 * 256 + b2;
    four := [Symbol(triple / 262144 % 64)];
    four := four + [Symbol(triple / 4096 % 64)];
    four := four + [if |chunk| > 1 then Symbol(triple / 64 % 64) else '='];
    four := four + [if |chunk| > 2 then Symbol(triple % 64) else '='];
  }

  /** The place of a character in the alphabet. */
  function Sextet(c: char): (v: nat)
  {
    if 'A' <= c <= 'Z' then (c - 'A') as nat
    else if 'a' <= c <= 'z' then 26 + (c - 'a') as nat
    else if '0' <= c <= '9' then 52 + (c - '0') as nat
    else if c == '+' then 62
    else if c == '/' then 63
    else 0
  }

  lemma LettersAndDigits(i: nat)
    ensures i < 26 ==> UPPER[i] == 'A' + i as char && LOWER[i] == 'a' + i as char
    ensures i < 12 ==> REST[i] == if i < 10 then '0' + i as char else if i == 10 then '+' else '/'
  {
  }

  lemma SextetReads(d: nat)
    requires d < 64
    ensures Sextet(Symbol(d)) == d && Symbol(d) != '='
  {
    LettersAndDigits(if d < 26 then d else if d < 52 then d - 26 else d - 52);
  }

  /** The bytes of one group of four characters. */
  function Ungroup(four: string): seq<Byte>
    requires |four| == 4
  {
    var value := Sextet(four[0]) * 262144 + Sextet(four[1]) * 4096 + Sextet(four[2]) * 64 + Sextet(four[3]);
    var all := [(value / 65536 % 256) as Byte, (value / 256 % 256) as Byte, (value % 256) as Byte];
    all[..(if four[2] == '=' then 1 else if four[3] == '=' then 2 else 3)]
  }

  function Decode(text: string): seq<Byte> {
    if |text| < 4 then [] else Ungroup(text[..4]) + Decode(text[4..])
  }

  /** Four sextets spell the number; its last two bytes being zero clears the sextets that padding replaces. */
  lemma SixBits(t: nat)
    requires t < 0x1000000
    ensures (t / 262144 % 64) * 262144 + (t / 4096 % 64) * 4096 + (t / 64 % 64) * 64 + t % 64 == t
  {
    var a := t / 64;
    var b := a / 64;
    var c := b / 64;
    assert t == 64 * a + t % 64 && a == 64 * b + a % 64 && b == 64 * c + b % 64;
    QuotientIs(t, 4096, b);
    QuotientIs(t, 262144, c);
    assert c < 64;
    assert c % 64 == c;
  }

  lemma QuotientIs(t: nat, d: nat, q: nat)
    requires d > 0 && d * q <= t < d * q + d
    ensures t / d == q
  {
    var k := t / d - q;
    assert d * k == (t - d * q) - t % d;
    MultipleIsFar(d, k);
  }

  lemma MultipleIsFar(d: int, k: int)
    requires d >= 0
    ensures k >= 1 ==> d * k >= d
    ensures k <= -1 ==> d * k <= -d
  {
  }

  lemma LowBytes(b0: nat, b1: nat)
    ensures var t := b0 * 65536 + b1 * 256; t % 64 == 0 && (b1 == 0 ==> t / 64 % 64 == 0)
  {
    var t := b0 * 65536 + b1 * 256;
    assert t == 64 * (b0 * 1024 + b1 * 4);
    QuotientIs(t, 64, b0 * 1024 + b1 * 4);
    if b1 == 0 {
      assert t / 64 == 64 * (b0 * 16);
    }
  }

  lemma EightBits(b0: nat, b1: nat, b2: nat)
    requires b0 < 256 && b1 < 256 && b2 < 256
    ensures var t := b0 * 65536 + b1 * 256 + b2;
      t / 65536 % 256 == b0 && t / 256 % 256 == b1 && t % 256 == b2
  {
    var t := b0 * 65536 + b1 * 256 + b2;
    QuotientIs(t, 65536, b0);
    QuotientIs(t, 256, b0 * 256 + b1);
  }

  lemma GroupValue(chunk: seq<Byte>)
    requires 1 <= |chunk| <= 3
    ensures var four := Group(chunk);
      Sextet(four[0]) * 262144 + Sextet(four[1]) * 4096 + Sextet(four[2]) * 64 + Sextet(four[3]) == Triple(chunk)
    ensures Group(chunk)[2] == '=' <==> |chunk| == 1
    ensures Group(chunk)[3] == '=' <==> |chunk| <= 2
  {
    hide Symbol, Sextet;
    var t := Triple(chunk);
    SextetReads(t / 262144 % 64);
    SextetReads(t / 4096 % 64);
    SextetReads(t / 64 % 64);
    SextetReads(t % 64);
    PadReads();
    SixBits(t);
    if |chunk| < 3 { LowBytes(chunk[0] as nat, if |chunk| > 1 then chunk[1] as nat else 0); }
  }

  lemma GroupDecodes(chunk: seq<Byte>)
    requires 1 <= |chunk| <= 3
    ensures Ungroup(Group(chunk)) == chunk
  {
    hide Group, Sextet;
    GroupValue(chunk);
    EightBits(chunk[0] as nat, if |chunk| > 1 then chunk[1] as nat else 0, if |chunk| > 2 then chunk[2] as nat else 0);
  }

  lemma EncodeSplits(bytes: seq<Byte>)
    requires bytes != []
    ensures var n := if |bytes| <= 3 then |bytes| else 3; Encode(bytes) == Group(bytes[..n]) + Encode(bytes[n..])
  {
    if |bytes| <= 3 { assert bytes[..|bytes|] == bytes; }
  }

  lemma PadReads()
    ensures Sextet('=') == 0
  {
  }

  /** Decoding recovers every byte sequence. */
  lemma {:induction false} DecodeEncode(bytes: seq<Byte>)
    ensures Decode(Encode(bytes)) == bytes
  {
    hide Group, Ungroup, Symbol;
    if bytes != [] {
      var n := if |bytes| <= 3 then |bytes| else 3;
      EncodeSplits(bytes);
      GroupDecodes(bytes[..n]);
      DecodeEncode(bytes[n..]);
      var text := Encode(bytes);
      assert bytes == bytes[..n] + bytes[n..];
      assert text == Group(bytes[..n]) + Encode(bytes[n..]);
      assert text[..4] == Group(bytes[..n]) && text[4..] == Encode(bytes[n..]);
    }
  }

  /** How many padding characters close the text. */
  function PaddingFor(n: nat): nat { if n % 3 == 0 then 0 else 3 - n % 3 }

  /** Four characters for every three bytes begun, and padding only at the end, as the length modulo three decides. */
  lemma {:induction false} Shape(bytes: seq<Byte>)
    ensures |Encode(bytes)| == 4 * ((|bytes| + 2) / 3)
    ensures forall i :: 0 <= i < |Encode(bytes)| ==>
      (if i < |Encode(bytes)| - PaddingFor(|bytes|) then Encode(bytes)[i] != '=' else Encode(bytes)[i] == '=')
  {
    hide Group, Symbol;
    if bytes != [] {
      var n := if |bytes| <= 3 then |bytes| else 3;
      EncodeSplits(bytes);
      GroupShape(bytes[..n]);
      Shape(bytes[n..]);
      assert Encode(bytes) == Group(bytes[..n]) + Encode(bytes[n..]);
      if n == |bytes| { assert Encode(bytes[n..]) == ""; }
    }
  }

  lemma GroupShape(chunk: seq<Byte>)
    requires 1 <= |chunk| <= 3
    ensures forall i :: 0 <= i < 4 ==> (if i <= |chunk| then Group(chunk)[i] != '=' else Group(chunk)[i] == '=')
  {
    hide Symbol, Sextet;
    var t := Triple(chunk);
    SextetReads(t / 262144 % 64);
    SextetReads(t / 4096 % 64);
    SextetReads(t / 64 % 64);
    SextetReads(t % 64);
  }
}

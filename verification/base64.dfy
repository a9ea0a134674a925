/** The base64 text under which the registry stores a call's metadata, against the
    bit-level definition in section 4 of RFC 4648. */
module Base64 {
  import opened Arithmetic

  newtype Byte = b: int | 0 <= b < 256

  const BUFFER_SIZE: nat := 128
  /** The number of input bytes whose encoding fills the buffer. */
  const CAPACITY: nat := 96

  const TABLE: string := "ABCDEFGHIJKLMNOPQRSTUVWXYZ" + "abcdefghijklmnopqrstuvwxyz" + "0123456789" + "+/"

  // ---- Bits ----

  function Pow2(n: nat): (p: nat)
    ensures p > 0
  {
    if n == 0 then 1 else 2 * Pow2(n - 1)
  }

  /** The number a bit string denotes, most significant bit first. */
  function Num(bits: seq<bool>): (v: nat)
    ensures v < Pow2(|bits|)
  {
    if bits == [] then 0 else 2 * Num(bits[..|bits| - 1]) + if bits[|bits| - 1] then 1 else 0
  }

  /** The last `width` bits of a number, most significant bit first. */
  function BitsOf(v: nat, width: nat): (bits: seq<bool>)
    ensures |bits| == width
  {
    if width == 0 then [] else BitsOf(v / 2, width - 1) + [v % 2 == 1]
  }

  lemma {:induction false} NumOfBits(v: nat, width: nat)
    requires v < Pow2(width)
    ensures Num(BitsOf(v, width)) == v
  {
    if width > 0 {
      NumOfBits(v / 2, width - 1);
    }
  }

  lemma {:induction false} BitsOfNum(bits: seq<bool>)
    ensures BitsOf(Num(bits), |bits|) == bits
  {
    if bits != [] {
      BitsOfNum(bits[..|bits| - 1]);
    }
  }

  /** A number moved left by n bits. */
  function Shifted(v: nat, n: nat): nat {
    v * Pow2(n)
  }

  lemma ShiftOneMore(v: nat, n: nat)
    ensures Shifted(v, n + 1) == 2 * Shifted(v, n) && Shifted(v, 0) == v
  {
    var p := Pow2(n);
    assert Pow2(n + 1) == 2 * p;
    assert v * (2 * p) == 2 * (v * p);
  }

  lemma {:induction false} NumConcat(a: seq<bool>, b: seq<bool>)
    ensures Num(a + b) == Shifted(Num(a), |b|) + Num(b)
  {
    hide Shifted, Pow2;
    if b == [] {
      assert a + b == a;
      ShiftOneMore(Num(a), 0);
    } else {
      var prior := b[..|b| - 1];
      NumConcat(a, prior);
      assert (a + b)[..|a + b| - 1] == a + prior;
      ShiftOneMore(Num(a), |prior|);
    }
  }

  function ByteBits(bytes: seq<Byte>): (bits: seq<bool>)
    ensures |bits| == 8 * |bytes|
  {
    if bytes == [] then [] else BitsOf(bytes[0] as nat, 8) + ByteBits(bytes[1..])
  }

  // ---- RFC 4648, section 4 ----

  type Sextet = v: nat | v < 64

  function Zeros(n: nat): (bits: seq<bool>)
    ensures |bits| == n
  {
    seq(n, _ => false)
  }

  /** The bit string cut into groups of six, the last one filled up with zeros. */
  function Sextets(bits: seq<bool>): (groups: seq<Sextet>)
    ensures |groups| == (|bits| + 5) / 6
  {
    if bits == [] then []
    else if |bits| < 6 then
      assert Pow2(6) == 64;
      [Num(bits + Zeros(6 - |bits|))]
    else
      assert Pow2(6) == 64;
      [Num(bits[..6])] + Sextets(bits[6..])
  }

  /** The alphabet of table 1. */
  function Alphabet(v: Sextet): char
  {
    if v < 26 then 'A' + v as char
    else if v < 52 then 'a' + (v - 26) as char
    else if v < 62 then '0' + (v - 52) as char
    else if v == 62 then '+'
    else '/'
  }

  function Letters(groups: seq<Sextet>): (text: string)
    ensures |text| == |groups|
    ensures forall i :: 0 <= i < |text| ==> text[i] == Alphabet(groups[i])
  {
    if groups == [] then [] else [Alphabet(groups[0])] + Letters(groups[1..])
  }

  /** The padding that completes the last quantum of four characters. */
  function Padding(letters: nat): string {
    if letters % 4 == 2 then "==" else if letters % 4 == 3 then "=" else ""
  }

  function Encode(bytes: seq<Byte>): string {
    var letters := Letters(Sextets(ByteBits(bytes)));
    letters + Padding(|letters|)
  }

  // ---- Decoding ----

  function IndexOf(c: char): nat {
    if 'A' <= c <= 'Z' then (c - 'A') as nat
    else if 'a' <= c <= 'z' then 26 + (c - 'a') as nat
    else if '0' <= c <= '9' then 52 + (c - '0') as nat
    else if c == '+' then 62
    else 63
  }

  function LetterBits(text: string): (bits: seq<bool>)
    ensures |bits| == 6 * |text|
  {
    if text == [] then [] else BitsOf(IndexOf(text[0]), 6) + LetterBits(text[1..])
  }

  function Unpadded(text: string): string {
    if text != [] && text[|text| - 1] == '=' then Unpadded(text[..|text| - 1]) else text
  }

  function BytesOf(bits: seq<bool>): seq<Byte> {
    if |bits| < 8 then []
    else
      assert Pow2(8) == 256;
      [Num(bits[..8]) as Byte] + BytesOf(bits[8..])
  }

  /** The bytes that an encoded text stands for: bits left over at the end are dropped. */
  function Decode(text: string): seq<Byte> {
    BytesOf(LetterBits(Unpadded(text)))
  }

  lemma AlphabetIsInvertible(v: Sextet)
    ensures IndexOf(Alphabet(v)) == v && Alphabet(v) != '='
  {
  }

  /** Reading the letters back gives the bits again, and at most five zeros more. */
  lemma {:induction false} LettersKeepBits(bits: seq<bool>)
    ensures LetterBits(Letters(Sextets(bits))) == bits + Zeros((6 - |bits| % 6) % 6)
  {
    hide Num, BitsOf, Alphabet, IndexOf, Pow2, Sextets, Letters, LetterBits, Zeros;
    if bits == [] {
      NoLetters();
    } else if |bits| < 6 {
      LastLetterKeepsBits(bits);
    } else {
      var rest := bits[6..];
      LettersKeepBits(rest);
      LetterKeepsSextet(bits[..6]);
      SextetFirst(bits);
      LetterFirst(Num(bits[..6]), Sextets(rest));
      SixLess(|bits|);
      Rejoin(bits, Zeros((6 - |rest| % 6) % 6));
    }
  }

  lemma SixLess(n: nat)
    requires n >= 6
    ensures (n - 6) % 6 == n % 6
  {
  }

  lemma Rejoin(bits: seq<bool>, tail: seq<bool>)
    requires |bits| >= 6
    ensures bits[..6] + (bits[6..] + tail) == bits + tail
  {
  }

  lemma LastLetterKeepsBits(bits: seq<bool>)
    requires 0 < |bits| < 6
    ensures LetterBits(Letters(Sextets(bits))) == bits + Zeros(6 - |bits|)
  {
    hide Num, BitsOf, Alphabet, IndexOf, Pow2, Sextets, Letters, LetterBits, Zeros;
    var group := bits + Zeros(6 - |bits|);
    NoLetters();
    LetterKeepsSextet(group);
    LastSextet(bits);
    LetterFirst(Num(group), []);
    assert [Num(group)] + [] == [Num(group)];
  }

  lemma SextetFirst(bits: seq<bool>)
    requires |bits| >= 6
    ensures Num(bits[..6]) < 64 && Sextets(bits) == [Num(bits[..6])] + Sextets(bits[6..])
  {
    Powers();
  }

  lemma LastSextet(bits: seq<bool>)
    requires 0 < |bits| < 6
    ensures Num(bits + Zeros(6 - |bits|)) < 64 && Sextets(bits) == [Num(bits + Zeros(6 - |bits|))]
  {
    Powers();
  }

  lemma LetterFirst(v: Sextet, rest: seq<Sextet>)
    ensures LetterBits(Letters([v] + rest)) == BitsOf(IndexOf(Alphabet(v)), 6) + LetterBits(Letters(rest))
  {
    hide Alphabet, IndexOf, BitsOf;
    assert ([v] + rest)[1..] == rest;
    assert Letters([v] + rest)[1..] == Letters(rest);
  }

  lemma NoLetters()
    ensures Sextets([]) == [] && LetterBits(Letters([])) == []
  {
  }

  /** One letter carries its six bits. */
  lemma LetterKeepsSextet(group: seq<bool>)
    requires |group| == 6
    ensures Num(group) < 64 && BitsOf(IndexOf(Alphabet(Num(group))), 6) == group
  {
    Powers();
    AlphabetIsInvertible(Num(group));
    BitsOfNum(group);
  }

  lemma {:induction false} BytesComeBack(bytes: seq<Byte>, tail: seq<bool>)
    requires |tail| < 8
    ensures BytesOf(ByteBits(bytes) + tail) == bytes
  {
    hide BitsOf, Num, Pow2;
    if bytes != [] {
      var first := BitsOf(bytes[0] as nat, 8);
      BytesComeBack(bytes[1..], tail);
      Powers();
      NumOfBits(bytes[0] as nat, 8);
      var bits := ByteBits(bytes) + tail;
      assert bits[..8] == first && bits[8..] == ByteBits(bytes[1..]) + tail;
    }
  }

  lemma OnePadRemoved(text: string)
    ensures Unpadded(text + "=") == Unpadded(text)
  {
    assert (text + "=")[..|text|] == text;
  }

  lemma PaddingIsRemoved(letters: string)
    requires letters != [] ==> letters[|letters| - 1] != '='
    ensures Unpadded(letters + Padding(|letters|)) == letters
  {
    OnePadRemoved(letters);
    if |letters| % 4 == 2 {
      OnePadRemoved(letters + "=");
      assert letters + "==" == (letters + "=") + "=";
    } else if |letters| % 4 != 3 {
      assert letters + "" == letters;
    }
  }

  /** Decoding undoes encoding, for every byte string. */
  lemma DecodeUndoesEncode(bytes: seq<Byte>)
    ensures Decode(Encode(bytes)) == bytes
  {
    var bits := ByteBits(bytes);
    var letters := Letters(Sextets(bits));
    if letters != [] {
      AlphabetIsInvertible(Sextets(bits)[|letters| - 1]);
    }
    PaddingIsRemoved(letters);
    LettersKeepBits(bits);
    BytesComeBack(bytes, Zeros((6 - |bits| % 6) % 6));
  }

  // ---- The encoder's arithmetic ----

  /** Three bytes as the encoder packs them into one number. */
  function Pack(b0: Byte, b1: Byte, b2: Byte): nat {
    b0 as nat * 0x1_0000 + b1 as nat * 0x100 + b2 as nat
  }

  lemma Quarters(n: nat, s0: nat, s1: nat, s2: nat, s3: nat)
    requires s0 < 64 && s1 < 64 && s2 < 64 && s3 < 64 && n == s0 * 0x4_0000 + s1 * 0x1000 + s2 * 0x40 + s3
    ensures n / 0x4_0000 % 64 == s0 && n / 0x1000 % 64 == s1 && n / 0x40 % 64 == s2 && n % 64 == s3
  {
    assert n / 0x40 == s0 * 0x1000 + s1 * 0x40 + s2;
    assert n / 0x1000 == s0 * 0x40 + s1;
    assert n / 0x4_0000 == s0;
  }

  lemma {:induction false} ByteBitsConcat(a: seq<Byte>, b: seq<Byte>)
    ensures ByteBits(a + b) == ByteBits(a) + ByteBits(b)
  {
    hide ByteBits;
    if a == [] {
      NoBits();
      assert a + b == b;
    } else {
      ByteBitsConcat(a[1..], b);
      FirstBits(a);
      FirstBits(a + b);
      assert (a + b)[1..] == a[1..] + b;
    }
  }

  lemma NoBits()
    ensures ByteBits([]) == []
  {
  }

  lemma FirstBits(bytes: seq<Byte>)
    requires bytes != []
    ensures ByteBits(bytes) == BitsOf(bytes[0] as nat, 8) + ByteBits(bytes[1..])
  {
    hide BitsOf;
  }

  lemma {:induction false} SextetsConcat(a: seq<bool>, b: seq<bool>)
    requires |a| % 6 == 0
    ensures Sextets(a + b) == Sextets(a) + Sextets(b)
  {
    hide Num, Pow2, Sextets;
    if a == [] {
      NoLetters();
      assert a + b == b;
    } else {
      SextetsConcat(a[6..], b);
      SextetFirst(a);
      SextetFirst(a + b);
      assert (a + b)[..6] == a[..6] && (a + b)[6..] == a[6..] + b;
    }
  }

  lemma Powers()
    ensures Pow2(2) == 4 && Pow2(4) == 16 && Pow2(6) == 64 && Pow2(8) == 256
    ensures Pow2(10) == 0x400 && Pow2(12) == 0x1000 && Pow2(16) == 0x1_0000 && Pow2(18) == 0x4_0000
  {
  }

  /** The bits of up to three bytes, as one number. */
  lemma NumOfBytes(bytes: seq<Byte>)
    requires 1 <= |bytes| <= 3
    ensures Num(ByteBits(bytes)) == match |bytes|
                                    case 1 => bytes[0] as nat
                                    case 2 => bytes[0] as nat * 0x100 + bytes[1] as nat
                                    case _ => Pack(bytes[0], bytes[1], bytes[2])
    decreases |bytes|
  {
    Powers();
    NumOfBits(bytes[0] as nat, 8);
    NumConcat(BitsOf(bytes[0] as nat, 8), ByteBits(bytes[1..]));
    if |bytes| > 1 {
      NumOfBytes(bytes[1..]);
    }
  }

  lemma QuantumOfThree(b0: Byte, b1: Byte, b2: Byte)
    ensures var n := Pack(b0, b1, b2);
      Sextets(ByteBits([b0, b1, b2])) == [n / 0x4_0000 % 64, n / 0x1000 % 64, n / 0x40 % 64, n % 64]
  {
    var bits := ByteBits([b0, b1, b2]);
    var s0, s1, s2, s3 := bits[..6], bits[6..12], bits[12..18], bits[18..];
    NumOfBytes([b0, b1, b2]);
    Powers();
    assert bits == s0 + (s1 + (s2 + s3));
    NumConcat(s2, s3);
    NumConcat(s1, s2 + s3);
    NumConcat(s0, s1 + (s2 + s3));
    Quarters(Pack(b0, b1, b2), Num(s0), Num(s1), Num(s2), Num(s3));
    SextetsConcat(s0, s1 + (s2 + s3));
    SextetsConcat(s1, s2 + s3);
    SextetsConcat(s2, s3);
    OneSextet(s0); OneSextet(s1); OneSextet(s2); OneSextet(s3);
  }

  lemma OneSextet(s: seq<bool>)
    requires |s| == 6
    ensures Sextets(s) == [Num(s)] && Num(s) < 64
  {
    assert s[..6] == s;
    Powers();
  }

  /** A short group: the missing bits count as zeros. */
  lemma ShortSextet(s: seq<bool>)
    requires |s| == 2 || |s| == 4
    ensures Sextets(s) == [if |s| == 2 then Num(s) * 16 else Num(s) * 4]
  {
    hide Num;
    NumConcat(s, Zeros(6 - |s|));
    ZerosAreZero(6 - |s|);
    Powers();
  }

  lemma {:induction false} ZerosAreZero(n: nat)
    ensures Num(Zeros(n)) == 0
  {
    if n > 0 {
      assert Zeros(n)[..n - 1] == Zeros(n - 1);
      ZerosAreZero(n - 1);
    }
  }

  lemma QuantumOfTwo(b0: Byte, b1: Byte)
    ensures var n := Pack(b0, b1, 0);
      Sextets(ByteBits([b0, b1])) == [n / 0x4_0000 % 64, n / 0x1000 % 64, n / 0x40 % 64]
  {
    var bits := ByteBits([b0, b1]);
    var s0, s1, s2 := bits[..6], bits[6..12], bits[12..];
    NumOfBytes([b0, b1]);
    Powers();
    assert bits == s0 + (s1 + s2);
    NumConcat(s1, s2);
    NumConcat(s0, s1 + s2);
    SextetsConcat(s0, s1 + s2);
    SextetsConcat(s1, s2);
    OneSextet(s0); OneSextet(s1); ShortSextet(s2);
    Quarters(Pack(b0, b1, 0), Num(s0), Num(s1), Num(s2) * 4, 0);
  }

  lemma QuantumOfOne(b0: Byte)
    ensures var n := Pack(b0, 0, 0);
      Sextets(ByteBits([b0])) == [n / 0x4_0000 % 64, n / 0x1000 % 64]
  {
    var bits := ByteBits([b0]);
    var s0, s1 := bits[..6], bits[6..];
    NumOfBytes([b0]);
    Powers();
    assert bits == s0 + s1;
    NumConcat(s0, s1);
    SextetsConcat(s0, s1);
    OneSextet(s0); ShortSextet(s1);
    Quarters(Pack(b0, 0, 0), Num(s0), Num(s1) * 16, 0, 0);
  }

  // ---- The encoder ----

  /** The encoder's table is the alphabet of the standard. */
  lemma TableIsTheAlphabet(v: Sextet)
    ensures TABLE[v] == Alphabet(v)
  {
    var upper, lower, digits := "ABCDEFGHIJKLMNOPQRSTUVWXYZ", "abcdefghijklmnopqrstuvwxyz", "0123456789";
    if v < 26 {
      assert upper[v] == 'A' + v as char;
    } else if v < 52 {
      assert lower[v - 26] == 'a' + (v - 26) as char;
    } else if v < 62 {
      assert digits[v - 52] == '0' + (v - 52) as char;
    }
  }

  /** The text without its padding. */
  function Body(bytes: seq<Byte>): string {
    Letters(Sextets(ByteBits(bytes)))
  }

  lemma LettersFirst(v: Sextet, rest: seq<Sextet>)
    ensures Letters([v] + rest) == [Alphabet(v)] + Letters(rest)
  {
    assert ([v] + rest)[1..] == rest;
  }

  lemma {:induction false} LettersConcat(a: seq<Sextet>, b: seq<Sextet>)
    ensures Letters(a + b) == Letters(a) + Letters(b)
  {
    hide Letters, Alphabet;
    if a == [] {
      assert a + b == b;
    } else {
      LettersConcat(a[1..], b);
      LettersFirst(a[0], a[1..]);
      LettersFirst(a[0], a[1..] + b);
      assert [a[0]] + a[1..] == a && [a[0]] + (a[1..] + b) == a + b;
    }
  }

  /** Whole groups of three can be encoded on their own. */
  lemma BodyConcat(done: seq<Byte>, more: seq<Byte>)
    requires |done| % 3 == 0
    ensures Body(done + more) == Body(done) + Body(more)
  {
    hide ByteBits, Sextets, Letters;
    WholeGroups(|done|);
    ByteBitsConcat(done, more);
    SextetsConcat(ByteBits(done), ByteBits(more));
    LettersConcat(Sextets(ByteBits(done)), Sextets(ByteBits(more)));
  }

  lemma BodyLength(bytes: seq<Byte>)
    ensures |Body(bytes)| == (8 * |bytes| + 5) / 6
  {
  }

  /** Looks up the first `count` sextets of a packed number. */
  function Lookup(n: nat, count: nat): (text: string)
    requires 2 <= count <= 4
    ensures |text| == count
  {
    [TABLE[n / 0x4_0000 % 64], TABLE[n / 0x1000 % 64]]
    + (if count > 2 then [TABLE[n / 0x40 % 64]] else [])
    + (if count > 3 then [TABLE[n % 64]] else [])
  }

  lemma BodyOfThree(b0: Byte, b1: Byte, b2: Byte)
    ensures Body([b0, b1, b2]) == Lookup(Pack(b0, b1, b2), 4)
  {
    hide ByteBits, Sextets, Alphabet, Pack, Letters, TABLE;
    var n := Pack(b0, b1, b2);
    QuantumOfThree(b0, b1, b2);
    TableIsTheAlphabet(n / 0x4_0000 % 64);
    TableIsTheAlphabet(n / 0x1000 % 64);
    TableIsTheAlphabet(n / 0x40 % 64);
    TableIsTheAlphabet(n % 64);
  }

  lemma BodyOfTwo(b0: Byte, b1: Byte)
    ensures Body([b0, b1]) == Lookup(Pack(b0, b1, 0), 3)
  {
    hide ByteBits, Sextets, Alphabet, Pack, Letters, TABLE;
    var n := Pack(b0, b1, 0);
    QuantumOfTwo(b0, b1);
    TableIsTheAlphabet(n / 0x4_0000 % 64);
    TableIsTheAlphabet(n / 0x1000 % 64);
    TableIsTheAlphabet(n / 0x40 % 64);
  }

  lemma BodyOfOne(b0: Byte)
    ensures Body([b0]) == Lookup(Pack(b0, 0, 0), 2)
  {
    hide ByteBits, Sextets, Alphabet, Pack, Letters, TABLE;
    var n := Pack(b0, 0, 0);
    QuantumOfOne(b0);
    TableIsTheAlphabet(n / 0x4_0000 % 64);
    TableIsTheAlphabet(n / 0x1000 % 64);
  }

  /** The part of the input that reaches the text. */
  function Stored(input: seq<Byte>): seq<Byte> {
    if |input| <= CAPACITY then input else input[..CAPACITY]
  }

  /** Writes one quantum of four characters. */
  method Put(outBuf: array<char>, at: nat, quantum: string)
    requires |quantum| == 4 && at + 4 <= outBuf.Length
    modifies outBuf
    ensures outBuf[..at + 4] == old(outBuf[..at]) + quantum
  {
    outBuf[at] := quantum[0];
    outBuf[at + 1] := quantum[1];
    outBuf[at + 2] := quantum[2];
    outBuf[at + 3] := quantum[3];
  }

  /** The encoder over its fixed buffer: what fits is encoded as the standard says, and
      nothing is written past the end. */
  method EncodeBase64(input: seq<Byte>) returns (text: string)
    ensures text == Encode(Stored(input)) && |text| <= BUFFER_SIZE
  {
    hide Body, Pack, Lookup, Encode, TABLE;
    var outBuf := new char[BUFFER_SIZE];
    var outIdx, i := 0, 0;
    EmptyBody();
    while i + 3 <= |input|
      invariant i <= |input| && i % 3 == 0 && outIdx == i / 3 * 4 <= BUFFER_SIZE
      invariant outBuf[..outIdx] == Body(input[..i])
    {
      if outIdx + 4 > outBuf.Length { break; }
      var n := Pack(input[i], input[i + 1], input[i + 2]);
      Put(outBuf, outIdx, Lookup(n, 4));
      GroupEncoded(input, i);
      outIdx := outIdx + 4;
      i := i + 3;
    }
    var rem := |input| - i;
    if rem == 1 && outIdx + 4 <= outBuf.Length {
      var n := Pack(input[i], 0, 0);
      Put(outBuf, outIdx, Lookup(n, 2) + "==");
      outIdx := outIdx + 4;
      assert input == input[..i] + [input[i]];
      TailOfOne(input[..i], input[i]);
    } else if rem == 2 && outIdx + 4 <= outBuf.Length {
      var n := Pack(input[i], input[i + 1], 0);
      Put(outBuf, outIdx, Lookup(n, 3) + "=");
      outIdx := outIdx + 4;
      assert input == input[..i] + [input[i], input[i + 1]];
      TailOfTwo(input[..i], input[i], input[i + 1]);
    } else {
      assert input[..i] == Stored(input);
      WholeEncoded(input[..i]);
    }
    text := outBuf[..outIdx];
  }

  lemma GroupEncoded(input: seq<Byte>, i: nat)
    requires i % 3 == 0 && i + 3 <= |input|
    ensures Body(input[..i + 3]) == Body(input[..i]) + Lookup(Pack(input[i], input[i + 1], input[i + 2]), 4)
  {
    hide Body, Lookup, Pack;
    assert input[..i + 3] == input[..i] + [input[i], input[i + 1], input[i + 2]];
    BodyConcat(input[..i], [input[i], input[i + 1], input[i + 2]]);
    BodyOfThree(input[i], input[i + 1], input[i + 2]);
  }

  lemma EmptyBody()
    ensures Body([]) == []
  {
  }

  /** Without a rest there is no padding. */
  lemma WholeEncoded(bytes: seq<Byte>)
    requires |bytes| % 3 == 0
    ensures Encode(bytes) == Body(bytes)
  {
    BodyLength(bytes);
    assert Body(bytes) + "" == Body(bytes);
  }

  /** Two or one bytes left over make a padded last quantum. */
  lemma TailOfOne(done: seq<Byte>, b0: Byte)
    requires |done| % 3 == 0
    ensures Encode(done + [b0]) == Body(done) + (Lookup(Pack(b0, 0, 0), 2) + "==")
  {
    hide Body, Lookup, Pack, Encode;
    BodyConcat(done, [b0]);
    BodyOfOne(b0);
    EncodeIsBodyAndPadding(done + [b0]);
    BodyLength(done + [b0]);
    RestLetters(|done|);
  }

  lemma TailOfTwo(done: seq<Byte>, b0: Byte, b1: Byte)
    requires |done| % 3 == 0
    ensures Encode(done + [b0, b1]) == Body(done) + (Lookup(Pack(b0, b1, 0), 3) + "=")
  {
    hide Body, Lookup, Pack, Encode;
    BodyConcat(done, [b0, b1]);
    BodyOfTwo(b0, b1);
    EncodeIsBodyAndPadding(done + [b0, b1]);
    BodyLength(done + [b0, b1]);
    RestLetters(|done|);
  }

  lemma EncodeIsBodyAndPadding(bytes: seq<Byte>)
    ensures Encode(bytes) == Body(bytes) + Padding(|Body(bytes)|)
  {
  }

  /** Reading a stored text back gives the original bytes exactly when there were at
      most 96 of them; longer inputs are silently cut off. */
  lemma StoredTextIsFaithful(input: seq<Byte>)
    ensures Decode(Encode(Stored(input))) == input <==> |input| <= 96
  {
    DecodeUndoesEncode(Stored(input));
  }
}

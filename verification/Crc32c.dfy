/** CRC32C (Castagnoli), the checksum of the block file format: the reflected polynomial named in
    section 12.1 of RFC 3720, one bit per step on a 32-bit register. */
module Crc32c {

  type byte = bv8

  function Xor(a: bv32, b: bv32): bv32 {
    a ^ b
  }

  function Low(c: bv32): bv32 {
    c & 1
  }

  function Half(c: bv32): bv32 {
    c >> 1
  }

  function BitStep(c: bv32): bv32 {
    if Low(c) == 1 then Xor(Half(c), 0x82F6_3B78) else Half(c)
  }

  /** The register starts as all ones, and the result is complemented. */
  function Ones(): bv32 {
    0xFFFF_FFFF
  }

  function EightBits(c: bv32): bv32 {
    BitStep(BitStep(BitStep(BitStep(BitStep(BitStep(BitStep(BitStep(c))))))))
  }

  function ByteStep(c: bv32, b: byte): bv32 {
    EightBits(Xor(c, b as bv32))
  }

  /** The register after `data`. */
  function Update(c: bv32, data: seq<byte>): bv32
    decreases |data|
  {
    if data == [] then c else Update(ByteStep(c, data[0]), data[1..])
  }

  /** `crc32c_checksum`. */
  function Checksum(data: seq<byte>): bv32 {
    Xor(Update(Ones(), data), Ones())
  }

  /** `crc32c_append`: continue a finished checksum over more bytes. */
  function Append(crc: bv32, data: seq<byte>): bv32 {
    Xor(Update(Xor(crc, Ones()), data), Ones())
  }

  /** Four bytes read as a little-endian word, and back. */
  function Word(b: seq<byte>): bv32
    requires |b| == 4
  {
    (b[0] as bv32) | ((b[1] as bv32) << 8) | ((b[2] as bv32) << 16) | ((b[3] as bv32) << 24)
  }

  function LittleEndian(c: bv32): seq<byte> {
    [(c & 0xFF) as byte, ((c >> 8) & 0xFF) as byte, ((c >> 16) & 0xFF) as byte, (c >> 24) as byte]
  }

  lemma WordOfLittleEndian(c: bv32)
    ensures Word(LittleEndian(c)) == c
  {
  }

  lemma WordInjective(a: seq<byte>, b: seq<byte>)
    requires |a| == 4 && |b| == 4 && Word(a) == Word(b)
    ensures a == b
  {
    hide Word, LittleEndian;
    assert a == [a[0], a[1], a[2], a[3]] && b == [b[0], b[1], b[2], b[3]];
    LittleEndianOfWord(a[0], a[1], a[2], a[3]);
    LittleEndianOfWord(b[0], b[1], b[2], b[3]);
  }

  lemma LittleEndianOfWord(a: byte, b: byte, c: byte, d: byte)
    ensures LittleEndian(Word([a, b, c, d])) == [a, b, c, d]
  {
  }

  // ----- Concatenation -----

  lemma {:induction false} UpdateConcat(c: bv32, a: seq<byte>, b: seq<byte>)
    ensures Update(c, a + b) == Update(Update(c, a), b)
    decreases |a|
  {
    hide ByteStep;
    if a == [] {
      assert a + b == b;
    } else {
      assert (a + b)[1..] == a[1..] + b;
      UpdateConcat(ByteStep(c, a[0]), a[1..], b);
    }
  }

  /** `crc32c_checksum_concat`: appending gives the checksum of the concatenation. */
  lemma AppendIsConcat(a: seq<byte>, b: seq<byte>)
    ensures Append(Checksum(a), b) == Checksum(a + b)
  {
    hide Update, Xor, Ones;
    UpdateConcat(Ones(), a, b);
    XorTwice(Update(Ones(), a), Ones());
  }

  lemma XorTwice(c: bv32, x: bv32)
    ensures Xor(Xor(c, x), x) == c
  {
  }

  // ----- Injectivity -----

  lemma BitStepInjective(a: bv32, b: bv32)
    requires BitStep(a) == BitStep(b)
    ensures a == b
  {
  }

  lemma EightBitsInjective(a: bv32, b: bv32)
    requires EightBits(a) == EightBits(b)
    ensures a == b
  {
    hide BitStep;
    forall x: bv32, y: bv32 | BitStep(x) == BitStep(y) ensures x == y {
      BitStepInjective(x, y);
    }
  }

  lemma XorCancels(a: bv32, b: bv32, x: bv32)
    ensures Xor(a, x) == Xor(b, x) ==> a == b
    ensures Xor(x, a) == Xor(x, b) ==> a == b
  {
  }

  /** Different registers stay different under the same bytes. */
  lemma {:induction false} UpdateInjective(a: bv32, b: bv32, data: seq<byte>)
    requires Update(a, data) == Update(b, data)
    ensures a == b
    decreases |data|
  {
    hide ByteStep;
    if data != [] {
      UpdateInjective(ByteStep(a, data[0]), ByteStep(b, data[0]), data[1..]);
      ByteStepInjective(a, b, data[0]);
    }
  }

  lemma ByteStepInjective(a: bv32, b: bv32, d: byte)
    requires ByteStep(a, d) == ByteStep(b, d)
    ensures a == b
  {
    hide EightBits, Xor;
    EightBitsInjective(Xor(a, d as bv32), Xor(b, d as bv32));
    XorCancels(a, b, d as bv32);
  }

  // ----- Linearity: four bytes act as one word -----

  lemma HalfOfXor(a: bv32, b: bv32)
    ensures Half(Xor(a, b)) == Xor(Half(a), Half(b))
  {
  }

  lemma LowOfXor(a: bv32, b: bv32)
    ensures Low(Xor(a, b)) == if Low(a) == Low(b) then 0 else 1
    ensures Low(a) == 0 || Low(a) == 1
  {
  }

  lemma XorShuffles(a: bv32, b: bv32, x: bv32)
    ensures Xor(Xor(a, x), b) == Xor(Xor(a, b), x)
    ensures Xor(a, Xor(b, x)) == Xor(Xor(a, b), x)
    ensures Xor(Xor(a, x), Xor(b, x)) == Xor(a, b)
  {
  }

  lemma BitStepOfXor(a: bv32, b: bv32)
    ensures BitStep(Xor(a, b)) == Xor(BitStep(a), BitStep(b))
  {
    hide Xor, Low, Half;
    HalfOfXor(a, b);
    LowOfXor(a, b);
    LowOfXor(b, a);
    XorShuffles(Half(a), Half(b), 0x82F6_3B78);
  }

  lemma FourBitsLinear(a: bv32, b: bv32)
    ensures BitStep(BitStep(BitStep(BitStep(Xor(a, b))))) ==
            Xor(BitStep(BitStep(BitStep(BitStep(a)))), BitStep(BitStep(BitStep(BitStep(b)))))
  {
    hide BitStep, Xor;
    BitStepOfXor(a, b);
    BitStepOfXor(BitStep(a), BitStep(b));
    BitStepOfXor(BitStep(BitStep(a)), BitStep(BitStep(b)));
    BitStepOfXor(BitStep(BitStep(BitStep(a))), BitStep(BitStep(BitStep(b))));
  }

  lemma EightBitsLinear(a: bv32, b: bv32)
    ensures EightBits(Xor(a, b)) == Xor(EightBits(a), EightBits(b))
  {
    hide BitStep, Xor;
    FourBitsLinear(a, b);
    FourBitsLinear(BitStep(BitStep(BitStep(BitStep(a)))), BitStep(BitStep(BitStep(BitStep(b)))));
  }

  lemma HighBytesShiftDown(y: bv32)
    requires y <= 0xFF_FFFF
    ensures EightBits(y << 8) == y
  {
  }

  function Word32(c: bv32): bv32 {
    EightBits(EightBits(EightBits(EightBits(c))))
  }

  /** A byte below three more, as one word. */
  function Above(b: byte, rest: bv32): bv32 {
    (b as bv32) | (rest << 8)
  }

  lemma XorAbove(c: bv32, b: byte, rest: bv32)
    ensures Xor(c, Above(b, rest)) == Xor(Xor(c, b as bv32), rest << 8)
  {
  }

  /** One byte leaves the other three of a word waiting in the register. */
  lemma ByteOfWord(c: bv32, b: byte, rest: bv32)
    requires rest <= 0xFF_FFFF
    ensures EightBits(Xor(c, Above(b, rest))) == Xor(ByteStep(c, b), rest)
  {
    hide EightBits, Xor, Above;
    XorAbove(c, b, rest);
    EightBitsLinear(Xor(c, b as bv32), rest << 8);
    HighBytesShiftDown(rest);
  }

  lemma FourBytesAreOneWord(c: bv32, w: seq<byte>)
    requires |w| == 4
    ensures Update(c, w) == Word32(Xor(c, Word(w)))
  {
    hide EightBits, Xor, Above, Word, Update;
    var b0, b1, b2, b3 := w[0], w[1], w[2], w[3];
    assert w == [b0, b1, b2, b3];
    var c1 := ByteStep(c, b0);
    var c2 := ByteStep(c1, b1);
    var c3 := ByteStep(c2, b2);
    UpdateFour(c, b0, b1, b2, b3);
    SplitWord(b0, b1, b2, b3);
    ByteOfWord(c, b0, Above(b1, Above(b2, b3 as bv32)));
    ByteOfWord(c1, b1, Above(b2, b3 as bv32));
    ByteOfWord(c2, b2, b3 as bv32);
  }

  lemma UpdateFour(c: bv32, b0: byte, b1: byte, b2: byte, b3: byte)
    ensures Update(c, [b0, b1, b2, b3]) == ByteStep(ByteStep(ByteStep(ByteStep(c, b0), b1), b2), b3)
  {
    hide ByteStep;
    assert [b0, b1, b2, b3][1..] == [b1, b2, b3];
    assert [b1, b2, b3][1..] == [b2, b3];
    assert [b2, b3][1..] == [b3];
    var c1 := ByteStep(c, b0);
    var c2 := ByteStep(c1, b1);
    var c3 := ByteStep(c2, b2);
    assert Update(c, [b0, b1, b2, b3]) == Update(c1, [b1, b2, b3]);
    assert Update(c1, [b1, b2, b3]) == Update(c2, [b2, b3]);
    assert Update(c2, [b2, b3]) == Update(c3, [b3]);
    assert Update(c3, [b3]) == Update(ByteStep(c3, b3), [b3][1..]);
    assert [b3][1..] == [];
  }

  lemma SplitWord(b0: byte, b1: byte, b2: byte, b3: byte)
    ensures Word([b0, b1, b2, b3]) == Above(b0, Above(b1, Above(b2, b3 as bv32)))
    ensures Above(b1, Above(b2, b3 as bv32)) <= 0xFF_FFFF
    ensures Above(b2, b3 as bv32) <= 0xFF_FFFF && (b3 as bv32) <= 0xFF_FFFF
  {
  }

  lemma Word32Injective(a: bv32, b: bv32)
    requires Word32(a) == Word32(b)
    ensures a == b
  {
    hide EightBits;
    EightBitsInjective(EightBits(EightBits(EightBits(a))), EightBits(EightBits(EightBits(b))));
    EightBitsInjective(EightBits(EightBits(a)), EightBits(EightBits(b)));
    EightBitsInjective(EightBits(a), EightBits(b));
    EightBitsInjective(a, b);
  }

  // ----- What the checksum detects -----

  /** `f` and `g` differ, and only inside the four bytes from `k`. */
  ghost predicate DiffersInWindow(f: seq<byte>, g: seq<byte>, k: nat) {
    && |f| == |g| && k + 4 <= |f| && f != g
    && f[..k] == g[..k] && f[k + 4..] == g[k + 4..]
  }

  /** Any damage confined to four consecutive bytes changes the register. */
  lemma BurstChangesRegister(c: bv32, f: seq<byte>, g: seq<byte>, k: nat)
    requires DiffersInWindow(f, g, k)
    ensures Update(c, f) != Update(c, g)
  {
    hide Update, Word32, Word, Xor;
    var a, t := f[..k], f[k + 4..];
    var u, w := f[k..k + 4], g[k..k + 4];
    assert f == a + (u + t) && g == a + (w + t);
    UpdateConcat(c, a, u + t);
    UpdateConcat(c, a, w + t);
    var m := Update(c, a);
    UpdateConcat(m, u, t);
    UpdateConcat(m, w, t);
    if Update(c, f) == Update(c, g) {
      UpdateInjective(Update(m, u), Update(m, w), t);
      FourBytesAreOneWord(m, u);
      FourBytesAreOneWord(m, w);
      Word32Injective(Xor(m, Word(u)), Xor(m, Word(w)));
      XorCancels(Word(u), Word(w), m);
      WordInjective(u, w);
    }
  }

  /** A trailer holds the checksum of what precedes it exactly when the register ends at one
      constant value over body and trailer together. */
  lemma TrailerIsResidue(body: seq<byte>, trailer: seq<byte>)
    requires |trailer| == 4
    ensures Word(trailer) == Checksum(body) <==> Update(Ones(), body + trailer) == Word32(Ones())
  {
    hide Update, Word32, Word, Xor, Ones;
    UpdateConcat(Ones(), body, trailer);
    var m := Update(Ones(), body);
    FourBytesAreOneWord(m, trailer);
    XorMoves(m, Word(trailer), Ones());
    if Word32(Xor(m, Word(trailer))) == Word32(Ones()) {
      Word32Injective(Xor(m, Word(trailer)), Ones());
    }
  }

  lemma XorMoves(m: bv32, w: bv32, x: bv32)
    ensures w == Xor(m, x) <==> Xor(m, w) == x
  {
    hide Xor;
    XorTwiceLeft(m, x);
    XorTwiceLeft(m, w);
  }

  lemma XorTwiceLeft(m: bv32, x: bv32)
    ensures Xor(m, Xor(m, x)) == x
  {
  }

  /** That constant is the published residue of CRC32C. */
  lemma PublishedResidue()
    ensures Word32(Ones()) == 0xB798_B438
  {
    assert EightBits(0xFFFF_FFFF) == 0xAD82_ACAE;
    assert EightBits(0xAD82_ACAE) == 0x0E9E_882D;
    assert EightBits(0x0E9E_882D) == 0x9F9B_5C85;
    assert EightBits(0x9F9B_5C85) == 0xB798_B438;
  }
}

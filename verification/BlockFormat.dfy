/** The `.block` file format of `src/block_format.rs`: writing version 3, reading every version,
    and what damage a reader can and cannot notice. */
module BlockFormat {
  import opened Wrappers
  import opened Crc32c
  import opened Sums

  type bytes = seq<byte>

  const CACHE_BLOCK_SIZE: nat := 8 * 1024 * 1024
  const BLOCK_CRC_TRAILER: nat := 4
  const BLOCK_HEADER_SIZE: nat := 8
  const BLOCK_OVERHEAD: nat := BLOCK_HEADER_SIZE + BLOCK_CRC_TRAILER
  const MAX_PAYLOAD_OVERHEAD: nat := 65_536
  const MAX_PATH_LEN: nat := 8192
  /** "MNCR". */
  const BLOCK_MAGIC: bytes := [0x4D, 0x4E, 0x43, 0x52]

  /** The LZ4 library with its size prefix, seen from outside. */
  datatype Codec = Codec(compress: bytes -> bytes, decompress: bytes -> Option<bytes>)

  /** What the format relies on: lossless, and the worst-case growth of LZ4 plus the prefix. */
  ghost predicate SoundCodec(c: Codec) {
    forall d: bytes {:trigger c.compress(d)} ::
      c.decompress(c.compress(d)) == Some(d) && |c.compress(d)| <= |d| + |d| / 255 + 20
  }

  /** A byte from its eight bits, lowest first, and a bit of a byte. */
  function Bit(b: bool, mask: byte): byte {
    if b then mask else 0
  }

  function Pack(b0: bool, b1: bool, b2: bool, b3: bool, b4: bool, b5: bool, b6: bool, b7: bool): byte {
    Bit(b0, 1) | Bit(b1, 2) | Bit(b2, 4) | Bit(b3, 8) | Bit(b4, 16) | Bit(b5, 32) | Bit(b6, 64) | Bit(b7, 128)
  }

  predicate Has(b: byte, mask: byte) {
    b & mask != 0
  }

  predicate Odd(n: nat) {
    n % 2 == 1
  }

  function ToByte(n: nat): byte {
    var h1 := n / 2;
    var h2 := h1 / 2;
    var h3 := h2 / 2;
    var h4 := h3 / 2;
    var h5 := h4 / 2;
    var h6 := h5 / 2;
    Pack(Odd(n), Odd(h1), Odd(h2), Odd(h3), Odd(h4), Odd(h5), Odd(h6), Odd(h6 / 2))
  }

  function Weight(b: byte, mask: byte, w: nat): nat {
    if Has(b, mask) then w else 0
  }

  function FromByte(b: byte): nat {
    Weight(b, 1, 1) + Weight(b, 2, 2) + Weight(b, 4, 4) + Weight(b, 8, 8) +
    Weight(b, 16, 16) + Weight(b, 32, 32) + Weight(b, 64, 64) + Weight(b, 128, 128)
  }

  lemma UnpackPacked(b0: bool, b1: bool, b2: bool, b3: bool, b4: bool, b5: bool, b6: bool, b7: bool)
    ensures var b := Pack(b0, b1, b2, b3, b4, b5, b6, b7);
            && (Has(b, 1) <==> b0) && (Has(b, 2) <==> b1) && (Has(b, 4) <==> b2) && (Has(b, 8) <==> b3)
            && (Has(b, 16) <==> b4) && (Has(b, 32) <==> b5) && (Has(b, 64) <==> b6) && (Has(b, 128) <==> b7)
  {
  }

  lemma ValueOfPacked(b0: bool, b1: bool, b2: bool, b3: bool, b4: bool, b5: bool, b6: bool, b7: bool)
    ensures FromByte(Pack(b0, b1, b2, b3, b4, b5, b6, b7)) ==
            One(b0) + 2 * One(b1) + 4 * One(b2) + 8 * One(b3) +
            16 * One(b4) + 32 * One(b5) + 64 * One(b6) + 128 * One(b7)
  {
    hide Pack, Has;
    UnpackPacked(b0, b1, b2, b3, b4, b5, b6, b7);
  }

  lemma Halve(n: nat) returns (h: nat)
    ensures h == n / 2 && n == 2 * h + One(Odd(n))
  {
    h := n / 2;
  }

  lemma ByteRoundTrip(n: nat)
    requires n < 256
    ensures FromByte(ToByte(n)) == n
  {
    hide Pack, FromByte, Odd;
    var h1 := Halve(n);
    var h2 := Halve(h1);
    var h3 := Halve(h2);
    var h4 := Halve(h3);
    var h5 := Halve(h4);
    var h6 := Halve(h5);
    var h7 := Halve(h6);
    assert h4 < 16;
    assert h7 == One(Odd(h7)) by { var h8 := Halve(h7); }
    ValueOfPacked(Odd(n), Odd(h1), Odd(h2), Odd(h3), Odd(h4), Odd(h5), Odd(h6), Odd(h7));
  }

  /** A 16-bit little-endian length. */
  function Length16(n: nat): bytes
    requires n < 0x1_0000
  {
    [ToByte(n % 256), ToByte(n / 256)]
  }

  function FromLength16(b: bytes): nat
    requires |b| == 2
  {
    FromByte(b[0]) + 256 * FromByte(b[1])
  }

  lemma Length16RoundTrip(n: nat)
    requires n < 0x1_0000
    ensures FromLength16(Length16(n)) == n
  {
    hide FromByte, ToByte;
    ByteRoundTrip(n % 256);
    ByteRoundTrip(n / 256);
  }

  // ----- Writing -----

  function Header(): bytes {
    BLOCK_MAGIC + LittleEndian(3)
  }

  /** A version 3 file without its trailer. */
  function Body(c: Codec, path: bytes, data: bytes): bytes
    requires |path| <= MAX_PATH_LEN
  {
    Header() + (Length16(|path|) + path + c.compress(data))
  }

  /** A whole version 3 file. */
  function Block(c: Codec, path: bytes, data: bytes): bytes
    requires |path| <= MAX_PATH_LEN
  {
    var body := Body(c, path, data);
    body + LittleEndian(Checksum(body))
  }

  /** `serialize_v3_block`: a path too long for the format is refused; otherwise the buffer is
      filled piece by piece and the checksum taken in two parts. */
  method SerializeV3Block(c: Codec, path: bytes, data: bytes) returns (r: Option<bytes>)
    ensures r.None? <==> |path| > MAX_PATH_LEN
    ensures r.Some? ==> r.value == Block(c, path, data)
  {
    if |path| > MAX_PATH_LEN {
      return None;
    }
    hide Append, Checksum, LittleEndian, Length16;
    var compressed := c.compress(data);
    var header := BLOCK_MAGIC + LittleEndian(3);
    LittleEndianLength(3);
    var pathBlock := Length16(|path|);
    pathBlock := pathBlock + path;
    var buf := header;
    buf := buf + pathBlock;
    buf := buf + compressed;
    assert buf[BLOCK_HEADER_SIZE..] == pathBlock + compressed;
    var crc := Append(Checksum(header), buf[BLOCK_HEADER_SIZE..]);
    AppendIsConcat(header, pathBlock + compressed);
    assert buf == Body(c, path, data);
    buf := buf + LittleEndian(crc);
    r := Some(buf);
  }

  // ----- Reading -----

  /** `Reject`: nothing is returned and the file is unlinked. */
  datatype ReadResult = Hit(data: bytes) | Reject

  function DecodeLz4(c: Codec, payload: bytes): ReadResult {
    match c.decompress(payload)
    case Some(d) => if |d| <= CACHE_BLOCK_SIZE then Hit(d) else Reject
    case None => Reject
  }

  /** The version 3 arm: the embedded path must be the one asked for. */
  function ReadV3(c: Codec, content: bytes, expected: bytes): ReadResult {
    if |content| < 2 then Reject
    else
      var n := FromLength16(content[..2]);
      if n > MAX_PATH_LEN || 2 + n > |content| then Reject
      else if content[2..2 + n] == expected then DecodeLz4(c, content[2 + n..])
      else Reject
  }

  function ReadNewFormat(c: Codec, file: bytes, expected: bytes): ReadResult
    requires |file| >= BLOCK_HEADER_SIZE
  {
    if |file| < BLOCK_OVERHEAD then Reject
    else
      var end := |file| - BLOCK_CRC_TRAILER;
      if Word(file[end..]) != Checksum(file[..end]) then Reject
      else
        var version := Word(file[4..8]);
        var content := file[BLOCK_HEADER_SIZE..end];
        if version == 1 then Hit(content)
        else if version == 2 then DecodeLz4(c, content)
        else if version == 3 then ReadV3(c, content, expected)
        else Reject
  }

  function ReadLegacy(file: bytes): ReadResult {
    if |file| == CACHE_BLOCK_SIZE + BLOCK_CRC_TRAILER then
      if Word(file[CACHE_BLOCK_SIZE..]) != Checksum(file[..CACHE_BLOCK_SIZE]) then Reject
      else Hit(file[..CACHE_BLOCK_SIZE])
    else if |file| <= CACHE_BLOCK_SIZE then Hit(file)
    else Reject
  }

  /** `read_block_cached` on a file that exists and can be read. */
  function ReadBlock(c: Codec, file: bytes, expected: bytes): ReadResult {
    if |file| > CACHE_BLOCK_SIZE + BLOCK_OVERHEAD + MAX_PAYLOAD_OVERHEAD + MAX_PATH_LEN + 2 then Reject
    else if |file| >= BLOCK_HEADER_SIZE && file[..4] == BLOCK_MAGIC then ReadNewFormat(c, file, expected)
    else ReadLegacy(file)
  }

  // ----- Reading back what was written -----

  /** The parts of a written file, as the reader cuts it. */
  lemma BlockLayout(c: Codec, path: bytes, data: bytes)
    requires |path| <= MAX_PATH_LEN
    ensures var f := Block(c, path, data); var end := |f| - 4;
            && |f| == 8 + 2 + |path| + |c.compress(data)| + 4
            && f[..4] == BLOCK_MAGIC && Word(f[4..8]) == 3
            && f[8..end] == Length16(|path|) + path + c.compress(data)
            && f[..end] == Body(c, path, data)
            && Word(f[end..]) == Checksum(f[..end])
  {
    hide Checksum, Word, LittleEndian;
    var f := Block(c, path, data);
    var body := Body(c, path, data);
    LittleEndianLength(3);
    LittleEndianLength(Checksum(body));
    WordOfLittleEndian(3);
    WordOfLittleEndian(Checksum(body));
    assert f[4..8] == LittleEndian(3);
    assert f[|f| - 4..] == LittleEndian(Checksum(body));
  }

  lemma LittleEndianLength(w: bv32)
    ensures |LittleEndian(w)| == 4
  {
  }

  /** A written block, read under any path: the data comes back exactly when the path is the one
      it was written for and the data fits a cache block; otherwise the file is unlinked. */
  lemma ReadWrittenBlock(c: Codec, path: bytes, data: bytes, asked: bytes)
    requires SoundCodec(c) && |path| <= MAX_PATH_LEN
    ensures ReadBlock(c, Block(c, path, data), asked) ==
            if asked == path && |data| <= CACHE_BLOCK_SIZE then Hit(data) else Reject
  {
    hide Checksum, Word, LittleEndian, Block, Length16, FromLength16;
    BlockLayout(c, path, data);
    var f := Block(c, path, data);
    var content := f[8..|f| - 4];
    Length16RoundTrip(|path|);
    LengthIsTwo(|path|);
    assert content[..2] == Length16(|path|);
    assert content[2..2 + |path|] == path;
    assert content[2 + |path|..] == c.compress(data);
  }

  lemma LengthIsTwo(n: nat)
    requires n < 0x1_0000
    ensures |Length16(n)| == 2
  {
  }

  // ----- What the reader accepts -----

  /** A file of some version around its content. */
  function Framed(version: bv32, content: bytes): bytes {
    var body := BLOCK_MAGIC + LittleEndian(version) + content;
    body + LittleEndian(Checksum(body))
  }

  predicate HasMagic(file: bytes) {
    |file| >= 8 && file[..4] == BLOCK_MAGIC
  }

  lemma FramedParts(version: bv32, content: bytes)
    ensures var f := Framed(version, content); var end := |f| - 4;
            && |f| == 12 + |content| && HasMagic(f) && Word(f[4..8]) == version && f[8..end] == content
            && Word(f[end..]) == Checksum(f[..end])
  {
    hide Checksum, Word, LittleEndian;
    var body := BLOCK_MAGIC + LittleEndian(version) + content;
    var f := Framed(version, content);
    LittleEndianLength(version);
    LittleEndianLength(Checksum(body));
    WordOfLittleEndian(version);
    WordOfLittleEndian(Checksum(body));
    assert f[4..8] == LittleEndian(version);
    assert f[..|f| - 4] == body && f[|f| - 4..] == LittleEndian(Checksum(body));
    assert f[8..|f| - 4] == content;
  }

  lemma LittleEndianOf(b: bytes)
    requires |b| == 4
    ensures LittleEndian(Word(b)) == b
  {
    hide Word, LittleEndian;
    assert b == [b[0], b[1], b[2], b[3]];
    LittleEndianOfWord(b[0], b[1], b[2], b[3]);
  }

  lemma FramedFrom(file: bytes)
    requires |file| >= 12 && HasMagic(file) && Word(file[|file| - 4..]) == Checksum(file[..|file| - 4])
    ensures file == Framed(Word(file[4..8]), file[8..|file| - 4])
  {
    hide Checksum, Word, LittleEndian;
    var end := |file| - 4;
    LittleEndianOf(file[4..8]);
    LittleEndianOf(file[end..]);
    assert file[..end] == BLOCK_MAGIC + file[4..8] + file[8..end];
    assert file == file[..end] + file[end..];
  }

  /** The payload of a compressed block unpacks to `d`. */
  predicate Unpacks(c: Codec, payload: bytes, d: bytes) {
    c.decompress(payload) == Some(d) && |d| <= CACHE_BLOCK_SIZE
  }

  /** A version 3 content: the length of the path, the path, the payload. */
  ghost predicate NamedContent(c: Codec, content: bytes, asked: bytes, d: bytes) {
    && |content| >= 2 + |asked| && |asked| <= MAX_PATH_LEN
    && FromLength16(content[..2]) == |asked| && content[2..2 + |asked|] == asked
    && Unpacks(c, content[2 + |asked|..], d)
  }

  /** The file is of one of the five kinds and holds `d`: version 1 as it is, version 2 compressed, version 3
      compressed under its path, a headerless full block with a checksum, and anything shorter as it is. */
  ghost predicate Holds(c: Codec, file: bytes, asked: bytes, d: bytes) {
    && |file| <= 8_462_350
    && if HasMagic(file) then
         || file == Framed(1, d)
         || (exists content :: file == Framed(2, content) && Unpacks(c, content, d))
         || (exists content :: file == Framed(3, content) && NamedContent(c, content, asked, d))
       else (|d| == CACHE_BLOCK_SIZE && file == d + LittleEndian(Checksum(d))) || (|file| <= CACHE_BLOCK_SIZE && d == file)
  }

  /** On every file there is: the reader returns `d` if and only if the file holds `d`. */
  lemma AcceptedExactly(c: Codec, file: bytes, asked: bytes, d: bytes)
    ensures ReadBlock(c, file, asked) == Hit(d) <==> Holds(c, file, asked, d)
  {
    if HasMagic(file) {
      hide Checksum, Word, LittleEndian, FromLength16;
      MagicAccepted(c, file, asked, d);
    } else {
      hide ReadNewFormat, Framed;
      LegacyAccepted(file, d);
    }
  }

  lemma LegacyAccepted(file: bytes, d: bytes)
    ensures ReadLegacy(file) == Hit(d) <==>
            (|d| == CACHE_BLOCK_SIZE && file == d + LittleEndian(Checksum(d))) || (|file| <= CACHE_BLOCK_SIZE && d == file)
  {
    hide Checksum, Word, LittleEndian;
    var n := CACHE_BLOCK_SIZE;
    LittleEndianLength(Checksum(d));
    WordOfLittleEndian(Checksum(d));
    if |d| == n && file == d + LittleEndian(Checksum(d)) {
      assert file[..n] == d && file[n..] == LittleEndian(Checksum(d));
    } else if |file| == n + 4 && ReadLegacy(file) == Hit(d) {
      LittleEndianOf(file[n..]);
    }
  }

  lemma MagicAccepted(c: Codec, file: bytes, asked: bytes, d: bytes)
    requires HasMagic(file)
    ensures ReadNewFormat(c, file, asked) == Hit(d) <==>
            || file == Framed(1, d)
            || (exists content :: file == Framed(2, content) && Unpacks(c, content, d))
            || (exists content :: file == Framed(3, content) && NamedContent(c, content, asked, d))
  {
    hide Checksum, Word, LittleEndian, FromLength16, Framed;
    FramedParts(1, d);
    forall content | file == Framed(2, content) ensures ReadNewFormat(c, file, asked) == Hit(d) <==> Unpacks(c, content, d) {
      FramedParts(2, content);
    }
    forall content | file == Framed(3, content)
      ensures ReadNewFormat(c, file, asked) == Hit(d) <==> NamedContent(c, content, asked, d)
    {
      FramedParts(3, content);
      NamedAccepted(c, content, asked, d);
    }
    if ReadNewFormat(c, file, asked) == Hit(d) {
      FramedFrom(file);
    }
  }

  lemma NamedAccepted(c: Codec, content: bytes, asked: bytes, d: bytes)
    ensures ReadV3(c, content, asked) == Hit(d) <==> NamedContent(c, content, asked, d)
  {
    hide FromLength16;
  }

  // ----- Damage -----

  /** The reader's checksum test, as one constant final register value. */
  lemma ChecksumTest(file: bytes)
    requires |file| >= 4
    ensures var end := |file| - 4;
            Word(file[end..]) == Checksum(file[..end]) <==> Update(Ones(), file) == Word32(Ones())
  {
    hide Checksum, Word, Update, Word32, Ones;
    var end := |file| - 4;
    assert file == file[..end] + file[end..];
    TrailerIsResidue(file[..end], file[end..]);
  }

  /** Damage to a written block, confined to any four consecutive bytes after the magic, is
      noticed whatever path is asked for: trailer, version, path and payload alike. */
  lemma BurstRejected(c: Codec, path: bytes, data: bytes, g: bytes, k: nat, asked: bytes)
    requires |path| <= MAX_PATH_LEN && 4 <= k
    requires DiffersInWindow(Block(c, path, data), g, k)
    ensures ReadBlock(c, g, asked) == Reject
  {
    hide Checksum, Word, Update, Word32, Ones, Block, LittleEndian, Length16;
    var f := Block(c, path, data);
    BlockLayout(c, path, data);
    ChecksumTest(f);
    ChecksumTest(g);
    BurstChangesRegister(Ones(), f, g, k);
    assert g[..4] == f[..k][..4] == f[..4];
  }

  /** One changed byte is rejected exactly when it lies outside the magic or the file is longer
      than a cache block. A changed magic on a shorter file falls to the reader of headerless
      files, which returns the raw file as if it were content. */
  lemma ByteChangeRejectedExactly(c: Codec, path: bytes, data: bytes, k: nat, b: byte, asked: bytes)
    requires |path| <= MAX_PATH_LEN
    requires k < |Block(c, path, data)| && b != Block(c, path, data)[k]
    ensures var f := Block(c, path, data);
            && (ReadBlock(c, f[k := b], asked) == Reject <==> k >= 4 || |f| > CACHE_BLOCK_SIZE)
            && (k < 4 && |f| <= CACHE_BLOCK_SIZE ==> ReadBlock(c, f[k := b], asked) == Hit(f[k := b]))
  {
    hide Checksum, Word, Update, Word32, Ones, Block, LittleEndian, Length16;
    var f := Block(c, path, data);
    var g := f[k := b];
    BlockLayout(c, path, data);
    var at := if k < 4 then 0 else if k + 4 <= |f| then k else |f| - 4;
    assert DiffersInWindow(f, g, at) by {
      assert g[k] != f[k];
      assert f[..at] == g[..at] && f[at + 4..] == g[at + 4..];
    }
    if k >= 4 {
      BurstRejected(c, path, data, g, at, asked);
    } else {
      assert g[..4][k] == b && f[..4][k] == f[k];
      ChecksumTest(f);
      ChecksumTest(g);
      BurstChangesRegister(Ones(), f, g, at);
    }
  }
}

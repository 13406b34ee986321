/** Walking the blocks of a zstd frame (sections 3.1.1 and 3.1.1.2 of RFC 8878). The
    frame header is decoded by a library; what is needed of it is that a header ends
    where it says, whatever follows. */
module ZstdFrame {
  import opened Basics

  type Byte = b: int | 0 <= b < 256

  datatype Header = Header(length: nat, hasChecksum: bool)

  type HeaderDecoder = seq<Byte> -> Option<Header>

  /** The header src starts with, if it is one and lies within src. */
  function HeaderOf(decode: HeaderDecoder, src: seq<Byte>): Option<Header> {
    var h := decode(src);
    if h.Some? && h.value.length <= |src| then h else None
  }

  predicate EndsWhereItSays(decode: HeaderDecoder, src: seq<Byte>, rest: seq<Byte>) {
    HeaderOf(decode, src).Some? ==>
      HeaderOf(decode, src[..HeaderOf(decode, src).value.length] + rest) == HeaderOf(decode, src)
  }

  ghost predicate SelfDelimiting(decode: HeaderDecoder) {
    forall src, rest :: EndsWhereItSays(decode, src, rest)
  }

  // ---- the format ----

  const RLE := 1

  /** A block: its type and size fields and the bytes it carries. An RLE block carries
      one byte however large it expands. */
  datatype Block = Block(kind: nat, size: nat, content: seq<Byte>)
  {
    predicate WellFormed() {
      kind < 4 && size < 0x20_0000 && |content| == if kind == RLE then 1 else size
    }
  }

  function BlockHeader(last: bool, b: Block): nat {
    (if last then 1 else 0) + 2 * b.kind + 8 * b.size
  }

  /** The three bytes of a block header, lowest first. */
  function ThreeBytes(h: nat): seq<Byte>
    requires h < 0x100_0000
  {
    [h % 256, (h / 256) % 256, h / 65536]
  }

  function Encode(last: bool, b: Block): seq<Byte>
    requires b.WellFormed()
  {
    ThreeBytes(BlockHeader(last, b)) + b.content
  }

  /** The blocks of a frame, the last one marked as such. */
  function EncodeBlocks(blocks: seq<Block>): seq<Byte>
    requires blocks != [] && forall b <- blocks :: b.WellFormed()
  {
    if |blocks| == 1 then Encode(true, blocks[0]) else Encode(false, blocks[0]) + EncodeBlocks(blocks[1..])
  }

  datatype Frame = Frame(header: seq<Byte>, blocks: seq<Block>, checksum: seq<Byte>)

  ghost predicate IsFrame(decode: HeaderDecoder, f: Frame) {
    && HeaderOf(decode, f.header).Some? && HeaderOf(decode, f.header).value.length == |f.header|
    && f.blocks != [] && (forall b <- f.blocks :: b.WellFormed())
    && |f.checksum| == if HeaderOf(decode, f.header).value.hasChecksum then 4 else 0
  }

  function EncodeFrame(f: Frame): seq<Byte>
    requires f.blocks != [] && forall b <- f.blocks :: b.WellFormed()
  {
    f.header + EncodeBlocks(f.blocks) + f.checksum
  }

  // ---- the walk ----

  function LittleEndian(a: int, b: int, c: int): int {
    a + 256 * b + 65536 * c
  }

  function Field(rest: seq<Byte>): nat
    requires |rest| >= 3
  {
    LittleEndian(rest[0], rest[1], rest[2])
  }

  /** How many bytes of content follow the three of a block header. */
  function ContentSize(header: nat): nat {
    if (header / 2) % 4 == RLE then 1 else header / 8
  }

  /** The length of the blocks rest starts with, up to and including the last one. */
  function BlocksLength(rest: seq<Byte>): Option<nat> {
    if |rest| < 3 then None else
      var end := 3 + ContentSize(Field(rest));
      if |rest| < end then None
      else if Field(rest) % 2 == 1 then Some(end)
      else
        var more := BlocksLength(rest[end..]);
        if more.None? then None else Some(end + more.value)
  }

  /** frameLength as a function of the input. */
  function FrameLengthOf(decode: HeaderDecoder, src: seq<Byte>): Option<nat> {
    if HeaderOf(decode, src).None? then None else
      var h := HeaderOf(decode, src).value;
      var blocks := BlocksLength(src[h.length..]);
      if blocks.None? then None
      else if !h.hasChecksum then Some(h.length + blocks.value)
      else if |src| < h.length + blocks.value + 4 then None
      else Some(h.length + blocks.value + 4)
  }

  method FrameLength(decode: HeaderDecoder, src: seq<Byte>) returns (r: Option<nat>)
    ensures r == FrameLengthOf(decode, src)
  {
    hide Field, ContentSize;
    var h := HeaderOf(decode, src);
    if h.None? {
      return None;
    }
    var rest, n := src[h.value.length..], h.value.length;
    ghost var whole := BlocksLength(rest);
    while true
      invariant h.value.length <= n <= |src| && rest == src[n..]
      invariant whole == if BlocksLength(rest).None? then None
                         else Some(n - h.value.length + BlocksLength(rest).value)
      decreases |rest|
    {
      if |rest| < 3 {
        return None;
      }
      var header := Field(rest);
      var size := ContentSize(header);
      if |rest| < 3 + size {
        return None;
      }
      rest, n := rest[3 + size..], n + 3 + size;
      if header % 2 == 1 {
        break;
      }
    }
    if h.value.hasChecksum {
      if |rest| < 4 {
        return None;
      }
      n := n + 4;
    }
    r := Some(n);
  }

  // ---- exactness ----

  lemma BytesOfNumber(h: nat)
    requires h < 0x100_0000
    ensures LittleEndian(h % 256, (h / 256) % 256, h / 65536) == h
  {
    assert (h / 256) / 256 == h / 65536;
  }

  lemma NumberOfBytes(a: Byte, b: Byte, c: Byte)
    ensures var h := LittleEndian(a, b, c);
            0 <= h < 0x100_0000 && h % 256 == a && (h / 256) % 256 == b && h / 65536 == c
  {
    var h := LittleEndian(a, b, c);
    assert h / 256 == b + 256 * c;
  }

  lemma HeaderParts(bit: nat, kind: nat, size: nat)
    requires bit < 2 && kind < 4
    ensures var h := bit + 2 * kind + 8 * size; h % 2 == bit && (h / 2) % 4 == kind && h / 8 == size
  {
    var h := bit + 2 * kind + 8 * size;
    assert h / 2 == kind + 4 * size;
  }

  lemma EncodedHeader(last: bool, b: Block, rest: seq<Byte>)
    requires b.WellFormed()
    ensures var e := Encode(last, b) + rest;
            && |Encode(last, b)| == 3 + |b.content| <= |e|
            && Field(e) == BlockHeader(last, b)
            && ContentSize(Field(e)) == |b.content|
            && (Field(e) % 2 == 1 <==> last)
            && e[3 + |b.content|..] == rest
  {
    BytesOfNumber(BlockHeader(last, b));
    HeaderParts(if last then 1 else 0, b.kind, b.size);
    hide LittleEndian;
    var e := Encode(last, b) + rest;
    assert e[..3] == ThreeBytes(BlockHeader(last, b));
    assert e[0] == e[..3][0] && e[1] == e[..3][1] && e[2] == e[..3][2];
  }

  lemma {:induction false} WalkOfEncoding(blocks: seq<Block>, rest: seq<Byte>)
    requires blocks != [] && forall b <- blocks :: b.WellFormed()
    ensures BlocksLength(EncodeBlocks(blocks) + rest) == Some(|EncodeBlocks(blocks)|)
  {
    hide Field, ContentSize, Encode;
    if |blocks| == 1 {
      EncodedHeader(true, blocks[0], rest);
    } else {
      var tail := EncodeBlocks(blocks[1..]) + rest;
      EncodedHeader(false, blocks[0], tail);
      assert EncodeBlocks(blocks) + rest == Encode(false, blocks[0]) + tail;
      WalkOfEncoding(blocks[1..], rest);
    }
  }

  /** For every frame, whatever follows it, the walk finds exactly its length. */
  lemma FrameThenAnything(decode: HeaderDecoder, f: Frame, rest: seq<Byte>)
    requires SelfDelimiting(decode) && IsFrame(decode, f)
    ensures FrameLengthOf(decode, EncodeFrame(f) + rest) == Some(|EncodeFrame(f)|)
  {
    hide EncodeBlocks, BlocksLength;
    var src := EncodeFrame(f) + rest;
    var after := EncodeBlocks(f.blocks) + (f.checksum + rest);
    assert src == f.header + after;
    assert f.header == f.header[..|f.header|];
    assert EndsWhereItSays(decode, f.header, after);
    assert src[|f.header|..] == after;
    WalkOfEncoding(f.blocks, f.checksum + rest);
  }

  lemma BlockIsEncoded(rest: seq<Byte>)
    requires |rest| >= 3 && |rest| >= 3 + ContentSize(Field(rest))
    ensures var header, end := Field(rest), 3 + ContentSize(Field(rest));
            var b := Block((header / 2) % 4, header / 8, rest[3..end]);
            b.WellFormed() && Encode(header % 2 == 1, b) == rest[..end]
  {
    NumberOfBytes(rest[0], rest[1], rest[2]);
    hide LittleEndian;
    var header, end := Field(rest), 3 + ContentSize(Field(rest));
    var b := Block((header / 2) % 4, header / 8, rest[3..end]);
    assert BlockHeader(header % 2 == 1, b) == header;
    assert ThreeBytes(header) == rest[..3];
    assert rest[..end] == rest[..3] + rest[3..end];
  }

  /** Whatever the walk accepts is the encoding of the blocks it went over. */
  lemma {:induction false} WalkIsEncoding(rest: seq<Byte>) returns (blocks: seq<Block>)
    requires BlocksLength(rest).Some?
    ensures blocks != [] && (forall b <- blocks :: b.WellFormed())
    ensures BlocksLength(rest).value <= |rest| && EncodeBlocks(blocks) == rest[..BlocksLength(rest).value]
  {
    var header, end := Field(rest), 3 + ContentSize(Field(rest));
    var b := Block((header / 2) % 4, header / 8, rest[3..end]);
    BlockIsEncoded(rest);
    if header % 2 == 1 {
      blocks := [b];
    } else {
      var more := WalkIsEncoding(rest[end..]);
      blocks := [b] + more;
      assert blocks[1..] == more;
      var n := BlocksLength(rest[end..]).value;
      assert rest[..end + n] == rest[..end] + rest[end..][..n];
    }
  }

  lemma FrameAtStart(decode: HeaderDecoder, src: seq<Byte>) returns (f: Frame)
    requires SelfDelimiting(decode) && FrameLengthOf(decode, src).Some?
    ensures FrameLengthOf(decode, src).value <= |src|
    ensures IsFrame(decode, f) && EncodeFrame(f) == src[..FrameLengthOf(decode, src).value]
  {
    hide BlocksLength, EncodeBlocks;
    var h, n := HeaderOf(decode, src).value, FrameLengthOf(decode, src).value;
    var rest := src[h.length..];
    var blocks := WalkIsEncoding(rest);
    var k := BlocksLength(rest).value;
    f := Frame(src[..h.length], blocks, src[h.length + k..n]);
    assert EndsWhereItSays(decode, src, []) && src[..h.length] + [] == src[..h.length];
    assert src[..n] == src[..h.length] + rest[..k] + src[h.length + k..n];
  }

  /** A length that is returned lies within the input and cuts off exactly one frame, the
      only one the input starts with. */
  lemma LengthDelimitsOneFrame(decode: HeaderDecoder, src: seq<Byte>)
    requires SelfDelimiting(decode) && FrameLengthOf(decode, src).Some?
    ensures var n := FrameLengthOf(decode, src).value;
            && n <= |src|
            && (exists f :: IsFrame(decode, f) && EncodeFrame(f) == src[..n])
            && (forall f | IsFrame(decode, f) && EncodeFrame(f) <= src :: |EncodeFrame(f)| == n)
  {
    hide SelfDelimiting, FrameLengthOf, EncodeFrame;
    var f := FrameAtStart(decode, src);
    forall g | IsFrame(decode, g) && EncodeFrame(g) <= src
      ensures |EncodeFrame(g)| == FrameLengthOf(decode, src).value
    {
      assert src == EncodeFrame(g) + src[|EncodeFrame(g)|..];
      FrameThenAnything(decode, g, src[|EncodeFrame(g)|..]);
    }
  }

  // ---- the header of the format is such a header ----

  function DictionaryIdSize(descriptor: Byte): nat {
    match descriptor % 4 case 0 => 0 case 1 => 1 case 2 => 2 case _ => 4
  }

  function ContentSizeSize(descriptor: Byte): nat {
    match descriptor / 64
    case 0 => if (descriptor / 32) % 2 == 1 then 1 else 0
    case 1 => 2
    case 2 => 4
    case _ => 8
  }

  /** Section 3.1.1.1 of RFC 8878: magic number, descriptor, window descriptor unless the
      frame is a single segment, dictionary id and content size. */
  function StandardHeader(src: seq<Byte>): Option<Header> {
    if |src| < 5 || src[..4] != [0x28, 0xB5, 0x2F, 0xFD] || (src[4] / 8) % 2 == 1 then None else
      var d := src[4];
      var length := 5 + (if (d / 32) % 2 == 1 then 0 else 1) + DictionaryIdSize(d) + ContentSizeSize(d);
      if |src| < length then None else Some(Header(length, (d / 4) % 2 == 1))
  }

  lemma StandardHeaderIsSelfDelimiting()
    ensures SelfDelimiting(StandardHeader)
  {
    forall src, rest ensures EndsWhereItSays(StandardHeader, src, rest) {
      if StandardHeader(src).Some? {
        var n := StandardHeader(src).value.length;
        assert (src[..n] + rest)[..4] == src[..4] && (src[..n] + rest)[4] == src[4];
      }
    }
  }
}

/** The 64-byte frame header: laid out by the C++ writer, decoded by the Go reader. */
module FrameMeta {
  import opened Bytes

  const METADATA_SIZE: nat := 64
  const MAGIC_NUMBER: u32 := 0xFFAABBCC

  datatype FrameMetadata = FrameMetadata(
    magic: u32, frameSize: u32, epochMs: u64, pts: i64, dts: i64,
    codecID: u32, isKeyFrame: byte, mediaType: byte)

  /** The 26 bytes after the last field. The writer never initialises them. */
  type Padding = s: seq<byte> | |s| == 26 witness seq(26, _ => 0)

  /** The memory image of the writer's struct. */
  function Header(m: FrameMetadata, pad: Padding): (bs: seq<byte>)
    ensures |bs| == METADATA_SIZE
  {
    (Little(m.magic, 4) + Little(m.frameSize, 4) + Little(m.epochMs, 8))
    + (Little(ToUnsigned(m.pts), 8) + Little(ToUnsigned(m.dts), 8))
    + (Little(m.codecID, 4) + [m.isKeyFrame, m.mediaType] + pad)
  }

  function Uint32(bs: seq<byte>): u32
    requires |bs| == 4
  {
    Widths();
    FromLittle(bs)
  }

  function Uint64(bs: seq<byte>): u64
    requires |bs| == 8
  {
    Widths();
    FromLittle(bs)
  }

  /** The reader's view of a header image. */
  function Decode(bs: seq<byte>): FrameMetadata
    requires |bs| >= METADATA_SIZE
  {
    FrameMetadata(
      Uint32(bs[0..4]), Uint32(bs[4..8]), Uint64(bs[8..16]),
      ToSigned(Uint64(bs[16..24])), ToSigned(Uint64(bs[24..32])),
      Uint32(bs[32..36]), bs[36], bs[37])
  }

  /** The magic number's bytes, in the order both processes see them. */
  lemma MagicOnTheWire()
    ensures Little(MAGIC_NUMBER, 4) == [0xCC, 0xBB, 0xAA, 0xFF]
  {
    assert Little(0xFF, 1) == [0xFF];
    assert Little(0xFFAA, 2) == [0xAA, 0xFF];
    assert Little(0xFFAABB, 3) == [0xBB, 0xAA, 0xFF];
  }

  lemma Triple(a: seq<byte>, b: seq<byte>, c: seq<byte>)
    ensures var bs := a + b + c;
            && bs[0..|a|] == a && bs[|a|..|a| + |b|] == b && bs[|a| + |b|..] == c
  {
  }

  lemma Thirds(a: seq<byte>, b: seq<byte>, c: seq<byte>)
    requires |a| == 16 && |b| == 16 && |c| == 32
    ensures var bs := a + b + c;
            && bs[0..4] == a[0..4] && bs[4..8] == a[4..8] && bs[8..16] == a[8..16]
            && bs[16..24] == b[0..8] && bs[24..32] == b[8..16]
            && bs[32..36] == c[0..4] && bs[36] == c[4] && bs[37] == c[5] && bs[38..] == c[6..]
  {
  }

  lemma LayoutSlices(
      magic: seq<byte>, size: seq<byte>, epoch: seq<byte>, pts: seq<byte>, dts: seq<byte>,
      codec: seq<byte>, flags: seq<byte>, pad: seq<byte>)
    requires |magic| == |size| == |codec| == 4 && |epoch| == |pts| == |dts| == 8
    requires |flags| == 2 && |pad| == 26
    ensures var bs := (magic + size + epoch) + (pts + dts) + (codec + flags + pad);
            && bs[0..4] == magic && bs[4..8] == size && bs[8..16] == epoch
            && bs[16..24] == pts && bs[24..32] == dts && bs[32..36] == codec
            && bs[36] == flags[0] && bs[37] == flags[1] && bs[38..] == pad
  {
    Triple(magic, size, epoch);
    Triple(pts, dts, []);
    assert pts + dts + [] == pts + dts;
    Triple(codec, flags, pad);
    Thirds(magic + size + epoch, pts + dts, codec + flags + pad);
  }

  /** Field by field, the reader slices exactly what the writer laid out. */
  lemma HeaderSlices(m: FrameMetadata, pad: Padding)
    ensures var bs := Header(m, pad);
            && bs[0..4] == Little(m.magic, 4) && bs[4..8] == Little(m.frameSize, 4)
            && bs[8..16] == Little(m.epochMs, 8)
            && bs[16..24] == Little(ToUnsigned(m.pts), 8)
            && bs[24..32] == Little(ToUnsigned(m.dts), 8)
            && bs[32..36] == Little(m.codecID, 4)
            && bs[36] == m.isKeyFrame && bs[37] == m.mediaType && bs[38..] == pad
  {
    LayoutSlices(Little(m.magic, 4), Little(m.frameSize, 4), Little(m.epochMs, 8),
                 Little(ToUnsigned(m.pts), 8), Little(ToUnsigned(m.dts), 8),
                 Little(m.codecID, 4), [m.isKeyFrame, m.mediaType], pad);
  }

  /** Decoding undoes the writer's struct layout, for all field values and any padding. */
  lemma HeaderRoundTrip(m: FrameMetadata, pad: Padding)
    ensures Decode(Header(m, pad)) == m
  {
    Widths();
    HeaderSlices(m, pad);
    LittleRoundTrip(m.magic, 4);
    LittleRoundTrip(m.frameSize, 4);
    LittleRoundTrip(m.epochMs, 8);
    LittleRoundTrip(ToUnsigned(m.pts), 8);
    LittleRoundTrip(ToUnsigned(m.dts), 8);
    LittleRoundTrip(m.codecID, 4);
  }

  /** Conversely the first 38 bytes of any header image are determined by what the
      reader decodes, so no field of the wire format is lost or aliased. */
  lemma DecodeLosesNothing(bs: seq<byte>)
    requires |bs| == METADATA_SIZE
    ensures Header(Decode(bs), bs[38..]) == bs
  {
    var m := Decode(bs);
    FromLittleRoundTrip(bs[0..4]);
    FromLittleRoundTrip(bs[4..8]);
    FromLittleRoundTrip(bs[8..16]);
    FromLittleRoundTrip(bs[16..24]);
    FromLittleRoundTrip(bs[24..32]);
    FromLittleRoundTrip(bs[32..36]);
    var own := Header(m, bs[38..]);
    HeaderSlices(m, bs[38..]);
    SameSlices(own, bs);
  }

  lemma SameSlices(a: seq<byte>, b: seq<byte>)
    requires |a| == METADATA_SIZE && |b| == METADATA_SIZE
    requires a[0..4] == b[0..4] && a[4..8] == b[4..8] && a[8..16] == b[8..16]
    requires a[16..24] == b[16..24] && a[24..32] == b[24..32] && a[32..36] == b[32..36]
    requires a[36] == b[36] && a[37] == b[37] && a[38..] == b[38..]
    ensures a == b
  {
    forall i | 0 <= i < METADATA_SIZE
      ensures a[i] == b[i]
    {
      if i < 4 {
        assert a[0..4][i] == b[0..4][i];
      } else if i < 8 {
        assert a[4..8][i - 4] == b[4..8][i - 4];
      } else if i < 16 {
        assert a[8..16][i - 8] == b[8..16][i - 8];
      } else if i < 24 {
        assert a[16..24][i - 16] == b[16..24][i - 16];
      } else if i < 32 {
        assert a[24..32][i - 24] == b[24..32][i - 24];
      } else if i < 36 {
        assert a[32..36][i - 32] == b[32..36][i - 32];
      } else if i >= 38 {
        assert a[38..][i - 38] == b[38..][i - 38];
      }
    }
  }

  /** The reader's record, whose fields LoadFrom assigns one by one. */
  class MetaRecord {
    var magic: u32
    var frameSize: u32
    var epochMs: u64
    var pts: i64
    var dts: i64
    var codecID: u32
    var isKeyFrame: byte
    var mediaType: byte

    constructor ()
      ensures View() == FrameMetadata(0, 0, 0, 0, 0, 0, 0, 0)
    {
      magic, frameSize, epochMs, pts, dts := 0, 0, 0, 0, 0;
      codecID, isKeyFrame, mediaType := 0, 0, 0;
    }

    function View(): FrameMetadata
      reads this
    {
      FrameMetadata(magic, frameSize, epochMs, pts, dts, codecID, isKeyFrame, mediaType)
    }

    method LoadFrom(metaBytes: seq<byte>) returns (ok: bool)
      modifies this
      ensures ok <==> |metaBytes| >= METADATA_SIZE
      ensures ok ==> View() == Decode(metaBytes)
      ensures !ok ==> View() == old(View())
    {
      hide Uint64;
      if |metaBytes| < METADATA_SIZE {
        return false;
      }
      magic := Uint32(metaBytes[0..4]);
      frameSize := Uint32(metaBytes[4..8]);
      epochMs := Uint64(metaBytes[8..16]);
      pts := ToSigned(Uint64(metaBytes[16..24]));
      dts := ToSigned(Uint64(metaBytes[24..32]));
      codecID := Uint32(metaBytes[32..36]);
      isKeyFrame := metaBytes[36];
      mediaType := metaBytes[37];
      return true;
    }
  }
}

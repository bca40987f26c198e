/** The ICO container that wraps one PNG image for the Windows tray: a
    6-byte ICONDIR header, one 16-byte ICONDIRENTRY, then the PNG bytes.
    Multi-byte fields are little-endian. */
module IcoEncode {
  import opened Wrappers

  type byte = b: int | 0 <= b < 256

  const HeaderSize: nat := 6
  const EntrySize: nat := 16
  const DataOffset: nat := HeaderSize + EntrySize

  const TwoTo16: nat := 0x1_0000
  const TwoTo32: nat := 0x1_0000_0000

  function LE16(v: nat): (b: seq<byte>)
    requires v < TwoTo16
    ensures |b| == 2
  {
    [v % 256, v / 256]
  }

  function LE32(v: nat): (b: seq<byte>)
    requires v < TwoTo32
    ensures |b| == 4
  {
    [v % 256, (v / 0x100) % 256, (v / 0x1_0000) % 256, v / 0x100_0000]
  }

  function ReadLE16(b: seq<byte>, off: nat): nat
    requires off + 2 <= |b|
  {
    (b[off] as int) + 256 * (b[off + 1] as int)
  }

  function ReadLE32(b: seq<byte>, off: nat): nat
    requires off + 4 <= |b|
  {
    (b[off] as int) + 0x100 * (b[off + 1] as int) + 0x1_0000 * (b[off + 2] as int) + 0x100_0000 * (b[off + 3] as int)
  }

  lemma LE16RoundTrip(v: nat, pre: seq<byte>, post: seq<byte>)
    requires v < TwoTo16
    ensures ReadLE16(pre + LE16(v) + post, |pre|) == v
  {
    var b := pre + LE16(v) + post;
    assert b[|pre|] == v % 256 && b[|pre| + 1] == v / 256;
  }

  lemma LE32RoundTrip(v: nat, pre: seq<byte>, post: seq<byte>)
    requires v < TwoTo32
    ensures ReadLE32(pre + LE32(v) + post, |pre|) == v
  {
    var b := pre + LE32(v) + post;
    var q1 := v / 0x100;
    var q2 := q1 / 0x100;
    var q3 := q2 / 0x100;
    assert (v / 0x1_0000) == q2 && (v / 0x100_0000) == q3;
    assert b[|pre|] == v % 256 && b[|pre| + 1] == q1 % 256 && b[|pre| + 2] == q2 % 256 && b[|pre| + 3] == q3;
    assert v == v % 256 + 0x100 * q1;
    assert q1 == q1 % 256 + 0x100 * q2;
    assert q2 == q2 % 256 + 0x100 * q3;
  }

  /** The width/height byte of an entry: 0 stands for 256 or more, smaller
      values keep their low eight bits (Go's `byte(w)` conversion). */
  function IcoDimension(d: int): (b: byte)
    ensures d >= 256 ==> b == 0
    ensures 0 <= d < 256 ==> b == d
    ensures d < 256 ==> (b - d) % 256 == 0
  {
    if d >= 256 then 0 else d % 256
  }

  /** The ICO file holding `png` as its single image of size `w` x `h`. */
  function WrapPNGInICO(png: seq<byte>, w: int, h: int): (ico: seq<byte>)
    ensures |ico| == DataOffset + |png|
    ensures ico[..HeaderSize] == [0, 0, 1, 0, 1, 0]
    ensures ico[6] == IcoDimension(w) && ico[7] == IcoDimension(h)
    ensures ico[8] == 0 && ico[9] == 0
    ensures ico[10..14] == [1, 0, 32, 0]
    ensures ReadLE32(ico, 14) == |png| % TwoTo32
    ensures ReadLE32(ico, 18) == DataOffset
    ensures ico[DataOffset..] == png
  {
    var header := LE16(0) + LE16(1) + LE16(1);
    var entry := [IcoDimension(w), IcoDimension(h), 0, 0] + LE16(1) + LE16(32)
                 + LE32(|png| % TwoTo32) + LE32(DataOffset);
    var ico := header + entry + png;
    assert ico[..HeaderSize] == header;
    LE32RoundTrip(|png| % TwoTo32, ico[..14], ico[18..]);
    assert ico == ico[..14] + LE32(|png| % TwoTo32) + ico[18..];
    LE32RoundTrip(DataOffset, ico[..18], ico[22..]);
    assert ico == ico[..18] + LE32(DataOffset) + ico[22..];
    assert ico[DataOffset..] == png;
    ico
  }

  /** The image an ICO file carries: entry dimensions, colour planes, bits
      per pixel and the embedded payload. */
  datatype IcoImage = IcoImage(width: byte, height: byte, planes: nat, bitsPerPixel: nat, payload: seq<byte>)

  /** Reads a single-image ICO file: checks the header, then follows the
      entry's size and offset fields to the payload. */
  function ParseICO(b: seq<byte>): Option<IcoImage> {
    if |b| < DataOffset then None
    else if ReadLE16(b, 0) != 0 || ReadLE16(b, 2) != 1 || ReadLE16(b, 4) != 1 then None
    else
      var size := ReadLE32(b, 14);
      var offset := ReadLE32(b, 18);
      if offset + size > |b| then None
      else Some(IcoImage(b[6], b[7], ReadLE16(b, 10), ReadLE16(b, 12), b[offset..offset + size]))
  }

  /** Reading back a wrapped PNG recovers the payload byte for byte, the
      encoded dimensions, one plane and 32 bits per pixel. */
  lemma {:induction false} WrapThenParse(png: seq<byte>, w: int, h: int)
    requires |png| < TwoTo32
    ensures ParseICO(WrapPNGInICO(png, w, h)) == Some(IcoImage(IcoDimension(w), IcoDimension(h), 1, 32, png))
  {
    var ico := WrapPNGInICO(png, w, h);
    assert ico[0] == 0 && ico[1] == 0 && ico[2] == 1 && ico[3] == 0 && ico[4] == 1 && ico[5] == 0 by {
      assert ico[..HeaderSize] == [0, 0, 1, 0, 1, 0];
    }
    assert ico[10] == 1 && ico[11] == 0 && ico[12] == 32 && ico[13] == 0 by {
      assert ico[10..14] == [1, 0, 32, 0];
    }
    assert ico[DataOffset..DataOffset + |png|] == png;
  }
}

/**
  Reading a triangle mesh from an STL file (`StlLoader` in SlicerService.cs): deciding whether
  the bytes are the binary or the ASCII form, reading 50-byte binary records, and collecting
  the `vertex` lines of an ASCII file three at a time.

  Decoding an IEEE single (`BitConverter.ToSingle`) and a decimal numeral (`double.Parse`) are
  parameters: `decode` maps four little-endian bytes to the value, `num` maps the numeral's text
  to the value.
*/
module StlLoading {
  import opened Options
  import opened DotNetText
  import opened CamGeometry

  type byte = b: int | 0 <= b < 256

  /** Layout of a binary STL file: an 80-byte header, a 32-bit triangle count, 50-byte records. */
  const HeaderSize := 80
  const DataStart := 84
  const RecordSize := 50

  /** One more than the largest `uint`. */
  const Wrap := 0x1_0000_0000

  // ---------------------------------------------------------------- binary or ASCII

  /** `BitConverter.ToUInt32(bytes, off)` on a little-endian machine. */
  function UInt32At(bytes: seq<byte>, off: nat): (n: nat)
    requires off + 4 <= |bytes|
    ensures n < Wrap
  {
    bytes[off] as int + 256 * bytes[off + 1] as int + 65536 * bytes[off + 2] as int + 16777216 * bytes[off + 3] as int
  }

  /** The four little-endian bytes of a `uint`. */
  function UInt32Bytes(n: nat): (bs: seq<byte>)
    requires n < Wrap
    ensures |bs| == 4
  {
    var r1 := n / 256;
    var r2 := r1 / 256;
    [n % 256, r1 % 256, r2 % 256, r2 / 256]
  }

  /** Reading back the bytes written for a `uint` gives the number. */
  lemma UInt32RoundTrip(n: nat)
    requires n < Wrap
    ensures UInt32At(UInt32Bytes(n), 0) == n
  {
    var r1 := n / 256;
    var r2 := r1 / 256;
    assert n == n % 256 + 256 * r1;
    assert r1 == r1 % 256 + 256 * r2;
    assert r2 == r2 % 256 + 256 * (r2 / 256);
  }

  /** Writing the number read from four bytes gives the same bytes. */
  lemma UInt32BytesRoundTrip(bytes: seq<byte>)
    requires |bytes| == 4
    ensures UInt32Bytes(UInt32At(bytes, 0)) == bytes
  {
    var n := UInt32At(bytes, 0);
    var r2 := bytes[2] as int + 256 * bytes[3] as int;
    var r1 := bytes[1] as int + 256 * r2;
    assert n == bytes[0] as int + 256 * r1;
    assert n / 256 == r1 && n % 256 == bytes[0];
    assert r1 / 256 == r2 && r1 % 256 == bytes[1];
    assert r2 / 256 == bytes[3] && r2 % 256 == bytes[2];
  }

  /** `Encoding.ASCII.GetString`: bytes above 127 are replaced by '?'. */
  function AsciiText(bytes: seq<byte>): string {
    seq(|bytes|, i requires 0 <= i < |bytes| => if bytes[i] < 128 then bytes[i] as char else '?')
  }

  /** The header is text that starts with "solid", in any letter case. */
  predicate SolidHeader(bytes: seq<byte>)
    requires |bytes| >= HeaderSize
  {
    StartsWithIgnoreCase(AsciiText(bytes[..HeaderSize]), "solid")
  }

  /**
    `IsBinary` as written: the product `triCount * 50` and the sum are computed in `uint`
    (32 bits, wrapping) before the comparison with the file length.
  */
  predicate IsBinary(bytes: seq<byte>)
    ensures IsBinary(bytes) ==> |bytes| >= DataStart
    ensures IsBinary(bytes) && SolidHeader(bytes) ==> |bytes| < Wrap
  {
    && |bytes| >= DataStart
    && (!SolidHeader(bytes) || (DataStart + UInt32At(bytes, HeaderSize) * RecordSize) % Wrap == |bytes|)
  }

  /** `IsBinary` with the expected size computed without wrap-around. */
  predicate IsBinaryIntended(bytes: seq<byte>)
    ensures IsBinaryIntended(bytes) ==> |bytes| >= DataStart
    ensures IsBinaryIntended(bytes) && SolidHeader(bytes) ==> (|bytes| - DataStart) % RecordSize == 0
  {
    && |bytes| >= DataStart
    && (!SolidHeader(bytes) || DataStart + UInt32At(bytes, HeaderSize) * RecordSize == |bytes|)
  }

  /** While the expected size fits in a `uint` the two tests agree. */
  lemma IsBinaryBelowWrap(bytes: seq<byte>)
    requires |bytes| >= DataStart && DataStart + UInt32At(bytes, HeaderSize) * RecordSize < Wrap
    ensures IsBinary(bytes) <==> IsBinaryIntended(bytes)
  {
  }

  /** Every file (shorter than 4 GiB) with an exact size match also passes the wrapping test. */
  lemma IsBinaryIntendedStricter(bytes: seq<byte>)
    requires |bytes| < Wrap && IsBinaryIntended(bytes)
    ensures IsBinary(bytes)
  {
  }

  /** A file shorter than a header and a count is never taken for binary. */
  lemma ShortFileIsAscii(bytes: seq<byte>)
    requires |bytes| < DataStart
    ensures !IsBinary(bytes) && !IsBinaryIntended(bytes)
  {
  }

  /** The 124 bytes "solid", 75 spaces, "4333", 40 spaces: a plain-text file. */
  function WrapExample(): seq<byte> {
    [115, 111, 108, 105, 100] + seq(75, _ => 32) + [52, 51, 51, 51] + seq(40, _ => 32)
  }

  /**
    A 124-byte text file that starts with "solid" and whose characters 80 to 83 are "4333"
    announces 858993460 triangles; 84 + 858993460 * 50 wraps around to 124 in 32 bits, so the
    file is taken for binary although it is 40 bytes short of even one record.
  */
  lemma SizeCheckWraps()
    ensures |WrapExample()| == 124 && UInt32At(WrapExample(), HeaderSize) == 858993460
    ensures IsBinary(WrapExample()) && !IsBinaryIntended(WrapExample())
  {
    var bytes := WrapExample();
    var header := AsciiText(bytes[..HeaderSize]);
    assert header[0] == 's' && header[1] == 'o' && header[2] == 'l' && header[3] == 'i' && header[4] == 'd';
    assert SolidHeader(bytes);
    assert bytes[80] == 52 && bytes[81] == 51 && bytes[82] == 51 && bytes[83] == 51;
  }

  // ---------------------------------------------------------------- binary records

  /** `BitConverter.ToSingle(bytes, off)`, widened to `double`. */
  function Single(bytes: seq<byte>, off: nat, decode: seq<byte> -> real): real
    requires off + 4 <= |bytes|
  {
    decode(bytes[off..off + 4])
  }

  function VertexAt(bytes: seq<byte>, off: nat, decode: seq<byte> -> real): Vector3
    requires off + 12 <= |bytes|
  {
    Vector3(Single(bytes, off, decode), Single(bytes, off + 4, decode), Single(bytes, off + 8, decode))
  }

  /** The record at `off`: a 12-byte normal (skipped), the vertices A, B and C, 2 attribute bytes. */
  function RecordAt(bytes: seq<byte>, off: nat, decode: seq<byte> -> real): Triangle
    requires off + RecordSize <= |bytes|
  {
    Triangle(VertexAt(bytes, off + 12, decode), VertexAt(bytes, off + 24, decode), VertexAt(bytes, off + 36, decode))
  }

  /** The first `n` records, in file order: record `k` starts at byte 84 + 50k. */
  function Records(bytes: seq<byte>, decode: seq<byte> -> real, n: nat): (tris: seq<Triangle>)
    requires DataStart + n * RecordSize <= |bytes|
    ensures |tris| == n
    ensures forall k :: 0 <= k < n ==> tris[k] == RecordAt(bytes, DataStart + k * RecordSize, decode)
  {
    if n == 0 then [] else Records(bytes, decode, n - 1) + [RecordAt(bytes, DataStart + (n - 1) * RecordSize, decode)]
  }

  /**
    How many records are read: the announced count, unless the file ends first; only whole
    records are read.
  */
  function RecordCount(bytes: seq<byte>): (n: nat)
    requires |bytes| >= DataStart
    ensures n <= UInt32At(bytes, HeaderSize) && DataStart + n * RecordSize <= |bytes|
    ensures n < UInt32At(bytes, HeaderSize) ==> |bytes| < DataStart + (n + 1) * RecordSize
  {
    var room := (|bytes| - DataStart) / RecordSize;
    if UInt32At(bytes, HeaderSize) < room then UInt32At(bytes, HeaderSize) else room
  }

  /** The triangles of a binary STL file. */
  function BinaryTriangles(bytes: seq<byte>, decode: seq<byte> -> real): (tris: seq<Triangle>)
    ensures |bytes| < DataStart ==> tris == []
    ensures |bytes| >= DataStart ==> |tris| <= UInt32At(bytes, HeaderSize) && DataStart + |tris| * RecordSize <= |bytes|
  {
    if |bytes| < DataStart then [] else Records(bytes, decode, RecordCount(bytes))
  }

  /** `LoadBinary`: reads the records one after the other, moving an offset through each. */
  method LoadBinary(bytes: seq<byte>, decode: seq<byte> -> real) returns (mesh: Mesh)
    ensures mesh == Mesh(BinaryTriangles(bytes, decode))
  {
    if |bytes| < DataStart {
      return Mesh([]);
    }
    var triCount := UInt32At(bytes, HeaderSize);
    var tris: seq<Triangle> := [];
    var offset := DataStart;
    var i := 0;
    while i < triCount && offset + RecordSize <= |bytes|
      invariant i <= RecordCount(bytes) && offset == DataStart + i * RecordSize
      invariant tris == Records(bytes, decode, i)
      decreases triCount - i
    {
      var t;
      t, offset := ReadRecord(bytes, offset, decode);
      RecordCountStep(bytes, i);
      RecordsSnoc(bytes, decode, i);
      tris := tris + [t];
      i := i + 1;
    }
    RecordCountExit(bytes, i);
    return Mesh(tris);
  }

  /**
    With the exact size test, a file whose header starts with "solid" is taken for binary exactly
    when the binary reader then reads every announced record and nothing of the file is left over.
  */
  lemma SolidBinaryIsComplete(bytes: seq<byte>)
    requires |bytes| >= DataStart && SolidHeader(bytes)
    ensures IsBinaryIntended(bytes) <==>
      RecordCount(bytes) == UInt32At(bytes, HeaderSize) && |bytes| == DataStart + RecordCount(bytes) * RecordSize
  {
  }

  /** The 124-byte text file of `SizeCheckWraps` holds not one whole record of its count. */
  lemma WrapExampleHoldsNoRecord()
    ensures RecordCount(WrapExample()) == 0 && UInt32At(WrapExample(), HeaderSize) > 0
  {
    SizeCheckWraps();
  }

  /** One more record read is the record that follows the ones before. */
  lemma RecordsSnoc(bytes: seq<byte>, decode: seq<byte> -> real, i: nat)
    requires DataStart + (i + 1) * RecordSize <= |bytes|
    ensures Records(bytes, decode, i + 1) == Records(bytes, decode, i) + [RecordAt(bytes, DataStart + i * RecordSize, decode)]
  {
  }

  /** Another whole record fits and is announced: the reader reads it. */
  lemma RecordCountStep(bytes: seq<byte>, i: nat)
    requires |bytes| >= DataStart && i < UInt32At(bytes, HeaderSize) && DataStart + (i + 1) * RecordSize <= |bytes|
    ensures i + 1 <= RecordCount(bytes)
  {
  }

  /** The reader stops after the last announced record or the last whole record. */
  lemma RecordCountExit(bytes: seq<byte>, i: nat)
    requires |bytes| >= DataStart && i <= RecordCount(bytes)
    requires i >= UInt32At(bytes, HeaderSize) || DataStart + (i + 1) * RecordSize > |bytes|
    ensures i == RecordCount(bytes)
  {
  }

  /** The body of the loop of `LoadBinary`: one record read field by field, the offset moved past it. */
  method ReadRecord(bytes: seq<byte>, offset: nat, decode: seq<byte> -> real) returns (t: Triangle, next: nat)
    requires offset + RecordSize <= |bytes|
    ensures t == RecordAt(bytes, offset, decode) && next == offset + RecordSize
  {
    next := offset + 12;
    var xa := Single(bytes, next, decode); next := next + 4;
    var ya := Single(bytes, next, decode); next := next + 4;
    var za := Single(bytes, next, decode); next := next + 4;
    var xb := Single(bytes, next, decode); next := next + 4;
    var yb := Single(bytes, next, decode); next := next + 4;
    var zb := Single(bytes, next, decode); next := next + 4;
    var xc := Single(bytes, next, decode); next := next + 4;
    var yc := Single(bytes, next, decode); next := next + 4;
    var zc := Single(bytes, next, decode); next := next + 4;
    next := next + 2;
    t := Triangle(Vector3(xa, ya, za), Vector3(xb, yb, zb), Vector3(xc, yc, zc));
  }

  // ---------------------------------------------------------------- writing a binary file

  /** `|encode(r)| == 4` and decoding it gives `r` back: `r` is exactly a single. */
  predicate Exact(encode: real -> seq<byte>, decode: seq<byte> -> real, r: real) {
    |encode(r)| == 4 && decode(encode(r)) == r
  }

  predicate VertexExact(encode: real -> seq<byte>, decode: seq<byte> -> real, v: Vector3) {
    Exact(encode, decode, v.x) && Exact(encode, decode, v.y) && Exact(encode, decode, v.z)
  }

  predicate TriangleExact(encode: real -> seq<byte>, decode: seq<byte> -> real, t: Triangle) {
    VertexExact(encode, decode, t.a) && VertexExact(encode, decode, t.b) && VertexExact(encode, decode, t.c)
  }

  function EncodeVertex(v: Vector3, encode: real -> seq<byte>): seq<byte> {
    encode(v.x) + encode(v.y) + encode(v.z)
  }

  /** A record as an STL writer lays it out, with a zero normal and zero attribute bytes. */
  function EncodeRecord(t: Triangle, encode: real -> seq<byte>): seq<byte> {
    seq(12, _ => 0) + EncodeVertex(t.a, encode) + EncodeVertex(t.b, encode) + EncodeVertex(t.c, encode) + [0, 0]
  }

  function EncodeRecords(tris: seq<Triangle>, encode: real -> seq<byte>): seq<byte> {
    if tris == [] then [] else EncodeRecords(tris[..|tris| - 1], encode) + EncodeRecord(tris[|tris| - 1], encode)
  }

  /** A binary STL file: the header, the triangle count, the records. */
  function EncodeBinary(header: seq<byte>, tris: seq<Triangle>, encode: real -> seq<byte>): seq<byte>
    requires |header| == HeaderSize && |tris| < Wrap
  {
    header + UInt32Bytes(|tris|) + EncodeRecords(tris, encode)
  }

  /** The middle part of a concatenation is found at its offset. */
  lemma MiddlePart<T>(s: seq<T>, pre: seq<T>, mid: seq<T>, post: seq<T>)
    requires s == pre + mid + post
    ensures s[|pre|..|pre| + |mid|] == mid
  {
    assert forall i :: 0 <= i < |mid| ==> s[|pre| + i] == mid[i];
  }

  /** A slice of a slice is a slice of the whole. */
  lemma SliceOfSlice<T>(s: seq<T>, off: nat, len: nat, lo: nat, hi: nat)
    requires off + len <= |s| && lo <= hi <= len
    ensures s[off..off + len][lo..hi] == s[off + lo..off + hi]
  {
    var inner := s[off..off + len];
    forall i | 0 <= i < hi - lo
      ensures inner[lo..hi][i] == s[off + lo..off + hi][i]
    {
      assert inner[lo..hi][i] == inner[lo + i] == s[off + lo + i];
    }
  }

  lemma VertexRoundTrip(bytes: seq<byte>, off: nat, v: Vector3, encode: real -> seq<byte>, decode: seq<byte> -> real)
    requires VertexExact(encode, decode, v)
    requires off + 12 <= |bytes| && bytes[off..off + 12] == EncodeVertex(v, encode)
    ensures VertexAt(bytes, off, decode) == v
  {
    var e := EncodeVertex(v, encode);
    MiddlePart(e, [], encode(v.x), encode(v.y) + encode(v.z));
    MiddlePart(e, encode(v.x), encode(v.y), encode(v.z));
    MiddlePart(e, encode(v.x) + encode(v.y), encode(v.z), []);
    SliceOfSlice(bytes, off, 12, 0, 4);
    SliceOfSlice(bytes, off, 12, 4, 8);
    SliceOfSlice(bytes, off, 12, 8, 12);
  }

  lemma RecordRoundTrip(bytes: seq<byte>, off: nat, t: Triangle, encode: real -> seq<byte>, decode: seq<byte> -> real)
    requires TriangleExact(encode, decode, t)
    requires off + RecordSize <= |bytes| && bytes[off..off + RecordSize] == EncodeRecord(t, encode)
    ensures RecordAt(bytes, off, decode) == t
  {
    var zeros: seq<byte> := seq(12, _ => 0);
    var va, vb, vc := EncodeVertex(t.a, encode), EncodeVertex(t.b, encode), EncodeVertex(t.c, encode);
    assert |va| == 12 && |vb| == 12 && |vc| == 12;
    var e := EncodeRecord(t, encode);
    MiddlePart(e, zeros, va, vb + vc + [0, 0]);
    MiddlePart(e, zeros + va, vb, vc + [0, 0]);
    MiddlePart(e, zeros + va + vb, vc, [0, 0]);
    SliceOfSlice(bytes, off, RecordSize, 12, 24);
    SliceOfSlice(bytes, off, RecordSize, 24, 36);
    SliceOfSlice(bytes, off, RecordSize, 36, 48);
    VertexRoundTrip(bytes, off + 12, t.a, encode, decode);
    VertexRoundTrip(bytes, off + 24, t.b, encode, decode);
    VertexRoundTrip(bytes, off + 36, t.c, encode, decode);
  }

  /** Every record of `tris` is written in 50 bytes. */
  predicate RecordsFit(tris: seq<Triangle>, encode: real -> seq<byte>) {
    forall k :: 0 <= k < |tris| ==> |EncodeRecord(tris[k], encode)| == RecordSize
  }

  lemma {:induction false} EncodeRecordsLength(tris: seq<Triangle>, encode: real -> seq<byte>)
    requires RecordsFit(tris, encode)
    ensures |EncodeRecords(tris, encode)| == RecordSize * |tris|
    decreases |tris|
  {
    if tris != [] {
      var front := tris[..|tris| - 1];
      assert RecordsFit(front, encode) by {
        forall k | 0 <= k < |front| ensures |EncodeRecord(front[k], encode)| == RecordSize {
          assert front[k] == tris[k];
        }
      }
      EncodeRecordsLength(front, encode);
    }
  }

  /** Record `k` of the written body sits at byte 50k. */
  lemma {:induction false} EncodeRecordsLayout(tris: seq<Triangle>, encode: real -> seq<byte>, k: nat)
    requires RecordsFit(tris, encode) && k < |tris|
    ensures RecordSize * |tris| == |EncodeRecords(tris, encode)|
    ensures EncodeRecords(tris, encode)[k * RecordSize..(k + 1) * RecordSize] == EncodeRecord(tris[k], encode)
    decreases |tris|
  {
    EncodeRecordsLength(tris, encode);
    var front := tris[..|tris| - 1];
    var head, last := EncodeRecords(front, encode), EncodeRecord(tris[|tris| - 1], encode);
    assert EncodeRecords(tris, encode) == head + last;
    assert RecordsFit(front, encode) by {
      forall j | 0 <= j < |front| ensures |EncodeRecord(front[j], encode)| == RecordSize {
        assert front[j] == tris[j];
      }
    }
    EncodeRecordsLength(front, encode);
    if k < |front| {
      EncodeRecordsLayout(front, encode, k);
      assert front[k] == tris[k];
      assert (head + last)[k * RecordSize..(k + 1) * RecordSize] == head[k * RecordSize..(k + 1) * RecordSize];
    } else {
      assert (head + last)[k * RecordSize..(k + 1) * RecordSize] == last;
    }
  }

  /**
    A file written by a binary STL writer is recognised as binary (both with and without the
    wrap-around) and reads back as exactly the triangles written, whatever the header says,
    provided every coordinate is exactly a single.
  */
  lemma BinaryRoundTrip(header: seq<byte>, tris: seq<Triangle>, encode: real -> seq<byte>, decode: seq<byte> -> real)
    requires |header| == HeaderSize && DataStart + RecordSize * |tris| < Wrap
    requires forall t :: t in tris ==> TriangleExact(encode, decode, t)
    ensures IsBinary(EncodeBinary(header, tris, encode)) && IsBinaryIntended(EncodeBinary(header, tris, encode))
    ensures BinaryTriangles(EncodeBinary(header, tris, encode), decode) == tris
  {
    var body := EncodeRecords(tris, encode);
    assert RecordsFit(tris, encode) by {
      forall k | 0 <= k < |tris| ensures |EncodeRecord(tris[k], encode)| == RecordSize {
        assert TriangleExact(encode, decode, tris[k]);
        assert |EncodeVertex(tris[k].a, encode)| == 12;
        assert |EncodeVertex(tris[k].b, encode)| == 12;
        assert |EncodeVertex(tris[k].c, encode)| == 12;
      }
    }
    EncodeRecordsLength(tris, encode);
    BinaryCount(header, |tris|, body);
    var bytes := EncodeBinary(header, tris, encode);
    var read := BinaryTriangles(bytes, decode);
    forall k | 0 <= k < |tris|
      ensures read[k] == tris[k]
    {
      RecordRead(header, tris, encode, decode, k);
    }
  }

  /** Record `k` of a written file reads back as triangle `k`. */
  lemma RecordRead(header: seq<byte>, tris: seq<Triangle>, encode: real -> seq<byte>, decode: seq<byte> -> real, k: nat)
    requires |header| == HeaderSize && |tris| < Wrap && RecordsFit(tris, encode)
    requires k < |tris| && TriangleExact(encode, decode, tris[k])
    ensures DataStart + (k + 1) * RecordSize <= |EncodeBinary(header, tris, encode)|
    ensures RecordAt(EncodeBinary(header, tris, encode), DataStart + k * RecordSize, decode) == tris[k]
  {
    var bytes := EncodeBinary(header, tris, encode);
    var body := EncodeRecords(tris, encode);
    EncodeRecordsLayout(tris, encode, k);
    var off := DataStart + k * RecordSize;
    MiddlePart(bytes, header + UInt32Bytes(|tris|), body, []);
    SliceOfSlice(bytes, DataStart, |body|, k * RecordSize, (k + 1) * RecordSize);
    RecordRoundTrip(bytes, off, tris[k], encode, decode);
  }

  /** A file laid out as header, count `n`, and `n` records is binary and announces `n` triangles. */
  lemma BinaryCount(header: seq<byte>, n: nat, body: seq<byte>)
    requires |header| == HeaderSize && DataStart + RecordSize * n < Wrap && |body| == RecordSize * n
    ensures var bytes := header + UInt32Bytes(n) + body;
      IsBinary(bytes) && IsBinaryIntended(bytes) && RecordCount(bytes) == n
  {
    var bytes := header + UInt32Bytes(n) + body;
    assert bytes[HeaderSize..DataStart] == UInt32Bytes(n);
    UInt32RoundTrip(n);
    assert UInt32At(bytes, HeaderSize) == UInt32At(UInt32Bytes(n), 0);
  }

  // ---------------------------------------------------------------- ASCII files

  /** `default(Vector3)`, which `LoadAscii` also uses to mean "slot not filled yet". */
  const Origin := Vector3(0.0, 0.0, 0.0)

  const Space: set<char> := {' '}

  /**
    The vertex a line of an ASCII file gives: after trimming, the line starts with "vertex"
    (any letter case) and splits at spaces into at least four parts, the last three read as
    numbers.
  */
  function VertexOfLine(line: string, num: string -> real): (v: Option<Vector3>)
    ensures v.Some? ==> |line| >= |"vertex"|
  {
    var t := Trim(line);
    if StartsWithIgnoreCase(t, "vertex") then
      var parts := Split(t, Space);
      if |parts| >= 4 then Some(Vector3(num(parts[1]), num(parts[2]), num(parts[3]))) else None
    else None
  }

  /** The vertices of the lines, in order. */
  function Vertices(lines: seq<string>, num: string -> real): (vs: seq<Vector3>)
    ensures |vs| <= |lines|
  {
    if lines == [] then []
    else Vertices(lines[..|lines| - 1], num) + Present(VertexOfLine(lines[|lines| - 1], num))
  }

  /** The vertices other than the origin, in order. */
  function WithoutOrigin(vs: seq<Vector3>): (r: seq<Vector3>)
    ensures |r| <= |vs| && Origin !in r
    ensures forall v :: v in vs && v != Origin ==> v in r
    ensures forall v :: v in r ==> v in vs
  {
    if vs == [] then []
    else WithoutOrigin(vs[..|vs| - 1]) + (if vs[|vs| - 1] == Origin then [] else [vs[|vs| - 1]])
  }

  /** A list without the origin is kept whole. */
  lemma {:induction false} WithoutOriginKeeps(vs: seq<Vector3>)
    requires Origin !in vs
    ensures WithoutOrigin(vs) == vs
    decreases |vs|
  {
    if vs != [] {
      WithoutOriginKeeps(vs[..|vs| - 1]);
    }
  }

  /** Triangles completed so far and the one or two vertices of the next one. */
  datatype Gathered = Gathered(tris: seq<Triangle>, pending: seq<Vector3>)

  /** Gathering vertices in order: the third vertex of a group closes a triangle. */
  function Gather(vs: seq<Vector3>): (g: Gathered)
    ensures |g.pending| < 3 && 3 * |g.tris| + |g.pending| == |vs|
  {
    if vs == [] then Gathered([], [])
    else
      var g := Gather(vs[..|vs| - 1]);
      var v := vs[|vs| - 1];
      if |g.pending| == 2 then Gathered(g.tris + [Triangle(g.pending[0], g.pending[1], v)], [])
      else Gathered(g.tris, g.pending + [v])
  }

  /** Consecutive vertices taken three at a time, as triangles; one or two left over are dropped. */
  function Group3(vs: seq<Vector3>): (tris: seq<Triangle>)
    ensures 3 * |tris| <= |vs| < 3 * |tris| + 3
  {
    Gather(vs).tris
  }

  /** Triangle `k` is made of vertices 3k, 3k + 1 and 3k + 2, and the pending ones are those after the last group. */
  lemma {:induction false} Group3Layout(vs: seq<Vector3>)
    ensures |Group3(vs)| == |vs| / 3 && |Gather(vs).pending| == |vs| % 3
    ensures forall k :: 0 <= k < |Group3(vs)| ==> Group3(vs)[k] == Triangle(vs[3 * k], vs[3 * k + 1], vs[3 * k + 2])
    ensures Gather(vs).pending == vs[|vs| - |vs| % 3..]
  {
    GatherCount(vs);
    GatherPending(vs);
    GatherTriangles(vs);
  }

  /** How the quotient and remainder by 3 change from `n` to `n + 1`. */
  lemma Div3Step(n: nat)
    ensures n % 3 == 2 ==> (n + 1) / 3 == n / 3 + 1 && (n + 1) % 3 == 0
    ensures n % 3 != 2 ==> (n + 1) / 3 == n / 3 && (n + 1) % 3 == n % 3 + 1
  {
  }

  lemma {:induction false} GatherCount(vs: seq<Vector3>)
    ensures |Gather(vs).tris| == |vs| / 3 && |Gather(vs).pending| == |vs| % 3
    decreases |vs|
  {
    if vs != [] {
      GatherCount(vs[..|vs| - 1]);
      Div3Step(|vs| - 1);
    }
  }

  lemma {:induction false} GatherPending(vs: seq<Vector3>)
    ensures Gather(vs).pending == vs[|vs| - |Gather(vs).pending|..]
    decreases |vs|
  {
    if vs != [] {
      var n := |vs| - 1;
      var front, v := vs[..n], vs[n];
      GatherPending(front);
      var g := Gather(front);
      var p := |g.pending|;
      if p == 2 {
        assert Gather(vs).pending == [];
      } else {
        assert Gather(vs).pending == g.pending + [v];
        assert g.pending == front[n - p..];
        assert vs[n - p..] == front[n - p..] + [v];
        assert |Gather(vs).pending| == p + 1;
      }
    }
  }

  lemma {:induction false} GatherTriangles(vs: seq<Vector3>)
    ensures 3 * |Gather(vs).tris| <= |vs|
    ensures forall k :: 0 <= k < |Gather(vs).tris| ==>
      Gather(vs).tris[k] == Triangle(vs[3 * k], vs[3 * k + 1], vs[3 * k + 2])
    decreases |vs|
  {
    if vs != [] {
      var n := |vs| - 1;
      var front, v := vs[..n], vs[n];
      GatherTriangles(front);
      GatherCount(front);
      assert vs == front + [v];
      GatherStep(front, v);
      var g := Gather(front);
      assert forall k :: 0 <= k < n ==> front[k] == vs[k];
      if |g.pending| == 2 {
        assert 3 * |g.tris| == n - 2;
        assert g.pending == [vs[n - 2], vs[n - 1]];
      }
    }
  }

  /**
    What the loop of `LoadAscii` holds after some lines, with `w` the vertices stored so far:
    the triangles are the completed groups of three, the pending vertices of the last group sit
    in `a` and `b`, and `c` is empty.
  */
  ghost predicate AsciiPending(tris: seq<Triangle>, a: Vector3, b: Vector3, c: Vector3, w: seq<Vector3>) {
    var g := Gather(w);
    && tris == g.tris && c == Origin && Origin !in g.pending
    && (|g.pending| == 0 ==> a == Origin && b == Origin)
    && (|g.pending| == 1 ==> a == g.pending[0] && b == Origin)
    && (|g.pending| == 2 ==> a == g.pending[0] && b == g.pending[1])
  }

  lemma VerticesStep(lines: seq<string>, i: nat, num: string -> real)
    requires i < |lines|
    ensures Vertices(lines[..i + 1], num) == Vertices(lines[..i], num) + Present(VertexOfLine(lines[i], num))
  {
    assert lines[..i + 1][..i] == lines[..i];
  }

  /** One more vertex either joins the pending ones or, as the third, closes a triangle. */
  lemma GatherStep(w: seq<Vector3>, v: Vector3)
    ensures var g := Gather(w);
      Gather(w + [v]) == if |g.pending| == 2 then Gathered(g.tris + [Triangle(g.pending[0], g.pending[1], v)], [])
                         else Gathered(g.tris, g.pending + [v])
  {
    assert (w + [v])[..|w|] == w;
  }

  /** Dropping the origin: one more vertex is kept unless it is the origin. */
  lemma WithoutOriginStep(w: seq<Vector3>, o: Option<Vector3>)
    ensures WithoutOrigin(w + Present(o)) == WithoutOrigin(w) + Present(if o == Some(Origin) then None else o)
  {
    if o.Some? {
      assert (w + [o.value])[..|w|] == w;
    } else {
      assert w + [] == w;
    }
  }

  /** Storing a vertex other than the origin in the first free slot, and emitting the triangle when the slots are full. */
  lemma AsciiPush(tris: seq<Triangle>, a: Vector3, b: Vector3, w: seq<Vector3>, v: Vector3)
    requires AsciiPending(tris, a, b, Origin, w) && v != Origin
    ensures a == Origin ==> AsciiPending(tris, v, b, Origin, w + [v])
    ensures a != Origin && b == Origin ==> AsciiPending(tris, a, v, Origin, w + [v])
    ensures a != Origin && b != Origin ==> AsciiPending(tris + [Triangle(a, b, v)], Origin, Origin, Origin, w + [v])
  {
    GatherStep(w, v);
  }

  /** The steps of the loop of `LoadAscii` on one line, as the source takes them. */
  method AsciiLine(line: string, num: string -> real, tris: seq<Triangle>, a: Vector3, b: Vector3, c: Vector3, ghost w: seq<Vector3>)
    returns (tris': seq<Triangle>, a': Vector3, b': Vector3, c': Vector3)
    requires AsciiPending(tris, a, b, c, w)
    ensures AsciiPending(tris', a', b', c', w + Present(if VertexOfLine(line, num) == Some(Origin) then None else VertexOfLine(line, num)))
  {
    tris', a', b', c' := tris, a, b, c;
    ghost var kept := [];
    assert w + kept == w;
    var t := Trim(line);
    if StartsWithIgnoreCase(t, "vertex") {
      var parts := Split(t, Space);
      if |parts| >= 4 {
        var x := num(parts[1]);
        var y := num(parts[2]);
        var z := num(parts[3]);
        var v := Vector3(x, y, z);
        assert VertexOfLine(line, num).Some? && VertexOfLine(line, num).value == v;
        if v != Origin {
          AsciiPush(tris, a, b, w, v);
          kept := [v];
        }
        if a' == Origin {
          a' := v;
        } else if b' == Origin {
          b' := v;
        } else {
          c' := v;
        }
      }
      if a' != Origin && b' != Origin && c' != Origin {
        tris' := tris' + [Triangle(a', b', c')];
        a', b', c' := Origin, Origin, Origin;
      }
    }
    assert w + kept == w + Present(if VertexOfLine(line, num) == Some(Origin) then None else VertexOfLine(line, num));
  }

  /**
    `LoadAscii` as written: a vertex fills the first of `a`, `b`, `c` that still equals the
    default vector, and the triangle is emitted once none of them does. A vertex at the
    origin therefore never fills a slot: the loader reads the vertices other than the origin,
    three at a time.
  */
  method LoadAscii(text: string, num: string -> real) returns (mesh: Mesh)
    ensures mesh == Mesh(Group3(WithoutOrigin(Vertices(ReadLines(text), num))))
  {
    var lines := ReadLines(text);
    var tris: seq<Triangle> := [];
    var a, b, c := Origin, Origin, Origin;
    for i := 0 to |lines|
      invariant AsciiPending(tris, a, b, c, WithoutOrigin(Vertices(lines[..i], num)))
    {
      ghost var w := Vertices(lines[..i], num);
      VerticesStep(lines, i, num);
      WithoutOriginStep(w, VertexOfLine(lines[i], num));
      tris, a, b, c := AsciiLine(lines[i], num, tris, a, b, c, WithoutOrigin(w));
    }
    assert lines[..|lines|] == lines;
    mesh := Mesh(tris);
  }

  /** What the loop of `LoadAsciiIntended` holds: `filled` vertices of the next triangle are in `a` and `b`. */
  ghost predicate IntendedPending(tris: seq<Triangle>, a: Vector3, b: Vector3, filled: nat, w: seq<Vector3>) {
    var g := Gather(w);
    && tris == g.tris && filled == |g.pending|
    && (filled >= 1 ==> a == g.pending[0])
    && (filled == 2 ==> b == g.pending[1])
  }

  /** Storing a vertex in the next free slot, and emitting the triangle with the third. */
  lemma IntendedPush(tris: seq<Triangle>, a: Vector3, b: Vector3, filled: nat, w: seq<Vector3>, v: Vector3)
    requires IntendedPending(tris, a, b, filled, w)
    ensures filled == 0 ==> IntendedPending(tris, v, b, 1, w + [v])
    ensures filled == 1 ==> IntendedPending(tris, a, v, 2, w + [v])
    ensures filled == 2 ==> IntendedPending(tris + [Triangle(a, b, v)], a, b, 0, w + [v])
  {
    GatherStep(w, v);
  }

  /** The corrected line step: a vertex goes to the next free slot, counted rather than tested. */
  method AsciiLineIntended(line: string, num: string -> real, tris: seq<Triangle>, a: Vector3, b: Vector3, filled: nat, ghost w: seq<Vector3>)
    returns (tris': seq<Triangle>, a': Vector3, b': Vector3, filled': nat)
    requires IntendedPending(tris, a, b, filled, w)
    ensures IntendedPending(tris', a', b', filled', w + Present(VertexOfLine(line, num)))
  {
    tris', a', b', filled' := tris, a, b, filled;
    ghost var kept := [];
    assert w + kept == w;
    var t := Trim(line);
    if StartsWithIgnoreCase(t, "vertex") {
      var parts := Split(t, Space);
      if |parts| >= 4 {
        var v := Vector3(num(parts[1]), num(parts[2]), num(parts[3]));
        assert VertexOfLine(line, num).Some? && VertexOfLine(line, num).value == v;
        IntendedPush(tris, a, b, filled, w, v);
        kept := [v];
        if filled == 0 {
          a', filled' := v, 1;
        } else if filled == 1 {
          b', filled' := v, 2;
        } else {
          tris', filled' := tris + [Triangle(a, b, v)], 0;
        }
      }
    }
    assert w + kept == w + Present(VertexOfLine(line, num));
  }

  /**
    `LoadAscii` with a count of the vertices gathered in place of the default-vector test:
    every three consecutive vertices form a triangle, wherever they lie.
  */
  method LoadAsciiIntended(text: string, num: string -> real) returns (mesh: Mesh)
    ensures mesh == Mesh(Group3(Vertices(ReadLines(text), num)))
  {
    var lines := ReadLines(text);
    var tris: seq<Triangle> := [];
    var a, b := Origin, Origin;
    var filled := 0;
    for i := 0 to |lines|
      invariant IntendedPending(tris, a, b, filled, Vertices(lines[..i], num))
    {
      VerticesStep(lines, i, num);
      tris, a, b, filled := AsciiLineIntended(lines[i], num, tris, a, b, filled, Vertices(lines[..i], num));
    }
    assert lines[..|lines|] == lines;
    mesh := Mesh(tris);
  }

  /** Without a vertex at the origin the loader as written and the intended one agree. */
  lemma AsciiAgreesWithoutOrigin(text: string, num: string -> real)
    requires Origin !in Vertices(ReadLines(text), num)
    ensures Group3(WithoutOrigin(Vertices(ReadLines(text), num))) == Group3(Vertices(ReadLines(text), num))
  {
    var vs := Vertices(ReadLines(text), num);
    WithoutOriginKeeps(vs);
  }

  /** Every triangle read uses three vertex lines: at most a third of the lines make triangles. */
  lemma AsciiTriangleCount(text: string, num: string -> real)
    ensures 3 * |Group3(WithoutOrigin(Vertices(ReadLines(text), num)))| <= |ReadLines(text)|
    ensures 3 * |Group3(Vertices(ReadLines(text), num))| <= |ReadLines(text)|
  {
    var vs := Vertices(ReadLines(text), num);
    Group3Layout(vs);
    Group3Layout(WithoutOrigin(vs));
  }

  /** No triangle the loader as written reads has a vertex at the origin. */
  lemma AsciiNoOriginVertex(text: string, num: string -> real, k: nat)
    requires k < |Group3(WithoutOrigin(Vertices(ReadLines(text), num)))|
    ensures var t := Group3(WithoutOrigin(Vertices(ReadLines(text), num)))[k];
      t.a != Origin && t.b != Origin && t.c != Origin
  {
    var w := WithoutOrigin(Vertices(ReadLines(text), num));
    Group3Layout(w);
    assert w[3 * k] in w && w[3 * k + 1] in w && w[3 * k + 2] in w;
  }

  /** The text of a `vertex` line with single-digit coordinates. */
  function VertexText(p: char, q: char, r: char): string {
    "vertex " + [p] + " " + [q] + " " + [r]
  }

  /** The coordinates after "vertex": " p q r" splits at its spaces into "", "p", "q", "r". */
  lemma CoordinateParts(p: char, q: char, r: char)
    requires IsDigit(p) && IsDigit(q) && IsDigit(r)
    ensures Split([' ', p, ' ', q, ' ', r][1..], Space) == [[p], [q], [r]]
  {
    var tail := [' ', r];
    var mid := [' ', q] + tail;
    SplitWord([r], Space);
    assert tail[1..] == [r];
    SplitFirst([q], tail, Space);
    assert mid[1..] == [q] + tail;
    SplitFirst([p], mid, Space);
    assert [' ', p, ' ', q, ' ', r][1..] == [p] + mid;
  }

  lemma VertexTextParts(p: char, q: char, r: char)
    requires IsDigit(p) && IsDigit(q) && IsDigit(r)
    ensures Split(VertexText(p, q, r), Space) == ["vertex", [p], [q], [r]]
  {
    var word, rest := "vertex", [' ', p, ' ', q, ' ', r];
    assert VertexText(p, q, r) == word + rest;
    assert forall i :: 0 <= i < |word| ==> word[i] !in Space;
    assert rest[0] in Space;
    SplitFirst(word, rest, Space);
    CoordinateParts(p, q, r);
    assert Split(word + rest, Space) == [word] + [[p], [q], [r]];
  }

  /** A `vertex` line with single-digit coordinates gives the vertex of those numerals. */
  lemma VertexLineReads(p: char, q: char, r: char, num: string -> real)
    requires IsDigit(p) && IsDigit(q) && IsDigit(r)
    ensures VertexOfLine(VertexText(p, q, r), num) == Some(Vector3(num([p]), num([q]), num([r])))
  {
    var line := VertexText(p, q, r);
    TrimUnchanged(line);
    assert StartsWithIgnoreCase(line, "vertex");
    VertexTextParts(p, q, r);
  }

  lemma NoLineBreak(p: char, q: char, r: char)
    requires IsDigit(p) && IsDigit(q) && IsDigit(r)
    ensures forall i :: 0 <= i < |VertexText(p, q, r)| ==> VertexText(p, q, r)[i] !in LineBreaks
  {
  }

  /** Two lines, each ended by "\n", are read as those two lines. */
  lemma TwoLines(l2: string, l3: string)
    requires forall i :: 0 <= i < |l2| ==> l2[i] !in LineBreaks
    requires forall i :: 0 <= i < |l3| ==> l3[i] !in LineBreaks
    ensures ReadLines(l2 + "\n" + (l3 + "\n")) == [l2, l3]
  {
    ReadLinesFirst(l3, "");
    assert l3 + "\n" + "" == l3 + "\n";
    ReadLinesFirst(l2, l3 + "\n");
  }

  /** Three lines, each ended by "\n", are read as those three lines. */
  lemma ThreeLines(l1: string, l2: string, l3: string)
    requires forall i :: 0 <= i < |l1| ==> l1[i] !in LineBreaks
    requires forall i :: 0 <= i < |l2| ==> l2[i] !in LineBreaks
    requires forall i :: 0 <= i < |l3| ==> l3[i] !in LineBreaks
    ensures ReadLines(l1 + "\n" + (l2 + "\n" + (l3 + "\n"))) == [l1, l2, l3]
  {
    TwoLines(l2, l3);
    ReadLinesFirst(l1, l2 + "\n" + (l3 + "\n"));
  }

  lemma VerticesSnoc(lines: seq<string>, line: string, num: string -> real)
    ensures Vertices(lines + [line], num) == Vertices(lines, num) + Present(VertexOfLine(line, num))
  {
    assert (lines + [line])[..|lines|] == lines;
  }

  /** The vertices of three lines, line by line. */
  lemma ThreeVertices(l1: string, l2: string, l3: string, num: string -> real)
    ensures Vertices([l1, l2, l3], num)
         == Present(VertexOfLine(l1, num)) + Present(VertexOfLine(l2, num)) + Present(VertexOfLine(l3, num))
  {
    var p1 := Present(VertexOfLine(l1, num));
    assert [l1][..0] == [];
    assert Vertices([l1], num) == [] + p1;
    assert [] + p1 == p1;
    VerticesSnoc([l1], l2, num);
    assert [l1] + [l2] == [l1, l2];
    VerticesSnoc([l1, l2], l3, num);
    assert [l1, l2] + [l3] == [l1, l2, l3];
  }

  lemma PresentThree(o1: Option<Vector3>, o2: Option<Vector3>, o3: Option<Vector3>, v1: Vector3, v2: Vector3, v3: Vector3)
    requires o1 == Some(v1) && o2 == Some(v2) && o3 == Some(v3)
    ensures Present(o1) + Present(o2) + Present(o3) == [v1, v2, v3]
  {
  }

  /** Three vertices make one triangle; two make none. */
  lemma Group3Small(u: Vector3, v: Vector3, w: Vector3)
    ensures Group3([u, v]) == [] && Group3([u, v, w]) == [Triangle(u, v, w)]
  {
    assert [u, v, w][..2] == [u, v] && [u, v][..1] == [u] && [u][..0] == [];
    assert Gather([u]) == Gathered([], [u]);
    assert Gather([u, v]) == Gathered([], [u, v]);
  }

  lemma WithoutOriginFirst(v: Vector3, w: Vector3)
    requires v != Origin && w != Origin
    ensures WithoutOrigin([Origin, v, w]) == [v, w]
  {
    assert [Origin][..0] == [];
    assert WithoutOrigin([Origin]) == [];
    assert [Origin, v][..1] == [Origin];
    assert WithoutOrigin([Origin, v]) == [v];
    assert [Origin, v, w][..2] == [Origin, v];
    assert WithoutOrigin([Origin, v, w]) == [v] + [w];
  }

  /** One facet with a corner at the origin: the lines "vertex 0 0 0", "vertex 1 0 0", "vertex 0 1 0". */
  function OriginFacet(zero: char, one: char): string {
    VertexText(zero, zero, zero) + "\n" + (VertexText(one, zero, zero) + "\n" + (VertexText(zero, one, zero) + "\n"))
  }

  lemma FacetLines(zero: char, one: char)
    requires IsDigit(zero) && IsDigit(one)
    ensures ReadLines(OriginFacet(zero, one)) == [VertexText(zero, zero, zero), VertexText(one, zero, zero), VertexText(zero, one, zero)]
  {
    NoLineBreak(zero, zero, zero);
    NoLineBreak(one, zero, zero);
    NoLineBreak(zero, one, zero);
    ThreeLines(VertexText(zero, zero, zero), VertexText(one, zero, zero), VertexText(zero, one, zero));
  }

  lemma FacetVertices(zero: char, one: char, num: string -> real)
    requires IsDigit(zero) && IsDigit(one) && num([zero]) == 0.0 && num([one]) == 1.0
    ensures Vertices(ReadLines(OriginFacet(zero, one)), num) == [Origin, Vector3(1.0, 0.0, 0.0), Vector3(0.0, 1.0, 0.0)]
  {
    var l1, l2, l3 := VertexText(zero, zero, zero), VertexText(one, zero, zero), VertexText(zero, one, zero);
    FacetLines(zero, one);
    VertexLineReads(zero, zero, zero, num);
    VertexLineReads(one, zero, zero, num);
    VertexLineReads(zero, one, zero, num);
    ThreeVertices(l1, l2, l3, num);
    PresentThree(VertexOfLine(l1, num), VertexOfLine(l2, num), VertexOfLine(l3, num),
                 Origin, Vector3(1.0, 0.0, 0.0), Vector3(0.0, 1.0, 0.0));
  }

  /**
    A one-facet file whose first corner is at the origin gives no triangle at all with the loader
    as written, where the intended loader reads the facet. `zero` and `one` are the digits '0'
    and '1' (any digits that read as 0 and 1).
  */
  lemma OriginVertexDropped(zero: char, one: char, num: string -> real)
    requires IsDigit(zero) && IsDigit(one) && num([zero]) == 0.0 && num([one]) == 1.0
    ensures Group3(WithoutOrigin(Vertices(ReadLines(OriginFacet(zero, one)), num))) == []
    ensures Group3(Vertices(ReadLines(OriginFacet(zero, one)), num)) == [Triangle(Origin, Vector3(1.0, 0.0, 0.0), Vector3(0.0, 1.0, 0.0))]
  {
    FacetVertices(zero, one, num);
    var x, y := Vector3(1.0, 0.0, 0.0), Vector3(0.0, 1.0, 0.0);
    WithoutOriginFirst(x, y);
    Group3Small(x, y, y);
    Group3Small(Origin, x, y);
  }

  /** The counterexample with the digits themselves. */
  lemma OriginFacetDropped(num: string -> real)
    requires num("0") == 0.0 && num("1") == 1.0
    ensures Group3(WithoutOrigin(Vertices(ReadLines(OriginFacet('0', '1')), num))) == []
    ensures |Group3(Vertices(ReadLines(OriginFacet('0', '1')), num))| == 1
  {
    assert ['0'] == "0" && ['1'] == "1";
    OriginVertexDropped('0', '1', num);
  }

  /**
    `Load`: the binary reader when the size test says binary, the text reader otherwise. The
    intended size test and text reader are used; the file's bytes and its text (as
    `File.ReadAllText` decodes it) are parameters.
  */
  method Load(bytes: seq<byte>, text: string, decode: seq<byte> -> real, num: string -> real) returns (mesh: Mesh)
    ensures IsBinaryIntended(bytes) ==> mesh.triangles == BinaryTriangles(bytes, decode)
    ensures !IsBinaryIntended(bytes) ==> mesh.triangles == Group3(Vertices(ReadLines(text), num))
  {
    if IsBinaryIntended(bytes) {
      mesh := LoadBinary(bytes, decode);
    } else {
      mesh := LoadAsciiIntended(text, num);
    }
  }
}

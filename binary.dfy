/** The binary layout: stl_file_header, the 48-byte stl_triangle records and
    the 2 attribute bytes after each, as read by stl_loader::read_binary. */
module BinaryFormat {
  import opened Bytes
  import opened StlTypes
  import opened Sanity
  import opened Detection

  const CommentSize := 80
  /** sizeof(stl_triangle): twelve 4-byte floats. */
  const RecordSize := 48
  /** A record and its 2 attribute bytes. */
  const Stride := 50

  /** stl_file_header */
  datatype Header = Header(comment: seq<Byte>, ntri: Bits32)

  function ParseHeader(bytes: seq<Byte>): (h: Header)
    requires |bytes| >= HeaderSize
    ensures |h.comment| == CommentSize
  {
    Header(bytes[..CommentSize], Le32(bytes[CommentSize..HeaderSize]))
  }

  function EncodeHeader(h: Header): (bytes: seq<Byte>)
    requires |h.comment| == CommentSize
    ensures |bytes| == HeaderSize
  {
    h.comment + ToLe32(h.ntri)
  }

  /** A header read back from its encoding is the header written. */
  lemma HeaderRoundTrip(h: Header)
    requires |h.comment| == CommentSize
    ensures ParseHeader(EncodeHeader(h)) == h
  {
    var bytes := EncodeHeader(h);
    assert bytes[..CommentSize] == h.comment;
    assert bytes[CommentSize..HeaderSize] == ToLe32(h.ntri);
    Le32OfToLe32(h.ntri);
  }

  /** Three floats copied from 12 bytes. */
  function DecodeVec(s: seq<Byte>): Vec3
    requires |s| == 12
  {
    Vec3(Le32(s[0..4]), Le32(s[4..8]), Le32(s[8..12]))
  }

  function EncodeVec(v: Vec3): (s: seq<Byte>)
    ensures |s| == 12
  {
    ToLe32(v.x) + ToLe32(v.y) + ToLe32(v.z)
  }

  /** A vector read back from its twelve bytes is the vector written. */
  lemma VecRoundTrip(v: Vec3)
    ensures DecodeVec(EncodeVec(v)) == v
  {
    var a, b, c := ToLe32(v.x), ToLe32(v.y), ToLe32(v.z);
    var ab := a + b;
    var s := ab + c;
    assert s == EncodeVec(v);
    assert s[8..12] == c && s[..8] == ab;
    assert ab[0..4] == a && ab[4..8] == b;
    assert s[0..4] == a && s[4..8] == b;
    Le32OfToLe32(v.x);
    Le32OfToLe32(v.y);
    Le32OfToLe32(v.z);
  }

  /** The bytes of one record copied into an stl_triangle: normal, vtx[0], vtx[1], vtx[2]. */
  function DecodeRecord(s: seq<Byte>): Triangle
    requires |s| == RecordSize
  {
    Triangle(DecodeVec(s[0..12]), DecodeVec(s[12..24]), DecodeVec(s[24..36]), DecodeVec(s[36..48]))
  }

  function EncodeRecord(t: Triangle): (s: seq<Byte>)
    ensures |s| == RecordSize
  {
    EncodeVec(t.normal) + EncodeVec(t.v0) + EncodeVec(t.v1) + EncodeVec(t.v2)
  }

  /** Every 12 bytes are the encoding of the vector read from them: decoding
      loses nothing, so no two byte strings give the same vector. */
  lemma DecodeVecInverse(s: seq<Byte>)
    requires |s| == 12
    ensures EncodeVec(DecodeVec(s)) == s
  {
    assert s == s[0..4] + s[4..8] + s[8..12];
    ToLe32OfLe32(s[0..4]);
    ToLe32OfLe32(s[4..8]);
    ToLe32OfLe32(s[8..12]);
  }

  /** Every 48 bytes are the encoding of the triangle read from them. */
  lemma DecodeRecordInverse(s: seq<Byte>)
    requires |s| == RecordSize
    ensures EncodeRecord(DecodeRecord(s)) == s
  {
    assert s == s[0..12] + s[12..24] + s[24..36] + s[36..48];
    DecodeVecInverse(s[0..12]);
    DecodeVecInverse(s[12..24]);
    DecodeVecInverse(s[24..36]);
    DecodeVecInverse(s[36..48]);
  }

  /** A triangle read back from its 48-byte record is the triangle written. */
  lemma RecordRoundTrip(t: Triangle)
    ensures DecodeRecord(EncodeRecord(t)) == t
  {
    var a, b, c, d := EncodeVec(t.normal), EncodeVec(t.v0), EncodeVec(t.v1), EncodeVec(t.v2);
    var ab := a + b;
    var abc := ab + c;
    var s := abc + d;
    assert s == EncodeRecord(t);
    assert s[36..48] == d;
    assert s[..36] == abc;
    assert abc[24..36] == c && abc[..24] == ab;
    assert ab[0..12] == a && ab[12..24] == b;
    assert s[0..12] == a && s[12..24] == b && s[24..36] == c;
    VecRoundTrip(t.normal);
    VecRoundTrip(t.v0);
    VecRoundTrip(t.v1);
    VecRoundTrip(t.v2);
  }

  /** The offset of record i: after the header and i records with their attribute bytes. */
  function RecordStart(i: nat): nat {
    HeaderSize + Stride * i
  }

  /** The read of record i succeeds: the whole record lies inside the file. */
  predicate RecordPresent(bytes: seq<Byte>, i: nat) {
    RecordStart(i) + RecordSize <= |bytes|
  }

  /** The triangle handed to push_triangle on iteration i. The loop never
      checks the stream, so an iteration past the end of the file still offers
      whatever t holds then, which is not specified. */
  function Candidate(p: Platform, bytes: seq<Byte>, i: nat): Triangle {
    if RecordPresent(bytes, i) then DecodeRecord(bytes[RecordStart(i)..RecordStart(i) + RecordSize])
    else p.beyondEnd(i)
  }

  /** A candidate read from inside the file is exactly the triangle whose
      48-byte encoding is stored at 84 + 50 i. */
  lemma CandidateLayout(p: Platform, bytes: seq<Byte>, i: nat)
    requires RecordPresent(bytes, i)
    ensures EncodeRecord(Candidate(p, bytes, i)) == bytes[RecordStart(i)..RecordStart(i) + RecordSize]
  {
    DecodeRecordInverse(bytes[RecordStart(i)..RecordStart(i) + RecordSize]);
  }

  /** The ntri candidates of a binary file, in file order. */
  function Candidates(p: Platform, bytes: seq<Byte>): (cs: seq<Triangle>)
    requires |bytes| >= HeaderSize
    ensures |cs| == ParseHeader(bytes).ntri
    ensures forall i | 0 <= i < |cs| :: cs[i] == Candidate(p, bytes, i)
  {
    seq(ParseHeader(bytes).ntri, i requires 0 <= i => Candidate(p, bytes, i))
  }

  /** read_binary applied to the loader state s. */
  function BinaryLoad(p: Platform, bytes: seq<Byte>, s: Mesh): (r: Mesh)
    requires |bytes| >= HeaderSize
    ensures r.comment == bytes[..CommentSize]
    ensures r.triangles == s.triangles + Kept(p, Candidates(p, bytes))
  {
    OfferAllAppendsKept(p, s.(comment := bytes[..CommentSize]), Candidates(p, bytes));
    OfferAll(p, s.(comment := bytes[..CommentSize]), Candidates(p, bytes))
  }

  /** When the file holds all ntri records, every candidate is decoded from
      the file and none comes from past its end. */
  lemma CompleteFileDecoded(p: Platform, bytes: seq<Byte>, i: nat)
    requires |bytes| >= HeaderSize
    requires |bytes| >= HeaderSize + Stride * ParseHeader(bytes).ntri
    requires i < ParseHeader(bytes).ntri
    ensures RecordPresent(bytes, i)
    ensures Candidates(p, bytes)[i] == DecodeRecord(bytes[HeaderSize + Stride * i..HeaderSize + Stride * i + RecordSize])
  {
    var n := ParseHeader(bytes).ntri;
    assert Stride * i + Stride <= Stride * n;
  }

  /** A byte position inside the 2 attribute bytes of some record. */
  predicate IsAttributeByte(k: nat) {
    k >= HeaderSize && (k - HeaderSize) % Stride >= RecordSize
  }

  lemma RecordByteNotAttribute(i: nat, j: nat)
    requires j < RecordSize
    ensures !IsAttributeByte(RecordStart(i) + j)
  {
    assert RecordStart(i) + j - HeaderSize == Stride * i + j;
    assert (Stride * i + j) % Stride == j;
  }

  /** The attribute bytes are read and dropped: two files that differ only
      there load identically, so their value never sizes a read. */
  lemma AttributeBytesIgnored(p: Platform, a: seq<Byte>, b: seq<Byte>, s: Mesh)
    requires |a| == |b| >= HeaderSize
    requires forall k | 0 <= k < |a| && !IsAttributeByte(k) :: a[k] == b[k]
    ensures BinaryLoad(p, a, s) == BinaryLoad(p, b, s)
  {
    assert a[..HeaderSize] == b[..HeaderSize];
    assert a[CommentSize..HeaderSize] == b[CommentSize..HeaderSize];
    var ca, cb := Candidates(p, a), Candidates(p, b);
    forall i | 0 <= i < |ca|
      ensures ca[i] == cb[i]
    {
      if RecordPresent(a, i) {
        forall k | RecordStart(i) <= k < RecordStart(i) + RecordSize
          ensures a[k] == b[k]
        {
          RecordByteNotAttribute(i, k - RecordStart(i));
        }
        assert a[RecordStart(i)..RecordStart(i) + RecordSize] == b[RecordStart(i)..RecordStart(i) + RecordSize];
      }
    }
    assert ParseHeader(a) == ParseHeader(b);
    assert ca == cb;
    assert a[..CommentSize] == b[..CommentSize];
  }

  /** The records of a list of triangles, each followed by two zero attribute bytes. */
  function EncodeRecords(ts: seq<Triangle>): (s: seq<Byte>)
    ensures |s| == Stride * |ts|
    decreases |ts|
  {
    if ts == [] then []
    else EncodeRecords(ts[..|ts| - 1]) + EncodeRecord(ts[|ts| - 1]) + [0, 0]
  }

  /** A whole binary STL file holding the triangles ts. */
  function EncodeBinary(comment: seq<Byte>, ts: seq<Triangle>): (bytes: seq<Byte>)
    requires |comment| == CommentSize && |ts| < 0x1_0000_0000
    ensures |bytes| == HeaderSize + Stride * |ts|
  {
    EncodeHeader(Header(comment, |ts|)) + EncodeRecords(ts)
  }

  /** Record i of the encoding sits at offset 50 i. */
  lemma {:induction false} EncodeRecordsAt(ts: seq<Triangle>, i: nat)
    requires i < |ts|
    ensures EncodeRecords(ts)[Stride * i..Stride * i + RecordSize] == EncodeRecord(ts[i])
    decreases |ts|
  {
    var init := ts[..|ts| - 1];
    var tail := EncodeRecord(ts[|ts| - 1]) + [0, 0];
    assert EncodeRecords(ts) == EncodeRecords(init) + tail;
    if i < |ts| - 1 {
      EncodeRecordsAt(init, i);
      assert Stride * i + RecordSize <= |EncodeRecords(init)|;
      assert EncodeRecords(ts)[Stride * i..Stride * i + RecordSize]
          == EncodeRecords(init)[Stride * i..Stride * i + RecordSize];
    } else {
      assert |EncodeRecords(init)| == Stride * i;
      assert EncodeRecords(ts)[Stride * i..Stride * i + RecordSize] == tail[..RecordSize];
    }
  }

  /** The candidates of an encoded file are the triangles encoded. */
  lemma EncodeBinaryCandidates(p: Platform, comment: seq<Byte>, ts: seq<Triangle>)
    requires |comment| == CommentSize && |ts| < 0x1_0000_0000
    ensures ParseHeader(EncodeBinary(comment, ts)) == Header(comment, |ts|)
    ensures Candidates(p, EncodeBinary(comment, ts)) == ts
  {
    var bytes := EncodeBinary(comment, ts);
    var h := Header(comment, |ts|);
    assert bytes[..HeaderSize] == EncodeHeader(h);
    HeaderRoundTrip(h);
    assert ParseHeader(bytes) == ParseHeader(EncodeHeader(h));
    var cs := Candidates(p, bytes);
    forall i | 0 <= i < |ts|
      ensures cs[i] == ts[i]
    {
      assert RecordPresent(bytes, i) by {
        assert Stride * i + Stride <= Stride * |ts|;
      }
      EncodeRecordsAt(ts, i);
      assert bytes[RecordStart(i)..RecordStart(i) + RecordSize]
          == EncodeRecords(ts)[Stride * i..Stride * i + RecordSize];
      RecordRoundTrip(ts[i]);
    }
  }

  /** Loading the binary encoding of ts keeps exactly the sane triangles of
      ts, in order, and takes the 80 comment bytes verbatim. */
  lemma BinaryRoundTrip(p: Platform, comment: seq<Byte>, ts: seq<Triangle>, s: Mesh)
    requires |comment| == CommentSize && |ts| < 0x1_0000_0000
    ensures BinaryLoad(p, EncodeBinary(comment, ts), s).triangles == s.triangles + Kept(p, ts)
    ensures BinaryLoad(p, EncodeBinary(comment, ts), s).comment == comment
  {
    EncodeBinaryCandidates(p, comment, ts);
    assert EncodeBinary(comment, ts)[..CommentSize] == comment;
  }
}

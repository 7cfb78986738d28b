/** stl_loader: the object that reads STL files into its triangle list. */
module Loader {
  import opened Bytes
  import opened StlTypes
  import opened Sanity
  import opened Detection
  import opened BinaryFormat
  import opened AsciiFormat

  /** read(fileName) applied to the loader state s, for the file's bytes. A
      file that cannot be opened reads as no bytes. */
  function Load(p: Platform, bytes: seq<Byte>, s: Mesh): (r: Mesh)
    ensures |bytes| < HeaderSize ==> r == s
    ensures Detect(bytes) == Binary ==> r.comment == bytes[..CommentSize]
  {
    match Detect(bytes)
    case TooShort => s
    case Ascii => AsciiLoad(p, p.textView(bytes), s)
    case Binary => BinaryLoad(p, bytes, s)
  }

  /** A read only ever adds triangles after those already held, and every
      triangle it adds has three sane vertices. */
  lemma LoadAppendsSane(p: Platform, bytes: seq<Byte>, s: Mesh)
    ensures var r := Load(p, bytes, s);
      |s.triangles| <= |r.triangles| &&
      r.triangles[..|s.triangles|] == s.triangles &&
      forall i | |s.triangles| <= i < |r.triangles| :: AllSane(p, r.triangles[i])
  {
    match Detect(bytes)
    case TooShort =>
    case Ascii =>
      var text := p.textView(bytes);
      if text.first == "solid" {
        ScanAppendsSane(p, text.body, Fresh(p), 0, s.(comment := text.restOfLine));
      }
    case Binary =>
      OfferAllKeepsPrefixSane(p, s.(comment := bytes[..CommentSize]), Candidates(p, bytes));
  }

  /** A binary file whose comment does not start with "solid" loads the
      sane triangles it was written with, and its 80 comment bytes. */
  lemma BinaryFileRoundTrip(p: Platform, comment: seq<Byte>, ts: seq<Triangle>, s: Mesh)
    requires |comment| == CommentSize && |ts| < 0x1_0000_0000
    requires comment[..5] != SolidTag
    ensures Load(p, EncodeBinary(comment, ts), s).triangles == s.triangles + Kept(p, ts)
    ensures Load(p, EncodeBinary(comment, ts), s).comment == comment
  {
    assert EncodeBinary(comment, ts)[..5] == comment[..5];
    BinaryRoundTrip(p, comment, ts, s);
  }

  /** The same triangles written in either layout load as the same list. */
  lemma LayoutsAgree(p: Platform, fmt: Bits32 -> string, comment: seq<Byte>, name: seq<Byte>, ts: seq<Triangle>, s: Mesh)
    requires AllReadBack(p, fmt, ts)
    requires |comment| == CommentSize && |ts| < 0x1_0000_0000 && comment[..5] != SolidTag
    ensures Load(p, EncodeBinary(comment, ts), s).triangles
         == AsciiLoad(p, AsciiText("solid", name, FacetsTokens(fmt, ts) + ["endsolid"]), s).triangles
  {
    BinaryFileRoundTrip(p, comment, ts, s);
    AsciiRoundTrip(p, fmt, name, ts, s);
  }

  class StlLoader {
    const platform: Platform
    /** The std::vector<stl_triangle> the loader derives from. */
    var triangles: seq<Triangle>
    var comment: seq<Byte>
    /** The lines written to std::cerr, in order. */
    var warnings: seq<Warning>

    function State(): Mesh
      reads this
    {
      Mesh(triangles, comment, warnings)
    }

    /** stl_loader(fileName): an empty loader that then reads the file. */
    constructor (p: Platform, bytes: seq<Byte>)
      ensures platform == p
      ensures State() == Load(p, bytes, Mesh([], [], []))
    {
      platform := p;
      triangles, comment, warnings := [], [], [];
      new;
      Read(bytes);
    }

    /** read: detect the layout and add the file's triangles to the list. */
    method Read(bytes: seq<Byte>)
      modifies this
      ensures State() == Load(platform, bytes, old(State()))
    {
      if |bytes| < HeaderSize {
        return;  // the header read failed
      }
      var hasBinary := Sniff(bytes);
      if !hasBinary && bytes[..5] == SolidTag {
        ReadAscii(platform.textView(bytes));
      } else {
        ReadBinary(bytes);
      }
    }

    /** read_binary: the comment, then ntri records, each offered to
        push_triangle whether or not the file still had it. */
    method ReadBinary(bytes: seq<Byte>)
      requires |bytes| >= HeaderSize
      modifies this
      ensures State() == BinaryLoad(platform, bytes, old(State()))
    {
      var header := ParseHeader(bytes);
      comment := header.comment;
      ghost var start := State();
      assert start == old(State()).(comment := bytes[..CommentSize]);
      ghost var cs := Candidates(platform, bytes);
      var pos := HeaderSize;
      for i := 0 to header.ntri
        invariant pos == RecordStart(i)
        invariant State() == OfferAll(platform, start, cs[..i])
      {
        var t := ReadRecord(bytes, pos, i);
        assert cs[i] == t;
        PushTriangle(t);
        assert cs[..i + 1][..i] == cs[..i];
        assert OfferAll(platform, start, cs[..i + 1]) == Offer(platform, OfferAll(platform, start, cs[..i]), t);
        // 48 bytes of triangle, then 2 attribute bytes that are read and dropped
        pos := pos + Stride;
      }
      assert cs[..header.ntri] == cs;
    }

    /** The read of the i-th stl_triangle at offset pos: the 48 bytes there
        when the file still holds them, otherwise whatever t then holds. */
    method ReadRecord(bytes: seq<Byte>, pos: nat, i: nat) returns (t: Triangle)
      requires pos == RecordStart(i)
      ensures RecordPresent(bytes, i) ==> t == DecodeRecord(bytes[pos..pos + RecordSize])
      ensures !RecordPresent(bytes, i) ==> t == platform.beyondEnd(i)
      ensures t == Candidate(platform, bytes, i)
    {
      if pos + RecordSize <= |bytes| {
        t := DecodeRecord(bytes[pos..pos + RecordSize]);
      } else {
        t := platform.beyondEnd(i);
      }
    }

    /** read_ascii: check the "solid" start, keep the rest of its line as the
        comment, then run the facet loop over the remaining tokens. */
    method ReadAscii(text: AsciiText)
      modifies this
      ensures State() == AsciiLoad(platform, text, old(State()))
    {
      if text.first != "solid" {
        return;  // not an ASCII file
      }
      comment := text.restOfLine;
      var toks := text.body;
      var t := Fresh(platform);
      var cv := 0;
      var pos := 0;
      while true
        invariant 0 <= pos <= |toks| && 0 <= cv <= 3
        invariant Scan(platform, toks[pos..], t, cv, State()) == AsciiLoad(platform, text, old(State()))
        decreases |toks| - pos
      {
        if pos == |toks| {
          break;  // no token left: the read fails
        }
        var token := toks[pos];
        assert toks[pos..][1..] == toks[pos + 1..];
        pos := pos + 1;
        match KeywordOf(token) {
          case Facet =>
          case Normal =>
            var n := ReadXyz(toks, pos);
            if n.None? {
              break;  // the stream has failed, so the next token read fails
            }
            assert toks[pos..][3..] == toks[pos + 3..];
            t := t.(normal := n.value);
            pos := pos + 3;
          case Outer =>
            cv := 0;
          case Loop =>
            cv := 0;
          case Vertex =>
            if cv < 3 {
              var v := ReadXyz(toks, pos);
              if v.None? {
                break;  // the stream has failed, so the next token read fails
              }
              assert toks[pos..][3..] == toks[pos + 3..];
              t := t.WithVertex(cv, v.value);
              cv := cv + 1;
              pos := pos + 3;
            } else {
              warnings := warnings + [NonTriangle(|triangles|)];
            }
          case EndLoop =>
          case EndFacet =>
            PushTriangle(t);
          case EndSolid =>
            break;
          case Other =>
            warnings := warnings + [UnknownToken(token)];
        }
      }
    }

    /** read_xyz: read x, y and z from the next three tokens. */
    method ReadXyz(toks: seq<string>, pos: nat) returns (v: Option<Vec3>)
      requires pos <= |toks|
      ensures v.Some? <==> pos + 3 <= |toks| && platform.parseFloat(toks[pos]).Some? &&
                           platform.parseFloat(toks[pos + 1]).Some? && platform.parseFloat(toks[pos + 2]).Some?
      ensures v.Some? ==> v.value == Vec3(platform.parseFloat(toks[pos]).value,
                                          platform.parseFloat(toks[pos + 1]).value,
                                          platform.parseFloat(toks[pos + 2]).value)
      ensures v == XyzAt(platform, toks[pos..])
    {
      if pos + 3 > |toks| {
        return None;
      }
      var x := platform.parseFloat(toks[pos]);
      var y := platform.parseFloat(toks[pos + 1]);
      var z := platform.parseFloat(toks[pos + 2]);
      if x.None? || y.None? || z.None? {
        return None;
      }
      return Some(Vec3(x.value, y.value, z.value));
    }

    /** push_triangle: warn about a bad normal, then keep t only if all three
        vertices are sane. */
    method PushTriangle(t: Triangle)
      modifies this
      ensures State() == Offer(platform, old(State()), t)
    {
      if !platform.normalOk(t.normal) {
        warnings := warnings + [BadNormal(|triangles|)];
      }
      var ok := Sane(t.v0);
      if ok {
        ok := Sane(t.v1);
      }
      if ok {
        ok := Sane(t.v2);
      }
      if ok {
        triangles := triangles + [t];
      }
    }

    /** sane: reject a huge or NaN vertex, with a diagnostic. */
    method Sane(v: Vec3) returns (ok: bool)
      modifies this`warnings
      ensures ok == IsSane(platform, v)
      ensures warnings == old(warnings) + Complaint(v, Judge(platform, v))
    {
      if platform.huge(v) {
        warnings := warnings + [HugeVertex(v)];
        return false;
      }
      if platform.notANumber(v) {
        warnings := warnings + [NaNVertex(v)];
        return false;
      }
      return true;
    }
  }
}

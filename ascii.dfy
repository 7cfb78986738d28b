/** The ASCII reader: stl_loader::read_ascii and read_xyz over a token stream. */
module AsciiFormat {
  import opened Bytes
  import opened StlTypes
  import opened Sanity

  /** The words read_ascii acts on; every other token draws a warning. */
  predicate IsKeyword(token: string) {
    token == "facet" || token == "normal" || token == "outer" || token == "loop" ||
    token == "vertex" || token == "endloop" || token == "endfacet" || token == "endsolid"
  }

  /** Which branch of the facet loop a token takes. */
  datatype Keyword = Facet | Normal | Outer | Loop | Vertex | EndLoop | EndFacet | EndSolid | Other

  /** The branch a token selects; the comparison is exact and case-sensitive. */
  function KeywordOf(token: string): (k: Keyword)
    ensures k == Other <==> !IsKeyword(token)
    ensures k == Facet <==> token == "facet"
    ensures k == Vertex <==> token == "vertex"
    ensures k == EndFacet <==> token == "endfacet"
    ensures k == EndSolid <==> token == "endsolid"
  {
    if token == "facet" then Facet
    else if token == "normal" then Normal
    else if token == "outer" then Outer
    else if token == "loop" then Loop
    else if token == "vertex" then Vertex
    else if token == "endloop" then EndLoop
    else if token == "endfacet" then EndFacet
    else if token == "endsolid" then EndSolid
    else Other
  }

  /** Each of the eight keywords selects its own branch and no other token
      does; the four the contract of KeywordOf leaves out are stated here
      rather than there, where every step of the loop would carry them. */
  lemma KeywordOfExact(token: string)
    ensures KeywordOf(token) == Facet <==> token == "facet"
    ensures KeywordOf(token) == Normal <==> token == "normal"
    ensures KeywordOf(token) == Outer <==> token == "outer"
    ensures KeywordOf(token) == Loop <==> token == "loop"
    ensures KeywordOf(token) == Vertex <==> token == "vertex"
    ensures KeywordOf(token) == EndLoop <==> token == "endloop"
    ensures KeywordOf(token) == EndFacet <==> token == "endfacet"
    ensures KeywordOf(token) == EndSolid <==> token == "endsolid"
  {
  }

  /** read_xyz: three float reads from the next three tokens; None when the
      stream fails (too few tokens, or a token that does not read as a float). */
  function XyzAt(p: Platform, toks: seq<string>): (r: Option<Vec3>)
    ensures r.Some? ==> |toks| >= 3
  {
    if |toks| < 3 then None
    else
      match (p.parseFloat(toks[0]), p.parseFloat(toks[1]), p.parseFloat(toks[2]))
      case (Some(x), Some(y), Some(z)) => Some(Vec3(x, y, z))
      case _ => None
  }

  /** The pending triangle as declared: normal zeroed by the constructor,
      vertices as the platform leaves them. */
  function Fresh(p: Platform): (t: Triangle)
    ensures t.normal == Zero
    ensures forall i: nat | i < 3 :: t.Vertex(i) == p.blank.Vertex(i)
  {
    p.blank.(normal := Zero)
  }

  /** The facet loop of read_ascii from the remaining tokens toks, with pending
      triangle t, vertex counter cv and loader state s; the result is the
      loader state when the loop ends. A failed read_xyz fails the stream, so
      the next token read fails and the loop ends there. */
  function Scan(p: Platform, toks: seq<string>, t: Triangle, cv: nat, s: Mesh): (r: Mesh)
    requires cv <= 3
    ensures r.comment == s.comment
    ensures |s.triangles| <= |r.triangles|
    decreases |toks|
  {
    if toks == [] then s
    else
      var token, rest := toks[0], toks[1..];
      match KeywordOf(token)
      case Facet => Scan(p, rest, t, cv, s)
      case Normal =>
        (match XyzAt(p, rest)
         case None => s
         case Some(n) => Scan(p, rest[3..], t.(normal := n), cv, s))
      case Outer => Scan(p, rest, t, 0, s)
      case Loop => Scan(p, rest, t, 0, s)
      case Vertex =>
        if cv < 3 then
          match XyzAt(p, rest)
          case None => s
          case Some(v) => Scan(p, rest[3..], t.WithVertex(cv, v), cv + 1, s)
        else Scan(p, rest, t, cv, s.(warnings := s.warnings + [NonTriangle(|s.triangles|)]))
      case EndLoop => Scan(p, rest, t, cv, s)
      case EndFacet => Scan(p, rest, t, cv, Offer(p, s, t))
      case EndSolid => s
      case Other => Scan(p, rest, t, cv, s.(warnings := s.warnings + [UnknownToken(token)]))
  }

  /** read_ascii applied to the loader state s. */
  function AsciiLoad(p: Platform, text: AsciiText, s: Mesh): (r: Mesh)
    ensures text.first != "solid" ==> r == s
    ensures text.first == "solid" ==> r.comment == text.restOfLine
    ensures |s.triangles| <= |r.triangles| && r.triangles[..|s.triangles|] == s.triangles
  {
    if text.first != "solid" then s
    else
      var s1 := s.(comment := text.restOfLine);
      ScanAppendsSane(p, text.body, Fresh(p), 0, s1);
      Scan(p, text.body, Fresh(p), 0, s1)
  }

  /** The loop keeps the comment and every earlier triangle, and appends only
      triangles whose three vertices are sane. */
  lemma {:induction false} ScanAppendsSane(p: Platform, toks: seq<string>, t: Triangle, cv: nat, s: Mesh)
    requires cv <= 3
    ensures var r := Scan(p, toks, t, cv, s);
      r.comment == s.comment &&
      |s.triangles| <= |r.triangles| &&
      r.triangles[..|s.triangles|] == s.triangles &&
      forall i | |s.triangles| <= i < |r.triangles| :: AllSane(p, r.triangles[i])
    decreases |toks|
  {
    if toks != [] {
      var token, rest := toks[0], toks[1..];
      match KeywordOf(token)
      case Facet => ScanAppendsSane(p, rest, t, cv, s);
      case Normal =>
        match XyzAt(p, rest) {
          case None =>
          case Some(n) => ScanAppendsSane(p, rest[3..], t.(normal := n), cv, s);
        }
      case Outer => ScanAppendsSane(p, rest, t, 0, s);
      case Loop => ScanAppendsSane(p, rest, t, 0, s);
      case Vertex =>
        if cv < 3 {
          match XyzAt(p, rest) {
            case None =>
            case Some(v) => ScanAppendsSane(p, rest[3..], t.WithVertex(cv, v), cv + 1, s);
          }
        } else {
          ScanAppendsSane(p, rest, t, cv, s.(warnings := s.warnings + [NonTriangle(|s.triangles|)]));
        }
      case EndLoop => ScanAppendsSane(p, rest, t, cv, s);
      case EndFacet =>
        var s1 := Offer(p, s, t);
        ScanAppendsSane(p, rest, t, cv, s1);
        var r := Scan(p, toks, t, cv, s);
        assert r.triangles[..|s1.triangles|] == s1.triangles;
        assert r.triangles[..|s.triangles|] == s1.triangles[..|s.triangles|];
      case EndSolid =>
      case Other => ScanAppendsSane(p, rest, t, cv, s.(warnings := s.warnings + [UnknownToken(token)]));
    }
  }

  /** The number of "endfacet" tokens before the first "endsolid". */
  function FacetsAhead(toks: seq<string>): nat
    decreases |toks|
  {
    if toks == [] || toks[0] == "endsolid" then 0
    else (if toks[0] == "endfacet" then 1 else 0) + FacetsAhead(toks[1..])
  }

  /** Skipping three tokens none of which is "endsolid" does not raise the count. */
  lemma FacetsAheadSkip3(toks: seq<string>)
    requires |toks| >= 3
    requires toks[0] != "endsolid" && toks[1] != "endsolid" && toks[2] != "endsolid"
    ensures FacetsAhead(toks[3..]) <= FacetsAhead(toks)
  {
    assert toks[1..][1..] == toks[2..];
    assert toks[2..][1..] == toks[3..];
    assert FacetsAhead(toks[1..]) <= FacetsAhead(toks);
    assert FacetsAhead(toks[2..]) <= FacetsAhead(toks[1..]);
    assert FacetsAhead(toks[3..]) <= FacetsAhead(toks[2..]);
  }

  /** At most one triangle is appended per "endfacet" before the first
      "endsolid", provided "endsolid" does not read as a float (it does not
      for operator>>, which needs digits before an exponent). */
  lemma {:induction false} ScanCountBound(p: Platform, toks: seq<string>, t: Triangle, cv: nat, s: Mesh)
    requires cv <= 3
    requires p.parseFloat("endsolid") == None
    ensures |Scan(p, toks, t, cv, s).triangles| <= |s.triangles| + FacetsAhead(toks)
    decreases |toks|
  {
    if toks != [] {
      var token, rest := toks[0], toks[1..];
      match KeywordOf(token)
      case Facet => ScanCountBound(p, rest, t, cv, s);
      case Normal =>
        match XyzAt(p, rest) {
          case None =>
          case Some(n) =>
            ScanCountBound(p, rest[3..], t.(normal := n), cv, s);
            FacetsAheadSkip3(rest);
        }
      case Outer => ScanCountBound(p, rest, t, 0, s);
      case Loop => ScanCountBound(p, rest, t, 0, s);
      case Vertex =>
        if cv < 3 {
          match XyzAt(p, rest) {
            case None =>
            case Some(v) =>
              ScanCountBound(p, rest[3..], t.WithVertex(cv, v), cv + 1, s);
              FacetsAheadSkip3(rest);
          }
        } else {
          ScanCountBound(p, rest, t, cv, s.(warnings := s.warnings + [NonTriangle(|s.triangles|)]));
        }
      case EndLoop => ScanCountBound(p, rest, t, cv, s);
      case EndFacet => ScanCountBound(p, rest, t, cv, Offer(p, s, t));
      case EndSolid =>
      case Other => ScanCountBound(p, rest, t, cv, s.(warnings := s.warnings + [UnknownToken(token)]));
    }
  }

  /** "endsolid" ends the loop: nothing after it is read. */
  lemma EndsolidStops(p: Platform, rest: seq<string>, t: Triangle, cv: nat, s: Mesh)
    requires cv <= 3
    ensures Scan(p, ["endsolid"] + rest, t, cv, s) == s
  {
  }

  /** An unknown token only adds a warning; the loop goes on after it. */
  lemma UnknownTokenSkipped(p: Platform, token: string, rest: seq<string>, t: Triangle, cv: nat, s: Mesh)
    requires cv <= 3 && !IsKeyword(token)
    ensures Scan(p, [token] + rest, t, cv, s) == Scan(p, rest, t, cv, s.(warnings := s.warnings + [UnknownToken(token)]))
  {
    assert ([token] + rest)[1..] == rest;
  }

  /** A "vertex" with all three slots written: a warning, and no read. */
  lemma ExtraVertexStep(p: Platform, rest: seq<string>, t: Triangle, s: Mesh)
    ensures Scan(p, ["vertex"] + rest, t, 3, s) == Scan(p, rest, t, 3, s.(warnings := s.warnings + [NonTriangle(|s.triangles|)]))
  {
    assert (["vertex"] + rest)[1..] == rest;
  }

  /** A fourth "vertex" in one loop writes no slot and reads no numbers: its
      three numbers then come round as unknown tokens. */
  lemma FourthVertexIgnored(p: Platform, a: string, b: string, c: string, rest: seq<string>, t: Triangle, s: Mesh)
    requires !IsKeyword(a) && !IsKeyword(b) && !IsKeyword(c)
    ensures Scan(p, ["vertex", a, b, c] + rest, t, 3, s)
         == Scan(p, rest, t, 3, s.(warnings := s.warnings + [NonTriangle(|s.triangles|), UnknownToken(a), UnknownToken(b), UnknownToken(c)]))
  {
    var r2 := [c] + rest;
    var r1 := [b] + r2;
    var r0 := [a] + r1;
    assert ["vertex", a, b, c] + rest == ["vertex"] + r0;
    var s1 := s.(warnings := s.warnings + [NonTriangle(|s.triangles|)]);
    var s2 := s1.(warnings := s1.warnings + [UnknownToken(a)]);
    var s3 := s2.(warnings := s2.warnings + [UnknownToken(b)]);
    var s4 := s3.(warnings := s3.warnings + [UnknownToken(c)]);
    ExtraVertexStep(p, r0, t, s);
    UnknownTokenSkipped(p, a, r1, t, 3, s1);
    UnknownTokenSkipped(p, b, r2, t, 3, s2);
    UnknownTokenSkipped(p, c, rest, t, 3, s3);
    assert s4 == s.(warnings := s.warnings + [NonTriangle(|s.triangles|), UnknownToken(a), UnknownToken(b), UnknownToken(c)]);
  }

  // The ASCII layout written out, and the reader run over it.

  /** operator>> reads the printed form of x back as x. Not every bit
      pattern does: NaN payloads, for one, do not survive printing. */
  predicate ReadsBack(p: Platform, fmt: Bits32 -> string, x: Bits32) {
    p.parseFloat(fmt(x)) == Some(x)
  }

  predicate VecReadsBack(p: Platform, fmt: Bits32 -> string, v: Vec3) {
    ReadsBack(p, fmt, v.x) && ReadsBack(p, fmt, v.y) && ReadsBack(p, fmt, v.z)
  }

  /** Every number printed for the facet of t reads back unchanged. */
  predicate TriReadsBack(p: Platform, fmt: Bits32 -> string, t: Triangle) {
    VecReadsBack(p, fmt, t.normal) && VecReadsBack(p, fmt, t.v0) &&
    VecReadsBack(p, fmt, t.v1) && VecReadsBack(p, fmt, t.v2)
  }

  predicate AllReadBack(p: Platform, fmt: Bits32 -> string, ts: seq<Triangle>) {
    forall u | u in ts :: TriReadsBack(p, fmt, u)
  }

  function XyzTokens(fmt: Bits32 -> string, v: Vec3): seq<string> {
    [fmt(v.x), fmt(v.y), fmt(v.z)]
  }

  /** vertex v0 vertex v1 vertex v2 */
  function CornerTokens(fmt: Bits32 -> string, t: Triangle): seq<string> {
    ["vertex"] + XyzTokens(fmt, t.v0) + ["vertex"] + XyzTokens(fmt, t.v1) + ["vertex"] + XyzTokens(fmt, t.v2)
  }

  /** facet normal n outer loop vertex v0 vertex v1 vertex v2 endloop endfacet */
  function FacetTokens(fmt: Bits32 -> string, t: Triangle): seq<string> {
    ["facet", "normal"] + XyzTokens(fmt, t.normal) + ["outer", "loop"] + CornerTokens(fmt, t) + ["endloop", "endfacet"]
  }

  /** The facets of ts, one after another. */
  function FacetsTokens(fmt: Bits32 -> string, ts: seq<Triangle>): seq<string>
    decreases |ts|
  {
    if ts == [] then [] else FacetsTokens(fmt, ts[..|ts| - 1]) + FacetTokens(fmt, ts[|ts| - 1])
  }

  /** read_xyz reads back the vector printed iff each of its three numbers
      reads back. */
  lemma XyzRoundTrip(p: Platform, fmt: Bits32 -> string, v: Vec3)
    ensures XyzAt(p, XyzTokens(fmt, v)) == Some(v) <==> VecReadsBack(p, fmt, v)
  {
    var toks := XyzTokens(fmt, v);
    assert toks[0] == fmt(v.x) && toks[1] == fmt(v.y) && toks[2] == fmt(v.z);
  }

  /** read_xyz looks at the next three tokens only. */
  lemma XyzAtPrefix(p: Platform, toks: seq<string>, rest: seq<string>)
    requires |toks| == 3
    ensures XyzAt(p, toks + rest) == XyzAt(p, toks)
  {
    var all := toks + rest;
    assert all[0] == toks[0] && all[1] == toks[1] && all[2] == toks[2];
  }

  lemma StepSkip(p: Platform, token: string, rest: seq<string>, t: Triangle, cv: nat, s: Mesh)
    requires token == "facet" || token == "endloop"
    requires cv <= 3
    ensures Scan(p, [token] + rest, t, cv, s) == Scan(p, rest, t, cv, s)
  {
    assert ([token] + rest)[1..] == rest;
  }

  lemma StepReset(p: Platform, token: string, rest: seq<string>, t: Triangle, cv: nat, s: Mesh)
    requires token == "outer" || token == "loop"
    requires cv <= 3
    ensures Scan(p, [token] + rest, t, cv, s) == Scan(p, rest, t, 0, s)
  {
    assert ([token] + rest)[1..] == rest;
  }

  lemma StepEndfacet(p: Platform, rest: seq<string>, t: Triangle, cv: nat, s: Mesh)
    requires cv <= 3
    ensures Scan(p, ["endfacet"] + rest, t, cv, s) == Scan(p, rest, t, cv, Offer(p, s, t))
  {
    assert (["endfacet"] + rest)[1..] == rest;
  }

  /** "normal" and the printed n: the normal becomes whatever read_xyz makes
      of the three numbers, or the loop ends when a number does not read. */
  lemma StepNormal(p: Platform, fmt: Bits32 -> string, n: Vec3, rest: seq<string>, t: Triangle, cv: nat, s: Mesh)
    requires cv <= 3
    ensures Scan(p, ["normal"] + XyzTokens(fmt, n) + rest, t, cv, s)
         == match XyzAt(p, XyzTokens(fmt, n))
            case None => s
            case Some(m) => Scan(p, rest, t.(normal := m), cv, s)
    ensures VecReadsBack(p, fmt, n) ==>
              Scan(p, ["normal"] + XyzTokens(fmt, n) + rest, t, cv, s) == Scan(p, rest, t.(normal := n), cv, s)
  {
    var toks := ["normal"] + XyzTokens(fmt, n) + rest;
    assert toks[1..] == XyzTokens(fmt, n) + rest;
    XyzAtPrefix(p, XyzTokens(fmt, n), rest);
    XyzRoundTrip(p, fmt, n);
    assert toks[1..][3..] == rest;
  }

  /** "vertex" and the printed v with cv < 3: slot cv becomes whatever read_xyz
      makes of the three numbers, or the loop ends when a number does not read. */
  lemma StepVertex(p: Platform, fmt: Bits32 -> string, v: Vec3, rest: seq<string>, t: Triangle, cv: nat, s: Mesh)
    requires cv < 3
    ensures Scan(p, ["vertex"] + XyzTokens(fmt, v) + rest, t, cv, s)
         == match XyzAt(p, XyzTokens(fmt, v))
            case None => s
            case Some(m) => Scan(p, rest, t.WithVertex(cv, m), cv + 1, s)
    ensures VecReadsBack(p, fmt, v) ==>
              Scan(p, ["vertex"] + XyzTokens(fmt, v) + rest, t, cv, s) == Scan(p, rest, t.WithVertex(cv, v), cv + 1, s)
  {
    var toks := ["vertex"] + XyzTokens(fmt, v) + rest;
    assert toks[1..] == XyzTokens(fmt, v) + rest;
    XyzAtPrefix(p, XyzTokens(fmt, v), rest);
    XyzRoundTrip(p, fmt, v);
    assert toks[1..][3..] == rest;
  }

  /** "facet normal n outer loop": the normal is overwritten and the counter reset. */
  lemma HeadStep(p: Platform, fmt: Bits32 -> string, n: Vec3, rest: seq<string>, t: Triangle, cv: nat, s: Mesh)
    requires VecReadsBack(p, fmt, n) && cv <= 3
    ensures Scan(p, ["facet", "normal"] + XyzTokens(fmt, n) + ["outer", "loop"] + rest, t, cv, s)
         == Scan(p, rest, t.(normal := n), 0, s)
  {
    var r2 := ["loop"] + rest;
    var r1 := ["outer"] + r2;
    var r0 := ["normal"] + XyzTokens(fmt, n) + r1;
    assert ["facet", "normal"] + XyzTokens(fmt, n) + ["outer", "loop"] + rest == ["facet"] + r0;
    StepSkip(p, "facet", r0, t, cv, s);
    StepNormal(p, fmt, n, r1, t, cv, s);
    StepReset(p, "outer", r2, t.(normal := n), cv, s);
    StepReset(p, "loop", rest, t.(normal := n), 0, s);
  }

  /** Three vertices fill the three slots in order. */
  lemma CornersStep(p: Platform, fmt: Bits32 -> string, f: Triangle, rest: seq<string>, t: Triangle, s: Mesh)
    requires VecReadsBack(p, fmt, f.v0) && VecReadsBack(p, fmt, f.v1) && VecReadsBack(p, fmt, f.v2)
    ensures Scan(p, CornerTokens(fmt, f) + rest, t, 0, s) == Scan(p, rest, t.(v0 := f.v0, v1 := f.v1, v2 := f.v2), 3, s)
  {
    var r2 := ["vertex"] + XyzTokens(fmt, f.v2) + rest;
    var r1 := ["vertex"] + XyzTokens(fmt, f.v1) + r2;
    assert CornerTokens(fmt, f) + rest == ["vertex"] + XyzTokens(fmt, f.v0) + r1;
    StepVertex(p, fmt, f.v0, r1, t, 0, s);
    StepVertex(p, fmt, f.v1, r2, t.(v0 := f.v0), 1, s);
    StepVertex(p, fmt, f.v2, rest, t.(v0 := f.v0, v1 := f.v1), 2, s);
  }

  /** "endloop endfacet": the pending triangle is offered once. */
  lemma TailStep(p: Platform, rest: seq<string>, t: Triangle, cv: nat, s: Mesh)
    requires cv <= 3
    ensures Scan(p, ["endloop", "endfacet"] + rest, t, cv, s) == Scan(p, rest, t, cv, Offer(p, s, t))
  {
    assert ["endloop", "endfacet"] + rest == ["endloop"] + (["endfacet"] + rest);
    StepSkip(p, "endloop", ["endfacet"] + rest, t, cv, s);
    StepEndfacet(p, rest, t, cv, s);
  }

  /** One written facet overwrites the normal and all three vertex slots of
      the pending triangle and offers it once. */
  lemma FacetStep(p: Platform, fmt: Bits32 -> string, f: Triangle, rest: seq<string>, t: Triangle, cv: nat, s: Mesh)
    requires TriReadsBack(p, fmt, f) && cv <= 3
    ensures Scan(p, FacetTokens(fmt, f) + rest, t, cv, s) == Scan(p, rest, f, 3, Offer(p, s, f))
  {
    var r1 := ["endloop", "endfacet"] + rest;
    var r0 := CornerTokens(fmt, f) + r1;
    assert FacetTokens(fmt, f) + rest == ["facet", "normal"] + XyzTokens(fmt, f.normal) + ["outer", "loop"] + r0;
    HeadStep(p, fmt, f.normal, r0, t, cv, s);
    CornersStep(p, fmt, f, r1, t.(normal := f.normal), s);
    assert t.(normal := f.normal).(v0 := f.v0, v1 := f.v1, v2 := f.v2) == f;
    TailStep(p, rest, f, 3, s);
  }

  /** A written facet whose normal does not read as a float ends the loop
      before the facet is offered: the stream has failed. */
  lemma UnreadableNormalStops(p: Platform, fmt: Bits32 -> string, f: Triangle, rest: seq<string>, t: Triangle, cv: nat, s: Mesh)
    requires cv <= 3
    requires p.parseFloat(fmt(f.normal.x)) == None || p.parseFloat(fmt(f.normal.y)) == None ||
             p.parseFloat(fmt(f.normal.z)) == None
    ensures Scan(p, FacetTokens(fmt, f) + rest, t, cv, s) == s
  {
    var r1 := ["outer", "loop"] + CornerTokens(fmt, f) + ["endloop", "endfacet"] + rest;
    var r0 := ["normal"] + XyzTokens(fmt, f.normal) + r1;
    assert FacetTokens(fmt, f) + rest == ["facet"] + r0;
    StepSkip(p, "facet", r0, t, cv, s);
    var xyz := XyzTokens(fmt, f.normal);
    assert xyz[0] == fmt(f.normal.x) && xyz[1] == fmt(f.normal.y) && xyz[2] == fmt(f.normal.z);
    assert XyzAt(p, xyz) == None;
    StepNormal(p, fmt, f.normal, r1, t, cv, s);
  }

  /** Written facets are offered in order; the last one stays pending. */
  lemma FacetsStep(p: Platform, fmt: Bits32 -> string, ts: seq<Triangle>, rest: seq<string>, t: Triangle, cv: nat, s: Mesh)
    requires AllReadBack(p, fmt, ts) && cv <= 3
    ensures ts == [] ==> Scan(p, FacetsTokens(fmt, ts) + rest, t, cv, s) == Scan(p, rest, t, cv, s)
    ensures ts != [] ==> Scan(p, FacetsTokens(fmt, ts) + rest, t, cv, s) == Scan(p, rest, ts[|ts| - 1], 3, OfferAll(p, s, ts))
  {
    if ts == [] {
      assert FacetsTokens(fmt, ts) + rest == rest;
    } else {
      FacetsStepLast(p, fmt, ts, rest, t, cv, s);
    }
  }

  lemma {:induction false} FacetsStepLast(p: Platform, fmt: Bits32 -> string, ts: seq<Triangle>, rest: seq<string>, t: Triangle, cv: nat, s: Mesh)
    requires AllReadBack(p, fmt, ts) && cv <= 3 && ts != []
    ensures Scan(p, FacetsTokens(fmt, ts) + rest, t, cv, s) == Scan(p, rest, ts[|ts| - 1], 3, OfferAll(p, s, ts))
    decreases |ts|
  {
    var init, last := ts[..|ts| - 1], ts[|ts| - 1];
    FacetsTokensSplit(fmt, ts, rest);
    if init == [] {
      FacetStep(p, fmt, last, rest, t, cv, s);
    } else {
      FacetsStepLast(p, fmt, init, FacetTokens(fmt, last) + rest, t, cv, s);
      FacetStep(p, fmt, last, rest, init[|init| - 1], 3, OfferAll(p, s, init));
    }
  }

  /** The tokens of ts split before its last facet. */
  lemma FacetsTokensSplit(fmt: Bits32 -> string, ts: seq<Triangle>, rest: seq<string>)
    requires ts != []
    ensures FacetsTokens(fmt, ts) + rest == FacetsTokens(fmt, ts[..|ts| - 1]) + (FacetTokens(fmt, ts[|ts| - 1]) + rest)
    ensures ts[..|ts| - 1] == [] ==> FacetsTokens(fmt, ts) + rest == FacetTokens(fmt, ts[|ts| - 1]) + rest
  {
    var init := ts[..|ts| - 1];
    AppendAssoc(FacetsTokens(fmt, init), FacetTokens(fmt, ts[|ts| - 1]), rest);
    if init == [] {
      assert FacetsTokens(fmt, init) == [];
    }
  }

  lemma AppendAssoc<T>(a: seq<T>, b: seq<T>, c: seq<T>)
    ensures (a + b) + c == a + (b + c)
  {
  }

  /** Loading the ASCII text of ts keeps exactly the sane triangles of ts, in
      order, and takes the rest of the "solid" line as the comment. */
  lemma AsciiRoundTrip(p: Platform, fmt: Bits32 -> string, name: seq<Byte>, ts: seq<Triangle>, s: Mesh)
    requires AllReadBack(p, fmt, ts)
    ensures AsciiLoad(p, AsciiText("solid", name, FacetsTokens(fmt, ts) + ["endsolid"]), s).triangles
            == s.triangles + Kept(p, ts)
    ensures AsciiLoad(p, AsciiText("solid", name, FacetsTokens(fmt, ts) + ["endsolid"]), s).comment == name
  {
    var s1 := s.(comment := name);
    FacetsStep(p, fmt, ts, ["endsolid"], Fresh(p), 0, s1);
    OfferAllAppendsKept(p, s1, ts);
  }

  /** Loading stops at the first written facet whose normal does not read:
      the facets before it are kept as usual and nothing after it is read. */
  lemma UnreadableFacetEndsLoad(p: Platform, fmt: Bits32 -> string, name: seq<Byte>, before: seq<Triangle>,
                                f: Triangle, rest: seq<string>, s: Mesh)
    requires AllReadBack(p, fmt, before)
    requires p.parseFloat(fmt(f.normal.x)) == None || p.parseFloat(fmt(f.normal.y)) == None ||
             p.parseFloat(fmt(f.normal.z)) == None
    ensures AsciiLoad(p, AsciiText("solid", name, FacetsTokens(fmt, before) + (FacetTokens(fmt, f) + rest)), s).triangles
            == s.triangles + Kept(p, before)
  {
    var s1 := s.(comment := name);
    var tail := FacetTokens(fmt, f) + rest;
    FacetsStep(p, fmt, before, tail, Fresh(p), 0, s1);
    OfferAllAppendsKept(p, s1, before);
    if before == [] {
      UnreadableNormalStops(p, fmt, f, rest, Fresh(p), 0, s1);
    } else {
      UnreadableNormalStops(p, fmt, f, rest, before[|before| - 1], 3, OfferAll(p, s1, before));
    }
  }

  /** An unknown word between written facets stops nothing: the triangles
      before it and after it are all kept. */
  lemma UnknownBetweenFacets(p: Platform, fmt: Bits32 -> string, name: seq<Byte>, before: seq<Triangle>,
                             word: string, after: seq<Triangle>, s: Mesh)
    requires AllReadBack(p, fmt, before) && AllReadBack(p, fmt, after) && !IsKeyword(word)
    ensures AsciiLoad(p, AsciiText("solid", name, FacetsTokens(fmt, before) + ([word] + (FacetsTokens(fmt, after) + ["endsolid"]))), s).triangles
            == s.triangles + Kept(p, before) + Kept(p, after)
  {
    var s1 := s.(comment := name);
    var tail := FacetsTokens(fmt, after) + ["endsolid"];
    FacetsStep(p, fmt, before, [word] + tail, Fresh(p), 0, s1);
    OfferAllAppendsKept(p, s1, before);
    if before == [] {
      UnknownThenFacets(p, fmt, word, after, Fresh(p), 0, s1);
    } else {
      UnknownThenFacets(p, fmt, word, after, before[|before| - 1], 3, OfferAll(p, s1, before));
    }
  }

  lemma UnknownThenFacets(p: Platform, fmt: Bits32 -> string, word: string, after: seq<Triangle>, t: Triangle, cv: nat, m: Mesh)
    requires AllReadBack(p, fmt, after) && !IsKeyword(word) && cv <= 3
    ensures Scan(p, [word] + (FacetsTokens(fmt, after) + ["endsolid"]), t, cv, m).triangles == m.triangles + Kept(p, after)
  {
    var tail := FacetsTokens(fmt, after) + ["endsolid"];
    UnknownTokenSkipped(p, word, tail, t, cv, m);
    var m1 := m.(warnings := m.warnings + [UnknownToken(word)]);
    FacetsStep(p, fmt, after, ["endsolid"], t, cv, m1);
    OfferAllAppendsKept(p, m1, after);
  }

  /** The pending triangle is not reset between facets: a facet that gives
      only one vertex is offered with the other two vertices of the facet
      before it. */
  lemma StaleCornersCarryOver(p: Platform, fmt: Bits32 -> string, first: Triangle, n: Vec3, v: Vec3,
                              rest: seq<string>, t: Triangle, cv: nat, s: Mesh)
    requires TriReadsBack(p, fmt, first) && VecReadsBack(p, fmt, n) && VecReadsBack(p, fmt, v) && cv <= 3
    ensures var short := Triangle(n, v, first.v1, first.v2);
      Scan(p, FacetTokens(fmt, first) + (["facet", "normal"] + XyzTokens(fmt, n) + ["outer", "loop"] +
              (["vertex"] + XyzTokens(fmt, v) + (["endloop", "endfacet"] + rest))), t, cv, s)
      == Scan(p, rest, short, 1, Offer(p, Offer(p, s, first), short))
  {
    var r1 := ["endloop", "endfacet"] + rest;
    var r0 := ["vertex"] + XyzTokens(fmt, v) + r1;
    var s1 := Offer(p, s, first);
    FacetStep(p, fmt, first, ["facet", "normal"] + XyzTokens(fmt, n) + ["outer", "loop"] + r0, t, cv, s);
    HeadStep(p, fmt, n, r0, first, 3, s1);
    StepVertex(p, fmt, v, r1, first.(normal := n), 0, s1);
    assert first.(normal := n).WithVertex(0, v) == Triangle(n, v, first.v1, first.v2);
    TailStep(p, rest, Triangle(n, v, first.v1, first.v2), 1, s1);
  }
}

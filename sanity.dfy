/** The triangle filter: stl_loader::sane and stl_loader::push_triangle. */
module Sanity {
  import opened StlTypes

  /** The outcome of sane(v): the magnitude test is made first, then the NaN test. */
  datatype Verdict = Accepted | Huge | NotANumber

  /** sane(v) as a verdict: a vertex is kept unless it is huge or NaN; the
      magnitude test is made first. */
  function Judge(p: Platform, v: Vec3): (r: Verdict)
    ensures r == Accepted <==> !p.huge(v) && !p.notANumber(v)
    ensures r == Huge <==> p.huge(v)
  {
    if p.huge(v) then Huge
    else if p.notANumber(v) then NotANumber
    else Accepted
  }

  predicate IsSane(p: Platform, v: Vec3)
    ensures IsSane(p, v) <==> !p.huge(v) && !p.notANumber(v)
  {
    Judge(p, v) == Accepted
  }

  /** The acceptance test of push_triangle: all three vertices are sane. */
  predicate AllSane(p: Platform, t: Triangle)
    ensures AllSane(p, t) <==> forall i: nat | i < 3 :: IsSane(p, t.Vertex(i))
  {
    assert t.Vertex(0) == t.v0 && t.Vertex(1) == t.v1 && t.Vertex(2) == t.v2;
    IsSane(p, t.v0) && IsSane(p, t.v1) && IsSane(p, t.v2)
  }

  /** The diagnostic sane(v) writes for its verdict. */
  function Complaint(v: Vec3, r: Verdict): seq<Warning> {
    match r
    case Accepted => []
    case Huge => [HugeVertex(v)]
    case NotANumber => [NaNVertex(v)]
  }

  /** The three sane() calls of push_triangle, joined by a short-circuit &&:
      whether the triangle is kept, and the vertex diagnostics written. */
  function Screen(p: Platform, t: Triangle): (r: (bool, seq<Warning>))
    ensures r.0 <==> AllSane(p, t)
    ensures r.0 ==> r.1 == []
    ensures !r.0 ==> |r.1| == 1
  {
    var j0 := Judge(p, t.v0);
    if j0 != Accepted then (false, Complaint(t.v0, j0))
    else
      var j1 := Judge(p, t.v1);
      if j1 != Accepted then (false, Complaint(t.v1, j1))
      else
        var j2 := Judge(p, t.v2);
        (j2 == Accepted, Complaint(t.v2, j2))
  }

  /** push_triangle(t) applied to the loader state s. */
  function Offer(p: Platform, s: Mesh, t: Triangle): (r: Mesh)
    ensures r.triangles == s.triangles + (if AllSane(p, t) then [t] else [])
    ensures r.comment == s.comment
    ensures |s.warnings| <= |r.warnings| && r.warnings[..|s.warnings|] == s.warnings
  {
    var normalWarning := if p.normalOk(t.normal) then [] else [BadNormal(|s.triangles|)];
    var screened := Screen(p, t);
    Mesh(if screened.0 then s.triangles + [t] else s.triangles,
         s.comment,
         s.warnings + normalWarning + screened.1)
  }

  /** push_triangle applied to each candidate in turn. */
  function OfferAll(p: Platform, s: Mesh, ts: seq<Triangle>): (r: Mesh)
    ensures r.comment == s.comment
    ensures |s.triangles| <= |r.triangles| <= |s.triangles| + |ts|
    decreases |ts|
  {
    if ts == [] then s
    else Offer(p, OfferAll(p, s, ts[..|ts| - 1]), ts[|ts| - 1])
  }

  /** The candidates that pass the filter, in their original order. */
  function Kept(p: Platform, ts: seq<Triangle>): (r: seq<Triangle>)
    ensures |r| <= |ts|
    ensures forall t | t in r :: t in ts && AllSane(p, t)
    ensures forall t | t in ts && AllSane(p, t) :: t in r
    decreases |ts|
  {
    if ts == [] then []
    else
      var last := ts[|ts| - 1];
      Kept(p, ts[..|ts| - 1]) + (if AllSane(p, last) then [last] else [])
  }

  /** Offering a list of candidates appends exactly the sane ones, in order,
      after the triangles already there; the comment is untouched. */
  lemma {:induction false} OfferAllAppendsKept(p: Platform, s: Mesh, ts: seq<Triangle>)
    ensures OfferAll(p, s, ts).triangles == s.triangles + Kept(p, ts)
    ensures OfferAll(p, s, ts).comment == s.comment
    decreases |ts|
  {
    if ts != [] {
      OfferAllAppendsKept(p, s, ts[..|ts| - 1]);
    }
  }

  /** When every candidate is sane, all of them are kept. */
  lemma {:induction false} KeptAllSane(p: Platform, ts: seq<Triangle>)
    requires forall t | t in ts :: AllSane(p, t)
    ensures Kept(p, ts) == ts
    decreases |ts|
  {
    if ts != [] {
      KeptAllSane(p, ts[..|ts| - 1]);
      assert ts == ts[..|ts| - 1] + [ts[|ts| - 1]];
    }
  }

  /** Filtering a concatenation filters each part. */
  lemma {:induction false} KeptAppend(p: Platform, a: seq<Triangle>, b: seq<Triangle>)
    ensures Kept(p, a + b) == Kept(p, a) + Kept(p, b)
    decreases |b|
  {
    if b != [] {
      var ab := a + b;
      assert ab[..|ab| - 1] == a + b[..|b| - 1];
      assert ab[|ab| - 1] == b[|b| - 1];
      KeptAppend(p, a, b[..|b| - 1]);
      assert Kept(p, ab) == Kept(p, a + b[..|b| - 1]) + (if AllSane(p, b[|b| - 1]) then [b[|b| - 1]] else []);
    } else {
      assert a + b == a;
    }
  }

  /** The normal-length test only writes a diagnostic: which triangles are kept
      does not depend on it. */
  lemma NormalTestOnlyWarns(p: Platform, normalOk: Vec3 -> bool, s: Mesh, ts: seq<Triangle>)
    ensures OfferAll(p.(normalOk := normalOk), s, ts).triangles == OfferAll(p, s, ts).triangles
  {
    OfferAllAppendsKept(p, s, ts);
    OfferAllAppendsKept(p.(normalOk := normalOk), s, ts);
    KeptIgnoresNormalTest(p, normalOk, ts);
  }

  lemma {:induction false} KeptIgnoresNormalTest(p: Platform, normalOk: Vec3 -> bool, ts: seq<Triangle>)
    ensures Kept(p.(normalOk := normalOk), ts) == Kept(p, ts)
    decreases |ts|
  {
    if ts != [] {
      KeptIgnoresNormalTest(p, normalOk, ts[..|ts| - 1]);
    }
  }

  /** Offering keeps earlier triangles where they are, and adds only sane ones. */
  lemma OfferAllKeepsPrefixSane(p: Platform, s: Mesh, ts: seq<Triangle>)
    ensures var r := OfferAll(p, s, ts);
      |s.triangles| <= |r.triangles| <= |s.triangles| + |ts| &&
      r.triangles[..|s.triangles|] == s.triangles &&
      forall i | |s.triangles| <= i < |r.triangles| :: AllSane(p, r.triangles[i])
  {
    OfferAllAppendsKept(p, s, ts);
    var r := OfferAll(p, s, ts);
    forall i | |s.triangles| <= i < |r.triangles|
      ensures AllSane(p, r.triangles[i])
    {
      assert r.triangles[i] == Kept(p, ts)[i - |s.triangles|];
    }
  }
}

/** The values the STL loader works with: vectors, triangles, the loader's
    state, its diagnostics, and the platform facts the loader relies on but
    that are not part of this model. */
module StlTypes {
  import opened Bytes

  datatype Option<T> = None | Some(value: T)

  /** A vec3: three single-precision coordinates, each kept as its bit pattern. */
  datatype Vec3 = Vec3(x: Bits32, y: Bits32, z: Bits32)

  /** vec3(0.0): +0.0f has the all-zero bit pattern. */
  const Zero := Vec3(0, 0, 0)

  /** stl_triangle: a surface normal and three vertices (vtx[0], vtx[1], vtx[2]). */
  datatype Triangle = Triangle(normal: Vec3, v0: Vec3, v1: Vec3, v2: Vec3)
  {
    /** vtx[i] */
    function Vertex(i: nat): Vec3
      requires i < 3
    {
      if i == 0 then v0 else if i == 1 then v1 else v2
    }

    /** The triangle after the assignment vtx[i] = v. */
    function WithVertex(i: nat, v: Vec3): (r: Triangle)
      requires i < 3
      ensures r.normal == normal && r.Vertex(i) == v
      ensures forall j: nat | j < 3 && j != i :: r.Vertex(j) == Vertex(j)
    {
      if i == 0 then this.(v0 := v) else if i == 1 then this.(v1 := v) else this.(v2 := v)
    }
  }

  /** One diagnostic line the loader writes to the error stream. */
  datatype Warning =
    | BadNormal(facet: nat)         // push_triangle: normal length not below 1e5
    | HugeVertex(vertex: Vec3)      // sane: vertex length above 1e7
    | NaNVertex(vertex: Vec3)       // sane: vertex length is NaN
    | NonTriangle(facet: nat)       // read_ascii: a fourth vertex in one loop
    | UnknownToken(token: string)   // read_ascii: a token that is not a keyword

  /** An ASCII file as the text-mode stream of read_ascii sees it: the first
      whitespace-delimited token ("" when the file holds none), the rest of the
      line that token stands on, and the whitespace-delimited tokens after that line. */
  datatype AsciiText = AsciiText(first: string, restOfLine: seq<Byte>, body: seq<string>)

  /** What the loader relies on but does not itself define. */
  datatype Platform = Platform(
    huge: Vec3 -> bool,                    // length(v) > 1.0e7
    notANumber: Vec3 -> bool,              // length(v) != length(v)
    normalOk: Vec3 -> bool,                // length(n) < 1.0e5
    parseFloat: string -> Option<Bits32>,  // operator>> reading a float from one token
    blank: Triangle,                       // the vertices a freshly declared stl_triangle holds
    beyondEnd: nat -> Triangle,            // what read_binary's t holds when record i is not in the file
    textView: seq<Byte> -> AsciiText)      // the same file reopened in text mode and split into tokens

  /** The loader object: the triangle list it extends, its comment field, and
      the diagnostics written so far. */
  datatype Mesh = Mesh(triangles: seq<Triangle>, comment: seq<Byte>, warnings: seq<Warning>)
}

# STL loader model

A Dafny model of `stl_loader`, the class in `src/osl/stl.h` that reads a
stereolithography (STL) triangle-mesh file into a list of triangles. The file
can use either the 84-byte-header binary layout or the `solid ... endsolid`
ASCII layout. The model covers:

- format detection (`read`): the header read, the scan of up to 1000 bytes
  for binary bytes, and the `"solid"` test;
- binary decoding (`read_binary`): the 80-byte comment, the little-endian
  triangle count, and the 50-byte records;
- ASCII decoding (`read_ascii`, `read_xyz`): the token-driven facet loop, with
  its pending triangle `t` and vertex counter `cv`;
- the triangle filter (`push_triangle`, `sane`), together with the diagnostics
  the loader writes to `std::cerr`.

Layout of the project:

- `bytes.dfy` (module `Bytes`): bytes, and the 4-byte little-endian words the
  header count and the floats are stored as.
- `stl_types.dfy` (module `StlTypes`): `stl_triangle` as `Triangle`, and the
  diagnostics as `Warning`. It also defines `Platform`, which collects what
  the header leaves to code outside it: `length` and NaN (from `vec4.h`),
  `operator>>` float parsing, the text-mode view of the file, and the
  uninitialised contents of stack triangles.
- `sanity.dfy` (module `Sanity`): `sane` and `push_triangle` as functions on a
  loader state `Mesh`, with the list they keep (`Kept`).
- `detection.dfy` (module `Detection`): the decision made by `read`.
- `binary.dfy` (module `BinaryFormat`): the binary layout and `read_binary`,
  together with an encoder used to state round trips.
- `ascii.dfy` (module `AsciiFormat`): the facet loop as a function `Scan` over
  tokens, together with a writer of the ASCII layout used to state round
  trips.
- `loader.dfy` (module `Loader`): the class `StlLoader`. Its methods update
  `triangles`, `comment` and `warnings` in place, as the C++ methods do. Each
  method is proved equal to the functions above.

Floats are kept as their 32-bit patterns (`Bits32`). On the little-endian host
the header assumes (`src/osl/stl.h:19`, `:27`), reading a record copies its
bytes straight into the floats. Decoding a float is therefore assembling 4
bytes little-endian.

Four behaviours of the source that the model keeps as written:

- A file shorter than the 84-byte header leaves the loader unchanged. `read`
  returns as soon as the header read fails, before any format detection
  (`src/osl/stl.h:50-51`).
- A first ASCII token other than `solid` also leaves the loader unchanged.
  `read_ascii` returns without touching the triangle list or `comment`
  (`src/osl/stl.h:97`).
- The pending ASCII triangle `t` is declared once, before the facet loop
  (`src/osl/stl.h:99`), and `endfacet` does not reset it. Slots that a facet
  does not write keep the previous facet's values (`StaleCornersCarryOver`).
- The binary loop has no end-of-file check. It offers exactly `ntri`
  triangles to `push_triangle`, including reads past the end of the file
  (`src/osl/stl.h:79-83`).

The round trips through the ASCII layout print each float with some
formatting function `fmt`. They ask only that the numbers actually printed
read back through `operator>>` (`VecReadsBack`, `TriReadsBack`,
`AllReadBack`). A printed normal that does not read as a float at all fails
the stream, and the load ends there (`UnreadableFacetEndsLoad`).

## Model

| member | source | states |
|---|---|---|
| Bytes.Le32OfToLe32 | src/osl/stl.h:28-31 | writing a 32-bit value as 4 little-endian bytes and reading them back gives the value |
| Bytes.ToLe32OfLe32 | src/osl/stl.h:28-31 | any 4 bytes are the little-endian encoding of the value read from them, so decoding loses nothing |
| StlTypes.Triangle.WithVertex | src/osl/stl.h:20-25 | writing vertex slot `vtx[i]` sets that slot and leaves the normal and the other two slots unchanged |
| Sanity.Judge | src/osl/stl.h:137-148 | a vertex is accepted iff it is neither huge nor NaN; the magnitude test comes first, so the verdict is `Huge` exactly when the vertex is huge |
| Sanity.IsSane | src/osl/stl.h:137-148 | `sane(v)` holds iff v is neither huge nor NaN |
| Sanity.AllSane | src/osl/stl.h:132 | the acceptance test holds iff each of the three vertex slots `vtx[0..2]` is sane |
| Sanity.Screen | src/osl/stl.h:132 | the short-circuit `sane(v0) && sane(v1) && sane(v2)` accepts iff all three vertices are sane; an accepted triangle writes no vertex diagnostic and a rejected one writes exactly one |
| Sanity.Offer | src/osl/stl.h:128-134 | `push_triangle` appends `t` at the end iff all three vertices are sane; earlier triangles and the comment are unchanged and earlier diagnostics are kept |
| Sanity.OfferAll | src/osl/stl.h:79-83 | `push_triangle` called once per candidate keeps the comment and leaves between 0 and n more triangles for n candidates |
| Sanity.Kept | src/osl/stl.h:132-133 | the filtered list is no longer than its input; it holds exactly the sane candidates, in both directions of membership |
| Sanity.OfferAllAppendsKept | src/osl/stl.h:128-134 | offering candidates one by one appends exactly the sane ones, in order, after the triangles already held, and keeps the comment |
| Sanity.KeptAllSane | src/osl/stl.h:132-133 | when every candidate is sane, all are kept unchanged and in order |
| Sanity.KeptAppend | src/osl/stl.h:132-133 | filtering two runs of candidates filters each run separately |
| Sanity.NormalTestOnlyWarns | src/osl/stl.h:129-133 | the normal-length test only writes a diagnostic: with any other normal test the same triangles are kept |
| Sanity.KeptIgnoresNormalTest | src/osl/stl.h:129-133 | the filtered list does not depend on the normal-length test |
| Sanity.OfferAllKeepsPrefixSane | src/osl/stl.h:128-134 | offering n candidates keeps every earlier triangle in place, adds at most n, and adds only sane ones |
| Detection.IsBinaryByte | src/osl/stl.h:59-60 | a byte is not binary evidence iff it is tab, line feed, carriage return, or printable ASCII from space to `~` |
| Detection.HasBinaryEvidence | src/osl/stl.h:55-62 | binary evidence is some binary byte among the at most 1000 bytes after the header; a file of exactly 84 bytes has none |
| Detection.ScanEnd | src/osl/stl.h:56-58 | the scan reads from offset 84 to the end of the file, or to offset 1084 if that comes first |
| Detection.Detect | src/osl/stl.h:46-70 | a file under 84 bytes is too short; a file is read as ASCII iff it has a header, its first 5 comment bytes are `solid`, and no byte in the scan window is binary evidence; every other file is read as binary |
| Detection.Sniff | src/osl/stl.h:55-62 | the 1000-iteration loop of one-byte reads, where a failed read leaves `'a'`, reports binary content iff some byte in the scan window is a control character other than tab, line feed and carriage return, or is above `'~'` |
| Detection.DetectSeesOnlyPrefix | src/osl/stl.h:56-62 | bytes after offset 1084 never change the format decision |
| Detection.MisleadingSolidIsBinary | src/osl/stl.h:53-69 | a file whose comment starts with `solid` is still read as binary when a binary byte appears within the scan window |
| BinaryFormat.ParseHeader | src/osl/stl.h:28-31 | the header's comment is exactly 80 bytes long |
| BinaryFormat.HeaderRoundTrip | src/osl/stl.h:28-31 | a header read back from its 84 bytes is the comment and triangle count that were written |
| BinaryFormat.VecRoundTrip | src/osl/stl.h:19-22 | three floats read back from their 12 bytes are the floats written |
| BinaryFormat.DecodeVecInverse | src/osl/stl.h:22 | every 12 bytes are the encoding of the three floats read from them, so decoding loses nothing |
| BinaryFormat.DecodeRecordInverse | src/osl/stl.h:81-82 | every 48 bytes are the encoding of the `stl_triangle` read from them |
| BinaryFormat.RecordRoundTrip | src/osl/stl.h:19-25 | a triangle read back from its 48 bytes (normal, then three vertices) is the triangle written |
| BinaryFormat.CandidateLayout | src/osl/stl.h:81-82 | a candidate read from inside the file is exactly the triangle whose 48-byte encoding is stored at offset 84 + 50i |
| BinaryFormat.Candidates | src/osl/stl.h:78-83 | exactly `ntri` candidates are offered, and candidate i comes from record i |
| BinaryFormat.BinaryLoad | src/osl/stl.h:72-90 | `read_binary` sets `comment` to the 80 header bytes and appends the sane candidates, in file order, after the triangles already held |
| BinaryFormat.CompleteFileDecoded | src/osl/stl.h:79-83 | when the file holds 84 + 50·ntri bytes, candidate i is decoded from bytes [84+50i, 84+50i+48) |
| BinaryFormat.RecordByteNotAttribute | src/osl/stl.h:81-88 | no byte of a 48-byte record falls in an attribute slot |
| BinaryFormat.AttributeBytesIgnored | src/osl/stl.h:85-88 | two files that differ only in their attribute bytes load identically, so those bytes never size a read |
| BinaryFormat.EncodeBinaryCandidates | src/osl/stl.h:72-83 | a written binary file holding ts declares a count equal to the length of ts, and its candidates are exactly ts |
| BinaryFormat.BinaryRoundTrip | src/osl/stl.h:72-90 | loading a written binary file of ts appends exactly the sane triangles of ts, in order, and takes the comment verbatim |
| AsciiFormat.KeywordOf | src/osl/stl.h:104-116 | a token selects a keyword branch iff it is one of the eight keywords, compared exactly; `facet`, `vertex`, `endfacet` and `endsolid` select their own branches |
| AsciiFormat.KeywordOfExact | src/osl/stl.h:104-115 | each of the eight keywords selects its own branch, and no other token selects it |
| AsciiFormat.XyzAt | src/osl/stl.h:121-125 | `read_xyz` succeeds only when at least three tokens remain |
| AsciiFormat.XyzAtPrefix | src/osl/stl.h:121-125 | `read_xyz` depends on the next three tokens only |
| AsciiFormat.Fresh | src/osl/stl.h:24 | the pending triangle starts with the normal zeroed by the constructor, and with its vertex slots as the platform leaves them |
| AsciiFormat.Scan | src/osl/stl.h:101-117 | the facet loop never changes `comment` and never removes a triangle |
| AsciiFormat.AsciiLoad | src/osl/stl.h:93-118 | a first token other than `solid` leaves the loader unchanged; otherwise `comment` becomes the rest of that line and earlier triangles stay in place |
| AsciiFormat.ScanAppendsSane | src/osl/stl.h:99-117 | the facet loop keeps the comment and every earlier triangle, and appends only triangles with three sane vertices |
| AsciiFormat.ScanCountBound | src/osl/stl.h:99-117 | the loop appends at most one triangle per `endfacet` before the first `endsolid` |
| AsciiFormat.EndsolidStops | src/osl/stl.h:115 | `endsolid` ends the loop: nothing after it is read and the state is unchanged |
| AsciiFormat.UnknownTokenSkipped | src/osl/stl.h:116 | an unknown token adds one warning naming it, and the loop goes on with `t` and `cv` unchanged |
| AsciiFormat.ExtraVertexStep | src/osl/stl.h:107-111 | a `vertex` with `cv = 3` writes no slot, reads no numbers, and warns with the current triangle count |
| AsciiFormat.FourthVertexIgnored | src/osl/stl.h:107-116 | after a fourth `vertex`, its three numbers come round as three unknown-token warnings |
| AsciiFormat.XyzRoundTrip | src/osl/stl.h:121-125 | `read_xyz` reads back the printed vector iff each of its three printed numbers reads back |
| AsciiFormat.StepSkip | src/osl/stl.h:104-113 | `facet` (line 104) and `endloop` (line 113) change nothing |
| AsciiFormat.StepReset | src/osl/stl.h:106 | `outer` and `loop` reset `cv` to 0 and change nothing else |
| AsciiFormat.StepEndfacet | src/osl/stl.h:114 | `endfacet` offers the pending triangle once and keeps it pending |
| AsciiFormat.StepNormal | src/osl/stl.h:105 | `normal x y z` sets the normal of `t` to what `read_xyz` makes of the three numbers, and to n when they read back; it ends the loop when they do not read |
| AsciiFormat.StepVertex | src/osl/stl.h:107-109 | `vertex x y z` with `cv < 3` writes what `read_xyz` makes of the three numbers into slot `cv` and increments `cv`, or ends the loop when they do not read |
| AsciiFormat.HeadStep | src/osl/stl.h:104-106 | `facet normal n outer loop` with a normal whose numbers read back sets the normal to n and resets `cv` |
| AsciiFormat.CornersStep | src/osl/stl.h:107-109 | three vertices whose numbers read back fill the three slots in order, leaving `cv = 3` |
| AsciiFormat.TailStep | src/osl/stl.h:113-114 | `endloop endfacet` offers the pending triangle exactly once |
| AsciiFormat.FacetStep | src/osl/stl.h:101-114 | one written facet whose numbers read back overwrites the normal and all three slots, and offers that triangle once |
| AsciiFormat.UnreadableNormalStops | src/osl/stl.h:101-105 | a written facet whose normal does not read as floats ends the loop with the state unchanged |
| AsciiFormat.FacetsStep | src/osl/stl.h:101-117 | written facets whose numbers read back are offered in order, and the last one stays pending |
| AsciiFormat.FacetsStepLast | src/osl/stl.h:101-117 | for a non-empty list of written facets whose numbers read back, each is offered in order and the last stays pending with `cv = 3` |
| AsciiFormat.AsciiRoundTrip | src/osl/stl.h:93-118 | when the numbers printed for ts read back, loading the ASCII text of ts appends exactly the sane triangles of ts, in order, and takes the rest of the `solid` line as the comment |
| AsciiFormat.UnreadableFacetEndsLoad | src/osl/stl.h:93-118 | loading stops at the first written facet whose normal does not read: the sane facets before it are kept and nothing after it is read |
| AsciiFormat.UnknownBetweenFacets | src/osl/stl.h:101-117 | an unknown word between written facets whose numbers read back ends nothing: the sane triangles before it and after it are all kept |
| AsciiFormat.UnknownThenFacets | src/osl/stl.h:101-117 | after an unknown word, every sane triangle of the facets that follow is kept, when their numbers read back |
| AsciiFormat.StaleCornersCarryOver | src/osl/stl.h:99-114 | the pending triangle is not reset: with numbers that read back, a facet that gives one vertex is offered with the other two vertices of the facet before it |
| Loader.Load | src/osl/stl.h:46-70 | a file under 84 bytes leaves the loader unchanged; a file read as binary sets `comment` to its first 80 bytes |
| Loader.LoadAppendsSane | src/osl/stl.h:45-70 | `read` adds to the list it already has: earlier triangles stay in place, and every added triangle is sane |
| Loader.BinaryFileRoundTrip | src/osl/stl.h:46-90 | a written binary file whose comment does not start with `solid` loads exactly its sane triangles, in order, with its 80-byte comment |
| Loader.LayoutsAgree | src/osl/stl.h:46-118 | the same triangles written in either layout load as the same list, when the numbers printed in the ASCII layout read back |
| Loader.StlLoader.constructor | src/osl/stl.h:41-43 | a new loader starts empty and then reads the file |
| Loader.StlLoader.Read | src/osl/stl.h:46-70 | the new state is `Load` of the old state and the file's bytes |
| Loader.StlLoader.ReadBinary | src/osl/stl.h:72-90 | the loop of `ntri` reads, each followed by `push_triangle`, ends in `BinaryLoad` of the old state |
| Loader.StlLoader.ReadRecord | src/osl/stl.h:79-82 | a record present in the file is decoded from its 48 bytes; a read past the end gives the unspecified past-the-end triangle |
| Loader.StlLoader.ReadAscii | src/osl/stl.h:93-118 | the token loop over `t` and `cv` ends in `AsciiLoad` of the old state |
| Loader.StlLoader.ReadXyz | src/osl/stl.h:121-125 | succeeds iff three tokens remain and each parses as a float, and then returns those three floats |
| Loader.StlLoader.PushTriangle | src/osl/stl.h:128-134 | the new state is `Offer` of the old state and t |
| Loader.StlLoader.Sane | src/osl/stl.h:137-148 | returns whether the vertex is sane, and appends exactly the diagnostic for its verdict, changing nothing else |

## Left out

- `stl_volume` (`src/osl/stl.h:154-182`) is not modelled. It is a double-precision sum whose claims are floating-point numerics.
- `src/volume.cpp` is not modelled. It is a command-line driver with `printf` output.
- Opening files is not modelled: `std::ifstream`, reopening in text mode, and `getline`. The input is the file's bytes, and a file that cannot be opened reads as no bytes.
- Splitting the text into tokens, and the rest of the first line, are the platform's `textView` of the bytes. They are not derived from the bytes.
- The values of floats are not modelled: IEEE-754 arithmetic, `length`, NaN and the `1.0e5` and `1.0e7` bounds. They are the platform predicates `normalOk`, `huge` and `notANumber`. `vec4.h` is not part of this model.
- `operator>>` float parsing is not modelled. It is the platform's `parseFloat`, which maps a whole token to a float or to a failure. A token that is only partly a number is not modelled.
- Stack memory is not modelled. Uninitialised vertex slots of the first ASCII pending triangle are the platform's `blank`. A triangle offered past the end of a binary file is the platform's `beyondEnd(i)`.
- A failed `read_xyz` is not modelled in full. It sets a stream failure, after which the next token read fails and the loop ends. The model ends the loop at once. The assignment the C++ still makes to `t` is not modelled, because `t` is never offered after that point.
- Warnings record what was reported, not the text printed or the file name.
- A last binary record that is only partly inside the file is not modelled. `bfile.read` copies the bytes that remain into `t`, so that triangle depends on the file. The model gives the platform's `beyondEnd(i)` for it, which depends only on i. No property here depends on that triangle.
- Loader.StlLoader.ReadBinary: requires at least 84 bytes. It is only called after `read` has checked this; the C++ would otherwise copy a partly uninitialised header.
- AsciiFormat.ScanCountBound: requires that the token `endsolid` does not parse as a float. Otherwise `read_xyz` could consume it.

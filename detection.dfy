/** Format detection: the header read and the 1000-byte scan of stl_loader::read. */
module Detection {
  import opened Bytes

  /** sizeof(stl_file_header): an 80-byte comment and a 4-byte triangle count. */
  const HeaderSize := 84
  /** The number of single-byte reads made after the header. */
  const ScanLimit := 1000
  /** The ASCII letters "solid". */
  const SolidTag: seq<Byte> := [0x73, 0x6F, 0x6C, 0x69, 0x64]

  /** A byte that counts as evidence of binary content: a control character
      other than tab, line feed and carriage return, or anything above '~'. */
  predicate IsBinaryByte(c: Byte)
    ensures !IsBinaryByte(c) <==> c == 0x09 || c == 0x0A || c == 0x0D || 0x20 <= c <= 0x7E
  {
    (c < 0x20 && c != 0x0A && c != 0x0D && c != 0x09) || c > 0x7E
  }

  /** One past the last byte the scan reads: reads past the end of the file
      fail and leave the byte at 'a', which is not binary evidence. */
  function ScanEnd(bytes: seq<Byte>): (e: nat)
    requires |bytes| >= HeaderSize
    ensures HeaderSize <= e <= |bytes| && e <= HeaderSize + ScanLimit
    ensures e == |bytes| || e == HeaderSize + ScanLimit
  {
    if |bytes| < HeaderSize + ScanLimit then |bytes| else HeaderSize + ScanLimit
  }

  /** Some byte among the first 1000 after the header is binary evidence. */
  predicate HasBinaryEvidence(bytes: seq<Byte>)
    requires |bytes| >= HeaderSize
    ensures HasBinaryEvidence(bytes) <==>
              exists k | HeaderSize <= k < |bytes| && k < HeaderSize + ScanLimit :: IsBinaryByte(bytes[k])
    ensures |bytes| == HeaderSize ==> !HasBinaryEvidence(bytes)
  {
    exists k | HeaderSize <= k < ScanEnd(bytes) :: IsBinaryByte(bytes[k])
  }

  /** Where read sends a file. */
  datatype Format = TooShort | Ascii | Binary

  /** The decision of read: too short for a header, ASCII when no binary
      byte was seen and the comment starts with "solid", binary otherwise. */
  function Detect(bytes: seq<Byte>): (f: Format)
    ensures f == TooShort <==> |bytes| < HeaderSize
    ensures f == Ascii <==> |bytes| >= HeaderSize && bytes[..5] == SolidTag &&
                            forall k | HeaderSize <= k < ScanEnd(bytes) :: !IsBinaryByte(bytes[k])
  {
    if |bytes| < HeaderSize then TooShort
    else if !HasBinaryEvidence(bytes) && bytes[..5] == SolidTag then Ascii
    else Binary
  }

  /** The scan loop of read: up to 1000 one-byte reads after the header. */
  method Sniff(bytes: seq<Byte>) returns (hasBinary: bool)
    requires |bytes| >= HeaderSize
    ensures hasBinary <==> HasBinaryEvidence(bytes)
  {
    hasBinary := false;
    var pos := HeaderSize;
    for i := 0 to ScanLimit
      invariant pos == if |bytes| < HeaderSize + i then |bytes| else HeaderSize + i
      invariant hasBinary <==> exists k | HeaderSize <= k < pos :: IsBinaryByte(bytes[k])
    {
      var c: Byte := 0x61;  // 'a', left in place when the read fails
      if pos < |bytes| {
        c := bytes[pos];
        pos := pos + 1;
      }
      if c < 0x20 && c != 0x0A && c != 0x0D && c != 0x09 {
        hasBinary := true;
      } else if c > 0x7E {
        hasBinary := true;
      }
    }
  }

  /** Only the first 1084 bytes of a file decide its format. */
  lemma DetectSeesOnlyPrefix(bytes: seq<Byte>, tail: seq<Byte>)
    requires |bytes| >= HeaderSize + ScanLimit
    ensures Detect(bytes + tail) == Detect(bytes)
  {
    assert (bytes + tail)[..5] == bytes[..5];
    assert forall k | HeaderSize <= k < ScanEnd(bytes) :: (bytes + tail)[k] == bytes[k];
  }

  /** A binary file whose comment starts with "solid" is still read as binary
      when a binary byte follows within the scan window. */
  lemma MisleadingSolidIsBinary(bytes: seq<Byte>, k: nat)
    requires HeaderSize <= k < |bytes| && k < HeaderSize + ScanLimit
    requires IsBinaryByte(bytes[k])
    ensures Detect(bytes) == Binary
  {
  }
}

/**
  Container sniffing for CK3 saves: the save-id line, the binary sniff, the
  zip signature that separates the header from the compressed gamestate, and
  the encoding each part is classified as. The deserializers and the zip
  archive reader are libraries outside this model; they enter as parameters.
*/
module Extraction {
  import opened Wrappers
  import opened Numbers
  import opened Errors
  import opened Bytes

  /** How far past the save-id line a header is searched for the zip signature. */
  const HEADER_LEN_UPPER_BOUND: nat := 0x10000

  /** Zip entries that declare more uncompressed bytes than this are refused (200 MiB). */
  const MAX_ENTRY_SIZE: nat := 1024 * 1024 * 200

  /** The local file header signature "PK\x03\x04" that starts the embedded zip. */
  const ZIP_SIGNATURE: seq<byte> := [0x50, 0x4B, 0x03, 0x04]

  /** The format of a save before decoding. */
  datatype Encoding =
    | Text        // a save-id line and plaintext, uncompressed
    | TextZip     // a save-id line, a plaintext header, a zip with a plaintext gamestate
    | BinaryZip   // a save-id line, a binary header, a zip with a binary gamestate
    | Binary      // a save-id line and an uncompressed binary gamestate

  /** Where an extracted zip entry is held: in memory, or in an anonymous memory map. */
  datatype ExtractionMode = InMemory | MmapTemporaries

  /** Drops the save-id line: everything up to and including the first newline, or nothing when there is none. */
  function SkipSavePrefix(data: seq<byte>): (r: seq<byte>)
    ensures |r| <= |data| && r == data[|data| - |r|..]
    ensures NEWLINE !in data ==> r == data
    ensures NEWLINE in data ==>
      var k := |data| - |r|; 1 <= k && data[k - 1] == NEWLINE && NEWLINE !in data[..k - 1]
  {
    match Position(data, NEWLINE)
    case None => data
    case Some(i) => data[i + 1..]
  }

  /** The example from the unit test: "abc\n123" loses its first line. */
  lemma SkipSavePrefixExample()
    ensures SkipSavePrefix([0x61, 0x62, 0x63, 0x0A, 0x31, 0x32, 0x33]) == [0x31, 0x32, 0x33]
  {
    var data: seq<byte> := [0x61, 0x62, 0x63, 0x0A, 0x31, 0x32, 0x33];
    assert NEWLINE in data && data[3] == NEWLINE;
    assert NEWLINE !in data[..3];
  }

  /** A binary save has the binary equals token 01 00 as its third and fourth bytes. */
  function SniffIsBinary(data: seq<byte>): (r: bool)
    ensures r <==> |data| >= 4 && data[2] == 0x01 && data[3] == 0x00
  {
    |data| >= 4 && data[2..4] == [0x01, 0x00]
  }

  /** Where the embedded zip starts: the first occurrence of the signature. */
  function ZipIndex(data: seq<byte>): (r: Option<nat>)
    ensures r.Some? ==> r.value + 4 <= |data| && data[r.value..r.value + 4] == ZIP_SIGNATURE
    ensures r.Some? ==> forall j :: 0 <= j < r.value ==> !OccursAt(data, ZIP_SIGNATURE, j)
    ensures r.None? <==> forall j :: !OccursAt(data, ZIP_SIGNATURE, j)
  {
    Find(data, ZIP_SIGNATURE)
  }

  /** Splits a save into the header before the zip and the zip itself. */
  function SplitOnZip(data: seq<byte>): (r: (seq<byte>, seq<byte>))
    ensures r.0 + r.1 == data
    ensures r.1 == [] <==> ZipIndex(data).None?
    ensures r.1 != [] ==> |r.1| >= 4 && r.1[..4] == ZIP_SIGNATURE
    ensures forall j :: !OccursAt(r.0, ZIP_SIGNATURE, j)
  {
    match ZipIndex(data)
    case None => (data, [])
    case Some(i) =>
      assert forall j :: !OccursAt(data[..i], ZIP_SIGNATURE, j) by {
        forall j ensures !OccursAt(data[..i], ZIP_SIGNATURE, j) {
          if 0 <= j && j + 4 <= i {
            PrefixOccurrence(data, ZIP_SIGNATURE, i, j);
          }
        }
      }
      assert data[..i] + data[i..] == data;
      (data[..i], data[i..])
  }

  /** The bytes header extraction looks at: at most 0x10000 bytes after the save-id line. */
  function HeaderWindow(data: seq<byte>): (w: seq<byte>)
    ensures |w| <= HEADER_LEN_UPPER_BOUND
    ensures w <= SkipSavePrefix(data)
    ensures |w| < HEADER_LEN_UPPER_BOUND ==> w == SkipSavePrefix(data)
  {
    var rest := SkipSavePrefix(data);
    rest[..if |rest| < HEADER_LEN_UPPER_BOUND then |rest| else HEADER_LEN_UPPER_BOUND]
  }

  /**
    Reads the header of a save. `binary` and `text` stand for the binary and
    text deserializers. The header part is the window up to the zip signature;
    binary headers are Binary when nothing follows them in the window and
    BinaryZip otherwise, every other header is TextZip.
  */
  function ExtractHeaderAs<T(!new)>(data: seq<byte>, binary: seq<byte> -> Result<T, Ck3Error>,
                                    text: seq<byte> -> Result<T, Ck3Error>): (r: Result<(T, Encoding), Ck3Error>)
    ensures var parts := SplitOnZip(HeaderWindow(data));
      var header, rest := parts.0, parts.1;
      var parsed := if SniffIsBinary(header) then binary(header) else text(header);
      && (r.Ok? <==> parsed.Ok?)
      && (r.Ok? ==> r.value.0 == parsed.value)
      && (r.Failure? ==> r.error == parsed.error)
      && (r.Ok? ==> (r.value.1 == Binary <==> SniffIsBinary(header) && rest == []))
      && (r.Ok? ==> (r.value.1 == BinaryZip <==> SniffIsBinary(header) && rest != []))
      && (r.Ok? ==> (r.value.1 == TextZip <==> !SniffIsBinary(header)))
  {
    var parts := SplitOnZip(HeaderWindow(data));
    if SniffIsBinary(parts.0) then
      match binary(parts.0)
      case Failure(e) => Failure(e)
      case Ok(res) => if parts.1 == [] then Ok((res, Binary)) else Ok((res, BinaryZip))
    else
      match text(parts.0)
      case Failure(e) => Failure(e)
      case Ok(res) => Ok((res, TextZip))
  }

  /** The save-id line ends at the same place in any prefix long enough to hold it. */
  lemma SkipSavePrefixOfPrefix(data: seq<byte>, n: nat)
    requires n <= |data|
    requires Position(data, NEWLINE).Some? ==> Position(data, NEWLINE).value < n
    requires Position(data, NEWLINE).None? ==> n == |data|
    ensures SkipSavePrefix(data[..n]) == SkipSavePrefix(data)[..n - (|data| - |SkipSavePrefix(data)|)]
  {
    FindPrefix(data, [NEWLINE], n);
    match Position(data, NEWLINE)
    case None =>
      assert data[..n] == data;
    case Some(i) =>
      assert data[..n][i + 1..] == data[i + 1..][..n - (i + 1)];
  }

  /**
    Header extraction reads no byte beyond the first 0x10000 after the
    save-id line: cutting the save anywhere past that point gives the same
    result.
  */
  lemma {:induction false} ExtractHeaderReadsWindow<T(!new)>(data: seq<byte>, n: nat,
      binary: seq<byte> -> Result<T, Ck3Error>, text: seq<byte> -> Result<T, Ck3Error>)
    requires |data| - |SkipSavePrefix(data)| + HEADER_LEN_UPPER_BOUND <= n <= |data|
    ensures ExtractHeaderAs(data[..n], binary, text) == ExtractHeaderAs(data, binary, text)
  {
    if NEWLINE in data {
      SkipSavePrefixOfPrefix(data, n);
    } else {
      assert NEWLINE !in data[..n] by {
        forall i | 0 <= i < n ensures data[..n][i] != NEWLINE {
          assert data[..n][i] == data[i];
        }
      }
    }
    assert HeaderWindow(data[..n]) == HeaderWindow(data);
  }

  /** What a zip entry yields when read to its end: all of its bytes, or the bytes before a failure. */
  datatype EntryRead = Complete(bytes: seq<byte>) | Broken(readBefore: seq<byte>)

  /** A zip entry as the archive describes it: the size it declares and what reading it gives. */
  datatype ZipEntry = ZipEntry(declaredSize: nat, read: EntryRead)

  /**
    The outcome of decoding the entry `name` of a zip: a missing entry, an
    oversized entry, a failed read, or the deserialized entry classified as
    BinaryZip or TextZip by its binary sniff.
  */
  function ExtractEntry<T(!new)>(zip: map<string, ZipEntry>, name: string,
                                 binary: seq<byte> -> Result<T, Ck3Error>,
                                 text: seq<byte> -> Result<T, Ck3Error>): (r: Result<(T, Encoding), Ck3Error>)
  {
    if name !in zip then Failure(ZipMissingEntry(name))
    else if zip[name].declaredSize > MAX_ENTRY_SIZE then Failure(ZipSize(name))
    else match zip[name].read
      case Broken(_) => Failure(ZipExtraction(name))
      case Complete(bytes) =>
        if SniffIsBinary(bytes) then
          match binary(bytes)
          case Failure(_) => Failure(Deserialize(Some(name)))
          case Ok(res) => Ok((res, BinaryZip))
        else
          match text(bytes)
          case Failure(e) => Failure(e)
          case Ok(res) => Ok((res, TextZip))
  }

  /** The bytes left in the scratch buffer after `ExtractEntry`. */
  function BufferAfter(zip: map<string, ZipEntry>, name: string): seq<byte>
  {
    if name !in zip || zip[name].declaredSize > MAX_ENTRY_SIZE then []
    else match zip[name].read
      case Broken(before) => before
      case Complete(bytes) => bytes
  }

  /** The entry size guard: an entry declaring more than 200 MiB is refused before anything is read. */
  lemma ZipSizeGuard<T(!new)>(zip: map<string, ZipEntry>, name: string,
                              binary: seq<byte> -> Result<T, Ck3Error>, text: seq<byte> -> Result<T, Ck3Error>)
    requires name in zip && zip[name].declaredSize > MAX_ENTRY_SIZE
    ensures ExtractEntry(zip, name, binary, text) == Failure(ZipSize(name))
    ensures BufferAfter(zip, name) == []
  {
  }

  /** A decoded entry is BinaryZip exactly when its bytes sniff as binary, and TextZip otherwise. */
  lemma ExtractEntryEncoding<T(!new)>(zip: map<string, ZipEntry>, name: string,
                                      binary: seq<byte> -> Result<T, Ck3Error>, text: seq<byte> -> Result<T, Ck3Error>)
    requires ExtractEntry(zip, name, binary, text).Ok?
    ensures name in zip && zip[name].declaredSize <= MAX_ENTRY_SIZE && zip[name].read.Complete?
    ensures var e := ExtractEntry(zip, name, binary, text).value.1;
      e == (if SniffIsBinary(zip[name].read.bytes) then BinaryZip else TextZip)
  {
  }

  /** Decodes the entry `name` through the lent buffer, which ends up holding what was read. */
  method MeltInMemory<T(!new)>(buffer: ByteBuffer, name: string, zip: map<string, ZipEntry>,
                               binary: seq<byte> -> Result<T, Ck3Error>, text: seq<byte> -> Result<T, Ck3Error>)
    returns (r: Result<(T, Encoding), Ck3Error>)
    modifies buffer
    ensures r == ExtractEntry(zip, name, binary, text)
    ensures buffer.bytes == BufferAfter(zip, name)
  {
    buffer.Clear();
    if name !in zip {
      return Failure(ZipMissingEntry(name));
    }
    var entry := zip[name];
    if entry.declaredSize > MAX_ENTRY_SIZE {
      return Failure(ZipSize(name));
    }
    match entry.read {
      case Broken(before) =>
        buffer.Extend(before);
        return Failure(ZipExtraction(name));
      case Complete(contents) =>
        buffer.Extend(contents);
        assert buffer.bytes == contents;
    }
    if SniffIsBinary(buffer.bytes) {
      var res := binary(buffer.bytes);
      if res.Failure? {
        return Failure(Deserialize(Some(name)));
      }
      return Ok((res.value, BinaryZip));
    } else {
      var res := text(buffer.bytes);
      if res.Failure? {
        return Failure(res.error);
      }
      return Ok((res.value, TextZip));
    }
  }
}

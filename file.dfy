/**
  Opening a save held in memory: the save header, then either a zip archive
  (whose entries must include the gamestate), a binary body or a text body;
  the encoding reported for each, and melting, which copies text through.
*/
module File {
  import opened Wrappers
  import opened Numbers
  import opened Errors
  import opened Bytes
  import Extraction

  // ---------------------------------------------------------------------
  // The save header

  /** What a header says about the body: plaintext, binary, or neither. */
  datatype SaveHeaderKind = Text | Binary | Other

  /** A parsed save header: its kind and how many bytes it occupies. */
  datatype SaveHeader = SaveHeader(kind: SaveHeaderKind, headerLen: nat)

  /** The fixed size of a save header; an inlined metadata section starts right after it. */
  const SAVE_HEADER_SIZE: nat := 24

  /** How far from the end of the data the zip locator searches for the end of central directory. */
  const ZIP_SEARCH_SPACE: nat := 64 * 1024

  // ---------------------------------------------------------------------
  // Zip archives

  /** An opaque handle with which the archive finds an entry again. */
  type Wayfinder = nat

  datatype ZipEntryInfo = ZipEntryInfo(path: string, localHeaderOffset: nat, wayfinder: Wayfinder)

  /**
    A located archive: the offset of its central directory, the entries the
    directory lists, whether listing fails after them, and what reading an
    entry gives.
  */
  datatype Archive = Archive(
    directoryOffset: nat,
    entries: seq<ZipEntryInfo>,
    listingFails: bool,
    read: Wayfinder -> Result<seq<byte>, Ck3Error>)

  /** Where the metadata lives: inlined in the byte range [start, end) of the file, or in a zip entry. */
  datatype MetaKind = Inlined(start: nat, end: nat) | ZipMeta(meta: Wayfinder)

  datatype Ck3Zip = Ck3Zip(archive: Archive, metadata: MetaKind, gamestate: Wayfinder, header: SaveHeader)

  const GAMESTATE_PATH: string := "gamestate"
  const META_PATH: string := "meta"

  /** The smallest of `offset` and the local header offsets of `entries`: where the zipped data begins. */
  function LowestOffset(offset: nat, entries: seq<ZipEntryInfo>): (r: nat)
    ensures r <= offset && forall i :: 0 <= i < |entries| ==> r <= entries[i].localHeaderOffset
    ensures r == offset || exists i :: 0 <= i < |entries| && r == entries[i].localHeaderOffset
    decreases |entries|
  {
    if entries == [] then offset
    else
      var m := LowestOffset(offset, entries[..|entries| - 1]);
      var last := entries[|entries| - 1].localHeaderOffset;
      if last < m then last else m
  }

  /** The wayfinder of the last entry named `path`, as repeated assignments in a scan leave it. */
  function LastNamed(entries: seq<ZipEntryInfo>, path: string): (r: Option<Wayfinder>)
    ensures r.None? <==> forall i :: 0 <= i < |entries| ==> entries[i].path != path
    ensures r.Some? ==> exists i :: 0 <= i < |entries| && entries[i].path == path && entries[i].wayfinder == r.value &&
                          forall j :: i < j < |entries| ==> entries[j].path != path
    decreases |entries|
  {
    if entries == [] then None
    else
      var last := entries[|entries| - 1];
      if last.path == path then Some(last.wayfinder)
      else
        var r := LastNamed(entries[..|entries| - 1], path);
        assert r.Some? ==> exists i :: 0 <= i < |entries| - 1 && entries[i].path == path && entries[i].wayfinder == r.value &&
                             forall j :: i < j < |entries| ==> entries[j].path != path;
        r
  }

  /**
    The zip view of a save: the gamestate entry is required; the metadata is
    the meta entry when there is one, and otherwise the bytes between the
    header and the first zipped byte.
  */
  function ZipOf(archive: Archive, header: SaveHeader): Result<Ck3Zip, Ck3Error>
  {
    if archive.listingFails then Failure(ZipArchive)
    else
      match (LastNamed(archive.entries, GAMESTATE_PATH), LastNamed(archive.entries, META_PATH))
      case (Some(gamestate), Some(meta)) => Ok(Ck3Zip(archive, ZipMeta(meta), gamestate, header))
      case (Some(gamestate), None) =>
        Ok(Ck3Zip(archive, Inlined(SAVE_HEADER_SIZE, LowestOffset(archive.directoryOffset, archive.entries)), gamestate, header))
      case _ => Failure(ZipMissingEntry(GAMESTATE_PATH))
  }

  /** Scans the central directory for the gamestate and meta entries and the lowest offset. */
  method TryFromArchive(archive: Archive, header: SaveHeader) returns (r: Result<Ck3Zip, Ck3Error>)
    ensures r == ZipOf(archive, header)
  {
    var offset := archive.directoryOffset;
    var gamestate: Option<Wayfinder> := None;
    var metadata: Option<Wayfinder> := None;
    var i := 0;
    while i < |archive.entries|
      invariant 0 <= i <= |archive.entries|
      invariant offset == LowestOffset(archive.directoryOffset, archive.entries[..i])
      invariant gamestate == LastNamed(archive.entries[..i], GAMESTATE_PATH)
      invariant metadata == LastNamed(archive.entries[..i], META_PATH)
    {
      var entry := archive.entries[i];
      assert archive.entries[..i + 1][..i] == archive.entries[..i];
      if entry.localHeaderOffset < offset {
        offset := entry.localHeaderOffset;
      }
      if entry.path == GAMESTATE_PATH {
        gamestate := Some(entry.wayfinder);
      } else if entry.path == META_PATH {
        metadata := Some(entry.wayfinder);
      }
      i := i + 1;
    }
    assert archive.entries[..i] == archive.entries;
    if archive.listingFails {
      return Failure(ZipArchive);
    }
    match (gamestate, metadata) {
      case (Some(g), Some(m)) =>
        r := Ok(Ck3Zip(archive, ZipMeta(m), g, header));
      case (Some(g), None) =>
        r := Ok(Ck3Zip(archive, Inlined(SAVE_HEADER_SIZE, offset), g, header));
      case _ =>
        r := Failure(ZipMissingEntry(GAMESTATE_PATH));
    }
  }

  /** Without an entry named gamestate the archive is refused. */
  lemma ZipNeedsGamestate(archive: Archive, header: SaveHeader)
    requires !archive.listingFails
    ensures ZipOf(archive, header).Failure? <==>
      forall i :: 0 <= i < |archive.entries| ==> archive.entries[i].path != GAMESTATE_PATH
    ensures ZipOf(archive, header).Failure? ==> ZipOf(archive, header).error == ZipMissingEntry(GAMESTATE_PATH)
  {
  }

  /** With gamestate and meta entries, both are taken from the directory; other entries play no part. */
  lemma ZipWithMeta(archive: Archive, header: SaveHeader)
    requires !archive.listingFails
    requires exists i :: 0 <= i < |archive.entries| && archive.entries[i].path == GAMESTATE_PATH
    requires exists i :: 0 <= i < |archive.entries| && archive.entries[i].path == META_PATH
    ensures var r := ZipOf(archive, header);
      && r.Ok? && r.value.metadata.ZipMeta?
      && (exists i :: 0 <= i < |archive.entries| && archive.entries[i].path == META_PATH &&
                      archive.entries[i].wayfinder == r.value.metadata.meta)
      && (exists i :: 0 <= i < |archive.entries| && archive.entries[i].path == GAMESTATE_PATH &&
                      archive.entries[i].wayfinder == r.value.gamestate)
  {
    var g := LastNamed(archive.entries, GAMESTATE_PATH);
    var m := LastNamed(archive.entries, META_PATH);
    assert g.Some? && m.Some?;
  }

  /**
    With a gamestate entry but no meta entry, the metadata is inlined from
    the end of the header to the lowest of the directory offset and the
    entries' local header offsets.
  */
  lemma ZipInlinedMeta(archive: Archive, header: SaveHeader)
    requires !archive.listingFails
    requires exists i :: 0 <= i < |archive.entries| && archive.entries[i].path == GAMESTATE_PATH
    requires forall i :: 0 <= i < |archive.entries| ==> archive.entries[i].path != META_PATH
    ensures var r := ZipOf(archive, header);
      && r.Ok? && r.value.metadata.Inlined? && r.value.metadata.start == SAVE_HEADER_SIZE
      && r.value.metadata.end <= archive.directoryOffset
      && (forall i :: 0 <= i < |archive.entries| ==> r.value.metadata.end <= archive.entries[i].localHeaderOffset)
      && (r.value.metadata.end == archive.directoryOffset ||
          exists i :: 0 <= i < |archive.entries| && r.value.metadata.end == archive.entries[i].localHeaderOffset)
  {
    assert LastNamed(archive.entries, GAMESTATE_PATH).Some?;
  }

  // ---------------------------------------------------------------------
  // Opening a save

  /** The body after the header: a zip, binary data or text. */
  datatype FileKind = TextBody(text: seq<byte>) | BinaryBody(binary: seq<byte>) | Zip(zip: Ck3Zip)

  datatype Ck3File = Ck3File(header: SaveHeader, kind: FileKind)

  /**
    The collaborators of opening a save that are not modelled: the header
    parser, and the zip locator, which searches the given number of bytes
    from the end for an archive.
  */
  datatype Opener = Opener(
    readHeader: seq<byte> -> Result<SaveHeader, Ck3Error>,
    locate: (seq<byte>, nat) -> Option<Archive>)

  /** A header parser never claims more bytes than it was given. */
  predicate HeaderFits(op: Opener, data: seq<byte>)
  {
    op.readHeader(data).Ok? ==> op.readHeader(data).value.headerLen <= |data|
  }

  /**
    Opens a save held in memory: a located zip becomes the zip view; without
    one, the body after the header is binary or text as the header says.
  */
  function FromSlice(op: Opener, data: seq<byte>): Result<Ck3File, Ck3Error>
    requires HeaderFits(op, data)
  {
    match op.readHeader(data)
    case Failure(e) => Failure(e)
    case Ok(header) =>
      var body := data[header.headerLen..];
      match op.locate(body, ZIP_SEARCH_SPACE)
      case Some(archive) =>
        (match ZipOf(archive, header)
         case Failure(e) => Failure(e)
         case Ok(zip) => Ok(Ck3File(header, Zip(zip))))
      case None =>
        if header.kind == Binary then Ok(Ck3File(header, BinaryBody(body)))
        else Ok(Ck3File(header, TextBody(body)))
  }

  /** The encoding a file reports: one of the four for every file. */
  function EncodingOf(f: Ck3File): (e: Extraction.Encoding)
    ensures e == Extraction.Text <==> f.kind.TextBody?
    ensures e == Extraction.Binary <==> f.kind.BinaryBody?
    ensures e == Extraction.TextZip <==> f.kind.Zip? && f.header.kind == Text
    ensures e == Extraction.BinaryZip <==> f.kind.Zip? && f.header.kind != Text
  {
    match f.kind
    case TextBody(_) => Extraction.Text
    case BinaryBody(_) => Extraction.Binary
    case Zip(_) => if f.header.kind == Text then Extraction.TextZip else Extraction.BinaryZip
  }

  /**
    What opening reports: without a located zip, Binary exactly when the
    header says binary and Text otherwise, over the bytes after the header;
    with one, TextZip or BinaryZip as the header says.
  */
  lemma FromSliceEncoding(op: Opener, data: seq<byte>)
    requires HeaderFits(op, data) && FromSlice(op, data).Ok?
    ensures var header := op.readHeader(data).value;
      var f := FromSlice(op, data).value;
      && f.header == header
      && (op.locate(data[header.headerLen..], ZIP_SEARCH_SPACE).None? ==>
            (EncodingOf(f) == Extraction.Binary <==> header.kind == Binary)
            && (EncodingOf(f) == Extraction.Text <==> header.kind != Binary)
            && (f.kind.BinaryBody? ==> f.kind.binary == data[header.headerLen..])
            && (f.kind.TextBody? ==> f.kind.text == data[header.headerLen..]))
      && (op.locate(data[header.headerLen..], ZIP_SEARCH_SPACE).Some? ==>
            (EncodingOf(f) == Extraction.TextZip <==> header.kind == Text)
            && (EncodingOf(f) == Extraction.BinaryZip <==> header.kind != Text))
  {
  }

  /** Opening fails only where the header parser or the zip view does. */
  lemma FromSliceErrors(op: Opener, data: seq<byte>)
    requires HeaderFits(op, data) && FromSlice(op, data).Failure?
    ensures var e := FromSlice(op, data).error;
      || op.readHeader(data) == Failure(e)
      || (op.readHeader(data).Ok? && e in {ZipArchive, ZipMissingEntry(GAMESTATE_PATH)})
  {
  }

  // ---------------------------------------------------------------------
  // Melting a file

  /** What melting reports besides the text: the ids the resolver did not know. */
  datatype MeltedDocument = MeltedDocument(unknownTokens: set<u16>)

  /**
    The collaborators of melting a file that are not modelled: writing a
    header, and melting a binary body with its header.
  */
  datatype MeltEnv = MeltEnv(
    writeHeader: SaveHeader -> seq<byte>,
    meltBinary: (seq<byte>, SaveHeader) -> Result<(seq<byte>, MeltedDocument), Ck3Error>)

  /** The text written for plaintext input: the header marked as text, then the body unchanged. */
  function TextCopy(env: MeltEnv, header: SaveHeader, body: seq<byte>): (out: seq<byte>)
    ensures |body| <= |out| && out[|out| - |body|..] == body
  {
    env.writeHeader(header.(kind := Text)) + body
  }

  /**
    Melting a file: text bodies, and zipped gamestates under a text header,
    are copied through after the header; the rest is melted.
  */
  function MeltOf(env: MeltEnv, f: Ck3File): Result<(seq<byte>, MeltedDocument), Ck3Error>
  {
    match f.kind
    case TextBody(text) => Ok((TextCopy(env, f.header, text), MeltedDocument({})))
    case BinaryBody(binary) => env.meltBinary(binary, f.header)
    case Zip(zip) =>
      match zip.archive.read(zip.gamestate)
      case Failure(e) => Failure(e)
      case Ok(gamestate) =>
        if zip.header.kind == Text then Ok((TextCopy(env, zip.header, gamestate), MeltedDocument({})))
        else env.meltBinary(gamestate, zip.header)
  }

  /** Writes the header marked as text, then `body`. */
  method WriteTextCopy(env: MeltEnv, header: SaveHeader, body: seq<byte>, output: ByteBuffer)
    returns (doc: MeltedDocument)
    modifies output
    ensures output.bytes == old(output.bytes) + TextCopy(env, header, body)
    ensures doc.unknownTokens == {}
  {
    var newHeader := header.(kind := Text);
    output.Extend(env.writeHeader(newHeader));
    output.Extend(body);
    return MeltedDocument({});
  }

  /** Melts `f` onto the end of `output`; on failure the output is left as it was. */
  method Melt(env: MeltEnv, f: Ck3File, output: ByteBuffer) returns (r: Result<MeltedDocument, Ck3Error>)
    modifies output
    ensures var m := MeltOf(env, f);
      && (r.Failure? <==> m.Failure?)
      && (r.Failure? ==> r.error == m.error && output.bytes == old(output.bytes))
      && (r.Ok? ==> r.value == m.value.1 && output.bytes == old(output.bytes) + m.value.0)
  {
    match f.kind {
      case TextBody(text) =>
        var doc := WriteTextCopy(env, f.header, text, output);
        return Ok(doc);
      case BinaryBody(binary) =>
        var melted := env.meltBinary(binary, f.header);
        if melted.Failure? {
          return Failure(melted.error);
        }
        output.Extend(melted.value.0);
        return Ok(melted.value.1);
      case Zip(zip) =>
        var read := zip.archive.read(zip.gamestate);
        if read.Failure? {
          return Failure(read.error);
        }
        if zip.header.kind == Text {
          var doc := WriteTextCopy(env, zip.header, read.value, output);
          return Ok(doc);
        }
        var melted := env.meltBinary(read.value, zip.header);
        if melted.Failure? {
          return Failure(melted.error);
        }
        output.Extend(melted.value.0);
        return Ok(melted.value.1);
    }
  }

  /**
    Melting a save whose encoding is Text or TextZip copies the body through
    after the header, marked as text, and reports no unknown ids.
  */
  lemma MeltTextIsCopy(env: MeltEnv, f: Ck3File)
    requires EncodingOf(f) == Extraction.Text || EncodingOf(f) == Extraction.TextZip
    requires f.kind.Zip? ==> f.kind.zip.header == f.header && f.kind.zip.archive.read(f.kind.zip.gamestate).Ok?
    ensures var m := MeltOf(env, f);
      var body := if f.kind.TextBody? then f.kind.text else f.kind.zip.archive.read(f.kind.zip.gamestate).value;
      && m.Ok? && m.value.1.unknownTokens == {}
      && m.value.0 == env.writeHeader(f.header.(kind := Text)) + body
  {
  }

  /** A file opened from a slice carries the same header in its zip view. */
  lemma FromSliceZipHeader(op: Opener, data: seq<byte>)
    requires HeaderFits(op, data) && FromSlice(op, data).Ok? && FromSlice(op, data).value.kind.Zip?
    ensures FromSlice(op, data).value.kind.zip.header == FromSlice(op, data).value.header
  {
  }
}

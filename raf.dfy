/** The archive index `RAF.parse` (RADS/parsers.py:371-416) and the payload
    read of `RAF.extract` (RADS/parsers.py:418-427).

    Layout, all integers little-endian u32:
      0   magic F0 0E BE 18
      4   version (4 bytes, rendered by parse_version)
      8   manager index
      12  files offset, 16 paths offset (read and unused)
      20  number of entries, then 16 bytes per entry:
          path hash, data offset, data size, path index
      E   paths size (unused), number of paths, then 8 bytes per path:
          offset, length
      B   the path strings, up to the end of the file */
module Raf {
  import opened Failures
  import opened Bytes
  import opened Version
  import opened PathHash

  const MAGIC: seq<byte> := [0xF0, 0x0E, 0xBE, 0x18]
  const HEADER_SIZE: nat := 24
  const ENTRY_SIZE: nat := 16
  const PATH_SIZE: nat := 8
  /** `paths_size` and `paths_nb`, the two u32 fields before the path pairs. */
  const PATHS_HEADER_SIZE: nat := 8

  /** A `RAFFile` as read from its row, before its path is resolved. */
  datatype EntryRecord = EntryRecord(pathHash: nat, dataOffset: nat, dataSize: nat, pathIndex: nat)

  /** One `(path_offset, path_len)` pair of the path list. */
  datatype PathRecord = PathRecord(offset: nat, length: nat)

  /** A `RAFFile` once `parse` has set its `path`. */
  datatype RafFile = RafFile(pathHash: nat, dataOffset: nat, dataSize: nat, pathIndex: nat, path: string)

  /** A parsed archive: `file_path`, `version`, `manager_index`, `files`. */
  datatype Archive = Archive(location: string, version: string, managerIndex: nat, files: seq<RafFile>)

  // ---------------------------------------------------------------------------
  // The layout, as functions of the file content

  function EntryAt(data: seq<byte>, pos: nat): (e: EntryRecord)
    requires pos + ENTRY_SIZE <= |data|
    ensures e.pathHash < TWO_32 && e.pathIndex < TWO_32
  {
    EntryRecord(U32At(data, pos), U32At(data, pos + 4), U32At(data, pos + 8), U32At(data, pos + 12))
  }

  function EntriesAt(data: seq<byte>, pos: nat, n: nat): (es: seq<EntryRecord>)
    requires pos + 16 * n <= |data|
    ensures |es| == n
  {
    seq(n, i requires 0 <= i < n => EntryAt(data, pos + 16 * i))
  }

  lemma EntryHashAt(data: seq<byte>, pos: nat, n: nat, i: nat)
    requires pos + 16 * n <= |data| && i < n
    ensures EntriesAt(data, pos, n)[i].pathHash == U32At(data, pos + 16 * i)
  {
  }

  function PathRecordAt(data: seq<byte>, pos: nat): PathRecord
    requires pos + PATH_SIZE <= |data|
  {
    PathRecord(U32At(data, pos), U32At(data, pos + 4))
  }

  function PathRecordsAt(data: seq<byte>, pos: nat, n: nat): (ps: seq<PathRecord>)
    requires pos + 8 * n <= |data|
    ensures |ps| == n
  {
    seq(n, i requires 0 <= i < n => PathRecordAt(data, pos + 8 * i))
  }

  // ---------------------------------------------------------------------------
  // Path resolution (lines 407-416)

  /** The bytes an entry's path occupies: `path_strings[start:start + len]`
      with `start = offset - 8 - 8 * paths_nb`, a Python slice, so a negative
      `start` counts from the end of the blob. */
  function PathBytes(paths: seq<PathRecord>, blob: seq<byte>, index: nat): (b: seq<byte>)
    requires index < |paths|
    ensures var start := paths[index].offset - PATHS_HEADER_SIZE - PATH_SIZE * |paths|;
            |b| <= |blob| &&
            (0 <= start && start + paths[index].length <= |blob| ==> b == blob[start..start + paths[index].length])
  {
    var start := paths[index].offset - PATHS_HEADER_SIZE - PATH_SIZE * |paths|;
    PySlice(blob, start, start + paths[index].length)
  }

  /** Line 412: one trailing 0 byte is dropped. */
  function StripNul(b: seq<byte>): (r: seq<byte>)
    requires |b| > 0
    ensures r == b || (r + [0] == b)
  {
    if b[|b| - 1] == 0 then b[..|b| - 1] else b
  }

  /** Lines 408-416 for one entry: look up its pair (`IndexError` past the
      list), slice the blob, `path[-1]` (`IndexError` on an empty slice),
      strip a NUL, decode as ASCII, and compare `hash_path` with the stored
      hash. */
  function ResolveEntry(paths: seq<PathRecord>, blob: seq<byte>, e: EntryRecord): (r: Result<RafFile>)
    ensures r.Ok? ==> r.value == RafFile(e.pathHash, e.dataOffset, e.dataSize, e.pathIndex, r.value.path)
    ensures r.Err? ==> r.error == IndexOutOfRange || r.error == NotAscii || r.error == HashMismatch
  {
    if e.pathIndex >= |paths| then Err(IndexOutOfRange)
    else
      var b := PathBytes(paths, blob, e.pathIndex);
      if b == [] then Err(IndexOutOfRange)
      else match AsciiDecode(StripNul(b))
        case None => Err(NotAscii)
        case Some(path) =>
          if HashPath(path) != e.pathHash then Err(HashMismatch)
          else Ok(RafFile(e.pathHash, e.dataOffset, e.dataSize, e.pathIndex, path))
  }

  /** An entry resolves exactly when its pair exists, its slice is not
      empty, the slice without its trailing NUL is ASCII, and that text
      hashes to the stored hash; the text is then the entry's path. */
  lemma {:induction false} ResolveEntryMeaning(paths: seq<PathRecord>, blob: seq<byte>, e: EntryRecord, path: string)
    ensures ResolveEntry(paths, blob, e).Ok? && ResolveEntry(paths, blob, e).value.path == path <==>
            e.pathIndex < |paths| && PathBytes(paths, blob, e.pathIndex) != [] &&
            AsciiDecode(StripNul(PathBytes(paths, blob, e.pathIndex))) == Some(path) &&
            HashPath(path) == e.pathHash
  {
  }

  /** The outcome of resolving each entry, in entry order. */
  function EntryResults(paths: seq<PathRecord>, blob: seq<byte>, entries: seq<EntryRecord>): seq<Result<RafFile>>
  {
    seq(|entries|, i requires 0 <= i < |entries| => ResolveEntry(paths, blob, entries[i]))
  }

  /** Every entry resolved in entry order; the first entry that fails aborts
      the whole decode with its error, and nothing of the others is kept. */
  function ResolveAll(paths: seq<PathRecord>, blob: seq<byte>, entries: seq<EntryRecord>): (r: Result<seq<RafFile>>)
    ensures r.Ok? ==> |r.value| == |entries| &&
                      forall i :: 0 <= i < |entries| ==>
                        ResolveEntry(paths, blob, entries[i]).Ok? &&
                        r.value[i] == ResolveEntry(paths, blob, entries[i]).value
    ensures r.Err? ==> r.error == IndexOutOfRange || r.error == NotAscii || r.error == HashMismatch
  {
    var rs := EntryResults(paths, blob, entries);
    assert forall i :: 0 <= i < |entries| ==> rs[i] == ResolveEntry(paths, blob, entries[i]);
    if Collect(rs).Err? then
      CollectFirstError(rs);
      Collect(rs)
    else
      Collect(rs)
  }

  /** The resolution succeeds exactly when every entry resolves. */
  lemma ResolveAllSucceeds(paths: seq<PathRecord>, blob: seq<byte>, entries: seq<EntryRecord>)
    ensures ResolveAll(paths, blob, entries).Ok? <==>
            forall i :: 0 <= i < |entries| ==> ResolveEntry(paths, blob, entries[i]).Ok?
  {
    var rs := EntryResults(paths, blob, entries);
    assert forall i :: 0 <= i < |entries| ==> rs[i] == ResolveEntry(paths, blob, entries[i]);
    CollectSucceeds(rs);
  }

  /** A rejected archive reports the error of its first entry that does
      not resolve; every entry before it resolved. */
  lemma ResolveAllFirstError(paths: seq<PathRecord>, blob: seq<byte>, entries: seq<EntryRecord>)
    requires ResolveAll(paths, blob, entries).Err?
    ensures exists i :: 0 <= i < |entries| && ResolveEntry(paths, blob, entries[i]).Err? &&
                        ResolveAll(paths, blob, entries).error == ResolveEntry(paths, blob, entries[i]).error &&
                        forall j :: 0 <= j < i ==> ResolveEntry(paths, blob, entries[j]).Ok?
  {
    var rs := EntryResults(paths, blob, entries);
    assert forall i :: 0 <= i < |entries| ==> rs[i] == ResolveEntry(paths, blob, entries[i]);
    CollectFirstError(rs);
  }

  // ---------------------------------------------------------------------------
  // The whole decode

  /** What `RAF(location)` leaves in its attributes, or the exception its
      `parse` raises. */
  function DecodeRaf(location: string, data: seq<byte>): (r: Result<Archive>)
    ensures r == Err(BadMagic) <==> |data| < 4 || data[..4] != MAGIC
    ensures r.Ok? ==> |data| >= HEADER_SIZE && |r.value.files| == U32At(data, 20)
    ensures r.Ok? ==> r.value.location == location && r.value.version == ParseVersion(data[4..8]) &&
                      r.value.managerIndex == U32At(data, 8)
  {
    if |data| < 4 || data[..4] != MAGIC then Err(BadMagic)
    else if |data| < HEADER_SIZE then Err(Truncated)
    else
      var nf := U32At(data, 20);
      var epos := HEADER_SIZE + 16 * nf;
      if epos > |data| then Err(Truncated)
      else match FilesAfterEntries(data, epos, EntriesAt(data, HEADER_SIZE, nf))
        case Err(e) => Err(e)
        case Ok(files) => Ok(Archive(location, ParseVersion(data[4..8]), U32At(data, 8), files))
  }

  /** Lines 397-403: the unused paths size, the path count and that many
      (offset, length) pairs. */
  function PathListAt(data: seq<byte>, epos: nat): (r: Result<seq<PathRecord>>)
    requires epos <= |data|
    ensures r.Ok? ==> epos + 8 + 8 * |r.value| <= |data| && |r.value| == U32At(data, epos + 4)
    ensures r.Err? ==> r.error == Truncated
  {
    if epos + 8 > |data| then Err(Truncated)
    else
      var np := U32At(data, epos + 4);
      if epos + 8 + 8 * np > |data| then Err(Truncated)
      else Ok(PathRecordsAt(data, epos + 8, np))
  }

  /** Lines 397-416, from the path list at `epos` on: read the pairs, take
      the rest of the file as the path strings, and resolve every entry. */
  function FilesAfterEntries(data: seq<byte>, epos: nat, entries: seq<EntryRecord>): (r: Result<seq<RafFile>>)
    requires epos <= |data|
    ensures r.Err? ==> r.error != BadMagic
    ensures r.Ok? ==> |r.value| == |entries|
  {
    match PathListAt(data, epos)
    case Err(e) => Err(e)
    case Ok(paths) => ResolveAll(paths, data[epos + 8 + 8 * |paths|..], entries)
  }

  /** Lines 380-386: version, manager index, the two unused offsets and the
      entry count. */
  method ReadHeader(rd: Reader) returns (r: Result<(string, nat, nat)>)
    requires rd.Valid() && rd.pos == 4
    modifies rd
    ensures rd.Valid()
    ensures |rd.data| >= HEADER_SIZE ==>
      r == Ok((ParseVersion(rd.data[4..8]), U32At(rd.data, 8), U32At(rd.data, 20))) && rd.pos == HEADER_SIZE
    ensures |rd.data| < HEADER_SIZE ==> r == Err(Truncated)
  {
    var v := rd.Read4();
    if v.Err? { return Err(Truncated); }
    var manager := rd.ReadU32();
    if manager.Err? { return Err(Truncated); }
    var filesOffset := rd.ReadU32();
    if filesOffset.Err? { return Err(Truncated); }
    var pathsOffset := rd.ReadU32();
    if pathsOffset.Err? { return Err(Truncated); }
    var nf := rd.ReadU32();
    if nf.Err? { return Err(Truncated); }
    r := Ok((ParseVersion(v.value), manager.value, nf.value));
  }

  /** Lines 390-393: one entry row. */
  method ReadEntry(rd: Reader) returns (r: Result<EntryRecord>)
    requires rd.Valid()
    modifies rd
    ensures rd.Valid()
    ensures old(rd.pos) + ENTRY_SIZE <= |rd.data| ==> r == Ok(EntryAt(rd.data, old(rd.pos))) && rd.pos == old(rd.pos) + ENTRY_SIZE
    ensures old(rd.pos) + ENTRY_SIZE > |rd.data| ==> r == Err(Truncated)
  {
    var hash := rd.ReadU32();
    if hash.Err? { return Err(Truncated); }
    var offset := rd.ReadU32();
    if offset.Err? { return Err(Truncated); }
    var size := rd.ReadU32();
    if size.Err? { return Err(Truncated); }
    var index := rd.ReadU32();
    if index.Err? { return Err(Truncated); }
    r := Ok(EntryRecord(hash.value, offset.value, size.value, index.value));
  }

  /** Lines 387-394: `n` entry rows appended one by one. */
  method ReadEntries(rd: Reader, n: nat) returns (r: Result<seq<EntryRecord>>)
    requires rd.Valid()
    modifies rd
    ensures rd.Valid()
    ensures old(rd.pos) + 16 * n <= |rd.data| ==>
      r == Ok(EntriesAt(rd.data, old(rd.pos), n)) && rd.pos == old(rd.pos) + 16 * n
    ensures old(rd.pos) + 16 * n > |rd.data| ==> r == Err(Truncated)
  {
    var start := rd.pos;
    var entries: seq<EntryRecord> := [];
    var i := 0;
    while i < n
      invariant rd.Valid()
      invariant i <= n && rd.pos == start + 16 * i
      invariant |entries| == i
      invariant forall j :: 0 <= j < i ==> entries[j] == EntryAt(rd.data, start + 16 * j)
    {
      var e := ReadEntry(rd);
      if e.Err? { return Err(Truncated); }
      entries := entries + [e.value];
      i := i + 1;
    }
    assert entries == EntriesAt(rd.data, start, n);
    r := Ok(entries);
  }

  /** Lines 399-403: `n` (offset, length) pairs appended one by one. */
  method ReadPathRecords(rd: Reader, n: nat) returns (r: Result<seq<PathRecord>>)
    requires rd.Valid()
    modifies rd
    ensures rd.Valid()
    ensures old(rd.pos) + 8 * n <= |rd.data| ==>
      r == Ok(PathRecordsAt(rd.data, old(rd.pos), n)) && rd.pos == old(rd.pos) + 8 * n
    ensures old(rd.pos) + 8 * n > |rd.data| ==> r == Err(Truncated)
  {
    var start := rd.pos;
    var paths: seq<PathRecord> := [];
    var i := 0;
    while i < n
      invariant rd.Valid()
      invariant i <= n && rd.pos == start + 8 * i
      invariant |paths| == i
      invariant forall j :: 0 <= j < i ==> paths[j] == PathRecordAt(rd.data, start + 8 * j)
    {
      var offset := rd.ReadU32();
      if offset.Err? { return Err(Truncated); }
      var length := rd.ReadU32();
      if length.Err? { return Err(Truncated); }
      paths := paths + [PathRecord(offset.value, length.value)];
      i := i + 1;
    }
    assert paths == PathRecordsAt(rd.data, start, n);
    r := Ok(paths);
  }

  /** Lines 407-416 as the loop the source runs: resolve and check each entry
      in turn, stopping at the first failure. */
  method ResolvePaths(paths: seq<PathRecord>, blob: seq<byte>, entries: seq<EntryRecord>) returns (r: Result<seq<RafFile>>)
    ensures r == ResolveAll(paths, blob, entries)
  {
    ghost var rs := EntryResults(paths, blob, entries);
    var files: seq<RafFile> := [];
    var i := 0;
    assert rs[..0] == [];
    while i < |entries|
      invariant i <= |entries|
      invariant Collect(rs[..i]) == Ok(files)
    {
      var f := ResolveEntry(paths, blob, entries[i]);
      assert f == rs[i];
      if f.Err? {
        CollectFails(rs, i, files);
        return Err(f.error);
      }
      CollectSnoc(rs, i, files);
      files := files + [f.value];
      i := i + 1;
    }
    assert rs[..i] == rs;
    r := Ok(files);
  }

  /** `RAF.parse` on the content `data` of the file at `location`. */
  method ParseRaf(location: string, data: seq<byte>) returns (r: Result<Archive>)
    ensures r == DecodeRaf(location, data)
  {
    hide FilesAfterEntries, EntriesAt;
    var rd := new Reader(data);
    var magic := rd.Read(4);
    if magic != MAGIC {
      assert |data| < 4 || data[..4] != MAGIC;
      return Err(BadMagic);
    }
    assert |data| >= 4 && data[..4] == MAGIC;
    var header := ReadHeader(rd);
    if header.Err? { return Err(Truncated); }
    var (version, manager, nf) := header.value;
    var entries := ReadEntries(rd, nf);
    if entries.Err? {
      assert HEADER_SIZE + 16 * nf > |data|;
      return Err(Truncated);
    }
    var files := ReadFilesAfterEntries(rd, entries.value);
    if files.Err? { return Err(files.error); }
    r := Ok(Archive(location, version, manager, files.value));
  }

  /** Lines 397-403: the path list, read pair by pair. */
  method ReadPathList(rd: Reader) returns (r: Result<seq<PathRecord>>)
    requires rd.Valid()
    modifies rd
    ensures rd.Valid() && r == PathListAt(rd.data, old(rd.pos))
    ensures r.Ok? ==> rd.pos == old(rd.pos) + 8 + 8 * |r.value|
  {
    var pathsSize := rd.ReadU32();
    if pathsSize.Err? { return Err(Truncated); }
    var np := rd.ReadU32();
    if np.Err? { return Err(Truncated); }
    r := ReadPathRecords(rd, np.value);
  }

  /** Lines 397-416: the path list, the string blob, and the resolution of
      every entry. */
  method ReadFilesAfterEntries(rd: Reader, entries: seq<EntryRecord>) returns (r: Result<seq<RafFile>>)
    requires rd.Valid()
    modifies rd
    ensures r == FilesAfterEntries(rd.data, old(rd.pos), entries)
  {
    hide ResolveAll;
    var paths := ReadPathList(rd);
    if paths.Err? { return Err(paths.error); }
    var blob := rd.ReadRest();
    r := ResolvePaths(paths.value, blob, entries);
  }

  // ---------------------------------------------------------------------------
  // What an accepted archive guarantees

  /** Where an accepted archive's files come from: the entry rows fit, and
      the files are what the rest of the file resolves them to. */
  lemma DecodedFiles(location: string, data: seq<byte>)
    requires DecodeRaf(location, data).Ok?
    ensures HEADER_SIZE + 16 * U32At(data, 20) <= |data|
    ensures FilesAfterEntries(data, HEADER_SIZE + 16 * U32At(data, 20), EntriesAt(data, HEADER_SIZE, U32At(data, 20)))
            == Ok(DecodeRaf(location, data).value.files)
  {
  }

  /** Each resolved file has the hash of its entry, and that hash is the
      `hash_path` of its path. */
  lemma {:induction false} ResolvedHashes(paths: seq<PathRecord>, blob: seq<byte>, es: seq<EntryRecord>, i: nat)
    requires ResolveAll(paths, blob, es).Ok? && i < |es|
    ensures var f := ResolveAll(paths, blob, es).value[i];
            f.pathHash == es[i].pathHash && HashPath(f.path) == es[i].pathHash
  {
    var f := ResolveAll(paths, blob, es).value[i];
    assert f == ResolveEntry(paths, blob, es[i]).value;
    ResolveEntryMeaning(paths, blob, es[i], f.path);
  }

  lemma {:induction false} FilesAfterEntriesHashes(data: seq<byte>, epos: nat, es: seq<EntryRecord>, i: nat)
    requires epos <= |data| && FilesAfterEntries(data, epos, es).Ok? && i < |es|
    ensures var f := FilesAfterEntries(data, epos, es).value[i];
            f.pathHash == es[i].pathHash && HashPath(f.path) == es[i].pathHash
  {
    var paths := PathListAt(data, epos).value;
    ResolvedHashes(paths, data[epos + 8 + 8 * |paths|..], es, i);
  }

  /** Every entry of an accepted archive carries a path whose `hash_path` is
      the stored hash, and its other fields are the ones in its row. */
  lemma {:induction false} AcceptedPathsHash(location: string, data: seq<byte>, i: nat)
    requires DecodeRaf(location, data).Ok? && i < |DecodeRaf(location, data).value.files|
    ensures var f := DecodeRaf(location, data).value.files[i];
            HashPath(f.path) == f.pathHash && f.pathHash < TWO_32 &&
            f.pathHash == U32At(data, HEADER_SIZE + 16 * i)
  {
    hide DecodeRaf, FilesAfterEntries, EntriesAt;
    DecodedFiles(location, data);
    var nf := U32At(data, 20);
    var es := EntriesAt(data, HEADER_SIZE, nf);
    var files := DecodeRaf(location, data).value.files;
    var rest := FilesAfterEntries(data, HEADER_SIZE + 16 * nf, es);
    assert rest.value == files;
    FilesAfterEntriesHashes(data, HEADER_SIZE + 16 * nf, es, i);
    assert HashPath(rest.value[i].path) == es[i].pathHash;
    EntryHashAt(data, HEADER_SIZE, nf, i);
  }

  /** Since the stored hash is a u32, an accepted path's hash never carried
      past bit 31: it equals the 32-bit hash and lies below 2^28. */
  lemma {:induction false} AcceptedHashIs32Bit(location: string, data: seq<byte>, i: nat)
    requires DecodeRaf(location, data).Ok? && i < |DecodeRaf(location, data).value.files|
    ensures var f := DecodeRaf(location, data).value.files[i];
            Hash32(f.path) == f.pathHash && f.pathHash < TWO_28
  {
    AcceptedPathsHash(location, data, i);
    HashAgreesWith32(DecodeRaf(location, data).value.files[i].path);
  }

  /** A path whose hash carries past bit 31, such as "9iiiifiz", is rejected
      whatever hash is stored for it: the archive never decodes. */
  lemma {:induction false} WidePathRejected(paths: seq<PathRecord>, blob: seq<byte>, e: EntryRecord)
    requires e.pathHash < TWO_32
    requires e.pathIndex < |paths| && PathBytes(paths, blob, e.pathIndex) != []
    requires AsciiDecode(StripNul(PathBytes(paths, blob, e.pathIndex))) == Some("9iiiifiz")
    ensures ResolveEntry(paths, blob, e) == Err(HashMismatch)
  {
    HashOutgrows32Bits("9iiiifiz");
  }

  // ---------------------------------------------------------------------------
  // `RAF.extract` (lines 418-427)

  /** `next(x for x in self.files if x.path == src)`: the first entry with
      that path, or `StopIteration`. */
  function FirstWithPath(files: seq<RafFile>, src: string): (r: Option<nat>)
    ensures r.Some? ==> r.value < |files| && files[r.value].path == src &&
                        forall j :: 0 <= j < r.value ==> files[j].path != src
    ensures r.None? ==> forall j :: 0 <= j < |files| ==> files[j].path != src
  {
    if files == [] then None
    else if files[0].path == src then Some(0)
    else match FirstWithPath(files[1..], src)
      case None => None
      case Some(j) => Some(j + 1)
  }

  /** What `extract` writes: the bytes read from the `.dat` file, and whether
      they are then passed through `zlib.decompress`. */
  datatype Payload = Payload(bytes: seq<byte>, inflate: bool)

  /** `fp1.seek(off); fp1.read(size)` on the `.dat` content: a seek past the
      end reads nothing, a read past the end stops there. */
  function ReadAt(dat: seq<byte>, offset: nat, size: nat): (b: seq<byte>)
    ensures |b| <= size
    ensures offset + size <= |dat| ==> b == dat[offset..offset + size]
    ensures offset >= |dat| ==> b == []
  {
    dat[Min(offset, |dat|)..Min(offset + size, |dat|)]
  }

  /** `RAF.extract(src, dest, decompress)` with the file system as a map from
      path to content: the entry is looked up first, then `file_path + '.dat'`
      is opened. The payload is returned with a flag for `zlib.decompress`;
      its `zlib.error` and the `OSError` of writing `dest` are not modelled. */
  function Extract(archive: Archive, disk: map<string, seq<byte>>, src: string, decompress: bool): (r: Result<Payload>)
    ensures r.Err? ==> r.error in {NotFound, NoSuchFile}
    ensures r == Err(NotFound) <==> forall j :: 0 <= j < |archive.files| ==> archive.files[j].path != src
    ensures r == Err(NoSuchFile) <==>
              (exists j :: 0 <= j < |archive.files| && archive.files[j].path == src) && archive.location + ".dat" !in disk
    ensures r.Ok? ==> archive.location + ".dat" in disk &&
                      exists j :: 0 <= j < |archive.files| && archive.files[j].path == src &&
                        (forall i :: 0 <= i < j ==> archive.files[i].path != src) &&
                        r.value.bytes == ReadAt(disk[archive.location + ".dat"], archive.files[j].dataOffset, archive.files[j].dataSize)
    ensures r.Ok? ==> r.value.inflate == decompress
  {
    match FirstWithPath(archive.files, src)
    case None => Err(NotFound)
    case Some(j) =>
      var dat := archive.location + ".dat";
      if dat !in disk then Err(NoSuchFile)
      else
        var f := archive.files[j];
        Ok(Payload(ReadAt(disk[dat], f.dataOffset, f.dataSize), decompress))
  }
}

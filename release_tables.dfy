/** The table part of `ReleaseManifest.parse` (RADS/parsers.py:249-303): the
    "RLSM" magic tag, the header integers, the flat directory and file record
    tables, the NUL-separated string table, and the name lookups into it.

    Byte layout, as the reads in the source lay it out:
      0   magic "RLSM"
      4   u32 type          8  u32 entries      12  4-byte version
      16  u32 directory count, then 20 bytes per directory record
      D   u32 file count, then 44 bytes per file record
      S   u32 string count (never used), u32 string table size, the table */
module ReleaseTables {
  import opened Failures
  import opened Bytes
  import opened Seqs
  import opened Version

  /** b'RLSM' */
  const MAGIC: seq<byte> := [0x52, 0x4C, 0x53, 0x4D]
  const HEADER_SIZE: nat := 20
  const DIR_SIZE: nat := 20
  const FILE_SIZE: nat := 44

  /** A `Directory` as read from its table row: five u32 fields. */
  datatype DirRecord = DirRecord(nameIndex: nat, subdirsIndex: nat, subdirsNb: nat,
                                 filesIndex: nat, filesNb: nat)

  /** A `File` as read from its table row. `hash` is `fp.read(16)`. */
  datatype FileRecord = FileRecord(nameIndex: nat, version: string, hash: seq<byte>,
                                   flags: nat, size: nat, compressedSize: nat, unk1: nat,
                                   fileType: nat, unk2: nat, unk3: nat)

  /** Everything the parse reads before it starts resolving names. */
  datatype Tables = Tables(manifestType: nat, entries: nat, version: string,
                           dirs: seq<DirRecord>, files: seq<FileRecord>,
                           strings: seq<seq<byte>>)

  /** Lines 266-270: a directory row at `pos`. */
  function DirAt(data: seq<byte>, pos: nat): DirRecord
    requires pos + DIR_SIZE <= |data|
  {
    DirRecord(U32At(data, pos), U32At(data, pos + 4), U32At(data, pos + 8),
              U32At(data, pos + 12), U32At(data, pos + 16))
  }

  /** Lines 278-287: a file row at `pos`. */
  function FileAt(data: seq<byte>, pos: nat): FileRecord
    requires pos + FILE_SIZE <= |data|
  {
    FileRecord(U32At(data, pos), ParseVersion(data[pos + 4..pos + 8]), data[pos + 8..pos + 24],
               U32At(data, pos + 24), U32At(data, pos + 28), U32At(data, pos + 32),
               U32At(data, pos + 36), U16At(data, pos + 40), data[pos + 42], data[pos + 43])
  }

  /** `n` consecutive directory rows from `pos`. */
  function DirsAt(data: seq<byte>, pos: nat, n: nat): (dirs: seq<DirRecord>)
    requires pos + DIR_SIZE * n <= |data|
    ensures |dirs| == n
  {
    seq(n, j requires 0 <= j < n => DirAt(data, pos + DIR_SIZE * j))
  }

  /** `n` consecutive file rows from `pos`. */
  function FilesAt(data: seq<byte>, pos: nat, n: nat): (files: seq<FileRecord>)
    requires pos + FILE_SIZE * n <= |data|
    ensures |files| == n
  {
    seq(n, j requires 0 <= j < n => FileAt(data, pos + FILE_SIZE * j))
  }

  /** Line 297: `strings_buff.split(b'\0')[:-1]`, which drops the last piece
      (the empty one after a final NUL, or an unterminated tail). */
  function StringTable(blob: seq<byte>): (strings: seq<seq<byte>>)
    ensures forall i :: 0 <= i < |strings| ==> 0 !in strings[i]
  {
    var parts := Split(blob, 0);
    parts[..|parts| - 1]
  }

  /** The string table a writer of the format lays down: each name followed
      by its NUL terminator. */
  function StringBlob(names: seq<seq<byte>>): seq<byte>
  {
    if names == [] then [] else names[0] + [0] + StringBlob(names[1..])
  }

  lemma {:induction false} StringBlobIsJoin(names: seq<seq<byte>>)
    ensures StringBlob(names) == Join(names + [[]], 0)
  {
    if names != [] {
      StringBlobIsJoin(names[1..]);
      assert (names + [[]])[1..] == names[1..] + [[]];
    }
  }

  /** Reading a written table back gives every name, in order, provided no
      name holds a NUL: dropping the last piece of the split drops exactly
      the empty piece after the final terminator. */
  lemma StringTableRoundTrip(names: seq<seq<byte>>)
    requires forall i :: 0 <= i < |names| ==> 0 !in names[i]
    ensures StringTable(StringBlob(names)) == names
  {
    StringBlobIsJoin(names);
    SplitJoin(names + [[]], 0);
    assert (names + [[]])[..|names|] == names;
  }

  /** Lines 253-297 read front to back. Every failure is the one the first
      failing read raises: a wrong magic tag (read before anything else), or
      a short read handed to `struct.unpack`. The string table itself is read
      with `fp.read(strings_size)`, which may come back short without error. */
  function DecodeTables(data: seq<byte>): (r: Result<Tables>)
    ensures r == Err(BadMagic) <==> |data| < 4 || data[..4] != MAGIC
    ensures r.Ok? ==> |data| >= HEADER_SIZE && |r.value.dirs| == U32At(data, 16)
    ensures r.Ok? ==> r.value.version == ParseVersion(data[12..16])
  {
    if |data| < 4 || data[..4] != MAGIC then Err(BadMagic)
    else if |data| < HEADER_SIZE then Err(Truncated)
    else
      var nd := U32At(data, 16);
      var fpos := HEADER_SIZE + DIR_SIZE * nd;
      if fpos > |data| then Err(Truncated)
      else match TablesAfterDirs(data, fpos)
        case Err(e) => Err(e)
        case Ok((files, strings)) =>
          Ok(Tables(U32At(data, 4), U32At(data, 8), ParseVersion(data[12..16]),
                    DirsAt(data, HEADER_SIZE, nd), files, strings))
  }

  /** Lines 274-297, from the file count at `fpos` on: the file rows and the
      string table, or `Truncated` when a count or a row is cut short. */
  function TablesAfterDirs(data: seq<byte>, fpos: nat): (r: Result<(seq<FileRecord>, seq<seq<byte>>)>)
    requires fpos <= |data|
    ensures r.Err? ==> r.error == Truncated
    ensures r.Ok? ==> fpos + 4 <= |data| && |r.value.0| == U32At(data, fpos)
  {
    if fpos + 4 > |data| then Err(Truncated)
    else
      var nf := U32At(data, fpos);
      var spos := fpos + 4 + FILE_SIZE * nf;
      if spos + 8 > |data| then Err(Truncated)
      else
        var size := U32At(data, spos + 4);
        Ok((FilesAt(data, fpos + 4, nf), StringTable(data[spos + 8..Min(spos + 8 + size, |data|)])))
  }

  /** Reads one directory row (five `struct.unpack('<I', fp.read(4))`). */
  method ReadDir(rd: Reader) returns (r: Result<DirRecord>)
    requires rd.Valid()
    modifies rd
    ensures rd.Valid()
    ensures old(rd.pos) + DIR_SIZE <= |rd.data| ==> r == Ok(DirAt(rd.data, old(rd.pos))) && rd.pos == old(rd.pos) + DIR_SIZE
    ensures old(rd.pos) + DIR_SIZE > |rd.data| ==> r == Err(Truncated)
  {
    var name := rd.ReadU32();
    if name.Err? { return Err(Truncated); }
    var si := rd.ReadU32();
    if si.Err? { return Err(Truncated); }
    var sn := rd.ReadU32();
    if sn.Err? { return Err(Truncated); }
    var fi := rd.ReadU32();
    if fi.Err? { return Err(Truncated); }
    var fnb := rd.ReadU32();
    if fnb.Err? { return Err(Truncated); }
    r := Ok(DirRecord(name.value, si.value, sn.value, fi.value, fnb.value));
  }

  /** Reads the first 24 bytes of a file row: name index, version, hash.
      A short `fp.read(16)` for the hash is not an error by itself. */
  method ReadFileHead(rd: Reader) returns (r: Result<(nat, string, seq<byte>)>)
    requires rd.Valid()
    modifies rd
    ensures rd.Valid()
    ensures old(rd.pos) + 8 <= |rd.data| ==>
      var p := old(rd.pos);
      r == Ok((U32At(rd.data, p), ParseVersion(rd.data[p + 4..p + 8]), rd.data[p + 8..Min(p + 24, |rd.data|)])) &&
      rd.pos == Min(p + 24, |rd.data|)
    ensures old(rd.pos) + 8 > |rd.data| ==> r == Err(Truncated)
  {
    var name := rd.ReadU32();
    if name.Err? { return Err(Truncated); }
    var v := rd.Read4();
    if v.Err? { return Err(Truncated); }
    var hash := rd.Read(16);
    r := Ok((name.value, ParseVersion(v.value), hash));
  }

  /** Reads the last 20 bytes of a file row: four u32, a u16, two bytes. */
  method ReadFileTail(rd: Reader) returns (r: Result<(nat, nat, nat, nat, nat, nat, nat)>)
    requires rd.Valid()
    modifies rd
    ensures rd.Valid()
    ensures old(rd.pos) + 20 <= |rd.data| ==>
      var p := old(rd.pos);
      r == Ok((U32At(rd.data, p), U32At(rd.data, p + 4), U32At(rd.data, p + 8), U32At(rd.data, p + 12),
               U16At(rd.data, p + 16), rd.data[p + 18] as nat, rd.data[p + 19] as nat)) &&
      rd.pos == p + 20
    ensures old(rd.pos) + 20 > |rd.data| ==> r == Err(Truncated)
  {
    var flags := rd.ReadU32();
    if flags.Err? { return Err(Truncated); }
    var size := rd.ReadU32();
    if size.Err? { return Err(Truncated); }
    var csize := rd.ReadU32();
    if csize.Err? { return Err(Truncated); }
    var unk1 := rd.ReadU32();
    if unk1.Err? { return Err(Truncated); }
    var ty := rd.ReadU16();
    if ty.Err? { return Err(Truncated); }
    var unk2 := rd.ReadU8();
    if unk2.Err? { return Err(Truncated); }
    var unk3 := rd.ReadU8();
    if unk3.Err? { return Err(Truncated); }
    r := Ok((flags.value, size.value, csize.value, unk1.value, ty.value, unk2.value, unk3.value));
  }

  /** Lines 277-287: one file row, or `struct.error` when the file ends
      inside it (a short hash read leaves the cursor at the end, so the next
      unpack fails). */
  method ReadFile(rd: Reader) returns (r: Result<FileRecord>)
    requires rd.Valid()
    modifies rd
    ensures rd.Valid()
    ensures old(rd.pos) + FILE_SIZE <= |rd.data| ==> r == Ok(FileAt(rd.data, old(rd.pos))) && rd.pos == old(rd.pos) + FILE_SIZE
    ensures old(rd.pos) + FILE_SIZE > |rd.data| ==> r == Err(Truncated)
  {
    var head := ReadFileHead(rd);
    if head.Err? { return Err(Truncated); }
    var tail := ReadFileTail(rd);
    if tail.Err? { return Err(Truncated); }
    var (name, version, hash) := head.value;
    var (flags, size, csize, unk1, ty, unk2, unk3) := tail.value;
    r := Ok(FileRecord(name, version, hash, flags, size, csize, unk1, ty, unk2, unk3));
  }

  /** Lines 263-272: `n` directory rows appended one by one. */
  method ReadDirs(rd: Reader, n: nat) returns (r: Result<seq<DirRecord>>)
    requires rd.Valid()
    modifies rd
    ensures rd.Valid()
    ensures old(rd.pos) + DIR_SIZE * n <= |rd.data| ==>
      r == Ok(DirsAt(rd.data, old(rd.pos), n)) &&
      rd.pos == old(rd.pos) + DIR_SIZE * n
    ensures old(rd.pos) + DIR_SIZE * n > |rd.data| ==> r == Err(Truncated)
  {
    var start := rd.pos;
    var dirs: seq<DirRecord> := [];
    var i := 0;
    while i < n
      invariant rd.Valid()
      invariant i <= n && rd.pos == start + DIR_SIZE * i
      invariant |dirs| == i
      invariant forall j :: 0 <= j < i ==> dirs[j] == DirAt(rd.data, start + DIR_SIZE * j)
    {
      var d := ReadDir(rd);
      if d.Err? { return Err(Truncated); }
      dirs := dirs + [d.value];
      i := i + 1;
    }
    assert dirs == DirsAt(rd.data, start, n);
    r := Ok(dirs);
  }

  /** Lines 275-289: `n` file rows appended one by one. */
  method ReadFiles(rd: Reader, n: nat) returns (r: Result<seq<FileRecord>>)
    requires rd.Valid()
    modifies rd
    ensures rd.Valid()
    ensures old(rd.pos) + FILE_SIZE * n <= |rd.data| ==>
      r == Ok(FilesAt(rd.data, old(rd.pos), n)) &&
      rd.pos == old(rd.pos) + FILE_SIZE * n
    ensures old(rd.pos) + FILE_SIZE * n > |rd.data| ==> r == Err(Truncated)
  {
    var start := rd.pos;
    var files: seq<FileRecord> := [];
    var i := 0;
    while i < n
      invariant rd.Valid()
      invariant i <= n && rd.pos == start + FILE_SIZE * i
      invariant |files| == i
      invariant forall j :: 0 <= j < i ==> files[j] == FileAt(rd.data, start + FILE_SIZE * j)
    {
      var f := ReadFile(rd);
      if f.Err? { return Err(Truncated); }
      files := files + [f.value];
      i := i + 1;
    }
    assert files == FilesAt(rd.data, start, n);
    r := Ok(files);
  }

  /** Lines 258-262: type, entries, version and directory count. */
  method ReadHeader(rd: Reader) returns (r: Result<(nat, nat, string, nat)>)
    requires rd.Valid()
    modifies rd
    ensures rd.Valid()
    ensures old(rd.pos) + 16 <= |rd.data| ==>
      var p := old(rd.pos);
      r == Ok((U32At(rd.data, p), U32At(rd.data, p + 4), ParseVersion(rd.data[p + 8..p + 12]), U32At(rd.data, p + 12))) &&
      rd.pos == p + 16
    ensures old(rd.pos) + 16 > |rd.data| ==> r == Err(Truncated)
  {
    var ty := rd.ReadU32();
    if ty.Err? { return Err(Truncated); }
    var entries := rd.ReadU32();
    if entries.Err? { return Err(Truncated); }
    var v := rd.Read4();
    if v.Err? { return Err(Truncated); }
    var nd := rd.ReadU32();
    if nd.Err? { return Err(Truncated); }
    r := Ok((ty.value, entries.value, ParseVersion(v.value), nd.value));
  }

  /** Lines 291-297: the two counts, then `fp.read(strings_size)` split on NUL. */
  method ReadStrings(rd: Reader) returns (r: Result<seq<seq<byte>>>)
    requires rd.Valid()
    modifies rd
    ensures rd.Valid()
    ensures old(rd.pos) + 8 <= |rd.data| ==>
      var p := old(rd.pos);
      r == Ok(StringTable(rd.data[p + 8..Min(p + 8 + U32At(rd.data, p + 4), |rd.data|)]))
    ensures old(rd.pos) + 8 > |rd.data| ==> r == Err(Truncated)
  {
    var count := rd.ReadU32();
    if count.Err? { return Err(Truncated); }
    var size := rd.ReadU32();
    if size.Err? { return Err(Truncated); }
    var blob := rd.Read(size.value);
    r := Ok(StringTable(blob));
  }

  /** Lines 253-297 as the source runs them: a cursor over the file, the
      magic tag, the header, the directory rows, the file rows, then the
      string table. */
  method ReadTables(data: seq<byte>) returns (r: Result<Tables>)
    ensures r == DecodeTables(data)
  {
    var rd := new Reader(data);
    var magic := rd.Read(4);
    if magic != MAGIC {
      assert |data| < 4 || data[..4] != MAGIC;
      return Err(BadMagic);
    }
    assert |data| >= 4 && data[..4] == MAGIC;
    var header := ReadHeader(rd);
    if header.Err? { return Err(Truncated); }
    var (ty, entries, version, nd) := header.value;
    assert nd == U32At(data, 16);
    var dirs := ReadDirs(rd, nd);
    if dirs.Err? {
      assert HEADER_SIZE + DIR_SIZE * nd > |data|;
      return Err(Truncated);
    }
    var rest := ReadAfterDirs(rd);
    if rest.Err? { return Err(Truncated); }
    var (files, strings) := rest.value;
    r := Ok(Tables(ty, entries, version, dirs.value, files, strings));
  }

  /** Lines 274-297: the file count, the file rows and the string table. */
  method ReadAfterDirs(rd: Reader) returns (r: Result<(seq<FileRecord>, seq<seq<byte>>)>)
    requires rd.Valid()
    modifies rd
    ensures rd.Valid()
    ensures r == TablesAfterDirs(rd.data, old(rd.pos))
  {
    ghost var fpos := rd.pos;
    var nf := rd.ReadU32();
    if nf.Err? { return Err(Truncated); }
    var files := ReadFiles(rd, nf.value);
    if files.Err? {
      assert fpos + 4 + FILE_SIZE * nf.value > |rd.data|;
      return Err(Truncated);
    }
    ghost var spos := rd.pos;
    assert spos == fpos + 4 + FILE_SIZE * nf.value;
    var strings := ReadStrings(rd);
    if strings.Err? { return Err(Truncated); }
    r := Ok((files.value, strings.value));
  }

  // ---------------------------------------------------------------------------
  // Names (lines 299-303)

  /** `strings[index].decode('ascii')`. */
  function NameAt(strings: seq<seq<byte>>, index: nat): (r: Result<string>)
    ensures r.Ok? <==> index < |strings| && AsciiDecode(strings[index]).Some?
    ensures r.Err? ==> r.error == (if index < |strings| then NotAscii else IndexOutOfRange)
    ensures r.Ok? ==> |r.value| == |strings[index]|
  {
    if index >= |strings| then Err(IndexOutOfRange)
    else match AsciiDecode(strings[index])
      case None => Err(NotAscii)
      case Some(s) => Ok(s)
  }

  /** The outcome of looking up each row's name, in row order. */
  function NameResults(strings: seq<seq<byte>>, indices: seq<nat>): seq<Result<string>>
  {
    seq(|indices|, i requires 0 <= i < |indices| => NameAt(strings, indices[i]))
  }

  /** The name of every row, in row order; the first row whose name cannot be
      found or decoded aborts with that row's error (`Collect`). */
  function Names(strings: seq<seq<byte>>, indices: seq<nat>): (r: Result<seq<string>>)
    ensures r.Ok? ==> |r.value| == |indices| &&
                      forall i :: 0 <= i < |indices| ==> NameAt(strings, indices[i]).Ok? && r.value[i] == NameAt(strings, indices[i]).value
  {
    var rs := NameResults(strings, indices);
    assert forall i :: 0 <= i < |indices| ==> rs[i] == NameAt(strings, indices[i]);
    Collect(rs)
  }

  /** The names resolve exactly when every row's name does. */
  lemma NamesSucceed(strings: seq<seq<byte>>, indices: seq<nat>)
    ensures Names(strings, indices).Ok? <==> forall i :: 0 <= i < |indices| ==> NameAt(strings, indices[i]).Ok?
  {
    var rs := NameResults(strings, indices);
    assert forall i :: 0 <= i < |indices| ==> rs[i] == NameAt(strings, indices[i]);
    CollectSucceeds(rs);
  }

  /** A failed lookup reports the error of the first row whose name cannot
      be found or decoded. */
  lemma NamesFirstError(strings: seq<seq<byte>>, indices: seq<nat>)
    requires Names(strings, indices).Err?
    ensures exists i :: 0 <= i < |indices| && NameAt(strings, indices[i]).Err? &&
                        Names(strings, indices).error == NameAt(strings, indices[i]).error &&
                        forall j :: 0 <= j < i ==> NameAt(strings, indices[j]).Ok?
  {
    var rs := NameResults(strings, indices);
    assert forall i :: 0 <= i < |indices| ==> rs[i] == NameAt(strings, indices[i]);
    CollectFirstError(rs);
  }

  function DirNameIndices(dirs: seq<DirRecord>): seq<nat>
  {
    seq(|dirs|, i requires 0 <= i < |dirs| => dirs[i].nameIndex)
  }

  function FileNameIndices(files: seq<FileRecord>): seq<nat>
  {
    seq(|files|, i requires 0 <= i < |files| => files[i].nameIndex)
  }

  /** Lines 299-303 as a loop: `x.name = strings[x.name_index].decode('ascii')`
      for each row in turn. */
  method ResolveNames(strings: seq<seq<byte>>, indices: seq<nat>) returns (r: Result<seq<string>>)
    ensures r == Names(strings, indices)
  {
    ghost var rs := NameResults(strings, indices);
    var names: seq<string> := [];
    var i := 0;
    assert rs[..0] == [];
    while i < |indices|
      invariant i <= |indices|
      invariant Collect(rs[..i]) == Ok(names)
    {
      var name := NameAt(strings, indices[i]);
      assert name == rs[i];
      if name.Err? {
        CollectFails(rs, i, names);
        return Err(name.error);
      }
      CollectSnoc(rs, i, names);
      names := names + [name.value];
      i := i + 1;
    }
    assert rs[..i] == rs;
    r := Ok(names);
  }
}

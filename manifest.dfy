/** `ReleaseManifest` (RADS/parsers.py:229-332): the parse of a
    `releasemanifest` file into its file rows and its directory tree,
    `list_files`, and `extract` with its cache of opened archives. */
module Manifest {
  import opened Failures
  import opened Bytes
  import opened ReleaseTables
  import opened TreeRebuild
  import Tree
  import Raf

  /** A `File` object once the parse is over: its table row, its decoded
      name, and the path the rebuild wrote into it (`None` when no visited
      directory lists it, so that `path` keeps its initial `None`). */
  datatype ManifestFile = ManifestFile(record: FileRecord, name: string, path: Option<string>)

  /** The attributes `parse` sets: `type`, `entries`, `version`, `files` and
      `tree`. */
  datatype Release = Release(manifestType: nat, entries: nat, version: string,
                             files: seq<ManifestFile>, tree: Tree.Directory)

  /** The tables, with the decoded name of every directory row and of every
      file row. */
  datatype Named = Named(tables: Tables, dirNames: seq<string>, fileNames: seq<string>)

  /** Lines 253-303: the tables, then the directory names, then the file
      names. The first step that fails aborts the parse with its error. */
  function DecodeNamed(data: seq<byte>): (r: Result<Named>)
    ensures r == Err(BadMagic) <==> |data| < 4 || data[..4] != MAGIC
    ensures DecodeTables(data).Err? ==> r == Err(DecodeTables(data).error)
    ensures DecodeTables(data).Ok? && r.Err? ==> r.error == IndexOutOfRange || r.error == NotAscii
    ensures r.Ok? ==> DecodeTables(data) == Ok(r.value.tables)
    ensures r.Ok? ==> var t := r.value.tables;
                      |r.value.dirNames| == |t.dirs| && |r.value.fileNames| == |t.files| &&
                      (forall i :: 0 <= i < |t.dirs| ==> NameAt(t.strings, t.dirs[i].nameIndex) == Ok(r.value.dirNames[i])) &&
                      (forall i :: 0 <= i < |t.files| ==> NameAt(t.strings, t.files[i].nameIndex) == Ok(r.value.fileNames[i]))
  {
    match DecodeTables(data)
    case Err(e) => Err(e)
    case Ok(t) =>
      var dirIndices := DirNameIndices(t.dirs);
      var fileIndices := FileNameIndices(t.files);
      match Names(t.strings, dirIndices)
      case Err(e) =>
        NamesFirstError(t.strings, dirIndices);
        Err(e)
      case Ok(dn) =>
        match Names(t.strings, fileIndices)
        case Err(e) =>
          NamesFirstError(t.strings, fileIndices);
          Err(e)
        case Ok(fn) =>
          assert forall i :: 0 <= i < |t.dirs| ==> dirIndices[i] == t.dirs[i].nameIndex;
          assert forall i :: 0 <= i < |t.files| ==> fileIndices[i] == t.files[i].nameIndex;
          Ok(Named(t, dn, fn))
  }

  /** The names resolve exactly when the tables decode and every directory
      row and every file row names a string that exists and is ASCII. */
  lemma DecodeNamedSucceeds(data: seq<byte>)
    ensures DecodeNamed(data).Ok? <==>
              DecodeTables(data).Ok? &&
              var t := DecodeTables(data).value;
              (forall i :: 0 <= i < |t.dirs| ==> NameAt(t.strings, t.dirs[i].nameIndex).Ok?) &&
              (forall i :: 0 <= i < |t.files| ==> NameAt(t.strings, t.files[i].nameIndex).Ok?)
  {
    if DecodeTables(data).Ok? {
      var t := DecodeTables(data).value;
      var dirIndices := DirNameIndices(t.dirs);
      var fileIndices := FileNameIndices(t.files);
      NamesSucceed(t.strings, dirIndices);
      NamesSucceed(t.strings, fileIndices);
      assert forall i :: 0 <= i < |t.dirs| ==> dirIndices[i] == t.dirs[i].nameIndex;
      assert forall i :: 0 <= i < |t.files| ==> fileIndices[i] == t.files[i].nameIndex;
    }
  }

  /** What a successful parse leaves behind, given the tables and the names:
      the header fields; one `File` per row with its record, its name and the
      path the rebuild gave it; and `directories[0]` as the tree, all taken
      from one run of the rebuild. */
  ghost predicate Parsed(n: Named, m: Release)
  {
    var t := n.tables;
    |n.dirNames| == |t.dirs| > 0 && |n.fileNames| == |t.files| &&
    ChildrenFollow(t.dirs) && AllFit(t.dirs, |t.files|) &&
    m.manifestType == t.manifestType && m.entries == t.entries && m.version == t.version &&
    |m.files| == |t.files| &&
    exists a :: Rebuilt(t.dirs, |t.files|, a) &&
      (forall i :: 0 <= i < |t.files| ==> m.files[i] == ManifestFile(t.files[i], n.fileNames[i], a.filePaths[i])) &&
      m.tree == TreeAt(t.dirs, n.dirNames, n.fileNames, a, 0) &&
      (SingleParent(t.dirs) ==> PathsFollowParents(t.dirs, n.dirNames, n.fileNames, a))
  }

  /** `ReleaseManifest.parse` on the file content `data` (lines 249-320).
      The rebuild loop ends only when no subdirectory range points back at an
      earlier row, which the source takes for granted of its input. */
  method ParseRelease(data: seq<byte>) returns (r: Result<Release>)
    requires DecodeTables(data).Ok? ==> ChildrenFollow(DecodeTables(data).value.dirs)
    ensures DecodeNamed(data).Err? ==> r == Err(DecodeNamed(data).error)
    ensures DecodeNamed(data).Ok? ==>
              var t := DecodeNamed(data).value.tables;
              (r.Ok? <==> |t.dirs| > 0 && AllFit(t.dirs, |t.files|)) &&
              (r.Err? ==> r.error == IndexOutOfRange)
    ensures r.Ok? ==> DecodeNamed(data).Ok? && Parsed(DecodeNamed(data).value, r.value)
  {
    hide DecodeTables, Names, NameAt;
    var tables := ReadTables(data);
    if tables.Err? {
      return Err(tables.error);
    }
    var t := tables.value;
    var dnames := ResolveNames(t.strings, DirNameIndices(t.dirs));
    if dnames.Err? {
      return Err(dnames.error);
    }
    var fnames := ResolveNames(t.strings, FileNameIndices(t.files));
    if fnames.Err? {
      return Err(fnames.error);
    }
    ghost var n := DecodeNamed(data).value;
    assert n == Named(t, dnames.value, fnames.value);
    var built := Rebuild(t.dirs, dnames.value, fnames.value);
    if built.Err? {
      return Err(built.error);
    }
    var a := built.value;
    var files := seq(|t.files|, i requires 0 <= i < |t.files| =>
                       ManifestFile(t.files[i], fnames.value[i], a.filePaths[i]));
    var tree := TreeAt(t.dirs, dnames.value, fnames.value, a, 0);
    r := Ok(Release(t.manifestType, t.entries, t.version, files, tree));
  }

  /** Every path `list_files` returns is the path of some `File` in
      `files`: the tree holds no file object that is not a row, so `extract`
      on a listed path always gets past the lookup in the manifest's rows. */
  lemma ListedPathsAreRows(n: Named, m: Release, p: string)
    requires Parsed(n, m)
    requires p in Tree.Listing(m.tree)
    ensures exists i :: 0 <= i < |m.files| && m.files[i].path == Some(p)
    ensures FirstFile(m.files, p).Some?
  {
    var t := n.tables;
    var a :| Rebuilt(t.dirs, |t.files|, a) &&
             (forall i :: 0 <= i < |t.files| ==> m.files[i] == ManifestFile(t.files[i], n.fileNames[i], a.filePaths[i])) &&
             m.tree == TreeAt(t.dirs, n.dirNames, n.fileNames, a, 0) &&
             (SingleParent(t.dirs) ==> PathsFollowParents(t.dirs, n.dirNames, n.fileNames, a));
    Tree.ListingMembers(m.tree, p);
    TreeFilesAreRows(t.dirs, n.dirNames, n.fileNames, a, 0, p);
    var f :| 0 <= f < |t.files| && a.filePaths[f] == Some(p);
    assert m.files[f].path == Some(p);
  }

  /** A file found anywhere under row `k` is the object of some file row,
      and carries that row's path. */
  lemma {:induction false} TreeFilesAreRows(dirs: seq<DirRecord>, dnames: seq<string>, fnames: seq<string>,
                                            a: Arena, k: nat, p: string)
    requires |dnames| == |dirs| && ChildrenFollow(dirs) && Rebuilt(dirs, |fnames|, a) && AllFit(dirs, |fnames|)
    requires k < |dirs| && Reached(dirs, k)
    requires Tree.HasFile(TreeAt(dirs, dnames, fnames, a, k), p)
    ensures exists f :: 0 <= f < |fnames| && a.filePaths[f] == Some(p)
    decreases |dirs| - k
  {
    var t := TreeAt(dirs, dnames, fnames, a, k);
    RowFacts(dirs, |fnames|, a, k);
    if exists x :: x in t.files && x.path == p {
      var x :| x in t.files && x.path == p;
      var i :| 0 <= i < |t.files| && t.files[i] == x;
      var f := a.files[k][i];
      assert InFiles(dirs[k], f);
      assert a.filePaths[f] == Some(p);
    } else {
      var i :| 0 <= i < |t.subdirs| && Tree.HasFile(t.subdirs[i], p);
      var c := a.subdirs[k][i];
      assert InSubdirs(dirs[k], c);
      assert t.subdirs[i] == TreeAt(dirs, dnames, fnames, a, c);
      TreeFilesAreRows(dirs, dnames, fnames, a, c, p);
    }
  }

  /** When no row has two parents, the tree's paths are consistent with its
      names and the root's path is "". */
  lemma ParsedPathsConsistent(n: Named, m: Release)
    requires Parsed(n, m) && SingleParent(n.tables.dirs)
    ensures Tree.PathsConsistent(m.tree) && m.tree.path == ""
  {
    var t := n.tables;
    var a :| Rebuilt(t.dirs, |t.files|, a) &&
             (forall i :: 0 <= i < |t.files| ==> m.files[i] == ManifestFile(t.files[i], n.fileNames[i], a.filePaths[i])) &&
             m.tree == TreeAt(t.dirs, n.dirNames, n.fileNames, a, 0) &&
             (SingleParent(t.dirs) ==> PathsFollowParents(t.dirs, n.dirNames, n.fileNames, a));
    TreePathsConsistent(t.dirs, n.dirNames, n.fileNames, a, 0);
  }

  /** A file row gets a path exactly when some visited directory's file
      range holds it; every other row keeps `path = None`. */
  lemma ParsedFilePaths(n: Named, m: Release, f: nat)
    requires Parsed(n, m) && f < |m.files|
    ensures m.files[f].path.Some? <==>
              exists p :: 0 <= p < |n.tables.dirs| && Reached(n.tables.dirs, p) && InFiles(n.tables.dirs[p], f)
  {
    var t := n.tables;
    var a :| Rebuilt(t.dirs, |t.files|, a) &&
             (forall i :: 0 <= i < |t.files| ==> m.files[i] == ManifestFile(t.files[i], n.fileNames[i], a.filePaths[i])) &&
             m.tree == TreeAt(t.dirs, n.dirNames, n.fileNames, a, 0) &&
             (SingleParent(t.dirs) ==> PathsFollowParents(t.dirs, n.dirNames, n.fileNames, a));
    assert m.files[f].path == a.filePaths[f];
  }

  // ---------------------------------------------------------------------------
  // `ReleaseManifest.extract` (lines 322-332)

  /** `os.path.join(project_path, 'filearchives', f.version, 'Archive_1.raf')`
      with "/" as the separator. */
  function ArchivePath(projectDir: string, version: string): (p: string)
    ensures projectDir <= p
    ensures |p| == |projectDir| + |version| + 28
  {
    projectDir + "/filearchives/" + version + "/Archive_1.raf"
  }

  /** Files of two different versions never share an archive. */
  lemma ArchivePathInjective(projectDir: string, v1: string, v2: string)
    requires ArchivePath(projectDir, v1) == ArchivePath(projectDir, v2)
    ensures v1 == v2
  {
    var p1, p2 := ArchivePath(projectDir, v1), ArchivePath(projectDir, v2);
    var start := |projectDir| + 14;
    assert |v1| == |v2|;
    assert p1[start..start + |v1|] == v1;
    assert p2[start..start + |v2|] == v2;
  }

  /** `next(x for x in self.files if x.path == path)`: the first file row
      with that path, or `StopIteration`. */
  function FirstFile(files: seq<ManifestFile>, path: string): (r: Option<nat>)
    ensures r.Some? ==> r.value < |files| && files[r.value].path == Some(path) &&
                        forall j :: 0 <= j < r.value ==> files[j].path != Some(path)
    ensures r.None? ==> forall j :: 0 <= j < |files| ==> files[j].path != Some(path)
  {
    if files == [] then None
    else if files[0].path == Some(path) then Some(0)
    else match FirstFile(files[1..], path)
      case None => None
      case Some(j) => Some(j + 1)
  }

  /** What `extract(path, dest)` writes, or the exception its lookup, its
      archive parse or the `.dat` open raises, as a function of the file
      rows and the file system alone: the archive of the first row with that
      path is opened and parsed afresh, then asked for the same path, with
      `decompress` left at `True`. A `zlib.error` from inflating and an
      `OSError` from writing `dest` are not modelled. */
  function ExtractFrom(files: seq<ManifestFile>, projectDir: string, disk: map<string, seq<byte>>,
                       path: string): (r: Result<Raf.Payload>)
    ensures FirstFile(files, path).None? ==> r == Err(NotFound)
    ensures FirstFile(files, path).Some? &&
            ArchivePath(projectDir, files[FirstFile(files, path).value].record.version) !in disk ==>
              r == Err(NoSuchFile)
    ensures r.Ok? ==>
              FirstFile(files, path).Some? &&
              var key := ArchivePath(projectDir, files[FirstFile(files, path).value].record.version);
              key in disk && Raf.DecodeRaf(key, disk[key]).Ok? && key + ".dat" in disk &&
              var archive := Raf.DecodeRaf(key, disk[key]).value;
              r.value.inflate &&
              exists j :: 0 <= j < |archive.files| && archive.files[j].path == path &&
                (forall i :: 0 <= i < j ==> archive.files[i].path != path) &&
                r.value.bytes == Raf.ReadAt(disk[key + ".dat"], archive.files[j].dataOffset, archive.files[j].dataSize)
    ensures FirstFile(files, path).Some? ==>
            var key := ArchivePath(projectDir, files[FirstFile(files, path).value].record.version);
            key in disk ==>
              (Raf.DecodeRaf(key, disk[key]).Err? ==> r == Err(Raf.DecodeRaf(key, disk[key]).error)) &&
              (Raf.DecodeRaf(key, disk[key]).Ok? ==> r == Raf.Extract(Raf.DecodeRaf(key, disk[key]).value, disk, path, true))
  {
    match FirstFile(files, path)
    case None => Err(NotFound)
    case Some(i) =>
      var key := ArchivePath(projectDir, files[i].record.version);
      if key !in disk then Err(NoSuchFile)
      else match Raf.DecodeRaf(key, disk[key])
        case Err(e) => Err(e)
        case Ok(archive) => Raf.Extract(archive, disk, path, true)
  }

  /** A `ReleaseManifest` once `__init__(file_path)` has parsed it. The file
      system is the snapshot `disk`; `projectDir` is the directory that
      `extract` derives from `file_path` with `os.path` (three levels up).
      `rafs` caches each archive that has been opened, keyed by its path;
      `parsedKeys` records, in order, every archive path that has been parsed. */
  class ReleaseManifest {
    const filePath: string
    const projectDir: string
    const disk: map<string, seq<byte>>
    const release: Release
    var rafs: map<string, Raf.Archive>
    ghost var parsedKeys: seq<string>

    /** Every cached archive is what parsing its file gives; the cached
        archives are the ones parsed so far, and no archive was parsed twice. */
    ghost predicate Valid()
      reads this
    {
      (forall key :: key in rafs ==> key in disk && Raf.DecodeRaf(key, disk[key]) == Ok(rafs[key])) &&
      (forall key :: key in rafs <==> key in parsedKeys) &&
      (forall i, j :: 0 <= i < j < |parsedKeys| ==> parsedKeys[i] != parsedKeys[j])
    }

    constructor (filePath: string, projectDir: string, disk: map<string, seq<byte>>, release: Release)
      ensures this.filePath == filePath && this.projectDir == projectDir && this.disk == disk
      ensures this.release == release && rafs == map[] && parsedKeys == []
      ensures Valid()
    {
      this.filePath := filePath;
      this.projectDir := projectDir;
      this.disk := disk;
      this.release := release;
      rafs := map[];
      parsedKeys := [];
    }

    /** Line 202: `self.tree.list_files()`. */
    method ListFiles() returns (paths: seq<string>)
      ensures paths == Tree.Listing(release.tree)
    {
      paths := Tree.ListFiles(release.tree);
    }

    /** Lines 326-331: the archive at `key`, read from the cache, or opened,
      parsed and cached when it is not there yet (a failed parse caches
      nothing). The cache never changes the outcome: it is what a fresh
      parse would give. */
    method CachedArchive(key: string) returns (r: Result<Raf.Archive>)
      requires Valid()
      modifies this
      ensures Valid()
      ensures r == if key in disk then Raf.DecodeRaf(key, disk[key]) else Err(NoSuchFile)
      ensures rafs == if key in disk && Raf.DecodeRaf(key, disk[key]).Ok?
                      then old(rafs)[key := Raf.DecodeRaf(key, disk[key]).value] else old(rafs)
      ensures parsedKeys == old(parsedKeys) || (key !in old(rafs) && parsedKeys == old(parsedKeys) + [key])
    {
      hide Raf.DecodeRaf;
      if key in rafs {
        return Ok(rafs[key]);
      }
      if key !in disk {
        return Err(NoSuchFile);
      }
      r := Raf.ParseRaf(key, disk[key]);
      if r.Ok? {
        ghost var before := parsedKeys;
        assert key !in before;
        rafs := rafs[key := r.value];
        parsedKeys := parsedKeys + [key];
        forall i, j | 0 <= i < j < |parsedKeys|
          ensures parsedKeys[i] != parsedKeys[j]
        {
          if j == |before| {
            assert parsedKeys[i] == before[i];
          }
        }
      }
    }

    /** Lines 322-332: find the row, take its archive through the cache, then
      extract from it. */
    method Extract(path: string) returns (r: Result<Raf.Payload>)
      requires Valid()
      modifies this
      ensures Valid()
      ensures r == ExtractFrom(release.files, projectDir, disk, path)
      ensures forall key :: key in old(rafs) ==> key in rafs && rafs[key] == old(rafs)[key]
      ensures parsedKeys == old(parsedKeys) ||
              (FirstFile(release.files, path).Some? &&
               var key := ArchivePath(projectDir, release.files[FirstFile(release.files, path).value].record.version);
               key !in old(rafs) && parsedKeys == old(parsedKeys) + [key])
      ensures var found := FirstFile(release.files, path);
              var key := if found.Some? then ArchivePath(projectDir, release.files[found.value].record.version) else "";
              rafs == if found.Some? && key in disk && Raf.DecodeRaf(key, disk[key]).Ok?
                      then old(rafs)[key := Raf.DecodeRaf(key, disk[key]).value] else old(rafs)
    {
      hide Raf.DecodeRaf, Raf.Extract, ArchivePath, FirstFile;
      var found := FirstFile(release.files, path);
      if found.None? {
        return Err(NotFound);
      }
      var key := ArchivePath(projectDir, release.files[found.value].record.version);
      var archive := CachedArchive(key);
      if archive.Err? {
        return Err(archive.error);
      }
      r := Raf.Extract(archive.value, disk, path, true);
    }
  }

  /** `ReleaseManifest(file_path)`: open the file, then parse it; the new
      object has an empty archive cache. */
  method Open(filePath: string, projectDir: string, disk: map<string, seq<byte>>) returns (r: Result<ReleaseManifest>)
    requires filePath in disk && DecodeTables(disk[filePath]).Ok? ==> ChildrenFollow(DecodeTables(disk[filePath]).value.dirs)
    ensures filePath !in disk ==> r == Err(NoSuchFile)
    ensures filePath in disk && DecodeNamed(disk[filePath]).Err? ==> r == Err(DecodeNamed(disk[filePath]).error)
    ensures filePath in disk && DecodeNamed(disk[filePath]).Ok? ==>
              var t := DecodeNamed(disk[filePath]).value.tables;
              (r.Ok? <==> |t.dirs| > 0 && AllFit(t.dirs, |t.files|)) &&
              (r.Err? ==> r.error == IndexOutOfRange)
    ensures r.Ok? ==> fresh(r.value) && r.value.Valid() && r.value.rafs == map[] && r.value.parsedKeys == [] &&
                      r.value.filePath == filePath && r.value.projectDir == projectDir && r.value.disk == disk &&
                      filePath in disk && DecodeNamed(disk[filePath]).Ok? &&
                      Parsed(DecodeNamed(disk[filePath]).value, r.value.release)
  {
    if filePath !in disk {
      return Err(NoSuchFile);
    }
    var parsed := ParseRelease(disk[filePath]);
    if parsed.Err? {
      return Err(parsed.error);
    }
    var m := new ReleaseManifest(filePath, projectDir, disk, parsed.value);
    r := Ok(m);
  }
}

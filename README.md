# lol-rads parsers in Dafny

A model of `RADS/parsers.py`, the file-format layer of a reader for the League of Legends
"RADS" patch layout, with proofs about it. The model covers these parts:

- `ReleaseManifest.parse`. It reads the "RLSM" magic, the header, the flat directory and
  file tables and the NUL-separated string table. It resolves names, then rebuilds the
  directory tree with the `dirs_todo` work stack (modules `ReleaseTables`, `TreeRebuild`
  and `Manifest`).
- `RAF.parse` and `RAF.extract`. These read the archive index with magic `F0 0E BE 18`,
  resolve each entry's path from the string blob and check it against `hash_path`
  (module `Raf`).
- `hash_path`, the shift/xor rolling hash, computed over unbounded integers as Python does
  (module `PathHash`).
- `parse_version` (module `Version`).
- `Directory.list_files` (module `Tree`).
- `ReleaseManifest.extract` and its `self.rafs` cache of opened archives (class
  `Manifest.ReleaseManifest`).
- `ConfigurationManifest.parse` and `SolutionManifest.parse`, over the sequence of lines
  that `readline` returns (modules `Text` and `TextManifests`).

The supporting modules model the Python primitives that the parsers rely on:

- `Bytes`: little-endian `struct.unpack`, a forward-only file cursor `Reader` with
  `fp.read` semantics, `decode('ascii')` and Python slicing.
- `Seqs`: `split` and `join`.
- `Decimal`: `str(n)` and `int(c)` on digit strings.
- `Failures`: `Result`/`Error`, plus `Collect`, which is what a Python loop does when any
  iteration may raise.

Every exception that the modelled steps can raise is an `Error` value. Two exceptions of
`RAF.extract` are outside the model: `zlib.error` from `zlib.decompress` (parsers.py:424)
and `OSError` from opening or writing `dest` (parsers.py:421, 425). "## Left out" says
what the model returns in their place.

| Error | source exception |
|---|---|
| `BadMagic` | `ParseException` for a wrong magic |
| `Truncated` | `struct.error` on a short read |
| `IndexOutOfRange` | `IndexError` |
| `NotAscii` | `UnicodeDecodeError` |
| `HashMismatch` | the path-hash `ParseException` |
| `NotFound` | `StopIteration` from `next(...)` |
| `NoSuchFile` | `OSError` from `open` |
| `HeaderMismatch`, `VersionMismatch`, `LocaleMismatch`, `BadNumber`, `EmptyField` | the text parsers' `ParseException`s |

Most parses are written twice: a function of the file content, and a method that runs
the source's loops over a cursor or a line index. Each such method is proved to return
exactly what its function gives, and the properties are then proved about the functions.
The pairs are:

- the release-manifest tables: `ReadTables` and `DecodeTables`;
- the name lookup: `ResolveNames` and `Names`;
- the archive index: `ParseRaf` and `DecodeRaf`, with `ResolvePaths` and `ResolveAll`;
- the text manifests: `ParseConfiguration` and `DecodeConfiguration`, `ParseSolution` and
  `DecodeSolution`;
- `list_files`: `ListFiles` and `Listing`.

The tree rebuild is the exception. `TreeRebuild.Rebuild`, `Manifest.ParseRelease` and
`Manifest.Open` have no function beside them. They are specified by the relations
`Rebuilt` and `Parsed`, which say which rows are visited and what paths and lists they
get, and by `PathsFollowParents` for the path equations.

Two points about the code itself:

- `hash_path` runs on Python's unbounded integers, so `h << 4` is never truncated. The
  model computes the same unbounded value. It proves that whenever the result fits in
  32 bits it equals the 32-bit (ELF) hash. It also proves that a path such as "9iiiifiz",
  whose hash carries past bit 31, can never match a stored u32 hash, so an archive
  holding such a path is always rejected.
- `RAF.extract` calls `zlib.decompress` whenever `decompress` is true. It never consults
  the 0x10 flag.

## Model

| member | source | states |
|---|---|---|
| Failures.CollectSucceeds | RADS/parsers.py:43-47 | a loop of steps that may raise completes exactly when every step succeeds |
| Failures.CollectFirstError | RADS/parsers.py:43-47 | a failed loop raises the error of the first failing step, and every earlier step succeeded |
| Failures.CollectKeepsError | RADS/parsers.py:43-47 | once a prefix of the steps has failed, later steps do not change the outcome |
| Failures.CollectSnoc | RADS/parsers.py:43-47 | one more successful step appends its value to the collected list |
| Failures.CollectFails | RADS/parsers.py:43-47 | one failing step after successful ones fails the whole loop with that step's error |
| Bytes.U32At | RADS/parsers.py:258 | a little-endian `'<I'` value is below 2^32 |
| Bytes.U16At | RADS/parsers.py:285 | a little-endian `'<H'` value is below 2^16 |
| Bytes.U32RoundTrip | RADS/parsers.py:258 | reading `'<I'` from the four bytes written for `v` gives `v` |
| Bytes.U32BytesOfRead | RADS/parsers.py:258 | the little-endian reading is injective: writing the value read gives the same four bytes back |
| Bytes.AsciiDecode | RADS/parsers.py:300 | a decoded name has one character per byte, with the same code |
| Bytes.AsciiRoundTrip | RADS/parsers.py:300 | encoding a decoded ASCII name gives its bytes back |
| Bytes.PySlice | RADS/parsers.py:410 | Python's `s[a:b]` is the ordinary slice when the bounds are in range, and is never longer than `s` |
| Bytes.SliceBound | RADS/parsers.py:410 | a negative bound counts from the end, and every bound is clamped to the length |
| Bytes.Reader.Read | RADS/parsers.py:254 | `fp.read(n)` returns the next bytes, up to `n` of them and fewer at the end of the file, and moves the cursor past them |
| Bytes.Reader.ReadRest | RADS/parsers.py:406 | `fp.read()` returns everything from the cursor to the end |
| Bytes.Reader.Read4 | RADS/parsers.py:260 | exactly four bytes, or `Truncated` when fewer remain |
| Bytes.Reader.ReadU32 | RADS/parsers.py:258 | the little-endian u32 at the cursor, or `Truncated` on a short read |
| Bytes.Reader.ReadU16 | RADS/parsers.py:285 | the little-endian u16 at the cursor, or `Truncated` |
| Bytes.Reader.ReadU8 | RADS/parsers.py:286 | the byte at the cursor, or `Truncated` |
| Seqs.Join | RADS/parsers.py:8 | `sep.join(parts)` is as long as the parts together plus one separator between each two |
| Seqs.Split | RADS/parsers.py:297 | `split` yields at least one part, and no part holds the separator |
| Seqs.SplitJoin | RADS/parsers.py:297 | joining parts that hold no separator and splitting again gives the parts back |
| Seqs.JoinSplit | RADS/parsers.py:297 | splitting and joining again gives the sequence back |
| Decimal.Show | RADS/parsers.py:8 | `str(n)` is a canonical digit string, with no leading zero except in "0" |
| Decimal.Value | RADS/parsers.py:40 | `int(c)` of a digit string is 0 exactly when every digit is '0' |
| Decimal.ValueOfShow | RADS/parsers.py:40 | `int(str(n)) == n` |
| Decimal.ShowOfValue | RADS/parsers.py:40 | `str(int(s)) == s` for every canonical digit string, so the decimal form is unique |
| Decimal.LeadingDigitPositive | RADS/parsers.py:40 | a digit string that does not start with 0 has a value of at least 1 |
| Version.ParseVersion | RADS/parsers.py:7-8 | the rendered version is 7 to 15 characters long: four numbers of one to three digits and three dots |
| Version.VersionRoundTrip | RADS/parsers.py:7-8 | bytes b0,b1,b2,b3 render as "b3.b2.b1.b0": splitting on '.' and reading the four numbers back in reverse order gives the bytes |
| Version.ParseVersionInjective | RADS/parsers.py:7-8 | two version blocks that render to the same text are the same bytes |
| Version.VersionBytes | RADS/parsers.py:7-8 | a version string that parses back yields exactly four bytes |
| PathHash.StepClearsTopNibble | RADS/parsers.py:338-342 | when `(h << 4) + ord(c)` stays below 2^32, xoring with `temp` clears bits 28-31 and the new accumulator is below 2^28 |
| PathHash.HashPath | RADS/parsers.py:334-343 | the hash is either below 2^28 or at least 2^32, never in between |
| PathHash.Step | RADS/parsers.py:338-342 | one turn of the loop keeps the bits of `(h << 4) + ord(c)` from bit 32 up, and leaves the low 32 bits below 2^28 |
| PathHash.FoldParts | RADS/parsers.py:339-342 | the two xors with `temp` leave the bits from 32 up unchanged and clear bits 28-31 |
| PathHash.HashStaysWide | RADS/parsers.py:334-343 | once the accumulator reaches 2^32, no later character brings it back below |
| PathHash.HashAgreesWith32 | RADS/parsers.py:334-343 | whenever Python's hash fits in 32 bits it equals the 32-bit hash and is below 2^28 |
| PathHash.Hash32Bound | RADS/parsers.py:334-343 | the 32-bit variant is always below 2^28 |
| PathHash.HashSnoc | RADS/parsers.py:337-342 | one more character is one more turn of the loop, in both variants |
| PathHash.StepShifts | RADS/parsers.py:338-342 | a turn that leaves bits 28-31 clear only shifts the accumulator and adds the character |
| PathHash.FoldKeeps | RADS/parsers.py:339-342 | the xor step changes nothing when bits 28-31 are clear |
| PathHash.HashIsRadix16 | RADS/parsers.py:334-343 | while the base-16 reading of the lowercased path stays below 2^28, both hashes equal it |
| PathHash.HashOutgrows32Bits | RADS/parsers.py:334-343 | `hash_path("9iiiifiz")` is 0x1_0000_000a in Python, where 32-bit arithmetic gives 0xa |
| PathHash.HashIgnoresCase | RADS/parsers.py:338 | for ASCII paths, paths that agree once lowercased have the same hash |
| PathHash.HashOfLowercase | RADS/parsers.py:338 | `hash_path(p.lower()) == hash_path(p)` for ASCII p |
| PathHash.HashOfUppercase | RADS/parsers.py:338 | `hash_path(p.upper()) == hash_path(p)` for ASCII p |
| Tree.ListFiles | RADS/parsers.py:199-203 | the loop returns the pre-order listing: the directory's own file paths, then each subdirectory's listing in order |
| Tree.ListingLength | RADS/parsers.py:199-203 | the listing has exactly one entry per file in the tree |
| Tree.ListingMembers | RADS/parsers.py:199-203 | a path is listed exactly when some file in the tree has it |
| Tree.Listing | RADS/parsers.py:199-203 | the listing starts with the directory's own file paths, in order |
| Tree.SubdirListingPosition | RADS/parsers.py:201-202 | subdirectory k's listing comes right after the own files and the listings of subdirectories 0..k-1 |
| Tree.ListingAllSplit | RADS/parsers.py:201-202 | the listings of a list of subdirectories split at any point into two consecutive runs |
| Tree.ListedUnderPath | RADS/parsers.py:199-203 | in a tree with consistent paths, every listed path starts with the directory's own path |
| ReleaseTables.StringTable | RADS/parsers.py:297 | no name in the table holds a NUL |
| ReleaseTables.StringTableRoundTrip | RADS/parsers.py:297 | a table written as NUL-terminated names reads back as exactly those names, in order, after the last piece is dropped |
| ReleaseTables.DecodeTables | RADS/parsers.py:253-297 | the result is `BadMagic` exactly when the first four bytes are not "RLSM"; on success the directory count and the version come from their header fields |
| ReleaseTables.TablesAfterDirs | RADS/parsers.py:274-297 | reading the file rows and the strings can only fail with `Truncated`; on success there are as many rows as the count says |
| ReleaseTables.ReadTables | RADS/parsers.py:249-297 | the cursor-driven reads give exactly `DecodeTables` of the content |
| ReleaseTables.ReadHeader | RADS/parsers.py:258-262 | type, entries, version and directory count, or `Truncated` |
| ReleaseTables.ReadDir | RADS/parsers.py:265-272 | one 20-byte directory row, or `Truncated` |
| ReleaseTables.ReadFileHead | RADS/parsers.py:278-280 | name index, version and the hash bytes; a short hash read is not itself an error |
| ReleaseTables.ReadFileTail | RADS/parsers.py:281-287 | the four u32 fields, the u16 and the two bytes, or `Truncated` |
| ReleaseTables.ReadFile | RADS/parsers.py:277-289 | one 44-byte file row, or `Truncated` when the file ends inside it |
| ReleaseTables.ReadDirs | RADS/parsers.py:263-272 | `n` directory rows in table order, or `Truncated` exactly when they do not all fit |
| ReleaseTables.ReadFiles | RADS/parsers.py:275-289 | `n` file rows in table order, or `Truncated` exactly when they do not all fit |
| ReleaseTables.ReadStrings | RADS/parsers.py:291-297 | the table is the `strings_size` bytes after the two counts (fewer at the end of the file), split on NUL with the last piece dropped |
| ReleaseTables.ReadAfterDirs | RADS/parsers.py:274-297 | the cursor-driven reads give exactly `TablesAfterDirs` |
| ReleaseTables.NameAt | RADS/parsers.py:300 | a name resolves exactly when its index is in the table and the bytes are ASCII; otherwise `IndexOutOfRange` or `NotAscii` |
| ReleaseTables.Names | RADS/parsers.py:299-303 | every row's name is `strings[name_index]` decoded, in row order |
| ReleaseTables.NamesSucceed | RADS/parsers.py:299-303 | the names resolve exactly when every row's name does |
| ReleaseTables.NamesFirstError | RADS/parsers.py:299-303 | a failed lookup raises the error of the first row whose name cannot be resolved |
| ReleaseTables.ResolveNames | RADS/parsers.py:299-303 | the loop gives exactly `Names` |
| TreeRebuild.Range | RADS/parsers.py:310 | `range(start, start + n)` holds `start + j` at position `j` |
| TreeRebuild.VisitSubdirs | RADS/parsers.py:309-313 | sets each child's path to the parent's path, its name and "/", and collects the children in range order; `IndexOutOfRange` exactly when the range passes the table |
| TreeRebuild.VisitFiles | RADS/parsers.py:315-318 | sets each file's path to the directory's path and its name, and collects the files; `IndexOutOfRange` exactly when the range passes the table |
| TreeRebuild.Turn | RADS/parsers.py:307-318 | one pop: it fails exactly when the popped row's ranges do not fit; otherwise it applies the visit and pushes the children in order |
| TreeRebuild.TurnKeepsLoopInv | RADS/parsers.py:307-318 | a successful turn keeps the loop invariant and makes the stack strictly lighter, so the loop ends |
| TreeRebuild.TurnFails | RADS/parsers.py:310-317 | a failing turn means some visited row's ranges do not fit |
| TreeRebuild.InitialInv | RADS/parsers.py:305-306 | root path "" and stack `[directories[0]]` satisfy the loop invariant |
| TreeRebuild.LoopDone | RADS/parsers.py:307 | an empty stack leaves exactly the rebuilt fields |
| TreeRebuild.Rebuild | RADS/parsers.py:305-320 | succeeds exactly when there is a root and every visited row's ranges fit. Then the root's path is "", exactly the visited rows have paths, each visited row's `subdirs`/`files` are its ranges in table order, and a file has a path exactly when a visited row lists it. With no shared rows, each child path is the parent's path, its name and "/", and each file path is its directory's path and its name |
| TreeRebuild.RowFacts | RADS/parsers.py:309-318 | a visited row's lists are its ranges; its children are later rows that are visited too; its files all have paths |
| TreeRebuild.TreeAt | RADS/parsers.py:320 | the object of row k carries its name and path, with one subdirectory and one file per range entry |
| TreeRebuild.TreePathsConsistent | RADS/parsers.py:305-318 | with no shared rows, every path in the tree is its parent's path and its name, and the root's path is "" |
| Raf.DecodeRaf | RADS/parsers.py:371-416 | the result is `BadMagic` exactly when the first four bytes are not F0 0E BE 18; on success it has the location, the version, the manager index and one file per entry row |
| Raf.ParseRaf | RADS/parsers.py:371-416 | the cursor-driven parse gives exactly `DecodeRaf` |
| Raf.ReadHeader | RADS/parsers.py:380-386 | version, manager index and entry count, or `Truncated` |
| Raf.ReadEntry | RADS/parsers.py:389-394 | one 16-byte entry row, or `Truncated` |
| Raf.ReadEntries | RADS/parsers.py:387-394 | `n` entry rows in order, or `Truncated` exactly when they do not fit |
| Raf.EntryHashAt | RADS/parsers.py:390 | entry i's stored hash is the u32 at offset 16·i of the entry table |
| Raf.ReadPathRecords | RADS/parsers.py:399-403 | `n` (offset, length) pairs in order, or `Truncated` |
| Raf.ReadPathList | RADS/parsers.py:397-403 | the loop gives exactly `PathListAt`, and the cursor ends after the pairs |
| Raf.PathListAt | RADS/parsers.py:397-403 | as many pairs as the count says, all inside the file; only `Truncated` can fail |
| Raf.PathBytes | RADS/parsers.py:408-410 | the path bytes are `path_strings[start:start + string_len]` with `start` the offset less the header and pair sizes, whenever that slice lies inside the blob; never longer than the blob |
| Raf.StripNul | RADS/parsers.py:412 | either nothing or exactly one trailing 0 byte is removed |
| Raf.ResolveEntry | RADS/parsers.py:407-416 | a resolved entry keeps its row's fields and only gains a path; errors are `IndexOutOfRange`, `NotAscii` or `HashMismatch` |
| Raf.ResolveEntryMeaning | RADS/parsers.py:408-416 | an entry resolves to `path` exactly when its pair exists, its slice is non-empty, the slice without its trailing NUL decodes to `path`, and `hash_path(path)` equals the stored hash |
| Raf.ResolveAll | RADS/parsers.py:407-416 | on success every entry resolved, in entry order |
| Raf.ResolveAllSucceeds | RADS/parsers.py:407-416 | the resolution succeeds exactly when every entry resolves; one mismatch rejects the whole archive |
| Raf.ResolveAllFirstError | RADS/parsers.py:407-416 | a rejected archive reports the error of its first entry that does not resolve; every entry before it resolved |
| Raf.ResolvePaths | RADS/parsers.py:407-416 | the loop gives exactly `ResolveAll` |
| Raf.FilesAfterEntries | RADS/parsers.py:396-416 | a failure here is never `BadMagic`; on success there is one file per entry |
| Raf.ReadFilesAfterEntries | RADS/parsers.py:396-416 | the cursor-driven reads give exactly `FilesAfterEntries` |
| Raf.DecodedFiles | RADS/parsers.py:387-416 | an accepted archive's entry rows fit in the file, and its files are what the rest of the file resolves them to |
| Raf.ResolvedHashes | RADS/parsers.py:415-416 | each resolved file keeps its entry's hash, which is the `hash_path` of its path |
| Raf.AcceptedPathsHash | RADS/parsers.py:390-416 | every file of an accepted archive has `hash_path(path)` equal to its stored u32 hash |
| Raf.AcceptedHashIs32Bit | RADS/parsers.py:390-416 | every accepted path's hash never carried past bit 31: it equals the 32-bit hash and is below 2^28 |
| Raf.WidePathRejected | RADS/parsers.py:415-416 | an entry whose path is "9iiiifiz" is rejected with `HashMismatch`, whatever u32 hash is stored |
| Raf.FirstWithPath | RADS/parsers.py:419 | the first file with that path, or none when no file has it |
| Raf.ReadAt | RADS/parsers.py:422-423 | seek and read: the slice `[offset, offset + size)` when in range, nothing past the end, never more than `size` bytes |
| Raf.Extract | RADS/parsers.py:418-427 | `NotFound` exactly when no entry has the path; `NoSuchFile` exactly when an entry has it and the `.dat` file is missing; otherwise the bytes at the first entry with that path, to be inflated exactly when `decompress` is set |
| Manifest.DecodeNamed | RADS/parsers.py:253-303 | `BadMagic` exactly on a wrong magic; table errors propagate; name errors are `IndexOutOfRange` or `NotAscii`; on success every row's name is its string-table entry |
| Manifest.DecodeNamedSucceeds | RADS/parsers.py:253-303 | the names resolve exactly when the tables decode and every directory and file row names an ASCII string that exists |
| Manifest.ParseRelease | RADS/parsers.py:249-320 | errors before the rebuild propagate unchanged; otherwise it succeeds exactly when there is a root and every visited row's ranges fit, and the result is the rebuilt file rows and tree |
| Manifest.ListedPathsAreRows | RADS/parsers.py:199-203 | every path that `list_files` returns is the path of some file row, so `extract` on a listed path gets past the lookup |
| Manifest.TreeFilesAreRows | RADS/parsers.py:315-318 | every file found under a directory is the object of some file row, with that row's path |
| Manifest.ParsedPathsConsistent | RADS/parsers.py:305-318 | with no shared rows, the parsed tree's paths are consistent and the root's path is "" |
| Manifest.ParsedFilePaths | RADS/parsers.py:315-318 | a file row gets a path exactly when a visited directory's file range holds it; the others keep `None` |
| Manifest.ArchivePath | RADS/parsers.py:324-326 | the archive path lies under the project directory, with a fixed-length suffix around the version |
| Manifest.ArchivePathInjective | RADS/parsers.py:326 | files of different versions never share an archive |
| Manifest.FirstFile | RADS/parsers.py:323 | the first file row with that path, or none when no row has it |
| Manifest.ExtractFrom | RADS/parsers.py:322-332 | `NotFound` without a matching row and `NoSuchFile` without its archive; an error parsing the archive propagates; otherwise the result is the archive's own `extract` of the path with `decompress` set, so the payload comes from the first entry with that path in the first matching row's archive |
| Manifest.ReleaseManifest.constructor | RADS/parsers.py:229-239 | a parsed manifest starts with an empty archive cache |
| Manifest.ReleaseManifest.ListFiles | RADS/parsers.py:246-247 | returns the listing of the tree |
| Manifest.ReleaseManifest.CachedArchive | RADS/parsers.py:326-331 | under a file system that does not change, the archive at a path, as a fresh parse would give it; after the call the cache holds it exactly when it parsed, and nothing else in the cache changes; it is parsed only when not cached |
| Manifest.ReleaseManifest.Extract | RADS/parsers.py:322-332 | under a file system that does not change, returns what a fresh parse of the archive would give, so the cache never changes the outcome. Afterwards the cache is the old cache plus the first matching row's archive when that archive parsed, and is unchanged otherwise; an archive is parsed only when it is not cached, so no archive is parsed twice |
| Manifest.Open | RADS/parsers.py:229-320 | `NoSuchFile` for a missing file and the decoding's own errors otherwise; once the names resolve, it succeeds exactly when there is a root and every visited row's ranges fit, and fails only with `IndexOutOfRange`; on success a fresh object holding the parsed release and an empty cache |
| Text.TrimStartCuts | RADS/parsers.py:37 | `lstrip` leaves the suffix that starts at the first non-space character |
| Text.TrimEndCuts | RADS/parsers.py:37 | `rstrip` leaves the prefix that ends at the last non-space character |
| Text.Strip | RADS/parsers.py:37 | `strip()` returns nothing, or text that neither starts nor ends with a space, and never more than the line |
| Text.StripCuts | RADS/parsers.py:37 | `strip()` returns the piece of the line left once the leading and trailing spaces are cut |
| Text.StripPadded | RADS/parsers.py:37 | `strip()` recovers an item from any spaces put around it |
| Text.StripLine | RADS/parsers.py:44 | an item written as a line with its newline strips back to the item |
| Text.StripEmpty | RADS/parsers.py:37 | a read past the end strips to nothing |
| Text.StripIdempotent | RADS/parsers.py:119-122 | stripping twice is stripping once, so the second strip of a project version changes nothing |
| TextManifests.LineAt | RADS/parsers.py:23 | a `readline` past the end of the file returns "" |
| TextManifests.ItemAt | RADS/parsers.py:44-47 | an accepted item is the stripped line and a valid item; otherwise `EmptyField` |
| TextManifests.CountAt | RADS/parsers.py:37-40 | a count is accepted exactly when the stripped line is digits, and is then their value; otherwise `BadNumber` |
| TextManifests.PastEndRejected | RADS/parsers.py:37-46 | no item or count line is ever accepted past the end of the file |
| TextManifests.VersionLine | RADS/parsers.py:28-30 | the accepted version line strips to "1.0.0.0" |
| TextManifests.LocaleLine | RADS/parsers.py:33-35 | the accepted locale line strips to "en_gb" |
| TextManifests.ItemsAt | RADS/parsers.py:42-47 | `n` items, each the stripped line at its position; the first empty one raises `EmptyField` |
| TextManifests.ReadItems | RADS/parsers.py:42-47 | the loop gives exactly `ItemsAt` |
| TextManifests.DecodeConfiguration | RADS/parsers.py:19-47 | header, version and locale mismatches are reported in that order; on success the file version and locale are the constants, and the projects are the count line's value of stripped non-empty lines |
| TextManifests.ParseConfiguration | RADS/parsers.py:19-47 | the line-by-line parse gives exactly `DecodeConfiguration` |
| TextManifests.ConfigurationRoundTrip | RADS/parsers.py:19-47 | parsing the written line list of any valid configuration manifest gives it back |
| TextManifests.ConfigurationIgnoresTrailingLines | RADS/parsers.py:19-47 | lines after an accepted configuration manifest change nothing |
| TextManifests.CountWithinFile | RADS/parsers.py:37-40 | an accepted count line is a line of the file |
| TextManifests.ItemsWithinFile | RADS/parsers.py:42-47 | accepted item lines are lines of the file |
| TextManifests.ItemsAtSameLines | RADS/parsers.py:42-47 | two files that agree on the item lines give the same items |
| TextManifests.ItemLine | RADS/parsers.py:44-47 | an item written on its own line reads back |
| TextManifests.CountLine | RADS/parsers.py:37-40 | a count written as `str(n)` reads back as `n` |
| TextManifests.ItemsLines | RADS/parsers.py:42-47 | items written one per line read back as the same list |
| TextManifests.ProjectAt | RADS/parsers.py:110-136 | an accepted project has a valid name and version; errors are `EmptyField` or `BadNumber` |
| TextManifests.ProjectsAt | RADS/parsers.py:108-136 | `n` projects, project i read from the four lines at `k + 4i` |
| TextManifests.ReadProjects | RADS/parsers.py:108-136 | the loop gives exactly `ProjectsAt` |
| TextManifests.ConfigurationAt | RADS/parsers.py:145-173 | an accepted configuration is valid, and the next configuration starts right after its project names |
| TextManifests.ConfigurationsAt | RADS/parsers.py:144-173 | `n` valid configurations, read one after the other |
| TextManifests.ConfigurationsKeepError | RADS/parsers.py:144-173 | once a configuration fails, the ones after it are never read |
| TextManifests.ReadConfiguration | RADS/parsers.py:145-173 | one pass of the loop, with its nested loop, gives exactly `ConfigurationAt` |
| TextManifests.ReadConfigurations | RADS/parsers.py:144-173 | the loop gives exactly `ConfigurationsAt` |
| TextManifests.DecodeSolution | RADS/parsers.py:79-90 | header then version mismatches are reported; on success the manifest is valid |
| TextManifests.SolutionBody | RADS/parsers.py:92-173 | on success the name, version and project count come from their lines, and project i is the one read at line `5 + 4i` |
| TextManifests.ParseSolution | RADS/parsers.py:79-173 | the line-by-line parse gives exactly `DecodeSolution` |
| TextManifests.ProjectLinesRoundTrip | RADS/parsers.py:110-136 | a valid project written as four lines reads back |
| TextManifests.ProjectsLinesRoundTrip | RADS/parsers.py:108-136 | valid projects written one after the other read back |
| TextManifests.ConfigurationLinesRoundTrip | RADS/parsers.py:145-173 | a valid configuration written out reads back, and reading ends right after it |
| TextManifests.ConfigurationsLinesRoundTrip | RADS/parsers.py:144-173 | valid configurations written one after the other read back |
| TextManifests.SolutionBodyRoundTrip | RADS/parsers.py:92-173 | the lines after the version line of a valid manifest read back as that manifest |
| TextManifests.SolutionRoundTrip | RADS/parsers.py:79-173 | parsing the written line list of any valid solution manifest gives it back |

## Left out

- File I/O. A binary file is its content, a `seq<byte>`. The file system is a map from path
  to content (`disk`). Writing the extracted payload to `dest` is not modelled. The payload
  is returned instead.
- `zlib.decompress`. It is a foreign call. `extract` returns the raw bytes and a flag that
  says they would be inflated. A payload that is not valid zlib data makes Python raise
  `zlib.error`; the model returns `Ok` with `inflate` set.
- Writing `dest`. `open(dest, 'wb+')` and `fp2.write(d)` can raise `OSError`; the model
  does not write `dest` and never reports that error.
- `os.path` arithmetic in `extract`. The project directory that `normpath`/`join` derive
  from `file_path` is a parameter. The archive path joins with "/".
- RADS/RADS.py and main.py. Path wrappers over `os.path` and a driver script are not part
  of this model.
- `__repr__` and `pretty`. They are display only.
- Text files. A text manifest is the list of lines `readline` returns, newline
  translation already done.
- PathHash.HashPath: `c.lower()` is modelled on ASCII letters only. Python lowercases all
  of Unicode, so `hash_path("Ä")` is 0xE4 in Python and 0xC4 here, and `'ß'.upper()` is
  "SS". `RAF.parse` hashes only paths that `decode('ascii')` accepted, so the archive
  decoder is unaffected. The case lemmas (`HashIgnoresCase`, `HashOfLowercase`,
  `HashOfUppercase`) hold in Python only for ASCII paths.
- `str.isdigit`. Only ASCII digits are accepted. Python also accepts other Unicode digits.
- Partial state after an exception. `parse` methods that raise leave some attributes
  set on the Python object. The model returns only the error.
- Unread header fields. `strings_nb` in the release manifest, and `files_offset`,
  `paths_offset` and `paths_size` in the archive, are read (a short read still fails) but
  not kept.
- TreeRebuild.Rebuild: requires that every non-empty subdirectory range starts after its
  own row (`ChildrenFollow`). A range pointing back at an ancestor makes the source's loop
  run forever, which a terminating model cannot express. The requirement is stronger than
  termination. It also rejects some inputs on which the source stops, such as row 0 with
  subdirectories [2, 3) and row 2 with subdirectories [1, 2). It also constrains rows
  that the loop never visits.
- TreeRebuild.Rebuild: states the parent/child path equations only when no visited row is
  in two visited ranges (`SingleParent`). A shared row is one Python object whose `path` is
  overwritten by each parent's visit.
- Manifest.ParseRelease: carries the same `ChildrenFollow` requirement as the rebuild.
  Through `Parsed` it also states the path equations only when no visited row is shared
  (`SingleParent`, the premise of `ParsedPathsConsistent`).
- Manifest.Open: carries the same `ChildrenFollow` requirement as the rebuild, and the same
  `SingleParent` limit on the path equations.
- Manifest.ReleaseManifest.Extract: the file system (`disk`) is fixed for the object's
  lifetime. Python keeps a parsed archive index in `self.rafs` and re-opens only the
  `.dat` file on each call, so after the `.raf` file changes it goes on using the stale
  index. The model cannot express that, and its "same as a fresh parse" holds only
  under an unchanging file system.
- Manifest.ReleaseManifest.CachedArchive: the same fixed file system; a cached index that
  no longer matches the `.raf` file on disk is not modelled.
- TextManifests.ConfigurationRoundTrip: stated on the rendered line list. An item may hold
  a '\n' or '\r' inside it, so the round trip does not carry over to a file written out
  and split again by `readline`.
- TextManifests.SolutionRoundTrip: stated on the rendered line list, with the same limit
  for items holding a '\n' or '\r'.
- ReleaseManifest objects made without a file (`file_path = None`) are not modelled.
- Integer widths. All integers are unbounded, as in Python. Fields read with `'<I'` are
  below 2^32 by construction.

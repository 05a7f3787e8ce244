/** The tree rebuild at the end of `ReleaseManifest.parse`
    (RADS/parsers.py:305-320).

    The source's `Directory` and `File` objects are identified by their row in
    `directories` and `self.files`; the rebuild mutates three fields of each
    reached directory (`path`, `subdirs`, `files`) and the `path` of each
    reached file. Here those fields are columns indexed by row, an `Arena`,
    and `subdirs`/`files` hold row numbers. */
module TreeRebuild {
  import opened Failures
  import opened Bytes
  import opened ReleaseTables
  import Tree

  /** The fields the rebuild writes, one entry per directory row (`dirPaths`,
      `subdirs`, `files`) and per file row (`filePaths`). A directory whose
      `path` was never set is `None`; a file keeps its initial `path = None`. */
  datatype Arena = Arena(dirPaths: seq<Option<string>>, subdirs: seq<seq<nat>>,
                         files: seq<seq<nat>>, filePaths: seq<Option<string>>)

  predicate InSubdirs(d: DirRecord, k: nat)
  {
    d.subdirsIndex <= k < d.subdirsIndex + d.subdirsNb
  }

  predicate InFiles(d: DirRecord, f: nat)
  {
    d.filesIndex <= f < d.filesIndex + d.filesNb
  }

  /** `range(start, start + n)` as a list. */
  function Range(start: nat, n: nat): (r: seq<nat>)
    ensures |r| == n && forall j :: 0 <= j < n ==> r[j] == start + j
  {
    seq(n, j requires 0 <= j < n => start + j)
  }

  /** Lines 310 and 316 run without `IndexError`: a non-empty range ends
      inside its table. */
  predicate RangesFit(d: DirRecord, nDirs: nat, nFiles: nat)
  {
    (d.subdirsNb == 0 || d.subdirsIndex + d.subdirsNb <= nDirs) &&
    (d.filesNb == 0 || d.filesIndex + d.filesNb <= nFiles)
  }

  /** Every non-empty subdirectory range starts after the directory's own
      row. Without it a range can point back at an ancestor and the
      `dirs_todo` loop never ends; with it the loop always ends. */
  predicate ChildrenFollow(dirs: seq<DirRecord>)
  {
    forall k :: 0 <= k < |dirs| ==> dirs[k].subdirsNb == 0 || dirs[k].subdirsIndex > k
  }

  /** The rows the rebuild visits: the root, and every row inside the
      subdirectory range of a visited row. */
  predicate Reached(dirs: seq<DirRecord>, k: nat)
    decreases k
  {
    k < |dirs| && (k == 0 || exists p :: 0 <= p < k && Reached(dirs, p) && InSubdirs(dirs[p], k))
  }

  /** No visited row is in two visited subdirectory ranges, and no file row in
      two visited file ranges: the rows form a tree, and no object's `path` is
      written twice. */
  ghost predicate SingleParent(dirs: seq<DirRecord>)
  {
    (forall p, q, k: nat ::
       (0 <= p < |dirs| && 0 <= q < |dirs| && Reached(dirs, p) && Reached(dirs, q) &&
        InSubdirs(dirs[p], k) && InSubdirs(dirs[q], k)) ==> p == q) &&
    (forall p, q, f: nat ::
       (0 <= p < |dirs| && 0 <= q < |dirs| && Reached(dirs, p) && Reached(dirs, q) &&
        InFiles(dirs[p], f) && InFiles(dirs[q], f)) ==> p == q)
  }

  /** Every visited row has ranges that fit. */
  predicate AllFit(dirs: seq<DirRecord>, nFiles: nat)
  {
    forall k :: 0 <= k < |dirs| && Reached(dirs, k) ==> RangesFit(dirs[k], |dirs|, nFiles)
  }

  predicate Shaped(a: Arena, nDirs: nat, nFiles: nat)
  {
    |a.dirPaths| == nDirs && |a.subdirs| == nDirs && |a.files| == nDirs && |a.filePaths| == nFiles
  }

  /** What the rebuild leaves behind: the root has path ""; exactly the
      visited rows have a path; a visited row's `subdirs` and `files` are its
      two ranges in table order, any other row's are still empty; a file has
      a path exactly when a visited row's file range holds it. */
  ghost predicate Rebuilt(dirs: seq<DirRecord>, nFiles: nat, a: Arena)
  {
    var n := |dirs|;
    Shaped(a, n, nFiles) && n > 0 && a.dirPaths[0] == Some("") &&
    (forall k :: 0 <= k < n ==> (a.dirPaths[k].Some? <==> Reached(dirs, k))) &&
    (forall k :: 0 <= k < n ==>
       a.subdirs[k] == (if Reached(dirs, k) then Range(dirs[k].subdirsIndex, dirs[k].subdirsNb) else [])) &&
    (forall k :: 0 <= k < n ==>
       a.files[k] == (if Reached(dirs, k) then Range(dirs[k].filesIndex, dirs[k].filesNb) else [])) &&
    (forall f :: 0 <= f < nFiles ==>
       (a.filePaths[f].Some? <==> exists p :: 0 <= p < n && Reached(dirs, p) && InFiles(dirs[p], f)))
  }

  /** Lines 311 and 317: a child directory's path is its parent's path, its
      name and "/"; a file's path is its directory's path and its name. */
  ghost predicate PathsFollowParents(dirs: seq<DirRecord>, dnames: seq<string>, fnames: seq<string>, a: Arena)
    requires |dnames| == |dirs| && Rebuilt(dirs, |fnames|, a) && AllFit(dirs, |fnames|)
  {
    (forall p, k: nat :: 0 <= p < |dirs| && Reached(dirs, p) && InSubdirs(dirs[p], k) ==>
       a.dirPaths[k] == Some(a.dirPaths[p].value + dnames[k] + "/")) &&
    (forall p, f: nat :: 0 <= p < |dirs| && Reached(dirs, p) && InFiles(dirs[p], f) ==>
       a.filePaths[f] == Some(a.dirPaths[p].value + fnames[f]))
  }

  // ---------------------------------------------------------------------------
  // One turn of the `dirs_todo` loop

  /** Line 311 for every child of `d`. */
  function ChildPaths(dirs: seq<DirRecord>, dnames: seq<string>, paths: seq<Option<string>>, d: nat): (r: seq<Option<string>>)
    requires |dnames| == |dirs| == |paths| && d < |dirs| && paths[d].Some?
    ensures |r| == |paths|
  {
    seq(|paths|, k requires 0 <= k < |paths| =>
      if InSubdirs(dirs[d], k) then Some(paths[d].value + dnames[k] + "/") else paths[k])
  }

  /** Line 317 for every file of `d`, whose path is `base`. */
  function FilePathsOf(dirs: seq<DirRecord>, fnames: seq<string>, fpaths: seq<Option<string>>, base: string, d: nat): (r: seq<Option<string>>)
    requires |fnames| == |fpaths| && d < |dirs|
    ensures |r| == |fpaths|
  {
    seq(|fpaths|, f requires 0 <= f < |fpaths| =>
      if InFiles(dirs[d], f) then Some(base + fnames[f]) else fpaths[f])
  }

  /** Lines 309-313: set each child's path and collect the children, which
      are also pushed on the stack. An index past the table raises. */
  method VisitSubdirs(dirs: seq<DirRecord>, dnames: seq<string>, paths: seq<Option<string>>, d: nat)
    returns (r: Result<(seq<Option<string>>, seq<nat>)>)
    requires |dnames| == |dirs| == |paths| && d < |dirs| && paths[d].Some?
    requires ChildrenFollow(dirs)
    ensures r.Ok? <==> dirs[d].subdirsNb == 0 || dirs[d].subdirsIndex + dirs[d].subdirsNb <= |dirs|
    ensures r.Err? ==> r.error == IndexOutOfRange
    ensures r.Ok? ==> r.value == (ChildPaths(dirs, dnames, paths, d), Range(dirs[d].subdirsIndex, dirs[d].subdirsNb))
  {
    var start, end := dirs[d].subdirsIndex, dirs[d].subdirsIndex + dirs[d].subdirsNb;
    var out := paths;
    var subdirs: seq<nat> := [];
    var i := start;
    while i < end
      invariant start <= i <= end && (i > start ==> i <= |dirs|)
      invariant |out| == |paths| && out[d] == paths[d]
      invariant forall k :: 0 <= k < |paths| ==>
                  out[k] == if start <= k < i then Some(paths[d].value + dnames[k] + "/") else paths[k]
      invariant subdirs == Range(start, i - start)
    {
      if i >= |dirs| {
        return Err(IndexOutOfRange);
      }
      out := out[i := Some(out[d].value + dnames[i] + "/")];
      subdirs := subdirs + [i];
      i := i + 1;
    }
    assert out == ChildPaths(dirs, dnames, paths, d);
    r := Ok((out, subdirs));
  }

  /** Lines 315-318: set each file's path and collect the files. An index
      past the table raises. */
  method VisitFiles(dirs: seq<DirRecord>, fnames: seq<string>, fpaths: seq<Option<string>>, base: string, d: nat)
    returns (r: Result<(seq<Option<string>>, seq<nat>)>)
    requires |fnames| == |fpaths| && d < |dirs|
    ensures r.Ok? <==> dirs[d].filesNb == 0 || dirs[d].filesIndex + dirs[d].filesNb <= |fnames|
    ensures r.Err? ==> r.error == IndexOutOfRange
    ensures r.Ok? ==> r.value == (FilePathsOf(dirs, fnames, fpaths, base, d), Range(dirs[d].filesIndex, dirs[d].filesNb))
  {
    var start, end := dirs[d].filesIndex, dirs[d].filesIndex + dirs[d].filesNb;
    var out := fpaths;
    var files: seq<nat> := [];
    var i := start;
    while i < end
      invariant start <= i <= end && (i > start ==> i <= |fnames|)
      invariant |out| == |fpaths|
      invariant forall f :: 0 <= f < |fpaths| ==>
                  out[f] == if start <= f < i then Some(base + fnames[f]) else fpaths[f]
      invariant files == Range(start, i - start)
    {
      if i >= |fnames| {
        return Err(IndexOutOfRange);
      }
      out := out[i := Some(base + fnames[i])];
      files := files + [i];
      i := i + 1;
    }
    assert out == FilePathsOf(dirs, fnames, fpaths, base, d);
    r := Ok((out, files));
  }

  // ---------------------------------------------------------------------------
  // The `dirs_todo` loop

  /** What one turn of the loop does when both ranges of `d` fit. */
  function Visit(dirs: seq<DirRecord>, dnames: seq<string>, fnames: seq<string>, a: Arena, d: nat): Arena
    requires |dnames| == |dirs| && Shaped(a, |dirs|, |fnames|) && d < |dirs| && a.dirPaths[d].Some?
  {
    Arena(ChildPaths(dirs, dnames, a.dirPaths, d),
          a.subdirs[d := Range(dirs[d].subdirsIndex, dirs[d].subdirsNb)],
          a.files[d := Range(dirs[d].filesIndex, dirs[d].filesNb)],
          FilePathsOf(dirs, fnames, a.filePaths, a.dirPaths[d].value, d))
  }

  predicate StackOk(dirs: seq<DirRecord>, paths: seq<Option<string>>, stack: seq<nat>)
    requires |paths| == |dirs|
  {
    forall i :: 0 <= i < |stack| ==> stack[i] < |dirs| && Reached(dirs, stack[i]) && paths[stack[i]].Some?
  }

  ghost predicate DoneOk(dirs: seq<DirRecord>, nf: nat, paths: seq<Option<string>>, done: set<nat>)
    requires |paths| == |dirs|
  {
    forall k :: k in done ==> k < |dirs| && Reached(dirs, k) && RangesFit(dirs[k], |dirs|, nf) && paths[k].Some?
  }

  ghost predicate ListsOk(dirs: seq<DirRecord>, subdirs: seq<seq<nat>>, files: seq<seq<nat>>, done: set<nat>)
    requires |subdirs| == |files| == |dirs|
  {
    (forall k :: 0 <= k < |dirs| ==>
       subdirs[k] == (if k in done then Range(dirs[k].subdirsIndex, dirs[k].subdirsNb) else [])) &&
    (forall k :: 0 <= k < |dirs| ==>
       files[k] == (if k in done then Range(dirs[k].filesIndex, dirs[k].filesNb) else []))
  }

  /** Every child of a popped row has been popped or is waiting. */
  ghost predicate Closed(dirs: seq<DirRecord>, stack: seq<nat>, done: set<nat>)
    requires forall k :: k in done ==> k < |dirs|
  {
    (forall p, c: nat :: p in done && InSubdirs(dirs[p], c) ==> c in done || c in stack) &&
    (0 in done || 0 in stack)
  }

  ghost predicate PathsSet(dirs: seq<DirRecord>, paths: seq<Option<string>>, done: set<nat>)
    requires |paths| == |dirs| && forall k :: k in done ==> k < |dirs|
  {
    forall k :: 0 <= k < |dirs| ==>
      (paths[k].Some? <==> (k == 0 || exists p :: p in done && InSubdirs(dirs[p], k)))
  }

  ghost predicate FilesSet(dirs: seq<DirRecord>, fpaths: seq<Option<string>>, done: set<nat>)
    requires forall k :: k in done ==> k < |dirs|
  {
    forall f :: 0 <= f < |fpaths| ==>
      (fpaths[f].Some? <==> exists p :: p in done && InFiles(dirs[p], f))
  }

  /** The loop invariant for tables of any shape: `done` holds the rows
      popped so far. */
  ghost predicate Inv(dirs: seq<DirRecord>, fnames: seq<string>, a: Arena, stack: seq<nat>, done: set<nat>)
  {
    Shaped(a, |dirs|, |fnames|) && |dirs| > 0 && a.dirPaths[0] == Some("") &&
    StackOk(dirs, a.dirPaths, stack) && DoneOk(dirs, |fnames|, a.dirPaths, done) &&
    ListsOk(dirs, a.subdirs, a.files, done) &&
    Closed(dirs, stack, done) && PathsSet(dirs, a.dirPaths, done) && FilesSet(dirs, a.filePaths, done)
  }

  /** The further invariant when no row has two visited parents: nothing is
      on the stack twice or popped twice, the parents of a popped or waiting
      row have all been popped, and each popped row's children and files
      carry the paths lines 311 and 317 gave them. */
  ghost predicate InvSP(dirs: seq<DirRecord>, dnames: seq<string>, fnames: seq<string>, a: Arena, stack: seq<nat>, done: set<nat>)
    requires |dnames| == |dirs| && Inv(dirs, fnames, a, stack, done)
  {
    Fresh(stack, done) && ParentsDone(dirs, stack, done) &&
    ChildEqs(dirs, dnames, a.dirPaths, done) && FileEqs(dirs, fnames, a.dirPaths, a.filePaths, done)
  }

  predicate Fresh(stack: seq<nat>, done: set<nat>)
  {
    (forall i, j :: 0 <= i < j < |stack| ==> stack[i] != stack[j]) &&
    (forall i :: 0 <= i < |stack| ==> stack[i] !in done)
  }

  ghost predicate ParentsDone(dirs: seq<DirRecord>, stack: seq<nat>, done: set<nat>)
  {
    forall p, k: nat :: (0 <= p < |dirs| && Reached(dirs, p) && InSubdirs(dirs[p], k) &&
       (k in done || k in stack)) ==> p in done
  }

  /** Line 311 as it stands after the visit of `p`. */
  predicate ChildPathIs(dnames: seq<string>, paths: seq<Option<string>>, p: nat, c: nat)
  {
    p < |paths| && c < |paths| && c < |dnames| && paths[p].Some? &&
    paths[c] == Some(paths[p].value + dnames[c] + "/")
  }

  /** Line 317 as it stands after the visit of `p`. */
  predicate FilePathIs(fnames: seq<string>, paths: seq<Option<string>>, fpaths: seq<Option<string>>, p: nat, f: nat)
  {
    p < |paths| && f < |fpaths| && f < |fnames| && paths[p].Some? &&
    fpaths[f] == Some(paths[p].value + fnames[f])
  }

  ghost predicate ChildEqs(dirs: seq<DirRecord>, dnames: seq<string>, paths: seq<Option<string>>, done: set<nat>)
    requires forall k :: k in done ==> k < |dirs|
  {
    forall p, c: nat :: p in done && InSubdirs(dirs[p], c) ==> ChildPathIs(dnames, paths, p, c)
  }

  ghost predicate FileEqs(dirs: seq<DirRecord>, fnames: seq<string>, paths: seq<Option<string>>, fpaths: seq<Option<string>>, done: set<nat>)
    requires forall k :: k in done ==> k < |dirs|
  {
    forall p, f: nat :: p in done && InFiles(dirs[p], f) ==> FilePathIs(fnames, paths, fpaths, p, f)
  }

  lemma {:induction false} VisitKeepsStack(dirs: seq<DirRecord>, dnames: seq<string>, paths: seq<Option<string>>, stack: seq<nat>, d: nat)
    requires |dnames| == |dirs| == |paths| && ChildrenFollow(dirs) && d < |dirs| && paths[d].Some? && Reached(dirs, d)
    requires dirs[d].subdirsNb == 0 || dirs[d].subdirsIndex + dirs[d].subdirsNb <= |dirs|
    requires StackOk(dirs, paths, stack)
    ensures StackOk(dirs, ChildPaths(dirs, dnames, paths, d), stack + Range(dirs[d].subdirsIndex, dirs[d].subdirsNb))
  {
    var paths' := ChildPaths(dirs, dnames, paths, d);
    var stack' := stack + Range(dirs[d].subdirsIndex, dirs[d].subdirsNb);
    forall i | 0 <= i < |stack'|
      ensures stack'[i] < |dirs| && Reached(dirs, stack'[i]) && paths'[stack'[i]].Some?
    {
      var c := stack'[i];
      if i >= |stack| {
        assert InSubdirs(dirs[d], c) && d < c;
      } else {
        assert c == stack[i];
      }
    }
  }

  lemma {:induction false} VisitKeepsDone(dirs: seq<DirRecord>, dnames: seq<string>, nf: nat, paths: seq<Option<string>>, done: set<nat>, d: nat)
    requires |dnames| == |dirs| == |paths| && d < |dirs| && paths[d].Some? && Reached(dirs, d)
    requires RangesFit(dirs[d], |dirs|, nf)
    requires DoneOk(dirs, nf, paths, done)
    ensures DoneOk(dirs, nf, ChildPaths(dirs, dnames, paths, d), done + {d})
  {
  }

  lemma {:induction false} VisitKeepsLists(dirs: seq<DirRecord>, subdirs: seq<seq<nat>>, files: seq<seq<nat>>, done: set<nat>, d: nat)
    requires |subdirs| == |files| == |dirs| && d < |dirs|
    requires ListsOk(dirs, subdirs, files, done)
    ensures ListsOk(dirs, subdirs[d := Range(dirs[d].subdirsIndex, dirs[d].subdirsNb)],
                    files[d := Range(dirs[d].filesIndex, dirs[d].filesNb)], done + {d})
  {
  }

  lemma {:induction false} VisitKeepsClosed(dirs: seq<DirRecord>, stack: seq<nat>, done: set<nat>)
    requires |stack| > 0 && stack[|stack| - 1] < |dirs|
    requires forall k :: k in done ==> k < |dirs|
    requires Closed(dirs, stack, done)
    ensures var d := stack[|stack| - 1];
            Closed(dirs, stack[..|stack| - 1] + Range(dirs[d].subdirsIndex, dirs[d].subdirsNb), done + {d})
  {
    var d := stack[|stack| - 1];
    var kids := Range(dirs[d].subdirsIndex, dirs[d].subdirsNb);
    var stack' := stack[..|stack| - 1] + kids;
    var done' := done + {d};
    forall p, c: nat | p in done' && InSubdirs(dirs[p], c)
      ensures c in done' || c in stack'
    {
      if p == d {
        assert stack'[|stack| - 1 + c - dirs[d].subdirsIndex] == c;
      } else if c !in done && c != d {
        var i :| 0 <= i < |stack| && stack[i] == c;
        assert stack'[i] == c;
      }
    }
    if 0 !in done && 0 != d {
      var i :| 0 <= i < |stack| && stack[i] == 0;
      assert stack'[i] == 0;
    }
  }

  lemma {:induction false} VisitKeepsPathsSet(dirs: seq<DirRecord>, dnames: seq<string>, paths: seq<Option<string>>, done: set<nat>, d: nat)
    requires |dnames| == |dirs| == |paths| && d < |dirs| && paths[d].Some?
    requires forall k :: k in done ==> k < |dirs|
    requires PathsSet(dirs, paths, done)
    ensures PathsSet(dirs, ChildPaths(dirs, dnames, paths, d), done + {d})
  {
    var paths' := ChildPaths(dirs, dnames, paths, d);
    forall k | 0 <= k < |dirs|
      ensures paths'[k].Some? <==> (k == 0 || exists p :: p in done + {d} && InSubdirs(dirs[p], k))
    {
      if InSubdirs(dirs[d], k) {
        assert d in done + {d};
      }
    }
  }

  lemma {:induction false} VisitKeepsFilesSet(dirs: seq<DirRecord>, fnames: seq<string>, fpaths: seq<Option<string>>, done: set<nat>, base: string, d: nat)
    requires |fpaths| == |fnames| && d < |dirs|
    requires forall k :: k in done ==> k < |dirs|
    requires FilesSet(dirs, fpaths, done)
    ensures FilesSet(dirs, FilePathsOf(dirs, fnames, fpaths, base, d), done + {d})
  {
    var fpaths' := FilePathsOf(dirs, fnames, fpaths, base, d);
    forall f | 0 <= f < |fpaths'|
      ensures fpaths'[f].Some? <==> exists p :: p in done + {d} && InFiles(dirs[p], f)
    {
      if InFiles(dirs[d], f) {
        assert d in done + {d};
      }
    }
  }

  lemma {:induction false} VisitKeepsInv(dirs: seq<DirRecord>, dnames: seq<string>, fnames: seq<string>, a: Arena, stack: seq<nat>, done: set<nat>)
    requires |dnames| == |dirs| && ChildrenFollow(dirs) && Inv(dirs, fnames, a, stack, done) && |stack| > 0
    requires RangesFit(dirs[stack[|stack| - 1]], |dirs|, |fnames|)
    ensures var d := stack[|stack| - 1];
            Inv(dirs, fnames, Visit(dirs, dnames, fnames, a, d),
                stack[..|stack| - 1] + Range(dirs[d].subdirsIndex, dirs[d].subdirsNb), done + {d})
  {
    var d := stack[|stack| - 1];
    var rest := stack[..|stack| - 1];
    assert StackOk(dirs, a.dirPaths, rest);
    VisitKeepsStack(dirs, dnames, a.dirPaths, rest, d);
    VisitKeepsDone(dirs, dnames, |fnames|, a.dirPaths, done, d);
    VisitKeepsLists(dirs, a.subdirs, a.files, done, d);
    VisitKeepsClosed(dirs, stack, done);
    VisitKeepsPathsSet(dirs, dnames, a.dirPaths, done, d);
    VisitKeepsFilesSet(dirs, fnames, a.filePaths, done, a.dirPaths[d].value, d);
  }

  lemma {:induction false} VisitKeepsFresh(dirs: seq<DirRecord>, stack: seq<nat>, done: set<nat>)
    requires |stack| > 0 && stack[|stack| - 1] < |dirs| && Reached(dirs, stack[|stack| - 1])
    requires Fresh(stack, done) && ParentsDone(dirs, stack, done)
    ensures var d := stack[|stack| - 1];
            Fresh(stack[..|stack| - 1] + Range(dirs[d].subdirsIndex, dirs[d].subdirsNb), done + {d})
  {
    var d := stack[|stack| - 1];
    var rest := stack[..|stack| - 1];
    var kids := Range(dirs[d].subdirsIndex, dirs[d].subdirsNb);
    var stack' := rest + kids;
    forall c: nat | InSubdirs(dirs[d], c)
      ensures c !in done && c !in stack
    {
      if c in done || c in stack {
        assert false;
      }
    }
    forall i, j | 0 <= i < j < |stack'|
      ensures stack'[i] != stack'[j]
    {
      if j >= |rest| {
        if i < |rest| {
          assert InSubdirs(dirs[d], stack'[j]);
          assert stack'[i] == stack[i];
        }
      } else {
        assert stack'[i] == stack[i] && stack'[j] == stack[j];
      }
    }
    forall i | 0 <= i < |stack'|
      ensures stack'[i] !in done + {d}
    {
      if i >= |rest| {
        assert InSubdirs(dirs[d], stack'[i]);
      } else {
        assert stack'[i] == stack[i];
      }
    }
  }

  lemma {:induction false} VisitKeepsParentsDone(dirs: seq<DirRecord>, stack: seq<nat>, done: set<nat>)
    requires |stack| > 0 && stack[|stack| - 1] < |dirs| && Reached(dirs, stack[|stack| - 1])
    requires SingleParent(dirs) && ParentsDone(dirs, stack, done)
    ensures var d := stack[|stack| - 1];
            ParentsDone(dirs, stack[..|stack| - 1] + Range(dirs[d].subdirsIndex, dirs[d].subdirsNb), done + {d})
  {
    var d := stack[|stack| - 1];
    var rest := stack[..|stack| - 1];
    var stack' := rest + Range(dirs[d].subdirsIndex, dirs[d].subdirsNb);
    forall p, k: nat | 0 <= p < |dirs| && Reached(dirs, p) && InSubdirs(dirs[p], k) && (k in done + {d} || k in stack')
      ensures p in done + {d}
    {
      if k in stack' {
        var i :| 0 <= i < |stack'| && stack'[i] == k;
        if i < |rest| {
          assert k in stack;
        } else {
          assert InSubdirs(dirs[d], k);
        }
      }
    }
  }

  /** Visiting `d` leaves the path of every popped row alone, since none of
      them is a child of `d`. */
  lemma {:induction false} VisitKeepsDonePaths(dirs: seq<DirRecord>, dnames: seq<string>, paths: seq<Option<string>>, done: set<nat>, d: nat)
    requires |dnames| == |dirs| == |paths| && ChildrenFollow(dirs) && d < |dirs| && paths[d].Some?
    requires forall k :: k in done ==> k < |dirs| && !InSubdirs(dirs[d], k)
    ensures var paths' := ChildPaths(dirs, dnames, paths, d);
            paths'[d] == paths[d] && forall k :: k in done ==> paths'[k] == paths[k]
  {
  }

  lemma {:induction false} VisitKeepsChildEqs(dirs: seq<DirRecord>, dnames: seq<string>, paths: seq<Option<string>>, done: set<nat>, d: nat)
    requires |dnames| == |dirs| == |paths| && ChildrenFollow(dirs) && d < |dirs| && Reached(dirs, d) && paths[d].Some?
    requires dirs[d].subdirsNb == 0 || dirs[d].subdirsIndex + dirs[d].subdirsNb <= |dirs|
    requires forall k :: k in done ==> k < |dirs| && Reached(dirs, k) && !InSubdirs(dirs[d], k)
    requires SingleParent(dirs)
    requires ChildEqs(dirs, dnames, paths, done)
    ensures ChildEqs(dirs, dnames, ChildPaths(dirs, dnames, paths, d), done + {d})
  {
    var paths' := ChildPaths(dirs, dnames, paths, d);
    VisitKeepsDonePaths(dirs, dnames, paths, done, d);
    forall p, c: nat | p in done + {d} && InSubdirs(dirs[p], c)
      ensures ChildPathIs(dnames, paths', p, c)
    {
      if p != d {
        assert ChildPathIs(dnames, paths, p, c);
        if InSubdirs(dirs[d], c) {
          assert false;
        }
        assert paths'[c] == paths[c];
      }
    }
  }

  lemma {:induction false} VisitKeepsFileEqs(dirs: seq<DirRecord>, dnames: seq<string>, fnames: seq<string>, paths: seq<Option<string>>,
                                             fpaths: seq<Option<string>>, done: set<nat>, d: nat)
    requires |dnames| == |dirs| == |paths| && |fnames| == |fpaths| && ChildrenFollow(dirs)
    requires d < |dirs| && Reached(dirs, d) && paths[d].Some?
    requires dirs[d].filesNb == 0 || dirs[d].filesIndex + dirs[d].filesNb <= |fnames|
    requires forall k :: k in done ==> k < |dirs| && Reached(dirs, k) && !InSubdirs(dirs[d], k)
    requires SingleParent(dirs)
    requires FileEqs(dirs, fnames, paths, fpaths, done)
    ensures FileEqs(dirs, fnames, ChildPaths(dirs, dnames, paths, d),
                    FilePathsOf(dirs, fnames, fpaths, paths[d].value, d), done + {d})
  {
    var paths' := ChildPaths(dirs, dnames, paths, d);
    var fpaths' := FilePathsOf(dirs, fnames, fpaths, paths[d].value, d);
    VisitKeepsDonePaths(dirs, dnames, paths, done, d);
    forall p, f: nat | p in done + {d} && InFiles(dirs[p], f)
      ensures FilePathIs(fnames, paths', fpaths', p, f)
    {
      if p != d {
        assert FilePathIs(fnames, paths, fpaths, p, f);
        if InFiles(dirs[d], f) {
          assert false;
        }
        assert fpaths'[f] == fpaths[f];
      }
    }
  }

  lemma {:induction false} VisitKeepsInvSP(dirs: seq<DirRecord>, dnames: seq<string>, fnames: seq<string>, a: Arena, stack: seq<nat>, done: set<nat>)
    requires |dnames| == |dirs| && ChildrenFollow(dirs) && SingleParent(dirs)
    requires Inv(dirs, fnames, a, stack, done) && |stack| > 0
    requires RangesFit(dirs[stack[|stack| - 1]], |dirs|, |fnames|)
    requires InvSP(dirs, dnames, fnames, a, stack, done)
    ensures var d := stack[|stack| - 1];
            var stack' := stack[..|stack| - 1] + Range(dirs[d].subdirsIndex, dirs[d].subdirsNb);
            Inv(dirs, fnames, Visit(dirs, dnames, fnames, a, d), stack', done + {d}) &&
            InvSP(dirs, dnames, fnames, Visit(dirs, dnames, fnames, a, d), stack', done + {d})
  {
    var d := stack[|stack| - 1];
    VisitKeepsInv(dirs, dnames, fnames, a, stack, done);
    assert d < |dirs| && Reached(dirs, d);
    forall k | k in done
      ensures k < |dirs| && Reached(dirs, k) && !InSubdirs(dirs[d], k)
    {
      if InSubdirs(dirs[d], k) {
        assert false;
      }
    }
    VisitKeepsFresh(dirs, stack, done);
    VisitKeepsParentsDone(dirs, stack, done);
    VisitKeepsChildEqs(dirs, dnames, a.dirPaths, done, d);
    VisitKeepsFileEqs(dirs, dnames, fnames, a.dirPaths, a.filePaths, done, d);
  }

  // ---------------------------------------------------------------------------
  // Why the `dirs_todo` loop ends

  /** Each row `s` waiting on the stack weighs 2^(n - s): popping a row and
      pushing its children, all later rows, makes the stack lighter. */
  function Weight(stack: seq<nat>, n: nat): nat
  {
    if stack == [] then 0
    else Weight(stack[..|stack| - 1], n) + (if stack[|stack| - 1] < n then Pow2(n - stack[|stack| - 1]) else 0)
  }

  lemma {:induction false} WeightAppend(s: seq<nat>, t: seq<nat>, n: nat)
    ensures Weight(s + t, n) == Weight(s, n) + Weight(t, n)
    decreases |t|
  {
    if t == [] {
      assert s + t == s;
    } else {
      WeightAppend(s, t[..|t| - 1], n);
      assert (s + t)[..|s + t| - 1] == s + t[..|t| - 1];
    }
  }

  /** The children `a .. a+m-1` weigh 2^(n+1-a) - 2^(n+1-a-m) together. */
  lemma {:induction false} RangeWeight(a: nat, m: nat, n: nat)
    requires a + m <= n
    ensures Weight(Range(a, m), n) + Pow2(n + 1 - (a + m)) == Pow2(n + 1 - a)
    decreases m
  {
    if m > 0 {
      RangeWeight(a, m - 1, n);
      assert Range(a, m)[..m - 1] == Range(a, m - 1);
      assert Pow2(n + 1 - (a + m - 1)) == 2 * Pow2(n + 1 - (a + m));
    }
  }

  lemma {:induction false} Pow2Mono(i: nat, j: nat)
    requires i <= j
    ensures Pow2(i) <= Pow2(j)
    decreases j
  {
    if i < j {
      Pow2Mono(i, j - 1);
    }
  }

  lemma {:induction false} VisitLightens(stack: seq<nat>, start: nat, m: nat, n: nat)
    requires |stack| > 0 && stack[|stack| - 1] < n
    requires m == 0 || (start > stack[|stack| - 1] && start + m <= n)
    ensures Weight(stack[..|stack| - 1] + Range(start, m), n) < Weight(stack, n)
  {
    var d := stack[|stack| - 1];
    WeightAppend(stack[..|stack| - 1], Range(start, m), n);
    if m > 0 {
      RangeWeight(start, m, n);
      Pow2Mono(n + 1 - start, n - d);
    } else {
      assert Range(start, m) == [];
    }
  }

  // ---------------------------------------------------------------------------
  // When the loop ends

  /** With the stack empty, the popped rows are exactly the reached ones. */
  lemma {:induction false} ReachedIsDone(dirs: seq<DirRecord>, done: set<nat>, k: nat)
    requires forall j :: j in done ==> j < |dirs|
    requires Closed(dirs, [], done)
    requires Reached(dirs, k)
    ensures k in done
    decreases k
  {
    if k != 0 {
      var p :| 0 <= p < k && Reached(dirs, p) && InSubdirs(dirs[p], k);
      ReachedIsDone(dirs, done, p);
    }
  }

  lemma {:induction false} FinalRebuilt(dirs: seq<DirRecord>, fnames: seq<string>, a: Arena, done: set<nat>)
    requires ChildrenFollow(dirs) && Inv(dirs, fnames, a, [], done)
    ensures forall k :: 0 <= k < |dirs| ==> (k in done <==> Reached(dirs, k))
    ensures AllFit(dirs, |fnames|) && Rebuilt(dirs, |fnames|, a)
  {
    forall k | 0 <= k < |dirs| && Reached(dirs, k)
      ensures k in done
    {
      ReachedIsDone(dirs, done, k);
    }
    forall k | 0 <= k < |dirs|
      ensures a.dirPaths[k].Some? <==> Reached(dirs, k)
    {
      if a.dirPaths[k].Some? && k != 0 {
        var p :| p in done && InSubdirs(dirs[p], k);
        assert p < k;
      }
    }
    forall f | 0 <= f < |fnames|
      ensures a.filePaths[f].Some? <==> exists p :: 0 <= p < |dirs| && Reached(dirs, p) && InFiles(dirs[p], f)
    {
      if exists p :: 0 <= p < |dirs| && Reached(dirs, p) && InFiles(dirs[p], f) {
        var p :| 0 <= p < |dirs| && Reached(dirs, p) && InFiles(dirs[p], f);
        assert p in done;
      }
    }
  }

  lemma {:induction false} FinalPaths(dirs: seq<DirRecord>, dnames: seq<string>, fnames: seq<string>, a: Arena, done: set<nat>)
    requires |dnames| == |dirs| && ChildrenFollow(dirs) && Inv(dirs, fnames, a, [], done)
    requires InvSP(dirs, dnames, fnames, a, [], done)
    ensures Rebuilt(dirs, |fnames|, a) && AllFit(dirs, |fnames|)
    ensures PathsFollowParents(dirs, dnames, fnames, a)
  {
    FinalRebuilt(dirs, fnames, a, done);
    forall p, k: nat | 0 <= p < |dirs| && Reached(dirs, p) && InSubdirs(dirs[p], k)
      ensures a.dirPaths[k] == Some(a.dirPaths[p].value + dnames[k] + "/")
    {
      assert ChildPathIs(dnames, a.dirPaths, p, k);
    }
    forall p, f: nat | 0 <= p < |dirs| && Reached(dirs, p) && InFiles(dirs[p], f)
      ensures a.filePaths[f] == Some(a.dirPaths[p].value + fnames[f])
    {
      assert FilePathIs(fnames, a.dirPaths, a.filePaths, p, f);
    }
  }

  // ---------------------------------------------------------------------------
  // The rebuild

  /** The fields before the loop: line 305 gives the root the path "", every
      other path is still `None` and every list is empty. */
  function Initial(nDirs: nat, nFiles: nat): (a: Arena)
    requires nDirs > 0
    ensures Shaped(a, nDirs, nFiles) && a.dirPaths[0] == Some("")
  {
    Arena(seq(nDirs, k => if k == 0 then Some("") else None), seq(nDirs, k => []), seq(nDirs, k => []),
          seq(nFiles, f => None))
  }

  lemma {:induction false} InitialInv(dirs: seq<DirRecord>, dnames: seq<string>, fnames: seq<string>)
    requires |dnames| == |dirs| > 0 && ChildrenFollow(dirs)
    ensures Inv(dirs, fnames, Initial(|dirs|, |fnames|), [0], {})
    ensures InvSP(dirs, dnames, fnames, Initial(|dirs|, |fnames|), [0], {})
  {
    var a := Initial(|dirs|, |fnames|);
    assert Reached(dirs, 0);
    assert [0][0] == 0;
    forall k | 0 <= k < |dirs|
      ensures a.dirPaths[k].Some? <==> k == 0
    {
    }
    assert forall p :: 0 <= p < |dirs| ==> !InSubdirs(dirs[p], 0);
  }

  /** A reached row whose ranges do not fit means some visited row does not. */
  lemma {:induction false} NotAllFit(dirs: seq<DirRecord>, nFiles: nat, d: nat)
    requires d < |dirs| && Reached(dirs, d) && !RangesFit(dirs[d], |dirs|, nFiles)
    ensures !AllFit(dirs, nFiles)
  {
  }

  /** One turn of lines 308-318 on the top of the stack: pop it, visit its
      subdirectory range (pushing each child) and then its file range. */
  method Turn(dirs: seq<DirRecord>, dnames: seq<string>, fnames: seq<string>, a: Arena, stack: seq<nat>)
    returns (r: Result<(Arena, seq<nat>)>)
    requires |dnames| == |dirs| && ChildrenFollow(dirs) && Shaped(a, |dirs|, |fnames|)
    requires |stack| > 0 && stack[|stack| - 1] < |dirs| && a.dirPaths[stack[|stack| - 1]].Some?
    ensures var d := stack[|stack| - 1];
            (r.Ok? <==> RangesFit(dirs[d], |dirs|, |fnames|)) &&
            (r.Err? ==> r.error == IndexOutOfRange) &&
            (r.Ok? ==> r.value == (Visit(dirs, dnames, fnames, a, d),
                                   stack[..|stack| - 1] + Range(dirs[d].subdirsIndex, dirs[d].subdirsNb)))
  {
    var d := stack[|stack| - 1];
    var rest := stack[..|stack| - 1];
    var sub := VisitSubdirs(dirs, dnames, a.dirPaths, d);
    if sub.Err? {
      return Err(sub.error);
    }
    var fil := VisitFiles(dirs, fnames, a.filePaths, a.dirPaths[d].value, d);
    if fil.Err? {
      return Err(fil.error);
    }
    var (paths, kids) := sub.value;
    var (fpaths, files) := fil.value;
    r := Ok((Arena(paths, a.subdirs[d := kids], a.files[d := files], fpaths), rest + kids));
  }

  /** Everything the loop keeps, in one place. */
  ghost predicate LoopInv(dirs: seq<DirRecord>, dnames: seq<string>, fnames: seq<string>, a: Arena, stack: seq<nat>, done: set<nat>)
    requires |dnames| == |dirs|
  {
    Inv(dirs, fnames, a, stack, done) && (SingleParent(dirs) ==> InvSP(dirs, dnames, fnames, a, stack, done))
  }

  /** A turn that succeeds keeps the loop invariant and lightens the stack. */
  lemma {:induction false} TurnKeepsLoopInv(dirs: seq<DirRecord>, dnames: seq<string>, fnames: seq<string>,
                                            a: Arena, stack: seq<nat>, done: set<nat>)
    requires |dnames| == |dirs| && ChildrenFollow(dirs) && LoopInv(dirs, dnames, fnames, a, stack, done) && |stack| > 0
    requires RangesFit(dirs[stack[|stack| - 1]], |dirs|, |fnames|)
    ensures var d := stack[|stack| - 1];
            var stack' := stack[..|stack| - 1] + Range(dirs[d].subdirsIndex, dirs[d].subdirsNb);
            LoopInv(dirs, dnames, fnames, Visit(dirs, dnames, fnames, a, d), stack', done + {d}) &&
            Weight(stack', |dirs|) < Weight(stack, |dirs|)
  {
    var d := stack[|stack| - 1];
    if SingleParent(dirs) {
      VisitKeepsInvSP(dirs, dnames, fnames, a, stack, done);
    } else {
      VisitKeepsInv(dirs, dnames, fnames, a, stack, done);
    }
    VisitLightens(stack, dirs[d].subdirsIndex, dirs[d].subdirsNb, |dirs|);
  }

  /** A turn that fails means a visited row whose ranges do not fit. */
  lemma {:induction false} TurnFails(dirs: seq<DirRecord>, dnames: seq<string>, fnames: seq<string>,
                                     a: Arena, stack: seq<nat>, done: set<nat>)
    requires |dnames| == |dirs| && LoopInv(dirs, dnames, fnames, a, stack, done) && |stack| > 0
    requires !RangesFit(dirs[stack[|stack| - 1]], |dirs|, |fnames|)
    ensures !AllFit(dirs, |fnames|)
  {
    NotAllFit(dirs, |fnames|, stack[|stack| - 1]);
  }

  /** With the stack empty, the fields are the rebuilt ones. */
  lemma {:induction false} LoopDone(dirs: seq<DirRecord>, dnames: seq<string>, fnames: seq<string>, a: Arena, done: set<nat>)
    requires |dnames| == |dirs| && ChildrenFollow(dirs) && LoopInv(dirs, dnames, fnames, a, [], done)
    ensures AllFit(dirs, |fnames|) && Rebuilt(dirs, |fnames|, a)
    ensures SingleParent(dirs) ==> PathsFollowParents(dirs, dnames, fnames, a)
  {
    FinalRebuilt(dirs, fnames, a, done);
    if SingleParent(dirs) {
      FinalPaths(dirs, dnames, fnames, a, done);
    }
  }

  /** Lines 305-320: give the root the path "", then take turns until the
      stack is empty. `directories[0]` on an empty table and an index past a
      table raise `IndexError`. */
  method Rebuild(dirs: seq<DirRecord>, dnames: seq<string>, fnames: seq<string>) returns (r: Result<Arena>)
    requires |dnames| == |dirs| && ChildrenFollow(dirs)
    ensures r.Ok? <==> |dirs| > 0 && AllFit(dirs, |fnames|)
    ensures r.Err? ==> r.error == IndexOutOfRange
    ensures r.Ok? ==> Rebuilt(dirs, |fnames|, r.value)
    ensures r.Ok? && SingleParent(dirs) ==> PathsFollowParents(dirs, dnames, fnames, r.value)
  {
    var n := |dirs|;
    if n == 0 {
      return Err(IndexOutOfRange);
    }
    var a := Initial(n, |fnames|);
    var stack: seq<nat> := [0];
    ghost var done: set<nat> := {};
    InitialInv(dirs, dnames, fnames);
    while |stack| > 0
      invariant LoopInv(dirs, dnames, fnames, a, stack, done)
      decreases Weight(stack, n)
    {
      ghost var d := stack[|stack| - 1];
      var turn := Turn(dirs, dnames, fnames, a, stack);
      if turn.Err? {
        TurnFails(dirs, dnames, fnames, a, stack, done);
        return Err(turn.error);
      }
      TurnKeepsLoopInv(dirs, dnames, fnames, a, stack, done);
      a, stack := turn.value.0, turn.value.1;
      done := done + {d};
    }
    LoopDone(dirs, dnames, fnames, a, done);
    r := Ok(a);
  }

  // ---------------------------------------------------------------------------
  // The tree `self.tree` points at

  /** What the rebuilt fields say about one visited row. */
  lemma {:induction false} RowFacts(dirs: seq<DirRecord>, nFiles: nat, a: Arena, k: nat)
    requires ChildrenFollow(dirs) && Rebuilt(dirs, nFiles, a) && AllFit(dirs, nFiles)
    requires k < |dirs| && Reached(dirs, k)
    ensures a.subdirs[k] == Range(dirs[k].subdirsIndex, dirs[k].subdirsNb)
    ensures a.files[k] == Range(dirs[k].filesIndex, dirs[k].filesNb)
    ensures forall c: nat :: InSubdirs(dirs[k], c) ==> k < c < |dirs| && Reached(dirs, c)
    ensures forall f: nat :: InFiles(dirs[k], f) ==> f < nFiles && a.filePaths[f].Some?
  {
    assert RangesFit(dirs[k], |dirs|, nFiles);
    forall f: nat | InFiles(dirs[k], f)
      ensures f < nFiles && a.filePaths[f].Some?
    {
      assert 0 <= k < |dirs| && Reached(dirs, k) && InFiles(dirs[k], f);
    }
  }

  /** The `Directory` object of row `k` as the rebuild leaves it: its name,
      its path, and the objects its `subdirs` and `files` lists hold. A row
      listed under two parents is one shared object, and so appears in both. */
  function TreeAt(dirs: seq<DirRecord>, dnames: seq<string>, fnames: seq<string>, a: Arena, k: nat): (t: Tree.Directory)
    requires |dnames| == |dirs| && ChildrenFollow(dirs) && Rebuilt(dirs, |fnames|, a) && AllFit(dirs, |fnames|)
    requires k < |dirs| && Reached(dirs, k)
    ensures t.name == dnames[k] && Some(t.path) == a.dirPaths[k]
    ensures |t.subdirs| == dirs[k].subdirsNb && |t.files| == dirs[k].filesNb
    decreases |dirs| - k
  {
    RowFacts(dirs, |fnames|, a, k);
    var kids := a.subdirs[k];
    var files := a.files[k];
    Tree.Directory(dnames[k], a.dirPaths[k].value,
      seq(|kids|, i requires 0 <= i < |kids| => TreeAt(dirs, dnames, fnames, a, kids[i])),
      seq(|files|, i requires 0 <= i < |files| => Tree.File(fnames[files[i]], a.filePaths[files[i]].value)))
  }

  /** When no row has two parents, every path in the rebuilt tree is its
      parent's path and its own name (with "/" after a directory name), and
      the root's path is "". */
  lemma {:induction false} TreePathsConsistent(dirs: seq<DirRecord>, dnames: seq<string>, fnames: seq<string>, a: Arena, k: nat)
    requires |dnames| == |dirs| && ChildrenFollow(dirs) && Rebuilt(dirs, |fnames|, a) && AllFit(dirs, |fnames|)
    requires k < |dirs| && Reached(dirs, k)
    requires PathsFollowParents(dirs, dnames, fnames, a)
    ensures Tree.PathsConsistent(TreeAt(dirs, dnames, fnames, a, k))
    ensures k == 0 ==> TreeAt(dirs, dnames, fnames, a, k).path == ""
    decreases |dirs| - k
  {
    var t := TreeAt(dirs, dnames, fnames, a, k);
    var kids := a.subdirs[k];
    var files := a.files[k];
    forall i | 0 <= i < |t.subdirs|
      ensures t.subdirs[i].path == t.path + t.subdirs[i].name + "/" && Tree.PathsConsistent(t.subdirs[i])
    {
      var c := kids[i];
      assert InSubdirs(dirs[k], c) && k < c < |dirs|;
      TreePathsConsistent(dirs, dnames, fnames, a, c);
    }
    forall f | f in t.files
      ensures f.path == t.path + f.name
    {
      var i :| 0 <= i < |t.files| && t.files[i] == f;
      assert InFiles(dirs[k], files[i]);
    }
  }
}

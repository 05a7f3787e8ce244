/** The directory tree that `ReleaseManifest.parse` returns as `self.tree`,
    and `Directory.list_files` (RADS/parsers.py:199-203). */
module Tree {

  /** A file as the tree holds it: its decoded name and the path the rebuild
      gave it. */
  datatype File = File(name: string, path: string)

  /** A directory with its path, its subdirectories and its files, each list
      in table order. */
  datatype Directory = Directory(name: string, path: string, subdirs: seq<Directory>, files: seq<File>)

  /** Line 200: `[f.path for f in self.files]`. */
  function OwnPaths(files: seq<File>): (paths: seq<string>)
    ensures |paths| == |files|
    ensures forall i :: 0 <= i < |files| ==> paths[i] == files[i].path
  {
    seq(|files|, i requires 0 <= i < |files| => files[i].path)
  }

  /** The listing in pre-order: the directory's own file paths, then the
      listing of each subdirectory in subdirectory order. */
  function Listing(d: Directory): (paths: seq<string>)
    ensures |paths| >= |d.files|
    ensures forall i :: 0 <= i < |d.files| ==> paths[i] == d.files[i].path
    decreases d, 1
  {
    OwnPaths(d.files) + ListingAll(d.subdirs)
  }

  function ListingAll(ds: seq<Directory>): seq<string>
    decreases ds, 0
  {
    if ds == [] then [] else ListingAll(ds[..|ds| - 1]) + Listing(ds[|ds| - 1])
  }

  /** `list_files` as the source writes it: start from the own paths, then
      extend by each subdirectory's listing in a loop. */
  method ListFiles(d: Directory) returns (files: seq<string>)
    ensures files == Listing(d)
    decreases d
  {
    files := OwnPaths(d.files);
    var i := 0;
    while i < |d.subdirs|
      invariant i <= |d.subdirs|
      invariant files == OwnPaths(d.files) + ListingAll(d.subdirs[..i])
    {
      var sub := ListFiles(d.subdirs[i]);
      assert d.subdirs[..i + 1][..i] == d.subdirs[..i];
      files := files + sub;
      i := i + 1;
    }
    assert d.subdirs[..i] == d.subdirs;
  }

  // ---------------------------------------------------------------------------
  // Independent descriptions of what a listing holds

  /** The number of files in the tree under `d`, `d`'s own included. */
  function FileCount(d: Directory): nat
    decreases d, 1
  {
    |d.files| + CountAll(d.subdirs)
  }

  function CountAll(ds: seq<Directory>): nat
    decreases ds, 0
  {
    if ds == [] then 0 else FileCount(ds[0]) + CountAll(ds[1..])
  }

  /** Some file in the tree under `d` has path `p`. */
  predicate HasFile(d: Directory, p: string)
    decreases d
  {
    (exists f :: f in d.files && f.path == p) ||
    (exists i :: 0 <= i < |d.subdirs| && HasFile(d.subdirs[i], p))
  }

  /** Every child directory's path is its parent's path, its name and "/";
      every file's path is its directory's path and its name. */
  predicate PathsConsistent(d: Directory)
    decreases d
  {
    (forall f :: f in d.files ==> f.path == d.path + f.name) &&
    (forall i :: 0 <= i < |d.subdirs| ==>
       d.subdirs[i].path == d.path + d.subdirs[i].name + "/" && PathsConsistent(d.subdirs[i]))
  }

  lemma {:induction false} ListingAllSplit(ds: seq<Directory>, k: nat)
    requires k <= |ds|
    ensures ListingAll(ds) == ListingAll(ds[..k]) + ListingAll(ds[k..])
    decreases |ds|
  {
    if k < |ds| {
      var init := ds[..|ds| - 1];
      assert init[..k] == ds[..k];
      ListingAllSplit(init, k);
      assert ds[k..][..|ds[k..]| - 1] == init[k..];
    } else {
      assert ds[k..] == [];
      assert ds[..k] == ds;
    }
  }

  /** The listing has exactly one entry per file in the tree. */
  lemma {:induction false} ListingLength(d: Directory)
    ensures |Listing(d)| == FileCount(d)
    decreases d, 1
  {
    ListingAllLength(d.subdirs);
  }

  lemma {:induction false} ListingAllLength(ds: seq<Directory>)
    ensures |ListingAll(ds)| == CountAll(ds)
    decreases ds, 0
  {
    if ds != [] {
      ListingAllSplit(ds, 1);
      assert ds[..1] == [ds[0]];
      assert ListingAll([ds[0]]) == Listing(ds[0]) by {
        assert [ds[0]][..0] == [];
      }
      ListingLength(ds[0]);
      ListingAllLength(ds[1..]);
    }
  }

  /** A path is listed exactly when some file of the tree has it. */
  lemma {:induction false} ListingMembers(d: Directory, p: string)
    ensures p in Listing(d) <==> HasFile(d, p)
    decreases d, 1
  {
    var own := OwnPaths(d.files);
    if p in own {
      var i :| 0 <= i < |own| && own[i] == p;
      assert d.files[i] in d.files;
    }
    if exists f :: f in d.files && f.path == p {
      var f :| f in d.files && f.path == p;
      var i :| 0 <= i < |d.files| && d.files[i] == f;
      assert own[i] == p;
    }
    ListingAllMembers(d.subdirs, p);
  }

  lemma {:induction false} ListingAllMembers(ds: seq<Directory>, p: string)
    ensures p in ListingAll(ds) <==> exists i :: 0 <= i < |ds| && HasFile(ds[i], p)
    decreases ds, 0
  {
    if ds != [] {
      var init, last := ds[..|ds| - 1], ds[|ds| - 1];
      ListingAllMembers(init, p);
      ListingMembers(last, p);
      if exists i :: 0 <= i < |ds| && HasFile(ds[i], p) {
        var i :| 0 <= i < |ds| && HasFile(ds[i], p);
        if i < |ds| - 1 {
          assert init[i] == ds[i];
        }
      }
      if exists i :: 0 <= i < |init| && HasFile(init[i], p) {
        var i :| 0 <= i < |init| && HasFile(init[i], p);
        assert ds[i] == init[i];
      }
    }
  }

  /** Then come the subdirectories' listings, one after the other in
      subdirectory order: the listing of subdirectory `k` sits right after
      the files and the listings of subdirectories 0..k-1. */
  lemma {:induction false} SubdirListingPosition(d: Directory, k: nat)
    requires k < |d.subdirs|
    ensures var start := |d.files| + |ListingAll(d.subdirs[..k])|;
            var sub := Listing(d.subdirs[k]);
            start + |sub| <= |Listing(d)| && Listing(d)[start..start + |sub|] == sub
  {
    var subs := d.subdirs;
    var own, before, sub, after := OwnPaths(d.files), ListingAll(subs[..k]), Listing(subs[k]), ListingAll(subs[k + 1..]);
    ListingAllSplit(subs, k + 1);
    assert subs[..k + 1][..k] == subs[..k];
    assert ListingAll(subs[..k + 1]) == before + sub;
    assert Listing(d) == (own + before) + sub + after;
    MiddleSlice(own + before, sub, after);
  }

  lemma MiddleSlice<T>(x: seq<T>, y: seq<T>, z: seq<T>)
    ensures (x + y + z)[|x|..|x| + |y|] == y
  {
  }

  /** When the paths are consistent, every listed path lies under the
      directory's own path. */
  lemma {:induction false} ListedUnderPath(d: Directory, p: string)
    requires PathsConsistent(d)
    requires p in Listing(d)
    ensures d.path <= p
    decreases d
  {
    ListingMembers(d, p);
    if exists f :: f in d.files && f.path == p {
    } else {
      var i :| 0 <= i < |d.subdirs| && HasFile(d.subdirs[i], p);
      var s := d.subdirs[i];
      ListingMembers(s, p);
      ListedUnderPath(s, p);
      assert d.path <= s.path;
    }
  }
}

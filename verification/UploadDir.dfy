/** `PruneDir` and the upload handler step by step on a directory object. */
module UploadDir {
  import opened Common
  import opened UploadSpec

  /** Inserting in any order of reading gives the listing. */
  lemma {:induction false} SortFilesKeeps(fs: seq<Entry>)
    ensures forall e :: e in SortFiles(fs) <==> e in fs
  {
    if fs != [] {
      var init, last := fs[..|fs| - 1], fs[|fs| - 1];
      SortFilesKeeps(init);
      InsertFileKeeps(SortFiles(init), last);
      assert fs == init + [last];
    }
  }

  lemma {:induction false} SortFilesOrdered(fs: seq<Entry>)
    requires forall i, j :: 0 <= i < j < |fs| ==> fs[i].path != fs[j].path
    ensures Ordered(SortFiles(fs))
  {
    if fs != [] {
      var init, last := fs[..|fs| - 1], fs[|fs| - 1];
      SortFilesOrdered(init);
      SortFilesKeeps(init);
      InsertFileOrdered(SortFiles(init), last);
    }
  }

  /** Names and sizes as `os.ReadDir` and `Info` give them, each file once. */
  ghost predicate Read(fs: seq<Entry>, dir: Files) {
    && (forall e :: e in fs ==> e.path in dir && e == EntryOf(dir, e.path))
    && (forall i, j :: 0 <= i < j < |fs| ==> fs[i].path != fs[j].path)
  }

  lemma SortedListing(fs: seq<Entry>, dir: Files)
    requires Read(fs, dir) && forall p :: p in dir ==> EntryOf(dir, p) in fs
    ensures SortFiles(fs) == Listing(dir)
  {
    SortFilesOrdered(fs);
    SortFilesKeeps(fs);
    ListingUnique(SortFiles(fs), dir);
  }

  lemma ReadNone(dir: Files)
    ensures SortFiles([]) == [] && Sum([]) == 0 && Read([], dir)
  {
  }

  /** Reading one more entry. */
  lemma ReadStep(fs: seq<Entry>, dir: Files, p: Path)
    requires Read(fs, dir) && p in dir && forall e :: e in fs ==> e.path != p
    ensures Read(fs + [EntryOf(dir, p)], dir)
    ensures Sum(SortFiles(fs + [EntryOf(dir, p)])) == Sum(SortFiles(fs)) + |dir[p].data|
    ensures forall e :: e in fs + [EntryOf(dir, p)] <==> e in fs || e == EntryOf(dir, p)
  {
    var e := EntryOf(dir, p);
    assert (fs + [e])[..|fs|] == fs;
    InsertFileSum(SortFiles(fs), e);
    assert forall i :: 0 <= i < |fs| ==> fs[i] in fs;
  }

  /** A directory within the cap is left alone. */
  lemma PruneIdle(dir: Files, maxBytes: int, keep: Option<Path>)
    requires Total(dir) <= maxBytes && maxBytes > 0
    ensures Prune(dir, maxBytes, keep) == (dir, Pruned(Total(dir), 0, 0))
  {
    hide Listing;
    assert Evict(Listing(dir), Total(dir), maxBytes, keep).0 == [];
    assert dir - Paths([]) == dir;
  }

  /** One turn of the removing loop. */
  lemma EvictTurn(fs: seq<Entry>, i: nat, gone: seq<Entry>, total: int, maxBytes: int, keep: Option<Path>)
    requires i < |fs| && total > maxBytes
    ensures var next := if IsKept(fs[i], keep) then gone else gone + [fs[i]];
      var left := if IsKept(fs[i], keep) then total else total - fs[i].size;
      gone + Evict(fs[i..], total, maxBytes, keep).0 == next + Evict(fs[i + 1..], left, maxBytes, keep).0
  {
    assert fs[i..][1..] == fs[i + 1..] && fs[i..][0] == fs[i];
    var left := if IsKept(fs[i], keep) then total else total - fs[i].size;
    var more := Evict(fs[i + 1..], left, maxBytes, keep).0;
    assert gone + ([fs[i]] + more) == (gone + [fs[i]]) + more;
  }

  lemma NothingGone(dir: Files)
    ensures dir - Paths([]) == dir && Sum([]) == 0
  {
  }

  lemma EvictEnd(fs: seq<Entry>, i: nat, gone: seq<Entry>, total: int, maxBytes: int, keep: Option<Path>)
    requires i <= |fs| && (i == |fs| || total <= maxBytes)
    ensures gone + Evict(fs[i..], total, maxBytes, keep).0 == gone
  {
  }

  lemma SumAppend(fs: seq<Entry>, gone: seq<Entry>, k: nat)
    requires k < |fs|
    ensures Sum(gone + [fs[k]]) == Sum(gone) + fs[k].size
    ensures Paths(gone + [fs[k]]) == Paths(gone) + {fs[k].path}
    decreases |gone|
  {
    if gone == [] {
      assert gone + [fs[k]] == [fs[k]];
      assert Sum([fs[k]]) == fs[k].size + Sum([fs[k]][1..]);
    } else {
      SumAppend(fs, gone[1..], k);
      assert (gone + [fs[k]])[1..] == gone[1..] + [fs[k]];
    }
    assert forall e :: e in gone + [fs[k]] <==> e in gone || e == fs[k];
  }

  class Directory {
    var files: Files

    constructor (files: Files)
      ensures this.files == files
    {
      this.files := files;
    }

    /** Reading the directory, in no particular order; directories and other non-regular entries are
        not part of `files`. */
    method ReadDir() returns (fs: seq<Entry>, total: nat)
      ensures SortFiles(fs) == Listing(files) && total == Total(files)
    {
      hide SortFiles, Sum, Read;
      fs, total := [], 0;
      assert SortFiles([]) == [] && Sum([]) == 0 && Read([], files) by { ReadNone(files); }
      var todo := files.Keys;
      while todo != {}
        invariant todo <= files.Keys
        invariant Read(fs, files)
        invariant forall e :: e in fs ==> e.path in files.Keys - todo
        invariant forall p :: p in files.Keys - todo ==> EntryOf(files, p) in fs
        invariant total == Sum(SortFiles(fs))
        decreases todo
      {
        var p :| p in todo;
        var e := EntryOf(files, p);
        ReadStep(fs, files, p);
        fs := fs + [e];
        total := total + e.size;
        todo := todo - {p};
      }
      SortedListing(fs, files);
    }

    /** `PruneDir`; the flag says whether it ends with the over-cap error. */
    method PruneDir(maxBytes: int, keep: Option<Path>) returns (r: Pruned, overCap: bool)
      modifies this
      ensures (files, r) == Prune(old(files), maxBytes, keep)
      ensures overCap <==> maxBytes > 0 && r.remaining > maxBytes
    {
      hide Evict, Listing, Total, Sum, SortFiles;
      if maxBytes <= 0 { return Pruned(0, 0, 0), false; }
      var read, remaining: int := ReadDir();
      if remaining <= maxBytes {
        PruneIdle(files, maxBytes, keep);
        return Pruned(remaining, 0, 0), false;
      }
      var fs := SortFiles(read);
      var removedFiles, removedBytes := RemoveOldest(fs, remaining, maxBytes, keep);
      remaining := remaining - removedBytes;
      return Pruned(remaining, removedFiles, removedBytes), remaining > maxBytes;
    }

    /** The removing loop of `PruneDir`. */
    method RemoveOldest(fs: seq<Entry>, total: int, maxBytes: int, keep: Option<Path>)
      returns (removedFiles: nat, removedBytes: nat)
      modifies this
      ensures var gone := Evict(fs, total, maxBytes, keep).0;
        files == old(files) - Paths(gone) && removedFiles == |gone| && removedBytes == Sum(gone)
    {
      hide Evict, Sum, Paths;
      removedFiles, removedBytes := 0, 0;
      ghost var gone: seq<Entry> := [];
      assert files - Paths(gone) == files && Sum(gone) == 0 by { NothingGone(files); }
      assert fs[0..] == fs;
      assert gone + Evict(fs, total, maxBytes, keep).0 == Evict(fs, total, maxBytes, keep).0;
      var i := 0;
      while i < |fs| && total - removedBytes > maxBytes
        invariant 0 <= i <= |fs|
        invariant Evict(fs, total, maxBytes, keep).0 == gone + Evict(fs[i..], total - removedBytes, maxBytes, keep).0
        invariant files == old(files) - Paths(gone) && removedFiles == |gone| && removedBytes == Sum(gone)
        decreases |fs| - i
      {
        EvictTurn(fs, i, gone, total - removedBytes, maxBytes, keep);
        if !IsKept(fs[i], keep) {
          files := files - {fs[i].path};
          SumAppend(fs, gone, i);
          gone := gone + [fs[i]];
          removedBytes := removedBytes + fs[i].size;
          removedFiles := removedFiles + 1;
        }
        i := i + 1;
      }
      EvictEnd(fs, i, gone, total - removedBytes, maxBytes, keep);
    }

    /** The store and prune part of `ServeHTTP`. */
    method Upload(cap: int, r: Request) returns (o: Outcome)
      modifies this
      ensures (files, o) == UploadSpec.Upload(old(files), cap, r)
    {
      hide Prune;
      if cap > 0 && r.contentLength > cap { return TooLarge; }
      if cap > 0 && |r.body| > cap { return TooLarge; }
      if r.broken { return BodyFailed; }
      if r.name == TMP_NAME { return PersistFailed; }
      files := files[r.name := Content(r.body, r.now)];
      if cap > 0 {
        var pruned, overCap := PruneDir(cap, Some(r.name));
        if overCap { return OverCap; }
      }
      return Accepted(|r.body|);
    }
  }
}

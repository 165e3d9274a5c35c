/** The `RotatingFile` object over an abstract directory, proved against `LogSpec`. */
module RotatingLog {
  import opened Common
  import opened LogSpec

  /** The bytes on disk are those of the records. */
  ghost predicate Matches(disk: map<nat, Bytes>, files: map<nat, seq<Bytes>>) {
    disk.Keys == files.Keys && forall i :: i in disk ==> disk[i] == Flat(files[i])
  }

  lemma RotatedMatches(disk: map<nat, Bytes>, files: map<nat, seq<Bytes>>, maxFiles: nat)
    requires Matches(disk, files) && maxFiles > 0
    ensures Matches(Rotated(disk, [], maxFiles), Rotated(files, [], maxFiles))
  {
    RotatedMeaning(disk, [], maxFiles);
    RotatedMeaning(files, [], maxFiles);
    var d, f := Rotated(disk, [], maxFiles), Rotated(files, [], maxFiles);
    hide Rotated;
    forall i: nat ensures i in d <==> i in f {
    }
  }

  lemma AppendMatches(disk: map<nat, Bytes>, files: map<nat, seq<Bytes>>, r: Bytes)
    requires Matches(disk, files) && 0 in files
    ensures Matches(disk[0 := disk[0] + r], files[0 := files[0] + [r]])
  {
    assert (files[0] + [r])[..|files[0]|] == files[0];
  }

  /** Any files found at start-up stand for some records, such as each non-empty file for one. */
  function Found(disk: map<nat, Bytes>): map<nat, seq<Bytes>> {
    map i | i in disk :: if disk[i] == [] then [] else [disk[i]]
  }

  lemma FoundMatches(disk: map<nat, Bytes>)
    ensures Matches(disk, Found(disk))
  {
    forall i | i in disk ensures disk[i] == Flat(Found(disk)[i]) {
      if disk[i] != [] { assert [disk[i]][..0] == []; }
    }
  }

  /** The disk in the middle of the rename loop: backups above `i` have moved up by one place. */
  ghost predicate Shifting(was: map<nat, Bytes>, now: map<nat, Bytes>, i: nat, maxFiles: nat) {
    && i + 1 < maxFiles && i + 1 !in now
    && (forall j: nat :: j <= i || j >= maxFiles ==> (j in now <==> j in was) && (j in now ==> now[j] == was[j]))
    && (forall j: nat :: i + 1 < j < maxFiles ==> (j in now <==> j - 1 in was) && (j in now ==> now[j] == was[j - 1]))
  }

  lemma ShiftedIsRotated(was: map<nat, Bytes>, now: map<nat, Bytes>, maxFiles: nat)
    requires maxFiles > 1 && 0 !in now
    requires forall j: nat :: 0 < j < maxFiles ==> (j in now <==> j - 1 in was) && (j in now ==> now[j] == was[j - 1])
    requires forall j: nat :: j >= maxFiles ==> (j in now <==> j in was) && (j in now ==> now[j] == was[j])
    ensures now[0 := []] == Rotated(was, [], maxFiles)
  {
    RotatedMeaning(was, [], maxFiles);
    var r := Rotated(was, [], maxFiles);
    hide Rotated;
    forall j: nat ensures j in now[0 := []] <==> j in r {
    }
  }

  /** With one file, rotation empties it. */
  lemma RotatedOne(was: map<nat, Bytes>, now: map<nat, Bytes>)
    requires now == (was - {0})[0 := []]
    ensures now == Rotated(was, [], 1)
  {
    RotatedMeaning(was, [], 1);
    var r := Rotated(was, [], 1);
    hide Rotated;
    forall j: nat ensures j in now <==> j in r {
    }
  }

  lemma ShiftStart(was: map<nat, Bytes>, now: map<nat, Bytes>, maxFiles: nat)
    requires maxFiles > 1 && now == was - {maxFiles - 1}
    ensures Shifting(was, now, maxFiles - 2, maxFiles)
  {
  }

  lemma ShiftStep(was: map<nat, Bytes>, now: map<nat, Bytes>, next: map<nat, Bytes>, i: nat, maxFiles: nat)
    requires Shifting(was, now, i, maxFiles) && i >= 1
    requires next == if i in now then (now - {i})[i + 1 := now[i]] else now
    ensures Shifting(was, next, i - 1, maxFiles)
  {
  }

  lemma ShiftEnd(was: map<nat, Bytes>, now: map<nat, Bytes>, next: map<nat, Bytes>, maxFiles: nat)
    requires Shifting(was, now, 0, maxFiles)
    requires next == if 0 in now then (now - {0})[1 := now[0]] else now
    ensures 0 !in next && next[0 := []] == Rotated(was, [], maxFiles)
  {
    ShiftedIsRotated(was, next, maxFiles);
  }

  class RotatingFile {
    const maxBytes: nat
    const maxFiles: nat
    /** The log's files by backup index; 0 is the path itself. */
    var disk: map<nat, Bytes>
    var size: nat
    ghost var files: map<nat, seq<Bytes>>

    ghost predicate Valid()
      reads this
    {
      && maxBytes > 0 && maxFiles > 0
      && 0 in disk && size == |disk[0]|
      && Matches(disk, files)
    }

    /** `NewRotatingFile` over the files found on disk, which stand for `records`. */
    constructor (found: map<nat, Bytes>, maxBytes: int, maxFiles: int, ghost records: map<nat, seq<Bytes>>)
      requires Matches(found, records)
      ensures Valid()
      ensures this.maxBytes == (if maxBytes <= 0 then 10_485_760 else maxBytes)
      ensures this.maxFiles == (if maxFiles <= 0 then 3 else maxFiles)
      ensures files == Opened(records, this.maxBytes, this.maxFiles)
    {
      this.maxBytes := if maxBytes <= 0 then DEFAULT_MAX_BYTES else maxBytes;
      this.maxFiles := if maxFiles <= 0 then DEFAULT_MAX_FILES else maxFiles;
      disk := found;
      size := 0;
      new;
      Open();
      files := if 0 in records then records else records[0 := []];
      if size >= this.maxBytes { Rotate(); }
    }

    /** `openLocked`. */
    method Open()
      modifies this`disk, this`size
      ensures disk == if 0 in old(disk) then old(disk) else old(disk)[0 := []]
      ensures size == |disk[0]|
    {
      if 0 !in disk { disk := disk[0 := []]; }
      size := |disk[0]|;
    }

    /** `os.Remove`, which may find nothing. */
    method Remove(i: nat)
      modifies this`disk
      ensures disk == old(disk) - {i}
    {
      disk := disk - {i};
    }

    /** `os.Rename`, which may find nothing; the target must not be a live file. */
    method Rename(i: nat, j: nat)
      requires i != j && j !in disk
      modifies this`disk
      ensures disk == if i in old(disk) then (old(disk) - {i})[j := old(disk)[i]] else old(disk)
    {
      if i in disk { disk := (disk - {i})[j := disk[i]]; }
    }

    /** `rotateLocked`: no rename overwrites a live backup, and together they shift the files. */
    method RotateDisk()
      requires maxFiles > 0 && 0 in disk
      modifies this`disk, this`size
      ensures disk == Rotated(old(disk), [], maxFiles) && size == 0
    {
      ghost var was := disk;
      RotatedMeaning(was, [], maxFiles);
      hide Rotated;
      if maxFiles <= 1 {
        Remove(0);
        Open();
        RotatedOne(was, disk);
        return;
      }
      Remove(maxFiles - 1);
      ShiftStart(was, disk, maxFiles);
      ShiftBackups(was);
      ghost var now := disk;
      Rename(0, 1);
      ShiftEnd(was, now, disk, maxFiles);
      Open();
    }

    /** The descending rename loop. */
    method ShiftBackups(ghost was: map<nat, Bytes>)
      requires maxFiles > 1 && Shifting(was, disk, maxFiles - 2, maxFiles)
      modifies this`disk
      ensures Shifting(was, disk, 0, maxFiles)
    {
      var i := maxFiles - 2;
      while i >= 1
        invariant 0 <= i && Shifting(was, disk, i, maxFiles)
      {
        ghost var now := disk;
        Rename(i, i + 1);
        ShiftStep(was, now, disk, i, maxFiles);
        i := i - 1;
      }
    }

    method Rotate()
      requires Valid()
      modifies this
      ensures Valid() && size == 0 && files == Rotated(old(files), [], maxFiles)
    {
      RotatedMatches(disk, files, maxFiles);
      RotatedMeaning(disk, [], maxFiles);
      RotateDisk();
      files := Rotated(files, [], maxFiles);
    }

    /** `Write`: the whole record counts as accepted even when it was trimmed. */
    method Write(p: Bytes) returns (accepted: nat)
      requires Valid()
      modifies this
      ensures Valid() && accepted == |p|
      ensures 0 in old(files) && files == Stored(old(files), Trim(p, maxBytes), maxBytes, maxFiles)
    {
      hide Trim, Rotated, Flat;
      accepted := |p|;
      var r := Trim(p, maxBytes);
      assert size == Size(files, 0);
      if size > 0 && size + |r| > maxBytes {
        Rotate();
      }
      AppendMatches(disk, files, r);
      disk := disk[0 := disk[0] + r];
      size := size + |r|;
      files := files[0 := files[0] + [r]];
    }
  }
}

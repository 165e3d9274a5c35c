/** Rotating log files as sequences of records: file 0 is the active one, file i its i-th backup. */
module LogSpec {
  import opened Common

  const DEFAULT_MAX_BYTES: nat := 10 * 1024 * 1024
  const DEFAULT_MAX_FILES: nat := 3

  /** "[log record truncated]" and a newline, in ASCII. */
  const TRUNCATED: Bytes := [
    91, 108, 111, 103, 32, 114, 101, 99, 111, 114, 100, 32,
    116, 114, 117, 110, 99, 97, 116, 101, 100, 93, 10]

  /** `trimRecord`. */
  function Trim(p: Bytes, maxBytes: int): Bytes {
    if maxBytes <= 0 || |p| <= maxBytes then p
    else if maxBytes <= |TRUNCATED| then p[|p| - maxBytes..]
    else TRUNCATED + p[|p| - (maxBytes - |TRUNCATED|)..]
  }

  function Flat(records: seq<Bytes>): Bytes {
    if records == [] then [] else Flat(records[..|records| - 1]) + records[|records| - 1]
  }

  function Size(files: map<nat, seq<Bytes>>, i: nat): nat { if i in files then |Flat(files[i])| else 0 }

  /** One rotation: each file becomes the next older backup, the oldest is lost, and the active file
      starts empty. Files from `maxFiles` on are not ours. */
  function Rotated<T>(files: map<nat, T>, empty: T, maxFiles: nat): map<nat, T> {
    (map j: nat | j < maxFiles && Fed(files, j) :: Feed(files, empty, j))
    + (map j | j in files && j >= maxFiles :: files[j])
    + map[0 := empty]
  }

  predicate Fed<T>(files: map<nat, T>, j: nat) { j == 0 || j - 1 in files }

  function Feed<T>(files: map<nat, T>, empty: T, j: nat): T
    requires Fed(files, j)
  {
    if j == 0 then empty else files[j - 1]
  }

  lemma RotatedMeaning<T>(files: map<nat, T>, empty: T, maxFiles: nat)
    requires maxFiles > 0
    ensures var r := Rotated(files, empty, maxFiles);
      && 0 in r && r[0] == empty
      && (forall j: nat :: 0 < j < maxFiles ==> (j in r <==> j - 1 in files))
      && (forall j: nat :: 0 < j < maxFiles && j in r ==> r[j] == files[j - 1])
      && (forall j: nat :: j >= maxFiles ==> (j in r <==> j in files))
      && (forall j: nat :: j >= maxFiles && j in r ==> r[j] == files[j])
  {
  }

  /** `Write` of a record that is already trimmed. */
  function Stored(files: map<nat, seq<Bytes>>, r: Bytes, maxBytes: nat, maxFiles: nat): map<nat, seq<Bytes>>
    requires 0 in files
  {
    var f := if Size(files, 0) > 0 && Size(files, 0) + |r| > maxBytes then Rotated(files, [], maxFiles) else files;
    f[0 := f[0] + [r]]
  }

  /** The records of files `from` .. 0, oldest first. */
  function Records(files: map<nat, seq<Bytes>>, n: nat): seq<Bytes> {
    if n == 0 then []
    else (if n - 1 in files then files[n - 1] else []) + Records(files, n - 1)
  }

  ghost predicate SuffixOf(a: seq<Bytes>, b: seq<Bytes>) {
    |a| <= |b| && a == b[|b| - |a|..]
  }

  lemma SuffixExtend(a: seq<Bytes>, b: seq<Bytes>, c: seq<Bytes>, r: Bytes)
    requires SuffixOf(a, b + [r]) && SuffixOf(b, c)
    ensures SuffixOf(a, c + [r])
  {
    var k := |c| - |b|;
    assert c == c[..k] + b;
    assert (c + [r])[|c| + 1 - |a|..] == (b + [r])[|b| + 1 - |a|..];
  }

  // ---------- one write ----------

  lemma {:induction false} RecordsSame(f: map<nat, seq<Bytes>>, g: map<nat, seq<Bytes>>, n: nat)
    requires forall i: nat :: i < n ==> (i in f <==> i in g) && (i in f ==> f[i] == g[i])
    ensures Records(f, n) == Records(g, n)
  {
    if n > 0 { RecordsSame(f, g, n - 1); }
  }

  lemma {:induction false} RecordsAppend(files: map<nat, seq<Bytes>>, r: Bytes, n: nat)
    requires 0 in files && n > 0
    ensures Records(files[0 := files[0] + [r]], n) == Records(files, n) + [r]
  {
    var g := files[0 := files[0] + [r]];
    if n == 1 {
      assert Records(files, 0) == [] && Records(g, 0) == [];
      assert files[0] + [r] + [] == files[0] + [] + [r];
    } else {
      RecordsAppend(files, r, n - 1);
      var old' := if n - 1 in files then files[n - 1] else [];
      assert old' + (Records(files, n - 1) + [r]) == old' + Records(files, n - 1) + [r];
    }
  }

  /** Rotation shifts the records of all files by one place. */
  lemma {:induction false} RecordsShift(files: map<nat, seq<Bytes>>, maxFiles: nat, n: nat)
    requires n < maxFiles
    ensures Records(Rotated(files, [], maxFiles), n + 1) == Records(files, n)
  {
    var g := Rotated(files, [], maxFiles);
    RotatedMeaning(files, [], maxFiles);
    hide Rotated;
    if n == 0 {
      assert Records(g, 0) == [] && g[0] == [];
    } else {
      RecordsShift(files, maxFiles, n - 1);
    }
  }

  /** What one write loses is the oldest file as a whole, or nothing. */
  lemma StoredIsSuffix(files: map<nat, seq<Bytes>>, r: Bytes, maxBytes: nat, maxFiles: nat)
    requires 0 in files && maxFiles > 0
    ensures SuffixOf(Records(Stored(files, r, maxBytes, maxFiles), maxFiles), Records(files, maxFiles) + [r])
  {
    hide Size;
    if Size(files, 0) > 0 && Size(files, 0) + |r| > maxBytes {
      RotationIsSuffix(files, r, maxFiles);
    } else {
      RecordsAppend(files, r, maxFiles);
      SuffixSelf(Records(files, maxFiles) + [r]);
    }
  }

  lemma SuffixSelf(a: seq<Bytes>)
    ensures SuffixOf(a, a)
  {
  }

  lemma SuffixTail(a: seq<Bytes>, b: seq<Bytes>)
    ensures SuffixOf(b, a + b)
  {
  }

  lemma RotationIsSuffix(files: map<nat, seq<Bytes>>, r: Bytes, maxFiles: nat)
    requires maxFiles > 0
    ensures var f := Rotated(files, [], maxFiles);
      0 in f && SuffixOf(Records(f[0 := f[0] + [r]], maxFiles), Records(files, maxFiles) + [r])
  {
    var g := Rotated(files, [], maxFiles);
    RotatedMeaning(files, [], maxFiles);
    hide Rotated, SuffixOf;
    RecordsAppend(g, r, maxFiles);
    RecordsShift(files, maxFiles, maxFiles - 1);
    var oldest := if maxFiles - 1 in files then files[maxFiles - 1] else [];
    var kept := Records(files, maxFiles - 1);
    assert Records(files, maxFiles) + [r] == oldest + (kept + [r]);
    SuffixTail(oldest, kept + [r]);
  }

  // ---------- opening ----------

  /** `NewRotatingFile`: create the active file if there is none, and rotate a full one away. */
  function Opened(files: map<nat, seq<Bytes>>, maxBytes: nat, maxFiles: nat): map<nat, seq<Bytes>> {
    var open := if 0 in files then files else files[0 := []];
    if Size(open, 0) >= maxBytes then Rotated(open, [], maxFiles) else open
  }

  /** Opening loses the oldest file as a whole, or nothing. */
  lemma OpenedIsSuffix(files: map<nat, seq<Bytes>>, maxBytes: nat, maxFiles: nat)
    requires 0 in files && maxFiles > 0
    ensures SuffixOf(Records(Opened(files, maxBytes, maxFiles), maxFiles), Records(files, maxFiles))
  {
    RecordsShift(files, maxFiles, maxFiles - 1);
    SuffixTail(if maxFiles - 1 in files then files[maxFiles - 1] else [], Records(files, maxFiles - 1));
    SuffixSelf(Records(files, maxFiles));
  }

  /** Whatever was found, an opened log has room in its active file: a file smaller than the cap is gone
      on with, none is begun empty, and one that reached or exceeds the cap becomes the first backup. */
  lemma OpenedHasRoom(files: map<nat, seq<Bytes>>, maxBytes: nat, maxFiles: nat)
    requires maxBytes > 0 && maxFiles > 0
    ensures var g := Opened(files, maxBytes, maxFiles);
      && 0 in g && Size(g, 0) < maxBytes
      && (0 !in files ==> g == files[0 := []])
      && (0 in files && |Flat(files[0])| < maxBytes ==> g == files)
      && (0 in files && |Flat(files[0])| >= maxBytes ==>
            g[0] == [] && (maxFiles > 1 ==> 1 in g && g[1] == files[0])
            && (forall j: nat :: 1 < j < maxFiles ==> (j in g <==> j - 1 in files))
            && (forall j: nat :: 1 < j < maxFiles && j in g ==> g[j] == files[j - 1]))
  {
    var open := if 0 in files then files else files[0 := []];
    RotatedMeaning(open, [], maxFiles);
    hide Rotated;
    assert Flat([]) == [];
  }

  lemma SuffixTrans(a: seq<Bytes>, b: seq<Bytes>, c: seq<Bytes>)
    requires SuffixOf(a, b) && SuffixOf(b, c)
    ensures SuffixOf(a, c)
  {
    assert c == c[..|c| - |b|] + b;
  }

  // ---------- whole runs ----------

  /** One write, or the program closing the log and opening it again with the same settings. */
  datatype Use = Written(record: Bytes) | Reopened

  function Used(files: map<nat, seq<Bytes>>, u: Use, maxBytes: nat, maxFiles: nat): (r: map<nat, seq<Bytes>>)
    requires 0 in files
    ensures 0 in r
  {
    match u
    case Written(p) => Stored(files, Trim(p, maxBytes), maxBytes, maxFiles)
    case Reopened => Opened(files, maxBytes, maxFiles)
  }

  function Run(start: map<nat, seq<Bytes>>, us: seq<Use>, maxBytes: nat, maxFiles: nat): (r: map<nat, seq<Bytes>>)
    requires 0 in start
    ensures 0 in r
  {
    if us == [] then start
    else Used(Run(start, us[..|us| - 1], maxBytes, maxFiles), us[|us| - 1], maxBytes, maxFiles)
  }

  /** The records written, each as it was stored. */
  function TrimAll(us: seq<Use>, maxBytes: int): seq<Bytes> {
    if us == [] then []
    else
      TrimAll(us[..|us| - 1], maxBytes)
      + (if us[|us| - 1].Written? then [Trim(us[|us| - 1].record, maxBytes)] else [])
  }

  /** From any files, after any writes and reopenings: oldest backup to active file is a suffix, cut at
      a record boundary, of what was there and all trimmed records since. */
  lemma {:induction false} LogIsSuffix(start: map<nat, seq<Bytes>>, us: seq<Use>, maxBytes: nat, maxFiles: nat)
    requires 0 in start && maxFiles > 0
    ensures SuffixOf(Records(Run(start, us, maxBytes, maxFiles), maxFiles),
                     Records(start, maxFiles) + TrimAll(us, maxBytes))
  {
    if us == [] {
      SuffixSelf(Records(start, maxFiles));
      assert Records(start, maxFiles) + TrimAll(us, maxBytes) == Records(start, maxFiles);
    } else {
      hide Stored, Opened, Records, Trim, SuffixOf;
      var init, u := us[..|us| - 1], us[|us| - 1];
      LogIsSuffix(start, init, maxBytes, maxFiles);
      var before := Run(start, init, maxBytes, maxFiles);
      var now := Records(Run(start, us, maxBytes, maxFiles), maxFiles);
      var all := Records(start, maxFiles) + TrimAll(init, maxBytes);
      match u
      case Written(p) =>
        StoredIsSuffix(before, Trim(p, maxBytes), maxBytes, maxFiles);
        SuffixExtend(now, Records(before, maxFiles), all, Trim(p, maxBytes));
        assert all + [Trim(p, maxBytes)] == Records(start, maxFiles) + TrimAll(us, maxBytes);
      case Reopened =>
        OpenedIsSuffix(before, maxBytes, maxFiles);
        SuffixTrans(now, Records(before, maxFiles), all);
        assert all == Records(start, maxFiles) + TrimAll(us, maxBytes);
    }
  }

  // ---------- bounds ----------

  /** At most `maxFiles` files without gaps, none over `maxBytes`, neighbours together over it. Only the
      active file may still be empty behind a full one, as after a reopening, unless `strict`. */
  ghost predicate Bounded(files: map<nat, seq<Bytes>>, maxBytes: nat, maxFiles: nat, strict: bool) {
    && 0 in files
    && (forall i :: i in files ==> i < maxFiles && Size(files, i) <= maxBytes)
    && (forall i :: i in files && i > 0 ==> Backed(files, i, maxBytes, strict))
  }

  /** Backup `i` has its newer neighbour, and the two are together over `maxBytes`. */
  predicate Backed(files: map<nat, seq<Bytes>>, i: nat, maxBytes: nat, strict: bool)
    requires i > 0
  {
    && i - 1 in files
    && (|| Size(files, i - 1) + Size(files, i) > maxBytes
        || (!strict && i == 1 && Size(files, 0) == 0 && Size(files, 1) == maxBytes))
  }

  /** A record that fits is kept as it is; a longer one becomes exactly `maxBytes` long and keeps its
      newest bytes, behind the marker when there is room for it. */
  lemma TrimFits(p: Bytes, maxBytes: nat)
    requires maxBytes > 0
    ensures var t := Trim(p, maxBytes); var marker := if maxBytes <= |TRUNCATED| then 0 else |TRUNCATED|;
      if |p| <= maxBytes then t == p
      else |t| == maxBytes && t[..marker] == TRUNCATED[..marker] && t[marker..] == p[|p| - (maxBytes - marker)..]
    ensures |TRUNCATED| == 23 && forall i :: 0 <= i < 23 ==> TRUNCATED[i] as char == "[log record truncated]\n"[i]
  {
  }

  lemma AppendSize(files: map<nat, seq<Bytes>>, r: Bytes)
    requires 0 in files
    ensures Size(files[0 := files[0] + [r]], 0) == Size(files, 0) + |r|
  {
    assert (files[0] + [r])[..|files[0]|] == files[0];
  }

  lemma FlatOne(r: Bytes)
    ensures Flat([r]) == r
  {
    assert [r][..0] == [];
  }

  lemma Loosened(files: map<nat, seq<Bytes>>, maxBytes: nat, maxFiles: nat, strict: bool)
    requires Bounded(files, maxBytes, maxFiles, strict)
    ensures Bounded(files, maxBytes, maxFiles, false)
  {
    forall i | i in files && i > 0 ensures Backed(files, i, maxBytes, false) {
      assert Backed(files, i, maxBytes, strict);
    }
  }

  lemma RotatedSize(files: map<nat, seq<Bytes>>, r: seq<Bytes>, maxFiles: nat, i: nat)
    requires maxFiles > 0 && forall j :: j in files ==> j < maxFiles
    requires i in Rotated(files, [], maxFiles)[0 := r]
    ensures var s := Size(Rotated(files, [], maxFiles)[0 := r], i);
      if i == 0 then s == |Flat(r)| else i < maxFiles && i - 1 in files && s == Size(files, i - 1)
  {
    RotatedMeaning(files, [], maxFiles);
    hide Rotated, Flat;
  }

  /** Behind a rotation of a file that is not empty, with a new active file `r`, each backup is backed. */
  lemma RotatedBacked(files: map<nat, seq<Bytes>>, r: seq<Bytes>, maxBytes: nat, maxFiles: nat, strict: bool, i: nat)
    requires Bounded(files, maxBytes, maxFiles, strict) && maxFiles > 0 && 0 < Size(files, 0)
    requires Size(files, 0) + |Flat(r)| > maxBytes || (!strict && r == [] && Size(files, 0) == maxBytes)
    requires i > 0 && i in Rotated(files, [], maxFiles)[0 := r]
    ensures Backed(Rotated(files, [], maxFiles)[0 := r], i, maxBytes, strict)
  {
    RotatedMeaning(files, [], maxFiles);
    RotatedSize(files, r, maxFiles, i);
    if i > 1 { assert Backed(files, i - 1, maxBytes, strict); }
    RotatedSize(files, r, maxFiles, i - 1);
    assert Flat([]) == [];
    hide Rotated, Size, Flat, Bounded;
  }

  lemma RotatedBounded(files: map<nat, seq<Bytes>>, r: seq<Bytes>, maxBytes: nat, maxFiles: nat, strict: bool)
    requires Bounded(files, maxBytes, maxFiles, strict) && maxFiles > 0 && 0 < Size(files, 0)
    requires |Flat(r)| <= maxBytes
    requires Size(files, 0) + |Flat(r)| > maxBytes || (!strict && r == [] && Size(files, 0) == maxBytes)
    ensures Bounded(Rotated(files, [], maxFiles)[0 := r], maxBytes, maxFiles, strict)
  {
    hide Rotated, Size, Flat, Backed;
    var g := Rotated(files, [], maxFiles)[0 := r];
    forall i | i in g ensures i < maxFiles && Size(g, i) <= maxBytes {
      RotatedSize(files, r, maxFiles, i);
    }
    forall i | i in g && i > 0 ensures Backed(g, i, maxBytes, strict) {
      RotatedBacked(files, r, maxBytes, maxFiles, strict, i);
    }
  }

  lemma StoredBounded(files: map<nat, seq<Bytes>>, r: Bytes, maxBytes: nat, maxFiles: nat, strict: bool)
    requires Bounded(files, maxBytes, maxFiles, strict) && |r| <= maxBytes && maxFiles > 0
    ensures Bounded(Stored(files, r, maxBytes, maxFiles), maxBytes, maxFiles, strict)
  {
    if Size(files, 0) > 0 && Size(files, 0) + |r| > maxBytes {
      RotatedMeaning(files, [], maxFiles);
      FlatOne(r);
      RotatedBounded(files, [r], maxBytes, maxFiles, strict);
      assert [] + [r] == [r];
    } else {
      var g := files[0 := files[0] + [r]];
      AppendSize(files, r);
      hide Flat, Rotated;
      forall i | i in g && i > 0 ensures Backed(g, i, maxBytes, strict) {
        assert Backed(files, i, maxBytes, strict);
      }
    }
  }

  lemma OpenedBounded(files: map<nat, seq<Bytes>>, maxBytes: nat, maxFiles: nat)
    requires Bounded(files, maxBytes, maxFiles, false) && maxBytes > 0 && maxFiles > 0
    ensures Bounded(Opened(files, maxBytes, maxFiles), maxBytes, maxFiles, false)
  {
    if Size(files, 0) >= maxBytes {
      RotatedMeaning(files, [], maxFiles);
      RotatedBounded(files, [], maxBytes, maxFiles, false);
      var r := Rotated(files, [], maxFiles);
      assert r[0 := []] == r;
    }
  }

  /** Reopening keeps the strict bound exactly when the active file is not full or there are no backups. */
  lemma OpenedStrictIff(files: map<nat, seq<Bytes>>, maxBytes: nat, maxFiles: nat)
    requires Bounded(files, maxBytes, maxFiles, true) && maxBytes > 0 && maxFiles > 0
    ensures Bounded(Opened(files, maxBytes, maxFiles), maxBytes, maxFiles, true)
      <==> Size(files, 0) < maxBytes || maxFiles == 1
  {
    var g := Rotated(files, [], maxFiles);
    RotatedMeaning(files, [], maxFiles);
    Loosened(files, maxBytes, maxFiles, true);
    OpenedBounded(files, maxBytes, maxFiles);
    hide Rotated;
    if Size(files, 0) >= maxBytes {
      assert g[0] == [] && Size(g, 0) == 0;
      if maxFiles > 1 {
        assert 1 in g && Size(g, 1) == Size(files, 0);
        assert !Backed(g, 1, maxBytes, true);
      }
    }
  }

  ghost predicate NoReopening(us: seq<Use>) { forall u :: u in us ==> u.Written? }

  /** A log within its bounds stays within them, through every write and every reopening; strictly so
      while it is not reopened. */
  lemma {:induction false} LogBounded(start: map<nat, seq<Bytes>>, us: seq<Use>, maxBytes: nat, maxFiles: nat, strict: bool)
    requires maxBytes > 0 && maxFiles > 0 && Bounded(start, maxBytes, maxFiles, strict)
    requires strict ==> NoReopening(us)
    ensures Bounded(Run(start, us, maxBytes, maxFiles), maxBytes, maxFiles, strict)
  {
    if us != [] {
      hide Stored, Opened, Trim, Bounded;
      var init, u := us[..|us| - 1], us[|us| - 1];
      assert u in us;
      LogBounded(start, init, maxBytes, maxFiles, strict);
      var files := Run(start, init, maxBytes, maxFiles);
      match u
      case Written(p) =>
        TrimFits(p, maxBytes);
        StoredBounded(files, Trim(p, maxBytes), maxBytes, maxFiles, strict);
      case Reopened => OpenedBounded(files, maxBytes, maxFiles);
    }
  }

  /** A log that starts in an empty directory is within its bounds. */
  lemma NewBounded(maxBytes: nat, maxFiles: nat)
    requires maxBytes > 0 && maxFiles > 0
    ensures Bounded(Opened(map[], maxBytes, maxFiles), maxBytes, maxFiles, true)
    ensures Records(Opened(map[], maxBytes, maxFiles), maxFiles) == []
  {
    var files: map<nat, seq<Bytes>> := map[0 := []];
    assert Opened(map[], maxBytes, maxFiles) == files;
    NoRecords(files, maxFiles);
  }

  lemma {:induction false} NoRecords(files: map<nat, seq<Bytes>>, n: nat)
    requires forall i :: i in files ==> files[i] == []
    ensures Records(files, n) == []
  {
    if n > 0 { NoRecords(files, n - 1); }
  }

  // ---------- how much is kept ----------

  function Total(files: map<nat, seq<Bytes>>, n: nat): nat {
    if n == 0 then 0 else Size(files, n - 1) + Total(files, n - 1)
  }

  /** Until every file exists nothing is lost. */
  lemma {:induction false} LostMeansFull(start: map<nat, seq<Bytes>>, us: seq<Use>, maxBytes: nat, maxFiles: nat)
    requires maxBytes > 0 && maxFiles > 0 && Bounded(start, maxBytes, maxFiles, false)
    ensures var files := Run(start, us, maxBytes, maxFiles);
      |Records(files, maxFiles)| < |Records(start, maxFiles)| + |TrimAll(us, maxBytes)| ==> maxFiles - 1 in files
  {
    if us != [] {
      hide Stored, Opened, Trim, Bounded, Records;
      var init, u := us[..|us| - 1], us[|us| - 1];
      var files := Run(start, init, maxBytes, maxFiles);
      LostMeansFull(start, init, maxBytes, maxFiles);
      LogBounded(start, init, maxBytes, maxFiles, false);
      match u
      case Written(p) => StoredLoses(files, Trim(p, maxBytes), maxBytes, maxFiles);
      case Reopened => OpenedLoses(files, maxBytes, maxFiles);
    }
  }

  /** A rotation loses nothing unless every file exists, and then every file exists behind it. */
  lemma RotationLoses(files: map<nat, seq<Bytes>>, maxBytes: nat, maxFiles: nat)
    requires Bounded(files, maxBytes, maxFiles, false) && maxFiles > 0
    ensures var g := Rotated(files, [], maxFiles);
      && |Records(g, maxFiles)| <= |Records(files, maxFiles)|
      && (maxFiles - 1 in files ==> maxFiles - 1 in g)
      && (maxFiles - 1 !in files ==> |Records(g, maxFiles)| == |Records(files, maxFiles)|)
  {
    RotatedMeaning(files, [], maxFiles);
    RecordsShift(files, maxFiles, maxFiles - 1);
    hide Rotated;
    if maxFiles > 1 && maxFiles - 1 in files { assert Backed(files, maxFiles - 1, maxBytes, false); }
  }

  lemma OpenedLoses(files: map<nat, seq<Bytes>>, maxBytes: nat, maxFiles: nat)
    requires Bounded(files, maxBytes, maxFiles, false) && maxFiles > 0
    ensures var g := Opened(files, maxBytes, maxFiles);
      && (maxFiles - 1 in files ==> maxFiles - 1 in g)
      && (|Records(g, maxFiles)| < |Records(files, maxFiles)| ==> maxFiles - 1 in g)
      && |Records(g, maxFiles)| <= |Records(files, maxFiles)|
  {
    RotationLoses(files, maxBytes, maxFiles);
  }

  lemma StoredLoses(files: map<nat, seq<Bytes>>, r: Bytes, maxBytes: nat, maxFiles: nat)
    requires Bounded(files, maxBytes, maxFiles, false) && maxFiles > 0
    ensures var g := Stored(files, r, maxBytes, maxFiles);
      && |Records(g, maxFiles)| <= |Records(files, maxFiles)| + 1
      && (|Records(g, maxFiles)| <= |Records(files, maxFiles)| || maxFiles - 1 in files ==> maxFiles - 1 in g)
  {
    if Size(files, 0) > 0 && Size(files, 0) + |r| > maxBytes {
      RotationLoses(files, maxBytes, maxFiles);
      RecordsAppend(Rotated(files, [], maxFiles), r, maxFiles);
    } else {
      RecordsAppend(files, r, maxFiles);
    }
  }

  /** One more pair of files; the first pair may need the slack. */
  lemma OnePairMore(n: nat, m: nat, pair: nat, rest: nat, slack: nat)
    requires n >= 2 && rest + slack >= (n - 2) / 2 * m
    requires pair + (if n == 2 then slack else 0) >= m
    ensures pair + rest + slack >= n / 2 * m
  {
    if n == 2 {
      assert n / 2 * m == m;
    } else {
      assert n / 2 == (n - 2) / 2 + 1;
      assert n / 2 * m == (n - 2) / 2 * m + m;
    }
  }

  /** The one byte that may be missing while the active file is empty. */
  function Slack(files: map<nat, seq<Bytes>>, strict: bool): nat {
    if !strict && Size(files, 0) == 0 then 1 else 0
  }

  lemma PairAt(files: map<nat, seq<Bytes>>, maxBytes: nat, maxFiles: nat, n: nat, strict: bool)
    requires Bounded(files, maxBytes, maxFiles, strict) && n >= 2 && n - 1 in files
    ensures n > 2 ==> n - 3 in files
    ensures Size(files, n - 1) + Size(files, n - 2) + (if n == 2 then Slack(files, strict) else 0) > maxBytes
  {
    hide Size;
    assert Backed(files, n - 1, maxBytes, strict);
    assert n > 2 ==> Backed(files, n - 2, maxBytes, strict);
  }

  lemma {:induction false} PairsTotal(files: map<nat, seq<Bytes>>, maxBytes: nat, maxFiles: nat, n: nat, strict: bool)
    requires Bounded(files, maxBytes, maxFiles, strict) && (n > 0 ==> n - 1 in files)
    ensures Total(files, n) + Slack(files, strict) >= n / 2 * (maxBytes + 1)
  {
    hide Bounded, Size, Slack;
    if n >= 2 {
      PairAt(files, maxBytes, maxFiles, n, strict);
      PairsTotal(files, maxBytes, maxFiles, n - 2, strict);
      var pair, rest := Size(files, n - 1) + Size(files, n - 2), Total(files, n - 2);
      assert Total(files, n) == Size(files, n - 1) + Total(files, n - 1) == pair + rest;
      OnePairMore(n, maxBytes + 1, pair, rest, Slack(files, strict));
    }
  }

  /** Retention: whenever a record has been lost, each pair of neighbouring files keeps more than one
      file's capacity, so the log still holds more than `maxFiles / 2`, rounded down, full files; or
      one byte less, in a log that was reopened and whose active file is empty. */
  lemma Retention(start: map<nat, seq<Bytes>>, us: seq<Use>, maxBytes: nat, maxFiles: nat, strict: bool)
    requires maxBytes > 0 && maxFiles > 0 && Bounded(start, maxBytes, maxFiles, strict)
    requires strict ==> NoReopening(us)
    ensures var files := Run(start, us, maxBytes, maxFiles);
      |Records(files, maxFiles)| < |Records(start, maxFiles)| + |TrimAll(us, maxBytes)| ==>
        Total(files, maxFiles) + Slack(files, strict) >= maxFiles / 2 * (maxBytes + 1)
  {
    hide Run, Records, TrimAll;
    var files := Run(start, us, maxBytes, maxFiles);
    hide Bounded;
    Loosened(start, maxBytes, maxFiles, strict);
    LostMeansFull(start, us, maxBytes, maxFiles);
    LogBounded(start, us, maxBytes, maxFiles, strict);
    if |Records(files, maxFiles)| < |Records(start, maxFiles)| + |TrimAll(us, maxBytes)| {
      PairsTotal(files, maxBytes, maxFiles, maxFiles, strict);
    }
  }
}

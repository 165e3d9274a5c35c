/** The upload directory and its storage cap. */
module UploadSpec {
  import opened Common

  /** A file name inside the upload directory. */
  type Path = Bytes

  datatype Content = Content(data: Bytes, modTime: Time)

  /** The regular files of the directory. */
  type Files = map<Path, Content>

  /** `uploadFile`. */
  datatype Entry = Entry(path: Path, size: nat, modTime: Time)

  function EntryOf(dir: Files, p: Path): Entry
    requires p in dir
  {
    Entry(p, |dir[p].data|, dir[p].modTime)
  }

  // ---------- the order of eviction ----------

  /** Go's `<` on strings. */
  predicate LexLess(a: Path, b: Path) {
    if b == [] then false
    else if a == [] then true
    else a[0] < b[0] || (a[0] == b[0] && LexLess(a[1..], b[1..]))
  }

  /** The comparison given to `sort.Slice`: older first, then by path. */
  predicate Older(a: Entry, b: Entry) {
    if a.modTime == b.modTime then LexLess(a.path, b.path) else a.modTime < b.modTime
  }

  lemma {:induction false} LexTransitive(a: Path, b: Path, c: Path)
    requires LexLess(a, b) && LexLess(b, c)
    ensures LexLess(a, c)
  {
    if a != [] && a[0] == b[0] && b[0] == c[0] { LexTransitive(a[1..], b[1..], c[1..]); }
  }

  lemma {:induction false} LexTotal(a: Path, b: Path)
    ensures !LexLess(a, a) && (a == b || LexLess(a, b) || LexLess(b, a)) && !(LexLess(a, b) && LexLess(b, a))
  {
    if a != [] { LexTotal(a[1..], a[1..]); }
    if a != [] && b != [] {
      LexTotal(a[1..], b[1..]);
      assert a == [a[0]] + a[1..] && b == [b[0]] + b[1..];
    }
  }

  lemma OlderTransitive(a: Entry, b: Entry, c: Entry)
    requires Older(a, b) && Older(b, c)
    ensures Older(a, c)
  {
    if a.modTime == b.modTime == c.modTime { LexTransitive(a.path, b.path, c.path); }
  }

  lemma OlderTotal(a: Entry, b: Entry)
    ensures !Older(a, a) && !(Older(a, b) && Older(b, a))
    ensures a.path != b.path ==> Older(a, b) || Older(b, a)
  {
    LexTotal(a.path, b.path);
  }

  /** Oldest first, recursively: the head is older than everything behind it. */
  ghost predicate Ordered(fs: seq<Entry>) {
    fs == [] || ((forall e :: e in fs[1..] ==> Older(fs[0], e)) && Ordered(fs[1..]))
  }

  /** Insertion in order; `sort.Slice` is modelled by inserting one entry after the other. */
  function InsertFile(fs: seq<Entry>, x: Entry): seq<Entry> {
    if fs == [] then [x]
    else if Older(x, fs[0]) then [x] + fs
    else [fs[0]] + InsertFile(fs[1..], x)
  }

  function SortFiles(fs: seq<Entry>): seq<Entry> {
    if fs == [] then [] else InsertFile(SortFiles(fs[..|fs| - 1]), fs[|fs| - 1])
  }

  lemma {:induction false} InsertFileKeeps(fs: seq<Entry>, x: Entry)
    ensures forall e :: e in InsertFile(fs, x) <==> e == x || e in fs
  {
    if fs != [] {
      assert fs == [fs[0]] + fs[1..];
      InsertFileKeeps(fs[1..], x);
    }
  }

  lemma {:induction false} InsertFileOrdered(fs: seq<Entry>, x: Entry)
    requires Ordered(fs) && forall e :: e in fs ==> e.path != x.path
    ensures Ordered(InsertFile(fs, x))
  {
    if fs != [] {
      var r := InsertFile(fs, x);
      assert fs[0] in fs;
      if Older(x, fs[0]) {
        assert r[1..] == fs;
        forall e | e in fs ensures Older(x, e) {
          if e != fs[0] {
            assert e in fs[1..];
            OlderTransitive(x, fs[0], e);
          }
        }
      } else {
        OlderTotal(x, fs[0]);
        InsertFileOrdered(fs[1..], x);
        InsertFileKeeps(fs[1..], x);
        assert r[1..] == InsertFile(fs[1..], x);
      }
    }
  }

  /** `fs` lists the directory, oldest first. */
  ghost predicate Lists(fs: seq<Entry>, dir: Files) {
    && Ordered(fs)
    && (forall e :: e in fs ==> e.path in dir && e == EntryOf(dir, e.path))
    && (forall p :: p in dir ==> EntryOf(dir, p) in fs)
  }

  lemma {:induction false} OrderedUnique(fs: seq<Entry>, gs: seq<Entry>)
    requires Ordered(fs) && Ordered(gs) && forall e :: e in fs <==> e in gs
    ensures fs == gs
  {
    assert gs != [] ==> gs[0] in gs;
    if fs != [] {
      assert fs[0] in gs && gs[0] in fs;
      SameHead(fs, gs);
      NotInTail(fs);
      NotInTail(gs);
      forall e ensures e in fs[1..] <==> e in gs[1..] {
        assert e in fs <==> e == fs[0] || e in fs[1..];
        assert e in gs <==> e == gs[0] || e in gs[1..];
      }
      OrderedUnique(fs[1..], gs[1..]);
      assert fs == [fs[0]] + fs[1..] && gs == [gs[0]] + gs[1..];
    }
  }

  lemma NotInTail(fs: seq<Entry>)
    requires Ordered(fs) && fs != []
    ensures fs[0] !in fs[1..]
  {
    OlderTotal(fs[0], fs[0]);
  }

  lemma SameHead(fs: seq<Entry>, gs: seq<Entry>)
    requires Ordered(fs) && Ordered(gs) && fs != [] && gs != [] && fs[0] in gs && gs[0] in fs
    ensures fs[0] == gs[0]
  {
    OlderTotal(fs[0], gs[0]);
    assert forall e :: e in fs ==> e == fs[0] || e in fs[1..];
    assert forall e :: e in gs ==> e == gs[0] || e in gs[1..];
  }

  /** The listing of a directory. */
  ghost function Listing(dir: Files): (fs: seq<Entry>)
    ensures Lists(fs, dir)
    decreases |dir|
  {
    if dir == map[] then []
    else
      var p :| p in dir;
      var rest := dir - {p};
      assert p !in rest && |rest| < |dir| by { assert dir.Keys == rest.Keys + {p}; }
      ListingStep(dir, p, Listing(rest));
      InsertFile(Listing(rest), EntryOf(dir, p))
  }

  lemma ListingStep(dir: Files, p: Path, fs: seq<Entry>)
    requires p in dir && Lists(fs, dir - {p})
    ensures Lists(InsertFile(fs, EntryOf(dir, p)), dir)
  {
    InsertFileOrdered(fs, EntryOf(dir, p));
    InsertFileKeeps(fs, EntryOf(dir, p));
    forall q | q in dir ensures EntryOf(dir, q) in InsertFile(fs, EntryOf(dir, p)) {
      if q != p { assert EntryOf(dir - {p}, q) in fs; }
    }
  }

  lemma ListingUnique(fs: seq<Entry>, dir: Files)
    requires Lists(fs, dir)
    ensures fs == Listing(dir)
  {
    var gs := Listing(dir);
    forall e ensures e in fs <==> e in gs {
      if e.path in dir { assert EntryOf(dir, e.path) in fs && EntryOf(dir, e.path) in gs; }
    }
    OrderedUnique(fs, gs);
  }

  // ---------- eviction ----------

  function Sum(fs: seq<Entry>): nat {
    if fs == [] then 0 else fs[0].size + Sum(fs[1..])
  }

  ghost function Total(dir: Files): nat { Sum(Listing(dir)) }

  lemma {:induction false} InsertFileSum(fs: seq<Entry>, x: Entry)
    ensures Sum(InsertFile(fs, x)) == x.size + Sum(fs)
  {
    if fs == [] {
      assert Sum([x]) == x.size + Sum([x][1..]);
    } else {
      var r := InsertFile(fs, x);
      if Older(x, fs[0]) {
        assert r[1..] == fs;
      } else {
        InsertFileSum(fs[1..], x);
        assert r[1..] == InsertFile(fs[1..], x);
      }
    }
  }

  /** The total is the number of bytes in the directory's files, each counted once. */
  lemma TotalIsBytes(dir: Files, p: Path, f: Content)
    ensures Total(map[]) == 0
    ensures p !in dir ==> Total(dir[p := f]) == Total(dir) + |f.data|
  {
    if p !in dir {
      var more := dir[p := f];
      assert more - {p} == dir;
      ListingStep(more, p, Listing(dir));
      ListingUnique(InsertFile(Listing(dir), EntryOf(more, p)), more);
      InsertFileSum(Listing(dir), EntryOf(more, p));
    }
  }

  predicate IsKept(e: Entry, keep: Option<Path>) { keep == Some(e.path) }

  /** The removing loop of `PruneDir` on files oldest first: what goes, and what stays. */
  function Evict(fs: seq<Entry>, total: int, maxBytes: int, keep: Option<Path>): (seq<Entry>, seq<Entry>) {
    if fs == [] || total <= maxBytes then ([], fs)
    else if IsKept(fs[0], keep) then
      var (gone, rest) := Evict(fs[1..], total, maxBytes, keep);
      (gone, [fs[0]] + rest)
    else
      var (gone, rest) := Evict(fs[1..], total - fs[0].size, maxBytes, keep);
      ([fs[0]] + gone, rest)
  }

  /** The files that may be removed, in order. */
  function Candidates(fs: seq<Entry>, keep: Option<Path>): seq<Entry> {
    if fs == [] then []
    else (if IsKept(fs[0], keep) then [] else [fs[0]]) + Candidates(fs[1..], keep)
  }

  /** Greedy and minimal: what goes is the shortest prefix of the candidates that brings the total to
      the cap, or all of them when none does. */
  lemma {:induction false} EvictIsShortestPrefix(fs: seq<Entry>, total: int, maxBytes: int, keep: Option<Path>)
    ensures var gone, cs := Evict(fs, total, maxBytes, keep).0, Candidates(fs, keep);
      && gone <= cs
      && (total - Sum(gone) <= maxBytes || gone == cs)
      && forall k :: 0 <= k < |gone| ==> total - Sum(cs[..k]) > maxBytes
  {
    if fs != [] && total > maxBytes {
      var cs := Candidates(fs, keep);
      if IsKept(fs[0], keep) {
        EvictIsShortestPrefix(fs[1..], total, maxBytes, keep);
        assert cs == Candidates(fs[1..], keep);
      } else {
        var left := total - fs[0].size;
        var gone := Evict(fs[1..], left, maxBytes, keep).0;
        EvictIsShortestPrefix(fs[1..], left, maxBytes, keep);
        assert ([fs[0]] + gone)[1..] == gone && cs[1..] == Candidates(fs[1..], keep);
        forall k | 0 <= k < |gone| + 1 ensures total - Sum(cs[..k]) > maxBytes {
          if k > 0 { assert cs[..k][1..] == cs[1..][..k - 1] && cs[..k][0] == fs[0]; }
        }
      }
    }
  }

  /** Evicted and remaining files are together the old ones, in order, and so are their bytes. */
  lemma {:induction false} EvictSplits(fs: seq<Entry>, total: int, maxBytes: int, keep: Option<Path>)
    requires Ordered(fs)
    ensures var (gone, rest) := Evict(fs, total, maxBytes, keep);
      && Ordered(rest) && Sum(gone) + Sum(rest) == Sum(fs)
      && (forall e :: e in fs <==> e in gone || e in rest)
      && (forall e :: e in gone ==> e !in rest && !IsKept(e, keep))
  {
    if fs != [] && total > maxBytes {
      var left := if IsKept(fs[0], keep) then total else total - fs[0].size;
      EvictSplits(fs[1..], left, maxBytes, keep);
      NotInTail(fs);
      var (gone, rest) := Evict(fs[1..], left, maxBytes, keep);
      assert fs == [fs[0]] + fs[1..];
      assert ([fs[0]] + rest)[1..] == rest && ([fs[0]] + gone)[1..] == gone;
    }
  }

  /** Bytes of the kept file, if it is there. */
  function KeptBytes(fs: seq<Entry>, keep: Option<Path>): nat {
    if fs == [] then 0 else (if IsKept(fs[0], keep) then fs[0].size else 0) + KeptBytes(fs[1..], keep)
  }

  lemma {:induction false} SumParts(fs: seq<Entry>, keep: Option<Path>)
    ensures Sum(fs) == Sum(Candidates(fs, keep)) + KeptBytes(fs, keep)
  {
    if fs != [] {
      SumParts(fs[1..], keep);
      if IsKept(fs[0], keep) {
        assert Candidates(fs, keep) == Candidates(fs[1..], keep);
      } else {
        assert Candidates(fs, keep)[1..] == Candidates(fs[1..], keep);
      }
    }
  }

  lemma {:induction false} PrefixSum(a: seq<Entry>, b: seq<Entry>)
    requires a <= b
    ensures Sum(a) <= Sum(b)
  {
    if a != [] {
      assert a[1..] <= b[1..];
      PrefixSum(a[1..], b[1..]);
    }
  }

  /** The total stays over the cap exactly if the kept file alone is over it. */
  lemma OverCapIff(fs: seq<Entry>, maxBytes: nat, keep: Option<Path>)
    ensures Sum(fs) - Sum(Evict(fs, Sum(fs), maxBytes, keep).0) > maxBytes <==> KeptBytes(fs, keep) > maxBytes
  {
    EvictIsShortestPrefix(fs, Sum(fs), maxBytes, keep);
    SumParts(fs, keep);
    PrefixSum(Evict(fs, Sum(fs), maxBytes, keep).0, Candidates(fs, keep));
  }

  lemma {:induction false} KeptBytesOf(fs: seq<Entry>, dir: Files, keep: Option<Path>)
    requires Ordered(fs) && (forall e :: e in fs ==> e.path in dir && e == EntryOf(dir, e.path))
    ensures KeptBytes(fs, keep) ==
      if keep.Some? && keep.value in dir && EntryOf(dir, keep.value) in fs then |dir[keep.value].data| else 0
  {
    if fs != [] {
      assert fs == [fs[0]] + fs[1..];
      KeptBytesOf(fs[1..], dir, keep);
      NotInTail(fs);
    }
  }

  function Paths(fs: seq<Entry>): set<Path> { set e | e in fs :: e.path }

  /** `PruneResult`. */
  datatype Pruned = Pruned(remaining: int, removedFiles: nat, removedBytes: int)

  ghost function Prune(dir: Files, maxBytes: int, keep: Option<Path>): (Files, Pruned) {
    if maxBytes <= 0 then (dir, Pruned(0, 0, 0))
    else
      var gone := Evict(Listing(dir), Total(dir), maxBytes, keep).0;
      (dir - Paths(gone), Pruned(Total(dir) - Sum(gone), |gone|, Sum(gone)))
  }

  lemma RemainingLists(dir: Files, maxBytes: int, keep: Option<Path>)
    ensures var (gone, rest) := Evict(Listing(dir), Total(dir), maxBytes, keep);
      Lists(rest, dir - Paths(gone))
  {
    var fs := Listing(dir);
    EvictSplits(fs, Total(dir), maxBytes, keep);
    var (gone, rest) := Evict(fs, Total(dir), maxBytes, keep);
    var left := dir - Paths(gone);
    forall e | e in rest ensures e.path in left && e == EntryOf(left, e.path) {
      assert e in fs;
      forall g | g in gone ensures g.path != e.path {
        assert g in fs;
      }
    }
    forall p | p in left ensures EntryOf(left, p) in rest {
      assert EntryOf(dir, p) in fs;
    }
  }

  /** `PruneDir`: the removed files are the shortest prefix of the oldest-first order, skipping the
      kept path, that brings the total to the cap; removed and remaining bytes add up; and the
      total stays over the cap if and only if the kept file is there and alone exceeds it. */
  lemma PruneIsExact(dir: Files, maxBytes: int, keep: Option<Path>)
    requires maxBytes > 0
    ensures var (left, r) := Prune(dir, maxBytes, keep); var cs := Candidates(Listing(dir), keep);
      && r.removedFiles <= |cs| && left == dir - Paths(cs[..r.removedFiles])
      && (forall k :: 0 <= k < r.removedFiles ==> Total(dir) - Sum(cs[..k]) > maxBytes)
      && r.remaining == Total(left) && r.removedBytes + r.remaining == Total(dir)
      && (r.remaining > maxBytes <==> keep.Some? && keep.value in dir && |dir[keep.value].data| > maxBytes)
      && (keep.Some? && keep.value in dir ==> keep.value in left)
  {
    var fs := Listing(dir);
    var (gone, rest) := Evict(fs, Total(dir), maxBytes, keep);
    EvictIsShortestPrefix(fs, Total(dir), maxBytes, keep);
    assert Candidates(fs, keep)[..|gone|] == gone;
    EvictSplits(fs, Total(dir), maxBytes, keep);
    RemainingLists(dir, maxBytes, keep);
    ListingUnique(rest, dir - Paths(gone));
    OverCapIff(fs, maxBytes, keep);
    KeptBytesOf(fs, dir, keep);
  }

  // ---------- which files go ----------

  /** `a` is a proper prefix of `b`, or smaller at the first byte where they differ. */
  ghost predicate BelowAt(a: Path, b: Path, k: nat) {
    k <= |a| && k < |b| && a[..k] == b[..k] && (k == |a| || a[k] < b[k])
  }

  lemma {:induction false} LexPosition(a: Path, b: Path) returns (k: nat)
    requires LexLess(a, b)
    ensures BelowAt(a, b, k)
  {
    if a == [] || a[0] < b[0] {
      k := 0;
    } else {
      k := LexPosition(a[1..], b[1..]);
      k := k + 1;
      assert a == [a[0]] + a[1..] && b == [b[0]] + b[1..];
      assert a[..k] == [a[0]] + a[1..][..k - 1] && b[..k] == [b[0]] + b[1..][..k - 1];
    }
  }

  /** What goes is in order, and older than what stays without being kept. */
  lemma {:induction false} EvictedAreOlder(fs: seq<Entry>, total: int, maxBytes: int, keep: Option<Path>)
    requires Ordered(fs)
    ensures var (gone, rest) := Evict(fs, total, maxBytes, keep);
      && Ordered(gone) && forall g, r :: g in gone && r in rest && !IsKept(r, keep) ==> Older(g, r)
  {
    if fs != [] && total > maxBytes {
      var left := if IsKept(fs[0], keep) then total else total - fs[0].size;
      EvictedAreOlder(fs[1..], left, maxBytes, keep);
      EvictSplits(fs[1..], left, maxBytes, keep);
      var (gone, rest) := Evict(fs[1..], left, maxBytes, keep);
      assert ([fs[0]] + gone)[1..] == gone;
    }
  }

  lemma {:induction false} LastIsNewest(fs: seq<Entry>, e: Entry)
    requires Ordered(fs) && e in fs
    ensures e.modTime <= fs[|fs| - 1].modTime
  {
    if |fs| > 1 {
      assert fs == [fs[0]] + fs[1..];
      if e == fs[0] {
        assert fs[|fs| - 1] in fs[1..];
      } else {
        LastIsNewest(fs[1..], e);
      }
    }
  }

  /** Where the entry of a file of the directory goes. */
  lemma GoneOrLeft(dir: Files, maxBytes: int, keep: Option<Path>, p: Path)
    requires maxBytes > 0 && p in dir
    ensures var (gone, rest) := Evict(Listing(dir), Total(dir), maxBytes, keep);
      && (p !in Prune(dir, maxBytes, keep).0 <==> EntryOf(dir, p) in gone)
      && (p in Prune(dir, maxBytes, keep).0 <==> EntryOf(dir, p) in rest)
  {
    var fs := Listing(dir);
    EvictSplits(fs, Total(dir), maxBytes, keep);
    var gone := Evict(fs, Total(dir), maxBytes, keep).0;
    if p in Paths(gone) {
      var e :| e in gone && e.path == p;
      assert e in fs && e == EntryOf(dir, p);
    }
  }

  /** Oldest first: a file that goes is not newer than any that stays without being kept, and at the
      same time its path is below the other's in byte order. */
  lemma PruneOldestFirst(dir: Files, maxBytes: int, keep: Option<Path>, p: Path, q: Path)
    requires var left := Prune(dir, maxBytes, keep).0;
      p in dir && p !in left && q in left && keep != Some(q)
    ensures q in dir && dir[p].modTime <= dir[q].modTime
    ensures dir[p].modTime == dir[q].modTime ==>
      exists k: nat :: k <= |p| && k < |q| && p[..k] == q[..k] && (k == |p| || p[k] < q[k])
  {
    GoneOrLeft(dir, maxBytes, keep, p);
    GoneOrLeft(dir, maxBytes, keep, q);
    hide Prune;
    EvictedAreOlder(Listing(dir), Total(dir), maxBytes, keep);
    assert Older(EntryOf(dir, p), EntryOf(dir, q));
    hide Evict;
    if dir[p].modTime == dir[q].modTime {
      var k := LexPosition(p, q);
      assert BelowAt(p, q, k);
    }
  }

  /** Without its last file, what goes would not be enough. */
  lemma LastIsNeeded(fs: seq<Entry>, total: int, maxBytes: int, keep: Option<Path>)
    requires Evict(fs, total, maxBytes, keep).0 != []
    ensures var gone := Evict(fs, total, maxBytes, keep).0;
      total - Sum(gone) + gone[|gone| - 1].size > maxBytes
  {
    var gone := Evict(fs, total, maxBytes, keep).0;
    var n := |gone| - 1;
    EvictIsShortestPrefix(fs, total, maxBytes, keep);
    hide Evict, Sum;
    assert Candidates(fs, keep)[..n] == gone[..n] && gone == gone[..n] + [gone[n]];
    SumLast(gone[..n], gone[n]);
  }

  /** No more than needed: with the newest of the removed files still there, the directory would be over
      the cap. */
  lemma PruneStopsInTime(dir: Files, maxBytes: int, keep: Option<Path>) returns (p: Path)
    requires Prune(dir, maxBytes, keep).0 != dir
    ensures var left := Prune(dir, maxBytes, keep).0;
      && maxBytes > 0 && p in dir && p !in left && Total(left) + |dir[p].data| > maxBytes
      && forall x :: x in dir && x !in left ==> dir[x].modTime <= dir[p].modTime
  {
    hide Prune, Evict, Sum, Total, Ordered, Listing, SortFiles;
    var fs, total, left := Listing(dir), Total(dir), Prune(dir, maxBytes, keep).0;
    var gone := Evict(fs, total, maxBytes, keep).0;
    RemovedParts(dir, maxBytes, keep);
    var last := gone[|gone| - 1];
    p := last.path;
    LastIsNeeded(fs, total, maxBytes, keep);
    GoneOrLeft(dir, maxBytes, keep, p);
    forall x | x in dir && x !in left ensures dir[x].modTime <= dir[p].modTime {
      GoneOrLeft(dir, maxBytes, keep, x);
      LastIsNewest(gone, EntryOf(dir, x));
    }
  }

  lemma RemovedParts(dir: Files, maxBytes: int, keep: Option<Path>)
    requires Prune(dir, maxBytes, keep).0 != dir
    ensures var gone := Evict(Listing(dir), Total(dir), maxBytes, keep).0;
      && maxBytes > 0 && gone != [] && Ordered(gone)
      && gone[|gone| - 1].path in dir && gone[|gone| - 1] == EntryOf(dir, gone[|gone| - 1].path)
      && Total(Prune(dir, maxBytes, keep).0) == Total(dir) - Sum(gone)
  {
    var fs, total := Listing(dir), Total(dir);
    var gone := Evict(fs, total, maxBytes, keep).0;
    assert gone == [] ==> dir - Paths(gone) == dir;
    EvictedAreOlder(fs, total, maxBytes, keep);
    EvictSplits(fs, total, maxBytes, keep);
    assert Prune(dir, maxBytes, keep).1.remaining == total - Sum(gone);
    PruneIsExact(dir, maxBytes, keep);
    hide Prune, Evict, Sum, Total, Ordered;
  }

  lemma {:induction false} SumLast(fs: seq<Entry>, e: Entry)
    ensures Sum(fs + [e]) == Sum(fs) + e.size
  {
    if fs == [] {
      assert fs + [e] == [e] && Sum([e]) == e.size + Sum([e][1..]);
    } else {
      assert (fs + [e])[1..] == fs[1..] + [e];
      SumLast(fs[1..], e);
    }
  }

  // ---------- uploads ----------

  /** `.tmp`, the name of the directory for temporary files. */
  const TMP_NAME: Path := [46, 116, 109, 112]

  /** One request: the announced length (-1 when unknown), the sanitised name, the body as far as it
      arrives, whether it breaks off there, and the time of storing. */
  datatype Request = Request(contentLength: int, name: Path, body: Bytes, broken: bool, now: Time)

  datatype Outcome = TooLarge | BodyFailed | PersistFailed | OverCap | Accepted(bytes: nat)

  /** The store and prune part of `ServeHTTP`; without a positive cap nothing is checked or pruned. */
  ghost function Upload(dir: Files, cap: int, r: Request): (Files, Outcome) {
    if cap > 0 && r.contentLength > cap then (dir, TooLarge)
    else if cap > 0 && |r.body| > cap then (dir, TooLarge)
    else if r.broken then (dir, BodyFailed)
    else if r.name == TMP_NAME then (dir, PersistFailed)
    else
      var stored := dir[r.name := Content(r.body, r.now)];
      if cap <= 0 then (stored, Accepted(|r.body|))
      else
        var (left, pruned) := Prune(stored, cap, Some(r.name));
        (left, if pruned.remaining > cap then OverCap else Accepted(|r.body|))
  }

  /** Under a cap an upload is accepted exactly if it fits and arrives whole; then the new file holds
      the body and the directory fits the cap; otherwise the directory is as it was. The over-cap
      error never occurs, and no other file is touched except by being evicted. */
  lemma UploadKeepsCap(dir: Files, cap: int, r: Request)
    requires cap > 0
    ensures var (left, o) := Upload(dir, cap, r);
      && (o.Accepted? <==> r.contentLength <= cap && |r.body| <= cap && !r.broken && r.name != TMP_NAME)
      && o != OverCap
      && (o.Accepted? ==> r.name in left && left[r.name] == Content(r.body, r.now) && Total(left) <= cap)
      && (!o.Accepted? ==> left == dir)
      && (forall p :: p in left && p != r.name ==> p in dir && left[p] == dir[p])
  {
    hide Total, Listing, Candidates;
    PruneIsExact(dir[r.name := Content(r.body, r.now)], cap, Some(r.name));
  }

  /** What a request is told, with a cap or without: too large, then broken off, then a name that cannot
      be stored, else accepted with the number of bytes; and without a cap nothing is ever evicted. */
  lemma UploadOutcome(dir: Files, cap: int, r: Request)
    ensures var (left, o) := Upload(dir, cap, r);
      && o == (if cap > 0 && (r.contentLength > cap || |r.body| > cap) then TooLarge
               else if r.broken then BodyFailed
               else if r.name == [46, 116, 109, 112] then PersistFailed
               else Accepted(|r.body|))
      && (cap <= 0 ==> left == if o.Accepted? then dir[r.name := Content(r.body, r.now)] else dir)
  {
    hide Total, Listing, Candidates, Prune;
    if cap > 0 { UploadKeepsCap(dir, cap, r); }
  }

  ghost function Serve(dir: Files, cap: int, rs: seq<Request>): Files {
    if rs == [] then dir else Upload(Serve(dir, cap, rs[..|rs| - 1]), cap, rs[|rs| - 1]).0
  }

  /** After the prune at start-up, which never fails, the directory fits the cap after every request
      of any sequence, whatever it held before. */
  lemma {:induction false} StorageStaysUnderCap(found: Files, cap: int, rs: seq<Request>)
    requires cap > 0
    ensures Prune(found, cap, None).1.remaining <= cap
    ensures Total(Serve(Prune(found, cap, None).0, cap, rs)) <= cap
  {
    hide Prune, Total, Upload;
    PruneIsExact(found, cap, None);
    if rs != [] {
      StorageStaysUnderCap(found, cap, rs[..|rs| - 1]);
      UploadKeepsCap(Serve(Prune(found, cap, None).0, cap, rs[..|rs| - 1]), cap, rs[|rs| - 1]);
    }
  }
}

/** Cleaning the bar cache (`crates/bar-store/src/cleanup.rs`): stale files first, then
    the least recently modified ones until the rest fits. */
module Cleanup {

  datatype FileInfo = FileInfo(path: string, size: nat, modified: int)

  function Total(files: seq<FileInfo>): nat {
    if files == [] then 0 else files[0].size + Total(files[1..])
  }

  /** The files that are not older than the cutoff. */
  function Recent(files: seq<FileInfo>, cutoff: int): seq<FileInfo> {
    if files == [] then []
    else
      var f := files[|files| - 1];
      Recent(files[..|files| - 1], cutoff) + if f.modified < cutoff then [] else [f]
  }

  // ---------------------------------------------------------------------------
  // `sort_by_key` on the modification time
  // ---------------------------------------------------------------------------

  function Insert(s: seq<FileInfo>, x: FileInfo): seq<FileInfo> {
    if s == [] || s[|s| - 1].modified <= x.modified then s + [x]
    else Insert(s[..|s| - 1], x) + [s[|s| - 1]]
  }

  function Sorted(files: seq<FileInfo>): seq<FileInfo> {
    if files == [] then [] else Insert(Sorted(files[..|files| - 1]), files[|files| - 1])
  }

  ghost predicate OldestFirst(s: seq<FileInfo>) {
    forall i, j :: 0 <= i < j < |s| ==> s[i].modified <= s[j].modified
  }

  /** The files of one modification time, in order. */
  function At(s: seq<FileInfo>, time: int): seq<FileInfo> {
    if s == [] then []
    else At(s[..|s| - 1], time) + if s[|s| - 1].modified == time then [s[|s| - 1]] else []
  }

  lemma {:induction false} InsertMembers(s: seq<FileInfo>, x: FileInfo)
    ensures multiset(Insert(s, x)) == multiset(s) + multiset{x}
  {
    if s != [] && s[|s| - 1].modified > x.modified {
      var init, last := s[..|s| - 1], s[|s| - 1];
      assert s == init + [last];
      InsertMembers(init, x);
    }
  }

  lemma OldestFirstAppend(s: seq<FileInfo>, x: FileInfo)
    requires OldestFirst(s) && forall f :: f in s ==> f.modified <= x.modified
    ensures OldestFirst(s + [x])
  {
  }

  lemma {:induction false} InsertOrder(s: seq<FileInfo>, x: FileInfo)
    requires OldestFirst(s)
    ensures OldestFirst(Insert(s, x))
    ensures forall f :: f in Insert(s, x) ==> f in s || f == x
  {
    if s == [] || s[|s| - 1].modified <= x.modified {
      OldestFirstAppend(s, x);
    } else {
      var init, last := s[..|s| - 1], s[|s| - 1];
      assert s == init + [last];
      InsertOrder(init, x);
      OldestFirstAppend(Insert(init, x), last);
    }
  }

  lemma AtAppend(s: seq<FileInfo>, x: FileInfo, time: int)
    ensures At(s + [x], time) == At(s, time) + if x.modified == time then [x] else []
  {
    assert (s + [x])[..|s|] == s;
  }

  lemma {:induction false} InsertStable(s: seq<FileInfo>, x: FileInfo, time: int)
    requires OldestFirst(s)
    ensures At(Insert(s, x), time) == At(s, time) + if x.modified == time then [x] else []
  {
    hide At;
    if s == [] || s[|s| - 1].modified <= x.modified {
      AtAppend(s, x, time);
    } else {
      var init, last := s[..|s| - 1], s[|s| - 1];
      assert s == init + [last];
      InsertStable(init, x, time);
      AtAppend(Insert(init, x), last, time);
      AtAppend(init, last, time);
    }
  }

  /** Sorted oldest first, a permutation, and stable. */
  lemma {:induction false} SortedCorrect(files: seq<FileInfo>)
    ensures OldestFirst(Sorted(files)) && multiset(Sorted(files)) == multiset(files)
    ensures forall time :: At(Sorted(files), time) == At(files, time)
  {
    if files != [] {
      var init, last := files[..|files| - 1], files[|files| - 1];
      assert files == init + [last];
      SortedCorrect(init);
      InsertOrder(Sorted(init), last);
      InsertMembers(Sorted(init), last);
      forall time
        ensures At(Sorted(files), time) == At(files, time)
      {
        InsertStable(Sorted(init), last, time);
        AtAppend(init, last, time);
      }
    }
  }

  // ---------------------------------------------------------------------------
  // Eviction
  // ---------------------------------------------------------------------------

  /** What the size pass removes and keeps, given the paths that cannot be removed:
      it stops as soon as the running total fits. */
  function Evict(files: seq<FileInfo>, running: nat, maxBytes: nat, locked: set<string>): (seq<FileInfo>, seq<FileInfo>) {
    if files == [] || running <= maxBytes then ([], files)
    else if files[0].path in locked then
      var (gone, kept) := Evict(files[1..], running, maxBytes, locked);
      (gone, [files[0]] + kept)
    else
      var (gone, kept) := Evict(files[1..], if running < files[0].size then 0 else running - files[0].size, maxBytes, locked);
      ([files[0]] + gone, kept)
  }

  /** The pass removes or keeps every file. */
  lemma {:induction false} EvictParts(files: seq<FileInfo>, running: nat, maxBytes: nat, locked: set<string>)
    ensures var (gone, kept) := Evict(files, running, maxBytes, locked);
      && multiset(gone) + multiset(kept) == multiset(files)
      && forall f :: f in gone ==> f.path !in locked
    decreases |files|
  {
    if files != [] && running > maxBytes {
      var f, rest := files[0], files[1..];
      assert files == [f] + rest;
      EvictParts(rest, if f.path in locked then running else if running < f.size then 0 else running - f.size, maxBytes, locked);
    }
  }

  /** The running total is always the size of the listed files not yet removed; the
      pass ends when it fits or when every file left is locked. */
  lemma {:induction false} EvictAccounting(files: seq<FileInfo>, extra: nat, maxBytes: nat, locked: set<string>)
    ensures var (gone, kept) := Evict(files, Total(files) + extra, maxBytes, locked);
      && Total(gone) + Total(kept) == Total(files)
      && (Total(kept) + extra <= maxBytes || forall f :: f in kept ==> f.path in locked)
    decreases |files|
  {
    if files != [] && Total(files) + extra > maxBytes {
      var f, rest := files[0], files[1..];
      EvictAccounting(rest, if f.path in locked then extra + f.size else extra, maxBytes, locked);
    } else if files != [] {
      assert Evict(files, Total(files) + extra, maxBytes, locked) == ([], files);
    }
  }

  ghost predicate Unlocked(files: seq<FileInfo>, locked: set<string>) {
    forall i :: 0 <= i < |files| ==> files[i].path !in locked
  }

  /** When every removal succeeds the pass removes the shortest run of oldest files
      that makes the rest fit. */
  lemma {:induction false} EvictMinimal(files: seq<FileInfo>, maxBytes: nat, locked: set<string>) returns (n: nat)
    requires Unlocked(files, locked)
    ensures n <= |files| && Evict(files, Total(files), maxBytes, locked) == (files[..n], files[n..])
    ensures Total(files[n..]) <= maxBytes
    ensures forall m :: 0 <= m < n ==> Total(files[m..]) > maxBytes
  {
    if files == [] || Total(files) <= maxBytes {
      n := 0;
    } else {
      n := EvictMinimal(files[1..], maxBytes, locked);
      n := n + 1;
      assert files[n..] == files[1..][n - 1..];
      assert files[..n] == [files[0]] + files[1..][..n - 1];
      forall m | 0 <= m < n
        ensures Total(files[m..]) > maxBytes
      {
        if m > 0 {
          assert files[m..] == files[1..][m - 1..];
        }
      }
      assert files[0..] == files;
    }
  }

  // ---------------------------------------------------------------------------
  // The whole cleanup
  // ---------------------------------------------------------------------------

  function Paths(files: seq<FileInfo>): set<string> {
    set f | f in files :: f.path
  }

  ghost predicate DistinctPaths(files: seq<FileInfo>) {
    forall i, j :: 0 <= i < j < |files| ==> files[i].path != files[j].path
  }

  /** The files evicted for size, and those that stay. */
  function SizePass(files: seq<FileInfo>, cutoff: int, maxBytes: nat, locked: set<string>): (seq<FileInfo>, seq<FileInfo>) {
    var recent := Recent(files, cutoff);
    Evict(Sorted(recent), Total(recent), maxBytes, locked)
  }

  lemma {:induction false} RecentMembers(files: seq<FileInfo>, cutoff: int)
    ensures forall f :: f in Recent(files, cutoff) <==> f in files && cutoff <= f.modified
  {
    if files != [] {
      RecentMembers(files[..|files| - 1], cutoff);
      assert files == files[..|files| - 1] + [files[|files| - 1]];
    }
  }

  lemma {:induction false} InsertTotal(s: seq<FileInfo>, x: FileInfo)
    ensures Total(Insert(s, x)) == Total(s) + x.size
  {
    TotalAppend(s, [x]);
    if s != [] && s[|s| - 1].modified > x.modified {
      var init, last := s[..|s| - 1], s[|s| - 1];
      assert s == init + [last];
      InsertTotal(init, x);
      TotalAppend(Insert(init, x), [last]);
      TotalAppend(init, [last]);
    }
  }

  lemma {:induction false} SortedTotal(files: seq<FileInfo>)
    ensures Total(Sorted(files)) == Total(files)
  {
    if files != [] {
      var init, last := files[..|files| - 1], files[|files| - 1];
      assert files == init + [last];
      SortedTotal(init);
      InsertTotal(Sorted(init), last);
      TotalAppend(init, [last]);
    }
  }

  lemma {:induction false} TotalAppend(a: seq<FileInfo>, b: seq<FileInfo>)
    ensures Total(a + b) == Total(a) + Total(b)
  {
    if a == [] {
      assert a + b == b;
    } else {
      TotalAppend(a[1..], b);
      assert (a + b)[1..] == a[1..] + b;
    }
  }

  /** When all removals succeed: the survivors are recent and fit the limit, no
      evicted file is newer than a survivor, and putting the newest evicted file back
      would exceed the limit. */
  lemma CleanupCorrect(files: seq<FileInfo>, cutoff: int, maxBytes: nat, locked: set<string>)
    requires Unlocked(files, locked)
    ensures var (gone, kept) := SizePass(files, cutoff, maxBytes, locked);
      && multiset(gone) + multiset(kept) == multiset(Recent(files, cutoff))
      && (forall f :: f in kept ==> cutoff <= f.modified)
      && Total(kept) <= maxBytes
      && (forall g, f :: g in gone && f in kept ==> g.modified <= f.modified)
      && (gone != [] ==>
            (forall g :: g in gone ==> g.modified <= gone[|gone| - 1].modified)
            && Total(kept) + gone[|gone| - 1].size > maxBytes)
  {
    hide Sorted, Recent, Evict, Total, OldestFirst;
    var recent := Recent(files, cutoff);
    var sorted := Sorted(recent);
    SortedCorrect(recent);
    RecentMembers(files, cutoff);
    SortedTotal(recent);
    SameMembers(sorted, recent);
    forall i | 0 <= i < |sorted|
      ensures sorted[i].path !in locked
    {
      assert sorted[i] in files;
    }
    var n := EvictMinimal(sorted, maxBytes, locked);
    OldestPrefix(sorted, n);
    assert sorted == sorted[..n] + sorted[n..];
    assert forall f :: f in sorted[n..] ==> f in sorted;
    if n > 0 {
      assert Total(sorted[n - 1..]) > maxBytes;
      TotalFrom(sorted, n - 1);
    }
  }

  lemma OldestPrefix(s: seq<FileInfo>, n: nat)
    requires OldestFirst(s) && n <= |s|
    ensures forall g, f :: g in s[..n] && f in s[n..] ==> g.modified <= f.modified
    ensures n > 0 ==> forall g :: g in s[..n] ==> g.modified <= s[n - 1].modified
  {
  }

  lemma TotalFrom(s: seq<FileInfo>, n: nat)
    requires n < |s|
    ensures Total(s[n..]) == s[n].size + Total(s[n + 1..])
  {
    assert s[n..][1..] == s[n + 1..];
  }

  lemma SameMembers(a: seq<FileInfo>, b: seq<FileInfo>)
    requires multiset(a) == multiset(b)
    ensures forall f :: f in a <==> f in b
  {
    forall f
      ensures f in a <==> f in b
    {
      assert f in a <==> f in multiset(a);
      assert f in b <==> f in multiset(b);
    }
  }

  /** With removals that fail: the total the pass ends with is the size of the recent
      files still there, and it exceeds the limit only if all of them are locked. */
  lemma CleanupAccounting(files: seq<FileInfo>, cutoff: int, maxBytes: nat, locked: set<string>)
    ensures var (gone, kept) := SizePass(files, cutoff, maxBytes, locked);
      && multiset(gone) + multiset(kept) == multiset(Recent(files, cutoff))
      && Total(kept) == Total(Recent(files, cutoff)) - Total(gone)
      && (Total(kept) <= maxBytes || forall f :: f in kept ==> f.path in locked)
  {
    hide Sorted, Recent, Evict;
    var recent := Recent(files, cutoff);
    SortedCorrect(recent);
    SortedTotal(recent);
    EvictParts(Sorted(recent), Total(recent), maxBytes, locked);
    EvictAccounting(Sorted(recent), 0, maxBytes, locked);
  }

  // ---- what stays on disk

  predicate StaleUnlocked(f: FileInfo, cutoff: int, locked: set<string>) {
    f.modified < cutoff && f.path !in locked
  }

  /** Paths of the stale files that can be removed. */
  function StalePaths(files: seq<FileInfo>, cutoff: int, locked: set<string>): set<string> {
    set f | f in files && StaleUnlocked(f, cutoff, locked) :: f.path
  }

  /** The paths a cleanup leaves. */
  function LeftPaths(present: set<string>, files: seq<FileInfo>, cutoff: int, maxBytes: nat, locked: set<string>): set<string> {
    present - StalePaths(files, cutoff, locked) - Paths(SizePass(files, cutoff, maxBytes, locked).0)
  }

  /** The listed files whose path is still there. */
  function OnDisk(files: seq<FileInfo>, present: set<string>): seq<FileInfo> {
    if files == [] then []
    else
      var f := files[|files| - 1];
      OnDisk(files[..|files| - 1], present) + if f.path in present then [f] else []
  }

  /** The stale files that cannot be removed. */
  function Stuck(files: seq<FileInfo>, cutoff: int, locked: set<string>): seq<FileInfo> {
    if files == [] then []
    else
      var f := files[|files| - 1];
      Stuck(files[..|files| - 1], cutoff, locked) + if f.modified < cutoff && f.path in locked then [f] else []
  }

  lemma OnDiskAppend(files: seq<FileInfo>, f: FileInfo, present: set<string>)
    ensures OnDisk(files + [f], present) == OnDisk(files, present) + if f.path in present then [f] else []
  {
    assert (files + [f])[..|files|] == files;
  }

  lemma OnDiskTotal(files: seq<FileInfo>, f: FileInfo, present: set<string>)
    ensures Total(OnDisk(files + [f], present)) == Total(OnDisk(files, present)) + if f.path in present then f.size else 0
  {
    OnDiskAppend(files, f, present);
    if f.path in present {
      TotalAppend(OnDisk(files, present), [f]);
    } else {
      assert OnDisk(files, present) + [] == OnDisk(files, present);
    }
  }

  lemma {:induction false} OnDiskConcat(a: seq<FileInfo>, b: seq<FileInfo>, present: set<string>)
    ensures Total(OnDisk(a + b, present)) == Total(OnDisk(a, present)) + Total(OnDisk(b, present))
  {
    if b == [] {
      assert a + b == a;
    } else {
      var init, f := b[..|b| - 1], b[|b| - 1];
      assert b == init + [f] && a + b == (a + init) + [f];
      OnDiskConcat(a, init, present);
      OnDiskTotal(init, f, present);
      OnDiskTotal(a + init, f, present);
    }
  }

  lemma WithoutOne(s: seq<FileInfo>, i: nat)
    requires i < |s|
    ensures multiset(s) == multiset(s[..i] + s[i + 1..]) + multiset{s[i]}
  {
    assert s == s[..i] + [s[i]] + s[i + 1..];
  }

  lemma OnDiskWithoutOne(s: seq<FileInfo>, i: nat, present: set<string>)
    requires i < |s|
    ensures Total(OnDisk(s, present))
         == Total(OnDisk(s[..i] + s[i + 1..], present)) + if s[i].path in present then s[i].size else 0
  {
    hide OnDisk, Total;
    assert s == (s[..i] + [s[i]]) + s[i + 1..];
    OnDiskConcat(s[..i] + [s[i]], s[i + 1..], present);
    OnDiskConcat(s[..i], s[i + 1..], present);
    OnDiskTotal(s[..i], s[i], present);
  }

  /** The order of the list does not matter. */
  lemma {:induction false} OnDiskPermuted(a: seq<FileInfo>, b: seq<FileInfo>, present: set<string>)
    requires multiset(a) == multiset(b)
    ensures Total(OnDisk(a, present)) == Total(OnDisk(b, present))
  {
    assert |a| == |multiset(a)| == |multiset(b)| == |b|;
    if a != [] {
      hide OnDisk, Total;
      var n, f := |a| - 1, a[|a| - 1];
      assert f in multiset(b);
      var i :| 0 <= i < |b| && b[i] == f;
      WithoutOne(a, n);
      WithoutOne(b, i);
      assert multiset(a[..n] + a[n + 1..]) == multiset(a) - multiset{f} == multiset(b[..i] + b[i + 1..]);
      assert a[..n] + a[n + 1..] == a[..n];
      OnDiskPermuted(a[..n], b[..i] + b[i + 1..], present);
      OnDiskWithoutOne(a, n, present);
      OnDiskWithoutOne(b, i, present);
    }
  }

  lemma {:induction false} OnDiskAll(files: seq<FileInfo>, present: set<string>)
    ensures (forall f :: f in files ==> f.path in present) ==> OnDisk(files, present) == files
    ensures (forall f :: f in files ==> f.path !in present) ==> OnDisk(files, present) == []
  {
    if files != [] {
      var init, f := files[..|files| - 1], files[|files| - 1];
      assert files == init + [f];
      OnDiskAll(init, present);
    }
  }

  lemma RecentAppend(files: seq<FileInfo>, f: FileInfo, cutoff: int)
    ensures Recent(files + [f], cutoff) == Recent(files, cutoff) + if f.modified < cutoff then [] else [f]
  {
    assert (files + [f])[..|files|] == files;
  }

  lemma StuckAppend(files: seq<FileInfo>, f: FileInfo, cutoff: int, locked: set<string>)
    ensures Total(Stuck(files + [f], cutoff, locked))
         == Total(Stuck(files, cutoff, locked)) + if f.modified < cutoff && f.path in locked then f.size else 0
  {
    assert (files + [f])[..|files|] == files;
    if f.modified < cutoff && f.path in locked {
      TotalAppend(Stuck(files, cutoff, locked), [f]);
    } else {
      assert Stuck(files, cutoff, locked) + [] == Stuck(files, cutoff, locked);
    }
  }

  /** What is still there of all files: of the stale ones the stuck, and of the recent
      ones those that are there. */
  lemma {:induction false} OnDiskSplit(files: seq<FileInfo>, cutoff: int, locked: set<string>, present: set<string>)
    requires forall f :: f in files && f.modified < cutoff ==> (f.path in present <==> f.path in locked)
    ensures Total(OnDisk(files, present)) == Total(OnDisk(Recent(files, cutoff), present)) + Total(Stuck(files, cutoff, locked))
  {
    if files != [] {
      hide OnDisk, Recent, Stuck, Total;
      var init, f := files[..|files| - 1], files[|files| - 1];
      assert files == init + [f];
      OnDiskSplit(init, cutoff, locked, present);
      OnDiskTotal(init, f, present);
      RecentAppend(init, f, cutoff);
      StuckAppend(init, f, cutoff, locked);
      if f.modified < cutoff {
        assert Recent(init, cutoff) + [] == Recent(init, cutoff);
      } else {
        OnDiskTotal(Recent(init, cutoff), f, present);
      }
    }
  }

  /** Parts of a list with distinct paths have distinct paths. */
  lemma PartsApart(files: seq<FileInfo>, a: seq<FileInfo>, b: seq<FileInfo>)
    requires DistinctPaths(files) && multiset(a) + multiset(b) == multiset(files)
    ensures forall f, g :: f in a && g in b ==> f.path != g.path
  {
    forall f, g | f in a && g in b
      ensures f.path != g.path
    {
      assert f in multiset(a) && g in multiset(b);
      assert f in multiset(files) && g in multiset(files);
      var i :| 0 <= i < |files| && files[i] == f;
      var j :| 0 <= j < |files| && files[j] == g;
      if i == j {
        assert multiset(files)[f] >= 2;
        OnceEach(files, f);
      } else {
        assert i < j || j < i;
      }
    }
  }

  lemma {:induction false} OnceEach(files: seq<FileInfo>, f: FileInfo)
    requires DistinctPaths(files)
    ensures multiset(files)[f] <= 1
  {
    if files != [] {
      var init, last := files[..|files| - 1], files[|files| - 1];
      assert files == init + [last];
      OnceEach(init, f);
      if last == f {
        assert f !in init;
        assert multiset(init)[f] == 0;
      }
    }
  }

  /** The listed bytes a cleanup leaves: what the size pass keeps, and on top of it the
      stale files that could not be removed, which it does not count. So the listed
      files fit the limit exactly when that sum does. */
  lemma BytesLeft(present: set<string>, files: seq<FileInfo>, cutoff: int, maxBytes: nat, locked: set<string>)
    requires DistinctPaths(files) && Paths(files) <= present
    ensures Total(OnDisk(files, LeftPaths(present, files, cutoff, maxBytes, locked)))
         == Total(SizePass(files, cutoff, maxBytes, locked).1) + Total(Stuck(files, cutoff, locked))
  {
    hide Sorted, Recent, Evict, Total, OnDisk, Stuck, DistinctPaths, SizePass;
    var (gone, kept) := SizePass(files, cutoff, maxBytes, locked);
    var recent := Recent(files, cutoff);
    var left := LeftPaths(present, files, cutoff, maxBytes, locked);
    CleanupAccounting(files, cutoff, maxBytes, locked);
    RecentDistinct(files, cutoff);
    RecentMembers(files, cutoff);
    PartsApart(recent, gone, kept);
    PartMembers(gone, kept, recent);
    StaleApart(files, cutoff);
    LeftOfStale(present, files, cutoff, maxBytes, locked);
    OnDiskSplit(files, cutoff, locked, left);
    assert multiset(gone + kept) == multiset(recent);
    OnDiskPermuted(recent, gone + kept, left);
    OnDiskConcat(gone, kept, left);
    assert forall f :: f in gone ==> f.path !in left;
    KeptAreLeft(present, files, cutoff, maxBytes, locked);
    OnDiskAll(gone, left);
    OnDiskAll(kept, left);
    assert Total([]) == 0 by { TotalNothing(); }
  }

  lemma TotalNothing()
    ensures Total([]) == 0
  {
  }

  lemma PartMembers(a: seq<FileInfo>, b: seq<FileInfo>, all: seq<FileInfo>)
    requires multiset(a) + multiset(b) == multiset(all)
    ensures forall f :: f in a || f in b <==> f in all
  {
    forall f
      ensures f in a || f in b <==> f in all
    {
      assert f in all <==> f in multiset(all);
      assert f in a <==> f in multiset(a);
      assert f in b <==> f in multiset(b);
    }
  }

  /** Stale and recent files have different paths. */
  lemma StaleApart(files: seq<FileInfo>, cutoff: int)
    requires DistinctPaths(files)
    ensures forall f, g :: f in files && g in files && f.modified < cutoff <= g.modified ==> f.path != g.path
  {
    forall f, g | f in files && g in files && f.modified < cutoff <= g.modified
      ensures f.path != g.path
    {
      var i :| 0 <= i < |files| && files[i] == f;
      var j :| 0 <= j < |files| && files[j] == g;
      assert i < j || j < i;
    }
  }

  lemma LeftOfStale(present: set<string>, files: seq<FileInfo>, cutoff: int, maxBytes: nat, locked: set<string>)
    requires DistinctPaths(files) && Paths(files) <= present
    ensures var left := LeftPaths(present, files, cutoff, maxBytes, locked);
      forall f :: f in files && f.modified < cutoff ==> (f.path in left <==> f.path in locked)
  {
    hide DistinctPaths, SizePass;
    var (gone, kept) := SizePass(files, cutoff, maxBytes, locked);
    var left := LeftPaths(present, files, cutoff, maxBytes, locked);
    CleanupAccounting(files, cutoff, maxBytes, locked);
    PartMembers(gone, kept, Recent(files, cutoff));
    RecentMembers(files, cutoff);
    StaleApart(files, cutoff);
    forall f | f in files && f.modified < cutoff
      ensures f.path in left <==> f.path in locked
    {
      assert f.path in Paths(files);
      if f.path in StalePaths(files, cutoff, locked) {
        var g :| g in files && StaleUnlocked(g, cutoff, locked) && g.path == f.path;
      }
      if f.path !in locked {
        assert StaleUnlocked(f, cutoff, locked);
      }
    }
  }

  lemma KeptAreLeft(present: set<string>, files: seq<FileInfo>, cutoff: int, maxBytes: nat, locked: set<string>)
    requires DistinctPaths(files) && Paths(files) <= present
    ensures var left := LeftPaths(present, files, cutoff, maxBytes, locked);
      forall f :: f in SizePass(files, cutoff, maxBytes, locked).1 ==> f.path in left
  {
    hide DistinctPaths, SizePass;
    var (gone, kept) := SizePass(files, cutoff, maxBytes, locked);
    CleanupAccounting(files, cutoff, maxBytes, locked);
    RecentDistinct(files, cutoff);
    PartsApart(Recent(files, cutoff), gone, kept);
    PartMembers(gone, kept, Recent(files, cutoff));
    RecentMembers(files, cutoff);
    StaleApart(files, cutoff);
    forall f | f in kept
      ensures f.path in LeftPaths(present, files, cutoff, maxBytes, locked)
    {
      assert f.path in Paths(files);
      assert forall g :: g in files && StaleUnlocked(g, cutoff, locked) ==> g.path != f.path;
    }
  }

  /** A stale file that cannot be removed keeps a cache over its limit though every
      other file could go: nothing is evicted, since only recent files are counted. */
  lemma StuckKeepsCacheFull()
    ensures var files := [FileInfo("old.bin", 10, 0), FileInfo("new.bin", 3, 100)];
      var locked := {"old.bin"};
      && SizePass(files, 50, 5, locked) == ([], [files[1]])
      && Total(OnDisk(files, LeftPaths(Paths(files), files, 50, 5, locked))) == 13
  {
    hide LeftPaths, OnDisk, SizePass, Stuck, Total, Paths;
    var f, g := FileInfo("old.bin", 10, 0), FileInfo("new.bin", 3, 100);
    StuckInputRecent(f, g);
    StuckInputStale(f, g, {"old.bin"});
    StuckInputPass(f, g, {"old.bin"});
    OneTotal(g);
    BytesLeft(Paths([f, g]), [f, g], 50, 5, {"old.bin"});
  }

  lemma OneTotal(f: FileInfo)
    ensures Total([f]) == f.size
  {
    assert [f][1..] == [];
  }

  lemma StuckInputRecent(f: FileInfo, g: FileInfo)
    requires f.modified < 50 <= g.modified
    ensures Recent([f, g], 50) == [g]
  {
    hide Recent;
    RecentNothing(50);
    RecentAppend([], f, 50);
    RecentAppend([f], g, 50);
    var none: seq<FileInfo> := [];
    assert none + [f] == [f] && [f] + [g] == [f, g] && none + none == none && none + [g] == [g];
  }

  lemma RecentNothing(cutoff: int)
    ensures Recent([], cutoff) == []
  {
  }

  lemma StuckInputStale(f: FileInfo, g: FileInfo, locked: set<string>)
    requires f.modified < 50 <= g.modified && f.path in locked
    ensures Total(Stuck([f, g], 50, locked)) == f.size
  {
    hide Total;
    TotalNothing();
    StuckAppend([], f, 50, locked);
    StuckAppend([f], g, 50, locked);
    assert [] + [f] == [f] && [f] + [g] == [f, g];
  }

  lemma StuckInputPass(f: FileInfo, g: FileInfo, locked: set<string>)
    requires Recent([f, g], 50) == [g] && g.size <= 5
    ensures SizePass([f, g], 50, 5, locked) == ([], [g])
  {
    hide Recent, Total;
    OneTotal(g);
    assert [g][..0] == [];
    assert Sorted([g]) == [g];
    EvictNothing([g], g.size, 5, locked);
  }

  class BarStoreCleanup {
    /** Paths on disk, and those that the system refuses to remove. */
    var present: set<string>
    const locked: set<string>

    method RemoveFile(path: string) returns (ok: bool)
      modifies this
      ensures ok <==> path in old(present) && path !in locked
      ensures present == if ok then old(present) - {path} else old(present)
    {
      ok := path in present && path !in locked;
      if ok {
        present := present - {path};
      }
    }

    /** `files` is what the scan found and `cutoff` the oldest time to keep. */
    method RunCleanup(files: seq<FileInfo>, maxSizeMb: nat, cutoff: int) returns (staleRemoved: nat, lruRemoved: nat)
      requires DistinctPaths(files) && Paths(files) <= present
      modifies this
      ensures var (gone, kept) := SizePass(files, cutoff, maxSizeMb * 1024 * 1024, locked);
        && present == LeftPaths(old(present), files, cutoff, maxSizeMb * 1024 * 1024, locked)
        && staleRemoved == |files| - |Recent(files, cutoff)| && lruRemoved == |gone|
    {
      hide Sorted, Evict;
      if files == [] {
        NothingToDo(cutoff, maxSizeMb * 1024 * 1024, locked);
        return 0, 0;
      }
      var recent := StalePass(files, cutoff);
      staleRemoved := |files| - |recent|;
      var maxBytes := maxSizeMb * 1024 * 1024;
      var total := SumSizes(recent);
      lruRemoved := 0;
      RecentMembers(files, cutoff);
      if total > maxBytes {
        SortedCorrect(recent);
        SameMembers(Sorted(recent), recent);
        RecentDistinct(files, cutoff);
        SortedDistinct(recent);
        lruRemoved := EvictPass(Sorted(recent), total, maxBytes);
      } else {
        EvictNothing(Sorted(recent), total, maxBytes, locked);
      }
    }

    /** `files.retain`, deleting what is not retained. */
    method StalePass(files: seq<FileInfo>, cutoff: int) returns (recent: seq<FileInfo>)
      requires DistinctPaths(files) && Paths(files) <= present
      modifies this
      ensures recent == Recent(files, cutoff) && |recent| <= |files| && Paths(recent) <= present
      ensures present == old(present) - StalePaths(files, cutoff, locked)
    {
      hide StalePaths, Paths, DistinctPaths, Recent;
      recent := [];
      NothingStale(cutoff, locked);
      RecentNothing(cutoff);
      for i := 0 to |files|
        invariant recent == Recent(files[..i], cutoff) && |recent| <= i
        invariant present == old(present) - StalePaths(files[..i], cutoff, locked)
      {
        assert files[..i + 1][..i] == files[..i] && files[..i + 1] == files[..i] + [files[i]];
        StaleMore(files, i, cutoff, locked);
        RecentAppend(files[..i], files[i], cutoff);
        if files[i].modified < cutoff {
          PathListed(files, i);
          assert recent + [] == recent;
          var _ := RemoveFile(files[i].path);
        } else {
          recent := recent + [files[i]];
        }
      }
      assert files[..|files|] == files;
      RecentApart(files, cutoff, locked);
    }

    method EvictPass(files: seq<FileInfo>, total: nat, maxBytes: nat) returns (removed: nat)
      requires DistinctPaths(files) && Paths(files) <= present
      modifies this
      ensures var (gone, kept) := Evict(files, total, maxBytes, locked);
        present == old(present) - Paths(gone) && removed == |gone|
    {
      hide Evict, EvictDone;
      removed := 0;
      var running: nat := total;
      ghost var gone := [];
      EvictStart(files, total, maxBytes, locked);
      for i := 0 to |files|
        invariant EvictDone(files, total, maxBytes, locked, i, running, gone)
        invariant present == old(present) - Paths(gone) && removed == |gone|
      {
        if running <= maxBytes {
          EvictFits(files, total, maxBytes, locked, i, running, gone);
          return;
        }
        EvictOne(files, total, maxBytes, locked, i, running, gone);
        var ok := RemoveFile(files[i].path);
        if ok {
          running := if running < files[i].size then 0 else running - files[i].size;
          removed := removed + 1;
          PathsAppend(gone, files[i]);
          gone := gone + [files[i]];
        }
      }
      EvictEnd(files, total, maxBytes, locked, running, gone);
    }
  }

  /** The pass over the first `i` files has removed `gone`. */
  ghost predicate EvictDone(files: seq<FileInfo>, total: nat, maxBytes: nat, locked: set<string>,
                            i: nat, running: nat, gone: seq<FileInfo>)
  {
    && i <= |files|
    && Evict(files, total, maxBytes, locked).0 == gone + Evict(files[i..], running, maxBytes, locked).0
    && forall f :: f in gone ==> f in files[..i]
  }

  lemma EvictStart(files: seq<FileInfo>, total: nat, maxBytes: nat, locked: set<string>)
    ensures EvictDone(files, total, maxBytes, locked, 0, total, [])
  {
    hide Evict;
    assert files[0..] == files;
    assert [] + Evict(files, total, maxBytes, locked).0 == Evict(files, total, maxBytes, locked).0;
  }

  lemma EvictFits(files: seq<FileInfo>, total: nat, maxBytes: nat, locked: set<string>, i: nat, running: nat, gone: seq<FileInfo>)
    requires EvictDone(files, total, maxBytes, locked, i, running, gone) && running <= maxBytes
    ensures Evict(files, total, maxBytes, locked).0 == gone
  {
    hide Evict;
    EvictNothing(files[i..], running, maxBytes, locked);
    assert gone + [] == gone;
  }

  lemma EvictEnd(files: seq<FileInfo>, total: nat, maxBytes: nat, locked: set<string>, running: nat, gone: seq<FileInfo>)
    requires EvictDone(files, total, maxBytes, locked, |files|, running, gone)
    ensures Evict(files, total, maxBytes, locked).0 == gone
  {
    var rest := files[|files|..];
    assert rest == [] && Evict(rest, running, maxBytes, locked).0 == [];
    assert gone + [] == gone;
  }

  lemma EvictHead(files: seq<FileInfo>, running: nat, maxBytes: nat, locked: set<string>, i: nat)
    requires i < |files| && running > maxBytes
    ensures var f := files[i];
      var left := if running < f.size then 0 else running - f.size;
      Evict(files[i..], running, maxBytes, locked).0
        == if f.path in locked then Evict(files[i + 1..], running, maxBytes, locked).0
           else [f] + Evict(files[i + 1..], left, maxBytes, locked).0
  {
    var rest := files[i..];
    assert rest[0] == files[i] && rest[1..] == files[i + 1..];
  }

  lemma EvictOne(files: seq<FileInfo>, total: nat, maxBytes: nat, locked: set<string>, i: nat, running: nat, gone: seq<FileInfo>)
    requires EvictDone(files, total, maxBytes, locked, i, running, gone)
    requires i < |files| && running > maxBytes && DistinctPaths(files)
    ensures var f := files[i];
      && f.path !in Paths(gone)
      && if f.path in locked then EvictDone(files, total, maxBytes, locked, i + 1, running, gone)
         else EvictDone(files, total, maxBytes, locked, i + 1,
                        if running < f.size then 0 else running - f.size, gone + [f])
  {
    hide Evict;
    var f := files[i];
    var left := if running < f.size then 0 else running - f.size;
    PathsApart(files, i, gone);
    EvictHead(files, running, maxBytes, locked, i);
    assert files[..i + 1] == files[..i] + [f];
    assert gone + ([f] + Evict(files[i + 1..], left, maxBytes, locked).0)
        == gone + [f] + Evict(files[i + 1..], left, maxBytes, locked).0;
  }

  method SumSizes(files: seq<FileInfo>) returns (total: nat)
    ensures total == Total(files)
  {
    total := 0;
    for i := 0 to |files|
      invariant total == Total(files[..i])
    {
      assert files[..i + 1] == files[..i] + [files[i]];
      TotalAppend(files[..i], [files[i]]);
      total := total + files[i].size;
    }
    assert files[..|files|] == files;
  }

  lemma NothingToDo(cutoff: int, maxBytes: nat, locked: set<string>)
    ensures SizePass([], cutoff, maxBytes, locked) == ([], [])
  {
  }

  lemma EvictNothing(files: seq<FileInfo>, running: nat, maxBytes: nat, locked: set<string>)
    requires running <= maxBytes
    ensures Evict(files, running, maxBytes, locked) == ([], files)
  {
  }

  lemma PathsAppend(files: seq<FileInfo>, f: FileInfo)
    ensures Paths(files + [f]) == Paths(files) + {f.path}
  {
    assert forall g :: g in files + [f] <==> g in files || g == f;
  }

  lemma PathsApart(files: seq<FileInfo>, i: nat, gone: seq<FileInfo>)
    requires DistinctPaths(files) && i < |files| && forall f :: f in gone ==> f in files[..i]
    ensures files[i].path !in Paths(gone)
  {
    forall f | f in gone
      ensures f.path != files[i].path
    {
      var j :| 0 <= j < i && files[..i][j] == f;
      assert files[j].path != files[i].path;
    }
  }

  lemma PathListed(files: seq<FileInfo>, i: nat)
    requires i < |files|
    ensures files[i].path in Paths(files)
  {
  }

  lemma NothingStale(cutoff: int, locked: set<string>)
    ensures StalePaths([], cutoff, locked) == {}
  {
  }

  /** One file more; no earlier file has its path. */
  lemma StaleMore(files: seq<FileInfo>, i: nat, cutoff: int, locked: set<string>)
    requires DistinctPaths(files) && i < |files|
    ensures StalePaths(files[..i + 1], cutoff, locked)
         == StalePaths(files[..i], cutoff, locked) + if StaleUnlocked(files[i], cutoff, locked) then {files[i].path} else {}
    ensures files[i].path !in StalePaths(files[..i], cutoff, locked)
  {
    assert files[..i + 1] == files[..i] + [files[i]];
    assert forall f :: f in files[..i + 1] <==> f in files[..i] || f == files[i];
    forall f | f in files[..i]
      ensures f.path != files[i].path
    {
      var j :| 0 <= j < i && files[..i][j] == f;
      assert files[j].path != files[i].path;
    }
  }

  /** The recent files are still there after the stale ones have gone. */
  lemma RecentApart(files: seq<FileInfo>, cutoff: int, locked: set<string>)
    requires DistinctPaths(files)
    ensures Paths(Recent(files, cutoff)) <= Paths(files) && Paths(Recent(files, cutoff)) !! StalePaths(files, cutoff, locked)
  {
    hide DistinctPaths;
    RecentMembers(files, cutoff);
    StaleApart(files, cutoff);
  }

  lemma {:induction false} RecentDistinct(files: seq<FileInfo>, cutoff: int)
    requires DistinctPaths(files)
    ensures DistinctPaths(Recent(files, cutoff))
  {
    if files != [] {
      var n := |files| - 1;
      RecentDistinct(files[..n], cutoff);
      RecentMembers(files[..n], cutoff);
      var r := Recent(files[..n], cutoff);
      forall i | 0 <= i < |r|
        ensures r[i].path != files[n].path
      {
        assert r[i] in files[..n];
      }
    }
  }

  lemma {:induction false} SortedDistinct(files: seq<FileInfo>)
    requires DistinctPaths(files)
    ensures DistinctPaths(Sorted(files))
  {
    if files != [] {
      var n := |files| - 1;
      SortedDistinct(files[..n]);
      SortedCorrect(files[..n]);
      SameMembers(Sorted(files[..n]), files[..n]);
      InsertDistinct(Sorted(files[..n]), files[n]);
    }
  }

  lemma {:induction false} InsertDistinct(s: seq<FileInfo>, x: FileInfo)
    requires DistinctPaths(s) && OldestFirst(s) && forall f :: f in s ==> f.path != x.path
    ensures DistinctPaths(Insert(s, x))
  {
    if s != [] && s[|s| - 1].modified > x.modified {
      var init, last := s[..|s| - 1], s[|s| - 1];
      assert s == init + [last];
      InsertDistinct(init, x);
      InsertOrder(init, x);
      var r := Insert(init, x);
      forall i | 0 <= i < |r|
        ensures r[i].path != last.path
      {
        assert r[i] in r;
      }
    }
  }
}

/**
  Size-based log rotation (cmd/anubis/logrotate.go) over an abstract directory:
  file 0 is the log, file i its i-th backup. File operations do not fail, and a
  write is one log entry.
 */
module LogRotate {

  newtype byte = x: int | 0 <= x < 256

  type Entry = seq<byte>

  type Disk = map<nat, seq<byte>>

  const DEFAULT_MAX_SIZE_MB := 100
  const DEFAULT_MAX_BACKUPS := 5

  // ---------------------------------------------------------------------
  // Specification: the files as lists of entries, newest file first
  // ---------------------------------------------------------------------

  function Flat(entries: seq<Entry>): seq<byte>
  {
    if entries == [] then [] else Flat(entries[..|entries| - 1]) + entries[|entries| - 1]
  }

  function Render(files: seq<seq<Entry>>): Disk
  {
    map i: nat | 0 <= i < |files| :: Flat(files[i])
  }

  predicate Rotates(files: seq<seq<Entry>>, p: Entry, maxSize: nat)
    requires files != []
  {
    |Flat(files[0])| > 0 && |Flat(files[0])| + |p| > maxSize
  }

  /** Every file moves one place up; the one past the last backup is gone. */
  function Rotated(files: seq<seq<Entry>>, maxBackups: nat): (r: seq<seq<Entry>>)
    requires files != [] && maxBackups >= 1
    ensures r != []
  {
    [[]] + if |files| > maxBackups then files[..maxBackups] else files
  }

  function Appended(files: seq<seq<Entry>>, p: Entry): (r: seq<seq<Entry>>)
    requires files != []
    ensures r != []
  {
    files[0 := files[0] + [p]]
  }

  function Wrote(files: seq<seq<Entry>>, p: Entry, maxSize: nat, maxBackups: nat): (r: seq<seq<Entry>>)
    requires files != [] && maxBackups >= 1
    ensures r != []
  {
    Appended(if Rotates(files, p, maxSize) then Rotated(files, maxBackups) else files, p)
  }

  // ---------------------------------------------------------------------
  // The file
  // ---------------------------------------------------------------------

  function Renamed(disk: Disk, from: nat, to: nat): Disk
  {
    if from in disk then (disk - {from})[to := disk[from]] else disk
  }

  /** Every file up to the last backup has moved up by one, and the log is empty. */
  ghost predicate Shifted(before: Disk, after: Disk, maxBackups: nat)
  {
    && 0 in after && after[0] == []
    && forall j: nat :: j >= 1 ==> ShiftedAt(before, after, maxBackups, j)
  }

  ghost predicate ShiftedAt(before: Disk, after: Disk, maxBackups: nat, j: nat)
  {
    if 1 <= j <= maxBackups then Same(after, j, before, j - 1) else Same(after, j, before, j)
  }

  predicate Same(a: Disk, i: nat, b: Disk, j: nat)
  {
    (i in a <==> j in b) && (i in a ==> a[i] == b[j])
  }

  /** The renames of rotate, oldest first so that no backup is overwritten. */
  method ShiftFiles(before: Disk, maxBackups: nat) returns (disk: Disk)
    requires maxBackups >= 1
    ensures Shifted(before, disk, maxBackups)
  {
    disk := before - {maxBackups};
    var i := maxBackups - 1;
    while i >= 1
      invariant 0 <= i <= maxBackups - 1
      invariant forall j: nat :: j <= i ==> Same(disk, j, before, j)
      invariant i + 1 !in disk
      invariant forall j: nat :: i + 1 < j ==> ShiftedAt(before, disk, maxBackups, j)
    {
      ghost var prior := disk;
      assert Same(prior, i, before, i);
      disk := Renamed(disk, i, i + 1);
      forall j: nat
        ensures j < i ==> Same(disk, j, before, j)
        ensures i < j ==> ShiftedAt(before, disk, maxBackups, j)
      {
        assert j < i ==> Same(prior, j, before, j);
        assert i + 1 < j ==> ShiftedAt(before, prior, maxBackups, j);
      }
      i := i - 1;
    }
    ghost var prior := disk;
    assert Same(prior, 0, before, 0);
    disk := Renamed(disk, 0, 1);
    disk := disk[0 := []];
    forall j: nat | j >= 1
      ensures ShiftedAt(before, disk, maxBackups, j)
    {
      if j > 1 {
        assert ShiftedAt(before, prior, maxBackups, j) && Same(disk, j, prior, j);
      }
    }
  }

  lemma ShiftedRender(files: seq<seq<Entry>>, disk: Disk, maxBackups: nat)
    requires files != [] && maxBackups >= 1 && |files| <= maxBackups + 1
    requires Shifted(Render(files), disk, maxBackups)
    ensures disk == Render(Rotated(files, maxBackups))
  {
    var next := Render(Rotated(files, maxBackups));
    forall j: nat
      ensures Same(disk, j, next, j)
    {
      if j >= 1 {
        assert ShiftedAt(Render(files), disk, maxBackups, j);
      }
    }
    SameEverywhere(disk, next);
  }

  lemma SameEverywhere(a: Disk, b: Disk)
    requires forall j: nat :: Same(a, j, b, j)
    ensures a == b
  {
    assert forall j: nat :: j in a ==> Same(a, j, b, j);
    assert forall j: nat :: j in b ==> Same(a, j, b, j);
    assert a.Keys == b.Keys;
  }

  lemma RenderAppended(files: seq<seq<Entry>>, p: Entry)
    requires files != []
    ensures Render(Appended(files, p)) == Render(files)[0 := Render(files)[0] + p]
  {
    AppendedEntry(files[0], p);
  }

  class RotatingFile {
    const maxSize: nat
    const maxBackups: nat
    var disk: Disk
    var size: nat
    ghost var files: seq<seq<Entry>>

    ghost predicate Valid()
      reads this
    {
      && maxSize >= 1 && maxBackups >= 1
      && 1 <= |files| <= maxBackups + 1
      && disk == Render(files)
      && size == |disk[0]|
    }

    /** openRotatingFile in an empty directory. */
    constructor (maxSizeMB: int, maxBackups: int)
      ensures Valid() && files == [[]]
      ensures this.maxSize == (if maxSizeMB <= 0 then 100 else maxSizeMB) * 1024 * 1024
      ensures this.maxBackups == if maxBackups <= 0 then 5 else maxBackups
    {
      var sizeMB := if maxSizeMB <= 0 then DEFAULT_MAX_SIZE_MB else maxSizeMB;
      this.maxSize := sizeMB * 1_048_576;
      this.maxBackups := if maxBackups <= 0 then DEFAULT_MAX_BACKUPS else maxBackups;
      disk := map[0 := []];
      size := 0;
      files := [[]];
    }

    method Rotate()
      requires Valid()
      modifies this
      ensures Valid() && files == Rotated(old(files), maxBackups)
    {
      disk := ShiftFiles(disk, maxBackups);
      ShiftedRender(files, disk, maxBackups);
      size := 0;
      files := Rotated(files, maxBackups);
    }

    method Write(p: Entry)
      requires Valid()
      modifies this
      ensures Valid() && files == Wrote(old(files), p, maxSize, maxBackups)
    {
      if size > 0 && size + |p| > maxSize {
        Rotate();
      }
      RenderAppended(files, p);
      disk := disk[0 := disk[0] + p];
      size := size + |p|;
      files := Appended(files, p);
    }
  }

  // ---------------------------------------------------------------------
  // What the files hold after any sequence of writes
  // ---------------------------------------------------------------------

  function FilesAfter(writes: seq<Entry>, maxSize: nat, maxBackups: nat): (r: seq<seq<Entry>>)
    requires maxBackups >= 1
    ensures r != []
  {
    if writes == [] then [[]]
    else Wrote(FilesAfter(writes[..|writes| - 1], maxSize, maxBackups), writes[|writes| - 1], maxSize, maxBackups)
  }

  /** All entries on disk: oldest backup to newest, then the log. */
  function Kept(files: seq<seq<Entry>>): seq<Entry>
  {
    if files == [] then [] else Kept(files[1..]) + files[0]
  }

  function NonEmpty(entries: seq<Entry>): nat
  {
    if entries == [] then 0 else NonEmpty(entries[..|entries| - 1]) + if entries[|entries| - 1] == [] then 0 else 1
  }

  predicate Bounded(entries: seq<Entry>, maxSize: nat)
  {
    |Flat(entries)| <= maxSize || NonEmpty(entries) <= 1
  }

  predicate IsSuffix<T(==)>(a: seq<T>, b: seq<T>)
  {
    |a| <= |b| && b[|b| - |a|..] == a
  }

  lemma {:induction false} EmptyFileHasNoContent(entries: seq<Entry>)
    ensures |Flat(entries)| == 0 <==> NonEmpty(entries) == 0
  {
    if entries != [] {
      EmptyFileHasNoContent(entries[..|entries| - 1]);
    }
  }

  lemma AppendedEntry(entries: seq<Entry>, p: Entry)
    ensures Flat(entries + [p]) == Flat(entries) + p
    ensures NonEmpty(entries + [p]) == NonEmpty(entries) + if p == [] then 0 else 1
  {
    assert (entries + [p])[..|entries|] == entries;
  }

  /** Dropping the oldest file leaves a suffix. */
  lemma {:induction false} KeptOfNewest(files: seq<seq<Entry>>, n: nat)
    requires n <= |files|
    ensures IsSuffix(Kept(files[..n]), Kept(files))
  {
    if n == |files| {
      assert files[..n] == files;
    } else if n > 0 {
      KeptOfNewest(files[1..], n - 1);
      assert files[1..][..n - 1] == files[..n][1..];
      var a, b := Kept(files[..n][1..]), Kept(files[1..]);
      assert Kept(files[..n]) == a + files[0] && Kept(files) == b + files[0];
      assert (b + files[0])[|b| - |a|..] == b[|b| - |a|..] + files[0];
    }
  }

  lemma KeptAppended(files: seq<seq<Entry>>, p: Entry)
    requires files != []
    ensures Kept(Appended(files, p)) == Kept(files) + [p]
  {
    assert Appended(files, p)[1..] == files[1..];
    assert Kept(files[1..]) + (files[0] + [p]) == Kept(files[1..]) + files[0] + [p];
  }

  lemma KeptRotated(files: seq<seq<Entry>>, maxBackups: nat)
    requires files != [] && maxBackups >= 1
    ensures IsSuffix(Kept(Rotated(files, maxBackups)), Kept(files))
    ensures |files| <= maxBackups ==> Kept(Rotated(files, maxBackups)) == Kept(files)
  {
    var shifted := if |files| > maxBackups then files[..maxBackups] else files;
    assert Rotated(files, maxBackups)[1..] == shifted;
    assert Kept(shifted) + [] == Kept(shifted);
    KeptOfNewest(files, |shifted|);
    assert files[..|shifted|] == shifted;
  }

  lemma SuffixExtends<T>(a: seq<T>, b: seq<T>, c: seq<T>, x: T)
    requires IsSuffix(a, b) && IsSuffix(b, c)
    ensures IsSuffix(a + [x], c + [x])
  {
    assert c[|c| - |a|..] == a;
    assert (c + [x])[|c| - |a|..] == c[|c| - |a|..] + [x];
  }

  ghost predicate Inv(files: seq<seq<Entry>>, writes: seq<Entry>, maxSize: nat, maxBackups: nat)
  {
    && 1 <= |files| <= maxBackups + 1
    && IsSuffix(Kept(files), writes)
    && (|files| <= maxBackups ==> Kept(files) == writes)
    && (forall i :: 0 <= i < |files| ==> Bounded(files[i], maxSize))
    && Packed(files, maxSize)
  }

  /** A file was closed only because the entry that opened its successor did not fit. */
  ghost predicate Packed(files: seq<seq<Entry>>, maxSize: nat)
  {
    forall i :: 0 <= i < |files| - 1 ==> ClosedFor(files[i + 1], files[i], maxSize)
  }

  predicate ClosedFor(older: seq<Entry>, newer: seq<Entry>, maxSize: nat)
  {
    newer != [] && |Flat(older)| > 0 && |Flat(older)| + |newer[0]| > maxSize
  }

  /** The file about to be written to. */
  function Target(files: seq<seq<Entry>>, p: Entry, maxSize: nat, maxBackups: nat): (r: seq<seq<Entry>>)
    requires files != [] && maxBackups >= 1
    ensures r != []
  {
    if Rotates(files, p, maxSize) then Rotated(files, maxBackups) else files
  }

  lemma WriteKeepsBounds(files: seq<seq<Entry>>, p: Entry, maxSize: nat, maxBackups: nat)
    requires files != [] && maxBackups >= 1 && forall i :: 0 <= i < |files| ==> Bounded(files[i], maxSize)
    ensures var r := Wrote(files, p, maxSize, maxBackups); forall i :: 0 <= i < |r| ==> Bounded(r[i], maxSize)
  {
    var base := Target(files, p, maxSize, maxBackups);
    AppendedEntry(base[0], p);
    EmptyFileHasNoContent(base[0]);
    assert forall i :: 1 <= i < |base| ==> base[i] in files;
  }

  lemma WriteKeepsPacked(files: seq<seq<Entry>>, p: Entry, maxSize: nat, maxBackups: nat)
    requires files != [] && maxBackups >= 1 && Packed(files, maxSize)
    ensures Packed(Wrote(files, p, maxSize, maxBackups), maxSize)
  {
    var r := Wrote(files, p, maxSize, maxBackups);
    forall i | 0 <= i < |r| - 1
      ensures ClosedFor(r[i + 1], r[i], maxSize)
    {
      if Rotates(files, p, maxSize) {
        assert r[i + 1] == files[i];
        if i > 0 {
          assert r[i] == files[i - 1] && ClosedFor(files[i - 1 + 1], files[i - 1], maxSize);
        }
      } else {
        assert ClosedFor(files[i + 1], files[i], maxSize);
      }
    }
  }

  lemma WriteKeepsSuffix(files: seq<seq<Entry>>, writes: seq<Entry>, p: Entry, maxSize: nat, maxBackups: nat)
    requires files != [] && maxBackups >= 1 && |files| <= maxBackups + 1
    requires IsSuffix(Kept(files), writes) && (|files| <= maxBackups ==> Kept(files) == writes)
    ensures var r := Wrote(files, p, maxSize, maxBackups);
            IsSuffix(Kept(r), writes + [p]) && (|r| <= maxBackups ==> Kept(r) == writes + [p])
  {
    var base := Target(files, p, maxSize, maxBackups);
    KeptRotated(files, maxBackups);
    KeptAppended(base, p);
    assert Kept(files)[0..] == Kept(files);
    SuffixExtends(Kept(base), Kept(files), writes, p);
  }

  lemma {:induction false} RunKeepsInv(writes: seq<Entry>, maxSize: nat, maxBackups: nat)
    requires maxBackups >= 1
    ensures Inv(FilesAfter(writes, maxSize, maxBackups), writes, maxSize, maxBackups)
  {
    if writes != [] {
      var rest, last := writes[..|writes| - 1], writes[|writes| - 1];
      RunKeepsInv(rest, maxSize, maxBackups);
      var files := FilesAfter(rest, maxSize, maxBackups);
      WriteKeepsBounds(files, last, maxSize, maxBackups);
      WriteKeepsPacked(files, last, maxSize, maxBackups);
      WriteKeepsSuffix(files, rest, last, maxSize, maxBackups);
      assert writes == rest + [last];
    }
  }

  /**
    After any writes: the backups oldest to newest followed by the log are a
    suffix of everything written, in whole entries; nothing is dropped before the
    backups are used up; backups are contiguous and at most maxBackups; and every
    file is within maxSize or holds a single non-empty entry, and was closed only
    for an entry that did not fit.
   */
  lemma FilesHoldRecentEntries(writes: seq<Entry>, maxSize: nat, maxBackups: nat)
    requires maxBackups >= 1
    ensures var files := FilesAfter(writes, maxSize, maxBackups);
            && |files| - 1 <= maxBackups
            && IsSuffix(Kept(files), writes)
            && (|files| - 1 < maxBackups ==> Kept(files) == writes)
            && (forall i :: 0 <= i < |files| ==> Bounded(files[i], maxSize))
            && Packed(files, maxSize)
  {
    RunKeepsInv(writes, maxSize, maxBackups);
  }

  /** The same in bytes: the file contents in order are a suffix of the bytes written. */
  lemma BytesAreSuffix(writes: seq<Entry>, maxSize: nat, maxBackups: nat)
    requires maxBackups >= 1
    ensures var files := FilesAfter(writes, maxSize, maxBackups);
            IsSuffix(Contents(Render(files), |files|), Flat(writes))
  {
    var files := FilesAfter(writes, maxSize, maxBackups);
    FilesHoldRecentEntries(writes, maxSize, maxBackups);
    SuffixBytes(files, writes);
  }

  lemma SuffixBytes(files: seq<seq<Entry>>, writes: seq<Entry>)
    requires IsSuffix(Kept(files), writes)
    ensures IsSuffix(Contents(Render(files), |files|), Flat(writes))
  {
    ContentsAreKept(files, |files|);
    assert files[..|files|] == files;
    FlatSuffix(writes, |writes| - |Kept(files)|);
  }

  /** The bytes of files n - 1 down to 0. */
  function Contents(disk: Disk, n: nat): seq<byte>
    requires forall i: nat :: i < n ==> i in disk
  {
    if n == 0 then [] else disk[n - 1] + Contents(disk, n - 1)
  }

  lemma {:induction false} ContentsAreKept(files: seq<seq<Entry>>, n: nat)
    requires n <= |files|
    ensures Contents(Render(files), n) == Flat(Kept(files[..n]))
  {
    if n > 0 {
      ContentsAreKept(files, n - 1);
      KeptOldest(files[..n]);
      assert files[..n][..n - 1] == files[..n - 1];
      FlatConcat(files[n - 1], Kept(files[..n - 1]));
    }
  }

  lemma {:induction false} KeptOldest(files: seq<seq<Entry>>)
    requires files != []
    ensures Kept(files) == files[|files| - 1] + Kept(files[..|files| - 1])
  {
    if |files| > 1 {
      KeptOldest(files[1..]);
      assert files[1..][..|files| - 2] == files[..|files| - 1][1..];
    }
  }

  lemma {:induction false} FlatConcat(a: seq<Entry>, b: seq<Entry>)
    ensures Flat(a + b) == Flat(a) + Flat(b)
  {
    if b == [] {
      assert a + b == a;
    } else {
      var rest := b[..|b| - 1];
      FlatConcat(a, rest);
      assert (a + b)[..|a + b| - 1] == a + rest;
    }
  }

  lemma FlatSuffix(writes: seq<Entry>, k: nat)
    requires k <= |writes|
    ensures IsSuffix(Flat(writes[k..]), Flat(writes))
  {
    FlatConcat(writes[..k], writes[k..]);
    assert writes == writes[..k] + writes[k..];
  }
}

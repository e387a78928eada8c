/** Incremental change detection of the backup engine: the files of a stored
    snapshot are compared with a fresh directory scan, and every path is
    labelled created, modified or deleted (or left out when unchanged). */
module Incremental {
  import opened Common

  datatype FileMetadata = FileMetadata(path: string, size: nat, mtime: real, ctime: real, mode: int,
                                       uid: int, gid: int, hashValue: Option<string>, inode: Option<int>)

  datatype ChangeType = Created | Modified | Deleted | Unchanged | Renamed

  datatype FileChange = FileChange(path: string, changeType: ChangeType, oldMetadata: Option<FileMetadata>,
                                   newMetadata: Option<FileMetadata>, similarity: real)

  datatype BackupResult = BackupResult(totalFiles: nat, changedFiles: nat, newFiles: nat, deletedFiles: nat,
                                       modifiedFiles: nat, renamedFiles: nat, totalSizeChanged: int,
                                       changes: seq<FileChange>)

  /** `analyze_changes` raises when the named snapshot is not stored. */
  datatype Outcome<T> = SnapshotNotFound | Ok(value: T)

  /** A dictionary keyed by path, in insertion order: each record is stored
      under its own path, so paths are distinct. */
  type Listing = seq<FileMetadata>

  predicate Distinct(d: Listing)
  {
    forall i, j :: 0 <= i < j < |d| ==> d[i].path != d[j].path
  }

  /** The record stored under `p`. */
  function Lookup(d: Listing, p: string): (r: Option<FileMetadata>)
    ensures r.Some? ==> r.value in d && r.value.path == p
    ensures r.None? <==> forall i :: 0 <= i < |d| ==> d[i].path != p
  {
    if d == [] then None
    else if d[|d| - 1].path == p then Some(d[|d| - 1])
    else Lookup(d[..|d| - 1], p)
  }

  function Paths(d: Listing): set<string>
  {
    set i | 0 <= i < |d| :: d[i].path
  }

  // ---------------------------------------------------------------- similarity

  /** Python truthiness of an optional hash: present and non-empty. */
  predicate Truthy(h: Option<string>)
  {
    h.Some? && h.value != ""
  }

  function Min(a: real, b: real): real { if a <= b then a else b }
  function Max(a: real, b: real): real { if a <= b then b else a }

  function Abs(x: real): real { if x < 0.0 then -x else x }

  /** `_calculate_similarity` of two present records. */
  function Similarity(oldMeta: FileMetadata, newMeta: FileMetadata): real
  {
    var big := Max(oldMeta.size as real, newMeta.size as real);
    var sizeRatio := if big > 0.0 then Min(oldMeta.size as real, newMeta.size as real) / big else 0.0;
    if Truthy(oldMeta.hashValue) && Truthy(newMeta.hashValue) && oldMeta.hashValue == newMeta.hashValue then 1.0
    else if Abs(newMeta.mtime - oldMeta.mtime) < 3600.0 && sizeRatio > 0.8 then 0.9
    else sizeRatio
  }

  lemma RatioAtMostOne(small: real, big: real)
    requires 0.0 <= small <= big && big > 0.0
    ensures 0.0 <= small / big <= 1.0
  {
    var q := small / big;
    assert q * big == small;
    assert (1.0 - q) * big == big - small;
  }

  /** Equal present hashes give perfect similarity, and every score lies in [0, 1]. */
  lemma SimilarityBounds(oldMeta: FileMetadata, newMeta: FileMetadata)
    ensures Truthy(oldMeta.hashValue) && oldMeta.hashValue == newMeta.hashValue ==> Similarity(oldMeta, newMeta) == 1.0
    ensures 0.0 <= Similarity(oldMeta, newMeta) <= 1.0
  {
    var a, b := oldMeta.size as real, newMeta.size as real;
    var big := Max(a, b);
    if big > 0.0 {
      var small := Min(a, b);
      assert 0.0 <= small <= big;
      RatioAtMostOne(small, big);
    }
  }

  // ---------------------------------------------------------------- the diff

  /** The change the first loop records for a snapshot record. */
  function ChangeForOld(o: FileMetadata, scan: Listing): seq<FileChange>
  {
    match Lookup(scan, o.path)
    case Some(n) =>
      if o.hashValue != n.hashValue then [FileChange(o.path, Modified, Some(o), Some(n), Similarity(o, n))] else []
    case None => [FileChange(o.path, Deleted, Some(o), None, 0.0)]
  }

  /** The first loop, over the snapshot's records. */
  function OldPass(snapshot: Listing, scan: Listing): seq<FileChange>
  {
    if snapshot == [] then []
    else OldPass(snapshot[..|snapshot| - 1], scan) + ChangeForOld(snapshot[|snapshot| - 1], scan)
  }

  /** The second loop, over the scanned records not already processed. */
  function NewPass(scan: Listing, processed: set<string>): seq<FileChange>
  {
    if scan == [] then []
    else
      var n := scan[|scan| - 1];
      NewPass(scan[..|scan| - 1], processed)
      + (if n.path !in processed then [FileChange(n.path, Created, None, Some(n), 0.0)] else [])
  }

  function Changes(snapshot: Listing, scan: Listing): seq<FileChange>
  {
    OldPass(snapshot, scan) + NewPass(scan, Paths(snapshot))
  }

  /** The reference answer for one path, from the two lookups alone. */
  function Expected(snapshot: Listing, scan: Listing, p: string): seq<FileChange>
  {
    match (Lookup(snapshot, p), Lookup(scan, p))
    case (Some(o), Some(n)) =>
      if o.hashValue != n.hashValue then [FileChange(p, Modified, Some(o), Some(n), Similarity(o, n))] else []
    case (Some(o), None) => [FileChange(p, Deleted, Some(o), None, 0.0)]
    case (None, Some(n)) => [FileChange(p, Created, None, Some(n), 0.0)]
    case (None, None) => []
  }

  /** The changes recorded for path `p`, in order. */
  function At(changes: seq<FileChange>, p: string): seq<FileChange>
  {
    if changes == [] then []
    else At(changes[..|changes| - 1], p) + (if changes[|changes| - 1].path == p then [changes[|changes| - 1]] else [])
  }

  lemma {:induction false} AtAppend(a: seq<FileChange>, b: seq<FileChange>, p: string)
    ensures At(a + b, p) == At(a, p) + At(b, p)
    decreases |b|
  {
    if b != [] {
      assert (a + b)[..|a + b| - 1] == a + b[..|b| - 1];
      AtAppend(a, b[..|b| - 1], p);
    } else {
      assert a + b == a;
    }
  }

  lemma {:induction false} OldPassAt(snapshot: Listing, scan: Listing, p: string)
    requires Distinct(snapshot)
    ensures At(OldPass(snapshot, scan), p) ==
            match Lookup(snapshot, p) case Some(o) => ChangeForOld(o, scan) case None => []
  {
    if snapshot != [] {
      var front, o := snapshot[..|snapshot| - 1], snapshot[|snapshot| - 1];
      LastOfDistinct(snapshot, p);
      OldPassAt(front, scan, p);
      AtAppend(OldPass(front, scan), ChangeForOld(o, scan), p);
      ChangeForOldAt(o, scan, p);
      if o.path == p {
        assert Lookup(snapshot, p) == Some(o);
        assert At(OldPass(front, scan), p) == [];
      } else {
        assert Lookup(snapshot, p) == Lookup(front, p);
        assert At(ChangeForOld(o, scan), p) == [];
      }
    }
  }

  /** Taking the last record off a listing with distinct paths. */
  lemma LastOfDistinct(d: Listing, p: string)
    requires d != [] && Distinct(d)
    ensures Distinct(d[..|d| - 1])
    ensures d[|d| - 1].path == p ==> Lookup(d[..|d| - 1], p).None?
  {
    var front := d[..|d| - 1];
    assert forall i :: 0 <= i < |front| ==> front[i] == d[i];
  }

  lemma ChangeForOldAt(o: FileMetadata, scan: Listing, p: string)
    ensures At(ChangeForOld(o, scan), p) == if o.path == p then ChangeForOld(o, scan) else []
  {
    var c := ChangeForOld(o, scan);
    if |c| == 1 {
      assert c[0].path == o.path;
      assert At(c, p) == At([], p) + (if o.path == p then [c[0]] else []);
    }
  }

  lemma {:induction false} NewPassAt(scan: Listing, processed: set<string>, p: string)
    requires Distinct(scan)
    ensures At(NewPass(scan, processed), p) ==
            if p !in processed && Lookup(scan, p).Some?
            then [FileChange(p, Created, None, Lookup(scan, p), 0.0)] else []
  {
    if scan != [] {
      var front, n := scan[..|scan| - 1], scan[|scan| - 1];
      LastOfDistinct(scan, p);
      NewPassAt(front, processed, p);
      var tail := if n.path !in processed then [FileChange(n.path, Created, None, Some(n), 0.0)] else [];
      assert NewPass(scan, processed) == NewPass(front, processed) + tail;
      AtAppend(NewPass(front, processed), tail, p);
      if tail != [] {
        assert At(tail, p) == At([], p) + (if n.path == p then [tail[0]] else []);
      }
      if n.path == p {
        assert Lookup(scan, p) == Some(n);
      } else {
        assert Lookup(scan, p) == Lookup(front, p);
        assert At(tail, p) == [];
      }
    }
  }

  lemma PathsLookup(d: Listing, p: string)
    ensures p in Paths(d) <==> Lookup(d, p).Some?
  {
    if p in Paths(d) {
      var i :| 0 <= i < |d| && d[i].path == p;
    }
  }

  /** Each path gets exactly the change the two lookups call for: MODIFIED
      when it is in both with different hashes, nothing when the hashes are
      equal, DELETED when only the snapshot has it, CREATED when only the scan
      has it. In particular no path yields more than one change. */
  lemma ChangesPerPath(snapshot: Listing, scan: Listing, p: string)
    requires Distinct(snapshot) && Distinct(scan)
    ensures At(Changes(snapshot, scan), p) == Expected(snapshot, scan, p)
    ensures |At(Changes(snapshot, scan), p)| <= 1
  {
    var a, b := OldPass(snapshot, scan), NewPass(scan, Paths(snapshot));
    AtAppend(a, b, p);
    OldPassAt(snapshot, scan, p);
    NewPassAt(scan, Paths(snapshot), p);
    PathsLookup(snapshot, p);
    ExpectedCases(snapshot, scan, p);
  }

  /** `Expected`, case by case, in the shape the two passes produce it. */
  lemma ExpectedCases(snapshot: Listing, scan: Listing, p: string)
    ensures Lookup(snapshot, p).Some? ==>
              Expected(snapshot, scan, p) == ChangeForOld(Lookup(snapshot, p).value, scan)
    ensures Lookup(snapshot, p).None? ==>
              Expected(snapshot, scan, p) ==
              if Lookup(scan, p).Some? then [FileChange(p, Created, None, Lookup(scan, p), 0.0)] else []
    ensures |Expected(snapshot, scan, p)| <= 1
  {
    if Lookup(snapshot, p).Some? {
      var o := Lookup(snapshot, p).value;
      assert o.path == p;
    }
  }


  // ---------------------------------------------------------------- counters

  function CountType(changes: seq<FileChange>, t: ChangeType): nat
  {
    if changes == [] then 0
    else CountType(changes[..|changes| - 1], t) + (if changes[|changes| - 1].changeType == t then 1 else 0)
  }

  /** The contribution of one change to `total_size_changed`. */
  function SizeDelta(c: FileChange): int
  {
    match c.changeType
    case Created => if c.newMetadata.Some? then c.newMetadata.value.size else 0
    case Modified => if c.newMetadata.Some? && c.oldMetadata.Some? then c.newMetadata.value.size - c.oldMetadata.value.size else 0
    case Deleted => if c.oldMetadata.Some? then -(c.oldMetadata.value.size as int) else 0
    case _ => 0
  }

  function TotalDelta(changes: seq<FileChange>): int
  {
    if changes == [] then 0 else TotalDelta(changes[..|changes| - 1]) + SizeDelta(changes[|changes| - 1])
  }

  /** Only the three kinds `analyze_changes` can produce. */
  predicate Proper(changes: seq<FileChange>)
  {
    forall k :: 0 <= k < |changes| ==> changes[k].changeType.Created? || changes[k].changeType.Modified? || changes[k].changeType.Deleted?
  }

  lemma {:induction false} ProperCounts(changes: seq<FileChange>)
    requires Proper(changes)
    ensures CountType(changes, Created) + CountType(changes, Modified) + CountType(changes, Deleted) == |changes|
    ensures CountType(changes, Renamed) == 0
  {
    if changes != [] {
      ProperCounts(changes[..|changes| - 1]);
    }
  }

  lemma {:induction false} OldPassProper(snapshot: Listing, scan: Listing)
    ensures Proper(OldPass(snapshot, scan))
  {
    if snapshot != [] {
      OldPassProper(snapshot[..|snapshot| - 1], scan);
    }
  }

  lemma {:induction false} NewPassProper(scan: Listing, processed: set<string>)
    ensures Proper(NewPass(scan, processed))
  {
    if scan != [] {
      NewPassProper(scan[..|scan| - 1], processed);
    }
  }

  /** The change list holds only created, modified and deleted entries, so
      `changed_files` is the length of the list and no rename is counted. */
  lemma ChangedFilesIsChangeCount(snapshot: Listing, scan: Listing, r: BackupResult)
    requires r.changes == Changes(snapshot, scan)
    requires r.changedFiles == r.newFiles + r.modifiedFiles + r.deletedFiles + r.renamedFiles
    requires r.newFiles == CountType(r.changes, Created) && r.modifiedFiles == CountType(r.changes, Modified)
    requires r.deletedFiles == CountType(r.changes, Deleted) && r.renamedFiles == CountType(r.changes, Renamed)
    ensures r.renamedFiles == 0 && r.changedFiles == |r.changes|
  {
    OldPassProper(snapshot, scan);
    NewPassProper(scan, Paths(snapshot));
    ProperCounts(r.changes);
  }

  // ---------------------------------------------------------------- operations

  /** `analyze_changes`: the snapshot `snapshot` (None when no snapshot of that
      name is stored) against the scan `scan`. */
  method AnalyzeChanges(snapshot: Option<Listing>, scan: Listing) returns (r: Outcome<BackupResult>)
    requires snapshot.Some? ==> Distinct(snapshot.value)
    requires Distinct(scan)
    ensures r.SnapshotNotFound? <==> snapshot.None?
    ensures r.Ok? ==> var res := r.value;
              res.changes == Changes(snapshot.value, scan)
              && res.totalFiles == |scan|
              && res.newFiles == CountType(res.changes, Created)
              && res.modifiedFiles == CountType(res.changes, Modified)
              && res.deletedFiles == CountType(res.changes, Deleted)
              && res.renamedFiles == CountType(res.changes, Renamed)
              && res.changedFiles == res.newFiles + res.modifiedFiles + res.deletedFiles + res.renamedFiles
              && res.totalSizeChanged == TotalDelta(res.changes)
  {
    if snapshot.None? {
      return SnapshotNotFound;
    }
    var changes, processed := SnapshotPass(snapshot.value, scan);
    var created := ScanPass(scan, processed);
    changes := changes + created;
    var newFiles, modifiedFiles, deletedFiles, renamedFiles, sizeChanged := Tally(changes);
    r := Ok(BackupResult(|scan|, newFiles + modifiedFiles + deletedFiles + renamedFiles, newFiles, deletedFiles,
                         modifiedFiles, renamedFiles, sizeChanged, changes));
  }

  /** The first loop of `analyze_changes`, over the snapshot's records. */
  method SnapshotPass(base: Listing, scan: Listing) returns (changes: seq<FileChange>, processed: set<string>)
    ensures changes == OldPass(base, scan) && processed == Paths(base)
  {
    changes, processed := [], {};
    var i := 0;
    while i < |base|
      invariant 0 <= i <= |base|
      invariant changes == OldPass(base[..i], scan)
      invariant processed == Paths(base[..i])
    {
      var o := base[i];
      processed := processed + {o.path};
      var found := Lookup(scan, o.path);
      SnapshotPassStep(base, scan, i);
      if found.Some? {
        var n := found.value;
        if o.hashValue != n.hashValue {
          changes := changes + [FileChange(o.path, Modified, Some(o), Some(n), Similarity(o, n))];
        } else {
          assert ChangeForOld(o, scan) == [];
        }
      } else {
        changes := changes + [FileChange(o.path, Deleted, Some(o), None, 0.0)];
      }
      i := i + 1;
    }
    assert base[..i] == base;
  }

  lemma SnapshotPassStep(base: Listing, scan: Listing, i: nat)
    requires i < |base|
    ensures OldPass(base[..i + 1], scan) == OldPass(base[..i], scan) + ChangeForOld(base[i], scan)
    ensures Paths(base[..i + 1]) == Paths(base[..i]) + {base[i].path}
  {
    assert base[..i + 1][..i] == base[..i];
    assert base[..i + 1] == base[..i] + [base[i]];
    PathsSnoc(base[..i], base[i]);
  }

  lemma PathsSnoc(d: Listing, x: FileMetadata)
    ensures Paths(d + [x]) == Paths(d) + {x.path}
  {
    var e := d + [x];
    assert forall i :: 0 <= i < |d| ==> e[i] == d[i];
    assert e[|d|] == x;
  }

  /** The second loop of `analyze_changes`, over the scanned records. */
  method ScanPass(scan: Listing, processed: set<string>) returns (created: seq<FileChange>)
    ensures created == NewPass(scan, processed)
  {
    created := [];
    var j := 0;
    while j < |scan|
      invariant 0 <= j <= |scan|
      invariant created == NewPass(scan[..j], processed)
    {
      var n := scan[j];
      if n.path !in processed {
        created := created + [FileChange(n.path, Created, None, Some(n), 0.0)];
      }
      assert scan[..j + 1][..j] == scan[..j];
      j := j + 1;
    }
    assert scan[..j] == scan;
  }

  /** The statistics loop of `analyze_changes`. */
  method Tally(changes: seq<FileChange>) returns (newFiles: nat, modifiedFiles: nat, deletedFiles: nat,
                                                  renamedFiles: nat, sizeChanged: int)
    ensures newFiles == CountType(changes, Created) && modifiedFiles == CountType(changes, Modified)
    ensures deletedFiles == CountType(changes, Deleted) && renamedFiles == CountType(changes, Renamed)
    ensures sizeChanged == TotalDelta(changes)
  {
    newFiles, modifiedFiles, deletedFiles, renamedFiles, sizeChanged := 0, 0, 0, 0, 0;
    var k := 0;
    while k < |changes|
      invariant 0 <= k <= |changes|
      invariant newFiles == CountType(changes[..k], Created) && modifiedFiles == CountType(changes[..k], Modified)
      invariant deletedFiles == CountType(changes[..k], Deleted) && renamedFiles == CountType(changes[..k], Renamed)
      invariant sizeChanged == TotalDelta(changes[..k])
    {
      var c := changes[k];
      assert changes[..k + 1][..k] == changes[..k];
      match c.changeType {
        case Created =>
          newFiles := newFiles + 1;
          sizeChanged := sizeChanged + (if c.newMetadata.Some? then c.newMetadata.value.size else 0);
        case Modified =>
          modifiedFiles := modifiedFiles + 1;
          if c.newMetadata.Some? && c.oldMetadata.Some? {
            sizeChanged := sizeChanged + (c.newMetadata.value.size - c.oldMetadata.value.size);
          }
        case Deleted =>
          deletedFiles := deletedFiles + 1;
          sizeChanged := sizeChanged - (if c.oldMetadata.Some? then c.oldMetadata.value.size else 0);
        case Renamed =>
          renamedFiles := renamedFiles + 1;
        case Unchanged =>
      }
      k := k + 1;
    }
    assert changes[..k] == changes;
  }

  predicate ToBackUp(t: ChangeType)
  {
    t == Created || t == Modified
  }

  /** The paths of the created and modified changes, in order. */
  function BackupPaths(changes: seq<FileChange>): seq<string>
  {
    if changes == [] then []
    else
      var c := changes[|changes| - 1];
      BackupPaths(changes[..|changes| - 1]) + (if ToBackUp(c.changeType) then [c.path] else [])
  }

  /** `get_incremental_files`: the paths to back up. */
  method GetIncrementalFiles(snapshot: Option<Listing>, scan: Listing) returns (r: Outcome<seq<string>>)
    requires snapshot.Some? ==> Distinct(snapshot.value)
    requires Distinct(scan)
    ensures r.SnapshotNotFound? <==> snapshot.None?
    ensures r.Ok? ==> r.value == BackupPaths(Changes(snapshot.value, scan))
  {
    var analysis := AnalyzeChanges(snapshot, scan);
    if analysis.SnapshotNotFound? {
      return SnapshotNotFound;
    }
    var files := FilesToBackUp(analysis.value.changes);
    return Ok(files);
  }

  /** The loop of `get_incremental_files` over the changes. */
  method FilesToBackUp(changes: seq<FileChange>) returns (files: seq<string>)
    ensures files == BackupPaths(changes)
  {
    files := [];
    var k := 0;
    while k < |changes|
      invariant 0 <= k <= |changes|
      invariant files == BackupPaths(changes[..k])
    {
      if ToBackUp(changes[k].changeType) {
        files := files + [changes[k].path];
      }
      assert BackupPaths(changes[..k + 1]) ==
             BackupPaths(changes[..k]) + (if ToBackUp(changes[k].changeType) then [changes[k].path] else []) by {
        assert changes[..k + 1][..k] == changes[..k];
      }
      k := k + 1;
    }
    assert changes[..k] == changes;
  }

  lemma {:induction false} BackupPathsMember(changes: seq<FileChange>, p: string)
    ensures p in BackupPaths(changes) <==> exists c :: c in At(changes, p) && ToBackUp(c.changeType)
  {
    if changes != [] {
      var front, c := changes[..|changes| - 1], changes[|changes| - 1];
      BackupPathsMember(front, p);
      assert At(changes, p) == At(front, p) + (if c.path == p then [c] else []);
    }
  }

  /** A path is backed up exactly when the scan has it and either the
      snapshot does not or its hash differs. */
  lemma IncrementalFilesSpec(snapshot: Listing, scan: Listing, p: string)
    requires Distinct(snapshot) && Distinct(scan)
    ensures p in BackupPaths(Changes(snapshot, scan)) <==>
            Lookup(scan, p).Some? && (Lookup(snapshot, p).None? || Lookup(snapshot, p).value.hashValue != Lookup(scan, p).value.hashValue)
  {
    ChangesPerPath(snapshot, scan, p);
    BackupPathsMember(Changes(snapshot, scan), p);
  }
}

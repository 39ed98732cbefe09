/** A file whose pages can have a second version in the WAL, and what checkpoint and rollback outside recovery do to
    it (src/storage/buffer_manager/versioned_file_handle.cpp, src/storage/buffer_manager/file_handle.cpp,
    src/storage/wal_replayer.cpp:28-50 and 281-317, src/storage/storage_structure/storage_structure.cpp:13-40). */
module VersionedFile {
  import opened Wrappers
  import opened WalFiles

  const GROUP_SIZE := 64 // MULTI_VERSION_FILE_PAGE_GROUP_SIZE
  const NO_VERSION: nat := 0xFFFF_FFFF // UINT32_MAX

  // ---------------------------------------------------------------------------------------------
  // Page-version groups
  // ---------------------------------------------------------------------------------------------

  /** A group is either not created yet or has an entry for each of its pages. */
  type Groups = seq<seq<nat>>

  function NumGroups(numPages: nat): nat {
    (numPages + GROUP_SIZE - 1) / GROUP_SIZE
  }

  predicate GroupsOk(t: Groups, numPages: nat) {
    |t| == NumGroups(numPages) && forall k :: 0 <= k < |t| ==> |t[k]| == 0 || |t[k]| == GROUP_SIZE
  }

  function VersionAt(t: Groups, numPages: nat, p: nat): nat
    requires GroupsOk(t, numPages) && p < numPages
  {
    if t[p / GROUP_SIZE] == [] then NO_VERSION else t[p / GROUP_SIZE][p % GROUP_SIZE]
  }

  // ---------------------------------------------------------------------------------------------
  // The log
  // ---------------------------------------------------------------------------------------------

  datatype Record = PageRecord(file: nat, idx: nat, walIdx: nat, insert: bool) | Commit | Other

  predicate Concerns(r: Record, file: nat, p: nat) {
    r.PageRecord? && r.file == file && r.idx == p
  }

  /** Some record of the log is about page p of the file. */
  predicate Logged(log: seq<Record>, file: nat, p: nat) {
    exists k :: 0 <= k < |log| && Concerns(log[k], file, p)
  }

  /** Where truncating at each insertion of the log leaves a file of n pages. */
  function TruncatedTo(log: seq<Record>, file: nat, n: nat): nat {
    if log == [] then n
    else
      var rest := TruncatedTo(log[..|log| - 1], file, n);
      var r := log[|log| - 1];
      if r.PageRecord? && r.file == file && r.insert && r.idx < rest then r.idx else rest
  }

  ghost predicate Inserts(log: seq<Record>, file: nat, p: nat) {
    exists k :: 0 <= k < |log| && Concerns(log[k], file, p) && log[k].insert
  }

  /** Whatever the order of the insertion records, the file ends at the least inserted page. */
  lemma {:induction false} TruncatedToLeast(log: seq<Record>, file: nat, n: nat)
    ensures var m := TruncatedTo(log, file, n);
            && m <= n && (m == n || Inserts(log, file, m))
            && forall p :: Inserts(log, file, p) ==> m <= p
  {
    if log != [] {
      var rest, r := log[..|log| - 1], log[|log| - 1];
      TruncatedToLeast(rest, file, n);
      var before, m := TruncatedTo(rest, file, n), TruncatedTo(log, file, n);
      forall p | Inserts(log, file, p) ensures m <= p {
        var k :| 0 <= k < |log| && Concerns(log[k], file, p) && log[k].insert;
        if k < |rest| {
          assert Concerns(rest[k], file, p) && rest[k].insert;
          assert Inserts(rest, file, p);
        }
      }
      if m == before && m != n {
        var k :| 0 <= k < |rest| && Concerns(rest[k], file, m) && rest[k].insert;
        assert Concerns(log[k], file, m) && log[k].insert;
      } else if m != n {
        assert Concerns(log[|log| - 1], file, m) && log[|log| - 1].insert;
      }
    }
  }

  // ---------------------------------------------------------------------------------------------
  // The file handle, with the frames of its pages, its disk image and the WAL pages
  // ---------------------------------------------------------------------------------------------

  /** An entry of pageIdxToFrameMap: a null pointer past the last page, else the frame of the page, if any. */
  datatype FrameSlot = Null | Ptr(frame: Option<Page>)

  predicate CleanAt(frames: seq<FrameSlot>, disk: seq<Page>, p: nat) {
    p < |frames| && frames[p].Ptr? && frames[p].frame.Some? ==> p < |disk| && frames[p].frame.value == disk[p]
  }

  predicate AllClean(frames: seq<FrameSlot>, disk: seq<Page>, n: nat) {
    forall p :: 0 <= p < n && p < |frames| && frames[p].Ptr? && frames[p].frame.Some? ==>
                  p < |disk| && frames[p].frame.value == disk[p]
  }

  lemma AllCleanAt(frames: seq<FrameSlot>, disk: seq<Page>, n: nat)
    requires forall p :: 0 <= p < n ==> CleanAt(frames, disk, p)
    ensures AllClean(frames, disk, n)
  {
    forall p | 0 <= p < n && p < |frames| && frames[p].Ptr? && frames[p].frame.Some?
      ensures p < |disk| && frames[p].frame.value == disk[p]
    {
      assert CleanAt(frames, disk, p);
    }
  }

  /** A page's frame if it has one, else its disk image. */
  function PageView(frames: seq<FrameSlot>, disk: seq<Page>, p: nat): Page
    requires p < |disk|
  {
    if p < |frames| && frames[p].Ptr? && frames[p].frame.Some? then frames[p].frame.value else disk[p]
  }

  ghost predicate RecordFits(r: Record, t: Groups, n: nat, base: nat, walLen: nat)
    requires GroupsOk(t, n)
  {
    && r.PageRecord? && r.idx < n && VersionAt(t, n, r.idx) == r.walIdx && r.walIdx < walLen
    && (r.insert <==> r.idx >= base)
  }

  /** Versions and records correspond: the pages with a WAL version are the logged ones, and those not on disk yet
      (from `base` on) are the inserted ones. */
  ghost predicate LogMatches(log: seq<Record>, file: nat, t: Groups, n: nat, base: nat, walLen: nat)
    requires GroupsOk(t, n)
  {
    && walLen < NO_VERSION
    && (forall p :: 0 <= p < n && VersionAt(t, n, p) != NO_VERSION ==> Logged(log, file, p))
    && (forall k :: 0 <= k < |log| && log[k].PageRecord? && log[k].file == file ==>
        RecordFits(log[k], t, n, base, walLen))
    && (forall p :: base <= p < n ==> VersionAt(t, n, p) != NO_VERSION)
    && (forall p, q :: 0 <= p < q < n && VersionAt(t, n, p) == VersionAt(t, n, q) ==> VersionAt(t, n, p) == NO_VERSION)
  }

  lemma LoggedVersion(log: seq<Record>, file: nat, t: Groups, n: nat, base: nat, walLen: nat, p: nat)
    requires GroupsOk(t, n) && LogMatches(log, file, t, n, base, walLen) && p < n
    ensures VersionAt(t, n, p) != NO_VERSION <==> Logged(log, file, p)
    ensures VersionAt(t, n, p) != NO_VERSION ==> VersionAt(t, n, p) < walLen
    ensures p >= base ==> Inserts(log, file, p)
  {
    if Logged(log, file, p) {
      var k :| 0 <= k < |log| && Concerns(log[k], file, p);
      assert RecordFits(log[k], t, n, base, walLen);
    }
  }

  lemma VersionsInWal(log: seq<Record>, file: nat, t: Groups, n: nat, base: nat, walLen: nat)
    requires GroupsOk(t, n) && LogMatches(log, file, t, n, base, walLen)
    ensures forall p :: 0 <= p < n ==> VersionAt(t, n, p) == NO_VERSION || VersionAt(t, n, p) < walLen
  {
    forall p | 0 <= p < n ensures VersionAt(t, n, p) == NO_VERSION || VersionAt(t, n, p) < walLen {
      LoggedVersion(log, file, t, n, base, walLen, p);
    }
  }

  /** Logging page p with the next WAL page keeps log and versions in step. */
  lemma LogMatchesNext(log: seq<Record>, file: nat, t: Groups, n: nat, base: nat, walLen: nat, p: nat, t': Groups,
                       n': nat)
    requires GroupsOk(t, n) && LogMatches(log, file, t, n, base, walLen) && walLen + 1 < NO_VERSION
    requires GroupsOk(t', n') && n <= n' && p < n' && VersionAt(t', n', p) == walLen
    requires forall q :: 0 <= q < n' && q != p ==> q < n && VersionAt(t', n', q) == VersionAt(t, n, q)
    requires p < n ==> VersionAt(t, n, p) == NO_VERSION
    ensures LogMatches(log + [PageRecord(file, p, walLen, p >= base)], file, t', n', base, walLen + 1)
  {
    var log' := log + [PageRecord(file, p, walLen, p >= base)];
    VersionsInWal(log, file, t, n, base, walLen);
    forall q | 0 <= q < n' && VersionAt(t', n', q) != NO_VERSION ensures Logged(log', file, q) {
      if q == p {
        assert Concerns(log'[|log|], file, q);
      } else {
        var k :| 0 <= k < |log| && Concerns(log[k], file, q);
        assert Concerns(log'[k], file, q);
      }
    }
    forall k | 0 <= k < |log'| && log'[k].PageRecord? && log'[k].file == file
      ensures RecordFits(log'[k], t', n', base, walLen + 1)
    {
      if k < |log| {
        assert RecordFits(log[k], t, n, base, walLen);
        assert Concerns(log[k], file, log[k].idx);
        LoggedVersion(log, file, t, n, base, walLen, log[k].idx);
      }
    }
  }

  class VersionedFileHandle {
    const file: nat
    var numPages: nat
    var frameMap: seq<FrameSlot>
    var pageVersions: Groups
    var disk: seq<Page>
    var wal: seq<Page>      // the WAL pages as the writer sees them
    var walDisk: seq<Page>  // the WAL pages that were flushed
    var log: seq<Record>
    var locked: set<nat>    // the pages whose lock is held

    /** Every page has a map entry and every page group its place. */
    ghost predicate Structure()
      reads this
    {
      && numPages <= |frameMap|
      && (forall p :: 0 <= p < numPages ==> frameMap[p].Ptr?)
      && GroupsOk(pageVersions, numPages)
    }

    /** The pages on disk are pages of the file, and frames agree with them. */
    ghost predicate Valid()
      reads this
    {
      Structure() && |disk| <= numPages && AllClean(frameMap, disk, numPages)
    }

    ghost function Version(p: nat): nat
      reads this
      requires Structure() && p < numPages
    {
      VersionAt(pageVersions, numPages, p)
    }

    /** What a read transaction sees. */
    ghost function ReaderView(p: nat): Page
      reads this
      requires Structure() && p < |disk|
    {
      PageView(frameMap, disk, p)
    }

    ghost predicate InTransaction()
      reads this
    {
      Valid() && LogMatches(log, file, pageVersions, numPages, |disk|, |wal|)
    }

    /** What the write transaction sees. */
    ghost function WriterView(p: nat): Page
      reads this
      requires InTransaction() && p < numPages
    {
      LoggedVersion(log, file, pageVersions, numPages, |disk|, |wal|, p);
      if Version(p) != NO_VERSION then wal[Version(p)] else ReaderView(p)
    }

    method CreatePageVersionGroupIfNecessary(p: nat)
      requires Structure() && p < numPages
      modifies this`pageVersions
      ensures Structure() && pageVersions[p / GROUP_SIZE] != []
      ensures old(pageVersions[p / GROUP_SIZE]) != [] ==> pageVersions == old(pageVersions)
      ensures forall q :: 0 <= q < numPages ==>
                VersionAt(pageVersions, numPages, q) == VersionAt(old(pageVersions), old(numPages), q)
    {
      var g := p / GROUP_SIZE;
      if pageVersions[g] == [] {
        pageVersions := pageVersions[g := seq(GROUP_SIZE, _ => NO_VERSION)];
      }
    }

    method SetWALPageVersion(p: nat, walIdx: nat)
      requires Structure() && p < numPages && pageVersions[p / GROUP_SIZE] != []
      modifies this`pageVersions
      ensures Structure() && Version(p) == walIdx
      ensures forall q :: 0 <= q < numPages && q != p ==>
                VersionAt(pageVersions, numPages, q) == VersionAt(old(pageVersions), old(numPages), q)
    {
      var g := p / GROUP_SIZE;
      var group: seq<nat> := pageVersions[g];
      pageVersions := pageVersions[g := group[p % GROUP_SIZE := walIdx]];
      forall q | 0 <= q < numPages && q != p
        ensures VersionAt(pageVersions, numPages, q) == VersionAt(old(pageVersions), numPages, q) {
        assert q / GROUP_SIZE == g ==> q % GROUP_SIZE != p % GROUP_SIZE;
      }
    }

    /** The version is gone, and whoever held the page's lock has lost it. */
    method ClearWALPageVersionIfNecessary(p: nat)
      requires Structure()
      modifies this`pageVersions, this`locked
      ensures Structure() && (p < numPages ==> Version(p) == NO_VERSION)
      ensures locked == if p < numPages then old(locked) - {p} else old(locked)
      ensures forall q :: 0 <= q < numPages && q != p ==>
                VersionAt(pageVersions, numPages, q) == VersionAt(old(pageVersions), old(numPages), q)
    {
      if numPages <= p {
        return;
      }
      CreatePageVersionGroupIfNecessary(p);
      SetWALPageVersion(p, NO_VERSION);
      locked := locked - {p};
    }

    /** resizePageGroupLocksAndPageVersionsToNumPageGroupsWithoutLock */
    method ResizePageVersions(ghost before: nat)
      requires GroupsOk(pageVersions, before)
      modifies this`pageVersions
      ensures GroupsOk(pageVersions, numPages)
      ensures forall q :: 0 <= q < numPages && q < before ==>
                VersionAt(pageVersions, numPages, q) == VersionAt(old(pageVersions), before, q)
    {
      var n := NumGroups(numPages);
      if |pageVersions| < n {
        pageVersions := pageVersions + seq(n - |pageVersions|, _ => []);
      } else {
        pageVersions := pageVersions[..n];
      }
    }

    /** The new page has no frame; a WAL version may be left over from a rolled-back page of the same index. */
    method AddNewPage() returns (p: nat)
      requires Structure()
      modifies this`numPages, this`frameMap, this`pageVersions, this`locked
      ensures Structure() && p == old(numPages) && numPages == p + 1 && frameMap[p] == Ptr(None)
      ensures locked == old(locked) - {p}
      ensures frameMap[..p] == old(frameMap[..p])
      ensures forall q :: 0 <= q < p ==>
                VersionAt(pageVersions, numPages, q) == VersionAt(old(pageVersions), old(numPages), q)
    {
      if numPages == |frameMap| {
        var grown := (|frameMap| as real * 1.2).Floor;
        var capacity := if grown > |frameMap| + 1 then grown else |frameMap| + 1;
        frameMap := frameMap + seq(capacity - |frameMap|, _ => Null);
      }
      p := numPages;
      frameMap := frameMap[p := Ptr(None)];
      locked := locked - {p};
      numPages := numPages + 1;
      ResizePageVersions(numPages - 1);
    }

    method RemovePageIdxAndTruncateIfNecessary(p: nat)
      requires Structure()
      modifies this`numPages, this`frameMap, this`pageVersions, this`locked
      ensures Structure() && numPages == if p < old(numPages) then p else old(numPages)
      ensures locked == set q | q in old(locked) && !(p <= q < old(numPages))
      ensures frameMap[..numPages] == old(frameMap)[..numPages]
      ensures forall q :: 0 <= q < numPages ==>
                VersionAt(pageVersions, numPages, q) == VersionAt(old(pageVersions), old(numPages), q)
    {
      if numPages <= p {
        return;
      }
      var idx := p;
      while idx < numPages
        invariant p <= idx <= numPages && |frameMap| == |old(frameMap)|
        invariant frameMap[..p] == old(frameMap)[..p]
        invariant numPages == old(numPages) && pageVersions == old(pageVersions)
        invariant locked == set q | q in old(locked) && !(p <= q < idx)
      {
        frameMap := frameMap[idx := Null];
        locked := locked - {idx};
        idx := idx + 1;
      }
      ghost var before := numPages;
      numPages := p;
      assert forall q :: 0 <= q < p ==> frameMap[q] == frameMap[..p][q];
      ResizePageVersions(before);
    }

    /** updateFrameIfPageIsInFrameWithoutPageOrFrameLock */
    method UpdateFrameIfPageIsInFrame(page: Page, p: nat)
      requires Structure() && p < numPages
      modifies this`frameMap
      ensures Structure()
      ensures frameMap == if old(frameMap[p].frame.Some?) then old(frameMap)[p := Ptr(Some(page))] else old(frameMap)
    {
      if frameMap[p].frame.Some? {
        frameMap := frameMap[p := Ptr(Some(page))];
      }
    }

    method CheckpointRecord(r: Record)
      requires Structure() && r.PageRecord? && r.file == file && r.idx < numPages && r.walIdx < |walDisk|
      modifies this`disk, this`frameMap, this`pageVersions, this`locked
      ensures locked == old(locked) - {r.idx}
      ensures Structure() && disk == SetPage(old(disk), r.idx, walDisk[r.walIdx])
      ensures Version(r.idx) == NO_VERSION && CleanAt(frameMap, disk, r.idx)
      ensures |frameMap| == old(|frameMap|) && forall q :: 0 <= q < |frameMap| && q != r.idx ==>
              frameMap[q] == old(frameMap[q])
      ensures forall q :: 0 <= q < numPages && q != r.idx ==>
                VersionAt(pageVersions, numPages, q) == VersionAt(old(pageVersions), old(numPages), q)
    {
      var pageBuffer := walDisk[r.walIdx];
      disk := SetPage(disk, r.idx, pageBuffer);
      ClearWALPageVersionIfNecessary(r.idx);
      UpdateFrameIfPageIsInFrame(pageBuffer, r.idx);
    }

    method RollbackRecord(r: Record)
      requires Structure() && r.PageRecord? && r.file == file
      modifies this`numPages, this`frameMap, this`pageVersions, this`locked
      ensures locked <= old(locked) && (r.idx < old(numPages) ==> r.idx !in locked)
      ensures Structure() && numPages == if r.insert && r.idx < old(numPages) then r.idx else old(numPages)
      ensures frameMap[..numPages] == old(frameMap)[..numPages]
      ensures forall q :: 0 <= q < numPages && q != r.idx ==>
                VersionAt(pageVersions, numPages, q) == VersionAt(old(pageVersions), old(numPages), q)
      ensures r.idx < numPages ==> Version(r.idx) == NO_VERSION
    {
      ClearWALPageVersionIfNecessary(r.idx);
      if r.insert {
        RemovePageIdxAndTruncateIfNecessary(r.idx);
      }
    }

    /** The state of page p in the middle of a checkpoint that has (`done`) or has not reached its record. */
    ghost predicate Checkpointed(p: nat, done: bool, version: nat, before: seq<Page>)
      reads this
      requires Structure() && p < numPages
    {
      && CleanAt(frameMap, disk, p)
      && (done ==> VersionAt(pageVersions, numPages, p) == NO_VERSION && version < |walDisk| && p < |disk|
                   && disk[p] == walDisk[version])
      && (!done ==>
          VersionAt(pageVersions, numPages, p) == version && (p < |before| ==> p < |disk| && disk[p] == before[p]))
    }

    method CheckpointRecords()
      requires InTransaction() && walDisk == wal
      modifies this`disk, this`frameMap, this`pageVersions, this`locked
      ensures Valid() && |disk| == numPages && locked <= old(locked)
      ensures forall p :: 0 <= p < numPages ==> VersionAt(pageVersions, numPages, p) == NO_VERSION
      ensures forall p :: 0 <= p < numPages ==> PageView(frameMap, disk, p) == old(WriterView(p))
    {
      ghost var versions := seq(numPages, p requires 0 <= p < numPages reads this requires Structure() => Version(p));
      ghost var before := disk;
      ghost var view := seq(numPages, p requires 0 <= p < numPages && InTransaction() reads this => WriterView(p));
      for i := 0 to |log|
        invariant Structure() && |before| <= |disk| <= numPages && locked <= old(locked)
        invariant forall p :: 0 <= p < numPages ==> Checkpointed(p, Logged(log[..i], file, p), versions[p], before)
      {
        var r := log[i];
        ghost var state := disk;
        LoggedNext(log, i, file);
        if r.PageRecord? && r.file == file {
          assert Concerns(r, file, r.idx);
          CheckpointRecord(r);
        }
      }
      assert log[..|log|] == log;
      assert forall p :: 0 <= p < numPages ==> view[p] == old(WriterView(p));
      forall p | 0 <= p < numPages
        ensures CleanAt(frameMap, disk, p) && VersionAt(pageVersions, numPages, p) == NO_VERSION && p < |disk|
        ensures PageView(frameMap, disk, p) == view[p]
      {
        assert Checkpointed(p, Logged(log, file, p), versions[p], before);
      }
      if numPages > 0 {
        ghost var last := numPages - 1;
        assert VersionAt(pageVersions, numPages, last) == NO_VERSION;
      }
      AllCleanAt(frameMap, disk, numPages);
    }

    method RollbackRecords()
      requires Valid()
      requires forall k :: 0 <= k < |log| && log[k].PageRecord? && log[k].file == file && log[k].insert ==>
               |disk| <= log[k].idx
      requires forall p :: 0 <= p < numPages && Version(p) != NO_VERSION ==> Logged(log, file, p)
      modifies this`numPages, this`frameMap, this`pageVersions, this`locked
      ensures locked <= old(locked)
      ensures Valid() && numPages == TruncatedTo(log, file, old(numPages)) <= old(numPages)
      ensures frameMap[..numPages] == old(frameMap)[..numPages]
      ensures forall p :: 0 <= p < numPages ==> VersionAt(pageVersions, numPages, p) == NO_VERSION
      ensures forall p :: 0 <= p < |disk| ==> ReaderView(p) == old(ReaderView(p))
    {
      ghost var n, frames := numPages, frameMap;
      ghost var versions := seq(numPages, p requires 0 <= p < numPages reads this requires Structure() => Version(p));
      for i := 0 to |log|
        invariant Structure() && numPages == TruncatedTo(log[..i], file, n) && |disk| <= numPages <= n <= |frames|
        invariant locked <= old(locked)
        invariant frameMap[..numPages] == frames[..numPages]
        invariant forall p :: 0 <= p < numPages ==>
                    VersionAt(pageVersions, numPages, p)
                      == if Logged(log[..i], file, p) then NO_VERSION else versions[p]
      {
        var r := log[i];
        LoggedNext(log, i, file);
        assert log[..i + 1][..i] == log[..i];
        if r.PageRecord? && r.file == file {
          RollbackRecord(r);
        }
      }
      assert log[..|log|] == log;
      forall p | 0 <= p < numPages ensures frameMap[p] == frames[p] && CleanAt(frameMap, disk, p) {
        assert frameMap[p] == frameMap[..numPages][p] == frames[..numPages][p];
        assert CleanAt(frames, disk, p);
      }
    }

    /** replay() outside recovery. It throws when asked to checkpoint a log that does not end in COMMIT. */
    method Replay(isCheckpoint: bool) returns (ok: bool)
      requires InTransaction() && (isCheckpoint ==> walDisk == wal)
      modifies this`numPages, this`disk, this`frameMap, this`pageVersions, this`locked
      ensures locked <= old(locked)
      ensures ok <==> !isCheckpoint || (log != [] && log[|log| - 1] == Commit)
      ensures Valid() && (ok ==> |disk| == numPages)
      ensures ok ==> forall p :: 0 <= p < numPages ==> VersionAt(pageVersions, numPages, p) == NO_VERSION
      ensures ok && isCheckpoint ==> numPages == old(numPages)
      ensures ok && isCheckpoint ==> forall p :: 0 <= p < numPages ==> PageView(frameMap, disk, p) == old(WriterView(p))
      ensures ok && !isCheckpoint ==> disk == old(disk)
      ensures ok && !isCheckpoint ==> forall p :: 0 <= p < numPages ==>
              PageView(frameMap, disk, p) == old(ReaderView(p))
      ensures !ok ==> numPages == old(numPages) && disk == old(disk) && frameMap == old(frameMap)
                      && pageVersions == old(pageVersions)
    {
      if isCheckpoint && (log == [] || log[|log| - 1] != Commit) {
        return false;
      }
      ok := true;
      if isCheckpoint {
        CheckpointRecords();
      } else {
        TruncatedToLeast(log, file, numPages);
        if |disk| < numPages {
          LoggedVersion(log, file, pageVersions, numPages, |disk|, |wal|, |disk|);
        }
        assert forall k :: 0 <= k < |log| && log[k].PageRecord? && log[k].file == file ==>
                             RecordFits(log[k], pageVersions, numPages, |disk|, |wal|);
        RollbackRecords();
      }
    }

    // -------------------------------------------------------------------------------------------
    // The write transaction: reads, updates and insertions
    // -------------------------------------------------------------------------------------------

    /** A file that was just opened. */
    constructor (file: nat, disk: seq<Page>)
      ensures InTransaction() && this.file == file && this.disk == disk && |disk| == numPages && log == []
              && locked == {}
      ensures forall p :: 0 <= p < numPages ==> ReaderView(p) == disk[p] == WriterView(p)
    {
      this.file, this.disk := file, disk;
      numPages := |disk|;
      frameMap := seq(|disk|, _ => Ptr(None));
      pageVersions := seq(NumGroups(|disk|), _ => []);
      wal, walDisk, log, locked := [], [], [], {};
    }

    /** The buffer manager reads a page into a frame; a reader pins the original page. */
    method Pin(p: nat) returns (page: Page)
      requires Valid() && p < |disk|
      modifies this`frameMap
      ensures Valid() && page == ReaderView(p) == disk[p] && frameMap[p] == Ptr(Some(page))
    {
      if frameMap[p].frame.None? {
        frameMap := frameMap[p := Ptr(Some(disk[p]))];
      }
      page := frameMap[p].frame.value;
    }

    /** The buffer manager evicts a page of the file; its frame is clean. */
    method Evict(p: nat)
      requires Valid() && p < numPages
      modifies this`frameMap
      ensures Valid() && frameMap[p] == Ptr(None)
    {
      frameMap := frameMap[p := Ptr(None)];
    }

    /** createWALVersionIfNecessaryAndPinPage: the WAL version starts as a copy of the original. It waits for the page's
        lock and keeps it. */
    method CreateWALVersionIfNecessary(p: nat) returns (walIdx: nat)
      requires InTransaction() && p < numPages && |wal| + 1 < NO_VERSION && p !in locked
      modifies this`frameMap, this`pageVersions, this`wal, this`log, this`locked
      ensures locked == old(locked) + {p}
      ensures InTransaction() && walIdx == Version(p) != NO_VERSION
      ensures wal == old(wal) || wal == old(wal) + [old(WriterView(p))]
      ensures Version(p) == old(Version(p)) || (Version(p) == old(|wal|) < |wal| && old(Version(p)) == NO_VERSION)
      ensures forall q :: 0 <= q < numPages && q != p ==>
                VersionAt(pageVersions, numPages, q) == VersionAt(old(pageVersions), old(numPages), q)
    {
      ghost var t, w, l := pageVersions, wal, log;
      CreatePageVersionGroupIfNecessary(p);
      locked := locked + {p};
      var group := pageVersions[p / GROUP_SIZE];
      walIdx := group[p % GROUP_SIZE];
      assert walIdx == VersionAt(pageVersions, numPages, p) == VersionAt(t, numPages, p);
      if walIdx == NO_VERSION {
        walIdx := |wal|;
        log := log + [PageRecord(file, p, walIdx, false)];
        var original := Pin(p);
        wal := wal + [original];
        SetWALPageVersion(p, walIdx);
        LogMatchesNext(l, file, t, numPages, |disk|, |w|, p, pageVersions, numPages);
      }
    }

    /** updatePage changes what the writer sees of one page and nothing a reader sees. */
    method UpdatePage(p: nat, updateOp: Page -> Page)
      requires InTransaction() && p < numPages && |wal| + 1 < NO_VERSION && p !in locked
      modifies this`frameMap, this`pageVersions, this`wal, this`log, this`locked
      ensures locked == old(locked)
      ensures InTransaction() && WriterView(p) == updateOp(old(WriterView(p)))
      ensures forall q :: 0 <= q < numPages && q != p ==> WriterView(q) == old(WriterView(q))
      ensures forall q :: 0 <= q < |disk| ==> ReaderView(q) == old(ReaderView(q))
    {
      ghost var t, w := pageVersions, wal;
      VersionsInWal(log, file, pageVersions, numPages, |disk|, |wal|);
      var walIdx := CreateWALVersionIfNecessary(p);
      VersionsInWal(log, file, pageVersions, numPages, |disk|, |wal|);
      assert wal[walIdx] == old(WriterView(p));
      wal := wal[walIdx := updateOp(wal[walIdx])];
      locked := locked - {p};
      forall q | 0 <= q < numPages && q != p ensures WriterView(q) == old(WriterView(q)) {
        assert VersionAt(pageVersions, numPages, q) == VersionAt(t, numPages, q);
        assert VersionAt(pageVersions, numPages, p) == walIdx;
      }
    }

    method SetFirstVersion(p: nat, walIdx: nat)
      requires Structure() && p < numPages
      modifies this`pageVersions
      ensures Structure() && VersionAt(pageVersions, numPages, p) == walIdx
      ensures forall q :: 0 <= q < numPages && q != p ==>
                VersionAt(pageVersions, numPages, q) == VersionAt(old(pageVersions), old(numPages), q)
    {
      CreatePageVersionGroupIfNecessary(p);
      SetWALPageVersion(p, walIdx);
    }

    /** addNewPageToFileHandle: the new page exists for the writer only; `frame` is what its WAL frame held. A version
        left over from a rolled-back page of the same index is overwritten. */
    method AddNewPageToFileHandle(frame: Page) returns (p: nat)
      requires InTransaction() && |wal| + 1 < NO_VERSION
      modifies this`numPages, this`frameMap, this`pageVersions, this`wal, this`log, this`locked
      ensures locked == old(locked) - {p}
      ensures InTransaction() && p == old(numPages) && numPages == p + 1 && WriterView(p) == frame
      ensures forall q :: 0 <= q < p ==> WriterView(q) == old(WriterView(q))
      ensures forall q :: 0 <= q < |disk| ==> ReaderView(q) == old(ReaderView(q))
    {
      ghost var t, n, l, frames := pageVersions, numPages, log, frameMap;
      VersionsInWal(log, file, pageVersions, numPages, |disk|, |wal|);
      p := AddNewPage();
      forall q | 0 <= q < p ensures frameMap[q] == frames[q] {
        assert frameMap[..p][q] == frames[..p][q];
      }
      var walIdx := |wal|;
      log := log + [PageRecord(file, p, walIdx, true)];
      SetFirstVersion(p, walIdx);
      wal := wal + [frame];
      LogMatchesNext(l, file, t, n, |disk|, walIdx, p, pageVersions, numPages);
      assert VersionAt(pageVersions, numPages, p) == walIdx && wal[walIdx] == frame;
      forall q | 0 <= q < |disk| ensures ReaderView(q) == old(ReaderView(q)) {
        assert frameMap[q] == frames[q];
      }
      forall q | 0 <= q < p ensures WriterView(q) == old(WriterView(q)) {
        assert VersionAt(pageVersions, numPages, q) == VersionAt(t, n, q);
      }
    }

    /** Records of other files and of tables; they take WAL pages but leave this file alone. */
    method LogOther(r: Record, pages: seq<Page>)
      requires InTransaction() && |wal| + |pages| < NO_VERSION && (r.PageRecord? ==> r.file != file)
      modifies this`log, this`wal
      ensures InTransaction() && log == old(log) + [r] && wal == old(wal) + pages
      ensures forall p :: 0 <= p < numPages ==> WriterView(p) == old(WriterView(p))
    {
      VersionsInWal(log, file, pageVersions, numPages, |disk|, |wal|);
      ghost var l := log;
      log := log + [r];
      wal := wal + pages;
      forall p | Logged(l, file, p) ensures Logged(log, file, p) {
        var k :| 0 <= k < |l| && Concerns(l[k], file, p);
        assert Concerns(log[k], file, p);
      }
    }

    /** The commit path of database.h: log COMMIT, flush the WAL, checkpoint, clear the WAL. */
    method CommitAndCheckpoint()
      requires InTransaction()
      modifies this
      ensures InTransaction() && log == [] && numPages == old(numPages) == |disk| && locked <= old(locked)
      ensures forall p :: 0 <= p < numPages ==> ReaderView(p) == WriterView(p) == old(WriterView(p))
    {
      LogOther(Commit, []);
      walDisk := wal;
      var _ := Replay(true);
      wal, walDisk, log := [], [], [];
    }

    /** The rollback path of database.h. */
    method RollbackAndClear()
      requires InTransaction()
      modifies this
      ensures InTransaction() && log == [] && disk == old(disk) && numPages == |disk| && locked <= old(locked)
      ensures forall p :: 0 <= p < numPages ==> ReaderView(p) == WriterView(p) == old(ReaderView(p))
    {
      var _ := Replay(false);
      wal, walDisk, log := [], [], [];
    }
  }

  lemma LoggedNext(log: seq<Record>, i: nat, file: nat)
    requires i < |log|
    ensures forall p {:trigger Logged(log[..i + 1], file, p)} {:trigger Logged(log[..i], file, p)} ::
              Logged(log[..i + 1], file, p) <==> Logged(log[..i], file, p) || Concerns(log[i], file, p)
  {
    forall p ensures Logged(log[..i + 1], file, p) <==> Logged(log[..i], file, p) || Concerns(log[i], file, p) {
      if Logged(log[..i], file, p) {
        var k :| 0 <= k < i && Concerns(log[..i][k], file, p);
        assert Concerns(log[..i + 1][k], file, p);
      }
      if Concerns(log[i], file, p) {
        assert Concerns(log[..i + 1][i], file, p);
      }
      if Logged(log[..i + 1], file, p) {
        var k :| 0 <= k < i + 1 && Concerns(log[..i + 1][k], file, p);
        assert k < i ==> Concerns(log[..i][k], file, p);
      }
    }
  }
}

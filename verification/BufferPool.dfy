/** The buffer pool run by one thread: the second-chance sweep, and the pool as a cache that refines a plain page store
    (src/storage/buffer_manager/buffer_pool.cpp:72-284). */
module BufferPool {
  import opened Wrappers
  import opened Pages

  type Data = int
  type Disk = map<PageId, Data>

  /** pinCount -1 marks an empty frame. An emptied frame keeps its bytes. */
  datatype Frame = Frame(page: Option<PageId>, pinCount: int, recent: bool, dirty: bool, buffer: Data)

  function OnDisk(disk: Disk, p: PageId): Data {
    if p in disk then disk[p] else 0
  }

  // ---------------------------------------------------------------------------------------------
  // The state of the pool and the page store it stands for
  // ---------------------------------------------------------------------------------------------

  /** pageIdxToFrameMap of all files: a page is swizzled to a frame exactly when the frame holds it. */
  ghost predicate Consistent(frames: seq<Frame>, swizzle: map<PageId, nat>) {
    && (forall i :: 0 <= i < |frames| ==> FrameOk(frames, swizzle, i))
    && (forall p :: p in swizzle ==> swizzle[p] < |frames| && frames[swizzle[p]].page == Some(p))
  }

  ghost predicate FrameOk(frames: seq<Frame>, swizzle: map<PageId, nat>, i: nat)
    requires i < |frames|
  {
    && -1 <= frames[i].pinCount && (frames[i].pinCount == -1 <==> frames[i].page.None?)
    && (frames[i].page.Some? ==> frames[i].page.value in swizzle && swizzle[frames[i].page.value] == i)
  }

  /** A frame that is not marked dirty equals the disk, unless its holder has written it and not marked it yet. */
  ghost predicate Clean(frames: seq<Frame>, disk: Disk, unmarked: set<PageId>) {
    forall i :: 0 <= i < |frames| ==> FrameClean(frames[i], disk, unmarked)
  }

  ghost predicate FrameClean(f: Frame, disk: Disk, unmarked: set<PageId>) {
    f.page.Some? && !f.dirty && f.page.value !in unmarked ==> f.buffer == OnDisk(disk, f.page.value)
  }

  ghost predicate Held(frames: seq<Frame>, swizzle: map<PageId, nat>, unmarked: set<PageId>) {
    forall p :: p in unmarked ==> p in swizzle && swizzle[p] < |frames| && frames[swizzle[p]].pinCount >= 1
  }

  /** The bytes of page p as the plain page store has them. */
  function Stored(frames: seq<Frame>, swizzle: map<PageId, nat>, disk: Disk, p: PageId): Data {
    if p in swizzle && swizzle[p] < |frames| then frames[swizzle[p]].buffer else OnDisk(disk, p)
  }

  function Pins(frames: seq<Frame>, swizzle: map<PageId, nat>, p: PageId): int {
    if p in swizzle && swizzle[p] < |frames| then frames[swizzle[p]].pinCount else 0
  }

  function Flush(disk: Disk, f: Frame): Disk {
    if f.page.Some? && f.dirty then disk[f.page.value := f.buffer] else disk
  }

  function Unswizzle(swizzle: map<PageId, nat>, f: Frame): map<PageId, nat> {
    if f.page.Some? then swizzle - {f.page.value} else swizzle
  }

  /** The frame after readNewPageIntoFrame. */
  function Loaded(f: Frame, disk: Disk, p: PageId, doNotRead: bool): Frame {
    Frame(Some(p), 1, true, false, if doNotRead then f.buffer else OnDisk(disk, p))
  }

  /** Writing back an unpinned page and taking its frame for p changes no stored page, except p itself when its bytes
      are not read. */
  lemma ReplaceKeeps(frames: seq<Frame>, swizzle: map<PageId, nat>, disk: Disk, unmarked: set<PageId>, i: nat,
                     p: PageId, doNotRead: bool)
    requires i < |frames| && p !in swizzle && frames[i].pinCount <= 0
    requires Consistent(frames, swizzle) && Clean(frames, disk, unmarked) && Held(frames, swizzle, unmarked)
    ensures var f := frames[i];
            var disk' := Flush(disk, f);
            var frames' := frames[i := Loaded(f, disk', p, doNotRead)];
            var swizzle' := Unswizzle(swizzle, f)[p := i];
            var unmarked' := if doNotRead then unmarked + {p} else unmarked;
            && Consistent(frames', swizzle') && Clean(frames', disk', unmarked') && Held(frames', swizzle', unmarked')
            && (forall q :: q != p || !doNotRead ==>
                Stored(frames', swizzle', disk', q) == Stored(frames, swizzle, disk, q))
            && (forall q :: Pins(frames', swizzle', q) == if q == p then 1 else Pins(frames, swizzle, q))
  {
    var f := frames[i];
    var disk' := Flush(disk, f);
    var frames' := frames[i := Loaded(f, disk', p, doNotRead)];
    var swizzle' := Unswizzle(swizzle, f)[p := i];
    assert FrameOk(frames, swizzle, i) && FrameClean(f, disk, unmarked);
    assert Consistent(frames', swizzle') by {
      forall k | 0 <= k < |frames'| ensures FrameOk(frames', swizzle', k) {
        assert FrameOk(frames, swizzle, k);
      }
    }
    assert f.page.Some? ==> f.page.value !in unmarked;
    var unmarked' := if doNotRead then unmarked + {p} else unmarked;
    forall k | 0 <= k < |frames'| ensures FrameClean(frames'[k], disk', unmarked') {
      assert FrameOk(frames, swizzle, k) && FrameClean(frames[k], disk, unmarked);
    }
  }

  /** All bytes the pool has anywhere are among `seen`. */
  ghost predicate Within(frames: seq<Frame>, disk: Disk, seen: set<Data>) {
    (forall i :: 0 <= i < |frames| ==> frames[i].buffer in seen) && forall q :: OnDisk(disk, q) in seen
  }

  /** A takeover brings no new bytes, and writes back what is stored. */
  lemma ReplaceWithin(was: seq<Frame>, swept: seq<Frame>, swizzle: map<PageId, nat>, disk: Disk, i: nat, p: PageId,
                      doNotRead: bool)
    requires i < |was| && SameButRecent(was, swept) && Consistent(was, swizzle)
    ensures var disk' := Flush(disk, swept[i]);
            var frames' := swept[i := Loaded(swept[i], disk', p, doNotRead)];
            && (forall seen: set<Data> :: Within(was, disk, seen) ==> Within(frames', disk', seen))
            && (forall q :: OnDisk(disk', q) == OnDisk(disk, q) || OnDisk(disk', q) == Stored(was, swizzle, disk, q))
  {
    var disk' := Flush(disk, swept[i]);
    var frames' := swept[i := Loaded(swept[i], disk', p, doNotRead)];
    assert FrameOk(was, swizzle, i) && swept[i].buffer == was[i].buffer;
    forall seen: set<Data> | Within(was, disk, seen) ensures Within(frames', disk', seen) {
      forall q ensures OnDisk(disk', q) in seen {
        assert OnDisk(disk, q) in seen;
      }
      forall k | 0 <= k < |frames'| ensures frames'[k].buffer in seen {
        assert swept[k].buffer == was[k].buffer;
      }
    }
  }

  // ---------------------------------------------------------------------------------------------
  // The sweep
  // ---------------------------------------------------------------------------------------------

  /** The step of a sweep over n frames that first probes frame j. */
  function Distance(start: nat, j: nat, n: nat): nat
    requires start < n && j < n
  {
    if j >= start then j - start else j + n - start
  }

  lemma MulMonotone(a: nat, b: nat, n: nat)
    requires a <= b
    ensures a * n <= b * n
  {
    assert b * n == a * n + (b - a) * n;
  }

  lemma ModUnique(x: nat, q: nat, r: nat, n: nat)
    requires 0 <= r < n && x == q * n + r
    ensures x % n == r
  {
    var d, m := x / n, x % n;
    assert x == d * n + m;
    if d > q {
      MulMonotone(q + 1, d, n);
    } else if q > d {
      MulMonotone(d + 1, q, n);
    }
  }

  lemma ProbedFrame(start: nat, k: nat, n: nat)
    requires start < n && k < 2 * n
    ensures var j := (start + k) % n;
            0 <= j < n && Distance(start, j, n) == if k < n then k else k - n
  {
    var x := start + k;
    if x < n {
      ModUnique(x, 0, x, n);
    } else if x < 2 * n {
      ModUnique(x, 1, x - n, n);
    } else {
      ModUnique(x, 2, x - 2 * n, n);
    }
  }

  predicate Unpinned(f: Frame) {
    f.pinCount <= 0
  }

  /** Claimed on the first visit: empty, or unpinned without a second chance. */
  predicate Ready(f: Frame) {
    f.pinCount == -1 || (f.pinCount == 0 && !f.recent)
  }

  /** The frames after a sweep passed frame f by. */
  function Passed(f: Frame): Frame {
    if f.pinCount == 0 then f.(recent := false) else f
  }

  /** Frame j is the one a sweep from `start` claims, at step k: the first ready frame of the first round, or, when no
      frame is ready, the first unpinned one of the second. */
  ghost predicate Victim(frames: seq<Frame>, start: nat, j: nat, k: nat)
    requires start < |frames|
  {
    var n := |frames|;
    && j < n
    && if k < n then
      && Ready(frames[j]) && k == Distance(start, j, n)
      && (forall m :: 0 <= m < n && Distance(start, m, n) < k ==> !Ready(frames[m]))
    else
      && Unpinned(frames[j]) && k == n + Distance(start, j, n)
      && (forall m :: 0 <= m < n ==> !Ready(frames[m]))
      && (forall m :: 0 <= m < n && n + Distance(start, m, n) < k ==> !Unpinned(frames[m]))
  }

  ghost predicate SameButRecent(a: seq<Frame>, b: seq<Frame>) {
    |a| == |b| && forall j :: 0 <= j < |a| ==> b[j] == a[j].(recent := b[j].recent)
  }

  /** The recently-accessed bit has no part in what the pool stores. */
  lemma RecentIsIrrelevant(a: seq<Frame>, b: seq<Frame>, swizzle: map<PageId, nat>, disk: Disk, unmarked: set<PageId>)
    requires SameButRecent(a, b)
    requires Consistent(a, swizzle) && Clean(a, disk, unmarked) && Held(a, swizzle, unmarked)
    ensures Consistent(b, swizzle) && Clean(b, disk, unmarked) && Held(b, swizzle, unmarked)
    ensures forall q :: Stored(a, swizzle, disk, q) == Stored(b, swizzle, disk, q)
                        && Pins(a, swizzle, q) == Pins(b, swizzle, q)
  {
    forall i | 0 <= i < |b| ensures FrameOk(b, swizzle, i) && FrameClean(b[i], disk, unmarked) {
      assert FrameOk(a, swizzle, i) && FrameClean(a[i], disk, unmarked);
    }
  }

  /** The frames in the middle of a sweep, before step i: those probed were passed by. */
  ghost predicate Swept(was: seq<Frame>, frames: seq<Frame>, start: nat, i: nat) {
    var n := |was|;
    && start < n == |frames|
    && (forall j :: 0 <= j < n ==> frames[j] == if Distance(start, j, n) < i then Passed(was[j]) else was[j])
    && (forall j :: 0 <= j < n && Distance(start, j, n) < i ==> !Ready(was[j]))
    && (forall j :: 0 <= j < n && n + Distance(start, j, n) < i ==> !Unpinned(was[j]))
  }

  lemma SweptIsSame(was: seq<Frame>, frames: seq<Frame>, start: nat, i: nat)
    requires Swept(was, frames, start, i)
    ensures SameButRecent(was, frames)
  {
  }

  lemma SweptVictim(was: seq<Frame>, frames: seq<Frame>, start: nat, i: nat, j: nat)
    requires Swept(was, frames, start, i) && i < 2 * |was| && j < |was| && Ready(frames[j])
    requires Distance(start, j, |was|) == if i < |was| then i else i - |was|
    ensures Victim(was, start, j, i)
  {
  }

  lemma SweptNext(was: seq<Frame>, frames: seq<Frame>, start: nat, i: nat, j: nat)
    requires Swept(was, frames, start, i) && i < 2 * |was| && j < |was| && !Ready(frames[j])
    requires Distance(start, j, |was|) == if i < |was| then i else i - |was|
    requires frames[j].pinCount >= 0
    ensures Swept(was, frames[j := Passed(frames[j])], start, i + 1)
  {
  }

  lemma SweptAll(was: seq<Frame>, frames: seq<Frame>, start: nat)
    requires Swept(was, frames, start, 2 * |was|)
    ensures frames == was && forall j :: 0 <= j < |was| ==> !Unpinned(was[j])
  {
  }

  class Pool {
    var frames: seq<Frame>
    var clockHand: nat
    var swizzle: map<PageId, nat>
    var disk: Disk
    ghost var unmarked: set<PageId>  // written by a holder and not marked dirty yet

    ghost predicate Valid()
      reads this
    {
      && frames != []
      && Consistent(frames, swizzle) && Clean(frames, disk, unmarked) && Held(frames, swizzle, unmarked)
    }

    constructor (numFrames: nat, disk: Disk)
      requires numFrames > 0
      ensures Valid() && unmarked == {} && forall p :: Stored(frames, swizzle, this.disk, p) == OnDisk(disk, p)
      ensures forall p :: Pins(frames, swizzle, p) == 0
      ensures |frames| == numFrames && this.disk == disk && Within(frames, disk, disk.Values + {0})
    {
      frames := seq(numFrames, _ => Frame(None, -1, false, false, 0));
      clockHand, swizzle, unmarked := 0, map[], {};
      this.disk := disk;
    }

    method ReadNewPageIntoFrame(i: nat, p: PageId, doNotRead: bool)
      requires i < |frames|
      modifies this`frames
      ensures frames == old(frames)[i := Loaded(old(frames[i]), disk, p, doNotRead)]
    {
      var buffer := if doNotRead then frames[i].buffer else OnDisk(disk, p);
      frames := frames[i := Frame(Some(p), 1, true, false, buffer)];
    }

    method FlushIfDirty(i: nat)
      requires i < |frames|
      modifies this`disk
      ensures disk == Flush(old(disk), frames[i])
    {
      var f := frames[i];
      if f.dirty && f.page.Some? {
        disk := disk[f.page.value := f.buffer];
      }
    }

    method ClearFrameAndUnswizzle(i: nat)
      requires i < |frames|
      modifies this`frames, this`swizzle
      ensures frames == old(frames)[i := Frame(None, -1, false, false, old(frames[i]).buffer)]
      ensures swizzle == Unswizzle(old(swizzle), old(frames[i]))
    {
      var f := frames[i];
      frames := frames[i := Frame(None, -1, false, false, f.buffer)];
      if f.page.Some? {
        swizzle := swizzle - {f.page.value};
      }
    }

    /** The frame at i was taken over for p. */
    ghost predicate Replaced(was: seq<Frame>, wasSwizzle: map<PageId, nat>, wasDisk: Disk, i: nat, p: PageId,
                             doNotRead: bool)
      reads this
      requires i < |was|
    {
      && disk == Flush(wasDisk, was[i]) && swizzle == Unswizzle(wasSwizzle, was[i])
      && frames == was[i := Loaded(was[i], disk, p, doNotRead)]
    }

    method TryEvict(i: nat, p: PageId, doNotRead: bool) returns (ok: bool)
      requires i < |frames| && frames[i].pinCount == 0
      modifies this`frames, this`swizzle, this`disk
      ensures ok == !old(frames[i]).recent
      ensures !ok ==>
              swizzle == old(swizzle) && disk == old(disk)
                && frames == old(frames)[i := old(frames[i]).(recent := false)]
      ensures ok ==> Replaced(old(frames), old(swizzle), old(disk), i, p, doNotRead)
    {
      if frames[i].recent {
        frames := frames[i := frames[i].(recent := false)];
        return false;
      }
      FlushIfDirty(i);
      ClearFrameAndUnswizzle(i);
      ReadNewPageIntoFrame(i, p, doNotRead);
      return true;
    }

    /** One sweep. It fails exactly when every frame is pinned, and otherwise claims the victim of the clock order. */
    method ClaimAFrame(p: PageId, doNotRead: bool) returns (r: Option<nat>, ghost step: nat)
      requires Valid() && p !in swizzle
      modifies this`frames, this`clockHand, this`swizzle, this`disk
      ensures r.Some? <==> exists i :: 0 <= i < |old(frames)| && Unpinned(old(frames)[i])
      ensures r.None? ==> frames == old(frames) && swizzle == old(swizzle) && disk == old(disk)
                          && clockHand == old(clockHand)
      ensures r.Some? ==> Victim(old(frames), old(clockHand) % |old(frames)|, r.value, step)
      ensures r.Some? ==> clockHand == old(clockHand) + step + 1
      ensures r.Some? ==> exists swept :: SameButRecent(old(frames), swept)
                                          && Replaced(swept, old(swizzle), old(disk), r.value, p, doNotRead)
    {
      var n := |frames|;
      var start := clockHand % n;
      ghost var was := frames;
      var i := 0;
      while i < 2 * n
        invariant 0 <= i <= 2 * n && |frames| == n && Swept(was, frames, start, i)
        invariant swizzle == old(swizzle) && disk == old(disk) && clockHand == old(clockHand)
      {
        var frameIdx := (start + i) % n;
        ProbedFrame(start, i, n);
        var pinCount := frames[frameIdx].pinCount;
        SweptIsSame(was, frames, start, i);
        assert FrameOk(was, swizzle, frameIdx);
        if pinCount == -1 {
          SweptVictim(was, frames, start, i, frameIdx);
          ReadNewPageIntoFrame(frameIdx, p, doNotRead);
          clockHand := clockHand + i + 1;
          return Some(frameIdx), i;
        } else if pinCount == 0 {
          ghost var swept := frames;
          var evicted := TryEvict(frameIdx, p, doNotRead);
          if evicted {
            SweptVictim(was, swept, start, i, frameIdx);
            clockHand := clockHand + i + 1;
            return Some(frameIdx), i;
          }
          SweptNext(was, swept, start, i, frameIdx);
        } else {
          SweptNext(was, frames, start, i, frameIdx);
          assert frames[frameIdx := Passed(frames[frameIdx])] == frames;
        }
        i := i + 1;
      }
      SweptAll(was, frames, start);
      r, step := None, 0;
    }

    /** Pins a page; None is the exception of a sweep that found every frame pinned. */
    method Pin(p: PageId, doNotRead: bool) returns (r: Option<Data>)
      requires Valid()
      modifies this
      ensures Valid()
      ensures r.None? <==> p !in old(swizzle) && forall i :: 0 <= i < |old(frames)| ==> !Unpinned(old(frames)[i])
      ensures r.None? ==> frames == old(frames) && swizzle == old(swizzle) && disk == old(disk)
                          && unmarked == old(unmarked)
      ensures r.Some? ==> r.value == Stored(frames, swizzle, disk, p)
      ensures r.Some? ==>
              forall q :: Pins(frames, swizzle, q) == old(Pins(frames, swizzle, q)) + if q == p then 1 else 0
      ensures forall q :: q != p || !doNotRead || p in old(swizzle) ==>
                Stored(frames, swizzle, disk, q) == old(Stored(frames, swizzle, disk, q))
      ensures unmarked == if r.Some? && doNotRead && p !in old(swizzle) then old(unmarked) + {p} else old(unmarked)
      ensures |frames| == |old(frames)|
      ensures forall q :: OnDisk(disk, q) == old(OnDisk(disk, q))
                          || OnDisk(disk, q) == old(Stored(frames, swizzle, disk, q))
      ensures forall seen: set<Data> :: old(Within(frames, disk, seen)) ==> Within(frames, disk, seen)
    {
      if p in swizzle {
        var i := swizzle[p];
        assert FrameOk(frames, swizzle, i);
        PinCountChanges(frames, swizzle, disk, unmarked, p, 1, true);
        frames := frames[i := frames[i].(pinCount := frames[i].pinCount + 1, recent := true)];
        r := Some(frames[i].buffer);
      } else {
        r := PinMissing(p, doNotRead);
      }
    }

    method PinMissing(p: PageId, doNotRead: bool) returns (r: Option<Data>)
      requires Valid() && p !in swizzle
      modifies this
      ensures Valid() && |frames| == |old(frames)|
      ensures r.None? <==> forall i :: 0 <= i < |old(frames)| ==> !Unpinned(old(frames)[i])
      ensures r.None? ==> frames == old(frames) && swizzle == old(swizzle) && disk == old(disk)
                          && unmarked == old(unmarked)
      ensures r.Some? ==> r.value == Stored(frames, swizzle, disk, p)
      ensures r.Some? ==>
              forall q :: Pins(frames, swizzle, q) == old(Pins(frames, swizzle, q)) + if q == p then 1 else 0
      ensures forall q :: q != p || !doNotRead ==>
                Stored(frames, swizzle, disk, q) == old(Stored(frames, swizzle, disk, q))
      ensures unmarked == if r.Some? && doNotRead then old(unmarked) + {p} else old(unmarked)
      ensures forall q :: OnDisk(disk, q) == old(OnDisk(disk, q))
                          || OnDisk(disk, q) == old(Stored(frames, swizzle, disk, q))
      ensures forall seen: set<Data> :: old(Within(frames, disk, seen)) ==> Within(frames, disk, seen)
    {
      ghost var was, wasSwizzle, wasDisk := frames, swizzle, disk;
      var claimed, _ := ClaimAFrame(p, doNotRead);
      if claimed.None? {
        return None;
      }
      var i := claimed.value;
      ghost var swept :| SameButRecent(was, swept) && Replaced(swept, wasSwizzle, wasDisk, i, p, doNotRead);
      RecentIsIrrelevant(was, swept, wasSwizzle, wasDisk, unmarked);
      ReplaceKeeps(swept, wasSwizzle, wasDisk, unmarked, i, p, doNotRead);
      ReplaceWithin(was, swept, wasSwizzle, wasDisk, i, p, doNotRead);
      swizzle := swizzle[p := i];
      if doNotRead {
        unmarked := unmarked + {p};
      }
      return Some(frames[i].buffer);
    }

    /** A holder writes through the pointer the pin returned. */
    method Write(p: PageId, data: Data)
      requires Valid() && Pins(frames, swizzle, p) >= 1
      modifies this`frames, this`unmarked
      ensures Valid()
      ensures forall q ::
              Stored(frames, swizzle, disk, q) == if q == p then data else old(Stored(frames, swizzle, disk, q))
      ensures forall q :: Pins(frames, swizzle, q) == old(Pins(frames, swizzle, q))
      ensures unmarked == old(unmarked) + {p} && |frames| == |old(frames)|
      ensures forall seen: set<Data> :: old(Within(frames, disk, seen)) ==> Within(frames, disk, seen + {data})
    {
      var i := swizzle[p];
      unmarked := unmarked + {p};
      FrameChanges(frames, swizzle, disk, old(unmarked), p, frames[i].(buffer := data), unmarked);
      frames := frames[i := frames[i].(buffer := data)];
    }

    /** Throws (false) when the page is not in a frame or not pinned. */
    method SetPinnedPageDirty(p: PageId) returns (ok: bool)
      requires Valid()
      modifies this`frames, this`unmarked
      ensures Valid() && ok == (old(Pins(frames, swizzle, p)) >= 1)
      ensures unmarked == if ok then old(unmarked) - {p} else old(unmarked)
      ensures !ok ==> frames == old(frames)
      ensures |frames| == |old(frames)|
      ensures forall seen: set<Data> :: old(Within(frames, disk, seen)) ==> Within(frames, disk, seen)
      ensures forall q :: Stored(frames, swizzle, disk, q) == old(Stored(frames, swizzle, disk, q))
      ensures forall q :: Pins(frames, swizzle, q) == old(Pins(frames, swizzle, q))
    {
      if p !in swizzle || frames[swizzle[p]].pinCount < 1 {
        return false;
      }
      var i := swizzle[p];
      FrameChanges(frames, swizzle, disk, unmarked, p, frames[i].(dirty := true), unmarked - {p});
      frames := frames[i := frames[i].(dirty := true)];
      unmarked := unmarked - {p};
      return true;
    }

    /** The last holder to leave has marked what was written. */
    method Unpin(p: PageId)
      requires Valid() && Pins(frames, swizzle, p) >= 1 && (Pins(frames, swizzle, p) == 1 ==> p !in unmarked)
      modifies this`frames
      ensures Valid() && |frames| == |old(frames)|
      ensures forall q :: Stored(frames, swizzle, disk, q) == old(Stored(frames, swizzle, disk, q))
      ensures forall q :: Pins(frames, swizzle, q) == old(Pins(frames, swizzle, q)) - if q == p then 1 else 0
      ensures forall seen: set<Data> :: old(Within(frames, disk, seen)) ==> Within(frames, disk, seen)
    {
      var i := swizzle[p];
      PinCountChanges(frames, swizzle, disk, unmarked, p, -1, frames[i].recent);
      frames := frames[i := frames[i].(pinCount := frames[i].pinCount - 1)];
    }

    /** Also of a page that is still pinned: the pins are gone, and with the flush only bytes that their holder has not
        marked can be lost. */
    method RemovePageFromFrame(p: PageId, shouldFlush: bool)
      requires Valid()
      modifies this
      ensures Valid() && p !in swizzle && |frames| == old(|frames|) && unmarked == old(unmarked) - {p}
      ensures forall q :: q != p || (shouldFlush && p !in old(unmarked)) ==>
                Stored(frames, swizzle, disk, q) == old(Stored(frames, swizzle, disk, q))
      ensures forall q :: OnDisk(disk, q) == old(OnDisk(disk, q))
                          || (q == p && shouldFlush && OnDisk(disk, q) == old(Stored(frames, swizzle, disk, q)))
      ensures forall q :: Pins(frames, swizzle, q) == if q == p then 0 else old(Pins(frames, swizzle, q))
      ensures forall q :: q != p ==> (q in swizzle <==> q in old(swizzle))
      ensures forall seen: set<Data> :: old(Within(frames, disk, seen)) ==> Within(frames, disk, seen)
    {
      ghost var was, wasSwizzle, wasDisk := frames, swizzle, disk;
      if p in swizzle {
        var i := swizzle[p];
        if shouldFlush {
          FlushIfDirty(i);
        }
        ClearFrameAndUnswizzle(i);
        RemoveKeeps(was, wasSwizzle, wasDisk, disk, unmarked, p);
        forall seen: set<Data> | Within(was, wasDisk, seen) ensures Within(frames, disk, seen) {
          forall q ensures OnDisk(disk, q) in seen {
            assert OnDisk(wasDisk, q) in seen;
          }
        }
      }
      unmarked := unmarked - {p};
    }

    ghost predicate InFile(q: PageId, file: nat, numPages: nat) {
      q.file == file && q.idx < numPages
    }

    /** flushAllDirtyPagesInFrames: every page of the file is out of its frame, and its bytes are on disk unless a
        holder has not marked them. */
    method FlushAllDirtyPagesInFrames(file: nat, numPages: nat)
      requires Valid()
      modifies this
      ensures Valid()
      ensures forall q :: !(InFile(q, file, numPages) && q in old(unmarked)) ==>
                Stored(frames, swizzle, disk, q) == old(Stored(frames, swizzle, disk, q))
      ensures forall q ::
              Pins(frames, swizzle, q) == if InFile(q, file, numPages) then 0 else old(Pins(frames, swizzle, q))
      ensures forall q :: InFile(q, file, numPages) ==>
                q !in swizzle && (q !in old(unmarked) ==> OnDisk(disk, q) == old(Stored(frames, swizzle, disk, q)))
    {
      for i := 0 to numPages
        invariant Valid() && unmarked <= old(unmarked)
        invariant forall q :: !(InFile(q, file, i) && q in old(unmarked)) ==>
                    Stored(frames, swizzle, disk, q) == old(Stored(frames, swizzle, disk, q))
        invariant forall q ::
                  Pins(frames, swizzle, q) == if InFile(q, file, i) then 0 else old(Pins(frames, swizzle, q))
        invariant forall q :: InFile(q, file, i) ==> q !in swizzle
      {
        RemovePageFromFrame(PageId(file, i), true);
      }
    }
  }

  /** Changing what frame of p holds, but not which page, keeps the pool consistent. */
  lemma FrameChanges(frames: seq<Frame>, swizzle: map<PageId, nat>, disk: Disk, unmarked: set<PageId>, p: PageId,
                     f: Frame, unmarked': set<PageId>)
    requires Consistent(frames, swizzle) && Clean(frames, disk, unmarked) && Held(frames, swizzle, unmarked)
    requires Pins(frames, swizzle, p) >= 1
    requires f.page == Some(p) && f.pinCount == frames[swizzle[p]].pinCount
    requires unmarked' - {p} == unmarked - {p} && (f.dirty || p in unmarked')
    ensures var frames' := frames[swizzle[p] := f];
            && Consistent(frames', swizzle) && Clean(frames', disk, unmarked') && Held(frames', swizzle, unmarked')
            && (forall q ::
                Stored(frames', swizzle, disk, q) == if q == p then f.buffer else Stored(frames, swizzle, disk, q))
            && (forall q :: Pins(frames', swizzle, q) == Pins(frames, swizzle, q))
  {
    var frames' := frames[swizzle[p] := f];
    forall k | 0 <= k < |frames'| ensures FrameOk(frames', swizzle, k) && FrameClean(frames'[k], disk, unmarked') {
      assert FrameOk(frames, swizzle, k) && FrameClean(frames[k], disk, unmarked);
      if frames[k].page.Some? && frames[k].page.value != p {
        var x := frames[k].page.value;
        assert x in unmarked' - {p} <==> x in unmarked - {p};
      }
    }
    forall q | q in unmarked' ensures q in swizzle && swizzle[q] < |frames'| && frames'[swizzle[q]].pinCount >= 1 {
      assert q != p ==> q in unmarked' - {p} && q in unmarked - {p} && q in unmarked;
    }
  }

  lemma PinCountChanges(frames: seq<Frame>, swizzle: map<PageId, nat>, disk: Disk, unmarked: set<PageId>, p: PageId,
                        d: int, recent: bool)
    requires Consistent(frames, swizzle) && Clean(frames, disk, unmarked) && Held(frames, swizzle, unmarked)
    requires p in swizzle && Pins(frames, swizzle, p) + d >= if p in unmarked then 1 else 0
    ensures var f := frames[swizzle[p]];
            var frames' := frames[swizzle[p] := f.(pinCount := f.pinCount + d, recent := recent)];
            && Consistent(frames', swizzle) && Clean(frames', disk, unmarked) && Held(frames', swizzle, unmarked)
            && (forall q :: Stored(frames', swizzle, disk, q) == Stored(frames, swizzle, disk, q))
            && (forall q :: Pins(frames', swizzle, q) == Pins(frames, swizzle, q) + if q == p then d else 0)
  {
    var f := frames[swizzle[p]];
    var frames' := frames[swizzle[p] := f.(pinCount := f.pinCount + d, recent := recent)];
    forall k | 0 <= k < |frames'| ensures FrameOk(frames', swizzle, k) && FrameClean(frames'[k], disk, unmarked) {
      assert FrameOk(frames, swizzle, k) && FrameClean(frames[k], disk, unmarked);
    }
  }

  lemma RemoveKeeps(frames: seq<Frame>, swizzle: map<PageId, nat>, disk: Disk, disk': Disk, unmarked: set<PageId>,
                    p: PageId)
    requires Consistent(frames, swizzle) && Clean(frames, disk, unmarked) && Held(frames, swizzle, unmarked)
    requires p in swizzle
    requires disk' == disk || disk' == Flush(disk, frames[swizzle[p]])
    ensures var f := frames[swizzle[p]];
            var frames' := frames[swizzle[p] := Frame(None, -1, false, false, f.buffer)];
            var swizzle', unmarked' := Unswizzle(swizzle, f), unmarked - {p};
            && Consistent(frames', swizzle') && Clean(frames', disk', unmarked') && Held(frames', swizzle', unmarked')
            && (forall q :: q != p || (disk' == Flush(disk, f) && p !in unmarked) ==>
                              Stored(frames', swizzle', disk', q) == Stored(frames, swizzle, disk, q))
            && (forall q :: Pins(frames', swizzle', q) == if q == p then 0 else Pins(frames, swizzle, q))
  {
    var f := frames[swizzle[p]];
    var frames' := frames[swizzle[p] := Frame(None, -1, false, false, f.buffer)];
    var swizzle', unmarked' := Unswizzle(swizzle, f), unmarked - {p};
    assert FrameOk(frames, swizzle, swizzle[p]) && FrameClean(f, disk, unmarked);
    forall k | 0 <= k < |frames'| ensures FrameOk(frames', swizzle', k) && FrameClean(frames'[k], disk', unmarked') {
      assert FrameOk(frames, swizzle, k) && FrameClean(frames[k], disk, unmarked);
    }
  }
}

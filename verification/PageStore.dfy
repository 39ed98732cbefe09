/** Whole runs of the buffer pool against a plain page store: bytes, pins and nothing else. */
module PageStore {
  import opened Wrappers
  import opened Pages
  import opened BufferPool

  datatype Command = PinC(p: PageId) | PinNewC(p: PageId) | WriteC(p: PageId, data: Data) | MarkC(p: PageId)
                   | UnpinC(p: PageId) | FlushC(p: PageId) | DiscardC(p: PageId)

  /** What the pool answered. `Refused`: it threw, or the caller may not give the command. The bytes are those the page
      has from then on. */
  datatype Event = Read(p: PageId, data: Data) | PinnedNew(p: PageId, data: Data) | Wrote(p: PageId, data: Data)
                 | Marked(p: PageId) | Unpinned(p: PageId) | Flushed(p: PageId, data: Data)
                   | Discarded(p: PageId, data: Data)
                 | Refused

  /** The plain page store. `pins` has the pinned pages; `unmarked` those a holder may have written since it marked
      them; `past` the bytes a page has had since it was last removed from its frame; `seen` all bytes ever given. */
  datatype Store = Store(bytes: Disk, pins: map<PageId, nat>, unmarked: set<PageId>, past: map<PageId, set<Data>>,
                         seen: set<Data>)

  function Fresh(disk: Disk): Store {
    Store(disk, map[], {}, map[], disk.Values + {0})
  }

  function PinsOf(s: Store, p: PageId): nat {
    if p in s.pins then s.pins[p] else 0
  }

  function PastOf(s: Store, p: PageId): set<Data> {
    if p in s.past then s.past[p] else {OnDisk(s.bytes, p)}
  }

  /** The page gets bytes, and keeps those it may have on disk. */
  function Given(s: Store, p: PageId, data: Data): Store {
    s.(bytes := s.bytes[p := data], past := s.past[p := PastOf(s, p) + {data}], seen := s.seen + {data})
  }

  /** The page is out of its frame: the bytes it has are those on disk. */
  function Removed(s: Store, p: PageId, data: Data): Store {
    s.(bytes := s.bytes[p := data], past := s.past[p := {data}], pins := s.pins - {p}, unmarked := s.unmarked - {p})
  }

  function OnePin(s: Store, p: PageId): Store {
    s.(pins := s.pins[p := PinsOf(s, p) + 1])
  }

  function Next(s: Store, e: Event): Store {
    match e
    case Read(p, _) => OnePin(s, p)
    case PinnedNew(p, data) =>
      OnePin(Given(s, p, data), p).(unmarked := if p in s.pins then s.unmarked else s.unmarked + {p})
    case Wrote(p, data) => Given(s, p, data).(unmarked := s.unmarked + {p})
    case Marked(p) => s.(unmarked := s.unmarked - {p})
    case Unpinned(p) => s.(pins := if PinsOf(s, p) <= 1 then s.pins - {p} else s.pins[p := PinsOf(s, p) - 1])
    case Flushed(p, data) => Removed(s, p, data)
    case Discarded(p, data) => Removed(s, p, data)
    case Refused => s
  }

  /** The store after a list of answers. */
  function After(events: seq<Event>, disk: Disk): Store {
    if events == [] then Fresh(disk) else Next(After(events[..|events| - 1], disk), events[|events| - 1])
  }

  /** Every frame is taken by a pinned page, and p is not one of them. */
  predicate Full(s: Store, numFrames: nat, p: PageId) {
    |s.pins| == numFrames && p !in s.pins
  }

  /** The answer to a command. Only three leave the pool a choice: what bytes a page has that is pinned unread, which of
      its past bytes a page has that is removed without a flush, or with one before they were marked. */
  ghost predicate Answers(s: Store, numFrames: nat, c: Command, e: Event) {
    match c
    case PinC(p) => e == if Full(s, numFrames, p) then Refused else Read(p, OnDisk(s.bytes, p))
    case PinNewC(p) =>
      if Full(s, numFrames, p) then e == Refused
      else e.PinnedNew? && e.p == p && e.data in s.seen && (p in s.pins ==> e.data == OnDisk(s.bytes, p))
    case WriteC(p, data) => e == if p in s.pins then Wrote(p, data) else Refused
    case MarkC(p) => e == if p in s.pins then Marked(p) else Refused
    case UnpinC(p) => e == if p in s.pins && (s.pins[p] == 1 ==> p !in s.unmarked) then Unpinned(p) else Refused
    case FlushC(p) =>
      e.Flushed? && e.p == p && e.data in PastOf(s, p) && (p !in s.unmarked ==> e.data == OnDisk(s.bytes, p))
    case DiscardC(p) => e.Discarded? && e.p == p && e.data in PastOf(s, p)
  }

  // ---------------------------------------------------------------------------------------------
  // The pool refines the store
  // ---------------------------------------------------------------------------------------------

  ghost predicate Refines(frames: seq<Frame>, swizzle: map<PageId, nat>, disk: Disk, unmarked: set<PageId>, s: Store) {
    && (forall p :: p in s.pins ==> s.pins[p] >= 1)
    && (forall p :: Stored(frames, swizzle, disk, p) == OnDisk(s.bytes, p))
    && (forall p :: Pins(frames, swizzle, p) == PinsOf(s, p))
    && unmarked <= s.unmarked
    && (forall p :: OnDisk(s.bytes, p) in PastOf(s, p) && OnDisk(disk, p) in PastOf(s, p))
    && Within(frames, disk, s.seen)
  }

  lemma {:induction false} IndexesBelow(a: set<nat>, n: nat)
    requires forall i :: i in a ==> i < n
    ensures |a| <= n && (|a| == n ==> forall i: nat :: i < n ==> i in a)
  {
    if n > 0 {
      var b := a - {n - 1};
      IndexesBelow(b, n - 1);
      assert n - 1 in a ==> a == b + {n - 1} && |a| == |b| + 1;
      assert n - 1 !in a ==> a == b;
    }
  }

  predicate HoldsOne(frames: seq<Frame>, i: nat, pages: set<PageId>) {
    i < |frames| && frames[i].page.Some? && frames[i].page.value in pages
  }

  /** The frames of a set of pages, one each. */
  lemma {:induction false} FramesOf(frames: seq<Frame>, swizzle: map<PageId, nat>, pages: set<PageId>)
    returns (held: set<nat>)
    requires Consistent(frames, swizzle) && forall p :: p in pages ==> p in swizzle
    ensures |held| == |pages| && forall i: nat :: i in held <==> HoldsOne(frames, i, pages)
  {
    held := {};
    if pages != {} {
      var p :| p in pages;
      var rest := FramesOf(frames, swizzle, pages - {p});
      held := rest + {swizzle[p]};
      assert pages == (pages - {p}) + {p};
      assert swizzle[p] !in rest && |held| == |rest| + 1;
      forall i: nat ensures i in held <==> HoldsOne(frames, i, pages) {
        assert i < |frames| ==> FrameOk(frames, swizzle, i);
      }
    }
  }

  /** Every frame is pinned exactly when as many pages are. */
  lemma AllPinned(frames: seq<Frame>, swizzle: map<PageId, nat>, disk: Disk, unmarked: set<PageId>, s: Store)
    requires Consistent(frames, swizzle) && Refines(frames, swizzle, disk, unmarked, s)
    ensures |s.pins| == |frames| <==> forall i :: 0 <= i < |frames| ==> !BufferPool.Unpinned(frames[i])
  {
    forall p | p in s.pins ensures p in swizzle {
      assert Pins(frames, swizzle, p) == PinsOf(s, p);
    }
    var held := FramesOf(frames, swizzle, s.pins.Keys);
    IndexesBelow(held, |frames|);
    forall i: nat | i < |frames| ensures i in held <==> !BufferPool.Unpinned(frames[i]) {
      assert FrameOk(frames, swizzle, i);
      if frames[i].page.Some? {
        assert Pins(frames, swizzle, frames[i].page.value) == PinsOf(s, frames[i].page.value);
      }
    }
    if forall i :: 0 <= i < |frames| ==> !BufferPool.Unpinned(frames[i]) {
      AllBelow(held, |frames|);
    }
  }

  lemma {:induction false} AllBelow(a: set<nat>, n: nat)
    requires forall i: nat :: i in a <==> i < n
    ensures |a| == n
  {
    if n > 0 {
      assert a == (a - {n - 1}) + {n - 1};
      AllBelow(a - {n - 1}, n - 1);
    }
  }

  /** The pages that are not p are unchanged in the store after an answer about p. */
  lemma NextElsewhere(s: Store, e: Event, q: PageId)
    requires e.Refused? || e.p != q
    ensures var t := Next(s, e);
            && OnDisk(t.bytes, q) == OnDisk(s.bytes, q) && PinsOf(t, q) == PinsOf(s, q) && PastOf(t, q) == PastOf(s, q)
            && (q in t.pins <==> q in s.pins) && (q in t.unmarked <==> q in s.unmarked)
  {
  }

  /** One page of the pool agrees with the store. */
  ghost predicate PageRefines(stored: Data, pins: int, onDisk: Data, unmarked: bool, s: Store, p: PageId) {
    && stored == OnDisk(s.bytes, p) && pins == PinsOf(s, p) && (unmarked ==> p in s.unmarked)
    && stored in PastOf(s, p) && onDisk in PastOf(s, p) && (p in s.pins ==> s.pins[p] >= 1)
  }

  lemma RefinesPage(frames: seq<Frame>, swizzle: map<PageId, nat>, disk: Disk, unmarked: set<PageId>, s: Store,
                    p: PageId)
    requires Refines(frames, swizzle, disk, unmarked, s)
    ensures PageRefines(Stored(frames, swizzle, disk, p), Pins(frames, swizzle, p), OnDisk(disk, p), p in unmarked, s,
                        p)
  {
  }

  lemma RefinesByPage(frames: seq<Frame>, swizzle: map<PageId, nat>, disk: Disk, unmarked: set<PageId>, s: Store)
    requires Within(frames, disk, s.seen)
    requires forall p ::
             PageRefines(Stored(frames, swizzle, disk, p), Pins(frames, swizzle, p), OnDisk(disk, p), p in unmarked,
                         s, p)
    ensures Refines(frames, swizzle, disk, unmarked, s)
  {
    forall p | p in unmarked ensures p in s.unmarked {
      assert PageRefines(Stored(frames, swizzle, disk, p), Pins(frames, swizzle, p), OnDisk(disk, p), p in unmarked,
                         s, p);
    }
    forall p
      ensures Stored(frames, swizzle, disk, p) == OnDisk(s.bytes, p) && Pins(frames, swizzle, p) == PinsOf(s, p)
      ensures OnDisk(s.bytes, p) in PastOf(s, p) && OnDisk(disk, p) in PastOf(s, p)
      ensures p in s.pins ==> s.pins[p] >= 1
    {
      assert PageRefines(Stored(frames, swizzle, disk, p), Pins(frames, swizzle, p), OnDisk(disk, p), p in unmarked,
                         s, p);
    }
  }

  lemma PinNextPage(stored: Data, pins: int, onDisk: Data, unmarked: bool, s: Store, e: Event, q: PageId,
                    stored': Data, onDisk': Data, unmarked': bool)
    requires PageRefines(stored, pins, onDisk, unmarked, s, q) && (e.Read? || e.PinnedNew?)
    requires onDisk' == onDisk || onDisk' == stored
    requires e.p != q ==> stored' == stored && (unmarked' ==> unmarked)
    requires e.p == q ==> stored' == e.data && (e.Read? ==> stored' == stored)
    requires e.p == q ==> (unmarked' ==> unmarked || (e.PinnedNew? && pins == 0))
    ensures PageRefines(stored', pins + if e.p == q then 1 else 0, onDisk', unmarked', Next(s, e), q)
  {
    if e.p != q {
      NextElsewhere(s, e, q);
    }
  }

  /** The state of the pool as values. */
  datatype PoolState = PoolState(frames: seq<Frame>, swizzle: map<PageId, nat>, disk: Disk, unmarked: set<PageId>) {
    ghost predicate Is(s: Store) {
      Refines(frames, swizzle, disk, unmarked, s)
    }

    function StoredAt(p: PageId): Data { Stored(frames, swizzle, disk, p) }

    function PinsAt(p: PageId): int { Pins(frames, swizzle, p) }
  }

  lemma PinRefines(a: PoolState, b: PoolState, s: Store, e: Event)
    requires a.Is(s) && (e.Read? || e.PinnedNew?) && Within(b.frames, b.disk, s.seen)
    requires forall q :: OnDisk(b.disk, q) == OnDisk(a.disk, q) || OnDisk(b.disk, q) == a.StoredAt(q)
    requires forall q :: q != e.p || e.Read? ==> b.StoredAt(q) == a.StoredAt(q)
    requires forall q :: b.PinsAt(q) == a.PinsAt(q) + if q == e.p then 1 else 0
    requires b.StoredAt(e.p) == e.data
    requires b.unmarked <= a.unmarked + if e.PinnedNew? && a.PinsAt(e.p) == 0 then {e.p} else {}
    ensures b.Is(Next(s, e))
  {
    forall q
      ensures PageRefines(b.StoredAt(q), b.PinsAt(q), OnDisk(b.disk, q), q in b.unmarked, Next(s, e), q)
    {
      RefinesPage(a.frames, a.swizzle, a.disk, a.unmarked, s, q);
      PinNextPage(a.StoredAt(q), a.PinsAt(q), OnDisk(a.disk, q), q in a.unmarked, s, e, q,
                  b.StoredAt(q), OnDisk(b.disk, q), q in b.unmarked);
    }
    assert Within(b.frames, b.disk, Next(s, e).seen);
    RefinesByPage(b.frames, b.swizzle, b.disk, b.unmarked, Next(s, e));
  }

  method StepPin(pool: Pool, p: PageId, doNotRead: bool, s: Store) returns (e: Event)
    requires pool.Valid() && Refines(pool.frames, pool.swizzle, pool.disk, pool.unmarked, s)
    modifies pool
    ensures pool.Valid() && |pool.frames| == old(|pool.frames|)
    ensures Answers(s, |pool.frames|, if doNotRead then PinNewC(p) else PinC(p), e)
    ensures Refines(pool.frames, pool.swizzle, pool.disk, pool.unmarked, Next(s, e))
  {
    ghost var a := PoolState(pool.frames, pool.swizzle, pool.disk, pool.unmarked);
    AllPinned(a.frames, a.swizzle, a.disk, a.unmarked, s);
    RefinesPage(a.frames, a.swizzle, a.disk, a.unmarked, s, p);
    assert p in a.swizzle ==> FrameOk(a.frames, a.swizzle, a.swizzle[p]);
    assert Within(a.frames, a.disk, s.seen);
    var r := pool.Pin(p, doNotRead);
    if r.None? {
      return Refused;
    }
    e := if doNotRead then PinnedNew(p, r.value) else Read(p, r.value);
    ghost var b := PoolState(pool.frames, pool.swizzle, pool.disk, pool.unmarked);
    assert Within(b.frames, b.disk, s.seen);
    PinRefines(a, b, s, e);
    assert b.StoredAt(p) in s.seen;
  }

  lemma HolderRefines(a: PoolState, b: PoolState, s: Store, e: Event)
    requires a.Is(s) && (e.Wrote? || e.Marked? || e.Unpinned?) && b.disk == a.disk
    requires Within(b.frames, b.disk, s.seen + if e.Wrote? then {e.data} else {})
    requires forall q :: b.StoredAt(q) == if e.Wrote? && q == e.p then e.data else a.StoredAt(q)
    requires forall q :: b.PinsAt(q) == a.PinsAt(q) - if e.Unpinned? && q == e.p then 1 else 0
    requires a.PinsAt(e.p) >= 1
    requires b.unmarked <= if e.Wrote? then a.unmarked + {e.p} else if e.Marked? then a.unmarked - {e.p} else a.unmarked
    ensures b.Is(Next(s, e))
  {
    forall q
      ensures PageRefines(b.StoredAt(q), b.PinsAt(q), OnDisk(b.disk, q), q in b.unmarked, Next(s, e), q)
    {
      RefinesPage(a.frames, a.swizzle, a.disk, a.unmarked, s, q);
      if q != e.p {
        NextElsewhere(s, e, q);
      }
    }
    assert Next(s, e).seen == s.seen + if e.Wrote? then {e.data} else {};
    RefinesByPage(b.frames, b.swizzle, b.disk, b.unmarked, Next(s, e));
  }

  method StepHolder(pool: Pool, c: Command, s: Store) returns (e: Event)
    requires pool.Valid() && Refines(pool.frames, pool.swizzle, pool.disk, pool.unmarked, s)
    requires c.WriteC? || c.MarkC? || c.UnpinC?
    modifies pool
    ensures pool.Valid() && |pool.frames| == old(|pool.frames|)
    ensures Answers(s, |pool.frames|, c, e)
    ensures Refines(pool.frames, pool.swizzle, pool.disk, pool.unmarked, Next(s, e))
  {
    var p, pins := c.p, Pins(pool.frames, pool.swizzle, c.p);
    ghost var a := PoolState(pool.frames, pool.swizzle, pool.disk, pool.unmarked);
    RefinesPage(a.frames, a.swizzle, a.disk, a.unmarked, s, p);
    assert Within(a.frames, a.disk, s.seen);
    if (!c.MarkC? && pins < 1) || (c.UnpinC? && pins == 1 && p in s.unmarked) {
      return Refused;
    }
    if c.WriteC? {
      pool.Write(p, c.data);
      e := Wrote(p, c.data);
    } else if c.MarkC? {
      var ok := pool.SetPinnedPageDirty(p);
      if !ok {
        return Refused;
      }
      e := Marked(p);
    } else {
      pool.Unpin(p);
      e := Unpinned(p);
    }
    ghost var b := PoolState(pool.frames, pool.swizzle, pool.disk, pool.unmarked);
    assert Within(b.frames, b.disk, s.seen + if e.Wrote? then {e.data} else {});
    HolderRefines(a, b, s, e);
  }

  method StepRemove(pool: Pool, p: PageId, flush: bool, s: Store) returns (e: Event)
    requires pool.Valid() && Refines(pool.frames, pool.swizzle, pool.disk, pool.unmarked, s)
    modifies pool
    ensures pool.Valid() && |pool.frames| == old(|pool.frames|)
    ensures Answers(s, |pool.frames|, if flush then FlushC(p) else DiscardC(p), e)
    ensures Refines(pool.frames, pool.swizzle, pool.disk, pool.unmarked, Next(s, e))
  {
    ghost var was, wasSwizzle, wasDisk, wasUnmarked := pool.frames, pool.swizzle, pool.disk, pool.unmarked;
    RefinesPage(was, wasSwizzle, wasDisk, wasUnmarked, s, p);
    assert Within(was, wasDisk, s.seen);
    pool.RemovePageFromFrame(p, flush);
    var data := OnDisk(pool.disk, p);
    e := if flush then Flushed(p, data) else Discarded(p, data);
    ghost var frames, swizzle, disk, unmarked := pool.frames, pool.swizzle, pool.disk, pool.unmarked;
    assert Stored(frames, swizzle, disk, p) == data;
    forall q
      ensures PageRefines(Stored(frames, swizzle, disk, q), Pins(frames, swizzle, q), OnDisk(disk, q), q in unmarked,
                          Next(s, e), q)
    {
      RefinesPage(was, wasSwizzle, wasDisk, wasUnmarked, s, q);
      if q != p {
        NextElsewhere(s, e, q);
      }
    }
    assert Within(frames, disk, s.seen);
    RefinesByPage(frames, swizzle, disk, unmarked, Next(s, e));
  }

  /** One command. Writing and unpinning are refused to a caller without a pin, and the last unpin before the mark. */
  method Step(pool: Pool, c: Command, s: Store) returns (e: Event)
    requires pool.Valid() && Refines(pool.frames, pool.swizzle, pool.disk, pool.unmarked, s)
    modifies pool
    ensures pool.Valid() && |pool.frames| == old(|pool.frames|)
    ensures Answers(s, |pool.frames|, c, e)
    ensures Refines(pool.frames, pool.swizzle, pool.disk, pool.unmarked, Next(s, e))
  {
    if c.PinC? || c.PinNewC? {
      e := StepPin(pool, c.p, c.PinNewC?, s);
    } else if c.FlushC? || c.DiscardC? {
      e := StepRemove(pool, c.p, c.FlushC?, s);
    } else {
      e := StepHolder(pool, c, s);
    }
  }

  /** Every sequential run of the pool behaves as the page store: each answer is the store's after the answers
      before. */
  method Run(numFrames: nat, disk: Disk, commands: seq<Command>) returns (events: seq<Event>)
    requires numFrames > 0
    ensures IsRun(numFrames, disk, commands, events)
  {
    var pool := new Pool(numFrames, disk);
    var store := Fresh(disk);
    events := [];
    for i := 0 to |commands|
      invariant pool.Valid() && |pool.frames| == numFrames && fresh(pool)
      invariant |events| == i && store == After(events, disk)
      invariant Refines(pool.frames, pool.swizzle, pool.disk, pool.unmarked, store)
      invariant forall k :: 0 <= k < i ==> Answers(After(events[..k], disk), numFrames, commands[k], events[k])
    {
      var e := Step(pool, commands[i], store);
      assert (events + [e])[..i] == events;
      assert forall k :: 0 <= k < i ==> (events + [e])[..k] == events[..k];
      store := Next(store, e);
      events := events + [e];
    }
  }

  ghost predicate IsRun(numFrames: nat, disk: Disk, commands: seq<Command>, events: seq<Event>) {
    && |events| == |commands|
    && forall i :: 0 <= i < |events| ==> Answers(After(events[..i], disk), numFrames, commands[i], events[i])
  }

  /** The event may give page p other bytes than the last written: another write, a pin that does not read, a discard,
      or a flush before the holder marked them. */
  ghost predicate MayLose(s: Store, e: Event, p: PageId) {
    && !e.Refused? && e.p == p
    && (e.Wrote? || e.PinnedNew? || e.Discarded? || (e.Flushed? && p in s.unmarked))
  }

  /** Any other answer leaves the bytes of page p. */
  lemma BytesStay(s: Store, numFrames: nat, c: Command, e: Event, p: PageId)
    requires Answers(s, numFrames, c, e) && !MayLose(s, e, p)
    ensures OnDisk(Next(s, e).bytes, p) == OnDisk(s.bytes, p)
  {
    if !e.Refused? && e.p != p {
      NextElsewhere(s, e, p);
    }
  }

  lemma AfterNext(events: seq<Event>, disk: Disk, j: nat)
    requires 0 < j <= |events|
    ensures After(events[..j], disk) == Next(After(events[..j - 1], disk), events[j - 1])
  {
    assert events[..j][..j - 1] == events[..j - 1];
  }

  /** In every run, a read sees the last write to the page, through any number of evictions and flushes between them. */
  lemma {:induction false} WriteSurvives(numFrames: nat, disk: Disk, commands: seq<Command>, events: seq<Event>,
                                         p: PageId, data: Data, i: nat, j: nat)
    requires IsRun(numFrames, disk, commands, events) && i < j <= |events| && events[i] == Wrote(p, data)
    requires forall k :: i < k < j ==> !MayLose(After(events[..k], disk), events[k], p)
    ensures OnDisk(After(events[..j], disk).bytes, p) == data
    ensures j < |events| && events[j].Read? && events[j].p == p ==> events[j].data == data
  {
    AfterNext(events, disk, j);
    if i < j - 1 {
      WriteSurvives(numFrames, disk, commands, events, p, data, i, j - 1);
      BytesStay(After(events[..j - 1], disk), numFrames, commands[j - 1], events[j - 1], p);
    }
    if j < |events| {
      assert Answers(After(events[..j], disk), numFrames, commands[j], events[j]);
    }
  }
}

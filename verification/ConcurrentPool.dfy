/** The buffer pool under concurrency: pin, unpin and setPinnedPageDirty advance by single shared-memory
    steps, in any interleaving of any number of threads
    (src/storage/buffer_manager/buffer_pool.cpp:123-284).

    An operation owns the lock of its page from its first step to its last, so operations in flight are
    named by that page: `ops[p]` is the operation called for page p, and p is locked while it is there. */
module ConcurrentPool {
  import opened Wrappers
  import opened Pages

  /** pinCount -1 marks an empty frame; `lock` names the operation holding the frame lock. */
  datatype Frame = Frame(lock: Option<PageId>, pin: int, page: Option<PageId>)

  datatype Stage =
    | PinStart          // page lock taken by pin
    | Scan              // claimAFrame: looking at frames
    | FillTry           // saw pinCount -1
    | FillCheck         // frame lock taken
    | EvictTry          // saw pinCount 0
    | EvictLocked       // frame lock taken
    | EvictCheck        // victim's page lock taken too
    | EvictReset        // frame's page identity reset
    | EvictUnswizzle    // pinCount reset to -1
    | EvictRelease      // victim unswizzled
    | Load              // holds an empty, locked frame
    | LoadMeta          // pinCount set to 1
    | Loaded            // page identity set and page read
    | Swizzle           // frame lock released
    | UnpinStart        // page lock taken by unpin
    | DirtyStart        // page lock taken by setPinnedPageDirty
    | Done              // about to release the page lock
    | Threw             // claimAFrame threw; the page lock stays taken

  /** `f` is the frame the operation tries, `q` the page it evicts. */
  datatype Op = Op(stage: Stage, f: nat, q: PageId)

  /** `recent` and `dirty` are the frames with that flag set. `victims[q]` is the operation that has locked q
      in order to evict it. History: `pins` counts the
      outstanding pins, `used` collects the frames that have ever held a page. */
  datatype State = State(frames: seq<Frame>, recent: set<nat>, dirty: set<nat>, swz: map<PageId, nat>,
                         ops: map<PageId, Op>, victims: map<PageId, PageId>, pins: multiset<PageId>, used: set<nat>)

  predicate Locked(s: State, p: PageId) {
    p in s.ops || p in s.victims
  }

  predicate HoldsVictim(g: Stage) {
    g.EvictCheck? || g.EvictReset? || g.EvictUnswizzle? || g.EvictRelease?
  }

  /** The operation holds a frame lock and is replacing the frame's page. */
  predicate Refilling(g: Stage) {
    g.EvictReset? || g.EvictUnswizzle? || g.EvictRelease? || g.Load? || g.LoadMeta? || g.Loaded?
  }

  predicate HoldsFrame(g: Stage) {
    Refilling(g) || g.FillCheck? || g.EvictLocked? || g.EvictCheck?
  }

  // ---------------------------------------------------------------------------------------------
  // Steps of the operation on page p
  // ---------------------------------------------------------------------------------------------

  function Goto(s: State, p: PageId, g: Stage): State
    requires p in s.ops
  {
    s.(ops := s.ops[p := s.ops[p].(stage := g)])
  }

  function SetFrame(s: State, f: nat, fr: Frame): State
    requires f < |s.frames|
  {
    s.(frames := s.frames[f := fr])
  }

  predicate At(s: State, p: PageId, g: Stage) {
    p in s.ops && s.ops[p].stage == g
  }

  /** An operation takes the lock of page p; only a page with an outstanding pin is unpinned. */
  ghost predicate Start(s: State, s': State, p: PageId, g: Stage) {
    !Locked(s, p) && (g.PinStart? || g.DirtyStart? || (g.UnpinStart? && p in s.pins))
    && s' == s.(ops := s.ops[p := Op(g, 0, p)])
  }

  ghost predicate PinHit(s: State, s': State, p: PageId) {
    At(s, p, PinStart) && p in s.swz && s.swz[p] < |s.frames|
    && var fr := s.frames[s.swz[p]];
       s' == Goto(SetFrame(s, s.swz[p], fr.(pin := fr.pin + 1)), p, Done)
             .(pins := s.pins + multiset{p}, recent := s.recent + {s.swz[p]})
  }

  ghost predicate PinMiss(s: State, s': State, p: PageId) {
    At(s, p, PinStart) && p !in s.swz && s' == Goto(s, p, Scan)
  }

  ghost predicate SeeEmpty(s: State, s': State, p: PageId, f: nat) {
    At(s, p, Scan) && f < |s.frames| && s.frames[f].pin == -1
    && s' == s.(ops := s.ops[p := s.ops[p].(stage := FillTry, f := f)])
  }

  ghost predicate SeeUnpinned(s: State, s': State, p: PageId, f: nat) {
    At(s, p, Scan) && f < |s.frames| && s.frames[f].pin == 0
    && s' == s.(ops := s.ops[p := s.ops[p].(stage := EvictTry, f := f)])
  }

  ghost predicate Throw(s: State, s': State, p: PageId) {
    At(s, p, Scan) && s' == Goto(s, p, Threw)
  }

  /** The frame lock is taken: on to the next frame. */
  ghost predicate GiveUpFrame(s: State, s': State, p: PageId) {
    (At(s, p, FillTry) || At(s, p, EvictTry)) && s.ops[p].f < |s.frames| && s.frames[s.ops[p].f].lock.Some?
    && s' == Goto(s, p, Scan)
  }

  ghost predicate SecondChance(s: State, s': State, p: PageId) {
    At(s, p, EvictTry) && s.ops[p].f in s.recent
    && s' == Goto(s, p, Scan).(recent := s.recent - {s.ops[p].f})
  }

  ghost predicate TakeEmpty(s: State, s': State, p: PageId) {
    At(s, p, FillTry) && s.ops[p].f < |s.frames|
    && var fr := s.frames[s.ops[p].f];
       fr.lock.None? && s' == Goto(SetFrame(s, s.ops[p].f, fr.(lock := Some(p))), p, FillCheck)
  }

  ghost predicate TakeUnpinned(s: State, s': State, p: PageId) {
    At(s, p, EvictTry) && s.ops[p].f < |s.frames|
    && var fr := s.frames[s.ops[p].f];
       s.ops[p].f !in s.recent && fr.lock.None?
         && s' == Goto(SetFrame(s, s.ops[p].f, fr.(lock := Some(p))), p, EvictLocked)
  }

  ghost predicate FillFail(s: State, s': State, p: PageId) {
    At(s, p, FillCheck) && s.ops[p].f < |s.frames|
    && var fr := s.frames[s.ops[p].f];
       fr.pin != -1 && s' == Goto(SetFrame(s, s.ops[p].f, fr.(lock := None)), p, Scan)
  }

  ghost predicate FillOk(s: State, s': State, p: PageId) {
    At(s, p, FillCheck) && s.ops[p].f < |s.frames| && s.frames[s.ops[p].f].pin == -1 && s' == Goto(s, p, Load)
  }

  /** Dereferences the page identity stored in the frame, as does the next step. */
  ghost predicate VictimBusy(s: State, s': State, p: PageId) {
    At(s, p, EvictLocked) && s.ops[p].f < |s.frames|
    && var fr := s.frames[s.ops[p].f];
       fr.page.Some? && Locked(s, fr.page.value) && s' == Goto(SetFrame(s, s.ops[p].f, fr.(lock := None)), p, Scan)
  }

  ghost predicate LockVictim(s: State, s': State, p: PageId) {
    At(s, p, EvictLocked) && s.ops[p].f < |s.frames|
    && var fr := s.frames[s.ops[p].f];
       && fr.page.Some? && !Locked(s, fr.page.value)
       && s' == s.(ops := s.ops[p := s.ops[p].(stage := EvictCheck, q := fr.page.value)],
                   victims := s.victims[fr.page.value := p])
  }

  ghost predicate VictimPinned(s: State, s': State, p: PageId) {
    At(s, p, EvictCheck) && s.ops[p].f < |s.frames|
    && var fr := s.frames[s.ops[p].f];
       fr.pin != 0
       && s' == Goto(SetFrame(s, s.ops[p].f, fr.(lock := None)), p, Scan).(victims := s.victims - {s.ops[p].q})
  }

  ghost predicate ResetIdentity(s: State, s': State, p: PageId) {
    At(s, p, EvictCheck) && s.ops[p].f < |s.frames|
    && var fr := s.frames[s.ops[p].f];
       fr.pin == 0
       && s' == Goto(SetFrame(s, s.ops[p].f, fr.(page := None)), p, EvictReset)
             .(recent := s.recent - {s.ops[p].f}, dirty := s.dirty - {s.ops[p].f})
  }

  ghost predicate ResetPinCount(s: State, s': State, p: PageId) {
    At(s, p, EvictReset) && s.ops[p].f < |s.frames|
    && var fr := s.frames[s.ops[p].f];
       s' == Goto(SetFrame(s, s.ops[p].f, fr.(pin := -1)), p, EvictUnswizzle)
  }

  ghost predicate UnswizzleVictim(s: State, s': State, p: PageId) {
    At(s, p, EvictUnswizzle) && s' == Goto(s, p, EvictRelease).(swz := s.swz - {s.ops[p].q})
  }

  ghost predicate ReleaseVictim(s: State, s': State, p: PageId) {
    At(s, p, EvictRelease) && s' == Goto(s, p, Load).(victims := s.victims - {s.ops[p].q})
  }

  ghost predicate LoadPin(s: State, s': State, p: PageId) {
    At(s, p, Load) && s.ops[p].f < |s.frames|
    && var fr := s.frames[s.ops[p].f];
       s' == Goto(SetFrame(s, s.ops[p].f, fr.(pin := 1)), p, LoadMeta)
             .(pins := s.pins + multiset{p}, used := s.used + {s.ops[p].f})
  }

  ghost predicate LoadIdentity(s: State, s': State, p: PageId) {
    At(s, p, LoadMeta) && s.ops[p].f < |s.frames|
    && var fr := s.frames[s.ops[p].f];
       s' == Goto(SetFrame(s, s.ops[p].f, fr.(page := Some(p))), p, Loaded)
             .(recent := s.recent + {s.ops[p].f}, dirty := s.dirty - {s.ops[p].f})
  }

  ghost predicate ReleaseFrame(s: State, s': State, p: PageId) {
    At(s, p, Loaded) && s.ops[p].f < |s.frames|
    && var fr := s.frames[s.ops[p].f];
       s' == Goto(SetFrame(s, s.ops[p].f, fr.(lock := None)), p, Swizzle)
  }

  ghost predicate SwizzlePage(s: State, s': State, p: PageId) {
    At(s, p, Swizzle) && s' == Goto(s, p, Done).(swz := s.swz[p := s.ops[p].f])
  }

  ghost predicate UnpinPage(s: State, s': State, p: PageId) {
    At(s, p, UnpinStart) && p in s.swz && s.swz[p] < |s.frames|
    && var fr := s.frames[s.swz[p]];
       s' == Goto(SetFrame(s, s.swz[p], fr.(pin := fr.pin - 1)), p, Done).(pins := s.pins - multiset{p})
  }

  ghost predicate MarkDirty(s: State, s': State, p: PageId) {
    At(s, p, DirtyStart)
    && s' == Goto(s, p, Done).(dirty := s.dirty + if p in s.swz && s.swz[p] < |s.frames| && s.frames[s.swz[p]].pin >= 1
                                                  then {s.swz[p]} else {})
  }

  ghost predicate Finish(s: State, s': State, p: PageId) {
    At(s, p, Done) && s' == s.(ops := s.ops - {p})
  }

  datatype Action =
    | DoStart(p: PageId, g: Stage)
    | DoPinHit(p: PageId)
    | DoPinMiss(p: PageId)
    | DoSeeEmpty(p: PageId, f: nat)
    | DoSeeUnpinned(p: PageId, f: nat)
    | DoThrow(p: PageId)
    | DoGiveUpFrame(p: PageId)
    | DoSecondChance(p: PageId)
    | DoTakeEmpty(p: PageId)
    | DoTakeUnpinned(p: PageId)
    | DoFillFail(p: PageId)
    | DoFillOk(p: PageId)
    | DoVictimBusy(p: PageId)
    | DoLockVictim(p: PageId)
    | DoVictimPinned(p: PageId)
    | DoResetIdentity(p: PageId)
    | DoResetPinCount(p: PageId)
    | DoUnswizzleVictim(p: PageId)
    | DoReleaseVictim(p: PageId)
    | DoLoadPin(p: PageId)
    | DoLoadIdentity(p: PageId)
    | DoReleaseFrame(p: PageId)
    | DoSwizzlePage(p: PageId)
    | DoUnpinPage(p: PageId)
    | DoMarkDirty(p: PageId)
    | DoFinish(p: PageId)

  ghost predicate Step(s: State, s': State, a: Action) {
    match a
    case DoStart(p, g) => Start(s, s', p, g)
    case DoPinHit(p) => PinHit(s, s', p)
    case DoPinMiss(p) => PinMiss(s, s', p)
    case DoSeeEmpty(p, f) => SeeEmpty(s, s', p, f)
    case DoSeeUnpinned(p, f) => SeeUnpinned(s, s', p, f)
    case DoThrow(p) => Throw(s, s', p)
    case DoGiveUpFrame(p) => GiveUpFrame(s, s', p)
    case DoSecondChance(p) => SecondChance(s, s', p)
    case DoTakeEmpty(p) => TakeEmpty(s, s', p)
    case DoTakeUnpinned(p) => TakeUnpinned(s, s', p)
    case DoFillFail(p) => FillFail(s, s', p)
    case DoFillOk(p) => FillOk(s, s', p)
    case DoVictimBusy(p) => VictimBusy(s, s', p)
    case DoLockVictim(p) => LockVictim(s, s', p)
    case DoVictimPinned(p) => VictimPinned(s, s', p)
    case DoResetIdentity(p) => ResetIdentity(s, s', p)
    case DoResetPinCount(p) => ResetPinCount(s, s', p)
    case DoUnswizzleVictim(p) => UnswizzleVictim(s, s', p)
    case DoReleaseVictim(p) => ReleaseVictim(s, s', p)
    case DoLoadPin(p) => LoadPin(s, s', p)
    case DoLoadIdentity(p) => LoadIdentity(s, s', p)
    case DoReleaseFrame(p) => ReleaseFrame(s, s', p)
    case DoSwizzlePage(p) => SwizzlePage(s, s', p)
    case DoUnpinPage(p) => UnpinPage(s, s', p)
    case DoMarkDirty(p) => MarkDirty(s, s', p)
    case DoFinish(p) => Finish(s, s', p)
  }

  ghost predicate Next(s: State, s': State) {
    exists a :: Step(s, s', a)
  }

  ghost predicate Init(s: State) {
    && (forall f :: 0 <= f < |s.frames| ==> s.frames[f] == Frame(None, -1, None))
    && s.swz == map[] && s.ops == map[] && s.victims == map[] && s.pins == multiset{}
    && s.used == {} && s.recent == {} && s.dirty == {}
  }

  // ---------------------------------------------------------------------------------------------
  // Invariant
  // ---------------------------------------------------------------------------------------------

  ghost predicate Absent(s: State, p: PageId) {
    p !in s.swz && s.pins[p] == 0
  }

  /** What the operation on p may rely on. */
  ghost predicate OpOk(s: State, p: PageId)
    requires p in s.ops
  {
    var g, f, q := s.ops[p].stage, s.ops[p].f, s.ops[p].q;
    && p !in s.victims
    && (HoldsFrame(g) ==> f < |s.frames| && s.frames[f].lock == Some(p))
    && (HoldsVictim(g) ==> q in s.victims && s.victims[q] == p)
    && (g.UnpinStart? ==> p in s.pins)
    && (g.LoadMeta? || g.Loaded? || g.Swizzle? ==> p !in s.swz && s.pins[p] == 1)
    && (g.Swizzle? ==> f < |s.frames| && s.frames[f].page == Some(p))
    && (g.Scan? || g.FillTry? || g.FillCheck? || g.EvictTry? || g.EvictLocked? || HoldsVictim(g) || g.Load? ==>
        Absent(s, p))
    && (g.EvictTry? || g.EvictLocked? ==> f in s.used)
    && (g.EvictCheck? ==> s.frames[f].page == Some(q))
  }

  ghost predicate VictimOk(s: State, q: PageId)
    requires q in s.victims
  {
    && q !in s.ops
    && s.victims[q] in s.ops && HoldsVictim(s.ops[s.victims[q]].stage) && s.ops[s.victims[q]].q == q
  }

  /** A frame whose page is not being replaced. */
  ghost predicate StableFrame(s: State, f: nat)
    requires f < |s.frames|
  {
    var fr := s.frames[f];
    if fr.page.None? then fr.pin == -1 && f !in s.used
    else
      var q := fr.page.value;
      && fr.pin == s.pins[q] && f in s.used
      && if q in s.swz then s.swz[q] == f else At(s, q, Swizzle) && s.ops[q].f == f
  }

  /** A frame whose page the operation at stage g, evicting q for p, is replacing. */
  ghost predicate RefilledFrame(s: State, f: nat, p: PageId, g: Stage, q: PageId)
    requires f < |s.frames|
  {
    var fr := s.frames[f];
    && fr.page == (if g.Loaded? then Some(p) else None)
    && fr.pin == (if g.EvictReset? then 0 else if g.LoadMeta? || g.Loaded? then 1 else -1)
    && (!g.Load? ==> f in s.used)
    && (g.EvictReset? || g.EvictUnswizzle? ==> q in s.swz && s.swz[q] == f && s.pins[q] == 0)
    && (g.EvictRelease? ==> Absent(s, q))
  }

  ghost predicate FrameOk(s: State, f: nat)
    requires f < |s.frames|
  {
    var l := s.frames[f].lock;
    if l.Some? && l.value in s.ops && s.ops[l.value].f == f && Refilling(s.ops[l.value].stage)
    then RefilledFrame(s, f, l.value, s.ops[l.value].stage, s.ops[l.value].q)
    else StableFrame(s, f)
  }

  /** A swizzled page is in its frame, unless its eviction has begun. */
  ghost predicate SwizzledOk(s: State, q: PageId)
    requires q in s.swz
  {
    && s.swz[q] < |s.frames|
    && (s.frames[s.swz[q]].page == Some(q)
        || (q in s.victims && s.victims[q] in s.ops && s.ops[s.victims[q]].f == s.swz[q]
            && (s.ops[s.victims[q]].stage.EvictReset? || s.ops[s.victims[q]].stage.EvictUnswizzle?)))
  }

  /** A pinned page is resident or being loaded. */
  ghost predicate PinnedOk(s: State, q: PageId) {
    s.pins[q] > 0 && q !in s.swz ==> At(s, q, LoadMeta) || At(s, q, Loaded) || At(s, q, Swizzle)
  }

  ghost predicate Inv(s: State) {
    && (forall p {:trigger OpOk(s, p)} :: p in s.ops ==> OpOk(s, p))
    && (forall q {:trigger VictimOk(s, q)} :: q in s.victims ==> VictimOk(s, q))
    && (forall f: nat {:trigger FrameOk(s, f)} :: f < |s.frames| ==> FrameOk(s, f))
    && (forall q {:trigger SwizzledOk(s, q)} :: q in s.swz ==> SwizzledOk(s, q))
    && (forall q :: PinnedOk(s, q))
  }

  // ---------------------------------------------------------------------------------------------
  // Every step keeps the invariant
  // ---------------------------------------------------------------------------------------------

  /** The operation on p holds neither a frame nor a victim and is not about to swizzle. */
  predicate Quiet(s: State, p: PageId) {
    p in s.ops ==> !HoldsFrame(s.ops[p].stage) && !s.ops[p].stage.Swizzle?
  }

  /** Steps that move the operation on p between quiet stages and touch no frame, page or lock. */
  lemma QuietInv(s: State, s': State, p: PageId)
    requires Inv(s) && Quiet(s, p) && Quiet(s', p)
    requires s' == s.(ops := s'.ops, recent := s'.recent, dirty := s'.dirty)
    requires forall x :: x != p ==> (x in s.ops <==> x in s'.ops) && (x in s.ops ==> s'.ops[x] == s.ops[x])
    requires p in s'.ops ==> OpOk(s', p)
    ensures Inv(s')
  {
    forall x | x in s'.ops ensures OpOk(s', x) {
      assert x != p ==> OpOk(s, x);
    }
    forall f: nat | f < |s'.frames| ensures FrameOk(s', f) {
      assert FrameOk(s, f);
    }
    forall x | x in s'.victims ensures VictimOk(s', x) {
      assert VictimOk(s, x);
    }
    forall x | x in s'.swz ensures SwizzledOk(s', x) {
      assert SwizzledOk(s, x);
    }
    forall x ensures PinnedOk(s', x) {
      assert PinnedOk(s, x);
    }
  }

  /** Steps that only take or give back the lock of frame f. */
  lemma FrameLockInv(s: State, s': State, p: PageId, f: nat)
    requires Inv(s) && p in s.ops && p in s'.ops && f < |s.frames| == |s'.frames|
    requires !Refilling(s.ops[p].stage) && !HoldsVictim(s.ops[p].stage) && !s.ops[p].stage.Swizzle?
    requires !Refilling(s'.ops[p].stage) && !HoldsVictim(s'.ops[p].stage) && !s'.ops[p].stage.Swizzle?
    requires s.frames[f].lock in {None, Some(p)} && s'.frames[f].lock in {None, Some(p)}
    requires s' == s.(ops := s.ops[p := s'.ops[p]], frames := s.frames[f := s.frames[f].(lock := s'.frames[f].lock)])
    requires OpOk(s', p)
    ensures Inv(s')
  {
    forall x | x in s'.ops ensures OpOk(s', x) {
      assert OpOk(s, x);
    }
    forall h: nat | h < |s'.frames| ensures FrameOk(s', h) {
      assert FrameOk(s, h);
    }
    forall x | x in s'.victims ensures VictimOk(s', x) {
      assert VictimOk(s, x);
    }
    forall x | x in s'.swz ensures SwizzledOk(s', x) {
      assert SwizzledOk(s, x);
    }
    forall x ensures PinnedOk(s', x) {
      assert PinnedOk(s, x);
    }
  }

  /** Steps that begin or end an operation, or work on a resident page. */
  predicate CallStep(a: Action) {
    a.DoStart? || a.DoPinHit? || a.DoPinMiss? || a.DoUnpinPage?
    || a.DoMarkDirty? || a.DoThrow? || a.DoFinish?
  }

  /** Steps that look for a frame and lock it. */
  predicate ClaimStep(a: Action) {
    a.DoSeeEmpty? || a.DoSeeUnpinned? || a.DoGiveUpFrame? || a.DoSecondChance?
    || a.DoTakeEmpty? || a.DoTakeUnpinned? || a.DoFillFail? || a.DoFillOk?
  }

  /** Steps that evict a page. */
  predicate EvictStep(a: Action) {
    a.DoVictimBusy? || a.DoLockVictim? || a.DoVictimPinned? || a.DoResetIdentity?
    || a.DoResetPinCount? || a.DoUnswizzleVictim? || a.DoReleaseVictim?
  }

  /** Steps that load a page. */
  predicate LoadStep(a: Action) {
    a.DoLoadPin? || a.DoLoadIdentity? || a.DoReleaseFrame? || a.DoSwizzlePage?
  }

  // The steps that touch a frame, a page or the lock of a victim: each frame ...

  lemma PinHitFrames(s: State, s': State, p: PageId, f: nat)
    requires Inv(s) && PinHit(s, s', p) && f < |s.frames|
    ensures FrameOk(s', f)
  {
    assert OpOk(s, p) && FrameOk(s, f);
    assert SwizzledOk(s, p);
    var f0 := s.swz[p];
    assert s.frames[f0].page == Some(p);
    assert FrameOk(s, f0) && StableFrame(s, f0);
  }

  lemma FillOkFrames(s: State, s': State, p: PageId, f: nat)
    requires Inv(s) && FillOk(s, s', p) && f < |s.frames|
    ensures FrameOk(s', f)
  {
    assert OpOk(s, p) && FrameOk(s, f);
  }

  lemma LockVictimFrames(s: State, s': State, p: PageId, f: nat)
    requires Inv(s) && LockVictim(s, s', p) && f < |s.frames|
    ensures FrameOk(s', f)
  {
    assert OpOk(s, p) && FrameOk(s, f);
  }

  lemma VictimPinnedFrames(s: State, s': State, p: PageId, f: nat)
    requires Inv(s) && VictimPinned(s, s', p) && f < |s.frames|
    ensures FrameOk(s', f)
  {
    assert OpOk(s, p) && FrameOk(s, f);
    assert FrameOk(s, s.ops[p].f);
  }

  lemma ResetIdentityFrames(s: State, s': State, p: PageId, f: nat)
    requires Inv(s) && ResetIdentity(s, s', p) && f < |s.frames|
    ensures FrameOk(s', f)
  {
    assert OpOk(s, p) && FrameOk(s, f);
    assert FrameOk(s, s.ops[p].f);
    assert VictimOk(s, s.ops[p].q);
  }

  lemma ResetPinCountFrames(s: State, s': State, p: PageId, f: nat)
    requires Inv(s) && ResetPinCount(s, s', p) && f < |s.frames|
    ensures FrameOk(s', f)
  {
    assert OpOk(s, p) && FrameOk(s, f);
    assert FrameOk(s, s.ops[p].f);
  }

  lemma UnswizzleVictimFrames(s: State, s': State, p: PageId, f: nat)
    requires Inv(s) && UnswizzleVictim(s, s', p) && f < |s.frames|
    ensures FrameOk(s', f)
  {
    assert OpOk(s, p) && FrameOk(s, f);
    assert FrameOk(s, s.ops[p].f);
  }

  lemma ReleaseVictimFrames(s: State, s': State, p: PageId, f: nat)
    requires Inv(s) && ReleaseVictim(s, s', p) && f < |s.frames|
    ensures FrameOk(s', f)
  {
    assert OpOk(s, p) && FrameOk(s, f);
    assert FrameOk(s, s.ops[p].f);
  }

  lemma LoadPinFrames(s: State, s': State, p: PageId, f: nat)
    requires Inv(s) && LoadPin(s, s', p) && f < |s.frames|
    ensures FrameOk(s', f)
  {
    assert OpOk(s, p) && FrameOk(s, f);
    assert FrameOk(s, s.ops[p].f);
    var l := s.frames[f].lock;
    if l.Some? && l.value in s.ops {
      assert OpOk(s, l.value);
    }
  }

  lemma LoadIdentityFrames(s: State, s': State, p: PageId, f: nat)
    requires Inv(s) && LoadIdentity(s, s', p) && f < |s.frames|
    ensures FrameOk(s', f)
  {
    assert OpOk(s, p) && FrameOk(s, f);
    assert FrameOk(s, s.ops[p].f);
  }

  lemma ReleaseFrameFrames(s: State, s': State, p: PageId, f: nat)
    requires Inv(s) && ReleaseFrame(s, s', p) && f < |s.frames|
    ensures FrameOk(s', f)
  {
    assert OpOk(s, p) && FrameOk(s, f);
    assert FrameOk(s, s.ops[p].f);
  }

  lemma SwizzlePageFrames(s: State, s': State, p: PageId, f: nat)
    requires Inv(s) && SwizzlePage(s, s', p) && f < |s.frames|
    ensures FrameOk(s', f)
  {
    assert OpOk(s, p) && FrameOk(s, f);
  }

  lemma UnpinPageFrames(s: State, s': State, p: PageId, f: nat)
    requires Inv(s) && UnpinPage(s, s', p) && f < |s.frames|
    ensures FrameOk(s', f)
  {
    assert OpOk(s, p) && FrameOk(s, f);
    assert SwizzledOk(s, p);
    var f0 := s.swz[p];
    assert s.frames[f0].page == Some(p);
    assert FrameOk(s, f0) && StableFrame(s, f0);
  }

  /** Steps that touch a frame, a page or the lock of a victim. */
  predicate Moves(a: Action) {
    a.DoPinHit? || a.DoFillOk? || a.DoLockVictim? || a.DoVictimPinned? || a.DoResetIdentity?
    || a.DoResetPinCount? || a.DoUnswizzleVictim? || a.DoReleaseVictim? || a.DoLoadPin?
    || a.DoLoadIdentity? || a.DoReleaseFrame? || a.DoSwizzlePage? || a.DoUnpinPage?
  }

  lemma EvictFrames(s: State, s': State, a: Action, f: nat)
    requires Inv(s) && Moves(a) && EvictStep(a) && Step(s, s', a) && f < |s.frames|
    ensures |s'.frames| == |s.frames| && FrameOk(s', f)
  {
    match a
    case DoLockVictim(p) => LockVictimFrames(s, s', p, f);
    case DoVictimPinned(p) => VictimPinnedFrames(s, s', p, f);
    case DoResetIdentity(p) => ResetIdentityFrames(s, s', p, f);
    case DoResetPinCount(p) => ResetPinCountFrames(s, s', p, f);
    case DoUnswizzleVictim(p) => UnswizzleVictimFrames(s, s', p, f);
    case DoReleaseVictim(p) => ReleaseVictimFrames(s, s', p, f);
  }

  lemma OtherFrames(s: State, s': State, a: Action, f: nat)
    requires Inv(s) && Moves(a) && !EvictStep(a) && Step(s, s', a) && f < |s.frames|
    ensures |s'.frames| == |s.frames| && FrameOk(s', f)
  {
    match a
    case DoPinHit(p) => PinHitFrames(s, s', p, f);
    case DoFillOk(p) => FillOkFrames(s, s', p, f);
    case DoLoadPin(p) => LoadPinFrames(s, s', p, f);
    case DoLoadIdentity(p) => LoadIdentityFrames(s, s', p, f);
    case DoReleaseFrame(p) => ReleaseFrameFrames(s, s', p, f);
    case DoSwizzlePage(p) => SwizzlePageFrames(s, s', p, f);
    case DoUnpinPage(p) => UnpinPageFrames(s, s', p, f);
  }

  lemma FrameKept(s: State, s': State, a: Action, f: nat)
    requires Inv(s) && Moves(a) && Step(s, s', a) && f < |s.frames|
    ensures |s'.frames| == |s.frames| && FrameOk(s', f)
  {
    if EvictStep(a) {
      EvictFrames(s, s', a, f);
    } else {
      OtherFrames(s, s', a, f);
    }
  }

  lemma LockVictimOps(s: State, s': State, p: PageId, x: PageId)
    requires Inv(s) && LockVictim(s, s', p) && x in s'.ops
    ensures OpOk(s', x)
  {
    assert OpOk(s, p) && OpOk(s, x);
  }

  lemma ResetIdentityOps(s: State, s': State, p: PageId, x: PageId)
    requires Inv(s) && ResetIdentity(s, s', p) && x in s'.ops
    ensures OpOk(s', x)
  {
    assert OpOk(s, p) && OpOk(s, x);
    assert FrameOk(s, s.ops[p].f);
    assert VictimOk(s, s.ops[p].q);
  }

  lemma ResetPinCountOps(s: State, s': State, p: PageId, x: PageId)
    requires Inv(s) && ResetPinCount(s, s', p) && x in s'.ops
    ensures OpOk(s', x)
  {
    assert OpOk(s, p) && OpOk(s, x);
    assert FrameOk(s, s.ops[p].f);
  }

  lemma UnswizzleVictimOps(s: State, s': State, p: PageId, x: PageId)
    requires Inv(s) && UnswizzleVictim(s, s', p) && x in s'.ops
    ensures OpOk(s', x)
  {
    assert OpOk(s, p) && OpOk(s, x);
    assert FrameOk(s, s.ops[p].f);
  }

  lemma PinnedPageFrame(s: State, p: PageId)
    requires Inv(s) && p in s.ops && p !in s.victims && p in s.swz
    ensures s.swz[p] < |s.frames| && s.frames[s.swz[p]].page == Some(p) && s.frames[s.swz[p]].pin == s.pins[p]
  {
    assert OpOk(s, p) && SwizzledOk(s, p) && FrameOk(s, s.swz[p]);
  }

  lemma PinOps(s: State, s': State, a: Action, x: PageId)
    requires Inv(s) && (a.DoPinHit? || a.DoUnpinPage?) && Step(s, s', a) && x in s'.ops
    ensures OpOk(s', x)
  {
    assert OpOk(s, a.p) && OpOk(s, x);
    PinnedPageFrame(s, a.p);
  }

  lemma ClaimOps(s: State, s': State, a: Action, x: PageId)
    requires Inv(s) && (a.DoFillOk? || a.DoVictimPinned? || a.DoReleaseVictim?) && Step(s, s', a) && x in s'.ops
    ensures OpOk(s', x)
  {
    assert OpOk(s, a.p) && OpOk(s, x);
    assert FrameOk(s, s.ops[a.p].f);
  }

  lemma LoadOps(s: State, s': State, a: Action, x: PageId)
    requires Inv(s) && LoadStep(a) && !a.DoSwizzlePage? && Step(s, s', a) && x in s'.ops
    ensures OpOk(s', x)
  {
    assert OpOk(s, a.p) && OpOk(s, x) && FrameOk(s, s.ops[a.p].f);
  }

  /** ... each operation ... */
  lemma OpKept(s: State, s': State, a: Action, x: PageId)
    requires Inv(s) && Moves(a) && Step(s, s', a) && x in s'.ops
    ensures OpOk(s', x)
  {
    if a.DoLockVictim? {
      LockVictimOps(s, s', a.p, x);
    } else if a.DoResetIdentity? {
      ResetIdentityOps(s, s', a.p, x);
    } else if a.DoResetPinCount? {
      ResetPinCountOps(s, s', a.p, x);
    } else if a.DoUnswizzleVictim? {
      UnswizzleVictimOps(s, s', a.p, x);
    } else if a.DoSwizzlePage? {
      assert OpOk(s, a.p) && OpOk(s, x);
    } else if LoadStep(a) {
      LoadOps(s, s', a, x);
    } else if a.DoPinHit? || a.DoUnpinPage? {
      PinOps(s, s', a, x);
    } else {
      ClaimOps(s, s', a, x);
    }
  }

  lemma LockVictimVictims(s: State, s': State, p: PageId, x: PageId)
    requires Inv(s) && LockVictim(s, s', p) && x in s'.victims
    ensures VictimOk(s', x)
  {
    assert OpOk(s, p);
    assert x in s.victims ==> VictimOk(s, x);
  }

  lemma EvictVictims(s: State, s': State, a: Action, x: PageId)
    requires Inv(s) && EvictStep(a) && !a.DoLockVictim? && Step(s, s', a) && x in s'.victims
    ensures VictimOk(s', x)
  {
    assert OpOk(s, a.p) && VictimOk(s, x);
  }

  lemma LoadVictims(s: State, s': State, a: Action, x: PageId)
    requires Inv(s) && LoadStep(a) && Step(s, s', a) && x in s'.victims
    ensures VictimOk(s', x)
  {
    assert OpOk(s, a.p) && VictimOk(s, x);
  }

  lemma CallVictims(s: State, s': State, a: Action, x: PageId)
    requires Inv(s) && (a.DoPinHit? || a.DoUnpinPage? || a.DoFillOk?) && Step(s, s', a) && x in s'.victims
    ensures VictimOk(s', x)
  {
    assert OpOk(s, a.p) && VictimOk(s, x);
  }

  /** ... each victim ... */
  lemma VictimKept(s: State, s': State, a: Action, x: PageId)
    requires Inv(s) && Moves(a) && Step(s, s', a) && x in s'.victims
    ensures VictimOk(s', x)
  {
    if a.DoLockVictim? {
      LockVictimVictims(s, s', a.p, x);
    } else if EvictStep(a) {
      EvictVictims(s, s', a, x);
    } else if LoadStep(a) {
      LoadVictims(s, s', a, x);
    } else {
      CallVictims(s, s', a, x);
    }
  }

  lemma SwizzledInLoad(s: State, s': State, a: Action, x: PageId)
    requires Inv(s) && LoadStep(a) && Step(s, s', a) && x in s'.swz
    ensures SwizzledOk(s', x)
  {
    assert OpOk(s, a.p);
    assert x in s.swz ==> SwizzledOk(s, x);
    if x in s.victims && s.victims[x] in s.ops {
      assert OpOk(s, s.victims[x]);
    }
    if a.DoLoadIdentity? {
      assert FrameOk(s, s.ops[a.p].f);
    }
  }

  lemma SwizzledInCall(s: State, s': State, a: Action, x: PageId)
    requires Inv(s) && (a.DoPinHit? || a.DoUnpinPage? || a.DoFillOk?) && Step(s, s', a) && x in s'.swz
    ensures SwizzledOk(s', x)
  {
    assert OpOk(s, a.p) && SwizzledOk(s, x);
  }

  lemma SwizzledInReset(s: State, s': State, a: Action, x: PageId)
    requires Inv(s) && (a.DoResetIdentity? || a.DoResetPinCount? || a.DoUnswizzleVictim?) && Step(s, s', a)
    requires x in s'.swz
    ensures SwizzledOk(s', x)
  {
    assert OpOk(s, a.p) && SwizzledOk(s, x) && FrameOk(s, s.ops[a.p].f);
    assert x in s.victims ==> VictimOk(s, x);
  }

  lemma SwizzledAtLocks(s: State, s': State, a: Action, x: PageId)
    requires Inv(s) && (a.DoLockVictim? || a.DoVictimPinned? || a.DoReleaseVictim?) && Step(s, s', a) && x in s'.swz
    ensures SwizzledOk(s', x)
  {
    assert OpOk(s, a.p) && SwizzledOk(s, x);
    assert x in s.victims ==> VictimOk(s, x);
  }

  /** ... and each page are as they should be. */
  lemma SwizzledKept(s: State, s': State, a: Action, x: PageId)
    requires Inv(s) && Moves(a) && Step(s, s', a) && x in s'.swz
    ensures SwizzledOk(s', x)
  {
    if a.DoLockVictim? || a.DoVictimPinned? || a.DoReleaseVictim? {
      SwizzledAtLocks(s, s', a, x);
    } else if EvictStep(a) {
      SwizzledInReset(s, s', a, x);
    } else if LoadStep(a) {
      SwizzledInLoad(s, s', a, x);
    } else {
      SwizzledInCall(s, s', a, x);
    }
  }

  lemma UnswizzleVictimPinned(s: State, s': State, p: PageId, x: PageId)
    requires Inv(s) && UnswizzleVictim(s, s', p)
    ensures PinnedOk(s', x)
  {
    assert OpOk(s, p) && PinnedOk(s, x) && FrameOk(s, s.ops[p].f);
  }

  lemma EvictPinned(s: State, s': State, a: Action, x: PageId)
    requires PinnedOk(s, x) && EvictStep(a) && !a.DoUnswizzleVictim? && Step(s, s', a)
    ensures PinnedOk(s', x)
  {
    assert s'.pins == s.pins && s'.swz == s.swz;
  }

  lemma LoadPinned(s: State, s': State, a: Action, x: PageId)
    requires PinnedOk(s, x) && LoadStep(a) && Step(s, s', a)
    ensures PinnedOk(s', x)
  {
  }

  lemma PinHitPinned(s: State, s': State, p: PageId, x: PageId)
    requires PinnedOk(s, x) && PinHit(s, s', p)
    ensures PinnedOk(s', x)
  {
  }

  lemma UnpinPagePinned(s: State, s': State, p: PageId, x: PageId)
    requires PinnedOk(s, x) && UnpinPage(s, s', p)
    ensures PinnedOk(s', x)
  {
  }

  lemma PinnedKept(s: State, s': State, a: Action, x: PageId)
    requires Inv(s) && Moves(a) && Step(s, s', a)
    ensures PinnedOk(s', x)
  {
    assert PinnedOk(s, x);
    if a.DoUnswizzleVictim? {
      UnswizzleVictimPinned(s, s', a.p, x);
    } else if EvictStep(a) {
      EvictPinned(s, s', a, x);
    } else if LoadStep(a) {
      LoadPinned(s, s', a, x);
    } else if a.DoPinHit? {
      PinHitPinned(s, s', a.p, x);
    } else if a.DoUnpinPage? {
      UnpinPagePinned(s, s', a.p, x);
    }
  }

  lemma MovesInv(s: State, s': State, a: Action)
    requires Inv(s) && Moves(a) && Step(s, s', a)
    ensures Inv(s')
  {
    FrameCount(s, s', a);
    forall f: nat | f < |s'.frames| ensures FrameOk(s', f) {
      FrameKept(s, s', a, f);
    }
    forall x | x in s'.ops ensures OpOk(s', x) {
      OpKept(s, s', a, x);
    }
    forall x | x in s'.victims ensures VictimOk(s', x) {
      VictimKept(s, s', a, x);
    }
    forall x | x in s'.swz ensures SwizzledOk(s', x) {
      SwizzledKept(s, s', a, x);
    }
    forall x ensures PinnedOk(s', x) {
      PinnedKept(s, s', a, x);
    }
  }

  lemma FrameCount(s: State, s': State, a: Action)
    requires Step(s, s', a)
    ensures |s'.frames| == |s.frames|
  {
  }

  lemma CallQuietInv(s: State, s': State, a: Action)
    requires Inv(s) && (a.DoPinMiss? || a.DoMarkDirty? || a.DoThrow? || a.DoFinish?) && Step(s, s', a)
    ensures Inv(s')
  {
    assert OpOk(s, a.p) && PinnedOk(s, a.p);
    QuietInv(s, s', a.p);
  }

  lemma CallStepInv(s: State, s': State, a: Action)
    requires Inv(s) && CallStep(a) && Step(s, s', a)
    ensures Inv(s')
  {
    if Moves(a) {
      MovesInv(s, s', a);
    } else if a.DoStart? {
      QuietInv(s, s', a.p);
    } else {
      CallQuietInv(s, s', a);
    }
  }

  lemma ClaimStepInv(s: State, s': State, a: Action)
    requires Inv(s) && ClaimStep(a) && Step(s, s', a)
    ensures Inv(s')
  {
    if a.DoFillOk? {
      MovesInv(s, s', a);
    } else {
      assert OpOk(s, a.p);
      if a.DoTakeEmpty? || a.DoTakeUnpinned? || a.DoFillFail? {
        ClaimLockInv(s, s', a);
      } else {
        assert a.DoSeeUnpinned? ==> FrameOk(s, a.f);
        QuietInv(s, s', a.p);
      }
    }
  }

  lemma ClaimLockInv(s: State, s': State, a: Action)
    requires Inv(s) && (a.DoTakeEmpty? || a.DoTakeUnpinned? || a.DoFillFail?) && Step(s, s', a)
    ensures Inv(s')
  {
    assert OpOk(s, a.p) && FrameOk(s, s.ops[a.p].f);
    FrameLockInv(s, s', a.p, s.ops[a.p].f);
  }

  lemma EvictStepInv(s: State, s': State, a: Action)
    requires Inv(s) && EvictStep(a) && Step(s, s', a)
    ensures Inv(s')
  {
    if Moves(a) {
      MovesInv(s, s', a);
    } else {
      assert OpOk(s, a.p) && FrameOk(s, s.ops[a.p].f);
      FrameLockInv(s, s', a.p, s.ops[a.p].f);
    }
  }

  lemma LoadStepInv(s: State, s': State, a: Action)
    requires Inv(s) && LoadStep(a) && Step(s, s', a)
    ensures Inv(s')
  {
    MovesInv(s, s', a);
  }

  lemma StepInv(s: State, s': State)
    requires Inv(s) && Next(s, s')
    ensures Inv(s')
  {
    var a :| Step(s, s', a);
    if CallStep(a) {
      CallStepInv(s, s', a);
    } else if ClaimStep(a) {
      ClaimStepInv(s, s', a);
    } else if EvictStep(a) {
      EvictStepInv(s, s', a);
    } else {
      LoadStepInv(s, s', a);
    }
  }

  // ---------------------------------------------------------------------------------------------
  // Safety over whole runs
  // ---------------------------------------------------------------------------------------------

  ghost predicate IsRun(run: seq<State>) {
    && run != [] && Init(run[0])
    && forall i, j {:trigger Next(run[i], run[j])} :: 0 <= i && j == i + 1 && j < |run| ==> Next(run[i], run[j])
  }

  lemma InitialInv(s: State)
    requires Init(s)
    ensures Inv(s)
  {
  }

  /** What holds at first and is kept by every step holds throughout. */
  lemma {:induction false} Throughout(run: seq<State>, holds: State -> bool, i: nat)
    requires i < |run| && holds(run[0])
    requires forall k :: 0 <= k < |run| - 1 && holds(run[k]) ==> holds(run[k + 1])
    ensures holds(run[i])
  {
    if i > 0 {
      Throughout(run, holds, i - 1);
      assert holds(run[i - 1 + 1]);
    }
  }

  lemma RunInv(run: seq<State>, i: nat)
    requires IsRun(run) && i < |run|
    ensures Inv(run[i])
  {
    var holds := s => Inv(s);
    InitialInv(run[0]);
    forall k | 0 <= k < |run| - 1 && holds(run[k]) ensures holds(run[k + 1]) {
      StepInv(run[k], run[k + 1]);
    }
    Throughout(run, holds, i);
  }

  /** In every reachable state: an unlocked page is swizzled to a frame exactly when that frame holds it and is
      not empty; no two frames hold the same page; a pin count is the number of outstanding pins; the
      eviction path never dereferences an empty frame. */
  lemma PoolSafety(run: seq<State>, i: nat, f: nat, g: nat, p: PageId)
    requires IsRun(run) && i < |run| && f < |run[i].frames| && g < |run[i].frames|
    ensures !Locked(run[i], p) ==>
              ((p in run[i].swz && run[i].swz[p] == f) <==>
               (run[i].frames[f].page == Some(p) && run[i].frames[f].pin != -1))
    ensures run[i].frames[f].page.Some? && run[i].frames[f].page == run[i].frames[g].page ==> f == g
    ensures run[i].frames[f].page == Some(p) ==> run[i].frames[f].pin == run[i].pins[p]
    ensures At(run[i], p, EvictLocked) && run[i].ops[p].f == f ==> run[i].frames[f].page.Some?
  {
    RunInv(run, i);
    var s := run[i];
    assert FrameOk(s, f) && FrameOk(s, g);
    if p in s.swz {
      assert SwizzledOk(s, p);
    }
    if p in s.ops {
      assert OpOk(s, p);
    }
    forall l | s.frames[f].lock == Some(l) && l in s.ops ensures OpOk(s, l) {
    }
    forall l | s.frames[g].lock == Some(l) && l in s.ops ensures OpOk(s, l) {
    }
  }

  lemma CallPageStays(s: State, s': State, a: Action, f: nat)
    requires Step(s, s', a) && CallStep(a)
    ensures |s'.frames| == |s.frames| && (f < |s.frames| ==> s'.frames[f].page == s.frames[f].page)
  {
  }

  lemma ClaimPageStays(s: State, s': State, a: Action, f: nat)
    requires Step(s, s', a) && ClaimStep(a)
    ensures |s'.frames| == |s.frames| && (f < |s.frames| ==> s'.frames[f].page == s.frames[f].page)
  {
  }

  /** Only the eviction and load steps change which page a frame holds. */
  lemma PageChange(s: State, s': State, a: Action, f: nat)
    requires Step(s, s', a)
    ensures |s'.frames| == |s.frames|
    ensures f < |s.frames| ==> s'.frames[f].page == s.frames[f].page || a.DoResetIdentity? || a.DoLoadIdentity?
  {
    if CallStep(a) {
      CallPageStays(s, s', a, f);
    } else if ClaimStep(a) {
      ClaimPageStays(s, s', a, f);
    } else {
      assert EvictStep(a) || LoadStep(a);
    }
  }

  /** The step moves no page that is still pinned after it. */
  ghost predicate Stays(s: State, s': State) {
    && |s'.frames| == |s.frames|
    && forall q, f :: 0 <= f < |s.frames| && s.frames[f].page == Some(q) && q in s'.pins ==>
       s'.frames[f].page == Some(q)
  }

  lemma StepStays(s: State, s': State)
    requires Inv(s) && Next(s, s')
    ensures Stays(s, s')
  {
    var a :| Step(s, s', a);
    PageChange(s, s', a, |s.frames|);
    forall q, f | 0 <= f < |s.frames| && s.frames[f].page == Some(q) && q in s'.pins
      ensures s'.frames[f].page == Some(q) {
      PageChange(s, s', a, f);
      if a.DoResetIdentity? || a.DoLoadIdentity? {
        assert OpOk(s, a.p) && FrameOk(s, s.ops[a.p].f);
      }
    }
  }

  lemma RunStays(run: seq<State>, i: nat)
    requires IsRun(run) && i + 1 < |run|
    ensures Stays(run[i], run[i + 1])
  {
    RunInv(run, i);
    StepStays(run[i], run[i + 1]);
  }

  /** A page that stays pinned stays in its frame, however long the run. */
  lemma {:induction false} PinnedPageNeverMoves(run: seq<State>, i: nat, j: nat, q: PageId, f: nat)
    requires IsRun(run) && i <= j < |run| && f < |run[i].frames| && run[i].frames[f].page == Some(q)
    requires forall k :: i <= k <= j ==> q in run[k].pins
    ensures f < |run[j].frames| && run[j].frames[f].page == Some(q)
    decreases j
  {
    if i < j {
      PinnedPageNeverMoves(run, i, j - 1, q, f);
      RunStays(run, j - 1);
    }
  }
}

/** Block allocation on top of the buffer pool, and the bump allocator over those blocks
    (src/storage/buffer_manager/memory_manager.cpp, src/common/overflow_buffer.cpp,
    src/common/include/overflow_buffer.h). */
module Allocator {
  import opened Wrappers

  const LARGE_PAGE_SIZE := 262144 // 2^18

  // ---------------------------------------------------------------------------------------------
  // Memory manager
  // ---------------------------------------------------------------------------------------------

  ghost predicate Distinct(s: seq<nat>) {
    forall i, j :: 0 <= i < j < |s| ==> s[i] != s[j]
  }

  /** Free, handed out or lost: every page is exactly one of the three. */
  ghost predicate Partition(numPages: nat, free: seq<nat>, out: set<nat>, lost: set<nat>) {
    && Distinct(free)
    && (forall p: nat :: p < numPages <==> p in free || p in out || p in lost)
    && (forall p :: p in free ==> p !in out && p !in lost) && out !! lost
  }

  class MemoryManager {
    var numPages: nat
    var freePages: seq<nat>         // a stack; the last element is its top
    var pinCount: map<nat, nat>     // pins of the place-holder file's pages in the buffer manager
    ghost var owner: map<nat, nat>  // the blocks handed out, and the buffer that holds each
    ghost var lost: set<nat>        // pages of allocations whose pin threw

    ghost predicate Valid()
      reads this
    {
      && Partition(numPages, freePages, owner.Keys, lost)
      && (forall p: nat :: p in pinCount <==> p < numPages)
      && (forall p :: p in pinCount ==> pinCount[p] == if p in owner then 1 else 0)
    }

    constructor ()
      ensures Valid() && owner == map[] && numPages == 0 && lost == {}
    {
      numPages, freePages, pinCount, owner, lost := 0, [], map[], map[], {};
    }

    /** `pinned` is whether the buffer manager found a frame; if not, its exception leaves the page neither free nor
        handed out. */
    method AllocateBlock(pinned: bool, ghost id: nat) returns (r: Option<nat>)
      requires Valid()
      modifies this
      ensures Valid() && (r.Some? <==> pinned)
      ensures r.Some? ==> r.value !in old(owner) && owner == old(owner)[r.value := id] && lost == old(lost)
      ensures r.None? ==> owner == old(owner) && exists p :: p !in old(lost) && lost == old(lost) + {p}
    {
      var page;
      ghost var was := freePages;
      if freePages == [] {
        page := numPages;
        numPages := numPages + 1;
        pinCount := pinCount[page := 0];
      } else {
        page := freePages[|freePages| - 1];
        freePages := freePages[..|freePages| - 1];
        assert was == freePages + [page];
        assert forall p :: p in was <==> p in freePages || p == page;
      }
      assert page !in owner && page !in lost && page !in freePages;
      assert forall p: nat :: p < numPages <==> p in freePages || p in owner || p in lost || p == page;
      if !pinned {
        lost := lost + {page};
        return None;
      }
      pinCount := pinCount[page := pinCount[page] + 1];
      owner := owner[page := id];
      return Some(page);
    }

    method FreeBlock(page: nat)
      requires Valid() && page in owner
      modifies this
      ensures Valid() && owner == old(owner) - {page} && lost == old(lost)
    {
      pinCount := pinCount[page := pinCount[page] - 1];
      freePages := freePages + [page];
      owner := owner - {page};
    }
  }

  // ---------------------------------------------------------------------------------------------
  // Overflow buffers
  // ---------------------------------------------------------------------------------------------

  datatype Block = Block(page: nat, currentOffset: nat)

  /** Bytes handed out to a caller. */
  datatype Span = Span(page: nat, start: nat, len: nat)

  predicate Overlap(a: Span, b: Span) {
    a.page == b.page && a.start < b.start + b.len && b.start < a.start + a.len
  }

  ghost predicate PairwiseDisjoint(spans: seq<Span>) {
    forall i, j :: 0 <= i < j < |spans| ==> !Overlap(spans[i], spans[j])
  }

  /** The span lies in the used part of one of the blocks. */
  ghost predicate Inside(span: Span, blocks: seq<Block>) {
    exists k :: 0 <= k < |blocks| && blocks[k].page == span.page && span.start + span.len <= blocks[k].currentOffset
  }

  ghost predicate AllInside(spans: seq<Span>, blocks: seq<Block>) {
    forall i :: 0 <= i < |spans| ==> Inside(spans[i], blocks)
  }

  ghost predicate BlocksOk(blocks: seq<Block>, owner: map<nat, nat>, id: nat) {
    && (forall k :: 0 <= k < |blocks| ==> blocks[k].currentOffset <= LARGE_PAGE_SIZE)
    && (forall k :: 0 <= k < |blocks| ==> blocks[k].page in owner && owner[blocks[k].page] == id)
    && (forall i, j :: 0 <= i < j < |blocks| ==> blocks[i].page != blocks[j].page)
    && (forall p :: p in owner && owner[p] == id ==> HasPage(blocks, p))
  }

  ghost predicate HasPage(blocks: seq<Block>, p: nat) {
    exists k :: 0 <= k < |blocks| && blocks[k].page == p
  }

  lemma PagesAppended(a: seq<Block>, b: seq<Block>)
    ensures forall p :: HasPage(a + b, p) <==> HasPage(a, p) || HasPage(b, p)
  {
    forall p ensures HasPage(a + b, p) <==> HasPage(a, p) || HasPage(b, p) {
      if HasPage(a, p) {
        var k :| 0 <= k < |a| && a[k].page == p;
        assert (a + b)[k].page == p;
      }
      if HasPage(b, p) {
        var k :| 0 <= k < |b| && b[k].page == p;
        assert (a + b)[|a| + k].page == p;
      }
    }
  }

  lemma PagesKept(blocks: seq<Block>, k: nat, b: Block)
    requires k < |blocks| && b.page == blocks[k].page
    ensures forall p :: HasPage(blocks[k := b], p) <==> HasPage(blocks, p)
  {
    forall p ensures HasPage(blocks[k := b], p) <==> HasPage(blocks, p) {
      if HasPage(blocks, p) {
        var i :| 0 <= i < |blocks| && blocks[i].page == p;
        assert blocks[k := b][i].page == p;
      }
    }
  }

  /** Allocating at the end of a block keeps the spans apart. */
  lemma SpanAdded(spans: seq<Span>, blocks: seq<Block>, k: nat, size: nat)
    requires k < |blocks| && AllInside(spans, blocks) && PairwiseDisjoint(spans)
    requires forall i, j :: 0 <= i < j < |blocks| ==> blocks[i].page != blocks[j].page
    ensures var span := Span(blocks[k].page, blocks[k].currentOffset, size);
            var grown := blocks[k := blocks[k].(currentOffset := blocks[k].currentOffset + size)];
            AllInside(spans + [span], grown) && PairwiseDisjoint(spans + [span])
  {
    var span := Span(blocks[k].page, blocks[k].currentOffset, size);
    var grown := blocks[k := blocks[k].(currentOffset := blocks[k].currentOffset + size)];
    assert grown[k].page == span.page;
    forall i | 0 <= i < |spans| ensures Inside(spans[i], grown) && !Overlap(spans[i], span) {
      var b :| 0 <= b < |blocks| && blocks[b].page == spans[i].page
               && spans[i].start + spans[i].len <= blocks[b].currentOffset;
      assert grown[b].page == spans[i].page;
    }
  }

  lemma BlockAppended(spans: seq<Span>, blocks: seq<Block>, more: seq<Block>)
    requires AllInside(spans, blocks)
    ensures AllInside(spans, blocks + more)
    ensures AllInside(spans, more + blocks)
  {
    forall i | 0 <= i < |spans| ensures Inside(spans[i], blocks + more) && Inside(spans[i], more + blocks) {
      var b :| 0 <= b < |blocks| && blocks[b].page == spans[i].page
               && spans[i].start + spans[i].len <= blocks[b].currentOffset;
      assert (blocks + more)[b] == blocks[b] && (more + blocks)[|more| + b] == blocks[b];
    }
  }

  /** Spans in the blocks of different buffers never overlap. */
  lemma BuffersApart(a: Span, b: Span, as': seq<Block>, bs: seq<Block>, owner: map<nat, nat>, i: nat, j: nat)
    requires Inside(a, as') && Inside(b, bs) && BlocksOk(as', owner, i) && BlocksOk(bs, owner, j) && i != j
    ensures a.page != b.page
  {
  }

  /** What callers can tell of a buffer: the spans handed out since the last reset, the room in the current block, and
      whether there are blocks at all. */
  datatype View = View(live: seq<Span>, room: Option<nat>, hasBlocks: bool) {
    predicate Fits(size: nat) {
      room.Some? && size <= room.value
    }

    function Taking(span: Span): View {
      View(live + [span], Some(if Fits(span.len) then room.value - span.len
                               else if span.len <= LARGE_PAGE_SIZE then LARGE_PAGE_SIZE - span.len else 0), true)
    }

    function Emptied(): View {
      View([], if hasBlocks then Some(LARGE_PAGE_SIZE) else room, hasBlocks)
    }

    function Joined(other: View): View {
      View(live + other.live, other.room, hasBlocks || other.hasBlocks)
    }
  }

  const NO_VIEW := View([], None, false)

  /** The fields of a buffer as a value. */
  datatype Fields = Fields(blocks: seq<Block>, currentBlock: Option<nat>, live: seq<Span>)

  function ViewOf(f: Fields): View {
    View(f.live, if f.currentBlock.Some? && f.currentBlock.value < |f.blocks|
                    && f.blocks[f.currentBlock.value].currentOffset <= LARGE_PAGE_SIZE
                 then Some(LARGE_PAGE_SIZE - f.blocks[f.currentBlock.value].currentOffset) else None, f.blocks != [])
  }

  ghost predicate BufferOk(f: Fields, owner: map<nat, nat>, id: nat) {
    && BlocksOk(f.blocks, owner, id)
    && (f.currentBlock.Some? ==> f.currentBlock.value < |f.blocks|)
    && AllInside(f.live, f.blocks) && PairwiseDisjoint(f.live)
  }

  /** currentBlock is the position of the block it points to; `live` are the spans handed out since the last reset. */
  class OverflowBuffer {
    const id: nat
    const memoryManager: MemoryManager
    var blocks: seq<Block>
    var currentBlock: Option<nat>
    ghost var live: seq<Span>

    ghost predicate Valid()
      reads this, memoryManager
    {
      memoryManager.Valid() && BufferOk(State(), memoryManager.owner, id)
    }

    constructor (id: nat, memoryManager: MemoryManager)
      requires memoryManager.Valid() && id !in memoryManager.owner.Values
      ensures Valid() && this.id == id && this.memoryManager == memoryManager
      ensures blocks == [] && live == [] && currentBlock == None
    {
      this.id, this.memoryManager := id, memoryManager;
      blocks, currentBlock, live := [], None, [];
    }

    ghost function State(): Fields
      reads this
    {
      Fields(blocks, currentBlock, live)
    }

    ghost function Shown(): View
      reads this
    {
      ViewOf(State())
    }

    predicate RequireNewBlock(size: nat)
      reads this
      requires currentBlock.Some? ==> currentBlock.value < |blocks|
    {
      currentBlock.None? || blocks[currentBlock.value].currentOffset + size > LARGE_PAGE_SIZE
    }

    /** None when the size exceeds a block or no frame was found for a new one. */
    method AllocateSpace(size: nat, pinned: bool) returns (r: Option<Span>)
      requires Valid()
      modifies this, memoryManager
      ensures Valid()
      ensures r.Some? <==> size <= LARGE_PAGE_SIZE && (old(Shown()).Fits(size) || pinned)
      ensures r.Some? ==> r.value.len == size && Shown() == old(Shown()).Taking(r.value)
      ensures r.Some? ==> r.value.start + size <= LARGE_PAGE_SIZE
      ensures r.None? ==> Shown() == old(Shown()) && blocks == old(blocks)
      ensures OthersKept(old(memoryManager.owner), memoryManager.owner, id)
    {
      if size > LARGE_PAGE_SIZE {
        return None;
      }
      if RequireNewBlock(size) {
        var ok := AllocateNewBlock(pinned);
        if !ok {
          return None;
        }
      }
      var span := Bump(size);
      return Some(span);
    }

    method AllocateNewBlock(pinned: bool) returns (ok: bool)
      requires Valid()
      modifies this`blocks, this`currentBlock, memoryManager
      ensures Valid() && ok == pinned
      ensures ok ==> |blocks| == old(|blocks|) + 1 && currentBlock == Some(old(|blocks|))
                     && blocks[|blocks| - 1].currentOffset == 0
      ensures !ok ==> blocks == old(blocks) && currentBlock == old(currentBlock)
      ensures OthersKept(old(memoryManager.owner), memoryManager.owner, id)
    {
      ghost var f, owner := State(), memoryManager.owner;
      var page := memoryManager.AllocateBlock(pinned, id);
      if page.None? {
        return false;
      }
      StateGrown(f, owner, id, page.value);
      blocks := blocks + [Block(page.value, 0)];
      currentBlock := Some(|blocks| - 1);
      assert State() == Grown(f, page.value);
      return true;
    }

    /** Takes the next bytes of the current block. */
    method Bump(size: nat) returns (span: Span)
      requires Valid() && Shown().Fits(size)
      modifies this`blocks, this`live
      ensures Valid() && span.len == size && live == old(live) + [span] && |blocks| == old(|blocks|)
      ensures span.start + size <= LARGE_PAGE_SIZE
      ensures Shown().room == Some(old(Shown()).room.value - size)
    {
      var k := currentBlock.value;
      ghost var f := State();
      StateBumped(f, memoryManager.owner, id, size);
      span := Span(blocks[k].page, blocks[k].currentOffset, size);
      blocks := blocks[k := blocks[k].(currentOffset := blocks[k].currentOffset + size)];
      live := live + [span];
      assert State() == Bumped(f, size);
    }

    /** The loop of resetBuffer and of the destructor. */
    method FreeBlocks(first: nat)
      requires Valid() && first <= |blocks|
      modifies memoryManager
      ensures memoryManager.Valid()
      ensures memoryManager.owner == old(memoryManager.owner) - PagesOf(blocks, first, |blocks|)
    {
      ghost var owner := memoryManager.owner;
      for i := first to |blocks|
        invariant memoryManager.Valid() && memoryManager.owner == owner - PagesOf(blocks, first, i)
      {
        PagesOfNext(blocks, first, i);
        memoryManager.FreeBlock(blocks[i].page);
      }
    }

    /** Frees all blocks but the first. An empty buffer stays as it is. */
    method ResetBuffer()
      requires Valid()
      modifies this, memoryManager
      ensures Valid() && Shown() == old(Shown()).Emptied()
      ensures blocks == if old(blocks) == [] then [] else [Block(old(blocks)[0].page, 0)]
      ensures memoryManager.owner == old(memoryManager.owner) - PagesOf(old(blocks), 1, |old(blocks)|)
      ensures OthersKept(old(memoryManager.owner), memoryManager.owner, id)
    {
      live := [];
      if blocks != [] {
        var firstBlock := blocks[0];
        ghost var was, owner := blocks, memoryManager.owner;
        FreeBlocks(1);
        blocks := [firstBlock.(currentOffset := 0)];
        currentBlock := Some(0);
        FirstBlockLeft(was, owner, id);
        FreedIsMine(was, 1, owner, id);
      }
    }

    /** Takes over the blocks of another buffer. That one keeps its currentBlock pointer and must not be used again. */
    method Merge(other: OverflowBuffer)
      requires Valid() && other.Valid() && other != this && other.memoryManager == memoryManager && other.id != id
      modifies this, other, memoryManager`owner
      ensures Valid() && blocks == old(blocks) + old(other.blocks) && Shown() == old(Shown()).Joined(old(other.Shown()))
      ensures other.blocks == [] && other.live == []
      ensures memoryManager.owner == Reassigned(old(memoryManager.owner), id, other.id)
    {
      ghost var owner, f, g := memoryManager.owner, State(), other.State();
      StatesMerged(f, g, owner, id, other.id);
      currentBlock := if other.currentBlock.Some? then Some(|blocks| + other.currentBlock.value) else None;
      blocks := blocks + other.blocks;
      other.blocks := [];
      live, other.live := live + other.live, [];
      memoryManager.owner := Reassigned(owner, id, other.id);
      assert State() == Merged(f, g) && BufferOk(State(), memoryManager.owner, id);
      assert memoryManager.owner.Keys == owner.Keys;
    }

    /** The destructor. */
    method Destroy()
      requires Valid()
      modifies this, memoryManager
      ensures memoryManager.Valid() && blocks == [] && live == []
      ensures memoryManager.owner == old(memoryManager.owner) - PagesOf(old(blocks), 0, |old(blocks)|)
      ensures OthersKept(old(memoryManager.owner), memoryManager.owner, id)
    {
      FreeBlocks(0);
      FreedIsMine(blocks, 0, old(memoryManager.owner), id);
      blocks, live := [], [];
    }
  }

  /** Pages of the blocks from one position up to another. */
  function PagesOf(blocks: seq<Block>, from: nat, to: nat): set<nat>
    requires to <= |blocks|
  {
    set k | from <= k < to :: blocks[k].page
  }

  lemma PagesOfNext(blocks: seq<Block>, from: nat, to: nat)
    requires from <= to < |blocks| && forall i, j :: 0 <= i < j < |blocks| ==> blocks[i].page != blocks[j].page
    ensures PagesOf(blocks, from, to + 1) == PagesOf(blocks, from, to) + {blocks[to].page}
    ensures blocks[to].page !in PagesOf(blocks, from, to)
  {
  }

  lemma FreedIsMine(blocks: seq<Block>, first: nat, owner: map<nat, nat>, id: nat)
    requires BlocksOk(blocks, owner, id)
    ensures OthersKept(owner, owner - PagesOf(blocks, first, |blocks|), id)
  {
  }

  lemma FirstBlockLeft(blocks: seq<Block>, owner: map<nat, nat>, id: nat)
    requires blocks != [] && BlocksOk(blocks, owner, id)
    ensures BlocksOk([Block(blocks[0].page, 0)], owner - PagesOf(blocks, 1, |blocks|), id)
  {
    var left, after := [Block(blocks[0].page, 0)], owner - PagesOf(blocks, 1, |blocks|);
    forall p | p in after && after[p] == id ensures HasPage(left, p) {
      var k :| 0 <= k < |blocks| && blocks[k].page == p;
      assert left[0].page == p;
    }
  }

  lemma NoBlockLeft(blocks: seq<Block>, owner: map<nat, nat>, id: nat)
    requires BlocksOk(blocks, owner, id)
    ensures var after := owner - PagesOf(blocks, 0, |blocks|);
            forall p :: p in after ==> after[p] != id
  {
    var after := owner - PagesOf(blocks, 0, |blocks|);
    forall p | p in after ensures after[p] != id {
      assert owner[p] == id ==> HasPage(blocks, p);
    }
  }

  function Grown(f: Fields, page: nat): Fields {
    Fields(f.blocks + [Block(page, 0)], Some(|f.blocks|), f.live)
  }

  lemma StateGrown(f: Fields, owner: map<nat, nat>, id: nat, page: nat)
    requires BufferOk(f, owner, id) && page !in owner
    ensures BufferOk(Grown(f, page), owner[page := id], id) && OthersKept(owner, owner[page := id], id)
  {
    BlockAppended(f.live, f.blocks, [Block(page, 0)]);
    PagesAppended(f.blocks, [Block(page, 0)]);
    assert [Block(page, 0)][0].page == page;
  }

  function Bumped(f: Fields, size: nat): Fields
    requires f.currentBlock.Some? && f.currentBlock.value < |f.blocks|
  {
    var k := f.currentBlock.value;
    var b := f.blocks[k];
    Fields(f.blocks[k := b.(currentOffset := b.currentOffset + size)], f.currentBlock,
           f.live + [Span(b.page, b.currentOffset, size)])
  }

  lemma StateBumped(f: Fields, owner: map<nat, nat>, id: nat, size: nat)
    requires BufferOk(f, owner, id) && ViewOf(f).Fits(size)
    ensures BufferOk(Bumped(f, size), owner, id) && ViewOf(Bumped(f, size)).room == Some(ViewOf(f).room.value - size)
  {
    var k := f.currentBlock.value;
    SpanAdded(f.live, f.blocks, k, size);
    PagesKept(f.blocks, k, f.blocks[k].(currentOffset := f.blocks[k].currentOffset + size));
  }

  /** The blocks of all other buffers stay theirs. */
  ghost predicate OthersKept(before: map<nat, nat>, after: map<nat, nat>, id: nat) {
    forall p :: (p in before && before[p] != id) || (p in after && after[p] != id) ==>
                  p in before && p in after && before[p] == after[p]
  }

  /** The blocks of j become those of i. */
  ghost function Reassigned(owner: map<nat, nat>, i: nat, j: nat): map<nat, nat> {
    map p | p in owner :: if owner[p] == j then i else owner[p]
  }

  function Merged(f: Fields, g: Fields): Fields {
    Fields(f.blocks + g.blocks,
           if g.currentBlock.Some? then Some(|f.blocks| + g.currentBlock.value) else None, f.live + g.live)
  }

  lemma StatesMerged(f: Fields, g: Fields, owner: map<nat, nat>, i: nat, j: nat)
    requires BufferOk(f, owner, i) && BufferOk(g, owner, j) && i != j
    ensures BufferOk(Merged(f, g), Reassigned(owner, i, j), i) && ViewOf(Merged(f, g)) == ViewOf(f).Joined(ViewOf(g))
    ensures Reassigned(owner, i, j).Keys == owner.Keys
  {
    SpansMerged(f.live, g.live, f.blocks, g.blocks, owner, i, j);
    BlocksMerged(f.blocks, g.blocks, owner, i, j);
    if g.currentBlock.Some? {
      assert (f.blocks + g.blocks)[|f.blocks| + g.currentBlock.value] == g.blocks[g.currentBlock.value];
    }
  }

  lemma BlocksMerged(mine: seq<Block>, theirs: seq<Block>, owner: map<nat, nat>, i: nat, j: nat)
    requires BlocksOk(mine, owner, i) && BlocksOk(theirs, owner, j) && i != j
    ensures BlocksOk(mine + theirs, Reassigned(owner, i, j), i)
  {
    PagesAppended(mine, theirs);
  }

  lemma SpansMerged(a: seq<Span>, b: seq<Span>, mine: seq<Block>, theirs: seq<Block>, owner: map<nat, nat>, i: nat,
                    j: nat)
    requires AllInside(a, mine) && AllInside(b, theirs) && PairwiseDisjoint(a) && PairwiseDisjoint(b)
    requires BlocksOk(mine, owner, i) && BlocksOk(theirs, owner, j) && i != j
    ensures AllInside(a + b, mine + theirs) && PairwiseDisjoint(a + b)
  {
    BlockAppended(a, mine, theirs);
    BlockAppended(b, theirs, mine);
    forall x, y | 0 <= x < y < |a + b| ensures !Overlap((a + b)[x], (a + b)[y]) {
      if x < |a| <= y {
        BuffersApart(a[x], b[y - |a|], mine, theirs, owner, i, j);
      }
    }
    forall x | 0 <= x < |a + b| ensures Inside((a + b)[x], mine + theirs) {
      assert x >= |a| ==> Inside(b[x - |a|], mine + theirs);
    }
  }

  // ---------------------------------------------------------------------------------------------
  // Runs over any number of buffers
  // ---------------------------------------------------------------------------------------------

  datatype Command = Allocate(b: nat, size: nat, pinned: bool) | Reset(b: nat) | MergeInto(b: nat, from: nat)
    | Release(b: nat)

  datatype Answer = Got(span: Span) | TooLarge | NoFrame | Done | NotGiven

  /** The buffers as their callers know them. A buffer that was merged from or destroyed is retired. */
  datatype Heap = Heap(views: seq<View>, retired: set<nat>) {
    predicate Usable(b: nat) {
      b < |views| && b !in retired
    }

    /** The bytes belong to no span that is still in use, and to no page of another buffer. */
    ghost predicate Free(b: nat, span: Span) {
      && span.start + span.len <= LARGE_PAGE_SIZE
      && (forall i, x :: 0 <= i < |views| && x in views[i].live ==>
          !Overlap(x, span) && (i != b ==> x.page != span.page))
    }
  }

  function Start(numBuffers: nat): Heap {
    Heap(seq(numBuffers, _ => NO_VIEW), {})
  }

  /** Commands on unknown or retired buffers, and merges of a buffer with itself, are not given. */
  predicate Given(h: Heap, c: Command) {
    h.Usable(c.b) && (c.MergeInto? ==> h.Usable(c.from) && c.from != c.b)
  }

  ghost predicate Answers(h: Heap, c: Command, a: Answer) {
    if !Given(h, c) then a == NotGiven
    else if !c.Allocate? then a == Done
    else if c.size > LARGE_PAGE_SIZE then a == TooLarge
    else if h.views[c.b].Fits(c.size) || c.pinned then a.Got? && a.span.len == c.size && h.Free(c.b, a.span)
    else a == NoFrame
  }

  function Next(h: Heap, c: Command, a: Answer): Heap {
    if !Given(h, c) then h
    else
      var v := h.views[c.b];
      match c
      case Allocate(b, _, _) => if a.Got? then h.(views := h.views[b := v.Taking(a.span)]) else h
      case Reset(b) => h.(views := h.views[b := v.Emptied()])
      case MergeInto(b, from) =>
        Heap(h.views[b := v.Joined(h.views[from])][from := NO_VIEW], h.retired + {from})
      case Release(b) => Heap(h.views[b := NO_VIEW], h.retired + {b})
  }

  /** The buffers after the first k commands and their answers. */
  function After(numBuffers: nat, commands: seq<Command>, answers: seq<Answer>, k: nat): Heap
    requires k <= |commands| && k <= |answers|
  {
    if k == 0 then Start(numBuffers)
    else Next(After(numBuffers, commands, answers, k - 1), commands[k - 1], answers[k - 1])
  }

  ghost predicate Registered(buffers: seq<OverflowBuffer>, mm: MemoryManager) {
    && (forall i :: 0 <= i < |buffers| ==> buffers[i].id == i && buffers[i].memoryManager == mm)
    && (forall i, j :: 0 <= i < j < |buffers| ==> buffers[i] != buffers[j])
  }

  ghost predicate Matches(f: Fields, owner: map<nat, nat>, id: nat, v: View) {
    BufferOk(f, owner, id) && v == ViewOf(f)
  }

  /** The buffers in use are as the heap says, the others hold nothing, and every block handed out is in one of them. */
  ghost predicate AllMatch(fs: seq<Fields>, owner: map<nat, nat>, h: Heap) {
    && |h.views| == |fs|
    && (forall i :: 0 <= i < |fs| && i in h.retired ==> h.views[i] == NO_VIEW)
    && (forall i :: 0 <= i < |fs| && i !in h.retired ==> Matches(fs[i], owner, i, h.views[i]))
    && (forall p :: p in owner ==> h.Usable(owner[p]))
  }

  ghost predicate AllOk(buffers: seq<OverflowBuffer>, mm: MemoryManager, fs: seq<Fields>, h: Heap)
    reads mm, set i | 0 <= i < |buffers| :: buffers[i]
  {
    && Registered(buffers, mm) && mm.Valid() && |fs| == |buffers|
    && (forall i :: 0 <= i < |buffers| ==> buffers[i].State() == fs[i])
    && AllMatch(fs, mm.owner, h)
  }

  /** Live spans are pairwise disjoint, and those of different buffers in different pages. */
  ghost predicate Separate(h: Heap) {
    && (forall i :: 0 <= i < |h.views| ==> PairwiseDisjoint(h.views[i].live))
    && (forall i, j, x, y ::
          0 <= i < |h.views| && 0 <= j < |h.views| && i != j && x in h.views[i].live && y in h.views[j].live ==>
            x.page != y.page)
  }

  lemma MatchIsSeparate(fs: seq<Fields>, owner: map<nat, nat>, h: Heap)
    requires AllMatch(fs, owner, h)
    ensures Separate(h)
  {
    forall i, j, x, y | 0 <= i < |h.views| && 0 <= j < |h.views| && i != j && x in h.views[i].live
      && y in h.views[j].live
      ensures x.page != y.page
    {
      assert i !in h.retired && j !in h.retired;
      assert Matches(fs[i], owner, i, h.views[i]) && Matches(fs[j], owner, j, h.views[j]);
      SpanInside(fs[i].live, fs[i].blocks, x);
      SpanInside(fs[j].live, fs[j].blocks, y);
      BuffersApart(x, y, fs[i].blocks, fs[j].blocks, owner, i, j);
    }
    forall i | 0 <= i < |h.views| ensures PairwiseDisjoint(h.views[i].live) {
      assert i !in h.retired ==> Matches(fs[i], owner, i, h.views[i]);
    }
  }

  lemma SpanInside(live: seq<Span>, blocks: seq<Block>, x: Span)
    requires AllInside(live, blocks) && x in live
    ensures Inside(x, blocks)
  {
  }

  /** A span added to live ones that then are separate was free. */
  lemma WasFree(h: Heap, b: nat, span: Span)
    requires b < |h.views| && Separate(h.(views := h.views[b := h.views[b].Taking(span)]))
             && span.start + span.len <= LARGE_PAGE_SIZE
    ensures h.Free(b, span)
  {
    var h' := h.(views := h.views[b := h.views[b].Taking(span)]);
    var live := h.views[b].live;
    assert h'.views[b].live == live + [span] && span in h'.views[b].live;
    forall i, x | 0 <= i < |h.views| && x in h.views[i].live
      ensures !Overlap(x, span) && (i != b ==> x.page != span.page) {
      if i == b {
        var k :| 0 <= k < |live| && live[k] == x;
        assert !Overlap((live + [span])[k], (live + [span])[|live|]);
      } else {
        assert x in h'.views[i].live;
      }
    }
  }

  /** The owner of a page changed only to or from one of the buffers `changed`. */
  ghost predicate OwnersKept(before: map<nat, nat>, after: map<nat, nat>, changed: set<nat>) {
    forall p :: (p in before && before[p] !in changed) || (p in after && after[p] !in changed) ==>
                  p in before && p in after && before[p] == after[p]
  }

  lemma MatchesKept(f: Fields, before: map<nat, nat>, after: map<nat, nat>, changed: set<nat>, i: nat, v: View)
    requires Matches(f, before, i, v) && OwnersKept(before, after, changed) && i !in changed
    ensures Matches(f, after, i, v)
  {
  }

  /** An operation on some of the buffers: the others go on as they were. */
  lemma OthersMatch(fs: seq<Fields>, owner: map<nat, nat>, h: Heap, fs': seq<Fields>, owner': map<nat, nat>, h': Heap,
                    changed: set<nat>)
    requires AllMatch(fs, owner, h) && OwnersKept(owner, owner', changed)
    requires |fs'| == |fs| == |h'.views|
    requires forall i :: 0 <= i < |fs| && i !in changed ==> fs'[i] == fs[i] && h'.views[i] == h.views[i]
    requires forall i :: 0 <= i < |fs| && i !in changed ==> (i in h'.retired <==> i in h.retired)
    requires forall i :: 0 <= i < |fs| && i in changed ==>
               if i in h'.retired then h'.views[i] == NO_VIEW else Matches(fs'[i], owner', i, h'.views[i])
    requires forall p :: p in owner' && owner'[p] in changed ==> h'.Usable(owner'[p])
    ensures AllMatch(fs', owner', h')
  {
    forall i | 0 <= i < |fs'| && i !in h'.retired ensures Matches(fs'[i], owner', i, h'.views[i]) {
      if i !in changed {
        MatchesKept(fs[i], owner, owner', changed, i, h.views[i]);
      }
    }
  }

  lemma OneOwner(before: map<nat, nat>, after: map<nat, nat>, b: nat)
    requires OthersKept(before, after, b)
    ensures OwnersKept(before, after, {b})
  {
  }

  lemma OneChanged(fs: seq<Fields>, owner: map<nat, nat>, h: Heap, b: nat, f: Fields, owner': map<nat, nat>, v: View)
    requires AllMatch(fs, owner, h) && h.Usable(b) && OthersKept(owner, owner', b) && Matches(f, owner', b, v)
    ensures AllMatch(fs[b := f], owner', h.(views := h.views[b := v]))
  {
    OneOwner(owner, owner', b);
    OthersMatch(fs, owner, h, fs[b := f], owner', h.(views := h.views[b := v]), {b});
  }

  method StepAllocate(buffers: seq<OverflowBuffer>, mm: MemoryManager, c: Command, ghost h: Heap, ghost fs: seq<Fields>)
    returns (a: Answer, ghost fs': seq<Fields>)
    requires AllOk(buffers, mm, fs, h) && c.Allocate? && Given(h, c)
    modifies mm, set i | 0 <= i < |buffers| :: buffers[i]
    ensures Answers(h, c, a) && AllOk(buffers, mm, fs', Next(h, c, a))
  {
    ghost var b, owner := c.b, mm.owner;
    assert Matches(fs[b], owner, b, h.views[b]) && buffers[b].State() == fs[b];
    var r := buffers[c.b].AllocateSpace(c.size, c.pinned);
    a := if r.Some? then Got(r.value) else if c.size > LARGE_PAGE_SIZE then TooLarge else NoFrame;
    ghost var f, v := buffers[b].State(), buffers[b].Shown();
    OneChanged(fs, owner, h, b, f, mm.owner, v);
    fs' := fs[b := f];
    NextAllocated(h, c, a, v);
    AllocatedWasFree(fs', mm.owner, h, c, a);
  }

  lemma NextAllocated(h: Heap, c: Command, a: Answer, v: View)
    requires c.Allocate? && Given(h, c) && v == if a.Got? then h.views[c.b].Taking(a.span) else h.views[c.b]
    ensures Next(h, c, a) == h.(views := h.views[c.b := v])
  {
    assert !a.Got? ==> h.views[c.b := v] == h.views;
  }

  lemma AllocatedWasFree(fs: seq<Fields>, owner: map<nat, nat>, h: Heap, c: Command, a: Answer)
    requires AllMatch(fs, owner, Next(h, c, a)) && c.Allocate? && Given(h, c)
    requires a.Got? ==> a.span.start + a.span.len <= LARGE_PAGE_SIZE
    ensures a.Got? ==> h.Free(c.b, a.span)
  {
    if a.Got? {
      MatchIsSeparate(fs, owner, Next(h, c, a));
      WasFree(h, c.b, a.span);
    }
  }

  method StepReset(buffers: seq<OverflowBuffer>, mm: MemoryManager, b: nat, ghost h: Heap, ghost fs: seq<Fields>)
    returns (ghost fs': seq<Fields>)
    requires AllOk(buffers, mm, fs, h) && h.Usable(b)
    modifies mm, set i | 0 <= i < |buffers| :: buffers[i]
    ensures AllOk(buffers, mm, fs', Next(h, Reset(b), Done))
  {
    ghost var owner := mm.owner;
    assert Matches(fs[b], owner, b, h.views[b]) && buffers[b].State() == fs[b];
    buffers[b].ResetBuffer();
    ghost var f, v := buffers[b].State(), buffers[b].Shown();
    OneChanged(fs, owner, h, b, f, mm.owner, v);
    fs' := fs[b := f];
  }

  lemma ReassignedKept(owner: map<nat, nat>, i: nat, j: nat)
    ensures OwnersKept(owner, Reassigned(owner, i, j), {i, j})
    ensures i != j ==> forall p :: p in Reassigned(owner, i, j) ==> Reassigned(owner, i, j)[p] != j
  {
  }

  method StepMerge(buffers: seq<OverflowBuffer>, mm: MemoryManager, b: nat, from: nat, ghost h: Heap,
                   ghost fs: seq<Fields>)
    returns (ghost fs': seq<Fields>)
    requires AllOk(buffers, mm, fs, h) && h.Usable(b) && h.Usable(from) && b != from
    modifies mm, set i | 0 <= i < |buffers| :: buffers[i]
    ensures AllOk(buffers, mm, fs', Next(h, MergeInto(b, from), Done))
  {
    ghost var owner, next := mm.owner, Next(h, MergeInto(b, from), Done);
    assert Matches(fs[b], owner, b, h.views[b]) && buffers[b].State() == fs[b];
    assert Matches(fs[from], owner, from, h.views[from]) && buffers[from].State() == fs[from];
    buffers[b].Merge(buffers[from]);
    fs' := fs[b := buffers[b].State()][from := buffers[from].State()];
    ReassignedKept(owner, b, from);
    assert next.views[b] == h.views[b].Joined(h.views[from]) && next.views[from] == NO_VIEW;
    assert Matches(fs'[b], mm.owner, b, next.views[b]);
    OthersMatch(fs, owner, h, fs', mm.owner, next, {b, from});
  }

  lemma OneReleased(fs: seq<Fields>, owner: map<nat, nat>, h: Heap, b: nat, f: Fields, owner': map<nat, nat>)
    requires AllMatch(fs, owner, h) && h.Usable(b) && OthersKept(owner, owner', b)
    requires forall p :: p in owner' ==> owner'[p] != b
    ensures AllMatch(fs[b := f], owner', Next(h, Release(b), Done))
  {
    OneOwner(owner, owner', b);
    OthersMatch(fs, owner, h, fs[b := f], owner', Next(h, Release(b), Done), {b});
  }

  method StepRelease(buffers: seq<OverflowBuffer>, mm: MemoryManager, b: nat, ghost h: Heap, ghost fs: seq<Fields>)
    returns (ghost fs': seq<Fields>)
    requires AllOk(buffers, mm, fs, h) && h.Usable(b)
    modifies mm, set i | 0 <= i < |buffers| :: buffers[i]
    ensures AllOk(buffers, mm, fs', Next(h, Release(b), Done))
  {
    ghost var owner := mm.owner;
    assert Matches(fs[b], owner, b, h.views[b]) && buffers[b].State() == fs[b];
    NoBlockLeft(fs[b].blocks, owner, b);
    buffers[b].Destroy();
    OneReleased(fs, owner, h, b, buffers[b].State(), mm.owner);
    fs' := fs[b := buffers[b].State()];
  }

  /** One command. */
  method Step(buffers: seq<OverflowBuffer>, mm: MemoryManager, c: Command, retired: set<nat>, ghost h: Heap,
              ghost fs: seq<Fields>)
    returns (a: Answer, retired': set<nat>, ghost fs': seq<Fields>)
    requires AllOk(buffers, mm, fs, h) && retired == h.retired
    modifies mm, set i | 0 <= i < |buffers| :: buffers[i]
    ensures Answers(h, c, a) && AllOk(buffers, mm, fs', Next(h, c, a)) && retired' == Next(h, c, a).retired
  {
    a, retired', fs' := NotGiven, retired, fs;
    if c.b >= |buffers| || c.b in retired
       || (c.MergeInto? && (c.from >= |buffers| || c.from in retired || c.from == c.b)) {
      return;
    }
    a := Done;
    match c {
      case Allocate(_, _, _) => a, fs' := StepAllocate(buffers, mm, c, h, fs);
      case Reset(b) => fs' := StepReset(buffers, mm, b, h, fs);
      case MergeInto(b, from) =>
        fs' := StepMerge(buffers, mm, b, from, h, fs);
        retired' := retired + {from};
      case Release(b) =>
        fs' := StepRelease(buffers, mm, b, h, fs);
        retired' := retired + {b};
    }
  }

  lemma OneMoreBuffer(fs: seq<Fields>, n: nat)
    requires AllMatch(fs, map[], Start(n))
    ensures AllMatch(fs + [Fields([], None, [])], map[], Start(n + 1))
  {
    var more := fs + [Fields([], None, [])];
    forall i | 0 <= i < |more| ensures Matches(more[i], map[], i, NO_VIEW) {
      assert i < n ==> Matches(fs[i], map[], i, Start(n).views[i]);
    }
  }

  method CreateBuffers(numBuffers: nat) returns (mm: MemoryManager, buffers: seq<OverflowBuffer>, ghost fs: seq<Fields>)
    ensures |buffers| == numBuffers && AllOk(buffers, mm, fs, Start(numBuffers))
    ensures fresh(mm) && fresh(set k | 0 <= k < |buffers| :: buffers[k])
  {
    mm := new MemoryManager();
    buffers, fs := [], [];
    for i := 0 to numBuffers
      invariant |buffers| == |fs| == i && Registered(buffers, mm) && mm.Valid() && mm.owner == map[]
      invariant AllMatch(fs, map[], Start(i)) && forall k :: 0 <= k < i ==> buffers[k].State() == fs[k]
      invariant fresh(mm) && fresh(set k | 0 <= k < |buffers| :: buffers[k])
    {
      var buffer := new OverflowBuffer(i, mm);
      assert buffer.State() == Fields([], None, []);
      OneMoreBuffer(fs, i);
      buffers, fs := buffers + [buffer], fs + [Fields([], None, [])];
    }
  }

  /** Each answer is that of the heap after the answers before. */
  ghost predicate Answered(numBuffers: nat, commands: seq<Command>, answers: seq<Answer>) {
    && |answers| <= |commands|
    && forall k :: 0 <= k < |answers| ==> Answers(After(numBuffers, commands, answers, k), commands[k], answers[k])
  }

  lemma {:induction false} AfterPrefix(numBuffers: nat, commands: seq<Command>, a: seq<Answer>, b: seq<Answer>, k: nat)
    requires k <= |commands| && k <= |a| && a <= b
    ensures After(numBuffers, commands, a, k) == After(numBuffers, commands, b, k)
  {
    if k > 0 {
      AfterPrefix(numBuffers, commands, a, b, k - 1);
    }
  }

  lemma AnsweredNext(numBuffers: nat, commands: seq<Command>, answers: seq<Answer>, a: Answer)
    requires Answered(numBuffers, commands, answers) && |answers| < |commands|
    requires Answers(After(numBuffers, commands, answers, |answers|), commands[|answers|], a)
    ensures Answered(numBuffers, commands, answers + [a])
    ensures After(numBuffers, commands, answers + [a], |answers| + 1)
            == Next(After(numBuffers, commands, answers, |answers|), commands[|answers|], a)
  {
    var n, all := |answers|, answers + [a];
    AfterPrefix(numBuffers, commands, answers, all, n);
    forall k | 0 <= k < |all| ensures Answers(After(numBuffers, commands, all, k), commands[k], all[k]) {
      AfterPrefix(numBuffers, commands, answers, all, k);
    }
  }

  /** Whole runs: each answer is that of the heap after the answers before, so a span handed out was free; and in the
      end the live spans of each buffer are those of the heap, and every block handed out is in a buffer in use. */
  method Run(numBuffers: nat, commands: seq<Command>)
    returns (answers: seq<Answer>, mm: MemoryManager, buffers: seq<OverflowBuffer>, ghost fs: seq<Fields>)
    ensures |answers| == |commands| && Answered(numBuffers, commands, answers)
    ensures |buffers| == numBuffers && AllOk(buffers, mm, fs, After(numBuffers, commands, answers, |commands|))
  {
    mm, buffers, fs := CreateBuffers(numBuffers);
    var retired: set<nat> := {};
    ghost var h := Start(numBuffers);
    answers := [];
    for i := 0 to |commands|
      invariant |answers| == i && h == After(numBuffers, commands, answers, i)
      invariant AllOk(buffers, mm, fs, h) && |buffers| == numBuffers && retired == h.retired
      invariant Answered(numBuffers, commands, answers)
      invariant fresh(mm) && fresh(set k | 0 <= k < |buffers| :: buffers[k])
    {
      var a;
      a, retired, fs := Step(buffers, mm, commands[i], retired, h, fs);
      AnsweredNext(numBuffers, commands, answers, a);
      answers := answers + [a];
      h := Next(h, commands[i], a);
    }
  }
}

/** Reading a CSV file in blocks (src/common/csv_reader/csv_reader.cpp:10-26 and 49-80). */
module CsvBlocks {

  const COMMENT_LINE_CHAR := '#'

  predicate NewlineTerminated(file: string) {
    file == [] || file[|file| - 1] == '\n'
  }

  /** Where the search of the block constructor for the end of a line ends; elsewhere it reads end-of-file for ever. */
  ghost predicate FindsLine(file: string, start: nat) {
    start == 0 || exists k :: start - 1 <= k < |file| && file[k] == '\n'
  }

  /** In a file that ends in a newline every block within the file finds its first line. */
  lemma TerminatedFindsLine(file: string, start: nat)
    requires NewlineTerminated(file) && start <= |file|
    ensures FindsLine(file, start)
  {
    assert file != [] ==> file[|file| - 1] == '\n';
  }

  /** A line starts here. */
  predicate IsStart(file: string, i: nat) {
    i < |file| && (i == 0 || file[i - 1] == '\n')
  }

  /** Just after the first newline at or after i. */
  function After(file: string, i: nat): (r: nat)
    requires i < |file|
    ensures i < r <= |file|
    ensures forall k :: i <= k < r - 1 ==> file[k] != '\n'
    ensures r == |file| || IsStart(file, r)
    decreases |file| - i
  {
    if file[i] == '\n' || i + 1 == |file| then i + 1 else After(file, i + 1)
  }

  /** hasNextLine passes over lines of fewer than two bytes and comments, and gives up at a last line without a newline:
      reading it reaches the end of the file. */
  predicate Skipped(file: string, i: nat)
    requires i < |file|
  {
    After(file, i) - i < 2 || file[i] == COMMENT_LINE_CHAR || file[After(file, i) - 1] != '\n'
  }

  /** The first line at or after i that is not skipped, or the end of the file. */
  function NextGood(file: string, i: nat): (r: nat)
    requires i <= |file|
    ensures i <= r <= |file| && (r < |file| ==> !Skipped(file, r))
    decreases |file| - i
  {
    if i == |file| || !Skipped(file, i) then i else NextGood(file, After(file, i))
  }

  /** What the reader of a block finds, as the offsets of the lines: it stops at the block's limit, but only looks at it
      before a line it returns. */
  function Reads(file: string, i: nat, limit: nat): seq<nat>
    requires i <= |file|
    decreases |file| - i
  {
    if i >= limit then []
    else
      var g := NextGood(file, i);
      if g == |file| then [] else [g] + Reads(file, After(file, g), limit)
  }

  /** The lines to be read that start from i on and before the limit. */
  function Lines(file: string, i: nat, limit: nat): seq<nat>
    requires i <= |file|
    decreases |file| - i
  {
    if i >= limit || i == |file| then []
    else (if Skipped(file, i) then [] else [i]) + Lines(file, After(file, i), limit)
  }

  /** The first line start at or after an offset, or the end of the file. */
  function FirstStart(file: string, offset: nat): (r: nat)
    ensures offset >= |file| ==> r == |file|
    ensures offset < |file| ==> offset <= r <= |file| && (r == |file| || IsStart(file, r))
  {
    if offset >= |file| then |file| else if IsStart(file, offset) then offset else After(file, offset)
  }

  // ---------------------------------------------------------------------------------------------
  // The reader
  // ---------------------------------------------------------------------------------------------

  /** The end of the block constructor: to the first line that starts in the block. */
  method SeekLine(file: string, start: nat) returns (pos: nat)
    requires FindsLine(file, start)
    ensures pos == FirstStart(file, start)
  {
    pos := start;
    var isBeginningOfLine := start == 0;
    if start > 0 && file[start - 1] == '\n' {
      isBeginningOfLine := true;
    }
    if !isBeginningOfLine {
      ghost var end :| start - 1 <= end < |file| && file[end] == '\n';
      while file[pos] != '\n'
        invariant start <= pos <= end && After(file, start) == After(file, pos)
        decreases |file| - pos
      {
        pos := pos + 1;
      }
      pos := pos + 1;
    }
  }

  class CSVReader {
    const file: string
    var cursor: nat
    var isEndOfBlock: bool
    var line: string
    const readingBlockStartOffset: nat
    const readingBlockEndOffset: nat

    ghost predicate Valid()
      reads this
    {
      cursor <= |file| && (cursor < |file| ==> IsStart(file, cursor))
    }

    constructor (file: string, blockSize: nat, blockId: nat)
      requires FindsLine(file, blockSize * blockId)
      ensures Valid() && this.file == file && readingBlockEndOffset == blockSize * (blockId + 1)
      ensures cursor == FirstStart(file, blockSize * blockId) && !isEndOfBlock
    {
      this.file := file;
      readingBlockStartOffset := blockSize * blockId;
      readingBlockEndOffset := blockSize * (blockId + 1);
      isEndOfBlock, line := false, "";
      var pos := SeekLine(file, blockSize * blockId);
      cursor := pos;
    }

    /** getline: false at the end of the file. */
    method GetLine() returns (ok: bool)
      requires Valid()
      modifies this`cursor, this`line
      ensures Valid() && ok == (old(cursor) < |file|)
      ensures ok ==> cursor == After(file, old(cursor)) && line == file[old(cursor)..cursor]
      ensures !ok ==> cursor == old(cursor) && line == old(line)
    {
      if cursor == |file| {
        return false;
      }
      var pos := cursor;
      while pos < |file| && file[pos] != '\n'
        invariant cursor <= pos <= |file|
        invariant pos < |file| ==> After(file, cursor) == After(file, pos)
        invariant pos == |file| ==> After(file, cursor) == |file|
      {
        pos := pos + 1;
      }
      if pos < |file| {
        pos := pos + 1;
      }
      line := file[cursor..pos];
      cursor := pos;
      return true;
    }

    /** nextLineIsNotProcessed is never set, so every call reads on. */
    method HasNextLine() returns (r: bool)
      requires Valid()
      modifies this`cursor, this`line, this`isEndOfBlock
      ensures Valid()
      ensures r <==> !old(isEndOfBlock) && old(cursor) < readingBlockEndOffset && NextGood(file, old(cursor)) < |file|
      ensures r ==> var g := NextGood(file, old(cursor));
                    !isEndOfBlock && cursor == After(file, g) && line == file[g..cursor]
      ensures !r ==> isEndOfBlock
    {
      if isEndOfBlock {
        return false;
      }
      if cursor >= readingBlockEndOffset {
        isEndOfBlock := true;
        return false;
      }
      ghost var at := cursor;
      var ok := GetLine();
      while ok && (|line| < 2 || line[0] == COMMENT_LINE_CHAR)
        invariant Valid() && !isEndOfBlock && at <= |file| && NextGood(file, old(cursor)) == NextGood(file, at)
        invariant ok ==> at < |file| && cursor == After(file, at) && line == file[at..cursor]
        invariant !ok ==> at == |file|
        decreases |file| - at, ok
      {
        at := cursor;
        ok := GetLine();
      }
      if !ok || line[|line| - 1] != '\n' {
        assert ok ==> Skipped(file, at) && After(file, at) == |file|;
        isEndOfBlock := true;
        return false;
      }
      return true;
    }
  }

  /** A reader called until it ends. */
  method ReadAll(reader: CSVReader) returns (lines: seq<string>, ghost offsets: seq<nat>)
    requires reader.Valid() && !reader.isEndOfBlock
    modifies reader
    ensures offsets == Reads(reader.file, old(reader.cursor), reader.readingBlockEndOffset)
    ensures LinesAt(reader.file, lines, offsets)
  {
    lines, offsets := [], [];
    ghost var all := Reads(reader.file, reader.cursor, reader.readingBlockEndOffset);
    var more := true;
    while more
      invariant reader.Valid() && (more ==> !reader.isEndOfBlock) && LinesAt(reader.file, lines, offsets)
      invariant if more then offsets + Reads(reader.file, reader.cursor, reader.readingBlockEndOffset) == all
                else offsets == all
      decreases more, |reader.file| - reader.cursor
    {
      ghost var at := reader.cursor;
      more := reader.HasNextLine();
      ReadsStep(reader.file, at, reader.readingBlockEndOffset, offsets);
      if more {
        ghost var g := NextGood(reader.file, at);
        LinesAtNext(reader.file, lines, offsets, g);
        lines, offsets := lines + [reader.line], offsets + [g];
      }
    }
  }

  lemma ReadsStep(file: string, i: nat, limit: nat, before: seq<nat>)
    requires i <= |file|
    ensures var g := NextGood(file, i);
            if i < limit && g < |file|
            then before + Reads(file, i, limit) == before + [g] + Reads(file, After(file, g), limit)
            else before + Reads(file, i, limit) == before
  {
  }

  lemma LinesAtNext(file: string, lines: seq<string>, offsets: seq<nat>, g: nat)
    requires LinesAt(file, lines, offsets) && g < |file|
    ensures LinesAt(file, lines + [file[g..After(file, g)]], offsets + [g])
  {
  }

  /** The texts of the lines at the given offsets. */
  ghost predicate LinesAt(file: string, lines: seq<string>, offsets: seq<nat>) {
    && |lines| == |offsets|
    && forall k :: 0 <= k < |lines| ==> offsets[k] < |file| && lines[k] == file[offsets[k]..After(file, offsets[k])]
  }

  /** The lines a block reads, as the text of the file at their offsets. */
  method ReadBlock(file: string, blockSize: nat, blockId: nat) returns (lines: seq<string>)
    requires FindsLine(file, blockSize * blockId)
    ensures LinesAt(file, lines, ReadsOf(file, blockSize, blockId))
  {
    BlockStartIs(blockSize, blockId);
    BlockStartIs(blockSize, blockId + 1);
    var reader := new CSVReader(file, blockSize, blockId);
    ghost var offsets;
    lines, offsets := ReadAll(reader);
  }

  // ---------------------------------------------------------------------------------------------
  // What one block reads
  // ---------------------------------------------------------------------------------------------

  predicate AtStart(file: string, i: nat) {
    i == |file| || IsStart(file, i)
  }

  lemma AfterLeast(file: string, i: nat, p: nat)
    requires i < p <= |file| && AtStart(file, p)
    ensures After(file, i) <= p
  {
  }

  lemma FirstStartLeast(file: string, offset: nat, p: nat)
    requires AtStart(file, p) && offset <= p <= |file|
    ensures FirstStart(file, offset) <= p
  {
    if offset < |file| && !IsStart(file, offset) {
      AfterLeast(file, offset, p);
    }
  }

  /** Lines are exactly the starts from i on and before the limit that are not skipped. */
  lemma {:induction false} LinesExact(file: string, i: nat, limit: nat, p: nat)
    requires AtStart(file, i)
    ensures p in Lines(file, i, limit) <==> i <= p < limit && IsStart(file, p) && !Skipped(file, p)
    decreases |file| - i
  {
    if i < limit && i < |file| {
      LinesExact(file, After(file, i), limit, p);
      if i < p && IsStart(file, p) {
        AfterLeast(file, i, p);
      }
    }
  }

  /** The line a block reads although it belongs to a later one: the last line that starts in the block is skipped, and
      hasNextLine goes on to the next one. */
  function Overrun(file: string, i: nat, limit: nat): seq<nat>
    requires i <= |file|
    decreases |file| - i
  {
    if i >= limit || i == |file| then []
    else if Skipped(file, i) && After(file, i) >= limit then
      var g := NextGood(file, After(file, i));
      if g == |file| then [] else [g]
    else Overrun(file, After(file, i), limit)
  }

  lemma {:induction false} BlockReads(file: string, i: nat, limit: nat)
    requires i <= |file|
    ensures Reads(file, i, limit) == Lines(file, i, limit) + Overrun(file, i, limit)
    decreases |file| - i
  {
    if i < limit && i < |file| {
      var next := After(file, i);
      BlockReads(file, next, limit);
      if Skipped(file, i) {
        assert NextGood(file, i) == NextGood(file, next);
        if next >= limit {
          assert Lines(file, i, limit) == [];
        }
      }
    }
  }

  lemma {:induction false} LinesSplit(file: string, i: nat, mid: nat, limit: nat)
    requires AtStart(file, i) && i <= FirstStart(file, mid) && mid <= limit
    ensures Lines(file, i, limit) == Lines(file, i, mid) + Lines(file, FirstStart(file, mid), limit)
    decreases |file| - i
  {
    if i < mid && i < |file| {
      var s, next := FirstStart(file, mid), After(file, i);
      AfterLeast(file, i, s);
      LinesSplit(file, next, mid, limit);
      var first := if Skipped(file, i) then [] else [i];
      assert Lines(file, i, limit) == first + Lines(file, next, limit);
      assert Lines(file, i, mid) == first + Lines(file, next, mid);
    } else {
      if i < |file| {
        FirstStartLeast(file, mid, i);
      }
      assert Lines(file, i, mid) == [];
    }
  }

  lemma {:induction false} LinesPastEnd(file: string, i: nat, limit: nat, limit': nat)
    requires i <= |file| <= limit && |file| <= limit'
    ensures Lines(file, i, limit) == Lines(file, i, limit')
    decreases |file| - i
  {
    if i < |file| {
      LinesPastEnd(file, After(file, i), limit, limit');
    }
  }

  // ---------------------------------------------------------------------------------------------
  // All blocks together
  // ---------------------------------------------------------------------------------------------

  function BlockStart(blockSize: nat, b: nat): nat {
    if b == 0 then 0 else BlockStart(blockSize, b - 1) + blockSize
  }

  /** CSV_READING_BLOCK_SIZE * blockId */
  lemma {:induction false} BlockStartIs(blockSize: nat, b: nat)
    ensures BlockStart(blockSize, b) == blockSize * b
  {
    if b > 0 {
      BlockStartIs(blockSize, b - 1);
      assert blockSize * b == blockSize * (b - 1) + blockSize;
    }
  }

  function ReadsOf(file: string, blockSize: nat, b: nat): seq<nat> {
    Reads(file, FirstStart(file, BlockStart(blockSize, b)), BlockStart(blockSize, b + 1))
  }

  function OverrunOf(file: string, blockSize: nat, b: nat): seq<nat> {
    Overrun(file, FirstStart(file, BlockStart(blockSize, b)), BlockStart(blockSize, b + 1))
  }

  /** The first n blocks, one after the other. */
  function AllReads(file: string, blockSize: nat, n: nat): seq<nat> {
    Flat(BlocksUpTo(file, blockSize, n))
  }

  function Flat(blocks: seq<seq<nat>>): seq<nat> {
    if blocks == [] then [] else Flat(blocks[..|blocks| - 1]) + blocks[|blocks| - 1]
  }

  function NumBlocks(file: string, blockSize: nat): nat
    requires blockSize > 0
  {
    1 + |file| / blockSize
  }

  ghost predicate NoOverrun(file: string, blockSize: nat, n: nat) {
    forall b :: 0 <= b < n ==> OverrunOf(file, blockSize, b) == []
  }

  lemma BlockStarts(blockSize: nat, b: nat)
    ensures BlockStart(blockSize, b) <= BlockStart(blockSize, b + 1) && BlockStart(blockSize, 0) == 0
  {
  }

  /** One more block adds its lines and its overrun. */
  lemma NextBlock(file: string, blockSize: nat, b: nat)
    ensures Lines(file, 0, BlockStart(blockSize, b + 1)) + OverrunOf(file, blockSize, b)
            == Lines(file, 0, BlockStart(blockSize, b)) + ReadsOf(file, blockSize, b)
  {
    BlockStarts(blockSize, b);
    var start, limit := BlockStart(blockSize, b), BlockStart(blockSize, b + 1);
    BlockReads(file, FirstStart(file, start), limit);
    LinesSplit(file, 0, start, limit);
  }

  ghost predicate Step(lines: seq<seq<nat>>, blocks: seq<seq<nat>>, extras: seq<seq<nat>>, b: nat)
    requires |lines| == |blocks| + 1 == |extras| + 1 && b < |blocks|
  {
    lines[b + 1] + extras[b] == lines[b] + blocks[b]
  }

  /** If each block's reads are its share of the lines and an extra, so are all blocks' together. */
  lemma {:induction false} Telescopes(lines: seq<seq<nat>>, blocks: seq<seq<nat>>, extras: seq<seq<nat>>, n: nat)
    requires |lines| == |blocks| + 1 == |extras| + 1 && n <= |blocks| && lines[0] == []
    requires forall b :: 0 <= b < |blocks| ==> Step(lines, blocks, extras, b)
    ensures |Flat(blocks[..n])| == |lines[n]| + |Flat(extras[..n])|
    ensures Flat(extras[..n]) == [] ==> Flat(blocks[..n]) == lines[n]
  {
    if n > 0 {
      Telescopes(lines, blocks, extras, n - 1);
      assert blocks[..n][..n - 1] == blocks[..n - 1] && extras[..n][..n - 1] == extras[..n - 1];
      assert Step(lines, blocks, extras, n - 1);
      assert |lines[n] + extras[n - 1]| == |lines[n - 1] + blocks[n - 1]|;
      assert extras[n - 1] == [] ==> lines[n] + extras[n - 1] == lines[n];
    }
  }

  lemma {:induction false} FlatEmpty(blocks: seq<seq<nat>>)
    ensures Flat(blocks) == [] <==> forall b :: 0 <= b < |blocks| ==> blocks[b] == []
  {
    if blocks != [] {
      FlatEmpty(blocks[..|blocks| - 1]);
    }
  }

  lemma LastBlock(file: string, blockSize: nat)
    requires blockSize > 0
    ensures BlockStart(blockSize, NumBlocks(file, blockSize)) > |file|
    ensures BlockStart(blockSize, NumBlocks(file, blockSize) - 1) <= |file|
  {
    var q := |file| / blockSize;
    BlockStartIs(blockSize, q);
    BlockStartIs(blockSize, 1 + q);
    assert |file| == blockSize * q + |file| % blockSize;
    assert blockSize * (1 + q) == blockSize * q + blockSize;
  }

  function AllOverruns(file: string, blockSize: nat, n: nat): seq<nat> {
    Flat(OverrunsUpTo(file, blockSize, n))
  }

  function LinesUpTo(file: string, blockSize: nat, n: nat): (r: seq<seq<nat>>)
    ensures |r| == n + 1 && forall b :: 0 <= b <= n ==> r[b] == Lines(file, 0, BlockStart(blockSize, b))
  {
    seq(n + 1, b requires b >= 0 => Lines(file, 0, BlockStart(blockSize, b)))
  }

  function BlocksUpTo(file: string, blockSize: nat, n: nat): (r: seq<seq<nat>>)
    ensures |r| == n && forall b :: 0 <= b < n ==> r[b] == ReadsOf(file, blockSize, b)
  {
    seq(n, b requires b >= 0 => ReadsOf(file, blockSize, b))
  }

  function OverrunsUpTo(file: string, blockSize: nat, n: nat): (r: seq<seq<nat>>)
    ensures |r| == n && forall b :: 0 <= b < n ==> r[b] == OverrunOf(file, blockSize, b)
  {
    seq(n, b requires b >= 0 => OverrunOf(file, blockSize, b))
  }

  lemma BlockStep(file: string, blockSize: nat, n: nat, b: nat)
    requires b < n
    ensures Step(LinesUpTo(file, blockSize, n), BlocksUpTo(file, blockSize, n), OverrunsUpTo(file, blockSize, n), b)
  {
    NextBlock(file, blockSize, b);
  }

  /** Every overrun is one line read once more. */
  lemma ReadsAndOverruns(file: string, blockSize: nat, n: nat)
    ensures var lines, all := Lines(file, 0, BlockStart(blockSize, n)), AllReads(file, blockSize, n);
            && |all| == |lines| + |AllOverruns(file, blockSize, n)|
            && (AllOverruns(file, blockSize, n) == [] ==> all == lines)
  {
    var lines, blocks := LinesUpTo(file, blockSize, n), BlocksUpTo(file, blockSize, n);
    var extras := OverrunsUpTo(file, blockSize, n);
    AllSteps(file, blockSize, n);
    TelescopesAll(lines, blocks, extras);
  }

  lemma AllSteps(file: string, blockSize: nat, n: nat)
    ensures var lines, blocks := LinesUpTo(file, blockSize, n), BlocksUpTo(file, blockSize, n);
            && lines[0] == []
            && forall b :: 0 <= b < n ==> Step(lines, blocks, OverrunsUpTo(file, blockSize, n), b)
  {
    BlockStarts(blockSize, 0);
    var lines, blocks := LinesUpTo(file, blockSize, n), BlocksUpTo(file, blockSize, n);
    forall b | 0 <= b < n ensures Step(lines, blocks, OverrunsUpTo(file, blockSize, n), b) {
      BlockStep(file, blockSize, n, b);
    }
  }

  lemma TelescopesAll(lines: seq<seq<nat>>, blocks: seq<seq<nat>>, extras: seq<seq<nat>>)
    requires |lines| == |blocks| + 1 == |extras| + 1 && lines[0] == []
    requires forall b :: 0 <= b < |blocks| ==> Step(lines, blocks, extras, b)
    ensures |Flat(blocks)| == |lines[|blocks|]| + |Flat(extras)|
    ensures Flat(extras) == [] ==> Flat(blocks) == lines[|blocks|]
  {
    var n := |blocks|;
    Telescopes(lines, blocks, extras, n);
    assert blocks[..n] == blocks && extras[..n] == extras;
  }

  lemma OverrunsEmpty(file: string, blockSize: nat, n: nat)
    ensures AllOverruns(file, blockSize, n) == [] <==> NoOverrun(file, blockSize, n)
  {
    FlatEmpty(OverrunsUpTo(file, blockSize, n));
  }

  /** The blocks in order give the file's lines exactly when no block ends in a skipped line that a line follows. */
  lemma BlockPartition(file: string, blockSize: nat)
    requires blockSize > 0
    ensures AllReads(file, blockSize, NumBlocks(file, blockSize)) == Lines(file, 0, |file|)
            <==> NoOverrun(file, blockSize, NumBlocks(file, blockSize))
  {
    var n := NumBlocks(file, blockSize);
    ReadsAndOverruns(file, blockSize, n);
    OverrunsEmpty(file, blockSize, n);
    LastBlock(file, blockSize);
    LinesPastEnd(file, 0, |file|, BlockStart(blockSize, n));
  }

  /** No comments and no lines under two bytes. */
  ghost predicate NothingSkipped(file: string) {
    forall i :: 0 <= i < |file| && IsStart(file, i) ==> !Skipped(file, i)
  }

  lemma {:induction false} NothingOverruns(file: string, i: nat, limit: nat)
    requires NothingSkipped(file) && AtStart(file, i)
    ensures Overrun(file, i, limit) == []
    decreases |file| - i
  {
    if i < limit && i < |file| {
      NothingOverruns(file, After(file, i), limit);
    }
  }

  /** Then every line is read by the block that holds its first byte and by no other, and the blocks in order give the
      lines of the file. */
  lemma EveryLineOnce(file: string, blockSize: nat, b: nat, p: nat)
    requires blockSize > 0 && NothingSkipped(file)
    ensures p in ReadsOf(file, blockSize, b) <==>
            IsStart(file, p) && BlockStart(blockSize, b) <= p < BlockStart(blockSize, b + 1)
    ensures AllReads(file, blockSize, NumBlocks(file, blockSize)) == Lines(file, 0, |file|)
  {
    var start, limit := BlockStart(blockSize, b), BlockStart(blockSize, b + 1);
    var i := FirstStart(file, start);
    BlockReads(file, i, limit);
    NothingOverruns(file, i, limit);
    LinesExact(file, i, limit, p);
    if IsStart(file, p) && start <= p {
      FirstStartLeast(file, start, p);
    }
    forall c | 0 <= c < NumBlocks(file, blockSize) ensures OverrunOf(file, blockSize, c) == [] {
      NothingOverruns(file, FirstStart(file, BlockStart(blockSize, c)), BlockStart(blockSize, c + 1));
    }
    BlockPartition(file, blockSize);
  }

  lemma {:induction false} ReadsAreLines(file: string, i: nat, limit: nat, p: nat)
    requires i <= |file| && p in Reads(file, i, limit)
    ensures p < |file| && !Skipped(file, p)
    decreases |file| - i
  {
    var g := NextGood(file, i);
    if p != g {
      ReadsAreLines(file, After(file, g), limit, p);
    }
  }

  lemma {:induction false} LastAfter(file: string, p: nat)
    requires p < |file| && forall k :: p <= k < |file| ==> file[k] != '\n'
    ensures After(file, p) == |file|
    decreases |file| - p
  {
    if p + 1 < |file| {
      LastAfter(file, p + 1);
    }
  }

  /** A last line without a newline is read by no block, whatever it holds. */
  lemma LastLineLost(file: string, blockSize: nat, b: nat, p: nat)
    requires p < |file| && forall k :: p <= k < |file| ==> file[k] != '\n'
    ensures p !in ReadsOf(file, blockSize, b)
  {
    LastAfter(file, p);
    assert Skipped(file, p);
    if p in ReadsOf(file, blockSize, b) {
      ReadsAreLines(file, FirstStart(file, BlockStart(blockSize, b)), BlockStart(blockSize, b + 1), p);
    }
  }

  /** A comment of two bytes and its newline, then a line of the same size. */
  predicate CommentThenLine(file: string) {
    && |file| == 6 && file[0] == COMMENT_LINE_CHAR && file[1] != '\n' && file[2] == '\n'
    && file[3] != COMMENT_LINE_CHAR && file[3] != '\n' && file[4] != '\n' && file[5] == '\n'
  }

  lemma CommentFile(file: string)
    requires CommentThenLine(file)
    ensures After(file, 0) == 3 && After(file, 3) == 6 && NextGood(file, 3) == 3 && NextGood(file, 0) == 3
  {
    assert After(file, 2) == 3 && After(file, 1) == 3;
    assert After(file, 5) == 6 && After(file, 4) == 6;
    assert Skipped(file, 0) && !Skipped(file, 3);
    assert NextGood(file, 0) == NextGood(file, After(file, 0));
  }

  lemma CommentBlocks(file: string)
    requires CommentThenLine(file)
    ensures ReadsOf(file, 3, 0) == [3] && ReadsOf(file, 3, 1) == [3] && ReadsOf(file, 3, 2) == []
  {
    CommentFile(file);
    BlockStartIs(3, 1);
    BlockStartIs(3, 2);
    assert FirstStart(file, 0) == 0 && FirstStart(file, 3) == 3 && FirstStart(file, 6) == 6;
    assert Reads(file, 6, 3) == [] && Reads(file, 6, 6) == [];
    assert Reads(file, 0, 3) == [3] + Reads(file, 6, 3);
    assert Reads(file, 3, 6) == [3] + Reads(file, 6, 6);
  }

  lemma FlatThree(x: seq<nat>, y: seq<nat>, z: seq<nat>)
    ensures Flat([x, y, z]) == x + y + z
  {
    assert [x][..0] == [] && [x, y][..1] == [x] && [x, y, z][..2] == [x, y];
    assert Flat([x]) == Flat([]) + x;
    assert Flat([x, y]) == Flat([x]) + y;
  }

  /** A comment at the end of the first block makes it read the second block's line, which is then read twice. */
  lemma CommentReadsTwice(file: string)
    requires CommentThenLine(file)
    ensures AllReads(file, 3, NumBlocks(file, 3)) == [3, 3] && Lines(file, 0, |file|) == [3]
  {
    CommentFile(file);
    CommentBlocks(file);
    assert BlocksUpTo(file, 3, 3) == [[3], [3], []];
    FlatThree([3], [3], []);
    assert Lines(file, 3, 6) == [3] + Lines(file, 6, 6);
  }
}

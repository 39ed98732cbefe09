/** Recovery replay of the write-ahead log (src/storage/wal_replayer.cpp:28-276, 373-392). */
module WalReplay {
  import opened Wrappers
  import opened WalFiles

  datatype Record =
    | PageUpdateOrInsert(path: Path, kind: Kind, idx: nat, walIdx: nat, isInsert: bool)
    | TableStatistics(isNodeTable: bool)
    | CatalogRecord
    | NodeTableRecord(table: nat)
    | RelTableRecord(table: nat)
    | OverflowFileNextBytePos
    | CopyNodeCsv(table: nat)
    | CopyRelCsv(table: nat)
    | DropTable(isNodeTable: bool, table: nat)
    | Commit

  type WalPages = map<nat, Page>

  function WalPage(pages: WalPages, i: nat): Page {
    if i in pages then pages[i] else Bytes(0)
  }

  // ---------------------------------------------------------------------------------------------
  // Which files a table owns, and in which order the replayer visits them
  // ---------------------------------------------------------------------------------------------

  /** What is done to the files of one column or of one list structure. */
  datatype Action = ReplaceFromWal | RemoveFiles

  function FileOp(a: Action, n: FileName): Op {
    if a.ReplaceFromWal? then RenameIfExists(n) else RemoveIfExists(n)
  }

  function ColumnOps(a: Action, p: Path): seq<Op> {
    [FileOp(a, Data(p, Base)), FileOp(a, Data(p, Overflow))]
  }

  function ListOps(a: Action, p: Path): seq<Op> {
    [FileOp(a, Data(p, Base)), FileOp(a, Data(p, Metadata)), FileOp(a, Data(p, Overflow)), FileOp(a, Data(p, Headers))]
  }

  function NodeFileOps(a: Action, t: nat, props: seq<Property>): seq<Op> {
    if props == [] then ListOps(a, NodeUnstrLists(t)) + ColumnOps(a, NodeIndex(t))
    else ColumnOps(a, NodeColumn(t, props[0].id)) + NodeFileOps(a, t, props[1..])
  }

  function RelPropertyOps(a: Action, r: nat, n: nat, fwd: bool, single: bool, props: seq<Property>): seq<Op> {
    if props == [] then []
    else (if single then ColumnOps(a, RelColumn(r, n, fwd, props[0].id))
          else ListOps(a, RelLists(r, n, fwd, props[0].id)))
         + RelPropertyOps(a, r, n, fwd, single, props[1..])
  }

  function RelDirectionOps(a: Action, r: nat, fwd: bool, single: bool, nodes: seq<nat>, props: seq<Property>): seq<Op> {
    if nodes == [] then []
    else (if single then ColumnOps(a, AdjColumn(r, nodes[0], fwd)) else ListOps(a, AdjLists(r, nodes[0], fwd)))
         + RelPropertyOps(a, r, nodes[0], fwd, single, props)
         + RelDirectionOps(a, r, fwd, single, nodes[1..], props)
  }

  function RelFileOps(a: Action, r: nat, s: RelSchema): seq<Op> {
    RelDirectionOps(a, r, true, s.singleFwd, s.srcTables, s.props)
    + RelDirectionOps(a, r, false, s.singleBwd, s.dstTables, s.props)
  }

  function CreateFile(p: Path, k: Kind, numNodes: nat): Op {
    Create(Data(p, k), Pages([Initial(p, k, numNodes)]))
  }

  function CreateColumn(p: Path, numNodes: nat, overflow: bool): seq<Op> {
    [CreateFile(p, Base, numNodes)] + if overflow then [CreateFile(p, Overflow, numNodes)] else []
  }

  function CreateLists(p: Path, numNodes: nat, headers: bool, overflow: bool): seq<Op> {
    (if headers then [CreateFile(p, Headers, numNodes)] else [])
    + [CreateFile(p, Metadata, numNodes), CreateFile(p, Base, numNodes)]
    + if overflow then [CreateFile(p, Overflow, numNodes)] else []
  }

  function CreateNodeFiles(t: nat, props: seq<Property>): seq<Op> {
    if props == [] then CreateLists(NodeUnstrLists(t), 0, true, true) + CreateColumn(NodeIndex(t), 0, false)
    else CreateColumn(NodeColumn(t, props[0].id), 0, props[0].hasOverflow) + CreateNodeFiles(t, props[1..])
  }

  function CreateRelProperties(r: nat, n: nat, fwd: bool, single: bool, numNodes: nat, props: seq<Property>): seq<Op> {
    if props == [] then []
    else (if single then CreateColumn(RelColumn(r, n, fwd, props[0].id), numNodes, props[0].hasOverflow)
          else CreateLists(RelLists(r, n, fwd, props[0].id), numNodes, false, props[0].hasOverflow))
         + CreateRelProperties(r, n, fwd, single, numNodes, props[1..])
  }

  function CreateRelDirection(r: nat, fwd: bool, single: bool, nodes: seq<nat>, stats: map<nat, nat>,
                              props: seq<Property>): seq<Op> {
    if nodes == [] then []
    else
      var numNodes := if nodes[0] in stats then stats[nodes[0]] else 0;
      (if single then CreateColumn(AdjColumn(r, nodes[0], fwd), numNodes, false)
       else CreateLists(AdjLists(r, nodes[0], fwd), numNodes, true, false))
      + CreateRelProperties(r, nodes[0], fwd, single, numNodes, props)
      + CreateRelDirection(r, fwd, single, nodes[1..], stats, props)
  }

  function CreateRelFiles(r: nat, s: RelSchema, stats: map<nat, nat>): seq<Op> {
    CreateRelDirection(r, true, s.singleFwd, s.srcTables, stats, s.props)
    + CreateRelDirection(r, false, s.singleBwd, s.dstTables, stats, s.props)
  }

  // ---------------------------------------------------------------------------------------------
  // Replay
  // ---------------------------------------------------------------------------------------------

  predicate HasNode(c: Option<Content>, t: nat) {
    c.Some? && c.value.CatalogImage? && t in c.value.nodes
  }

  predicate HasRel(c: Option<Content>, t: nat) {
    c.Some? && c.value.CatalogImage? && t in c.value.rels
  }

  /** The file operations of one record, decided by what the directory holds when its replay starts;
      None when a file or a table schema the record needs is missing and the replayer throws. */
  function Expand(r: Record, pages: WalPages, d: Directory): Option<seq<Op>> {
    var cat := Get(d, Catalog);
    var stats := Get(d, NodeStats).orig;
    match r
    case PageUpdateOrInsert(p, k, idx, w, _) =>
      if Get(d, Data(p, k)).orig.None? then None else Some([WritePage(Data(p, k), idx, WalPage(pages, w))])
    case TableStatistics(isNode) => Some([Overwrite(if isNode then NodeStats else RelStats)])
    case CatalogRecord => Some([Overwrite(Catalog)])
    case NodeTableRecord(t) =>
      if !HasNode(cat.wal, t) then None else Some(CreateNodeFiles(t, cat.wal.value.nodes[t].props))
    case RelTableRecord(t) =>
      if !HasRel(cat.wal, t) || stats.None? || !stats.value.Statistics? then None
      else Some(CreateRelFiles(t, cat.wal.value.rels[t], stats.value.numNodes))
    case OverflowFileNextBytePos => Some([])
    case CopyNodeCsv(t) =>
      if !HasNode(cat.orig, t) then None else Some(NodeFileOps(ReplaceFromWal, t, cat.orig.value.nodes[t].props))
    case CopyRelCsv(t) =>
      if !HasRel(cat.orig, t) then None else Some(RelFileOps(ReplaceFromWal, t, cat.orig.value.rels[t]))
    case DropTable(isNode, t) =>
      if isNode then
        if !HasNode(cat.orig, t) then None else Some(NodeFileOps(RemoveFiles, t, cat.orig.value.nodes[t].props))
      else
        if !HasRel(cat.orig, t) then None else Some(RelFileOps(RemoveFiles, t, cat.orig.value.rels[t]))
    case Commit => Some([])
  }

  /** Replays `log` from `d`; None when some record throws. */
  function Replay(log: seq<Record>, pages: WalPages, d: Directory): Option<Directory> {
    if log == [] then Some(d)
    else
      var ops := Expand(log[0], pages, d);
      if ops.None? then None else Replay(log[1..], pages, Run(ops.value, d))
  }

  /** Where a crash cuts a replay: after `records` whole records and `ops` operations of the next. */
  datatype Cut = Cut(records: nat, ops: nat)

  function ReplayUpTo(log: seq<Record>, pages: WalPages, d: Directory, c: Cut): Directory {
    if log == [] then d
    else
      var ops := Expand(log[0], pages, d);
      if ops.None? then d
      else if c.records == 0 then Run(ops.value[..if c.ops <= |ops.value| then c.ops else |ops.value|], d)
      else ReplayUpTo(log[1..], pages, Run(ops.value, d), Cut(c.records - 1, c.ops))
  }

  function ReplayCuts(log: seq<Record>, pages: WalPages, d: Directory, cuts: seq<Cut>): Directory
    decreases |cuts|
  {
    if cuts == [] then d else ReplayCuts(log, pages, ReplayUpTo(log, pages, d, cuts[0]), cuts[1..])
  }

  class WalReplayer {
    var dir: Directory
    const log: seq<Record>
    const pages: WalPages

    constructor (log: seq<Record>, pages: WalPages, dir: Directory)
      ensures this.log == log && this.pages == pages && this.dir == dir
    {
      this.log, this.pages, this.dir := log, pages, dir;
    }

    /** The replay loop: the directory ends up as Replay says; on a throwing record it is left
        where the crash-cut function says. */
    method ReplayAll() returns (ok: bool)
      modifies this
      ensures ok <==> Replay(log, pages, old(dir)).Some?
      ensures ok ==> dir == Replay(log, pages, old(dir)).value
    {
      var i := 0;
      while i < |log|
        invariant 0 <= i <= |log|
        invariant Replay(log[i..], pages, dir) == Replay(log, pages, old(dir))
      {
        assert log[i..][1..] == log[i + 1..];
        var ops := Expand(log[i], pages, dir);
        if ops.None? {
          return false;
        }
        ReplayOps(ops.value);
        i := i + 1;
      }
      return true;
    }

    method ReplayOps(ops: seq<Op>)
      modifies this
      ensures dir == Run(ops, old(dir))
    {
      var j := 0;
      while j < |ops|
        invariant 0 <= j <= |ops|
        invariant Run(ops[j..], dir) == Run(ops, old(dir))
      {
        assert ops[j..][1..] == ops[j + 1..];
        dir := Apply(ops[j], dir);
        j := j + 1;
      }
    }
  }

  // ---------------------------------------------------------------------------------------------
  // Static facts about the operations of a record
  // ---------------------------------------------------------------------------------------------

  /** The shape of an operation of record `r`. */
  ghost predicate OpOfRecord(o: Op, r: Record) {
    match r
    case PageUpdateOrInsert(p, k, _, _, _) => o.WritePage? && o.name == Data(p, k)
    case TableStatistics(isNode) => o == Overwrite(if isNode then NodeStats else RelStats)
    case CatalogRecord => o == Overwrite(Catalog)
    case NodeTableRecord(t) => o.Create? && o.name.Data? && OwnerOf(o.name.path) == NodeTable(t)
    case RelTableRecord(t) => o.Create? && o.name.Data? && OwnerOf(o.name.path) == RelTable(t)
    case CopyNodeCsv(t) => o.RenameIfExists? && o.name.Data? && OwnerOf(o.name.path) == NodeTable(t)
    case CopyRelCsv(t) => o.RenameIfExists? && o.name.Data? && OwnerOf(o.name.path) == RelTable(t)
    case DropTable(isNode, t) =>
      o.RemoveIfExists? && o.name.Data? && OwnerOf(o.name.path) == if isNode then NodeTable(t) else RelTable(t)
    case _ => false
  }

  ghost predicate AllOf(ops: seq<Op>, r: Record) {
    forall o :: o in ops ==> OpOfRecord(o, r)
  }

  lemma AllOfConcat(a: seq<Op>, b: seq<Op>, r: Record)
    requires AllOf(a, r) && AllOf(b, r)
    ensures AllOf(a + b, r)
  {
  }

  /** The record asks for action `a` on the files of table `w`. */
  ghost predicate Asks(r: Record, a: Action, w: Owner) {
    match r
    case CopyNodeCsv(t) => a == ReplaceFromWal && w == NodeTable(t)
    case CopyRelCsv(t) => a == ReplaceFromWal && w == RelTable(t)
    case DropTable(isNode, t) => a == RemoveFiles && w == if isNode then NodeTable(t) else RelTable(t)
    case _ => false
  }

  lemma StructureOps(r: Record, a: Action, p: Path)
    requires Asks(r, a, OwnerOf(p))
    ensures AllOf(ColumnOps(a, p), r) && AllOf(ListOps(a, p), r)
  {
  }

  lemma {:induction false} NodeFileOpsOwned(rec: Record, a: Action, t: nat, props: seq<Property>)
    requires Asks(rec, a, NodeTable(t))
    ensures AllOf(NodeFileOps(a, t, props), rec)
  {
    if props == [] {
      StructureOps(rec, a, NodeUnstrLists(t));
      StructureOps(rec, a, NodeIndex(t));
      AllOfConcat(ListOps(a, NodeUnstrLists(t)), ColumnOps(a, NodeIndex(t)), rec);
    } else {
      StructureOps(rec, a, NodeColumn(t, props[0].id));
      NodeFileOpsOwned(rec, a, t, props[1..]);
      AllOfConcat(ColumnOps(a, NodeColumn(t, props[0].id)), NodeFileOps(a, t, props[1..]), rec);
    }
  }

  lemma {:induction false} RelPropertyOpsOwned(rec: Record, a: Action, r: nat, n: nat, fwd: bool, single: bool,
                                               props: seq<Property>)
    requires Asks(rec, a, RelTable(r))
    ensures AllOf(RelPropertyOps(a, r, n, fwd, single, props), rec)
  {
    if props != [] {
      var p := if single then RelColumn(r, n, fwd, props[0].id) else RelLists(r, n, fwd, props[0].id);
      StructureOps(rec, a, p);
      RelPropertyOpsOwned(rec, a, r, n, fwd, single, props[1..]);
      AllOfConcat(if single then ColumnOps(a, p) else ListOps(a, p), RelPropertyOps(a, r, n, fwd, single, props[1..]),
                  rec);
    }
  }

  lemma {:induction false} RelDirectionOpsOwned(rec: Record, a: Action, r: nat, fwd: bool, single: bool,
                                                nodes: seq<nat>, props: seq<Property>)
    requires Asks(rec, a, RelTable(r))
    ensures AllOf(RelDirectionOps(a, r, fwd, single, nodes, props), rec)
  {
    if nodes != [] {
      var p := if single then AdjColumn(r, nodes[0], fwd) else AdjLists(r, nodes[0], fwd);
      var adj := if single then ColumnOps(a, p) else ListOps(a, p);
      StructureOps(rec, a, p);
      RelPropertyOpsOwned(rec, a, r, nodes[0], fwd, single, props);
      AllOfConcat(adj, RelPropertyOps(a, r, nodes[0], fwd, single, props), rec);
      RelDirectionOpsOwned(rec, a, r, fwd, single, nodes[1..], props);
      AllOfConcat(adj + RelPropertyOps(a, r, nodes[0], fwd, single, props),
                  RelDirectionOps(a, r, fwd, single, nodes[1..], props), rec);
    }
  }

  lemma CreateStructureOps(r: Record, p: Path, numNodes: nat, headers: bool, overflow: bool)
    requires r.NodeTableRecord? || r.RelTableRecord?
    requires OwnerOf(p) == if r.NodeTableRecord? then NodeTable(r.table) else RelTable(r.table)
    ensures AllOf(CreateColumn(p, numNodes, overflow), r)
    ensures AllOf(CreateLists(p, numNodes, headers, overflow), r)
  {
  }

  lemma {:induction false} CreateNodeFilesOwned(t: nat, props: seq<Property>)
    ensures AllOf(CreateNodeFiles(t, props), NodeTableRecord(t))
  {
    var rec := NodeTableRecord(t);
    if props == [] {
      CreateStructureOps(rec, NodeUnstrLists(t), 0, true, true);
      CreateStructureOps(rec, NodeIndex(t), 0, true, false);
      AllOfConcat(CreateLists(NodeUnstrLists(t), 0, true, true), CreateColumn(NodeIndex(t), 0, false), rec);
    } else {
      CreateStructureOps(rec, NodeColumn(t, props[0].id), 0, true, props[0].hasOverflow);
      CreateNodeFilesOwned(t, props[1..]);
      AllOfConcat(CreateColumn(NodeColumn(t, props[0].id), 0, props[0].hasOverflow), CreateNodeFiles(t, props[1..]),
                  rec);
    }
  }

  lemma {:induction false} CreateRelPropertiesOwned(r: nat, n: nat, fwd: bool, single: bool, numNodes: nat,
                                                    props: seq<Property>)
    ensures AllOf(CreateRelProperties(r, n, fwd, single, numNodes, props), RelTableRecord(r))
  {
    if props != [] {
      var p := if single then RelColumn(r, n, fwd, props[0].id) else RelLists(r, n, fwd, props[0].id);
      CreateStructureOps(RelTableRecord(r), p, numNodes, false, props[0].hasOverflow);
      CreateRelPropertiesOwned(r, n, fwd, single, numNodes, props[1..]);
      AllOfConcat(if single then CreateColumn(p, numNodes, props[0].hasOverflow)
                  else CreateLists(p, numNodes, false, props[0].hasOverflow),
                  CreateRelProperties(r, n, fwd, single, numNodes, props[1..]), RelTableRecord(r));
    }
  }

  lemma {:induction false} CreateRelDirectionOwned(r: nat, fwd: bool, single: bool, nodes: seq<nat>,
                                                   stats: map<nat, nat>, props: seq<Property>)
    ensures AllOf(CreateRelDirection(r, fwd, single, nodes, stats, props), RelTableRecord(r))
  {
    if nodes != [] {
      var numNodes := if nodes[0] in stats then stats[nodes[0]] else 0;
      var p := if single then AdjColumn(r, nodes[0], fwd) else AdjLists(r, nodes[0], fwd);
      var adj := if single then CreateColumn(p, numNodes, false) else CreateLists(p, numNodes, true, false);
      CreateStructureOps(RelTableRecord(r), p, numNodes, true, false);
      CreateRelPropertiesOwned(r, nodes[0], fwd, single, numNodes, props);
      AllOfConcat(adj, CreateRelProperties(r, nodes[0], fwd, single, numNodes, props), RelTableRecord(r));
      CreateRelDirectionOwned(r, fwd, single, nodes[1..], stats, props);
      AllOfConcat(adj + CreateRelProperties(r, nodes[0], fwd, single, numNodes, props),
                  CreateRelDirection(r, fwd, single, nodes[1..], stats, props), RelTableRecord(r));
    }
  }

  // ---------------------------------------------------------------------------------------------
  // Logs whose records expand alike wherever an earlier replay was cut
  // ---------------------------------------------------------------------------------------------

  lemma ExpandShape(r: Record, pages: WalPages, d: Directory)
    requires Expand(r, pages, d).Some?
    ensures AllOf(Expand(r, pages, d).value, r)
  {
    var cat := Get(d, Catalog);
    match r
    case NodeTableRecord(t) => CreateNodeFilesOwned(t, cat.wal.value.nodes[t].props);
    case RelTableRecord(t) =>
      var s, stats := cat.wal.value.rels[t], Get(d, NodeStats).orig.value.numNodes;
      CreateRelDirectionOwned(t, true, s.singleFwd, s.srcTables, stats, s.props);
      CreateRelDirectionOwned(t, false, s.singleBwd, s.dstTables, stats, s.props);
      AllOfConcat(CreateRelDirection(t, true, s.singleFwd, s.srcTables, stats, s.props),
                  CreateRelDirection(t, false, s.singleBwd, s.dstTables, stats, s.props), r);
    case CopyNodeCsv(t) => NodeFileOpsOwned(r, ReplaceFromWal, t, cat.orig.value.nodes[t].props);
    case CopyRelCsv(t) => RelFileOpsOwned(r, ReplaceFromWal, t, cat.orig.value.rels[t]);
    case DropTable(isNode, t) =>
      if isNode {
        NodeFileOpsOwned(r, RemoveFiles, t, cat.orig.value.nodes[t].props);
      } else {
        RelFileOpsOwned(r, RemoveFiles, t, cat.orig.value.rels[t]);
      }
    case _ =>
  }

  lemma RelFileOpsOwned(rec: Record, a: Action, r: nat, s: RelSchema)
    requires Asks(rec, a, RelTable(r))
    ensures AllOf(RelFileOps(a, r, s), rec)
  {
    RelDirectionOpsOwned(rec, a, r, true, s.singleFwd, s.srcTables, s.props);
    RelDirectionOpsOwned(rec, a, r, false, s.singleBwd, s.dstTables, s.props);
    AllOfConcat(RelDirectionOps(a, r, true, s.singleFwd, s.srcTables, s.props),
                RelDirectionOps(a, r, false, s.singleBwd, s.dstTables, s.props), rec);
  }

  /** The directory with the catalog (c) or the node statistics (s) overwritten already, if the log does that. */
  function Advanced(log: seq<Record>, d: Directory, c: bool, s: bool): Directory {
    var d1 := if c && CatalogRecord in log then Apply(Overwrite(Catalog), d) else d;
    if s && TableStatistics(true) in log then Apply(Overwrite(NodeStats), d1) else d1
  }

  /** The record finds what it needs, and expands alike once the catalog or the statistics are overwritten. */
  ghost predicate SteadyAt(r: Record, log: seq<Record>, pages: WalPages, d: Directory) {
    && !r.DropTable? && Expand(r, pages, d).Some?
    && forall c, s :: Expand(r, pages, Advanced(log, d, c, s)) == Expand(r, pages, d)
  }

  /** So does every record where a replay from `d` gets to it. */
  ghost predicate Steady(recs: seq<Record>, log: seq<Record>, pages: WalPages, d: Directory)
    decreases |recs|
  {
    recs == [] || (SteadyAt(recs[0], log, pages, d)
                   && Steady(recs[1..], log, pages, Run(Expand(recs[0], pages, d).value, d)))
  }

  /** The operations a replay from `d` performs. */
  function OpsFrom(recs: seq<Record>, pages: WalPages, d: Directory): seq<Op>
    decreases |recs|
  {
    if recs == [] || Expand(recs[0], pages, d).None? then []
    else
      var ops := Expand(recs[0], pages, d).value;
      ops + OpsFrom(recs[1..], pages, Run(ops, d))
  }

  /** An operation of a record of the log other than a drop. */
  predicate LogOp(o: Op, log: seq<Record>) {
    && !o.RemoveIfExists?
    && (o.name == Catalog ==> o == Overwrite(Catalog) && CatalogRecord in log)
    && (o.name == NodeStats ==> o == Overwrite(NodeStats) && TableStatistics(true) in log)
  }

  lemma ExpandLogOps(r: Record, log: seq<Record>, pages: WalPages, d: Directory)
    requires r in log && !r.DropTable? && Expand(r, pages, d).Some?
    ensures forall o :: o in Expand(r, pages, d).value ==> LogOp(o, log)
  {
    ExpandShape(r, pages, d);
  }

  /** The files of `s` are those of `s0` after some operations: none is gone, and a WAL version only by a rename. */
  predicate SlotReached(s0: Slot, s: Slot) {
    (s0.orig.Some? ==> s.orig.Some?) && (s.wal == s0.wal || (s.wal.None? && s.orig.Some?))
  }

  /** `d` could have been reached from `d0` by operations of `log`, as far as Expand can tell. */
  ghost predicate Reached(log: seq<Record>, d0: Directory, d: Directory) {
    && (forall n :: SlotReached(Get(d0, n), Get(d, n)))
    && (Get(d, Catalog) == Get(d0, Catalog)
        || (CatalogRecord in log && Get(d, Catalog) == ApplySlot(Overwrite(Catalog), Get(d0, Catalog))))
    && (Get(d, NodeStats) == Get(d0, NodeStats)
        || (TableStatistics(true) in log && Get(d, NodeStats) == ApplySlot(Overwrite(NodeStats), Get(d0, NodeStats))))
  }

  lemma ExpandStable(r: Record, log: seq<Record>, pages: WalPages, d0: Directory, d: Directory)
    requires SteadyAt(r, log, pages, d0) && Reached(log, d0, d)
    ensures Expand(r, pages, d) == Expand(r, pages, d0)
  {
    var c, s := Get(d, Catalog) != Get(d0, Catalog), Get(d, NodeStats) != Get(d0, NodeStats);
    var e := Advanced(log, d0, c, s);
    assert Get(e, Catalog) == Get(d, Catalog) && Get(e, NodeStats) == Get(d, NodeStats);
    assert Expand(r, pages, e) == Expand(r, pages, d0);
    if r.PageUpdateOrInsert? {
      assert SlotReached(Get(d0, Data(r.path, r.kind)), Get(d, Data(r.path, r.kind)));
    }
  }

  lemma ReachedByOne(o: Op, log: seq<Record>, d0: Directory, d: Directory)
    requires LogOp(o, log) && Reached(log, d0, d)
    ensures Reached(log, d0, Apply(o, d))
  {
    forall n ensures SlotReached(Get(d0, n), Get(Apply(o, d), n)) {
      assert SlotReached(Get(d0, n), Get(d, n));
    }
  }

  lemma ReachedTogether(o: Op, log: seq<Record>, d0: Directory, d: Directory)
    requires LogOp(o, log) && Reached(log, d0, d)
    ensures Reached(log, Apply(o, d0), Apply(o, d))
  {
    forall n ensures SlotReached(Get(Apply(o, d0), n), Get(Apply(o, d), n)) {
      assert SlotReached(Get(d0, n), Get(d, n));
    }
  }

  lemma {:induction false} ReachedByAll(ops: seq<Op>, log: seq<Record>, d0: Directory, d: Directory)
    requires (forall o :: o in ops ==> LogOp(o, log)) && Reached(log, d0, d)
    ensures Reached(log, d0, Run(ops, d)) && Reached(log, Run(ops, d0), Run(ops, d))
    decreases |ops|
  {
    if ops != [] {
      assert ops[0] in ops && forall o :: o in ops[1..] ==> o in ops;
      ReachedByOne(ops[0], log, d0, d);
      ReachedTogether(ops[0], log, d0, d);
      ReachedByAll(ops[1..], log, d0, Apply(ops[0], d));
      ReachedByAll(ops[1..], log, Apply(ops[0], d0), Apply(ops[0], d));
    }
  }

  lemma {:induction false} OpsFromLogOps(recs: seq<Record>, log: seq<Record>, pages: WalPages, d: Directory)
    requires Steady(recs, log, pages, d) && forall r :: r in recs ==> r in log
    ensures forall o :: o in OpsFrom(recs, pages, d) ==> LogOp(o, log)
    decreases |recs|
  {
    if recs != [] {
      var ops := Expand(recs[0], pages, d).value;
      ExpandLogOps(recs[0], log, pages, d);
      OpsFromLogOps(recs[1..], log, pages, Run(ops, d));
    }
  }

  /** The first record of the rest of a log, from the first replay's directory and from a reached one. */
  lemma StepTogether(recs: seq<Record>, log: seq<Record>, pages: WalPages, d0: Directory, d: Directory)
    returns (ops: seq<Op>)
    requires recs != [] && Steady(recs, log, pages, d0) && Reached(log, d0, d) && recs[0] in log
    ensures Expand(recs[0], pages, d0) == Some(ops) && Expand(recs[0], pages, d) == Some(ops)
    ensures Steady(recs[1..], log, pages, Run(ops, d0)) && Reached(log, Run(ops, d0), Run(ops, d))
    ensures OpsFrom(recs, pages, d0) == ops + OpsFrom(recs[1..], pages, Run(ops, d0))
  {
    ExpandStable(recs[0], log, pages, d0, d);
    ops := Expand(recs[0], pages, d0).value;
    ExpandLogOps(recs[0], log, pages, d0);
    ReachedByAll(ops, log, d0, d);
  }

  lemma ReplayUnfolds(recs: seq<Record>, pages: WalPages, d: Directory, ops: seq<Op>)
    requires recs != [] && Expand(recs[0], pages, d) == Some(ops)
    ensures Replay(recs, pages, d) == Replay(recs[1..], pages, Run(ops, d))
  {
  }

  lemma CutUnfolds(recs: seq<Record>, pages: WalPages, d: Directory, c: Cut, ops: seq<Op>)
    requires recs != [] && Expand(recs[0], pages, d) == Some(ops)
    ensures ReplayUpTo(recs, pages, d, c) ==
            if c.records == 0 then Run(Prefix(ops, c.ops), d)
            else ReplayUpTo(recs[1..], pages, Run(ops, d), Cut(c.records - 1, c.ops))
  {
  }

  /** A replay from any reached directory performs exactly the operations of the first one, and does not throw. */
  lemma {:induction false} ReplayIsRun(recs: seq<Record>, log: seq<Record>, pages: WalPages, d0: Directory,
                                       d: Directory)
    requires Steady(recs, log, pages, d0) && Reached(log, d0, d) && forall r :: r in recs ==> r in log
    ensures Replay(recs, pages, d) == Some(Run(OpsFrom(recs, pages, d0), d))
    decreases |recs|
  {
    if recs != [] {
      var ops := StepTogether(recs, log, pages, d0, d);
      ReplayUnfolds(recs, pages, d, ops);
      ReplayIsRun(recs[1..], log, pages, Run(ops, d0), Run(ops, d));
      RunConcat(ops, OpsFrom(recs[1..], pages, Run(ops, d0)), d);
    }
  }

  lemma PrefixConcat(a: seq<Op>, b: seq<Op>, k: nat)
    ensures Prefix(a + b, k) == if k <= |a| then Prefix(a, k) else a + Prefix(b, k - |a|)
  {
  }

  /** Running the first of some operations and then those of a prefix of the rest. */
  lemma RunPrefix(ops: seq<Op>, rest: seq<Op>, j: nat, d: Directory)
    ensures Run(Prefix(ops + rest, |ops| + j), d) == Run(Prefix(rest, j), Run(ops, d))
  {
    PrefixConcat(ops, rest, |ops| + j);
    assert j == 0 ==> Prefix(rest, j) == [] && Prefix(ops, |ops|) == ops;
    RunConcat(ops, Prefix(rest, j), d);
  }

  /** The operations record by record. */
  function PartsFrom(recs: seq<Record>, pages: WalPages, d: Directory): seq<seq<Op>>
    decreases |recs|
  {
    if recs == [] || Expand(recs[0], pages, d).None? then []
    else
      var ops := Expand(recs[0], pages, d).value;
      [ops] + PartsFrom(recs[1..], pages, Run(ops, d))
  }

  function Flat(parts: seq<seq<Op>>): seq<Op> {
    if parts == [] then [] else parts[0] + Flat(parts[1..])
  }

  function RunUpTo(parts: seq<seq<Op>>, d: Directory, c: Cut): Directory {
    if parts == [] then d
    else if c.records == 0 then Run(Prefix(parts[0], c.ops), d)
    else RunUpTo(parts[1..], Run(parts[0], d), Cut(c.records - 1, c.ops))
  }

  /** A cut replay stops among the parts of the first one. */
  lemma {:induction false} CutParts(recs: seq<Record>, log: seq<Record>, pages: WalPages, d0: Directory, d: Directory,
                                    c: Cut)
    requires Steady(recs, log, pages, d0) && Reached(log, d0, d) && forall r :: r in recs ==> r in log
    ensures ReplayUpTo(recs, pages, d, c) == RunUpTo(PartsFrom(recs, pages, d0), d, c)
    decreases |recs|
  {
    if recs != [] {
      var ops := StepTogether(recs, log, pages, d0, d);
      CutUnfolds(recs, pages, d, c, ops);
      var rest := PartsFrom(recs[1..], pages, Run(ops, d0));
      assert PartsFrom(recs, pages, d0) == [ops] + rest && ([ops] + rest)[1..] == rest;
      if c.records > 0 {
        CutParts(recs[1..], log, pages, Run(ops, d0), Run(ops, d), Cut(c.records - 1, c.ops));
      }
    }
  }

  lemma {:induction false} FlatParts(recs: seq<Record>, pages: WalPages, d: Directory)
    ensures Flat(PartsFrom(recs, pages, d)) == OpsFrom(recs, pages, d)
    decreases |recs|
  {
    if recs != [] && Expand(recs[0], pages, d).Some? {
      var ops := Expand(recs[0], pages, d).value;
      FlatParts(recs[1..], pages, Run(ops, d));
    }
  }

  lemma {:induction false} PartIsPrefix(parts: seq<seq<Op>>, d: Directory, c: Cut) returns (k: nat)
    ensures RunUpTo(parts, d, c) == Run(Prefix(Flat(parts), k), d)
    decreases |parts|
  {
    k := 0;
    if parts != [] {
      var ops, rest := parts[0], Flat(parts[1..]);
      if c.records == 0 {
        k := if c.ops <= |ops| then c.ops else |ops|;
        PrefixConcat(ops, rest, k);
      } else {
        var j := PartIsPrefix(parts[1..], Run(ops, d), Cut(c.records - 1, c.ops));
        k := |ops| + j;
        RunPrefix(ops, rest, j, d);
      }
    }
  }

  lemma {:induction false} PrefixIsPart(parts: seq<seq<Op>>, d: Directory, k: nat) returns (c: Cut)
    ensures RunUpTo(parts, d, c) == Run(Prefix(Flat(parts), k), d)
    decreases |parts|
  {
    c := Cut(0, k);
    if parts != [] {
      var ops, rest := parts[0], Flat(parts[1..]);
      if k <= |ops| {
        PrefixConcat(ops, rest, k);
      } else {
        var j := PrefixIsPart(parts[1..], Run(ops, d), k - |ops|);
        c := Cut(j.records + 1, j.ops);
        RunPrefix(ops, rest, k - |ops|, d);
      }
    }
  }

  /** A cut replay performs a prefix of the operations of the first one. */
  lemma CutIsPrefix(log: seq<Record>, pages: WalPages, d0: Directory, d: Directory, c: Cut) returns (k: nat)
    requires Steady(log, log, pages, d0) && Reached(log, d0, d)
    ensures ReplayUpTo(log, pages, d, c) == Run(Prefix(OpsFrom(log, pages, d0), k), d)
  {
    CutParts(log, log, pages, d0, d, c);
    FlatParts(log, pages, d0);
    k := PartIsPrefix(PartsFrom(log, pages, d0), d, c);
  }

  /** And every prefix is where some cut stops. */
  lemma PrefixIsCut(log: seq<Record>, pages: WalPages, d0: Directory, d: Directory, k: nat) returns (c: Cut)
    requires Steady(log, log, pages, d0) && Reached(log, d0, d)
    ensures ReplayUpTo(log, pages, d, c) == Run(Prefix(OpsFrom(log, pages, d0), k), d)
  {
    FlatParts(log, pages, d0);
    c := PrefixIsPart(PartsFrom(log, pages, d0), d, k);
    CutParts(log, log, pages, d0, d, c);
  }

  lemma ReachedAtStart(log: seq<Record>, d: Directory)
    ensures Reached(log, d, d)
  {
  }

  lemma PrefixReached(log: seq<Record>, pages: WalPages, d0: Directory, d: Directory, k: nat)
    requires Steady(log, log, pages, d0) && Reached(log, d0, d)
    ensures Reached(log, d0, Run(Prefix(OpsFrom(log, pages, d0), k), d))
  {
    var ops := OpsFrom(log, pages, d0);
    OpsFromLogOps(log, log, pages, d0);
    assert forall o :: o in Prefix(ops, k) ==> o in ops;
    ReachedByAll(Prefix(ops, k), log, d0, d);
  }

  lemma {:induction false} CutsAreSeries(log: seq<Record>, pages: WalPages, d0: Directory, d: Directory, cuts: seq<Cut>)
    returns (ks: seq<nat>)
    requires Steady(log, log, pages, d0) && Reached(log, d0, d)
    ensures ReplayCuts(log, pages, d, cuts) == Series(OpsFrom(log, pages, d0), ks, d)
    ensures Reached(log, d0, ReplayCuts(log, pages, d, cuts))
    decreases |cuts|
  {
    if cuts == [] {
      return [];
    }
    var k := CutIsPrefix(log, pages, d0, d, cuts[0]);
    PrefixReached(log, pages, d0, d, k);
    var rest := CutsAreSeries(log, pages, d0, ReplayUpTo(log, pages, d, cuts[0]), cuts[1..]);
    ks := [k] + rest;
    assert ks[1..] == rest;
  }

  /** Any finite series of replays cut anywhere, even between two renames of one record, followed by a complete one,
      gives what a single complete replay gives. */
  ghost predicate Recoverable(log: seq<Record>, pages: WalPages, d: Directory) {
    forall cuts :: Replay(log, pages, ReplayCuts(log, pages, d, cuts)) == Replay(log, pages, d)
  }

  lemma SettledIsRecoverable(log: seq<Record>, pages: WalPages, d: Directory, cuts: seq<Cut>)
    requires Steady(log, log, pages, d) && AllSettled(OpsFrom(log, pages, d), d)
    ensures Replay(log, pages, ReplayCuts(log, pages, d, cuts)) == Replay(log, pages, d)
  {
    var ops := OpsFrom(log, pages, d);
    ReachedAtStart(log, d);
    var ks := CutsAreSeries(log, pages, d, d, cuts);
    ReplayIsRun(log, log, pages, d, d);
    ReplayIsRun(log, log, pages, d, ReplayCuts(log, pages, d, cuts));
    SettledIsInvisible(ops, ks, d);
  }

  /** Prefix idempotence, exactly. A log whose records expand alike wherever a replay was cut is recoverable if and only
      if, on every file, what precedes a rename of an existing WAL version cannot be seen on its contents. */
  lemma ReplayIdempotent(log: seq<Record>, pages: WalPages, d: Directory)
    requires Steady(log, log, pages, d)
    ensures Replay(log, pages, d).Some?
    ensures Recoverable(log, pages, d) <==> AllSettled(OpsFrom(log, pages, d), d)
  {
    var ops := OpsFrom(log, pages, d);
    ReachedAtStart(log, d);
    ReplayIsRun(log, log, pages, d, d);
    if AllSettled(ops, d) {
      forall cuts ensures Replay(log, pages, ReplayCuts(log, pages, d, cuts)) == Replay(log, pages, d) {
        SettledIsRecoverable(log, pages, d, cuts);
      }
    } else {
      var n :| !Settled(OnFile(ops, n), Get(d, n));
      var k := UnsettledIsVisible(ops, d, n);
      var c := PrefixIsCut(log, pages, d, d, k);
      OneCut(log, pages, d, c);
      OneSeries(ops, k, d);
      PrefixReached(log, pages, d, d, k);
      ReplayIsRun(log, log, pages, d, ReplayUpTo(log, pages, d, c));
      assert Replay(log, pages, ReplayCuts(log, pages, d, [c])) != Replay(log, pages, d);
    }
  }

  lemma OneCut(log: seq<Record>, pages: WalPages, d: Directory, c: Cut)
    ensures ReplayCuts(log, pages, d, [c]) == ReplayUpTo(log, pages, d, c)
  {
    assert [c][1..] == [];
    assert ReplayCuts(log, pages, d, [c]) == ReplayCuts(log, pages, ReplayUpTo(log, pages, d, c), [c][1..]);
  }

  lemma OneSeries(ops: seq<Op>, k: nat, d: Directory)
    ensures Series(ops, [k], d) == Run(Prefix(ops, k), d)
  {
    assert [k][1..] == [];
    assert Series(ops, [k], d) == Series(ops, [k][1..], Run(Prefix(ops, k), d));
  }

  /** A log the checkpoint can be cut in. */
  ghost predicate LogOk(log: seq<Record>, pages: WalPages, d: Directory) {
    Steady(log, log, pages, d) && AllSettled(OpsFrom(log, pages, d), d)
  }

  // ---------------------------------------------------------------------------------------------
  // What a page log leaves behind, page by page
  // ---------------------------------------------------------------------------------------------

  predicate PageLog(log: seq<Record>) {
    forall r :: r in log ==> r.PageUpdateOrInsert? || r.OverflowFileNextBytePos? || r.Commit?
  }

  /** WAL page of the last record that touches page `idx` of the file. */
  function LastWal(log: seq<Record>, p: Path, k: Kind, idx: nat): Option<nat> {
    if log == [] then None
    else
      var r := log[|log| - 1];
      if r.PageUpdateOrInsert? && r.path == p && r.kind == k && r.idx == idx then Some(r.walIdx)
      else LastWal(log[..|log| - 1], p, k, idx)
  }

  function PageOf(d: Directory, p: Path, k: Kind, idx: nat): Option<Page> {
    var f := Get(d, Data(p, k)).orig;
    if f.Some? && f.value.Pages? && idx < |f.value.pages| then Some(f.value.pages[idx]) else None
  }

  lemma {:induction false} ReplaySnoc(log: seq<Record>, r: Record, pages: WalPages, d: Directory)
    ensures var d1 := Replay(log, pages, d);
            Replay(log + [r], pages, d) == if d1.None? then None else Replay([r], pages, d1.value)
  {
    if log == [] {
      assert log + [r] == [r];
    } else {
      assert (log + [r])[1..] == log[1..] + [r];
      var ops := Expand(log[0], pages, d);
      if ops.Some? {
        ReplaySnoc(log[1..], r, pages, Run(ops.value, d));
      }
    }
  }

  /** After replay every page holds the WAL image of the last record naming it; other pages are as before. */
  lemma {:induction false} ReplayedPage(log: seq<Record>, pages: WalPages, d: Directory, p: Path, k: Kind, idx: nat)
    requires PageLog(log) && Replay(log, pages, d).Some?
    requires Get(d, Data(p, k)).orig.Some? && Get(d, Data(p, k)).orig.value.Pages?
    ensures var d' := Replay(log, pages, d).value;
            && Get(d', Data(p, k)).orig.Some? && Get(d', Data(p, k)).orig.value.Pages?
            && (LastWal(log, p, k, idx).Some? ==>
                PageOf(d', p, k, idx) == Some(WalPage(pages, LastWal(log, p, k, idx).value)))
            && (LastWal(log, p, k, idx).None? && PageOf(d, p, k, idx).Some? ==>
                PageOf(d', p, k, idx) == PageOf(d, p, k, idx))
    decreases |log|
  {
    if log != [] {
      var front, r := log[..|log| - 1], log[|log| - 1];
      assert log == front + [r] && forall x :: x in front ==> x in log;
      ReplaySnoc(front, r, pages, d);
      ReplayedPage(front, pages, d, p, k, idx);
      assert r in log;
      OneRecordPage(r, pages, Replay(front, pages, d).value, p, k, idx);
    }
  }

  /** A record of a page log writes its own page, and no other page is touched. */
  lemma OneRecordPage(r: Record, pages: WalPages, d: Directory, p: Path, k: Kind, idx: nat)
    requires PageLog([r]) && Replay([r], pages, d).Some?
    requires Get(d, Data(p, k)).orig.Some? && Get(d, Data(p, k)).orig.value.Pages?
    ensures var d' := Replay([r], pages, d).value;
            && Get(d', Data(p, k)).orig.Some? && Get(d', Data(p, k)).orig.value.Pages?
            && (r.PageUpdateOrInsert? && r.path == p && r.kind == k && r.idx == idx ==>
                  PageOf(d', p, k, idx) == Some(WalPage(pages, r.walIdx)))
            && (!(r.PageUpdateOrInsert? && r.path == p && r.kind == k && r.idx == idx) && PageOf(d, p, k, idx).Some? ==>
                  PageOf(d', p, k, idx) == PageOf(d, p, k, idx))
  {
    assert r in [r] && [r][1..] == [];
    var ops := Expand(r, pages, d).value;
    assert Replay([r], pages, d) == Some(Run(ops, d));
    if r.PageUpdateOrInsert? {
      assert ops[1..] == [];
      assert Run(ops, d) == Apply(ops[0], d);
    }
  }

  /** flushAllPages writes the header with COMMIT before the WAL pages. If only some pages became
      durable, recovery rebuilds the transaction's image of every page exactly when each page's last
      WAL image is the durable one. */
  lemma TornFlushExact(log: seq<Record>, durable: WalPages, mem: WalPages, d: Directory)
    requires PageLog(log) && Replay(log, durable, d).Some? && Replay(log, mem, d).Some?
    requires forall r :: r in log && r.PageUpdateOrInsert? ==>
                           Get(d, Data(r.path, r.kind)).orig.Some? && Get(d, Data(r.path, r.kind)).orig.value.Pages?
    ensures (forall r :: r in log && r.PageUpdateOrInsert? ==>
                           PageOf(Replay(log, durable, d).value, r.path, r.kind, r.idx)
                           == PageOf(Replay(log, mem, d).value, r.path, r.kind, r.idx))
       <==> (forall r :: r in log && r.PageUpdateOrInsert? ==>
                           var w := LastWal(log, r.path, r.kind, r.idx);
                           w.Some? && WalPage(durable, w.value) == WalPage(mem, w.value))
  {
    forall r | r in log && r.PageUpdateOrInsert?
      ensures var w := LastWal(log, r.path, r.kind, r.idx);
              && w.Some?
              && PageOf(Replay(log, durable, d).value, r.path, r.kind, r.idx) == Some(WalPage(durable, w.value))
              && PageOf(Replay(log, mem, d).value, r.path, r.kind, r.idx) == Some(WalPage(mem, w.value))
    {
      LastWalExists(log, r);
      ReplayedPage(log, durable, d, r.path, r.kind, r.idx);
      ReplayedPage(log, mem, d, r.path, r.kind, r.idx);
    }
  }

  /** At one log: COMMIT is durable and the page image is not, and the page ends up neither old nor new. */
  lemma TornFlushTearsPage(p: Path)
    ensures var log := [PageUpdateOrInsert(p, Base, 0, 0, false), Commit];
            var d: Directory := map[Data(p, Base) := Slot(Some(Pages([Bytes(2)])), None)];
            var torn, whole := Replay(log, map[], d), Replay(log, map[0 := Bytes(1)], d);
            && torn.Some? && whole.Some?
            && PageOf(d, p, Base, 0) == Some(Bytes(2)) && PageOf(whole.value, p, Base, 0) == Some(Bytes(1))
            && PageOf(torn.value, p, Base, 0) == Some(Bytes(0))
  {
    var r := PageUpdateOrInsert(p, Base, 0, 0, false);
    var log := [r, Commit];
    var d: Directory := map[Data(p, Base) := Slot(Some(Pages([Bytes(2)])), None)];
    assert log[1..] == [Commit] && [Commit][1..] == [] && log[..1] == [r] && log[0] == r;
    assert LastWal([r], p, Base, 0) == Some(0);
    assert LastWal(log, p, Base, 0) == LastWal(log[..1], p, Base, 0);
    OnePageReplays(r, map[], d);
    OnePageReplays(r, map[0 := Bytes(1)], d);
    ReplayedPage(log, map[], d, p, Base, 0);
    ReplayedPage(log, map[0 := Bytes(1)], d, p, Base, 0);
  }

  lemma OnePageReplays(r: Record, pages: WalPages, d: Directory)
    requires r.PageUpdateOrInsert? && Get(d, Data(r.path, r.kind)).orig.Some?
    ensures Replay([r, Commit], pages, d).Some?
  {
    assert [r, Commit][1..] == [Commit] && [Commit][1..] == [];
    var e := Run(Expand(r, pages, d).value, d);
    assert Replay([Commit], pages, e) == Replay([], pages, Run([], e));
  }

  lemma {:induction false} LastWalExists(log: seq<Record>, r: Record)
    requires r in log && r.PageUpdateOrInsert?
    ensures LastWal(log, r.path, r.kind, r.idx).Some?
  {
    if r != log[|log| - 1] {
      assert r in log[..|log| - 1];
      LastWalExists(log[..|log| - 1], r);
    }
  }
}

/** The logs the statements of the database write, and when a replay of them can be cut and repeated
    (src/catalog/catalog.cpp:416-432, src/processor/physical_plan/operator/create_node_table.cpp,
    src/processor/physical_plan/operator/copy_csv, src/main/include/database.h:92-126). */
module WalStatements {
  import opened Wrappers
  import opened WalFiles
  import opened WalReplay

  // ---------------------------------------------------------------------------------------------
  // A record whose table the catalog file names
  // ---------------------------------------------------------------------------------------------

  /** One record, then the catalog file is overwritten. */
  function WithCatalog(r: Record): seq<Record> {
    [r, CatalogRecord, Commit]
  }

  lemma WithCatalogTail(r: Record)
    ensures WithCatalog(r)[1..] == [CatalogRecord, Commit] && [CatalogRecord, Commit][1..] == [Commit]
            && [Commit][1..] == []
  {
  }

  lemma RestReplays(pages: WalPages, d: Directory)
    ensures Replay([CatalogRecord, Commit], pages, d) == Some(Apply(Overwrite(Catalog), d))
  {
    var over := [Overwrite(Catalog)];
    assert [CatalogRecord, Commit][1..] == [Commit] && [Commit][1..] == [] && over[1..] == [];
    var e := Apply(Overwrite(Catalog), d);
    assert Run(over, d) == Run(over[1..], e);
    assert Replay([Commit], pages, e) == Replay([], pages, Run([], e));
  }

  lemma WithCatalogReplay(r: Record, pages: WalPages, d: Directory)
    ensures Replay(WithCatalog(r), pages, d) ==
            if Expand(r, pages, d).None? then None
            else Some(Apply(Overwrite(Catalog), Run(Expand(r, pages, d).value, d)))
  {
    WithCatalogTail(r);
    if Expand(r, pages, d).Some? {
      RestReplays(pages, Run(Expand(r, pages, d).value, d));
    }
  }

  lemma CommitChangesNothing(pages: WalPages, d: Directory, c: Cut)
    ensures ReplayUpTo([Commit], pages, d, c) == d
  {
    assert Expand(Commit, pages, d) == Some([]);
  }

  /** The cut came before the catalog file was overwritten. */
  predicate BeforeCatalog(c: Cut) {
    c.records == 0 || c == Cut(1, 0)
  }

  lemma RestCut(pages: WalPages, d: Directory, c: Cut)
    ensures ReplayUpTo([CatalogRecord, Commit], pages, d, c) ==
            if c == Cut(0, 0) then d else Apply(Overwrite(Catalog), d)
  {
    var over, e := [Overwrite(Catalog)], Apply(Overwrite(Catalog), d);
    assert [CatalogRecord, Commit][1..] == [Commit];
    assert over[1..] == [] && Prefix(over, 0) == [] && (c.ops > 0 ==> Prefix(over, c.ops) == over);
    assert Run(over, d) == Run(over[1..], e) == e;
    CutUnfolds([CatalogRecord, Commit], pages, d, c, over);
    if c.records > 0 {
      CommitChangesNothing(pages, e, Cut(c.records - 1, c.ops));
    }
  }

  /** Where a cut leaves the directory: among the record's operations, or after the catalog was overwritten. */
  lemma WithCatalogCut(r: Record, pages: WalPages, d: Directory, c: Cut) returns (k: nat)
    requires Expand(r, pages, d).Some?
    ensures var ops := Expand(r, pages, d).value;
            ReplayUpTo(WithCatalog(r), pages, d, c) ==
            if BeforeCatalog(c) then Run(Prefix(ops, k), d) else Apply(Overwrite(Catalog), Run(ops, d))
  {
    WithCatalogTail(r);
    var ops := Expand(r, pages, d).value;
    CutUnfolds(WithCatalog(r), pages, d, c, ops);
    k := if c.records == 0 then c.ops else |ops|;
    if c.records > 0 {
      assert Prefix(ops, k) == ops;
      RestCut(pages, Run(ops, d), Cut(c.records - 1, c.ops));
    }
  }

  ghost predicate OnData(ops: seq<Op>) {
    forall o :: o in ops ==> o.name.Data? && (o.RenameIfExists? || o.RemoveIfExists?)
  }

  lemma {:induction false} DataKeepsCatalog(ops: seq<Op>, d: Directory)
    requires OnData(ops)
    ensures Get(Run(ops, d), Catalog) == Get(d, Catalog)
    decreases |ops|
  {
    if ops != [] {
      assert ops[0] in ops && forall o :: o in ops[1..] ==> o in ops;
      DataKeepsCatalog(ops[1..], Apply(ops[0], d));
    }
  }

  /** COPY and DROP only rename or remove data files, and look their table up in the original catalog. */
  predicate LooksUp(r: Record) {
    r.CopyNodeCsv? || r.CopyRelCsv? || r.DropTable?
  }

  lemma LooksUpOps(r: Record, pages: WalPages, d: Directory)
    requires LooksUp(r) && Expand(r, pages, d).Some?
    ensures OnData(Expand(r, pages, d).value)
    ensures var ops := Expand(r, pages, d).value;
            forall o, x :: o in ops && x in ops && o.name == x.name ==> o == x
  {
    ExpandShape(r, pages, d);
  }

  lemma LooksUpSame(r: Record, pages: WalPages, d: Directory, e: Directory)
    requires LooksUp(r) && Get(d, Catalog).orig == Get(e, Catalog).orig
    ensures Expand(r, pages, d) == Expand(r, pages, e)
  {
  }

  /** Doing some of the renames or removals of a record first is invisible once all are done. */
  lemma {:induction false} OneKindAbsorbs(ops: seq<Op>, done: seq<Op>, d: Directory)
    requires OnData(ops) && (forall o :: o in done ==> o in ops)
    requires forall o, x :: o in ops && x in ops && o.name == x.name ==> o == x
    ensures Run(ops, Run(done, d)) == Run(ops, d)
  {
    var a, b := Run(ops, Run(done, d)), Run(ops, d);
    forall n ensures Get(a, n) == Get(b, n) && (n in a <==> n in b) {
      RunBySlots(ops, Run(done, d), n);
      RunBySlots(done, d, n);
      RunBySlots(ops, d, n);
      OnFileMembers(ops, n);
      OnFileMembers(done, n);
      OneOpAbsorbs(OnFile(ops, n), OnFile(done, n), Get(d, n));
    }
    SameDirectory(a, b);
  }

  lemma {:induction false} OneOpTwice(ops: seq<Op>, s: Slot)
    requires ops != [] && (forall i :: 0 <= i < |ops| ==> ops[i] == ops[0])
    requires ops[0].RenameIfExists? || ops[0].RemoveIfExists?
    ensures RunSlot(ops, s) == ApplySlot(ops[0], s)
    decreases |ops|
  {
    if |ops| > 1 {
      assert ops[1] == ops[0];
      OneOpTwice(ops[1..], ApplySlot(ops[0], s));
    }
  }

  lemma OneOpAbsorbs(ops: seq<Op>, done: seq<Op>, s: Slot)
    requires forall o, x :: o in ops && x in ops ==> o == x
    requires forall o :: o in ops ==> o.RenameIfExists? || o.RemoveIfExists?
    requires forall o :: o in done ==> o in ops
    ensures RunSlot(ops, RunSlot(done, s)) == RunSlot(ops, s)
  {
    if done != [] {
      assert done[0] in ops;
      assert forall i :: 0 <= i < |done| ==> done[i] in ops;
      assert forall i :: 0 <= i < |ops| ==> ops[i] in ops;
      assert ops[0] in ops && ops != [];
      OneOpTwice(done, s);
      OneOpTwice(ops, s);
      OneOpTwice(ops, RunSlot(done, s));
    }
  }

  /** Replaying again after a cut. Before the catalog was overwritten it gives the files of a single replay; after, it
      does what the record does under the new catalog, or throws if that has no such table. */
  lemma ReplayAfterCut(r: Record, pages: WalPages, d: Directory, c: Cut)
    requires LooksUp(r) && Expand(r, pages, d).Some? && Get(d, Catalog).wal.Some?
    ensures var log, ops := WithCatalog(r), Expand(r, pages, d).value;
            var done := Apply(Overwrite(Catalog), Run(ops, d));
            && Replay(log, pages, d) == Some(done)
            && Replay(log, pages, ReplayUpTo(log, pages, d, c)) ==
               if BeforeCatalog(c) then Some(done)
               else if Expand(r, pages, done).None? then None
               else Some(Apply(Overwrite(Catalog), Run(Expand(r, pages, done).value, done)))
  {
    var ops := Expand(r, pages, d).value;
    LooksUpOps(r, pages, d);
    WithCatalogReplay(r, pages, d);
    var k := WithCatalogCut(r, pages, d, c);
    var e := ReplayUpTo(WithCatalog(r), pages, d, c);
    WithCatalogReplay(r, pages, e);
    if BeforeCatalog(c) {
      var some := Prefix(ops, k);
      assert forall o :: o in some ==> o in ops;
      DataKeepsCatalog(some, d);
      LooksUpSame(r, pages, d, e);
      OneKindAbsorbs(ops, some, d);
    }
  }

  /** A dropped table can be recovered again, with the files of a single replay, exactly when the crash came before the
      catalog file was overwritten: DROP_TABLE looks the table up in the ORIGINAL catalog. */
  lemma DropTableRecoverable(isNode: bool, t: nat, pages: WalPages, d: Directory, c: Cut)
    requires var cat := Get(d, Catalog);
             && (if isNode then HasNode(cat.orig, t) else HasRel(cat.orig, t))
             && cat.wal.Some? && !(if isNode then HasNode(cat.wal, t) else HasRel(cat.wal, t))
    ensures var log := WithCatalog(DropTable(isNode, t));
            && Replay(log, pages, d).Some?
            && (Replay(log, pages, ReplayUpTo(log, pages, d, c)) == Replay(log, pages, d) <==> BeforeCatalog(c))
            && (Replay(log, pages, ReplayUpTo(log, pages, d, c)).None? <==> !BeforeCatalog(c))
  {
    var r := DropTable(isNode, t);
    ReplayAfterCut(r, pages, d, c);
    LooksUpOps(r, pages, d);
    var d1 := Run(Expand(r, pages, d).value, d);
    DataKeepsCatalog(Expand(r, pages, d).value, d);
    assert Get(Apply(Overwrite(Catalog), d1), Catalog).orig == Get(d, Catalog).wal;
  }

  /** The new catalog still has the copied table, and names no file with a WAL version that the old one did not. */
  ghost predicate CopyStays(r: Record, pages: WalPages, d: Directory)
    requires Expand(r, pages, d).Some?
  {
    var again := Expand(r, pages, Apply(Overwrite(Catalog), d));
    && again.Some?
    && forall o :: o in again.value && Get(d, o.name).wal.Some? ==> o in Expand(r, pages, d).value
  }

  /** A COPY record that finds its table, in a log that replaces the catalog. */
  predicate Copies(r: Record, pages: WalPages, d: Directory) {
    (r.CopyNodeCsv? || r.CopyRelCsv?) && Expand(r, pages, d).Some? && Get(d, Catalog).wal.Some?
  }

  /** The operations done, and the catalog overwritten. */
  function Done(ops: seq<Op>, d: Directory): Directory {
    Apply(Overwrite(Catalog), Run(ops, d))
  }

  /** A COPY whose log also overwrites the catalog is recoverable exactly when the copy stays. */
  lemma CopyRecoverableExactly(r: Record, pages: WalPages, d: Directory)
    requires Copies(r, pages, d)
    ensures Recoverable(WithCatalog(r), pages, d) <==> CopyStays(r, pages, d)
  {
    var log, ops := WithCatalog(r), Expand(r, pages, d).value;
    WithCatalogReplay(r, pages, d);
    if CopyStays(r, pages, d) {
      forall cuts ensures Replay(log, pages, ReplayCuts(log, pages, d, cuts)) == Replay(log, pages, d) {
        assert Run([], d) == d;
        CopySeries(r, pages, d, d, Some([]), cuts);
      }
    } else {
      var done := Done(ops, d);
      ReplayAfterCut(r, pages, d, Cut(2, 0));
      OneCut(log, pages, d, Cut(2, 0));
      CopyStateExpands(r, pages, d, done, None);
      if Expand(r, pages, done).Some? {
        var again := Expand(r, pages, done).value;
        var o :| o in again && Get(d, o.name).wal.Some? && o !in ops;
        CopyOps(r, pages, d);
        CopyOps(r, pages, done);
        CopyMoves(ops, again, d, o);
      }
      assert Replay(log, pages, ReplayCuts(log, pages, d, [Cut(2, 0)])) != Replay(log, pages, d);
    }
  }

  lemma CopyOps(r: Record, pages: WalPages, d: Directory)
    requires (r.CopyNodeCsv? || r.CopyRelCsv?) && Expand(r, pages, d).Some?
    ensures forall o :: o in Expand(r, pages, d).value ==> o.RenameIfExists? && o.name.Data?
  {
    ExpandShape(r, pages, d);
  }

  lemma {:induction false} NotOnFile(ops: seq<Op>, n: FileName)
    requires forall o :: o in ops ==> o.name != n
    ensures OnFile(ops, n) == []
    decreases |ops|
  {
    if ops != [] {
      assert ops[0] in ops && forall o :: o in ops[1..] ==> o in ops;
      NotOnFile(ops[1..], n);
    }
  }

  lemma RenameOnce(ops: seq<Op>, n: FileName, s: Slot)
    requires RenameIfExists(n) in ops && forall o :: o in ops ==> o.RenameIfExists?
    ensures RunSlot(OnFile(ops, n), s) == ApplySlot(RenameIfExists(n), s)
  {
    var l := OnFile(ops, n);
    OnFileMembers(ops, n);
    assert RenameIfExists(n) in l;
    assert forall i :: 0 <= i < |l| ==> l[i] in l;
    OneOpTwice(l, s);
  }

  /** A file the old schema did not name keeps its WAL version at first and loses it when the log is replayed again. */
  lemma CopyMoves(ops: seq<Op>, again: seq<Op>, d: Directory, o: Op)
    requires forall x :: (x in ops || x in again) ==> x.RenameIfExists? && x.name.Data?
    requires o in again && o !in ops && Get(d, o.name).wal.Some?
    ensures Done(again, Done(ops, d)) != Done(ops, d)
  {
    assert forall x :: x in ops && x.name == o.name ==> x == o;
    NotOnFile(ops, o.name);
    RunBySlots(ops, d, o.name);
    RunBySlots(again, Done(ops, d), o.name);
    RenameOnce(again, o.name, Get(Done(ops, d), o.name));
    assert Get(Done(ops, d), o.name) == Get(d, o.name);
    assert Get(Done(again, Done(ops, d)), o.name).wal.None?;
  }

  lemma NothingLeft(ops: seq<Op>, some: seq<Op>, d: Directory, n: FileName)
    requires forall x :: (x in ops || x in some) ==> x.RenameIfExists? && x.name.Data?
    requires forall x :: x in some && Get(d, x.name).wal.Some? ==> x in ops
    ensures RunSlot(OnFile(some, n), Get(Done(ops, d), n)) == Get(Done(ops, d), n)
  {
    var o := RenameIfExists(n);
    if o in some {
      RenameOnce(some, n, Get(Done(ops, d), n));
      RunBySlots(ops, d, n);
      if Get(d, n).wal.Some? {
        RenameOnce(ops, n, Get(d, n));
      } else {
        OnFileMembers(ops, n);
        RenamesNeedWal(OnFile(ops, n), Get(d, n));
      }
    } else {
      assert forall x :: x in some && x.name == n ==> x == o;
      NotOnFile(some, n);
    }
  }

  lemma {:induction false} RenamesNeedWal(ops: seq<Op>, s: Slot)
    requires s.wal.None? && forall o :: o in ops ==> o.RenameIfExists?
    ensures RunSlot(ops, s) == s
    decreases |ops|
  {
    if ops != [] {
      assert ops[0] in ops && forall o :: o in ops[1..] ==> o in ops;
      RenamesNeedWal(ops[1..], s);
    }
  }

  /** If the copy stays, the renames under the new catalog find nothing left to do, even some of them. */
  lemma CopyDone(ops: seq<Op>, some: seq<Op>, d: Directory)
    requires forall x :: (x in ops || x in some) ==> x.RenameIfExists? && x.name.Data?
    requires forall x :: x in some && Get(d, x.name).wal.Some? ==> x in ops
    ensures Run(some, Done(ops, d)) == Done(ops, d) && Done(some, Done(ops, d)) == Done(ops, d)
  {
    var done := Done(ops, d);
    forall n ensures Get(Run(some, done), n) == Get(done, n) {
      RunBySlots(some, done, n);
      NothingLeft(ops, some, d, n);
    }
    SameDirectory(Run(some, done), done);
    SameDirectory(Done(some, done), done);
  }

  /** The directories a series of cut replays goes through: some renames done, or all of them and the catalog. */
  predicate CopyState(ops: seq<Op>, d: Directory, e: Directory, some: Option<seq<Op>>) {
    if some.None? then e == Done(ops, d) else (forall o :: o in some.value ==> o in ops) && e == Run(some.value, d)
  }

  /** What the record expands to in such a directory. */
  lemma CopyStateExpands(r: Record, pages: WalPages, d: Directory, e: Directory, some: Option<seq<Op>>)
    requires Copies(r, pages, d) && CopyState(Expand(r, pages, d).value, d, e, some)
    ensures Expand(r, pages, e) == Expand(r, pages, if some.Some? then d else Apply(Overwrite(Catalog), d))
  {
    var ops := Expand(r, pages, d).value;
    LooksUpOps(r, pages, d);
    DataKeepsCatalog(ops, d);
    if some.Some? {
      DataKeepsCatalog(some.value, d);
    }
    LooksUpSame(r, pages, e, if some.Some? then d else Apply(Overwrite(Catalog), d));
  }

  /** From each of them a replay leaves the directory of the first, and a cut another of them. */
  lemma CopyStateRuns(r: Record, pages: WalPages, d: Directory, e: Directory, some: Option<seq<Op>>)
    requires Copies(r, pages, d) && CopyStays(r, pages, d) && CopyState(Expand(r, pages, d).value, d, e, some)
    ensures Expand(r, pages, e).Some? && Done(Expand(r, pages, e).value, e) == Done(Expand(r, pages, d).value, d)
  {
    var ops := Expand(r, pages, d).value;
    CopyStateExpands(r, pages, d, e, some);
    CopyOps(r, pages, d);
    if some.None? {
      CopyOps(r, pages, e);
      CopyDone(ops, Expand(r, pages, e).value, d);
    } else {
      LooksUpOps(r, pages, d);
      OneKindAbsorbs(ops, some.value, d);
    }
  }

  lemma CopyStateCut(r: Record, pages: WalPages, d: Directory, e: Directory, some: Option<seq<Op>>, c: Cut)
    returns (more: Option<seq<Op>>)
    requires Copies(r, pages, d) && CopyStays(r, pages, d) && CopyState(Expand(r, pages, d).value, d, e, some)
    ensures CopyState(Expand(r, pages, d).value, d, ReplayUpTo(WithCatalog(r), pages, e, c), more)
  {
    var ops := Expand(r, pages, d).value;
    CopyStateRuns(r, pages, d, e, some);
    var k := WithCatalogCut(r, pages, e, c);
    if !BeforeCatalog(c) {
      return None;
    }
    CopyStateExpands(r, pages, d, e, some);
    var front := Prefix(Expand(r, pages, e).value, k);
    assert forall o :: o in front ==> o in Expand(r, pages, e).value;
    if some.None? {
      CopyOps(r, pages, d);
      CopyOps(r, pages, e);
      CopyDone(ops, front, d);
      more := None;
    } else {
      RunConcat(some.value, front, d);
      more := Some(some.value + front);
    }
  }

  lemma {:induction false} CopySeries(r: Record, pages: WalPages, d: Directory, e: Directory, some: Option<seq<Op>>,
                                      cuts: seq<Cut>)
    requires Copies(r, pages, d) && CopyStays(r, pages, d) && CopyState(Expand(r, pages, d).value, d, e, some)
    ensures Replay(WithCatalog(r), pages, ReplayCuts(WithCatalog(r), pages, e, cuts))
            == Some(Done(Expand(r, pages, d).value, d))
    decreases |cuts|
  {
    if cuts == [] {
      CopyStateRuns(r, pages, d, e, some);
      WithCatalogReplay(r, pages, e);
    } else {
      var more := CopyStateCut(r, pages, d, e, some, cuts[0]);
      CopySeries(r, pages, d, ReplayUpTo(WithCatalog(r), pages, e, cuts[0]), more, cuts[1..]);
    }
  }

  // ---------------------------------------------------------------------------------------------
  // Records before a rename
  // ---------------------------------------------------------------------------------------------

  /** Operations `a` without a rename, then renames `b` of the same file: settled if and only if there is nothing to
      rename or `a` leaves the renamed contents as they are. */
  lemma BeforeRenames(a: seq<Op>, b: seq<Op>, s: Slot)
    requires (forall i :: 0 <= i < |a| ==> !a[i].RenameIfExists?) && (forall i :: 0 <= i < |b| ==> b[i].RenameIfExists?)
    ensures Settled(a + b, s) <==> s.wal.None? || b == [] || RunSlot(a, Slot(s.wal, None)) == Slot(s.wal, None)
  {
    var l, w := a + b, Slot(s.wal, None);
    var i := FirstRename(l);
    if b != [] {
      assert l[|a|].RenameIfExists?;
      assert i == |a| && l[i + 1..] == b[1..];
    }
    RunSlotConcat(a, b, w);
    NoRenameKeepsWal(a, w);
    RenamesNeedWal(b, RunSlot(a, w));
    if b != [] {
      RenamesNeedWal(b[1..], w);
    }
  }

  lemma SameOpsRun(a: seq<Op>, o: Op, s: Slot)
    requires a != [] && (forall x :: x in a ==> x == o) && o.Create?
    ensures RunSlot(a, s) == ApplySlot(o, s)
    decreases |a|
  {
    assert a[0] in a && forall x :: x in a[1..] ==> x in a;
    if |a| > 1 {
      SameOpsRun(a[1..], o, ApplySlot(o, s));
    }
  }

  lemma {:induction false} CreatedContents(t: nat, props: seq<Property>)
    ensures forall o :: o in CreateNodeFiles(t, props) ==>
                          o.Create? && o.name.Data? && o == CreateFile(o.name.path, o.name.kind, 0)
  {
    if props != [] {
      CreatedContents(t, props[1..]);
    }
  }

  /** CREATE and COPY of one table in one log. */
  function CreateCopy(t: nat): seq<Record> {
    [NodeTableRecord(t), CatalogRecord, CopyNodeCsv(t), Commit]
  }

  lemma SteadyCons(r: Record, rest: seq<Record>, log: seq<Record>, pages: WalPages, d: Directory, ops: seq<Op>)
    requires Expand(r, pages, d) == Some(ops) && SteadyAt(r, log, pages, d) && Steady(rest, log, pages, Run(ops, d))
    ensures Steady([r] + rest, log, pages, d)
    ensures OpsFrom([r] + rest, pages, d) == ops + OpsFrom(rest, pages, Run(ops, d))
  {
    assert ([r] + rest)[1..] == rest;
  }

  lemma SteadyCommit(log: seq<Record>, pages: WalPages, d: Directory)
    ensures Steady([Commit], log, pages, d) && OpsFrom([Commit], pages, d) == []
  {
    assert Steady([], log, pages, Run([], d));
    SteadyCons(Commit, [], log, pages, d, []);
    assert [Commit] + [] == [Commit];
  }

  lemma AdvancedCatalog(log: seq<Record>, d: Directory, c: bool, s: bool)
    ensures Get(Advanced(log, d, c, s), Catalog) == Get(d, Catalog)
            || Get(Advanced(log, d, c, s), Catalog) == ApplySlot(Overwrite(Catalog), Get(d, Catalog))
  {
  }

  /** A record that reads the catalog only, and reads the same in the overwritten one, is steady. */
  lemma ReadsCatalog(r: Record, log: seq<Record>, pages: WalPages, d: Directory)
    requires r.NodeTableRecord? || r.CopyNodeCsv?
    requires Expand(r, pages, d).Some? && Expand(r, pages, Apply(Overwrite(Catalog), d)) == Expand(r, pages, d)
    ensures SteadyAt(r, log, pages, d)
  {
    forall c, s ensures Expand(r, pages, Advanced(log, d, c, s)) == Expand(r, pages, d) {
      AdvancedCatalog(log, d, c, s);
    }
  }

  lemma CreateCopySteady(t: nat, pages: WalPages, d: Directory, d1: Directory, d2: Directory)
    requires HasNode(Get(d, Catalog).wal, t) && Get(d, Catalog).orig.Some?
    requires Get(d1, Catalog) == Get(d, Catalog) && d2 == Apply(Overwrite(Catalog), d1)
    ensures var log, props := CreateCopy(t), Get(d, Catalog).wal.value.nodes[t].props;
            && SteadyAt(NodeTableRecord(t), log, pages, d) && SteadyAt(CatalogRecord, log, pages, d1)
            && SteadyAt(CopyNodeCsv(t), log, pages, d2)
            && Expand(CopyNodeCsv(t), pages, d2) == Some(NodeFileOps(ReplaceFromWal, t, props))
  {
    assert Get(d2, Catalog) == Slot(Get(d, Catalog).wal, Get(d, Catalog).wal);
    OverwriteTwice(d1);
    ReadsCatalog(CopyNodeCsv(t), CreateCopy(t), pages, d2);
    ReadsCatalog(NodeTableRecord(t), CreateCopy(t), pages, d);
  }

  lemma OverwriteTwice(d: Directory)
    ensures Apply(Overwrite(Catalog), Apply(Overwrite(Catalog), d)) == Apply(Overwrite(Catalog), d)
  {
    SameDirectory(Apply(Overwrite(Catalog), Apply(Overwrite(Catalog), d)), Apply(Overwrite(Catalog), d));
  }

  lemma CreateCopyOps(t: nat, pages: WalPages, d: Directory)
    requires HasNode(Get(d, Catalog).wal, t) && Get(d, Catalog).orig.Some?
    ensures var props := Get(d, Catalog).wal.value.nodes[t].props;
            && Steady(CreateCopy(t), CreateCopy(t), pages, d)
            && OpsFrom(CreateCopy(t), pages, d)
               == CreateNodeFiles(t, props) + [Overwrite(Catalog)] + NodeFileOps(ReplaceFromWal, t, props)
  {
    var log, props := CreateCopy(t), Get(d, Catalog).wal.value.nodes[t].props;
    var create := CreateNodeFiles(t, props);
    var d1 := Run(create, d);
    CreatedContents(t, props);
    CreatesKeepCatalog(create, d);
    CreateCopySteady(t, pages, d, d1, Apply(Overwrite(Catalog), d1));
    CopyAfterCatalog(t, props, log, pages, d1);
    var rest := [CatalogRecord] + ([CopyNodeCsv(t)] + [Commit]);
    SteadyCons(NodeTableRecord(t), rest, log, pages, d, create);
    assert log == [NodeTableRecord(t)] + rest;
    var over, copy := [Overwrite(Catalog)], NodeFileOps(ReplaceFromWal, t, props);
    assert create + (over + copy) == create + over + copy;
  }

  lemma CopyAfterCatalog(t: nat, props: seq<Property>, log: seq<Record>, pages: WalPages, d1: Directory)
    requires var d2 := Apply(Overwrite(Catalog), d1);
             && SteadyAt(CatalogRecord, log, pages, d1) && SteadyAt(CopyNodeCsv(t), log, pages, d2)
             && Expand(CopyNodeCsv(t), pages, d2) == Some(NodeFileOps(ReplaceFromWal, t, props))
    ensures var rest := [CatalogRecord] + ([CopyNodeCsv(t)] + [Commit]);
            && Steady(rest, log, pages, d1)
            && OpsFrom(rest, pages, d1) == [Overwrite(Catalog)] + NodeFileOps(ReplaceFromWal, t, props)
  {
    var over, copy, d2 := [Overwrite(Catalog)], NodeFileOps(ReplaceFromWal, t, props), Apply(Overwrite(Catalog), d1);
    assert over[1..] == [] && Run(over, d1) == Run(over[1..], d2) == d2;
    SteadyCommit(log, pages, Run(copy, d2));
    SteadyCons(CopyNodeCsv(t), [Commit], log, pages, d2, copy);
    assert copy + [] == copy;
    SteadyCons(CatalogRecord, [CopyNodeCsv(t)] + [Commit], log, pages, d1, over);
  }

  lemma {:induction false} CreatesKeepCatalog(ops: seq<Op>, d: Directory)
    requires forall o :: o in ops ==> o.name.Data?
    ensures Get(Run(ops, d), Catalog) == Get(d, Catalog) && Get(Run(ops, d), NodeStats) == Get(d, NodeStats)
    decreases |ops|
  {
    if ops != [] {
      assert ops[0] in ops && forall o :: o in ops[1..] ==> o in ops;
      CreatesKeepCatalog(ops[1..], Apply(ops[0], d));
    }
  }

  /** Such a log is recoverable exactly when no file it creates and renames has a WAL version other than what CREATE
      writes: cut after the rename, the next replay creates the file anew over the copied data. */
  lemma CreateThenCopyExactly(t: nat, pages: WalPages, d: Directory)
    requires HasNode(Get(d, Catalog).wal, t) && Get(d, Catalog).orig.Some?
    ensures var props := Get(d, Catalog).wal.value.nodes[t].props;
            Recoverable(CreateCopy(t), pages, d) <==>
            forall p, k :: CreateFile(p, k, 0) in CreateNodeFiles(t, props)
                           && RenameIfExists(Data(p, k)) in NodeFileOps(ReplaceFromWal, t, props) ==>
                             var w := Get(d, Data(p, k)).wal; w.None? || w == Some(CreateFile(p, k, 0).content)
  {
    var props := Get(d, Catalog).wal.value.nodes[t].props;
    var create, copy := CreateNodeFiles(t, props), NodeFileOps(ReplaceFromWal, t, props);
    CreateCopyOps(t, pages, d);
    ReplayIdempotent(CreateCopy(t), pages, d);
    var ops := OpsFrom(CreateCopy(t), pages, d);
    if AllSettled(ops, d) {
      forall p, k | CreateFile(p, k, 0) in create && RenameIfExists(Data(p, k)) in copy
        ensures var w := Get(d, Data(p, k)).wal; w.None? || w == Some(CreateFile(p, k, 0).content)
      {
        assert Settled(OnFile(ops, Data(p, k)), Get(d, Data(p, k)));
        CreateCopyFile(t, props, p, k, Get(d, Data(p, k)));
      }
    } else {
      var n :| !Settled(OnFile(ops, n), Get(d, n));
      if n.Data? {
        CreateCopyFile(t, props, n.path, n.kind, Get(d, n));
      } else {
        CreateCopyOther(t, props, n, Get(d, n));
      }
    }
  }

  lemma CreateCopyOther(t: nat, props: seq<Property>, n: FileName, s: Slot)
    requires !n.Data?
    ensures Settled(OnFile(CreateNodeFiles(t, props) + [Overwrite(Catalog)] + NodeFileOps(ReplaceFromWal, t, props),
                           n), s)
  {
    var ops := CreateNodeFiles(t, props) + [Overwrite(Catalog)] + NodeFileOps(ReplaceFromWal, t, props);
    CreatedContents(t, props);
    NodeFileOpsOwned(CopyNodeCsv(t), ReplaceFromWal, t, props);
    OnFileMembers(ops, n);
    var l := OnFile(ops, n);
    assert forall i :: 0 <= i < |l| ==> l[i] in l;
    RenameFirstSettles(l, s);
  }

  /** The operations on one file: creations of it, then renames of it. */
  lemma CreateCopyParts(t: nat, props: seq<Property>, p: Path, k: Kind)
    ensures var create, copy := CreateNodeFiles(t, props), NodeFileOps(ReplaceFromWal, t, props);
            var a, b := OnFile(create, Data(p, k)), OnFile(copy, Data(p, k));
            && OnFile(create + [Overwrite(Catalog)] + copy, Data(p, k)) == a + b
            && (forall o :: o in a ==> o == CreateFile(p, k, 0))
               && (forall o :: o in b ==> o == RenameIfExists(Data(p, k)))
            && (a != [] <==> CreateFile(p, k, 0) in create) && (b != [] <==> RenameIfExists(Data(p, k)) in copy)
  {
    var n := Data(p, k);
    var create, copy := CreateNodeFiles(t, props), NodeFileOps(ReplaceFromWal, t, props);
    var a, b := OnFile(create, n), OnFile(copy, n);
    CreatedContents(t, props);
    NodeFileOpsOwned(CopyNodeCsv(t), ReplaceFromWal, t, props);
    OnFileMembers(create, n);
    OnFileMembers(copy, n);
    OnFileConcat(create + [Overwrite(Catalog)], copy, n);
    OnFileConcat(create, [Overwrite(Catalog)], n);
    NotOnFile([Overwrite(Catalog)], n);
    assert a + [] == a;
    assert a != [] ==> a[0] in a;
    assert b != [] ==> b[0] in b;
  }

  lemma CreateCopyFile(t: nat, props: seq<Property>, p: Path, k: Kind, s: Slot)
    ensures var create, copy := CreateNodeFiles(t, props), NodeFileOps(ReplaceFromWal, t, props);
            Settled(OnFile(create + [Overwrite(Catalog)] + copy, Data(p, k)), s) <==>
            (CreateFile(p, k, 0) in create && RenameIfExists(Data(p, k)) in copy ==>
               s.wal.None? || s.wal == Some(CreateFile(p, k, 0).content))
  {
    var a := OnFile(CreateNodeFiles(t, props), Data(p, k));
    var b := OnFile(NodeFileOps(ReplaceFromWal, t, props), Data(p, k));
    CreateCopyParts(t, props, p, k);
    assert forall i :: 0 <= i < |a| ==> a[i] in a;
    assert forall i :: 0 <= i < |b| ==> b[i] in b;
    BeforeRenames(a, b, s);
    if a != [] {
      SameOpsRun(a, CreateFile(p, k, 0), Slot(s.wal, None));
    }
  }

  lemma ListsCreatedAndCopied(t: nat)
    ensures CreateFile(NodeUnstrLists(t), Base, 0) in CreateNodeFiles(t, [])
    ensures RenameIfExists(Data(NodeUnstrLists(t), Base)) in NodeFileOps(ReplaceFromWal, t, [])
  {
    var p := NodeUnstrLists(t);
    var lists := CreateLists(p, 0, true, true);
    assert lists[2] == CreateFile(p, Base, 0);
    assert lists[2] in lists + CreateColumn(NodeIndex(t), 0, false);
    assert ListOps(ReplaceFromWal, p)[0] == RenameIfExists(Data(p, Base));
    assert ListOps(ReplaceFromWal, p)[0] in NodeFileOps(ReplaceFromWal, t, []);
  }

  /** The same at one database: the rows copied into a table created in the same log are lost. */
  lemma CreateThenCopyLoses(t: nat, pages: WalPages)
    ensures var was := CatalogImage(map[], map[]);
            var now := CatalogImage(map[t := NodeSchema([])], map[]);
            var d: Directory := map[Catalog := Slot(Some(was), Some(now)),
                                    Data(NodeUnstrLists(t), Base) := Slot(None, Some(Pages([Bytes(7)])))];
            !Recoverable(CreateCopy(t), pages, d)
  {
    var now := CatalogImage(map[t := NodeSchema([])], map[]);
    var p := NodeUnstrLists(t);
    var d: Directory := map[Catalog := Slot(Some(CatalogImage(map[], map[])), Some(now)),
                            Data(p, Base) := Slot(None, Some(Pages([Bytes(7)])))];
    ListsCreatedAndCopied(t);
    CreateThenCopyExactly(t, pages, d);
    assert CreateFile(p, Base, 0).content.pages[0] != Bytes(7);
    assert Get(d, Data(p, Base)).wal == Some(Pages([Bytes(7)]));
  }

  /** A page written and a COPY of its table in one log. */
  function PageCopy(rec: Record, t: nat): seq<Record> {
    [rec, CopyNodeCsv(t), Commit]
  }

  /** The page written into the contents that the rename brings is there already. */
  predicate PageThere(c: Content, idx: nat, page: Page) {
    c.Pages? ==> idx < |c.pages| && c.pages[idx] == page
  }

  lemma PageCopyOps(rec: Record, t: nat, pages: WalPages, d: Directory)
    requires rec.PageUpdateOrInsert? && Get(d, Data(rec.path, rec.kind)).orig.Some? && HasNode(Get(d, Catalog).orig, t)
    ensures var copy := NodeFileOps(ReplaceFromWal, t, Get(d, Catalog).orig.value.nodes[t].props);
            && Steady(PageCopy(rec, t), PageCopy(rec, t), pages, d)
            && OpsFrom(PageCopy(rec, t), pages, d)
               == [WritePage(Data(rec.path, rec.kind), rec.idx, WalPage(pages, rec.walIdx))] + copy
  {
    var log := PageCopy(rec, t);
    var copy := NodeFileOps(ReplaceFromWal, t, Get(d, Catalog).orig.value.nodes[t].props);
    var w := [WritePage(Data(rec.path, rec.kind), rec.idx, WalPage(pages, rec.walIdx))];
    CreatesKeepCatalog(w, d);
    var d1 := Run(w, d);
    SteadyCommit(log, pages, Run(copy, d1));
    SteadyCons(CopyNodeCsv(t), [Commit], log, pages, d1, copy);
    SteadyCons(rec, [CopyNodeCsv(t)] + [Commit], log, pages, d, w);
    assert log == [rec] + ([CopyNodeCsv(t)] + [Commit]);
    assert w + (copy + []) == w + copy;
  }

  /** It is recoverable exactly when the file is not copied, has no WAL version, or the WAL version has that page. */
  lemma PageThenCopyExactly(rec: Record, t: nat, pages: WalPages, d: Directory)
    requires rec.PageUpdateOrInsert? && Get(d, Data(rec.path, rec.kind)).orig.Some? && HasNode(Get(d, Catalog).orig, t)
    ensures var copy := NodeFileOps(ReplaceFromWal, t, Get(d, Catalog).orig.value.nodes[t].props);
            var n := Data(rec.path, rec.kind);
            Recoverable(PageCopy(rec, t), pages, d) <==>
            RenameIfExists(n) !in copy || Get(d, n).wal.None?
            || PageThere(Get(d, n).wal.value, rec.idx, WalPage(pages, rec.walIdx))
  {
    var copy := NodeFileOps(ReplaceFromWal, t, Get(d, Catalog).orig.value.nodes[t].props);
    var file, w := Data(rec.path, rec.kind), WritePage(Data(rec.path, rec.kind), rec.idx, WalPage(pages, rec.walIdx));
    PageCopyOps(rec, t, pages, d);
    ReplayIdempotent(PageCopy(rec, t), pages, d);
    NodeFileOpsOwned(CopyNodeCsv(t), ReplaceFromWal, t, Get(d, Catalog).orig.value.nodes[t].props);
    var ops := OpsFrom(PageCopy(rec, t), pages, d);
    PageBeforeRenames(w, copy, file, Get(d, file));
    if AllSettled(ops, d) {
      assert Settled(OnFile(ops, file), Get(d, file));
    } else {
      var n :| !Settled(OnFile(ops, n), Get(d, n));
      if n != file {
        PageBeforeRenames(w, copy, n, Get(d, n));
      }
    }
  }

  lemma SamePage(s: seq<Page>, idx: nat, page: Page)
    ensures SetPage(s, idx, page) == s <==> PageThere(Pages(s), idx, page)
  {
  }

  lemma PageBeforeRenames(w: Op, copy: seq<Op>, n: FileName, s: Slot)
    requires w.WritePage? && forall o :: o in copy ==> o.RenameIfExists?
    ensures Settled(OnFile([w] + copy, n), s) <==>
            n != w.name || RenameIfExists(n) !in copy || s.wal.None? || PageThere(s.wal.value, w.idx, w.page)
  {
    var a, b := OnFile([w], n), OnFile(copy, n);
    OnFileConcat([w], copy, n);
    OnFileMembers(copy, n);
    assert [w][1..] == [] && a == if w.name == n then [w] else [];
    assert forall i :: 0 <= i < |b| ==> b[i] in b;
    BeforeRenames(a, b, s);
    if b != [] {
      assert b[0] == RenameIfExists(n);
    }
    if n == w.name {
      assert a[1..] == [];
      assert RunSlot(a, Slot(s.wal, None)) == ApplySlot(w, Slot(s.wal, None));
      if s.wal.Some? && s.wal.value.Pages? {
        SamePage(s.wal.value.pages, w.idx, w.page);
      }
    }
  }

  // ---------------------------------------------------------------------------------------------
  // CREATE REL TABLE and the node statistics
  // ---------------------------------------------------------------------------------------------

  function CountOf(stats: map<nat, nat>, n: nat): nat {
    if n in stats then stats[n] else 0
  }

  function NodeOf(p: Path): nat {
    match p
    case AdjColumn(_, n, _) => n
    case AdjLists(_, n, _) => n
    case RelColumn(_, n, _, _) => n
    case RelLists(_, n, _, _) => n
    case _ => 0
  }

  /** The operation creates its file for as many nodes as the statistics say. */
  predicate Sized(o: Op, stats: map<nat, nat>) {
    o.Create? && o.name.Data? && o == CreateFile(o.name.path, o.name.kind, CountOf(stats, NodeOf(o.name.path)))
  }

  lemma {:induction false} RelPropertiesSized(r: nat, n: nat, fwd: bool, single: bool, stats: map<nat, nat>,
                                              props: seq<Property>)
    ensures forall o :: o in CreateRelProperties(r, n, fwd, single, CountOf(stats, n), props) ==> Sized(o, stats)
  {
    if props != [] {
      RelPropertiesSized(r, n, fwd, single, stats, props[1..]);
    }
  }

  function Adjacency(r: nat, n: nat, fwd: bool, single: bool): Path {
    if single then AdjColumn(r, n, fwd) else AdjLists(r, n, fwd)
  }

  /** Every file of a direction is sized by its own table, and each table of the direction has an adjacency file. */
  lemma {:induction false} RelDirectionSized(r: nat, fwd: bool, single: bool, nodes: seq<nat>, stats: map<nat, nat>,
                                             props: seq<Property>)
    ensures forall o :: o in CreateRelDirection(r, fwd, single, nodes, stats, props) ==> Sized(o, stats)
    ensures forall n :: n in nodes ==> CreateFile(Adjacency(r, n, fwd, single), Base, CountOf(stats, n))
                                       in CreateRelDirection(r, fwd, single, nodes, stats, props)
  {
    if nodes != [] {
      var n := nodes[0];
      var p, num := Adjacency(r, n, fwd, single), CountOf(stats, n);
      var adj := if single then CreateColumn(p, num, false) else CreateLists(p, num, true, false);
      assert CreateFile(p, Base, num) == adj[if single then 0 else 2];
      assert CreateFile(p, Base, num) in adj;
      assert forall o :: o in adj ==> Sized(o, stats);
      RelPropertiesSized(r, n, fwd, single, stats, props);
      RelDirectionSized(r, fwd, single, nodes[1..], stats, props);
      assert CreateRelDirection(r, fwd, single, nodes, stats, props) ==
             adj + CreateRelProperties(r, n, fwd, single, num, props)
             + CreateRelDirection(r, fwd, single, nodes[1..], stats, props);
    }
  }

  lemma {:induction false} RelDirectionAgrees(r: nat, fwd: bool, single: bool, nodes: seq<nat>, a: map<nat, nat>,
                                              b: map<nat, nat>, props: seq<Property>)
    requires forall n :: n in nodes ==> CountOf(a, n) == CountOf(b, n)
    ensures CreateRelDirection(r, fwd, single, nodes, a, props) == CreateRelDirection(r, fwd, single, nodes, b, props)
  {
    if nodes != [] {
      assert nodes[0] in nodes && forall n :: n in nodes[1..] ==> n in nodes;
      assert CountOf(a, nodes[0]) == CountOf(b, nodes[0]);
      RelDirectionAgrees(r, fwd, single, nodes[1..], a, b, props);
    }
  }

  /** The statistics that replace the old ones count the same nodes in the tables the relationship joins. */
  ghost predicate StatisticsAgree(s: RelSchema, a: map<nat, nat>, b: Option<Content>) {
    b.None? || (b.value.Statistics? && forall n :: n in s.srcTables || n in s.dstTables ==>
                                                     CountOf(a, n) == CountOf(b.value.numNodes, n))
  }

  function RelStatistics(t: nat): seq<Record> {
    [RelTableRecord(t), TableStatistics(true), Commit]
  }

  predicate CreatesRel(t: nat, d: Directory) {
    && HasRel(Get(d, Catalog).wal, t)
    && Get(d, NodeStats).orig.Some? && Get(d, NodeStats).orig.value.Statistics?
  }

  lemma RelFilesSized(t: nat, s: RelSchema, stats: map<nat, nat>)
    ensures forall o :: o in CreateRelFiles(t, s, stats) ==> Sized(o, stats)
    ensures forall n :: n in s.srcTables ==>
                          CreateFile(Adjacency(t, n, true, s.singleFwd), Base, CountOf(stats, n))
                          in CreateRelFiles(t, s, stats)
    ensures forall n :: n in s.dstTables ==>
                          CreateFile(Adjacency(t, n, false, s.singleBwd), Base, CountOf(stats, n))
                          in CreateRelFiles(t, s, stats)
  {
    RelDirectionSized(t, true, s.singleFwd, s.srcTables, stats, s.props);
    RelDirectionSized(t, false, s.singleBwd, s.dstTables, stats, s.props);
  }

  /** The adjacency file of a joined table is left with that table's node count. */
  lemma RelFileLeft(ops: seq<Op>, stats: map<nat, nat>, d: Directory, p: Path)
    requires (forall o :: o in ops ==> Sized(o, stats)) && CreateFile(p, Base, CountOf(stats, NodeOf(p))) in ops
    ensures Get(Run(ops, d), Data(p, Base)).orig == Some(Pages([Initial(p, Base, CountOf(stats, NodeOf(p)))]))
  {
    var n, o := Data(p, Base), CreateFile(p, Base, CountOf(stats, NodeOf(p)));
    var l := OnFile(ops, n);
    OnFileMembers(ops, n);
    RunBySlots(ops, d, n);
    assert o in l;
    SameOpsRun(l, o, Get(d, n));
  }

  lemma RelStatisticsReplay(t: nat, pages: WalPages, d: Directory)
    requires CreatesRel(t, d)
    ensures var files := CreateRelFiles(t, Get(d, Catalog).wal.value.rels[t], Get(d, NodeStats).orig.value.numNodes);
            var log, done := RelStatistics(t), Apply(Overwrite(NodeStats), Run(files, d));
            Replay(log, pages, d) == Some(done) && ReplayUpTo(log, pages, d, Cut(2, 0)) == done
  {
    var l1, l2, over := [TableStatistics(true), Commit], [Commit], [Overwrite(NodeStats)];
    var files := CreateRelFiles(t, Get(d, Catalog).wal.value.rels[t], Get(d, NodeStats).orig.value.numNodes);
    var d1 := Run(files, d);
    var d2 := Apply(Overwrite(NodeStats), d1);
    assert RelStatistics(t)[1..] == l1 && l1[1..] == l2 && l2[1..] == [];
    assert over[1..] == [] && Run(over, d1) == Run(over[1..], d2) == d2;
    assert Replay(l2, pages, d2) == Replay([], pages, Run([], d2));
    assert Replay(l1, pages, d1) == Replay(l2, pages, d2);
    CutUnfolds(RelStatistics(t), pages, d, Cut(2, 0), files);
    CutUnfolds(l1, pages, d1, Cut(1, 0), over);
    CommitChangesNothing(pages, d2, Cut(0, 0));
  }

  /** A log that creates a relationship table and replaces the node statistics is recoverable exactly when the two
      statistics agree on the tables it joins: the files are sized by the ORIGINAL statistics. */
  lemma RelTableRecoverableExactly(t: nat, pages: WalPages, d: Directory)
    requires CreatesRel(t, d)
    ensures Recoverable(RelStatistics(t), pages, d) <==>
            StatisticsAgree(Get(d, Catalog).wal.value.rels[t], Get(d, NodeStats).orig.value.numNodes,
                            Get(d, NodeStats).wal)
  {
    var s, a := Get(d, Catalog).wal.value.rels[t], Get(d, NodeStats).orig.value.numNodes;
    if StatisticsAgree(s, a, Get(d, NodeStats).wal) {
      RelTableOk(t, pages, d);
      ReplayIdempotent(RelStatistics(t), pages, d);
    } else {
      RelTableFails(t, pages, d);
    }
  }

  /** Under the two statistics the replays leave different adjacency files. */
  lemma RelFilesDiffer(t: nat, s: RelSchema, a: map<nat, nat>, b: map<nat, nat>, n: nat, d: Directory, e: Directory)
    requires (n in s.srcTables || n in s.dstTables) && CountOf(a, n) != CountOf(b, n)
    ensures Apply(Overwrite(NodeStats), Run(CreateRelFiles(t, s, a), d))
            != Apply(Overwrite(NodeStats), Run(CreateRelFiles(t, s, b), e))
  {
    RelFilesSized(t, s, a);
    RelFilesSized(t, s, b);
    var p := if n in s.srcTables then Adjacency(t, n, true, s.singleFwd) else Adjacency(t, n, false, s.singleBwd);
    RelFileLeft(CreateRelFiles(t, s, a), a, d, p);
    RelFileLeft(CreateRelFiles(t, s, b), b, e, p);
    assert Get(Apply(Overwrite(NodeStats), Run(CreateRelFiles(t, s, a), d)), Data(p, Base)).orig
           == Some(Pages([Initial(p, Base, CountOf(a, n))]));
    assert Get(Apply(Overwrite(NodeStats), Run(CreateRelFiles(t, s, b), e)), Data(p, Base)).orig
           == Some(Pages([Initial(p, Base, CountOf(b, n))]));
    assert Pages([Initial(p, Base, CountOf(a, n))]).pages[0] != Pages([Initial(p, Base, CountOf(b, n))]).pages[0];
  }

  lemma RelTableAgain(t: nat, pages: WalPages, d: Directory)
    requires CreatesRel(t, d) && Get(d, NodeStats).wal.Some?
    ensures var s, a := Get(d, Catalog).wal.value.rels[t], Get(d, NodeStats).orig.value.numNodes;
            var done := Apply(Overwrite(NodeStats), Run(CreateRelFiles(t, s, a), d));
            Get(done, NodeStats).orig == Get(d, NodeStats).wal && Get(done, Catalog) == Get(d, Catalog)
  {
    var s, a := Get(d, Catalog).wal.value.rels[t], Get(d, NodeStats).orig.value.numNodes;
    RelFilesSized(t, s, a);
    CreatesKeepCatalog(CreateRelFiles(t, s, a), d);
  }

  lemma RelTableFails(t: nat, pages: WalPages, d: Directory)
    requires CreatesRel(t, d)
    requires !StatisticsAgree(Get(d, Catalog).wal.value.rels[t], Get(d, NodeStats).orig.value.numNodes,
                              Get(d, NodeStats).wal)
    ensures !Recoverable(RelStatistics(t), pages, d)
  {
    var log, s, a := RelStatistics(t), Get(d, Catalog).wal.value.rels[t], Get(d, NodeStats).orig.value.numNodes;
    var done := Apply(Overwrite(NodeStats), Run(CreateRelFiles(t, s, a), d));
    RelStatisticsReplay(t, pages, d);
    OneCut(log, pages, d, Cut(2, 0));
    RelTableAgain(t, pages, d);
    if Get(d, NodeStats).wal.value.Statistics? {
      var b := Get(d, NodeStats).wal.value.numNodes;
      RelStatisticsReplay(t, pages, done);
      var n :| (n in s.srcTables || n in s.dstTables) && CountOf(a, n) != CountOf(b, n);
      RelFilesDiffer(t, s, a, b, n, d, done);
    } else {
      assert Expand(log[0], pages, done).None?;
    }
    assert Replay(log, pages, ReplayCuts(log, pages, d, [Cut(2, 0)])) != Replay(log, pages, d);
  }

  lemma RelFilesAgree(t: nat, s: RelSchema, a: map<nat, nat>, b: map<nat, nat>)
    requires StatisticsAgree(s, a, Some(Statistics(b)))
    ensures CreateRelFiles(t, s, a) == CreateRelFiles(t, s, b)
  {
    RelDirectionAgrees(t, true, s.singleFwd, s.srcTables, a, b, s.props);
    RelDirectionAgrees(t, false, s.singleBwd, s.dstTables, a, b, s.props);
  }

  lemma AdvancedStatistics(log: seq<Record>, d: Directory, c: bool, s: bool)
    ensures var e := Advanced(log, d, c, s);
            && Get(e, Catalog).wal == Get(d, Catalog).wal
            && (Get(e, NodeStats) == Get(d, NodeStats)
                || (TableStatistics(true) in log
                    && Get(e, NodeStats) == ApplySlot(Overwrite(NodeStats), Get(d, NodeStats))))
  {
  }

  lemma RelTableSteady(t: nat, log: seq<Record>, pages: WalPages, d: Directory)
    requires CreatesRel(t, d)
    requires TableStatistics(true) in log ==>
               StatisticsAgree(Get(d, Catalog).wal.value.rels[t], Get(d, NodeStats).orig.value.numNodes,
                               Get(d, NodeStats).wal)
    ensures SteadyAt(RelTableRecord(t), log, pages, d)
  {
    var r, s, a := RelTableRecord(t), Get(d, Catalog).wal.value.rels[t], Get(d, NodeStats).orig.value.numNodes;
    forall c, b ensures Expand(r, pages, Advanced(log, d, c, b)) == Expand(r, pages, d) {
      var e := Advanced(log, d, c, b);
      AdvancedStatistics(log, d, c, b);
      if Get(e, NodeStats).orig != Get(d, NodeStats).orig {
        RelFilesAgree(t, s, a, Get(e, NodeStats).orig.value.numNodes);
      }
    }
  }

  lemma RelTableOk(t: nat, pages: WalPages, d: Directory)
    requires CreatesRel(t, d)
    requires StatisticsAgree(Get(d, Catalog).wal.value.rels[t], Get(d, NodeStats).orig.value.numNodes,
                             Get(d, NodeStats).wal)
    ensures LogOk(RelStatistics(t), pages, d)
  {
    var log := RelStatistics(t);
    RelTableSteady(t, log, pages, d);
    forall r | r in log ensures SteadyAt(r, log, pages, d) {
      if !r.RelTableRecord? {
        AlwaysSteady(r, log, pages, d);
      }
    }
    PlainLogOk(log, pages, d);
  }

  lemma AlwaysSteady(r: Record, log: seq<Record>, pages: WalPages, d: Directory)
    requires r.TableStatistics? || r.CatalogRecord? || r.OverflowFileNextBytePos? || r.Commit?
    ensures SteadyAt(r, log, pages, d)
  {
  }

  lemma PageSteady(r: Record, log: seq<Record>, pages: WalPages, d: Directory)
    requires PageRecord(r, d)
    ensures SteadyAt(r, log, pages, d)
  {
    forall c, s ensures Expand(r, pages, Advanced(log, d, c, s)) == Expand(r, pages, d) {
      if r.PageUpdateOrInsert? {
        assert Get(Advanced(log, d, c, s), Data(r.path, r.kind)) == Get(d, Data(r.path, r.kind));
      }
    }
  }

  // ---------------------------------------------------------------------------------------------
  // What the statements log
  // ---------------------------------------------------------------------------------------------

  predicate WritesOrCreates(r: Record) {
    r.PageUpdateOrInsert? || r.NodeTableRecord? || r.RelTableRecord?
  }

  /** A log with a COPY writes no page and creates no table. */
  predicate CopiesAlone(log: seq<Record>) {
    || (forall r :: r in log ==> !r.CopyNodeCsv? && !r.CopyRelCsv?)
    || (forall r :: r in log ==> !WritesOrCreates(r))
  }

  ghost predicate OfLog(o: Op, log: seq<Record>) {
    exists r :: r in log && OpOfRecord(o, r)
  }

  /** Records that are steady where the replay starts are so wherever it gets, and perform operations of the log. */
  lemma {:induction false} SteadyThroughout(recs: seq<Record>, log: seq<Record>, pages: WalPages, d0: Directory,
                                            d: Directory)
    requires Reached(log, d0, d) && forall r :: r in recs ==> r in log && SteadyAt(r, log, pages, d0)
    ensures Steady(recs, log, pages, d)
    ensures forall o :: o in OpsFrom(recs, pages, d) ==> OfLog(o, log)
    decreases |recs|
  {
    if recs != [] {
      var r := recs[0];
      assert r in recs && forall x :: x in recs[1..] ==> x in recs;
      ExpandStable(r, log, pages, d0, d);
      var ops := Expand(r, pages, d).value;
      forall c, s ensures Expand(r, pages, Advanced(log, d, c, s)) == Expand(r, pages, d) {
        AdvancedReached(log, d0, d, c, s);
        ExpandStable(r, log, pages, d0, Advanced(log, d, c, s));
      }
      ExpandLogOps(r, log, pages, d);
      ExpandShape(r, pages, d);
      ReachedByAll(ops, log, d0, d);
      SteadyThroughout(recs[1..], log, pages, d0, Run(ops, d));
    }
  }

  lemma AdvancedReached(log: seq<Record>, d0: Directory, d: Directory, c: bool, s: bool)
    requires Reached(log, d0, d)
    ensures Reached(log, d0, Advanced(log, d, c, s))
  {
    var d1 := if c && CatalogRecord in log then Apply(Overwrite(Catalog), d) else d;
    if c && CatalogRecord in log {
      ReachedByOne(Overwrite(Catalog), log, d0, d);
    }
    if s && TableStatistics(true) in log {
      ReachedByOne(Overwrite(NodeStats), log, d0, d1);
    }
  }

  lemma PlainLogOk(log: seq<Record>, pages: WalPages, d: Directory)
    requires CopiesAlone(log) && forall r :: r in log ==> SteadyAt(r, log, pages, d)
    ensures LogOk(log, pages, d)
  {
    ReachedAtStart(log, d);
    SteadyThroughout(log, log, pages, d, d);
    var ops := OpsFrom(log, pages, d);
    forall n ensures Settled(OnFile(ops, n), Get(d, n)) {
      PlainFileSettled(ops, log, n, Get(d, n));
    }
  }

  lemma PlainFileSettled(ops: seq<Op>, log: seq<Record>, n: FileName, s: Slot)
    requires CopiesAlone(log) && (forall r :: r in log ==> !r.DropTable?) && forall o :: o in ops ==> OfLog(o, log)
    ensures Settled(OnFile(ops, n), s)
  {
    var l := OnFile(ops, n);
    OnFileMembers(ops, n);
    assert forall i :: 0 <= i < |l| ==> l[i] in l;
    if HasRename(l) {
      var i :| 0 <= i < |l| && l[i].RenameIfExists?;
      assert OfLog(l[i], log) && n.Data?;
      assert OfLog(l[0], log);
    }
    RenameFirstSettles(l, s);
  }

  /** The statements, with what they append to the log themselves. An update logs its pages, and those of the lists it
      rewrites when it commits. */
  datatype Statement =
    | CreateNodeTable(table: nat)
    | CreateRelTable(table: nat)
    | CopyNodes(table: nat)
    | CopyRels(table: nat)
    | Update(updates: seq<Record>, statistics: seq<Record>, lists: seq<Record>)

  /** The complete log. COMMIT follows the statistics and the catalog, where these have changed. */
  function LogOf(s: Statement): seq<Record> {
    match s
    case CreateNodeTable(t) => [NodeTableRecord(t), TableStatistics(true), CatalogRecord, Commit]
    case CreateRelTable(t) => [RelTableRecord(t), TableStatistics(false), CatalogRecord, Commit]
    case CopyNodes(t) => [CopyNodeCsv(t), TableStatistics(true), CatalogRecord, Commit]
    case CopyRels(t) => [CopyRelCsv(t), TableStatistics(false), Commit]
    case Update(updates, statistics, lists) => updates + statistics + lists + [Commit]
  }

  predicate PageRecord(r: Record, d: Directory) {
    r.OverflowFileNextBytePos? || (r.PageUpdateOrInsert? && Get(d, Data(r.path, r.kind)).orig.Some?)
  }

  /** What the statement leaves in the directory: CREATE writes a catalog with the new table; the unstructured
      properties a COPY may add to the catalog have no column file; pages are written to files that are there. */
  predicate Fits(s: Statement, d: Directory) {
    var cat := Get(d, Catalog);
    match s
    case CreateNodeTable(t) => HasNode(cat.wal, t)
    case CreateRelTable(t) => CreatesRel(t, d)
    case CopyNodes(t) =>
      && HasNode(cat.orig, t)
      && (cat.wal.None? || (HasNode(cat.wal, t) && cat.wal.value.nodes[t].props == cat.orig.value.nodes[t].props))
    case CopyRels(t) => HasRel(cat.orig, t)
    case Update(updates, statistics, lists) =>
      && (forall r :: r in updates ==> PageRecord(r, d))
      && (forall r :: r in statistics ==> r.TableStatistics?)
      && (forall r :: r in lists ==> PageRecord(r, d))
  }

  lemma StatementSteady(s: Statement, pages: WalPages, d: Directory, r: Record)
    requires Fits(s, d) && r in LogOf(s)
    ensures SteadyAt(r, LogOf(s), pages, d)
  {
    var log := LogOf(s);
    if PageRecord(r, d) {
      PageSteady(r, log, pages, d);
    } else if r.RelTableRecord? {
      assert TableStatistics(true) !in log;
      RelTableSteady(r.table, log, pages, d);
    } else if r.NodeTableRecord? || r.CopyNodeCsv? {
      ReadsCatalog(r, log, pages, d);
    } else if r.CopyRelCsv? {
      assert CatalogRecord !in log;
    } else {
      AlwaysSteady(r, log, pages, d);
    }
  }

  /** The log of every statement but DROP can be cut anywhere and replayed from the start any number of times. */
  lemma StatementRecoverable(s: Statement, pages: WalPages, d: Directory)
    requires Fits(s, d)
    ensures LogOk(LogOf(s), pages, d) && Recoverable(LogOf(s), pages, d) && Replay(LogOf(s), pages, d).Some?
  {
    forall r | r in LogOf(s) ensures SteadyAt(r, LogOf(s), pages, d) {
      StatementSteady(s, pages, d, r);
    }
    assert CopiesAlone(LogOf(s));
    PlainLogOk(LogOf(s), pages, d);
    ReplayIdempotent(LogOf(s), pages, d);
  }
}

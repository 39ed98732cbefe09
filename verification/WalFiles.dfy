/** The database directory as the WAL replayer sees it: every file has an ORIGINAL and a WAL version,
    and replay is a sequence of single-file operations on that directory
    (src/storage/wal_replayer.cpp, src/storage/wal_replayer_utils.cpp). */
module WalFiles {
  import opened Wrappers

  /** Image of one page. `Bytes(0)` is the all-zero page a write past the end of a file leaves in the gap;
      `Initial` stands for the contents a newly created column or list file is saved with. */
  datatype Page = Bytes(image: int) | Initial(path: Path, kind: Kind, numNodes: nat)

  datatype Kind = Base | Overflow | Metadata | Headers

  datatype Path =
    | NodeColumn(table: nat, prop: nat)
    | NodeUnstrLists(table: nat)
    | NodeIndex(table: nat)
    | AdjColumn(rel: nat, node: nat, fwd: bool)
    | AdjLists(rel: nat, node: nat, fwd: bool)
    | RelColumn(rel: nat, node: nat, fwd: bool, relProp: nat)
    | RelLists(rel: nat, node: nat, fwd: bool, relProp: nat)

  /** The table a data file belongs to. */
  datatype Owner = NodeTable(id: nat) | RelTable(id: nat)

  function OwnerOf(p: Path): Owner {
    match p
    case NodeColumn(t, _) => NodeTable(t)
    case NodeUnstrLists(t) => NodeTable(t)
    case NodeIndex(t) => NodeTable(t)
    case AdjColumn(r, _, _) => RelTable(r)
    case AdjLists(r, _, _) => RelTable(r)
    case RelColumn(r, _, _, _) => RelTable(r)
    case RelLists(r, _, _, _) => RelTable(r)
  }

  datatype FileName = Catalog | NodeStats | RelStats | Data(path: Path, kind: Kind)

  datatype Property = Property(id: nat, hasOverflow: bool)
  datatype NodeSchema = NodeSchema(props: seq<Property>)
  datatype RelSchema = RelSchema(srcTables: seq<nat>, dstTables: seq<nat>,
                                 singleFwd: bool, singleBwd: bool, props: seq<Property>)

  datatype Content =
    | Pages(pages: seq<Page>)
    | CatalogImage(nodes: map<nat, NodeSchema>, rels: map<nat, RelSchema>)
    | Statistics(numNodes: map<nat, nat>)

  /** The two versions of one file: NAME and NAME.wal. */
  datatype Slot = Slot(orig: Option<Content>, wal: Option<Content>)

  /** Names without either version are not in the map, so that equal files are equal maps. */
  type Directory = d: map<FileName, Slot> | NoEmpty(d)

  predicate NoEmpty(d: map<FileName, Slot>) {
    forall n :: n in d ==> d[n] != Slot(None, None)
  }

  function Put(d: Directory, n: FileName, s: Slot): Directory {
    if s == Slot(None, None) then d - {n} else d[n := s]
  }

  function Get(d: Directory, n: FileName): Slot {
    if n in d then d[n] else Slot(None, None)
  }

  /** One durable file operation; replay can be cut between any two of them. */
  datatype Op =
    | WritePage(name: FileName, idx: nat, page: Page)
    | Overwrite(name: FileName)
    | RenameIfExists(name: FileName)
    | Create(name: FileName, content: Content)
    | RemoveIfExists(name: FileName)

  /** pwrite of one page: extends the file, zero-filling any gap. */
  function SetPage(s: seq<Page>, idx: nat, page: Page): (r: seq<Page>)
    ensures |r| == if idx < |s| then |s| else idx + 1
    ensures forall k :: 0 <= k < |r| ==>
                          r[k] == if k == idx then page else if k < |s| then s[k] else Bytes(0)
  {
    if idx < |s| then s[idx := page] else s + seq(idx - |s|, _ => Bytes(0)) + [page]
  }

  function ApplySlot(op: Op, s: Slot): Slot {
    match op
    case WritePage(_, idx, page) =>
      if s.orig.Some? && s.orig.value.Pages? then s.(orig := Some(Pages(SetPage(s.orig.value.pages, idx, page)))) else s
    case Overwrite(_) => if s.wal.Some? && s.orig.Some? then s.(orig := s.wal) else s
    case RenameIfExists(_) => if s.wal.Some? then Slot(s.wal, None) else s
    case Create(_, c) => s.(orig := Some(c))
    case RemoveIfExists(_) => s.(orig := None)
  }

  function Apply(op: Op, d: Directory): Directory {
    Put(d, op.name, ApplySlot(op, Get(d, op.name)))
  }

  function Run(ops: seq<Op>, d: Directory): Directory {
    if ops == [] then d else Run(ops[1..], Apply(ops[0], d))
  }

  lemma {:induction false} RunConcat(a: seq<Op>, b: seq<Op>, d: Directory)
    ensures Run(a + b, d) == Run(b, Run(a, d))
  {
    if a == [] {
      assert a + b == b;
    } else {
      assert (a + b)[1..] == a[1..] + b;
      RunConcat(a[1..], b, Apply(a[0], d));
    }
  }

  // ---------------------------------------------------------------------------------------------
  // File by file
  // ---------------------------------------------------------------------------------------------

  /** The operations on one file. */
  function OnFile(ops: seq<Op>, n: FileName): seq<Op> {
    if ops == [] then [] else (if ops[0].name == n then [ops[0]] else []) + OnFile(ops[1..], n)
  }

  function RunSlot(ops: seq<Op>, s: Slot): Slot {
    if ops == [] then s else RunSlot(ops[1..], ApplySlot(ops[0], s))
  }

  lemma {:induction false} RunSlotConcat(a: seq<Op>, b: seq<Op>, s: Slot)
    ensures RunSlot(a + b, s) == RunSlot(b, RunSlot(a, s))
  {
    if a == [] {
      assert a + b == b;
    } else {
      assert (a + b)[1..] == a[1..] + b;
      RunSlotConcat(a[1..], b, ApplySlot(a[0], s));
    }
  }

  lemma {:induction false} OnFileConcat(a: seq<Op>, b: seq<Op>, n: FileName)
    ensures OnFile(a + b, n) == OnFile(a, n) + OnFile(b, n)
  {
    if a == [] {
      assert a + b == b;
    } else {
      assert (a + b)[1..] == a[1..] + b && (a + b)[0] == a[0];
      OnFileConcat(a[1..], b, n);
      var first := if a[0].name == n then [a[0]] else [];
      assert OnFile(a + b, n) == first + OnFile(a[1..] + b, n);
      assert first + (OnFile(a[1..], n) + OnFile(b, n)) == (first + OnFile(a[1..], n)) + OnFile(b, n);
    }
  }

  lemma {:induction false} OnFileMembers(ops: seq<Op>, n: FileName)
    ensures forall o :: o in OnFile(ops, n) <==> o in ops && o.name == n
  {
    if ops != [] {
      OnFileMembers(ops[1..], n);
    }
  }

  /** A run changes each file by the operations on it. */
  lemma {:induction false} RunBySlots(ops: seq<Op>, d: Directory, n: FileName)
    ensures Get(Run(ops, d), n) == RunSlot(OnFile(ops, n), Get(d, n))
  {
    if ops != [] {
      RunBySlots(ops[1..], Apply(ops[0], d), n);
      assert ops == [ops[0]] + ops[1..];
      if ops[0].name == n {
        assert OnFile(ops, n) == [ops[0]] + OnFile(ops[1..], n);
        assert OnFile(ops, n)[1..] == OnFile(ops[1..], n);
      } else {
        assert OnFile(ops, n) == OnFile(ops[1..], n);
      }
    }
  }

  /** Directories with the same files are equal. */
  lemma SameDirectory(a: Directory, b: Directory)
    requires forall n :: Get(a, n) == Get(b, n)
    ensures a == b
  {
    forall n ensures (n in a <==> n in b) && (n in a ==> a[n] == b[n]) {
      assert Get(a, n) == Get(b, n);
    }
  }

  // ---------------------------------------------------------------------------------------------
  // Cut runs
  // ---------------------------------------------------------------------------------------------

  /** A series of runs, each cut after some operations. */
  function Series(ops: seq<Op>, cuts: seq<nat>, d: Directory): Directory
    decreases |cuts|
  {
    if cuts == [] then d else Series(ops, cuts[1..], Run(Prefix(ops, cuts[0]), d))
  }

  function Prefix(ops: seq<Op>, k: nat): seq<Op> {
    ops[..if k <= |ops| then k else |ops|]
  }

  function SeriesSlot(ops: seq<Op>, cuts: seq<nat>, n: FileName, s: Slot): Slot
    decreases |cuts|
  {
    if cuts == [] then s else SeriesSlot(ops, cuts[1..], n, RunSlot(OnFile(Prefix(ops, cuts[0]), n), s))
  }

  lemma {:induction false} SeriesBySlots(ops: seq<Op>, cuts: seq<nat>, d: Directory, n: FileName)
    ensures Get(Series(ops, cuts, d), n) == SeriesSlot(ops, cuts, n, Get(d, n))
    decreases |cuts|
  {
    if cuts != [] {
      var front := Prefix(ops, cuts[0]);
      RunBySlots(front, d, n);
      SeriesBySlots(ops, cuts[1..], Run(front, d), n);
    }
  }

  lemma {:induction false} SeriesNext(ops: seq<Op>, cuts: seq<nat>, k: nat, d: Directory)
    ensures Series(ops, cuts + [k], d) == Run(Prefix(ops, k), Series(ops, cuts, d))
    decreases |cuts|
  {
    if cuts == [] {
      assert cuts + [k] == [k];
      assert [k][1..] == [];
      assert Series(ops, [k], d) == Series(ops, [k][1..], Run(Prefix(ops, [k][0]), d));
    } else {
      assert (cuts + [k])[1..] == cuts[1..] + [k];
      SeriesNext(ops, cuts[1..], k, Run(Prefix(ops, cuts[0]), d));
    }
  }

  // ---------------------------------------------------------------------------------------------
  // Absorption
  // ---------------------------------------------------------------------------------------------

  lemma SetPageTwice(s: seq<Page>, i: nat, p: Page, j: nat, q: Page)
    ensures SetPage(SetPage(SetPage(s, i, p), j, q), i, p) == SetPage(SetPage(s, j, q), i, p)
    ensures SetPage(SetPage(s, i, p), i, p) == SetPage(s, i, p)
  {
  }

  predicate HasRename(ops: seq<Op>) {
    exists i :: 0 <= i < |ops| && ops[i].RenameIfExists?
  }

  /** Doing `t` early is invisible once `t` is done again later, if there is no WAL version to rename. */
  lemma SlotRepeats(t: Op, o: Op, s: Slot)
    requires s.wal.None? || (!t.RenameIfExists? && !o.RenameIfExists?)
    ensures ApplySlot(t, ApplySlot(o, ApplySlot(t, s))) == ApplySlot(t, ApplySlot(o, s))
    ensures ApplySlot(t, ApplySlot(t, s)) == ApplySlot(t, s)
  {
    if t.WritePage? && s.orig.Some? && s.orig.value.Pages? {
      if o.WritePage? {
        SetPageTwice(s.orig.value.pages, t.idx, t.page, o.idx, o.page);
      } else {
        SetPageTwice(s.orig.value.pages, t.idx, t.page, t.idx, t.page);
      }
    }
  }

  lemma {:induction false} SlotAbsorbs(ops: seq<Op>, t: Op, s: Slot)
    requires t in ops && (s.wal.None? || !HasRename(ops))
    ensures RunSlot(ops, ApplySlot(t, s)) == RunSlot(ops, s)
  {
    var o, rest := ops[0], ops[1..];
    assert !HasRename(ops) ==> !t.RenameIfExists? && !o.RenameIfExists?;
    SlotRepeats(t, o, s);
    if t in rest {
      assert HasRename(rest) ==> HasRename(ops) by {
        if i :| 0 <= i < |rest| && rest[i].RenameIfExists? {
          assert ops[i + 1].RenameIfExists?;
        }
      }
      SlotAbsorbs(rest, t, ApplySlot(o, ApplySlot(t, s)));
      SlotAbsorbs(rest, t, ApplySlot(o, s));
    } else {
      assert t == o;
    }
  }

  /** Without a WAL version to rename, any operations of the list done beforehand are invisible. */
  lemma {:induction false} SlotAbsorbsAll(ops: seq<Op>, done: seq<Op>, s: Slot)
    requires (forall o :: o in done ==> o in ops) && (s.wal.None? || !HasRename(ops))
    ensures RunSlot(ops, RunSlot(done, s)) == RunSlot(ops, s)
    ensures s.wal.None? || RunSlot(done, s).wal == s.wal
    ensures s.wal.None? ==> RunSlot(done, s).wal.None?
    decreases |done|
  {
    if done != [] {
      assert done[0] in ops;
      assert !HasRename(ops) ==> !done[0].RenameIfExists?;
      SlotAbsorbs(ops, done[0], s);
      SlotAbsorbsAll(ops, done[1..], ApplySlot(done[0], s));
    }
  }

  // ---------------------------------------------------------------------------------------------
  // When cut runs are invisible
  // ---------------------------------------------------------------------------------------------

  /** Position of the first rename. */
  function FirstRename(ops: seq<Op>): (i: nat)
    ensures i <= |ops| && (i < |ops| ==> ops[i].RenameIfExists?)
    ensures forall k :: 0 <= k < i ==> !ops[k].RenameIfExists?
  {
    if ops == [] || ops[0].RenameIfExists? then 0 else 1 + FirstRename(ops[1..])
  }

  /** What the operations on a file do before its first rename cannot be seen on the renamed contents. This holds if
      there is no rename, no WAL version to rename, or no operation before the rename; and if what comes before it
      agrees with those contents or is overwritten by what comes after. */
  predicate Settled(ops: seq<Op>, s: Slot) {
    var i := FirstRename(ops);
    s.wal.None? || i == |ops| || RunSlot(ops, Slot(s.wal, None)) == RunSlot(ops[i + 1..], Slot(s.wal, None))
  }

  lemma RenameFirstSettles(ops: seq<Op>, s: Slot)
    requires s.wal.None? || !HasRename(ops) || ops[0].RenameIfExists?
    ensures Settled(ops, s)
  {
    if HasRename(ops) && ops[0].RenameIfExists? && s.wal.Some? {
      assert FirstRename(ops) == 0;
    }
  }

  lemma {:induction false} NoRenameKeepsWal(ops: seq<Op>, s: Slot)
    requires forall k :: 0 <= k < |ops| ==> !ops[k].RenameIfExists?
    ensures RunSlot(ops, s).wal == s.wal
    decreases |ops|
  {
    if ops != [] {
      NoRenameKeepsWal(ops[1..], ApplySlot(ops[0], s));
    }
  }

  /** A run past the first rename goes on from the WAL version, whatever the original was. */
  lemma PastRename(ops: seq<Op>, s: Slot, m: nat)
    requires FirstRename(ops) < m <= |ops| && s.wal.Some?
    ensures RunSlot(ops[..m], s) == RunSlot(ops[FirstRename(ops) + 1..m], Slot(s.wal, None))
  {
    var i := FirstRename(ops);
    var before := ops[..i];
    NoRenameKeepsWal(before, s);
    assert ops[..m] == before + [ops[i]] + ops[i + 1..m];
    RunSlotConcat(before + [ops[i]], ops[i + 1..m], s);
    RunSlotConcat(before, [ops[i]], s);
    assert [ops[i]][1..] == [];
    assert RunSlot([ops[i]], RunSlot(before, s)) == ApplySlot(ops[i], RunSlot(before, s));
  }

  lemma OnPrefix(ops: seq<Op>, k: nat, n: FileName) returns (m: nat)
    ensures m <= |OnFile(ops, n)| && OnFile(Prefix(ops, k), n) == OnFile(ops, n)[..m]
  {
    var front := Prefix(ops, k);
    assert ops == front + ops[|front|..];
    OnFileConcat(front, ops[|front|..], n);
    m := |OnFile(front, n)|;
  }

  /** A state cut runs can leave: the WAL version is still there, or a run from here is one from its contents. */
  ghost predicate CutState(l: seq<Op>, s: Slot, x: Slot) {
    x.wal == s.wal || (x.wal.None? && RunSlot(l, x) == RunSlot(l, Slot(s.wal, None)))
  }

  lemma CutStep(l: seq<Op>, s: Slot, x: Slot, m: nat)
    requires s.wal.Some? && FirstRename(l) < |l| && m <= |l| && CutState(l, s, x)
    ensures CutState(l, s, RunSlot(l[..m], x))
  {
    var i := FirstRename(l);
    if x.wal.None? {
      assert forall o :: o in l[..m] ==> o in l;
      SlotAbsorbsAll(l, l[..m], x);
    } else if m <= i {
      NoRenameKeepsWal(l[..m], x);
    } else {
      PastRename(l, x, m);
      assert forall o :: o in l[i + 1..m] ==> o in l;
      SlotAbsorbsAll(l, l[i + 1..m], Slot(s.wal, None));
    }
  }

  lemma {:induction false} CutStates(ops: seq<Op>, cuts: seq<nat>, n: FileName, s: Slot, x: Slot)
    requires var l := OnFile(ops, n); s.wal.Some? && FirstRename(l) < |l| && CutState(l, s, x)
    ensures CutState(OnFile(ops, n), s, SeriesSlot(ops, cuts, n, x))
    decreases |cuts|
  {
    if cuts != [] {
      var m := OnPrefix(ops, cuts[0], n);
      CutStep(OnFile(ops, n), s, x, m);
      CutStates(ops, cuts[1..], n, s, RunSlot(OnFile(ops, n)[..m], x));
    }
  }

  lemma {:induction false} PlainSeries(ops: seq<Op>, cuts: seq<nat>, n: FileName, s: Slot)
    requires s.wal.None? || !HasRename(OnFile(ops, n))
    ensures RunSlot(OnFile(ops, n), SeriesSlot(ops, cuts, n, s)) == RunSlot(OnFile(ops, n), s)
    decreases |cuts|
  {
    if cuts != [] {
      var l := OnFile(ops, n);
      var m := OnPrefix(ops, cuts[0], n);
      assert forall o :: o in l[..m] ==> o in l;
      SlotAbsorbsAll(l, l[..m], s);
      PlainSeries(ops, cuts[1..], n, RunSlot(l[..m], s));
    }
  }

  /** On a settled file a series of cut runs before a whole one is invisible. */
  lemma SettledSeries(ops: seq<Op>, cuts: seq<nat>, n: FileName, s: Slot)
    requires Settled(OnFile(ops, n), s)
    ensures RunSlot(OnFile(ops, n), SeriesSlot(ops, cuts, n, s)) == RunSlot(OnFile(ops, n), s)
  {
    var l := OnFile(ops, n);
    var i := FirstRename(l);
    if s.wal.None? || i == |l| {
      PlainSeries(ops, cuts, n, s);
    } else {
      CutStates(ops, cuts, n, s, s);
      var x := SeriesSlot(ops, cuts, n, s);
      assert l[..|l|] == l;
      PastRename(l, s, |l|);
      if x.wal.Some? {
        PastRename(l, x, |l|);
      }
    }
  }

  ghost predicate AllSettled(ops: seq<Op>, d: Directory) {
    forall n :: Settled(OnFile(ops, n), Get(d, n))
  }

  ghost predicate CutsInvisible(ops: seq<Op>, d: Directory) {
    forall cuts: seq<nat> :: Run(ops, Series(ops, cuts, d)) == Run(ops, d)
  }

  lemma SettledIsInvisible(ops: seq<Op>, cuts: seq<nat>, d: Directory)
    requires AllSettled(ops, d)
    ensures Run(ops, Series(ops, cuts, d)) == Run(ops, d)
  {
    var a, b := Run(ops, Series(ops, cuts, d)), Run(ops, d);
    forall n ensures Get(a, n) == Get(b, n) {
      SeriesBySlots(ops, cuts, d, n);
      RunBySlots(ops, Series(ops, cuts, d), n);
      RunBySlots(ops, d, n);
      assert Settled(OnFile(ops, n), Get(d, n));
      SettledSeries(ops, cuts, n, Get(d, n));
    }
    SameDirectory(a, b);
  }

  /** Where in the whole list the m-th operation on a file is. */
  lemma {:induction false} PrefixOn(ops: seq<Op>, n: FileName, m: nat) returns (k: nat)
    requires m <= |OnFile(ops, n)|
    ensures k <= |ops| && OnFile(Prefix(ops, k), n) == OnFile(ops, n)[..m]
    decreases |ops|
  {
    if m == 0 {
      k := 0;
    } else {
      var first := if ops[0].name == n then 1 else 0;
      var j := PrefixOn(ops[1..], n, m - first);
      k := j + 1;
      assert ops[..k] == [ops[0]] + ops[1..][..j];
      assert OnFile(ops, n)[..m] == (if first == 1 then [ops[0]] else []) + OnFile(ops[1..], n)[..m - first];
      assert ops[..k][1..] == ops[1..][..j];
    }
  }

  /** Cut just after a rename that is not settled, the next whole run leaves other contents. */
  lemma UnsettledIsVisible(ops: seq<Op>, d: Directory, n: FileName) returns (k: nat)
    requires !Settled(OnFile(ops, n), Get(d, n))
    ensures Get(Run(ops, Series(ops, [k], d)), n) != Get(Run(ops, d), n)
  {
    var l, s := OnFile(ops, n), Get(d, n);
    var i := FirstRename(l);
    k := PrefixOn(ops, n, i + 1);
    SeriesBySlots(ops, [k], d, n);
    assert [k][1..] == [];
    assert SeriesSlot(ops, [k], n, s) == SeriesSlot(ops, [], n, RunSlot(l[..i + 1], s));
    PastRename(l, s, i + 1);
    assert l[i + 1..i + 1] == [];
    RunBySlots(ops, Series(ops, [k], d), n);
    RunBySlots(ops, d, n);
    assert l[..|l|] == l;
    PastRename(l, s, |l|);
  }

  /** Any series of cut runs before a whole one is invisible exactly when every file is settled. */
  lemma CutsInvisibleExactly(ops: seq<Op>, d: Directory)
    ensures CutsInvisible(ops, d) <==> AllSettled(ops, d)
  {
    if AllSettled(ops, d) {
      forall cuts: seq<nat> ensures Run(ops, Series(ops, cuts, d)) == Run(ops, d) {
        SettledIsInvisible(ops, cuts, d);
      }
    } else {
      var n :| !Settled(OnFile(ops, n), Get(d, n));
      var k := UnsettledIsVisible(ops, d, n);
      assert Run(ops, Series(ops, [k], d)) != Run(ops, d);
    }
  }
}

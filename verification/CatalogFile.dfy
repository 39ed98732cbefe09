/** Saving and reading the whole catalog (src/catalog/catalog.cpp:319-374). */
module CatalogFile {
  import opened SerDeser
  import opened CatalogCodec

  /** Schemas by table ID, and the name caches rebuilt when the file is read. */
  datatype Catalog = Catalog(nodes: map<nat, NodeSchema>, rels: map<nat, RelSchema>,
                             nodeNameToID: map<Name, nat>, relNameToID: map<Name, nat>)

  // ---------------------------------------------------------------------------------------------
  // Caches
  // ---------------------------------------------------------------------------------------------

  predicate IsUnstructured(p: Property) {
    p.dataType.typeID == UNSTRUCTURED
  }

  /** The cache maps exactly the names of the unstructured properties, each to its ID. */
  ghost predicate UnstrCacheOk(cache: map<Name, nat>, ps: seq<Property>) {
    && (forall i :: 0 <= i < |ps| && IsUnstructured(ps[i]) ==>
        ps[i].name in cache && cache[ps[i].name] == ps[i].propertyID)
    && (forall n :: n in cache ==> exists i :: 0 <= i < |ps| && IsUnstructured(ps[i]) && ps[i].name == n)
  }

  ghost predicate NodeNamesOk(cache: map<Name, nat>, nodes: map<nat, NodeSchema>) {
    && (forall k :: k in nodes ==> nodes[k].tableName in cache && cache[nodes[k].tableName] == nodes[k].tableID)
    && (forall n :: n in cache ==> exists k :: k in nodes && nodes[k].tableName == n)
  }

  ghost predicate RelNamesOk(cache: map<Name, nat>, rels: map<nat, RelSchema>) {
    && (forall k :: k in rels ==> rels[k].tableName in cache && cache[rels[k].tableName] == rels[k].tableID)
    && (forall n :: n in cache ==> exists k :: k in rels && rels[k].tableName == n)
  }

  ghost predicate CatalogOk(c: Catalog) {
    && |c.nodes| < Range(8) && |c.rels| < Range(8)
    && (forall k {:trigger c.nodes[k]} :: k in c.nodes ==>
          k < Range(8) && NodeOk(c.nodes[k]) && UnstrCacheOk(c.nodes[k].unstrNameToId, c.nodes[k].unstructured))
    && (forall k {:trigger c.rels[k]} :: k in c.rels ==> k < Range(8) && RelOk(c.rels[k]))
    && NodeNamesOk(c.nodeNameToID, c.nodes) && RelNamesOk(c.relNameToID, c.rels)
  }

  // ---------------------------------------------------------------------------------------------
  // Tables in the file, in the order the maps were iterated
  // ---------------------------------------------------------------------------------------------

  /** A table with its key and its ID sets in the order they were written. */
  datatype Table = Node(node: Entry<NodeSchema>) | Rel(rel: Entry<RelSchema>)

  function NodeMap(ts: seq<Table>): map<nat, NodeSchema> {
    if ts == [] then map[]
    else
      var front, last := NodeMap(ts[..|ts| - 1]), ts[|ts| - 1];
      if last.Node? then front[last.node.key := last.node.schema] else front
  }

  function RelMap(ts: seq<Table>): map<nat, RelSchema> {
    if ts == [] then map[]
    else
      var front, last := RelMap(ts[..|ts| - 1]), ts[|ts| - 1];
      if last.Rel? then front[last.rel.key := last.rel.schema] else front
  }

  lemma MapsNext(ts: seq<Table>, t: Table)
    ensures NodeMap(ts + [t]) == if t.Node? then NodeMap(ts)[t.node.key := t.node.schema] else NodeMap(ts)
    ensures RelMap(ts + [t]) == if t.Rel? then RelMap(ts)[t.rel.key := t.rel.schema] else RelMap(ts)
  {
    assert (ts + [t])[..|ts|] == ts;
  }

  function TableSize(t: Table): nat {
    if t.Node? then NodeSize(t.node) else RelSize(t.rel)
  }

  /** The table lies in the file, and its ID sets were written completely. */
  ghost predicate TableWell(file: seq<byte>, o: nat, t: Table) {
    match t
    case Node(e) => NodeOk(e.schema) && Lists(e.first, e.schema.fwd) && Lists(e.second, e.schema.bwd)
      && NodeAt(file, o, e)
    case Rel(e) => RelOk(e.schema) && Lists(e.first, e.schema.src) && Lists(e.second, e.schema.dst) && RelAt(file, o, e)
  }

  lemma NodeIsWell(file: seq<byte>, o: nat, e: Entry<NodeSchema>)
    ensures TableWell(file, o, Node(e)) <==>
            NodeOk(e.schema) && Lists(e.first, e.schema.fwd) && Lists(e.second, e.schema.bwd) && NodeAt(file, o, e)
  {
  }

  lemma RelIsWell(file: seq<byte>, o: nat, e: Entry<RelSchema>)
    ensures TableWell(file, o, Rel(e)) <==>
            RelOk(e.schema) && Lists(e.first, e.schema.src) && Lists(e.second, e.schema.dst) && RelAt(file, o, e)
  {
  }

  lemma TableKept(a: seq<byte>, b: seq<byte>, o: nat, t: Table, end: nat)
    requires TableWell(a, o, t) && Agree(a, b, end) && o + TableSize(t) <= end
    ensures TableWell(b, o, t)
  {
    match t
    case Node(e) => NodeKept(a, b, o, e, end);
    case Rel(e) => RelKept(a, b, o, e, end);
  }

  /** Where tables may lie and how long they are: `well` and `size` abstract from what a table is made of. */
  datatype Layout = Layout(well: (nat, Table) -> bool, size: Table -> nat)

  function Total(size: Table -> nat, ts: seq<Table>): nat {
    if ts == [] then 0 else size(ts[0]) + Total(size, ts[1..])
  }

  /** The tables lie one after the other. */
  ghost predicate Chain(l: Layout, o: nat, ts: seq<Table>)
    decreases |ts|
  {
    ts == [] || (l.well(o, ts[0]) && Chain(l, o + l.size(ts[0]), ts[1..]))
  }

  lemma {:induction false} ChainKept(a: Layout, b: Layout, o: nat, ts: seq<Table>, end: nat)
    requires Chain(a, o, ts) && a.size == b.size && o + Total(a.size, ts) <= end
    requires forall p: nat, t: Table :: a.well(p, t) && p + a.size(t) <= end ==> b.well(p, t)
    ensures Chain(b, o, ts)
    decreases |ts|
  {
    if ts != [] {
      assert a.well(o, ts[0]);
      ChainKept(a, b, o + a.size(ts[0]), ts[1..], end);
    }
  }

  lemma {:induction false} ChainNext(l: Layout, o: nat, ts: seq<Table>, t: Table)
    requires Chain(l, o, ts) && l.well(o + Total(l.size, ts), t)
    ensures Chain(l, o, ts + [t]) && Total(l.size, ts + [t]) == Total(l.size, ts) + l.size(t)
    decreases |ts|
  {
    if ts == [] {
      assert ts + [t] == [t] && [t][1..] == [];
      assert Chain(l, o + l.size(t), []);
    } else {
      assert (ts + [t])[1..] == ts[1..] + [t] && (ts + [t])[0] == ts[0];
      ChainNext(l, o + l.size(ts[0]), ts[1..], t);
    }
  }

  lemma ChainFirst(l: Layout, o: nat, ts: seq<Table>, i: nat)
    requires i < |ts| && Chain(l, o, ts[i..])
    ensures l.well(o, ts[i])
  {
  }

  lemma ChainAfter(l: Layout, o: nat, ts: seq<Table>, i: nat)
    requires i < |ts| && Chain(l, o, ts[i..])
    ensures Chain(l, o + l.size(ts[i]), ts[i + 1..])
    ensures Total(l.size, ts[i..]) == l.size(ts[i]) + Total(l.size, ts[i + 1..])
  {
    assert ts[i..][0] == ts[i] && ts[i..][1..] == ts[i + 1..];
  }

  function SizeOf(): Table -> nat {
    (t: Table) => TableSize(t)
  }

  function TablesSize(ts: seq<Table>): nat {
    Total(SizeOf(), ts)
  }

  ghost function LayoutOf(file: seq<byte>): Layout {
    Layout((o: nat, t: Table) => TableWell(file, o, t), SizeOf())
  }

  ghost predicate TablesAt(file: seq<byte>, o: nat, ts: seq<Table>) {
    Chain(LayoutOf(file), o, ts)
  }

  lemma TablesKept(a: seq<byte>, b: seq<byte>, o: nat, ts: seq<Table>, end: nat)
    requires TablesAt(a, o, ts) && Agree(a, b, end) && o + TablesSize(ts) <= end
    ensures TablesAt(b, o, ts)
  {
    forall p: nat, t: Table | LayoutOf(a).well(p, t) && p + SizeOf()(t) <= end ensures LayoutOf(b).well(p, t) {
      TableKept(a, b, p, t, end);
    }
    ChainKept(LayoutOf(a), LayoutOf(b), o, ts, end);
  }

  /** One more table. */
  lemma TablesNext(file: seq<byte>, o: nat, ts: seq<Table>, t: Table)
    requires TablesAt(file, o, ts) && TableWell(file, o + TablesSize(ts), t)
    ensures TablesAt(file, o, ts + [t]) && TablesSize(ts + [t]) == TablesSize(ts) + TableSize(t)
  {
    var l := LayoutOf(file);
    assert l.well(o + TablesSize(ts), t) == TableWell(file, o + TablesSize(ts), t) && l.size(t) == TableSize(t);
    ChainNext(l, o, ts, t);
  }

  /** A table written behind the others. */
  lemma TableSaved(a: seq<byte>, b: seq<byte>, at: nat, from: nat, ts: seq<Table>, t: Table)
    requires TablesAt(a, at, ts) && Agree(a, b, from) && from == at + TablesSize(ts) && TableWell(b, from, t)
    ensures TablesAt(b, at, ts + [t]) && at + TablesSize(ts + [t]) == from + TableSize(t)
  {
    TablesKept(a, b, at, ts, from);
    TablesNext(b, at, ts, t);
  }

  /** The first of the tables from i on. */
  lemma FirstWell(file: seq<byte>, o: nat, ts: seq<Table>, i: nat)
    requires i < |ts| && TablesAt(file, o, ts[i..])
    ensures TableWell(file, o, ts[i])
  {
    var l := LayoutOf(file);
    ChainFirst(l, o, ts, i);
    assert l.well(o, ts[i]) == TableWell(file, o, ts[i]);
  }

  /** Those behind it. */
  lemma TablesAfter(l: Layout, o: nat, ts: seq<Table>, i: nat)
    requires i < |ts| && l.size == SizeOf() && Chain(l, o, ts[i..])
    ensures Chain(l, o + TableSize(ts[i]), ts[i + 1..])
    ensures TablesSize(ts[i..]) == TableSize(ts[i]) + TablesSize(ts[i + 1..])
  {
    ChainAfter(l, o, ts, i);
    assert SizeOf()(ts[i]) == TableSize(ts[i]);
  }

  // ---------------------------------------------------------------------------------------------
  // Saving
  // ---------------------------------------------------------------------------------------------

  function Without<T>(m: map<nat, T>, todo: set<nat>): map<nat, T> {
    map k | k in m && k !in todo :: m[k]
  }

  lemma WithoutAll<T>(m: map<nat, T>)
    ensures Without(m, m.Keys) == map[] && Without(m, {}) == m
  {
  }

  lemma WithoutLess<T>(m: map<nat, T>, todo: set<nat>, k: nat)
    requires k in todo && k in m
    ensures Without(m, todo - {k}) == Without(m, todo)[k := m[k]]
  {
  }

  /** One pass of the loop: the table with key k goes behind the tables written so far. */
  method SaveNode(k: nat, n: NodeSchema, file: File, at: nat, from: nat, ghost ts: seq<Table>)
    returns (next: nat, ghost t: Table)
    requires k < Range(8) && NodeOk(n) && at <= from == at + TablesSize(ts) <= |file.bytes|
             && TablesAt(file.bytes, at, ts)
    modifies file
    ensures t.Node? && t.node.key == k && t.node.schema == n && TablesAt(file.bytes, at, ts + [t])
    ensures next == at + TablesSize(ts + [t]) <= |file.bytes| && Agree(old(file.bytes), file.bytes, from)
  {
    ghost var e;
    next, e := SerializeNode(k, n, file, from);
    t := Node(e);
    NodeIsWell(file.bytes, from, e);
    TableSaved(old(file.bytes), file.bytes, at, from, ts, t);
  }

  method SaveNodes(nodes: map<nat, NodeSchema>, file: File, at: nat) returns (next: nat, ghost ts: seq<Table>)
    requires at <= |file.bytes| && forall k {:trigger nodes[k]} :: k in nodes ==> k < Range(8) && NodeOk(nodes[k])
    modifies file
    ensures |ts| == |nodes| && (forall t :: t in ts ==> t.Node?) && NodeMap(ts) == nodes && TablesAt(file.bytes, at, ts)
    ensures next == at + TablesSize(ts) <= |file.bytes| && Agree(old(file.bytes), file.bytes, at)
  {
    next, ts := at, [];
    var todo := nodes.Keys;
    WithoutAll(nodes);
    while todo != {}
      invariant todo <= nodes.Keys && |ts| + |todo| == |nodes.Keys|
      invariant (forall t :: t in ts ==> t.Node?) && NodeMap(ts) == Without(nodes, todo)
      invariant TablesAt(file.bytes, at, ts) && Agree(old(file.bytes), file.bytes, at)
      invariant at <= next == at + TablesSize(ts) <= |file.bytes|
    {
      var k :| k in todo;
      ghost var mid, from := file.bytes, next;
      ghost var t;
      next, t := SaveNode(k, nodes[k], file, at, next, ts);
      AgreeTrans(old(file.bytes), mid, file.bytes, at, from);
      MapsNext(ts, t);
      WithoutLess(nodes, todo, k);
      ts := ts + [t];
      todo := todo - {k};
    }
  }

  /** One pass of the loop: the table with key k goes behind the tables written so far. */
  method SaveRel(k: nat, n: RelSchema, file: File, at: nat, from: nat, ghost ts: seq<Table>)
    returns (next: nat, ghost t: Table)
    requires k < Range(8) && RelOk(n) && at <= from == at + TablesSize(ts) <= |file.bytes|
             && TablesAt(file.bytes, at, ts)
    modifies file
    ensures t.Rel? && t.rel.key == k && t.rel.schema == n && TablesAt(file.bytes, at, ts + [t])
    ensures next == at + TablesSize(ts + [t]) <= |file.bytes| && Agree(old(file.bytes), file.bytes, from)
  {
    ghost var e;
    next, e := SerializeRel(k, n, file, from);
    t := Rel(e);
    RelIsWell(file.bytes, from, e);
    TableSaved(old(file.bytes), file.bytes, at, from, ts, t);
  }

  method SaveRels(rels: map<nat, RelSchema>, file: File, at: nat) returns (next: nat, ghost ts: seq<Table>)
    requires at <= |file.bytes| && forall k {:trigger rels[k]} :: k in rels ==> k < Range(8) && RelOk(rels[k])
    modifies file
    ensures |ts| == |rels| && (forall t :: t in ts ==> t.Rel?) && RelMap(ts) == rels && TablesAt(file.bytes, at, ts)
    ensures next == at + TablesSize(ts) <= |file.bytes| && Agree(old(file.bytes), file.bytes, at)
  {
    next, ts := at, [];
    var todo := rels.Keys;
    WithoutAll(rels);
    while todo != {}
      invariant todo <= rels.Keys && |ts| + |todo| == |rels.Keys|
      invariant (forall t :: t in ts ==> t.Rel?) && RelMap(ts) == Without(rels, todo)
      invariant TablesAt(file.bytes, at, ts) && Agree(old(file.bytes), file.bytes, at)
      invariant at <= next == at + TablesSize(ts) <= |file.bytes|
    {
      var k :| k in todo;
      ghost var mid, from := file.bytes, next;
      ghost var t;
      next, t := SaveRel(k, rels[k], file, at, next, ts);
      AgreeTrans(old(file.bytes), mid, file.bytes, at, from);
      MapsNext(ts, t);
      WithoutLess(rels, todo, k);
      ts := ts + [t];
      todo := todo - {k};
    }
  }

  /** The file holds the catalog, its tables in the orders ns and rs. */
  ghost predicate CatalogAt(file: seq<byte>, c: Catalog, ns: seq<Table>, rs: seq<Table>) {
    && (forall t :: t in ns ==> t.Node?) && NodeMap(ns) == c.nodes
    && (forall t :: t in rs ==> t.Rel?) && RelMap(rs) == c.rels
    && CountsAt(file, |ns|, |rs|)
    && TablesAt(file, 16, ns) && TablesAt(file, 16 + TablesSize(ns), rs)
  }

  function CatalogSize(ns: seq<Table>, rs: seq<Table>): nat {
    16 + TablesSize(ns) + TablesSize(rs)
  }

  predicate CountsAt(file: seq<byte>, n: nat, m: nat) {
    IntAt(file, 0, 8, n) && IntAt(file, 8, 8, m)
  }

  lemma CountsKept(a: seq<byte>, b: seq<byte>, n: nat, m: nat, end: nat)
    requires CountsAt(a, n, m) && Agree(a, b, end) && 16 <= end
    ensures CountsAt(b, n, m)
  {
    IntKept(a, b, 0, 8, n, end);
    IntKept(a, b, 8, 8, m, end);
  }

  method SaveCounts(n: nat, m: nat, file: File) returns (next: nat)
    requires n < Range(8) && m < Range(8)
    modifies file
    ensures CountsAt(file.bytes, n, m) && next == 16 <= |file.bytes|
  {
    var at := SerializeInt(n, 8, file, 0);
    ghost var mid := file.bytes;
    next := SerializeInt(m, 8, file, at);
    IntKept(mid, file.bytes, 0, 8, n, at);
  }

  /** saveToFile, over whatever the file held before. */
  method SaveToFile(c: Catalog, file: File)
    returns (next: nat, ghost ns: seq<Table>, ghost rs: seq<Table>)
    requires CatalogOk(c)
    modifies file
    ensures CatalogAt(file.bytes, c, ns, rs) && next == CatalogSize(ns, rs) <= |file.bytes|
  {
    next, ns, rs := SaveParts(c, file, c.nodes, c.rels);
  }

  method SaveParts(ghost c: Catalog, file: File, nodes: map<nat, NodeSchema>, rels: map<nat, RelSchema>)
    returns (next: nat, ghost ns: seq<Table>, ghost rs: seq<Table>)
    requires c.nodes == nodes && c.rels == rels && |nodes| < Range(8) && |rels| < Range(8)
    requires forall k {:trigger nodes[k]} :: k in nodes ==> k < Range(8) && NodeOk(nodes[k])
    requires forall k {:trigger rels[k]} :: k in rels ==> k < Range(8) && RelOk(rels[k])
    modifies file
    ensures CatalogAt(file.bytes, c, ns, rs) && next == CatalogSize(ns, rs) <= |file.bytes|
  {
    var at;
    at, ns := SaveCountsAndNodes(nodes, |rels|, file);
    ghost var mid := file.bytes;
    next, rs := SaveRels(rels, file, at);
    NodesStay(mid, file.bytes, |nodes|, |rels|, ns, at);
  }

  method SaveCountsAndNodes(nodes: map<nat, NodeSchema>, numRels: nat, file: File)
    returns (next: nat, ghost ns: seq<Table>)
    requires |nodes| < Range(8) && numRels < Range(8)
    requires forall k {:trigger nodes[k]} :: k in nodes ==> k < Range(8) && NodeOk(nodes[k])
    modifies file
    ensures |ns| == |nodes| && (forall t :: t in ns ==> t.Node?) && NodeMap(ns) == nodes
    ensures next == 16 + TablesSize(ns) <= |file.bytes|
    ensures CountsAt(file.bytes, |nodes|, numRels) && TablesAt(file.bytes, 16, ns)
  {
    var at := SaveCounts(|nodes|, numRels, file);
    ghost var mid := file.bytes;
    next, ns := SaveNodes(nodes, file, at);
    CountsKept(mid, file.bytes, |nodes|, numRels, at);
  }

  /** Writing the relationship tables leaves the counts and the node tables. */
  lemma NodesStay(a: seq<byte>, b: seq<byte>, n: nat, m: nat, ns: seq<Table>, end: nat)
    requires CountsAt(a, n, m) && TablesAt(a, 16, ns) && Agree(a, b, end) && end == 16 + TablesSize(ns)
    ensures CountsAt(b, n, m) && TablesAt(b, 16, ns)
  {
    CountsKept(a, b, n, m, end);
    TablesKept(a, b, 16, ns, end);
  }

  // ---------------------------------------------------------------------------------------------
  // Reading
  // ---------------------------------------------------------------------------------------------

  function Bare(nodes: map<nat, NodeSchema>): map<nat, NodeSchema> {
    map k | k in nodes :: nodes[k].(unstrNameToId := map[])
  }

  /** What the file does not hold. */
  function Ungenerated(rels: map<nat, RelSchema>): map<nat, RelSchema> {
    map k | k in rels :: rels[k].(numGenerated := NOT_READ)
  }

  lemma BareMapNext(ts: seq<Table>, i: nat)
    requires i < |ts| && ts[i].Node?
    ensures Bare(NodeMap(ts[..i + 1]))
            == Bare(NodeMap(ts[..i]))[ts[i].node.key := ts[i].node.schema.(unstrNameToId := map[])]
  {
    assert ts[..i + 1] == ts[..i] + [ts[i]];
    MapsNext(ts[..i], ts[i]);
  }

  method ReadNodes(bytes: seq<byte>, num: nat, at: nat, ghost ts: seq<Table>)
    returns (nodes: map<nat, NodeSchema>, next: nat)
    requires |ts| == num && TablesAt(bytes, at, ts) && forall t :: t in ts ==> t.Node?
    ensures nodes == Bare(NodeMap(ts)) && next == at + TablesSize(ts)
  {
    nodes, next := map[], at;
    for i := 0 to num
      invariant nodes == Bare(NodeMap(ts[..i]))
      invariant TablesAt(bytes, next, ts[i..]) && next + TablesSize(ts[i..]) == at + TablesSize(ts)
    {
      var key, schema;
      key, schema, next := ReadNextNode(bytes, next, ts, i);
      BareMapNext(ts, i);
      nodes := nodes[key := schema];
    }
    assert ts[..num] == ts && ts[num..] == [];
  }

  lemma NextNode(file: seq<byte>, o: nat, ts: seq<Table>, i: nat)
    requires i < |ts| && ts[i].Node? && TablesAt(file, o, ts[i..])
    ensures var e := ts[i].node;
            NodeOk(e.schema) && Lists(e.first, e.schema.fwd) && Lists(e.second, e.schema.bwd) && NodeAt(file, o, e)
  {
    FirstWell(file, o, ts, i);
    NodeIsWell(file, o, ts[i].node);
  }

  method ReadNextNode(bytes: seq<byte>, at: nat, ghost ts: seq<Table>, ghost i: nat)
    returns (key: nat, schema: NodeSchema, next: nat)
    requires i < |ts| && TablesAt(bytes, at, ts[i..]) && ts[i].Node?
    ensures key == ts[i].node.key && schema == ts[i].node.schema.(unstrNameToId := map[])
    ensures TablesAt(bytes, next, ts[i + 1..]) && next + TablesSize(ts[i + 1..]) == at + TablesSize(ts[i..])
  {
    NextNode(bytes, at, ts, i);
    TablesAfter(LayoutOf(bytes), at, ts, i);
    key, schema, next := DeserializeNode(bytes, at, ts[i].node);
  }

  lemma UngeneratedMapNext(ts: seq<Table>, i: nat)
    requires i < |ts| && ts[i].Rel?
    ensures Ungenerated(RelMap(ts[..i + 1]))
            == Ungenerated(RelMap(ts[..i]))[ts[i].rel.key := ts[i].rel.schema.(numGenerated := NOT_READ)]
  {
    assert ts[..i + 1] == ts[..i] + [ts[i]];
    MapsNext(ts[..i], ts[i]);
  }

  method ReadRels(bytes: seq<byte>, num: nat, at: nat, ghost ts: seq<Table>)
    returns (rels: map<nat, RelSchema>, next: nat)
    requires |ts| == num && TablesAt(bytes, at, ts) && forall t :: t in ts ==> t.Rel?
    ensures rels == Ungenerated(RelMap(ts)) && next == at + TablesSize(ts)
  {
    rels, next := map[], at;
    for i := 0 to num
      invariant rels == Ungenerated(RelMap(ts[..i]))
      invariant TablesAt(bytes, next, ts[i..]) && next + TablesSize(ts[i..]) == at + TablesSize(ts)
    {
      var key, schema;
      key, schema, next := ReadNextRel(bytes, next, ts, i);
      UngeneratedMapNext(ts, i);
      rels := rels[key := schema];
    }
    assert ts[..num] == ts && ts[num..] == [];
  }

  lemma NextRel(file: seq<byte>, o: nat, ts: seq<Table>, i: nat)
    requires i < |ts| && ts[i].Rel? && TablesAt(file, o, ts[i..])
    ensures var e := ts[i].rel;
            RelOk(e.schema) && Lists(e.first, e.schema.src) && Lists(e.second, e.schema.dst) && RelAt(file, o, e)
  {
    FirstWell(file, o, ts, i);
    RelIsWell(file, o, ts[i].rel);
  }

  method ReadNextRel(bytes: seq<byte>, at: nat, ghost ts: seq<Table>, ghost i: nat)
    returns (key: nat, schema: RelSchema, next: nat)
    requires i < |ts| && TablesAt(bytes, at, ts[i..]) && ts[i].Rel?
    ensures key == ts[i].rel.key && schema == ts[i].rel.schema.(numGenerated := NOT_READ)
    ensures TablesAt(bytes, next, ts[i + 1..]) && next + TablesSize(ts[i + 1..]) == at + TablesSize(ts[i..])
  {
    NextRel(bytes, at, ts, i);
    TablesAfter(LayoutOf(bytes), at, ts, i);
    key, schema, next := DeserializeRel(bytes, at, ts[i].rel);
  }

  /** The cache of one table, rebuilt from its properties. */
  method UnstrCache(ps: seq<Property>, ghost cache: map<Name, nat>) returns (r: map<Name, nat>)
    requires UnstrCacheOk(cache, ps)
    ensures r == cache
  {
    r := map[];
    for i := 0 to |ps|
      invariant forall n :: n in r ==> n in cache && r[n] == cache[n]
      invariant forall j :: 0 <= j < i && IsUnstructured(ps[j]) ==> ps[j].name in r
    {
      if ps[i].dataType.typeID == UNSTRUCTURED {
        r := r[ps[i].name := ps[i].propertyID];
      }
    }
  }

  ghost predicate UnstrCachesOk(nodes: map<nat, NodeSchema>) {
    forall k {:trigger nodes[k]} :: k in nodes ==> UnstrCacheOk(nodes[k].unstrNameToId, nodes[k].unstructured)
  }

  method UnstrCaches(bare: map<nat, NodeSchema>, ghost nodes: map<nat, NodeSchema>) returns (r: map<nat, NodeSchema>)
    requires bare == Bare(nodes) && UnstrCachesOk(nodes)
    ensures r == nodes
  {
    r := bare;
    var todo := bare.Keys;
    while todo != {}
      invariant todo <= nodes.Keys == r.Keys
      invariant forall k :: k in nodes ==> r[k] == if k in todo then nodes[k].(unstrNameToId := map[]) else nodes[k]
    {
      var k :| k in todo;
      ghost var expected := nodes[k].unstrNameToId;
      var unstr := UnstrCache(r[k].unstructured, expected);
      r := r[k := r[k].(unstrNameToId := unstr)];
      todo := todo - {k};
    }
  }

  method NodeCache(nodes: map<nat, NodeSchema>, ghost cache: map<Name, nat>) returns (names: map<Name, nat>)
    requires NodeNamesOk(cache, nodes)
    ensures names == cache
  {
    names := map[];
    var todo := nodes.Keys;
    while todo != {}
      invariant todo <= nodes.Keys
      invariant forall n :: n in names ==> n in cache && names[n] == cache[n]
      invariant forall k :: k in nodes && k !in todo ==> nodes[k].tableName in names
    {
      var k :| k in todo;
      names := names[nodes[k].tableName := nodes[k].tableID];
      todo := todo - {k};
    }
  }

  method RelCache(rels: map<nat, RelSchema>, ghost cache: map<Name, nat>) returns (names: map<Name, nat>)
    requires RelNamesOk(cache, rels)
    ensures names == cache
  {
    names := map[];
    var todo := rels.Keys;
    while todo != {}
      invariant todo <= rels.Keys
      invariant forall n :: n in names ==> n in cache && names[n] == cache[n]
      invariant forall k :: k in rels && k !in todo ==> rels[k].tableName in names
    {
      var k :| k in todo;
      names := names[rels[k].tableName := rels[k].tableID];
      todo := todo - {k};
    }
  }

  lemma SameNames(cache: map<Name, nat>, rels: map<nat, RelSchema>)
    requires RelNamesOk(cache, rels)
    ensures RelNamesOk(cache, Ungenerated(rels))
  {
    var bare := Ungenerated(rels);
    forall n | n in cache ensures exists k :: k in bare && bare[k].tableName == n {
      var k :| k in rels && rels[k].tableName == n;
      assert k in bare;
    }
  }

  method ReadCounts(bytes: seq<byte>, ghost n: nat, ghost m: nat) returns (numNodes: nat, numRels: nat, next: nat)
    requires CountsAt(bytes, n, m)
    ensures numNodes == n && numRels == m && next == 16
  {
    numNodes, next := DeserializeInt(bytes, 8, 0, n);
    numRels, next := DeserializeInt(bytes, 8, next, m);
  }

  method ReadTables(bytes: seq<byte>, ghost c: Catalog, ghost ns: seq<Table>, ghost rs: seq<Table>)
    returns (bare: map<nat, NodeSchema>, rels: map<nat, RelSchema>, next: nat)
    requires CatalogAt(bytes, c, ns, rs)
    ensures bare == Bare(c.nodes) && rels == Ungenerated(c.rels) && next == CatalogSize(ns, rs)
  {
    var numNodes, numRels;
    numNodes, numRels, next := ReadCounts(bytes, |ns|, |rs|);
    bare, next := ReadNodes(bytes, numNodes, next, ns);
    rels, next := ReadRels(bytes, numRels, next, rs);
  }

  /** Rebuilds the caches. */
  method WithCaches(bare: map<nat, NodeSchema>, rels: map<nat, RelSchema>, ghost c: Catalog) returns (r: Catalog)
    requires bare == Bare(c.nodes) && rels == Ungenerated(c.rels) && UnstrCachesOk(c.nodes)
    requires NodeNamesOk(c.nodeNameToID, c.nodes) && RelNamesOk(c.relNameToID, c.rels)
    ensures r == c.(rels := Ungenerated(c.rels))
  {
    var nodes := UnstrCaches(bare, c.nodes);
    var nodeNames := NodeCache(nodes, c.nodeNameToID);
    SameNames(c.relNameToID, c.rels);
    var relNames := RelCache(rels, c.relNameToID);
    r := Catalog(nodes, rels, nodeNames, relNames);
  }

  /** readFromFile: consumes the bytes of the catalog and gives it back, apart from numGeneratedProperties. */
  method ReadFromFile(bytes: seq<byte>, ghost c: Catalog, ghost ns: seq<Table>, ghost rs: seq<Table>)
    returns (r: Catalog, next: nat)
    requires CatalogOk(c) && CatalogAt(bytes, c, ns, rs)
    ensures r == c.(rels := Ungenerated(c.rels)) && next == CatalogSize(ns, rs)
  {
    var bare, rels;
    bare, rels, next := ReadTables(bytes, c, ns, rs);
    r := WithCaches(bare, rels, c);
  }

  /** Saved over any earlier file and read back, a catalog is the same up to numGeneratedProperties, and reading uses
      exactly the bytes written. */
  method CatalogRoundTrip(c: Catalog, before: seq<byte>) returns (r: Catalog, written: nat, read: nat)
    requires CatalogOk(c)
    ensures r == c.(rels := Ungenerated(c.rels)) && read == written
  {
    var file := new File(before);
    ghost var ns, rs;
    written, ns, rs := SaveToFile(c, file);
    r, read := ReadFromFile(file.bytes, c, ns, rs);
  }
}

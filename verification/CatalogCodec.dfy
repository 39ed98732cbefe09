/** The catalog file (src/catalog/catalog.cpp:36-79, 130-179 and 319-374). Each `...At` predicate says how a value lies
    in the file; writers establish it, readers need no more than it. */
module CatalogCodec {
  import opened Wrappers
  import opened SerDeser

  type Name = seq<byte>

  const LIST := 52
  const UNSTRUCTURED := 51
  const ID_FIELD: Name := [73, 68] // "ID"

  // ---------------------------------------------------------------------------------------------
  // Types and properties
  // ---------------------------------------------------------------------------------------------

  datatype DataType = DataType(typeID: nat, child: Option<DataType>)

  datatype Property = Property(name: Name, dataType: DataType, propertyID: nat, tableID: nat)

  /** A child type is present exactly for LIST. */
  predicate TypeOk(d: DataType) {
    d.typeID < Range(1) && (d.child.Some? <==> d.typeID == LIST) && (d.child.Some? ==> TypeOk(d.child.value))
  }

  predicate PropertyOk(p: Property) {
    |p.name| < Range(8) && TypeOk(p.dataType) && p.propertyID < Range(4) && p.tableID < Range(8)
  }

  function TypeSize(d: DataType): nat {
    1 + if d.child.Some? then TypeSize(d.child.value) else 0
  }

  predicate TypeAt(file: seq<byte>, o: nat, d: DataType)
    decreases d
  {
    IntAt(file, o, 1, d.typeID) && (d.child.Some? ==> TypeAt(file, o + 1, d.child.value))
  }

  lemma {:induction false} TypeKept(a: seq<byte>, b: seq<byte>, o: nat, d: DataType, end: nat)
    requires TypeAt(a, o, d) && Agree(a, b, end) && o + TypeSize(d) <= end
    ensures TypeAt(b, o, d)
    decreases d
  {
    IntKept(a, b, o, 1, d.typeID, end);
    if d.child.Some? {
      TypeKept(a, b, o + 1, d.child.value, end);
    }
  }

  method SerializeType(d: DataType, file: File, offset: nat) returns (next: nat)
    requires offset <= |file.bytes| && TypeOk(d)
    modifies file
    ensures next == offset + TypeSize(d) <= |file.bytes| && Agree(old(file.bytes), file.bytes, offset)
    ensures TypeAt(file.bytes, offset, d)
    decreases d
  {
    next := SerializeInt(d.typeID, 1, file, offset);
    if d.child.Some? {
      ghost var mid, at := file.bytes, next;
      next := SerializeType(d.child.value, file, next);
      IntKept(mid, file.bytes, offset, 1, d.typeID, at);
      AgreeTrans(old(file.bytes), mid, file.bytes, offset, at);
    }
  }

  method DeserializeType(bytes: seq<byte>, offset: nat, ghost d: DataType) returns (r: DataType, next: nat)
    requires TypeOk(d) && TypeAt(bytes, offset, d)
    ensures r == d && next == offset + TypeSize(d)
    decreases d
  {
    var typeID;
    typeID, next := DeserializeInt(bytes, 1, offset, d.typeID);
    if typeID == LIST {
      var child;
      child, next := DeserializeType(bytes, next, d.child.value);
      return DataType(typeID, Some(child)), next;
    }
    return DataType(typeID, None), next;
  }

  function IsIdProperty(p: Property): nat {
    if p.name == ID_FIELD then 1 else 0
  }

  function PropertySize(p: Property): nat {
    8 + |p.name| + TypeSize(p.dataType) + 13
  }

  predicate PropertyAt(file: seq<byte>, o: nat, p: Property) {
    var t := o + 8 + |p.name|;
    var i := t + TypeSize(p.dataType);
    && StringAt(file, o, p.name) && TypeAt(file, t, p.dataType)
    && IntAt(file, i, 4, p.propertyID) && IntAt(file, i + 4, 8, p.tableID) && IntAt(file, i + 12, 1, IsIdProperty(p))
  }

  lemma PropertyKept(a: seq<byte>, b: seq<byte>, o: nat, p: Property, end: nat)
    requires PropertyAt(a, o, p) && Agree(a, b, end) && o + PropertySize(p) <= end
    ensures PropertyAt(b, o, p)
  {
    var t := o + 8 + |p.name|;
    var i := t + TypeSize(p.dataType);
    StringKept(a, b, o, p.name, end);
    TypeKept(a, b, t, p.dataType, end);
    IntKept(a, b, i, 4, p.propertyID, end);
    IntKept(a, b, i + 4, 8, p.tableID, end);
    IntKept(a, b, i + 12, 1, IsIdProperty(p), end);
  }

  method SerializeProperty(p: Property, file: File, offset: nat) returns (next: nat)
    requires offset <= |file.bytes| && PropertyOk(p)
    modifies file
    ensures next == offset + PropertySize(p) <= |file.bytes| && Agree(old(file.bytes), file.bytes, offset)
    ensures PropertyAt(file.bytes, offset, p)
  {
    var t := SerializeString(p.name, file, offset);
    ghost var b1 := file.bytes;
    var i := SerializeType(p.dataType, file, t);
    ghost var b2 := file.bytes;
    StringKept(b1, b2, offset, p.name, t);
    AgreeTrans(old(file.bytes), b1, b2, offset, t);
    var j := SerializeInt(p.propertyID, 4, file, i);
    ghost var b3 := file.bytes;
    StringKept(b2, b3, offset, p.name, i);
    TypeKept(b2, b3, t, p.dataType, i);
    AgreeTrans(old(file.bytes), b2, b3, offset, i);
    next := SerializeIdAndFlag(p.tableID, IsIdProperty(p), file, j);
    StringKept(b3, file.bytes, offset, p.name, j);
    TypeKept(b3, file.bytes, t, p.dataType, j);
    IntKept(b3, file.bytes, i, 4, p.propertyID, j);
    AgreeTrans(old(file.bytes), b3, file.bytes, offset, j);
  }

  method SerializeIdAndFlag(id: nat, flag: nat, file: File, offset: nat) returns (next: nat)
    requires offset <= |file.bytes| && id < Range(8) && flag < Range(1)
    modifies file
    ensures next == offset + 9 <= |file.bytes| && Agree(old(file.bytes), file.bytes, offset)
    ensures IntAt(file.bytes, offset, 8, id) && IntAt(file.bytes, offset + 8, 1, flag)
  {
    var at := SerializeInt(id, 8, file, offset);
    ghost var mid := file.bytes;
    next := SerializeInt(flag, 1, file, at);
    IntKept(mid, file.bytes, offset, 8, id, at);
    AgreeTrans(old(file.bytes), mid, file.bytes, offset, at);
  }

  /** The byte for isIDProperty is read and dropped: the name tells. */
  method DeserializeProperty(bytes: seq<byte>, offset: nat, ghost p: Property) returns (r: Property, next: nat)
    requires PropertyOk(p) && PropertyAt(bytes, offset, p)
    ensures r == p && next == offset + PropertySize(p)
  {
    var name, dataType, propertyID, tableID, isIDProperty;
    name, next := DeserializeString(bytes, offset, p.name);
    dataType, next := DeserializeType(bytes, next, p.dataType);
    propertyID, next := DeserializeInt(bytes, 4, next, p.propertyID);
    tableID, next := DeserializeInt(bytes, 8, next, p.tableID);
    isIDProperty, next := DeserializeInt(bytes, 1, next, IsIdProperty(p));
    r := Property(name, dataType, propertyID, tableID);
  }

  // ---------------------------------------------------------------------------------------------
  // Vectors of properties
  // ---------------------------------------------------------------------------------------------

  /** Bytes of the first n properties. */
  function SizeUpTo(ps: seq<Property>, n: nat): nat
    requires n <= |ps|
  {
    if n == 0 then 0 else SizeUpTo(ps, n - 1) + PropertySize(ps[n - 1])
  }

  function PropertiesSize(ps: seq<Property>): nat {
    8 + SizeUpTo(ps, |ps|)
  }

  lemma {:induction false} SizeUpToMonotone(ps: seq<Property>, m: nat, n: nat)
    requires m <= n <= |ps|
    ensures SizeUpTo(ps, m) <= SizeUpTo(ps, n)
    decreases n
  {
    if m < n {
      SizeUpToMonotone(ps, m, n - 1);
    }
  }

  predicate FirstAt(file: seq<byte>, o: nat, ps: seq<Property>, n: nat)
    requires n <= |ps|
  {
    forall i {:trigger PropertyIn(file, o, ps, i)} :: 0 <= i < n ==> PropertyIn(file, o, ps, i)
  }

  predicate PropertyIn(file: seq<byte>, o: nat, ps: seq<Property>, i: nat)
    requires i < |ps|
  {
    PropertyAt(file, o + SizeUpTo(ps, i), ps[i])
  }

  predicate PropertiesAt(file: seq<byte>, o: nat, ps: seq<Property>) {
    IntAt(file, o, 8, |ps|) && FirstAt(file, o + 8, ps, |ps|)
  }

  predicate PropertiesOk(ps: seq<Property>) {
    |ps| < Range(8) && forall i {:trigger PropertyOk(ps[i])} :: 0 <= i < |ps| ==> PropertyOk(ps[i])
  }

  lemma FirstKept(a: seq<byte>, b: seq<byte>, o: nat, ps: seq<Property>, n: nat, end: nat)
    requires n <= |ps| && FirstAt(a, o, ps, n) && Agree(a, b, end) && o + SizeUpTo(ps, n) <= end
    ensures FirstAt(b, o, ps, n)
  {
    forall i | 0 <= i < n ensures PropertyIn(b, o, ps, i) {
      assert PropertyIn(a, o, ps, i);
      SizeUpToMonotone(ps, i + 1, n);
      PropertyKept(a, b, o + SizeUpTo(ps, i), ps[i], end);
    }
  }

  lemma PropertiesKept(a: seq<byte>, b: seq<byte>, o: nat, ps: seq<Property>, end: nat)
    requires PropertiesAt(a, o, ps) && Agree(a, b, end) && o + PropertiesSize(ps) <= end
    ensures PropertiesAt(b, o, ps)
  {
    IntKept(a, b, o, 8, |ps|, end);
    FirstKept(a, b, o + 8, ps, |ps|, end);
  }

  method SerializeProperties(ps: seq<Property>, file: File, offset: nat) returns (next: nat)
    requires offset <= |file.bytes| && PropertiesOk(ps)
    modifies file
    ensures next == offset + PropertiesSize(ps) <= |file.bytes| && Agree(old(file.bytes), file.bytes, offset)
    ensures PropertiesAt(file.bytes, offset, ps)
  {
    var at := SerializeInt(|ps|, 8, file, offset);
    next := at;
    for i := 0 to |ps|
      invariant next == at + SizeUpTo(ps, i) <= |file.bytes| && FirstAt(file.bytes, at, ps, i)
      invariant IntAt(file.bytes, offset, 8, |ps|) && Agree(old(file.bytes), file.bytes, offset)
    {
      ghost var mid, from := file.bytes, next;
      assert PropertyOk(ps[i]);
      next := SerializeProperty(ps[i], file, next);
      assert PropertyIn(file.bytes, at, ps, i);
      FirstKept(mid, file.bytes, at, ps, i, from);
      IntKept(mid, file.bytes, offset, 8, |ps|, from);
      AgreeTrans(old(file.bytes), mid, file.bytes, offset, from);
    }
  }

  method DeserializeProperties(bytes: seq<byte>, offset: nat, ghost ps: seq<Property>)
    returns (r: seq<Property>, next: nat)
    requires PropertiesOk(ps) && PropertiesAt(bytes, offset, ps)
    ensures r == ps && next == offset + PropertiesSize(ps)
  {
    var size, at := DeserializeInt(bytes, 8, offset, |ps|);
    r, next := [], at;
    for i := 0 to size
      invariant r == ps[..i] && next == at + SizeUpTo(ps, i)
    {
      var p;
      assert PropertyOk(ps[i]) && PropertyIn(bytes, at, ps, i);
      p, next := DeserializeProperty(bytes, next, ps[i]);
      r := r + [p];
    }
  }

  // ---------------------------------------------------------------------------------------------
  // Table schemas
  // ---------------------------------------------------------------------------------------------

  /** `unstrNameToId` is a cache, not written. */
  datatype NodeSchema = NodeSchema(tableName: Name, tableID: nat, primaryPropertyId: nat, structured: seq<Property>,
                                   unstructured: seq<Property>, fwd: set<nat>, bwd: set<nat>,
                                   unstrNameToId: map<Name, nat>)

  /** `numGenerated` is not written: a schema read back has the default UINT32_MAX. */
  datatype RelSchema = RelSchema(tableName: Name, tableID: nat, multiplicity: nat, properties: seq<Property>,
                                 src: set<nat>, dst: set<nat>, numGenerated: nat)

  const NOT_READ := 0xFFFF_FFFF

  predicate NodeOk(n: NodeSchema) {
    && |n.tableName| < Range(8) && n.tableID < Range(8) && n.primaryPropertyId < Range(8)
    && PropertiesOk(n.structured) && PropertiesOk(n.unstructured) && IdsOk(n.fwd) && IdsOk(n.bwd)
  }

  predicate RelOk(r: RelSchema) {
    && |r.tableName| < Range(8) && r.tableID < Range(8) && r.multiplicity < Range(1)
    && PropertiesOk(r.properties) && IdsOk(r.src) && IdsOk(r.dst)
  }

  /** Key, name, table ID and one more number: what every table starts with. */
  predicate HeaderAt(file: seq<byte>, o: nat, key: nat, name: Name, id: nat, k: nat, width: nat) {
    && IntAt(file, o, 8, key) && StringAt(file, o + 8, name)
    && IntAt(file, o + 16 + |name|, 8, id) && IntAt(file, o + 24 + |name|, width, k)
  }

  function HeaderSize(name: Name, width: nat): nat {
    24 + |name| + width
  }

  lemma HeaderKept(a: seq<byte>, b: seq<byte>, o: nat, key: nat, name: Name, id: nat, k: nat, width: nat, end: nat)
    requires HeaderAt(a, o, key, name, id, k, width) && Agree(a, b, end) && o + HeaderSize(name, width) <= end
    ensures HeaderAt(b, o, key, name, id, k, width)
  {
    IntKept(a, b, o, 8, key, end);
    StringKept(a, b, o + 8, name, end);
    IntKept(a, b, o + 16 + |name|, 8, id, end);
    IntKept(a, b, o + 24 + |name|, width, k, end);
  }

  method SerializeHeader(key: nat, name: Name, id: nat, k: nat, width: nat, file: File, offset: nat) returns (next: nat)
    requires offset <= |file.bytes| && key < Range(8) && |name| < Range(8) && id < Range(8) && k < Range(width)
    modifies file
    ensures next == offset + HeaderSize(name, width) <= |file.bytes| && Agree(old(file.bytes), file.bytes, offset)
    ensures HeaderAt(file.bytes, offset, key, name, id, k, width)
  {
    var at1 := SerializeInt(key, 8, file, offset);
    ghost var b1 := file.bytes;
    var at2 := SerializeString(name, file, at1);
    ghost var b2 := file.bytes;
    IntKept(b1, b2, offset, 8, key, at1);
    AgreeTrans(old(file.bytes), b1, b2, offset, at1);
    var at3 := SerializeInt(id, 8, file, at2);
    ghost var b3 := file.bytes;
    IntKept(b2, b3, offset, 8, key, at2);
    StringKept(b2, b3, at1, name, at2);
    AgreeTrans(old(file.bytes), b2, b3, offset, at2);
    next := SerializeInt(k, width, file, at3);
    IntKept(b3, file.bytes, offset, 8, key, at3);
    StringKept(b3, file.bytes, at1, name, at3);
    IntKept(b3, file.bytes, at2, 8, id, at3);
    AgreeTrans(old(file.bytes), b3, file.bytes, offset, at3);
  }

  method DeserializeHeader(bytes: seq<byte>, offset: nat, width: nat, ghost key: nat, ghost name: Name, ghost id: nat,
                           ghost k: nat)
    returns (key': nat, name': Name, id': nat, k': nat, next: nat)
    requires HeaderAt(bytes, offset, key, name, id, k, width)
    ensures key' == key && name' == name && id' == id && k' == k && next == offset + HeaderSize(name, width)
  {
    key', next := DeserializeInt(bytes, 8, offset, key);
    name', next := DeserializeString(bytes, next, name);
    id', next := DeserializeInt(bytes, 8, next, id);
    k', next := DeserializeInt(bytes, width, next, k);
  }

  /** A header and the first properties. */
  predicate FrontAt(file: seq<byte>, o: nat, key: nat, name: Name, id: nat, k: nat, width: nat, ps: seq<Property>) {
    HeaderAt(file, o, key, name, id, k, width) && PropertiesAt(file, o + HeaderSize(name, width), ps)
  }

  function FrontSize(name: Name, width: nat, ps: seq<Property>): nat {
    HeaderSize(name, width) + PropertiesSize(ps)
  }

  lemma FrontKept(a: seq<byte>, b: seq<byte>, o: nat, key: nat, name: Name, id: nat, k: nat, width: nat,
                  ps: seq<Property>, end: nat)
    requires FrontAt(a, o, key, name, id, k, width, ps) && Agree(a, b, end) && o + FrontSize(name, width, ps) <= end
    ensures FrontAt(b, o, key, name, id, k, width, ps)
  {
    HeaderKept(a, b, o, key, name, id, k, width, end);
    PropertiesKept(a, b, o + HeaderSize(name, width), ps, end);
  }

  method SerializeFront(key: nat, name: Name, id: nat, k: nat, width: nat, ps: seq<Property>, file: File, offset: nat)
    returns (next: nat)
    requires offset <= |file.bytes| && key < Range(8) && |name| < Range(8) && id < Range(8) && k < Range(width)
    requires PropertiesOk(ps)
    modifies file
    ensures next == offset + FrontSize(name, width, ps) <= |file.bytes| && Agree(old(file.bytes), file.bytes, offset)
    ensures FrontAt(file.bytes, offset, key, name, id, k, width, ps)
  {
    var at := SerializeHeader(key, name, id, k, width, file, offset);
    ghost var mid := file.bytes;
    next := SerializeProperties(ps, file, at);
    HeaderKept(mid, file.bytes, offset, key, name, id, k, width, at);
    AgreeTrans(old(file.bytes), mid, file.bytes, offset, at);
  }

  /** Two ID sets, which every table ends with. */
  predicate SetsAt(file: seq<byte>, o: nat, first: seq<nat>, second: seq<nat>) {
    SetAt(file, o, first) && SetAt(file, o + SetSize(first), second)
  }

  lemma SetsKept(a: seq<byte>, b: seq<byte>, o: nat, first: seq<nat>, second: seq<nat>, end: nat)
    requires SetsAt(a, o, first, second) && Agree(a, b, end) && o + SetSize(first) + SetSize(second) <= end
    ensures SetsAt(b, o, first, second)
  {
    SetKept(a, b, o, first, end);
    SetKept(a, b, o + SetSize(first), second, end);
  }

  method SerializeSets(x: set<nat>, y: set<nat>, file: File, offset: nat)
    returns (next: nat, ghost first: seq<nat>, ghost second: seq<nat>)
    requires offset <= |file.bytes| && IdsOk(x) && IdsOk(y)
    modifies file
    ensures Lists(first, x) && Lists(second, y) && SetsAt(file.bytes, offset, first, second)
    ensures next == offset + SetSize(first) + SetSize(second) <= |file.bytes|
            && Agree(old(file.bytes), file.bytes, offset)
  {
    var at;
    at, first := SerializeSet(x, file, offset);
    ghost var mid := file.bytes;
    next, second := SerializeSet(y, file, at);
    SetKept(mid, file.bytes, offset, first, at);
    AgreeTrans(old(file.bytes), mid, file.bytes, offset, at);
  }

  method DeserializeSets(bytes: seq<byte>, offset: nat, ghost first: seq<nat>, ghost second: seq<nat>,
                         ghost x: set<nat>, ghost y: set<nat>)
    returns (x': set<nat>, y': set<nat>, next: nat)
    requires Lists(first, x) && Lists(second, y) && SetsAt(bytes, offset, first, second)
    ensures x' == x && y' == y && next == offset + SetSize(first) + SetSize(second)
  {
    ListedElements(first, x);
    ListedElements(second, y);
    x', next := DeserializeSet(bytes, offset, first);
    y', next := DeserializeSet(bytes, next, second);
  }

  /** A table as it lies in the file: its key in the map, its schema, and the orders its ID sets were iterated in. */
  datatype Entry<T> = Entry(key: nat, schema: T, first: seq<nat>, second: seq<nat>)

  predicate NodeAt(file: seq<byte>, o: nat, e: Entry<NodeSchema>) {
    NodeHeadAt(file, o, e.key, e.schema) && SetsAt(file, o + NodeHeadSize(e.schema), e.first, e.second)
  }

  function NodeSize(e: Entry<NodeSchema>): nat {
    NodeHeadSize(e.schema) + SetSize(e.first) + SetSize(e.second)
  }

  predicate RelAt(file: seq<byte>, o: nat, e: Entry<RelSchema>) {
    RelHeadAt(file, o, e.key, e.schema) && SetsAt(file, o + RelHeadSize(e.schema), e.first, e.second)
  }

  function RelSize(e: Entry<RelSchema>): nat {
    RelHeadSize(e.schema) + SetSize(e.first) + SetSize(e.second)
  }

  lemma NodeKept(a: seq<byte>, b: seq<byte>, o: nat, e: Entry<NodeSchema>, end: nat)
    requires NodeAt(a, o, e) && Agree(a, b, end) && o + NodeSize(e) <= end
    ensures NodeAt(b, o, e)
  {
    NodeHeadKept(a, b, o, e.key, e.schema, end);
    SetsKept(a, b, o + NodeHeadSize(e.schema), e.first, e.second, end);
  }

  lemma RelKept(a: seq<byte>, b: seq<byte>, o: nat, e: Entry<RelSchema>, end: nat)
    requires RelAt(a, o, e) && Agree(a, b, end) && o + RelSize(e) <= end
    ensures RelAt(b, o, e)
  {
    RelHeadKept(a, b, o, e.key, e.schema, end);
    SetsKept(a, b, o + RelHeadSize(e.schema), e.first, e.second, end);
  }

  method SerializeNode(key: nat, n: NodeSchema, file: File, offset: nat) returns (next: nat, ghost e: Entry<NodeSchema>)
    requires offset <= |file.bytes| && key < Range(8) && NodeOk(n)
    modifies file
    ensures e.key == key && e.schema == n && Lists(e.first, n.fwd) && Lists(e.second, n.bwd)
    ensures next == offset + NodeSize(e) <= |file.bytes| && Agree(old(file.bytes), file.bytes, offset)
    ensures NodeAt(file.bytes, offset, e)
  {
    var t := SerializeNodeHead(key, n, file, offset);
    ghost var mid := file.bytes;
    ghost var first, second;
    next, first, second := SerializeSets(n.fwd, n.bwd, file, t);
    NodeHeadKept(mid, file.bytes, offset, key, n, t);
    AgreeTrans(old(file.bytes), mid, file.bytes, offset, t);
    e := Entry(key, n, first, second);
  }

  /** A node table up to its ID sets. */
  predicate NodeHeadAt(file: seq<byte>, o: nat, key: nat, n: NodeSchema) {
    && FrontAt(file, o, key, n.tableName, n.tableID, n.primaryPropertyId, 8, n.structured)
    && PropertiesAt(file, o + FrontSize(n.tableName, 8, n.structured), n.unstructured)
  }

  function NodeHeadSize(n: NodeSchema): nat {
    FrontSize(n.tableName, 8, n.structured) + PropertiesSize(n.unstructured)
  }

  lemma NodeHeadKept(a: seq<byte>, b: seq<byte>, o: nat, key: nat, n: NodeSchema, end: nat)
    requires NodeHeadAt(a, o, key, n) && Agree(a, b, end) && o + NodeHeadSize(n) <= end
    ensures NodeHeadAt(b, o, key, n)
  {
    FrontKept(a, b, o, key, n.tableName, n.tableID, n.primaryPropertyId, 8, n.structured, end);
    PropertiesKept(a, b, o + FrontSize(n.tableName, 8, n.structured), n.unstructured, end);
  }

  method SerializeNodeHead(key: nat, n: NodeSchema, file: File, offset: nat) returns (next: nat)
    requires offset <= |file.bytes| && key < Range(8) && NodeOk(n)
    modifies file
    ensures next == offset + NodeHeadSize(n) <= |file.bytes| && Agree(old(file.bytes), file.bytes, offset)
    ensures NodeHeadAt(file.bytes, offset, key, n)
  {
    var at := SerializeFront(key, n.tableName, n.tableID, n.primaryPropertyId, 8, n.structured, file, offset);
    ghost var mid := file.bytes;
    next := SerializeProperties(n.unstructured, file, at);
    FrontKept(mid, file.bytes, offset, key, n.tableName, n.tableID, n.primaryPropertyId, 8, n.structured, at);
    AgreeTrans(old(file.bytes), mid, file.bytes, offset, at);
  }

  /** A relationship table up to its ID sets. */
  predicate RelHeadAt(file: seq<byte>, o: nat, key: nat, n: RelSchema) {
    FrontAt(file, o, key, n.tableName, n.tableID, n.multiplicity, 1, n.properties)
  }

  function RelHeadSize(n: RelSchema): nat {
    FrontSize(n.tableName, 1, n.properties)
  }

  lemma RelHeadKept(a: seq<byte>, b: seq<byte>, o: nat, key: nat, n: RelSchema, end: nat)
    requires RelHeadAt(a, o, key, n) && Agree(a, b, end) && o + RelHeadSize(n) <= end
    ensures RelHeadAt(b, o, key, n)
  {
    FrontKept(a, b, o, key, n.tableName, n.tableID, n.multiplicity, 1, n.properties, end);
  }

  method SerializeRel(key: nat, n: RelSchema, file: File, offset: nat) returns (next: nat, ghost e: Entry<RelSchema>)
    requires offset <= |file.bytes| && key < Range(8) && RelOk(n)
    modifies file
    ensures e.key == key && e.schema == n && Lists(e.first, n.src) && Lists(e.second, n.dst)
    ensures next == offset + RelSize(e) <= |file.bytes| && Agree(old(file.bytes), file.bytes, offset)
    ensures RelAt(file.bytes, offset, e)
  {
    var t := SerializeFront(key, n.tableName, n.tableID, n.multiplicity, 1, n.properties, file, offset);
    ghost var mid := file.bytes;
    assert RelHeadAt(mid, offset, key, n);
    ghost var first, second;
    next, first, second := SerializeSets(n.src, n.dst, file, t);
    RelHeadKept(mid, file.bytes, offset, key, n, t);
    AgreeTrans(old(file.bytes), mid, file.bytes, offset, t);
    e := Entry(key, n, first, second);
  }

  /** Reads a table back; its cache is still empty. */
  method DeserializeNode(bytes: seq<byte>, offset: nat, ghost e: Entry<NodeSchema>)
    returns (key: nat, r: NodeSchema, next: nat)
    requires NodeOk(e.schema) && Lists(e.first, e.schema.fwd) && Lists(e.second, e.schema.bwd)
             && NodeAt(bytes, offset, e)
    ensures key == e.key && r == e.schema.(unstrNameToId := map[]) && next == offset + NodeSize(e)
  {
    ghost var n := e.schema;
    var name, id, pk, structured, unstructured, fwd, bwd;
    key, name, id, pk, next := DeserializeHeader(bytes, offset, 8, e.key, n.tableName, n.tableID, n.primaryPropertyId);
    structured, next := DeserializeProperties(bytes, next, n.structured);
    unstructured, next := DeserializeProperties(bytes, next, n.unstructured);
    fwd, bwd, next := DeserializeSets(bytes, next, e.first, e.second, n.fwd, n.bwd);
    r := NodeSchema(name, id, pk, structured, unstructured, fwd, bwd, map[]);
  }

  method DeserializeRel(bytes: seq<byte>, offset: nat, ghost e: Entry<RelSchema>)
    returns (key: nat, r: RelSchema, next: nat)
    requires RelOk(e.schema) && Lists(e.first, e.schema.src) && Lists(e.second, e.schema.dst) && RelAt(bytes, offset, e)
    ensures key == e.key && r == e.schema.(numGenerated := NOT_READ) && next == offset + RelSize(e)
  {
    ghost var n := e.schema;
    var name, id, multiplicity, properties, src, dst;
    key, name, id, multiplicity,
      next := DeserializeHeader(bytes, offset, 1, e.key, n.tableName, n.tableID, n.multiplicity);
    properties, next := DeserializeProperties(bytes, next, n.properties);
    src, dst, next := DeserializeSets(bytes, next, e.first, e.second, n.src, n.dst);
    r := RelSchema(name, id, multiplicity, properties, src, dst, NOT_READ);
  }
}

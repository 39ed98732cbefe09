/** Values written to and read from a file at a threaded offset (src/common/include/ser_deser.h,
    src/catalog/catalog.cpp:17-34). */
module SerDeser {

  type byte = x: int | 0 <= x < 256

  /** Bytes of a fixed-width unsigned integer, least significant first. */
  function LittleEndian(n: nat, width: nat): (r: seq<byte>)
    ensures |r| == width
    decreases width
  {
    if width == 0 then [] else [n % 256] + LittleEndian(n / 256, width - 1)
  }

  function FromLittleEndian(bytes: seq<byte>): nat {
    if bytes == [] then 0 else bytes[0] + 256 * FromLittleEndian(bytes[1..])
  }

  function Range(width: nat): nat {
    if width == 0 then 1 else 256 * Range(width - 1)
  }

  lemma {:induction false} LittleEndianRoundTrip(n: nat, width: nat)
    requires n < Range(width)
    ensures FromLittleEndian(LittleEndian(n, width)) == n
    decreases width
  {
    if width > 0 {
      assert n / 256 < Range(width - 1);
      LittleEndianRoundTrip(n / 256, width - 1);
      assert LittleEndian(n, width)[1..] == LittleEndian(n / 256, width - 1);
    }
  }

  // ---------------------------------------------------------------------------------------------
  // Files
  // ---------------------------------------------------------------------------------------------

  /** pwrite: replaces bytes in the middle of a file, or extends it. */
  function Overwrite(file: seq<byte>, offset: nat, data: seq<byte>): (r: seq<byte>)
    requires offset <= |file|
    ensures |r| == (if offset + |data| > |file| then offset + |data| else |file|)
  {
    file[..offset] + data + if offset + |data| < |file| then file[offset + |data|..] else []
  }

  /** The bytes at an offset. */
  predicate BytesAt(file: seq<byte>, offset: nat, data: seq<byte>) {
    offset + |data| <= |file| && file[offset..offset + |data|] == data
  }

  /** Two states of a file agree up to an offset. */
  predicate Agree(a: seq<byte>, b: seq<byte>, n: nat) {
    n <= |a| && n <= |b| && a[..n] == b[..n]
  }

  lemma AgreeLess(a: seq<byte>, b: seq<byte>, n: nat, m: nat)
    requires Agree(a, b, n) && m <= n
    ensures Agree(a, b, m)
  {
    assert a[..m] == a[..n][..m] && b[..m] == b[..n][..m];
  }

  lemma AgreeTrans(a: seq<byte>, b: seq<byte>, c: seq<byte>, n: nat, m: nat)
    requires Agree(a, b, n) && Agree(b, c, m) && n <= m
    ensures Agree(a, c, n)
  {
    AgreeLess(b, c, m, n);
  }

  lemma BytesKept(a: seq<byte>, b: seq<byte>, offset: nat, data: seq<byte>, n: nat)
    requires BytesAt(a, offset, data) && Agree(a, b, n) && offset + |data| <= n
    ensures BytesAt(b, offset, data)
  {
    assert a[offset..offset + |data|] == a[..n][offset..offset + |data|];
    assert b[offset..offset + |data|] == b[..n][offset..offset + |data|];
  }

  lemma Overwritten(file: seq<byte>, offset: nat, data: seq<byte>)
    requires offset <= |file|
    ensures BytesAt(Overwrite(file, offset, data), offset, data) && Agree(file, Overwrite(file, offset, data), offset)
  {
  }

  class File {
    var bytes: seq<byte>

    constructor (bytes: seq<byte>)
      ensures this.bytes == bytes
    {
      this.bytes := bytes;
    }

    method WriteAt(data: seq<byte>, offset: nat) returns (next: nat)
      requires offset <= |bytes|
      modifies this
      ensures bytes == Overwrite(old(bytes), offset, data) && next == offset + |data| <= |bytes|
      ensures BytesAt(bytes, offset, data) && Agree(old(bytes), bytes, offset)
    {
      Overwritten(bytes, offset, data);
      bytes := Overwrite(bytes, offset, data);
      next := offset + |data|;
    }
  }

  // ---------------------------------------------------------------------------------------------
  // Integers and strings. A writer leaves the bytes before its offset alone. A reader is told, for its specification
  // only, which value the file holds.
  // ---------------------------------------------------------------------------------------------

  predicate IntAt(file: seq<byte>, offset: nat, width: nat, n: nat) {
    offset + width <= |file| && FromLittleEndian(file[offset..offset + width]) == n
  }

  lemma IntKept(a: seq<byte>, b: seq<byte>, offset: nat, width: nat, n: nat, end: nat)
    requires IntAt(a, offset, width, n) && Agree(a, b, end) && offset + width <= end
    ensures IntAt(b, offset, width, n)
  {
    BytesKept(a, b, offset, a[offset..offset + width], end);
  }

  method SerializeInt(n: nat, width: nat, file: File, offset: nat) returns (next: nat)
    requires offset <= |file.bytes| && n < Range(width)
    modifies file
    ensures next == offset + width <= |file.bytes| && Agree(old(file.bytes), file.bytes, offset)
    ensures IntAt(file.bytes, offset, width, n)
  {
    LittleEndianRoundTrip(n, width);
    next := file.WriteAt(LittleEndian(n, width), offset);
  }

  method DeserializeInt(bytes: seq<byte>, width: nat, offset: nat, ghost n: nat) returns (r: nat, next: nat)
    requires IntAt(bytes, offset, width, n)
    ensures r == n && next == offset + width
  {
    r := FromLittleEndian(bytes[offset..offset + width]);
    next := offset + width;
  }

  predicate StringAt(file: seq<byte>, offset: nat, s: seq<byte>) {
    IntAt(file, offset, 8, |s|) && BytesAt(file, offset + 8, s)
  }

  lemma StringKept(a: seq<byte>, b: seq<byte>, offset: nat, s: seq<byte>, end: nat)
    requires StringAt(a, offset, s) && Agree(a, b, end) && offset + 8 + |s| <= end
    ensures StringAt(b, offset, s)
  {
    IntKept(a, b, offset, 8, |s|, end);
    BytesKept(a, b, offset + 8, s, end);
  }

  method SerializeString(s: seq<byte>, file: File, offset: nat) returns (next: nat)
    requires offset <= |file.bytes| && |s| < Range(8)
    modifies file
    ensures next == offset + 8 + |s| <= |file.bytes| && Agree(old(file.bytes), file.bytes, offset)
    ensures StringAt(file.bytes, offset, s)
  {
    var at := SerializeInt(|s|, 8, file, offset);
    ghost var mid := file.bytes;
    next := file.WriteAt(s, at);
    IntKept(mid, file.bytes, offset, 8, |s|, at);
    AgreeTrans(old(file.bytes), mid, file.bytes, offset, at);
  }

  method DeserializeString(bytes: seq<byte>, offset: nat, ghost s: seq<byte>) returns (r: seq<byte>, next: nat)
    requires StringAt(bytes, offset, s)
    ensures r == s && next == offset + 8 + |s|
  {
    var length, at := DeserializeInt(bytes, 8, offset, |s|);
    r := bytes[at..at + length];
    next := at + length;
  }

  // ---------------------------------------------------------------------------------------------
  // Sets, in whatever order they are iterated
  // ---------------------------------------------------------------------------------------------

  /** `order` lists the elements of the set, each once. */
  ghost predicate Lists(order: seq<nat>, s: set<nat>) {
    |order| == |s| && forall x :: x in order <==> x in s
  }

  predicate IdsAt(file: seq<byte>, offset: nat, order: seq<nat>) {
    forall i {:trigger order[i]} :: 0 <= i < |order| ==> IntAt(file, offset + 8 * i, 8, order[i])
  }

  /** A count, then the elements. */
  predicate SetAt(file: seq<byte>, offset: nat, order: seq<nat>) {
    IntAt(file, offset, 8, |order|) && IdsAt(file, offset + 8, order)
  }

  function SetSize(order: seq<nat>): nat {
    8 + 8 * |order|
  }

  lemma IdsKept(a: seq<byte>, b: seq<byte>, offset: nat, order: seq<nat>, end: nat)
    requires IdsAt(a, offset, order) && Agree(a, b, end) && offset + 8 * |order| <= end
    ensures IdsAt(b, offset, order)
  {
    forall i | 0 <= i < |order| ensures IntAt(b, offset + 8 * i, 8, order[i]) {
      IntKept(a, b, offset + 8 * i, 8, order[i], end);
    }
  }

  lemma IdsNext(file: seq<byte>, offset: nat, order: seq<nat>, x: nat)
    requires IdsAt(file, offset, order) && IntAt(file, offset + 8 * |order|, 8, x)
    ensures IdsAt(file, offset, order + [x])
  {
    var longer := order + [x];
    forall i | 0 <= i < |longer| ensures IntAt(file, offset + 8 * i, 8, longer[i]) {
      assert i < |order| ==> longer[i] == order[i];
    }
  }

  lemma SetKept(a: seq<byte>, b: seq<byte>, offset: nat, order: seq<nat>, end: nat)
    requires SetAt(a, offset, order) && Agree(a, b, end) && offset + SetSize(order) <= end
    ensures SetAt(b, offset, order)
  {
    IntKept(a, b, offset, 8, |order|, end);
    IdsKept(a, b, offset + 8, order, end);
  }

  predicate IdsOk(ids: set<nat>) {
    |ids| < Range(8) && forall x :: x in ids ==> x < Range(8)
  }

  method SerializeSet(s: set<nat>, file: File, offset: nat) returns (next: nat, ghost order: seq<nat>)
    requires offset <= |file.bytes| && IdsOk(s)
    modifies file
    ensures Lists(order, s) && next == offset + SetSize(order) <= |file.bytes|
    ensures SetAt(file.bytes, offset, order) && Agree(old(file.bytes), file.bytes, offset)
  {
    var at := SerializeInt(|s|, 8, file, offset);
    ghost var mid := file.bytes;
    next, order := SerializeElements(s, file, at);
    IntKept(mid, file.bytes, offset, 8, |s|, at);
    AgreeTrans(old(file.bytes), mid, file.bytes, offset, at);
  }

  method SerializeElements(s: set<nat>, file: File, at: nat) returns (next: nat, ghost order: seq<nat>)
    requires at <= |file.bytes| && IdsOk(s)
    modifies file
    ensures Lists(order, s) && next == at + 8 * |order| <= |file.bytes|
    ensures IdsAt(file.bytes, at, order) && Agree(old(file.bytes), file.bytes, at)
  {
    next, order := at, [];
    var todo := s;
    while todo != {}
      invariant todo <= s && |order| + |todo| == |s| && next == at + 8 * |order| <= |file.bytes|
      invariant forall x :: x in order <==> x in s && x !in todo
      invariant IdsAt(file.bytes, at, order) && Agree(old(file.bytes), file.bytes, at)
    {
      var x :| x in todo;
      ghost var mid, from := file.bytes, next;
      next := SerializeInt(x, 8, file, next);
      IdsKept(mid, file.bytes, at, order, from);
      AgreeTrans(old(file.bytes), mid, file.bytes, at, from);
      IdsNext(file.bytes, at, order, x);
      order := order + [x];
      todo := todo - {x};
    }
  }

  function Elements(order: seq<nat>): set<nat> {
    set x | x in order
  }

  lemma ElementsNext(order: seq<nat>, i: nat)
    requires i < |order|
    ensures Elements(order[..i + 1]) == Elements(order[..i]) + {order[i]}
  {
    assert order[..i + 1] == order[..i] + [order[i]];
  }

  lemma ListedElements(order: seq<nat>, s: set<nat>)
    requires Lists(order, s)
    ensures Elements(order) == s
  {
  }

  method DeserializeSet(bytes: seq<byte>, offset: nat, ghost order: seq<nat>) returns (r: set<nat>, next: nat)
    requires SetAt(bytes, offset, order)
    ensures r == Elements(order) && next == offset + SetSize(order)
  {
    var size, at := DeserializeInt(bytes, 8, offset, |order|);
    r, next := {}, at;
    for i := 0 to size
      invariant next == at + 8 * i && r == Elements(order[..i])
    {
      ElementsNext(order, i);
      var value;
      value, next := DeserializeInt(bytes, 8, next, order[i]);
      r := r + {value};
    }
    assert order[..size] == order;
  }
}

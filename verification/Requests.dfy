/**
  Requests as they are written to the device: one opcode item, an instance, and at most one list.
 */
module Requests {
  import opened Wrappers
  import opened Bytes
  import opened Cbor
  import opened CborLaws
  import opened Records

  const MAX_REGISTERS: nat := 512
  const MAX_PATH_INDEXES: nat := 512

  datatype Request =
    | GetDevices
    | Subscribe(instance: U16)
    | GetValues(instance: U16, registers: seq<U16>)
    | GetPathList(instance: U16)
    | GetPathValues(instance: U16, pathIndexes: seq<I64>)

  function Opcode(r: Request): Byte {
    match r
    case GetDevices => 0x01
    case Subscribe(_) => 0x03
    case GetValues(_, _) => 0x05
    case GetPathList(_) => 0x0a
    case GetPathValues(_, _) => 0x0b
  }

  predicate OverLimit(r: Request) {
    (r.GetValues? && |r.registers| > MAX_REGISTERS) || (r.GetPathValues? && |r.pathIndexes| > MAX_PATH_INDEXES)
  }

  function RegisterItems(registers: seq<U16>): (xs: seq<Item>)
    ensures |xs| == |registers|
  {
    if registers == [] then [] else [UInt(registers[0])] + RegisterItems(registers[1..])
  }

  function IndexItems(indexes: seq<I64>): (xs: seq<Item>)
    ensures |xs| == |indexes|
  {
    if indexes == [] then [] else [IndexItem(indexes[0])] + IndexItems(indexes[1..])
  }

  // What a request says, as items.
  function ItemsOf(r: Request): seq<Item> {
    [UInt(Opcode(r))] +
    match r
    case GetDevices => []
    case Subscribe(inst) => [UInt(inst)]
    case GetValues(inst, registers) => [UInt(inst), Array(RegisterItems(registers))]
    case GetPathList(inst) => [UInt(inst)]
    case GetPathValues(inst, indexes) => [UInt(inst), Array(IndexItems(indexes))]
  }

  // ---- Small facts about lists of integers ----

  // Integers a head can carry.
  predicate Integer(x: Item) {
    (x.UInt? || x.Int?) && Encodable(x)
  }

  predicate Integers(xs: seq<Item>) {
    forall i :: 0 <= i < |xs| ==> Integer(xs[i])
  }

  lemma {:induction false} RegistersAreIntegers(registers: seq<U16>)
    ensures Integers(RegisterItems(registers))
  {
    if registers != [] {
      RegistersAreIntegers(registers[1..]);
    }
  }

  lemma {:induction false} IndexesAreIntegers(indexes: seq<I64>)
    ensures Integers(IndexItems(indexes))
  {
    if indexes != [] {
      IndexesAreIntegers(indexes[1..]);
    }
  }

  lemma HeadLength(major: nat, n: nat)
    requires major < 8 && n < 0x1_0000_0000_0000_0000
    ensures 1 <= |Head(major, n)| <= 9
  {
  }

  lemma {:induction false} IntegersEncode(xs: seq<Item>)
    requires Integers(xs)
    ensures AllEncodable(xs) && AllStringsCapped(xs) && AllWithin(xs, MAX_DEPTH - 1) && NodesOf(xs) == |xs|
    ensures |EncodeAll(xs)| <= 9 * |xs|
  {
    hide Head;
    if xs != [] {
      IntegersEncode(xs[1..]);
      HeadLength(if xs[0].UInt? then 0 else 1, if xs[0].UInt? then xs[0].n else -1 - xs[0].v);
    }
  }

  // ---- The writer ----

  // The bytes of one more item behind those written so far.
  lemma {:induction false} EncodeAllConcatenates(a: seq<Item>, b: seq<Item>)
    requires AllEncodable(a) && AllEncodable(b)
    ensures AllEncodable(a + b) && EncodeAll(a + b) == EncodeAll(a) + EncodeAll(b)
  {
    hide Encodable, Encode;
    if a == [] {
      assert a + b == b;
    } else {
      EncodeAllConcatenates(a[1..], b);
      assert (a + b)[1..] == a[1..] + b;
    }
  }

  lemma EncodeOne(x: Item)
    requires Encodable(x)
    ensures AllEncodable([x]) && EncodeAll([x]) == Encode(x)
  {
  }

  class Encoder {
    var out: seq<Byte>

    constructor ()
      ensures out == []
    {
      out := [];
    }

    method U64(n: U64)
      modifies this
      ensures out == old(out) + Encode(UInt(n))
    {
      out := out + Head(0, n);
    }

    method I64(n: I64)
      modifies this
      ensures out == old(out) + Encode(IndexItem(n))
    {
      out := out + if n >= 0 then Head(0, n) else Head(1, -1 - n);
    }

    method ArrayOf(len: U64)
      modifies this
      ensures out == old(out) + Head(4, len)
    {
      out := out + Head(4, len);
    }

    method Registers(registers: seq<U16>)
      modifies this
      ensures AllEncodable(RegisterItems(registers))
      ensures out == old(out) + EncodeAll(RegisterItems(registers))
    {
      hide Encode, Head;
      RegistersAreIntegers(registers);
      IntegersEncode(RegisterItems(registers));
      var k := 0;
      assert registers[0..] == registers;
      while k < |registers|
        invariant 0 <= k <= |registers|
        invariant AllEncodable(RegisterItems(registers[k..]))
        invariant out + EncodeAll(RegisterItems(registers[k..])) == old(out) + EncodeAll(RegisterItems(registers))
      {
        assert registers[k..][1..] == registers[k + 1..];
        assert RegisterItems(registers[k..])[1..] == RegisterItems(registers[k + 1..]);
        U64(registers[k]);
        k := k + 1;
      }
      assert registers[k..] == [];
    }

    method PathIndexes(indexes: seq<Records.I64>)
      modifies this
      ensures AllEncodable(IndexItems(indexes))
      ensures out == old(out) + EncodeAll(IndexItems(indexes))
    {
      hide Encode, Head;
      IndexesAreIntegers(indexes);
      IntegersEncode(IndexItems(indexes));
      var k := 0;
      assert indexes[0..] == indexes;
      while k < |indexes|
        invariant 0 <= k <= |indexes|
        invariant AllEncodable(IndexItems(indexes[k..]))
        invariant out + EncodeAll(IndexItems(indexes[k..])) == old(out) + EncodeAll(IndexItems(indexes))
      {
        assert indexes[k..][1..] == indexes[k + 1..];
        assert IndexItems(indexes[k..])[1..] == IndexItems(indexes[k + 1..]);
        I64(indexes[k]);
        k := k + 1;
      }
      assert indexes[k..] == [];
    }

    /** Appends the encoding of the request's items; a list over the limit leaves only the opcode behind. */
    method Write(r: Request) returns (status: Outcome<ProtocolError>)
      modifies this
      ensures OverLimit(r) ==> status == Fail(RequestLimit) && out == old(out) + Encode(UInt(Opcode(r)))
      ensures !OverLimit(r) ==> status == Pass && AllEncodable(ItemsOf(r)) && out == old(out) + EncodeAll(ItemsOf(r))
    {
      hide Head, Encode, EncodeAll, AllEncodable, RegisterItems, IndexItems, ItemsOf, Opcode, WithinLimits;
      U64(Opcode(r));
      if OverLimit(r) {
        return Fail(RequestLimit);
      }
      RequestEncodes(r);
      ghost var front := out;
      match r {
        case GetDevices =>
        case Subscribe(inst) => U64(inst);
        case GetPathList(inst) => U64(inst);
        case GetValues(inst, registers) =>
          U64(inst);
          ArrayOf(|registers|);
          Registers(registers);
        case GetPathValues(inst, indexes) =>
          U64(inst);
          ArrayOf(|indexes|);
          PathIndexes(indexes);
      }
      assert out == front + Tail(r);
      status := Pass;
    }
  }

  // The encoding of a request item by item.
  lemma RequestEncodes(r: Request)
    requires !OverLimit(r)
    ensures AllEncodable(ItemsOf(r))
    ensures EncodeAll(ItemsOf(r)) == Encode(UInt(Opcode(r))) + Tail(r)
    ensures WithinLimits(ItemsOf(r))
    ensures 1 <= |EncodeAll(ItemsOf(r))| <= 5000
  {
    hide Encode, Head;
    var op := UInt(Opcode(r));
    OperandsEncode(r);
    EncodeOne(op);
    EncodeAllConcatenates([op], Operands(r));
    assert ItemsOf(r) == [op] + Operands(r);
    assert ItemsOf(r)[1..] == Operands(r);
    assert Nodes(op) == 1 && Within(op, MAX_DEPTH) && StringsCapped(op);
    assert NodesOf(ItemsOf(r)) == 1 + NodesOf(Operands(r));
    assert 1 <= |Encode(op)| <= 9 by {
      HeadLength(0, Opcode(r));
      EncodedInteger(op);
    }
  }

  lemma EncodedInteger(x: Item)
    requires Encodable(x) && x.UInt?
    ensures Encode(x) == Head(0, x.n)
  {
  }

  function Operands(r: Request): seq<Item> {
    match r
    case GetDevices => []
    case Subscribe(inst) => [UInt(inst)]
    case GetValues(inst, registers) => [UInt(inst), Array(RegisterItems(registers))]
    case GetPathList(inst) => [UInt(inst)]
    case GetPathValues(inst, indexes) => [UInt(inst), Array(IndexItems(indexes))]
  }

  // What follows the opcode on the wire.
  function Tail(r: Request): seq<Byte>
    requires !OverLimit(r)
  {
    match r
    case GetDevices => []
    case Subscribe(inst) => Encode(UInt(inst))
    case GetPathList(inst) => Encode(UInt(inst))
    case GetValues(inst, registers) =>
      RegistersAreIntegers(registers);
      IntegersEncode(RegisterItems(registers));
      Encode(UInt(inst)) + Head(4, |registers|) + EncodeAll(RegisterItems(registers))
    case GetPathValues(inst, indexes) =>
      IndexesAreIntegers(indexes);
      IntegersEncode(IndexItems(indexes));
      Encode(UInt(inst)) + Head(4, |indexes|) + EncodeAll(IndexItems(indexes))
  }

  lemma OperandsEncode(r: Request)
    requires !OverLimit(r)
    ensures AllEncodable(Operands(r)) && EncodeAll(Operands(r)) == Tail(r) && |Tail(r)| <= 4700
    ensures NodesOf(Operands(r)) <= 514 && AllWithin(Operands(r), MAX_DEPTH) && AllStringsCapped(Operands(r))
  {
    hide Head;
    match r
    case GetDevices =>
    case Subscribe(inst) =>
      HeadLength(0, inst);
      EncodeOne(UInt(inst));
    case GetPathList(inst) =>
      HeadLength(0, inst);
      EncodeOne(UInt(inst));
    case GetValues(inst, registers) =>
      RegistersAreIntegers(registers);
      ListEncodes(inst, RegisterItems(registers));
    case GetPathValues(inst, indexes) =>
      IndexesAreIntegers(indexes);
      ListEncodes(inst, IndexItems(indexes));
  }

  lemma ListEncodes(inst: U16, xs: seq<Item>)
    requires Integers(xs) && |xs| <= 512
    ensures var both := [UInt(inst), Array(xs)];
            && AllEncodable(both) && AllEncodable(xs)
            && EncodeAll(both) == Encode(UInt(inst)) + Head(4, |xs|) + EncodeAll(xs)
            && |EncodeAll(both)| <= 4700
            && NodesOf(both) <= 514 && AllWithin(both, MAX_DEPTH) && AllStringsCapped(both)
  {
    hide Head;
    ListIsSmall(inst, xs);
    IntegersEncode(xs);
    HeadLength(0, inst);
    HeadLength(4, |xs|);
    EncodeOne(UInt(inst));
    EncodeOne(Array(xs));
    EncodeAllConcatenates([UInt(inst)], [Array(xs)]);
    var both := [UInt(inst), Array(xs)];
    assert both == [UInt(inst)] + [Array(xs)];
    assert both[1..] == [Array(xs)];
    assert both[1..][1..] == [];
  }

  lemma Alone(x: Item)
    ensures NodesOf([x]) == Nodes(x) && (AllWithin([x], MAX_DEPTH) <==> Within(x, MAX_DEPTH))
    ensures AllStringsCapped([x]) <==> StringsCapped(x)
  {
    hide Nodes, Within, StringsCapped;
    assert [x][1..] == [] && [x][0] == x;
  }

  lemma InFrontOfOne(x: Item, y: Item)
    ensures NodesOf([x, y]) == Nodes(x) + Nodes(y)
    ensures AllWithin([x, y], MAX_DEPTH) <==> Within(x, MAX_DEPTH) && Within(y, MAX_DEPTH)
    ensures AllStringsCapped([x, y]) <==> StringsCapped(x) && StringsCapped(y)
  {
    hide Nodes, Within, StringsCapped;
    Alone(y);
    assert [x, y][1..] == [y] && [x, y][0] == x;
  }

  lemma ListOfIntegers(xs: seq<Item>)
    requires Integers(xs)
    ensures Nodes(Array(xs)) == 1 + |xs| && Within(Array(xs), MAX_DEPTH) && StringsCapped(Array(xs))
  {
    hide Integer;
    IntegersEncode(xs);
  }

  lemma ListIsSmall(inst: U16, xs: seq<Item>)
    requires Integers(xs) && |xs| <= 512
    ensures var both := [UInt(inst), Array(xs)];
            NodesOf(both) <= 514 && AllWithin(both, MAX_DEPTH) && AllStringsCapped(both)
  {
    hide Integer, AllWithin, AllStringsCapped, NodesOf;
    ListOfIntegers(xs);
    InFrontOfOne(UInt(inst), Array(xs));
  }

  // ---- What the device reads ----

  lemma {:induction false} RegisterItemsInjective(a: seq<U16>, b: seq<U16>)
    requires RegisterItems(a) == RegisterItems(b)
    ensures a == b
  {
    if a != [] {
      assert RegisterItems(a)[0] == RegisterItems(b)[0];
      assert RegisterItems(a)[1..] == RegisterItems(a[1..]) && RegisterItems(b)[1..] == RegisterItems(b[1..]);
      RegisterItemsInjective(a[1..], b[1..]);
      assert a == [a[0]] + a[1..] && b == [b[0]] + b[1..];
    }
  }

  lemma {:induction false} IndexItemsInjective(a: seq<Records.I64>, b: seq<Records.I64>)
    requires IndexItems(a) == IndexItems(b)
    ensures a == b
  {
    if a != [] {
      assert IndexItems(a)[0] == IndexItems(b)[0];
      assert IndexItems(a)[1..] == IndexItems(a[1..]) && IndexItems(b)[1..] == IndexItems(b[1..]);
      IndexItemsInjective(a[1..], b[1..]);
      assert a == [a[0]] + a[1..] && b == [b[0]] + b[1..];
    }
  }

  /** Decoding an accepted request's payload gives its opcode, instance and list, and no other request has the same payload. */
  lemma RequestRoundTrip(r: Request)
    requires !OverLimit(r)
    ensures AllEncodable(ItemsOf(r)) && DecodeStream(EncodeAll(ItemsOf(r))) == Ok(ItemsOf(r))
  {
    RequestEncodes(r);
    StreamRoundTrip(ItemsOf(r));
  }

  lemma RequestsAreDistinct(r: Request, other: Request)
    requires !OverLimit(r) && !OverLimit(other) && r != other
    ensures AllEncodable(ItemsOf(r)) && AllEncodable(ItemsOf(other)) && EncodeAll(ItemsOf(r)) != EncodeAll(ItemsOf(other))
  {
    hide DecodeStream, EncodeAll, AllEncodable;
    RequestRoundTrip(r);
    RequestRoundTrip(other);
    if EncodeAll(ItemsOf(r)) == EncodeAll(ItemsOf(other)) {
      ItemsDetermineRequest(r, other);
    }
  }

  lemma ItemsDetermineRequest(r: Request, other: Request)
    requires ItemsOf(r) == ItemsOf(other)
    ensures r == other
  {
    hide RegisterItems, IndexItems;
    var a, b := ItemsOf(r), ItemsOf(other);
    assert a[0] == b[0];
    assert |a| > 1 ==> a[1] == b[1];
    if |a| > 2 {
      assert a[2] == b[2];
      if r.GetValues? {
        RegisterItemsInjective(r.registers, other.registers);
      } else {
        IndexItemsInjective(r.pathIndexes, other.pathIndexes);
      }
    }
  }

  // ---- On the wire ----

  /** The first byte of a request tells its kind, and a device list is asked for in that byte alone. */
  lemma FirstByteIsOpcode(r: Request)
    requires !OverLimit(r)
    ensures AllEncodable(ItemsOf(r)) && EncodeAll(ItemsOf(r)) != []
    ensures var payload := EncodeAll(ItemsOf(r));
            && (payload[0] == 0x01 <==> r.GetDevices?) && (payload[0] == 0x03 <==> r.Subscribe?)
            && (payload[0] == 0x05 <==> r.GetValues?) && (payload[0] == 0x0a <==> r.GetPathList?)
            && (payload[0] == 0x0b <==> r.GetPathValues?) && (r.GetDevices? ==> payload == [0x01])
  {
    hide Tail;
    RequestEncodes(r);
    if r.GetDevices? {
      NoTail(r);
    }
  }

  lemma NoTail(r: Request)
    requires r.GetDevices?
    ensures Tail(r) == []
  {
  }
}

/**
  Response records read off decoded items. A scan moves a window over the items: the item at its front decides how
  many items belong to it, and only those decide what record it is.
 */
module Records {
  import opened Wrappers
  import opened Bytes
  import opened Cbor
  import opened Sequences

  datatype ResponseCode = Accepted | Unknown1 | Rejected | Other(code: Byte)

  type U64 = n: nat | n < 0x1_0000_0000_0000_0000
  type U16 = n: nat | n < 0x1_0000
  type I64 = n: int | -0x8000_0000_0000_0000 <= n < 0x8000_0000_0000_0000

  datatype Response =
    | DeviceList(devices: seq<(nat, nat)>)
    | Reply(instance: nat, request: nat, code: ResponseCode)
    | Value(instance: nat, register: U16, data: seq<Byte>)
    | ValueResponse(instance: nat, register: U16, code: ResponseCode)
    | PathList(instance: nat, compressed: seq<Byte>)
    | NewPath(instance: nat, pathIndex: I64, path: seq<Byte>)
    | PathValue(instance: nat, pathIndex: I64, value: Item)
    | PathResponse(instance: nat, pathIndex: I64, code: ResponseCode)
    | Unknown(opcode: nat)

  // ---- Single items ----

  function At(items: seq<Item>, k: nat): Option<Item> {
    if k < |items| then Some(items[k]) else None
  }

  function AsI64(item: Option<Item>): Option<I64> {
    match item
    case Some(Int(v)) => if -0x8000_0000_0000_0000 <= v < 0x8000_0000_0000_0000 then Some(v) else None
    case Some(UInt(n)) => if n <= I64_MAX then Some(n) else None
    case _ => None
  }

  function AsResponseCode(item: Option<Item>): Option<Byte> {
    match AsI64(item)
    case Some(v) => if 0 <= v <= 255 then Some(v) else None
    case None => None
  }

  function CodeFrom(b: Byte): ResponseCode {
    match b
    case 0 => Accepted
    case 1 => Unknown1
    case 2 => Rejected
    case _ => Other(b)
  }

  // The unsigned pairs of a device list, unless an element is left over or is no unsigned integer.
  function Pairs(entries: seq<Item>): Option<seq<(nat, nat)>> {
    if entries == [] then Some([])
    else if |entries| == 1 || !entries[0].UInt? || !entries[1].UInt? then None
    else
      match Pairs(entries[2..])
      case Some(others) => Some([(entries[0].n, entries[1].n)] + others)
      case None => None
  }

  // A signed index has one form on the wire for each sign.
  function IndexItem(index: I64): Item {
    if index >= 0 then UInt(index) else Int(index)
  }

  // ---- One record ----

  // How many items a record that begins with this one has; anything unrecognised stands alone.
  function Width(front: Item): (w: nat)
    ensures 1 <= w <= 4
  {
    if !front.UInt? then 1
    else if front.n == 0x02 then 2
    else if front.n == 0x0d then 3
    else if front.n in {0x07, 0x08, 0x09, 0x0e, 0x0f, 0x10} then 4
    else 1
  }

  // The record at the front of the items, if its opcode is known.
  function Recognise(s: seq<Item>): Result<Option<Response>, ProtocolError>
    requires s != []
  {
    if !s[0].UInt? then Ok(None)
    else
      var opcode := s[0].n;
      var unknown := Ok(Some(Unknown(opcode)));
      match opcode
      case 0x02 => Ok(Some(Devices(At(s, 1))))
      case 0x07 =>
        (match (At(s, 1), At(s, 2), AsResponseCode(At(s, 3)))
         case (Some(UInt(inst)), Some(UInt(req)), Some(code)) => Ok(Some(Reply(inst, req, CodeFrom(code))))
         case _ => unknown)
      case 0x08 =>
        (match (At(s, 1), At(s, 2), At(s, 3))
         case (Some(UInt(inst)), Some(UInt(reg)), Some(Bytes(data))) =>
           if reg >= 0x1_0000 then Err(RegisterOutOfRange(reg)) else Ok(Some(Value(inst, reg, data)))
         case _ => unknown)
      case 0x09 =>
        (match (At(s, 1), At(s, 2), AsResponseCode(At(s, 3)))
         case (Some(UInt(inst)), Some(UInt(reg)), Some(code)) =>
           if reg >= 0x1_0000 then Err(RegisterOutOfRange(reg)) else Ok(Some(ValueResponse(inst, reg, CodeFrom(code))))
         case _ => unknown)
      case 0x0d =>
        (match (At(s, 1), At(s, 2))
         case (Some(UInt(inst)), Some(Bytes(blob))) => Ok(Some(PathList(inst, blob)))
         case _ => unknown)
      case 0x0e =>
        (match (At(s, 1), AsI64(At(s, 2)), At(s, 3))
         case (Some(UInt(inst)), Some(idx), Some(Text(path))) => Ok(Some(NewPath(inst, idx, path)))
         case _ => unknown)
      case 0x0f =>
        (match (At(s, 1), AsI64(At(s, 2)), At(s, 3))
         case (Some(UInt(inst)), Some(idx), Some(value)) => Ok(Some(PathValue(inst, idx, value)))
         case _ => unknown)
      case 0x10 =>
        (match (At(s, 1), AsI64(At(s, 2)), AsResponseCode(At(s, 3)))
         case (Some(UInt(inst)), Some(idx), Some(code)) => Ok(Some(PathResponse(inst, idx, CodeFrom(code))))
         case _ => unknown)
      case _ => Ok(None)
  }

  function Devices(item: Option<Item>): Response {
    match item
    case Some(Array(entries)) =>
      (match Pairs(entries)
       case Some(pairs) => DeviceList(pairs)
       case None => Unknown(0x02))
    case _ => Unknown(0x02)
  }

  // ---- The scan ----

  function Emitted(record: Option<Response>): seq<Response> {
    match record
    case Some(r) => [r]
    case None => []
  }

  function Drop(s: seq<Item>, n: nat): seq<Item> {
    if n <= |s| then s[n..] else []
  }

  function Take(s: seq<Item>, n: nat): seq<Item> {
    if n <= |s| then s[..n] else s
  }

  function Scan(s: seq<Item>): Result<seq<Response>, ProtocolError>
    decreases |s|
  {
    if s == [] then Ok([])
    else
      var record :- Recognise(s);
      var others :- Scan(Drop(s, Width(s[0])));
      Ok(Emitted(record) + others)
  }

  // What a scan gives behind records already found.
  function After(found: seq<Response>, r: Result<seq<Response>, ProtocolError>): Result<seq<Response>, ProtocolError> {
    match r
    case Ok(more) => Ok(found + more)
    case Err(e) => Err(e)
  }

  method PairUp(entries: seq<Item>) returns (r: Option<seq<(nat, nat)>>)
    ensures r == Pairs(entries)
  {
    var pairs: seq<(nat, nat)> := [];
    var e := 0;
    assert entries[0..] == entries;
    assert Pairs(entries).Some? ==> [] + Pairs(entries).value == Pairs(entries).value;
    while e < |entries|
      invariant 0 <= e <= |entries|
      invariant Pairs(entries)
                == match Pairs(entries[e..]) case Some(others) => Some(pairs + others) case None => None
    {
      if e + 1 == |entries| || !entries[e].UInt? || !entries[e + 1].UInt? {
        return None;
      }
      var pair := (entries[e].n, entries[e + 1].n);
      ghost var others := Pairs(entries[e + 2..]);
      assert entries[e..][2..] == entries[e + 2..];
      assert others.Some? ==> pairs + ([pair] + others.value) == (pairs + [pair]) + others.value;
      pairs := pairs + [pair];
      e := e + 2;
    }
    assert entries[e..] == [];
    assert pairs + [] == pairs;
    r := Some(pairs);
  }

  method ReadRecord(s: seq<Item>) returns (r: Result<Option<Response>, ProtocolError>)
    requires s != []
    ensures r == Recognise(s)
  {
    if s[0] == UInt(0x02) && |s| > 1 && s[1].Array? {
      var pairs := PairUp(s[1].items);
      r := Ok(Some(match pairs case Some(ps) => DeviceList(ps) case None => Unknown(0x02)));
    } else {
      r := Recognise(s);
    }
  }

  // The records found so far in front of what the rest of the items gives.
  lemma ScanContinues(found: seq<Response>, items: seq<Item>, i: nat)
    requires i < |items| && Recognise(items[i..]).Ok?
    ensures After(found, Scan(Drop(items, i)))
            == After(found + Emitted(Recognise(items[i..]).value), Scan(Drop(items, i + Width(items[i]))))
  {
    hide Recognise, Width;
    var record, others := Recognise(items[i..]).value, Scan(Drop(items, i + Width(items[i])));
    assert Drop(items[i..], Width(items[i])) == Drop(items, i + Width(items[i]));
    if others.Ok? {
      Associative(found, Emitted(record), others.value);
    }
  }

  method ParseItems(items: seq<Item>) returns (r: Result<seq<Response>, ProtocolError>)
    ensures r == Scan(items)
  {
    hide Recognise, Width, Scan;
    var out: seq<Response> := [];
    var i := 0;
    assert items[0..] == items;
    AfterNothing(Scan(items));
    while i < |items|
      invariant 0 <= i
      invariant After(out, Scan(Drop(items, i))) == Scan(items)
      decreases |items| - i
    {
      var record := ReadRecord(items[i..]);
      if record.Err? {
        ScanStops(items, i);
        return Err(record.error);
      }
      ScanContinues(out, items, i);
      out := out + Emitted(record.value);
      i := i + Width(items[i]);
    }
    assert Drop(items, i) == [];
    ScanNothing();
    Unit(out);
    r := Ok(out);
  }

  lemma ScanStops(items: seq<Item>, i: nat)
    requires i < |items| && Recognise(items[i..]).Err?
    ensures Scan(Drop(items, i)) == Err(Recognise(items[i..]).error)
  {
    hide Recognise, Width;
  }

  lemma AfterNothing(r: Result<seq<Response>, ProtocolError>)
    ensures After([], r) == r
  {
    if r.Ok? {
      Unit(r.value);
    }
  }

  lemma ScanNothing()
    ensures Scan([]) == Ok([])
  {
  }

  function ParseStream(payload: seq<Byte>): Result<seq<Response>, ProtocolError> {
    var items :- DecodeStream(payload);
    Scan(items)
  }
}

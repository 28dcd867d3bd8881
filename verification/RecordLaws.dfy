/**
  Scanning inverts serialising, and what a scan emits comes from windows that partition the items.
 */
module RecordLaws {
  import opened Wrappers
  import opened Bytes
  import opened Cbor
  import opened CborLaws
  import opened Records
  import Sequences

  // ---- Windows ----

  // Where the scan from `i` looks for an opcode.
  function Starts(s: seq<Item>, i: nat): (ks: seq<nat>)
    ensures forall j :: 0 <= j < |ks| ==> i <= ks[j] < |s|
    decreases |s| - i
  {
    if i >= |s| then [] else [i] + Starts(s, i + Width(s[i]))
  }

  function Window(s: seq<Item>, k: nat): seq<Item>
    requires k < |s|
  {
    Take(s[k..], Width(s[k]))
  }

  // Each window recognised on its own.
  function Collect(s: seq<Item>, ks: seq<nat>): Result<seq<Response>, ProtocolError>
    requires forall j :: 0 <= j < |ks| ==> ks[j] < |s|
  {
    if ks == [] then Ok([])
    else
      var record :- Recognise(Window(s, ks[0]));
      var others :- Collect(s, ks[1..]);
      Ok(Emitted(record) + others)
  }

  lemma OnlyTheWindowMatters(s: seq<Item>)
    requires s != []
    ensures Recognise(Take(s, Width(s[0]))) == Recognise(s)
  {
    var w := Take(s, Width(s[0]));
    assert At(w, 0) == At(s, 0);
    assert Width(s[0]) > 1 ==> At(w, 1) == At(s, 1);
    assert Width(s[0]) > 2 ==> At(w, 2) == At(s, 2);
    assert Width(s[0]) > 3 ==> At(w, 3) == At(s, 3);
  }

  /** The scan's output is what its windows give one by one. */
  lemma {:induction false} ScanReadsWindows(s: seq<Item>, i: nat)
    requires i <= |s|
    ensures Scan(s[i..]) == Collect(s, Starts(s, i))
    decreases |s| - i
  {
    hide Recognise, Width;
    if i < |s| {
      OnlyTheWindowMatters(s[i..]);
      var next := i + Width(s[i]);
      if next <= |s| {
        ScanReadsWindows(s, next);
        assert s[i..][Width(s[i])..] == s[next..];
      } else {
        assert Starts(s, next) == [];
      }
      assert Starts(s, i)[1..] == Starts(s, next);
    }
  }

  lemma WindowLength(s: seq<Item>, k: nat)
    requires k < |s|
    ensures |Window(s, k)| == if k + Width(s[k]) <= |s| then Width(s[k]) else |s| - k
  {
  }

  /** The windows lie one behind the other without gap or overlap, from the first item to the last. */
  lemma {:induction false} WindowsPartition(s: seq<Item>, i: nat)
    requires i < |s|
    ensures var ks := Starts(s, i);
            && ks != [] && ks[0] == i
            && (forall m :: 0 <= m < |ks| - 1 ==> ks[m + 1] == ks[m] + |Window(s, ks[m])|)
            && ks[|ks| - 1] + |Window(s, ks[|ks| - 1])| == |s|
    decreases |s| - i
  {
    hide Width, Window;
    var next := i + Width(s[i]);
    WindowLength(s, i);
    if next < |s| {
      WindowsPartition(s, next);
      var ks, later := Starts(s, i), Starts(s, next);
      forall m | 0 <= m < |ks| - 1
        ensures ks[m + 1] == ks[m] + |Window(s, ks[m])|
      {
        if m > 0 {
          assert ks[m] == later[m - 1] && ks[m + 1] == later[m];
        }
      }
    }
  }

  /** Whatever stands in a window behind its opcode, the scan looks for opcodes in the same places. */
  lemma {:induction false} ParametersAreNeverOpcodes(s: seq<Item>, t: seq<Item>, i: nat)
    requires |s| == |t| && forall j :: 0 <= j < |Starts(s, i)| ==> t[Starts(s, i)[j]] == s[Starts(s, i)[j]]
    ensures Starts(t, i) == Starts(s, i)
    decreases |s| - i
  {
    hide Width;
    if i < |s| {
      var next := i + Width(s[i]);
      assert Starts(s, i)[0] == i;
      forall j | 0 <= j < |Starts(s, next)|
        ensures t[Starts(s, next)[j]] == s[Starts(s, next)[j]]
      {
        assert Starts(s, i)[j + 1] == Starts(s, next)[j];
      }
      ParametersAreNeverOpcodes(s, t, next);
    }
  }

  // ---- Failure ----

  // A value or its acknowledgement for a register beyond 16 bits.
  predicate BadRegister(w: seq<Item>) {
    && |w| >= 4 && w[1].UInt? && w[2].UInt? && w[2].n >= 0x1_0000
    && ((w[0] == UInt(0x08) && w[3].Bytes?) || (w[0] == UInt(0x09) && AsResponseCode(Some(w[3])).Some?))
  }

  lemma RecogniseFailsExactly(s: seq<Item>)
    requires s != []
    ensures Recognise(s).Err? <==> BadRegister(s)
    ensures Recognise(s).Err? ==> Recognise(s).error == RegisterOutOfRange(s[2].n)
  {
  }

  ghost predicate AnyBadWindow(s: seq<Item>, ks: seq<nat>)
    requires forall j :: 0 <= j < |ks| ==> ks[j] < |s|
  {
    exists j :: 0 <= j < |ks| && BadRegister(Window(s, ks[j]))
  }

  lemma {:induction false} CollectFailsExactly(s: seq<Item>, ks: seq<nat>)
    requires forall j :: 0 <= j < |ks| ==> ks[j] < |s|
    ensures Collect(s, ks).Err? <==> AnyBadWindow(s, ks)
  {
    hide Recognise, BadRegister, Window, Width;
    if ks != [] {
      assert Window(s, ks[0]) != [] by {
        WindowIsNotEmpty(s, ks[0]);
      }
      RecogniseFailsExactly(Window(s, ks[0]));
      CollectFailsExactly(s, ks[1..]);
      if AnyBadWindow(s, ks) {
        var j :| 0 <= j < |ks| && BadRegister(Window(s, ks[j]));
        assert j > 0 ==> ks[1..][j - 1] == ks[j];
      }
      if AnyBadWindow(s, ks[1..]) {
        var j :| 0 <= j < |ks[1..]| && BadRegister(Window(s, ks[1..][j]));
        assert ks[j + 1] == ks[1..][j];
      }
    }
  }

  lemma WindowIsNotEmpty(s: seq<Item>, k: nat)
    requires k < |s|
    ensures Window(s, k) != []
  {
  }

  /** A scan fails exactly when some window carries a register beyond 16 bits; no malformed shape ever fails it. */
  lemma ScanFailsExactly(s: seq<Item>)
    ensures Scan(s).Err? <==> AnyBadWindow(s, Starts(s, 0))
  {
    ScanReadsWindows(s, 0);
    assert s[0..] == s;
    CollectFailsExactly(s, Starts(s, 0));
  }

  // ---- Concatenation ----

  // Whether the last window is complete.
  predicate Aligned(s: seq<Item>)
    decreases |s|
  {
    s == [] || (Width(s[0]) <= |s| && Aligned(s[Width(s[0])..]))
  }

  function JoinScans(a: Result<seq<Response>, ProtocolError>, b: Result<seq<Response>, ProtocolError>)
    : Result<seq<Response>, ProtocolError>
  {
    match a
    case Ok(found) => After(found, b)
    case Err(e) => Err(e)
  }

  lemma RecogniseInFront(a: seq<Item>, b: seq<Item>)
    requires a != [] && Width(a[0]) <= |a|
    ensures Recognise(a + b) == Recognise(a)
  {
    hide Recognise;
    OnlyTheWindowMatters(a + b);
    OnlyTheWindowMatters(a);
    assert Take(a + b, Width(a[0])) == Take(a, Width(a[0]));
  }

  /** Behind complete records the scan starts afresh. */
  lemma {:induction false} ScanConcatenates(a: seq<Item>, b: seq<Item>)
    requires Aligned(a)
    ensures Scan(a + b) == JoinScans(Scan(a), Scan(b))
    decreases |a|
  {
    hide Recognise, Width;
    if a == [] {
      assert a + b == b;
      assert Scan(b).Ok? ==> [] + Scan(b).value == Scan(b).value;
    } else {
      var w := Width(a[0]);
      RecogniseInFront(a, b);
      assert Drop(a + b, w) == a[w..] + b;
      ScanConcatenates(a[w..], b);
      if Recognise(a).Ok? && Scan(a[w..]).Ok? && Scan(b).Ok? {
        var e := Emitted(Recognise(a).value);
        assert e + (Scan(a[w..]).value + Scan(b).value) == (e + Scan(a[w..]).value) + Scan(b).value;
      }
    }
  }

  lemma {:induction false} AlignedConcatenates(a: seq<Item>, b: seq<Item>)
    requires Aligned(a) && Aligned(b)
    ensures Aligned(a + b)
    decreases |a|
  {
    hide Width;
    if a == [] {
      assert a + b == b;
    } else {
      AlignedConcatenates(a[Width(a[0])..], b);
      assert (a + b)[Width(a[0])..] == a[Width(a[0])..] + b;
    }
  }

  // ---- Serialising ----

  function PairItems(ps: seq<(nat, nat)>): seq<Item> {
    if ps == [] then [] else [UInt(ps[0].0), UInt(ps[0].1)] + PairItems(ps[1..])
  }

  function CodeByte(code: ResponseCode): Byte {
    match code
    case Accepted => 0
    case Unknown1 => 1
    case Rejected => 2
    case Other(b) => b
  }

  // The items of a record; an unknown one has no form of its own.
  function Serialise(r: Response): seq<Item>
    requires !r.Unknown?
  {
    match r
    case DeviceList(devices) => [UInt(0x02), Array(PairItems(devices))]
    case Reply(inst, request, code) => [UInt(0x07), UInt(inst), UInt(request), UInt(CodeByte(code))]
    case Value(inst, register, data) => [UInt(0x08), UInt(inst), UInt(register), Item.Bytes(data)]
    case ValueResponse(inst, register, code) => [UInt(0x09), UInt(inst), UInt(register), UInt(CodeByte(code))]
    case PathList(inst, compressed) => [UInt(0x0d), UInt(inst), Item.Bytes(compressed)]
    case NewPath(inst, index, path) => [UInt(0x0e), UInt(inst), IndexItem(index), Text(path)]
    case PathValue(inst, index, value) => [UInt(0x0f), UInt(inst), IndexItem(index), value]
    case PathResponse(inst, index, code) => [UInt(0x10), UInt(inst), IndexItem(index), UInt(CodeByte(code))]
  }

  predicate AllKnown(rs: seq<Response>) {
    forall i :: 0 <= i < |rs| ==> !rs[i].Unknown?
  }

  function SerialiseAll(rs: seq<Response>): seq<Item>
    requires AllKnown(rs)
  {
    if rs == [] then [] else Serialise(rs[0]) + SerialiseAll(rs[1..])
  }

  // The named codes have one spelling only.
  predicate Canonical(r: Response) {
    match r
    case Reply(_, _, Other(b)) => b > 2
    case ValueResponse(_, _, Other(b)) => b > 2
    case PathResponse(_, _, Other(b)) => b > 2
    case _ => true
  }

  predicate AllCanonical(rs: seq<Response>) {
    forall i :: 0 <= i < |rs| ==> Canonical(rs[i])
  }

  lemma {:induction false} PairsRoundTrip(ps: seq<(nat, nat)>)
    ensures Pairs(PairItems(ps)) == Some(ps)
  {
    if ps != [] {
      PairsRoundTrip(ps[1..]);
      assert PairItems(ps)[2..] == PairItems(ps[1..]);
      assert [(ps[0].0, ps[0].1)] + ps[1..] == ps;
    }
  }

  lemma RecordRoundTrip(r: Response)
    requires !r.Unknown?
    ensures Width(Serialise(r)[0]) == |Serialise(r)|
    ensures Recognise(Serialise(r)) == Ok(Some(r)) <==> Canonical(r)
    ensures Recognise(Serialise(r)).Ok? && Recognise(Serialise(r)).value.Some?
  {
    hide Pairs, PairItems;
    if r.DeviceList? {
      PairsRoundTrip(r.devices);
    }
  }

  lemma RecordScan(r: Response)
    requires !r.Unknown?
    ensures Aligned(Serialise(r)) && Scan(Serialise(r)).Ok? && |Scan(Serialise(r)).value| == 1
    ensures Scan(Serialise(r)) == Ok([r]) <==> Canonical(r)
  {
    hide Recognise, Canonical, Width, Serialise;
    RecordRoundTrip(r);
    var s := Serialise(r);
    assert s[Width(s[0])..] == [] && Drop(s, Width(s[0])) == [];
    var seen := Recognise(s).value.value;
    assert Scan(s) == Ok([seen] + []);
    assert [seen] + [] == [seen];
    assert [seen] == [r] <==> seen == r by {
      assert [seen][0] == seen && [r][0] == r;
    }
  }

  lemma {:induction false} RecordsScan(rs: seq<Response>)
    requires AllKnown(rs)
    ensures Aligned(SerialiseAll(rs)) && Scan(SerialiseAll(rs)).Ok? && |Scan(SerialiseAll(rs)).value| == |rs|
    ensures Scan(SerialiseAll(rs)) == Ok(rs) <==> AllCanonical(rs)
  {
    hide Recognise, Canonical, Width, Serialise, Scan, Aligned;
    if rs == [] {
      assert Scan([]) == Ok([]) && Aligned([]) by {
        NothingToScan();
      }
    } else {
      var front, rest := Serialise(rs[0]), SerialiseAll(rs[1..]);
      RecordScan(rs[0]);
      RecordsScan(rs[1..]);
      ScanConcatenates(front, rest);
      AlignedConcatenates(front, rest);
      var x, xs := Scan(front).value, Scan(rest).value;
      assert rs == [rs[0]] + rs[1..];
      assert x + xs == rs <==> x == [rs[0]] && xs == rs[1..] by {
        assert x == (x + xs)[..1] && xs == (x + xs)[1..];
        assert [rs[0]] == rs[..1];
      }
      assert AllCanonical(rs) <==> Canonical(rs[0]) && AllCanonical(rs[1..]);
    }
  }

  lemma NothingToScan()
    ensures Scan([]) == Ok([]) && Aligned([])
  {
  }

  // ---- On the wire ----

  // What the field types of a record allow on the wire.
  predicate Sendable(r: Response) {
    match r
    case DeviceList(devices) => |devices| < 0x1000_0000_0000_0000 && AllEncodable(PairItems(devices))
    case Reply(inst, request, _) => inst < 0x1_0000_0000_0000_0000 && request < 0x1_0000_0000_0000_0000
    case Value(inst, _, data) => inst < 0x1_0000_0000_0000_0000 && Encodable(Item.Bytes(data))
    case ValueResponse(inst, _, _) => inst < 0x1_0000_0000_0000_0000
    case PathList(inst, compressed) => inst < 0x1_0000_0000_0000_0000 && Encodable(Item.Bytes(compressed))
    case NewPath(inst, _, path) => inst < 0x1_0000_0000_0000_0000 && Encodable(Text(path))
    case PathValue(inst, _, value) => inst < 0x1_0000_0000_0000_0000 && Encodable(value)
    case PathResponse(inst, _, _) => inst < 0x1_0000_0000_0000_0000
    case Unknown(_) => false
  }

  predicate AllSendable(rs: seq<Response>) {
    forall i :: 0 <= i < |rs| ==> Sendable(rs[i])
  }

  lemma {:induction false} PairItemsLength(ps: seq<(nat, nat)>)
    ensures |PairItems(ps)| == 2 * |ps|
  {
    if ps != [] {
      PairItemsLength(ps[1..]);
    }
  }

  lemma {:induction false} EncodableConcatenates(a: seq<Item>, b: seq<Item>)
    requires AllEncodable(a) && AllEncodable(b)
    ensures AllEncodable(a + b)
  {
    hide Encodable;
    if a == [] {
      assert a + b == b;
    } else {
      EncodableConcatenates(a[1..], b);
      assert (a + b)[1..] == a[1..] + b;
    }
  }

  lemma SerialisedIsEncodable(r: Response)
    requires Sendable(r)
    ensures AllEncodable(Serialise(r))
  {
    if r.DeviceList? {
      PairItemsLength(r.devices);
    }
    var s := Serialise(r);
    assert AllEncodable(s) by {
      FourEncodable(s);
    }
  }

  lemma FourEncodable(s: seq<Item>)
    requires |s| <= 4 && forall i :: 0 <= i < |s| ==> Encodable(s[i])
    ensures AllEncodable(s)
  {
    hide Encodable;
    if s != [] {
      FourEncodable(s[1..]);
    }
  }

  lemma {:induction false} AllSerialisedEncodable(rs: seq<Response>)
    requires AllSendable(rs)
    ensures AllKnown(rs) && AllEncodable(SerialiseAll(rs))
  {
    hide Encodable, Serialise;
    if rs != [] {
      SerialisedIsEncodable(rs[0]);
      AllSerialisedEncodable(rs[1..]);
      EncodableConcatenates(Serialise(rs[0]), SerialiseAll(rs[1..]));
    }
  }

  /** Within the decoder's limits, parsing the concatenated encoding of records returns them, if their codes are canonical. */
  lemma RecordStreamRoundTrip(rs: seq<Response>)
    requires AllSendable(rs)
    ensures AllKnown(rs) && AllEncodable(SerialiseAll(rs))
    ensures WithinLimits(SerialiseAll(rs))
            ==> (ParseStream(EncodeAll(SerialiseAll(rs))) == Ok(rs) <==> AllCanonical(rs))
  {
    AllSerialisedEncodable(rs);
    RecordsScan(rs);
    StreamRoundTrip(SerialiseAll(rs));
  }

  /** Two payloads of whole records back to back parse to both lists of records, when they fit the budget together. */
  lemma PayloadsConcatenate(a: seq<Byte>, b: seq<Byte>)
    requires DecodeStream(a).Ok? && DecodeStream(b).Ok? && Aligned(DecodeStream(a).value)
    requires NodesOf(DecodeStream(a).value) + NodesOf(DecodeStream(b).value) <= MAX_ITEMS
    ensures ParseStream(a + b) == JoinScans(ParseStream(a), ParseStream(b))
  {
    hide DecodeStream, Scan, Aligned;
    StreamsConcatenate(a, b);
    ScanConcatenates(DecodeStream(a).value, DecodeStream(b).value);
  }

  // ---- What is recognised ----

  // The items the decoder gives have negative integers only where a signed one is needed.
  predicate FromWire(s: seq<Item>) {
    forall i :: 0 <= i < |s| ==> (s[i].Int? ==> s[i].v < 0)
  }

  lemma {:induction false} PairsAreItems(entries: seq<Item>)
    requires Pairs(entries).Some?
    ensures entries == PairItems(Pairs(entries).value)
  {
    if entries != [] {
      PairsAreItems(entries[2..]);
      var pair, others := (entries[0].n, entries[1].n), Pairs(entries[2..]).value;
      Sequences.Halves([pair], others);
      assert entries == [entries[0], entries[1]] + entries[2..];
    }
  }

  // What is recognised stands there item by item.
  lemma RecognisedStandsThere(s: seq<Item>)
    requires s != [] && FromWire(s) && Recognise(s).Ok? && Recognise(s).value.Some? && !Recognise(s).value.value.Unknown?
    ensures var r := Recognise(s).value.value;
            Canonical(r) && |Serialise(r)| <= |s| && forall i :: 0 <= i < |Serialise(r)| ==> s[i] == Serialise(r)[i]
  {
    hide Pairs, PairItems;
    if Recognise(s).value.value.DeviceList? {
      PairsAreItems(s[1].items);
    }
  }

  /** A record is recognised exactly when the items begin with it, item by item, and its code is canonical. */
  lemma RecognitionIsExact(s: seq<Item>, r: Response)
    requires s != [] && FromWire(s) && !r.Unknown?
    ensures Recognise(s) == Ok(Some(r)) <==> Serialise(r) <= s && Canonical(r)
  {
    RecordRoundTrip(r);
    var form := Serialise(r);
    hide Recognise, Serialise, Canonical, Width;
    if form <= s {
      OnlyTheWindowMatters(s);
      assert Take(s, |form|) == form && form[0] == s[0];
      OnlyTheWindowMatters(form);
    }
    if Recognise(s) == Ok(Some(r)) {
      RecognisedStandsThere(s);
      assert form <= s;
    }
  }

  const OPCODES: set<nat> := {0x02, 0x07, 0x08, 0x09, 0x0d, 0x0e, 0x0f, 0x10}

  predicate IsOpcode(x: Item) {
    x.UInt? && x.n in OPCODES
  }

  /** An opcode always gives a record, an unknown one of that opcode if the shape is wrong; anything else gives none. */
  lemma OpcodeGivesRecord(s: seq<Item>)
    requires s != [] && Recognise(s).Ok?
    ensures Recognise(s).value.Some? <==> IsOpcode(s[0])
    ensures !IsOpcode(s[0]) ==> Width(s[0]) == 1
    ensures Recognise(s).value.Some? && Recognise(s).value.value.Unknown? ==> s[0] == UInt(Recognise(s).value.value.opcode)
  {
    hide Pairs;
  }

  /** Items that are no opcodes are skipped one at a time and leave no record. */
  lemma {:induction false} JunkIsSkipped(junk: seq<Item>, s: seq<Item>)
    requires forall i :: 0 <= i < |junk| ==> !IsOpcode(junk[i])
    ensures Scan(junk + s) == Scan(s)
    decreases |junk|
  {
    hide Recognise, Width, IsOpcode;
    if junk == [] {
      Sequences.Unit(s);
    } else {
      Sequences.RestOfSum(junk, s);
      assert Recognise(junk + s).Ok? by {
        RecogniseFailsExactly(junk + s);
        NoBadRegister(junk + s);
      }
      OpcodeGivesRecord(junk + s);
      JunkIsSkipped(junk[1..], s);
      if Scan(s).Ok? {
        Sequences.Unit(Scan(s).value);
      }
    }
  }

  lemma NoBadRegister(s: seq<Item>)
    requires s != [] && !IsOpcode(s[0])
    ensures !BadRegister(s)
  {
  }
}

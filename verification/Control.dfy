/**
  Messages of the control characteristic: single opcodes with fixed operands, alone or concatenated.
 */
module Control {
  import opened Wrappers
  import opened Bytes
  import opened Cbor
  import opened Records
  import opened Sequences

  datatype ControlMessage =
    | Error(code: U16)
    | ClearBuffer
    | ReadyToReceive(freeChunks: Byte)
    | ChunkSize(a: Byte, b: Byte)
    | Unknown(opcode: Byte, len: nat)

  function Encode(m: ControlMessage): (s: seq<Byte>)
    ensures s != []
  {
    match m
    case Error(code) => [0xf7, code % 256, code / 256]
    case ClearBuffer => [0xf8]
    case ReadyToReceive(free) => [0xf9, free]
    case ChunkSize(a, b) => [0xfa, a, b]
    case Unknown(opcode, _) => [opcode]
  }

  function LittleEndian(low: int, high: int): int {
    low + 256 * high
  }

  // Exactly one message.
  function Parse(data: seq<Byte>): Result<ControlMessage, ProtocolError> {
    if data == [] then Err(Truncated)
    else
      match data[0]
      case 0xf7 =>
        if |data| == 2 then Ok(Error(data[1]))
        else if |data| == 3 then Ok(Error(LittleEndian(data[1], data[2])))
        else Err(Malformed)
      case 0xf8 => if |data| == 1 then Ok(ClearBuffer) else Err(Malformed)
      case 0xf9 => if |data| == 2 then Ok(ReadyToReceive(data[1])) else Err(Malformed)
      case 0xfa => if |data| == 3 then Ok(ChunkSize(data[1], data[2])) else Err(Malformed)
      case op => Ok(ControlMessage.Unknown(op, |data|))
  }

  // The width of a message in a concatenated buffer, where an error is always three bytes.
  function StreamWidth(op: Byte): (w: nat)
    ensures 1 <= w <= 3
  {
    match op
    case 0xf7 => 3
    case 0xf9 => 2
    case 0xfa => 3
    case _ => 1
  }

  function Messages(data: seq<Byte>): Result<seq<ControlMessage>, ProtocolError>
    decreases |data|
  {
    if data == [] then Ok([])
    else if StreamWidth(data[0]) > |data| then Err(Malformed)
    else
      var first :- Parse(data[..StreamWidth(data[0])]);
      var others :- Messages(data[StreamWidth(data[0])..]);
      Ok([first] + others)
  }

  function Behind(found: seq<ControlMessage>, r: Result<seq<ControlMessage>, ProtocolError>)
    : Result<seq<ControlMessage>, ProtocolError>
  {
    match r
    case Ok(more) => Ok(found + more)
    case Err(e) => Err(e)
  }

  method ParseStream(data: seq<Byte>) returns (r: Result<seq<ControlMessage>, ProtocolError>)
    ensures r == Messages(data)
  {
    hide Parse, StreamWidth;
    var out: seq<ControlMessage> := [];
    var i := 0;
    assert data[0..] == data;
    BehindNothing(Messages(data));
    while i < |data|
      invariant 0 <= i <= |data|
      invariant Behind(out, Messages(data[i..])) == Messages(data)
    {
      var end := i + StreamWidth(data[i]);
      if end > |data| {
        return Err(Malformed);
      }
      assert data[i..][..end - i] == data[i..end];
      var m :- Parse(data[i..end]);
      assert data[i..][end - i..] == data[end..];
      BehindMore(out, [m], Messages(data[end..]));
      out := out + [m];
      i := end;
    }
    assert data[i..] == [];
    Unit(out);
    r := Ok(out);
  }

  // ---- Printing and parsing are inverse ----

  // A message that stands for itself in a stream: an unknown opcode is one byte and really unknown.
  predicate Plain(m: ControlMessage) {
    m.Unknown? ==> m.len == 1 && !(0xf7 <= m.opcode <= 0xfa)
  }

  predicate AllPlain(ms: seq<ControlMessage>) {
    forall i :: 0 <= i < |ms| ==> Plain(ms[i])
  }

  function EncodeAll(ms: seq<ControlMessage>): seq<Byte> {
    if ms == [] then [] else Encode(ms[0]) + EncodeAll(ms[1..])
  }

  /** One message parses back exactly when it stands for itself. */
  lemma MessageRoundTrip(m: ControlMessage)
    ensures Parse(Encode(m)) == Ok(m) <==> Plain(m)
    ensures Plain(m) ==> StreamWidth(Encode(m)[0]) == |Encode(m)|
  {
  }

  // What a stream begins with when its first message does not stand for itself.
  lemma Misread(m: ControlMessage, rest: seq<Byte>)
    requires !Plain(m)
    ensures Messages(Encode(m) + rest).Ok? ==> Messages(Encode(m) + rest).value[0] != m
  {
    var s := Encode(m) + rest;
    assert s[0] == m.opcode;
    var w := StreamWidth(s[0]);
    assert w <= |s| ==> s[..w][0] == s[0];
  }

  lemma PlainThenRest(m: ControlMessage, rest: seq<Byte>)
    requires Plain(m)
    ensures Messages(Encode(m) + rest) == Behind([m], Messages(rest))
  {
    hide Plain, Encode, Parse, StreamWidth;
    MessageRoundTrip(m);
    var s, w := Encode(m) + rest, |Encode(m)|;
    assert s[0] == Encode(m)[0];
    assert s[..w] == Encode(m) && s[w..] == rest;
  }

  /** A list of messages parses back from its concatenated encoding exactly when every message stands for itself. */
  lemma {:induction false} StreamRoundTrip(ms: seq<ControlMessage>)
    ensures Messages(EncodeAll(ms)) == Ok(ms) <==> AllPlain(ms)
  {
    hide Plain, Encode;
    if ms != [] {
      var m, rest := ms[0], EncodeAll(ms[1..]);
      StreamRoundTrip(ms[1..]);
      assert ms == [m] + ms[1..];
      assert AllPlain(ms) <==> Plain(m) && AllPlain(ms[1..]);
      if Plain(m) {
        PlainThenRest(m, rest);
        if Messages(EncodeAll(ms)) == Ok(ms) {
          assert ([m] + Messages(rest).value)[1..] == Messages(rest).value;
        }
      } else {
        Misread(m, rest);
      }
    }
  }

  /** The messages of an accepted buffer stand for themselves, and their bytes in order are the buffer. */
  lemma {:induction false} MessagesCoverBuffer(data: seq<Byte>)
    requires Messages(data).Ok?
    ensures AllPlain(Messages(data).value) && EncodeAll(Messages(data).value) == data
    decreases |data|
  {
    hide Parse, Encode, Plain, StreamWidth;
    if data != [] {
      var w := StreamWidth(data[0]);
      var m := Parse(data[..w]).value;
      WindowIsMessage(data[..w], m);
      MessagesCoverBuffer(data[w..]);
      var others := Messages(data[w..]).value;
      Halves([m], others);
      Rejoin(data, w);
      assert Messages(data).value == [m] + others;
      PlainInFront(m, others);
    }
  }

  lemma PlainInFront(m: ControlMessage, others: seq<ControlMessage>)
    requires Plain(m) && AllPlain(others)
    ensures AllPlain([m] + others)
  {
    hide Plain;
  }

  lemma WindowIsMessage(s: seq<Byte>, m: ControlMessage)
    requires s != [] && |s| == StreamWidth(s[0]) && Parse(s) == Ok(m)
    ensures Plain(m) && Encode(m) == s
  {
  }

  lemma BehindNothing(r: Result<seq<ControlMessage>, ProtocolError>)
    ensures Behind([], r) == r
  {
    if r.Ok? {
      Unit(r.value);
    }
  }

  lemma BehindMore(a: seq<ControlMessage>, b: seq<ControlMessage>, r: Result<seq<ControlMessage>, ProtocolError>)
    ensures Behind(a, Behind(b, r)) == Behind(a + b, r)
  {
    if r.Ok? {
      Associative(a, b, r.value);
    }
  }

  lemma PrefixStays(data: seq<Byte>, rest: seq<Byte>, w: nat)
    requires w <= |data| && data != []
    ensures (data + rest)[0] == data[0] && (data + rest)[..w] == data[..w] && (data + rest)[w..] == data[w..] + rest
  {
  }

  // What a buffer gives behind messages already read.
  lemma {:induction false} MessagesContinue(data: seq<Byte>, rest: seq<Byte>)
    requires Messages(data).Ok?
    ensures Messages(data + rest) == Behind(Messages(data).value, Messages(rest))
    decreases |data|
  {
    hide Parse, StreamWidth;
    if data == [] {
      Unit(rest);
      BehindNothing(Messages(rest));
    } else {
      var w := StreamWidth(data[0]);
      MessagesContinue(data[w..], rest);
      PrefixStays(data, rest, w);
      var m, others := Parse(data[..w]).value, Messages(data[w..]).value;
      BehindMore([m], others, Messages(rest));
    }
  }

  lemma ErrorTakesAByte(code: Byte, rest: seq<Byte>)
    ensures rest == [] ==> Messages([0xf7, code] + rest) == Err(Malformed)
    ensures rest != [] ==>
              Messages([0xf7, code] + rest) == Behind([Error(LittleEndian(code, rest[0]))], Messages(rest[1..]))
  {
    var data := [0xf7, code] + rest;
    if rest != [] {
      assert data[..3] == [0xf7, code, rest[0]] && data[3..] == rest[1..];
    }
  }

  /**
    A two-byte error is a message on its own. Behind an accepted buffer it is refused exactly when nothing follows it;
    otherwise it takes the first byte that follows, whatever message that byte began, as the upper half of its code.
   */
  lemma ShortErrorSwallows(data: seq<Byte>, code: Byte, rest: seq<Byte>)
    requires Messages(data).Ok?
    ensures Parse([0xf7, code]) == Ok(Error(code))
    ensures Messages(data + ([0xf7, code] + rest))
            == if rest == [] then Err(Malformed)
               else Behind(Messages(data).value + [Error(LittleEndian(code, rest[0]))], Messages(rest[1..]))
  {
    MessagesContinue(data, [0xf7, code] + rest);
    ErrorTakesAByte(code, rest);
    hide Messages;
    if rest != [] {
      BehindMore(Messages(data).value, [Error(LittleEndian(code, rest[0]))], Messages(rest[1..]));
    }
  }

  /** A clear-buffer message behind a two-byte error is lost. */
  lemma ClearBufferIsLost(code: Byte)
    ensures Messages([0xf7, code] + Encode(ClearBuffer)) == Ok([Error(LittleEndian(code, 0xf8))])
  {
    ErrorTakesAByte(code, [0xf8]);
    assert Messages([]) == Ok([]) && [0xf8][1..] == [];
    var lost := [Error(LittleEndian(code, 0xf8))];
    assert lost + [] == lost;
  }

  /**
    On its own, a message is accepted exactly in its full form, an error also without the upper half of its code, and an
    unknown opcode with any operands.
   */
  lemma ParseIsExact(data: seq<Byte>, m: ControlMessage)
    ensures Parse(data) == Ok(m) <==>
              || (!m.Unknown? && data == Encode(m))
              || (m.Error? && m.code < 256 && data == [0xf7, m.code])
              || (m.Unknown? && data != [] && data[0] == m.opcode && !(0xf7 <= m.opcode <= 0xfa) && m.len == |data|)
  {
    if |data| == 3 && data[0] == 0xf7 {
      assert data == [0xf7, data[1], data[2]];
    }
  }
}

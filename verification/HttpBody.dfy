/**
  Reading an HTTP response off a stream that arrives in pieces, and what the result is as a function of the bytes
  alone (RFC 9112, sections 6.3 and 7.1).
 */
module HttpBody {
  import opened Wrappers
  import opened Bytes

  datatype Failure = Malformed | Network | Timeout

  // How the stream ends behind its last piece.
  datatype Ending = Closed | Broken | Stalled

  function EndFailure(ending: Ending): Failure {
    if ending == Stalled then Timeout else Network
  }

  const CR: Byte := 13
  const LF: Byte := 10
  const LINE_LIMIT: nat := 128

  type Pieces = seq<seq<Byte>>

  predicate NonEmpty(pieces: Pieces) {
    forall i :: 0 <= i < |pieces| ==> pieces[i] != []
  }

  function Flat(pieces: Pieces): seq<Byte> {
    if pieces == [] then [] else pieces[0] + Flat(pieces[1..])
  }

  // One read into a buffer of `room` bytes.
  function Received(pieces: Pieces, room: nat): seq<Byte>
    requires pieces != []
  {
    if |pieces[0]| <= room then pieces[0] else pieces[0][..room]
  }

  function Remaining(pieces: Pieces, room: nat): Pieces
    requires pieces != []
  {
    if |pieces[0]| <= room then pieces[1..] else [pieces[0][room..]] + pieces[1..]
  }

  lemma ReadLosesNothing(pieces: Pieces, room: nat)
    requires pieces != [] && NonEmpty(pieces) && room > 0
    ensures Received(pieces, room) != [] && NonEmpty(Remaining(pieces, room))
    ensures Received(pieces, room) + Flat(Remaining(pieces, room)) == Flat(pieces)
  {
    var first := pieces[0];
    if |first| > room {
      var left := [first[room..]] + pieces[1..];
      assert left[1..] == pieces[1..] && left[0] == first[room..];
      assert first[..room] + (first[room..] + Flat(pieces[1..])) == first + Flat(pieces[1..]) by {
        assert first == first[..room] + first[room..];
      }
      assert NonEmpty(left);
    }
  }

  // ---- Lines ----

  function IndexOf(s: seq<Byte>, b: Byte): (i: nat)
    ensures i <= |s| && (i < |s| ==> s[i] == b)
    ensures forall j :: 0 <= j < i ==> s[j] != b
  {
    if s == [] || s[0] == b then 0
    else
      var i := IndexOf(s[1..], b);
      assert forall j :: 0 < j < |s| ==> s[j] == s[1..][j - 1];
      1 + i
  }

  // A line without its line ending.
  function Stripped(line: seq<Byte>): seq<Byte> {
    if line != [] && line[|line| - 1] in {CR, LF} then Stripped(line[..|line| - 1]) else line
  }

  // What reading comes to: settled by the bytes, or left to how they arrive.
  datatype Reading<+T> = Settled(result: Result<T, Failure>) | Unsettled

  // A line and what follows it; a newline beyond the limit is found only if it is in the buffer by then.
  function LineOf(data: seq<Byte>, ending: Ending): Reading<(seq<Byte>, seq<Byte>)> {
    var p := IndexOf(data, LF);
    if p == |data| then Settled(Err(if |data| > LINE_LIMIT then Malformed else EndFailure(ending)))
    else if p > LINE_LIMIT then Unsettled
    else Settled(Ok((Stripped(data[..p + 1]), data[p + 1..])))
  }

  // ---- Chunk sizes ----

  predicate IsSpace(b: Byte) {
    b == 32 || 9 <= b <= 13
  }

  function TrimStart(s: seq<Byte>): seq<Byte> {
    if s != [] && IsSpace(s[0]) then TrimStart(s[1..]) else s
  }

  function TrimEnd(s: seq<Byte>): seq<Byte> {
    if s != [] && IsSpace(s[|s| - 1]) then TrimEnd(s[..|s| - 1]) else s
  }

  function HexDigit(b: Byte): Option<nat> {
    if 48 <= b <= 57 then Some(b - 48)
    else if 65 <= b <= 70 then Some(b - 55)
    else if 97 <= b <= 102 then Some(b - 87)
    else None
  }

  function HexValue(digits: seq<Byte>): Option<nat> {
    if digits == [] then Some(0)
    else
      match (HexValue(digits[..|digits| - 1]), HexDigit(digits[|digits| - 1]))
      case (Some(high), Some(d)) => Some(16 * high + d)
      case _ => None
  }

  // Digits after an optional plus sign, within 64 bits.
  function ParseHex(s: seq<Byte>): Option<nat> {
    var digits := if s != [] && s[0] == 43 then s[1..] else s;
    if digits == [] then None
    else
      match HexValue(digits)
      case Some(n) => if n < 0x1_0000_0000_0000_0000 then Some(n) else None
      case None => None
  }

  function ChunkSize(line: seq<Byte>): Option<nat> {
    ParseHex(TrimEnd(TrimStart(line[..IndexOf(line, 59)])))
  }

  // ---- Whole bodies ----

  function Capped(body: seq<Byte>, max: nat): seq<Byte> {
    if |body| <= max then body else body[..max]
  }

  // Lines up to an empty one, then the body.
  function AfterTrailers(data: seq<Byte>, ending: Ending, body: seq<Byte>): Reading<seq<Byte>>
    decreases |data|
  {
    match LineOf(data, ending)
    case Unsettled => Unsettled
    case Settled(Err(e)) => Settled(Err(e))
    case Settled(Ok((line, rest))) => if line == [] then Settled(Ok(body)) else AfterTrailers(rest, ending, body)
  }

  // How much of a chunk is read: enough to see that the body exceeds its limit.
  function TakeOf(size: nat, max: nat, body: seq<Byte>): (take: nat)
    requires |body| <= max && size > 0
    ensures take > 0
  {
    if size <= max + 1 - |body| then size else max + 1 - |body|
  }

  // The chunks that follow `body`.
  function Chunked(data: seq<Byte>, ending: Ending, max: nat, body: seq<Byte>): Reading<seq<Byte>>
    requires |body| <= max
    decreases |data|, 1
  {
    match LineOf(data, ending)
    case Unsettled => Unsettled
    case Settled(Err(e)) => Settled(Err(e))
    case Settled(Ok((line, rest))) =>
      match ChunkSize(line)
      case None => Settled(Err(Malformed))
      case Some(size) =>
        if size == 0 then AfterTrailers(rest, ending, body)
        else ChunkData(rest, ending, max, body, TakeOf(size, max, body))
  }

  // A chunk's data, its line end, and the chunks after it.
  function ChunkData(data: seq<Byte>, ending: Ending, max: nat, body: seq<Byte>, take: nat): Reading<seq<Byte>>
    requires |body| <= max && take > 0
    decreases |data|, 0
  {
    if |data| < take then Settled(Err(EndFailure(ending)))
    else if |body| + take > max then Settled(Ok(Capped(body + data[..take], max)))
    else if |data| < take + 2 then Settled(Err(EndFailure(ending)))
    else if data[take..take + 2] != [CR, LF] then Settled(Err(Malformed))
    else Chunked(data[take + 2..], ending, max, body + data[..take])
  }

  // How the headers delimit a body.
  datatype Framing = ChunkedBody | Sized(length: nat) | UntilClose

  // The body of a final response, at most `max` bytes of it.
  function Body(data: seq<Byte>, ending: Ending, code: nat, framing: Framing, max: nat): Reading<seq<Byte>> {
    if code == 204 || code == 304 then Settled(Ok([]))
    else
      match framing
      case ChunkedBody => Chunked(data, ending, max, [])
      case Sized(n) =>
        var take := if n <= max + 1 then n else max + 1;
        Settled(if |data| < take then Err(EndFailure(ending)) else Ok(Capped(data[..take], max)))
      case UntilClose =>
        Settled(if |data| <= max && ending != Closed then Err(EndFailure(ending)) else Ok(Capped(data, max)))
  }

  // ---- Heads ----

  const BLANK: seq<Byte> := [CR, LF, CR, LF]

  predicate BlankAt(s: seq<Byte>, i: nat) {
    i + 4 <= |s| && s[i..i + 4] == BLANK
  }

  lemma ShiftBlank(s: seq<Byte>)
    requires s != []
    ensures forall j :: 0 < j < |s| ==> BlankAt(s, j) == BlankAt(s[1..], j - 1)
  {
    forall j | 0 < j < |s|
      ensures BlankAt(s, j) == BlankAt(s[1..], j - 1)
    {
      assert j + 4 <= |s| ==> s[j..j + 4] == s[1..][j - 1..j + 3];
    }
  }

  // Where the head ends, or the length when it does not.
  function FindBlank(s: seq<Byte>): (i: nat)
    ensures i <= |s| && (i < |s| ==> BlankAt(s, i))
    ensures forall j :: 0 <= j < i ==> !BlankAt(s, j)
  {
    if s == [] || BlankAt(s, 0) then 0
    else
      var i := FindBlank(s[1..]);
      ShiftBlank(s);
      assert i < |s| - 1 ==> BlankAt(s[1..], i);
      1 + i
  }

  // The head and what follows it; one that may fill the buffer beyond the limit before it ends is left to the pieces.
  function HeadOf(data: seq<Byte>, ending: Ending, max: nat): Reading<(seq<Byte>, seq<Byte>)> {
    var e := FindBlank(data);
    if e == |data| then Settled(Err(if |data| > max then Malformed else EndFailure(ending)))
    else if e + 3 > max then Unsettled
    else Settled(Ok((data[..e], data[e + 4..])))
  }

  // ---- Reading from a stream ----

  // What is buffered and what is still to arrive.
  datatype Stream = Stream(buffer: seq<Byte>, pieces: Pieces)

  predicate Good(st: Stream) {
    NonEmpty(st.pieces)
  }

  // All bytes not yet consumed.
  function Ahead(st: Stream): seq<Byte> {
    st.buffer + Flat(st.pieces)
  }

  const LINE_ROOM: nat := 256
  const HEAD_ROOM: nat := 512
  const DATA_ROOM: nat := 4096

  // One read into the buffer.
  function Read(st: Stream, room: nat): (next: Stream)
    requires Good(st) && st.pieces != [] && room > 0
    ensures Good(next) && Ahead(next) == Ahead(st) && |Flat(next.pieces)| < |Flat(st.pieces)|
    ensures |st.buffer| < |next.buffer| <= |st.buffer| + room
  {
    ReadLosesNothing(st.pieces, room);
    assert Ahead(st) == (st.buffer + Received(st.pieces, room)) + Flat(Remaining(st.pieces, room));
    Stream(st.buffer + Received(st.pieces, room), Remaining(st.pieces, room))
  }

  // The stream behind the first `n` buffered bytes.
  function Behind(st: Stream, n: nat): Stream
    requires n <= |st.buffer|
  {
    Stream(st.buffer[n..], st.pieces)
  }

  // A line as it is read, by what the buffer holds and how the pieces come.
  function LineFrom(st: Stream, ending: Ending): (r: (Result<seq<Byte>, Failure>, Stream))
    requires Good(st)
    ensures Good(r.1) && (r.0.Ok? ==> |Ahead(r.1)| < |Ahead(st)|)
    decreases |Flat(st.pieces)|
  {
    var p := IndexOf(st.buffer, LF);
    if p < |st.buffer| then (Ok(Stripped(st.buffer[..p + 1])), Behind(st, p + 1))
    else if |st.buffer| > LINE_LIMIT then (Err(Malformed), st)
    else if st.pieces == [] then (Err(EndFailure(ending)), st)
    else LineFrom(Read(st, LINE_ROOM), ending)
  }

  // The head as it is read.
  function HeadFrom(st: Stream, ending: Ending, max: nat): (r: (Result<seq<Byte>, Failure>, Stream))
    requires Good(st)
    ensures Good(r.1)
    decreases |Flat(st.pieces)|
  {
    var e := FindBlank(st.buffer);
    if e < |st.buffer| then (Ok(st.buffer[..e]), Behind(st, e + 4))
    else if |st.buffer| > max then (Err(Malformed), st)
    else if st.pieces == [] then (Err(EndFailure(ending)), st)
    else HeadFrom(Read(st, HEAD_ROOM), ending, max)
  }

  // Reads until `n` bytes are buffered, if there are so many.
  function FillFrom(st: Stream, n: nat, room: nat): (r: (bool, Stream))
    requires Good(st) && room > 0
    ensures Good(r.1) && Ahead(r.1) == Ahead(st)
    ensures r.0 <==> |Ahead(st)| >= n
    ensures r.0 ==> |r.1.buffer| >= n
    decreases |Flat(st.pieces)|
  {
    if |st.buffer| >= n then (true, st)
    else if st.pieces == [] then (false, st)
    else FillFrom(Read(st, room), n, room)
  }

  function TrailersFrom(st: Stream, ending: Ending): Outcome<Failure>
    requires Good(st)
    decreases |Ahead(st)|
  {
    var (line, rest) := LineFrom(st, ending);
    match line
    case Err(e) => Fail(e)
    case Ok(text) => if text == [] then Pass else TrailersFrom(rest, ending)
  }

  // The chunks that follow `body`, as they are read.
  function ChunkedFrom(st: Stream, ending: Ending, max: nat, body: seq<Byte>): Result<seq<Byte>, Failure>
    requires Good(st) && |body| <= max
    decreases |Ahead(st)|
  {
    var (line, st) := LineFrom(st, ending);
    match line
    case Err(e) => Err(e)
    case Ok(text) =>
      match ChunkSize(text)
      case None => Err(Malformed)
      case Some(size) =>
        if size == 0 then
          match TrailersFrom(st, ending)
          case Fail(e) => Err(e)
          case Pass => Ok(body)
        else DataFrom(st, ending, max, body, TakeOf(size, max, body))
  }

  // A chunk's data, its line end, and the chunks after it.
  function DataFrom(st: Stream, ending: Ending, max: nat, body: seq<Byte>, take: nat): Result<seq<Byte>, Failure>
    requires Good(st) && |body| <= max && take > 0
    decreases |Ahead(st)|, 0
  {
    var (filled, st) := FillFrom(st, take, DATA_ROOM);
    if !filled then Err(EndFailure(ending))
    else
      var body := body + st.buffer[..take];
      if |body| > max then Ok(Capped(body, max))
      else
        var (filled, st) := FillFrom(Behind(st, take), 2, LINE_ROOM);
        if !filled then Err(EndFailure(ending))
        else if st.buffer[..2] != [CR, LF] then Err(Malformed)
        else ChunkedFrom(Behind(st, 2), ending, max, body)
  }

  // The body as it is read; only a chunked one can depend on how it arrives.
  function BodyFrom(st: Stream, ending: Ending, code: nat, framing: Framing, max: nat): Result<seq<Byte>, Failure>
    requires Good(st)
  {
    if code != 204 && code != 304 && framing == ChunkedBody then ChunkedFrom(st, ending, max, [])
    else Body(Ahead(st), ending, code, framing, max).result
  }

  // ---- The reader ----

  class ResponseReader {
    var buffer: seq<Byte>
    var pieces: Pieces
    const ending: Ending

    constructor (pieces: Pieces, ending: Ending)
      requires NonEmpty(pieces)
      ensures Valid() && Now() == Stream([], pieces) && this.ending == ending
    {
      buffer := [];
      this.pieces := pieces;
      this.ending := ending;
    }

    ghost predicate Valid()
      reads this
    {
      Good(Now())
    }

    ghost function Now(): Stream
      reads this
    {
      Stream(buffer, pieces)
    }

    method ReadMore(n: nat) returns (status: Outcome<Failure>)
      requires Valid()
      modifies this
      ensures Valid()
      ensures old(pieces) == [] ==> status == Fail(EndFailure(ending)) && Now() == old(Now())
      ensures old(pieces) != [] ==> status == Pass && Now() == Read(old(Now()), if n < 256 then 256 else n)
      ensures Ahead(Now()) == Ahead(old(Now()))
    {
      if pieces == [] {
        return Fail(EndFailure(ending));
      }
      var next := Read(Stream(buffer, pieces), if n < 256 then 256 else n);
      buffer, pieces := next.buffer, next.pieces;
      status := Pass;
    }

    method ReadLine() returns (r: Result<seq<Byte>, Failure>)
      requires Valid()
      modifies this
      ensures Valid() && (r, Now()) == LineFrom(old(Now()), ending)
    {
      while true
        invariant Valid() && LineFrom(Now(), ending) == LineFrom(old(Now()), ending)
        decreases |Flat(pieces)|
      {
        var p := IndexOf(buffer, LF);
        if p < |buffer| {
          r := Ok(Stripped(buffer[..p + 1]));
          buffer := buffer[p + 1..];
          return;
        }
        if |buffer| > LINE_LIMIT {
          return Err(Malformed);
        }
        var status := ReadMore(LINE_ROOM);
        if status.Fail? {
          return Err(status.error);
        }
      }
    }

    // Fills the buffer to `n` bytes.
    method Fill(n: nat, step: nat) returns (status: Outcome<Failure>)
      requires Valid()
      modifies this
      ensures Valid()
      ensures var (filled, st) := FillFrom(old(Now()), n, if step < 256 then 256 else step);
              Now() == st && status == if filled then Pass else Fail(EndFailure(ending))
    {
      ghost var room := if step < 256 then 256 else step;
      while |buffer| < n
        invariant Valid() && FillFrom(Now(), n, room) == FillFrom(old(Now()), n, room)
        decreases |Flat(pieces)|
      {
        var more := ReadMore(step);
        if more.Fail? {
          return more;
        }
      }
      status := Pass;
    }

    /** Reads up to the blank line. */
    method ReadHead(max: nat) returns (r: Result<seq<Byte>, Failure>)
      requires Valid()
      modifies this
      ensures Valid() && (r, Now()) == HeadFrom(old(Now()), ending, max)
    {
      while true
        invariant Valid() && HeadFrom(Now(), ending, max) == HeadFrom(old(Now()), ending, max)
        decreases |Flat(pieces)|
      {
        var e := FindBlank(buffer);
        if e < |buffer| {
          r := Ok(buffer[..e]);
          buffer := buffer[e + 4..];
          return;
        }
        if |buffer| > max {
          return Err(Malformed);
        }
        var status := ReadMore(HEAD_ROOM);
        if status.Fail? {
          return Err(status.error);
        }
      }
    }

    method ReadSized(n: nat, max: nat) returns (r: Result<seq<Byte>, Failure>)
      requires Valid()
      modifies this
      ensures Valid()
      ensures Settled(r) == Body(Ahead(old(Now())), ending, 200, Sized(n), max)
    {
      var take := if n <= max + 1 then n else max + 1;
      var filled := Fill(take, DATA_ROOM);
      if filled.Fail? {
        return Err(filled.error);
      }
      var body := buffer[..take];
      assert body == Ahead(Now())[..take];
      buffer := buffer[take..];
      r := Ok(Capped(body, max));
    }

    method ReadToEnd(max: nat) returns (r: Result<seq<Byte>, Failure>)
      requires Valid()
      modifies this
      ensures Valid()
      ensures Settled(r) == Body(Ahead(old(Now())), ending, 200, UntilClose, max)
    {
      var body := buffer;
      buffer := [];
      while |body| <= max
        invariant Valid() && body + Flat(pieces) == Ahead(old(Now()))
        decreases |Flat(pieces)|
      {
        if pieces == [] {
          if ending != Closed {
            return Err(EndFailure(ending));
          }
          break;
        }
        var next := Read(Stream(body, pieces), DATA_ROOM);
        body, pieces := next.buffer, next.pieces;
      }
      assert |body| > max ==> Capped(body, max) == Capped(Ahead(old(Now())), max);
      assert Flat([]) == [] && body + [] == body;
      r := Ok(Capped(body, max));
    }

    /** The body of a final response, by its framing. */
    method ReadBody(code: nat, framing: Framing, max: nat) returns (r: Result<seq<Byte>, Failure>)
      requires Valid()
      modifies this
      ensures Valid() && r == BodyFrom(old(Now()), ending, code, framing, max)
    {
      hide Chunked, ChunkedFrom;
      if code == 204 || code == 304 {
        return Ok([]);
      }
      match framing {
        case ChunkedBody => r := ReadChunked(max);
        case Sized(n) => r := ReadSized(n, max);
        case UntilClose => r := ReadToEnd(max);
      }
    }

    /** Reads a chunked body, which never exceeds its limit when a chunk begins. */
    method ReadChunked(max: nat) returns (r: Result<seq<Byte>, Failure>)
      requires Valid()
      modifies this
      ensures Valid() && r == ChunkedFrom(old(Now()), ending, max, [])
    {
      hide ChunkSize, LineFrom, FillFrom, TrailersFrom;
      var body: seq<Byte> := [];
      while true
        invariant Valid() && |body| <= max
        invariant ChunkedFrom(Now(), ending, max, body) == ChunkedFrom(old(Now()), ending, max, [])
        decreases |Ahead(Now())|
      {
        ghost var before := Ahead(Now());
        var line :- ReadLine();
        var parsed := ChunkSize(line);
        if parsed.None? {
          return Err(Malformed);
        }
        var size := parsed.value;
        if size == 0 {
          var done := SkipTrailers();
          if done.Fail? {
            return Err(done.error);
          }
          break;
        }
        var take := TakeOf(size, max, body);
        var filled := Fill(take, DATA_ROOM);
        if filled.Fail? {
          return Err(filled.error);
        }
        body := body + buffer[..take];
        buffer := buffer[take..];
        if |body| > max {
          break;
        }
        var ended := Fill(2, 2);
        if ended.Fail? {
          return Err(ended.error);
        }
        var crlf := buffer[..2];
        buffer := buffer[2..];
        if crlf != [CR, LF] {
          return Err(Malformed);
        }
      }
      r := Ok(Capped(body, max));
    }

    method SkipTrailers() returns (status: Outcome<Failure>)
      requires Valid()
      modifies this
      ensures Valid() && status == TrailersFrom(old(Now()), ending)
    {
      hide LineFrom;
      while true
        invariant Valid() && TrailersFrom(Now(), ending) == TrailersFrom(old(Now()), ending)
        decreases |Ahead(Now())|
      {
        var line := ReadLine();
        if line.Err? {
          return Fail(line.error);
        }
        if line.value == [] {
          return Pass;
        }
      }
    }
  }
}

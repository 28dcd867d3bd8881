/**
  What a chunked body reads back as, and exactly when the way it arrives matters.
 */
module HttpLaws {
  import opened Wrappers
  import opened Bytes
  import opened HttpBody
  import opened Sequences

  // ---- Positions ----

  lemma IndexIsFirst(s: seq<Byte>, b: Byte, p: nat)
    requires p <= |s| && (p < |s| ==> s[p] == b) && forall j :: 0 <= j < p ==> s[j] != b
    ensures IndexOf(s, b) == p
  {
  }

  lemma IndexInFront(a: seq<Byte>, b: seq<Byte>)
    requires IndexOf(a, LF) < |a|
    ensures IndexOf(a + b, LF) == IndexOf(a, LF)
  {
    IndexIsFirst(a + b, LF, IndexOf(a, LF));
  }

  lemma IndexBehind(a: seq<Byte>, b: seq<Byte>)
    requires IndexOf(a, LF) == |a|
    ensures IndexOf(a + b, LF) >= |a|
  {
    assert forall j :: 0 <= j < |a| ==> (a + b)[j] == a[j];
  }

  lemma BlankInFront(a: seq<Byte>, b: seq<Byte>)
    requires FindBlank(a) < |a|
    ensures FindBlank(a + b) == FindBlank(a)
  {
    var i := FindBlank(a);
    assert (a + b)[i..i + 4] == a[i..i + 4];
    assert BlankAt(a + b, i);
    forall j | 0 <= j < i
      ensures !BlankAt(a + b, j)
    {
      assert (a + b)[j..j + 4] == a[j..j + 4];
      assert !BlankAt(a, j);
    }
    assert FindBlank(a + b) <= i;
  }

  lemma BlankBehind(a: seq<Byte>, b: seq<Byte>)
    requires FindBlank(a) == |a|
    ensures FindBlank(a + b) == |a + b| || FindBlank(a + b) + 4 > |a|
  {
    forall j | 0 <= j && j + 4 <= |a|
      ensures !BlankAt(a + b, j)
    {
      assert (a + b)[j..j + 4] == a[j..j + 4];
      assert !BlankAt(a, j);
    }
  }

  // ---- Ways of arriving ----

  function Min(a: nat, b: nat): nat {
    if a <= b then a else b
  }

  function Max(a: nat, b: nat): nat {
    if a <= b then b else a
  }

  // `data` arrives as `st` says, at most `reach` bytes of it buffered beforehand.
  predicate Arrives(st: Stream, data: seq<Byte>, reach: nat) {
    Good(st) && Ahead(st) == data && |st.buffer| <= reach
  }

  // What the buffer may hold behind `taken` bytes, when the last read began with at most `before` buffered.
  function LeftOver(reach: nat, before: nat, room: nat, taken: nat): nat {
    var most := Max(reach, before + room);
    if taken <= most then most - taken else 0
  }

  // One piece, or none.
  function Piece(s: seq<Byte>): (pieces: Pieces)
    ensures NonEmpty(pieces)
  {
    if s == [] then [] else [s]
  }

  lemma FlatPiece(s: seq<Byte>, tail: Pieces)
    ensures Flat(Piece(s) + tail) == s + Flat(tail)
    ensures NonEmpty(tail) ==> NonEmpty(Piece(s) + tail)
  {
    if s == [] {
      assert Piece(s) + tail == tail;
    } else {
      assert (Piece(s) + tail)[1..] == tail;
    }
  }

  // Reading a piece that fits takes all of it.
  lemma ReadPiece(buffer: seq<Byte>, s: seq<Byte>, tail: Pieces, room: nat)
    requires s != [] && |s| <= room && NonEmpty(tail)
    ensures Good(Stream(buffer, Piece(s) + tail)) && (Piece(s) + tail) != []
    ensures Read(Stream(buffer, Piece(s) + tail), room) == Stream(buffer + s, tail)
  {
    FlatPiece(s, tail);
    assert (Piece(s) + tail)[1..] == tail;
  }

  // One byte at a time.
  function Singles(data: seq<Byte>): (pieces: Pieces)
    ensures NonEmpty(pieces)
  {
    if data == [] then [] else [[data[0]]] + Singles(data[1..])
  }

  lemma {:induction false} FlatSingles(data: seq<Byte>)
    ensures Flat(Singles(data)) == data
  {
    if data != [] {
      FlatSingles(data[1..]);
      assert Singles(data)[1..] == Singles(data[1..]);
      assert [data[0]] + data[1..] == data;
    }
  }

  lemma NothingMore(st: Stream)
    requires st.pieces == []
    ensures Ahead(st) == st.buffer
  {
    Unit(st.buffer);
  }

  // ---- Lines ----

  // How far a line may reach and still be found: what was buffered, or a read that began below the limit.
  function LineReach(reach: nat, p: nat): nat {
    Max(reach, Min(p, LINE_LIMIT) + LINE_ROOM)
  }

  function AfterLine(reach: nat, p: nat): nat {
    LeftOver(reach, Min(p, LINE_LIMIT), LINE_ROOM, p + 1)
  }

  // However it arrives, a line is what the bytes say, or is called too long, which needs a newline beyond the limit.
  lemma {:induction false} LineReading(st: Stream, ending: Ending, most: nat)
    requires Good(st) && |st.buffer| <= most
    requires var p := IndexOf(Ahead(st), LF); Min(p, LINE_LIMIT) + LINE_ROOM <= most
    ensures var data := Ahead(st);
            var p := IndexOf(data, LF);
            var (r, rest) := LineFrom(st, ending);
            if p == |data| then r == Err(if |data| > LINE_LIMIT then Malformed else EndFailure(ending))
            else || (r == Err(Malformed) && LINE_LIMIT < p)
                 || (r == Ok(Stripped(data[..p + 1])) && Ahead(rest) == data[p + 1..]
                     && p < most && |rest.buffer| <= most - (p + 1))
    decreases |Flat(st.pieces)|
  {
    hide Stripped, IndexOf, Read, Flat;
    var data := Ahead(st);
    var p := IndexOf(st.buffer, LF);
    if p < |st.buffer| {
      IndexInFront(st.buffer, Flat(st.pieces));
      CutInFront(st.buffer, Flat(st.pieces), p + 1);
    } else {
      IndexBehind(st.buffer, Flat(st.pieces));
      if |st.buffer| > LINE_LIMIT {
      } else if st.pieces == [] {
        NothingMore(st);
      } else {
        LineReading(Read(st, LINE_ROOM), ending, most);
      }
    }
  }

  /** A line the bytes settle reads as they say, however it arrives. */
  lemma SettledLine(st: Stream, ending: Ending)
    requires Good(st) && LineOf(Ahead(st), ending).Settled?
    ensures var (r, rest) := LineFrom(st, ending);
            match LineOf(Ahead(st), ending).result
            case Ok((line, after)) => r == Ok(line) && Ahead(rest) == after
            case Err(e) => r == Err(e)
  {
    hide Stripped;
    LineReading(st, ending, |st.buffer| + LINE_LIMIT + LINE_ROOM);
  }

  // Some way of arriving reads this line and leaves `rest`.
  ghost predicate LineComes(data: seq<Byte>, reach: nat, ending: Ending, line: seq<Byte>, rest: Stream) {
    exists st: Stream :: Arrives(st, data, reach) && LineFrom(st, ending) == (Ok(line), rest)
  }

  // A line and what follows it, all buffered or after a first read that stops short of the newline.
  lemma LineFits(reach: nat, p: nat, n: nat)
    requires p < LineReach(reach, p) && n <= AfterLine(reach, p) && p + 1 + n > reach
    ensures p + 1 + n - Min(p, LINE_LIMIT) <= LINE_ROOM
  {
  }

  // Within reach, a line can arrive so that it is found and any permitted rest of the buffer stays behind it.
  lemma LineCanArrive(data: seq<Byte>, p: nat, ending: Ending, reach: nat, rest: Stream)
    requires p < |data| && IndexOf(data, LF) == p && p < LineReach(reach, p)
    requires Arrives(rest, data[p + 1..], AfterLine(reach, p))
    ensures LineComes(data, reach, ending, Stripped(data[..p + 1]), rest)
  {
    hide Stripped, LineFrom, IndexOf, Flat, LineReach, AfterLine, LineComes;
    var line := data[..p + 1];
    var front := line + rest.buffer;
    LineWithin(data, p, rest.buffer);
    assert front[..p + 1] == line && front[p + 1..] == rest.buffer;
    assert front + Flat(rest.pieces) == data by {
      Associative(line, rest.buffer, Flat(rest.pieces));
      Rejoin(data, p + 1);
    }
    if |front| <= reach {
      BufferedLine(front, rest, p, ending, reach);
    } else {
      LineFits(reach, p, |rest.buffer|);
      PiecedLine(front, rest, p, ending, reach);
    }
  }

  lemma BufferedLine(front: seq<Byte>, rest: Stream, p: nat, ending: Ending, reach: nat)
    requires p < |front| <= reach && IndexOf(front, LF) == p && NonEmpty(rest.pieces) && front[p + 1..] == rest.buffer
    ensures LineComes(front + Flat(rest.pieces), reach, ending, Stripped(front[..p + 1]), rest)
  {
    hide Stripped, LineFrom, IndexOf, Flat;
    var st := Stream(front, rest.pieces);
    LineFound(st, ending);
    assert Arrives(st, front + Flat(rest.pieces), reach);
  }

  lemma PiecedLine(front: seq<Byte>, rest: Stream, p: nat, ending: Ending, reach: nat)
    requires p < |front| && IndexOf(front, LF) == p && NonEmpty(rest.pieces) && front[p + 1..] == rest.buffer
    requires var k := Min(p, LINE_LIMIT); IndexOf(front[..k], LF) == k && |front| - k <= LINE_ROOM
    ensures LineComes(front + Flat(rest.pieces), reach, ending, Stripped(front[..p + 1]), rest)
  {
    hide Stripped, LineFrom, IndexOf, Flat, Ahead, Piece, NonEmpty, LineComes;
    var k := Min(p, LINE_LIMIT);
    var a, b := front[..k], front[k..];
    Rejoin(front, k);
    TwoPieces(a, b, rest.pieces);
    FoundAfterReads(a, b, rest.pieces, ending);
    var st := Stream([], Piece(a) + (Piece(b) + rest.pieces));
    LineComesSo(st, front + Flat(rest.pieces), reach, ending, Stripped(front[..p + 1]), rest);
  }

  lemma LineComesSo(st: Stream, data: seq<Byte>, reach: nat, ending: Ending, line: seq<Byte>, rest: Stream)
    requires Arrives(st, data, reach) && LineFrom(st, ending) == (Ok(line), rest)
    ensures LineComes(data, reach, ending, line, rest)
  {
    hide LineFrom, Arrives;
  }

  lemma LineWithin(data: seq<Byte>, p: nat, more: seq<Byte>)
    requires p < |data| && IndexOf(data, LF) == p
    ensures var front := data[..p + 1] + more;
            IndexOf(front, LF) == p && forall k :: 0 <= k <= p ==> IndexOf(front[..k], LF) == k
  {
    var front := data[..p + 1] + more;
    IndexIsFirst(front, LF, p);
    forall k | 0 <= k <= p
      ensures IndexOf(front[..k], LF) == k
    {
      IndexIsFirst(front[..k], LF, k);
    }
  }

  lemma LineReads(st: Stream, ending: Ending)
    requires Good(st) && st.pieces != [] && IndexOf(st.buffer, LF) == |st.buffer| <= LINE_LIMIT
    ensures LineFrom(st, ending) == LineFrom(Read(st, LINE_ROOM), ending)
  {
    hide Read, IndexOf, Stripped, Ahead;
  }

  lemma LineFound(st: Stream, ending: Ending)
    requires Good(st) && IndexOf(st.buffer, LF) < |st.buffer|
    ensures var p := IndexOf(st.buffer, LF); LineFrom(st, ending) == (Ok(Stripped(st.buffer[..p + 1])), Behind(st, p + 1))
  {
    hide IndexOf, Stripped;
  }

  // Two pieces, the first perhaps empty, in front of others.
  lemma TwoPieces(a: seq<Byte>, b: seq<Byte>, tail: Pieces)
    requires NonEmpty(tail)
    ensures NonEmpty(Piece(b) + tail)
    ensures var st := Stream([], Piece(a) + (Piece(b) + tail)); Good(st) && Ahead(st) == a + b + Flat(tail)
  {
    hide Flat, Piece;
    FlatPiece(b, tail);
    FlatPiece(a, Piece(b) + tail);
    Associative(a, b, Flat(tail));
    Unit(a + (b + Flat(tail)));
  }

  // A line that arrives in one read without its newline and one with it.
  lemma FoundAfterReads(a: seq<Byte>, b: seq<Byte>, tail: Pieces, ending: Ending)
    requires IndexOf(a, LF) == |a| <= LINE_LIMIT && b != [] && |b| <= LINE_ROOM && NonEmpty(tail)
    requires IndexOf(a + b, LF) < |a + b|
    ensures NonEmpty(Piece(a) + (Piece(b) + tail))
    ensures var p := IndexOf(a + b, LF);
            LineFrom(Stream([], Piece(a) + (Piece(b) + tail)), ending)
            == (Ok(Stripped((a + b)[..p + 1])), Stream((a + b)[p + 1..], tail))
  {
    hide IndexOf, Stripped, Read, Flat, LineFrom, Ahead;
    TwoPieces(a, b, tail);
    var last := Piece(b) + tail;
    ReadPiece(a, b, tail, LINE_ROOM);
    LineReads(Stream(a, last), ending);
    LineFound(Stream(a + b, tail), ending);
    if a == [] {
      assert Piece(a) + last == last;
    } else {
      NoLineInNothing();
      ReadPiece([], a, last, LINE_ROOM);
      assert [] + a == a;
      LineReads(Stream([], Piece(a) + last), ending);
    }
  }

  lemma NoLineInNothing()
    ensures IndexOf([], LF) == 0
  {
  }

  lemma {:induction false} SinglesFindItTooLong(buffer: seq<Byte>, data: seq<Byte>, ending: Ending)
    requires |buffer| <= LINE_LIMIT + 1 && IndexOf(buffer + data, LF) > LINE_LIMIT
    ensures LineFrom(Stream(buffer, Singles(data)), ending).0 == Err(Malformed)
    decreases |data|
  {
    hide Stripped;
    assert forall j :: 0 <= j < |buffer| ==> (buffer + data)[j] == buffer[j];
    assert IndexOf(buffer, LF) == |buffer|;
    if |buffer| <= LINE_LIMIT {
      assert data != [];
      var pieces := Singles(data);
      assert Read(Stream(buffer, pieces), LINE_ROOM) == Stream(buffer + [data[0]], Singles(data[1..]));
      assert (buffer + [data[0]]) + data[1..] == buffer + data;
      SinglesFindItTooLong(buffer + [data[0]], data[1..], ending);
    }
  }

  // Some way of arriving makes this of the first line.
  ghost predicate LineCanBe(data: seq<Byte>, reach: nat, ending: Ending, r: Result<seq<Byte>, Failure>) {
    exists st: Stream :: Arrives(st, data, reach) && LineFrom(st, ending).0 == r
  }

  // Two ways of arriving make different lines of the same bytes.
  ghost predicate LinesDiffer(data: seq<Byte>, ending: Ending, reach: nat) {
    exists r, r' :: LineCanBe(data, reach, ending, r) && LineCanBe(data, reach, ending, r') && r != r'
  }

  // Nothing buffered and everything in one piece.
  function AllAhead(data: seq<Byte>): Stream {
    Stream([], Piece(data))
  }

  lemma AllArrives(data: seq<Byte>)
    ensures Arrives(AllAhead(data), data, 0)
  {
    FlatPiece(data, []);
    Unit(Piece(data));
    Unit(data);
  }

  lemma ByteByByte(data: seq<Byte>)
    ensures Arrives(Stream([], Singles(data)), data, 0)
  {
    FlatSingles(data);
    Unit(data);
  }

  // Byte by byte, a long line is called too long.
  lemma LongLineCanFail(data: seq<Byte>, ending: Ending, reach: nat)
    requires IndexOf(data, LF) > LINE_LIMIT
    ensures LineCanBe(data, reach, ending, Err(Malformed))
  {
    hide Stripped, LineFrom, Ahead, Singles, IndexOf;
    ByteByByte(data);
    Unit(data);
    SinglesFindItTooLong([], data, ending);
    assert Arrives(Stream([], Singles(data)), data, reach);
  }

  lemma LongLineCanBeFound(data: seq<Byte>, ending: Ending, reach: nat)
    requires var p := IndexOf(data, LF); p < |data| && p < LineReach(reach, p)
    ensures LineCanBe(data, reach, ending, Ok(Stripped(data[..IndexOf(data, LF) + 1])))
  {
    hide Stripped, LineFrom, IndexOf, Ahead;
    var p := IndexOf(data, LF);
    var rest := AllAhead(data[p + 1..]);
    AllArrives(data[p + 1..]);
    LineCanArrive(data, p, ending, reach, rest);
    var st: Stream :| Arrives(st, data, reach) && LineFrom(st, ending) == (Ok(Stripped(data[..p + 1])), rest);
    assert LineFrom(st, ending).0 == Ok(Stripped(data[..p + 1]));
  }

  lemma LineCanOnlyBe(data: seq<Byte>, ending: Ending, reach: nat, r: Result<seq<Byte>, Failure>)
    requires LineCanBe(data, reach, ending, r)
    ensures var p := IndexOf(data, LF);
            if p == |data| then r == Err(if |data| > LINE_LIMIT then Malformed else EndFailure(ending))
            else (r == Err(Malformed) && LINE_LIMIT < p) || (r == Ok(Stripped(data[..p + 1])) && p < LineReach(reach, p))
  {
    hide Stripped, LineFrom, IndexOf, Ahead, Good;
    var st: Stream :| Arrives(st, data, reach) && LineFrom(st, ending).0 == r;
    assert Good(st) && Ahead(st) == data;
    LineReading(st, ending, LineReach(reach, IndexOf(data, LF)));
  }

  /**
    How a line arrives matters exactly when its newline lies beyond the limit and within what one more read, or the
    bytes buffered beforehand, can still bring.
   */
  lemma LineArrivalMatters(data: seq<Byte>, ending: Ending, reach: nat)
    ensures var p := IndexOf(data, LF);
            LinesDiffer(data, ending, reach) <==> LINE_LIMIT < p < |data| && p < Max(reach, LINE_LIMIT + LINE_ROOM)
  {
    hide LineCanBe, IndexOf, Stripped;
    var p := IndexOf(data, LF);
    if LINE_LIMIT < p < |data| && p < Max(reach, LINE_LIMIT + LINE_ROOM) {
      LongLineCanFail(data, ending, reach);
      LongLineCanBeFound(data, ending, reach);
    } else if LinesDiffer(data, ending, reach) {
      var r, r' :| LineCanBe(data, reach, ending, r) && LineCanBe(data, reach, ending, r') && r != r';
      LineCanOnlyBe(data, ending, reach, r);
      LineCanOnlyBe(data, ending, reach, r');
    }
  }

  // ---- Heads ----

  ghost predicate HeadCanBe(data: seq<Byte>, reach: nat, ending: Ending, max: nat, r: Result<seq<Byte>, Failure>) {
    exists st: Stream :: Arrives(st, data, reach) && HeadFrom(st, ending, max).0 == r
  }

  ghost predicate HeadsDiffer(data: seq<Byte>, ending: Ending, max: nat, reach: nat) {
    exists r, r' :: HeadCanBe(data, reach, ending, max, r) && HeadCanBe(data, reach, ending, max, r') && r != r'
  }

  lemma FoundEndsWithin(s: seq<Byte>)
    ensures FindBlank(s) < |s| ==> FindBlank(s) + 4 <= |s|
  {
  }

  // However it arrives, a head is what the bytes say, or is called too large, which needs an end beyond the limit.
  lemma {:induction false} HeadReading(st: Stream, ending: Ending, max: nat, most: nat)
    requires Good(st) && |st.buffer| <= most
    requires Min(max, FindBlank(Ahead(st)) + 3) + HEAD_ROOM <= most
    ensures var data := Ahead(st);
            var e := FindBlank(data);
            var (r, rest) := HeadFrom(st, ending, max);
            if e == |data| then r == Err(if |data| > max then Malformed else EndFailure(ending))
            else || (r == Err(Malformed) && max < e + 3)
                 || (r == Ok(data[..e]) && Ahead(rest) == data[e + 4..]
                     && e + 4 <= most && |rest.buffer| <= most - (e + 4))
    decreases |Flat(st.pieces)|
  {
    hide BlankAt, FindBlank, Read, Flat;
    var data := Ahead(st);
    var e := FindBlank(st.buffer);
    if e < |st.buffer| {
      BlankInFront(st.buffer, Flat(st.pieces));
      FoundEndsWithin(st.buffer);
      CutInFront(st.buffer, Flat(st.pieces), e);
      CutInFront(st.buffer, Flat(st.pieces), e + 4);
    } else {
      BlankBehind(st.buffer, Flat(st.pieces));
      if |st.buffer| > max {
      } else if st.pieces == [] {
        NothingMore(st);
      } else {
        HeadReading(Read(st, HEAD_ROOM), ending, max, most);
      }
    }
  }

  lemma HeadReads(st: Stream, ending: Ending, max: nat)
    requires Good(st) && st.pieces != [] && FindBlank(st.buffer) == |st.buffer| <= max
    ensures HeadFrom(st, ending, max) == HeadFrom(Read(st, HEAD_ROOM), ending, max)
  {
    hide Read, FindBlank, Ahead;
  }

  lemma NoBlankInPrefix(a: seq<Byte>, b: seq<Byte>)
    requires FindBlank(a + b) == |a + b|
    ensures FindBlank(a) == |a|
  {
    if FindBlank(a) < |a| {
      BlankInFront(a, b);
    }
  }

  // Byte by byte, up to the limit, nothing is found in what holds no blank line.
  lemma {:induction false} HeadFillsUp(a: seq<Byte>, b: seq<Byte>, tail: Pieces, ending: Ending, max: nat)
    requires FindBlank(a + b) == |a + b| <= max && NonEmpty(tail)
    ensures NonEmpty(Singles(b) + tail)
    ensures HeadFrom(Stream(a, Singles(b) + tail), ending, max) == HeadFrom(Stream(a + b, tail), ending, max)
    decreases |b|
  {
    hide FindBlank, HeadFrom, Read;
    if b == [] {
      assert Singles(b) + tail == tail && a + b == a;
    } else {
      var rest := Singles(b[1..]) + tail;
      assert Singles(b) + tail == Piece([b[0]]) + rest;
      assert (a + [b[0]]) + b[1..] == a + b;
      HeadFillsUp(a + [b[0]], b[1..], tail, ending, max);
      NoBlankInPrefix(a, b);
      ReadPiece(a, [b[0]], rest, HEAD_ROOM);
      HeadReads(Stream(a, Singles(b) + tail), ending, max);
    }
  }

  lemma FlatInFront(s: seq<Byte>, tail: Pieces)
    ensures Flat([s] + tail) == s + Flat(tail)
  {
    Halves([s], tail);
  }

  lemma {:induction false} FlatSinglesThen(b: seq<Byte>, tail: Pieces)
    ensures Flat(Singles(b) + tail) == b + Flat(tail)
  {
    if b == [] {
      Unit(tail);
      Unit(Flat(tail));
    } else {
      var rest := Singles(b[1..]) + tail;
      FlatSinglesThen(b[1..], tail);
      Associative([[b[0]]], Singles(b[1..]), tail);
      Halves([[b[0]]], rest);
      FlatInFront([b[0]], rest);
      FirstAndRest(b);
      Associative([b[0]], b[1..], Flat(tail));
    }
  }

  lemma BlankAtEnd(front: seq<Byte>, rest: seq<Byte>, e: nat)
    requires FindBlank(front + rest) == e && e < |front + rest| && |front| == e + 4
    ensures FindBlank(front) == e
  {
    assert (front + rest)[e..e + 4] == front[e..e + 4];
    assert BlankAt(front, e);
    BlankInFront(front, rest);
  }

  // The head with its blank line, and nothing behind it.
  lemma BlankWithin(front: seq<Byte>, rest: seq<Byte>, e: nat)
    requires FindBlank(front + rest) == e && e < |front + rest| && |front| == e + 4
    ensures FindBlank(front) == e
    ensures forall k :: 0 <= k <= e + 3 ==> FindBlank(front[..k]) == k
  {
    BlankAtEnd(front, rest, e);
    hide FindBlank;
    forall k | 0 <= k <= e + 3
      ensures FindBlank(front[..k]) == k
    {
      assert front[..k] + front[k..] == front;
      if FindBlank(front[..k]) < k {
        FoundEndsWithin(front[..k]);
        BlankInFront(front[..k], front[k..]);
      }
    }
  }

  lemma HeadFound(st: Stream, ending: Ending, max: nat)
    requires Good(st) && FindBlank(st.buffer) < |st.buffer|
    ensures HeadFrom(st, ending, max).0 == Ok(st.buffer[..FindBlank(st.buffer)])
  {
    hide FindBlank;
  }

  // Byte by byte to the limit, then the rest of the head in one read.
  lemma HeadFoundAfterReads(a: seq<Byte>, b: seq<Byte>, tail: Pieces, ending: Ending, max: nat)
    requires FindBlank(a) == |a| <= max && b != [] && |b| <= HEAD_ROOM && NonEmpty(tail)
    requires FindBlank(a + b) < |a + b|
    ensures NonEmpty(Singles(a) + (Piece(b) + tail))
    ensures HeadFrom(Stream([], Singles(a) + (Piece(b) + tail)), ending, max).0 == Ok((a + b)[..FindBlank(a + b)])
  {
    hide FindBlank, HeadFrom, Read, Flat, Singles;
    var last := Piece(b) + tail;
    ReadPiece(a, b, tail, HEAD_ROOM);
    assert [] + a == a;
    HeadFillsUp([], a, last, ending, max);
    HeadReads(Stream(a, last), ending, max);
    HeadFound(Stream(a + b, tail), ending, max);
  }

  // A head within reach can arrive.
  lemma HeadCanArrive(data: seq<Byte>, ending: Ending, max: nat, reach: nat)
    requires var e := FindBlank(data); e < |data| && max < e + 3 && e + 4 <= Max(reach, max + HEAD_ROOM)
    ensures HeadCanBe(data, reach, ending, max, Ok(data[..FindBlank(data)]))
  {
    var e := FindBlank(data);
    FoundEndsWithin(data);
    hide FindBlank, HeadFrom, Singles, Flat, Ahead;
    var front := data[..e + 4];
    var rest := AllAhead(data[e + 4..]);
    AllArrives(data[e + 4..]);
    assert data == front + data[e + 4..] && front[..e] == data[..e];
    BlankWithin(front, data[e + 4..], e);
    if e + 4 <= reach {
      BufferedHead(front, rest, ending, max, reach);
    } else {
      PiecedHead(front, rest, ending, max, reach);
    }
  }

  lemma BufferedHead(front: seq<Byte>, rest: Stream, ending: Ending, max: nat, reach: nat)
    requires FindBlank(front) < |front| <= reach && Good(rest) && rest.buffer == []
    ensures HeadCanBe(front + Ahead(rest), reach, ending, max, Ok(front[..FindBlank(front)]))
  {
    hide FindBlank, HeadFrom, Flat, Ahead;
    var st := Stream(front, rest.pieces);
    PutInFront(front, rest);
    HeadFound(st, ending, max);
    assert Arrives(st, front + Ahead(rest), reach);
  }

  lemma PiecedHead(front: seq<Byte>, rest: Stream, ending: Ending, max: nat, reach: nat)
    requires FindBlank(front) < |front| && max < |front| <= max + HEAD_ROOM && FindBlank(front[..max]) == max
    requires Good(rest) && rest.buffer == []
    ensures HeadCanBe(front + Ahead(rest), reach, ending, max, Ok(front[..FindBlank(front)]))
  {
    hide FindBlank, HeadFrom, Singles, Flat, Ahead;
    var a, b := front[..max], front[max..];
    Rejoin(front, max);
    var st := Stream([], Singles(a) + (Piece(b) + rest.pieces));
    SinglesInFront(a, b, rest);
    HeadFoundAfterReads(a, b, rest.pieces, ending, max);
    assert Arrives(st, front + Ahead(rest), reach);
  }

  lemma PutInFront(front: seq<Byte>, rest: Stream)
    requires Good(rest) && rest.buffer == []
    ensures Ahead(Stream(front, rest.pieces)) == front + Ahead(rest)
  {
    assert [] + Flat(rest.pieces) == Flat(rest.pieces);
  }

  lemma SinglesInFront(a: seq<Byte>, b: seq<Byte>, rest: Stream)
    requires Good(rest) && rest.buffer == []
    ensures var st := Stream([], Singles(a) + (Piece(b) + rest.pieces)); Good(st) && Ahead(st) == a + b + Ahead(rest)
  {
    hide Flat, Piece, Singles;
    FlatPiece(b, rest.pieces);
    FlatSinglesThen(a, Piece(b) + rest.pieces);
    Associative(a, b, Flat(rest.pieces));
    Unit(a + (b + Flat(rest.pieces)));
    Unit(Flat(rest.pieces));
  }

  lemma {:induction false} SinglesFindHeadTooLarge(buffer: seq<Byte>, data: seq<Byte>, ending: Ending, max: nat)
    requires |buffer| <= max + 1 && FindBlank(buffer + data) < |buffer + data| && max < FindBlank(buffer + data) + 3
    ensures HeadFrom(Stream(buffer, Singles(data)), ending, max).0 == Err(Malformed)
    decreases |data|
  {
    hide BlankAt;
    if FindBlank(buffer) < |buffer| {
      BlankInFront(buffer, data);
    }
    assert FindBlank(buffer) == |buffer| by {
      BlankEndsLater(buffer, data, max);
    }
    if |buffer| <= max {
      assert data != [] by {
        assert buffer + [] == buffer;
      }
      var pieces := Singles(data);
      assert Read(Stream(buffer, pieces), HEAD_ROOM) == Stream(buffer + [data[0]], Singles(data[1..]));
      assert (buffer + [data[0]]) + data[1..] == buffer + data;
      SinglesFindHeadTooLarge(buffer + [data[0]], data[1..], ending, max);
    }
  }

  lemma BlankEndsLater(buffer: seq<Byte>, data: seq<Byte>, max: nat)
    requires |buffer| <= max + 1 && FindBlank(buffer + data) < |buffer + data| && max < FindBlank(buffer + data) + 3
    ensures FindBlank(buffer) == |buffer|
  {
    if FindBlank(buffer) < |buffer| {
      BlankInFront(buffer, data);
    }
  }

  lemma HeadCanFail(data: seq<Byte>, ending: Ending, max: nat, reach: nat)
    requires FindBlank(data) < |data| && max < FindBlank(data) + 3
    ensures HeadCanBe(data, reach, ending, max, Err(Malformed))
  {
    hide HeadFrom, FindBlank, Singles, Flat, Ahead;
    ByteByByte(data);
    Unit(data);
    SinglesFindHeadTooLarge([], data, ending, max);
    assert Arrives(Stream([], Singles(data)), data, reach);
  }

  lemma HeadCanOnlyBe(data: seq<Byte>, ending: Ending, max: nat, reach: nat, r: Result<seq<Byte>, Failure>)
    requires HeadCanBe(data, reach, ending, max, r)
    ensures var e := FindBlank(data);
            if e == |data| then r == Err(if |data| > max then Malformed else EndFailure(ending))
            else || (r == Err(Malformed) && max < e + 3)
                 || (r == Ok(data[..e]) && (max < e + 3 ==> e + 4 <= Max(reach, max + HEAD_ROOM)))
  {
    hide HeadFrom, FindBlank, Ahead, Good;
    var st: Stream :| Arrives(st, data, reach) && HeadFrom(st, ending, max).0 == r;
    assert Good(st) && Ahead(st) == data;
    HeadReading(st, ending, max, Max(reach, Min(max, FindBlank(data) + 3) + HEAD_ROOM));
  }

  /** How a head arrives matters exactly when its end lies beyond the limit and within what one more read can bring. */
  lemma HeadArrivalMatters(data: seq<Byte>, ending: Ending, max: nat, reach: nat)
    ensures var e := FindBlank(data);
            HeadsDiffer(data, ending, max, reach)
            <==> e < |data| && max < e + 3 && e + 4 <= Max(reach, max + HEAD_ROOM)
  {
    hide HeadCanBe, FindBlank;
    var e := FindBlank(data);
    if e < |data| && max < e + 3 && e + 4 <= Max(reach, max + HEAD_ROOM) {
      HeadCanArrive(data, ending, max, reach);
      HeadCanFail(data, ending, max, reach);
    } else if HeadsDiffer(data, ending, max, reach) {
      var r, r' :| HeadCanBe(data, reach, ending, max, r) && HeadCanBe(data, reach, ending, max, r') && r != r';
      HeadCanOnlyBe(data, ending, max, reach, r);
      HeadCanOnlyBe(data, ending, max, reach, r');
    }
  }

  /** Behind a head at most 511 bytes stay buffered, if no more were buffered before it. */
  lemma HeadLeavesLittle(st: Stream, ending: Ending, max: nat)
    requires Good(st) && |st.buffer| < HEAD_ROOM
    ensures var (r, rest) := HeadFrom(st, ending, max); r.Ok? ==> |rest.buffer| < HEAD_ROOM
  {
    hide HeadFrom, FindBlank;
    var e := FindBlank(Ahead(st));
    HeadReading(st, ending, max, Min(max, e + 3) + HEAD_ROOM);
  }

  // ---- Data ----

  function AfterFill(reach: nat, n: nat, room: nat): nat
    requires n > 0
  {
    LeftOver(reach, n - 1, room, n)
  }

  lemma {:induction false} FillLeaves(st: Stream, n: nat, room: nat, most: nat)
    requires Good(st) && room > 0 && n > 0 && |st.buffer| <= most && n - 1 + room <= most
    ensures var (filled, after) := FillFrom(st, n, room);
            filled ==> && |after.buffer| <= most
                       && after.buffer[..n] == Ahead(st)[..n] && Ahead(Behind(after, n)) == Ahead(st)[n..]
    decreases |Flat(st.pieces)|
  {
    hide Read, Flat;
    if |st.buffer| >= n {
      assert Ahead(st)[n..] == st.buffer[n..] + Flat(st.pieces);
    } else if st.pieces != [] {
      FillLeaves(Read(st, room), n, room, most);
    }
  }

  lemma FillReads(st: Stream, n: nat, room: nat)
    requires Good(st) && st.pieces != [] && |st.buffer| < n && room > 0
    ensures FillFrom(st, n, room) == FillFrom(Read(st, room), n, room)
  {
    hide Read, Ahead;
  }

  lemma FillDone(st: Stream, n: nat, room: nat)
    requires Good(st) && |st.buffer| >= n && room > 0
    ensures FillFrom(st, n, room) == (true, st)
  {
  }

  lemma {:induction false} FillsUp(a: seq<Byte>, b: seq<Byte>, tail: Pieces, n: nat, room: nat)
    requires |a| + |b| < n && NonEmpty(tail) && room > 0
    ensures NonEmpty(Singles(b) + tail)
    ensures FillFrom(Stream(a, Singles(b) + tail), n, room) == FillFrom(Stream(a + b, tail), n, room)
    decreases |b|
  {
    hide FillFrom, Read;
    if b == [] {
      assert Singles(b) + tail == tail && a + b == a;
    } else {
      var rest := Singles(b[1..]) + tail;
      assert Singles(b) + tail == Piece([b[0]]) + rest;
      assert (a + [b[0]]) + b[1..] == a + b;
      FillsUp(a + [b[0]], b[1..], tail, n, room);
      ReadPiece(a, [b[0]], rest, room);
      FillReads(Stream(a, Singles(b) + tail), n, room);
    }
  }

  lemma FilledAfterReads(a: seq<Byte>, b: seq<Byte>, tail: Pieces, n: nat, room: nat)
    requires |a| + 1 == n && b != [] && |b| <= room && NonEmpty(tail)
    ensures NonEmpty(Singles(a) + (Piece(b) + tail))
    ensures FillFrom(Stream([], Singles(a) + (Piece(b) + tail)), n, room) == (true, Stream(a + b, tail))
  {
    hide FillFrom, Read, Flat, Singles;
    var last := Piece(b) + tail;
    ReadPiece(a, b, tail, room);
    assert [] + a == a;
    FillsUp([], a, last, n, room);
    FillReads(Stream(a, last), n, room);
    FillDone(Stream(a + b, tail), n, room);
  }

  // Some way of arriving fills the buffer to `n` and leaves `full`.
  ghost predicate FillComes(data: seq<Byte>, reach: nat, n: nat, room: nat, full: Stream)
    requires room > 0
  {
    exists st: Stream :: Arrives(st, data, reach) && FillFrom(st, n, room) == (true, full)
  }

  // Bytes can arrive so that any permitted rest of the buffer stays behind them.
  lemma FillCanArrive(taken: seq<Byte>, room: nat, reach: nat, rest: Stream)
    requires taken != [] && room > 0 && Arrives(rest, Ahead(rest), AfterFill(reach, |taken|, room))
    ensures FillComes(taken + Ahead(rest), reach, |taken|, room, Stream(taken + rest.buffer, rest.pieces))
  {
    hide FillFrom, Singles, Flat;
    var n := |taken|;
    var whole := taken + rest.buffer;
    Associative(taken, rest.buffer, Flat(rest.pieces));
    if |whole| <= reach {
      var st := Stream(whole, rest.pieces);
      FillDone(st, n, room);
      assert Arrives(st, taken + Ahead(rest), reach);
    } else {
      var a, b := whole[..n - 1], whole[n - 1..];
      assert a + b == whole;
      var st := Stream([], Singles(a) + (Piece(b) + rest.pieces));
      SinglesBefore(a, b, rest.pieces);
      FilledAfterReads(a, b, rest.pieces, n, room);
      assert Arrives(st, taken + Ahead(rest), reach);
    }
  }

  lemma SinglesBefore(a: seq<Byte>, b: seq<Byte>, tail: Pieces)
    requires NonEmpty(tail)
    ensures var st := Stream([], Singles(a) + (Piece(b) + tail)); Arrives(st, a + b + Flat(tail), 0)
  {
    hide Flat, Piece, Singles;
    FlatPiece(b, tail);
    FlatSinglesThen(a, Piece(b) + tail);
    Associative(a, b, Flat(tail));
    Unit(a + (b + Flat(tail)));
  }

  // ---- Trailers ----

  // The widest reading: every line is found that the reads so far can have brought near enough.
  function WidestTrailers(data: seq<Byte>, ending: Ending, reach: nat): Outcome<Failure>
    decreases |data|
  {
    var p := IndexOf(data, LF);
    if p == |data| then Fail(if |data| > LINE_LIMIT then Malformed else EndFailure(ending))
    else if p >= LineReach(reach, p) then Fail(Malformed)
    else if Stripped(data[..p + 1]) == [] then Pass
    else WidestTrailers(data[p + 1..], ending, AfterLine(reach, p))
  }

  lemma {:induction false} TrailersSettle(st: Stream, ending: Ending, body: seq<Byte>)
    requires Good(st)
    ensures var spec := AfterTrailers(Ahead(st), ending, body);
            var status := TrailersFrom(st, ending);
            spec.Settled? ==> spec.result == if status.Fail? then Err(status.error) else Ok(body)
    decreases |Ahead(st)|
  {
    hide LineOf, LineFrom;
    if LineOf(Ahead(st), ending).Settled? {
      SettledLine(st, ending);
      var (line, rest) := LineFrom(st, ending);
      if line.Ok? {
        TrailersSettle(rest, ending, body);
      }
    }
  }

  lemma {:induction false} TrailersNoWider(st: Stream, ending: Ending, reach: nat)
    requires Good(st) && |st.buffer| <= reach
    ensures TrailersFrom(st, ending) == WidestTrailers(Ahead(st), ending, reach) || TrailersFrom(st, ending) == Fail(Malformed)
    decreases |Ahead(st)|
  {
    hide IndexOf, Stripped, LineFrom, Ahead;
    var p := IndexOf(Ahead(st), LF);
    LineReading(st, ending, LineReach(reach, p));
    var (line, rest) := LineFrom(st, ending);
    if line.Ok? {
      TrailersNoWider(rest, ending, AfterLine(reach, p));
    }
  }

  ghost predicate TrailersCanBe(data: seq<Byte>, reach: nat, ending: Ending, status: Outcome<Failure>) {
    exists st: Stream :: Arrives(st, data, reach) && TrailersFrom(st, ending) == status
  }

  // A line in front of trailers that can be read so.
  lemma TrailersBehindLine(data: seq<Byte>, p: nat, ending: Ending, reach: nat, status: Outcome<Failure>)
    requires p < |data| && IndexOf(data, LF) == p && p < LineReach(reach, p) && Stripped(data[..p + 1]) != []
    requires TrailersCanBe(data[p + 1..], AfterLine(reach, p), ending, status)
    ensures TrailersCanBe(data, reach, ending, status)
  {
    hide IndexOf, Stripped, LineFrom, Ahead;
    var rest: Stream :| Arrives(rest, data[p + 1..], AfterLine(reach, p)) && TrailersFrom(rest, ending) == status;
    LineCanArrive(data, p, ending, reach, rest);
    var st: Stream :| Arrives(st, data, reach) && LineFrom(st, ending) == (Ok(Stripped(data[..p + 1])), rest);
  }

  lemma {:induction false} TrailersCanArrive(data: seq<Byte>, ending: Ending, reach: nat)
    requires WidestTrailers(data, ending, reach) != Fail(Malformed)
    ensures TrailersCanBe(data, reach, ending, WidestTrailers(data, ending, reach))
    decreases |data|
  {
    hide IndexOf, Stripped, LineFrom, Ahead;
    var p := IndexOf(data, LF);
    if p == |data| {
      AllArrives(data);
      LineReading(AllAhead(data), ending, LineReach(reach, p));
      assert Arrives(AllAhead(data), data, reach);
    } else if Stripped(data[..p + 1]) == [] {
      var rest := AllAhead(data[p + 1..]);
      AllArrives(data[p + 1..]);
      LineCanArrive(data, p, ending, reach, rest);
      var st: Stream :| Arrives(st, data, reach) && LineFrom(st, ending) == (Ok(Stripped(data[..p + 1])), rest);
    } else {
      hide TrailersCanBe;
      TrailersCanArrive(data[p + 1..], ending, AfterLine(reach, p));
      TrailersBehindLine(data, p, ending, reach, WidestTrailers(data, ending, reach));
    }
  }

  lemma {:induction false} TrailersCanFail(data: seq<Byte>, ending: Ending, body: seq<Byte>)
    requires AfterTrailers(data, ending, body).Unsettled?
    ensures TrailersCanBe(data, 0, ending, Fail(Malformed))
    decreases |data|
  {
    hide LineFrom, Ahead, IndexOf, Stripped;
    var p := IndexOf(data, LF);
    if LineOf(data, ending).Unsettled? {
      LongLineCanFail(data, ending, 0);
      var st: Stream :| Arrives(st, data, 0) && LineFrom(st, ending).0 == Err(Malformed);
    } else {
      TrailersCanFail(data[p + 1..], ending, body);
      MoreReach(data[p + 1..], ending, AfterLine(0, p));
      TrailersBehindLine(data, p, ending, 0, Fail(Malformed));
    }
  }

  lemma MoreReach(data: seq<Byte>, ending: Ending, reach: nat)
    requires TrailersCanBe(data, 0, ending, Fail(Malformed))
    ensures TrailersCanBe(data, reach, ending, Fail(Malformed))
  {
    hide TrailersFrom, Ahead;
    var st: Stream :| Arrives(st, data, 0) && TrailersFrom(st, ending) == Fail(Malformed);
    assert Arrives(st, data, reach);
  }

  // ---- Chunks ----

  function Widest(data: seq<Byte>, ending: Ending, max: nat, body: seq<Byte>, reach: nat): Result<seq<Byte>, Failure>
    requires |body| <= max
    decreases |data|, 1
  {
    var p := IndexOf(data, LF);
    if p == |data| then Err(if |data| > LINE_LIMIT then Malformed else EndFailure(ending))
    else if p >= LineReach(reach, p) then Err(Malformed)
    else
      match ChunkSize(Stripped(data[..p + 1]))
      case None => Err(Malformed)
      case Some(size) =>
        if size == 0 then
          match WidestTrailers(data[p + 1..], ending, AfterLine(reach, p))
          case Fail(e) => Err(e)
          case Pass => Ok(body)
        else WidestData(data[p + 1..], ending, max, body, TakeOf(size, max, body), AfterLine(reach, p))
  }

  function WidestData(data: seq<Byte>, ending: Ending, max: nat, body: seq<Byte>, take: nat, reach: nat)
    : Result<seq<Byte>, Failure>
    requires |body| <= max && take > 0
    decreases |data|, 0
  {
    if |data| < take then Err(EndFailure(ending))
    else if |body| + take > max then Ok(Capped(body + data[..take], max))
    else if |data| < take + 2 then Err(EndFailure(ending))
    else if data[take..take + 2] != [CR, LF] then Err(Malformed)
    else Widest(data[take + 2..], ending, max, body + data[..take], AfterData(reach, take))
  }

  // What the buffer may hold behind a chunk's data and its line end.
  function AfterData(reach: nat, take: nat): nat
    requires take > 0
  {
    AfterFill(AfterFill(reach, take, DATA_ROOM), 2, LINE_ROOM)
  }

  // What the reads of a chunk's data and line end come to, however they arrive.
  lemma DataReading(st: Stream, ending: Ending, max: nat, body: seq<Byte>, take: nat, reach: nat) returns (after: Stream)
    requires Good(st) && |body| <= max && take > 0 && |st.buffer| <= reach
    ensures var data := Ahead(st);
            var r := DataFrom(st, ending, max, body, take);
            if |data| < take then r == Err(EndFailure(ending))
            else if |body| + take > max then r == Ok(Capped(body + data[..take], max))
            else if |data| < take + 2 then r == Err(EndFailure(ending))
            else if data[take..take + 2] != [CR, LF] then r == Err(Malformed)
            else && Good(after) && Ahead(after) == data[take + 2..] && |after.buffer| <= AfterData(reach, take)
                 && r == ChunkedFrom(after, ending, max, body + data[..take])
  {
    hide ChunkedFrom, FillFrom, Ahead;
    var data := Ahead(st);
    after := st;
    FillLeaves(st, take, DATA_ROOM, Max(reach, take - 1 + DATA_ROOM));
    var (filled, full) := FillFrom(st, take, DATA_ROOM);
    if filled && |body| + take <= max {
      var left := Behind(full, take);
      FillLeaves(left, 2, LINE_ROOM, Max(AfterFill(reach, take, DATA_ROOM), 1 + LINE_ROOM));
      var (ended, end) := FillFrom(left, 2, LINE_ROOM);
      assert |Ahead(left)| == |data| - take;
      if ended {
        assert Ahead(left)[..2] == data[take..take + 2] && Ahead(left)[2..] == data[take + 2..];
        after := Behind(end, 2);
      }
    }
  }

  lemma {:induction false} ChunkedSettles(st: Stream, ending: Ending, max: nat, body: seq<Byte>)
    requires Good(st) && |body| <= max
    ensures var spec := Chunked(Ahead(st), ending, max, body);
            spec.Settled? ==> ChunkedFrom(st, ending, max, body) == spec.result
    decreases |Ahead(st)|, 1
  {
    hide LineOf, LineFrom, ChunkSize, AfterTrailers, TrailersFrom, Ahead, DataFrom, ChunkData;
    if LineOf(Ahead(st), ending).Settled? {
      SettledLine(st, ending);
      var (line, rest) := LineFrom(st, ending);
      if line.Ok? && ChunkSize(line.value).Some? {
        var size := ChunkSize(line.value).value;
        if size == 0 {
          TrailersSettle(rest, ending, body);
        } else {
          DataSettles(rest, ending, max, body, TakeOf(size, max, body));
        }
      }
    }
  }

  lemma {:induction false} DataSettles(st: Stream, ending: Ending, max: nat, body: seq<Byte>, take: nat)
    requires Good(st) && |body| <= max && take > 0
    ensures var spec := ChunkData(Ahead(st), ending, max, body, take);
            spec.Settled? ==> DataFrom(st, ending, max, body, take) == spec.result
    decreases |Ahead(st)|, 0
  {
    hide Chunked, ChunkedFrom, DataFrom, Ahead;
    var data := Ahead(st);
    var after := DataReading(st, ending, max, body, take, |st.buffer|);
    if |data| >= take + 2 && |body| + take <= max && data[take..take + 2] == [CR, LF] {
      ChunkedSettles(after, ending, max, body + data[..take]);
    }
  }

  lemma {:induction false} ChunkedNoWider(st: Stream, ending: Ending, max: nat, body: seq<Byte>, reach: nat)
    requires Good(st) && |body| <= max && |st.buffer| <= reach
    ensures var r := ChunkedFrom(st, ending, max, body);
            r == Widest(Ahead(st), ending, max, body, reach) || r == Err(Malformed)
    decreases |Ahead(st)|, 1
  {
    hide IndexOf, Stripped, LineFrom, ChunkSize, TrailersFrom, WidestTrailers, Ahead, DataFrom, WidestData;
    var p := IndexOf(Ahead(st), LF);
    LineReading(st, ending, LineReach(reach, p));
    var (line, rest) := LineFrom(st, ending);
    if line.Ok? && ChunkSize(line.value).Some? {
      var size := ChunkSize(line.value).value;
      if size == 0 {
        TrailersNoWider(rest, ending, AfterLine(reach, p));
      } else {
        DataNoWider(rest, ending, max, body, TakeOf(size, max, body), AfterLine(reach, p));
      }
    }
  }

  lemma {:induction false} DataNoWider(st: Stream, ending: Ending, max: nat, body: seq<Byte>, take: nat, reach: nat)
    requires Good(st) && |body| <= max && take > 0 && |st.buffer| <= reach
    ensures var r := DataFrom(st, ending, max, body, take);
            r == WidestData(Ahead(st), ending, max, body, take, reach) || r == Err(Malformed)
    decreases |Ahead(st)|, 0
  {
    hide Widest, ChunkedFrom, DataFrom, Ahead, AfterData;
    var data := Ahead(st);
    var after := DataReading(st, ending, max, body, take, reach);
    if |data| >= take + 2 && |body| + take <= max && data[take..take + 2] == [CR, LF] {
      ChunkedNoWider(after, ending, max, body + data[..take], AfterData(reach, take));
    }
  }

  // Some way of arriving makes this of the chunks.
  ghost predicate BodyCanBe(data: seq<Byte>, reach: nat, ending: Ending, max: nat, body: seq<Byte>,
                            r: Result<seq<Byte>, Failure>)
    requires |body| <= max
  {
    exists st: Stream :: Arrives(st, data, reach) && ChunkedFrom(st, ending, max, body) == r
  }

  ghost predicate DataCanBe(data: seq<Byte>, reach: nat, ending: Ending, max: nat, body: seq<Byte>, take: nat,
                            r: Result<seq<Byte>, Failure>)
    requires |body| <= max && take > 0
  {
    exists st: Stream :: Arrives(st, data, reach) && DataFrom(st, ending, max, body, take) == r
  }

  // A chunk's data and line end in front of chunks that can be read so.
  lemma DataBeforeChunks(data: seq<Byte>, ending: Ending, max: nat, body: seq<Byte>, take: nat, reach: nat,
                         r: Result<seq<Byte>, Failure>)
    requires |body| + take <= max && take > 0 && |data| >= take + 2 && data[take..take + 2] == [CR, LF]
    requires BodyCanBe(data[take + 2..], AfterData(reach, take), ending, max, body + data[..take], r)
    ensures DataCanBe(data, reach, ending, max, body, take, r)
  {
    hide ChunkedFrom, FillFrom, Ahead, FillComes;
    var taken, crlf := data[..take], data[take..take + 2];
    var rest: Stream :| Arrives(rest, data[take + 2..], AfterData(reach, take))
      && ChunkedFrom(rest, ending, max, body + taken) == r;
    var both := Stream(crlf + rest.buffer, rest.pieces);
    FillCanArrive(crlf, LINE_ROOM, AfterFill(reach, take, DATA_ROOM), rest);
    var end := Filling(crlf + Ahead(rest), AfterFill(reach, take, DATA_ROOM), 2, LINE_ROOM, both);
    var full := Stream(taken + end.buffer, end.pieces);
    FillCanArrive(taken, DATA_ROOM, reach, end);
    assert taken + (crlf + Ahead(rest)) == data;
    var st := Filling(data, reach, take, DATA_ROOM, full);
    Halves(taken, end.buffer);
    Halves(crlf, rest.buffer);
  }

  lemma Filling(data: seq<Byte>, reach: nat, n: nat, room: nat, full: Stream) returns (st: Stream)
    requires room > 0 && FillComes(data, reach, n, room, full)
    ensures Arrives(st, data, reach) && FillFrom(st, n, room) == (true, full)
  {
    hide FillFrom, Ahead;
    st :| Arrives(st, data, reach) && FillFrom(st, n, room) == (true, full);
  }

  // A size line in front of trailers or of a chunk's data that can be read so.
  lemma LineBeforeBody(data: seq<Byte>, p: nat, ending: Ending, max: nat, body: seq<Byte>, reach: nat,
                       r: Result<seq<Byte>, Failure>)
    requires p < |data| && IndexOf(data, LF) == p && p < LineReach(reach, p) && |body| <= max
    requires match ChunkSize(Stripped(data[..p + 1]))
             case None => r == Err(Malformed)
             case Some(size) =>
               if size > 0 then DataCanBe(data[p + 1..], AfterLine(reach, p), ending, max, body, TakeOf(size, max, body), r)
               else exists status :: TrailersCanBe(data[p + 1..], AfterLine(reach, p), ending, status)
                                     && r == if status.Pass? then Ok(body) else Err(status.error)
    ensures BodyCanBe(data, reach, ending, max, body, r)
  {
    hide IndexOf, Stripped, LineFrom, ChunkSize, TrailersFrom, Ahead, DataFrom;
    var line, tail, left := Stripped(data[..p + 1]), data[p + 1..], AfterLine(reach, p);
    var rest := AllAhead(tail);
    AllArrives(tail);
    if ChunkSize(line).Some? {
      var size := ChunkSize(line).value;
      if size > 0 {
        rest :| Arrives(rest, tail, left) && DataFrom(rest, ending, max, body, TakeOf(size, max, body)) == r;
      } else {
        var status :| TrailersCanBe(tail, left, ending, status) && r == if status.Pass? then Ok(body) else Err(status.error);
        rest :| Arrives(rest, tail, left) && TrailersFrom(rest, ending) == status;
      }
    }
    LineCanArrive(data, p, ending, reach, rest);
    var st: Stream :| Arrives(st, data, reach) && LineFrom(st, ending) == (Ok(line), rest);
  }

  lemma {:induction false} ChunkedCanArrive(data: seq<Byte>, ending: Ending, max: nat, body: seq<Byte>, reach: nat)
    requires |body| <= max && Widest(data, ending, max, body, reach) != Err(Malformed)
    ensures BodyCanBe(data, reach, ending, max, body, Widest(data, ending, max, body, reach))
    decreases |data|, 1
  {
    hide IndexOf, Stripped, LineFrom, ChunkSize, TrailersCanBe, WidestTrailers, Ahead, DataCanBe, WidestData;
    var p := IndexOf(data, LF);
    if p == |data| {
      AllArrives(data);
      LineReading(AllAhead(data), ending, LineReach(reach, p));
      assert Arrives(AllAhead(data), data, reach);
    } else {
      hide BodyCanBe;
      var size := ChunkSize(Stripped(data[..p + 1])).value;
      if size == 0 {
        TrailersCanArrive(data[p + 1..], ending, AfterLine(reach, p));
      } else {
        DataCanArrive(data[p + 1..], ending, max, body, TakeOf(size, max, body), AfterLine(reach, p));
      }
      LineBeforeBody(data, p, ending, max, body, reach, Widest(data, ending, max, body, reach));
    }
  }

  lemma {:induction false} DataCanArrive(data: seq<Byte>, ending: Ending, max: nat, body: seq<Byte>, take: nat, reach: nat)
    requires |body| <= max && take > 0 && WidestData(data, ending, max, body, take, reach) != Err(Malformed)
    ensures DataCanBe(data, reach, ending, max, body, take, WidestData(data, ending, max, body, take, reach))
    decreases |data|, 0
  {
    hide Widest, ChunkedFrom, DataFrom, Ahead, AfterData, BodyCanBe;
    if |data| >= take + 2 && |body| + take <= max {
      hide DataCanBe;
      ChunkedCanArrive(data[take + 2..], ending, max, body + data[..take], AfterData(reach, take));
      DataBeforeChunks(data, ending, max, body, take, reach, WidestData(data, ending, max, body, take, reach));
    } else {
      AllArrives(data);
      var _ := DataReading(AllAhead(data), ending, max, body, take, reach);
      assert Arrives(AllAhead(data), data, reach);
    }
  }

  lemma {:induction false} ChunkedCanFail(data: seq<Byte>, ending: Ending, max: nat, body: seq<Byte>, reach: nat)
    requires |body| <= max && Chunked(data, ending, max, body).Unsettled?
    ensures BodyCanBe(data, reach, ending, max, body, Err(Malformed))
    decreases |data|, 1
  {
    hide IndexOf, Stripped, LineFrom, ChunkSize, AfterTrailers, TrailersFrom, Ahead, DataFrom, ChunkData, DataCanBe;
    var p := IndexOf(data, LF);
    if LineOf(data, ending).Unsettled? {
      LongLineCanFail(data, ending, reach);
      var st: Stream :| Arrives(st, data, reach) && LineFrom(st, ending).0 == Err(Malformed);
    } else {
      hide BodyCanBe, TrailersCanBe;
      var size := ChunkSize(Stripped(data[..p + 1])).value;
      if size == 0 {
        TrailersCanFail(data[p + 1..], ending, body);
        MoreReach(data[p + 1..], ending, AfterLine(reach, p));
      } else {
        DataCanFail(data[p + 1..], ending, max, body, TakeOf(size, max, body), AfterLine(reach, p));
      }
      LineBeforeBody(data, p, ending, max, body, reach, Err(Malformed));
    }
  }

  lemma {:induction false} DataCanFail(data: seq<Byte>, ending: Ending, max: nat, body: seq<Byte>, take: nat, reach: nat)
    requires |body| <= max && take > 0 && ChunkData(data, ending, max, body, take).Unsettled?
    ensures DataCanBe(data, reach, ending, max, body, take, Err(Malformed))
    decreases |data|, 0
  {
    hide Chunked, BodyCanBe, DataCanBe, AfterData;
    ChunkedCanFail(data[take + 2..], ending, max, body + data[..take], AfterData(reach, take));
    DataBeforeChunks(data, ending, max, body, take, reach, Err(Malformed));
  }

  // Two ways of arriving make different bodies of the same bytes.
  ghost predicate BodiesDiffer(data: seq<Byte>, ending: Ending, max: nat, reach: nat) {
    exists r, r' :: BodyCanBe(data, reach, ending, max, [], r) && BodyCanBe(data, reach, ending, max, [], r') && r != r'
  }

  /** However a chunked body arrives, where the bytes settle it the result is theirs. */
  lemma SettledBody(st: Stream, ending: Ending, max: nat)
    requires Good(st)
    ensures var spec := Chunked(Ahead(st), ending, max, []);
            spec.Settled? ==> ChunkedFrom(st, ending, max, []) == spec.result
  {
    ChunkedSettles(st, ending, max, []);
  }

  /**
    How a chunked body arrives matters exactly when some line's newline lies beyond the limit, and reading on with
    every line found that the reads can have brought near enough comes to anything but a malformed response.
   */
  lemma BodyArrivalMatters(data: seq<Byte>, ending: Ending, max: nat, reach: nat)
    ensures BodiesDiffer(data, ending, max, reach)
            <==> Chunked(data, ending, max, []).Unsettled? && Widest(data, ending, max, [], reach) != Err(Malformed)
  {
    hide Chunked, BodyCanBe, Widest;
    if Chunked(data, ending, max, []).Unsettled? && Widest(data, ending, max, [], reach) != Err(Malformed) {
      ChunkedCanArrive(data, ending, max, [], reach);
      ChunkedCanFail(data, ending, max, [], reach);
    } else if BodiesDiffer(data, ending, max, reach) {
      var r, r' :| BodyCanBe(data, reach, ending, max, [], r) && BodyCanBe(data, reach, ending, max, [], r') && r != r';
      BodyCanOnlyBe(data, ending, max, reach, r);
      BodyCanOnlyBe(data, ending, max, reach, r');
    }
  }

  lemma BodyCanOnlyBe(data: seq<Byte>, ending: Ending, max: nat, reach: nat, r: Result<seq<Byte>, Failure>)
    requires BodyCanBe(data, reach, ending, max, [], r)
    ensures r == Widest(data, ending, max, [], reach) || r == Err(Malformed)
    ensures var spec := Chunked(data, ending, max, []); spec.Settled? ==> r == spec.result
  {
    hide Chunked, ChunkedFrom, Widest, Ahead;
    var st: Stream :| Arrives(st, data, reach) && ChunkedFrom(st, ending, max, []) == r;
    SettledBody(st, ending, max);
    ChunkedNoWider(st, ending, max, [], reach);
  }

  lemma LineConsumes(data: seq<Byte>, ending: Ending)
    ensures var r := LineOf(data, ending); r.Settled? && r.result.Ok? ==> |r.result.value.1| < |data|
  {
  }

  // ---- Chunked encoding ----

  // A chunk with its size line, which may carry extensions.
  datatype Chunk = Chunk(line: seq<Byte>, data: seq<Byte>)

  // A line the reader takes in however it arrives.
  predicate ShortLine(line: seq<Byte>) {
    |line| + 1 <= LINE_LIMIT && Unbroken(line)
  }

  predicate GoodChunk(c: Chunk) {
    ShortLine(c.line) && c.data != [] && ChunkSize(c.line) == Some(|c.data|)
  }

  const CRLF: seq<Byte> := [CR, LF]

  function EncodeChunk(c: Chunk): seq<Byte> {
    c.line + CRLF + (c.data + CRLF)
  }

  function EncodeChunks(cs: seq<Chunk>): seq<Byte> {
    if cs == [] then [] else EncodeChunk(cs[0]) + EncodeChunks(cs[1..])
  }

  function EncodeLines(lines: seq<seq<Byte>>): seq<Byte> {
    if lines == [] then CRLF else lines[0] + CRLF + EncodeLines(lines[1..])
  }

  function Data(cs: seq<Chunk>): seq<Byte> {
    if cs == [] then [] else cs[0].data + Data(cs[1..])
  }

  predicate GoodChunks(cs: seq<Chunk>) {
    forall i :: 0 <= i < |cs| ==> GoodChunk(cs[i])
  }

  predicate GoodTrailers(lines: seq<seq<Byte>>) {
    forall i :: 0 <= i < |lines| ==> ShortLine(lines[i]) && lines[i] != []
  }

  // A whole body: chunks, a line of size zero, trailers, an empty line.
  function EncodeBody(cs: seq<Chunk>, last: seq<Byte>, trailers: seq<seq<Byte>>): seq<Byte> {
    EncodeChunks(cs) + (last + CRLF + EncodeLines(trailers))
  }

  predicate Unbroken(line: seq<Byte>) {
    forall i :: 0 <= i < |line| ==> line[i] != CR && line[i] != LF
  }

  lemma UnbrokenLineReads(line: seq<Byte>, rest: seq<Byte>)
    requires Unbroken(line)
    ensures var data := line + CRLF + rest;
            var p := |line| + 1;
            IndexOf(data, LF) == p && p < |data| && Stripped(data[..p + 1]) == line && data[p + 1..] == rest
  {
    var data := line + CRLF + rest;
    IndexIsFirst(data, LF, |line| + 1);
    assert data[..|line| + 2] == line + CRLF && data[|line| + 2..] == rest;
    assert (line + CRLF)[..|line| + 1] == line + [CR];
    assert (line + [CR])[..|line|] == line;
    assert Stripped(line + CRLF) == Stripped(line + [CR]) == Stripped(line) == line;
  }

  lemma ShortLineReads(line: seq<Byte>, rest: seq<Byte>, ending: Ending)
    requires ShortLine(line)
    ensures LineOf(line + CRLF + rest, ending) == Settled(Ok((line, rest)))
  {
    hide Stripped, IndexOf;
    UnbrokenLineReads(line, rest);
  }

  lemma {:induction false} TrailersRead(lines: seq<seq<Byte>>, after: seq<Byte>, ending: Ending, body: seq<Byte>)
    requires GoodTrailers(lines)
    ensures AfterTrailers(EncodeLines(lines) + after, ending, body) == Settled(Ok(body))
  {
    hide LineOf;
    if lines == [] {
      ShortLineReads([], after, ending);
      assert [] + CRLF + after == EncodeLines(lines) + after;
    } else {
      var rest := EncodeLines(lines[1..]) + after;
      assert EncodeLines(lines) + after == lines[0] + CRLF + rest;
      ShortLineReads(lines[0], rest, ending);
      TrailersRead(lines[1..], after, ending, body);
    }
  }

  // One chunk at the front moves its data into the body.
  lemma ChunkReads(c: Chunk, rest: seq<Byte>, ending: Ending, max: nat, body: seq<Byte>)
    requires GoodChunk(c) && |body| <= max
    ensures Chunked(EncodeChunk(c) + rest, ending, max, body)
            == if |body| + |c.data| > max then Settled(Ok((body + c.data)[..max]))
               else Chunked(rest, ending, max, body + c.data)
  {
    hide ChunkSize, LineOf;
    var tail := c.data + CRLF + rest;
    var data := EncodeChunk(c) + rest;
    assert data == c.line + CRLF + tail;
    ShortLineReads(c.line, tail, ending);
    if |body| + |c.data| > max {
      var take := if |c.data| <= max + 1 - |body| then |c.data| else max + 1 - |body|;
      assert tail[..take] == c.data[..take];
      assert (body + c.data[..take])[..max] == (body + c.data)[..max];
    } else {
      assert tail[..|c.data|] == c.data && tail[|c.data|..|c.data| + 2] == CRLF && tail[|c.data| + 2..] == rest;
    }
  }

  lemma {:induction false} ChunksRead(cs: seq<Chunk>, last: seq<Byte>, trailers: seq<seq<Byte>>, after: seq<Byte>,
                                      ending: Ending, max: nat, body: seq<Byte>)
    requires GoodChunks(cs) && ShortLine(last) && ChunkSize(last) == Some(0) && GoodTrailers(trailers) && |body| <= max
    ensures Chunked(EncodeBody(cs, last, trailers) + after, ending, max, body) == Settled(Ok(Capped(body + Data(cs), max)))
    decreases |cs|
  {
    hide ChunkSize, LineOf, GoodChunk, EncodeChunk, ShortLine;
    var whole := EncodeBody(cs, last, trailers) + after;
    if cs == [] {
      var rest := EncodeLines(trailers) + after;
      assert whole == last + CRLF + rest;
      ShortLineReads(last, rest, ending);
      TrailersRead(trailers, after, ending, body);
      assert body + [] == body;
    } else {
      var rest := EncodeBody(cs[1..], last, trailers) + after;
      assert whole == EncodeChunk(cs[0]) + rest;
      ChunkReads(cs[0], rest, ending, max, body);
      assert (body + cs[0].data) + Data(cs[1..]) == body + Data(cs);
      if |body| + |cs[0].data| <= max {
        ChunksRead(cs[1..], last, trailers, after, ending, max, body + cs[0].data);
      } else {
        assert (body + cs[0].data)[..max] == (body + Data(cs))[..max];
      }
    }
  }

  /** A chunked body reads as the first `max` bytes of its data, however it arrives and whatever follows it. */
  lemma BodyRoundTrip(cs: seq<Chunk>, last: seq<Byte>, trailers: seq<seq<Byte>>, after: seq<Byte>, ending: Ending, max: nat)
    requires GoodChunks(cs) && ShortLine(last) && ChunkSize(last) == Some(0) && GoodTrailers(trailers)
    ensures Body(EncodeBody(cs, last, trailers) + after, ending, 200, ChunkedBody, max) == Settled(Ok(Capped(Data(cs), max)))
  {
    ChunksRead(cs, last, trailers, after, ending, max, []);
    assert [] + Data(cs) == Data(cs);
  }

  /** No body is longer than the limit. */
  lemma {:induction false} ChunkedIsBounded(data: seq<Byte>, ending: Ending, max: nat, body: seq<Byte>)
    requires |body| <= max
    ensures var r := Chunked(data, ending, max, body); r.Settled? && r.result.Ok? ==> |body| <= |r.result.value| <= max
    decreases |data|
  {
    hide ChunkSize, LineOf, AfterTrailers;
    match LineOf(data, ending)
    case Unsettled =>
    case Settled(Err(_)) =>
    case Settled(Ok((line, rest))) =>
      TrailersKeepBody(rest, ending, body);
      LineConsumes(data, ending);
      if ChunkSize(line).Some? && ChunkSize(line).value > 0 {
        var size := ChunkSize(line).value;
        var take := if size <= max + 1 - |body| then size else max + 1 - |body|;
        if |rest| >= take + 2 && |body| + take <= max {
          ChunkedIsBounded(rest[take + 2..], ending, max, body + rest[..take]);
        }
      }
  }

  lemma {:induction false} TrailersKeepBody(data: seq<Byte>, ending: Ending, body: seq<Byte>)
    ensures var r := AfterTrailers(data, ending, body); r.Settled? && r.result.Ok? ==> r.result.value == body
    decreases |data|
  {
    hide LineOf;
    match LineOf(data, ending)
    case Unsettled =>
    case Settled(Err(_)) =>
    case Settled(Ok((line, rest))) =>
      LineConsumes(data, ending);
      TrailersKeepBody(rest, ending, body);
  }

  // ---- Size lines ----

  function HexByte(d: nat): Byte
    requires d < 16
  {
    if d < 10 then 48 + d else 87 + d
  }

  // A size in lower-case hexadecimal without leading zeros.
  function Hex(n: nat): (s: seq<Byte>)
    ensures s != []
  {
    if n < 16 then [HexByte(n)] else Hex(n / 16) + [HexByte(n % 16)]
  }

  lemma {:induction false} HexReads(n: nat)
    ensures HexValue(Hex(n)) == Some(n)
    ensures forall i :: 0 <= i < |Hex(n)| ==> HexDigit(Hex(n)[i]).Some?
  {
    if n < 16 {
      assert Hex(n)[..0] == [];
    } else {
      HexReads(n / 16);
      assert Hex(n)[..|Hex(n)| - 1] == Hex(n / 16);
    }
  }

  /** A size printed in hexadecimal is read back from its line, alone or before an extension. */
  lemma SizeRoundTrip(n: nat, extension: seq<Byte>)
    requires n < 0x1_0000_0000_0000_0000 && (extension == [] || extension[0] == 59)
    ensures ChunkSize(Hex(n) + extension) == Some(n)
  {
    hide HexValue, Hex;
    HexReads(n);
    var line := Hex(n) + extension;
    IndexIsFirst(line, 59, |Hex(n)|);
    assert line[..|Hex(n)|] == Hex(n);
    var s := Hex(n);
    assert HexDigit(s[0]).Some? && HexDigit(s[|s| - 1]).Some?;
    assert !IsSpace(s[0]) && !IsSpace(s[|s| - 1]);
    assert TrimStart(s) == s && TrimEnd(s) == s;
  }

  // ---- A body that reads differently ----

  function Spaces(n: nat): (s: seq<Byte>)
    ensures |s| == n && forall i :: 0 <= i < n ==> s[i] == 32
  {
    if n == 0 then [] else Spaces(n - 1) + [32]
  }

  // The size zero behind which `n` spaces stand.
  function PaddedZero(n: nat): seq<Byte> {
    [48] + Spaces(n)
  }

  lemma {:induction false} PaddingIsTrimmed(n: nat)
    ensures TrimEnd(PaddedZero(n)) == [48]
  {
    if n > 0 {
      PaddingIsTrimmed(n - 1);
      assert PaddedZero(n)[..n] == PaddedZero(n - 1);
    }
  }

  lemma PaddedZeroIsZero(n: nat)
    ensures ChunkSize(PaddedZero(n)) == Some(0)
  {
    PaddingIsTrimmed(n);
    var line := PaddedZero(n);
    hide TrimEnd, Spaces;
    IndexIsFirst(line, 59, |line|);
    assert line[..|line|] == line && TrimStart(line) == line;
    assert HexValue([48]) == Some(0) by {
      assert [48][..0] == [];
    }
  }

  /** An empty body whose size line is padded beyond the limit is read or refused, by how it arrives. */
  lemma PaddedBodyDiffers(n: nat, ending: Ending, max: nat)
    requires LINE_LIMIT - 1 <= n < LINE_LIMIT + LINE_ROOM - 2
    ensures BodiesDiffer(PaddedZero(n) + CRLF + CRLF, ending, max, 0)
  {
    hide Stripped, IndexOf, ChunkSize, Spaces, BodiesDiffer;
    var line := PaddedZero(n);
    PaddedZeroIsZero(n);
    UnbrokenLineReads(line, CRLF);
    UnbrokenLineReads([], []);
    assert [] + CRLF + [] == CRLF;
    var data := line + CRLF + CRLF;
    var p := |line| + 1;
    assert WidestTrailers(CRLF, ending, AfterLine(0, p)) == Pass;
    assert Widest(data, ending, max, [], 0) == Ok([]);
    BodyArrivalMatters(data, ending, max, 0);
  }

  // ---- Other bodies ----

  // A stream that stalls is timed out; one that ends or breaks too early is a failure of the network.
  function EarlyEnd(ending: Ending): Failure {
    match ending
    case Closed | Broken => Network
    case Stalled => Timeout
  }

  /** A body of announced length is those bytes, whatever follows them, up to the limit; a shorter one is a failure. */
  lemma SizedBodyIsExact(data: seq<Byte>, n: nat, ending: Ending, code: nat, max: nat, r: Result<seq<Byte>, Failure>)
    requires code != 204 && code != 304
    ensures Body(data, ending, code, Sized(n), max) == Settled(r) <==>
              if n <= max then
                (exists body, rest :: data == body + rest && |body| == n && r == Ok(body))
                || (|data| < n && r == Err(EarlyEnd(ending)))
              else
                (exists body, rest :: data == body + rest && |body| == max && rest != [] && r == Ok(body))
                || (|data| <= max && r == Err(EarlyEnd(ending)))
  {
    var k := if n <= max then n else max;
    if |data| >= k {
      Rejoin(data, k);
      assert data == data[..k] + data[k..];
      assert n > max && |data| > max ==> data[..max + 1][..max] == data[..max] && data[max..] != [];
    }
    forall body: seq<Byte>, rest: seq<Byte> | data == body + rest && |body| == k
      ensures body == data[..k] && rest == data[k..]
    {
      Halves(body, rest);
    }
  }

  /** A body up to the end of the connection is all of it, if the peer closed, or its first bytes once the limit is passed. */
  lemma ClosedBodyIsExact(data: seq<Byte>, ending: Ending, code: nat, max: nat, r: Result<seq<Byte>, Failure>)
    requires code != 204 && code != 304
    ensures Body(data, ending, code, UntilClose, max) == Settled(r) <==>
              || (|data| <= max && ending == Closed && r == Ok(data))
              || (|data| <= max && ending != Closed && r == Err(EarlyEnd(ending)))
              || (|data| > max && r.Ok? && r.value <= data && |r.value| == max)
  {
    if r.Ok? && |data| > max && r.value <= data && |r.value| == max {
      assert r.value == data[..max];
    }
  }

  /** No content and not modified have no body, however the headers delimit it and whatever follows. */
  lemma NoBody(data: seq<Byte>, ending: Ending, framing: Framing, max: nat)
    ensures Body(data, ending, 204, framing, max) == Body(data, ending, 304, framing, max) == Settled(Ok([]))
  {
  }

  // ---- Lines and sizes, exactly ----

  // `s` is `line` without its line ends.
  predicate WithoutEnds(line: seq<Byte>, s: seq<Byte>) {
    && s <= line && (forall i :: |s| <= i < |line| ==> line[i] == CR || line[i] == LF)
    && (s != [] ==> s[|s| - 1] != CR && s[|s| - 1] != LF)
  }

  /** What is stripped off a line is its line ends, all of them and nothing else. */
  lemma {:induction false} StrippedIsExact(line: seq<Byte>)
    ensures WithoutEnds(line, Stripped(line))
    decreases |line|
  {
    if line != [] && line[|line| - 1] in {CR, LF} {
      StrippedIsExact(line[..|line| - 1]);
    }
  }

  // A digit of either case, by its place among the sixteen.
  const DIGITS: seq<Byte> := [48, 49, 50, 51, 52, 53, 54, 55, 56, 57, 97, 98, 99, 100, 101, 102]
  const CAPITALS: seq<Byte> := [48, 49, 50, 51, 52, 53, 54, 55, 56, 57, 65, 66, 67, 68, 69, 70]

  lemma DigitIsExact(b: Byte, d: nat)
    ensures HexDigit(b) == Some(d) <==> d < 16 && (DIGITS[d] == b || CAPITALS[d] == b)
  {
  }

  lemma {:induction false} ValueNeedsDigits(digits: seq<Byte>)
    ensures HexValue(digits).Some? <==> forall i :: 0 <= i < |digits| ==> HexDigit(digits[i]).Some?
  {
    hide HexDigit;
    if digits != [] {
      ValueNeedsDigits(digits[..|digits| - 1]);
    }
  }

  // One digit at least, and none but digits.
  predicate AllDigits(digits: seq<Byte>) {
    digits != [] && forall i :: 0 <= i < |digits| ==> digits[i] in DIGITS || digits[i] in CAPITALS
  }

  lemma DigitsHaveValue(digits: seq<Byte>)
    ensures AllDigits(digits) <==> digits != [] && HexValue(digits).Some?
  {
    hide HexValue;
    ValueNeedsDigits(digits);
    forall i | 0 <= i < |digits|
      ensures HexDigit(digits[i]).Some? <==> digits[i] in DIGITS || digits[i] in CAPITALS
    {
      DigitIsThere(digits[i]);
    }
  }

  lemma DigitIsThere(b: Byte)
    ensures HexDigit(b).Some? <==> b in DIGITS || b in CAPITALS
  {
    if HexDigit(b).Some? {
      DigitIsExact(b, HexDigit(b).value);
    } else if b in DIGITS {
      var d :| 0 <= d < |DIGITS| && DIGITS[d] == b;
      DigitIsExact(b, d);
    } else if b in CAPITALS {
      var d :| 0 <= d < |CAPITALS| && CAPITALS[d] == b;
      DigitIsExact(b, d);
    }
  }

  /** A size is read exactly when it is hexadecimal digits, behind at most one plus, of a number within 64 bits. */
  lemma SizeIsExact(s: seq<Byte>)
    ensures var digits := if s != [] && s[0] == 43 then s[1..] else s;
            && (ParseHex(s).Some? <==>
                  AllDigits(digits) && HexValue(digits).Some? && HexValue(digits).value < 0x1_0000_0000_0000_0000)
            && (ParseHex(s).Some? ==> ParseHex(s) == HexValue(digits))
  {
    hide HexValue, AllDigits;
    DigitsHaveValue(if s != [] && s[0] == 43 then s[1..] else s);
  }

  // The space characters of ASCII.
  const SPACES: seq<Byte> := [9, 10, 11, 12, 13, 32]

  predicate AllSpaces(s: seq<Byte>) {
    forall i :: 0 <= i < |s| ==> s[i] in SPACES
  }

  lemma SpaceIsListed(b: Byte)
    ensures IsSpace(b) <==> b in SPACES
  {
    if 9 <= b <= 13 {
      assert SPACES[b - 9] == b;
    } else if b == 32 {
      assert SPACES[5] == b;
    }
  }

  lemma {:induction false} StartIsTrimmed(before: seq<Byte>, s: seq<Byte>)
    requires AllSpaces(before) && (s != [] ==> s[0] !in SPACES)
    ensures TrimStart(before + s) == s
  {
    hide IsSpace, SPACES;
    if before == [] {
      Unit(s);
      if s != [] {
        SpaceIsListed(s[0]);
      }
    } else {
      SpaceIsListed(before[0]);
      RestOfSum(before, s);
      StartIsTrimmed(before[1..], s);
    }
  }

  lemma {:induction false} EndIsTrimmed(s: seq<Byte>, behind: seq<Byte>)
    requires AllSpaces(behind) && (s != [] ==> s[|s| - 1] !in SPACES)
    ensures TrimEnd(s + behind) == s
    decreases |behind|
  {
    hide IsSpace, SPACES;
    if behind == [] {
      Unit(s);
      if s != [] {
        SpaceIsListed(s[|s| - 1]);
      }
    } else {
      var n := |behind| - 1;
      SpaceIsListed(behind[n]);
      assert (s + behind)[..|s| + n] == s + behind[..n];
      EndIsTrimmed(s, behind[..n]);
    }
  }

  /** Spaces around a size and whatever follows a semicolon do not matter. */
  lemma PaddingIsIgnored(before: seq<Byte>, digits: seq<Byte>, behind: seq<Byte>, extension: seq<Byte>)
    requires AllSpaces(before) && AllSpaces(behind) && AllDigits(digits) && (extension == [] || extension[0] == 59)
    ensures ChunkSize(before + (digits + behind) + extension) == ParseHex(digits)
  {
    hide TrimStart, TrimEnd, ParseHex, HexValue;
    var padded := before + (digits + behind);
    forall i | 0 <= i < |padded|
      ensures padded[i] != 59
    {
      assert padded[i] in before || padded[i] in digits || padded[i] in behind;
    }
    IndexIsFirst(padded + extension, 59, |padded|);
    Halves(padded, extension);
    DigitIsNoSpace(digits[0]);
    DigitIsNoSpace(digits[|digits| - 1]);
    assert (digits + behind)[0] == digits[0];
    StartIsTrimmed(before, digits + behind);
    EndIsTrimmed(digits, behind);
  }

  lemma DigitIsNoSpace(b: Byte)
    requires b in DIGITS || b in CAPITALS
    ensures b !in SPACES
  {
  }

  // ---- Chunked bodies that are refused ----

  // Chunks in front move their data into the body, as long as it stays within its limit.
  lemma {:induction false} ChunksContinue(cs: seq<Chunk>, rest: seq<Byte>, ending: Ending, max: nat, body: seq<Byte>)
    requires GoodChunks(cs) && |body| + |Data(cs)| <= max
    ensures Chunked(EncodeChunks(cs) + rest, ending, max, body) == Chunked(rest, ending, max, body + Data(cs))
    decreases |cs|
  {
    hide ChunkSize, LineOf, GoodChunk, EncodeChunk, ShortLine, Chunked;
    if cs == [] {
      Unit(rest);
      Unit(body);
    } else {
      Associative(EncodeChunk(cs[0]), EncodeChunks(cs[1..]), rest);
      ChunkReads(cs[0], EncodeChunks(cs[1..]) + rest, ending, max, body);
      Associative(body, cs[0].data, Data(cs[1..]));
      ChunksContinue(cs[1..], rest, ending, max, body + cs[0].data);
    }
  }

  /** Behind good chunks, a short line that is no size makes the body malformed, whatever follows. */
  lemma BadSizeIsMalformed(cs: seq<Chunk>, line: seq<Byte>, rest: seq<Byte>, ending: Ending, max: nat)
    requires GoodChunks(cs) && |Data(cs)| <= max && ShortLine(line) && ChunkSize(line).None?
    ensures Chunked(EncodeChunks(cs) + (line + CRLF + rest), ending, max, []) == Settled(Err(Malformed))
  {
    ChunksContinue(cs, line + CRLF + rest, ending, max, []);
    ShortLineReads(line, rest, ending);
    hide ChunkSize, LineOf, EncodeChunks;
    Unit(Data(cs));
  }

  // A chunk within the limit as far as its data.
  lemma DataBehindLine(c: Chunk, rest: seq<Byte>, ending: Ending, max: nat, body: seq<Byte>)
    requires GoodChunk(c) && |body| + |c.data| <= max
    ensures Chunked(c.line + CRLF + rest, ending, max, body) == ChunkData(rest, ending, max, body, |c.data|)
  {
    hide ChunkSize, LineOf, ChunkData;
    ShortLineReads(c.line, rest, ending);
  }

  /** A chunk whose data is not followed by a line end makes the body malformed. */
  lemma MissingLineEndIsMalformed(cs: seq<Chunk>, c: Chunk, rest: seq<Byte>, ending: Ending, max: nat)
    requires GoodChunks(cs) && GoodChunk(c) && |Data(cs)| + |c.data| <= max && |rest| >= 2 && rest[..2] != CRLF
    ensures Chunked(EncodeChunks(cs) + (c.line + CRLF + (c.data + rest)), ending, max, []) == Settled(Err(Malformed))
  {
    ChunksContinue(cs, c.line + CRLF + (c.data + rest), ending, max, []);
    Unit(Data(cs));
    DataBehindLine(c, c.data + rest, ending, max, Data(cs));
    hide ChunkSize, LineOf, EncodeChunks, Chunked;
    assert (c.data + rest)[|c.data|..|c.data| + 2] == rest[..2];
  }

  /** A chunk that breaks off within its data or its line end is a failure of the stream, not a shorter body. */
  lemma BrokenChunkFails(cs: seq<Chunk>, c: Chunk, n: nat, ending: Ending, max: nat)
    requires GoodChunks(cs) && GoodChunk(c) && |Data(cs)| + |c.data| <= max && n < |c.data| + 2
    ensures Chunked(EncodeChunks(cs) + (c.line + CRLF + (c.data + CRLF)[..n]), ending, max, [])
            == Settled(Err(EarlyEnd(ending)))
  {
    var rest := (c.data + CRLF)[..n];
    ChunksContinue(cs, c.line + CRLF + rest, ending, max, []);
    Unit(Data(cs));
    DataBehindLine(c, rest, ending, max, Data(cs));
    hide ChunkSize, LineOf, EncodeChunks, Chunked;
  }
}

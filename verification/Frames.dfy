/**
  Payloads across the size of one write: splitting into chunks, bounded reassembly, and what they give together.
 */
module Frames {
  import opened Wrappers
  import opened Bytes
  import opened Cbor
  import Requests

  datatype Target = Data | LastData

  datatype Chunk = Chunk(target: Target, bytes: seq<Byte>)

  function Joined(chunks: seq<Chunk>): seq<Byte> {
    if chunks == [] then [] else chunks[0].bytes + Joined(chunks[1..])
  }

  // ---- Splitting ----

  // The payload in order, in full chunks to Data and what is left, which is something, to LastData.
  ghost predicate IsSplit(chunks: seq<Chunk>, payload: seq<Byte>, size: nat) {
    && chunks != [] && Joined(chunks) == payload
    && (forall i :: 0 <= i < |chunks| - 1 ==> chunks[i].target == Data && |chunks[i].bytes| == size)
    && chunks[|chunks| - 1].target == LastData && 1 <= |chunks[|chunks| - 1].bytes| <= size
  }

  lemma {:induction false} JoinedConcatenates(a: seq<Chunk>, b: seq<Chunk>)
    ensures Joined(a + b) == Joined(a) + Joined(b)
  {
    if a == [] {
      assert a + b == b;
    } else {
      JoinedConcatenates(a[1..], b);
      assert (a + b)[1..] == a[1..] + b && (a + b)[0] == a[0];
      assert a[0].bytes + (Joined(a[1..]) + Joined(b)) == (a[0].bytes + Joined(a[1..])) + Joined(b);
    }
  }

  lemma JoinedMore(chunks: seq<Chunk>, c: Chunk)
    ensures Joined(chunks + [c]) == Joined(chunks) + c.bytes
  {
    JoinedConcatenates(chunks, [c]);
    assert Joined([c]) == c.bytes + Joined([]);
  }

  method SplitRequest(payload: seq<Byte>, size: nat) returns (r: Result<seq<Chunk>, ProtocolError>)
    ensures payload == [] || size == 0 ==> r == Err(InvalidOutbound)
    ensures payload != [] && size > 0 ==> r.Ok? && IsSplit(r.value, payload, size)
  {
    if payload == [] || size == 0 {
      return Err(InvalidOutbound);
    }
    var chunks: seq<Chunk> := [];
    var rest := payload;
    while true
      invariant rest != [] && Joined(chunks) + rest == payload
      invariant forall i :: 0 <= i < |chunks| ==> chunks[i].target == Data && |chunks[i].bytes| == size
      decreases |rest|
    {
      var take := if |rest| < size then |rest| else size;
      var tail := rest[take..];
      var chunk := Chunk(if tail == [] then LastData else Data, rest[..take]);
      JoinedMore(chunks, chunk);
      chunks := chunks + [chunk];
      if tail == [] {
        assert Joined(chunks) == payload;
        break;
      }
      rest := tail;
    }
    r := Ok(chunks);
  }

  // The first of several chunks is a full one, and the others split what is left.
  lemma FirstOfSplit(chunks: seq<Chunk>, payload: seq<Byte>, size: nat)
    requires IsSplit(chunks, payload, size) && |chunks| > 1
    ensures |payload| >= size && chunks[0].bytes == payload[..size] && IsSplit(chunks[1..], payload[size..], size)
  {
    var first, rest := chunks[0].bytes, Joined(chunks[1..]);
    assert payload == first + rest;
    assert (first + rest)[..size] == first && (first + rest)[size..] == rest;
  }

  lemma {:induction false} SplitLength(chunks: seq<Chunk>, payload: seq<Byte>, size: nat)
    requires IsSplit(chunks, payload, size)
    ensures |payload| == (|chunks| - 1) * size + |chunks[|chunks| - 1].bytes|
  {
    if |chunks| == 1 {
      JoinedMore([], chunks[0]);
      assert chunks == [] + [chunks[0]];
    } else {
      var rest := chunks[1..];
      FirstOfSplit(chunks, payload, size);
      SplitLength(rest, payload[size..], size);
      assert (|chunks| - 1) * size == (|rest| - 1) * size + size;
    }
  }

  /** A split has as many chunks as the payload needs: its length over the size, rounded up. */
  lemma SplitCount(chunks: seq<Chunk>, payload: seq<Byte>, size: nat)
    requires IsSplit(chunks, payload, size)
    ensures |chunks| == (|payload| + size - 1) / size
  {
    SplitLength(chunks, payload, size);
    var n, last := |chunks|, |chunks[|chunks| - 1].bytes|;
    assert |payload| + size - 1 == n * size + (last - 1);
    DivideOut(n, last - 1, size);
  }

  lemma DivideOut(n: nat, r: nat, d: nat)
    requires r < d
    ensures (n * d + r) / d == n
  {
    var q, m := (n * d + r) / d, (n * d + r) % d;
    assert (n - q) * d == m - r && (q - n) * d == r - m;
    if q < n {
      AtLeast(n - q, d);
    } else if q > n {
      AtLeast(q - n, d);
    }
  }

  lemma AtLeast(k: nat, d: nat)
    requires k >= 1
    ensures k * d >= d
  {
  }

  /** There is one way to split. */
  lemma {:induction false} SplitIsUnique(a: seq<Chunk>, b: seq<Chunk>, payload: seq<Byte>, size: nat)
    requires IsSplit(a, payload, size) && IsSplit(b, payload, size)
    ensures a == b
  {
    SplitCount(a, payload, size);
    SplitCount(b, payload, size);
    if |a| == 1 {
      assert a[1..] == [] && b[1..] == [];
      JoinedMore([], a[0]);
      JoinedMore([], b[0]);
      assert a == [] + [a[0]] && b == [] + [b[0]];
      assert [] + a[0].bytes == a[0].bytes && [] + b[0].bytes == b[0].bytes;
    } else {
      FirstOfSplit(a, payload, size);
      FirstOfSplit(b, payload, size);
      SplitIsUnique(a[1..], b[1..], payload[size..], size);
      assert a == [a[0]] + a[1..] && b == [b[0]] + b[1..];
    }
  }

  // ---- Reassembly ----

  const DEFAULT_MAX_BUFFER: nat := 64 * 1024

  datatype Overflow = Overflow(capacity: nat, needed: nat)

  class Reassembler {
    var buffer: seq<Byte>
    const max: nat

    ghost predicate Valid()
      reads this
    {
      max >= 1 && |buffer| <= max
    }

    constructor ()
      ensures Valid() && buffer == [] && max == DEFAULT_MAX_BUFFER
    {
      buffer := [];
      max := DEFAULT_MAX_BUFFER;
    }

    constructor WithMax(limit: nat)
      ensures Valid() && buffer == [] && max == if limit < 1 then 1 else limit
    {
      buffer := [];
      max := if limit < 1 then 1 else limit;
    }

    // A chunk that does not fit drops everything; one that fits is appended.
    method Append(chunk: seq<Byte>) returns (r: Outcome<Overflow>)
      requires Valid()
      modifies this
      ensures Valid()
      ensures |old(buffer)| + |chunk| <= max ==> r == Pass && buffer == old(buffer) + chunk
      ensures |old(buffer)| + |chunk| > max ==> r == Fail(Overflow(max, |old(buffer)| + |chunk|)) && buffer == []
    {
      var needed := |buffer| + |chunk|;
      if needed > max {
        buffer := [];
        return Fail(Overflow(max, needed));
      }
      buffer := buffer + chunk;
      r := Pass;
    }

    method Take() returns (payload: seq<Byte>)
      requires Valid()
      modifies this
      ensures Valid() && payload == old(buffer) && buffer == []
    {
      payload := buffer;
      buffer := [];
    }

    method Clear()
      requires Valid()
      modifies this
      ensures Valid() && buffer == []
    {
      buffer := [];
    }

    // What one notification does, by the characteristic it came on.
    method Push(chunk: Chunk) returns (r: Result<Option<seq<Byte>>, Overflow>)
      requires Valid()
      modifies this
      ensures Valid() && Pushed(r, buffer) == Pushing(old(buffer), max, chunk)
    {
      var status := Append(chunk.bytes);
      if status.Fail? {
        return Err(status.error);
      }
      if chunk.target == Data {
        return Ok(None);
      }
      var payload := Take();
      r := Ok(Some(payload));
    }
  }

  // A result with the buffer it leaves.
  datatype Pushed = Pushed(result: Result<Option<seq<Byte>>, Overflow>, buffer: seq<Byte>)

  function Pushing(buffer: seq<Byte>, max: nat, chunk: Chunk): Pushed {
    var needed := |buffer| + |chunk.bytes|;
    if needed > max then Pushed(Err(Overflow(max, needed)), [])
    else if chunk.target == Data then Pushed(Ok(None), buffer + chunk.bytes)
    else Pushed(Ok(Some(buffer + chunk.bytes)), [])
  }

  // The payloads that chunks give one after the other, until one overflows.
  function Feeding(buffer: seq<Byte>, max: nat, chunks: seq<Chunk>): Result<(seq<seq<Byte>>, seq<Byte>), Overflow>
    decreases |chunks|
  {
    if chunks == [] then Ok(([], buffer))
    else
      var step := Pushing(buffer, max, chunks[0]);
      var payload :- step.result;
      var (later, left) :- Feeding(step.buffer, max, chunks[1..]);
      Ok(((match payload case Some(p) => [p] case None => []) + later, left))
  }

  // Chunks of one message behind a prefix already buffered.
  lemma {:induction false} MessageReassembles(buffer: seq<Byte>, max: nat, chunks: seq<Chunk>, payload: seq<Byte>, size: nat)
    requires IsSplit(chunks, payload, size) && |buffer| <= max
    ensures Feeding(buffer, max, chunks) == Ok(([buffer + payload], [])) <==> |buffer| + |payload| <= max
    ensures |buffer| + |payload| > max ==> Feeding(buffer, max, chunks).Err?
    decreases |chunks|
  {
    var first := chunks[0];
    if |chunks| == 1 {
      JoinedMore([], first);
      assert chunks == [] + [first] && chunks[1..] == [];
      assert Feeding([], max, []) == Ok(([], []));
      assert payload == first.bytes;
      var out: seq<seq<Byte>> := [buffer + payload];
      assert out + [] == out;
      assert |buffer| + |payload| <= max ==> Pushing(buffer, max, first) == Pushed(Ok(Some(buffer + payload)), []);
    } else {
      FirstOfSplit(chunks, payload, size);
      if |buffer| + size <= max {
        MessageReassembles(buffer + first.bytes, max, chunks[1..], payload[size..], size);
        assert (buffer + first.bytes) + payload[size..] == buffer + payload;
        assert forall later: seq<seq<Byte>> :: [] + later == later;
      }
    }
  }

  // The chunks before the last give nothing yet.
  lemma {:induction false} NothingBeforeLastData(buffer: seq<Byte>, max: nat, chunks: seq<Chunk>)
    requires |buffer| + |Joined(chunks)| <= max && forall i :: 0 <= i < |chunks| ==> chunks[i].target == Data
    ensures Feeding(buffer, max, chunks) == Ok(([], buffer + Joined(chunks)))
    decreases |chunks|
  {
    if chunks == [] {
      assert buffer + [] == buffer;
    } else {
      assert forall later: seq<seq<Byte>> :: [] + later == later;
      NothingBeforeLastData(buffer + chunks[0].bytes, max, chunks[1..]);
      assert (buffer + chunks[0].bytes) + Joined(chunks[1..]) == buffer + Joined(chunks);
    }
  }

  /** A split payload that fits the buffer comes out whole, once, on its last chunk. */
  lemma MessageArrives(chunks: seq<Chunk>, payload: seq<Byte>, max: nat, size: nat)
    requires IsSplit(chunks, payload, size) && |payload| <= max
    ensures Feeding([], max, chunks) == Ok(([payload], []))
    ensures Feeding([], max, chunks[..|chunks| - 1]) == Ok(([], Joined(chunks[..|chunks| - 1])))
  {
    MessageReassembles([], max, chunks, payload, size);
    assert [] + payload == payload;
    var n := |chunks| - 1;
    assert chunks == chunks[..n] + [chunks[n]];
    JoinedMore(chunks[..n], chunks[n]);
    NothingBeforeLastData([], max, chunks[..n]);
    assert [] + Joined(chunks[..n]) == Joined(chunks[..n]);
  }

  /** Every accepted request, split to any size, arrives whole at a default reassembler, once, on its last chunk. */
  lemma RequestArrives(r: Requests.Request, chunks: seq<Chunk>, size: nat)
    requires !Requests.OverLimit(r) && AllEncodable(Requests.ItemsOf(r))
    requires IsSplit(chunks, EncodeAll(Requests.ItemsOf(r)), size)
    ensures var payload := EncodeAll(Requests.ItemsOf(r));
            && Feeding([], DEFAULT_MAX_BUFFER, chunks) == Ok(([payload], []))
            && Feeding([], DEFAULT_MAX_BUFFER, chunks[..|chunks| - 1]) == Ok(([], Joined(chunks[..|chunks| - 1])))
            && DecodeStream(payload) == Ok(Requests.ItemsOf(r))
  {
    assert DEFAULT_MAX_BUFFER == 65536;
    hide *;
    Requests.RequestEncodes(r);
    Requests.RequestRoundTrip(r);
    MessageArrives(chunks, EncodeAll(Requests.ItemsOf(r)), DEFAULT_MAX_BUFFER, size);
  }

  /** Messages back to back come out in order, each on its own, when none exceeds the buffer. */
  lemma {:induction false} MessagesComeOutInOrder(messages: seq<seq<Chunk>>, max: nat, size: nat)
    requires forall i :: 0 <= i < |messages| ==> IsSplit(messages[i], Joined(messages[i]), size) && |Joined(messages[i])| <= max
    ensures Feeding([], max, Flat(messages)) == Ok((Payloads(messages), []))
  {
    if messages != [] {
      var first := messages[0];
      MessageReassembles([], max, first, Joined(first), size);
      assert [] + Joined(first) == Joined(first);
      MessagesComeOutInOrder(messages[1..], max, size);
      FeedingConcatenates([], max, first, Flat(messages[1..]));
    }
  }

  function Flat(messages: seq<seq<Chunk>>): seq<Chunk> {
    if messages == [] then [] else messages[0] + Flat(messages[1..])
  }

  function Payloads(messages: seq<seq<Chunk>>): seq<seq<Byte>> {
    if messages == [] then [] else [Joined(messages[0])] + Payloads(messages[1..])
  }

  lemma {:induction false} FeedingConcatenates(buffer: seq<Byte>, max: nat, a: seq<Chunk>, b: seq<Chunk>)
    requires Feeding(buffer, max, a).Ok? && Feeding(Feeding(buffer, max, a).value.1, max, b).Ok?
    ensures var (early, between) := Feeding(buffer, max, a).value;
            var (late, left) := Feeding(between, max, b).value;
            Feeding(buffer, max, a + b) == Ok((early + late, left))
    decreases |a|
  {
    hide Pushing;
    var (early, between) := Feeding(buffer, max, a).value;
    var (late, left) := Feeding(between, max, b).value;
    if a == [] {
      assert a + b == b;
      assert [] + late == late;
    } else {
      var step := Pushing(buffer, max, a[0]);
      FeedingConcatenates(step.buffer, max, a[1..], b);
      assert (a + b)[1..] == a[1..] + b && (a + b)[0] == a[0];
      var now: seq<seq<Byte>> := match step.result.value case Some(p) => [p] case None => [];
      var later := Feeding(step.buffer, max, a[1..]).value.0;
      assert now + (later + late) == (now + later) + late;
    }
  }

  /** Feeding one chunk after the other to a reassembler is `Feeding`. */
  method FeedAll(into: Reassembler, chunks: seq<Chunk>) returns (r: Result<seq<seq<Byte>>, Overflow>)
    requires into.Valid()
    modifies into
    ensures into.Valid()
    ensures match Feeding(old(into.buffer), into.max, chunks)
            case Ok((payloads, left)) => r == Ok(payloads) && into.buffer == left
            case Err(e) => r == Err(e) && into.buffer == []
  {
    var payloads: seq<seq<Byte>> := [];
    var k := 0;
    ghost var total := Feeding(into.buffer, into.max, chunks);
    assert chunks[0..] == chunks;
    assert total.Ok? ==> [] + total.value.0 == total.value.0;
    while k < |chunks|
      invariant 0 <= k <= |chunks| && into.Valid()
      invariant total == match Feeding(into.buffer, into.max, chunks[k..])
                         case Ok((later, left)) => Ok((payloads + later, left))
                         case Err(e) => Err(e)
    {
      ghost var rest := chunks[k..];
      assert rest[1..] == chunks[k + 1..];
      ghost var before := payloads;
      var payload :- into.Push(chunks[k]);
      var found: seq<seq<Byte>> := match payload case Some(p) => [p] case None => [];
      payloads := payloads + found;
      k := k + 1;
      ghost var next := Feeding(into.buffer, into.max, chunks[k..]);
      assert next.Ok? ==> before + (found + next.value.0) == (before + found) + next.value.0;
    }
    assert chunks[k..] == [];
    assert payloads + [] == payloads;
    r := Ok(payloads);
  }
}

/**
  Every way an item may be written (section 3 of RFC 8949): arguments in any width, strings in one piece or in chunks,
  containers of definite length or closed by a break. The decoder accepts exactly these within its limits, and gives
  what they say.
 */
module WireForms {
  import opened Wrappers
  import opened Bytes
  import opened Cbor
  import opened CborLaws
  import opened Sequences

  // An argument and how many bytes after the initial one hold it.
  datatype Numeral = Numeral(n: nat, width: nat)

  datatype Chunk = Chunk(length: Numeral, contents: seq<Byte>)

  datatype Wire =
    | Number(negative: bool, a: Numeral)
    | Str(text: bool, whole: Chunk)
    | Chunks(text: bool, chunks: seq<Chunk>)
    | Counted(keyed: bool, count: Numeral, items: seq<Wire>)
    | Open(keyed: bool, items: seq<Wire>)
    | Tagged(tag: Numeral, inner: Wire)
    // A simple value in the initial byte or behind it, and a float.
    | Short(code: Byte)
    | Long(code: Byte)
    | Real(bits: seq<Byte>)

  // ---- What a form is on the wire ----

  predicate Fits(a: Numeral) {
    a.width in {0, 1, 2, 4, 8} && if a.width == 0 then a.n < 24 else a.n < Pow256(a.width)
  }

  function Lead(major: nat, a: Numeral): (s: seq<Byte>)
    requires major < 8 && Fits(a)
    ensures s != [] && s[0] / 32 == major && s[0] % 32 <= 27
  {
    match a.width
    case 0 => [major * 32 + a.n]
    case 1 => [major * 32 + 24] + BigEndian(a.n, 1)
    case 2 => [major * 32 + 25] + BigEndian(a.n, 2)
    case 4 => [major * 32 + 26] + BigEndian(a.n, 4)
    case _ => [major * 32 + 27] + BigEndian(a.n, 8)
  }

  function StringMajor(text: bool): nat {
    if text then 3 else 2
  }

  function WrittenChunk(text: bool, c: Chunk): seq<Byte>
    requires SoundChunk(text, c)
  {
    Lead(StringMajor(text), c.length) + c.contents
  }

  function WrittenChunks(text: bool, chunks: seq<Chunk>): seq<Byte>
    requires SoundChunks(text, chunks)
  {
    if chunks == [] then [BREAK] else WrittenChunk(text, chunks[0]) + WrittenChunks(text, chunks[1..])
  }

  function Written(w: Wire): seq<Byte>
    requires Sound(w)
    decreases w
  {
    match w
    case Number(negative, a) => Lead(if negative then 1 else 0, a)
    case Str(text, whole) => WrittenChunk(text, whole)
    case Chunks(text, chunks) => [if text then 0x7f else 0x5f] + WrittenChunks(text, chunks)
    case Counted(keyed, count, items) => Lead(if keyed then 5 else 4, count) + WrittenAll(items)
    case Open(keyed, items) => [if keyed then 0xbf else 0x9f] + (WrittenAll(items) + [BREAK])
    case Tagged(tag, inner) => Lead(6, tag) + Written(inner)
    case Short(code) => [0xe0 + code]
    case Long(code) => [0xf8, code]
    case Real(bits) => [if |bits| == 2 then 0xf9 else if |bits| == 4 then 0xfa else 0xfb] + bits
  }

  function WrittenAll(ws: seq<Wire>): seq<Byte>
    requires AllSound(ws)
    decreases ws
  {
    if ws == [] then [] else Written(ws[0]) + WrittenAll(ws[1..])
  }

  // ---- Which forms are well formed and within the limits ----

  predicate SoundChunk(text: bool, c: Chunk) {
    Fits(c.length) && c.length.n == |c.contents| && (text ==> Utf8(c.contents))
  }

  predicate SoundChunks(text: bool, chunks: seq<Chunk>) {
    chunks == [] || (SoundChunk(text, chunks[0]) && SoundChunks(text, chunks[1..]))
  }

  // Lengths and counts are those announced, and text is text.
  predicate Sound(w: Wire)
    decreases w
  {
    match w
    case Number(negative, a) => Fits(a) && (negative ==> a.n <= I64_MAX)
    case Str(text, whole) => SoundChunk(text, whole) && |whole.contents| <= MAX_STRING_BYTES
    case Chunks(text, chunks) => SoundChunks(text, chunks) && |Contents(chunks)| <= MAX_STRING_BYTES
    case Counted(keyed, count, items) =>
      Fits(count) && |items| == (if keyed then 2 * count.n else count.n) && count.n <= MAX_ARRAY_LEN && AllSound(items)
    case Open(keyed, items) =>
      && AllSound(items)
      && if keyed then |items| % 2 == 0 && |items| <= 2 * MAX_ARRAY_LEN else |items| <= MAX_ARRAY_LEN
    case Tagged(tag, inner) => Fits(tag) && Sound(inner)
    case Short(code) => code < 24
    case Long(_) => true
    case Real(bits) => |bits| in {2, 4, 8}
  }

  predicate AllSound(ws: seq<Wire>)
    decreases ws
  {
    ws == [] || (Sound(ws[0]) && AllSound(ws[1..]))
  }

  // ---- What a form says ----

  function Contents(chunks: seq<Chunk>): seq<Byte> {
    if chunks == [] then [] else chunks[0].contents + Contents(chunks[1..])
  }

  function Value(w: Wire): Item
    requires Sound(w)
    decreases w
  {
    match w
    case Number(negative, a) => if negative then Int(-1 - a.n) else UInt(a.n)
    case Str(text, whole) => if text then Text(whole.contents) else Item.Bytes(whole.contents)
    case Chunks(text, chunks) => if text then Text(Contents(chunks)) else Item.Bytes(Contents(chunks))
    case Counted(keyed, _, items) => if keyed then Map(Values(items)) else Array(Values(items))
    case Open(keyed, items) => if keyed then Map(Values(items)) else Array(Values(items))
    case Tagged(tag, inner) => Tag(tag.n, Value(inner))
    case Short(code) =>
      if code == 20 then Bool(false) else if code == 21 then Bool(true)
      else if code == 22 then Null else if code == 23 then Undefined else Simple(code)
    case Long(code) => Simple(code)
    case Real(bits) => Float(bits)
  }

  function Values(ws: seq<Wire>): (xs: seq<Item>)
    requires AllSound(ws)
    ensures |xs| == |ws|
    decreases ws
  {
    if ws == [] then [] else [Value(ws[0])] + Values(ws[1..])
  }

  // ---- Every form decodes to what it says ----

  lemma ArgumentOfLead(major: nat, a: Numeral, rest: seq<Byte>)
    requires major < 8 && Fits(a)
    ensures var s := Lead(major, a) + rest;
            s != [] && s[0] / 32 == major && s[0] % 32 <= 27 && Argument(s) == Ok((a.n, rest))
  {
    hide Pow256, BigEndian, FromBigEndian;
    var first := Lead(major, a)[0];
    if a.width == 0 {
      Halves([first], rest);
    } else {
      var number := BigEndian(a.n, a.width);
      BigEndianRoundTrip(a.n, a.width);
      assert Lead(major, a) == [first] + number;
      ThreeParts(first, number, rest);
    }
  }

  lemma ThreeParts(first: Byte, number: seq<Byte>, rest: seq<Byte>)
    ensures var s := [first] + number + rest;
            s[0] == first && s[1..1 + |number|] == number && s[1 + |number|..] == rest
  {
  }

  lemma ChunkDecodes(text: bool, c: Chunk, rest: seq<Byte>)
    requires SoundChunk(text, c)
    ensures var s := WrittenChunk(text, c) + rest;
            && s != [] && s[0] / 32 == StringMajor(text) && s[0] % 32 <= 27
            && DefiniteString(s, text) == Ok((c.contents, rest))
  {
    hide Argument, Lead, Utf8;
    Associative(Lead(StringMajor(text), c.length), c.contents, rest);
    ArgumentOfLead(StringMajor(text), c.length, c.contents + rest);
    Halves(c.contents, rest);
  }

  lemma {:induction false} ChunksDecode(text: bool, chunks: seq<Chunk>, soFar: seq<Byte>, rest: seq<Byte>)
    requires SoundChunks(text, chunks) && |soFar + Contents(chunks)| <= MAX_STRING_BYTES
    ensures ChunksUntilBreak(WrittenChunks(text, chunks) + rest, text, soFar) == Ok((soFar + Contents(chunks), rest))
    decreases |chunks|
  {
    hide DefiniteString, WrittenChunk, SoundChunk;
    if chunks == [] {
      Halves([BREAK], rest);
      Unit(soFar);
    } else {
      var behind := WrittenChunks(text, chunks[1..]) + rest;
      Associative(WrittenChunk(text, chunks[0]), WrittenChunks(text, chunks[1..]), rest);
      ChunkDecodes(text, chunks[0], behind);
      Associative(soFar, chunks[0].contents, Contents(chunks[1..]));
      ChunksDecode(text, chunks[1..], soFar + chunks[0].contents, rest);
    }
  }

  // ---- Items ----

  lemma ItemOfLead(major: nat, a: Numeral, tail: seq<Byte>, depth: nat, budget: nat)
    requires major in {0, 1, 4, 5, 6} && Fits(a) && depth <= MAX_DEPTH && budget > 0
    ensures DecodeItem(Lead(major, a) + tail, depth, budget) == DecodeAfterHead(major, a.n, tail, depth, budget - 1)
  {
    hide DecodeString, DecodeSpecial, DecodeIndefinite, DecodeAfterHead, Argument, Lead;
    ArgumentOfLead(major, a, tail);
  }

  lemma StringDecodes(text: bool, whole: Chunk, rest: seq<Byte>, depth: nat, budget: nat)
    requires Sound(Str(text, whole)) && depth <= MAX_DEPTH && budget > 0
    ensures DecodeItem(WrittenChunk(text, whole) + rest, depth, budget)
            == Ok(Decoded(Value(Str(text, whole)), rest, budget - 1))
  {
    hide DecodeSpecial, DecodeIndefinite, DecodeAfterHead, Argument, DefiniteString, WrittenChunk, ChunksUntilBreak;
    ChunkDecodes(text, whole, rest);
  }

  lemma ChunkedDecodes(text: bool, chunks: seq<Chunk>, rest: seq<Byte>, depth: nat, budget: nat)
    requires Sound(Chunks(text, chunks)) && depth <= MAX_DEPTH && budget > 0
    ensures DecodeItem(Written(Chunks(text, chunks)) + rest, depth, budget)
            == Ok(Decoded(Value(Chunks(text, chunks)), rest, budget - 1))
  {
    hide DecodeSpecial, DecodeIndefinite, DecodeAfterHead, Argument, DefiniteString, WrittenChunks, ChunksUntilBreak;
    var first := if text then 0x7f else 0x5f;
    Associative([first], WrittenChunks(text, chunks), rest);
    Halves([first], WrittenChunks(text, chunks) + rest);
    Unit(Contents(chunks));
    ChunksDecode(text, chunks, [], rest);
  }

  lemma SpecialDecodes(w: Wire, rest: seq<Byte>, depth: nat, budget: nat)
    requires Sound(w) && (w.Short? || w.Long? || w.Real?) && depth <= MAX_DEPTH && budget > 0
    ensures DecodeItem(Written(w) + rest, depth, budget) == Ok(Decoded(Value(w), rest, budget - 1))
  {
    hide DecodeString, DecodeIndefinite, DecodeAfterHead, Argument;
    match w
    case Short(code) => Halves([0xe0 + code], rest);
    case Long(code) => ThreeParts(0xf8, [code], rest);
    case Real(bits) => ThreeParts(Written(w)[0], bits, rest);
  }

  // A form without others inside.
  predicate Flat(w: Wire) {
    !w.Counted? && !w.Open? && !w.Tagged?
  }

  lemma FlatDecodes(w: Wire, rest: seq<Byte>, depth: nat, budget: nat)
    requires Sound(w) && Flat(w) && depth <= MAX_DEPTH && budget > 0
    ensures DecodeItem(Written(w) + rest, depth, budget) == Ok(Decoded(Value(w), rest, budget - 1))
    ensures Nodes(Value(w)) == 1
  {
    hide DecodeItem, Lead, WrittenChunk, WrittenChunks;
    match w
    case Number(negative, a) => ItemOfLead(if negative then 1 else 0, a, rest, depth, budget);
    case Str(text, whole) => StringDecodes(text, whole, rest, depth, budget);
    case Chunks(text, chunks) => ChunkedDecodes(text, chunks, rest, depth, budget);
    case _ => SpecialDecodes(w, rest, depth, budget);
  }

  lemma NotBreak(w: Wire)
    requires Sound(w)
    ensures Written(w) != [] && Written(w)[0] != BREAK
  {
    hide WrittenAll, WrittenChunks;
  }

  /** Any well-formed form within the limits decodes to what it says, whatever follows it. */
  lemma {:induction false} FormDecodes(w: Wire, rest: seq<Byte>, depth: nat, budget: nat)
    requires Sound(w) && depth <= MAX_DEPTH && Within(Value(w), MAX_DEPTH - depth) && Nodes(Value(w)) <= budget
    ensures DecodeItem(Written(w) + rest, depth, budget) == Ok(Decoded(Value(w), rest, budget - Nodes(Value(w))))
    decreases w, 0
  {
    hide DecodeItem, DecodeMany, DecodeIndefinite, Lead, WrittenAll, Values, AllSound, AllWithin, NodesOf;
    if Flat(w) {
      FlatDecodes(w, rest, depth, budget);
    } else {
      match w
      case Tagged(tag, inner) =>
        Associative(Lead(6, tag), Written(inner), rest);
        ItemOfLead(6, tag, Written(inner) + rest, depth, budget);
        FormDecodes(inner, rest, depth + 1, budget - 1);
      case Counted(keyed, count, items) =>
        var major := if keyed then 5 else 4;
        Associative(Lead(major, count), WrittenAll(items), rest);
        ItemOfLead(major, count, WrittenAll(items) + rest, depth, budget);
        FormsDecode(items, rest, depth + 1, budget - 1);
      case Open(keyed, items) => OpenDecodes(keyed, items, rest, depth, budget);
    }
  }

  lemma {:induction false} FormsDecode(ws: seq<Wire>, rest: seq<Byte>, depth: nat, budget: nat)
    requires AllSound(ws) && depth <= MAX_DEPTH + 1 && AllWithin(Values(ws), MAX_DEPTH - depth)
    requires NodesOf(Values(ws)) <= budget
    ensures DecodeMany(WrittenAll(ws) + rest, |ws|, depth, budget)
            == Ok(Decoded(Values(ws), rest, budget - NodesOf(Values(ws))))
    decreases ws, 1
  {
    hide DecodeItem, Sound, Value, Nodes, Within, Written;
    if ws == [] {
      Unit(rest);
    } else {
      Prepend(Value(ws[0]), Values(ws[1..]));
      Associative(Written(ws[0]), WrittenAll(ws[1..]), rest);
      SomeLevelsLeft(Value(ws[0]), MAX_DEPTH - depth);
      FormDecodes(ws[0], WrittenAll(ws[1..]) + rest, depth, budget);
      FormsDecode(ws[1..], rest, depth, budget - Nodes(Value(ws[0])));
    }
  }

  lemma SomeLevelsLeft(x: Item, levels: int)
    requires Within(x, levels)
    ensures levels >= 0
  {
  }

  // The body of an open container is looked through group by group.
  lemma OpenDecodes(keyed: bool, items: seq<Wire>, rest: seq<Byte>, depth: nat, budget: nat)
    requires Sound(Open(keyed, items)) && depth <= MAX_DEPTH
    requires Within(Value(Open(keyed, items)), MAX_DEPTH - depth) && Nodes(Value(Open(keyed, items))) <= budget
    ensures DecodeItem(Written(Open(keyed, items)) + rest, depth, budget)
            == Ok(Decoded(Value(Open(keyed, items)), rest, budget - Nodes(Value(Open(keyed, items)))))
    decreases items, 3
  {
    hide DecodeString, DecodeSpecial, DecodeAfterHead, Argument, DecodeUntilBreak, WrittenAll, Values;
    var first := if keyed then 0xbf else 0x9f;
    var body := WrittenAll(items) + [BREAK];
    Associative([first], body, rest);
    Halves([first], body + rest);
    Associative(WrittenAll(items), [BREAK], rest);
    GroupsDecode(items, if keyed then 2 else 1, rest, depth + 1, budget - 1, 0);
  }

  lemma {:induction false} GroupsDecode(ws: seq<Wire>, stride: nat, rest: seq<Byte>, depth: nat, budget: nat, have: nat)
    requires AllSound(ws) && depth <= MAX_DEPTH + 1 && AllWithin(Values(ws), MAX_DEPTH - depth)
    requires NodesOf(Values(ws)) <= budget
    requires 1 <= stride <= 2 && |ws| % stride == 0 && |ws| <= stride * (MAX_ARRAY_LEN - have)
    ensures DecodeUntilBreak(WrittenAll(ws) + ([BREAK] + rest), stride, depth, budget, have)
            == Ok(Decoded(Values(ws), rest, budget - NodesOf(Values(ws))))
    decreases ws, 2
  {
    hide DecodeMany, DecodeUntilBreak, Sound, AllSound, Value, Values, NodesOf, AllWithin, Written, WrittenAll;
    var tail := [BREAK] + rest;
    if ws == [] {
      NoForms();
      Unit(tail);
      BreakCloses(rest, stride, depth, budget, have);
    } else {
      var group, others := ws[..stride], ws[stride..];
      if |ws| == stride {
        assert group == ws;
      }
      Parts(ws, stride, MAX_DEPTH - depth);
      Associative(WrittenAll(group), WrittenAll(others), tail);
      FirstIsNoBreak(ws, tail);
      FormsDecode(group, WrittenAll(others) + tail, depth, budget);
      GroupsDecode(others, stride, rest, depth, budget - NodesOf(Values(group)), have + 1);
      GroupInFront(WrittenAll(ws) + tail, stride, depth, budget, have);
    }
  }

  lemma NoForms()
    ensures WrittenAll([]) == [] && Values([]) == [] && NodesOf([]) == 0
  {
  }

  lemma FirstIsNoBreak(ws: seq<Wire>, tail: seq<Byte>)
    requires AllSound(ws) && ws != []
    ensures WrittenAll(ws) + tail != [] && (WrittenAll(ws) + tail)[0] != BREAK
  {
    hide Written, Sound;
    NotBreak(ws[0]);
  }

  lemma BreakCloses(rest: seq<Byte>, stride: nat, depth: nat, budget: nat, have: nat)
    requires depth <= MAX_DEPTH + 1 && 1 <= stride <= 2
    ensures DecodeUntilBreak([BREAK] + rest, stride, depth, budget, have) == Ok(Decoded([], rest, budget))
  {
    Halves([BREAK], rest);
  }

  lemma GroupInFront(s: seq<Byte>, stride: nat, depth: nat, budget: nat, have: nat)
    requires depth <= MAX_DEPTH + 1 && 1 <= stride <= 2 && s != [] && s[0] != BREAK && have < MAX_ARRAY_LEN
    requires DecodeMany(s, stride, depth, budget).Ok?
    ensures var group := DecodeMany(s, stride, depth, budget).value;
            DecodeUntilBreak(s, stride, depth, budget, have)
            == match DecodeUntilBreak(group.rest, stride, depth, group.budget, have + 1)
               case Err(e) => Err(e)
               case Ok(others) => Ok(Decoded(group.value + others.value, others.rest, others.budget))
  {
    hide DecodeMany;
  }

  // A list of forms in two parts.
  lemma {:induction false} Parts(ws: seq<Wire>, k: nat, levels: int)
    requires AllSound(ws) && k <= |ws|
    ensures AllSound(ws[..k]) && AllSound(ws[k..])
    ensures Values(ws) == Values(ws[..k]) + Values(ws[k..]) && WrittenAll(ws) == WrittenAll(ws[..k]) + WrittenAll(ws[k..])
    ensures NodesOf(Values(ws)) == NodesOf(Values(ws[..k])) + NodesOf(Values(ws[k..]))
    ensures AllWithin(Values(ws), levels) ==> AllWithin(Values(ws[..k]), levels) && AllWithin(Values(ws[k..]), levels)
    decreases k
  {
    hide Sound, Value, Nodes, Within, Written;
    if k == 0 {
      Unit(Values(ws));
      Unit(WrittenAll(ws));
      assert ws[0..] == ws;
    } else {
      Parts(ws[1..], k - 1, levels);
      assert ws[..k][1..] == ws[1..][..k - 1] && ws[1..][k - 1..] == ws[k..];
      Prepend(Value(ws[0]), Values(ws[1..]));
      Prepend(Value(ws[0]), Values(ws[1..][..k - 1]));
      Associative([Value(ws[0])], Values(ws[1..][..k - 1]), Values(ws[k..]));
      Associative(Written(ws[0]), WrittenAll(ws[1..][..k - 1]), WrittenAll(ws[k..]));
    }
  }

  // ---- Whatever decodes is such a form ----

  lemma {:induction false} BigEndianOfBytes(s: seq<Byte>)
    ensures BigEndian(FromBigEndian(s), |s|) == s
  {
    if s != [] {
      var front := s[..|s| - 1];
      BigEndianOfBytes(front);
      assert FromBigEndian(s) / 256 == FromBigEndian(front) && FromBigEndian(s) % 256 == s[|s| - 1];
      Rejoin(s, |s| - 1);
      assert s[|s| - 1..] == [s[|s| - 1]];
    }
  }

  lemma LeadOfArgument(s: seq<Byte>) returns (a: Numeral)
    requires s != [] && s[0] % 32 <= 27 && Argument(s).Ok?
    ensures Fits(a) && a.n == Argument(s).value.0 && s == Lead(s[0] / 32, a) + Argument(s).value.1
  {
    hide Pow256, BigEndian, FromBigEndian;
    var info := s[0] % 32;
    FirstAndRest(s);
    if info < 24 {
      a := Numeral(info, 0);
    } else {
      var width := ArgumentWidth(info);
      var number := s[1..1 + width];
      BigEndianOfBytes(number);
      FromBigEndianBound(number);
      a := Numeral(FromBigEndian(number), width);
      CutBehindFirst(s, width);
    }
  }

  lemma CutBehindFirst(s: seq<Byte>, width: nat)
    requires 1 + width <= |s|
    ensures s == ([s[0]] + s[1..1 + width]) + s[1 + width..]
  {
  }

  lemma ChunkOfString(s: seq<Byte>, text: bool) returns (c: Chunk)
    requires s != [] && s[0] / 32 == StringMajor(text) && s[0] % 32 <= 27 && DefiniteString(s, text).Ok?
    ensures var (contents, rest) := DefiniteString(s, text).value;
            c.contents == contents && SoundChunk(text, c) && s == WrittenChunk(text, c) + rest
  {
    hide Argument, Lead, Utf8;
    var a := LeadOfArgument(s);
    var (n, tail) := Argument(s).value;
    c := Chunk(a, tail[..n]);
    Rejoin(tail, n);
    Associative(Lead(s[0] / 32, a), tail[..n], tail[n..]);
  }

  lemma {:induction false} ChunksOfString(s: seq<Byte>, text: bool, soFar: seq<Byte>) returns (chunks: seq<Chunk>)
    requires ChunksUntilBreak(s, text, soFar).Ok? && |soFar| <= MAX_STRING_BYTES
    ensures var (contents, rest) := ChunksUntilBreak(s, text, soFar).value;
            && SoundChunks(text, chunks) && contents == soFar + Contents(chunks) && |contents| <= MAX_STRING_BYTES
            && s == WrittenChunks(text, chunks) + rest
    decreases |s|
  {
    hide DefiniteString, WrittenChunk, SoundChunk;
    if s[0] == BREAK {
      chunks := [];
      Unit(soFar);
      FirstAndRest(s);
    } else {
      var c := ChunkOfString(s, text);
      var (chunk, tail) := DefiniteString(s, text).value;
      var others := ChunksOfString(tail, text, soFar + chunk);
      chunks := [c] + others;
      Halves([c], others);
      var rest := ChunksUntilBreak(tail, text, soFar + chunk).value.1;
      Associative(soFar, chunk, Contents(others));
      Associative(WrittenChunk(text, c), WrittenChunks(text, others), rest);
    }
  }

  lemma FormOfString(s: seq<Byte>, text: bool, budget: nat) returns (w: Wire)
    requires s != [] && s[0] / 32 == StringMajor(text) && (s[0] % 32 <= 27 || s[0] % 32 == 31)
    requires DecodeString(s, text, budget).Ok?
    ensures var d := DecodeString(s, text, budget).value; Sound(w) && Value(w) == d.value && s == Written(w) + d.rest
  {
    hide DefiniteString, WrittenChunk, SoundChunk, ChunksUntilBreak, WrittenChunks;
    if s[0] % 32 == 31 {
      var chunks := ChunksOfString(s[1..], text, []);
      w := Chunks(text, chunks);
      Unit(Contents(chunks));
      FirstAndRest(s);
      Associative([s[0]], WrittenChunks(text, chunks), ChunksUntilBreak(s[1..], text, []).value.1);
    } else {
      var c := ChunkOfString(s, text);
      w := Str(text, c);
    }
  }

  lemma FormOfSpecial(s: seq<Byte>, budget: nat) returns (w: Wire)
    requires s != [] && s[0] / 32 == 7 && DecodeSpecial(s, budget).Ok?
    ensures var d := DecodeSpecial(s, budget).value; Sound(w) && Value(w) == d.value && s == Written(w) + d.rest
  {
    var info := s[0] % 32;
    FirstAndRest(s);
    if info < 24 {
      w := Short(info);
    } else {
      CutBehindFirst(s, ArgumentWidth(info));
      w := if info == 24 then Long(s[1]) else Real(s[1..1 + ArgumentWidth(info)]);
    }
  }

  lemma {:induction false} FormOfItem(s: seq<Byte>, depth: nat, budget: nat) returns (w: Wire)
    requires depth <= MAX_DEPTH + 1 && DecodeItem(s, depth, budget).Ok?
    ensures var d := DecodeItem(s, depth, budget).value; Sound(w) && Value(w) == d.value && s == Written(w) + d.rest
    decreases MAX_DEPTH + 1 - depth, 0, 0
  {
    hide DecodeString, DecodeSpecial, DecodeIndefinite, DecodeAfterHead, Argument, Written, Value, Sound;
    var major, info := s[0] / 32, s[0] % 32;
    if major == 7 {
      w := FormOfSpecial(s, budget - 1);
    } else if major == 2 || major == 3 {
      w := FormOfString(s, major == 3, budget - 1);
    } else if info == 31 {
      w := FormOfIndefinite(s, depth, budget - 1);
    } else {
      w := FormAfterHead(s, depth, budget - 1);
    }
  }

  lemma {:induction false} FormAfterHead(s: seq<Byte>, depth: nat, budget: nat) returns (w: Wire)
    requires s != [] && s[0] / 32 in {0, 1, 4, 5, 6} && s[0] % 32 <= 27 && Argument(s).Ok? && depth <= MAX_DEPTH
    requires DecodeAfterHead(s[0] / 32, Argument(s).value.0, Argument(s).value.1, depth, budget).Ok?
    ensures var d := DecodeAfterHead(s[0] / 32, Argument(s).value.0, Argument(s).value.1, depth, budget).value;
            Sound(w) && Value(w) == d.value && s == Written(w) + d.rest
    decreases MAX_DEPTH - depth, 2, 0
  {
    hide DecodeItem, DecodeMany, Argument, Lead;
    var major := s[0] / 32;
    var (n, tail) := Argument(s).value;
    var a := LeadOfArgument(s);
    if major <= 1 {
      w := Number(major == 1, a);
    } else if major == 6 {
      var inner := FormOfItem(tail, depth + 1, budget);
      w := Tagged(a, inner);
      Associative(Lead(6, a), Written(inner), DecodeItem(tail, depth + 1, budget).value.rest);
    } else {
      var count := if major == 5 then 2 * n else n;
      var items := FormsOfMany(tail, count, depth + 1, budget);
      w := Counted(major == 5, a, items);
      Associative(Lead(major, a), WrittenAll(items), DecodeMany(tail, count, depth + 1, budget).value.rest);
    }
  }

  lemma {:induction false} FormsOfMany(s: seq<Byte>, count: nat, depth: nat, budget: nat) returns (ws: seq<Wire>)
    requires depth <= MAX_DEPTH + 1 && DecodeMany(s, count, depth, budget).Ok?
    ensures var d := DecodeMany(s, count, depth, budget).value;
            AllSound(ws) && Values(ws) == d.value && s == WrittenAll(ws) + d.rest
    decreases MAX_DEPTH + 1 - depth, 1, count
  {
    hide DecodeItem, Written, Value, Sound;
    ws := [];
    if count == 0 {
      Unit(s);
    } else {
      var first := FormOfItem(s, depth, budget);
      var d := DecodeItem(s, depth, budget).value;
      var others := FormsOfMany(d.rest, count - 1, depth, d.budget);
      ws := [first] + others;
      Halves([first], others);
      Associative(Written(first), WrittenAll(others), DecodeMany(d.rest, count - 1, depth, d.budget).value.rest);
    }
  }

  lemma {:induction false} FormOfIndefinite(s: seq<Byte>, depth: nat, budget: nat) returns (w: Wire)
    requires s != [] && s[0] / 32 in {4, 5} && s[0] % 32 == 31 && depth <= MAX_DEPTH
    requires DecodeIndefinite(s[1..], s[0] / 32 == 5, depth, budget).Ok?
    ensures var d := DecodeIndefinite(s[1..], s[0] / 32 == 5, depth, budget).value;
            Sound(w) && Value(w) == d.value && s == Written(w) + d.rest
    decreases MAX_DEPTH - depth, 3, |s|
  {
    hide DecodeUntilBreak, WrittenAll, Values, AllSound;
    var keyed := s[0] / 32 == 5;
    var stride := if keyed then 2 else 1;
    var items := FormsOfGroups(s[1..], stride, depth + 1, budget, 0);
    w := Open(keyed, items);
    var rest := DecodeUntilBreak(s[1..], stride, depth + 1, budget, 0).value.rest;
    FirstAndRest(s);
    Associative(WrittenAll(items), [BREAK], rest);
    Associative([s[0]], WrittenAll(items) + [BREAK], rest);
  }

  lemma {:induction false} FormsOfGroups(s: seq<Byte>, stride: nat, depth: nat, budget: nat, have: nat)
    returns (ws: seq<Wire>)
    requires depth <= MAX_DEPTH + 1 && 1 <= stride <= 2 && DecodeUntilBreak(s, stride, depth, budget, have).Ok?
    requires have <= MAX_ARRAY_LEN
    ensures var d := DecodeUntilBreak(s, stride, depth, budget, have).value;
            && AllSound(ws) && Values(ws) == d.value && s == WrittenAll(ws) + ([BREAK] + d.rest)
            && |ws| % stride == 0 && |ws| <= stride * (MAX_ARRAY_LEN - have)
    decreases MAX_DEPTH + 1 - depth, 2, |s|
  {
    hide DecodeMany, Written, Value, Sound, AllSound, Values, WrittenAll;
    if s[0] == BREAK {
      ws := [];
      NoForms();
      FirstAndRest(s);
      Unit(s);
      assert AllSound([]) by { NothingIsSound(); }
    } else {
      var group := FormsOfMany(s, stride, depth, budget);
      var d := DecodeMany(s, stride, depth, budget).value;
      var others := FormsOfGroups(d.rest, stride, depth, d.budget, have + 1);
      ws := group + others;
      Together(group, others);
      var rest := DecodeUntilBreak(d.rest, stride, depth, d.budget, have + 1).value.rest;
      Associative(WrittenAll(group), WrittenAll(others), [BREAK] + rest);
    }
  }

  lemma NothingIsSound()
    ensures AllSound([])
  {
  }

  lemma {:induction false} Together(a: seq<Wire>, b: seq<Wire>)
    requires AllSound(a) && AllSound(b)
    ensures AllSound(a + b) && Values(a + b) == Values(a) + Values(b) && WrittenAll(a + b) == WrittenAll(a) + WrittenAll(b)
  {
    hide Sound, Value, Written;
    if a == [] {
      Unit(b);
      Unit(Values(b));
      Unit(WrittenAll(b));
    } else {
      Together(a[1..], b);
      RestOfSum(a, b);
      Associative([Value(a[0])], Values(a[1..]), Values(b));
      Associative(Written(a[0]), WrittenAll(a[1..]), WrittenAll(b));
    }
  }

  // ---- Exactly ----

  // `s` begins with a form of `x` within the levels left, and `rest` follows it.
  ghost predicate BeginsWith(s: seq<Byte>, x: Item, rest: seq<Byte>) {
    exists w :: Sound(w) && Value(w) == x && s == Written(w) + rest
  }

  /**
    Decoding succeeds with an item exactly when the bytes begin with a well-formed form of it, of any width, chunking or
    kind of container, that stays within the levels and the budget left; the rest of the bytes and of the budget follow.
   */
  lemma DecodingIsExact(s: seq<Byte>, depth: nat, budget: nat, x: Item, rest: seq<Byte>, left: nat)
    requires depth <= MAX_DEPTH
    ensures DecodeItem(s, depth, budget) == Ok(Decoded(x, rest, left))
            <==> BeginsWith(s, x, rest) && Within(x, MAX_DEPTH - depth) && left == budget - Nodes(x)
  {
    hide DecodeItem, Within, Nodes, Sound, Value, Written, Encodable, StringsCapped;
    if DecodeItem(s, depth, budget) == Ok(Decoded(x, rest, left)) {
      var w := FormOfItem(s, depth, budget);
      ItemRespects(s, depth, budget);
    }
    if BeginsWith(s, x, rest) && Within(x, MAX_DEPTH - depth) && left == budget - Nodes(x) {
      var w :| Sound(w) && Value(w) == x && s == Written(w) + rest;
      FormDecodes(w, rest, depth, budget);
    }
  }

  ghost predicate Spells(data: seq<Byte>, xs: seq<Item>) {
    exists ws :: AllSound(ws) && Values(ws) == xs && data == WrittenAll(ws)
  }

  lemma {:induction false} StreamDecodes(ws: seq<Wire>, budget: nat)
    requires AllSound(ws) && AllWithin(Values(ws), MAX_DEPTH) && NodesOf(Values(ws)) <= budget
    ensures DecodeItems(WrittenAll(ws), budget) == Ok(Values(ws))
  {
    hide DecodeItem, Sound, Value, Nodes, Within, Written;
    if ws != [] {
      Prepend(Value(ws[0]), Values(ws[1..]));
      NotBreak(ws[0]);
      FormDecodes(ws[0], WrittenAll(ws[1..]), 0, budget);
      StreamDecodes(ws[1..], budget - Nodes(Value(ws[0])));
    }
  }

  lemma {:induction false} FormsOfStream(data: seq<Byte>, budget: nat) returns (ws: seq<Wire>)
    requires DecodeItems(data, budget).Ok?
    ensures AllSound(ws) && Values(ws) == DecodeItems(data, budget).value && data == WrittenAll(ws)
    decreases |data|
  {
    hide DecodeItem, Sound, Value, Written;
    ws := [];
    if data != [] {
      var first := FormOfItem(data, 0, budget);
      var d := DecodeItem(data, 0, budget).value;
      var others := FormsOfStream(d.rest, d.budget);
      ws := [first] + others;
      Halves([first], others);
    }
  }

  /** A stream is accepted, as a list, exactly when it spells the list in some forms and the list is within the limits. */
  lemma StreamsAreExact(data: seq<Byte>, xs: seq<Item>)
    ensures DecodeStream(data) == Ok(xs) <==> Spells(data, xs) && NodesOf(xs) <= MAX_ITEMS && AllWithin(xs, MAX_DEPTH)
  {
    hide DecodeItems, NodesOf, AllWithin, AllSound, Values, WrittenAll;
    if DecodeStream(data) == Ok(xs) {
      var ws := FormsOfStream(data, MAX_ITEMS);
      AcceptedStreamsAreBounded(data);
    }
    if Spells(data, xs) && NodesOf(xs) <= MAX_ITEMS && AllWithin(xs, MAX_DEPTH) {
      var ws :| AllSound(ws) && Values(ws) == xs && data == WrittenAll(ws);
      StreamDecodes(ws, MAX_ITEMS);
    }
  }

  /** In particular shortest encodings between the head of an open container and its break are its elements, in order. */
  lemma OpenContainerDecodes(keyed: bool, xs: seq<Item>, rest: seq<Byte>, depth: nat, budget: nat)
    requires AllEncodable(xs) && AllStringsCapped(xs) && (keyed ==> |xs| % 2 == 0)
    requires depth <= MAX_DEPTH && AllWithin(xs, MAX_DEPTH - depth - 1) && NodesOf(xs) < budget && NodesOf(xs) <= MAX_ARRAY_LEN
    ensures DecodeItem(([if keyed then 0xbf else 0x9f] + (EncodeAll(xs) + [BREAK])) + rest, depth, budget)
            == Ok(Decoded(if keyed then Map(xs) else Array(xs), rest, budget - 1 - NodesOf(xs)))
  {
    hide DecodeItem, DecodeMany, AllEncodable, EncodeAll, AllStringsCapped, AllWithin, NodesOf, WrittenAll, Values, AllSound;
    ManyRoundTrip(xs, [], depth + 1, budget - 1);
    var ws := FormsOfMany(EncodeAll(xs) + [], |xs|, depth + 1, budget - 1);
    Unit(EncodeAll(xs));
    Unit(WrittenAll(ws));
    FormDecodes(Open(keyed, ws), rest, depth, budget);
  }
}

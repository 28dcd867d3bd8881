/**
  What the decoder calls input it does not accept: a well-formed form cut short is truncated wherever it is cut, and one
  beyond the limits is refused for the limit it exceeds.
 */
module WireErrors {
  import opened Wrappers
  import opened Bytes
  import opened Cbor
  import opened CborLaws
  import opened WireForms
  import opened Sequences

  // ---- Cut short ----

  lemma CutSum(a: seq<Byte>, b: seq<Byte>, n: nat)
    requires n <= |a + b|
    ensures (a + b)[..n] == if n < |a| then a[..n] else a + b[..n - |a|]
  {
  }

  lemma LeadCut(major: nat, a: Numeral, n: nat)
    requires major < 8 && Fits(a) && 0 < n < |Lead(major, a)|
    ensures var t := Lead(major, a)[..n]; t[0] / 32 == major && t[0] % 32 <= 27 && Argument(t) == Err(Truncated)
  {
    hide BigEndian, Pow256;
  }

  lemma ChunkCut(text: bool, c: Chunk, n: nat)
    requires SoundChunk(text, c) && 0 < n < |WrittenChunk(text, c)|
    ensures var t := WrittenChunk(text, c)[..n];
            t[0] / 32 == StringMajor(text) && t[0] % 32 <= 27 && DefiniteString(t, text) == Err(Truncated)
  {
    var lead := Lead(StringMajor(text), c.length);
    CutSum(lead, c.contents, n);
    if n < |lead| {
      LeadCut(StringMajor(text), c.length, n);
    } else {
      ArgumentOfLead(StringMajor(text), c.length, c.contents[..n - |lead|]);
      Unit(lead);
    }
    hide Argument, Lead, Utf8;
  }

  lemma {:induction false} ChunksCut(text: bool, chunks: seq<Chunk>, soFar: seq<Byte>, n: nat)
    requires SoundChunks(text, chunks) && |soFar + Contents(chunks)| <= MAX_STRING_BYTES && n < |WrittenChunks(text, chunks)|
    ensures ChunksUntilBreak(WrittenChunks(text, chunks)[..n], text, soFar) == Err(Truncated)
    decreases |chunks|
  {
    hide DefiniteString, WrittenChunk, SoundChunk;
    if chunks != [] && n > 0 {
      var first, others := WrittenChunk(text, chunks[0]), WrittenChunks(text, chunks[1..]);
      CutSum(first, others, n);
      if n < |first| {
        ChunkCut(text, chunks[0], n);
      } else {
        ChunkDecodes(text, chunks[0], others[..n - |first|]);
        Unit(first);
        Associative(soFar, chunks[0].contents, Contents(chunks[1..]));
        ChunksCut(text, chunks[1..], soFar + chunks[0].contents, n - |first|);
      }
    }
  }

  lemma FlatCut(w: Wire, n: nat, depth: nat, budget: nat)
    requires Sound(w) && Flat(w) && depth <= MAX_DEPTH && budget > 0 && n < |Written(w)|
    ensures DecodeItem(Written(w)[..n], depth, budget) == Err(Truncated)
  {
    hide DecodeIndefinite, DecodeAfterHead, Argument, Lead, WrittenChunk, WrittenChunks, ChunksUntilBreak, DefiniteString;
    if n > 0 {
      match w
      case Number(negative, a) => LeadCut(if negative then 1 else 0, a, n);
      case Str(text, whole) => ChunkCut(text, whole, n);
      case Chunks(text, chunks) =>
        var first := if text then 0x7f else 0x5f;
        CutSum([first], WrittenChunks(text, chunks), n);
        Halves([first], WrittenChunks(text, chunks)[..n - 1]);
        Unit(Contents(chunks));
        ChunksCut(text, chunks, [], n - 1);
      case _ =>
    }
  }

  lemma EmptyIsTruncated(depth: nat, budget: nat)
    requires depth <= MAX_DEPTH && budget > 0
    ensures DecodeItem([], depth, budget) == Err(Truncated)
  {
  }

  lemma HeadCut(major: nat, a: Numeral, n: nat, depth: nat, budget: nat)
    requires major in {0, 1, 4, 5, 6} && Fits(a) && depth <= MAX_DEPTH && budget > 0 && n < |Lead(major, a)|
    ensures DecodeItem(Lead(major, a)[..n], depth, budget) == Err(Truncated)
  {
    hide DecodeString, DecodeSpecial, DecodeIndefinite, DecodeAfterHead, Argument, Lead;
    if n > 0 {
      LeadCut(major, a, n);
    }
  }

  /** A form cut short anywhere is called truncated, whatever its kind and wherever it is cut. */
  lemma {:induction false} FormCutIsTruncated(w: Wire, n: nat, depth: nat, budget: nat)
    requires Sound(w) && depth <= MAX_DEPTH && Within(Value(w), MAX_DEPTH - depth) && Nodes(Value(w)) <= budget
    requires n < |Written(w)|
    ensures DecodeItem(Written(w)[..n], depth, budget) == Err(Truncated)
    decreases w, 0
  {
    hide DecodeItem, DecodeMany, DecodeIndefinite, Lead, WrittenAll, Values, AllSound, AllWithin, NodesOf;
    if Flat(w) {
      FlatCut(w, n, depth, budget);
    } else {
      match w
      case Tagged(tag, inner) =>
        var lead := Lead(6, tag);
        CutSum(lead, Written(inner), n);
        if n < |lead| {
          HeadCut(6, tag, n, depth, budget);
        } else {
          Unit(lead);
          ItemOfLead(6, tag, Written(inner)[..n - |lead|], depth, budget);
          FormCutIsTruncated(inner, n - |lead|, depth + 1, budget - 1);
        }
      case Counted(keyed, count, items) =>
        var major := if keyed then 5 else 4;
        var lead := Lead(major, count);
        CutSum(lead, WrittenAll(items), n);
        if n < |lead| {
          HeadCut(major, count, n, depth, budget);
        } else {
          Unit(lead);
          ItemOfLead(major, count, WrittenAll(items)[..n - |lead|], depth, budget);
          FormsCutAreTruncated(items, n - |lead|, depth + 1, budget - 1);
        }
      case Open(keyed, items) => OpenCutIsTruncated(keyed, items, n, depth, budget);
    }
  }

  lemma {:induction false} FormsCutAreTruncated(ws: seq<Wire>, n: nat, depth: nat, budget: nat)
    requires AllSound(ws) && depth <= MAX_DEPTH + 1 && AllWithin(Values(ws), MAX_DEPTH - depth)
    requires NodesOf(Values(ws)) <= budget && n < |WrittenAll(ws)|
    ensures DecodeMany(WrittenAll(ws)[..n], |ws|, depth, budget) == Err(Truncated)
    decreases ws, 1
  {
    hide DecodeItem, Sound, Value, Nodes, Within, Written;
    var first, others := Written(ws[0]), WrittenAll(ws[1..]);
    Prepend(Value(ws[0]), Values(ws[1..]));
    SomeLevelsLeft(Value(ws[0]), MAX_DEPTH - depth);
    CutSum(first, others, n);
    if n < |first| {
      FormCutIsTruncated(ws[0], n, depth, budget);
    } else {
      Unit(first);
      FormDecodes(ws[0], others[..n - |first|], depth, budget);
      FormsCutAreTruncated(ws[1..], n - |first|, depth, budget - Nodes(Value(ws[0])));
    }
  }

  lemma OpenCutIsTruncated(keyed: bool, items: seq<Wire>, n: nat, depth: nat, budget: nat)
    requires Sound(Open(keyed, items)) && depth <= MAX_DEPTH
    requires Within(Value(Open(keyed, items)), MAX_DEPTH - depth) && Nodes(Value(Open(keyed, items))) <= budget
    requires n < |Written(Open(keyed, items))|
    ensures DecodeItem(Written(Open(keyed, items))[..n], depth, budget) == Err(Truncated)
    decreases items, 3
  {
    hide DecodeString, DecodeSpecial, DecodeAfterHead, Argument, DecodeUntilBreak, WrittenAll, Values;
    if n > 0 {
      var first := if keyed then 0xbf else 0x9f;
      var body := WrittenAll(items) + [BREAK];
      CutSum([first], body, n);
      Halves([first], body[..n - 1]);
      GroupsCutAreTruncated(items, if keyed then 2 else 1, n - 1, depth + 1, budget - 1, 0);
    }
  }

  lemma {:induction false} GroupsCutAreTruncated(ws: seq<Wire>, stride: nat, n: nat, depth: nat, budget: nat, have: nat)
    requires AllSound(ws) && depth <= MAX_DEPTH + 1 && AllWithin(Values(ws), MAX_DEPTH - depth)
    requires NodesOf(Values(ws)) <= budget && n < |WrittenAll(ws) + [BREAK]|
    requires 1 <= stride <= 2 && |ws| % stride == 0 && |ws| <= stride * (MAX_ARRAY_LEN - have)
    ensures DecodeUntilBreak((WrittenAll(ws) + [BREAK])[..n], stride, depth, budget, have) == Err(Truncated)
    decreases ws, 2
  {
    hide DecodeMany, DecodeUntilBreak, Sound, AllSound, Value, Values, NodesOf, AllWithin, Written, WrittenAll;
    if n == 0 {
      NothingIsTruncated(stride, depth, budget, have);
    } else if ws == [] {
      NoForms();
      Unit([BREAK]);
      assert false;
    } else {
      var group, others := ws[..stride], ws[stride..];
      if |ws| == stride {
        assert group == ws;
      }
      Parts(ws, stride, MAX_DEPTH - depth);
      var front, behind := WrittenAll(group), WrittenAll(others) + [BREAK];
      Associative(front, WrittenAll(others), [BREAK]);
      CutSum(front, behind, n);
      CutKeepsFirst(ws, n);
      if n < |front| {
        FormsCutAreTruncated(group, n, depth, budget);
        GroupCut((WrittenAll(ws) + [BREAK])[..n], stride, depth, budget, have);
      } else {
        Unit(front);
        FormsDecode(group, behind[..n - |front|], depth, budget);
        GroupsCutAreTruncated(others, stride, n - |front|, depth, budget - NodesOf(Values(group)), have + 1);
        GroupInFront((WrittenAll(ws) + [BREAK])[..n], stride, depth, budget, have);
      }
    }
  }

  lemma NothingIsTruncated(stride: nat, depth: nat, budget: nat, have: nat)
    requires depth <= MAX_DEPTH + 1 && 1 <= stride <= 2
    ensures DecodeUntilBreak([], stride, depth, budget, have) == Err(Truncated)
  {
  }

  lemma CutKeepsFirst(ws: seq<Wire>, n: nat)
    requires AllSound(ws) && ws != [] && 0 < n <= |WrittenAll(ws) + [BREAK]|
    ensures (WrittenAll(ws) + [BREAK])[..n][0] != BREAK
  {
    FirstIsNoBreak(ws, [BREAK]);
    hide WrittenAll;
  }

  lemma GroupCut(s: seq<Byte>, stride: nat, depth: nat, budget: nat, have: nat)
    requires depth <= MAX_DEPTH + 1 && 1 <= stride <= 2 && s != [] && s[0] != BREAK && have < MAX_ARRAY_LEN
    requires DecodeMany(s, stride, depth, budget).Err?
    ensures DecodeUntilBreak(s, stride, depth, budget, have) == Err(DecodeMany(s, stride, depth, budget).error)
  {
    hide DecodeMany;
  }

  /** An accepted stream cut anywhere is truncated, or, where an item ends, the items before the cut. */
  lemma {:induction false} StreamCutIsTruncated(data: seq<Byte>, n: nat, budget: nat)
    requires DecodeItems(data, budget).Ok? && n <= |data|
    ensures var r := DecodeItems(data[..n], budget);
            r == Err(Truncated) || (r.Ok? && r.value <= DecodeItems(data, budget).value)
    decreases |data|
  {
    hide DecodeItem, Sound, Value, Written, Nodes, Within, Respects;
    if n == 0 {
      assert data[..n] == [];
    } else {
      var w := FormOfItem(data, 0, budget);
      FirstRespects(data, budget);
      var d := DecodeItem(data, 0, budget).value;
      var first := Written(w);
      CutSum(first, d.rest, n);
      if n < |first| {
        FormCutIsTruncated(w, n, 0, budget);
        assert data[..n] != [];
      } else {
        FormDecodes(w, d.rest[..n - |first|], 0, budget);
        StreamCutIsTruncated(d.rest, n - |first|, d.budget);
        assert data[..n] == first + d.rest[..n - |first|] && data[..n] != [];
        var r := DecodeItems(d.rest[..n - |first|], d.budget);
        if r.Ok? {
          SamePrefix(d.value, r.value, DecodeItems(d.rest, d.budget).value);
        }
      }
    }
  }

  lemma FirstRespects(data: seq<Byte>, budget: nat)
    requires DecodeItem(data, 0, budget).Ok?
    ensures var d := DecodeItem(data, 0, budget).value;
            Within(d.value, MAX_DEPTH) && Nodes(d.value) <= budget && d.budget == budget - Nodes(d.value)
  {
    ItemRespects(data, 0, budget);
    hide DecodeItem;
  }

  lemma SamePrefix(x: Item, xs: seq<Item>, ys: seq<Item>)
    requires xs <= ys
    ensures [x] + xs <= [x] + ys
  {
  }

  // ---- Beyond the limits ----

  // The error for values at a depth under a budget they do not fit.
  predicate LimitError(r: Result<(), ProtocolError>, fitsDepth: bool, fitsBudget: bool) {
    && (r == Err(DepthLimit) || r == Err(ItemLimit))
    && (fitsBudget ==> r == Err(DepthLimit)) && (fitsDepth ==> r == Err(ItemLimit))
  }

  function Status<T>(d: Decoding<T>): Result<(), ProtocolError> {
    match d
    case Ok(_) => Ok(())
    case Err(e) => Err(e)
  }

  /** A well-formed form too deep is refused for its depth and one of too many items for their number. */
  lemma {:induction false} FormTooBig(w: Wire, rest: seq<Byte>, depth: nat, budget: nat)
    requires Sound(w) && depth <= MAX_DEPTH + 1
    requires !(Within(Value(w), MAX_DEPTH - depth) && Nodes(Value(w)) <= budget)
    ensures LimitError(Status(DecodeItem(Written(w) + rest, depth, budget)), Within(Value(w), MAX_DEPTH - depth),
                       Nodes(Value(w)) <= budget)
    decreases w, 0
  {
    hide DecodeItem, DecodeMany, DecodeIndefinite, Lead, WrittenAll, Values, AllSound, AllWithin, NodesOf;
    if depth > MAX_DEPTH || budget == 0 {
      NoRoom(Written(w) + rest, depth, budget);
    } else if Flat(w) {
      FlatIsSmall(w);
    } else {
      match w
      case Tagged(tag, inner) =>
        Associative(Lead(6, tag), Written(inner), rest);
        ItemOfLead(6, tag, Written(inner) + rest, depth, budget);
        FormTooBig(inner, rest, depth + 1, budget - 1);
      case Counted(keyed, count, items) => CountedTooBig(keyed, count, items, rest, depth, budget);
      case Open(keyed, items) => OpenTooBig(keyed, items, rest, depth, budget);
    }
  }

  lemma NoRoom(s: seq<Byte>, depth: nat, budget: nat)
    requires depth <= MAX_DEPTH + 1
    ensures depth > MAX_DEPTH ==> DecodeItem(s, depth, budget) == Err(DepthLimit)
    ensures depth <= MAX_DEPTH && budget == 0 ==> DecodeItem(s, depth, budget) == Err(ItemLimit)
  {
  }

  lemma FlatIsSmall(w: Wire)
    requires Sound(w) && Flat(w)
    ensures Nodes(Value(w)) == 1 && forall levels: nat :: Within(Value(w), levels)
  {
  }

  lemma {:induction false} FormsTooBig(ws: seq<Wire>, rest: seq<Byte>, depth: nat, budget: nat)
    requires AllSound(ws) && depth <= MAX_DEPTH + 1
    requires !(AllWithin(Values(ws), MAX_DEPTH - depth) && NodesOf(Values(ws)) <= budget)
    ensures LimitError(Status(DecodeMany(WrittenAll(ws) + rest, |ws|, depth, budget)),
                       AllWithin(Values(ws), MAX_DEPTH - depth), NodesOf(Values(ws)) <= budget)
    decreases ws, 1
  {
    hide DecodeItem, Sound, Value, Nodes, Within, Written;
    var x, xs := Value(ws[0]), Values(ws[1..]);
    var behind := WrittenAll(ws[1..]) + rest;
    Prepend(x, xs);
    Associative(Written(ws[0]), WrittenAll(ws[1..]), rest);
    if Within(x, MAX_DEPTH - depth) && Nodes(x) <= budget {
      SomeLevelsLeft(x, MAX_DEPTH - depth);
      FormDecodes(ws[0], behind, depth, budget);
      FormsTooBig(ws[1..], rest, depth, budget - Nodes(x));
    } else {
      FormTooBig(ws[0], behind, depth, budget);
    }
  }

  lemma CountedTooBig(keyed: bool, count: Numeral, items: seq<Wire>, rest: seq<Byte>, depth: nat, budget: nat)
    requires Sound(Counted(keyed, count, items)) && depth <= MAX_DEPTH && budget > 0
    requires !(AllWithin(Values(items), MAX_DEPTH - depth - 1) && NodesOf(Values(items)) <= budget - 1)
    ensures LimitError(Status(DecodeItem(Written(Counted(keyed, count, items)) + rest, depth, budget)),
                       AllWithin(Values(items), MAX_DEPTH - depth - 1), NodesOf(Values(items)) <= budget - 1)
    decreases items, 3
  {
    hide DecodeItem, DecodeMany, Lead, WrittenAll, Values, AllWithin, NodesOf, AllSound, LimitError;
    var major := if keyed then 5 else 4;
    Associative(Lead(major, count), WrittenAll(items), rest);
    ItemOfLead(major, count, WrittenAll(items) + rest, depth, budget);
    FormsTooBig(items, rest, depth + 1, budget - 1);
  }

  lemma OpenTooBig(keyed: bool, items: seq<Wire>, rest: seq<Byte>, depth: nat, budget: nat)
    requires Sound(Open(keyed, items)) && depth <= MAX_DEPTH && budget > 0
    requires !(AllWithin(Values(items), MAX_DEPTH - depth - 1) && NodesOf(Values(items)) <= budget - 1)
    ensures LimitError(Status(DecodeItem(Written(Open(keyed, items)) + rest, depth, budget)),
                       AllWithin(Values(items), MAX_DEPTH - depth - 1), NodesOf(Values(items)) <= budget - 1)
    decreases items, 3
  {
    hide DecodeString, DecodeSpecial, DecodeAfterHead, Argument, DecodeUntilBreak, WrittenAll, Values;
    var first := if keyed then 0xbf else 0x9f;
    var body := WrittenAll(items) + [BREAK];
    Associative([first], body, rest);
    Halves([first], body + rest);
    Associative(WrittenAll(items), [BREAK], rest);
    GroupsTooBig(items, if keyed then 2 else 1, [BREAK] + rest, depth + 1, budget - 1, 0);
  }

  lemma {:induction false} GroupsTooBig(ws: seq<Wire>, stride: nat, tail: seq<Byte>, depth: nat, budget: nat, have: nat)
    requires AllSound(ws) && depth <= MAX_DEPTH + 1
    requires !(AllWithin(Values(ws), MAX_DEPTH - depth) && NodesOf(Values(ws)) <= budget)
    requires 1 <= stride <= 2 && |ws| % stride == 0 && |ws| <= stride * (MAX_ARRAY_LEN - have)
    ensures LimitError(Status(DecodeUntilBreak(WrittenAll(ws) + tail, stride, depth, budget, have)),
                       AllWithin(Values(ws), MAX_DEPTH - depth), NodesOf(Values(ws)) <= budget)
    decreases ws, 2
  {
    hide DecodeMany, DecodeUntilBreak, Sound, AllSound, Value, Values, NodesOf, AllWithin, Written, WrittenAll, LimitError;
    var levels := MAX_DEPTH - depth;
    if ws == [] {
      NoForms();
      NothingIsWithin(levels);
      assert false;
    } else {
      var group, others := ws[..stride], ws[stride..];
      if |ws| == stride {
        assert group == ws;
      }
      Parts(ws, stride, levels);
      if AllWithin(Values(group), levels) && AllWithin(Values(others), levels) {
        WithinParts(ws, stride, levels);
      }
      var behind := WrittenAll(others) + tail;
      Associative(WrittenAll(group), WrittenAll(others), tail);
      FirstIsNoBreak(ws, tail);
      var s := WrittenAll(ws) + tail;
      if AllWithin(Values(group), levels) && NodesOf(Values(group)) <= budget {
        FormsDecode(group, behind, depth, budget);
        GroupsTooBig(others, stride, tail, depth, budget - NodesOf(Values(group)), have + 1);
        GroupInFront(s, stride, depth, budget, have);
      } else {
        FormsTooBig(group, behind, depth, budget);
        ErrorIsError(Status(DecodeMany(s, stride, depth, budget)), AllWithin(Values(group), levels),
                     NodesOf(Values(group)) <= budget, AllWithin(Values(ws), levels), NodesOf(Values(ws)) <= budget);
        GroupCut(s, stride, depth, budget, have);
      }
    }
  }

  lemma NothingIsWithin(levels: int)
    ensures AllWithin([], levels)
  {
  }

  lemma {:induction false} WithinParts(ws: seq<Wire>, k: nat, levels: int)
    requires AllSound(ws) && k <= |ws| && AllSound(ws[..k]) && AllSound(ws[k..])
    requires AllWithin(Values(ws[..k]), levels) && AllWithin(Values(ws[k..]), levels)
    ensures AllWithin(Values(ws), levels)
    decreases k
  {
    hide Sound, Value, Within;
    if k == 0 {
      assert ws[0..] == ws;
    } else {
      assert ws[..k][1..] == ws[1..][..k - 1] && ws[1..][k - 1..] == ws[k..];
      Prepend(Value(ws[0]), Values(ws[1..]));
      Prepend(Value(ws[0]), Values(ws[..k][1..]));
      WithinParts(ws[1..], k - 1, levels);
    }
  }

  // An error of a part is an error of the whole.
  lemma ErrorIsError(r: Result<(), ProtocolError>, partDepth: bool, partBudget: bool, depth: bool, budget: bool)
    requires LimitError(r, partDepth, partBudget) && (depth ==> partDepth) && (budget ==> partBudget)
    ensures LimitError(r, depth, budget) && r.Err?
  {
  }
}

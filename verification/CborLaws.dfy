/**
  What the decoder promises: it inverts the encoding of whole item trees, never exceeds its limits, and treats a
  concatenation of streams as the concatenation of what they decode to.
 */
module CborLaws {
  import opened Wrappers
  import opened Bytes
  import opened Cbor

  // ---- Every success respects the limits ----

  // What a successful decoding at `depth` promises of its value.
  ghost predicate Respects(x: Item, depth: nat, before: nat, after: nat) {
    && Encodable(x) && StringsCapped(x) && Within(x, MAX_DEPTH - depth)
    && after == before - Nodes(x)
  }

  ghost predicate AllRespect(xs: seq<Item>, depth: nat, before: nat, after: nat) {
    && AllEncodable(xs) && AllStringsCapped(xs) && AllWithin(xs, MAX_DEPTH - depth)
    && after == before - NodesOf(xs)
  }

  lemma {:induction false} ChunksRespect(s: seq<Byte>, text: bool, soFar: seq<Byte>)
    requires ChunksUntilBreak(s, text, soFar).Ok? && |soFar| <= MAX_STRING_BYTES && (text ==> Utf8(soFar))
    ensures StringFits(text, ChunksUntilBreak(s, text, soFar).value.0)
    decreases |s|
  {
    if s[0] != BREAK {
      var (chunk, rest) := DefiniteString(s, text).value;
      if text {
        Utf8Concatenation(soFar, chunk);
      }
      ChunksRespect(rest, text, soFar + chunk);
    }
  }

  lemma StringRespects(s: seq<Byte>, text: bool, depth: nat, budget: nat)
    requires s != [] && (s[0] % 32 <= 27 || s[0] % 32 == 31) && DecodeString(s, text, budget).Ok? && depth <= MAX_DEPTH
    ensures var d := DecodeString(s, text, budget).value; Respects(d.value, depth, budget + 1, d.budget)
  {
    if s[0] % 32 == 31 {
      ChunksRespect(s[1..], text, []);
    }
  }

  lemma SpecialRespects(s: seq<Byte>, depth: nat, budget: nat)
    requires s != [] && s[0] / 32 == 7 && DecodeSpecial(s, budget).Ok? && depth <= MAX_DEPTH
    ensures var d := DecodeSpecial(s, budget).value; Respects(d.value, depth, budget + 1, d.budget)
  {
  }

  lemma ContainerRespects(keyed: bool, items: seq<Item>, depth: nat, before: nat, after: nat)
    requires AllRespect(items, depth + 1, before, after) && |items| <= 2 * MAX_ARRAY_LEN && (keyed ==> |items| % 2 == 0)
    requires depth <= MAX_DEPTH
    ensures Respects(Container(keyed, items), depth, before + 1, after)
  {
  }

  /** Any item accepted at a depth is encodable, stays within the levels and sizes left, and spends one unit a node. */
  lemma {:induction false} ItemRespects(s: seq<Byte>, depth: nat, budget: nat)
    requires depth <= MAX_DEPTH + 1 && DecodeItem(s, depth, budget).Ok?
    ensures var d := DecodeItem(s, depth, budget).value; Respects(d.value, depth, budget, d.budget)
    decreases MAX_DEPTH + 1 - depth, 0, 0
  {
    hide DecodeString, DecodeSpecial, DecodeIndefinite, DecodeAfterHead, Argument, Respects;
    var major, info := s[0] / 32, s[0] % 32;
    if major == 7 {
      SpecialRespects(s, depth, budget - 1);
    } else if major == 2 || major == 3 {
      StringRespects(s, major == 3, depth, budget - 1);
    } else if info == 31 {
      IndefiniteRespects(s[1..], major == 5, depth, budget - 1);
    } else {
      var (n, rest) := Argument(s).value;
      AfterHeadRespects(major, n, rest, depth, budget - 1);
    }
  }

  lemma {:induction false} AfterHeadRespects(major: nat, n: nat, s: seq<Byte>, depth: nat, budget: nat)
    requires depth <= MAX_DEPTH && n < 0x1_0000_0000_0000_0000 && DecodeAfterHead(major, n, s, depth, budget).Ok?
    ensures var d := DecodeAfterHead(major, n, s, depth, budget).value; Respects(d.value, depth, budget + 1, d.budget)
    decreases MAX_DEPTH - depth, 2, 0
  {
    hide DecodeItem, DecodeMany;
    if major == 6 {
      ItemRespects(s, depth + 1, budget);
    } else if major != 0 && major != 1 {
      var count := if major == 5 then 2 * n else n;
      ManyRespect(s, count, depth + 1, budget);
      var list := DecodeMany(s, count, depth + 1, budget).value;
      ContainerRespects(major == 5, list.value, depth, budget, list.budget);
    }
  }

  lemma {:induction false} IndefiniteRespects(s: seq<Byte>, keyed: bool, depth: nat, budget: nat)
    requires depth <= MAX_DEPTH && DecodeIndefinite(s, keyed, depth, budget).Ok?
    ensures var d := DecodeIndefinite(s, keyed, depth, budget).value; Respects(d.value, depth, budget + 1, d.budget)
    decreases MAX_DEPTH - depth, 3, |s|
  {
    var stride := if keyed then 2 else 1;
    UntilBreakRespects(s, stride, depth + 1, budget, 0);
    var list := DecodeUntilBreak(s, stride, depth + 1, budget, 0).value;
    ContainerRespects(keyed, list.value, depth, budget, list.budget);
  }

  lemma {:induction false} ManyRespect(s: seq<Byte>, count: nat, depth: nat, budget: nat)
    requires depth <= MAX_DEPTH + 1 && DecodeMany(s, count, depth, budget).Ok?
    ensures var d := DecodeMany(s, count, depth, budget).value; AllRespect(d.value, depth, budget, d.budget)
    decreases MAX_DEPTH + 1 - depth, 1, count
  {
    hide DecodeItem;
    if count > 0 {
      ItemRespects(s, depth, budget);
      var first := DecodeItem(s, depth, budget).value;
      ManyRespect(first.rest, count - 1, depth, first.budget);
      Prepend(first.value, DecodeMany(first.rest, count - 1, depth, first.budget).value.value);
    }
  }

  lemma Prepend(x: Item, xs: seq<Item>)
    ensures ([x] + xs)[0] == x && ([x] + xs)[1..] == xs
  {
  }

  lemma {:induction false} UntilBreakRespects(s: seq<Byte>, stride: nat, depth: nat, budget: nat, have: nat)
    requires depth <= MAX_DEPTH + 1 && 1 <= stride <= 2 && DecodeUntilBreak(s, stride, depth, budget, have).Ok?
    requires have <= MAX_ARRAY_LEN
    ensures var d := DecodeUntilBreak(s, stride, depth, budget, have).value;
            AllRespect(d.value, depth, budget, d.budget) && |d.value| <= 2 * (MAX_ARRAY_LEN - have)
    decreases MAX_DEPTH + 1 - depth, 2, |s|
  {
    hide DecodeMany;
    if s[0] != BREAK {
      ManyRespect(s, stride, depth, budget);
      var group := DecodeMany(s, stride, depth, budget).value;
      UntilBreakRespects(group.rest, stride, depth, group.budget, have + 1);
      var others := DecodeUntilBreak(group.rest, stride, depth, group.budget, have + 1).value;
      ConcatRespects(group.value, others.value, depth, budget, group.budget, others.budget);
    }
  }

  lemma {:induction false} ConcatRespects(a: seq<Item>, b: seq<Item>, depth: nat, before: nat, between: nat, after: nat)
    requires AllRespect(a, depth, before, between) && AllRespect(b, depth, between, after)
    ensures AllRespect(a + b, depth, before, after)
  {
    hide Encodable, StringsCapped, Within, Nodes;
    if a == [] {
      assert a + b == b;
    } else {
      ConcatRespects(a[1..], b, depth, before - Nodes(a[0]), between, after);
      assert (a + b)[1..] == a[1..] + b;
      assert (a + b)[0] == a[0];
    }
  }

  lemma {:induction false} NodesConcatenate(a: seq<Item>, b: seq<Item>)
    ensures NodesOf(a + b) == NodesOf(a) + NodesOf(b)
  {
    hide Nodes;
    if a == [] {
      assert a + b == b;
    } else {
      NodesConcatenate(a[1..], b);
      assert (a + b)[1..] == a[1..] + b;
    }
  }

  // ---- A success stays the same with more bytes behind it and any budget that covers its nodes ----

  lemma Slices(s: seq<Byte>, more: seq<Byte>, i: nat, j: nat)
    requires i <= j <= |s|
    ensures (s + more)[i..j] == s[i..j] && (s + more)[j..] == s[j..] + more
  {
  }

  lemma ArgumentExtends(s: seq<Byte>, more: seq<Byte>)
    requires s != [] && s[0] % 32 <= 27 && Argument(s).Ok?
    ensures Argument(s + more) == Ok((Argument(s).value.0, Argument(s).value.1 + more))
  {
    var width := ArgumentWidth(s[0] % 32);
    Slices(s, more, 1, 1 + width);
    Slices(s, more, 0, 1);
  }

  lemma DefiniteExtends(s: seq<Byte>, text: bool, more: seq<Byte>)
    requires s != [] && s[0] % 32 <= 27 && DefiniteString(s, text).Ok?
    ensures DefiniteString(s + more, text) == Ok((DefiniteString(s, text).value.0, DefiniteString(s, text).value.1 + more))
  {
    ArgumentExtends(s, more);
    var (n, rest) := Argument(s).value;
    hide Argument, Utf8;
    Slices(rest, more, 0, n);
  }

  lemma {:induction false} ChunksExtend(s: seq<Byte>, text: bool, soFar: seq<Byte>, more: seq<Byte>)
    requires ChunksUntilBreak(s, text, soFar).Ok?
    ensures ChunksUntilBreak(s + more, text, soFar)
            == Ok((ChunksUntilBreak(s, text, soFar).value.0, ChunksUntilBreak(s, text, soFar).value.1 + more))
    decreases |s|
  {
    if s[0] == BREAK {
      assert (s + more)[1..] == s[1..] + more;
    } else {
      DefiniteExtends(s, text, more);
      var (chunk, rest) := DefiniteString(s, text).value;
      ChunksExtend(rest, text, soFar + chunk, more);
    }
  }

  lemma StringExtends(s: seq<Byte>, text: bool, budget: nat, more: seq<Byte>, other: nat)
    requires s != [] && (s[0] % 32 <= 27 || s[0] % 32 == 31) && DecodeString(s, text, budget).Ok?
    ensures DecodeString(s + more, text, other) == Ok(Moved(DecodeString(s, text, budget).value, more, other))
  {
    if s[0] % 32 == 31 {
      ChunksExtend(s[1..], text, [], more);
      assert (s + more)[1..] == s[1..] + more;
    } else {
      DefiniteExtends(s, text, more);
    }
  }

  lemma SpecialExtends(s: seq<Byte>, budget: nat, more: seq<Byte>, other: nat)
    requires s != [] && s[0] / 32 == 7 && DecodeSpecial(s, budget).Ok?
    ensures DecodeSpecial(s + more, other) == Ok(Moved(DecodeSpecial(s, budget).value, more, other))
  {
    var width := ArgumentWidth(s[0] % 32);
    Slices(s, more, 0, 1);
    if |s| >= 1 + width {
      Slices(s, more, 1, 1 + width);
    }
  }

  function Moved<T>(d: Decoded<T>, more: seq<Byte>, budget: nat): Decoded<T> {
    Decoded(d.value, d.rest + more, budget)
  }

  /** A decoded item decodes the same in front of any bytes and under any budget that covers its nodes. */
  lemma {:induction false} ItemIsStable(s: seq<Byte>, depth: nat, budget: nat, more: seq<Byte>, other: nat)
    requires depth <= MAX_DEPTH + 1 && DecodeItem(s, depth, budget).Ok?
    requires Nodes(DecodeItem(s, depth, budget).value.value) <= other
    ensures var d := DecodeItem(s, depth, budget).value;
            DecodeItem(s + more, depth, other) == Ok(Moved(d, more, other - Nodes(d.value)))
    decreases MAX_DEPTH + 1 - depth, 0, 0
  {
    hide DecodeString, DecodeSpecial, DecodeIndefinite, DecodeAfterHead, Argument, Respects, Nodes;
    var major, info := s[0] / 32, s[0] % 32;
    assert (s + more)[0] == s[0];
    if major == 7 {
      SpecialExtends(s, budget - 1, more, other - 1);
      SpecialIsLeaf(s, budget - 1);
    } else if major == 2 || major == 3 {
      StringExtends(s, major == 3, budget - 1, more, other - 1);
      StringIsLeaf(s, major == 3, budget - 1);
    } else if info == 31 {
      assert (s + more)[1..] == s[1..] + more;
      IndefiniteIsStable(s[1..], major == 5, depth, budget - 1, more, other - 1);
    } else {
      ArgumentExtends(s, more);
      var (n, rest) := Argument(s).value;
      AfterHeadIsStable(major, n, rest, depth, budget - 1, more, other - 1);
    }
  }

  lemma SpecialIsLeaf(s: seq<Byte>, budget: nat)
    requires s != [] && s[0] / 32 == 7 && DecodeSpecial(s, budget).Ok?
    ensures Nodes(DecodeSpecial(s, budget).value.value) == 1
  {
  }

  lemma StringIsLeaf(s: seq<Byte>, text: bool, budget: nat)
    requires s != [] && (s[0] % 32 <= 27 || s[0] % 32 == 31) && DecodeString(s, text, budget).Ok?
    ensures Nodes(DecodeString(s, text, budget).value.value) == 1
  {
  }

  lemma {:induction false} AfterHeadIsStable(major: nat, n: nat, s: seq<Byte>, depth: nat, budget: nat,
                                             more: seq<Byte>, other: nat)
    requires depth <= MAX_DEPTH && DecodeAfterHead(major, n, s, depth, budget).Ok?
    requires Nodes(DecodeAfterHead(major, n, s, depth, budget).value.value) <= other + 1
    ensures var d := DecodeAfterHead(major, n, s, depth, budget).value;
            DecodeAfterHead(major, n, s + more, depth, other) == Ok(Moved(d, more, other + 1 - Nodes(d.value)))
    decreases MAX_DEPTH - depth, 2, 0
  {
    hide DecodeItem, DecodeMany;
    if major == 6 {
      ItemIsStable(s, depth + 1, budget, more, other);
    } else if major != 0 && major != 1 {
      ManyAreStable(s, if major == 5 then 2 * n else n, depth + 1, budget, more, other);
    }
  }

  lemma {:induction false} IndefiniteIsStable(s: seq<Byte>, keyed: bool, depth: nat, budget: nat, more: seq<Byte>, other: nat)
    requires depth <= MAX_DEPTH && DecodeIndefinite(s, keyed, depth, budget).Ok?
    requires Nodes(DecodeIndefinite(s, keyed, depth, budget).value.value) <= other + 1
    ensures var d := DecodeIndefinite(s, keyed, depth, budget).value;
            DecodeIndefinite(s + more, keyed, depth, other) == Ok(Moved(d, more, other + 1 - Nodes(d.value)))
    decreases MAX_DEPTH - depth, 3, |s|
  {
    hide DecodeUntilBreak;
    UntilBreakIsStable(s, if keyed then 2 else 1, depth + 1, budget, 0, more, other);
  }

  lemma {:induction false} ManyAreStable(s: seq<Byte>, count: nat, depth: nat, budget: nat, more: seq<Byte>, other: nat)
    requires depth <= MAX_DEPTH + 1 && DecodeMany(s, count, depth, budget).Ok?
    requires NodesOf(DecodeMany(s, count, depth, budget).value.value) <= other
    ensures var d := DecodeMany(s, count, depth, budget).value;
            DecodeMany(s + more, count, depth, other) == Ok(Moved(d, more, other - NodesOf(d.value)))
    decreases MAX_DEPTH + 1 - depth, 1, count
  {
    hide DecodeItem, Nodes;
    if count > 0 {
      var first := DecodeItem(s, depth, budget).value;
      var others := DecodeMany(first.rest, count - 1, depth, first.budget).value;
      Prepend(first.value, others.value);
      ItemIsStable(s, depth, budget, more, other);
      ManyAreStable(first.rest, count - 1, depth, first.budget, more, other - Nodes(first.value));
    }
  }

  lemma {:induction false} UntilBreakIsStable(s: seq<Byte>, stride: nat, depth: nat, budget: nat, have: nat,
                                              more: seq<Byte>, other: nat)
    requires depth <= MAX_DEPTH + 1 && 1 <= stride <= 2 && DecodeUntilBreak(s, stride, depth, budget, have).Ok?
    requires NodesOf(DecodeUntilBreak(s, stride, depth, budget, have).value.value) <= other
    ensures var d := DecodeUntilBreak(s, stride, depth, budget, have).value;
            DecodeUntilBreak(s + more, stride, depth, other, have) == Ok(Moved(d, more, other - NodesOf(d.value)))
    decreases MAX_DEPTH + 1 - depth, 2, |s|
  {
    hide DecodeMany, Nodes;
    assert (s + more)[0] == s[0];
    if s[0] == BREAK {
      assert (s + more)[1..] == s[1..] + more;
    } else {
      var group := DecodeMany(s, stride, depth, budget).value;
      var others := DecodeUntilBreak(group.rest, stride, depth, group.budget, have + 1).value;
      NodesConcatenate(group.value, others.value);
      ManyAreStable(s, stride, depth, budget, more, other);
      UntilBreakIsStable(group.rest, stride, depth, group.budget, have + 1, more, other - NodesOf(group.value));
    }
  }

  // ---- Decoding inverts encoding ----

  // Decoding a head of an integer, tag or container continues with what follows it.
  lemma ItemOfHead(major: nat, n: nat, tail: seq<Byte>, depth: nat, budget: nat)
    requires major in {0, 1, 4, 5, 6} && n < 0x1_0000_0000_0000_0000 && depth <= MAX_DEPTH && budget > 0
    ensures DecodeItem(Head(major, n) + tail, depth, budget) == DecodeAfterHead(major, n, tail, depth, budget - 1)
  {
    hide DecodeString, DecodeSpecial, DecodeIndefinite, DecodeAfterHead, Argument, Head;
    ArgumentOfHead(major, n, tail);
  }

  predicate Leaf(x: Item) {
    !x.Array? && !x.Map? && !x.Tag?
  }

  lemma StringRoundTrip(major: nat, contents: seq<Byte>, rest: seq<Byte>, depth: nat, budget: nat)
    requires 2 <= major <= 3 && StringFits(major == 3, contents) && depth <= MAX_DEPTH && budget > 0
    ensures DecodeItem(Head(major, |contents|) + contents + rest, depth, budget)
            == Ok(Decoded(StringItem(major == 3, contents), rest, budget - 1))
  {
    hide DecodeSpecial, DecodeIndefinite, DecodeAfterHead, Argument, Head, ChunksUntilBreak, Utf8;
    var s := Head(major, |contents|) + contents + rest;
    assert s == Head(major, |contents|) + (contents + rest);
    ArgumentOfHead(major, |contents|, contents + rest);
    assert (contents + rest)[..|contents|] == contents;
    assert (contents + rest)[|contents|..] == rest;
  }

  lemma FloatRoundTrip(x: Item, rest: seq<Byte>, depth: nat, budget: nat)
    requires x.Float? && Encodable(x) && depth <= MAX_DEPTH && budget > 0
    ensures DecodeItem(Encode(x) + rest, depth, budget) == Ok(Decoded(x, rest, budget - 1))
  {
    hide DecodeString, DecodeIndefinite, DecodeAfterHead, Argument;
    var s := Encode(x) + rest;
    assert s[1..1 + |x.bits|] == x.bits;
    assert s[1 + |x.bits|..] == rest;
  }

  lemma SpecialRoundTrip(x: Item, rest: seq<Byte>, depth: nat, budget: nat)
    requires Encodable(x) && depth <= MAX_DEPTH && budget > 0
    requires x.Bool? || x.Null? || x.Undefined? || x.Simple? || x.Float?
    ensures DecodeItem(Encode(x) + rest, depth, budget) == Ok(Decoded(x, rest, budget - 1))
  {
    hide DecodeString, DecodeIndefinite, DecodeAfterHead, Argument;
    var s := Encode(x) + rest;
    if x.Float? {
      FloatRoundTrip(x, rest, depth, budget);
    } else if x.Simple? && x.code >= 20 {
      assert s[2..] == rest;
    } else {
      assert s[1..] == rest;
    }
  }

  lemma LeafRoundTrip(x: Item, rest: seq<Byte>, depth: nat, budget: nat)
    requires Encodable(x) && StringsCapped(x) && depth <= MAX_DEPTH && budget > 0 && Leaf(x)
    ensures DecodeItem(Encode(x) + rest, depth, budget) == Ok(Decoded(x, rest, budget - 1))
  {
    hide DecodeItem, Head;
    match x
    case UInt(n) => ItemOfHead(0, n, rest, depth, budget);
    case Int(v) => ItemOfHead(1, -1 - v, rest, depth, budget);
    case Bytes(bytes) => StringRoundTrip(2, bytes, rest, depth, budget);
    case Text(utf8) => StringRoundTrip(3, utf8, rest, depth, budget);
    case Bool(_) => SpecialRoundTrip(x, rest, depth, budget);
    case Null => SpecialRoundTrip(x, rest, depth, budget);
    case Undefined => SpecialRoundTrip(x, rest, depth, budget);
    case Simple(_) => SpecialRoundTrip(x, rest, depth, budget);
    case Float(_) => SpecialRoundTrip(x, rest, depth, budget);
  }

  lemma {:induction false} ItemRoundTrip(x: Item, rest: seq<Byte>, depth: nat, budget: nat)
    requires Encodable(x) && StringsCapped(x) && depth <= MAX_DEPTH && Within(x, MAX_DEPTH - depth)
    requires Nodes(x) <= budget && Nodes(x) <= MAX_ARRAY_LEN
    ensures DecodeItem(Encode(x) + rest, depth, budget) == Ok(Decoded(x, rest, budget - Nodes(x)))
    decreases x
  {
    hide DecodeItem, DecodeMany, Head;
    if Leaf(x) {
      LeafRoundTrip(x, rest, depth, budget);
    } else if x.Tag? {
      assert Encode(x) + rest == Head(6, x.tag) + (Encode(x.inner) + rest);
      ItemOfHead(6, x.tag, Encode(x.inner) + rest, depth, budget);
      ItemRoundTrip(x.inner, rest, depth + 1, budget - 1);
    } else {
      var xs := if x.Map? then x.entries else x.items;
      var major, n := if x.Map? then 5 else 4, if x.Map? then |xs| / 2 else |xs|;
      assert Encode(x) + rest == Head(major, n) + (EncodeAll(xs) + rest);
      ItemOfHead(major, n, EncodeAll(xs) + rest, depth, budget);
      CountAtMostNodes(xs);
      ManyRoundTrip(xs, rest, depth + 1, budget - 1);
    }
  }

  lemma {:induction false} CountAtMostNodes(xs: seq<Item>)
    ensures |xs| <= NodesOf(xs)
  {
    if xs != [] {
      CountAtMostNodes(xs[1..]);
    }
  }

  lemma {:induction false} ManyRoundTrip(xs: seq<Item>, rest: seq<Byte>, depth: nat, budget: nat)
    requires AllEncodable(xs) && AllStringsCapped(xs) && depth <= MAX_DEPTH + 1 && AllWithin(xs, MAX_DEPTH - depth)
    requires NodesOf(xs) <= budget && NodesOf(xs) <= MAX_ARRAY_LEN
    ensures DecodeMany(EncodeAll(xs) + rest, |xs|, depth, budget) == Ok(Decoded(xs, rest, budget - NodesOf(xs)))
    decreases xs
  {
    hide DecodeItem, Encodable, StringsCapped, Nodes, Encode;
    if xs == [] {
      assert EncodeAll(xs) + rest == rest;
    } else {
      assert EncodeAll(xs) + rest == Encode(xs[0]) + (EncodeAll(xs[1..]) + rest);
      ItemRoundTrip(xs[0], EncodeAll(xs[1..]) + rest, depth, budget);
      ManyRoundTrip(xs[1..], rest, depth, budget - Nodes(xs[0]));
      assert [xs[0]] + xs[1..] == xs;
    }
  }

  // ---- Whole streams ----

  predicate WithinLimits(xs: seq<Item>) {
    NodesOf(xs) <= MAX_ITEMS && AllWithin(xs, MAX_DEPTH) && AllStringsCapped(xs)
  }

  lemma {:induction false} ItemsRespect(s: seq<Byte>, budget: nat)
    requires DecodeItems(s, budget).Ok?
    ensures var xs := DecodeItems(s, budget).value;
            AllEncodable(xs) && AllStringsCapped(xs) && AllWithin(xs, MAX_DEPTH) && NodesOf(xs) <= budget
    decreases |s|
  {
    hide DecodeItem, Encodable, StringsCapped, Nodes, Within;
    if s != [] {
      ItemRespects(s, 0, budget);
      var first := DecodeItem(s, 0, budget).value;
      ItemsRespect(first.rest, first.budget);
      Prepend(first.value, DecodeItems(first.rest, first.budget).value);
    }
  }

  /** Any accepted stream stays within the node, depth and size limits, and is made of encodable values. */
  lemma AcceptedStreamsAreBounded(data: seq<Byte>)
    requires DecodeStream(data).Ok?
    ensures WithinLimits(DecodeStream(data).value) && AllEncodable(DecodeStream(data).value)
  {
    ItemsRespect(data, MAX_ITEMS);
  }

  lemma {:induction false} ItemsRoundTrip(xs: seq<Item>, budget: nat)
    requires AllEncodable(xs) && AllStringsCapped(xs) && AllWithin(xs, MAX_DEPTH)
    requires NodesOf(xs) <= budget <= MAX_ITEMS
    ensures DecodeItems(EncodeAll(xs), budget) == Ok(xs)
  {
    hide DecodeItem, Encodable, StringsCapped, Nodes, Within, Encode;
    if xs != [] {
      ItemRoundTrip(xs[0], EncodeAll(xs[1..]), 0, budget);
      ItemsRoundTrip(xs[1..], budget - Nodes(xs[0]));
      assert [xs[0]] + xs[1..] == xs;
    }
  }

  /** Decoding the concatenated shortest encodings of a list of item trees returns the list, exactly within the limits. */
  lemma StreamRoundTrip(xs: seq<Item>)
    requires AllEncodable(xs)
    ensures DecodeStream(EncodeAll(xs)) == Ok(xs) <==> WithinLimits(xs)
  {
    if WithinLimits(xs) {
      ItemsRoundTrip(xs, MAX_ITEMS);
    }
    if DecodeStream(EncodeAll(xs)) == Ok(xs) {
      AcceptedStreamsAreBounded(EncodeAll(xs));
    }
  }

  function Joined(xs: seq<Item>, r: Result<seq<Item>, ProtocolError>): Result<seq<Item>, ProtocolError> {
    match r
    case Ok(ys) => Ok(xs + ys)
    case Err(e) => Err(e)
  }

  /** After a whole stream, decoding goes on with the bytes behind it and the budget its nodes left. */
  lemma {:induction false} ItemsContinue(a: seq<Byte>, b: seq<Byte>, budget: nat, other: nat)
    requires DecodeItems(a, budget).Ok? && NodesOf(DecodeItems(a, budget).value) <= other
    ensures var xs := DecodeItems(a, budget).value;
            DecodeItems(a + b, other) == Joined(xs, DecodeItems(b, other - NodesOf(xs)))
    decreases |a|
  {
    hide DecodeItem, Nodes;
    if a == [] {
      assert a + b == b;
      assert Joined([], DecodeItems(b, other)) == DecodeItems(b, other) by {
        assert forall ys: seq<Item> :: [] + ys == ys;
      }
    } else {
      var first := DecodeItem(a, 0, budget).value;
      var others := DecodeItems(first.rest, first.budget).value;
      Prepend(first.value, others);
      ItemIsStable(a, 0, budget, b, other);
      ItemsContinue(first.rest, b, first.budget, other - Nodes(first.value));
      var r := DecodeItems(b, other - NodesOf([first.value] + others));
      assert r.Ok? ==> [first.value] + (others + r.value) == ([first.value] + others) + r.value;
    }
  }

  /** A decoding needs no more budget than the nodes it returns. */
  lemma EnoughBudget(s: seq<Byte>, budget: nat, other: nat)
    requires DecodeItems(s, budget).Ok?
    ensures DecodeItems(s, other) == DecodeItems(s, budget) <==> NodesOf(DecodeItems(s, budget).value) <= other
  {
    hide DecodeItem, Nodes;
    var xs := DecodeItems(s, budget).value;
    if NodesOf(xs) <= other {
      ItemsContinue(s, [], budget, other);
      assert s + [] == s && xs + [] == xs;
    } else if DecodeItems(s, other) == Ok(xs) {
      ItemsRespect(s, other);
    }
  }

  /** Two streams back to back decode to the two lists back to back, exactly when their items fit the budget together. */
  lemma StreamsConcatenate(a: seq<Byte>, b: seq<Byte>)
    requires DecodeStream(a).Ok? && DecodeStream(b).Ok?
    ensures var xs, ys := DecodeStream(a).value, DecodeStream(b).value;
            DecodeStream(a + b) == Ok(xs + ys) <==> NodesOf(xs) + NodesOf(ys) <= MAX_ITEMS
  {
    hide DecodeItems, NodesOf;
    var xs, ys := DecodeStream(a).value, DecodeStream(b).value;
    ItemsRespect(a, MAX_ITEMS);
    ItemsContinue(a, b, MAX_ITEMS, MAX_ITEMS);
    var left := MAX_ITEMS - NodesOf(xs);
    EnoughBudget(b, MAX_ITEMS, left);
    var r := DecodeItems(b, left);
    if r.Ok? && xs + r.value == xs + ys {
      assert r.value == (xs + r.value)[|xs|..] && ys == (xs + ys)[|xs|..];
    }
  }
}

/**
  The CBOR subset on the wire: shortest heads, an item tree, and the decoder's meaning as a function on the bytes
  that remain, bounded in depth, items and sizes. Heads follow section 3 of RFC 8949.
 */
module Cbor {
  import opened Wrappers
  import opened Bytes

  const MAX_DEPTH: nat := 16
  const MAX_ITEMS: nat := 4096
  const MAX_STRING_BYTES: nat := 64 * 1024
  const MAX_ARRAY_LEN: nat := 65_536
  const I64_MAX: nat := 0x7fff_ffff_ffff_ffff
  const BREAK: Byte := 0xff

  datatype Item =
    | UInt(n: nat)
    | Int(v: int)
    | Bytes(bytes: seq<Byte>)
    | Text(utf8: seq<Byte>)
    | Array(items: seq<Item>)
    // Keys and values in alternation.
    | Map(entries: seq<Item>)
    | Tag(tag: nat, inner: Item)
    | Bool(b: bool)
    | Null
    | Undefined
    | Simple(code: Byte)
    // Half, single or double: the wire bytes, most significant first.
    | Float(bits: seq<Byte>)

  datatype ProtocolError =
    | CborError | Truncated | DepthLimit | ItemLimit | RegisterOutOfRange(register: nat)
    | Malformed | RequestLimit | InvalidOutbound

  // ---- Big-endian numbers ----

  function Pow256(width: nat): nat {
    if width == 0 then 1 else 256 * Pow256(width - 1)
  }

  function BigEndian(n: nat, width: nat): (s: seq<Byte>)
    ensures |s| == width
  {
    if width == 0 then [] else BigEndian(n / 256, width - 1) + [n % 256]
  }

  function FromBigEndian(s: seq<Byte>): nat {
    if s == [] then 0 else FromBigEndian(s[..|s| - 1]) * 256 + s[|s| - 1]
  }

  lemma {:induction false} BigEndianRoundTrip(n: nat, width: nat)
    requires n < Pow256(width)
    ensures FromBigEndian(BigEndian(n, width)) == n
  {
    if width > 0 {
      BigEndianRoundTrip(n / 256, width - 1);
      assert BigEndian(n, width)[..width - 1] == BigEndian(n / 256, width - 1);
    }
  }

  lemma {:induction false} FromBigEndianBound(s: seq<Byte>)
    ensures FromBigEndian(s) < Pow256(|s|)
  {
    if s != [] {
      FromBigEndianBound(s[..|s| - 1]);
    }
  }

  lemma Powers()
    ensures Pow256(1) == 0x100 && Pow256(2) == 0x1_0000 && Pow256(4) == 0x1_0000_0000
    ensures Pow256(8) == 0x1_0000_0000_0000_0000
  {
    assert Pow256(3) == 0x100_0000 && Pow256(5) == 0x100_0000_0000 && Pow256(6) == 0x1_0000_0000_0000;
  }

  // ---- Heads ----

  // The argument follows the initial byte in this many bytes.
  function ArgumentWidth(info: nat): nat {
    if info == 24 then 1 else if info == 25 then 2 else if info == 26 then 4 else if info == 27 then 8 else 0
  }

  // The shortest head of a major type.
  function Head(major: nat, n: nat): seq<Byte>
    requires major < 8 && n < 0x1_0000_0000_0000_0000
  {
    if n < 24 then [major * 32 + n]
    else if n < 0x100 then [major * 32 + 24] + BigEndian(n, 1)
    else if n < 0x1_0000 then [major * 32 + 25] + BigEndian(n, 2)
    else if n < 0x1_0000_0000 then [major * 32 + 26] + BigEndian(n, 4)
    else [major * 32 + 27] + BigEndian(n, 8)
  }

  // The argument of the head at the front of `s`, and what follows it.
  function Argument(s: seq<Byte>): (r: Result<(nat, seq<Byte>), ProtocolError>)
    requires s != [] && s[0] % 32 <= 27
    ensures r.Ok? ==> |r.value.1| < |s| && r.value.0 < 0x1_0000_0000_0000_0000
  {
    var info := s[0] % 32;
    var width := ArgumentWidth(info);
    if info < 24 then Ok((info, s[1..]))
    else if |s| < 1 + width then Err(Truncated)
    else
      FromBigEndianBound(s[1..1 + width]);
      Powers();
      Ok((FromBigEndian(s[1..1 + width]), s[1 + width..]))
  }

  lemma ArgumentOfHead(major: nat, n: nat, rest: seq<Byte>)
    requires major < 8 && n < 0x1_0000_0000_0000_0000
    ensures var s := Head(major, n) + rest;
            s != [] && s[0] / 32 == major && s[0] % 32 <= 27 && Argument(s) == Ok((n, rest))
  {
    Powers();
    var s := Head(major, n) + rest;
    if n >= 24 {
      var width := if n < 0x100 then 1 else if n < 0x1_0000 then 2 else if n < 0x1_0000_0000 then 4 else 8;
      BigEndianRoundTrip(n, width);
      assert s[1..1 + width] == BigEndian(n, width);
      assert s[1 + width..] == rest;
    } else {
      assert s[1..] == rest;
    }
  }

  // ---- Text ----

  predicate Continuation(b: Byte) {
    0x80 <= b <= 0xbf
  }

  // The length of the well-formed UTF-8 sequence at the front of `s`, or 0.
  function CharLength(s: seq<Byte>): (n: nat)
    ensures n <= |s|
  {
    if s == [] then 0
    else if s[0] < 0x80 then 1
    else if |s| >= 2 && 0xc2 <= s[0] <= 0xdf && Continuation(s[1]) then 2
    else if |s| >= 3 && 0xe0 <= s[0] <= 0xef && Continuation(s[1]) && Continuation(s[2])
            && (s[0] == 0xe0 ==> 0xa0 <= s[1]) && (s[0] == 0xed ==> s[1] <= 0x9f) then 3
    else if |s| >= 4 && 0xf0 <= s[0] <= 0xf4 && Continuation(s[1]) && Continuation(s[2]) && Continuation(s[3])
            && (s[0] == 0xf0 ==> 0x90 <= s[1]) && (s[0] == 0xf4 ==> s[1] <= 0x8f) then 4
    else 0
  }

  predicate Utf8(s: seq<Byte>) {
    s == [] || (CharLength(s) > 0 && Utf8(s[CharLength(s)..]))
  }

  lemma CharLengthOfLonger(a: seq<Byte>, b: seq<Byte>)
    requires CharLength(a) > 0
    ensures CharLength(a + b) == CharLength(a)
  {
    var s := a + b;
    assert s[0] == a[0];
    assert |a| >= 2 ==> s[1] == a[1];
    assert |a| >= 3 ==> s[2] == a[2];
    assert |a| >= 4 ==> s[3] == a[3];
  }

  lemma {:induction false} Utf8Concatenation(a: seq<Byte>, b: seq<Byte>)
    requires Utf8(a) && Utf8(b)
    ensures Utf8(a + b)
  {
    if a == [] {
      assert a + b == b;
    } else {
      CharLengthOfLonger(a, b);
      hide CharLength;
      var n := CharLength(a);
      Utf8Concatenation(a[n..], b);
      assert (a + b)[n..] == a[n..] + b;
    }
  }

  // ---- What the decoder does ----

  // A decoded value, the bytes after it, and the items still permitted.
  datatype Decoded<+T> = Decoded(value: T, rest: seq<Byte>, budget: nat)

  type Decoding<+T> = Result<Decoded<T>, ProtocolError>

  predicate StringFits(text: bool, chunk: seq<Byte>) {
    |chunk| <= MAX_STRING_BYTES && (text ==> Utf8(chunk))
  }

  // A definite string's contents, which must be UTF-8 for text.
  function DefiniteString(s: seq<Byte>, text: bool): (r: Result<(seq<Byte>, seq<Byte>), ProtocolError>)
    requires s != [] && s[0] % 32 <= 27
    ensures r.Ok? ==> |r.value.1| < |s| && (text ==> Utf8(r.value.0))
  {
    var (n, rest) :- Argument(s);
    if n > |rest| then Err(Truncated)
    else if text && !Utf8(rest[..n]) then Err(CborError)
    else Ok((rest[..n], rest[n..]))
  }

  // The chunks of an indefinite string up to the break, appended to what came before.
  function ChunksUntilBreak(s: seq<Byte>, text: bool, soFar: seq<Byte>): (r: Result<(seq<Byte>, seq<Byte>), ProtocolError>)
    ensures r.Ok? ==> |r.value.1| < |s|
    decreases |s|
  {
    if s == [] then Err(Truncated)
    else if s[0] == BREAK then Ok((soFar, s[1..]))
    else if s[0] / 32 != (if text then 3 else 2) || s[0] % 32 > 27 then Err(CborError)
    else
      var (chunk, rest) :- DefiniteString(s, text);
      if |soFar| + |chunk| > MAX_STRING_BYTES then Err(CborError)
      else ChunksUntilBreak(rest, text, soFar + chunk)
  }

  function StringItem(text: bool, contents: seq<Byte>): Item {
    if text then Text(contents) else Bytes(contents)
  }

  function DecodeString(s: seq<Byte>, text: bool, budget: nat): (r: Decoding<Item>)
    requires s != [] && (s[0] % 32 <= 27 || s[0] % 32 == 31)
    ensures r.Ok? ==> |r.value.rest| < |s|
  {
    if s[0] % 32 == 31 then
      var (contents, rest) :- ChunksUntilBreak(s[1..], text, []);
      Ok(Decoded(StringItem(text, contents), rest, budget))
    else
      var (contents, rest) :- DefiniteString(s, text);
      if |contents| > MAX_STRING_BYTES then Err(CborError)
      else Ok(Decoded(StringItem(text, contents), rest, budget))
  }

  // Simple values, floats and the break.
  function DecodeSpecial(s: seq<Byte>, budget: nat): (r: Decoding<Item>)
    requires s != [] && s[0] / 32 == 7
    ensures r.Ok? ==> |r.value.rest| < |s|
  {
    var info := s[0] % 32;
    if info < 20 then Ok(Decoded(Simple(info), s[1..], budget))
    else if info <= 21 then Ok(Decoded(Bool(info == 21), s[1..], budget))
    else if info == 22 then Ok(Decoded(Null, s[1..], budget))
    else if info == 23 then Ok(Decoded(Undefined, s[1..], budget))
    else if info <= 27 then
      var width := ArgumentWidth(info);
      if |s| < 1 + width then Err(Truncated)
      else Ok(Decoded(if info == 24 then Simple(s[1]) else Float(s[1..1 + width]), s[1 + width..], budget))
    else if info == 31 then Err(Malformed)
    else Err(CborError)
  }

  function Container(keyed: bool, items: seq<Item>): Item {
    if keyed then Map(items) else Array(items)
  }

  function DecodeItem(s: seq<Byte>, depth: nat, budget: nat): (r: Decoding<Item>)
    requires depth <= MAX_DEPTH + 1
    ensures r.Ok? ==> s != [] && |r.value.rest| < |s| && r.value.budget < budget
    decreases MAX_DEPTH + 1 - depth, 0, 0
  {
    if depth > MAX_DEPTH then Err(DepthLimit)
    else if budget == 0 then Err(ItemLimit)
    else if s == [] then Err(Truncated)
    else
      var major, info := s[0] / 32, s[0] % 32;
      if major == 7 then DecodeSpecial(s, budget - 1)
      else if info > 27 && !(info == 31 && 2 <= major <= 5) then Err(CborError)
      else if major == 2 || major == 3 then DecodeString(s, major == 3, budget - 1)
      else if info == 31 then DecodeIndefinite(s[1..], major == 5, depth, budget - 1)
      else
        var (n, rest) :- Argument(s);
        DecodeAfterHead(major, n, rest, depth, budget - 1)
  }

  // The rest of an integer, tag, array or map whose head announced `n`.
  function DecodeAfterHead(major: nat, n: nat, s: seq<Byte>, depth: nat, budget: nat): (r: Decoding<Item>)
    requires depth <= MAX_DEPTH
    ensures r.Ok? ==> |r.value.rest| <= |s| && r.value.budget <= budget
    decreases MAX_DEPTH - depth, 2, 0
  {
    if major == 0 then Ok(Decoded(UInt(n), s, budget))
    else if major == 1 then
      if n > I64_MAX then Err(CborError) else Ok(Decoded(Int(-1 - n), s, budget))
    else if major == 6 then
      var inner :- DecodeItem(s, depth + 1, budget);
      Ok(Decoded(Tag(n, inner.value), inner.rest, inner.budget))
    else if n > MAX_ARRAY_LEN then Err(CborError)
    else
      var list :- DecodeMany(s, if major == 5 then 2 * n else n, depth + 1, budget);
      Ok(Decoded(Container(major == 5, list.value), list.rest, list.budget))
  }

  function DecodeIndefinite(s: seq<Byte>, keyed: bool, depth: nat, budget: nat): (r: Decoding<Item>)
    requires depth <= MAX_DEPTH
    ensures r.Ok? ==> |r.value.rest| < |s| && r.value.budget <= budget
    decreases MAX_DEPTH - depth, 3, |s|
  {
    var list :- DecodeUntilBreak(s, if keyed then 2 else 1, depth + 1, budget, 0);
    Ok(Decoded(Container(keyed, list.value), list.rest, list.budget))
  }

  // `count` items one after the other.
  function DecodeMany(s: seq<Byte>, count: nat, depth: nat, budget: nat): (r: Decoding<seq<Item>>)
    requires depth <= MAX_DEPTH + 1
    ensures r.Ok? ==> |r.value.value| == count && |r.value.rest| <= |s| - count && r.value.budget <= budget - count
    decreases MAX_DEPTH + 1 - depth, 1, count
  {
    if count == 0 then Ok(Decoded([], s, budget))
    else
      var first :- DecodeItem(s, depth, budget);
      var others :- DecodeMany(first.rest, count - 1, depth, first.budget);
      Ok(Decoded([first.value] + others.value, others.rest, others.budget))
  }

  // Groups of `stride` items up to the break; the break is looked for between groups only.
  function DecodeUntilBreak(s: seq<Byte>, stride: nat, depth: nat, budget: nat, have: nat): (r: Decoding<seq<Item>>)
    requires depth <= MAX_DEPTH + 1 && 1 <= stride <= 2
    ensures r.Ok? ==> |r.value.value| % stride == 0 && |r.value.rest| < |s| && r.value.budget <= budget - |r.value.value|
    decreases MAX_DEPTH + 1 - depth, 2, |s|
  {
    if s == [] then Err(Truncated)
    else if s[0] == BREAK then Ok(Decoded([], s[1..], budget))
    else if have >= MAX_ARRAY_LEN then Err(CborError)
    else
      var group :- DecodeMany(s, stride, depth, budget);
      var others :- DecodeUntilBreak(group.rest, stride, depth, group.budget, have + 1);
      Ok(Decoded(group.value + others.value, others.rest, others.budget))
  }

  // All items of a concatenated stream.
  function DecodeItems(s: seq<Byte>, budget: nat): (r: Result<seq<Item>, ProtocolError>)
    decreases |s|
  {
    if s == [] then Ok([])
    else
      var first :- DecodeItem(s, 0, budget);
      var others :- DecodeItems(first.rest, first.budget);
      Ok([first.value] + others)
  }

  function DecodeStream(data: seq<Byte>): Result<seq<Item>, ProtocolError> {
    DecodeItems(data, MAX_ITEMS)
  }

  // ---- Encoding ----

  function Encode(x: Item): seq<Byte>
    requires Encodable(x)
  {
    match x
    case UInt(n) => Head(0, n)
    case Int(v) => Head(1, -1 - v)
    case Bytes(bytes) => Head(2, |bytes|) + bytes
    case Text(utf8) => Head(3, |utf8|) + utf8
    case Array(items) => Head(4, |items|) + EncodeAll(items)
    case Map(entries) => Head(5, |entries| / 2) + EncodeAll(entries)
    case Tag(tag, inner) => Head(6, tag) + Encode(inner)
    case Bool(b) => [if b then 0xf5 else 0xf4]
    case Null => [0xf6]
    case Undefined => [0xf7]
    case Simple(code) => if code < 20 then [0xe0 + code] else [0xf8, code]
    case Float(bits) => [if |bits| == 2 then 0xf9 else if |bits| == 4 then 0xfa else 0xfb] + bits
  }

  function EncodeAll(xs: seq<Item>): seq<Byte>
    requires AllEncodable(xs)
  {
    if xs == [] then [] else Encode(xs[0]) + EncodeAll(xs[1..])
  }

  // The values a CBOR encoding of this shape exists for.
  predicate Encodable(x: Item) {
    match x
    case UInt(n) => n < 0x1_0000_0000_0000_0000
    case Int(v) => -0x8000_0000_0000_0000 <= v < 0
    case Bytes(bytes) => |bytes| < 0x1_0000_0000_0000_0000
    case Text(utf8) => |utf8| < 0x1_0000_0000_0000_0000 && Utf8(utf8)
    case Array(items) => |items| < 0x1_0000_0000_0000_0000 && AllEncodable(items)
    case Map(entries) => |entries| < 0x1_0000_0000_0000_0000 && |entries| % 2 == 0 && AllEncodable(entries)
    case Tag(tag, inner) => tag < 0x1_0000_0000_0000_0000 && Encodable(inner)
    case Float(bits) => |bits| in {2, 4, 8}
    case _ => true
  }

  predicate AllEncodable(xs: seq<Item>) {
    xs == [] || (Encodable(xs[0]) && AllEncodable(xs[1..]))
  }

  // ---- The limits ----

  // Items of the tree: elements, keys, values and tagged items each count.
  function Nodes(x: Item): (n: nat)
    ensures n >= 1
  {
    match x
    case Array(items) => 1 + NodesOf(items)
    case Map(entries) => 1 + NodesOf(entries)
    case Tag(_, inner) => 1 + Nodes(inner)
    case _ => 1
  }

  function NodesOf(xs: seq<Item>): (n: nat)
    ensures n >= |xs|
  {
    if xs == [] then 0 else Nodes(xs[0]) + NodesOf(xs[1..])
  }

  // Whether every item of the tree sits at most `levels` containers down.
  predicate Within(x: Item, levels: int) {
    0 <= levels &&
    match x
    case Array(items) => AllWithin(items, levels - 1)
    case Map(entries) => AllWithin(entries, levels - 1)
    case Tag(_, inner) => Within(inner, levels - 1)
    case _ => true
  }

  predicate AllWithin(xs: seq<Item>, levels: int) {
    xs == [] || (Within(xs[0], levels) && AllWithin(xs[1..], levels))
  }

  predicate StringsCapped(x: Item) {
    match x
    case Bytes(bytes) => |bytes| <= MAX_STRING_BYTES
    case Text(utf8) => |utf8| <= MAX_STRING_BYTES
    case Array(items) => AllStringsCapped(items)
    case Map(entries) => AllStringsCapped(entries)
    case Tag(_, inner) => StringsCapped(inner)
    case _ => true
  }

  predicate AllStringsCapped(xs: seq<Item>) {
    xs == [] || (StringsCapped(xs[0]) && AllStringsCapped(xs[1..]))
  }
}

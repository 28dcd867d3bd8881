/**
  The decoder as it runs: a position and a budget that shrink as items are taken off the input. Every method is tied
  to the function of the remaining bytes that `Cbor` gives, so the laws of `CborLaws` are laws of this class.
 */
module StreamDecoding {
  import opened Wrappers
  import opened Bytes
  import opened Cbor
  import opened CborLaws

  // What a decoding gives once `done` items stand in front of it.
  ghost function Following(done: seq<Item>, d: Decoding<seq<Item>>): Decoding<seq<Item>> {
    match d
    case Ok(list) => Ok(Decoded(done + list.value, list.rest, list.budget))
    case Err(e) => Err(e)
  }

  lemma FollowingNone(d: Decoding<seq<Item>>)
    ensures Following([], d) == d
  {
    assert d.Ok? ==> [] + d.value.value == d.value.value;
  }

  lemma FollowingMore(done: seq<Item>, group: seq<Item>, d: Decoding<seq<Item>>)
    ensures Following(done, Following(group, d)) == Following(done + group, d)
  {
    assert d.Ok? ==> done + (group + d.value.value) == (done + group) + d.value.value;
  }

  // A list of items in two parts.
  lemma {:induction false} ManyInParts(s: seq<Byte>, first: nat, others: nat, depth: nat, budget: nat)
    requires depth <= MAX_DEPTH + 1
    ensures DecodeMany(s, first + others, depth, budget)
            == match DecodeMany(s, first, depth, budget)
               case Err(e) => Err(e)
               case Ok(g) => Following(g.value, DecodeMany(g.rest, others, depth, g.budget))
    decreases first
  {
    hide DecodeItem;
    if first == 0 {
      FollowingNone(DecodeMany(s, others, depth, budget));
    } else {
      var item := DecodeItem(s, depth, budget);
      if item.Ok? {
        var d := item.value;
        ManyInParts(d.rest, first - 1, others, depth, d.budget);
        var group := DecodeMany(d.rest, first - 1, depth, d.budget);
        if group.Ok? {
          FollowingMore([d.value], group.value.value, DecodeMany(group.value.rest, others, depth, group.value.budget));
        }
      }
    }
  }

  lemma OneOrTwo(s: seq<Byte>, depth: nat, budget: nat)
    requires depth <= MAX_DEPTH + 1 && DecodeItem(s, depth, budget).Ok?
    ensures var k := DecodeItem(s, depth, budget).value;
            && DecodeMany(s, 1, depth, budget) == Ok(Decoded([k.value], k.rest, k.budget))
            && DecodeMany(s, 2, depth, budget)
               == match DecodeItem(k.rest, depth, k.budget)
                  case Err(e) => Err(e)
                  case Ok(v) => Ok(Decoded([k.value, v.value], v.rest, v.budget))
  {
    hide DecodeItem;
    var k := DecodeItem(s, depth, budget).value;
    var second := DecodeItem(k.rest, depth, k.budget);
    var none := DecodeMany(k.rest, 0, depth, k.budget);
    assert [k.value] + none.value.value == [k.value];
    if second.Ok? {
      var v := second.value;
      assert DecodeMany(v.rest, 0, depth, v.budget) == Ok(Decoded([], v.rest, v.budget));
      assert [v.value] + [] == [v.value];
      assert DecodeMany(k.rest, 1, depth, k.budget) == Ok(Decoded([v.value], v.rest, v.budget));
      assert [k.value] + [v.value] == [k.value, v.value];
    }
  }

  // A group in front of what is read up to the break.
  lemma BreakFollows(s: seq<Byte>, stride: nat, depth: nat, budget: nat, have: nat)
    requires depth <= MAX_DEPTH + 1 && 1 <= stride <= 2 && s != [] && s[0] != BREAK && have < MAX_ARRAY_LEN
    ensures DecodeUntilBreak(s, stride, depth, budget, have)
            == match DecodeMany(s, stride, depth, budget)
               case Err(e) => Err(e)
               case Ok(g) => Following(g.value, DecodeUntilBreak(g.rest, stride, depth, g.budget, have + 1))
  {
    hide DecodeMany;
  }

  lemma NoneLeft(s: seq<Byte>, depth: nat, budget: nat)
    requires depth <= MAX_DEPTH + 1
    ensures DecodeMany(s, 0, depth, budget) == Ok(Decoded([], s, budget))
  {
  }

  class StreamDecoder {
    const input: seq<Byte>
    var position: nat
    var budget: nat

    constructor (data: seq<Byte>)
      ensures input == data && position == 0 && budget == MAX_ITEMS
    {
      input := data;
      position := 0;
      budget := MAX_ITEMS;
    }

    ghost predicate Valid()
      reads this
    {
      position <= |input|
    }

    ghost function Rest(): seq<Byte>
      reads this
      requires Valid()
    {
      input[position..]
    }

    // The result and the new state are those of a decoding; a failure says nothing about where it stopped.
    ghost predicate Gives<T>(r: Result<T, ProtocolError>, d: Decoding<T>)
      reads this
      requires Valid()
    {
      match d
      case Ok(got) => r == Ok(got.value) && Rest() == got.rest && budget == got.budget
      case Err(e) => r == Err(e)
    }

    // An integer argument: `u64`, `i64`, `tag`, `array` and `map` of the underlying decoder all begin with it.
    method TakeArgument() returns (r: Result<nat, ProtocolError>)
      requires Valid() && Rest() != [] && Rest()[0] % 32 <= 27
      modifies this`position
      ensures Valid() && position >= old(position)
      ensures match Argument(old(Rest()))
              case Ok((n, rest)) => r == Ok(n) && Rest() == rest && position > old(position)
              case Err(e) => r == Err(e)
    {
      var info := input[position] % 32;
      var width := ArgumentWidth(info);
      if info < 24 {
        position := position + 1;
        return Ok(info);
      }
      if |input| - position < 1 + width {
        return Err(Truncated);
      }
      assert input[position + 1..position + 1 + width] == Rest()[1..1 + width];
      r := Ok(FromBigEndian(input[position + 1..position + 1 + width]));
      position := position + 1 + width;
    }

    // One chunk of a string.
    method TakeDefinite(text: bool) returns (r: Result<seq<Byte>, ProtocolError>)
      requires Valid() && Rest() != [] && Rest()[0] % 32 <= 27
      modifies this`position
      ensures Valid() && position >= old(position)
      ensures match DefiniteString(old(Rest()), text)
              case Ok((chunk, rest)) => r == Ok(chunk) && Rest() == rest && position > old(position)
              case Err(e) => r == Err(e)
    {
      hide Argument, Utf8;
      var n :- TakeArgument();
      if n > |input| - position {
        return Err(Truncated);
      }
      var chunk := input[position..position + n];
      assert chunk == Rest()[..n];
      if text && !Utf8(chunk) {
        return Err(CborError);
      }
      position := position + n;
      r := Ok(chunk);
    }

    method TakeString(text: bool) returns (r: Result<Item, ProtocolError>)
      requires Valid() && Rest() != [] && (Rest()[0] % 32 <= 27 || Rest()[0] % 32 == 31)
      modifies this`position
      ensures Valid() && Gives(r, DecodeString(old(Rest()), text, budget))
    {
      hide DefiniteString, Utf8;
      if input[position] % 32 != 31 {
        var contents :- TakeDefinite(text);
        if |contents| > MAX_STRING_BYTES {
          return Err(CborError);
        }
        return Ok(StringItem(text, contents));
      }
      position := position + 1;
      assert Rest() == old(Rest())[1..];
      var buf: seq<Byte> := [];
      while position < |input| && input[position] != BREAK
        invariant Valid()
        invariant ChunksUntilBreak(Rest(), text, buf) == ChunksUntilBreak(old(Rest())[1..], text, [])
      {
        if input[position] / 32 != (if text then 3 else 2) || input[position] % 32 > 27 {
          return Err(CborError);
        }
        var chunk :- TakeDefinite(text);
        if |buf| + |chunk| > MAX_STRING_BYTES {
          return Err(CborError);
        }
        buf := buf + chunk;
      }
      if position == |input| {
        return Err(Truncated);
      }
      position := position + 1;
      assert Rest() == input[position - 1..][1..];
      r := Ok(StringItem(text, buf));
    }

    method TakeSpecial() returns (r: Result<Item, ProtocolError>)
      requires Valid() && Rest() != [] && Rest()[0] / 32 == 7
      modifies this`position
      ensures Valid() && Gives(r, DecodeSpecial(old(Rest()), budget))
    {
      var info := input[position] % 32;
      if info <= 23 {
        r := Ok(if info < 20 then Simple(info) else if info <= 21 then Bool(info == 21)
                else if info == 22 then Null else Undefined);
        position := position + 1;
      } else if info <= 27 {
        var width := ArgumentWidth(info);
        if |input| - position < 1 + width {
          return Err(Truncated);
        }
        assert input[position + 1..position + 1 + width] == Rest()[1..1 + width];
        r := Ok(if info == 24 then Simple(input[position + 1]) else Float(input[position + 1..position + 1 + width]));
        position := position + 1 + width;
      } else if info == 31 {
        r := Err(Malformed);
      } else {
        r := Err(CborError);
      }
    }

    // One element, or a key and its value.
    method TakeGroup(keyed: bool, depth: nat) returns (r: Result<seq<Item>, ProtocolError>)
      requires Valid() && depth <= MAX_DEPTH
      modifies this
      ensures Valid() && Gives(r, DecodeMany(old(Rest()), if keyed then 2 else 1, depth + 1, old(budget)))
      ensures r.Ok? ==> position > old(position)
      decreases MAX_DEPTH - depth, 1
    {
      hide DecodeItem;
      var first :- ItemAt(depth + 1);
      OneOrTwo(old(Rest()), depth + 1, old(budget));
      if !keyed {
        return Ok([first]);
      }
      var second :- ItemAt(depth + 1);
      r := Ok([first, second]);
    }

    // The elements of an array, or the keys and values of a map, whose head announced their number.
    method TakeCounted(keyed: bool, n: nat, depth: nat) returns (r: Result<seq<Item>, ProtocolError>)
      requires Valid() && depth <= MAX_DEPTH
      modifies this
      ensures Valid() && Gives(r, DecodeMany(old(Rest()), if keyed then 2 * n else n, depth + 1, old(budget)))
      decreases MAX_DEPTH - depth, 2
    {
      hide DecodeMany;
      var stride := if keyed then 2 else 1;
      ghost var total := DecodeMany(Rest(), if keyed then 2 * n else n, depth + 1, budget);
      var items: seq<Item> := [];
      FollowingNone(total);
      for i := 0 to n
        invariant Valid()
        invariant Following(items, DecodeMany(Rest(), if keyed then 2 * (n - i) else n - i, depth + 1, budget)) == total
      {
        ghost var left := if keyed then 2 * (n - i - 1) else n - i - 1;
        ManyInParts(Rest(), stride, left, depth + 1, budget);
        var group :- TakeGroup(keyed, depth);
        FollowingMore(items, group, DecodeMany(Rest(), left, depth + 1, budget));
        items := items + group;
      }
      NoneLeft(Rest(), depth + 1, budget);
      assert items + [] == items;
      r := Ok(items);
    }

    method TakeUntilBreak(keyed: bool, depth: nat) returns (r: Result<seq<Item>, ProtocolError>)
      requires Valid() && depth <= MAX_DEPTH
      modifies this
      ensures Valid() && Gives(r, DecodeUntilBreak(old(Rest()), if keyed then 2 else 1, depth + 1, old(budget), 0))
      decreases MAX_DEPTH - depth, 2
    {
      hide DecodeMany;
      var stride := if keyed then 2 else 1;
      ghost var total := DecodeUntilBreak(Rest(), stride, depth + 1, budget, 0);
      var items: seq<Item> := [];
      var have := 0;
      FollowingNone(total);
      while position < |input| && input[position] != BREAK
        invariant Valid()
        invariant Following(items, DecodeUntilBreak(Rest(), stride, depth + 1, budget, have)) == total
        decreases |input| - position
      {
        if have >= MAX_ARRAY_LEN {
          return Err(CborError);
        }
        BreakFollows(Rest(), stride, depth + 1, budget, have);
        var group :- TakeGroup(keyed, depth);
        FollowingMore(items, group, DecodeUntilBreak(Rest(), stride, depth + 1, budget, have + 1));
        items := items + group;
        have := have + 1;
      }
      if position == |input| {
        return Err(Truncated);
      }
      position := position + 1;
      assert Rest() == input[position - 1..][1..];
      assert items + [] == items;
      r := Ok(items);
    }

    /** Takes one item, as `DecodeItem` says, off the front of what remains. */
    method ItemAt(depth: nat) returns (r: Result<Item, ProtocolError>)
      requires Valid() && depth <= MAX_DEPTH + 1
      modifies this
      ensures Valid() && Gives(r, DecodeItem(old(Rest()), depth, old(budget)))
      decreases MAX_DEPTH + 1 - depth, 0
    {
      hide DecodeString, DecodeSpecial, DecodeMany, DecodeUntilBreak, Argument;
      if depth > MAX_DEPTH {
        return Err(DepthLimit);
      }
      if budget == 0 {
        return Err(ItemLimit);
      }
      budget := budget - 1;
      if position == |input| {
        return Err(Truncated);
      }
      var major, info := input[position] / 32, input[position] % 32;
      if major == 7 {
        r := TakeSpecial();
      } else if info > 27 && !(info == 31 && 2 <= major <= 5) {
        r := Err(CborError);
      } else if major == 2 || major == 3 {
        r := TakeString(major == 3);
      } else if info == 31 {
        position := position + 1;
        assert Rest() == old(Rest())[1..];
        var items :- TakeUntilBreak(major == 5, depth);
        r := Ok(Container(major == 5, items));
      } else {
        var n :- TakeArgument();
        r := TakeAfterHead(major, n, depth);
      }
    }

    method TakeAfterHead(major: nat, n: nat, depth: nat) returns (r: Result<Item, ProtocolError>)
      requires Valid() && depth <= MAX_DEPTH
      modifies this
      ensures Valid() && Gives(r, DecodeAfterHead(major, n, old(Rest()), depth, old(budget)))
      decreases MAX_DEPTH - depth, 3
    {
      hide DecodeItem, DecodeMany;
      if major == 0 {
        r := Ok(UInt(n));
      } else if major == 1 {
        r := if n > I64_MAX then Err(CborError) else Ok(Int(-1 - n));
      } else if major == 6 {
        var inner :- ItemAt(depth + 1);
        r := Ok(Tag(n, inner));
      } else if n > MAX_ARRAY_LEN {
        r := Err(CborError);
      } else {
        var items :- TakeCounted(major == 5, n, depth);
        r := Ok(Container(major == 5, items));
      }
    }

    method NextItem() returns (r: Result<Item, ProtocolError>)
      requires Valid()
      modifies this
      ensures Valid()
      ensures old(Rest()) == [] ==> r == Err(Truncated)
      ensures old(Rest()) != [] ==> Gives(r, DecodeItem(old(Rest()), 0, old(budget)))
    {
      if position == |input| {
        return Err(Truncated);
      }
      r := ItemAt(0);
    }
  }

  // The items found so far in front of what the rest of the stream gives.
  lemma StreamContinues(done: seq<Item>, s: seq<Byte>, budget: nat)
    requires s != [] && DecodeItem(s, 0, budget).Ok?
    ensures var d := DecodeItem(s, 0, budget).value;
            Joined(done, DecodeItems(s, budget)) == Joined(done + [d.value], DecodeItems(d.rest, d.budget))
  {
    hide DecodeItem;
    var d := DecodeItem(s, 0, budget).value;
    var others := DecodeItems(d.rest, d.budget);
    assert others.Ok? ==> done + ([d.value] + others.value) == (done + [d.value]) + others.value;
  }

  /** The decoding loop computes `Cbor.DecodeStream`. */
  method DecodeAll(data: seq<Byte>) returns (r: Result<seq<Item>, ProtocolError>)
    ensures r == DecodeStream(data)
  {
    hide DecodeItem;
    var d := new StreamDecoder(data);
    var out: seq<Item> := [];
    assert d.Rest() == data;
    assert Joined([], DecodeStream(data)) == DecodeStream(data) by {
      assert DecodeStream(data).Ok? ==> [] + DecodeStream(data).value == DecodeStream(data).value;
    }
    while d.position < |data|
      invariant d.Valid() && d.input == data
      invariant Joined(out, DecodeItems(d.Rest(), d.budget)) == DecodeStream(data)
      decreases |data| - d.position
    {
      ghost var s, b := d.Rest(), d.budget;
      var x :- d.NextItem();
      StreamContinues(out, s, b);
      out := out + [x];
    }
    assert out + [] == out;
    r := Ok(out);
  }
}

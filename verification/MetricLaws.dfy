/**
  What the checks of names and label values come to: the characters a name may have, and lengths in bytes of UTF-8.
 */
module MetricLaws {
  import opened Wrappers
  import opened Bytes
  import opened Metrics
  import Cbor

  const SMALL: string := "abcdefghijklmnopqrstuvwxyz"
  const CAPITAL: string := "ABCDEFGHIJKLMNOPQRSTUVWXYZ"
  const DIGITS: string := "0123456789"

  predicate Listed(c: char, colon: bool) {
    c in SMALL || c in CAPITAL || c in DIGITS || c == '_' || (colon && c == ':')
  }

  lemma SmallLetters(c: char)
    ensures c in SMALL <==> 'a' <= c <= 'z'
  {
    if 'a' <= c <= 'z' {
      assert SMALL[c as int - 97] == c;
    }
  }

  lemma CapitalLetters(c: char)
    ensures c in CAPITAL <==> 'A' <= c <= 'Z'
  {
    if 'A' <= c <= 'Z' {
      assert CAPITAL[c as int - 65] == c;
    }
  }

  lemma TenDigits(c: char)
    ensures c in DIGITS <==> Digit(c)
  {
    if Digit(c) {
      assert DIGITS[c as int - 48] == c;
    }
  }

  lemma NameCharIsListed(c: char, colon: bool)
    ensures NameChar(c, colon) <==> Listed(c, colon)
  {
    SmallLetters(c);
    CapitalLetters(c);
    TenDigits(c);
    hide SMALL, CAPITAL, DIGITS;
  }

  lemma {:induction false} NamesAreSingleBytes(name: string, colon: bool)
    requires forall i :: 0 <= i < |name| ==> NameChar(name[i], colon)
    ensures ByteLength(name) == |name|
  {
    if name != [] {
      NamesAreSingleBytes(name[1..], colon);
    }
  }

  // Made of these characters, beginning with none of the digits and not with two underscores.
  predicate PlainName(name: string, colon: bool) {
    && name != [] && (forall i :: 0 <= i < |name| ==> Listed(name[i], colon))
    && name[0] !in DIGITS && !("__" <= name)
  }

  lemma PlainIsWellFormed(name: string, colon: bool)
    ensures PlainName(name, colon) <==> WellFormedName(name, colon) && !Reserved(name)
  {
    hide Listed, NameChar, Digit;
    forall i | 0 <= i < |name|
      ensures NameChar(name[i], colon) <==> Listed(name[i], colon)
    {
      NameCharIsListed(name[i], colon);
    }
    if name != [] {
      TenDigits(name[0]);
      assert "__" <= name <==> Reserved(name) by {
        if Reserved(name) {
          assert name[..2] == "__";
        }
      }
    }
  }

  /** A metric name is up to 128 of the listed characters or colons, a label name up to 64 without colons. */
  lemma NamesAreExact(name: string)
    ensures NameProblem(name).None? <==> PlainName(name, true) && |name| <= 128
    ensures LabelNameProblem(name).None? <==> PlainName(name, false) && |name| <= 64
  {
    PlainIsWellFormed(name, true);
    PlainIsWellFormed(name, false);
    if WellFormedName(name, true) {
      NamesAreSingleBytes(name, true);
    }
    if WellFormedName(name, false) {
      NamesAreSingleBytes(name, false);
    }
  }

  // ---- Lengths ----

  // The UTF-8 form of a scalar value.
  function Utf8Of(c: char): seq<Byte> {
    var n := c as int;
    if n < 0x80 then [n]
    else if n < 0x800 then [0xc0 + n / 64, 0x80 + n % 64]
    else if n < 0x1_0000 then [0xe0 + n / 4096, 0x80 + n / 64 % 64, 0x80 + n % 64]
    else [0xf0 + n / 262144, 0x80 + n / 4096 % 64, 0x80 + n / 64 % 64, 0x80 + n % 64]
  }

  function Utf8Text(s: string): seq<Byte> {
    if s == [] then [] else Utf8Of(s[0]) + Utf8Text(s[1..])
  }

  lemma FormOfChar(c: char)
    ensures Cbor.CharLength(Utf8Of(c)) == |Utf8Of(c)| == Utf8Length(c)
  {
  }

  /** The length that is limited is the length of the text in UTF-8, which the wire decoder accepts as text. */
  lemma {:induction false} LengthIsUtf8(s: string)
    ensures ByteLength(s) == |Utf8Text(s)| && Cbor.Utf8(Utf8Text(s))
  {
    if s != [] {
      LengthIsUtf8(s[1..]);
      FormOfChar(s[0]);
      hide Utf8Of, Cbor.CharLength;
      var first := Utf8Of(s[0]);
      assert first[|first|..] == [];
      assert Cbor.Utf8(first);
      Cbor.Utf8Concatenation(first, Utf8Text(s[1..]));
    }
  }

  // ---- Values ----

  // No control bytes but the line end.
  predicate PlainBytes(s: seq<Byte>) {
    forall i :: 0 <= i < |s| ==> (s[i] < 0x20 ==> s[i] == 10) && s[i] != 0x7f
  }

  predicate PrintableChar(c: char) {
    (c as int >= 0x20 || c == '\n') && c as int != 0x7f
  }

  lemma CharIsPlain(c: char)
    ensures PlainBytes(Utf8Of(c)) <==> PrintableChar(c)
  {
    var s := Utf8Of(c);
    if |s| == 1 {
      assert s[0] == c as int;
      assert c == '\n' <==> c as int == 10;
    }
  }

  lemma {:induction false} PrintableIsPlain(s: string)
    ensures PlainBytes(Utf8Text(s)) <==> Printable(s)
  {
    hide Utf8Of;
    if s != [] {
      PrintableIsPlain(s[1..]);
      CharIsPlain(s[0]);
      var first, rest := Utf8Of(s[0]), Utf8Text(s[1..]);
      PlainSum(first, rest);
      assert Printable(s) <==> PrintableChar(s[0]) && Printable(s[1..]) by {
        assert forall i :: 0 < i < |s| ==> s[1..][i - 1] == s[i];
        assert forall i :: 0 <= i < |s| - 1 ==> s[1..][i] == s[i + 1];
      }
    }
  }

  lemma PlainSum(a: seq<Byte>, b: seq<Byte>)
    ensures PlainBytes(a + b) <==> PlainBytes(a) && PlainBytes(b)
  {
    assert forall i :: 0 <= i < |a| ==> (a + b)[i] == a[i];
    assert forall i :: 0 <= i < |b| ==> (a + b)[|a| + i] == b[i];
  }

  /** A label value is any text of up to 128 bytes of UTF-8 without control bytes other than line ends. */
  lemma ValuesAreExact(value: string)
    ensures LabelValueProblem(value).None? <==> |Utf8Text(value)| <= 128 && PlainBytes(Utf8Text(value))
  {
    LengthIsUtf8(value);
    PrintableIsPlain(value);
  }
}

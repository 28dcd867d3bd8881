/**
  Reading the text back: a parser of the line format, and the proof that it recovers exactly the emitted points.
 */
module PrometheusText {
  import opened Wrappers
  import opened Metrics
  import opened Prometheus
  import PrometheusLaws
  import Sequences

  // A line's fields; value and timestamp as printed.
  datatype Sample = Sample(name: string, labels: seq<Label>, value: string, timestamp: string)

  // ---- The parser ----

  // What stands before the first `c`, and what follows it.
  function Until(s: string, c: char): (r: Option<(string, string)>)
    ensures r.Some? ==> |r.value.1| < |s|
  {
    if s == [] then None
    else if s[0] == c then Some(([], s[1..]))
    else
      match Until(s[1..], c)
      case Some((front, rest)) => Some(([s[0]] + front, rest))
      case None => None
  }

  function Unescaped(c: char): Option<char> {
    if c == '\\' then Some('\\') else if c == '"' then Some('"') else if c == 'n' then Some('\n') else None
  }

  // A label value up to its closing quote.
  function ParseValue(s: string): (r: Option<(string, string)>)
    ensures r.Some? ==> |r.value.1| < |s|
  {
    if s == [] then None
    else if s[0] == '"' then Some(([], s[1..]))
    else if s[0] == '\\' then
      if |s| < 2 || Unescaped(s[1]).None? then None
      else
        match ParseValue(s[2..])
        case Some((others, rest)) => Some(([Unescaped(s[1]).value] + others, rest))
        case None => None
    else
      match ParseValue(s[1..])
      case Some((others, rest)) => Some(([s[0]] + others, rest))
      case None => None
  }

  function ParseLabel(s: string): (r: Option<(Label, string)>)
    ensures r.Some? ==> |r.value.1| < |s|
  {
    match Until(s, '=')
    case None => None
    case Some((name, rest)) =>
      if rest == [] || rest[0] != '"' then None
      else
        match ParseValue(rest[1..])
        case Some((value, rest)) => Some(((name, value), rest))
        case None => None
  }

  // One label or more, up to the closing brace.
  function ParseLabelList(s: string): (r: Option<(seq<Label>, string)>)
    ensures r.Some? ==> |r.value.1| < |s|
    decreases |s|
  {
    match ParseLabel(s)
    case None => None
    case Some((first, rest)) =>
      if rest == [] then None
      else if rest[0] == '}' then Some(([first], rest[1..]))
      else if rest[0] != ',' then None
      else
        match ParseLabelList(rest[1..])
        case Some((others, rest)) => Some(([first] + others, rest))
        case None => None
  }

  function ParseLabels(s: string): (r: Option<(seq<Label>, string)>)
    ensures r.Some? ==> |r.value.1| < |s|
  {
    if s != [] && s[0] == '}' then Some(([], s[1..])) else ParseLabelList(s)
  }

  function ParseLine(s: string): (r: Option<(Sample, string)>)
    ensures r.Some? ==> |r.value.1| < |s|
  {
    match Until(s, '{')
    case None => None
    case Some((name, rest)) =>
      match ParseLabels(rest)
      case None => None
      case Some((labels, rest)) =>
        if rest == [] || rest[0] != ' ' then None
        else
          match Until(rest[1..], ' ')
          case None => None
          case Some((value, rest)) =>
            match Until(rest, '\n')
            case None => None
            case Some((timestamp, rest)) => Some((Sample(name, labels, value, timestamp), rest))
  }

  function ParseText(s: string): Option<seq<Sample>>
    decreases |s|
  {
    if s == [] then Some([])
    else
      match ParseLine(s)
      case None => None
      case Some((sample, rest)) =>
        match ParseText(rest)
        case Some(others) => Some([sample] + others)
        case None => None
  }

  // ---- What each field reads back as ----

  predicate Without(s: string, c: char) {
    forall i :: 0 <= i < |s| ==> s[i] != c
  }

  lemma {:induction false} UntilReads(front: string, c: char, rest: string)
    requires Without(front, c)
    ensures Until(front + [c] + rest, c) == Some((front, rest))
  {
    var s := front + [c] + rest;
    if front == [] {
      assert s[1..] == rest;
    } else {
      UntilReads(front[1..], c, rest);
      assert s[1..] == front[1..] + [c] + rest;
      assert [front[0]] + front[1..] == front;
    }
  }

  /** An escaped label value reads back, up to its closing quote. */
  lemma {:induction false} ValueReads(v: string, rest: string)
    ensures ParseValue(Escape(v) + "\"" + rest) == Some((v, rest))
  {
    var s := Escape(v) + "\"" + rest;
    if v == [] {
      assert s[1..] == rest;
    } else {
      ValueReads(v[1..], rest);
      var more := Escape(v[1..]) + "\"" + rest;
      Sequences.Associative(EscapeChar(v[0]), Escape(v[1..]), "\"");
      Sequences.Associative(EscapeChar(v[0]), Escape(v[1..]) + "\"", rest);
      CharReads(v[0], v[1..], more, rest);
      Sequences.FirstAndRest(v);
    }
  }

  lemma CharReads(c: char, others: string, more: string, rest: string)
    requires ParseValue(more) == Some((others, rest))
    ensures ParseValue(EscapeChar(c) + more) == Some(([c] + others, rest))
  {
    var e := EscapeChar(c);
    var s := e + more;
    Sequences.Halves(e, more);
    assert s[0] == e[0] && (|e| == 2 ==> s[1] == e[1]);
  }

  /** Escaping leaves no line end in a value. */
  lemma {:induction false} EscapeHasNoLineEnd(v: string)
    ensures Without(Escape(v), '\n')
  {
    if v != [] {
      EscapeHasNoLineEnd(v[1..]);
    }
  }

  predicate PlainLabel(l: Label) {
    l.0 != [] && Without(l.0, '=') && l.0[0] != '}'
  }

  predicate PlainLabels(labels: seq<Label>) {
    forall i :: 0 <= i < |labels| ==> PlainLabel(labels[i])
  }

  lemma LabelReads(l: Label, rest: string)
    requires PlainLabel(l)
    ensures ParseLabel(LabelText(l) + rest) == Some((l, rest))
  {
    hide Escape, ParseValue, Until;
    var tail := "\"" + (Escape(l.1) + "\"" + rest);
    assert LabelText(l) + rest == l.0 + "=" + tail;
    UntilReads(l.0, '=', tail);
    assert tail[1..] == Escape(l.1) + "\"" + rest;
    ValueReads(l.1, rest);
  }

  lemma {:induction false} LabelListReads(labels: seq<Label>, rest: string)
    requires PlainLabels(labels) && labels != []
    ensures ParseLabelList(LabelsText(labels) + "}" + rest) == Some((labels, rest))
  {
    hide ParseLabel, LabelText, LabelsText, PlainLabel;
    var s := LabelsText(labels) + "}" + rest;
    LabelsStep(labels, 0);
    assert labels[0..] == labels;
    if |labels| == 1 {
      var tail := "}" + rest;
      NoLabels(labels[1..]);
      assert s == LabelText(labels[0]) + tail && tail[1..] == rest;
      LabelReads(labels[0], tail);
      assert labels == [labels[0]];
    } else {
      var more := LabelsText(labels[1..]) + "}" + rest;
      var tail := "," + more;
      assert s == LabelText(labels[0]) + tail && tail[1..] == more;
      LabelReads(labels[0], tail);
      LabelListReads(labels[1..], rest);
      assert [labels[0]] + labels[1..] == labels;
    }
  }

  lemma LabelsRead(labels: seq<Label>, rest: string)
    requires PlainLabels(labels)
    ensures ParseLabels(LabelsText(labels) + "}" + rest) == Some((labels, rest))
  {
    hide ParseLabelList;
    var s := LabelsText(labels) + "}" + rest;
    if labels == [] {
      assert s[0] == '}' && s[1..] == rest;
    } else {
      LabelListReads(labels, rest);
      FirstOfLabels(labels);
      assert s[0] == LabelsText(labels)[0];
    }
  }

  lemma FirstOfLabels(labels: seq<Label>)
    requires PlainLabels(labels) && labels != []
    ensures LabelsText(labels) != [] && LabelsText(labels)[0] != '}'
  {
    var l := labels[0];
    assert PlainLabel(l);
    assert LabelsText(labels)[0] == l.0[0];
  }

  // ---- Decimal numbers ----

  function DigitValue(c: char): nat {
    if '0' <= c <= '9' then c as int - '0' as int else 0
  }

  function DecimalValue(s: string): nat {
    if s == [] then 0 else 10 * DecimalValue(s[..|s| - 1]) + DigitValue(s[|s| - 1])
  }

  lemma {:induction false} DecimalReads(n: nat)
    ensures DecimalValue(Decimal(n)) == n && Without(Decimal(n), '\n')
  {
    hide DigitChar, DigitValue;
    DigitReads(n % 10);
    if n < 10 {
      assert Decimal(n)[..0] == [];
    } else {
      DecimalReads(n / 10);
      assert Decimal(n)[..|Decimal(n)| - 1] == Decimal(n / 10);
    }
  }

  lemma DigitReads(d: nat)
    requires d < 10
    ensures DigitValue(DigitChar(d)) == d && DigitChar(d) != '\n'
  {
  }

  // ---- Lines ----

  function Shown(p: Point, fmt: nat -> string): Sample
    requires p.timestamp > 0
  {
    Sample(p.name, p.labels, fmt(p.value), Decimal(p.timestamp))
  }

  function AllShown(ps: seq<Point>, fmt: nat -> string): seq<Sample>
    requires AllPositive(ps)
  {
    if ps == [] then [] else [Shown(ps[0], fmt)] + AllShown(ps[1..], fmt)
  }

  // What makes a line readable; valid points have it.
  ghost predicate Readable(p: Point, fmt: nat -> string) {
    && p.timestamp > 0 && Without(p.name, '{') && PlainLabels(p.labels)
    && Without(fmt(p.value), ' ')
  }

  lemma ValidIsReadable(p: Point, fmt: nat -> string)
    requires ValidPoint(p) && GoodFormat(fmt)
    ensures Readable(p, fmt)
  {
    hide ByteLength;
    forall i | 0 <= i < |p.labels|
      ensures PlainLabel(p.labels[i])
    {
      assert GoodLabel(p.labels[i]);
    }
  }

  lemma LineReads(p: Point, fmt: nat -> string, rest: string)
    requires Readable(p, fmt)
    ensures ParseLine(Line(p, fmt) + rest) == Some((Shown(p, fmt), rest))
  {
    hide Until, ParseLabels, LabelsText, Decimal, PlainLabels;
    var s := Line(p, fmt) + rest;
    var t := Decimal(p.timestamp) + "\n" + rest;
    var v := fmt(p.value) + " " + t;
    var l := LabelsText(p.labels) + "}" + (" " + v);
    assert s == p.name + "{" + l;
    UntilReads(p.name, '{', l);
    LabelsRead(p.labels, " " + v);
    assert (" " + v)[1..] == v;
    UntilReads(fmt(p.value), ' ', t);
    DecimalReads(p.timestamp);
    UntilReads(Decimal(p.timestamp), '\n', rest);
  }

  ghost predicate AllReadable(ps: seq<Point>, fmt: nat -> string) {
    forall i :: 0 <= i < |ps| ==> Readable(ps[i], fmt)
  }

  lemma {:induction false} LinesRead(ps: seq<Point>, fmt: nat -> string)
    requires AllPositive(ps) && AllReadable(ps, fmt)
    ensures ParseText(Lines(ps, fmt)) == Some(AllShown(ps, fmt))
  {
    hide ParseLine, Line, Shown, Readable;
    if ps != [] {
      LinesRead(ps[1..], fmt);
      LineReads(ps[0], fmt, Lines(ps[1..], fmt));
      LineIsNotEmpty(ps[0], fmt);
    }
  }

  lemma LineIsNotEmpty(p: Point, fmt: nat -> string)
    requires p.timestamp > 0
    ensures Line(p, fmt) != []
  {
  }

  // ---- Whole batches ----

  lemma {:induction false} FilteredFrom(ps: seq<Point>)
    ensures forall i :: 0 <= i < |Filtered(ps)| ==> Filtered(ps)[i] in ps
  {
    hide Encodable;
    if ps != [] {
      FilteredFrom(ps[1..]);
    }
  }

  lemma {:induction false} SortedFrom(ps: seq<Point>)
    ensures forall i :: 0 <= i < |Sorted(ps)| ==> Sorted(ps)[i] in ps
  {
    hide Insert;
    if ps != [] {
      SortedFrom(ps[1..]);
      PrometheusLaws.InsertMembers(ps[0], Sorted(ps[1..]));
    }
  }

  predicate AllValid(ps: seq<Point>) {
    forall i :: 0 <= i < |ps| ==> ValidPoint(ps[i])
  }

  lemma EmittedAreValid(points: seq<Point>)
    requires AllValid(points)
    ensures AllValid(Emitted(points))
  {
    hide ValidPoint, Encodable;
    var filtered := Filtered(points);
    FilteredFrom(points);
    SortedFrom(filtered);
    PrometheusLaws.SurvivorMembers(Sorted(filtered));
    assert Emitted(points) == Survivors(Sorted(filtered));
    forall i | 0 <= i < |Emitted(points)|
      ensures ValidPoint(Emitted(points)[i])
    {
      var p := Emitted(points)[i];
      var j :| 0 <= j < |Sorted(filtered)| && Sorted(filtered)[j] == p;
      var k :| 0 <= k < |filtered| && filtered[k] == p;
      assert filtered[k] in points;
    }
  }

  /** The text of valid points parses back to exactly the emitted ones, in order. */
  lemma TextRoundTrip(points: seq<Point>, fmt: nat -> string)
    requires AllValid(points) && GoodFormat(fmt)
    ensures ParseText(Lines(Emitted(points), fmt)) == Some(AllShown(Emitted(points), fmt))
  {
    hide ValidPoint, GoodFormat, Readable, Emitted, ParseText, Lines;
    EmittedAreValid(points);
    forall i | 0 <= i < |Emitted(points)|
      ensures Readable(Emitted(points)[i], fmt)
    {
      ValidIsReadable(Emitted(points)[i], fmt);
    }
    LinesRead(Emitted(points), fmt);
  }

  // The same series, time and value; the kind of a metric is not part of its text.
  predicate SamePoint(a: Point, b: Point) {
    KeyOf(a) == KeyOf(b) && a.value == b.value
  }

  lemma ShownDetermines(a: Point, b: Point, fmt: nat -> string)
    requires a.timestamp > 0 && b.timestamp > 0 && Finite(a.value) && Finite(b.value) && GoodFormat(fmt)
    requires Shown(a, fmt) == Shown(b, fmt)
    ensures SamePoint(a, b)
  {
    hide Decimal, Finite;
    DecimalReads(a.timestamp);
    DecimalReads(b.timestamp);
  }

  lemma {:induction false} AllShownDetermine(a: seq<Point>, b: seq<Point>, fmt: nat -> string)
    requires AllPositive(a) && AllPositive(b) && AllEncodable(a) && AllEncodable(b) && GoodFormat(fmt)
    requires AllShown(a, fmt) == AllShown(b, fmt)
    ensures |a| == |b| && forall i :: 0 <= i < |a| ==> SamePoint(a[i], b[i])
  {
    hide SamePoint, Shown, GoodFormat;
    if a != [] {
      assert AllShown(a, fmt)[0] == AllShown(b, fmt)[0];
      ShownDetermines(a[0], b[0], fmt);
      assert AllShown(a, fmt)[1..] == AllShown(a[1..], fmt) && AllShown(b, fmt)[1..] == AllShown(b[1..], fmt);
      AllShownDetermine(a[1..], b[1..], fmt);
    }
  }

  /** Batches of valid points with the same text emit the same points. */
  lemma TextDeterminesPoints(p: seq<Point>, q: seq<Point>, fmt: nat -> string)
    requires AllValid(p) && AllValid(q) && GoodFormat(fmt)
    requires Lines(Emitted(p), fmt) == Lines(Emitted(q), fmt)
    ensures |Emitted(p)| == |Emitted(q)|
    ensures forall i :: 0 <= i < |Emitted(p)| ==> SamePoint(Emitted(p)[i], Emitted(q)[i])
  {
    hide AllValid, GoodFormat, Emitted, ParseText, Lines, SamePoint, AllShown;
    TextRoundTrip(p, fmt);
    TextRoundTrip(q, fmt);
    AllShownDetermine(Emitted(p), Emitted(q), fmt);
  }

  // ---- One line each ----

  function LineEnds(s: string): nat {
    if s == [] then 0 else (if s[0] == '\n' then 1 else 0) + LineEnds(s[1..])
  }

  lemma {:induction false} LineEndsConcatenate(a: string, b: string)
    ensures LineEnds(a + b) == LineEnds(a) + LineEnds(b)
  {
    if a == [] {
      assert a + b == b;
    } else {
      LineEndsConcatenate(a[1..], b);
      assert (a + b)[1..] == a[1..] + b && (a + b)[0] == a[0];
    }
  }

  lemma {:induction false} NoLineEnds(s: string)
    requires Without(s, '\n')
    ensures LineEnds(s) == 0
  {
    if s != [] {
      NoLineEnds(s[1..]);
    }
  }

  // Label names without a line end; their values have none once escaped.
  predicate NamesOnOneLine(labels: seq<Label>) {
    forall i :: 0 <= i < |labels| ==> Without(labels[i].0, '\n')
  }

  lemma LabelOnOneLine(l: Label)
    requires Without(l.0, '\n')
    ensures Without(LabelText(l), '\n')
  {
    EscapeHasNoLineEnd(l.1);
    hide Escape;
  }

  lemma {:induction false} LabelsOnOneLine(labels: seq<Label>)
    requires NamesOnOneLine(labels)
    ensures Without(LabelsText(labels), '\n')
  {
    hide LabelText;
    if labels != [] {
      LabelOnOneLine(labels[0]);
      LabelsOnOneLine(labels[1..]);
    }
  }

  lemma LineEndsOnce(p: Point, fmt: nat -> string)
    requires ValidPoint(p) && GoodFormat(fmt)
    ensures LineEnds(Line(p, fmt)) == 1
  {
    ValidOnOneLine(p, fmt);
    hide ValidPoint, GoodFormat, LabelsText, Decimal, LineEnds;
    LabelsOnOneLine(p.labels);
    DecimalReads(p.timestamp);
    var front := p.name + "{" + LabelsText(p.labels) + "} " + fmt(p.value) + " " + Decimal(p.timestamp);
    NoLineEnds(front);
    LineEndsConcatenate(front, "\n");
    OneLineEnd();
  }

  lemma OneLineEnd()
    ensures LineEnds("\n") == 1
  {
    assert "\n"[1..] == "";
  }

  lemma ValidOnOneLine(p: Point, fmt: nat -> string)
    requires ValidPoint(p) && GoodFormat(fmt)
    ensures Without(p.name, '\n') && NamesOnOneLine(p.labels) && Without(fmt(p.value), '\n')
  {
    hide ByteLength;
    forall i | 0 <= i < |p.labels|
      ensures Without(p.labels[i].0, '\n')
    {
      assert GoodLabel(p.labels[i]);
    }
  }

  lemma {:induction false} LinesEndOnceEach(ps: seq<Point>, fmt: nat -> string)
    requires AllPositive(ps) && AllValid(ps) && GoodFormat(fmt)
    ensures LineEnds(Lines(ps, fmt)) == |ps|
  {
    hide ValidPoint, GoodFormat, Line, LineEnds;
    if ps == [] {
      NoLineEnds([]);
    } else {
      LinesEndOnceEach(ps[1..], fmt);
      LineEndsOnce(ps[0], fmt);
      LineEndsConcatenate(Line(ps[0], fmt), Lines(ps[1..], fmt));
    }
  }

  /** The text of a batch of valid points has exactly one line end for each emitted point. */
  lemma OneLineEach(points: seq<Point>, fmt: nat -> string)
    requires AllValid(points) && GoodFormat(fmt)
    ensures LineEnds(Lines(Emitted(points), fmt)) == |Emitted(points)|
  {
    hide AllValid, GoodFormat, Emitted, Lines, LineEnds;
    EmittedAreValid(points);
    LinesEndOnceEach(Emitted(points), fmt);
  }
}

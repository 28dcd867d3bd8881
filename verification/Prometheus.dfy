/**
  The Prometheus text of a batch: valid points in order of their series and time, the last of equal ones, one line each.
 */
module Prometheus {
  import opened Metrics
  import Sequences

  // A series at one time.
  datatype Key = Key(name: string, labels: seq<Label>, timestamp: int)

  function KeyOf(p: Point): Key {
    Key(p.name, p.labels, p.timestamp)
  }

  // ---- The order of keys ----

  predicate LessLabel(a: Label, b: Label) {
    LessText(a.0, b.0) || (a.0 == b.0 && LessText(a.1, b.1))
  }

  predicate LessLabels(a: seq<Label>, b: seq<Label>) {
    b != [] && (a == [] || LessLabel(a[0], b[0]) || (a[0] == b[0] && LessLabels(a[1..], b[1..])))
  }

  predicate LessKey(a: Key, b: Key) {
    || LessText(a.name, b.name)
    || (a.name == b.name
        && (LessLabels(a.labels, b.labels) || (a.labels == b.labels && a.timestamp < b.timestamp)))
  }

  lemma LabelIsTotal(a: Label, b: Label)
    ensures LessLabel(a, b) || LessLabel(b, a) || a == b
    ensures !(LessLabel(a, b) && LessLabel(b, a)) && !LessLabel(a, a)
  {
    hide LessText;
    TextIsTotal(a.0, b.0);
    TextIsTotal(a.1, b.1);
    TextIsTotal(a.0, a.0);
    TextIsTotal(a.1, a.1);
  }

  lemma LabelIsTransitive(a: Label, b: Label, c: Label)
    requires LessLabel(a, b) && LessLabel(b, c)
    ensures LessLabel(a, c)
  {
    hide LessText;
    if LessText(a.0, b.0) && LessText(b.0, c.0) {
      TextIsTransitive(a.0, b.0, c.0);
    } else if LessText(a.1, b.1) && LessText(b.1, c.1) {
      TextIsTransitive(a.1, b.1, c.1);
    }
  }

  lemma {:induction false} LabelsAreTotal(a: seq<Label>, b: seq<Label>)
    ensures LessLabels(a, b) || LessLabels(b, a) || a == b
    ensures !(LessLabels(a, b) && LessLabels(b, a)) && !LessLabels(a, a)
  {
    hide LessLabel;
    if a != [] && b != [] {
      LabelIsTotal(a[0], b[0]);
      if a[0] == b[0] {
        LabelsAreTotal(a[1..], b[1..]);
        assert a == [a[0]] + a[1..] && b == [b[0]] + b[1..];
      }
    }
    if a != [] {
      LabelIsTotal(a[0], a[0]);
      LabelsAreTotal(a[1..], a[1..]);
    }
  }

  lemma {:induction false} LabelsAreTransitive(a: seq<Label>, b: seq<Label>, c: seq<Label>)
    requires LessLabels(a, b) && LessLabels(b, c)
    ensures LessLabels(a, c)
  {
    hide LessLabel;
    if a != [] {
      if LessLabel(a[0], b[0]) && LessLabel(b[0], c[0]) {
        LabelIsTransitive(a[0], b[0], c[0]);
      } else if a[0] == b[0] && b[0] == c[0] && LessLabels(a[1..], b[1..]) && LessLabels(b[1..], c[1..]) {
        LabelsAreTransitive(a[1..], b[1..], c[1..]);
      }
    }
  }

  lemma KeyIsTotal(a: Key, b: Key)
    ensures LessKey(a, b) || LessKey(b, a) || a == b
    ensures !(LessKey(a, b) && LessKey(b, a)) && !LessKey(a, a)
  {
    hide LessText, LessLabels;
    TextIsTotal(a.name, b.name);
    TextIsTotal(a.name, a.name);
    LabelsAreTotal(a.labels, b.labels);
    LabelsAreTotal(a.labels, a.labels);
  }

  lemma KeyIsTransitive(a: Key, b: Key, c: Key)
    requires LessKey(a, b) && LessKey(b, c)
    ensures LessKey(a, c)
  {
    hide LessText, LessLabels;
    if LessText(a.name, b.name) && LessText(b.name, c.name) {
      TextIsTransitive(a.name, b.name, c.name);
    } else if LessLabels(a.labels, b.labels) && LessLabels(b.labels, c.labels) {
      LabelsAreTransitive(a.labels, b.labels, c.labels);
    }
  }

  // ---- Sorting and dropping duplicates ----

  predicate Encodable(p: Point) {
    Finite(p.value) && p.timestamp > 0
  }

  function Filtered(ps: seq<Point>): seq<Point> {
    if ps == [] then [] else (if Encodable(ps[0]) then [ps[0]] else []) + Filtered(ps[1..])
  }

  // Before the first point whose key is not smaller, hence before its equals.
  function Insert(p: Point, ps: seq<Point>): seq<Point> {
    if ps == [] || !LessKey(KeyOf(ps[0]), KeyOf(p)) then [p] + ps else [ps[0]] + Insert(p, ps[1..])
  }

  // A stable sort by key.
  function Sorted(ps: seq<Point>): seq<Point> {
    if ps == [] then [] else Insert(ps[0], Sorted(ps[1..]))
  }

  // The last of each run of equal keys.
  function Survivors(ps: seq<Point>): seq<Point> {
    if ps == [] then []
    else if |ps| > 1 && KeyOf(ps[1]) == KeyOf(ps[0]) then Survivors(ps[1..])
    else [ps[0]] + Survivors(ps[1..])
  }

  // ---- Text ----

  // How values print: distinct ones differently, without spaces or line ends.
  ghost predicate GoodFormat(fmt: nat -> string) {
    && (forall a, b :: Finite(a) && Finite(b) && fmt(a) == fmt(b) ==> a == b)
    && (forall a, i :: Finite(a) && 0 <= i < |fmt(a)| ==> fmt(a)[i] != ' ' && fmt(a)[i] != '\n')
  }

  function EscapeChar(c: char): string {
    match c
    case '\\' => "\\\\"
    case '"' => "\\\""
    case '\n' => "\\n"
    case _ => [c]
  }

  function Escape(s: string): string {
    if s == [] then [] else EscapeChar(s[0]) + Escape(s[1..])
  }

  function DigitChar(d: nat): char
    requires d < 10
  {
    "0123456789"[d]
  }

  function Decimal(n: nat): (s: string)
    ensures s != []
  {
    if n < 10 then [DigitChar(n)] else Decimal(n / 10) + [DigitChar(n % 10)]
  }

  function LabelText(l: Label): string {
    l.0 + "=\"" + Escape(l.1) + "\""
  }

  function LabelsText(labels: seq<Label>): string {
    if labels == [] then []
    else if |labels| == 1 then LabelText(labels[0])
    else LabelText(labels[0]) + "," + LabelsText(labels[1..])
  }

  function Line(p: Point, fmt: nat -> string): string
    requires p.timestamp > 0
  {
    p.name + "{" + LabelsText(p.labels) + "} " + fmt(p.value) + " " + Decimal(p.timestamp) + "\n"
  }

  predicate AllPositive(ps: seq<Point>) {
    forall i :: 0 <= i < |ps| ==> ps[i].timestamp > 0
  }

  function Lines(ps: seq<Point>, fmt: nat -> string): string
    requires AllPositive(ps)
  {
    if ps == [] then [] else Line(ps[0], fmt) + Lines(ps[1..], fmt)
  }

  // ---- What sorting keeps ----

  predicate AllEncodable(ps: seq<Point>) {
    forall i :: 0 <= i < |ps| ==> Encodable(ps[i])
  }

  lemma {:induction false} FilteredAreEncodable(ps: seq<Point>)
    ensures AllEncodable(Filtered(ps))
  {
    hide Encodable;
    if ps != [] {
      FilteredAreEncodable(ps[1..]);
    }
  }

  lemma {:induction false} InsertKeepsEncodable(p: Point, ps: seq<Point>)
    requires Encodable(p) && AllEncodable(ps)
    ensures AllEncodable(Insert(p, ps))
  {
    hide Encodable, LessKey;
    if ps != [] && LessKey(KeyOf(ps[0]), KeyOf(p)) {
      InsertKeepsEncodable(p, ps[1..]);
    }
  }

  lemma {:induction false} SortedAreEncodable(ps: seq<Point>)
    requires AllEncodable(ps)
    ensures AllEncodable(Sorted(ps))
  {
    hide Encodable;
    if ps != [] {
      SortedAreEncodable(ps[1..]);
      InsertKeepsEncodable(ps[0], Sorted(ps[1..]));
    }
  }

  lemma {:induction false} SurvivorsAreEncodable(ps: seq<Point>)
    requires AllEncodable(ps)
    ensures AllEncodable(Survivors(ps)) && AllPositive(Survivors(ps))
  {
    if ps != [] {
      SurvivorsAreEncodable(ps[1..]);
    }
  }

  // The points a batch is encoded as.
  function Emitted(points: seq<Point>): (ps: seq<Point>)
    ensures AllEncodable(ps) && AllPositive(ps)
  {
    FilteredAreEncodable(points);
    SortedAreEncodable(Filtered(points));
    SurvivorsAreEncodable(Sorted(Filtered(points)));
    Survivors(Sorted(Filtered(points)))
  }

  // ---- The encoder ----

  class TextBuffer {
    var text: string

    constructor ()
      ensures text == []
    {
      text := [];
    }

    method Push(s: string)
      modifies this
      ensures text == old(text) + s
    {
      text := text + s;
    }

    method PushEscaped(value: string)
      modifies this
      ensures text == old(text) + Escape(value)
    {
      hide EscapeChar;
      assert value[0..] == value;
      for k := 0 to |value|
        invariant text + Escape(value[k..]) == old(text) + Escape(value)
      {
        EscapeStep(value, k);
        Push(EscapeChar(value[k]));
      }
      assert value[|value|..] == [] && text + [] == text;
    }

    method PushLine(p: Point, fmt: nat -> string)
      requires p.timestamp > 0
      modifies this
      ensures text == old(text) + Line(p, fmt)
    {
      hide Escape, Decimal;
      Push(p.name);
      Push("{");
      PushLabels(p.labels);
      Push("} ");
      Push(fmt(p.value));
      Push(" ");
      Push(Decimal(p.timestamp));
      Push("\n");
    }

    method PushLabels(labels: seq<Label>)
      modifies this
      ensures text == old(text) + LabelsText(labels)
    {
      hide LabelText, LabelsText;
      assert labels[0..] == labels;
      ghost var whole := old(text) + LabelsText(labels);
      for k := 0 to |labels|
        invariant text + ((if 0 < k < |labels| then "," else "") + LabelsText(labels[k..])) == whole
      {
        if k > 0 {
          Push(",");
        }
        LabelsStep(labels, k);
        PushLabel(labels[k]);
      }
      NoLabels(labels[|labels|..]);
      assert text + ("" + "") == text;
    }

    method PushLabel(l: Label)
      modifies this
      ensures text == old(text) + LabelText(l)
    {
      hide Escape;
      Push(l.0);
      Push("=\"");
      PushEscaped(l.1);
      Push("\"");
    }
  }

  lemma NoLabels(labels: seq<Label>)
    requires labels == []
    ensures LabelsText(labels) == []
  {
  }

  lemma EscapeStep(value: string, k: nat)
    requires k < |value|
    ensures Escape(value[k..]) == EscapeChar(value[k]) + Escape(value[k + 1..])
  {
    hide EscapeChar;
    assert value[k..][1..] == value[k + 1..];
  }

  lemma LabelsStep(labels: seq<Label>, k: nat)
    requires k < |labels|
    ensures LabelsText(labels[k..])
            == LabelText(labels[k]) + ((if k + 1 < |labels| then "," else "") + LabelsText(labels[k + 1..]))
  {
    hide LabelText;
    assert labels[k..][1..] == labels[k + 1..];
  }

  /** Appends the lines of the points that `Emitted` keeps. */
  method EncodeInto(points: seq<Point>, fmt: nat -> string, out: TextBuffer)
    modifies out
    ensures out.text == old(out.text) + Lines(Emitted(points), fmt)
  {
    hide Line, Encodable, LessKey, Sorted, Filtered, Survivors;
    var valid := CollectValid(points);
    var items := Sorted(valid);
    assert Survivors(items) == Emitted(points);
    SortedPositive(points);
    var i := 0;
    while i < |items|
      invariant 0 <= i <= |items| && AllPositive(Survivors(items[i..]))
      invariant out.text + Lines(Survivors(items[i..]), fmt) == old(out.text) + Lines(Emitted(points), fmt)
    {
      var j := LastOfRun(items, i);
      LinesInFront(items[j], Survivors(items[j + 1..]), fmt);
      assert Survivors(items[i..])[0] == items[j];
      out.PushLine(items[j], fmt);
      i := j + 1;
    }
    assert items[i..] == [];
    NoSurvivors();
  }

  lemma NoSurvivors()
    ensures Survivors([]) == []
  {
  }

  lemma LinesInFront(p: Point, rest: seq<Point>, fmt: nat -> string)
    requires AllPositive([p] + rest)
    ensures AllPositive(rest) && p.timestamp > 0 && Lines([p] + rest, fmt) == Line(p, fmt) + Lines(rest, fmt)
  {
    hide Line;
    Sequences.Halves([p], rest);
    assert forall i :: 0 <= i < |rest| ==> rest[i] == ([p] + rest)[i + 1];
    assert ([p] + rest)[0] == p;
  }

  method CollectValid(points: seq<Point>) returns (valid: seq<Point>)
    ensures valid == Filtered(points)
  {
    hide Encodable, Filtered;
    valid := [];
    for k := 0 to |points|
      invariant valid + Filtered(points[k..]) == Filtered(points)
    {
      FilterStep(points[k..]);
      assert points[k..][1..] == points[k + 1..];
      if Encodable(points[k]) {
        valid := valid + [points[k]];
      }
    }
    FilterNothing(points[|points|..]);
    assert valid + [] == valid;
  }

  // The last of the points that share their key with the `i`-th.
  method LastOfRun(items: seq<Point>, i: nat) returns (j: nat)
    requires i < |items|
    ensures i <= j < |items| && Survivors(items[i..]) == [items[j]] + Survivors(items[j + 1..])
  {
    j := i;
    while j + 1 < |items| && KeyOf(items[j + 1]) == KeyOf(items[i])
      invariant i <= j < |items| && KeyOf(items[j]) == KeyOf(items[i])
      invariant Survivors(items[j..]) == Survivors(items[i..])
      decreases |items| - j
    {
      assert items[j..][1..] == items[j + 1..];
      j := j + 1;
    }
    assert items[j..][1..] == items[j + 1..];
  }

  lemma FilterStep(ps: seq<Point>)
    requires ps != []
    ensures Filtered(ps) == (if Encodable(ps[0]) then [ps[0]] else []) + Filtered(ps[1..])
  {
  }

  lemma FilterNothing(ps: seq<Point>)
    requires ps == []
    ensures Filtered(ps) == []
  {
  }

  lemma SortedPositive(points: seq<Point>)
    ensures AllPositive(Survivors(Sorted(Filtered(points))))
  {
    assert AllPositive(Emitted(points));
  }
}

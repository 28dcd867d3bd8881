/**
  Metric points: what a constructor admits, and the order of names, label lists and timestamps.

  A value is the 64 bits of an IEEE double; text is a sequence of Unicode scalar values.
 */
module Metrics {
  import opened Wrappers

  type Label = (string, string)

  datatype Kind = Gauge | Counter

  datatype Point = Point(name: string, labels: seq<Label>, value: nat, timestamp: int, kind: Kind)

  datatype MetricError =
    | NonFiniteValue | InvalidTimestamp | EmptyName | NameTooLong | InvalidName | ReservedName
    | CounterNameMissingSuffix | TooManyLabels | EmptyLabelName | LabelNameTooLong | InvalidLabelName
    | ReservedLabelName | LabelValueTooLong | InvalidLabelValue | DuplicateLabel

  const MAX_LABELS: nat := 8

  // Neither infinite nor a NaN: the exponent is not all ones.
  predicate Finite(bits: nat) {
    bits / 0x10_0000_0000_0000 % 2048 != 2047
  }

  // ---- The order of text ----

  // Lexicographic by scalar value, which is the order of the UTF-8 bytes.
  predicate LessText(a: string, b: string) {
    b != [] && (a == [] || a[0] < b[0] || (a[0] == b[0] && LessText(a[1..], b[1..])))
  }

  lemma {:induction false} TextIsTotal(a: string, b: string)
    ensures LessText(a, b) || LessText(b, a) || a == b
    ensures !(LessText(a, b) && LessText(b, a)) && !LessText(a, a)
  {
    if a != [] && b != [] && a[0] == b[0] {
      TextIsTotal(a[1..], b[1..]);
      assert a == [a[0]] + a[1..] && b == [b[0]] + b[1..];
    }
    if a != [] {
      TextIsTotal(a[1..], a[1..]);
    }
  }

  lemma {:induction false} TextIsTransitive(a: string, b: string, c: string)
    requires LessText(a, b) && LessText(b, c)
    ensures LessText(a, c)
  {
    if a != [] && a[0] == b[0] && b[0] == c[0] {
      TextIsTransitive(a[1..], b[1..], c[1..]);
    }
  }

  // ---- Validation ----

  function Utf8Length(c: char): nat {
    if c as int < 0x80 then 1 else if c as int < 0x800 then 2 else if c as int < 0x1_0000 then 3 else 4
  }

  function ByteLength(s: string): nat {
    if s == [] then 0 else Utf8Length(s[0]) + ByteLength(s[1..])
  }

  predicate Letter(c: char) {
    'a' <= c <= 'z' || 'A' <= c <= 'Z'
  }

  predicate Digit(c: char) {
    '0' <= c <= '9'
  }

  predicate NameChar(c: char, colon: bool) {
    Letter(c) || Digit(c) || c == '_' || (colon && c == ':')
  }

  // Metric names may hold colons, label names may not; neither begins with a digit.
  predicate WellFormedName(s: string, colon: bool) {
    s != [] && !Digit(s[0]) && forall i :: 0 <= i < |s| ==> NameChar(s[i], colon)
  }

  predicate Reserved(s: string) {
    |s| >= 2 && s[0] == '_' && s[1] == '_'
  }

  function NameProblem(name: string): Option<MetricError> {
    if name == [] then Some(EmptyName)
    else if ByteLength(name) > 128 then Some(NameTooLong)
    else if !WellFormedName(name, true) then Some(InvalidName)
    else if Reserved(name) then Some(ReservedName)
    else None
  }

  function LabelNameProblem(name: string): Option<MetricError> {
    if name == [] then Some(EmptyLabelName)
    else if ByteLength(name) > 64 then Some(LabelNameTooLong)
    else if !WellFormedName(name, false) then Some(InvalidLabelName)
    else if Reserved(name) then Some(ReservedLabelName)
    else None
  }

  predicate Printable(s: string) {
    forall i :: 0 <= i < |s| ==> (s[i] as int >= 0x20 || s[i] == '\n') && s[i] as int != 0x7f
  }

  function LabelValueProblem(value: string): Option<MetricError> {
    if ByteLength(value) > 128 then Some(LabelValueTooLong)
    else if !Printable(value) then Some(InvalidLabelValue)
    else None
  }

  predicate GoodLabel(l: Label) {
    LabelNameProblem(l.0).None? && LabelValueProblem(l.1).None?
  }

  // No two labels share a name.
  predicate Distinct(labels: seq<Label>) {
    forall i, j :: 0 <= i < j < |labels| ==> labels[i].0 != labels[j].0
  }

  predicate AdmissibleLabels(labels: seq<Label>) {
    |labels| <= MAX_LABELS && Distinct(labels) && forall i :: 0 <= i < |labels| ==> GoodLabel(labels[i])
  }

  predicate SortedLabels(labels: seq<Label>) {
    forall i, j :: 0 <= i < j < |labels| ==> LessText(labels[i].0, labels[j].0)
  }

  function InsertLabel(l: Label, labels: seq<Label>): seq<Label> {
    if labels == [] || !LessText(labels[0].0, l.0) then [l] + labels else [labels[0]] + InsertLabel(l, labels[1..])
  }

  function SortLabels(labels: seq<Label>): seq<Label> {
    if labels == [] then [] else InsertLabel(labels[0], SortLabels(labels[1..]))
  }

  lemma {:induction false} InsertKeepsLabels(l: Label, labels: seq<Label>)
    ensures multiset(InsertLabel(l, labels)) == multiset{l} + multiset(labels)
  {
    if labels != [] && LessText(labels[0].0, l.0) {
      InsertKeepsLabels(l, labels[1..]);
      assert labels == [labels[0]] + labels[1..];
    }
  }

  lemma {:induction false} InsertSorts(l: Label, labels: seq<Label>)
    requires SortedLabels(labels) && forall i :: 0 <= i < |labels| ==> labels[i].0 != l.0
    ensures SortedLabels(InsertLabel(l, labels))
  {
    hide LessText;
    if labels == [] {
    } else if LessText(labels[0].0, l.0) {
      InsertSorts(l, labels[1..]);
      InsertKeepsLabels(l, labels[1..]);
      var rest := InsertLabel(l, labels[1..]);
      forall j | 0 <= j < |rest|
        ensures LessText(labels[0].0, rest[j].0)
      {
        assert rest[j] in multiset(rest);
        if rest[j] != l {
          assert rest[j] in labels[1..];
        }
      }
    } else {
      TextIsTotal(labels[0].0, l.0);
      forall j | 0 <= j < |labels|
        ensures LessText(l.0, labels[j].0)
      {
        if j > 0 {
          TextIsTransitive(l.0, labels[0].0, labels[j].0);
        }
      }
    }
  }

  /** Sorting keeps the labels and puts distinct names in increasing order. */
  lemma {:induction false} SortingLabels(labels: seq<Label>)
    requires Distinct(labels)
    ensures multiset(SortLabels(labels)) == multiset(labels) && SortedLabels(SortLabels(labels))
  {
    if labels != [] {
      var rest := labels[1..];
      SortingLabels(rest);
      InsertKeepsLabels(labels[0], SortLabels(rest));
      assert labels == [labels[0]] + rest;
      forall i | 0 <= i < |SortLabels(rest)|
        ensures SortLabels(rest)[i].0 != labels[0].0
      {
        assert SortLabels(rest)[i] in multiset(SortLabels(rest));
        var j :| 0 <= j < |rest| && rest[j] == SortLabels(rest)[i];
        assert labels[j + 1] == rest[j];
      }
      InsertSorts(labels[0], SortLabels(rest));
    }
  }

  // What the labels from the `k`-th on are refused for first.
  function LabelsProblem(labels: seq<Label>, k: nat): Option<MetricError>
    requires k <= |labels|
    decreases |labels| - k
  {
    if k == |labels| then None
    else if LabelNameProblem(labels[k].0).Some? then LabelNameProblem(labels[k].0)
    else if LabelValueProblem(labels[k].1).Some? then LabelValueProblem(labels[k].1)
    else if exists j :: 0 <= j < k && labels[j].0 == labels[k].0 then Some(DuplicateLabel)
    else LabelsProblem(labels, k + 1)
  }

  lemma {:induction false} NoProblemExactly(labels: seq<Label>, k: nat)
    requires k <= |labels| && Distinct(labels[..k]) && forall i :: 0 <= i < k ==> GoodLabel(labels[i])
    ensures LabelsProblem(labels, k).None? <==> Distinct(labels) && forall i :: 0 <= i < |labels| ==> GoodLabel(labels[i])
    decreases |labels| - k
  {
    hide LabelNameProblem, LabelValueProblem;
    if k == |labels| {
      assert labels[..k] == labels;
    } else if GoodLabel(labels[k]) && forall j :: 0 <= j < k ==> labels[j].0 != labels[k].0 {
      var front := labels[..k + 1];
      forall i, j | 0 <= i < j < |front|
        ensures front[i].0 != front[j].0
      {
        assert j < k ==> labels[..k][i].0 != labels[..k][j].0;
      }
      NoProblemExactly(labels, k + 1);
    }
  }

  /** Labels pass exactly when they are few, good and distinct; they come back in order of their names. */
  method ValidateLabels(labels: seq<Label>) returns (r: Result<seq<Label>, MetricError>)
    ensures r.Ok? <==> AdmissibleLabels(labels)
    ensures r.Ok? ==> SortedLabels(r.value) && multiset(r.value) == multiset(labels) && r.value == SortLabels(labels)
    ensures |labels| > MAX_LABELS ==> r == Err(TooManyLabels)
    ensures |labels| <= MAX_LABELS && r.Err? ==> LabelsProblem(labels, 0) == Some(r.error)
  {
    hide LabelNameProblem, LabelValueProblem;
    if |labels| > MAX_LABELS {
      return Err(TooManyLabels);
    }
    NoProblemExactly(labels, 0);
    var seen: seq<string> := [];
    for k := 0 to |labels|
      invariant |seen| == k && forall j :: 0 <= j < k ==> seen[j] == labels[j].0
      invariant LabelsProblem(labels, k) == LabelsProblem(labels, 0)
    {
      var (name, value) := labels[k];
      if LabelNameProblem(name).Some? {
        return Err(LabelNameProblem(name).value);
      }
      if LabelValueProblem(value).Some? {
        return Err(LabelValueProblem(value).value);
      }
      if exists j :: 0 <= j < |seen| && seen[j] == name {
        return Err(DuplicateLabel);
      }
      seen := seen + [name];
    }
    SortingLabels(labels);
    r := Ok(SortLabels(labels));
  }

  predicate EndsInTotal(name: string) {
    |name| >= 6 && name[|name| - 6..] == "_total"
  }

  // What the constructor promises of a point, and the encoder's parser relies on.
  predicate ValidPoint(p: Point) {
    && Finite(p.value) && p.timestamp > 0 && NameProblem(p.name).None?
    && (p.kind == Counter ==> EndsInTotal(p.name))
    && AdmissibleLabels(p.labels) && SortedLabels(p.labels)
  }

  method NewPoint(name: string, labels: seq<Label>, value: nat, timestamp: int, kind: Kind)
    returns (r: Result<Point, MetricError>)
    ensures r.Ok? <==> Finite(value) && timestamp > 0 && NameProblem(name).None?
                       && (kind == Counter ==> EndsInTotal(name)) && AdmissibleLabels(labels)
    ensures r.Ok? ==> ValidPoint(r.value) && r.value == Point(name, SortLabels(labels), value, timestamp, kind)
  {
    hide LabelNameProblem, LabelValueProblem, NameProblem, LabelsProblem, Finite;
    if !Finite(value) {
      return Err(NonFiniteValue);
    }
    if timestamp <= 0 {
      return Err(InvalidTimestamp);
    }
    if NameProblem(name).Some? {
      return Err(NameProblem(name).value);
    }
    if kind == Counter && !EndsInTotal(name) {
      return Err(CounterNameMissingSuffix);
    }
    var sorted :- ValidateLabels(labels);
    SameLabelsAdmissible(labels, sorted);
    r := Ok(Point(name, sorted, value, timestamp, kind));
  }

  lemma SameLabelsAdmissible(labels: seq<Label>, sorted: seq<Label>)
    requires AdmissibleLabels(labels) && SortedLabels(sorted) && multiset(sorted) == multiset(labels)
    ensures AdmissibleLabels(sorted)
  {
    hide GoodLabel, LessText;
    assert |sorted| == |multiset(sorted)| == |multiset(labels)| == |labels|;
    forall i | 0 <= i < |sorted|
      ensures GoodLabel(sorted[i])
    {
      assert sorted[i] in multiset(labels);
    }
    forall i, j | 0 <= i < j < |sorted|
      ensures sorted[i].0 != sorted[j].0
    {
      TextIsTotal(sorted[i].0, sorted[j].0);
    }
  }
}

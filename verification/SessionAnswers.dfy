/**
  What a session makes of what the peer says: requests go out whole and in order, the answer is returned when it comes,
  kept values stand in when it does not, and a request that times out is sent once more.
 */
module SessionAnswers {
  import opened Wrappers
  import opened Bytes
  import opened Records
  import opened Frames
  import opened Sessions
  import opened Sequences
  import Control

  // ---- Writes that succeed ----

  predicate AllPass(l: Link) {
    l.isOpen && forall i :: 0 <= i < |l.writes| ==> l.writes[i].None?
  }

  // The chunks among the frames sent.
  function ChunksSent(sent: seq<Sent>): seq<Chunk> {
    if sent == [] then []
    else
      var last := sent[|sent| - 1];
      ChunksSent(sent[..|sent| - 1]) + if last.ToChunk? then [last.chunk] else []
  }

  lemma OneMoreChunk(sent: seq<Sent>, frame: Sent)
    ensures ChunksSent(sent + [frame]) == ChunksSent(sent) + if frame.ToChunk? then [frame.chunk] else []
  {
    Halves(sent, [frame]);
  }

  lemma WritePasses(l: Link, frame: Sent)
    requires AllPass(l)
    ensures var (status, next) := Write(l, frame);
            status == Pass && AllPass(next) && next.events == l.events && next.sent == l.sent + [frame]
  {
  }

  lemma {:induction false} ChunksPass(l: Link, chunks: seq<Chunk>)
    requires AllPass(l)
    ensures var (status, next) := WriteChunks(l, chunks);
            && status == Pass && AllPass(next) && next.events == l.events
            && ChunksSent(next.sent) == ChunksSent(l.sent) + chunks
    decreases |chunks|
  {
    hide Write, AllPass, ChunksSent;
    if chunks == [] {
      Unit(ChunksSent(l.sent));
    } else {
      WritePasses(l, ToChunk(chunks[0]));
      OneMoreChunk(l.sent, ToChunk(chunks[0]));
      ChunksPass(Write(l, ToChunk(chunks[0])).1, chunks[1..]);
      Associative(ChunksSent(l.sent), [chunks[0]], chunks[1..]);
      FirstAndRest(chunks);
    }
  }

  /** A request that can be written is sent whole: the chunks that split it, in order. */
  lemma RequestIsSent(l: Link, payload: seq<Byte>)
    requires AllPass(l) && payload != []
    ensures var (status, next) := WriteRequest(l, payload);
            && status == Pass && AllPass(next) && next.events == l.events
            && ChunksSent(next.sent) == ChunksSent(l.sent) + Split(payload, WRITE_SIZE)
            && IsSplit(Split(payload, WRITE_SIZE), payload, WRITE_SIZE)
  {
    hide Split, WriteChunks, AllPass, ChunksSent;
    ChunksPass(l, Split(payload, WRITE_SIZE));
  }

  lemma CreditPasses(s: Session, l: Link, source: Source)
    requires AllPass(l)
    ensures var t := Replenish(s, l, source);
            && t.result.Ok? && AllPass(t.link) && t.link.events == l.events
            && t.session == s.(chunks := t.session.chunks) && ChunksSent(t.link.sent) == ChunksSent(l.sent)
  {
    hide AllPass, ChunksSent;
    var (chunks, grant) := Record(s.chunks, source);
    if grant.Some? {
      WritePasses(l, ToControl([0xf9, grant.value]));
      OneMoreChunk(l.sent, ToControl([0xf9, grant.value]));
      Unit(ChunksSent(l.sent));
    }
  }

  // ---- What the peer says ----

  predicate ClearsBuffer(e: Event) {
    e.Arrives? && e.source == ControlSource && Control.Parse(e.value) == Ok(Control.ClearBuffer)
  }

  predicate ReportsError(e: Event) {
    e.Arrives? && e.source == ControlSource && Control.Parse(e.value).Ok? && Control.Parse(e.value).value.Error?
  }

  // The bytes of the chunks, one after the other.
  function DataIn(events: seq<Event>): seq<Byte> {
    if events == [] then []
    else (if events[0].Arrives? && events[0].source != ControlSource then events[0].value else []) + DataIn(events[1..])
  }

  // Notifications that end no payload, and fit the buffer.
  predicate Unfinished(events: seq<Event>, buffered: nat) {
    && (forall i :: 0 <= i < |events| ==> events[i].Arrives? && events[i].source != LastDataSource)
    && buffered + |DataIn(events)| <= DEFAULT_MAX_BUFFER
  }

  predicate NoErrors(events: seq<Event>) {
    forall i :: 0 <= i < |events| ==> !ReportsError(events[i])
  }

  // The buffer behind one event that ends no payload.
  function Buffered(buffer: seq<Byte>, e: Event): seq<Byte>
    requires e.Arrives?
  {
    if ClearsBuffer(e) then [] else if e.source == ControlSource then buffer else buffer + e.value
  }

  // The buffer was last cleared just before the `k`-th event, or not at all if `k` is zero.
  predicate ClearedBefore(events: seq<Event>, k: nat) {
    && k <= |events| && (k > 0 ==> ClearsBuffer(events[k - 1]))
    && forall i :: k <= i < |events| ==> !ClearsBuffer(events[i])
  }

  // What is buffered behind the events.
  function Collected(buffer: seq<Byte>, events: seq<Event>, k: nat): seq<Byte>
    requires k <= |events|
  {
    (if k == 0 then buffer else []) + DataIn(events[k..])
  }

  lemma OneEvent(buffer: seq<Byte>, events: seq<Event>, k: nat)
    requires events != [] && Unfinished(events, |buffer|) && ClearedBefore(events, k)
    ensures var e := events[0];
            var next := Buffered(buffer, e);
            var j := if k == 0 then 0 else k - 1;
            && Unfinished(events[1..], |next|) && ClearedBefore(events[1..], j)
            && Collected(next, events[1..], j) == Collected(buffer, events, k)
  {
    hide ClearsBuffer;
    var e, rest := events[0], DataIn(events[1..]);
    Unit(rest);
    Associative(buffer, if e.source == ControlSource then [] else e.value, rest);
    Unit(buffer);
    assert events[0..] == events;
    assert k > 0 ==> events[1..][k - 1..] == events[k..];
    assert forall i :: 0 < i < |events| ==> events[1..][i - 1] == events[i];
  }

  // ---- The next payload ----

  lemma TakenPasses(l: Link)
    requires AllPass(l) && l.events != []
    ensures AllPass(Taken(l)) && Taken(l).events == l.events[1..] && Taken(l).sent == l.sent
  {
  }

  // An event that ends neither a payload nor the wait.
  predicate Middling(s: Session, l: Link) {
    AllPass(l) && l.events != [] && Unfinished([l.events[0]], |s.buffer|)
  }

  // Session and link behind such an event.
  function PastFirst(s: Session, l: Link): (Session, Link)
    requires Middling(s, l)
  {
    var t := Replenish(s, Taken(l), l.events[0].source);
    (t.session.(buffer := Buffered(s.buffer, l.events[0])), t.link)
  }

  lemma FitsBehind(s: Session, l: Link)
    requires Middling(s, l)
    ensures var e := l.events[0];
            e.Arrives? && e.source != LastDataSource && (e.source == DataSource ==> |s.buffer| + |e.value| <= DEFAULT_MAX_BUFFER)
  {
    var e := l.events[0];
    assert [e][0] == e && [e][1..] == [];
    Unit(e.value);
  }

  lemma PayloadBehind(s: Session, l: Link)
    requires Middling(s, l) && !ReportsError(l.events[0])
    ensures var (next, link) := PastFirst(s, l); NextPayload(s, l) == NextPayload(next, link)
  {
    FitsBehind(s, l);
    TakenPasses(l);
    CreditPasses(s, Taken(l), l.events[0].source);
    hide Replenish, Control.Parse, Unfinished, AllPass, DataIn;
  }

  lemma DrainBehind(s: Session, l: Link, inst: U16)
    requires Middling(s, l)
    ensures var (next, link) := PastFirst(s, l); DrainEvents(s, l, inst) == DrainEvents(next, link, inst)
  {
    FitsBehind(s, l);
    TakenPasses(l);
    CreditPasses(s, Taken(l), l.events[0].source);
    hide Replenish, Control.Parse, Unfinished, AllPass, DataIn, HasValues;
  }

  lemma EventIsTaken(s: Session, l: Link) returns (next: Session, link: Link)
    requires Middling(s, l)
    ensures !ReportsError(l.events[0]) ==> NextPayload(s, l) == NextPayload(next, link)
    ensures forall inst: U16 :: DrainEvents(s, l, inst) == DrainEvents(next, link, inst)
    ensures next == s.(buffer := Buffered(s.buffer, l.events[0]), chunks := next.chunks)
    ensures AllPass(link) && link.events == l.events[1..] && ChunksSent(link.sent) == ChunksSent(l.sent)
  {
    hide NextPayload, DrainEvents, Replenish, ReportsError, Buffered, ChunksSent, Unfinished;
    FitsBehind(s, l);
    TakenPasses(l);
    CreditPasses(s, Taken(l), l.events[0].source);
    var b := PastFirst(s, l);
    next, link := b.0, b.1;
    if !ReportsError(l.events[0]) {
      PayloadBehind(s, l);
    }
    forall inst: U16
      ensures DrainEvents(s, l, inst) == DrainEvents(next, link, inst)
    {
      DrainBehind(s, l, inst);
    }
  }

  lemma {:induction false} EventsAreTaken(s: Session, l: Link, events: seq<Event>, k: nat, tail: seq<Event>)
    returns (next: Session, link: Link)
    requires AllPass(l) && l.events == events + tail && Unfinished(events, |s.buffer|) && ClearedBefore(events, k)
    ensures NoErrors(events) ==> NextPayload(s, l) == NextPayload(next, link)
    ensures forall inst: U16 :: DrainEvents(s, l, inst) == DrainEvents(next, link, inst)
    ensures next == s.(buffer := Collected(s.buffer, events, k), chunks := next.chunks)
    ensures AllPass(link) && link.events == tail && ChunksSent(link.sent) == ChunksSent(l.sent)
    decreases |events|
  {
    hide NextPayload, DrainEvents, AllPass, ChunksSent, ClearsBuffer, ReportsError, Buffered;
    next, link := s, l;
    if events == [] {
      Unit(tail);
      Unit(s.buffer);
    } else {
      RestOfSum(events, tail);
      OneEvent(s.buffer, events, k);
      FirstFits(events, |s.buffer|);
      next, link := EventIsTaken(s, l);
      next, link := EventsAreTaken(next, link, events[1..], if k == 0 then 0 else k - 1, tail);
    }
  }

  lemma FirstFits(events: seq<Event>, buffered: nat)
    requires events != [] && Unfinished(events, buffered)
    ensures Unfinished([events[0]], buffered)
  {
    var e := events[0];
    assert [e][1..] == [];
  }

  // ---- Whole payloads ----

  // Notifications that end no payload, the last clearing of the buffer among them, and the chunk that ends it.
  datatype Message = Message(before: seq<Event>, cleared: nat, last: seq<Byte>)

  predicate Whole(m: Message) {
    Unfinished(m.before, |m.last|) && ClearedBefore(m.before, m.cleared)
  }

  function Payload(m: Message): seq<Byte>
    requires Whole(m)
  {
    DataIn(m.before[m.cleared..]) + m.last
  }

  function EventsOf(m: Message): seq<Event> {
    m.before + [Arrives(LastDataSource, m.last)]
  }

  lemma LastChunk(s: Session, l: Link, inst: U16) returns (next: Session, link: Link)
    requires AllPass(l) && l.events != [] && l.events[0].Arrives? && l.events[0].source == LastDataSource
    requires |s.buffer| + |l.events[0].value| <= DEFAULT_MAX_BUFFER
    ensures var payload := s.buffer + l.events[0].value;
            && NextPayload(s, l) == Turn(Ok(payload), next, link)
            && DrainEvents(s, l, inst)
               == DrainEvents(if HasValues(payload, inst) == Ok(true) then next.(fallback := Some(payload)) else next, link, inst)
    ensures next == s.(buffer := [], chunks := next.chunks)
    ensures AllPass(link) && link.events == l.events[1..] && ChunksSent(link.sent) == ChunksSent(l.sent)
  {
    TakenPasses(l);
    CreditPasses(s, Taken(l), LastDataSource);
    hide Replenish, ChunksSent, HasValues;
    var t := Replenish(s, Taken(l), LastDataSource);
    next, link := t.session.(buffer := []), t.link;
  }

  lemma ShorterSuffix(events: seq<Event>, k: nat)
    requires k <= |events|
    ensures |DataIn(events[k..])| <= |DataIn(events)|
    decreases k
  {
    if k > 0 {
      ShorterSuffix(events[1..], k - 1);
      assert events[1..][k - 1..] == events[k..];
    } else {
      assert events[0..] == events;
    }
  }

  // A whole payload is the next one, or is kept by a drain if it has values of the instance.
  lemma PayloadArrives(s: Session, l: Link, m: Message, tail: seq<Event>, inst: U16) returns (next: Session, link: Link)
    requires AllPass(l) && s.buffer == [] && Whole(m) && l.events == EventsOf(m) + tail
    ensures NoErrors(m.before) ==> NextPayload(s, l) == Turn(Ok(Payload(m)), next, link)
    ensures DrainEvents(s, l, inst)
            == DrainEvents(if HasValues(Payload(m), inst) == Ok(true) then next.(fallback := Some(Payload(m))) else next,
                           link, inst)
    ensures next == s.(chunks := next.chunks)
    ensures AllPass(link) && link.events == tail && ChunksSent(link.sent) == ChunksSent(l.sent)
  {
    hide NextPayload, DrainEvents, AllPass, ChunksSent, ClearedBefore, DataIn, HasValues;
    var last := [Arrives(LastDataSource, m.last)];
    Associative(m.before, last, tail);
    UnfinishedAlone(m.before, |m.last|);
    ClearedWithin(m.before, m.cleared);
    next, link := EventsAreTaken(s, l, m.before, m.cleared, last + tail);
    Halves(last, tail);
    Unit(DataIn(m.before[m.cleared..]));
    ShorterSuffix(m.before, m.cleared);
    assert Collected([], m.before, m.cleared) == DataIn(m.before[m.cleared..]);
    next, link := LastChunk(next, link, inst);
  }

  lemma UnfinishedAlone(events: seq<Event>, more: nat)
    requires Unfinished(events, more)
    ensures Unfinished(events, 0) && |DataIn(events)| + more <= DEFAULT_MAX_BUFFER
  {
  }

  lemma ClearedWithin(events: seq<Event>, k: nat)
    requires ClearedBefore(events, k)
    ensures k <= |events|
  {
  }

  // ---- Payload after payload ----

  predicate AllWhole(ms: seq<Message>) {
    forall i :: 0 <= i < |ms| ==> Whole(ms[i])
  }

  function Transcript(ms: seq<Message>): seq<Event> {
    if ms == [] then [] else EventsOf(ms[0]) + Transcript(ms[1..])
  }

  // Payloads without errors in between, none with values of the instance.
  predicate Unrelated(ms: seq<Message>, inst: U16)
    requires AllWhole(ms)
  {
    forall i :: 0 <= i < |ms| ==> NoErrors(ms[i].before) && HasValues(Payload(ms[i]), inst) == Ok(false)
  }

  // The wait goes on behind unrelated payloads.
  lemma {:induction false} UnrelatedArePassedOver(s: Session, l: Link, inst: U16, ms: seq<Message>, tail: seq<Event>)
    returns (next: Session, link: Link)
    requires AllPass(l) && s.buffer == [] && AllWhole(ms) && Unrelated(ms, inst) && l.events == Transcript(ms) + tail
    ensures WaitForValues(s, l, inst) == WaitForValues(next, link, inst)
    ensures next == s.(chunks := next.chunks)
    ensures AllPass(link) && link.events == tail && ChunksSent(link.sent) == ChunksSent(l.sent)
    decreases |ms|
  {
    hide NextPayload, DrainEvents, AllPass, ChunksSent, HasValues, Whole, EventsOf, Payload, NoErrors;
    next, link := s, l;
    if ms == [] {
      Unit(tail);
    } else {
      Associative(EventsOf(ms[0]), Transcript(ms[1..]), tail);
      next, link := PayloadArrives(s, l, ms[0], Transcript(ms[1..]) + tail, inst);
      next, link := UnrelatedArePassedOver(next, link, inst, ms[1..], tail);
    }
  }

  // The first payload that is not unrelated decides: values of the instance are returned, a malformed one is an error.
  lemma AnswerIsFound(s: Session, l: Link, inst: U16, ms: seq<Message>, answer: Message, tail: seq<Event>)
    requires AllPass(l) && s.buffer == [] && AllWhole(ms) && Unrelated(ms, inst)
    requires Whole(answer) && NoErrors(answer.before) && HasValues(Payload(answer), inst) != Ok(false)
    requires l.events == Transcript(ms) + (EventsOf(answer) + tail)
    ensures var t := WaitForValues(s, l, inst);
            && t.result == (if HasValues(Payload(answer), inst).Ok? then Ok(Payload(answer)) else Err(BleError.Other))
            && t.session == s.(chunks := t.session.chunks)
            && AllPass(t.link) && t.link.events == tail && ChunksSent(t.link.sent) == ChunksSent(l.sent)
  {
    var values := HasValues(Payload(answer), inst);
    assert values.Err? ==> values.error == BleError.Other;
    hide NextPayload, DrainEvents, AllPass, ChunksSent, HasValues, Whole, EventsOf, Payload, NoErrors;
    var next, link := UnrelatedArePassedOver(s, l, inst, ms, EventsOf(answer) + tail);
    var session, rest := PayloadArrives(next, link, answer, tail, inst);
  }

  // ---- Waits that find nothing ----

  // What comes behind the last whole payload ends the wait with this error.
  predicate EndsIn(events: seq<Event>, error: BleError) {
    if events == [] then error == Timeout
    else
      match events[0]
      case Silence => error == Timeout
      case Fails(Expired) => error == Timeout
      case Fails(Stopped) => error == Disconnected
      case Fails(NotOpen) => error == BleError.Other
      case Fails(Broken) => error == Failed(Broken)
      case Arrives(source, value) =>
        source == ControlSource && error.PeerControl? && Control.Parse(value) == Ok(Control.Error(error.code))
  }

  function Behind(events: seq<Event>): seq<Event> {
    if events == [] then [] else events[1..]
  }

  lemma WaitEnds(s: Session, l: Link, inst: U16, error: BleError)
    requires AllPass(l) && EndsIn(l.events, error)
    ensures var t := WaitForValues(s, l, inst);
            && t.result == Err(error) && t.session == s.(chunks := t.session.chunks)
            && AllPass(t.link) && t.link.events == Behind(l.events) && ChunksSent(t.link.sent) == ChunksSent(l.sent)
  {
    if l.events != [] {
      TakenPasses(l);
      if l.events[0].Arrives? {
        CreditPasses(s, Taken(l), ControlSource);
      }
    }
    hide Replenish, ChunksSent, HasValues, Control.Parse;
  }

  // Unrelated payloads, then at most part of one, and then what ends the wait.
  lemma NothingIsFound(s: Session, l: Link, inst: U16, ms: seq<Message>, part: seq<Event>, k: nat, end: seq<Event>,
                       error: BleError)
    requires AllPass(l) && s.buffer == [] && AllWhole(ms) && Unrelated(ms, inst)
    requires Unfinished(part, 0) && ClearedBefore(part, k) && NoErrors(part) && EndsIn(end, error)
    requires l.events == Transcript(ms) + (part + end)
    ensures var t := WaitForValues(s, l, inst);
            && t.result == Err(error) && t.session == s.(buffer := t.session.buffer, chunks := t.session.chunks)
            && AllPass(t.link) && t.link.events == Behind(end) && ChunksSent(t.link.sent) == ChunksSent(l.sent)
  {
    hide NextPayload, DrainEvents, AllPass, ChunksSent, HasValues, Unfinished, ClearedBefore, NoErrors, EndsIn;
    var next, link := UnrelatedArePassedOver(s, l, inst, ms, part + end);
    var session, rest := EventsAreTaken(next, link, part, k, end);
    SameWait(next, link, session, rest, inst);
    WaitEnds(session, rest, inst, error);
  }

  lemma SameWait(s: Session, l: Link, next: Session, link: Link, inst: U16)
    requires NextPayload(s, l) == NextPayload(next, link)
    ensures WaitForValues(s, l, inst) == WaitForValues(next, link, inst)
  {
    hide NextPayload, HasValues;
  }

  /** A chunk that does not fit ends any wait or drain with an error, and what was buffered is dropped. */
  lemma OverflowEndsWait(s: Session, l: Link, inst: U16)
    requires AllPass(l) && l.events != [] && l.events[0].Arrives? && l.events[0].source != ControlSource
    requires |s.buffer| + |l.events[0].value| > DEFAULT_MAX_BUFFER
    ensures var t := WaitForValues(s, l, inst); t.result == Err(BleError.Other) && t.session.buffer == []
    ensures var t := DrainEvents(s, l, inst); t.result == Err(BleError.Other) && t.session.buffer == []
  {
    TakenPasses(l);
    CreditPasses(s, Taken(l), l.events[0].source);
    hide Replenish, HasValues;
  }

  /** The 65th chunk is answered with a grant; a grant that cannot be written ends any wait or drain with its error. */
  lemma FailedGrantEndsWait(s: Session, l: Link, inst: U16)
    requires l.isOpen && l.events != [] && l.events[0].Arrives? && l.events[0].source != ControlSource
    requires s.chunks == 64 && l.writes != [] && l.writes[0].Some?
    ensures var error := MapTransport(l.writes[0].value);
            WaitForValues(s, l, inst).result == Err(error) && DrainEvents(s, l, inst).result == Err(error)
  {
    var t := Replenish(s, Taken(l), l.events[0].source);
    assert t.result == Err(MapTransport(l.writes[0].value));
    hide Replenish, HasValues;
  }

  /** A transport that fails during a drain, other than by a timeout, fails the drain. */
  lemma FailureEndsDrain(s: Session, l: Link, inst: U16, error: BleError)
    requires AllPass(l) && l.events != [] && l.events[0].Fails? && EndsIn(l.events, error) && error != Timeout
    ensures DrainEvents(s, l, inst).result == Err(error)
  {
  }

  // ---- Requests ----

  // An answer behind unrelated payloads, and what has not arrived yet.
  datatype Script = Script(unrelated: seq<Message>, answer: Message, tail: seq<Event>)

  predicate Answers(script: Script, inst: U16) {
    && AllWhole(script.unrelated) && Unrelated(script.unrelated, inst)
    && Whole(script.answer) && NoErrors(script.answer.before) && HasValues(Payload(script.answer), inst) == Ok(true)
  }

  function ScriptEvents(script: Script): seq<Event> {
    Transcript(script.unrelated) + (EventsOf(script.answer) + script.tail)
  }

  // Unrelated payloads, at most part of one, and an end with this error.
  datatype Silent = Silent(unrelated: seq<Message>, part: seq<Event>, cleared: nat, end: seq<Event>, error: BleError)

  predicate FindsNothing(q: Silent, inst: U16) {
    && AllWhole(q.unrelated) && Unrelated(q.unrelated, inst)
    && Unfinished(q.part, 0) && ClearedBefore(q.part, q.cleared) && NoErrors(q.part) && EndsIn(q.end, q.error)
  }

  function SilentEvents(q: Silent): seq<Event> {
    Transcript(q.unrelated) + (q.part + q.end)
  }

  // A subscribed session on a link that takes what is written.
  predicate MayAsk(s: Session, l: Link, inst: U16, payload: seq<Byte>) {
    s.subscribed == Some(inst) && AllPass(l) && payload != []
  }

  /** A fresh answer is returned, after one request, even when there are kept values to fall back on. */
  lemma AnswerIsReturned(s: Session, l: Link, inst: U16, payload: seq<Byte>, script: Script)
    requires MayAsk(s, l, inst, payload) && Answers(script, inst) && l.events == ScriptEvents(script)
    ensures var t := RequestValues(s, l, payload);
            && t.result == Ok(Payload(script.answer))
            && t.session == s.(buffer := [], reusable := true, chunks := t.session.chunks)
            && t.link.events == script.tail && ChunksSent(t.link.sent) == ChunksSent(l.sent) + Split(payload, WRITE_SIZE)
  {
    hide WaitForValues, WriteRequest, AllPass, ChunksSent, HasValues, Payload;
    RequestIsSent(l, payload);
    var link := WriteRequest(l, payload).1;
    AnswerIsFound(s.(reusable := false, buffer := []), link, inst, script.unrelated, script.answer, script.tail);
  }

  /** When the wait finds nothing, for whatever reason, kept values stand in, once. */
  lemma KeptValuesStandIn(s: Session, l: Link, inst: U16, payload: seq<Byte>, q: Silent)
    requires MayAsk(s, l, inst, payload) && FindsNothing(q, inst) && l.events == SilentEvents(q) && s.fallback.Some?
    ensures var t := RequestValues(s, l, payload);
            && t.result == Ok(s.fallback.value)
            && t.session == s.(buffer := t.session.buffer, reusable := true, fallback := None, chunks := t.session.chunks)
            && t.link.events == Behind(q.end) && ChunksSent(t.link.sent) == ChunksSent(l.sent) + Split(payload, WRITE_SIZE)
  {
    hide WaitForValues, WriteRequest, AllPass, ChunksSent, HasValues, EndsIn;
    RequestIsSent(l, payload);
    var link := WriteRequest(l, payload).1;
    NothingIsFound(s.(reusable := false, buffer := []), link, inst, q.unrelated, q.part, q.cleared, q.end, q.error);
  }

  /** Without kept values, a request whose wait ends in anything but a timeout fails with that error. */
  lemma FailureIsReported(s: Session, l: Link, inst: U16, payload: seq<Byte>, q: Silent)
    requires MayAsk(s, l, inst, payload) && FindsNothing(q, inst) && l.events == SilentEvents(q) && s.fallback.None?
    requires q.error != Timeout
    ensures var t := RequestValues(s, l, payload);
            && t.result == Err(q.error) && !t.session.reusable
            && ChunksSent(t.link.sent) == ChunksSent(l.sent) + Split(payload, WRITE_SIZE)
  {
    hide WaitForValues, WriteRequest, AllPass, ChunksSent, HasValues, EndsIn;
    RequestIsSent(l, payload);
    var link := WriteRequest(l, payload).1;
    NothingIsFound(s.(reusable := false, buffer := []), link, inst, q.unrelated, q.part, q.cleared, q.end, q.error);
  }

  // After a first wait that times out without kept values, the request is attempted once more, on an empty buffer.
  lemma AskedAgain(s: Session, l: Link, inst: U16, payload: seq<Byte>, q: Silent) returns (next: Session, link: Link)
    requires MayAsk(s, l, inst, payload) && FindsNothing(q, inst) && l.events == SilentEvents(q)
    requires s.fallback.None? && q.error == Timeout
    ensures RequestValues(s, l, payload) == Attempt(next, link, inst, payload, true)
    ensures next == s.(buffer := next.buffer, reusable := false, chunks := next.chunks)
    ensures AllPass(link) && link.events == Behind(q.end)
    ensures ChunksSent(link.sent) == ChunksSent(l.sent) + Split(payload, WRITE_SIZE)
  {
    hide WaitForValues, WriteRequest, AllPass, ChunksSent, HasValues, EndsIn;
    RequestIsSent(l, payload);
    var asked := s.(reusable := false, buffer := []);
    var written := WriteRequest(l, payload).1;
    NothingIsFound(asked, written, inst, q.unrelated, q.part, q.cleared, q.end, q.error);
    var t := WaitForValues(asked, written, inst);
    next, link := t.session, t.link;
  }

  /** A request that times out without kept values is sent once more, whole, and the answer to that is returned. */
  lemma SecondRequestIsAnswered(s: Session, l: Link, inst: U16, payload: seq<Byte>, q: Silent, script: Script)
    requires MayAsk(s, l, inst, payload) && FindsNothing(q, inst) && l.events == SilentEvents(q)
    requires s.fallback.None? && q.error == Timeout
    requires Answers(script, inst) && Behind(q.end) == ScriptEvents(script)
    ensures var t := RequestValues(s, l, payload);
            var chunks := Split(payload, WRITE_SIZE);
            && t.result == Ok(Payload(script.answer))
            && t.session == s.(buffer := [], reusable := true, chunks := t.session.chunks)
            && t.link.events == script.tail && ChunksSent(t.link.sent) == ChunksSent(l.sent) + chunks + chunks
  {
    hide RequestValues, WaitForValues, WriteRequest, AllPass, ChunksSent, HasValues, Payload;
    var next, link := AskedAgain(s, l, inst, payload, q);
    RequestIsSent(link, payload);
    AnswerIsFound(next.(buffer := []), WriteRequest(link, payload).1, inst, script.unrelated, script.answer, script.tail);
  }

  /** There is no third request: what ends the second wait is reported. */
  lemma SecondFailureIsReported(s: Session, l: Link, inst: U16, payload: seq<Byte>, q: Silent, again: Silent)
    requires MayAsk(s, l, inst, payload) && FindsNothing(q, inst) && l.events == SilentEvents(q)
    requires s.fallback.None? && q.error == Timeout
    requires FindsNothing(again, inst) && Behind(q.end) == SilentEvents(again)
    ensures var t := RequestValues(s, l, payload);
            var chunks := Split(payload, WRITE_SIZE);
            && t.result == Err(again.error) && !t.session.reusable
            && t.link.events == Behind(again.end) && ChunksSent(t.link.sent) == ChunksSent(l.sent) + chunks + chunks
  {
    hide RequestValues, WaitForValues, WriteRequest, AllPass, ChunksSent, HasValues, EndsIn;
    var next, link := AskedAgain(s, l, inst, payload, q);
    RequestIsSent(link, payload);
    NothingIsFound(next.(buffer := []), WriteRequest(link, payload).1, inst, again.unrelated, again.part, again.cleared,
                   again.end, again.error);
  }

  /** A request whose first write fails ends there: nothing is waited for, and kept values stay where they are. */
  lemma FailedWriteEndsRequest(s: Session, l: Link, payload: seq<Byte>)
    requires s.subscribed.Some? && l.isOpen && payload != [] && l.writes != [] && l.writes[0].Some?
    ensures var t := RequestValues(s, l, payload);
            && t.result == Err(MapTransport(l.writes[0].value)) && t.session == s.(buffer := [], reusable := false)
            && t.link.events == l.events && t.link.sent == l.sent
  {
    var chunks := Split(payload, WRITE_SIZE);
    assert WriteChunks(l, chunks).0 == Fail(MapTransport(l.writes[0].value));
    hide Split;
  }

  /** A first subscription whose first write fails ends there, with that error and without a trace in the session. */
  lemma FailedWriteEndsSubscription(s: Session, l: Link, inst: U16, payload: seq<Byte>)
    requires s.negotiated && s.subscribed != Some(inst) && l.isOpen && payload != [] && l.writes != [] && l.writes[0].Some?
    ensures var t := Subscribe(s, l, inst, payload);
            && t.result == Err(MapTransport(l.writes[0].value)) && t.session == s
            && t.link.events == l.events && t.link.sent == l.sent
  {
    var chunks := Split(payload, WRITE_SIZE);
    assert WriteChunks(l, chunks).0 == Fail(MapTransport(l.writes[0].value));
    hide Split;
  }

  // ---- Subscriptions ----

  // The last of the payloads with values of the instance is the `i`-th; there is none if `i` is their number.
  predicate LastRelated(ms: seq<Message>, inst: U16, i: nat)
    requires AllWhole(ms)
  {
    && i <= |ms| && (i < |ms| ==> HasValues(Payload(ms[i]), inst) == Ok(true))
    && forall j :: (if i < |ms| then i + 1 else 0) <= j < |ms| ==> HasValues(Payload(ms[j]), inst) != Ok(true)
  }

  // What a drain keeps of payloads, the last of which with values is the `i`-th.
  function Kept(before: Option<seq<Byte>>, ms: seq<Message>, i: nat): Option<seq<Byte>>
    requires AllWhole(ms)
  {
    if i < |ms| then Some(Payload(ms[i])) else before
  }

  lemma {:induction false} PayloadsAreDrained(s: Session, l: Link, inst: U16, ms: seq<Message>, i: nat, tail: seq<Event>)
    returns (next: Session, link: Link)
    requires AllPass(l) && s.buffer == [] && AllWhole(ms) && LastRelated(ms, inst, i) && l.events == Transcript(ms) + tail
    ensures DrainEvents(s, l, inst) == DrainEvents(next, link, inst)
    ensures next == s.(fallback := Kept(s.fallback, ms, i), chunks := next.chunks)
    ensures AllPass(link) && link.events == tail && ChunksSent(link.sent) == ChunksSent(l.sent)
    decreases |ms|
  {
    hide NextPayload, DrainEvents, AllPass, ChunksSent, HasValues, Whole, EventsOf, Payload, NoErrors;
    next, link := s, l;
    if ms == [] {
      Unit(tail);
    } else {
      Associative(EventsOf(ms[0]), Transcript(ms[1..]), tail);
      next, link := PayloadArrives(s, l, ms[0], Transcript(ms[1..]) + tail, inst);
      var related := HasValues(Payload(ms[0]), inst) == Ok(true);
      var j := if i == 0 then |ms| - 1 else i - 1;
      assert forall k :: 0 < k < |ms| ==> ms[1..][k - 1] == ms[k];
      next, link := PayloadsAreDrained(if related then next.(fallback := Some(Payload(ms[0]))) else next, link, inst,
                                       ms[1..], j, tail);
    }
  }

  // A quiet period, or the end of everything.
  predicate Quiet(events: seq<Event>) {
    events == [] || events[0] == Silence || events[0] == Fails(Expired)
  }

  /**
    A drain goes on until it is quiet and keeps the last payload with values of the instance; other payloads, malformed
    ones, errors of the peer and a payload that is never finished leave no trace.
   */
  lemma DrainKeepsLast(s: Session, l: Link, inst: U16, ms: seq<Message>, i: nat, part: seq<Event>, k: nat, end: seq<Event>)
    requires AllPass(l) && AllWhole(ms) && LastRelated(ms, inst, i) && Unfinished(part, 0) && ClearedBefore(part, k)
    requires Quiet(end) && l.events == Transcript(ms) + (part + end)
    ensures var t := Drain(s, l, inst);
            && t.result == Ok(())
            && t.session == s.(buffer := t.session.buffer, chunks := t.session.chunks, fallback := Kept(None, ms, i))
            && AllPass(t.link) && t.link.events == Behind(end) && ChunksSent(t.link.sent) == ChunksSent(l.sent)
  {
    hide NextPayload, AllPass, ChunksSent, HasValues, Unfinished, ClearedBefore, DrainEvents, Payload, Transcript;
    var next, link := PayloadsAreDrained(s.(buffer := [], fallback := None), l, inst, ms, i, part + end);
    var session, rest := EventsAreTaken(next, link, part, k, end);
    QuietEnds(session, rest, inst);
  }

  lemma QuietEnds(s: Session, l: Link, inst: U16)
    requires AllPass(l) && Quiet(l.events)
    ensures var t := DrainEvents(s, l, inst);
            && t.result == Ok(()) && t.session == s
            && AllPass(t.link) && t.link.events == Behind(l.events) && t.link.sent == l.sent
  {
    if l.events != [] {
      TakenPasses(l);
    }
  }

  /** A first subscription is written whole and keeps the last values that follow; the same one again only drains. */
  lemma SubscriptionKeepsLast(s: Session, l: Link, inst: U16, payload: seq<Byte>, ms: seq<Message>, i: nat,
                              part: seq<Event>, k: nat, end: seq<Event>)
    requires s.negotiated && AllPass(l) && payload != []
    requires AllWhole(ms) && LastRelated(ms, inst, i) && Unfinished(part, 0) && ClearedBefore(part, k)
    requires Quiet(end) && l.events == Transcript(ms) + (part + end)
    ensures var t := Subscribe(s, l, inst, payload);
            && t.result == Ok(()) && t.session.subscribed == Some(inst) && t.session.fallback == Kept(None, ms, i)
            && t.link.events == Behind(end)
            && ChunksSent(t.link.sent)
               == ChunksSent(l.sent) + if s.subscribed == Some(inst) then [] else Split(payload, WRITE_SIZE)
  {
    hide Drain, WriteRequest, AllPass, ChunksSent, HasValues, Unfinished, ClearedBefore, Payload, Transcript;
    if s.subscribed == Some(inst) {
      Unit(ChunksSent(l.sent));
      DrainKeepsLast(s, l, inst, ms, i, part, k, end);
    } else {
      RequestIsSent(l, payload);
      DrainKeepsLast(s, WriteRequest(l, payload).1, inst, ms, i, part, k, end);
    }
  }

  // ---- Opening ----

  /**
    A negotiation reads the control information, which must be seven bytes, and sends the two opening frames in order; a
    session that has negotiated sends nothing.
   */
  lemma NegotiationSends(s: Session, l: Link)
    requires AllPass(l)
    ensures var t := Negotiate(s, l, NEGOTIATION_WRITES);
            if s.negotiated then t == Turn(Ok(()), s, l)
            else
              && (t.result.Ok? <==> l.infos != [] && l.infos[0].Ok? && |l.infos[0].value| == 7)
              && (t.result.Ok? ==> t.link.sent == l.sent + [ToControl([0xfa, 0x80, 0xff]), ToControl([0xf9, 0x80])])
              && (t.result.Err? ==> t.link.sent == l.sent)
              && t.session == s.(negotiated := t.result.Ok?, reusable := t.result.Err? && s.reusable)
  {
    if !s.negotiated {
      var link := ReadControl(l).1;
      var first, second := ToControl(NEGOTIATION_WRITES[0]), ToControl(NEGOTIATION_WRITES[1]);
      WritePasses(link, first);
      var between := Write(link, first).1;
      WritePasses(between, second);
      var last := Write(between, second).1;
      assert NEGOTIATION_WRITES[1..] == [NEGOTIATION_WRITES[1]] && NEGOTIATION_WRITES[1..][1..] == [];
      assert WriteFrames(last, []) == (Pass, last);
      assert WriteFrames(between, NEGOTIATION_WRITES[1..]) == (Pass, last);
      assert (l.sent + [first]) + [second] == l.sent + [first, second];
    }
  }
}
